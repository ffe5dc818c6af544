/** Exactly which states of a flood can drain (dnet/router.c, dnet/client.c, asyncio.c). */
module Draining {
  import opened Topology
  import opened Flood
  import opened Delivery
  import opened Termination
  import opened Rest
  import opened Flags

  /** Some schedule delivers everything that is under way. */
  ghost predicate CanDrain(t: seq<Endpoint>, s: Net) {
    exists steps, to :: Run(t, s, steps, to) && NoNewBroadcast(steps) && Quiescent(to)
  }

  /** Flags that are backed are no more than the queued requests. */
  lemma {:induction false} FlagsCounted(ts: seq<Token>, flags: set<Endpoint>)
    requires forall e | e in flags :: Backed(ts, e)
    ensures Queued(ts) >= |flags|
  {
    if ts == [] {
      assert flags == {} by {
        forall e ensures e !in flags { assert e in flags ==> Backed(ts, e); }
      }
    } else {
      var rest := if ts[0].stage == Pending && ts[0].path != [] then flags - {Last(ts[0].path)} else flags;
      forall e | e in rest
        ensures Backed(ts[1..], e)
      {
        assert Backed(ts, e);
        var tok :| tok in ts && QueuedAt(tok, e);
        assert tok in ts[1..];
      }
      FlagsCounted(ts[1..], rest);
    }
  }

  lemma LiveShape(t: seq<Endpoint>, s: Net)
    requires Inv(t, s)
    ensures forall tok | tok in s.live :: tok.path != [] && (tok.stage == Pending ==> Last(tok.path).owner.Router?)
  {
    hide Balanced;
    assert forall tok | tok in s.live :: TokenOK(t, s.origins, tok);
  }

  /** While no runner is forwarding, one whose flag is up can take a request. */
  lemma RaisedTakes(t: seq<Endpoint>, s: Net) returns (k: nat)
    requires Inv(t, s) && FlagsBacked(s) && s.raised != {}
    requires forall j | 0 <= j < |s.live| :: s.live[j].stage != Outbox
    ensures Enabled(t, s, Take(k))
  {
    LiveShape(t, s);
    var e :| e in s.raised;
    assert Backed(s.live, e);
    var tok :| tok in s.live && QueuedAt(tok, e);
    k :| 0 <= k < |s.live| && s.live[k] == tok;
  }

  /** Where no flag is up none can collapse. */
  lemma FirstFlag(t: seq<Endpoint>, s: Net, k: nat)
    requires Enabled(t, s, Receive(k)) && s.raised == {}
    ensures !Collapses(t, s, Receive(k))
  {
    hide Tally.Sum;
    Tally.SumWithout(s.live, k, IsQueued);
  }

  /** With as many flags up as requests queued, some step brings no flag to collapse: the
      handlers are held back until the runners have lowered the flags. */
  lemma CarefulStep(t: seq<Endpoint>, s: Net) returns (step: Step)
    requires Inv(t, s) && FlagsBacked(s) && Queued(s.live) == |s.raised| && !Quiescent(s)
    ensures Enabled(t, s, step) && !step.Inject? && !Collapses(t, s, step)
  {
    LiveShape(t, s);
    hide Inv, FlagsBacked, Next, Tally.Sum;
    if k :| 0 <= k < |s.live| && s.live[k].stage == Up {
      assert s.live[k] in s.live;
      step := Serve(k);
    } else if k :| 0 <= k < |s.live| && s.live[k].stage == Outbox {
      assert s.live[k] in s.live;
      step := Forward(k, 0);
    } else if s.raised != {} {
      var k := RaisedTakes(t, s);
      step := Take(k);
    } else {
      Tally.SumZero(s.live, IsQueued);
      assert IsQueued(s.live[0]) == 0;
      assert s.live[0] in s.live;
      step := Receive(0);
      FirstFlag(t, s, 0);
    }
  }

  lemma {:induction false} DrainCarefully(t: seq<Endpoint>, s: Net) returns (steps: seq<Step>, to: Net)
    requires Inv(t, s) && AllTreelike(t, s) && FlagsBacked(s) && Queued(s.live) == |s.raised|
    ensures Run(t, s, steps, to) && NoNewBroadcast(steps) && Quiescent(to)
    decreases Measure(t, s.live)
  {
    if Quiescent(s) {
      steps, to := [], s;
    } else {
      var step := CarefulStep(t, s);
      InvNext(t, s, step);
      StepFlags(t, s, step);
      StepBacked(t, s, step);
      StepDecreases(t, s, step);
      StepKeepsOrigins(t, s, step);
      hide Next, Inv, Measure, FlagsBacked, Collapses, Queued, Enabled;
      var rest, end := DrainCarefully(t, Next(t, s, step));
      steps, to := [step] + rest, end;
      assert steps[1..] == rest;
    }
  }

  lemma {:induction false} OriginsGrow(t: seq<Endpoint>, from: Net, steps: seq<Step>, to: Net)
    requires Run(t, from, steps, to)
    ensures from.origins <= to.origins
    decreases |steps|
  {
    hide ServerCopies, RouterCopies;
    if steps != [] {
      OriginsGrow(t, Next(t, from, steps[0]), steps[1..], to);
    }
  }

  /** A state that can drain has a tree-like graph around its senders ... */
  lemma DrainedTreelike(t: seq<Endpoint>, s: Net, steps: seq<Step>, to: Net)
    requires Inv(t, s) && Run(t, s, steps, to) && Quiescent(to)
    ensures AllTreelike(t, s)
  {
    hide Inv, Quiescent;
    InvRun(t, s, steps, to);
    OriginsGrow(t, s, steps, to);
    forall b | b in s.origins
      ensures Treelike(t, b.client.server)
    {
      var id :| 0 <= id < |s.origins| && s.origins[id] == b;
      QuiescenceNeedsTree(t, to, id);
    }
  }

  /** ... and a flag of its own for every queued request. */
  lemma DrainedFlags(t: seq<Endpoint>, s: Net, steps: seq<Step>, to: Net)
    requires Inv(t, s) && FlagsBacked(s) && Run(t, s, steps, to) && Quiescent(to)
    ensures Queued(s.live) == |s.raised|
  {
    RunFlags(t, s, steps, to);
    FlagsCounted(s.live, s.raised);
    FlagsCounted(to.live, to.raised);
  }

  /** Exactly which states can drain, with any number of broadcasts under way on any topology:
      those in which the graph is tree-like around all senders and as many flags are up as
      requests are queued. */
  lemma DrainsIff(t: seq<Endpoint>, s: Net)
    requires Inv(t, s) && FlagsBacked(s)
    ensures CanDrain(t, s) <==> AllTreelike(t, s) && Queued(s.live) == |s.raised|
  {
    hide Inv, FlagsBacked, Queued, Quiescent;
    if AllTreelike(t, s) && Queued(s.live) == |s.raised| {
      var steps, to := DrainCarefully(t, s);
    }
    if CanDrain(t, s) {
      var steps, to :| Run(t, s, steps, to) && NoNewBroadcast(steps) && Quiescent(to);
      DrainedTreelike(t, s, steps, to);
      DrainedFlags(t, s, steps, to);
    }
  }

  /** For the states that runs visit: they can drain if and only if the graph is tree-like
      around the senders and no handler has found a flag already up so far. */
  lemma ReachedDrainsIff(t: seq<Endpoint>, before: seq<Step>, s: Net)
    requires WellFormed(t) && Run(t, EMPTY, before, s)
    ensures CanDrain(t, s) <==> AllTreelike(t, s) && CollapseCount(t, EMPTY, before) == 0
  {
    InvInit(t);
    RunFlags(t, EMPTY, before, s);
    DrainsIff(t, s);
  }
}
