/** The req_waiter of a router link is one flag for any number of requests: what the flags that
    collapse leave behind (dnet/client.c, asyncio.c). */
module Flags {
  import opened Wrappers
  import opened Topology
  import opened Flood
  import opened Delivery
  import Tally
  import opened Rest

  function IsQueued(tok: Token): nat { if tok.stage == Pending then 1 else 0 }

  /** Copies in the request queues of router links. */
  function Queued(ts: seq<Token>): nat { Tally.Sum(ts, IsQueued) }

  /** A message handler queues a request at a link whose flag is already up. */
  predicate Collapses(t: seq<Endpoint>, s: Net, step: Step)
    requires Enabled(t, s, step)
  {
    step.Receive? && Next(t, s, step).raised == s.raised && Queued(Next(t, s, step).live) > Queued(s.live)
  }

  function CollapseCount(t: seq<Endpoint>, from: Net, steps: seq<Step>): nat
    decreases |steps|
  {
    if steps == [] || !Enabled(t, from, steps[0]) then 0
    else (if Collapses(t, from, steps[0]) then 1 else 0) + CollapseCount(t, Next(t, from, steps[0]), steps[1..])
  }

  /** Flags are up only where a request is queued. */
  ghost predicate FlagsBacked(s: Net) {
    forall e | e in s.raised :: Backed(s.live, e)
  }

  /** A request is queued at link e. */
  ghost predicate Backed(ts: seq<Token>, e: Endpoint) {
    exists tok | tok in ts :: QueuedAt(tok, e)
  }

  predicate QueuedAt(tok: Token, e: Endpoint) { tok.stage == Pending && tok.path != [] && Last(tok.path) == e }

  /** What one step does to the queues of the links and to their flags. */
  lemma StepFlags(t: seq<Endpoint>, s: Net, step: Step)
    requires Inv(t, s) && Enabled(t, s, step)
    ensures var s' := Next(t, s, step);
      Queued(s'.live) - |s'.raised| == Queued(s.live) - |s.raised| + (if Collapses(t, s, step) then 1 else 0)
  {
    hide ServerCopies, RouterCopies, Children, Balanced, Tally.Sum;
    var s' := Next(t, s, step);
    match step
    case Inject(c, data, trav, muid) =>
      Tally.SumConcat(s.live, [s'.live[|s.live|]], IsQueued);
      Tally.SumZero([s'.live[|s.live|]], IsQueued);
    case Serve(k) =>
      var tok := s.live[k];
      assert tok in s.live && TokenOK(t, s.origins, tok);
      var outs := ServerCopies(t, Last(tok.path), tok.pkt);
      ServerChildrenOK(t, s.origins, tok, outs);
      Tally.SumWithout(s.live, k, IsQueued);
      Tally.SumConcat(Without(s.live, k), Children(Down, tok, outs), IsQueued);
      Tally.SumZero(Children(Down, tok, outs), IsQueued);
    case Take(k) =>
      var tok := s.live[k];
      assert tok in s.live && TokenOK(t, s.origins, tok);
      var outs := RouterCopies(t, Last(tok.path), tok.pkt);
      RouterChildrenOK(t, s.origins, tok, outs);
      Tally.SumWithout(s.live, k, IsQueued);
      Tally.SumConcat(Without(s.live, k), Children(Outbox, tok, outs), IsQueued);
      Tally.SumZero(Children(Outbox, tok, outs), IsQueued);
    case Receive(k) =>
      var tok := s.live[k];
      Tally.SumWithout(s.live, k, IsQueued);
      Tally.SumUpdate(s.live, k, tok.(stage := Pending), IsQueued);
    case Forward(k, muid) =>
      Tally.SumUpdate(s.live, k, s'.live[k], IsQueued);
  }

  lemma StillThere(ts: seq<Token>, k: nat, tok: Token)
    requires k < |ts| && tok in ts && tok != ts[k]
    ensures tok in Without(ts, k)
  {
    var j :| 0 <= j < |ts| && ts[j] == tok;
    assert Without(ts, k)[if j < k then j else j - 1] == tok;
  }

  /** A flag stays up only while a request is queued.  The one that is taken lowers it. */
  lemma StepBacked(t: seq<Endpoint>, s: Net, step: Step)
    requires Enabled(t, s, step) && FlagsBacked(s)
    ensures FlagsBacked(Next(t, s, step))
  {
    hide ServerCopies, RouterCopies, Children, Without;
    var s' := Next(t, s, step);
    forall e | e in s'.raised
      ensures Backed(s'.live, e)
    {
      if e in s.raised {
        assert Backed(s.live, e);
        var tok :| tok in s.live && QueuedAt(tok, e);
        match step
        case Inject(_, _, _, _) =>
        case Forward(k, _) => MovedKeeps(s.live, k, s'.live[k], tok);
        case Serve(k) => StillThere(s.live, k, tok);
        case Take(k) => StillThere(s.live, k, tok);
        case Receive(k) =>
          StillThere(s.live, k, tok);
          MovedKeeps(s.live, k, s.live[k].(stage := Pending), tok);
        assert tok in s'.live && QueuedAt(tok, e);
      } else {
        assert s'.live[step.k] in s'.live && QueuedAt(s'.live[step.k], e);
      }
    }
  }

  lemma MovedKeeps(ts: seq<Token>, k: nat, moved: Token, tok: Token)
    requires k < |ts| && tok in ts && tok != ts[k]
    ensures tok in ts[k := moved]
  {
    var j :| 0 <= j < |ts| && ts[j] == tok;
    assert ts[k := moved][j] == tok;
  }

  lemma {:induction false} RunFlags(t: seq<Endpoint>, from: Net, steps: seq<Step>, to: Net)
    requires Inv(t, from) && FlagsBacked(from) && Run(t, from, steps, to)
    ensures Inv(t, to) && FlagsBacked(to)
    ensures Queued(to.live) - |to.raised| == Queued(from.live) - |from.raised| + CollapseCount(t, from, steps)
    decreases |steps|
  {
    if steps != [] {
      hide Inv, FlagsBacked, Next, Enabled, Collapses, Queued;
      InvNext(t, from, steps[0]);
      StepFlags(t, from, steps[0]);
      StepBacked(t, from, steps[0]);
      RunFlags(t, Next(t, from, steps[0]), steps[1..], to);
    }
  }

  /** On any topology, a network at rest still holds exactly as many copies as there were
      collapsed flags on the way, all queued at router links.  So it has drained if and only if
      no handler ever raised a flag that was up already. */
  lemma DrainedIffNoCollapse(t: seq<Endpoint>, steps: seq<Step>, s: Net)
    requires WellFormed(t) && Run(t, EMPTY, steps, s) && AtRest(t, s)
    ensures |s.live| == CollapseCount(t, EMPTY, steps)
    ensures Quiescent(s) <==> CollapseCount(t, EMPTY, steps) == 0
  {
    InvInit(t);
    RunFlags(t, EMPTY, steps, s);
    RestIffUnnoticed(t, s);
    Tally.SumFull(s.live, IsQueued);
    forall e
      ensures e !in s.raised
    {
      assert e in s.raised ==> Backed(s.live, e);
    }
  }
}
