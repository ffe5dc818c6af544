/** Broadcasts that are sent one after the other: no flag ever collapses (dnet/router.c,
    dnet/client.c). */
module OneAtATime {
  import opened Wrappers
  import opened Codec
  import opened Topology
  import opened Flood
  import opened Delivery
  import opened Termination
  import opened Rest
  import opened Flags
  import opened Draining

  /** All copies under way belong to one broadcast. */
  ghost predicate Solo(s: Net) { forall a, b | a in s.live && b in s.live :: a.id == b.id }

  /** The flag is up at every link with a request queued. */
  ghost predicate Signalled(s: Net) {
    forall tok | tok in s.live && tok.stage == Pending && tok.path != [] :: Last(tok.path) in s.raised
  }

  /** A run in which each broadcast is sent when the one before it has drained. */
  ghost predicate Sequential(t: seq<Endpoint>, from: Net, steps: seq<Step>, to: Net)
    decreases |steps|
  {
    if steps == [] then from == to
    else
      && Enabled(t, from, steps[0]) && (steps[0].Inject? ==> Quiescent(from))
      && Sequential(t, Next(t, from, steps[0]), steps[1..], to)
  }

  /** Which it is in particular when nothing new is sent. */
  lemma {:induction false} SequentialIsRun(t: seq<Endpoint>, from: Net, steps: seq<Step>, to: Net)
    ensures Sequential(t, from, steps, to) ==> Run(t, from, steps, to)
    ensures Run(t, from, steps, to) && NoNewBroadcast(steps) ==> Sequential(t, from, steps, to)
    decreases |steps|
  {
    if steps != [] && Enabled(t, from, steps[0]) {
      hide Next, Enabled;
      assert steps[0] in steps;
      SequentialIsRun(t, Next(t, from, steps[0]), steps[1..], to);
    }
  }

  lemma {:induction false} DeliveriesAtLeast(ts: seq<Token>, j: nat, k: nat, id: nat, e: Endpoint)
    requires j < k < |ts| && Reaches(ts[j], id, e) && Reaches(ts[k], id, e)
    ensures Deliveries(ts, id, e) >= 2
  {
    if j == 0 {
      DeliveredOnce(ts[1..], k - 1, id, e);
    } else {
      DeliveriesAtLeast(ts[1..], j - 1, k - 1, id, e);
    }
  }

  lemma {:induction false} DeliveredOnce(ts: seq<Token>, k: nat, id: nat, e: Endpoint)
    requires k < |ts| && Reaches(ts[k], id, e)
    ensures Deliveries(ts, id, e) >= 1
  {
    if k > 0 {
      DeliveredOnce(ts[1..], k - 1, id, e);
    }
  }

  /** In a tree-like graph no link has two requests of one broadcast queued. */
  lemma OneQueuedEach(t: seq<Endpoint>, s: Net, j: nat, k: nat)
    requires Inv(t, s) && AllTreelike(t, s) && j < k < |s.live|
    requires s.live[j].stage == Pending && s.live[k].stage == Pending && s.live[j].id == s.live[k].id
    ensures s.live[j].path != [] && s.live[k].path != [] && Last(s.live[j].path) != Last(s.live[k].path)
  {
    var a, b := s.live[j], s.live[k];
    assert a in s.live && b in s.live;
    assert TokenOK(t, s.origins, a) && TokenOK(t, s.origins, b);
    assert s.origins[a.id] in s.origins;
    if Last(a.path) == Last(b.path) {
      var ts := s.live + s.done;
      assert ts[j] == a && ts[k] == b;
      NeverTwice(t, s, a.id, Last(a.path));
      DeliveriesAtLeast(ts, j, k, a.id, Last(a.path));
    }
  }

  lemma {:induction false} ChildrenOf(stage: Stage, parent: Token, outs: seq<(Endpoint, Packet)>)
    ensures forall c | c in Children(stage, parent, outs) :: c.id == parent.id && c.stage == stage
  {
    if outs != [] {
      ChildrenOf(stage, parent, outs[1..]);
    }
  }

  lemma SoloStep(t: seq<Endpoint>, s: Net, step: Step)
    requires Solo(s) && Enabled(t, s, step) && (step.Inject? ==> Quiescent(s))
    ensures Solo(Next(t, s, step))
  {
    hide ServerCopies, RouterCopies;
    if step.Serve? {
      ChildrenOf(Down, s.live[step.k], ServerCopies(t, Last(s.live[step.k].path), s.live[step.k].pkt));
    } else if step.Take? {
      ChildrenOf(Outbox, s.live[step.k], RouterCopies(t, Last(s.live[step.k].path), s.live[step.k].pkt));
    }
  }

  /** A runner that lowers the flag of its link leaves no request behind there. */
  lemma TakeSignalled(t: seq<Endpoint>, s: Net, k: nat)
    requires Inv(t, s) && AllTreelike(t, s) && Solo(s) && Signalled(s) && Enabled(t, s, Take(k))
    ensures Signalled(Next(t, s, Take(k)))
  {
    hide RouterCopies, Inv, AllTreelike;
    var s', e := Next(t, s, Take(k)), Last(s.live[k].path);
    ChildrenOf(Outbox, s.live[k], RouterCopies(t, e, s.live[k].pkt));
    forall tok | tok in s'.live && tok.stage == Pending && tok.path != []
      ensures Last(tok.path) in s'.raised
    {
      assert tok in Without(s.live, k);
      var i :| 0 <= i < |Without(s.live, k)| && Without(s.live, k)[i] == tok;
      var j := if i < k then i else i + 1;
      assert s.live[j] == tok && s.live[j] in s.live && s.live[k] in s.live;
      if s.live[k].stage == Pending {
        if j < k { OneQueuedEach(t, s, j, k); } else { OneQueuedEach(t, s, k, j); }
      }
    }
  }

  lemma SignalledStep(t: seq<Endpoint>, s: Net, step: Step)
    requires Inv(t, s) && AllTreelike(t, s) && Solo(s) && Signalled(s) && Enabled(t, s, step)
    ensures Signalled(Next(t, s, step))
  {
    if step.Take? {
      TakeSignalled(t, s, step.k);
    } else {
      hide ServerCopies, Inv, AllTreelike;
      if step.Serve? {
        ChildrenOf(Down, s.live[step.k], ServerCopies(t, Last(s.live[step.k].path), s.live[step.k].pkt));
      }
    }
  }

  lemma {:induction false} SequentialRun(t: seq<Endpoint>, from: Net, steps: seq<Step>, to: Net)
    requires Inv(t, from) && Solo(from) && Signalled(from)
    requires Sequential(t, from, steps, to) && AllTreelike(t, to)
    ensures Inv(t, to) && Solo(to) && Signalled(to)
    decreases |steps|
  {
    if steps != [] {
      SequentialIsRun(t, from, steps, to);
      OriginsGrow(t, from, steps, to);
      assert AllTreelike(t, from);
      hide Inv, Solo, Signalled, AllTreelike, Next, Enabled;
      InvNext(t, from, steps[0]);
      SoloStep(t, from, steps[0]);
      SignalledStep(t, from, steps[0]);
      SequentialRun(t, Next(t, from, steps[0]), steps[1..], to);
    }
  }

  /** When broadcasts are sent one after the other over a tree-like graph, no flag ever
      collapses: wherever the network comes to rest, in any schedule, it has drained. */
  lemma SequentialFloodsDrain(t: seq<Endpoint>, steps: seq<Step>, s: Net)
    requires WellFormed(t) && Sequential(t, EMPTY, steps, s) && AllTreelike(t, s) && AtRest(t, s)
    ensures Run(t, EMPTY, steps, s) && Quiescent(s) && CollapseCount(t, EMPTY, steps) == 0
  {
    InvInit(t);
    SequentialIsRun(t, EMPTY, steps, s);
    SequentialRun(t, EMPTY, steps, s);
    DrainedAtRest(t, s);
    DrainedIffNoCollapse(t, steps, s);
  }

  lemma DrainedAtRest(t: seq<Endpoint>, s: Net)
    requires Inv(t, s) && Signalled(s) && AtRest(t, s)
    ensures Quiescent(s)
  {
    RestIffUnnoticed(t, s);
    if s.live != [] { SignalledNoticed(s, 0); }
  }

  lemma SignalledNoticed(s: Net, k: nat)
    requires Signalled(s) && k < |s.live|
    ensures !Unnoticed(s, s.live[k])
  {
    assert s.live[k] in s.live;
  }

  /** As long as no flag has collapsed, a network with work left can take a step. */
  lemma Progress(t: seq<Endpoint>, s: Net) returns (step: Step)
    requires Inv(t, s) && Signalled(s) && !Quiescent(s)
    ensures Enabled(t, s, step) && !step.Inject?
  {
    assert s.live[0] in s.live;
    step := TokenMoves(t, s, 0);
  }

  /** With one broadcast at a time the flags take care of themselves: what is under way can
      drain if and only if no walk over routers from the server of its sender comes back to a
      server it has visited. */
  lemma DrainsIffTreelike(t: seq<Endpoint>, s: Net)
    requires Inv(t, s) && Solo(s) && Signalled(s)
    ensures CanDrain(t, s) <==> AllTreelike(t, s)
  {
    hide Inv, Solo, Signalled;
    if AllTreelike(t, s) {
      var steps, to := ComesToRest(t, s);
      SequentialIsRun(t, s, steps, to);
      SequentialRun(t, s, steps, to);
      DrainedAtRest(t, to);
    }
    if CanDrain(t, s) {
      var steps, to :| Run(t, s, steps, to) && NoNewBroadcast(steps) && Quiescent(to);
      DrainedTreelike(t, s, steps, to);
    }
  }
}
