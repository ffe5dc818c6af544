/** When a flooded network comes to rest, and what it has left undone (dnet/router.c,
    dnet/client.c, asyncio.c).

    The handler that queues a request for a router link raises the link's req_waiter; the
    runner waits for the flag, clears it and takes one request.  Two requests that arrive
    before the runner waits raise the flag once, and the second stays queued.  A raised flag
    wakes its runner, and each loop has more workers than coroutines that wait, so a handler
    can always run; modules Staffing and Shortage do without the latter. */
module Rest {
  import opened Topology
  import opened Flood
  import opened Delivery
  import opened Termination

  // ---- Quiescence needs a tree ----

  function Longest(ts: seq<Token>): nat {
    if ts == [] then 0
    else
      var n := Longest(ts[1..]);
      if |ts[0].path| > n then |ts[0].path| else n
  }

  lemma {:induction false} NoLongerCopies(ts: seq<Token>, id: nat, path: seq<Endpoint>)
    requires |path| > Longest(ts)
    ensures Copies(ts, id, path) == 0
  {
    if ts != [] {
      NoLongerCopies(ts[1..], id, path);
    }
  }

  /** A flood that drains shows that the graph was tree-like around its sender. */
  lemma QuiescenceNeedsTree(t: seq<Endpoint>, s: Net, id: nat)
    requires Inv(t, s) && Quiescent(s) && id < |s.origins|
    ensures Treelike(t, s.origins[id].client.server)
  {
    var c := s.origins[id].client;
    assert s.origins[id] in s.origins;
    if !Treelike(t, c.server) {
      var path := PathsUnbounded(t, c, Longest(s.done));
      QuiescentTakesEveryPath(t, s, id, path);
      NoLongerCopies(s.done, id, path);
    }
  }

  // ---- States at rest ----

  /** Nothing but a new broadcast can happen. */
  ghost predicate AtRest(t: seq<Endpoint>, s: Net) {
    forall step: Step | !step.Inject? :: !Enabled(t, s, step)
  }

  /** The copy waits in the queue of a link whose flag is down. */
  predicate Unnoticed(s: Net, tok: Token) {
    tok.stage == Pending && tok.path != [] && Last(tok.path) !in s.raised
  }

  /** A copy that is anything but unnoticed can move, or waits for a copy that can. */
  lemma TokenMoves(t: seq<Endpoint>, s: Net, k: nat) returns (step: Step)
    requires Inv(t, s) && k < |s.live| && !Unnoticed(s, s.live[k])
    ensures Enabled(t, s, step) && !step.Inject? && (step.Receive? ==> step == Receive(k))
  {
    var tok := s.live[k];
    assert tok in s.live && TokenOK(t, s.origins, tok);
    match tok.stage
    case Up => step := Serve(k);
    case Down => step := Receive(k);
    case Outbox => step := Forward(k, 0);
    case Pending =>
      if Busy(s, Last(tok.path)) {
        var j :| 0 <= j < |s.live| && s.live[j].stage == Outbox && |s.live[j].path| >= 2
          && s.live[j].path[|s.live[j].path| - 2] == Last(tok.path);
        step := Forward(j, 0);
      } else {
        step := Take(k);
      }
  }

  /** The network is at rest if and only if every copy under way waits unnoticed at a link. */
  lemma RestIffUnnoticed(t: seq<Endpoint>, s: Net)
    requires Inv(t, s)
    ensures AtRest(t, s) <==> forall k | 0 <= k < |s.live| :: Unnoticed(s, s.live[k])
  {
    if AtRest(t, s) {
      forall k | 0 <= k < |s.live|
        ensures Unnoticed(s, s.live[k])
      {
        if !Unnoticed(s, s.live[k]) { var step := TokenMoves(t, s, k); }
      }
    }
  }

  /** In a tree-like graph every state has a run to rest. */
  lemma {:induction false} ComesToRest(t: seq<Endpoint>, s: Net) returns (steps: seq<Step>, to: Net)
    requires Inv(t, s) && AllTreelike(t, s)
    ensures Run(t, s, steps, to) && NoNewBroadcast(steps) && AtRest(t, to) && AllTreelike(t, to)
    decreases Measure(t, s.live)
  {
    if step: Step :| !step.Inject? && Enabled(t, s, step) {
      InvNext(t, s, step);
      StepDecreases(t, s, step);
      StepKeepsOrigins(t, s, step);
      hide Next, Inv, Measure;
      var rest, end := ComesToRest(t, Next(t, s, step));
      steps, to := [step] + rest, end;
      assert steps[1..] == rest;
    } else {
      steps, to := [], s;
    }
  }
}
