/** What a flood leaves undelivered on thread pools that run out of workers (dnet/router.c,
    dnet/client.c, netw/client.c). */
module Shortage {
  import opened Bytes
  import opened Topology
  import opened Flood
  import opened Delivery
  import opened Termination
  import opened Rest
  import opened Flags
  import opened Draining
  import opened OneAtATime
  import opened TwoAtOnce
  import opened Staffing

  /** An endpoint that some broadcast is meant to reach. */
  ghost predicate Due(t: seq<Endpoint>, s: Net, e: Endpoint) {
    exists b | b in s.origins :: DueFrom(t, b, e)
  }

  ghost predicate DueFrom(t: seq<Endpoint>, b: Broadcast, e: Endpoint) {
    e in t && e != b.client && Reachable(t, b.client.server, e.server)
  }

  ghost predicate AllStaffed(t: seq<Endpoint>, f: Staff, s: Net) {
    forall e | e in t && Due(t, s, e) :: Staffed(t, f, e)
  }

  /** In a tree-like graph every copy on its way is due where it arrives. */
  lemma ArrivesDue(t: seq<Endpoint>, s: Net, tok: Token)
    requires Inv(t, s) && AllTreelike(t, s) && tok in s.live && tok.stage == Down
    ensures tok.path != [] && Last(tok.path) in t && Due(t, s, Last(tok.path))
  {
    hide Balanced, PacketOK, Treelike;
    assert TokenOK(t, s.origins, tok);
    var b := s.origins[tok.id];
    assert b in s.origins && Last(tok.path) in tok.path;
    PathReaches(t, tok.path);
    PathNotToOrigin(t, tok.path);
    assert DueFrom(t, b, Last(tok.path));
  }

  lemma {:induction false} CopyFound(ts: seq<Token>, id: nat, path: seq<Endpoint>)
    requires Copies(ts, id, path) > 0
    ensures exists tok | tok in ts :: tok.path == path
  {
    if !Is(ts[0], id, path) {
      CopyFound(ts[1..], id, path);
    }
  }

  /** A drained network has taken every due endpoint in, so all of them are staffed. */
  lemma DrainedStaffed(t: seq<Endpoint>, f: Staff, s: Net, b: Broadcast, e: Endpoint)
    requires Inv(t, s) && Passed(t, f, s) && Quiescent(s) && b in s.origins && DueFrom(t, b, e)
    ensures Staffed(t, f, e)
  {
    var id :| 0 <= id < |s.origins| && s.origins[id] == b;
    var path;
    if e.owner.Client? { path := PathExists(t, b.client, e); } else { path := LinkPathExists(t, b.client, e); }
    QuiescentTakesEveryPath(t, s, id, path);
    CopyFound(s.done, id, path);
    hide Balanced;
    var n := |path| - 1;
    assert Handled(t, f, path);
    if n % 2 == 0 {
      assert HopAt(path, n - 1, false);
      assert Staffed(t, f, path[n - 1]);
    }
  }

  /** Where a network on any topology has come to a halt, with any sizes of the pools, it has
      drained if and only if the graph is tree-like around the senders, no handler ever found
      a flag up already, and every endpoint to be reached has a worker left for its handlers. */
  lemma DrainedIff(t: seq<Endpoint>, f: Staff, steps: seq<Step>, s: Net)
    requires WellFormed(t) && StaffedRun(t, f, EMPTY, steps, s) && Stalled(t, f, s)
    ensures Run(t, EMPTY, steps, s)
    ensures Quiescent(s) <==> AllTreelike(t, s) && CollapseCount(t, EMPTY, steps) == 0 && AllStaffed(t, f, s)
  {
    StaffedIsRun(t, f, EMPTY, steps, s);
    InvInit(t);
    PassedRun(t, f, EMPTY, steps, s);
    if Quiescent(s) {
      DrainedIffNoCollapse(t, steps, s);
      assert Run(t, s, [], s);
      DrainedTreelike(t, s, [], s);
      forall e | e in t && Due(t, s, e)
        ensures Staffed(t, f, e)
      {
        var b :| b in s.origins && DueFrom(t, b, e);
        DrainedStaffed(t, f, s, b, e);
      }
    }
    if AllTreelike(t, s) && AllStaffed(t, f, s) {
      StaffedAtRest(t, f, s);
      DrainedIffNoCollapse(t, steps, s);
    }
  }

  /** With enough workers everywhere the pools stop nothing. */
  lemma StaffedAtRest(t: seq<Endpoint>, f: Staff, s: Net)
    requires Inv(t, s) && AllTreelike(t, s) && AllStaffed(t, f, s) && Stalled(t, f, s)
    ensures AtRest(t, s)
  {
    hide Inv, AllTreelike, Staffed, Due;
    StalledShape(t, f, s);
    RestIffUnnoticed(t, s);
    forall k | 0 <= k < |s.live|
      ensures Unnoticed(s, s.live[k])
    {
      if Unattended(t, f, s.live[k]) { ArrivesDue(t, s, s.live[k]); }
    }
  }

  /** When broadcasts are sent one after the other over a tree-like graph, every schedule that
      comes to a halt has delivered everything, if and only if every router in reach has more
      workers than links and every client in reach more than coroutines that wait. */
  lemma SequentialDrainedIff(t: seq<Endpoint>, f: Staff, steps: seq<Step>, s: Net)
    requires WellFormed(t) && StaffedRun(t, f, EMPTY, steps, s) && Stalled(t, f, s)
    requires Sequential(t, EMPTY, steps, s) && AllTreelike(t, s)
    ensures Quiescent(s) <==> AllStaffed(t, f, s)
  {
    DrainedIff(t, f, steps, s);
    if AllStaffed(t, f, s) {
      InvInit(t);
      InvRun(t, EMPTY, steps, s);
      StaffedAtRest(t, f, s);
      SequentialFloodsDrain(t, steps, s);
    }
  }

  // ---- As many workers as links ----

  lemma {:induction false} NoHandlersNeeded(t: seq<Endpoint>, f: Staff, from: Net, steps: seq<Step>, to: Net)
    requires Run(t, from, steps, to) && NoneReceived(steps)
    ensures StaffedRun(t, f, from, steps, to)
    decreases |steps|
  {
    if steps != [] {
      hide Next, Enabled;
      assert steps[0] in steps;
      NoHandlersNeeded(t, f, Next(t, from, steps[0]), steps[1..], to);
    }
  }

  lemma ChainLinks()
    ensures |Links(CHAIN, 0)| == 2
  {
    assert CHAIN[1..] == [CHAIN[1], CHAIN[2], CHAIN[3]];
    assert CHAIN[1..][1..] == [CHAIN[2], CHAIN[3]];
    assert CHAIN[1..][1..][1..] == [CHAIN[3]];
    assert CHAIN[1..][1..][1..][1..] == [];
  }

  /** The state in which a broadcast of the first client of CHAIN has come to the router. */
  function AtRouter(data: seq<Byte>): Net {
    Net([Broadcast(CHAIN[0], data)], [Arriving(Down, 0, Sent(data, 1))], [Token(Up, 0, [CHAIN[0]], Sent(data, 1))], {})
  }

  lemma AtRouterStalls(data: seq<Byte>, f: Staff)
    requires Inv(CHAIN, AtRouter(data)) && f.workers(0) <= 2
    ensures Stalled(CHAIN, f, AtRouter(data))
  {
    hide Inv;
    StalledShape(CHAIN, f, AtRouter(data));
    ChainLinks();
    hide Links, Stalled;
    assert Unattended(CHAIN, f, AtRouter(data).live[0]);
  }

  /** One broadcast over the tree-like graph CHAIN, with no more workers at its router than the
      two links: the copy arrives there and stays. */
  lemma UnderstaffedExample(data: seq<Byte>, f: Staff) returns (steps: seq<Step>, s: Net)
    requires f.workers(0) <= 2
    ensures WellFormed(CHAIN) && StaffedRun(CHAIN, f, EMPTY, steps, s) && Stalled(CHAIN, f, s)
    ensures AllTreelike(CHAIN, s) && |s.origins| == 1 && !Quiescent(s)
  {
    s := AtRouter(data);
    ChainIsTreelike();
    hide Treelike, Run, StaffedRun, Sent, Arriving;
    steps := SentAndServed(EMPTY, data, 1, s);
    NoHandlersNeeded(CHAIN, f, EMPTY, steps, s);
    InvInit(CHAIN);
    InvRun(CHAIN, EMPTY, steps, s);
    AtRouterStalls(data, f);
  }
}
