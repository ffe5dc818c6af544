/** Two broadcasts at once can leave one of them behind (dnet/client.c). */
module TwoAtOnce {
  import opened Bytes
  import opened Wrappers
  import opened Codec
  import opened Dispatch
  import opened Topology
  import opened Flood
  import opened Delivery
  import opened Termination
  import opened Rest
  import opened Flags
  import opened Draining

  lemma {:induction false} ForAllOfOne(outs: seq<(Endpoint, Packet)>, e: Endpoint)
    requires forall o | o in outs :: o.0 == e
    ensures |For(outs, e)| == |outs| && forall i | 0 <= i < |outs| :: For(outs, e)[i] == outs[i].1
  {
    if outs != [] {
      assert outs[0] in outs;
      ForAllOfOne(outs[1..], e);
    }
  }

  /** A list that holds one copy, for one endpoint. */
  lemma OnlyOne(outs: seq<(Endpoint, Packet)>, e: Endpoint, q: Packet)
    requires forall x :: For(outs, x) == if x == e then [q] else []
    ensures outs == [(e, q)]
  {
    forall o | o in outs
      ensures o.0 == e
    {
      ForHolds(outs, o);
    }
    ForAllOfOne(outs, e);
    assert outs[0] in outs;
  }

  /** The client of CHAIN on server 0 reaches the router's link there, and nobody else. */
  lemma ChainServes(p: Packet)
    requires p.packtype == SIG_BROADCAST && p.fromUid == 1 && p.toUid == 0
    ensures ServerCopies(CHAIN, CHAIN[0], p) == [(CHAIN[1], BroadcastCopy(p, 2))]
  {
    ChainIsTreelike();
    forall x
      ensures For(ServerCopies(CHAIN, CHAIN[0], p), x) == if x == CHAIN[1] then [BroadcastCopy(p, 2)] else []
    {
      ServerReach(CHAIN, CHAIN[0], p, x);
    }
    OnlyOne(ServerCopies(CHAIN, CHAIN[0], p), CHAIN[1], BroadcastCopy(p, 2));
  }

  function Sent(data: seq<Byte>, muid: U64): Packet { Packet(SIG_BROADCAST, false, 1, 0, 0, 0, muid, 0, data) }

  function Arriving(stage: Stage, id: nat, p: Packet): Token {
    Token(stage, id, [CHAIN[0], CHAIN[1]], BroadcastCopy(p, 2))
  }

  lemma {:induction false} RunConcat(t: seq<Endpoint>, from: Net, a: seq<Step>, mid: Net, b: seq<Step>, to: Net)
    requires Run(t, from, a, mid) && Run(t, mid, b, to)
    ensures Run(t, from, a + b, to)
    decreases |a|
  {
    hide Enabled, Next;
    if a == [] {
      assert a + b == b;
    } else {
      RunConcat(t, Next(t, from, a[0]), a[1..], mid, b, to);
      assert (a + b)[1..] == a[1..] + b;
    }
  }

  /** No handler of a session runs. */
  ghost predicate NoneReceived(steps: seq<Step>) { forall x | x in steps :: !x.Receive? }

  /** The client sends one broadcast and its server handles it. */
  lemma SentAndServed(s: Net, data: seq<Byte>, muid: U64, to: Net) returns (steps: seq<Step>)
    requires to == s.(origins := s.origins + [Broadcast(CHAIN[0], data)],
                      live := s.live + [Arriving(Down, |s.origins|, Sent(data, muid))],
                      done := s.done + [Token(Up, |s.origins|, [CHAIN[0]], Sent(data, muid))])
    ensures Run(CHAIN, s, steps, to) && NoneReceived(steps)
  {
    var tok := Token(Up, |s.origins|, [CHAIN[0]], Sent(data, muid));
    var mid := s.(origins := s.origins + [Broadcast(CHAIN[0], data)], live := s.live + [tok]);
    var inject, serve := Inject(CHAIN[0], data, 0, muid), Serve(|s.live|);
    assert Enabled(CHAIN, s, inject) && Next(CHAIN, s, inject) == mid;
    ChainServes(tok.pkt);
    hide ServerCopies;
    assert [CHAIN[0]] + [CHAIN[1]] == [CHAIN[0], CHAIN[1]];
    assert Children(Down, tok, [(CHAIN[1], BroadcastCopy(tok.pkt, 2))]) == [Arriving(Down, |s.origins|, tok.pkt)];
    assert Without(mid.live, |s.live|) == s.live;
    assert Enabled(CHAIN, mid, serve) && Next(CHAIN, mid, serve) == to;
    steps := [inject, serve];
    assert Run(CHAIN, mid, [serve], to);
    assert steps[1..] == [serve];
  }

  /** Both copies reach the link before its runner looks. */
  lemma BothReceived(s: Net, a: Token, b: Token, to: Net) returns (steps: seq<Step>)
    requires s.live == [a.(stage := Down), b.(stage := Down)] && s.raised == {}
    requires a.stage == Pending && a.path == [CHAIN[0], CHAIN[1]] && a.pkt.toUid == 2 && Flooded(a.pkt)
    requires b.stage == Pending && b.path == [CHAIN[0], CHAIN[1]] && b.pkt.toUid == 2 && Flooded(b.pkt)
    requires to == s.(live := [a, b], raised := {CHAIN[1]})
    ensures Run(CHAIN, s, steps, to)
  {
    var mid := s.(live := [a, b.(stage := Down)], raised := {CHAIN[1]});
    assert Last(a.path) == CHAIN[1] && Last(b.path) == CHAIN[1];
    assert Enabled(CHAIN, s, Receive(0)) && Next(CHAIN, s, Receive(0)) == mid;
    assert Enabled(CHAIN, mid, Receive(1)) && Next(CHAIN, mid, Receive(1)) == to;
    steps := [Receive(0), Receive(1)];
    assert Run(CHAIN, mid, [Receive(1)], to);
    assert steps[1..] == [Receive(1)];
  }

  predicate Flooded(p: Packet) { p.fromOs && p.packtype == SIG_BROADCAST }

  lemma TwoQueued(data: seq<Byte>) returns (steps: seq<Step>, s: Net)
    ensures Run(CHAIN, EMPTY, steps, s) && AllTreelike(CHAIN, s)
    ensures Queued(s.live) == 2 && |s.raised| == 1
  {
    ChainIsTreelike();
    var c, p, q := CHAIN[0], Sent(data, 1), Sent(data, 2);
    var one := Net([Broadcast(c, data)], [Arriving(Down, 0, p)], [Token(Up, 0, [c], p)], {});
    var two := Net([Broadcast(c, data), Broadcast(c, data)], [Arriving(Down, 0, p), Arriving(Down, 1, q)],
                   [Token(Up, 0, [c], p), Token(Up, 1, [c], q)], {});
    s := two.(live := [Arriving(Pending, 0, p), Arriving(Pending, 1, q)], raised := {CHAIN[1]});
    hide Run, NoneReceived;
    var a := SentAndServed(EMPTY, data, 1, one);
    var b := SentAndServed(one, data, 2, two);
    var d := BothReceived(two, s.live[0], s.live[1], s);
    RunConcat(CHAIN, EMPTY, a, one, b, two);
    RunConcat(CHAIN, EMPTY, a + b, two, d, s);
    steps := a + b + d;
    Tally.SumFull(s.live, IsQueued);
  }

  /** Two broadcasts of one client over the tree-like graph CHAIN, both queued at the link of
      the router before its runner looks: the network comes to rest with the second one still
      queued. */
  lemma CollapseExample(data: seq<Byte>) returns (steps: seq<Step>, s: Net)
    ensures WellFormed(CHAIN) && Run(CHAIN, EMPTY, steps, s) && AllTreelike(CHAIN, s)
    ensures AtRest(CHAIN, s) && !Quiescent(s) && !CanDrain(CHAIN, s)
  {
    ChainIsTreelike();
    InvInit(CHAIN);
    var first, mid := TwoQueued(data);
    RunFlags(CHAIN, EMPTY, first, mid);
    var rest, end := ComesToRest(CHAIN, mid);
    RunFlags(CHAIN, mid, rest, end);
    RunConcat(CHAIN, EMPTY, first, mid, rest, end);
    steps, s := first + rest, end;
    assert Queued(s.live) >= 1;
    DrainedIffNoCollapse(CHAIN, steps, s);
    ReachedDrainsIff(CHAIN, steps, s);
  }
}
