/** A flood over a tree-like graph ends: every step lowers a measure of the remaining work
    (dnet/router.c). */
module Termination {
  import opened Wrappers
  import opened Codec
  import opened Dispatch
  import opened Relay
  import opened Topology
  import opened Flood

  /** n times x. */
  function Scale(n: nat, x: nat): nat {
    if n == 0 then 0 else x + Scale(n - 1, x)
  }

  lemma {:induction false} ScaleMonotone(a: nat, b: nat, x: nat)
    requires a <= b
    ensures Scale(a, x) <= Scale(b, x)
  {
    if a < b {
      ScaleMonotone(a, b - 1, x);
    }
  }

  /** Work that one copy can still cause when its trail can grow by r hops. */
  function Work(fan: nat, r: nat): (w: nat)
    ensures w >= 1
  {
    if r == 0 then 1 else 1 + Scale(fan, Work(fan, r - 1) + 1)
  }

  function Limit(t: seq<Endpoint>): nat { 2 * |Servers(t)| }

  function Weight(fan: nat, limit: nat, tok: Token): nat {
    Work(fan, if |tok.path| <= limit then limit - |tok.path| else 0)
    + (if tok.stage == Down || tok.stage == Outbox then 1 else 0)
  }

  function Sum(fan: nat, limit: nat, ts: seq<Token>): nat {
    if ts == [] then 0 else Weight(fan, limit, ts[0]) + Sum(fan, limit, ts[1..])
  }

  lemma {:induction false} SumConcat(fan: nat, limit: nat, a: seq<Token>, b: seq<Token>)
    ensures Sum(fan, limit, a + b) == Sum(fan, limit, a) + Sum(fan, limit, b)
  {
    if a == [] {
      assert a + b == b;
    } else {
      assert (a + b)[1..] == a[1..] + b;
      SumConcat(fan, limit, a[1..], b);
    }
  }

  lemma SumWithout(fan: nat, limit: nat, ts: seq<Token>, k: nat)
    requires k < |ts|
    ensures Sum(fan, limit, ts) == Sum(fan, limit, Without(ts, k)) + Weight(fan, limit, ts[k])
  {
    assert ts == ts[..k] + ([ts[k]] + ts[k + 1..]);
    SumConcat(fan, limit, ts[..k], [ts[k]] + ts[k + 1..]);
    SumConcat(fan, limit, [ts[k]], ts[k + 1..]);
    SumConcat(fan, limit, ts[..k], ts[k + 1..]);
  }

  lemma {:induction false} CopiesFit(t: seq<Endpoint>, s: nat, r: nat, fd: int, p: Packet)
    ensures |FanOut(Rows(t, s), fd, p)| <= |t|
    ensures |Links(t, r)| <= |t|
  {
    if t != [] {
      CopiesFit(t[1..], s, r, fd, p);
      if t[0].server == s {
        assert Rows(t, s)[1..] == Rows(t[1..], s);
      } else {
        assert Rows(t, s) == Rows(t[1..], s);
      }
    }
  }

  lemma {:induction false} RelaysFit(ls: seq<Link<Endpoint>>, my: nat, p: Packet, n: nat)
    requires n <= |ls|
    ensures |Relays(ls, my, p, n)| <= n
  {
    if n > 0 {
      RelaysFit(ls, my, p, n - 1);
    }
  }

  lemma {:induction false} ChildrenSum(fan: nat, limit: nat, stage: Stage, parent: Token, outs: seq<(Endpoint, Packet)>, w: nat)
    requires forall c | c in Children(stage, parent, outs) :: Weight(fan, limit, c) <= w
    ensures Sum(fan, limit, Children(stage, parent, outs)) <= Scale(|outs|, w)
  {
    if outs != [] {
      var cs := Children(stage, parent, outs);
      assert cs[0] in cs;
      assert cs[1..] == Children(stage, parent, outs[1..]);
      ChildrenSum(fan, limit, stage, parent, outs[1..], w);
    }
  }

  /** The graph is tree-like around the sender of every broadcast. */
  ghost predicate AllTreelike(t: seq<Endpoint>, s: Net) {
    forall b | b in s.origins :: Treelike(t, b.client.server)
  }

  lemma TokenBounded(t: seq<Endpoint>, s: Net, tok: Token)
    requires Inv(t, s) && AllTreelike(t, s) && TokenOK(t, s.origins, tok)
    ensures 1 <= |tok.path| <= Limit(t)
  {
    assert s.origins[tok.id] in s.origins;
    PathBounded(t, tok.path);
  }

  lemma ChildrenCost(fan: nat, limit: nat, stage: Stage, parent: Token, outs: seq<(Endpoint, Packet)>)
    requires |outs| <= fan && |parent.path| <= limit
    requires forall c | c in Children(stage, parent, outs) :: |c.path| == |parent.path| + 1 && |c.path| <= limit
    ensures Sum(fan, limit, Children(stage, parent, outs)) < Weight(fan, limit, parent)
  {
    if outs != [] {
      assert Children(stage, parent, outs)[0] in Children(stage, parent, outs);
      var w := Work(fan, limit - |parent.path| - 1) + 1;
      ChildrenSum(fan, limit, stage, parent, outs, w);
      ScaleMonotone(|outs|, fan, w);
    }
  }

  /** Replacing a copy by at most `fan` children one hop further on is less work. */
  lemma ConsumeDecreases(fan: nat, limit: nat, ts: seq<Token>, k: nat, stage: Stage, outs: seq<(Endpoint, Packet)>)
    requires k < |ts| && |outs| <= fan && |ts[k].path| <= limit
    requires forall c | c in Children(stage, ts[k], outs) :: |c.path| == |ts[k].path| + 1 && |c.path| <= limit
    ensures Sum(fan, limit, Without(ts, k) + Children(stage, ts[k], outs)) < Sum(fan, limit, ts)
  {
    SumWithout(fan, limit, ts, k);
    SumConcat(fan, limit, Without(ts, k), Children(stage, ts[k], outs));
    ChildrenCost(fan, limit, stage, ts[k], outs);
  }

  function Measure(t: seq<Endpoint>, ts: seq<Token>): nat { Sum(|t|, Limit(t), ts) }

  lemma ChildrenBounded(t: seq<Endpoint>, s: Net, stage: Stage, parent: Token, outs: seq<(Endpoint, Packet)>)
    requires Inv(t, s) && AllTreelike(t, s) && TokenOK(t, s.origins, parent)
    requires forall c | c in Children(stage, parent, outs) :: TokenOK(t, s.origins, c)
    ensures |parent.path| <= Limit(t)
    ensures forall c | c in Children(stage, parent, outs) :: |c.path| == |parent.path| + 1 && |c.path| <= Limit(t)
  {
    TokenBounded(t, s, parent);
    ChildrenLonger(stage, parent, outs);
    forall c | c in Children(stage, parent, outs)
      ensures |c.path| <= Limit(t)
    {
      TokenBounded(t, s, c);
    }
  }

  lemma {:induction false} ChildrenLonger(stage: Stage, parent: Token, outs: seq<(Endpoint, Packet)>)
    ensures forall c | c in Children(stage, parent, outs) :: |c.path| == |parent.path| + 1
  {
    if outs != [] {
      ChildrenLonger(stage, parent, outs[1..]);
    }
  }

  lemma UpdateDecreases(fan: nat, limit: nat, ts: seq<Token>, k: nat, tok: Token)
    requires k < |ts| && Weight(fan, limit, tok) < Weight(fan, limit, ts[k])
    ensures Sum(fan, limit, ts[k := tok]) < Sum(fan, limit, ts)
    ensures Sum(fan, limit, Without(ts, k)) < Sum(fan, limit, ts)
  {
    SumWithout(fan, limit, ts, k);
    SumWithout(fan, limit, ts[k := tok], k);
    assert Without(ts[k := tok], k) == Without(ts, k);
  }

  lemma ServeDecreases(t: seq<Endpoint>, s: Net, k: nat)
    requires Inv(t, s) && AllTreelike(t, s) && Enabled(t, s, Serve(k))
    ensures Measure(t, Next(t, s, Serve(k)).live) < Measure(t, s.live)
  {
    var tok := s.live[k];
    assert tok in s.live && TokenOK(t, s.origins, tok);
    var e := Last(tok.path);
    var outs := ServerCopies(t, e, tok.pkt);
    ServerChildrenOK(t, s.origins, tok, outs);
    ChildrenBounded(t, s, Down, tok, outs);
    RowsHas(t, e);
    CopiesFit(t, e.server, 0, e.fd, tok.pkt);
    ConsumeDecreases(|t|, Limit(t), s.live, k, Down, outs);
  }

  lemma TakeDecreases(t: seq<Endpoint>, s: Net, k: nat)
    requires Inv(t, s) && AllTreelike(t, s) && Enabled(t, s, Take(k))
    ensures Measure(t, Next(t, s, Take(k)).live) < Measure(t, s.live)
  {
    var tok := s.live[k];
    assert tok in s.live && TokenOK(t, s.origins, tok);
    var e := Last(tok.path);
    var outs := RouterCopies(t, e, tok.pkt);
    RouterChildrenOK(t, s.origins, tok, outs);
    ChildrenBounded(t, s, Outbox, tok, outs);
    var ls := Links(t, e.owner.router);
    CopiesFit(t, 0, e.owner.router, e.fd, tok.pkt);
    RelaysFit(ls, Position(ls, e), tok.pkt, |ls|);
    ConsumeDecreases(|t|, Limit(t), s.live, k, Outbox, outs);
  }

  /** Every step but sending a new broadcast leaves strictly less work. */
  lemma StepDecreases(t: seq<Endpoint>, s: Net, step: Step)
    requires Inv(t, s) && AllTreelike(t, s) && Enabled(t, s, step) && !step.Inject?
    ensures Measure(t, Next(t, s, step).live) < Measure(t, s.live)
  {
    match step
    case Serve(k) => ServeDecreases(t, s, k);
    case Take(k) => TakeDecreases(t, s, k);
    case Receive(k) =>
      UpdateDecreases(|t|, Limit(t), s.live, k, s.live[k].(stage := Pending));
    case Forward(k, muid) =>
      UpdateDecreases(|t|, Limit(t), s.live, k, s.live[k].(stage := Up, pkt := s.live[k].pkt.(muid := muid)));
  }

  ghost predicate NoNewBroadcast(steps: seq<Step>) { forall x | x in steps :: !x.Inject? }

  lemma StepKeepsOrigins(t: seq<Endpoint>, s: Net, step: Step)
    requires Enabled(t, s, step) && !step.Inject?
    ensures Next(t, s, step).origins == s.origins
  {
  }

  /** Termination: after the last broadcast was sent, the number of steps any run can still
      make is bounded in advance. */
  lemma {:induction false} Terminates(t: seq<Endpoint>, from: Net, steps: seq<Step>, to: Net)
    requires Inv(t, from) && AllTreelike(t, from) && Run(t, from, steps, to) && NoNewBroadcast(steps)
    ensures |steps| + Measure(t, to.live) <= Measure(t, from.live)
    decreases |steps|
  {
    if steps != [] {
      var mid := Next(t, from, steps[0]);
      InvNext(t, from, steps[0]);
      StepDecreases(t, from, steps[0]);
      StepKeepsOrigins(t, from, steps[0]);
      Terminates(t, mid, steps[1..], to);
    }
  }
}
