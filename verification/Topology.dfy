/** The graph that routers and servers form, and the walks a flooded packet can take.

    An endpoint is one registered connection: a client session, or one session that a
    router opened with router_link.  A packet alternates between two kinds of hop: over a
    server, from the endpoint that injected it to a different endpoint of that server, and
    over a router, from the link it arrived on to a different link of that router. */
module Topology {
  import opened Bytes
  import opened Wrappers

  datatype Owner = Client | Router(router: nat)
  datatype Endpoint = Endpoint(server: nat, uid: U64, fd: int, ip: string, port: nat, owner: Owner)

  ghost predicate WellFormed(t: seq<Endpoint>) {
    && (forall i | 0 <= i < |t| :: t[i].uid != 0 && t[i].fd > 0)
    && (forall i, j | 0 <= i < j < |t| && t[i].server == t[j].server ::
          t[i].uid != t[j].uid && t[i].fd != t[j].fd)
  }

  predicate ServerHop(a: Endpoint, b: Endpoint) { a.server == b.server && a != b }

  predicate RouterHop(a: Endpoint, b: Endpoint) { a.owner.Router? && a.owner == b.owner && a != b }

  predicate Hop(overRouter: bool, a: Endpoint, b: Endpoint) {
    if overRouter then RouterHop(a, b) else ServerHop(a, b)
  }

  predicate HopAt(w: seq<Endpoint>, i: nat, routerFirst: bool)
    requires i + 1 < |w|
  {
    Hop((i % 2 == 0) == routerFirst, w[i], w[i + 1])
  }

  /** Consecutive endpoints are joined by hops of alternating kind. */
  ghost predicate Chain(w: seq<Endpoint>, routerFirst: bool) {
    forall i | 0 <= i < |w| - 1 :: HopAt(w, i, routerFirst)
  }

  /** A walk from server s: it enters a router and leaves it again any number of times. */
  ghost predicate Walk(t: seq<Endpoint>, s: nat, w: seq<Endpoint>) {
    && |w| % 2 == 0
    && (forall e | e in w :: e in t)
    && (w != [] ==> w[0].server == s)
    && Chain(w, true)
  }

  /** The server a walk from s arrives at. */
  function End(s: nat, w: seq<Endpoint>): nat {
    if w == [] then s else w[|w| - 1].server
  }

  /** No walk from s comes back to a server it has visited. */
  ghost predicate Treelike(t: seq<Endpoint>, s: nat) {
    forall u, v | Walk(t, s, u + v) && |u| % 2 == 0 && v != [] :: End(s, u) != End(s, u + v)
  }

  /** The trail of one copy of a flooded packet, from the client that sent it. */
  ghost predicate Path(t: seq<Endpoint>, p: seq<Endpoint>) {
    && p != []
    && (forall e | e in p :: e in t)
    && p[0].owner.Client?
    && Chain(p, false)
  }

  // ---- Walks ----

  lemma ChainSlice(w: seq<Endpoint>, routerFirst: bool, a: nat, b: nat)
    requires Chain(w, routerFirst) && a <= b <= |w|
    ensures Chain(w[a..b], routerFirst == (a % 2 == 0))
  {
    var v := w[a..b];
    var first := routerFirst == (a % 2 == 0);
    forall i | 0 <= i < |v| - 1
      ensures HopAt(v, i, first)
    {
      assert HopAt(w, a + i, routerFirst);
      assert v[i] == w[a + i] && v[i + 1] == w[a + i + 1];
    }
  }

  lemma WalkPrefix(t: seq<Endpoint>, s: nat, w: seq<Endpoint>, n: nat)
    requires Walk(t, s, w) && n <= |w| && n % 2 == 0
    ensures Walk(t, s, w[..n])
    ensures Walk(t, End(s, w[..n]), w[n..])
    ensures End(End(s, w[..n]), w[n..]) == End(s, w)
  {
    ChainSlice(w, true, 0, n);
    ChainSlice(w, true, n, |w|);
    assert w[0..n] == w[..n];
    assert w[n..|w|] == w[n..];
    if 0 < n < |w| {
      assert HopAt(w, n - 1, true);
    }
  }

  /** Walks compose when the junction does not turn back on the link just used. */
  lemma WalkConcat(t: seq<Endpoint>, s: nat, v: seq<Endpoint>, w: seq<Endpoint>)
    requires Walk(t, s, v) && Walk(t, End(s, v), w)
    requires v != [] && w != [] ==> v[|v| - 1] != w[0]
    ensures Walk(t, s, v + w)
    ensures End(s, v + w) == End(End(s, v), w)
  {
    var u := v + w;
    forall i | 0 <= i < |u| - 1
      ensures HopAt(u, i, true)
    {
      if i < |v| - 1 {
        assert HopAt(v, i, true);
        assert u[i] == v[i] && u[i + 1] == v[i + 1];
      } else if i >= |v| {
        var j := i - |v|;
        assert u[i] == w[j] && u[i + 1] == w[j + 1];
        assert HopAt(w, j, true);
      } else {
        assert u[i] == v[|v| - 1] && u[i + 1] == w[0];
      }
    }
  }

  function Reverse(w: seq<Endpoint>): (r: seq<Endpoint>)
    ensures |r| == |w|
    ensures forall i | 0 <= i < |w| :: r[i] == w[|w| - 1 - i]
  {
    seq(|w|, i requires 0 <= i < |w| => w[|w| - 1 - i])
  }

  lemma WalkReverse(t: seq<Endpoint>, s: nat, w: seq<Endpoint>)
    requires Walk(t, s, w)
    ensures Walk(t, End(s, w), Reverse(w))
    ensures End(End(s, w), Reverse(w)) == s
  {
    var r := Reverse(w);
    forall i | 0 <= i < |r| - 1
      ensures HopAt(r, i, true)
    {
      var j := |w| - 2 - i;
      assert HopAt(w, j, true);
      assert r[i] == w[j + 1] && r[i + 1] == w[j];
    }
  }

  /** A walk that returns to its starting server refutes Treelike. */
  lemma NoClosedWalk(t: seq<Endpoint>, s: nat, w: seq<Endpoint>)
    requires Treelike(t, s) && Walk(t, s, w) && w != []
    ensures End(s, w) != s
  {
    assert [] + w == w;
    assert Walk(t, s, [] + w);
  }

  lemma LastServer(t: seq<Endpoint>, s: nat, w: seq<Endpoint>)
    requires Walk(t, s, w) && w != []
    ensures w[|w| - 2].server == End(s, w[..|w| - 2])
  {
    var n := |w| - 2;
    if n > 0 {
      assert HopAt(w, n - 1, true);
    }
  }

  /** Out along v and back along w, arriving over different links. */
  lemma ClosedByReverse(t: seq<Endpoint>, s: nat, v: seq<Endpoint>, w: seq<Endpoint>) returns (c: seq<Endpoint>)
    requires Walk(t, s, v) && Walk(t, s, w) && End(s, v) == End(s, w)
    requires v != [] && w != [] && v[|v| - 1] != w[|w| - 1]
    ensures Walk(t, s, c) && c != [] && End(s, c) == s
  {
    WalkReverse(t, s, w);
    WalkConcat(t, s, v, Reverse(w));
    c := v + Reverse(w);
  }

  /** Two walks into one router over different links close up inside that router. */
  lemma ClosedInsideRouter(t: seq<Endpoint>, s: nat, v: seq<Endpoint>, w: seq<Endpoint>) returns (c: seq<Endpoint>)
    requires Walk(t, s, v) && Walk(t, s, w)
    requires v != [] && w != []
    requires v[|v| - 1] == w[|w| - 1] && v[|v| - 2] != w[|w| - 2]
    ensures Walk(t, s, c) && c != [] && End(s, c) == s
  {
    var n, m := |v| - 2, |w| - 2;
    assert HopAt(v, n, true) && HopAt(w, m, true);
    LastServer(t, s, v);
    LastServer(t, s, w);
    WalkPrefix(t, s, v, n);
    WalkPrefix(t, s, w, m);
    if n > 0 { assert HopAt(v, n - 1, true); }
    if m > 0 { assert HopAt(w, m - 1, true); }
    var turn := [v[n], w[m]];
    assert Walk(t, v[n].server, turn);
    WalkConcat(t, s, v[..n], turn);
    WalkReverse(t, s, w[..m]);
    WalkConcat(t, s, v[..n] + turn, Reverse(w[..m]));
    c := v[..n] + turn + Reverse(w[..m]);
  }

  /** Between two servers of a tree-like graph there is at most one walk. */
  lemma {:induction false} WalkUnique(t: seq<Endpoint>, s: nat, v: seq<Endpoint>, w: seq<Endpoint>)
    requires Treelike(t, s)
    requires Walk(t, s, v) && Walk(t, s, w) && End(s, v) == End(s, w)
    ensures v == w
    decreases |v|
  {
    if v == [] {
      if w != [] { NoClosedWalk(t, s, w); }
    } else if w == [] {
      NoClosedWalk(t, s, v);
    } else if v[|v| - 1] != w[|w| - 1] {
      var c := ClosedByReverse(t, s, v, w);
      NoClosedWalk(t, s, c);
    } else if v[|v| - 2] != w[|w| - 2] {
      var c := ClosedInsideRouter(t, s, v, w);
      NoClosedWalk(t, s, c);
    } else {
      var n, m := |v| - 2, |w| - 2;
      WalkPrefix(t, s, v, n);
      WalkPrefix(t, s, w, m);
      LastServer(t, s, v);
      LastServer(t, s, w);
      WalkUnique(t, s, v[..n], w[..m]);
      assert v == v[..n] + [v[n], v[n + 1]];
      assert w == w[..m] + [w[m], w[m + 1]];
    }
  }

  // ---- Reachability ----

  /** One server-to-server crossing of a router, turning back allowed. */
  datatype Crossing = Crossing(enter: Endpoint, leave: Endpoint)

  ghost predicate Route(t: seq<Endpoint>, s: nat, cs: seq<Crossing>)
    decreases |cs|
  {
    cs == [] ||
    (var c := cs[|cs| - 1];
     && Route(t, s, cs[..|cs| - 1])
     && c.enter in t && c.leave in t
     && c.enter.owner.Router? && c.enter.owner == c.leave.owner
     && c.enter.server == RouteEnd(s, cs[..|cs| - 1]))
  }

  function RouteEnd(s: nat, cs: seq<Crossing>): nat {
    if cs == [] then s else cs[|cs| - 1].leave.server
  }

  /** Some sequence of router crossings leads from one server to the other. */
  ghost predicate Reachable(t: seq<Endpoint>, s: nat, to: nat) {
    exists cs :: Route(t, s, cs) && RouteEnd(s, cs) == to
  }

  /** Extending a walk by a crossing, cancelling the part that turns back. */
  function Extend(w: seq<Endpoint>, c: Crossing): seq<Endpoint> {
    if c.enter == c.leave then w
    else if |w| < 2 || w[|w| - 1] != c.enter then w + [c.enter, c.leave]
    else if w[|w| - 2] == c.leave then w[..|w| - 2]
    else w[..|w| - 1] + [c.leave]
  }

  lemma ExtendWalk(t: seq<Endpoint>, s: nat, w: seq<Endpoint>, c: Crossing)
    requires Walk(t, s, w)
    requires c.enter in t && c.leave in t
    requires c.enter.owner.Router? && c.enter.owner == c.leave.owner
    requires c.enter.server == End(s, w)
    ensures Walk(t, s, Extend(w, c))
    ensures End(s, Extend(w, c)) == c.leave.server
  {
    if c.enter == c.leave {
    } else if |w| < 2 || w[|w| - 1] != c.enter {
      WalkConcat(t, s, w, [c.enter, c.leave]);
    } else {
      var n := |w| - 2;
      WalkPrefix(t, s, w, n);
      LastServer(t, s, w);
      assert HopAt(w, n, true);
      if w[n] != c.leave {
        if n > 0 { assert HopAt(w, n - 1, true); }
        WalkConcat(t, s, w[..n], [w[n], c.leave]);
        assert w[..n] + [w[n], c.leave] == w[..|w| - 1] + [c.leave];
      }
    }
  }

  /** Every route can be cut down to a walk that never turns back. */
  lemma {:induction false} RouteToWalk(t: seq<Endpoint>, s: nat, cs: seq<Crossing>) returns (w: seq<Endpoint>)
    requires Route(t, s, cs)
    ensures Walk(t, s, w) && End(s, w) == RouteEnd(s, cs)
    decreases |cs|
  {
    if cs == [] {
      w := [];
    } else {
      var v := RouteToWalk(t, s, cs[..|cs| - 1]);
      var c := cs[|cs| - 1];
      ExtendWalk(t, s, v, c);
      w := Extend(v, c);
    }
  }

  // ---- Paths ----

  /** The walk inside the trail of a copy that some server handed to an endpoint. */
  lemma PathWalk(t: seq<Endpoint>, p: seq<Endpoint>)
    requires Path(t, p) && |p| % 2 == 0
    ensures Walk(t, p[0].server, p[1..|p| - 1])
    ensures End(p[0].server, p[1..|p| - 1]) == p[|p| - 1].server
  {
    var w := p[1..|p| - 1];
    assert HopAt(p, 0, false);
    ChainSlice(p, false, 1, |p| - 1);
    if w != [] {
      var k := |p| - 2;
      assert HopAt(p, k, false);
    }
  }

  lemma PathOfWalk(t: seq<Endpoint>, c: Endpoint, w: seq<Endpoint>, e: Endpoint)
    requires c in t && e in t && c.owner.Client? && c != e
    requires Walk(t, c.server, w) && End(c.server, w) == e.server
    requires w != [] ==> w[|w| - 1] != e
    ensures Path(t, [c] + w + [e])
  {
    var p := [c] + w + [e];
    forall i | 0 <= i < |p| - 1
      ensures HopAt(p, i, false)
    {
      if 0 < i < |p| - 2 {
        assert p[i] == w[i - 1] && p[i + 1] == w[i - 1 + 1];
        assert HopAt(w, i - 1, true);
      } else if w != [] {
        assert p[1] == w[0] && p[|p| - 2] == w[|w| - 1];
        if i == 0 { assert HopAt(w, 0, true); }
      }
    }
  }

  /** In a tree-like graph one trail at most leads from a client to an endpoint. */
  lemma PathUnique(t: seq<Endpoint>, p: seq<Endpoint>, q: seq<Endpoint>)
    requires Path(t, p) && Path(t, q) && |p| % 2 == 0 && |q| % 2 == 0
    requires p[0] == q[0] && p[|p| - 1] == q[|q| - 1]
    requires Treelike(t, p[0].server)
    ensures p == q
  {
    PathWalk(t, p);
    PathWalk(t, q);
    WalkUnique(t, p[0].server, p[1..|p| - 1], q[1..|q| - 1]);
    assert p == [p[0]] + p[1..|p| - 1] + [p[|p| - 1]];
    assert q == [q[0]] + q[1..|q| - 1] + [q[|q| - 1]];
  }

  /** A trail leads to a reachable server. */
  lemma {:induction false} PathReaches(t: seq<Endpoint>, p: seq<Endpoint>)
    requires Path(t, p) && |p| % 2 == 0
    ensures Reachable(t, p[0].server, p[|p| - 1].server)
    decreases |p|
  {
    var s, n := p[0].server, |p|;
    assert HopAt(p, n - 2, false);
    if n == 2 {
      assert Route(t, s, []) && RouteEnd(s, []) == p[1].server;
    } else {
      assert HopAt(p, n - 3, false);
      PathPrefix(t, p, n - 2);
      PathReaches(t, p[..n - 2]);
      var cs :| Route(t, s, cs) && RouteEnd(s, cs) == p[n - 3].server;
      var c := Crossing(p[n - 3], p[n - 2]);
      assert (cs + [c])[..|cs|] == cs;
      assert Route(t, s, cs + [c]) && RouteEnd(s, cs + [c]) == p[n - 1].server;
    }
  }

  /** No trail leads back to the client it started from. */
  lemma PathNotToOrigin(t: seq<Endpoint>, p: seq<Endpoint>)
    requires Path(t, p) && |p| % 2 == 0 && Treelike(t, p[0].server)
    ensures p[|p| - 1] != p[0]
  {
    PathWalk(t, p);
    if |p| == 2 {
      assert HopAt(p, 0, false);
    } else {
      NoClosedWalk(t, p[0].server, p[1..|p| - 1]);
    }
  }

  /** A trail leads to every client of every reachable server other than the origin. */
  lemma PathExists(t: seq<Endpoint>, c: Endpoint, e: Endpoint) returns (p: seq<Endpoint>)
    requires c in t && e in t && c.owner.Client? && e.owner.Client? && c != e
    requires Reachable(t, c.server, e.server)
    ensures Path(t, p) && |p| % 2 == 0 && p[0] == c && p[|p| - 1] == e
  {
    var cs :| Route(t, c.server, cs) && RouteEnd(c.server, cs) == e.server;
    var w := RouteToWalk(t, c.server, cs);
    if w != [] {
      var k := |w| - 2;
      assert HopAt(w, k, true);
    }
    PathOfWalk(t, c, w, e);
    p := [c] + w + [e];
  }

  lemma PathWalkOut(t: seq<Endpoint>, p: seq<Endpoint>)
    requires Path(t, p) && |p| % 2 == 1
    ensures Walk(t, p[0].server, p[1..])
    ensures End(p[0].server, p[1..]) == p[|p| - 1].server
  {
    ChainSlice(p, false, 1, |p|);
    assert p[1..|p|] == p[1..];
    if |p| > 1 {
      assert HopAt(p, 0, false);
    }
  }

  /** In a tree-like graph one trail at most ends on a router link, in either direction. */
  lemma LinkPathUnique(t: seq<Endpoint>, p: seq<Endpoint>, q: seq<Endpoint>)
    requires Path(t, p) && Path(t, q) && p[0] == q[0] && p[|p| - 1] == q[|q| - 1]
    requires p[|p| - 1].owner.Router?
    requires Treelike(t, p[0].server)
    ensures p == q
  {
    var s := p[0].server;
    if |p| % 2 == 0 && |q| % 2 == 0 {
      PathUnique(t, p, q);
    } else if |p| % 2 == 1 && |q| % 2 == 1 {
      PathWalkOut(t, p);
      PathWalkOut(t, q);
      WalkUnique(t, s, p[1..], q[1..]);
      assert p == [p[0]] + p[1..] && q == [q[0]] + q[1..];
    } else {
      var e, o := if |p| % 2 == 0 then p else q, if |p| % 2 == 0 then q else p;
      PathWalk(t, e);
      PathWalkOut(t, o);
      assert HopAt(e, |e| - 2, false);
      assert |e| > 2 ==> e[1..|e| - 1][|e| - 3] == e[|e| - 2];
      assert |o| > 1 ==> o[1..][|o| - 2] == o[|o| - 1];
      WalkUnique(t, s, e[1..|e| - 1], o[1..]);
    }
  }

  /** A trail ends on every router link of every reachable server. */
  lemma LinkPathExists(t: seq<Endpoint>, c: Endpoint, e: Endpoint) returns (p: seq<Endpoint>)
    requires c in t && e in t && c.owner.Client? && e.owner.Router?
    requires Reachable(t, c.server, e.server)
    ensures Path(t, p) && p[0] == c && p[|p| - 1] == e
  {
    var cs :| Route(t, c.server, cs) && RouteEnd(c.server, cs) == e.server;
    var w := RouteToWalk(t, c.server, cs);
    if w != [] && w[|w| - 1] == e {
      PathOut(t, c, w);
      p := [c] + w;
    } else {
      PathOfWalk(t, c, w, e);
      p := [c] + w + [e];
    }
  }

  lemma PathPrefix(t: seq<Endpoint>, p: seq<Endpoint>, n: nat)
    requires Path(t, p) && 1 <= n <= |p|
    ensures Path(t, p[..n])
  {
    ChainSlice(p, false, 0, n);
    assert p[0..n] == p[..n];
  }

  lemma PathSnoc(t: seq<Endpoint>, p: seq<Endpoint>, e: Endpoint)
    requires Path(t, p) && e in t
    ensures Path(t, p + [e]) <==> Hop(|p| % 2 == 0, p[|p| - 1], e)
  {
    var q := p + [e];
    var k := |p| - 1;
    assert q[k] == p[|p| - 1] && q[k + 1] == e;
    if Path(t, q) {
      assert HopAt(q, k, false);
    }
    if Hop(|p| % 2 == 0, p[|p| - 1], e) {
      forall i | 0 <= i < |q| - 1
        ensures HopAt(q, i, false)
      {
        if i < k {
          assert q[i] == p[i] && q[i + 1] == p[i + 1];
          assert HopAt(p, i, false);
        }
      }
    }
  }

  // ---- Length of trails ----

  function Servers(t: seq<Endpoint>): set<nat> { set i | 0 <= i < |t| :: t[i].server }

  /** The servers on which a trail injects, in order. */
  function Injections(p: seq<Endpoint>): (r: seq<nat>)
    ensures |r| == (|p| + 1) / 2
    ensures forall k | 0 <= k < |r| :: r[k] == p[2 * k].server
  {
    seq((|p| + 1) / 2, k requires 0 <= k < (|p| + 1) / 2 => p[2 * k].server)
  }

  lemma InjectionsDistinct(t: seq<Endpoint>, p: seq<Endpoint>, a: nat, b: nat)
    requires Path(t, p) && Treelike(t, p[0].server)
    requires a < b && 2 * b < |p|
    ensures p[2 * a].server != p[2 * b].server
  {
    var s := p[0].server;
    var w := p[1..2 * b + 1];
    assert HopAt(p, 0, false);
    ChainSlice(p, false, 1, 2 * b + 1);
    assert Walk(t, s, w);
    var u, v := w[..2 * a], w[2 * a..];
    assert u + v == w;
    assert Walk(t, s, u + v);
    assert End(s, u + v) == p[2 * b].server;
    assert End(s, u) == p[2 * a].server;
  }

  /** Trails in a tree-like graph visit each server once, which bounds their length. */
  lemma PathBounded(t: seq<Endpoint>, p: seq<Endpoint>)
    requires Path(t, p) && Treelike(t, p[0].server)
    ensures |p| <= 2 * |Servers(t)|
  {
    var r := Injections(p);
    forall i, j | 0 <= i < j < |r|
      ensures r[i] != r[j]
    {
      InjectionsDistinct(t, p, i, j);
    }
    forall x | x in r
      ensures x in Servers(t)
    {
      var k :| 0 <= k < |r| && r[k] == x;
      assert p[2 * k] in p;
    }
    DistinctFit(r, Servers(t));
  }

  // ---- Graphs that are not tree-like ----

  /** A loop that some walk u from s leads to and that can be walked round again. */
  ghost predicate Loop(t: seq<Endpoint>, s: nat, u: seq<Endpoint>, v: seq<Endpoint>) {
    && Walk(t, s, u + v) && |u| % 2 == 0
    && v != []
    && End(s, u) == End(s, u + v)
    && v[|v| - 1] != v[0]
  }

  /** Trimming a closed walk that leaves and returns over one link gives a loop. */
  lemma {:induction false} FindLoop(t: seq<Endpoint>, s: nat, u: seq<Endpoint>, v: seq<Endpoint>)
    returns (u': seq<Endpoint>, v': seq<Endpoint>)
    requires Walk(t, s, u + v) && |u| % 2 == 0 && v != [] && End(s, u) == End(s, u + v)
    ensures Loop(t, s, u', v')
    decreases |v|
  {
    var w := u + v;
    var n := |v|;
    u', v' := u, v;
    if v[n - 1] == v[0] {
      assert HopAt(w, |u|, true) && HopAt(w, |w| - 2, true);
      assert w[|u|] == v[0] && w[|u| + 1] == v[1] && w[|w| - 2] == v[n - 2];
      assert n >= 4;
      assert HopAt(w, |u| + 1, true) && w[|u| + 2] == v[2];
      LastServer(t, s, w);
      WalkPrefix(t, s, w, |w| - 2);
      u' := u + [v[0], v[1]];
      if v[n - 2] == v[1] {
        assert w[..|w| - 2] == u' + v[2..n - 2];
        u', v' := FindLoop(t, s, u', v[2..n - 2]);
      } else {
        v' := v[2..n - 2] + [v[n - 2], v[1]];
        assert HopAt(w, |w| - 3, true);
        WalkConcat(t, s, w[..|w| - 2], [v[n - 2], v[1]]);
        assert w[..|w| - 2] + [v[n - 2], v[1]] == u' + v';
      }
    }
  }

  lemma LoopParts(t: seq<Endpoint>, s: nat, u: seq<Endpoint>, v: seq<Endpoint>)
    requires Loop(t, s, u, v)
    ensures Walk(t, s, u) && Walk(t, End(s, u), v) && End(End(s, u), v) == End(s, u)
    ensures u != [] ==> u[|u| - 1] != v[0]
  {
    var w := u + v;
    WalkPrefix(t, s, w, |u|);
    assert w[..|u|] == u && w[|u|..] == v;
    if u != [] {
      assert HopAt(w, |u| - 1, true);
    }
  }

  function Repeat(v: seq<Endpoint>, k: nat): (r: seq<Endpoint>)
    ensures v != [] ==> |r| >= k
  {
    if k == 0 then [] else Repeat(v, k - 1) + v
  }

  lemma {:induction false} Pump(t: seq<Endpoint>, s: nat, u: seq<Endpoint>, v: seq<Endpoint>, k: nat)
    requires Walk(t, s, u) && |u| % 2 == 0
    requires Walk(t, End(s, u), v) && v != [] && End(End(s, u), v) == End(s, u) && v[|v| - 1] != v[0]
    requires u != [] ==> u[|u| - 1] != v[0]
    ensures Walk(t, s, u + Repeat(v, k))
    ensures End(s, u + Repeat(v, k)) == End(s, u)
    ensures k > 0 ==> Repeat(v, k) != [] && Repeat(v, k)[|Repeat(v, k)| - 1] == v[|v| - 1]
  {
    if k == 0 {
      assert u + Repeat(v, 0) == u;
    } else {
      Pump(t, s, u, v, k - 1);
      var r := u + Repeat(v, k - 1);
      assert k == 1 ==> r == u;
      assert k > 1 ==> r[|r| - 1] == v[|v| - 1];
      WalkConcat(t, s, r, v);
      assert r + v == u + Repeat(v, k);
    }
  }

  lemma PathOut(t: seq<Endpoint>, c: Endpoint, w: seq<Endpoint>)
    requires c in t && c.owner.Client? && Walk(t, c.server, w)
    ensures Path(t, [c] + w)
  {
    var p := [c] + w;
    forall i | 0 <= i < |p| - 1
      ensures HopAt(p, i, false)
    {
      if i > 0 {
        assert HopAt(w, i - 1, true);
        assert p[i] == w[i - 1] && p[i + 1] == w[i];
      } else {
        assert HopAt(w, 0, true);
      }
    }
  }

  /** Where some walk comes back to a visited server, trails have no longest one. */
  lemma PathsUnbounded(t: seq<Endpoint>, c: Endpoint, n: nat) returns (p: seq<Endpoint>)
    requires c in t && c.owner.Client? && !Treelike(t, c.server)
    ensures Path(t, p) && p[0] == c && |p| > n
  {
    var u, v :| Walk(t, c.server, u + v) && |u| % 2 == 0 && v != [] && End(c.server, u) == End(c.server, u + v);
    u, v := FindLoop(t, c.server, u, v);
    LoopParts(t, c.server, u, v);
    Pump(t, c.server, u, v, n);
    PathOut(t, c, u + Repeat(v, n));
    p := [c] + (u + Repeat(v, n));
  }

  // ---- Examples ----

  function At(server: nat, uid: U64, owner: Owner): Endpoint { Endpoint(server, uid, uid, "", 0, owner) }

  /** A client on server 0, a router that links servers 0 and 1, a client on server 1. */
  const CHAIN := [At(0, 1, Client), At(0, 2, Router(0)), At(1, 3, Router(0)), At(1, 4, Client)]

  /** The same with a second router between the two servers. */
  const RING := CHAIN + [At(0, 5, Router(1)), At(1, 6, Router(1))]

  /** Two servers joined by one router are tree-like from either end. */
  lemma ChainIsTreelike()
    ensures WellFormed(CHAIN) && Treelike(CHAIN, 0)
  {
    forall u, v | Walk(CHAIN, 0, u + v) && |u| % 2 == 0 && v != []
      ensures End(0, u) != End(0, u + v)
    {
      var w := u + v;
      ChainWalk(w);
      assert u == [];
      assert w == v;
    }
  }

  lemma ChainWalk(w: seq<Endpoint>)
    requires Walk(CHAIN, 0, w) && w != []
    ensures |w| == 2 && w[1].server == 1
  {
    hide HopAt;
    assert HopAt(w, 0, true);
    ChainHop(w);
    if |w| > 2 { ChainEnds(w); }
  }

  lemma ChainHop(w: seq<Endpoint>)
    requires |w| >= 2 && w[0] in CHAIN && w[1] in CHAIN && w[0].server == 0 && HopAt(w, 0, true)
    ensures w[1] == CHAIN[2]
  {
  }

  /** From the far link one can only hop to the client there, who is no router. */
  lemma ChainEnds(w: seq<Endpoint>)
    requires |w| >= 4 && w[2] in CHAIN && w[3] in CHAIN && w[1] == CHAIN[2]
    ensures !HopAt(w, 1, true) || !HopAt(w, 2, true)
  {
  }

  lemma RingWalk(w: seq<Endpoint>)
    requires w == [RING[1], RING[2], RING[5], RING[4]]
    ensures Walk(RING, 0, w) && End(0, w) == 0
  {
    assert HopAt(w, 0, true) && HopAt(w, 1, true) && HopAt(w, 2, true);
  }

  /** Joined by two routers they are not: a packet goes round for ever. */
  lemma RingIsNotTreelike()
    ensures WellFormed(RING) && !Treelike(RING, 0)
  {
    var w := [RING[1], RING[2], RING[5], RING[4]];
    RingWalk(w);
    hide Walk;
    assert [] + w == w;
    assert End(0, []) == End(0, [] + w);
  }
}
