/** What a flood delivers: no trail is taken twice on any topology, and over a tree-like graph
    everyone in reach gets exactly one copy (dnet/router.c, dnet/server.c). */
module Delivery {
  import opened Codec
  import opened Relay
  import opened Topology
  import opened Flood

  // ---- Safety, on every topology ----

  /** On any topology, cyclic ones included, no trail is ever taken by two copies. */
  lemma {:induction false} AtMostOnce(t: seq<Endpoint>, s: Net, id: nat, path: seq<Endpoint>)
    requires Inv(t, s)
    ensures Copies(s.live, id, path) + Copies(s.done, id, path) <= 1
    decreases |path|
  {
    assert Balanced(t, s, id, path);
    if |path| > 1 {
      AtMostOnce(t, s, id, path[..|path| - 1]);
    }
  }

  /** In every state of every run, on any topology, every copy still carries the payload of
      its broadcast and names the client that sent it as its origin. */
  lemma OriginPreserved(t: seq<Endpoint>, steps: seq<Step>, s: Net, tok: Token)
    requires WellFormed(t) && Run(t, EMPTY, steps, s)
    requires tok in s.live || tok in s.done
    ensures tok.id < |s.origins|
    ensures tok.pkt.data == s.origins[tok.id].data
    ensures (if tok.pkt.travFuid == 0 then tok.pkt.fromUid else tok.pkt.travFuid) == s.origins[tok.id].client.uid
    ensures tok.pkt.packtype == SIG_BROADCAST && tok.pkt.cmuid == 0 && tok.pkt.travTuid == 0
    ensures tok.stage == Down || tok.stage == Pending ==> tok.path != [] && Arrived(tok.pkt, Last(tok.path))
  {
    InvInit(t);
    InvRun(t, EMPTY, steps, s);
    assert TokenOK(t, s.origins, tok);
  }

  /** What a copy looks like when it has been handed to endpoint e. */
  predicate Arrived(p: Packet, e: Endpoint) { p.fromOs && p.toUid == e.uid && p.muid == 0 }

  // ---- Deliveries ----

  /** A copy of broadcast id that endpoint e received. */
  predicate Reaches(tok: Token, id: nat, e: Endpoint) {
    tok.id == id && tok.path != [] && |tok.path| % 2 == 0 && Last(tok.path) == e
  }

  function Deliveries(ts: seq<Token>, id: nat, e: Endpoint): nat {
    if ts == [] then 0 else (if Reaches(ts[0], id, e) then 1 else 0) + Deliveries(ts[1..], id, e)
  }

  lemma {:induction false} DeliveriesOnOnePath(ts: seq<Token>, id: nat, e: Endpoint, path: seq<Endpoint>)
    requires path != [] && |path| % 2 == 0 && Last(path) == e
    requires forall tok | tok in ts && Reaches(tok, id, e) :: tok.path == path
    ensures Deliveries(ts, id, e) == Copies(ts, id, path)
  {
    if ts != [] {
      assert ts[0] in ts;
      DeliveriesOnOnePath(ts[1..], id, e, path);
    }
  }

  lemma {:induction false} NoDeliveries(ts: seq<Token>, id: nat, e: Endpoint)
    requires forall tok | tok in ts :: !Reaches(tok, id, e)
    ensures Deliveries(ts, id, e) == 0
  {
    if ts != [] {
      assert ts[0] in ts;
      NoDeliveries(ts[1..], id, e);
    }
  }

  /** Where the graph around a broadcast is tree-like, no endpoint ever has two copies of it,
      finished or in flight, and its client has none. */
  lemma NeverTwice(t: seq<Endpoint>, s: Net, id: nat, e: Endpoint)
    requires Inv(t, s) && id < |s.origins| && Treelike(t, s.origins[id].client.server)
    ensures Deliveries(s.live + s.done, id, e) <= 1
    ensures e == s.origins[id].client ==> Deliveries(s.live + s.done, id, e) == 0
  {
    var ts := s.live + s.done;
    if e == s.origins[id].client {
      forall tok | tok in ts
        ensures !Reaches(tok, id, e)
      {
        assert TokenOK(t, s.origins, tok);
        if Reaches(tok, id, e) { PathNotToOrigin(t, tok.path); }
      }
      NoDeliveries(ts, id, e);
    } else if first :| first in ts && Reaches(first, id, e) {
      assert TokenOK(t, s.origins, first);
      forall tok | tok in ts && Reaches(tok, id, e)
        ensures tok.path == first.path
      {
        assert TokenOK(t, s.origins, tok);
        PathUnique(t, tok.path, first.path);
      }
      DeliveriesOnOnePath(ts, id, e, first.path);
      CopiesConcat(s.live, s.done, id, first.path);
      AtMostOnce(t, s, id, first.path);
    } else {
      NoDeliveries(ts, id, e);
    }
  }

  // ---- Quiescence ----

  /** All queues, streams and forwarding loops are empty. */
  predicate Quiescent(s: Net) { s.live == [] }

  /** At quiescence every trail out of a broadcast's client has been taken exactly once. */
  lemma {:induction false} QuiescentTakesEveryPath(t: seq<Endpoint>, s: Net, id: nat, path: seq<Endpoint>)
    requires Inv(t, s) && Quiescent(s) && id < |s.origins|
    requires Path(t, path) && path[0] == s.origins[id].client
    ensures Copies(s.done, id, path) == 1
    decreases |path|
  {
    assert Balanced(t, s, id, path);
    if |path| > 1 {
      var n := |path| - 1;
      PathPrefix(t, path, n);
      QuiescentTakesEveryPath(t, s, id, path[..n]);
      assert HopAt(path, n - 1, false);
    }
  }

  /** Exactly-once delivery.  In any run over a graph that is tree-like around the sender,
      once everything has drained, every other client on every reachable server has received
      exactly one copy of the broadcast and the sender none. */
  lemma ExactlyOnce(t: seq<Endpoint>, steps: seq<Step>, s: Net, id: nat, e: Endpoint)
    requires WellFormed(t) && Run(t, EMPTY, steps, s) && Quiescent(s)
    requires id < |s.origins| && Treelike(t, s.origins[id].client.server)
    requires e in t && e.owner.Client? && Reachable(t, s.origins[id].client.server, e.server)
    ensures Deliveries(s.done, id, e) == if e == s.origins[id].client then 0 else 1
  {
    InvInit(t);
    InvRun(t, EMPTY, steps, s);
    var c := s.origins[id].client;
    assert s.live + s.done == s.done;
    NeverTwice(t, s, id, e);
    if e != c {
      assert s.origins[id] in s.origins;
      var path := PathExists(t, c, e);
      QuiescentTakesEveryPath(t, s, id, path);
      forall tok | tok in s.done && Reaches(tok, id, e)
        ensures tok.path == path
      {
        assert TokenOK(t, s.origins, tok);
        PathUnique(t, tok.path, path);
      }
      DeliveriesOnOnePath(s.done, id, e, path);
    }
  }

  /** Copies of a broadcast that an endpoint sent or received. */
  function Carried(ts: seq<Token>, id: nat, e: Endpoint): nat {
    if ts == [] then 0
    else (if ts[0].id == id && ts[0].path != [] && Last(ts[0].path) == e then 1 else 0) + Carried(ts[1..], id, e)
  }

  lemma {:induction false} CarriedOnOnePath(ts: seq<Token>, id: nat, e: Endpoint, path: seq<Endpoint>)
    requires path != [] && Last(path) == e
    requires forall tok | tok in ts && tok.id == id && tok.path != [] && Last(tok.path) == e :: tok.path == path
    ensures Carried(ts, id, e) == Copies(ts, id, path)
  {
    if ts != [] {
      assert ts[0] in ts;
      CarriedOnOnePath(ts[1..], id, e, path);
    }
  }

  /** Once drained, a broadcast has crossed every router link of every reachable server exactly
      once, in one direction. */
  lemma EveryLinkCrossedOnce(t: seq<Endpoint>, steps: seq<Step>, s: Net, id: nat, e: Endpoint)
    requires WellFormed(t) && Run(t, EMPTY, steps, s) && Quiescent(s)
    requires id < |s.origins| && Treelike(t, s.origins[id].client.server)
    requires e in t && e.owner.Router? && Reachable(t, s.origins[id].client.server, e.server)
    ensures Carried(s.done, id, e) == 1
  {
    InvInit(t);
    InvRun(t, EMPTY, steps, s);
    assert s.origins[id] in s.origins;
    var path := LinkPathExists(t, s.origins[id].client, e);
    QuiescentTakesEveryPath(t, s, id, path);
    forall tok | tok in s.done && tok.id == id && tok.path != [] && Last(tok.path) == e
      ensures tok.path == path
    {
      assert TokenOK(t, s.origins, tok);
      LinkPathUnique(t, tok.path, path);
    }
    CarriedOnOnePath(s.done, id, e, path);
  }
}
