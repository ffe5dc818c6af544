/** A SIG_BROADCAST flooded over servers and routers, as a step machine.

    Every copy in flight is a token.  `id` and `path` record which broadcast the copy
    belongs to and which endpoints it has passed; the code keeps no such record.  The steps
    are those of the code for one packet: a server worker, a message handler, a router
    taking a request, one turn of its forwarding loop.  Tokens are picked in any order, which
    covers every interleaving of threads and every order of queues.  A handler finds a worker
    whenever there is something to handle; modules Staffing and Shortage are about loops where it may not. */
module Flood {
  import opened Bytes
  import opened Wrappers
  import opened Codec
  import opened Assoc
  import opened Dispatch
  import opened Relay
  import opened Topology

  /** Where a copy is.  Up: in the stream from the endpoint to its server.  Down: in the
      stream back.  Pending: in the request queue of the session.  Outbox: in the forwarding
      loop of a router, not yet sent over the link that ends the path. */
  datatype Stage = Up | Down | Pending | Outbox

  datatype Token = Token(stage: Stage, id: nat, path: seq<Endpoint>, pkt: Packet)

  /** A broadcast as its client sent it. */
  datatype Broadcast = Broadcast(client: Endpoint, data: seq<Byte>)

  /** `done` holds the copies that were consumed: served, relayed, or handed to a client.
      `raised` holds the router links whose req_waiter is up: the one flag that a runner
      waits for and clears before it takes one request. */
  datatype Net = Net(origins: seq<Broadcast>, live: seq<Token>, done: seq<Token>, raised: set<Endpoint>)

  datatype Step =
    | Inject(client: Endpoint, data: seq<Byte>, trav: U64, muid: U64)
    | Serve(k: nat)
    | Receive(k: nat)
    | Take(k: nat)
    | Forward(k: nat, muid: U64)

  function Last(p: seq<Endpoint>): Endpoint
    requires p != []
  {
    p[|p| - 1]
  }

  // ---- Steps ----

  function PeerOf(e: Endpoint): Peer<Endpoint> { Peer(e, e.fd, Address(e.ip, e.port)) }

  /** dcn_clients of server s once every endpoint has registered. */
  function Rows(t: seq<Endpoint>, s: nat): Registry<Endpoint> {
    if t == [] then []
    else (if t[0].server == s then [Entry(t[0].uid, PeerOf(t[0]))] else []) + Rows(t[1..], s)
  }

  /** `states` of router r. */
  function Links(t: seq<Endpoint>, r: nat): (ls: seq<Link<Endpoint>>)
    ensures forall l | l in ls :: l.session in t && l.session.owner == Router(r) && l.uid == l.session.uid
  {
    if t == [] then []
    else (if t[0].owner == Router(r) then [Link(t[0], t[0].uid)] else []) + Links(t[1..], r)
  }

  function ServerCopies(t: seq<Endpoint>, e: Endpoint, p: Packet): seq<(Endpoint, Packet)> {
    Forwards(Registered(Rows(t, e.server), p.fromUid, PeerOf(e)), PeerOf(e), p)
  }

  function RouterCopies(t: seq<Endpoint>, e: Endpoint, p: Packet): seq<(Endpoint, Packet)>
    requires e.owner.Router?
  {
    var ls := Links(t, e.owner.router);
    Relays(ls, Position(ls, e), p, |ls|)  // my_dstate of the runner for e
  }

  function Children(stage: Stage, parent: Token, outs: seq<(Endpoint, Packet)>): seq<Token> {
    if outs == [] then []
    else [Token(stage, parent.id, parent.path + [outs[0].0], outs[0].1)] + Children(stage, parent, outs[1..])
  }

  /** The runner of link e is inside its forwarding loop. */
  predicate Busy(s: Net, e: Endpoint) {
    exists j | 0 <= j < |s.live| ::
      s.live[j].stage == Outbox && |s.live[j].path| >= 2 && s.live[j].path[|s.live[j].path| - 2] == e
  }

  predicate Enabled(t: seq<Endpoint>, s: Net, step: Step) {
    match step
    case Inject(c, data, trav, muid) => c in t && c.owner.Client? && (trav == 0 || trav == c.uid)
    case Serve(k) => k < |s.live| && s.live[k].path != [] && s.live[k].stage == Up
    case Receive(k) => k < |s.live| && s.live[k].path != [] && s.live[k].stage == Down
    case Take(k) =>
      k < |s.live| && s.live[k].path != [] && s.live[k].stage == Pending
      && Last(s.live[k].path).owner.Router? && !Busy(s, Last(s.live[k].path))
      && Last(s.live[k].path) in s.raised
    case Forward(k, muid) => k < |s.live| && s.live[k].path != [] && s.live[k].stage == Outbox
  }

  function Next(t: seq<Endpoint>, s: Net, step: Step): Net
    requires Enabled(t, s, step)
  {
    match step
    case Inject(c, data, trav, muid) =>
      var p := Packet(SIG_BROADCAST, false, c.uid, 0, trav, 0, muid, 0, data);
      s.(origins := s.origins + [Broadcast(c, data)], live := s.live + [Token(Up, |s.origins|, [c], p)])
    case Serve(k) =>
      var tok := s.live[k];
      s.(live := Without(s.live, k) + Children(Down, tok, ServerCopies(t, Last(tok.path), tok.pkt)),
         done := s.done + [tok])
    case Receive(k) =>
      var tok := s.live[k];
      var e := Last(tok.path);
      // dropped: wrong session, not forwarded traffic, or a response
      if tok.pkt.toUid != e.uid || !tok.pkt.fromOs || tok.pkt.packtype == RESPONSE then
        s.(live := Without(s.live, k))
      else if e.owner.Client? then
        s.(live := Without(s.live, k), done := s.done + [tok.(stage := Pending)])
      else
        s.(live := s.live[k := tok.(stage := Pending)], raised := s.raised + {e})
    case Take(k) =>
      var tok := s.live[k];
      var woken := s.(raised := s.raised - {Last(tok.path)});
      if tok.pkt.packtype != SIG_BROADCAST then woken.(live := Without(s.live, k))
      else
        woken.(live := Without(s.live, k) + Children(Outbox, tok, RouterCopies(t, Last(tok.path), tok.pkt)),
               done := s.done + [tok])
    case Forward(k, muid) =>
      var tok := s.live[k];
      s.(live := s.live[k := tok.(stage := Up, pkt := tok.pkt.(muid := muid))])
  }

  // ---- Counting copies ----

  predicate Is(tok: Token, id: nat, path: seq<Endpoint>) { tok.id == id && tok.path == path }

  /** How many of the tokens are the copy of broadcast id that took this path. */
  function Copies(ts: seq<Token>, id: nat, path: seq<Endpoint>): nat {
    if ts == [] then 0 else (if Is(ts[0], id, path) then 1 else 0) + Copies(ts[1..], id, path)
  }

  lemma {:induction false} CopiesConcat(a: seq<Token>, b: seq<Token>, id: nat, path: seq<Endpoint>)
    ensures Copies(a + b, id, path) == Copies(a, id, path) + Copies(b, id, path)
  {
    if a == [] {
      assert a + b == b;
    } else {
      assert (a + b)[1..] == a[1..] + b;
      CopiesConcat(a[1..], b, id, path);
    }
  }

  lemma CopiesWithout(ts: seq<Token>, k: nat, id: nat, path: seq<Endpoint>)
    requires k < |ts|
    ensures Copies(ts, id, path) == Copies(Without(ts, k), id, path) + (if Is(ts[k], id, path) then 1 else 0)
  {
    assert ts == ts[..k] + ([ts[k]] + ts[k + 1..]);
    CopiesConcat(ts[..k], [ts[k]] + ts[k + 1..], id, path);
    CopiesConcat([ts[k]], ts[k + 1..], id, path);
    CopiesConcat(ts[..k], ts[k + 1..], id, path);
  }

  lemma CopiesUpdate(ts: seq<Token>, k: nat, tok: Token, id: nat, path: seq<Endpoint>)
    requires k < |ts| && tok.id == ts[k].id && tok.path == ts[k].path
    ensures Copies(ts[k := tok], id, path) == Copies(ts, id, path)
  {
    assert Without(ts[k := tok], k) == Without(ts, k);
    CopiesWithout(ts, k, id, path);
    CopiesWithout(ts[k := tok], k, id, path);
  }

  /** Of the children of a token, those at x are the copies made for x. */
  lemma {:induction false} ChildrenCount(stage: Stage, parent: Token, outs: seq<(Endpoint, Packet)>, id: nat, path: seq<Endpoint>)
    ensures Copies(Children(stage, parent, outs), id, path)
         == if id == parent.id && path != [] && path[..|path| - 1] == parent.path
            then |For(outs, Last(path))| else 0
  {
    if outs != [] {
      ChildrenCount(stage, parent, outs[1..], id, path);
      var c := Token(stage, parent.id, parent.path + [outs[0].0], outs[0].1);
      assert Children(stage, parent, outs)[1..] == Children(stage, parent, outs[1..]);
      if path != [] {
        assert path == path[..|path| - 1] + [Last(path)];
        assert c.path[..|c.path| - 1] == parent.path;
      }
    }
  }

  // ---- What servers and routers emit ----

  lemma {:induction false} RowsHas(t: seq<Endpoint>, e: Endpoint)
    requires WellFormed(t) && e in t
    ensures Get(Rows(t, e.server), e.uid) == Some(PeerOf(e))
  {
    if t[0] != e {
      assert e in t[1..];
      RowsHas(t[1..], e);
      var i :| 0 <= i < |t| && t[i] == e;
      assert t[0].server == e.server ==> t[0].uid != e.uid;
      var rows, rest := Rows(t, e.server), Rows(t[1..], e.server);
      if t[0].server == e.server {
        assert rows[1..] == rest;
        var k := IndexOf(rest, e.uid);
        assert rows[1 + k] == rest[k];
      } else {
        assert rows == rest;
      }
    }
  }

  /** A broadcast reaches each other endpoint of the server once, and no one else. */
  lemma {:induction false} FanOutReach(t: seq<Endpoint>, e: Endpoint, p: Packet, x: Endpoint)
    requires WellFormed(t)
    requires forall y | y in t && y.server == e.server && y != e :: y.uid != e.uid && y.fd != e.fd
    requires p.fromUid == e.uid
    ensures For(FanOut(Rows(t, e.server), e.fd, p), x)
         == if x in t && ServerHop(e, x) then [BroadcastCopy(p, x.uid)] else []
  {
    if t != [] {
      FanOutReach(t[1..], e, p, x);
      assert x in t <==> x == t[0] || x in t[1..];
      assert x == t[0] ==> x !in t[1..];
      var rows := Rows(t, e.server);
      if t[0].server == e.server {
        assert t[0] in t;
        assert rows[1..] == Rows(t[1..], e.server);
        if t[0] != e {
          assert FanOut(rows, e.fd, p) == [(t[0], BroadcastCopy(p, t[0].uid))] + FanOut(rows[1..], e.fd, p);
        } else {
          assert FanOut(rows, e.fd, p) == FanOut(rows[1..], e.fd, p);
        }
      } else {
        assert rows == Rows(t[1..], e.server);
      }
    }
  }

  lemma Neighbours(t: seq<Endpoint>, e: Endpoint)
    requires WellFormed(t) && e in t
    ensures forall y | y in t && y.server == e.server && y != e :: y.uid != e.uid && y.fd != e.fd
  {
    var i :| 0 <= i < |t| && t[i] == e;
    forall y | y in t && y.server == e.server && y != e
      ensures y.uid != e.uid && y.fd != e.fd
    {
      var j :| 0 <= j < |t| && t[j] == y;
      assert if i < j then t[i].uid != t[j].uid else t[j].uid != t[i].uid;
    }
  }

  lemma ServerReach(t: seq<Endpoint>, e: Endpoint, p: Packet, x: Endpoint)
    requires WellFormed(t) && e in t
    requires p.packtype == SIG_BROADCAST && p.fromUid == e.uid && p.toUid == 0
    ensures For(ServerCopies(t, e, p), x)
         == if x in t && ServerHop(e, x) then [BroadcastCopy(p, x.uid)] else []
  {
    hide Rows, FanOut, For, IndexOf, Put, Get;
    RowsHas(t, e);
    Neighbours(t, e);
    FanOutReach(t, e, p, x);
    assert e.uid != 0 by { var i :| 0 <= i < |t| && t[i] == e; }
  }

  lemma {:induction false} LinksMember(t: seq<Endpoint>, e: Endpoint, r: nat)
    ensures Position(Links(t, r), e) < |Links(t, r)| <==> e in t && e.owner == Router(r)
  {
    if t != [] {
      LinksMember(t[1..], e, r);
      assert e in t <==> e == t[0] || e in t[1..];
      if t[0].owner == Router(r) {
        assert Links(t, r)[1..] == Links(t[1..], r);
      } else {
        assert Links(t, r) == Links(t[1..], r);
      }
    }
  }

  lemma {:induction false} LinksDistinct(t: seq<Endpoint>, r: nat)
    requires WellFormed(t)
    ensures forall i, j | 0 <= i < j < |Links(t, r)| :: Links(t, r)[i].session != Links(t, r)[j].session
  {
    if t != [] {
      LinksDistinct(t[1..], r);
      var ls := Links(t, r);
      if t[0].owner == Router(r) {
        var rest := Links(t[1..], r);
        hide Links;
        assert ls[1..] == rest;
        forall i, j | 0 <= i < j < |ls|
          ensures ls[i].session != ls[j].session
        {
          assert ls[j] == rest[j - 1];
          if i == 0 {
            assert rest[j - 1] in rest;
          } else {
            assert ls[i] == rest[i - 1];
          }
        }
      } else {
        assert ls == Links(t[1..], r);
      }
    }
  }

  /** A relayed packet leaves once over each other link of the router, and nowhere else. */
  lemma RouterReach(t: seq<Endpoint>, e: Endpoint, p: Packet, x: Endpoint)
    requires WellFormed(t) && e in t && e.owner.Router?
    ensures For(RouterCopies(t, e, p), x)
         == if x in t && RouterHop(e, x) then [Reissue(p, x.uid)] else []
  {
    var r := e.owner.router;
    var ls := Links(t, r);
    LinksDistinct(t, r);
    LinksMember(t, e, r);
    LinksMember(t, x, r);
    assert forall i | 0 <= i < |ls| :: ls[i] in ls;
    RelaysReach(ls, Position(ls, e), p, |ls|, x);
    assert Position(ls, x) == Position(ls, e) < |ls| ==> x == e;
  }

  // ---- The invariant ----

  /** The packet a copy of broadcast b must be after this path. */
  ghost predicate PacketOK(b: Broadcast, tok: Token) {
    && tok.path != []
    && tok.pkt.data == b.data
    && tok.pkt.packtype == SIG_BROADCAST
    && Origin(tok.pkt) == b.client.uid
    && tok.pkt.cmuid == 0 && tok.pkt.travTuid == 0
    && (|tok.path| % 2 == 0 ==> tok.pkt.muid == 0)
    && (|tok.path| % 2 == 1 ==>
          tok.pkt.fromUid == Last(tok.path).uid && tok.pkt.toUid == 0 && !tok.pkt.fromOs)
    && (|tok.path| % 2 == 0 ==>
          tok.pkt.fromUid == tok.path[|tok.path| - 2].uid && tok.pkt.toUid == Last(tok.path).uid && tok.pkt.fromOs)
  }

  ghost predicate TokenOK(t: seq<Endpoint>, origins: seq<Broadcast>, tok: Token) {
    && tok.id < |origins|
    && Path(t, tok.path) && tok.path[0] == origins[tok.id].client
    && (tok.stage == Up || tok.stage == Outbox <==> |tok.path| % 2 == 1)
    && PacketOK(origins[tok.id], tok)
  }

  /** Copies of a broadcast made along a path: the first by its client, each later one when
      the copy one hop before it was consumed. */
  ghost function Made(t: seq<Endpoint>, s: Net, id: nat, path: seq<Endpoint>): nat {
    if id >= |s.origins| || path == [] then 0
    else if |path| == 1 then (if path[0] == s.origins[id].client then 1 else 0)
    else if Last(path) in t && Hop(|path| % 2 == 1, path[|path| - 2], Last(path))
      then Copies(s.done, id, path[..|path| - 1])
    else 0
  }

  ghost predicate Balanced(t: seq<Endpoint>, s: Net, id: nat, path: seq<Endpoint>) {
    Copies(s.live, id, path) + Copies(s.done, id, path) == Made(t, s, id, path)
  }

  ghost predicate Inv(t: seq<Endpoint>, s: Net) {
    && WellFormed(t)
    && (forall b | b in s.origins :: b.client in t && b.client.owner.Client? && b.client.uid != 0)
    && (forall tok | tok in s.live :: TokenOK(t, s.origins, tok))
    && (forall tok | tok in s.live && tok.stage == Pending :: Last(tok.path).owner.Router?)
    && (forall tok | tok in s.done :: TokenOK(t, s.origins, tok))
    && (forall id, path :: Balanced(t, s, id, path))
  }

  const EMPTY := Net([], [], [], {})

  /** The states that runs of the network visit. */
  ghost predicate Run(t: seq<Endpoint>, from: Net, steps: seq<Step>, to: Net)
    decreases |steps|
  {
    if steps == [] then from == to
    else Enabled(t, from, steps[0]) && Run(t, Next(t, from, steps[0]), steps[1..], to)
  }

  lemma InvInit(t: seq<Endpoint>)
    requires WellFormed(t)
    ensures Inv(t, EMPTY)
  {
    forall id: nat, path
      ensures Balanced(t, EMPTY, id, path)
    {
    }
  }

  lemma InvInject(t: seq<Endpoint>, s: Net, step: Step)
    requires Inv(t, s) && Enabled(t, s, step) && step.Inject?
    ensures Inv(t, Next(t, s, step))
  {
    var s' := Next(t, s, step);
    var tok := s'.live[|s.live|];
    assert step.client.uid != 0 by { var i :| 0 <= i < |t| && t[i] == step.client; }
    forall x | x in s'.live || x in s'.done
      ensures TokenOK(t, s'.origins, x)
    {
      if x in s.live || x in s.done { assert TokenOK(t, s.origins, x); }
    }
    forall id: nat, path
      ensures Balanced(t, s', id, path)
    {
      assert Balanced(t, s, id, path);
      CopiesConcat(s.live, [tok], id, path);
      if id == |s.origins| {
        NoCopies(t, s, id, path);
        if path != [] { NoCopies(t, s, id, path[..|path| - 1]); }
      }
    }
  }

  /** Nothing is known of a broadcast before it is sent. */
  lemma NoCopies(t: seq<Endpoint>, s: Net, id: nat, path: seq<Endpoint>)
    requires Inv(t, s) && id >= |s.origins|
    ensures Copies(s.live, id, path) == 0 && Copies(s.done, id, path) == 0
  {
    assert Balanced(t, s, id, path);
  }

  lemma {:induction false} ChildrenOK(t: seq<Endpoint>, origins: seq<Broadcast>, stage: Stage, parent: Token, outs: seq<(Endpoint, Packet)>)
    requires TokenOK(t, origins, parent)
    requires forall o | o in outs ::
      TokenOK(t, origins, Token(stage, parent.id, parent.path + [o.0], o.1))
    ensures forall tok | tok in Children(stage, parent, outs) :: TokenOK(t, origins, tok) && tok.stage == stage
  {
    if outs != [] {
      assert outs[0] in outs;
      ChildrenOK(t, origins, stage, parent, outs[1..]);
    }
  }

  lemma {:induction false} ForHolds(copies: seq<(Endpoint, Packet)>, o: (Endpoint, Packet))
    requires o in copies
    ensures o.1 in For(copies, o.0)
  {
    if copies[0] != o {
      ForHolds(copies[1..], o);
    }
  }

  lemma ServedOK(t: seq<Endpoint>, origins: seq<Broadcast>, tok: Token, x: Endpoint)
    requires TokenOK(t, origins, tok) && tok.stage == Up
    requires x in t && ServerHop(Last(tok.path), x)
    ensures TokenOK(t, origins, Token(Down, tok.id, tok.path + [x], BroadcastCopy(tok.pkt, x.uid)))
  {
    PathSnoc(t, tok.path, x);
  }

  lemma ServerChildrenOK(t: seq<Endpoint>, origins: seq<Broadcast>, tok: Token, outs: seq<(Endpoint, Packet)>)
    requires WellFormed(t) && TokenOK(t, origins, tok) && tok.stage == Up
    requires outs == ServerCopies(t, Last(tok.path), tok.pkt)
    ensures forall c | c in Children(Down, tok, outs) :: TokenOK(t, origins, c) && c.stage == Down
  {
    forall o | o in outs
      ensures TokenOK(t, origins, Token(Down, tok.id, tok.path + [o.0], o.1))
    {
      ForHolds(outs, o);
      ServerReach(t, Last(tok.path), tok.pkt, o.0);
      ServedOK(t, origins, tok, o.0);
    }
    ChildrenOK(t, origins, Down, tok, outs);
  }

  lemma RelayedOK(t: seq<Endpoint>, origins: seq<Broadcast>, tok: Token, x: Endpoint)
    requires TokenOK(t, origins, tok) && tok.stage == Pending && origins[tok.id].client.uid != 0
    requires x in t && RouterHop(Last(tok.path), x)
    ensures TokenOK(t, origins, Token(Outbox, tok.id, tok.path + [x], Reissue(tok.pkt, x.uid)))
  {
    PathSnoc(t, tok.path, x);
  }

  lemma RouterChildrenOK(t: seq<Endpoint>, origins: seq<Broadcast>, tok: Token, outs: seq<(Endpoint, Packet)>)
    requires WellFormed(t) && TokenOK(t, origins, tok) && tok.stage == Pending
    requires Last(tok.path).owner.Router? && origins[tok.id].client.uid != 0
    requires outs == RouterCopies(t, Last(tok.path), tok.pkt)
    ensures forall c | c in Children(Outbox, tok, outs) :: TokenOK(t, origins, c) && c.stage == Outbox
  {
    forall o | o in outs
      ensures TokenOK(t, origins, Token(Outbox, tok.id, tok.path + [o.0], o.1))
    {
      ForHolds(outs, o);
      RouterReach(t, Last(tok.path), tok.pkt, o.0);
      RelayedOK(t, origins, tok, o.0);
    }
    ChildrenOK(t, origins, Outbox, tok, outs);
  }

  /** The copies made of a token go once over each hop onward and nowhere else. */
  ghost predicate Emits(t: seq<Endpoint>, tok: Token, outs: seq<(Endpoint, Packet)>, x: Endpoint) {
    tok.path != [] &&
    |For(outs, x)| == if x in t && Hop(|tok.path| % 2 == 0, Last(tok.path), x) then 1 else 0
  }

  /** Consuming one token into children that reach exactly the hops onward keeps the balance. */
  lemma ConsumeBalanced(t: seq<Endpoint>, s: Net, k: nat, stage: Stage, outs: seq<(Endpoint, Packet)>, s': Net, id: nat, path: seq<Endpoint>)
    requires k < |s.live| && s.live[k].id < |s.origins|
    requires s'.origins == s.origins && s'.done == s.done + [s.live[k]]
    requires s'.live == Without(s.live, k) + Children(stage, s.live[k], outs)
    requires forall x :: Emits(t, s.live[k], outs, x)
    requires Balanced(t, s, id, path)
    ensures Balanced(t, s', id, path)
  {
    var tok := s.live[k];
    CopiesWithout(s.live, k, id, path);
    CopiesConcat(Without(s.live, k), Children(stage, tok, outs), id, path);
    CopiesConcat(s.done, [tok], id, path);
    ChildrenCount(stage, tok, outs, id, path);
    if path != [] {
      assert Emits(t, tok, outs, Last(path));
      var parent := path[..|path| - 1];
      CopiesConcat(s.done, [tok], id, parent);
      assert parent == tok.path ==> path[|path| - 2] == Last(tok.path);
    }
  }

  /** Consuming a token for what it emits keeps every balance. */
  lemma ConsumeAllBalanced(t: seq<Endpoint>, s: Net, k: nat, stage: Stage, outs: seq<(Endpoint, Packet)>, s': Net)
    requires k < |s.live| && s.live[k].id < |s.origins|
    requires s'.origins == s.origins && s'.done == s.done + [s.live[k]]
    requires s'.live == Without(s.live, k) + Children(stage, s.live[k], outs)
    requires forall x :: Emits(t, s.live[k], outs, x)
    requires forall id, path :: Balanced(t, s, id, path)
    ensures forall id, path :: Balanced(t, s', id, path)
  {
    forall id: nat, path
      ensures Balanced(t, s', id, path)
    {
      assert Balanced(t, s, id, path);
      ConsumeBalanced(t, s, k, stage, outs, s', id, path);
    }
  }

  lemma InvServe(t: seq<Endpoint>, s: Net, k: nat)
    requires Inv(t, s) && Enabled(t, s, Serve(k))
    ensures Inv(t, Next(t, s, Serve(k)))
  {
    hide Balanced, ServerCopies, Children;
    var tok := s.live[k];
    var e := Last(tok.path);
    var outs := ServerCopies(t, e, tok.pkt);
    assert tok in s.live && TokenOK(t, s.origins, tok);
    forall x
      ensures Emits(t, tok, outs, x)
    {
      ServerReach(t, e, tok.pkt, x);
    }
    ConsumeAllBalanced(t, s, k, Down, outs, Next(t, s, Serve(k)));
    ServerChildrenOK(t, s.origins, tok, outs);
  }

  lemma InvTake(t: seq<Endpoint>, s: Net, k: nat)
    requires Inv(t, s) && Enabled(t, s, Take(k))
    ensures Inv(t, Next(t, s, Take(k)))
  {
    hide Balanced, RouterCopies, Children;
    var tok := s.live[k];
    var e := Last(tok.path);
    var outs := RouterCopies(t, e, tok.pkt);
    assert tok in s.live && TokenOK(t, s.origins, tok);
    forall x
      ensures Emits(t, tok, outs, x)
    {
      RouterReach(t, e, tok.pkt, x);
    }
    ConsumeAllBalanced(t, s, k, Outbox, outs, Next(t, s, Take(k)));
    RouterChildrenOK(t, s.origins, tok, outs);
  }

  lemma HandedOverBalanced(t: seq<Endpoint>, s: Net, k: nat, moved: Token, s': Net, id: nat, path: seq<Endpoint>)
    requires k < |s.live| && moved == s.live[k].(stage := Pending)
    requires moved.path != [] && Last(moved.path).owner.Client? && |moved.path| % 2 == 0
    requires s'.origins == s.origins && s'.live == Without(s.live, k) && s'.done == s.done + [moved]
    requires Balanced(t, s, id, path)
    ensures Balanced(t, s', id, path)
  {
    CopiesWithout(s.live, k, id, path);
    CopiesConcat(s.done, [moved], id, path);
    if path != [] {
      CopiesConcat(s.done, [moved], id, path[..|path| - 1]);
    }
  }

  /** A handler drops no flooded copy: each one carries the uid of the session it reaches. */
  lemma InvReceive(t: seq<Endpoint>, s: Net, k: nat)
    requires Inv(t, s) && Enabled(t, s, Receive(k))
    ensures Inv(t, Next(t, s, Receive(k)))
  {
    var tok := s.live[k];
    var s' := Next(t, s, Receive(k));
    var moved := tok.(stage := Pending);
    assert tok in s.live && TokenOK(t, s.origins, tok);
    assert TokenOK(t, s.origins, moved);
    forall id: nat, path
      ensures Balanced(t, s', id, path)
    {
      assert Balanced(t, s, id, path);
      if Last(tok.path).owner.Client? {
        HandedOverBalanced(t, s, k, moved, s', id, path);
      } else {
        CopiesUpdate(s.live, k, moved, id, path);
      }
    }
  }

  lemma InvForward(t: seq<Endpoint>, s: Net, step: Step)
    requires Inv(t, s) && Enabled(t, s, step) && step.Forward?
    ensures Inv(t, Next(t, s, step))
  {
    var k := step.k;
    var tok := s.live[k];
    var s' := Next(t, s, step);
    assert tok in s.live && TokenOK(t, s.origins, tok);
    assert TokenOK(t, s.origins, s'.live[k]);
    forall id: nat, path
      ensures Balanced(t, s', id, path)
    {
      assert Balanced(t, s, id, path);
      CopiesUpdate(s.live, k, s'.live[k], id, path);
    }
  }

  lemma InvNext(t: seq<Endpoint>, s: Net, step: Step)
    requires Inv(t, s) && Enabled(t, s, step)
    ensures Inv(t, Next(t, s, step))
  {
    match step
    case Inject(_, _, _, _) => InvInject(t, s, step);
    case Serve(k) => InvServe(t, s, k);
    case Receive(k) => InvReceive(t, s, k);
    case Take(k) => InvTake(t, s, k);
    case Forward(_, _) => InvForward(t, s, step);
  }

  lemma {:induction false} InvRun(t: seq<Endpoint>, from: Net, steps: seq<Step>, to: Net)
    requires Inv(t, from) && Run(t, from, steps, to)
    ensures Inv(t, to)
    decreases |steps|
  {
    if steps != [] {
      InvNext(t, from, steps[0]);
      InvRun(t, Next(t, from, steps[0]), steps[1..], to);
    }
  }
}
