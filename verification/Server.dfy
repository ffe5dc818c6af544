/** The server side in place (dnet/server.c): connections with their queues, the registry, the
    worker that handles one packet and the disconnector.  Queues are the byte-block sequences
    that module Queue implements. */
module Server {
  import opened Bytes
  import opened Wrappers
  import opened Codec
  import opened Assoc
  import opened Contents
  import opened Dispatch
  import opened Framing
  import opened Registration

  /** struct client.  fd and the address are those of the accepted socket. */
  class Conn {
    const fd: int
    const addr: Address
    var readQ: seq<Frame>
    var writeQ: seq<seq<Byte>>

    constructor (fd: int, addr: Address)
      ensures this.fd == fd && this.addr == addr && readQ == [] && writeQ == []
    {
      this.fd, this.addr := fd, addr;
      readQ, writeQ := [], [];
    }
  }

  function PeerOf(c: Conn): Peer<Conn> { Peer(c, c.fd, c.addr) }

  class DcnServer {
    var clients: Registry<Conn>
    var sessions: seq<Entry<U64, U64>>
    ghost const conns: set<Conn>

    ghost predicate Valid()
      reads this
    {
      && Distinct(clients)
      && Distinct(sessions)
      && (forall i | 0 <= i < |clients| :: clients[i].value.conn in conns && clients[i].value == PeerOf(clients[i].value.conn))
    }

    constructor (ghost conns: set<Conn>)
      ensures Valid() && clients == [] && sessions == [] && this.conns == conns
    {
      this.conns := conns;
      clients, sessions := [], [];
    }

    /** Lines that enter the sender in dcn_sessions and dcn_clients. */
    method Register(cli: Conn, uid: U64, muid: U64)
      requires Valid() && cli in conns
      modifies this
      ensures Valid()
      ensures clients == Registered(old(clients), uid, PeerOf(cli))
      ensures sessions == Put(old(sessions), uid, muid)
      ensures forall i | 0 <= i < |old(clients)| && old(clients)[i].key == uid ::
        clients == if old(clients)[i].value.addr == cli.addr then old(clients)
                   else old(clients)[i := Entry(uid, PeerOf(cli))]
      ensures (forall i | 0 <= i < |old(clients)| :: old(clients)[i].key != uid) ==>
        clients == old(clients) + [Entry(uid, PeerOf(cli))]
    {
      PutPlace(clients, uid, PeerOf(cli));
      GetRow(clients, uid);
      hide IndexOf, Get, Put;
      PutModel(sessions, uid, muid);
      PutModel(clients, uid, PeerOf(cli));
      sessions := Put(sessions, uid, muid);
      var shadow := Get(clients, uid);
      if shadow.None? {
        clients := Put(clients, uid, PeerOf(cli));
      } else if shadow.value.addr.ip != cli.addr.ip || shadow.value.addr.port != cli.addr.port {
        clients := Put(clients, uid, PeerOf(cli));
      }
    }

    /** The code packet goes to the sender's own write queue. */
    method Reply(cli: Conn, p: Packet, code: nat, blank: Packet)
      requires code < 256
      modifies cli`writeQ
      ensures cli.writeQ == old(cli.writeQ) + [Encode(Answer(p, code, blank))]
    {
      var answer := Packet(REQUEST, false, 0, p.fromUid, 0, 0, p.muid, 0, Store(code, 4));
      if code == FORBIDDEN {
        answer := answer.(packtype := blank.packtype, travFuid := blank.travFuid, travTuid := blank.travTuid);
      }
      cli.writeQ := cli.writeQ + [Encode(answer)];
    }

    /** A packet for one user, if its descriptor is positive. */
    method PassOn(target: Peer<Conn>, p: Packet)
      requires target.conn in conns
      modifies target.conn`writeQ
      ensures forall c | c in conns ::
        c.writeQ == old(c.writeQ)
          + Blocks(For(if target.fd > 0 then [(target.conn, UnicastCopy(p))] else [], c))
    {
      One(target, p);
      hide Encode, Blocks, For;
      if target.fd > 0 {
        var copy := Packet(p.packtype, true, p.fromUid, p.toUid, 0, 0, 0, p.cmuid, p.data);
        assert copy == UnicastCopy(p);
        target.conn.writeQ := target.conn.writeQ + [Encode(copy)];
      }
    }

    /** The loop over dcn_clients by index. */
    method Broadcast(cli: Conn, p: Packet)
      requires Valid() && cli in conns
      modifies conns`writeQ
      ensures forall c | c in conns ::
        c.writeQ == old(c.writeQ) + Blocks(For(FanOut(clients, cli.fd, p), c))
    {
      hide Blocks, FanOut, For;
      FanOutNone(clients, cli.fd, p);
      var i := 0;
      while i < |clients|
        invariant i <= |clients|
        invariant forall c | c in conns ::
          c.writeQ == old(c.writeQ) + Blocks(For(FanOut(clients[..i], cli.fd, p), c))
      {
        label Before:
        var key := clients[i].key;
        IndexUnique(clients, i);
        var target := clients[IndexOf(clients, key)].value;
        if key != p.fromUid && target.fd != cli.fd && target.fd > 0 {
          var copy := Packet(p.packtype, true, p.fromUid, key, p.travFuid, 0, 0, p.cmuid, p.data);
          assert copy == BroadcastCopy(p, key);
          target.conn.writeQ := target.conn.writeQ + [Encode(copy)];
        }
        forall c | c in conns
          ensures c.writeQ == old(c.writeQ) + Blocks(For(FanOut(clients[..i + 1], cli.fd, p), c))
        {
          FanOutNext(clients, cli.fd, p, i, c);
        }
        i := i + 1;
      }
      assert clients[..i] == clients;
    }

    /** dcn_async_worker.  The worker ignores whether packet_deserial refused the block; `pack`
        and `blank` are what the stack held in its two packets. */
    method Worker(cli: Conn, pack: Packet, blank: Packet) returns (handled: bool)
      requires Valid() && cli in conns
      modifies this, cli`readQ, conns`writeQ
      ensures Valid()
      ensures handled <==> old(cli.readQ) != []
      ensures !handled ==> cli.readQ == old(cli.readQ) && clients == old(clients) && sessions == old(sessions)
      ensures !handled ==> forall c | c in conns :: c.writeQ == old(c.writeQ)
      ensures handled ==>
        var p := Parsed(old(cli.readQ[0]), pack);
        && cli.readQ == old(cli.readQ[1..])
        && clients == Registered(old(clients), p.fromUid, PeerOf(cli))
        && sessions == Put(old(sessions), p.fromUid, p.muid)
        && (forall c | c in conns ::
              c.writeQ == old(c.writeQ) + Blocks(For(Emission(clients, PeerOf(cli), p, blank), c)))
        && Answered(old(cli.writeQ), cli.writeQ, clients, p)
    {
      if cli.readQ == [] {
        return false;
      }
      hide Parsed;
      var p := Parsed(cli.readQ[0], pack);
      cli.readQ := cli.readQ[1..];
      Register(cli, p.fromUid, p.muid);
      handled := true;
      Process(cli, p, blank);
    }

    /** Answer and forward, once the sender is registered. */
    method Process(cli: Conn, p: Packet, blank: Packet)
      requires Valid() && cli in conns
      modifies conns`writeQ
      ensures forall c | c in conns ::
        c.writeQ == old(c.writeQ) + Blocks(For(Emission(clients, PeerOf(cli), p, blank), c))
      ensures Answered(old(cli.writeQ), cli.writeQ, clients, p)
    {
      Decide(cli, p, blank);
      Choose(cli, p, blank, old(cli.writeQ));
    }

    /** The branches of the worker. */
    method Decide(cli: Conn, p: Packet, blank: Packet)
      requires Valid() && cli in conns
      modifies conns`writeQ
      ensures forall c | c in conns ::
        c.writeQ == old(c.writeQ) + Blocks(For(Emission(clients, PeerOf(cli), p, blank), c))
    {
      hide Encode, Blocks, FanOut, For, IndexOf, Answer, UnicastCopy, Emission;
      if p.fromUid == p.toUid {
        Reply(cli, p, FORBIDDEN, blank);
        Sums(cli, p, blank, []);
        return;
      }
      if p.toUid == 0 && p.packtype == PING {
        Reply(cli, p, OK, blank);
        Sums(cli, p, blank, []);
        return;
      }
      var target: Option<Peer<Conn>> := None;
      if !(p.toUid == 0 && Broadcasts(p)) {
        target := Get(clients, p.toUid);
        if target.None? {
          Reply(cli, p, NO_CLIENT, blank);
          Sums(cli, p, blank, []);
          return;
        }
      }
      Reply(cli, p, OK, blank);
      if !Broadcasts(p) {
        Sums(cli, p, blank, if target.value.fd > 0 then [(target.value.conn, UnicastCopy(p))] else []);
        PassOn(target.value, p);
      } else {
        Sums(cli, p, blank, FanOut(clients, cli.fd, p));
        Broadcast(cli, p);
      }
    }

    /** The first block of the emission on the sender's queue is the answer. */
    lemma Choose(cli: Conn, p: Packet, blank: Packet, before: seq<seq<Byte>>)
      ensures Answered(before, before + Blocks(For(Emission(clients, PeerOf(cli), p, blank), cli)), clients, p)
    {
      AnswerChoice(clients, p, blank);
      var answer, copies := Answer(p, Code(clients, p), blank), Forwards(clients, PeerOf(cli), p);
      hide Encode, Answer, Code, Forwards, CodeIn;
      ForConcat([(cli, answer)], copies, cli);
      assert [(cli, answer)][1..] == [];
      assert For([(cli, answer)], cli) == [answer];
      assert Blocks([answer] + For(copies, cli))[0] == Encode(answer);
    }

    /** The emission splits, on every write queue, into the answer and the copies. */
    lemma Sums(cli: Conn, p: Packet, blank: Packet, copies: seq<(Conn, Packet)>)
      requires copies == Forwards(clients, PeerOf(cli), p)
      ensures forall c: Conn | c in conns ::
        Blocks(For(Emission(clients, PeerOf(cli), p, blank), c))
        == (if c == cli then [Encode(Answer(p, Code(clients, p), blank))] else []) + Blocks(For(copies, c))
      ensures copies == [] ==> forall c: Conn | c in conns :: Blocks(For(copies, c)) == []
    {
      hide Encode, Code, FanOut, Answer;
      forall c: Conn | c in conns
        ensures Blocks(For(Emission(clients, PeerOf(cli), p, blank), c))
          == (if c == cli then [Encode(Answer(p, Code(clients, p), blank))] else []) + Blocks(For(copies, c))
      {
        var head := [(cli, Answer(p, Code(clients, p), blank))];
        ForConcat(head, copies, c);
        BlocksConcat(For(head, c), For(copies, c));
        assert head[1..] == [];
      }
    }

    /** __dcn_disconnector */
    method Disconnect(cli: Conn) returns (found: bool)
      requires Valid()
      modifies this`clients
      ensures Valid()
      ensures clients == Unregistered(old(clients), cli)
      ensures found <==> exists i | 0 <= i < |old(clients)| :: old(clients)[i].value.conn == cli
      ensures !found ==> clients == old(clients)
      ensures found ==> exists i :: FirstNaming(old(clients), cli, i) && clients == old(clients)[..i] + old(clients)[i + 1..]
    {
      hide IndexOf, Distinct, Remove;
      var i := 0;
      while i < |clients| && clients[i].value.conn != cli
        invariant i <= |clients|
        invariant forall j | 0 <= j < i :: clients[j].value.conn != cli
        modifies {}
      {
        i := i + 1;
      }
      found := i < |clients|;
      if found {
        assert i == Named(clients, cli);
        RemoveModel(clients, clients[i].key);
        ghost var before := clients;
        clients := Remove(clients, clients[i].key);
        Kept(before, before[i].key);
        RemovePlace(before, before[i].key);
        assert FirstNaming(before, cli, i);
      }
    }
  }

  /** The first block that has been added to the sender's write queue has the code that the
      packet and the rows of the registry call for. */
  ghost predicate Answered(before: seq<seq<Byte>>, after: seq<seq<Byte>>, reg: Registry<Conn>, p: Packet) {
    && |before| < |after| && |after[|before|]| == 65
    && var code := CodeIn(after[|before|]);
      && (p.fromUid == p.toUid ==> code == 102)
      && (p.fromUid != p.toUid && p.toUid == 0 && (p.packtype == PING || Broadcasts(p)) ==> code == 200)
      && (p.fromUid != p.toUid && !(p.toUid == 0 && (p.packtype == PING || Broadcasts(p))) ==>
            code == if HasRow(reg, p.toUid) then 200 else 101)
  }

  /** Row i is the first that names the connection. */
  ghost predicate FirstNaming(reg: Registry<Conn>, cli: Conn, i: int) {
    0 <= i < |reg| && reg[i].value.conn == cli && forall j | 0 <= j < i :: reg[j].value.conn != cli
  }

  lemma GetRow(reg: Registry<Conn>, uid: U64)
    requires Distinct(reg)
    ensures forall i | 0 <= i < |reg| && reg[i].key == uid :: Get(reg, uid) == Some(reg[i].value)
    ensures (forall i | 0 <= i < |reg| :: reg[i].key != uid) ==> Get(reg, uid) == None
  {
    forall i | 0 <= i < |reg| && reg[i].key == uid
      ensures i == IndexOf(reg, uid)
    {
      IndexUnique(reg, i);
    }
  }

  lemma Kept(reg: Registry<Conn>, uid: U64)
    ensures forall k | 0 <= k < |Remove(reg, uid)| :: Remove(reg, uid)[k] in reg
  {
  }

  lemma One(target: Peer<Conn>, p: Packet)
    ensures forall c: Conn ::
      Blocks(For([(target.conn, UnicastCopy(p))], c)) == if c == target.conn then [Encode(UnicastCopy(p))] else []
    ensures forall c: Conn :: Blocks(For([], c)) == []
  {
    hide Encode;
  }

  lemma FanOutNone(reg: Registry<Conn>, fd: int, p: Packet)
    ensures forall c: Conn :: Blocks(For(FanOut(reg[..0], fd, p), c)) == []
  {
  }

  /** What one turn of the loop adds to one write queue. */
  lemma FanOutNext(reg: Registry<Conn>, fd: int, p: Packet, i: nat, c: Conn)
    requires i < |reg|
    ensures Blocks(For(FanOut(reg[..i + 1], fd, p), c))
         == Blocks(For(FanOut(reg[..i], fd, p), c))
            + (if Served(reg[i], fd, p) && reg[i].value.conn == c then [Encode(BroadcastCopy(p, reg[i].key))] else [])
  {
    hide Encode, BroadcastCopy;
    assert reg[..i + 1] == reg[..i] + [reg[i]];
    FanOutSnoc(reg[..i], reg[i], fd, p);
    var one := FanOut([reg[i]], fd, p);
    ForConcat(FanOut(reg[..i], fd, p), one, c);
    BlocksConcat(For(FanOut(reg[..i], fd, p), c), For(one, c));
    assert [reg[i]][1..] == [];
    if Served(reg[i], fd, p) { assert one == [(reg[i].value.conn, BroadcastCopy(p, reg[i].key))] && one[1..] == []; }
  }
}
