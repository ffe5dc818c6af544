/** What dcn_async_worker decides for one packet (dnet/server.c): who is registered, which
    code the sender gets, and which copies go to whom.  `C` stands for `struct client *`. */
module Dispatch {
  import opened Bytes
  import opened Wrappers
  import opened Codec
  import opened Assoc

  datatype Address = Address(ip: string, port: nat)

  /** The fields of `struct client` the worker looks at. */
  datatype Peer<C> = Peer(conn: C, fd: int, addr: Address)

  /** dcn_clients */
  type Registry<C> = seq<Entry<U64, Peer<C>>>

  const FORBIDDEN := 102
  const NO_CLIENT := 101
  const OK := 200

  predicate Broadcasts(p: Packet) { p.packtype == BROADCAST || p.packtype == SIG_BROADCAST }

  /** Registration of the sender: new, moved to another address, or left alone. */
  function Registered<C(==)>(reg: Registry<C>, uid: U64, cli: Peer<C>): Registry<C> {
    match Get(reg, uid)
    case None => Put(reg, uid, cli)
    case Some(shadow) => if shadow.addr != cli.addr then Put(reg, uid, cli) else reg
  }

  function Code<C(==)>(reg: Registry<C>, p: Packet): (c: nat)
    ensures c < 256
  {
    if p.fromUid == p.toUid then FORBIDDEN
    else if p.toUid == 0 && p.packtype == PING then OK
    else if p.toUid == 0 && Broadcasts(p) then OK
    else if Has(reg, p.toUid) then OK
    else NO_CLIENT
  }

  /** The code packet.  `blank` is the uninitialised stack packet of the refusing branch, of
      which the type and the transit ids survive. */
  function Answer(p: Packet, code: nat, blank: Packet): Packet
    requires code < 256
  {
    if code == FORBIDDEN then
      blank.(fromOs := false, fromUid := 0, toUid := p.fromUid, muid := p.muid, cmuid := 0,
             data := Store(code, 4))
    else
      Packet(REQUEST, false, 0, p.fromUid, 0, 0, p.muid, 0, Store(code, 4))
  }

  /** The code a session reads from an answer. */
  function AnswerCode(answer: Packet): (c: nat)
  {
    if |answer.data| >= 4 then Load(answer.data[..4]) else 0
  }

  lemma AnswerCarriesCode(p: Packet, code: nat, blank: Packet)
    requires code < 256
    ensures AnswerCode(Answer(p, code, blank)) == code
  {
    WordSizes();
    LoadStore(code, 4);
    assert Store(code, 4)[..4] == Store(code, 4);
  }

  function UnicastCopy(p: Packet): Packet {
    Packet(p.packtype, true, p.fromUid, p.toUid, 0, 0, 0, p.cmuid, p.data)
  }

  function BroadcastCopy(p: Packet, key: U64): Packet {
    Packet(p.packtype, true, p.fromUid, key, p.travFuid, 0, 0, p.cmuid, p.data)
  }

  /** The broadcast loop over the registry. */
  function FanOut<C>(reg: Registry<C>, senderFd: int, p: Packet): seq<(C, Packet)> {
    if reg == [] then []
    else
      var e := reg[0];
      var skip := e.key == p.fromUid || e.value.fd == senderFd || e.value.fd <= 0;
      (if skip then [] else [(e.value.conn, BroadcastCopy(p, e.key))]) + FanOut(reg[1..], senderFd, p)
  }

  /** All copies that processing p puts on the write queues of registered connections. */
  function Forwards<C(==)>(reg: Registry<C>, cli: Peer<C>, p: Packet): seq<(C, Packet)> {
    if Code(reg, p) != OK || (p.toUid == 0 && p.packtype == PING) then []
    else if Broadcasts(p) then FanOut(reg, cli.fd, p)
    else
      var target := Get(reg, p.toUid).value;
      if target.fd > 0 then [(target.conn, UnicastCopy(p))] else []
  }

  lemma {:induction false} FanOutSnoc<C>(reg: Registry<C>, e: Entry<U64, Peer<C>>, senderFd: int, p: Packet)
    ensures FanOut(reg + [e], senderFd, p) == FanOut(reg, senderFd, p) + FanOut([e], senderFd, p)
  {
    if reg == [] {
      assert [] + [e] == [e];
    } else {
      assert (reg + [e])[1..] == reg[1..] + [e];
      FanOutSnoc(reg[1..], e, senderFd, p);
    }
  }

  /** The packets a copy list holds for one connection, in order. */
  function For<C(==)>(copies: seq<(C, Packet)>, conn: C): seq<Packet> {
    if copies == [] then []
    else (if copies[0].0 == conn then [copies[0].1] else []) + For(copies[1..], conn)
  }

  lemma {:induction false} ForConcat<C>(a: seq<(C, Packet)>, b: seq<(C, Packet)>, conn: C)
    ensures For(a + b, conn) == For(a, conn) + For(b, conn)
  {
    if a == [] {
      assert a + b == b;
    } else {
      assert (a + b)[1..] == a[1..] + b;
      ForConcat(a[1..], b, conn);
      var first := if a[0].0 == conn then [a[0].1] else [];
      assert first + (For(a[1..], conn) + For(b, conn)) == first + For(a[1..], conn) + For(b, conn);
    }
  }

  /** Rows that a broadcast of p serves: another uid, another descriptor, still open. */
  predicate Served<C>(e: Entry<U64, Peer<C>>, senderFd: int, p: Packet) {
    e.key != p.fromUid && e.value.fd != senderFd && e.value.fd > 0
  }

  /** The copies addressed to a uid, in order. */
  function To<C>(copies: seq<(C, Packet)>, uid: U64): seq<(C, Packet)> {
    if copies == [] then []
    else (if copies[0].1.toUid == uid then [copies[0]] else []) + To(copies[1..], uid)
  }

  /** A broadcast makes exactly one copy for each registered uid that it serves, on the
      connection registered for that uid, and none for any other uid. */
  lemma {:induction false} FanOutPerUid<C>(reg: Registry<C>, senderFd: int, p: Packet, uid: U64)
    requires Distinct(reg)
    ensures To(FanOut(reg, senderFd, p), uid)
      == match Get(reg, uid)
         case Some(v) =>
           if uid != p.fromUid && v.fd != senderFd && v.fd > 0
           then [(v.conn, Packet(p.packtype, true, p.fromUid, uid, p.travFuid, 0, 0, p.cmuid, p.data))] else []
         case None => []
  {
    if reg != [] {
      FanOutPerUid(reg[1..], senderFd, p, uid);
      var row := reg[0];
      var copies, rest := FanOut(reg, senderFd, p), FanOut(reg[1..], senderFd, p);
      if Served(row, senderFd, p) {
        assert copies == [(row.value.conn, BroadcastCopy(p, row.key))] + rest;
        assert copies[1..] == rest;
      } else {
        assert copies == rest;
      }
      if row.key == uid {
        assert forall j | 0 <= j < |reg[1..]| :: reg[1..][j] == reg[j + 1];
      }
    }
  }
}
