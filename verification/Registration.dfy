/** The registry of a server over whole runs (dnet/server.c): which connection a uid names, and
    what the server emits. */
module Registration {
  import opened Bytes
  import opened Wrappers
  import opened Codec
  import opened Assoc
  import opened Dispatch

  /** A handler run for a packet of a connection, or the end of a connection. */
  datatype Event<C> = Processed(cli: Peer<C>, p: Packet, blank: Packet) | Closed(conn: C)

  /** map_key_by_val: position of the first entry that names the connection. */
  function Named<C(==)>(reg: Registry<C>, conn: C): (i: nat)
    ensures i <= |reg|
    ensures i < |reg| ==> reg[i].value.conn == conn
    ensures forall j | 0 <= j < i :: reg[j].value.conn != conn
  {
    if reg == [] then 0 else if reg[0].value.conn == conn then 0 else 1 + Named(reg[1..], conn)
  }

  /** __dcn_disconnector */
  function Unregistered<C(==)>(reg: Registry<C>, conn: C): Registry<C> {
    var i := Named(reg, conn);
    if i < |reg| then Remove(reg, reg[i].key) else reg
  }

  function After<C(==)>(reg: Registry<C>, e: Event<C>): Registry<C> {
    match e
    case Processed(cli, p, _) => Registered(reg, p.fromUid, cli)
    case Closed(conn) => Unregistered(reg, conn)
  }

  function Reg<C(==)>(events: seq<Event<C>>): Registry<C> {
    if events == [] then [] else After(Reg(events[..|events| - 1]), events[|events| - 1])
  }

  // ---- Who a uid names ----

  /** The connection that most recently had a packet from the uid processed, unless it has
      closed since. */
  function Latest<C(==)>(events: seq<Event<C>>, uid: U64): Option<Peer<C>> {
    if events == [] then None
    else Moved(Latest(events[..|events| - 1], uid), events[|events| - 1], uid)
  }

  function Moved<C(==)>(before: Option<Peer<C>>, e: Event<C>, uid: U64): Option<Peer<C>> {
    match e
    case Processed(cli, p, _) => if p.fromUid == uid then Some(cli) else before
    case Closed(conn) => if before.Some? && before.value.conn == conn then None else before
  }

  predicate ClosedBy<C(==)>(events: seq<Event<C>>, conn: C, n: nat)
    requires n <= |events|
  {
    Closed(conn) in events[..n]
  }

  /** Each connection keeps one uid and one address, live connections have different
      addresses, and no handler of a connection runs after it has closed. */
  ghost predicate WellBehaved<C>(events: seq<Event<C>>) {
    && (forall i, j | 0 <= i < j < |events| && events[i].Processed? && events[j].Processed? ::
          Consistent(events, i, j))
    && (forall j | 0 <= j < |events| && events[j].Processed? :: !ClosedBy(events, events[j].cli.conn, j))
  }

  ghost predicate Consistent<C>(events: seq<Event<C>>, i: nat, j: nat)
    requires i < j < |events| && events[i].Processed? && events[j].Processed?
  {
    var a, b := events[i], events[j];
    if a.cli.conn == b.cli.conn then a.cli == b.cli && a.p.fromUid == b.p.fromUid
    else a.cli.addr != b.cli.addr || ClosedBy(events, a.cli.conn, j)
  }

  lemma WellBehavedPrefix<C>(events: seq<Event<C>>)
    requires WellBehaved(events) && events != []
    ensures WellBehaved(events[..|events| - 1])
  {
    var es := events[..|events| - 1];
    assert forall n | 0 <= n <= |es| :: es[..n] == events[..n];
    forall i, j | 0 <= i < j < |es| && es[i].Processed? && es[j].Processed?
      ensures Consistent(es, i, j)
    {
      assert Consistent(events, i, j);
    }
  }

  /** Some packet of this uid was processed for this peer, which is still open. */
  ghost predicate Backed<C>(events: seq<Event<C>>, e: Entry<U64, Peer<C>>) {
    && (exists i | 0 <= i < |events| :: events[i].Processed? && events[i].cli == e.value && events[i].p.fromUid == e.key)
    && !ClosedBy(events, e.value.conn, |events|)
  }

  lemma BackedLater<C>(events: seq<Event<C>>, e: Entry<U64, Peer<C>>)
    requires events != [] && Backed(events[..|events| - 1], e)
    requires events[|events| - 1] != Closed(e.value.conn)
    ensures Backed(events, e)
  {
    var es := events[..|events| - 1];
    var i :| 0 <= i < |es| && es[i].Processed? && es[i].cli == e.value && es[i].p.fromUid == e.key;
    assert events[i] == es[i];
    assert events[..|events|] == es + [events[|events| - 1]] && es[..|es|] == es;
  }

  ghost predicate RegOK<C>(events: seq<Event<C>>, reg: Registry<C>) {
    Distinct(reg) && forall k | 0 <= k < |reg| :: Backed(events, reg[k])
  }

  /** With the same address in the registry, the sender is the registered connection. */
  lemma SameAddressSamePeer<C>(events: seq<Event<C>>, uid: U64)
    requires WellBehaved(events) && events != [] && events[|events| - 1].Processed?
    requires RegOK(events[..|events| - 1], Reg(events[..|events| - 1]))
    requires Get(Reg(events[..|events| - 1]), uid).Some?
    requires Get(Reg(events[..|events| - 1]), uid).value.addr == events[|events| - 1].cli.addr
    ensures Get(Reg(events[..|events| - 1]), uid).value == events[|events| - 1].cli
  {
    var n := |events| - 1;
    var es := events[..n];
    var e := Reg(es)[IndexOf(Reg(es), uid)];
    assert Backed(es, e);
    var i :| 0 <= i < |es| && es[i].Processed? && es[i].cli == e.value && es[i].p.fromUid == e.key;
    assert events[i] == es[i] && Consistent(events, i, n);
    assert es[..|es|] == events[..n];
  }

  /** Registration makes the uid name the sender and changes nothing else. */
  lemma RegisteredGet<C>(reg: Registry<C>, uid: U64, cli: Peer<C>)
    requires Distinct(reg)
    requires Get(reg, uid).Some? && Get(reg, uid).value.addr == cli.addr ==> Get(reg, uid).value == cli
    ensures Distinct(Registered(reg, uid, cli))
    ensures forall u :: Get(Registered(reg, uid, cli), u) == if u == uid then Some(cli) else Get(reg, u)
    ensures forall k | 0 <= k < |Registered(reg, uid, cli)| ::
      Registered(reg, uid, cli)[k] == Entry(uid, cli) || Registered(reg, uid, cli)[k] in reg
  {
    if Registered(reg, uid, cli) != reg {
      forall u
        ensures Get(Put(reg, uid, cli), u) == if u == uid then Some(cli) else Get(reg, u)
        ensures Distinct(Put(reg, uid, cli))
      {
        PutGet(reg, uid, cli, u);
      }
    }
  }

  lemma ProcessedOK<C>(events: seq<Event<C>>)
    requires WellBehaved(events) && events != [] && events[|events| - 1].Processed?
    requires RegOK(events[..|events| - 1], Reg(events[..|events| - 1]))
    ensures RegOK(events, Reg(events))
    ensures forall u :: Get(Reg(events), u) == Moved(Get(Reg(events[..|events| - 1]), u), events[|events| - 1], u)
  {
    hide Get, Put, Registered;
    var n := |events| - 1;
    var es, last := events[..n], events[n];
    var reg, uid, cli := Reg(es), last.p.fromUid, last.cli;
    if Get(reg, uid).Some? && Get(reg, uid).value.addr == cli.addr {
      SameAddressSamePeer(events, uid);
    }
    RegisteredGet(reg, uid, cli);
    assert events[..|events|] == events && events == es + [last];
    assert !ClosedBy(events, cli.conn, n);
    assert Backed(events, Entry(uid, cli));
    forall k | 0 <= k < |Reg(events)|
      ensures Backed(events, Reg(events)[k])
    {
      if Reg(events)[k] in reg { BackedLater(events, Reg(events)[k]); }
    }
  }

  /** Entries that name one connection have one key. */
  lemma OneName<C>(events: seq<Event<C>>, reg: Registry<C>, k: nat, m: nat)
    requires WellBehaved(events) && RegOK(events, reg)
    requires k < |reg| && m < |reg| && reg[k].value.conn == reg[m].value.conn
    ensures k == m
  {
    assert Backed(events, reg[k]) && Backed(events, reg[m]);
    var i :| 0 <= i < |events| && events[i].Processed? && events[i].cli == reg[k].value && events[i].p.fromUid == reg[k].key;
    var j :| 0 <= j < |events| && events[j].Processed? && events[j].cli == reg[m].value && events[j].p.fromUid == reg[m].key;
    if i < j { assert Consistent(events, i, j); }
    if j < i { assert Consistent(events, j, i); }
  }

  /** With one entry naming the connection, disconnection removes it and nothing else. */
  lemma UnregisteredGet<C>(reg: Registry<C>, conn: C)
    requires Distinct(reg)
    requires forall k | 0 <= k < |reg| && reg[k].value.conn == conn :: k == Named(reg, conn)
    ensures Distinct(Unregistered(reg, conn))
    ensures forall u :: Get(Unregistered(reg, conn), u) == Moved(Get(reg, u), Closed(conn), u)
    ensures forall k | 0 <= k < |Unregistered(reg, conn)| ::
      Unregistered(reg, conn)[k] in reg && Unregistered(reg, conn)[k].value.conn != conn
  {
    var i := Named(reg, conn);
    if i < |reg| {
      IndexUnique(reg, i);
      forall u
        ensures Get(Unregistered(reg, conn), u) == Moved(Get(reg, u), Closed(conn), u)
        ensures Distinct(Unregistered(reg, conn))
      {
        RemoveGet(reg, reg[i].key, u);
      }
      forall k | 0 <= k < |Unregistered(reg, conn)|
        ensures Unregistered(reg, conn)[k] == reg[if k < i then k else k + 1]
      {
      }
    }
  }

  lemma ClosedOK<C>(events: seq<Event<C>>)
    requires WellBehaved(events) && events != [] && events[|events| - 1].Closed?
    requires RegOK(events[..|events| - 1], Reg(events[..|events| - 1]))
    ensures RegOK(events, Reg(events))
    ensures forall u :: Get(Reg(events), u) == Moved(Get(Reg(events[..|events| - 1]), u), events[|events| - 1], u)
  {
    hide Get, Remove, Unregistered;
    var es, conn := events[..|events| - 1], events[|events| - 1].conn;
    var reg := Reg(es);
    WellBehavedPrefix(events);
    forall k | 0 <= k < |reg| && reg[k].value.conn == conn
      ensures k == Named(reg, conn)
    {
      OneName(es, reg, k, Named(reg, conn));
    }
    UnregisteredGet(reg, conn);
    forall k | 0 <= k < |Reg(events)|
      ensures Backed(events, Reg(events)[k])
    {
      BackedLater(events, Reg(events)[k]);
    }
  }

  /** In every well-behaved run a uid is registered for the connection that most recently had
      one of its packets processed, or for none when that one has closed, and no entry names a
      closed connection. */
  lemma {:induction false} RegistryIsLatest<C>(events: seq<Event<C>>)
    requires WellBehaved(events)
    ensures forall u :: Get(Reg(events), u) == Latest(events, u)
    ensures RegOK(events, Reg(events))
    decreases |events|
  {
    if events != [] {
      WellBehavedPrefix(events);
      RegistryIsLatest(events[..|events| - 1]);
      if events[|events| - 1].Processed? { ProcessedOK(events); } else { ClosedOK(events); }
    }
  }

  lemma NoEntryNamesClosed<C>(events: seq<Event<C>>, conn: C)
    requires WellBehaved(events) && Closed(conn) in events
    ensures forall k | 0 <= k < |Reg(events)| :: Reg(events)[k].value.conn != conn
  {
    RegistryIsLatest(events);
    assert events[..|events|] == events;
    forall k | 0 <= k < |Reg(events)|
      ensures Reg(events)[k].value.conn != conn
    {
      assert Backed(events, Reg(events)[k]);
    }
  }

  // ---- A connection that used several uids ----

  /** Entries that name the connection. */
  function Names<C(==)>(reg: Registry<C>, conn: C): nat {
    if reg == [] then 0 else (if reg[0].value.conn == conn then 1 else 0) + Names(reg[1..], conn)
  }

  lemma {:induction false} NamesConcat<C>(a: Registry<C>, b: Registry<C>, conn: C)
    ensures Names(a + b, conn) == Names(a, conn) + Names(b, conn)
  {
    if a == [] {
      assert a + b == b;
    } else {
      NamesConcat(a[1..], b, conn);
      assert (a + b)[1..] == a[1..] + b;
    }
  }

  lemma {:induction false} NamedIsFirst<C>(reg: Registry<C>, conn: C)
    ensures Named(reg, conn) < |reg| <==> Names(reg, conn) > 0
  {
    if reg != [] { NamedIsFirst(reg[1..], conn); }
  }

  /** The disconnector removes one entry of the connection, so none is left if and only if at
      most one uid was registered for it. */
  lemma DisconnectClearsIff<C>(reg: Registry<C>, conn: C)
    requires Distinct(reg)
    ensures Names(Unregistered(reg, conn), conn) == (if Names(reg, conn) > 0 then Names(reg, conn) - 1 else 0)
    ensures (forall k | 0 <= k < |Unregistered(reg, conn)| :: Unregistered(reg, conn)[k].value.conn != conn)
      <==> Names(reg, conn) <= 1
  {
    var r, i := Unregistered(reg, conn), Named(reg, conn);
    NamedIsFirst(reg, conn);
    if i < |reg| {
      IndexUnique(reg, i);
      assert reg == reg[..i] + ([reg[i]] + reg[i + 1..]);
      NamesConcat(reg[..i], [reg[i]] + reg[i + 1..], conn);
      NamesConcat([reg[i]], reg[i + 1..], conn);
      NamesConcat(reg[..i], reg[i + 1..], conn);
    }
    NamedIsFirst(r, conn);
    if Named(r, conn) < |r| { assert r[Named(r, conn)].value.conn == conn; }
  }

  /** A connection that has used two uids leaves one of them behind when it closes. */
  lemma TwoUidsExample<C>(cli: Peer<C>, p: Packet, q: Packet, blank: Packet)
    requires p.fromUid != q.fromUid
    ensures var events := [Processed(cli, p, blank), Processed(cli, q, blank), Closed(cli.conn)];
      Reg(events) == [Entry(q.fromUid, cli)] && Closed(cli.conn) in events
  {
    var e1, e2, e3 := Processed(cli, p, blank), Processed(cli, q, blank), Closed(cli.conn);
    assert [e1, e2, e3][..2] == [e1, e2] && [e1, e2][..1] == [e1] && [e1][..0] == [];
    assert Reg([e1]) == [Entry(p.fromUid, cli)];
    assert Reg([e1, e2]) == [Entry(p.fromUid, cli), Entry(q.fromUid, cli)];
  }

  // ---- One answer for each packet ----

  /** Everything one handler run puts on write queues: the answer, then the copies. */
  function Emission<C(==)>(reg: Registry<C>, cli: Peer<C>, p: Packet, blank: Packet): seq<(C, Packet)> {
    [(cli.conn, Answer(p, Code(reg, p), blank))] + Forwards(reg, cli, p)
  }

  function Emitted<C(==)>(events: seq<Event<C>>): seq<(C, Packet)> {
    if events == [] then []
    else
      var n := |events| - 1;
      match events[n]
      case Processed(cli, p, blank) => Emitted(events[..n]) + Emission(Reg(events), cli, p, blank)
      case Closed(_) => Emitted(events[..n])
  }

  /** Packets the server made itself, as opposed to forwarded ones. */
  function Own(ps: seq<Packet>): seq<Packet> {
    if ps == [] then [] else (if ps[0].fromOs then [] else [ps[0]]) + Own(ps[1..])
  }

  lemma {:induction false} OwnConcat(a: seq<Packet>, b: seq<Packet>)
    ensures Own(a + b) == Own(a) + Own(b)
  {
    if a == [] {
      assert a + b == b;
    } else {
      OwnConcat(a[1..], b);
      assert (a + b)[1..] == a[1..] + b;
      var first := if a[0].fromOs then [] else [a[0]];
      assert first + (Own(a[1..]) + Own(b)) == first + Own(a[1..]) + Own(b);
    }
  }

  /** Answers due to a connection: one for each of its packets, in the order processed. */
  ghost function Due<C>(events: seq<Event<C>>, conn: C): seq<Packet> {
    if events == [] then []
    else
      var n := |events| - 1;
      var before := Due(events[..n], conn);
      match events[n]
      case Processed(cli, p, blank) =>
        if cli.conn == conn then before + [Answer(p, Code(Reg(events), p), blank)] else before
      case Closed(_) => before
  }

  lemma {:induction false} FanOutIsForeign<C>(reg: Registry<C>, fd: int, p: Packet, conn: C)
    ensures Own(For(FanOut(reg, fd, p), conn)) == []
  {
    if reg != [] {
      FanOutIsForeign(reg[1..], fd, p, conn);
      var row := reg[0];
      var first := if Served(row, fd, p) then [(row.value.conn, BroadcastCopy(p, row.key))] else [];
      assert FanOut(reg, fd, p) == first + FanOut(reg[1..], fd, p);
      ForConcat(first, FanOut(reg[1..], fd, p), conn);
      OwnConcat(For(first, conn), For(FanOut(reg[1..], fd, p), conn));
    }
  }

  lemma ForwardsAreForeign<C>(reg: Registry<C>, cli: Peer<C>, p: Packet, conn: C)
    ensures Own(For(Forwards(reg, cli, p), conn)) == []
  {
    FanOutIsForeign(reg, cli.fd, p, conn);
    assert forall c: (C, Packet) :: [c][1..] == [];
  }

  /** Over any run, the packets of its own that the server has put on a connection's write
      queue are exactly one answer for each packet of that connection, in order. */
  lemma {:induction false} OneAnswerEach<C>(events: seq<Event<C>>, conn: C)
    ensures Own(For(Emitted(events), conn)) == Due(events, conn)
    decreases |events|
  {
    if events != [] {
      var n := |events| - 1;
      OneAnswerEach(events[..n], conn);
      if events[n].Processed? {
        var cli, p, blank := events[n].cli, events[n].p, events[n].blank;
        var head := [(cli.conn, Answer(p, Code(Reg(events), p), blank))];
        var copies := Forwards(Reg(events), cli, p);
        ForConcat(Emitted(events[..n]), head + copies, conn);
        ForConcat(head, copies, conn);
        OwnConcat(For(Emitted(events[..n]), conn), For(head + copies, conn));
        OwnConcat(For(head, conn), For(copies, conn));
        ForwardsAreForeign(Reg(events), cli, p, conn);
        AnswerAlone(cli.conn, p, Code(Reg(events), p), blank, conn);
      }
    }
  }

  lemma AnswerAlone<C>(to: C, p: Packet, code: nat, blank: Packet, conn: C)
    requires code < 256
    ensures Own(For([(to, Answer(p, code, blank))], conn)) == if to == conn then [Answer(p, code, blank)] else []
  {
    hide Store;
    var a := Answer(p, code, blank);
    assert [(to, a)][1..] == [] && [a][1..] == [];
  }

  /** Each answer carries its packet's muid, a zero sender and the code; unless it refuses, it is a
      request of no conversation and without transit ids. */
  lemma AnswerFields(p: Packet, code: nat, blank: Packet)
    requires code < 256
    ensures var a := Answer(p, code, blank);
      && a.fromUid == 0 && !a.fromOs && a.toUid == p.fromUid && a.muid == p.muid && a.cmuid == 0
      && AnswerCode(a) == code && |a.data| == 4
      && (if code == 102
          then a.packtype == blank.packtype && a.travFuid == blank.travFuid && a.travTuid == blank.travTuid
          else a.packtype == REQUEST && a.travFuid == 0 && a.travTuid == 0)
  {
    hide AnswerCode;
    AnswerCarriesCode(p, code, blank);
  }
}
