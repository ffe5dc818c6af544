/** The flood and the sessions of the router links (dnet/client.c, dnet/router.c): the flood's
    record of a link moves as the session of the link does. */
module Mirror {
  import opened Bytes
  import opened Wrappers
  import opened Codec
  import opened Assoc
  import opened Relay
  import opened Session
  import opened Topology
  import opened Flood
  import opened Flags
  import opened OneAtATime
  import opened Tally

  /** Counts the packet q where the flood has it queued at link e. */
  function At(e: Endpoint, q: Packet): Token -> nat { (tok: Token) => if QueuedAt(tok, e) && tok.pkt == q then 1 else 0 }

  /** Counts the packet q among the requests of one user. */
  function Of(q: Packet): Entry<U64, Inbox> -> nat { (box: Entry<U64, Inbox>) => multiset(box.value.requests)[q] }

  /** The flood and the session have packet q queued equally often. */
  ghost predicate Same(s: Net, e: Endpoint, c: Client, q: Packet) {
    Sum(s.live, At(e, q)) == Sum(c.inboxes, Of(q))
  }

  /** Session c stands as the flood says of link e: the same flag, the same requests queued. */
  ghost predicate Mirrors(s: Net, e: Endpoint, c: Client) {
    && e.owner.Router? && c.uid == e.uid && Distinct(c.inboxes)
    && (c.reqWaiter <==> e in s.raised)
    && forall q :: Same(s, e, c, q)
  }

  // ---- The handler ----

  /** Setting the inbox of a user changes the count by what it changes of that inbox. */
  lemma CountPut(c: Client, u: U64, box: Inbox, q: Packet)
    ensures Sum(Put(c.inboxes, u, box), Of(q)) + multiset(InboxOf(c, u).requests)[q]
         == Sum(c.inboxes, Of(q)) + multiset(box.requests)[q]
  {
    hide Sum;
    var i := IndexOf(c.inboxes, u);
    if i < |c.inboxes| {
      SumUpdate(c.inboxes, i, Entry(u, box), Of(q));
    } else {
      SumConcat(c.inboxes, [Entry(u, box)], Of(q));
      SumOne(Entry(u, box), Of(q));
    }
  }

  lemma SumOne<T>(x: T, f: T -> nat)
    ensures Sum([x], f) == f(x)
  {
    assert [x][1..] == [];
  }

  lemma CountFiled(c: Client, p: Packet, t: Trace, q: Packet)
    ensures Sum(Delivered(c, p, t).inboxes, Of(q))
         == Sum(c.inboxes, Of(q))
            + if p.toUid == c.uid && p.fromOs && p.packtype != RESPONSE && q == p then 1 else 0
  {
    hide Sum, Put, Get, Has;
    CountPut(c, p.fromUid, Filed(InboxOf(c, p.fromUid), p), q);
    hide InboxOf, Of;
  }

  lemma CountReceived(t: seq<Endpoint>, s: Net, k: nat, e: Endpoint, q: Packet)
    requires Enabled(t, s, Receive(k)) && e.owner.Router?
    ensures var p := s.live[k].pkt;
      Sum(Next(t, s, Receive(k)).live, At(e, q))
      == Sum(s.live, At(e, q))
         + if Last(s.live[k].path) == e && p.toUid == e.uid && p.fromOs && p.packtype != RESPONSE && q == p then 1 else 0
  {
    hide Sum;
    SumWithout(s.live, k, At(e, q));
    SumUpdate(s.live, k, s.live[k].(stage := Pending), At(e, q));
  }

  lemma KeepsDistinct(c: Client, p: Packet, t: Trace)
    requires Distinct(c.inboxes)
    ensures Distinct(Delivered(c, p, t).inboxes)
  {
    hide Put, Get, Has, Filed;
    PutGet(c.inboxes, p.fromUid, Filed(InboxOf(c, p.fromUid), p), 0);
  }

  /** The handler that takes a packet at a link does to the session of the link what the flood
      records, and a handler at another endpoint does nothing to it. */
  lemma ReceiveMirrors(t: seq<Endpoint>, s: Net, e: Endpoint, c: Client, k: nat, trace: Trace)
    requires Mirrors(s, e, c) && Enabled(t, s, Receive(k))
    ensures Mirrors(Next(t, s, Receive(k)), e,
                    if Last(s.live[k].path) == e then Delivered(c, s.live[k].pkt, trace) else c)
  {
    var s', p := Next(t, s, Receive(k)), s.live[k].pkt;
    var c' := if Last(s.live[k].path) == e then Delivered(c, p, trace) else c;
    forall q
      ensures Same(s', e, c', q)
    {
      assert Same(s, e, c, q);
      CountFiled(c, p, trace, q);
      CountReceived(t, s, k, e, q);
    }
    DeliveredAs(c, p, trace);
    KeepsDistinct(c, p, trace);
    hide Same, Delivered, InboxAfter, FlagsAfter, AnswerAfter;
  }

  // ---- The runner ----

  lemma {:induction false} Counted(ts: seq<Token>, e: Endpoint, q: Packet) returns (k: nat)
    requires Sum(ts, At(e, q)) > 0
    ensures k < |ts| && QueuedAt(ts[k], e) && ts[k].pkt == q
  {
    if QueuedAt(ts[0], e) && ts[0].pkt == q {
      k := 0;
    } else {
      k := Counted(ts[1..], e, q);
      k := k + 1;
    }
  }

  /** What the runner collects is counted once less afterwards. */
  lemma CountTaken(c: Client, q: Packet)
    requires Distinct(c.inboxes)
    ensures Sum(c.inboxes, Of(q)) == Sum(MiscTaken(c).inboxes, Of(q)) + if MiscPacket(c) == Some(q) then 1 else 0
    ensures Distinct(MiscTaken(c).inboxes) && MiscTaken(c).uid == c.uid && !MiscTaken(c).reqWaiter
  {
    hide Sum;
    var i := FirstAsking(c.inboxes);
    if i < |c.inboxes| {
      var row := c.inboxes[i];
      var rest := row.value.(requests := row.value.requests[1..]);
      IndexUnique(c.inboxes, i);
      CountPut(c, row.key, rest, q);
      PutGet(c.inboxes, row.key, rest, 0);
      assert row.value.requests == [row.value.requests[0]] + rest.requests;
    }
  }

  lemma CountRelayed(t: seq<Endpoint>, s: Net, k: nat, e: Endpoint, q: Packet)
    requires Enabled(t, s, Take(k))
    ensures Sum(s.live, At(e, q)) == Sum(Next(t, s, Take(k)).live, At(e, q)) + At(e, q)(s.live[k])
  {
    hide Sum, RouterCopies;
    var outs := RouterCopies(t, Last(s.live[k].path), s.live[k].pkt);
    SumWithout(s.live, k, At(e, q));
    ChildrenOf(Outbox, s.live[k], outs);
    SumConcat(Without(s.live, k), Children(Outbox, s.live[k], outs), At(e, q));
    SumZero(Children(Outbox, s.live[k], outs), At(e, q));
  }

  /** A runner that finds its flag up collects a request of its session, and it is one that the
      flood may take at that link; session and flood stand alike afterwards. */
  lemma TakeMirrors(t: seq<Endpoint>, s: Net, e: Endpoint, c: Client) returns (k: nat)
    requires Inv(t, s) && FlagsBacked(s) && Mirrors(s, e, c) && c.reqWaiter && !Busy(s, e)
    ensures Enabled(t, s, Take(k)) && Last(s.live[k].path) == e && MiscPacket(c) == Some(s.live[k].pkt)
    ensures Mirrors(Next(t, s, Take(k)), e, MiscTaken(c))
  {
    var q := SomeCollected(s, e, c);
    assert Same(s, e, c, q);
    CountTaken(c, q);
    k := Counted(s.live, e, q);
    hide Inv, FlagsBacked, Same, At, Of, Next, MiscPacket, Busy;
    forall x
      ensures Same(Next(t, s, Take(k)), e, MiscTaken(c), x)
    {
      TakenSame(t, s, e, c, k, x);
    }
    LowersFlag(t, s, k);
    CountTaken(c, q);
  }

  lemma LowersFlag(t: seq<Endpoint>, s: Net, k: nat)
    requires Enabled(t, s, Take(k))
    ensures Next(t, s, Take(k)).raised == s.raised - {Last(s.live[k].path)}
  {
    hide RouterCopies, Children;
  }

  lemma TakenSame(t: seq<Endpoint>, s: Net, e: Endpoint, c: Client, k: nat, x: Packet)
    requires Distinct(c.inboxes) && Same(s, e, c, x)
    requires Enabled(t, s, Take(k)) && Last(s.live[k].path) == e && MiscPacket(c) == Some(s.live[k].pkt)
    ensures Same(Next(t, s, Take(k)), e, MiscTaken(c), x)
  {
    CountTaken(c, x);
    CountRelayed(t, s, k, e, x);
    hide Sum, MiscTaken, MiscPacket, Next, Of;
  }

  /** With a flag that is up the session has a request to hand out. */
  lemma SomeCollected(s: Net, e: Endpoint, c: Client) returns (q: Packet)
    requires FlagsBacked(s) && Mirrors(s, e, c) && c.reqWaiter
    ensures MiscPacket(c) == Some(q) && Sum(c.inboxes, Of(q)) > 0
  {
    assert Backed(s.live, e);
    var tok :| tok in s.live && QueuedAt(tok, e);
    var k :| 0 <= k < |s.live| && s.live[k] == tok;
    assert Same(s, e, c, tok.pkt);
    SumWithout(s.live, k, At(e, tok.pkt));
    if MiscPacket(c) == None {
      hide Sum;
      SumZero(c.inboxes, Of(tok.pkt));
    }
    q := MiscPacket(c).value;
    CountTaken(c, q);
  }

  // ---- Everything else ----

  /** Of the other steps none touches what is queued at e. */
  lemma CountElsewhere(t: seq<Endpoint>, s: Net, step: Step, e: Endpoint, q: Packet)
    requires Enabled(t, s, step) && !step.Receive? && (step.Take? ==> Last(s.live[step.k].path) != e)
    ensures Sum(Next(t, s, step).live, At(e, q)) == Sum(s.live, At(e, q))
  {
    hide Sum, ServerCopies, RouterCopies;
    var s' := Next(t, s, step);
    match step
    case Inject(_, _, _, _) =>
      SumConcat(s.live, [s'.live[|s.live|]], At(e, q));
      SumOne(s'.live[|s.live|], At(e, q));
    case Forward(k, _) => SumUpdate(s.live, k, s'.live[k], At(e, q));
    case Take(k) => CountRelayed(t, s, k, e, q);
    case Serve(k) =>
      var tok := s.live[k];
      var outs := ServerCopies(t, Last(tok.path), tok.pkt);
      SumWithout(s.live, k, At(e, q));
      ChildrenOf(Down, tok, outs);
      SumConcat(Without(s.live, k), Children(Down, tok, outs), At(e, q));
      SumZero(Children(Down, tok, outs), At(e, q));
  }

  /** They leave the session of the link alone, and the flood says so too. */
  lemma OthersMirror(t: seq<Endpoint>, s: Net, step: Step, e: Endpoint, c: Client)
    requires Mirrors(s, e, c)
    requires Enabled(t, s, step) && !step.Receive? && (step.Take? ==> Last(s.live[step.k].path) != e)
    ensures Mirrors(Next(t, s, step), e, c)
  {
    forall q
      ensures Same(Next(t, s, step), e, c, q)
    {
      assert Same(s, e, c, q);
      CountElsewhere(t, s, step, e, q);
    }
    hide Same, ServerCopies, RouterCopies, Children;
  }

  /** A fresh session mirrors the empty network. */
  lemma FreshMirrors(e: Endpoint)
    requires e.owner.Router?
    ensures Mirrors(EMPTY, e, Session.Client.Client(e.uid, 1, [], [], [], [], [], false, [], false))
  {
  }
}
