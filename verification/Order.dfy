/** What keeps its order: the rows of the registry over the run of a server, the copies of a
    broadcast, and the users of a session (dnet/server.c, dnet/client.c, map.c). */
module Order {
  import opened Bytes
  import opened Wrappers
  import opened Codec
  import opened Assoc
  import opened Contents
  import opened Dispatch
  import opened Registration
  import opened Session

  lemma StepDistinct<C>(reg: Registry<C>, e: Event<C>)
    requires Distinct(reg)
    ensures Distinct(After(reg, e))
  {
    hide Get, Put, Remove;
    match e
    case Processed(cli, p, _) => PutGet(reg, p.fromUid, cli, p.fromUid);
    case Closed(conn) =>
      if Named(reg, conn) < |reg| { RemoveModel(reg, reg[Named(reg, conn)].key); }
  }

  lemma {:induction false} RegDistinct<C>(events: seq<Event<C>>)
    ensures Distinct(Reg(events))
  {
    if events != [] {
      RegDistinct(events[..|events| - 1]);
      StepDistinct(Reg(events[..|events| - 1]), events[|events| - 1]);
    }
  }

  /** One event leaves two rows in their order, if it leaves both. */
  lemma StepOrder<C>(reg: Registry<C>, e: Event<C>, a: U64, b: U64)
    requires Distinct(reg) && Before(reg, a, b)
    requires Has(After(reg, e), a) && Has(After(reg, e), b)
    ensures Before(After(reg, e), a, b)
  {
    match e
    case Processed(cli, p, _) => PutBefore(reg, p.fromUid, cli, a, b);
    case Closed(conn) =>
      var i := Named(reg, conn);
      if i < |reg| {
        RemoveGet(reg, reg[i].key, a);
        RemoveGet(reg, reg[i].key, b);
        hide Remove;
        RemoveBefore(reg, reg[i].key, a, b);
      }
  }

  /** Two uids that stay registered keep their order in the registry, whatever happens. */
  lemma {:induction false} RegistryOrder<C>(events: seq<Event<C>>, n: nat, a: U64, b: U64)
    requires n <= |events| && Before(Reg(events[..n]), a, b)
    requires forall k | n <= k <= |events| :: Has(Reg(events[..k]), a) && Has(Reg(events[..k]), b)
    ensures Before(Reg(events), a, b)
    decreases |events|
  {
    assert events[..|events|] == events;
    if n < |events| {
      var front := events[..|events| - 1];
      assert forall k | n <= k <= |front| :: front[..k] == events[..k];
      hide Has, Before, After;
      RegistryOrder(front, n, a, b);
      RegDistinct(front);
      StepOrder(Reg(front), events[|front|], a, b);
    }
  }

  /** A broadcast makes its copies in the order of the registry. */
  lemma BroadcastOrder<C>(reg: Registry<C>, fd: int, p: Packet, i: nat, j: nat)
    requires i < j < |reg|
    requires forall k | k == i || k == j :: reg[k].key != p.fromUid && reg[k].value.fd != fd && reg[k].value.fd > 0
    ensures exists x, y | 0 <= x < y < |FanOut(reg, fd, p)| ::
      FanOut(reg, fd, p)[x].1.toUid == reg[i].key && FanOut(reg, fd, p)[y].1.toUid == reg[j].key
  {
    FanOutSpread(reg, fd, p);
    var x, y := ServedAt(reg, fd, p, i), ServedAt(reg, fd, p, j);
    ServedApart(reg, fd, p, i, j);
    assert FanOut(reg, fd, p)[x].1.toUid == reg[i].key && FanOut(reg, fd, p)[y].1.toUid == reg[j].key;
  }

  /** Where row i stands among the rows served. */
  function ServedAt<C>(reg: Registry<C>, fd: int, p: Packet, i: nat): (x: nat)
    requires i < |reg| && reg[i].key != p.fromUid && reg[i].value.fd != fd && reg[i].value.fd > 0
    ensures x < |ServedRows(reg, fd, p)| && ServedRows(reg, fd, p)[x] == reg[i]
  {
    if i == 0 then 0
    else
      ServedAt(reg[1..], fd, p, i - 1)
      + if reg[0].key != p.fromUid && reg[0].value.fd != fd && reg[0].value.fd > 0 then 1 else 0
  }

  lemma {:induction false} ServedApart<C>(reg: Registry<C>, fd: int, p: Packet, i: nat, j: nat)
    requires i < j < |reg|
    requires forall k | k == i || k == j :: reg[k].key != p.fromUid && reg[k].value.fd != fd && reg[k].value.fd > 0
    ensures ServedAt(reg, fd, p, i) < ServedAt(reg, fd, p, j)
  {
    if i > 0 {
      ServedApart(reg[1..], fd, p, i - 1, j - 1);
    }
  }

  lemma UsersStep(c: Client, op: Op, a: U64, b: U64)
    requires Before(c.inboxes, a, b)
    ensures Before(Session.Apply(c, op).inboxes, a, b)
  {
    hide Before, Put, Filed, InboxOf, Get, Has;
    match op
    case Deliver(p, t) => PutBefore(c.inboxes, p.fromUid, Filed(InboxOf(c, p.fromUid), p), a, b);
    case Collect =>
      var i := FirstAsking(c.inboxes);
      if i < |c.inboxes| {
        var row := c.inboxes[i];
        PutBefore(c.inboxes, row.key, row.value.(requests := row.value.requests[1..]), a, b);
      }
  }

  /** The users of a session keep their order over any run of messages and collections, so that of
      two users with requests the one who came first is served first. */
  lemma {:induction false} UsersOrder(c: Client, ops: seq<Op>, a: U64, b: U64)
    requires Before(c.inboxes, a, b)
    ensures Before(Session.Run(c, ops).inboxes, a, b)
  {
    if ops != [] {
      var n := |ops| - 1;
      hide Before, Session.Apply;
      UsersOrder(c, ops[..n], a, b);
      UsersStep(Session.Run(c, ops[..n]), ops[n], a, b);
    }
  }
}
