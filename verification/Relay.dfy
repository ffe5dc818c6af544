/** What a router does with one request (dnet/router.c). */
module Relay {
  import opened Bytes
  import opened Codec
  import opened Dispatch

  /** One element of `states`: a session and the uid it registered with. */
  datatype Link<L> = Link(session: L, uid: U64)

  /** The sender a flooded packet stands for. */
  function Origin(p: Packet): U64 { if p.travFuid == 0 then p.fromUid else p.travFuid }

  /** copy_packet followed by request(session, copy, 0, origin, packtype): the session with
      this uid sends the packet on to its own server. */
  function Reissue(req: Packet, uid: U64): Packet {
    req.(fromUid := uid, fromOs := false, toUid := 0, muid := 0, cmuid := 0,
         travFuid := Origin(req), travTuid := 0)
  }

  /** The forwarding loop up to link n: every link but the one the request came in on. */
  function Relays<L>(links: seq<Link<L>>, my: nat, req: Packet, n: nat): seq<(L, Packet)>
    requires n <= |links|
  {
    if n == 0 then []
    else
      Relays(links, my, req, n - 1)
      + (if n - 1 == my then [] else [(links[n - 1].session, Reissue(req, links[n - 1].uid))])
  }

  /** The position of a session among the links; |links| when it is not there. */
  function Position<L(==)>(links: seq<Link<L>>, session: L): (i: nat)
    ensures i <= |links|
    ensures i < |links| ==> links[i].session == session
    ensures forall j | 0 <= j < i :: links[j].session != session
  {
    if links == [] then 0 else if links[0].session == session then 0 else 1 + Position(links[1..], session)
  }

  lemma ForOne<L>(to: L, p: Packet, conn: L)
    ensures For([(to, p)], conn) == if to == conn then [p] else []
  {
    assert [(to, p)][1..] == [];
  }

  /** The first n turns of the loop give each link among them but the own one exactly one
      reissued packet, and nobody else any. */
  lemma {:induction false} RelaysReach<L>(links: seq<Link<L>>, my: nat, req: Packet, n: nat, x: L)
    requires n <= |links|
    requires forall i, j | 0 <= i < j < |links| :: links[i].session != links[j].session
    ensures var k := Position(links, x);
      For(Relays(links, my, req, n), x) == if k < n && k != my then [Reissue(req, links[k].uid)] else []
  {
    assert For([], x) == [];
    if n > 0 {
      hide Reissue;
      RelaysReach(links, my, req, n - 1, x);
      var last := links[n - 1];
      assert last.session == x <==> Position(links, x) == n - 1;
      hide Position, For;
      var tail := if n - 1 == my then [] else [(last.session, Reissue(req, last.uid))];
      assert Relays(links, my, req, n) == Relays(links, my, req, n - 1) + tail;
      ForConcat(Relays(links, my, req, n - 1), tail, x);
      if n - 1 != my { ForOne(last.session, Reissue(req, last.uid), x); }
    }
  }
}
