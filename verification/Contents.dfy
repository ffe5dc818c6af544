/** What the packets contain that one handler run of a server puts on the write queues
    (dnet/server.c), field by field. */
module Contents {
  import opened Bytes
  import opened Wrappers
  import opened Codec
  import opened Assoc
  import opened Dispatch
  import opened Registration

  /** The code that a session reads from a block: the first four bytes behind the header. */
  function CodeIn(block: seq<Byte>): nat
    requires |block| >= 65
  {
    Four(block[61..])
  }

  lemma CodeBytes(code: nat)
    requires code < 256
    ensures Store(code, 4) == [code, 0, 0, 0]
  {
    assert Store(code / 256, 3) == [0, 0, 0];
  }

  /** The code of an answer is what a session reads from its block. */
  lemma CodeRead(p: Packet, code: nat, blank: Packet)
    requires code < 256
    ensures |Encode(Answer(p, code, blank))| == 65 && CodeIn(Encode(Answer(p, code, blank))) == code
    ensures AnswerCode(Answer(p, code, blank)) == code
  {
    var a := Answer(p, code, blank);
    CodeBytes(code);
    AnswerCarriesCode(p, code, blank);
    WireLayout(a, Encode(a));
    hide Encode, Store;
    assert Encode(a)[61..] == [code, 0, 0, 0];
  }

  ghost predicate HasRow<C>(reg: Registry<C>, uid: U64) {
    exists i | 0 <= i < |reg| :: reg[i].key == uid
  }

  lemma RowFound<C>(reg: Registry<C>, uid: U64)
    ensures Has(reg, uid) <==> HasRow(reg, uid)
  {
  }

  /** Which code the sender gets: 102 for a packet to its own uid, 200 for a ping or a broadcast
      to nobody, otherwise 200 if some row has the key of the target and 101 if none has. */
  lemma AnswerChoice<C>(reg: Registry<C>, p: Packet, blank: Packet)
    ensures var block := Encode(Answer(p, Code(reg, p), blank));
      && |block| == 65
      && (p.fromUid == p.toUid ==> CodeIn(block) == 102)
      && (p.fromUid != p.toUid && p.toUid == 0 && (p.packtype == PING || Broadcasts(p)) ==> CodeIn(block) == 200)
      && (p.fromUid != p.toUid && !(p.toUid == 0 && (p.packtype == PING || Broadcasts(p))) ==>
            CodeIn(block) == if HasRow(reg, p.toUid) then 200 else 101)
  {
    CodeRead(p, Code(reg, p), blank);
    RowFound(reg, p.toUid);
    hide Encode, Answer, CodeIn;
  }

  /** A packet to the sender's own uid gets the refusal alone, which keeps the type and the
      transit ids that the stack held. */
  lemma SelfRefused<C>(reg: Registry<C>, cli: Peer<C>, p: Packet, blank: Packet)
    requires p.fromUid == p.toUid
    ensures Emission(reg, cli, p, blank)
      == [(cli.conn, Packet(blank.packtype, false, 0, p.fromUid, blank.travFuid, blank.travTuid, p.muid, 0, [102, 0, 0, 0]))]
  {
    CodeBytes(102);
  }

  /** A ping of the server gets 200 and nothing else happens. */
  lemma PingAnswered<C>(reg: Registry<C>, cli: Peer<C>, p: Packet, blank: Packet)
    requires p.fromUid != 0 && p.toUid == 0 && p.packtype == PING
    ensures Emission(reg, cli, p, blank)
      == [(cli.conn, Packet(REQUEST, false, 0, p.fromUid, 0, 0, p.muid, 0, [200, 0, 0, 0]))]
  {
    CodeBytes(200);
  }

  /** A packet to a uid without a row gets 101 and goes to nobody. */
  lemma UnknownAnswered<C>(reg: Registry<C>, cli: Peer<C>, p: Packet, blank: Packet)
    requires p.fromUid != p.toUid && !HasRow(reg, p.toUid)
    requires !(p.toUid == 0 && (p.packtype == PING || Broadcasts(p)))
    ensures Emission(reg, cli, p, blank)
      == [(cli.conn, Packet(REQUEST, false, 0, p.fromUid, 0, 0, p.muid, 0, [101, 0, 0, 0]))]
  {
    CodeBytes(101);
    RowFound(reg, p.toUid);
  }

  /** A packet to a uid with a row gets 200, and the connection of that row the packet: marked
      as forwarded, between the same two uids, of the same type, under the same conversation
      number, with the same payload, and without muid and transit ids. */
  lemma UnicastForwarded<C>(reg: Registry<C>, cli: Peer<C>, p: Packet, blank: Packet, i: nat)
    requires p.fromUid != p.toUid && !Broadcasts(p) && !(p.toUid == 0 && p.packtype == PING)
    requires Distinct(reg) && i < |reg| && reg[i].key == p.toUid
    ensures Emission(reg, cli, p, blank)
      == [(cli.conn, Packet(REQUEST, false, 0, p.fromUid, 0, 0, p.muid, 0, [200, 0, 0, 0]))]
         + if reg[i].value.fd > 0
           then [(reg[i].value.conn, Packet(p.packtype, true, p.fromUid, p.toUid, 0, 0, 0, p.cmuid, p.data))] else []
  {
    CodeBytes(200);
    IndexUnique(reg, i);
  }

  /** The copy for uid k of a broadcast: the same payload, type, sender, conversation number and
      trav_fuid, addressed to k, marked as forwarded, without muid and trav_tuid. */
  predicate IsCopyFor(q: Packet, p: Packet, k: U64) {
    && q.data == p.data && q.packtype == p.packtype && q.cmuid == p.cmuid
    && q.fromUid == p.fromUid && q.toUid == k && q.fromOs
    && q.travFuid == p.travFuid && q.travTuid == 0 && q.muid == 0
  }

  /** A broadcast gets 200, and then one copy goes to each row with another uid and another, open
      descriptor, in the order of the rows and on the connection of the row. */
  lemma BroadcastSpread<C>(reg: Registry<C>, cli: Peer<C>, p: Packet, blank: Packet)
    requires p.fromUid != p.toUid && Broadcasts(p) && (p.toUid == 0 || HasRow(reg, p.toUid))
    ensures Emission(reg, cli, p, blank)
      == [(cli.conn, Packet(REQUEST, false, 0, p.fromUid, 0, 0, p.muid, 0, [200, 0, 0, 0]))] + FanOut(reg, cli.fd, p)
    ensures Spread(FanOut(reg, cli.fd, p), reg, cli.fd, p)
  {
    CodeBytes(200);
    RowFound(reg, p.toUid);
    FanOutSpread(reg, cli.fd, p);
  }

  /** The rows that a broadcast of p serves, in order. */
  function ServedRows<C>(reg: Registry<C>, fd: int, p: Packet): Registry<C> {
    if reg == [] then []
    else
      (if reg[0].key != p.fromUid && reg[0].value.fd != fd && reg[0].value.fd > 0 then [reg[0]] else [])
      + ServedRows(reg[1..], fd, p)
  }

  /** One copy for each row served, in order. */
  ghost predicate Spread<C>(copies: seq<(C, Packet)>, reg: Registry<C>, fd: int, p: Packet) {
    var rows := ServedRows(reg, fd, p);
    && |copies| == |rows|
    && forall j | 0 <= j < |rows| :: copies[j].0 == rows[j].value.conn && IsCopyFor(copies[j].1, p, rows[j].key)
  }

  lemma {:induction false} FanOutSpread<C>(reg: Registry<C>, fd: int, p: Packet)
    ensures Spread(FanOut(reg, fd, p), reg, fd, p)
  {
    if reg != [] {
      FanOutSpread(reg[1..], fd, p);
      var copies, rows := FanOut(reg, fd, p), ServedRows(reg, fd, p);
      var n := if reg[0].key != p.fromUid && reg[0].value.fd != fd && reg[0].value.fd > 0 then 1 else 0;
      assert copies[n..] == FanOut(reg[1..], fd, p) && rows[n..] == ServedRows(reg[1..], fd, p);
      forall j | 0 <= j < |rows|
        ensures copies[j].0 == rows[j].value.conn && IsCopyFor(copies[j].1, p, rows[j].key)
      {
        if j >= n { assert copies[j] == copies[n..][j - n] && rows[j] == rows[n..][j - n]; }
      }
    }
  }
}
