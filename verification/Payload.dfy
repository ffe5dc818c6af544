/** What the requests of a session bring about, field by field (dnet/client.c, dnet/server.c): the
    code that each attempt gets, the packets that are forwarded, and what the receiver has then. */
module Payload {
  import opened Bytes
  import opened Wrappers
  import opened Codec
  import opened Assoc
  import opened Contents
  import opened Dispatch
  import opened Session
  import opened Protocol
  import opened Correlation

  /** The code that a session reads from an answer. */
  predicate Reads(answer: Packet, code: nat) { |answer.data| >= 4 && Four(answer.data) == code }

  lemma ReadsCode(answer: Packet)
    requires AnswerCode(answer) != 0
    ensures Reads(answer, AnswerCode(answer))
  {
    if |answer.data| >= 4 { LoadFour(answer.data[..4]); }
  }

  /** Every attempt of a task is answered 102 when its target is the session itself, 200 when it
      pings or broadcasts to nobody, and otherwise 200 or 101 as the registry that the worker saw
      has a row for the target or none. */
  lemma AttemptAnswered(from: World, steps: seq<Step>, w: World, m: U64)
    requires Initial(from) && Protocol.Run(from, steps, w) && m in w.log
    ensures w.log[m].task < |w.tasks|
    ensures var pack, uid, v := w.tasks[w.log[m].task].pack, w.client.uid, w.log[m];
      var free := pack.toUid == 0 && (pack.packtype == PING || Broadcasts(pack));
      && (pack.toUid == uid ==> Reads(v.answer, 102))
      && (pack.toUid != uid && free ==> Reads(v.answer, 200))
      && (pack.toUid != uid && !free ==> Reads(v.answer, if HasRow(v.reg, pack.toUid) then 200 else 101))
  {
    InvInitial(from);
    InvRun(from, steps, w);
    assert VerdictOK(w, m);
    RowFound(w.log[m].reg, w.log[m].p.toUid);
    ReadsCode(w.log[m].answer);
    hide AnswerCode, HasRow, Reads, Forwards;
  }

  /** The registry that the worker looks at has a row for the sender already, and those of all other
      uids as before. */
  lemma SenderRegistered(w: World, k: nat, blank: Packet)
    requires Enabled(w, Process(k, blank)) && Distinct(w.reg)
    ensures var w', p := Next(w, Process(k, blank)), w.up[k].p;
      && p.muid in w'.log && w'.log[p.muid].reg == w'.reg && w'.log[p.muid].p == p
      && Get(w'.reg, p.fromUid).Some? && Get(w'.reg, p.fromUid).value.addr == w.me.addr
      && forall u | u != p.fromUid :: Get(w'.reg, u) == Get(w.reg, u)
  {
    hide Get, Put, Forwards, Code, Answer;
    var p := w.up[k].p;
    PutGet(w.reg, p.fromUid, w.me, p.fromUid);
    forall u | u != p.fromUid
      ensures Get(Put(w.reg, p.fromUid, w.me), u) == Get(w.reg, u)
    {
      PutGet(w.reg, p.fromUid, w.me, u);
    }
  }

  /** A ping of the server from a uid other than 0 ends with OK_STATUS. */
  lemma PingEndsOk(from: World, steps: seq<Step>, w: World, i: nat)
    requires Initial(from) && Protocol.Run(from, steps, w) && i < |w.tasks| && w.tasks[i].phase.Ended?
    requires w.client.uid != 0 && w.tasks[i].pack.toUid == 0 && w.tasks[i].pack.packtype == PING
    ensures w.tasks[i].phase.code == OkStatus && w.tasks[i].copies == []
  {
    hide AnswerCode;
    EndingCode(from, steps, w, i);
    InvInitial(from);
    InvRun(from, steps, w);
    assert TaskOK(w, i);
  }

  /** The packet that a task has forwarded to its target. */
  predicate IsForward(q: Packet, pack: Packet, uid: U64) {
    && q.data == pack.data && q.packtype == pack.packtype && q.cmuid == pack.cmuid
    && q.fromUid == uid && q.toUid == pack.toUid && q.fromOs
    && q.muid == 0 && q.travFuid == 0 && q.travTuid == 0
  }

  /** Whatever a task that ends has had queued for its target is its own packet, marked as
      forwarded, under the session's uid. */
  lemma ForwardedContents(from: World, steps: seq<Step>, w: World, i: nat)
    requires Initial(from) && Protocol.Run(from, steps, w) && i < |w.tasks| && w.tasks[i].phase.Ended?
    requires Addressed(w.tasks[i].pack)
    ensures |w.tasks[i].copies| <= 1
    ensures forall c | c in w.tasks[i].copies :: IsForward(c.1, w.tasks[i].pack, w.client.uid)
    ensures w.tasks[i].copies != [] ==> w.tasks[i].phase.code == OkStatus
  {
    RetryGivesOneForward(from, steps, w, i);
  }

  /** When the target's session handles the packet, a request is the newest in the inbox of the
      sender there, and a response is found there under its conversation number. */
  lemma ForwardArrives(q: Packet, pack: Packet, uid: U64, target: Client, t: Trace)
    requires IsForward(q, pack, uid) && target.uid == pack.toUid
    ensures var after := Delivered(target, q, t);
      && (pack.packtype != RESPONSE ==>
            && InboxOf(after, uid).requests == InboxOf(target, uid).requests + [q] && q.data == pack.data
            && after.reqWaiter)
      && (pack.packtype == RESPONSE ==> Get(InboxOf(after, uid).responses, pack.cmuid) == Some(q))
  {
    DeliveredAs(target, q, t);
    assert InboxAfter(target, q, Delivered(target, q, t), uid);
    hide Delivered, InboxOf, Get;
  }

  /** A broadcast that ends with OK_STATUS has had one copy queued for each row that it serves, in
      the order of the registry that the worker saw, each with the payload, type and conversation
      number of the task's packet; any other end means none. */
  lemma BroadcastContents(from: World, steps: seq<Step>, w: World, i: nat)
    requires Initial(from) && Protocol.Run(from, steps, w) && i < |w.tasks| && w.tasks[i].phase.Ended?
    requires Broadcasts(w.tasks[i].pack)
    ensures var Ended(m, code) := w.tasks[i].phase;
      && m in w.log
      && (code == OkStatus ==>
            Spread(w.tasks[i].copies, w.log[m].reg, w.me.fd,
                   w.tasks[i].pack.(fromUid := w.client.uid, fromOs := false, muid := m)))
      && (code != OkStatus ==> w.tasks[i].copies == [])
  {
    hide AnswerCode;
    EndingCode(from, steps, w, i);
    InvInitial(from);
    InvRun(from, steps, w);
    assert TaskOK(w, i);
    var m := w.tasks[i].phase.muid;
    FanOutSpread(w.log[m].reg, w.me.fd, w.log[m].p);
  }
}
