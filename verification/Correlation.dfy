/** What the request protocol guarantees in every run (dnet/client.c, dnet/server.c). */
module Correlation {
  import opened Bytes
  import opened Wrappers
  import opened Codec
  import opened Assoc
  import opened Dispatch
  import opened Session
  import opened Protocol

  /** A muid about to be used has not been used: no packet under way, no verdict and no task
      has it. */
  lemma MuidsAreFresh(from: World, steps: seq<Step>, w: World, i: nat)
    requires Initial(from) && Protocol.Run(from, steps, w) && Enabled(w, Send(i))
    ensures w.client.lastMuid !in w.log
    ensures forall k | 0 <= k < |w.up| :: w.up[k].p.muid != w.client.lastMuid
    ensures forall j | 0 <= j < |w.tasks| :: Current(w.tasks[j]) != Some(w.client.lastMuid)
  {
    InvInitial(from);
    InvRun(from, steps, w);
    NotLogged(w, w.client.lastMuid);
    forall j | 0 <= j < |w.tasks|
      ensures Current(w.tasks[j]).Some? ==> Current(w.tasks[j]).value < w.client.lastMuid
    {
      SentBefore(w, j);
    }
    assert forall k | 0 <= k < |w.up| :: UpOK(w, w.up[k]);
  }

  /** Each muid is answered at most once: a packet still to be processed has no answer, no two
      answers under way share a muid, and an answer under way has not been filed. */
  lemma AnsweredOnce(from: World, steps: seq<Step>, w: World)
    requires Initial(from) && Protocol.Run(from, steps, w)
    ensures forall k | 0 <= k < |w.up| :: w.up[k].p.muid !in w.log
    ensures forall j, k | 0 <= j < k < |w.up| :: w.up[j].p.muid != w.up[k].p.muid
    ensures forall j, k | 0 <= j < k < |w.down| && !w.down[j].fromOs && !w.down[k].fromOs ::
      w.down[j].muid != w.down[k].muid
    ensures forall k | 0 <= k < |w.down| && !w.down[k].fromOs ::
      w.down[k].muid in w.log && w.down[k] == w.log[w.down[k].muid].answer && Get(w.client.responses, w.down[k].muid) == None
  {
    InvInitial(from);
    InvRun(from, steps, w);
    assert forall k | 0 <= k < |w.up| :: UpOK(w, w.up[k]);
    assert forall k | 0 <= k < |w.down| :: DownOK(w, w.down[k]);
  }

  /** Whatever is filed under a muid is the server's answer to that muid; forwarded traffic is
      never filed there. */
  lemma ForeignNeverFiled(from: World, steps: seq<Step>, w: World, m: U64)
    requires Initial(from) && Protocol.Run(from, steps, w) && Get(w.client.responses, m).Some?
    ensures m in w.log && Get(w.client.responses, m) == Some(w.log[m].answer)
    ensures !Get(w.client.responses, m).value.fromOs && Get(w.client.responses, m).value.muid == m
  {
    hide IsAnswer;
    InvInitial(from);
    InvRun(from, steps, w);
    assert ResponseOK(w, m) && VerdictOK(w, m);
    assert IsAnswer(w.client.uid, w.log[m], m);
    AnswerOrigin(w.client.uid, w.log[m], m);
  }

  lemma AnswerOrigin(uid: U64, v: Verdict, m: U64)
    requires IsAnswer(uid, v, m)
    ensures v.answer.muid == m && v.answer.fromUid == 0 && !v.answer.fromOs
  {
  }

  /** The code a task ends with is the one the server computed while processing
      the packet of that task with that muid.  The exception is a refusal whose answer kept
      the type TRACEROUTE from the stack: the task then reads UNDEFINED_ERROR. */
  lemma EndingCode(from: World, steps: seq<Step>, w: World, i: nat)
    requires Initial(from) && Protocol.Run(from, steps, w) && i < |w.tasks| && w.tasks[i].phase.Ended?
    ensures var Ended(m, code) := w.tasks[i].phase;
      && m in w.log && w.log[m].task == i && w.log[m].p == Outgoing(w, i, m)
      && (code == OkStatus <==> CodeOf(w.log[m]) == OK)
      && (code == ForbidenUid <==> CodeOf(w.log[m]) == FORBIDDEN && w.log[m].answer.packtype != TRACEROUTE)
      && (code == UndefinedError <==> CodeOf(w.log[m]) == FORBIDDEN && w.log[m].answer.packtype == TRACEROUTE)
      && CodeOf(w.log[m]) != NO_CLIENT
  {
    hide AnswerCode;
    InvInitial(from);
    InvRun(from, steps, w);
    assert TaskOK(w, i);
    assert VerdictOK(w, w.tasks[i].phase.muid);
  }

  /** A packet that the server forwards to one user, if at all. */
  predicate Addressed(p: Packet) { !Broadcasts(p) && !(p.toUid == 0 && p.packtype == PING) }

  /** Over any number of 101 retries with clients coming and going, a task that ends with
      OK_STATUS has had exactly one copy of its packet queued, for the connection its target
      was registered with when the last attempt was processed (none if that descriptor is not
      positive), and a task that ends otherwise has had none. */
  lemma RetryGivesOneForward(from: World, steps: seq<Step>, w: World, i: nat)
    requires Initial(from) && Protocol.Run(from, steps, w) && i < |w.tasks| && w.tasks[i].phase.Ended?
    requires Addressed(w.tasks[i].pack)
    ensures var Ended(m, code) := w.tasks[i].phase;
      && m in w.log
      && (code == OkStatus ==>
            var target := Get(w.log[m].reg, w.tasks[i].pack.toUid);
            && target.Some?
            && w.tasks[i].copies ==
                 if target.value.fd > 0
                 then [(target.value.conn,
                        Packet(w.tasks[i].pack.packtype, true, w.client.uid, w.tasks[i].pack.toUid, 0, 0, 0,
                               w.tasks[i].pack.cmuid, w.tasks[i].pack.data))]
                 else [])
      && (code != OkStatus ==> w.tasks[i].copies == [])
  {
    hide AnswerCode;
    EndingCode(from, steps, w, i);
    InvInitial(from);
    InvRun(from, steps, w);
    assert TaskOK(w, i);
  }

  /** Every earlier attempt of a task was answered 101 and forwarded to no one. */
  lemma EarlierAttemptsForwardNothing(from: World, steps: seq<Step>, w: World, m: U64)
    requires Initial(from) && Protocol.Run(from, steps, w) && m in w.log
    requires w.log[m].task < |w.tasks| ==> Current(w.tasks[w.log[m].task]) != Some(m)
    ensures CodeOf(w.log[m]) == NO_CLIENT && Forwards(w.log[m].reg, w.me, w.log[m].p) == []
  {
    InvInitial(from);
    InvRun(from, steps, w);
    assert VerdictOK(w, m);
  }
}
