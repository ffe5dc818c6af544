/** When the requests of a session come to an end (dnet/client.c, dnet/server.c).

    A task waits for the handler of its answer to raise its waiter.  The handler raises it for
    every answer but one: a refusal whose type the server left as TRACEROUTE and whose payload
    does not parse as a response.  That one is queued as a traceroute request, and the handler
    returns before it has looked for the waiter. */
module Completion {
  import opened Bytes
  import opened Wrappers
  import opened Codec
  import opened Assoc
  import opened Dispatch
  import opened Session
  import opened Protocol

  /** The handler takes an answer for a traceroute request. */
  predicate Swallows(w: World, step: Step) {
    && step.Handle? && step.k < |w.down|
    && !w.down[step.k].fromOs && w.down[step.k].packtype == TRACEROUTE && !step.t.isResponse
  }

  /** The muids of the answers swallowed up to now and in this step. */
  function After(w: World, step: Step, lost: set<U64>): set<U64> {
    if Swallows(w, step) then lost + {w.down[step.k].muid} else lost
  }

  /** The muids of the answers swallowed up to now and in this run. */
  function Swallowed(from: World, steps: seq<Step>, lost: set<U64>): set<U64>
    decreases |steps|
  {
    if steps == [] || !Enabled(from, steps[0]) then lost
    else Swallowed(Next(from, steps[0]), steps[1..], After(from, steps[0], lost))
  }

  ghost predicate OnWayUp(w: World, m: U64) { exists k | 0 <= k < |w.up| :: w.up[k].p.muid == m }

  ghost predicate OnWayDown(w: World, m: U64) {
    exists k | 0 <= k < |w.down| :: !w.down[k].fromOs && w.down[k].muid == m
  }

  /** Something will raise the waiter of m, has raised it, or never will. */
  ghost predicate Pending(w: World, m: U64, lost: set<U64>) {
    && Get(w.client.waiting, m).Some?
    && (OnWayUp(w, m) || OnWayDown(w, m) || Get(w.client.waiting, m) == Some(true) || m in lost)
  }

  /** The answer to m is gone and its task still waits. */
  ghost predicate Gone(w: World, m: U64) {
    && m in w.log && w.log[m].answer.packtype == TRACEROUTE
    && w.log[m].task < |w.tasks| && w.tasks[w.log[m].task].phase == Waiting(m)
    && Get(w.client.waiting, m) == Some(false) && !OnWayDown(w, m)
  }

  ghost predicate Tracked(w: World, lost: set<U64>) {
    && (forall i | 0 <= i < |w.tasks| && w.tasks[i].phase.Waiting? :: Pending(w, w.tasks[i].phase.muid, lost))
    && (forall m | m in lost :: Gone(w, m))
  }

  // ---- Every step keeps track ----

  lemma SendTracked(w: World, i: nat, lost: set<U64>)
    requires Inv(w) && Tracked(w, lost) && Enabled(w, Send(i))
    ensures Tracked(Next(w, Send(i)), lost)
  {
    hide Put, Get, Ups, Downs, Responses, TaskOK;
    var w', m0 := Next(w, Send(i)), w.client.lastMuid;
    forall m
      ensures Get(w'.client.waiting, m) == if m == m0 then Some(false) else Get(w.client.waiting, m)
    {
      PutGet(w.client.waiting, m0, false, m);
    }
    NotLogged(w, m0);
    assert w'.up[|w.up|].p.muid == m0 && forall k | 0 <= k < |w.up| :: w'.up[k] == w.up[k];
    forall j | 0 <= j < |w'.tasks| && w'.tasks[j].phase.Waiting?
      ensures Pending(w', w'.tasks[j].phase.muid, lost)
    {
      SentBefore(w, j);
    }
  }

  /** What processing a packet changes of the packets under way. */
  lemma ProcessMoves(w: World, k: nat, blank: Packet)
    requires Inv(w) && Enabled(w, Process(k, blank))
    ensures var w', p := Next(w, Process(k, blank)), w.up[k].p;
      && p.muid !in w.log && w'.client == w.client
      && (forall m | OnWayUp(w, m) && m != p.muid :: OnWayUp(w', m))
      && (forall m :: OnWayDown(w', m) <==> OnWayDown(w, m) || m == p.muid)
  {
    hide Get, Forwards, Code, Registered, Without, Verdicts, Downs, Responses, Tasks;
    var w', p := Next(w, Process(k, blank)), w.up[k].p;
    assert UpOK(w, w.up[k]);
    WithoutAt(w.up, k);
    DownAdds(w, w', w'.down[|w.down|]);
    hide UpOK, Answer;
    forall m | OnWayUp(w, m) && m != p.muid
      ensures OnWayUp(w', m)
    {
      var j :| 0 <= j < |w.up| && w.up[j].p.muid == m;
      assert w'.up[if j < k then j else j - 1] == w.up[j];
    }
  }

  lemma ProcessTracked(w: World, k: nat, blank: Packet, lost: set<U64>)
    requires Inv(w) && Tracked(w, lost) && Enabled(w, Process(k, blank))
    ensures Tracked(Next(w, Process(k, blank)), lost)
  {
    ProcessMoves(w, k, blank);
    hide Inv, Get, Forwards, Code, Registered, Answer, Without, OnWayUp, OnWayDown;
  }

  lemma DownAdds(w: World, w': World, answer: Packet)
    requires w'.down == w.down + [answer] && !answer.fromOs
    ensures forall m :: OnWayDown(w', m) <==> OnWayDown(w, m) || m == answer.muid
  {
    assert w'.down[|w.down|] == answer;
    forall m | OnWayDown(w, m)
      ensures OnWayDown(w', m)
    {
      var j :| 0 <= j < |w.down| && !w.down[j].fromOs && w.down[j].muid == m;
      assert w'.down[j] == w.down[j];
    }
  }

  /** What the handler does to the waiter of an answer. */
  lemma AnswerWakes(c: Client, p: Packet, t: Trace)
    requires p.toUid == c.uid && !p.fromOs && Get(c.waiting, p.muid).Some?
    ensures Get(Delivered(c, p, t).waiting, p.muid)
         == if p.packtype == TRACEROUTE && !t.isResponse then Get(c.waiting, p.muid) else Some(true)
  {
    hide Put, IndexOf;
    PutGet(c.waiting, p.muid, true, p.muid);
  }

  /** A task that waits for an answer under way has a waiter that is not raised. */
  lemma NotYetRaised(w: World, k: nat, lost: set<U64>)
    requires Inv(w) && Tracked(w, lost) && k < |w.down| && !w.down[k].fromOs
    ensures var m := w.down[k].muid;
      && m in w.log && w.down[k] == w.log[m].answer && w.down[k].toUid == w.client.uid
      && w.log[m].task < |w.tasks| && w.tasks[w.log[m].task].phase == Waiting(m)
      && Get(w.client.waiting, m) == Some(false) && m !in lost
  {
    hide Get, Forwards, Code, Ups, Responses;
    var m := w.down[k].muid;
    assert DownOK(w, w.down[k]) && VerdictOK(w, m);
    assert OnWayDown(w, m) && Pending(w, m, lost);
    assert TaskOK(w, w.log[m].task);
    assert !Arrived(w, m);
    assert Get(w.client.waiting, m).value == false;
  }

  /** Handling a packet moves nothing of other muids. */
  lemma OthersUnmoved(w: World, k: nat, t: Trace)
    requires Inv(w) && k < |w.down|
    ensures var w' := Next(w, Handle(k, t));
      && (forall m | m != w.down[k].muid || w.down[k].fromOs ::
            Get(w'.client.waiting, m) == Get(w.client.waiting, m) && (OnWayDown(w', m) <==> OnWayDown(w, m)))
      && (w.down[k].fromOs || !OnWayDown(w', w.down[k].muid))
  {
    var w', p := Next(w, Handle(k, t)), w.down[k];
    DownLoses(w, w', k);
    forall m | m != p.muid || p.fromOs
      ensures Get(w'.client.waiting, m) == Get(w.client.waiting, m)
    {
      WaiterKept(w, k, t, m);
    }
    hide Inv, Get, Delivered, Without, OnWayDown;
  }

  lemma WaiterKept(w: World, k: nat, t: Trace, m: U64)
    requires Inv(w) && k < |w.down| && (m != w.down[k].muid || w.down[k].fromOs)
    ensures Get(Delivered(w.client, w.down[k], t).waiting, m) == Get(w.client.waiting, m)
  {
    hide Get, Delivered;
    HandleTables(w, k, t);
    assert TablesAfter(w.client, w.down[k], Delivered(w.client, w.down[k], t), m);
  }

  lemma DownLoses(w: World, w': World, k: nat)
    requires Downs(w) && k < |w.down| && w'.down == Without(w.down, k)
    ensures forall m | m != w.down[k].muid || w.down[k].fromOs :: OnWayDown(w', m) <==> OnWayDown(w, m)
    ensures w.down[k].fromOs || !OnWayDown(w', w.down[k].muid)
  {
    WithoutAt(w.down, k);
    hide Without, DownOK;
    forall m | OnWayDown(w, m) && (m != w.down[k].muid || w.down[k].fromOs)
      ensures OnWayDown(w', m)
    {
      var j :| 0 <= j < |w.down| && !w.down[j].fromOs && w.down[j].muid == m;
      assert w'.down[if j < k then j else j - 1] == w.down[j];
    }
  }

  /** Only what is known of muid m has changed: its waiter is raised, or its answer is gone. */
  lemma OneSettled(w: World, w': World, m: U64, lost: set<U64>, lost': set<U64>)
    requires Tracked(w, lost) && w'.tasks == w.tasks && w'.log == w.log && w'.up == w.up
    requires forall x | x != m :: Get(w'.client.waiting, x) == Get(w.client.waiting, x) && (OnWayDown(w', x) <==> OnWayDown(w, x))
    requires if lost' == lost then m !in lost && Get(w'.client.waiting, m) == Some(true)
             else lost' == lost + {m} && Gone(w', m)
    ensures Tracked(w', lost')
  {
    hide Get, OnWayDown;
    assert forall x | OnWayUp(w, x) :: OnWayUp(w', x);
    forall i | 0 <= i < |w'.tasks| && w'.tasks[i].phase.Waiting?
      ensures Pending(w', w'.tasks[i].phase.muid, lost')
    {
      assert Pending(w, w.tasks[i].phase.muid, lost);
    }
  }

  lemma HandleTracked(w: World, k: nat, t: Trace, lost: set<U64>)
    requires Inv(w) && Tracked(w, lost) && k < |w.down|
    ensures Tracked(Next(w, Handle(k, t)), After(w, Handle(k, t), lost))
  {
    var w', p := Next(w, Handle(k, t)), w.down[k];
    OthersUnmoved(w, k, t);
    if p.fromOs {
      hide Inv, Get, Delivered, Without, OnWayDown;
      assert forall x | OnWayUp(w, x) :: OnWayUp(w', x);
    } else {
      NotYetRaised(w, k, lost);
      AnswerWakes(w.client, p, t);
      hide Inv, Get, Delivered, Without, OnWayDown, Tracked;
      OneSettled(w, w', p.muid, lost, After(w, Handle(k, t), lost));
    }
  }

  lemma WakeTracked(w: World, i: nat, lost: set<U64>)
    requires Inv(w) && Tracked(w, lost) && Enabled(w, Wake(i))
    ensures Tracked(Next(w, Wake(i)), lost)
  {
    hide Get, Remove, Verdicts, Ups, Downs, Responses, TaskOK;
    var w', m := Next(w, Wake(i)), w.tasks[i].phase.muid;
    forall x
      ensures Get(w'.client.waiting, x) == if x == m then None else Get(w.client.waiting, x)
    {
      RemoveGet(w.client.waiting, m, x);
    }
    assert forall x | OnWayUp(w, x) :: OnWayUp(w', x);
    assert forall x | OnWayDown(w, x) :: OnWayDown(w', x);
    forall j | 0 <= j < |w.tasks| && j != i
      ensures Current(w.tasks[j]) != Some(m)
    {
      assert Current(w.tasks[i]) == Some(m);
    }
  }

  /** Steps that leave the waiters and the answers alone. */
  lemma OtherTracked(w: World, step: Step, lost: set<U64>)
    requires Tracked(w, lost) && Enabled(w, step)
    requires step.Start? || step.Others? || step.Foreign? || step.Fetch?
    ensures Tracked(Next(w, step), lost)
  {
    hide Get, FetchCode;
    var w' := Next(w, step);
    assert forall m | OnWayUp(w, m) :: OnWayUp(w', m);
    assert forall k | 0 <= k < |w.down| :: w'.down[k] == w.down[k];
    forall m
      ensures OnWayDown(w', m) <==> OnWayDown(w, m)
    {
      if OnWayDown(w, m) {
        var k :| 0 <= k < |w.down| && !w.down[k].fromOs && w.down[k].muid == m;
        assert w'.down[k].muid == m;
      }
    }
  }

  lemma StepTracked(w: World, step: Step, lost: set<U64>)
    requires Inv(w) && Tracked(w, lost) && Enabled(w, step)
    ensures Tracked(Next(w, step), After(w, step, lost))
  {
    hide Tracked, Next, Inv;
    match step
    case Send(i) => SendTracked(w, i, lost);
    case Process(k, blank) => ProcessTracked(w, k, blank, lost);
    case Handle(k, t) => HandleTracked(w, k, t, lost);
    case Wake(i) => WakeTracked(w, i, lost);
    case _ => OtherTracked(w, step, lost);
  }

  lemma {:induction false} TrackedRun(from: World, steps: seq<Step>, w: World, lost: set<U64>)
    requires Inv(from) && Tracked(from, lost) && Protocol.Run(from, steps, w)
    ensures Inv(w) && Tracked(w, Swallowed(from, steps, lost))
    decreases |steps|
  {
    if steps != [] {
      hide Inv, Tracked, After, Enabled, Next;
      InvNext(from, steps[0]);
      StepTracked(from, steps[0], lost);
      TrackedRun(Next(from, steps[0]), steps[1..], w, After(from, steps[0], lost));
    }
  }

  // ---- At rest ----

  /** Nothing is left to do, whatever others may yet send. */
  ghost predicate AtRest(w: World) {
    forall step: Step | !step.Start? && !step.Others? && !step.Foreign? :: !Enabled(w, step)
  }

  /** At rest nothing is under way, and each task has ended or waits for a waiter that is not
      raised. */
  lemma RestShape(w: World)
    requires Inv(w) && AtRest(w) && w.client.lastMuid + 1 < TWO_64
    ensures w.up == [] && w.down == []
    ensures forall i | 0 <= i < |w.tasks| ::
      w.tasks[i].phase.Ended?
      || (w.tasks[i].phase.Waiting? && Get(w.client.waiting, w.tasks[i].phase.muid) != Some(true))
  {
    hide Get, Verdicts, Downs, Tasks, Responses;
    assert w.up != [] ==> UpOK(w, w.up[0]);
    assert !Enabled(w, Process(0, ZERO_PACKET)) && !Enabled(w, Handle(0, Trace(true, 0)));
    forall i | 0 <= i < |w.tasks|
      ensures w.tasks[i].phase.Ended?
        || (w.tasks[i].phase.Waiting? && Get(w.client.waiting, w.tasks[i].phase.muid) != Some(true))
    {
      assert !Enabled(w, Send(i)) && !Enabled(w, Wake(i)) && !Enabled(w, Fetch(i));
    }
  }

  /** When a session has come to rest, its tasks have all ended if and only if no answer was
      swallowed.  A task that has not ended waits for one that was. */
  lemma AllEndIff(from: World, steps: seq<Step>, w: World)
    requires Initial(from) && Protocol.Run(from, steps, w) && AtRest(w) && w.client.lastMuid + 1 < TWO_64
    ensures var lost := Swallowed(from, steps, {});
      && ((forall i | 0 <= i < |w.tasks| :: w.tasks[i].phase.Ended?) <==> lost == {})
      && forall i | 0 <= i < |w.tasks| ::
           w.tasks[i].phase.Ended? || (w.tasks[i].phase.Waiting? && w.tasks[i].phase.muid in lost)
  {
    InvInitial(from);
    TrackedRun(from, steps, w, {});
    RestShape(w);
    var lost := Swallowed(from, steps, {});
    hide Inv, Get, Swallowed;
    forall i | 0 <= i < |w.tasks|
      ensures w.tasks[i].phase.Ended? || (w.tasks[i].phase.Waiting? && w.tasks[i].phase.muid in lost)
    {
      if !w.tasks[i].phase.Ended? {
        assert Pending(w, w.tasks[i].phase.muid, lost);
      }
    }
    forall m | m in lost
      ensures exists i | 0 <= i < |w.tasks| :: !w.tasks[i].phase.Ended?
    {
      assert Gone(w, m);
      assert !w.tasks[w.log[m].task].phase.Ended?;
    }
  }

  /** Only a request that a session sends to its own uid can be swallowed. */
  lemma OnlyToSelf(from: World, steps: seq<Step>, w: World, m: U64)
    requires Initial(from) && Protocol.Run(from, steps, w) && m in Swallowed(from, steps, {})
    ensures m in w.log && CodeOf(w.log[m]) == FORBIDDEN
    ensures w.log[m].task < |w.tasks| && w.tasks[w.log[m].task].pack.toUid == w.client.uid
  {
    InvInitial(from);
    TrackedRun(from, steps, w, {});
    assert Gone(w, m) && VerdictOK(w, m);
  }

  /** The server's answer to a request of uid to itself, when `blank` was on the stack. */
  predicate Refusal(p: Packet, uid: U64, blank: Packet) {
    p.packtype == blank.packtype && !p.fromOs && p.toUid == uid
  }

  lemma SelfProcessed(w: World, blank: Packet)
    requires |w.up| == 1 && w.up[0].task == 0 && |w.tasks| == 1 && w.down == []
    requires w.up[0].p.fromUid == w.up[0].p.toUid == w.client.uid
    ensures var w' := Next(w, Process(0, blank));
      && w'.up == [] && |w'.down| == 1 && Refusal(w'.down[0], w.client.uid, blank)
      && w'.client == w.client && |w'.tasks| == 1 && w'.tasks[0].phase == w.tasks[0].phase
  {
    hide Forwards, Registered;
  }

  /** The session asks itself, the server refuses in world w, and the handler gets the answer. */
  lemma SelfAsked(from: World, pack: Packet, blank: Packet, last: Step) returns (steps: seq<Step>, w: World)
    requires Initial(from) && pack.toUid == from.client.uid && last.Handle? && last.k == 0
    ensures w.up == [] && |w.down| == 1 && Refusal(w.down[0], from.client.uid, blank) && w.client == Issue(from.client)
    ensures |w.tasks| == 1 && w.tasks[0].phase == Waiting(1)
    ensures Protocol.Run(from, steps, Next(w, last))
  {
    var a := Next(from, Start(pack));
    assert a == from.(tasks := [Task(pack, Ready, [])]);
    var b := Next(a, Send(0));
    assert b.up == [Sent(Stamped(from.client, pack, pack.toUid), 0)] && |b.tasks| == 1 && b.tasks[0].phase == Waiting(1);
    SelfProcessed(b, blank);
    hide Issue;
    w := Next(b, Process(0, blank));
    steps := [Start(pack), Send(0), Process(0, blank), last];
    assert Enabled(a, Send(0)) && Enabled(b, Process(0, blank)) && Enabled(w, last);
    hide Protocol.Run;
    FourSteps(from, a, b, w, steps);
  }

  lemma FourSteps(from: World, a: World, b: World, c: World, steps: seq<Step>)
    requires |steps| == 4
    requires Enabled(from, steps[0]) && Next(from, steps[0]) == a && Enabled(a, steps[1]) && Next(a, steps[1]) == b
    requires Enabled(b, steps[2]) && Next(b, steps[2]) == c && Enabled(c, steps[3])
    ensures Protocol.Run(from, steps, Next(c, steps[3]))
  {
    hide Next, Enabled;
    var to := Next(c, steps[3]);
    assert Protocol.Run(to, steps[1..][1..][1..][1..], to);
    assert Protocol.Run(c, steps[1..][1..][1..], to);
    assert Protocol.Run(b, steps[1..][1..], to);
  }

  /** A session sends a request to its own uid, while the packet on the stack of the server
      happens to have the type TRACEROUTE: the answer is swallowed and the task waits for ever. */
  lemma SelfRequestExample(from: World, pack: Packet, blank: Packet) returns (steps: seq<Step>, w: World)
    requires Initial(from) && pack.toUid == from.client.uid && blank.packtype == TRACEROUTE
    ensures Protocol.Run(from, steps, w) && AtRest(w)
    ensures |w.tasks| == 1 && w.tasks[0].phase == Waiting(1)
  {
    var last := Handle(0, Trace(false, 0));
    var asked, refused := SelfAsked(from, pack, blank, last);
    hide Protocol.Run, Stamped, Forwards, Code;
    steps, w := asked, Next(refused, last);
    assert w.up == [] && w.down == [] && w.client.waiting == [Entry(1, false)];
  }
}
