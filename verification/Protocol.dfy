/** The request protocol between one session and its server, as a step machine: any number of
    __async_req tasks of the session (dnet/client.c), the workers of the server
    (dnet/server.c) and everything else that changes the registry or sends to the session.

    The connection delivers every packet unchanged (module Channel); the threads at both ends
    run their handlers in any order, so a step takes any packet that is under way.
    dcn_request is one step, and a session issues fewer than 2^64 requests. */
module Protocol {
  import opened Bytes
  import opened Wrappers
  import opened Codec
  import opened Assoc
  import opened Dispatch
  import opened Session

  /** Where a task is in the loop of __async_req. */
  datatype Phase =
    | Ready
    | Waiting(muid: U64)            // in wait_response
    | Fetching(muid: U64)           // before dcn_getresp
    | Ended(muid: U64, code: Resp)  // past the loop

  /** `copies` is what the server has queued for others on behalf of the task. */
  datatype Task = Task(pack: Packet, phase: Phase, copies: seq<(nat, Packet)>)

  datatype Sent = Sent(p: Packet, task: nat)

  /** What the server did with one packet, and the registry it saw. */
  datatype Verdict = Verdict(task: nat, reg: Registry<nat>, p: Packet, answer: Packet)

  /** `me` is the connection of the session at the server.  `up` and `down` are the packets
      under way.  `log` records the verdict on each muid; the code has no such record. */
  datatype World = World(
    client: Client,
    me: Peer<nat>,
    up: seq<Sent>,
    down: seq<Packet>,
    reg: Registry<nat>,
    tasks: seq<Task>,
    log: map<U64, Verdict>)

  datatype Step =
    | Start(pack: Packet)
    | Send(i: nat)
    | Process(k: nat, blank: Packet)
    | Others(reg: Registry<nat>)     // other connections register or leave
    | Foreign(p: Packet)             // the server forwards something to this session
    | Handle(k: nat, t: Trace)
    | Wake(i: nat)
    | Fetch(i: nat)

  predicate Enabled(w: World, step: Step) {
    match step
    case Start(pack) => true
    case Send(i) => i < |w.tasks| && w.tasks[i].phase.Ready? && w.client.lastMuid + 1 < TWO_64
    case Process(k, _) => k < |w.up| && w.up[k].task < |w.tasks|
    case Others(_) => true
    case Foreign(p) => p.fromOs
    case Handle(k, _) => k < |w.down|
    case Wake(i) =>
      i < |w.tasks| && w.tasks[i].phase.Waiting? && Get(w.client.waiting, w.tasks[i].phase.muid) == Some(true)
    case Fetch(i) => i < |w.tasks| && w.tasks[i].phase.Fetching?
  }

  function Next(w: World, step: Step): World
    requires Enabled(w, step)
  {
    match step
    case Start(pack) => w.(tasks := w.tasks + [Task(pack, Ready, [])])
    case Send(i) =>
      var task := w.tasks[i];
      w.(client := Issue(w.client),
         up := w.up + [Sent(Stamped(w.client, task.pack, task.pack.toUid), i)],
         tasks := w.tasks[i := task.(phase := Waiting(w.client.lastMuid))])
    case Process(k, blank) =>
      var p, i := w.up[k].p, w.up[k].task;
      var reg := Registered(w.reg, p.fromUid, w.me);
      var answer := Answer(p, Code(reg, p), blank);
      w.(up := Without(w.up, k), down := w.down + [answer], reg := reg,
         tasks := w.tasks[i := w.tasks[i].(copies := w.tasks[i].copies + Forwards(reg, w.me, p))],
         log := w.log[p.muid := Verdict(i, reg, p, answer)])
    case Others(reg) => w.(reg := reg)
    case Foreign(p) => w.(down := w.down + [p])
    case Handle(k, t) => w.(client := Delivered(w.client, w.down[k], t), down := Without(w.down, k))
    case Wake(i) =>
      var m := w.tasks[i].phase.muid;
      w.(client := Awaited(w.client, m), tasks := w.tasks[i := w.tasks[i].(phase := Fetching(m))])
    case Fetch(i) =>
      var m := w.tasks[i].phase.muid;
      var code := FetchCode(w.client, m);
      w.(client := Fetched(w.client, m),
         tasks := w.tasks[i := w.tasks[i].(phase := if code == NoSuchUser then Ready else Ended(m, code))])
  }

  ghost predicate Initial(w: World) {
    && w.client == Client(w.client.uid, 1, [], [], [], [], [], false, [], false)
    && w.up == [] && w.down == [] && w.tasks == [] && w.log == map[]
  }

  ghost predicate Run(from: World, steps: seq<Step>, to: World)
    decreases |steps|
  {
    if steps == [] then from == to
    else Enabled(from, steps[0]) && Run(Next(from, steps[0]), steps[1..], to)
  }

  // ---- The invariant ----

  /** The muid a task last sent with, unless it is about to send again. */
  function Current(t: Task): Option<U64> {
    if t.phase.Ready? then None else Some(t.phase.muid)
  }

  function CodeOf(v: Verdict): nat { Code(v.reg, v.p) }

  /** The packet of a task as it goes out under muid m. */
  function Outgoing(w: World, i: nat, m: U64): Packet
    requires i < |w.tasks|
  {
    w.tasks[i].pack.(fromUid := w.client.uid, fromOs := false, muid := m)
  }

  ghost predicate IsAnswer(uid: U64, v: Verdict, m: U64) {
    && v.answer.muid == m && v.answer.fromUid == 0 && !v.answer.fromOs
    && v.answer.toUid == uid && AnswerCode(v.answer) == CodeOf(v)
    && (v.answer.packtype == TRACEROUTE ==> CodeOf(v) == FORBIDDEN)
  }

  ghost predicate VerdictOK(w: World, m: U64)
    requires m in w.log
  {
    var v := w.log[m];
    && m < w.client.lastMuid
    && v.task < |w.tasks| && v.p == Outgoing(w, v.task, m)
    && IsAnswer(w.client.uid, v, m)
    && (Current(w.tasks[v.task]) == Some(m) || CodeOf(v) == NO_CLIENT)
  }

  ghost predicate UpOK(w: World, s: Sent) {
    && s.task < |w.tasks| && s.p == Outgoing(w, s.task, s.p.muid)
    && w.tasks[s.task].phase == Waiting(s.p.muid)
    && s.p.muid !in w.log
  }

  ghost predicate DownOK(w: World, p: Packet) {
    !p.fromOs ==>
      && p.muid in w.log && p == w.log[p.muid].answer
      && Get(w.client.responses, p.muid) == None
      && w.log[p.muid].task < |w.tasks| && w.tasks[w.log[p.muid].task].phase == Waiting(p.muid)
  }

  /** The answer to m has been handled. */
  ghost predicate Arrived(w: World, m: U64) {
    && m in w.log
    && (forall k | 0 <= k < |w.down| && !w.down[k].fromOs :: w.down[k].muid != m)
    && (Get(w.client.responses, m) == Some(w.log[m].answer) || w.log[m].answer.packtype == TRACEROUTE)
  }

  /** The code a verdict gives the task.  An answer whose type the refusing branch left as
      TRACEROUTE is not filed, and the task finds none. */
  function CodeFor(v: Verdict): Resp {
    if v.answer.packtype == TRACEROUTE then UndefinedError else RespOf(v.answer)
  }

  ghost predicate TaskOK(w: World, i: nat)
    requires i < |w.tasks|
  {
    var t := w.tasks[i];
    && (t.phase.Ready? ==> t.copies == [])
    && (!t.phase.Ready? ==>
          && t.phase.muid < w.client.lastMuid
          && (if t.phase.muid in w.log
              then w.log[t.phase.muid].task == i
                   && t.copies == Forwards(w.log[t.phase.muid].reg, w.me, w.log[t.phase.muid].p)
              else t.copies == []))
    && (t.phase.Waiting? && Get(w.client.waiting, t.phase.muid) == Some(true) ==> Arrived(w, t.phase.muid))
    && (t.phase.Fetching? ==> Arrived(w, t.phase.muid))
    && (t.phase.Ended? ==>
          t.phase.muid in w.log && t.phase.code != NoSuchUser && t.phase.code == CodeFor(w.log[t.phase.muid]))
  }

  ghost predicate ResponseOK(w: World, m: U64) {
    Get(w.client.responses, m).Some? ==>
      && m in w.log && Get(w.client.responses, m) == Some(w.log[m].answer)
      && w.log[m].answer.packtype != TRACEROUTE
  }

  ghost predicate Verdicts(w: World) { forall m | m in w.log :: VerdictOK(w, m) }

  ghost predicate Ups(w: World) {
    && (forall k | 0 <= k < |w.up| :: UpOK(w, w.up[k]))
    && (forall j, k | 0 <= j < k < |w.up| :: w.up[j].p.muid != w.up[k].p.muid)
  }

  ghost predicate Downs(w: World) {
    && (forall k | 0 <= k < |w.down| :: DownOK(w, w.down[k]))
    && (forall j, k | 0 <= j < k < |w.down| && !w.down[j].fromOs && !w.down[k].fromOs ::
          w.down[j].muid != w.down[k].muid)
  }

  ghost predicate Tasks(w: World) {
    && (forall i | 0 <= i < |w.tasks| :: TaskOK(w, i))
    && (forall i, j | 0 <= i < j < |w.tasks| && Current(w.tasks[i]).Some? :: Current(w.tasks[i]) != Current(w.tasks[j]))
  }

  ghost predicate Responses(w: World) { forall m :: ResponseOK(w, m) }

  ghost predicate Inv(w: World) {
    && Distinct(w.client.responses) && Distinct(w.client.waiting) && w.client.lastMuid >= 1
    && Verdicts(w) && Ups(w) && Downs(w) && Tasks(w) && Responses(w)
  }

  lemma InvInitial(w: World)
    requires Initial(w)
    ensures Inv(w)
  {
  }

  // ---- Steps outside the request cycle ----

  /** A step that only adds tasks yet to send, or forwarded traffic, or changes the registry. */
  lemma InvBystander(w: World, w': World)
    requires Inv(w)
    requires w'.client == w.client && w'.me == w.me && w'.up == w.up && w'.log == w.log
    requires w.down <= w'.down && forall k | |w.down| <= k < |w'.down| :: w'.down[k].fromOs
    requires w.tasks <= w'.tasks
    requires forall i | |w.tasks| <= i < |w'.tasks| :: w'.tasks[i].phase.Ready? && w'.tasks[i].copies == []
    ensures Inv(w')
  {
    hide Forwards, Code, IsAnswer, RespOf, Get, Has;
    assert Verdicts(w') by { assert forall m | m in w.log :: VerdictOK(w, m); }
    assert Ups(w') by { assert forall k | 0 <= k < |w.up| :: UpOK(w, w.up[k]); }
    assert Downs(w') by { assert forall k | 0 <= k < |w.down| :: DownOK(w, w.down[k]); }
    assert Responses(w') by { forall x ensures ResponseOK(w', x) { assert ResponseOK(w, x); } }
    assert Tasks(w') by {
      forall i | 0 <= i < |w.tasks|
        ensures TaskOK(w', i)
      {
        assert TaskOK(w, i);
        assert forall m | Arrived(w, m) :: Arrived(w', m);
      }
    }
  }

  // ---- dcn_request ----

  lemma SendTasks(w: World, i: nat)
    requires Inv(w) && Enabled(w, Send(i))
    ensures Tasks(Next(w, Send(i)))
  {
    hide Stamped, Forwards, Code, IsAnswer, RespOf, Get, Has, Put, Verdicts, Ups, Downs;
    var w' := Next(w, Send(i));
    var m0 := w.client.lastMuid;
    forall m
      ensures Get(w'.client.waiting, m) == if m == m0 then Some(false) else Get(w.client.waiting, m)
    {
      PutGet(w.client.waiting, m0, false, m);
    }
    assert m0 !in w.log by { NotLogged(w, m0); }
    forall j | 0 <= j < |w.tasks|
      ensures TaskOK(w', j)
      ensures j != i && Current(w.tasks[j]).Some? ==> Current(w.tasks[j]).value < m0
    {
      assert TaskOK(w, j);
      assert forall m | Arrived(w, m) :: Arrived(w', m);
    }
  }

  lemma NotLogged(w: World, m: U64)
    requires Verdicts(w) && m >= w.client.lastMuid
    ensures m !in w.log
  {
    assert forall x | x in w.log :: VerdictOK(w, x);
  }

  lemma InvSend(w: World, i: nat)
    requires Inv(w) && Enabled(w, Send(i))
    ensures Inv(Next(w, Send(i)))
  {
    hide Forwards, Code, IsAnswer, RespOf, Get, Has, Put, Tasks, TaskOK;
    var w' := Next(w, Send(i));
    var m0 := w.client.lastMuid;
    PutGet(w.client.waiting, m0, false, m0);
    SendTasks(w, i);
    NotLogged(w, m0);
    assert Verdicts(w') by { assert forall m | m in w.log :: VerdictOK(w, m); }
    assert Ups(w') by {
      forall k | 0 <= k < |w.up|
        ensures UpOK(w', w.up[k]) && w.up[k].p.muid < m0
      {
        assert UpOK(w, w.up[k]);
        SentBefore(w, w.up[k].task);
      }
    }
    assert Downs(w') by { assert forall k | 0 <= k < |w.down| :: DownOK(w, w.down[k]); }
    assert Responses(w') by { forall x ensures ResponseOK(w', x) { assert ResponseOK(w, x); } }
  }

  lemma SentBefore(w: World, i: nat)
    requires Tasks(w) && i < |w.tasks|
    ensures Current(w.tasks[i]).Some? ==> Current(w.tasks[i]).value < w.client.lastMuid
    ensures w.tasks[i].phase.Ready? ==> w.tasks[i].copies == []
  {
    assert TaskOK(w, i);
  }

  // ---- The server ----

  lemma AnswerIs(uid: U64, reg: Registry<nat>, i: nat, p: Packet, blank: Packet)
    requires p.fromUid == uid
    ensures IsAnswer(uid, Verdict(i, reg, p, Answer(p, Code(reg, p), blank)), p.muid)
  {
    AnswerCarriesCode(p, Code(reg, p), blank);
  }

  lemma WithoutAt<T>(s: seq<T>, k: nat)
    requires k < |s|
    ensures |Without(s, k)| == |s| - 1
    ensures forall i | 0 <= i < |s| - 1 :: Without(s, k)[i] == s[if i < k then i else i + 1]
  {
  }

  lemma ProcessTasks(w: World, k: nat, blank: Packet)
    requires Inv(w) && Enabled(w, Process(k, blank))
    ensures Tasks(Next(w, Process(k, blank)))
  {
    hide Forwards, Code, RespOf, AnswerCode, Get, Has, Answer, Registered, Without, Verdicts, Downs, Responses;
    var w' := Next(w, Process(k, blank));
    var p, i := w.up[k].p, w.up[k].task;
    assert UpOK(w, w.up[k]);
    AnswerIs(w.client.uid, w'.reg, i, p, blank);
    forall j | 0 <= j < |w.tasks|
      ensures TaskOK(w', j)
    {
      assert TaskOK(w, j) && TaskOK(w, i);
      if j != i { assert Current(w.tasks[j]) != Some(p.muid); }
      assert forall m | Arrived(w, m) :: Arrived(w', m);
    }
  }

  lemma ProcessVerdicts(w: World, k: nat, blank: Packet)
    requires Inv(w) && Enabled(w, Process(k, blank))
    ensures Verdicts(Next(w, Process(k, blank)))
  {
    hide Forwards, Code, IsAnswer, Get, Has, Answer, Registered, Without, Downs, Responses;
    var w' := Next(w, Process(k, blank));
    var p, i := w.up[k].p, w.up[k].task;
    assert UpOK(w, w.up[k]);
    SentBefore(w, i);
    AnswerIs(w.client.uid, w'.reg, i, p, blank);
    forall m | m in w'.log
      ensures VerdictOK(w', m)
    {
      if m != p.muid { assert VerdictOK(w, m); }
    }
  }

  lemma ProcessStreams(w: World, k: nat, blank: Packet)
    requires Inv(w) && Enabled(w, Process(k, blank))
    ensures Ups(Next(w, Process(k, blank))) && Downs(Next(w, Process(k, blank)))
  {
    hide Forwards, Code, Get, Has, Answer, Registered, Without, TaskOK, AnswerCode, Verdicts;
    var w' := Next(w, Process(k, blank));
    var p, i := w.up[k].p, w.up[k].task;
    assert UpOK(w, w.up[k]);
    AnswerIs(w.client.uid, w'.reg, i, p, blank);
    WithoutAt(w.up, k);
    forall j | 0 <= j < |w'.up|
      ensures UpOK(w', w'.up[j])
    {
      assert UpOK(w, w.up[if j < k then j else j + 1]);
    }
    forall j | 0 <= j < |w.down|
      ensures DownOK(w', w.down[j]) && (!w.down[j].fromOs ==> w.down[j].muid != p.muid)
    {
      assert DownOK(w, w.down[j]);
    }
    assert ResponseOK(w, p.muid);
  }

  lemma InvProcess(w: World, k: nat, blank: Packet)
    requires Inv(w) && Enabled(w, Process(k, blank))
    ensures Inv(Next(w, Process(k, blank)))
  {
    hide Forwards, Code, Get, Has, Answer, Registered, Without, TaskOK, Verdicts, Downs, Tasks;
    var w' := Next(w, Process(k, blank));
    ProcessTasks(w, k, blank);
    ProcessVerdicts(w, k, blank);
    ProcessStreams(w, k, blank);
    assert UpOK(w, w.up[k]);
    assert Responses(w') by { forall x ensures ResponseOK(w', x) { assert ResponseOK(w, x); } }
  }

  // ---- The message handler ----

  lemma HandleTables(w: World, k: nat, t: Trace)
    requires Inv(w) && k < |w.down|
    ensures var c' := Delivered(w.client, w.down[k], t);
      && Distinct(c'.responses) && Distinct(c'.waiting) && c'.uid == w.client.uid && c'.lastMuid == w.client.lastMuid
      && forall m :: TablesAfter(w.client, w.down[k], c', m)
    ensures !w.down[k].fromOs ==> w.down[k].toUid == w.client.uid
  {
    hide Put, Get, Has, Delivered, Ups, Tasks, Responses, TablesAfter;
    DeliveredTables(w.client, w.down[k], t, 0);
    assert DownOK(w, w.down[k]);
    assert !w.down[k].fromOs ==> VerdictOK(w, w.down[k].muid);
    forall m
      ensures TablesAfter(w.client, w.down[k], Delivered(w.client, w.down[k], t), m)
    {
      DeliveredTables(w.client, w.down[k], t, m);
    }
  }

  lemma HandleTasks(w: World, k: nat, t: Trace)
    requires Inv(w) && k < |w.down|
    ensures Tasks(Next(w, Handle(k, t)))
  {
    hide Put, Get, Has, Delivered, Without, Forwards, CodeFor, Ups, Verdicts, Responses;
    var w' := Next(w, Handle(k, t));
    HandleTables(w, k, t);
    WithoutAt(w.down, k);
    assert DownOK(w, w.down[k]);
    forall i | 0 <= i < |w.tasks|
      ensures TaskOK(w', i)
    {
      assert TaskOK(w, i);
      assert !w.tasks[i].phase.Ready? ==> TablesAfter(w.client, w.down[k], w'.client, w.tasks[i].phase.muid);
      forall m | Arrived(w, m) || (m == w.down[k].muid && !w.down[k].fromOs)
        ensures Arrived(w', m)
      {
        assert TablesAfter(w.client, w.down[k], w'.client, m);
      }
    }
  }

  lemma InvHandle(w: World, k: nat, t: Trace)
    requires Inv(w) && k < |w.down|
    ensures Inv(Next(w, Handle(k, t)))
  {
    hide Put, Get, Has, Delivered, Without, Forwards, Code, IsAnswer, CodeFor, Tasks, TaskOK;
    var w' := Next(w, Handle(k, t));
    HandleTables(w, k, t);
    HandleTasks(w, k, t);
    WithoutAt(w.down, k);
    assert DownOK(w, w.down[k]);
    forall m
      ensures Get(w'.client.responses, m) ==
        if Files(w.client.uid, w.down[k]) && m == w.down[k].muid then Some(w.down[k]) else Get(w.client.responses, m)
    {
      assert TablesAfter(w.client, w.down[k], w'.client, m);
    }
    assert Verdicts(w') by { assert forall m | m in w.log :: VerdictOK(w, m); }
    assert Ups(w') by { assert forall j | 0 <= j < |w.up| :: UpOK(w, w.up[j]); }
    assert Downs(w') by {
      forall j | 0 <= j < |w'.down|
        ensures DownOK(w', w'.down[j])
      {
        assert DownOK(w, w.down[if j < k then j else j + 1]);
      }
    }
    assert Responses(w') by { forall x ensures ResponseOK(w', x) { assert ResponseOK(w, x); } }
  }

  // ---- wait_response and dcn_getresp ----

  lemma WakeTasks(w: World, i: nat)
    requires Inv(w) && Enabled(w, Wake(i))
    ensures Tasks(Next(w, Wake(i))) && Arrived(w, w.tasks[i].phase.muid)
  {
    hide Get, Has, Remove, Forwards, CodeFor, Ups, Verdicts, Downs, Responses;
    var w' := Next(w, Wake(i));
    var m := w.tasks[i].phase.muid;
    assert TaskOK(w, i);
    forall j | 0 <= j < |w.tasks|
      ensures TaskOK(w', j)
    {
      assert TaskOK(w, j);
      if !w.tasks[j].phase.Ready? { RemoveGet(w.client.waiting, m, w.tasks[j].phase.muid); }
      assert forall x | Arrived(w, x) :: Arrived(w', x);
    }
  }

  lemma InvWake(w: World, i: nat)
    requires Inv(w) && Enabled(w, Wake(i))
    ensures Inv(Next(w, Wake(i)))
  {
    hide Get, Has, Remove, Forwards, Code, IsAnswer, CodeFor, Tasks, TaskOK;
    var w' := Next(w, Wake(i));
    var m := w.tasks[i].phase.muid;
    WakeTasks(w, i);
    RemoveGet(w.client.waiting, m, m);
    assert Verdicts(w') by { assert forall x | x in w.log :: VerdictOK(w, x); }
    assert Ups(w') by { assert forall k | 0 <= k < |w.up| :: UpOK(w, w.up[k]); }
    assert VerdictOK(w, m);
    assert Downs(w') by {
      forall k | 0 <= k < |w.down|
        ensures DownOK(w', w.down[k])
      {
        assert DownOK(w, w.down[k]);
      }
    }
    assert Responses(w') by { forall x ensures ResponseOK(w', x) { assert ResponseOK(w, x); } }
  }

  /** The code fetched for an arrived answer is the one its verdict gives. */
  lemma FetchedCode(w: World, m: U64)
    requires Arrived(w, m) && Responses(w) && Verdicts(w)
    ensures FetchCode(w.client, m) == CodeFor(w.log[m])
    ensures FetchCode(w.client, m) == NoSuchUser ==> CodeOf(w.log[m]) == NO_CLIENT
  {
    hide AnswerCode;
    assert ResponseOK(w, m) && VerdictOK(w, m);
  }

  lemma FetchTasks(w: World, i: nat)
    requires Inv(w) && Enabled(w, Fetch(i))
    ensures Tasks(Next(w, Fetch(i))) && Arrived(w, w.tasks[i].phase.muid)
  {
    hide Get, Has, Remove, CodeFor, Ups, Downs, FetchCode, Code;
    var w' := Next(w, Fetch(i));
    var m := w.tasks[i].phase.muid;
    assert TaskOK(w, i);
    FetchedCode(w, m);
    forall j | 0 <= j < |w.tasks|
      ensures TaskOK(w', j)
    {
      assert TaskOK(w, j);
      if !w.tasks[j].phase.Ready? { RemoveGet(w.client.responses, m, w.tasks[j].phase.muid); }
    }
  }

  lemma InvFetch(w: World, i: nat)
    requires Inv(w) && Enabled(w, Fetch(i))
    ensures Inv(Next(w, Fetch(i)))
  {
    hide Get, Has, Remove, Forwards, Code, IsAnswer, CodeFor, Tasks, TaskOK, FetchCode;
    var w' := Next(w, Fetch(i));
    var m := w.tasks[i].phase.muid;
    FetchTasks(w, i);
    FetchedCode(w, m);
    forall x
      ensures Get(w'.client.responses, x) == if x == m then None else Get(w.client.responses, x)
    {
      RemoveGet(w.client.responses, m, x);
    }
    RemoveGet(w.client.responses, m, m);
    assert Verdicts(w') by { assert forall x | x in w.log :: VerdictOK(w, x); }
    assert Ups(w') by { assert forall k | 0 <= k < |w.up| :: UpOK(w, w.up[k]); }
    assert Downs(w') by {
      forall k | 0 <= k < |w.down|
        ensures DownOK(w', w.down[k])
      {
        assert DownOK(w, w.down[k]);
      }
    }
    assert Responses(w') by { forall x ensures ResponseOK(w', x) { assert ResponseOK(w, x); } }
  }

  lemma InvNext(w: World, step: Step)
    requires Inv(w) && Enabled(w, step)
    ensures Inv(Next(w, step))
  {
    hide Inv, Forwards, Code, Issue, Delivered, Awaited, Fetched, FetchCode, Answer, Registered;
    match step
    case Start(pack) => InvBystander(w, Next(w, step));
    case Send(i) => InvSend(w, i);
    case Process(k, blank) => InvProcess(w, k, blank);
    case Others(reg) => InvBystander(w, Next(w, step));
    case Foreign(p) => InvBystander(w, Next(w, step));
    case Handle(k, t) => InvHandle(w, k, t);
    case Wake(i) => InvWake(w, i);
    case Fetch(i) => InvFetch(w, i);
  }

  lemma {:induction false} InvRun(from: World, steps: seq<Step>, to: World)
    requires Inv(from) && Run(from, steps, to)
    ensures Inv(to)
    decreases |steps|
  {
    hide Inv, Enabled, Next;
    if steps != [] {
      InvNext(from, steps[0]);
      InvRun(Next(from, steps[0]), steps[1..], to);
    }
  }
}
