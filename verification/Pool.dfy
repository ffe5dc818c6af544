/** The thread pool (thr-pool.c, and async_create and __loop_worker of asyncio.c) as a step
    machine: workers and submitters, one mutex, one condition variable with the semantics of
    section 7.26.3 of ISO/IEC 9899:2011.  A wait releases the mutex and sleeps in one step, a
    signal wakes one sleeper if there is one, and a sleeper may also wake for no reason.

    The pool is active: shutdown is not part of the machine. */
module Pool {
  import opened Bytes
  import opened Wrappers
  import opened Tally

  /** struct task.  `tsk` names the future, or the copied input block when there is none. */
  datatype Task = Task(isFuture: bool, tsk: nat)

  /** Where a worker is in __thr_work.  From Got on, n says which start this is. */
  datatype Worker =
    | Want                             // before mtx_lock
    | Testing                          // holds the mutex, at the loop that tests bsize
    | Sleeping                         // in cnd_wait
    | Woken                            // cnd_wait is taking the mutex back
    | Taking                           // holds the mutex, has seen a task
    | Got(n: nat)                      // has popped, still holds the mutex
    | Running(n: nat)                  // in the coroutine
    | Blocked(n: nat, on: nat)         // the coroutine waits for what future `on` brings about
    | Returned(n: nat, v: Option<U64>) // the coroutine returned; None is NULL
    | Filled(n: nat)                   // out_block is written
    | Ready(n: nat)                    // is_ready is set

  /** Where a thread is in pool_sumbit. */
  datatype Submitter = Outside | Prepared(task: Task) | Pushed

  /** `submitted`, `started`, `finished` and `returned` record the run; the code has none of
      them.  `inp` and `out` are the input and output blocks of futures. */
  datatype State = State(
    workers: seq<Worker>,
    submitters: seq<Submitter>,
    q: seq<Task>,
    inp: map<nat, nat>,
    out: map<nat, U64>,
    ready: set<nat>,
    submitted: seq<Task>,
    started: seq<Task>,
    finished: set<nat>,
    returned: map<nat, Option<U64>>)

  datatype Step =
    | Prepare(i: nat, task: Task, coroutine: nat)
    | Push(i: nat)
    | Signal(i: nat, woken: Option<nat>)
    | Lock(w: nat)
    | Test(w: nat)
    | Spurious(w: nat)
    | Pop(w: nat)
    | Unlock(w: nat)
    | Await(w: nat, on: nat)
    | Resume(w: nat)
    | Return(w: nat, v: Option<U64>)
    | Fill(w: nat)
    | MarkReady(w: nat)
    | Finish(w: nat)

  predicate Holds(w: Worker) { w.Testing? || w.Taking? || w.Got? }

  predicate InTask(w: Worker) {
    w.Got? || w.Running? || w.Blocked? || w.Returned? || w.Filled? || w.Ready?
  }

  predicate MutexFree(s: State) { forall w | 0 <= w < |s.workers| :: !Holds(s.workers[w]) }

  predicate Enabled(s: State, step: Step) {
    match step
    case Prepare(i, task, c) =>
      // the allocator hands out a new future, the caller a new coroutine
      i < |s.submitters| && s.submitters[i].Outside? && task.tsk !in s.inp && c !in s.inp.Values
    case Push(i) => i < |s.submitters| && s.submitters[i].Prepared? && MutexFree(s)
    case Signal(i, woken) =>
      i < |s.submitters| && s.submitters[i].Pushed?
      && (if woken.Some? then woken.value < |s.workers| && s.workers[woken.value].Sleeping?
          else forall w | 0 <= w < |s.workers| :: !s.workers[w].Sleeping?)
    case Lock(w) => w < |s.workers| && (s.workers[w].Want? || s.workers[w].Woken?) && MutexFree(s)
    case Test(w) => w < |s.workers| && s.workers[w].Testing?
    case Spurious(w) => w < |s.workers| && s.workers[w].Sleeping?
    case Pop(w) => w < |s.workers| && s.workers[w].Taking? && s.q != []
    case Unlock(w) => w < |s.workers| && s.workers[w].Got?
    case Await(w, _) => w < |s.workers| && s.workers[w].Running?
    case Resume(w) => w < |s.workers| && s.workers[w].Blocked? && s.workers[w].on in s.ready
    case Return(w, _) => w < |s.workers| && s.workers[w].Running? && Known(s, s.workers[w].n)
    case Fill(w) => w < |s.workers| && s.workers[w].Returned? && s.workers[w].n < |s.started|
    case MarkReady(w) => w < |s.workers| && s.workers[w].Filled? && s.workers[w].n < |s.started|
    case Finish(w) => w < |s.workers| && s.workers[w].Ready?
  }

  predicate Known(s: State, n: nat) { n < |s.started| && s.started[n].tsk in s.inp }

  function Next(s: State, step: Step): State
    requires Enabled(s, step)
  {
    match step
    case Prepare(i, task, c) =>
      s.(submitters := s.submitters[i := Prepared(task)], inp := s.inp[task.tsk := c])
    case Push(i) =>
      var task := s.submitters[i].task;
      s.(submitters := s.submitters[i := Pushed], q := s.q + [task], submitted := s.submitted + [task])
    case Signal(i, woken) =>
      s.(submitters := s.submitters[i := Outside],
         workers := if woken.Some? then s.workers[woken.value := Woken] else s.workers)
    case Lock(w) => s.(workers := s.workers[w := Testing])
    case Test(w) => s.(workers := s.workers[w := if s.q == [] then Sleeping else Taking])
    case Spurious(w) => s.(workers := s.workers[w := Woken])
    case Pop(w) =>
      s.(workers := s.workers[w := Got(|s.started|)], q := s.q[1..], started := s.started + [s.q[0]])
    case Unlock(w) => s.(workers := s.workers[w := Running(s.workers[w].n)])
    case Await(w, on) => s.(workers := s.workers[w := Blocked(s.workers[w].n, on)])
    case Resume(w) => s.(workers := s.workers[w := Running(s.workers[w].n)])
    case Return(w, v) =>
      var n := s.workers[w].n;
      s.(workers := s.workers[w := Returned(n, v)], returned := s.returned[s.inp[s.started[n].tsk] := v])
    case Fill(w) =>
      var n, v := s.workers[w].n, s.workers[w].v;
      s.(workers := s.workers[w := Filled(n)],
         out := if s.started[n].isFuture && v.Some? then s.out[s.started[n].tsk := v.value] else s.out)
    case MarkReady(w) =>
      var n := s.workers[w].n;
      s.(workers := s.workers[w := Ready(n)],
         ready := if s.started[n].isFuture then s.ready + {s.started[n].tsk} else s.ready)
    case Finish(w) => s.(workers := s.workers[w := Want], finished := s.finished + {s.workers[w].n})
  }

  ghost predicate Initial(s: State) {
    && (forall w | 0 <= w < |s.workers| :: s.workers[w].Want?)
    && (forall i | 0 <= i < |s.submitters| :: s.submitters[i].Outside?)
    && s.q == [] && s.inp == map[] && s.out == map[] && s.ready == {}
    && s.submitted == [] && s.started == [] && s.finished == {} && s.returned == map[]
  }

  ghost predicate Run(from: State, steps: seq<Step>, to: State)
    decreases |steps|
  {
    if steps == [] then from == to
    else Enabled(from, steps[0]) && Run(Next(from, steps[0]), steps[1..], to)
  }

  // ---- No stranded task ----

  /** A worker that will test the queue before it sleeps. */
  function Seeks(w: Worker): nat { if w.Want? || w.Testing? || w.Woken? || w.Taking? then 1 else 0 }

  /** A submitter between push and signal. */
  function Owes(b: Submitter): nat { if b.Pushed? then 1 else 0 }

  ghost predicate NoStranded(s: State) {
    (exists w | 0 <= w < |s.workers| :: s.workers[w].Sleeping?)
    ==> |s.q| <= Sum(s.submitters, Owes) + Sum(s.workers, Seeks)
  }

  ghost predicate Exclusive(s: State) {
    && (forall a, b | 0 <= a < |s.workers| && 0 <= b < |s.workers| && Holds(s.workers[a]) && Holds(s.workers[b]) :: a == b)
    && (forall w | 0 <= w < |s.workers| && s.workers[w].Taking? :: s.q != [])
  }

  lemma ExclusiveNext(s: State, step: Step)
    requires Exclusive(s) && Enabled(s, step)
    ensures Exclusive(Next(s, step))
  {
  }

  lemma NoStrandedNext(s: State, step: Step)
    requires NoStranded(s) && Enabled(s, step)
    ensures NoStranded(Next(s, step))
  {
    hide Sum;
    var s' := Next(s, step);
    match step
    case Prepare(i, task, c) => SumUpdate(s.submitters, i, s'.submitters[i], Owes);
    case Push(i) => SumUpdate(s.submitters, i, Pushed, Owes);
    case Signal(i, woken) =>
      SumUpdate(s.submitters, i, Outside, Owes);
      if woken.Some? { SumUpdate(s.workers, woken.value, Woken, Seeks); }
    case _ => SumUpdate(s.workers, step.w, s'.workers[step.w], Seeks);
  }

  // ---- Conservation ----

  /** Every start is in the hands of one worker or finished, and the tasks start in the order
      of submission. */
  ghost predicate Accounted(s: State) {
    && s.submitted == s.started + s.q
    && (forall w | 0 <= w < |s.workers| && InTask(s.workers[w]) ::
          s.workers[w].n < |s.started| && s.workers[w].n !in s.finished)
    && (forall a, b | 0 <= a < b < |s.workers| && InTask(s.workers[a]) && InTask(s.workers[b]) ::
          s.workers[a].n != s.workers[b].n)
    && (forall n | n in s.finished :: n < |s.started|)
    && (forall n | 0 <= n < |s.started| && n !in s.finished :: InHand(s, n))
  }

  ghost predicate InHand(s: State, n: nat) {
    exists w | 0 <= w < |s.workers| :: InTask(s.workers[w]) && s.workers[w].n == n
  }

  /** A step of one worker that neither pops nor finishes. */
  lemma HandsKept(s: State, s': State, w: nat)
    requires Accounted(s)
    requires w < |s.workers| == |s'.workers| && s'.workers == s.workers[w := s'.workers[w]]
    requires InTask(s.workers[w]) <==> InTask(s'.workers[w])
    requires InTask(s.workers[w]) ==> s'.workers[w].n == s.workers[w].n
    requires s'.submitted == s.submitted && s'.started == s.started && s'.q == s.q && s'.finished == s.finished
    ensures Accounted(s')
  {
    forall n | InHand(s, n)
      ensures InHand(s', n)
    {
      var a :| 0 <= a < |s.workers| && InTask(s.workers[a]) && s.workers[a].n == n;
      assert InTask(s'.workers[a]) && s'.workers[a].n == n;
    }
  }

  lemma AccountedNext(s: State, step: Step)
    requires Accounted(s) && Enabled(s, step)
    ensures Accounted(Next(s, step))
  {
    hide Accounted;
    var s' := Next(s, step);
    match step
    case Prepare(i, task, c) => NoWorkerAccounted(s, s');
    case Push(i) => PushAccounted(s, i);
    case Signal(i, woken) =>
      if woken.Some? { HandsKept(s, s', woken.value); } else { NoWorkerAccounted(s, s'); }
    case Pop(w) => PopAccounted(s, w);
    case Finish(w) => FinishAccounted(s, w);
    case _ => HandsKept(s, s', step.w);
  }

  lemma NoWorkerAccounted(s: State, s': State)
    requires Accounted(s) && s'.workers == s.workers
    requires s'.submitted == s.submitted && s'.started == s.started && s'.q == s.q && s'.finished == s.finished
    ensures Accounted(s')
  {
    assert forall n | InHand(s, n) :: InHand(s', n);
  }

  lemma PushAccounted(s: State, i: nat)
    requires Accounted(s) && Enabled(s, Push(i))
    ensures Accounted(Next(s, Push(i)))
  {
    var s' := Next(s, Push(i));
    assert forall n | InHand(s, n) :: InHand(s', n);
    assert s.started + (s.q + [s.submitters[i].task]) == (s.started + s.q) + [s.submitters[i].task];
  }

  lemma PopAccounted(s: State, w: nat)
    requires Accounted(s) && Enabled(s, Pop(w))
    ensures Accounted(Next(s, Pop(w)))
  {
    var s' := Next(s, Pop(w));
    forall n | InHand(s, n)
      ensures InHand(s', n)
    {
      var a :| 0 <= a < |s.workers| && InTask(s.workers[a]) && s.workers[a].n == n;
      assert InTask(s'.workers[a]) && s'.workers[a].n == n;
    }
    assert InTask(s'.workers[w]) && s'.workers[w].n == |s.started|;
    assert s.q == [s.q[0]] + s.q[1..];
  }

  lemma FinishAccounted(s: State, w: nat)
    requires Accounted(s) && Enabled(s, Finish(w))
    ensures Accounted(Next(s, Finish(w)))
  {
    var s' := Next(s, Finish(w));
    forall n | 0 <= n < |s'.started| && n !in s'.finished
      ensures InHand(s', n)
    {
      var a :| 0 <= a < |s.workers| && InTask(s.workers[a]) && s.workers[a].n == n;
      assert s'.workers[a] == s.workers[a];
    }
  }

  // ---- Results ----

  /** Submitted or about to be. */
  ghost predicate InSystem(s: State, task: Task) {
    task in s.submitted || Prepared(task) in s.submitters
  }

  /** Futures and coroutines pair off. */
  ghost predicate Paired(s: State) {
    && (forall t | InSystem(s, t) :: t.tsk in s.inp)
    && (forall i, j | 0 <= i < j < |s.submitted| :: s.submitted[i].tsk != s.submitted[j].tsk)
    && (forall i, j | 0 <= i < |s.submitters| && s.submitters[i].Prepared? && 0 <= j < |s.submitted| ::
          s.submitters[i].task.tsk != s.submitted[j].tsk)
    && (forall i, j | 0 <= i < j < |s.submitters| && s.submitters[i].Prepared? && s.submitters[j].Prepared? ::
          s.submitters[i].task.tsk != s.submitters[j].task.tsk)
    && (forall f, g | f in s.inp && g in s.inp && f != g :: s.inp[f] != s.inp[g])
  }

  lemma PairedNext(s: State, step: Step)
    requires Paired(s) && Enabled(s, step)
    ensures Paired(Next(s, step))
  {
    match step
    case Prepare(i, task, c) => PreparePaired(s, i, task, c);
    case Push(i) => PushPaired(s, i);
    case Signal(i, woken) => SignalPaired(s, i, woken);
    case _ =>
      var s' := Next(s, step);
      assert forall t | InSystem(s', t) :: InSystem(s, t);
  }

  lemma PreparePaired(s: State, i: nat, task: Task, c: nat)
    requires Paired(s) && Enabled(s, Prepare(i, task, c))
    ensures Paired(Next(s, Prepare(i, task, c)))
  {
    var s' := Next(s, Prepare(i, task, c));
    assert forall j | 0 <= j < |s.submitters| && s.submitters[j].Prepared? :: InSystem(s, s.submitters[j].task);
    assert forall j | 0 <= j < |s.submitted| :: InSystem(s, s.submitted[j]);
    forall f | f in s.inp
      ensures s.inp[f] != c
    {
      assert s.inp[f] in s.inp.Values;
    }
    forall t | InSystem(s', t)
      ensures t.tsk in s'.inp
    {
      assert InSystem(s, t) || t == task;
    }
  }

  lemma PushPaired(s: State, i: nat)
    requires Paired(s) && Enabled(s, Push(i))
    ensures Paired(Next(s, Push(i)))
  {
    var s' := Next(s, Push(i));
    assert forall j | 0 <= j < |s.submitters| && s.submitters[j].Prepared? :: InSystem(s, s.submitters[j].task);
    assert forall j | 0 <= j < |s.submitted| :: InSystem(s, s.submitted[j]);
    var pushed := s.submitters[i].task;
    forall t | InSystem(s', t)
      ensures InSystem(s, t)
    {
      if t !in s.submitted && t != pushed {
        var j :| 0 <= j < |s'.submitters| && s'.submitters[j] == Prepared(t);
        assert s.submitters[j] == Prepared(t);
      }
    }
  }

  lemma SignalPaired(s: State, i: nat, woken: Option<nat>)
    requires Paired(s) && Enabled(s, Signal(i, woken))
    ensures Paired(Next(s, Signal(i, woken)))
  {
    var s' := Next(s, Signal(i, woken));
    forall t | InSystem(s', t)
      ensures InSystem(s, t)
    {
      if t !in s.submitted {
        var j :| 0 <= j < |s'.submitters| && s'.submitters[j] == Prepared(t);
        assert s.submitters[j] == Prepared(t);
      }
    }
  }

  /** The output block of a future is what its own coroutine returned. */
  ghost predicate HoldsResult(s: State, f: nat) {
    && f in s.inp && s.inp[f] in s.returned
    && (if s.returned[s.inp[f]].Some? then f in s.out && s.out[f] == s.returned[s.inp[f]].value else f !in s.out)
  }

  /** Nothing has come out of this task yet. */
  ghost predicate Untouched(s: State, f: nat) {
    f in s.inp && s.inp[f] !in s.returned && f !in s.out && f !in s.ready
  }

  ghost predicate WorkerResult(s: State, w: Worker) {
    InTask(w) ==>
      && Known(s, w.n)
      && (var t := s.started[w.n];
          && (w.Got? || w.Running? || w.Blocked? ==> Untouched(s, t.tsk))
          && (w.Returned? ==>
                s.inp[t.tsk] in s.returned && s.returned[s.inp[t.tsk]] == w.v && t.tsk !in s.out && t.tsk !in s.ready)
          && (w.Filled? && t.isFuture ==> HoldsResult(s, t.tsk))
          && (w.Ready? && t.isFuture ==> t.tsk in s.ready))
  }

  ghost predicate Results(s: State) {
    && (forall f | f in s.ready :: HoldsResult(s, f))
    && (forall w | 0 <= w < |s.workers| :: WorkerResult(s, s.workers[w]))
    && (forall i | 0 <= i < |s.q| :: Untouched(s, s.q[i].tsk))
    && (forall i | 0 <= i < |s.submitters| && s.submitters[i].Prepared? :: Untouched(s, s.submitters[i].task.tsk))
    && (forall f | f in s.out :: f in s.inp)
    && (forall c | c in s.returned :: c in s.inp.Values)
    && (forall n | n in s.finished :: FinishedReady(s, n))
  }

  ghost predicate FinishedReady(s: State, n: nat) {
    n < |s.started| && (s.started[n].isFuture ==> s.started[n].tsk in s.ready)
  }

  ghost predicate Inv(s: State) {
    Exclusive(s) && NoStranded(s) && Accounted(s) && Paired(s) && Results(s)
  }

  /** The task of start n is not queued, not prepared, and not the task of another start. */
  lemma TaskApart(s: State, n: nat)
    requires Accounted(s) && Paired(s) && n < |s.started|
    ensures forall i | 0 <= i < |s.q| :: s.q[i].tsk != s.started[n].tsk
    ensures forall i | 0 <= i < |s.submitters| && s.submitters[i].Prepared? :: s.submitters[i].task.tsk != s.started[n].tsk
    ensures forall m | 0 <= m < |s.started| && m != n :: s.started[m].tsk != s.started[n].tsk
  {
    assert s.submitted[n] == s.started[n];
    assert forall i | 0 <= i < |s.q| :: s.submitted[|s.started| + i] == s.q[i];
    assert forall m | 0 <= m < |s.started| :: s.submitted[m] == s.started[m];
  }

  /** A step of worker w that touches no other task than the one in its hands. */
  lemma ResultsFrame(s: State, s': State, w: nat, f: nat)
    requires Accounted(s) && Paired(s) && Results(s)
    requires w < |s.workers| && InTask(s.workers[w]) && Known(s, s.workers[w].n) && f == s.started[s.workers[w].n].tsk
    requires |s'.workers| == |s.workers| && s'.workers == s.workers[w := s'.workers[w]] && WorkerResult(s', s'.workers[w])
    requires s'.inp == s.inp && s'.started == s.started && s'.q == s.q && s'.submitters == s.submitters
    requires s'.finished == s.finished
    requires forall g | g != f :: (g in s'.out <==> g in s.out) && (g in s.out ==> s'.out[g] == s.out[g])
    requires s'.ready == s.ready || s'.ready == s.ready + {f}
    requires forall c | c != s.inp[f] ::
      (c in s'.returned <==> c in s.returned) && (c in s.returned ==> s'.returned[c] == s.returned[c])
    requires f in s'.ready ==> HoldsResult(s', f)
    ensures Results(s')
  {
    TaskApart(s, s.workers[w].n);
    forall g | g in s.inp && g != f
      ensures HoldsResult(s, g) ==> HoldsResult(s', g)
      ensures Untouched(s, g) ==> Untouched(s', g)
      ensures s.inp[g] in s.returned ==> s.inp[g] in s'.returned && s'.returned[s.inp[g]] == s.returned[s.inp[g]]
    {
    }
    hide Accounted, Paired, HoldsResult;
    forall a | 0 <= a < |s.workers| && a != w
      ensures WorkerResult(s', s'.workers[a])
    {
      assert WorkerResult(s, s.workers[a]);
      if InTask(s.workers[a]) { OtherHands(s, w, a); }
    }
    hide WorkerResult;
    assert s.inp[f] in s.inp.Values;
    assert forall m | m in s.finished :: FinishedReady(s, m);
  }

  /** Two workers have different tasks in their hands. */
  lemma OtherHands(s: State, w: nat, a: nat)
    requires Accounted(s) && Paired(s) && w < |s.workers| && a < |s.workers| && a != w
    requires InTask(s.workers[w]) && InTask(s.workers[a])
    ensures s.workers[a].n < |s.started| && s.workers[w].n < |s.started|
    ensures s.started[s.workers[a].n].tsk != s.started[s.workers[w].n].tsk
  {
    TaskApart(s, s.workers[w].n);
  }

  /** A step after which every task stands as before. */
  lemma ResultsSame(s: State, s': State)
    requires Results(s)
    requires s'.inp == s.inp && s'.out == s.out && s'.ready == s.ready && s'.returned == s.returned
    requires s.started <= s'.started
    requires |s'.workers| == |s.workers|
    requires forall n | n in s'.finished && n !in s.finished :: FinishedReady(s', n)
    requires forall a | 0 <= a < |s.workers| && s'.workers[a] != s.workers[a] :: WorkerResult(s', s'.workers[a])
    requires forall i | 0 <= i < |s'.q| :: Untouched(s, s'.q[i].tsk)
    requires forall i | 0 <= i < |s'.submitters| && s'.submitters[i].Prepared? :: Untouched(s, s'.submitters[i].task.tsk)
    ensures Results(s')
  {
    forall a | 0 <= a < |s.workers|
      ensures WorkerResult(s', s'.workers[a])
    {
      assert WorkerResult(s, s.workers[a]);
      if s'.workers[a] == s.workers[a] && InTask(s.workers[a]) {
        assert s'.started[s.workers[a].n] == s.started[s.workers[a].n];
      }
    }
    assert forall m | m in s.finished :: FinishedReady(s, m);
  }

  lemma PrepareResults(s: State, i: nat, task: Task, c: nat)
    requires Paired(s) && Results(s) && Enabled(s, Prepare(i, task, c))
    ensures Results(Next(s, Prepare(i, task, c)))
  {
    var s' := Next(s, Prepare(i, task, c));
    forall f | f in s.inp
      ensures f in s'.inp && s'.inp[f] == s.inp[f] && s.inp[f] in s'.inp.Values
      ensures HoldsResult(s, f) ==> HoldsResult(s', f)
      ensures Untouched(s, f) ==> Untouched(s', f)
    {
      assert s'.inp[f] in s'.inp.Values;
    }
    forall x | x in s.returned
      ensures x in s'.inp.Values
    {
      var f :| f in s.inp && s.inp[f] == x;
      assert s'.inp[f] in s'.inp.Values;
    }
    forall a | 0 <= a < |s.workers|
      ensures WorkerResult(s', s'.workers[a])
    {
      assert WorkerResult(s, s.workers[a]);
    }
    assert task.tsk !in s.ready;
    assert forall m | m in s.finished :: FinishedReady(s, m);
    assert c !in s.returned;
    assert Untouched(s', task.tsk);
  }

  lemma ResultsNext(s: State, step: Step)
    requires Accounted(s) && Paired(s) && Results(s) && Enabled(s, step)
    ensures Results(Next(s, step))
  {
    hide Accounted, Paired, Results, Next;
    match step
    case Prepare(i, task, c) => PrepareResults(s, i, task, c);
    case Return(_, _) => WriteResults(s, step);
    case Fill(_) => WriteResults(s, step);
    case MarkReady(_) => WriteResults(s, step);
    case Push(_) => QueueResults(s, step);
    case Signal(_, _) => QueueResults(s, step);
    case Lock(_) => QueueResults(s, step);
    case Test(_) => QueueResults(s, step);
    case Spurious(_) => QueueResults(s, step);
    case _ => HandResults(s, step);
  }

  /** Steps around the queue. */
  lemma QueueResults(s: State, step: Step)
    requires Results(s) && Enabled(s, step)
    requires step.Push? || step.Signal? || step.Lock? || step.Test? || step.Spurious?
    ensures Results(Next(s, step))
  {
    ResultsSame(s, Next(s, step));
  }

  /** Steps of a worker with a task that write nothing. */
  lemma HandResults(s: State, step: Step)
    requires Results(s) && Enabled(s, step)
    requires step.Pop? || step.Unlock? || step.Await? || step.Resume? || step.Finish?
    ensures Results(Next(s, step))
  {
    assert WorkerResult(s, s.workers[step.w]);
    if step.Pop? { assert Untouched(s, s.q[0].tsk); }
    ResultsSame(s, Next(s, step));
  }

  /** Steps of a worker that write the outcome of its task. */
  lemma WriteResults(s: State, step: Step)
    requires Accounted(s) && Paired(s) && Results(s) && Enabled(s, step)
    requires step.Return? || step.Fill? || step.MarkReady?
    ensures Results(Next(s, step))
  {
    hide Accounted, Paired;
    assert WorkerResult(s, s.workers[step.w]);
    var s', f := Next(s, step), s.started[s.workers[step.w].n].tsk;
    assert step.MarkReady? ==> (HoldsResult(s, f) ==> HoldsResult(s', f));
    ResultsFrame(s, s', step.w, f);
  }

  // ---- Main results ----

  lemma InvInitial(s: State)
    requires Initial(s)
    ensures Inv(s)
  {
    hide Sum, Seeks, Owes;
    assert Exclusive(s) && NoStranded(s) && Accounted(s);
    assert Paired(s) && Results(s) by {
      assert forall w | 0 <= w < |s.workers| :: s.workers[w].Want?;
    }
  }

  lemma {:induction false} InvRun(from: State, steps: seq<Step>, to: State)
    requires Inv(from) && Run(from, steps, to)
    ensures Inv(to)
    decreases |steps|
  {
    hide Exclusive, NoStranded, Accounted, Paired, Results, Next, Enabled;
    if steps != [] {
      ExclusiveNext(from, steps[0]);
      NoStrandedNext(from, steps[0]);
      AccountedNext(from, steps[0]);
      PairedNext(from, steps[0]);
      ResultsNext(from, steps[0]);
      InvRun(Next(from, steps[0]), steps[1..], to);
    }
  }

  /** In every reachable state, if a worker sleeps then each queued task is matched by a
      submitter that has yet to signal or by a worker that will look at the queue again. */
  lemma NoStrandedTask(from: State, steps: seq<Step>, s: State)
    requires Initial(from) && Run(from, steps, s)
    requires exists w | 0 <= w < |s.workers| :: s.workers[w].Sleeping?
    ensures |s.q| <= Sum(s.submitters, Owes) + Sum(s.workers, Seeks)
  {
    InvInitial(from);
    InvRun(from, steps, s);
  }

  /** In every reachable state the submitted tasks are, in order, the started ones and then the
      queued ones, and each start is in the hands of exactly one worker or finished. */
  lemma Conservation(from: State, steps: seq<Step>, s: State)
    requires Initial(from) && Run(from, steps, s)
    ensures s.submitted == s.started + s.q
    ensures forall n | 0 <= n < |s.started| :: n in s.finished <==> !InHand(s, n)
    ensures forall a, b | 0 <= a < b < |s.workers| && InTask(s.workers[a]) && InTask(s.workers[b]) ::
      s.workers[a].n != s.workers[b].n
    ensures forall i, j | 0 <= i < j < |s.submitted| :: s.submitted[i].tsk != s.submitted[j].tsk
  {
    InvInitial(from);
    InvRun(from, steps, s);
  }

  /** What await_future copies out of a ready future is the result of its own coroutine. */
  lemma ReadyHoldsOwnResult(from: State, steps: seq<Step>, s: State, f: nat)
    requires Initial(from) && Run(from, steps, s) && f in s.ready
    ensures f in s.inp && s.inp[f] in s.returned
    ensures s.returned[s.inp[f]] == if f in s.out then Some(s.out[f]) else None
  {
    InvInitial(from);
    InvRun(from, steps, s);
    assert HoldsResult(s, f);
  }

  // ---- Every task is taken and finished ----

  /** What a pool left to itself does: no new submission, no spurious wake-up, and no
      coroutine that begins to wait. */
  predicate Quiet(step: Step) { !step.Prepare? && !step.Spurious? && !step.Await? }

  function Weight(w: Worker): nat {
    match w
    case Sleeping => 0
    case Taking => 1
    case Testing => 2
    case Want => 3
    case Woken => 3
    case Ready(_) => 4
    case Filled(_) => 5
    case Returned(_, _) => 6
    case Running(_) => 7
    case Blocked(_, _) => 8
    case Got(_) => 8
  }

  function Debt(b: Submitter): nat {
    match b
    case Outside => 0
    case Pushed => 4
    case Prepared(_) => 16
  }

  function Measure(s: State): nat { Sum(s.workers, Weight) + Sum(s.submitters, Debt) + 11 * |s.q| }

  lemma StepDecreases(s: State, step: Step)
    requires Enabled(s, step) && Quiet(step)
    ensures Measure(Next(s, step)) < Measure(s)
  {
    hide Sum;
    var s' := Next(s, step);
    match step
    case Push(i) => SumUpdate(s.submitters, i, Pushed, Debt);
    case Signal(i, woken) =>
      SumUpdate(s.submitters, i, Outside, Debt);
      if woken.Some? { SumUpdate(s.workers, woken.value, Woken, Weight); }
    case Prepare(_, _, _) => assert false;
    case Spurious(_) => assert false;
    case Await(_, _) => assert false;
    case _ => SumUpdate(s.workers, step.w, s'.workers[step.w], Weight);
  }

  /** Left to itself a pool makes finitely many steps, in any schedule. */
  lemma {:induction false} QuietRunsEnd(from: State, steps: seq<Step>, to: State)
    requires Run(from, steps, to) && forall x | x in steps :: Quiet(x)
    ensures |steps| + Measure(to) <= Measure(from)
    decreases |steps|
  {
    hide Enabled, Next, Measure;
    if steps != [] {
      assert steps[0] in steps;
      StepDecreases(from, steps[0]);
      QuietRunsEnd(Next(from, steps[0]), steps[1..], to);
    }
  }

  /** Every submission has been finished and every thread is at rest. */
  ghost predicate Settled(s: State) {
    && s.q == [] && s.submitted == s.started
    && (forall n | 0 <= n < |s.started| :: n in s.finished)
    && (forall i | 0 <= i < |s.submitters| :: s.submitters[i].Outside?)
    && (forall w | 0 <= w < |s.workers| :: s.workers[w].Sleeping?)
  }

  /** The worker waits for a future that is not ready. */
  predicate Stuck(s: State, w: Worker) { w.Blocked? && w.on !in s.ready }

  /** A worker that is awake and not stuck can move, or waits for one that can. */
  lemma WorkerMoves(s: State, w: nat) returns (step: Step)
    requires Inv(s) && w < |s.workers| && !s.workers[w].Sleeping? && !Stuck(s, s.workers[w])
    ensures Quiet(step) && Enabled(s, step)
  {
    hide NoStranded, Accounted, Paired;
    assert WorkerResult(s, s.workers[w]);
    match s.workers[w]
    case Testing => step := Test(w);
    case Taking => step := Pop(w);
    case Got(n) => step := Unlock(w);
    case Running(n) => step := Return(w, None);
    case Blocked(n, on) => step := Resume(w);
    case Returned(n, v) => step := Fill(w);
    case Filled(n) => step := MarkReady(w);
    case Ready(n) => step := Finish(w);
    case _ =>
      if MutexFree(s) {
        step := Lock(w);
      } else {
        step := HolderMoves(s);
      }
  }

  lemma HolderMoves(s: State) returns (step: Step)
    requires Exclusive(s) && !MutexFree(s)
    ensures Quiet(step) && Enabled(s, step)
  {
    var h :| 0 <= h < |s.workers| && Holds(s.workers[h]);
    step := if s.workers[h].Testing? then Test(h) else if s.workers[h].Taking? then Pop(h) else Unlock(h);
  }

  lemma SubmitterMoves(s: State, i: nat) returns (step: Step)
    requires Inv(s) && i < |s.submitters| && !s.submitters[i].Outside?
    ensures Quiet(step) && Enabled(s, step)
  {
    hide NoStranded, Accounted, Paired, Results;
    if s.submitters[i].Pushed? {
      if w :| 0 <= w < |s.workers| && s.workers[w].Sleeping? {
        step := Signal(i, Some(w));
      } else {
        step := Signal(i, None);
      }
    } else if MutexFree(s) {
      step := Push(i);
    } else {
      step := HolderMoves(s);
    }
  }

  /** Left to itself the pool can do nothing more. */
  ghost predicate AtRest(s: State) { forall step | Quiet(step) :: !Enabled(s, step) }

  /** At rest every submitter is through, every worker sleeps or is stuck, and tasks are left
      in the queue only if all of them are stuck. */
  lemma RestShape(s: State)
    requires Inv(s) && AtRest(s)
    ensures forall i | 0 <= i < |s.submitters| :: s.submitters[i].Outside?
    ensures forall w | 0 <= w < |s.workers| :: s.workers[w].Sleeping? || Stuck(s, s.workers[w])
    ensures s.q != [] ==> forall w | 0 <= w < |s.workers| :: s.workers[w].Blocked?
  {
    forall i | 0 <= i < |s.submitters|
      ensures s.submitters[i].Outside?
    {
      if !s.submitters[i].Outside? { var step := SubmitterMoves(s, i); }
    }
    forall w | 0 <= w < |s.workers|
      ensures s.workers[w].Sleeping? || Stuck(s, s.workers[w])
    {
      if !s.workers[w].Sleeping? && !Stuck(s, s.workers[w]) { var step := WorkerMoves(s, w); }
    }
    SumZero(s.workers, Seeks);
    SumZero(s.submitters, Owes);
  }

  /** A pool at rest has run every submitted task to its end if and only if no worker waits and
      the queue is empty. */
  lemma SettledIffNoneBlocked(s: State)
    requires Inv(s) && AtRest(s)
    ensures Settled(s) <==> s.q == [] && forall w | 0 <= w < |s.workers| :: !s.workers[w].Blocked?
  {
    RestShape(s);
    if s.q == [] && forall w | 0 <= w < |s.workers| :: !s.workers[w].Blocked? {
      forall n | 0 <= n < |s.started|
        ensures n in s.finished
      {
        assert !InHand(s, n);
      }
    }
  }

  /** Coroutines wait only for submitted futures, and never in a circle. */
  ghost predicate Ordered(s: State, rank: nat -> nat) {
    forall w | 0 <= w < |s.workers| && s.workers[w].Blocked? ::
      && Task(true, s.workers[w].on) in s.submitted
      && s.workers[w].n < |s.started|
      && rank(s.workers[w].on) < rank(s.started[s.workers[w].n].tsk)
  }

  /** All workers wait while tasks are queued. */
  ghost predicate Starved(s: State) {
    s.q != [] && forall w | 0 <= w < |s.workers| :: s.workers[w].Blocked?
  }

  /** A started future that is not ready is in the hands of some worker. */
  lemma Holder(s: State, i: nat) returns (v: nat)
    requires Accounted(s) && Results(s)
    requires i < |s.started| && s.started[i].isFuture && s.started[i].tsk !in s.ready
    ensures v < |s.workers| && InTask(s.workers[v]) && s.workers[v].n == i
  {
    assert forall m | m in s.finished :: FinishedReady(s, m);
    assert InHand(s, i);
    v :| 0 <= v < |s.workers| && InTask(s.workers[v]) && s.workers[v].n == i;
  }

  /** With an empty queue the future a stuck worker waits for is in the hands of another stuck
      worker, of lower rank. */
  lemma {:induction false} NoneStuck(s: State, rank: nat -> nat, w: nat)
    requires Inv(s) && AtRest(s) && Ordered(s, rank) && s.q == [] && w < |s.workers|
    ensures !s.workers[w].Blocked?
    decreases if s.workers[w].Blocked? then rank(s.workers[w].on) + 1 else 0
  {
    if s.workers[w].Blocked? {
      hide NoStranded, Paired, Exclusive;
      RestShape(s);
      var on := s.workers[w].on;
      var i :| 0 <= i < |s.submitted| && s.submitted[i] == Task(true, on);
      assert s.started[i] == Task(true, on);
      var v := Holder(s, i);
      NoneStuck(s, rank, v);
    }
  }

  /** A pool at rest has run every submitted task to its end, if and only if it is not the case
      that every worker waits while the queue still holds tasks. */
  lemma SettledIffNotStarved(from: State, steps: seq<Step>, s: State, rank: nat -> nat)
    requires Initial(from) && Run(from, steps, s) && |s.workers| > 0
    requires AtRest(s) && Ordered(s, rank)
    ensures Settled(s) <==> !Starved(s)
  {
    InvInitial(from);
    InvRun(from, steps, s);
    RestShape(s);
    SettledIffNoneBlocked(s);
    if s.q == [] {
      forall w | 0 <= w < |s.workers|
        ensures !s.workers[w].Blocked?
      {
        NoneStuck(s, rank, w);
      }
    }
  }

  /** In particular, coroutines that do not wait for work of their own pool are all run. */
  lemma EveryTaskFinishes(from: State, steps: seq<Step>, s: State)
    requires Initial(from) && Run(from, steps, s) && |s.workers| > 0 && AtRest(s)
    requires forall w | 0 <= w < |s.workers| :: !s.workers[w].Blocked?
    ensures Settled(s)
  {
    InvInitial(from);
    InvRun(from, steps, s);
    RestShape(s);
    SettledIffNoneBlocked(s);
  }
}
