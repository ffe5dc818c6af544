/** asyncio_gather against the completion code of the pool workers (asyncio.c, thr-pool.c), as
    a step machine over one gatherer and one worker thread for each future.  Condition
    variables follow section 7.26.3 of ISO/IEC 9899:2011. */
module Gather {
  import opened Bytes
  import opened Wrappers
  import opened Tally

  /** The gathering thread.  Futures below r are registered: their shared fields are set. */
  datatype Gatherer =
    | Registering(r: nat)
    | Locking           // before mtx_lock
    | Testing           // holds the mutex, at the test of done
    | Sleeping          // in cnd_wait
    | Waking            // cnd_wait is taking the mutex back
    | Leaving           // holds the mutex, done was not below fut_sz
    | Collecting(i: nat)
    | Over

  /** The worker that completes one future. */
  datatype Worker =
    | Busy                // in the coroutine
    | Finished            // the coroutine has returned
    | Ready               // out_block is written, is_ready is set
    | Seen                // has found the shared fields set
    | Counted             // has added one to done
    | Locked              // holds the mutex, before cnd_broadcast
    | Told                // has broadcast, holds the mutex
    | Left(missed: bool)  // done with the future; missed: the shared fields were not set

  /** `own` is what each coroutine returned; the code keeps it in out_block only.  None is
      NULL, for which out_block stays empty. */
  datatype State = State(
    gatherer: Gatherer,
    workers: seq<Worker>,
    done: nat,
    own: seq<Option<U64>>,
    out: seq<Option<U64>>,
    results: seq<Option<U64>>)

  datatype Step =
    | Register
    | Lock
    | Test
    | Spurious
    | Unlock
    | Collect
    | Return(i: nat, v: Option<U64>)
    | Publish(i: nat)
    | Check(i: nat)
    | Count(i: nat)
    | Acquire(i: nat)
    | Broadcast(i: nat)
    | Release(i: nat)

  predicate Holds(w: Worker) { w.Locked? || w.Told? }

  predicate GathererHolds(s: State) { s.gatherer.Testing? || s.gatherer.Leaving? }

  predicate MutexFree(s: State) {
    !GathererHolds(s) && forall i | 0 <= i < |s.workers| :: !Holds(s.workers[i])
  }

  predicate Registered(s: State, i: nat) { s.gatherer.Registering? ==> i < s.gatherer.r }

  predicate Shape(s: State) { |s.own| == |s.out| == |s.workers| }

  predicate Enabled(s: State, step: Step) {
    Shape(s) &&
    match step
    case Register => s.gatherer.Registering?
    case Lock => (s.gatherer.Locking? || s.gatherer.Waking?) && MutexFree(s)
    case Test => s.gatherer.Testing?
    case Spurious => s.gatherer.Sleeping?
    case Unlock => s.gatherer.Leaving?
    case Collect => s.gatherer.Collecting?
    case Return(i, _) => i < |s.workers| && s.workers[i].Busy?
    case Publish(i) => i < |s.workers| && s.workers[i].Finished?
    case Check(i) => i < |s.workers| && s.workers[i].Ready?
    case Count(i) => i < |s.workers| && s.workers[i].Seen?
    case Acquire(i) => i < |s.workers| && s.workers[i].Counted? && MutexFree(s)
    case Broadcast(i) => i < |s.workers| && s.workers[i].Locked?
    case Release(i) => i < |s.workers| && s.workers[i].Told?
  }

  function Next(s: State, step: Step): State
    requires Enabled(s, step)
  {
    match step
    case Register =>
      var r := s.gatherer.r;
      s.(gatherer := if r < |s.workers| then Registering(r + 1) else Locking)
    case Lock => s.(gatherer := Testing)
    case Test => s.(gatherer := if s.done < |s.workers| then Sleeping else Leaving)
    case Spurious => s.(gatherer := Waking)
    case Unlock => s.(gatherer := Collecting(0))
    case Collect =>
      var i := s.gatherer.i;
      if i < |s.workers| then s.(gatherer := Collecting(i + 1), results := s.results + [s.out[i]])
      else s.(gatherer := Over)
    case Return(i, v) => s.(workers := s.workers[i := Finished], own := s.own[i := v])
    case Publish(i) => s.(workers := s.workers[i := Ready], out := s.out[i := s.own[i]])
    case Check(i) => s.(workers := s.workers[i := if Registered(s, i) then Seen else Left(true)])
    case Count(i) => s.(workers := s.workers[i := Counted], done := s.done + 1)
    case Acquire(i) => s.(workers := s.workers[i := Locked])
    case Broadcast(i) =>
      s.(workers := s.workers[i := Told], gatherer := if s.gatherer.Sleeping? then Waking else s.gatherer)
    case Release(i) => s.(workers := s.workers[i := Left(false)])
  }

  /** Gather is called when any number of the futures may already be on their way. */
  ghost predicate Initial(s: State) {
    && s.gatherer == Registering(0) && s.done == 0 && s.results == [] && Shape(s)
    && (forall i | 0 <= i < |s.workers| :: Early(s.workers[i]))
    && (forall i | 0 <= i < |s.workers| && s.workers[i] != Busy && s.workers[i] != Finished :: s.out[i] == s.own[i])
  }

  predicate Early(w: Worker) { w.Busy? || w.Finished? || w.Ready? || w == Left(true) }

  ghost predicate Run(from: State, steps: seq<Step>, to: State)
    decreases |steps|
  {
    if steps == [] then from == to
    else Enabled(from, steps[0]) && Run(Next(from, steps[0]), steps[1..], to)
  }

  // ---- The invariant ----

  function HasCounted(w: Worker): nat { if w.Counted? || w.Locked? || w.Told? || w == Left(false) then 1 else 0 }

  /** Some worker is between its increment and its broadcast. */
  ghost predicate Announcing(s: State) {
    exists i | 0 <= i < |s.workers| :: s.workers[i].Counted? || s.workers[i].Locked?
  }

  predicate Past(g: Gatherer) { g.Leaving? || g.Collecting? || g.Over? }

  ghost predicate Inv(s: State) {
    && Shape(s)
    && s.done == Sum(s.workers, HasCounted)
    && (s.gatherer.Sleeping? ==> s.done < |s.workers| || Announcing(s))
    && (Past(s.gatherer) ==> s.done == |s.workers|)
    && (forall i | 0 <= i < |s.workers| && !s.workers[i].Busy? && !s.workers[i].Finished? :: s.out[i] == s.own[i])
    && Collected(s)
    && Exclusive(s)
  }

  ghost predicate Collected(s: State)
    requires Shape(s)
  {
    var n := if s.gatherer.Collecting? then s.gatherer.i else if s.gatherer.Over? then |s.workers| else 0;
    n <= |s.workers| && s.results == s.out[..n]
  }

  ghost predicate Exclusive(s: State) {
    && (forall i, j | 0 <= i < |s.workers| && 0 <= j < |s.workers| && Holds(s.workers[i]) && Holds(s.workers[j]) :: i == j)
    && (GathererHolds(s) ==> forall i | 0 <= i < |s.workers| :: !Holds(s.workers[i]))
  }

  lemma InvInitial(s: State)
    requires Initial(s)
    ensures Inv(s)
  {
    SumZero(s.workers, HasCounted);
  }

  /** All have been counted exactly when the count is the number of futures. */
  lemma AllCounted(s: State)
    ensures Sum(s.workers, HasCounted) == |s.workers| <==> forall i | 0 <= i < |s.workers| :: HasCounted(s.workers[i]) == 1
    ensures Sum(s.workers, HasCounted) <= |s.workers|
  {
    SumFull(s.workers, HasCounted);
  }

  predicate OfGatherer(step: Step) {
    step.Register? || step.Lock? || step.Test? || step.Spurious? || step.Unlock? || step.Collect?
  }

  lemma GathererStep(s: State, step: Step)
    requires Inv(s) && Enabled(s, step)
    requires OfGatherer(step)
    ensures Inv(Next(s, step))
  {
    AllCounted(s);
  }

  lemma WorkerStep(s: State, step: Step)
    requires Inv(s) && Enabled(s, step) && !OfGatherer(step)
    ensures Inv(Next(s, step))
  {
    hide Exclusive;
    WorkerCounts(s, step);
    WorkerExclusive(s, step);
  }

  lemma WorkerExclusive(s: State, step: Step)
    requires Exclusive(s) && Enabled(s, step) && !OfGatherer(step)
    ensures Exclusive(Next(s, step))
  {
  }

  lemma WorkerCounts(s: State, step: Step)
    requires Inv(s) && Enabled(s, step) && !OfGatherer(step)
    ensures var s' := Next(s, step);
      && s'.done == Sum(s'.workers, HasCounted)
      && (s'.gatherer.Sleeping? ==> s'.done < |s'.workers| || Announcing(s'))
      && (Past(s'.gatherer) ==> s'.done == |s'.workers| && s'.out == s.out)
  {
    hide Exclusive, Collected;
    var s' := Next(s, step);
    AllCounted(s);
    SumUpdate(s.workers, step.i, s'.workers[step.i], HasCounted);
    AllCounted(s');
    if Past(s.gatherer) {
      assert HasCounted(s.workers[step.i]) == 1;
    }
    if s'.gatherer.Sleeping? && s'.done == |s'.workers| {
      StillAnnouncing(s, step);
    }
  }

  /** The announcing worker can only stop announcing by waking the gatherer. */
  lemma StillAnnouncing(s: State, step: Step)
    requires Inv(s) && Enabled(s, step) && !OfGatherer(step)
    requires Next(s, step).gatherer.Sleeping? && (step.Count? || Announcing(s))
    ensures Announcing(Next(s, step))
  {
    var s' := Next(s, step);
    if step.Count? {
      assert s'.workers[step.i].Counted?;
    } else {
      var i :| 0 <= i < |s.workers| && (s.workers[i].Counted? || s.workers[i].Locked?);
      assert s'.workers[i].Counted? || s'.workers[i].Locked?;
    }
  }

  lemma InvNext(s: State, step: Step)
    requires Inv(s) && Enabled(s, step)
    ensures Inv(Next(s, step))
  {
    if OfGatherer(step) {
      GathererStep(s, step);
    } else {
      WorkerStep(s, step);
    }
  }

  lemma {:induction false} InvRun(from: State, steps: seq<Step>, to: State)
    requires Inv(from) && Run(from, steps, to)
    ensures Inv(to)
    decreases |steps|
  {
    hide Inv, Enabled, Next;
    if steps != [] {
      InvNext(from, steps[0]);
      InvRun(Next(from, steps[0]), steps[1..], to);
    }
  }

  // ---- Main results ----

  /** A sleeping gatherer has a completion still to come: one not yet counted, or one whose
      broadcast is on its way. */
  lemma NeverMissesLast(from: State, steps: seq<Step>, s: State)
    requires Initial(from) && Run(from, steps, s) && s.gatherer.Sleeping?
    ensures s.done < |s.workers| || Announcing(s)
  {
    InvInitial(from);
    InvRun(from, steps, s);
  }

  predicate Missed(s: State) { exists i | 0 <= i < |s.workers| :: s.workers[i] == Left(true) }

  /** On return results[i] is what the coroutine of futures[i] returned, for every i. */
  lemma ReturnsOwnResults(from: State, steps: seq<Step>, s: State)
    requires Initial(from) && Run(from, steps, s) && s.gatherer.Over?
    ensures s.results == s.own && !Missed(s)
  {
    InvInitial(from);
    InvRun(from, steps, s);
    AllCounted(s);
    assert forall i | 0 <= i < |s.workers| :: HasCounted(s.workers[i]) == 1;
    assert s.out == s.own;
  }

  /** Everything but spurious wake-ups and coroutines that return. */
  predicate Quiet(step: Step) { !step.Spurious? && !step.Return? }

  /** Nothing more happens by itself. */
  ghost predicate AtRest(s: State) { forall step | Quiet(step) :: !Enabled(s, step) }

  /** At rest, the gatherer has returned if and only if every worker has counted its future;
      otherwise it sleeps. */
  lemma ReturnsIffAllCounted(s: State)
    requires Inv(s) && AtRest(s)
    ensures s.gatherer.Over? <==> forall i | 0 <= i < |s.workers| :: s.workers[i] == Left(false)
    ensures s.gatherer.Over? || s.gatherer.Sleeping?
  {
    RestShape(s);
    AllCounted(s);
    if s.gatherer.Over? {
      assert forall i | 0 <= i < |s.workers| :: HasCounted(s.workers[i]) == 1;
    }
    if forall i | 0 <= i < |s.workers| :: s.workers[i] == Left(false) {
      assert forall i | 0 <= i < |s.workers| :: HasCounted(s.workers[i]) == 1;
    }
  }

  /** Where no thread can move by itself, each worker is through or still in its coroutine, and
      the gatherer sleeps or is over. */
  lemma RestShape(s: State)
    requires Inv(s) && AtRest(s)
    ensures forall i | 0 <= i < |s.workers| :: s.workers[i].Left? || s.workers[i].Busy?
    ensures s.gatherer.Sleeping? || s.gatherer.Over?
  {
    if !MutexFree(s) {
      var step := HolderMoves(s);
      assert false;
    }
    forall i | 0 <= i < |s.workers|
      ensures s.workers[i].Left? || s.workers[i].Busy?
    {
      if !s.workers[i].Left? && !s.workers[i].Busy? {
        var step := WorkerMoves(s, i);
      }
    }
    if !s.gatherer.Sleeping? && !s.gatherer.Over? {
      var step := GathererMoves(s);
    }
  }

  lemma HolderMoves(s: State) returns (step: Step)
    requires Shape(s) && !MutexFree(s)
    ensures Quiet(step) && Enabled(s, step)
  {
    if GathererHolds(s) {
      step := if s.gatherer.Testing? then Test else Unlock;
    } else {
      var i :| 0 <= i < |s.workers| && Holds(s.workers[i]);
      step := if s.workers[i].Locked? then Broadcast(i) else Release(i);
    }
  }

  lemma WorkerMoves(s: State, i: nat) returns (step: Step)
    requires Shape(s) && i < |s.workers| && !s.workers[i].Left? && !s.workers[i].Busy? && MutexFree(s)
    ensures Quiet(step) && Enabled(s, step)
  {
    match s.workers[i]
    case Finished => step := Publish(i);
    case Ready => step := Check(i);
    case Seen => step := Count(i);
    case Counted => step := Acquire(i);
    case Locked => step := Broadcast(i);
    case Told => step := Release(i);
  }

  lemma GathererMoves(s: State) returns (step: Step)
    requires Shape(s) && !s.gatherer.Sleeping? && !s.gatherer.Over? && MutexFree(s)
    ensures Quiet(step) && Enabled(s, step)
  {
    match s.gatherer
    case Registering(_) => step := Register;
    case Locking => step := Lock;
    case Waking => step := Lock;
    case Collecting(_) => step := Collect;
    case _ => assert false;
  }

  /** A worker looked at the shared fields before gather had set them. */
  predicate Overtaken(from: State, steps: seq<Step>)
    decreases |steps|
  {
    steps != [] && Enabled(from, steps[0]) &&
    ((steps[0].Check? && !Registered(from, steps[0].i)) || Overtaken(Next(from, steps[0]), steps[1..]))
  }

  /** Which is what it takes for a future to be missed. */
  lemma {:induction false} MissedIffOvertaken(from: State, steps: seq<Step>, to: State)
    requires Run(from, steps, to)
    ensures Missed(to) <==> Missed(from) || Overtaken(from, steps)
    decreases |steps|
  {
    if steps != [] {
      var mid := Next(from, steps[0]);
      MissedIffOvertaken(mid, steps[1..], to);
      MissedStep(from, steps[0]);
    }
  }

  lemma MissedStep(s: State, step: Step)
    requires Enabled(s, step)
    ensures Missed(Next(s, step)) <==> Missed(s) || (step.Check? && !Registered(s, step.i))
  {
    var s' := Next(s, step);
    if i :| 0 <= i < |s.workers| && s.workers[i] == Left(true) {
      assert s'.workers[i] == Left(true);
    }
    if step.Check? && !Registered(s, step.i) {
      assert s'.workers[step.i] == Left(true);
    }
  }

  /** In a run at rest the gatherer has returned if and only if every coroutine has returned
      and no worker looked at the shared fields before gather had set them, in this run or
      before it. */
  lemma ReturnsIffNotOvertaken(from: State, steps: seq<Step>, s: State)
    requires Initial(from) && Run(from, steps, s) && AtRest(s)
    ensures s.gatherer.Over? <==>
      && (forall i | 0 <= i < |s.workers| :: !s.workers[i].Busy?)
      && !Missed(from) && !Overtaken(from, steps)
  {
    InvInitial(from);
    InvRun(from, steps, s);
    RestShape(s);
    ReturnsIffAllCounted(s);
    MissedIffOvertaken(from, steps, s);
    assert Missed(s) <==> exists i | 0 <= i < |s.workers| :: s.workers[i] == Left(true);
    assert forall i | 0 <= i < |s.workers| && s.workers[i].Left? :: s.workers[i] == Left(s.workers[i].missed);
  }

  lemma {:induction false} RunSnoc(from: State, steps: seq<Step>, s: State, step: Step)
    requires Run(from, steps, s) && Enabled(s, step)
    ensures Run(from, steps + [step], Next(s, step))
    decreases |steps|
  {
    if steps == [] {
      assert [step][1..] == [];
      assert Run(Next(s, step), [], Next(s, step));
    } else {
      hide Next, Enabled;
      RunSnoc(Next(from, steps[0]), steps[1..], s, step);
      assert (steps + [step])[1..] == steps[1..] + [step];
    }
  }

  /** A future whose worker is through before gather registers it: the gatherer sleeps for
      good. */
  lemma OvertakenExample() returns (from: State, steps: seq<Step>, s: State)
    ensures Initial(from) && Run(from, steps, s) && AtRest(s)
    ensures Overtaken(from, steps) && Missed(s) && s.gatherer.Sleeping?
  {
    from := State(Registering(0), [Ready], 0, [None], [None], []);
    var missed := from.(workers := [Left(true)]);
    s := missed.(gatherer := Sleeping);
    assert Run(from, [], from);
    assert Next(from, Check(0)) == missed;
    assert s.workers[0] == Left(true);
    hide Run;
    RunSnoc(from, [], from, Check(0));
    steps := AloneAsleep(from, [] + [Check(0)], missed, s);
    MissedIffOvertaken(from, steps, s);
  }

  lemma AloneAsleep(from: State, before: seq<Step>, s: State, to: State) returns (steps: seq<Step>)
    requires Run(from, before, s)
    requires s == State(Registering(0), [Left(true)], 0, [None], [None], []) && to == s.(gatherer := Sleeping)
    ensures Run(from, steps, to)
  {
    hide Run;
    var s1, s2, s3 := s.(gatherer := Registering(1)), s.(gatherer := Locking), s.(gatherer := Testing);
    assert Next(s, Register) == s1 && Next(s1, Register) == s2 && Next(s2, Lock) == s3 && Next(s3, Test) == to;
    hide Next;
    RunSnoc(from, before, s, Register);
    RunSnoc(from, before + [Register], s1, Register);
    RunSnoc(from, before + [Register] + [Register], s2, Lock);
    RunSnoc(from, before + [Register] + [Register] + [Lock], s3, Test);
    steps := before + [Register] + [Register] + [Lock] + [Test];
  }

  /** While gather collects and frees, workers are past their increment but need not be past
      their broadcast: each has counted, and nobody holds the mutex that gather is leaving. */
  lemma CollectingOverlap(from: State, steps: seq<Step>, s: State)
    requires Initial(from) && Run(from, steps, s) && Past(s.gatherer)
    ensures forall i | 0 <= i < |s.workers| ::
      s.workers[i].Counted? || s.workers[i].Locked? || s.workers[i].Told? || s.workers[i] == Left(false)
    ensures s.gatherer.Leaving? ==> forall i | 0 <= i < |s.workers| :: s.workers[i].Counted? || s.workers[i] == Left(false)
  {
    InvInitial(from);
    InvRun(from, steps, s);
    AllCounted(s);
    assert forall i | 0 <= i < |s.workers| :: HasCounted(s.workers[i]) == 1;
  }

  /** The overlap does happen: gather collects while the last worker is about to lock. */
  lemma OverlapExample() returns (from: State, steps: seq<Step>, s: State)
    ensures Initial(from) && Run(from, steps, s)
    ensures s.gatherer.Collecting? && |s.workers| == 1 && s.workers[0].Counted?
  {
    from := State(Registering(0), [Ready], 0, [None], [None], []);
    var counted := from.(gatherer := Locking, workers := [Counted], done := 1);
    var s1, s2 := counted.(gatherer := Testing), counted.(gatherer := Leaving);
    s := counted.(gatherer := Collecting(0));
    assert Next(counted, Lock) == s1 && Next(s1, Test) == s2 && Next(s2, Unlock) == s;
    hide Run, Next;
    var first := CountedFirst(from, counted);
    RunSnoc(from, first, counted, Lock);
    RunSnoc(from, first + [Lock], s1, Test);
    RunSnoc(from, first + [Lock] + [Test], s2, Unlock);
    steps := first + [Lock] + [Test] + [Unlock];
  }

  lemma CountedFirst(from: State, counted: State) returns (steps: seq<Step>)
    requires from == State(Registering(0), [Ready], 0, [None], [None], [])
    requires counted == from.(gatherer := Locking, workers := [Counted], done := 1)
    ensures Run(from, steps, counted)
  {
    var s1, s2 := from.(gatherer := Registering(1)), from.(gatherer := Locking);
    var s3 := s2.(workers := [Seen]);
    assert Run(from, [], from);
    assert Next(from, Register) == s1 && Next(s1, Register) == s2;
    assert Next(s2, Check(0)) == s3 && Next(s3, Count(0)) == counted;
    hide Run, Next;
    RunSnoc(from, [], from, Register);
    RunSnoc(from, [] + [Register], s1, Register);
    RunSnoc(from, [] + [Register] + [Register], s2, Check(0));
    RunSnoc(from, [] + [Register] + [Register] + [Check(0)], s3, Count(0));
    steps := [] + [Register] + [Register] + [Check(0)] + [Count(0)];
  }

  // ---- Every run ends ----

  function Weight(w: Worker): nat {
    match w
    case Left(_) => 0
    case Told => 1
    case Locked => 4
    case Counted => 5
    case Seen => 6
    case Ready => 7
    case Finished => 8
    case Busy => 9
  }

  function Ahead(g: Gatherer, n: nat): nat {
    match g
    case Over => 0
    case Collecting(i) => if i <= n then n - i + 1 else 1
    case Leaving => n + 2
    case Sleeping => n + 3
    case Testing => n + 4
    case Waking => n + 5
    case Locking => n + 5
    case Registering(r) => if r <= n then n + 6 + (n - r) else n + 6
  }

  function Measure(s: State): nat { Sum(s.workers, Weight) + Ahead(s.gatherer, |s.workers|) }

  lemma StepDecreases(s: State, step: Step)
    requires Enabled(s, step) && Quiet(step)
    ensures Measure(Next(s, step)) < Measure(s)
  {
    if !OfGatherer(step) {
      SumUpdate(s.workers, step.i, Next(s, step).workers[step.i], Weight);
    }
  }

  /** Apart from spurious wake-ups and returning coroutines every run is finite, in any
      schedule. */
  lemma {:induction false} QuietRunsEnd(from: State, steps: seq<Step>, to: State)
    requires Run(from, steps, to) && forall x | x in steps :: Quiet(x)
    ensures |steps| + Measure(to) <= Measure(from)
    decreases |steps|
  {
    hide Enabled, Next, Measure;
    if steps != [] {
      assert steps[0] in steps;
      StepDecreases(from, steps[0]);
      QuietRunsEnd(Next(from, steps[0]), steps[1..], to);
    }
  }
}
