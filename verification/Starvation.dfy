/** How many coroutines of a thread pool may wait for its own work (thr-pool.c, asyncio.c).

    A coroutine that waits keeps its worker.  A pool with more workers than coroutines that
    wait runs everything it is given, and with as many it may not. */
module Starvation {
  import opened Wrappers
  import opened Pool

  /** The coroutine of start n is one of those that wait. */
  predicate Waits(s: State, n: nat, waiting: set<nat>) {
    n < |s.started| && s.started[n].tsk in waiting
  }

  /** Of the coroutines of this run only those in `waiting` ever wait. */
  ghost predicate OnlyWait(from: State, steps: seq<Step>, waiting: set<nat>)
    decreases |steps|
  {
    steps == [] || !Enabled(from, steps[0])
    || (&& (steps[0].Await? ==> Waits(from, from.workers[steps[0].w].n, waiting))
        && OnlyWait(Next(from, steps[0]), steps[1..], waiting))
  }

  ghost predicate BlockedAmong(s: State, waiting: set<nat>) {
    forall w | 0 <= w < |s.workers| && s.workers[w].Blocked? :: Waits(s, s.workers[w].n, waiting)
  }

  lemma StepAmong(s: State, step: Step, waiting: set<nat>)
    requires BlockedAmong(s, waiting) && Enabled(s, step)
    requires step.Await? ==> Waits(s, s.workers[step.w].n, waiting)
    ensures BlockedAmong(Next(s, step), waiting) && |Next(s, step).workers| == |s.workers|
  {
  }

  lemma {:induction false} RunAmong(from: State, steps: seq<Step>, s: State, waiting: set<nat>)
    requires Run(from, steps, s) && OnlyWait(from, steps, waiting) && BlockedAmong(from, waiting)
    ensures BlockedAmong(s, waiting) && |s.workers| == |from.workers|
    decreases |steps|
  {
    if steps != [] {
      hide Enabled, Next, BlockedAmong;
      StepAmong(from, steps[0], waiting);
      RunAmong(Next(from, steps[0]), steps[1..], s, waiting);
    }
  }

  /** The workers that wait have different coroutines of `waiting` in their hands, so they are
      no more than those. */
  lemma NotAllWait(s: State, waiting: set<nat>)
    requires Inv(s) && BlockedAmong(s, waiting) && |waiting| < |s.workers|
    ensures !Starved(s)
  {
    if forall w | 0 <= w < |s.workers| :: s.workers[w].Blocked? {
      hide Exclusive, NoStranded, Results;
      var xs := seq(|s.workers|, w requires 0 <= w < |s.workers| => s.started[s.workers[w].n].tsk);
      forall i, j | 0 <= i < j < |xs|
        ensures xs[i] != xs[j]
      {
        OtherHands(s, i, j);
      }
      DistinctFit(xs, waiting);
    }
  }

  /** With fewer coroutines that wait than workers, and no circle of waits, a pool that can do
      nothing more has run every submitted task to its end. */
  lemma FewWaitersSettle(from: State, steps: seq<Step>, s: State, rank: nat -> nat, waiting: set<nat>)
    requires Initial(from) && Run(from, steps, s) && OnlyWait(from, steps, waiting)
    requires |waiting| < |from.workers|
    requires AtRest(s) && Ordered(s, rank)
    ensures Settled(s)
  {
    RunAmong(from, steps, s, waiting);
    InvInitial(from);
    InvRun(from, steps, s);
    NotAllWait(s, waiting);
    SettledIffNotStarved(from, steps, s, rank);
  }

  // ---- As many as there are workers are too many ----

  /** The coroutine of future i is i. */
  function Identity(k: nat): (m: map<nat, nat>)
    ensures forall i: nat :: i in m <==> i < k
    ensures forall i | i in m :: m[i] == i
  {
    if k == 0 then map[] else Identity(k - 1)[k - 1 := k - 1]
  }

  function Future(i: nat): Task { Task(true, i) }

  /** A pool of n workers and one submitter that has submitted the futures 0, 1, ..; the first
      `taken` of them have each been started by a worker and wait for future n. */
  function Crowd(n: nat, submitted: nat, taken: nat): (s: State)
    requires taken <= submitted
  {
    State(seq(n, (i: nat) => if i < taken then Blocked(i, n) else Want),
          [Outside],
          seq(submitted - taken, (i: nat) => Future(taken + i)),
          Identity(submitted), map[], {},
          seq(submitted, (i: nat) => Future(i)), seq(taken, (i: nat) => Future(i)), {}, map[])
  }

  /** A run among `waiting`, and one more step. */
  lemma {:induction false} Grow(from: State, steps: seq<Step>, s: State, step: Step, waiting: set<nat>)
    requires Run(from, steps, s) && OnlyWait(from, steps, waiting)
    requires Enabled(s, step) && (step.Await? ==> Waits(s, s.workers[step.w].n, waiting))
    ensures Run(from, steps + [step], Next(s, step)) && OnlyWait(from, steps + [step], waiting)
    decreases |steps|
  {
    if steps == [] {
      assert [step][1..] == [];
      assert Run(Next(s, step), [], Next(s, step)) && OnlyWait(Next(s, step), [], waiting);
    } else {
      hide Next, Enabled, Waits;
      Grow(Next(from, steps[0]), steps[1..], s, step, waiting);
      assert (steps + [step])[1..] == steps[1..] + [step];
    }
  }

  lemma CrowdSubmits(n: nat, k: nat, from: State, before: seq<Step>, waiting: set<nat>) returns (steps: seq<Step>)
    requires Run(from, before, Crowd(n, k, 0)) && OnlyWait(from, before, waiting)
    ensures Run(from, steps, Crowd(n, k + 1, 0)) && OnlyWait(from, steps, waiting)
  {
    hide Run, OnlyWait;
    var s, to := Crowd(n, k, 0), Crowd(n, k + 1, 0);
    var a, b, c := Prepare(0, Future(k), k), Push(0), Signal(0, None);
    forall x | x in s.inp.Values
      ensures x != k
    {
      var f :| f in s.inp && s.inp[f] == x;
    }
    var prepared := Next(s, a);
    var pushed := Next(prepared, b);
    assert prepared.inp == to.inp;
    assert pushed.q == to.q && pushed.submitted == to.submitted;
    assert pushed.workers == to.workers && pushed.started == to.started;
    assert pushed.submitters[0 := Outside] == to.submitters;
    assert Enabled(pushed, c) && Next(pushed, c) == to;
    Grow(from, before, s, a, waiting);
    Grow(from, before + [a], prepared, b, waiting);
    Grow(from, before + [a] + [b], pushed, c, waiting);
    steps := before + [a] + [b] + [c];
  }

  lemma CrowdAt(n: nat, k: nat)
    requires k < n
    ensures var s, to := Crowd(n, n + 1, k), Crowd(n, n + 1, k + 1);
      && |s.workers| == n && s.workers[k].Want? && MutexFree(s) && s.q != [] && |s.started| == k
      && to == s.(workers := s.workers[k := Blocked(k, n)], q := s.q[1..], started := s.started + [s.q[0]])
      && |to.started| == k + 1 && to.started[k].tsk == k
  {
    var s, to := Crowd(n, n + 1, k), Crowd(n, n + 1, k + 1);
    assert s.workers[k := Blocked(k, n)] == to.workers;
    assert s.q[1..] == to.q && s.started + [s.q[0]] == to.started;
  }

  /** Worker k takes future k ... */
  lemma CrowdPops(n: nat, k: nat, from: State, before: seq<Step>, waiting: set<nat>) returns (steps: seq<Step>, got: State)
    requires k < n && Run(from, before, Crowd(n, n + 1, k)) && OnlyWait(from, before, waiting)
    ensures var to := Crowd(n, n + 1, k + 1);
      k < |to.workers| && got == to.(workers := to.workers[k := Got(k)])
    ensures Run(from, steps, got) && OnlyWait(from, steps, waiting)
  {
    var s, to := Crowd(n, n + 1, k), Crowd(n, n + 1, k + 1);
    var testing, taking := s.(workers := s.workers[k := Testing]), s.(workers := s.workers[k := Taking]);
    CrowdAt(n, k);
    hide Run, OnlyWait, Crowd;
    assert s.workers[k := Testing][k := Taking] == s.workers[k := Taking];
    assert s.workers[k := Taking][k := Got(k)] == to.workers[k := Got(k)];
    got := to.(workers := to.workers[k := Got(k)]);
    assert Next(s, Lock(k)) == testing && Next(testing, Test(k)) == taking && Next(taking, Pop(k)) == got;
    hide Next;
    Grow(from, before, s, Lock(k), waiting);
    Grow(from, before + [Lock(k)], testing, Test(k), waiting);
    Grow(from, before + [Lock(k)] + [Test(k)], taking, Pop(k), waiting);
    steps := before + [Lock(k)] + [Test(k)] + [Pop(k)];
  }

  /** ... and its coroutine waits for the last one. */
  lemma CrowdTakes(n: nat, k: nat, from: State, before: seq<Step>, waiting: set<nat>) returns (steps: seq<Step>)
    requires k < n && Run(from, before, Crowd(n, n + 1, k)) && OnlyWait(from, before, waiting) && k in waiting
    ensures Run(from, steps, Crowd(n, n + 1, k + 1)) && OnlyWait(from, steps, waiting)
  {
    var to := Crowd(n, n + 1, k + 1);
    var popped, got := CrowdPops(n, k, from, before, waiting);
    CrowdAt(n, k);
    hide Run, OnlyWait, Crowd;
    var running := to.(workers := to.workers[k := Running(k)]);
    assert got.workers[k := Running(k)] == running.workers;
    assert running.workers[k := Blocked(k, n)] == to.workers;
    assert Next(got, Unlock(k)) == running && Next(running, Await(k, n)) == to;
    hide Next;
    Grow(from, popped, got, Unlock(k), waiting);
    Grow(from, popped + [Unlock(k)], running, Await(k, n), waiting);
    steps := popped + [Unlock(k)] + [Await(k, n)];
  }

  lemma {:induction false} CrowdSubmitted(n: nat, k: nat, waiting: set<nat>) returns (steps: seq<Step>)
    ensures Run(Crowd(n, 0, 0), steps, Crowd(n, k, 0)) && OnlyWait(Crowd(n, 0, 0), steps, waiting)
  {
    hide Enabled, Next, Crowd;
    if k == 0 {
      steps := [];
    } else {
      steps := CrowdSubmitted(n, k - 1, waiting);
      steps := CrowdSubmits(n, k - 1, Crowd(n, 0, 0), steps, waiting);
    }
  }

  lemma {:induction false} CrowdTaken(n: nat, k: nat, waiting: set<nat>) returns (steps: seq<Step>)
    requires k <= n && forall i: nat | i < n :: i in waiting
    ensures Run(Crowd(n, 0, 0), steps, Crowd(n, n + 1, k)) && OnlyWait(Crowd(n, 0, 0), steps, waiting)
  {
    hide Run, OnlyWait, Enabled, Next, Crowd;
    if k == 0 {
      steps := CrowdSubmitted(n, n + 1, waiting);
    } else {
      steps := CrowdTaken(n, k - 1, waiting);
      steps := CrowdTakes(n, k - 1, Crowd(n, 0, 0), steps, waiting);
    }
  }

  function Below(n: nat): (s: set<nat>)
    ensures |s| == n && forall i: nat :: i in s <==> i < n
  {
    if n == 0 then {} else Below(n - 1) + {n - 1}
  }

  /** The last future comes last. */
  function LastFirst(n: nat): nat -> nat { f => if f == n then 0 else 1 }

  /** For any number of workers, a run of as many coroutines that wait for a future submitted
      after them, without a circle: all workers wait, and the future stays in the queue. */
  lemma CrowdStarves(n: nat) returns (from: State, steps: seq<Step>, s: State)
    requires n > 0
    ensures Initial(from) && |from.workers| == n && Run(from, steps, s) && OnlyWait(from, steps, Below(n))
    ensures AtRest(s) && Ordered(s, LastFirst(n)) && Starved(s) && !Settled(s)
  {
    from, s := Crowd(n, 0, 0), Crowd(n, n + 1, n);
    steps := CrowdTaken(n, n, Below(n));
    hide Run, OnlyWait;
    assert Initial(from);
    CrowdRests(n);
  }

  lemma CrowdRests(n: nat)
    requires n > 0
    ensures var s := Crowd(n, n + 1, n); AtRest(s) && Ordered(s, LastFirst(n)) && Starved(s) && !Settled(s)
  {
    var s := Crowd(n, n + 1, n);
    assert s.submitted[n] == Future(n) && s.q[0] == Future(n);
    assert forall w | 0 <= w < n :: s.workers[w] == Blocked(w, n);
    assert forall i | 0 <= i < n :: s.started[i] == Future(i);
    hide Crowd, Next;
  }

  // ---- The bound ----

  /** A run to rest of a pool of n workers, in which at most m coroutines wait. */
  ghost predicate FewWait(n: nat, m: nat, from: State, steps: seq<Step>, s: State, rank: nat -> nat, waiting: set<nat>) {
    && Initial(from) && |from.workers| == n && Run(from, steps, s) && AtRest(s) && Ordered(s, rank)
    && OnlyWait(from, steps, waiting) && |waiting| <= m
  }

  /** The exact bound: pools of n workers run everything they are given, in every schedule, with
      any m coroutines that wait for submitted work in no circle, if and only if m < n. */
  lemma SettlesIffFewWait(n: nat, m: nat)
    requires n > 0
    ensures m < n <==> forall from, steps, s, rank, waiting | FewWait(n, m, from, steps, s, rank, waiting) :: Settled(s)
  {
    if m < n {
      forall from, steps, s, rank, waiting | FewWait(n, m, from, steps, s, rank, waiting)
        ensures Settled(s)
      {
        FewWaitersSettle(from, steps, s, rank, waiting);
      }
    } else {
      var from, steps, s := CrowdStarves(n);
      assert FewWait(n, m, from, steps, s, LastFirst(n), Below(n));
    }
  }
}
