/**
 The sleeping mutex of the Linux kernel in its decrement-and-test form, as a system of atomic
 steps taken by any number of tasks.  A lock-free fast path races with a slow path that is
 serialised by the spinlock `wait_lock`.

 `State` and `Step` are the specification: one step of one task.  `Mutex` is the shared object
 with its fields updated in place, one method per diagram of the notes, each proved to perform
 exactly the specified step.  `Safe` is the inductive invariant from which the theorems follow.
 */
module SleepingMutex {
  import opened Prelude

  type TaskId = nat

  /** Where a task stands; each value names the atomic action the task performs next. */
  datatype Pc =
    | Idle            // outside; next: decrement `count` (fast path of mutex_lock)
    | WantSlow        // the decrement failed; next: take `wait_lock`
    | TestLocked      // next: test whether the mutex looks unlocked
    | TryExchange     // it did; next: exchange `count` with 0
    | Enqueue         // next: append itself to `wait_list`
    | WaiterExchange  // next: exchange `count` with -1
    | MarkAsleep      // next: leave the runnable state
    | DropForSleep    // next: release `wait_lock`
    | Scheduled       // next: return from schedule(), possible only when runnable
    | WantRetry       // next: take `wait_lock` again
    | Dequeue         // won the exchange; next: leave `wait_list`
    | ResetCount      // next: set `count` to 0 if nobody else waits
    | SetOwner        // next: record itself in `owner`
    | DropAfterLock   // next: release `wait_lock`
    | Holding         // returned from mutex_lock; next: clear `owner`
    | Increment       // next: increment `count` (fast path of mutex_unlock)
    | SetUnlocked     // slow path of mutex_unlock; next: set `count` to 1
    | WantWake        // next: take `wait_lock`
    | WakeFirst       // next: wake the first waiter, if any
    | DropAfterWake   // next: release `wait_lock`

  datatype Task = Task(pc: Pc, runnable: bool)

  datatype State = State(
    count: int,
    owner: Option<TaskId>,
    waitLock: Option<TaskId>,
    waitList: seq<TaskId>,
    tasks: seq<Task>)

  function Initial(n: nat): State {
    State(1, None, None, [], seq(n, i => Task(Idle, true)))
  }

  /** `t` can take its next step: it need not wait for the spinlock nor for a wakeup. */
  predicate Enabled(s: State, t: TaskId) {
    t < |s.tasks| &&
    match s.tasks[t].pc
    case WantSlow => s.waitLock.None?
    case WantRetry => s.waitLock.None?
    case WantWake => s.waitLock.None?
    case Scheduled => s.tasks[t].runnable
    case _ => true
  }

  function Goto(s: State, t: TaskId, pc: Pc): State
    requires t < |s.tasks|
  {
    s.(tasks := s.tasks[t := s.tasks[t].(pc := pc)])
  }

  function SetRunnable(s: State, t: TaskId, runnable: bool): State
    requires t < |s.tasks|
  {
    s.(tasks := s.tasks[t := s.tasks[t].(runnable := runnable)])
  }

  /** `xs` without `x`. */
  function Without(xs: seq<TaskId>, x: TaskId): (r: seq<TaskId>)
    ensures forall y :: y in r <==> y in xs && y != x
    ensures NoDuplicates(xs) ==> NoDuplicates(r)
  {
    if xs == [] then []
    else if xs[0] == x then Without(xs[1..], x)
    else
      var rest := Without(xs[1..], x);
      assert forall y :: y in xs <==> y == xs[0] || y in xs[1..];
      assert NoDuplicates(xs) ==> NoDuplicates(xs[1..]) && xs[0] !in xs[1..];
      [xs[0]] + rest
  }

  predicate NoDuplicates(xs: seq<TaskId>) {
    forall i, j :: 0 <= i < j < |xs| ==> xs[i] != xs[j]
  }

  /** One atomic step of task `t`. */
  function Step(s: State, t: TaskId): State
    requires Enabled(s, t)
  {
    match s.tasks[t].pc
    // mutex_lock(): the decrement succeeds iff its result is not negative
    case Idle =>
      Goto(s, t, if s.count - 1 >= 0 then Holding else WantSlow).(count := s.count - 1)
    // __mutex_lock_common()
    case WantSlow => Goto(s, t, TestLocked).(waitLock := Some(t))
    case TestLocked => Goto(s, t, if s.count == 1 then TryExchange else Enqueue)
    case TryExchange => Goto(s, t, if s.count == 1 then SetOwner else Enqueue).(count := 0)
    case Enqueue => Goto(s, t, WaiterExchange).(waitList := s.waitList + [t])
    case WaiterExchange => Goto(s, t, if s.count == 1 then Dequeue else MarkAsleep).(count := -1)
    case MarkAsleep => Goto(SetRunnable(s, t, false), t, DropForSleep)
    case DropForSleep => Goto(s, t, Scheduled).(waitLock := None)
    case Scheduled => Goto(s, t, WantRetry)
    case WantRetry => Goto(s, t, WaiterExchange).(waitLock := Some(t))
    case Dequeue => Goto(s, t, ResetCount).(waitList := Without(s.waitList, t))
    case ResetCount => Goto(s, t, SetOwner).(count := if s.waitList == [] then 0 else s.count)
    case SetOwner => Goto(s, t, DropAfterLock).(owner := Some(t))
    case DropAfterLock => Goto(s, t, Holding).(waitLock := None)
    // mutex_unlock(): the slow path is taken iff the previous count was not 0
    case Holding => Goto(s, t, Increment).(owner := None)
    case Increment => Goto(s, t, if s.count != 0 then SetUnlocked else Idle).(count := s.count + 1)
    // __mutex_unlock_common_slowpath()
    case SetUnlocked => Goto(s, t, WantWake).(count := 1)
    case WantWake => Goto(s, t, WakeFirst).(waitLock := Some(t))
    case WakeFirst =>
      var s' := Goto(s, t, DropAfterWake);
      if s.waitList != [] && s.waitList[0] < |s.tasks| then SetRunnable(s', s.waitList[0], true) else s'
    case DropAfterWake => Goto(s, t, Idle).(waitLock := None)
  }

  // ---------------------------------------------------------------- the invariant

  /** The task has acquired the mutex and not yet given it back. */
  predicate HoldsMutex(pc: Pc) {
    pc.Dequeue? || pc.ResetCount? || pc.SetOwner? || pc.DropAfterLock?
    || pc.Holding? || pc.Increment?
  }

  /** The task holds the mutex, or has incremented `count` but not yet set it to 1. */
  predicate HasToken(pc: Pc) {
    HoldsMutex(pc) || pc == SetUnlocked
  }

  predicate HoldsSpinlock(pc: Pc) {
    pc.TestLocked? || pc.TryExchange? || pc.Enqueue? || pc.WaiterExchange?
    || pc.MarkAsleep? || pc.DropForSleep? || pc.Dequeue? || pc.ResetCount?
    || pc.SetOwner? || pc.DropAfterLock? || pc.WakeFirst? || pc.DropAfterWake?
  }

  predicate Listed(pc: Pc) {
    pc.WaiterExchange? || pc.MarkAsleep? || pc.DropForSleep? || pc.Scheduled?
    || pc.WantRetry? || pc.Dequeue?
  }

  /** A listed waiter that will try the exchange without being woken again. */
  predicate AwakeWaiter(task: Task) {
    task.pc.WaiterExchange? || task.pc.WantRetry? || (task.pc.Scheduled? && task.runnable)
  }

  /** An unlocker that has yet to wake the first waiter. */
  predicate OwesWake(pc: Pc) {
    pc.SetUnlocked? || pc.WantWake? || pc.WakeFirst?
  }

  ghost predicate AttemptPending(s: State) {
    exists t :: 0 <= t < |s.tasks| && (AwakeWaiter(s.tasks[t]) || OwesWake(s.tasks[t].pc))
  }

  ghost predicate SpinlockOk(s: State) {
    && (s.waitLock.Some? ==> s.waitLock.value < |s.tasks|)
    && forall t :: 0 <= t < |s.tasks| ==> (s.waitLock == Some(t) <==> HoldsSpinlock(s.tasks[t].pc))
  }

  ghost predicate WaitListOk(s: State) {
    && NoDuplicates(s.waitList)
    && (forall t <- s.waitList :: t < |s.tasks|)
    && forall t :: 0 <= t < |s.tasks| ==> (t in s.waitList <==> Listed(s.tasks[t].pc))
  }

  /** Exactly one of: `count` is 1, one task holds the mutex, one unlocker is about to set it to 1. */
  ghost predicate TokenOk(s: State) {
    && s.count <= 1
    && (s.count == 1 <==> forall t :: 0 <= t < |s.tasks| ==> !HasToken(s.tasks[t].pc))
    && forall t, u | 0 <= t < |s.tasks| && 0 <= u < |s.tasks| ::
         HasToken(s.tasks[t].pc) && HasToken(s.tasks[u].pc) ==> t == u
  }

  /** `owner` names nobody but the holder, and the slow path records every holder. */
  ghost predicate OwnerOk(s: State) {
    && (s.owner.Some? ==>
          && s.owner.value < |s.tasks|
          && (s.tasks[s.owner.value].pc.DropAfterLock? || s.tasks[s.owner.value].pc.Holding?))
    && forall t | 0 <= t < |s.tasks| && s.tasks[t].pc == DropAfterLock :: s.owner == Some(t)
  }

  ghost predicate WakeupOk(s: State) {
    s.waitList != [] ==>
      && (s.count < 0 || AttemptPending(s))
      && ((exists t :: 0 <= t < |s.tasks| && s.tasks[t].pc == TryExchange) ==> AttemptPending(s))
  }

  ghost predicate Safe(s: State) {
    SpinlockOk(s) && WaitListOk(s) && TokenOk(s) && OwnerOk(s) && WakeupOk(s)
  }

  lemma InitialSafe(n: nat)
    ensures Safe(Initial(n))
  {}

  // ------------------------------------------------- each part is kept by every step
  //
  // A step of `t` moves no other task, so each part is proved in two halves: what the step does
  // to `t` and the shared fields, and why that is enough for all the others.

  ghost predicate OthersStay(s: State, s': State, t: TaskId) {
    && t < |s.tasks| == |s'.tasks|
    && forall u | 0 <= u < |s.tasks| && u != t :: s'.tasks[u].pc == s.tasks[u].pc
  }

  lemma StepMovesOnlyActor(s: State, t: TaskId)
    requires Enabled(s, t)
    ensures OthersStay(s, Step(s, t), t)
  {}

  ghost predicate SpinlockMove(s: State, s': State, t: TaskId)
    requires t < |s.tasks| == |s'.tasks|
  {
    var before, after := HoldsSpinlock(s.tasks[t].pc), HoldsSpinlock(s'.tasks[t].pc);
    || (before == after && s'.waitLock == s.waitLock)
    || (!before && after && s.waitLock == None && s'.waitLock == Some(t))
    || (before && !after && s.waitLock == Some(t) && s'.waitLock == None)
  }

  lemma SpinlockKept(s: State, s': State, t: TaskId)
    requires SpinlockOk(s) && OthersStay(s, s', t) && SpinlockMove(s, s', t)
    ensures SpinlockOk(s')
  {}

  lemma StepMovesSpinlock(s: State, t: TaskId)
    requires Enabled(s, t)
    requires HoldsSpinlock(s.tasks[t].pc) <==> s.waitLock == Some(t)
    ensures SpinlockMove(s, Step(s, t), t)
  {}

  ghost predicate WaitListMove(s: State, s': State, t: TaskId)
    requires t < |s.tasks| == |s'.tasks|
  {
    var before, after := Listed(s.tasks[t].pc), Listed(s'.tasks[t].pc);
    || (before == after && s'.waitList == s.waitList)
    || (!before && after && s'.waitList == s.waitList + [t])
    || (before && !after && s'.waitList == Without(s.waitList, t))
  }

  lemma WaitListKept(s: State, s': State, t: TaskId)
    requires WaitListOk(s) && OthersStay(s, s', t) && WaitListMove(s, s', t)
    ensures WaitListOk(s')
  {
    assert t in s.waitList <==> Listed(s.tasks[t].pc);
  }

  lemma StepMovesWaitList(s: State, t: TaskId)
    requires Enabled(s, t)
    ensures WaitListMove(s, Step(s, t), t)
  {}

  ghost predicate TokenMove(s: State, s': State, t: TaskId)
    requires t < |s.tasks| == |s'.tasks|
  {
    var before, after := HasToken(s.tasks[t].pc), HasToken(s'.tasks[t].pc);
    && s'.count <= 1
    && (|| (before == after && (s.count == 1 <==> s'.count == 1))
        || (!before && after && s.count == 1 && s'.count != 1)
        || (before && !after && s.count != 1 && s'.count == 1))
  }

  lemma TokenKept(s: State, s': State, t: TaskId)
    requires TokenOk(s) && OthersStay(s, s', t) && TokenMove(s, s', t)
    ensures TokenOk(s')
  {
    if s.count != 1 {
      var h :| 0 <= h < |s.tasks| && HasToken(s.tasks[h].pc);
      assert s'.count != 1 ==> HasToken(s'.tasks[h].pc);
    }
  }

  lemma StepMovesToken(s: State, t: TaskId)
    requires Enabled(s, t)
    requires s.count <= 1 && (HasToken(s.tasks[t].pc) ==> s.count != 1)
    ensures TokenMove(s, Step(s, t), t)
  {}

  lemma StepSetsOwner(s: State, t: TaskId, u: TaskId)
    requires Enabled(s, t) && TokenOk(s) && OwnerOk(s)
    requires u < |s.tasks| && Step(s, t).tasks[u].pc == DropAfterLock
    ensures Step(s, t).owner == Some(u)
  {
    StepMovesOnlyActor(s, t);
    if u != t {
      assert HasToken(s.tasks[u].pc);
    }
  }

  lemma StepKeepsOwner(s: State, t: TaskId)
    requires Enabled(s, t) && TokenOk(s) && OwnerOk(s)
    ensures OwnerOk(Step(s, t))
  {
    StepMovesOnlyActor(s, t);
    if s.owner.Some? {
      assert HasToken(s.tasks[s.owner.value].pc);
    }
    forall u | 0 <= u < |s.tasks| && Step(s, t).tasks[u].pc == DropAfterLock
      ensures Step(s, t).owner == Some(u)
    {
      StepSetsOwner(s, t, u);
    }
  }

  /** A pending attempt of another task is still pending after a step of `t`. */
  lemma PendingPersists(s: State, t: TaskId, u: TaskId)
    requires Enabled(s, t)
    requires u < |s.tasks| && u != t
    requires AwakeWaiter(s.tasks[u]) || OwesWake(s.tasks[u].pc)
    ensures AttemptPending(Step(s, t))
  {
    var s' := Step(s, t);
    assert AwakeWaiter(s'.tasks[u]) || OwesWake(s'.tasks[u].pc);
  }

  /** The waiter woken by an unlocker is asleep or about to retry: it cannot hold the spinlock. */
  lemma WakeLeavesAttempt(s: State, t: TaskId)
    requires t < |s.tasks| && s.tasks[t].pc == WakeFirst && s.waitList != []
    requires SpinlockOk(s) && WaitListOk(s)
    ensures AttemptPending(Step(s, t))
  {
    var w := s.waitList[0];
    assert w in s.waitList;
    assert s.waitLock == Some(t);
    assert AwakeWaiter(Step(s, t).tasks[w]);
  }

  lemma StepKeepsWakeup(s: State, t: TaskId)
    requires Enabled(s, t) && SpinlockOk(s) && WaitListOk(s) && WakeupOk(s)
    ensures WakeupOk(Step(s, t))
  {
    var s' := Step(s, t);
    if s'.waitList == [] { return; }
    if u :| 0 <= u < |s.tasks| && u != t && (AwakeWaiter(s.tasks[u]) || OwesWake(s.tasks[u].pc)) {
      PendingPersists(s, t, u);
    } else if s.tasks[t].pc == WakeFirst {
      WakeLeavesAttempt(s, t);
    } else if AwakeWaiter(s'.tasks[t]) || OwesWake(s'.tasks[t].pc) {
    } else {
      assert AttemptPending(s) ==> AwakeWaiter(s.tasks[t]) || OwesWake(s.tasks[t].pc);
    }
  }

  lemma StepKeepsSafe(s: State, t: TaskId)
    requires Safe(s) && Enabled(s, t)
    ensures Safe(Step(s, t)) && |Step(s, t).tasks| == |s.tasks|
  {
    var s' := Step(s, t);
    StepMovesOnlyActor(s, t);
    StepMovesSpinlock(s, t);
    SpinlockKept(s, s', t);
    StepMovesWaitList(s, t);
    WaitListKept(s, s', t);
    StepMovesToken(s, t);
    TokenKept(s, s', t);
    StepKeepsOwner(s, t);
    StepKeepsWakeup(s, t);
  }

  // ---------------------------------------------------------------- runs

  /** `schedule` names, step by step, the task that moves. */
  ghost predicate CanRun(s: State, schedule: seq<TaskId>)
    decreases schedule
  {
    schedule == [] || (Enabled(s, schedule[0]) && CanRun(Step(s, schedule[0]), schedule[1..]))
  }

  /** All states of a run, the first and the last included. */
  ghost function States(s: State, schedule: seq<TaskId>): (states: seq<State>)
    requires CanRun(s, schedule)
    ensures |states| == |schedule| + 1 && states[0] == s
    decreases schedule
  {
    if schedule == [] then [s] else [s] + States(Step(s, schedule[0]), schedule[1..])
  }

  ghost function Run(s: State, schedule: seq<TaskId>): State
    requires CanRun(s, schedule)
    decreases schedule
  {
    if schedule == [] then s else Run(Step(s, schedule[0]), schedule[1..])
  }

  lemma {:induction false} RunKeepsSafe(s: State, schedule: seq<TaskId>)
    requires Safe(s) && CanRun(s, schedule)
    ensures Safe(Run(s, schedule)) && |Run(s, schedule).tasks| == |s.tasks|
    decreases schedule
  {
    if schedule != [] {
      StepKeepsSafe(s, schedule[0]);
      RunKeepsSafe(Step(s, schedule[0]), schedule[1..]);
    }
  }

  /** A state that some run of some number of tasks reaches from the initialised mutex. */
  ghost predicate Reachable(s: State) {
    exists n: nat, schedule: seq<TaskId> :: CanRun(Initial(n), schedule) && Run(Initial(n), schedule) == s
  }

  lemma ReachableSafe(s: State)
    requires Reachable(s)
    ensures Safe(s)
  {
    var n: nat, schedule: seq<TaskId> :| CanRun(Initial(n), schedule) && Run(Initial(n), schedule) == s;
    InitialSafe(n);
    RunKeepsSafe(Initial(n), schedule);
  }

  // ---------------------------------------------------------------- safety theorems

  /** Never two holders, never a holder while the mutex looks free, and `owner` names the holder. */
  lemma MutualExclusion(s: State, t: TaskId, u: TaskId)
    requires Reachable(s)
    requires t < |s.tasks| && HoldsMutex(s.tasks[t].pc)
    ensures u < |s.tasks| && HoldsMutex(s.tasks[u].pc) ==> t == u
    ensures u < |s.tasks| ==> s.tasks[u].pc != SetUnlocked
    ensures s.count <= 0
    ensures s.owner.Some? ==> s.owner == Some(t)
    ensures s.tasks[t].pc == DropAfterLock ==> s.owner == Some(t)
  {
    ReachableSafe(s);
    assert HasToken(s.tasks[t].pc);
    if s.owner.Some? {
      assert HasToken(s.tasks[s.owner.value].pc);
    }
  }

  /** When nobody holds the mutex, it is free or one unlocker is about to free it. */
  lemma FreeOrBeingFreed(s: State)
    requires Reachable(s)
    requires forall t | 0 <= t < |s.tasks| :: !HoldsMutex(s.tasks[t].pc)
    ensures s.owner == None
    ensures s.count == 1 <==> forall t | 0 <= t < |s.tasks| :: s.tasks[t].pc != SetUnlocked
    ensures forall t, u | 0 <= t < |s.tasks| && 0 <= u < |s.tasks| ::
              s.tasks[t].pc == SetUnlocked && s.tasks[u].pc == SetUnlocked ==> t == u
  {
    ReachableSafe(s);
    forall t | 0 <= t < |s.tasks|
      ensures HasToken(s.tasks[t].pc) <==> s.tasks[t].pc == SetUnlocked
    {}
    if s.owner.Some? {
      assert HoldsMutex(s.tasks[s.owner.value].pc);
    }
  }

  /** The wait list holds each waiting task exactly once. */
  lemma WaitListExact(s: State, t: TaskId)
    requires Reachable(s) && t < |s.tasks|
    ensures multiset(s.waitList)[t] == if Listed(s.tasks[t].pc) then 1 else 0
  {
    ReachableSafe(s);
    OccursOnce(s.waitList, t);
  }

  lemma {:induction false} OccursOnce(xs: seq<TaskId>, x: TaskId)
    requires NoDuplicates(xs)
    ensures multiset(xs)[x] == if x in xs then 1 else 0
  {
    if xs != [] {
      assert xs == [xs[0]] + xs[1..];
      OccursOnce(xs[1..], x);
    }
  }

  /** `a` was listed before `b`. */
  ghost predicate Before(xs: seq<TaskId>, a: TaskId, b: TaskId) {
    exists i, j :: 0 <= i < j < |xs| && xs[i] == a && xs[j] == b
  }

  lemma {:induction false} WithoutKeepsOrder(xs: seq<TaskId>, x: TaskId, a: TaskId, b: TaskId)
    requires Before(xs, a, b) && a != x && b != x
    ensures Before(Without(xs, x), a, b)
  {
    var i, j :| 0 <= i < j < |xs| && xs[i] == a && xs[j] == b;
    var rest := Without(xs[1..], x);
    if i == 0 {
      assert b == xs[1..][j - 1] && b in xs[1..];
      var k :| 0 <= k < |rest| && rest[k] == b;
      assert Without(xs, x)[0] == a && Without(xs, x)[k + 1] == b;
    } else {
      assert xs[1..][i - 1] == a && xs[1..][j - 1] == b;
      WithoutKeepsOrder(xs[1..], x, a, b);
      if xs[0] != x {
        var k, l :| 0 <= k < l < |rest| && rest[k] == a && rest[l] == b;
        assert Without(xs, x)[k + 1] == a && Without(xs, x)[l + 1] == b;
      }
    }
  }

  /** Waiters are listed, and hence woken, in order of arrival: nobody overtakes a listed task. */
  lemma {:induction false} FirstComeFirstListed(s: State, schedule: seq<TaskId>, a: TaskId, b: TaskId)
    requires CanRun(s, schedule) && a != b && a in s.waitList
    requires b in s.waitList ==> Before(s.waitList, a, b)
    requires forall state <- States(s, schedule) :: a in state.waitList
    ensures b in Run(s, schedule).waitList ==> Before(Run(s, schedule).waitList, a, b)
    decreases schedule
  {
    if schedule != [] {
      var t, s' := schedule[0], Step(s, schedule[0]);
      assert States(s, schedule) == [s] + States(s', schedule[1..]);
      assert s' == States(s', schedule[1..])[0];
      if b in s'.waitList {
        if s.tasks[t].pc == Enqueue {
          var i :| 0 <= i < |s.waitList| && s.waitList[i] == a;
          assert s'.waitList[i] == a;
          if b in s.waitList {
            var k, l :| 0 <= k < l < |s.waitList| && s.waitList[k] == a && s.waitList[l] == b;
            assert s'.waitList[k] == a && s'.waitList[l] == b;
          } else {
            assert s'.waitList[|s.waitList|] == b;
          }
        } else if s.tasks[t].pc == Dequeue {
          WithoutKeepsOrder(s.waitList, t, a, b);
        }
        assert Before(s'.waitList, a, b);
      }
      FirstComeFirstListed(s', schedule[1..], a, b);
    }
  }

  /**
   No lost wakeup.  If tasks are listed, none of them is about to retry and no unlocker owes a wake,
   then `count` is negative, some task holds the mutex, and whoever increments `count` next takes
   the slow path.
   */
  lemma NoLostWakeup(s: State)
    requires Reachable(s) && s.waitList != [] && !AttemptPending(s)
    ensures s.count < 0
    ensures exists h :: 0 <= h < |s.tasks| && HoldsMutex(s.tasks[h].pc)
    ensures forall h | 0 <= h < |s.tasks| && s.tasks[h].pc == Increment ::
              Step(s, h).tasks[h].pc == SetUnlocked
  {
    ReachableSafe(s);
    var h :| 0 <= h < |s.tasks| && HasToken(s.tasks[h].pc);
    assert !OwesWake(s.tasks[h].pc);
    assert HoldsMutex(s.tasks[h].pc);
  }

  /** The first of the wait list is woken, whatever it was about to do, and nobody else. */
  lemma WakesFirst(s: State, t: TaskId)
    requires Reachable(s) && Enabled(s, t) && s.tasks[t].pc == WakeFirst && s.waitList != []
    ensures s.waitList[0] < |s.tasks| && AwakeWaiter(Step(s, t).tasks[s.waitList[0]])
    ensures forall u | 0 <= u < |s.tasks| && u != s.waitList[0] && u != t :: Step(s, t).tasks[u] == s.tasks[u]
  {
    ReachableSafe(s);
    var w := s.waitList[0];
    assert w in s.waitList;
    assert s.waitLock == Some(t);
  }

  // ------------------------------------------------- without contention, no slow unlock

  /** The task has decremented `count` in vain and is not listed yet, or has yet to reset `count`. */
  predicate Hesitates(pc: Pc) {
    pc.WantSlow? || pc.TestLocked? || pc.TryExchange? || pc.Enqueue? || pc.WaiterExchange? || pc.ResetCount?
  }

  ghost predicate Uncontended(s: State) {
    s.waitList == [] && forall t | 0 <= t < |s.tasks| :: !Hesitates(s.tasks[t].pc)
  }

  ghost predicate CountTellsOwner(s: State) {
    forall h | 0 <= h < |s.tasks| && HoldsMutex(s.tasks[h].pc) :: Uncontended(s) ==> s.count == 0
  }

  /** The step that ends a contention leaves `count` at 0. */
  lemma ContentionEnds(s: State, t: TaskId)
    requires Enabled(s, t) && WaitListOk(s) && !Uncontended(s) && Uncontended(Step(s, t))
    ensures (s.tasks[t].pc.TryExchange? || s.tasks[t].pc.ResetCount?) && Step(s, t).count == 0
  {
    var s' := Step(s, t);
    StepMovesOnlyActor(s, t);
    assert !Hesitates(s'.tasks[t].pc);
    if u :| 0 <= u < |s.tasks| && Hesitates(s.tasks[u].pc) {
      assert u == t;
    }
    assert t in s.waitList <==> Listed(s.tasks[t].pc);
  }

  lemma StepKeepsCountTellsOwner(s: State, t: TaskId)
    requires Enabled(s, t) && WaitListOk(s) && TokenOk(s) && CountTellsOwner(s)
    ensures CountTellsOwner(Step(s, t))
  {
    var s' := Step(s, t);
    StepMovesOnlyActor(s, t);
    forall h | 0 <= h < |s'.tasks| && HoldsMutex(s'.tasks[h].pc)
      ensures Uncontended(s') ==> s'.count == 0
    {
      if Uncontended(s') {
        if !Uncontended(s) {
          ContentionEnds(s, t);
        } else {
          assert !Hesitates(s'.tasks[t].pc);
          assert h != t ==> HasToken(s.tasks[h].pc);
        }
      }
    }
  }

  lemma {:induction false} RunKeepsCountTellsOwner(s: State, schedule: seq<TaskId>)
    requires Safe(s) && CountTellsOwner(s) && CanRun(s, schedule)
    ensures CountTellsOwner(Run(s, schedule))
    decreases schedule
  {
    if schedule != [] {
      StepKeepsSafe(s, schedule[0]);
      StepKeepsCountTellsOwner(s, schedule[0]);
      RunKeepsCountTellsOwner(Step(s, schedule[0]), schedule[1..]);
    }
  }

  /**
   The converse of no lost wakeup: when nobody is listed and nobody is on the way to the list, the
   holder's increment finds 0 and unlocks on the fast path.
   */
  lemma FastUnlock(s: State, h: TaskId)
    requires Reachable(s) && Uncontended(s) && h < |s.tasks| && s.tasks[h].pc == Increment
    ensures s.count == 0 && Step(s, h).tasks[h].pc == Idle && Step(s, h).count == 1
  {
    var n: nat, schedule: seq<TaskId> :| CanRun(Initial(n), schedule) && Run(Initial(n), schedule) == s;
    InitialSafe(n);
    RunKeepsCountTellsOwner(Initial(n), schedule);
  }

  // ------------------------------------------------- `count` never underflows

  /** The task has decremented `count` and not yet overwritten it. */
  function Undecided(task: Task): nat {
    if task.pc.WantSlow? || task.pc.TestLocked? || task.pc.TryExchange? || task.pc.Enqueue?
       || task.pc.WaiterExchange? then 1 else 0
  }

  ghost predicate CountBounded(s: State) {
    s.count >= -1 - Sum(s.tasks, Undecided)
  }

  /** Apart from a wakeup, a step of `t` rewrites only the entry of `t`. */
  lemma StepTasks(s: State, t: TaskId)
    requires Enabled(s, t)
    ensures |Step(s, t).tasks| == |s.tasks|
    ensures s.tasks[t].pc != WakeFirst ==> Step(s, t).tasks == s.tasks[t := Step(s, t).tasks[t]]
    ensures s.tasks[t].pc == WakeFirst ==>
              var own := s.tasks[t := s.tasks[t].(pc := DropAfterWake)];
              || Step(s, t).tasks == own
              || (s.waitList != [] && s.waitList[0] < |s.tasks|
                  && var w := s.waitList[0];
                     Step(s, t).tasks == own[w := own[w].(runnable := true)])
  {}

  lemma StepUndecided(s: State, t: TaskId)
    requires Enabled(s, t)
    ensures Sum(Step(s, t).tasks, Undecided) + Undecided(s.tasks[t])
         == Sum(s.tasks, Undecided) + Undecided(Step(s, t).tasks[t])
  {
    var s' := Step(s, t);
    StepTasks(s, t);
    SumUpdate(s.tasks, t, s'.tasks[t], Undecided);
    if s.tasks[t].pc == WakeFirst {
      var own := s.tasks[t := s.tasks[t].(pc := DropAfterWake)];
      SumUpdate(s.tasks, t, own[t], Undecided);
      if s'.tasks != own {
        var w := s.waitList[0];
        SumUpdate(own, w, own[w].(runnable := true), Undecided);
      }
    }
  }

  lemma {:induction false} RunKeepsCountBounded(s: State, schedule: seq<TaskId>)
    requires CountBounded(s) && CanRun(s, schedule)
    ensures CountBounded(Run(s, schedule))
    decreases schedule
  {
    if schedule != [] {
      StepUndecided(s, schedule[0]);
      RunKeepsCountBounded(Step(s, schedule[0]), schedule[1..]);
    }
  }

  /** With fewer than 2^31 tasks the 32-bit counter never wraps. */
  lemma CountFitsInt32(n: nat, schedule: seq<TaskId>)
    requires n < 0x8000_0000 && CanRun(Initial(n), schedule)
    ensures -0x8000_0000 <= Run(Initial(n), schedule).count <= 1
  {
    var s := Run(Initial(n), schedule);
    InitialSafe(n);
    RunKeepsSafe(Initial(n), schedule);
    RunKeepsCountBounded(Initial(n), schedule);
    SumBound(s.tasks, Undecided, 1);
  }

  // ---------------------------------------------------------------- progress

  /** Some task is under way and can step: the system is not stuck. */
  ghost predicate CanProceed(s: State) {
    exists t: TaskId :: Enabled(s, t) && s.tasks[t].pc != Idle
  }

  ghost predicate Quiescent(s: State) {
    && s.count == 1 && s.owner == None && s.waitLock == None && s.waitList == []
    && forall t | 0 <= t < |s.tasks| :: s.tasks[t].pc == Idle
  }

  /** Deadlock freedom: unless everything is at rest, some task under way can take a step. */
  lemma DeadlockFree(s: State)
    requires Safe(s) && !CanProceed(s)
    ensures Quiescent(s)
  {
    if s.waitLock.Some? {
      assert Enabled(s, s.waitLock.value);
      assert false;
    }
    forall t | 0 <= t < |s.tasks|
      ensures s.tasks[t].pc == Idle || (s.tasks[t].pc == Scheduled && !s.tasks[t].runnable)
    {
      assert !(Enabled(s, t) && s.tasks[t].pc != Idle);
    }
    assert !AttemptPending(s);
    assert s.waitList == [];
    forall t | 0 <= t < |s.tasks|
      ensures s.tasks[t].pc == Idle
    {
      assert t in s.waitList <==> Listed(s.tasks[t].pc);
    }
  }

  /** An upper bound on the steps a task can still take; a wakeup adds 5, which its waker pays for. */
  function Work(task: Task): nat {
    match task.pc
    case Idle => 0
    case DropAfterWake => 1
    case WakeFirst => 7
    case WantWake => 8
    case SetUnlocked => 9
    case Increment => 10
    case Holding => 11
    case DropAfterLock => 12
    case SetOwner => 13
    case ResetCount => 14
    case Dequeue => 15
    case Scheduled => if task.runnable then 21 else 16
    case DropForSleep => if task.runnable then 22 else 17
    case MarkAsleep => 18
    case WaiterExchange => 19
    case WantRetry => 20
    case Enqueue => 20
    case TryExchange => 21
    case TestLocked => 22
    case WantSlow => 23
  }

  lemma StepSpendsOwnWork(s: State, t: TaskId)
    requires Enabled(s, t) && s.tasks[t].pc != Idle && s.tasks[t].pc != WakeFirst
    ensures Work(Step(s, t).tasks[t]) < Work(s.tasks[t])
  {}

  /** Waking the first waiter costs its waker more than it gives the waiter. */
  lemma WakeSpendsWork(s: State, t: TaskId)
    requires t < |s.tasks| && s.tasks[t].pc == WakeFirst
    requires SpinlockOk(s) && WaitListOk(s)
    ensures Sum(Step(s, t).tasks, Work) < Sum(s.tasks, Work)
  {
    var s' := Step(s, t);
    var own := s.tasks[t := s.tasks[t].(pc := DropAfterWake)];
    SumUpdate(s.tasks, t, own[t], Work);
    if s.waitList != [] {
      var w := s.waitList[0];
      assert w in s.waitList && s.waitLock == Some(t);
      assert Listed(s.tasks[w].pc) && !HoldsSpinlock(s.tasks[w].pc);
      SumUpdate(own, w, own[w].(runnable := true), Work);
    }
  }

  lemma StepSpendsWork(s: State, t: TaskId)
    requires Safe(s) && Enabled(s, t) && s.tasks[t].pc != Idle
    ensures Sum(Step(s, t).tasks, Work) < Sum(s.tasks, Work)
  {
    if s.tasks[t].pc == WakeFirst {
      WakeSpendsWork(s, t);
    } else {
      StepTasks(s, t);
      SumUpdate(s.tasks, t, Step(s, t).tasks[t], Work);
      StepSpendsOwnWork(s, t);
    }
  }

  /** No step of the run is the start of a new call of mutex_lock(). */
  ghost predicate NoArrivals(s: State, schedule: seq<TaskId>)
    requires CanRun(s, schedule)
    decreases schedule
  {
    schedule == []
    || (s.tasks[schedule[0]].pc != Idle && NoArrivals(Step(s, schedule[0]), schedule[1..]))
  }

  lemma {:induction false} RunSpendsWork(s: State, schedule: seq<TaskId>)
    requires Safe(s) && CanRun(s, schedule) && NoArrivals(s, schedule)
    ensures |schedule| + Sum(Run(s, schedule).tasks, Work) <= Sum(s.tasks, Work)
    decreases schedule
  {
    if schedule != [] {
      StepSpendsWork(s, schedule[0]);
      StepKeepsSafe(s, schedule[0]);
      RunSpendsWork(Step(s, schedule[0]), schedule[1..]);
    }
  }

  /** The task is somewhere between a failed decrement and the return of mutex_lock(). */
  predicate Acquiring(pc: Pc) {
    pc.WantSlow? || pc.TestLocked? || pc.TryExchange? || pc.Enqueue? || Listed(pc)
    || pc.ResetCount? || pc.SetOwner? || pc.DropAfterLock?
  }

  /** At some point of the run `t` has returned from mutex_lock(). */
  ghost predicate Acquires(s: State, schedule: seq<TaskId>, t: TaskId)
    requires CanRun(s, schedule)
  {
    exists i :: 0 <= i <= |schedule| && t < |States(s, schedule)[i].tasks|
                && States(s, schedule)[i].tasks[t].pc == Holding
  }

  /** A task that was acquiring and is idle again has held the mutex in between. */
  lemma {:induction false} AcquiresBeforeIdle(s: State, schedule: seq<TaskId>, t: TaskId)
    requires CanRun(s, schedule) && t < |s.tasks| && Acquiring(s.tasks[t].pc)
    requires t < |Run(s, schedule).tasks| && Run(s, schedule).tasks[t].pc == Idle
    ensures Acquires(s, schedule, t)
    decreases schedule
  {
    var s' := Step(s, schedule[0]);
    var states := States(s', schedule[1..]);
    assert States(s, schedule) == [s] + states;
    StepMovesOnlyActor(s, schedule[0]);
    if s'.tasks[t].pc == Holding {
      assert States(s, schedule)[1] == s';
    } else {
      assert Acquiring(s'.tasks[t].pc);
      AcquiresBeforeIdle(s', schedule[1..], t);
      var i :| 0 <= i <= |schedule[1..]| && t < |states[i].tasks| && states[i].tasks[t].pc == Holding;
      assert States(s, schedule)[i + 1] == states[i];
    }
  }

  /**
   Every waiter is served.  From any reachable state, let the tasks under way run in any order, with
   no new arrivals.  Such a run has at most 23 steps per task, and once it can go no further the
   mutex is free, nobody waits, and every task that was acquiring the mutex has held it.
   */
  lemma EveryWaiterServed(s: State, schedule: seq<TaskId>)
    requires Reachable(s) && CanRun(s, schedule) && NoArrivals(s, schedule)
    ensures |schedule| <= 23 * |s.tasks|
    ensures !CanProceed(Run(s, schedule)) ==> Quiescent(Run(s, schedule))
    ensures !CanProceed(Run(s, schedule)) ==>
              forall t: TaskId | t < |s.tasks| && Acquiring(s.tasks[t].pc) :: Acquires(s, schedule, t)
  {
    ReachableSafe(s);
    RunSpendsWork(s, schedule);
    SumBound(s.tasks, Work, 23);
    RunKeepsSafe(s, schedule);
    if !CanProceed(Run(s, schedule)) {
      DeadlockFree(Run(s, schedule));
      forall t: TaskId | t < |s.tasks| && Acquiring(s.tasks[t].pc)
        ensures Acquires(s, schedule, t)
      {
        AcquiresBeforeIdle(s, schedule, t);
      }
    }
  }

  // ---------------------------------------------------------------- the shared object

  /** The mutex and the tasks that use it, updated in place. */
  class Mutex {
    var count: int
    var owner: Option<TaskId>
    var waitLock: Option<TaskId>
    var waitList: seq<TaskId>
    var tasks: seq<Task>

    function View(): State
      reads this
    {
      State(count, owner, waitLock, waitList, tasks)
    }

    constructor (n: nat)
      ensures View() == Initial(n)
    {
      count, owner, waitLock, waitList := 1, None, None, [];
      tasks := seq(n, i => Task(Idle, true));
    }

    method Move(t: TaskId, pc: Pc)
      requires t < |tasks|
      modifies this`tasks
      ensures tasks == old(tasks)[t := old(tasks)[t].(pc := pc)]
    {
      tasks := tasks[t := tasks[t].(pc := pc)];
    }

    /** mutex_lock() on the fast path. */
    method Lock(t: TaskId)
      requires t < |tasks| && tasks[t].pc == Idle
      modifies this
      ensures View() == Step(old(View()), t)
    {
      count := count - 1;
      if count >= 0 {
        Move(t, Holding);
      } else {
        Move(t, WantSlow);
      }
    }

    /** __mutex_lock_common(), one atomic step. */
    method LockCommon(t: TaskId)
      requires Enabled(View(), t) && Acquiring(tasks[t].pc)
      modifies this
      ensures View() == Step(old(View()), t)
    {
      var prev := count;
      match tasks[t].pc
      case WantSlow =>
        waitLock := Some(t);
        Move(t, TestLocked);
      case TestLocked =>
        Move(t, if count == 1 then TryExchange else Enqueue);
      case TryExchange =>
        count := 0;
        Move(t, if prev == 1 then SetOwner else Enqueue);
      case Enqueue =>
        waitList := waitList + [t];
        Move(t, WaiterExchange);
      case WaiterExchange =>
        count := -1;
        Move(t, if prev == 1 then Dequeue else MarkAsleep);
      case MarkAsleep =>
        tasks := tasks[t := tasks[t].(runnable := false)];
        Move(t, DropForSleep);
      case DropForSleep =>
        waitLock := None;
        Move(t, Scheduled);
      case Scheduled =>
        Move(t, WantRetry);
      case WantRetry =>
        waitLock := Some(t);
        Move(t, WaiterExchange);
      case Dequeue =>
        waitList := Without(waitList, t);
        Move(t, ResetCount);
      case ResetCount =>
        if waitList == [] {
          count := 0;
        }
        Move(t, SetOwner);
      case SetOwner =>
        owner := Some(t);
        Move(t, DropAfterLock);
      case DropAfterLock =>
        waitLock := None;
        Move(t, Holding);
    }

    /** mutex_unlock(): clear the owner, then increment. */
    method Unlock(t: TaskId)
      requires t < |tasks| && (tasks[t].pc == Holding || tasks[t].pc == Increment)
      modifies this
      ensures View() == Step(old(View()), t)
    {
      if tasks[t].pc == Holding {
        owner := None;
        Move(t, Increment);
      } else {
        var prev := count;
        count := count + 1;
        if prev != 0 {
          Move(t, SetUnlocked);
        } else {
          Move(t, Idle);
        }
      }
    }

    /** __mutex_unlock_common_slowpath(), one atomic step. */
    method UnlockSlowpath(t: TaskId)
      requires Enabled(View(), t) && (OwesWake(tasks[t].pc) || tasks[t].pc == DropAfterWake)
      modifies this
      ensures View() == Step(old(View()), t)
    {
      match tasks[t].pc
      case SetUnlocked =>
        count := 1;
        Move(t, WantWake);
      case WantWake =>
        waitLock := Some(t);
        Move(t, WakeFirst);
      case WakeFirst =>
        Move(t, DropAfterWake);
        if waitList != [] && waitList[0] < |tasks| {
          var first := waitList[0];
          tasks := tasks[first := tasks[first].(runnable := true)];
        }
      case DropAfterWake =>
        waitLock := None;
        Move(t, Idle);
    }

    /** Tasks take their steps in the order of `schedule`; the object stays safe throughout. */
    method Execute(schedule: seq<TaskId>)
      requires Safe(View()) && CanRun(View(), schedule)
      modifies this
      ensures View() == Run(old(View()), schedule)
      ensures Safe(View())
    {
      var i := 0;
      while i < |schedule|
        invariant 0 <= i <= |schedule|
        invariant Safe(View()) && CanRun(View(), schedule[i..])
        invariant Run(View(), schedule[i..]) == Run(old(View()), schedule)
      {
        var t := schedule[i];
        assert schedule[i..][0] == t && schedule[i..][1..] == schedule[i + 1..];
        StepKeepsSafe(View(), t);
        match tasks[t].pc {
          case Idle => Lock(t);
          case Holding | Increment => Unlock(t);
          case SetUnlocked | WantWake | WakeFirst | DropAfterWake => UnlockSlowpath(t);
          case _ => LockCommon(t);
        }
        i := i + 1;
      }
    }
  }
}

/**
 Which way the paths of the mutex go: a free mutex is taken without queueing, and a lock that fails is not
 overlooked by the unlock.
 */
module SleepingMutexPaths {
  import opened Prelude
  import opened SleepingMutex

  // ---------------------------------------------------------------- a free mutex is taken at once

  /** Under the spinlock, and not decided yet whether to queue. */
  predicate Deciding(s: State, t: TaskId) {
    && t < |s.tasks| && s.waitLock == Some(t)
    && (s.tasks[t].pc == TestLocked || s.tasks[t].pc == TryExchange)
  }

  /**
   A task that finds the mutex free under the spinlock takes it: two steps on it holds the mutex, two
   more and it has returned as the owner, and the wait list is what it was.
   */
  lemma TakesFreeMutex(s: State, t: TaskId)
    requires Reachable(s) && t < |s.tasks| && s.tasks[t].pc == TestLocked && s.count == 1
    ensures CanRun(s, [t] + [t])
    ensures var s' := Run(s, [t] + [t]);
            && t < |s'.tasks| && HoldsMutex(s'.tasks[t].pc) && s'.count == 0 && s'.waitList == s.waitList
            && CanRun(s', [t] + [t])
            && Run(s', [t] + [t])
               == s.(count := 0, owner := Some(t), waitLock := None, tasks := s.tasks[t := s.tasks[t].(pc := Holding)])
  {
    TwoSteps(s, t);
    TwoSteps(Step(Step(s, t), t), t);
  }

  lemma TwoSteps(s: State, t: TaskId)
    requires Enabled(s, t) && Enabled(Step(s, t), t)
    ensures CanRun(s, [t] + [t]) && Run(s, [t] + [t]) == Step(Step(s, t), t)
  {
    assert ([t] + [t])[1..] == [t] && [t][1..] == [];
    assert CanRun(Step(s, t), [t]) && Run(Step(s, t), [t]) == Step(Step(s, t), t);
  }

  /**
   A task that loses the mutex to the fast path between its test and its exchange leaves `count` at 0
   whatever it was, queues last, and leaves it at -1, so that the winner unlocks on the slow path.
   */
  lemma LosesToFastPath(s: State, t: TaskId)
    requires Reachable(s) && t < |s.tasks| && s.tasks[t].pc == TryExchange && s.count != 1
    ensures var lost := Step(s, t);
            && lost.count == 0 && lost.owner == s.owner && Enabled(lost, t)
            && var queued := Step(lost, t);
               && queued.waitList == s.waitList + [t] && queued.count == 0 && Enabled(queued, t)
               && Step(queued, t).count == -1 && Step(queued, t).tasks[t].pc == MarkAsleep
    ensures exists h :: 0 <= h < |s.tasks| && h != t && HasToken(s.tasks[h].pc)
  {
    ReachableSafe(s);
    var h :| 0 <= h < |s.tasks| && HasToken(s.tasks[h].pc);
  }

  /** At some moment of the run `t`, under the spinlock, found the mutex not free. */
  ghost predicate SeesLocked(s: State, schedule: seq<TaskId>, t: TaskId)
    requires CanRun(s, schedule)
  {
    exists state <- States(s, schedule) :: Deciding(state, t) && state.count != 1
  }

  lemma SeesLockedLater(s: State, schedule: seq<TaskId>, t: TaskId)
    requires CanRun(s, schedule) && schedule != []
    requires (Deciding(s, t) && s.count != 1) || SeesLocked(Step(s, schedule[0]), schedule[1..], t)
    ensures SeesLocked(s, schedule, t)
  {
    var rest := States(Step(s, schedule[0]), schedule[1..]);
    assert States(s, schedule) == [s] + rest;
    if Deciding(s, t) && s.count != 1 {
      assert s in States(s, schedule);
    } else {
      var state :| state in rest && Deciding(state, t) && state.count != 1;
      assert state in States(s, schedule);
    }
  }

  /** Only a task that decides goes on to queue. */
  lemma StepTowardsQueue(s: State, u: TaskId, t: TaskId)
    requires Safe(s) && Enabled(s, u) && t < |s.tasks| && t !in s.waitList && s.tasks[t].pc != Enqueue
    ensures t < |Step(s, u).tasks|
    ensures Step(s, u).tasks[t].pc == Enqueue ==> Deciding(s, t) && s.count != 1
    ensures t !in Step(s, u).waitList
  {
    StepKeepsSafe(s, u);
    StepMovesOnlyActor(s, u);
    assert t in s.waitList <==> Listed(s.tasks[t].pc);
    assert t in Step(s, u).waitList <==> Listed(Step(s, u).tasks[t].pc);
  }

  /** In every run, a task joins the wait list only if it saw a mutex that was not free under the spinlock. */
  lemma {:induction false} QueuesOnlyWhenLocked(s: State, schedule: seq<TaskId>, t: TaskId)
    requires Safe(s) && CanRun(s, schedule) && t < |s.tasks|
    requires t !in s.waitList && s.tasks[t].pc != Enqueue && t in Run(s, schedule).waitList
    ensures SeesLocked(s, schedule, t)
    decreases schedule
  {
    var s' := Step(s, schedule[0]);
    StepKeepsSafe(s, schedule[0]);
    StepTowardsQueue(s, schedule[0], t);
    if s'.tasks[t].pc != Enqueue {
      QueuesOnlyWhenLocked(s', schedule[1..], t);
    }
    SeesLockedLater(s, schedule, t);
  }

  // ---------------------------------------------------------------- every decrement counts

  /** The step writes `count` over, whatever it was. */
  predicate Overwrites(pc: Pc) {
    pc.TryExchange? || pc.WaiterExchange? || pc.ResetCount? || pc.SetUnlocked?
  }

  ghost predicate NoOverwrites(s: State, schedule: seq<TaskId>)
    requires CanRun(s, schedule)
    decreases schedule
  {
    schedule == []
    || (!Overwrites(s.tasks[schedule[0]].pc) && NoOverwrites(Step(s, schedule[0]), schedule[1..]))
  }

  /** How many steps of the run are taken at `pc`. */
  ghost function StepsAt(s: State, schedule: seq<TaskId>, pc: Pc): nat
    requires CanRun(s, schedule)
    decreases schedule
  {
    if schedule == [] then 0
    else (if s.tasks[schedule[0]].pc == pc then 1 else 0) + StepsAt(Step(s, schedule[0]), schedule[1..], pc)
  }

  /** `count` counts every call of mutex_lock() down and every increment up, until it is written over. */
  lemma {:induction false} EveryCallCounted(s: State, schedule: seq<TaskId>)
    requires CanRun(s, schedule) && NoOverwrites(s, schedule)
    ensures Run(s, schedule).count == s.count - StepsAt(s, schedule, Idle) + StepsAt(s, schedule, Increment)
    decreases schedule
  {
    if schedule != [] {
      EveryCallCounted(Step(s, schedule[0]), schedule[1..]);
    }
  }

  /** `h` holds the mutex in every state of the run. */
  ghost predicate HoldsThroughout(s: State, schedule: seq<TaskId>, h: TaskId)
    requires CanRun(s, schedule)
    decreases schedule
  {
    && h < |s.tasks| && HoldsMutex(s.tasks[h].pc)
    && (schedule != [] ==> HoldsThroughout(Step(s, schedule[0]), schedule[1..], h))
  }

  lemma OnlyHolderIncrements(s: State, t: TaskId, h: TaskId)
    requires Safe(s) && Enabled(s, t) && h < |s.tasks| && HoldsMutex(s.tasks[h].pc)
    requires h < |Step(s, t).tasks| && HoldsMutex(Step(s, t).tasks[h].pc)
    ensures s.tasks[t].pc != Increment
  {
    assert HasToken(s.tasks[h].pc) && (HasToken(s.tasks[t].pc) ==> t == h);
  }

  lemma {:induction false} NobodyIncrements(s: State, schedule: seq<TaskId>, h: TaskId)
    requires Safe(s) && CanRun(s, schedule) && HoldsThroughout(s, schedule, h)
    ensures StepsAt(s, schedule, Increment) == 0
    decreases schedule
  {
    if schedule != [] {
      StepKeepsSafe(s, schedule[0]);
      OnlyHolderIncrements(s, schedule[0], h);
      NobodyIncrements(Step(s, schedule[0]), schedule[1..], h);
    }
  }

  lemma LockFails(s: State, u: TaskId, h: TaskId)
    requires Reachable(s) && h < |s.tasks| && HoldsMutex(s.tasks[h].pc)
    requires u < |s.tasks| && s.tasks[u].pc == Idle
    ensures Step(s, u).tasks[u].pc == WantSlow && Step(s, u).count < 0 && Safe(Step(s, u))
  {
    MutualExclusion(s, h, h);
    ReachableSafe(s);
    StepKeepsSafe(s, u);
  }

  /**
   A lock that fails on the fast path is not overlooked: as long as nobody writes `count` over, the
   holder finds it negative and unlocks on the slow path.
   */
  lemma FailedLockSeen(s: State, u: TaskId, schedule: seq<TaskId>, h: TaskId)
    requires Reachable(s) && h < |s.tasks| && HoldsMutex(s.tasks[h].pc)
    requires u < |s.tasks| && s.tasks[u].pc == Idle
    requires CanRun(Step(s, u), schedule) && NoOverwrites(Step(s, u), schedule)
    requires HoldsThroughout(Step(s, u), schedule, h)
    ensures Step(s, u).tasks[u].pc == WantSlow
    ensures var end := Run(Step(s, u), schedule);
            && end.count < 0
            && (h < |end.tasks| && end.tasks[h].pc == Increment ==> Step(end, h).tasks[h].pc == SetUnlocked)
  {
    LockFails(s, u, h);
    EveryCallCounted(Step(s, u), schedule);
    NobodyIncrements(Step(s, u), schedule, h);
  }
}

/**
 With arrivals, waiting is unbounded: a schedule in which a listed task is overtaken on the fast path any
 number of times.
 */
module SleepingMutexBarging {
  import opened Prelude
  import opened SleepingMutex

  /** The task is waiting in every state of the run. */
  ghost predicate WaitsAlong(s: State, schedule: seq<TaskId>, t: TaskId)
    requires CanRun(s, schedule)
    decreases schedule
  {
    && t in s.waitList
    && (schedule != [] ==> WaitsAlong(Step(s, schedule[0]), schedule[1..], t))
  }

  /** How often the task acquires the mutex on the fast path during the run. */
  ghost function FastLocks(s: State, schedule: seq<TaskId>, t: TaskId): nat
    requires CanRun(s, schedule)
    decreases schedule
  {
    if schedule == [] then 0
    else
      var fast := schedule[0] == t && s.tasks[t].pc == Idle && Step(s, t).tasks[t].pc == Holding;
      (if fast then 1 else 0) + FastLocks(Step(s, schedule[0]), schedule[1..], t)
  }

  /** Two tasks: the first sleeps in the wait list, the second holds the mutex. */
  function Contended(): State {
    State(-1, None, None, [0], [Task(Scheduled, false), Task(Holding, true)])
  }

  /** The second task unlocks, wakes the first, and locks again before that one has run. */
  function Barge(rest: seq<TaskId>): seq<TaskId> {
    [1] + ([1] + ([1] + Wake(rest)))
  }

  function Wake(rest: seq<TaskId>): seq<TaskId> {
    [1] + ([1] + ([1] + ([1] + rest)))
  }

  /** The first task runs, finds the mutex taken, and goes back to sleep. */
  function TryInVain(rest: seq<TaskId>): seq<TaskId> {
    [0] + ([0] + Sleep(rest))
  }

  function Sleep(rest: seq<TaskId>): seq<TaskId> {
    [0] + ([0] + ([0] + rest))
  }

  function Barges(m: nat): seq<TaskId> {
    if m == 0 then [] else Barge(TryInVain(Barges(m - 1)))
  }

  function Overtaken(): State {
    State(0, None, None, [0], [Task(Scheduled, true), Task(Holding, true)])
  }

  /** One step of a run, with what it adds. */
  lemma RunStep(s: State, t: TaskId, s': State, rest: seq<TaskId>)
    requires Enabled(s, t) && s' == Step(s, t) && CanRun(s', rest)
    ensures var all := [t] + rest;
            && CanRun(s, all) && Run(s, all) == Run(s', rest)
            && (WaitsAlong(s, all, 0) <==> 0 in s.waitList && WaitsAlong(s', rest, 0))
            && FastLocks(s, all, 1)
               == FastLocks(s', rest, 1)
                  + if t == 1 && s.tasks[1].pc == Idle && s'.tasks[1].pc == Holding then 1 else 0
  {
    var all := [t] + rest;
    assert all[0] == t && all[1..] == rest;
  }

  function Two(count: int, waitLock: Option<TaskId>, pc0: Pc, awake: bool, pc1: Pc): State {
    State(count, None, waitLock, [0], [Task(pc0, awake), Task(pc1, true)])
  }

  /** From `s` the schedule `all` leads where `rest` leads from `s'`, with `locks` fast locks more. */
  ghost predicate Leads(s: State, all: seq<TaskId>, s': State, rest: seq<TaskId>, locks: nat) {
    && CanRun(s', rest) && CanRun(s, all) && Run(s, all) == Run(s', rest)
    && (WaitsAlong(s', rest, 0) ==> WaitsAlong(s, all, 0))
    && FastLocks(s, all, 1) == FastLocks(s', rest, 1) + locks
  }

  lemma BargeRun(rest: seq<TaskId>)
    requires CanRun(Overtaken(), rest)
    ensures Leads(Contended(), Barge(rest), Overtaken(), rest, 1)
  {
    WakeRun(rest);
    UnlockRun(Wake(rest));
  }

  /** One step more ahead of a run. */
  lemma LeadsStep(s: State, t: TaskId, s': State, all: seq<TaskId>, end: State, rest: seq<TaskId>, n: nat)
    requires Enabled(s, t) && s' == Step(s, t) && Leads(s', all, end, rest, n)
    requires 0 in s.waitList && s.tasks[t].pc != Idle
    ensures Leads(s, [t] + all, end, rest, n)
  {
    assert ([t] + all)[0] == t && ([t] + all)[1..] == all;
  }

  lemma WakeRun(rest: seq<TaskId>)
    requires CanRun(Overtaken(), rest)
    ensures Leads(Two(1, None, Scheduled, false, WantWake), Wake(rest), Overtaken(), rest, 1)
  {
    var c := Two(1, Some(1), Scheduled, false, WakeFirst);
    RelockRun(rest);
    LeadsStep(c, 1, Two(1, Some(1), Scheduled, true, DropAfterWake), [1] + ([1] + rest), Overtaken(), rest, 1);
    LeadsStep(Two(1, None, Scheduled, false, WantWake), 1, c, [1] + ([1] + ([1] + rest)), Overtaken(), rest, 1);
  }

  lemma RelockRun(rest: seq<TaskId>)
    requires CanRun(Overtaken(), rest)
    ensures Leads(Two(1, Some(1), Scheduled, true, DropAfterWake), [1] + ([1] + rest), Overtaken(), rest, 1)
  {
    var a := Two(1, None, Scheduled, true, Idle);
    RunStep(a, 1, Overtaken(), rest);
    RunStep(Two(1, Some(1), Scheduled, true, DropAfterWake), 1, a, [1] + rest);
  }

  lemma UnlockRun(rest: seq<TaskId>)
    requires CanRun(Two(1, None, Scheduled, false, WantWake), rest)
    ensures Leads(Contended(), [1] + ([1] + ([1] + rest)), Two(1, None, Scheduled, false, WantWake), rest, 0)
  {
    var a, b := Two(0, None, Scheduled, false, SetUnlocked), Two(-1, None, Scheduled, false, Increment);
    RunStep(a, 1, Two(1, None, Scheduled, false, WantWake), rest);
    RunStep(b, 1, a, [1] + rest);
    RunStep(Contended(), 1, b, [1] + ([1] + rest));
  }

  lemma SleepRun(rest: seq<TaskId>)
    requires CanRun(Contended(), rest)
    ensures forall count | count == 0 || count == -1 ::
              Leads(Two(count, Some(0), WaiterExchange, true, Holding), Sleep(rest), Contended(), rest, 0)
  {
    var a, b := Two(-1, Some(0), DropForSleep, false, Holding), Two(-1, Some(0), MarkAsleep, true, Holding);
    RunStep(a, 0, Contended(), rest);
    RunStep(b, 0, a, [0] + rest);
    RunStep(Two(0, Some(0), WaiterExchange, true, Holding), 0, b, [0] + ([0] + rest));
    RunStep(Two(-1, Some(0), WaiterExchange, true, Holding), 0, b, [0] + ([0] + rest));
  }

  lemma TryInVainRun(rest: seq<TaskId>)
    requires CanRun(Contended(), rest)
    ensures Leads(Overtaken(), TryInVain(rest), Contended(), rest, 0)
  {
    var a, b := Two(0, Some(0), WaiterExchange, true, Holding), Two(0, None, WantRetry, true, Holding);
    SleepRun(rest);
    assert Leads(a, Sleep(rest), Contended(), rest, 0);
    RunStep(b, 0, a, Sleep(rest));
    RunStep(Overtaken(), 0, b, [0] + Sleep(rest));
  }

  lemma RoundRun(rest: seq<TaskId>)
    requires CanRun(Contended(), rest)
    ensures Leads(Contended(), Barge(TryInVain(rest)), Contended(), rest, 1)
  {
    TryInVainRun(rest);
    BargeRun(TryInVain(rest));
  }

  lemma {:induction false} BargesRun(m: nat)
    ensures CanRun(Contended(), Barges(m)) && Run(Contended(), Barges(m)) == Contended()
    ensures WaitsAlong(Contended(), Barges(m), 0) && FastLocks(Contended(), Barges(m), 1) == m
  {
    if m > 0 {
      BargesRun(m - 1);
      RoundRun(Barges(m - 1));
    }
  }

  /** The second task locks on the fast path, then the first one goes to sleep. */
  lemma ContendedReachable()
    ensures Reachable(Contended())
  {
    var held := State(0, None, None, [], [Task(Idle, true), Task(Holding, true)]);
    var schedule := [0] + ([0] + ([0] + ([0] + Sleep([]))));
    SleepRun([]);
    QueueRun(held, Sleep([]));
    assert Initial(2).tasks == [Task(Idle, true), Task(Idle, true)];
    assert Step(Initial(2), 1) == held;
    assert ([1] + schedule)[0] == 1 && ([1] + schedule)[1..] == schedule;
    assert CanRun(Initial(2), [1] + schedule) && Run(Initial(2), [1] + schedule) == Contended();
  }

  lemma QueueRun(s: State, rest: seq<TaskId>)
    requires s == State(0, None, None, [], [Task(Idle, true), Task(Holding, true)])
    requires CanRun(Two(-1, Some(0), WaiterExchange, true, Holding), rest)
    ensures var all := [0] + ([0] + ([0] + ([0] + rest)));
            CanRun(s, all) && Run(s, all) == Run(Two(-1, Some(0), WaiterExchange, true, Holding), rest)
  {
    var tail := [Task(Holding, true)];
    var a := State(-1, None, None, [], [Task(WantSlow, true)] + tail);
    var b := State(-1, None, Some(0), [], [Task(TestLocked, true)] + tail);
    var c := State(-1, None, Some(0), [], [Task(Enqueue, true)] + tail);
    RunStep(c, 0, Two(-1, Some(0), WaiterExchange, true, Holding), rest);
    RunStep(b, 0, c, [0] + rest);
    RunStep(a, 0, b, [0] + ([0] + rest));
    RunStep(s, 0, a, [0] + ([0] + ([0] + rest)));
  }

  /**
   Without the condition on arrivals a waiter need not be served.  From a reachable state a listed task
   can be overtaken on the fast path any number of times, waiting all along.
   */
  lemma BargingUnbounded(m: nat)
    ensures Reachable(Contended())
    ensures exists schedule ::
              && CanRun(Contended(), schedule) && WaitsAlong(Contended(), schedule, 0)
              && FastLocks(Contended(), schedule, 1) >= m
  {
    ContendedReachable();
    BargesRun(m);
  }
}

/**
 The example that the notes on the mutex draw column by column, as a run of the steps: one task locks,
 two queue behind it, it unlocks, and the first of them takes over.
 */
module SleepingMutexExample {
  import opened Prelude
  import opened SleepingMutex

  /** What a diagram shows of the mutex. */
  datatype Column = Column(count: int, locked: bool, waitList: seq<TaskId>, owner: Option<TaskId>)

  function ColumnOf(s: State): Column {
    Column(s.count, s.waitLock != None, s.waitList, s.owner)
  }

  /** The next `steps` steps, all of task `t`, end in `column`. */
  datatype Diagram = Diagram(t: TaskId, steps: nat, column: Column)

  /** `t` takes `steps` steps, from `s` to `end`. */
  ghost predicate Goes(s: State, t: TaskId, steps: nat, end: State)
    decreases steps
  {
    if steps == 0 then s == end else Enabled(s, t) && Goes(Step(s, t), t, steps - 1, end)
  }

  /** A run from `s` to `end` goes through the diagrams one after the other. */
  ghost predicate Follows(s: State, diagrams: seq<Diagram>, end: State)
    decreases |diagrams|
  {
    if diagrams == [] then s == end
    else exists next ::
           && Goes(s, diagrams[0].t, diagrams[0].steps, next) && ColumnOf(next) == diagrams[0].column
           && Follows(next, diagrams[1..], end)
  }

  /** Diagram `i` of a list, and then those after it. */
  lemma FollowsNext(s: State, next: State, all: seq<Diagram>, i: nat, end: State)
    requires i < |all| && Goes(s, all[i].t, all[i].steps, next) && ColumnOf(next) == all[i].column
    requires Follows(next, all[i + 1..], end)
    ensures Follows(s, all[i..], end)
  {
    assert all[i..][0] == all[i] && all[i..][1..] == all[i + 1..];
  }

  lemma FollowsEnd(s: State, all: seq<Diagram>)
    ensures Follows(s, all[|all|..], s)
  {}

  lemma GoesOne(s: State, t: TaskId, next: State)
    requires Enabled(s, t) && Step(s, t) == next
    ensures Goes(s, t, 1, next)
  {}

  lemma GoesTwo(s: State, t: TaskId, mid: State, next: State)
    requires Enabled(s, t) && Step(s, t) == mid && Enabled(mid, t) && Step(mid, t) == next
    ensures Goes(s, t, 2, next)
  {}

  lemma {:induction false} GoesOn(s: State, t: TaskId, a: nat, mid: State, b: nat, end: State)
    requires Goes(s, t, a, mid) && Goes(mid, t, b, end)
    ensures Goes(s, t, a + b, end)
    decreases a
  {
    if a > 0 {
      GoesOn(Step(s, t), t, a - 1, mid, b, end);
    }
  }

  lemma {:induction false} FollowsOn(s: State, a: seq<Diagram>, mid: State, b: seq<Diagram>, end: State)
    requires Follows(s, a, mid) && Follows(mid, b, end)
    ensures Follows(s, a + b, end)
    decreases a
  {
    if a == [] {
      assert a + b == b;
    } else {
      var next :| Goes(s, a[0].t, a[0].steps, next) && ColumnOf(next) == a[0].column && Follows(next, a[1..], mid);
      FollowsOn(next, a[1..], mid, b, end);
      assert (a + b)[1..] == a[1..] + b;
    }
  }

  lemma {:induction false} GoesReachable(s: State, t: TaskId, steps: nat, end: State)
    requires Reachable(s) && Goes(s, t, steps, end)
    ensures Reachable(end)
    decreases steps
  {
    if steps > 0 {
      ReachableNext(s, t);
      GoesReachable(Step(s, t), t, steps - 1, end);
    }
  }

  lemma ReachableNext(s: State, t: TaskId)
    requires Reachable(s) && Enabled(s, t)
    ensures Reachable(Step(s, t))
  {
    var n: nat, schedule: seq<TaskId> :| CanRun(Initial(n), schedule) && Run(Initial(n), schedule) == s;
    RunAppend(Initial(n), schedule, t);
  }

  lemma {:induction false} RunAppend(s: State, schedule: seq<TaskId>, t: TaskId)
    requires CanRun(s, schedule) && Enabled(Run(s, schedule), t)
    ensures CanRun(s, schedule + [t]) && Run(s, schedule + [t]) == Step(Run(s, schedule), t)
    decreases schedule
  {
    if schedule == [] {
      assert [t][1..] == [] && [] + [t] == [t];
    } else {
      RunAppend(Step(s, schedule[0]), schedule[1..], t);
      assert (schedule + [t])[1..] == schedule[1..] + [t];
    }
  }

  /** The mutex and the three tasks of the example, and a fourth one that is done. */
  function Four(count: int, owner: Option<TaskId>, waitLock: Option<TaskId>, waitList: seq<TaskId>,
                a: Task, b: Task, c: Task, d: Pc): State {
    State(count, owner, waitLock, waitList, [a, b, c, Task(d, true)])
  }

  const SLOW := Task(WantSlow, true)
  const ASLEEP := Task(Scheduled, false)
  const HOLDS := Task(Holding, true)
  const OUT := Task(Idle, true)

  /** 1) a mutex that looks new, and three tasks that failed on the fast path while a fourth one held it. */
  function ExampleStart(): State {
    Four(1, None, None, [], SLOW, SLOW, SLOW, Idle)
  }

  lemma StartReachable()
    ensures Reachable(ExampleStart())
  {
    ThreeFail();
    StartUnlocks();
    GoesReachable(AllFailed(), 3, 6, ExampleStart());
  }

  function AllFailed(): State {
    Four(-3, None, None, [], SLOW, SLOW, SLOW, Holding)
  }

  lemma FourthLocks()
    ensures Reachable(Four(0, None, None, [], OUT, OUT, OUT, Holding))
  {
    var i := Initial(4);
    assert i == Four(1, None, None, [], OUT, OUT, OUT, Idle);
    assert CanRun(i, []) && Run(i, []) == i;
    ReachesBy(i, 3, Four(0, None, None, [], OUT, OUT, OUT, Holding));
  }

  lemma ThreeFail()
    ensures Reachable(AllFailed())
  {
    var one := Four(-1, None, None, [], SLOW, OUT, OUT, Holding);
    var two := Four(-2, None, None, [], SLOW, SLOW, OUT, Holding);
    FourthLocks();
    ReachesBy(Four(0, None, None, [], OUT, OUT, OUT, Holding), 0, one);
    ReachesBy(one, 1, two);
    ReachesBy(two, 2, AllFailed());
  }

  lemma ReachesBy(s: State, t: TaskId, next: State)
    requires Reachable(s) && Enabled(s, t) && Step(s, t) == next
    ensures Reachable(next)
  {
    ReachableNext(s, t);
  }

  lemma StartUnlocks()
    ensures Goes(AllFailed(), 3, 6, ExampleStart())
  {
    var s2 := Four(-2, None, None, [], SLOW, SLOW, SLOW, SetUnlocked);
    var s4 := Four(1, None, Some(3), [], SLOW, SLOW, SLOW, WakeFirst);
    GoesTwo(AllFailed(), 3, Four(-3, None, None, [], SLOW, SLOW, SLOW, Increment), s2);
    GoesTwo(s2, 3, Four(1, None, None, [], SLOW, SLOW, SLOW, WantWake), s4);
    GoesTwo(s4, 3, Four(1, None, Some(3), [], SLOW, SLOW, SLOW, DropAfterWake), ExampleStart());
    GoesOn(AllFailed(), 3, 2, s2, 2, s4);
    GoesOn(AllFailed(), 3, 4, s4, 2, ExampleStart());
  }

  /** 2) task 0 locks, finding the mutex free. */
  function Diagrams2(): seq<Diagram> {
    [Diagram(0, 1, Column(1, true, [], None)), Diagram(0, 2, Column(0, true, [], None)),
     Diagram(0, 1, Column(0, true, [], Some(0))), Diagram(0, 1, Column(0, false, [], Some(0)))]
  }

  function AfterLock(): State {
    Four(0, Some(0), None, [], HOLDS, SLOW, SLOW, Idle)
  }

  lemma Example2()
    ensures Follows(ExampleStart(), Diagrams2(), AfterLock())
  {
    var s1 := Four(1, None, Some(0), [], Task(TestLocked, true), SLOW, SLOW, Idle);
    var s2 := Four(0, None, Some(0), [], Task(SetOwner, true), SLOW, SLOW, Idle);
    var s3 := Four(0, Some(0), Some(0), [], Task(DropAfterLock, true), SLOW, SLOW, Idle);
    var all, end := Diagrams2(), AfterLock();
    GoesOne(ExampleStart(), 0, s1);
    GoesTwo(s1, 0, s1.(tasks := [Task(TryExchange, true), SLOW, SLOW, OUT]), s2);
    GoesOne(s2, 0, s3);
    GoesOne(s3, 0, end);
    FollowsEnd(end, all);
    FollowsNext(s3, end, all, 3, end);
    FollowsNext(s2, s3, all, 2, end);
    FollowsNext(s1, s2, all, 1, end);
    FollowsNext(ExampleStart(), s1, all, 0, end);
    assert all[0..] == all;
  }

  /** 3) and 4) a task queues behind `list`, tries in vain, and goes to sleep. */
  function DiagramsQueue(t: TaskId, count: int, list: seq<TaskId>): seq<Diagram> {
    [Diagram(t, 1, Column(count, true, list, Some(0))), Diagram(t, 2, Column(count, true, list + [t], Some(0))),
     Diagram(t, 1, Column(-1, true, list + [t], Some(0))), Diagram(t, 2, Column(-1, false, list + [t], Some(0)))]
  }

  /** A state of the example in which task 1 or task 2 is at `pc`. */
  function Queueing(t: TaskId, count: int, lock: Option<TaskId>, list: seq<TaskId>, task: Task): State {
    if t == 1 then Four(count, Some(0), lock, list, HOLDS, task, SLOW, Idle)
    else Four(count, Some(0), lock, list, HOLDS, ASLEEP, task, Idle)
  }

  lemma ExampleQueues(t: TaskId, count: int, list: seq<TaskId>)
    requires t == 1 || t == 2
    requires count <= 0
    ensures Follows(Queueing(t, count, None, list, SLOW), DiagramsQueue(t, count, list),
                    Queueing(t, -1, None, list + [t], ASLEEP))
  {
    var s1, s2, s3, end := Queueing(t, count, Some(t), list, Task(TestLocked, true)),
                           Queueing(t, count, Some(t), list + [t], Task(WaiterExchange, true)),
                           Queueing(t, -1, Some(t), list + [t], Task(MarkAsleep, true)),
                           Queueing(t, -1, None, list + [t], ASLEEP);
    var start, all := Queueing(t, count, None, list, SLOW), DiagramsQueue(t, count, list);
    QueueingSteps(t, count, list);
    FollowsEnd(end, all);
    FollowsNext(s3, end, all, 3, end);
    FollowsNext(s2, s3, all, 2, end);
    FollowsNext(s1, s2, all, 1, end);
    FollowsNext(start, s1, all, 0, end);
    assert all[0..] == all;
  }

  lemma QueueingSteps(t: TaskId, count: int, list: seq<TaskId>)
    requires t == 1 || t == 2
    requires count <= 0
    ensures Goes(Queueing(t, count, None, list, SLOW), t, 1, Queueing(t, count, Some(t), list, Task(TestLocked, true)))
    ensures Goes(Queueing(t, count, Some(t), list, Task(TestLocked, true)), t, 2,
                 Queueing(t, count, Some(t), list + [t], Task(WaiterExchange, true)))
    ensures Goes(Queueing(t, count, Some(t), list + [t], Task(WaiterExchange, true)), t, 1,
                 Queueing(t, -1, Some(t), list + [t], Task(MarkAsleep, true)))
    ensures Goes(Queueing(t, -1, Some(t), list + [t], Task(MarkAsleep, true)), t, 2,
                 Queueing(t, -1, None, list + [t], ASLEEP))
  {
    var s0, s1 := Queueing(t, count, None, list, SLOW), Queueing(t, count, Some(t), list, Task(TestLocked, true));
    var s2, s3 := Queueing(t, count, Some(t), list, Task(Enqueue, true)),
                  Queueing(t, count, Some(t), list + [t], Task(WaiterExchange, true));
    var s4, s5 := Queueing(t, -1, Some(t), list + [t], Task(MarkAsleep, true)),
                  Queueing(t, -1, Some(t), list + [t], Task(DropForSleep, false));
    QueueingStep(t, count, None, list, SLOW);
    GoesOne(s0, t, s1);
    QueueingStep(t, count, Some(t), list, Task(TestLocked, true));
    QueueingStep(t, count, Some(t), list, Task(Enqueue, true));
    GoesTwo(s1, t, s2, s3);
    QueueingStep(t, count, Some(t), list + [t], Task(WaiterExchange, true));
    GoesOne(s3, t, s4);
    QueueingStep(t, -1, Some(t), list + [t], Task(MarkAsleep, true));
    QueueingStep(t, -1, Some(t), list + [t], Task(DropForSleep, false));
    GoesTwo(s4, t, s5, Queueing(t, -1, None, list + [t], ASLEEP));
  }

  /** One step of the task that queues. */
  lemma QueueingStep(t: TaskId, count: int, lock: Option<TaskId>, list: seq<TaskId>, task: Task)
    requires t == 1 || t == 2
    requires count <= 0
    ensures var s := Queueing(t, count, lock, list, task);
            match task.pc
            case WantSlow => lock == None ==>
              Enabled(s, t) && Step(s, t) == Queueing(t, count, Some(t), list, task.(pc := TestLocked))
            case TestLocked => Enabled(s, t) && Step(s, t) == Queueing(t, count, lock, list, task.(pc := Enqueue))
            case Enqueue =>
              Enabled(s, t) && Step(s, t) == Queueing(t, count, lock, list + [t], task.(pc := WaiterExchange))
            case WaiterExchange => Enabled(s, t) && Step(s, t) == Queueing(t, -1, lock, list, task.(pc := MarkAsleep))
            case MarkAsleep => Enabled(s, t) && Step(s, t) == Queueing(t, count, lock, list, Task(DropForSleep, false))
            case DropForSleep => Enabled(s, t) && Step(s, t) == Queueing(t, count, None, list, task.(pc := Scheduled))
            case _ => true
  {}

  /** 5-1) to 5-5) task 0 unlocks on the slow path and wakes the first waiter. */
  function DiagramsUnlock(): seq<Diagram> {
    [Diagram(0, 1, Column(-1, false, [1, 2], None)), Diagram(0, 2, Column(1, false, [1, 2], None)),
     Diagram(0, 1, Column(1, true, [1, 2], None)), Diagram(0, 1, Column(1, true, [1, 2], None)),
     Diagram(0, 1, Column(1, false, [1, 2], None))]
  }

  /** Task 1 is awake, task 2 asleep. */
  function Woken(): State {
    Four(1, None, None, [1, 2], OUT, Task(Scheduled, true), ASLEEP, Idle)
  }

  function Unlocking(count: int, lock: Option<TaskId>, pc: Pc, awake: bool): State {
    Four(count, None, lock, [1, 2], Task(pc, true), Task(Scheduled, awake), ASLEEP, Idle)
  }

  lemma TaskZeroUnlocks()
    ensures Goes(Queueing(2, -1, None, [1, 2], ASLEEP), 0, 1, Unlocking(-1, None, Increment, false))
    ensures Goes(Unlocking(-1, None, Increment, false), 0, 2, Unlocking(1, None, WantWake, false))
  {
    GoesOne(Queueing(2, -1, None, [1, 2], ASLEEP), 0, Unlocking(-1, None, Increment, false));
    GoesTwo(Unlocking(-1, None, Increment, false), 0, Unlocking(0, None, SetUnlocked, false),
            Unlocking(1, None, WantWake, false));
  }

  lemma TaskZeroWakes()
    ensures Goes(Unlocking(1, None, WantWake, false), 0, 1, Unlocking(1, Some(0), WakeFirst, false))
    ensures Goes(Unlocking(1, Some(0), WakeFirst, false), 0, 1, Unlocking(1, Some(0), DropAfterWake, true))
    ensures Goes(Unlocking(1, Some(0), DropAfterWake, true), 0, 1, Woken())
  {
    GoesOne(Unlocking(1, None, WantWake, false), 0, Unlocking(1, Some(0), WakeFirst, false));
    GoesOne(Unlocking(1, Some(0), WakeFirst, false), 0, Unlocking(1, Some(0), DropAfterWake, true));
    GoesOne(Unlocking(1, Some(0), DropAfterWake, true), 0, Woken());
  }

  lemma ExampleUnlocks()
    ensures Follows(Queueing(2, -1, None, [1, 2], ASLEEP), DiagramsUnlock(), Woken())
  {
    var all, s1, s2 := DiagramsUnlock(), Unlocking(-1, None, Increment, false), Unlocking(1, None, WantWake, false);
    var s3, s4, end := Unlocking(1, Some(0), WakeFirst, false), Unlocking(1, Some(0), DropAfterWake, true), Woken();
    TaskZeroUnlocks();
    TaskZeroWakes();
    FollowsEnd(end, all);
    FollowsNext(s4, end, all, 4, end);
    FollowsNext(s3, s4, all, 3, end);
    FollowsNext(s2, s3, all, 2, end);
    FollowsNext(s1, s2, all, 1, end);
    FollowsNext(Queueing(2, -1, None, [1, 2], ASLEEP), s1, all, 0, end);
    assert all[0..] == all;
  }

  /** 5-6) to 5-8) task 1 takes the mutex; another task still waits, so `count` stays at -1. */
  function DiagramsRetry(): seq<Diagram> {
    [Diagram(1, 2, Column(1, true, [1, 2], None)), Diagram(1, 1, Column(-1, true, [1, 2], None)),
     Diagram(1, 4, Column(-1, false, [2], Some(1)))]
  }

  function Handed(): State {
    Four(-1, Some(1), None, [2], OUT, HOLDS, ASLEEP, Idle)
  }

  function Retrying(count: int, list: seq<TaskId>, owner: Option<TaskId>, pc: Pc): State {
    Four(count, owner, Some(1), list, OUT, Task(pc, true), ASLEEP, Idle)
  }

  lemma TaskOneLeaves()
    ensures Goes(Retrying(-1, [1, 2], None, Dequeue), 1, 2, Retrying(-1, [2], None, SetOwner))
  {
    assert [1, 2][1..] == [2] && [2][1..] == [];
    assert Without([2], 1) == [2] && Without([1, 2], 1) == [2];
    GoesTwo(Retrying(-1, [1, 2], None, Dequeue), 1, Retrying(-1, [2], None, ResetCount),
            Retrying(-1, [2], None, SetOwner));
  }

  lemma TaskOneReturns()
    ensures Goes(Retrying(-1, [1, 2], None, Dequeue), 1, 4, Handed())
  {
    TaskOneLeaves();
    GoesTwo(Retrying(-1, [2], None, SetOwner), 1, Retrying(-1, [2], Some(1), DropAfterLock), Handed());
    GoesOn(Retrying(-1, [1, 2], None, Dequeue), 1, 2, Retrying(-1, [2], None, SetOwner), 2, Handed());
  }

  lemma TaskOneRetries()
    ensures Goes(Woken(), 1, 2, Retrying(1, [1, 2], None, WaiterExchange))
    ensures Goes(Retrying(1, [1, 2], None, WaiterExchange), 1, 1, Retrying(-1, [1, 2], None, Dequeue))
  {
    GoesTwo(Woken(), 1, Four(1, None, None, [1, 2], OUT, Task(WantRetry, true), ASLEEP, Idle),
            Retrying(1, [1, 2], None, WaiterExchange));
    GoesOne(Retrying(1, [1, 2], None, WaiterExchange), 1, Retrying(-1, [1, 2], None, Dequeue));
  }

  lemma ExampleRetries()
    ensures Follows(Woken(), DiagramsRetry(), Handed())
  {
    var all, s1, s2, end := DiagramsRetry(), Retrying(1, [1, 2], None, WaiterExchange),
                            Retrying(-1, [1, 2], None, Dequeue), Handed();
    TaskOneRetries();
    TaskOneReturns();
    FollowsEnd(end, all);
    FollowsNext(s2, end, all, 2, end);
    FollowsNext(s1, s2, all, 1, end);
    FollowsNext(Woken(), s1, all, 0, end);
    assert all[0..] == all;
  }

  /** The diagrams of the example, 2-1) to 5-8). */
  function Diagrams(): seq<Diagram> {
    Diagrams2() + (DiagramsQueue(1, 0, []) + (DiagramsQueue(2, -1, [1]) + (DiagramsUnlock() + DiagramsRetry())))
  }

  lemma ExampleQueue()
    ensures Follows(AfterLock(), DiagramsQueue(1, 0, []), Queueing(2, -1, None, [1], SLOW))
    ensures Follows(Queueing(2, -1, None, [1], SLOW), DiagramsQueue(2, -1, [1]), Queueing(2, -1, None, [1, 2], ASLEEP))
  {
    ExampleQueues(1, 0, []);
    ExampleQueues(2, -1, [1]);
    assert [] + [1] == [1] && [1] + [2] == [1, 2];
  }

  /** The example of the notes is a run: column by column, from a reachable state. */
  lemma NotesExample()
    ensures Reachable(ExampleStart()) && Follows(ExampleStart(), Diagrams(), Handed())
  {
    var two, three := Queueing(2, -1, None, [1], SLOW), Queueing(2, -1, None, [1, 2], ASLEEP);
    var d1, d2, d3 := Diagrams2(), DiagramsQueue(1, 0, []), DiagramsQueue(2, -1, [1]);
    var d4, d5 := DiagramsUnlock(), DiagramsRetry();
    StartReachable();
    Example2();
    ExampleQueue();
    ExampleUnlocks();
    ExampleRetries();
    FollowsOn(three, d4, Woken(), d5, Handed());
    FollowsOn(two, d3, three, d4 + d5, Handed());
    FollowsOn(AfterLock(), d2, two, d3 + (d4 + d5), Handed());
    FollowsOn(ExampleStart(), d1, AfterLock(), d2 + (d3 + (d4 + d5)), Handed());
  }
}
