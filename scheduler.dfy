/**
 * The scheduler's module state and its timer, timeout and flush logic
 * (packages/scheduler/src/forks/new.Scheduler.ts).
 */
module Scheduler {
  import opened Schedule
  import opened MinHeap
  import opened Profiling

  // ---------------------------------------------------------------------------
  // Timeouts per priority

  /** The largest signed 31-bit integer, 2^30 - 1. */
  const MaxSigned31BitInt := 1073741823

  const ImmediatePriorityTimeout := -1
  const UserBlockingPriorityTimeout := 250
  const NormalPriorityTimeout := 5000
  const LowPriorityTimeout := 10000
  const IdlePriorityTimeout := MaxSigned31BitInt

  lemma TimeoutsIncreasing()
    ensures ImmediatePriorityTimeout < UserBlockingPriorityTimeout < NormalPriorityTimeout
    ensures NormalPriorityTimeout < LowPriorityTimeout < IdlePriorityTimeout
    ensures IdlePriorityTimeout + 1 == 0x4000_0000
  {
  }

  // ---------------------------------------------------------------------------
  // Host requests

  /** The two scheduler functions handed to the host. */
  datatype HostEntry = FlushWorkEntry | HandleTimeoutEntry

  /** A call of one of the host hooks, which are empty in the source. */
  datatype HostRequest =
    | CallbackRequested(entry: HostEntry)
    | TimeoutRequested(entry: HostEntry, delay: int)
    | TimeoutCancelled

  // ---------------------------------------------------------------------------
  // Task identity across the two queues

  /** Every task occurs once, and no two tasks share an id. */
  ghost predicate UniqueIds(m: multiset<Task>) {
    && (forall t :: t in m ==> m[t] == 1)
    && (forall t, u :: t in m && u in m && t.id == u.id ==> t == u)
  }

  /** Replacing a task by an updated copy of itself (same id) keeps ids unique. */
  lemma UniqueIdsReplace(m: multiset<Task>, x: Task, y: Task)
    requires UniqueIds(m) && x in m && y.id == x.id
    ensures UniqueIds(m - multiset{x} + multiset{y})
  {
    var m' := m - multiset{x} + multiset{y};
    forall t | t in m' ensures m'[t] == 1 {
      if t == y {
        if y in m {
          assert y == x;
        }
      } else {
        assert t in m && t != x;
      }
    }
  }

  /** Ids stay unique when tasks are removed. */
  lemma UniqueIdsSub(m: multiset<Task>, d: multiset<Task>)
    requires UniqueIds(m + d)
    ensures UniqueIds(m)
  {
    forall t | t in m ensures m[t] == 1 {
      assert (m + d)[t] == 1;
    }
  }

  /** Tasks with unique ids in the union of the queues: no task is in both queues. */
  lemma NoTaskInBothQueues(taskQueue: seq<Task>, timerQueue: seq<Task>)
    requires UniqueIds(multiset(taskQueue) + multiset(timerQueue))
    ensures forall t, u :: t in taskQueue && u in timerQueue ==> t.id != u.id
  {
    var m := multiset(taskQueue) + multiset(timerQueue);
    forall t, u | t in taskQueue && u in timerQueue
      ensures t.id != u.id
    {
      assert t in m && u in m && m[t] == multiset(taskQueue)[t] + multiset(timerQueue)[t];
    }
  }

  // ---------------------------------------------------------------------------
  // What advanceTimers does to the queues

  /** A timer moved into the task queue is re-keyed by its expiration time. */
  function Promote(t: Task): Task {
    t.(sortIndex := t.expirationTime)
  }

  /** The timers advanceTimers removed: those dropped, and those moved (before and after re-keying). */
  datatype Advance = Advance(dropped: seq<Task>, promotedFrom: seq<Task>, promotedTo: seq<Task>)

  /**
   * Every timer removed so far came from the old timer queue, and a moved one
   * is now in the task queue, re-keyed.
   */
  ghost predicate TimersAccounted(tasks0: seq<Task>, timers0: seq<Task>,
                                  tasks1: seq<Task>, timers1: seq<Task>, a: Advance)
  {
    && |a.promotedTo| == |a.promotedFrom|
    && (forall i :: 0 <= i < |a.promotedFrom| ==> a.promotedTo[i] == Promote(a.promotedFrom[i]))
    && multiset(timers0) == multiset(timers1) + multiset(a.dropped) + multiset(a.promotedFrom)
    && multiset(tasks1) == multiset(tasks0) + multiset(a.promotedTo)
  }

  /**
   * A dropped timer had no callback, a moved one had a callback and was due,
   * and no timer left behind precedes one removed.
   */
  ghost predicate TimersRemovable(now: int, timers1: seq<Task>, a: Advance)
  {
    && (forall t :: t in a.dropped ==> t.callback.None?)
    && (forall t :: t in a.promotedFrom ==> t.callback.Some? && t.startTime <= now)
    && (forall t, u :: t in a.dropped && u in timers1 ==> !Precedes(u, t))
    && (forall t, u :: t in a.promotedFrom && u in timers1 ==> !Precedes(u, t))
  }

  /** The part of advanceTimers' effect that holds after every iteration. */
  ghost predicate TimersAdvancing(now: int, tasks0: seq<Task>, timers0: seq<Task>,
                                  tasks1: seq<Task>, timers1: seq<Task>, a: Advance)
  {
    TimersAccounted(tasks0, timers0, tasks1, timers1, a) && TimersRemovable(now, timers1, a)
  }

  /** advanceTimers' whole effect: it stops at a first timer that is live and not yet due. */
  ghost predicate TimersAdvanced(now: int, tasks0: seq<Task>, timers0: seq<Task>,
                                 tasks1: seq<Task>, timers1: seq<Task>, a: Advance)
  {
    && TimersAdvancing(now, tasks0, timers0, tasks1, timers1, a)
    && (timers1 != [] ==> timers1[0].callback.Some? && timers1[0].startTime > now)
  }

  /** A timer still in the queue was in it before. */
  lemma RemainingTimerWasThere(timers0: seq<Task>, timers1: seq<Task>, removed: multiset<Task>, u: Task)
    requires multiset(timers0) == multiset(timers1) + removed && u in timers1
    ensures u in timers0
  {
    assert multiset(timers0)[u] >= multiset(timers1)[u] > 0;
  }

  /** advanceTimers never removes a live timer that is not yet due. */
  lemma LiveFutureTimersKept(now: int, tasks0: seq<Task>, timers0: seq<Task>,
                             tasks1: seq<Task>, timers1: seq<Task>, a: Advance)
    requires TimersAdvanced(now, tasks0, timers0, tasks1, timers1, a)
    ensures forall t :: t in timers0 && t.callback.Some? && t.startTime > now ==> t in timers1
  {
    forall t | t in timers0 && t.callback.Some? && t.startTime > now
      ensures t in timers1
    {
      assert t !in a.dropped && t !in a.promotedFrom;
      assert multiset(timers0)[t] == multiset(timers1)[t] + multiset(a.dropped)[t] + multiset(a.promotedFrom)[t];
    }
  }

  /**
   * When every timer is keyed by its start time, advanceTimers leaves no timer
   * that is due: all that remain start after `now`.
   */
  lemma NoDueTimerRemains(now: int, tasks0: seq<Task>, timers0: seq<Task>,
                          tasks1: seq<Task>, timers1: seq<Task>, a: Advance)
    requires TimersAdvanced(now, tasks0, timers0, tasks1, timers1, a) && IsHeap(timers1)
    requires forall t :: t in timers0 ==> t.sortIndex == t.startTime
    ensures forall u :: u in timers1 ==> u.startTime > now
  {
    if timers1 != [] {
      RootIsMinimumAll(timers1);
      var removed := multiset(a.dropped) + multiset(a.promotedFrom);
      RemainingTimerWasThere(timers0, timers1, removed, timers1[0]);
      forall u | u in timers1 ensures u.startTime > now {
        RemainingTimerWasThere(timers0, timers1, removed, u);
        var i :| 0 <= i < |timers1| && timers1[i] == u;
        assert !Precedes(timers1[i], timers1[0]);
      }
    }
  }

  /** The multiset bookkeeping for replacing the last of `from` by the last of `to`. */
  lemma SplitLast(base: multiset<Task>, from: seq<Task>, to: seq<Task>)
    requires |from| == |to| > 0
    ensures var n := |from| - 1;
      && base + multiset(from) == (base + multiset(from[..n])) + multiset{from[n]}
      && (base + multiset(from[..n])) + multiset{from[n]} - multiset{from[n]} + multiset{to[n]}
         == (base + multiset{to[n]}) + multiset(from[..n])
      && (base + multiset{to[n]}) + multiset(to[..n]) == base + multiset(to)
  {
    var n := |from| - 1;
    assert from == from[..n] + [from[n]] && to == to[..n] + [to[n]];
  }

  /** Re-keying tasks keeps their ids, so ids stay unique. */
  lemma {:induction false} PromoteAllKeepsUnique(base: multiset<Task>, from: seq<Task>, to: seq<Task>)
    requires |to| == |from| && forall i :: 0 <= i < |from| ==> to[i] == Promote(from[i])
    requires UniqueIds(base + multiset(from))
    ensures UniqueIds(base + multiset(to))
    decreases |from|
  {
    if from != [] {
      var n := |from| - 1;
      SplitLast(base, from, to);
      UniqueIdsReplace(base + multiset(from[..n]) + multiset{from[n]}, from[n], to[n]);
      PromoteAllKeepsUnique(base + multiset{to[n]}, from[..n], to[..n]);
    }
  }

  /** advanceTimers neither duplicates a task nor leaves one in both queues. */
  lemma AdvanceKeepsIdsUnique(now: int, tasks0: seq<Task>, timers0: seq<Task>,
                              tasks1: seq<Task>, timers1: seq<Task>, a: Advance)
    requires TimersAdvancing(now, tasks0, timers0, tasks1, timers1, a)
    requires UniqueIds(multiset(tasks0) + multiset(timers0))
    ensures UniqueIds(multiset(tasks1) + multiset(timers1))
    ensures forall t, u :: t in tasks1 && u in timers1 ==> t.id != u.id
  {
    var kept := multiset(tasks0) + multiset(timers1);
    assert multiset(tasks0) + multiset(timers0) == (kept + multiset(a.promotedFrom)) + multiset(a.dropped);
    UniqueIdsSub(kept + multiset(a.promotedFrom), multiset(a.dropped));
    PromoteAllKeepsUnique(kept, a.promotedFrom, a.promotedTo);
    assert kept + multiset(a.promotedTo) == multiset(tasks1) + multiset(timers1);
    NoTaskInBothQueues(tasks1, timers1);
  }

  /** advanceTimers' step for a first timer without a callback: pop and drop it. */
  lemma DropStep(now: int, tasks0: seq<Task>, timers0: seq<Task>, tasks: seq<Task>,
                 timers: seq<Task>, timers': seq<Task>, a: Advance, t: Task)
    requires TimersAdvancing(now, tasks0, timers0, tasks, timers, a)
    requires t in timers && t.callback.None?
    requires multiset(timers') == multiset(timers) - multiset{t}
    requires forall u :: u in timers ==> !Precedes(u, t)
    ensures TimersAdvancing(now, tasks0, timers0, tasks, timers', a.(dropped := a.dropped + [t]))
  {
    var a' := a.(dropped := a.dropped + [t]);
    assert TimersAccounted(tasks0, timers0, tasks, timers', a') by {
      assert multiset(timers) == multiset(timers') + multiset{t};
    }
    RemainingTimersFollow(timers, timers', t, a'.dropped);
    RemainingTimersFollow(timers, timers', t, a.promotedFrom);
  }

  /** Timers still queued after removing `t` follow everything the earlier timers followed. */
  lemma RemainingTimersFollow(timers: seq<Task>, timers': seq<Task>, t: Task, xs: seq<Task>)
    requires t in timers && multiset(timers') == multiset(timers) - multiset{t}
    requires forall x, u :: x in xs && u in timers ==> !Precedes(u, x)
    ensures forall x, u :: x in xs && u in timers' ==> !Precedes(u, x)
  {
    assert multiset(timers) == multiset(timers') + multiset{t};
    forall x, u | x in xs && u in timers' ensures !Precedes(u, x) {
      RemainingTimerWasThere(timers, timers', multiset{t}, u);
    }
  }

  /** The bookkeeping half of PromoteStep. */
  lemma PromoteAccounted(tasks0: seq<Task>, timers0: seq<Task>, tasks: seq<Task>, timers: seq<Task>,
                         tasks': seq<Task>, timers': seq<Task>, a: Advance, t: Task)
    requires TimersAccounted(tasks0, timers0, tasks, timers, a)
    requires t in timers
    requires multiset(timers') == multiset(timers) - multiset{t}
    requires multiset(tasks') == multiset(tasks) + multiset{Promote(t)}
    ensures TimersAccounted(tasks0, timers0, tasks', timers',
                            a.(promotedFrom := a.promotedFrom + [t], promotedTo := a.promotedTo + [Promote(t)]))
  {
    var from, to := a.promotedFrom + [t], a.promotedTo + [Promote(t)];
    assert multiset(from) == multiset(a.promotedFrom) + multiset{t};
    assert multiset(to) == multiset(a.promotedTo) + multiset{Promote(t)};
    assert multiset(timers) == multiset(timers') + multiset{t};
    assert forall i :: 0 <= i < |from| ==> to[i] == Promote(from[i]) by {
      forall i | 0 <= i < |from| ensures to[i] == Promote(from[i]) {
        if i < |a.promotedFrom| {
          assert from[i] == a.promotedFrom[i] && to[i] == a.promotedTo[i];
        }
      }
    }
  }

  /** advanceTimers' step for a due first timer: pop it and push it, re-keyed, on the task queue. */
  lemma PromoteStep(now: int, tasks0: seq<Task>, timers0: seq<Task>, tasks: seq<Task>, timers: seq<Task>,
                    tasks': seq<Task>, timers': seq<Task>, a: Advance, t: Task)
    requires TimersAdvancing(now, tasks0, timers0, tasks, timers, a)
    requires t in timers && t.callback.Some? && t.startTime <= now
    requires multiset(timers') == multiset(timers) - multiset{t}
    requires multiset(tasks') == multiset(tasks) + multiset{Promote(t)}
    requires forall u :: u in timers ==> !Precedes(u, t)
    ensures TimersAdvancing(now, tasks0, timers0, tasks', timers',
                            a.(promotedFrom := a.promotedFrom + [t], promotedTo := a.promotedTo + [Promote(t)]))
  {
    var a' := a.(promotedFrom := a.promotedFrom + [t], promotedTo := a.promotedTo + [Promote(t)]);
    PromoteAccounted(tasks0, timers0, tasks, timers, tasks', timers', a, t);
    RemainingTimersFollow(timers, timers', t, a.dropped);
    RemainingTimersFollow(timers, timers', t, a'.promotedFrom);
  }

  // ---------------------------------------------------------------------------
  // One iteration of the work loop

  /** The loop's break test: the current task has not expired and there is no time left, or the host wants control. */
  predicate ShouldBreak(task: Task, currentTime: int, hasTimeRemaining: bool, shouldYield: bool) {
    task.expirationTime > currentTime && (!hasTimeRemaining || shouldYield)
  }

  /**
   * Whether the break test calls `shouldYieldToHost()`: an expired task stops
   * the `&&`, and no time remaining stops the `||`, before the call.
   */
  predicate AsksHost(task: Task, currentTime: int, hasTimeRemaining: bool) {
    task.expirationTime > currentTime && hasTimeRemaining
  }

  /** The host's k-th answer; one the loop never asks for is irrelevant and read as false. */
  function Answer(answers: seq<bool>, k: nat): bool {
    k < |answers| && answers[k]
  }

  /**
   * The number of iterations the model follows: at most `fuel`, and, when
   * every iteration asks the host, at most one per answer.
   */
  function Followed(task: Task, currentTime: int, hasTimeRemaining: bool, answers: seq<bool>, fuel: nat): (n: nat)
    ensures n <= fuel
    ensures AsksHost(task, currentTime, hasTimeRemaining) ==> n <= |answers|
    ensures !AsksHost(task, currentTime, hasTimeRemaining) ==> n == fuel
  {
    if AsksHost(task, currentTime, hasTimeRemaining) && |answers| < fuel then |answers| else fuel
  }

  /**
   * The effect of the work loop after advancing the timers to `advanced`, when
   * `shouldYieldToHost` answers `answers[k]` at its k-th call. The loop never
   * changes its current task: the first iteration that does not break clears its
   * callback, and every later one changes nothing. `returned` is false when the
   * source is still iterating after the iterations the model follows.
   */
  ghost predicate WorkLoopOutcome(running: bool, hasTimeRemaining: bool, currentTime: int, answers: seq<bool>,
                                  fuel: nat, advanced: seq<Task>, tasks1: seq<Task>, returned: bool)
  {
    if !running || advanced == [] then returned && tasks1 == advanced
    else
      var n := Followed(advanced[0], currentTime, hasTimeRemaining, answers, fuel);
      && (returned <==>
            exists k :: 0 <= k < n && ShouldBreak(advanced[0], currentTime, hasTimeRemaining, Answer(answers, k)))
      && tasks1 == if n > 0 && !ShouldBreak(advanced[0], currentTime, hasTimeRemaining, Answer(answers, 0))
                   then advanced[0 := advanced[0].(callback := None)]
                   else advanced
  }

  /**
   * With no time remaining and a task that has not expired, the loop breaks in
   * its first iteration without asking the host, so it returns whatever the
   * host would answer, even with no answers at all.
   */
  lemma BreaksWithoutAsking(currentTime: int, answers: seq<bool>, fuel: nat,
                            advanced: seq<Task>, tasks1: seq<Task>, returned: bool)
    requires WorkLoopOutcome(true, false, currentTime, answers, fuel, advanced, tasks1, returned)
    requires advanced != [] && advanced[0].expirationTime > currentTime && fuel > 0
    ensures returned && tasks1 == advanced
  {
    assert ShouldBreak(advanced[0], currentTime, false, Answer(answers, 0));
  }

  /**
   * An expired task never makes the loop break: the source spins on it, having
   * cleared its callback once.
   */
  lemma ExpiredTaskNeverReturns(hasTimeRemaining: bool, currentTime: int, answers: seq<bool>, fuel: nat,
                                advanced: seq<Task>, tasks1: seq<Task>, returned: bool)
    requires WorkLoopOutcome(true, hasTimeRemaining, currentTime, answers, fuel, advanced, tasks1, returned)
    requires advanced != [] && advanced[0].expirationTime <= currentTime
    ensures !returned
    ensures fuel > 0 ==> tasks1 == advanced[0 := advanced[0].(callback := None)]
  {
  }

  /**
   * With time remaining and a task that has not expired, the loop returns
   * exactly when the host, asked once per iteration, says to yield.
   */
  lemma BreaksWhenHostSaysYield(currentTime: int, answers: seq<bool>, fuel: nat,
                                advanced: seq<Task>, tasks1: seq<Task>, returned: bool)
    requires WorkLoopOutcome(true, true, currentTime, answers, fuel, advanced, tasks1, returned)
    requires advanced != [] && advanced[0].expirationTime > currentTime
    ensures returned <==> exists k :: 0 <= k < |answers| && k < fuel && answers[k]
  {
    if returned {
      var k :| 0 <= k < Followed(advanced[0], currentTime, true, answers, fuel)
               && ShouldBreak(advanced[0], currentTime, true, Answer(answers, k));
      assert answers[k];
    } else {
      forall k | 0 <= k < |answers| && k < fuel ensures !answers[k] {
        assert !ShouldBreak(advanced[0], currentTime, true, Answer(answers, k));
      }
    }
  }

  // ---------------------------------------------------------------------------
  // The module state

  class SchedulerState {
    const enableProfiling: bool
    const enableSchedulerDebugging: bool
    const taskQueue: Heap
    const timerQueue: Heap
    const profiler: Profiler
    var isSchedulerPaused: bool
    var currentTask: Option<Task>
    var currentPriorityLevel: PriorityLevel
    var isPerformingWork: bool
    var isHostCallbackScheduled: bool
    var isHostTimeoutScheduled: bool
    /** The calls made to the host hooks, oldest first. */
    ghost var hostRequests: seq<HostRequest>

    ghost predicate Valid()
      reads this, taskQueue, timerQueue, profiler
    {
      && taskQueue != timerQueue
      && taskQueue.Valid() && timerQueue.Valid()
      && profiler.Valid() && profiler.enableProfiling == enableProfiling
      && (!isPerformingWork ==> currentTask.None?)
      // currentTask is the object in the task queue's first slot
      && (currentTask.Some? ==> taskQueue.items != [] && currentTask.value == taskQueue.items[0])
    }

    /** The module's initial state; the feature flags and NormalPriority are fixed parameters. */
    constructor (enableProfiling: bool, enableSchedulerDebugging: bool, normalPriority: PriorityLevel, profiler: Profiler)
      requires profiler.Valid() && profiler.enableProfiling == enableProfiling
      ensures Valid() && fresh(taskQueue) && fresh(timerQueue) && this.profiler == profiler
      ensures this.enableProfiling == enableProfiling && this.enableSchedulerDebugging == enableSchedulerDebugging
      ensures taskQueue.items == [] && timerQueue.items == []
      ensures !isSchedulerPaused && currentTask.None? && currentPriorityLevel == normalPriority
      ensures !isPerformingWork && !isHostCallbackScheduled && !isHostTimeoutScheduled
      ensures hostRequests == []
    {
      this.enableProfiling := enableProfiling;
      this.enableSchedulerDebugging := enableSchedulerDebugging;
      this.profiler := profiler;
      taskQueue := new Heap();
      timerQueue := new Heap();
      isSchedulerPaused := false;
      currentTask := None;
      currentPriorityLevel := normalPriority;
      isPerformingWork := false;
      isHostCallbackScheduled := false;
      isHostTimeoutScheduled := false;
      hostRequests := [];
    }

    /** `requestHostCallback`: an empty stub; the call is recorded. */
    method RequestHostCallback(entry: HostEntry)
      modifies this`hostRequests
      ensures hostRequests == old(hostRequests) + [CallbackRequested(entry)]
    {
      hostRequests := hostRequests + [CallbackRequested(entry)];
    }

    /** `requestHostTimeout`: an empty stub; the call is recorded. */
    method RequestHostTimeout(entry: HostEntry, ms: int)
      modifies this`hostRequests
      ensures hostRequests == old(hostRequests) + [TimeoutRequested(entry, ms)]
    {
      hostRequests := hostRequests + [TimeoutRequested(entry, ms)];
    }

    /** `cancelHostTimeout`: an empty stub; the call is recorded. */
    method CancelHostTimeout()
      modifies this`hostRequests
      ensures hostRequests == old(hostRequests) + [TimeoutCancelled]
    {
      hostRequests := hostRequests + [TimeoutCancelled];
    }

    /** advanceTimers' `if (enableProfiling) markTaskStart(task, ms)`. */
    method ProfileTaskStart(task: Task, ms: int)
      requires profiler.Valid() && profiler.enableProfiling == enableProfiling
      modifies profiler, profiler.eventLog
      ensures profiler.Valid()
      ensures profiler.eventLog == null || profiler.eventLog == old(profiler.eventLog) || fresh(profiler.eventLog)
      ensures !enableProfiling ==> unchanged(profiler) && (profiler.eventLog != null ==> unchanged(profiler.eventLog))
      ensures enableProfiling ==>
        profiler.View() == LogEventSpec(old(profiler.View()), EventRecord(TaskStart(ms, task.id, task.priorityLevel)))
      ensures profiler.runIdCounter == old(profiler.runIdCounter) && profiler.mainThreadIdCounter == old(profiler.mainThreadIdCounter)
    {
      if enableProfiling {
        profiler.MarkTaskStart(task, ms);
      }
    }

    /** flushWork's `if (enableProfiling) markSchedulerUnSuspended(ms)`. */
    method ProfileSchedulerUnSuspended(ms: int)
      requires profiler.Valid() && profiler.enableProfiling == enableProfiling
      modifies profiler, profiler.eventLog
      ensures profiler.Valid()
      ensures profiler.eventLog == null || profiler.eventLog == old(profiler.eventLog) || fresh(profiler.eventLog)
      ensures !enableProfiling ==> unchanged(profiler) && (profiler.eventLog != null ==> unchanged(profiler.eventLog))
      ensures enableProfiling ==>
        profiler.View() == LogEventSpec(old(profiler.View()), EventRecord(SchedulerResume(ms, profiler.mainThreadIdCounter)))
      ensures profiler.runIdCounter == old(profiler.runIdCounter) && profiler.mainThreadIdCounter == old(profiler.mainThreadIdCounter)
    {
      if enableProfiling {
        profiler.MarkSchedulerUnSuspended(ms);
      }
    }

    /** flushWork's `if (enableProfiling) markSchedulerSuspended(ms)`. */
    method ProfileSchedulerSuspended(ms: int)
      requires profiler.Valid() && profiler.enableProfiling == enableProfiling
      modifies profiler, profiler.eventLog
      ensures profiler.Valid()
      ensures profiler.eventLog == null || profiler.eventLog == old(profiler.eventLog) || fresh(profiler.eventLog)
      ensures !enableProfiling ==> unchanged(profiler) && (profiler.eventLog != null ==> unchanged(profiler.eventLog))
      ensures enableProfiling ==>
        profiler.mainThreadIdCounter == old(profiler.mainThreadIdCounter) + 1 &&
        profiler.View() == LogEventSpec(old(profiler.View()), EventRecord(SchedulerSuspend(ms, profiler.mainThreadIdCounter)))
      ensures profiler.runIdCounter == old(profiler.runIdCounter)
      ensures !enableProfiling ==> profiler.mainThreadIdCounter == old(profiler.mainThreadIdCounter)
    {
      if enableProfiling {
        profiler.MarkSchedulerSuspended(ms);
      }
    }

    /** advanceTimers' first branch: `pop(timerQueue)` of a first timer whose callback is null. */
    method DropTimer(ghost now: int, ghost tasks0: seq<Task>, ghost timers0: seq<Task>, ghost a: Advance)
      returns (ghost a': Advance)
      requires Valid() && timerQueue.items != [] && timerQueue.items[0].callback.None?
      requires TimersAdvancing(now, tasks0, timers0, taskQueue.items, timerQueue.items, a)
      modifies timerQueue
      ensures Valid() && |timerQueue.items| == |old(timerQueue.items)| - 1
      ensures multiset(timerQueue.items) == multiset(old(timerQueue.items)) - multiset{old(timerQueue.items)[0]}
      ensures a' == a.(dropped := a.dropped + [old(timerQueue.items)[0]])
      ensures TimersAdvancing(now, tasks0, timers0, taskQueue.items, timerQueue.items, a')
    {
      ghost var timers := timerQueue.items;
      var t := timerQueue.Pop();
      DropStep(now, tasks0, timers0, taskQueue.items, timers, timerQueue.items, a, t.value);
      a' := a.(dropped := a.dropped + [t.value]);
    }

    /**
     * advanceTimers' second branch: pop a due first timer, re-key it by its
     * expiration time, push it on the task queue and, with profiling on, log
     * its start.
     */
    method PromoteTimer(now: int, ghost tasks0: seq<Task>, ghost timers0: seq<Task>, ghost a: Advance)
      returns (promoted: Task, ghost a': Advance)
      requires Valid() && currentTask.None? && timerQueue.items != []
      requires timerQueue.items[0].callback.Some? && timerQueue.items[0].startTime <= now
      requires TimersAdvancing(now, tasks0, timers0, taskQueue.items, timerQueue.items, a)
      modifies taskQueue, timerQueue, profiler, profiler.eventLog
      ensures Valid() && |timerQueue.items| == |old(timerQueue.items)| - 1
      ensures promoted == Promote(old(timerQueue.items)[0])
      ensures multiset(timerQueue.items) == multiset(old(timerQueue.items)) - multiset{old(timerQueue.items)[0]}
      ensures multiset(taskQueue.items) == multiset(old(taskQueue.items)) + multiset{promoted}
      ensures a' == a.(promotedFrom := a.promotedFrom + [old(timerQueue.items)[0]], promotedTo := a.promotedTo + [promoted])
      ensures TimersAdvancing(now, tasks0, timers0, taskQueue.items, timerQueue.items, a')
      ensures profiler.eventLog == null || profiler.eventLog == old(profiler.eventLog) || fresh(profiler.eventLog)
      ensures !enableProfiling ==> unchanged(profiler) && (profiler.eventLog != null ==> unchanged(profiler.eventLog))
      ensures enableProfiling ==>
        profiler.View() == LogEventSpec(old(profiler.View()), EventRecord(TaskStart(now, promoted.id, promoted.priorityLevel)))
      ensures profiler.runIdCounter == old(profiler.runIdCounter) && profiler.mainThreadIdCounter == old(profiler.mainThreadIdCounter)
    {
      ghost var tasks, timers := taskQueue.items, timerQueue.items;
      var timer := timerQueue.Pop();
      promoted := timer.value.(sortIndex := timer.value.expirationTime);
      taskQueue.Push(promoted);
      PromoteStep(now, tasks0, timers0, tasks, timers, taskQueue.items, timerQueue.items, a, timer.value);
      a' := a.(promotedFrom := a.promotedFrom + [timer.value], promotedTo := a.promotedTo + [promoted]);
      ProfileTaskStart(promoted, now);
    }

    /**
     * `advanceTimers`: drop cancelled timers and move due ones into the task
     * queue, re-keyed by expiration time, until the first timer is live and not
     * yet due.
     */
    method AdvanceTimers(currentTime: int) returns (ghost a: Advance)
      requires Valid() && currentTask.None?
      modifies taskQueue, timerQueue, profiler, profiler.eventLog
      ensures Valid()
      ensures TimersAdvanced(currentTime, old(taskQueue.items), old(timerQueue.items), taskQueue.items, timerQueue.items, a)
      ensures profiler.eventLog == null || profiler.eventLog == old(profiler.eventLog) || fresh(profiler.eventLog)
      ensures !enableProfiling ==> unchanged(profiler) && (profiler.eventLog != null ==> unchanged(profiler.eventLog))
      ensures profiler.runIdCounter == old(profiler.runIdCounter) && profiler.mainThreadIdCounter == old(profiler.mainThreadIdCounter)
    {
      ghost var tasks0, timers0 := taskQueue.items, timerQueue.items;
      a := Advance([], [], []);
      var timer := timerQueue.Peek();
      while timer.Some?
        invariant Valid()
        invariant timer == timerQueue.Peek()
        invariant TimersAdvancing(currentTime, tasks0, timers0, taskQueue.items, timerQueue.items, a)
        invariant profiler.eventLog == null || profiler.eventLog == old(profiler.eventLog) || fresh(profiler.eventLog)
        invariant !enableProfiling ==> unchanged(profiler) && (profiler.eventLog != null ==> unchanged(profiler.eventLog))
        invariant profiler.runIdCounter == old(profiler.runIdCounter)
        invariant profiler.mainThreadIdCounter == old(profiler.mainThreadIdCounter)
        decreases |timerQueue.items|
      {
        var t := timer.value;
        if t.callback.None? {
          a := DropTimer(currentTime, tasks0, timers0, a);
        } else if t.startTime <= currentTime {
          var promoted;
          promoted, a := PromoteTimer(currentTime, tasks0, timers0, a);
        } else {
          return;
        }
        timer := timerQueue.Peek();
      }
    }

    /**
     * `hadnleTimeout`: the host's delayed callback. Advance the timers, then
     * ask for a host callback if tasks are ready, or else re-arm a timeout for
     * the first timer.
     */
    method HandleTimeout(currentTime: int) returns (ghost a: Advance)
      requires Valid() && !isPerformingWork
      modifies this`isHostTimeoutScheduled, this`isHostCallbackScheduled, this`hostRequests
      modifies taskQueue, timerQueue, profiler, profiler.eventLog
      ensures Valid()
      ensures TimersAdvanced(currentTime, old(taskQueue.items), old(timerQueue.items), taskQueue.items, timerQueue.items, a)
      ensures !isHostTimeoutScheduled
      ensures old(isHostCallbackScheduled) ==> isHostCallbackScheduled && hostRequests == old(hostRequests)
      ensures !old(isHostCallbackScheduled) && taskQueue.items != [] ==>
        isHostCallbackScheduled && hostRequests == old(hostRequests) + [CallbackRequested(FlushWorkEntry)]
      ensures !old(isHostCallbackScheduled) && taskQueue.items == [] ==>
        !isHostCallbackScheduled &&
        hostRequests == old(hostRequests) +
          if timerQueue.items == [] then []
          else [TimeoutRequested(HandleTimeoutEntry, timerQueue.items[0].startTime - currentTime)]
      ensures timerQueue.items != [] ==> timerQueue.items[0].startTime - currentTime > 0
      ensures profiler.eventLog == null || profiler.eventLog == old(profiler.eventLog) || fresh(profiler.eventLog)
      ensures !enableProfiling ==> unchanged(profiler) && (profiler.eventLog != null ==> unchanged(profiler.eventLog))
      ensures profiler.runIdCounter == old(profiler.runIdCounter) && profiler.mainThreadIdCounter == old(profiler.mainThreadIdCounter)
    {
      isHostTimeoutScheduled := false;
      a := AdvanceTimers(currentTime);

      if !isHostCallbackScheduled {
        if taskQueue.Peek() != None {
          isHostCallbackScheduled := true;
          RequestHostCallback(FlushWorkEntry);
        } else {
          var firstTimer := timerQueue.Peek();
          if firstTimer != None {
            RequestHostTimeout(HandleTimeoutEntry, firstTimer.value.startTime - currentTime);
          }
        }
      }
    }

    /**
     * One iteration of `workLoop`'s body: break, or clear the current task's
     * callback. `shouldYield` is what `shouldYieldToHost()` answers when the
     * break test calls it, and does not matter when it does not.
     */
    method WorkLoopIteration(hasTimeRemaining: bool, currentTime: int, shouldYield: bool) returns (stop: bool)
      requires Valid() && currentTask.Some?
      modifies this`currentTask, taskQueue
      ensures Valid()
      ensures stop == ShouldBreak(old(currentTask).value, currentTime, hasTimeRemaining, shouldYield)
      ensures stop ==> currentTask == old(currentTask) && taskQueue.items == old(taskQueue.items)
      ensures !stop ==> currentTask == Some(old(currentTask).value.(callback := None))
      ensures !stop ==> taskQueue.items == old(taskQueue.items)[0 := currentTask.value]
    {
      var task := currentTask.value;
      if task.expirationTime > currentTime && (!hasTimeRemaining || shouldYield) {
        return true;
      }
      var callback := task.callback;
      if callback.Some? {
        // currentTask and the task queue's first slot are one object: the write shows in both.
        var cleared := task.(callback := None);
        taskQueue.items := taskQueue.items[0 := cleared];
        currentTask := Some(cleared);
      }
      return false;
    }

    /**
     * `workLoop`: advance the timers, take the first ready task as the current
     * one, and iterate. `yieldAnswers[k]` is what `shouldYieldToHost()` answers
     * at its k-th call; the model follows at most `fuel` iterations.
     * `returned` is false when the source would still be iterating after them.
     */
    method WorkLoop(hasTimeRemaining: bool, initialTime: int, yieldAnswers: seq<bool>, fuel: nat)
      returns (returned: bool, ghost advanced: seq<Task>, ghost a: Advance)
      requires Valid() && isPerformingWork && currentTask.None?
      modifies this`currentTask, taskQueue, timerQueue, profiler, profiler.eventLog
      ensures Valid() && isPerformingWork
      ensures TimersAdvanced(initialTime, old(taskQueue.items), old(timerQueue.items), advanced, timerQueue.items, a)
      ensures WorkLoopOutcome(!(enableSchedulerDebugging && isSchedulerPaused), hasTimeRemaining, initialTime,
                              yieldAnswers, fuel, advanced, taskQueue.items, returned)
      ensures currentTask == if taskQueue.items == [] then None else Some(taskQueue.items[0])
      ensures profiler.eventLog == null || profiler.eventLog == old(profiler.eventLog) || fresh(profiler.eventLog)
      ensures !enableProfiling ==> unchanged(profiler) && (profiler.eventLog != null ==> unchanged(profiler.eventLog))
      ensures profiler.runIdCounter == old(profiler.runIdCounter) && profiler.mainThreadIdCounter == old(profiler.mainThreadIdCounter)
    {
      var currentTime := initialTime;
      a := AdvanceTimers(currentTime);
      advanced := taskQueue.items;
      currentTask := taskQueue.Peek();
      returned := WorkLoopWhile(hasTimeRemaining, currentTime, yieldAnswers, fuel);
    }

    /**
     * The `while` loop of `workLoop`, entered with the top of the task queue as
     * the current task. An answer is taken only when the break test calls
     * `shouldYieldToHost()`.
     */
    method WorkLoopWhile(hasTimeRemaining: bool, currentTime: int, yieldAnswers: seq<bool>, fuel: nat)
      returns (returned: bool)
      requires Valid() && isPerformingWork
      requires currentTask == if taskQueue.items == [] then None else Some(taskQueue.items[0])
      modifies this`currentTask, taskQueue
      ensures Valid()
      ensures WorkLoopOutcome(!(enableSchedulerDebugging && isSchedulerPaused), hasTimeRemaining, currentTime,
                              yieldAnswers, fuel, old(taskQueue.items), taskQueue.items, returned)
      ensures currentTask == if taskQueue.items == [] then None else Some(taskQueue.items[0])
    {
      ghost var advanced := taskQueue.items;
      ghost var running := !(enableSchedulerDebugging && isSchedulerPaused);
      var k := 0;
      ghost var broken := false;
      while currentTask.Some? && !(enableSchedulerDebugging && isSchedulerPaused)
        invariant !broken
        invariant Valid()
        invariant 0 <= k <= fuel
        invariant currentTask == if taskQueue.items == [] then None else Some(taskQueue.items[0])
        invariant k == 0 ==> taskQueue.items == advanced
        invariant k > 0 ==> running && advanced != [] && taskQueue.items == advanced[0 := advanced[0].(callback := None)]
        invariant running && advanced != [] ==> k <= Followed(advanced[0], currentTime, hasTimeRemaining, yieldAnswers, fuel)
        invariant forall j :: 0 <= j < k ==> !ShouldBreak(advanced[0], currentTime, hasTimeRemaining, Answer(yieldAnswers, j))
        decreases fuel - k
      {
        var task := currentTask.value;
        assert task.expirationTime == advanced[0].expirationTime;
        if k == fuel {
          // The source goes on iterating; the model follows no further iteration.
          return false;
        }
        var shouldYield := false;
        if task.expirationTime > currentTime && hasTimeRemaining {
          if k == |yieldAnswers| {
            // The source asks the host again; there is no further answer to observe.
            return false;
          }
          shouldYield := yieldAnswers[k];
        }
        assert ShouldBreak(task, currentTime, hasTimeRemaining, shouldYield)
           == ShouldBreak(advanced[0], currentTime, hasTimeRemaining, Answer(yieldAnswers, k));
        var stop := WorkLoopIteration(hasTimeRemaining, currentTime, shouldYield);
        if stop {
          broken := true;
          break;
        }
        k := k + 1;
      }
      if running && advanced != [] {
        assert broken && k < Followed(advanced[0], currentTime, hasTimeRemaining, yieldAnswers, fuel);
        assert ShouldBreak(advanced[0], currentTime, hasTimeRemaining, Answer(yieldAnswers, k));
      }
      returned := true;
    }

    /** flushWork's first steps: mark the scheduler resumed, clear both scheduling flags, cancel a pending timeout. */
    method FlushWorkEnter(initialTime: int)
      requires Valid()
      modifies this`isHostCallbackScheduled, this`isHostTimeoutScheduled, this`hostRequests, profiler, profiler.eventLog
      ensures Valid()
      ensures !isHostCallbackScheduled && !isHostTimeoutScheduled
      ensures hostRequests == old(hostRequests) + if old(isHostTimeoutScheduled) then [TimeoutCancelled] else []
      ensures profiler.eventLog == null || profiler.eventLog == old(profiler.eventLog) || fresh(profiler.eventLog)
      ensures !enableProfiling ==> unchanged(profiler) && (profiler.eventLog != null ==> unchanged(profiler.eventLog))
      ensures enableProfiling ==>
        profiler.View() == LogEventSpec(old(profiler.View()), EventRecord(SchedulerResume(initialTime, profiler.mainThreadIdCounter)))
      ensures profiler.runIdCounter == old(profiler.runIdCounter) && profiler.mainThreadIdCounter == old(profiler.mainThreadIdCounter)
    {
      ProfileSchedulerUnSuspended(initialTime);

      isHostCallbackScheduled := false;
      if isHostTimeoutScheduled {
        isHostTimeoutScheduled := false;
        CancelHostTimeout();
      }
    }

    /** flushWork's `finally` block: no current task, the saved priority level back, not performing work. */
    method FlushWorkFinally(previousPriorityLevel: PriorityLevel, suspendTime: int)
      requires Valid()
      modifies this`currentTask, this`currentPriorityLevel, this`isPerformingWork, profiler, profiler.eventLog
      ensures Valid()
      ensures currentTask.None? && currentPriorityLevel == previousPriorityLevel && !isPerformingWork
      ensures profiler.eventLog == null || profiler.eventLog == old(profiler.eventLog) || fresh(profiler.eventLog)
      ensures !enableProfiling ==> unchanged(profiler) && (profiler.eventLog != null ==> unchanged(profiler.eventLog))
      ensures enableProfiling ==>
        profiler.mainThreadIdCounter == old(profiler.mainThreadIdCounter) + 1 &&
        profiler.View() == LogEventSpec(old(profiler.View()), EventRecord(SchedulerSuspend(suspendTime, profiler.mainThreadIdCounter)))
      ensures profiler.runIdCounter == old(profiler.runIdCounter)
    {
      currentTask := None;
      currentPriorityLevel := previousPriorityLevel;
      isPerformingWork := false;
      ProfileSchedulerSuspended(suspendTime);
    }

    /**
     * `flushWork`: the host callback. Clear the scheduling flags (cancelling a
     * pending timeout), run the work loop with `isPerformingWork` set, and on
     * the way out (the `finally` block) reset the current task and restore the
     * priority level. `suspendTime` is the clock reading taken in `finally`.
     */
    method FlushWork(hasTimeRemaining: bool, initialTime: int, yieldAnswers: seq<bool>, fuel: nat, suspendTime: int)
      returns (returned: bool)
      requires Valid() && !isPerformingWork
      modifies this`isHostCallbackScheduled, this`isHostTimeoutScheduled, this`hostRequests
      modifies this`isPerformingWork, this`currentTask, this`currentPriorityLevel
      modifies taskQueue, timerQueue, profiler, profiler.eventLog
      ensures Valid()
      ensures !isHostCallbackScheduled && !isHostTimeoutScheduled
      ensures hostRequests == old(hostRequests) + if old(isHostTimeoutScheduled) then [TimeoutCancelled] else []
      ensures returned ==> currentTask.None? && !isPerformingWork
      ensures !returned ==> isPerformingWork
      ensures currentPriorityLevel == old(currentPriorityLevel)
      ensures profiler.eventLog == null || profiler.eventLog == old(profiler.eventLog) || fresh(profiler.eventLog)
      ensures !enableProfiling ==> unchanged(profiler) && (profiler.eventLog != null ==> unchanged(profiler.eventLog))
      ensures profiler.runIdCounter == old(profiler.runIdCounter)
      ensures profiler.mainThreadIdCounter == old(profiler.mainThreadIdCounter) + if enableProfiling && returned then 1 else 0
    {
      FlushWorkEnter(initialTime);

      isPerformingWork := true;
      var previousPriorityLevel := currentPriorityLevel;

      ghost var advanced, a;
      returned, advanced, a := WorkLoop(hasTimeRemaining, initialTime, yieldAnswers, fuel);

      if returned {
        FlushWorkFinally(previousPriorityLevel, suspendTime);
      }
    }
  }
}
