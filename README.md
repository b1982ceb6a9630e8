# A verified model of the scheduler core

This project models the core of a cooperative, priority-based task scheduler,
a TypeScript port of React's scheduler, in Dafny. It has three parts. All
three are written as imperative Dafny over classes, because the source
updates module-level state in place.

- **`min_heap.dfy`, module `MinHeap`**: the array-backed binary min-heap of
  tasks in `packages/scheduler/src/new.SchedulerMinHeap.ts`.
  - Tasks are ordered by `(sortIndex, id)`.
  - `Heap` is a class whose `items` field is the JavaScript array.
  - `Push` and `Pop` write it; `SiftUp` and `SiftDown` are the source's swap
    loops.
  - Each loop is proved against the heap property (`IsHeap`), the multiset of
    its contents and, for `SiftUp`, the root path it may touch.
- **`scheduler.dfy`, module `Scheduler`**: the module state of
  `packages/scheduler/src/forks/new.Scheduler.ts`.
  - `SchedulerState` holds the two queues (`taskQueue` keyed by expiration
    time, `timerQueue` keyed by start time), the scheduling flags, the current
    task and the current priority level.
  - The operations are `advanceTimers`, `hadnleTimeout`, `flushWork` and
    `workLoop`.
  - The empty host hooks are recorded in a ghost log, `hostRequests`.
  - What `advanceTimers` did is stated by the predicates `TimersAdvancing` /
    `TimersAdvanced` over a ghost record of the dropped and moved timers.
- **`profiling.dfy`, module `Profiling`**: the profiling event log of
  `packages/scheduler/src/new.SchedulerProfiling.ts`.
  - `Profiler` holds the `Int32Array` log (a Dafny `array<Int32>`), its
    buffer, its nominal size, its write index and the two counters.
  - `LogEvent` is proved against the state function `LogEventSpec` on a
    value view of the log.
  - The record layouts come with a decoder, `Parse`. The lemmas show that the
    recorded prefix reads back as the sequence of events logged, as long as
    every field of every record fits in 32 bits. A timestamp `ms * 1000`
    stops fitting once `ms` passes 2147483, and is then stored wrapped.
- **`schedule.dfy`, module `Schedule`**: the task record of
  `types/schedule.d.ts`.
  - A task is a value.
  - `callback` is optional, because the scheduler assigns `null` to it.

Three behaviours of the code that a reader might not expect:

- `hadnleTimeout` does nothing after advancing the timers while a host
  callback is already scheduled. It does not re-arm a timeout in that case.
- `workLoop` advances the timers and takes the first task of the task queue as
  its current task, but its loop never pops or runs that task. The loop's only
  effect is clearing the callback of that task, in the first iteration that
  does not break. An expired task never makes it break, so it spins.
- `flushWork` returns whatever `workLoop` returns, and does not report whether
  work remains.

## Model

| member | source | states |
|---|---|---|
| MinHeap.Compare | packages/scheduler/src/new.SchedulerMinHeap.ts:72-75 | negative, zero or positive exactly as `a` precedes, ties with, or follows `b` in `(sortIndex, id)` order |
| MinHeap.PrecedesIsStrictTotalOrder | packages/scheduler/src/new.SchedulerMinHeap.ts:72-75 | the comparator's order is irreflexive, asymmetric, transitive, and total on tasks with distinct ids |
| MinHeap.RootIsMinimumAll | packages/scheduler/src/new.SchedulerMinHeap.ts:11-25 | in a heap no element precedes the one at index 0 |
| MinHeap.SiftUpStep | packages/scheduler/src/new.SchedulerMinHeap.ts:30-35 | swapping a node with a parent that compares greater moves the only possible heap violation one level up and keeps the multiset |
| MinHeap.SiftingUpStep | packages/scheduler/src/new.SchedulerMinHeap.ts:30-35 | one swap of siftUp keeps its loop invariant: the node stays on the root path of its start index and only positions on that path change |
| MinHeap.SiftingUpDone | packages/scheduler/src/new.SchedulerMinHeap.ts:29-38 | once the node is at the root or its parent does not compare greater, the array is a heap |
| MinHeap.SiftDownTarget | packages/scheduler/src/new.SchedulerMinHeap.ts:47-68 | the child swapped with is one that precedes the node and that no sibling precedes; the right child is taken only when it strictly precedes the left; `None` exactly when no child precedes the node |
| MinHeap.SiftDownStep | packages/scheduler/src/new.SchedulerMinHeap.ts:52-65 | swapping the node with the child siftDown picks moves the only possible heap violation one level down and keeps the multiset |
| MinHeap.Heap.Peek | packages/scheduler/src/new.SchedulerMinHeap.ts:7-9 | `None` exactly for an empty heap, otherwise the element at index 0 |
| MinHeap.Heap.Push | packages/scheduler/src/new.SchedulerMinHeap.ts:1-5 | the heap stays a heap, one longer, holding the old elements plus `node` |
| MinHeap.Heap.Pop | packages/scheduler/src/new.SchedulerMinHeap.ts:11-25 | on an empty heap `None` and no change; otherwise the old first element, which no element precedes, with the rest kept as a heap one shorter |
| MinHeap.Heap.SiftUp | packages/scheduler/src/new.SchedulerMinHeap.ts:27-40 | ends with a heap and the same multiset, and changes no position off the root path of the start index |
| MinHeap.Heap.SiftDown | packages/scheduler/src/new.SchedulerMinHeap.ts:42-70 | ends with a heap with the same length and multiset |
| Profiling.ToInt32 | packages/scheduler/src/new.SchedulerProfiling.ts:41 | the int32 an `Int32Array` stores is congruent to the value modulo 2^32 and equals it when it fits |
| Profiling.Int32sFitting | packages/scheduler/src/new.SchedulerProfiling.ts:41 | entries that fit 32 bits are stored unchanged |
| Profiling.EventRecord | packages/scheduler/src/new.SchedulerProfiling.ts:63-164 | each mark function's record has its kind's width and decodes back to the event it describes |
| Profiling.ParseFlatten | packages/scheduler/src/new.SchedulerProfiling.ts:63-164 | a run of records reads back as exactly the events that produced it |
| Profiling.ParseAppend | packages/scheduler/src/new.SchedulerProfiling.ts:41 | appending one record to a log that reads back extends the reading by that event |
| Profiling.Write | packages/scheduler/src/new.SchedulerProfiling.ts:41 | `set(entries, offset)` changes exactly the positions `offset ..` `offset + |entries|`, to the entries converted by ToInt32 |
| Profiling.Grow | packages/scheduler/src/new.SchedulerProfiling.ts:36-37 | the new array has the requested length, the old log as its prefix and zeros after it |
| Profiling.LogEventSpec | packages/scheduler/src/new.SchedulerProfiling.ts:24-43 | logEvent on a log state keeps the size and index invariants |
| Profiling.LogEventStops | packages/scheduler/src/new.SchedulerProfiling.ts:28-35 | logging stops exactly when the index would reach the size and doubling it passes 524288 |
| Profiling.LogEventAppends | packages/scheduler/src/new.SchedulerProfiling.ts:24-43 | while logging goes on, the recorded prefix becomes the old one followed by the converted entries, whether or not the log grew |
| Profiling.RecordedStaysParseable | packages/scheduler/src/new.SchedulerProfiling.ts:24-43 | if every field fits 32 bits, the recorded prefix still reads back as the events logged, now with the new one at the end |
| Profiling.CopyIntoNew | packages/scheduler/src/new.SchedulerProfiling.ts:36-37 | a fresh zeroed array of `n` elements with the old log copied into its prefix |
| Profiling.SetEntries | packages/scheduler/src/new.SchedulerProfiling.ts:41 | the array afterwards is `Write` of its old contents |
| Profiling.Profiler.constructor | packages/scheduler/src/new.SchedulerProfiling.ts:3-13 | both counters 0 and no log |
| Profiling.Profiler.StartLoggingProfilingEvents | packages/scheduler/src/new.SchedulerProfiling.ts:45-50 | a fresh log of 131072 zeroed elements, size 131072, index 0, counters untouched |
| Profiling.Profiler.StopLoggingProfilingEvents | packages/scheduler/src/new.SchedulerProfiling.ts:52-59 | returns the buffer held before the call, then size 0, buffer and log null, index 0 |
| Profiling.Profiler.LogEvent | packages/scheduler/src/new.SchedulerProfiling.ts:24-43 | the new log state is `LogEventSpec` of the old one, the counters are unchanged, and a replaced log is a fresh array |
| Profiling.Profiler.MarkTaskStart | packages/scheduler/src/new.SchedulerProfiling.ts:63-74 | with profiling on, logs `[1, ms*1000, id, priorityLevel]`; with it off, neither the profiler nor its log array is written |
| Profiling.Profiler.MarkTaskCompleted | packages/scheduler/src/new.SchedulerProfiling.ts:76-86 | with profiling on, logs `[2, ms*1000, id]`; with it off, neither the profiler nor its log array is written |
| Profiling.Profiler.MarkTaskCanceled | packages/scheduler/src/new.SchedulerProfiling.ts:88-98 | with profiling on, logs `[4, ms*1000, id]`; with it off, neither the profiler nor its log array is written |
| Profiling.Profiler.MarkTaskErrored | packages/scheduler/src/new.SchedulerProfiling.ts:100-110 | with profiling on, logs `[3, ms*1000, id]`; with it off, neither the profiler nor its log array is written |
| Profiling.Profiler.MarkTaskRun | packages/scheduler/src/new.SchedulerProfiling.ts:112-125 | with profiling on, increments `runIdCounter` even with no log, then logs `[5, ms*1000, id, runIdCounter]` |
| Profiling.Profiler.MarkTaskYield | packages/scheduler/src/new.SchedulerProfiling.ts:127-138 | logs `[6, ms*1000, id, runIdCounter]` without incrementing the counter |
| Profiling.Profiler.MarkSchedulerSuspended | packages/scheduler/src/new.SchedulerProfiling.ts:140-152 | with profiling on, increments `mainThreadIdCounter`, then logs `[7, ms*1000, mainThreadIdCounter]` |
| Profiling.Profiler.MarkSchedulerUnSuspended | packages/scheduler/src/new.SchedulerProfiling.ts:154-164 | logs `[8, ms*1000, mainThreadIdCounter]` without incrementing the counter |
| Scheduler.TimeoutsIncreasing | packages/scheduler/src/forks/new.Scheduler.ts:52-61 | Immediate < UserBlocking < Normal < Low < Idle timeouts, and Idle is 2^30 - 1 |
| Scheduler.NoTaskInBothQueues | packages/scheduler/src/forks/new.Scheduler.ts:66-67 | when ids are unique across the two queues, no task id is in both |
| Scheduler.PromoteAllKeepsUnique | packages/scheduler/src/forks/new.Scheduler.ts:123 | re-keying the moved timers keeps ids unique |
| Scheduler.AdvanceKeepsIdsUnique | packages/scheduler/src/forks/new.Scheduler.ts:115-133 | advanceTimers neither duplicates a task nor leaves one in both queues |
| Scheduler.LiveFutureTimersKept | packages/scheduler/src/forks/new.Scheduler.ts:115-133 | every timer with a callback that is not yet due is still in the timer queue |
| Scheduler.NoDueTimerRemains | packages/scheduler/src/forks/new.Scheduler.ts:115-133 | when every timer is keyed by its start time, no timer left in the queue is due |
| Scheduler.DropStep | packages/scheduler/src/forks/new.Scheduler.ts:119-120 | popping a first timer that has no callback keeps the advance invariant, recording the timer as dropped |
| Scheduler.PromoteStep | packages/scheduler/src/forks/new.Scheduler.ts:121-124 | popping a due first timer and pushing it re-keyed keeps the advance invariant, recording the timer as moved |
| Scheduler.SchedulerState.constructor | packages/scheduler/src/forks/new.Scheduler.ts:66-86 | empty queues, not paused, no current task, normal priority, all flags false |
| Scheduler.SchedulerState.RequestHostCallback | packages/scheduler/src/forks/new.Scheduler.ts:214-216 | records the callback request |
| Scheduler.SchedulerState.RequestHostTimeout | packages/scheduler/src/forks/new.Scheduler.ts:218 | records the timeout request with its delay |
| Scheduler.SchedulerState.CancelHostTimeout | packages/scheduler/src/forks/new.Scheduler.ts:220 | records the cancellation |
| Scheduler.SchedulerState.ProfileTaskStart | packages/scheduler/src/forks/new.Scheduler.ts:125-127 | with profiling on, logs `[1, ms*1000, id, priorityLevel]`, counters kept; with it off, the profiler is untouched |
| Scheduler.SchedulerState.ProfileSchedulerUnSuspended | packages/scheduler/src/forks/new.Scheduler.ts:153-155 | with profiling on, logs `[8, ms*1000, mainThreadIdCounter]`, counters kept; with it off, the profiler is untouched |
| Scheduler.SchedulerState.ProfileSchedulerSuspended | packages/scheduler/src/forks/new.Scheduler.ts:184-187 | with profiling on, increments `mainThreadIdCounter` and logs `[7, ms*1000, mainThreadIdCounter]`; with it off, the profiler is untouched |
| Scheduler.SchedulerState.DropTimer | packages/scheduler/src/forks/new.Scheduler.ts:119-120 | the timer queue loses exactly its old first timer, which is appended to the dropped timers, and the advance invariant holds |
| Scheduler.SchedulerState.PromoteTimer | packages/scheduler/src/forks/new.Scheduler.ts:121-124 | the timer queue loses exactly its old first timer; the task queue gains exactly that timer re-keyed by its expiration time; both are recorded as moved and the advance invariant holds; with profiling on its start is logged, with it off the profiler is untouched |
| Scheduler.SchedulerState.AdvanceTimers | packages/scheduler/src/forks/new.Scheduler.ts:115-133 | both queues stay heaps; the removed timers are exactly the dropped ones (no callback) and the moved ones (due, now in the task queue re-keyed); no remaining timer precedes a removed one; the first remaining timer is live and not yet due; the profiler's counters are kept, and with profiling off the profiler is untouched |
| Scheduler.SchedulerState.HandleTimeout | packages/scheduler/src/forks/new.Scheduler.ts:135-150 | clears `isHostTimeoutScheduled` and advances the timers. With a callback already scheduled, nothing else changes. Otherwise a non-empty task queue sets the flag and requests `flushWork`; else a non-empty timer queue gets a timeout request for `startTime - now`, which is positive. With profiling off the profiler is untouched |
| Scheduler.SchedulerState.WorkLoopIteration | packages/scheduler/src/forks/new.Scheduler.ts:200-210 | breaks exactly when the current task has not expired and there is no time left or the host wants control, changing nothing; otherwise clears the current task's callback in the current task and the queue's first slot alike |
| Scheduler.SchedulerState.WorkLoop | packages/scheduler/src/forks/new.Scheduler.ts:191-212 | advances the timers as AdvanceTimers does; then the current task is the queue's first task, and the loop returns exactly when some iteration it follows breaks, clearing that task's callback if the first iteration does not break; with profiling off the profiler is untouched |
| Scheduler.SchedulerState.WorkLoopWhile | packages/scheduler/src/forks/new.Scheduler.ts:196-211 | the loop's outcome, taking an answer of `shouldYieldToHost` only in iterations whose break test calls it, as in WorkLoop |
| Scheduler.BreaksWithoutAsking | packages/scheduler/src/forks/new.Scheduler.ts:200-204 | with no time remaining and an unexpired task the loop returns in its first iteration with the queue unchanged, needing no answer from the host |
| Scheduler.ExpiredTaskNeverReturns | packages/scheduler/src/forks/new.Scheduler.ts:196-211 | an expired task never makes the loop break; after one iteration its callback is cleared |
| Scheduler.BreaksWhenHostSaysYield | packages/scheduler/src/forks/new.Scheduler.ts:200-204 | with time remaining and an unexpired task the loop returns exactly when one of the host's answers, asked once per iteration, says to yield |
| Scheduler.SchedulerState.FlushWorkEnter | packages/scheduler/src/forks/new.Scheduler.ts:153-161 | both scheduling flags false; a cancellation is recorded exactly when a timeout was scheduled; with profiling on, `[8, ms*1000, mainThreadIdCounter]` is logged and the counters kept, with it off the profiler is untouched |
| Scheduler.SchedulerState.FlushWorkFinally | packages/scheduler/src/forks/new.Scheduler.ts:180-188 | no current task, the saved priority level back, not performing work; with profiling on, `mainThreadIdCounter` is incremented and `[7, ms*1000, mainThreadIdCounter]` logged, with it off the profiler is untouched |
| Scheduler.SchedulerState.FlushWork | packages/scheduler/src/forks/new.Scheduler.ts:152-189 | exits with both flags false, a cancellation recorded exactly when a timeout was scheduled, and the entry priority level. Once the loop returns: no current task and not performing work. `isSchedulerPaused` is not written; `runIdCounter` is kept and `mainThreadIdCounter` grows by one exactly when profiling is on and the loop returns; with profiling off the profiler is untouched |

## Left out

- Clocks: `performance.now` / `Date.now` are not modelled. Times are integer parameters, and the clock reading in flushWork's `finally` is the parameter `suspendTime`.
- The `ms * 1000` timestamps are taken on integer milliseconds. The truncation of a fractional product by the `Int32Array` is not modelled; only 32-bit wrap-around is (`ToInt32`).
- Host feature detection for `setTimeout`, `clearTimeout`, `setImmediate` and `navigator.scheduling.isInputPending` is environment plumbing and is not modelled.
- The host hooks `requestHostCallback`, `requestHostTimeout` and `cancelHostTimeout` have empty bodies. The model records their calls in the ghost log `hostRequests`.
- `shouldYieldToHost` is not defined in the source files. Its answers are the input sequence `yieldAnswers`, taken one per call, and it is called only when the break test reaches it: an expired task or `hasTimeRemaining` false short-circuits the call.
- Scheduler.SchedulerState.WorkLoop: the source's loop never ends once an iteration does not break, because it never pops its current task. The model follows at most `fuel` iterations, and no iteration that needs a host answer beyond the last one. It returns `returned == false` when it stops following a loop the source is still running. It says nothing about running tasks to completion.
- Scheduler.SchedulerState.FlushWork: the exception path is not modelled. That is the `catch` that calls `markTaskErrored` and rethrows; `MarkTaskErrored` itself is modelled.
  - The `finally` block runs only when the loop returns.
  - The effect on the queues and the value of `returned` are stated by WorkLoop and not restated here.
- Scheduler.SchedulerState.FlushWork: with profiling on, the log after the call is not stated as a whole, because the work loop's timer advance logs one record per moved timer (see AdvanceTimers); the resume and suspend records are stated by FlushWorkEnter and FlushWorkFinally.
  - `hasTimeRemaining`, a number in the source, is reduced to its truthiness.
- Scheduler.SchedulerState.AdvanceTimers: with profiling on, the records logged for the moved timers are stated per timer by PromoteTimer, not as the whole log after the loop.
- Scheduler.SchedulerState.HandleTimeout: it requires that no work is in progress. The host calls it only between work loops, and a work loop in progress holds the task queue's first task as `currentTask`.
- Task objects are values. The source's in-place writes (`timer.sortIndex = …`, `currentTask.callback = null`) become replacing the task in its heap slot. Aliasing of one task object from several places is not modelled beyond `currentTask` being the queue's first task.
- Unique task ids are not part of the class invariant. The lemmas AdvanceKeepsIdsUnique and NoTaskInBothQueues prove that advanceTimers preserves them.
- `eventLogBuffer` and `eventLog` are one Dafny array: a buffer and the `Int32Array` over it are the same storage.
- The initial `undefined` (rather than `null`) `eventLog` is a JavaScript quirk. The initial state is "no log".
- Profiling.Profiler.LogEvent: it requires at most four entries, the longest record a mark function passes. With a longer array the write index could pass even the doubled size, which the log invariant excludes.
- The feature flags `enableProfiling` and `enableSchedulerDebugging` come from a module that is not part of this model; they are constructor parameters. The same holds for the priority constants, of which the initial `NormalPriority` is a parameter.
- `taskIdCounter` is not modelled: nothing in the source files reads or changes it after its initialisation. `isSchedulerPaused` is kept, but nothing in the source files changes it.
