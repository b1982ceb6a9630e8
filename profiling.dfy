/**
 * The profiling event log (packages/scheduler/src/new.SchedulerProfiling.ts):
 * an Int32Array that records fixed-width integer records, grows by doubling
 * its nominal size up to a cap, and shuts itself off past the cap.
 */
module Profiling {
  import opened Schedule

  const InitialEventLogSize := 131072
  const MaxEventLogSize := 524288

  const TaskStartEvent := 1
  const TaskCompleteEvent := 2
  const TaskErrorEvent := 3
  const TaskCancelEvent := 4
  const TaskRunEvent := 5
  const TaskYieldEvent := 6
  const SchedulerSuspendEvent := 7
  const SchedulerResumeEvent := 8

  // ---------------------------------------------------------------------------
  // Int32Array element conversion

  type Int32 = x: int | -0x8000_0000 <= x < 0x8000_0000

  /** ECMAScript ToInt32: what an Int32Array stores for an integral number. */
  function ToInt32(x: int): (r: Int32)
    ensures (x - r) % 0x1_0000_0000 == 0
    ensures -0x8000_0000 <= x < 0x8000_0000 ==> r == x
  {
    var m := x % 0x1_0000_0000;
    if m >= 0x8000_0000 then m - 0x1_0000_0000 else m
  }

  function Int32s(entries: seq<int>): (r: seq<Int32>)
    ensures |r| == |entries|
    ensures forall i :: 0 <= i < |entries| ==> r[i] == ToInt32(entries[i])
  {
    seq(|entries|, i requires 0 <= i < |entries| => ToInt32(entries[i]))
  }

  predicate FitsInt32(entries: seq<int>) {
    forall i :: 0 <= i < |entries| ==> -0x8000_0000 <= entries[i] < 0x8000_0000
  }

  lemma Int32sFitting(entries: seq<int>)
    requires FitsInt32(entries)
    ensures Int32s(entries) == entries
  {
  }

  // ---------------------------------------------------------------------------
  // Records

  /** One lifecycle transition, as the mark functions describe it. */
  datatype Event =
    | TaskStart(ms: int, taskId: int, priorityLevel: int)
    | TaskComplete(ms: int, taskId: int)
    | TaskError(ms: int, taskId: int)
    | TaskCancel(ms: int, taskId: int)
    | TaskRun(ms: int, taskId: int, runId: int)
    | TaskYield(ms: int, taskId: int, runId: int)
    | SchedulerSuspend(ms: int, mainThreadId: int)
    | SchedulerResume(ms: int, mainThreadId: int)

  /** The number of fields a record of the given kind has; 0 for an unknown kind. */
  function RecordWidth(kind: int): nat {
    if kind == TaskStartEvent || kind == TaskRunEvent || kind == TaskYieldEvent then 4
    else if kind == TaskCompleteEvent || kind == TaskErrorEvent || kind == TaskCancelEvent then 3
    else if kind == SchedulerSuspendEvent || kind == SchedulerResumeEvent then 3
    else 0
  }

  /** Reads back one record of exactly its kind's width; timestamps are in microseconds. */
  function DecodeRecord(r: seq<int>): Option<Event> {
    if |r| == 0 || |r| != RecordWidth(r[0]) then None
    else if r[0] == TaskStartEvent then Some(TaskStart(r[1] / 1000, r[2], r[3]))
    else if r[0] == TaskCompleteEvent then Some(TaskComplete(r[1] / 1000, r[2]))
    else if r[0] == TaskErrorEvent then Some(TaskError(r[1] / 1000, r[2]))
    else if r[0] == TaskCancelEvent then Some(TaskCancel(r[1] / 1000, r[2]))
    else if r[0] == TaskRunEvent then Some(TaskRun(r[1] / 1000, r[2], r[3]))
    else if r[0] == TaskYieldEvent then Some(TaskYield(r[1] / 1000, r[2], r[3]))
    else if r[0] == SchedulerSuspendEvent then Some(SchedulerSuspend(r[1] / 1000, r[2]))
    else Some(SchedulerResume(r[1] / 1000, r[2]))
  }

  /**
   * The array a mark function hands to logEvent: the kind, the time scaled
   * to microseconds, then the kind's own fields.
   */
  function EventRecord(e: Event): (r: seq<int>)
    ensures |r| > 0 && |r| == RecordWidth(r[0])
    ensures DecodeRecord(r) == Some(e)
  {
    match e
    case TaskStart(ms, id, priorityLevel) => [TaskStartEvent, ms * 1000, id, priorityLevel]
    case TaskComplete(ms, id) => [TaskCompleteEvent, ms * 1000, id]
    case TaskError(ms, id) => [TaskErrorEvent, ms * 1000, id]
    case TaskCancel(ms, id) => [TaskCancelEvent, ms * 1000, id]
    case TaskRun(ms, id, runId) => [TaskRunEvent, ms * 1000, id, runId]
    case TaskYield(ms, id, runId) => [TaskYieldEvent, ms * 1000, id, runId]
    case SchedulerSuspend(ms, mainThreadId) => [SchedulerSuspendEvent, ms * 1000, mainThreadId]
    case SchedulerResume(ms, mainThreadId) => [SchedulerResumeEvent, ms * 1000, mainThreadId]
  }

  /** Splits a log into records by the kind tag at the head of each. */
  function Parse(log: seq<int>): Option<seq<Event>>
    decreases |log|
  {
    if log == [] then Some([])
    else
      var w := RecordWidth(log[0]);
      if w == 0 || |log| < w then None
      else match (DecodeRecord(log[..w]), Parse(log[w..]))
        case (Some(e), Some(rest)) => Some([e] + rest)
        case _ => None
  }

  function Flatten(events: seq<Event>): seq<int> {
    if events == [] then [] else EventRecord(events[0]) + Flatten(events[1..])
  }

  /** The records are self-delimiting: a run of them reads back as the events that made it. */
  lemma {:induction false} ParseFlatten(events: seq<Event>)
    ensures Parse(Flatten(events)) == Some(events)
  {
    if events != [] {
      var r := EventRecord(events[0]);
      var rest := Flatten(events[1..]);
      assert Flatten(events) == r + rest;
      assert (r + rest)[..|r|] == r;
      assert (r + rest)[|r|..] == rest;
      ParseFlatten(events[1..]);
      assert [events[0]] + events[1..] == events;
    }
  }

  /** Appending a record to a log that parses extends the parse by that record's event. */
  lemma {:induction false} ParseAppend(log: seq<int>, events: seq<Event>, e: Event)
    requires Parse(log) == Some(events)
    ensures Parse(log + EventRecord(e)) == Some(events + [e])
    decreases |log|
  {
    var r := EventRecord(e);
    if log == [] {
      assert log + r == r;
      var w := RecordWidth(r[0]);
      assert r[..w] == r && r[w..] == [];
      assert DecodeRecord(r[..w]) == Some(e);
      assert Parse(r[w..]) == Some([]);
      assert r != [] && w != 0 && |r| >= w;
      assert [e] + [] == [e];
      assert Parse(r) == Some([e]);
      assert events == [] && events + [e] == [e];
    } else {
      var w := RecordWidth(log[0]);
      var head := DecodeRecord(log[..w]);
      var rest := Parse(log[w..]);
      assert head.Some? && rest.Some?;
      assert events == [head.value] + rest.value;
      assert (log + r)[0] == log[0];
      assert (log + r)[..w] == log[..w];
      assert (log + r)[w..] == log[w..] + r;
      ParseAppend(log[w..], rest.value, e);
      assert [head.value] + (rest.value + [e]) == events + [e];
    }
  }

  // ---------------------------------------------------------------------------
  // The log as a value

  /** The log's state: no log, or one with its nominal size, write index and elements. */
  datatype LogView = Inactive | Active(size: int, index: int, log: seq<Int32>)

  /**
   * The element count of the Int32Array for a nominal size: the first array has
   * `size` elements (`size * 4` bytes); a grown one is allocated with `size * 4`
   * elements.
   */
  function LogLength(size: int): int {
    if size == InitialEventLogSize then size else 4 * size
  }

  /** The nominal sizes a log goes through, and a write index below the size. */
  ghost predicate ValidSize(size: int, index: int) {
    && (size == InitialEventLogSize || size == 2 * InitialEventLogSize || size == MaxEventLogSize)
    && 0 <= index < size
  }

  ghost predicate ValidView(v: LogView) {
    v.Active? ==> ValidSize(v.size, v.index) && |v.log| == LogLength(v.size)
  }

  /** The elements written so far. */
  function Recorded(v: LogView): seq<Int32>
    requires ValidView(v)
  {
    if v.Inactive? then [] else v.log[..v.index]
  }

  /** `Int32Array.set(entries, offset)`. */
  function Write(log: seq<Int32>, offset: nat, entries: seq<int>): (r: seq<Int32>)
    requires offset + |entries| <= |log|
    ensures |r| == |log|
    ensures forall i :: 0 <= i < |log| ==>
      r[i] == if offset <= i < offset + |entries| then ToInt32(entries[i - offset]) else log[i]
  {
    log[..offset] + Int32s(entries) + log[offset + |entries|..]
  }

  /** A zero-filled Int32Array of `n` elements with `log` copied into its prefix. */
  function Grow(log: seq<Int32>, n: nat): (r: seq<Int32>)
    requires |log| <= n
    ensures |r| == n && r[..|log|] == log
    ensures forall i :: |log| <= i < n ==> r[i] == 0
  {
    log + seq(n - |log|, _ => 0)
  }

  /**
   * logEvent on a log state: advance the index by the record's width, doubling
   * the nominal size when the index would reach it; past the cap, stop logging
   * and drop the record.
   */
  function LogEventSpec(v: LogView, entries: seq<int>): (r: LogView)
    requires ValidView(v) && |entries| <= 4
    ensures ValidView(r)
  {
    match v
    case Inactive => Inactive
    case Active(size, index, log) =>
      var newIndex := index + |entries|;
      if newIndex + 1 > size then
        if size * 2 > MaxEventLogSize then Inactive
        else Active(size * 2, newIndex, Write(Grow(log, LogLength(size * 2)), index, entries))
      else Active(size, newIndex, Write(log, index, entries))
  }

  /** logEvent stops the log exactly when the doubled size would pass the cap. */
  lemma LogEventStops(v: LogView, entries: seq<int>)
    requires ValidView(v) && v.Active? && |entries| <= 4
    ensures LogEventSpec(v, entries).Inactive? <==>
      v.index + |entries| + 1 > v.size && v.size * 2 > MaxEventLogSize
  {
  }

  /** An active log after logEvent holds the old records followed by the new one, converted to int32. */
  lemma LogEventAppends(v: LogView, entries: seq<int>)
    requires ValidView(v) && |entries| <= 4 && LogEventSpec(v, entries).Active?
    ensures Recorded(LogEventSpec(v, entries)) == Recorded(v) + Int32s(entries)
  {
    var r := LogEventSpec(v, entries);
    assert |Recorded(r)| == |Recorded(v) + Int32s(entries)|;
    forall i | 0 <= i < |Recorded(r)|
      ensures Recorded(r)[i] == (Recorded(v) + Int32s(entries))[i]
    {
      if r.size != v.size {
        assert Grow(v.log, LogLength(v.size * 2))[..|v.log|] == v.log;
        assert i < v.index ==> Grow(v.log, LogLength(v.size * 2))[i] == v.log[i];
      }
    }
  }

  /** The recorded prefix stays a well-formed run of records as long as every field fits an int32. */
  lemma RecordedStaysParseable(v: LogView, events: seq<Event>, e: Event)
    requires ValidView(v) && LogEventSpec(v, EventRecord(e)).Active?
    requires Parse(Recorded(v)) == Some(events) && FitsInt32(EventRecord(e))
    ensures Parse(Recorded(LogEventSpec(v, EventRecord(e)))) == Some(events + [e])
  {
    LogEventAppends(v, EventRecord(e));
    Int32sFitting(EventRecord(e));
    ParseAppend(Recorded(v), events, e);
  }

  // ---------------------------------------------------------------------------
  // Int32Array operations

  /** `new Int32Array(n)` followed by `set(log)`: a fresh zeroed array with `log` copied into its prefix. */
  method CopyIntoNew(log: array<Int32>, n: nat) returns (r: array<Int32>)
    requires log.Length <= n
    ensures fresh(r) && r[..] == Grow(log[..], n)
  {
    r := new Int32[n](_ => 0);
    forall i | 0 <= i < log.Length {
      r[i] := log[i];
    }
  }

  /** `log.set(entries, offset)`: each entry is converted by ToInt32. */
  method SetEntries(log: array<Int32>, entries: seq<int>, offset: nat)
    requires offset + |entries| <= log.Length
    modifies log
    ensures log[..] == Write(old(log[..]), offset, entries)
  {
    forall i | 0 <= i < |entries| {
      log[offset + i] := ToInt32(entries[i]);
    }
  }

  // ---------------------------------------------------------------------------
  // The module state

  /** The profiling module's state; `eventLogBuffer` is the buffer under `eventLog`. */
  class Profiler {
    const enableProfiling: bool
    var runIdCounter: int
    var mainThreadIdCounter: int
    var eventLogSize: int
    var eventLogBuffer: array?<Int32>
    var eventLog: array?<Int32>
    var eventLogIndex: int

    ghost function View(): LogView
      reads this, eventLog
    {
      if eventLog == null then Inactive else Active(eventLogSize, eventLogIndex, eventLog[..])
    }

    /** The state invariant; it implies `ValidView(View())`. */
    ghost predicate Valid()
      reads this
    {
      && (eventLog == null ==> eventLogBuffer == null && eventLogSize == 0 && eventLogIndex == 0)
      && (eventLog != null ==>
            eventLogBuffer == eventLog && ValidSize(eventLogSize, eventLogIndex)
            && eventLog.Length == LogLength(eventLogSize))
    }

    /** The module's initial state: counters at 0 and no log. */
    constructor (enableProfiling: bool)
      ensures Valid() && View() == Inactive
      ensures this.enableProfiling == enableProfiling
      ensures runIdCounter == 0 && mainThreadIdCounter == 0
    {
      this.enableProfiling := enableProfiling;
      runIdCounter, mainThreadIdCounter := 0, 0;
      eventLogSize := 0;
      eventLogBuffer, eventLog := null, null;
      eventLogIndex := 0;
    }

    /** `startLoggingProfilingEvents`: a fresh zeroed log of the initial size. */
    method StartLoggingProfilingEvents()
      modifies this
      ensures Valid() && fresh(eventLog)
      ensures View() == Active(InitialEventLogSize, 0, seq(InitialEventLogSize, _ => 0))
      ensures runIdCounter == old(runIdCounter) && mainThreadIdCounter == old(mainThreadIdCounter)
    {
      eventLogSize := InitialEventLogSize;
      eventLogBuffer := new Int32[eventLogSize](_ => 0);
      eventLog := eventLogBuffer;
      eventLogIndex := 0;
    }

    /** `stopLoggingProfilingEvents`: hand back the buffer held before the call and reset. */
    method StopLoggingProfilingEvents() returns (buffer: array?<Int32>)
      modifies this
      ensures Valid() && View() == Inactive
      ensures buffer == old(eventLogBuffer)
      ensures eventLogSize == 0 && eventLogBuffer == null && eventLog == null && eventLogIndex == 0
      ensures runIdCounter == old(runIdCounter) && mainThreadIdCounter == old(mainThreadIdCounter)
    {
      buffer := eventLogBuffer;
      eventLogSize := 0;
      eventLogBuffer := null;
      eventLog := null;
      eventLogIndex := 0;
    }

    /**
     * `logEvent`. The mark functions pass records of three or four fields,
     * which is what `|entries| <= 4` admits.
     */
    method LogEvent(entries: seq<int>)
      requires Valid() && |entries| <= 4
      modifies this, eventLog
      ensures Valid()
      ensures View() == LogEventSpec(old(View()), entries)
      ensures eventLog == null || eventLog == old(eventLog) || fresh(eventLog)
      ensures runIdCounter == old(runIdCounter) && mainThreadIdCounter == old(mainThreadIdCounter)
    {
      if eventLog != null {
        ghost var v := View();
        var offset := eventLogIndex;
        eventLogIndex := eventLogIndex + |entries|;
        if eventLogIndex + 1 > eventLogSize {
          eventLogSize := eventLogSize * 2;
          if eventLogSize > MaxEventLogSize {
            var _ := StopLoggingProfilingEvents();
            return;
          }
          var newEventLog := CopyIntoNew(eventLog, eventLogSize * 4);
          eventLogBuffer := newEventLog;
          eventLog := newEventLog;
        }
        SetEntries(eventLog, entries, offset);
      }
    }

    /** `markTaskStart`: record `[1, ms*1000, id, priorityLevel]`. */
    method MarkTaskStart(task: Task, ms: int)
      requires Valid()
      modifies this, eventLog
      ensures Valid() && (eventLog == null || eventLog == old(eventLog) || fresh(eventLog))
      ensures !enableProfiling ==> unchanged(this) && (eventLog != null ==> unchanged(eventLog))
      ensures runIdCounter == old(runIdCounter) && mainThreadIdCounter == old(mainThreadIdCounter)
      ensures View() == if enableProfiling
        then LogEventSpec(old(View()), EventRecord(TaskStart(ms, task.id, task.priorityLevel)))
        else old(View())
    {
      if enableProfiling {
        if eventLog != null {
          LogEvent(EventRecord(TaskStart(ms, task.id, task.priorityLevel)));
        }
      }
    }

    /** `markTaskCompleted`: record `[2, ms*1000, id]`. */
    method MarkTaskCompleted(task: Task, ms: int)
      requires Valid()
      modifies this, eventLog
      ensures Valid() && (eventLog == null || eventLog == old(eventLog) || fresh(eventLog))
      ensures !enableProfiling ==> unchanged(this) && (eventLog != null ==> unchanged(eventLog))
      ensures runIdCounter == old(runIdCounter) && mainThreadIdCounter == old(mainThreadIdCounter)
      ensures View() == if enableProfiling
        then LogEventSpec(old(View()), EventRecord(TaskComplete(ms, task.id)))
        else old(View())
    {
      if enableProfiling {
        if eventLog != null {
          LogEvent(EventRecord(TaskComplete(ms, task.id)));
        }
      }
    }

    /** `markTaskCanceled`: record `[4, ms*1000, id]`. */
    method MarkTaskCanceled(task: Task, ms: int)
      requires Valid()
      modifies this, eventLog
      ensures Valid() && (eventLog == null || eventLog == old(eventLog) || fresh(eventLog))
      ensures !enableProfiling ==> unchanged(this) && (eventLog != null ==> unchanged(eventLog))
      ensures runIdCounter == old(runIdCounter) && mainThreadIdCounter == old(mainThreadIdCounter)
      ensures View() == if enableProfiling
        then LogEventSpec(old(View()), EventRecord(TaskCancel(ms, task.id)))
        else old(View())
    {
      if enableProfiling {
        if eventLog != null {
          LogEvent(EventRecord(TaskCancel(ms, task.id)));
        }
      }
    }

    /** `markTaskErrored`: record `[3, ms*1000, id]`. */
    method MarkTaskErrored(task: Task, ms: int)
      requires Valid()
      modifies this, eventLog
      ensures Valid() && (eventLog == null || eventLog == old(eventLog) || fresh(eventLog))
      ensures !enableProfiling ==> unchanged(this) && (eventLog != null ==> unchanged(eventLog))
      ensures runIdCounter == old(runIdCounter) && mainThreadIdCounter == old(mainThreadIdCounter)
      ensures View() == if enableProfiling
        then LogEventSpec(old(View()), EventRecord(TaskError(ms, task.id)))
        else old(View())
    {
      if enableProfiling {
        if eventLog != null {
          LogEvent(EventRecord(TaskError(ms, task.id)));
        }
      }
    }

    /** `markTaskRun`: count the run, even with no log, then record `[5, ms*1000, id, runId]`. */
    method MarkTaskRun(task: Task, ms: int)
      requires Valid()
      modifies this, eventLog
      ensures Valid() && (eventLog == null || eventLog == old(eventLog) || fresh(eventLog))
      ensures !enableProfiling ==> unchanged(this) && (eventLog != null ==> unchanged(eventLog))
      ensures runIdCounter == if enableProfiling then old(runIdCounter) + 1 else old(runIdCounter)
      ensures mainThreadIdCounter == old(mainThreadIdCounter)
      ensures View() == if enableProfiling
        then LogEventSpec(old(View()), EventRecord(TaskRun(ms, task.id, runIdCounter)))
        else old(View())
    {
      if enableProfiling {
        runIdCounter := runIdCounter + 1;
        if eventLog != null {
          LogEvent(EventRecord(TaskRun(ms, task.id, runIdCounter)));
        }
      }
    }

    /** `markTaskYield`: record the current run id without counting: `[6, ms*1000, id, runId]`. */
    method MarkTaskYield(task: Task, ms: int)
      requires Valid()
      modifies this, eventLog
      ensures Valid() && (eventLog == null || eventLog == old(eventLog) || fresh(eventLog))
      ensures !enableProfiling ==> unchanged(this) && (eventLog != null ==> unchanged(eventLog))
      ensures runIdCounter == old(runIdCounter) && mainThreadIdCounter == old(mainThreadIdCounter)
      ensures View() == if enableProfiling
        then LogEventSpec(old(View()), EventRecord(TaskYield(ms, task.id, runIdCounter)))
        else old(View())
    {
      if enableProfiling {
        if eventLog != null {
          LogEvent(EventRecord(TaskYield(ms, task.id, runIdCounter)));
        }
      }
    }

    /** `markSchedulerSuspended`: count the suspension, then record `[7, ms*1000, mainThreadId]`. */
    method MarkSchedulerSuspended(ms: int)
      requires Valid()
      modifies this, eventLog
      ensures Valid() && (eventLog == null || eventLog == old(eventLog) || fresh(eventLog))
      ensures !enableProfiling ==> unchanged(this) && (eventLog != null ==> unchanged(eventLog))
      ensures runIdCounter == old(runIdCounter)
      ensures mainThreadIdCounter == if enableProfiling then old(mainThreadIdCounter) + 1 else old(mainThreadIdCounter)
      ensures View() == if enableProfiling
        then LogEventSpec(old(View()), EventRecord(SchedulerSuspend(ms, mainThreadIdCounter)))
        else old(View())
    {
      if enableProfiling {
        mainThreadIdCounter := mainThreadIdCounter + 1;
        if eventLog != null {
          LogEvent(EventRecord(SchedulerSuspend(ms, mainThreadIdCounter)));
        }
      }
    }

    /** `markSchedulerUnSuspended`: record the current suspension id: `[8, ms*1000, mainThreadId]`. */
    method MarkSchedulerUnSuspended(ms: int)
      requires Valid()
      modifies this, eventLog
      ensures Valid() && (eventLog == null || eventLog == old(eventLog) || fresh(eventLog))
      ensures !enableProfiling ==> unchanged(this) && (eventLog != null ==> unchanged(eventLog))
      ensures runIdCounter == old(runIdCounter) && mainThreadIdCounter == old(mainThreadIdCounter)
      ensures View() == if enableProfiling
        then LogEventSpec(old(View()), EventRecord(SchedulerResume(ms, mainThreadIdCounter)))
        else old(View())
    {
      if enableProfiling {
        if eventLog != null {
          LogEvent(EventRecord(SchedulerResume(ms, mainThreadIdCounter)));
        }
      }
    }
  }
}
