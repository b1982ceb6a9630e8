/**
 * The task record shared by the heap, the scheduler and the profiler
 * (types/schedule.d.ts).
 */
module Schedule {

  datatype Option<+T> = None | Some(value: T)

  /** Priority levels are the integers 0 to 5. */
  type PriorityLevel = p: int | 0 <= p <= 5

  /** The identity of a callback function value; the scheduler never calls one. */
  datatype Callback = Callback(handle: nat)

  /**
   * A task. `sortIndex` is its heap key; `callback` becomes `None` once the
   * scheduler has cleared it (the source assigns `null`).
   */
  datatype Task = Task(
    id: int,
    sortIndex: int,
    startTime: int,
    expirationTime: int,
    priorityLevel: PriorityLevel,
    callback: Option<Callback>)
}
