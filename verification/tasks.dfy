/** The records every scheduler consumes and produces. */
module Tasks {

  /** A task as supplied by the caller: identity and scheduling inputs. */
  datatype Task = Task(id: int, arrival: int, burst: int, priority: int)

  /** A task together with the start and finish times a scheduler assigned to it.
      `start` is the first dispatch; the preemptive schedulers use -1 for a task
      that was never dispatched. */
  datatype Scheduled = Scheduled(task: Task, start: int, finish: int)

  /** One timeline entry. `burst` is a length: the executed segment for Round-Robin,
      the task's total burst for every other scheduler. */
  datatype Slice = Slice(id: int, start: int, finish: int, burst: int)

  /** The single slice the non-round-robin schedulers emit for a finished task. */
  function WholeSlice(r: Scheduled): Slice
  {
    Slice(r.task.id, r.start, r.finish, r.task.burst)
  }

  predicate PositiveBursts(ts: seq<Task>)
  {
    forall i :: 0 <= i < |ts| ==> ts[i].burst >= 1
  }

  predicate NonNegativeBursts(ts: seq<Task>)
  {
    forall i :: 0 <= i < |ts| ==> ts[i].burst >= 0
  }

  function Bursts(ts: seq<Task>): seq<int>
  {
    seq(|ts|, i requires 0 <= i < |ts| => ts[i].burst)
  }

  function Arrivals(ts: seq<Task>): seq<int>
  {
    seq(|ts|, i requires 0 <= i < |ts| => ts[i].arrival)
  }

  /** The task list a scheduler's records are about, in record order. */
  function TasksOf(rs: seq<Scheduled>): seq<Task>
  {
    seq(|rs|, i requires 0 <= i < |rs| => rs[i].task)
  }

  /** The tasks, in the given order, with the times a scheduler assigned them. */
  function Stamped(ts: seq<Task>, start: seq<int>, finish: seq<int>): (rs: seq<Scheduled>)
    requires |start| == |ts| && |finish| == |ts|
    ensures |rs| == |ts| && TasksOf(rs) == ts
    ensures forall i :: 0 <= i < |ts| ==> rs[i] == Scheduled(ts[i], start[i], finish[i])
  {
    seq(|ts|, i requires 0 <= i < |ts| => Scheduled(ts[i], start[i], finish[i]))
  }
}
