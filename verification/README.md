# CPU scheduling simulator — a Dafny model

This project models the scheduling engine of a small CPU-scheduling simulator
(`scheduler.py`) and the name dispatch of its `/simulate` endpoint
(`app_multi.py`). A task has an id, an arrival time, a CPU burst and a priority.
Five schedulers assign each task a start and a finish time and produce a
timeline of execution slices:

- FCFS runs tasks in stable arrival order, back to back.
- SJF is non-preemptive. It pre-sorts by (arrival, burst) and then always
  dispatches the ready task with the shortest burst.
- Priority is the same dispatcher. It pre-sorts by arrival only and picks the
  lowest priority value.
- SRTF is preemptive. It runs in unit ticks and always serves the arrived task
  with the least remaining work. It emits one slice per task, from first
  dispatch to completion.
- Round-Robin keeps a FIFO queue and a fixed quantum, and records every slice.
  `rr` defaults the quantum to 1; the endpoint passes its own default of 2.

`calculate_metrics` then derives completion, turnaround and waiting times, their
averages, and CPU utilisation over the span from the earliest arrival to the
latest finish.

Modules, one per concern:

- `Tasks` holds the records.
- `Selection` is Python's `min(available, key=…)`: the first-indexed minimum.
- `Sorting` is Python's stable `sorted`, as the index permutation it applies.
- `Metrics` is `calculate_metrics`.
- `FirstComeFirstServed`, `NonPreemptive` (SJF and Priority), `ShortestRemaining`
  and `RoundRobin` are the schedulers.
- `Simulation` is the endpoint's dispatch.
- `Scenarios` holds small worked examples of each scheduler, proved from the
  model: FCFS and SJF from the schedulers' contracts, Round-Robin and SRTF by
  unfolding the loop step from the initial state.

Each scheduler loop is a method over an immutable state. One iteration of the
source loop is a function on that state. The loop invariant is split into small
predicates, each with a preservation lemma. For the two preemptive schedulers
the output is also tied to the iterated step: `rr` and `srtf` return exactly
the state reached after the number of iterations at which the source loop's
guard first fails.

Points where the code's behaviour is easy to misread; the model follows the code:

- Round-Robin has no invalid-quantum error. With work left and a quantum below
  1, the source loop never ends. The model turns that into a precondition
  (`RoundRobin.Rr`, `Simulation.Simulate`).
- With two tasks arriving together (bursts 4, quantum 2), Round-Robin
  finishes the first task at 6 and the second at 8, not both at 8
  (`Scenarios.RoundRobinPairRun`).
- An empty task list is reported as an error only because `min` of no arrivals
  raises inside the metrics step. The endpoint turns that into status 500.

## Model

| member | source | states |
|---|---|---|
| Selection.FirstMin | scheduler.py:81 | returns -1 exactly when no index is eligible; otherwise an eligible index whose key is minimal and that comes before every other eligible index with the same key |
| Selection.FirstMinUnique | scheduler.py:120 | the first-minimum tie-break selects at most one index, so every pick in the schedulers is deterministic |
| Sorting.SortOrder | scheduler.py:69 | the permutation applied by the stable sort lists every index once, ordered by key with ties kept in input order |
| Sorting.StableOrderUnique | scheduler.py:214 | any index sequence that lists every index once in stable key order equals `SortOrder`: the stable sort has exactly one result |
| Sorting.SortTasks | scheduler.py:44 | the sorted list has the input's length and position `a` holds the input task at `SortOrder[a]` |
| Metrics.CalculateMetrics | scheduler.py:8-37 | for each record, ct = finish, tat = ct - arrival and wt = tat - burst; totals are the sums; averages divide by n; utilisation is total burst over the span in percent, or 100 when the span is empty; waiting times are non-negative when no task finishes before arrival plus burst |
| Metrics.SpanBounds | scheduler.py:27-28 | every arrival is at least the span start and every finish at most the span end |
| Metrics.UtilisationInRange | scheduler.py:27-30 | when the executed work fits the span and all bursts are positive, utilisation lies in (0, 100] |
| FirstComeFirstServed.Fcfs | scheduler.py:43-62 | records are the tasks in stable arrival order; each starts at the later of the previous finish (0 at first) and its arrival, and runs its whole burst; one slice per record; with non-negative bursts no two records overlap; the work fits the span |
| FirstComeFirstServed.RunInOrder | scheduler.py:48-60 | the FCFS loop runs the given list in order, back to back, emitting one whole-burst slice per task |
| FirstComeFirstServed.BackToBackDisjoint | scheduler.py:49-51 | with non-negative bursts every record finishes no later than any later record starts |
| FirstComeFirstServed.BackToBackFitsSpan | scheduler.py:49-51 | a back-to-back run never does more work than the span from the earliest arrival to the last finish |
| NonPreemptive.ValidPickUnique | scheduler.py:76-81 | the dispatch rule fixes both the task and its start time |
| NonPreemptive.IdleUntil | scheduler.py:77-79 | when nothing pending has arrived, the clock jumps forward to the earliest pending arrival, where some task is ready and no pending task arrives earlier |
| NonPreemptive.Dispatch | scheduler.py:76-94 | one iteration picks a pending task by the rule, starts it at the later of clock and arrival, runs its whole burst, marks it completed and appends its slice; nothing else changes |
| NonPreemptive.DispatchPreserves | scheduler.py:75-94 | an iteration keeps the loop invariant: distinct dispatch order mirrored by the completion flags, every dispatch following the rule, consistent times and the work fitting the elapsed span |
| NonPreemptive.TraceUnique | scheduler.py:75-94 | two dispatch sequences that both follow the rule at every step are equal, task for task and slice for slice |
| NonPreemptive.TraceSequential | scheduler.py:84-86 | each dispatch starts no earlier than the previous one finished |
| NonPreemptive.RunUnique | scheduler.py:68-98 | the records, timeline and dispatch order of a run are fully determined by the sorted list and the criterion |
| NonPreemptive.Schedule | scheduler.py:70-98 | the loop yields a run: records in pre-sorted order, a permutation as dispatch order, every dispatch by the rule, one whole-burst slice per task, start at or after arrival, finish = start + burst, work fitting the span |
| NonPreemptive.Sjf | scheduler.py:68-98 | `sjf` is that run over the list stably sorted by (arrival, burst), choosing the shortest burst |
| NonPreemptive.Priority | scheduler.py:212-243 | `priority` is that run over the list stably sorted by arrival, choosing the lowest priority value |
| ShortestRemaining.Pick | scheduler.py:114-120 | a tick is idle exactly when no arrived task has work; otherwise it serves the first arrived task with the least remaining work |
| ShortestRemaining.Tick | scheduler.py:113-136 | an idle tick only advances the clock; a productive tick takes one unit from the picked task, fixes its start on first service, and when that empties the task finishes at the new clock, is counted, and its whole-burst slice is appended; nothing else changes |
| ShortestRemaining.StopsUnique | scheduler.py:113 | the loop guard first fails after one number of ticks only, so the final state is determined |
| ShortestRemaining.TickPreserves | scheduler.py:113-136 | a tick keeps the loop invariant: remaining work within [0, burst], starts fixed on first service, completion count equal to the tasks with no work left, one slice per completed task in completion order, and the work fitting the elapsed span |
| ShortestRemaining.TickProgresses | scheduler.py:113-126 | a productive tick removes exactly one unit of work, and idle ticks happen only before the last arrival, so the loop ends |
| ShortestRemaining.Srtf | scheduler.py:104-144 | with positive bursts, the records, timeline and completion order are those of the state reached by iterating the tick until every task is complete; records keep input order, each task starts no earlier than it arrives and finishes no earlier than start plus burst, one slice per task in strictly increasing finish order, and the work fits the span |
| RoundRobin.Newcomers | scheduler.py:163-166 | the admission scan appends exactly the admissible tasks (arrived by the clock, never admitted, with work left), in index order |
| RoundRobin.AdmitQueued | scheduler.py:163-166 | admission keeps the queue discipline: distinct admitted tasks with work, every admitted task with work queued except the one being run |
| RoundRobin.StepServesHead | scheduler.py:161-198 | an iteration with an empty queue after admission idles one unit; otherwise the queue head runs from the clock for min(quantum, remaining) units, its slice is recorded, its start is fixed on first service, it finishes at the slice end when no work is left, and the new queue is the rest of the old one, then the tasks that arrived during the slice, then the head if it has work left |
| RoundRobin.Iterate | scheduler.py:161-198 | after any number of iterations from the initial state the queue discipline holds |
| RoundRobin.StopsUnique | scheduler.py:161 | the loop guard first fails after one number of iterations only, so the final state is determined |
| RoundRobin.StepPreserves | scheduler.py:161-198 | an iteration keeps the invariant: queue discipline, slices of 1 to quantum units in time order, slices of each task adding up to the work done on it, and the work fitting the span |
| RoundRobin.StepProgresses | scheduler.py:161-187 | an iteration either removes at least one unit of work or idles before the last arrival, so the loop ends |
| RoundRobin.FinalNonNegative | scheduler.py:161-202 | with non-negative bursts, once the total remaining work is zero every task's slices add up to its burst, and the work fits the span |
| RoundRobin.Rr | scheduler.py:150-206 | the records, timeline and slice owners are those of the state reached by iterating the step until no work remains; records keep input order; every slice carries its task's id, lasts 1 to quantum units, starts no earlier than the task's arrival and first dispatch, and slices never overlap; tasks without positive burst are never run; with non-negative bursts every task's slices add up to its burst and each task finishes no earlier than start plus burst |
| Simulation.Parse | app_multi.py:20-26 | the table finds an algorithm exactly for its five registered names |
| Simulation.Simulate | app_multi.py:195-215 | an unknown or missing algorithm name fails as unsupported; a known name with no tasks fails as empty; otherwise the outcome names the requested algorithm, its timeline is the one that algorithm's scheduler produces, and its report is the metrics step applied to that scheduler's records, covering every submitted task exactly once; Round-Robin runs with the request's quantum (default 2); with positive bursts utilisation lies in (0, 100] and no waiting time is negative |
| Simulation.Respond | app_multi.py:207-213 | for a non-empty task list, the named scheduler's output followed by the metrics step answers the request |
| Simulation.Run | app_multi.py:207-212 | FCFS gives the back-to-back run in arrival order, SJF and Priority the rule-following dispatch run over their pre-sorted lists, SRTF and Round-Robin the final state of their loops, the latter with the given quantum; the records are a permutation of the submitted tasks; Round-Robin's slices last 1 to quantum units and the others emit one slice per task |
| Simulation.QuantumOnlyForRr | app_multi.py:209-212 | what any scheduler other than Round-Robin produces does not depend on the quantum |
| Sorting.StableOrderPermutation | scheduler.py:69 | the stable sort order is a permutation of the input indices |
| Scenarios.FcfsPair | scheduler.py:43-62 | for two tasks arriving together with bursts 5 and 3, FCFS finishes them at 5 and 8, in input order |
| Scenarios.SjfLateArrival | scheduler.py:68-98 | for bursts 8 (arrival 0) and 4 (arrival 1), SJF runs the first task to 8 and the second to 12 |
| Scenarios.RoundRobinPair | scheduler.py:161-198 | for two tasks arriving together with bursts 4 and quantum 2, the loop step alternates four 2-unit slices and the loop stops after the fourth, with finishes 6 and 8 |
| Scenarios.RoundRobinPairRun | scheduler.py:150-206 | on that example `rr` returns task 1 over [0, 6) and task 2 over [2, 8), with slices [0, 2), [2, 4), [4, 6), [6, 8) alternating between them |
| Scenarios.PairRan | scheduler.py:150-206 | that is the only output the Round-Robin loop can give on the example |
| Scenarios.SrtfPreemption | scheduler.py:104-144 | for bursts 8 (arrival 0) and 4 (arrival 1), `srtf` preempts task 1 at time 1, runs task 2 to 5, then resumes task 1 to 12 |
| Scenarios.SrtfRan | scheduler.py:104-144 | that is the only output the SRTF loop can give on the example |

## Left out

- Rounding: averages and utilisation are exact rationals. The source rounds
  them to two decimals with floating point.
- Mutation of the caller's dictionaries: the source writes `start`, `finish`,
  `ct`, `tat` and `wt` into the input records. FCFS and SJF write into the
  sorted copies, which share the dictionaries. The model returns new records.
- The extra `priority` key on Priority's timeline entries is not modelled.
- Malformed tasks: missing fields make the source raise. The endpoint reports
  that as status 500. Tasks here are typed records, so that error cannot arise.
- The other endpoints, the database, HTML serving, the random experiment
  generator with its rotating algorithm cursor, and the request-test script
  are not part of this model.
- HTTP status codes: the model returns `UnsupportedAlgorithm` for status 400
  and `EmptyTaskSet` for the status-500 failure of the metrics step.
- RoundRobin.Rr: requires a quantum of at least 1 once any work remains.
  Below that the source loops forever; the code has no invalid-quantum error.
- ShortestRemaining.Srtf: requires every burst to be at least 1. A task without
  work is never completed, and the source loops forever.
- RoundRobin.Rr: slice conservation and finish bounds are stated for
  non-negative bursts only. A negative burst lowers `sum(remaining)` and can
  end the source loop while other tasks still have work.
- Simulation.Simulate: requires the termination conditions of `rr` and `srtf`
  above, instead of returning an error the source does not have.
