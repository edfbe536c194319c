/** `sjf` and `priority`: the same non-preemptive dispatcher over a pre-sorted
    list, differing only in the selection key (shortest burst, or lowest
    priority value) and in the pre-sort key. */
module NonPreemptive {
  import opened Common
  import opened Tasks
  import opened Sorting
  import opened Selection
  import opened Metrics

  datatype Criterion = ShortestBurst | HighestPriority

  /** The selection key; lower wins. */
  function Key(c: Criterion, t: Task): int
  {
    match c
    case ShortestBurst => t.burst
    case HighestPriority => t.priority
  }

  function Keys(sorted: seq<Task>, c: Criterion): seq<int>
  {
    seq(|sorted|, i requires 0 <= i < |sorted| => Key(c, sorted[i]))
  }

  /** Tasks not yet completed. */
  function PendingMask(completed: seq<bool>): seq<bool>
  {
    seq(|completed|, i requires 0 <= i < |completed| => !completed[i])
  }

  /** Tasks not yet completed that have arrived by `time`. */
  function ReadyMask(sorted: seq<Task>, completed: seq<bool>, time: int): seq<bool>
    requires |completed| == |sorted|
  {
    seq(|sorted|, i requires 0 <= i < |sorted| => !completed[i] && sorted[i].arrival <= time)
  }

  /** Completion flags after the tasks in `prior` have run. */
  function Mask(n: nat, prior: seq<nat>): seq<bool>
  {
    seq(n, i => i in prior)
  }

  /** The dispatch rule. With the CPU free at `clock`, the next task starts at
      `start`: the clock itself, or, when no pending task has arrived yet, the
      earliest pending arrival. The task is the first-indexed one, among
      pending tasks arrived by `start`, with the least key. */
  predicate ValidPick(sorted: seq<Task>, c: Criterion, completed: seq<bool>, clock: int, pick: int, start: int)
    requires |completed| == |sorted|
  {
    && 0 <= pick < |sorted|
    && !completed[pick]
    && clock <= start
    && sorted[pick].arrival <= start
    && (clock < start ==> forall j :: 0 <= j < |sorted| && !completed[j] ==> start <= sorted[j].arrival)
    && IsFirstMin(Keys(sorted, c), ReadyMask(sorted, completed, start), pick)
  }

  /** The rule determines both the task and its start time. */
  lemma ValidPickUnique(sorted: seq<Task>, c: Criterion, completed: seq<bool>, clock: int,
                        p1: int, s1: int, p2: int, s2: int)
    requires |completed| == |sorted|
    requires ValidPick(sorted, c, completed, clock, p1, s1)
    requires ValidPick(sorted, c, completed, clock, p2, s2)
    ensures p1 == p2 && s1 == s2
  {
    assert s1 == s2;
    FirstMinUnique(Keys(sorted, c), ReadyMask(sorted, completed, s1), p1, p2);
  }

  lemma SomePending(completed: seq<bool>)
    requires exists j :: 0 <= j < |completed| && !completed[j]
    ensures !NoneEligible(PendingMask(completed))
  {
    var j :| 0 <= j < |completed| && !completed[j];
    assert PendingMask(completed)[j];
  }

  /** When nothing pending has arrived by `clock`, the source moves the clock to
      the earliest pending arrival (the first such task breaks ties). */
  function IdleUntil(sorted: seq<Task>, completed: seq<bool>, clock: int): (t: int)
    requires |completed| == |sorted|
    requires exists j :: 0 <= j < |sorted| && !completed[j]
    requires NoneEligible(ReadyMask(sorted, completed, clock))
    ensures clock < t
    ensures !NoneEligible(ReadyMask(sorted, completed, t))
    ensures forall j :: 0 <= j < |sorted| && !completed[j] ==> t <= sorted[j].arrival
  {
    SomePending(completed);
    var e := FirstMin(Arrivals(sorted), PendingMask(completed));
    assert PendingMask(completed)[e];
    assert !ReadyMask(sorted, completed, clock)[e];
    assert ReadyMask(sorted, completed, sorted[e].arrival)[e];
    assert forall j :: 0 <= j < |sorted| && !completed[j] ==> PendingMask(completed)[j] && Arrivals(sorted)[j] == sorted[j].arrival;
    sorted[e].arrival
  }

  /** The clock after the dispatches in `timeline`. */
  function ClockAfter(timeline: seq<Slice>): int
  {
    if |timeline| == 0 then 0 else timeline[|timeline| - 1].finish
  }

  /** Every dispatch in `timeline` (of task `picked[k]`) followed the rule and ran
      the task's whole burst from its start. */
  predicate Trace(sorted: seq<Task>, c: Criterion, picked: seq<nat>, timeline: seq<Slice>)
    requires |picked| == |timeline|
    decreases |picked|
  {
    |picked| == 0 ||
    var k := |picked| - 1;
    var p := picked[k];
    && Trace(sorted, c, picked[..k], timeline[..k])
    && p < |sorted|
    && ValidPick(sorted, c, Mask(|sorted|, picked[..k]), ClockAfter(timeline[..k]), p, timeline[k].start)
    && timeline[k] == Slice(sorted[p].id, timeline[k].start, timeline[k].start + sorted[p].burst, sorted[p].burst)
  }

  /** The loop state of the source: completion flags, clock, the start and finish
      times recorded so far, the dispatch order and the timeline. */
  datatype State = State(
    completed: seq<bool>,
    clock: int,
    start: seq<int>,
    finish: seq<int>,
    picked: seq<nat>,
    timeline: seq<Slice>)

  predicate Shaped(sorted: seq<Task>, st: State)
  {
    |st.completed| == |sorted| && |st.start| == |sorted| && |st.finish| == |sorted|
  }

  /** One iteration of the source loop: jump over an idle gap if nothing is
      ready, pick by the rule, run the task to completion. */
  function Dispatch(sorted: seq<Task>, c: Criterion, st: State): (st': State)
    requires Shaped(sorted, st)
    requires exists j :: 0 <= j < |sorted| && !st.completed[j]
    ensures Shaped(sorted, st')
    ensures |st'.picked| == |st.picked| + 1 && st'.picked[..|st.picked|] == st.picked
    ensures var p := st'.picked[|st.picked|];
      && p < |sorted|
      && ValidPick(sorted, c, st.completed, st.clock, p, st'.start[p])
      && st'.completed == st.completed[p := true]
      && st'.start == st.start[p := st'.start[p]]
      && st'.finish == st.finish[p := st'.start[p] + sorted[p].burst]
      && st'.clock == st'.finish[p]
      && st'.timeline == st.timeline + [WholeSlice(Scheduled(sorted[p], st'.start[p], st'.finish[p]))]
  {
    var keys := Keys(sorted, c);
    var first := FirstMin(keys, ReadyMask(sorted, st.completed, st.clock));
    var clock := if first != -1 then st.clock else IdleUntil(sorted, st.completed, st.clock);
    var p := FirstMin(keys, ReadyMask(sorted, st.completed, clock));
    assert p != -1 && ReadyMask(sorted, st.completed, clock)[p];
    var start := Max(clock, sorted[p].arrival);
    var finish := start + sorted[p].burst;
    State(st.completed[p := true], finish, st.start[p := start], st.finish[p := finish],
          st.picked + [p], st.timeline + [WholeSlice(Scheduled(sorted[p], start, finish))])
  }

  /** Per-task work done so far: the burst of every completed task, 0 otherwise. */
  function DoneWork(sorted: seq<Task>, completed: seq<bool>): seq<int>
    requires |completed| == |sorted|
  {
    seq(|sorted|, i requires 0 <= i < |sorted| => if completed[i] then sorted[i].burst else 0)
  }

  /** The dispatch order so far: distinct task indices, mirrored by the
      completion flags and their count. */
  predicate Bookkeeping(sorted: seq<Task>, st: State)
  {
    && Shaped(sorted, st)
    && |st.timeline| == |st.picked|
    && (forall k :: 0 <= k < |st.picked| ==> st.picked[k] < |sorted|)
    && (forall a, b :: 0 <= a < b < |st.picked| ==> st.picked[a] != st.picked[b])
    && st.completed == Mask(|sorted|, st.picked)
    && Count(st.completed, true) == |st.picked|
  }

  /** Every dispatch so far followed the rule, and the clock is where the last
      one left it. */
  predicate Traced(sorted: seq<Task>, c: Criterion, st: State)
    requires Bookkeeping(sorted, st)
  {
    Trace(sorted, c, st.picked, st.timeline) && st.clock == ClockAfter(st.timeline)
  }

  /** Completed tasks carry consistent times, and the timeline shows them. */
  predicate Timed(sorted: seq<Task>, st: State)
    requires Bookkeeping(sorted, st)
  {
    && (forall i :: 0 <= i < |sorted| && st.completed[i] ==>
          sorted[i].arrival <= st.start[i] && st.finish[i] == st.start[i] + sorted[i].burst)
    && (forall k :: 0 <= k < |st.picked| ==>
          st.timeline[k] == WholeSlice(Scheduled(sorted[st.picked[k]], st.start[st.picked[k]], st.finish[st.picked[k]])))
  }

  /** The work done fits between `earliest`, a lower bound on all arrivals, and the clock. */
  predicate WorkFits(sorted: seq<Task>, earliest: int, st: State)
    requires Shaped(sorted, st)
  {
    Sum(DoneWork(sorted, st.completed)) <= Max(0, st.clock - earliest)
  }

  /** What holds after every iteration of the source loop. */
  predicate Inv(sorted: seq<Task>, c: Criterion, earliest: int, st: State)
  {
    Bookkeeping(sorted, st) && Traced(sorted, c, st) && Timed(sorted, st) && WorkFits(sorted, earliest, st)
  }

  lemma InvInit(sorted: seq<Task>, c: Criterion, earliest: int)
    ensures Inv(sorted, c, earliest, State(seq(|sorted|, _ => false), 0, seq(|sorted|, _ => -1),
                                           seq(|sorted|, _ => 0), [], []))
  {
    var n := |sorted|;
    var st := State(seq(n, _ => false), 0, seq(n, _ => -1), seq(n, _ => 0), [], []);
    assert st.completed == Mask(n, []);
    CountNone(st.completed, true);
    SumZero(DoneWork(sorted, st.completed));
  }

  lemma DispatchBookkeeping(sorted: seq<Task>, c: Criterion, st: State)
    requires Bookkeeping(sorted, st)
    requires exists j :: 0 <= j < |sorted| && !st.completed[j]
    ensures Bookkeeping(sorted, Dispatch(sorted, c, st))
  {
    var n := |sorted|;
    var st' := Dispatch(sorted, c, st);
    var p := st'.picked[|st.picked|];
    assert st'.picked == st.picked + [p];
    assert p !in st.picked by {
      assert !Mask(n, st.picked)[p];
    }
    assert st'.completed == Mask(n, st'.picked);
    CountUpdate(st.completed, p, true, true);
  }

  lemma DispatchTraced(sorted: seq<Task>, c: Criterion, st: State)
    requires Bookkeeping(sorted, st) && Traced(sorted, c, st)
    requires exists j :: 0 <= j < |sorted| && !st.completed[j]
    requires Bookkeeping(sorted, Dispatch(sorted, c, st))
    ensures Traced(sorted, c, Dispatch(sorted, c, st))
  {
    var st' := Dispatch(sorted, c, st);
    var k := |st.picked|;
    assert st'.picked[..k] == st.picked && st'.timeline[..k] == st.timeline;
  }

  lemma DispatchTimed(sorted: seq<Task>, c: Criterion, st: State)
    requires Bookkeeping(sorted, st) && Timed(sorted, st)
    requires exists j :: 0 <= j < |sorted| && !st.completed[j]
    requires Bookkeeping(sorted, Dispatch(sorted, c, st))
    ensures Timed(sorted, Dispatch(sorted, c, st))
  {
    var st' := Dispatch(sorted, c, st);
    var k := |st.picked|;
    var p := st'.picked[k];
    forall a | 0 <= a < k
      ensures st'.timeline[a] == WholeSlice(Scheduled(sorted[st'.picked[a]], st'.start[st'.picked[a]], st'.finish[st'.picked[a]]))
    {
      assert st'.picked[a] == st.picked[a] != p;
    }
  }

  lemma DispatchWorkFits(sorted: seq<Task>, c: Criterion, earliest: int, st: State)
    requires Shaped(sorted, st) && WorkFits(sorted, earliest, st)
    requires forall i :: 0 <= i < |sorted| ==> earliest <= sorted[i].arrival
    requires exists j :: 0 <= j < |sorted| && !st.completed[j]
    ensures WorkFits(sorted, earliest, Dispatch(sorted, c, st))
  {
    var st' := Dispatch(sorted, c, st);
    var p := st'.picked[|st.picked|];
    assert DoneWork(sorted, st'.completed) == DoneWork(sorted, st.completed)[p := sorted[p].burst];
    SumUpdate(DoneWork(sorted, st.completed), p, sorted[p].burst);
  }

  /** A dispatch keeps the loop invariant. */
  lemma DispatchPreserves(sorted: seq<Task>, c: Criterion, earliest: int, st: State)
    requires Inv(sorted, c, earliest, st)
    requires forall i :: 0 <= i < |sorted| ==> earliest <= sorted[i].arrival
    requires exists j :: 0 <= j < |sorted| && !st.completed[j]
    ensures Inv(sorted, c, earliest, Dispatch(sorted, c, st))
  {
    DispatchBookkeeping(sorted, c, st);
    DispatchTraced(sorted, c, st);
    DispatchTimed(sorted, c, st);
    DispatchWorkFits(sorted, c, earliest, st);
  }

  /** The timeline entry of dispatch `k` of a trace. */
  lemma {:induction false} TraceAt(sorted: seq<Task>, c: Criterion, picked: seq<nat>, timeline: seq<Slice>, k: nat)
    requires |picked| == |timeline| && Trace(sorted, c, picked, timeline)
    requires k < |picked|
    ensures picked[k] < |sorted|
    ensures ValidPick(sorted, c, Mask(|sorted|, picked[..k]), ClockAfter(timeline[..k]), picked[k], timeline[k].start)
    ensures timeline[k] == Slice(sorted[picked[k]].id, timeline[k].start, timeline[k].start + sorted[picked[k]].burst, sorted[picked[k]].burst)
    decreases |picked|
  {
    var last := |picked| - 1;
    if k < last {
      TraceAt(sorted, c, picked[..last], timeline[..last], k);
      assert picked[..last][..k] == picked[..k];
      assert timeline[..last][..k] == timeline[..k];
    }
  }

  /** The dispatch rule admits exactly one trace of each length: the schedule the
      rule describes is unique. */
  lemma {:induction false} TraceUnique(sorted: seq<Task>, c: Criterion,
                                       p1: seq<nat>, t1: seq<Slice>, p2: seq<nat>, t2: seq<Slice>)
    requires |p1| == |t1| && |p2| == |t2| && |p1| == |p2|
    requires Trace(sorted, c, p1, t1) && Trace(sorted, c, p2, t2)
    ensures p1 == p2 && t1 == t2
    decreases |p1|
  {
    if |p1| > 0 {
      var k := |p1| - 1;
      TraceUnique(sorted, c, p1[..k], t1[..k], p2[..k], t2[..k]);
      ValidPickUnique(sorted, c, Mask(|sorted|, p1[..k]), ClockAfter(t1[..k]), p1[k], t1[k].start, p2[k], t2[k].start);
      assert p1 == p1[..k] + [p1[k]] && p2 == p2[..k] + [p2[k]];
      assert t1 == t1[..k] + [t1[k]] && t2 == t2[..k] + [t2[k]];
    }
  }

  /** Consecutive dispatches never overlap: each starts no earlier than the
      previous one finished. */
  lemma TraceSequential(sorted: seq<Task>, c: Criterion, picked: seq<nat>, timeline: seq<Slice>)
    requires |picked| == |timeline| && Trace(sorted, c, picked, timeline)
    ensures forall k {:trigger timeline[k].start} :: 0 < k < |timeline| ==> timeline[k - 1].finish <= timeline[k].start
  {
    forall k | 0 < k < |timeline| ensures timeline[k - 1].finish <= timeline[k].start {
      TraceAt(sorted, c, picked, timeline, k);
      assert timeline[..k][k - 1] == timeline[k - 1];
    }
  }

  /** The outcome of the source loop: `records` (in the pre-sorted order) hold
      each task's start and finish, `timeline` one whole slice per dispatch, and
      `picked` the dispatch order, which follows the rule at every step. */
  predicate IsRun(sorted: seq<Task>, c: Criterion, records: seq<Scheduled>, timeline: seq<Slice>, picked: seq<nat>)
  {
    && |records| == |sorted|
    && (forall i :: 0 <= i < |sorted| ==> records[i].task == sorted[i])
    && IsPermutation(picked, |sorted|)
    && |timeline| == |picked|
    && Trace(sorted, c, picked, timeline)
    && (forall k :: 0 <= k < |picked| ==> timeline[k] == WholeSlice(records[picked[k]]))
  }

  /** The run is fully determined by the rule: records, timeline and order. */
  lemma RunUnique(sorted: seq<Task>, c: Criterion,
                  r1: seq<Scheduled>, t1: seq<Slice>, p1: seq<nat>,
                  r2: seq<Scheduled>, t2: seq<Slice>, p2: seq<nat>)
    requires IsRun(sorted, c, r1, t1, p1) && IsRun(sorted, c, r2, t2, p2)
    ensures r1 == r2 && t1 == t2 && p1 == p2
  {
    TraceUnique(sorted, c, p1, t1, p2, t2);
    forall i | 0 <= i < |sorted| ensures r1[i] == r2[i] {
      assert i in p1;
      var k :| 0 <= k < |p1| && p1[k] == i;
      assert WholeSlice(r1[i]) == WholeSlice(r2[i]);
    }
  }

  /** Until every task has been dispatched, some task is still pending. */
  lemma PendingWhileShort(sorted: seq<Task>, st: State)
    requires Bookkeeping(sorted, st) && |st.picked| < |sorted|
    ensures exists j :: 0 <= j < |sorted| && !st.completed[j]
  {
    CountFull(st.completed, true);
  }

  /** After `n` dispatches every task is done. */
  lemma AllCompleted(sorted: seq<Task>, st: State)
    requires Bookkeeping(sorted, st) && |st.picked| == |sorted|
    ensures forall i :: 0 <= i < |sorted| ==> st.completed[i] && i in st.picked
  {
    CountFull(st.completed, true);
    forall i | 0 <= i < |sorted| ensures i in st.picked {
      assert Mask(|sorted|, st.picked)[i];
    }
  }

  /** After `n` dispatches the records form a run. */
  lemma Finished(sorted: seq<Task>, c: Criterion, st: State)
    requires Bookkeeping(sorted, st) && Traced(sorted, c, st) && Timed(sorted, st)
    requires forall i :: 0 <= i < |sorted| ==> i in st.picked
    requires |st.picked| == |sorted|
    ensures IsRun(sorted, c, Stamped(sorted, st.start, st.finish), st.timeline, st.picked)
  {
    var records := Stamped(sorted, st.start, st.finish);
    assert IsPermutation(st.picked, |sorted|);
    forall k | 0 <= k < |st.picked| ensures st.timeline[k] == WholeSlice(records[st.picked[k]]) {
      var i := st.picked[k];
      assert records[i] == Scheduled(sorted[i], st.start[i], st.finish[i]);
    }
  }

  /** After `n` dispatches the clock stands at the last dispatch's finish. */
  lemma ClockReached(sorted: seq<Task>, c: Criterion, st: State)
    requires Bookkeeping(sorted, st) && Traced(sorted, c, st) && Timed(sorted, st)
    requires |st.picked| == |sorted| > 0
    ensures st.clock <= LatestFinish(Stamped(sorted, st.start, st.finish))
  {
    var n := |sorted|;
    var records := Stamped(sorted, st.start, st.finish);
    var last := st.picked[n - 1];
    assert st.timeline[n - 1].finish == st.finish[last];
    assert Finishes(records)[last] == st.clock;
  }

  /** Once every task is completed, the work done is every burst. */
  lemma DoneAll(sorted: seq<Task>, completed: seq<bool>)
    requires |completed| == |sorted|
    requires forall i :: 0 <= i < |sorted| ==> completed[i]
    ensures DoneWork(sorted, completed) == Bursts(sorted)
  {
  }

  /** After `n` dispatches the work fits the span. */
  lemma FinishedFits(sorted: seq<Task>, earliest: int, st: State)
    requires Shaped(sorted, st) && WorkFits(sorted, earliest, st) && |sorted| > 0
    requires DoneWork(sorted, st.completed) == Bursts(sorted)
    requires earliest == MinOf(Arrivals(sorted))
    requires st.clock <= LatestFinish(Stamped(sorted, st.start, st.finish))
    ensures WorkFitsSpan(Stamped(sorted, st.start, st.finish))
  {
    var records := Stamped(sorted, st.start, st.finish);
    assert TasksOf(records) == sorted;
  }

  /** The `n` iterations of the source loop. */
  method DispatchAll(sorted: seq<Task>, c: Criterion, earliest: int) returns (st: State)
    requires forall i :: 0 <= i < |sorted| ==> earliest <= sorted[i].arrival
    ensures Inv(sorted, c, earliest, st) && |st.picked| == |sorted|
  {
    var n := |sorted|;
    st := State(seq(n, _ => false), 0, seq(n, _ => -1), seq(n, _ => 0), [], []);
    InvInit(sorted, c, earliest);
    var round := 0;
    while round < n
      invariant round <= n && |st.picked| == round
      invariant Inv(sorted, c, earliest, st)
    {
      PendingWhileShort(sorted, st);
      DispatchPreserves(sorted, c, earliest, st);
      st := Dispatch(sorted, c, st);
      round := round + 1;
    }
  }

  /** The dispatch loop of `sjf` and `priority`, over the already sorted list. */
  method Schedule(sorted: seq<Task>, c: Criterion) returns (records: seq<Scheduled>, timeline: seq<Slice>, picked: seq<nat>)
    ensures IsRun(sorted, c, records, timeline, picked)
    ensures forall i :: 0 <= i < |records| ==>
      records[i].task.arrival <= records[i].start && records[i].finish == records[i].start + records[i].task.burst
    ensures |sorted| > 0 ==> WorkFitsSpan(records)
  {
    var n := |sorted|;
    var earliest := if n > 0 then MinOf(Arrivals(sorted)) else 0;
    assert forall i :: 0 <= i < n ==> Arrivals(sorted)[i] == sorted[i].arrival;
    var st := DispatchAll(sorted, c, earliest);
    Outcome(sorted, c, earliest, st);
    records := Stamped(sorted, st.start, st.finish);
    timeline := st.timeline;
    picked := st.picked;
  }

  /** What the loop leaves behind after `n` dispatches. */
  lemma Outcome(sorted: seq<Task>, c: Criterion, earliest: int, st: State)
    requires Inv(sorted, c, earliest, st) && |st.picked| == |sorted|
    requires |sorted| > 0 ==> earliest == MinOf(Arrivals(sorted))
    ensures IsRun(sorted, c, Stamped(sorted, st.start, st.finish), st.timeline, st.picked)
    ensures forall i :: 0 <= i < |sorted| ==>
      sorted[i].arrival <= st.start[i] && st.finish[i] == st.start[i] + sorted[i].burst
    ensures |sorted| > 0 ==> WorkFitsSpan(Stamped(sorted, st.start, st.finish))
  {
    AllCompleted(sorted, st);
    Finished(sorted, c, st);
    if |sorted| > 0 {
      ClockReached(sorted, c, st);
      DoneAll(sorted, st.completed);
      FinishedFits(sorted, earliest, st);
    }
  }

  /** `sjf`: stable sort by (arrival, burst), then dispatch by shortest burst. */
  method Sjf(tasks: seq<Task>) returns (records: seq<Scheduled>, timeline: seq<Slice>, picked: seq<nat>)
    ensures IsRun(SortTasks(ByArrivalThenBurst, tasks), ShortestBurst, records, timeline, picked)
    ensures forall i :: 0 <= i < |records| ==>
      records[i].task.arrival <= records[i].start && records[i].finish == records[i].start + records[i].task.burst
    ensures |tasks| > 0 ==> WorkFitsSpan(records)
  {
    records, timeline, picked := Schedule(SortTasks(ByArrivalThenBurst, tasks), ShortestBurst);
  }

  /** `priority`: stable sort by arrival, then dispatch by lowest priority value. */
  method Priority(tasks: seq<Task>) returns (records: seq<Scheduled>, timeline: seq<Slice>, picked: seq<nat>)
    ensures IsRun(SortTasks(ByArrival, tasks), HighestPriority, records, timeline, picked)
    ensures forall i :: 0 <= i < |records| ==>
      records[i].task.arrival <= records[i].start && records[i].finish == records[i].start + records[i].task.burst
    ensures |tasks| > 0 ==> WorkFitsSpan(records)
  {
    records, timeline, picked := Schedule(SortTasks(ByArrival, tasks), HighestPriority);
  }
}
