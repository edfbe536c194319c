/** `srtf`: preemptive shortest-remaining-time-first in unit ticks, over the
    tasks in input order. One timeline slice is emitted per task, when it
    completes, spanning its first dispatch to its finish. */
module ShortestRemaining {
  import opened Common
  import opened Tasks
  import opened Selection
  import opened Metrics

  /** The loop state of the source: remaining work, first-dispatch and finish
      times per task, the clock, the completion counter, the timeline and the
      order in which tasks completed. */
  datatype State = State(
    remaining: seq<int>,
    start: seq<int>,
    finish: seq<int>,
    clock: int,
    completed: nat,
    timeline: seq<Slice>,
    order: seq<nat>)

  predicate Shaped(tasks: seq<Task>, st: State)
  {
    |st.remaining| == |tasks| && |st.start| == |tasks| && |st.finish| == |tasks|
  }

  function Initial(tasks: seq<Task>): (st: State)
    ensures Shaped(tasks, st)
  {
    State(Bursts(tasks), seq(|tasks|, _ => -1), seq(|tasks|, _ => 0), 0, 0, [], [])
  }

  /** Tasks that have arrived and still have work. */
  function Eligible(tasks: seq<Task>, st: State): seq<bool>
    requires Shaped(tasks, st)
  {
    seq(|tasks|, i requires 0 <= i < |tasks| => tasks[i].arrival <= st.clock && st.remaining[i] > 0)
  }

  /** Tasks whose work is done. */
  function Done(st: State): seq<bool>
  {
    seq(|st.remaining|, i requires 0 <= i < |st.remaining| => st.remaining[i] == 0)
  }

  /** The task that runs in the current tick, or -1 for an idle tick. */
  function Pick(tasks: seq<Task>, st: State): (i: int)
    requires Shaped(tasks, st)
    ensures i == -1 <==> NoneEligible(Eligible(tasks, st))
    ensures i != -1 ==> IsFirstMin(st.remaining, Eligible(tasks, st), i)
  {
    FirstMin(st.remaining, Eligible(tasks, st))
  }

  /** One iteration of the source loop. An idle tick only advances the clock. A
      productive tick takes one unit from the picked task, fixing its start the
      first time it runs; when that empties it, the task finishes at the new
      clock and its slice is emitted. */
  function Tick(tasks: seq<Task>, st: State): (st': State)
    requires Shaped(tasks, st)
    ensures Shaped(tasks, st')
    ensures st'.clock == st.clock + 1
    ensures Pick(tasks, st) == -1 ==> st' == st.(clock := st.clock + 1)
    ensures var i := Pick(tasks, st);
      i != -1 ==>
        && st'.remaining == st.remaining[i := st.remaining[i] - 1]
        && st'.start == st.start[i := if st.start[i] == -1 then st.clock else st.start[i]]
        && (st'.remaining[i] == 0 ==>
              && st'.finish == st.finish[i := st'.clock]
              && st'.completed == st.completed + 1
              && st'.order == st.order + [i]
              && st'.timeline == st.timeline + [Slice(tasks[i].id, st'.start[i], st'.clock, tasks[i].burst)])
        && (st'.remaining[i] != 0 ==>
              st'.finish == st.finish && st'.completed == st.completed
              && st'.order == st.order && st'.timeline == st.timeline)
  {
    var i := Pick(tasks, st);
    var now := st.clock + 1;
    if i == -1 then
      st.(clock := now)
    else
      var s := if st.start[i] == -1 then st.clock else st.start[i];
      var r := st.remaining[i] - 1;
      if r == 0 then
        State(st.remaining[i := 0], st.start[i := s], st.finish[i := now], now, st.completed + 1,
              st.timeline + [Slice(tasks[i].id, s, now, tasks[i].burst)], st.order + [i])
      else
        State(st.remaining[i := r], st.start[i := s], st.finish, now, st.completed, st.timeline, st.order)
  }

  /** Per-task progress: remaining work lies in [0, burst]; a task has a start
      exactly when it has run, never before its arrival, and the work done on it
      since fits between its start and the clock. */
  predicate Progress(tasks: seq<Task>, st: State)
    requires Shaped(tasks, st)
  {
    forall i :: 0 <= i < |tasks| ==>
      && 0 <= st.clock
      && 0 <= st.remaining[i] <= tasks[i].burst
      && (st.start[i] == -1 <==> st.remaining[i] == tasks[i].burst)
      && (st.start[i] != -1 ==>
            tasks[i].arrival <= st.start[i] && st.start[i] + tasks[i].burst - st.remaining[i] <= st.clock)
  }

  /** The completion counter equals the number of tasks with no work left;
      `order` lists those tasks once each, in completion order. */
  predicate Counted(tasks: seq<Task>, st: State)
    requires Shaped(tasks, st)
  {
    && st.completed == |st.order|
    && st.completed == Count(Done(st), true)
    && (forall k :: 0 <= k < |st.order| ==> st.order[k] < |tasks|)
    && (forall a, b :: 0 <= a < b < |st.order| ==> st.order[a] != st.order[b])
    && (forall i :: 0 <= i < |tasks| ==> (st.remaining[i] == 0 <==> i in st.order))
  }

  /** One slice per completed task, in completion order, showing the task's
      first dispatch, finish and total burst; each completed task's finish is
      at least its start plus its burst. */
  predicate Emitted(tasks: seq<Task>, st: State)
    requires Shaped(tasks, st)
  {
    && |st.timeline| == |st.order|
    && (forall k :: 0 <= k < |st.order| ==> st.order[k] < |tasks|)
    && (forall k :: 0 <= k < |st.order| ==>
          st.timeline[k] == Slice(tasks[st.order[k]].id, st.start[st.order[k]], st.finish[st.order[k]], tasks[st.order[k]].burst))
    && (forall i :: 0 <= i < |tasks| && st.remaining[i] == 0 ==> st.start[i] + tasks[i].burst <= st.finish[i])
  }

  /** Slices finish at strictly growing times no later than the clock; once all
      tasks are done, the clock stands at the last finish. */
  predicate Chronological(tasks: seq<Task>, st: State)
  {
    && (forall a, b :: 0 <= a < b < |st.timeline| ==> st.timeline[a].finish < st.timeline[b].finish)
    && (forall k :: 0 <= k < |st.timeline| ==> st.timeline[k].finish <= st.clock)
    && (|st.timeline| == |tasks| > 0 ==> st.clock == st.timeline[|tasks| - 1].finish)
  }

  /** Work done per task. */
  function Worked(tasks: seq<Task>, st: State): seq<int>
    requires Shaped(tasks, st)
  {
    seq(|tasks|, i requires 0 <= i < |tasks| => tasks[i].burst - st.remaining[i])
  }

  /** The work done fits between `earliest`, a lower bound on all arrivals, and the clock. */
  predicate WorkFits(tasks: seq<Task>, earliest: int, st: State)
    requires Shaped(tasks, st)
  {
    Sum(Worked(tasks, st)) <= Max(0, st.clock - earliest)
  }

  predicate Inv(tasks: seq<Task>, earliest: int, st: State)
  {
    && Shaped(tasks, st)
    && Progress(tasks, st)
    && Counted(tasks, st)
    && Emitted(tasks, st)
    && Chronological(tasks, st)
    && WorkFits(tasks, earliest, st)
  }

  lemma InitialInv(tasks: seq<Task>, earliest: int)
    requires PositiveBursts(tasks)
    ensures Inv(tasks, earliest, Initial(tasks))
  {
    var st := Initial(tasks);
    CountNone(Done(st), true);
    assert Worked(tasks, st) == seq(|tasks|, _ => 0);
    SumZero(Worked(tasks, st));
  }

  lemma TickProgress(tasks: seq<Task>, st: State)
    requires Shaped(tasks, st) && Progress(tasks, st)
    ensures Progress(tasks, Tick(tasks, st))
  {
    var st' := Tick(tasks, st);
    var i := Pick(tasks, st);
    if i != -1 {
      assert Eligible(tasks, st)[i];
      forall j | 0 <= j < |tasks|
        ensures st'.start[j] != -1 ==>
          tasks[j].arrival <= st'.start[j] && st'.start[j] + tasks[j].burst - st'.remaining[j] <= st'.clock
      {
      }
    }
  }

  lemma TickCounted(tasks: seq<Task>, st: State)
    requires Shaped(tasks, st) && Progress(tasks, st) && Counted(tasks, st)
    ensures Counted(tasks, Tick(tasks, st))
  {
    var st' := Tick(tasks, st);
    var i := Pick(tasks, st);
    if i != -1 {
      assert Done(st') == Done(st)[i := st'.remaining[i] == 0];
      CountUpdate(Done(st), i, st'.remaining[i] == 0, true);
      assert i !in st.order;
      forall j | 0 <= j < |tasks| ensures st'.remaining[j] == 0 <==> j in st'.order {
        if j != i {
          assert j in st'.order <==> j in st.order;
        }
      }
    }
  }

  lemma TickEmitted(tasks: seq<Task>, st: State)
    requires Shaped(tasks, st) && Progress(tasks, st) && Counted(tasks, st) && Emitted(tasks, st)
    ensures Emitted(tasks, Tick(tasks, st))
  {
    var st' := Tick(tasks, st);
    var i := Pick(tasks, st);
    if i != -1 {
      assert i !in st.order by {
        assert Eligible(tasks, st)[i];
      }
      forall k | 0 <= k < |st.order|
        ensures st'.timeline[k] == Slice(tasks[st'.order[k]].id, st'.start[st'.order[k]], st'.finish[st'.order[k]], tasks[st'.order[k]].burst)
      {
        assert st'.order[k] == st.order[k] != i;
      }
    }
  }

  lemma TickChronological(tasks: seq<Task>, st: State)
    requires Shaped(tasks, st) && Chronological(tasks, st)
    requires |st.timeline| < |tasks|
    ensures Chronological(tasks, Tick(tasks, st))
  {
  }

  lemma TickWork(tasks: seq<Task>, earliest: int, st: State)
    requires Shaped(tasks, st) && WorkFits(tasks, earliest, st)
    requires forall i :: 0 <= i < |tasks| ==> earliest <= tasks[i].arrival
    ensures WorkFits(tasks, earliest, Tick(tasks, st))
  {
    var st' := Tick(tasks, st);
    var i := Pick(tasks, st);
    if i != -1 {
      assert Worked(tasks, st') == Worked(tasks, st)[i := Worked(tasks, st)[i] + 1];
      SumUpdate(Worked(tasks, st), i, Worked(tasks, st)[i] + 1);
    }
  }

  /** A tick keeps the loop invariant. */
  lemma TickPreserves(tasks: seq<Task>, earliest: int, st: State)
    requires Inv(tasks, earliest, st) && st.completed < |tasks|
    requires forall i :: 0 <= i < |tasks| ==> earliest <= tasks[i].arrival
    ensures Inv(tasks, earliest, Tick(tasks, st))
  {
    TickProgress(tasks, st);
    TickCounted(tasks, st);
    TickEmitted(tasks, st);
    TickChronological(tasks, st);
    TickWork(tasks, earliest, st);
  }

  /** Every tick makes progress: it removes one unit of remaining work, or it is
      idle and some unfinished task has yet to arrive, so the clock moves
      towards the latest arrival. */
  lemma TickProgresses(tasks: seq<Task>, earliest: int, latest: int, st: State)
    requires Inv(tasks, earliest, st) && st.completed < |tasks|
    requires forall i :: 0 <= i < |tasks| ==> tasks[i].arrival <= latest
    ensures Sum(st.remaining) >= 0
    ensures Pick(tasks, st) != -1 ==> Sum(Tick(tasks, st).remaining) == Sum(st.remaining) - 1
    ensures Pick(tasks, st) == -1 ==> st.clock < latest
  {
    SumZero(st.remaining);
    var i := Pick(tasks, st);
    if i != -1 {
      SumUpdate(st.remaining, i, st.remaining[i] - 1);
    } else {
      CountFull(Done(st), true);
      var j :| 0 <= j < |tasks| && !Done(st)[j];
      assert !Eligible(tasks, st)[j];
    }
  }

  /** The state after `k` ticks from the initial state. */
  function Ticks(tasks: seq<Task>, k: nat): (st: State)
    ensures Shaped(tasks, st)
  {
    if k == 0 then Initial(tasks) else Tick(tasks, Ticks(tasks, k - 1))
  }

  /** Some task was incomplete before each of the first `k` ticks. */
  ghost predicate Busy(tasks: seq<Task>, k: nat)
  {
    forall j :: 0 <= j < k ==> Ticks(tasks, j).completed < |tasks|
  }

  /** The source loop runs exactly `k` ticks: it stops at the first state in
      which every task has completed. */
  ghost predicate Stops(tasks: seq<Task>, k: nat)
  {
    Ticks(tasks, k).completed >= |tasks| && Busy(tasks, k)
  }

  /** The loop stops after one number of ticks only. */
  lemma StopsUnique(tasks: seq<Task>, k: nat, k': nat)
    requires Stops(tasks, k) && Stops(tasks, k')
    ensures k == k'
  {
  }

  /** The output of `srtf`: the records, timeline and completion order of the
      state in which the source loop stops. */
  ghost predicate Ran(tasks: seq<Task>, records: seq<Scheduled>, timeline: seq<Slice>, order: seq<nat>)
  {
    exists k: nat :: Stops(tasks, k) &&
      var st := Ticks(tasks, k);
      records == Stamped(tasks, st.start, st.finish) && timeline == st.timeline && order == st.order
  }

  /** One more tick, taken because some task was incomplete. */
  lemma TicksNext(tasks: seq<Task>, k: nat)
    requires Busy(tasks, k) && Ticks(tasks, k).completed < |tasks|
    ensures Busy(tasks, k + 1)
    ensures Ticks(tasks, k + 1) == Tick(tasks, Ticks(tasks, k))
  {
  }

  /** The state the loop stops in yields the output of `srtf`. */
  lemma RanFrom(tasks: seq<Task>, k: nat, st: State)
    requires Busy(tasks, k) && st.completed >= |tasks| && st == Ticks(tasks, k)
    ensures Ran(tasks, Stamped(tasks, st.start, st.finish), st.timeline, st.order)
  {
    assert Stops(tasks, k);
  }

  /** The loop of `srtf`, until every task has completed. */
  method RunTicks(tasks: seq<Task>, earliest: int, latest: int) returns (st: State, ghost rounds: nat)
    requires PositiveBursts(tasks)
    requires forall i :: 0 <= i < |tasks| ==> earliest <= tasks[i].arrival <= latest
    ensures Inv(tasks, earliest, st) && st.completed == |tasks|
    ensures Busy(tasks, rounds) && st == Ticks(tasks, rounds)
  {
    st := Initial(tasks);
    rounds := 0;
    InitialInv(tasks, earliest);
    while st.completed < |tasks|
      invariant Inv(tasks, earliest, st)
      invariant st.completed <= |tasks|
      invariant st == Ticks(tasks, rounds) && Busy(tasks, rounds)
      decreases Sum(st.remaining), latest - st.clock
    {
      TickProgresses(tasks, earliest, latest, st);
      TickPreserves(tasks, earliest, st);
      TicksNext(tasks, rounds);
      st := Tick(tasks, st);
      rounds := rounds + 1;
    }
  }

  /** What `srtf` returns: the records in input order; each task starts no
      earlier than it arrives and finishes no earlier than its start plus its
      burst; one whole slice per task, in completion order, finishing at
      strictly increasing times. */
  predicate IsRun(tasks: seq<Task>, records: seq<Scheduled>, timeline: seq<Slice>, order: seq<nat>)
  {
    && |records| == |tasks|
    && (forall i :: 0 <= i < |tasks| ==> records[i].task == tasks[i])
    && (forall i :: 0 <= i < |tasks| ==>
          records[i].task.arrival <= records[i].start && records[i].start + records[i].task.burst <= records[i].finish)
    && IsPermutation(order, |tasks|) && |timeline| == |tasks|
    && (forall k :: 0 <= k < |timeline| ==> timeline[k] == WholeSlice(records[order[k]]))
    && (forall a, b :: 0 <= a < b < |timeline| ==> timeline[a].finish < timeline[b].finish)
  }

  /** Once every task has completed, no work is left. */
  lemma AllDone(tasks: seq<Task>, st: State)
    requires Shaped(tasks, st) && Counted(tasks, st) && st.completed == |tasks|
    ensures forall i :: 0 <= i < |tasks| ==> st.remaining[i] == 0 && i in st.order
  {
    CountFull(Done(st), true);
    forall i | 0 <= i < |tasks| ensures st.remaining[i] == 0 {
      assert Done(st)[i];
    }
  }

  /** Once every task has completed, the state holds a run. */
  lemma Finished(tasks: seq<Task>, st: State)
    requires Shaped(tasks, st) && Progress(tasks, st) && Counted(tasks, st)
    requires Emitted(tasks, st) && Chronological(tasks, st)
    requires forall i :: 0 <= i < |tasks| ==> st.remaining[i] == 0 && i in st.order
    requires PositiveBursts(tasks) && st.completed == |tasks|
    ensures IsRun(tasks, Stamped(tasks, st.start, st.finish), st.timeline, st.order)
  {
    var records := Stamped(tasks, st.start, st.finish);
    forall i | 0 <= i < |tasks|
      ensures records[i].task.arrival <= records[i].start && records[i].start + records[i].task.burst <= records[i].finish
    {
      assert st.start[i] != -1;
    }
    assert IsPermutation(st.order, |tasks|);
    forall k | 0 <= k < |st.timeline| ensures st.timeline[k] == WholeSlice(records[st.order[k]]) {
      var i := st.order[k];
      assert records[i] == Scheduled(tasks[i], st.start[i], st.finish[i]);
    }
  }

  /** Once every task has completed, the work fits the span. */
  lemma FinishedFits(tasks: seq<Task>, st: State)
    requires |tasks| > 0
    requires Shaped(tasks, st) && Emitted(tasks, st) && Chronological(tasks, st)
    requires WorkFits(tasks, MinOf(Arrivals(tasks)), st)
    requires forall i :: 0 <= i < |tasks| ==> st.remaining[i] == 0
    requires |st.order| == |tasks|
    ensures WorkFitsSpan(Stamped(tasks, st.start, st.finish))
  {
    var n := |tasks|;
    var records := Stamped(tasks, st.start, st.finish);
    assert TasksOf(records) == tasks;
    assert Worked(tasks, st) == Bursts(tasks);
    assert st.clock <= LatestFinish(records) by {
      var last := st.order[n - 1];
      assert Finishes(records)[last] == st.clock;
    }
  }

  /** `srtf`. Requires every burst to be at least 1: a task with no work never
      becomes eligible yet counts as incomplete, so the source loop would not end. */
  method Srtf(tasks: seq<Task>) returns (records: seq<Scheduled>, timeline: seq<Slice>, order: seq<nat>)
    requires PositiveBursts(tasks)
    ensures Ran(tasks, records, timeline, order)
    ensures IsRun(tasks, records, timeline, order)
    ensures |tasks| > 0 ==> WorkFitsSpan(records)
  {
    var n := |tasks|;
    var earliest := if n > 0 then MinOf(Arrivals(tasks)) else 0;
    var latest := if n > 0 then MaxOf(Arrivals(tasks)) else 0;
    assert forall i :: 0 <= i < n ==> Arrivals(tasks)[i] == tasks[i].arrival;
    var st, rounds := RunTicks(tasks, earliest, latest);
    RanFrom(tasks, rounds, st);
    AllDone(tasks, st);
    Finished(tasks, st);
    records := Stamped(tasks, st.start, st.finish);
    timeline := st.timeline;
    order := st.order;
    if n > 0 {
      FinishedFits(tasks, st);
    }
  }
}
