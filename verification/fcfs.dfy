/** `fcfs`: stable sort by arrival, then run every task to completion back to
    back, never starting before the task arrives. */
module FirstComeFirstServed {
  import opened Common
  import opened Tasks
  import opened Sorting
  import opened Metrics

  /** The CPU clock just before the `k`-th record runs: 0, or the previous finish. */
  function Clock(rs: seq<Scheduled>, k: nat): int
    requires k <= |rs|
  {
    if k == 0 then 0 else rs[k - 1].finish
  }

  /** Each record starts as soon as both the CPU (free from the previous record's
      finish) and the task are ready, and runs for its whole burst. */
  predicate BackToBack(rs: seq<Scheduled>)
  {
    forall k {:trigger rs[k].start} :: 0 <= k < |rs| ==>
      && rs[k].start == Max(Clock(rs, k), rs[k].task.arrival)
      && rs[k].finish == rs[k].start + rs[k].task.burst
  }

  /** What `fcfs` returns: the tasks in stable arrival order, run back to back,
      with one whole slice per record. */
  predicate IsRun(tasks: seq<Task>, records: seq<Scheduled>, timeline: seq<Slice>)
  {
    && |records| == |tasks| && |timeline| == |tasks|
    && (forall k :: 0 <= k < |records| ==> records[k].task == tasks[SortOrder(ByArrival, tasks)[k]])
    && BackToBack(records)
    && (forall k :: 0 <= k < |records| ==> timeline[k] == WholeSlice(records[k]))
  }

  /** Records come back in stable arrival order (the order the source returns
      them in) and run back to back. */
  method Fcfs(tasks: seq<Task>) returns (records: seq<Scheduled>, timeline: seq<Slice>)
    ensures IsRun(tasks, records, timeline)
    ensures forall a, b :: 0 <= a < b < |records| ==> records[a].task.arrival <= records[b].task.arrival
    ensures NonNegativeBursts(tasks) ==>
      forall a, b {:trigger records[a].finish, records[b].start} ::
        0 <= a < b < |records| ==> records[a].finish <= records[b].start
    ensures |tasks| > 0 ==> WorkFitsSpan(records)
  {
    var sorted := SortTasks(ByArrival, tasks);
    ArrivalsAscending(tasks);
    records, timeline := RunInOrder(sorted);
    assert TasksOf(records) == sorted;
    if NonNegativeBursts(tasks) {
      SortedNonNegative(tasks);
      BackToBackDisjoint(records);
    }
    if |tasks| > 0 {
      BackToBackFitsSpan(records);
    }
  }

  /** Sorting by arrival puts arrivals in non-decreasing order. */
  lemma ArrivalsAscending(tasks: seq<Task>)
    ensures var sorted := SortTasks(ByArrival, tasks);
      forall a, b :: 0 <= a < b < |sorted| ==> sorted[a].arrival <= sorted[b].arrival
  {
    var order := SortOrder(ByArrival, tasks);
    var sorted := SortTasks(ByArrival, tasks);
    forall a, b | 0 <= a < b < |sorted| ensures sorted[a].arrival <= sorted[b].arrival {
      assert Precedes(ByArrival, tasks, order[a], order[b]);
    }
  }

  /** Sorting keeps the bursts, so it keeps them non-negative. */
  lemma SortedNonNegative(tasks: seq<Task>)
    requires NonNegativeBursts(tasks)
    ensures NonNegativeBursts(SortTasks(ByArrival, tasks))
  {
    var order := SortOrder(ByArrival, tasks);
    assert forall a :: 0 <= a < |tasks| ==> SortTasks(ByArrival, tasks)[a] == tasks[order[a]];
  }

  /** The loop of `fcfs`: runs the tasks in the given order. */
  method RunInOrder(sorted: seq<Task>) returns (records: seq<Scheduled>, timeline: seq<Slice>)
    ensures |records| == |sorted| && |timeline| == |sorted|
    ensures forall k :: 0 <= k < |records| ==> records[k].task == sorted[k]
    ensures BackToBack(records)
    ensures forall k :: 0 <= k < |records| ==> timeline[k] == WholeSlice(records[k])
  {
    records := [];
    timeline := [];
    var clock := 0;
    var k := 0;
    while k < |sorted|
      invariant k <= |sorted| && |records| == k && |timeline| == k
      invariant clock == Clock(records, k)
      invariant forall j :: 0 <= j < k ==> records[j].task == sorted[j]
      invariant forall j :: 0 <= j < k ==> timeline[j] == WholeSlice(records[j])
      invariant BackToBack(records)
    {
      var task := sorted[k];
      var start := Max(clock, task.arrival);
      var finish := start + task.burst;
      var r := Scheduled(task, start, finish);
      BackToBackAppend(records, r);
      records := records + [r];
      timeline := timeline + [WholeSlice(r)];
      clock := finish;
      k := k + 1;
    }
  }

  lemma BackToBackAppend(rs: seq<Scheduled>, r: Scheduled)
    requires BackToBack(rs)
    requires r.start == Max(Clock(rs, |rs|), r.task.arrival)
    requires r.finish == r.start + r.task.burst
    ensures BackToBack(rs + [r])
  {
    var rs' := rs + [r];
    forall k | 0 <= k < |rs'| ensures rs'[k].start == Max(Clock(rs', k), rs'[k].task.arrival) {
      if k < |rs| {
        assert rs'[k] == rs[k];
        assert rs[k].start == Max(Clock(rs, k), rs[k].task.arrival);
      }
    }
  }

  /** With non-negative bursts the clock never runs backwards. */
  lemma {:induction false} FinishesGrow(rs: seq<Scheduled>, a: nat, b: nat)
    requires BackToBack(rs) && NonNegativeBursts(TasksOf(rs))
    requires a <= b < |rs|
    ensures rs[a].finish <= rs[b].finish
    decreases b - a
  {
    if a < b {
      FinishesGrow(rs, a, b - 1);
      assert rs[b].start == Max(Clock(rs, b), rs[b].task.arrival);
      assert TasksOf(rs)[b].burst >= 0;
    }
  }

  /** With non-negative bursts a back-to-back run never overlaps: every record
      finishes before any later record starts. */
  lemma BackToBackDisjoint(rs: seq<Scheduled>)
    requires BackToBack(rs) && NonNegativeBursts(TasksOf(rs))
    ensures forall a, b {:trigger rs[a].finish, rs[b].start} ::
      0 <= a < b < |rs| ==> rs[a].finish <= rs[b].start
  {
    forall a, b | 0 <= a < b < |rs| ensures rs[a].finish <= rs[b].start {
      FinishesGrow(rs, a, b - 1);
      assert rs[b].start == Max(Clock(rs, b), rs[b].task.arrival);
    }
  }

  /** The work done by a back-to-back run fits between a lower bound on the
      arrivals and the clock after the last record. */
  lemma {:induction false} BackToBackWork(rs: seq<Scheduled>, earliest: int)
    requires BackToBack(rs)
    requires forall k :: 0 <= k < |rs| ==> rs[k].task.arrival >= earliest
    ensures TotalBurst(rs) <= Max(0, Clock(rs, |rs|) - earliest)
  {
    if |rs| > 0 {
      var last := |rs| - 1;
      var init := rs[..last];
      assert BackToBack(init) by {
        forall k | 0 <= k < |init| ensures init[k].start == Max(Clock(init, k), init[k].task.arrival) {
          assert rs[k].start == Max(Clock(rs, k), rs[k].task.arrival);
        }
      }
      BackToBackWork(init, earliest);
      assert Bursts(TasksOf(rs))[..last] == Bursts(TasksOf(init));
      assert rs[last].start == Max(Clock(rs, last), rs[last].task.arrival);
      assert Clock(init, last) == Clock(rs, last);
    }
  }

  /** Hence a back-to-back run keeps utilisation at most 100 percent. */
  lemma BackToBackFitsSpan(rs: seq<Scheduled>)
    requires |rs| > 0 && BackToBack(rs)
    ensures WorkFitsSpan(rs)
  {
    SpanBounds(rs);
    BackToBackWork(rs, EarliestArrival(rs));
  }
}
