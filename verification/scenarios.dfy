/** Small worked examples of each scheduler, derived from the schedulers'
    contracts (FCFS, SJF) or by unfolding the loop step function from the
    initial state (Round-Robin, SRTF). */
module Scenarios {
  import opened Common
  import opened Tasks
  import opened Selection
  import opened Sorting
  import FirstComeFirstServed
  import NonPreemptive
  import ShortestRemaining
  import RoundRobin

  /** Two tasks arriving together, bursts 5 and 3. */
  const FcfsTasks: seq<Task> := [Task(1, 0, 5, 0), Task(2, 0, 3, 0)]

  /** Equal arrivals keep input order: task 1 finishes at 5, task 2 at 8. */
  method FcfsPair() returns (records: seq<Scheduled>, timeline: seq<Slice>)
    ensures |records| == 2
    ensures records[0] == Scheduled(FcfsTasks[0], 0, 5)
    ensures records[1] == Scheduled(FcfsTasks[1], 5, 8)
  {
    var ts := FcfsTasks;
    records, timeline := FirstComeFirstServed.Fcfs(ts);
    assert IsStableOrder(ByArrival, ts, [0, 1]) by {
      assert 0 in [0, 1] && 1 in [0, 1];
    }
    StableOrderUnique(ByArrival, ts, [0, 1]);
    assert records[0].task == ts[0] && records[1].task == ts[1];
    assert records[0].start == Max(FirstComeFirstServed.Clock(records, 0), records[0].task.arrival);
    assert records[1].start == Max(FirstComeFirstServed.Clock(records, 1), records[1].task.arrival);
  }

  /** Task 2 arrives at 1, after task 1 has started. */
  const SjfTasks: seq<Task> := [Task(1, 0, 8, 0), Task(2, 1, 4, 0)]

  /** Non-preemptive: task 1 keeps the CPU until 8, then task 2 runs until 12. */
  method SjfLateArrival() returns (records: seq<Scheduled>, timeline: seq<Slice>)
    ensures |records| == 2
    ensures records[0] == Scheduled(SjfTasks[0], 0, 8)
    ensures records[1] == Scheduled(SjfTasks[1], 8, 12)
  {
    var picked;
    records, timeline, picked := NonPreemptive.Sjf(SjfTasks);
    SjfSorted();
    SjfRun(records, timeline, picked);
  }

  /** The tasks are already in (arrival, burst) order. */
  lemma SjfSorted()
    ensures SortTasks(ByArrivalThenBurst, SjfTasks) == SjfTasks
  {
    var ts := SjfTasks;
    assert IsStableOrder(ByArrivalThenBurst, ts, [0, 1]) by {
      assert 0 in [0, 1] && 1 in [0, 1];
    }
    StableOrderUnique(ByArrivalThenBurst, ts, [0, 1]);
  }

  /** The only run of the dispatcher on these tasks. */
  lemma SjfRun(records: seq<Scheduled>, timeline: seq<Slice>, picked: seq<nat>)
    requires NonPreemptive.IsRun(SjfTasks, NonPreemptive.ShortestBurst, records, timeline, picked)
    ensures |records| == 2
    ensures records[0] == Scheduled(SjfTasks[0], 0, 8)
    ensures records[1] == Scheduled(SjfTasks[1], 8, 12)
  {
    SjfFirst(picked, timeline);
    SjfSecond(picked, timeline);
    assert timeline[0] == WholeSlice(records[0]);
    assert timeline[1] == WholeSlice(records[1]);
  }

  /** The first dispatch of that run: task 1 at 0. */
  lemma SjfFirst(picked: seq<nat>, timeline: seq<Slice>)
    requires |picked| == |timeline| == 2
    requires NonPreemptive.Trace(SjfTasks, NonPreemptive.ShortestBurst, picked, timeline)
    ensures picked[0] == 0 && timeline[0] == Slice(1, 0, 8, 8)
  {
    NonPreemptive.TraceAt(SjfTasks, NonPreemptive.ShortestBurst, picked, timeline, 0);
    var ready := NonPreemptive.ReadyMask(SjfTasks, NonPreemptive.Mask(2, []), timeline[0].start);
    assert NonPreemptive.Mask(2, []) == [false, false];
    assert timeline[0].start == 0;
    assert ready == [true, false];
  }

  /** The second dispatch: task 2 at 8, when task 1 finishes. */
  lemma SjfSecond(picked: seq<nat>, timeline: seq<Slice>)
    requires |picked| == |timeline| == 2
    requires NonPreemptive.Trace(SjfTasks, NonPreemptive.ShortestBurst, picked, timeline)
    requires picked[0] == 0 && timeline[0] == Slice(1, 0, 8, 8)
    ensures picked[1] == 1 && timeline[1] == Slice(2, 8, 12, 4)
  {
    NonPreemptive.TraceAt(SjfTasks, NonPreemptive.ShortestBurst, picked, timeline, 1);
    assert picked[..1] == [0] && timeline[..1] == [Slice(1, 0, 8, 8)];
    assert NonPreemptive.Mask(2, [0]) == [true, false];
  }

  /** Two tasks arriving together with burst 4, run with quantum 2. */
  const PairTasks: seq<Task> := [Task(1, 0, 4, 0), Task(2, 0, 4, 0)]

  /** The four slices the loop records for that example. */
  const PairSlices: seq<Slice> := [Slice(1, 0, 2, 2), Slice(2, 2, 4, 2), Slice(1, 4, 6, 2), Slice(2, 6, 8, 2)]

  /** The loop state of that example after `k` iterations. */
  function PairState(k: nat): RoundRobin.State
    requires k <= 4
  {
    var arrived := if k == 0 then [false, false] else [true, true];
    var queue := if k == 1 then [1, 0] else if k == 2 then [0, 1] else if k == 3 then [1] else [];
    RoundRobin.State(
      [if k < 1 then 4 else if k < 3 then 2 else 0, if k < 2 then 4 else if k < 4 then 2 else 0],
      [if k < 1 then -1 else 0, if k < 2 then -1 else 2],
      [if k < 3 then 0 else 6, if k < 4 then 0 else 8],
      2 * k, queue, arrived, PairSlices[..k], [0, 1, 0, 1][..k])
  }

  /** The state of iteration `k` just after its first admission scan. */
  function PairAdmitted(k: nat): RoundRobin.State
    requires k < 4
  {
    if k == 0 then PairState(0).(queue := [0, 1], arrived := [true, true]) else PairState(k)
  }

  /** The state of iteration `k` just after its slice ran. */
  function PairDispatched(k: nat): RoundRobin.State
    requires k < 4
  {
    var s := PairState(k + 1);
    if k < 2 then s.(queue := s.queue[..1]) else s
  }

  /** The loop alternates the two tasks in 2-unit slices and stops after four
      iterations: task 1 finishes at 6 and task 2 at 8. */
  lemma RoundRobinPair()
    ensures RoundRobin.Initial(PairTasks) == PairState(0)
    ensures forall k :: 0 <= k < 4 ==>
      && RoundRobin.Shaped(PairTasks, PairState(k)) && RoundRobin.Queued(PairTasks, PairState(k))
      && Sum(PairState(k).remaining) > 0
      && RoundRobin.Step(PairTasks, 2, PairState(k)) == PairState(k + 1)
    ensures Sum(PairState(4).remaining) == 0
    ensures PairState(4).finish == [6, 8] && PairState(4).timeline == PairSlices
  {
    forall k | 0 <= k < 4
      ensures RoundRobin.Shaped(PairTasks, PairState(k)) && RoundRobin.Queued(PairTasks, PairState(k))
      ensures Sum(PairState(k).remaining) > 0
      ensures RoundRobin.Step(PairTasks, 2, PairState(k)) == PairState(k + 1)
    {
      PairStep(k);
    }
    PairEnds();
  }

  /** `rr` itself on that example, with quantum 2: task 1 runs in [0, 2) and
      [4, 6), task 2 in [2, 4) and [6, 8). */
  method RoundRobinPairRun() returns (records: seq<Scheduled>, timeline: seq<Slice>, owners: seq<nat>)
    ensures |records| == 2
    ensures records[0] == Scheduled(PairTasks[0], 0, 6) && records[1] == Scheduled(PairTasks[1], 2, 8)
    ensures timeline == PairSlices && owners == [0, 1, 0, 1]
  {
    records, timeline, owners := RoundRobin.Rr(PairTasks, 2);
    PairRan(records, timeline, owners);
  }

  /** The only output `rr` can give on that example. */
  lemma PairRan(records: seq<Scheduled>, timeline: seq<Slice>, owners: seq<nat>)
    requires RoundRobin.Ran(PairTasks, 2, records, timeline, owners)
    ensures |records| == 2
    ensures records[0] == Scheduled(PairTasks[0], 0, 6) && records[1] == Scheduled(PairTasks[1], 2, 8)
    ensures timeline == PairSlices && owners == [0, 1, 0, 1]
  {
    var k: nat :| RoundRobin.Stops(PairTasks, 2, k) &&
      var st := RoundRobin.Iterate(PairTasks, 2, k);
      records == Stamped(PairTasks, st.start, st.finish) && timeline == st.timeline && owners == st.owners;
    ghost var four := 4;
    PairStops(four);
    RoundRobin.StopsUnique(PairTasks, 2, k, four);
    var st := RoundRobin.Iterate(PairTasks, 2, k);
    assert st == PairLast;
    assert |records| == 2 && records[0] == Scheduled(PairTasks[0], 0, 6) && records[1] == Scheduled(PairTasks[1], 2, 8);
  }

  /** The state the loop of that example stops in. */
  const PairLast: RoundRobin.State :=
    RoundRobin.State([0, 0], [0, 2], [6, 8], 8, [], [true, true], PairSlices, [0, 1, 0, 1])

  lemma PairLastState()
    ensures PairState(4) == PairLast
  {
  }

  /** The loop stops after the fourth iteration. (`n` keeps the verifier from
      unfolding the iteration on a literal count.) */
  lemma PairStops(n: nat)
    requires n == 4
    ensures RoundRobin.Stops(PairTasks, 2, n)
    ensures RoundRobin.Iterate(PairTasks, 2, n) == PairLast
  {
    PairLastState();
    forall j | 0 <= j < n ensures Sum(RoundRobin.Iterate(PairTasks, 2, j).remaining) > 0 {
      PairIterate(j);
      PairStep(j);
    }
    PairIterate(n);
    PairEnds();
  }

  /** The loop state after `k` iterations is `PairState(k)`. */
  lemma {:induction false} PairIterate(k: nat)
    requires k <= 4
    ensures RoundRobin.Iterate(PairTasks, 2, k) == PairState(k)
  {
    if k == 0 {
      PairEnds();
    } else {
      PairIterate(k - 1);
      PairStep(k - 1);
    }
  }

  lemma PairEnds()
    ensures RoundRobin.Initial(PairTasks) == PairState(0)
    ensures Sum(PairState(4).remaining) == 0
    ensures PairState(4).finish == [6, 8] && PairState(4).timeline == PairSlices
  {
    var s := PairState(4);
    assert s.remaining == [0, 0];
    SumPair(s.remaining);
    assert RoundRobin.Initial(PairTasks).start == [-1, -1];
    assert RoundRobin.Initial(PairTasks).finish == [0, 0];
    assert RoundRobin.Initial(PairTasks).arrived == [false, false];
  }

  lemma PairStep(k: nat)
    requires k < 4
    ensures RoundRobin.Shaped(PairTasks, PairState(k)) && RoundRobin.Queued(PairTasks, PairState(k))
    ensures Sum(PairState(k).remaining) > 0
    ensures RoundRobin.Step(PairTasks, 2, PairState(k)) == PairState(k + 1)
  {
    PairQueued(k);
    PairAdmit(k);
    PairDispatch(k);
    PairRequeue(k);
    PairAdmitAfter(k);
    StepSlice(PairTasks, 2, PairState(k), PairAdmitted(k), PairDispatched(k), PairState(k + 1));
  }

  /** The task that ran goes back on the tail exactly in the first two iterations. */
  lemma PairRequeue(k: nat)
    requires k < 4
    ensures PairAdmitted(k).queue[0] < 2
    ensures RoundRobin.Requeue(PairDispatched(k), PairAdmitted(k).queue[0]) == PairState(k + 1)
  {
    var d := PairDispatched(k);
    var idx := PairAdmitted(k).queue[0];
    if k == 0 {
      assert idx == 0 && d.remaining[0] == 2 && d.queue == [1];
    } else if k == 1 {
      assert idx == 1 && d.remaining[1] == 2 && d.queue == [0];
    } else if k == 2 {
      assert idx == 0 && d.remaining[0] == 0;
    } else {
      assert idx == 1 && d.remaining[1] == 0;
    }
  }

  lemma PairQueued(k: nat)
    requires k < 4
    ensures RoundRobin.Shaped(PairTasks, PairState(k)) && RoundRobin.Queued(PairTasks, PairState(k))
    ensures Sum(PairState(k).remaining) > 0
  {
    var s := PairState(k);
    if k == 0 {
      assert s.remaining == [4, 4] && s.queue == [] && s.arrived == [false, false];
    } else if k == 1 {
      assert s.remaining == [2, 4] && s.queue == [1, 0] && s.arrived == [true, true];
    } else if k == 2 {
      assert s.remaining == [2, 2] && s.queue == [0, 1] && s.arrived == [true, true];
    } else {
      assert s.remaining == [0, 2] && s.queue == [1] && s.arrived == [true, true];
    }
    SumPair(s.remaining);
  }

  lemma SumPair(xs: seq<int>)
    requires |xs| == 2
    ensures Sum(xs) == xs[0] + xs[1]
  {
    assert Sum(xs[..1]) == xs[0] by {
      assert xs[..1][..0] == [];
    }
  }

  lemma PairAdmit(k: nat)
    requires k < 4
    ensures RoundRobin.Admit(PairTasks, PairState(k)) == PairAdmitted(k)
  {
    if k == 0 {
      PairAdmitFirst();
    } else {
      var s := PairState(k);
      assert s.arrived == [true, true];
      AdmitNone(PairTasks, s);
    }
  }

  /** Both tasks are admitted by the first scan, in index order. */
  lemma PairAdmitFirst()
    ensures RoundRobin.Admit(PairTasks, PairState(0)) == PairAdmitted(0)
  {
    var s := PairState(0);
    assert s == RoundRobin.State([4, 4], [-1, -1], [0, 0], 0, [], [false, false], [], []);
    assert RoundRobin.Newcomers(PairTasks, s, 2) == [];
    assert RoundRobin.Newcomers(PairTasks, s, 1) == [1];
    assert RoundRobin.Newcomers(PairTasks, s, 0) == [0, 1];
    assert RoundRobin.Admit(PairTasks, s).arrived == [true, true];
  }

  /** No task is left to admit after a slice. */
  lemma PairAdmitAfter(k: nat)
    requires k < 4
    ensures RoundRobin.Admit(PairTasks, PairDispatched(k)) == PairDispatched(k)
  {
    assert PairDispatched(k).arrived == [true, true];
    AdmitNone(PairTasks, PairDispatched(k));
  }

  lemma PairDispatch(k: nat)
    requires k < 4
    ensures RoundRobin.Dispatch(PairTasks, 2, PairAdmitted(k)) == PairDispatched(k)
  {
    var a := PairAdmitted(k);
    assert a.remaining[a.queue[0]] == if k < 2 then 4 else 2;
    assert PairSlices[..k + 1] == PairSlices[..k] + [PairSlices[k]];
    assert [0, 1, 0, 1][..k + 1] == [0, 1, 0, 1][..k] + [[0, 1, 0, 1][k]];
  }

  /** An iteration that runs a slice, assembled from its parts. */
  lemma StepSlice(tasks: seq<Task>, quantum: int, st: RoundRobin.State, a: RoundRobin.State,
                  d: RoundRobin.State, next: RoundRobin.State)
    requires RoundRobin.Shaped(tasks, st) && RoundRobin.Queued(tasks, st)
    requires RoundRobin.Admit(tasks, st) == a && |a.queue| > 0 && a.queue[0] < |tasks|
    requires RoundRobin.Dispatch(tasks, quantum, a) == d && RoundRobin.Admit(tasks, d) == d
    requires RoundRobin.Requeue(d, a.queue[0]) == next
    ensures RoundRobin.Step(tasks, quantum, st) == next
  {
  }

  /** Once every task has been admitted, an admission scan changes nothing. */
  lemma AdmitNone(tasks: seq<Task>, st: RoundRobin.State)
    requires RoundRobin.Shaped(tasks, st)
    requires forall j :: 0 <= j < |tasks| ==> st.arrived[j]
    ensures RoundRobin.Admit(tasks, st) == st
  {
    NoNewcomers(tasks, st, 0);
    assert RoundRobin.Admit(tasks, st).arrived == st.arrived;
  }

  lemma {:induction false} NoNewcomers(tasks: seq<Task>, st: RoundRobin.State, lo: nat)
    requires RoundRobin.Shaped(tasks, st) && lo <= |tasks|
    requires forall j :: 0 <= j < |tasks| ==> st.arrived[j]
    ensures RoundRobin.Newcomers(tasks, st, lo) == []
    decreases |tasks| - lo
  {
    if lo < |tasks| {
      NoNewcomers(tasks, st, lo + 1);
    }
  }

  /** Task 1 arrives at 0 with burst 8, task 2 at 1 with burst 4. */
  const SrtfTasks: seq<Task> := [Task(1, 0, 8, 0), Task(2, 1, 4, 0)]

  /** The slices `srtf` emits for that example, in completion order. */
  const SrtfSlices: seq<Slice> := [Slice(2, 1, 5, 4), Slice(1, 0, 12, 8)]

  /** Tasks completed after `k` ticks: task 2 at tick 5, task 1 at tick 12. */
  function SrtfDone(k: nat): nat
  {
    (if k < 5 then 0 else 1) + (if k < 12 then 0 else 1)
  }

  /** The task the `k`-th tick serves: task 2 preempts task 1 from its arrival
      until it completes. */
  function SrtfRunning(k: nat): nat
  {
    if 1 <= k <= 4 then 1 else 0
  }

  /** The loop state of that example after `k` ticks. */
  function SrtfState(k: nat): ShortestRemaining.State
    requires k <= 12
  {
    ShortestRemaining.State(
      [if k == 0 then 8 else if k <= 5 then 7 else 12 - k, if k <= 1 then 4 else if k <= 5 then 5 - k else 0],
      [if k == 0 then -1 else 0, if k <= 1 then -1 else 1],
      [if k < 12 then 0 else 12, if k < 5 then 0 else 5],
      k, SrtfDone(k), SrtfSlices[..SrtfDone(k)], [1, 0][..SrtfDone(k)])
  }

  /** Preemption: task 1 runs for one tick, task 2 arrives with less work left
      and runs to completion at 5, then task 1 resumes and finishes at 12. */
  method SrtfPreemption() returns (records: seq<Scheduled>, timeline: seq<Slice>, order: seq<nat>)
    ensures |records| == 2
    ensures records[0] == Scheduled(SrtfTasks[0], 0, 12) && records[1] == Scheduled(SrtfTasks[1], 1, 5)
    ensures timeline == SrtfSlices && order == [1, 0]
  {
    assert PositiveBursts(SrtfTasks);
    records, timeline, order := ShortestRemaining.Srtf(SrtfTasks);
    SrtfRan(records, timeline, order);
  }

  /** The only output `srtf` can give on that example. */
  lemma SrtfRan(records: seq<Scheduled>, timeline: seq<Slice>, order: seq<nat>)
    requires ShortestRemaining.Ran(SrtfTasks, records, timeline, order)
    ensures |records| == 2
    ensures records[0] == Scheduled(SrtfTasks[0], 0, 12) && records[1] == Scheduled(SrtfTasks[1], 1, 5)
    ensures timeline == SrtfSlices && order == [1, 0]
  {
    var k: nat :| ShortestRemaining.Stops(SrtfTasks, k) &&
      var st := ShortestRemaining.Ticks(SrtfTasks, k);
      records == Stamped(SrtfTasks, st.start, st.finish) && timeline == st.timeline && order == st.order;
    ghost var twelve := 12;
    SrtfStops(twelve);
    ShortestRemaining.StopsUnique(SrtfTasks, k, twelve);
    var st := ShortestRemaining.Ticks(SrtfTasks, k);
    assert st == SrtfLast;
    assert |records| == 2 && records[0] == Scheduled(SrtfTasks[0], 0, 12) && records[1] == Scheduled(SrtfTasks[1], 1, 5);
  }

  /** The state the loop of that example stops in. */
  const SrtfLast: ShortestRemaining.State :=
    ShortestRemaining.State([0, 0], [0, 1], [12, 5], 12, 2, SrtfSlices, [1, 0])

  lemma SrtfLastState()
    ensures SrtfState(12) == SrtfLast
  {
  }

  /** The loop stops after the twelfth tick. (`n` keeps the verifier from
      unfolding the ticks on a literal count.) */
  lemma SrtfStops(n: nat)
    requires n == 12
    ensures ShortestRemaining.Stops(SrtfTasks, n)
    ensures ShortestRemaining.Ticks(SrtfTasks, n) == SrtfLast
  {
    SrtfLastState();
    forall j | 0 <= j < n ensures ShortestRemaining.Ticks(SrtfTasks, j).completed < 2 {
      SrtfTicks(j);
    }
    SrtfTicks(n);
  }

  /** The loop state after `k` ticks is `SrtfState(k)`. */
  lemma {:induction false} SrtfTicks(k: nat)
    requires k <= 12
    ensures ShortestRemaining.Ticks(SrtfTasks, k) == SrtfState(k)
  {
    if k == 0 {
      SrtfInitial();
    } else {
      SrtfTicks(k - 1);
      SrtfTick(k - 1);
    }
  }

  lemma SrtfInitial()
    ensures ShortestRemaining.Initial(SrtfTasks) == SrtfState(0)
  {
    assert Bursts(SrtfTasks) == [8, 4];
    assert ShortestRemaining.Initial(SrtfTasks).start == [-1, -1];
    assert ShortestRemaining.Initial(SrtfTasks).finish == [0, 0];
  }

  /** Each tick serves the arrived task with the least remaining work. */
  lemma SrtfPick(k: nat)
    requires k < 12
    ensures ShortestRemaining.Pick(SrtfTasks, SrtfState(k)) == SrtfRunning(k)
  {
    var st := SrtfState(k);
    var e := ShortestRemaining.Eligible(SrtfTasks, st);
    var c := SrtfRunning(k);
    if k == 0 {
      assert e == [true, false];
    } else if k <= 4 {
      assert e == [true, true];
    } else {
      assert e == [true, false];
    }
    assert IsFirstMin(st.remaining, e, c);
    FirstMinUnique(st.remaining, e, ShortestRemaining.Pick(SrtfTasks, st), c);
  }

  lemma SrtfTick(k: nat)
    requires k < 12
    ensures ShortestRemaining.Tick(SrtfTasks, SrtfState(k)) == SrtfState(k + 1)
  {
    SrtfPick(k);
    var st := SrtfState(k);
    var next := SrtfState(k + 1);
    var st' := ShortestRemaining.Tick(SrtfTasks, st);
    if k == 4 {
      assert SrtfSlices[..1] == [SrtfSlices[0]];
      assert st'.timeline == next.timeline;
    } else if k == 11 {
      assert SrtfSlices[..2] == SrtfSlices[..1] + [SrtfSlices[1]];
      assert st'.timeline == next.timeline;
    }
    assert st'.remaining == next.remaining;
    assert st'.start == next.start;
    assert st'.finish == next.finish;
  }
}
