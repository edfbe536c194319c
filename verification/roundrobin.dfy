/** `rr`: round robin over a FIFO queue with a fixed quantum. Newly arrived
    tasks are admitted before and after every slice; a task that still has
    work goes back on the tail, behind the tasks admitted during its slice.
    Every slice is recorded in the timeline. */
module RoundRobin {
  import opened Common
  import opened Tasks
  import opened Metrics

  /** The loop state of the source. `owners[k]` is the index of the task that
      ran in `timeline[k]`. */
  datatype State = State(
    remaining: seq<int>,
    start: seq<int>,
    finish: seq<int>,
    clock: int,
    queue: seq<nat>,
    arrived: seq<bool>,
    timeline: seq<Slice>,
    owners: seq<nat>)

  predicate Shaped(tasks: seq<Task>, st: State)
  {
    && |st.remaining| == |tasks| && |st.start| == |tasks| && |st.finish| == |tasks|
    && |st.arrived| == |tasks| && |st.owners| == |st.timeline|
  }

  function Initial(tasks: seq<Task>): (st: State)
    ensures Shaped(tasks, st)
  {
    State(Bursts(tasks), seq(|tasks|, _ => -1), seq(|tasks|, _ => 0), 0, [], seq(|tasks|, _ => false), [], [])
  }

  /** Task `j` is admitted now: it has arrived, was never admitted, and has work. */
  predicate Admissible(tasks: seq<Task>, st: State, j: nat)
    requires Shaped(tasks, st) && j < |tasks|
  {
    tasks[j].arrival <= st.clock && !st.arrived[j] && st.remaining[j] > 0
  }

  /** The tasks from index `lo` on that the admission scan appends, in index order. */
  function Newcomers(tasks: seq<Task>, st: State, lo: nat): (r: seq<nat>)
    requires Shaped(tasks, st) && lo <= |tasks|
    ensures forall k :: 0 <= k < |r| ==> lo <= r[k] < |tasks| && Admissible(tasks, st, r[k])
    ensures forall j :: lo <= j < |tasks| && Admissible(tasks, st, j) ==> j in r
    ensures forall a, b :: 0 <= a < b < |r| ==> r[a] < r[b]
    decreases |tasks| - lo
  {
    if lo == |tasks| then []
    else (if Admissible(tasks, st, lo) then [lo] else []) + Newcomers(tasks, st, lo + 1)
  }

  /** The admission scan of the source: every admissible task joins the tail of
      the queue, in index order, and is marked as arrived. Admitting one task
      does not change whether another is admissible, so the scan is a filter. */
  function Admit(tasks: seq<Task>, st: State): (st': State)
    requires Shaped(tasks, st)
    ensures Shaped(tasks, st')
  {
    var joining := Newcomers(tasks, st, 0);
    st.(queue := st.queue + joining,
        arrived := seq(|tasks|, j requires 0 <= j < |tasks| => st.arrived[j] || Admissible(tasks, st, j)))
  }

  /** Pops the head of the queue and runs it for `min(quantum, remaining)`,
      recording the slice; the task's start is fixed on its first slice and its
      finish is set if it has no work left. (The source sets the finish after
      the second admission scan, which neither reads nor writes it.) */
  function Dispatch(tasks: seq<Task>, quantum: int, st: State): (st': State)
    requires Shaped(tasks, st) && |st.queue| > 0 && st.queue[0] < |tasks|
    ensures Shaped(tasks, st')
  {
    var idx := st.queue[0];
    var run := Min(quantum, st.remaining[idx]);
    var now := st.clock + run;
    var left := st.remaining[idx] - run;
    State(st.remaining[idx := left],
          st.start[idx := if st.start[idx] == -1 then st.clock else st.start[idx]],
          if left > 0 then st.finish else st.finish[idx := now],
          now,
          st.queue[1..],
          st.arrived,
          st.timeline + [Slice(tasks[idx].id, st.clock, now, run)],
          st.owners + [idx])
  }

  /** The task that just ran goes back on the tail if it still has work. */
  function Requeue(st: State, idx: nat): State
    requires idx < |st.remaining|
  {
    if st.remaining[idx] > 0 then st.(queue := st.queue + [idx]) else st
  }

  /** One iteration of the source loop: admit; idle for one time unit if the
      queue is empty; otherwise run the head for one slice, admit again, and
      requeue the head behind the newcomers if it has work left. */
  function Step(tasks: seq<Task>, quantum: int, st: State): (st': State)
    requires Shaped(tasks, st) && Queued(tasks, st)
    ensures Shaped(tasks, st')
  {
    var a := Admit(tasks, st);
    AdmitQueued(tasks, st, -1);
    if |a.queue| == 0 then
      a.(clock := a.clock + 1)
    else
      var idx := a.queue[0];
      Requeue(Admit(tasks, Dispatch(tasks, quantum, a)), idx)
  }

  /** Queue discipline: the queue holds distinct admitted tasks that still have
      work, and every admitted task with work is in it, except possibly `held`,
      the task being run, which is then not in the queue. */
  predicate QueuedExcept(tasks: seq<Task>, st: State, held: int)
    requires Shaped(tasks, st)
  {
    && (forall k :: 0 <= k < |st.queue| ==>
          st.queue[k] < |tasks| && st.queue[k] != held && st.arrived[st.queue[k]] && st.remaining[st.queue[k]] > 0)
    && (forall a, b :: 0 <= a < b < |st.queue| ==> st.queue[a] != st.queue[b])
    && (forall j :: 0 <= j < |tasks| && j != held && st.arrived[j] && st.remaining[j] > 0 ==> j in st.queue)
  }

  predicate Queued(tasks: seq<Task>, st: State)
    requires Shaped(tasks, st)
  {
    QueuedExcept(tasks, st, -1)
  }

  /** A task never admitted is untouched. */
  predicate Untouched(tasks: seq<Task>, st: State)
    requires Shaped(tasks, st)
  {
    forall j :: 0 <= j < |tasks| && !st.arrived[j] ==>
      st.remaining[j] == tasks[j].burst && st.start[j] == -1 && st.finish[j] == 0
  }

  /** Per-task progress of admitted tasks: positive burst, arrival by the clock,
      remaining work in [0, burst], a start exactly once it has run, never
      before arrival, the work done since the start fitting before the clock,
      and a finish, at least start plus burst, exactly when no work is left. */
  predicate Progress(tasks: seq<Task>, st: State)
    requires Shaped(tasks, st)
  {
    && 0 <= st.clock
    && forall j :: 0 <= j < |tasks| && st.arrived[j] ==>
      && 1 <= tasks[j].burst
      && tasks[j].arrival <= st.clock
      && 0 <= st.remaining[j] <= tasks[j].burst
      && (st.start[j] == -1 <==> st.remaining[j] == tasks[j].burst)
      && (st.start[j] != -1 ==>
            tasks[j].arrival <= st.start[j] && st.start[j] + tasks[j].burst - st.remaining[j] <= st.clock)
      && (st.remaining[j] > 0 ==> st.finish[j] == 0)
      && (st.remaining[j] == 0 ==> st.start[j] + tasks[j].burst <= st.finish[j] <= st.clock)
  }

  /** Every slice belongs to an admitted task, lasts between 1 and `quantum`,
      starts no earlier than its task's first dispatch and ends by the clock;
      slices never overlap and come in time order. */
  predicate Sliced(tasks: seq<Task>, quantum: int, st: State)
    requires Shaped(tasks, st)
  {
    && (forall k :: 0 <= k < |st.timeline| ==>
          && st.owners[k] < |tasks|
          && st.arrived[st.owners[k]]
          && st.timeline[k].id == tasks[st.owners[k]].id
          && 1 <= st.timeline[k].burst <= quantum
          && st.timeline[k].finish == st.timeline[k].start + st.timeline[k].burst
          && st.start[st.owners[k]] != -1
          && st.start[st.owners[k]] <= st.timeline[k].start
          && st.timeline[k].finish <= st.clock)
    && (forall a, b {:trigger st.timeline[a].finish, st.timeline[b].start} ::
          0 <= a < b < |st.timeline| ==> st.timeline[a].finish <= st.timeline[b].start)
  }

  /** Total length of the slices task `j` ran in. */
  function SliceWork(timeline: seq<Slice>, owners: seq<nat>, j: nat): int
    requires |owners| == |timeline|
  {
    if |timeline| == 0 then 0
    else
      var last := |timeline| - 1;
      SliceWork(timeline[..last], owners[..last], j) + (if owners[last] == j then timeline[last].burst else 0)
  }

  /** Slice conservation: the slices of each task add up to the work done on it. */
  predicate Conserved(tasks: seq<Task>, st: State)
    requires Shaped(tasks, st)
  {
    forall j :: 0 <= j < |tasks| ==> SliceWork(st.timeline, st.owners, j) == tasks[j].burst - st.remaining[j]
  }

  /** Work done per task. */
  function Worked(tasks: seq<Task>, remaining: seq<int>): seq<int>
    requires |remaining| == |tasks|
  {
    seq(|tasks|, j requires 0 <= j < |tasks| => tasks[j].burst - remaining[j])
  }

  /** The work done fits between `earliest`, a lower bound on all arrivals, and the clock. */
  predicate WorkFits(tasks: seq<Task>, earliest: int, st: State)
    requires Shaped(tasks, st)
  {
    Sum(Worked(tasks, st.remaining)) <= Max(0, st.clock - earliest)
  }

  /** Once the loop may stop, the clock is the finish of the task that ran last,
      if that task is done. */
  predicate EndsOnFinish(tasks: seq<Task>, st: State)
    requires Shaped(tasks, st)
  {
    var last := |st.timeline| - 1;
    (|st.timeline| > 0 && Sum(st.remaining) <= 0 && st.owners[last] < |tasks| && st.remaining[st.owners[last]] == 0)
      ==> st.finish[st.owners[last]] == st.clock
  }

  /** Everything the loop keeps apart from the queue discipline. */
  predicate Kept(tasks: seq<Task>, quantum: int, earliest: int, st: State)
    requires Shaped(tasks, st)
  {
    && Untouched(tasks, st)
    && Progress(tasks, st)
    && Sliced(tasks, quantum, st)
    && Conserved(tasks, st)
    && WorkFits(tasks, earliest, st)
    && EndsOnFinish(tasks, st)
  }

  predicate Inv(tasks: seq<Task>, quantum: int, earliest: int, st: State)
  {
    Shaped(tasks, st) && Queued(tasks, st) && Kept(tasks, quantum, earliest, st)
  }

  // ---------------------------------------------------------------------------
  // Admission

  /** Admission keeps the queue discipline, and never admits the held task. */
  lemma AdmitQueued(tasks: seq<Task>, st: State, held: int)
    requires Shaped(tasks, st) && QueuedExcept(tasks, st, held)
    requires held == -1 || (0 <= held < |tasks| && st.arrived[held])
    ensures QueuedExcept(tasks, Admit(tasks, st), held)
  {
    var st' := Admit(tasks, st);
    var joining := Newcomers(tasks, st, 0);
    AdmitMembers(tasks, st, held);
    AdmitDistinct(tasks, st, held);
    forall j | 0 <= j < |tasks| && j != held && st'.arrived[j] && st'.remaining[j] > 0
      ensures j in st'.queue
    {
      if !st.arrived[j] {
        assert j in joining;
        var k :| 0 <= k < |joining| && joining[k] == j;
        assert st'.queue[|st.queue| + k] == j;
      } else {
        assert j in st.queue;
        var k :| 0 <= k < |st.queue| && st.queue[k] == j;
        assert st'.queue[k] == j;
      }
    }
  }

  lemma AdmitMembers(tasks: seq<Task>, st: State, held: int)
    requires Shaped(tasks, st) && QueuedExcept(tasks, st, held)
    requires held == -1 || (0 <= held < |tasks| && st.arrived[held])
    ensures var st' := Admit(tasks, st);
      forall k :: 0 <= k < |st'.queue| ==>
        st'.queue[k] < |tasks| && st'.queue[k] != held && st'.arrived[st'.queue[k]] && st'.remaining[st'.queue[k]] > 0
  {
    var st' := Admit(tasks, st);
    var joining := Newcomers(tasks, st, 0);
    forall k | 0 <= k < |st'.queue|
      ensures st'.queue[k] < |tasks| && st'.queue[k] != held && st'.arrived[st'.queue[k]] && st'.remaining[st'.queue[k]] > 0
    {
      if k < |st.queue| {
        assert st'.queue[k] == st.queue[k];
      } else {
        assert st'.queue[k] == joining[k - |st.queue|];
      }
    }
  }

  lemma AdmitDistinct(tasks: seq<Task>, st: State, held: int)
    requires Shaped(tasks, st) && QueuedExcept(tasks, st, held)
    ensures var st' := Admit(tasks, st);
      forall a, b :: 0 <= a < b < |st'.queue| ==> st'.queue[a] != st'.queue[b]
  {
    var st' := Admit(tasks, st);
    var joining := Newcomers(tasks, st, 0);
    var m := |st.queue|;
    forall a, b | 0 <= a < b < |st'.queue| ensures st'.queue[a] != st'.queue[b] {
      if b < m {
        assert st'.queue[a] == st.queue[a] && st'.queue[b] == st.queue[b];
      } else if a < m {
        assert st'.queue[a] == st.queue[a] && st'.queue[b] == joining[b - m];
        assert !st.arrived[joining[b - m]];
      } else {
        assert st'.queue[a] == joining[a - m] && st'.queue[b] == joining[b - m];
      }
    }
  }

  lemma AdmitKeeps(tasks: seq<Task>, quantum: int, earliest: int, st: State)
    requires Shaped(tasks, st) && Kept(tasks, quantum, earliest, st)
    ensures Kept(tasks, quantum, earliest, Admit(tasks, st))
  {
    var st' := Admit(tasks, st);
  }

  // ---------------------------------------------------------------------------
  // One slice

  lemma {:induction false} SliceWorkAppend(timeline: seq<Slice>, owners: seq<nat>, s: Slice, o: nat, j: nat)
    requires |owners| == |timeline|
    ensures SliceWork(timeline + [s], owners + [o], j) == SliceWork(timeline, owners, j) + (if o == j then s.burst else 0)
  {
    assert (timeline + [s])[..|timeline|] == timeline;
    assert (owners + [o])[..|owners|] == owners;
  }

  lemma DispatchQueued(tasks: seq<Task>, quantum: int, st: State)
    requires Shaped(tasks, st) && Queued(tasks, st) && |st.queue| > 0
    ensures QueuedExcept(tasks, Dispatch(tasks, quantum, st), st.queue[0])
  {
    var st' := Dispatch(tasks, quantum, st);
    var idx := st.queue[0];
    forall k | 0 <= k < |st'.queue| ensures st'.queue[k] != idx {
      assert st'.queue[k] == st.queue[k + 1];
    }
    forall j | 0 <= j < |tasks| && j != idx && st'.arrived[j] && st'.remaining[j] > 0
      ensures j in st'.queue
    {
      assert j in st.queue;
      var k :| 0 <= k < |st.queue| && st.queue[k] == j;
      assert st'.queue[k - 1] == j;
    }
  }

  lemma DispatchProgress(tasks: seq<Task>, quantum: int, st: State)
    requires quantum >= 1
    requires Shaped(tasks, st) && Queued(tasks, st) && Untouched(tasks, st) && Progress(tasks, st) && |st.queue| > 0
    ensures Untouched(tasks, Dispatch(tasks, quantum, st)) && Progress(tasks, Dispatch(tasks, quantum, st))
  {
    var st' := Dispatch(tasks, quantum, st);
    var idx := st.queue[0];
    assert st.arrived[idx] && st.remaining[idx] > 0;
    forall j | 0 <= j < |tasks| && st'.arrived[j]
      ensures st'.start[j] != -1 ==>
        tasks[j].arrival <= st'.start[j] && st'.start[j] + tasks[j].burst - st'.remaining[j] <= st'.clock
      ensures st'.remaining[j] == 0 ==> st'.start[j] + tasks[j].burst <= st'.finish[j] <= st'.clock
    {
    }
  }

  lemma DispatchSliced(tasks: seq<Task>, quantum: int, st: State)
    requires quantum >= 1
    requires Shaped(tasks, st) && Queued(tasks, st) && Progress(tasks, st) && Sliced(tasks, quantum, st) && |st.queue| > 0
    ensures Sliced(tasks, quantum, Dispatch(tasks, quantum, st))
  {
    var st' := Dispatch(tasks, quantum, st);
    var idx := st.queue[0];
    var n := |st.timeline|;
    assert st.arrived[idx] && st.remaining[idx] > 0;
    forall k | 0 <= k < |st'.timeline|
      ensures st'.start[st'.owners[k]] != -1 && st'.start[st'.owners[k]] <= st'.timeline[k].start
      ensures st'.timeline[k].finish <= st'.clock
    {
      if k < n {
        assert st'.timeline[k] == st.timeline[k] && st'.owners[k] == st.owners[k];
      }
    }
    forall a, b | 0 <= a < b < |st'.timeline| ensures st'.timeline[a].finish <= st'.timeline[b].start {
      assert st'.timeline[a] == st.timeline[a];
      if b < n {
        assert st'.timeline[b] == st.timeline[b];
      }
    }
  }

  lemma DispatchConserved(tasks: seq<Task>, quantum: int, earliest: int, st: State)
    requires quantum >= 1
    requires forall j :: 0 <= j < |tasks| ==> earliest <= tasks[j].arrival
    requires Shaped(tasks, st) && Queued(tasks, st) && Progress(tasks, st) && |st.queue| > 0
    requires Conserved(tasks, st) && WorkFits(tasks, earliest, st)
    ensures Conserved(tasks, Dispatch(tasks, quantum, st)) && WorkFits(tasks, earliest, Dispatch(tasks, quantum, st))
    ensures EndsOnFinish(tasks, Dispatch(tasks, quantum, st))
  {
    var st' := Dispatch(tasks, quantum, st);
    var idx := st.queue[0];
    var run := Min(quantum, st.remaining[idx]);
    assert st.arrived[idx];
    forall j | 0 <= j < |tasks| ensures SliceWork(st'.timeline, st'.owners, j) == tasks[j].burst - st'.remaining[j] {
      SliceWorkAppend(st.timeline, st.owners, Slice(tasks[idx].id, st.clock, st'.clock, run), idx, j);
    }
    assert Worked(tasks, st'.remaining) == Worked(tasks, st.remaining)[idx := Worked(tasks, st.remaining)[idx] + run];
    SumUpdate(Worked(tasks, st.remaining), idx, Worked(tasks, st.remaining)[idx] + run);
  }

  lemma RequeueQueued(tasks: seq<Task>, st: State, idx: nat)
    requires Shaped(tasks, st) && QueuedExcept(tasks, st, idx) && idx < |tasks|
    requires st.arrived[idx]
    ensures Queued(tasks, Requeue(st, idx))
  {
  }

  lemma RequeueKeeps(tasks: seq<Task>, quantum: int, earliest: int, st: State, idx: nat)
    requires Shaped(tasks, st) && idx < |tasks|
    requires Kept(tasks, quantum, earliest, st)
    ensures Shaped(tasks, Requeue(st, idx)) && Kept(tasks, quantum, earliest, Requeue(st, idx))
  {
  }

  // ---------------------------------------------------------------------------
  // The loop

  lemma InitialInv(tasks: seq<Task>, quantum: int, earliest: int)
    ensures Inv(tasks, quantum, earliest, Initial(tasks))
  {
    var st := Initial(tasks);
    assert Worked(tasks, st.remaining) == seq(|tasks|, _ => 0);
    SumZero(Worked(tasks, st.remaining));
  }

  lemma IdleKeeps(tasks: seq<Task>, quantum: int, earliest: int, st: State)
    requires Inv(tasks, quantum, earliest, st) && |st.queue| == 0 && Sum(st.remaining) > 0
    ensures Inv(tasks, quantum, earliest, st.(clock := st.clock + 1))
  {
    var st' := st.(clock := st.clock + 1);
    LaterProgress(tasks, st, st'.clock);
    LaterSliced(tasks, quantum, st, st'.clock);
    assert Untouched(tasks, st') && Conserved(tasks, st') && Queued(tasks, st');
  }

  /** Letting time pass keeps per-task progress. */
  lemma LaterProgress(tasks: seq<Task>, st: State, t: int)
    requires Shaped(tasks, st) && Progress(tasks, st) && st.clock <= t
    ensures Progress(tasks, st.(clock := t))
  {
  }

  /** Letting time pass keeps the slices valid. */
  lemma LaterSliced(tasks: seq<Task>, quantum: int, st: State, t: int)
    requires Shaped(tasks, st) && Sliced(tasks, quantum, st) && st.clock <= t
    ensures Sliced(tasks, quantum, st.(clock := t))
  {
    var st' := st.(clock := t);
    forall a, b | 0 <= a < b < |st'.timeline| ensures st'.timeline[a].finish <= st'.timeline[b].start {
      assert st.timeline[a].finish <= st.timeline[b].start;
    }
  }

  lemma DispatchKeeps(tasks: seq<Task>, quantum: int, earliest: int, st: State)
    requires quantum >= 1
    requires forall j :: 0 <= j < |tasks| ==> earliest <= tasks[j].arrival
    requires Inv(tasks, quantum, earliest, st) && |st.queue| > 0
    ensures QueuedExcept(tasks, Dispatch(tasks, quantum, st), st.queue[0])
    ensures Kept(tasks, quantum, earliest, Dispatch(tasks, quantum, st))
  {
    DispatchQueued(tasks, quantum, st);
    DispatchProgress(tasks, quantum, st);
    DispatchSliced(tasks, quantum, st);
    DispatchConserved(tasks, quantum, earliest, st);
  }

  /** A slice iteration, from the state after the first admission scan. */
  lemma SliceKeeps(tasks: seq<Task>, quantum: int, earliest: int, a: State)
    requires quantum >= 1
    requires forall j :: 0 <= j < |tasks| ==> earliest <= tasks[j].arrival
    requires Inv(tasks, quantum, earliest, a) && |a.queue| > 0
    ensures Inv(tasks, quantum, earliest, Requeue(Admit(tasks, Dispatch(tasks, quantum, a)), a.queue[0]))
  {
    var idx := a.queue[0];
    var b := Dispatch(tasks, quantum, a);
    DispatchKeeps(tasks, quantum, earliest, a);
    var c := Admit(tasks, b);
    AdmitQueued(tasks, b, idx);
    AdmitKeeps(tasks, quantum, earliest, b);
    RequeueQueued(tasks, c, idx);
    RequeueKeeps(tasks, quantum, earliest, c, idx);
  }

  /** One iteration keeps the loop invariant. */
  lemma StepPreserves(tasks: seq<Task>, quantum: int, earliest: int, st: State)
    requires quantum >= 1
    requires forall j :: 0 <= j < |tasks| ==> earliest <= tasks[j].arrival
    requires Inv(tasks, quantum, earliest, st) && Sum(st.remaining) > 0
    ensures Inv(tasks, quantum, earliest, Step(tasks, quantum, st))
  {
    var a := Admit(tasks, st);
    AdmitQueued(tasks, st, -1);
    AdmitKeeps(tasks, quantum, earliest, st);
    assert a.remaining == st.remaining;
    if |a.queue| == 0 {
      IdleKeeps(tasks, quantum, earliest, a);
      assert Step(tasks, quantum, st) == a.(clock := a.clock + 1);
    } else {
      SliceKeeps(tasks, quantum, earliest, a);
      assert Step(tasks, quantum, st) == Requeue(Admit(tasks, Dispatch(tasks, quantum, a)), a.queue[0]);
    }
  }

  /** The least value the remaining work can sum to: non-positive bursts are
      never admitted, so their remaining work stays put. */
  function Floor(tasks: seq<Task>): int
  {
    Sum(seq(|tasks|, j requires 0 <= j < |tasks| => Min(0, tasks[j].burst)))
  }

  /** Every iteration makes progress: a slice removes at least one unit of work;
      an idle iteration happens only while some task with work has yet to
      arrive, so the clock moves towards the latest arrival. */
  lemma StepProgresses(tasks: seq<Task>, quantum: int, earliest: int, latest: int, st: State)
    requires quantum >= 1
    requires forall j :: 0 <= j < |tasks| ==> tasks[j].arrival <= latest
    requires Inv(tasks, quantum, earliest, st) && Sum(st.remaining) > 0
    ensures Floor(tasks) <= Sum(st.remaining)
    ensures var st' := Step(tasks, quantum, st);
      Sum(st'.remaining) < Sum(st.remaining) || (Sum(st'.remaining) == Sum(st.remaining) && st.clock < latest && st'.clock == st.clock + 1)
  {
    SumMono(seq(|tasks|, j requires 0 <= j < |tasks| => Min(0, tasks[j].burst)), st.remaining);
    if |Admit(tasks, st).queue| == 0 {
      IdleProgress(tasks, latest, st);
    } else {
      SliceProgress(tasks, quantum, st);
    }
  }

  /** An idle iteration leaves the work alone, and happens only while a task
      with work has yet to arrive. */
  lemma IdleProgress(tasks: seq<Task>, latest: int, st: State)
    requires forall j :: 0 <= j < |tasks| ==> tasks[j].arrival <= latest
    requires Shaped(tasks, st) && Queued(tasks, st) && Sum(st.remaining) > 0
    requires |Admit(tasks, st).queue| == 0
    ensures Admit(tasks, st).remaining == st.remaining && st.clock < latest
  {
    var j := SumPositive(st.remaining);
    AdmitQueued(tasks, st, -1);
    assert !Admit(tasks, st).arrived[j];
  }

  /** A slice removes at least one unit of work. */
  lemma SliceProgress(tasks: seq<Task>, quantum: int, st: State)
    requires quantum >= 1
    requires Shaped(tasks, st) && Queued(tasks, st)
    requires |Admit(tasks, st).queue| > 0
    ensures Sum(Step(tasks, quantum, st).remaining) < Sum(st.remaining)
  {
    var a := Admit(tasks, st);
    AdmitQueued(tasks, st, -1);
    var idx := a.queue[0];
    var run := Min(quantum, a.remaining[idx]);
    var b := Dispatch(tasks, quantum, a);
    assert Step(tasks, quantum, st) == Requeue(Admit(tasks, b), idx);
    assert Step(tasks, quantum, st).remaining == b.remaining;
    assert a.remaining == st.remaining && a.remaining[idx] > 0;
    assert b.remaining == a.remaining[idx := a.remaining[idx] - run];
    SumUpdate(a.remaining, idx, a.remaining[idx] - run);
  }

  /** An iteration keeps the queue discipline whatever the quantum. */
  lemma StepQueued(tasks: seq<Task>, quantum: int, st: State)
    requires Shaped(tasks, st) && Queued(tasks, st)
    ensures Queued(tasks, Step(tasks, quantum, st))
  {
    var a := Admit(tasks, st);
    AdmitQueued(tasks, st, -1);
    if |a.queue| > 0 {
      var idx := a.queue[0];
      DispatchQueued(tasks, quantum, a);
      var b := Dispatch(tasks, quantum, a);
      AdmitQueued(tasks, b, idx);
      RequeueQueued(tasks, Admit(tasks, b), idx);
      assert Step(tasks, quantum, st) == Requeue(Admit(tasks, b), idx);
    } else {
      assert Step(tasks, quantum, st) == a.(clock := a.clock + 1);
    }
  }

  /** What one iteration does. After the first admission scan, an empty queue
      idles one time unit. Otherwise the head of the queue runs from the current
      clock for `min(quantum, remaining)` units and that slice is recorded. The
      head's start is fixed on its first slice, and it finishes at the slice's
      end when no work is left. The new queue is the rest of the old one, then
      the tasks that arrived by the slice's end, then the head if it still has
      work. */
  lemma StepServesHead(tasks: seq<Task>, quantum: int, st: State)
    requires Shaped(tasks, st) && Queued(tasks, st)
    ensures var a := Admit(tasks, st);
      |a.queue| == 0 ==> Step(tasks, quantum, st) == a.(clock := st.clock + 1)
    ensures var a := Admit(tasks, st);
      |a.queue| > 0 ==>
        var idx := a.queue[0];
        var run := Min(quantum, st.remaining[idx]);
        var left := st.remaining[idx] - run;
        var st' := Step(tasks, quantum, st);
        && idx < |tasks| && st'.clock == st.clock + run
        && st'.remaining == st.remaining[idx := left]
        && st'.start == st.start[idx := if st.start[idx] == -1 then st.clock else st.start[idx]]
        && st'.finish == (if left > 0 then st.finish else st.finish[idx := st.clock + run])
        && st'.timeline == st.timeline + [Slice(tasks[idx].id, st.clock, st.clock + run, run)]
        && st'.owners == st.owners + [idx]
        && st'.queue == a.queue[1..] + Newcomers(tasks, Dispatch(tasks, quantum, a), 0) + (if left > 0 then [idx] else [])
  {
  }

  /** The state after `k` iterations of the source loop body, started from the
      initial state. */
  function Iterate(tasks: seq<Task>, quantum: int, k: nat): (st: State)
    ensures Shaped(tasks, st) && Queued(tasks, st)
  {
    if k == 0 then Initial(tasks)
    else
      var prev := Iterate(tasks, quantum, k - 1);
      StepQueued(tasks, quantum, prev);
      Step(tasks, quantum, prev)
  }

  /** Work remained before each of the first `k` iterations. */
  ghost predicate Busy(tasks: seq<Task>, quantum: int, k: nat)
  {
    forall j :: 0 <= j < k ==> Sum(Iterate(tasks, quantum, j).remaining) > 0
  }

  /** The source loop runs exactly `k` iterations: work remains before each of
      them and none remains after the last. */
  ghost predicate Stops(tasks: seq<Task>, quantum: int, k: nat)
  {
    Sum(Iterate(tasks, quantum, k).remaining) <= 0 && Busy(tasks, quantum, k)
  }

  /** The loop stops after one number of iterations only. */
  lemma StopsUnique(tasks: seq<Task>, quantum: int, k: nat, k': nat)
    requires Stops(tasks, quantum, k) && Stops(tasks, quantum, k')
    ensures k == k'
  {
  }

  /** One more iteration, taken because work remained. */
  lemma IterateNext(tasks: seq<Task>, quantum: int, k: nat)
    requires Busy(tasks, quantum, k) && Sum(Iterate(tasks, quantum, k).remaining) > 0
    ensures Busy(tasks, quantum, k + 1)
    ensures Iterate(tasks, quantum, k + 1) == Step(tasks, quantum, Iterate(tasks, quantum, k))
  {
  }

  /** The state the loop stops in yields the output of `rr`. */
  lemma RanFrom(tasks: seq<Task>, quantum: int, k: nat, st: State)
    requires Busy(tasks, quantum, k) && Sum(st.remaining) <= 0 && st == Iterate(tasks, quantum, k)
    ensures Ran(tasks, quantum, Stamped(tasks, st.start, st.finish), st.timeline, st.owners)
  {
    assert Stops(tasks, quantum, k);
  }

  /** The output of `rr`: the records, timeline and slice owners of the state
      in which the source loop stops. */
  ghost predicate Ran(tasks: seq<Task>, quantum: int, records: seq<Scheduled>, timeline: seq<Slice>, owners: seq<nat>)
  {
    exists k: nat :: Stops(tasks, quantum, k) &&
      var st := Iterate(tasks, quantum, k);
      records == Stamped(tasks, st.start, st.finish) && timeline == st.timeline && owners == st.owners
  }

  /** The loop of `rr`, while any work remains. */
  method RunLoop(tasks: seq<Task>, quantum: int, earliest: int, latest: int) returns (st: State, ghost rounds: nat)
    requires Sum(Bursts(tasks)) > 0 ==> quantum >= 1
    requires forall j :: 0 <= j < |tasks| ==> earliest <= tasks[j].arrival <= latest
    ensures Inv(tasks, quantum, earliest, st) && Sum(st.remaining) <= 0
    ensures Busy(tasks, quantum, rounds) && st == Iterate(tasks, quantum, rounds)
  {
    st := Initial(tasks);
    rounds := 0;
    InitialInv(tasks, quantum, earliest);
    while Sum(st.remaining) > 0
      invariant Inv(tasks, quantum, earliest, st)
      invariant quantum >= 1 || Sum(st.remaining) <= 0
      invariant st == Iterate(tasks, quantum, rounds)
      invariant Busy(tasks, quantum, rounds)
      decreases Sum(st.remaining) - Floor(tasks), latest - st.clock
    {
      StepProgresses(tasks, quantum, earliest, latest, st);
      StepPreserves(tasks, quantum, earliest, st);
      IterateNext(tasks, quantum, rounds);
      st := Step(tasks, quantum, st);
      rounds := rounds + 1;
    }
  }

  /** With non-negative bursts the loop stops only once all work is done. */
  lemma AllDone(tasks: seq<Task>, quantum: int, earliest: int, st: State)
    requires Inv(tasks, quantum, earliest, st) && Sum(st.remaining) <= 0
    requires NonNegativeBursts(tasks)
    ensures forall j :: 0 <= j < |tasks| ==> st.remaining[j] == 0
  {
    forall j | 0 <= j < |tasks| ensures st.remaining[j] >= 0 {
    }
    SumZero(st.remaining);
  }

  /** With all work done, the work fits the span. */
  lemma FinishedFits(tasks: seq<Task>, quantum: int, st: State)
    requires |tasks| > 0 && Shaped(tasks, st) && Sum(st.remaining) <= 0
    requires Sliced(tasks, quantum, st) && Conserved(tasks, st) && EndsOnFinish(tasks, st)
    requires WorkFits(tasks, MinOf(Arrivals(tasks)), st)
    requires forall j :: 0 <= j < |tasks| ==> st.remaining[j] == 0
    ensures WorkFitsSpan(Stamped(tasks, st.start, st.finish))
  {
    var records := Stamped(tasks, st.start, st.finish);
    assert TasksOf(records) == tasks;
    assert Worked(tasks, st.remaining) == Bursts(tasks);
    if |st.timeline| > 0 {
      var last := st.owners[|st.timeline| - 1];
      assert Finishes(records)[last] == st.clock;
    } else {
      forall j | 0 <= j < |tasks| ensures Worked(tasks, st.remaining)[j] == 0 {
        assert SliceWork(st.timeline, st.owners, j) == 0;
      }
      SumZero(Worked(tasks, st.remaining));
    }
  }

  /** Every slice belongs to a task, carries its id, lasts between 1 and
      `quantum` time units and starts no earlier than the task's arrival and
      first dispatch; slices never overlap and come in time order. */
  predicate ValidSlices(tasks: seq<Task>, quantum: int, records: seq<Scheduled>, timeline: seq<Slice>, owners: seq<nat>)
    requires |records| == |tasks|
  {
    && |owners| == |timeline|
    && (forall k :: 0 <= k < |timeline| ==>
          && owners[k] < |tasks|
          && timeline[k].id == tasks[owners[k]].id
          && 1 <= timeline[k].burst <= quantum
          && timeline[k].finish == timeline[k].start + timeline[k].burst
          && tasks[owners[k]].arrival <= records[owners[k]].start <= timeline[k].start)
    && (forall a, b {:trigger timeline[a].finish, timeline[b].start} ::
          0 <= a < b < |timeline| ==> timeline[a].finish <= timeline[b].start)
  }

  /** A task without positive burst is never admitted: no start, finish 0, no slice. */
  predicate Unscheduled(tasks: seq<Task>, records: seq<Scheduled>, timeline: seq<Slice>, owners: seq<nat>)
    requires |records| == |tasks| && |owners| == |timeline|
  {
    forall i :: 0 <= i < |tasks| && tasks[i].burst <= 0 ==>
      records[i].start == -1 && records[i].finish == 0 && SliceWork(timeline, owners, i) == 0
  }

  /** Every task's slices add up to its burst, and a task with work starts no
      earlier than it arrives and finishes no earlier than start plus burst. */
  predicate Completed(tasks: seq<Task>, records: seq<Scheduled>, timeline: seq<Slice>, owners: seq<nat>)
    requires |records| == |tasks| && |owners| == |timeline|
  {
    forall i :: 0 <= i < |tasks| ==>
      && SliceWork(timeline, owners, i) == tasks[i].burst
      && (tasks[i].burst > 0 ==>
            tasks[i].arrival <= records[i].start && records[i].start + tasks[i].burst <= records[i].finish)
  }

  lemma FinalSlices(tasks: seq<Task>, quantum: int, earliest: int, st: State)
    requires Inv(tasks, quantum, earliest, st)
    ensures ValidSlices(tasks, quantum, Stamped(tasks, st.start, st.finish), st.timeline, st.owners)
    ensures Unscheduled(tasks, Stamped(tasks, st.start, st.finish), st.timeline, st.owners)
  {
    var records := Stamped(tasks, st.start, st.finish);
    forall k | 0 <= k < |st.timeline|
      ensures tasks[st.owners[k]].arrival <= records[st.owners[k]].start <= st.timeline[k].start
    {
      var j := st.owners[k];
      assert records[j].start == st.start[j];
    }
  }

  lemma FinalCompleted(tasks: seq<Task>, quantum: int, earliest: int, st: State)
    requires Inv(tasks, quantum, earliest, st)
    requires forall j :: 0 <= j < |tasks| ==> st.remaining[j] == 0
    ensures Completed(tasks, Stamped(tasks, st.start, st.finish), st.timeline, st.owners)
  {
    var records := Stamped(tasks, st.start, st.finish);
    forall i | 0 <= i < |tasks| && tasks[i].burst > 0
      ensures tasks[i].arrival <= records[i].start && records[i].start + tasks[i].burst <= records[i].finish
    {
      assert st.arrived[i];
    }
  }

  /** With non-negative bursts, the final state completes every task. */
  lemma FinalNonNegative(tasks: seq<Task>, quantum: int, earliest: int, st: State)
    requires Inv(tasks, quantum, earliest, st) && Sum(st.remaining) <= 0
    requires NonNegativeBursts(tasks)
    requires |tasks| > 0 ==> earliest == MinOf(Arrivals(tasks))
    ensures Completed(tasks, Stamped(tasks, st.start, st.finish), st.timeline, st.owners)
    ensures |tasks| > 0 ==> WorkFitsSpan(Stamped(tasks, st.start, st.finish))
  {
    AllDone(tasks, quantum, earliest, st);
    FinalCompleted(tasks, quantum, earliest, st);
    if |tasks| > 0 {
      FinishedFits(tasks, quantum, st);
    }
  }

  /** `rr`. Once there is work to do the quantum must be at least 1: a slice of
      `min(quantum, remaining)` that is not positive never reduces the work and
      the source loop never ends. Records come back in input order;
      `owners[k]` is the index of the task that ran in `timeline[k]`. */
  method Rr(tasks: seq<Task>, quantum: int := 1) returns (records: seq<Scheduled>, timeline: seq<Slice>, owners: seq<nat>)
    requires Sum(Bursts(tasks)) > 0 ==> quantum >= 1
    ensures Ran(tasks, quantum, records, timeline, owners)
    ensures |records| == |tasks| && |owners| == |timeline|
    ensures forall i :: 0 <= i < |tasks| ==> records[i].task == tasks[i]
    ensures ValidSlices(tasks, quantum, records, timeline, owners)
    ensures Unscheduled(tasks, records, timeline, owners)
    ensures NonNegativeBursts(tasks) ==> Completed(tasks, records, timeline, owners)
    ensures NonNegativeBursts(tasks) && |tasks| > 0 ==> WorkFitsSpan(records)
  {
    var n := |tasks|;
    var earliest := if n > 0 then MinOf(Arrivals(tasks)) else 0;
    var latest := if n > 0 then MaxOf(Arrivals(tasks)) else 0;
    assert forall i :: 0 <= i < n ==> Arrivals(tasks)[i] == tasks[i].arrival;
    var st, rounds := RunLoop(tasks, quantum, earliest, latest);
    RanFrom(tasks, quantum, rounds, st);
    FinalSlices(tasks, quantum, earliest, st);
    if NonNegativeBursts(tasks) {
      FinalNonNegative(tasks, quantum, earliest, st);
    }
    records := Stamped(tasks, st.start, st.finish);
    timeline := st.timeline;
    owners := st.owners;
  }
}
