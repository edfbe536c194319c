/** The `/simulate` endpoint of app_multi.py: looks a scheduler up by name, runs
    it on the submitted tasks (passing the quantum to Round-Robin only) and
    returns the metrics report with the timeline. */
module Simulation {
  import opened Wrappers
  import opened Common
  import opened Tasks
  import opened Sorting
  import opened Metrics
  import FirstComeFirstServed
  import NonPreemptive
  import ShortestRemaining
  import RoundRobin

  /** The five entries of the algorithm table. */
  datatype Algorithm = Fcfs | Sjf | Srtf | Rr | Priority

  /** The key each algorithm is registered under. */
  function Name(a: Algorithm): string
  {
    match a
    case Fcfs => "fcfs"
    case Sjf => "sjf"
    case Srtf => "srtf"
    case Rr => "rr"
    case Priority => "priority"
  }

  /** Table lookup: a missing `algorithm` field or an unknown key finds nothing. */
  function Parse(name: Option<string>): (r: Option<Algorithm>)
    ensures forall a :: r == Some(a) <==> name == Some(Name(a))
  {
    match name
    case None => None
    case Some(s) =>
      if s == "fcfs" then Some(Fcfs)
      else if s == "sjf" then Some(Sjf)
      else if s == "srtf" then Some(Srtf)
      else if s == "rr" then Some(Rr)
      else if s == "priority" then Some(Priority)
      else None
  }

  /** The request body; absent fields are `None`. */
  datatype Request = Request(algorithm: Option<string>, tasks: seq<Task>, quantum: Option<int>)

  /** The quantum the endpoint uses when the request gives none. */
  const DefaultQuantum: int := 2

  function QuantumOf(req: Request): (q: int)
    ensures req.quantum.None? ==> q == DefaultQuantum
    ensures req.quantum.Some? ==> q == req.quantum.value
  {
    match req.quantum
    case None => DefaultQuantum
    case Some(q) => q
  }

  /** `UnsupportedAlgorithm` is answered with status 400. An empty task list makes
      the metrics step fail (the minimum of no arrivals), which the endpoint
      answers with status 500. */
  datatype SimError = UnsupportedAlgorithm | EmptyTaskSet

  datatype Outcome = Outcome(algorithm: Algorithm, report: Report, timeline: seq<Slice>)

  /** The reported records are the submitted tasks, each exactly once, in some order. */
  ghost predicate Reports(tasks: seq<Task>, ms: seq<Measured>)
  {
    exists p :: IsPermutation(p, |tasks|) && |ms| == |tasks| && forall i :: 0 <= i < |ms| ==> ms[i].task == tasks[p[i]]
  }

  /** The schedulers' own precondition: the source loops of `rr` and `srtf`
      terminate only under these. */
  predicate Terminates(a: Algorithm, tasks: seq<Task>, quantum: int)
  {
    && (a == Rr && Sum(Bursts(tasks)) > 0 ==> quantum >= 1)
    && (a == Srtf ==> PositiveBursts(tasks))
  }

  /** `records` and `timeline` are what the scheduler registered as `a`
      returns for `tasks`. Only Round-Robin is given the quantum. */
  ghost predicate Produces(a: Algorithm, tasks: seq<Task>, quantum: int, records: seq<Scheduled>, timeline: seq<Slice>)
  {
    match a
    case Fcfs => FirstComeFirstServed.IsRun(tasks, records, timeline)
    case Sjf => exists picked ::
      NonPreemptive.IsRun(SortTasks(ByArrivalThenBurst, tasks), NonPreemptive.ShortestBurst, records, timeline, picked)
    case Priority => exists picked ::
      NonPreemptive.IsRun(SortTasks(ByArrival, tasks), NonPreemptive.HighestPriority, records, timeline, picked)
    case Srtf => exists order :: ShortestRemaining.Ran(tasks, records, timeline, order)
    case Rr => exists owners :: RoundRobin.Ran(tasks, quantum, records, timeline, owners)
  }

  /** The quantum reaches no scheduler but Round-Robin. */
  lemma QuantumOnlyForRr(a: Algorithm, tasks: seq<Task>, q: int, q': int, records: seq<Scheduled>, timeline: seq<Slice>)
    requires a != Rr
    ensures Produces(a, tasks, q, records, timeline) <==> Produces(a, tasks, q', records, timeline)
  {
  }

  /** A successful answer to a request for algorithm `a` on `tasks`: the
      report is the metrics step applied to exactly what that scheduler
      returns, and covers every submitted task once. Round-Robin's slices
      last at most the quantum; every other scheduler emits one slice per
      task. With positive bursts utilisation lies in (0, 100] and no waiting
      time is negative. */
  ghost predicate Answers(a: Algorithm, tasks: seq<Task>, quantum: int, o: Outcome)
  {
    && o.algorithm == a
    && Reports(tasks, o.report.records)
    && (exists records :: Produces(a, tasks, quantum, records, o.timeline) && Measures(records, o.report))
    && Sliced(a, tasks, quantum, o.timeline)
    && Plausible(tasks, o.report)
  }

  /** Round-Robin's slices last 1 to `quantum` units; every other scheduler
      emits one slice per task. */
  predicate Sliced(a: Algorithm, tasks: seq<Task>, quantum: int, timeline: seq<Slice>)
  {
    && (a != Rr ==> |timeline| == |tasks|)
    && (a == Rr ==> forall k :: 0 <= k < |timeline| ==> 1 <= timeline[k].burst <= quantum)
  }

  /** With positive bursts, utilisation lies in (0, 100] and no waiting time is negative. */
  predicate Plausible(tasks: seq<Task>, report: Report)
  {
    PositiveBursts(tasks) ==>
      && 0.0 < report.utilisation <= 100.0
      && forall i :: 0 <= i < |report.records| ==> report.records[i].wt >= 0
  }

  /** `/simulate` after the request has been decoded. */
  method Simulate(req: Request) returns (r: Result<Outcome, SimError>)
    requires Parse(req.algorithm).Some? ==> Terminates(Parse(req.algorithm).value, req.tasks, QuantumOf(req))
    ensures Parse(req.algorithm).None? <==> r == Failure(UnsupportedAlgorithm)
    ensures Parse(req.algorithm).Some? && |req.tasks| == 0 <==> r == Failure(EmptyTaskSet)
    ensures r.Success? ==> Answers(Parse(req.algorithm).value, req.tasks, QuantumOf(req), r.value)
  {
    var alg := Parse(req.algorithm);
    if alg.None? {
      return Failure(UnsupportedAlgorithm);
    }
    if |req.tasks| == 0 {
      return Failure(EmptyTaskSet);
    }
    var o := Respond(alg.value, req.tasks, QuantumOf(req));
    return Success(o);
  }

  /** Runs the scheduler on a non-empty task list, then the metrics step. */
  method Respond(a: Algorithm, tasks: seq<Task>, quantum: int) returns (o: Outcome)
    requires |tasks| > 0 && Terminates(a, tasks, quantum)
    ensures Answers(a, tasks, quantum, o)
  {
    var records, timeline, p := Run(a, tasks, quantum);
    var report := Measure(tasks, records, p);
    Answered(a, tasks, quantum, records, timeline, report);
    o := Outcome(a, report, timeline);
  }

  /** An outcome built from a scheduler's run and its report answers the request. */
  lemma Answered(a: Algorithm, tasks: seq<Task>, quantum: int, records: seq<Scheduled>, timeline: seq<Slice>, report: Report)
    requires Produces(a, tasks, quantum, records, timeline) && Sliced(a, tasks, quantum, timeline)
    requires Reports(tasks, report.records) && Measures(records, report) && Plausible(tasks, report)
    ensures Answers(a, tasks, quantum, Outcome(a, report, timeline))
  {
  }

  /** The metrics step, applied to a run of the submitted tasks. */
  method Measure(tasks: seq<Task>, records: seq<Scheduled>, p: seq<nat>) returns (report: Report)
    requires |tasks| > 0 && Covers(tasks, records, p) && Sound(tasks, records)
    ensures Reports(tasks, report.records) && Measures(records, report) && Plausible(tasks, report)
  {
    report := CalculateMetrics(records);
    assert forall i :: 0 <= i < |report.records| ==> report.records[i].task == tasks[p[i]];
    if PositiveBursts(tasks) {
      assert PositiveBursts(TasksOf(records));
      UtilisationInRange(records);
    }
  }

  /** `records[i]` is the submitted task `tasks[p[i]]`, and `p` is a permutation. */
  predicate Covers(tasks: seq<Task>, records: seq<Scheduled>, p: seq<nat>)
  {
    && IsPermutation(p, |tasks|) && |records| == |tasks|
    && forall i :: 0 <= i < |records| ==> records[i].task == tasks[p[i]]
  }

  /** With positive bursts, no task runs before it arrives or for less than its
      burst, and the work fits the observed span. */
  predicate Sound(tasks: seq<Task>, records: seq<Scheduled>)
  {
    PositiveBursts(tasks) ==>
      && (forall i :: 0 <= i < |records| ==> records[i].finish >= records[i].task.arrival + records[i].task.burst)
      && (|tasks| > 0 ==> WorkFitsSpan(records))
  }

  /** Runs the named scheduler. `p[i]` is the input position of `records[i]`. */
  method Run(a: Algorithm, tasks: seq<Task>, quantum: int) returns (records: seq<Scheduled>, timeline: seq<Slice>, p: seq<nat>)
    requires Terminates(a, tasks, quantum)
    ensures Produces(a, tasks, quantum, records, timeline)
    ensures Covers(tasks, records, p) && Sound(tasks, records) && Sliced(a, tasks, quantum, timeline)
  {
    match a
    case Fcfs =>
      records, timeline, p := RunFcfs(tasks);
    case Sjf =>
      records, timeline, p := RunNonPreemptive(tasks, ByArrivalThenBurst);
    case Priority =>
      records, timeline, p := RunNonPreemptive(tasks, ByArrival);
    case Srtf =>
      var order;
      records, timeline, order := ShortestRemaining.Srtf(tasks);
      p := Identity(|tasks|);
    case Rr =>
      records, timeline, p := RunRr(tasks, quantum);
  }

  method RunFcfs(tasks: seq<Task>) returns (records: seq<Scheduled>, timeline: seq<Slice>, p: seq<nat>)
    ensures Produces(Fcfs, tasks, 0, records, timeline)
    ensures Covers(tasks, records, p) && Sound(tasks, records) && |timeline| == |tasks|
  {
    records, timeline := FirstComeFirstServed.Fcfs(tasks);
    p := SortOrder(ByArrival, tasks);
    StableOrderPermutation(ByArrival, tasks, p);
    forall i | 0 <= i < |records|
      ensures records[i].finish >= records[i].task.arrival + records[i].task.burst
    {
      assert records[i].start == Max(FirstComeFirstServed.Clock(records, i), records[i].task.arrival);
    }
  }

  /** `sjf` sorts by (arrival, burst), `priority` by arrival alone. */
  method RunNonPreemptive(tasks: seq<Task>, k: SortKey) returns (records: seq<Scheduled>, timeline: seq<Slice>, p: seq<nat>)
    ensures Produces(if k == ByArrivalThenBurst then Sjf else Priority, tasks, 0, records, timeline)
    ensures Covers(tasks, records, p) && Sound(tasks, records) && |timeline| == |tasks|
  {
    var picked;
    if k == ByArrivalThenBurst {
      records, timeline, picked := NonPreemptive.Sjf(tasks);
    } else {
      records, timeline, picked := NonPreemptive.Priority(tasks);
    }
    p := SortOrder(k, tasks);
    StableOrderPermutation(k, tasks, p);
    assert NonPreemptive.IsRun(SortTasks(k, tasks), if k == ByArrivalThenBurst then NonPreemptive.ShortestBurst else NonPreemptive.HighestPriority, records, timeline, picked);
  }

  method RunRr(tasks: seq<Task>, quantum: int) returns (records: seq<Scheduled>, timeline: seq<Slice>, p: seq<nat>)
    requires Sum(Bursts(tasks)) > 0 ==> quantum >= 1
    ensures Produces(Rr, tasks, quantum, records, timeline)
    ensures Covers(tasks, records, p) && Sound(tasks, records)
    ensures forall k :: 0 <= k < |timeline| ==> 1 <= timeline[k].burst <= quantum
  {
    var owners;
    records, timeline, owners := RoundRobin.Rr(tasks, quantum);
    p := Identity(|tasks|);
    assert RoundRobin.Ran(tasks, quantum, records, timeline, owners);
  }

  /** The order the preemptive schedulers return their records in. */
  function Identity(n: nat): (p: seq<nat>)
    ensures IsPermutation(p, n)
    ensures forall i :: 0 <= i < n ==> p[i] == i
  {
    var p := seq(n, i requires 0 <= i < n => i);
    assert forall i :: 0 <= i < n ==> i in p by {
      forall i | 0 <= i < n ensures i in p {
        assert p[i] == i;
      }
    }
    p
  }
}
