/** `calculate_metrics`: completion, turnaround and waiting time per task, their
    totals and averages, and CPU utilisation over the observed span. */
module Metrics {
  import opened Common
  import opened Tasks

  /** A scheduled task with its derived metrics. */
  datatype Measured = Measured(task: Task, start: int, finish: int, ct: int, tat: int, wt: int)

  /** The aggregate report. Averages and utilisation are exact rationals; the
      source rounds them to two decimals. `utilisation` is a percentage. */
  datatype Report = Report(
    records: seq<Measured>,
    totalTat: int,
    totalWt: int,
    avgTat: real,
    avgWt: real,
    utilisation: real)

  function TotalBurst(rs: seq<Scheduled>): int
  {
    Sum(Bursts(TasksOf(rs)))
  }

  function Finishes(rs: seq<Scheduled>): seq<int>
  {
    seq(|rs|, i requires 0 <= i < |rs| => rs[i].finish)
  }

  function Turnarounds(rs: seq<Scheduled>): seq<int>
  {
    seq(|rs|, i requires 0 <= i < |rs| => rs[i].finish - rs[i].task.arrival)
  }

  function EarliestArrival(rs: seq<Scheduled>): int
    requires |rs| > 0
  {
    MinOf(Arrivals(TasksOf(rs)))
  }

  function LatestFinish(rs: seq<Scheduled>): int
    requires |rs| > 0
  {
    MaxOf(Finishes(rs))
  }

  /** CPU utilisation in percent: total burst over the span from the earliest
      arrival to the latest finish, or exactly 100 when that span is empty. */
  function Utilisation(rs: seq<Scheduled>): real
    requires |rs| > 0
  {
    var span := LatestFinish(rs) - EarliestArrival(rs);
    if span > 0 then 100.0 * (TotalBurst(rs) as real) / (span as real) else 100.0
  }

  /** Every record lies inside the observed span. */
  lemma SpanBounds(rs: seq<Scheduled>)
    requires |rs| > 0
    ensures forall k :: 0 <= k < |rs| ==> EarliestArrival(rs) <= rs[k].task.arrival
    ensures forall k :: 0 <= k < |rs| ==> rs[k].finish <= LatestFinish(rs)
  {
    forall k | 0 <= k < |rs| ensures EarliestArrival(rs) <= rs[k].task.arrival {
      assert Arrivals(TasksOf(rs))[k] == rs[k].task.arrival;
    }
    forall k | 0 <= k < |rs| ensures rs[k].finish <= LatestFinish(rs) {
      assert Finishes(rs)[k] == rs[k].finish;
    }
  }

  /** The executed work fits in the observed span: what every correct
      single-CPU schedule guarantees. */
  predicate WorkFitsSpan(rs: seq<Scheduled>)
  {
    |rs| > 0 && TotalBurst(rs) <= Max(0, LatestFinish(rs) - EarliestArrival(rs))
  }

  /** `m` is the report on `rs`: per record, ct is the finish, tat is ct minus
      arrival and wt is tat minus burst; the totals are their sums, the
      averages divide by the number of records, and the utilisation is that of
      the span. */
  predicate Measures(rs: seq<Scheduled>, m: Report)
  {
    && |rs| > 0
    && |m.records| == |rs|
    && (forall i :: 0 <= i < |rs| ==>
          && m.records[i].task == rs[i].task
          && m.records[i].start == rs[i].start
          && m.records[i].finish == rs[i].finish
          && m.records[i].ct == rs[i].finish
          && m.records[i].tat == m.records[i].ct - rs[i].task.arrival
          && m.records[i].wt == m.records[i].tat - rs[i].task.burst)
    && m.totalTat == Sum(Turnarounds(rs))
    && m.totalWt == m.totalTat - TotalBurst(rs)
    && m.avgTat == (m.totalTat as real) / (|rs| as real)
    && m.avgWt == (m.totalWt as real) / (|rs| as real)
    && m.utilisation == Utilisation(rs)
  }

  /** Fills in ct, tat and wt for every record and folds them into the report. */
  method CalculateMetrics(rs: seq<Scheduled>) returns (m: Report)
    requires |rs| > 0
    ensures Measures(rs, m)
    ensures (forall i :: 0 <= i < |rs| ==> rs[i].finish >= rs[i].task.arrival + rs[i].task.burst)
            ==> forall i :: 0 <= i < |rs| ==> m.records[i].wt >= 0
  {
    var records: seq<Measured> := [];
    var totalTat := 0;
    var totalWt := 0;
    var i := 0;
    while i < |rs|
      invariant i <= |rs| && |records| == i
      invariant forall j :: 0 <= j < i ==>
        records[j] == Measured(rs[j].task, rs[j].start, rs[j].finish, rs[j].finish,
                               rs[j].finish - rs[j].task.arrival,
                               rs[j].finish - rs[j].task.arrival - rs[j].task.burst)
      invariant totalTat == Sum(Turnarounds(rs)[..i])
      invariant totalWt == totalTat - Sum(Bursts(TasksOf(rs))[..i])
    {
      var t := rs[i].task;
      var ct := rs[i].finish;
      var tat := ct - t.arrival;
      var wt := tat - t.burst;
      records := records + [Measured(t, rs[i].start, rs[i].finish, ct, tat, wt)];
      assert Turnarounds(rs)[..i + 1][..i] == Turnarounds(rs)[..i];
      assert Bursts(TasksOf(rs))[..i + 1][..i] == Bursts(TasksOf(rs))[..i];
      totalTat := totalTat + tat;
      totalWt := totalWt + wt;
      i := i + 1;
    }
    assert Turnarounds(rs)[..i] == Turnarounds(rs);
    assert Bursts(TasksOf(rs))[..i] == Bursts(TasksOf(rs));
    var n := |rs| as real;
    m := Report(records, totalTat, totalWt, (totalTat as real) / n, (totalWt as real) / n, Utilisation(rs));
  }

  /** Positive bursts have a positive total. */
  lemma TotalBurstPositive(rs: seq<Scheduled>)
    requires |rs| > 0 && PositiveBursts(TasksOf(rs))
    ensures TotalBurst(rs) > 0
  {
    var b := Bursts(TasksOf(rs));
    SumZero(b);
    assert b[0] != 0;
  }

  /** When the work fits the span and every burst is positive, utilisation lies
      in (0, 100]. */
  lemma UtilisationInRange(rs: seq<Scheduled>)
    requires WorkFitsSpan(rs) && PositiveBursts(TasksOf(rs))
    ensures 0.0 < Utilisation(rs) <= 100.0
  {
    TotalBurstPositive(rs);
    var span := LatestFinish(rs) - EarliestArrival(rs);
    if span > 0 {
      var b := TotalBurst(rs) as real;
      var s := span as real;
      assert 0.0 < b <= s;
      assert 100.0 * b <= 100.0 * s;
      assert 100.0 * b / s <= 100.0 * s / s;
    }
  }
}
