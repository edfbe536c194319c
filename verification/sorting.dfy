/** Python's `sorted` as the schedulers use it: a stable sort by a key, returned
    here as the permutation of input indices it applies. Stability makes the
    order a strict total order on (key, index), so the result is unique. */
module Sorting {
  import opened Common
  import opened Tasks

  /** The keys scheduler.py sorts by: `arrival` (FCFS, Priority) or the pair
      `(arrival, burst)` compared lexicographically (SJF). */
  datatype SortKey = ByArrival | ByArrivalThenBurst

  predicate KeyLess(k: SortKey, a: Task, b: Task)
  {
    match k
    case ByArrival => a.arrival < b.arrival
    case ByArrivalThenBurst => a.arrival < b.arrival || (a.arrival == b.arrival && a.burst < b.burst)
  }

  /** Index `i` comes before index `j` in a stable sort of `ts`. */
  predicate Precedes(k: SortKey, ts: seq<Task>, i: nat, j: nat)
    requires i < |ts| && j < |ts|
  {
    KeyLess(k, ts[i], ts[j]) || (!KeyLess(k, ts[j], ts[i]) && i < j)
  }

  predicate InRange(ts: seq<Task>, order: seq<nat>)
  {
    forall a :: 0 <= a < |order| ==> order[a] < |ts|
  }

  predicate StrictlySorted(k: SortKey, ts: seq<Task>, order: seq<nat>)
    requires InRange(ts, order)
  {
    forall a, b :: 0 <= a < b < |order| ==> Precedes(k, ts, order[a], order[b])
  }

  /** `order` lists every index of `ts` once, in stable key order. */
  predicate IsStableOrder(k: SortKey, ts: seq<Task>, order: seq<nat>)
  {
    && |order| == |ts|
    && InRange(ts, order)
    && (forall i :: 0 <= i < |ts| ==> i in order)
    && StrictlySorted(k, ts, order)
  }

  lemma PrecedesOrder(k: SortKey, ts: seq<Task>, i: nat, j: nat, l: nat)
    requires i < |ts| && j < |ts| && l < |ts|
    ensures !Precedes(k, ts, i, i)
    ensures i != j ==> Precedes(k, ts, i, j) || Precedes(k, ts, j, i)
    ensures Precedes(k, ts, i, j) && Precedes(k, ts, j, l) ==> Precedes(k, ts, i, l)
  {
  }

  /** Inserts `m`, larger than every index already placed, after all indices whose
      key is not greater than its own: the stable position. */
  function Insert(k: SortKey, ts: seq<Task>, order: seq<nat>, m: nat): (r: seq<nat>)
    requires m < |ts| && InRange(ts, order)
    requires forall a :: 0 <= a < |order| ==> order[a] < m
    requires StrictlySorted(k, ts, order)
    ensures |r| == |order| + 1 && InRange(ts, r)
    ensures forall x :: x in r <==> x in order || x == m
    ensures StrictlySorted(k, ts, r)
  {
    if |order| == 0 then
      [m]
    else if KeyLess(k, ts[m], ts[order[0]]) then
      forall b | 0 <= b < |order| ensures Precedes(k, ts, m, order[b]) {
        if b > 0 { PrecedesOrder(k, ts, m, order[0], order[b]); }
      }
      [m] + order
    else
      var rest := Insert(k, ts, order[1..], m);
      forall b | 0 <= b < |rest| ensures Precedes(k, ts, order[0], rest[b]) {
        if rest[b] != m {
          assert rest[b] in order[1..];
          var c :| 0 <= c < |order[1..]| && order[1..][c] == rest[b];
          assert order[c + 1] == rest[b];
        }
      }
      var r := [order[0]] + rest;
      assert forall a, b :: 0 < a < b < |r| ==> r[a] == rest[a - 1] && r[b] == rest[b - 1];
      r
  }

  /** Stable order of the first `m` indices. */
  function SortPrefix(k: SortKey, ts: seq<Task>, m: nat): (r: seq<nat>)
    requires m <= |ts|
    ensures |r| == m && InRange(ts, r)
    ensures forall x :: x in r <==> 0 <= x < m
    ensures StrictlySorted(k, ts, r)
  {
    if m == 0 then
      []
    else
      var prev := SortPrefix(k, ts, m - 1);
      assert forall a :: 0 <= a < |prev| ==> prev[a] in prev;
      Insert(k, ts, prev, m - 1)
  }

  /** The permutation `sorted(ts, key=k)` applies: position `a` of the sorted list
      holds `ts[SortOrder(k, ts)[a]]`. */
  function SortOrder(k: SortKey, ts: seq<Task>): (r: seq<nat>)
    ensures IsStableOrder(k, ts, r)
  {
    SortPrefix(k, ts, |ts|)
  }

  /** The sorted list itself. */
  function SortTasks(k: SortKey, ts: seq<Task>): (r: seq<Task>)
    ensures |r| == |ts|
    ensures forall a :: 0 <= a < |r| ==> r[a] == ts[SortOrder(k, ts)[a]]
  {
    var order := SortOrder(k, ts);
    seq(|ts|, a requires 0 <= a < |ts| => ts[order[a]])
  }

  /** The head of a strictly sorted index sequence precedes every other member. */
  lemma HeadFirst(k: SortKey, ts: seq<Task>, o: seq<nat>)
    requires InRange(ts, o) && StrictlySorted(k, ts, o) && |o| > 0
    ensures forall x :: x in o && x != o[0] ==> Precedes(k, ts, o[0], x)
  {
    forall x | x in o && x != o[0] ensures Precedes(k, ts, o[0], x) {
      var p :| 0 <= p < |o| && o[p] == x;
    }
  }

  /** In a strictly sorted sequence the tail holds every member except the head. */
  lemma TailMember(k: SortKey, ts: seq<Task>, o: seq<nat>, x: nat)
    requires InRange(ts, o) && StrictlySorted(k, ts, o) && |o| > 0
    ensures x in o[1..] <==> x in o && x != o[0]
  {
    assert o == [o[0]] + o[1..];
    if x in o[1..] {
      var p :| 0 <= p < |o[1..]| && o[1..][p] == x;
      assert Precedes(k, ts, o[0], o[p + 1]);
      PrecedesOrder(k, ts, o[0], x, x);
    }
  }

  lemma HeadIsMember(o: seq<nat>)
    ensures |o| == 0 || o[0] in o
  {
  }

  /** Two index sequences, strictly sorted by the same stable order and holding
      the same indices, are equal. */
  lemma {:induction false} SortedUnique(k: SortKey, ts: seq<Task>, o1: seq<nat>, o2: seq<nat>)
    requires InRange(ts, o1) && InRange(ts, o2)
    requires StrictlySorted(k, ts, o1) && StrictlySorted(k, ts, o2)
    requires forall x :: x in o1 <==> x in o2
    ensures o1 == o2
  {
    if |o1| == 0 {
      HeadIsMember(o2);
    } else {
      assert o1[0] in o2;
      var h1, h2 := o1[0], o2[0];
      HeadFirst(k, ts, o1);
      HeadFirst(k, ts, o2);
      PrecedesOrder(k, ts, h1, h2, h1);
      assert h1 == h2;
      assert o1 == [h1] + o1[1..];
      assert o2 == [h2] + o2[1..];
      forall x: nat ensures x in o1[1..] <==> x in o2[1..] {
        TailMember(k, ts, o1, x);
        TailMember(k, ts, o2, x);
      }
      SortedUnique(k, ts, o1[1..], o2[1..]);
    }
  }

  /** `SortOrder` is the only stable order: any permutation that lists every index
      once in (key, index) order is exactly the one `sorted` applies. */
  lemma StableOrderUnique(k: SortKey, ts: seq<Task>, order: seq<nat>)
    requires IsStableOrder(k, ts, order)
    ensures order == SortOrder(k, ts)
  {
    var s := SortOrder(k, ts);
    forall x ensures x in order <==> x in s {
      if x in order {
        var a :| 0 <= a < |order| && order[a] == x;
      }
      if x in s {
        var a :| 0 <= a < |s| && s[a] == x;
      }
    }
    SortedUnique(k, ts, order, s);
  }

  /** A stable sort order lists every index exactly once. */
  lemma StableOrderPermutation(k: SortKey, ts: seq<Task>, order: seq<nat>)
    requires IsStableOrder(k, ts, order)
    ensures IsPermutation(order, |ts|)
  {
    forall a, b | 0 <= a < b < |order| ensures order[a] != order[b] {
      PrecedesOrder(k, ts, order[a], order[b], order[b]);
    }
  }
}
