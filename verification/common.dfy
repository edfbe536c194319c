/** Integer helpers shared by the scheduling model: min/max, sums and counts
    over sequences, each with the facts the schedulers' proofs rely on. */
module Common {

  function Max(a: int, b: int): int { if a < b then b else a }

  function Min(a: int, b: int): int { if a < b then a else b }

  /** Sum of a sequence, accumulated from the back so that appending is one unfolding. */
  function Sum(xs: seq<int>): int
  {
    if |xs| == 0 then 0 else Sum(xs[..|xs| - 1]) + xs[|xs| - 1]
  }

  /** Replacing one element changes the sum by exactly the difference. */
  lemma {:induction false} SumUpdate(xs: seq<int>, i: nat, v: int)
    requires i < |xs|
    ensures Sum(xs[i := v]) == Sum(xs) - xs[i] + v
  {
    var last := |xs| - 1;
    if i == last {
      assert xs[i := v][..last] == xs[..last];
    } else {
      assert xs[i := v][..last] == xs[..last][i := v];
      SumUpdate(xs[..last], i, v);
    }
  }

  /** Sums are monotone in each element. */
  lemma {:induction false} SumMono(xs: seq<int>, ys: seq<int>)
    requires |xs| == |ys|
    requires forall i :: 0 <= i < |xs| ==> xs[i] <= ys[i]
    ensures Sum(xs) <= Sum(ys)
  {
    if |xs| > 0 {
      SumMono(xs[..|xs| - 1], ys[..|ys| - 1]);
    }
  }

  /** A sum of non-negative elements is zero exactly when every element is zero. */
  lemma {:induction false} SumZero(xs: seq<int>)
    requires forall i :: 0 <= i < |xs| ==> xs[i] >= 0
    ensures Sum(xs) >= 0
    ensures Sum(xs) == 0 <==> forall i :: 0 <= i < |xs| ==> xs[i] == 0
  {
    if |xs| > 0 {
      var init := xs[..|xs| - 1];
      SumZero(init);
      if Sum(xs) == 0 {
        forall i | 0 <= i < |xs| ensures xs[i] == 0 {
          if i < |xs| - 1 { assert xs[i] == init[i]; }
        }
      }
    }
  }

  /** A positive sum has a positive element. */
  lemma {:induction false} SumPositive(xs: seq<int>) returns (i: nat)
    requires Sum(xs) > 0
    ensures i < |xs| && xs[i] > 0
  {
    var last := |xs| - 1;
    if xs[last] > 0 {
      i := last;
    } else {
      i := SumPositive(xs[..last]);
    }
  }

  /** Number of occurrences of `v` in `xs`. */
  function Count<T(==)>(xs: seq<T>, v: T): (c: nat)
    ensures c <= |xs|
  {
    if |xs| == 0 then 0
    else Count(xs[..|xs| - 1], v) + (if xs[|xs| - 1] == v then 1 else 0)
  }

  /** Replacing one element moves the count by at most one, as expected. */
  lemma {:induction false} CountUpdate<T>(xs: seq<T>, i: nat, w: T, v: T)
    requires i < |xs|
    ensures Count(xs[i := w], v)
            == Count(xs, v) - (if xs[i] == v then 1 else 0) + (if w == v then 1 else 0)
  {
    var last := |xs| - 1;
    if i == last {
      assert xs[i := w][..last] == xs[..last];
    } else {
      assert xs[i := w][..last] == xs[..last][i := w];
      CountUpdate(xs[..last], i, w, v);
    }
  }

  /** A value that never occurs has count zero. */
  lemma {:induction false} CountNone<T>(xs: seq<T>, v: T)
    requires forall i :: 0 <= i < |xs| ==> xs[i] != v
    ensures Count(xs, v) == 0
  {
    if |xs| > 0 {
      CountNone(xs[..|xs| - 1], v);
    }
  }

  /** The count reaches the length exactly when every element is `v`. */
  lemma {:induction false} CountFull<T>(xs: seq<T>, v: T)
    ensures Count(xs, v) == |xs| <==> forall i :: 0 <= i < |xs| ==> xs[i] == v
  {
    if |xs| > 0 {
      var init := xs[..|xs| - 1];
      CountFull(init, v);
      assert forall i :: 0 <= i < |init| ==> init[i] == xs[i];
      if Count(xs, v) == |xs| {
        forall i | 0 <= i < |xs| ensures xs[i] == v {
          if i < |xs| - 1 { assert xs[i] == init[i]; }
        }
      }
    }
  }

  /** Least element of a non-empty sequence. */
  function MinOf(xs: seq<int>): (m: int)
    requires |xs| > 0
    ensures forall i :: 0 <= i < |xs| ==> m <= xs[i]
    ensures exists i :: 0 <= i < |xs| && xs[i] == m
  {
    if |xs| == 1 then xs[0]
    else
      var init := xs[..|xs| - 1];
      var m := MinOf(init);
      assert forall i :: 0 <= i < |init| ==> init[i] == xs[i];
      Min(m, xs[|xs| - 1])
  }

  /** Greatest element of a non-empty sequence. */
  function MaxOf(xs: seq<int>): (m: int)
    requires |xs| > 0
    ensures forall i :: 0 <= i < |xs| ==> xs[i] <= m
    ensures exists i :: 0 <= i < |xs| && xs[i] == m
  {
    if |xs| == 1 then xs[0]
    else
      var init := xs[..|xs| - 1];
      var m := MaxOf(init);
      assert forall i :: 0 <= i < |init| ==> init[i] == xs[i];
      Max(m, xs[|xs| - 1])
  }

  /** `p` lists each of the indices 0 .. n-1 exactly once. */
  predicate IsPermutation(p: seq<nat>, n: nat)
  {
    && |p| == n
    && (forall k :: 0 <= k < |p| ==> p[k] < n)
    && (forall a, b :: 0 <= a < b < |p| ==> p[a] != p[b])
    && (forall i :: 0 <= i < n ==> i in p)
  }
}
