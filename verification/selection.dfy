/** The tie-break rule shared by SJF, Priority, SRTF and the idle-time jump:
    a left-to-right scan that keeps the current best and replaces it only on a
    strictly smaller key, so the lowest-indexed minimum wins. */
module Selection {

  /** `i` is an eligible index whose key is minimal among eligible indices, and
      every eligible index before it has a strictly larger key. */
  predicate IsFirstMin(keys: seq<int>, eligible: seq<bool>, i: int)
    requires |keys| == |eligible|
  {
    && 0 <= i < |keys|
    && eligible[i]
    && (forall j :: 0 <= j < |keys| && eligible[j] ==> keys[i] <= keys[j])
    && (forall j :: 0 <= j < i && eligible[j] ==> keys[i] < keys[j])
  }

  predicate NoneEligible(eligible: seq<bool>)
  {
    forall j :: 0 <= j < |eligible| ==> !eligible[j]
  }

  /** `best` is the first minimum among the eligible indices below `upto`, or -1 if none. */
  predicate BestSoFar(keys: seq<int>, eligible: seq<bool>, upto: nat, best: int)
    requires |keys| == |eligible| && upto <= |keys|
  {
    if best == -1 then NoneEligible(eligible[..upto])
    else IsFirstMin(keys[..upto], eligible[..upto], best)
  }

  /** The scan from index `i` onwards, carrying the best index found so far. */
  function ScanFrom(keys: seq<int>, eligible: seq<bool>, i: nat, best: int): (r: int)
    requires |keys| == |eligible| && i <= |keys|
    requires BestSoFar(keys, eligible, i, best)
    ensures BestSoFar(keys, eligible, |keys|, r)
    decreases |keys| - i
  {
    if i == |keys| then
      best
    else
      var next := if eligible[i] && (best == -1 || keys[i] < keys[best]) then i else best;
      assert keys[..i + 1][..i] == keys[..i];
      assert eligible[..i + 1][..i] == eligible[..i];
      ScanFrom(keys, eligible, i + 1, next)
  }

  /** Index of the first minimum among eligible indices, or -1 when nothing is eligible. */
  function FirstMin(keys: seq<int>, eligible: seq<bool>): (r: int)
    requires |keys| == |eligible|
    ensures r == -1 <==> NoneEligible(eligible)
    ensures r != -1 ==> IsFirstMin(keys, eligible, r)
  {
    var r := ScanFrom(keys, eligible, 0, -1);
    assert keys[..|keys|] == keys && eligible[..|eligible|] == eligible;
    r
  }

  /** The rule picks at most one index: the selection is deterministic. */
  lemma FirstMinUnique(keys: seq<int>, eligible: seq<bool>, i: int, j: int)
    requires |keys| == |eligible|
    requires IsFirstMin(keys, eligible, i) && IsFirstMin(keys, eligible, j)
    ensures i == j
  {
  }
}
