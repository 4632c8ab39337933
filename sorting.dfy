/**
 * The sorting visualiser. A run copies the displayed array, sorts the copy in
 * place with bubble sort or Lomuto quick sort, and publishes every change to
 * the component's state: the array after each swap, the pair of indices being
 * compared, the indices already in their final place, and a progress value.
 * Each event handler is one atomic transition; the 300 ms pauses between
 * steps are not modelled.
 */
module Sorting {

  /** The four algorithm buttons. Only Bubble and Quick are wired to a sort. */
  datatype Algorithm = Bubble | Quick | Merge | Insertion

  /** The array shown at start-up and restored by Reset. */
  const DefaultArray: seq<int> := [64, 34, 25, 12, 22, 11, 90]

  /** How many values Randomize draws. */
  const RandomCount: nat := 7

  predicate Sorted(s: seq<int>) {
    forall i, j :: 0 <= i < j < |s| ==> s[i] <= s[j]
  }

  /** `s[lo..hi]` is in non-decreasing order. */
  ghost predicate SortedBetween(s: seq<int>, lo: int, hi: int)
    requires 0 <= lo && hi <= |s|
  {
    forall i, j :: lo <= i < j < hi ==> s[i] <= s[j]
  }

  /** Every value left of `m` is at most every value from `m` on. */
  ghost predicate SplitAt(s: seq<int>, m: int)
    requires 0 <= m <= |s|
  {
    forall a, b :: 0 <= a < m <= b < |s| ==> s[a] <= s[b]
  }

  /** `a` and `b` agree everywhere outside the index range `lo..hi` (inclusive). */
  ghost predicate SameOutside(a: seq<int>, b: seq<int>, lo: int, hi: int) {
    |a| == |b| && forall k :: 0 <= k < |a| && !(lo <= k <= hi) ==> a[k] == b[k]
  }

  /** The indices `0 .. n-1` in increasing order. */
  function Range(n: nat): seq<int> {
    seq(n, k => k)
  }

  /**
   * The indices bubble sort appends to the sorted set, in order: `n-1-i`
   * after each outer pass `i`, then a final `0`.
   */
  function BubbleMarks(n: nat): seq<int> {
    PassMarks(n, if n == 0 then 0 else n - 1) + [0]
  }

  /** The indices marked after the first `i` outer passes over `n` values. */
  function PassMarks(n: nat, i: nat): seq<int> {
    seq(i, k => n - 1 - k)
  }

  lemma PassMarksGrow(marks: seq<int>, n: nat, i: nat)
    ensures marks + PassMarks(n, i) + [n - 1 - i] == marks + PassMarks(n, i + 1)
  {
    assert PassMarks(n, i) + [n - 1 - i] == PassMarks(n, i + 1);
  }

  /** Bubble sort's progress after `steps` of `total` comparisons, in percent. */
  function Percent(steps: int, total: int): real
    requires total > 0
  {
    (100 * steps) as real / total as real
  }

  /** The component highlights the bars at `a` and `b`. */
  predicate Highlighted(currentIndices: seq<int>, a: int, b: int) {
    currentIndices == [a, b]
  }

  /** The component highlights the bars at `a` and `b` and shows the progress of `steps` out of `total`. */
  predicate Shown(currentIndices: seq<int>, progress: real, a: int, b: int, steps: int, total: int) {
    total > 0 && Highlighted(currentIndices, a, b) && progress == Percent(steps, total)
  }

  /** A finished count over a positive total is 100 percent. */
  lemma CompleteProgress(steps: int, total: int)
    requires steps == total > 0
    ensures Percent(steps, total) == 100.0
  {
    var t := total as real;
    assert (100 * steps) as real == 100.0 * t;
    assert 100.0 * t / t == 100.0;
  }

  /**
   * For a non-empty array, bubble sort marks every index exactly once; for
   * the empty array it still marks index 0.
   */
  lemma {:induction false} BubbleMarksCoverEachIndexOnce(n: nat)
    ensures n >= 1 ==> multiset(BubbleMarks(n)) == multiset(Range(n))
    ensures n == 0 ==> BubbleMarks(n) == [0]
  {
    if n >= 2 {
      BubbleMarksCoverEachIndexOnce(n - 1);
      assert PassMarks(n, n - 1) == [n - 1] + PassMarks(n - 1, n - 2);
      assert BubbleMarks(n) == [n - 1] + BubbleMarks(n - 1);
      assert Range(n) == Range(n - 1) + [n - 1];
    } else if n == 1 {
      assert BubbleMarks(1) == [0] == Range(1);
    }
  }

  /** The number of comparisons bubble sort makes: (n-1) + (n-2) + ... + 1. */
  function BubbleComparisons(n: nat): nat {
    if n == 0 then 0 else BubbleComparisons(n - 1) + (n - 1)
  }

  /** The closed form the component computes as its total step count. */
  lemma {:induction false} BubbleComparisonsClosedForm(n: nat)
    ensures 2 * BubbleComparisons(n) == n * (n - 1)
  {
    if n > 0 {
      BubbleComparisonsClosedForm(n - 1);
      assert (n - 1) * (n - 2) + 2 * (n - 1) == n * (n - 1);
    }
  }

  /** The value Randomize derives from one draw of `Math.random()`. */
  function DrawToValue(d: real): (v: int)
    requires 0.0 <= d < 1.0
    ensures 1 <= v <= 100
  {
    (d * 100.0).Floor + 1
  }

  /** Every value in 1..100 comes out of some draw in [0, 1). */
  lemma DrawToValueReachesEveryValue(v: int)
    requires 1 <= v <= 100
    ensures 0.0 <= (v - 1) as real / 100.0 < 1.0
    ensures DrawToValue((v - 1) as real / 100.0) == v
  {
    assert (v - 1) as real / 100.0 * 100.0 == (v - 1) as real;
  }

  /** The array Randomize installs: seven values in 1..100, one per draw. */
  function RandomArray(draws: seq<real>): (r: seq<int>)
    requires |draws| == RandomCount
    requires forall k :: 0 <= k < |draws| ==> 0.0 <= draws[k] < 1.0
    ensures |r| == RandomCount
    ensures forall k :: 0 <= k < |r| ==> 1 <= r[k] <= 100 && r[k] == DrawToValue(draws[k])
  {
    seq(RandomCount, k requires 0 <= k < RandomCount => DrawToValue(draws[k]))
  }

  /** Exchanges two elements of `a`; `i` and `j` may coincide. */
  method Swap(a: array<int>, i: int, j: int)
    requires 0 <= i < a.Length && 0 <= j < a.Length
    modifies a
    ensures a[..] == old(a[..])[i := old(a[j])][j := old(a[i])]
    ensures multiset(a[..]) == multiset(old(a[..]))
  {
    a[i], a[j] := a[j], a[i];
  }

  /** Two arrays that agree outside a range and hold the same values hold the same values inside it. */
  lemma PermutationInside(a: seq<int>, b: seq<int>, lo: int, hi: int)
    requires 0 <= lo <= hi + 1 <= |a|
    requires SameOutside(a, b, lo, hi) && multiset(a) == multiset(b)
    ensures multiset(a[lo..hi + 1]) == multiset(b[lo..hi + 1])
  {
    var left, right := a[..lo], a[hi + 1..];
    assert a == left + a[lo..hi + 1] + right;
    assert b[..lo] == left && b[hi + 1..] == right;
    assert b == left + b[lo..hi + 1] + right;
    MultisetCancel(multiset(left), multiset(a[lo..hi + 1]), multiset(b[lo..hi + 1]), multiset(right));
  }

  lemma MultisetCancel(l: multiset<int>, x: multiset<int>, y: multiset<int>, r: multiset<int>)
    requires l + x + r == l + y + r
    ensures x == y
  {
    forall v ensures x[v] == y[v] {
      assert (l + x + r)[v] == (l + y + r)[v];
    }
  }

  /** Permuting a range keeps a bound that held for every value in it. */
  lemma BoundsSurvivePermutation(a: seq<int>, b: seq<int>, lo: int, hi: int, pivot: int)
    requires 0 <= lo <= hi + 1 <= |a| == |b|
    requires multiset(a[lo..hi + 1]) == multiset(b[lo..hi + 1])
    ensures (forall k :: lo <= k <= hi ==> a[k] < pivot) ==> (forall k :: lo <= k <= hi ==> b[k] < pivot)
    ensures (forall k :: lo <= k <= hi ==> pivot <= a[k]) ==> (forall k :: lo <= k <= hi ==> pivot <= b[k])
  {
    forall k | lo <= k <= hi
      ensures exists k' :: lo <= k' <= hi && a[k'] == b[k]
    {
      assert b[k] == b[lo..hi + 1][k - lo];
      assert b[k] in multiset(a[lo..hi + 1]);
      var idx :| 0 <= idx < hi + 1 - lo && a[lo..hi + 1][idx] == b[k];
      assert a[lo + idx] == b[k];
    }
  }

  /**
   * Inside the partition loop over `orig[low..high]` with pivot `orig[high]`:
   * `s[low..i]` holds values below the pivot, `s[i+1..j-1]` values not
   * below it, and nothing outside the range has moved.
   */
  ghost predicate PartitionInvariant(s: seq<int>, orig: seq<int>, low: int, high: int, i: int, j: int, pivot: int) {
    && 0 <= low <= i + 1 <= j <= high < |s|
    && SameOutside(s, orig, low, high) && s[high] == orig[high] == pivot
    && (forall k :: low <= k <= i ==> s[k] < pivot)
    && (forall k :: i < k < j ==> pivot <= s[k])
  }

  /**
   * The outcome of partitioning `orig[low..high]`: the pivot `orig[high]`
   * sits at `p`, smaller values before it, the rest after it, and nothing
   * outside the range has moved.
   */
  ghost predicate PartitionedAt(s: seq<int>, orig: seq<int>, low: int, high: int, p: int) {
    && 0 <= low <= p <= high < |s|
    && SameOutside(s, orig, low, high) && s[p] == orig[high]
    && (forall k :: low <= k < p ==> s[k] < s[p])
    && (forall k :: p < k <= high ==> s[p] <= s[k])
  }

  /**
   * `t` is `s` after swapping `s[j]` to `i + 1` when it is below `pivot`,
   * and `i'` is the new end of the front part.
   */
  ghost predicate SmallerMoved(s: seq<int>, t: seq<int>, i: int, j: int, pivot: int, i': int) {
    && 0 <= i + 1 <= j < |s|
    && t == (if s[j] < pivot then s[i + 1 := s[j]][j := s[i + 1]] else s)
    && i' == if s[j] < pivot then i + 1 else i
  }

  /** One loop step: a value below the pivot is swapped to the front part. */
  lemma PartitionStep(s: seq<int>, t: seq<int>, orig: seq<int>, low: int, high: int, i: int, j: int, pivot: int, i': int)
    requires PartitionInvariant(s, orig, low, high, i, j, pivot) && j < high
    requires SmallerMoved(s, t, i, j, pivot, i')
    ensures PartitionInvariant(t, orig, low, high, i', j + 1, pivot)
  {
  }

  /** The closing swap puts the pivot between the two parts. */
  lemma PartitionEnd(s: seq<int>, t: seq<int>, orig: seq<int>, low: int, high: int, i: int, pivot: int)
    requires PartitionInvariant(s, orig, low, high, i, high, pivot)
    requires t == s[i + 1 := s[high]][high := s[i + 1]]
    ensures PartitionedAt(t, orig, low, high, i + 1)
  {
  }

  /**
   * `s` is `orig` with `orig[low..high]` (inclusive) sorted in place: sorted
   * there, a permutation of `orig`, and unchanged outside the range.
   */
  ghost predicate SortedRange(s: seq<int>, orig: seq<int>, low: int, high: int) {
    && 0 <= low <= high + 1 <= |s|
    && SortedBetween(s, low, high + 1) && SameOutside(s, orig, low, high) && multiset(s) == multiset(orig)
  }

  /** `marks` grows from `before` by appending indices that all lie in `low..high`. */
  ghost predicate MarksExtend(before: seq<int>, marks: seq<int>, low: int, high: int) {
    && |before| <= |marks| && marks[..|before|] == before
    && forall k :: |before| <= k < |marks| ==> low <= marks[k] <= high
  }

  /** A partition followed by sorting both sides sorts the whole range. */
  lemma QuickSortCombine(s0: seq<int>, s1: seq<int>, s2: seq<int>, s3: seq<int>, low: int, p: int, high: int)
    requires PartitionedAt(s1, s0, low, high, p) && multiset(s1) == multiset(s0)
    requires SortedRange(s2, s1, low, p - 1)
    requires SortedRange(s3, s2, p + 1, high)
    ensures SortedRange(s3, s0, low, high)
  {
    PermutationInside(s2, s1, low, p - 1);
    BoundsSurvivePermutation(s1, s2, low, p - 1, s1[p]);
    PermutationInside(s3, s2, p + 1, high);
    BoundsSurvivePermutation(s2, s3, p + 1, high, s1[p]);
    assert s3[p] == s1[p];
    SortedAroundPivot(s3, low, p, high);
  }

  /** The marks of a partition and of the two recursive calls extend the marks of the whole call. */
  lemma MarksCompose(m0: seq<int>, m1: seq<int>, m2: seq<int>, m3: seq<int>, low: int, p: int, high: int)
    requires low <= p <= high && m1 == m0 + [p]
    requires MarksExtend(m1, m2, low, p - 1) && MarksExtend(m2, m3, p + 1, high)
    ensures MarksExtend(m0, m3, low, high)
  {
    assert m3[..|m1|] == m2[..|m1|] == m1;
    assert m3[..|m0|] == m1[..|m0|] == m0;
  }

  /** Two sorted sides of a pivot that separates them form one sorted range. */
  lemma SortedAroundPivot(s: seq<int>, low: int, p: int, high: int)
    requires 0 <= low <= p <= high < |s|
    requires SortedBetween(s, low, p) && SortedBetween(s, p + 1, high + 1)
    requires forall k :: low <= k < p ==> s[k] < s[p]
    requires forall k :: p < k <= high ==> s[p] <= s[k]
    ensures SortedBetween(s, low, high + 1)
  {
  }

  /** The pairs one pass compares, in order: (0,1), (1,2), ..., (m-1,m). */
  function AdjacentPairs(m: nat): seq<(int, int)> {
    seq(m, k => (k, k + 1))
  }

  lemma AdjacentPairsGrow(before: seq<(int, int)>, m: nat)
    ensures before + AdjacentPairs(m) + [(m, m + 1)] == before + AdjacentPairs(m + 1)
  {
    assert AdjacentPairs(m) + [(m, m + 1)] == AdjacentPairs(m + 1);
  }

  /** The pairs highlighted during the first `i` outer passes over `n` values. */
  function PairsAfterPasses(n: nat, i: nat): seq<(int, int)>
    requires i <= n
  {
    if i == 0 then [] else PairsAfterPasses(n, i - 1) + AdjacentPairs(n - i)
  }

  /** Every pair bubble sort highlights, in the order it highlights them. */
  function BubblePairs(n: nat): seq<(int, int)> {
    PairsAfterPasses(n, if n == 0 then 0 else n - 1)
  }

  lemma {:induction false} PairsAfterPassesShape(n: nat, i: nat)
    requires i <= n
    ensures |PairsAfterPasses(n, i)| + BubbleComparisons(n - i) == BubbleComparisons(n)
    ensures forall k :: 0 <= k < |PairsAfterPasses(n, i)| ==>
              var (a, b) := PairsAfterPasses(n, i)[k]; 0 <= a && b == a + 1 < n
  {
    if i > 0 {
      PairsAfterPassesShape(n, i - 1);
      var before := PairsAfterPasses(n, i - 1);
      assert PairsAfterPasses(n, i) == before + AdjacentPairs(n - i);
      assert BubbleComparisons(n - i + 1) == BubbleComparisons(n - i) + (n - i);
      forall k | |before| <= k < |PairsAfterPasses(n, i)|
        ensures var (a, b) := PairsAfterPasses(n, i)[k]; 0 <= a && b == a + 1 < n
      {
        assert PairsAfterPasses(n, i)[k] == AdjacentPairs(n - i)[k - |before|];
      }
    }
  }

  /**
   * Bubble sort highlights exactly n(n-1)/2 pairs, each two neighbouring
   * indices inside the array. There are some exactly when there are at
   * least two values, and the last one compared is always (0, 1).
   */
  lemma BubblePairsShape(n: nat)
    ensures |BubblePairs(n)| == BubbleComparisons(n)
    ensures forall k :: 0 <= k < |BubblePairs(n)| ==>
              var (a, b) := BubblePairs(n)[k]; 0 <= a && b == a + 1 < n
    ensures BubblePairs(n) != [] <==> n >= 2
    ensures n >= 2 ==> BubblePairs(n)[|BubblePairs(n)| - 1] == (0, 1)
  {
    PairsAfterPassesShape(n, if n == 0 then 0 else n - 1);
    if n >= 2 {
      assert BubblePairs(n) == PairsAfterPasses(n, n - 2) + AdjacentPairs(1);
    }
  }

  /** Once every outer pass is done, the whole array is sorted. */
  lemma PassesSort(s: seq<int>)
    requires |s| >= 1 && TopSorted(s, |s| - 1)
    ensures Sorted(s)
  {
  }

  /** After `i` outer passes the last `i` values are sorted and are the largest. */
  ghost predicate TopSorted(s: seq<int>, i: int) {
    0 <= i <= |s| && SortedBetween(s, |s| - i, |s|) && SplitAt(s, |s| - i)
  }

  /**
   * Inside outer pass `i`, before comparing at `j`: the last `i` values are
   * sorted and are the largest, and `s[j]` is the largest of `s[0..j+1]`.
   */
  ghost predicate PassInvariant(s: seq<int>, i: int, j: int) {
    && 0 <= i < |s| - 1 && 0 <= j <= |s| - i - 1
    && TopSorted(s, i)
    && (forall a :: 0 <= a < j ==> s[a] <= s[j])
  }

  /** `t` is `s` after comparing `s[j]` with `s[j+1]` and swapping them when out of order. */
  ghost predicate CompareSwapped(s: seq<int>, t: seq<int>, j: int) {
    0 <= j < |s| - 1 && t == if s[j] > s[j + 1] then s[j := s[j + 1]][j + 1 := s[j]] else s
  }

  /** One compare-and-swap at `j` moves the running maximum to `j + 1`. */
  lemma BubbleStep(s: seq<int>, t: seq<int>, i: int, j: int)
    requires PassInvariant(s, i, j) && j < |s| - i - 1
    requires CompareSwapped(s, t, j)
    ensures PassInvariant(t, i, j + 1)
  {
  }

  /** A finished pass leaves one more sorted, largest value at the end. */
  lemma PassEnd(s: seq<int>, i: int)
    requires PassInvariant(s, i, |s| - i - 1)
    ensures TopSorted(s, i + 1)
  {
  }

  class SortingTab {
    var selectedAlgo: Algorithm
    /** The `array` state: the values the bars show. */
    var values: seq<int>
    var sorting: bool
    var currentIndices: seq<int>
    var sortedIndices: seq<int>
    var progress: real

    constructor ()
      ensures selectedAlgo == Bubble && values == DefaultArray && !sorting
      ensures currentIndices == [] && sortedIndices == [] && progress == 0.0
    {
      selectedAlgo := Bubble;
      values := DefaultArray;
      sorting := false;
      currentIndices := [];
      sortedIndices := [];
      progress := 0.0;
    }

    /** An algorithm button; the buttons are disabled while a run is active. */
    method SelectAlgorithm(algo: Algorithm)
      modifies this`selectedAlgo
      ensures selectedAlgo == if old(sorting) then old(selectedAlgo) else algo
    {
      if !sorting {
        selectedAlgo := algo;
      }
    }

    /**
     * Bubble sort on a copy of the array. The ghost result is the sequence
     * of index pairs it highlights; since it makes exactly as many
     * comparisons as it planned, progress ends at 100.
     */
    method BubbleSort() returns (ghost pairs: seq<(int, int)>)
      modifies this`values, this`currentIndices, this`sortedIndices, this`progress
      ensures |values| == |old(values)| && Sorted(values) && multiset(values) == multiset(old(values))
      ensures sortedIndices == old(sortedIndices) + BubbleMarks(|old(values)|)
      ensures pairs == BubblePairs(|old(values)|)
      ensures |values| < 2 ==> currentIndices == old(currentIndices) && progress == old(progress)
      ensures |values| >= 2 ==> currentIndices == [0, 1] && progress == 100.0
    {
      var start := values;
      var arr := new int[|start|](k requires 0 <= k < |start| => start[k]);
      assert arr[..] == start;
      var n := arr.Length;
      BubbleComparisonsClosedForm(n);
      var totalSteps := n * (n - 1) / 2;
      BubblePairsShape(n);
      if n >= 2 {
        assert BubbleComparisons(n) >= BubbleComparisons(n - 1) + 1;
        var currentStep;
        currentStep, pairs := BubblePasses(arr, totalSteps);
        CompleteProgress(currentStep, totalSteps);
      } else {
        pairs := [];
        assert Sorted(values);
      }
      sortedIndices := sortedIndices + [0];
    }

    /**
     * The outer loop of bubble sort over at least two values: after pass `i`
     * the index `n-1-i` is marked sorted.
     */
    method BubblePasses(arr: array<int>, totalSteps: int) returns (currentStep: int, ghost pairs: seq<(int, int)>)
      requires arr.Length >= 2 && totalSteps >= 1 && values == arr[..]
      modifies this`values, this`currentIndices, this`sortedIndices, this`progress, arr
      ensures values == arr[..] && Sorted(values) && multiset(values) == multiset(old(values))
      ensures sortedIndices == old(sortedIndices) + PassMarks(arr.Length, arr.Length - 1)
      ensures pairs == PairsAfterPasses(arr.Length, arr.Length - 1) && currentStep == |pairs|
      ensures Shown(currentIndices, progress, 0, 1, currentStep, totalSteps)
    {
      var n := arr.Length;
      ghost var orig, marks := values, sortedIndices;
      currentStep := 0;
      pairs := [];
      var i := 0;
      assert marks + PassMarks(n, 0) == sortedIndices;
      while i < n - 1
        invariant 0 <= i <= n - 1
        invariant values == arr[..] && multiset(values) == multiset(orig)
        invariant TopSorted(values, i)
        invariant sortedIndices == marks + PassMarks(n, i)
        invariant pairs == PairsAfterPasses(n, i) && currentStep == |pairs|
        invariant i > 0 ==> Shown(currentIndices, progress, n - i - 1, n - i, currentStep, totalSteps)
      {
        currentStep, pairs := BubblePass(arr, i, totalSteps, currentStep, pairs);
        sortedIndices := sortedIndices + [n - 1 - i];
        PassMarksGrow(marks, n, i);
        i := i + 1;
      }
      PassesSort(values);
    }

    /**
     * Outer pass `i` of bubble sort (its inner loop over `j`): compares each
     * neighbouring pair in `arr[0..n-1-i]`, swapping it when out of order, so
     * that the largest value there ends at `n-1-i`.
     */
    method BubblePass(arr: array<int>, i: int, totalSteps: int, stepsIn: int, ghost pairsIn: seq<(int, int)>)
      returns (currentStep: int, ghost pairs: seq<(int, int)>)
      requires 0 <= i < arr.Length - 1
      requires stepsIn == |pairsIn| && totalSteps > 0
      requires values == arr[..]
      requires TopSorted(values, i)
      modifies this`values, this`currentIndices, this`progress, arr
      ensures values == arr[..] && multiset(values) == multiset(old(values))
      ensures TopSorted(values, i + 1)
      ensures pairs == pairsIn + AdjacentPairs(arr.Length - i - 1) && currentStep == |pairs|
      ensures Shown(currentIndices, progress, arr.Length - i - 2, arr.Length - i - 1, currentStep, totalSteps)
    {
      var n := arr.Length;
      ghost var orig := values;
      currentStep, pairs := stepsIn, pairsIn;
      var j := 0;
      while j < n - i - 1
        invariant 0 <= j <= n - i - 1
        invariant values == arr[..] && multiset(values) == multiset(orig)
        invariant PassInvariant(values, i, j)
        invariant pairs == pairsIn + AdjacentPairs(j) && currentStep == |pairs|
        invariant j > 0 ==> Shown(currentIndices, progress, j - 1, j, currentStep, totalSteps)
      {
        ghost var before := values;
        currentStep := CompareStep(arr, j, totalSteps, currentStep);
        pairs := pairs + [(j, j + 1)];
        AdjacentPairsGrow(pairsIn, j);
        BubbleStep(before, values, i, j);
        j := j + 1;
      }
      PassEnd(values, i);
    }

    /**
     * One comparison of bubble sort: highlights `j` and `j+1`, swaps them
     * when they are out of order, and counts the step in the progress.
     */
    method CompareStep(arr: array<int>, j: int, totalSteps: int, stepsIn: int) returns (currentStep: int)
      requires 0 <= j < arr.Length - 1 && totalSteps > 0
      requires values == arr[..]
      modifies this`values, this`currentIndices, this`progress, arr
      ensures values == arr[..] && multiset(values) == multiset(old(values))
      ensures CompareSwapped(old(values), values, j)
      ensures currentStep == stepsIn + 1 && Shown(currentIndices, progress, j, j + 1, currentStep, totalSteps)
    {
      currentIndices := [j, j + 1];
      if arr[j] > arr[j + 1] {
        Swap(arr, j, j + 1);
        values := arr[..];
      }
      currentStep := stepsIn + 1;
      progress := Percent(currentStep, totalSteps);
    }

    /**
     * Lomuto partition of `arr[low..high]` around the pivot `arr[high]`:
     * returns the pivot's final index `p`; values before it are smaller,
     * values after it are not, and nothing outside the range moves.
     */
    method Partition(arr: array<int>, low: int, high: int) returns (p: int)
      requires 0 <= low < high < arr.Length
      requires values == arr[..]
      modifies this`values, this`currentIndices, this`sortedIndices, arr
      ensures PartitionedAt(arr[..], old(arr[..]), low, high, p)
      ensures multiset(arr[..]) == multiset(old(arr[..]))
      ensures values == arr[..]
      ensures sortedIndices == old(sortedIndices) + [p]
      ensures currentIndices == [high - 1, high]
    {
      var i, pivot := PartitionScan(arr, low, high);
      ghost var before := values;
      Swap(arr, i + 1, high);
      values := arr[..];
      PartitionEnd(before, values, old(values), low, high, i, pivot);
      sortedIndices := sortedIndices + [i + 1];
      p := i + 1;
    }

    /**
     * The loop of the partition: scans `arr[low..high-1]` and swaps every
     * value below the pivot `arr[high]` to the front, returning the last
     * index of that front part.
     */
    method PartitionScan(arr: array<int>, low: int, high: int) returns (i: int, pivot: int)
      requires 0 <= low < high < arr.Length
      requires values == arr[..]
      modifies this`values, this`currentIndices, arr
      ensures PartitionInvariant(values, old(values), low, high, i, high, pivot)
      ensures values == arr[..] && multiset(values) == multiset(old(values))
      ensures currentIndices == [high - 1, high]
    {
      ghost var orig := values;
      pivot := arr[high];
      i := low - 1;
      var j := low;
      while j < high
        invariant PartitionInvariant(values, orig, low, high, i, j, pivot)
        invariant values == arr[..] && multiset(values) == multiset(orig)
        invariant j > low ==> Highlighted(currentIndices, j - 1, high)
      {
        ghost var before, i0 := values, i;
        i := ScanStep(arr, i, j, high, pivot);
        PartitionStep(before, values, orig, low, high, i0, j, pivot, i);
        j := j + 1;
      }
    }

    /**
     * One step of the partition scan: highlights `j` against the pivot at
     * `high`, and swaps a value below the pivot to just after the front part.
     */
    method ScanStep(arr: array<int>, i: int, j: int, high: int, pivot: int) returns (i': int)
      requires 0 <= i + 1 <= j < arr.Length
      requires values == arr[..]
      modifies this`values, this`currentIndices, arr
      ensures values == arr[..] && multiset(values) == multiset(old(values))
      ensures SmallerMoved(old(values), values, i, j, pivot, i')
      ensures Highlighted(currentIndices, j, high)
    {
      currentIndices := [j, high];
      i' := i;
      if arr[j] < pivot {
        i' := i + 1;
        Swap(arr, i', j);
        values := arr[..];
      }
    }

    /** Quick sort of `arr[low..high]` (inclusive bounds; an empty or one-element range is left alone). */
    method QuickSortHelper(arr: array<int>, low: int, high: int)
      requires 0 <= low <= high + 1 <= arr.Length
      requires values == arr[..]
      modifies this`values, this`currentIndices, this`sortedIndices, arr
      ensures values == arr[..]
      ensures SortedRange(arr[..], old(arr[..]), low, high)
      ensures MarksExtend(old(sortedIndices), sortedIndices, low, high)
      decreases high - low
    {
      ghost var s0, marks0 := arr[..], sortedIndices;
      if low < high {
        var p := Partition(arr, low, high);
        ghost var s1, marks1 := arr[..], sortedIndices;
        QuickSortHelper(arr, low, p - 1);
        ghost var s2, marks2 := arr[..], sortedIndices;
        QuickSortHelper(arr, p + 1, high);
        QuickSortCombine(s0, s1, s2, arr[..], low, p, high);
        MarksCompose(marks0, marks1, marks2, sortedIndices, low, p, high);
      } else {
        assert MarksExtend(marks0, sortedIndices, low, high) by {
          assert sortedIndices[..|marks0|] == marks0;
        }
      }
    }

    /** Quick sort on a copy of `values`; afterwards every index is marked sorted. */
    method QuickSort()
      modifies this`values, this`currentIndices, this`sortedIndices
      ensures |values| == |old(values)| && Sorted(values) && multiset(values) == multiset(old(values))
      ensures sortedIndices == Range(|old(values)|)
    {
      var start := values;
      var arr := new int[|start|](k requires 0 <= k < |start| => start[k]);
      assert arr[..] == start;
      QuickSortHelper(arr, 0, arr.Length - 1);
      assert Sorted(arr[..]);
      sortedIndices := Range(arr.Length);
    }

    /**
     * The Start button: clears the highlights, runs the selected algorithm
     * (Merge and Insertion have no stepping and leave the values as it is),
     * then clears the comparison highlight, sets progress to 100 and ends
     * the run. Disabled while a run is active.
     */
    method StartSort()
      modifies this
      ensures old(sorting) ==> unchanged(this)
      ensures !old(sorting) ==> !sorting && selectedAlgo == old(selectedAlgo)
      ensures !old(sorting) ==> currentIndices == [] && progress == 100.0
      ensures !old(sorting) && (selectedAlgo == Bubble || selectedAlgo == Quick) ==>
                |values| == |old(values)| && Sorted(values) && multiset(values) == multiset(old(values))
      ensures !old(sorting) && selectedAlgo == Bubble ==> sortedIndices == BubbleMarks(|old(values)|)
      ensures !old(sorting) && selectedAlgo == Quick ==> sortedIndices == Range(|old(values)|)
      ensures !old(sorting) && (selectedAlgo == Merge || selectedAlgo == Insertion) ==>
                values == old(values) && sortedIndices == []
    {
      if sorting {
        return;
      }
      sorting := true;
      currentIndices := [];
      sortedIndices := [];
      progress := 0.0;
      if selectedAlgo == Bubble {
        var pairs := BubbleSort();
      } else if selectedAlgo == Quick {
        QuickSort();
      }
      currentIndices := [];
      progress := 100.0;
      sorting := false;
    }

    /** The Reset button: the default values back, highlights and progress cleared. Disabled while a run is active. */
    method ResetArray()
      modifies this`values, this`currentIndices, this`sortedIndices, this`progress
      ensures old(sorting) ==> unchanged(this)
      ensures !old(sorting) ==> values == DefaultArray && currentIndices == [] && sortedIndices == [] && progress == 0.0
    {
      if !sorting {
        values := DefaultArray;
        currentIndices := [];
        sortedIndices := [];
        progress := 0.0;
      }
    }

    /**
     * The Randomize button, given the seven `Math.random()` draws: seven
     * fresh values in 1..100, highlights and progress cleared. Disabled while
     * a run is active.
     */
    method RandomizeArray(draws: seq<real>)
      requires |draws| == RandomCount
      requires forall k :: 0 <= k < |draws| ==> 0.0 <= draws[k] < 1.0
      modifies this`values, this`currentIndices, this`sortedIndices, this`progress
      ensures old(sorting) ==> unchanged(this)
      ensures !old(sorting) ==> values == RandomArray(draws) && currentIndices == [] && sortedIndices == [] && progress == 0.0
      ensures !old(sorting) ==> |values| == RandomCount && forall k :: 0 <= k < |values| ==> 1 <= values[k] <= 100
    {
      if !sorting {
        values := RandomArray(draws);
        currentIndices := [];
        sortedIndices := [];
        progress := 0.0;
      }
    }
  }
}
