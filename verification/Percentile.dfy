/**
The nearest-rank 95th percentile of a metric's samples: sort, then take the sample of rank ceiling of 19n/20.
*/
module Percentile {
  predicate Ordered(values: seq<real>) {
    forall i, k :: 0 <= i < k < |values| ==> values[i] <= values[k]
  }

  function Place(value: real, sorted: seq<real>): (k: nat)
    requires Ordered(sorted)
    ensures k <= |sorted|
    ensures forall i :: 0 <= i < |sorted| ==> (i < k <==> sorted[i] <= value)
  {
    if sorted == [] then 0
    else if sorted[|sorted| - 1] <= value then |sorted|
    else Place(value, sorted[..|sorted| - 1])
  }

  function Insert(value: real, sorted: seq<real>): (r: seq<real>)
    requires Ordered(sorted)
    ensures Ordered(r) && multiset(r) == multiset(sorted) + multiset{value}
  {
    var k := Place(value, sorted);
    assert sorted == sorted[..k] + sorted[k..];
    sorted[..k] + [value] + sorted[k..]
  }

  /** `sorted`. */
  function Sort(values: seq<real>): (r: seq<real>)
    ensures Ordered(r) && multiset(r) == multiset(values)
  {
    if values == [] then []
    else
      var n := |values| - 1;
      assert values == values[..n] + [values[n]];
      Insert(values[n], Sort(values[..n]))
  }

  function CeilDiv(a: nat, b: nat): nat
    requires b > 0
  {
    (a + b - 1) / b
  }

  function P95Index(n: nat): int {
    if CeilDiv(19 * n, 20) - 1 > 0 then CeilDiv(19 * n, 20) - 1 else 0
  }

  /** The index is always valid, and it is the least one with 95% of the samples at or before it. */
  lemma IndexIsTheLeastRank(n: nat)
    requires n > 0
    ensures 0 <= P95Index(n) < n
    ensures 20 * P95Index(n) < 19 * n <= 20 * (P95Index(n) + 1)
  {
  }

  function P95(values: seq<real>): real
    requires values != []
  {
    IndexIsTheLeastRank(|values|);
    SameLength(values, Sort(values));
    Sort(values)[P95Index(|values|)]
  }

  lemma SameLength(a: seq<real>, b: seq<real>)
    requires multiset(a) == multiset(b)
    ensures |a| == |b|
  {
    assert |multiset(a)| == |a| && |multiset(b)| == |b|;
  }

  // ---------------------------------------------------------------- nearest rank, without sorting

  /** How many samples are at most `v`, and how many are less. */
  function AtMost(values: seq<real>, v: real): nat {
    if values == [] then 0 else AtMost(values[..|values| - 1], v) + if values[|values| - 1] <= v then 1 else 0
  }

  function Less(values: seq<real>, v: real): nat {
    if values == [] then 0 else Less(values[..|values| - 1], v) + if values[|values| - 1] < v then 1 else 0
  }

  /** A sample that 95% of the samples do not exceed, while fewer than 95% are less. */
  predicate IsNearestRank95(values: seq<real>, v: real) {
    v in values && 20 * AtMost(values, v) >= 19 * |values| > 20 * Less(values, v)
  }

  lemma {:induction false} AtMostAtLeast(sorted: seq<real>, v: real, n: nat)
    requires Ordered(sorted) && n <= |sorted| && forall i :: 0 <= i < n ==> sorted[i] <= v
    ensures AtMost(sorted, v) >= n
  {
    if sorted != [] {
      var last := |sorted| - 1;
      AtMostAtLeast(sorted[..last], v, if n > last then last else n);
    }
  }

  lemma {:induction false} LessAtMost(sorted: seq<real>, v: real, n: nat)
    requires Ordered(sorted) && n <= |sorted| && forall i :: n <= i < |sorted| ==> sorted[i] >= v
    ensures Less(sorted, v) <= n
  {
    if sorted != [] {
      var last := |sorted| - 1;
      LessAtMost(sorted[..last], v, if n > last then last else n);
    }
  }

  lemma {:induction false} CountsSplit(a: seq<real>, b: seq<real>, v: real)
    ensures AtMost(a + b, v) == AtMost(a, v) + AtMost(b, v) && Less(a + b, v) == Less(a, v) + Less(b, v)
  {
    if b == [] {
      assert a + b == a;
    } else {
      var n := |b| - 1;
      assert (a + b)[..|a| + n] == a + b[..n];
      CountsSplit(a, b[..n], v);
    }
  }

  lemma TakeOneOut(a: seq<real>, b1: seq<real>, b2: seq<real>, x: real)
    requires multiset(a + [x]) == multiset(b1 + ([x] + b2))
    ensures multiset(a) == multiset(b1 + b2)
  {
    assert multiset(a) + multiset{x} == multiset(b1) + multiset{x} + multiset(b2);
    assert multiset(a) == multiset(a) + multiset{x} - multiset{x};
  }

  /** The counts do not depend on the order of the samples. */
  lemma {:induction false} CountsOfPermutation(a: seq<real>, b: seq<real>, v: real)
    requires multiset(a) == multiset(b)
    ensures AtMost(a, v) == AtMost(b, v) && Less(a, v) == Less(b, v)
    decreases |a|
  {
    SameLength(a, b);
    if a != [] {
      var n := |a| - 1;
      assert a == a[..n] + [a[n]];
      assert a[n] in multiset(b);
      var k :| 0 <= k < |b| && b[k] == a[n];
      var rest := b[..k] + b[k + 1..];
      assert b == b[..k] + ([b[k]] + b[k + 1..]);
      TakeOneOut(a[..n], b[..k], b[k + 1..], a[n]);
      CountsOfPermutation(a[..n], rest, v);
      CountsSplit(b[..k], b[k + 1..], v);
      CountsSplit(b[..k], [b[k]] + b[k + 1..], v);
      CountsSplit([b[k]], b[k + 1..], v);
    }
  }

  lemma SortedRank(values: seq<real>, sorted: seq<real>, k: nat)
    requires Ordered(sorted) && multiset(sorted) == multiset(values) && k < |sorted|
    requires 20 * k < 19 * |values| <= 20 * (k + 1)
    ensures IsNearestRank95(values, sorted[k])
  {
    var v := sorted[k];
    assert v in multiset(sorted);
    AtMostAtLeast(sorted, v, k + 1);
    LessAtMost(sorted, v, k);
    CountsOfPermutation(values, sorted, v);
  }

  lemma P95IsNearestRank(values: seq<real>)
    requires values != []
    ensures IsNearestRank95(values, P95(values))
  {
    var sorted, k := Sort(values), P95Index(|values|);
    IndexIsTheLeastRank(|values|);
    SameLength(values, sorted);
    hide P95Index, AtMost, Less, IsNearestRank95, Sort, Ordered;
    SortedRank(values, sorted, k);
  }

  lemma {:induction false} LessCoversAtMost(values: seq<real>, v: real, w: real)
    requires v < w
    ensures AtMost(values, v) <= Less(values, w)
  {
    if values != [] {
      LessCoversAtMost(values[..|values| - 1], v, w);
    }
  }

  /** Only one value is the nearest rank, so the percentile depends on the samples alone and not on their order. */
  lemma NearestRankIsUnique(a: seq<real>, b: seq<real>, v: real, w: real)
    requires multiset(a) == multiset(b) && IsNearestRank95(a, v) && IsNearestRank95(b, w)
    ensures v == w
  {
    SameLength(a, b);
    CountsOfPermutation(a, b, v);
    CountsOfPermutation(a, b, w);
    if v < w { LessCoversAtMost(a, v, w); }
    if w < v { LessCoversAtMost(a, w, v); }
  }

  lemma OrderDoesNotMatter(a: seq<real>, b: seq<real>)
    requires multiset(a) == multiset(b) && a != []
    ensures b != [] && P95(a) == P95(b)
  {
    SameLength(a, b);
    P95IsNearestRank(a);
    P95IsNearestRank(b);
    NearestRankIsUnique(a, b, P95(a), P95(b));
  }
}
