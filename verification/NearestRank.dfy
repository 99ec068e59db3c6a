/**
  The two nearest-rank percentiles of the benchmark reports, over exact reals. One takes a
  fraction and rounds the samples first, the other a percentage and rounds what it picked.
  How they round is a parameter; all that is assumed is that it never reverses an order.
  */
module NearestRank {
  import opened Basics

  function Ceil(x: real): int { -((-x).Floor) }

  function Max(a: int, b: int): int { if a < b then b else a }

  function Min(a: int, b: int): int { if a < b then a else b }

  // ----- Sorting ----------------------------------------------------------------------

  function Insert(x: real, xs: seq<real>): seq<real> {
    if xs == [] || x <= xs[0] then [x] + xs else [xs[0]] + Insert(x, xs[1..])
  }

  function Sort(xs: seq<real>): (r: seq<real>)
    ensures |r| == |xs|
  {
    if xs == [] then []
    else
      InsertLength(xs[0], Sort(xs[1..]));
      Insert(xs[0], Sort(xs[1..]))
  }

  ghost predicate Sorted(xs: seq<real>) { forall i, j :: 0 <= i <= j < |xs| ==> xs[i] <= xs[j] }

  lemma {:induction false} InsertLength(x: real, xs: seq<real>)
    ensures |Insert(x, xs)| == |xs| + 1 && multiset(Insert(x, xs)) == multiset(xs) + multiset{x}
  {
    if xs != [] {
      assert xs == [xs[0]] + xs[1..];
      InsertLength(x, xs[1..]);
    }
  }

  lemma {:induction false} InsertAtLeast(low: real, x: real, xs: seq<real>)
    requires low <= x && forall i :: 0 <= i < |xs| ==> low <= xs[i]
    ensures forall i :: 0 <= i < |Insert(x, xs)| ==> low <= Insert(x, xs)[i]
  {
    if xs != [] && x > xs[0] { InsertAtLeast(low, x, xs[1..]); }
  }

  lemma PrependIsSorted(low: real, xs: seq<real>)
    requires Sorted(xs) && forall i :: 0 <= i < |xs| ==> low <= xs[i]
    ensures Sorted([low] + xs)
  {
  }

  lemma {:induction false} InsertIsSorted(x: real, xs: seq<real>)
    requires Sorted(xs)
    ensures Sorted(Insert(x, xs))
  {
    if xs == [] || x <= xs[0] {
      PrependIsSorted(x, xs);
    } else {
      InsertIsSorted(x, xs[1..]);
      InsertAtLeast(xs[0], x, xs[1..]);
      PrependIsSorted(xs[0], Insert(x, xs[1..]));
    }
  }

  lemma {:induction false} SortIsSorted(xs: seq<real>)
    ensures Sorted(Sort(xs)) && multiset(Sort(xs)) == multiset(xs)
  {
    if xs != [] {
      SortIsSorted(xs[1..]);
      InsertIsSorted(xs[0], Sort(xs[1..]));
      InsertLength(xs[0], Sort(xs[1..]));
      assert xs == [xs[0]] + xs[1..];
    }
  }

  // ----- The two implementations ------------------------------------------------------------

  /** The share p of n samples. */
  function Share(n: nat, p: real): real { p * n as real }

  function FractionIndex(n: nat, p: real): int
    requires n >= 1
  {
    Min(Max(0, Ceil(Share(n, p)) - 1), n - 1)
  }

  function PercentIndex(n: nat, percentile: real): int
    requires n >= 1
  {
    Min(Max(1, Ceil(Share(n, percentile / 100.0))) - 1, n - 1)
  }

  /** The nearest_rank helper, over samples already sorted. */
  function Nearest(samples: seq<real>, p: real): real
    requires samples != []
  {
    samples[FractionIndex(|samples|, p)]
  }

  datatype Distribution = Distribution(count: nat, samples: seq<real>, min: real, p50: real, p95: real, max: real)

  type Rounding = real -> real

  ghost predicate Monotone(round: Rounding) { forall x, y :: x <= y ==> round(x) <= round(y) }

  function Rounded(round: Rounding, values: seq<real>): (r: seq<real>)
    ensures |r| == |values| && forall i :: 0 <= i < |r| ==> r[i] == round(values[i])
  {
    seq(|values|, i requires 0 <= i < |values| => round(values[i]))
  }

  /** None: at least one sample is required. */
  function TimingDistribution(round: Rounding, values: seq<real>): Option<Distribution> {
    if values == [] then None
    else
      var samples := Sort(Rounded(round, values));
      Some(Distribution(|samples|, samples, samples[0], Nearest(samples, 0.50), Nearest(samples, 0.95), samples[|samples| - 1]))
  }

  function Percentile(round: Rounding, values: seq<real>, percentile: real): real {
    if values == [] then 0.0
    else
      var ordered := Sort(values);
      round(ordered[PercentIndex(|ordered|, percentile)])
  }

  /** Both implementations pick the same sorted position. */
  lemma SamePosition(n: nat, p: real)
    requires n >= 1
    ensures FractionIndex(n, p) == PercentIndex(n, p * 100.0)
  {
    assert (p * 100.0) / 100.0 == p;
  }

  // ----- What is picked -----------------------------------------------------------------------

  function CountAtMost(xs: seq<real>, v: real): nat {
    if xs == [] then 0 else (if xs[0] <= v then 1 else 0) + CountAtMost(xs[1..], v)
  }

  function CountBelow(xs: seq<real>, v: real): nat {
    if xs == [] then 0 else (if xs[0] < v then 1 else 0) + CountBelow(xs[1..], v)
  }

  lemma {:induction false} InsertCounts(x: real, xs: seq<real>, v: real)
    ensures CountAtMost(Insert(x, xs), v) == CountAtMost(xs, v) + if x <= v then 1 else 0
    ensures CountBelow(Insert(x, xs), v) == CountBelow(xs, v) + if x < v then 1 else 0
  {
    if xs == [] || x <= xs[0] {
      assert ([x] + xs)[1..] == xs;
    } else {
      InsertCounts(x, xs[1..], v);
      assert ([xs[0]] + Insert(x, xs[1..]))[1..] == Insert(x, xs[1..]);
    }
  }

  lemma {:induction false} SortCounts(xs: seq<real>, v: real)
    ensures CountAtMost(Sort(xs), v) == CountAtMost(xs, v) && CountBelow(Sort(xs), v) == CountBelow(xs, v)
  {
    if xs != [] {
      SortCounts(xs[1..], v);
      InsertCounts(xs[0], Sort(xs[1..]), v);
    }
  }

  /** In a sorted list the value at i has at least i + 1 values at most itself, and at most i below it. */
  lemma {:induction false} SortedCounts(xs: seq<real>, i: nat, v: real)
    requires Sorted(xs) && i < |xs|
    ensures xs[i] <= v ==> CountAtMost(xs, v) >= i + 1
    ensures v <= xs[i] ==> CountBelow(xs, v) <= i
  {
    if i > 0 {
      SortedCounts(xs[1..], i - 1, v);
    } else if v <= xs[0] {
      NoneBelow(xs, v);
    }
  }

  lemma {:induction false} NoneBelow(xs: seq<real>, v: real)
    requires forall i :: 0 <= i < |xs| ==> v <= xs[i]
    ensures CountBelow(xs, v) == 0
  {
    if xs != [] { NoneBelow(xs[1..], v); }
  }

  lemma {:induction false} AllCounted(xs: seq<real>, v: real)
    ensures CountBelow(xs, v) <= CountAtMost(xs, v) <= |xs|
  {
    if xs != [] { AllCounted(xs[1..], v); }
  }

  lemma {:induction false} AtMostIsBelowLarger(xs: seq<real>, v: real, w: real)
    requires v < w
    ensures CountAtMost(xs, v) <= CountBelow(xs, w)
  {
    if xs != [] { AtMostIsBelowLarger(xs[1..], v, w); }
  }

  /** How the index i relates to the share p * n of the samples. */
  predicate FitsShare(i: int, n: nat, p: real, share: real) {
    && (p > 0.0 ==> i as real < share) && (p <= 1.0 ==> share <= (i + 1) as real)
    && (p <= 0.0 ==> share <= 0.0) && (p > 1.0 ==> n as real < share)
  }

  lemma IndexBounds(n: nat, p: real)
    requires n >= 1
    ensures 0 <= FractionIndex(n, p) < n && FitsShare(FractionIndex(n, p), n, p, Share(n, p))
  {
    hide Share, Ceil, Min, Max, FitsShare;
    ShareBounds(n, p);
    FitsWhenScaled(n, p, Share(n, p));
  }

  lemma FitsWhenScaled(n: nat, p: real, x: real)
    requires n >= 1 && (p > 0.0 ==> 0.0 < x) && (p <= 0.0 ==> x <= 0.0) && (p <= 1.0 ==> x <= n as real) && (p > 1.0 ==> n as real < x)
    ensures var i := Min(Max(0, Ceil(x) - 1), n - 1); 0 <= i < n && FitsShare(i, n, p, x)
  {
    assert (Ceil(x) - 1) as real < x <= Ceil(x) as real;
  }

  // The only products of two unknowns.

  lemma ProductPositive(a: real, m: real)
    requires 0.0 < a && 0.0 < m
    ensures 0.0 < a * m
  {
  }

  lemma ProductsInOrder(a: real, b: real, m: real)
    requires 0.0 < m
    ensures a < b ==> a * m < b * m
    ensures a <= b ==> a * m <= b * m
  {
    if a < b {
      calc {
        0.0;
      < { ProductPositive(b - a, m); }
        (b - a) * m;
      ==
        b * m - a * m;
      }
    }
  }

  lemma ShareBounds(n: nat, p: real)
    requires n >= 1
    ensures (p > 0.0 ==> 0.0 < Share(n, p)) && (p <= 0.0 ==> Share(n, p) <= 0.0)
    ensures (p <= 1.0 ==> Share(n, p) <= n as real) && (p > 1.0 ==> n as real < Share(n, p))
  {
    var m := n as real;
    assert 0.0 * m == 0.0 && 1.0 * m == m;
    ProductsInOrder(0.0, p, m);
    ProductsInOrder(p, 0.0, m);
    ProductsInOrder(1.0, p, m);
    ProductsInOrder(p, 1.0, m);
  }

  /** At least the share of the samples is at most v, unless p exceeds 1; fewer are below it, unless p is not positive. */
  predicate SplitsAt(values: seq<real>, v: real, p: real, share: real) {
    && v in values
    && (share <= CountAtMost(values, v) as real <==> p <= 1.0)
    && (CountBelow(values, v) as real < share <==> p > 0.0)
  }

  /** What the nearest rank picks is a sample that splits the others at the share p * n. */
  lemma NearestRankSplits(values: seq<real>, p: real)
    requires values != []
    ensures SplitsAt(values, Nearest(Sort(values), p), p, Share(|values|, p))
  {
    IndexBounds(|values|, p);
    SplitsAtIndex(values, FractionIndex(|values|, p), p, Share(|values|, p));
  }

  lemma SplitsAtIndex(values: seq<real>, i: nat, p: real, share: real)
    requires i < |values| && FitsShare(i, |values|, p, share)
    ensures SplitsAt(values, Sort(values)[i], p, share)
  {
    PickedCounts(values, i);
  }

  lemma PickedCounts(values: seq<real>, i: nat)
    requires i < |values|
    ensures var v := Sort(values)[i];
            && v in values
            && i + 1 <= CountAtMost(values, v) <= |values|
            && CountBelow(values, v) <= i
  {
    var v := Sort(values)[i];
    SortIsSorted(values);
    assert v in multiset(Sort(values));
    SortedCounts(Sort(values), i, v);
    SortCounts(values, v);
    AllCounted(values, v);
  }

  /** For fractions in (0, 1] nothing else splits the samples so: the bounds determine the value. */
  lemma NearestRankIsTheOnlyOne(values: seq<real>, p: real, w: real)
    requires values != [] && 0.0 < p <= 1.0
    ensures SplitsAt(values, w, p, Share(|values|, p)) <==> w == Nearest(Sort(values), p)
  {
    NearestRankSplits(values, p);
    SplitIsUnique(values, Nearest(Sort(values), p), w, p, Share(|values|, p));
  }

  lemma SplitIsUnique(values: seq<real>, v: real, w: real, p: real, share: real)
    requires 0.0 < p <= 1.0 && SplitsAt(values, v, p, share)
    ensures SplitsAt(values, w, p, share) <==> w == v
  {
    if w < v { AtMostIsBelowLarger(values, w, v); }
    if v < w { AtMostIsBelowLarger(values, v, w); }
  }

  lemma CeilIsMonotone(x: real, y: real)
    requires x <= y
    ensures Ceil(x) <= Ceil(y)
  {
  }

  /** A larger fraction never picks a smaller value. */
  lemma NearestRankIsMonotone(values: seq<real>, p: real, q: real)
    requires values != [] && p <= q
    ensures Nearest(Sort(values), p) <= Nearest(Sort(values), q)
  {
    SortIsSorted(values);
    IndexIsMonotone(|values|, p, q);
  }

  lemma IndexIsMonotone(n: nat, p: real, q: real)
    requires n >= 1 && p <= q
    ensures FractionIndex(n, p) <= FractionIndex(n, q)
  {
    ProductsInOrder(p, q, n as real);
    CeilIsMonotone(Share(n, p), Share(n, q));
  }

  // ----- Rounding before and after ---------------------------------------------------------------

  lemma {:induction false} InsertRounded(round: Rounding, x: real, xs: seq<real>)
    requires Monotone(round) && Sorted(xs)
    ensures Insert(round(x), Rounded(round, xs)) == Rounded(round, Insert(x, xs))
  {
    if xs != [] && x > xs[0] {
      assert Sorted(xs[1..]) && Rounded(round, xs)[1..] == Rounded(round, xs[1..]);
      InsertRounded(round, x, xs[1..]);
      assert round(xs[0]) <= round(x);
      if round(x) == round(xs[0]) { assert |xs| > 1 ==> round(xs[0]) <= round(xs[1]); }
    }
  }

  /** Rounding the samples before they are sorted is as good as afterwards. */
  lemma {:induction false} SortRounded(round: Rounding, xs: seq<real>)
    requires Monotone(round)
    ensures Sort(Rounded(round, xs)) == Rounded(round, Sort(xs))
  {
    if xs != [] {
      assert Rounded(round, xs)[1..] == Rounded(round, xs[1..]);
      SortRounded(round, xs[1..]);
      SortIsSorted(xs[1..]);
      InsertRounded(round, xs[0], Sort(xs[1..]));
    }
  }

  /** The report is ordered, it is None only without samples, and both reports give p50 and p95 of the same sample, each rounded its own way. */
  lemma DistributionIsOrdered(fine: Rounding, coarse: Rounding, values: seq<real>)
    requires Monotone(fine)
    ensures TimingDistribution(fine, values).None? <==> values == []
    ensures values == [] ==> forall p :: Percentile(coarse, values, p) == 0.0
    ensures values != [] ==>
              var d := TimingDistribution(fine, values).value;
              var p50, p95 := Nearest(Sort(values), 0.50), Nearest(Sort(values), 0.95);
              && d.count == |values| && d.min <= d.p50 <= d.p95 <= d.max
              && d.min in d.samples && d.max in d.samples && (forall x :: x in d.samples ==> d.min <= x <= d.max)
              && d.p50 == fine(p50) && Percentile(coarse, values, 50.0) == coarse(p50)
              && d.p95 == fine(p95) && Percentile(coarse, values, 95.0) == coarse(p95)
              && multiset(d.samples) == multiset(Rounded(fine, values)) && Sorted(d.samples)
  {
    if values != [] {
      SortIsSorted(Rounded(fine, values));
      SortRounded(fine, values);
      NearestRankIsMonotone(Rounded(fine, values), 0.50, 0.95);
      SamePosition(|values|, 0.50);
      SamePosition(|values|, 0.95);
    }
  }
}
