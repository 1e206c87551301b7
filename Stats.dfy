/** The statistics pandas computes over a `Series` of transaction amounts: sum, mean,
    extrema, sample variance and the linearly interpolated quantile. Amounts are exact
    reals; floating-point rounding is not modelled. */
module Stats {
  import opened Seqs

  function Sum(s: seq<real>): real {
    if s == [] then 0.0 else s[0] + Sum(s[1..])
  }

  lemma {:induction false} SumConcat(a: seq<real>, b: seq<real>)
    ensures Sum(a + b) == Sum(a) + Sum(b)
  {
    if a == [] {
      assert a + b == b;
    } else {
      assert (a + b)[0] == a[0];
      assert (a + b)[1..] == a[1..] + b;
      SumConcat(a[1..], b);
    }
  }

  lemma {:induction false} SumConstant(s: seq<real>, v: real)
    requires forall i :: 0 <= i < |s| ==> s[i] == v
    ensures Sum(s) == |s| as real * v
  {
    if s != [] {
      SumConstant(s[1..], v);
    }
  }

  /** `Series.mean()` of a non-empty series. */
  function Mean(s: seq<real>): real
    requires |s| > 0
  {
    Sum(s) / |s| as real
  }

  /** A sum of values between `lo` and `hi` lies between the count times `lo` and the
      count times `hi`. */
  lemma {:induction false} SumBounds(s: seq<real>, lo: real, hi: real)
    requires forall i :: 0 <= i < |s| ==> lo <= s[i] <= hi
    ensures |s| as real * lo <= Sum(s) <= |s| as real * hi
  {
    if s != [] {
      assert forall i :: 0 <= i < |s[1..]| ==> s[1..][i] == s[i + 1];
      SumBounds(s[1..], lo, hi);
      assert |s| as real * lo == lo + |s[1..]| as real * lo;
      assert |s| as real * hi == hi + |s[1..]| as real * hi;
    }
  }

  /** `Series.max()`: an element that no element exceeds. */
  function MaxOf(s: seq<real>): (r: real)
    requires |s| > 0
    ensures r in s
    ensures forall i :: 0 <= i < |s| ==> s[i] <= r
  {
    if |s| == 1 then s[0]
    else
      var m := MaxOf(s[1..]);
      assert forall i :: 1 <= i < |s| ==> s[i] == s[1..][i - 1];
      if s[0] >= m then s[0] else m
  }

  /** `Series.min()`: an element that exceeds no element. */
  function MinOf(s: seq<real>): (r: real)
    requires |s| > 0
    ensures r in s
    ensures forall i :: 0 <= i < |s| ==> r <= s[i]
  {
    if |s| == 1 then s[0]
    else
      var m := MinOf(s[1..]);
      assert forall i :: 1 <= i < |s| ==> s[i] == s[1..][i - 1];
      if s[0] <= m then s[0] else m
  }

  /** The mean lies between the smallest and the largest value. */
  lemma MeanBetween(s: seq<real>)
    requires |s| > 0
    ensures MinOf(s) <= Mean(s) <= MaxOf(s)
  {
    MeanWithin(s, MinOf(s), MaxOf(s));
  }

  /** The mean of values between `lo` and `hi` is between `lo` and `hi`. */
  lemma MeanWithin(s: seq<real>, lo: real, hi: real)
    requires |s| > 0
    requires forall i :: 0 <= i < |s| ==> lo <= s[i] <= hi
    ensures lo <= Mean(s) <= hi
  {
    SumBounds(s, lo, hi);
    QuotientBetween(Sum(s), |s| as real, lo, hi);
  }

  lemma QuotientBetween(x: real, n: real, lo: real, hi: real)
    requires n > 0.0 && n * lo <= x <= n * hi
    ensures lo <= x / n <= hi
  {
    assert x / n - lo == (x - n * lo) / n;
    assert hi - x / n == (n * hi - x) / n;
  }

  /** Sum of squared deviations from `m`. */
  function SquaredDeviations(s: seq<real>, m: real): (r: real)
    ensures r >= 0.0
  {
    if s == [] then 0.0
    else
      SquareNonNegative(s[0] - m);
      (s[0] - m) * (s[0] - m) + SquaredDeviations(s[1..], m)
  }

  lemma SquareNonNegative(x: real)
    ensures x * x >= 0.0
  {
    if x < 0.0 {
      ProductMonotone(-x, 0.0, -x);
    } else {
      ProductMonotone(x, 0.0, x);
    }
  }

  /** The sample variance (`ddof=1`), whose square root is `Series.std()`; pandas
      leaves the standard deviation undefined (NaN) for fewer than two values. */
  function SampleVariance(s: seq<real>): (r: real)
    requires |s| >= 2
    ensures r >= 0.0
  {
    SquaredDeviations(s, Mean(s)) / (|s| - 1) as real
  }

  lemma {:induction false} SquaredDeviationsConstant(s: seq<real>, v: real)
    requires forall i :: 0 <= i < |s| ==> s[i] == v
    ensures SquaredDeviations(s, v) == 0.0
  {
    if s != [] {
      SquaredDeviationsConstant(s[1..], v);
    }
  }

  lemma MeanConstant(s: seq<real>, v: real)
    requires |s| > 0
    requires forall i :: 0 <= i < |s| ==> s[i] == v
    ensures Mean(s) == v
  {
    SumConstant(s, v);
  }

  /** Equal amounts have no spread. */
  lemma VarianceConstant(s: seq<real>, v: real)
    requires |s| >= 2
    requires forall i :: 0 <= i < |s| ==> s[i] == v
    ensures SampleVariance(s) == 0.0
  {
    MeanConstant(s, v);
    SquaredDeviationsConstant(s, v);
  }

  predicate Sorted(s: seq<real>) {
    forall i, j :: 0 <= i <= j < |s| ==> s[i] <= s[j]
  }

  function Insert(x: real, s: seq<real>): (r: seq<real>)
    requires Sorted(s)
    ensures Sorted(r)
    ensures |r| == |s| + 1
    ensures r[0] == if s == [] || x <= s[0] then x else s[0]
    ensures multiset(r) == multiset(s) + multiset{x}
  {
    if s == [] || x <= s[0] then [x] + s
    else
      var t := Insert(x, s[1..]);
      assert s == [s[0]] + s[1..];
      SortedCons(s[0], t);
      [s[0]] + t
  }

  lemma SortedCons(h: real, t: seq<real>)
    requires Sorted(t)
    requires t != [] ==> h <= t[0]
    ensures Sorted([h] + t)
  {
  }

  /** The values of `s` in ascending order. */
  function Sort(s: seq<real>): (r: seq<real>)
    ensures Sorted(r)
    ensures |r| == |s|
    ensures multiset(r) == multiset(s)
  {
    if s == [] then []
    else
      assert s == [s[0]] + s[1..];
      Insert(s[0], Sort(s[1..]))
  }

  /** Linear interpolation at fractional position `pos` of a sorted sequence. */
  function Interpolate(s: seq<real>, pos: real): real
    requires |s| > 0 && 0.0 <= pos <= (|s| - 1) as real
  {
    var lo := pos.Floor;
    var hi := if lo + 1 < |s| then lo + 1 else lo;
    s[lo] + (s[hi] - s[lo]) * (pos - lo as real)
  }

  /** `Series.quantile(q)` with the default linear interpolation: the value at position
      `(n - 1) * q` of the sorted values. */
  function Quantile(s: seq<real>, q: real): real
    requires |s| > 0 && 0.0 <= q <= 1.0
  {
    Interpolate(Sort(s), Position(|s|, q))
  }

  /** The fractional index `(n - 1) * q` of the `q`-quantile among `n` sorted values. */
  function Position(n: nat, q: real): (pos: real)
    requires n > 0 && 0.0 <= q <= 1.0
    ensures 0.0 <= pos <= (n - 1) as real
  {
    ProductMonotone((n - 1) as real, q, 1.0);
    ProductMonotone((n - 1) as real, 0.0, q);
    (n - 1) as real * q
  }

  lemma PositionMonotone(n: nat, p: real, q: real)
    requires n > 0 && 0.0 <= p <= q <= 1.0
    ensures Position(n, p) <= Position(n, q)
  {
    ProductMonotone((n - 1) as real, p, q);
  }

  lemma ProductMonotone(d: real, a: real, b: real)
    requires d >= 0.0 && a <= b
    ensures d * a <= d * b
  {
  }

  /** An interpolated value lies between the two neighbours it interpolates. */
  lemma InterpolateBetween(s: seq<real>, pos: real)
    requires |s| > 0 && 0.0 <= pos <= (|s| - 1) as real && Sorted(s)
    ensures var lo := pos.Floor;
      var hi := if lo + 1 < |s| then lo + 1 else lo;
      s[lo] <= Interpolate(s, pos) <= s[hi]
  {
    var lo := pos.Floor;
    var hi := if lo + 1 < |s| then lo + 1 else lo;
    var f := pos - lo as real;
    var d := s[hi] - s[lo];
    assert 0.0 <= f < 1.0 && d >= 0.0;
    ProductMonotone(d, 0.0, f);
    ProductMonotone(d, f, 1.0);
    assert d * 1.0 == d && d * 0.0 == 0.0;
    assert Interpolate(s, pos) == s[lo] + d * f;
  }

  /** Interpolation over a sorted sequence never decreases as the position grows. */
  lemma InterpolateMonotone(s: seq<real>, x: real, y: real)
    requires |s| > 0 && Sorted(s)
    requires 0.0 <= x <= y <= (|s| - 1) as real
    ensures Interpolate(s, x) <= Interpolate(s, y)
  {
    var lx, ly := x.Floor, y.Floor;
    if lx == ly {
      var hi := if lx + 1 < |s| then lx + 1 else lx;
      var d := s[hi] - s[lx];
      var fx, fy := x - lx as real, y - lx as real;
      assert d >= 0.0 && fx <= fy;
      ProductMonotone(d, fx, fy);
      var px, py := d * fx, d * fy;
      assert px <= py;
      assert Interpolate(s, x) == s[lx] + px;
      assert Interpolate(s, y) == s[lx] + py;
    } else {
      InterpolateBetween(s, x);
      InterpolateBetween(s, y);
    }
  }

  /** A quantile lies between the smallest and the largest value. */
  lemma QuantileBounds(s: seq<real>, q: real)
    requires |s| > 0 && 0.0 <= q <= 1.0
    ensures MinOf(s) <= Quantile(s, q) <= MaxOf(s)
  {
    var t := Sort(s);
    var n := |s|;
    var pos := Position(n, q);
    InterpolateBetween(t, pos);
    var lo := pos.Floor;
    var hi := if lo + 1 < n then lo + 1 else lo;
    SortedElementIn(s, lo);
    SortedElementIn(s, hi);
  }

  /** Every value of the sorted sequence is a value of the original. */
  lemma SortedElementIn(s: seq<real>, i: int)
    requires 0 <= i < |s|
    ensures Sort(s)[i] in s
  {
    var t := Sort(s);
    assert t[i] in multiset(t);
  }

  /** The quantile is monotone in the requested fraction. */
  lemma QuantileMonotone(s: seq<real>, p: real, q: real)
    requires |s| > 0 && 0.0 <= p <= q <= 1.0
    ensures Quantile(s, p) <= Quantile(s, q)
  {
    PositionMonotone(|s|, p, q);
    InterpolateMonotone(Sort(s), Position(|s|, p), Position(|s|, q));
  }

  /** Every quantile of equal values is that value. */
  lemma QuantileConstant(s: seq<real>, v: real, q: real)
    requires |s| > 0 && 0.0 <= q <= 1.0
    requires forall i :: 0 <= i < |s| ==> s[i] == v
    ensures Quantile(s, q) == v
  {
    QuantileBounds(s, q);
  }

  /** Number of values strictly above `x`. */
  function CountAbove(s: seq<real>, x: real): nat {
    |Where(s, (a: real) => a > x)|
  }

  /** Number of values strictly below `x`. */
  function CountBelow(s: seq<real>, x: real): nat {
    |Where(s, (a: real) => a < x)|
  }

  /** Values above the upper and below the lower threshold are counted at most once,
      so together they are no more than the values there are. */
  lemma OutliersAtMostAll(s: seq<real>, lo: real, hi: real)
    requires lo <= hi
    ensures CountAbove(s, hi) + CountBelow(s, lo) <= |s|
  {
    WhereDisjoint(s, (a: real) => a > hi, (a: real) => a < lo);
  }

  lemma {:induction false} NoneAbove(s: seq<real>, x: real)
    requires forall i :: 0 <= i < |s| ==> s[i] <= x
    ensures CountAbove(s, x) == 0
  {
    if s != [] {
      NoneAbove(s[1..], x);
    }
  }

  lemma {:induction false} NoneBelow(s: seq<real>, x: real)
    requires forall i :: 0 <= i < |s| ==> x <= s[i]
    ensures CountBelow(s, x) == 0
  {
    if s != [] {
      NoneBelow(s[1..], x);
    }
  }
}
