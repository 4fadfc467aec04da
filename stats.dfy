/**
 * The numeric reductions pandas performs for the preprocessing code:
 * row-wise sum, mean, maximum and sample variance, and the quantile of a
 * column with pandas' default linear interpolation.  Values are reals;
 * floating-point rounding and NaN handling are not modelled.
 */
module Stats {

  function Sum(xs: seq<real>): real {
    if xs == [] then 0.0 else xs[0] + Sum(xs[1..])
  }

  /** Every element of `xs` lies in [lo, hi]. */
  predicate Bounded(xs: seq<real>, lo: real, hi: real) {
    forall i :: 0 <= i < |xs| ==> lo <= xs[i] <= hi
  }

  lemma {:induction false} SumBounded(xs: seq<real>, lo: real, hi: real)
    requires Bounded(xs, lo, hi)
    ensures |xs| as real * lo <= Sum(xs) <= |xs| as real * hi
  {
    if xs != [] {
      assert Bounded(xs[1..], lo, hi);
      SumBounded(xs[1..], lo, hi);
    }
  }

  function MaxOf(xs: seq<real>): (m: real)
    requires |xs| > 0
    ensures forall i :: 0 <= i < |xs| ==> xs[i] <= m
    ensures exists i :: 0 <= i < |xs| && xs[i] == m
  {
    if |xs| == 1 then xs[0]
    else
      var rest := MaxOf(xs[1..]);
      var k :| 0 <= k < |xs| - 1 && xs[1..][k] == rest;
      assert xs[k + 1] == rest;
      if xs[0] >= rest then xs[0] else rest
  }

  function MinOf(xs: seq<real>): (m: real)
    requires |xs| > 0
    ensures forall i :: 0 <= i < |xs| ==> m <= xs[i]
    ensures exists i :: 0 <= i < |xs| && xs[i] == m
  {
    if |xs| == 1 then xs[0]
    else
      var rest := MinOf(xs[1..]);
      var k :| 0 <= k < |xs| - 1 && xs[1..][k] == rest;
      assert xs[k + 1] == rest;
      if xs[0] <= rest then xs[0] else rest
  }

  /** pandas' `mean`: the sum divided by the number of values. */
  function Mean(xs: seq<real>): (m: real)
    requires |xs| > 0
    ensures MinOf(xs) <= m <= MaxOf(xs)
  {
    var n := |xs| as real;
    SumBounded(xs, MinOf(xs), MaxOf(xs));
    MeanWithin(Sum(xs), n, MinOf(xs), MaxOf(xs));
    Sum(xs) / n
  }

  lemma MeanWithin(s: real, n: real, lo: real, hi: real)
    requires n > 0.0 && n * lo <= s <= n * hi
    ensures lo <= s / n <= hi
  {
    var m := s / n;
    assert s == n * m;
    assert n * (m - lo) >= 0.0;
    assert n * (hi - m) >= 0.0;
  }

  function SquaredDeviations(xs: seq<real>, centre: real): (r: real)
    ensures r >= 0.0
  {
    if xs == [] then 0.0
    else
      var d := xs[0] - centre;
      assert d * d >= 0.0;
      d * d + SquaredDeviations(xs[1..], centre)
  }

  /** pandas' `std` squared: the sample variance, divisor n - 1. */
  function SampleVariance(xs: seq<real>): (v: real)
    requires |xs| >= 2
    ensures v >= 0.0
  {
    SquaredDeviations(xs, Mean(xs)) / (|xs| - 1) as real
  }

  /** A series with one repeated value: mean and maximum are that value, variance is zero. */
  lemma {:induction false} ConstantSeries(xs: seq<real>, c: real)
    requires |xs| >= 2 && forall i :: 0 <= i < |xs| ==> xs[i] == c
    ensures Mean(xs) == c && MaxOf(xs) == c && MinOf(xs) == c
    ensures SampleVariance(xs) == 0.0
  {
    SumConstant(xs, c);
    SquaredDeviationsAtConstant(xs, c);
  }

  lemma {:induction false} SumConstant(xs: seq<real>, c: real)
    requires forall i :: 0 <= i < |xs| ==> xs[i] == c
    ensures Sum(xs) == |xs| as real * c
  {
    if xs != [] {
      SumConstant(xs[1..], c);
    }
  }

  lemma {:induction false} SquaredDeviationsAtConstant(xs: seq<real>, c: real)
    requires forall i :: 0 <= i < |xs| ==> xs[i] == c
    ensures SquaredDeviations(xs, c) == 0.0
  {
    if xs != [] {
      SquaredDeviationsAtConstant(xs[1..], c);
    }
  }

  // ---- sorting and quantiles ----

  predicate SortedAsc(s: seq<real>) {
    forall i, j :: 0 <= i <= j < |s| ==> s[i] <= s[j]
  }

  function Insert(x: real, s: seq<real>): (r: seq<real>)
    requires SortedAsc(s)
    ensures SortedAsc(r) && multiset(r) == multiset(s) + multiset{x} && |r| == |s| + 1
  {
    if s == [] || x <= s[0] then [x] + s
    else
      var t := s[1..];
      var rest := Insert(x, t);
      assert s == [s[0]] + t;
      SortedHead(s[0], rest, t, x);
      [s[0]] + rest
  }

  /** A value no larger than any of `t` or `x` can go in front of a sorted arrangement of them. */
  lemma SortedHead(h: real, rest: seq<real>, t: seq<real>, x: real)
    requires SortedAsc(rest) && multiset(rest) == multiset(t) + multiset{x}
    requires h < x && forall i :: 0 <= i < |t| ==> h <= t[i]
    ensures SortedAsc([h] + rest)
  {
    forall k | 0 <= k < |rest|
      ensures h <= rest[k]
    {
      assert rest[k] in multiset(rest);
      if rest[k] != x {
        assert rest[k] in multiset(t);
        var i :| 0 <= i < |t| && t[i] == rest[k];
      }
    }
  }

  /** The values of `xs` in ascending order. */
  function SortAsc(xs: seq<real>): (s: seq<real>)
    ensures SortedAsc(s) && multiset(s) == multiset(xs) && |s| == |xs|
  {
    if xs == [] then []
    else
      assert xs == [xs[0]] + xs[1..];
      Insert(xs[0], SortAsc(xs[1..]))
  }

  /** The 0-based position `q * (n - 1)` of the q-quantile among n sorted values. */
  function Position(q: real, n: nat): (h: real)
    requires 0.0 <= q <= 1.0 && n > 0
    ensures 0.0 <= h <= (n - 1) as real
  {
    Scaled(q, (n - 1) as real);
    q * (n - 1) as real
  }

  lemma Scaled(q: real, m: real)
    requires 0.0 <= q <= 1.0 && m >= 0.0
    ensures 0.0 <= q * m <= m
  {
    assert m - q * m == (1.0 - q) * m;
  }

  /** The point `t` of the way from `a` to `b`. */
  function Lerp(a: real, b: real, t: real): real {
    a + t * (b - a)
  }

  lemma LerpBetween(a: real, b: real, t: real)
    requires a <= b && 0.0 <= t <= 1.0
    ensures a <= Lerp(a, b, t) <= b
  {
    var d := b - a;
    Scaled(t, d);
    assert Lerp(a, b, t) == a + t * d;
  }

  lemma LerpMonotone(a: real, b: real, t: real, u: real)
    requires a <= b && t <= u
    ensures Lerp(a, b, t) <= Lerp(a, b, u)
  {
    assert Lerp(a, b, u) - Lerp(a, b, t) == (u - t) * (b - a);
  }

  /**
   * The value at fractional position `h` of the sorted sequence `s`:
   * `s[lo]` moved the fraction `h - lo` of the way to `s[lo + 1]`.
   */
  function Interpolate(s: seq<real>, h: real): real
    requires |s| > 0 && 0.0 <= h <= (|s| - 1) as real
  {
    var lo := h.Floor;
    if lo + 1 < |s| then Lerp(s[lo], s[lo + 1], h - lo as real) else s[lo]
  }

  lemma InterpolateBetween(s: seq<real>, h: real)
    requires SortedAsc(s) && |s| > 0 && 0.0 <= h <= (|s| - 1) as real
    ensures s[h.Floor] <= Interpolate(s, h)
    ensures h.Floor + 1 < |s| ==> Interpolate(s, h) <= s[h.Floor + 1]
    ensures s[0] <= Interpolate(s, h) <= s[|s| - 1]
  {
    var lo := h.Floor;
    if lo + 1 < |s| {
      LerpBetween(s[lo], s[lo + 1], h - lo as real);
    }
  }

  lemma InterpolateMonotone(s: seq<real>, g: real, h: real)
    requires SortedAsc(s) && |s| > 0 && 0.0 <= g <= h <= (|s| - 1) as real
    ensures Interpolate(s, g) <= Interpolate(s, h)
  {
    var lg, lh := g.Floor, h.Floor;
    InterpolateBetween(s, g);
    InterpolateBetween(s, h);
    if lg == lh {
      if lg + 1 < |s| {
        LerpMonotone(s[lg], s[lg + 1], g - lg as real, h - lh as real);
      }
    } else {
      assert s[lg + 1] <= s[lh];
    }
  }

  /**
   * `Series.quantile(q)` with pandas' default `linear` interpolation: the
   * sorted values read at position q * (n - 1).
   */
  function Quantile(xs: seq<real>, q: real): (v: real)
    requires |xs| > 0 && 0.0 <= q <= 1.0
    ensures MinOf(xs) <= v <= MaxOf(xs)
  {
    var s := SortAsc(xs);
    var h := Position(q, |xs|);
    InterpolateBetween(s, h);
    SortedEnds(xs);
    Interpolate(s, h)
  }

  /** The ends of the sorted sequence are the minimum and maximum. */
  lemma SortedEnds(xs: seq<real>)
    requires |xs| > 0
    ensures var s := SortAsc(xs); s[0] == MinOf(xs) && s[|s| - 1] == MaxOf(xs)
  {
    var s := SortAsc(xs);
    var i :| 0 <= i < |xs| && xs[i] == MinOf(xs);
    var j :| 0 <= j < |xs| && xs[j] == MaxOf(xs);
    assert xs[i] in multiset(s) && xs[j] in multiset(s);
    assert s[0] in multiset(xs) && s[|s| - 1] in multiset(xs);
  }

  /** A larger q never gives a smaller quantile. */
  lemma QuantileMonotone(xs: seq<real>, a: real, b: real)
    requires |xs| > 0 && 0.0 <= a <= b <= 1.0
    ensures Quantile(xs, a) <= Quantile(xs, b)
  {
    var m := (|xs| - 1) as real;
    assert Position(b, |xs|) - Position(a, |xs|) == (b - a) * m;
    Scaled(b - a, m);
    InterpolateMonotone(SortAsc(xs), Position(a, |xs|), Position(b, |xs|));
  }

  /** Sorting a column that is already in ascending order leaves it as it is. */
  lemma {:induction false} SortedIsFixed(xs: seq<real>)
    requires SortedAsc(xs)
    ensures SortAsc(xs) == xs
  {
    if xs != [] {
      var rest := xs[1..];
      assert SortedAsc(rest);
      SortedIsFixed(rest);
      assert xs == [xs[0]] + rest;
    }
  }

  /** With five values the quartiles fall exactly on the second and fourth sorted value. */
  lemma QuartilesOfFive(xs: seq<real>)
    requires |xs| == 5 && SortedAsc(xs)
    ensures Quantile(xs, 0.25) == xs[1] && Quantile(xs, 0.75) == xs[3]
  {
    SortedIsFixed(xs);
    assert Position(0.25, 5) == 1.0 && Position(0.75, 5) == 3.0;
    assert (1.0).Floor == 1 && (3.0).Floor == 3;
  }

  /**
   * With four values Q1 lies three quarters of the way from the first to
   * the second sorted value, and Q3 a quarter of the way from the third to
   * the fourth.
   */
  lemma QuartilesOfFour(xs: seq<real>)
    requires |xs| == 4 && SortedAsc(xs)
    ensures Quantile(xs, 0.25) == Lerp(xs[0], xs[1], 0.75)
    ensures Quantile(xs, 0.75) == Lerp(xs[2], xs[3], 0.25)
  {
    SortedIsFixed(xs);
    assert Position(0.25, 4) == 0.75 && Position(0.75, 4) == 2.25;
    assert (0.75).Floor == 0 && (2.25).Floor == 2;
  }
}
