/** Shared vocabulary of the indicator engine: output points, optional values,
    and sums, means, variances and extrema over sequences of closes.

    Every price is an exact `real`; an output point carries the index of the
    bar it belongs to instead of a formatted time label. */
module Series {

  /** One point of an indicator line, stamped with the index of its source bar. */
  datatype Point = Point(bar: nat, value: real)

  /** A value that may be missing (`null` / `undefined` in the dashboard). */
  datatype Option<+T> = None | Some(value: T)

  /** Sum of a sequence, accumulated left to right like the dashboard's loops. */
  function Sum(s: seq<real>): real
  {
    if |s| == 0 then 0.0 else Sum(s[..|s| - 1]) + s[|s| - 1]
  }

  /** Arithmetic mean of a non-empty sequence. */
  function Mean(s: seq<real>): real
    requires |s| > 0
  {
    Sum(s) / |s| as real
  }

  /** Sum of the squared deviations of `s` from `m`. */
  function SquaredDeviations(s: seq<real>, m: real): real
  {
    if |s| == 0 then 0.0
    else SquaredDeviations(s[..|s| - 1], m) + (s[|s| - 1] - m) * (s[|s| - 1] - m)
  }

  /** Population variance: the squared deviations from the mean divided by the count. */
  function Variance(s: seq<real>): real
    requires |s| > 0
  {
    SquaredDeviations(s, Mean(s)) / |s| as real
  }

  /** Sum of `xs[lo..hi]` accumulated index by index, as the indicator loops do. */
  function WindowSum(xs: seq<real>, lo: nat, hi: nat): (r: real)
    requires lo <= hi <= |xs|
    decreases hi - lo
    ensures r == Sum(xs[lo..hi])
  {
    if lo == hi then 0.0
    else
      assert xs[lo..hi][..hi - lo - 1] == xs[lo..hi - 1];
      WindowSum(xs, lo, hi - 1) + xs[hi - 1]
  }

  /** Smallest element of a non-empty sequence. */
  function Min(s: seq<real>): (r: real)
    requires |s| > 0
    ensures forall k :: 0 <= k < |s| ==> r <= s[k]
    ensures r in s
  {
    if |s| == 1 then s[0]
    else
      var m := Min(s[..|s| - 1]);
      if s[|s| - 1] < m then s[|s| - 1] else m
  }

  /** Largest element of a non-empty sequence. */
  function Max(s: seq<real>): (r: real)
    requires |s| > 0
    ensures forall k :: 0 <= k < |s| ==> s[k] <= r
    ensures r in s
  {
    if |s| == 1 then s[0]
    else
      var m := Max(s[..|s| - 1]);
      if s[|s| - 1] > m then s[|s| - 1] else m
  }

  /** The `currentValue` rule: the value of the last point, or `default` for an empty line. */
  function LastOr(ps: seq<Point>, default: real): (r: real)
    ensures |ps| == 0 ==> r == default
    ensures |ps| > 0 ==> r == ps[|ps| - 1].value
  {
    if |ps| > 0 then ps[|ps| - 1].value else default
  }

  /** A line from consecutive values, the first stamped with bar `start`. */
  function Stamp(vs: seq<real>, start: nat): (r: seq<Point>)
    ensures |r| == |vs|
    ensures forall k :: 0 <= k < |vs| ==> r[k] == Point(start + k, vs[k])
  {
    if |vs| == 0 then [] else [Point(start, vs[0])] + Stamp(vs[1..], start + 1)
  }

  /** The source bars of a line, in order. */
  function Bars(ps: seq<Point>): (r: seq<nat>)
    ensures |r| == |ps|
    ensures forall k :: 0 <= k < |ps| ==> r[k] == ps[k].bar
  {
    seq(|ps|, k requires 0 <= k < |ps| => ps[k].bar)
  }

  /** `sqrt` behaves as the non-negative square root on every non-negative real. */
  ghost predicate IsSqrt(sqrt: real -> real)
  {
    forall x :: 0.0 <= x ==> 0.0 <= sqrt(x) && sqrt(x) * sqrt(x) == x
  }

  /** If every element lies in [lo, hi], the sum lies in [n*lo, n*hi]. */
  lemma {:induction false} SumBounds(s: seq<real>, lo: real, hi: real)
    requires forall k :: 0 <= k < |s| ==> lo <= s[k] <= hi
    ensures |s| as real * lo <= Sum(s) <= |s| as real * hi
  {
    if |s| > 0 {
      var n := |s| as real;
      SumBounds(s[..|s| - 1], lo, hi);
      assert (n - 1.0) * lo + lo == n * lo;
      assert (n - 1.0) * hi + hi == n * hi;
    }
  }

  /** A mean lies between any common lower and upper bound of its elements. */
  lemma MeanBounds(s: seq<real>, lo: real, hi: real)
    requires |s| > 0
    requires forall k :: 0 <= k < |s| ==> lo <= s[k] <= hi
    ensures lo <= Mean(s) <= hi
  {
    SumBounds(s, lo, hi);
    DivideBounds(Sum(s), |s| as real, lo, hi);
  }

  /** The mean of a sequence lies between its minimum and its maximum. */
  lemma MeanWithinRange(s: seq<real>)
    requires |s| > 0
    ensures Min(s) <= Mean(s) <= Max(s)
  {
    MeanBounds(s, Min(s), Max(s));
  }

  /** The mean of a constant sequence is that constant. */
  lemma MeanOfConstant(s: seq<real>, c: real)
    requires |s| > 0
    requires forall k :: 0 <= k < |s| ==> s[k] == c
    ensures Mean(s) == c
  {
    MeanBounds(s, c, c);
  }

  lemma DivideBounds(x: real, n: real, lo: real, hi: real)
    requires n > 0.0
    requires n * lo <= x <= n * hi
    ensures lo <= x / n <= hi
  {
    var q := x / n;
    assert q * n == x;
    assert (q - lo) * n >= 0.0;
    assert (hi - q) * n >= 0.0;
    PositiveFactor(q - lo, n);
    PositiveFactor(hi - q, n);
  }

  /** Squared deviations are never negative. */
  lemma {:induction false} SquaredDeviationsNonNegative(s: seq<real>, m: real)
    ensures SquaredDeviations(s, m) >= 0.0
  {
    if |s| > 0 {
      SquaredDeviationsNonNegative(s[..|s| - 1], m);
      SquareNonNegative(s[|s| - 1] - m);
    }
  }

  lemma SquareNonNegative(d: real)
    ensures d * d >= 0.0
  {
    if d < 0.0 {
      assert d * d == (-d) * (-d);
    }
  }

  /** The population variance is never negative. */
  lemma VarianceNonNegative(s: seq<real>)
    requires |s| > 0
    ensures Variance(s) >= 0.0
  {
    SquaredDeviationsNonNegative(s, Mean(s));
  }

  /** A constant sequence has no squared deviation from its own value. */
  lemma {:induction false} SquaredDeviationsOfConstant(s: seq<real>, c: real)
    requires forall k :: 0 <= k < |s| ==> s[k] == c
    ensures SquaredDeviations(s, c) == 0.0
  {
    if |s| > 0 {
      SquaredDeviationsOfConstant(s[..|s| - 1], c);
    }
  }

  /** A constant sequence has variance 0. */
  lemma VarianceOfConstant(s: seq<real>, c: real)
    requires |s| > 0
    requires forall k :: 0 <= k < |s| ==> s[k] == c
    ensures Variance(s) == 0.0
  {
    MeanOfConstant(s, c);
    SquaredDeviationsOfConstant(s, c);
  }

  /** A product with a positive factor is non-negative only when the other factor is;
      `DivideBounds` uses it for both bounds of the quotient. */
  lemma PositiveFactor(a: real, n: real)
    requires n > 0.0
    requires a * n >= 0.0
    ensures a >= 0.0
  {
  }

  /** A product of two non-negative reals is zero only when a factor is;
      `SqrtOfZero` uses it with both factors equal to the root. */
  lemma ZeroProduct(a: real, b: real)
    requires a >= 0.0 && b >= 0.0
    requires a * b == 0.0
    ensures a == 0.0 || b == 0.0
  {
  }

  /** What `IsSqrt` promises at one point. */
  lemma SqrtAt(sqrt: real -> real, x: real)
    requires IsSqrt(sqrt) && 0.0 <= x
    ensures 0.0 <= sqrt(x) && sqrt(x) * sqrt(x) == x
  {
  }

  /** A square root as described by `IsSqrt` maps 0 to 0. */
  lemma SqrtOfZero(sqrt: real -> real)
    requires IsSqrt(sqrt)
    ensures sqrt(0.0) == 0.0
  {
    var r := sqrt(0.0);
    assert 0.0 <= r && r * r == 0.0;
    ZeroProduct(r, r);
  }
}
