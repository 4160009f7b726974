/** Bollinger bands: for each full window of `period` closes, the window mean
    as the middle band and the mean plus and minus `stdDev` population
    standard deviations as the upper and lower bands; the bandwidth is read
    off the latest point. The square root is a parameter (`Math.sqrt`). */
module Bollinger {
  import opened Series
  import Sma

  datatype BollingerData = BollingerData(
    upper: seq<Point>,
    middle: seq<Point>,
    lower: seq<Point>,
    bandwidth: real)

  /** The window of `period` closes ending at bar `k + period - 1`. */
  function Window(closes: seq<real>, p: nat, k: nat): (w: seq<real>)
    requires 1 <= p && k + p <= |closes|
    ensures |w| == p
  {
    closes[k..k + p]
  }

  /** The standard deviation of a window: the root of its population variance. */
  function Deviation(w: seq<real>, sqrt: real -> real): (d: real)
    requires |w| > 0
    ensures IsSqrt(sqrt) ==> d >= 0.0 && d * d == Variance(w)
  {
    VarianceNonNegative(w);
    sqrt(Variance(w))
  }

  /** `(upper - lower) / middle` of the latest point, 0 when the middle band is 0. */
  function Bandwidth(upper: real, middle: real, lower: real): (b: real)
    ensures middle == 0.0 ==> b == 0.0
    ensures middle != 0.0 ==> b * middle == upper - lower
  {
    if middle != 0.0 then (upper - lower) / middle else 0.0
  }

  /** `computeBollinger`: empty bands and bandwidth 0 when there are fewer
      closes than the period; otherwise one point per full window on each band. */
  function Bollinger(closes: seq<real>, p: nat, stdDev: real, sqrt: real -> real): (r: BollingerData)
    requires p >= 1
    ensures |closes| < p ==> r == BollingerData([], [], [], 0.0)
    ensures |r.middle| == if |closes| < p then 0 else |closes| - p + 1
    ensures |r.upper| == |r.middle| && |r.lower| == |r.middle|
    ensures forall k :: 0 <= k < |r.middle| ==>
              && r.middle[k] == Point(k + p - 1, Mean(Window(closes, p, k)))
              && r.upper[k] == Point(k + p - 1, r.middle[k].value + stdDev * Deviation(Window(closes, p, k), sqrt))
              && r.lower[k] == Point(k + p - 1, r.middle[k].value - stdDev * Deviation(Window(closes, p, k), sqrt))
    ensures |closes| >= p ==>
              var last := |r.middle| - 1;
              r.bandwidth == Bandwidth(r.upper[last].value, r.middle[last].value, r.lower[last].value)
  {
    if |closes| < p then BollingerData([], [], [], 0.0)
    else
      var middle := MiddleBand(closes, p);
      var upper := UpperBand(closes, p, stdDev, sqrt);
      var lower := LowerBand(closes, p, stdDev, sqrt);
      var last := |closes| - p;
      BollingerData(upper, middle, lower,
                    Bandwidth(upper[last].value, middle[last].value, lower[last].value))
  }

  /** The middle band: the mean of each full window, at the window's last bar. */
  function MiddleBand(closes: seq<real>, p: nat): (m: seq<Point>)
    requires 1 <= p <= |closes|
    ensures |m| == |closes| - p + 1
    ensures forall k :: 0 <= k < |m| ==> m[k] == Point(k + p - 1, Mean(Window(closes, p, k)))
  {
    seq(|closes| - p + 1, k requires 0 <= k < |closes| - p + 1 =>
      Point(k + p - 1, Mean(Window(closes, p, k))))
  }

  /** The upper band: each window's mean plus `stdDev` deviations. */
  function UpperBand(closes: seq<real>, p: nat, stdDev: real, sqrt: real -> real): (u: seq<Point>)
    requires 1 <= p <= |closes|
    ensures |u| == |closes| - p + 1
    ensures forall k :: 0 <= k < |u| ==>
              u[k] == Point(k + p - 1, Mean(Window(closes, p, k)) + stdDev * Deviation(Window(closes, p, k), sqrt))
  {
    seq(|closes| - p + 1, k requires 0 <= k < |closes| - p + 1 =>
      Point(k + p - 1, Mean(Window(closes, p, k)) + stdDev * Deviation(Window(closes, p, k), sqrt)))
  }

  /** The lower band: each window's mean minus `stdDev` deviations. */
  function LowerBand(closes: seq<real>, p: nat, stdDev: real, sqrt: real -> real): (l: seq<Point>)
    requires 1 <= p <= |closes|
    ensures |l| == |closes| - p + 1
    ensures forall k :: 0 <= k < |l| ==>
              l[k] == Point(k + p - 1, Mean(Window(closes, p, k)) - stdDev * Deviation(Window(closes, p, k), sqrt))
  {
    seq(|closes| - p + 1, k requires 0 <= k < |closes| - p + 1 =>
      Point(k + p - 1, Mean(Window(closes, p, k)) - stdDev * Deviation(Window(closes, p, k), sqrt)))
  }

  /** The middle band is the simple moving average of the same period. */
  lemma MiddleIsSma(closes: seq<real>, p: nat, sqrt: real -> real, stdDev: real)
    requires p >= 1
    ensures Bollinger(closes, p, stdDev, sqrt).middle == Sma.Sma(closes, p).values
  {
    var m := Bollinger(closes, p, stdDev, sqrt).middle;
    var v := Sma.Sma(closes, p).values;
    forall k | 0 <= k < |m|
      ensures m[k] == v[k]
    {
      assert Window(closes, p, k) == closes[k..k + p];
    }
  }

  /** The bands lie symmetrically around the middle band. */
  lemma BandsSymmetric(closes: seq<real>, p: nat, stdDev: real, sqrt: real -> real, k: nat)
    requires p >= 1
    requires k < |Bollinger(closes, p, stdDev, sqrt).middle|
    ensures var r := Bollinger(closes, p, stdDev, sqrt);
            r.upper[k].value - r.middle[k].value == r.middle[k].value - r.lower[k].value
  {
  }

  /** With a true square root and a non-negative multiplier, the half-width
      `stdDev * sd` of a window's bands is non-negative and its square is
      `stdDev^2` times the window's population variance. */
  lemma WindowHalfWidth(w: seq<real>, stdDev: real, sqrt: real -> real)
    requires |w| > 0 && IsSqrt(sqrt) && stdDev >= 0.0
    ensures var h := stdDev * Deviation(w, sqrt);
            h >= 0.0 && h * h == stdDev * stdDev * Variance(w)
  {
    VarianceNonNegative(w);
    SqrtAt(sqrt, Variance(w));
    HalfWidth(stdDev, Deviation(w, sqrt), Variance(w));
  }

  /** With a true square root and a non-negative multiplier the bands are
      ordered: lower, middle, upper. */
  lemma BandsOrdered(closes: seq<real>, p: nat, stdDev: real, sqrt: real -> real, k: nat)
    requires p >= 1 && IsSqrt(sqrt) && stdDev >= 0.0
    requires k < |Bollinger(closes, p, stdDev, sqrt).middle|
    ensures var r := Bollinger(closes, p, stdDev, sqrt);
            r.lower[k].value <= r.middle[k].value <= r.upper[k].value
  {
    WindowHalfWidth(Window(closes, p, k), stdDev, sqrt);
  }

  lemma HalfWidth(m: real, sd: real, v: real)
    requires m >= 0.0 && sd >= 0.0 && sd * sd == v
    ensures m * sd >= 0.0
    ensures (m * sd) * (m * sd) == m * m * v
  {
    assert (m * sd) * (m * sd) == m * m * (sd * sd);
  }

  /** A constant window collapses the three bands onto the constant. */
  lemma ConstantWindowCollapses(closes: seq<real>, p: nat, stdDev: real, sqrt: real -> real, k: nat, c: real)
    requires p >= 1 && IsSqrt(sqrt)
    requires k < |Bollinger(closes, p, stdDev, sqrt).middle|
    requires forall j :: k <= j < k + p ==> closes[j] == c
    ensures var r := Bollinger(closes, p, stdDev, sqrt);
            r.upper[k].value == c && r.middle[k].value == c && r.lower[k].value == c
  {
    var w := Window(closes, p, k);
    MeanOfConstant(w, c);
    VarianceOfConstant(w, c);
    SqrtOfZero(sqrt);
  }

  /** Constant closes give bandwidth 0. */
  lemma ConstantClosesZeroBandwidth(closes: seq<real>, p: nat, stdDev: real, sqrt: real -> real, c: real)
    requires p >= 1 && IsSqrt(sqrt)
    requires forall j :: 0 <= j < |closes| ==> closes[j] == c
    ensures Bollinger(closes, p, stdDev, sqrt).bandwidth == 0.0
  {
    if |closes| >= p {
      ConstantWindowCollapses(closes, p, stdDev, sqrt, |closes| - p, c);
    }
  }
}
