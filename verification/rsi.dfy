/** Relative strength index with Wilder smoothing.

    The close-to-close changes are split into gains and losses (a zero change
    counts as a gain, losses are kept as positive magnitudes). The first
    averages are plain means over the first `period` changes, and each later
    change updates them as `avg := (avg * (period - 1) + x) / period`. */
module Rsi {
  import opened Series
  import Constants

  /** Average gain and average loss after some number of changes. */
  datatype Averages = Averages(gain: real, loss: real)

  datatype RsiData = RsiData(
    period: nat,
    values: seq<Point>,
    currentValue: real,
    isOverbought: bool,
    isOversold: bool)

  /** Close-to-close changes: element `i` is `closes[i + 1] - closes[i]`. */
  function Changes(closes: seq<real>): (r: seq<real>)
    ensures |r| == if |closes| == 0 then 0 else |closes| - 1
    ensures forall i :: 0 <= i < |r| ==> closes[i] + r[i] == closes[i + 1]
  {
    if |closes| == 0 then []
    else seq(|closes| - 1, i requires 0 <= i < |closes| - 1 => closes[i + 1] - closes[i])
  }

  /** The gain part of a change; a zero change is a (zero) gain. */
  function Gain(c: real): (g: real)
    ensures g >= 0.0
  {
    if c >= 0.0 then c else 0.0
  }

  /** The loss part of a change, as a positive magnitude. */
  function Loss(c: real): (l: real)
    ensures l >= 0.0
  {
    if c < 0.0 then -c else 0.0
  }

  /** A change splits into a gain and a loss, at most one of them non-zero. */
  lemma GainLossSplit(c: real)
    ensures Gain(c) - Loss(c) == c
    ensures Gain(c) == 0.0 || Loss(c) == 0.0
    ensures c == 0.0 ==> Gain(c) == 0.0 && Loss(c) == 0.0
  {
  }

  /** Sum of the gain parts of the changes in `cs`. */
  function GainSum(cs: seq<real>): (r: real)
    ensures r >= 0.0
  {
    if |cs| == 0 then 0.0 else GainSum(cs[..|cs| - 1]) + Gain(cs[|cs| - 1])
  }

  /** Sum of the loss magnitudes of the changes in `cs`. */
  function LossSum(cs: seq<real>): (r: real)
    ensures r >= 0.0
  {
    if |cs| == 0 then 0.0 else LossSum(cs[..|cs| - 1]) + Loss(cs[|cs| - 1])
  }

  /** The seed averages over the first `period` changes. */
  function SeedAverages(changes: seq<real>, p: nat): (a: Averages)
    requires 1 <= p <= |changes|
    ensures a.gain >= 0.0 && a.loss >= 0.0
    ensures a.gain * p as real == GainSum(changes[..p])
    ensures a.loss * p as real == LossSum(changes[..p])
  {
    var g := GainSum(changes[..p]);
    var l := LossSum(changes[..p]);
    DivideTimesCount(g, p);
    DivideTimesCount(l, p);
    Averages(g / p as real, l / p as real)
  }

  /** One Wilder smoothing step with the next change `c`. */
  function WilderStep(a: Averages, c: real, p: nat): (r: Averages)
    requires p >= 1
    ensures r.gain * p as real == a.gain * (p - 1) as real + Gain(c)
    ensures r.loss * p as real == a.loss * (p - 1) as real + Loss(c)
  {
    var g := a.gain * (p - 1) as real + Gain(c);
    var l := a.loss * (p - 1) as real + Loss(c);
    DivideTimesCount(g, p);
    DivideTimesCount(l, p);
    Averages(g / p as real, l / p as real)
  }

  /** Dividing by a positive count and multiplying back gives the total. */
  lemma DivideTimesCount(total: real, p: nat)
    requires p >= 1
    ensures total / p as real * p as real == total
  {
  }

  /** Each element after the first is the smoothing step of its predecessor
      with the change `period - 1` places further along. */
  predicate FollowsWilder(changes: seq<real>, p: nat, r: seq<Averages>)
    requires p >= 1
  {
    forall k :: 1 <= k < |r| && k + p - 1 < |changes| ==> WilderAt(changes, p, r, k)
  }

  /** Element `k` of `r` is the smoothing step of element `k - 1` with `changes[k + period - 1]`. */
  predicate WilderAt(changes: seq<real>, p: nat, r: seq<Averages>, k: nat)
    requires p >= 1 && 1 <= k < |r| && k + p - 1 < |changes|
  {
    r[k] == WilderStep(r[k - 1], changes[k + p - 1], p)
  }

  /** The smoothing loop: `acc` holds the averages after changes up to index `i - 1`. */
  function WilderExtend(changes: seq<real>, p: nat, i: nat, acc: seq<Averages>): (r: seq<Averages>)
    requires 1 <= p <= i <= |changes|
    requires |acc| == i - p + 1
    requires FollowsWilder(changes, p, acc)
    decreases |changes| - i
    ensures |r| == |changes| - p + 1
    ensures acc == r[..|acc|]
    ensures FollowsWilder(changes, p, r)
  {
    if i == |changes| then acc
    else
      var next := acc + [WilderStep(acc[|acc| - 1], changes[i], p)];
      assert FollowsWilder(changes, p, next) by {
        forall k | 1 <= k < |next| && k + p - 1 < |changes|
          ensures WilderAt(changes, p, next, k)
        {
          if k < |acc| {
            assert WilderAt(changes, p, acc, k);
          }
        }
      }
      WilderExtend(changes, p, i + 1, next)
  }

  /** The averages behind each RSI point: the seed, then one smoothing step per further change. */
  function AverageSeries(changes: seq<real>, p: nat): (r: seq<Averages>)
    requires 1 <= p <= |changes|
    ensures |r| == |changes| - p + 1
    ensures r[0] == SeedAverages(changes, p)
    ensures FollowsWilder(changes, p, r)
  {
    WilderExtend(changes, p, p, [SeedAverages(changes, p)])
  }

  /** Average gain and average loss never become negative. */
  lemma {:induction false} AveragesNonNegative(changes: seq<real>, p: nat, k: nat)
    requires 1 <= p <= |changes|
    requires k < |AverageSeries(changes, p)|
    ensures AverageSeries(changes, p)[k].gain >= 0.0
    ensures AverageSeries(changes, p)[k].loss >= 0.0
  {
    var r := AverageSeries(changes, p);
    if k > 0 {
      AveragesNonNegative(changes, p, k - 1);
      assert WilderAt(changes, p, r, k);
      StepNonNegative(r[k - 1], changes[k + p - 1], p);
    }
  }

  /** A smoothing step keeps non-negative averages non-negative. */
  lemma StepNonNegative(a: Averages, c: real, p: nat)
    requires p >= 1 && a.gain >= 0.0 && a.loss >= 0.0
    ensures WilderStep(a, c, p).gain >= 0.0 && WilderStep(a, c, p).loss >= 0.0
  {
    NonNegativeStep(a.gain, Gain(c), p);
    NonNegativeStep(a.loss, Loss(c), p);
  }

  lemma NonNegativeStep(a: real, x: real, p: nat)
    requires p >= 1 && a >= 0.0 && x >= 0.0
    ensures (a * (p - 1) as real + x) / p as real >= 0.0
  {
    var w := (p - 1) as real;
    assert a * w >= 0.0;
  }

  /** RSI from the averages: `100 - 100 / (1 + RS)` with `RS := 100` when the
      average loss is 0; always in [0, 100). */
  function RsiOf(a: Averages): (v: real)
    requires a.gain >= 0.0 && a.loss >= 0.0
    ensures 0.0 <= v < 100.0
  {
    var rs := if a.loss == 0.0 then 100.0 else a.gain / a.loss;
    RsBounds(rs);
    100.0 - 100.0 / (1.0 + rs)
  }

  lemma RsBounds(rs: real)
    requires rs >= 0.0
    ensures 0.0 < 100.0 / (1.0 + rs) <= 100.0
  {
    var q := 100.0 / (1.0 + rs);
    assert q * (1.0 + rs) == 100.0;
    if q > 100.0 {
      AbovePositiveProduct(q, 1.0 + rs);
    }
  }

  lemma AbovePositiveProduct(q: real, d: real)
    requires q > 100.0 && d >= 1.0
    ensures q * d > 100.0
  {
    assert q * d >= q * 1.0;
  }

  /** `computeRSI`: `currentValue` 50 and no flags when there are fewer than
      `period + 1` closes; otherwise one value per bar from `period` on. */
  function Rsi(closes: seq<real>, p: nat): (r: RsiData)
    requires p >= 1
    ensures r.period == p
    ensures |closes| < p + 1 ==>
              r.values == [] && r.currentValue == 50.0 && !r.isOverbought && !r.isOversold
    ensures |closes| >= p + 1 ==> |r.values| == |closes| - p
    ensures forall k :: 0 <= k < |r.values| ==> r.values[k].bar == p + k
    ensures forall k :: 0 <= k < |r.values| ==> 0.0 <= r.values[k].value < 100.0
    ensures |r.values| > 0 ==> r.currentValue == r.values[|r.values| - 1].value
    ensures r.isOverbought <==> r.currentValue >= Constants.RsiOverbought
    ensures r.isOversold <==> r.currentValue <= Constants.RsiOversold
    ensures !(r.isOverbought && r.isOversold)
  {
    if |closes| < p + 1 then RsiData(p, [], 50.0, false, false)
    else
      var changes := Changes(closes);
      var avgs := AverageSeries(changes, p);
      var values := seq(|avgs|, k requires 0 <= k < |avgs| =>
                          AveragesNonNegative(changes, p, k);
                          Point(p + k, RsiOf(avgs[k])));
      var current := LastOr(values, 50.0);
      RsiData(p, values, current,
              current >= Constants.RsiOverbought, current <= Constants.RsiOversold)
  }

  /** The RSI point `k` is computed from the `k`-th averages. */
  lemma RsiValueFromAverages(closes: seq<real>, p: nat, k: nat)
    requires p >= 1 && |closes| >= p + 1
    requires k < |Rsi(closes, p).values|
    ensures AverageSeries(Changes(closes), p)[k].gain >= 0.0
    ensures AverageSeries(Changes(closes), p)[k].loss >= 0.0
    ensures Rsi(closes, p).values[k].value == RsiOf(AverageSeries(Changes(closes), p)[k])
  {
    AveragesNonNegative(Changes(closes), p, k);
  }

  /** The RSI value when the average loss is zero: `100 - 100 / 101`. */
  const SaturatedRsi: real := 100.0 - 100.0 / 101.0

  /** If none of the first `period` changes is negative, the average loss is 0,
      RS is taken as 100 and the first RSI value is `100 - 100 / 101`. */
  lemma RsiNoLossInSeed(closes: seq<real>, p: nat)
    requires p >= 1 && |closes| >= p + 1
    requires forall i :: 0 <= i < p ==> closes[i] <= closes[i + 1]
    ensures Rsi(closes, p).values[0].value == SaturatedRsi
  {
    var changes := Changes(closes);
    LossSumZero(changes[..p]);
    RsiValueFromAverages(closes, p, 0);
  }

  lemma {:induction false} LossSumZero(cs: seq<real>)
    requires forall i :: 0 <= i < |cs| ==> cs[i] >= 0.0
    ensures LossSum(cs) == 0.0
  {
    if |cs| > 0 {
      LossSumZero(cs[..|cs| - 1]);
    }
  }

  lemma {:induction false} GainSumZero(cs: seq<real>)
    requires forall i :: 0 <= i < |cs| ==> cs[i] == 0.0
    ensures GainSum(cs) == 0.0
  {
    if |cs| > 0 {
      GainSumZero(cs[..|cs| - 1]);
    }
  }

  /** Constant closes keep both averages at 0. */
  lemma {:induction false} ConstantAverages(changes: seq<real>, p: nat, k: nat)
    requires 1 <= p <= |changes|
    requires forall i :: 0 <= i < |changes| ==> changes[i] == 0.0
    requires k < |AverageSeries(changes, p)|
    ensures AverageSeries(changes, p)[k] == Averages(0.0, 0.0)
  {
    var r := AverageSeries(changes, p);
    if k == 0 {
      GainSumZero(changes[..p]);
      LossSumZero(changes[..p]);
    } else {
      ConstantAverages(changes, p, k - 1);
      assert WilderAt(changes, p, r, k);
    }
  }

  /** Constant closes give `100 - 100 / 101` at every point, so the series reads overbought. */
  lemma RsiOfConstant(closes: seq<real>, p: nat, c: real)
    requires p >= 1 && |closes| >= p + 1
    requires forall j :: 0 <= j < |closes| ==> closes[j] == c
    ensures forall k :: 0 <= k < |Rsi(closes, p).values| ==> Rsi(closes, p).values[k].value == SaturatedRsi
    ensures Rsi(closes, p).isOverbought
  {
    var r := Rsi(closes, p);
    var changes := Changes(closes);
    forall k | 0 <= k < |r.values|
      ensures r.values[k].value == SaturatedRsi
    {
      ConstantAverages(changes, p, k);
      RsiValueFromAverages(closes, p, k);
    }
    assert r.currentValue == SaturatedRsi;
  }
}
