/** Exponential moving average: seeded with the mean of the first `period`
    values, then `ema := (x - ema) * 2 / (period + 1) + ema` for each later value.

    The seed-then-recurrence series is defined once here; the MACD model uses
    it for its two price EMAs and for its signal line. */
module Ema {
  import opened Series
  import Sma

  datatype EmaData = EmaData(period: nat, values: seq<Point>, currentValue: real)

  /** The smoothing factor `2 / (period + 1)`. */
  function Multiplier(p: nat): (m: real)
    requires p >= 1
    ensures 0.0 < m <= 1.0
  {
    2.0 / (p as real + 1.0)
  }

  /** One update: the previous value `e` moved towards the input `x` by the multiplier. */
  function Update(e: real, x: real, p: nat): (r: real)
    requires p >= 1
    ensures e <= x ==> e <= r <= x
    ensures x <= e ==> x <= r <= e
    ensures p == 1 ==> r == x
  {
    Scaled(x - e, Multiplier(p)) + e
  }

  /** The fraction `m` of `d`, which lies between 0 and `d`; `Update` relies on
      these bounds so that its own contract needs only linear steps. */
  function Scaled(d: real, m: real): (s: real)
    requires 0.0 < m <= 1.0
    ensures 0.0 <= d ==> 0.0 <= s <= d
    ensures d <= 0.0 ==> d <= s <= 0.0
  {
    d * m
  }

  /** Each element of `r` after the first is the update of its predecessor by
      the value `period - 1` places further along `xs`. */
  predicate FollowsRecurrence(xs: seq<real>, p: nat, r: seq<real>)
    requires p >= 1
  {
    forall k :: 1 <= k < |r| && k + p - 1 < |xs| ==> StepAt(xs, p, r, k)
  }

  /** Element `k` of `r` is the update of element `k - 1` by `xs[k + period - 1]`. */
  predicate StepAt(xs: seq<real>, p: nat, r: seq<real>, k: nat)
    requires p >= 1 && 1 <= k < |r| && k + p - 1 < |xs|
  {
    r[k] == Update(r[k - 1], xs[k + p - 1], p)
  }

  /** The recurrence loop: `acc` holds the values up to input index `i - 1`. */
  function EmaExtend(xs: seq<real>, p: nat, i: nat, acc: seq<real>): (r: seq<real>)
    requires 1 <= p <= i <= |xs|
    requires |acc| == i - p + 1
    requires FollowsRecurrence(xs, p, acc)
    decreases |xs| - i
    ensures |r| == |xs| - p + 1
    ensures acc == r[..|acc|]
    ensures FollowsRecurrence(xs, p, r)
  {
    if i == |xs| then acc
    else
      var next := acc + [Update(acc[|acc| - 1], xs[i], p)];
      assert FollowsRecurrence(xs, p, next) by {
        forall k | 1 <= k < |next| && k + p - 1 < |xs|
          ensures StepAt(xs, p, next, k)
        {
          if k < |acc| {
            assert StepAt(xs, p, acc, k);
          }
        }
      }
      EmaExtend(xs, p, i + 1, next)
  }

  /** The EMA values of `xs`: empty when `xs` is shorter than the period,
      otherwise one value per index from `period - 1` on. */
  function EmaSeries(xs: seq<real>, p: nat): (r: seq<real>)
    requires p >= 1
    ensures |xs| < p ==> r == []
    ensures |xs| >= p ==> |r| == |xs| - p + 1 && r[0] == Mean(xs[..p])
    ensures FollowsRecurrence(xs, p, r)
  {
    if |xs| < p then [] else EmaExtend(xs, p, p, [Mean(xs[..p])])
  }

  /** `computeEMA`: the series stamped from bar `period - 1` on, or an empty
      result with `currentValue` 0 when there are fewer closes than the period. */
  function Ema(closes: seq<real>, p: nat): (r: EmaData)
    requires p >= 1
    ensures r.period == p
    ensures |r.values| == if |closes| < p then 0 else |closes| - p + 1
    ensures |closes| >= p ==> r.values[0].value == Mean(closes[..p])
    ensures forall k :: 0 <= k < |r.values| ==> r.values[k].bar == k + p - 1
    ensures forall k :: 0 <= k < |r.values| ==> r.values[k].value == EmaSeries(closes, p)[k]
    ensures |r.values| == 0 ==> r.currentValue == 0.0
    ensures |r.values| > 0 ==> r.currentValue == r.values[|r.values| - 1].value
  {
    if |closes| < p then EmaData(p, [], 0.0)
    else
      var values := Stamp(EmaSeries(closes, p), p - 1);
      EmaData(p, values, LastOr(values, 0.0))
  }

  /** Each EMA point after the first is the previous one moved towards the
      close by the multiplier. */
  lemma EmaRecurrence(closes: seq<real>, p: nat, k: nat)
    requires p >= 1
    requires 1 <= k < |Ema(closes, p).values|
    ensures var v := Ema(closes, p).values;
            v[k].value == (closes[k + p - 1] - v[k - 1].value) * Multiplier(p) + v[k - 1].value
  {
    assert StepAt(closes, p, EmaSeries(closes, p), k);
  }

  /** The first EMA point is the first SMA point for the same period. */
  lemma EmaSeedIsFirstSma(closes: seq<real>, p: nat)
    requires p >= 1
    requires |closes| >= p
    ensures Ema(closes, p).values[0] == Sma.Sma(closes, p).values[0]
  {
    assert closes[..p] == closes[0..p];
  }

  /** Each EMA value lies within any bounds on the values seen so far, in
      particular between their minimum and maximum. */
  lemma {:induction false} EmaWithinSeenRange(xs: seq<real>, p: nat, k: nat, lo: real, hi: real)
    requires p >= 1
    requires k < |EmaSeries(xs, p)|
    requires forall j :: 0 <= j < k + p ==> lo <= xs[j] <= hi
    ensures lo <= EmaSeries(xs, p)[k] <= hi
  {
    var r := EmaSeries(xs, p);
    if k == 0 {
      MeanBounds(xs[..p], lo, hi);
    } else {
      EmaWithinSeenRange(xs, p, k - 1, lo, hi);
      assert StepAt(xs, p, r, k);
    }
  }

  /** With period 1 the multiplier is 1 and the EMA reproduces its input. */
  lemma {:induction false} EmaPeriodOneAt(xs: seq<real>, k: nat)
    requires k < |xs|
    ensures EmaSeries(xs, 1)[k] == xs[k]
  {
    var r := EmaSeries(xs, 1);
    if k == 0 {
      assert xs[..1] == [xs[0]];
      assert [xs[0]][..0] == [];
      assert Sum([xs[0]]) == xs[0];
      assert r[0] == Mean([xs[0]]);
    } else {
      EmaPeriodOneAt(xs, k - 1);
      assert StepAt(xs, 1, r, k);
    }
  }

  lemma EmaPeriodOneIsIdentity(xs: seq<real>)
    ensures EmaSeries(xs, 1) == xs
  {
    forall k | 0 <= k < |xs|
      ensures EmaSeries(xs, 1)[k] == xs[k]
    {
      EmaPeriodOneAt(xs, k);
    }
  }
}
