/** The aggregation layer: every indicator over one close series with the
    dashboard's fixed periods, plus the running-peak maximum drawdown and the
    30-bar annualised volatility. `Math.log` and `Math.sqrt` are parameters. */
module Indicators {
  import opened Series
  import Constants
  import Sma
  import Ema
  import Rsi
  import Macd
  import Bollinger
  import Momentum

  datatype RiskMetrics = RiskMetrics(maxDrawdown: real, volatility30d: real)

  datatype TechnicalIndicators = TechnicalIndicators(
    sma: seq<Sma.SmaData>,
    ema: seq<Ema.EmaData>,
    rsi: Rsi.RsiData,
    macd: Macd.MacdData,
    bollinger: Bollinger.BollingerData,
    momentum: seq<Point>,
    risk: RiskMetrics)

  // ---------------------------------------------------------------- drawdown

  /** The running peak after the closes in `s`: starts at 0 and is raised by
      every close above it. */
  function Peak(s: seq<real>): (r: real)
    ensures r >= 0.0
    ensures forall k :: 0 <= k < |s| ==> s[k] <= r
    ensures r == 0.0 || r in s
  {
    if |s| == 0 then 0.0
    else
      var prev := Peak(s[..|s| - 1]);
      if s[|s| - 1] > prev then s[|s| - 1] else prev
  }

  /** The drawdown of `close` from `peak`, 0 while the peak is not positive. */
  function Drawdown(peak: real, close: real): real
  {
    if peak > 0.0 then (peak - close) / peak else 0.0
  }

  /** The drawdown at bar `i`, measured from the running peak up to and including `i`. */
  function DrawdownAt(s: seq<real>, i: nat): real
    requires i < |s|
  {
    Drawdown(Peak(s[..i + 1]), s[i])
  }

  /** The largest drawdown over the closes in `s`, 0 for no closes. */
  function MaxDrawdown(s: seq<real>): (r: real)
    ensures r >= 0.0
  {
    if |s| == 0 then 0.0
    else
      var prev := MaxDrawdown(s[..|s| - 1]);
      var d := Drawdown(Peak(s), s[|s| - 1]);
      if d > prev then d else prev
  }

  /** Extending the closes does not change the drawdowns of the earlier bars. */
  lemma DrawdownAtPrefix(s: seq<real>, n: nat, i: nat)
    requires i < n <= |s|
    ensures DrawdownAt(s[..n], i) == DrawdownAt(s, i)
  {
    assert s[..n][..i + 1] == s[..i + 1];
  }

  /** The maximum drawdown bounds the drawdown at every bar. */
  lemma {:induction false} MaxDrawdownBounds(s: seq<real>, i: nat)
    requires i < |s|
    ensures DrawdownAt(s, i) <= MaxDrawdown(s)
  {
    var n := |s| - 1;
    if i < n {
      MaxDrawdownBounds(s[..n], i);
      DrawdownAtPrefix(s, n, i);
    } else {
      assert s[..i + 1] == s;
    }
  }

  /** A positive maximum drawdown is the drawdown at some bar. */
  lemma {:induction false} MaxDrawdownAttained(s: seq<real>)
    requires MaxDrawdown(s) != 0.0
    ensures exists i :: 0 <= i < |s| && DrawdownAt(s, i) == MaxDrawdown(s)
  {
    var n := |s| - 1;
    if Drawdown(Peak(s), s[n]) > MaxDrawdown(s[..n]) {
      assert s[..n + 1] == s;
      assert DrawdownAt(s, n) == MaxDrawdown(s);
    } else {
      MaxDrawdownAttained(s[..n]);
      var i :| 0 <= i < n && DrawdownAt(s[..n], i) == MaxDrawdown(s[..n]);
      DrawdownAtPrefix(s, n, i);
    }
  }

  /** The aggregator's single pass over the closes, keeping the running peak
      and the largest drawdown seen so far. */
  method ComputeMaxDrawdown(closes: seq<real>) returns (maxDrawdown: real)
    ensures maxDrawdown == MaxDrawdown(closes)
  {
    maxDrawdown := 0.0;
    var peak := 0.0;
    var i := 0;
    while i < |closes|
      invariant 0 <= i <= |closes|
      invariant peak == Peak(closes[..i])
      invariant maxDrawdown == MaxDrawdown(closes[..i])
    {
      assert closes[..i + 1][..i] == closes[..i];
      if closes[i] > peak {
        peak := closes[i];
      }
      var drawdown := if peak > 0.0 then (peak - closes[i]) / peak else 0.0;
      if drawdown > maxDrawdown {
        maxDrawdown := drawdown;
      }
      i := i + 1;
    }
    assert closes[..i] == closes;
  }

  /** With positive closes every drawdown is below 1: no close falls to 0. */
  lemma MaxDrawdownBelowOne(s: seq<real>)
    requires forall k :: 0 <= k < |s| ==> s[k] > 0.0
    ensures MaxDrawdown(s) < 1.0
  {
    var r := MaxDrawdown(s);
    if r != 0.0 {
      MaxDrawdownAttained(s);
      var i :| 0 <= i < |s| && DrawdownAt(s, i) == r;
      var peak := Peak(s[..i + 1]);
      assert s[..i + 1][i] == s[i];
      DrawdownBelowOne(peak, s[i]);
    }
  }

  lemma DrawdownBelowOne(peak: real, close: real)
    requires 0.0 < close <= peak
    ensures Drawdown(peak, close) < 1.0
  {
    var q := (peak - close) / peak;
    assert q * peak == peak - close;
    assert q * peak < 1.0 * peak;
  }

  /** Closes that never fall give no drawdown. */
  lemma {:induction false} NonDecreasingNoDrawdown(s: seq<real>)
    requires forall j, k :: 0 <= j <= k < |s| ==> s[j] <= s[k]
    ensures MaxDrawdown(s) == 0.0
  {
    if |s| > 0 {
      var n := |s| - 1;
      NonDecreasingNoDrawdown(s[..n]);
      NonDecreasingPeak(s);
    }
  }

  /** Over closes that never fall, the running peak is the last close, or 0
      while that is not positive. */
  lemma NonDecreasingPeak(s: seq<real>)
    requires |s| > 0
    requires forall j, k :: 0 <= j <= k < |s| ==> s[j] <= s[k]
    ensures Peak(s) == if s[|s| - 1] > 0.0 then s[|s| - 1] else 0.0
  {
    var peak := Peak(s);
    if peak != 0.0 {
      assert peak in s;
    }
  }

  /** A single bar has no drawdown. */
  lemma SingleBarNoDrawdown(c: real)
    ensures MaxDrawdown([c]) == 0.0
  {
    NonDecreasingNoDrawdown([c]);
  }

  /** A further bar never lowers the maximum drawdown. */
  lemma MaxDrawdownMonotone(s: seq<real>, c: real)
    ensures MaxDrawdown(s) <= MaxDrawdown(s + [c])
  {
    assert (s + [c])[..|s|] == s;
  }

  // -------------------------------------------------------------- volatility

  /** The last (at most) 30 closes: `data.slice(-30)`. */
  function Recent30(closes: seq<real>): (r: seq<real>)
    ensures |r| == if |closes| < 30 then |closes| else 30
    ensures r == closes[|closes| - |r|..]
  {
    if |closes| <= 30 then closes else closes[|closes| - 30..]
  }

  /** The bars from `i` on whose previous close is positive, in increasing
      order: the bars that contribute a log return. */
  function ReturnBars(recent: seq<real>, i: nat): (bars: seq<nat>)
    requires 1 <= i <= |recent|
    decreases |recent| - i
    ensures |bars| == PositiveCount(recent[i - 1..|recent| - 1])
    ensures forall k :: 0 <= k < |bars| ==> i <= bars[k] < |recent| && recent[bars[k] - 1] > 0.0
  {
    if i == |recent| then []
    else
      assert recent[i - 1..|recent| - 1][1..] == recent[i..|recent| - 1];
      var rest := ReturnBars(recent, i + 1);
      if recent[i - 1] > 0.0 then [i] + rest else rest
  }

  /** The return bars are strictly increasing and include every bar from `i`
      on whose previous close is positive. */
  lemma {:induction false} ReturnBarsComplete(recent: seq<real>, i: nat)
    requires 1 <= i <= |recent|
    decreases |recent| - i
    ensures forall k, l :: 0 <= k < l < |ReturnBars(recent, i)| ==> ReturnBars(recent, i)[k] < ReturnBars(recent, i)[l]
    ensures forall j :: i <= j < |recent| && recent[j - 1] > 0.0 ==> j in ReturnBars(recent, i)
  {
    if i < |recent| {
      ReturnBarsComplete(recent, i + 1);
    }
  }

  /** The log returns of `recent` from bar `i` on, skipping bars whose
      previous close is not positive: one per bar of `ReturnBars`, in order
      (`LogReturnsValues` states each value). */
  function LogReturnsFrom(recent: seq<real>, i: nat, ln: real -> real): (r: seq<real>)
    requires 1 <= i <= |recent|
    decreases |recent| - i
    ensures |r| == PositiveCount(recent[i - 1..|recent| - 1])
  {
    if i == |recent| then []
    else
      assert recent[i - 1..|recent| - 1][1..] == recent[i..|recent| - 1];
      var rest := LogReturnsFrom(recent, i + 1, ln);
      if recent[i - 1] > 0.0 then [ln(recent[i] / recent[i - 1])] + rest else rest
  }

  /** The log return `ln(recent[j] / recent[j - 1])` of each bar `j` of
      `bars`, in order. */
  function ReturnsAt(recent: seq<real>, bars: seq<nat>, ln: real -> real): (r: seq<real>)
    requires forall k :: 0 <= k < |bars| ==> 1 <= bars[k] < |recent| && recent[bars[k] - 1] > 0.0
    ensures |r| == |bars|
    ensures forall k :: 0 <= k < |r| ==> r[k] == ln(recent[bars[k]] / recent[bars[k] - 1])
  {
    seq(|bars|, k requires 0 <= k < |bars| => ln(recent[bars[k]] / recent[bars[k] - 1]))
  }

  /** The log returns are exactly the returns at the return bars: return `k`
      is the log of the close-to-close ratio at the `k`-th bar with a
      positive previous close. */
  lemma {:induction false} LogReturnsValues(recent: seq<real>, i: nat, ln: real -> real)
    requires 1 <= i <= |recent|
    decreases |recent| - i
    ensures LogReturnsFrom(recent, i, ln) == ReturnsAt(recent, ReturnBars(recent, i), ln)
  {
    if i < |recent| {
      LogReturnsValues(recent, i + 1, ln);
      if recent[i - 1] > 0.0 {
        ReturnsAtCons(recent, i, ReturnBars(recent, i + 1), ln);
      }
    }
  }

  /** Prepending a bar prepends its return. */
  lemma ReturnsAtCons(recent: seq<real>, j: nat, bars: seq<nat>, ln: real -> real)
    requires 1 <= j < |recent| && recent[j - 1] > 0.0
    requires forall k :: 0 <= k < |bars| ==> 1 <= bars[k] < |recent| && recent[bars[k] - 1] > 0.0
    ensures ReturnsAt(recent, [j] + bars, ln) == [ln(recent[j] / recent[j - 1])] + ReturnsAt(recent, bars, ln)
  {
  }

  /** Number of positive elements of `s`. */
  function PositiveCount(s: seq<real>): (c: nat)
    ensures c <= |s|
    ensures c == 0 <==> forall k :: 0 <= k < |s| ==> s[k] <= 0.0
  {
    if |s| == 0 then 0
    else
      var rest := PositiveCount(s[1..]);
      assert forall k :: 1 <= k < |s| ==> s[1..][k - 1] == s[k];
      (if s[0] > 0.0 then 1 else 0) + rest
  }

  /** `volatility30d`: 0 when the trailing 30 bars hold fewer than two bars or
      no positive previous close; otherwise the population standard deviation
      of the log returns scaled by the root of 252 trading days. */
  function Volatility30d(closes: seq<real>, ln: real -> real, sqrt: real -> real): (v: real)
    ensures var recent := Recent30(closes);
            (|recent| < 2 || forall k :: 0 <= k < |recent| - 1 ==> recent[k] <= 0.0) ==> v == 0.0
    ensures var recent := Recent30(closes);
            |recent| >= 2 && (exists k :: 0 <= k < |recent| - 1 && recent[k] > 0.0) ==>
              var logReturns := LogReturnsFrom(recent, 1, ln);
              |logReturns| > 0 && v == sqrt(Variance(logReturns)) * sqrt(252.0)
  {
    var recent := Recent30(closes);
    if |recent| > 1 then
      var logReturns := LogReturnsFrom(recent, 1, ln);
      NoReturnsIffNoPositiveBase(recent, ln);
      if |logReturns| > 0 then sqrt(Variance(logReturns)) * sqrt(252.0) else 0.0
    else 0.0
  }

  /** There are no log returns exactly when no previous close is positive. */
  lemma NoReturnsIffNoPositiveBase(recent: seq<real>, ln: real -> real)
    requires |recent| >= 1
    ensures |LogReturnsFrom(recent, 1, ln)| == 0 <==> forall k :: 0 <= k < |recent| - 1 ==> recent[k] <= 0.0
  {
    var bases := recent[0..|recent| - 1];
    assert forall k :: 0 <= k < |recent| - 1 ==> bases[k] == recent[k];
  }

  /** With a true square root the volatility is never negative. */
  lemma VolatilityNonNegative(closes: seq<real>, ln: real -> real, sqrt: real -> real)
    requires IsSqrt(sqrt)
    ensures Volatility30d(closes, ln, sqrt) >= 0.0
  {
    var recent := Recent30(closes);
    if |recent| > 1 {
      var logReturns := LogReturnsFrom(recent, 1, ln);
      if |logReturns| > 0 {
        VarianceNonNegative(logReturns);
        SqrtAt(sqrt, Variance(logReturns));
        SqrtAt(sqrt, 252.0);
      }
    }
  }

  // -------------------------------------------------------------- aggregate

  /** One SMA per standard period, in order. */
  function SmaEntries(closes: seq<real>): (r: seq<Sma.SmaData>)
    ensures |r| == |Constants.SmaPeriods|
    ensures forall k :: 0 <= k < |r| ==> r[k] == Sma.Sma(closes, Constants.SmaPeriods[k])
  {
    seq(|Constants.SmaPeriods|, k requires 0 <= k < |Constants.SmaPeriods| =>
          Sma.Sma(closes, Constants.SmaPeriods[k]))
  }

  /** One EMA per standard period, in order. */
  function EmaEntries(closes: seq<real>): (r: seq<Ema.EmaData>)
    ensures |r| == |Constants.EmaPeriods|
    ensures forall k :: 0 <= k < |r| ==> r[k] == Ema.Ema(closes, Constants.EmaPeriods[k])
  {
    seq(|Constants.EmaPeriods|, k requires 0 <= k < |Constants.EmaPeriods| =>
          Ema.Ema(closes, Constants.EmaPeriods[k]))
  }

  /** Every indicator over non-empty closes with the dashboard's periods. */
  function Aggregate(closes: seq<real>, ln: real -> real, sqrt: real -> real): (t: TechnicalIndicators)
    ensures t.sma == SmaEntries(closes) && t.ema == EmaEntries(closes)
    ensures t.rsi == Rsi.Rsi(closes, 14)
    ensures t.macd == Macd.Macd(closes, 12, 26, 9)
    ensures t.bollinger == Bollinger.Bollinger(closes, 20, 2.0, sqrt)
    ensures t.momentum == Momentum.Momentum(closes, 10)
    ensures t.risk == RiskMetrics(MaxDrawdown(closes), Volatility30d(closes, ln, sqrt))
  {
    TechnicalIndicators(
      SmaEntries(closes), EmaEntries(closes),
      Rsi.Rsi(closes, Constants.RsiPeriod),
      Macd.Macd(closes, Constants.MacdFast, Constants.MacdSlow, Constants.MacdSignal),
      Bollinger.Bollinger(closes, Constants.BollingerPeriod, Constants.BollingerStdDev, sqrt),
      Momentum.Momentum(closes, Constants.MomentumPeriod),
      RiskMetrics(MaxDrawdown(closes), Volatility30d(closes, ln, sqrt)))
  }

  /** `useTechnicalIndicators`: nothing for missing or empty data, otherwise
      every indicator with the dashboard's periods. */
  function TechnicalIndicatorsOf(data: Option<seq<real>>, ln: real -> real, sqrt: real -> real)
    : (r: Option<TechnicalIndicators>)
    ensures r.None? <==> data.None? || |data.value| == 0
    ensures r.Some? ==> r.value == Aggregate(data.value, ln, sqrt)
    ensures r.Some? ==>
              var t := r.value;
              && |t.sma| == |Constants.SmaPeriods| && |t.ema| == |Constants.EmaPeriods|
              && (forall k :: 0 <= k < |t.sma| ==> t.sma[k].period == Constants.SmaPeriods[k])
              && (forall k :: 0 <= k < |t.ema| ==> t.ema[k].period == Constants.EmaPeriods[k])
              && t.rsi.period == Constants.RsiPeriod
              && t.risk.maxDrawdown == MaxDrawdown(data.value)
              && t.risk.volatility30d == Volatility30d(data.value, ln, sqrt)
  {
    if data.None? || |data.value| == 0 then None
    else Some(Aggregate(data.value, ln, sqrt))
  }

  /** The SMA entries come in the order 20, 50, 100, 200 and the EMA entries
      in the order 12, 26. */
  lemma AggregatePeriods(closes: seq<real>, ln: real -> real, sqrt: real -> real)
    requires |closes| > 0
    ensures var t := TechnicalIndicatorsOf(Some(closes), ln, sqrt).value;
            && |t.sma| == 4 && t.sma[0].period == 20 && t.sma[1].period == 50
            && t.sma[2].period == 100 && t.sma[3].period == 200
            && |t.ema| == 2 && t.ema[0].period == 12 && t.ema[1].period == 26
  {
    var t := TechnicalIndicatorsOf(Some(closes), ln, sqrt).value;
    assert t.sma == SmaEntries(closes) && t.ema == EmaEntries(closes);
    assert t.sma[0] == Sma.Sma(closes, 20) && t.sma[1] == Sma.Sma(closes, 50);
    assert t.sma[2] == Sma.Sma(closes, 100) && t.sma[3] == Sma.Sma(closes, 200);
    assert t.ema[0] == Ema.Ema(closes, 12) && t.ema[1] == Ema.Ema(closes, 26);
  }
}
