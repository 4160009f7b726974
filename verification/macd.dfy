/** Moving average convergence/divergence: the difference of a fast and a
    slow EMA of the closes, a signal line that is an EMA of that difference,
    their difference as a histogram, and a trend label read off the last two
    histogram values. */
module Macd {
  import opened Series
  import Ema

  datatype Trend = Bullish | Bearish | Neutral

  datatype MacdData = MacdData(
    macdLine: seq<Point>,
    signalLine: seq<Point>,
    histogram: seq<Point>,
    currentMacd: real,
    currentSignal: real,
    currentHistogram: real,
    signal: Trend)

  /** `emaFromCloses`: the EMA aligned to absolute index, with 0 placeholders
      before the seed index `period - 1`; empty when there are too few closes. */
  function EmaFromCloses(closes: seq<real>, p: nat): (r: seq<real>)
    requires p >= 1
    ensures |closes| < p ==> r == []
    ensures |closes| >= p ==> |r| == |closes|
    ensures |closes| >= p ==> forall i :: 0 <= i < p - 1 ==> r[i] == 0.0
    ensures |closes| >= p ==> r[p - 1] == Mean(closes[..p])
    ensures |closes| >= p ==>
              forall i :: p - 1 <= i < |closes| ==> r[i] == Ema.EmaSeries(closes, p)[i - (p - 1)]
  {
    if |closes| < p then []
    else seq(p - 1, _ => 0.0) + Ema.EmaSeries(closes, p)
  }

  /** Pointwise difference of two equally long sequences. */
  function Difference(a: seq<real>, b: seq<real>): (r: seq<real>)
    requires |a| == |b|
    ensures |r| == |a|
    ensures forall k :: 0 <= k < |a| ==> r[k] == a[k] - b[k]
  {
    if |a| == 0 then [] else [a[0] - b[0]] + Difference(a[1..], b[1..])
  }

  /** The MACD values, one per index from `slow - 1` on: fast EMA minus slow
      EMA at the same bar, i.e. element `slow - fast + k` of the fast series
      against element `k` of the slow one. */
  function MacdValues(closes: seq<real>, fast: nat, slow: nat): (r: seq<real>)
    requires 1 <= fast <= slow <= |closes|
    ensures |r| == |closes| - slow + 1
    ensures forall k :: 0 <= k < |r| ==>
              r[k] == Ema.EmaSeries(closes, fast)[slow - fast + k] - Ema.EmaSeries(closes, slow)[k]
  {
    Difference(Ema.EmaSeries(closes, fast)[slow - fast..], Ema.EmaSeries(closes, slow))
  }

  /** The trend label from the previous and current histogram values. */
  function TrendOf(prev: real, curr: real): (t: Trend)
    ensures t == Bullish <==> curr > prev
    ensures t == Bearish <==> curr < prev
    ensures t == Neutral <==> curr == prev
  {
    if curr > 0.0 && prev <= 0.0 then Bullish
    else if curr < 0.0 && prev >= 0.0 then Bearish
    else if curr > prev then Bullish
    else if curr < prev then Bearish
    else Neutral
  }

  /** The label of a histogram: read off its last two values, neutral when
      there are fewer than two. */
  function HistogramTrend(h: seq<Point>): (t: Trend)
    ensures |h| < 2 ==> t == Neutral
    ensures |h| >= 2 ==>
              && (t == Bullish <==> h[|h| - 1].value > h[|h| - 2].value)
              && (t == Bearish <==> h[|h| - 1].value < h[|h| - 2].value)
              && (t == Neutral <==> h[|h| - 1].value == h[|h| - 2].value)
  {
    if |h| >= 2 then TrendOf(h[|h| - 2].value, h[|h| - 1].value) else Neutral
  }

  /** The three lines built from the MACD values, stamped from bar `start` on:
      the MACD values from the signal seed index on, their EMA, and the
      difference of the two. */
  function MacdLines(mv: seq<real>, signal: nat, start: nat): (r: MacdData)
    requires 1 <= signal <= |mv|
    ensures |r.histogram| == |mv| - signal + 1
    ensures |r.macdLine| == |r.histogram| && |r.signalLine| == |r.histogram|
    ensures forall i :: 0 <= i < |r.macdLine| ==> r.macdLine[i] == Point(start + i, mv[signal - 1 + i])
    ensures forall i :: 0 <= i < |r.signalLine| ==>
              r.signalLine[i] == Point(start + i, Ema.EmaSeries(mv, signal)[i])
    ensures forall i :: 0 <= i < |r.histogram| ==>
              r.histogram[i] == Point(start + i, r.macdLine[i].value - r.signalLine[i].value)
    ensures r.currentMacd == r.macdLine[|r.histogram| - 1].value
    ensures r.currentSignal == r.signalLine[|r.histogram| - 1].value
    ensures r.currentHistogram == r.histogram[|r.histogram| - 1].value
    ensures r.signal == HistogramTrend(r.histogram)
  {
    var signalEma := Ema.EmaSeries(mv, signal);
    var n := |signalEma|;
    var macdLine := seq(n, i requires 0 <= i < n => Point(start + i, mv[signal - 1 + i]));
    var signalLine := seq(n, i requires 0 <= i < n => Point(start + i, signalEma[i]));
    var histogram := seq(n, i requires 0 <= i < n => Point(start + i, mv[signal - 1 + i] - signalEma[i]));
    MacdData(macdLine, signalLine, histogram,
             LastOr(macdLine, 0.0), LastOr(signalLine, 0.0), LastOr(histogram, 0.0),
             HistogramTrend(histogram))
  }

  /** `computeMACD`: all lines empty, currents 0 and a neutral label when there
      are fewer than `slow + signal` closes; otherwise three equally long lines
      starting at bar `slow + signal - 2`. */
  function Macd(closes: seq<real>, fast: nat, slow: nat, signal: nat): (r: MacdData)
    requires 1 <= fast <= slow && signal >= 1
    ensures |closes| < slow + signal ==>
              r == MacdData([], [], [], 0.0, 0.0, 0.0, Neutral)
    ensures |closes| >= slow + signal ==>
              && |r.histogram| == |closes| - slow - signal + 2
              && |r.macdLine| == |r.histogram| && |r.signalLine| == |r.histogram|
              && r.currentMacd == r.macdLine[|r.histogram| - 1].value
              && r.currentSignal == r.signalLine[|r.histogram| - 1].value
              && r.currentHistogram == r.histogram[|r.histogram| - 1].value
              && r.signal == HistogramTrend(r.histogram)
    ensures |closes| >= slow + signal ==>
              r == MacdLines(MacdValues(closes, fast, slow), signal, slow + signal - 2)
  {
    if |closes| < slow + signal then MacdData([], [], [], 0.0, 0.0, 0.0, Neutral)
    else MacdLines(MacdValues(closes, fast, slow), signal, slow + signal - 2)
  }

  /** Each signal-line value after the first is the previous one moved towards
      the MACD value at the same bar: the signal line is an EMA of the MACD line. */
  lemma SignalRecurrence(mv: seq<real>, signal: nat, start: nat, i: nat)
    requires 1 <= signal <= |mv|
    requires 1 <= i < |MacdLines(mv, signal, start).histogram|
    ensures var r := MacdLines(mv, signal, start);
            r.signalLine[i].value == Ema.Update(r.signalLine[i - 1].value, r.macdLine[i].value, signal)
  {
    var r := MacdLines(mv, signal, start);
    var s := Ema.EmaSeries(mv, signal);
    assert Ema.StepAt(mv, signal, s, i);
    assert r.signalLine[i].value == s[i];
    assert r.signalLine[i - 1].value == s[i - 1];
    assert r.macdLine[i].value == mv[i + signal - 1];
  }

  /** The MACD values are what the dashboard's loop reads off the two
      index-aligned EMA arrays, placeholders included, from index `slow - 1` on. */
  lemma MacdValuesFromAlignedEmas(closes: seq<real>, fast: nat, slow: nat, k: nat)
    requires 1 <= fast <= slow <= |closes|
    requires k < |closes| - slow + 1
    ensures MacdValues(closes, fast, slow)[k]
            == EmaFromCloses(closes, fast)[slow - 1 + k] - EmaFromCloses(closes, slow)[slow - 1 + k]
  {
    assert EmaFromCloses(closes, fast)[slow - 1 + k] == Ema.EmaSeries(closes, fast)[slow - fast + k];
  }

  /** The signal line is never empty past the early return, so the label is
      never neutral for lack of points: it is neutral exactly when the last
      histogram step is flat. */
  lemma MacdNeutralOnlyWhenFlat(closes: seq<real>, fast: nat, slow: nat, signal: nat)
    requires 1 <= fast <= slow && signal >= 1
    requires |closes| >= slow + signal
    ensures var r := Macd(closes, fast, slow, signal);
            |r.histogram| >= 2 &&
            (r.signal == Neutral <==>
               r.histogram[|r.histogram| - 1].value == r.histogram[|r.histogram| - 2].value)
  {
    var r := Macd(closes, fast, slow, signal);
    assert |r.histogram| == |closes| - slow - signal + 2;
  }
}
