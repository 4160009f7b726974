/** The small classification rules of the dashboard cards: the gold/silver
    ratio context, the RSI, MACD, momentum and volatility badges, and the
    gold-versus-silver "better" highlight of the risk-metric cards. */
module Dashboard {
  import opened Series
  import Constants
  import Rsi
  import Macd
  import Momentum

  // ------------------------------------------------------------ ratio context

  datatype RatioContext = WellAbove | AboveAverage | Near | BelowAverage | WellBelow

  /** Percentage distance of the current ratio from the historical average. */
  function RatioDiff(current: real, average: real): real
    requires average != 0.0
  {
    (current - average) / average * 100.0
  }

  /** `getRatioContext`: the distance cut at +15, +5, -15 and -5 percent,
      the positive cuts checked first; strict comparisons throughout. */
  function RatioContextOf(current: real, average: real): (c: RatioContext)
    requires average != 0.0
    ensures c == WellAbove <==> RatioDiff(current, average) > 15.0
    ensures c == AboveAverage <==> 5.0 < RatioDiff(current, average) <= 15.0
    ensures c == WellBelow <==> RatioDiff(current, average) < -15.0
    ensures c == BelowAverage <==> -15.0 <= RatioDiff(current, average) < -5.0
    ensures c == Near <==> -5.0 <= RatioDiff(current, average) <= 5.0
  {
    var diff := RatioDiff(current, average);
    if diff > 15.0 then WellAbove
    else if diff > 5.0 then AboveAverage
    else if diff < -15.0 then WellBelow
    else if diff < -5.0 then BelowAverage
    else Near
  }

  /** A ratio at its average is near it. */
  lemma RatioAtAverageIsNear(average: real)
    requires average != 0.0
    ensures RatioContextOf(average, average) == Near
  {
    assert RatioDiff(average, average) == 0.0;
  }

  /** The cut points belong to the milder class: a distance of exactly 15
      percent is above, exactly 5 or -5 is near, exactly -15 is below. */
  lemma RatioContextBoundaries(average: real)
    requires average > 0.0
    ensures RatioContextOf(average * 1.15, average) == AboveAverage
    ensures RatioContextOf(average * 1.05, average) == Near
    ensures RatioContextOf(average * 0.95, average) == Near
    ensures RatioContextOf(average * 0.85, average) == BelowAverage
  {
    DiffOfScaled(average, 1.15);
    DiffOfScaled(average, 1.05);
    DiffOfScaled(average, 0.95);
    DiffOfScaled(average, 0.85);
  }

  /** Scaling the average by `f` puts the ratio `(f - 1) * 100` percent away;
      `RatioContextBoundaries` uses it at the four cut points. */
  lemma DiffOfScaled(average: real, f: real)
    requires average != 0.0
    ensures RatioDiff(average * f, average) == (f - 1.0) * 100.0
  {
    var x := average * f - average;
    var q := x / average;
    assert q * average == x;
    assert x == (f - 1.0) * average;
    CancelFactor(q - (f - 1.0), average);
    assert (q - (f - 1.0)) * average == 0.0;
  }

  /** A non-zero factor cancels; `DiffOfScaled` uses it to pin the quotient down. */
  lemma CancelFactor(y: real, a: real)
    requires a != 0.0 && y * a == 0.0
    ensures y == 0.0
  {
  }

  /** A higher current ratio never gives a lower class against a positive average. */
  lemma RatioContextMonotone(c1: real, c2: real, average: real)
    requires average > 0.0 && c1 <= c2
    ensures ContextRank(RatioContextOf(c1, average)) <= ContextRank(RatioContextOf(c2, average))
  {
    var d := c2 - c1;
    assert RatioDiff(c2, average) - RatioDiff(c1, average) == d / average * 100.0;
    assert d / average >= 0.0;
  }

  /** Position of a ratio context from well below (0) to well above (4). */
  function ContextRank(c: RatioContext): (n: nat)
    ensures n <= 4
  {
    match c
    case WellBelow => 0
    case BelowAverage => 1
    case Near => 2
    case AboveAverage => 3
    case WellAbove => 4
  }

  // ------------------------------------------------------------------ badges

  /** Badge colours: green for favourable, red for unfavourable. */
  datatype Color = Green | Red | NeutralColor

  datatype RsiBadge = Overbought | Oversold | RsiNeutral

  /** The RSI card's badge and colour; the overbought flag wins over the
      oversold flag. */
  function RsiBadgeOf(isOverbought: bool, isOversold: bool): (r: (RsiBadge, Color))
    ensures r.0 == Overbought <==> isOverbought
    ensures r.0 == Oversold <==> !isOverbought && isOversold
    ensures r.0 == RsiNeutral <==> !isOverbought && !isOversold
    ensures r.1 == Red <==> r.0 == Overbought
    ensures r.1 == Green <==> r.0 == Oversold
  {
    if isOverbought then (Overbought, Red)
    else if isOversold then (Oversold, Green)
    else (RsiNeutral, NeutralColor)
  }

  /** On the RSI of closes the badge follows the current value against the
      thresholds 70 and 30. */
  lemma RsiBadgeOfRsi(closes: seq<real>, p: nat)
    requires p >= 1
    ensures var d := Rsi.Rsi(closes, p);
            var b := RsiBadgeOf(d.isOverbought, d.isOversold).0;
            && (b == Overbought <==> d.currentValue >= Constants.RsiOverbought)
            && (b == Oversold <==> d.currentValue <= Constants.RsiOversold)
            && (b == RsiNeutral <==> Constants.RsiOversold < d.currentValue < Constants.RsiOverbought)
  {
  }

  /** Constant closes put the RSI badge on overbought. */
  lemma ConstantClosesOverbought(closes: seq<real>, p: nat, c: real)
    requires p >= 1 && |closes| >= p + 1
    requires forall j :: 0 <= j < |closes| ==> closes[j] == c
    ensures var d := Rsi.Rsi(closes, p);
            RsiBadgeOf(d.isOverbought, d.isOversold).0 == Overbought
  {
    Rsi.RsiOfConstant(closes, p, c);
  }

  /** The MACD card's colour for its trend label. */
  function MacdColor(t: Macd.Trend): (c: Color)
    ensures c == Green <==> t == Macd.Bullish
    ensures c == Red <==> t == Macd.Bearish
    ensures c == NeutralColor <==> t == Macd.Neutral
  {
    match t
    case Bullish => Green
    case Bearish => Red
    case Neutral => NeutralColor
  }

  /** On a MACD histogram the colour is green exactly when the last step
      rises and red exactly when it falls. */
  lemma MacdColorOfHistogram(h: seq<Point>)
    ensures MacdColor(Macd.HistogramTrend(h)) == Green <==> |h| >= 2 && h[|h| - 1].value > h[|h| - 2].value
    ensures MacdColor(Macd.HistogramTrend(h)) == Red <==> |h| >= 2 && h[|h| - 1].value < h[|h| - 2].value
  {
  }

  datatype MomentumBadge = Positive | Negative | Flat

  /** The latest momentum value, 0 for an empty line. */
  function CurrentMomentum(line: seq<Point>): (v: real)
    ensures |line| == 0 ==> v == 0.0
    ensures |line| > 0 ==> v == line[|line| - 1].value
  {
    LastOr(line, 0.0)
  }

  /** The momentum card's badge and colour for the latest value. */
  function MomentumBadgeOf(line: seq<Point>): (r: (MomentumBadge, Color))
    ensures r.0 == Positive <==> CurrentMomentum(line) > 0.0
    ensures r.0 == Negative <==> CurrentMomentum(line) < 0.0
    ensures r.0 == Flat <==> CurrentMomentum(line) == 0.0
    ensures r.1 == Green <==> r.0 == Positive
    ensures r.1 == Red <==> r.0 == Negative
  {
    var current := CurrentMomentum(line);
    if current > 0.0 then (Positive, Green)
    else if current < 0.0 then (Negative, Red)
    else (Flat, NeutralColor)
  }

  /** With positive closes the momentum badge reports the direction of the
      move over the last period. */
  lemma MomentumBadgeOfPositiveCloses(closes: seq<real>, p: nat)
    requires p < |closes|
    requires forall j :: 0 <= j < |closes| ==> closes[j] > 0.0
    ensures var n := |closes|;
            var b := MomentumBadgeOf(Momentum.Momentum(closes, p)).0;
            && (b == Positive <==> closes[n - 1] > closes[n - 1 - p])
            && (b == Negative <==> closes[n - 1] < closes[n - 1 - p])
            && (b == Flat <==> closes[n - 1] == closes[n - 1 - p])
  {
    var n := |closes|;
    var m := Momentum.Momentum(closes, p);
    Momentum.MomentumEndsAtLastBar(closes, p);
    assert m[|m| - 1].bar == n - 1;
    Momentum.RocSign(closes[n - 1], closes[n - 1 - p]);
  }

  datatype VolatilityBadge = High | Moderate | Low

  /** The volatility card's badge and colour for an annualised volatility in
      percent: above 30 high, above 15 moderate, otherwise low. */
  function VolatilityBadgeOf(percent: real): (r: (VolatilityBadge, Color))
    ensures r.0 == High <==> percent > 30.0
    ensures r.0 == Moderate <==> 15.0 < percent <= 30.0
    ensures r.0 == Low <==> percent <= 15.0
    ensures r.1 == Red <==> r.0 == High
    ensures r.1 == Green <==> r.0 == Low
  {
    if percent > 30.0 then (High, Red)
    else if percent > 15.0 then (Moderate, NeutralColor)
    else (Low, Green)
  }

  /** The page passes the volatility fraction times 100. */
  function VolatilityBadgeOfFraction(volatility30d: real): (r: (VolatilityBadge, Color))
    ensures r.0 == High <==> volatility30d > 0.3
    ensures r.0 == Low <==> volatility30d <= 0.15
  {
    VolatilityBadgeOf(volatility30d * 100.0)
  }

  /** Raising the volatility never lowers the badge. */
  lemma VolatilityBadgeMonotone(v1: real, v2: real)
    requires v1 <= v2
    ensures VolatilityBadgeOf(v1).0 == High ==> VolatilityBadgeOf(v2).0 == High
    ensures VolatilityBadgeOf(v2).0 == Low ==> VolatilityBadgeOf(v1).0 == Low
  {
  }

  // ------------------------------------------------------------- risk cards

  /** Which side of a risk-metric card is highlighted. */
  datatype Highlight = Highlight(goldBetter: bool, silverBetter: bool)

  /** `MetricCard`: gold is better when strictly higher (or strictly lower
      when lower is better); silver is better when gold is not and the raw
      values differ. */
  function HighlightOf(goldRaw: real, silverRaw: real, higherIsBetter: bool): (h: Highlight)
    ensures h.goldBetter <==> (if higherIsBetter then goldRaw > silverRaw else goldRaw < silverRaw)
    ensures h.silverBetter <==> (if higherIsBetter then silverRaw > goldRaw else silverRaw < goldRaw)
  {
    var goldBetter := if higherIsBetter then goldRaw > silverRaw else goldRaw < silverRaw;
    Highlight(goldBetter, !goldBetter && goldRaw != silverRaw)
  }

  /** At most one side is highlighted; equal values highlight neither and
      unequal values exactly one. */
  lemma HighlightExclusive(goldRaw: real, silverRaw: real, higherIsBetter: bool)
    ensures var h := HighlightOf(goldRaw, silverRaw, higherIsBetter);
            && !(h.goldBetter && h.silverBetter)
            && (goldRaw == silverRaw ==> !h.goldBetter && !h.silverBetter)
            && (goldRaw != silverRaw ==> h.goldBetter != h.silverBetter)
  {
  }

  /** For unequal values, flipping the direction of the metric swaps the
      highlighted side. */
  lemma HighlightFlip(goldRaw: real, silverRaw: real, higherIsBetter: bool)
    requires goldRaw != silverRaw
    ensures var h := HighlightOf(goldRaw, silverRaw, higherIsBetter);
            var f := HighlightOf(goldRaw, silverRaw, !higherIsBetter);
            f.goldBetter == h.silverBetter && f.silverBetter == h.goldBetter
  {
  }

  /** Swapping the two metals swaps the highlighted side. */
  lemma HighlightSwap(goldRaw: real, silverRaw: real, higherIsBetter: bool)
    ensures var h := HighlightOf(goldRaw, silverRaw, higherIsBetter);
            var s := HighlightOf(silverRaw, goldRaw, higherIsBetter);
            s.goldBetter == h.silverBetter && s.silverBetter == h.goldBetter
  {
  }
}
