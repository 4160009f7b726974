/** The pure derivations of the dashboard page: the moving-average signals
    against the latest close, period returns, the gold/silver ratio series
    and the guard of the 50/200 SMA chart overlays. */
module Page {
  import opened Series
  import Constants
  import Sma
  import Momentum
  import Indicators

  /** Whether the latest close is at or above a moving average, or below it. */
  datatype Relation = Above | Below

  /** One row of the moving-average table. */
  datatype MaSignal = MaSignal(period: nat, value: real, priceRelation: Relation, percentDiff: real)

  // --------------------------------------------------------------- MA signals

  /** The filter of `maSignals`: a standard period with a positive current value. */
  predicate Kept(s: Sma.SmaData)
  {
    s.period in Constants.SmaPeriods && s.currentValue > 0.0
  }

  /** The row for one SMA against the latest close `price`. */
  function SignalOf(s: Sma.SmaData, price: real): (m: MaSignal)
    ensures m.period == s.period && m.value == s.currentValue
    ensures m.priceRelation == Above <==> price >= s.currentValue
    ensures s.currentValue > 0.0 ==> (m.percentDiff >= 0.0 <==> m.priceRelation == Above)
    ensures s.currentValue > 0.0 ==> m.value + m.value * m.percentDiff / 100.0 == price
  {
    var v := s.currentValue;
    var relation := if price >= v then Above else Below;
    if v > 0.0 then
      PercentDiffFacts(price, v);
      MaSignal(s.period, v, relation, (price - v) / v * 100.0)
    else MaSignal(s.period, v, relation, 0.0)
  }

  lemma PercentDiffFacts(price: real, v: real)
    requires v > 0.0
    ensures (price - v) / v * 100.0 >= 0.0 <==> price >= v
    ensures v + v * ((price - v) / v * 100.0) / 100.0 == price
  {
    var q := (price - v) / v;
    assert q * v == price - v;
    assert q * 100.0 / 100.0 == q;
    if q < 0.0 {
      assert (-q) * v > 0.0;
    }
  }

  /** The rows for the kept SMAs, in their order. */
  function SignalsOf(smas: seq<Sma.SmaData>, price: real): (r: seq<MaSignal>)
    ensures |r| <= |smas|
    ensures forall k :: 0 <= k < |r| ==> r[k].period in Constants.SmaPeriods && r[k].value > 0.0
    ensures (forall k :: 0 <= k < |smas| ==> Kept(smas[k])) ==>
              |r| == |smas| && forall k :: 0 <= k < |r| ==> r[k] == SignalOf(smas[k], price)
    ensures (forall k :: 0 <= k < |smas| ==> !Kept(smas[k])) ==> r == []
  {
    if |smas| == 0 then []
    else
      var rest := SignalsOf(smas[1..], price);
      assert forall k :: 1 <= k < |smas| ==> smas[1..][k - 1] == smas[k];
      if Kept(smas[0]) then [SignalOf(smas[0], price)] + rest else rest
  }

  /** Filtering and mapping commute with concatenation, so the rows keep the
      relative order of their SMAs. */
  lemma {:induction false} SignalsOfAppend(a: seq<Sma.SmaData>, b: seq<Sma.SmaData>, price: real)
    ensures SignalsOf(a + b, price) == SignalsOf(a, price) + SignalsOf(b, price)
  {
    if |a| > 0 {
      assert (a + b)[1..] == a[1..] + b;
      SignalsOfAppend(a[1..], b, price);
    } else {
      assert a + b == b;
    }
  }

  /** A single SMA yields its row exactly when it is kept; with
      `SignalsOfAppend` this pins down the filter on any list. */
  lemma SignalsOfSingle(s: Sma.SmaData, price: real)
    ensures SignalsOf([s], price) == if Kept(s) then [SignalOf(s, price)] else []
  {
    assert [s][1..] == [];
  }

  /** `maSignals`: no rows without indicators or bars; otherwise the kept
      SMAs against the latest close. */
  function MaSignals(indicators: Option<Indicators.TechnicalIndicators>, data: Option<seq<real>>)
    : (r: seq<MaSignal>)
    ensures indicators.None? || data.None? || |data.value| == 0 ==> r == []
    ensures indicators.Some? && data.Some? && |data.value| > 0 ==>
              r == SignalsOf(indicators.value.sma, data.value[|data.value| - 1])
  {
    if indicators.None? || data.None? || |data.value| == 0 then []
    else SignalsOf(indicators.value.sma, data.value[|data.value| - 1])
  }

  // ------------------------------------------------------------------ returns

  /** `calcReturn`: the percentage change over the last `periods` bars; 0 when
      there are too few bars or the starting close is not positive. */
  function CalcReturn(data: seq<real>, periods: nat): (r: real)
    ensures |data| < periods + 1 ==> r == 0.0
    ensures |data| >= periods + 1 && data[|data| - 1 - periods] <= 0.0 ==> r == 0.0
    ensures |data| >= periods + 1 && data[|data| - 1 - periods] > 0.0 ==>
              r == Momentum.Roc(data[|data| - 1], data[|data| - 1 - periods])
  {
    if |data| < periods + 1 then 0.0
    else
      var start := data[|data| - 1 - periods];
      var end := data[|data| - 1];
      if start > 0.0 then Momentum.Roc(end, start) else 0.0
  }

  /** The period return is the latest point of the momentum line with the
      same period whenever the starting close is positive. */
  lemma CalcReturnIsLatestMomentum(data: seq<real>, periods: nat)
    requires |data| >= periods + 1 && data[|data| - 1 - periods] > 0.0
    ensures var m := Momentum.Momentum(data, periods);
            |m| > 0 && m[|m| - 1] == Point(|data| - 1, CalcReturn(data, periods))
  {
    Momentum.MomentumEndsAtLastBar(data, periods);
  }

  // -------------------------------------------------------------- ratio data

  /** `ratioData`: nothing unless both series are present; otherwise one point
      per common bar, gold over silver, or 0 when the silver close is not positive. */
  function RatioData(gold: Option<seq<real>>, silver: Option<seq<real>>): (r: Option<seq<Point>>)
    ensures r.None? <==> gold.None? || silver.None?
    ensures r.Some? ==>
              var n := if |gold.value| < |silver.value| then |gold.value| else |silver.value|;
              |r.value| == n
              && forall i :: 0 <= i < n ==>
                   r.value[i].bar == i
                   && (silver.value[i] > 0.0 ==> r.value[i].value * silver.value[i] == gold.value[i])
                   && (silver.value[i] <= 0.0 ==> r.value[i].value == 0.0)
  {
    if gold.None? || silver.None? then None
    else
      var g := gold.value;
      var s := silver.value;
      var n := if |g| < |s| then |g| else |s|;
      Some(seq(n, i requires 0 <= i < n => Point(i, if s[i] > 0.0 then g[i] / s[i] else 0.0)))
  }

  // ----------------------------------------------------------------- overlays

  /** The 50- and 200-bar SMA overlays. */
  datatype Overlays = Overlays(sma50: seq<Point>, sma200: seq<Point>)

  /** `maOverlays`: present only when toggled on and at least 200 bars exist. */
  function MaOverlays(showMAs: bool, data: Option<seq<real>>): (r: Option<Overlays>)
    ensures r.Some? <==> showMAs && data.Some? && |data.value| >= 200
    ensures r.Some? ==>
              |r.value.sma50| == |data.value| - 49 && |r.value.sma200| == |data.value| - 199
              && r.value.sma50 == Sma.Sma(data.value, 50).values
              && r.value.sma200 == Sma.Sma(data.value, 200).values
  {
    if !showMAs || data.None? || |data.value| < 200 then None
    else Some(Overlays(Sma.Sma(data.value, 50).values, Sma.Sma(data.value, 200).values))
  }
}
