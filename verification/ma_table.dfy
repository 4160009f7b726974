/** The overall verdict of the moving-average table: the share of moving
    averages the latest close is at or above, cut at 0.9, 0.6, 0.4 and 0.1. */
module MaTable {
  import opened Page

  datatype OverallSignal = StrongBullish | Bullish | Neutral | Bearish | StrongBearish

  /** Position of a verdict from most bearish (0) to most bullish (4). */
  function Rank(s: OverallSignal): (n: nat)
    ensures n <= 4
  {
    match s
    case StrongBearish => 0
    case Bearish => 1
    case Neutral => 2
    case Bullish => 3
    case StrongBullish => 4
  }

  /** Number of rows whose latest close is at or above the average. */
  function AboveCount(signals: seq<MaSignal>): (c: nat)
    ensures c <= |signals|
    ensures c == 0 <==> forall k :: 0 <= k < |signals| ==> signals[k].priceRelation != Above
    ensures c == |signals| <==> forall k :: 0 <= k < |signals| ==> signals[k].priceRelation == Above
  {
    if |signals| == 0 then 0
    else AboveCount(signals[..|signals| - 1]) + (if signals[|signals| - 1].priceRelation == Above then 1 else 0)
  }

  /** The cut points applied to the ratio `above / total`; neutral for no rows. */
  function Classify(above: nat, total: nat): (s: OverallSignal)
    requires above <= total
    ensures total == 0 ==> s == Neutral
    ensures total > 0 ==>
              && (s == StrongBullish <==> 10 * above >= 9 * total)
              && (s == Bullish <==> 10 * above < 9 * total && 10 * above >= 6 * total)
              && (s == Neutral <==> 10 * above < 6 * total && 10 * above >= 4 * total)
              && (s == Bearish <==> 10 * above < 4 * total && 10 * above >= 1 * total)
              && (s == StrongBearish <==> 10 * above < 1 * total)
  {
    if total == 0 then Neutral
    else
      var ratio := above as real / total as real;
      RatioCut(above, total, 0.9, 9);
      RatioCut(above, total, 0.6, 6);
      RatioCut(above, total, 0.4, 4);
      RatioCut(above, total, 0.1, 1);
      if ratio >= 0.9 then StrongBullish
      else if ratio >= 0.6 then Bullish
      else if ratio >= 0.4 then Neutral
      else if ratio >= 0.1 then Bearish
      else StrongBearish
  }

  /** A cut `above / total >= t / 10` in exact integer terms. */
  lemma RatioCut(above: nat, total: nat, cut: real, tenths: nat)
    requires total > 0 && cut == tenths as real / 10.0
    ensures above as real / total as real >= cut <==> 10 * above >= tenths * total
  {
    var q := above as real / total as real;
    var t := total as real;
    assert q * t == above as real;
    assert (10 * above) as real == 10.0 * q * t;
    assert (tenths * total) as real == cut * 10.0 * t;
    if q >= cut {
      assert q * t >= cut * t;
    } else {
      assert q * t < cut * t;
    }
  }

  /** `getOverallSignal`: the share of rows at or above their average, cut
      into five bands; no rows is neutral. */
  function OverallSignalOf(signals: seq<MaSignal>): (s: OverallSignal)
    ensures |signals| == 0 ==> s == Neutral
    ensures var above, total := AboveCount(signals), |signals|;
            total > 0 ==>
              && (s == StrongBullish <==> 10 * above >= 9 * total)
              && (s == Bullish <==> 6 * total <= 10 * above < 9 * total)
              && (s == Neutral <==> 4 * total <= 10 * above < 6 * total)
              && (s == Bearish <==> 1 * total <= 10 * above < 4 * total)
              && (s == StrongBearish <==> 10 * above < 1 * total)
    ensures (forall k :: 0 <= k < |signals| ==> signals[k].priceRelation == Above) ==> s == StrongBullish || |signals| == 0
    ensures |signals| > 0 && (forall k :: 0 <= k < |signals| ==> signals[k].priceRelation != Above) ==> s == StrongBearish
  {
    Classify(AboveCount(signals), |signals|)
  }

  /** Counting splits over concatenation. */
  lemma {:induction false} AboveCountAppend(a: seq<MaSignal>, b: seq<MaSignal>)
    ensures AboveCount(a + b) == AboveCount(a) + AboveCount(b)
  {
    if |b| == 0 {
      assert a + b == a;
    } else {
      assert (a + b)[..|a + b| - 1] == a + b[..|b| - 1];
      AboveCountAppend(a, b[..|b| - 1]);
    }
  }

  /** The count depends only on the multiset of rows. */
  lemma {:induction false} AboveCountPermutation(a: seq<MaSignal>, b: seq<MaSignal>)
    requires multiset(a) == multiset(b)
    ensures AboveCount(a) == AboveCount(b)
    decreases |a|
  {
    if |a| > 0 {
      var x := a[0];
      assert x in multiset(b);
      var j :| 0 <= j < |b| && b[j] == x;
      var rest := b[..j] + b[j + 1..];
      assert b == b[..j] + [x] + b[j + 1..];
      assert a == [x] + a[1..];
      assert multiset(b) == multiset(rest) + multiset{x} by {
        assert multiset(b) == multiset(b[..j]) + multiset([x]) + multiset(b[j + 1..]);
      }
      assert multiset(a) == multiset(a[1..]) + multiset{x};
      assert multiset(a[1..]) == multiset(a) - multiset{x};
      assert multiset(rest) == multiset(b) - multiset{x};
      AboveCountPermutation(a[1..], rest);
      AboveCountAppend([x], a[1..]);
      AboveCountAppend(b[..j] + [x], b[j + 1..]);
      AboveCountAppend(b[..j], [x]);
      AboveCountAppend(b[..j], b[j + 1..]);
      assert AboveCount([x]) == (if x.priceRelation == Above then 1 else 0) by {
        assert [x][..0] == [];
      }
    } else {
      assert |b| == |multiset(b)|;
    }
  }

  /** Reordering the rows does not change the verdict. */
  lemma OverallSignalPermutation(a: seq<MaSignal>, b: seq<MaSignal>)
    requires multiset(a) == multiset(b)
    ensures OverallSignalOf(a) == OverallSignalOf(b)
  {
    AboveCountPermutation(a, b);
    assert |a| == |multiset(a)| == |multiset(b)| == |b|;
  }

  /** More rows above the average never make the verdict more bearish. */
  lemma ClassifyMonotone(a1: nat, a2: nat, total: nat)
    requires a1 <= a2 <= total
    ensures Rank(Classify(a1, total)) <= Rank(Classify(a2, total))
  {
  }

  /** Out of four rows: 4, 3, 2, 1 and 0 above give the five verdicts from
      strongly bullish to strongly bearish. */
  lemma ClassifyOutOfFour()
    ensures Classify(4, 4) == StrongBullish
    ensures Classify(3, 4) == Bullish
    ensures Classify(2, 4) == Neutral
    ensures Classify(1, 4) == Bearish
    ensures Classify(0, 4) == StrongBearish
  {
  }
}
