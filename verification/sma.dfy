/** Simple moving average: the mean of each window of `period` consecutive
    closes, stamped with the last bar of the window. */
module Sma {
  import opened Series

  datatype SmaData = SmaData(period: nat, values: seq<Point>, currentValue: real)

  /** The points for window ends `i`, `i + 1`, ..., `|closes| - 1`, each sum
      accumulated index by index over the window as the outer loop does. */
  function SmaFrom(closes: seq<real>, p: nat, i: nat): (r: seq<Point>)
    requires 1 <= p && p - 1 <= i <= |closes|
    decreases |closes| - i
    ensures |r| == |closes| - i
    ensures forall k :: 0 <= k < |r| ==>
              r[k].bar == i + k && r[k].value == Mean(closes[i + k + 1 - p..i + k + 1])
  {
    if i == |closes| then []
    else [Point(i, WindowSum(closes, i + 1 - p, i + 1) / p as real)] + SmaFrom(closes, p, i + 1)
  }

  /** `computeSMA`: one point per full window; empty with `currentValue` 0
      when there are fewer closes than the period. */
  function Sma(closes: seq<real>, p: nat): (r: SmaData)
    requires p >= 1
    ensures r.period == p
    ensures |r.values| == if |closes| < p then 0 else |closes| - p + 1
    ensures forall k :: 0 <= k < |r.values| ==>
              r.values[k].bar == k + p - 1 && r.values[k].value == Mean(closes[k..k + p])
    ensures |r.values| == 0 ==> r.currentValue == 0.0
    ensures |r.values| > 0 ==> r.currentValue == r.values[|r.values| - 1].value
  {
    var values := if |closes| < p then [] else SmaFrom(closes, p, p - 1);
    SmaData(p, values, LastOr(values, 0.0))
  }

  /** Every average lies between the smallest and the largest close of its window. */
  lemma SmaWithinWindowRange(closes: seq<real>, p: nat, k: nat)
    requires p >= 1
    requires k < |Sma(closes, p).values|
    ensures Min(closes[k..k + p]) <= Sma(closes, p).values[k].value <= Max(closes[k..k + p])
  {
    MeanWithinRange(closes[k..k + p]);
  }

  /** Constant closes give the constant back at every point and as the current value. */
  lemma SmaOfConstant(closes: seq<real>, p: nat, c: real)
    requires p >= 1
    requires forall j :: 0 <= j < |closes| ==> closes[j] == c
    ensures forall k :: 0 <= k < |Sma(closes, p).values| ==> Sma(closes, p).values[k].value == c
    ensures |closes| >= p ==> Sma(closes, p).currentValue == c
  {
    var r := Sma(closes, p);
    forall k | 0 <= k < |r.values|
      ensures r.values[k].value == c
    {
      MeanOfConstant(closes[k..k + p], c);
    }
  }

  /** Closes 10, 11, ..., 20 with period 5: seven averages, 12 at bar 4 and 18 at bar 10. */
  lemma SmaTenToTwenty()
    ensures var r := Sma([10.0, 11.0, 12.0, 13.0, 14.0, 15.0, 16.0, 17.0, 18.0, 19.0, 20.0], 5);
            |r.values| == 7 && r.values[0] == Point(4, 12.0) && r.values[6] == Point(10, 18.0)
            && r.currentValue == 18.0
  {
    var closes := [10.0, 11.0, 12.0, 13.0, 14.0, 15.0, 16.0, 17.0, 18.0, 19.0, 20.0];
    assert closes[0..5] == [10.0, 11.0, 12.0, 13.0, 14.0];
    assert closes[6..11] == [16.0, 17.0, 18.0, 19.0, 20.0];
    SumOfFive(10.0, 11.0, 12.0, 13.0, 14.0);
    SumOfFive(16.0, 17.0, 18.0, 19.0, 20.0);
  }

  lemma SumOfFive(a: real, b: real, c: real, d: real, e: real)
    ensures Sum([a, b, c, d, e]) == a + b + c + d + e
  {
    assert [a][..0] == [];
    assert Sum([a]) == a;
    assert [a, b][..1] == [a];
    assert Sum([a, b]) == a + b;
    assert [a, b, c][..2] == [a, b];
    assert Sum([a, b, c]) == a + b + c;
    assert [a, b, c, d][..3] == [a, b, c];
    assert Sum([a, b, c, d]) == a + b + c + d;
    assert [a, b, c, d, e][..4] == [a, b, c, d];
  }
}
