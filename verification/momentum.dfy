/** Rate-of-change momentum: for every bar `i` from `period` on, the change of
    the close against the close `period` bars earlier, in percent of the
    earlier close. Bars whose earlier close is 0 are skipped. */
module Momentum {
  import opened Series

  /** Rate of change of `close` against `base`, in percent. */
  function Roc(close: real, base: real): (r: real)
    requires base != 0.0
    ensures r == 0.0 <==> close == base
    ensures base > 0.0 ==> (r > 0.0 <==> close > base) && (r < 0.0 <==> close < base)
    ensures base < 0.0 ==> (r > 0.0 <==> close < base) && (r < 0.0 <==> close > base)
  {
    var q := (close - base) / base;
    assert q * base == close - base;
    q * 100.0
  }

  /** The earlier close is recovered from the rate of change: applying the
      percentage to the base gives the later close back. */
  lemma RocInverse(close: real, base: real)
    requires base != 0.0
    ensures base + base * Roc(close, base) / 100.0 == close
  {
    var q := (close - base) / base;
    assert q * base == close - base;
    assert Roc(close, base) / 100.0 == q;
  }

  /** Against a positive base the rate of change has the sign of the price move. */
  lemma RocSign(close: real, base: real)
    requires base > 0.0
    ensures Roc(close, base) > 0.0 <==> close > base
    ensures Roc(close, base) < 0.0 <==> close < base
    ensures Roc(close, base) == 0.0 <==> close == base
  {
  }

  /** Number of non-zero elements of `s`. */
  function NonZeroCount(s: seq<real>): (c: nat)
    ensures c <= |s|
  {
    if |s| == 0 then 0 else (if s[0] != 0.0 then 1 else 0) + NonZeroCount(s[1..])
  }

  /** Every element is counted exactly when none is zero. */
  lemma {:induction false} NonZeroCountFull(s: seq<real>)
    ensures NonZeroCount(s) == |s| <==> forall k :: 0 <= k < |s| ==> s[k] != 0.0
  {
    if |s| > 0 {
      NonZeroCountFull(s[1..]);
      if forall k :: 0 <= k < |s| ==> s[k] != 0.0 {
        assert forall k :: 0 <= k < |s| - 1 ==> s[1..][k] != 0.0 by {
          forall k | 0 <= k < |s| - 1
            ensures s[1..][k] != 0.0
          {
            assert s[1..][k] == s[k + 1];
          }
        }
      } else if s[0] != 0.0 {
        var k :| 0 <= k < |s| && s[k] == 0.0;
        assert s[1..][k - 1] == 0.0;
      }
    }
  }

  /** The loop from bar `i` on: one point per bar whose earlier close is non-zero. */
  function MomentumFrom(closes: seq<real>, p: nat, i: nat): (r: seq<Point>)
    requires p <= i <= |closes|
    decreases |closes| - i
    ensures forall k :: 0 <= k < |r| ==>
              && i <= r[k].bar < |closes|
              && closes[r[k].bar - p] != 0.0
              && r[k].value == Roc(closes[r[k].bar], closes[r[k].bar - p])
    ensures forall k, l :: 0 <= k < l < |r| ==> r[k].bar < r[l].bar
  {
    if i == |closes| then []
    else
      var rest := MomentumFrom(closes, p, i + 1);
      if closes[i - p] == 0.0 then rest
      else [Point(i, Roc(closes[i], closes[i - p]))] + rest
  }

  /** The loop emits a point for bar `j` exactly when the close `period` bars
      before `j` is non-zero. */
  lemma {:induction false} MomentumFromBars(closes: seq<real>, p: nat, i: nat, j: nat)
    requires p <= i <= j < |closes|
    decreases |closes| - i
    ensures j in Bars(MomentumFrom(closes, p, i)) <==> closes[j - p] != 0.0
  {
    var rest := MomentumFrom(closes, p, i + 1);
    if j > i {
      MomentumFromBars(closes, p, i + 1, j);
      if closes[i - p] != 0.0 {
        assert Bars(MomentumFrom(closes, p, i)) == [i] + Bars(rest);
      }
    } else if i + 1 <= |closes| {
      assert i !in Bars(rest);
      if closes[i - p] != 0.0 {
        assert Bars(MomentumFrom(closes, p, i))[0] == i;
      }
    }
  }

  /** The loop emits one point per non-zero earlier close. */
  lemma {:induction false} MomentumFromCount(closes: seq<real>, p: nat, i: nat)
    requires p <= i <= |closes|
    decreases |closes| - i
    ensures |MomentumFrom(closes, p, i)| == NonZeroCount(closes[i - p..|closes| - p])
  {
    if i < |closes| {
      MomentumFromCount(closes, p, i + 1);
      assert closes[i - p..|closes| - p][1..] == closes[i + 1 - p..|closes| - p];
    }
  }

  /** `computeMomentum`: the points for bars `period` to the last, skipping
      zero earlier closes; empty when there are no more closes than the period. */
  function Momentum(closes: seq<real>, p: nat): (r: seq<Point>)
    ensures |closes| <= p ==> r == []
    ensures forall k :: 0 <= k < |r| ==>
              && p <= r[k].bar < |closes|
              && closes[r[k].bar - p] != 0.0
              && r[k].value == Roc(closes[r[k].bar], closes[r[k].bar - p])
    ensures forall k, l :: 0 <= k < l < |r| ==> r[k].bar < r[l].bar
  {
    if |closes| <= p then [] else MomentumFrom(closes, p, p)
  }

  /** Every bar from `period` on whose earlier close is non-zero gets a point,
      and no other bar does. */
  lemma MomentumBars(closes: seq<real>, p: nat, j: nat)
    requires p <= j < |closes|
    ensures j in Bars(Momentum(closes, p)) <==> closes[j - p] != 0.0
  {
    MomentumFromBars(closes, p, p, j);
  }

  /** When the earlier close of the last bar is non-zero, the line ends with
      the point for the last bar. */
  lemma MomentumEndsAtLastBar(closes: seq<real>, p: nat)
    requires p < |closes| && closes[|closes| - 1 - p] != 0.0
    ensures var m := Momentum(closes, p);
            |m| > 0 && m[|m| - 1].bar == |closes| - 1
  {
    MomentumBars(closes, p, |closes| - 1);
    EndsAtLargestBar(Momentum(closes, p), |closes| - 1);
  }

  /** A line with strictly increasing bars, none past `b`, and a point at
      `b` ends with that point. */
  lemma EndsAtLargestBar(m: seq<Point>, b: nat)
    requires b in Bars(m)
    requires forall a :: 0 <= a < |m| ==> m[a].bar <= b
    requires forall a, c :: 0 <= a < c < |m| ==> m[a].bar < m[c].bar
    ensures |m| > 0 && m[|m| - 1].bar == b
  {
    var k :| 0 <= k < |m| && Bars(m)[k] == b;
    assert m[k].bar <= m[|m| - 1].bar;
  }

  /** There is at most one point per bar from `period` on, and exactly one
      per such bar precisely when none of the earlier closes is 0. */
  lemma MomentumLength(closes: seq<real>, p: nat)
    ensures |closes| <= p ==> |Momentum(closes, p)| == 0
    ensures |closes| > p ==> |Momentum(closes, p)| <= |closes| - p
    ensures |closes| > p ==>
              (|Momentum(closes, p)| == |closes| - p <==> forall b :: 0 <= b < |closes| - p ==> closes[b] != 0.0)
  {
    if |closes| > p {
      var bases := closes[..|closes| - p];
      MomentumFromCount(closes, p, p);
      assert closes[p - p..|closes| - p] == bases;
      NonZeroCountFull(bases);
      assert forall b :: 0 <= b < |closes| - p ==> bases[b] == closes[b];
    }
  }

  /** With positive closes no bar is skipped, and each value is positive
      exactly when the close rose over the period. */
  lemma MomentumOfPositiveCloses(closes: seq<real>, p: nat)
    requires forall j :: 0 <= j < |closes| ==> closes[j] > 0.0
    ensures |closes| > p ==> |Momentum(closes, p)| == |closes| - p
    ensures forall k :: 0 <= k < |Momentum(closes, p)| ==>
              var b := Momentum(closes, p)[k].bar;
              (Momentum(closes, p)[k].value > 0.0 <==> closes[b] > closes[b - p])
  {
    MomentumLength(closes, p);
    var r := Momentum(closes, p);
    forall k | 0 <= k < |r|
      ensures r[k].value > 0.0 <==> closes[r[k].bar] > closes[r[k].bar - p]
    {
      RocSign(closes[r[k].bar], closes[r[k].bar - p]);
    }
  }
}
