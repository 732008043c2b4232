/** The return and P&L figures of BacktestMetrics.from_returns (backtests/metrics.py); the
    statistical ratios are not part of this model. */
module Metrics {
  import opened Foundations

  datatype Summary = Summary(
    totalReturn: real, winRate: real, profitFactor: real, realized: real, totalTrades: nat)

  /** Product of (1 + r); 1 when there are no returns. */
  function Growth(xs: seq<real>): real {
    if |xs| == 0 then 1.0 else Growth(xs[..|xs| - 1]) * (1.0 + xs[|xs| - 1])
  }

  function Wins(trades: seq<real>): nat {
    if |trades| == 0 then 0 else Wins(trades[..|trades| - 1]) + if trades[|trades| - 1] > 0.0 then 1 else 0
  }

  function Gains(trades: seq<real>): real {
    if |trades| == 0 then 0.0 else
      Gains(trades[..|trades| - 1]) + if trades[|trades| - 1] > 0.0 then trades[|trades| - 1] else 0.0
  }

  /** Absolute value of the summed losing trades. */
  function Losses(trades: seq<real>): real {
    if |trades| == 0 then 0.0 else
      Losses(trades[..|trades| - 1]) + if trades[|trades| - 1] < 0.0 then -trades[|trades| - 1] else 0.0
  }

  function FromReturns(rets: seq<real>, trades: seq<real>): Summary {
    Summary(Growth(rets) - 1.0,
            if |trades| > 0 then Wins(trades) as real / |trades| as real else 0.0,
            if Losses(trades) > 0.0 then Gains(trades) / Losses(trades) else 0.0,
            Sum(trades), |trades|)
  }

  lemma {:induction false} GainsLessLosses(trades: seq<real>)
    ensures Gains(trades) - Losses(trades) == Sum(trades)
    ensures Gains(trades) >= 0.0 && Losses(trades) >= 0.0
    ensures Wins(trades) <= |trades|
    ensures Losses(trades) == 0.0 <==> forall i :: 0 <= i < |trades| ==> trades[i] >= 0.0
    ensures Wins(trades) == |trades| <==> forall i :: 0 <= i < |trades| ==> trades[i] > 0.0
  {
    if |trades| > 0 {
      var init := trades[..|trades| - 1];
      GainsLessLosses(init);
      assert forall i :: 0 <= i < |init| ==> init[i] == trades[i];
    }
  }

  /** The wins are the trades above zero, and gains and losses together are all the money that moved. */
  lemma {:induction false} WinsAreCounted(trades: seq<real>)
    ensures Wins(trades) == |set i | 0 <= i < |trades| && trades[i] > 0.0|
    ensures Gains(trades) + Losses(trades) == Sum(seq(|trades|, i requires 0 <= i < |trades| => Abs(trades[i])))
  {
    var all := seq(|trades|, i requires 0 <= i < |trades| => Abs(trades[i]));
    var wins := set i | 0 <= i < |trades| && trades[i] > 0.0;
    if |trades| > 0 {
      var n := |trades| - 1;
      WinsAreCounted(trades[..n]);
      var before := set i | 0 <= i < n && trades[..n][i] > 0.0;
      assert wins == if trades[n] > 0.0 then before + {n} else before;
      assert all[..n] == seq(n, i requires 0 <= i < n => Abs(trades[..n][i]));
    } else {
      assert wins == {};
    }
  }

  /** The ratios describe one list of trades: the win rate is the share of trades above zero; with a losing trade
      the profit factor is what was gained per unit lost, and beats one exactly when the trades made money, and
      without one it is reported as zero. */
  lemma SummaryAgrees(rets: seq<real>, trades: seq<real>)
    ensures var s := FromReturns(rets, trades);
            var losers := exists i :: 0 <= i < |trades| && trades[i] < 0.0;
            && 0.0 <= s.winRate <= 1.0
            && s.winRate * |trades| as real == |set i | 0 <= i < |trades| && trades[i] > 0.0| as real
            && s.profitFactor * Losses(trades) == (if losers then Gains(trades) else 0.0)
            && s.profitFactor >= 0.0 && (!losers ==> s.profitFactor == 0.0)
            && (losers ==> (s.profitFactor > 1.0 <==> s.realized > 0.0))
            && s.totalTrades == |trades|
  {
    GainsLessLosses(trades);
    WinsAreCounted(trades);
    hide Gains, Losses, Wins, Sum, Growth;
    if |trades| > 0 { Fraction(Wins(trades) as real, |trades| as real); }
    if Losses(trades) > 0.0 { Quotient(Gains(trades), Losses(trades)); }
  }

  lemma Fraction(a: real, b: real)
    requires 0.0 <= a <= b && b > 0.0
    ensures 0.0 <= a / b <= 1.0 && a / b * b == a
  {}

  lemma Quotient(a: real, b: real)
    requires a >= 0.0 && b > 0.0
    ensures a / b >= 0.0 && (a / b > 1.0 <==> a - b > 0.0) && a / b * b == a
  {}

  // ---- Returns against values ----

  /** The relative change from one value to the next, zero from a value that is not positive. */
  function Ret(v: real, w: real): real { if v > 0.0 then (w - v) / v else 0.0 }

  /** Every return is the relative change between the values around it. */
  ghost predicate ReturnsOf(values: seq<real>, daily: seq<real>) {
    && |values| == |daily| + 1
    && forall i :: 0 <= i < |daily| ==> daily[i] == Ret(values[i], values[i + 1])
  }

  lemma ReturnsExtend(values: seq<real>, daily: seq<real>, w: real)
    requires ReturnsOf(values, daily)
    ensures ReturnsOf(values + [w], daily + [Ret(values[|values| - 1], w)])
  {
    hide Ret;
  }

  /** While values stay positive, the returns of a window compound to the ratio of its ends. */
  lemma {:induction false} GrowthIsRatio(values: seq<real>, daily: seq<real>, i: nat, j: nat)
    requires ReturnsOf(values, daily) && i <= j <= |daily|
    requires forall k :: i <= k < j ==> values[k] > 0.0
    ensures values[i] * Growth(daily[i..j]) == values[j]
    ensures values[i] > 0.0 ==> Growth(daily[i..j]) == values[j] / values[i]
  {
    hide Ret;
    if i < j {
      GrowthIsRatio(values, daily, i, j - 1);
      assert daily[i..j][..j - 1 - i] == daily[i..j - 1];
      GrowthStep(values[i], Growth(daily[i..j - 1]), values[j - 1], values[j], daily[j - 1]);
    }
    RatioOf(values[i], Growth(daily[i..j]), values[j]);
  }

  lemma GrowthStep(first: real, g: real, v: real, w: real, ret: real)
    requires first * g == v && v > 0.0 && ret == Ret(v, w)
    ensures first * (g * (1.0 + ret)) == w
  {
    assert v * ret == w - v;
    assert first * (g * (1.0 + ret)) == (first * g) * (1.0 + ret);
  }

  lemma RatioOf(first: real, g: real, last: real)
    requires first * g == last
    ensures first > 0.0 ==> g == last / first
  {}
}
