/** Kelly sizing from the profits of completed trades
    (crates/ssm-execution/src/risk.rs:47-126). */
module Kelly {
  import opened Domain

  datatype KellyStats = KellyStats(totalTrades: nat, winRate: real, avgWin: real, avgLoss: real)

  /** How many profits are positive when `sign` is 1, negative when it is -1. */
  function Count(profits: seq<real>, sign: real): nat {
    if profits == [] then 0
    else Count(Front(profits), sign) + (if sign * Last(profits) > 0.0 then 1 else 0)
  }

  /** The sum of the magnitudes of those profits. */
  function Total(profits: seq<real>, sign: real): real {
    if profits == [] then 0.0
    else Total(Front(profits), sign) + (if sign * Last(profits) > 0.0 then sign * Last(profits) else 0.0)
  }

  function Average(total: real, count: nat): real {
    if count > 0 then total / count as real else 0.0
  }

  function Stats(profits: seq<real>): KellyStats {
    KellyStats(|profits|, Average(Count(profits, 1.0) as real, |profits|),
               Average(Total(profits, 1.0), Count(profits, 1.0)),
               Average(Total(profits, -1.0), Count(profits, -1.0)))
  }

  method FromTrades(profits: seq<real>) returns (stats: KellyStats)
    ensures stats == Stats(profits)
  {
    var total := |profits|;
    if total == 0 {
      return KellyStats(0, 0.0, 0.0, 0.0);
    }
    var winCount, winSum, lossCount, lossSum := 0, 0.0, 0, 0.0;
    for i := 0 to total
      invariant winCount == Count(profits[..i], 1.0) && winSum == Total(profits[..i], 1.0)
      invariant lossCount == Count(profits[..i], -1.0) && lossSum == Total(profits[..i], -1.0)
    {
      assert Front(profits[..i + 1]) == profits[..i];
      if profits[i] > 0.0 {
        winCount, winSum := winCount + 1, winSum + profits[i];
      } else if profits[i] < 0.0 {
        lossCount, lossSum := lossCount + 1, lossSum + Abs(profits[i]);
      }
    }
    assert profits[..total] == profits;
    stats := KellyStats(total, winCount as real / total as real,
                        if winCount > 0 then winSum / winCount as real else 0.0,
                        if lossCount > 0 then lossSum / lossCount as real else 0.0);
  }

  const NO_LOSS_RATIO: real := 999.0

  lemma RatioIsNonzero(a: real, b: real)
    requires a != 0.0
    ensures b > 0.0 ==> a / b != 0.0
  {
    if b > 0.0 {
      assert (a / b) * b == a;
    }
  }

  function KellyFraction(stats: KellyStats): real {
    if stats.avgWin == 0.0 then 0.0
    else
      var r := if stats.avgLoss > 0.0 then stats.avgWin / stats.avgLoss else NO_LOSS_RATIO;
      assert r != 0.0 by { RatioIsNonzero(stats.avgWin, stats.avgLoss); }
      var kelly := stats.winRate - (1.0 - stats.winRate) / r;
      if kelly <= 0.0 then 0.0 else kelly
  }

  lemma {:induction false} CountsAndTotals(profits: seq<real>)
    ensures Count(profits, 1.0) + Count(profits, -1.0) <= |profits|
    ensures Total(profits, 1.0) >= 0.0 && Total(profits, -1.0) >= 0.0
    ensures Count(profits, 1.0) > 0 <==> Total(profits, 1.0) > 0.0
    ensures Count(profits, -1.0) > 0 <==> Total(profits, -1.0) > 0.0
    ensures Total(profits, 1.0) - Total(profits, -1.0) == Sum(profits)
  {
    if profits != [] {
      CountsAndTotals(Front(profits));
    }
  }

  lemma RatioBounds(a: real, b: real)
    requires 0.0 <= a <= b && b > 0.0
    ensures 0.0 <= a / b <= 1.0
    ensures a / b == 0.0 <==> a == 0.0
  {
    var x := a / b;
    assert x * b == a;
    SignOfFactor(x, b);
    SignOfFactor(1.0 - x, b);
  }

  lemma PositiveAverage(total: real, count: nat)
    requires total >= 0.0 && (count > 0 <==> total > 0.0)
    ensures Average(total, count) >= 0.0 && (Average(total, count) > 0.0 <==> count > 0)
  {
    if count > 0 {
      assert Average(total, count) * count as real == total;
    }
  }

  /** The raw fraction is between 0 and the win rate, and it is positive exactly when the
      history has an edge: winning odds times average win above losing odds times average
      loss (with no losses, above the 999 : 1 cap). */
  lemma KellyFractionMeansEdge(profits: seq<real>)
    ensures var st := Stats(profits);
      && 0.0 <= st.winRate <= 1.0
      && 0.0 <= KellyFraction(st) <= st.winRate
      && (st.avgLoss > 0.0 ==>
            (KellyFraction(st) > 0.0 <==> st.winRate * st.avgWin > (1.0 - st.winRate) * st.avgLoss))
      && (st.avgLoss == 0.0 ==>
            (KellyFraction(st) > 0.0 <==> st.winRate * NO_LOSS_RATIO > 1.0 - st.winRate))
  {
    var st := Stats(profits);
    CountsAndTotals(profits);
    PositiveAverage(Total(profits, 1.0), Count(profits, 1.0));
    PositiveAverage(Total(profits, -1.0), Count(profits, -1.0));
    if profits != [] {
      RatioBounds(Count(profits, 1.0) as real, |profits| as real);
    }
    if st.avgWin > 0.0 {
      if st.avgLoss > 0.0 {
        EdgeSign(st.winRate, st.avgWin, st.avgLoss);
      } else {
        EdgeSign(st.winRate, NO_LOSS_RATIO, 1.0);
      }
    }
  }

  lemma EdgeSign(w: real, win: real, loss: real)
    requires 0.0 <= w <= 1.0 && win > 0.0 && loss > 0.0
    ensures win / loss > 0.0
    ensures w - (1.0 - w) / (win / loss) <= w
    ensures w - (1.0 - w) / (win / loss) > 0.0 <==> w * win > (1.0 - w) * loss
  {
    var r := win / loss;
    assert r * loss == win;
    SignOfFactor(r, loss);
    var x := (1.0 - w) / r;
    assert x * r == 1.0 - w;
    SignOfFactor(x, r);
    assert x * win == (1.0 - w) * loss by {
      assert x * win == (x * r) * loss;
    }
    SignOfFactor(w - x, win);
  }

  /** How many profits there are of one sign, counted as a set of positions. */
  lemma {:induction false} CountIsCardinality(profits: seq<real>, sign: real)
    ensures Count(profits, sign) == |set i | 0 <= i < |profits| && sign * profits[i] > 0.0|
  {
    var all := set i | 0 <= i < |profits| && sign * profits[i] > 0.0;
    if profits == [] {
      assert all == {};
    } else {
      var n := |profits| - 1;
      CountIsCardinality(Front(profits), sign);
      var before := set i | 0 <= i < |Front(profits)| && sign * Front(profits)[i] > 0.0;
      if sign * profits[n] > 0.0 {
        assert all == before + {n};
      } else {
        assert all == before;
      }
    }
  }

  /** Rate and averages are what their names say: times the number they are taken over they
      give back the wins, the sum won and the sum lost, whose difference is the total. */
  lemma {:induction false} StatsAreMeans(profits: seq<real>)
    ensures var st := Stats(profits);
      var wins := |set i | 0 <= i < |profits| && profits[i] > 0.0|;
      var losses := |set i | 0 <= i < |profits| && profits[i] < 0.0|;
      && st.totalTrades == |profits|
      && st.winRate * |profits| as real == wins as real
      && st.avgWin >= 0.0 && st.avgLoss >= 0.0
      && st.avgWin * wins as real - st.avgLoss * losses as real == Sum(profits)
  {
    hide Count, Total, Average, Sum;
    WinsAndLosses(profits);
    CountsAndTotals(profits);
    PositiveAverage(Total(profits, 1.0), Count(profits, 1.0));
    PositiveAverage(Total(profits, -1.0), Count(profits, -1.0));
    AverageTimesCount(Count(profits, 1.0) as real, |profits|);
    AverageTimesCount(Total(profits, 1.0), Count(profits, 1.0));
    AverageTimesCount(Total(profits, -1.0), Count(profits, -1.0));
  }

  lemma {:induction false} WinsAndLosses(profits: seq<real>)
    ensures Count(profits, 1.0) == |set i | 0 <= i < |profits| && profits[i] > 0.0|
    ensures Count(profits, -1.0) == |set i | 0 <= i < |profits| && profits[i] < 0.0|
  {
    hide Count;
    var won := set i | 0 <= i < |profits| && profits[i] > 0.0;
    var lost := set i | 0 <= i < |profits| && profits[i] < 0.0;
    assert won == set i | 0 <= i < |profits| && 1.0 * profits[i] > 0.0;
    assert lost == set i | 0 <= i < |profits| && -1.0 * profits[i] > 0.0;
    CountIsCardinality(profits, 1.0);
    CountIsCardinality(profits, -1.0);
  }

  lemma AverageTimesCount(total: real, count: nat)
    ensures Average(total, count) * count as real == if count > 0 then total else 0.0
  {
  }

  /** The fraction is the win rate less the losing rate over the odds, floored at 0; the odds
      are average win to average loss, or 999 to 1 without a loss, and no win bets nothing. */
  lemma KellyFractionValue(st: KellyStats)
    requires st.avgWin >= 0.0 && st.avgLoss >= 0.0
    ensures st.avgWin == 0.0 ==> KellyFraction(st) == 0.0
    ensures st.avgWin > 0.0 && st.avgLoss > 0.0 ==>
      KellyFraction(st) * st.avgWin == Max(0.0, st.winRate * st.avgWin - (1.0 - st.winRate) * st.avgLoss)
    ensures st.avgWin > 0.0 && st.avgLoss == 0.0 ==>
      KellyFraction(st) * 999.0 == Max(0.0, st.winRate * 999.0 - (1.0 - st.winRate))
  {
    if st.avgWin > 0.0 && st.avgLoss > 0.0 {
      KellyArithmetic(st.winRate, st.avgWin, st.avgLoss);
    }
  }

  lemma KellyArithmetic(w: real, win: real, loss: real)
    requires win > 0.0 && loss > 0.0
    ensures win / loss != 0.0
    ensures var k := w - (1.0 - w) / (win / loss);
      k * win == w * win - (1.0 - w) * loss && (k <= 0.0 <==> w * win - (1.0 - w) * loss <= 0.0)
  {
    var r := win / loss;
    assert r * loss == win;
    SignOfFactor(r, loss);
    var x := (1.0 - w) / r;
    assert x * r == 1.0 - w;
    assert x * win == (x * r) * loss;
    SignOfFactor(w - x, win);
  }
}
