/** What each trade of a backtest is (crates/ssm-execution/src/backtest.rs): which signals made
    it, at which prices and times, and what its percentages and the equity refer to. */
module BacktestTrades {
  import opened Domain
  import opened Kelly
  import opened Backtest

  function EntrySignal(side: Side): AIAction {
    if side == Buy then EnterLong else EnterShort
  }

  function ExitSignal(side: Side): AIAction {
    if side == Buy then ExitLong else ExitShort
  }

  /** Opened at candle `idx`, on its close, by the answer to the candles before it. */
  ghost predicate OpenedBySignal(candles: seq<Candle>, signal: SignalFn, side: Side, price: real, idx: nat, time: int) {
    && 1 <= idx < |candles|
    && signal(candles[..idx]) == Some(EntrySignal(side))
    && price == candles[idx].close && time == candles[idx].openTime
  }

  /** Closed on candle `idx`'s close by the answer to the candles before it, or at the end. */
  ghost predicate ClosedBySignal(candles: seq<Candle>, signal: SignalFn, r: TradeRecord) {
    && r.exitIdx < |candles|
    && (signal(candles[..r.exitIdx]) == Some(ExitSignal(r.side)) || r.exitIdx == |candles| - 1)
    && r.exitPrice == candles[r.exitIdx].close && r.exitTime == candles[r.exitIdx].openTime
  }

  ghost predicate FromSignals(candles: seq<Candle>, signal: SignalFn, r: TradeRecord) {
    && OpenedBySignal(candles, signal, r.side, r.entryPrice, r.entryIdx, r.entryTime)
    && ClosedBySignal(candles, signal, r)
  }

  ghost predicate AllFromSignals(candles: seq<Candle>, signal: SignalFn, st: State) {
    && (forall k :: 0 <= k < |st.trades| ==> FromSignals(candles, signal, st.trades[k]) && st.trades[k].id == k + 1)
    && (st.position.Some? ==>
          var p := st.position.value;
          OpenedBySignal(candles, signal, p.side, p.entryPrice, p.entryIdx, p.entryTime))
  }

  lemma FundingKeepsSignals(cfg: BacktestConfig, every: nat, candles: seq<Candle>, signal: SignalFn, st: State, i: nat)
    requires 0 < every && AllFromSignals(candles, signal, st)
    ensures AllFromSignals(candles, signal, ChargeFunding(cfg, every, st, i))
  {
    hide FromSignals, OpenedBySignal;
  }

  lemma CloseKeepsSignals(cfg: BacktestConfig, candles: seq<Candle>, signal: SignalFn, st: State, i: nat)
    requires AllFromSignals(candles, signal, st) && st.position.Some? && i < |candles|
    requires signal(candles[..i]) == Some(ExitSignal(st.position.value.side)) || i == |candles| - 1
    ensures AllFromSignals(candles, signal, ClosePosition(cfg, st, candles[i].close, i, candles[i].openTime))
  {
    hide OpenedBySignal, RawPnl, Value, Rated, ProfitPct, CostBasis, EntryFee;
  }

  lemma ActionKeepsSignals(cfg: BacktestConfig, candles: seq<Candle>, signal: SignalFn, st: State, i: nat)
    requires Priced(candles) && 1 <= i < |candles| && AllFromSignals(candles, signal, st)
    ensures AllFromSignals(candles, signal, ActOn(cfg, st, signal(candles[..i]), candles[i], i))
  {
    hide FromSignals, ClosePosition, ComputeNotional, Quantity, Rated;
    match signal(candles[..i]) {
      case Some(ExitLong) =>
        if st.position.Some? && st.position.value.side == Buy { CloseKeepsSignals(cfg, candles, signal, st, i); }
      case Some(ExitShort) =>
        if st.position.Some? && st.position.value.side == Sell { CloseKeepsSignals(cfg, candles, signal, st, i); }
      case _ =>
    }
  }

  lemma StepKeepsSignals(cfg: BacktestConfig, every: nat, candles: seq<Candle>, signal: SignalFn, st: State, i: nat)
    requires 0 < every && Priced(candles) && 1 <= i < |candles| && AllFromSignals(candles, signal, st)
    ensures AllFromSignals(candles, signal, StepCandle(cfg, every, st, signal(candles[..i]), candles[i], i))
  {
    hide ChargeFunding, ActOn, FromSignals, OpenedBySignal;
    FundingKeepsSignals(cfg, every, candles, signal, st, i);
    ActionKeepsSignals(cfg, candles, signal, ChargeFunding(cfg, every, st, i), i);
  }

  lemma {:induction false} RunKeepsSignals(cfg: BacktestConfig, every: nat, candles: seq<Candle>,
                                           signal: SignalFn, i: nat)
    requires 0 < every && Priced(candles) && (i == 0 || i < |candles|)
    ensures AllFromSignals(candles, signal, After(cfg, every, candles, signal, i))
  {
    hide StepCandle, FromSignals;
    if i > 0 {
      RunKeepsSignals(cfg, every, candles, signal, i - 1);
      StepKeepsSignals(cfg, every, candles, signal, After(cfg, every, candles, signal, i - 1), i);
    }
  }

  /** Every trade was opened by an entry signal for its side and closed by the matching exit
      signal or by the end of the data, each at the close and the time of its candle, and
      each signal saw only the candles before that one; records are numbered in order. */
  lemma TradesFollowSignals(cfg: BacktestConfig, candles: seq<Candle>, signal: SignalFn, k: nat)
    requires Priced(candles) && k < |Finish(cfg, candles, signal).trades|
    ensures var r := Finish(cfg, candles, signal).trades[k];
      FromSignals(candles, signal, r) && r.id == k + 1
  {
    hide After, ClosePosition, FromSignals;
    if |candles| >= 2 {
      var n, every := |candles| - 1, FundingInterval(candles);
      RunKeepsSignals(cfg, every, candles, signal, n);
      var st := After(cfg, every, candles, signal, n);
      if st.position.Some? {
        CloseKeepsSignals(cfg, candles, signal, st, n);
      }
    }
  }

  // ---------------------------------------------------------------------
  // What the figures refer to
  // ---------------------------------------------------------------------

  /** Closing turns the marked equity into balance, less the exit fee and the funding that
      the close charges once more. */
  lemma CloseRealizesEquity(cfg: BacktestConfig, st: State, price: real, idx: nat, time: int)
    requires st.position.Some?
    ensures var p := st.position.value;
      ClosePosition(cfg, st, price, idx, time).balance ==
        CurrentEquity(st.balance, st.position, price) - Rated(Value(price, p.quantity), cfg.feeRate) - p.funding
  {
    hide Value, Rated, RawPnl, ProfitPct, CostBasis, EntryFee;
  }

  lemma MarginIsNotional(notional: real, leverage: nat, price: real)
    requires price > 0.0 && notional * leverage as real / price > 0.0
    ensures leverage > 0 && notional > 0.0
    ensures Value(price, notional * leverage as real / price) / leverage as real == notional
  {
    var leveraged := notional * leverage as real;
    assert Value(price, leveraged / price) == leveraged;
    SignOfFactor(leveraged / price, price);
    if leverage > 0 {
      SignOfFactor(notional, leverage as real);
      assert leveraged / leverage as real == notional;
    }
  }

  lemma PercentOf(part: real, whole: real)
    requires whole > 0.0
    ensures ProfitPct(part, whole) * whole == 100.0 * part
  {
    assert part / whole * whole == part;
  }

  /** A record's percentage is its profit over the notional committed at entry, so leverage
      shows in it. */
  lemma ProfitPctIsOnNotional(cfg: BacktestConfig, st: State, side: Side, c: Candle, i: nat, funding: real,
                              id: nat, exitPrice: real, idx: nat, time: int)
    requires c.close > 0.0 && st.position.None? && Enter(cfg, st, side, c, i).position.Some?
    ensures var p := Enter(cfg, st, side, c, i).position.value.(funding := funding);
      var r := CloseRecord(cfg, p, id, exitPrice, idx, time);
      r.profitPct * ComputeNotional(cfg, st.balance, st.trades) == 100.0 * r.profit
  {
    hide ComputeNotional, Rated, RawPnl;
    var notional := ComputeNotional(cfg, st.balance, st.trades);
    MarginIsNotional(notional, cfg.leverage, c.close);
    var p := Enter(cfg, st, side, c, i).position.value.(funding := funding);
    assert CostBasis(cfg, Value(p.entryPrice, p.quantity)) == notional;
    PercentOf(CloseRecord(cfg, p, id, exitPrice, idx, time).profit, notional);
  }

  /** Expected wins exceed expected losses; with no losses, at the capped odds. */
  predicate HasEdge(stats: KellyStats) {
    if stats.avgLoss > 0.0 then stats.winRate * stats.avgWin > (1.0 - stats.winRate) * stats.avgLoss
    else stats.winRate * NO_LOSS_RATIO > 1.0 - stats.winRate
  }

  /** Kelly sizing commits the fallback while the history is short; after that nothing
      without an edge, and with one at most the cap and the scaled win rate: a positive
      fraction exactly when multiplier and cap are positive. */
  lemma KellySizingFollowsEdge(cfg: BacktestConfig, trades: seq<TradeRecord>)
    requires cfg.sizingMode.Some? && cfg.sizingMode.value.KellySizing?
    ensures var mode, fraction, stats := cfg.sizingMode.value, SizeFraction(cfg, trades), Stats(Profits(trades));
      if |trades| < mode.minTrades then fraction == mode.fallback
      else if !HasEdge(stats) then fraction == 0.0
      else
        && fraction <= mode.maxFraction
        && (0.0 <= mode.multiplier ==> fraction <= stats.winRate * mode.multiplier)
        && (fraction > 0.0 <==> mode.multiplier > 0.0 && mode.maxFraction > 0.0)
  {
    hide KellyFraction, Stats;
    KellyFractionMeansEdge(Profits(trades));
    AverageLossIsNotNegative(Profits(trades));
    StatsCount(Profits(trades));
    var mode, stats := cfg.sizingMode.value, Stats(Profits(trades));
    var raw := KellyFraction(stats);
    if raw > 0.0 {
      SignOfFactor(mode.multiplier, raw);
      if 0.0 <= mode.multiplier {
        SignOfProduct(mode.multiplier, stats.winRate - raw);
        assert (stats.winRate - raw) * mode.multiplier == stats.winRate * mode.multiplier - raw * mode.multiplier;
      }
    }
  }

  lemma AverageLossIsNotNegative(profits: seq<real>)
    ensures Stats(profits).avgLoss >= 0.0
  {
    CountsAndTotals(profits);
    PositiveAverage(Total(profits, -1.0), Count(profits, -1.0));
  }

  lemma StatsCount(profits: seq<real>)
    ensures Stats(profits).totalTrades == |profits|
  {
  }
}
