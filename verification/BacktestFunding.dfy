/** Before a backtest is run: when its fees are sure to explain its balance, whatever the
    strategy does (crates/ssm-execution/src/backtest.rs:159-332, 425-449). */
module BacktestFunding {
  import opened Domain
  import opened Backtest
  import opened BacktestAccounting

  /** Raw profit less recorded fees explains the final balance. */
  ghost predicate FeesExplainBalance(cfg: BacktestConfig, candles: seq<Candle>, signal: SignalFn)
    requires Priced(candles)
  {
    var st := Finish(cfg, candles, signal);
    st.balance == cfg.initialBalance + TotalRaw(st.trades) - TotalFees(st.trades)
  }

  /** The opening balance buys nothing, so no position is ever opened. */
  predicate NeverOpens(cfg: BacktestConfig) {
    ComputeNotional(cfg, cfg.initialBalance, []) * cfg.leverage as real <= 0.0
  }

  /** What can be checked before the run: funding is free, the data ends before a position
      can reach a funding date, or nothing can be opened. */
  predicate FundingCannotFall(cfg: BacktestConfig, candles: seq<Candle>) {
    cfg.fundingRate == 0.0 || |candles| - 2 < FundingInterval(candles) || NeverOpens(cfg)
  }

  // ---------------------------------------------------------------------
  // Sufficient
  // ---------------------------------------------------------------------

  lemma ShortDataHasNoFunding(cfg: BacktestConfig, candles: seq<Candle>, signal: SignalFn)
    requires Priced(candles)
    requires cfg.fundingRate == 0.0 || |candles| - 2 < FundingInterval(candles)
    ensures FeesExplainBalance(cfg, candles, signal)
  {
    hide Finish;
    FeesExplainBalanceIffNoFunding(cfg, candles, signal);
    TradesAreDisjoint(cfg, candles, signal);
  }

  /** Flat, without a trade, at the opening balance. */
  predicate Untouched(cfg: BacktestConfig, st: State) {
    st.position.None? && st.trades == [] && st.balance == cfg.initialBalance
  }

  lemma NothingBought(leveraged: real, price: real)
    requires price > 0.0 && leveraged <= 0.0
    ensures leveraged / price <= 0.0
  {
    assert leveraged / price * price == leveraged;
    SignOfFactor(leveraged / price, price);
  }

  lemma StepStaysUntouched(cfg: BacktestConfig, every: nat, st: State, action: Option<AIAction>, c: Candle, i: nat)
    requires 0 < every && c.close > 0.0 && NeverOpens(cfg) && Untouched(cfg, st)
    ensures Untouched(cfg, StepCandle(cfg, every, st, action, c, i))
  {
    hide ComputeNotional, CurrentEquity, Rated;
    NothingBought(ComputeNotional(cfg, cfg.initialBalance, []) * cfg.leverage as real, c.close);
  }

  lemma {:induction false} RunStaysUntouched(cfg: BacktestConfig, every: nat, candles: seq<Candle>,
                                             signal: SignalFn, i: nat)
    requires 0 < every && Priced(candles) && (i == 0 || i < |candles|) && NeverOpens(cfg)
    ensures Untouched(cfg, After(cfg, every, candles, signal, i))
  {
    hide StepCandle, NeverOpens;
    if i > 0 {
      RunStaysUntouched(cfg, every, candles, signal, i - 1);
      StepStaysUntouched(cfg, every, After(cfg, every, candles, signal, i - 1),
                         signal(candles[..i]), candles[i], i);
    }
  }

  lemma UnopenedHasNoFunding(cfg: BacktestConfig, candles: seq<Candle>, signal: SignalFn)
    requires Priced(candles) && NeverOpens(cfg)
    ensures FeesExplainBalance(cfg, candles, signal)
  {
    hide After, NeverOpens;
    if |candles| >= 2 {
      RunStaysUntouched(cfg, FundingInterval(candles), candles, signal, |candles| - 1);
    }
  }

  // ---------------------------------------------------------------------
  // Necessary
  // ---------------------------------------------------------------------

  /** Buys on the first candle it trades, and never answers again. */
  function BuyAndHold(): SignalFn {
    (seen: seq<Candle>) => if |seen| == 1 then Some(EnterLong) else None
  }

  ghost predicate HeldSince1(st: State) {
    st.trades == [] && st.position.Some? && st.position.value.entryIdx == 1
  }

  lemma SomethingBought(leveraged: real, price: real)
    requires price > 0.0 && leveraged > 0.0
    ensures leveraged / price > 0.0
  {
    assert leveraged / price * price == leveraged;
    SignOfFactor(leveraged / price, price);
  }

  lemma FirstStepBuys(cfg: BacktestConfig, every: nat, c: Candle)
    requires 0 < every && c.close > 0.0 && !NeverOpens(cfg)
    ensures HeldSince1(StepCandle(cfg, every, Start(cfg), Some(EnterLong), c, 1))
  {
    hide ComputeNotional, CurrentEquity, Rated;
    SomethingBought(ComputeNotional(cfg, cfg.initialBalance, []) * cfg.leverage as real, c.close);
  }

  lemma LaterStepsHold(cfg: BacktestConfig, every: nat, st: State, c: Candle, i: nat)
    requires 0 < every && c.close > 0.0 && HeldSince1(st)
    ensures HeldSince1(StepCandle(cfg, every, st, None, c, i))
  {
    hide CurrentEquity, Rated, Value;
  }

  lemma {:induction false} RunHolds(cfg: BacktestConfig, every: nat, candles: seq<Candle>, i: nat)
    requires 0 < every && Priced(candles) && 1 <= i < |candles| && !NeverOpens(cfg)
    ensures HeldSince1(After(cfg, every, candles, BuyAndHold(), i))
  {
    hide StepCandle, HeldSince1, NeverOpens;
    assert BuyAndHold()(candles[..i]) == if i == 1 then Some(EnterLong) else None;
    if i == 1 {
      assert After(cfg, every, candles, BuyAndHold(), 0) == Start(cfg);
      FirstStepBuys(cfg, every, candles[1]);
    } else {
      RunHolds(cfg, every, candles, i - 1);
      LaterStepsHold(cfg, every, After(cfg, every, candles, BuyAndHold(), i - 1), candles[i], i);
    }
  }

  /** The one trade of buying and holding lasts to the end of the data. */
  lemma HoldsToTheEnd(cfg: BacktestConfig, candles: seq<Candle>)
    requires Priced(candles) && 2 <= |candles| && !NeverOpens(cfg)
    ensures var trades := Finish(cfg, candles, BuyAndHold()).trades;
      |trades| == 1 && trades[0].Duration() == |candles| - 2
  {
    hide After, NeverOpens;
    RunHolds(cfg, FundingInterval(candles), candles, |candles| - 1);
  }

  lemma FundedStrategyExists(cfg: BacktestConfig, candles: seq<Candle>)
    requires Priced(candles) && !FundingCannotFall(cfg, candles)
    ensures !FeesExplainBalance(cfg, candles, BuyAndHold())
  {
    hide Finish, NeverOpens;
    HoldsToTheEnd(cfg, candles);
    FeesExplainBalanceIffNoFunding(cfg, candles, BuyAndHold());
  }

  /** Fees explain the balance of every strategy on this data if and only if the check made
      before the run says that no funding can fall due. */
  lemma EveryStrategyExplainedIff(cfg: BacktestConfig, candles: seq<Candle>)
    requires Priced(candles)
    ensures FundingCannotFall(cfg, candles) <==>
      forall signal: SignalFn :: FeesExplainBalance(cfg, candles, signal)
  {
    hide FeesExplainBalance, NeverOpens;
    if FundingCannotFall(cfg, candles) {
      forall signal: SignalFn
        ensures FeesExplainBalance(cfg, candles, signal)
      {
        if NeverOpens(cfg) {
          UnopenedHasNoFunding(cfg, candles, signal);
        } else {
          ShortDataHasNoFunding(cfg, candles, signal);
        }
      }
    } else {
      FundedStrategyExists(cfg, candles);
    }
  }

  // ---------------------------------------------------------------------
  // An input where they do not
  // ---------------------------------------------------------------------

  function FlatAt(openTime: int): Candle {
    Candle(openTime, 100.0, 100.0, 100.0, 100.0, 1.0, openTime + 59_999, 100.0, 1, 1.0, 0.0)
  }

  /** A tenth of 1000 is invested, unlevered and free of trading fees, at a funding rate of
      0.1 %. */
  function ExampleConfig(): BacktestConfig {
    BacktestConfig(1000.0, 0.0, 1, 0.001, 0.1, None)
  }

  function ExamplePosition(funding: real): OpenPosition {
    OpenPosition(Buy, 100.0, 1.0, 1, 28_800_000, funding)
  }

  lemma ExampleBuys()
    ensures var st := StepCandle(ExampleConfig(), 1, Start(ExampleConfig()), Some(EnterLong), FlatAt(28_800_000), 1);
      st.balance == 1000.0 && st.position == Some(ExamplePosition(0.0)) && st.trades == []
  {
    hide CurrentEquity;
  }

  lemma ExampleIsFunded(st: State)
    requires st.balance == 1000.0 && st.position == Some(ExamplePosition(0.0)) && st.trades == []
    ensures var st' := StepCandle(ExampleConfig(), 1, st, None, FlatAt(57_600_000), 2);
      st'.balance == 999.9 && st'.position == Some(ExamplePosition(0.1)) && st'.trades == []
  {
    hide CurrentEquity;
  }

  lemma ExampleCloses(st: State)
    requires st.balance == 999.9 && st.position == Some(ExamplePosition(0.1)) && st.trades == []
    ensures var st' := ClosePosition(ExampleConfig(), st, 100.0, 2, 57_600_000);
      st'.balance == 999.8 && TotalRaw(st'.trades) == 0.0 && TotalFees(st'.trades) == 0.1
  {
    var record := CloseRecord(ExampleConfig(), ExamplePosition(0.1), 1, 100.0, 2, 57_600_000);
    assert Front([record]) == [];
    assert record.profit == -0.1 && record.fee == 0.1 && RawOf(record) == 0.0;
  }

  lemma ExampleRun(candles: seq<Candle>)
    requires candles == [FlatAt(0), FlatAt(28_800_000), FlatAt(57_600_000)]
    ensures var st := After(ExampleConfig(), 1, candles, BuyAndHold(), 2);
      st.balance == 999.9 && st.position == Some(ExamplePosition(0.1)) && st.trades == []
  {
    hide StepCandle;
    var signal := BuyAndHold();
    assert signal(candles[..1]) == Some(EnterLong) && signal(candles[..2]) == None;
    assert After(ExampleConfig(), 1, candles, signal, 0) == Start(ExampleConfig());
    ExampleBuys();
    ExampleIsFunded(After(ExampleConfig(), 1, candles, signal, 1));
  }

  /** One unit bought at 100 and held over one funding date: the balance loses 0.2, the
      trade records a fee of 0.1. */
  lemma FundingPaidTwiceExample()
    ensures var candles := [FlatAt(0), FlatAt(28_800_000), FlatAt(57_600_000)];
      var st := Finish(ExampleConfig(), candles, BuyAndHold());
      && st.balance == 999.8 && TotalRaw(st.trades) == 0.0 && TotalFees(st.trades) == 0.1
      && !FeesExplainBalance(ExampleConfig(), candles, BuyAndHold())
  {
    hide After, ClosePosition;
    var candles := [FlatAt(0), FlatAt(28_800_000), FlatAt(57_600_000)];
    assert FundingInterval(candles) == 1;
    ExampleRun(candles);
    ExampleCloses(After(ExampleConfig(), 1, candles, BuyAndHold(), 2));
  }
}
