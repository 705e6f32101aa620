/** What a whole backtest run (crates/ssm-execution/src/backtest.rs) promises: where the money
    went, that trades never overlap, that the future cannot leak in, and that the reported
    drawdown is the drawdown of the equity curve. */
module BacktestAccounting {
  import opened MachineWords
  import opened Domain
  import opened Drawdown
  import opened Backtest

  // ---------------------------------------------------------------------
  // Money per trade
  // ---------------------------------------------------------------------

  function Times(n: nat, amount: real): real {
    n as real * amount
  }

  /** Funding dates reached in `held` candles. */
  function Periods(held: nat, every: nat): nat
    requires 0 < every
  {
    held / every
  }

  /** What one funding date costs a position. */
  function FundingCharge(cfg: BacktestConfig, entryPrice: real, quantity: real): real {
    Rated(Value(entryPrice, quantity), cfg.fundingRate)
  }

  /** One charge for every multiple of `every` candles the trade was held. */
  function FundingOf(cfg: BacktestConfig, every: nat, r: TradeRecord): real
    requires 0 < every && r.entryIdx <= r.exitIdx
  {
    Times(Periods(r.exitIdx - r.entryIdx, every), FundingCharge(cfg, r.entryPrice, r.quantity))
  }

  function RawOf(r: TradeRecord): real {
    RawPnl(r.side, r.entryPrice, r.exitPrice, r.quantity)
  }

  ghost predicate RecordOk(cfg: BacktestConfig, every: nat, r: TradeRecord)
    requires 0 < every
  {
    && 1 <= r.entryIdx <= r.exitIdx && r.entryPrice > 0.0 && r.quantity > 0.0
    && var exitFee := Rated(Value(r.exitPrice, r.quantity), cfg.feeRate);
       && r.profit == RawOf(r) - exitFee - FundingOf(cfg, every, r)
       && r.fee == EntryFee(cfg, r.entryPrice, r.quantity) + exitFee + FundingOf(cfg, every, r)
  }

  ghost predicate RecordsOk(cfg: BacktestConfig, every: nat, trades: seq<TradeRecord>)
    requires 0 < every
  {
    forall k :: 0 <= k < |trades| ==> RecordOk(cfg, every, trades[k])
  }

  function TotalRaw(trades: seq<TradeRecord>): real {
    if trades == [] then 0.0 else TotalRaw(Front(trades)) + RawOf(Last(trades))
  }

  function TotalFees(trades: seq<TradeRecord>): real {
    if trades == [] then 0.0 else TotalFees(Front(trades)) + Last(trades).fee
  }

  ghost function TotalFunding(cfg: BacktestConfig, every: nat, trades: seq<TradeRecord>): real
    requires 0 < every && RecordsOk(cfg, every, trades)
  {
    if trades == [] then 0.0
    else TotalFunding(cfg, every, Front(trades)) + FundingOf(cfg, every, Last(trades))
  }

  /** Pairwise disjoint and in order, none reaching past candle `i`. */
  ghost predicate Ordered(trades: seq<TradeRecord>, i: nat) {
    && (forall k :: 0 <= k < |trades| ==> 1 <= trades[k].entryIdx <= trades[k].exitIdx <= i)
    && (forall k, m :: 0 <= k < m < |trades| ==> trades[k].exitIdx < trades[m].entryIdx)
  }

  /** An open position after candle `i`: what it has been charged, and that it started after
      every recorded trade had ended. */
  ghost predicate OpenOk(cfg: BacktestConfig, every: nat, p: OpenPosition, trades: seq<TradeRecord>, i: nat)
    requires 0 < every
  {
    && 1 <= p.entryIdx <= i && p.entryPrice > 0.0 && p.quantity > 0.0
    && p.funding == Times(Periods(i - p.entryIdx, every), FundingCharge(cfg, p.entryPrice, p.quantity))
    && forall k :: 0 <= k < |trades| ==> trades[k].exitIdx < p.entryIdx
  }

  /** What an open position has taken out of the balance so far. */
  function Outlay(cfg: BacktestConfig, position: Option<OpenPosition>): real {
    match position
    case None => 0.0
    case Some(p) => EntryFee(cfg, p.entryPrice, p.quantity) + p.funding
  }

  ghost predicate BooksBalance(cfg: BacktestConfig, every: nat, st: State)
    requires 0 < every && RecordsOk(cfg, every, st.trades)
  {
    st.balance == cfg.initialBalance + TotalRaw(st.trades) - TotalFees(st.trades)
                  - TotalFunding(cfg, every, st.trades) - Outlay(cfg, st.position)
  }

  ghost predicate Inv(cfg: BacktestConfig, every: nat, st: State, i: nat)
    requires 0 < every
  {
    && RecordsOk(cfg, every, st.trades)
    && Ordered(st.trades, i)
    && BooksBalance(cfg, every, st)
    && (st.position.Some? ==> OpenOk(cfg, every, st.position.value, st.trades, i))
  }

  /** Between two candles a position may be charged for candle `i` while every trade recorded
      so far ended before it. */
  ghost predicate Charged(cfg: BacktestConfig, every: nat, st: State, i: nat)
    requires 0 < every && 0 < i
  {
    && RecordsOk(cfg, every, st.trades)
    && Ordered(st.trades, i - 1)
    && BooksBalance(cfg, every, st)
    && (st.position.Some? ==> OpenOk(cfg, every, st.position.value, st.trades, i))
  }

  lemma QuotientStep(n: nat, every: nat)
    requires 0 < every
    ensures Periods(n + 1, every) == if (n + 1) % every == 0 then Periods(n, every) + 1 else Periods(n, every)
  {
    var q, r := n / every, n % every;
    if r + 1 == every {
      assert n + 1 == every * (q + 1);
      DivModUnique(n + 1, every, q + 1, 0);
    } else {
      DivModUnique(n + 1, every, q, r + 1);
    }
  }

  lemma TimesStep(n: nat, amount: real)
    ensures Times(n + 1, amount) == Times(n, amount) + amount
    ensures Times(0, amount) == 0.0
  {
  }

  lemma FundingKeepsBooks(cfg: BacktestConfig, every: nat, st: State, i: nat)
    requires 0 < every && Inv(cfg, every, st, i)
    ensures Charged(cfg, every, ChargeFunding(cfg, every, st, i + 1), i + 1)
  {
    hide Times, Periods, Value, Rated;
    if st.position.Some? {
      var p := st.position.value;
      QuotientStep(i - p.entryIdx, every);
      TimesStep(Periods(i - p.entryIdx, every), FundingCharge(cfg, p.entryPrice, p.quantity));
    }
  }

  lemma NotionalIsValue(price: real, leveraged: real)
    requires price > 0.0
    ensures Value(price, leveraged / price) == leveraged
  {
  }

  /** A new position starts uncharged, and opening it costs the balance its entry fee. */
  lemma EnterPaysFee(cfg: BacktestConfig, st: State, side: Side, c: Candle, i: nat)
    requires c.close > 0.0 && st.position.None?
    ensures var st' := Enter(cfg, st, side, c, i);
      && st' == st.(balance := st'.balance, position := st'.position)
      && st'.balance == st.balance - Outlay(cfg, st'.position)
      && (st'.position.Some? ==>
            var p := st'.position.value;
            p.entryIdx == i && p.entryPrice == c.close && p.quantity > 0.0 && p.funding == 0.0)
  {
    NotionalIsValue(c.close, ComputeNotional(cfg, st.balance, st.trades) * cfg.leverage as real);
  }

  lemma NothingDueYet(every: nat, i: nat, amount: real)
    requires 0 < every
    ensures Times(Periods(i - i, every), amount) == 0.0
  {
  }

  lemma EnterKeepsBooks(cfg: BacktestConfig, every: nat, st: State, side: Side, c: Candle, i: nat)
    requires 0 < every && 0 < i && c.close > 0.0 && Charged(cfg, every, st, i) && st.position.None?
    ensures Inv(cfg, every, Enter(cfg, st, side, c, i), i)
  {
    EnterPaysFee(cfg, st, side, c, i);
    var st' := Enter(cfg, st, side, c, i);
    if st'.position.Some? {
      NothingDueYet(every, i, FundingCharge(cfg, c.close, st'.position.value.quantity));
    }
  }

  lemma RecordAppended(cfg: BacktestConfig, every: nat, trades: seq<TradeRecord>, r: TradeRecord)
    requires 0 < every && RecordsOk(cfg, every, trades) && RecordOk(cfg, every, r)
    ensures RecordsOk(cfg, every, trades + [r])
    ensures TotalRaw(trades + [r]) == TotalRaw(trades) + RawOf(r)
    ensures TotalFees(trades + [r]) == TotalFees(trades) + r.fee
    ensures TotalFunding(cfg, every, trades + [r]) == TotalFunding(cfg, every, trades) + FundingOf(cfg, every, r)
  {
    assert Front(trades + [r]) == trades;
  }

  lemma CloseKeepsBooks(cfg: BacktestConfig, every: nat, st: State, price: real, time: int, i: nat)
    requires 0 < every && st.position.Some?
    requires RecordsOk(cfg, every, st.trades) && Ordered(st.trades, i) && BooksBalance(cfg, every, st)
    requires OpenOk(cfg, every, st.position.value, st.trades, i)
    ensures Inv(cfg, every, ClosePosition(cfg, st, price, i, time), i)
  {
    hide Times, Periods, Value, Rated, RawPnl, ProfitPct, CostBasis;
    var record := CloseRecord(cfg, st.position.value, |st.trades| + 1, price, i, time);
    assert RecordOk(cfg, every, record);
    RecordAppended(cfg, every, st.trades, record);
  }

  lemma ActionKeepsBooks(cfg: BacktestConfig, every: nat, st: State, action: Option<AIAction>, c: Candle, i: nat)
    requires 0 < every && 0 < i && c.close > 0.0 && Charged(cfg, every, st, i)
    ensures Inv(cfg, every, ActOn(cfg, st, action, c, i), i)
  {
    hide Enter, ClosePosition, BooksBalance, RecordOk, Value, Rated, RawPnl;
    match action {
      case Some(EnterLong) => if st.position.None? { EnterKeepsBooks(cfg, every, st, Buy, c, i); }
      case Some(EnterShort) => if st.position.None? { EnterKeepsBooks(cfg, every, st, Sell, c, i); }
      case Some(ExitLong) =>
        if st.position.Some? { CloseKeepsBooks(cfg, every, st, c.close, c.openTime, i); }
      case Some(ExitShort) =>
        if st.position.Some? { CloseKeepsBooks(cfg, every, st, c.close, c.openTime, i); }
      case _ =>
    }
  }

  lemma DrawdownIsNotMoney(cfg: BacktestConfig, every: nat, st: State, i: nat, drawdown: Tracker)
    requires 0 < every
    ensures Inv(cfg, every, st, i) ==> Inv(cfg, every, st.(drawdown := drawdown), i)
  {
  }

  lemma StepKeepsBooks(cfg: BacktestConfig, every: nat, st: State, action: Option<AIAction>, c: Candle, i: nat)
    requires 0 < every && c.close > 0.0 && Inv(cfg, every, st, i)
    ensures Inv(cfg, every, StepCandle(cfg, every, st, action, c, i + 1), i + 1)
  {
    hide Inv, Charged, ActOn, ChargeFunding, Track, CurrentEquity;
    FundingKeepsBooks(cfg, every, st, i);
    DrawdownIsNotMoney(cfg, every, Traded(cfg, every, st, action, c, i + 1), i + 1,
                       StepCandle(cfg, every, st, action, c, i + 1).drawdown);
    ActionKeepsBooks(cfg, every, ChargeFunding(cfg, every, st, i + 1), action, c, i + 1);
  }

  lemma AfterStep(cfg: BacktestConfig, every: nat, candles: seq<Candle>, signal: SignalFn, i: nat)
    requires 0 < every && Priced(candles) && 0 < i < |candles|
    ensures After(cfg, every, candles, signal, i) ==
      StepCandle(cfg, every, After(cfg, every, candles, signal, i - 1), signal(candles[..i]), candles[i], i)
  {
  }

  lemma {:induction false} RunKeepsBooks(cfg: BacktestConfig, every: nat, candles: seq<Candle>,
                                         signal: SignalFn, i: nat)
    requires 0 < every && Priced(candles) && (i == 0 || i < |candles|)
    ensures Inv(cfg, every, After(cfg, every, candles, signal, i), i)
  {
    hide StepCandle;
    if i > 0 {
      RunKeepsBooks(cfg, every, candles, signal, i - 1);
      AfterStep(cfg, every, candles, signal, i);
      StepKeepsBooks(cfg, every, After(cfg, every, candles, signal, i - 1),
                     signal(candles[..i]), candles[i], i - 1);
    }
  }

  lemma FinishKeepsBooks(cfg: BacktestConfig, candles: seq<Candle>, signal: SignalFn)
    requires Priced(candles)
    ensures var st := Finish(cfg, candles, signal);
      && Inv(cfg, FundingInterval(candles), st, if |candles| < 2 then 0 else |candles| - 1)
      && st.position.None?
  {
    if |candles| >= 2 {
      var every, n := FundingInterval(candles), |candles| - 1;
      RunKeepsBooks(cfg, every, candles, signal, n);
      var st := After(cfg, every, candles, signal, n);
      if st.position.Some? {
        CloseKeepsBooks(cfg, every, st, Last(candles).close, Last(candles).openTime, n);
      }
    }
  }

  // ---------------------------------------------------------------------
  // The balance identity
  // ---------------------------------------------------------------------

  /** Funding leaves the balance twice: when it falls due and again inside the fee of the
      closed trade. */
  lemma FinalBalance(cfg: BacktestConfig, candles: seq<Candle>, signal: SignalFn)
    requires Priced(candles)
    ensures var st, every := Finish(cfg, candles, signal), FundingInterval(candles);
      && st.position.None? && RecordsOk(cfg, every, st.trades)
      && ResultOf(cfg, st).finalBalance ==
           cfg.initialBalance + TotalRaw(st.trades) - TotalFees(st.trades) - TotalFunding(cfg, every, st.trades)
  {
    FinishKeepsBooks(cfg, candles, signal);
  }

  lemma ChargeSign(entryPrice: real, quantity: real, n: nat, rate: real)
    requires entryPrice > 0.0 && quantity > 0.0
    ensures var f := Times(n, Rated(Value(entryPrice, quantity), rate));
      && (f == 0.0 <==> n == 0 || rate == 0.0)
      && (rate >= 0.0 ==> f >= 0.0)
      && (rate <= 0.0 ==> f <= 0.0)
  {
    var v := Value(entryPrice, quantity);
    assert v > 0.0;
    SignOfProduct(v, rate);
    SignOfProduct(n as real, Rated(v, rate));
  }

  lemma {:induction false} FundingVanishes(cfg: BacktestConfig, every: nat, trades: seq<TradeRecord>)
    requires 0 < every && RecordsOk(cfg, every, trades)
    ensures var total := TotalFunding(cfg, every, trades);
      && (total == 0.0 <==>
            cfg.fundingRate == 0.0 || forall k :: 0 <= k < |trades| ==> trades[k].Duration() < every)
      && (cfg.fundingRate >= 0.0 ==> total >= 0.0)
      && (cfg.fundingRate <= 0.0 ==> total <= 0.0)
  {
    if trades != [] {
      FundingVanishes(cfg, every, Front(trades));
      var r := Last(trades);
      var n := Periods(r.exitIdx - r.entryIdx, every);
      ChargeSign(r.entryPrice, r.quantity, n, cfg.fundingRate);
      NoCharge(r.exitIdx - r.entryIdx, every);
      assert trades == Front(trades) + [r];
    }
  }

  lemma NoCharge(held: nat, every: nat)
    requires 0 < every
    ensures Periods(held, every) == 0 <==> held < every
  {
    if held < every {
      DivModUnique(held, every, 0, held);
    }
  }

  /** The final balance is the start plus raw profit less recorded fees exactly when no
      funding date was ever reached while a position was open, or funding is free. */
  lemma FeesExplainBalanceIffNoFunding(cfg: BacktestConfig, candles: seq<Candle>, signal: SignalFn)
    requires Priced(candles)
    ensures var st, every := Finish(cfg, candles, signal), FundingInterval(candles);
      (st.balance == cfg.initialBalance + TotalRaw(st.trades) - TotalFees(st.trades)) <==>
        (cfg.fundingRate == 0.0 || forall k :: 0 <= k < |st.trades| ==> st.trades[k].Duration() < every)
  {
    FinalBalance(cfg, candles, signal);
    FundingVanishes(cfg, FundingInterval(candles), Finish(cfg, candles, signal).trades);
  }

  // ---------------------------------------------------------------------
  // Trades in time
  // ---------------------------------------------------------------------

  function CandlesHeld(trades: seq<TradeRecord>): int {
    if trades == [] then 0 else CandlesHeld(Front(trades)) + Last(trades).Duration() + 1
  }

  lemma {:induction false} HeldUpToLastExit(trades: seq<TradeRecord>, i: nat)
    requires Ordered(trades, i)
    ensures CandlesHeld(trades) <= if trades == [] then 0 else Last(trades).exitIdx
  {
    if |trades| > 1 {
      assert Ordered(Front(trades), i);
      HeldUpToLastExit(Front(trades), i);
      assert Last(Front(trades)).exitIdx < Last(trades).entryIdx;
    }
  }

  /** Trades follow one another without sharing a candle, none uses candle 0, and together
      they hold at most the candles there are; this includes a trade forced shut at the end. */
  lemma TradesAreDisjoint(cfg: BacktestConfig, candles: seq<Candle>, signal: SignalFn)
    requires Priced(candles)
    ensures var trades := Finish(cfg, candles, signal).trades;
      && (forall k :: 0 <= k < |trades| ==> 1 <= trades[k].entryIdx <= trades[k].exitIdx < |candles|)
      && (forall k, m :: 0 <= k < m < |trades| ==> trades[k].exitIdx < trades[m].entryIdx)
      && (candles != [] ==> CandlesHeld(trades) <= |candles| - 1)
  {
    FinishKeepsBooks(cfg, candles, signal);
    var trades := Finish(cfg, candles, signal).trades;
    HeldUpToLastExit(trades, if |candles| < 2 then 0 else |candles| - 1);
  }

  // ---------------------------------------------------------------------
  // Causality
  // ---------------------------------------------------------------------

  lemma PrefixesAgree(cs: seq<Candle>, ds: seq<Candle>, n: nat, i: nat)
    requires 2 <= n <= |cs| && n <= |ds| && cs[..n] == ds[..n] && i < n
    ensures cs[..i] == ds[..i] && cs[i] == ds[i] && FundingInterval(cs) == FundingInterval(ds)
  {
    assert forall k :: 0 <= k < n ==> cs[k] == cs[..n][k] == ds[k];
  }

  lemma {:induction false} SamePast(cfg: BacktestConfig, every: nat, cs: seq<Candle>, ds: seq<Candle>,
                                    f: SignalFn, g: SignalFn, n: nat, i: nat)
    requires 0 < every && Priced(cs) && Priced(ds)
    requires 2 <= n <= |cs| && n <= |ds| && cs[..n] == ds[..n]
    requires forall k :: 1 <= k < n ==> f(cs[..k]) == g(cs[..k])
    requires i < n
    ensures After(cfg, every, cs, f, i) == After(cfg, every, ds, g, i)
  {
    hide StepCandle;
    if i > 0 {
      SamePast(cfg, every, cs, ds, f, g, n, i - 1);
      PrefixesAgree(cs, ds, n, i);
    }
  }

  /** Two runs whose candles agree up to index `n` and whose strategies answer alike on what
      they have been shown are in the same state after every earlier candle. */
  lemma Causality(cfg: BacktestConfig, cs: seq<Candle>, ds: seq<Candle>, f: SignalFn, g: SignalFn, n: nat, i: nat)
    requires Priced(cs) && Priced(ds)
    requires 2 <= n <= |cs| && n <= |ds| && cs[..n] == ds[..n]
    requires forall k :: 1 <= k < n ==> f(cs[..k]) == g(cs[..k])
    requires i < n
    ensures After(cfg, FundingInterval(cs), cs, f, i) == After(cfg, FundingInterval(ds), ds, g, i)
  {
    PrefixesAgree(cs, ds, n, i);
    SamePast(cfg, FundingInterval(cs), cs, ds, f, g, n, i);
  }

  // ---------------------------------------------------------------------
  // Drawdown
  // ---------------------------------------------------------------------

  function EquityAt(cfg: BacktestConfig, every: nat, candles: seq<Candle>, signal: SignalFn, i: nat): real
    requires 0 < every && Priced(candles) && (i == 0 || i < |candles|)
  {
    if i == 0 then cfg.initialBalance
    else
      var st := After(cfg, every, candles, signal, i);
      CurrentEquity(st.balance, st.position, candles[i].close)
  }

  /** The initial balance, then the equity at each candle up to `i`. */
  function Equities(cfg: BacktestConfig, every: nat, candles: seq<Candle>, signal: SignalFn, i: nat): (es: seq<real>)
    requires 0 < every && Priced(candles) && (i == 0 || i < |candles|)
    ensures |es| == i + 1
    ensures forall k :: 0 <= k <= i ==> es[k] == EquityAt(cfg, every, candles, signal, k)
  {
    if i == 0 then [EquityAt(cfg, every, candles, signal, 0)]
    else Equities(cfg, every, candles, signal, i - 1) + [EquityAt(cfg, every, candles, signal, i)]
  }

  lemma TrackMore(es: seq<real>, equity: real)
    requires es != []
    ensures TrackAll(es + [equity]) == Track(TrackAll(es), equity, |es|)
  {
    assert Front(es + [equity]) == es;
  }

  lemma StepTracks(cfg: BacktestConfig, every: nat, st: State, action: Option<AIAction>, c: Candle, i: nat)
    requires 0 < every && c.close > 0.0
    ensures var st' := StepCandle(cfg, every, st, action, c, i);
      st'.drawdown == Track(st.drawdown, CurrentEquity(st'.balance, st'.position, c.close), i)
  {
  }

  lemma {:induction false} RunTracksEquities(cfg: BacktestConfig, every: nat, candles: seq<Candle>,
                                             signal: SignalFn, i: nat)
    requires 0 < every && Priced(candles) && (i == 0 || i < |candles|)
    ensures After(cfg, every, candles, signal, i).drawdown == TrackAll(Equities(cfg, every, candles, signal, i))
  {
    hide StepCandle, Track;
    if i > 0 {
      RunTracksEquities(cfg, every, candles, signal, i - 1);
      StepTracks(cfg, every, After(cfg, every, candles, signal, i - 1), signal(candles[..i]), candles[i], i);
      TrackMore(Equities(cfg, every, candles, signal, i - 1), EquityAt(cfg, every, candles, signal, i));
    }
  }

  lemma FinishKeepsDrawdown(cfg: BacktestConfig, candles: seq<Candle>, signal: SignalFn)
    requires Priced(candles) && 2 <= |candles|
    ensures Finish(cfg, candles, signal).drawdown ==
      After(cfg, FundingInterval(candles), candles, signal, |candles| - 1).drawdown
  {
    hide After;
  }

  /** The drawdown a run reports is the drawdown of its equity curve. */
  lemma ReportedDrawdown(cfg: BacktestConfig, candles: seq<Candle>, signal: SignalFn)
    requires Priced(candles) && 2 <= |candles| && cfg.initialBalance > 0.0
    ensures var r := ResultOf(cfg, Finish(cfg, candles, signal));
      var es := Equities(cfg, FundingInterval(candles), candles, signal, |candles| - 1);
      && LargestFall(es, r.maxDrawdown)
      && PctAgrees(es, r.maxDrawdownPct)
      && LongestSpan(es, r.maxDrawdownDuration)
  {
    hide After, Finish, TrackAll, LargestFall, PctAgrees, LongestSpan;
    var every := FundingInterval(candles);
    var es := Equities(cfg, every, candles, signal, |candles| - 1);
    FinishKeepsDrawdown(cfg, candles, signal);
    RunTracksEquities(cfg, every, candles, signal, |candles| - 1);
    MaxDrawdownIsLargestFall(es);
    MaxDurationIsLongestSpan(es);
  }
}
