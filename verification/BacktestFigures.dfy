/** A backtest in figures: sizes, fees, funding, profits and equity as arithmetic on prices,
    quantities and rates, and what one candle does (crates/ssm-execution/src/backtest.rs). */
module BacktestFigures {
  import opened Domain
  import opened Backtest
  import opened BacktestAccounting
  import opened BacktestTrades

  // ---------------------------------------------------------------------
  // One candle
  // ---------------------------------------------------------------------

  /** What an entry commits: the fraction of the balance times the leverage. */
  function Committed(cfg: BacktestConfig, st: State): real {
    st.balance * SizeFraction(cfg, st.trades) * cfg.leverage as real
  }

  lemma SizeOfModes(cfg: BacktestConfig, trades: seq<TradeRecord>)
    ensures cfg.sizingMode == None ==> SizeFraction(cfg, trades) == cfg.positionSizePct
    ensures cfg.sizingMode.Some? && cfg.sizingMode.value.Fixed? ==>
      SizeFraction(cfg, trades) == cfg.sizingMode.value.fraction
  {
  }

  /** An entry opens a position at the candle's close, worth what is committed and for a fee
      on it, exactly when that is positive. */
  lemma EntryInFigures(cfg: BacktestConfig, st: State, side: Side, c: Candle, i: nat)
    requires c.close > 0.0
    ensures var st', committed := Enter(cfg, st, side, c, i), Committed(cfg, st);
      if committed > 0.0 then
        && st'.position.Some?
        && var p := st'.position.value;
           && p == OpenPosition(side, c.close, p.quantity, i, c.openTime, 0.0)
           && p.quantity * c.close == committed
           && st' == st.(balance := st.balance - committed * cfg.feeRate, position := st'.position)
      else st' == st
  {
    hide SizeFraction;
    var committed := Committed(cfg, st);
    assert committed / c.close * c.close == committed;
    SignOfFactor(committed / c.close, c.close);
  }

  /** What funding costs on candle `i`. */
  function Due(cfg: BacktestConfig, every: nat, p: OpenPosition, i: nat): real
    requires 0 < every
  {
    if i > p.entryIdx && (i - p.entryIdx) % every == 0 then p.entryPrice * p.quantity * cfg.fundingRate else 0.0
  }

  /** While a position is held, only its funding and the balance move, unless the matching
      exit is answered: then it is recorded and gone. */
  lemma HeldCandle(cfg: BacktestConfig, every: nat, st: State, action: Option<AIAction>, c: Candle, i: nat)
    requires 0 < every && c.close > 0.0 && st.position.Some?
    ensures var st', p := Traded(cfg, every, st, action, c, i), st.position.value;
      var due := Due(cfg, every, p, i);
      var charged := st.(balance := st.balance - due, position := Some(p.(funding := p.funding + due)));
      if action == Some(ExitSignal(p.side)) then
        && st'.position.None? && |st'.trades| == |st.trades| + 1 && Front(st'.trades) == st.trades
        && st'.balance == st.balance - due + Last(st'.trades).profit
        && Last(st'.trades) == CloseRecord(cfg, charged.position.value, |st.trades| + 1, c.close, i, c.openTime)
      else st' == charged
  {
    hide CloseRecord;
    assert Rated(Value(st.position.value.entryPrice, st.position.value.quantity), cfg.fundingRate)
      == st.position.value.entryPrice * st.position.value.quantity * cfg.fundingRate;
  }

  /** While flat, an entry signal opens its side if anything can be committed, and anything
      else leaves all as it was. */
  lemma FlatCandle(cfg: BacktestConfig, every: nat, st: State, action: Option<AIAction>, c: Candle, i: nat)
    requires 0 < every && c.close > 0.0 && st.position.None?
    ensures var st' := Traded(cfg, every, st, action, c, i);
      && st'.trades == st.trades
      && (st'.position.Some? ==> action == Some(EntrySignal(Buy)) || action == Some(EntrySignal(Sell)))
      && (forall side :: action == Some(EntrySignal(side)) ==> st' == Enter(cfg, st, side, c, i))
      && (st'.position.None? ==> st' == st)
  {
    hide ComputeNotional, Quantity, Rated;
  }

  /** The same for a run: from one candle to the next. */
  lemma {:induction false} SignalsAreObeyed(cfg: BacktestConfig, every: nat, candles: seq<Candle>,
                                            signal: SignalFn, i: nat)
    requires 0 < every && Priced(candles) && 0 < i < |candles|
    ensures var st, st' := After(cfg, every, candles, signal, i - 1), After(cfg, every, candles, signal, i);
      var action := signal(candles[..i]);
      match st.position
      case None =>
        forall side :: action == Some(EntrySignal(side)) && Committed(cfg, st) > 0.0 <==>
          st'.position.Some? && st'.position.value.side == side
      case Some(p) =>
        && (st'.position.None? <==> action == Some(ExitSignal(p.side)))
        && (st'.position.Some? ==> st'.position.value == p.(funding := p.funding + Due(cfg, every, p, i)))
  {
    hide StepCandle, Committed;
    var st, action := After(cfg, every, candles, signal, i - 1), signal(candles[..i]);
    AfterStep(cfg, every, candles, signal, i);
    DrawdownOnly(cfg, every, st, action, candles[i], i);
    if st.position.Some? {
      HeldCandle(cfg, every, st, action, candles[i], i);
    } else {
      FlatCandle(cfg, every, st, action, candles[i], i);
      EntryInFigures(cfg, st, Buy, candles[i], i);
      EntryInFigures(cfg, st, Sell, candles[i], i);
    }
  }

  lemma DrawdownOnly(cfg: BacktestConfig, every: nat, st: State, action: Option<AIAction>, c: Candle, i: nat)
    requires 0 < every && c.close > 0.0
    ensures var st', traded := StepCandle(cfg, every, st, action, c, i), Traded(cfg, every, st, action, c, i);
      st'.position == traded.position && st'.trades == traded.trades && st'.balance == traded.balance
  {
    hide Traded, CurrentEquity;
  }

  /** Equity is the balance and the signed move of the price since entry on the quantity. */
  lemma EquityInFigures(balance: real, p: OpenPosition, price: real)
    ensures CurrentEquity(balance, None, price) == balance
    ensures CurrentEquity(balance, Some(p), price) == balance + Sign(p.side) * (price - p.entryPrice) * p.quantity
  {
  }

  // ---------------------------------------------------------------------
  // A whole run
  // ---------------------------------------------------------------------

  function Gain(r: TradeRecord): real {
    Sign(r.side) * (r.exitPrice - r.entryPrice) * r.quantity
  }

  function FeeAt(cfg: BacktestConfig, price: real, quantity: real): real {
    price * quantity * cfg.feeRate
  }

  /** One charge for each `every` candles held. */
  function FundingPaid(cfg: BacktestConfig, every: nat, r: TradeRecord): real
    requires 0 < every && r.entryIdx <= r.exitIdx
  {
    ((r.exitIdx - r.entryIdx) / every) as real * (r.entryPrice * r.quantity * cfg.fundingRate)
  }

  /** Every record of a run: profit is the signed price move less exit fee and funding, the fee
      is entry fee, exit fee and funding. */
  lemma RecordInFigures(cfg: BacktestConfig, candles: seq<Candle>, signal: SignalFn, k: nat)
    requires Priced(candles) && k < |Finish(cfg, candles, signal).trades|
    ensures var r, every := Finish(cfg, candles, signal).trades[k], FundingInterval(candles);
      && r.entryIdx <= r.exitIdx
      && r.profit == Gain(r) - FeeAt(cfg, r.exitPrice, r.quantity) - FundingPaid(cfg, every, r)
      && r.fee == FeeAt(cfg, r.entryPrice, r.quantity) + FeeAt(cfg, r.exitPrice, r.quantity) + FundingPaid(cfg, every, r)
  {
    hide Finish, FundingInterval;
    FinalBalance(cfg, candles, signal);
    RecordAmounts(cfg, FundingInterval(candles), Finish(cfg, candles, signal).trades[k]);
  }

  lemma RecordAmounts(cfg: BacktestConfig, every: nat, r: TradeRecord)
    requires 0 < every && RecordOk(cfg, every, r)
    ensures r.profit == Gain(r) - FeeAt(cfg, r.exitPrice, r.quantity) - FundingPaid(cfg, every, r)
    ensures r.fee == FeeAt(cfg, r.entryPrice, r.quantity) + FeeAt(cfg, r.exitPrice, r.quantity) + FundingPaid(cfg, every, r)
    ensures RawOf(r) == Gain(r) && FundingOf(cfg, every, r) == FundingPaid(cfg, every, r)
  {
    assert RawOf(r) == Gain(r);
    assert Rated(Value(r.exitPrice, r.quantity), cfg.feeRate) == FeeAt(cfg, r.exitPrice, r.quantity);
    assert EntryFee(cfg, r.entryPrice, r.quantity) == FeeAt(cfg, r.entryPrice, r.quantity);
    assert FundingOf(cfg, every, r) == FundingPaid(cfg, every, r);
  }

  /** What all trades changed the balance by: the funding of each counts twice. */
  function Earned(cfg: BacktestConfig, every: nat, trades: seq<TradeRecord>): real
    requires 0 < every && (forall k :: 0 <= k < |trades| ==> trades[k].entryIdx <= trades[k].exitIdx)
  {
    if trades == [] then 0.0
    else
      var r := Last(trades);
      Earned(cfg, every, Front(trades)) + Gain(r) - FeeAt(cfg, r.entryPrice, r.quantity)
        - FeeAt(cfg, r.exitPrice, r.quantity) - 2.0 * FundingPaid(cfg, every, r)
  }

  lemma {:induction false} EarnedIsTotal(cfg: BacktestConfig, every: nat, trades: seq<TradeRecord>)
    requires 0 < every && RecordsOk(cfg, every, trades)
    ensures Earned(cfg, every, trades) == TotalRaw(trades) - TotalFees(trades) - TotalFunding(cfg, every, trades)
  {
    hide RecordOk, Gain, FeeAt, FundingPaid, RawOf, FundingOf;
    RecordsInOrder(cfg, every, trades);
    if trades != [] {
      EarnedIsTotal(cfg, every, Front(trades));
      RecordAmounts(cfg, every, trades[|trades| - 1]);
    }
  }

  lemma RecordsInOrder(cfg: BacktestConfig, every: nat, trades: seq<TradeRecord>)
    requires 0 < every && RecordsOk(cfg, every, trades)
    ensures forall k :: 0 <= k < |trades| ==> trades[k].entryIdx <= trades[k].exitIdx
  {
  }

  /** The result of a run: its trades, the balance they leave, and the profit that is. */
  lemma {:induction false} ResultInFigures(cfg: BacktestConfig, candles: seq<Candle>, signal: SignalFn)
    requires Priced(candles)
    ensures var trades := Finish(cfg, candles, signal).trades;
      var result := ResultOf(cfg, Finish(cfg, candles, signal));
      && (forall k :: 0 <= k < |trades| ==> trades[k].entryIdx <= trades[k].exitIdx)
      && result.trades == trades && result.totalTrades == |trades|
      && result.totalProfit == Earned(cfg, FundingInterval(candles), trades)
      && result.finalBalance == cfg.initialBalance + result.totalProfit
      && (|candles| < 2 ==> trades == [])
  {
    hide After, FundingInterval;
    FinalBalance(cfg, candles, signal);
    RecordsInOrder(cfg, FundingInterval(candles), Finish(cfg, candles, signal).trades);
    EarnedIsTotal(cfg, FundingInterval(candles), Finish(cfg, candles, signal).trades);
  }
}
