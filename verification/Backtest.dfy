/** The candle-by-candle backtest (crates/ssm-execution/src/backtest.rs): one position,
    fees, funding, and the streaming drawdown. */
module Backtest {
  import opened Domain
  import opened Kelly
  import opened Drawdown

  datatype SizingMode =
    | Fixed(fraction: real)
    | KellySizing(multiplier: real, minTrades: nat, fallback: real, maxFraction: real)

  datatype BacktestConfig = BacktestConfig(
    initialBalance: real, feeRate: real, leverage: nat, fundingRate: real,
    positionSizePct: real, sizingMode: Option<SizingMode>)

  datatype OpenPosition = OpenPosition(
    side: Side, entryPrice: real, quantity: real, entryIdx: nat, entryTime: int, funding: real)

  /** The two candle numbers are kept; their difference is the recorded duration. */
  datatype TradeRecord = TradeRecord(
    id: nat, side: Side, entryPrice: real, exitPrice: real, quantity: real, profit: real,
    profitPct: real, entryTime: int, exitTime: int, entryIdx: nat, exitIdx: nat, fee: real)
  {
    function Duration(): int { exitIdx - entryIdx }
  }

  datatype State = State(
    balance: real, position: Option<OpenPosition>, trades: seq<TradeRecord>, drawdown: Tracker)

  type SignalFn = seq<Candle> -> Option<AIAction>

  const EIGHT_HOURS_MS: nat := 28_800_000

  function FundingInterval(candles: seq<Candle>): (n: nat)
    ensures 0 < n
  {
    var step := if |candles| >= 2 then candles[1].openTime - candles[0].openTime else 900_000;
    var duration := if step < 1 then 1 else step;
    var n := EIGHT_HOURS_MS / duration;
    if n < 1 then 1 else n
  }

  /** Funding falls due every eight hours, counted in whole candles of the length of the first
      step: as many as fit, and at least one. */
  lemma FundingEveryEightHours(candles: seq<Candle>)
    requires 2 <= |candles|
    ensures var step, n := candles[1].openTime - candles[0].openTime, FundingInterval(candles);
      && (1 <= step <= 28_800_000 ==> n * step <= 28_800_000 < (n + 1) * step)
      && (step > 28_800_000 ==> n == 1)
      && (step < 1 ==> n == 28_800_000)
  {
    var step := candles[1].openTime - candles[0].openTime;
    if 1 <= step <= 28_800_000 {
      var q := 28_800_000 / step;
      assert 28_800_000 == step * q + 28_800_000 % step;
    }
  }

  function Profits(trades: seq<TradeRecord>): seq<real> {
    seq(|trades|, i requires 0 <= i < |trades| => trades[i].profit)
  }

  function SizeFraction(cfg: BacktestConfig, trades: seq<TradeRecord>): real {
    match cfg.sizingMode
    case None => cfg.positionSizePct
    case Some(Fixed(fraction)) => fraction
    case Some(KellySizing(multiplier, minTrades, fallback, maxFraction)) =>
      var stats := Stats(Profits(trades));
      if stats.totalTrades < minTrades then fallback
      else
        var raw := KellyFraction(stats);
        if raw <= 0.0 then 0.0 else Min(raw * multiplier, maxFraction)
  }

  function ComputeNotional(cfg: BacktestConfig, balance: real, trades: seq<TradeRecord>): real {
    balance * SizeFraction(cfg, trades)
  }

  // ---------------------------------------------------------------------
  // Money
  // ---------------------------------------------------------------------

  function Value(price: real, quantity: real): real {
    price * quantity
  }

  function Rated(value: real, rate: real): real {
    value * rate
  }

  function RawPnl(side: Side, entry: real, exit: real, quantity: real): real {
    match side case Buy => (exit - entry) * quantity case Sell => (entry - exit) * quantity
  }

  function EntryFee(cfg: BacktestConfig, entryPrice: real, quantity: real): real {
    Rated(Value(entryPrice, quantity), cfg.feeRate)
  }

  function ProfitPct(netPnl: real, costBasis: real): real {
    if costBasis > 0.0 then netPnl / costBasis * 100.0 else 0.0
  }

  /** Margin used: the entry value over the leverage (0 stands for a division by zero). */
  function CostBasis(cfg: BacktestConfig, value: real): real {
    if cfg.leverage == 0 then 0.0 else value / cfg.leverage as real
  }

  function CloseRecord(cfg: BacktestConfig, p: OpenPosition, id: nat, exitPrice: real,
                       idx: nat, time: int): TradeRecord {
    var exitFee := Rated(Value(exitPrice, p.quantity), cfg.feeRate);
    var net := RawPnl(p.side, p.entryPrice, exitPrice, p.quantity) - exitFee - p.funding;
    TradeRecord(
      id, p.side, p.entryPrice, exitPrice, p.quantity, net,
      ProfitPct(net, CostBasis(cfg, Value(p.entryPrice, p.quantity))),
      p.entryTime, time, p.entryIdx, idx,
      EntryFee(cfg, p.entryPrice, p.quantity) + exitFee + p.funding)
  }

  function ClosePosition(cfg: BacktestConfig, st: State, exitPrice: real, idx: nat, time: int): State
    requires st.position.Some?
  {
    var record := CloseRecord(cfg, st.position.value, |st.trades| + 1, exitPrice, idx, time);
    st.(balance := st.balance + record.profit, position := None, trades := st.trades + [record])
  }

  function CurrentEquity(balance: real, position: Option<OpenPosition>, price: real): real {
    match position
    case None => balance
    case Some(p) => balance + RawPnl(p.side, p.entryPrice, price, p.quantity)
  }

  // ---------------------------------------------------------------------
  // One candle
  // ---------------------------------------------------------------------

  /** Funding falls due every `every` candles since entry. */
  function ChargeFunding(cfg: BacktestConfig, every: nat, st: State, i: nat): State
    requires 0 < every
  {
    match st.position
    case None => st
    case Some(p) =>
      if i > p.entryIdx && (i - p.entryIdx) % every == 0 then
        var fee := Rated(Value(p.entryPrice, p.quantity), cfg.fundingRate);
        st.(balance := st.balance - fee, position := Some(p.(funding := p.funding + fee)))
      else st
  }

  function Quantity(cfg: BacktestConfig, notional: real, price: real): real
    requires price != 0.0
  {
    notional * cfg.leverage as real / price
  }

  function Enter(cfg: BacktestConfig, st: State, side: Side, c: Candle, i: nat): State
    requires c.close != 0.0
  {
    var notional := ComputeNotional(cfg, st.balance, st.trades);
    var quantity := Quantity(cfg, notional, c.close);
    if quantity > 0.0 then
      st.(balance := st.balance - Rated(notional * cfg.leverage as real, cfg.feeRate),
          position := Some(OpenPosition(side, c.close, quantity, i, c.openTime, 0.0)))
    else st
  }

  function Exit(cfg: BacktestConfig, st: State, side: Side, c: Candle, i: nat): State {
    if st.position.Some? && st.position.value.side == side
    then ClosePosition(cfg, st, c.close, i, c.openTime) else st
  }

  function ActOn(cfg: BacktestConfig, st: State, action: Option<AIAction>, c: Candle, i: nat): State
    requires c.close != 0.0
  {
    match action
    case Some(EnterLong) => if st.position.None? then Enter(cfg, st, Buy, c, i) else st
    case Some(EnterShort) => if st.position.None? then Enter(cfg, st, Sell, c, i) else st
    case Some(ExitLong) => Exit(cfg, st, Buy, c, i)
    case Some(ExitShort) => Exit(cfg, st, Sell, c, i)
    case _ => st
  }

  function Traded(cfg: BacktestConfig, every: nat, st: State, action: Option<AIAction>, c: Candle, i: nat): State
    requires 0 < every && c.close != 0.0
  {
    ActOn(cfg, ChargeFunding(cfg, every, st, i), action, c, i)
  }

  function StepCandle(cfg: BacktestConfig, every: nat, st: State, action: Option<AIAction>, c: Candle, i: nat): State
    requires 0 < every && c.close != 0.0
  {
    var s := Traded(cfg, every, st, action, c, i);
    s.(drawdown := Track(s.drawdown, CurrentEquity(s.balance, s.position, c.close), i))
  }

  // ---------------------------------------------------------------------
  // The whole run
  // ---------------------------------------------------------------------

  predicate Priced(candles: seq<Candle>) {
    forall i :: 0 <= i < |candles| ==> candles[i].close > 0.0
  }

  function Start(cfg: BacktestConfig): State {
    State(cfg.initialBalance, None, [], Begin(cfg.initialBalance))
  }

  /** The state once candle `i` has been the forming candle; candle 0 never is. */
  function After(cfg: BacktestConfig, every: nat, candles: seq<Candle>, signal: SignalFn, i: nat): State
    requires 0 < every && Priced(candles) && (i == 0 || i < |candles|)
  {
    if i == 0 then Start(cfg)
    else StepCandle(cfg, every, After(cfg, every, candles, signal, i - 1),
                    signal(candles[..i]), candles[i], i)
  }

  /** A position still open is closed on the last candle. */
  function Finish(cfg: BacktestConfig, candles: seq<Candle>, signal: SignalFn): State
    requires Priced(candles)
  {
    if |candles| < 2 then Start(cfg)
    else
      var st := After(cfg, FundingInterval(candles), candles, signal, |candles| - 1);
      if st.position.Some?
      then ClosePosition(cfg, st, Last(candles).close, |candles| - 1, Last(candles).openTime) else st
  }

  datatype BacktestResult = BacktestResult(
    totalTrades: nat, totalProfit: real, finalBalance: real,
    maxDrawdown: real, maxDrawdownPct: real, maxDrawdownDuration: nat, trades: seq<TradeRecord>)

  function ResultOf(cfg: BacktestConfig, st: State): BacktestResult {
    BacktestResult(|st.trades|, st.balance - cfg.initialBalance, st.balance,
                   st.drawdown.maxDd, st.drawdown.maxDdPct, st.drawdown.maxDuration, st.trades)
  }

  class BacktestEngine {
    const config: BacktestConfig

    constructor (config: BacktestConfig)
      ensures this.config == config
    {
      this.config := config;
    }

    method Run(candles: seq<Candle>, signal: SignalFn) returns (result: BacktestResult)
      requires Priced(candles)
      ensures result == ResultOf(config, Finish(config, candles, signal))
    {
      hide ActOn, ChargeFunding, Track;
      var balance := config.initialBalance;
      var position: Option<OpenPosition> := None;
      var trades: seq<TradeRecord> := [];
      var drawdown := Begin(balance);
      if |candles| < 2 {
        return BacktestResult(0, 0.0, balance, 0.0, 0.0, 0, []);
      }
      var every := FundingInterval(candles);
      ghost var st := Start(config);
      for i := 1 to |candles|
        invariant st == After(config, every, candles, signal, i - 1)
        invariant st == State(balance, position, trades, drawdown)
      {
        var closed, forming := candles[..i], candles[i];
        balance, position := FundingDue(every, balance, position, i, st);
        st := ChargeFunding(config, every, st, i);
        var action := signal(closed);
        balance, position, trades := TradeOn(action, balance, position, trades, forming, i, st);
        st := ActOn(config, st, action, forming, i);
        drawdown := TrackEquity(drawdown, CurrentEquity(balance, position, forming.close), i);
        st := st.(drawdown := drawdown);
      }
      if position.Some? {
        var last := candles[|candles| - 1];
        var record;
        record, balance := CloseAt(position.value, last.close, |candles| - 1, last.openTime, |trades|, balance);
        trades := trades + [record];
        position := None;
      }
      result := BacktestResult(|trades|, balance - config.initialBalance, balance,
                               drawdown.maxDd, drawdown.maxDdPct, drawdown.maxDuration, trades);
    }

    method FundingDue(every: nat, balance: real, position: Option<OpenPosition>, i: nat, ghost st: State)
        returns (balance': real, position': Option<OpenPosition>)
      requires 0 < every && st.balance == balance && st.position == position
      ensures st.(balance := balance', position := position') == ChargeFunding(config, every, st, i)
    {
      balance', position' := balance, position;
      if position.Some? {
        var pos := position.value;
        var candlesHeld := i - pos.entryIdx;
        if candlesHeld > 0 && candlesHeld % every == 0 {
          var fundingFee := Rated(Value(pos.entryPrice, pos.quantity), config.fundingRate);
          position' := Some(pos.(funding := pos.funding + fundingFee));
          balance' := balance - fundingFee;
        }
      }
    }

    method TradeOn(action: Option<AIAction>, balance: real, position: Option<OpenPosition>,
                   trades: seq<TradeRecord>, forming: Candle, i: nat, ghost st: State)
        returns (balance': real, position': Option<OpenPosition>, trades': seq<TradeRecord>)
      requires forming.close > 0.0
      requires st.balance == balance && st.position == position && st.trades == trades
      ensures State(balance', position', trades', st.drawdown) == ActOn(config, st, action, forming, i)
    {
      balance', position', trades' := balance, position, trades;
      var closing := false;
      match action {
        case Some(EnterLong) =>
          if position.None? {
            balance', position' := EnterAt(Buy, balance, trades, forming, i, st);
          }
        case Some(EnterShort) =>
          if position.None? {
            balance', position' := EnterAt(Sell, balance, trades, forming, i, st);
          }
        case Some(ExitLong) =>
          closing := position.Some? && position.value.side == Buy;
        case Some(ExitShort) =>
          closing := position.Some? && position.value.side == Sell;
        case _ =>
      }
      if closing {
        var record;
        record, balance' := CloseAt(position.value, forming.close, i, forming.openTime, |trades|, balance);
        trades' := trades + [record];
        position' := None;
      }
    }

    method EnterAt(side: Side, balance: real, trades: seq<TradeRecord>, forming: Candle, i: nat, ghost st: State)
        returns (balance': real, position': Option<OpenPosition>)
      requires forming.close > 0.0
      requires st.balance == balance && st.position.None? && st.trades == trades
      ensures st.(balance := balance', position := position') == Enter(config, st, side, forming, i)
    {
      balance', position' := balance, None;
      var execPrice := forming.close;
      var notional := ComputeNotional(config, balance, trades);
      var qty := Quantity(config, notional, execPrice);
      if qty > 0.0 {
        var entryFee := Rated(notional * config.leverage as real, config.feeRate);
        balance' := balance - entryFee;
        position' := Some(OpenPosition(side, execPrice, qty, i, forming.openTime, 0.0));
      }
    }

    method CloseAt(pos: OpenPosition, exitPrice: real, idx: nat, time: int, counter: nat, balance: real)
        returns (record: TradeRecord, balance': real)
      ensures record == CloseRecord(config, pos, counter + 1, exitPrice, idx, time)
      ensures balance' == balance + record.profit
    {
      var exitFee := Rated(Value(exitPrice, pos.quantity), config.feeRate);
      var rawPnl := RawPnl(pos.side, pos.entryPrice, exitPrice, pos.quantity);
      var netPnl := rawPnl - exitFee - pos.funding;
      balance' := balance + netPnl;
      var notionalEntry := Value(pos.entryPrice, pos.quantity);
      var totalFee := Rated(notionalEntry, config.feeRate) + exitFee + pos.funding;
      record := TradeRecord(
        counter + 1, pos.side, pos.entryPrice, exitPrice, pos.quantity, netPnl,
        ProfitPct(netPnl, CostBasis(config, notionalEntry)), pos.entryTime, time, pos.entryIdx, idx, totalFee);
    }

    method TrackEquity(t: Tracker, equity: real, i: nat) returns (t': Tracker)
      ensures t' == Track(t, equity, i)
    {
      t' := t;
      if equity > t'.peak {
        t' := t'.(peak := equity, start := None);
      }
      if t'.peak > 0.0 {
        var dd := t'.peak - equity;
        var ddPct := Pct(t'.peak, equity);
        if dd > t'.maxDd {
          t' := t'.(maxDd := dd);
        }
        if ddPct > t'.maxDdPct {
          t' := t'.(maxDdPct := ddPct);
        }
        if dd > 0.0 {
          if t'.start.None? {
            t' := t'.(start := Some(i));
          }
          if t'.start.value <= i {
            var duration := i - t'.start.value + 1;
            if duration > t'.maxDuration {
              t' := t'.(maxDuration := duration);
            }
          }
        }
      }
    }
  }
}
