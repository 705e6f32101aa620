/** The amounts, conditions and readings of an episode in figures (crates/ssm-ai/src/env.rs). */
module EpisodeMoney {
  import opened Domain
  import opened TradingEnv

  // ---------------------------------------------------------------------
  // Entering
  // ---------------------------------------------------------------------

  /** What the two sides commit, as fractions of the balance. */
  function Committed(cfg: EnvConfig, st: EnvState): real {
    (if st.long.Some? then cfg.positionSizePct else 0.0) + (if st.short.Some? then cfg.positionSizePct else 0.0)
  }

  /** An entry opens a position exactly when its side is free and, hedged, one more fits
      under the limit, or, one-way, nothing is held; at the price plus slippage for a buyer
      and less slippage for a seller, and with no other effect. */
  lemma EntryOpensIff(cfg: EnvConfig, st: EnvState, price: real)
    ensures var st' := TakeAction(cfg, st, EnterLong, price);
      if st.long.None? && (if cfg.hedgeMode then Committed(cfg, st) + cfg.positionSizePct <= cfg.maxGrossExposure
                           else st.short.None?)
      then st' == st.(long := st'.long)
           && st'.long == Some(EnvPosition(Buy, price + price * cfg.slippageRate, st.step))
      else st' == st
    ensures var st' := TakeAction(cfg, st, EnterShort, price);
      if st.short.None? && (if cfg.hedgeMode then Committed(cfg, st) + cfg.positionSizePct <= cfg.maxGrossExposure
                            else st.long.None?)
      then st' == st.(short := st'.short)
           && st'.short == Some(EnvPosition(Sell, price - price * cfg.slippageRate, st.step))
      else st' == st
  {
    assert Slip(price, cfg.slippageRate) == price + price * cfg.slippageRate;
    assert Slip(price, -cfg.slippageRate) == price - price * cfg.slippageRate;
  }

  // ---------------------------------------------------------------------
  // Closing
  // ---------------------------------------------------------------------

  lemma RatioTimes(a: real, b: real, n: real)
    requires b > 0.0
    ensures Ratio(a, b) * n * b == a * n
  {
    assert a / b * b == a;
  }

  /** A closed trade records the price less slippage against it, the steps held, one fee for
      the entry and one for the exit, and earns the signed relative move on the notional less
      those fees. */
  lemma ClosingAmounts(cfg: EnvConfig, balance: real, step: nat, p: EnvPosition, price: real)
    requires p.entryPrice > 0.0
    ensures var t, notional := ClosingTrade(cfg, balance, step, p, price), balance * cfg.positionSizePct;
      && t.side == p.side && t.entryPrice == p.entryPrice && t.duration == step - p.entryStep
      && t.exitPrice == price - Sign(p.side) * (price * cfg.slippageRate)
      && t.fees == cfg.feeRate * notional + cfg.feeRate * notional
      && (t.pnl + t.fees) * p.entryPrice == Sign(p.side) * (t.exitPrice - p.entryPrice) * notional
  {
    var t, notional := ClosingTrade(cfg, balance, step, p, price), Notional(cfg, balance);
    var gain := if p.side == Buy then t.exitPrice - p.entryPrice else p.entryPrice - t.exitPrice;
    SlipAmount(price, cfg.slippageRate);
    RatioTimes(gain, p.entryPrice, notional);
    TwoFees(cfg.feeRate, notional);
  }

  lemma SlipAmount(price: real, rate: real)
    ensures Slip(price, rate) == price + price * rate && Slip(price, -rate) == price - price * rate
  {
  }

  lemma TwoFees(rate: real, notional: real)
    ensures 2.0 * rate * notional == rate * notional + rate * notional
  {
  }

  /** Without slippage, closing at the entry price loses exactly the two fees. */
  lemma EvenTradeCostsTwoFees(cfg: EnvConfig, balance: real, step: nat, p: EnvPosition)
    requires p.entryPrice > 0.0 && cfg.slippageRate == 0.0
    ensures var fee := cfg.feeRate * (balance * cfg.positionSizePct);
      ClosingTrade(cfg, balance, step, p, p.entryPrice).pnl == -fee - fee
  {
    var t, price := ClosingTrade(cfg, balance, step, p, p.entryPrice), p.entryPrice;
    ClosingAmounts(cfg, balance, step, p, price);
    assert price * cfg.slippageRate == 0.0;
    NoMove(t.exitPrice - price, Sign(p.side), balance * cfg.positionSizePct, t.pnl + t.fees, price);
  }

  lemma NoMove(move: real, sign: real, notional: real, gross: real, entry: real)
    requires move == 0.0 && entry > 0.0 && gross * entry == sign * move * notional
    ensures gross == 0.0
  {
    assert sign * move == 0.0;
    assert gross * entry == 0.0;
    SignOfFactor(gross, entry);
  }

  /** An exit closes the side it names, if that is held: the record is appended and counted,
      its profit added to the balance, and nothing else changes. */
  lemma ExitClosesIff(cfg: EnvConfig, st: EnvState, price: real)
    ensures var st' := TakeAction(cfg, st, ExitLong, price);
      if st.long.None? then st' == st
      else
        var t := ClosingTrade(cfg, st.balance, st.step, st.long.value, price);
        st' == st.(long := None, tradeCount := st.tradeCount + 1, balance := st.balance + t.pnl, trades := st.trades + [t])
    ensures var st' := TakeAction(cfg, st, ExitShort, price);
      if st.short.None? then st' == st
      else
        var t := ClosingTrade(cfg, st.balance, st.step, st.short.value, price);
        st' == st.(short := None, tradeCount := st.tradeCount + 1, balance := st.balance + t.pnl, trades := st.trades + [t])
  {
    hide ClosingTrade;
  }

  predicate TooOld(cfg: EnvConfig, st: EnvState, p: Option<EnvPosition>) {
    p.Some? && cfg.maxTradeDuration.Some? && st.step - p.value.entryStep >= cfg.maxTradeDuration.value
  }

  /** The forced exits close exactly the positions that have reached the maximum age: as the
      agent's own exits would, the long one first. */
  lemma ForcedExitIff(cfg: EnvConfig, st: EnvState, price: real)
    ensures var old1 := if TooOld(cfg, st, st.long) then TakeAction(cfg, st, ExitLong, price) else st;
      AutoExit(cfg, st, price) == if TooOld(cfg, st, st.short) then TakeAction(cfg, old1, ExitShort, price) else old1
  {
    hide ClosingTrade;
  }

  // ---------------------------------------------------------------------
  // Equity and its peak
  // ---------------------------------------------------------------------

  /** Equity is the balance and, for each side held, the signed relative move of the price
      since entry on the notional of the balance. */
  lemma EquityInFigures(cfg: EnvConfig, closes: seq<real>, st: EnvState)
    requires st.long.Some? ==> st.long.value.side == Buy && st.long.value.entryPrice > 0.0
    requires st.short.Some? ==> st.short.value.side == Sell && st.short.value.entryPrice > 0.0
    requires st.step < |closes|
    ensures var price, notional := closes[st.step], st.balance * cfg.positionSizePct;
      var long, short := Equity(cfg, closes, st.(short := None)), Equity(cfg, closes, st.(long := None));
      && Equity(cfg, closes, st) - st.balance == (long - st.balance) + (short - st.balance)
      && (if st.long.None? then long == st.balance
          else (long - st.balance) * st.long.value.entryPrice == (price - st.long.value.entryPrice) * notional)
      && (if st.short.None? then short == st.balance
          else (short - st.balance) * st.short.value.entryPrice == (st.short.value.entryPrice - price) * notional)
  {
    var price, notional := closes[st.step], Notional(cfg, st.balance);
    if st.long.Some? {
      RatioTimes(price - st.long.value.entryPrice, st.long.value.entryPrice, notional);
    }
    if st.short.Some? {
      RatioTimes(st.short.value.entryPrice - price, st.short.value.entryPrice, notional);
    }
  }

  /** The equity that step `k` of an episode leaves, before the next candle is shown. */
  function EquityAfter(cfg: EnvConfig, closes: seq<real>, actions: seq<AIAction>, k: nat): real
    requires k < |actions|
  {
    var st := EnvRun(cfg, closes, actions[..k]);
    var price := PriceAt(closes, st.step);
    Equity(cfg, closes, AutoExit(cfg, TakeAction(cfg, st, actions[k], price), price))
  }

  /** The tracked peak is the highest of the initial balance and the equities so far. */
  lemma {:induction false} PeakIsHighestEquity(cfg: EnvConfig, closes: seq<real>, actions: seq<AIAction>)
    ensures var peak := EnvRun(cfg, closes, actions).equityPeak;
      && cfg.initialBalance <= peak
      && (forall k :: 0 <= k < |actions| ==> EquityAfter(cfg, closes, actions, k) <= peak)
      && (peak == cfg.initialBalance
          || exists k :: 0 <= k < |actions| && EquityAfter(cfg, closes, actions, k) == peak)
  {
    if actions != [] {
      var before, n := Front(actions), |actions| - 1;
      PeakIsHighestEquity(cfg, closes, before);
      assert actions[..n] == before;
      forall k | 0 <= k < n
        ensures EquityAfter(cfg, closes, actions, k) == EquityAfter(cfg, closes, before, k)
      {
        assert actions[..k] == before[..k];
      }
      StepPeak(cfg, closes, EnvRun(cfg, closes, before), actions[n]);
      assert EnvRun(cfg, closes, actions).equityPeak ==
        Max(EnvRun(cfg, closes, before).equityPeak, EquityAfter(cfg, closes, actions, n));
    }
  }

  lemma StepPeak(cfg: EnvConfig, closes: seq<real>, st: EnvState, action: AIAction)
    ensures var price := PriceAt(closes, st.step);
      StepEnv(cfg, closes, st, action).equityPeak ==
        Max(st.equityPeak, Equity(cfg, closes, AutoExit(cfg, TakeAction(cfg, st, action, price), price)))
  {
    hide AutoExit, TakeAction, Equity;
    var price := PriceAt(closes, st.step);
    PeakUntouched(cfg, st, action, price);
  }

  lemma PeakUntouched(cfg: EnvConfig, st: EnvState, action: AIAction, price: real)
    ensures AutoExit(cfg, TakeAction(cfg, st, action, price), price).equityPeak == st.equityPeak
  {
    hide ClosingTrade;
  }

  // ---------------------------------------------------------------------
  // What is shown
  // ---------------------------------------------------------------------

  /** An observation shows the state: which sides are held, since when, at what relative
      profit, how much they commit net and gross, and whether the episode is over. */
  lemma ObservationInFigures(cfg: EnvConfig, closes: seq<real>, st: EnvState)
    requires st.long.Some? ==> st.long.value.side == Buy && st.long.value.entryPrice > 0.0
    requires st.short.Some? ==> st.short.value.side == Sell && st.short.value.entryPrice > 0.0
    requires st.step < |closes|
    ensures var o, price := Observe(cfg, closes, st), closes[st.step];
      && o.step == st.step && o.currentPrice == price
      && o.balance == st.balance && o.equity == Equity(cfg, closes, st)
      && (o.done <==> st.step == |closes| - 1 || (cfg.maxSteps.Some? && cfg.maxSteps.value <= st.step))
      && (o.longActive <==> st.long.Some?) && (o.shortActive <==> st.short.Some?)
      && (st.long.Some? ==>
            && o.longPnl * st.long.value.entryPrice == price - st.long.value.entryPrice
            && o.longHold == st.step - st.long.value.entryStep)
      && (st.short.Some? ==>
            && o.shortPnl * st.short.value.entryPrice == st.short.value.entryPrice - price
            && o.shortHold == st.step - st.short.value.entryStep)
      && (st.long.None? ==> o.longPnl == 0.0 && o.longHold == 0)
      && (st.short.None? ==> o.shortPnl == 0.0 && o.shortHold == 0)
      && (o.positionSide, o.unrealizedPnl, o.holdDuration) ==
           (if o.longActive then (Some(Buy), o.longPnl, o.longHold)
            else if o.shortActive then (Some(Sell), o.shortPnl, o.shortHold) else (None, 0.0, 0))
      && o.grossExposure == Committed(cfg, st)
      && o.netExposure == Committed(cfg, st.(short := None)) - Committed(cfg, st.(long := None))
  {
    var price := closes[st.step];
    if st.long.Some? {
      RatioTimes(price - st.long.value.entryPrice, st.long.value.entryPrice, 1.0);
    }
    if st.short.Some? {
      RatioTimes(st.short.value.entryPrice - price, st.short.value.entryPrice, 1.0);
    }
  }

  /** An episode starts flat, with the initial balance and no record. */
  lemma EpisodeStartsFlat(cfg: EnvConfig, closes: seq<real>)
    ensures EnvRun(cfg, closes, []) == InitState(cfg)
    ensures var st := InitState(cfg);
      && st.step == 0 && st.long.None? && st.short.None? && st.tradeCount == 0 && st.trades == []
      && st.balance == cfg.initialBalance == st.equityPeak
  {
  }
}
