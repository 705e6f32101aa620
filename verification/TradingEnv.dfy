/** The reinforcement-learning episode (crates/ssm-ai/src/env.rs): a one-way or hedged
    position stepped candle by candle, with forced exits and an exposure gate. */
module TradingEnv {
  import opened Domain

  datatype EnvConfig = EnvConfig(
    feeRate: real, slippageRate: real, initialBalance: real, positionSizePct: real,
    maxSteps: Option<nat>, hedgeMode: bool, maxGrossExposure: real,
    maxTradeDuration: Option<nat>)

  datatype EnvPosition = EnvPosition(side: Side, entryPrice: real, entryStep: nat)

  datatype CompletedTrade = CompletedTrade(
    side: Side, entryPrice: real, exitPrice: real, duration: int, pnl: real, fees: real)

  datatype EnvState = EnvState(
    step: nat, long: Option<EnvPosition>, short: Option<EnvPosition>,
    tradeCount: nat, balance: real, trades: seq<CompletedTrade>, equityPeak: real)

  /** What the agent is shown. `positionSide`, `unrealizedPnl` and `holdDuration` are the
      legacy view of one position, the long one when there are two. */
  datatype Observation = Observation(
    step: nat, currentPrice: real,
    positionSide: Option<Side>, unrealizedPnl: real, holdDuration: int,
    done: bool, balance: real, equity: real,
    longActive: bool, longPnl: real, longHold: int,
    shortActive: bool, shortPnl: real, shortHold: int,
    netExposure: real, grossExposure: real)

  /** Prices divide by entry prices, which are positive; a zero entry is left at 0. */
  function Ratio(a: real, b: real): real {
    if b == 0.0 then 0.0 else a / b
  }

  function Slip(price: real, rate: real): real {
    price * (1.0 + rate)
  }

  function PnlPct(side: Side, entry: real, price: real): real {
    match side case Buy => Ratio(price - entry, entry) case Sell => Ratio(entry - price, entry)
  }

  function PriceAt(closes: seq<real>, step: nat): real {
    if step < |closes| then closes[step] else 0.0
  }

  function Fraction(cfg: EnvConfig, p: Option<EnvPosition>): real {
    if p.Some? then cfg.positionSizePct else 0.0
  }

  function Gross(cfg: EnvConfig, st: EnvState): real {
    Fraction(cfg, st.long) + Fraction(cfg, st.short)
  }

  function Notional(cfg: EnvConfig, balance: real): real {
    balance * cfg.positionSizePct
  }

  /** The record of closing `p` at `price`, slippage and both fees included. */
  function ClosingTrade(cfg: EnvConfig, balance: real, step: nat, p: EnvPosition, price: real): CompletedTrade {
    var exit := match p.side
      case Buy => Slip(price, -cfg.slippageRate)
      case Sell => Slip(price, cfg.slippageRate);
    var fees := 2.0 * cfg.feeRate * Notional(cfg, balance);
    CompletedTrade(p.side, p.entryPrice, exit, step - p.entryStep,
                   PnlPct(p.side, p.entryPrice, exit) * Notional(cfg, balance) - fees, fees)
  }

  function Book(st: EnvState, t: CompletedTrade): EnvState {
    st.(tradeCount := st.tradeCount + 1, balance := st.balance + t.pnl, trades := st.trades + [t])
  }

  function CloseLong(cfg: EnvConfig, st: EnvState, price: real): EnvState
    requires st.long.Some?
  {
    Book(st, ClosingTrade(cfg, st.balance, st.step, st.long.value, price)).(long := None)
  }

  function CloseShort(cfg: EnvConfig, st: EnvState, price: real): EnvState
    requires st.short.Some?
  {
    Book(st, ClosingTrade(cfg, st.balance, st.step, st.short.value, price)).(short := None)
  }

  /** An entry is allowed on a free side: in hedge mode if the gross exposure stays within
      its limit, in one-way mode if the other side is free too. */
  predicate MayEnter(cfg: EnvConfig, st: EnvState, side: Option<EnvPosition>) {
    side.None? && (if cfg.hedgeMode
                   then Gross(cfg, st) + cfg.positionSizePct <= cfg.maxGrossExposure
                   else st.long.None? && st.short.None?)
  }

  function TakeAction(cfg: EnvConfig, st: EnvState, action: AIAction, price: real): EnvState {
    match action
    case EnterLong =>
      if MayEnter(cfg, st, st.long)
      then st.(long := Some(EnvPosition(Buy, Slip(price, cfg.slippageRate), st.step))) else st
    case EnterShort =>
      if MayEnter(cfg, st, st.short)
      then st.(short := Some(EnvPosition(Sell, Slip(price, -cfg.slippageRate), st.step))) else st
    case ExitLong => if st.long.Some? then CloseLong(cfg, st, price) else st
    case ExitShort => if st.short.Some? then CloseShort(cfg, st, price) else st
    case Neutral => st
  }

  /** An entry that is not allowed, or an exit with nothing to exit. */
  predicate IsInvalid(cfg: EnvConfig, st: EnvState, action: AIAction) {
    match action
    case EnterLong => !MayEnter(cfg, st, st.long)
    case EnterShort => !MayEnter(cfg, st, st.short)
    case ExitLong => st.long.None?
    case ExitShort => st.short.None?
    case Neutral => false
  }

  predicate Expired(cfg: EnvConfig, st: EnvState, p: Option<EnvPosition>) {
    cfg.maxTradeDuration.Some? && p.Some? && st.step - p.value.entryStep >= cfg.maxTradeDuration.value
  }

  function AutoExit(cfg: EnvConfig, st: EnvState, price: real): EnvState {
    var s1 := if Expired(cfg, st, st.long) then CloseLong(cfg, st, price) else st;
    if Expired(cfg, s1, s1.short) then CloseShort(cfg, s1, price) else s1
  }

  function Unrealized(cfg: EnvConfig, st: EnvState, p: Option<EnvPosition>, price: real): real {
    if p.None? then 0.0
    else PnlPct(p.value.side, p.value.entryPrice, price) * Notional(cfg, st.balance)
  }

  function Equity(cfg: EnvConfig, closes: seq<real>, st: EnvState): real {
    var price := PriceAt(closes, st.step);
    st.balance + Unrealized(cfg, st, st.long, price) + Unrealized(cfg, st, st.short, price)
  }

  function StepEnv(cfg: EnvConfig, closes: seq<real>, st: EnvState, action: AIAction): EnvState {
    var price := PriceAt(closes, st.step);
    var s := AutoExit(cfg, TakeAction(cfg, st, action, price), price);
    s.(equityPeak := Max(s.equityPeak, Equity(cfg, closes, s)), step := s.step + 1)
  }

  function InitState(cfg: EnvConfig): EnvState {
    EnvState(0, None, None, 0, cfg.initialBalance, [], cfg.initialBalance)
  }

  function IsDone(cfg: EnvConfig, closes: seq<real>, st: EnvState): bool {
    || st.step >= (if |closes| == 0 then 0 else |closes| - 1)
    || (cfg.maxSteps.Some? && st.step >= cfg.maxSteps.value)
  }

  function PnlAt(p: Option<EnvPosition>, price: real): real {
    if p.None? then 0.0 else PnlPct(p.value.side, p.value.entryPrice, price)
  }

  function HoldAt(p: Option<EnvPosition>, step: nat): int {
    if p.None? then 0 else step - p.value.entryStep
  }

  function Observe(cfg: EnvConfig, closes: seq<real>, st: EnvState): Observation {
    var price := PriceAt(closes, st.step);
    var primary := if st.long.Some? then st.long else st.short;
    Observation(
      st.step, price,
      if st.long.Some? then Some(Buy) else if st.short.Some? then Some(Sell) else None,
      PnlAt(primary, price), HoldAt(primary, st.step),
      IsDone(cfg, closes, st), st.balance, Equity(cfg, closes, st),
      st.long.Some?, PnlAt(st.long, price), HoldAt(st.long, st.step),
      st.short.Some?, PnlAt(st.short, price), HoldAt(st.short, st.step),
      Fraction(cfg, st.long) - Fraction(cfg, st.short), Gross(cfg, st))
  }

  class Env {
    const candles: seq<real>
    const config: EnvConfig
    var step: nat
    var longPosition: Option<EnvPosition>
    var shortPosition: Option<EnvPosition>
    var tradeCount: nat
    var balance: real
    var trades: seq<CompletedTrade>
    var equityPeak: real

    function State(): EnvState
      reads this
    {
      EnvState(step, longPosition, shortPosition, tradeCount, balance, trades, equityPeak)
    }

    constructor (candles: seq<real>, config: EnvConfig)
      ensures this.candles == candles && this.config == config && State() == InitState(config)
    {
      this.candles, this.config := candles, config;
      step, longPosition, shortPosition, tradeCount := 0, None, None, 0;
      balance, trades, equityPeak := config.initialBalance, [], config.initialBalance;
    }

    method Reset() returns (obs: Observation)
      modifies this
      ensures State() == InitState(config) && obs == Observe(config, candles, State())
    {
      step, longPosition, shortPosition, tradeCount := 0, None, None, 0;
      balance, trades := config.initialBalance, [];
      equityPeak := balance;
      obs := Observe(config, candles, State());
    }

    /** `invalid` is the flag that the reward is computed from. */
    method Step(action: AIAction) returns (obs: Observation, invalid: bool)
      modifies this
      ensures State() == StepEnv(config, candles, old(State()), action)
      ensures obs == Observe(config, candles, State())
      ensures invalid <==> IsInvalid(config, old(State()), action)
    {
      hide TakeAction, AutoExit;
      var price := PriceAt(candles, step);
      invalid := ProcessAction(action, price);
      ExitExpired(price);
      var equity := Equity(config, candles, State());
      if equity > equityPeak {
        equityPeak := equity;
      }
      step := step + 1;
      obs := Observe(config, candles, State());
    }

    method ProcessAction(action: AIAction, price: real) returns (invalid: bool)
      modifies this
      ensures State() == TakeAction(config, old(State()), action, price)
      ensures invalid <==> IsInvalid(config, old(State()), action)
    {
      var isFlat := longPosition.None? && shortPosition.None?;
      invalid := false;
      match action {
        case EnterLong =>
          if config.hedgeMode && longPosition.None? {
            var newGross := Gross(config, State()) + config.positionSizePct;
            if newGross <= config.maxGrossExposure {
              longPosition := Some(EnvPosition(Buy, Slip(price, config.slippageRate), step));
            } else {
              invalid := true;
            }
          } else if !config.hedgeMode && isFlat {
            longPosition := Some(EnvPosition(Buy, Slip(price, config.slippageRate), step));
          } else {
            invalid := true;
          }
        case EnterShort =>
          if config.hedgeMode && shortPosition.None? {
            var newGross := Gross(config, State()) + config.positionSizePct;
            if newGross <= config.maxGrossExposure {
              shortPosition := Some(EnvPosition(Sell, Slip(price, -config.slippageRate), step));
            } else {
              invalid := true;
            }
          } else if !config.hedgeMode && isFlat {
            shortPosition := Some(EnvPosition(Sell, Slip(price, -config.slippageRate), step));
          } else {
            invalid := true;
          }
        case ExitLong =>
          if longPosition.Some? {
            var pos := longPosition.value;
            longPosition := None;
            ClosePositionRecord(pos, price);
          } else {
            invalid := true;
          }
        case ExitShort =>
          if shortPosition.Some? {
            var pos := shortPosition.value;
            shortPosition := None;
            ClosePositionRecord(pos, price);
          } else {
            invalid := true;
          }
        case Neutral =>
      }
    }

    method ExitExpired(price: real)
      modifies this
      ensures State() == AutoExit(config, old(State()), price)
    {
      if config.maxTradeDuration.Some? {
        var maxDur := config.maxTradeDuration.value;
        if longPosition.Some? && step - longPosition.value.entryStep >= maxDur {
          var pos := longPosition.value;
          longPosition := None;
          ClosePositionRecord(pos, price);
        }
        if shortPosition.Some? && step - shortPosition.value.entryStep >= maxDur {
          var pos := shortPosition.value;
          shortPosition := None;
          ClosePositionRecord(pos, price);
        }
      }
    }

    method ClosePositionRecord(pos: EnvPosition, exitPrice: real)
      modifies this
      ensures State() == Book(old(State()), ClosingTrade(config, old(balance), step, pos, exitPrice))
    {
      tradeCount := tradeCount + 1;
      var duration := step - pos.entryStep;
      var effectiveExit := match pos.side
        case Buy => Slip(exitPrice, -config.slippageRate)
        case Sell => Slip(exitPrice, config.slippageRate);
      var pnlPct := PnlPct(pos.side, pos.entryPrice, effectiveExit);
      var notional := Notional(config, balance);
      var fees := 2.0 * config.feeRate * notional;
      var pnlDollar := pnlPct * notional - fees;
      assert CompletedTrade(pos.side, pos.entryPrice, effectiveExit, duration, pnlDollar, fees)
        == ClosingTrade(config, old(balance), step, pos, exitPrice);
      balance := balance + pnlDollar;
      trades := trades + [CompletedTrade(pos.side, pos.entryPrice, effectiveExit, duration, pnlDollar, fees)];
    }
  }

  // ---------------------------------------------------------------------
  // What every episode keeps
  // ---------------------------------------------------------------------

  function EnvRun(cfg: EnvConfig, closes: seq<real>, actions: seq<AIAction>): EnvState {
    if actions == [] then InitState(cfg)
    else StepEnv(cfg, closes, EnvRun(cfg, closes, Front(actions)), Last(actions))
  }

  function Pnls(trades: seq<CompletedTrade>): seq<real> {
    seq(|trades|, i requires 0 <= i < |trades| => trades[i].pnl)
  }

  ghost predicate SidesInv(cfg: EnvConfig, st: EnvState) {
    && (st.long.Some? ==> st.long.value.side == Buy && st.long.value.entryStep <= st.step)
    && (st.short.Some? ==> st.short.value.side == Sell && st.short.value.entryStep <= st.step)
    && (!cfg.hedgeMode ==> st.long.None? || st.short.None?)
  }

  /** The limit binds whenever something is held. Closing one of two positions must not
      break it either, whatever the sign of the position size. */
  ghost predicate ExposureInv(cfg: EnvConfig, st: EnvState) {
    cfg.hedgeMode ==>
      && (st.long.Some? || st.short.Some? ==> cfg.positionSizePct <= cfg.maxGrossExposure)
      && (st.long.Some? && st.short.Some? ==>
            cfg.positionSizePct + cfg.positionSizePct <= cfg.maxGrossExposure)
  }

  /** No position held, and no trade recorded, is older than the maximum duration. */
  ghost predicate AgeInv(cfg: EnvConfig, st: EnvState) {
    cfg.maxTradeDuration.Some? ==>
      && (st.long.Some? ==> st.step - st.long.value.entryStep <= cfg.maxTradeDuration.value)
      && (st.short.Some? ==> st.step - st.short.value.entryStep <= cfg.maxTradeDuration.value)
      && (forall k :: 0 <= k < |st.trades| ==> st.trades[k].duration <= cfg.maxTradeDuration.value)
  }

  ghost predicate LedgerInv(cfg: EnvConfig, st: EnvState) {
    && st.tradeCount == |st.trades|
    && st.balance == cfg.initialBalance + Sum(Pnls(st.trades))
  }

  ghost predicate EnvInv(cfg: EnvConfig, st: EnvState) {
    SidesInv(cfg, st) && ExposureInv(cfg, st) && AgeInv(cfg, st) && LedgerInv(cfg, st)
  }

  lemma BookKeepsLedger(cfg: EnvConfig, st: EnvState, t: CompletedTrade)
    requires LedgerInv(cfg, st)
    ensures LedgerInv(cfg, Book(st, t))
  {
    assert Front(Pnls(st.trades + [t])) == Pnls(st.trades);
  }

  lemma CloseKeepsInv(cfg: EnvConfig, st: EnvState, price: real)
    requires EnvInv(cfg, st)
    ensures st.long.Some? ==> EnvInv(cfg, CloseLong(cfg, st, price))
    ensures st.short.Some? ==> EnvInv(cfg, CloseShort(cfg, st, price))
  {
    if st.long.Some? {
      BookKeepsLedger(cfg, st, ClosingTrade(cfg, st.balance, st.step, st.long.value, price));
    }
    if st.short.Some? {
      BookKeepsLedger(cfg, st, ClosingTrade(cfg, st.balance, st.step, st.short.value, price));
    }
  }

  lemma ActionKeepsInv(cfg: EnvConfig, st: EnvState, action: AIAction, price: real)
    requires EnvInv(cfg, st)
    ensures EnvInv(cfg, TakeAction(cfg, st, action, price))
    ensures TakeAction(cfg, st, action, price).step == st.step
  {
    match action
    case ExitLong => CloseKeepsInv(cfg, st, price);
    case ExitShort => CloseKeepsInv(cfg, st, price);
    case _ =>
  }

  /** Forced exits leave no position that has reached the maximum duration. */
  lemma AutoExitKeepsInv(cfg: EnvConfig, st: EnvState, price: real)
    requires EnvInv(cfg, st)
    ensures var s := AutoExit(cfg, st, price);
      && EnvInv(cfg, s) && s.step == st.step
      && !Expired(cfg, s, s.long) && !Expired(cfg, s, s.short)
  {
    CloseKeepsInv(cfg, st, price);
    if Expired(cfg, st, st.long) {
      CloseKeepsInv(cfg, CloseLong(cfg, st, price), price);
    }
  }

  lemma StepKeepsInv(cfg: EnvConfig, closes: seq<real>, st: EnvState, action: AIAction)
    requires EnvInv(cfg, st)
    ensures EnvInv(cfg, StepEnv(cfg, closes, st, action))
    ensures StepEnv(cfg, closes, st, action).step == st.step + 1
  {
    var price := PriceAt(closes, st.step);
    ActionKeepsInv(cfg, st, action, price);
    AutoExitKeepsInv(cfg, TakeAction(cfg, st, action, price), price);
    AdvanceKeepsInv(cfg, AutoExit(cfg, TakeAction(cfg, st, action, price), price),
                    StepEnv(cfg, closes, st, action));
  }

  lemma AdvanceKeepsInv(cfg: EnvConfig, s: EnvState, s': EnvState)
    requires EnvInv(cfg, s) && !Expired(cfg, s, s.long) && !Expired(cfg, s, s.short)
    requires s' == s.(equityPeak := s'.equityPeak, step := s.step + 1)
    ensures EnvInv(cfg, s')
  {
  }

  /** Every episode, whatever the actions: one-way mode holds one side at most, hedge mode
      stays within its exposure limit, nothing outlives the maximum duration, and the
      balance is the initial balance plus the recorded profits. */
  lemma {:induction false} EpisodeInvariants(cfg: EnvConfig, closes: seq<real>, actions: seq<AIAction>)
    ensures EnvInv(cfg, EnvRun(cfg, closes, actions))
    ensures EnvRun(cfg, closes, actions).step == |actions|
  {
    if actions == [] {
      assert Pnls([]) == [];
    } else {
      EpisodeInvariants(cfg, closes, Front(actions));
      StepKeepsInv(cfg, closes, EnvRun(cfg, closes, Front(actions)), Last(actions));
    }
  }

  /** In hedge mode the gross exposure of whatever is held is within the limit. */
  lemma {:induction false} GrossExposureHolds(cfg: EnvConfig, closes: seq<real>, actions: seq<AIAction>)
    ensures var st := EnvRun(cfg, closes, actions);
      cfg.hedgeMode && (st.long.Some? || st.short.Some?) ==> Gross(cfg, st) <= cfg.maxGrossExposure
  {
    EpisodeInvariants(cfg, closes, actions);
  }

  /** An episode over `n` candles takes one step fewer, or `max_steps` if that is less. */
  function EpisodeLength(cfg: EnvConfig, n: nat): nat {
    var steps := if n == 0 then 0 else n - 1;
    if cfg.maxSteps.Some? && cfg.maxSteps.value < steps then cfg.maxSteps.value else steps
  }

  /** The actions a policy takes are answers to what it was shown. */
  ghost predicate FollowsPolicy(cfg: EnvConfig, closes: seq<real>, actions: seq<AIAction>,
                                policy: Observation -> AIAction) {
    forall k :: 0 <= k < |actions| ==>
      actions[k] == policy(Observe(cfg, closes, EnvRun(cfg, closes, actions[..k])))
  }

  lemma {:induction false} PolicyExtends(cfg: EnvConfig, closes: seq<real>, actions: seq<AIAction>,
                                         policy: Observation -> AIAction)
    requires FollowsPolicy(cfg, closes, actions, policy)
    ensures var action := policy(Observe(cfg, closes, EnvRun(cfg, closes, actions)));
      && FollowsPolicy(cfg, closes, actions + [action], policy)
      && EnvRun(cfg, closes, actions + [action]) == StepEnv(cfg, closes, EnvRun(cfg, closes, actions), action)
  {
    var action := policy(Observe(cfg, closes, EnvRun(cfg, closes, actions)));
    var after := actions + [action];
    assert Front(after) == actions;
    forall k | 0 <= k < |after|
      ensures after[k] == policy(Observe(cfg, closes, EnvRun(cfg, closes, after[..k])))
    {
      if k < |actions| {
        assert after[..k] == actions[..k];
      } else {
        assert after[..k] == actions;
      }
    }
  }

  /** The episode loop of crates/ssm-ai/src/optimizer.rs. */
  method RunTrial(candles: seq<real>, config: EnvConfig, policy: Observation -> AIAction)
      returns (env: Env, ghost actions: seq<AIAction>)
    ensures |actions| == EpisodeLength(config, |candles|) == env.step
    ensures env.State() == EnvRun(config, candles, actions)
    ensures FollowsPolicy(config, candles, actions, policy)
    ensures EnvInv(config, env.State())
  {
    env := new Env(candles, config);
    var obs := env.Reset();
    actions := [];
    while !obs.done
      invariant env.candles == candles && env.config == config && fresh(env)
      invariant env.State() == EnvRun(config, candles, actions)
      invariant obs == Observe(config, candles, env.State())
      invariant |actions| == env.step <= EpisodeLength(config, |candles|)
      invariant FollowsPolicy(config, candles, actions, policy)
      decreases EpisodeLength(config, |candles|) - env.step
    {
      var action := policy(obs);
      PolicyExtends(config, candles, actions, policy);
      actions := actions + [action];
      var invalid;
      obs, invalid := env.Step(action);
    }
    EpisodeInvariants(config, candles, actions);
  }
}
