/** What an episode cannot do (crates/ssm-ai/src/env.rs): look ahead, or earn from a round trip
    at one price. */
module EpisodeLaws {
  import opened Domain
  import opened TradingEnv

  // ---------------------------------------------------------------------
  // No look-ahead
  // ---------------------------------------------------------------------

  lemma SamePrice(a: seq<real>, b: seq<real>, n: nat, step: nat)
    requires n <= |a| && n <= |b| && a[..n] == b[..n] && step < n
    ensures PriceAt(a, step) == PriceAt(b, step)
  {
    assert a[..n][step] == b[..n][step];
  }

  /** A step reads no price but the current one. */
  lemma StepReadsCurrentPrice(cfg: EnvConfig, a: seq<real>, b: seq<real>, st: EnvState, action: AIAction)
    requires PriceAt(a, st.step) == PriceAt(b, st.step)
    ensures StepEnv(cfg, a, st, action) == StepEnv(cfg, b, st, action)
  {
    hide CloseLong, CloseShort, PnlPct, Notional, MayEnter, Expired;
    AutoExitKeepsStep(cfg, TakeAction(cfg, st, action, PriceAt(a, st.step)), PriceAt(a, st.step));
    TakeActionKeepsStep(cfg, st, action, PriceAt(a, st.step));
  }

  lemma TakeActionKeepsStep(cfg: EnvConfig, st: EnvState, action: AIAction, price: real)
    ensures TakeAction(cfg, st, action, price).step == st.step
  {
  }

  lemma AutoExitKeepsStep(cfg: EnvConfig, st: EnvState, price: real)
    ensures AutoExit(cfg, st, price).step == st.step
  {
  }

  /** Two price series that agree on their first `n` candles give the same episode for up to
      `n` actions, and show the agent the same before that; only the end may differ. */
  lemma {:induction false} EpisodeSeesOnlyThePast(cfg: EnvConfig, a: seq<real>, b: seq<real>,
                                                  n: nat, actions: seq<AIAction>)
    requires n <= |a| && n <= |b| && a[..n] == b[..n] && |actions| <= n
    ensures EnvRun(cfg, a, actions) == EnvRun(cfg, b, actions)
    ensures EnvRun(cfg, a, actions).step == |actions|
    ensures |actions| < n ==>
      var x, y := Observe(cfg, a, EnvRun(cfg, a, actions)), Observe(cfg, b, EnvRun(cfg, b, actions));
      x == y.(done := x.done)
  {
    hide StepEnv, PnlPct;
    if actions != [] {
      var before := Front(actions);
      EpisodeSeesOnlyThePast(cfg, a, b, n, before);
      SamePrice(a, b, n, |before|);
      StepReadsCurrentPrice(cfg, a, b, EnvRun(cfg, a, before), Last(actions));
      StepAdvances(cfg, a, EnvRun(cfg, a, before), Last(actions));
    }
    if |actions| < n {
      SamePrice(a, b, n, |actions|);
    }
  }

  lemma StepAdvances(cfg: EnvConfig, closes: seq<real>, st: EnvState, action: AIAction)
    ensures StepEnv(cfg, closes, st, action).step == st.step + 1
  {
    var price := PriceAt(closes, st.step);
    TakeActionKeepsStep(cfg, st, action, price);
    AutoExitKeepsStep(cfg, TakeAction(cfg, st, action, price), price);
  }

  // ---------------------------------------------------------------------
  // Invalid actions
  // ---------------------------------------------------------------------

  /** The flag handed to the reward is set exactly for the actions, other than doing
      nothing, that leave the positions, the balance and the records as they were. */
  lemma InvalidIffNoEffect(cfg: EnvConfig, st: EnvState, action: AIAction, price: real)
    ensures IsInvalid(cfg, st, action) <==> action != Neutral && TakeAction(cfg, st, action, price) == st
  {
    hide ClosingTrade, Slip;
  }

  // ---------------------------------------------------------------------
  // Costs
  // ---------------------------------------------------------------------

  function EntrySlip(cfg: EnvConfig, side: Side, price: real): real {
    Slip(price, if side == Buy then cfg.slippageRate else -cfg.slippageRate)
  }

  lemma SlippageLoses(cfg: EnvConfig, side: Side, price: real)
    requires price > 0.0 && 0.0 <= cfg.slippageRate < 1.0
    ensures var entry := EntrySlip(cfg, side, price);
      var exit := Slip(price, if side == Buy then -cfg.slippageRate else cfg.slippageRate);
      && entry > 0.0
      && PnlPct(side, entry, exit) <= 0.0
      && (PnlPct(side, entry, exit) == 0.0 <==> cfg.slippageRate == 0.0)
  {
    var s := cfg.slippageRate;
    var entry := EntrySlip(cfg, side, price);
    var loss := if side == Buy then Slip(price, -s) - entry else entry - Slip(price, s);
    SignOfFactor(1.0 + s, price);
    SignOfFactor(1.0 - s, price);
    SignOfFactor(s, price);
    assert loss == -2.0 * (s * price);
    var ratio := loss / entry;
    assert ratio * entry == loss;
    SignOfFactor(ratio, entry);
  }

  /** Entering and leaving at one price earns nothing: the profit is at most minus both
      fees, whichever side, step and holding time. */
  lemma RoundTripNeverEarns(cfg: EnvConfig, balance: real, side: Side, price: real, entered: nat, left: nat)
    requires price > 0.0 && 0.0 <= cfg.slippageRate < 1.0 && cfg.feeRate >= 0.0
    requires Notional(cfg, balance) >= 0.0
    ensures var p := EnvPosition(side, EntrySlip(cfg, side, price), entered);
      var t := ClosingTrade(cfg, balance, left, p, price);
      t.pnl <= -t.fees <= 0.0
  {
    SlippageLoses(cfg, side, price);
    var exit := Slip(price, if side == Buy then -cfg.slippageRate else cfg.slippageRate);
    SignOfProduct(Notional(cfg, balance), PnlPct(side, EntrySlip(cfg, side, price), exit));
    SignOfProduct(Notional(cfg, balance), 2.0 * cfg.feeRate);
  }
}
