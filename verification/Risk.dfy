/** Risk limits (crates/ssm-execution/src/risk.rs): the order check, the drawdown
    breaker and the Kelly statistics. */
module Risk {
  import opened Domain
  import opened CoreEngine

  datatype RiskConfig = RiskConfig(
    maxPositionSize: real, maxTotalExposure: real, maxDrawdownPct: real, maxOpenPositions: nat)

  datatype RejectReason = BreakerActive | TooManyPositions | PositionTooLarge | ExposureTooLarge

  datatype RiskCheck = Approved | Rejected(reason: RejectReason)

  // ---------------------------------------------------------------------
  // Exposure
  // ---------------------------------------------------------------------

  function Exposure(p: Position): real {
    p.quantity * p.entryPrice
  }

  /** Adds up the exposures of a map's positions, which have no order of their own. */
  ghost function TotalExposure(positions: map<Symbol, Position>): real
    decreases |positions|
  {
    if positions == map[] then 0.0
    else
      var s :| s in positions;
      Exposure(positions[s]) + TotalExposure(positions - {s})
  }

  lemma {:induction false} TotalWithout(positions: map<Symbol, Position>, s: Symbol)
    requires s in positions
    ensures TotalExposure(positions) == Exposure(positions[s]) + TotalExposure(positions - {s})
    decreases |positions|
  {
    var t :| t in positions
      && TotalExposure(positions) == Exposure(positions[t]) + TotalExposure(positions - {t});
    if t != s {
      TotalWithout(positions - {t}, s);
      TotalWithout(positions - {s}, t);
      assert positions - {t} - {s} == positions - {s} - {t};
    }
  }

  /** Removing a symbol that is not held changes nothing. */
  lemma TotalAbsent(positions: map<Symbol, Position>, s: Symbol)
    requires s !in positions
    ensures positions - {s} == positions
  {
  }

  // ---------------------------------------------------------------------
  // The order check
  // ---------------------------------------------------------------------

  /** The first limit an order breaks, in the order the limits are checked. */
  ghost function Check(cfg: RiskConfig, breaker: bool, positions: map<Symbol, Position>,
                       s: Symbol, side: Side, quantity: real, price: real): (r: RiskCheck)
    ensures r.Approved? <==>
      && !breaker
      && (s !in positions ==> |positions| < cfg.maxOpenPositions && quantity <= cfg.maxPositionSize)
      && (s in positions && positions[s].side == side ==>
            positions[s].quantity + quantity <= cfg.maxPositionSize)
      && TotalExposure(positions) + quantity * price <= cfg.maxTotalExposure
  {
    if breaker then Rejected(BreakerActive)
    else if s !in positions && |positions| >= cfg.maxOpenPositions then Rejected(TooManyPositions)
    else if s in positions && positions[s].side == side
            && positions[s].quantity + quantity > cfg.maxPositionSize then Rejected(PositionTooLarge)
    else if s !in positions && quantity > cfg.maxPositionSize then Rejected(PositionTooLarge)
    else if TotalExposure(positions) + quantity * price > cfg.maxTotalExposure then Rejected(ExposureTooLarge)
    else Approved
  }

  /** Each reason is given exactly when its own limit is broken and none before it is. */
  lemma ReasonIsFirstBroken(cfg: RiskConfig, breaker: bool, positions: map<Symbol, Position>,
                            s: Symbol, side: Side, quantity: real, price: real)
    ensures var r := Check(cfg, breaker, positions, s, side, quantity, price);
      var crowded := s !in positions && |positions| >= cfg.maxOpenPositions;
      var held := if s in positions then positions[s].quantity else 0.0;
      var large := (s in positions ==> positions[s].side == side) && held + quantity > cfg.maxPositionSize;
      var exposed := TotalExposure(positions) + quantity * price > cfg.maxTotalExposure;
      && (r == Rejected(BreakerActive) <==> breaker)
      && (r == Rejected(TooManyPositions) <==> !breaker && crowded)
      && (r == Rejected(PositionTooLarge) <==> !breaker && !crowded && large)
      && (r == Rejected(ExposureTooLarge) <==> !breaker && !crowded && !large && exposed)
  {
  }

  /** Total exposure is the sum of quantity times entry price: of one position, and of one
      position more. */
  lemma ExposureInFigures(positions: map<Symbol, Position>, s: Symbol, p: Position)
    requires s !in positions
    ensures TotalExposure(map[]) == 0.0
    ensures TotalExposure(positions[s := p]) == TotalExposure(positions) + p.quantity * p.entryPrice
  {
    TotalWithout(positions[s := p], s);
    assert positions[s := p] - {s} == positions;
  }

  // ---------------------------------------------------------------------
  // The breaker
  // ---------------------------------------------------------------------

  datatype Breaker = Breaker(peak: real, active: bool)

  function AfterEquity(limit: real, b: Breaker, equity: real): Breaker {
    var peak := Max(b.peak, equity);
    Breaker(peak, b.active || (peak > 0.0 && (peak - equity) / peak >= limit))
  }

  class RiskManager {
    const config: RiskConfig
    var peakEquity: real
    var breakerActive: bool

    constructor (config: RiskConfig, initialEquity: real)
      ensures this.config == config && Breaker(peakEquity, breakerActive) == Breaker(initialEquity, false)
    {
      this.config, peakEquity, breakerActive := config, initialEquity, false;
    }

    method UpdateEquity(equity: real)
      modifies this
      ensures Breaker(peakEquity, breakerActive) ==
        AfterEquity(config.maxDrawdownPct, old(Breaker(peakEquity, breakerActive)), equity)
    {
      if equity > peakEquity {
        peakEquity := equity;
      }
      if peakEquity > 0.0 {
        var drawdown := (peakEquity - equity) / peakEquity;
        if drawdown >= config.maxDrawdownPct {
          breakerActive := true;
        }
      }
    }

    method ResetBreaker(newEquity: real)
      modifies this
      ensures Breaker(peakEquity, breakerActive) == Breaker(newEquity, false)
    {
      breakerActive := false;
      peakEquity := newEquity;
    }

    method CheckOrder(s: Symbol, side: Side, quantity: real,
                      positions: map<Symbol, Position>, price: real) returns (r: RiskCheck)
      ensures r == Check(config, breakerActive, positions, s, side, quantity, price)
    {
      if breakerActive {
        return Rejected(BreakerActive);
      }
      if s !in positions && |positions| >= config.maxOpenPositions {
        return Rejected(TooManyPositions);
      }
      if s in positions {
        var pos := positions[s];
        if pos.side == side {
          var newSize := pos.quantity + quantity;
          if newSize > config.maxPositionSize {
            return Rejected(PositionTooLarge);
          }
        }
      } else if quantity > config.maxPositionSize {
        return Rejected(PositionTooLarge);
      }
      var exposure := SumExposure(positions);
      if exposure + quantity * price > config.maxTotalExposure {
        return Rejected(ExposureTooLarge);
      }
      r := Approved;
    }
  }

  method SumExposure(positions: map<Symbol, Position>) returns (total: real)
    ensures total == TotalExposure(positions)
  {
    total := 0.0;
    var pending := positions;
    while pending != map[]
      invariant total + TotalExposure(pending) == TotalExposure(positions)
      decreases |pending|
    {
      var s :| s in pending;
      TotalWithout(pending, s);
      total := total + pending[s].quantity * pending[s].entryPrice;
      pending := pending - {s};
    }
  }

  /** The breaker after a sequence of equity updates since it was last reset to `start`. */
  function BreakerRun(limit: real, start: real, equities: seq<real>): Breaker {
    if equities == [] then Breaker(start, false)
    else AfterEquity(limit, BreakerRun(limit, start, Front(equities)), Last(equities))
  }

  /** Equity number 0 is the one the breaker was reset to. */
  function EquityAt(start: real, equities: seq<real>, j: nat): real
    requires j <= |equities|
  {
    if j == 0 then start else equities[j - 1]
  }

  /** The equity at which the breaker trips, measured from `equity`. */
  function Floor(limit: real, equity: real): real {
    (1.0 - limit) * equity
  }

  /** Update number `i` lies at least `limit` below the earlier positive equity number `j`. */
  ghost predicate Breaches(limit: real, start: real, equities: seq<real>, i: nat, j: nat) {
    && j <= i <= |equities| && 0 < i
    && EquityAt(start, equities, j) > 0.0
    && EquityAt(start, equities, i) <= Floor(limit, EquityAt(start, equities, j))
  }

  lemma {:induction false} PeakIsMaximum(limit: real, start: real, equities: seq<real>) returns (j: nat)
    ensures j <= |equities| && EquityAt(start, equities, j) == BreakerRun(limit, start, equities).peak
    ensures forall k: nat :: k <= |equities| ==>
      EquityAt(start, equities, k) <= BreakerRun(limit, start, equities).peak
  {
    if equities == [] {
      j := 0;
    } else {
      j := PeakIsMaximum(limit, start, Front(equities));
      assert EquityAt(start, equities, j) == EquityAt(start, Front(equities), j);
      forall k: nat | k <= |equities|
        ensures EquityAt(start, equities, k) <= BreakerRun(limit, start, equities).peak
      {
        if k < |equities| {
          assert EquityAt(start, equities, k) == EquityAt(start, Front(equities), k);
        }
      }
      if Last(equities) > BreakerRun(limit, start, Front(equities)).peak {
        j := |equities|;
      }
    }
  }

  lemma DrawdownRatio(peak: real, equity: real, limit: real)
    requires peak > 0.0
    ensures (peak - equity) / peak >= limit <==> equity <= Floor(limit, peak)
  {
    var ratio := (peak - equity) / peak;
    assert ratio * peak == peak - equity;
    if ratio >= limit {
      assert ratio * peak >= limit * peak;
    } else {
      assert ratio * peak < limit * peak;
    }
  }

  lemma FloorMonotone(limit: real, a: real, b: real)
    requires limit <= 1.0 && a <= b
    ensures Floor(limit, a) <= Floor(limit, b)
  {
  }

  /** The last update trips the breaker exactly when it breaches some earlier equity. */
  lemma LastUpdateTrips(limit: real, start: real, equities: seq<real>)
    requires limit <= 1.0 && equities != []
    ensures var peak := BreakerRun(limit, start, equities).peak;
      (peak > 0.0 && (peak - Last(equities)) / peak >= limit) <==>
      exists j :: Breaches(limit, start, equities, |equities|, j)
  {
    var n, peak := |equities|, BreakerRun(limit, start, equities).peak;
    var peakAt := PeakIsMaximum(limit, start, equities);
    if peak > 0.0 {
      DrawdownRatio(peak, Last(equities), limit);
      if Last(equities) <= Floor(limit, peak) {
        assert Breaches(limit, start, equities, n, peakAt);
      }
    }
    forall j | Breaches(limit, start, equities, n, j)
      ensures peak > 0.0 && Last(equities) <= Floor(limit, peak)
    {
      FloorMonotone(limit, EquityAt(start, equities, j), peak);
    }
  }

  /** The breaker is active exactly when, since the last reset, some update fell to
      (1 - limit) of an earlier positive equity or below. */
  lemma {:induction false} BreakerIffBreach(limit: real, start: real, equities: seq<real>)
    requires limit <= 1.0
    ensures BreakerRun(limit, start, equities).active <==>
      exists i, j :: Breaches(limit, start, equities, i, j)
  {
    if equities != [] {
      BreakerIffBreach(limit, start, Front(equities));
      forall i: nat, j: nat | i < |equities|
        ensures Breaches(limit, start, equities, i, j) == Breaches(limit, start, Front(equities), i, j)
      {
      }
      LastUpdateTrips(limit, start, equities);
      if BreakerRun(limit, start, Front(equities)).active {
        var i, j :| Breaches(limit, start, Front(equities), i, j);
        assert Breaches(limit, start, equities, i, j);
      }
    }
  }
}
