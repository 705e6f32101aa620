/** The order check composed with the fills it approves
    (crates/ssm-execution/src/risk.rs:216-266, crates/ssm-execution/src/position_tracker.rs:36-115). */
module RiskComposition {
  import opened Domain
  import opened CoreEngine
  import opened PositionTracker
  import opened Risk

  /** An order is filled at the price it was checked at, if the check approves it. */
  datatype Event =
    | Order(symbol: Symbol, fill: Fill)
    | Equity(equity: real)
    | ResetBreaker(equity: real)
    | Mark(prices: map<Symbol, real>)

  datatype State = State(book: Book, breaker: Breaker)

  predicate ValidEvents(events: seq<Event>) {
    forall k :: 0 <= k < |events| && events[k].Order? ==> events[k].fill.Valid()
  }

  ghost predicate IsApproved(cfg: RiskConfig, st: State, s: Symbol, f: Fill) {
    Check(cfg, st.breaker.active, st.book.positions, s, f.side, f.quantity, f.price).Approved?
  }

  ghost function Step(cfg: RiskConfig, st: State, e: Event): State
    requires e.Order? ==> e.fill.Valid()
  {
    match e
    case Order(s, f) =>
      if IsApproved(cfg, st, s, f) then st.(book := TrackFill(st.book, s, f)) else st
    case Equity(x) => st.(breaker := AfterEquity(cfg.maxDrawdownPct, st.breaker, x))
    case ResetBreaker(x) => st.(breaker := Breaker(x, false))
    case Mark(prices) => st.(book := TrackMark(st.book, prices))
  }

  ghost function Run(cfg: RiskConfig, initialEquity: real, events: seq<Event>): State
    requires ValidEvents(events)
  {
    if events == [] then State(Book(map[], []), Breaker(initialEquity, false))
    else Step(cfg, Run(cfg, initialEquity, Front(events)), Last(events))
  }

  predicate Positive(positions: map<Symbol, Position>) {
    forall s :: s in positions ==> positions[s].quantity > 0.0 && positions[s].entryPrice > 0.0
  }

  // ---------------------------------------------------------------------
  // One fill
  // ---------------------------------------------------------------------

  lemma PositiveProduct(a: real, b: real)
    requires a > 0.0 && b > 0.0
    ensures a * b > 0.0
  {
  }

  /** The entry of an increased position carries exactly the old cost and the fill's. */
  lemma IncreasedExposure(p: Position, f: Fill)
    requires p.quantity > 0.0 && p.entryPrice > 0.0 && f.Valid()
    ensures WeightedEntry(p, f) > 0.0
    ensures Exposure(p.(quantity := p.quantity + f.quantity, entryPrice := WeightedEntry(p, f))) ==
      Exposure(p) + OrderValue(f)
  {
    var q, cost := p.quantity + f.quantity, p.entryPrice * p.quantity + f.price * f.quantity;
    var x := WeightedEntry(p, f);
    assert x * q == cost;
    PositiveProduct(p.entryPrice, p.quantity);
    PositiveProduct(f.price, f.quantity);
    SignOfFactor(x, q);
  }

  lemma ReducedExposure(after: Position, before: Position)
    requires 0.0 < after.quantity <= before.quantity
    requires after.entryPrice == before.entryPrice > 0.0
    ensures Exposure(after) <= Exposure(before)
  {
  }

  lemma FlippedExposure(after: Position, f: Fill)
    requires 0.0 < after.quantity <= f.quantity && after.entryPrice == f.price > 0.0
    ensures Exposure(after) <= OrderValue(f)
  {
  }

  function ExposureOf(positions: map<Symbol, Position>, s: Symbol): real {
    if s in positions then Exposure(positions[s]) else 0.0
  }

  function OrderValue(f: Fill): real {
    f.quantity * f.price
  }

  /** Two maps that differ at one symbol differ in total by that symbol's exposure. */
  lemma TotalDifference(before: map<Symbol, Position>, after: map<Symbol, Position>, s: Symbol)
    requires before - {s} == after - {s}
    ensures TotalExposure(after) - TotalExposure(before) == ExposureOf(after, s) - ExposureOf(before, s)
  {
    if s in before {
      TotalWithout(before, s);
    } else {
      TotalAbsent(before, s);
    }
    if s in after {
      TotalWithout(after, s);
    } else {
      TotalAbsent(after, s);
    }
  }

  lemma PositiveValue(f: Fill)
    requires f.Valid()
    ensures OrderValue(f) > 0.0
  {
    PositiveProduct(f.quantity, f.price);
  }

  lemma PositiveExposure(p: Position)
    requires p.quantity > 0.0 && p.entryPrice > 0.0
    ensures Exposure(p) > 0.0
  {
    PositiveProduct(p.quantity, p.entryPrice);
  }

  lemma SymbolExposure(b: Book, s: Symbol, f: Fill)
    requires Positive(b.positions) && f.Valid()
    ensures Positive(TrackFill(b, s, f).positions)
    ensures ExposureOf(TrackFill(b, s, f).positions, s) <= ExposureOf(b.positions, s) + OrderValue(f)
  {
    hide Exposure, OrderValue, WeightedEntry, PnlPerUnit;
    var after := TrackFill(b, s, f).positions;
    PositiveValue(f);
    if s in b.positions {
      var p := b.positions[s];
      PositiveExposure(p);
      if p.side == f.side {
        IncreasedExposure(p, f);
      } else if s in after && after[s].side == p.side {
        ReducedExposure(after[s], p);
      } else if s in after {
        FlippedExposure(after[s], f);
      }
    } else {
      FlippedExposure(after[s], f);
    }
  }

  /** Whatever a fill does, exposure grows by at most its own value. */
  lemma FillExposure(b: Book, s: Symbol, f: Fill)
    requires Positive(b.positions) && f.Valid()
    ensures Positive(TrackFill(b, s, f).positions)
    ensures TotalExposure(TrackFill(b, s, f).positions) <= TotalExposure(b.positions) + OrderValue(f)
  {
    SymbolExposure(b, s, f);
    var after := TrackFill(b, s, f).positions;
    assert after - {s} == b.positions - {s};
    TotalDifference(b.positions, after, s);
  }

  lemma {:induction false} TotalDependsOnExposures(a: map<Symbol, Position>, b: map<Symbol, Position>)
    requires a.Keys == b.Keys && (forall s :: s in a ==> Exposure(a[s]) == Exposure(b[s]))
    ensures TotalExposure(a) == TotalExposure(b)
    decreases |a|
  {
    if a == map[] {
      assert b == map[];
    } else {
      var s :| s in a;
      TotalWithout(a, s);
      TotalWithout(b, s);
      TotalDependsOnExposures(a - {s}, b - {s});
    }
  }

  // ---------------------------------------------------------------------
  // Every run
  // ---------------------------------------------------------------------

  /** The portfolio limits; an empty portfolio satisfies any exposure limit. */
  ghost predicate WithinLimits(cfg: RiskConfig, positions: map<Symbol, Position>) {
    && TotalExposure(positions) <= Max(0.0, cfg.maxTotalExposure)
    && |positions| <= cfg.maxOpenPositions
  }

  lemma FillCount(b: Book, s: Symbol, f: Fill)
    requires f.Valid()
    ensures |TrackFill(b, s, f).positions| <= |b.positions| + (if s in b.positions then 0 else 1)
  {
    var after := TrackFill(b, s, f).positions;
    if s in b.positions {
      assert after.Keys <= b.positions.Keys;
      SubsetCount(after.Keys, b.positions.Keys);
      assert |after.Keys| == |after| && |b.positions.Keys| == |b.positions|;
    } else {
      assert after.Keys == b.positions.Keys + {s};
      assert |after.Keys| == |after| && |b.positions.Keys| == |b.positions|;
    }
  }

  lemma SubsetCount<T>(a: set<T>, b: set<T>)
    requires a <= b
    ensures |a| <= |b|
  {
    assert b == a + (b - a);
  }

  lemma OrderLimits(cfg: RiskConfig, st: State, s: Symbol, f: Fill)
    requires f.Valid() && IsApproved(cfg, st, s, f)
    requires Positive(st.book.positions) && WithinLimits(cfg, st.book.positions)
    ensures var after := TrackFill(st.book, s, f).positions;
      Positive(after) && WithinLimits(cfg, after)
  {
    hide TrackFill;
    FillExposure(st.book, s, f);
    FillCount(st.book, s, f);
  }

  lemma MarkLimits(cfg: RiskConfig, b: Book, prices: map<Symbol, real>)
    requires Positive(b.positions) && WithinLimits(cfg, b.positions)
    ensures var after := TrackMark(b, prices).positions;
      Positive(after) && WithinLimits(cfg, after)
  {
    var marked := TrackMark(b, prices).positions;
    TotalDependsOnExposures(b.positions, marked);
    assert marked.Keys == b.positions.Keys;
    assert |marked.Keys| == |marked|;
  }

  lemma StepLimits(cfg: RiskConfig, st: State, e: Event)
    requires e.Order? ==> e.fill.Valid()
    requires Positive(st.book.positions) && WithinLimits(cfg, st.book.positions)
    ensures Positive(Step(cfg, st, e).book.positions) && WithinLimits(cfg, Step(cfg, st, e).book.positions)
  {
    hide IsApproved, TrackFill, TrackMark, WithinLimits;
    match e
    case Order(s, f) =>
      if IsApproved(cfg, st, s, f) {
        OrderLimits(cfg, st, s, f);
      }
    case Mark(prices) =>
      MarkLimits(cfg, st.book, prices);
    case _ =>
  }

  /** From an empty book, approved orders filled at the checked price never take the total
      exposure or the number of symbols past their limits. */
  lemma {:induction false} PortfolioLimitsHold(cfg: RiskConfig, initialEquity: real, events: seq<Event>)
    requires ValidEvents(events)
    ensures var positions := Run(cfg, initialEquity, events).book.positions;
      Positive(positions) && WithinLimits(cfg, positions)
  {
    if events == [] {
    } else {
      PortfolioLimitsHold(cfg, initialEquity, Front(events));
      StepLimits(cfg, Run(cfg, initialEquity, Front(events)), Last(events));
    }
  }

  // ---------------------------------------------------------------------
  // The size limit, which opposite-side orders are not checked against
  // ---------------------------------------------------------------------

  ghost predicate SizesWithin(cfg: RiskConfig, positions: map<Symbol, Position>) {
    forall s :: s in positions ==> positions[s].quantity <= cfg.maxPositionSize
  }

  /** An approved order that exceeds an opposite position by more than the maximum. */
  ghost predicate OversizedFlip(cfg: RiskConfig, st: State, e: Event) {
    && e.Order?
    && IsApproved(cfg, st, e.symbol, e.fill)
    && e.symbol in st.book.positions
    && st.book.positions[e.symbol].side != e.fill.side
    && e.fill.quantity > st.book.positions[e.symbol].quantity + cfg.maxPositionSize
  }

  lemma StepSizes(cfg: RiskConfig, st: State, e: Event)
    requires e.Order? ==> e.fill.Valid()
    requires Positive(st.book.positions) && SizesWithin(cfg, st.book.positions)
    ensures SizesWithin(cfg, Step(cfg, st, e).book.positions) <==> !OversizedFlip(cfg, st, e)
  {
    if e.Order? && IsApproved(cfg, st, e.symbol, e.fill) {
      var before, after := st.book.positions, Step(cfg, st, e).book.positions;
      assert forall s :: s != e.symbol ==> (s in after <==> s in before) && (s in before ==> after[s] == before[s]);
      if e.symbol in before && before[e.symbol].side != e.fill.side {
        assert e.symbol in after ==>
          after[e.symbol].quantity == Abs(before[e.symbol].quantity - e.fill.quantity);
        assert before[e.symbol].quantity <= cfg.maxPositionSize;
      }
    }
  }

  ghost predicate AlwaysWithinSizes(cfg: RiskConfig, initialEquity: real, events: seq<Event>)
    requires ValidEvents(events)
  {
    && SizesWithin(cfg, Run(cfg, initialEquity, events).book.positions)
    && (events != [] ==> AlwaysWithinSizes(cfg, initialEquity, Front(events)))
  }

  ghost predicate NeverOversized(cfg: RiskConfig, initialEquity: real, events: seq<Event>)
    requires ValidEvents(events)
  {
    events != [] ==>
      && !OversizedFlip(cfg, Run(cfg, initialEquity, Front(events)), Last(events))
      && NeverOversized(cfg, initialEquity, Front(events))
  }

  /** Every position stays within the size limit all along a run if and only if no order
      of the run is an oversized flip. */
  lemma {:induction false} SizeLimitIffNoOversizedFlip(cfg: RiskConfig, initialEquity: real, events: seq<Event>)
    requires ValidEvents(events)
    ensures AlwaysWithinSizes(cfg, initialEquity, events) <==> NeverOversized(cfg, initialEquity, events)
  {
    if events != [] {
      SizeLimitIffNoOversizedFlip(cfg, initialEquity, Front(events));
      PortfolioLimitsHold(cfg, initialEquity, Front(events));
      var st := Run(cfg, initialEquity, Front(events));
      if SizesWithin(cfg, st.book.positions) {
        StepSizes(cfg, st, Last(events));
      }
    }
  }

  /** The limit can be passed: long 10 at the maximum of 10, an approved sale of 25 leaves
      the book short 15. */
  lemma OversizedFlipExample(cfg: RiskConfig)
    requires cfg == RiskConfig(10.0, 1000000.0, 0.1, 5)
    ensures var events := [Order([], Fill(Buy, 10.0, 100.0, 0)), Order([], Fill(Sell, 25.0, 100.0, 1))];
      var positions := Run(cfg, 10000.0, events).book.positions;
      [] in positions && positions[[]].quantity == 15.0 && !SizesWithin(cfg, positions)
  {
    var e0, e1 := Order([], Fill(Buy, 10.0, 100.0, 0)), Order([], Fill(Sell, 25.0, 100.0, 1));
    var s0 := Run(cfg, 10000.0, []);
    var s1 := Run(cfg, 10000.0, [e0]);
    assert Front([e0]) == [] && Front([e0, e1]) == [e0];
    assert TotalExposure(map[]) == 0.0;
    assert s1.book.positions == map[[] := Position([], Buy, 100.0, 10.0, 0.0, 0.0, 1, 0)];
    TotalWithout(s1.book.positions, []);
    assert s1.book.positions - {[]} == map[];
    assert TotalExposure(s1.book.positions) == 1000.0;
    assert IsApproved(cfg, s1, [], e1.fill);
  }
}
