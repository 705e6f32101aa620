/** From signals to drained events: over every run, what the events of a symbol report is
    what its executed orders earned. */
module ControllerCash {
  import opened Domain
  import opened Gate
  import opened CoreEngine
  import opened CashFlow
  import opened Controllers
  import opened ControllerRuns

  /** Orders are for positive quantities. */
  predicate PositiveOrder(call: Call) {
    call.Signal? ==> call.fill.quantity > 0.0
  }

  predicate PositiveOrders(calls: seq<Call>) {
    forall k :: 0 <= k < |calls| ==> PositiveOrder(calls[k])
  }

  /** The fills of a symbol's executed signals. */
  function FillsOf(params: EngineParams, calls: seq<Call>, symbol: Symbol): seq<Fill>
  {
    if calls == [] then []
    else FillsOf(params, Front(calls), symbol) + FilledBy(Play(params, Front(calls)).view, Last(calls), symbol)
  }

  function FilledBy(v: View, call: Call, symbol: Symbol): seq<Fill>
  {
    if Executed(v, call).Some? && call.symbol == symbol then [call.fill] else []
  }

  /** The same holding; only the last mark may differ. */
  predicate SameHolding(p: Position, q: Position) {
    p.side == q.side && p.entryPrice == q.entryPrice && p.quantity == q.quantity && p.realizedPnl == q.realizedPnl
  }

  lemma {:induction false} MarksKeepHoldings(v: View, prices: seq<(Symbol, real)>)
    ensures |MarkAll(v, prices).cores| == |v.cores|
    ensures forall j :: 0 <= j < |v.cores| ==>
      SameHolding(MarkAll(v, prices).cores[j].position, v.cores[j].position)
  {
    hide IndexOf;
    if prices != [] {
      MarksKeepHoldings(v, Front(prices));
    }
  }

  lemma QuietHolding(v: View, call: Call, j: nat)
    requires j < |v.cores| && Executed(v, call).None?
    ensures j < |Do(v, call).cores| && SameHolding(Do(v, call).cores[j].position, v.cores[j].position)
  {
    hide IndexOf, SignalGate, ApplyFill;
    if call.MarkToMarketAll? {
      MarksKeepHoldings(v, call.prices);
    }
  }

  lemma FilledCore(v: View, call: Call)
    requires Executed(v, call).Some?
    ensures var i := Executed(v, call).value.0;
      Do(v, call).cores[i].position == ApplyFill(v.cores[i].position, call.fill).0
  {
    hide ApplyFill, SignalGate;
  }

  ghost predicate CashAgrees(p: Position, fills: seq<Fill>, m: real) {
    Normal(p) && p.Signed() == NetQuantity(fills) && BookValue(p, m) == CashValue(fills, m)
  }

  lemma {:induction false} CashAfterFill(p: Position, f: Fill, fills: seq<Fill>, m: real)
    requires f.quantity > 0.0 && CashAgrees(p, fills, m)
    ensures CashAgrees(ApplyFill(p, f).0, fills + [f], m)
  {
    hide ApplyFill;
    ExactFillMovesBook(p, f, m);
    assert Front(fills + [f]) == fills;
  }

  lemma CashOfSameHolding(p: Position, q: Position, fills: seq<Fill>, m: real)
    requires CashAgrees(p, fills, m) && SameHolding(q, p)
    ensures CashAgrees(q, fills, m)
  {
  }

  lemma CashStep(v: View, call: Call, j: nat, fills: seq<Fill>, m: real)
    requires PositiveOrder(call) && j < |v.cores| && DistinctSymbols(v.cores)
    requires CashAgrees(v.cores[j].position, fills, m)
    ensures j < |Do(v, call).cores| && Do(v, call).cores[j].symbol == v.cores[j].symbol
    ensures CashAgrees(Do(v, call).cores[j].position, fills + FilledBy(v, call, v.cores[j].symbol), m)
  {
    hide CashAgrees, Do, Executed;
    SymbolStays(v, call, j);
    if Executed(v, call).Some? {
      var i := Executed(v, call).value.0;
      ExecutedSymbol(v, call);
      ExecutedCore(v, call);
      if i == j {
        FilledCore(v, call);
        CashAfterFill(v.cores[j].position, call.fill, fills, m);
      } else {
        assert v.cores[i].symbol != v.cores[j].symbol;
        assert fills + [] == fills;
      }
    } else {
      QuietHolding(v, call, j);
      CashOfSameHolding(v.cores[j].position, Do(v, call).cores[j].position, fills, m);
      assert fills + [] == fills;
    }
  }

  lemma SymbolStays(v: View, call: Call, j: nat)
    requires j < |v.cores|
    ensures j < |Do(v, call).cores| && Do(v, call).cores[j].symbol == v.cores[j].symbol
  {
    if Executed(v, call).Some? {
      ExecutedCore(v, call);
    } else if !call.Drain? && !call.AddCore? {
      QuietCallsAreQuiet(v, call);
    }
  }

  lemma {:induction false} UnregisteredUnfilled(params: EngineParams, calls: seq<Call>, symbol: Symbol)
    requires !Registered(Play(params, calls).view.cores, symbol)
    ensures FillsOf(params, calls, symbol) == []
  {
    hide Do, Account;
    if calls != [] {
      var v, call := Play(params, Front(calls)).view, Last(calls);
      PlayStep(params, calls);
      if Registered(v.cores, symbol) {
        RegisteredStays(v, call, symbol);
      }
      UnregisteredUnfilled(params, Front(calls), symbol);
      ExecutedIsRegistered(v, call, symbol);
    }
  }

  /** For every mark price, a core's realized profit and marked holding are what all its
      executed orders earned, whatever was ticked, published or drained in between. */
  lemma {:induction false} CoreCashIsConserved(params: EngineParams, calls: seq<Call>, j: nat, m: real)
    requires PositiveOrders(calls) && j < |Play(params, calls).view.cores|
    ensures var c := Play(params, calls).view.cores[j];
      CashAgrees(c.position, FillsOf(params, calls, c.symbol), m)
  {
    hide Do, Account, Executed, CashAgrees, Inv;
    if calls != [] {
      var before, call := Front(calls), Last(calls);
      var v := Play(params, before).view;
      PlayStep(params, calls);
      RunInv(params, before);
      CoresAreDistinct(Play(params, before));
      CoresGrow(v, call);
      if j < |v.cores| {
        CoreCashIsConserved(params, before, j, m);
        CashStep(v, call, j, FillsOf(params, before, v.cores[j].symbol), m);
      } else {
        UnregisteredUnfilled(params, before, call.symbol);
        assert FillsOf(params, calls, call.symbol) == [];
        EmptyCash(call.symbol, m);
      }
    }
  }

  lemma EmptyCash(symbol: Symbol, m: real)
    ensures CashAgrees(Empty(symbol), [], m)
  {
  }

  /** Once drained and flat, with no ring overrun, the profit reported by a symbol's events
      is exactly what its executed orders took in less what they paid. */
  lemma {:induction false} DrainedIsEarned(params: EngineParams, calls: seq<Call>, j: nat)
    requires PositiveOrders(calls) && calls != [] && Last(calls).Drain? && WithinCapacity(params, calls)
    requires j < |Play(params, calls).view.cores| && !Play(params, calls).view.cores[j].position.IsOpen()
    ensures var l := Play(params, calls); var symbol := l.view.cores[j].symbol;
      var fills := FillsOf(params, calls, symbol);
      Pnl(Of(l.drained, symbol)) == CashValue(fills, 0.0) && NetQuantity(fills) == 0.0
  {
    hide Play, WithinCapacity;
    DrainedIsRealized(params, calls, j);
    CoreCashIsConserved(params, calls, j, 0.0);
  }
}
