/** Every run of a controller's calls: what happens to the events its cores emit into lossy
    rings, and which parameters gate a signal (crates/ssm-engine/src/controller.rs,
    crates/ssm-engine/src/core.rs). */
module ControllerRuns {
  import opened Domain
  import opened Gate
  import opened Spsc
  import opened CoreEngine
  import opened Controllers

  datatype Call =
    | AddCore(symbol: Symbol)
    | UpdateParams(params: EngineParams)
    | SetCircuitBreaker(active: bool)
    | SetPermissions(permissions: nat)
    | Tick(symbol: Symbol, price: real)
    | Signal(symbol: Symbol, fill: Fill)
    | Drain
    | MarkToMarketAll(prices: seq<(Symbol, real)>)
  {
    predicate Publishes() { UpdateParams? || SetCircuitBreaker? || SetPermissions? }
  }

  /** The view after a call, the contract of each controller method. */
  function Do(v: View, call: Call): View
  {
    match call
    case AddCore(symbol) => AddCoreTo(v, symbol).1
    case UpdateParams(params) => Publish(v, params)
    case SetCircuitBreaker(active) => Publish(v, v.current.(circuitBreaker := active))
    case SetPermissions(permissions) => Publish(v, v.current.(permissions := permissions))
    case Tick(symbol, price) => TickOn(v, symbol, price)
    case Signal(symbol, fill) => SignalOn(v, symbol, fill).1
    case Drain => v.(cores := Emptied(v.cores))
    case MarkToMarketAll(prices) => MarkAll(v, prices)
  }

  /** The core and the event of a signal that is executed. */
  function Executed(v: View, call: Call): (r: Option<(nat, TradeEvent)>)
    ensures r.Some? ==> call.Signal? && r.value.0 < |v.cores| && v.cores[r.value.0].symbol == call.symbol
  {
    if !call.Signal? then None
    else
      match IndexOf(v.cores, call.symbol)
      case None => None
      case Some(i) =>
        var c := v.cores[i];
        if SignalGate(c.position, c.cached, call.fill.side) == Blocked then None
        else Some((i, ApplyFill(c.position, call.fill).1))
  }

  /** The view with the history of events: taken out of the rings by draining, put into
      them, and lost on a full ring. */
  datatype Ledger = Ledger(
    view: View, drained: seq<TradeEvent>, enqueued: seq<TradeEvent>, dropped: seq<TradeEvent>)

  function Record(l: Ledger, event: TradeEvent, full: bool): Ledger {
    if full then l.(dropped := l.dropped + [event]) else l.(enqueued := l.enqueued + [event])
  }

  function Account(l: Ledger, call: Call): Ledger
  {
    var v := Do(l.view, call);
    match Executed(l.view, call)
    case Some((i, event)) =>
      Record(l, event, |l.view.cores[i].queue| >= RING_CAPACITY).(view := v)
    case None =>
      if call.Drain? then l.(view := v, drained := l.drained + Queued(l.view.cores))
      else l.(view := v)
  }

  function Play(params: EngineParams, calls: seq<Call>): Ledger
  {
    if calls == [] then Ledger(View([], 0, params, params), [], [], [])
    else Account(Play(params, Front(calls)), Last(calls))
  }

  // ---------------------------------------------------------------------
  // Events of one symbol
  // ---------------------------------------------------------------------

  function Of(events: seq<TradeEvent>, symbol: Symbol): seq<TradeEvent> {
    if events == [] then []
    else Of(Front(events), symbol) + (if Last(events).symbol == symbol then [Last(events)] else [])
  }

  function Pnl(events: seq<TradeEvent>): real {
    if events == [] then 0.0 else Pnl(Front(events)) + Last(events).realizedPnl
  }

  ghost predicate AllOf(events: seq<TradeEvent>, symbol: Symbol) {
    forall k :: 0 <= k < |events| ==> events[k].symbol == symbol
  }

  ghost predicate NoneOf(events: seq<TradeEvent>, symbol: Symbol) {
    forall k :: 0 <= k < |events| ==> events[k].symbol != symbol
  }

  lemma {:induction false} OfAppend(events: seq<TradeEvent>, e: TradeEvent, symbol: Symbol)
    ensures Of(events + [e], symbol) ==
      if e.symbol == symbol then Of(events, symbol) + [e] else Of(events, symbol)
    ensures Pnl(events + [e]) == Pnl(events) + e.realizedPnl
  {
    assert Front(events + [e]) == events;
  }

  lemma {:induction false} OfConcat(a: seq<TradeEvent>, b: seq<TradeEvent>, symbol: Symbol)
    ensures Of(a + b, symbol) == Of(a, symbol) + Of(b, symbol)
  {
    if b == [] {
      assert a + b == a;
    } else {
      OfConcat(a, Front(b), symbol);
      assert Front(a + b) == a + Front(b);
    }
  }

  lemma {:induction false} PnlConcat(a: seq<TradeEvent>, b: seq<TradeEvent>)
    ensures Pnl(a + b) == Pnl(a) + Pnl(b)
  {
    if b == [] {
      assert a + b == a;
    } else {
      PnlConcat(a, Front(b));
      assert Front(a + b) == a + Front(b);
    }
  }

  lemma {:induction false} OfUniform(events: seq<TradeEvent>, symbol: Symbol)
    ensures AllOf(events, symbol) ==> Of(events, symbol) == events
    ensures NoneOf(events, symbol) ==> Of(events, symbol) == []
  {
    if events != [] {
      OfUniform(Front(events), symbol);
      assert events == Front(events) + [Last(events)];
    }
  }

  // ---------------------------------------------------------------------
  // The invariant
  // ---------------------------------------------------------------------

  /** What one core owes the ledger. */
  ghost predicate Accounted(l: Ledger, c: CoreView) {
    && c.position.symbol == c.symbol && AllOf(c.queue, c.symbol) && |c.queue| <= RING_CAPACITY
    && Of(l.enqueued, c.symbol) == Of(l.drained, c.symbol) + c.queue
    && c.position.realizedPnl ==
         Pnl(Of(l.drained, c.symbol)) + Pnl(c.queue) + Pnl(Of(l.dropped, c.symbol))
  }

  ghost predicate Registered(cores: seq<CoreView>, symbol: Symbol) {
    exists k :: 0 <= k < |cores| && cores[k].symbol == symbol
  }

  ghost predicate FromCores(events: seq<TradeEvent>, cores: seq<CoreView>) {
    forall k :: 0 <= k < |events| ==> Registered(cores, events[k].symbol)
  }

  ghost predicate DistinctSymbols(cores: seq<CoreView>) {
    forall i, j :: 0 <= i < j < |cores| ==> cores[i].symbol != cores[j].symbol
  }

  ghost predicate Inv(l: Ledger) {
    && DistinctSymbols(l.view.cores)
    && FromCores(l.drained, l.view.cores) && FromCores(l.enqueued, l.view.cores) && FromCores(l.dropped, l.view.cores)
    && forall i :: 0 <= i < |l.view.cores| ==> Accounted(l, l.view.cores[i])
  }

  /** A call that leaves every core's symbol, queue and realized profit alone. */
  ghost predicate SameAccounts(a: seq<CoreView>, b: seq<CoreView>) {
    && |a| == |b|
    && forall i :: 0 <= i < |a| ==>
         && a[i].symbol == b[i].symbol && a[i].queue == b[i].queue
         && a[i].position.symbol == b[i].position.symbol
         && a[i].position.realizedPnl == b[i].position.realizedPnl
  }

  lemma FromCoresAfter(events: seq<TradeEvent>, a: seq<CoreView>, b: seq<CoreView>)
    requires FromCores(events, a)
    requires |a| <= |b| && forall i :: 0 <= i < |a| ==> a[i].symbol == b[i].symbol
    ensures FromCores(events, b)
  {
    forall k | 0 <= k < |events|
      ensures Registered(b, events[k].symbol)
    {
      var i :| 0 <= i < |a| && a[i].symbol == events[k].symbol;
      assert b[i].symbol == events[k].symbol;
    }
  }

  lemma QuietCall(l: Ledger, v: View)
    requires Inv(l) && SameAccounts(l.view.cores, v.cores)
    ensures Inv(l.(view := v))
  {
    hide Of, Pnl, FromCores;
    FromCoresAfter(l.drained, l.view.cores, v.cores);
    FromCoresAfter(l.enqueued, l.view.cores, v.cores);
    FromCoresAfter(l.dropped, l.view.cores, v.cores);
  }

  lemma {:induction false} MarksAreQuiet(v: View, prices: seq<(Symbol, real)>)
    ensures SameAccounts(v.cores, MarkAll(v, prices).cores)
  {
    hide IndexOf;
    if prices != [] {
      MarksAreQuiet(v, Front(prices));
    }
  }

  lemma UnregisteredHasNoEvents(events: seq<TradeEvent>, cores: seq<CoreView>, symbol: Symbol)
    requires FromCores(events, cores) && !Registered(cores, symbol)
    ensures Of(events, symbol) == []
  {
    OfUniform(events, symbol);
  }

  lemma AddKeepsInv(l: Ledger, symbol: Symbol)
    requires Inv(l)
    ensures Inv(l.(view := AddCoreTo(l.view, symbol).1))
  {
    hide Of;
    var v := AddCoreTo(l.view, symbol).1;
    if v != l.view {
      FromCoresAfter(l.drained, l.view.cores, v.cores);
      FromCoresAfter(l.enqueued, l.view.cores, v.cores);
      FromCoresAfter(l.dropped, l.view.cores, v.cores);
      UnregisteredHasNoEvents(l.drained, l.view.cores, symbol);
      UnregisteredHasNoEvents(l.enqueued, l.view.cores, symbol);
      UnregisteredHasNoEvents(l.dropped, l.view.cores, symbol);
      assert Accounted(l.(view := v), NewCore(symbol, l.view.current));
    }
  }

  ghost predicate OwnQueues(cores: seq<CoreView>) {
    forall i :: 0 <= i < |cores| ==> AllOf(cores[i].queue, cores[i].symbol)
  }

  lemma {:induction false} QueuedOfOther(cores: seq<CoreView>, symbol: Symbol)
    requires OwnQueues(cores) && forall k :: 0 <= k < |cores| ==> cores[k].symbol != symbol
    ensures Of(Queued(cores), symbol) == []
  {
    hide Of;
    if cores == [] {
      OfUniform([], symbol);
    } else {
      var c := cores[|cores| - 1];
      QueuedOfOther(Front(cores), symbol);
      OfConcat(Queued(Front(cores)), c.queue, symbol);
      assert NoneOf(c.queue, symbol);
      OfUniform(c.queue, symbol);
    }
  }

  /** Draining takes from the queues, for each symbol, exactly its core's queue. */
  lemma {:induction false} QueuedOf(cores: seq<CoreView>, i: nat)
    requires DistinctSymbols(cores) && OwnQueues(cores) && i < |cores|
    ensures Of(Queued(cores), cores[i].symbol) == cores[i].queue
  {
    hide Of;
    var before, c, symbol := Front(cores), cores[|cores| - 1], cores[i].symbol;
    OfConcat(Queued(before), c.queue, symbol);
    OfUniform(c.queue, symbol);
    if i == |cores| - 1 {
      QueuedOfOther(before, symbol);
    } else {
      QueuedOf(before, i);
      assert NoneOf(c.queue, symbol);
    }
  }

  lemma {:induction false} QueuedIsFromCores(cores: seq<CoreView>)
    requires OwnQueues(cores)
    ensures FromCores(Queued(cores), cores)
  {
    if cores != [] {
      QueuedIsFromCores(Front(cores));
      FromCoresAfter(Queued(Front(cores)), Front(cores), cores);
      assert Last(cores) == cores[|cores| - 1];
    }
  }

  lemma QueuesAreOwn(l: Ledger)
    requires Inv(l)
    ensures OwnQueues(l.view.cores)
  {
  }

  lemma DrainKeepsAccount(l: Ledger, i: nat)
    requires Inv(l) && i < |l.view.cores|
    ensures var l' := Account(l, Drain);
      i < |l'.view.cores| && Accounted(l', l'.view.cores[i])
  {
    hide Of, Pnl, Queued;
    var c := l.view.cores[i];
    QueuesAreOwn(l);
    QueuedOf(l.view.cores, i);
    OfConcat(l.drained, Queued(l.view.cores), c.symbol);
    PnlConcat(Of(l.drained, c.symbol), c.queue);
    EmptyPnl();
  }

  lemma EmptyPnl()
    ensures Pnl([]) == 0.0
  {
  }

  lemma DrainKeepsInv(l: Ledger)
    requires Inv(l)
    ensures Inv(Account(l, Drain))
  {
    hide Of, Pnl, Queued, Accounted;
    var l' := Account(l, Drain);
    forall i | 0 <= i < |l.view.cores|
      ensures Accounted(l', l'.view.cores[i])
    {
      DrainKeepsAccount(l, i);
    }
    QueuesAreOwn(l);
    QueuedIsFromCores(l.view.cores);
    FromCoresAfter(l.drained + Queued(l.view.cores), l.view.cores, l'.view.cores);
    FromCoresAfter(l.enqueued, l.view.cores, l'.view.cores);
    FromCoresAfter(l.dropped, l.view.cores, l'.view.cores);
  }

  /** The event of a fill carries the profit that the fill realizes. */
  lemma FillBooksItsEvent(p: Position, f: Fill)
    ensures var (p', event) := ApplyFill(p, f);
      && event.symbol == p.symbol == p'.symbol
      && p'.realizedPnl == p.realizedPnl + event.realizedPnl
  {
  }

  /** What an executed signal does to its core and to the histories. */
  lemma ExecutedCore(v: View, call: Call)
    requires Executed(v, call).Some?
    ensures var (i, event) := Executed(v, call).value;
      && Do(v, call) == v.(cores := v.cores[i := Do(v, call).cores[i]])
      && var c, c' := v.cores[i], Do(v, call).cores[i];
         && c'.symbol == c.symbol && c'.position.symbol == c.position.symbol == event.symbol
         && c'.queue == Offer(RING_CAPACITY, c.queue, event).1
         && c'.position.realizedPnl == c.position.realizedPnl + event.realizedPnl
         && c'.cached == c.cached && c'.lastSeq == c.lastSeq
  {
    hide ApplyFill, SignalGate;
    var i := Executed(v, call).value.0;
    FillBooksItsEvent(v.cores[i].position, call.fill);
  }

  lemma {:induction false} OwnEventAccounted(l: Ledger, c: CoreView, c': CoreView, event: TradeEvent)
    requires Accounted(l, c) && c'.symbol == c'.position.symbol == c.symbol == event.symbol
    requires c'.queue == Offer(RING_CAPACITY, c.queue, event).1
    requires c'.position.realizedPnl == c.position.realizedPnl + event.realizedPnl
    ensures Accounted(Record(l, event, |c.queue| >= RING_CAPACITY), c')
  {
    if |c.queue| >= RING_CAPACITY {
      OfAppend(l.dropped, event, c.symbol);
      OfAppend(Of(l.dropped, c.symbol), event, c.symbol);
    } else {
      OfAppend(l.enqueued, event, c.symbol);
      OfAppend(c.queue, event, c.symbol);
      assert Of(l.drained, c.symbol) + c.queue + [event] == Of(l.drained, c.symbol) + (c.queue + [event]);
    }
  }

  lemma {:induction false} OtherEventAccounted(l: Ledger, c: CoreView, event: TradeEvent, full: bool)
    requires Accounted(l, c) && c.symbol != event.symbol
    ensures Accounted(Record(l, event, full), c)
  {
    OfAppend(l.dropped, event, c.symbol);
    OfAppend(l.enqueued, event, c.symbol);
  }

  lemma ExecutedAccount(l: Ledger, call: Call, k: nat)
    requires Inv(l) && Executed(l.view, call).Some? && k < |l.view.cores|
    ensures var l' := Account(l, call);
      |l'.view.cores| == |l.view.cores| && l'.view.cores[k].symbol == l.view.cores[k].symbol
      && Accounted(l', l'.view.cores[k])
  {
    hide Do, Executed, Record;
    var (i, event) := Executed(l.view, call).value;
    var c, v := l.view.cores[i], Do(l.view, call);
    ExecutedCore(l.view, call);
    assert Accounted(l, c) && Accounted(l, l.view.cores[k]);
    var recorded := Record(l, event, |c.queue| >= RING_CAPACITY);
    if i == k {
      OwnEventAccounted(l, c, v.cores[i], event);
    } else {
      OtherEventAccounted(l, l.view.cores[k], event, |c.queue| >= RING_CAPACITY);
    }
    assert Accounted(recorded, v.cores[k]);
    ViewIsNotAccount(recorded, v, v.cores[k]);
  }

  lemma ViewIsNotAccount(l: Ledger, v: View, c: CoreView)
    requires Accounted(l, c)
    ensures Accounted(l.(view := v), c)
  {
    hide Of, Pnl;
  }

  lemma ExecutedKeepsInv(l: Ledger, call: Call)
    requires Inv(l) && Executed(l.view, call).Some?
    ensures Inv(Account(l, call))
  {
    hide Of, Pnl, Do, Executed, Accounted;
    var l' := Account(l, call);
    var (i, event) := Executed(l.view, call).value;
    ExecutedAccount(l, call, i);
    ExecutedCore(l.view, call);
    forall k | 0 <= k < |l.view.cores|
      ensures l'.view.cores[k].symbol == l.view.cores[k].symbol && Accounted(l', l'.view.cores[k])
    {
      ExecutedAccount(l, call, k);
    }
    EventIsFromCore(l, call);
    FromCoresAfter(l'.drained, l.view.cores, l'.view.cores);
    FromCoresAfter(l'.enqueued, l.view.cores, l'.view.cores);
    FromCoresAfter(l'.dropped, l.view.cores, l'.view.cores);
  }

  lemma EventIsFromCore(l: Ledger, call: Call)
    requires Inv(l) && Executed(l.view, call).Some?
    ensures var l' := Account(l, call);
      FromCores(l'.drained, l.view.cores) && FromCores(l'.enqueued, l.view.cores) && FromCores(l'.dropped, l.view.cores)
  {
    hide Of, Pnl, Do, Executed;
    var (i, event) := Executed(l.view, call).value;
    ExecutedCore(l.view, call);
    assert Accounted(l, l.view.cores[i]);
    assert Registered(l.view.cores, event.symbol);
  }

  lemma BlockedSignalDoesNothing(v: View, call: Call)
    requires call.Signal? && Executed(v, call).None?
    ensures SameAccounts(v.cores, Do(v, call).cores)
  {
    hide ApplyFill, SignalGate;
  }

  lemma QuietCallsAreQuiet(v: View, call: Call)
    requires !call.Drain? && !call.AddCore? && Executed(v, call).None?
    ensures SameAccounts(v.cores, Do(v, call).cores)
  {
    hide IndexOf, SignalGate, ApplyFill;
    match call
    case Signal(_, _) => BlockedSignalDoesNothing(v, call);
    case MarkToMarketAll(prices) => MarksAreQuiet(v, prices);
    case _ =>
  }

  lemma StepInv(l: Ledger, call: Call)
    requires Inv(l)
    ensures Inv(Account(l, call))
  {
    if Executed(l.view, call).Some? {
      ExecutedKeepsInv(l, call);
    } else if call.Drain? {
      DrainKeepsInv(l);
    } else if call.AddCore? {
      AddKeepsInv(l, call.symbol);
    } else {
      hide Inv, Executed, SameAccounts, Do;
      QuietCallsAreQuiet(l.view, call);
      QuietCall(l, Do(l.view, call));
    }
  }

  lemma {:induction false} RunInv(params: EngineParams, calls: seq<Call>)
    ensures Inv(Play(params, calls))
  {
    hide Account;
    if calls != [] {
      RunInv(params, Front(calls));
      StepInv(Play(params, Front(calls)), Last(calls));
    }
  }

  // ---------------------------------------------------------------------
  // Event conservation
  // ---------------------------------------------------------------------

  /** Core by core: what was drained and what is queued is, in order, what entered the
      ring; and the profit of drained, queued and lost events is the realized profit. */
  lemma EventsAreConserved(params: EngineParams, calls: seq<Call>, i: nat)
    requires i < |Play(params, calls).view.cores|
    ensures var l := Play(params, calls); var c := l.view.cores[i];
      && Of(l.enqueued, c.symbol) == Of(l.drained, c.symbol) + c.queue
      && Pnl(Of(l.drained, c.symbol)) + Pnl(c.queue) + Pnl(Of(l.dropped, c.symbol)) == c.position.realizedPnl
      && |c.queue| <= RING_CAPACITY
  {
    hide Play, Of, Pnl;
    RunInv(params, calls);
    assert Accounted(Play(params, calls), Play(params, calls).view.cores[i]);
  }

  function TotalRealized(cores: seq<CoreView>): real {
    if cores == [] then 0.0 else TotalRealized(Front(cores)) + Last(cores).position.realizedPnl
  }

  /** The profit of the events of each core's symbol, added up over the cores. */
  function PnlByCore(cores: seq<CoreView>, events: seq<TradeEvent>): real {
    if cores == [] then 0.0 else PnlByCore(Front(cores), events) + Pnl(Of(events, Last(cores).symbol))
  }

  lemma {:induction false} ByCoreAppend(cores: seq<CoreView>, events: seq<TradeEvent>, e: TradeEvent)
    requires DistinctSymbols(cores)
    ensures PnlByCore(cores, events + [e]) ==
      PnlByCore(cores, events) + (if Registered(cores, e.symbol) then e.realizedPnl else 0.0)
  {
    if cores != [] {
      var before, c := Front(cores), cores[|cores| - 1];
      ByCoreAppend(before, events, e);
      OfAppend(events, e, c.symbol);
      OfAppend(Of(events, c.symbol), e, c.symbol);
      RegisteredLast(cores, e.symbol);
    }
  }

  lemma RegisteredLast(cores: seq<CoreView>, symbol: Symbol)
    requires cores != [] && DistinctSymbols(cores)
    ensures Registered(cores, symbol) <==> Registered(Front(cores), symbol) || Last(cores).symbol == symbol
    ensures Last(cores).symbol == symbol ==> !Registered(Front(cores), symbol)
  {
    var before, c := Front(cores), cores[|cores| - 1];
    if Registered(before, symbol) {
      var k :| 0 <= k < |before| && before[k].symbol == symbol;
      assert before[k].symbol == cores[k].symbol != c.symbol;
    }
    if Registered(cores, symbol) {
      var k :| 0 <= k < |cores| && cores[k].symbol == symbol;
      assert k < |before| ==> before[k].symbol == symbol;
    }
    assert c.symbol == symbol ==> Registered(cores, symbol);
  }

  lemma {:induction false} NothingByCore(cores: seq<CoreView>)
    ensures PnlByCore(cores, []) == 0.0
  {
    if cores != [] {
      NothingByCore(Front(cores));
    }
  }

  /** Events of registered symbols belong to exactly one core each. */
  lemma {:induction false} SplitByCore(cores: seq<CoreView>, events: seq<TradeEvent>)
    requires DistinctSymbols(cores) && FromCores(events, cores)
    ensures PnlByCore(cores, events) == Pnl(events)
  {
    if events == [] {
      NothingByCore(cores);
    } else {
      var before, e := Front(events), events[|events| - 1];
      assert events == before + [e];
      assert forall k :: 0 <= k < |before| ==> before[k].symbol == events[k].symbol;
      SplitByCore(cores, before);
      ByCoreAppend(cores, before, e);
    }
  }

  lemma {:induction false} TotalsAgree(l: Ledger, cores: seq<CoreView>)
    requires forall i :: 0 <= i < |cores| ==> Accounted(l, cores[i])
    ensures TotalRealized(cores) == PnlByCore(cores, l.drained) + Pnl(Queued(cores)) + PnlByCore(cores, l.dropped)
  {
    if cores != [] {
      TotalsAgree(l, Front(cores));
      assert Accounted(l, cores[|cores| - 1]);
      PnlConcat(Queued(Front(cores)), Last(cores).queue);
    }
  }

  /** Over all cores: drained, queued and lost profit add up to the realized profit. */
  lemma {:induction false} ControllerConserves(params: EngineParams, calls: seq<Call>)
    ensures var l := Play(params, calls);
      Pnl(l.drained) + Pnl(Queued(l.view.cores)) + Pnl(l.dropped) == TotalRealized(l.view.cores)
  {
    hide Play, Accounted;
    RunInv(params, calls);
    var l := Play(params, calls);
    TotalsAgree(l, l.view.cores);
    SplitByCore(l.view.cores, l.drained);
    SplitByCore(l.view.cores, l.dropped);
  }

  lemma {:induction false} QueuedEmptied(cores: seq<CoreView>)
    ensures Queued(Emptied(cores)) == []
  {
    if cores != [] {
      QueuedEmptied(Front(cores));
      assert Front(Emptied(cores)) == Emptied(Front(cores));
    }
  }

  /** Right after a drain nothing is queued, so the drained profit falls short of the
      realized profit by exactly what a full ring lost. */
  lemma {:induction false} DrainCollectsAll(params: EngineParams, calls: seq<Call>)
    requires calls != [] && Last(calls).Drain?
    ensures var l := Play(params, calls);
      && Queued(l.view.cores) == []
      && Pnl(l.drained) + Pnl(l.dropped) == TotalRealized(l.view.cores)
      && l.drained == Play(params, Front(calls)).drained + Queued(Play(params, Front(calls)).view.cores)
  {
    ControllerConserves(params, calls);
    QueuedEmptied(Play(params, Front(calls)).view.cores);
  }

  // ---------------------------------------------------------------------
  // When nothing is lost
  // ---------------------------------------------------------------------

  function Counted(v: View, call: Call, symbol: Symbol, n: nat): nat
  {
    if call.Drain? then 0
    else if Executed(v, call).Some? && call.symbol == symbol then n + 1 else n
  }

  /** Signals of a symbol executed since the last drain. */
  function SinceDrain(params: EngineParams, calls: seq<Call>, symbol: Symbol): nat
  {
    if calls == [] then 0
    else Counted(Play(params, Front(calls)).view, Last(calls), symbol, SinceDrain(params, Front(calls), symbol))
  }

  function Capped(n: nat): nat {
    if n < RING_CAPACITY then n else RING_CAPACITY
  }

  lemma CoresGrow(v: View, call: Call)
    ensures |Do(v, call).cores| == |v.cores| ||
      (call.AddCore? && !Registered(v.cores, call.symbol) && Executed(v, call).None?
       && Do(v, call).cores == v.cores + [NewCore(call.symbol, v.current)])
  {
    hide SignalCore, TickCore;
    if call.MarkToMarketAll? {
      MarksAreQuiet(v, call.prices);
    }
  }

  lemma QueueStep(v: View, call: Call, j: nat, n: nat)
    requires j < |v.cores| && DistinctSymbols(v.cores)
    requires |v.cores[j].queue| == Capped(n)
    ensures j < |Do(v, call).cores| && Do(v, call).cores[j].symbol == v.cores[j].symbol
    ensures |Do(v, call).cores[j].queue| == Capped(Counted(v, call, v.cores[j].symbol, n))
  {
    if Executed(v, call).Some? {
      ExecutedCore(v, call);
      var i := Executed(v, call).value.0;
      assert i != j ==> v.cores[i].symbol != v.cores[j].symbol;
    } else if !call.Drain? && !call.AddCore? {
      QuietCallsAreQuiet(v, call);
    }
  }

  lemma ExecutedIsRegistered(v: View, call: Call, symbol: Symbol)
    requires !Registered(v.cores, symbol)
    ensures Counted(v, call, symbol, 0) == 0
  {
  }

  lemma RegisteredStays(v: View, call: Call, symbol: Symbol)
    requires Registered(v.cores, symbol)
    ensures Registered(Do(v, call).cores, symbol)
  {
    var k :| 0 <= k < |v.cores| && v.cores[k].symbol == symbol;
    if Executed(v, call).Some? {
      ExecutedCore(v, call);
      assert Do(v, call).cores[k].symbol == symbol;
    } else if call.Drain? || call.AddCore? {
      assert Do(v, call).cores[k].symbol == symbol;
    } else {
      QuietCallsAreQuiet(v, call);
      assert Do(v, call).cores[k].symbol == symbol;
    }
  }

  lemma {:induction false} PlayStep(params: EngineParams, calls: seq<Call>)
    requires calls != []
    ensures Play(params, calls).view == Do(Play(params, Front(calls)).view, Last(calls))
  {
  }

  lemma {:induction false} UnregisteredIdle(params: EngineParams, calls: seq<Call>, symbol: Symbol)
    requires !Registered(Play(params, calls).view.cores, symbol)
    ensures SinceDrain(params, calls, symbol) == 0
  {
    hide Do, Executed, Account;
    if calls != [] {
      var v, call := Play(params, Front(calls)).view, Last(calls);
      PlayStep(params, calls);
      if Registered(v.cores, symbol) {
        RegisteredStays(v, call, symbol);
      }
      UnregisteredIdle(params, Front(calls), symbol);
      ExecutedIsRegistered(v, call, symbol);
    }
  }

  /** A ring holds the signals executed since the last drain, up to its capacity. */
  lemma {:induction false} QueueLength(params: EngineParams, calls: seq<Call>, j: nat)
    requires j < |Play(params, calls).view.cores|
    ensures var c := Play(params, calls).view.cores[j];
      |c.queue| == Capped(SinceDrain(params, calls, c.symbol))
  {
    hide Do, Executed, Account, Inv;
    if calls != [] {
      var before, call := Front(calls), Last(calls);
      var v := Play(params, before).view;
      PlayStep(params, calls);
      RunInv(params, before);
      CoresAreDistinct(Play(params, before));
      if j < |v.cores| {
        QueueLength(params, before, j);
        QueueStep(v, call, j, SinceDrain(params, before, v.cores[j].symbol));
      } else {
        CoresGrow(v, call);
        UnregisteredIdle(params, before, call.symbol);
      }
    }
  }

  lemma CoresAreDistinct(l: Ledger)
    requires Inv(l)
    ensures DistinctSymbols(l.view.cores)
  {
  }

  ghost predicate Fits(params: EngineParams, calls: seq<Call>)
  {
    forall s: Symbol :: SinceDrain(params, calls, s) <= RING_CAPACITY
  }

  /** No symbol has more signals executed between two drains than its ring can hold. */
  ghost predicate WithinCapacity(params: EngineParams, calls: seq<Call>)
  {
    forall k :: 0 <= k <= |calls| ==> Fits(params, calls[..k])
  }

  lemma {:induction false} WithinCapacityStep(params: EngineParams, calls: seq<Call>)
    requires calls != []
    ensures WithinCapacity(params, calls) <==> WithinCapacity(params, Front(calls)) && Fits(params, calls)
  {
    hide Fits;
    var before := Front(calls);
    assert calls[..|calls|] == calls;
    assert forall k :: 0 <= k <= |before| ==> calls[..k] == before[..k];
  }

  lemma {:induction false} DroppedStep(params: EngineParams, calls: seq<Call>)
    requires calls != []
    requires Fits(params, Front(calls))
    ensures Play(params, calls).dropped == Play(params, Front(calls)).dropped <==> Fits(params, calls)
  {
    hide Do, Executed;
    var l, call := Play(params, Front(calls)), Last(calls);
    forall s: Symbol
      ensures SinceDrain(params, calls, s) == Counted(l.view, call, s, SinceDrain(params, Front(calls), s))
      ensures SinceDrain(params, Front(calls), s) <= RING_CAPACITY
    {
    }
    if Executed(l.view, call).Some? {
      var i := Executed(l.view, call).value.0;
      ExecutedCore(l.view, call);
      ExecutedSymbol(l.view, call);
      QueueLength(params, Front(calls), i);
      assert SinceDrain(params, calls, call.symbol) == SinceDrain(params, Front(calls), call.symbol) + 1;
    }
  }

  lemma ExecutedSymbol(v: View, call: Call)
    requires Executed(v, call).Some?
    ensures call.Signal? && v.cores[Executed(v, call).value.0].symbol == call.symbol
  {
  }

  /** Nothing is ever lost exactly when no symbol outruns its ring between two drains. */
  lemma {:induction false} NothingDroppedIff(params: EngineParams, calls: seq<Call>)
    ensures Play(params, calls).dropped == [] <==> WithinCapacity(params, calls)
  {
    hide Account, Fits;
    if calls == [] {
      NothingCounted(params);
    } else {
      NothingDroppedIff(params, Front(calls));
      WithinCapacityStep(params, calls);
      DroppedGrows(Play(params, Front(calls)), Last(calls));
      if WithinCapacity(params, Front(calls)) {
        assert Front(calls)[..|Front(calls)|] == Front(calls);
        DroppedStep(params, calls);
      }
    }
  }

  lemma NothingCounted(params: EngineParams)
    ensures Play(params, []).dropped == [] && WithinCapacity(params, [])
  {
    var none: seq<Call> := [];
    assert Fits(params, none);
    assert forall k :: 0 <= k <= 0 ==> none[..k] == none;
  }

  lemma DroppedGrows(l: Ledger, call: Call)
    ensures l.dropped <= Account(l, call).dropped
  {
  }

  /** With at most 4096 executed signals per symbol between drains, after a drain the
      drained profit is the realized profit of all cores, and each symbol's events were
      drained in the order its core emitted them. */
  lemma {:induction false} DrainedIsRealized(params: EngineParams, calls: seq<Call>, i: nat)
    requires calls != [] && Last(calls).Drain? && WithinCapacity(params, calls)
    requires i < |Play(params, calls).view.cores|
    ensures var l := Play(params, calls); var c := l.view.cores[i];
      && Pnl(l.drained) == TotalRealized(l.view.cores)
      && Of(l.drained, c.symbol) == Of(l.enqueued, c.symbol)
      && Pnl(Of(l.drained, c.symbol)) == c.position.realizedPnl
  {
    NothingDroppedIff(params, calls);
    DrainCollectsAll(params, calls);
    EventsAreConserved(params, calls, i);
    PlayStep(params, calls);
    assert Play(params, calls).view.cores[i].queue == [];
  }

  /** A tick or a signal of one symbol leaves the cores of all others as they were, and a
      drain takes nothing but the queues. */
  lemma OtherCoresUntouched(v: View, call: Call, k: nat)
    requires k < |v.cores|
    ensures (call.Tick? || call.Signal?) && v.cores[k].symbol != call.symbol ==>
      |Do(v, call).cores| == |v.cores| && Do(v, call).cores[k] == v.cores[k]
    ensures call.Drain? ==>
      |Do(v, call).cores| == |v.cores| && Do(v, call).cores[k] == v.cores[k].(queue := [])
  {
    hide SignalCore, TickCore;
  }
}
