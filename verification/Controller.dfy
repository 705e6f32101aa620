/** Many cores behind one controller: registration, published parameters, routing of ticks
    and signals, and draining of the event rings (crates/ssm-engine/src/controller.rs). */
module Controllers {
  import opened MachineWords
  import opened Domain
  import opened Gate
  import opened SeqLocks
  import opened Spsc
  import opened CoreEngine

  const MAX_SYMBOL_LENGTH: nat := 16
  const RING_CAPACITY: nat := 4096

  datatype AddError = SymbolTooLong | AlreadyRegistered
  datatype AddResult = Added(index: nat) | Refused(error: AddError)

  /** One core as the controller sees it; `queue` is what its ring holds, oldest first. */
  datatype CoreView = CoreView(
    symbol: Symbol, position: Position, cached: EngineParams, lastSeq: nat, queue: seq<TradeEvent>)

  datatype View = View(cores: seq<CoreView>, sequence: nat, published: EngineParams, current: EngineParams)

  // ---------------------------------------------------------------------
  // What each call does to the view
  // ---------------------------------------------------------------------

  /** The first core of a symbol. */
  function IndexOf(cores: seq<CoreView>, symbol: Symbol): (r: Option<nat>)
    ensures r.Some? ==> r.value < |cores| && cores[r.value].symbol == symbol
    ensures r.Some? ==> forall k :: 0 <= k < r.value ==> cores[k].symbol != symbol
    ensures r.None? ==> forall k :: 0 <= k < |cores| ==> cores[k].symbol != symbol
  {
    if cores == [] then None
    else
      match IndexOf(Front(cores), symbol)
      case Some(k) => Some(k)
      case None => if Last(cores).symbol == symbol then Some(|cores| - 1) else None
  }

  function NewCore(symbol: Symbol, current: EngineParams): (c: CoreView)
    ensures c.symbol == symbol
  {
    CoreView(symbol, Empty(symbol), current, 0, [])
  }

  function AddCoreTo(v: View, symbol: Symbol): (AddResult, View) {
    if |symbol| > MAX_SYMBOL_LENGTH then (Refused(SymbolTooLong), v)
    else if IndexOf(v.cores, symbol).Some? then (Refused(AlreadyRegistered), v)
    else (Added(|v.cores|), v.(cores := v.cores + [NewCore(symbol, v.current)]))
  }

  function Publish(v: View, params: EngineParams): View {
    v.(current := params, published := params, sequence := WrappingAdd(v.sequence, 2))
  }

  function TickCore(c: CoreView, sequence: nat, published: EngineParams, price: real): CoreView {
    var (_, seq1, params) := Refresh(sequence, published, c.lastSeq, c.cached);
    c.(position := MarkToMarket(c.position, price), lastSeq := seq1, cached := params)
  }

  function TickOn(v: View, symbol: Symbol, price: real): View {
    match IndexOf(v.cores, symbol)
    case None => v
    case Some(i) => v.(cores := v.cores[i := TickCore(v.cores[i], v.sequence, v.published, price)])
  }

  /** A signal meets the gate with the cached parameters; an executed one queues its event,
      which is lost when the ring is full. */
  function SignalCore(c: CoreView, fill: Fill): (r: (GateResult, CoreView))
    ensures r.1.symbol == c.symbol
  {
    var gate := SignalGate(c.position, c.cached, fill.side);
    if gate == Blocked then (gate, c)
    else
      var (p, event) := ApplyFill(c.position, fill);
      (gate, c.(position := p, queue := Offer(RING_CAPACITY, c.queue, event).1))
  }

  function SignalOn(v: View, symbol: Symbol, fill: Fill): (Option<GateResult>, View)
  {
    match IndexOf(v.cores, symbol)
    case None => (None, v)
    case Some(i) =>
      var (gate, c) := SignalCore(v.cores[i], fill);
      (Some(gate), v.(cores := v.cores[i := c]))
  }

  /** All queued events, core by core. */
  function Queued(cores: seq<CoreView>): seq<TradeEvent> {
    if cores == [] then [] else Queued(Front(cores)) + Last(cores).queue
  }

  function Emptied(cores: seq<CoreView>): (r: seq<CoreView>)
    ensures |r| == |cores|
  {
    seq(|cores|, i requires 0 <= i < |cores| => cores[i].(queue := []))
  }

  /** The first `n` cores emptied. */
  function EmptiedTo(cores: seq<CoreView>, n: nat): seq<CoreView>
    requires n <= |cores|
  {
    Emptied(cores[..n]) + cores[n..]
  }

  lemma {:induction false} DrainStep(cores: seq<CoreView>, i: nat)
    requires i < |cores|
    ensures |EmptiedTo(cores, i)| == |cores| && EmptiedTo(cores, i)[i] == cores[i]
    ensures EmptiedTo(cores, i)[i := cores[i].(queue := [])] == EmptiedTo(cores, i + 1)
    ensures Queued(cores[..i + 1]) == Queued(cores[..i]) + cores[i].queue
  {
    assert Front(cores[..i + 1]) == cores[..i];
  }

  lemma {:induction false} DrainEnds(cores: seq<CoreView>)
    ensures EmptiedTo(cores, 0) == cores && Queued(cores[..0]) == []
    ensures EmptiedTo(cores, |cores|) == Emptied(cores) && Queued(cores[..|cores|]) == Queued(cores)
  {
    assert cores[..|cores|] == cores;
  }

  function MarkOn(v: View, symbol: Symbol, price: real): View {
    match IndexOf(v.cores, symbol)
    case None => v
    case Some(i) =>
      v.(cores := v.cores[i := v.cores[i].(position := MarkToMarket(v.cores[i].position, price))])
  }

  function MarkAll(v: View, prices: seq<(Symbol, real)>): View {
    if prices == [] then v else MarkOn(MarkAll(v, Front(prices)), Last(prices).0, Last(prices).1)
  }

  // ---------------------------------------------------------------------
  // The objects
  // ---------------------------------------------------------------------

  class CoreSlot {
    const symbol: Symbol
    const engine: Core
    const ring: RingBuffer<TradeEvent>

    constructor (symbol: Symbol, current: EngineParams)
      ensures this.symbol == symbol && Shows(NewCore(symbol, current))
      ensures fresh(engine) && fresh(ring) && fresh(ring.buffer)
    {
      hide RingBuffer.Valid;
      this.symbol := symbol;
      engine := new Core(symbol, current);
      ring := new RingBuffer<TradeEvent>(RING_CAPACITY);
    }

    ghost predicate Shows(c: CoreView)
      reads engine, ring, ring.buffer
    {
      && symbol == c.symbol == engine.symbol == engine.position.symbol
      && engine.position == c.position
      && engine.cachedParams == c.cached && engine.lastParamSeq == c.lastSeq
      && ring.Valid() && ring.buffer.Length == RING_CAPACITY && ring.contents == c.queue
    }

    method Tick(price: real, params: SeqLock<EngineParams>, ghost c: CoreView)
      requires Shows(c) && params.Valid()
      modifies engine
      ensures Shows(TickCore(c, params.sequence, params.data, price))
    {
      engine.OnTick(price, params);
    }

    method Signal(fill: Fill, ghost c: CoreView) returns (gate: GateResult)
      requires Shows(c)
      modifies engine, ring, ring.buffer
      ensures gate == SignalCore(c, fill).0 && Shows(SignalCore(c, fill).1)
    {
      hide RingBuffer.Valid;
      ApplyKeepsSymbol(c.position, fill);
      gate := engine.OnSignal(fill, ring);
    }

    method Mark(price: real, ghost c: CoreView)
      requires Shows(c)
      modifies engine
      ensures Shows(c.(position := MarkToMarket(c.position, price)))
    {
      engine.MarkPosition(price);
    }

    /** Pops until the ring is empty. */
    method DrainInto(buffer: seq<TradeEvent>, ghost c: CoreView) returns (buffer': seq<TradeEvent>)
      requires Shows(c)
      modifies ring, ring.buffer
      ensures buffer' == buffer + c.queue && Shows(c.(queue := []))
    {
      hide RingBuffer.Valid;
      buffer' := buffer;
      var more := true;
      while more
        invariant ring.Valid() && buffer' + ring.contents == buffer + c.queue
        invariant !more ==> ring.contents == []
        decreases |ring.contents|, more
      {
        var event := ring.Pop();
        more := event.Some?;
        if more {
          buffer' := buffer' + [event.value];
        }
      }
    }
  }

  lemma ApplyKeepsSymbol(p: Position, f: Fill)
    ensures ApplyFill(p, f).0.symbol == p.symbol
  {
  }

  ghost predicate Separate(a: CoreSlot, b: CoreSlot) {
    a.engine != b.engine && a.ring != b.ring && a.ring.buffer != b.ring.buffer
  }

  class Controller {
    var cores: seq<CoreSlot>
    const params: SeqLock<EngineParams>
    var currentParams: EngineParams
    ghost var view: View

    ghost function Repr(): set<object>
      reads this
    {
      {this, params} + (set s | s in cores :: s.engine) + (set s | s in cores :: s.ring)
        + (set s | s in cores :: s.ring.buffer)
    }

    /** The view is what the cores, the rings and the parameter cell hold; no two cores
        share anything. */
    ghost predicate Valid()
      reads this, Repr()
    {
      && params.Valid()
      && view.sequence == params.sequence && view.published == params.data
      && view.current == currentParams
      && |view.cores| == |cores|
      && (forall i :: 0 <= i < |cores| ==> cores[i].symbol == view.cores[i].symbol)
      && (forall i :: 0 <= i < |cores| ==> cores[i].Shows(view.cores[i]))
      && (forall i, j :: 0 <= i < j < |cores| ==> Separate(cores[i], cores[j]))
    }

    constructor (params: EngineParams)
      ensures Valid() && fresh(Repr()) && view == View([], 0, params, params)
    {
      cores := [];
      this.params := new SeqLock(params);
      currentParams := params;
      view := View([], 0, params, params);
    }

    method Find(symbol: Symbol) returns (r: Option<nat>)
      requires Valid()
      ensures r == IndexOf(view.cores, symbol)
    {
      for i := 0 to |cores|
        invariant forall k :: 0 <= k < i ==> view.cores[k].symbol != symbol
      {
        if cores[i].symbol == symbol {
          return Some(i);
        }
      }
      r := None;
    }

    method AddCore(symbol: Symbol) returns (r: AddResult)
      requires Valid()
      modifies this
      ensures Valid() && fresh(Repr() - old(Repr()))
      ensures (r, view) == AddCoreTo(old(view), symbol)
    {
      hide CoreSlot.Shows, SeqLock.Valid, IndexOf, NewCore;
      if |symbol| > MAX_SYMBOL_LENGTH {
        return Refused(SymbolTooLong);
      }
      var found := Find(symbol);
      if found.Some? {
        return Refused(AlreadyRegistered);
      }
      var index := |cores|;
      var slot := new CoreSlot(symbol, currentParams);
      PushSlot(slot, NewCore(symbol, currentParams));
      r := Added(index);
    }

    method PushSlot(slot: CoreSlot, ghost c: CoreView)
      requires Valid() && slot.symbol == c.symbol && slot.Shows(c)
      requires forall i :: 0 <= i < |cores| ==> Separate(cores[i], slot)
      modifies this`cores, this`view
      ensures Valid() && cores == old(cores) + [slot]
      ensures view == old(view).(cores := old(view).cores + [c])
    {
      hide CoreSlot.Shows, SeqLock.Valid;
      cores := cores + [slot];
      view := view.(cores := view.cores + [c]);
    }

    method UpdateParams(newParams: EngineParams)
      requires Valid()
      modifies this, params
      ensures Valid() && cores == old(cores) && view == Publish(old(view), newParams)
    {
      currentParams := newParams;
      params.Write(newParams);
      view := Publish(view, newParams);
    }

    method SetCircuitBreaker(active: bool)
      requires Valid()
      modifies this, params
      ensures Valid() && cores == old(cores)
      ensures view == Publish(old(view), old(view).current.(circuitBreaker := active))
    {
      currentParams := currentParams.(circuitBreaker := active);
      params.Write(currentParams);
      view := Publish(view, currentParams);
    }

    method SetPermissions(permissions: nat)
      requires Valid()
      modifies this, params
      ensures Valid() && cores == old(cores)
      ensures view == Publish(old(view), old(view).current.(permissions := permissions))
    {
      currentParams := currentParams.(permissions := permissions);
      params.Write(currentParams);
      view := Publish(view, currentParams);
    }

    method Tick(symbol: Symbol, price: real)
      requires Valid()
      modifies Repr()
      ensures Valid() && cores == old(cores) && view == TickOn(old(view), symbol, price)
    {
      hide CoreSlot.Shows, SeqLock.Valid, Refresh, MarkToMarket, IndexOf;
      var found := Find(symbol);
      if found.Some? {
        var i := found.value;
        cores[i].Tick(price, params, view.cores[i]);
        view := TickOn(view, symbol, price);
      }
    }

    method Signal(symbol: Symbol, fill: Fill) returns (r: Option<GateResult>)
      requires Valid()
      modifies Repr()
      ensures Valid() && cores == old(cores) && (r, view) == SignalOn(old(view), symbol, fill)
    {
      hide CoreSlot.Shows, SeqLock.Valid, SignalCore, IndexOf;
      var found := Find(symbol);
      if found.None? {
        return None;
      }
      var i := found.value;
      var gate := cores[i].Signal(fill, view.cores[i]);
      view := SignalOn(view, symbol, fill).1;
      r := Some(gate);
    }

    /** Appends to `buffer` everything the rings hold. */
    method DrainEventsInto(buffer: seq<TradeEvent>) returns (buffer': seq<TradeEvent>)
      requires Valid()
      modifies Repr()
      ensures Valid() && cores == old(cores)
      ensures buffer' == buffer + Queued(old(view).cores)
      ensures view == old(view).(cores := Emptied(old(view).cores))
    {
      hide Valid, EmptiedTo, Emptied, Queued;
      EveryCoreShown();
      buffer' := buffer;
      ghost var was := view.cores;
      DrainEnds(was);
      for i := 0 to |cores|
        invariant cores == old(cores) && currentParams == old(currentParams) && Valid()
        invariant view == old(view).(cores := EmptiedTo(was, i))
        invariant buffer' == buffer + Queued(was[..i])
      {
        DrainStep(was, i);
        buffer' := DrainOne(i, buffer');
      }
    }

    lemma EveryCoreShown()
      requires Valid()
      ensures |view.cores| == |cores|
    {
    }

    method DrainOne(i: nat, buffer: seq<TradeEvent>) returns (buffer': seq<TradeEvent>)
      requires Valid() && i < |cores|
      modifies this`view, cores[i].ring, cores[i].ring.buffer
      ensures Valid() && cores == old(cores)
      ensures buffer' == buffer + old(view).cores[i].queue
      ensures view == old(view).(cores := old(view).cores[i := old(view).cores[i].(queue := [])])
    {
      hide CoreSlot.Shows, SeqLock.Valid;
      buffer' := cores[i].DrainInto(buffer, view.cores[i]);
      view := view.(cores := view.cores[i := view.cores[i].(queue := [])]);
    }

    method MarkToMarketAll(prices: seq<(Symbol, real)>)
      requires Valid()
      modifies Repr()
      ensures Valid() && cores == old(cores) && view == MarkAll(old(view), prices)
    {
      for k := 0 to |prices|
        invariant Valid() && cores == old(cores) && view == MarkAll(old(view), prices[..k])
      {
        MarkOne(prices[k].0, prices[k].1);
        assert Front(prices[..k + 1]) == prices[..k];
      }
      assert prices[..|prices|] == prices;
    }

    method MarkOne(symbol: Symbol, price: real)
      requires Valid()
      modifies Repr()
      ensures Valid() && cores == old(cores) && view == MarkOn(old(view), symbol, price)
    {
      hide CoreSlot.Shows, SeqLock.Valid, MarkToMarket, IndexOf;
      var found := Find(symbol);
      if found.Some? {
        var i := found.value;
        cores[i].Mark(price, view.cores[i]);
        view := MarkOn(view, symbol, price);
      }
    }
  }
}
