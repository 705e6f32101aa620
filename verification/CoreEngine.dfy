/** The per-core execution engine: one position, opened, increased, reduced, closed and
    flipped by fills (crates/ssm-engine/src/core.rs, crates/ssm-engine/src/types.rs). */
module CoreEngine {
  import opened Domain
  import opened Gate
  import opened SeqLocks
  import opened Spsc

  datatype Position = Position(
    symbol: Symbol, side: Side, entryPrice: real, quantity: real,
    unrealizedPnl: real, realizedPnl: real, leverage: nat, openedAt: int)
  {
    predicate IsOpen() { quantity > 0.0 }

    /** Positive when long, negative when short. */
    function Signed(): real { Sign(side) * quantity }
  }

  function Empty(symbol: Symbol): Position {
    Position(symbol, Buy, 0.0, 0.0, 0.0, 0.0, 1, 0)
  }

  function Reset(p: Position): Position {
    p.(quantity := 0.0, entryPrice := 0.0, unrealizedPnl := 0.0, openedAt := 0)
  }

  datatype EventKind = PositionOpened | PositionIncreased | PositionReduced | PositionClosed

  datatype TradeEvent = TradeEvent(
    kind: EventKind, symbol: Symbol, side: Side, price: real, quantity: real,
    realizedPnl: real, timestamp: int)

  datatype Fill = Fill(side: Side, quantity: real, price: real, timestamp: int) {
    predicate Valid() { quantity > 0.0 && price > 0.0 }
    function Signed(): real { Sign(side) * quantity }
  }

  function PnlPerUnit(side: Side, entryPrice: real, price: real): real {
    match side case Buy => price - entryPrice case Sell => entryPrice - price
  }

  function TotalCost(p: Position, f: Fill): real {
    p.entryPrice * p.quantity + f.price * f.quantity
  }

  function WeightedEntry(p: Position, f: Fill): real
    requires p.quantity + f.quantity != 0.0
  {
    TotalCost(p, f) / (p.quantity + f.quantity)
  }

  function OpenFill(p: Position, f: Fill): (Position, TradeEvent) {
    (p.(side := f.side, entryPrice := f.price, quantity := f.quantity,
        unrealizedPnl := 0.0, openedAt := f.timestamp),
     TradeEvent(PositionOpened, p.symbol, f.side, f.price, f.quantity, 0.0, f.timestamp))
  }

  function AddFill(p: Position, f: Fill, rounding: real): (Position, TradeEvent) {
    (if p.quantity + f.quantity > 0.0
     then p.(quantity := p.quantity + f.quantity, entryPrice := WeightedEntry(p, f) + rounding)
     else p.(quantity := p.quantity + f.quantity),
     TradeEvent(PositionIncreased, p.symbol, f.side, f.price, f.quantity, 0.0, f.timestamp))
  }

  /** A fill against the position: reduces it, closes it, or closes it and opens the
      remainder on the other side. */
  function ReduceFill(p: Position, f: Fill): (Position, TradeEvent) {
    var closeQty := Min(f.quantity, p.quantity);
    var realized := PnlPerUnit(p.side, p.entryPrice, f.price) * closeQty;
    var left := p.quantity - closeQty;
    var remainder := f.quantity - closeQty;
    var q := p.(realizedPnl := p.realizedPnl + realized, quantity := left);
    var event := TradeEvent(PositionClosed, p.symbol, f.side, f.price, closeQty, realized, f.timestamp);
    if left <= 0.0 && remainder > 0.0 then
      (q.(side := f.side, entryPrice := f.price, quantity := remainder,
          unrealizedPnl := 0.0, openedAt := f.timestamp), event)
    else if left <= 0.0 then
      (Reset(q), event)
    else
      (q, event.(kind := PositionReduced))
  }

  /** The position and the event after a fill. `rounding` is the error of the one division,
      the weighted average entry; it is zero for exact arithmetic. */
  function ApplyFill(p: Position, f: Fill, rounding: real := 0.0): (Position, TradeEvent) {
    if !p.IsOpen() then OpenFill(p, f)
    else if p.side == f.side then AddFill(p, f, rounding)
    else ReduceFill(p, f)
  }

  function MarkToMarket(p: Position, price: real): Position {
    if !p.IsOpen() then p
    else p.(unrealizedPnl := PnlPerUnit(p.side, p.entryPrice, price) * p.quantity)
  }

  /** The gate a signal meets; reducing orders pass without it. */
  function SignalGate(p: Position, params: EngineParams, side: Side): GateResult {
    if p.IsOpen() && p.side != side then Open
    else EvaluateGate(side, p.quantity, p.quantity * p.entryPrice, params)
  }

  class Core {
    var position: Position
    var cachedParams: EngineParams
    var lastParamSeq: nat
    const symbol: Symbol

    constructor (symbol: Symbol, initialParams: EngineParams)
      ensures position == Empty(symbol) && cachedParams == initialParams
      ensures lastParamSeq == 0 && this.symbol == symbol
    {
      position := Empty(symbol);
      cachedParams, lastParamSeq, this.symbol := initialParams, 0, symbol;
    }

    method OnTick(price: real, lock: SeqLock<EngineParams>)
      requires lock.Valid()
      modifies this
      ensures position == MarkToMarket(old(position), price)
      ensures (lastParamSeq, cachedParams) == (
        var r := Refresh(lock.sequence, lock.data, old(lastParamSeq), old(cachedParams)); (r.1, r.2))
      ensures old(Coherent(lock.sequence, lock.data, lastParamSeq, cachedParams)) ==>
        cachedParams == lock.data && lastParamSeq == lock.sequence
    {
      var changed, seq1, params := lock.ReadIfChanged(lastParamSeq, cachedParams);
      lastParamSeq, cachedParams := seq1, params;
      if position.IsOpen() {
        MarkPosition(price);
      }
    }

    method OnSignal(fill: Fill, ring: RingBuffer<TradeEvent>) returns (gate: GateResult)
      requires ring.Valid() && position.symbol == symbol
      modifies this`position, ring`head, ring`contents, ring.buffer
      ensures ring.Valid() && position.symbol == symbol
      ensures gate == SignalGate(old(position), cachedParams, fill.side)
      ensures gate == Blocked ==> position == old(position) && ring.contents == old(ring.contents)
      ensures gate == Open ==>
        var (p, event) := ApplyFill(old(position), fill);
        && position == p
        && ring.contents == Offer(ring.buffer.Length, old(ring.contents), event).1
    {
      var isReducing := position.IsOpen() && position.side != fill.side;
      if isReducing {
        gate := Open;
      } else {
        var currentExposure := position.quantity * position.entryPrice;
        gate := EvaluateGate(fill.side, position.quantity, currentExposure, cachedParams);
      }
      if gate == Open {
        var event := Apply(fill);
        // A full ring silently drops the event.
        var _ := ring.Push(event);
      }
    }

    method Apply(fill: Fill) returns (event: TradeEvent)
      requires position.symbol == symbol
      modifies this`position
      ensures (position, event) == ApplyFill(old(position), fill)
      ensures position.symbol == symbol
    {
      hide TotalCost;
      if !position.IsOpen() {
        position := position.(side := fill.side, entryPrice := fill.price);
        position := position.(quantity := fill.quantity, unrealizedPnl := 0.0);
        position := position.(openedAt := fill.timestamp);
        return TradeEvent(PositionOpened, symbol, fill.side, fill.price, fill.quantity, 0.0, fill.timestamp);
      }
      if position.side == fill.side {
        var totalCost := TotalCost(position, fill);
        position := position.(quantity := position.quantity + fill.quantity);
        if position.quantity > 0.0 {
          position := position.(entryPrice := totalCost / position.quantity);
          assert position.entryPrice == WeightedEntry(old(position), fill);
        }
        return TradeEvent(PositionIncreased, symbol, fill.side, fill.price, fill.quantity, 0.0, fill.timestamp);
      }
      var pnlPerUnit := PnlPerUnit(position.side, position.entryPrice, fill.price);
      var closeQty := Min(fill.quantity, position.quantity);
      var realized := pnlPerUnit * closeQty;
      position := position.(realizedPnl := position.realizedPnl + realized);
      position := position.(quantity := position.quantity - closeQty);
      var remainder := fill.quantity - closeQty;
      event := TradeEvent(PositionClosed, symbol, fill.side, fill.price, closeQty, realized, fill.timestamp);
      if position.quantity <= 0.0 && remainder > 0.0 {
        position := position.(side := fill.side, entryPrice := fill.price, quantity := remainder);
        position := position.(unrealizedPnl := 0.0, openedAt := fill.timestamp);
      } else if position.quantity <= 0.0 {
        position := Reset(position);
      } else {
        event := event.(kind := PositionReduced);
      }
      assert position == ReduceFill(old(position), fill).0 && event == ReduceFill(old(position), fill).1;
    }

    method MarkPosition(price: real)
      modifies this`position
      ensures position == MarkToMarket(old(position), price)
    {
      if !position.IsOpen() {
        return;
      }
      match position.side {
        case Buy =>
          position := position.(unrealizedPnl := (price - position.entryPrice) * position.quantity);
        case Sell =>
          position := position.(unrealizedPnl := (position.entryPrice - price) * position.quantity);
      }
    }
  }
}
