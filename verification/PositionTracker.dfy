/** The execution layer's positions, one per symbol in a map
    (crates/ssm-execution/src/position_tracker.rs). */
module PositionTracker {
  import opened Domain
  import opened CoreEngine

  /** `closed` lists the symbols whose position the last fill closed. */
  datatype Book = Book(positions: map<Symbol, Position>, closed: seq<Symbol>)

  /** The clock reading of a fill is its timestamp. */
  function TrackFill(b: Book, s: Symbol, f: Fill): Book {
    if s !in b.positions then
      Book(b.positions[s := Position(s, f.side, f.price, f.quantity, 0.0, 0.0, 1, f.timestamp)], [])
    else
      var p := b.positions[s];
      if p.side == f.side then
        var quantity := p.quantity + f.quantity;
        Book(b.positions[s := if quantity > 0.0
                              then p.(quantity := quantity, entryPrice := WeightedEntry(p, f))
                              else p.(quantity := quantity)], [])
      else
        var closeQty := Min(f.quantity, p.quantity);
        var realized := p.realizedPnl + PnlPerUnit(p.side, p.entryPrice, f.price) * closeQty;
        var left := p.quantity - closeQty;
        if left > 0.0 then
          Book(b.positions[s := p.(realizedPnl := realized, quantity := left)], [])
        else if f.quantity - closeQty > 0.0 then
          Book(b.positions[s := Position(s, f.side, f.price, f.quantity - closeQty, 0.0,
                                         realized, p.leverage, f.timestamp)], [s])
        else
          Book(b.positions - {s}, [s])
  }

  function Marked(p: Position, price: real): Position {
    p.(unrealizedPnl := PnlPerUnit(p.side, p.entryPrice, price) * p.quantity)
  }

  function MarkedIn(prices: map<Symbol, real>, s: Symbol, p: Position): Position {
    if s in prices then Marked(p, prices[s]) else p
  }

  function TrackMark(b: Book, prices: map<Symbol, real>): Book {
    b.(positions := map s | s in b.positions :: MarkedIn(prices, s, b.positions[s]))
  }

  class Tracker {
    var positions: map<Symbol, Position>
    var lastClosed: seq<Symbol>

    constructor ()
      ensures Book(positions, lastClosed) == Book(map[], [])
    {
      positions, lastClosed := map[], [];
    }

    method ApplyFill(symbol: Symbol, fill: Fill)
      modifies this
      ensures Book(positions, lastClosed) ==
        TrackFill(old(Book(positions, lastClosed)), symbol, fill)
    {
      hide TotalCost;
      lastClosed := [];
      if symbol !in positions {
        positions := positions[symbol := Position(
          symbol, fill.side, fill.price, fill.quantity, 0.0, 0.0, 1, fill.timestamp)];
        return;
      }
      var pos := positions[symbol];
      if pos.side == fill.side {
        var totalCost := TotalCost(pos, fill);
        var grown := pos.(quantity := pos.quantity + fill.quantity);
        if grown.quantity > 0.0 {
          grown := grown.(entryPrice := totalCost / grown.quantity);
          assert grown.entryPrice == WeightedEntry(pos, fill);
        }
        positions := positions[symbol := grown];
        return;
      }
      var pnlPerUnit := PnlPerUnit(pos.side, pos.entryPrice, fill.price);
      var closeQty := Min(fill.quantity, pos.quantity);
      pos := pos.(realizedPnl := pos.realizedPnl + pnlPerUnit * closeQty);
      pos := pos.(quantity := pos.quantity - closeQty);
      positions := positions[symbol := pos];
      ghost var after := TrackFill(old(Book(positions, lastClosed)), symbol, fill);
      if pos.quantity <= 0.0 {
        var remainder := fill.quantity - closeQty;
        lastClosed := [symbol];
        if remainder > 0.0 {
          var flipped := Position(
            symbol, fill.side, fill.price, remainder, 0.0, pos.realizedPnl, pos.leverage, fill.timestamp);
          positions := positions[symbol := flipped];
          assert after.positions[symbol].realizedPnl == flipped.realizedPnl;
          assert after.positions == old(positions)[symbol := flipped];
        } else {
          positions := positions - {symbol};
          assert after.positions == old(positions) - {symbol};
        }
      }
    }

    static method MarkPosition(p: Position, price: real) returns (p': Position)
      ensures p' == Marked(p, price)
    {
      var pnl := match p.side
        case Buy => (price - p.entryPrice) * p.quantity
        case Sell => (p.entryPrice - price) * p.quantity;
      p' := p.(unrealizedPnl := pnl);
    }

    /** Visits the positions one by one, in any order. */
    method MarkToMarket(prices: map<Symbol, real>)
      modifies this`positions
      ensures Book(positions, lastClosed) == TrackMark(old(Book(positions, lastClosed)), prices)
    {
      hide Marked;
      var pending := positions.Keys;
      while pending != {}
        invariant positions.Keys == old(positions).Keys && pending <= positions.Keys
        invariant forall s :: s in pending ==> positions[s] == old(positions)[s]
        invariant forall s :: s in positions && s !in pending ==>
          positions[s] == MarkedIn(prices, s, old(positions)[s])
        decreases |pending|
      {
        var s :| s in pending;
        pending := pending - {s};
        if s in prices {
          var pos := MarkPosition(positions[s], prices[s]);
          positions := positions[s := pos];
        }
      }
    }
  }
}

/** The hot-path engine against the tracker: one core per symbol, all fed the same fills
    and marks as one tracker. */
module TrackerRefinement {
  import opened Domain
  import opened CoreEngine
  import opened PositionTracker

  datatype Action = FillOn(symbol: Symbol, fill: Fill) | MarkWith(prices: map<Symbol, real>)

  predicate ValidActions(actions: seq<Action>) {
    forall k :: 0 <= k < |actions| && actions[k].FillOn? ==> actions[k].fill.quantity > 0.0
  }

  function TrackRun(actions: seq<Action>): Book
    requires ValidActions(actions)
  {
    if actions == [] then Book(map[], [])
    else
      var b := TrackRun(Front(actions));
      match Last(actions)
      case FillOn(s, f) => TrackFill(b, s, f)
      case MarkWith(prices) => TrackMark(b, prices)
  }

  /** The core of symbol `s` sees only its own fills and prices. */
  function CoreRun(s: Symbol, actions: seq<Action>): Position
    requires ValidActions(actions)
  {
    if actions == [] then Empty(s)
    else
      var p := CoreRun(s, Front(actions));
      match Last(actions)
      case FillOn(t, f) => if t == s then ApplyFill(p, f).0 else p
      case MarkWith(prices) => if s in prices then MarkToMarket(p, prices[s]) else p
  }

  /** The core's realised profit when its position was last fully closed. */
  function AtLastClose(s: Symbol, actions: seq<Action>): real
    requires ValidActions(actions)
  {
    if actions == [] then 0.0
    else if CoreRun(s, Front(actions)).IsOpen() && !CoreRun(s, actions).IsOpen()
    then CoreRun(s, actions).realizedPnl
    else AtLastClose(s, Front(actions))
  }

  /** The symbols the cores report as closed by the last fill. */
  function ReportedClosed(actions: seq<Action>): seq<Symbol>
    requires ValidActions(actions)
  {
    if actions == [] then []
    else
      match Last(actions)
      case FillOn(s, f) =>
        if ApplyFill(CoreRun(s, Front(actions)), f).1.kind == PositionClosed then [s] else []
      case MarkWith(_) => ReportedClosed(Front(actions))
  }

  /** The tracker's entry for a core: absent when flat, and otherwise the core's position
      with its realised profit counted from the last full close. */
  predicate Mirrors(b: Book, s: Symbol, p: Position, base: real) {
    && p.symbol == s && p.quantity >= 0.0 && p.leverage == 1
    && (s in b.positions <==> p.IsOpen())
    && (p.IsOpen() ==> b.positions[s] == p.(realizedPnl := p.realizedPnl - base))
    && (!p.IsOpen() ==> p.realizedPnl == base)
  }

  lemma FillMirrors(b: Book, s: Symbol, p: Position, base: real, f: Fill)
    requires Mirrors(b, s, p, base) && f.quantity > 0.0
    ensures var (p', event) := ApplyFill(p, f);
      var base' := if p.IsOpen() && !p'.IsOpen() then p'.realizedPnl else base;
      && Mirrors(TrackFill(b, s, f), s, p', base')
      && TrackFill(b, s, f).closed == (if event.kind == PositionClosed then [s] else [])
  {
    var t := TrackFill(b, s, f);
    if p.IsOpen() && p.side == f.side {
      assert t.positions[s].entryPrice == WeightedEntry(p, f);
    }
  }

  lemma OtherFillMirrors(b: Book, s: Symbol, p: Position, base: real, t: Symbol, f: Fill)
    requires Mirrors(b, s, p, base) && f.quantity > 0.0 && t != s
    ensures Mirrors(TrackFill(b, t, f), s, p, base)
  {
  }

  /** After any common sequence of fills and marks on any mix of symbols, the tracker is
      the cores seen through `Mirrors`, and both name the same closed symbols. */
  lemma {:induction false} TrackerMirrorsCores(actions: seq<Action>, s: Symbol)
    requires ValidActions(actions)
    ensures Mirrors(TrackRun(actions), s, CoreRun(s, actions), AtLastClose(s, actions))
    ensures TrackRun(actions).closed == ReportedClosed(actions)
  {
    if actions != [] {
      var before := Front(actions);
      TrackerMirrorsCores(before, s);
      match Last(actions) {
        case FillOn(t, f) =>
          TrackerMirrorsCores(before, t);
          FillMirrors(TrackRun(before), t, CoreRun(t, before), AtLastClose(t, before), f);
          if t != s {
            OtherFillMirrors(TrackRun(before), s, CoreRun(s, before), AtLastClose(s, before), t, f);
          }
        case MarkWith(prices) =>
      }
    }
  }
}
