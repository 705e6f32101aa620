/** What a fill does to a position and what its event says, read off position and fill alone
    (crates/ssm-engine/src/core.rs:103-203). */
module FillEvents {
  import opened Domain
  import opened CoreEngine

  /** Whatever the fill: the event names the core's symbol and the fill's side, price and
      time, and its kind tells how the position stood to the fill. */
  lemma EventNamesFill(p: Position, f: Fill)
    ensures var (p', event) := ApplyFill(p, f);
      && event.symbol == p.symbol == p'.symbol && p'.leverage == p.leverage
      && event.side == f.side && event.price == f.price && event.timestamp == f.timestamp
      && (event.kind == PositionOpened <==> !p.IsOpen())
      && (event.kind == PositionIncreased <==> p.IsOpen() && p.side == f.side)
      && (event.kind == PositionReduced <==> p.IsOpen() && p.side != f.side && f.quantity < p.quantity)
      && (event.kind == PositionClosed <==> p.IsOpen() && p.side != f.side && f.quantity >= p.quantity)
  {
  }

  /** From flat, the whole fill is opened at its price and time; nothing is realized. */
  lemma OpeningFill(p: Position, f: Fill)
    requires !p.IsOpen()
    ensures var (p', event) := ApplyFill(p, f);
      && event.quantity == f.quantity && event.realizedPnl == 0.0
      && p'.side == f.side && p'.quantity == f.quantity && p'.entryPrice == f.price
      && p'.openedAt == f.timestamp && p'.unrealizedPnl == 0.0 && p'.realizedPnl == p.realizedPnl
  {
  }

  /** On the side held, the whole fill is added at its own cost; nothing is realized, and the
      position keeps the time it was opened and its last mark. */
  lemma AddingFill(p: Position, f: Fill)
    requires f.quantity > 0.0 && p.IsOpen() && p.side == f.side
    ensures var (p', event) := ApplyFill(p, f);
      && event.quantity == f.quantity && event.realizedPnl == 0.0
      && p'.side == p.side && p'.quantity == p.quantity + f.quantity
      && p'.quantity * p'.entryPrice == p.quantity * p.entryPrice + f.quantity * f.price
      && p'.openedAt == p.openedAt && p'.unrealizedPnl == p.unrealizedPnl && p'.realizedPnl == p.realizedPnl
  {
    var q := p.quantity + f.quantity;
    assert WeightedEntry(p, f) * q == TotalCost(p, f);
  }

  /** Against the side held, the event carries exactly the quantity closed: what is left of
      the position is what it held less that, what is opened on the other side is what the
      fill was for less that, and the profit is the signed price move times that. */
  lemma ClosingFill(p: Position, f: Fill)
    requires f.quantity > 0.0 && p.IsOpen() && p.side != f.side
    ensures var (p', event) := ApplyFill(p, f);
      && 0.0 < event.quantity <= p.quantity && event.quantity <= f.quantity
      && event.realizedPnl == Sign(p.side) * (event.price - p.entryPrice) * event.quantity
      && p'.realizedPnl == p.realizedPnl + event.realizedPnl
      && (p.quantity - event.quantity) * (f.quantity - event.quantity) == 0.0
      && p'.quantity == (p.quantity - event.quantity) + (f.quantity - event.quantity)
      && (p.quantity > f.quantity ==>
            && p'.side == p.side && p'.entryPrice == p.entryPrice
            && p'.openedAt == p.openedAt && p'.unrealizedPnl == p.unrealizedPnl)
      && (p.quantity < f.quantity ==>
            && p'.side == f.side && p'.entryPrice == f.price
            && p'.openedAt == f.timestamp && p'.unrealizedPnl == 0.0)
      && (p.quantity == f.quantity ==>
            !p'.IsOpen() && p'.entryPrice == 0.0 && p'.unrealizedPnl == 0.0 && p'.openedAt == 0)
  {
    var (p', event) := ApplyFill(p, f);
    assert event.realizedPnl == PnlPerUnit(p.side, p.entryPrice, f.price) * event.quantity;
  }
}
