/** The size limit of the hot path, order by order (crates/ssm-engine/src/core.rs:69-101,
    crates/ssm-engine/src/gate.rs:57-81). */
module GateLimit {
  import opened MachineWords
  import opened Domain
  import opened Gate
  import opened CoreEngine
  import opened Controllers

  /** An executed order on the side held, or from flat, leaves less than the maximum plus
      itself, and more than the maximum exactly when it did not fit: a case the documented
      gate refuses. */
  lemma ExecutedOrderSize(c: CoreView, f: Fill)
    requires f.quantity > 0.0 && c.position.quantity >= 0.0
    requires !(c.position.IsOpen() && c.position.side != f.side)
    requires SignalCore(c, f).0 == Open
    ensures var p, after := c.position, SignalCore(c, f).1.position;
      && after.quantity == p.quantity + f.quantity < c.cached.maxPositionSize + f.quantity
      && (after.quantity > c.cached.maxPositionSize <==>
            !DocumentedGate(f.side, p.quantity, f.quantity, p.quantity * p.entryPrice, c.cached))
  {
    GateMeetsDocumentIff(f.side, c.position.quantity, f.quantity,
                         c.position.quantity * c.position.entryPrice, c.cached);
  }

  /** With a maximum of 10, a new core buys 9 and then 5 more, and holds 14. */
  lemma OrderPassesSizeLimit(symbol: Symbol)
    ensures var params := EngineParams(3, 10.0, 1000000.0, 0.1, 0.02, false);
      var (first, c) := SignalCore(NewCore(symbol, params), Fill(Buy, 9.0, 100.0, 0));
      var (second, c') := SignalCore(c, Fill(Buy, 5.0, 100.0, 1));
      && first == second == Open && c.position.quantity == 9.0
      && c'.position.quantity == 14.0 > params.maxPositionSize
      && !DocumentedGate(Buy, 9.0, 5.0, 900.0, params)
  {
    assert BitAnd(3, BUY_ALLOWED) == 2 * BitAnd(1, 0) + 1;
  }
}
