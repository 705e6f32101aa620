/** The risk gate of the hot path (crates/ssm-engine/src/gate.rs): conditions are turned
    into 0 or 1 and multiplied. */
module Gate {
  import opened MachineWords
  import opened Domain

  const BUY_ALLOWED: nat := 1
  const SELL_ALLOWED: nat := 2

  datatype EngineParams = EngineParams(
    permissions: nat, maxPositionSize: real, maxExposure: real,
    maxDrawdownPct: real, positionSizeFraction: real, circuitBreaker: bool)

  datatype GateResult = Blocked | Open

  function BoolGate(b: bool): nat {
    if b then 1 else 0
  }

  function EvaluateGate(side: Side, currentQuantity: real, currentExposure: real,
                        params: EngineParams): (r: GateResult)
    ensures r.Open? <==>
      && BitAnd(params.permissions, if side == Buy then BUY_ALLOWED else SELL_ALLOWED) != 0
      && !params.circuitBreaker
      && currentQuantity < params.maxPositionSize
      && currentExposure < params.maxExposure
  {
    var hasPerm := BoolGate(
      BitAnd(params.permissions, match side { case Buy => BUY_ALLOWED case Sell => SELL_ALLOWED }) != 0);
    var noBreaker := BoolGate(!params.circuitBreaker);
    var belowSize := BoolGate(currentQuantity < params.maxPositionSize);
    var belowExposure := BoolGate(currentExposure < params.maxExposure);
    if hasPerm * noBreaker * belowSize * belowExposure > 0 then Open else Blocked
  }

  /** Every condition but the size: permission, breaker and exposure. */
  predicate OtherwiseAllowed(side: Side, currentExposure: real, params: EngineParams) {
    && BitAnd(params.permissions, if side == Buy then BUY_ALLOWED else SELL_ALLOWED) != 0
    && !params.circuitBreaker
    && currentExposure < params.maxExposure
  }

  /** The gate as documented: the order has to fit under the maximum. */
  predicate DocumentedGate(side: Side, currentQuantity: real, orderQuantity: real, currentExposure: real,
                           params: EngineParams) {
    && OtherwiseAllowed(side, currentExposure, params)
    && currentQuantity + orderQuantity <= params.maxPositionSize
  }

  /** The gate is the documented one except exactly when an otherwise allowed order starts
      below the maximum and ends above it: that order is let through. */
  lemma GateMeetsDocumentIff(side: Side, currentQuantity: real, orderQuantity: real, currentExposure: real,
                             params: EngineParams)
    requires orderQuantity > 0.0
    ensures var open := EvaluateGate(side, currentQuantity, currentExposure, params).Open?;
      var documented := DocumentedGate(side, currentQuantity, orderQuantity, currentExposure, params);
      && (documented ==> open)
      && ((open <==> documented) <==>
            !(OtherwiseAllowed(side, currentExposure, params)
              && currentQuantity < params.maxPositionSize < currentQuantity + orderQuantity))
  {
  }

  /** Bit 0 of the permissions allows buying and bit 1 selling. */
  lemma PermissionBits(currentQuantity: real, currentExposure: real, params: EngineParams)
    requires !params.circuitBreaker
    requires currentQuantity < params.maxPositionSize && currentExposure < params.maxExposure
    ensures EvaluateGate(Buy, currentQuantity, currentExposure, params).Open? <==> params.permissions % 2 == 1
    ensures EvaluateGate(Sell, currentQuantity, currentExposure, params).Open? <==> params.permissions / 2 % 2 == 1
  {
    var n := params.permissions;
    assert BitAnd(n / 2, 0) == 0 && BitAnd(n / 2 / 2, 0) == 0;
    assert n != 0 ==> BitAnd(n, 1) == 2 * BitAnd(n / 2, 0) + n % 2;
    assert n != 0 ==> BitAnd(n, 2) == 2 * BitAnd(n / 2, 1);
    assert n / 2 != 0 ==> BitAnd(n / 2, 1) == 2 * BitAnd(n / 2 / 2, 0) + n / 2 % 2;
  }
}
