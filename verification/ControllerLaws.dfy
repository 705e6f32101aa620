/** What a controller's calls do, in figures (crates/ssm-engine/src/controller.rs). */
module ControllerLaws {
  import opened Domain
  import opened Gate
  import opened SeqLocks
  import opened CoreEngine
  import opened CashFlow
  import opened Controllers
  import opened ControllerRuns

  /** A symbol of more than 16 bytes is refused, else one that is registered; any other gets
      a core of its own, flat, with nothing earned, queued or seen, and the current
      parameters. */
  lemma AddCoreOutcome(v: View, symbol: Symbol)
    ensures var (r, v') := AddCoreTo(v, symbol);
      && (r == Refused(SymbolTooLong) <==> |symbol| > 16)
      && (r == Refused(AlreadyRegistered) <==> |symbol| <= 16 && Registered(v.cores, symbol))
      && (r.Refused? ==> v' == v)
      && (r.Added? ==>
            && r.index == |v.cores| && v' == v.(cores := v'.cores)
            && |v'.cores| == |v.cores| + 1 && v'.cores[..r.index] == v.cores
            && var c := v'.cores[r.index];
               && c.symbol == symbol == c.position.symbol && !c.position.IsOpen()
               && c.position.realizedPnl == c.position.unrealizedPnl == 0.0
               && c.cached == v.current && c.lastSeq == 0 && c.queue == [])
  {
  }

  /** A ring that was just created holds 4096 events and no more. */
  lemma RingHolds(c: CoreView, fill: Fill)
    ensures var c' := SignalCore(c, fill).1;
      && (|c.queue| >= 4096 ==> c'.queue == c.queue)
      && (|c.queue| < 4096 && SignalCore(c, fill).0 == Open ==> c'.queue == c.queue + [ApplyFill(c.position, fill).1])
  {
    hide ApplyFill, SignalGate;
  }

  /** The last price given for a symbol. */
  function LastPrice(prices: seq<(Symbol, real)>, symbol: Symbol): Option<real> {
    if prices == [] then None
    else if Last(prices).0 == symbol then Some(Last(prices).1)
    else LastPrice(Front(prices), symbol)
  }

  /** Nothing but the mark of the position differs, and that stands at `price`. */
  ghost predicate MarkedAt(before: CoreView, after: CoreView, price: real) {
    && after == before.(position := before.position.(unrealizedPnl := after.position.unrealizedPnl))
    && after.position.unrealizedPnl ==
         if before.position.IsOpen() then before.position.Signed() * (price - before.position.entryPrice)
         else before.position.unrealizedPnl
  }

  lemma MarkedCore(c: CoreView, price: real)
    ensures MarkedAt(c, c.(position := MarkToMarket(c.position, price)), price)
  {
    MarkedIsBookValue(c.position, price);
  }

  lemma MarkedAgain(a: CoreView, b: CoreView, c: CoreView, price: real, price': real)
    requires MarkedAt(a, b, price) && MarkedAt(b, c, price')
    ensures MarkedAt(a, c, price')
  {
  }

  lemma MarkOnMarks(v: View, symbol: Symbol, price: real, j: nat)
    requires j < |v.cores| && DistinctSymbols(v.cores)
    ensures var v' := MarkOn(v, symbol, price);
      && |v'.cores| == |v.cores| && (forall k :: 0 <= k < |v.cores| ==> v'.cores[k].symbol == v.cores[k].symbol)
      && (if v.cores[j].symbol == symbol then MarkedAt(v.cores[j], v'.cores[j], price)
          else v'.cores[j] == v.cores[j])
  {
    hide MarkToMarket, MarkedAt;
    MarkedCore(v.cores[j], price);
    if v.cores[j].symbol == symbol {
      var i := IndexOf(v.cores, symbol).value;
      assert i == j;
    }
  }

  /** Marking all leaves each core named by a price marked at its last price, and every other
      core as it was. */
  lemma {:induction false} MarkAllMarks(v: View, prices: seq<(Symbol, real)>, j: nat)
    requires j < |v.cores| && DistinctSymbols(v.cores)
    ensures var v', price := MarkAll(v, prices), LastPrice(prices, v.cores[j].symbol);
      && |v'.cores| == |v.cores| && (forall k :: 0 <= k < |v.cores| ==> v'.cores[k].symbol == v.cores[k].symbol)
      && (if price.Some? then MarkedAt(v.cores[j], v'.cores[j], price.value) else v'.cores[j] == v.cores[j])
  {
    hide MarkedAt, MarkOn;
    if prices != [] {
      MarkAllMarks(v, Front(prices), j);
      var before := MarkAll(v, Front(prices));
      MarkOnMarks(before, Last(prices).0, Last(prices).1, j);
      if Last(prices).0 == v.cores[j].symbol && LastPrice(Front(prices), v.cores[j].symbol).Some? {
        MarkedAgain(v.cores[j], before.cores[j], MarkAll(v, prices).cores[j],
                    LastPrice(Front(prices), v.cores[j].symbol).value, Last(prices).1);
      }
    }
  }

  /** A tick marks the core it names at its price; what it does to the parameters aside, no
      other core and nothing else changes. */
  lemma TickMarks(v: View, symbol: Symbol, price: real, j: nat)
    requires j < |v.cores| && DistinctSymbols(v.cores)
    ensures var v' := TickOn(v, symbol, price);
      && v' == v.(cores := v'.cores) && |v'.cores| == |v.cores|
      && (if v.cores[j].symbol == symbol
          then MarkedAt(v.cores[j], v'.cores[j].(cached := v.cores[j].cached, lastSeq := v.cores[j].lastSeq), price)
          else v'.cores[j] == v.cores[j])
  {
    hide MarkToMarket, MarkedAt, Refresh;
    MarkedCore(v.cores[j], price);
    if v.cores[j].symbol == symbol {
      var i := IndexOf(v.cores, symbol).value;
      assert i == j;
    }
  }
}
