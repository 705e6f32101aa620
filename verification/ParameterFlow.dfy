/** Which parameters gate a signal: those in force when the core was last ticked or was
    added (crates/ssm-engine/src/controller.rs:52-113, crates/ssm-engine/src/core.rs:46-101). */
module ParameterFlow {
  import opened MachineWords
  import opened Domain
  import opened Gate
  import opened SeqLocks
  import opened CoreEngine
  import opened Controllers
  import opened ControllerRuns

  /** How often parameters were published. */
  function Publications(calls: seq<Call>): nat {
    if calls == [] then 0 else Publications(Front(calls)) + (if Last(calls).Publishes() then 1 else 0)
  }

  /** The parameters in force when `symbol` was last ticked, or else added. */
  function LastSeen(params: EngineParams, calls: seq<Call>, symbol: Symbol): EngineParams {
    if calls == [] then params
    else
      var v, call := Play(params, Front(calls)).view, Last(calls);
      if call.Tick? && call.symbol == symbol then v.current
      else if call.AddCore? && call.symbol == symbol && IndexOf(v.cores, symbol).None? then v.current
      else LastSeen(params, Front(calls), symbol)
  }

  /** The publication that the last refreshing tick of `symbol` saw, 0 before there is one.
      A tick does not refresh when the sequence number is the remembered one, which it also
      is after every 2^63 publications. */
  function Refreshed(params: EngineParams, calls: seq<Call>, symbol: Symbol): nat {
    if calls == [] then 0
    else
      var before, call := Front(calls), Last(calls);
      if call.AddCore? && call.symbol == symbol && IndexOf(Play(params, before).view.cores, symbol).None? then 0
      else
        var r := Refreshed(params, before, symbol);
        if call.Tick? && call.symbol == symbol && (Publications(before) - r) % TWO_63 != 0
        then Publications(before) else r
  }

  /** Publications since the last refresh. */
  function Gap(params: EngineParams, calls: seq<Call>, symbol: Symbol): int {
    Publications(calls) - Refreshed(params, calls, symbol)
  }

  /** The last tick of `symbol` did not fall on a repeated sequence number. */
  predicate LastTickInWindow(params: EngineParams, calls: seq<Call>, symbol: Symbol) {
    if calls == [] then true
    else
      var before, call := Front(calls), Last(calls);
      if call.AddCore? && call.symbol == symbol && IndexOf(Play(params, before).view.cores, symbol).None? then true
      else if call.Tick? && call.symbol == symbol then InWindow(Gap(params, before, symbol))
      else LastTickInWindow(params, before, symbol)
  }

  predicate InWindow(gap: int) {
    gap == 0 || gap % TWO_63 != 0
  }

  lemma {:induction false} SequenceCountsPublications(params: EngineParams, calls: seq<Call>)
    ensures var v := Play(params, calls).view;
      v.sequence == (2 * Publications(calls)) % TWO_64 && v.published == v.current
  {
    hide SignalOn, TickOn, MarkAll, IndexOf;
    if calls != [] {
      SequenceCountsPublications(params, Front(calls));
      PlayStep(params, calls);
      CellStep(Play(params, Front(calls)).view, Last(calls));
      if Last(calls).Publishes() {
        WrappedIncrement(2 * Publications(Front(calls)), 2);
      }
    }
  }

  lemma {:induction false} MarkKeepsCell(v: View, prices: seq<(Symbol, real)>)
    ensures var v' := MarkAll(v, prices);
      v'.sequence == v.sequence && v'.published == v.published && v'.current == v.current
      && |v'.cores| == |v.cores|
      && forall j :: 0 <= j < |v.cores| ==>
           v'.cores[j].symbol == v.cores[j].symbol
           && v'.cores[j].cached == v.cores[j].cached && v'.cores[j].lastSeq == v.cores[j].lastSeq
  {
    hide IndexOf;
    if prices != [] {
      MarkKeepsCell(v, Front(prices));
    }
  }

  /** Only publishing calls touch the cell. */
  lemma CellStep(v: View, call: Call)
    ensures var v' := Do(v, call);
      if call.Publishes() then
        v'.sequence == WrappingAdd(v.sequence, 2) && v'.published == v'.current && v'.cores == v.cores
      else
        v'.sequence == v.sequence && v'.published == v.published && v'.current == v.current
  {
    hide IndexOf, SignalCore, TickCore;
    if call.MarkToMarketAll? {
      MarkKeepsCell(v, call.prices);
    }
  }

  /** What a call does to the cache of a core that was there before it. */
  lemma CacheStep(v: View, call: Call, j: nat)
    requires j < |v.cores| && DistinctSymbols(v.cores)
    ensures var v' := Do(v, call);
      && j < |v'.cores| && v'.cores[j].symbol == v.cores[j].symbol
      && var c, c' := v.cores[j], v'.cores[j];
         if call.Tick? && call.symbol == c.symbol then
           var r := Refresh(v.sequence, v.published, c.lastSeq, c.cached);
           c'.lastSeq == r.1 && c'.cached == r.2
         else
           c'.lastSeq == c.lastSeq && c'.cached == c.cached
  {
    hide MarkToMarket;
    match call
    case Tick(symbol, _) =>
      if v.cores[j].symbol == symbol {
        var i := IndexOf(v.cores, symbol).value;
        assert i == j;
      }
    case Signal(_, _) =>
      if Executed(v, call).Some? {
        ExecutedCore(v, call);
      }
    case MarkToMarketAll(prices) => MarkKeepsCell(v, prices);
    case _ =>
  }

  /** What a core remembers: the wrapped sequence number of the publication it last
      refreshed from, and the parameters of its last tick, or those it was added with. */
  ghost predicate CacheAgrees(params: EngineParams, calls: seq<Call>, c: CoreView) {
    && 0 <= Gap(params, calls, c.symbol)
    && c.lastSeq == (2 * Refreshed(params, calls, c.symbol)) % TWO_64
    && (Gap(params, calls, c.symbol) == 0 ==> c.cached == Play(params, calls).view.current)
    && (LastTickInWindow(params, calls, c.symbol) ==> c.cached == LastSeen(params, calls, c.symbol))
  }

  lemma SequenceShowsGap(refreshed: nat, published: nat)
    requires refreshed <= published
    ensures (2 * refreshed) % TWO_64 == (2 * published) % TWO_64 <==> (published - refreshed) % TWO_63 == 0
  {
  }

  lemma {:induction false} TickKeepsAgreement(params: EngineParams, calls: seq<Call>, c: CoreView, c': CoreView)
    requires calls != [] && Last(calls).Tick? && Last(calls).symbol == c.symbol == c'.symbol
    requires CacheAgrees(params, Front(calls), c)
    requires var v := Play(params, Front(calls)).view;
      var r := Refresh(v.sequence, v.published, c.lastSeq, c.cached);
      c'.lastSeq == r.1 && c'.cached == r.2
    ensures CacheAgrees(params, calls, c')
  {
    hide Do, Account;
    var before := Front(calls);
    PlayStep(params, calls);
    CellStep(Play(params, before).view, Last(calls));
    SequenceCountsPublications(params, before);
    SequenceShowsGap(Refreshed(params, before, c.symbol), Publications(before));
  }

  lemma {:induction false} OtherCallKeepsAgreement(params: EngineParams, calls: seq<Call>, c: CoreView, c': CoreView)
    requires calls != [] && !(Last(calls).Tick? && Last(calls).symbol == c.symbol) && c'.symbol == c.symbol
    requires Last(calls).AddCore? ==> IndexOf(Play(params, Front(calls)).view.cores, c.symbol).Some?
    requires CacheAgrees(params, Front(calls), c) && c'.lastSeq == c.lastSeq && c'.cached == c.cached
    ensures CacheAgrees(params, calls, c')
  {
    hide Do, Account, IndexOf;
    PlayStep(params, calls);
    CellStep(Play(params, Front(calls)).view, Last(calls));
  }

  lemma {:induction false} NewCoreAgrees(params: EngineParams, calls: seq<Call>)
    requires calls != [] && Last(calls).AddCore?
    requires var v := Play(params, Front(calls)).view;
      !Registered(v.cores, Last(calls).symbol) && v.published == v.current
    ensures CacheAgrees(params, calls, NewCore(Last(calls).symbol, Play(params, Front(calls)).view.current))
  {
    hide Do, Account;
    PlayStep(params, calls);
    CellStep(Play(params, Front(calls)).view, Last(calls));
  }

  lemma {:induction false} CachesAgree(params: EngineParams, calls: seq<Call>, j: nat)
    requires j < |Play(params, calls).view.cores|
    ensures CacheAgrees(params, calls, Play(params, calls).view.cores[j])
  {
    hide Do, Inv, Account, CacheAgrees, IndexOf;
    if calls != [] {
      var before, call := Front(calls), Last(calls);
      var v := Play(params, before).view;
      PlayStep(params, calls);
      RunInv(params, before);
      CoresAreDistinct(Play(params, before));
      CoresGrow(v, call);
      if j < |v.cores| {
        CachesAgree(params, before, j);
        CacheStep(v, call, j);
        StillRegistered(v, j);
        var c, c' := v.cores[j], Play(params, calls).view.cores[j];
        if call.Tick? && call.symbol == c.symbol {
          TickKeepsAgreement(params, calls, c, c');
        } else {
          OtherCallKeepsAgreement(params, calls, c, c');
        }
      } else {
        SequenceCountsPublications(params, before);
        NewCoreAgrees(params, calls);
      }
    }
  }

  lemma StillRegistered(v: View, j: nat)
    requires j < |v.cores|
    ensures IndexOf(v.cores, v.cores[j].symbol).Some?
  {
  }

  /** A core's cache holds the parameters in force at its last tick, or when it was added,
      provided that tick was not exactly a multiple of 2^63 publications after a refresh. */
  lemma {:induction false} CachedIsLastSeen(params: EngineParams, calls: seq<Call>, j: nat)
    requires j < |Play(params, calls).view.cores|
    requires LastTickInWindow(params, calls, Play(params, calls).view.cores[j].symbol)
    ensures var c := Play(params, calls).view.cores[j];
      c.cached == LastSeen(params, calls, c.symbol)
  {
    hide Play, LastSeen, LastTickInWindow;
    CachesAgree(params, calls, j);
  }

  /** After a tick the core works with the current parameters, unless 2^63 publications or
      a multiple of that went by since its last refresh: then it keeps what it had. */
  lemma {:induction false} TickedCoreIsCurrent(params: EngineParams, calls: seq<Call>, j: nat)
    requires calls != [] && Last(calls).Tick?
    requires j < |Play(params, Front(calls)).view.cores|
    requires Play(params, Front(calls)).view.cores[j].symbol == Last(calls).symbol
    ensures var v, v' := Play(params, Front(calls)).view, Play(params, calls).view;
      && j < |v'.cores|
      && v'.cores[j].cached ==
           if InWindow(Gap(params, Front(calls), Last(calls).symbol)) then v'.current else v.cores[j].cached
  {
    hide Do, Account, Inv, IndexOf;
    var before := Front(calls);
    var v := Play(params, before).view;
    PlayStep(params, calls);
    RunInv(params, before);
    CoresAreDistinct(Play(params, before));
    CacheStep(v, Last(calls), j);
    CellStep(v, Last(calls));
    CachesAgree(params, before, j);
    SequenceCountsPublications(params, before);
    SequenceShowsGap(Refreshed(params, before, Last(calls).symbol), Publications(before));
  }

  /** Fewer than 2^63 publications since the last refresh are always in the window, and so
      is every tick of a run with fewer than 2^63 publications in all. */
  lemma {:induction false} ShortRunsStayInWindow(params: EngineParams, calls: seq<Call>, symbol: Symbol)
    ensures 0 <= Gap(params, calls, symbol) <= Publications(calls)
    ensures Gap(params, calls, symbol) < TWO_63 ==> InWindow(Gap(params, calls, symbol))
    ensures Publications(calls) < TWO_63 ==> LastTickInWindow(params, calls, symbol)
  {
    hide Play, IndexOf;
    if calls != [] {
      ShortRunsStayInWindow(params, Front(calls), symbol);
    }
  }

  /** A signal is gated by the parameters of its core's last tick, whatever was published
      since: an order that does not reduce is executed exactly when they allow it. */
  lemma {:induction false} SignalUsesLastSeen(params: EngineParams, calls: seq<Call>, call: Call, j: nat)
    requires call.Signal? && LastTickInWindow(params, calls, call.symbol)
    requires j < |Play(params, calls).view.cores| && Play(params, calls).view.cores[j].symbol == call.symbol
    ensures var v := Play(params, calls).view;
      var (p, seen, side) := (v.cores[j].position, LastSeen(params, calls, call.symbol), call.fill.side);
      && SignalOn(v, call.symbol, call.fill).0 == Some(SignalGate(p, seen, side))
      && (!(p.IsOpen() && p.side != side) ==>
            (Executed(v, call).Some? <==>
              && BitAnd(seen.permissions, if side == Buy then BUY_ALLOWED else SELL_ALLOWED) != 0
              && !seen.circuitBreaker
              && p.quantity < seen.maxPositionSize
              && p.quantity * p.entryPrice < seen.maxExposure))
  {
    hide Play, LastSeen, LastTickInWindow;
    RunInv(params, calls);
    CoresAreDistinct(Play(params, calls));
    CachedIsLastSeen(params, calls, j);
    var v := Play(params, calls).view;
    assert IndexOf(v.cores, call.symbol).value == j;
  }

  lemma {:induction false} OnlyCore(c: CoreView)
    ensures IndexOf([c], c.symbol) == Some(0)
  {
    assert Front([c]) == [];
  }

  lemma {:induction false} BreakerPublished(params: EngineParams, symbol: Symbol)
    requires |symbol| <= MAX_SYMBOL_LENGTH
    ensures var tripped := params.(circuitBreaker := true);
      Play(params, [AddCore(symbol), SetCircuitBreaker(true)]).view ==
        View([NewCore(symbol, params)], 2, tripped, tripped)
  {
    var calls := [AddCore(symbol), SetCircuitBreaker(true)];
    assert Front(calls) == [AddCore(symbol)] && Front([AddCore(symbol)]) == [];
    PlayStep(params, [AddCore(symbol)]);
    PlayStep(params, calls);
  }

  lemma SignalOnOnlyCore(v: View, c: CoreView, fill: Fill)
    requires v.cores == [c]
    ensures SignalOn(v, c.symbol, fill).0 == Some(SignalGate(c.position, c.cached, fill.side))
  {
    hide SignalGate, ApplyFill;
    OnlyCore(c);
  }

  /** So a circuit breaker set after the last tick does not stop the next order. */
  lemma {:induction false} BreakerWaitsForTick(params: EngineParams, symbol: Symbol, fill: Fill)
    requires |symbol| <= MAX_SYMBOL_LENGTH
    requires SignalGate(Empty(symbol), params, fill.side) == Open
    ensures var v := Play(params, [AddCore(symbol), SetCircuitBreaker(true)]).view;
      && v.current.circuitBreaker
      && SignalOn(v, symbol, fill).0 == Some(Open)
      && SignalOn(TickOn(v, symbol, fill.price), symbol, fill).0 == Some(Blocked)
  {
    hide Play, SignalOn;
    BreakerPublished(params, symbol);
    var v := Play(params, [AddCore(symbol), SetCircuitBreaker(true)]).view;
    var c := NewCore(symbol, params);
    OnlyCore(c);
    SignalOnOnlyCore(v, c, fill);
    var ticked := TickOn(v, symbol, fill.price);
    assert ticked.cores == [TickCore(c, 2, v.published, fill.price)];
    SignalOnOnlyCore(ticked, TickCore(c, 2, v.published, fill.price), fill);
  }
}
