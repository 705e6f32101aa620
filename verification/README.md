# Verified model of a trading engine

This project models the hot path, the execution layer, the candle pipeline and the
reinforcement-learning episode of a trading engine in Dafny, and proves what they keep over every
input, every run and every interleaving. `dafny verify dfyconfig.toml` checks all of it.

## How it is organised

- **Machine words and shared types** — `MachineWords` (wrapping 64-bit arithmetic, masks, truncating
  division) and `Domain` (sides, candles, trades).
- **Lock-free structures** — `Spsc` and `SeqLocks` are the ring buffer and the versioned cell as one
  thread sees them, as classes over an array and fields. `SpscProtocol` and `SeqLockProtocol` with
  `SeqLockCalls` are the same calls under several threads: one atomic load, one atomic store or the
  copy of one machine word is one step, a schedule picks who moves, and a lemma about every schedule
  is a lemma about every sequentially consistent interleaving.
- **The core and its controller** — `Gate` with `GateLimit`, `CoreEngine` (one position, opened,
  increased, reduced, closed, flipped), `Controllers` (many cores with their rings behind one
  controller), then the theorems about them: `FillEvents` (what one fill does and reports),
  `CashFlow` (money of a fill sequence), `ControllerLaws` (each call in figures), `ControllerRuns`
  (events through the lossy rings), `ParameterFlow` (which parameters gate a signal) and
  `ControllerCash` (from signals to drained events).
- **Execution** — `PositionTracker` with `TrackerRefinement` (the map of positions and the core
  mirror each other), `Risk` with `RiskComposition` (limits through fills), `Kelly`, `Backtest` with
  `BacktestAccounting` (money, disjoint trades, causality), `BacktestFigures` (all amounts),
  `BacktestFunding` (what can be known before a run), `BacktestTrades` (signals, prices,
  percentages) and `Drawdown`.
- **Candles** — `Candles` (bucket and chunk resampling), `FloorBuckets` (against the documented
  division), `Alignment` (when nothing repaints), `Aggregator` with `AggregatorLaws` (trades to
  candles).
- **Learning** — `TradingEnv` (episodes), `EpisodeMoney` (amounts and readings), `EpisodeLaws` (no
  look-ahead, invalid actions, costs) and `Advantage` (backward recursions).

An operation that changes state is a class method or a loop whose `ensures` ties the new state to a
specification function; the theorems are lemmas about those functions over whole runs.

Modelling choices: `Decimal` and `f64` amounts are exact reals, except that `CashFlow` bounds the
drift caused by rounding the one division of the hot path. Timestamps are integers handed in by the
caller. Engine, tracker and controller take orders of any quantity; the theorems about money,
exposure and mirroring are about positive ones. The prices of a backtest are positive. A strategy is
a function of the candles it has been shown; a stateful but deterministic strategy is one too,
because it is shown a growing prefix. The windows of 2^63 publications and of 64-bit counters are
explicit: indices and sequence numbers wrap, and a bound appears where wrapping matters.

## Where the code is not what it promises

For each promise there is an input on which it fails and the exact condition under which it holds.

- `read_if_changed` (crates/ssm-engine/src/seqlock.rs:110-122) reloads the sequence after its read.
  A write that completes in between makes the next answer `false` with an old value in the cache:
  `SeqLockProtocol.StaleCacheTrace`, exact lag in `SeqLockProtocol.UnchangedLag`.
- A circuit breaker set through the controller does not stop a core until that core is ticked:
  `ParameterFlow.BreakerWaitsForTick`, exact gate in `ParameterFlow.SignalUsesLastSeen`.
- The gate is documented as `current_quantity + order_quantity <= max_position_size`; the code tests
  `current_quantity < max_position_size` (crates/ssm-engine/src/gate.rs:57-81). An order that starts
  below the maximum may end above it: `GateLimit.OrderPassesSizeLimit`, exact in
  `Gate.GateMeetsDocumentIff`.
- The per-symbol size limit of the risk manager can be passed by an order against the position:
  `RiskComposition.OversizedFlipExample`, exact in `RiskComposition.SizeLimitIffNoOversizedFlip`.
- Bucket resampling is documented as floor division (crates/ssm-ai/src/multi_timeframe.rs:66-69) but
  truncates toward zero, which makes bucket 0 reach from minus to plus one interval
  (`FloorBuckets.BucketWidths`): `FloorBuckets.NegativeTimeJoinsBuckets`, exact in
  `FloorBuckets.TruncatesToFloorIff` for one time and in `FloorBuckets.ResampleIsFloorIff` for a
  series.
- For the same reason chunk and bucket resampling part before time 0:
  `Candles.NegativeStartExample`, exact in `Candles.ChunkResampleIffNonNegative`.
- Funding leaves a backtest's balance twice, when it falls due and again at the close, so recorded
  fees do not explain the balance: `BacktestFunding.FundingPaidTwiceExample`. Exact for one run in
  `BacktestAccounting.FeesExplainBalanceIffNoFunding`, and for all strategies, by a check made
  before the run, in `BacktestFunding.EveryStrategyExplainedIff`.
- The alignment returns a bucket number as a row number, while feature extraction keeps rows for the
  last `cvd_window` buckets only (crates/ssm-ai/src/features.rs:85-86). With more buckets than rows
  the row found is of a bucket that had not closed, and it changes as candles arrive:
  `Alignment.RowRepaintsExample`, exact in `Alignment.RowIsSettledIff`. The bucket number itself
  never repaints (`Alignment.NoRepainting`).
- A base candle that closes no later than it opens is shown its own forming bucket:
  `Alignment.OwnBucketExample`, exact in `Alignment.OwnBucketIffNoLength`.

## Model

| member | source | states |
|---|---|---|
| Spsc.NextPowerOfTwo | crates/ssm-engine/src/spsc.rs:60 | the least exponent whose power of two reaches the requested capacity |
| Spsc.RingBuffer.constructor | crates/ssm-engine/src/spsc.rs:58-70 | an empty ring of at least the requested capacity and less than twice it; exactly 4096 for 4096 |
| Spsc.RingBuffer.Push | crates/ssm-engine/src/spsc.rs:79-99 | appends to the queue in the ring, or hands the value back when the ring is full |
| Spsc.RingBuffer.Pop | crates/ssm-engine/src/spsc.rs:108-128 | takes the oldest value of the queue, or nothing when it is empty |
| Spsc.RingBuffer.Drop | crates/ssm-engine/src/spsc.rs:150-155 | destroys exactly the values still queued, oldest first |
| Spsc.RingBuffer.Len | crates/ssm-engine/src/spsc.rs:133-137 | the wrapped index difference is the number of queued values |
| Spsc.SlotsAfterPush | crates/ssm-engine/src/spsc.rs:87-98 | the slot of the next number is free, and writing it extends the queue stored in the slots |
| Spsc.SlotsAfterPop | crates/ssm-engine/src/spsc.rs:116-127 | the slot of the oldest number holds the oldest value, and clearing it leaves the rest stored |
| MachineWords.MaskedCounter | crates/ssm-engine/src/spsc.rs:87 | masking a counter kept modulo 2^64 gives the unbounded counter modulo the capacity |
| SpscProtocol.AcceptedIsTakenPlusRing | crates/ssm-engine/src/spsc.rs:79-128 | in every interleaving, accepted pushes are the values popped so far followed by the ring's content |
| SpscProtocol.EffectsAreAQueueHistory | crates/ssm-engine/src/spsc.rs:79-128 | every effect is what a bounded queue answers at that instant: a push fails only on a full queue, a pop only on an empty one |
| SpscProtocol.EachCallTakesEffectOnce | crates/ssm-engine/src/spsc.rs:79-128 | every call has one effect between its call and its return, with the same value and answer (linearizability) |
| SpscProtocol.SlotsAreExclusive | crates/ssm-engine/src/spsc.rs:80-126 | a write and a read in progress name different slots, no uninitialised word is read, no live one overwritten, wrapped head minus tail is the number in flight and at most the capacity |
| SpscProtocol.DropConsumesRemainder | crates/ssm-engine/src/spsc.rs:150-155 | after any interleaving, dropping pops exactly the accepted values not yet popped and leaves all slots blank |
| SeqLocks.SeqLock.Write | crates/ssm-engine/src/seqlock.rs:54-70 | the value is published and the sequence moves on by two, wrapping |
| SeqLocks.SeqLock.Read | crates/ssm-engine/src/seqlock.rs:76-98 | with no write in progress the published value is returned |
| SeqLocks.SeqLock.ReadIfChanged | crates/ssm-engine/src/seqlock.rs:110-122 | reports and refreshes exactly when the remembered sequence differs; a coherent cache is current afterwards |
| SeqLocks.UnchangedMeansCurrent | crates/ssm-engine/src/seqlock.rs:110-122 | for serialised calls the cache is current afterwards and `false` means no write happened, for fewer than 2^63 writes since the last refresh |
| SeqLocks.SequenceRepeats | crates/ssm-engine/src/seqlock.rs:110-115 | after exactly 2^63 writes the sequence repeats and any cache is kept: the bound is exact |
| SeqLockProtocol.ReadsReturnWholeVersions | crates/ssm-engine/src/seqlock.rs:54-98 | with a value copied word by word, a read returns one whole version, current at an instant between its call and its return |
| SeqLockProtocol.ReadsNeverGoBack | crates/ssm-engine/src/seqlock.rs:76-98 | one reader's versions never go backwards |
| SeqLockProtocol.CacheNeverOutrunsSequence | crates/ssm-engine/src/seqlock.rs:110-122 | a refreshed cache is a whole version and never newer than the remembered sequence |
| SeqLockProtocol.UnchangedLag | crates/ssm-engine/src/seqlock.rs:110-122 | a `false` answer is behind by exactly the writes that completed between validation and reload; current if and only if there were none |
| SeqLockProtocol.StaleCacheTrace | crates/ssm-engine/src/seqlock.rs:118-120 | a concrete schedule in which `false` leaves an overwritten value in the cache |
| SeqLockCalls.ReadEndsLogged | crates/ssm-engine/src/seqlock.rs:76-98 | in every interleaving a finished `read` completed exactly one read, called when it was, and changed nothing else |
| SeqLockCalls.RefreshHitsOrReads | crates/ssm-engine/src/seqlock.rs:110-122 | in every interleaving a finished `read_if_changed` either found the remembered sequence and changed nothing, or found another, made exactly one read after that, cached its value and remembered a sequence loaded later; never both |
| SeqLockCalls.QuietRefreshIsCurrent | crates/ssm-engine/src/seqlock.rs:110-122 | with the writer at rest a finished `read_if_changed` remembers the published sequence and, unless it already did, caches the published value |
| SeqLockCalls.SoloRefreshFinishes | crates/ssm-engine/src/seqlock.rs:76-122 | with the writer at rest a changed sequence is read, cached and remembered in as many steps as the value has words and four |
| SeqLockCalls.SoloReadFinishes | crates/ssm-engine/src/seqlock.rs:76-98 | with the writer at rest a `read` returns the published value in as many steps as it has words and two |
| SeqLockCalls.WriteEndsPublished | crates/ssm-engine/src/seqlock.rs:54-70 | in every interleaving a finished `write` published its value, whole and nothing else, and moved the sequence on by two |
| Gate.EvaluateGate | crates/ssm-engine/src/gate.rs:68-115 | the product of bits is positive exactly when all four conditions hold |
| Gate.PermissionBits | crates/ssm-engine/src/gate.rs:68-99 | when nothing else blocks, bit 0 of the permissions opens the gate for buys and bit 1 for sells |
| Gate.GateMeetsDocumentIff | crates/ssm-engine/src/gate.rs:57-81 | the code's gate is the documented one except exactly for an otherwise allowed order that starts below the maximum and ends above it |
| GateLimit.ExecutedOrderSize | crates/ssm-engine/src/core.rs:77-98 | an executed order that does not reduce leaves less than the maximum plus itself, and more than the maximum exactly when the documented gate refuses it |
| GateLimit.OrderPassesSizeLimit | crates/ssm-engine/src/gate.rs:57-81 | a core holding 9 at a maximum of 10 executes an order of 5 and holds 14 |
| CoreEngine.Core.constructor | crates/ssm-engine/src/core.rs:32-39 | a flat core with the given parameters and sequence 0 |
| CoreEngine.Core.OnTick | crates/ssm-engine/src/core.rs:46-59 | marks the position and leaves a coherent cache equal to the published parameters |
| CoreEngine.Core.OnSignal | crates/ssm-engine/src/core.rs:69-101 | a blocked signal changes nothing; an open one applies the fill and offers its event to the ring, which may lose it |
| CoreEngine.Core.Apply | crates/ssm-engine/src/core.rs:107-203 | position and event of the open, add, reduce, close and flip cases |
| CoreEngine.Core.MarkPosition | crates/ssm-engine/src/core.rs:207-215 | only the unrealized profit of an open position changes |
| FillEvents.EventNamesFill | crates/ssm-engine/src/core.rs:103-203 | for every fill the event has its side, price and time and the core's symbol, and each kind is given exactly for opening, adding, partly and fully closing fills |
| FillEvents.OpeningFill | crates/ssm-engine/src/core.rs:114-130 | from flat the whole fill is opened at its price and time and nothing is realized |
| FillEvents.AddingFill | crates/ssm-engine/src/core.rs:132-148 | the whole fill is added at its own cost, nothing is realized, opening time and mark stay |
| FillEvents.ClosingFill | crates/ssm-engine/src/core.rs:150-202 | the event carries the quantity closed: what is left, what is opened on the other side and the realized profit all follow from it |
| CashFlow.MarkedIsBookValue | crates/ssm-engine/src/core.rs:207-215 | a mark is the signed quantity times the move since entry, and nothing else changes |
| CashFlow.MarkedProfitIsCash | crates/ssm-engine/src/core.rs:107-215 | marked at any price, realized and unrealized profit together are what all fills earned |
| CashFlow.FillMovesBook | crates/ssm-engine/src/core.rs:107-203 | one fill moves realized profit plus marked holding by the fill's own worth, less the rounding of the average entry |
| CashFlow.CashIsConserved | crates/ssm-engine/src/core.rs:107-203 | for every mark price, realized profit plus marked holding is the worth of all fills, and signed quantities add up |
| CashFlow.RoundingDriftIsBounded | crates/ssm-engine/src/core.rs:134-138 | with each average entry off by at most epsilon the identity drifts by at most epsilon times the post-add quantities |
| CashFlow.EntryWithinFillPrices | crates/ssm-engine/src/core.rs:114-178 | an open position's entry lies between the lowest and highest price filled since it was opened or flipped |
| Controllers.CoreSlot.constructor | crates/ssm-engine/src/controller.rs:60-64 | a new core is flat, has the current parameters, sequence 0 and an empty ring of its own |
| Controllers.CoreSlot.Tick | crates/ssm-engine/src/controller.rs:91-93 | the slot's engine is ticked with the shared cell and its ring is left alone |
| Controllers.CoreSlot.Signal | crates/ssm-engine/src/controller.rs:109-112 | the slot's engine handles the signal with the slot's own ring |
| Controllers.CoreSlot.DrainInto | crates/ssm-engine/src/controller.rs:125-127 | popping until empty appends exactly the slot's queue |
| Controllers.Controller.constructor | crates/ssm-engine/src/controller.rs:40-46 | no cores, the given parameters published at sequence 0 |
| Controllers.Controller.Find | crates/ssm-engine/src/controller.rs:91 | the first core of a symbol, if there is one |
| Controllers.Controller.AddCore | crates/ssm-engine/src/controller.rs:52-66 | refuses long and known symbols and changes nothing then; else appends a flat core with the current parameters |
| Controllers.Controller.UpdateParams | crates/ssm-engine/src/controller.rs:69-72 | current and published parameters are the new ones, cores untouched |
| Controllers.Controller.SetCircuitBreaker | crates/ssm-engine/src/controller.rs:75-78 | publishes the current parameters with only the breaker changed |
| Controllers.Controller.SetPermissions | crates/ssm-engine/src/controller.rs:81-84 | publishes the current parameters with only the permissions changed |
| Controllers.Controller.Tick | crates/ssm-engine/src/controller.rs:90-94 | ticks the core of the symbol and no other, and nothing for an unknown symbol |
| Controllers.Controller.Signal | crates/ssm-engine/src/controller.rs:100-113 | `None` for an unknown symbol, else the gate result, with only that core changed |
| Controllers.Controller.DrainEventsInto | crates/ssm-engine/src/controller.rs:123-129 | appends every core's queue in core order and leaves all rings empty, nothing else changed |
| Controllers.Controller.MarkToMarketAll | crates/ssm-engine/src/controller.rs:132-138 | marks the named cores one price after the other |
| ControllerLaws.AddCoreOutcome | crates/ssm-engine/src/controller.rs:52-66 | refused exactly for more than 16 bytes or a registered symbol; else a flat core with the current parameters is appended |
| ControllerLaws.RingHolds | crates/ssm-engine/src/controller.rs:10 | an executed signal is queued while the ring holds fewer than 4096 events and lost after that |
| ControllerLaws.TickMarks | crates/ssm-engine/src/controller.rs:90-94 | a tick marks the core it names at its price and leaves every other core as it was |
| ControllerLaws.MarkAllMarks | crates/ssm-engine/src/controller.rs:132-138 | each core named ends marked at its last price, every other core as it was |
| ControllerRuns.EventsAreConserved | crates/ssm-engine/src/core.rs:69-101 | after every run, per core: enqueued events are drained then queued ones in order, and drained, queued and lost profit add up to the realized profit |
| ControllerRuns.ControllerConserves | crates/ssm-engine/src/controller.rs:90-129 | over all cores, drained plus queued plus lost profit is the total realized profit |
| ControllerRuns.DrainCollectsAll | crates/ssm-engine/src/controller.rs:123-129 | right after a drain nothing is queued and the shortfall is exactly what full rings lost |
| ControllerRuns.QueueLength | crates/ssm-engine/src/controller.rs:10 | a ring holds the signals executed since the last drain, up to 4096 |
| ControllerRuns.NothingDroppedIff | crates/ssm-engine/src/core.rs:95-97 | no event is ever lost if and only if no symbol executes more than 4096 signals between drains |
| ControllerRuns.DrainedIsRealized | crates/ssm-engine/src/controller.rs:123-129 | within that bound, after a drain the drained profit is the realized profit, in total and per symbol, in emission order |
| ControllerRuns.OtherCoresUntouched | crates/ssm-engine/src/controller.rs:90-129 | ticks and signals leave other symbols' cores as they were; a drain takes only queues |
| ControllerRuns.FillBooksItsEvent | crates/ssm-engine/src/core.rs:156-202 | the event of a fill carries its core's symbol and exactly the profit that the fill realizes |
| ControllerCash.CoreCashIsConserved | crates/ssm-engine/src/core.rs:69-203 | through ticks, publications and drains, a core's realized profit and marked holding are the worth of its executed orders |
| ControllerCash.DrainedIsEarned | crates/ssm-engine/src/controller.rs:90-129 | for a flat core with no ring overrun, the drained events report what its executed orders took in less what they paid |
| ParameterFlow.SequenceCountsPublications | crates/ssm-engine/src/controller.rs:69-84 | the cell holds the current parameters, its sequence is twice the number of publications modulo 2^64 |
| ParameterFlow.CachedIsLastSeen | crates/ssm-engine/src/core.rs:46-53 | a core's cache holds the parameters in force at its last tick or when it was added, unless that tick fell on a repeated sequence number |
| ParameterFlow.TickedCoreIsCurrent | crates/ssm-engine/src/controller.rs:86-94 | in every run, after a tick the cached parameters are the current ones, unless a nonzero multiple of 2^63 publications went by since the last refresh: then they are kept |
| ParameterFlow.ShortRunsStayInWindow | crates/ssm-engine/src/seqlock.rs:110-115 | fewer than 2^63 publications since the last refresh, or in the whole run, never meet that exception |
| ParameterFlow.SignalUsesLastSeen | crates/ssm-engine/src/core.rs:77-93 | an order that does not reduce is executed exactly when the parameters of the last tick allow it |
| ParameterFlow.BreakerWaitsForTick | crates/ssm-engine/src/controller.rs:74-78 | a breaker set since the last tick lets the next order through, and stops it after a tick |
| PositionTracker.Tracker.ApplyFill | crates/ssm-execution/src/position_tracker.rs:36-115 | the map and the closed symbols after a fill: insert, average, reduce, remove, replace by the remainder |
| PositionTracker.Tracker.MarkToMarket | crates/ssm-execution/src/position_tracker.rs:118-127 | positions with a price are marked, the others kept, whatever the order of the visit |
| TrackerRefinement.FillMirrors | crates/ssm-execution/src/position_tracker.rs:36-115 | one fill keeps tracker and core equal and reports a close on both sides alike |
| TrackerRefinement.OtherFillMirrors | crates/ssm-execution/src/position_tracker.rs:36-115 | a fill of another symbol does not disturb the correspondence |
| TrackerRefinement.TrackerMirrorsCores | crates/ssm-engine/src/core.rs:105-203 | after any common fills and marks the tracker holds a symbol iff its core is open, with equal side, quantity, entry and marks; realized profits differ by the core's value at its last full close; closed symbols are those whose core reported a close |
| Risk.Check | crates/ssm-execution/src/risk.rs:216-266 | approved exactly when the breaker is off and the count, size and exposure limits hold |
| Risk.ReasonIsFirstBroken | crates/ssm-execution/src/risk.rs:222-263 | each rejection is given exactly when its own limit is broken and none checked before it is |
| Risk.ExposureInFigures | crates/ssm-execution/src/risk.rs:255-256 | total exposure adds up quantity times entry price |
| Risk.RiskManager.CheckOrder | crates/ssm-execution/src/risk.rs:216-266 | the first limit the order breaks, in the code's order of checks |
| Risk.RiskManager.UpdateEquity | crates/ssm-execution/src/risk.rs:188-206 | peak and breaker after one equity reading |
| Risk.RiskManager.ResetBreaker | crates/ssm-execution/src/risk.rs:209-213 | breaker off and the peak restarted |
| Risk.SumExposure | crates/ssm-execution/src/risk.rs:255-256 | visiting the positions in any order adds up the same total exposure |
| Risk.PeakIsMaximum | crates/ssm-execution/src/risk.rs:188-191 | the tracked peak is the highest equity since the last reset |
| Risk.LastUpdateTrips | crates/ssm-execution/src/risk.rs:193-204 | an update trips the breaker exactly when it falls to (1 - limit) of some earlier positive equity |
| Risk.BreakerIffBreach | crates/ssm-execution/src/risk.rs:188-213 | the breaker is active iff some update since the reset breached some earlier equity |
| RiskComposition.FillExposure | crates/ssm-execution/src/position_tracker.rs:36-115 | a fill of any kind raises total exposure by at most its own value |
| RiskComposition.PortfolioLimitsHold | crates/ssm-execution/src/risk.rs:216-266 | approved orders filled at the checked price keep total exposure and the number of symbols within their limits in every run |
| RiskComposition.StepSizes | crates/ssm-execution/src/risk.rs:236-252 | one order keeps all sizes within the limit exactly when it is not an oversized flip |
| RiskComposition.SizeLimitIffNoOversizedFlip | crates/ssm-execution/src/risk.rs:236-252 | sizes stay within the limit all along a run iff no order exceeds an opposite position by more than the limit |
| RiskComposition.OversizedFlipExample | crates/ssm-execution/src/risk.rs:236-252 | long 10 at a limit of 10, an approved sale of 25 ends short 15 |
| Kelly.FromTrades | crates/ssm-execution/src/risk.rs:58-102 | the accumulating loop computes counts, win rate and average win and loss of the history |
| Kelly.CountsAndTotals | crates/ssm-execution/src/risk.rs:58-102 | wins less losses is the total profit; a side is counted exactly when it has a positive total |
| Kelly.StatsAreMeans | crates/ssm-execution/src/risk.rs:58-102 | win rate and averages are the means over the positions that won and lost, counted as sets |
| Kelly.KellyFractionValue | crates/ssm-execution/src/risk.rs:108-126 | the fraction is the win rate less the losing rate over the odds, 999 to 1 without a loss, floored at 0 |
| Kelly.KellyFractionMeansEdge | crates/ssm-execution/src/risk.rs:108-126 | the fraction lies between 0 and the win rate and is positive exactly when expected wins exceed expected losses |
| Backtest.FundingEveryEightHours | crates/ssm-execution/src/backtest.rs:159-167 | the funding interval is the number of whole candles that fit into eight hours, at least one |
| Backtest.BacktestEngine.Run | crates/ssm-execution/src/backtest.rs:138-419 | the loop over local balance, position, trades and drawdown computes the result of the specified run, forced close included |
| Backtest.BacktestEngine.TradeOn | crates/ssm-execution/src/backtest.rs:195-287 | enter only when flat, exit only the matching side, ignore the rest |
| BacktestFigures.SizeOfModes | crates/ssm-execution/src/backtest.rs:87-95 | without a mode the configured fraction is committed, with a fixed mode its own |
| BacktestFigures.EntryInFigures | crates/ssm-execution/src/backtest.rs:199-220 | an entry opens, exactly when it commits something, a position worth balance times fraction times leverage at the close, for a fee on that |
| BacktestFigures.HeldCandle | crates/ssm-execution/src/backtest.rs:180-287 | a held position changes only by its due funding, unless its exit is answered: then it is recorded and gone |
| BacktestFigures.FlatCandle | crates/ssm-execution/src/backtest.rs:195-287 | while flat an entry signal opens its side and anything else leaves all as it was |
| BacktestFigures.SignalsAreObeyed | crates/ssm-execution/src/backtest.rs:176-287 | from candle to candle of a run: entries open exactly when flat and something can be committed, exits close exactly the matching side |
| BacktestFigures.EquityInFigures | crates/ssm-execution/src/backtest.rs:477-492 | equity is the balance plus the signed move since entry times the quantity |
| BacktestFigures.RecordInFigures | crates/ssm-execution/src/backtest.rs:434-474 | every record of a run: profit and fee as arithmetic on its prices, quantity, the rates and the funding dates it was held over |
| BacktestFigures.ResultInFigures | crates/ssm-execution/src/backtest.rs:344-418 | final balance and total profit are the arithmetic sum over the records, funding counted twice; without two candles there are none |
| BacktestAccounting.FundingKeepsBooks | crates/ssm-execution/src/backtest.rs:180-190 | charging an open position keeps its total at one charge per due candle since entry and the balance lower by as much |
| BacktestAccounting.EnterPaysFee | crates/ssm-execution/src/backtest.rs:207-218 | opening costs the balance the fee later recorded for the entry, since notional times leverage is entry price times quantity |
| BacktestAccounting.RunKeepsBooks | crates/ssm-execution/src/backtest.rs:176-314 | at every candle, balance, records and open position satisfy the money identity and the ordering of trades |
| BacktestAccounting.FinalBalance | crates/ssm-execution/src/backtest.rs:138-332 | final balance is initial balance plus raw profit less recorded fees less funding, funding being one charge per due candle held |
| BacktestAccounting.FeesExplainBalanceIffNoFunding | crates/ssm-execution/src/backtest.rs:188-449 | raw profit less recorded fees explains the balance iff funding is free or no trade lasted to a due candle |
| BacktestFunding.EveryStrategyExplainedIff | crates/ssm-execution/src/backtest.rs:159-332 | recorded fees explain the balance of every strategy iff funding is free, the data ends before a position can reach a funding date, or the opening balance opens nothing |
| BacktestFunding.ShortDataHasNoFunding | crates/ssm-execution/src/backtest.rs:161-190 | with free funding or at most that many candles, fees explain the balance of any strategy |
| BacktestFunding.HoldsToTheEnd | crates/ssm-execution/src/backtest.rs:176-332 | buying on the first traded candle and never answering again makes one trade that lasts to the end of the data |
| BacktestFunding.FundingPaidTwiceExample | crates/ssm-execution/src/backtest.rs:188-449 | one unit at 100 over one funding date at 0.1 %: the balance loses 0.2 and the record shows 0.1 |
| BacktestAccounting.TradesAreDisjoint | crates/ssm-execution/src/backtest.rs:176-332 | trades are ordered, share no candle, and hold at most all candles but the first, the forced close included |
| BacktestAccounting.Causality | crates/ssm-execution/src/backtest.rs:138-314 | two runs whose candles and answers agree below index n are in the same state after every earlier candle |
| BacktestAccounting.ReportedDrawdown | crates/ssm-execution/src/backtest.rs:289-314 | depth, percentage and duration reported by a run are those of its equity curve |
| BacktestTrades.TradesFollowSignals | crates/ssm-execution/src/backtest.rs:192-332 | every trade was opened by an entry signal for its side and closed by the matching exit signal or the end, at the close and time of those candles, each signal seeing only earlier candles; ids number the records |
| BacktestTrades.CloseRealizesEquity | crates/ssm-execution/src/backtest.rs:436-492 | a close turns the marked equity into balance, less the exit fee and the funding charged once more |
| BacktestTrades.ProfitPctIsOnNotional | crates/ssm-execution/src/backtest.rs:448-455 | a record's percentage is its profit over the notional committed at entry, whatever the leverage |
| BacktestTrades.KellySizingFollowsEdge | crates/ssm-execution/src/backtest.rs:87-116 | fallback while the history is short, then nothing without an edge, and with one a fraction within the cap that is positive exactly for a positive multiplier and cap |
| Drawdown.PctIsPercentOfPeak | crates/ssm-execution/src/backtest.rs:297 | the drawdown percentage is the fall per hundred of the peak |
| Drawdown.MaxDrawdownIsLargestFall | crates/ssm-execution/src/backtest.rs:290-303 | the streaming maximum is the largest fall from an earlier to a later equity, attained, 0 if none |
| Drawdown.MaxDurationIsLongestSpan | crates/ssm-execution/src/backtest.rs:291-312 | the streaming duration is the longest inclusive span between underwater candles with no new peak between |
| Candles.Durations | crates/ssm-ai/src/multi_timeframe.rs:18-25 | three minutes, five times that, four times that and four times that |
| Candles.ResampleCandles | crates/ssm-ai/src/multi_timeframe.rs:70-114 | the loop with its running bucket computes the resampling |
| Candles.GroupsAreRuns | crates/ssm-ai/src/multi_timeframe.rs:78-108 | the groups cut the input, in order, into runs of one bucket number, neighbours differing |
| Candles.ResampleSummarisesGroups | crates/ssm-ai/src/multi_timeframe.rs:70-114 | each output candle is the field-by-field summary of one run: first open, highest high, lowest low, last close, sums |
| Candles.ResamplingComposes | crates/ssm-ai/src/multi_timeframe.rs:70-114 | resampling through a dividing interval gives the same candles on every field |
| Candles.ChunksCutEvery | crates/ssm-ai/src/multi_feature.rs:22-58 | the chunks are the input in order, all of `factor` candles but the last |
| Candles.ChunkCandles | crates/ssm-ai/src/multi_feature.rs:22-58 | one summary per chunk; nothing for a factor of 0 and the input for a factor of 1 |
| Candles.GroupsAreChunks | crates/ssm-ai/src/multi_feature.rs:22-58 | when every `factor` candles share a bucket, runs and chunks are the same |
| Candles.ChunkResampleIffNonNegative | crates/ssm-ai/src/multi_feature.rs:22-58 | on gap-free aligned input chunk and bucket resampling agree iff the input starts at or after time 0 or is trivial |
| Candles.NegativeStartExample | crates/ssm-ai/src/multi_feature.rs:22-58 | two three-minute candles from -15 minutes on are one chunk of five but two buckets |
| FloorBuckets.TruncatesToFloorIff | crates/ssm-ai/src/multi_timeframe.rs:66-79 | the bucket number is the documented floor exactly for times from 0 on and on bucket boundaries, else one more |
| FloorBuckets.BucketWidths | crates/ssm-ai/src/multi_timeframe.rs:79 | bucket 0 reaches from minus to plus one interval, every other bucket is one interval wide |
| FloorBuckets.ResampleIsFloorIff | crates/ssm-ai/src/multi_timeframe.rs:66-114 | the code resamples as documented iff both divisions agree on every pair of neighbours |
| FloorBuckets.NonNegativeTimesAgree | crates/ssm-ai/src/multi_timeframe.rs:66-114 | from time 0 on the code resamples as documented |
| FloorBuckets.NegativeTimeJoinsBuckets | crates/ssm-ai/src/multi_timeframe.rs:66-114 | candles opening at -1 ms and at 0 share a bucket that the documentation cuts in two |
| Alignment.AlignHigherTf | crates/ssm-ai/src/multi_timeframe.rs:140-168 | the nested loops pick, for every base candle, the bucket of the two-cursor specification |
| Alignment.ScanFindsLastClosed | crates/ssm-ai/src/multi_timeframe.rs:140-168 | the scan picks exactly the last bucket with close time at or before the open time, if its number is below the number of rows |
| Alignment.BucketsOfPrefix | crates/ssm-ai/src/multi_timeframe.rs:70-114 | more candles leave every bucket but the last known one unchanged |
| Alignment.CursorNeverRepaints | crates/ssm-ai/src/multi_timeframe.rs:140-168 | the cursor reaches the same bucket from the whole series and from the candles known so far |
| Alignment.NoRepainting | crates/ssm-ai/src/multi_timeframe.rs:66-168 | resample and align together: the bucket picked for candle i never changes as candles arrive, in number, contents or members, and contains only earlier candles; the row of that number is its row exactly when there are no more buckets than rows |
| Alignment.PickedRowIsSettled | crates/ssm-ai/src/multi_timeframe.rs:120-168 | with a row for every bucket the picked feature row describes that bucket, from the prefix and from the whole series |
| Alignment.RowIsSettledIff | crates/ssm-ai/src/multi_timeframe.rs:120-168 | the picked row describes a settled bucket, and one that had closed, exactly when there are no more buckets than rows |
| Alignment.RowRepaintsExample | crates/ssm-ai/src/multi_timeframe.rs:120-168 | three buckets and one row: the second candle is given a row of its own bucket first and of the next bucket later |
| Alignment.OwnBucketIffNoLength | crates/ssm-ai/src/multi_timeframe.rs:140-168 | the newest candle sees its own forming bucket iff it closes no later than it opens and every bucket has a row; later, it sees its own or a later bucket iff its own had closed |
| Alignment.OwnBucketExample | crates/ssm-ai/src/multi_timeframe.rs:140-168 | a candle without length is shown the bucket it is forming |
| Aggregator.TradeAggregator.Ingest | crates/ssm-exchange/src/aggregator.rs:39-93 | drained, waiting and forming candles together stay the aggregate of all trades; a candle is returned exactly when one is closed |
| Aggregator.TradeAggregator.CloseCandle | crates/ssm-exchange/src/aggregator.rs:105-131 | the forming candle is closed with its computed close time and queued |
| Aggregator.TradeAggregator.DrainClosed | crates/ssm-exchange/src/aggregator.rs:101-103 | hands out the waiting candles once |
| AggregatorLaws.CandlesAreOfRuns | crates/ssm-exchange/src/aggregator.rs:39-131 | whatever the order of trades, each candle has the first, highest, lowest and last price, the sums and the span of its run of trades |
| AggregatorLaws.RunsAreTheTrades | crates/ssm-exchange/src/aggregator.rs:39-93 | the runs are the trades, in order, cut into pieces |
| AggregatorLaws.RunsAreBuckets | crates/ssm-exchange/src/aggregator.rs:39-93 | for trades in time order each run holds exactly the trades of one bucket, buckets in order |
| AggregatorLaws.TotalsAreOfTrades | crates/ssm-exchange/src/aggregator.rs:55-90 | over all candles volume, quote volume and number are those of the trades, taker buy volume that of the buys, taker sell volume that of the sells |
| Aggregator.LatestCandle | crates/ssm-exchange/src/aggregator.rs:39-93 | in time order the newest trade's candle is the last one, and a new candle starts exactly with a new bucket |
| Aggregator.AggregateThenResample | crates/ssm-exchange/src/aggregator.rs:39-131 | aggregating finely and resampling equals aggregating coarsely, bucket by bucket, in key, prices, volumes and counts |
| TradingEnv.Env.Reset | crates/ssm-ai/src/env.rs:132-147 | the initial episode state and its observation |
| TradingEnv.Env.Step | crates/ssm-ai/src/env.rs:204-351 | the whole state, observation and invalid flag after one action, forced exits and peak tracking included |
| TradingEnv.Env.ProcessAction | crates/ssm-ai/src/env.rs:209-286 | the hedge-mode and one-way branches agree with one entry rule, and flag what it refuses |
| TradingEnv.Env.ExitExpired | crates/ssm-ai/src/env.rs:288-306 | both sides past their duration are closed at the current price, long first |
| TradingEnv.Env.ClosePositionRecord | crates/ssm-ai/src/env.rs:354-390 | a record is appended, counted and added to the balance |
| EpisodeMoney.EpisodeStartsFlat | crates/ssm-ai/src/env.rs:132-147 | an episode starts flat with the initial balance and no record |
| EpisodeMoney.EntryOpensIff | crates/ssm-ai/src/env.rs:209-286 | an entry opens its side, at the price plus or less slippage, exactly when the side is free and the mode allows one more |
| EpisodeMoney.ExitClosesIff | crates/ssm-ai/src/env.rs:237-286 | an exit closes the side it names if held: record appended and counted, profit added, nothing else |
| EpisodeMoney.ForcedExitIff | crates/ssm-ai/src/env.rs:288-306 | exactly the positions at the maximum age are closed, as the agent's own exits would, the long one first |
| EpisodeMoney.ClosingAmounts | crates/ssm-ai/src/env.rs:354-383 | the record's exit price, duration, two fees and profit as arithmetic on price, entry, rates and balance |
| EpisodeMoney.EvenTradeCostsTwoFees | crates/ssm-ai/src/env.rs:368-372 | without slippage, closing at the entry price loses exactly an entry and an exit fee |
| EpisodeMoney.EquityInFigures | crates/ssm-ai/src/env.rs:407-418 | equity is the balance and each side's relative move on the notional |
| EpisodeMoney.PeakIsHighestEquity | crates/ssm-ai/src/env.rs:308-312 | the tracked peak is the highest of the initial balance and the equities of all steps |
| EpisodeMoney.ObservationInFigures | crates/ssm-ai/src/env.rs:427-496 | every field shown, read off the state, the price and the end of the data |
| TradingEnv.AutoExitKeepsInv | crates/ssm-ai/src/env.rs:288-306 | no surviving position has reached the maximum duration |
| TradingEnv.EpisodeInvariants | crates/ssm-ai/src/env.rs:204-390 | every episode: one side at most in one-way mode, bounded age, balance equal to initial balance plus recorded profits, counted records |
| TradingEnv.GrossExposureHolds | crates/ssm-ai/src/env.rs:174-241 | in hedge mode whatever is held is within the gross exposure limit |
| TradingEnv.RunTrial | crates/ssm-ai/src/optimizer.rs:197-214 | the episode loop follows the policy and stops after exactly min(len - 1, max_steps) steps |
| EpisodeLaws.EpisodeSeesOnlyThePast | crates/ssm-ai/src/env.rs:204-490 | two price series that agree on n candles give the same states for n actions and the same observations before that, but for the end flag |
| EpisodeLaws.InvalidIffNoEffect | crates/ssm-ai/src/env.rs:209-286 | an action is flagged invalid exactly when it is not neutral and changes nothing |
| EpisodeLaws.SlippageLoses | crates/ssm-ai/src/env.rs:354-365 | entering and leaving at one price loses by slippage, and is even exactly without slippage |
| EpisodeLaws.RoundTripNeverEarns | crates/ssm-ai/src/env.rs:354-372 | a round trip at one price earns at most minus both fees |
| Advantage.ComputeGae | crates/ssm-ai/src/ppo.rs:310-333 | the backward loop fills in the closed-form sum of discounted errors, cut at the first done |
| Advantage.AdvantageRecursion | crates/ssm-ai/src/ppo.rs:310-333 | the closed form satisfies the backward recursion |
| Advantage.AdvantageStep | crates/ssm-ai/src/ppo.rs:310-333 | one step in figures: reward, discounted next value and discounted, decayed next advantage, both dropped after a done step |
| Advantage.ReturnStep | crates/ssm-ai/src/vectorized_env.rs:145-157 | one step of the discounted return in figures |
| Advantage.AdvantageStopsAtDone | crates/ssm-ai/src/ppo.rs:310-333 | nothing after the first done step influences an advantage |
| Advantage.ComputeReturns | crates/ssm-ai/src/vectorized_env.rs:145-157 | the backward loop fills in the discounted sums of rewards |
| Advantage.AdvantagePlusValueIsReturn | crates/ssm-ai/src/ppo.rs:310-333 | with lambda 1 and no done, advantage plus value is the discounted return |

## Left out

- SeqLocks.SeqLock.Read: runs with no writer active, so its first attempt succeeds; the retry loop under concurrent writes is in `SeqLockProtocol`, whose readers retry step by step.
- SeqLockProtocol.ReadsReturnWholeVersions: holds for fewer than 2^63 writes during one read attempt, after which the sequence number repeats.
- Backtest.BacktestEngine.Run: reports trades, balance and drawdown; win rate, averages, best and worst trade, profit percentage, profit factor, Sharpe and Sortino are sums and maxima over the trades and would only add easy members.
- TradingEnv.Env.Step: leaves out the reward and the per-step metrics, which are handed to replaceable objects.
- TradingEnv.Env.Reset: leaves out the reset of those two accumulators.
- Backtest.BacktestEngine.CloseAt: does not keep a record's symbol, leverage and exit reason, which are constants of the run; a cost basis of leverage 0 stands at 0, and no position can be opened at leverage 0.
- Memory orderings weaker than sequential consistency, fences, cache padding and the validity of `unsafe` blocks.
- `len` of the ring across threads, which is documented as possibly stale.
- Ring capacities above 2^63, for which the next power of two does not exist in a 64-bit word.
- Rounding of `Decimal` other than the weighted average of the hot path, and rounding, NaN and infinities of `f64`; a ratio with a zero entry price is 0 in `TradingEnv`.
- Overflow of timestamps and of products of prices and quantities.
- `restore_position`, the snapshot getters of the controller and the tracker, and the remaining sizing formulas of the risk manager: short facts about one body.
- Stepping an episode past its last candle, where the price falls back to 0.
- The exchange clients, persistence, messaging, logging, metrics and the asynchronous execution engine: I/O, or behaviour decided by the remote exchange.
- Network training, the numbers in a feature row (which rows there are and what bucket each describes is modelled), feature extraction and hyperparameter search.
