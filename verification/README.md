# h5i-db: the commit protocol and the backtest kernel, in Dafny

This project models two parts of h5i-db and proves what their comments promise.

**The object-store commit protocol** (`Commit.dfy`). Any number of writers race to append the
next version of a table with nothing but conditional puts: read HEAD, revalidate, create the
manifest slot if it is absent, swap HEAD on its tag. The model is a state machine over the
interleaved requests of an unbounded set of writers, any of which may stop for good anywhere.
The main results are about every reachable state: the committed history is a chain, committed
slots never change, and the protocol is stuck exactly behind an orphan slot.

**The backtest kernel** (everything else). A deterministic engine in integer fixed point: an
order book fed by snapshots and increments, resting orders under a price-keyed index, a queue
model driven by prints, positions folded from fills, cash and isolated collateral, complete
sets, splits, timers, a k-way merge, an order-by-order book and a rounding fee model.

How it is laid out:

- `FixedPoint`, `Corporate`, `Positions`, `Instruments`, `Book`, `BookFeed`, `Replay`, `Clock`,
  `L3`, `Fees`, `RestingIndex` each follow one source component, with its data structure as a
  class or a method wherever the source updates in place.
- `Engine` defines the kernel's state and every step as a total function; a run is any sequence
  of steps. `EngineMachine` is the kernel as an object with the source's own fields; each of its
  methods is proved to leave the state its step function describes.
- `EngineCoherence` and `EngineRuns` (the index), `EngineMatching` and `EngineScan` (indexed matching
  refines the full scan), `EngineOffers` (what one offer trades), `EngineQueue`, `EngineLifecycle` and
  `EngineQueueRuns` (prints and the life of an order), `EngineClosed` (markets that stopped),
  `EnginePostOnly`, `EngineAccount`, `EngineCollateral`, `EnginePayments`, `EngineProfit` and `EngineFees`
  (cash and profit), `EngineRisk`, `EngineShorts` and `EngineShortRuns` (limits), `EngineSets` and
  `EngineLegs` (complete sets) and `EngineSplit` prove the run-level theorems; `EngineGates`,
  `EngineArrivals`, `EngineAmends`, `EnginePrints`, `EngineOutcomes` and `EngineBooks` state what each
  kind of step does in every reachable state, from the state before; `EngineWitnesses` holds short runs that break a
  documented promise.
- `Orders`, `Sorting` and `Sums` hold shared vocabulary.

Verify with `dafny verify dfyconfig.toml`.

## Where the code and its documentation disagree

The model follows the code; each item names the lemma that shows it.

- engine.rs:2487-2489 says a split can make nothing marketable that was not. Rounding can:
  `EngineWitnesses.SplitMakesRestingOrderTrade`; exactly when is `EngineSplit.SplitKeepsOutOfReach`.
- engine.rs:2529-2533 says everything a split renames moves at once. The size ahead of a resting
  order does not: `EngineWitnesses.SplitLeavesQueueBehind` runs into it, and `EngineLifecycle.StepKept`
  shows it kept through every split as it was.
- engine.rs:3593-3594 says the legs of a set sum to exactly one unit of cash per set. That holds
  for every division exactly when the count is of whole contracts
  (`Instruments.AlwaysExactOnlyForWhole`); otherwise a permitted mint can leave cash negative
  (`EngineSets.FractionalMintOverdraws`).
- engine.rs:3761-3790 refuses a mint the cash does not cover. The check leaves out the collateral that
  each leg of an isolated instrument then posts out of the same cash (engine.rs:1759-1795), so a mint
  it permits can overdraw: `EngineSets.IsolatedMintOverdraws`; exactly when is
  `EngineSets.MintIsAffordable`.
- position.rs:171-172 and engine.rs:3595-3598 say that replaying the recorded fills rebuilds every
  position, and crates/h5i-db-backtest/src/run.rs:473 settles on such a replay. Splits leave no fill:
  `EngineWitnesses.SplitLeavesReplayBehind`; a replay is right until the first split that moves the
  holding, and wrong right after it (`EngineProfit.PositionIsReplayed`,
  `EngineProfit.SplitBreaksReplay`).
- engine.rs:3398-3401 says a post-only order cannot take. It cannot on arrival, and then only the
  book coming to it can fill it, unless a trigger lets it loose, its limit is amended or a split
  rounds it onto the opposite price: none of these is checked (`EngineOffers.TriggeredPostOnlyTakes`,
  `EngineWitnesses.AmendedPostOnlyTakes`, `EngineWitnesses.SplitMakesRestingOrderTrade`). After the
  first two it trades exactly when it then crosses (`EnginePostOnly`); nothing else moves it into
  reach (`EngineQueueRuns.OnlyFeedSplitOrAmendMovesReach`). On arrival the check reads the venue's
  book and the match reads the fill model's, so a model that makes up prices can still fill it.
- engine.rs:3008-3013 says a sell is only safe if covered when every other live sell fills first,
  and exempts reduce-only sells because matching clamps them. The exempted sells use up the holding
  the others were admitted against: `EngineWitnesses.CoveredSellGoesShort`, on the book path alone;
  exactly when is `EngineShortRuns.GoesShortExactlyWhenOversold`, and with prints
  `EngineShortRuns.GoesShortExactlyWhenOverOffered`.
- The index is meant to be unobservable. A reduce-only order with nothing to reduce is cancelled
  by a scan and left resting by the index: `EngineMatching.IndexLeavesStrandedReduceOnly`.
- `Clock::advance_to` at the last representable instant does not return while a timer repeats:
  `Clocks.AdvanceEndsExactlyWhen`.
- A HEAD tag whose ETag contains the separator does not survive encoding: `HeadTags.TagRoundTrip`.
- An L3 execution with a negative size grows the order: `L3.NegativeExecutionPushesBack`; the size
  ahead of an order rises exactly then (`L3.QueueOnlyAdvances`).

## Model

| member | source | states |
|---|---|---|
| `HeadTags.TagRoundTrip` | crates/h5i-db-core/src/backend_object.rs:75-94 | decoding a HEAD tag undoes encoding it if and only if the ETag holds no separator; the version id may hold anything |
| `HeadTags.TagIsInjective` | crates/h5i-db-core/src/backend_object.rs:75-94 | two separator-free store versions never share a tag |
| `CommitProtocol.ExecKeepsInv` | crates/h5i-db-core/src/backend_object.rs:104-167 | every interleaving of reads, revalidations, slot creations, HEAD swaps, stops and orphan clearings keeps the protocol invariant |
| `CommitProtocol.CommittedHistoryIsChain` | crates/h5i-db-core/src/backend_object.rs:104-167 | in every reachable state all slots up to HEAD are filled, none exists beyond the next one, slot k holds the manifest of the writer whose swap moved HEAD to k, and that writer worked from exactly version k-1: no update is lost |
| `CommitProtocol.StepAppends` | crates/h5i-db-core/src/backend_object.rs:128-167 | one step moves HEAD by one sequence or not at all and never touches a committed slot |
| `CommitProtocol.CommittedSlotsAreImmutable` | crates/h5i-db-core/src/backend_object.rs:225-248 | over any continuation the committed slots and the history they spell never change |
| `CommitProtocol.RevalidationIsExact` | crates/h5i-db-core/src/backend_object.rs:112-127 | in every reachable state a writer that read HEAD after n commits passes revalidation if and only if no commit was made since, and is otherwise told version n-1 expected and the current one found; nothing is written |
| `CommitProtocol.SlotCreationIsExact` | crates/h5i-db-core/src/backend_object.rs:225-248 | of a writer that read HEAD after n commits, slot n is created if and only if it is free, which is only while no commit was made since; otherwise nothing is written and it is told version n-1 expected and n found |
| `CommitProtocol.OvertakenPublishesNothing` | crates/h5i-db-core/src/backend_object.rs:112-127 | a writer overtaken before it revalidates sends no slot creation and no HEAD swap, then or ever after |
| `CommitProtocol.PublishedWriterAlwaysCommits` | crates/h5i-db-core/src/backend_object.rs:128-167 | a writer that has created its slot cannot lose the HEAD swap to a precondition |
| `CommitProtocol.OrphanBlocksEveryCommit` | crates/h5i-db-core/src/backend_object.rs:16-22 | behind a slot whose writer stopped before its swap, HEAD, slots and history stand still in every later state until the slot is cleared |
| `CommitProtocol.CanCommitUnlessOrphaned` | crates/h5i-db-core/src/backend_object.rs:104-167 | some continuation without clearing commits another version if and only if the slot after HEAD is not an orphan |
| `CommitProtocol.ClearUnblocks` | crates/h5i-db-core/src/backend_object.rs:16-22 | clearing an orphan slot leaves HEAD and history alone and lets the next commit through |
| `CommitProtocol.ClearingLiveSlotBreaksHead` | crates/h5i-db-core/src/backend_object.rs:225-248 | a concrete interleaving: clearing the slot of a writer that is still running ends with HEAD naming a manifest its slot does not hold |
| `FixedPoint.RoundDivIsHalfAway` | crates/h5i-db-backtest/src/types.rs:237-245 | promote-and-divide rounds half away from zero, for every sign |
| `FixedPoint.HalfAwayIsUnique` | crates/h5i-db-backtest/src/types.rs:237-245 | there is only one half-away-from-zero quotient |
| `FixedPoint.WideNotionalIsExact` | crates/h5i-db-backtest/src/types.rs:267-291 | the split-multiply notional returns exactly the rounded product, and reports overflow if and only if that result does not fit: no partial sum overflows on its own |
| `FixedPoint.WideAgreesWithNarrow` | crates/h5i-db-backtest/src/types.rs:227-291 | where the narrow build fits, both builds return the same value |
| `FixedPoint.NotionalError` | crates/h5i-db-backtest/src/types.rs:237-245 | a notional is within half a unit of the exact product |
| `FixedPoint.NotionalOfWhole` | crates/h5i-db-backtest/src/types.rs:237-245 | a whole number of contracts is priced without rounding |
| `Positions.Position.Apply` | crates/h5i-db-backtest/src/position.rs:70-111 | applying a fill in place leaves the position the fold describes, through opening, adding, reducing and reversing |
| `Positions.FillDrift` | crates/h5i-db-backtest/src/position.rs:70-111 | one fill moves cash and reported profit apart by at most the larger of the position after it and half a scale unit |
| `Positions.AveragePriceIs` | crates/h5i-db-backtest/src/position.rs:70-111 | the average price is the size-weighted mean rounded toward zero when a fill opens or adds, unchanged when it closes a part, the fill's price through zero, and none when flat |
| `Positions.ProfitIsConserved` | crates/h5i-db-backtest/src/position.rs:70-111 | over any fill history, cash received plus the basis of what is held is the gross profit reported, to within the accumulated slack |
| `Positions.RoundTripProfit` | crates/h5i-db-backtest/src/position.rs:70-111 | from flat back to flat, reported profit is the cash that came out, to within the slack |
| `Positions.Replay` | crates/h5i-db-backtest/src/position.rs:162-180 | rebuilding a portfolio gives each position the fold of its own fills, whatever they are interleaved with, and creates no other position |
| `Corporate.SplitLosesLittleValue` | crates/h5i-db-backtest/src/corporate.rs:89-115 | long or short, at any price: a split never creates value and loses less than one raw unit on each leg |
| `Corporate.SplitBackNeverGrows` | crates/h5i-db-backtest/src/corporate.rs:89-115 | splitting and splitting back by no more than the inverse never manufactures size, long or short |
| `Corporate.RequotingKeepsOrder` | crates/h5i-db-backtest/src/corporate.rs:102-115 | requoting by one ratio never inverts two prices |
| `Corporate.GapSurvivesSplit` | crates/h5i-db-backtest/src/corporate.rs:102-115 | for prices of any sign, two different prices stay different after a split if and only if the gap is wider than what rounding toward zero eats; on one side of zero a gap worth the ratio always survives |
| `Corporate.SplitCanCloseGap` | crates/h5i-db-backtest/src/corporate.rs:102-115 | some two different prices meet after a split if and only if its ratio is above one |
| `Book.WalkIsConservative` | crates/h5i-db-backtest/src/book.rs:323-375 | fills plus remainder is the request; fills total the smaller of the request and the depth within the limit; each is a positive piece of a displayed level at an acceptable price, strictly best first |
| `Book.WalkIsOptimal` | crates/h5i-db-backtest/src/book.rs:323-375 | no other way of taking that quantity from those levels within the limit is cheaper for a buyer or dearer for a seller |
| `Book.WalkIsEmptyUnlessCrossing` | crates/h5i-db-backtest/src/book.rs:323-375 | a walk comes back empty if and only if the best opposite price is absent or beyond the limit |
| `Book.ReachStartsAtBest` | crates/h5i-db-backtest/src/book.rs:246-260 | the first level a taker meets is the best bid or offer |
| `BookFeed.SnapshotShowsLastPositive` | crates/h5i-db-backtest/src/book.rs:126-150 | after a snapshot a level shows the last positive size quoted at its price, and a price is shown if and only if some positive size was quoted there |
| `BookFeed.IncrementShows` | crates/h5i-db-backtest/src/book.rs:187-205 | a taken increment shows its size at its own side and price, nothing there for a deletion or a size that is not positive, clears its own side only, and leaves every other level of both sides |
| `BookFeed.FeedShowsLastSaid` | crates/h5i-db-backtest/src/book.rs:126-243 | under any feed each level of each side shows what the last message about it said: a snapshot's last positive quote, the size set, nothing after a deletion, clear, gap or increment without a base, the merged sizes after a split |
| `BookFeed.SilentLevelIsEmpty` | crates/h5i-db-backtest/src/book.rs:126-243 | a level no message was about shows nothing |
| `BookFeed.SplitSideKeepsDepth` | crates/h5i-db-backtest/src/book.rs:228-243 | requoting loses no level to a collision: the depth after a split is the sum of every level's split size, all sizes stay positive, every price shown is a requoted one |
| `BookFeed.SplitSideShowsEachLevel` | crates/h5i-db-backtest/src/book.rs:228-243 | each requoted price shows exactly the sum of the split sizes of the levels that round onto it |
| `BookFeed.FeedKeepsBook` | crates/h5i-db-backtest/src/book.rs:126-243 | under any feed, sizes stay positive, the book is fresh if and only if a snapshot came after the last gap, and a book that is not fresh shows nothing |
| `BookFeed.StaleSinceLastGap` | crates/h5i-db-backtest/src/book.rs:154-163 | under any feed a book with no snapshot since the last gap is stale since that gap, or never seen when there was none |
| `BookFeed.OrderBook.ApplySnapshot` | crates/h5i-db-backtest/src/book.rs:126-150 | the snapshot loop replaces both sides by what the feed function describes |
| `BookFeed.OrderBook.MarkGap` | crates/h5i-db-backtest/src/book.rs:154-163 | a gap empties the book and marks it stale |
| `BookFeed.OrderBook.ApplyDelta` | crates/h5i-db-backtest/src/book.rs:165-218 | an increment is taken if and only if the book is fresh; a refused one changes nothing |
| `BookFeed.OrderBook.ApplySplit` | crates/h5i-db-backtest/src/book.rs:221-243 | the requoting loops leave the merged, requoted book |
| `BookFeed.OrderBook.WalkBook` | crates/h5i-db-backtest/src/book.rs:323-375 | the level-by-level loop returns the walk that is proved conservative and optimal |
| `Replays.ReplayIsTheSortedInterleaving` | crates/h5i-db-backtest/src/replay.rs:135-174 | draining emits every record once, by timestamp, then stream priority, then stream, then arrival, if and only if every stream is sorted, and no other order does |
| `Replays.DrainFailsExactlyOnBadStreams` | crates/h5i-db-backtest/src/replay.rs:103-128 | a drain fails if and only if some stream has a bad or out-of-order record still to come |
| `Replays.MergeIsUnique` | crates/h5i-db-backtest/src/replay.rs:135-174 | there is only one interleaving of the streams in key order |
| `Replays.Replay.NextRecord` | crates/h5i-db-backtest/src/replay.rs:152-178 | popping the heap and refilling from the same stream returns the earliest pending record and keeps the heap matched to the stream heads; when the refill fails, the popped record and its stream are gone and nothing else has moved |
| `Replays.Build` | crates/h5i-db-backtest/src/replay.rs:230-262 | building succeeds if and only if every stream's first record can be pulled, and then holds every stream's head |
| `Replays.CollectAll` | crates/h5i-db-backtest/src/replay.rs:180-187 | collecting returns exactly the drain of the streams, or its failure |
| `Clocks.AdvanceLeavesOnlyLater` | crates/h5i-db-backtest/src/clock.rs:155-192 | after advancing, the clock reads the target and every pending timer is strictly later |
| `Clocks.DueInstantsAreTheGrid` | crates/h5i-db-backtest/src/clock.rs:92-123 | a timer's due instants are exactly start plus a multiple of its interval up to the target, each once |
| `Clocks.AdvanceFiresExactlyTheDue` | crates/h5i-db-backtest/src/clock.rs:155-192 | the events fired are exactly the due instants of all pending timers |
| `Clocks.AdvanceFiresInOrder` | crates/h5i-db-backtest/src/clock.rs:155-192 | whenever the loop ends, every event fired comes before every later one in (time, name, sequence) order |
| `Clocks.AdvanceInTwoHops` | crates/h5i-db-backtest/src/clock.rs:155-192 | stopping on the way fires the same events and leaves the same clock as going straight there |
| `Clocks.AdvanceEndsExactlyWhen` | crates/h5i-db-backtest/src/clock.rs:155-192 | the loop ends if and only if the target is below the last representable instant or nothing repeats |
| `Clocks.Clock.Push` | crates/h5i-db-backtest/src/clock.rs:106-123 | scheduling is refused for the past and for an interval that is not positive, and otherwise files the timer in firing order |
| `Clocks.Clock.AdvanceTo` | crates/h5i-db-backtest/src/clock.rs:155-192 | the firing loop leaves the clock and returns the events the specification describes |
| `L3.AppliedKeepsValid` | crates/h5i-db-backtest/src/l3.rs:127-222 | every message keeps the order map and the level queues in bijection, with positive sizes |
| `L3.MessageConservesSize` | crates/h5i-db-backtest/src/l3.rs:127-222 | one message moves size between resting and executed, cancelled or reduced without creating or losing any |
| `L3.MessageIsExact` | crates/h5i-db-backtest/src/l3.rs:127-222 | each message leaves the order it names the size it says, and none off the book, every other order as it was; a new order goes to the back of its own queue, one that leaves is taken out, and no queue is reordered |
| `L3.FeedConservesSize` | crates/h5i-db-backtest/src/l3.rs:127-252 | over any message sequence, everything added was executed, cancelled, reduced away or still shows |
| `L3.QueueOnlyAdvances` | crates/h5i-db-backtest/src/l3.rs:187-238 | while an order stays on the book the size ahead of it falls by exactly what was executed, cancelled or reduced in front of it, and rises if and only if the message executes a negative size of an order in front |
| `L3.QueueOnlyAdvancesOverFeed` | crates/h5i-db-backtest/src/l3.rs:187-238 | over any message sequence through which the order stays on the book, the size ahead of it falls by the sum of what left in front |
| `L3.NegativeExecutionPushesBack` | crates/h5i-db-backtest/src/l3.rs:187-198 | a negative execution size grows the named order and pushes back the one behind it |
| `L3.L3Book.AddOrder` | crates/h5i-db-backtest/src/l3.rs:142-170 | adding appends to the level queue; a duplicate id is refused and a size that is not positive never joins |
| `L3.L3Book.CancelOrder` | crates/h5i-db-backtest/src/l3.rs:172-185 | cancelling removes the order and an emptied level |
| `L3.L3Book.ExecuteOrder` | crates/h5i-db-backtest/src/l3.rs:187-198 | an execution takes at most what is there, in place |
| `L3.L3Book.ReduceOrder` | crates/h5i-db-backtest/src/l3.rs:200-222 | a reduction keeps priority; growing is refused |
| `L3.L3Book.Ahead` | crates/h5i-db-backtest/src/l3.rs:224-238 | the accumulator loop returns the size ahead of the order |
| `Fees.RoundUpIsLeastCenticent` | crates/h5i-db-backtest/src/models.rs:161-176 | a trade fee is a whole number of centicents not below the raw fee, and the least such one if and only if the raw fee is above minus one centicent or one raw unit past a centicent |
| `Fees.RawFeeFollowsCurve` | crates/h5i-db-backtest/src/models.rs:161-168 | the fee before rounding up is rate times size times p(1-p), to within half a unit at each of three roundings |
| `Fees.TradeFeeFollowsCurve` | crates/h5i-db-backtest/src/models.rs:161-190 | a taker pays the taker rate and a maker the maker rate, on the size times p(1-p), rounded up to a centicent, to within the three roundings on the way |
| `Fees.ChargeMovesWholeCents` | crates/h5i-db-backtest/src/models.rs:179-217 | each fill moves cash by a whole number of cents, keeps accumulators under one cent, and charges trade fee plus the change of the accumulator |
| `Fees.OrderPaysItsFeesPlusAccumulator` | crates/h5i-db-backtest/src/models.rs:179-224 | over any interleaving of fills and closings, an order has paid its trade fees plus an accumulator in [0, one cent) |
| `Fees.EveryFillMovesWholeCents` | crates/h5i-db-backtest/src/models.rs:179-217 | after any history the next fill moves cash by whole cents |
| `EngineFees.KalshiCashMovesByWholeCents` | crates/h5i-db-backtest/src/models.rs:179-217 | with this schedule as the engine's fee model, whatever a run does to cash and collateral is a whole number of cents once funding, dividends, set operations and unfunded profit, which it does not charge, are set aside |
| `Fees.KalshiFees.Commission` | crates/h5i-db-backtest/src/models.rs:179-217 | the commission returned and the accumulator stored are those the charge describes |
| `Fees.KalshiFees.OrderClosed` | crates/h5i-db-backtest/src/models.rs:219-224 | closing an order forgets its accumulator |
| `Instruments.UniformIsEvenSplit` | crates/h5i-db-backtest/src/instrument.rs:512-527 | an even division sums to exactly one, its parts differ by at most one raw unit, larger ones first |
| `Instruments.UniformPrices` | crates/h5i-db-backtest/src/instrument.rs:512-527 | the loop that hands out the remainder returns that division |
| `Instruments.NormalisedSumsToOne` | crates/h5i-db-backtest/src/instrument.rs:538-571 | normalised prices sum to exactly one; every leg is its share rounded down except the largest, which carries less than one raw unit per outcome extra |
| `Instruments.NormaliseToOne` | crates/h5i-db-backtest/src/instrument.rs:538-571 | scaling in place and patching the largest returns that division, or nothing when it cannot be made |
| `Instruments.WholeSetsCostExactly` | crates/h5i-db-backtest/src/engine.rs:3715-3745 | the legs of a whole number of sets add up to the count times the sum of the basis |
| `Instruments.FractionalSetsErrAtMostHalfEach` | crates/h5i-db-backtest/src/engine.rs:3715-3745 | for any count the legs miss it by at most half a raw unit per outcome |
| `Instruments.FractionalSetCanCostMore` | crates/h5i-db-backtest/src/engine.rs:3715-3745 | one raw set at even odds costs two raw units |
| `Instruments.AlwaysExactOnlyForWhole` | crates/h5i-db-backtest/src/engine.rs:3715-3745 | legs come to the count for every division of the unit if and only if the count is of whole contracts |
| `RestingIndex.InsertedMembers` | crates/h5i-db-backtest/src/engine.rs:175-188 | inserting adds the id at its own slot, side and limit and nowhere else, and keeps levels sorted |
| `RestingIndex.RemovedMembers` | crates/h5i-db-backtest/src/engine.rs:190-214 | removing takes out that id and nothing else |
| `RestingIndex.RemoveStaysTidy` | crates/h5i-db-backtest/src/engine.rs:190-214 | removal leaves no empty level and no empty market |
| `EngineRuns.StepIsSane` | crates/h5i-db-backtest/src/engine.rs:1399-1480 | every step keeps the index coherent with the resting list and never overfills an order |
| `EngineRuns.IndexIsCoherent` | crates/h5i-db-backtest/src/engine.rs:172-214 | after any run an id is indexed at a place if and only if it rests and that place is its order's current slot, side and limit; ids are strictly sorted within a level; resting orders are open limit orders listed once; nothing is left empty; no order was overfilled |
| `EngineRuns.PrunedIsIdle` | crates/h5i-db-backtest/src/engine.rs:3467-3477 | orders leave the book the moment they close, so the sweep at the end of matching finds nothing |
| `EngineAccount.RebalancingMovesNothing` | crates/h5i-db-backtest/src/engine.rs:1759-1795 | moving isolated collateral leaves cash plus collateral unchanged |
| `EngineAccount.FillConserves` | crates/h5i-db-backtest/src/engine.rs:3870-3949 | booking a fill keeps the cash identity |
| `EngineCollateral.FillIsBacked` | crates/h5i-db-backtest/src/engine.rs:1759-1795 | after a fill the bucket is the sum of margin(quantity, average price) over the open positions of the instrument, absent when that is zero, and no other bucket moved |
| `EngineCollateral.CollateralIsTheMargins` | crates/h5i-db-backtest/src/engine.rs:1759-1795 | after any run collateral is posted for isolated instruments only, and each has posted exactly the margin on its open positions, long or short, and nothing when there is none, unless it was split and has not traded since |
| `EngineCollateral.ShortPostsItsMargin` | crates/h5i-db-backtest/src/engine.rs:1759-1795 | selling ten at a hundred of an isolated instrument under a ten per cent margin posts a hundred out of cash |
| `EngineAccount.CashIsConserved` | crates/h5i-db-backtest/src/engine.rs:3870-3949 | after any run, cash plus all isolated collateral is starting cash less funding paid plus dividends plus the signed notionals less commissions of funded fills plus the profit realised on unfunded positions |
| `EnginePayments.FundingChargesEachPosition` | crates/h5i-db-backtest/src/engine.rs:2449-2468 | funding charges each open position of the instrument the rate on its value at the oracle, or the mark where there is none, and moves cash and the funding paid alone |
| `EnginePayments.LongsPay` | crates/h5i-db-backtest/src/engine.rs:2449-2468 | at a positive rate a long pays funding and a short receives it |
| `EnginePayments.DividendPaysEachPosition` | crates/h5i-db-backtest/src/engine.rs:2617-2624 | a dividend pays the amount per share on each holding of the instrument and charges shorts, and moves nothing else; a negative one is refused |
| `EnginePayments.PaymentsAreZeroSum` | crates/h5i-db-backtest/src/engine.rs:2449-2468 | what one account pays in funding or is due in dividends, an account holding the opposite receives or owes |
| `EnginePayments.DelistingCashesOut` | crates/h5i-db-backtest/src/engine.rs:2625-2673 | in every reachable state a delisting books one closing fill per open outcome, at the stated price and for all that is held, leaves every outcome flat and every other position alone, and takes the instrument off the board |
| `EngineAccount.PositionsFoldTheHistory` | crates/h5i-db-backtest/src/position.rs:118-190 | after any run, splits included, positions are the fold of the recorded fills and the splits between them |
| `EngineProfit.ReportedProfitIsEarned` | crates/h5i-db-backtest/src/position.rs:70-140 | over every run, splits included, the profit reported on a position is what its own fills paid, to within the slack of each fill and one raw unit of size and of price per split; without splits the slack is that of the fills alone |
| `EngineProfit.SplitDrift` | crates/h5i-db-backtest/src/position.rs:113-140 | a split moves no profit, and cost basis by at most the size plus the price after it |
| `EngineProfit.PositionIsReplayed` | crates/h5i-db-backtest/src/position.rs:171-180 | after any run in which no split moved what a slot held, replaying its recorded fills gives its position, and it is on the books if and only if it has a fill |
| `EngineProfit.SplitBreaksReplay` | crates/h5i-db-backtest/src/position.rs:171-190 | a further split leaves the replay right if and only if it leaves the holding as it was |
| `EngineWitnesses.SplitLeavesReplayBehind` | crates/h5i-db-backtest/src/run.rs:467-476 | buy ten and split two for one: twenty are held, the recorded fills replay to ten |
| `EngineMatching.CandidatesAreTheCrossing` | crates/h5i-db-backtest/src/engine.rs:240-260 | the candidates found by price are exactly the resting orders of the market that the top of the book is within the limit of, in submission order |
| `EngineMatching.CandidatesAreTheScan` | crates/h5i-db-backtest/src/engine.rs:262-282 | for a model that may synthesise prices the candidates are every resting order of the market |
| `EngineMatching.SkippedOfferIsIdle` | crates/h5i-db-backtest/src/engine.rs:3339-3422 | offering a skipped order changes nothing, unless it is reduce-only with nothing to reduce, which cancels it |
| `EngineMatching.SkippingIsExact` | crates/h5i-db-backtest/src/engine.rs:3261-3308 | offering only crossing orders gives the same state as offering all if and only if no skipped reduce-only order has, at its turn, nothing to reduce |
| `EngineMatching.IndexedMatchingIsTheScan` | crates/h5i-db-backtest/src/engine.rs:3261-3308 | the same equivalence in every reachable state of a market that trades |
| `EngineScan.IndexedMatchingIsTheScanBeforehand` | crates/h5i-db-backtest/src/engine.rs:3261-3308 | the equivalence told from the state before: what is held, moved by what each order within reach before it takes, leaves every skipped reduce-only order something to reduce |
| `EngineMatching.IndexedMatchingWithoutReduceOnly` | crates/h5i-db-backtest/src/engine.rs:3261-3308 | with no reduce-only order resting in the market, indexed matching is the full scan |
| `EngineMatching.IndexLeavesStrandedReduceOnly` | crates/h5i-db-backtest/src/engine.rs:3372-3388 | a reachable state where the scan cancels a reduce-only order that indexed matching leaves resting |
| `EngineMatching.RunKeepsBooks` | crates/h5i-db-backtest/src/engine.rs:2319-2390 | every book a run builds shows only positive sizes |
| `EngineBooks.BooksAreTheFeed` | crates/h5i-db-backtest/src/engine.rs:2319-2342 | after any run every book is what its own messages and the splits of its instrument made of it, and nothing else moved it |
| `EngineBooks.QueueIsToldByTheFeed` | crates/h5i-db-backtest/src/engine.rs:3430-3446 | the size shown where an order joins the queue is what its book's feed last said of that level |
| `EngineBooks.FeedEndsExactlyWhen` | crates/h5i-db-backtest/src/engine.rs:2328-2342 | a book message ends the run if and only if it is an increment with no snapshot since the last gap of that book's feed |
| `EngineBooks.MarksAreTheLastSet` | crates/h5i-db-backtest/src/engine.rs:2340-2360 | after any run a slot's mark and oracle price are the last ones set, restated by the splits since |
| `EngineOffers.TradesAreRecorded` | crates/h5i-db-backtest/src/engine.rs:3396-3405 | executing a walk records each of its trades, in order, against the order, and moves the order by their total |
| `EngineOffers.OfferTradesTheBook` | crates/h5i-db-backtest/src/engine.rs:3339-3422 | an offered order trades exactly the smaller of what it wants and the depth within its limit, best price first, and nothing if it wants nothing; fill-or-kill and empty reductions are killed whole; afterwards it is filled, resting (good-til-cancelled limit) or cancelled |
| `EngineOutcomes.OfferTakesExactly` | crates/h5i-db-backtest/src/engine.rs:3364-3420 | an offered order takes the smaller of the depth within its limit and what it has left, or of that what closes a position when reduce-only, all or nothing when fill-or-kill, and its position moves by exactly that |
| `EngineOutcomes.StoppedOfferIsRejected` | crates/h5i-db-backtest/src/engine.rs:3346-3356 | an order offered on a stopped market is rejected, off the book, and trades nothing |
| `EngineOutcomes.CancellationIsExact` | crates/h5i-db-backtest/src/engine.rs:2684-2699 | in every reachable state a cancellation ends exactly the open order it names and moves nothing else |
| `EngineOutcomes.AdvanceIsExact` | crates/h5i-db-backtest/src/engine.rs:1657-1689 | in every reachable state moving time forward cancels exactly the resting orders of instruments whose expiry has come, and moves nothing else |
| `EngineOutcomes.EngineOrderIsExact` | crates/h5i-db-backtest/src/engine.rs:1545-1603 | in every reachable state an engine order is a market order of the size and side asked for that has ended when the step has and never rests, rejected if and only if its market has stopped |
| `EngineOffers.OfferTradesExactlyWhenCrossing` | crates/h5i-db-backtest/src/engine.rs:3339-3422 | a plain limit order trades on being offered if and only if the top of the book is within its limit |
| `EngineOffers.PostOnlyArrivalNeverTrades` | crates/h5i-db-backtest/src/engine.rs:3195-3215 | in every reachable state a post-only order trades nothing on arrival, unless the fill model shows it a book of its own that reaches its limit; with a price-preserving model it never trades |
| `EngineOffers.TriggeredPostOnlyTakes` | crates/h5i-db-backtest/src/engine.rs:1605-1642 | a reachable state where a post-only order let loose by its trigger takes the offer it meets |
| `EnginePostOnly.MatchFillsExactlyWhenCrossing` | crates/h5i-db-backtest/src/engine.rs:3261-3308 | matching its market fills a resting plain order if and only if the top of the book is within its limit, whatever else is matched |
| `EnginePostOnly.AmendedPostOnlyTradesExactlyWhenCrossing` | crates/h5i-db-backtest/src/engine.rs:2736-2799 | in every reachable state, after a resting post-only order's limit is amended, its next offer and the next match trade it if and only if the top opposite price is within the new limit |
| `EnginePostOnly.TriggeredPostOnlyTradesExactlyWhenCrossing` | crates/h5i-db-backtest/src/engine.rs:1605-1642 | in every reachable state, arming trades a parked post-only order if and only if the mark has reached its trigger and the top opposite price is within its limit |
| `EngineQueueRuns.OnlyFeedSplitOrAmendMovesReach` | crates/h5i-db-backtest/src/engine.rs:2983-2999 | through any continuation without a feed of its book, a split of its instrument or an amendment of its limit, an order out of reach of the market stays out of reach |
| `EngineWitnesses.AmendedPostOnlyTakes` | crates/h5i-db-backtest/src/engine.rs:2736-2799 | a run where a resting post-only bid is amended up to the offer and takes it, on record as a maker |
| `EngineQueue.ReachedByTradeIsExact` | crates/h5i-db-backtest/src/engine.rs:216-238 | the orders a print reaches are exactly the resting orders of that side it can hit, each once, best price first and earliest order first |
| `EngineQueue.PrintIsAWaterfall` | crates/h5i-db-backtest/src/engine.rs:3509-3560 | each reached order is filled by exactly what is left of the volume after everything before it and the queue ahead of it, up to what it wants, and its queue shrinks by exactly what reached it |
| `EnginePrints.TicketsAreShares` | crates/h5i-db-backtest/src/engine.rs:3527-3550 | an order is owed a fill if and only if its share of the volume is positive, and for exactly that share |
| `EnginePrints.ConsumeBooksTickets` | crates/h5i-db-backtest/src/engine.rs:3527-3550 | the account changes by one maker's fill per owed share, at the order's own limit and the fee model's price, and in no other way |
| `EnginePrints.PrintBooksMakerFills` | crates/h5i-db-backtest/src/engine.rs:3485-3560 | in every reachable state a print that bought fills resting sells and one that sold fills resting bids, with no side stated both or neither as the model says; each reached order with a positive share gets one fill, at its own limit, as a maker, in the order reached, and nothing else is booked |
| `EngineQueue.LeftoverIsUnused` | crates/h5i-db-backtest/src/engine.rs:3509-3560 | a print ends with exactly what all reached orders together could not use |
| `EngineQueue.PrintVolumeIsAccountedFor` | crates/h5i-db-backtest/src/engine.rs:3509-3560 | queue volume traded away, fills and the leftover add up to the print; something is left only when every reached order is filled |
| `EngineQueue.FillsRespectPriority` | crates/h5i-db-backtest/src/engine.rs:3509-3560 | an order is filled only if every order reached before it is completely filled |
| `EngineQueueRuns.PrintsAreAccountedFor` | crates/h5i-db-backtest/src/engine.rs:3485-3560 | in every reachable state a print reaches orders in priority order, its volume is accounted for, and an order gets anything only if every order of higher priority is filled |
| `EngineQueueRuns.PrintFillsAreBehindTheQueue` | crates/h5i-db-backtest/src/engine.rs:3430-3446 | from any moment an order rests, through every later step but its own amendment to another limit or a larger size, print fills are at most the volume that reached it beyond the size ahead of it at that moment |
| `EngineQueueRuns.EndingsAreFinal` | crates/h5i-db-backtest/src/order.rs:298-346 | an order that ended keeps its status and fills however the run goes on, and fills are never taken back |
| `EngineClosed.NothingRestsPastExpiry` | crates/h5i-db-backtest/src/engine.rs:1657-1689 | after any run no order rests on an instrument whose expiry has come |
| `EngineClosed.NothingTradesPastExpiry` | crates/h5i-db-backtest/src/engine.rs:3310-3338 | from then on, whatever is fed, sent, printed or matched, no fill on any of its outcomes is recorded but by a delisting of it |
| `EngineClosed.SweepClears` | crates/h5i-db-backtest/src/engine.rs:3261-3283 | matching after a corporate action takes every order off a stopped instrument if and only if the outcome it names has a book or nothing rested there |
| `EngineClosed.NothingTradesAfterDelisting` | crates/h5i-db-backtest/src/engine.rs:3328-3338 | after a delisting and the matching of the record that carried it, no continuation trades on any outcome of the instrument but a second delisting |
| `EngineClosed.PrintCanFillExactlyWhenListed` | crates/h5i-db-backtest/src/engine.rs:3509-3560 | in every reachable state, stopped or not, some print fills on an instrument if and only if an order with something left to fill rests there |
| `EngineClosed.StepSpares` | crates/h5i-db-backtest/src/engine.rs:1716-1736 | on a stopped instrument no step but its own delisting, and a print while something still rests there, lets an order rest or a fill be recorded |
| `EngineClosed.StoppedMeans` | crates/h5i-db-backtest/src/engine.rs:1716-1736 | a market has stopped if and only if its expiry has come or it was delisted |
| `EngineLifecycle.StepKept` | crates/h5i-db-backtest/src/engine.rs:3448-3477 | no step but a print, or the order's own amendment to another limit or a larger size, changes its place in the queue while it stays open, and only a split changes its terms |
| `EngineAmends.AmendmentPlaces` | crates/h5i-db-backtest/src/engine.rs:2736-2799 | in every reachable state an amendment of an ended order does nothing and an improper one ends the run; otherwise the order has the size and limit asked for, goes behind the size shown at its limit if and only if the limit is another or the size larger, and every other order keeps its place |
| `EngineAmends.ArrivalJoinsBehind` | crates/h5i-db-backtest/src/engine.rs:3430-3456 | in every reachable state an order that comes to rest on arrival has ahead of it exactly the size the market shows on its side at its limit |
| `EngineRisk.PositionLimitHolds` | crates/h5i-db-backtest/src/engine.rs:3107-3146 | for the positive limits the builder accepts, over every run of submits, cancels, shrinking or repricing amends, arrivals, triggers, prints, matches and expiries, position plus open buys is at most the limit and position less open sells at least its negation, so the position itself never exceeds it |
| `EngineShorts.NobodyGoesShort` | crates/h5i-db-backtest/src/engine.rs:3003-3083 | where naked shorts are refused, no run of such steps whose prediction-market sells are covered when sent, reduce-only ones counted, takes a position short; without prints, reduce-only sells need no cover while no plain sell is open |
| `EngineShorts.PlainSellersNeverGoShort` | crates/h5i-db-backtest/src/engine.rs:3027-3083 | over such runs without reduce-only orders the gate alone is enough, with prints too: every position covers its open sells |
| `EngineShortRuns.GoesShortExactlyWhenOversold` | crates/h5i-db-backtest/src/engine.rs:3027-3083 | after any such run, with the open sells resting and no prints, some continuation without new orders takes the position short if and only if it is short already or more is open to sell, reduce-only included, than is held and some of it is plain |
| `EngineShortRuns.GoesShortExactlyWhenOverOffered` | crates/h5i-db-backtest/src/engine.rs:3509-3560 | with prints, which clamp nothing: with the open sells resting, some continuation goes short if and only if the position is short already or more is open to sell than is held |
| `EngineWitnesses.CoveredSellGoesShort` | crates/h5i-db-backtest/src/engine.rs:3003-3083 | a run without prints where a sell admitted against the holding ends ten short after a reduce-only sale |
| `EngineRisk.BookFillGuarded` | crates/h5i-db-backtest/src/engine.rs:3870-3949 | a fill trades open size for position and so keeps both bounds |
| `EngineRisk.SubmittedGuarded` | crates/h5i-db-backtest/src/engine.rs:2907-2977 | the check at submission is enough to bring the new order inside the bounds |
| `EngineGates.SubmissionIsExact` | crates/h5i-db-backtest/src/engine.rs:2907-2977 | in every reachable state an order sent goes on the wire if and only if it is well formed, its market trades, a plain prediction-market sell is covered with every other open plain sell, and size, open count and the position at either extreme are within their limits; otherwise it is recorded as rejected |
| `EngineGates.OpenOrdersAreCapped` | crates/h5i-db-backtest/src/engine.rs:3094-3106 | after any run no more orders are open than the cap |
| `EngineArrivals.ArrivalIsExact` | crates/h5i-db-backtest/src/engine.rs:3151-3258 | in every reachable state an arriving order is rejected if and only if its market stopped, it is post-only and within reach, or, unless parked, it would meet a resting order of the account or cannot be funded; parked if and only if the mark has not come to its trigger; else offered |
| `EngineArrivals.LateArrivalIsIdle` | crates/h5i-db-backtest/src/engine.rs:3151-3175 | an arrival that is not on the wire does nothing, and one that ended on the way only leaves the wire |
| `EngineArrivals.ArmingIsExact` | crates/h5i-db-backtest/src/engine.rs:1605-1642 | in every reachable state arming lets loose exactly the parked orders whose trigger the mark has come to |
| `EngineSets.BasisSumsToOne` | crates/h5i-db-backtest/src/engine.rs:3821-3835 | whatever the marks, the division of a set covers every outcome and sums to exactly one |
| `EngineLegs.BasisFollowsMarks` | crates/h5i-db-backtest/src/engine.rs:3821-3835 | when every outcome has a positive mark each leg is its share of the marks rounded down, but for one of the largest; otherwise the legs are even to one raw unit |
| `EngineSets.SetOperationMoves` | crates/h5i-db-backtest/src/engine.rs:3605-3760 | a permitted operation moves every outcome by the number of sets, and cash by the legs, the flat cost and the change in isolated collateral its positions call for; it leaves funding, dividends and every other order alone; a refused one moves nothing |
| `EngineLegs.PermittedExactlyWhen` | crates/h5i-db-backtest/src/engine.rs:3605-3818 | an operation is taken if and only if the market trades as a set and has not stopped, the count is positive, a basket is proper, and cash covers a mint or every outcome a redemption or conversion |
| `EngineLegs.RefusalIsExact` | crates/h5i-db-backtest/src/engine.rs:3605-3760 | an operation on a market that is no set, for a count that is not positive or with an improper basket ends the run; any other that is refused does nothing |
| `EngineLegs.SetOperationBooksLegs` | crates/h5i-db-backtest/src/engine.rs:3715-3745 | a permitted operation books one fill per outcome in order, the whole count at that outcome's part of the unit, a mint buying and the others selling, with the flat cost on the first, and nothing else |
| `EngineSets.WholeSetsPriceExactly` | crates/h5i-db-backtest/src/engine.rs:3605-3760 | whole contracts cost exactly their count, whatever the marks |
| `EngineSets.FractionalSetsPriceClosely` | crates/h5i-db-backtest/src/engine.rs:3605-3760 | any other count is priced within half a raw unit per outcome |
| `EngineSets.MintIsAffordable` | crates/h5i-db-backtest/src/engine.rs:3761-3790 | a permitted mint of whole contracts costs its count and the flat cost, and leaves cash negative if and only if cash was below those plus the isolated collateral it calls for; with no call it never does |
| `EngineSets.MintOverdrawsLittle` | crates/h5i-db-backtest/src/engine.rs:3761-3790 | a permitted mint of any count leaves cash negative if and only if the legs, the flat cost and the collateral called for exceed the cash there was, and by at most that collateral and half a raw unit per outcome |
| `EngineSets.FractionalMintOverdraws` | crates/h5i-db-backtest/src/engine.rs:3761-3790 | with one raw unit of cash, one raw set at even odds is permitted and leaves cash at minus one |
| `EngineSets.IsolatedMintOverdraws` | crates/h5i-db-backtest/src/engine.rs:1759-1795 | with cash for exactly one set of an isolated instrument, the mint is permitted and ends with cash at minus two |
| `EngineSets.RedeemLeavesNothingShort` | crates/h5i-db-backtest/src/engine.rs:3790-3818 | a permitted redemption or conversion never leaves an outcome short |
| `EngineSets.MintThenRedeem` | crates/h5i-db-backtest/src/engine.rs:3605-3760 | mint, let marks move, redeem: the redemption is permitted, every position is back, and cash with the posted collateral is out exactly the two flat costs |
| `EngineSets.ConversionLeavesTheResidual` | crates/h5i-db-backtest/src/engine.rs:3632-3685 | converting leaves of the named basket one contract on every outcome not named and none on those named, for one unit of cash per set given up less the cost |
| `EngineSplit.SplitScalesEachOrderOnce` | crates/h5i-db-backtest/src/engine.rs:2543-2616 | in every reachable state a split restates size, limit and trigger of each order of the instrument that is resting, parked or in flight exactly once, and changes no other order |
| `EngineSplit.SplitRestatesTheAccount` | crates/h5i-db-backtest/src/engine.rs:2543-2616 | a split restates size and average price of every holding, every mark and every oracle price of the instrument, and moves no money and nothing of any other instrument; a ratio that is not positive is refused |
| `EngineSplit.SplitKeepsOutOfReach` | crates/h5i-db-backtest/src/engine.rs:2478-2519 | an order the market could not fill is still out of reach after a split if and only if its gap to the opposite price survives the rounding |
| `EngineWitnesses.SplitMakesRestingOrderTrade` | crates/h5i-db-backtest/src/engine.rs:2478-2519 | a run where a post-only bid resting one raw unit below the offer is filled on the record of a three-for-one split |
| `EngineWitnesses.SplitLeavesQueueBehind` | crates/h5i-db-backtest/src/engine.rs:2543-2616 | a run where a two-for-one split makes the six displayed ahead of a bid twelve, and the bid is still counted as behind six |
| `EngineMachine.Kernel.RemoveFromBook` | crates/h5i-db-backtest/src/engine.rs:3458-3465 | takes an order out of the index, the list and the queue |
| `EngineMachine.Kernel.Join` | crates/h5i-db-backtest/src/engine.rs:3430-3446 | joins the back of the displayed queue at the order's price, once |
| `EngineMachine.Kernel.AddToBook` | crates/h5i-db-backtest/src/engine.rs:3448-3456 | joins the queue, the index and the list, once |
| `EngineMachine.Kernel.CloseOrder` | crates/h5i-db-backtest/src/engine.rs:3579-3590 | ends an open order and takes it off the book |
| `EngineMachine.Kernel.NoLiquidity` | crates/h5i-db-backtest/src/engine.rs:3563-3577 | rests or cancels by time in force |
| `EngineMachine.Kernel.PruneResting` | crates/h5i-db-backtest/src/engine.rs:3467-3477 | the sweep loop drops exactly the closed orders |
| `EngineMachine.Kernel.Rebalance` | crates/h5i-db-backtest/src/engine.rs:1759-1795 | moves cash against the collateral the open positions call for |
| `EngineMachine.Kernel.BookMoney` | crates/h5i-db-backtest/src/engine.rs:3870-3925 | positions, cash, collateral and the fill record after one fill |
| `EngineMachine.Kernel.BookOneFill` | crates/h5i-db-backtest/src/engine.rs:3870-3949 | the whole new state after one fill, or the overfill fault |
| `EngineMachine.Kernel.WalkFor` | crates/h5i-db-backtest/src/engine.rs:3364-3392 | walks the book the fill model gives, level by level |
| `EngineMachine.Kernel.TryFillOrder` | crates/h5i-db-backtest/src/engine.rs:3339-3422 | matching one order leaves the state the step describes |
| `EngineMachine.Kernel.MatchMarket` | crates/h5i-db-backtest/src/engine.rs:3261-3308 | the candidate loop leaves the state the step describes |
| `EngineMachine.Kernel.CollectReached` | crates/h5i-db-backtest/src/engine.rs:216-238 | collects the reached orders level after level, best price first |
| `EngineMachine.Kernel.ConsumeQueueSide` | crates/h5i-db-backtest/src/engine.rs:3509-3560 | the print loop leaves the state of the waterfall, with the fills `EnginePrints` states |
| `EngineMachine.Kernel.ConsumeQueue` | crates/h5i-db-backtest/src/engine.rs:3485-3507 | which sides a print works through |
| `EngineMachine.Kernel.Send` | crates/h5i-db-backtest/src/engine.rs:2907-2977 | a new order is refused at the gate or goes on the wire |
| `EngineMachine.Kernel.Amendment` | crates/h5i-db-backtest/src/engine.rs:2742-2775 | the order as it would be amended, whether that gives up its place, or a refusal |
| `EngineMachine.Kernel.AmendOne` | crates/h5i-db-backtest/src/engine.rs:2736-2799 | a new limit or a larger size requeues the order; a smaller one keeps its place |
| `EngineMachine.Kernel.Arrive` | crates/h5i-db-backtest/src/engine.rs:3151-3258 | an arrival is rejected, parked or offered |
| `EngineMachine.Kernel.ArmTriggered` | crates/h5i-db-backtest/src/engine.rs:1605-1642 | parked orders the mark has reached are offered, the others stay parked |
| `EngineMachine.Kernel.AdvanceClock` | crates/h5i-db-backtest/src/engine.rs:1657-1689 | resting orders of expired instruments are cancelled as time passes |
| `EngineMachine.Kernel.ApplySplit` | crates/h5i-db-backtest/src/engine.rs:2543-2616 | positions, orders in all three places, books and reference prices move together |
| `EngineMachine.Kernel.PayDividend` | crates/h5i-db-backtest/src/engine.rs:2617-2624 | cash and dividends received rise by what is due |
| `EngineMachine.Kernel.SettleFunding` | crates/h5i-db-backtest/src/engine.rs:2449-2468 | cash falls and funding paid rises by the payment on every open position |
| `EngineMachine.Kernel.DelistInstrument` | crates/h5i-db-backtest/src/engine.rs:2625-2673 | every open position is cashed out at the final price and the instrument is closed |
| `EngineMachine.Kernel.BasisFor` | crates/h5i-db-backtest/src/engine.rs:3821-3835 | the marks normalised when every outcome is quoted, an even division otherwise |
| `EngineMachine.Kernel.RunSetOperation` | crates/h5i-db-backtest/src/engine.rs:3605-3760 | the leg loop leaves the state the operation describes |
| `EngineMachine.Kernel.Perform` | crates/h5i-db-backtest/src/engine.rs:1399-1480 | any step leaves the state its step function describes |
| `EngineMachine.RunKernel` | crates/h5i-db-backtest/src/engine.rs:1382-1398 | a whole run of the object ends in the state of the run of its steps, so every theorem about runs is about the object |

## Left out

- Strategy callbacks: a strategy issues no commands from inside a fill, so the fill loops are not re-entered.
- Latency: the in-flight heap is a list from which any order may be released at any step, which covers every release order; queue positions of orders amended in flight are not constrained.
- Integer overflow: raw values are unbounded except in the two notional builds, where the range is the point.
- Floating point, Arrow encodings, the store, digests, execution logging and metrics: start from raw integers and plain values.
- Margin, currency conversion and liquidation sizing: whether an arriving order can be funded, and what the engine's own closing orders are, are parameters of a run.
- TWAP scheduling: its child orders are engine orders of any size.
- Mark derivation (book, venue or last trade): a mark is set by a step of its own.
- Equity sampling, expiry bookkeeping and the once-only expired set: an expired instrument's resting orders are cancelled on every advance, which the set only saves repeating.
- Vacuum and `Database`: slots are cleared only as an environment step on a stopped writer's slot above HEAD; the first sequence is 0 (crates/h5i-db-core/src/database.rs:677) and every other is HEAD plus one.
- EngineFees.KalshiCashMovesByWholeCents: accumulators of closed orders are kept rather than dropped, and legs of set operations get one of their own; no later fill can see either.
- TieredFees, ProportionalFees, PredictionMarketFees and TickSlippage: single expressions or sums; the engine takes any fee as a function of the fills so far.
- SymbolRegistry, Universe and price rules: a price is valid or not by a parameter.
- EngineRisk.PositionLimitHolds: is not over splits, delistings, set operations, engine orders or growing amends, which pass the pre-trade checks by.
- EngineShorts.NobodyGoesShort: is over the same steps; with prints, which do not clamp reduce-only orders, every sell must be covered when sent.
- EngineShortRuns.GoesShortExactlyWhenOversold: is about open sells that rest on the book, at a venue matching against its own book with a valid price above them; a sell in flight, parked or stranded may never be fillable.
- EngineShortRuns.GoesShortExactlyWhenOverOffered: is about open sells that rest on the book, for the same reason.
- EngineClosed.NothingTradesAfterDelisting: requires the book that the source's own delisting record creates before it is matched (engine.rs:2328-2332); in the model a delisting and its matching are two steps.
- EngineSplit.SplitScalesEachOrderOnce: the part of a partly filled order already filled is not rescaled, as in the source.
- EngineQueueRuns.PrintFillsAreBehindTheQueue: counts fills by prints only; fills from the book coming to the order are matched, not queued.
- Clocks.Clock.AdvanceTo: requires the condition under which the loop ends.
