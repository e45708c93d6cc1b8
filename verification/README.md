# CEX verification

A Dafny model of the exchange's matching engine, of the durability and publication path around it, and
of the money it settles: holds, fees, the double-entry ledger and custody authorisation. `dafny verify
dfyconfig.toml` checks everything.

## How it is put together

**Matching.** `ReferenceMatcher` states the matching rules over two price-time sorted lists.
`MatchingTheorems`, `MatchingInvariants`, `MatchingRuns`, `DepthMirror`, `EventContract` and `Admission`
prove what the rules guarantee for every book and every run of commands. `OrderBook` is the real
structure: price ladders of FIFO id queues with tombstones, running level totals and an index. `Engine`
is the engine over it, and `Engine.Apply` is proved to compute the reference exactly. `ReusedIds` is the
run that reaches the book's one weak spot. `SelfTrade`, `Dispositions`, `Refusals` and `MarketState` say what
each rule comes to without naming the code that applies it: what every self-trade mode, time in force and
post-only order does, why an order is refused, and what the market remembers.

**Durability.** `Journal` is the record format and the replay of a damaged file, byte by byte.
`Replay` and `Runtime` are snapshots and recovery from a crash at any byte. `Lookup` is the client-order
index and `Sweeper` what its answers prove. `EventStream`, `Egress`, `Reemission`, `StreamOffsets` and
`Publication` are event keys, paging, the ring, the watermark and the concurrent publication protocol, as
a state machine over every interleaving of submitters, publish failures (also partway), crashes and
recoveries. `PublicationProgress` shows that it always can go on,
`PublishedLevels` follows the level changes that ride on the stream, and `PublicationFaults`
holds the runs that break the protocol's hypotheses. `Consumer` is the reader at the other end,
`Delivery` the consumer group it reads through, and `EndToEnd` joins journal and reader.

**Money.** `Orders` is fixed-point arithmetic, validation and holds, and `FixedPoint` pins every rounded
amount from both sides. `Ledger`, `LedgerHistory`,
`Projection` and `Coverage` are the chart of accounts, every posting, and the checks over them.
`Settlement` and `SettlementRuns` put orders and ledger together and follow them over whole runs.
`SettlementFeed`, `MatchedFills` and `EventHistory` say what the engine's events promise about an order,
and `FedSettlement` feeds them to settlement, as a machine of gateway, engine and worker in which every
check of the worker is modelled. `FedOutcomes`, `SettlementHalts` and `HaltingRun` say what that comes to
and exactly which orders can stop it. `SettlementEffects` says what each step moves,
`CustodyRuns` runs custody and trading together, and `HouseFlows` and
`TradingFees` say where the house's balances come from.

**Small exact algorithms.** `Custody`, `ReplayCache`, `Portfolio` with `PortfolioLedger`, `Decimal` with
`DecimalForms`.

## Hypotheses, and what happens without them

Several promises hold only under a condition that the code leaves to its callers or its configuration.
Each condition is proved to be exact, unless it is marked as only enough.

- Order ids are fresh. Placement looks only at the live index, and an id still queued as a tombstone
  would come back to life: `OrderBook.RestKeepsInvariantsExactly`, `OrderBook.ReusedIdIsUnsound`, and
  the run that gets there, `ReusedIds.ReuseAfterCancel`.
- The market status at a snapshot is the configured one. A snapshot does not carry it:
  `Replay.SnapshotRecoveryExact`, `Replay.ForgottenHalt`, and what it does to the stream,
  `PublicationFaults.ForgottenHaltBreaksTheStream`.
- A failed append leaves no bytes behind, or the process restarts before it journals again. The sequence
  is reused: `Journal.FailedAppendExactly`.
- A command's events fit the ring: `Egress.RecordKeepsWholeExactly`.
- A submission that matched also reaches the ring. A failed snapshot write returns before it does:
  `PublicationFaults.AbandonedPlanExactly`, `PublicationFaults.AbandonedSequenceIsLost`, and for the lookup
  index `Lookup.LiveIndexExact`.
- No order brought in by the amend of a resting one is swept. Only placements are indexed, and never-seen
  is taken for proof: `Sweeper.NeverSeenIsWrongExactly`, `Sweeper.RestingButNeverSeen`.
- The stream is not trimmed inside a sequence. The consumer's notion of the next key does not see that:
  `Consumer.FollowsExactly`, `Consumer.TrimmedTailIsLost`.
- A pass that left an entry unacknowledged is followed by a new connection: only enough, over a run
  (`Delivery.Work`). Exact for one pass is what it reads (`Delivery.Cycle`). A comment at
  `wallet/apps/api/src/services/engine-stream/sequenced-consumer.ts:132-136` says a failed event is tried
  again next cycle. The next read asks for new entries only, and can pass the failed event over:
  `Delivery.TransientTailIsLost`, `Delivery.RepeatHidesTheSkip`.
- The replay cache remembers for at least the clock tolerance: `ReplayCache.SafeExactly`.
- The house has funded its network fees. A comment at `wallet/packages/ledger/src/projection.ts:158-168`
  says the coverage check can never fire on balanced books. The code does not bear that out:
  `Coverage.CoveredExactly`, `Coverage.UnfundedFeeUncovers`.
- The last lot of a buy adds to its reserve. Settlement asserts that a live order still holds something,
  and stops when a part-filled buy of tiny lots does not: `FedSettlement.StepHaltsExactly`,
  `HaltingRun.HaltFreeExactly`, `HaltingRun.AdmittedOrderHalts`.

The clock, the network, the file system, Redis, signatures, checksums and serialisation appear as
parameters: a timestamp, a choice of which publish or sync succeeds, an abstract codec that decodes what
it encoded and rejects the wrong checksum.

## Model

| member | source | states |
|---|---|---|
| `MatchingTheorems.MatchFillsExactly` | wallet/services/matching/src/engine.rs:246-328 | for every book, side, limit, account and self-trade mode, the mutating match loop fills exactly the smaller of the quantity and what the read-only dry run says is fillable |
| `MatchingTheorems.StepFillable` | wallet/services/matching/src/engine.rs:266-328 | one pass of the loop takes off the dry run exactly what it fills, whichever self-trade branch it takes |
| `MatchingTheorems.MatchConserves` | wallet/services/matching/src/engine.rs:266-328 | matching moves an order's quantity between fills, releases, rest and remainder and makes none |
| `MatchingTheorems.RemainderMovesWithFills` | wallet/services/matching/src/engine.rs:266-328 | the taker's remainder shrinks exactly when a fill was emitted, so a stopped taker that filled nothing is rejected whole |
| `MatchingTheorems.PlaceConserves` | wallet/services/matching/src/engine.rs:194-386 | a placement, through every disposition branch, accounts for the whole quantity it was given |
| `MatchingTheorems.CommandConserves` | wallet/services/matching/src/engine.rs:108-190 | per order and per command: resting before plus placed equals traded plus released plus rejected plus resting after |
| `MatchingTheorems.AmendConserves` | wallet/services/matching/src/engine.rs:150-190 | an amend releases the old order's whole remainder and accounts for the replacement's quantity |
| `MatchingInvariants.MatchTakesInPriority` | wallet/services/matching/src/engine.rs:266-328 | makers are taken strictly from the front of the price-time list, all but the last exhausted, and a part-filled maker means a finished taker; the taker's own side is untouched |
| `MatchingInvariants.MatchExhaustsReach` | wallet/services/matching/src/engine.rs:266-328 | the loop ends only when stopped, filled, or nothing left crosses the taker's limit |
| `MatchingInvariants.MatchFillsLegally` | wallet/services/matching/src/engine.rs:266-328 | every fill is with a maker of another account, at that maker's own price, inside the taker's limit, for no more than the maker had |
| `MatchingInvariants.RestKeepsBook` | wallet/services/matching/src/book.rs:315-323 | resting a non-crossing order under a new id keeps the lists sorted, distinct, live, in arrival order and uncrossed |
| `MatchingInvariants.MatchKeepsBook` | wallet/services/matching/src/engine.rs:266-328 | matching keeps both lists sorted, distinct, live, in arrival order and uncrossed |
| `MatchingInvariants.PlaceKeepsBook` | wallet/services/matching/src/engine.rs:194-386 | so does a placement, including the rest of a remainder after matching |
| `MatchingInvariants.CommandKeepsBook` | wallet/services/matching/src/engine.rs:108-190 | so does every command, and the sequence moves to the command's own |
| `MatchingRuns.RunKeepsBook` | wallet/services/matching/src/engine.rs:108-129 | so does every run of commands from any well-formed state |
| `MatchingRuns.RunConserves` | wallet/services/matching/src/engine.rs:108-190 | over every run and for every order id: initially resting plus placed equals filled plus released plus rejected plus finally resting |
| `MatchingRuns.OrderAccountsForItsQuantity` | wallet/services/matching/src/engine.rs:150-386 | from an empty book with fresh ids, an order placed for a quantity, or brought in for it by amending a resting order, accounts for exactly that quantity at the end of any run |
| `MatchingRuns.ClosedForGood` | wallet/services/matching/src/engine.rs:108-190 | once an order is off the book and its id is not placed again, no later command fills it, releases it or rests it |
| `MatchingRuns.CommandFillsLegally` | wallet/services/matching/src/engine.rs:194-328 | no fill of any command self-trades, leaves its taker's limit or collar, or trades away from the maker's price |
| `MatchingRuns.RunFillsLegally` | wallet/services/matching/src/engine.rs:194-328 | the same for every fill of every command of every run |
| `MatchingRuns.FillOrKill` | wallet/services/matching/src/engine.rs:244-260 | a fill-or-kill order trades its whole quantity or leaves the book unchanged, and trades exactly when it is admitted and the dry run covers it |
| `MatchingRuns.PlaceShape` | wallet/services/matching/src/engine.rs:330-386 | a placement either matches and ends in exactly one disposition after its fills, or says one thing and changes nothing |
| `MatchingRuns.MatchReleasesMakers` | wallet/services/matching/src/engine.rs:276-303 | only orders that were resting are cancelled by self-trade prevention |
| `SelfTrade.CancelTakerYields` | wallet/services/matching/src/engine.rs:280-301 | under CancelTaker no resting order is released, a stopped taker leaves its own order at the front of the book, and one stopped before any fill leaves the book as it was |
| `SelfTrade.CancelBothTakesOne` | wallet/services/matching/src/engine.rs:280-301 | under CancelBoth a stopped taker released exactly one resting order, whole, its own account's and within its limit, which is gone; one not stopped released none |
| `SelfTrade.CancelMakerGoesOn` | wallet/services/matching/src/engine.rs:280-301 | under CancelMaker the taker is never stopped and ends filled or with nothing in reach |
| `SelfTrade.PreventedExactly` | wallet/services/matching/src/engine.rs:330-347 | an order is refused as a self-trade if and only if it reaches the book under a stopping mode, is not fill-or-kill, and the first order it would meet is its own account's |
| `SelfTrade.PlacementSelfTrade` | wallet/services/matching/src/engine.rs:194-347 | for every placement: CancelTaker releases nobody else's quantity and, prevented, changes nothing; CancelBoth, prevented, cancels exactly the one own order it met; CancelMaker is never prevented; whatever is cancelled is the account's own, whole |
| `SelfTrade.RunSelfTrade` | wallet/services/matching/src/engine.rs:108-347 | the same for every placing command of every run, amends included |
| `Dispositions.DispositionExactly` | wallet/services/matching/src/engine.rs:330-386 | every admitted order's one disposition, and whether and how it rests, follow from what it asked for, what it filled and whether it met its own account's order: only a good-till-cancelled limit order rests, and exactly what it did not fill |
| `Dispositions.RunExpiresTheRest` | wallet/services/matching/src/engine.rs:358-384 | in every run an immediate, fill-or-kill or market order never rests: whatever it did not fill is said to expire, unless it was refused for meeting its own account's order first |
| `Dispositions.PostOnlyNeverTakes` | wallet/services/matching/src/engine.rs:220-227 | a post-only order fills nothing and leaves the other side as it was, and is refused for crossing if and only if nothing else is wrong and some order rests at a price it would trade at |
| `Dispositions.TakersAreNotPostOnly` | wallet/services/matching/src/engine.rs:220-227 | over every run no post-only order is the taker of a fill |
| `Dispositions.CancelExactly` | wallet/services/matching/src/engine.rs:131-169 | a cancel of a resting order names all it had left and takes it, and nothing else, off the book; a cancel or amend of any other id is refused as unknown and changes nothing |
| `Refusals.EngineGivesFirstFault` | wallet/services/matching/src/engine.rs:394-444 | the engine admits an order exactly when nothing is wrong with it, each fault in plain arithmetic, and otherwise gives the first in its order of precedence |
| `Refusals.PlacementRefusedExactly` | wallet/services/matching/src/engine.rs:201-214 | a placement is refused as a duplicate exactly when its id is resting, otherwise for the first thing wrong with it, and a refused placement changes nothing |
| `Refusals.TradesAllInReach` | wallet/services/matching/src/engine.rs:229-328 | an admitted order trades only within its limit, or for a market order within the collar, and leaves something in reach only if it is filled, met its own account's order or is fill-or-kill |
| `Refusals.GatewayGivesEveryFault` | wallet/packages/orders/src/validate.ts:61-146 | the gateway's reasons are the same faults, each on its own, and one more: a buy whose value and worst fee do not fit |
| `MarketState.LastTradeIsNewestFill` | wallet/services/matching/src/engine.rs:304-308 | after every run the last trade is the price of the newest fill, and none if nothing traded |
| `MarketState.ReferenceIs` | wallet/services/matching/src/engine.rs:85-99 | over every run orders are judged against the newest fill's price; before the first fill against the midpoint of the highest bid and the lowest ask, rounded down; and against nothing while a side is empty |
| `MarketState.QuotesAreBest` | wallet/services/matching/src/book.rs:265-272 | over every run the quotes are the extremes of their sides, the highest bid below the lowest ask |
| `MarketState.StatusChangeIsSaid` | wallet/services/matching/src/engine.rs:72-83 | over every run a status change names the status last set before it and the new one, and leaves the book alone |
| `EventContract.CommandSpeaks` | wallet/services/matching/src/engine.rs:7-22 | every command emits at least one event, all under its own sequence, the last never a fill, with fill ids distinct within the command |
| `EventContract.MatchKeyed` | wallet/services/matching/src/types.rs:172-177 | fills of one command are numbered 0, 1, 2 in emission order |
| `DepthMirror.CommandReports` | wallet/services/matching/src/book.rs:229-255 | every level whose quantity a command changed is among the levels it reports |
| `DepthMirror.MirrorFollowsBook` | wallet/services/matching/src/runtime.rs:88-108 | a mirror started from the depth at any point of a run and fed each later command's absolute level changes equals the book's depth at the end |
| `DepthMirror.RepeatedChanges` | wallet/services/matching/src/types.rs:179-196 | applying one command's level changes twice alters nothing |
| `DepthMirror.DepthAddsUp` | wallet/services/matching/src/book.rs:229-255 | depth counts what rests: an order that rests adds its remainder to its own level and no other, and one taken off takes it away again |
| `Admission.RunKeepsGrid` | wallet/services/matching/src/engine.rs:390-444 | over every run every resting order is on a tick with whole lots left, and every fill trades whole lots on a tick |
| `Admission.CommandKeepsGrid` | wallet/services/matching/src/engine.rs:108-190 | each command, amends included, keeps the book and its fills on the grid and changes nothing of the market but its status |
| `Admission.MatchKeepsGrid` | wallet/services/matching/src/engine.rs:266-328 | part-filling never leaves dust: every remainder stays a multiple of the lot |
| `Admission.EngineReasonIsListed` | wallet/packages/orders/src/validate.ts:61-146 | judged against the same reference, the engine's first reason for refusing any order, limit or market, is always one of the gateway's |
| `Admission.GatewayRefusesOnlyReserves` | wallet/packages/orders/src/validate.ts:113-143 | of the orders the engine admits, the gateway refuses exactly the buys whose reserve, at the limit or at the top of the collar, does not fit u64, and for that reason alone |
| `PriceTimeList.DeterminedByLevels` | wallet/services/matching/src/book.rs:402-450 | a price-sorted list is determined by its levels: agreement at every price is equality |
| `PriceTimeList.AtPriceInsert` | wallet/services/matching/src/book.rs:119-123 | inserting joins the back of its own level and disturbs no other |
| `PriceTimeList.BestLevelIsHead` | wallet/services/matching/src/book.rs:90-96 | the front order of the best level is the head of the price-time list |
| `OrderBook.RestIs` | wallet/services/matching/src/book.rs:315-323 | the queue book after a rest stands for the price-time list after an insert, given an id that is in no queue |
| `OrderBook.CancelIs` | wallet/services/matching/src/book.rs:159-176 | the queue book after a cancel, tombstone left behind, stands for the list without that order |
| `OrderBook.ShrinkIs` | wallet/services/matching/src/book.rs:371-391 | a partial fill shrinks the head of the list and its level's total alike |
| `OrderBook.ExhaustIs` | wallet/services/matching/src/book.rs:371-391 | a fill that exhausts the front order removes the head of the list, and its level when that was the last live order |
| `OrderBook.PruneIs` | wallet/services/matching/src/book.rs:325-341 | popping a tombstone changes nothing that anyone can see |
| `OrderBook.FrontIs` | wallet/services/matching/src/book.rs:325-341 | a live id at the head of a queue is the first order at that price |
| `OrderBook.BestIs` | wallet/services/matching/src/book.rs:90-96 | the ladder's best price is the price of the first order in the list |
| `OrderBook.IsSound` | wallet/services/matching/src/book.rs:402-450 | a book that stands for well-formed lists passes every check of the engine's own invariant: exact totals, no dead level, uncrossed, each live order queued once, index and queues agreeing |
| `OrderBook.RestKeepsInvariantsExactly` | wallet/services/matching/src/book.rs:315-323 | resting a non-crossing newest order keeps the invariant if and only if its id is not still queued as a tombstone |
| `OrderBook.ReusedIdIsUnsound` | wallet/services/matching/src/book.rs:164-176 | reusing an id whose tombstone is still queued always breaks the invariant |
| `ReusedIds.ReuseAfterCancel` | wallet/services/matching/src/book.rs:315-400 | rest two orders at one price and cancel the first: the book is sound, the first is gone from the index and the lists, and any order rested under its id breaks the invariant |
| `ReusedIds.TombstoneRemains` | wallet/services/matching/src/book.rs:159-176 | after that cancel the level is exactly the two ids, the first a tombstone, with the second's quantity |
| `OrderBook.OrderBook.Rest` | wallet/services/matching/src/book.rs:315-323 | the list view gains the order behind its price's others, ladder and index change in exactly that level and entry, and the level is recorded as touched |
| `OrderBook.OrderBook.FrontLive` | wallet/services/matching/src/book.rs:325-341 | the pruning loop returns the first live order at the price and leaves the view unchanged |
| `OrderBook.OrderBook.ConsumeFront` | wallet/services/matching/src/book.rs:371-391 | returns the front order as it stood and leaves the view with that quantity taken from it |
| `OrderBook.OrderBook.Remove` | wallet/services/matching/src/book.rs:393-400 | returns and removes the order wherever it sits, its id left queued unless the level goes, or reports that no such order rests and changes nothing |
| `OrderBook.OrderBook.TakeLevelChanges` | wallet/services/matching/src/book.rs:233-255 | every touched level with the quantity it has now, and an empty record afterwards |
| `OrderBook.OrderBook.FromSnapshot` | wallet/services/matching/src/snapshot.rs:21-25 | a book restored from a snapshot has the same view, with nothing recorded as touched |
| `Engine.Engine.FillableQty` | wallet/services/matching/src/engine.rs:453-495 | the dry-run walk over ladders and tombstones computes the list's fillable quantity and changes nothing |
| `Engine.Engine.LevelFillable` | wallet/services/matching/src/engine.rs:467-495 | the same within one level, stopping at an own order when the mode stops |
| `Engine.Engine.MatchLoop` | wallet/services/matching/src/engine.rs:266-328 | the loop over the tombstone book terminates and computes the list matcher's result: same events, remainder and view |
| `Engine.Engine.DisposeOf` | wallet/services/matching/src/engine.rs:330-385 | the disposition after matching is the list matcher's, a resting remainder included |
| `Engine.Engine.Place` | wallet/services/matching/src/engine.rs:194-386 | a placement computes the list matcher's placement |
| `Engine.Engine.Cancel` | wallet/services/matching/src/engine.rs:133-148 | a cancel computes the list matcher's cancel |
| `Engine.Engine.Amend` | wallet/services/matching/src/engine.rs:150-190 | an amend computes the list matcher's cancel-and-replace |
| `Engine.Engine.Apply` | wallet/services/matching/src/engine.rs:108-129 | for every command with fresh ids, the engine's events and book are the list matcher's; from a well-formed book in sequence order the book stays well-formed and passes every check of `invariants_hold` |
| `Engine.Engine.TakeLevelChanges` | wallet/services/matching/src/engine.rs:101-106 | the levels changed since last asked, with their quantities now |
| `Engine.IndexAnswers` | wallet/services/matching/src/book.rs:281-287 | the order index answers what a scan of both lists would |
| `Journal.HasValidRecordAfter` | wallet/services/matching/src/journal.rs:249-265 | the byte-wise scan finds an intact record after the damage exactly when one starts at some later offset |
| `Journal.Replay` | wallet/services/matching/src/journal.rs:121-204 | the loop returns the commands of the intact records after a sequence, the torn tail's offset if any, or an error exactly where the header, the order of sequences or damage before an intact record calls for one |
| `Journal.JournalFile.Append` | wallet/services/matching/src/journal.rs:67-87 | succeeds exactly when the record is readable back and no write or sync fails; the file grows by exactly the bytes that landed, all, none or part of the record |
| `Journal.JournalFile.Open` | wallet/services/matching/src/journal.rs:42-61 | a missing or empty file gets a header, any other is left alone and must have one |
| `Journal.JournalFile.ReplayFile` | wallet/services/matching/src/journal.rs:121-204 | replays, and cuts the file at the torn tail only when asked to and only when the replay succeeded |
| `Journal.ReadBack` | wallet/services/matching/src/journal.rs:223-247 | an appended record reads back wherever it sits, whatever surrounds it |
| `Journal.CutRecordIsBad` | wallet/services/matching/src/journal.rs:223-247 | a record cut short at the end of the file is damage, never a different record |
| `Journal.ScanOfCut` | wallet/services/matching/src/journal.rs:121-204 | cutting a journal at any byte after its header leaves exactly the complete records readable, with damage after them exactly when the cut fell inside a record |
| `Journal.CutReplaysToPrefix` | wallet/services/matching/src/journal.rs:121-204 | replaying a journal cut at any byte, after any sequence, returns exactly the complete records' commands after that sequence, or refuses exactly when bytes inside the torn record read as an intact record |
| `Journal.TakeAfter` | wallet/services/matching/src/journal.rs:144-169 | of increasing commands a replay takes exactly those after the sequence it is given, wherever that falls |
| `Journal.RepairedCut` | wallet/services/matching/src/journal.rs:187-191 | the truncation leaves on disk exactly the journal of the complete records |
| `Journal.FailedAppendExactly` | wallet/services/matching/src/journal.rs:67-87 | a process that survives a failed append, reuses the sequence and journals on leaves a journal that replays if and only if none of the failed append's bytes landed |
| `Journal.DamageInTheMiddleIsRefused` | wallet/services/matching/src/journal.rs:9-19 | a damaged record with an intact one anywhere after it is always refused, as corruption at that offset after the last good sequence, or as a regression if sequences already ran backwards |
| `Journal.TruncateThenAppend` | wallet/services/matching/src/journal.rs:170-204 | truncating at the torn tail and appending reads as if the torn record had never begun |
| `Replay.FoldIsRun` | wallet/services/matching/src/runtime.rs:122-136 | folding commands in two stages, or with the level record kept or taken, ends in one engine state |
| `Replay.ApplyIgnoresTouched` | wallet/services/matching/src/runtime.rs:138-160 | whether level changes were taken between commands changes neither events nor book |
| `Replay.SnapshotRecoveryExact` | wallet/services/matching/src/runtime.rs:41-66 | snapshot plus tail equals full replay for every tail if and only if the market status at the snapshot is the configured one |
| `Replay.ForgottenHalt` | wallet/services/matching/src/snapshot.rs:21-25 | a halt before the snapshot is forgotten: an order the open market admits is rejected by the full replay and not by the recovered engine |
| `Runtime.Runtime.Submit` | wallet/services/matching/src/runtime.rs:84-108 | the engine in memory stays the full replay of the journaled commands and its book passes the engine's own invariant; the file grows by exactly what the append wrote; a failed append changes nothing in memory and keeps the disk in step exactly when no byte landed; a failed snapshot loses the reply and not the command; the events returned are the ones a replay produces |
| `Runtime.Runtime.Match` | wallet/services/matching/src/runtime.rs:98-103 | matching a command already durable extends the replay by one and returns what a replay produces for it |
| `Runtime.Runtime.WriteSnapshot` | wallet/services/matching/src/runtime.rs:110-120 | the snapshot written is the engine's own sequence and book |
| `Runtime.BookIsSound` | wallet/services/matching/src/book.rs:402-450 | after every run from any well-formed state the object's book passes every check of `invariants_hold` |
| `Runtime.CutAnswers` | wallet/services/matching/src/runtime.rs:41-66 | a journal file cut at any byte and replayed after any snapshot before the cut is refused exactly when the cut is in the header or the torn bytes read as a record, and otherwise yields exactly the complete commands after the snapshot |
| `Runtime.Recover` | wallet/services/matching/src/runtime.rs:41-66 | for a crash at any byte of any append, every snapshot cadence included: refused exactly in those cases with the disk untouched; otherwise the file is repaired to the complete records, sequencing resumes after them, the book is sound, and the engine is the full replay given the configured status at the snapshot |
| `Runtime.ReplayTail` | wallet/services/matching/src/runtime.rs:53-60 | the loop applies exactly the journaled commands after the snapshot's sequence |
| `Lookup.EntriesAnswer` | wallet/services/matching/src/lookup.rs:47-60 | the index of a journal names, for each client id, its newest placement and nothing else |
| `Lookup.LookupIndex.Rebuild` | wallet/services/matching/src/lookup.rs:47-60 | the scan loop builds the index of the whole journal |
| `Lookup.LookupIndex.Record` | wallet/services/matching/src/lookup.rs:62-67 | recording each journaled command as it happens gives the index a rebuild would |
| `Lookup.LookupIndex.Get` | wallet/services/matching/src/lookup.rs:69-80 | an unready index says so and nothing else; never-seen is answered exactly when the journal has no placement under the id |
| `Lookup.LiveIndexExact` | wallet/services/matching/src/service.rs:157-176 | the live index equals the rebuilt one if and only if the newest placement under every client id was recorded |
| `Sweeper.TouchedWasIntroduced` | wallet/services/matching/src/engine.rs:108-190 | whatever order the engine traded or holds was introduced by a placement or by the amend of a resting order |
| `Sweeper.NeverSeenIsWrongExactly` | wallet/services/matching/src/lookup.rs:47-60 | per order: the index has never seen an id the engine was given a quantity for if and only if some amend, of an order resting when it arrived, brought the id in |
| `Sweeper.NeverSeenIsProof` | wallet/apps/api/src/workers/pending-engine-sweeper.ts:93-125 | when no such amend brought it in, an id the index has never seen was neither traded nor is held by the engine |
| `Sweeper.RestingButNeverSeen` | wallet/services/matching/src/lookup.rs:47-60 | a two-command journal after which the replacement rests in full and the index has never seen it |
| `EventStream.TakeWholeSequences` | wallet/services/matching/src/types.rs:234-253 | the loop takes events up to the limit and then finishes the sequence it is in |
| `EventStream.EventIndices` | wallet/services/matching/src/types.rs:210-232 | the loop numbers events by position within their own sequence |
| `EventStream.PageShape` | wallet/services/matching/src/types.rs:228-253 | a page is a whole number of sequences, the next ones, with exactly their published keys; it reaches the limit if there is more to give, and exceeds it by less than one command's events |
| `EventStream.ReadAll` | wallet/services/matching/src/service.rs:245-266 | pages with any limit of at least one, each resumed at the last one's final sequence, concatenate to the exact keyed event stream |
| `EventStream.KeysByPosition` | wallet/services/matching/src/types.rs:210-232 | keys assigned by position in a page that starts at a sequence boundary are the keys of the whole run |
| `EventStream.KeysUnique` | wallet/services/matching/src/types.rs:210-232 | the key of sequence and position is unique across the whole run |
| `Egress.EventRing.Record` | wallet/services/matching/src/egress.rs:255-270 | the eviction loop drops whole sequences from the front |
| `Egress.EventRing.RecordWithLevels` | wallet/services/matching/src/egress.rs:235-245 | for the next command's batch that fits, the ring goes on holding whole sequences, a sequence is evicted only if the ring would not have held it and all after it, every sequence it holds has exactly the levels its command reported, and no other has any |
| `Egress.EventRing.Since` | wallet/services/matching/src/egress.rs:276-292 | exactly the page a journal replay would give after the sequence, or nothing exactly when the ring does not reach back that far |
| `Egress.EventRing.LevelsSince` | wallet/services/matching/src/egress.rs:247-253 | every later sequence with exactly the levels its command reported, whenever the ring reaches back to it |
| `Egress.RecordKeepsWholeExactly` | wallet/services/matching/src/egress.rs:255-270 | the ring still holds whole sequences after a command if and only if the command's events fit the capacity, or the capacity is zero |
| `Egress.RingAnswersAsJournal` | wallet/services/matching/src/service.rs:218-266 | whenever the ring answers, it answers exactly what a journal replay would |
| `Reemission.ReplayFromScratch` | wallet/services/matching/src/runtime.rs:122-136 | the loop over a fresh engine returns exactly every journaled command's events in order |
| `Reemission.EventsSince` | wallet/services/matching/src/service.rs:245-266 | a page of the run's events after a sequence, the same whether the ring or a replay serves it, the ring at most a command in flight behind |
| `Egress.Watermark.AdvanceTo` | wallet/services/matching/src/egress.rs:331-343 | the watermark never retreats and the copy on disk never leads it; a sync that fails leaves the value moved and the copy behind, due again at the next advance |
| `Egress.Watermark.Flush` | wallet/services/matching/src/egress.rs:345-358 | after a flush the copy on disk is the value in memory, and after a failed one it is what it was |
| `StreamOffsets.PublishKeepsPrefix` | wallet/services/matching/src/egress.rs:369-387 | publishing any entry at or before the first unpublished one keeps the deduplicated stream a prefix of all entries |
| `StreamOffsets.GapEntries` | wallet/services/matching/src/service.rs:178-199 | the events after the watermark and before a sequence, keyed by position, are exactly the entries between |
| `StreamOffsets.DedupExactly` | wallet/services/matching/src/service.rs:4-12 | dropping repeats by key keeps one entry per key, the first to arrive, in order, and loses no key |
| `Publication.AppendIsReplay` | wallet/services/matching/src/runtime.rs:84-108 | what the live engine produces for a command is what a replay of the grown journal produces for it, and the snapshot it writes is the replayed book |
| `Publication.RebuiltIs` | wallet/services/matching/src/runtime.rs:41-66 | the engine a restart builds from snapshot, tail and configured market is the full replay when the status at the snapshot is the configured one |
| `Publication.StepKeeps` | wallet/services/matching/src/service.rs:141-207 | every action of every submitter, of a failure, a publish that timed out, an entry that arrives late, a crash or a recovery keeps the protocol's invariant, the live engine being the full replay included |
| `Publication.StreamIsReplayPrefix` | wallet/services/matching/src/service.rs:4-12 | in every run and interleaving of submissions, partial publish failures, entries that arrive any time after their publish timed out, crashes and recoveries from snapshots: the live engine is the full replay, the stream without duplicates is a prefix of what a replay produces, everything at or below the watermark in memory or on disk is in it, as is everything acknowledged, and egress is entered in exact sequence order |
| `Publication.CaughtUpIsComplete` | wallet/services/matching/src/service.rs:65-95 | once the watermark reaches the last command, the deduplicated stream is the replay |
| `PublicationProgress.SubmitGoesThrough` | wallet/services/matching/src/service.rs:141-207 | from every reachable state with nobody else inside, a submission that nothing fails is journaled next, everything up to and including its events is in the stream, the watermark is at it and it is acknowledged |
| `PublicationProgress.RestartCatchesUp` | wallet/services/matching/src/service.rs:65-95 | wherever the crash fell, a restart that nothing interrupts ends up running with every event of every journaled command in the stream and the watermark there, in memory and on disk |
| `Publication.GapIsExact` | wallet/services/matching/src/service.rs:218-243 | the gap republished before a sequence is exact whether the ring or the journal serves it |
| `PublicationFaults.AbandonedPlanExactly` | wallet/services/matching/src/service.rs:147-201 | on the machine, after a submission abandoned between matching and egress, what the next submitter plans to republish is the exact gap if and only if the ring does not reach back to the watermark |
| `PublicationFaults.AbandonedGapExactly` | wallet/services/matching/src/service.rs:185-199 | the same of one gap, for every ring, watermark and capacity |
| `PublicationFaults.AbandonedSequenceIsLost` | wallet/services/matching/src/service.rs:147-201 | a run with no crash and no failed publish in which the abandoned command's events never reach the stream: it is no prefix of the replay |
| `PublicationFaults.ForgottenHaltBreaksTheStream` | wallet/services/matching/src/service.rs:232-243 | a run that halts the market, snapshots, restarts and places any order the open market admits: the stream is no prefix of the replay |
| `PublishedLevels.RidesIsDue` | wallet/services/matching/src/egress.rs:120-167 | the entry levels ride on is the last of its sequence, whatever part of a gap is being published, and they are that command's levels |
| `PublishedLevels.GapLevels` | wallet/services/matching/src/service.rs:218-243 | whichever serves the gap, ring or replay, it serves exactly the levels each command reported |
| `PublishedLevels.StepRides` | wallet/services/matching/src/egress.rs:120-167 | every step of the protocol keeps every stream entry carrying exactly what it ought to |
| `PublishedLevels.StreamMirrorFollowsBook` | wallet/services/matching/src/egress.rs:120-167 | in every such run a depth mirror fed by nothing but the levels riding on the stream, repeats passed over, equals the book after the last command whose events are all in the stream |
| `Consumer.FollowsExactly` | wallet/apps/api/src/services/engine-stream/sequenced-consumer.ts:104-109 | a key accepted as next is the next event, except when the offset is inside a sequence and the key is the first of the following one |
| `Consumer.SequencedConsumer.ApplyOne` | wallet/apps/api/src/services/engine-stream/sequenced-consumer.ts:137-190 | an event is applied with its offset or not at all, and an event at or before the offset is never applied again |
| `Consumer.SequencedConsumer.Recover` | wallet/apps/api/src/services/engine-stream/sequenced-consumer.ts:199-227 | paging the journal from the offset never finds a hole, loses nothing wherever it stops, also when the engine goes away between pages, and leaves nothing unapplied if it completes |
| `Consumer.SequencedConsumer.Deliver` | wallet/apps/api/src/services/engine-stream/sequenced-consumer.ts:267-289 | a delivery keeps the applied events complete if and only if it does not pass over the rest of the offset's own sequence; no gap is unrecoverable |
| `Consumer.SequencedConsumer.RunOnce` | wallet/apps/api/src/services/engine-stream/sequenced-consumer.ts:251-296 | whatever is redelivered or reordered, events are applied in order and at most once and only covered entries are acknowledged; a pass loses an event if and only if, in sorted order and before the first key that is recovered or fails, some applied key passes over the rest of its predecessor's sequence; what is lost stays lost; nothing is lost if no sequence's first event arrives ahead of the tail before it; a contiguous read is applied and acknowledged exactly up to its first failure |
| `Consumer.LosslessGrows` | wallet/apps/api/src/services/engine-stream/sequenced-consumer.ts:12-35 | completeness carries over as the engine emits more |
| `Consumer.TrimmedTailIsLost` | wallet/apps/api/src/services/engine-stream/sequenced-consumer.ts:104-109 | a stream trimmed inside a sequence loses an event: a concrete three-event case |
| `Delivery.GroupSource.Read` | wallet/apps/api/src/services/settlement/source.ts:83-115 | unacknowledged entries first and in order, then new ones, each delivered entry remembered until acknowledged; a group that cannot run ahead of what it left pending delivers nothing ahead of something uncovered |
| `Delivery.GroupSource.Ack` | wallet/apps/api/src/services/settlement/source.ts:117-120 | exactly the acknowledged entries stop being pending, and everything delivered is then covered by the offset or still pending |
| `Delivery.NothingAheadIsTailsFirst` | wallet/apps/api/src/services/settlement/source.ts:83-115 | a read of an untrimmed published stream that leaves nothing uncovered behind it brings every sequence's tail with or before the next sequence |
| `Delivery.Cycle` | wallet/apps/api/src/services/engine-stream/sequenced-consumer.ts:251-296 | one read, apply and acknowledge, for every read the group can deliver: an event is lost if and only if the read loses one in that sense; none is as long as the source cannot run ahead of what it left pending, and a pass that acknowledges all it read leaves it so |
| `Delivery.Work` | wallet/apps/api/src/services/engine-stream/sequenced-consumer.ts:302-321 | over every run of passes, failures, redeliveries and a growing stream, it is enough that a pass that left something unacknowledged is followed by a new connection: then every event up to the offset was applied once, in order |
| `Delivery.ExactlyOnce` | wallet/apps/api/src/services/engine-stream/sequenced-consumer.ts:12-35 | a worker that lost nothing and is caught up has applied exactly the engine's events, each once, in the engine's order |
| `Delivery.CaughtUp` | wallet/apps/api/src/services/engine-stream/sequenced-consumer.ts:228-236 | a worker is caught up once the whole of a complete stream was delivered and nothing delivered is left uncovered |
| `Delivery.TransientTailIsLost` | wallet/apps/api/src/services/engine-stream/sequenced-consumer.ts:118-190 | without the new connection one transient failure on a sequence's second event loses it: the next read takes new entries only, its first event passes for the next key, and the failed one stays pending behind the offset |
| `Delivery.RepeatHidesTheSkip` | wallet/apps/api/src/services/engine-stream/sequenced-consumer.ts:251-296 | the skip need not come first: a stream that repeats an early entry, as a restart with a lagging watermark leaves it, and a read whose repeat sorts in front of the key that loses an event |
| `EndToEnd.ReplayAppliedOnce` | wallet/services/matching/src/service.rs:4-12 | over every run of the publication protocol and every run of the worker's passes over it, what the worker applied is, up to its offset, each event of the journal's replay once and in order, and all of them once it is caught up |
| `Orders.HoldCoversAnySplit` | wallet/packages/orders/src/hold.ts:49-74 | one hold covers the total cost of any later list of fills at or below the reserve price and the worst-case rate, however each is floored |
| `Orders.BuyerPaysItsCost` | wallet/packages/orders/src/settlement.ts:44-84 | whichever side took, the buyer pays the value and its own fee, and the seller's fee never exceeds the value |
| `FixedPoint.ValueExactly` | wallet/packages/types/src/price.ts:118-127 | a value is price times quantity in billionths rounded down, bounded from both sides without dividing |
| `FixedPoint.FeeExactly` | wallet/packages/types/src/price.ts:129-143 | a fee is its rate's ten-thousandths of the notional rounded down, bounded from both sides without dividing |
| `FixedPoint.NotionalExactly` | wallet/services/matching/src/types.rs:308-321 | the engine's notional is that same number and both give up exactly at 2^64 |
| `FixedPoint.BandExactly` | wallet/packages/orders/src/collar.ts:41-50 | a price is inside the collar if and only if it is off the reference by at most the collar's ten-thousandths of it, for gateway and engine alike |
| `FixedPoint.AmountsExactly` | wallet/packages/orders/src/settlement.ts:44-68 | a fill's amounts can be computed exactly when it has a price and a quantity and its value fits; the taker pays at the taker's rate and the maker at the maker's, whichever bought |
| `FixedPoint.HoldExactly` | wallet/packages/orders/src/hold.ts:49-74 | when a hold can be computed, and what it is from both sides: a sell's bare quantity of base; a buy's value in quote with 20 ten-thousandths of headroom |
| `FixedPoint.ReserveIsLeast` | wallet/packages/orders/src/hold.ts:41-74 | the reserve of a buy is the least amount that covers every way of filling it |
| `FixedPoint.ReservePriceExactly` | wallet/packages/orders/src/hold.ts:58-69 | a buy reserves at its limit; a market buy at the highest price inside the collar |
| `FixedPoint.WorstCaseIsCharged` | wallet/packages/orders/src/fees.ts:40-48 | the worst case is a rate the schedule really charges, and its highest |
| `Orders.PartFillKeepsSomeHoldExactly` | wallet/apps/api/src/services/settlement/applier.ts:242-253 | every way of filling all but one lot leaves some hold if and only if the last lot adds to the reserve |
| `Orders.LotWorthAUnit` | wallet/packages/types/src/price.ts:118-143 | a lot worth one unit of quote at the limit is enough for that |
| `Orders.TierForVolume` | wallet/packages/orders/src/fees.ts:30-58 | the loop finds the highest tier the volume earns; maker is below taker, and no rate exceeds the worst case |
| `Orders.ValidateOrder` | wallet/packages/orders/src/validate.ts:61-146 | the reasons given are exactly the reasons that apply, all of them; the band and the judged value are returned with them |
| `Orders.CheckOverflow` | wallet/packages/orders/src/validate.ts:113-143 | overflow is reported exactly when the judged value, or what a buy must reserve, does not fit u64 |
| `Orders.AdmittedBuyHasAHold` | wallet/packages/orders/src/validate.ts:113-143 | every admitted buy gets a hold, it is exactly the reserve, and it fits u64 |
| `Orders.ProtectionInsideReserve` | wallet/apps/api/src/services/trading/order.service.ts:494-517 | what the engine is sent for a market order is on a tick, inside the band exactly when any tick is, never above the price a buy's hold was sized at and never below a sell's edge of the band |
| `Ledger.BuildTransaction` | wallet/packages/ledger/src/transaction-builder.ts:32-119 | a transaction is built exactly when there are two entries or more, all positive and matching their account's asset, all on one cluster, and every asset balances on its own |
| `Ledger.IsBalanced` | wallet/packages/ledger/src/transaction-builder.ts:99-128 | the per-asset buckets find a residual exactly when one exists |
| `LedgerHistory.Post` | wallet/packages/ledger/src/postings.ts:55-691 | every posting shape is committed exactly when its own amount checks pass and its assets are on one cluster; its legs are always positive, at least two and balanced, whichever zero legs are left out |
| `PostingRules.CommitsExactly` | wallet/packages/ledger/src/postings.ts:55-691 | a posting is committed if and only if its amounts make sense, shape by shape, and one cluster qualifies every asset it moves something of |
| `PostingRules.ClusterExactly` | wallet/packages/types/src/clusters.ts:67-84 | an asset key belongs to a cluster exactly when it is that cluster's name, a colon and something after it |
| `LedgerHistory.PostingNeutral` | wallet/packages/ledger/src/postings.ts:55-691 | every posting moves value within one asset and one tier, allocations and deallocations included |
| `LedgerHistory.TierEquations` | wallet/packages/ledger/src/postings.ts:55-691 | for every history and asset: the books balance, clearing assets equal trading liabilities plus trading fees, and chain assets equal custody liabilities plus rent plus prepaid fees |
| `LedgerHistory.HouseEarns` | wallet/packages/ledger/src/postings.ts:626-691 | trading fees and rent are only ever credited, so neither is negative in any history |
| `LedgerHistory.AddressCoversItsUser` | wallet/packages/ledger/src/accounts.ts:217-231 | per user, in every history: what the user's own address holds beyond what the user is owed in custody is exactly the rent immobilised there |
| `LedgerHistory.LabelsTellApart` | wallet/packages/ledger/src/postings.ts:55-691 | two transactions with the same kind and reference type are the same act |
| `HouseFlows.HeldIsBrought` | wallet/packages/ledger/src/postings.ts:55-691 | in every history the house's trading fees are both sides' fees of every trade, the clearing address holds what was allocated less what was deallocated, rent is what was set aside as rent, prepaid fees are the funding less every network fee, and the vaults hold what arrived less what left |
| `Projection.ProjectAccount` | wallet/packages/ledger/src/projection.ts:39-46 | the loop computes the account's balance over the entries |
| `Projection.ProjectAll` | wallet/packages/ledger/src/projection.ts:48-59 | one balance for each account the entries touch, each account once |
| `Projection.ProjectUserBalance` | wallet/packages/ledger/src/projection.ts:75-93 | a user's available and locked custody balances, sign flipped once |
| `Projection.CheckBooksBalance` | wallet/packages/ledger/src/projection.ts:105-120 | reports exactly the assets whose entries do not sum to zero, with their residuals |
| `Projection.CheckNoNegativeUserBalances` | wallet/packages/ledger/src/projection.ts:123-136 | reports exactly the user accounts below zero |
| `Projection.CheckAccountSigns` | wallet/packages/ledger/src/projection.ts:139-152 | reports exactly the accounts that break their declared sign |
| `Coverage.CheckLiabilitiesCovered` | wallet/packages/ledger/src/projection.ts:174-241 | reports exactly the tiers and assets that owe users more than their own holdings, and by how much |
| `Coverage.ShortExactly` | wallet/packages/ledger/src/projection.ts:154-241 | on the books of any history the clearing tier is never short, and the vault tier is short in an asset exactly when its prepaid network fees are negative, by that amount |
| `Coverage.CoveredExactly` | wallet/packages/ledger/src/projection.ts:154-241 | the check is empty on a history if and only if no asset with custody accounts has negative prepaid fees |
| `Coverage.UnfundedFeeUncovers` | wallet/packages/ledger/src/projection.ts:158-168 | balanced books on which the check fires: a sweep fee paid before the house funded it |
| `Settlement.PostCredits` | wallet/packages/ledger/src/postings.ts:55-691 | what each committed posting adds to each of a user's five accounts, custody and trading, available and locked |
| `Settlement.ResidueIsCovered` | wallet/packages/orders/src/settlement.ts:70-84 | what an order's fills consumed never exceeds its hold as long as they were at or below the price it reserved at |
| `SettlementRuns.SubmitKeeps` | wallet/apps/api/src/services/trading/order.service.ts:462-490 | posting a hold only when the balance read in the same transaction covers it keeps every trading balance non-negative and the locked one equal to the orders' residues |
| `SettlementRuns.TradedKeeps` | wallet/apps/api/src/services/settlement/applier.ts:255-345 | so does consuming both holds by any one fill that the over-consumption check lets through |
| `SettlementRuns.CloseKeeps` | wallet/apps/api/src/services/settlement/holds.ts:40-64 | so does releasing what is left when an order ends |
| `SettlementRuns.UnlockKeeps` | wallet/packages/ledger/src/postings.ts:544-601 | so does returning or deallocating locked funds, once |
| `SettlementRuns.StepKeeps` | wallet/apps/api/src/services/settlement/applier.ts:255-360 | so does every action |
| `SettlementRuns.TradingBalancesNeverNegative` | wallet/packages/ledger/src/postings.ts:421-473 | over every run, of arbitrary fills at arbitrary prices held back only by settlement's own checks, no user's trading balance is negative, user_order_locked equals the sum of outstanding order residues, and user_trading_locked the sum of pending deallocations |
| `SettlementRuns.HoldsAreAccountedFor` | wallet/apps/api/src/services/settlement/holds.ts:5-18 | for every order of every run, hold equals consumed plus released plus outstanding, and a finished order has nothing outstanding |
| `SettlementEffects.SettleMovesMoney` | wallet/apps/api/src/services/settlement/applier.ts:255-357 | a fill that goes through moves exactly its value and quantity, with each side's fee, between its two users and changes what nobody else has; one that does not changes nothing |
| `SettlementEffects.SubmitMovesHold` | wallet/apps/api/src/services/trading/order.service.ts:431-490 | an order is recorded exactly when its hold can be computed and posted and the spendable balance covers it: the hold leaves what can be spent and joins what orders reserve |
| `SettlementEffects.FinishReturnsResidue` | wallet/apps/api/src/services/settlement/holds.ts:40-64 | finishing a live order gives back exactly what it still reserved |
| `SettlementEffects.LockFundsMoves` | wallet/apps/api/src/services/withdrawal.service.ts:148-172 | a deallocation locks exactly when the spendable trading balance covers it |
| `SettlementEffects.DeallocationEnds` | wallet/apps/api/src/workers/withdrawal-workers.ts:771-830 | and ends once: returned to the spendable trading balance, or paid into custody |
| `TradingFees.HouseEarnsEveryFee` | wallet/apps/api/src/services/settlement/applier.ts:276-332 | over every run what the house has earned in an asset is exactly the buyer's and the seller's fee of every fill that settled |
| `CustodyRuns.LockKeeps` | wallet/apps/api/src/services/withdrawal.service.ts:113-205 | locking a withdrawal only when the balance read in the same transaction covers it keeps every custody balance non-negative and the locked one equal to the pending withdrawals |
| `CustodyRuns.EndingKeeps` | wallet/apps/api/src/workers/withdrawal-workers.ts:771-830 | so does ending one, once, by returning, settling or allocating it |
| `CustodyRuns.ElsewhereKeeps` | wallet/packages/ledger/src/postings.ts:55-691 | so does everything else that is ever posted |
| `CustodyRuns.NoBalanceIsOverdrawn` | wallet/apps/api/src/services/withdrawal.service.ts:113-205 | over every run of both tiers none of a user's five balances is negative, locked custody is exactly the pending withdrawals, order locks the outstanding residues and trading locks the pending deallocations |
| `CustodyRuns.LockMovesFunds` | wallet/apps/api/src/services/withdrawal.service.ts:148-172 | a withdrawal locks exactly when the spendable balance covers it: the amount leaves what can be spent and joins what is locked, and otherwise nothing happens |
| `CustodyRuns.ReturnGivesBack` | wallet/apps/api/src/services/withdrawal.service.ts:514-550 | a pending withdrawal can always be returned, and then what was locked can be spent again |
| `SettlementRuns.HaltsExactly` | wallet/apps/api/src/services/settlement/applier.ts:330-351 | any fill that passes the first checks is abandoned if and only if it takes more than the buy's hold, or all of it without completing the buy; the sell never stops it, and a fill within the reserve price never over-consumes |
| `SettlementRuns.PricedIsCovered` | wallet/apps/api/src/services/settlement/applier.ts:330-338 | a fill at or below the reserve price of a buy filled only at such prices never trips the over-consumption check |
| `SettlementRuns.TradeCommits` | wallet/packages/ledger/src/postings.ts:626-691 | the ledger takes the trade of every fill whose amounts can be computed, in a market of two assets of one cluster |
| `SettlementRuns.WholeLotsNeverHalt` | wallet/apps/api/src/services/settlement/applier.ts:242-253 | with lots worth a unit of quote at the limit, a fill that leaves a lot or more never halts settlement |
| `SettlementHalts.LotLeavesSomeHold` | wallet/apps/api/src/services/settlement/applier.ts:242-253 | in any state that settlement can reach, a fill of whole lots within the reserve price settles when the last lot of the buy adds to its reserve |
| `SettlementHalts.AllButALotHalts` | wallet/apps/api/src/services/settlement/applier.ts:242-253 | whenever the last lot adds nothing, a sell for all but that lot and the buy that meets it are recorded, the fill of the whole sell passes every first check and is abandoned |
| `SettlementFeed.CommandAgrees` | wallet/services/matching/src/engine.rs:108-190 | every event of a command agrees with what its orders brought to it: fills fit, an ending names exactly what is left and comes once, an acceptance names what rests, a rejection follows no fill |
| `SettlementFeed.RunAgrees` | wallet/apps/api/src/services/settlement/applier.ts:358-443 | over every run with fresh ids, settlement's checks on an order pass on every event about it: never a remaining mismatch, an over-fill, a fill after an ending or a rejection after a fill |
| `MatchedFills.RestingKeepsTerms` | wallet/services/matching/src/engine.rs:150-190 | over every run a resting order was brought in as a good-till-cancelled limit order, and still has the side, price, account, self-trade mode and sequence it was brought in with |
| `MatchedFills.FillHasTerms` | wallet/services/matching/src/engine.rs:266-328 | the maker of every fill was brought in earlier to rest, on the other side and at the fill's price, and the taker by the fill's own command, within its limit and by another account |
| `EventHistory.NothingAfterRejection` | wallet/services/matching/src/engine.rs:330-386 | nothing is said of an order after the engine refused it |
| `EventHistory.EndedUntradedNeverTrades` | wallet/apps/api/src/services/trading/order.service.ts:163-190 | an order the engine refused, or ended at its full quantity, is in no fill of the whole run: what the gateway takes for proof before it releases a hold itself |
| `EventHistory.NothingPlacedNeverTrades` | wallet/apps/api/src/services/trading/order.service.ts:711-735 | nor is one the engine was never given a quantity for, an amend of a missing order included |
| `EventHistory.RefusedIsSaid` | wallet/services/matching/src/engine.rs:194-260 | a run counts an order as refused if and only if some event of it says so |
| `FedSettlement.FillIsTaken` | wallet/apps/api/src/services/settlement/applier.ts:255-332 | whenever the worker is in step with the engine, as it is over every run, the engine's next fill names two recorded open orders on opposite sides with enough left, at a price the buy reserved for, and the ledger takes the trade |
| `FedSettlement.EndingKeeps` | wallet/apps/api/src/services/settlement/applier.ts:386-425 | a cancellation, expiry or rejection finds its order open, or closed by the gateway, with exactly the remainder the event names, and never stops the worker |
| `FedSettlement.AcceptedKeeps` | wallet/apps/api/src/services/settlement/applier.ts:427-443 | an acceptance names exactly what the ledger has left, and one with nothing left finds the order finished |
| `FedSettlement.StepHaltsExactly` | wallet/apps/api/src/services/settlement/applier.ts:255-443 | every deed of gateway, engine and worker keeps the ledger's orders in step with what the engine said, and the worker stops if and only if it is at a fill that takes the last of a buy's hold without completing the buy |
| `FedSettlement.RunIsGood` | wallet/apps/api/src/services/settlement/applier.ts:255-443 | so over every run, however far the worker is behind: each order's fills, price, lots and status are those of the events applied so far, and an open order still holds something |
| `FedOutcomes.NeverHalts` | wallet/apps/api/src/services/settlement/applier.ts:242-253 | over every run in which the gateway takes only buys whose last lot adds to the reserve, the worker never stops, whatever the fee rates of the schedule |
| `FedOutcomes.OpenIsResting` | wallet/apps/api/src/services/settlement/applier.ts:358-362 | once the worker has caught up, an order is open in the ledger if and only if it rests in the engine's book and the gateway has not closed it, for exactly the quantity the ledger has left, with exactly the engine's fills |
| `FedOutcomes.AppliesOnlyWhatAgrees` | wallet/apps/api/src/services/settlement/applier.ts:255-443 | whatever event is put before it, the worker goes past it only if it agrees with the ledger, halts without changing anything otherwise, and never halts on any but a fill that agrees |
| `HaltingRun.EngineSays` | wallet/services/matching/src/engine.rs:266-328 | the two commands of the halting run: the sell rests, the buy fills it whole at its price and rests its last lot |
| `HaltingRun.EngineRunHalts` | wallet/apps/api/src/services/settlement/applier.ts:242-253 | a run of gateway, engine and worker that stops at the engine's own fill, for every price, quantity and lot whose last lot adds nothing |
| `HaltingRun.HaltFreeExactly` | wallet/apps/api/src/services/settlement/applier.ts:242-253 | for a buy of whole lots, no run of gateway, engine and worker whatever stops at a fill of it if and only if its last lot adds to its reserve, which a caller can check before placing it |
| `HaltingRun.AdmittedOrderHalts` | wallet/apps/api/src/services/settlement/applier.ts:242-253 | an order that validation admits and that such a run brings to a halt: three lots at half a quote unit each |
| `Custody.GreedyIsExact` | wallet/services/mpc/src/custody.rs:154-186 | for arbitrary required and held lists, greedy most-constrained-first matching leaves nothing unmet if and only if requirements can be assigned distinct satisfying approvals |
| `Custody.CheckAuthorization` | wallet/services/mpc/src/custody.rs:169-186 | the signing service accepts exactly when such an assignment exists, and otherwise names the first requirement greedy matching leaves unmet |
| `Custody.CheckAuthorizationListing` | wallet/packages/blockchain/src/custody.ts:172-189 | the domain's check accepts in exactly the same cases and lists every unmet requirement, the signing service's first among them |
| `Custody.SatisfiableIsEnough` | wallet/services/mpc/src/custody.rs:119-139 | an assignment exists if and only if operators, ceremonies and the total are each sufficient in number |
| `Custody.ExtraApprovalsNeverRefuse` | wallet/services/mpc/src/custody.rs:154-168 | more approvals, in any order, never turn acceptance into refusal |
| `Custody.WarmNeedsTwo` | wallet/services/mpc/src/custody.rs:70-81 | warm needs an operator and a second approval, cold a ceremony, hot any approval, deposit none |
| `ReplayCache.Cache.EvictExpired` | wallet/services/matching/src/auth.rs:252-262 | the loop drops expired ids from the front of the queue and from the set alike |
| `ReplayCache.Cache.Observe` | wallet/services/matching/src/auth.rs:226-250 | a held id is a replay, a full cache refuses, anything else is remembered; set and queue always hold the same ids, within capacity |
| `ReplayCache.EvictExactly` | wallet/services/matching/src/auth.rs:252-261 | what eviction drops is the expired front and no more |
| `ReplayCache.ClockWindowExactly` | wallet/services/matching/src/auth.rs:134-153 | a request is outside the window if and only if its stamp is further from the clock than the tolerance, early or late; only one inside is refused for its signature; neither is remembered |
| `ReplayCache.RefusedForCause` | wallet/services/matching/src/auth.rs:226-250 | over every run a replay verdict means a request with the same id was let in before, and an exhausted one that the cache is full of requests let in before |
| `ReplayCache.NoReplay` | wallet/services/matching/src/auth.rs:134-154 | with a clock that does not run backwards, no request id and timestamp pair is let in twice, whatever order timestamps arrive in |
| `ReplayCache.SafeExactly` | wallet/services/matching/src/auth.rs:186-206 | that holds for every run if and only if ids are remembered for at least the clock tolerance |
| `ReplayCache.Bounded` | wallet/services/matching/src/auth.rs:226-250 | over every run the cache stays within its capacity and holds no id twice |
| `Portfolio.ProjectSeries` | wallet/packages/portfolio/src/series.ts:87-145 | the single pass gives at every bucket exactly the directly defined point: signed sum of all entries up to it, latest price up to it, total, and completeness |
| `Portfolio.Advance` | wallet/packages/portfolio/src/series.ts:106-119 | the entry cursor takes everything at or before the bucket and nothing after it |
| `Portfolio.PriceAt` | wallet/packages/portfolio/src/series.ts:147-171 | the price walk, resumed from the previous bucket, finds the latest tick at or before this one |
| `Portfolio.LatestIsLatest` | wallet/packages/portfolio/src/series.ts:147-153 | that tick is never after the instant, and no tick up to the instant is newer |
| `PortfolioLedger.SeriesIsLedger` | wallet/packages/portfolio/src/series.ts:106-119 | at every instant the amount shown of an asset is minus the user's spendable ledger account over everything posted by then: the same sign as the balance projection |
| `PortfolioLedger.PointShowsLedger` | wallet/packages/portfolio/src/series.ts:121-141 | a point lists every asset the user had an entry in by then, once, with the ledger's balance of it, and anything it does not list has none |
| `PortfolioLedger.EntryMovesHolding` | wallet/packages/portfolio/src/series.ts:110-118 | a credit raises what is shown by its amount from the instant it is posted, a debit lowers it, and neither shows earlier or in another asset |
| `PortfolioLedger.ValueRoundsTowardZero` | wallet/packages/portfolio/src/money.ts:54-69 | a value is amount times price over the asset's scale, bounded from both sides, with the sign of the product |
| `PortfolioLedger.TotalAddsUp` | wallet/packages/portfolio/src/series.ts:121-139 | a total adds up in parts: a priced holding counts its value and an unpriced one nothing |
| `Decimal.ParseIsExact` | wallet/packages/types/src/decimal.ts:32-49 | an input is accepted with a value if and only if it denotes exactly that value over the power of ten and the value fits u64: nothing is rounded and nothing representable is refused |
| `Decimal.RoundTrip` | wallet/packages/types/src/decimal.ts:57-67 | parsing what was formatted gives the value back, for every value up to u64, every scale and every minimum width |
| `DecimalForms.FormatExactly` | wallet/packages/types/src/decimal.ts:57-67 | a text is what a value is shown as if and only if it has the value's sign, no leading zero, at least the minimum width of fraction and no trailing zero past it, and its digits spell the value |
| `DecimalForms.GrammarExactly` | wallet/packages/types/src/decimal.ts:23-24 | what is read as a number: digits, digits with a point and perhaps more digits, or a point and digits |
| `DecimalForms.RefusalExactly` | wallet/packages/types/src/decimal.ts:32-49 | blank text is empty, text outside the grammar malformed, a number finer than the scale too precise, and one held exactly but beyond u64 too large, each if and only if |
| `Decimal.NegativeIsRefused` | wallet/packages/types/src/decimal.ts:23-49 | a formatted negative amount is never accepted back |

## Left out

- HTTP routing, server wiring, the web application, logging and configuration parsing: plumbing with no hard invariant.
- CRC and bincode: `Journal` takes any codec that decodes what it encoded; checksum collisions are the codec's own business.
- Ed25519, SHA-256, AES-GCM, FROST and DKG: a request is signed or it is not.
- The base64 and canonical-string handling in `auth.rs`, and losing the replay cache on restart.
- Overflow of the 64-bit sequence counter: sequences are unbounded.
- Fee fields of a fill, which the engine always leaves empty, and the text form of a fill id, kept as its pair of numbers.
- The order in which `take_level_changes` lists levels, which a mirror does not depend on.
- The text form of account keys: accounts are compared as owner, asset and type.
- The order in which the projection checks list their violations.
- Splitting the `approved_by` text into authorities: `Custody` starts from the two lists.
- Locale ordering of holdings in a portfolio point, the text of a price tick, and scales above 30 digits: holdings come in order of first appearance, ticks in micro-dollars.
- Order and withdrawal status tables, and the retry loops around guarded transitions: an order in `SettlementRuns` is live or finished.
- Fee tier snapshots by day: a fill carries its two rates, bounded by the worst case.
- The database's own constraints and triggers: every action in `SettlementRuns` is one serializable transaction.
- Solana adapters, transaction builders, address derivation and reconciliation against the chain.
- A pending stream entry whose payload was trimmed, which the source drops from the read.
- Journal.FailedAppendExactly: takes the bytes of a torn record and the start of the next not to read as a record by accident.
- OrderBook.OrderBook.ConsumeFront: does not cover a quantity above the front order's remainder, which the match loop never asks for and which the source would take off its neighbours' level total.
- OrderBook.OrderBook.Rest: does not cover an id still queued as a tombstone, whose effect `OrderBook.ReusedIdIsUnsound` states.
- Engine.Engine.Place: leaves out the same ids.
- Engine.Engine.Amend: leaves out the same ids.
- Engine.Engine.Apply: leaves out the same ids.
- FedSettlement.StepHaltsExactly: takes the gateway to send the engine what it recorded and to close itself only orders the engine never fills (an order brought in by amending a resting one and then swept is not one); an order is open or finished, so its other statuses cannot disagree.
- FedSettlement.RunIsGood: a fill already settled is not delivered again, which is what `EndToEnd.ReplayAppliedOnce` is about.
- ReplayCache.ClockWindowExactly: takes the difference of two timestamps not to overflow 64 bits.
- ReplayCache.NoReplay: says nothing about two requests that share an id and differ in timestamp, which the signature tells apart.
