# GEKTOR: a verified model of its market-data, labelling and safety core

GEKTOR is an advisory radar for crypto derivatives. This project models the classes that carry its
hard logic and proves, for all inputs and all runs, what they are for.

| files | subject |
|---|---|
| `Levels`, `BookSide`, `DeltaRing`, `NdOrderBook`, `BookTheorems`, `BookListing` | the anchored level-2 book over fixed arrays, its drop-oldest delta ring, and the splice of buffered updates onto REST snapshots |
| `Msq` | the fixed-point market-sizing walk with its inner binary search |
| `Markets` | the older dictionary-and-sorted-list book with its playback buffer |
| `Seqlock` | the shared-memory seqlock, byte by byte, any number of readers |
| `ResyncProtocol` | recovery: resync queue, connection epochs, REST pump, reconnect handler |
| `DollarBars`, `RealtimeBars` | the two dollar bar engines |
| `TripleBarrier`, `BarrierFate`, `LabelArithmetic` | triple-barrier labelling on top of the bars |
| `Vpin`, `RealSums` | the O(1) VPIN engine and the statistics behind its anomaly test |
| `SchrodingerLedger`, `LedgerTheorems`, `Sums` | confirmed and pessimistic positions, and exposure over whole runs |
| `TiltBreaker`, `TiltScore`, `IntentCapsule`, `IntentLedger`, `OperatorGate` | the operator gate: tilt state machine, signed single-use permits, versioned intents, and their composition |
| `WalCodec`, `FeatureStore` | the feature write-ahead log at the level of bytes |
| `Options`, `Modulo`, `Reals`, `Words` | small shared definitions |

Most components come in two layers. A datatype with functions says what each operation does to the
state as a value. A class keeps the state the way the program does (arrays, rings, dictionaries,
counters, loops), and each method is proved to move the value as specified. The theorems over runs are
lemmas about the functions.

Clocks, exponentials, random keys and nonces, and what the network delivers are parameters. Scaled
integers are `int`, floats and decimals are `real`. Ghost fields only record history.

## What turned out not to hold

Where a promise of the source fails for some input, the model keeps the code as it is, names the input,
and states exactly when the promise does hold.

- `read_snapshot` documents that it never returns a torn read. It can, once the 64-bit counter has come
  round between its two loads (`Seqlock.WrappedCounterHidesTornRead`); `ReadsAreAtomic` gives the bound.
- `get_bar_row` accepts every bar of the last `capacity`, but closing a bar clears the slot after it, so
  the oldest of them reads as zeros. `GetBarRow` says exactly which rows are right. A notification of
  the whole ring or more makes the labeler scan that row, which stops out every long
  (`NotificationReadsTheBars`, `ClearedRowResolvesEverything`).
- A repeated sequence number is refused live and accepted in replay (`RepeatedSeqBreaksCommuting`). An inverted
  range at or below the book's id resets the live book and is skipped in replay
  (`InvertedRangeBreaksCommuting`). The two orders agree exactly when the live run meets neither
  (`CommuteExactly`).
- Buffering cuts an update silently at fifty rows a side (`LongUpdatesAreCut`). Apart from the two inputs above,
  the recovered book is for every feed the one fed live with what the ring gives back
  (`AnyFeedCommutesAsStored`).
- `reset_o1` zeroes the sums and not the arrays. The sums match exactly when every slot is zero; otherwise
  the VPIN is low by exactly what was left, until the next decay or rebuild (`Reset`, `ProcessBar`). Mean and
  variance are then off too (`Moments`), so that the first value after a reset can raise an anomaly
  (`FirstTestAfterReset`).
- A short stop-loss can report less than its distance. It never does exactly when rounding the stop to a
  price unit costs less than one basis point of the entry (`StopsHonestlyExactly`).
- Another shard's reconnect can strand a recovering symbol (`OtherShardStrandsASymbol`); none is ever
  stranded exactly when each reconnect covers the symbols recovering then (`AttendedExactlyWhenCovered`).
- A reconnect and a new request between taking a queue entry and handling it can queue a symbol twice
  (`SlippedReconnectQueuesTwice`); the marks are right exactly when no handled symbol was requested again
  (`MarksExactlyWhenHandledCleanly`).
- The nonce cache is bounded, so a burst of one capsule more than its size lets an accepted capsule in again,
  at every size (`BurstReopensACapsule`): a nonce is refused exactly while it is among the last `max` accepted
  (`ApprovalExactly`).
- A capsule is not tied to the intent it executes: symbol and side are never compared
  (`CapsuleApprovesAnotherSymbol`).
- The rapid-fire factor is meant for clicks sustained over ten seconds, but its rate is taken since the first
  click: a lone first click saturates the spam tracker exactly when it is scored within about a fifth of a second
  (`OneClickSaturatesExactly`).
- A label stitched before a second append of the same id lands in the older record; the two orders agree
  exactly without one (`StitchCommutesWithAppend`).
- The overflow guard of the playback buffer is dead code (`OverflowIsNeverReported`). An event that ends on the
  id the book has when its turn comes is skipped in replay but applied live: the snapshot's own id
  (`BoundaryEventIsTreatedTwice`) or one repeated within the buffer (`RepeatedIdIsTreatedTwice`). It shows
  exactly when its rows are not overwritten later and change something (`TiesExactly`).
- The live path of that book applies a frame that starts up to 5000 ids ahead and stays SYNCED
  (`JumpIsApplied`). It leaves no hole exactly when every applied frame starts at or below the next id
  (`LiveCoversExactly`).
- The comment in `IntentLedger.revoke` says that a click in flight fails the version comparison. It fails
  the revoked flag alone (`FlagAloneRefuses`): the version compared is the intent's own, which does not change.

## Model

| member | source | states |
|---|---|---|
| `Levels.ApplyRowRefinesMap` | src/infrastructure/gektor_l2/nd_orderbook.py:574-645 | One set/delete row does to the sorted prefix what it does to the price map it stands for; the only exception is a new price offered to a full side, which is dropped. |
| `Levels.ApplyRowKeepsStrictOrder` | src/infrastructure/gektor_l2/nd_orderbook.py:574-645 | A row keeps the prefix strictly sorted and its quantities positive. |
| `Levels.ApplyRowKeepsOrder` | src/infrastructure/gektor_l2/nd_orderbook.py:574-645 | Even from a side with repeated prices a row keeps the order and the capacity. |
| `Levels.ApplyRowsRefinesMap` | src/infrastructure/gektor_l2/nd_orderbook.py:525-572 | While the capacity suffices, folding a whole update into the array is folding it into the map. |
| `Levels.RepresentationIsUnique` | src/infrastructure/gektor_l2/nd_orderbook.py:574-645 | A price map has only one strictly sorted prefix, so refinement fixes the array contents completely. |
| `Levels.SnapshotRefinesMap` | src/infrastructure/gektor_l2/nd_orderbook.py:487-523 | A snapshot with distinct prices that fits is loaded as the strictly sorted, positive listing of its map. |
| `BookSides.BookSide.SearchSorted` | src/infrastructure/gektor_l2/nd_orderbook.py:574-599 | The search returns the number of live keys below the wanted one. |
| `BookSides.BookSide.InsertAt` | src/infrastructure/gektor_l2/nd_orderbook.py:601-634 | Shifting in place inserts exactly one level at the index, and a full side is left as it is. |
| `BookSides.BookSide.RemoveAt` | src/infrastructure/gektor_l2/nd_orderbook.py:613-645 | Shifting in place removes exactly the level at the index. |
| `BookSides.BookSide.Apply` | src/infrastructure/gektor_l2/nd_orderbook.py:574-599 | The array code for one row computes the level-sequence function that the refinement lemmas are about. |
| `BookSides.BookSide.ApplyAll` | src/infrastructure/gektor_l2/nd_orderbook.py:563-566 | The loop over the rows of an update is the fold of single rows, in order. |
| `BookSides.BookSide.Fill` | src/infrastructure/gektor_l2/nd_orderbook.py:487-523 | Loading a snapshot side into the arrays gives the kept rows sorted by key. |
| `BookSides.BookSide.DepthWithin` | src/infrastructure/gektor_l2/nd_orderbook.py:647-681 | The early-exit loop over the arrays returns the walk value of the live prefix. |
| `BookSides.DepthWalkIsFullFilter` | src/infrastructure/gektor_l2/nd_orderbook.py:647-681 | Stopping at the first level outside the band loses nothing: the walk equals the filter-and-sum over the whole price map. |
| `DeltaRings.StoreRoundTrip` | src/infrastructure/gektor_l2/nd_orderbook.py:65-151 | Writing a frame and reading it back is the identity exactly on updates whose ids fit 64 bits, whose sentinels do not collide with real values and which have at most 50 rows a side. |
| `DeltaRings.DeltaRing.WriteFrame` | src/infrastructure/gektor_l2/nd_orderbook.py:65-105 | The ring behaves as a drop-oldest FIFO of 2^16 frames: the new frame goes last, and a full ring loses its first. |
| `DeltaRings.DeltaRing.ReadNextFrame` | src/infrastructure/gektor_l2/nd_orderbook.py:108-151 | Reading takes exactly the oldest frame, decoded, and an empty ring gives nothing. |
| `DeltaRings.DeltaRing.ScanFor` | src/infrastructure/gektor_l2/nd_orderbook.py:165-195 | The scan stops at the first buffered frame whose id reaches the snapshot id, or proves there is none. |
| `DeltaRings.DeltaRing.FastForwardSplice` | src/infrastructure/gektor_l2/nd_orderbook.py:152-195 | The splice drops exactly the frames in front of the first with a large enough id, and reports whether the id lies between the oldest and the newest. |
| `Modulo.SlotsApart` | src/infrastructure/gektor_l2/nd_orderbook.py:65-105 | Two counters less than a capacity apart never share a slot of a ring. |
| `NdOrderBooks.NdOrderBook.IngestDelta` | src/infrastructure/gektor_l2/nd_orderbook.py:525-572 | Live ingestion moves the book as specified for every input: buffering without an anchor, inverted range, stale id, gap, stale sequence, or application; it reports success exactly when no reject reason is left. |
| `NdOrderBooks.NdOrderBook.IngestSnapshot` | src/infrastructure/gektor_l2/nd_orderbook.py:422-482 | A snapshot call, with its splice and replay loops over arrays and ring, moves the book to the specified state. |
| `NdOrderBooks.NdOrderBook.ReplayBuffered` | src/infrastructure/gektor_l2/nd_orderbook.py:454-482 | The replay loop computes the recursive replay of the buffered frames, including its breaks on a gap. |
| `NdOrderBooks.NdOrderBook.Invalidate` | src/infrastructure/gektor_l2/nd_orderbook.py:407-420 | A hard reset empties both sides, the anchor and the buffer. |
| `NdOrderBooks.NdOrderBook.GetCumulativeDepth` | src/infrastructure/gektor_l2/nd_orderbook.py:647-681 | Both depth sums are those of the book value, and nothing is returned for an unusable or empty book. |
| `BookTheorems.UnanchoredBuffers` | src/infrastructure/gektor_l2/nd_orderbook.py:525-541 | An unanchored book never changes its sides; what it buffers is the newest 2^16 frames of the feed. |
| `BookTheorems.SpliceIsTransparent` | src/infrastructure/gektor_l2/nd_orderbook.py:152-195 | Fast-forwarding never changes the result of a snapshot call, for buffered ids in any order. |
| `BookTheorems.ReplayIsLiveIngest` | src/infrastructure/gektor_l2/nd_orderbook.py:454-572 | Replaying frames and ingesting the same updates live lead to the same sides, update id and last sequence, for updates the ring stores faithfully, while the live path refuses none for its sequence number and meets no inverted range at or below its id. Gaps and inverted ranges above the id reset both alike. |
| `BookTheorems.BufferingCommutesWithAnchoring` | src/infrastructure/gektor_l2/nd_orderbook.py:422-572 | Buffer-then-anchor equals anchor-then-feed, read epoch included, for the updates the ring still holds and whatever gaps they have, under the same two conditions on the live run (no refusal for a sequence number, no inverted range at or below the id) and for storable updates. |
| `BookTheorems.IncreasingFeedsCommute` | src/infrastructure/gektor_l2/nd_orderbook.py:422-572 | That holds for every storable feed of strictly increasing sequence numbers without an inverted range at or below the id, and for the whole of it when it fits the ring. |
| `BookTheorems.CommuteExactly` | src/infrastructure/gektor_l2/nd_orderbook.py:454-572 | For a storable feed that fits the ring, the two orders agree after every part of it exactly when live ingestion never answers stale_or_duplicate_seq and never meets an inverted range at or below its id. |
| `BookTheorems.RepeatedSeqBreaksCommuting` | src/infrastructure/gektor_l2/nd_orderbook.py:454-572 | A concrete feed on which they differ: a repeated sequence number is refused live and accepted in replay. |
| `BookTheorems.InvertedRangeBreaksCommuting` | src/infrastructure/gektor_l2/nd_orderbook.py:454-572 | A concrete second failing feed: an inverted range at or below the id is skipped in replay and resets the live book. |
| `BookTheorems.AnyFeedCommutesAsStored` | src/infrastructure/gektor_l2/nd_orderbook.py:65-151 | For any feed at all, storable or not, buffer-then-anchor is anchor-then-feed for the feed as the ring gives it back, under the two conditions on that feed. |
| `BookTheorems.LongUpdatesAreCut` | src/infrastructure/gektor_l2/nd_orderbook.py:65-105 | Whatever the first fifty rows of a side delete, the fifty-first row of an update is lost by buffering it and kept by feeding it live. |
| `BookTheorems.DeltaLands` | src/infrastructure/gektor_l2/nd_orderbook.py:525-572 | A hole or an inverted range leaves an anchored book as new, under the next read epoch and with nothing buffered; an older id or sequence number leaves it alone; any other update moves it to its id and sequence number. |
| `BookTheorems.SnapshotLands` | src/infrastructure/gektor_l2/nd_orderbook.py:422-482 | A snapshot anchors any book at its id under the next read epoch, usable and without a sequence number. |
| `BookTheorems.ReplayLeavesNoHole` | src/infrastructure/gektor_l2/nd_orderbook.py:454-482 | When buffered updates carry their range, a replay that ends usable has applied ranges covering every id after the snapshot up to the book's own; any hole ends in an empty book. |
| `BookTheorems.LiveLeavesNoHole` | src/infrastructure/gektor_l2/nd_orderbook.py:543-572 | A live feed with ranges into an anchored book has applied ranges covering every id up to the book's own, or ends in an empty book. |
| `BookTheorems.SidesAreFoldsOfAccepted` | src/infrastructure/gektor_l2/nd_orderbook.py:543-572 | While the book stays usable, its sides are the earlier ones with exactly the accepted updates folded in. |
| `BookTheorems.BookRefinesMaps` | src/infrastructure/gektor_l2/nd_orderbook.py:422-572 | After a snapshot and any usable feed, each side is the strictly sorted, positive listing of the fold of the accepted keyed rows over a map. |
| `BookTheorems.CumulativeDepthIsFullFilter` | src/infrastructure/gektor_l2/nd_orderbook.py:647-681 | The depth query returns, for both sides, the filter-and-sum over the maps within the band around the mid price. |
| `BookListings.BookListsItsQuotes` | src/infrastructure/gektor_l2/nd_orderbook.py:422-645 | After a snapshot of distinct prices and any usable feed, while the capacity is not exceeded, the asks list exactly the prices and quantities of the accepted ask quotes, ascending by price, and the bids those of the accepted bid quotes, descending. |
| `BookListings.FirstIsBest` | src/infrastructure/gektor_l2/nd_orderbook.py:497-523 | The first level of a side stands for its best price: no bid is higher, no ask lower. |
| `BookListings.DepthIsMoneyNearMid` | src/infrastructure/gektor_l2/nd_orderbook.py:647-681 | The depth query returns, side by side, the money quoted no further than the given basis points from the middle of the highest bid and the lowest ask. |
| `Msq.SearchAffordable` | src/infrastructure/gektor_l2/nd_orderbook.py:733-744 | The inner binary search returns the largest quantity of the level whose notional and fee fit the remaining budget. |
| `Msq.AffordableIsLargest` | src/infrastructure/gektor_l2/nd_orderbook.py:733-744 | The reference search by counting down is the largest affordable quantity. |
| `Msq.LargestIsUnique` | src/infrastructure/gektor_l2/nd_orderbook.py:733-744 | There is only one largest affordable quantity, so the binary search and the count-down agree. |
| `Msq.Walk` | src/infrastructure/gektor_l2/nd_orderbook.py:702-757 | The loop over the ask arrays buys exactly what the recursive walk takes at each level; quantity, notional and remaining budget are its totals. |
| `Msq.CalculateMsq` | src/infrastructure/gektor_l2/nd_orderbook.py:683-757 | The result is the walk over the book's asks, or nothing when the book is not usable or nothing is affordable. |
| `Msq.MsqIsWhatTheWalkTakes` | src/infrastructure/gektor_l2/nd_orderbook.py:683-775 | A size is reported exactly by a usable book where something can be bought; it is all the walk takes, at its notional over its quantity, rounded down. |
| `Msq.CostIsNotionalAndFee` | src/infrastructure/gektor_l2/nd_orderbook.py:725-775 | The fee is 45 parts in 100,000 of the notional, both rounded down. |
| `Msq.SurvivingIsShare` | src/infrastructure/gektor_l2/nd_orderbook.py:702-725 | What survives of a level is its displayed quantity times both factors in 1024ths, rounded down: all of it without decay, none where a factor vanishes. |
| `Msq.SurvivingIsMonotone` | src/infrastructure/gektor_l2/nd_orderbook.py:702-725 | It falls in the first factor and rises in the second. |
| `Msq.OffersAreAsks` | src/infrastructure/gektor_l2/nd_orderbook.py:702-725 | Every ask is offered at its price, thinned out by the factors of its own position. |
| `Msq.SurvivingIsBounded` | src/infrastructure/gektor_l2/nd_orderbook.py:702-727 | The two survival factors never make a level larger than displayed, or negative. |
| `Msq.WithinBudgetAndDepth` | src/infrastructure/gektor_l2/nd_orderbook.py:702-757 | Notional plus fees never exceed the target, and no level gives more than survives there. |
| `Msq.NeverMoreThanDisplayed` | src/infrastructure/gektor_l2/nd_orderbook.py:702-757 | No level gives more than the quantity displayed in the book. |
| `Msq.StopsOnlyWhenItMust` | src/infrastructure/gektor_l2/nd_orderbook.py:702-757 | The walk ends only with the book exhausted, the budget spent to the last unit, or one more unit unaffordable. |
| `Msq.MonotoneInTarget` | src/infrastructure/gektor_l2/nd_orderbook.py:702-757 | A larger target takes at least as much at every single level. |
| `Msq.TotalMonotoneInTarget` | src/infrastructure/gektor_l2/nd_orderbook.py:702-757 | A larger target never buys less in total. |
| `Msq.NotionalBounds` | src/infrastructure/gektor_l2/nd_orderbook.py:702-757 | Each touched level loses less than one notional unit to floor division, between the best and the worst touched price. |
| `Msq.AveragePriceBounds` | src/infrastructure/gektor_l2/nd_orderbook.py:754-757 | The reported average price is at most the worst touched price and misses the best one by less than k * SCALE / qty + 1 for k touched levels. |
| `Seqlock.PrefixPatchIsSliceAssignment` | src/infrastructure/seqlock_orderbook.py:64-77 | The per-byte writer is the slice assignment of the source: a short payload leaves the tail, a long one is cut. |
| `Seqlock.WriterStepKeepsReaderInv` | src/infrastructure/seqlock_orderbook.py:64-77 | No store of the writer can break what a reader in the middle of a copy relies on. |
| `Seqlock.ReaderStepKeepsInv` | src/infrastructure/shm_layout.py:44-64 | No reader step, with or without a retry budget, breaks the invariant. |
| `Seqlock.NextKeepsInv` | src/infrastructure/seqlock_orderbook.py:64-99 | Every interleaved step keeps: even count means the data is the last version; a reader whose counter has not moved has copied only bytes of the version it opened on. |
| `Seqlock.RunKeepsInv` | src/infrastructure/seqlock_orderbook.py:64-99 | Every run of interleaved writer and reader steps keeps that invariant. |
| `Seqlock.ReadsAreAtomic` | src/infrastructure/seqlock_orderbook.py:79-99 | In every run with any number of readers, a read that returns while fewer than 2^64 counter bumps went by returns exactly the version that was current when it loaded the counter first; this covers the bounded-retry reader returning True. |
| `Seqlock.HistoryNeverBlocks` | src/infrastructure/seqlock_orderbook.py:64-99 | The fields that only record history never hold up a step of writer or reader. |
| `Seqlock.BudgetIsAttempts` | src/infrastructure/shm_layout.py:44-64 | A read with a budget of n makes exactly n attempts before it gives up; one without a budget never does. |
| `Seqlock.WrappedCounterHidesTornRead` | src/infrastructure/seqlock_orderbook.py:84-98 | The bound is needed: a run in which the 64-bit counter comes round once returns bytes that were never written as a whole. |
| `RealSums.SquaredSumBound` | src/domain/vpin_engine.py:205-226 | The squared sum of n values is at most n times their sum of squares. |
| `RealSums.VarianceNonNegative` | src/domain/vpin_engine.py:212-222 | The population variance of any non-empty history is not negative. |
| `RealSums.Samuelson` | src/domain/vpin_engine.py:205-226 | No value of a history is farther from the mean than sqrt(n - 1) standard deviations (squared form). |
| `Vpin.ExceedsIsZScore` | src/domain/vpin_engine.py:218-226 | For any square root of the variance the squared comparison is the z-score comparison. |
| `Vpin.ShareIsQuotient` | src/domain/vpin_engine.py:195-203 | The VPIN is the quotient of the window by threshold times size, cut off at zero and one. |
| `Vpin.OneSidedWindowIsWhole` | src/domain/vpin_engine.py:176-203 | A window of one-sided bars of exactly the threshold has VPIN 1, a balanced one VPIN 0. |
| `Vpin.SteadyHistoryIsNoAnomaly` | src/domain/vpin_engine.py:205-226 | A value equal to all of its history is its mean and never an anomaly. |
| `Vpin.AnomalyNeedsHistory` | src/domain/vpin_engine.py:205-226 | An anomaly at a positive threshold T needs more than 1 + T^2 values, whatever the values are. |
| `Vpin.WindowAfterPush` | src/domain/vpin_engine.py:176-186 | One bar in, the oldest out: the ring stays the window of the history since the last reset, across wraparound, and once full its sum is the window's. |
| `Vpin.WindowAfterDecay` | src/domain/vpin_engine.py:125-138 | Decay scales ring and history together. |
| `Vpin.WarmUpSum` | src/domain/vpin_engine.py:176-193 | During warm-up, with unused slots zero, the ring's sum is the history's as well. |
| `Vpin.SumsVanishExactly` | src/domain/vpin_engine.py:111-121 | The three sums are zero exactly when every slot is, for absolute imbalances. |
| `Vpin.O1VPINEngine.Reset` | src/domain/vpin_engine.py:111-121 | After a reset each running sum lags by exactly what its array still holds, and the sums match exactly when every slot of both arrays is zero. |
| `Vpin.ResetAfterOneBar` | src/domain/vpin_engine.py:111-121 | A concrete failing run: one bar with unequal sides and a reset leave the imbalance sum behind by that bar. |
| `Vpin.O1VPINEngine.ApplyTimeDecay` | src/domain/vpin_engine.py:125-138 | In any state, resets included, decay scales rings and history and ends every lag. |
| `Vpin.O1VPINEngine.RebuildSums` | src/domain/vpin_engine.py:140-150 | A rebuild ends every lag, and changes nothing when the sums already held. |
| `Vpin.O1VPINEngine.PushImbalance` | src/domain/vpin_engine.py:176-186 | The O(1) update keeps the window and exactly the lag its sum had, so a right sum stays right. |
| `Vpin.O1VPINEngine.PushVpin` | src/domain/vpin_engine.py:205-216 | The O(1) update of the z-score ring keeps exactly the lag of both its sums and counts the live slots. |
| `Vpin.O1VPINEngine.Moments` | src/domain/vpin_engine.py:212-222 | In any run, mean and variance from the running sums are those of the live values skewed by what a reset left behind; the mean is right exactly when the rest of the ring sums to its lag, the variance then exactly when the squares do too, and both are right in a run without a reset. |
| `Vpin.O1VPINEngine.Score` | src/domain/vpin_engine.py:205-226 | In any run the anomaly flag is the z-score test over the live values including the new one, skewed by the lag a reset left; without a reset it is the plain test and implies enough history; a rebuild falls due by the count. |
| `Vpin.O1VPINEngine.ProcessBar` | src/domain/vpin_engine.py:152-253 | In every run, resets included: a signal comes exactly once the window since the last reset is full, its VPIN is exactly the clamped share of the window less the lag a reset left, and its anomaly flag the z-score test skewed by that lag, which lasts until the next decay or rebuild; without a reset all sums and the flag are right. |
| `Vpin.O1VPINEngine.WithoutSkewAnomalyIsRight` | src/domain/vpin_engine.py:205-226 | Where the rest of the ring sums to the lag, squares included, the flag is the plain test and at a positive threshold needs enough history. |
| `Vpin.FirstTestAfterReset` | src/domain/vpin_engine.py:111-226 | The first test after a reset measures the new value against a mean short by the value it overwrites, and raises an anomaly on a history of one value whenever that value is no larger and the overwritten one exceeds the threshold in smallest deviations. |
| `Vpin.Classify` | src/domain/vpin_engine.py:233-253 | Long exactly for an anomaly with more bought than sold, short for the reverse; absorption exactly when the price did not follow. |
| `SchrodingerLedgers.SchrodingerLedger.IsStrikeAllowed` | src/domain/schrodinger_ledger.py:410-429 | The gate is open exactly when no order of the symbol waits and total exposure is below the limit. |
| `SchrodingerLedgers.SchrodingerLedger.GetShadowPosition` | src/domain/schrodinger_ledger.py:369-408 | The loop computes the whole pessimistic position: confirmed fields, every waiting order added at its worst price, and how many there are. |
| `SchrodingerLedgers.AuditKeepsTheNewest` | src/domain/schrodinger_ledger.py:484-489 | The audit trail ends with the newest verdict and keeps the newest in order: all up to 1000, else the last 500. |
| `LedgerTheorems.MergeBounded` | src/domain/schrodinger_ledger.py:458-481 | Merging adds at most the value of the fill to a position's exposure, and a sale never adds. |
| `LedgerTheorems.MergeConservesCost` | src/domain/schrodinger_ledger.py:458-481 | Averaging a buy adds its quantity and conserves cost; a sale keeps the average and never sells more than is held. |
| `LedgerTheorems.DispatchAddsItsValue` | src/domain/schrodinger_ledger.py:162-193 | Dispatching under a fresh id raises the total by exactly the order's worst-case value. |
| `LedgerTheorems.FillMovesExposureExactly` | src/domain/schrodinger_ledger.py:199-344 | A fill within the order, reported or reconciled, replaces its worst-case value by what was paid, or takes what was sold out at the average; the position grows by exactly the quantity bought or shrinks by that sold, down to zero; exactly that order leaves purgatory and no other symbol moves. |
| `LedgerTheorems.BuysAddUp` | src/domain/schrodinger_ledger.py:199-482 | After any run of buys of one symbol its quantity has grown by the sum of the fills and its cost by the sum of what they cost. |
| `LedgerTheorems.AverageIsCostOverQuantity` | src/domain/schrodinger_ledger.py:458-482 | From an empty position the average price after a run of buys is what was paid over what was bought. |
| `LedgerTheorems.EveryEventIsRecorded` | src/domain/schrodinger_ledger.py:162-367 | Messages about unknown orders do nothing where the source ignores them; anything else moves the generation by one, and every exchange message ends the audit trail with its verdict. |
| `LedgerTheorems.OrdersSettleOnce` | src/domain/schrodinger_ledger.py:199-363 | After any conclusive message about an order, no later message about it changes positions or purgatory. |
| `LedgerTheorems.OnlyDispatchRaises` | src/domain/schrodinger_ledger.py:199-363 | Every fill, rejection, reconciliation and loss leaves total exposure no larger. |
| `LedgerTheorems.OneStaysOne` | src/domain/schrodinger_ledger.py:162-193 | Dispatching only when allowed keeps at most one waiting order per symbol. |
| `LedgerTheorems.StepKeepsInv` | src/domain/schrodinger_ledger.py:162-363 | Every legal step keeps the exposure bound, one order per symbol and sane books. |
| `LedgerTheorems.ExposureIsBounded` | src/domain/schrodinger_ledger.py:410-429 | In every disciplined run from empty, total exposure stays below the limit plus the cost of one order, with one order per symbol at most. |
| `LedgerTheorems.ExposureIsSumOfShadows` | src/domain/schrodinger_ledger.py:369-429 | The total that the gate compares is the sum over symbols of the unrounded shadow exposures. |
| `DollarBars.DollarBarEngine.IngestTrade` | src/domain/dollar_bars.py:138-222 | Dollars and quantity are conserved, old bars stay, and the ticks of the bars grow by exactly this trade: the bar it fills, then one bar a piece, flat and synthetic. Every row shows its ticks: opened by the first, closed by the last, high and low their extremes. |
| `DollarBars.DollarBarEngine.Absorb` | src/domain/dollar_bars.py:161-212 | One piece of a trade is quoted into the open bar, takes its share of the quantity by dollars, rounded down, and makes progress. |
| `DollarBars.DollarBarEngine.CloseBar` | src/domain/dollar_bars.py:224-271 | Closing appends exactly one row with the open bar's values, index and new EMA, and resets the accumulators. |
| `DollarBars.DollarBarEngine.StoreRow` | src/domain/dollar_bars.py:247-271 | The row goes to the head of the ring and the next slot is cleared, which costs the oldest row. |
| `DollarBars.DollarBarEngine.UpdateIndicators` | src/domain/dollar_bars.py:229-245 | EMA and integer Welford step; the sum of squares never decreases. |
| `DollarBars.DollarBarEngine.IndicatorsAfterClose` | src/domain/dollar_bars.py:229-245 | EMA (period at least 1) and mean stay within any range that holds all closes so far. |
| `DollarBars.DollarBarEngine.QuotientAndRemainder` | src/domain/dollar_bars.py:161-212 | After any tape, bar count and open accumulator are quotient and remainder of the accepted dollars by the threshold. |
| `DollarBars.ChunkWithin` | src/domain/dollar_bars.py:191-206 | The floor-divided quantity chunk never exceeds what is left, and the last chunk takes all of it. |
| `DollarBars.EmaStaysWithin` | src/domain/dollar_bars.py:231-238 | For a period of at least 1 the fixed-point EMA cannot leave the range of its inputs. |
| `DollarBars.EmaIsTwoOverPeriodPlusOne` | src/domain/dollar_bars.py:229-236 | After its first bar the EMA is two parts of the close and period - 1 of the old value over period + 1, rounded down, whatever the fixed-point scale. |
| `DollarBars.MeanMovesTowards` | src/domain/dollar_bars.py:240-245 | The integer mean moves towards the close and never past it, so the added square is not negative. |
| `DollarBars.DollarBarEngine.GetBarRow` | src/domain/dollar_bars.py:275-297 | A row is refused exactly outside the ring; inside, it is the row written when that bar closed exactly when the bar is not the one the pre-cleared slot destroyed. |
| `DollarBars.DollarBarEngine.OldestIsCleared` | src/domain/dollar_bars.py:268-297 | What the ring shows for the oldest bar of a full ring is all zeros. |
| `DollarBars.DollarBarEngine.GetBarsView` | src/domain/dollar_bars.py:299-323 | The view has the clamped length and agrees with the history bar by bar, also across wraparound, exactly off the oldest bar of a full ring, whose slot is cleared. |
| `DollarBars.DollarBarEngine.ReadRing` | src/domain/dollar_bars.py:310-323 | One slice or two concatenated ones read the same consecutive ring slots. |
| `RealtimeBars.RealtimeDollarBarGenerator.ProcessTick` | src/domain/dollar_bar.py:25-67 | The loop completes exactly the bars, and leaves exactly the open bar, of the recursive cut of the tick. |
| `RealtimeBars.RealtimeDollarBarGenerator.TakeChunk` | src/domain/dollar_bar.py:35-81 | One turn cuts one piece off the front and leaves the rest of the cut unchanged. |
| `RealtimeBars.TickIsConserved` | src/domain/dollar_bar.py:25-81 | Dollars, buy and sell dollars, quantity and imbalance of a tick with positive dollars are all in the completed bars or the open one. |
| `RealtimeBars.TickGrowsBars` | src/domain/dollar_bar.py:25-81 | A tick that fits grows the open bar; one that does not fills it and then bars of its own. Open, start and tick count are kept or begun, close and end are its own, high and low the extremes, and every bar gets imbalance, sides and quantity in proportion to the dollars it gets. |
| `RealtimeBars.CutIgnoresOfi` | src/domain/dollar_bar.py:25-81 | Where a tick is cut does not depend on tick counts or imbalance. |
| `RealtimeBars.SplittingATickChangesNothing` | src/domain/dollar_bar.py:25-81 | One tick and its two halves at the same price, side and time give the same bars, apart from tick count and imbalance. |
| `TripleBarrier.TripleBarrierLabeler.RegisterIntent` | src/domain/triple_barrier.py:109-164 | A fresh id in the first free slot, or in a full table in the slot of its oldest intent, which is recorded; nothing else moves; -1 only when there are no slots. |
| `TripleBarrier.TripleBarrierLabeler.EvictOldest` | src/domain/triple_barrier.py:323-366 | The evicted intent is the first with the lowest entry bar, recorded as a time-out at its entry price. |
| `TripleBarrier.AdmissionTakesOneSlot` | src/domain/triple_barrier.py:109-366 | A new intent takes the first free slot and disturbs nothing; in a full table that of the first intent with the lowest entry bar, recorded as a time-out at its entry; with no slots it is dropped. |
| `TripleBarrier.TripleBarrierLabeler.ScanBarriers` | src/domain/triple_barrier.py:193-321 | Watermarks move on every open intent; exactly those that touch a barrier or time out leave, in slot order, one result each. |
| `TripleBarrier.TripleBarrierLabeler.OnBarsClosed` | src/domain/triple_barrier.py:166-191 | The closed bars are scanned in order as far as the ring still has them, and stopping early changes nothing. |
| `TripleBarrier.TripleBarrierLabeler.Resolve` | src/domain/triple_barrier.py:286-305 | Recording one result frees one slot and keeps every id accounted for. |
| `TripleBarrier.RegisterKeepsAccounts` | src/domain/triple_barrier.py:140-164 | Registration keeps: every id below the next is active in one slot or recorded once, never both, and next id = results + open. |
| `TripleBarrier.ResolveKeepsAccounts` | src/domain/triple_barrier.py:286-305 | Recording one result and freeing its slot keeps every id accounted for once. |
| `TripleBarrier.MarkKeepsAccounts` | src/domain/triple_barrier.py:210-212 | Moving watermarks keeps every id accounted for once. |
| `TripleBarrier.TripleBarrierLabeler.GetResultsView` | src/domain/triple_barrier.py:411-421 | The view is exactly the suffix of the resolution history, across the wrap of the ring. |
| `TripleBarrier.TripleBarrierLabeler.GetLabel` | src/domain/triple_barrier.py:378-385 | The label is the recorded outcome while the row is in the ring, and None exactly otherwise. |
| `TripleBarrier.TripleBarrierLabeler.GetWinRate` | src/domain/triple_barrier.py:396-409 | The three counts are those of the rows the view returns. |
| `TripleBarrier.CountOutcomeAdds` | src/domain/triple_barrier.py:396-409 | The counts add up row by row, each row once under its own outcome. |
| `TripleBarrier.NotificationReadsTheBars` | src/domain/triple_barrier.py:176-188 | A notification reads every bar exactly as it was closed, exactly when it covers fewer bars than the ring holds. |
| `BarrierFates.SlotFate` | src/domain/triple_barrier.py:166-305 | Over a whole notification an intent that no read bar touches and whose time is not up at any of them stays open with widened watermarks; any other leaves its slot. |
| `BarrierFates.DueIsRecorded` | src/domain/triple_barrier.py:166-305 | Every open intent that is due at some bar has its end recorded at the first such bar. |
| `BarrierFates.OnlyDueIsRecorded` | src/domain/triple_barrier.py:166-305 | Every recorded row is the end of an open intent as its first due bar dictates: stop before target before time, with the outcome, exit, excursions and age that follow. |
| `BarrierFates.MarkingWidens` | src/domain/triple_barrier.py:205-222 | The watermarks are the highest high and the lowest low of the entry and of the bars read. |
| `BarrierFates.RegisteredBarriers` | src/domain/triple_barrier.py:109-165 | An intent starts with its barriers the given basis points from its entry, rounded down, and both watermarks at the entry. |
| `LabelArithmetic.LongStopLossPnl` | src/domain/triple_barrier.py:144-147 | A long stop-loss never reports a loss smaller than its distance, at any positive entry. |
| `LabelArithmetic.StopsHonestlyExactly` | src/domain/triple_barrier.py:144-274 | Over all ordered bars, a stopped intent reports at least its distance exactly when it is long, or short with (entry * sl_bps) mod 10000 below the entry. |
| `LabelArithmetic.TinyPricesHideTheStop` | src/domain/triple_barrier.py:144-161 | At an entry of one unit a short stop of one basis point violates that. |
| `LabelArithmetic.LongTakeProfitPnl` | src/domain/triple_barrier.py:260-276 | A long take-profit reports its distance or one basis point less exactly when (entry * tp_bps) mod 10000 is at most the entry, and its distance exactly when it is zero. |
| `LabelArithmetic.ShortTakeProfitPnl` | src/domain/triple_barrier.py:260-276 | A short take-profit reports exactly its distance exactly when rounding the target down adds less than the entry. |
| `LabelArithmetic.LabelsAreHonest` | src/domain/triple_barrier.py:144-276 | From an entry of 10000 units on all of these hold: at most -sl_bps, tp_bps or one less, and exactly tp_bps. |
| `LabelArithmetic.ExitWithinExcursions` | src/domain/triple_barrier.py:253-284 | Every resolved exit lies between minus the worst and the best excursion. |
| `LabelArithmetic.NotificationIsBracketed` | src/domain/triple_barrier.py:166-305 | One notification over any number of bars records only results between their own excursions and leaves only well-formed intents open. |
| `LabelArithmetic.EveryResultIsBracketed` | src/domain/triple_barrier.py:109-366 | In every run of registrations and notifications from an empty labeler, every recorded exit, evictions included, lies between minus the worst and the best excursion. |
| `LabelArithmetic.EngineRowsAreOrdered` | src/domain/triple_barrier.py:176-188 | Every row the bar engine hands out is ordered, for notifications of any length, the cleared row included. |
| `LabelArithmetic.EngineNotificationIsBracketed` | src/domain/triple_barrier.py:166-305 | So whatever bars an engine notification names, the labeler records only results between their own excursions. |
| `LabelArithmetic.LongNotificationReadsClearedRow` | src/domain/triple_barrier.py:176-188 | A notification of the whole ring or more reads the cleared slot as its oldest readable bar, and nothing before it. |
| `LabelArithmetic.ClearedRowResolvesEverything` | src/domain/triple_barrier.py:215-262 | That row of zeros stops out every long at a price of zero and takes the profit of every short. |
| `LabelArithmetic.NothingDueStaysOpen` | src/domain/triple_barrier.py:193-305 | After scanning a bar, no open intent is touched by it or past its time. |
| `ResyncProtocol.Multiplexer.PurgeResyncQueue` | src/infrastructure/gektor_l2/ws_multiplexer.py:156-167 | Draining empties queue and pending marks. |
| `ResyncProtocol.Multiplexer.IngestWsPayload` | src/infrastructure/gektor_l2/ws_multiplexer.py:196-244 | A recovering symbol hands deltas to its book and nothing else, a desynced one nothing, a synced one deltas and snapshots; the symbol then moves on the answer of the book and asks for a resync as specified. |
| `ResyncProtocol.RecoveryIsLive` | src/infrastructure/gektor_l2/ws_multiplexer.py:204-290 | Whatever messages arrive between the reset of a book and its REST snapshot, the recovered book is the snapshot with their deltas fed live, as the ring gives them back, under the two conditions of `CommuteExactly`. |
| `ResyncProtocol.MessageMoves` | src/infrastructure/gektor_l2/ws_multiplexer.py:196-244 | A message moves its own symbol only: a desynced one to RECOVERING, pending and queued or held by the pump; a synced one likewise exactly on a refused delta that shows a hole; a recovering one nowhere. |
| `ResyncProtocol.HandlingFetchesExactly` | src/infrastructure/gektor_l2/ws_multiplexer.py:252-270 | The pump fetches exactly for an entry of the current connection whose symbol has a book, with a source; the mark is gone either way. |
| `ResyncProtocol.SnapshotMessageLoads` | src/infrastructure/gektor_l2/ws_multiplexer.py:219-228 | A snapshot message to a synchronized symbol makes its book list exactly its quotes. |
| `ResyncProtocol.FinishLands` | src/infrastructure/gektor_l2/ws_multiplexer.py:270-304 | A fetched snapshot synchronizes its symbol exactly if no reconnect came between; a rate limit leaves it RECOVERING and pending, a failure DESYNCED until the pump asks again; no other symbol moves. |
| `ResyncProtocol.NoSourceNoRecovery` | src/infrastructure/gektor_l2/ws_multiplexer.py:196-244 | Without a source of snapshots nothing is queued and a desynced symbol stays so. |
| `ResyncProtocol.SnapshotsAreFresh` | src/infrastructure/gektor_l2/ws_multiplexer.py:246-299 | In every interleaving every queued entry carries the current epoch, and a snapshot is applied only if no reconnect happened since it was asked for. |
| `ResyncProtocol.RequestIsIdempotent` | src/infrastructure/gektor_l2/ws_multiplexer.py:116-129 | Asking twice for a resync is asking once. |
| `ResyncProtocol.ReconnectAttendsExactly` | src/infrastructure/gektor_l2/ws_multiplexer.py:491-502 | A reconnect leaves every recovering symbol attended exactly when its shard covers the symbols recovering then. |
| `ResyncProtocol.AttendedExactlyWhenCovered` | src/infrastructure/gektor_l2/ws_multiplexer.py:196-299 | For any number of shards, recovering symbols are attended at every point of a run exactly when each reconnect covers those recovering when it happens. |
| `ResyncProtocol.RecoveringIsAttended` | src/infrastructure/gektor_l2/ws_multiplexer.py:196-299 | With a resync source, every RECOVERING symbol is queued or in flight under the current connection in every run whose reconnects cover the symbols recovering then, in particular with one shard. |
| `ResyncProtocol.OtherShardStrandsASymbol` | src/infrastructure/gektor_l2/ws_multiplexer.py:491-502 | A concrete run with two shards strands a RECOVERING symbol with nothing queued. |
| `ResyncProtocol.HandleKeepsMarksExactly` | src/infrastructure/gektor_l2/ws_multiplexer.py:252-268 | Handling a taken entry keeps the marks right exactly when its symbol was not requested again since it was taken. |
| `ResyncProtocol.MarksExactlyWhenHandledCleanly` | src/infrastructure/gektor_l2/ws_multiplexer.py:116-268 | Over whole runs the marks are right at every point exactly when every entry is handled so. |
| `ResyncProtocol.MarksMatchQueue` | src/infrastructure/gektor_l2/ws_multiplexer.py:116-167 | Whatever else is interleaved, without a reconnect between taking an entry and handling it the pending marks are exactly the waiting symbols and none waits twice, at every point of the run. |
| `ResyncProtocol.SlippedReconnectQueuesTwice` | src/infrastructure/gektor_l2/ws_multiplexer.py:249-253 | When a reconnect slips in between the two, a symbol can be queued twice. |
| `WalCodec.PackRoundTrip` | src/infrastructure/feature_store.py:175-252 | Packing a 64-bit integer and unpacking it is the identity. |
| `WalCodec.RecordRoundTrip` | src/infrastructure/feature_store.py:175-252 | Header, features and trailer are read back from a record's bytes. |
| `WalCodec.RelabelBytes` | src/infrastructure/feature_store.py:288-299 | Overwriting the trailer bytes is encoding the relabelled record. |
| `WalCodec.ZeroHeader` | src/infrastructure/feature_store.py:145-173 | An unwritten slot reads as the end-of-log marker. |
| `FeatureStores.FeatureStore.Recover` | src/infrastructure/feature_store.py:75-173 | After a restart, which loses queued labels, the scan finds index, write position and count from the bytes alone; after any run of operations they are the ones that were lost. |
| `FeatureStores.FeatureStore.AppendFeatures` | src/infrastructure/feature_store.py:175-252 | Appending succeeds exactly when there is room, the width is right and the id and time fit; then the log grows by one record, which takes a waiting label. |
| `FeatureStores.FeatureStore.StitchLabel` | src/infrastructure/feature_store.py:254-286 | A label goes into the record the index names, or waits; the result says whether it was written. |
| `FeatureStores.FeatureStore.WriteLabelAt` | src/infrastructure/feature_store.py:288-299 | Writing trailer bytes in place relabels exactly one record, or nothing when a value does not fit. |
| `FeatureStores.FeatureStore.Compaction` | src/infrastructure/feature_store.py:340-397 | Compaction rewrites bytes, index, position and count to the compacted log and reports how many records went. |
| `FeatureStores.FeatureStore.ExportTrainingData` | src/infrastructure/feature_store.py:301-338 | The export reads back, from the bytes, the features and outcomes of the indexed records. |
| `FeatureStores.IndexIsSound` | src/infrastructure/feature_store.py:145-173 | The index of a log names, for each id, a slot holding that id, and every id of the log is in it. |
| `FeatureStores.IndexHoldsTheLatest` | src/infrastructure/feature_store.py:145-252 | The index holds exactly the newest record of every id. |
| `FeatureStores.StitchLabelsTheLatest` | src/infrastructure/feature_store.py:254-299 | A label stitched to a known id changes the label of its newest record and nothing else. |
| `FeatureStores.AppendKeepsWaiting` | src/infrastructure/feature_store.py:217-248 | Appending keeps: a label waits only for an id that has no record. |
| `FeatureStores.StitchKeepsWaiting` | src/infrastructure/feature_store.py:254-286 | Stitching keeps the same, so it holds in every store that can be reached. |
| `FeatureStores.CompactionKeepsWaiting` | src/infrastructure/feature_store.py:340-397 | Compaction keeps the same. |
| `FeatureStores.CompactionKeepsExactlyTheUnlabeled` | src/infrastructure/feature_store.py:340-397 | The compacted log holds every indexed unlabelled record unchanged, and nothing labelled. |
| `FeatureStores.ExportHoldsExactlyTheLatest` | src/infrastructure/feature_store.py:301-338 | An export holds the features and outcome of exactly the newest record of every id, with the flag of the labelled ones among them, each once. |
| `FeatureStores.StitchCommutesWithAppend` | src/infrastructure/feature_store.py:217-286 | In every store that can be reached, stitch-then-append and append-then-stitch leave the same log and queue exactly when the id has no earlier record; for a label that cannot be packed, exactly when it does not displace one that can. |
| `TiltBreaker.CognitiveSentinel.IngestHeartbeat` | src/domain/tilt_breaker.py:320-361 | A heartbeat moves trackers and state machine as specified, with clamped click counts. |
| `TiltBreaker.CognitiveSentinel.RecordAll` | src/domain/tilt_breaker.py:350-358 | The three loops are the click fold and the closed form of the asymmetric error streak. |
| `TiltBreaker.CognitiveSentinel.Evaluate` | src/domain/tilt_breaker.py:419-470 | Pending transitions, score and threshold transitions happen in the source's order. |
| `TiltBreaker.EqualGenerationsMeanEqualStates` | src/domain/tilt_breaker.py:320-413 | Over any run, an unchanged generation means that nothing at all changed. |
| `TiltBreaker.UnlockStartsFresh` | src/domain/tilt_breaker.py:392-413 | A forced unlock lands in CLEAR with a score of zero under a new generation, from any state. |
| `TiltBreaker.NothingOpensEarly` | src/domain/tilt_breaker.py:363-413 | Without a forced unlock or a late heartbeat, a locked or blind sentinel never allows execution. |
| `TiltBreaker.LockHolds` | src/domain/tilt_breaker.py:419-470 | After a lock at t, execution is allowed again only after a forced unlock or a heartbeat at t + cooldown or later. |
| `TiltBreaker.UnlockLandsInClear` | src/domain/tilt_breaker.py:419-470 | A heartbeat that ends a lock comes no earlier than the lock's end, and lands in CLEAR with a composite score of zero. |
| `TiltBreaker.BlindExactly` | src/domain/tilt_breaker.py:363-413 | After any history the state is BLIND exactly when some check came later than the timeout after the last heartbeat before it, or it was BLIND to begin with, and nobody unlocked it since. |
| `TiltBreaker.OnlyForceLeavesBlind` | src/domain/tilt_breaker.py:363-413 | No run of heartbeats and checks leaves BLIND. |
| `TiltScores.HeartbeatLands` | src/domain/tilt_breaker.py:419-470 | From CLEAR or ELEVATED a heartbeat lands in LOCKED exactly from a score of 0.7, in ELEVATED from 0.4 up to 0.7, in CLEAR below 0.35, and stays where it was in between. |
| `TiltScores.ShutHeartbeatLands` | src/domain/tilt_breaker.py:419-470 | A locked sentinel cools down until its time and is CLEAR at the first heartbeat from then on; a BLIND one stays so. |
| `TiltScores.HigherScoreAllowsNoMore` | src/domain/tilt_breaker.py:419-470 | Of two heartbeats the one with the higher score never allows more. |
| `TiltScores.ScoreIsMonotone` | src/domain/tilt_breaker.py:419-450 | More drift, a longer streak or more spam never lowers the score, which stays between zero and one. |
| `TiltScores.ScoreIs` | src/domain/tilt_breaker.py:419-450 | With the default weights the score is a fifth of the drift up to 2, 0.0875 an error up to 4, and a twentieth of the spam up to 5. |
| `TiltScores.TwoTrackersLock` | src/domain/tilt_breaker.py:419-470 | Four errors on twice the drift always lock; one tracker alone never does. |
| `TiltScores.DriftIsRelative` | src/domain/tilt_breaker.py:98-113 | With five samples the drift times the baseline is the distance of the last reaction from the baseline; before, it is zero. |
| `TiltScores.BaselineFollows` | src/domain/tilt_breaker.py:82-96 | The baseline moves fifteen hundredths of the way to each new reaction. |
| `TiltScores.SteadyReactionsNeverDrift` | src/domain/tilt_breaker.py:82-113 | An operator who always reacts alike never drifts. |
| `TiltScores.BurstDensityCountsRecent` | src/domain/tilt_breaker.py:193-207 | Counting back to the first older click counts all clicks of the last half second. |
| `TiltScores.FirstClicks` | src/domain/tilt_breaker.py:163-191 | The first n clicks leave five tokens less n, the newest ten times, and a rapid count of n. |
| `TiltScores.OneClickSpam` | src/domain/tilt_breaker.py:193-216 | A lone first click adds two fifths for its token and its rate over at least a tenth of a second. |
| `TiltScores.OneClickSaturatesExactly` | src/domain/tilt_breaker.py:193-216 | A lone first click saturates the spam tracker exactly when it is scored within ten fifty-firsts of a second. |
| `IntentCapsules.CapsuleValidator.Validate` | src/domain/intent_capsule.py:235-302 | The cascade rejects for the first failing check and counts it, or consumes the nonce and allows. |
| `IntentCapsules.CapsuleValidator.ConsumeNonce` | src/domain/intent_capsule.py:318-329 | The eviction loop leaves the newest nonces within the bound, set and queue in step. |
| `IntentCapsules.ValidateKeepsCache` | src/domain/intent_capsule.py:235-329 | Every call keeps: the used set is the set of a duplicate-free FIFO within its bound, which is the tail of all acceptances. |
| `IntentCapsules.RejectionsAddUp` | src/domain/intent_capsule.py:235-316 | Over any run each counter grows by exactly the calls refused for its reason, and the total by all refused. |
| `IntentCapsules.RunKeepsDistance` | src/domain/intent_capsule.py:235-329 | Over any run, a nonce accepted again was accepted more than max acceptances ago. |
| `IntentCapsules.CapsulesAreSingleUse` | src/domain/intent_capsule.py:235-329 | With unique nonces, a clock that does not go back, and never max + 2 acceptances within ttl + 0.1 s, no capsule is accepted twice. |
| `IntentCapsules.BurstReopensACapsule` | src/domain/intent_capsule.py:318-329 | The rate condition is sharp for every cache size and every life: max + 1 different capsules accepted at once let the first in again, with the clock in order and one issue time a nonce. |
| `IntentLedgers.RunKeepsVersion` | src/domain/intent_ledger.py:74-182 | In every run the active intent is unrevoked exactly while its version is the ledger's own. |
| `IntentLedgers.HistoryExplainsLedger` | src/domain/intent_ledger.py:74-182 | After any history the active intent is the newest emission, unrevoked exactly when no revocation and no late click on it came after. |
| `IntentLedgers.ClickIsSound` | src/domain/intent_ledger.py:109-157 | A click is honoured exactly when it names the newest emission, which still stands and has not expired. |
| `IntentLedgers.OlderVersionsAreDead` | src/domain/intent_ledger.py:74-107 | A click on the version of any older emission is never honoured. |
| `IntentLedgers.FlagAloneRefuses` | src/domain/intent_ledger.py:109-189 | After any history in which the newest intent was ended, it still has the version a click on it names; the flag alone refuses the click, which would otherwise be honoured until the intent expires. |
| `IntentLedgers.CountersCount` | src/domain/intent_ledger.py:74-189 | After any history the version is the number of emissions and of intents ended, and the two counters are the intents ended and the clicks refused. |
| `IntentLedgers.FirstReasonStays` | src/domain/intent_ledger.py:159-189 | The first revocation of an intent gives the reason and no later one changes it. |
| `OperatorGates.OperatorGate.IssueCapsule` | src/application/operator_gate.py:94-135 | The issued capsule carries the sentinel's current generation, signed under the session key. |
| `OperatorGates.OperatorGate.ValidateExecution` | src/application/operator_gate.py:141-209 | The composed call over the four objects is the specified two-stage step; a nonce is used up even when the second stage refuses. |
| `OperatorGates.SameKeyMeansNoRotation` | src/application/operator_gate.py:215-229 | With fresh keys, an unchanged key means no rotation in between. |
| `OperatorGates.RotationEndsCapsules` | src/application/operator_gate.py:215-229 | No capsule minted before a rotation is ever approved after it. |
| `OperatorGates.ApprovalExactly` | src/application/operator_gate.py:165-209 | Over every run: a click is approved exactly when its capsule was minted in the same session, the whole sentinel state is as it was then and CLEAR or ELEVATED, its age is within bounds, its nonce not recently used, and it names the newest, unrevoked, unexpired intent. |
| `OperatorGates.CapsuleApprovesAnotherSymbol` | src/application/operator_gate.py:165-209 | For any two symbols and sides there is a run in which a capsule issued for the one approves an intent about the other. |
| `OperatorGates.LogIsTraced` | src/application/operator_gate.py:165-209 | Every acceptance goes back to one issue and one click of the run, in clock order. |
| `OperatorGates.NoCapsuleExecutesTwice` | src/application/operator_gate.py:165-209 | Two approved clicks of a run never carry the same capsule, under unique nonces, ordered clicks and the rate bound. |
| `OperatorGates.CountersCount` | src/application/operator_gate.py:94-209 | Over any run the counters are the capsules issued and the clicks approved. |
| `Markets.LastRowWins` | src/domain/markets.py:232-281 | What a price holds after an update is what the last row about it said. |
| `Markets.UntouchedPricesStay` | src/domain/markets.py:232-281 | Prices no row mentions keep their quantity. |
| `Markets.LastQuantityIsLoaded` | src/domain/markets.py:170-182 | A price in a loaded snapshot holds what the last row about it that carries a quantity said. |
| `Markets.UnquotedIsAbsent` | src/domain/markets.py:170-182 | A price no row quotes with a quantity is absent. |
| `Markets.TradeTakesTheOtherSide` | src/domain/markets.py:283-304 | A buy lowers exactly the ask at its price by its volume, a sale exactly the bid, removing it when nothing is left; nothing else changes. |
| `Markets.TradesAdd` | src/domain/markets.py:283-302 | Trading a level in two parts or in one comes to the same. |
| `Markets.ListIsDetermined` | src/domain/markets.py:232-281 | A dictionary has only one sorted list that agrees with it. |
| `Markets.PriceSide.BisectLeft` | src/domain/markets.py:242-261 | The bisection loop returns the place where the price belongs. |
| `Markets.PriceSide.UpdateRow` | src/domain/markets.py:232-281 | A row changes dictionary and list together, and they stay in agreement: strict order, same keys, positive quantities. |
| `Markets.PriceSide.Update` | src/domain/markets.py:232-281 | A whole update is the fold of its rows over the dictionary, and list and dictionary still agree. |
| `Markets.PriceSide.Trade` | src/domain/markets.py:283-304 | A ghost trade reduces or removes one price in both structures; an unknown price changes nothing. |
| `Markets.PriceSide.Fill` | src/domain/markets.py:170-182 | Loading a snapshot sets the dictionary to its rows of positive quantity, later ones winning, and the list to the sorted keys. |
| `Markets.PriceSide.Best` | src/domain/markets.py:306-311 | The first levels of the list are the best ones: none left out is better than one returned. |
| `Markets.StateMachineOrderBook.OnWsDelta` | src/domain/markets.py:118-149 | Buffering, stale, large-gap and live frames move the book as specified, keeping agreement on both sides. |
| `Markets.StateMachineOrderBook.ApplyRestSnapshot` | src/domain/markets.py:159-215 | A snapshot with its stitching loop moves the book as specified, inside one epoch bracket. |
| `Markets.StateMachineOrderBook.ApplyTradeGhostUpdate` | src/domain/markets.py:283-304 | A ghost trade moves one side as specified. |
| `Markets.StateMachineOrderBook.IsCrossed` | src/domain/markets.py:54-65 | Looking at the two best prices decides whether any bid reaches any ask. |
| `Markets.StateMachineOrderBook.GetVwapLevels` | src/domain/markets.py:306-311 | The best levels of the side asked for, or nothing while not synchronized. |
| `Markets.StitchingLeavesNoHole` | src/domain/markets.py:189-215 | When a snapshot ends SYNCED, the events applied on top of it (skipped ones do not count) cover every id from the snapshot to the book's own, whatever the buffer dropped before. |
| `Markets.SyncedExactlyWithoutHoles` | src/domain/markets.py:189-206 | It ends SYNCED exactly when no id is missing in front of a buffered event. |
| `Markets.BufferingCommutesWithSnapshot` | src/domain/markets.py:118-215 | A successful stitching gives the book of a client that took the snapshot first and the same events live, whatever their order and whichever ids they lack, provided no event ends on the very id the book has when its turn comes. |
| `Markets.HydratingBuffers` | src/domain/markets.py:118-131 | While hydrating, whatever arrives is buffered, the newest 2000 events of it, and nothing else moves. |
| `Markets.LiveFrameLands` | src/domain/markets.py:133-149 | A live book ignores an older frame without complaint, applies any other that starts within 5000 ids, and reports exactly the rest. |
| `Markets.LargeGapRehydrates` | src/domain/markets.py:133-215 | A frame more than 5000 ids ahead ends synchronization; what arrives then is buffered, and the next snapshot makes the book it would make of an empty one with those events waiting. |
| `Markets.HarmlessExactly` | src/domain/markets.py:232-281 | Rows in front of others make no difference exactly when every price they touch is touched again later or keeps its quantity. |
| `Markets.SidesAgreeExactly` | src/domain/markets.py:133-206 | At one price, live run and replay agree exactly when the price agreed before or is touched since, and every tie is harmless there. |
| `Markets.TiesExactly` | src/domain/markets.py:133-206 | Stitching equals live replay exactly when, on both sides and at every event that ends on the id the book has then, each price it touches is touched again later or already was as it says. |
| `Markets.BoundaryEventExactly` | src/domain/markets.py:133-206 | The special case of one event ending on the snapshot's own id after older ones: exactly when its rows are harmless in that sense, on both sides. |
| `Markets.BoundaryEventIsTreatedTwice` | src/domain/markets.py:133-196 | A concrete boundary event on which they differ: replay skips it, the live path applies it again. |
| `Markets.RepeatedIdIsTreatedTwice` | src/domain/markets.py:133-206 | A concrete buffer of two events with one last id: the replay applies the first, the live path both. |
| `Markets.LiveCoversExactly` | src/domain/markets.py:133-149 | A live run that stays SYNCED leaves no hole at any moment exactly when every event it applies starts at or below the next id. |
| `Markets.JumpIsApplied` | src/domain/markets.py:133-149 | A frame that starts up to 5000 ids ahead is applied and leaves the book SYNCED with ids missing. |
| `Markets.NextKeepsInv` | src/domain/markets.py:118-304 | Every operation keeps quantities positive, the epoch even, the flags consistent and the buffer within 2000. |
| `Markets.RunKeepsInv` | src/domain/markets.py:118-304 | In every run quantities stay positive, the epoch even, the flags consistent and the buffer within 2000. |
| `Markets.OverflowIsNeverReported` | src/domain/markets.py:123-131 | In every run a frame that arrives while hydrating is buffered: the 10000-entry overflow branch is never taken, the oldest frame just goes. |

## Left out

- Network clients, WebSocket sessions, acknowledgement futures, hot swap, Telegram, SQL, Redis, logging, GPU and memory monitors: plumbing with no hard property.
- HMAC and key or nonce generation: a signature is symbolic (a key with everything it signs); fresh keys, fresh nonces and unforgeability are stated hypotheses of the gate theorems.
- The signed message as `|`-joined text with the time printed to six decimals: the model signs the tuple of fields, so two different payloads that print alike are not captured.
- Exponentials and square roots: decay factors and survival tables are parameters known by their bounds, and the z-score is compared in squared form.
- Floating-point and decimal rounding, and the display rounding of shadow positions and tilt metrics.
- 64-bit wrap-around of prices, quantities and bar fields: unbounded here. The 64-bit id fields of a delta frame, the log fields and the seqlock counter are modelled at their width.
- The ring's free-running `head` and `tail` counters: unbounded here. Its use by two processes at once, where both sides write `tail`: one event loop here.
- The source's duplicated bid and ask code: one `BookSide` and one `PriceSide` class, used twice.
- numpy's `searchsorted`, `argsort`, masks and `flatnonzero`, and Python's `sorted` and `bisect`: written out as loops or functions with their meaning.
- Parallel arrays of intent fields: a slot of the labeler holds the whole intent, and a slot of the log file holds one record's bytes, so partially written records are not captured.
- Crashes in the middle of one append, label write or compaction: each is one step, as it is within one turn of the event loop.
- Label, revocation and bar callbacks, and re-entrant calls from them.
- The tilt trackers as separate objects: they are values held by the sentinel, with the click ring as a bounded sequence and the reaction ring as its last sample and count; the diagnostic maximum streak is dropped.
- Normalisation of side and status strings, parsing of price strings, JSON forms of capsules, session identifiers and operator names.
- The shared-memory image and lock of the dictionary book (the epoch counter is kept); the cross-asset snapshot, readiness and data-age queries of the level-2 book.
- Progress of recovery with several shards, and loss of an anchor while no message arrives.
- Ordering of memory operations weaker than sequential consistency in the seqlock.
- The reconnect reconciler, liquidity detectors, exit rules, fill simulator, outbox, formatters: easy members, or dependent on database behaviour.
- RealtimeBars.RealtimeDollarBarGenerator.ProcessTick: requires a positive threshold, because with any other the source's splitting loop does not end.
- Vpin.O1VPINEngine.ProcessBar: requires a positive volume threshold, because the source divides by it without a check.
- Markets.SyncedExactlyWithoutHoles: assumes events whose first id is not above their last, as the feed numbers them.
- FeatureStores.FeatureStore.AppendFeatures: requires feature values that fit 64 bits, which the array type of the source already ensures.
- Seqlock.ReadsAreAtomic: bounded by 2^64 counter bumps during one read, because beyond that it is false.
- LedgerTheorems.ExposureIsBounded: assumes that callers ask the gate before each dispatch and that fills stay within the order, because the ledger itself checks neither.
- BookListings.BookListsItsQuotes: assumes a snapshot of distinct prices and no side over its capacity, because beyond either the arrays keep repeated prices or drop new ones (`ApplyRowKeepsOrder`, `ApplyRowRefinesMap`).
- Markets.TiesExactly: assumes that a buffered event carries its last id and a first id, if any, not above it; without a last id the live path would move to the first one.
- ResyncProtocol.Multiplexer.PumpFinish: the REST snapshot it applies is recorded by its epochs only; what it does to the book is `RecoveryIsLive`.
- Markets.LiveCoversExactly: assumes events that carry both ids, the first not above the last; without them nothing says which ids an event covers.
- Markets.StitchingLeavesNoHole: assumes events that carry both ids; an event without its first id is replayed without any check, as in the source.
