# Cluster linearization, fee estimation and announcement order, verified

This project models three parts of the node and proves what they promise.

**Cluster linearization** (`src/btclib_node/cluster_linearize.py`). A cluster is a set of transactions that depend on
one another. `DepGraphs` keeps their ancestors and descendants. `Chunking` divides an order of them into chunks, and
`CompareChunks` compares the feerate diagrams of two orders. `SpanningForest` is the state of the spanning-forest
algorithm: the active dependencies form a forest whose trees are the chunks, and `Linearizing` runs it. `PostLinearizing`
improves an order in place.

- The two central notions are in `Diagrams`. Along a slope (a feerate) a list of chunks has a *gain*, and an order has
  a *peak*, the most that a prefix of it is worth. One diagram is nowhere below another exactly when it gains at least as
  much along every slope (`AboveIffDominates`); an order is *never worse* than another when it peaks at least as high
  along every slope, and that is what the comparison of their chunks answers (`Linearizing.NeverWorseIsVerdict`).
- `Trees` and `Forests` hold what is proved of one chunk and of all of them, `ForestStates` and `Deactivation` relate the
  arrays to trees, `Climbs`, `Improving`, `Loading` and `Watching` are about merging, `Optimality`, `Minimality` and
  `Minimizing` about optimal and minimal chunks, `Emissions`, `ChunkOrders`, `EmittedOrders` and `EmissionOrders` about the
  order that is put out, and `ClosedSets` and `OptimalChunks` about there being only one that is optimal. `GroupRanks`,
  `GroupLists`, `GroupOrders`, `GroupShapes` and `TreeOrders` belong to the two passes of `PostLinearizing`.
- The random generator is modelled twice: `RandomBits` has its bit buffer, and the forest takes any number in range at
  every draw, so that all results hold for every seed.

**Fee estimation** (`src/btclib_node/fee_estimator.py`). `FeeBuckets` finds the bucket of a feerate, `TrackedCounts` says
what a circular buffer of counts and an overflow counter stand for, `RowScans` when a scan reads the right rows of it,
`FeeScans` what the scan of the buckets reports. `FeeStats` is one horizon, `BlockRecords` what a block adds to it, and
`FeeEstimating` the estimator with three.

**Announcement order** (`src/btclib_node/download.py`). `Trickles` pops what one trickle sends, from a queue that is read
in one of two orders.

Where a result of `linearize` is optimal, it depends on nothing but the graph and the keys (`Linearizing.LinearizeTwice`):
chunks that cannot be split are the same in all optimal linearizations, and they are put out in one order.

Three results are about where the code does not do what one might expect of it:

- "Never worse than the old linearization" holds of every old order that is a linearization, whatever the caller says of
  it. Of any other order it can fail: `Linearizing.ChildFirstIsBetter` gives a cluster and an order that no result can
  match.
- Below a horizon's size, the estimator's 32-bit subtraction can read a row that is in use for a height below zero.
  `RowScans.ScanIsRightIff` gives the exact condition under which the count is right.
- A horizon's counts go wrong when a block skips heights and some tracked transaction falls out of the buffer from a row
  that is not cleared: `TrackedCounts.SkippingLoses` shows one, and `FeeEstimating.FeeEstimator.ProcessBlock` has the exact
  condition. It never happens where blocks come one height after another.

## Model

| member | source | states |
|---|---|---|
| `FeeRates.FeerateCompare` | src/btclib_node/cluster_linearize.py:73-79 | The sign is that of the difference of the two feerates, by cross-multiplication, and is positive exactly where the first is higher. |
| `DepGraphs.DepGraph.constructor` | src/btclib_node/cluster_linearize.py:163-169 | A new graph is empty, and its ancestry is consistent. |
| `DepGraphs.DepGraph.AddTransaction` | src/btclib_node/cluster_linearize.py:214-226 | The lowest free position gets the new transaction, related to itself only; all others keep fee, size, ancestors and descendants, and the ancestry stays reflexive, transitive and mutually inverse. |
| `DepGraphs.DepGraph.RemoveTransactions` | src/btclib_node/cluster_linearize.py:228-242 | Those that stay lose exactly the deleted ones from their ancestors and descendants; the ancestry stays consistent, and the highest position is in use. |
| `DepGraphs.DepGraph.AddDependencies` | src/btclib_node/cluster_linearize.py:244-257 | The new ancestry is the old one, and the ancestors of the new parents for the child and all its descendants; it stays consistent. |
| `DepGraphs.DependingIsClosure` | src/btclib_node/cluster_linearize.py:244-257 | That is the transitive closure of the old ancestry and the new dependencies: it has both, and every transitive relation that has both has it. |
| `DepGraphs.DepGraph.ReducedParents` | src/btclib_node/cluster_linearize.py:259-266 | For every graph: strict ancestors that cover all others, none an ancestor of another; in an acyclic one exactly those that are not strict ancestors of another one, whatever order the loop takes. |
| `DepGraphs.ParentsCover` | src/btclib_node/cluster_linearize.py:259-266 | In an acyclic graph, every strict ancestor is an ancestor of one of the reduced parents. |
| `DepGraphs.DepGraph.IsAcyclic` | src/btclib_node/cluster_linearize.py:298-303 | True exactly where no two transactions are ancestors of each other. |
| `DepGraphs.DepGraph.Remapped` | src/btclib_node/cluster_linearize.py:171-195 | For every injective mapping of an acyclic graph, the copy has fee, size and, both ways, exactly the ancestry of the original, at the mapped positions. |
| `DepGraphs.AllRebuilt` | src/btclib_node/cluster_linearize.py:187-195 | A copy that has no ancestry which the original does not have, and in which each transaction has its reduced parents back, has exactly the ancestry of the original. |
| `Diagrams.AboveIffDominates` | src/btclib_node/cluster_linearize.py:334-343 | A diagram, with flat end, is nowhere below another sorted one exactly when it gains at least as much along every slope: the meaning given to "worse nowhere". |
| `Chunking.ChunkLinearizationInfo` | src/btclib_node/cluster_linearize.py:306-322 | The chunks are consecutive segments with their fees and sizes; feerates do not increase, every part cut off a chunk in front is strictly below the chunk, and along every slope the chunks gain exactly what the best prefix of the order is worth. |
| `Chunking.OneChunking` | src/btclib_node/cluster_linearize.py:306-322 | Only one division of an order into segments has these properties. |
| `CompareChunks.CompareChunks` | src/btclib_node/cluster_linearize.py:334-385 | For all positive-size chunk lists the answer is 1, -1, 0 or none precisely as the two piecewise-linear diagrams compare at every real size, although only breakpoints are visited. |
| `CompareChunks.VerdictOfSwapped` | src/btclib_node/cluster_linearize.py:334-385 | Swapping the diagrams negates the answer. |
| `CompareChunks.VerdictOfDominating` | src/btclib_node/cluster_linearize.py:334-385 | For sorted diagrams that end in the same point, the answer is 0 or 1 exactly where the first gains at least as much along every slope. |
| `SpanningForest.SpanningForestState.constructor` | src/btclib_node/cluster_linearize.py:406-446 | The first state has the reduced parents and children of the graph, one chunk for each transaction, and consistent arrays. |
| `SpanningForest.SpanningForestState.Activate` | src/btclib_node/cluster_linearize.py:462-502 | Two chunks become one: every array slot has its exact new value, top sets are again exactly one side of their dependency's cut, and sums and reach sets are those of the new chunk. |
| `SpanningForest.SpanningForestState.Deactivate` | src/btclib_node/cluster_linearize.py:504-545 | One chunk becomes the top set and the rest: every slot has its exact new value, and all that holds of top sets, sums and reach sets still does. |
| `ForestStates.ActivateValid` | src/btclib_node/cluster_linearize.py:462-502 | Activating keeps the forest invariant: slots are partitioned, each top set is one side of its cut, chunks are connected and partition the transactions; the forest is the old one with two trees joined. |
| `Deactivation.DeactivateValid` | src/btclib_node/cluster_linearize.py:504-545 | Deactivating keeps it too; the forest is the old one with one tree split. |
| `Deactivation.RoundTrip` | src/btclib_node/cluster_linearize.py:462-545 | Deactivating what was just activated restores every array. |
| `SpanningForest.SpanningForestState.ActivateAndBack` | src/btclib_node/cluster_linearize.py:462-545 | Running the one after the other leaves every array and queue as it was; only the cost grows. |
| `Trees.SplitJoin` | src/btclib_node/cluster_linearize.py:462-545 | On trees, splitting what was just joined gives both back, with all their top sets. |
| `Trees.JoinSplit` | src/btclib_node/cluster_linearize.py:462-545 | And joining again what was just split gives the whole back. |
| `SpanningForest.SpanningForestState.MergeChunks` | src/btclib_node/cluster_linearize.py:547-565 | One dependency between the two chunks is activated, any of them, and the lower chunk keeps its index. |
| `SpanningForest.SpanningForestState.PickMergeCandidate` | src/btclib_node/cluster_linearize.py:567-596 | The chunk found is depended on, not above the given one, and lowest among all depended on (downward: its mirror image); none is found only if every chunk depended on is strictly higher. |
| `SpanningForest.SpanningForestState.MergeStep` | src/btclib_node/cluster_linearize.py:598-605 | The chunk is merged with such a candidate, or nothing changes and there is none. |
| `Climbs.ClimbStep` | src/btclib_node/cluster_linearize.py:567-605 | Merging with the lowest candidate keeps all dependencies besides those of the merged chunk strict, and keeps it from depending on what depends on it: why no cycle arises. |
| `FeeRates.AbsorbStep` | src/btclib_node/cluster_linearize.py:612-619 | Along every slope, a chunk that absorbs parts of non-decreasing feerate, each not above it, gains with what is left at least what there was without it. |
| `SpanningForest.SpanningForestState.MergeSequence` | src/btclib_node/cluster_linearize.py:612-619 | The run ends with nothing left to merge with, and queues the result. Along every slope, the chunks gain afterwards at least what all but the moving one did before; and what that one was worth too, along slopes not above the feerate it is known to exceed. |
| `SpanningForest.SpanningForestState.Improve` | src/btclib_node/cluster_linearize.py:621-629 | From a forest with strict dependencies only, splitting where the top beats its chunk and merging again gives such a forest, whose diagram is nowhere lower; chunks not queued are as they were. |
| `SpanningForest.SpanningForestState.PickChunkToOptimize` | src/btclib_node/cluster_linearize.py:631-641 | Only dead chunks are dropped from the queue on the way to the first live one; no answer means that the queue is empty. |
| `SpanningForest.SpanningForestState.PickDependencyToSplit` | src/btclib_node/cluster_linearize.py:643-659 | The dependency found has a top set that beats its chunk, and none is found only if no top set does. |
| `SpanningForest.SpanningForestState.ShuffledInto` | src/btclib_node/cluster_linearize.py:661-666 | The item is added, and changes places with some entry; nothing is lost. |
| `SpanningForest.SpanningForestState.LoadLinearization` | src/btclib_node/cluster_linearize.py:668-673 | For a linearization, all dependencies between the chunks become strict, and the chunks gain at least what every prefix of it is worth. |
| `SpanningForest.SpanningForestState.MakeTopological` | src/btclib_node/cluster_linearize.py:675-701 | It terminates from every forest, and all dependencies between chunks become strict; where they are, nothing changes. |
| `Watching.WatchedAfterMerge` | src/btclib_node/cluster_linearize.py:675-701 | After a merge, one end of every dependency that is not strict is still queued, in a direction in which it will be tried. |
| `Watching.WatchedAfterVain` | src/btclib_node/cluster_linearize.py:675-701 | And so after a chunk was tried in vain, although most are tried in one direction only. |
| `SpanningForest.SpanningForestState.OptimizeStep` | src/btclib_node/cluster_linearize.py:710-719 | The diagram is nowhere lower, dependencies stay strict, every live chunk outside the queue has no top set that beats it, the cost grows, and the answer "no more" means that no top set beats its chunk. |
| `Trees.Certificate` | src/btclib_node/cluster_linearize.py:643-659 | Where no top set weighs more than nothing in a chunk that weighs nothing, no part closed under the active dependencies does: what one scan without a result means for all subsets. |
| `Optimality.OptimalBound` | src/btclib_node/cluster_linearize.py:710-719 | Where no top set beats its chunk, no closed set of transactions is worth more than the chunks gain, along any slope. |
| `SpanningForest.SpanningForestState.MinimizeStep` | src/btclib_node/cluster_linearize.py:730-787 | The diagram is unchanged, no top set beats its chunk, no chunk depends on a lower one, there is no cycle; the queue has live chunks once each, every other chunk is minimal, and "no more" means that none is queued. |
| `Minimality.EvenPartHasTop` | src/btclib_node/cluster_linearize.py:744-757 | Where a chunk that no top set beats could be split at all, some top set is not below it, and has the pivot exactly where the first part would. |
| `Minimality.StillNoEvenPart` | src/btclib_node/cluster_linearize.py:765-787 | What the first stage ruled out for a pivot stays ruled out in the part that keeps it, so that the second stage can end with a minimal chunk. |
| `SpanningForest.SpanningForestState.GetLinearization` | src/btclib_node/cluster_linearize.py:789-839 | Each transaction comes once, parents first, chunk after chunk, feerates not increasing, and the order peaks along every slope at least as high as the chunks gain. No later chunk that waits for nothing should have come before by feerate, size and highest key, and so for the transactions within a chunk, by their own. |
| `EmissionOrders.OneOrder` | src/btclib_node/cluster_linearize.py:789-839 | With distinct keys, the same chunks are put out in one order only, each with its transactions in one order. |
| `EmittedOrders.BestIsBest` | src/btclib_node/cluster_linearize.py:815-839 | The ready chunk of the highest feerate is the highest of all chunks left, ready or not. |
| `SpanningForest.SpanningForestState.GetDiagram` | src/btclib_node/cluster_linearize.py:841-849 | The chunk feerates in the order of their feerates, then smaller first; the list gains, and peaks, exactly what the chunks gain, so the order put out is nowhere below it. |
| `Linearizing.Linearize` | src/btclib_node/cluster_linearize.py:852-893 | For every seed, budget and fallback order: a linearization, its segments and their transactions in turn; never worse than the old order where that is one; where said to be optimal, never worse than any linearization and with chunks that cannot be split with the first part not below the whole; where not, the budget was spent. |
| `Linearizing.LinearizeTwice` | src/btclib_node/cluster_linearize.py:13-16 | With distinct keys, two optimal results for one graph are the same order, whatever the seeds, the budgets and the old orders. |
| `OptimalChunks.SameChunkSets` | src/btclib_node/cluster_linearize.py:13-16 | Every chunk of one optimal result with chunks that cannot be split is a chunk of any other. |
| `ClosedSets.NotCut` | src/btclib_node/cluster_linearize.py:13-16 | Why: a set that is worth most along some slope, of all that have the ancestors of their members, has all of such a chunk or nothing. |
| `Linearizing.CompareWithOld` | src/btclib_node/cluster_linearize.py:334-385 | The comparison of the chunks of the result and of the old linearization answers 0 or 1, never -1 or none. |
| `Linearizing.NeverWorseIsVerdict` | src/btclib_node/cluster_linearize.py:870-871 | "Never worse" is exactly an answer of 0 or 1 for the chunks of two linearizations of one cluster. |
| `Linearizing.ChildFirstIsBetter` | src/btclib_node/cluster_linearize.py:870-871 | A cluster in which an order with the child first is better than every linearization: of such an old order the promise fails. |
| `MinimalChunks.EmittedAreMinimal` | src/btclib_node/cluster_linearize.py:870-871 | The segments of the order that come from minimal chunks are its chunks, and no part of one that could go first, with all its ancestors there, reaches the feerate of the whole. |
| `ClusterGraphs.ParentsFirstIffAncestorsFirst` | src/btclib_node/cluster_linearize.py:789-839 | An order keeps all ancestors first exactly when it keeps the reduced parents first. |
| `PostLinearizing.PostLinearize` | src/btclib_node/cluster_linearize.py:896-966 | In place: a permutation, ancestors first, never worse than before; the groups of the last pass are the chunks of the result, each connected by dependencies; and if no transaction has two parents, or none has two children, no order of the same transactions is better. |
| `PostLinearizing.Pass` | src/btclib_node/cluster_linearize.py:916-966 | What one pass writes is its list of groups, read through the linked arrays: an order that keeps the dependencies, groups of never increasing feerate that gain what every prefix of the input is worth. |
| `GroupOrders.PlaceMerge` | src/btclib_node/cluster_linearize.py:937-945 | Merging with the group in front keeps the arrays a linked list of the groups, and loses nothing along any slope. |
| `GroupOrders.PlaceSwap` | src/btclib_node/cluster_linearize.py:946-952 | Passing the group in front, on which nothing depends, keeps the linked list and the dependencies. |
| `TreeOrders.NoOrderAbove` | src/btclib_node/cluster_linearize.py:899-905 | After a pass that faces the root of a tree, no order that keeps the dependencies peaks higher than the groups do. |
| `PostLinearizing.StillLinearization` | src/btclib_node/cluster_linearize.py:896-905 | A linearization of all transactions is still one afterwards. |
| `RandomBits.InsecureRandomContext.RandBits` | src/btclib_node/cluster_linearize.py:127-140 | The draw is appended to all draws before; they and the buffer together are exactly the outputs read as one stream of bits, and the buffer is below two to its size. |
| `RandomBits.DrawIsBits` | src/btclib_node/cluster_linearize.py:127-140 | So each draw is the bits of the concatenated outputs from where the draws before it end: none lost, none repeated. |
| `RandomBits.InsecureRandomContext.RandRange` | src/btclib_node/cluster_linearize.py:142-149 | The first of the draws of the bound's bit length that is below the bound; all before it were not. It is found wherever there is one, for any 64-bit outputs. |
| `FeeBuckets.Find` | src/btclib_node/fee_estimator.py:201-207 | The last bucket of the lowest bound that is not below the feerate, or the last bucket of all. |
| `FeeStats.TxConfirmStats.constructor` | src/btclib_node/fee_estimator.py:275-291 | A new horizon counts nothing. |
| `FeeStats.TxConfirmStats.ClearCurrent` | src/btclib_node/fee_estimator.py:297-302 | The row of the height goes to the overflow counters, and is empty afterwards. |
| `TrackedCounts.RolledIff` | src/btclib_node/fee_estimator.py:297-302 | After that, rows and counters are exactly the tracked transactions by entry height and bucket, if and only if all that fall out of the window were in that row. |
| `TrackedCounts.LostIsOvercounted` | src/btclib_node/fee_estimator.py:297-302 | Where they are not, what is lost stays counted in a row that now stands for a height at which nothing entered. |
| `TrackedCounts.StillOvercounts` | src/btclib_node/fee_estimator.py:331-350 | And nothing that leaves takes that with it. |
| `TrackedCounts.SkippingLoses` | src/btclib_node/fee_estimator.py:297-302 | With 12 rows, a transaction from height 1 is lost by a block at height 20. |
| `TrackedCounts.NextHeightFallsOut` | src/btclib_node/fee_estimator.py:649-660 | So always where a block comes one height after the last. |
| `FeeStats.TxConfirmStats.Record` | src/btclib_node/fee_estimator.py:304-313 | One more in the feerate's bucket, in exactly the periods that are long enough; no average leaves the bounds of its bucket, if the feerate is not below zero nor above the highest bound. |
| `FeeStats.TxConfirmStats.UpdateMovingAverages` | src/btclib_node/fee_estimator.py:315-323 | Every average is scaled by the decay, and stays consistent with the others. |
| `FeeStats.TxConfirmStats.NewTx` | src/btclib_node/fee_estimator.py:325-329 | One more in the row of the height and the bucket of the feerate. |
| `FeeStats.TxConfirmStats.RemoveTx` | src/btclib_node/fee_estimator.py:331-350 | The counts of one row or of the overflow go down by one unless zero, failures are counted in exactly the periods waited out, and counts that were exact stay so. |
| `TrackedCounts.Left` | src/btclib_node/fee_estimator.py:331-350 | A tracked transaction's count is never zero when it leaves: no decrement is skipped. |
| `RowScans.ScanIsRightIff` | src/btclib_node/fee_estimator.py:404-409 | The count of those that waited at least the target is right for all that may be tracked, if and only if no row in use is read for a height below zero. |
| `RowScans.RightRow` | src/btclib_node/fee_estimator.py:404-409 | The row read is that of the height, exactly where the height is not below zero or the number of rows divides two to the 32. |
| `RowScans.NothingWraps` | src/btclib_node/fee_estimator.py:404-409 | So no row is read wrongly from the horizon's size up. |
| `RowScans.TwelveRowsWrap` | src/btclib_node/fee_estimator.py:404-409 | With 12 rows, one block up, a row in use is read for a height below zero. |
| `RowScans.ExtraIsWaiting` | src/btclib_node/fee_estimator.py:404-409 | Where none is, the count per bucket is exactly the tracked transactions that have waited at least the target. |
| `FeeStats.TxConfirmStats.EstimateMedianVal` | src/btclib_node/fee_estimator.py:352-458 | An answer is given exactly where some range passes; reported are the lowest that does, with the sums over its buckets, and the first that failed below it; the answer is the average feerate of the bucket of the median transaction, and lies between the bounds of the range where averages are within their buckets. |
| `FeeScans.OneMedian` | src/btclib_node/fee_estimator.py:433-446 | There is only one bucket of the median transaction. |
| `FeeEstimating.FeeEstimator.EstimateRawFee` | src/btclib_node/fee_estimator.py:686-707 | 0 where the horizon cannot be asked or no range passes; else that feerate rounded, between the rounded bounds of the range where averages are within their buckets. Where the horizon counts what is tracked and no row wraps, the count in the mempool that is reported is exactly the tracked transactions of its buckets that have waited at least the target. |
| `FeeEstimating.FeeEstimator.constructor` | src/btclib_node/fee_estimator.py:529-574 | A new estimator tracks nothing, and its three horizons count 12, 48 and 1008 blocks. |
| `FeeEstimating.FeeEstimator.ProcessTransaction` | src/btclib_node/fee_estimator.py:586-626 | Tracked is exactly what was not, came at the height last seen and in the ordinary way; all horizons put it in the same bucket, and counts that were exact stay so. |
| `FeeEstimating.FeeEstimator.RemoveTx` | src/btclib_node/fee_estimator.py:628-636 | The transaction is no longer tracked, others are, and exact counts stay exact; averages change only outside of a block, by one failure in each of the periods waited out. |
| `FeeEstimating.FeeEstimator.ProcessBlock` | src/btclib_node/fee_estimator.py:649-676 | A block not above the last changes nothing; another takes out what it removed. Exact counts are exact afterwards if and only if it is the next height, or nothing is forgotten. Every average has decayed once, and has each removed transaction that was tracked and entered below, in its bucket and in the periods that are long enough. |
| `Trickles.TrickleCap` | src/btclib_node/download.py:102-107 | Between 70 and 1000, and five more than 70 for each thousand queued where that is less than 1000. |
| `Trickles.CapGrows` | src/btclib_node/download.py:102-107 | More queued never lowers the cap, and it is reached at 186000. |
| `Trickles.RankQueued` | src/btclib_node/download.py:1289-1306 | Every queued entry once: those no longer held first, then by key, and among equals the one that is seen first, in what the queues hold one after the other. |
| `Trickles.Connection.PopTrickle` | src/btclib_node/download.py:1315-1348 | Whichever order is walked, the same entries are popped, the first by rank until the cap is filled or none is left; sent are exactly those of them that are held, unknown and not below the filter. |
| `Trickles.PopsTheFirst` | src/btclib_node/download.py:1339-1347 | At most the cap is sent, and no entry is popped beyond the one that fills it. |
| `Trickles.OnePopCount` | src/btclib_node/download.py:1339-1347 | Only one number of popped entries does so. |
| `Trickles.WalkIsSort` | src/btclib_node/download.py:1335-1338 | Walking all ranked entries and skipping those not queued gives the sorted queue. |
| `Trickles.Connection.Offer` | src/btclib_node/download.py:1350-1360 | An entry is appended exactly where it is held, unknown to the peer and not below its filter. |

## Left out

- Linearize: that an optimal result is also Bitcoin Core's would need Core's code, which is not part of this model; that all
  optimal results are the same is proved.
- PostLinearize: a tree here is a cluster in which no transaction has two parents, or none has two children; nothing is
  said of how close to optimal other clusters come.
- EstimateMedianVal: averages are real numbers, so rounding, infinities and divisions by zero of doubles are not modelled.
- FeeEstimator: the highest bucket bound is a number, infinite in the source; bucket bounds increase strictly, where
  `MakeBuckets` and `Find` also handle repeated ones.
- RandRange: asks that some later draw is below the bound, as it would not end otherwise; that every seed has one is not
  proved.
- The generator's seeding and its 64-bit outputs, which are any sequence of numbers.
- The exact constants of the cost, beyond that it grows with each step.
- Bitmasks are sets, the heaps of `get_linearization` are the least entry of a set, `sorted` is an insertion sort, and the
  dictionaries of top sets are one map from dependencies.
- Fallback keys are integers, where the source takes anything ordered.
- `SpanningForestState` reads a copy of the graph's fees, sizes and parents, made when it is created.
- Deques are sequences, and the loops of the larger functions are divided over several methods.
- `connected_component`, `append_topo` and `set_fee` of `DepGraph`.
- Reading and writing the estimator's file, `estimate_smart_fee` and the targets it combines, and the estimator's log.
- A connection's queue is a set, as only `_rank_queued` depends on its order; what the peer is known to have and what is
  below its filter are given sets, and mining-order keys are given numbers.
- The rest of `download.py`: `TxRequestTracker`, `TxOrphanage` and the block index are not part of this model.
