# DepthFusion: ranking, statistics and small stateful protocols, verified

This project models the parts of DepthFusion whose correctness is hardest to see by reading one function, and proves
what they promise. It is written for Dafny 4.11; `dafny verify dfyconfig.toml` checks all of it.

Numbers are `real` where the program uses floating point, timestamps and keys are integers, tables and stores are
sequences and maps, and whatever comes from outside (random draws, clocks, network answers, SQL engines, `log2`, `sqrt`,
`erfc`) is an arbitrary input, restricted only by what is said of it below. Code that updates state step by step is a
method or a class here, proved equal to a specification; the laws are lemmas about the specification.

## What is proved, component by component

**Paired Wilcoxon test** (`Ranking`, `RankTotals`, `SignAssignments`, `ExactTest`, `NormalTest`, `SetSums`,
`SignVariance`, `Wilcoxon`, `PairRanks`). `_average_ranks` gives every position (number smaller) + (number equal + 1)/2.
The in-place subset-sum table counts sign assignments, and capping twice its lower tail gives exactly the fraction of
all 2^n sign assignments whose min(W+, W-) is at most the one observed. The tie-corrected variance formula is exactly
the variance of W+ over those 2^n assignments for any ties, so it is positive and the `var <= 0` branch is never taken.
Swapping the two samples changes nothing. Statistic and p-value are also given in terms of the paired samples alone: the
rank sums of the pairs whose first or second value is greater, and the share of the choices of pairs that are as
extreme.

**Ranking metrics** (`Rearrangement`, `Metrics`, `MetricAgreement`, `MetricLaws`). nDCG@k lies in [0, 1] for every
ranking of distinct ids and every cutoff, for any discount by a positive growing function; it is 1 exactly for the ideal
gains and 0 exactly without gain. With all grades 1 it is the other benchmark's binary nDCG. MRR, hit flags and recall@k
are tied together, and each metric is given as a sum or count over positions.

**Offline write queue** (`WriteQueue`, `ReplayOrder`, `Reordering`, `QueueCount`, `ShownStatus`, `Connectivity`). A
state machine whose steps are what runs between two `await`s. Over every run with distinct keys, with overlapping
flushes, failures, retries, restarts and requests that arrive after they were given up on, no operation is lost; for
arbitrary keys, exactly which puts can lose something is stated and proved both ways. The server sees the operations in
enqueue order over every run of fine steps: a put goes behind what is queued, a call of `flush()` finds no other active,
and a late arrival is the last operation the server has seen or the first one queued. And from every orderly state and
for every step that is not fine there are fine steps after which the order is broken. The count shown after a flush is
right exactly when the actions during the flush say so, for all of its ways out, and the status shown is given for every
step. The manager itself is a class whose methods are runs of the machine.

**Graph-boosted recall** (`GraphStore`, `Recall`). Boosting and re-sorting is a stable partition: boosted chunks in BM25
order, then the others in BM25 order; and the boosted chunks are the first chunks of the sessions that a PRECEDED_BY
edge joins to one of the first five results, whichever way it points.

**Greedy matcher and bag-of-words cosine** (`Matching`, `Cosine`, `WordMatches`). Greedy matching is maximal and at
least half the size of any one-to-one matching above threshold, the factor two is reached, and each pair takes the first
best of what is left. The cosine is symmetric, in [0, 1] by Cauchy-Schwarz over the shared words, 1 for equal bags; its
dot product counts the pairs of places that hold the same word.

**Statistics cache** (`StatCache`, `CachedStats`). Bounded, least recently used first, hits are current, and a larger
cache includes a smaller one over any history of gets, sets and invalidations; with room for every key, what is live is
a hit. What `get_model_stats` answers through it was computed for the same question less than an hour ago with nothing
invalidated since; as every write of telemetry invalidates, only the beginning of the window can be old.

**Model statistics** (`ModelStats`, `StatRows`, `StatSlices`, `ChosenRows`, `PriorTable`). Grouping telemetry loses and
repeats nothing; a blend is the average with ten more samples at the prior; the result has exactly one row per model and
category, from the source the rules say; and asking for one category gives the slice of asking for all. What each row
says is given in terms of the telemetry rows that count: those of its model and category which pass the filters and are
not older than the cutoff. The prior table and the aliases are those of the program.

**Percentile and bootstrap** (`Percentile`, `Quantiles`, `Bootstrap`, `ResampledMeans`). Three implementations agree;
the percentile is monotone, bounded and order-independent; the interval is ordered, bounded and antisymmetric, whatever
was drawn. Its ends are quantiles of the differences between the averages drawn.

**Recommender and budget** (`Recommender`, `VendorIsolation`, `Budget`, `BudgetAlert`, `SeenRows`, `FewRuns`). Ranking,
vendor isolation and the budget fallback, from telemetry on; a run that keeps to its shares never overspends if its
costs are recorded, and exactly when any run stays within its cap; and exactly when the budget alert and the recommender
agree about every budget: for any statistics, pools and filters, and in terms of the telemetry rows each of them goes
by, with what each asked answered through the cache at a moment of its own.

**Rollups** (`Rollups`). Written rows equal the live summaries, and a weekly count is seven daily ones plus the events
after 23:59:59.

**Backfill and migrations** (`Backfill`, `Migrations`). Idempotence of the SQLite backfill, what every cell holds
afterwards and when it is complete; a ledgered migration is never executed again.

**Scoring template** (`ScoringText`, `ScoringTemplate`, `ScoringRoundTrip`, `ParsedScores`, `TemplateText`). Writing,
filling in and parsing gives back exactly the scores filled in, down to the characters the two regular expressions
match; and what is written shows every prompt, retrieved block and dimension.

`Sorting`, `Counting`, `Options`, `Reals`, `Names` and `StatKinds` hold a stable sort, counting and summing over
positions, an option type, products and sums of reals, substring search, and two enumerations.

## Where the code differs from what is said about it

- `recommender.py` documents the score as `quality_rate**2 / avg_cost_usd` (lines 9-11); a model that costs nothing
  scores 0 and ranks behind every paid model with some quality (lines 115-119):
  `Recommender.ScoreIsQualitySquaredPerDollar`, `Recommender.FreeRanksBehind`.
- `recommender.py` says observed models are merged into the default pool (lines 66-68); one with fewer than ten runs and
  a prior is not (lines 200-203): `SeenRows.DefaultPoolIs`, and `FewRuns.BlendedModelIsMissed` for "gpt-4o".
- `model_stats.py` lists a prior in its own right (lines 335-338) even when it was blended into the row of the same
  model observed under an alias (lines 326-333): `StatRows.AliasKeepsPrior`.
- `budget.py` says the alert looks at the cheapest eligible model (lines 10-12). It ignores blended rows (lines
  105-107), so it halts at any budget for a model seen a few times under an alias (`FewRuns.AliasedModelHalts`,
  `FewRuns.OpusHalts`) and goes by the prior of another category for one listed itself (`FewRuns.FallsBackToPrior`); and
  it takes a model's row from its first category whatever the task (line 93), unlike the recommender
  (`FewRuns.OtherCategoryHalts`). `SeenRows.AgreesOverTelemetry` says exactly when it does not matter.
- `budget.py` debits nothing when recording fails (lines 240-248), so the books can look fine while more than the cap
  was spent: `Budget.StaysWithinExactlyWhen` and `Budget.UnrecordedCanOverspend`.
- `connectivity.ts` line 172 sets the count to 0 when a flush ends well although something may have been enqueued
  meanwhile, after which an `online` event starts no flush (`QueueCount.StaleCountStrands`); lines 254-258 leave the
  count alone when one fails after taking some operations off (`QueueCount.FailedFlushOvercounts`).
- `connectivity.ts` tests `_flushing` at line 235 and sets it at line 243, after two awaits; in between a second flush
  can start and reorder the replay (`Reordering.OverlapReorders`). A request that failed for the client can still reach
  the server later (`Reordering.LateArrivalReorders`). Line 66 says the key guarantees ordering; two keys of one
  millisecond are ordered by a random suffix (line 226, `Reordering.SwappedKeysReorder`).
  `Reordering.KeepsOrderExactlyWhen` has exactly which steps keep the order.
- `backfill_acl.py` promises both fields on every record (lines 3-8) and reports the rows without an ACL as the rows
  updated. Rows that have an ACL but no classification are not filled (`Backfill.ClassifiedExactlyWhen`,
  `Backfill.UnclassifiedRowsStay`), and adding a missing classification column changes more rows than are reported
  (`Backfill.CountIsExactWhen`, `Backfill.CountCanBeShort`).
- `aggregation.py` ends every window at 23:59:59, so events in the last second of a day are in no daily row and a weekly
  row can exceed the sum of its days (`Rollups.WeeklyIsSevenDaysExactlyWhen`, `Rollups.LastSecondIsMissed`).

## Model

| member | source | states |
|---|---|---|
| Ranking.AverageRanks | scripts/ciqs_harness.py:374-387 | The nested loops end and give each position the number of smaller values plus (number equal + 1)/2, ties included. |
| Ranking.SortedPositions | scripts/ciqs_harness.py:376 | The order list is a permutation of the positions by ascending value. |
| Ranking.RunCounts | scripts/ciqs_harness.py:379-386 | A maximal run i..j of equal values in sorted order has i smaller and j+1-i equal values. |
| RankTotals.TiedSums | scripts/ciqs_harness.py:383 | Averaging a tie group keeps the sum of its ranks and loses (t^3-t)/12 from the sum of their squares. |
| RankTotals.RankSums | scripts/ciqs_harness.py:374-387 | For any values the ranks sum to 1+...+n and their squares to 1+...+n^2 less the ties' share. |
| Wilcoxon.RanksKeepOrder | scripts/ciqs_harness.py:374-387 | Smaller values get smaller ranks and exactly equal values share one, both directions. |
| Wilcoxon.RanksAreHalfIntegers | scripts/ciqs_harness.py:393-397 | Doubling any average rank gives an integer, so the scaling is exact, and no rank is below 1. |
| Wilcoxon.RanksAddUp | scripts/ciqs_harness.py:416 | The ranks sum to n(n+1)/2, so the mean computed from them is n(n+1)/4 as commented. |
| SignAssignments.AssignmentsAreAll | scripts/ciqs_harness.py:393 | There are 2^n sign assignments: all sequences of n signs, each once. |
| SignAssignments.FlipExchanges | scripts/ciqs_harness.py:456-457 | Flipping all signs exchanges W+ and W-. |
| SignAssignments.PlusAndMinusMakeTotal | scripts/ciqs_harness.py:456-458 | W+ and W- always add up to the rank total. |
| SignAssignments.TwoTails | scripts/ciqs_harness.py:390-406 | Twice the lower tail of W+ counts the assignments with min(W+, W-) at most w, exactly, up to the cap. |
| ExactTest.AddRank | scripts/ciqs_harness.py:402-404 | One descending in-place pass turns the counts for the ranks so far into the counts with one more rank, each used at most once. |
| ExactTest.CountTable | scripts/ciqs_harness.py:400-404 | The finished table holds, for every sum, the number of index subsets with that scaled sum. |
| ExactTest.AtMostCount | scripts/ciqs_harness.py:405 | The table entries up to the scaled w add up to the number of sign assignments whose W+ is at most w. |
| ExactTest.ExactTwoSidedP | scripts/ciqs_harness.py:390-406 | The value returned is twice the share of sign assignments with W+ at most w, capped at 1. |
| NormalTest.GroupSizes | scripts/ciqs_harness.py:418-420 | The dictionary holds how often each rank occurs. |
| NormalTest.TieTerm | scripts/ciqs_harness.py:421-423 | The accumulated term is half the sum of t^3-t over tie groups, said position by position. |
| NormalTest.NormalTwoSidedP | scripts/ciqs_harness.py:409-428 | The p-value is the continuity-corrected tail at the tie-corrected variance, or 1 when that is not positive. |
| SignVariance.VarianceOfWPlus | scripts/ciqs_harness.py:409-414 | For any ranks, the mean squared deviation of W+ over all 2^n assignments is a quarter of the sum of squared ranks. |
| Wilcoxon.TieVarianceIsQuarterSquares | scripts/ciqs_harness.py:412-424 | The tie-corrected formula is a quarter of the sum of the squared ranks actually used. |
| Wilcoxon.TieVarianceIsExact | scripts/ciqs_harness.py:409-426 | That formula is exactly the variance of W+ over the sign assignments, and positive for n >= 1, so the early return is never taken. |
| Wilcoxon.CappedTailIsExtremeShare | scripts/ciqs_harness.py:405-406 | For the observed statistic the capped doubled tail is exactly the fraction of assignments at least as extreme. |
| Wilcoxon.RankedP | scripts/ciqs_harness.py:462-467 | For the ranks of any nonempty magnitudes the p-value is that fraction, or the tail at a quarter of the sum of squared ranks. |
| Wilcoxon.WilcoxonSignedRank | scripts/ciqs_harness.py:431-469 | The whole test: errors, zero differences, the mode switch at 25, and (W, N, p) with the meanings above. |
| Wilcoxon.SwapInvariant | scripts/ciqs_harness.py:431-469 | Exchanging the two samples leaves (W, N, p) or the error unchanged. |
| Wilcoxon.ExactPIsProper | scripts/ciqs_harness.py:390-406 | The fraction counts the data themselves and never exceeds all assignments: p is in [1/2^n, 1]. |
| PairRanks.RankIsRankOfPair | scripts/ciqs_harness.py:374-387 | Each rank is, of the pairs that differ, the number closer than its own plus (number exactly as far apart + 1)/2. |
| PairRanks.StatisticOfPairs | scripts/ciqs_harness.py:451-460 | N is the number of pairs that differ, and W the smaller of the rank sums of the pairs whose first value is greater and of those whose second is. |
| PairRanks.ZeroExactlyWhen | scripts/ciqs_harness.py:456-458 | W is 0 exactly when no second value is greater or no first value is. |
| PairRanks.ExactPOfPairs | scripts/ciqs_harness.py:462-465 | With up to 25 differing pairs, or when asked for, p is the share of all choices of pairs for which one of the two rank sums is at most W. |
| PairRanks.NormalPOfPairs | scripts/ciqs_harness.py:409-428 | Otherwise p is the corrected tail at n(n+1)/4 and (n(n+1)(2n+1) - ties/2)/24, n and the ties being those of the pairs, and never above 1. |
| Rearrangement.DominanceOrder | scripts/benchmark.py:69-70 | Gains whose partial sums dominate have the greater discounted sum, for any falling positive discount. |
| Metrics.TopSum | scripts/benchmark.py:76 | No sub-collection of the grades sums to more than as many of the greatest. |
| Metrics.GainsWithin | scripts/benchmark.py:75 | The gains of distinct ids draw each positive grade at most as often as it occurs. |
| Metrics.IdealDominates | scripts/benchmark.py:75-76 | The k greatest grades dominate the gains of any k distinct ids. |
| Metrics.NdcgBounds | scripts/benchmark.py:69-78 | nDCG@k is in [0, 1]; 1 exactly when the top k have the ideal gains in order; 0 exactly when they have none. |
| Metrics.DescendingGradesScoreOne | scripts/benchmark.py:73-78 | Listing all graded ids by descending grade scores 1 at every cutoff. |
| MetricAgreement.BinaryNdcgAtK | scripts/embedding_ab_benchmark.py:361-370 | The accumulator loop computes the binary nDCG. |
| MetricAgreement.GradedGeneralisesBinary | scripts/embedding_ab_benchmark.py:361-370 | With every relevant id graded 1 the two benchmarks' nDCG agree. |
| MetricAgreement.ScoreResults | tools/bench_cat_d.py:229-243 | One pass gives the reciprocal rank of the first relevant block, and each hit flag exactly when a relevant block is that high. |
| MetricAgreement.HitIsReciprocalRank | scripts/benchmark.py:61-66 | A hit within k, a positive MRR@k and an MRR of at least 1/k are the same, and then MRR@k is the full MRR. |
| MetricAgreement.RecallFacts | scripts/embedding_ab_benchmark.py:345-350 | Recall@k is a share that grows with k, is positive exactly when MRR@k is, and 1 exactly when all relevant ids are in the top k. |
| MetricLaws.GradeIs | scripts/benchmark.py:75 | An id has the grade it is listed with, and otherwise 0. |
| MetricLaws.NdcgIsShare | scripts/benchmark.py:69-78 | nDCG@k times the discounted sum of the ideal gains is the sum over the first k positions of each grade over its discount; it is 0 when the former is. |
| MetricLaws.ReciprocalRankIs | scripts/benchmark.py:61-66 | Both reciprocal ranks are 1 over the first relevant position, counted from 1, or 0 without one (for MRR@k, within k). |
| MetricLaws.RecallIs | scripts/embedding_ab_benchmark.py:345-350 | Recall@k times the number of relevant ids is the number of those that stand among the first k. |
| WriteQueue.PutMembers | app/src/lib/connectivity.ts:81-89 | Storing replaces exactly the entry with the same key and keeps key order. |
| WriteQueue.DeleteMembers | app/src/lib/connectivity.ts:101-109 | Deleting removes exactly the entry with that key and keeps key order. |
| WriteQueue.StepIsLive | app/src/lib/connectivity.ts:223-260 | Whatever is put under whatever key, every step keeps the store in key order and every flush to a prefix of the snapshot it read. |
| WriteQueue.StepIsSafe | app/src/lib/connectivity.ts:223-260 | Every step of any client call, network answer, late arrival or restart keeps the queue invariant, a put under the condition below. |
| WriteQueue.RunIsSafe | app/src/lib/connectivity.ts:223-260 | Over every run whose puts meet the condition below, whatever keys repeat, no operation is lost. |
| WriteQueue.NeverLosesAnOperation | app/src/lib/connectivity.ts:223-260 | With distinct keys, at every reachable state every enqueued operation is queued or acknowledged, and each flush has pushed an ascending prefix of its snapshot, overlapping flushes and late arrivals included. |
| WriteQueue.BadPutLoses | app/src/lib/connectivity.ts:225-251 | From every state, a put over a different unacknowledged operation, or under the key of a different one that a flush has still to take off, can be followed by steps that lose something. |
| WriteQueue.PutKeepsExactlyWhen | app/src/lib/connectivity.ts:225-251 | A put meets that condition exactly when, however things go on without further puts, nothing is lost. |
| ReplayOrder.StepKeepsOrder | app/src/lib/connectivity.ts:234-260 | Each fine step keeps: the collapsed log is a prefix of the enqueue order and the store is the rest. |
| ReplayOrder.ReplaysInOrder | README.md:27 | Queued write replay, over every run of fine steps under distinct keys: the log with adjacent repeats collapsed is a prefix of the enqueue order, and all of it once the queue is empty. |
| ReplayOrder.UsualRunsAreFine | app/src/lib/connectivity.ts:234-260 | With increasing keys, one flush at a time and no late arrivals all steps are fine. |
| Reordering.PairReorders | app/src/lib/connectivity.ts:235-243 | From every state with two flushes that have been called and have not read, fine steps lead to a log out of order. |
| Reordering.PutReorders | app/src/lib/connectivity.ts:225-229 | After a put under a new key that does not go behind what is queued, fine steps lead to a log out of order. |
| Reordering.ArrivalReorders | app/src/lib/connectivity.ts:127-139 | So they do after a late arrival of anything but the last operation seen and the first one queued. |
| Reordering.KeepsOrderExactlyWhen | app/src/lib/connectivity.ts:223-260 | From every orderly state and for every step, a put being under a new key: it is fine exactly when the order holds however things go on in fine steps. |
| Reordering.LateArrivalReorders | app/src/lib/connectivity.ts:247-259 | A run with increasing keys and one flush at a time in which a push that was given up on arrives after its retry and a later operation. |
| Reordering.OverlapReorders | app/src/lib/connectivity.ts:235-243 | A run with increasing keys and no late arrival in which two flushes are active and the server sees a, b, a. |
| Reordering.SwappedKeysReorder | app/src/lib/connectivity.ts:226 | A run with one flush at a time and no late arrival in which the operation enqueued second, under the smaller key, is sent first. |
| ReplayOrder.OverlapsExactlyBeforeBegin | app/src/lib/connectivity.ts:235-243 | A new call becomes a second active flush exactly while the first is between its test and having its snapshot. |
| QueueCount.CountIsRightExactlyWhen | app/src/lib/connectivity.ts:237-259 | Over a whole flush alone, from its snapshot to any way out: one that ends well leaves the count right exactly when nothing was enqueued on the way, one that fails exactly when enqueued and taken-off operations balance since the last count, or with what it was off by before. |
| QueueCount.QuietFlushCount | app/src/lib/connectivity.ts:237-259 | When nothing is enqueued or counted on the way, a right count stays right exactly unless the flush fails after taking something off. |
| QueueCount.FailedFlushOvercounts | app/src/lib/connectivity.ts:254-258 | A run in which a flush fails after one of two deliveries and leaves count 2 for a queue of one. |
| QueueCount.StaleCountStrands | app/src/lib/connectivity.ts:158-172 | A run that leaves an operation queued under count 0, so that going online starts no flush. |
| ShownStatus.StatusAfter | app/src/lib/connectivity.ts:153-183 | The status shown after every step, field by field: going offline and online, the counts, and the beginning and the ways out of a flush. |
| ShownStatus.RunStaysCoherent | app/src/lib/connectivity.ts:153-183 | Over every run an error is shown only while offline, and SYNCING only while a flush is active. |
| Connectivity.ConnectivityManager.constructor | app/src/lib/connectivity.ts:192-201 | A new manager is the start state of the machine. |
| Connectivity.ConnectivityManager.Enqueue | app/src/lib/connectivity.ts:223-232 | Enqueuing is a run of the machine: the entry is stored under its key and the count is the new size. |
| Connectivity.ConnectivityManager.PushAll | app/src/lib/connectivity.ts:247-259 | The loop pushes and removes in order up to the first failure, and ends as a run of the machine. |
| Connectivity.ConnectivityManager.Flush | app/src/lib/connectivity.ts:234-260 | An undisturbed flush does nothing while one is active; otherwise it delivers the queue in order and keeps everything from the first failure on. |
| GraphStore.InMemoryGraphStore.UpsertEntity | tools/bench_cat_d.py:69-70 | The entity is stored under its id, replacing only that one. |
| GraphStore.InMemoryGraphStore.UpsertEdge | tools/bench_cat_d.py:75-76 | The edge replaces exactly the one with its id, or is added. |
| GraphStore.UpsertInPlace | tools/bench_cat_d.py:75-76 | An edge whose id is known takes the place of the one it replaces. |
| GraphStore.UpsertAtEnd | tools/bench_cat_d.py:75-76 | Any other goes last. |
| GraphStore.InMemoryGraphStore.GetEdges | tools/bench_cat_d.py:78-89 | Exactly the edges that touch the entity at either end and have one of the relationships. |
| GraphStore.InMemoryGraphStore.Traverse | src/depthfusion/graph/traverser.py:40-122 | At depth 1: every linked known entity exactly once, and nothing else. |
| GraphStore.BuildGraph | tools/bench_cat_d.py:108-143 | The sessions named; with edges off none, with edges on exactly those from PRECEDED_BY definitions, each under the id made of its endpoints. |
| Recall.SortSeparates | tools/bench_cat_d.py:212-213 | Stable sorting of hits on two levels, each in order, puts all of the higher level first and keeps each level's order. |
| Recall.BoostingPartitions | tools/bench_cat_d.py:190-213 | Adding a boost that beats every score and re-sorting is the stable partition into boosted and other chunks. |
| Recall.BoostFor | tools/bench_cat_d.py:190-191 | The boost is positive and above every score. |
| Recall.Extra | tools/bench_cat_d.py:194-207 | The chunks that get the boost are exactly those linked from the first results, each with the same boost. |
| Recall.Reranked | tools/bench_cat_d.py:188-213 | The graph branch returns the stable partition. |
| Recall.RecallBlocks | tools/bench_cat_d.py:151-214 | The result is the first top_k of (boosted in BM25 order) followed by (others in BM25 order). |
| Recall.RanksMoveOneWay | tools/bench_cat_d.py:188-189 | Nothing is lost or repeated, no boosted chunk gets a worse rank and no other a better one. |
| Recall.NoEdgesNoBoost | tools/bench_cat_d.py:108-114 | Without PRECEDED_BY edges recall is plain BM25. |
| Recall.RankAllIs | tools/bench_cat_d.py:176-181 | The ranking keeps every hit, by falling score, those of one score in the order of the corpus. |
| Recall.SessionOfIs | tools/bench_cat_d.py:195 | The session looked up is s exactly when s has no # and the chunk id is s, or s with # and anything after it. |
| Recall.BoostedExactly | tools/bench_cat_d.py:193-207 | A chunk is boosted exactly when it is the first one of a known session that a PRECEDED_BY edge joins, either way, to the known session of one of the first five results. |
| Recall.LinkedComeFirst | tools/bench_cat_d.py:188-214 | In what is returned, nothing so linked stands behind anything that is not, and nothing so linked is left out for anything that is not. |
| Matching.BestAt | scripts/eval_decision.py:128-129 | The first best-scoring remaining expectation. |
| Matching.MatchExtractedToExpected | scripts/eval_decision.py:107-139 | The loop reports as many matches as the greedy specification makes, with tp+fp and tp+fn the two list lengths. |
| Matching.GreedyIsMatching | scripts/eval_decision.py:114-133 | The pairs behind tp are a one-to-one matching above threshold, tp of them. |
| Matching.GreedyIsMaximal | scripts/eval_decision.py:122-133 | No similar enough pair is left with both sides free. |
| Matching.GreedyIsHalfOptimal | scripts/eval_decision.py:107-139 | Every one-to-one matching above threshold has at most 2*tp pairs. |
| Matching.EachTakesBest | scripts/eval_decision.py:122-133 | Each pair takes the first of the most similar expectations that the pairs before it left. |
| Matching.TwiceIsReached | scripts/eval_decision.py:107-139 | With bag-of-words similarity at the default threshold, two texts on either side for which a matching has exactly 2*tp pairs. |
| Cosine.Counter | scripts/eval_decision.py:50-51 | The counts are the multiplicities, with every word listed once. |
| Cosine.SumProducts | scripts/eval_decision.py:52-55 | The generator sums are the dot product over shared words. |
| Cosine.BowCosine | scripts/eval_decision.py:45-59 | The method computes the similarity of the two token bags, with the source's empty and zero cases. |
| Cosine.WidenSum | scripts/eval_decision.py:52-53 | Summing over shared words only is the full dot product. |
| Cosine.CauchySchwarz | scripts/eval_decision.py:52-59 | The squared dot product is at most the product of the squared norms, for any two bags. |
| Cosine.SimilarityBounds | scripts/eval_decision.py:45-59 | The result is always in [0, 1]. |
| Cosine.SimilaritySymmetric | scripts/eval_decision.py:45-59 | Exchanging the texts changes nothing. |
| Cosine.SameBagIsOne | scripts/eval_decision.py:45-59 | Equal nonempty bags score 1, in whatever order the words come. |
| Cosine.DisjointIsZero | scripts/eval_decision.py:45-59 | Texts without a common word score 0. |
| WordMatches.DotIsMatches | scripts/eval_decision.py:50-53 | The dot product is the number of pairs of places in the two texts that hold the same word. |
| WordMatches.SimilarityIsMatches | scripts/eval_decision.py:45-59 | The similarity is that number over the roots of what it is for each text with itself. |
| StatCache.Cache.Get | src/depthfusion/analytics/model_stats.py:60-73 | A get answers from a live entry and moves it to the end, or drops an expired one and misses. |
| StatCache.Cache.Set | src/depthfusion/analytics/model_stats.py:75-84 | A set puts the entry last and trims from the front down to the size. |
| StatCache.Cache.Invalidate | src/depthfusion/analytics/model_stats.py:86-87 | Afterwards the cache is empty. |
| StatCache.HoldsLastSets | src/depthfusion/analytics/model_stats.py:52-87 | Over any history: never above maxsize, one entry per key, each the last value set since the last invalidation. |
| StatCache.HitsAreCurrent | src/depthfusion/analytics/model_stats.py:60-73 | A hit is the last value set for that key since the last invalidation, younger than the time to live. |
| StatCache.LargerCacheIncludesSmaller | src/depthfusion/analytics/model_stats.py:52-87 | After any history a larger cache holds all a smaller one holds and gives the same answer on each of its hits. |
| StatCache.LeastRecentlyUsedFirst | src/depthfusion/analytics/model_stats.py:71-84 | The entries stand in order of last use, so the one trimmed first is the least recently used. |
| StatCache.AnswersWhatIsLive | src/depthfusion/analytics/model_stats.py:60-84 | With room for every key ever set and a clock that does not go back, a get hits exactly when something was set since the last invalidation less than the time to live ago, and answers the last of it. |
| ModelStats.GroupRows | src/depthfusion/analytics/model_stats.py:150-154 | The dictionary holds, for each model and category met, exactly its rows in order. |
| ModelStats.ObservedStats | src/depthfusion/analytics/model_stats.py:150-185 | One statistic per group, in the order first met, with the averages, percentiles, last sighting and confidence of its rows. |
| ModelStats.GroupsAddUp | src/depthfusion/analytics/model_stats.py:151-154 | Anything summed over all rows is the same summed group by group. |
| ModelStats.ObservedConserves | src/depthfusion/analytics/model_stats.py:156-167 | Weighted by sample counts, the statistics give back the number of rows, the passes and the total cost. |
| ModelStats.BlendIsPooled | src/depthfusion/analytics/model_stats.py:213-220 | Blending is averaging the samples together with ten more that equal the prior. |
| ModelStats.BlendBetween | src/depthfusion/analytics/model_stats.py:213-220 | A blended value lies between observed and prior and, below ten samples, strictly on the prior's side of the middle. |
| ModelStats.CostPerPassBetween | src/depthfusion/analytics/model_stats.py:222-232 | The cost per pass recomputed from blended parts lies between the observed one and the prior's. |
| ModelStats.GetModelStats | src/depthfusion/analytics/model_stats.py:316-340 | Without the cache: a negative window is an error; otherwise the rows asked for in the window are grouped, settled against the priors, completed by unseen priors and sorted. |
| StatRows.OneRowPerKey | src/depthfusion/analytics/model_stats.py:323-340 | Sorted, exactly one row for each observed or offered model and category: the prior exactly without observations, a blend exactly below ten samples with a prior. |
| StatRows.RowsAre | src/depthfusion/analytics/model_stats.py:323-340 | And each row is the one its telemetry group and the prior table give. |
| StatRows.AliasKeepsPrior | src/depthfusion/analytics/model_stats.py:326-338 | Unfiltered, a prior blended under an alias is also listed itself exactly unless its own name was observed. |
| StatSlices.CategoryIsSlice | src/depthfusion/analytics/model_stats.py:257-340 | Asking for one category gives exactly the rows of that category among all, in the same order. |
| ChosenRows.GroupIsChosen | src/depthfusion/analytics/model_stats.py:248-282 | What is summed over a group is summed over the rows of its model and category that pass the filters and are not older than the cutoff. |
| ChosenRows.SeenExactlyWhen | src/depthfusion/analytics/model_stats.py:248-254 | A model and category have a row that is not a bare prior exactly when such a telemetry row exists. |
| ChosenRows.StatIsOfRows | src/depthfusion/analytics/model_stats.py:156-238 | That row: the number of those rows, the latest of them, the confidence, the means of their passes, costs, tokens and durations and the 0.50 and 0.95 quantiles of their durations, below ten together with ten more at the prior if there is one. |
| ChosenRows.PriorIsOfTable | src/depthfusion/analytics/model_stats.py:285-300 | A bare prior has no such telemetry row and is a row of the table, under the name asked for. |
| ChosenRows.RowsInOrder | src/depthfusion/analytics/model_stats.py:340 | The rows stand by category and then by model. |
| PriorTable.ListedOnce | src/depthfusion/analytics/model_stats.py:18-37 | The shipped prior table lists each model and category once. |
| PriorTable.ShippedListsGpt4o | src/depthfusion/analytics/model_stats.py:18-98 | It lists "gpt-4o" under its own name, for three categories, and at the prices used below. |
| PriorTable.ShippedAliasesOpus | src/depthfusion/analytics/model_stats.py:39-98 | "claude-opus-4" has the priors of "opus" and is not listed itself. |
| PriorTable.ShippedLacksDeepseek | src/depthfusion/analytics/model_stats.py:18-98 | "deepseek-v3" has no prior. |
| CachedStats.Statistics.GetModelStats | src/depthfusion/analytics/model_stats.py:303-342 | With the cache: the answer is the cached one if it is live and otherwise computed and cached, and the cache is that of the events so far. |
| CachedStats.Statistics.Invalidate | src/depthfusion/analytics/model_stats.py:345-347 | Afterwards nothing is cached. |
| CachedStats.RepliesAreRecent | src/depthfusion/analytics/model_stats.py:318-342 | After any events, an answer was computed for the same question, now or less than an hour ago with nothing invalidated since. |
| CachedStats.OnlyTheWindowIsOld | src/depthfusion/telemetry/recorder.py:138-141 | If every write invalidates, an answer is for the telemetry there is, with a window that begins less than an hour early. |
| CachedStats.AnswersAreReused | src/depthfusion/analytics/model_stats.py:318-342 | With no more than 128 questions and a clock that does not go back, a computed answer is given again for the next hour unless something is invalidated. |
| Percentile.ImplementationsAgree | src/depthfusion/analytics/model_stats.py:135-147 | On nonempty input and a percentage in range all three implementations return the same number. |
| Percentile.PercentileMonotone | scripts/ciqs_summarise.py:41-56 | The percentile never falls as p grows, within and across cells. |
| Percentile.PercentileBounds | scripts/ciqs_summarise.py:41-56 | It lies between least and greatest value, and 0 and 100 reach them. |
| Percentile.PercentileIgnoresOrder | scripts/benchmark.py:47-58 | Permuting the values changes nothing. |
| Quantiles.PercentileCounts | scripts/ciqs_summarise.py:49-56 | With k = (n-1)p/100, fewer than k+1 values are below the percentile and more than k are at most it. |
| Bootstrap.BootstrapDeltaCi | scripts/ciqs_compare.py:95-133 | The resampling loop yields the two percentiles of the resampled differences of means, or an error or no interval, as specified. |
| Bootstrap.IntervalOrdered | scripts/ciqs_compare.py:129-133 | Whatever was drawn, low <= high. |
| Bootstrap.IntervalBounds | scripts/ciqs_compare.py:119-133 | The interval lies within [min c - max b, max c - min b]. |
| Bootstrap.IntervalExists | scripts/ciqs_compare.py:112-133 | There is an interval exactly for data on both sides and, unless both have one value, a confidence in (0, 1) and a resample. |
| Bootstrap.SeparatedSamplesDecide | scripts/ciqs_compare.py:136-144 | Samples separated either way get the verdict improved or regressed, whatever was drawn. |
| Bootstrap.ComparisonIsAntisymmetric | scripts/ciqs_compare.py:95-144 | Exchanging the samples mirrors the interval and reverses the verdict. |
| ResampledMeans.DeltaIs | scripts/ciqs_compare.py:124-127 | Each resampled difference is the sum of the values drawn for the candidate over their number, less that for the baseline. |
| ResampledMeans.EveryPositionOnce | scripts/ciqs_compare.py:125-126 | A resample that draws every position once has the sum of all values. |
| ResampledMeans.AllDrawnOnce | scripts/ciqs_compare.py:119-133 | One resample that draws every position once gives exactly the difference of the averages at both ends. |
| ResampledMeans.IntervalIsQuantiles | scripts/ciqs_compare.py:129-133 | The ends are the quantiles of those differences that leave half of what the confidence leaves out on either side. |
| ResampledMeans.VerdictExactly | scripts/ciqs_compare.py:136-144 | Improved exactly when the whole interval is above 0, regressed exactly when below, parity exactly when 0 is in it, and no verdict exactly without an interval. |
| Recommender.ScoreCandidates | src/depthfusion/analytics/recommender.py:207-251 | The loop collects one scored row for each candidate the vendor, data and confidence filters admit. |
| Recommender.Recommend | src/depthfusion/analytics/recommender.py:146-298 | The method computes the specified ranking, budget filter, fallback and numbering. |
| Recommender.RecommendationsAreRanked | src/depthfusion/analytics/recommender.py:253-298 | At most top_k distinct admitted candidates, none from an excluded vendor, numbered from 1 by score and then cost. |
| Recommender.BudgetIsRespected | src/depthfusion/analytics/recommender.py:256-270 | If some admitted candidate fits, all results fit without warning, anything that fits is listed or no better than all listed, and the head's score is maximal. |
| Recommender.CheapestIsFallback | src/depthfusion/analytics/recommender.py:265-269 | If candidates are admitted but none fits, the result is one cheapest of them, with the warning. |
| Recommender.ScoreIsQualitySquaredPerDollar | src/depthfusion/analytics/recommender.py:104-119 | The score is quality^2/cost for paid models, and 0 exactly without quality or without cost. |
| Recommender.FreeRanksBehind | src/depthfusion/analytics/recommender.py:115-119 | A model that costs nothing ranks strictly behind every paid one with some quality. |
| Recommender.TiesKeepOrder | src/depthfusion/analytics/recommender.py:253-254 | Candidates of one score and cost are ranked in the order of the pool. |
| Recommender.DedupKeepsOrder | src/depthfusion/analytics/recommender.py:198-203 | A pool keeps each name where it stood first. |
| Recommender.FallbackIs | src/depthfusion/analytics/model_stats.py:109-118 | The fallback prior is one of the model's canonical name, for code if there is one and otherwise the first, and there is none exactly when the table does not list that name. |
| VendorIsolation.VendorIs | src/depthfusion/analytics/recommender.py:43-82 | The vendor by what a name mentions in whatever case, said pattern by pattern: the first that applies of anthropic, openai, deepseek, google and cursor, or unknown. |
| VendorIsolation.ExcludedStayOut | src/depthfusion/analytics/recommender.py:207-213 | With a vendor excluded, no recommended name mentions one of its patterns, unless, for the later vendors, it mentions one of an earlier vendor. |
| VendorIsolation.OthersAreAdmitted | src/depthfusion/analytics/recommender.py:207-232 | A candidate is admitted exactly when its vendor is not excluded, there are statistics for it and they are confident enough. |
| Recommender.DefaultPool | src/depthfusion/analytics/recommender.py:196-203 | The default pool is exactly the fixed models and those with an unblended observed row. |
| Recommender.RecommendFromTelemetry | src/depthfusion/analytics/recommender.py:194-298 | From telemetry, through the cache: the recommendations are those for the answer about the task's category over the default window. |
| Budget.Budget.constructor | src/depthfusion/analytics/budget.py:42-55 | A budget opens with its cap, its spend and no entries. |
| Budget.Budget.Debit | src/depthfusion/analytics/budget.py:61-70 | The clamped cost is recorded and leaves the remaining budget, which never grows; entries always account for the spend. |
| Budget.Budget.SelectModelForTask | src/depthfusion/analytics/budget.py:167-194 | The head recommendation for an equal share; without a warning the remaining tasks at its cost fit what remains. |
| Budget.HeadFits | src/depthfusion/analytics/budget.py:181-194 | A head recommendation without warning costs at most the budget asked for. |
| Budget.Budget.LogDispatchOutcome | src/depthfusion/analytics/budget.py:201-248 | The cost is debited exactly when recording did not fail. |
| Budget.SharesLastTheRun | src/depthfusion/analytics/budget.py:183-184 | If every dispatch keeps to its share, after j of n tasks the books show at least (n-j)/n of the opening balance left, and never an overspent budget. |
| Budget.StaysWithinExactlyWhen | src/depthfusion/analytics/budget.py:240-248 | The real cost of a run stays within the opening balance exactly when what failed to be recorded is no more than the books show as left. |
| Budget.RecordedSharesNeverOverspend | src/depthfusion/analytics/budget.py:183-184 | A run that keeps to its shares with every cost recorded never really overspends. |
| Budget.UnrecordedCanOverspend | src/depthfusion/analytics/budget.py:240-248 | A run of two dispatches within their shares, the first unrecorded, that costs one and a half times the budget. |
| BudgetAlert.MinEligibleCost | src/depthfusion/analytics/budget.py:113-123 | The least cost of the eligible models, or none exactly when none is eligible. |
| BudgetAlert.CheckBudget | src/depthfusion/analytics/budget.py:126-160 | The alert is quiet exactly when some eligible model costs at most what remains. |
| BudgetAlert.RecommendsWhatIsOnOffer | src/depthfusion/analytics/recommender.py:256-270 | The recommender has something within a budget exactly when some admitted model costs no more. |
| BudgetAlert.AgreesExactlyWhen | src/depthfusion/analytics/budget.py:82-160 | For any statistics on either side, pools and filters, they agree about every budget exactly when each model they see at different costs, or only one of them sees, is covered on the other side by one that costs no more. |
| BudgetAlert.CheckFromTelemetry | src/depthfusion/analytics/budget.py:93-160 | From telemetry, through the cache: the alert goes by the answer about all categories over the default window. |
| SeenRows.AlertRowIsTaken | src/depthfusion/analytics/budget.py:103-109 | In terms of telemetry: the alert takes the first category with an unblended row, else the first unseen one in which the model itself is listed; and it has no row exactly when there is neither. |
| SeenRows.StatForIs | src/depthfusion/analytics/recommender.py:85-101 | The recommender takes the row of the task's category, seen or listed, and otherwise the fallback prior, at this price and confidence. |
| SeenRows.DefaultPoolIs | src/depthfusion/analytics/recommender.py:196-203 | The default pool is exactly the fixed models and those seen in the category ten times or without a prior. |
| SeenRows.AgreesOverTelemetry | src/depthfusion/analytics/budget.py:82-160 | For any telemetry at the alert's moment and at the recommender's: they agree about every budget exactly when each model they do not take by the same rows of the task's category is covered on the other side by one that costs no more. |
| SeenRows.AgreesThroughCache | src/depthfusion/analytics/budget.py:93-109 | The same through the cache, each answer being of a moment of its own, less than an hour ago. |
| FewRuns.BlendedModelIsMissed | src/depthfusion/analytics/recommender.py:200-203 | "gpt-4o", seen once on a code task, is not in the default pool for code. |
| FewRuns.AliasedModelHalts | src/depthfusion/analytics/budget.py:105-109 | A model not listed under its own name, whose rows are all blended, makes the alert halt at any budget; the recommender goes by its price. |
| FewRuns.OpusHalts | src/depthfusion/analytics/budget.py:105-109 | Such as "claude-opus-4", seen once on a code task. |
| FewRuns.FallsBackToPrior | src/depthfusion/analytics/budget.py:106-107 | "gpt-4o", seen once on a code task, is taken by the alert at the planning prior's price, 0.014, and by the recommender at 0.020. |
| FewRuns.OtherCategoryHalts | src/depthfusion/analytics/budget.py:93-109 | A model without a prior, such as "deepseek-v3", seen at 1.00 on code and 0.10 on planning, and 0.50 left for planning: the alert halts and the recommender is within the budget. |
| Rollups.AggregationService.WriteGroups | src/depthfusion/analytics/aggregation.py:102-129 | One principal and period: exactly the due rows are replaced by their counts, and counted. |
| Rollups.AggregationService.ComputeRollups | src/depthfusion/analytics/aggregation.py:59-135 | Afterwards exactly the due rows hold the live counts, every other row is as before, and for distinct periods the number returned is the number of due rows. |
| Rollups.AggregationService.Summarise | src/depthfusion/analytics/aggregation.py:168-207 | The live summary lists exactly the types with events in the window, with their counts and the total. |
| Rollups.GroupsPartition | src/depthfusion/analytics/aggregation.py:193-194 | The per-type counts add up to all events in the window. |
| Rollups.RowsMatchSummaries | src/depthfusion/analytics/aggregation.py:168-207 | A row is written for a type exactly when the live summary of the same window lists it, with the same count. |
| Rollups.RecomputingChangesNothing | src/depthfusion/analytics/aggregation.py:111-129 | A second computation over the same events changes no count. |
| Rollups.WindowIsDaysPlusGaps | src/depthfusion/analytics/aggregation.py:30-39 | A window's count is its daily counts plus the events after 23:59:59 on all but its last day. |
| Rollups.WeeklyIsSevenDaysExactlyWhen | src/depthfusion/analytics/aggregation.py:91-100 | The weekly count is the sum of seven daily ones exactly when no such event fell in the first six days. |
| Rollups.LastSecondIsMissed | src/depthfusion/analytics/aggregation.py:99-101 | One event half a second before midnight makes them differ. |
| Rollups.DueRowIs | src/depthfusion/analytics/aggregation.py:91-129 | A row is due exactly when an event of its principal and type happened between midnight of its first day, the reference or six days before, and 23:59:59 of the reference; it holds their number. |
| Rollups.SummaryIs | src/depthfusion/analytics/aggregation.py:168-207 | A summary lists exactly the types with events from the midnight that many days back to 23:59:59 of the reference, with their numbers. |
| Backfill.Database.SqliteBackfill | scripts/backfill_acl.py:68-142 | A dry run changes nothing and reports the same counts as a live run, save that this reports 0 for a table named again; a live run backfills the named tables only. |
| Backfill.BackfillCompletes | scripts/backfill_acl.py:118-137 | No NULL acl_allow is left, rows with an ACL keep it, each row's classification is filled, overwritten or kept as said, nothing else is touched, and a second run finds nothing to do. |
| Backfill.ClassifiedExactlyWhen | scripts/backfill_acl.py:118-137 | Every row is classified afterwards exactly when each one without a classification is reached: there is something to do, and the column is new or the row also has a NULL in an existing ACL column. |
| Backfill.UnclassifiedRowsStay | scripts/backfill_acl.py:132-137 | A row with an ACL and no classification, and a row of a table without the ACL column, both left unclassified. |
| Backfill.CountIsExactWhen | scripts/backfill_acl.py:94-129 | The reported count is the number of rows changed exactly when the classification column exists, or nothing or everything was to be filled. |
| Backfill.CountCanBeShort | scripts/backfill_acl.py:94-129 | A table of two rows of which one is counted and both are changed. |
| Migrations.Rehearsal.RunMigrations | scripts/rehearse_migration.py:118-207 | Every present file gets the migrations missing from its ledger, other files are untouched, and success means no hard error anywhere. |
| Migrations.MigrateOne | scripts/rehearse_migration.py:154-204 | The loop over one file's migrations and statements, benign errors skipped. |
| Migrations.LedgeredNeverRunsAgain | scripts/rehearse_migration.py:156-164 | Only statements of the run's own, unledgered migrations are executed, the history and the ledger only grow, and after success the ledger has every migration. |
| Migrations.LedgerIsCompleteExactlyWhen | scripts/rehearse_migration.py:181-204 | The ledger gains only migrations of the run, and, no id being listed twice, has them all exactly when the run succeeded. |
| Migrations.SuccessIsIdempotent | scripts/rehearse_migration.py:156-164 | After a successful run another run executes and changes nothing. |
| Migrations.LedgeredExactlyWhen | scripts/rehearse_migration.py:175-204 | A migration is ledgered exactly when it was already or none of its statements had a hard error. |
| ScoringTemplate.WriteScoringTemplate | scripts/ciqs_harness.py:282-351 | The loops write exactly the specified template with every score empty. |
| ScoringTemplate.WriteRetrieval | scripts/ciqs_harness.py:320-337 | The retrieval part: error, no blocks, or each block with its snippet. |
| ScoringTemplate.WriteScoreLines | scripts/ciqs_harness.py:341-342 | One empty score line for each dimension. |
| ScoringTemplate.DecimalRoundTrip | scripts/ciqs_harness.py:508-510 | Reading the digits of a number gives the number. |
| TemplateText.WrittenShowsRun | scripts/ciqs_harness.py:291-296 | What is written begins with the mode, the number, the date, the version and the profile of the run. |
| TemplateText.WrittenShowsPrompts | scripts/ciqs_harness.py:310-319 | What is written shows, for every topic, its heading, its prompt without the white space at its end and whether it is retrieval-only, on these lines. |
| TemplateText.WrittenShowsBlocks | scripts/ciqs_harness.py:331-337 | And for every retrieved block of such a topic its number, source, file and score, and the first 240 characters of its text. |
| TemplateText.WrittenShowsDims | scripts/ciqs_harness.py:342-343 | And for every dimension its empty score line. |
| ScoringTemplate.ParseScoringTemplate | scripts/ciqs_harness.py:483-518 | On any text: the scores of each topic's last section, or the first score above 10. |
| ScoringTemplate.ReadScores | scripts/ciqs_harness.py:505-515 | One section's scores, the last line for a dimension counting, or its first score above 10. |
| ParsedScores.LastSectionCounts | scripts/ciqs_harness.py:492-517 | On any text that parses: a topic has scores exactly when its last section has a score line, and then its score for a dimension is the number on the last line for it there, at most 10. |
| ParsedScores.NoSectionNoScores | scripts/ciqs_harness.py:492-517 | A topic without a section has no scores. |
| ParsedScores.FailureIsThere | scripts/ciqs_harness.py:509-514 | A failure names a score line of the last section of its topic whose number is above 10. |
| ParsedScores.TooHighFails | scripts/ciqs_harness.py:509-514 | And there is one whenever some last section has such a line. |
| ScoringRoundTrip.ScoreLineScans | scripts/ciqs_harness.py:479 | A filled score line is matched with its dimension and digits, an empty one is not. |
| ScoringRoundTrip.SheetsAreSections | scripts/ciqs_harness.py:492-501 | Cutting at the headers gives each topic its own part of the file. |
| ScoringRoundTrip.BodyHasItsScores | scripts/ciqs_harness.py:505-508 | The score lines found in that part are exactly the ones filled in. |
| ScoringRoundTrip.RoundTrip | scripts/ciqs_harness.py:483-518 | Parsing a filled template fails exactly when a filled-in score is above 10, and otherwise returns exactly the filled-in scores. |
| ScoringRoundTrip.BlankTemplateIsEmpty | scripts/ciqs_harness.py:486-492 | A template as written parses to the empty map, whatever topics or dimensions are repeated. |
| ScoringRoundTrip.RunLinesAreClear | scripts/ciqs_harness.py:290-306 | The heading that is written holds no section header as soon as its fields have no line breaks, so the round trip applies to it. |
| ScoringRoundTrip.WrittenTemplateIsEmpty | scripts/ciqs_harness.py:282-351 | What is written for a run with such fields parses to the empty map. |

## Left out

- Floating point: rounding is not modelled; `log2`, `sqrt` and `erfc` are functions of which only positivity and growth
  (`log2`), positive roots, or nothing (`erfc`) is assumed, and exact square roots for the cosine.
- Randomness, clocks and network: arbitrary inputs.
- ReplayOrder.ReplaysInOrder: for steps that are fine, which the code does not enforce; `Reordering` says exactly what
  happens otherwise.
- QueueCount.CountIsRightExactlyWhen: for a flush that is alone and operations under keys of their own; a restart, which
  starts the count again, is not one of its ways out.
- A database request and what resumes on its answer are one step, as an IndexedDB transaction stays open until then;
  several windows sharing the queue, and transactions that abort after their request succeeded, are not modelled.
- SQLite, IndexedDB, ChromaDB, JSON and files: sequences and maps with atomic steps. The timestamp keys of the write
  queue are integers; that they increase is assumed only where a lemma says so.
- SQL text, its splitting into statements and WAL mode: a migration is a list of statements, an engine any function from
  statement and contents to new contents and an outcome.
- UTC `isoformat` strings compare as the microseconds they stand for; `computed_at` is not part of a rollup row.
- Character classes are ASCII; `lower()`, `\w`, `\d` and `\s` outside ASCII are not modelled.
- BM25 and tokenising: recall takes any nonnegative scores, matching any similarity, the cosine any two token lists, and
  the one matching example a tokeniser that splits at the space.
- Edge ids in `BuildGraph` are the concatenated strings of the source; two definitions that concatenate alike share one
  edge, as there.
- Recommend: the excluded vendors are given as they are after line 191 of `recommender.py` has made them lower case.
- `ndcg_at_k`, `_ndcg_at_k` and the other cutoffs take a nonnegative k.
- RoundTrip: topics and each topic's dimensions are distinct, ids and dimensions have the form the patterns expect, and
  free text holds no header or score line where it stands; a block's missing fields are already replaced by `?`.
- SharesLastTheRun: assumes a nonnegative opening balance and dispatches that cost what their share allows, as the claim
  does.
- GetModelStats: verdicts are already pass or not, unreadable timestamps do not occur, and `window_days` is not repeated
  in each row. The priors are an input, of which `PriorTable` has the shipped ones. All of a call happens at one
  instant; a question whose rows are read before a write and cached after its invalidation is not modelled.
- `build_budget_summary`: sums over telemetry rows that would add only easy members.
- `_ndjson_backfill` and the ChromaDB backfill: the same fill rule on other stores.
- `bootstrap_ci`: same resampling as the comparison with one sample; statistical coverage is not something it decides.
- Rows returned by the statistics cache are values; a caller mutating one in place is not modelled.
- User interface, authentication, wizards, latency benches and report formatting.
