# Metrics, quantile estimation and exposition: a verified model

This project models the parts of the Prometheus client library for C++ that carry state or encode data, and proves
what callers rely on. It has three layers.

**Quantiles.** A summary keeps a ring of CKMS estimators. An estimator buffers up to 500 values, merges them in order
into a sample of weighted items, compresses neighbours under an error function, and answers a rank query by a scan
over prefix sums. The model has the estimator as a class over an array buffer (`CkmsEstimator`), its meaning as
functions on states (`CkmsSample`), and proofs about every run of insertions, queries and resets: the lower side of an
answer's rank (`CkmsRanks`, `CkmsAccuracy`), the upper side (`CkmsUpper`, `CkmsGuard`), space (`CkmsSpace`), the order
of answers in one sample (`CkmsOrder`, `CkmsStops`) and in a row of queries (`CkmsRepeat`), and runs on which the
estimator fails (`CkmsExamples`). `WindowRing` and `TimeWindow` do the same for the ring that a clock rotates, and
`SummaryMetric` puts lifetime totals next to it.

**Metrics and their registry.** `GaugeSteps` models the compare-and-exchange loop of a gauge step by step, under any
interleaving. `Histograms` has the histogram with its counters. `Families` and `Registries` hold the metrics under
unique names and labels.

**Encodings.** `Base64` and `Base64Laws` (RFC 4648), `LabelPath` and `LabelCodes` (the address a gateway pushes to),
and `TextFormat` with a reader of its own, `TextReader`: the reader is not part of the library, it is the independent
definition of what the printed text means; `PrintedValues` says which field of a metric stands in which line.
`ScrapeText` joins registry, printer and reader, and `PrintedLines` says when the printed lines are distinct.

How it is written: a method of a class carries the loops and updates of the code and is proved against a function; the
lemmas are about these functions and about runs, which are sequences of operations. `double` is `real`, and a finite
double is printed by an unspecified format function of which only the absence of blanks, line ends, quotes and
backslashes is used. The results of a division by zero that is infinite or not a number (slopes of the quantiles 0 and
1, the answer of an empty estimator) are explicit `None` or `NaN` values.

## Main results

- On every run an estimator's item weights are sound lower rank bounds and stay within the error allowed at their true
  rank (`CkmsRanks.EveryRunDescribes`). So every query for any quantile returns the maximum or a value whose rank is
  bounded from below (`CkmsAccuracy.EveryQueryGuarantee`). For a configured target q with tolerance e, where 2e is at
  most q and less than 1 - q, the rank among n is short of qn by less than (2e(n + 1) + 3) / (1 - u), with u = 2e/(1-q):
  twice the tolerance, less what the query itself allows, times a factor that grows as u comes close to 1
  (`CkmsAccuracy.LowerRankGuarantee`, `CkmsAccuracy.NotShortIsShare`).
- The upper rank bounds do not survive every insertion. `CkmsUpper.InsertExactly` says which ones they survive, at
  every index. The sample alone decides a guard, and the bounds survive whatever observations it stands for if and
  only if the guard is met (`CkmsGuard.GuardExactly`). If since the last reset all insertions met it, the answer to a
  query for any quantile is bounded from above by the bound of the query (`CkmsUpper.EveryCoveredQueryGuarantee`), and
  so by a share of n for a configured target (`CkmsUpper.GuardedGuarantee`); the first batch always does
  (`CkmsUpper.SingleBatchGuarantee`). Without the guard the guarantee fails for a target whose tolerance is small:
  `CkmsExamples.AnswerBeyondRank` is a run of 22 observations.
- The answers that one sample has for several quantiles come in the order of the quantiles, on all sound samples of a
  size and a count, if and only if a condition on the query bounds and the ranks at which such a sample can stop a
  scan holds (`CkmsStops.SoundOrderExactly`), which tolerances that do not reach beyond the largest rank always meet;
  `CkmsExamples.AnswersOutOfOrder` is a run of ten observations on which they do not.
- Queries in a row need not see one sample, since each compresses again: with a target of small tolerance whose
  answers in one sample are in order, the same query is answered by 2 and then by 1 (`CkmsExamples.SecondQueryFalls`).
  A query leaves the sample as it is if and only if all neighbours fail the merge test, otherwise it becomes shorter
  (`CkmsRepeat.RestExactly`). So after as many queries as it has items nothing changes any more
  (`CkmsRepeat.RestIsReached`), and from then on the answers of a row agree, up to what a summary collects
  (`CkmsRepeat.RowInOrder`, `SummaryMetric.CollectedInOrder`).
- The window misses nothing younger than all but one interval and holds nothing older than the maximum age, and lazy
  rotation leaves what rotation at every tick would (`WindowRing.SlidingWindow`, `WindowRing.LazyIsEager`).
- Base64 decoding inverts encoding although the accumulator is never cleared, accepts exactly the strings described by
  `Base64Laws.Acceptable`, and re-encoding normalises them. Over any set of label names, the paths of label lists are
  distinct, and with them the addresses of grouping keys, if and only if no two readings of a path over these names
  overlap until they end together, which is decided by a search over the segments of the names
  (`LabelCodes.PathInjectiveForAllNames`, `LabelCodes.UriDeterminesGroupingKey`). For names of which none starts with
  another one and a slash this means that none is another one followed by the mark of encoded values
  (`LabelCodes.SlashApartAmbiguity`).
- Serialized text is read back as exactly the samples, for all label values, if and only if every line of a help text
  behind the first starts with a number sign; and so is, after every run of a registry, the text of a scrape
  (`TextReader.TextRoundTrip`, `ScrapeText.EveryScrapeIsRead`).
- Then, whatever a registered metric reports is read from the text of a scrape field by
  field, under the name of its family, with the constant labels and its own (`ScrapeText.EveryReadingIsPrinted`,
  `PrintedValues.FamilyTextSays`). Adding keeps every metric that is there, and removing a family leaves exactly the
  others (`Families.AddKeepsOthers`, `Registries.EveryRunRemovesOne`).
- After every run of a registry no two printed lines have the same name and labels, if and only if no metric has two
  quantiles or boundaries that are printed alike, and where a family is named like a line of another one their printed
  labels differ (`PrintedLines.EveryScrapeLinesDistinct`); which names and types can collide at all is stated exactly
  (`PrintedLines.ClashExactly`).
- Every finished gauge operation commits exactly once and in real time order, in every interleaving, and apart from
  spurious failures a thread is only held up by commits of others (`GaugeSteps.FailuresAreOthersCommits`).

Where comments and code of the library disagree the code is followed: a histogram bucket contains its upper boundary
(the class comment has half-open intervals), and names that start with two underscores are refused though the regular
expressions in the comments of the name checks match them.

## Model

| member | source | states |
|---|---|---|
| ErrorFunction.ComputeAllowableError | core/src/detail/ckms_quantiles.cc:68-84 | The loop finds the least of size + 1 and the errors of all targets: a lower bound of all of them that one of them attains. |
| ErrorFunction.TargetErrorIsLargerLine | core/src/detail/ckms_quantiles.cc:71-77 | The two branches of a target's error are the larger of a line falling towards the end of the sample and a line rising from its start. |
| ErrorFunction.AllowableErrorMonotone | core/src/detail/ckms_quantiles.cc:68-84 | The allowance grows with the rank and with the room behind it; hence sample indexes and sizes are safe in place of true ranks and counts. |
| ErrorFunction.AllowableErrorFloor | core/src/detail/ckms_quantiles.cc:68-84 | With every configured error at least e, up to 1/2, every rank among n is allowed at least 2en. |
| CkmsRanks.SortedAscends | core/src/detail/ckms_quantiles.cc:93 | What sorting the buffer is relied on for: the same values in ascending order. |
| CkmsRanks.InsertKeepsSound | core/src/detail/ckms_quantiles.cc:105-123 | Inserting one value keeps the sample ordered, its weights positive and summing to the count, its lower rank bounds true, its items within the allowed error at their true rank, and its last item the maximum. |
| CkmsRanks.InsertItemsKeepsSound | core/src/detail/ckms_quantiles.cc:86-127 | So does merging a whole batch. |
| CkmsRanks.MergeErrorBounded | core/src/detail/ckms_quantiles.cc:149-160 | A merge that passes the test at the logical index and size is within the error allowed at the true rank among the true count. |
| CkmsRanks.CompressSurvivors | core/src/detail/ckms_quantiles.cc:129-169 | Compression yields a subsequence of the items that ends with the last one; each survivor keeps its value, uncertainty and cumulative weight. |
| CkmsRanks.CompressKeepsSound | core/src/detail/ckms_quantiles.cc:129-169 | Compression keeps everything an insertion keeps. |
| CkmsRanks.EveryRunDescribes | core/src/detail/ckms_quantiles.cc:22-169 | After every run of insert, get and reset the sample soundly describes the oldest observations since the reset and the buffer holds the rest. |
| CkmsAccuracy.ScanStops | core/src/detail/ckms_quantiles.cc:44-59 | The scan stops in front of the first item that may overshoot the bound. |
| CkmsAccuracy.LowerRank | core/src/detail/ckms_quantiles.cc:40-59 | The answer is the maximum observation, or the number of observations up to it exceeds the bound less the error allowed to the next item and 2. |
| CkmsAccuracy.EveryQueryGuarantee | core/src/detail/ckms_quantiles.cc:22-169 | On every run and for every quantile in 0 to 1: no answer exactly if nothing was observed; otherwise an observation that is the maximum, or whose rank exceeds the bound of the query less the error allowed to the next item and 2. |
| CkmsAccuracy.LowerRankGuarantee | core/src/detail/ckms_quantiles.cc:22-169 | On every run, for a configured target with 2e at most q and at most 1 - q: 1 - u times what the rank of the answer among n is short of qn is less than 2e(n + 1) + 3 - (1 - u)(1 - v)h, where u = 2e / (1 - q), v = 2e / q, and h is half the error that the query allows itself. |
| CkmsAccuracy.NotShortIsShare | core/src/detail/ckms_quantiles.cc:10-14 | That bound put the other way round: (1 - u) times the rank exceeds (q - u)n - 2e - 3. So it grows with n exactly for targets with 2e < q(1 - q). |
| CkmsUpper.InsertKeepsBatch | core/src/detail/ckms_quantiles.cc:105-123 | Within a batch an insertion keeps the upper rank bounds: fewer observations are smaller than an item than its cumulative weight and uncertainty say. |
| CkmsUpper.BatchUpperSound | core/src/detail/ckms_quantiles.cc:86-127 | A batch merged into an empty sample has sound lower and upper rank bounds. |
| CkmsUpper.InsertExactly | core/src/detail/ckms_quantiles.cc:105-123 | An insertion at any index keeps the upper bounds if and only if the observations smaller than the new one are no more than the weight in front of it and its uncertainty. |
| CkmsUpper.FrontInsertExactly | core/src/detail/ckms_quantiles.cc:114-121 | At index 0, where the uncertainty is 0: if and only if no smaller value was ever observed. |
| CkmsUpper.CoveredKeepsUpperSound | core/src/detail/ckms_quantiles.cc:105-123 | It keeps them if some item behind the new one has no more weight up to it, and uncertainty, than the weight in front of the new one, its uncertainty, 1, and 1 for each step of the values in between; this the sample alone tells before the insertion. |
| CkmsUpper.NextCovers | core/src/detail/ckms_quantiles.cc:105-123 | For instance if the uncertainty given to the new item covers the weight and uncertainty of the item right behind it. |
| CkmsGuard.GuardExactly | core/src/detail/ckms_quantiles.cc:105-123 | That guard is exact: an insertion keeps the upper bounds, whatever observations the sample soundly stands for, if and only if it is met. |
| CkmsUpper.CompressKeepsUpperSound | core/src/detail/ckms_quantiles.cc:129-169 | Compression keeps the upper rank bounds. |
| CkmsUpper.QueryNotBeyondBound | core/src/detail/ckms_quantiles.cc:40-59 | On a sample with sound upper bounds, for every quantile: fewer observations are smaller than the answer than the bound of the query says; if the answer is the first item, none, or fewer than the error allowed at rank 1. |
| CkmsUpper.EveryCoveredQueryGuarantee | core/src/detail/ckms_quantiles.cc:22-169 | On every run whose insertions since the last reset all meet the guard, and for every quantile in 0 to 1: no answer exactly if nothing was observed; otherwise an observation that this bounds from above, and the bound of every query from below. |
| CkmsUpper.BoundNotBeyond | core/src/detail/ckms_quantiles.cc:10-14 | For a configured target with 2e <= (q + e)(1 - q) that bound from above implies fewer than (q + e)n + u/2. |
| CkmsUpper.GuardedGuarantee | core/src/detail/ckms_quantiles.cc:22-169 | So on every such run, for a configured target: fewer than (q + e)n + u/2 observations are smaller than the answer if 2e <= (q + e)(1 - q), and it is not short of the target if 2e is at most q and 1 - q. |
| CkmsUpper.AttainableIsInReach | core/src/detail/ckms_quantiles.cc:10-14 | Targets with 2e < q(1 - q) meet the first condition. |
| CkmsAccuracy.AttainableIsGradual | core/src/detail/ckms_quantiles.cc:10-14 | And the second. |
| CkmsUpper.SingleBatchGuarantee | core/src/detail/ckms_quantiles.cc:22-60 | Without a guard, for at most 500 observations followed by queries, and for every quantile: an observation within the bound of the query on both sides. |
| CkmsUpper.TwoSidedGuarantee | core/src/detail/ckms_quantiles.cc:22-60 | And for configured targets within their two shares of n. |
| CkmsUpper.SettleStaysGuarded | core/src/detail/ckms_quantiles.cc:32-34 | A state into which nothing was merged, or whose sample is sound on both sides and whose buffer meets the guard, is left as such a state by a query. |
| CkmsUpper.GuardedQueryGuarantee | core/src/detail/ckms_quantiles.cc:32-60 | From such a state every query, for whatever quantile, answers within its bound from above. |
| CkmsUpper.FirstAnswerNotBeyond | core/src/detail/ckms_quantiles.cc:32-60 | So the first answer from a state into which nothing was merged yet is not beyond its rank, for a configured target with 2e <= (q + e)(1 - q). |
| CkmsUpper.SettledMeets | core/src/detail/ckms_quantiles.cc:32-60 | What a query promises in all: both sides for its quantile, and for each target configured for it. |
| CkmsSpace.CompressApart | core/src/detail/ckms_quantiles.cc:129-169 | After compressing a sample without uncertainties no two neighbours pass the merge test at their index in the result. |
| CkmsSpace.FixedExactly | core/src/detail/ckms_quantiles.cc:129-169 | Compression leaves a sample as it is if and only if all neighbours fail the merge test, uncertainties included; any other sample becomes shorter. |
| CkmsSpace.CompressTwice | core/src/detail/ckms_quantiles.cc:129-169 | Compressing such a sample twice is compressing it once. |
| CkmsSpace.CompressedSize | core/src/detail/ckms_quantiles.cc:129-169 | m items are left of n observations only if e m (m - 1) < n, with e the least configured error (at most 1/2), or m < 2. |
| CkmsSpace.RisingSpace | core/src/detail/ckms_quantiles.cc:22-169 | That bound holds, and a second query leaves the state as it is, after every run in which since the last reset the values of each batch were distinct and larger than the sample; a batch may come in any order. |
| CkmsSpace.AscendingSpace | core/src/detail/ckms_quantiles.cc:22-169 | So they do after every run over strictly ascending observations. |
| CkmsSpace.RisingRunSpace | core/src/detail/ckms_quantiles.cc:22-30 | Every full buffer is compressed as well as merged: after such a run, with no query behind it, the bound holds for the items kept and the observations merged so far, and a query that finds nothing buffered leaves the state as it is. |
| CkmsSpace.AscendingRunSpace | core/src/detail/ckms_quantiles.cc:22-30 | So it is after every run over strictly ascending observations. |
| CkmsSpace.MergedByBatches | core/src/detail/ckms_quantiles.cc:22-30 | Without queries the buffer is merged after every 500 observations and not before: what is counted is the number of observations rounded down to a multiple of 500, the rest is buffered. |
| CkmsOrder.OrderExactly | core/src/detail/ckms_quantiles.cc:32-60 | For a sample size and a count: on all samples of them a larger quantile never gets a smaller answer, if and only if no rank at which a scan may stop lies within the bound of a smaller rank asked for and beyond the bound of a larger one. |
| CkmsStops.SoundOrderExactly | core/src/detail/ckms_quantiles.cc:32-60 | The same on the samples that a run can rely on, with the lower rank bounds and errors of every run: their answers are in order if and only if no rank at which one of them may stop a scan, as the allowed errors tell, lies between two bounds in the wrong order. |
| CkmsStops.BoundsInOrderSuffice | core/src/detail/ckms_quantiles.cc:32-60 | The former condition implies this one. |
| CkmsStops.EveryRunStopsInOrder | core/src/detail/ckms_quantiles.cc:32-60 | If it holds for the size and count of the sample that the next query of a run finds, the answers this sample has for any two quantiles are in order: of one query or the other in its place, not one behind the other. |
| CkmsOrder.EveryRunAnswersInOrder | core/src/detail/ckms_quantiles.cc:32-60 | So they are if the former condition holds. |
| CkmsOrder.AnswersInOrder | core/src/detail/ckms_quantiles.cc:40-59 | On one sample a larger quantile never gets a smaller answer, if every configured error is at most 1 - quantile. |
| CkmsOrder.GentleRunsInOrder | core/src/detail/ckms_quantiles.cc:32-60 | Such errors meet the exact condition, for every size and count; so on every run the answers of the next query for one quantile, or for another in its place, are in order. |
| CkmsExamples.SecondQueryFalls | core/src/detail/ckms_quantiles.cc:32-60 | Queries one behind the other need not agree, even for such an error and an attainable target: after 1, 1, 1, 1, 2, 3, 3 with the target 0.2 and error 0.075, a query for 0.6 answers 2, and the next one 1, be it for 0.6 or 0.72. |
| CkmsRepeat.RestExactly | core/src/detail/ckms_quantiles.cc:32-34 | With nothing buffered, a query leaves the state as it is if and only if all neighbours in the sample fail the merge test; otherwise the sample gets shorter. |
| CkmsRepeat.RestIsReached | core/src/detail/ckms_quantiles.cc:32-60 | After as many queries as the sample has items that is the case. |
| CkmsRepeat.RowAtRest | core/src/detail/ckms_quantiles.cc:32-60 | On every run: if the first query of a row leaves such a state, every one of them answers as it would have as the first. |
| CkmsRepeat.RowInOrder | core/src/detail/ckms_quantiles.cc:32-60 | Then the answers of the row are in the order of the quantiles, whichever came first, if the exact condition for sound samples holds; the same quantile gets the same answer. |
| CkmsRepeat.LaterRowsInOrder | core/src/detail/ckms_quantiles.cc:32-60 | With errors of at most 1 - quantile this is so on every run, for all rows behind as many queries as the sample has items. |
| CkmsExamples.AnswersOutOfOrder | core/src/detail/ckms_quantiles.cc:32-60 | A run of ten observations with the target 0.9 and error 0.3: after it the quantile 0.4 gets the answer 2, and 0.5, asked instead or right behind it, gets 1. |
| CkmsExamples.AnswerBeyondRank | core/src/detail/ckms_quantiles.cc:22-169 | A run of 22 observations in three batches with the attainable target 0.5 and error 0.11: 14 observations are smaller than the answer, more than the upper guarantee lets pass. |
| CkmsExamples.UpperSoundEndsWithBatch | core/src/detail/ckms_quantiles.cc:114-121 | The flush of that run at which an upper rank bound becomes wrong, and the guard is not met: a value in front of a merged item gets no uncertainty. |
| CkmsEstimator.CkmsQuantiles.constructor | core/src/detail/ckms_quantiles.cc:19-20 | A new estimator describes no observations. |
| CkmsEstimator.CkmsQuantiles.Insert | core/src/detail/ckms_quantiles.cc:22-30 | Appends one observation; the state becomes the one the step function gives, flushed and compressed exactly when 500 values are buffered. |
| CkmsEstimator.CkmsQuantiles.Get | core/src/detail/ckms_quantiles.cc:32-60 | Settles the state and answers with an observation within the bound of the query from below, for every quantile, and from above if the state was guarded, as it is before anything was merged, and stays so; also for each target configured for the quantile; nothing exactly if nothing was observed. |
| CkmsEstimator.CkmsQuantiles.StopAt | core/src/detail/ckms_quantiles.cc:44-59 | The loop with its running rank returns the value at the position the scan function stops at. |
| CkmsEstimator.CkmsQuantiles.Reset | core/src/detail/ckms_quantiles.cc:62-66 | Forgets all observations, also those in the buffer. |
| CkmsEstimator.CkmsQuantiles.SortBuffer | core/src/detail/ckms_quantiles.cc:93 | Sorts the filled part of the buffer in place. |
| CkmsEstimator.CkmsQuantiles.InsertValue | core/src/detail/ckms_quantiles.cc:106-122 | One round of the merge loop inserts in front of the first item that is not less, with the uncertainty of its index. |
| CkmsEstimator.CkmsQuantiles.InsertBatch | core/src/detail/ckms_quantiles.cc:86-127 | Merges the sorted buffer, starting an empty sample with its least value, and reports whether there was anything to merge. |
| CkmsEstimator.CkmsQuantiles.Compress | core/src/detail/ckms_quantiles.cc:129-169 | The loop with its logical size and index computes the compression function; the logical size always is items kept plus items to come. |
| WindowRing.EveryRunHolds | core/src/detail/time_window_quantiles.cc:8-42 | After every run with a clock that does not run backwards, counted from the current bucket each bucket holds one rotation epoch less of the log. |
| WindowRing.QueriedBucketIsWindow | core/src/detail/time_window_quantiles.cc:17-20 | The bucket that is queried holds exactly the observations of the last N epochs, in order. |
| WindowRing.SlidingWindow | core/src/detail/time_window_quantiles.cc:8-42 | It includes every observation of age up to (N - 1) intervals and none of age over N intervals, which is at most the configured maximum age. |
| WindowRing.RotateTwice | core/src/detail/time_window_quantiles.cc:29-42 | Rotating at one time and again later is rotating once, later. |
| WindowRing.LazyIsEager | core/src/detail/time_window_quantiles.cc:29-42 | Rotating at every tick leaves the same ring as rotating once at the end. |
| TimeWindow.TimeWindowQuantiles.constructor | core/src/detail/time_window_quantiles.cc:8-15 | N fresh estimators and an interval of maximum age over N; the log is empty. |
| TimeWindow.TimeWindowQuantiles.NoRotationDue | core/src/detail/time_window_quantiles.cc:29-42 | As long as calls stay within one epoch, no rotation is due. |
| TimeWindow.TimeWindowQuantiles.Rotate | core/src/detail/time_window_quantiles.cc:29-42 | The loop resets and leaves buckets exactly as the ring's rotation does, and gives the current one; guarded buckets stay guarded, and if no rotation is due every estimator stays as it is. |
| TimeWindow.TimeWindowQuantiles.Insert | core/src/detail/time_window_quantiles.cc:22-27 | Every estimator is fed the value; the log grows by one entry. |
| TimeWindow.TimeWindowQuantiles.Get | core/src/detail/time_window_quantiles.cc:17-20 | The answer is about the observations of the current window only, is missing exactly if the window is empty, and is within the bound of the query from below, and from above if the bucket is guarded; guarded buckets stay so. No window is changed by asking, and if no rotation is due the bucket is left as one more query leaves it. |
| SummaryMetric.Summary.constructor | core/src/summary.cc:7-15 | Totals over nothing, next to an empty window. |
| SummaryMetric.Summary.Observe | core/src/summary.cc:17-23 | Count and sum stay those of all values ever observed; the window gets the value. |
| SummaryMetric.Summary.Report | core/src/summary.cc:30-36 | One round of the loop: a value of the window at the time it is read that meets the lower guarantee of the target, and the upper one if all buckets are guarded; not a number exactly if that window is empty; within one epoch the query continues from the state the call before it left. |
| SummaryMetric.Summary.Collect | core/src/summary.cc:25-41 | Reports lifetime count and sum, and for each target what a round of the loop reports, with both guarantees if all buckets were guarded before; if all are read in one epoch, they are the answers of a row of queries, each on the state that the one before it left. |
| SummaryMetric.CollectedInOrder | core/src/summary.cc:25-41 | If the first of them leaves a state that queries do not change and the errors are at most 1 - quantile, the reported values are in the order of the quantiles. |
| SummaryMetric.WindowIsRecent | core/src/summary.cc:17-41 | What the quantiles are about are the newest of the observations the totals are about. |
| GaugeSteps.ValueIsFold | core/src/gauge.cc:17-30 | In every interleaving, with spurious failures and values that change back, the value is the fold of the committed operations in commit order. |
| GaugeSteps.ValueIsSum | core/src/gauge.cc:17-30 | Without rounding, and as long as nothing is set, the value is the first one and the sum of all committed changes. |
| GaugeSteps.StoreSets | core/src/gauge.cc:17 | Setting replaces the value. |
| GaugeSteps.EachCallCommitsOnce | core/src/gauge.cc:17-30 | What a thread has called is what it has committed and the call it is in; every returned call has committed exactly once. |
| GaugeSteps.CommitsInRealTime | core/src/gauge.cc:17-30 | What had returned before a call started is committed before it. |
| GaugeSteps.FailureIsProgress | core/src/gauge.cc:19-30 | If an exchange does not find the expected value, another thread, and only others, committed since the thread last read it. |
| GaugeSteps.FailuresAreOthersCommits | core/src/gauge.cc:19-30 | In every run the exchanges of a thread that fail for this reason are no more than the commits of the other threads. |
| GaugeSteps.CounterNeverFalls | core/src/counter.cc:5-16 | Without a reset in between, a counter's value never falls, in every interleaving and however sums are rounded, as long as adding what is not negative does not make a value smaller. |
| Histograms.Counter.Increment | core/src/counter.cc:7-12 | A negative increment leaves the value as it is, any other is added to it. |
| Histograms.Histogram.Create | core/src/histogram.cc:16-38 | Construction succeeds exactly for strictly sorted boundaries. |
| Histograms.Histogram.Observe | core/src/histogram.cc:40-49 | One more in the bucket whose boundary is not less than the value while the one in front of it is less, none in the others; the sum grows by the value. |
| Histograms.IndexIsBetween | core/src/histogram.cc:40-49 | There is exactly one such bucket. |
| Histograms.Histogram.ObserveMultiple | core/src/histogram.cc:51-65 | Increments of the wrong number are refused and leave every bucket and the sum as they are; otherwise each bucket grows by its increment unless that is negative, and the sum by the value given. |
| Histograms.Histogram.Reset | core/src/histogram.cc:67-73 | All counters and the sum are zero. |
| Histograms.Histogram.Collect | core/src/histogram.cc:75-95 | The loop over a running integer count gives the cumulative buckets, the last one for infinity. |
| Histograms.RunNonnegative | core/src/histogram.cc:40-73 | No counter is ever negative, whatever increments were asked for. |
| Histograms.CollectedCounts | core/src/histogram.cc:16-95 | After every run of observations, one by one or many at once, and resets the bucket of a boundary counts the observations since the last reset that are at most the boundary, the last one all of them; count and sum agree with the list. |
| Histograms.OneInfinityBucket | core/src/text_serializer.cc:142-154 | A collected histogram is printed with its own buckets and no other: one for infinity, the last, equal to the count, and cumulative counts that never fall. |
| Histograms.MultipleIsEach | core/src/histogram.cc:51-65 | Increments that count values by bucket do what observing the values one by one does. |
| LabelSets.SamePairs | core/include/prometheus/labels.h:9-14 | Ordered maps with the same pairs are the same sequence. |
| LabelSets.LessExactly | core/include/prometheus/labels.h:9-14 | The order of the map is that of the first character in which two names differ, a prefix coming first. |
| Names.MetricNameExactly | core/src/check_names.cc:44-57 | A metric name is valid exactly if it matches [a-zA-Z_:][a-zA-Z0-9_:]* and does not start with two underscores. |
| Names.LabelNameExactly | core/src/check_names.cc:67-84 | A label name is valid exactly if it matches [a-zA-Z_][a-zA-Z0-9_]*, does not start with two underscores, and is not reserved: le for a histogram, quantile for a summary. |
| Families.Family.Create | core/src/family.cc:19-31 | The metric name is checked first, then the constant labels; each error is reported exactly if its check is the first to fail, and a family is made exactly if all are valid. |
| Families.Family.Add | core/src/family.cc:33-57 | Known labels give back the metric they have; new ones that are acceptable get the metric given; all others keep theirs, and a fault restores the map. |
| Families.AddKeepsOthers | core/src/family.cc:36-57 | So it is for the family as a value: every entry that was there stays, and only the labels given can be new. |
| Families.AddSeriesKeepsValid | core/src/family.cc:33-57 | In a valid family adding succeeds exactly for labels with valid names that are not constant labels, keeps the family valid, and changes nothing otherwise. |
| Families.FaultIffUnacceptable | core/src/family.cc:40-49 | The check in order finds a fault exactly if some label is unacceptable. |
| Families.FirstFault | core/src/family.cc:40-49 | The error is that of the first label that is not acceptable, an invalid name before a constant one. |
| Families.Family.Remove | core/src/family.cc:59-70 | Leaves exactly the entries of other metrics, as they were. |
| Families.RemoveKeepsOthers | core/src/family.cc:59-70 | So it is for the family as a value. |
| Families.KnownAfterAdd | core/src/family.cc:33-57 | The labels known after a call of Add, as Has reports them, are those known before, and the new ones exactly if they are acceptable. |
| Families.RemoveUndoesAddSeries | core/src/family.cc:33-76 | Removing a metric that was just added restores the family: its labels are unknown again and all others as before. |
| Families.Family.CollectMetric | core/src/family.cc:104-121 | The metric's reading with the constant labels in front of its own. |
| Families.Family.Collect | core/src/family.cc:86-107 | Every metric once, in some order of the hash map; nothing for a family without metrics. |
| Families.CollectedIsAll | core/src/family.cc:86-121 | What is collected of a family has its name, help and type, and every metric once with all that it reads, but for the labels. |
| Families.CollectedIsDistinct | core/src/family.cc:86-121 | No collected series repeats a label name, and no two have the same set of labels. |
| Registries.Registry.NameExistsElsewhere | core/src/registry.cc:26-37 | The recursive search over the four other vectors finds a name exactly if a family of another type has it. |
| Registries.Registry.Add | core/src/registry.cc:108-141 | Every outcome: name of another type, existing family returned, existing family with other labels or under the throwing behaviour refused, invalid names refused, family with name, help and labels appended to the vector of its type; every refusal leaves the registry as it was, and no other vector ever changes. |
| Registries.OtherTypeExactly | core/src/registry.cc:113-116 | A name is refused for its type exactly if a family of another type has it. |
| Registries.AddOutcomeExactly | core/src/registry.cc:118-138 | Otherwise the outcome is up to the behaviour and labels of the family that has the name, or to the names if none has it. |
| Registries.AddAppends | core/src/registry.cc:138-141 | A created family comes last, as asked for and without metrics; otherwise nothing changes. |
| Registries.Registry.Remove | core/src/registry.cc:163-179 | Takes this very family, wherever it is, out of the vector of its type and leaves exactly the others in their order, and all other vectors; says whether it was there, and changes nothing if not. |
| Registries.RemoveTakesOne | core/src/registry.cc:163-179 | So it is for the registry as a value, for a family at any position. |
| Registries.EveryRunRemovesOne | core/src/registry.cc:163-179 | And behind every run of calls, for registered and other families. |
| Registries.EveryRunCallsFamily | core/src/family.cc:33-70 | Behind every run, adding or removing a metric changes the family it is called on and no other. |
| Registries.Registry.Collect | core/src/registry.cc:43-54 | The families' collections one after the other in the order of the five vectors, with no series twice. |
| Registries.ScrapeIsAll | core/src/registry.cc:43-54 | A scrape has one entry for every family with metrics, in the order of the families, with all their metrics, and no others. |
| Registries.AddAgain | core/src/registry.cc:108-141 | After a family was created, the outcome of every later call under its name: only the same type and labels under the merging behaviour succeed, with that family. |
| Registries.RemoveUndoesAdd | core/src/registry.cc:108-179 | Removing a family that was just added restores the registry. |
| Registries.EveryRunIsWellFormed | core/src/registry.cc:108-179 | After every run of calls on a registry and its families every family is valid and in the vector of its type, and no name occurs twice in the five vectors. |
| Registries.EveryScrapeIsDistinct | core/src/registry.cc:43-54 | After every such run no two collected families share a name, no series repeats a label name, and no two series of a family have the same labels. |
| ScrapeText.EveryScrapeIsRead | core/src/text_serializer.cc:85-218 | After every such run the printed scrape is read back as exactly the samples collected, if and only if every line of a collected help text behind the first starts with a number sign. |
| ScrapeText.EveryReadingIsPrinted | core/src/text_serializer.cc:85-218 | If they do, after every run of a registry, what a registered metric reports is read from the text of a scrape field by field, under the name of its family, with the constant labels and its own. |
| PrintedLines.MetricLinesDistinct | core/src/text_serializer.cc:85-155 | The lines of one metric are distinct exactly if its quantiles, or bucket boundaries, are printed differently. |
| PrintedLines.MeetExactly | core/src/text_serializer.cc:85-155 | Two metrics of families with different names print a line of the same name and labels if and only if one name is the other followed by a suffix its type prints, and the labels printed under them are somewhere the same set. |
| PrintedLines.LinesDistinctExactly | core/src/text_serializer.cc:85-218 | Of families with distinct names and series: all lines are distinct, by name and set of labels, exactly if those of every metric are and no two metrics meet in this way. |
| PrintedLines.LinesDistinct | core/src/text_serializer.cc:85-218 | If none of the families is named like a line of another, exactly if those of every metric are. |
| PrintedLines.EveryScrapeLinesDistinct | core/src/registry.cc:43-54 | That exact condition holds for every scrape after every run of a registry, and if no registered family is named like a line of another one, no metrics meet. |
| PrintedLines.ClashExactly | core/src/text_serializer.cc:85-155 | Two families of different names can have metrics, with labels that they accept, of which two lines have the same name and labels, if and only if one name is the other followed by a suffix its type prints, the type of the longer name prints lines under the bare name, and not both are summaries. |
| PrintedLines.ClashCollides | core/src/text_serializer.cc:85-155 | Lines do collide as soon as two metrics meet, whatever else is collected. |
| ScrapeText.LinesCanCollide | core/src/registry.cc:108-141 | A run that does this: the registry accepts a summary and a counter whose lines have the same name and labels, since only family names are compared. |
| Base64.Base64Encode | util/include/prometheus/detail/base64.h:32-67 | The loop and the switch compute the encoding by triples of section 4 of RFC 4648. |
| Base64.Base64Decode | util/include/prometheus/detail/base64.h:80-136 | The nested loops, whose accumulator is never cleared, compute the decoding of each quantum on its own, with all three errors. |
| Base64.ShiftLow | util/include/prometheus/detail/base64.h:99-110 | Bits of earlier quanta stay above those that are read. |
| Base64Laws.RoundTrip | util/include/prometheus/detail/base64.h:32-136 | Decoding an encoding gives the bytes back; its length is four for every three bytes begun. |
| Base64Laws.EncodeInjective | util/include/prometheus/detail/base64.h:32-67 | Different byte strings have different encodings. |
| Base64Laws.Acceptance | util/include/prometheus/detail/base64.h:80-136 | Decoding succeeds if and only if the length is a multiple of four, only letters precede the first padding character, and that is in one of the last two places. |
| Base64Laws.DecodeFaults | util/include/prometheus/detail/base64.h:80-136 | A wrong length is reported first, else what the first character that is no letter is: invalid padding, if three or more characters are left with it, or an invalid character. |
| Base64Laws.Normalisation | util/include/prometheus/detail/base64.h:80-136 | Re-encoding what was decoded gives the input with the unused bits of its last letter cleared and full padding (section 3.5 of RFC 4648). |
| Base64Laws.EncodingsAreNormal | util/include/prometheus/detail/base64.h:32-136 | A string is an encoding if and only if it is acceptable and already normalised. |
| Base64Laws.TestVectors | util/include/prometheus/detail/base64.h:32-67 | The seven test vectors of section 10 of RFC 4648. |
| Base64Laws.AlphabetByCode | util/include/prometheus/detail/base64.h:28-29 | The alphabet, by the codes of its 64 characters. |
| LabelPath.EncodeLabel | push/src/detail/label_encoder.cc:29-39 | Appends name and value, marked and encoded if the value is empty or has a reserved character. |
| LabelPath.EncodeLabels | push/src/gateway.cc:78-82 | The loop over labels appends their path. |
| LabelPath.Uri | push/src/gateway.cc:64-114 | The address is that root and the path of job, gateway labels and collectable labels in this order. |
| LabelPath.RootExactly | push/src/gateway.cc:69-74 | Behind the URL stands exactly one slash, whether or not it ends with one, and then the word metrics. |
| LabelPath.LabelExactly | push/src/detail/label_encoder.cc:29-39 | The three ways to write a label, character by character: an empty value is one padding character behind the mark, one of unreserved characters stands as it is, any other is encoded behind the mark. |
| LabelPath.UnreservedExactly | push/src/detail/label_encoder.cc:12-26 | The unreserved characters are those of section 2.3 of RFC 3986. |
| LabelPath.UrlRoundTrip | util/include/prometheus/detail/base64.h:70-78 | The URL-safe alphabet can be read back and has no slash. |
| LabelPath.UrlEncodeExactly | util/include/prometheus/detail/base64.h:70-78 | The URL-safe encoding has a hyphen for each plus and an underscore for each slash. |
| LabelPath.PathRoundTrip | push/src/detail/label_encoder.cc:12-39 | A path is read back as the labels it was made from, for all byte strings as values, if and only if no name has a slash, or ends with the mark of an encoded value while its value is written plainly. |
| LabelPath.PathInjectiveExactly | push/src/detail/label_encoder.cc:12-39 | Over a set of names of which none starts with another one and a slash, with or without the mark between, label lists can be told from their paths, for all byte strings as values, if and only if no name is another one followed by the mark. |
| LabelPath.WithoutSlashesApart | push/src/detail/label_encoder.cc:12-39 | Names without slash, as all valid label names are, are such a set. |
| LabelCodes.PathInjectiveForAllNames | push/src/detail/label_encoder.cc:12-39 | Over any set of names, with or without slashes: label lists can be told from their paths, for all byte strings as values, if and only if no two readings, started with different names or one name with and without mark, overlap segment by segment until they end together. |
| LabelCodes.UriDeterminesGroupingKey | push/src/gateway.cc:64-114 | Two different grouping keys over these names, with any jobs, never have the same address, under the same condition and no other. |
| LabelCodes.SlashApartAmbiguity | push/src/detail/label_encoder.cc:12-39 | For names of which none starts with another one and a slash that is the condition above: none is another one followed by the mark. |
| LabelCodes.NestedIsNotAmbiguous | push/src/detail/label_encoder.cc:12-39 | Names may start with another one and a slash: x and x/y are told apart if neither x nor y is the other one, with or without the mark. |
| LabelPath.NamesCollideExactly | push/src/detail/label_encoder.cc:29-39 | Labels under two different names can be encoded alike if and only if one name is the other followed by the mark. |
| LabelPath.MarkedNameCollides | push/src/detail/label_encoder.cc:29-39 | For every name: an encoded value under it and a plain value under the name with the mark that are encoded alike. |
| LabelPath.TwoSlashesSplit | push/src/detail/label_encoder.cc:29-39 | A label whose name has two slashes with a plain text between them has the path of two labels, whatever its value is. |
| LabelPath.OneSlashEachShifts | push/src/detail/label_encoder.cc:29-39 | Two labels with a slash in each name have the path of three, if the texts that come to stand for values are plain. |
| TextFormat.WriteEscaped | core/src/text_serializer.cc:28-48 | Writes the value with line ends, backslashes and quotes escaped. |
| TextFormat.WriteHead | core/src/text_serializer.cc:50-75 | Name, suffix and labels, the extra label last, no braces without labels. |
| TextFormat.WriteTail | core/src/text_serializer.cc:77-83 | The timestamp unless it is zero, and the line end. |
| TextFormat.SerializeSimple | core/src/text_serializer.cc:85-104 | One line for a counter, gauge, info or untyped metric. |
| TextFormat.SerializeSummary | core/src/text_serializer.cc:106-122 | Count, sum and one line per quantile. |
| TextFormat.SerializeHistogram | core/src/text_serializer.cc:131-155 | Count, sum, one line per bucket, and one for infinity unless the last bucket is that. |
| TextFormat.SerializeFamily | core/src/text_serializer.cc:157-201 | Help if any, type, and the lines of all metrics. |
| TextFormat.Serialize | core/src/text_serializer.cc:204-218 | All families one after the other. |
| TextReader.QuotedRoundTrip | core/src/text_serializer.cc:28-48 | A reader of an escaped value stops at the quote that closes it and has the value, whatever characters it is made of. |
| TextReader.EscapedInjective | core/src/text_serializer.cc:28-48 | Different values are escaped differently. |
| TextReader.EscapedOnOneLine | core/src/text_serializer.cc:28-48 | An escaped value has no line end. |
| TextReader.LabelsRoundTrip | core/src/text_serializer.cc:58-73 | A list of labels is read back with names and values, in order. |
| TextReader.LineRoundTrip | core/src/text_serializer.cc:50-83 | A line is read back with name and suffix, labels, value and timestamp. |
| TextReader.LineIsOneLine | core/src/text_serializer.cc:50-83 | A sample is read from one line: what is left to read starts with the next. |
| TextReader.TextRoundTrip | core/src/text_serializer.cc:85-218 | The text of any families with valid names is read back as exactly their samples, in order, if and only if every line of a help text behind the first starts with a number sign. |
| TextReader.FamilyRoundTrip | core/src/text_serializer.cc:157-201 | The same for the text of one family. |
| PrintedValues.FamilyTextSays | core/src/text_serializer.cc:85-201 | What is read from the text of a family are the lines of its metrics one after the other, each with the labels and timestamp of its metric: for a counter, gauge or untyped metric one line under the bare name with the value of its own field; for an info metric one under the name with _info; for a summary count, sum and each quantile with its value; for a histogram count, sum, each bucket, and one for infinity unless the last bucket is that. |
| PrintedValues.SamplesSay | core/src/text_serializer.cc:85-155 | So it is for the lines of one metric; not a number is Nan and the infinities are +Inf and -Inf. |
| PrintedValues.CommentsSay | core/src/text_serializer.cc:157-190 | The text of a family starts with the help text, if there is any, and with the word for its type, which for an info metric is gauge. |
| PrintedValues.FamilyByFamily | core/src/text_serializer.cc:204-218 | Families follow each other in the text, and so do the samples that are read from it. |
| TextReader.HelpLineIsRead | core/src/text_serializer.cc:157-160 | Help is not escaped: a second line in it that looks like a sample is read as one that nobody reported. |

## Left out

- CkmsUpper.GuardedGuarantee: the guard is exact for what a sample tells of an insertion (CkmsGuard.GuardExactly). On a run it is sufficient: an insertion that fails it may keep the bounds for the observations made (CkmsUpper.InsertExactly), which the estimator no longer has.
- CkmsAccuracy.LowerRankGuarantee: asks for slopes of at most 1, without which the tolerance reaches past an end of the sample; CkmsAccuracy.EveryQueryGuarantee has no such condition.
- CkmsUpper.BoundNotBeyond: asks for a falling slope within q + e, without which the first item may be heavier; CkmsUpper.EveryCoveredQueryGuarantee has no such condition.
- CkmsSpace.CompressedSize: is about samples without uncertainties; an item that was inserted in the middle may keep neighbours apart that would otherwise merge.
- CkmsOrder.OrderExactly: quantifies over all ordered samples with the right total weight, without the errors of a run; CkmsStops.SoundOrderExactly is about those within the errors, of which not each need be reached by a run.
- LabelPath.PathInjectiveExactly: asks that no name starts with another one and a slash; LabelCodes.PathInjectiveForAllNames does not.
- LabelCodes.UriDeterminesGroupingKey: is about lists of labels; that a gateway and a collectable each hold theirs in the order of names is not used.
- CkmsRepeat.RowInOrder: a row whose first query does not leave a state at rest may or may not be in order.
- TextReader.TextRoundTrip: is about samples; help and type lines are skipped by the reader, which is strict and knows no blank lines.
- CkmsEstimator.CkmsQuantiles.SortBuffer: the sort of the standard library is a function with the promised result, as is the binary search for an insertion point or a bucket; their algorithms are not modelled.
- Families.Family.Collect: the hash of labels is not modelled; the iteration order is arbitrary.
- Rounding, overflow and infinite or NaN inputs of doubles, and the overflow of counts and indexes.
- Quantiles outside 0 to 1 and negative errors.
- Mutexes: a locked method is one step. Only the gauge has finer steps.
- The clock: its readings are parameters and never go back; durations are ticks, with at least one bucket and an interval of at least one tick.
- How finite doubles are printed, with locale and precision.
- Info metrics and setting a gauge to the current time, which only store a value.
- A counter in a histogram is its value, not the gauge inside it; calls on a family or metric after its owner removed it.
- Builders, weak references and their cleanup, endpoints, authentication, compression, HTTP servers and requests.
