# Verified model of an LLM evaluation workbench

This project models, in Dafny, the parts of the EvalOps repository where a mistake would be hard to see from the
outside, and proves what they promise on every input, every run and every crash point. It has four parts.

**The resumable pilot** (`PilotProtocol`, `PilotLaws`, `PilotStops`, `PilotRecords`, `PilotSessions`, `RateLimits`,
`Provenance`, `PilotExecution`). A pilot session walks providers and examples, retries transient failures, regenerates
unparsable answers, pays for each call from a hard budget, stops at a rate-limit breaker or at a changed model
version, and keeps a store in which a success is never overwritten. `PilotProtocol` is this session as a state machine
over evaluator calls; the evaluator is any function of the call number, provider and example, and it may raise.
`PilotExecution` has the objects and the loops, proved to do exactly what the state machine does. The laws are about
the state machine: one call, one example, one session, and any series of sessions over the same store. `PilotRecords`
reads a session's store off its calls alone.

**The workspace** (`Jobs`, `Evidence`, `EvidenceListing`, `EvidenceRecovery`, `Storage`, `Comparisons`,
`ComparisonStorage`, `Registry`, `Files`). Job records change by compare-and-swap on a revision; a run's evidence is
two files and a job that becomes complete; a comparison is two or three files with the config written last; a
workspace is a record and then a registry entry. Every file operation carries a fault: it can succeed, raise before or
after its effect, or be cut by a crash before or after its effect. The theorems quantify over all faults and over
whole histories.

**Retrieval** (`RetrievalMetrics`, `RetrievalLaws`, `RetrievalSwaps`, `RetrievalEvaluation`, `DiscountedSums`, `Bm25`,
`Bm25Laws`). nDCG on rankings with repeats is handled by comparing prefix sums and summing by parts, and independently
as a sum over documents at their first ranks. The BM25 index and accumulator are proved to compute the direct score of
each document, and `Bm25Laws` says what that score rewards.

**Statistics** (`McNemar`, `Confusion`, `PairedComparison`, `Hhem`, `Thresholds`, `Calibration`, `Percentiles`,
`Quartiles`, `Bootstrap`, `PilotAnalysis`). Exact binomial tails, confusion matrices and their slices, threshold
sweeps, calibration error, interpolated percentiles, and the bookkeeping of paired and repeated runs.

`Orders`, `Arithmetic` and `Results` hold sorting, sums and means, and option types used throughout. Code that changes
things step by step is a method or a class proved against a specification function; lemmas state what that function
promises in terms of its inputs.

Where code and documentation disagree, the code is followed:

- The docstring of `ndcg_at_k` says duplicate ranks are removed; the code lets a duplicate keep its rank and earn
  nothing. With that rule, moving a more relevant document up can lower the score when that document is itself a repeat:
  `SwappingARepeatCanLower` gives such a ranking, and `SwapLowersExactly` says exactly when a swap lowers DCG.
- `select_threshold_from_validation` accepts every column of its table as the metric, the column `threshold` included.
- Store keys join provider and example with a colon. Two providers can share a key exactly when one name, with its
  colon, begins the other (`KeysCollideExactly`), and then one example is reported with the record of another
  (`SharedKeySkips`); results about keys ask that no provider name does so.
- A job is created by making its directory and then linking its record into it, while every read and every promotion of
  run evidence first lists all job directories and raises if one has no record. A job creation stopped between the two
  steps therefore blocks the evidence of all runs of the workspace, though none of it is lost. `HalvedCreationBlocks`
  states this, `ListingBreaksExactly` and `ListingHealsExactly` say when it comes about and when it goes, and the
  theorems on reading and recovery hold exactly while every job directory has its record.
- A comparison save whose failed write nevertheless left its file blocks that ID for good; `RetryPossibleExactly` says
  when the ID is free again after a failed save.
- The handler of a failed comparison save unlinks the failures before the result. If the config write took effect
  although it raised, a handler stopped between the two leaves a comparison that can be read without the failures saved
  with it; `FailuresLostExactly` says that this is the only way.

## Model

| member | source | states |
|---|---|---|
| RetrievalMetrics.ToRelevanceMap | src/evalops/evaluators/retrieval/metrics.py:25-28 | exactly the positively graded documents are relevant, each once, with their grade |
| RetrievalMetrics.ReciprocalRank | src/evalops/evaluators/retrieval/metrics.py:75-85 | one over the rank of the first relevant document, and zero exactly if there is none |
| RetrievalMetrics.HitsAreFinds | src/evalops/evaluators/retrieval/metrics.py:31-60 | the documents counted by precision and recall are as many as the ranks below k at which a relevant document is found for the first time |
| RetrievalMetrics.AccumulateGain | src/evalops/evaluators/retrieval/metrics.py:104-112 | the loop that skips repeats computes the discounted sum over ranks in which a repeat keeps its rank and earns nothing |
| RetrievalMetrics.AccumulateIdeal | src/evalops/evaluators/retrieval/metrics.py:113-117 | the ideal sum is over the grades in descending order, cut at k |
| RetrievalMetrics.NdcgAtK | src/evalops/evaluators/retrieval/metrics.py:88-118 | fails exactly for k below one; otherwise the ratio of the two sums, and zero when nothing is relevant |
| DiscountedSums.PrefixLead | src/evalops/evaluators/retrieval/metrics.py:104-118 | summation by parts: a lead of one list of gains in every prefix survives any strictly decreasing discount |
| RetrievalLaws.IdealLeads | src/evalops/evaluators/retrieval/metrics.py:104-118 | at every rank the ideal list has gained at least as much as any ranking, repeats included |
| RetrievalLaws.NdcgInUnitInterval | src/evalops/evaluators/retrieval/metrics.py:88-118 | DCG is at most ideal DCG, so nDCG is in [0, 1]; it is 1 exactly when every rank earns what the ideal earns there |
| RetrievalLaws.IdealRankingIsPerfect | src/evalops/evaluators/retrieval/metrics.py:88-118 | a ranking of exactly the relevant documents by falling grade scores 1 at every k |
| RetrievalLaws.SwapUpNeverLowers | src/evalops/evaluators/retrieval/metrics.py:88-118 | moving a document up past one worth no more never lowers DCG or nDCG, unless that document occurs earlier |
| RetrievalLaws.AdjacentSwapLowersExactly | src/evalops/evaluators/retrieval/metrics.py:104-112 | for neighbours, the swap lowers DCG if and only if a repeat displaces an earning first occurrence within the first k |
| RetrievalLaws.SwappingARepeatCanLower | src/evalops/evaluators/retrieval/metrics.py:104-112 | the unrestricted law fails: in [a, b, a] moving the second a above b lowers DCG although a is worth more |
| RetrievalSwaps.DcgByDocument | src/evalops/evaluators/retrieval/metrics.py:104-112 | the sum over ranks equals the sum over relevant documents, each credited once at its first rank |
| RetrievalSwaps.SwapExactly | src/evalops/evaluators/retrieval/metrics.py:104-112 | swapping any two different documents changes DCG by exactly what those two earn after, less before |
| RetrievalSwaps.SwapLowersExactly | src/evalops/evaluators/retrieval/metrics.py:104-112 | for any two ranks, the swap lowers DCG if and only if the two documents earn less at their new first ranks, which are read off the old ranking |
| RetrievalLaws.HitExactlyWhenGain | src/evalops/evaluators/retrieval/metrics.py:63-112 | there is a relevant document in the first k exactly when DCG at k is positive |
| RetrievalLaws.MetricsAgree | src/evalops/evaluators/retrieval/metrics.py:31-118 | k times precision is the number relevant times recall; hit rate is 1 if and only if precision, recall or nDCG is positive |
| RetrievalEvaluation.PassExactlyWhenHit | src/evalops/evaluators/retrieval/metrics.py:137-201 | a query is PASS if and only if it hits, if and only if precision, recall, nDCG are positive, if and only if reciprocal rank is at least 1/k |
| RetrievalEvaluation.QueryMeasured | src/evalops/evaluators/retrieval/metrics.py:31-118 | k times precision and the number relevant times recall are the first finds below k; hit rate is whether there is one; reciprocal rank times the rank of the first is one; nDCG times ideal DCG is DCG |
| RetrievalEvaluation.EvaluateQueries | src/evalops/evaluators/retrieval/metrics.py:169-193 | the loop evaluates every ground-truth query once; a query without prediction has retrieved nothing |
| RetrievalEvaluation.EvaluateRetrieval | src/evalops/evaluators/retrieval/metrics.py:159-201 | fails exactly for k below one; covers exactly the ground-truth queries; every query's five metrics say what they are named for, and its category whether there was anything to find and it was found; each of the five macro metrics times the number of queries is the sum of that metric over the queries, is zero without queries, and is in [0, 1] |
| RetrievalEvaluation.MacroBetween | src/evalops/evaluators/retrieval/metrics.py:194-201 | a macro metric lies between the least and the greatest of the queries' own values |
| RetrievalEvaluation.MacroHitRate | src/evalops/evaluators/retrieval/metrics.py:194-201 | averaging hit rates over queries gives the PASS count over the query count |
| Bm25.DivisionsDefined | src/evalops/retrieval/bm25.py:76-108 | for a token somebody holds, the average length and every denominator are positive |
| Bm25.ScoreAnyOrder | src/evalops/retrieval/bm25.py:92-108 | the direct score does not depend on the order in which the query's tokens are taken |
| Bm25.BM25Retriever.AddDocument | src/evalops/retrieval/bm25.py:67-77 | indexing one document keeps the postings equal to who holds which token how often; a repeated ID is refused and changes nothing |
| Bm25.Build | src/evalops/retrieval/bm25.py:53-80 | the built index is the index of exactly the given documents; bad parameters and repeated IDs are refused in the source's order |
| Bm25.BM25Retriever.AddPostings | src/evalops/retrieval/bm25.py:101-108 | walking one token's postings grows the accumulator by exactly that token's contribution to each holder |
| Bm25.BM25Retriever.Accumulate | src/evalops/retrieval/bm25.py:91-108 | the accumulator ends with exactly the candidates, each with its direct BM25 score |
| Bm25.BM25Retriever.Retrieve | src/evalops/retrieval/bm25.py:82-114 | returns the first k of the one ranking of documents sharing a token; scores fall along the answer, equal ones stand in ID order, ranks count from one |
| Bm25.RankingUnique | src/evalops/retrieval/bm25.py:110 | the ranking by score then ID is unique, so an answer is determined |
| Bm25.SmallerAnswerIsPrefix | src/evalops/retrieval/bm25.py:110-114 | the answer for k is a prefix of the answer for any larger k |
| Bm25.AnswerIsBest | src/evalops/retrieval/bm25.py:82-114 | every returned document is a candidate with its direct score, and no candidate left out scores more than one returned, or as much with an earlier ID |
| Bm25.ScorePositive | src/evalops/retrieval/bm25.py:92-108 | with a logarithm positive on positives, every document sharing a token scores above zero |
| Bm25Laws.ContributionExactly | src/evalops/retrieval/bm25.py:97-108 | a contribution without fractions: fixed by the logarithm of the odds of not holding the token, the token's frequency, the document's length, k1, b, and the numbers of all tokens and of all documents |
| Bm25Laws.RarerCountsMore | src/evalops/retrieval/bm25.py:97-108 | of two documents as long, holding their tokens as often, the one whose token fewer documents hold is given strictly more |
| Bm25Laws.FrequentCountsMore | src/evalops/retrieval/bm25.py:101-108 | a token counts strictly more in a document of the same length that holds it more often |
| Bm25Laws.LongerCountsLess | src/evalops/retrieval/bm25.py:103-108 | a token counts strictly less in a longer document that holds it as often if b is positive, and the same if b is zero |
| Bm25Laws.RepeatsSaturate | src/evalops/retrieval/bm25.py:97-108 | however often a token is repeated, its contribution is above zero and stays below k1 + 1 times its logarithm |
| Bm25Laws.HigherScoreFirst | src/evalops/retrieval/bm25.py:110-114 | of two candidates the one that scores more is returned first, whenever the other is returned |
| Bm25Laws.RarerTokenFirst | src/evalops/retrieval/bm25.py:92-114 | of two candidates of one length that each hold one query token, as often, the holder of the rarer token scores more and is returned first |
| Orders.StringLeExactly | src/evalops/retrieval/bm25.py:110 | equal scores stand in the order of IDs in which a proper prefix, or the smaller character at the first difference, comes first |
| McNemar.CombFactorial | src/evalops/evaluators/hallucination/comparison.py:42-56 | Pascal's recursion is n! / (k! (n - k)!) |
| McNemar.RowSum | src/evalops/evaluators/hallucination/comparison.py:42-56 | the binomial coefficients of n sum to 2 to the n |
| McNemar.TailComplement | src/evalops/evaluators/hallucination/comparison.py:42-56 | a lower tail and the mirrored upper tail make up the whole row |
| McNemar.HalfRow | src/evalops/evaluators/hallucination/comparison.py:42-56 | twice a lower tail is below the row if and only if it stops short of the middle |
| McNemar.LowerTail | src/evalops/evaluators/hallucination/comparison.py:49 | the summing loop computes the lower binomial tail |
| McNemar.ExactMcNemar | src/evalops/evaluators/hallucination/comparison.py:42-56 | refuses lists of different length; otherwise reports the one-sided counts, a statistic that times b + c is the square of |b - c| - 1, and a p-value that times 2 to the n is twice the binomial tail up to the smaller count, or the whole row if less |
| McNemar.PValueLaws | src/evalops/evaluators/hallucination/comparison.py:42-56 | the p-value is in (0, 1], symmetric, and equal to 1 if and only if the two counts differ by at most one |
| McNemar.PValueFalls | src/evalops/evaluators/hallucination/comparison.py:42-56 | for a fixed number of discordant pairs the p-value does not rise as the counts move apart |
| McNemar.StatisticGrows | src/evalops/evaluators/hallucination/comparison.py:42-56 | for a fixed number of discordant pairs the statistic is symmetric, zero exactly when the counts differ by one, and grows as they move apart |
| Confusion.CountMatrix | src/evalops/evaluators/hallucination/metrics.py:65-79 | the if-chain counts, for each cell, the examples with that true and predicted label |
| Confusion.BuildReport | src/evalops/evaluators/hallucination/metrics.py:55-81 | refuses repeated, missing or extra IDs exactly; otherwise reports the matrix of the given labels, and eight rates each of which is the stated share of counts |
| Confusion.MatrixCountsEveryone | src/evalops/evaluators/hallucination/metrics.py:65-79 | every example is in exactly one cell |
| Confusion.MetricLaws | src/evalops/evaluators/hallucination/metrics.py:32-52 | every rate is in [0, 1], complementary rates sum to one where defined, F1 lies between precision and recall |
| Confusion.RatesAreCounts | src/evalops/evaluators/hallucination/metrics.py:32-52 | each rate times its whole is its part, and zero of nothing: tp of tp + fp for precision and so on, 2 tp of 2 tp + fp + fn for F1, and balanced accuracy half of recall plus specificity |
| Confusion.SlicesConserve | src/evalops/evaluators/hallucination/metrics.py:96-114 | along one dimension the slices' matrices add up to the whole matrix, cell by cell |
| Confusion.EvaluateSlices | src/evalops/evaluators/hallucination/metrics.py:84-121 | every metadata value gets one report, made from exactly its own examples |
| PairedComparison.CompareHallucinationPredictions | src/evalops/evaluators/hallucination/comparison.py:59-139 | refuses exactly the populations that differ; otherwise every list and the statistic describe the one population |
| PairedComparison.ComparePilotPredictions | src/evalops/pilot/analysis.py:181-237 | the pilot's separately nested loop reports the same categories, errors and statistic |
| PairedComparison.CategoriesPartition | src/evalops/evaluators/hallucination/comparison.py:83-98 | the four categories partition the example IDs |
| PairedComparison.DiscordantCounts | src/evalops/evaluators/hallucination/comparison.py:87-98 | McNemar's two counts are the sizes of the two one-sided categories |
| PairedComparison.ErrorsConserved | src/evalops/evaluators/hallucination/comparison.py:99-128 | candidate errors are baseline errors less those fixed plus those introduced, for false negatives and false positives |
| PairedComparison.AccuracyGain | src/evalops/evaluators/hallucination/comparison.py:59-139 | accuracy of the candidate less that of the baseline, from the metrics layer, is (c - b) / n |
| Hhem.EvaluateBatch | src/evalops/evaluators/hallucination/hhem.py:196-244 | the loops over chunks and scores make the specified outcome, for any model: a prediction per score brought, or the failure met first |
| Hhem.ReadMeans | src/evalops/evaluators/hallucination/hhem.py:226-243 | a reply is read to all its numbers if each is in [0, 1], else to the fault of the first that is not |
| Hhem.FailsAtFirstBadChunk | src/evalops/evaluators/hallucination/hhem.py:206-243 | a batch is scored if and only if no chunk fails; else it fails in the way of the first chunk that does: a raise, a wrong count, no number or a score out of range |
| Hhem.ScoredByChunks | src/evalops/evaluators/hallucination/hhem.py:206-244 | input i of chunk c has its own ID, is called hallucinated exactly if the i-th score that chunk brought is below the threshold, and scored one less that score |
| Hhem.PointwiseOutcome | src/evalops/evaluators/hallucination/hhem.py:163-244 | for a model that scores each pair by itself, every input is called hallucinated exactly if its own score is below the threshold, and scored one less it; or one score is outside [0, 1] and the batch fails for it |
| Hhem.BatchSizeIrrelevant | src/evalops/evaluators/hallucination/hhem.py:196-244 | for such a model any two batch sizes lead to the same outcome |
| Thresholds.ThresholdMatrix | src/evalops/evaluators/hallucination/thresholds.py:25-44 | the counting loop computes the matrix of predicting hallucination below the threshold |
| Thresholds.MatrixOrderIrrelevant | src/evalops/evaluators/hallucination/thresholds.py:33-43 | a confusion matrix does not depend on the order in which examples are visited |
| Thresholds.SweepRefinesEvaluator | src/evalops/evaluators/hallucination/thresholds.py:25-44 | for any batch size, the sweep's row at a threshold is the metrics layer's matrix of the predictions HHEM makes with that threshold; HHEM makes them exactly if all scores are in [0, 1] |
| Thresholds.RatesRiseWithThreshold | src/evalops/evaluators/hallucination/thresholds.py:25-62 | recall and false-positive rate never fall as the threshold rises |
| Thresholds.AnalyzeThresholds | src/evalops/evaluators/hallucination/thresholds.py:47-62 | each error exactly when its condition holds; else one row per distinct threshold, ascending |
| Thresholds.SelectThreshold | src/evalops/evaluators/hallucination/thresholds.py:65-90 | the test split is refused; else the least threshold among those with the best value of the rate of the given name, for each of the nine names |
| Thresholds.SelectedByName | src/evalops/evaluators/hallucination/thresholds.py:65-90 | each name selects by the column of that name: "recall" by recall, and so on, and "threshold" by the threshold itself |
| Thresholds.SelectionIsUnique | src/evalops/evaluators/hallucination/thresholds.py:65-90 | the selection depends on which candidates there are, not on their order or repeats |
| Calibration.FillBins | src/evalops/pilot/full_analysis.py:98-108 | in place, each bin ends with the count and sums of exactly the examples whose value falls into it |
| Calibration.Calibrate | src/evalops/pilot/full_analysis.py:83-126 | fails exactly on no examples; otherwise bin j counts exactly the values from j/10 up to (j+1)/10, the first also those below and the last those above; its means times its count are the sums of those values and of their targets; ECE times the sample size is the sum of count times gap; the Brier score is the mean of the squared distances |
| Calibration.MeanInBin | src/evalops/pilot/full_analysis.py:98-114 | the mean of what a bin holds lies in that bin |
| Calibration.ReportCountsEveryone | src/evalops/pilot/full_analysis.py:98-119 | the reported bin counts add up to the number of examples |
| Calibration.CalibrationSandwich | src/evalops/pilot/full_analysis.py:109-126 | mean prediction and base rate differ by at most ECE, ECE is at most the mean absolute error, and its square at most the Brier score |
| Calibration.CalibrateRun | src/evalops/pilot/full_analysis.py:83-168 | probability and stated confidence are each calibrated when present; the targets of a bin add up to its hallucinated, or correctly judged, examples; both reports obey the three bounds of the sandwich |
| Percentiles.PercentilePermutation | src/evalops/pilot/full_analysis.py:289-299 | the percentile ignores the order of the values |
| Percentiles.SortedStatistic | src/evalops/pilot/full_analysis.py:289-299 | place i of the sorted list is a value that at most i values are smaller than and at most n - 1 - i larger |
| Percentiles.StatisticUnique | src/evalops/pilot/full_analysis.py:289-299 | there is only one such value for each i |
| Percentiles.PercentileExactly | src/evalops/pilot/full_analysis.py:289-299 | x is the percentile if and only if it divides two neighbouring order statistics, counted from the values, as p (n - 1) divides their ranks |
| Percentiles.PercentileAtRank | src/evalops/pilot/full_analysis.py:289-299 | at probability i / (n - 1) the percentile is the i-th order statistic |
| Percentiles.PercentileAffine | src/evalops/pilot/full_analysis.py:289-299 | between two neighbouring ranks, the percentile at a mix of two probabilities is the same mix of the two percentiles |
| Percentiles.PercentileMirrored | src/evalops/pilot/full_analysis.py:289-299 | the percentile at 1 - p of the negated values is the negated percentile at p |
| Percentiles.PercentileLaws | src/evalops/pilot/full_analysis.py:289-299 | the percentile stays within any bounds of the values and does not fall as the probability rises |
| Percentiles.PercentileExtremes | src/evalops/pilot/full_analysis.py:289-299 | at 0 and 1 it is the least and the greatest value |
| Quartiles.RankQuartiles | src/evalops/pilot/full_analysis.py:44-59 | the buckets are consecutive runs of the IDs sorted by value then ID |
| Quartiles.QuartilesPartition | src/evalops/pilot/full_analysis.py:44-59 | the buckets hold everyone once, in sizes differing by at most one |
| Quartiles.QuartilesAscend | src/evalops/pilot/full_analysis.py:44-59 | nobody in an earlier bucket has a larger value than anybody in a later one, or the same value and a later ID |
| Quartiles.QuartileOfRank | src/evalops/pilot/full_analysis.py:44-59 | rank r of n is in bucket b if and only if 4 r is at least b n and below (b + 1) n |
| Bootstrap.SampleKeyDiffers | src/evalops/pilot/full_analysis.py:265-286 | occurrence-local keys of different occurrences differ, whatever the example IDs are |
| Bootstrap.BootstrapMetric | src/evalops/pilot/full_analysis.py:265-286 | a sample with repeats is scored occurrence by occurrence, never refused for repeated IDs; the value is the share of counts its metric is named for |
| Bootstrap.IntervalOf | src/evalops/pilot/full_analysis.py:339-361 | the bounds divide neighbouring order statistics of the replicates at (1 - level) / 2 and at 1 less that; lower is at most upper, both within the range of the replicates |
| Bootstrap.BootstrapIntervals | src/evalops/pilot/full_analysis.py:302-362 | refuses exactly the bad arguments; both intervals are such percentile intervals of the replicates, within [0, 1] and [-1, 1] |
| PilotAnalysis.BuildOverlap | src/evalops/pilot/analysis.py:388-441 | each list holds, in ID order, exactly the examples for which just those evaluators, or at least those two, agree with the label |
| PilotAnalysis.OverlapCounts | src/evalops/pilot/analysis.py:403-441 | all wrong, three singles and three pairs, less twice all correct, count the complete examples |
| PilotAnalysis.Group | src/evalops/pilot/analysis.py:447-457 | grouping collects each example's verdicts in record order |
| PilotAnalysis.RunOrderIrrelevant | src/evalops/pilot/analysis.py:451-474 | matches and unanimity of three runs do not depend on their order, so the sort by attempt has no effect on the rates |
| PilotAnalysis.BinaryMatches | src/evalops/pilot/analysis.py:459-480 | of three binary verdicts either all pairs agree or exactly one does |
| PilotAnalysis.SummarizeConsistency | src/evalops/pilot/analysis.py:444-491 | pairwise agreement is (1 + 2 times the unanimous rate) / 3 whenever there is a complete example; disagreements are exactly the rest |
| RateLimits.SpacedApart | src/evalops/pilot/rate_limit.py:42-50 | when each start is at least the interval after the one before, the start n places later is at least n intervals later |
| RateLimits.RateAwareRequestScheduler.Create | src/evalops/pilot/rate_limit.py:36-40 | refuses exactly a negative interval and a maximum below one |
| RateLimits.RateAwareRequestScheduler.BeforeRequest | src/evalops/pilot/rate_limit.py:42-50 | the request starts now, and all starts so far are at least the interval apart |
| RateLimits.RateAwareRequestScheduler.Observe | src/evalops/pilot/rate_limit.py:52-73 | every counter after an answer, and an error exactly on a daily quota or the maximum-th limit in a row |
| RateLimits.RateAwareRequestScheduler.WaitBeforeRetry | src/evalops/pilot/rate_limit.py:75-85 | waits at least the interval, at least the delay the provider asks for now, and if it asks for none, the one of its last limit |
| Provenance.AdoptsOne | src/evalops/pilot/provenance.py:32-43 | at most one version is ever adopted, it is historical if there is a history, and no failure means every version seen was it |
| Provenance.PassExactly | src/evalops/pilot/provenance.py:24-43 | the status is PASS if and only if every version seen is one and the same historical version |
| Provenance.ModelVersionContinuity.Observe | src/evalops/pilot/provenance.py:32-43 | a refused version changes nothing but the failure flag; an accepted one is remembered |
| Provenance.ModelVersionContinuity.Status | src/evalops/pilot/provenance.py:24-30 | the status is that of the whole list of versions observed |
| PilotLaws.StepProgress | src/evalops/pilot/execution.py:131-174 | one pass of the retry loop pays for and logs exactly one call, changes the store at its own example only, and keeps every success |
| PilotLaws.PairProgress | src/evalops/pilot/execution.py:128-187 | one example makes at most 1 + retries + regenerations left calls, all its own, and its record's attempt is the number of calls |
| PilotLaws.CounterIsSuffixLength | src/evalops/pilot/rate_limit.py:52-73 | from a fresh scheduler the counter is the length of the current run of rate limits |
| PilotLaws.GridLawful | src/evalops/pilot/execution.py:119-188 | every session: successes kept and not called again, requests used grow by the calls and stay under the ceiling, accepted versions frozen and historical, the breaker trips at the last call or nowhere, and no store conflict |
| PilotLaws.CallsBounded | src/evalops/pilot/execution.py:119-188 | in one session an example is called at most 1 + max_retries + its regeneration allowance times |
| PilotLaws.ResultsMatchStore | src/evalops/pilot/execution.py:119-188 | a session that returns reports one record per example, in order, each exactly as stored |
| PilotStops.ViolationStoresNothing | src/evalops/pilot/execution.py:172-174 | a refused version leaves the store and the accepted versions as they were before the call |
| PilotStops.GridExplained | src/evalops/pilot/execution.py:119-188 | a session stops for the reason it gives: spent budget, a raise at the last call and at none before, or a refused version whose example has no success |
| PilotStops.TripsExactly | src/evalops/pilot/rate_limit.py:52-73 | the breaker trips at a call if and only if it is an API_RATE_LIMIT that reports the dimension RPD or ends a window of max limits in a row |
| PilotStops.BreakerExact | src/evalops/pilot/execution.py:136-155 | from a fresh scheduler the session stops at exactly that call; no call follows, and its FAILED record is stored |
| PilotRecords.StepAccounted | src/evalops/pilot/execution.py:131-187 | one answered call goes on exactly if it is unparsed or transient within its allowance and did not trip the breaker; it leaves its own record unless it is regenerated or refused, and then nothing |
| PilotRecords.PairIsAccounted | src/evalops/pilot/execution.py:128-187 | of the calls on one example all but the last go on, and the last one kept is recorded with the number of calls by then |
| PilotRecords.SessionAccounted | src/evalops/pilot/execution.py:119-188 | wherever a session ends, its calls alone determine its store: an example is called again exactly while its answers are unparsed or transient and the allowances last; the last of its calls that was answered, and neither regenerated nor refused, has its own record stored, with its trace, the number of calls made by then, and SUCCESS exactly for a prediction that did not trip the breaker; every other entry is as before; the guard ends the session at its first foreign version and vouches for the rest |
| PilotSessions.SuccessesLast | src/evalops/pilot/execution.py:61-69 | over any series of sessions a success never changes, disappears or is evaluated again |
| PilotSessions.VersionsStayHistorical | src/evalops/pilot/provenance.py:32-43 | over any series of sessions guarded by one history, every versioned success gained carries a historical version |
| PilotSessions.ResumeConfluence | src/evalops/pilot/execution.py:119-188 | sessions cut by budget, breaker, guard or raises, the last of which returns, leave exactly the store of one uncut session, for an evaluator deterministic per example |
| PilotSessions.KeysCollideExactly | src/evalops/pilot/execution.py:50-52 | two providers can share a key if and only if one name with its colon begins the other with its colon |
| PilotSessions.SharedKeySkips | src/evalops/pilot/execution.py:50-59 | once an example succeeds, another pair with the same key is not evaluated, and is reported with the record of the first |
| PilotSessions.SharedKeyExample | src/evalops/pilot/execution.py:120-127 | with providers "a" and "a:b", example "c" of the second is reported as example "b:c" of the first |
| PilotSessions.ColonFreeIsUnambiguous | src/evalops/pilot/execution.py:50-52 | distinct colon-free provider names never share keys |
| PilotSessions.GridKeysDistinct | src/evalops/pilot/execution.py:50-52 | then all keys of providers times distinct example IDs differ |
| PilotSessions.ReportsInOrder | src/evalops/pilot/execution.py:119-188 | the results are provider by provider in manifest order, each the stored record |
| PilotExecution.RequestBudget.Create | src/evalops/pilot/execution.py:23-27 | refuses exactly a maximum below one |
| PilotExecution.RequestBudget.Reserve | src/evalops/pilot/execution.py:29-34 | grants a request exactly while some are left, and counts it |
| PilotExecution.PilotStateStore.Upsert | src/evalops/pilot/execution.py:61-69 | writes unless a success is there, and refuses only a different success |
| PilotExecution.ProviderPilot.Settle | src/evalops/pilot/execution.py:156-187 | the branches after an answer make the specified step, which SessionAccounted pins call by call; a retry after a rate limit has waited the interval and as long as asked |
| PilotExecution.ProviderPilot.CallOnce | src/evalops/pilot/execution.py:131-187 | one pass over the budget, scheduler, evaluator, guard and store objects is one step of the state machine, with one paced start per call; a retry after a rate limit is held back from that start by the interval and by the delay the answer asked for |
| PilotExecution.ProviderPilot.EvaluateExample | src/evalops/pilot/execution.py:128-187 | the retry loop terminates, and ends as the state machine does for that example |
| PilotExecution.ProviderPilot.RunSorted | src/evalops/pilot/execution.py:119-188 | the nested loops over providers and manifest are the state machine's session over that grid |
| PilotExecution.ProviderPilot.Run | src/evalops/pilot/execution.py:100-188 | missing examples are refused before anything happens; otherwise the nested loops leave every object as the state machine's session over the sorted grid does, and, where keys are distinct, calls and stored records agree as SessionAccounted says |
| Jobs.CompareAndSwap | src/evalops/workspace/storage.py:850-899 | each accepted update adds one revision, and of all updates issued against one revision at most one is accepted |
| Jobs.TerminalAbsorbs | src/evalops/workspace/storage.py:865-866 | no update of a finished job is ever accepted |
| Jobs.HistoryKeeps | src/evalops/workspace/jobs/models.py:84-107 | through any updates a job stays well formed, keeps its identity and never withdraws a cancellation |
| Jobs.CancelledEndsSoon | src/evalops/workspace/storage.py:870-879 | once a cancellation is stored at most one more update is accepted, and it ends the job as cancelled, failed or interrupted |
| Jobs.RevisionsCounted | src/evalops/workspace/storage.py:850-899 | revisions are state changes, plus one at most for recording a cancellation |
| Jobs.CompletesInOrder | src/evalops/workspace/jobs/models.py:34-69 | through any updates a job completes only by entering every phase it has not been in yet, each once and in order |
| Jobs.EnteredFrom | src/evalops/workspace/jobs/models.py:34-69 | from which states each state can be entered |
| Jobs.HistoriesAreFinite | src/evalops/workspace/storage.py:850-899 | a new job has at most six revisions, whatever is asked of it |
| Jobs.SixRevisions | src/evalops/workspace/storage.py:850-899 | and six can be reached |
| Jobs.QueueRequestsAccepted | src/evalops/workspace/jobs/queue.py:53-212 | exactly when the queue's finishing, interrupting and cancelling requests are accepted |
| Jobs.QueueRequestsLeave | src/evalops/workspace/jobs/queue.py:53-212 | what they leave: cancelled or failed with the error, interrupted with WORKER_RESTART, cancelled if queued and else marked for cancellation |
| Evidence.PromotionIsAtomic | src/evalops/workspace/storage.py:532-546 | wherever a promotion fails or is cut, either the job is complete with both files, or no job has changed; if it returns, the former |
| Evidence.CommittedExactly | src/evalops/workspace/storage.py:532-546 | the job is complete afterwards if and only if both creates succeeded and the update took effect |
| Evidence.RollBackRestores | src/evalops/workspace/storage.py:541-546 | an exception whose handler ran leaves the disk exactly as before, or the run complete |
| Evidence.PerformKeeps | src/evalops/workspace/storage.py:489-608 | every single call, with any faults, keeps the evidence sound and everything a completed job vouches for unchanged |
| Evidence.EvidenceIsSafe | src/evalops/workspace/storage.py:489-608 | over every history: at most one complete job per run, its files there and matching by digest and snapshot, and never changed again |
| Evidence.CompletedEvidence | src/evalops/workspace/storage.py:489-591 | after every such history a completed run has a result whose digest its provenance names, with the run, input IDs and digests, evaluator versions and commit of its snapshot, and whose configuration is the snapshot's |
| Evidence.ProvenanceNeedsResult | src/evalops/workspace/storage.py:532-546 | wherever a promotion is cut, its provenance is never there without its result |
| Evidence.ReadableExactly | src/evalops/workspace/storage.py:548-591 | sound evidence is served to readers if and only if a job of the run is complete and every job directory has its record |
| EvidenceListing.ListingBreaksExactly | src/evalops/workspace/storage.py:795-835 | listing the jobs stops working after a call if and only if it is a job creation stopped between making the directory and linking the record |
| EvidenceListing.ListingHealsExactly | src/evalops/workspace/storage.py:795-835 | and it works again if and only if that very job is created, and no other directory lacks its record |
| EvidenceListing.HalvedCreationBlocks | src/evalops/workspace/storage.py:489-608 | creating any job and losing power before its record is linked: completed evidence is still all there, but no longer served, and nothing can be promoted or discarded |
| EvidenceListing.HalvedCreationExample | src/evalops/workspace/storage.py:795-835 | a concrete workspace with one completed run, served before such a cut and not after |
| EvidenceListing.ServedExactly | src/evalops/workspace/storage.py:489-608 | over every history with faults and crashes anywhere but between those two steps, evidence is served exactly for completed runs |
| EvidenceRecovery.RestartMakesDiscardable | src/evalops/workspace/storage.py:593-608 | after a restart a run's leftovers can be discarded if and only if the jobs can be listed, the run has not completed and no job of it is still queued |
| EvidenceRecovery.RestartAgain | src/evalops/workspace/jobs/queue.py:53-71 | wherever a restart was cut, restarting again ends as an uncut restart would have |
| EvidenceRecovery.CrashedRunCanBeRetried | src/evalops/workspace/application/runs.py:264-279 | from whatever crashes left of a run that has had a job and has stopped, however often the restart was cut, a restart and a retry complete the run and serve the new evidence, if and only if every job directory has its record |
| Storage.WorkspaceStore.SaveRunSnapshot | src/evalops/workspace/storage.py:407-431 | a snapshot that names its own run is stored once and never replaced |
| Storage.WorkspaceStore.SaveJobRecord | src/evalops/workspace/storage.py:795-806 | only a fresh queued job of a known run is stored, never over another; at every cut point exactly the directory, or the directory and the record, or neither is there |
| Storage.WorkspaceStore.ListJobs | src/evalops/workspace/storage.py:824-835 | lists every job, or fails exactly if a job directory has no record |
| Storage.WorkspaceStore.UpdateJobRecord | src/evalops/workspace/storage.py:850-899 | the chain of checks accepts exactly the acceptable updates, and stores exactly one next revision; the store stays sound unless the update itself completes a job |
| Storage.WorkspaceStore.WriteRunArtifacts | src/evalops/workspace/storage.py:489-546 | does what the promotion specified does, refuses exactly what is not eligible without a trace, and keeps the store sound |
| Storage.WorkspaceStore.GetRunArtifacts | src/evalops/workspace/storage.py:548-591 | in a sound store succeeds exactly when a job of the run is complete and the jobs can be listed; returns the stored evidence, whose digest, run, input IDs and digests, versions, commit and configuration are those of bytes and snapshot |
| Storage.WorkspaceStore.DiscardUnfinishedRunArtifacts | src/evalops/workspace/storage.py:593-608 | unlinks exactly when the jobs can be listed and every job of the run has ended unsuccessfully, and keeps the store sound |
| Storage.WorkspaceStore.RetryJob | src/evalops/workspace/application/runs.py:264-279 | refuses exactly unless the original job and all others of its run have ended unsuccessfully and the jobs can be listed; else discards and queues a new job |
| Storage.WorkspaceStore.Recover | src/evalops/workspace/jobs/queue.py:53-71 | does nothing if the jobs cannot be listed; else schedules exactly the queued jobs and interrupts exactly the running ones, and when cut has done so for all jobs but those left |
| Comparisons.SaveTraces | src/evalops/workspace/storage.py:629-699 | however a save is cut, each file at its ID is missing or exactly what was to be written |
| Comparisons.SaveElsewhere | src/evalops/workspace/storage.py:629-699 | and no other comparison is touched |
| Comparisons.SaveIsAtomic | src/evalops/workspace/storage.py:629-761 | at every cut point a reader sees nothing or exactly the saved record and failures; after a return, the record, and the failures if and only if they list queries in order, at least one and each once |
| Comparisons.SavedConfig | src/evalops/workspace/storage.py:629-699 | a save that returns has bound record and failures by digest, and its config repeats the record's mode, policy, runs and result digests |
| Comparisons.FailuresLostExactly | src/evalops/workspace/storage.py:684-699 | a comparison can be read without the failures saved with it if and only if its config took effect while raising, and the handler unlinked the failures but not the result |
| Comparisons.RetryPossibleExactly | src/evalops/workspace/storage.py:684-699 | after a cleaned-up failure the ID is free again if and only if the failed write left no file |
| Comparisons.ReadableForever | src/evalops/workspace/storage.py:629-761 | once readable, no later saves alter what readers get |
| Comparisons.OnlySavedIsRead | src/evalops/workspace/storage.py:629-733 | what becomes readable is a record some save was given |
| ComparisonStorage.ComparisonStore.SaveComparisonRecord | src/evalops/workspace/storage.py:629-699 | the try block and the unlinking loop do what the specified save does; inadmissible saves change nothing |
| ComparisonStorage.ComparisonStore.GetComparisonRecord | src/evalops/workspace/storage.py:701-733 | returns the decoded record if and only if the digest matches, IDs and workspace are those asked for, and mode, policy, runs and result digests agree with the config |
| ComparisonStorage.ComparisonStore.GetComparisonFailures | src/evalops/workspace/storage.py:735-761 | returns the failures exactly when they are complete, bound by digest and in order |
| Registry.Workspaces.CreateWorkspace | src/evalops/workspace/storage.py:198-219 | at every cut point the registry is sorted, without repeats and lists only existing records, the old ones unchanged; the new one is listed if and only if all writes took effect |
| Registry.Workspaces.ListWorkspaces | src/evalops/workspace/storage.py:194-196 | every listed workspace can be loaded |

## Left out

- Floating-point rounding: all numbers are reals; `log2`, `log1p` and powers of two are functions with the monotonicity the proofs need.
- Floating-point range: with `b + c >= 1024` discordant pairs the source's `2.0 * tail / (2**discordant)` raises OverflowError, and for fewer it does not; the p-value here is a real number for all counts. Graded relevances so large that `2 ** relevance` overflows raise likewise.
- SHA-256, JSON and the result parser: functions given to the model; comparisons assume that what is encoded decodes to itself.
- Evaluators, score models and random draws: oracles or given sequences; example texts are not passed on, since they are fixed by the example ID.
- Calls to `record_observer`, and the back-off through `retry_sleep` for errors other than rate limits: no effect on the store, the results or the counters.
- The on-disk form of the pilot store: a session starts from a loaded map, and a write is atomic.
- Timestamps and `updated_at`, display-name normalisation and identifier patterns.
- Symlink and path checks, fsync and the Windows retry loop: file operations are atomic steps that may fail or be cut on either side of their effect.
- Several stores or processes on one directory: the source's lock is per instance, so calls are sequential.
- The same job record read twice with different contents within one call: the lock excludes it.
- Unicode normalisation, the tokenizer's expressions and its Thai n-grams: BM25 starts from tokens.
- Confusion.EvaluateSlices: one metadata dimension per call; the source calls the same loop for two.
- The list of examples each evaluator lacks in the three-evaluator report, and the value ranges of rank quartiles: plain set differences and extremes.
- The bootstrap's loop over metric names: one interval pair per name is modelled.
- PilotAnalysis.Group: keeps record order and omits the sort of an example's runs by attempt; `RunOrderIrrelevant` says nothing reported depends on it.
- Listing runs and comparisons (`list_run_snapshots`, `list_comparison_records`), which likewise raise on a directory left without its record; no other modelled call goes through them.
- The `input_length` and `truncated` metadata of a prediction, and scores that are not a number in the floating-point sense.
- The unanimity and agreement of pilot runs uses verdicts only; the confidence statistics beside it are left out.
- `compare_hallucination_artifacts`, provider summaries, the phase 5B recommendation, `build_multi_evaluator_analysis`, exports, the regression package, HTTP providers and the web application.
- Baseline pointers, inputs (and the input digests checked when a run is created) and export manifests of a workspace: single files with field checks.
- Sorting of job lists by creation time: the order decides only which of two refusals is reported.
- SwapUpNeverLowers: one direction, for a document that is not itself a repeat; `SwapLowersExactly` has both directions for every swap.
- Evidence.EvidenceIsSafe: for histories in which COMPLETE is entered only through a promotion, as the source's callers do; `update_job_record` alone would allow more.
