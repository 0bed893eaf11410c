# Verification of the archiver's core

Dafny models of the parts of the imageboard archiver whose correctness no finite set of tests settles, with
proofs about them. `dafny verify dfyconfig.toml` checks everything.

The project follows the program's components:

| part | files |
|---|---|
| Personalized PageRank on a bounded subgraph | `Subgraph`, `MassFlow`, `LinearSystems`, `PageRank`, `PageRankTheorems` |
| Edit distance and thread similarity | `EditDistance`, `ThreadSimilarity`, `SimilarityLaws` |
| Near-duplicate clusters and bursts | `NearDuplicates`, `ClusterBounds`, `ClusterLaws`, `Bursts`, `BurstLaws` |
| Ranking metrics | `RankingMetrics`, `RankingTheorems`, `RankingOptimum` |
| Job queue, retries, circuit breaker | `Jobs`, `Backoff`, `SiteHealth`, `Scheduler`, `SchedulerSafety`, `SchedulerSettles`, `SchedulerQueue`, `SchedulerBreaker`, `SchedulerHealth`, `Retries` |
| Crawl cursor and catalog pass | `Crawl`, `CrawlMachine`, `CrawlCoverage`, `CrawlPolls`, `Threads`, `ThreadRuns` |
| Content-addressed blob index | `BlobIndex`, `BlobHistory` |
| Query language to SQL | `Dsl`, `DslMeaning`, `DslTheorems`, `DslRows` |
| WordPiece tokenizer | `Tokenizer`, `TokenizerLaws` |
| Vector literals | `VectorText` |
| Shared mathematics | `FiniteSums`, `Sequences`, `Options` |

Conventions. Loops over slices, maps and rows are methods with invariants, proved against specification
functions; the laws are lemmas about those functions. A store is a class whose methods each do one SQL
statement (or one transaction) atomically on maps of rows. The scheduler and the crawl are state machines
whose processes interleave statement by statement, and their theorems speak of every position of every run.
Floats are real numbers. Go's `int64` wrap-around is written out where it matters (`Backoff`). Random draws,
clock readings, `sqrt`, `log2`, the Unicode tables, number printing, text search and the neighbour lookup are
parameters, with the assumptions on them stated in the contracts: `log2` is positive and non-decreasing from 2
on, `sqrt` squares back, printing is undone by parsing and emits no comma, bracket or space.

## What the proofs say about the code

- The default PageRank configuration always stops by its tolerance, after at most 20 of its 30 rounds, within
  1.5 tolerances of a ranking that is proved to exist and to be the only one a round leaves as it is.
- NDCG and recall stay in [0, 1] for all grades exactly when no post is listed twice among the first k hits
  (`internal/evalbench/metrics.go` does not check that).
- `internal/scheduler/enqueue.go:14-15` credits the unique index with all deduplication. The index ignores rows
  without a thread, so for board-wide jobs an insert keeps them unique exactly when the preceding count was
  zero; that this suffices is a theorem about the interleavings of one supervisor with any number of workers.
- `internal/scheduler/backoff.go:17` says the delay never overflows. With the queue's one-minute base it does:
  the product wraps to a negative number at attempts 29 and 30, where `rand.Int63n` aborts, and at no other
  attempt. The queue gives up at attempt 10, so it never gets there.
- `internal/store/blobs.go:68-73` promises a consistent `ref_count`. A download keeps the counts exactly when a
  first download is a full one or finds its blob, and a repeated one brings the same content. A run breaks
  them: a full row without its thumbnail is downloaded again (`internal/store/blobs.go:158`) and now gives
  other content. The counts are right throughout a run exactly when each of its steps is safe in this sense.
- The worker marks a catalog job done before it stores the cursor, so the supervisor may queue a stale page, and
  every page can be polled three times before the next. Two cycles of polls, 2·ceil((n+1)/k), therefore do not
  fetch every page: they do in every run exactly when n = 0 or n = k, in every run of a new board exactly when
  n < 2k, and always where the board is never read between completion and storing. On a new board with two pages and
  one page a poll, six polls can miss page 1. The least number of polls that does fetch everything is found in
  each case: with the lap ceil(n/k) it is three laps and one, on a new board three cycles less two, without
  stale reads a lap and one.
- `hammingDistance` answers -1 for hashes of unequal length, which counts as close, so the first leader takes
  every hash of another length. All clusters keep the diameter bound exactly when any two hashes of one such
  length are within it; for all contents of given lengths, exactly when no two later hashes share a length,
  other than the first one's, with more than twice the threshold in bits.
- For distinct hits NDCG is 1 exactly when no list of distinct posts gains more at k.
- A job that is pending and due is never overtaken on its site by one that was due after it.
- `textSimilarity` counts repeated words of its second argument. A text scores the same in both directions
  against all texts without repeated words exactly when it repeats none itself.
- The quote field's subquery names `$1`. Placeholders run `$1`, `$2`, ... in order exactly when no kept filter asks
  for quotes; a quote filter looks for the first argument of the whole statement, whatever its own value. The
  clause has all its parameters bound exactly when there is no quote filter or some filter binds a value.
- An unknown filter operator, such as the `!=` and `~=` the parser itself builds, drops the filter silently.
- `internal/embedder/tokenize.go:104` says an unknown rune is consumed whole; `runeLen` returns 1, so each of its
  bytes becomes an unknown id: an unknown token gives one id a rune exactly when each of its runes is one byte
  long. A length limit under 2 aborts.
- `internal/scheduler/jobs.go:425-439` queues OCR, CLIP and Whisper jobs for site 0, without counting. Only the
  foreign key of `internal/store/migrations/0002_jobs.sql:8` keeps such rows, and duplicates of them, out.
- The video subquery of `internal/search/dsl.go:544` reads `mime_type` from `files`, which no migration gives that
  column; what is proved about it is for rows that have one.
- No migration creates the table `anomaly_events` that the burst detector reads and writes; what is proved about
  reported bursts is for a database that has it.

## Model

| member | source | states |
|---|---|---|
| Subgraph.Visit | internal/embedder/ppr.go:56-61 | marks all neighbours visited and queues exactly the ones new among them |
| Subgraph.ExpandFrontier | internal/embedder/ppr.go:50-63 | one hop: every frontier node's neighbours are recorded as read, and the next frontier is what became visited, or some visited node could not be read |
| Subgraph.BreadthFirst | internal/embedder/ppr.go:42-68 | visits exactly the ball of radius MaxHops around the seeds, also when it leaves early on an empty frontier; fails only on an unreadable node of the ball |
| Subgraph.Expand | internal/embedder/ppr.go:42-78 | succeeds iff every node joined to a seed by a walk of at most maxHops links is readable, and then the adjacency has exactly those nodes with their neighbours |
| Subgraph.BallIsReach | internal/embedder/ppr.go:42-68 | the ball is exactly the set of nodes that some walk of at most that many hops from a seed reaches |
| Subgraph.BallStable | internal/embedder/ppr.go:64-67 | once a hop adds nothing, no later hop does, so the early exit loses no node |
| PageRank.RestartVector | internal/embedder/ppr.go:81-91 | total weight times a post's restart score is the sum of the weights over the indices of the seeds naming it |
| PageRank.WeightsTotal | internal/embedder/ppr.go:81-91 | the seeds' weights per node add up to the total weight |
| PageRank.PushShare | internal/embedder/ppr.go:111-116 | every listed neighbour gains one share per listing and nobody else changes |
| PageRank.SendShares | internal/embedder/ppr.go:107-117 | in whatever order the map is walked, each node receives the sum of what all nodes send it |
| PageRank.PowerStep | internal/embedder/ppr.go:103-117 | one round computes (1-alpha)·restart plus alpha times the mass carried along links, on all visited nodes and their neighbours |
| PageRank.L1Change | internal/embedder/ppr.go:118-121 | the sum over the visited nodes of the absolute differences of the two scores |
| PageRank.Iterate | internal/embedder/ppr.go:93-130 | the result is the last of a run of rounds from the restart vector, stopped at the first change below the tolerance or at the limit |
| PageRank.PersonalizedPageRank | internal/embedder/ppr.go:37-131 | lookup failure iff some node in reach is unreadable, empty iff there are no seeds or no weight, otherwise the scores of such a run on exactly that subgraph |
| MassFlow.ReceivedTotal | internal/embedder/ppr.go:107-117 | what a set of nodes receives is what the senders send into it |
| MassFlow.StepContracts | internal/embedder/ppr.go:103-121 | a round brings any two score vectors closer by the factor alpha in L1 |
| MassFlow.FirstStepGap | internal/embedder/ppr.go:93-121 | the first round changes a distribution by at most 2·alpha |
| MassFlow.StepTotal | internal/embedder/ppr.go:103-117 | the total after a round is (1-alpha)·restart mass plus alpha times the mass sent inside |
| MassFlow.FixedPointBound | internal/embedder/ppr.go:118-130 | a round's result is within alpha/(1-alpha) of its own change from any fixed point |
| MassFlow.FixedPointUnique | internal/embedder/ppr.go:103-117 | for alpha below 1 two fixed points agree on every visited node |
| PageRankTheorems.KernelSubStochastic | internal/embedder/ppr.go:107-117 | every node passes on at most what it has, also with repeated neighbours |
| PageRankTheorems.ChangeShrinks | internal/embedder/ppr.go:103-125 | along every run the change of a round is at most alpha times the change before |
| PageRankTheorems.ChangeDecays | internal/embedder/ppr.go:93-125 | the change of round i is at most 2·alpha^(i+1) |
| PageRankTheorems.StopsBy | internal/embedder/ppr.go:103-130 | if 2·alpha^k is below the tolerance, the loop stops by tolerance within k rounds |
| PageRankTheorems.RestartIsDistribution | internal/embedder/ppr.go:81-91 | non-negative weights of positive total give a probability distribution on the subgraph |
| PageRankTheorems.RestartIsShares | internal/embedder/ppr.go:81-91 | for every post, total weight times restart score is the sum of the weights of the seeds naming it, and 0 for any other post |
| PageRankTheorems.StepInFull | internal/embedder/ppr.go:103-117 | a round written out: the restart share of a visited node, and from every visited node with neighbours alpha times its score for each listing out of all its listings |
| PageRankTheorems.RankingKeepsShares | internal/embedder/ppr.go:37-131 | every ranking of at least one round gives each post at least (1-alpha) times its share of the seed weights |
| PageRankTheorems.RankingStops | internal/embedder/ppr.go:93-130 | a ranking makes at most maxIterations rounds, fewer only when the last changed the scores by less than the tolerance in L1, and every round before changed them by at least that |
| PageRankTheorems.DefaultConfigConverges | internal/embedder/ppr.go:30-32 | with the default configuration the loop stops by tolerance after at most 20 of its 30 rounds |
| PageRankTheorems.StopsNearFixedPoint | internal/embedder/ppr.go:118-130 | a run stopped by tolerance ends within alpha/(1-alpha)·tolerance (L1) of any fixed point |
| PageRankTheorems.FixedPointsAgree | internal/embedder/ppr.go:103-117 | the ranking the iteration aims at is unique |
| LinearSystems.SolutionExists | internal/embedder/ppr.go:103-117 | every damped linear system over a finite set has a solution, found by eliminating one unknown after the other |
| PageRankTheorems.FixedPointExists | internal/embedder/ppr.go:103-117 | for every graph, restart and alpha in [0,1) some ranking is left as it is by a round |
| PageRankTheorems.DefaultRankingIsNearLimit | internal/embedder/ppr.go:30-32 | the default ranking is within 0.00015 (L1) of such a ranking, with no assumption but the seeds' weights |
| PageRankTheorems.MassAfterStep | internal/embedder/ppr.go:103-117 | a round's total is exactly (1-alpha) + alpha·(mass on nodes with a neighbour): the leak at dangling nodes and at the boundary is no more and no less |
| PageRankTheorems.RunMass | internal/embedder/ppr.go:93-130 | on every run all scores stay non-negative and total at most 1 |
| PageRankTheorems.ClosedRunConservesMass | internal/embedder/ppr.go:93-130 | when every visited node has neighbours and all are visited, the total stays 1 |
| EditDistance.Min | internal/lineage/continuity.go:285-293 | the least of three |
| EditDistance.Max | internal/lineage/continuity.go:278-283 | the larger of two |
| EditDistance.FillRow | internal/lineage/continuity.go:217-229 | a row of the table is computed from the row before, for all prefixes of the second string |
| EditDistance.Levenshtein | internal/lineage/continuity.go:204-234 | the two-row loop, swapping rows, returns the edit distance |
| EditDistance.DistanceIsOptimal | internal/lineage/continuity.go:204-234 | that distance is the length of a shortest script of inserts, deletes and replacements: some script has it, none is shorter |
| EditDistance.DistanceZeroIffEqual | internal/lineage/continuity.go:204-234 | distance zero exactly between equal strings |
| EditDistance.DistanceSymmetric | internal/lineage/continuity.go:204-234 | symmetric |
| EditDistance.DistanceTriangle | internal/lineage/continuity.go:204-234 | triangle inequality |
| EditDistance.LengthBound | internal/lineage/continuity.go:204-234 | between the length difference and the larger length |
| EditDistance.DistanceToPrefix | internal/lineage/continuity.go:189-195 | the distance to a prefix is the length difference, so the prefix shortcut is the general formula |
| ThreadSimilarity.TitleSimilarity | internal/lineage/continuity.go:178-202 | with its equality and prefix shortcuts it is 1 - distance/longer length on normalised titles |
| ThreadSimilarity.TitleScoreLaws | internal/lineage/continuity.go:178-202 | in [0,1], symmetric, and 1 exactly for equal non-empty titles |
| ThreadSimilarity.TextSimilarity | internal/lineage/continuity.go:236-257 | the words of the second text found in the first, over the longer word count |
| ThreadSimilarity.TextScoreLaws | internal/lineage/continuity.go:236-257 | in [0,1], with the exact condition for 1 |
| ThreadSimilarity.TextScoreIsDirected | internal/lineage/continuity.go:246-251 | an input on which swapping the texts changes the score |
| ThreadSimilarity.TextScoreSymmetricIff | internal/lineage/continuity.go:236-257 | a text scores alike in both directions against every text without repeated words iff it has none itself |
| ThreadSimilarity.CosineSimilarity | internal/lineage/continuity.go:259-276 | dot product over the product of the norms, 0 for unequal lengths or a zero norm |
| ThreadSimilarity.CauchySchwarz | internal/lineage/continuity.go:264-275 | dot² is at most the product of the squared norms |
| ThreadSimilarity.CosineScoreBound | internal/lineage/continuity.go:259-276 | the cosine lies in [-1,1] |
| SimilarityLaws.TitleScoreCounts | internal/lineage/continuity.go:178-202 | one minus the title score, times the longer length, is the edit distance |
| SimilarityLaws.OneMoreEditCosts | internal/lineage/continuity.go:178-202 | at equal lengths one edit more lowers the title score by exactly one part in the length |
| SimilarityLaws.ReplacedByteCosts | internal/lineage/continuity.go:178-202 | a title and itself with one byte replaced score one less one part in the length |
| SimilarityLaws.TextScoreCounts | internal/lineage/continuity.go:236-257 | the text score times the longer length is the number of positions of the second text that hold a word of the first |
| SimilarityLaws.CosineOfMultiple | internal/lineage/continuity.go:259-276 | the cosine of a non-zero vector with a multiple of itself is 1 for a positive factor and -1 for a negative one |
| SimilarityLaws.CosineOfDisjoint | internal/lineage/continuity.go:259-276 | vectors without a common non-zero entry have cosine 0 |
| ThreadSimilarity.EvaluatePair | internal/lineage/continuity.go:128-145 | links iff both scores reach their thresholds, and every stored confidence lies between the mean threshold and 1 |
| NearDuplicates.HammingDistance | internal/lineage/crosspost.go:223-241 | the number of differing bits of the hex digits, -1 for unequal lengths |
| NearDuplicates.HammingTriangle | internal/lineage/crosspost.go:223-253 | triangle inequality for equal lengths |
| NearDuplicates.HammingSymmetric | internal/lineage/crosspost.go:223-253 | symmetric for all lengths |
| NearDuplicates.HammingZero | internal/lineage/crosspost.go:223-253 | zero exactly when the digits decode alike |
| ClusterLaws.HexDigits | internal/lineage/crosspost.go:243-253 | the sixteen digits decode to 0 to 15, upper and lower case alike, and any other byte to 0 |
| ClusterLaws.DigitsDiffer | internal/lineage/crosspost.go:231-238 | two digits are apart by the number of their four bits that differ |
| NearDuplicates.CollectCluster | internal/lineage/crosspost.go:139-157 | takes exactly the unseen close blobs after the leader and leaves exactly the unseen others |
| NearDuplicates.DetectNearDuplicates | internal/lineage/crosspost.go:122-163 | the recorded clusters are the greedy clusters with more than one member of all blobs, or of the first 1000 when there are more |
| NearDuplicates.ClustersPartition | internal/lineage/crosspost.go:132-163 | every scanned blob is in exactly one cluster |
| NearDuplicates.MembersCloseToLeader | internal/lineage/crosspost.go:151-155 | every member is within the threshold of its leader |
| NearDuplicates.LeadersApart | internal/lineage/crosspost.go:134-155 | any two leaders are more than the threshold apart |
| ClusterLaws.MembersApart | internal/lineage/crosspost.go:139-157 | every member, not only the leader, is further than the threshold from the leaders of all earlier clusters: each blob joins the first leader it is close to |
| ClusterLaws.RecordedIff | internal/lineage/crosspost.go:159-161 | a list is recorded iff it holds the hashes, in order, of a cluster of at least two blobs |
| NearDuplicates.ClusterDiameter | internal/lineage/crosspost.go:134-155 | two members of a cluster with hashes as long as the leader's are at most twice the threshold apart |
| ClusterBounds.DiameterBoundIff | internal/lineage/crosspost.go:134-161 | all clusters of a scan keep the bound iff any two hashes of a common length other than the first one's do |
| ClusterBounds.BoundForLengthsIff | internal/lineage/crosspost.go:223-241 | for all contents of given lengths, iff no two hashes share a length, other than the first one's, of more than 2·threshold bits |
| NearDuplicates.UnequalLengthsBreakTheBound | internal/lineage/crosspost.go:224-226 | a scan that breaks it: three blobs of one cluster, threshold 8, two of them 20 apart |
| Bursts.CountWindow | internal/ambitious/anomaly.go:217-224 | on time-sorted posts the early break leaves the exact number of later posts in the window |
| Bursts.SortByTime | internal/ambitious/anomaly.go:209-212 | some order of the same posts by time |
| Bursts.DetectBursts | internal/ambitious/anomaly.go:203-256 | under three posts nothing; otherwise, for some sorting of the posts, each board's first burst unless it has a recent event |
| Bursts.CountPermutes | internal/ambitious/anomaly.go:209-212 | interval counts do not depend on the order the sort left equal times in |
| Bursts.AnchorHoldsInterval | internal/ambitious/anomaly.go:216-224 | every interval of the window's length has a post whose own window holds at least as many posts |
| Bursts.WindowsLoseNothing | internal/ambitious/anomaly.go:209-224 | for unsorted posts, some window opened at a post reaches a count iff some interval of that length does |
| Bursts.BurstGrows | internal/ambitious/anomaly.go:226-236 | the rate test is monotone in the count |
| BurstLaws.BurstIff | internal/ambitious/anomaly.go:227-236 | a count is a burst iff it is at least 3 and, times the posts' span or an hour, whichever is longer, at least the threshold times number of posts times window |
| BurstLaws.CountIsNumber | internal/ambitious/anomaly.go:217-225 | the count of an interval is the number of posts with a time in it, ends included |
| Bursts.OneEventPerBoard | internal/ambitious/anomaly.go:236-256 | one event per board, for exactly the boards with a burst and no recent event |
| Bursts.ReportedIff | internal/ambitious/anomaly.go:209-256 | with no recent event, something is reported iff some interval of the window's length passes the rate test |
| BurstLaws.ReportedWhen | internal/ambitious/anomaly.go:208-258 | with no recent event, something is reported iff some interval of the window's length holds that many posts |
| BurstLaws.EventIff | internal/ambitious/anomaly.go:208-258 | the events are exactly the first bursts of the boards without a recent event, each with its window's count |
| RankingMetrics.Sink | internal/evalbench/metrics.go:57-63 | the inner loop extends a sorted prefix by one, in place, permuting |
| RankingMetrics.SortDesc | internal/evalbench/metrics.go:57-63 | sorts in place, descending, a permutation |
| RankingMetrics.SortedIsUnique | internal/evalbench/metrics.go:57-63 | there is one descending order of a bag of grades |
| RankingMetrics.IdealIsUnique | internal/evalbench/metrics.go:41-45 | the ideal list does not depend on the map's iteration order |
| RankingMetrics.HitsDcg | internal/evalbench/metrics.go:31-39 | the discounted gain of the first k hits |
| RankingMetrics.IdealDcg | internal/evalbench/metrics.go:46-50 | the discounted gain of the first k ideal grades |
| RankingMetrics.CollectGrades | internal/evalbench/metrics.go:41-44 | collects each relevant post's grade once, in some order |
| RankingMetrics.NdcgAtK | internal/evalbench/metrics.go:26-55 | computes the quotient of the two gains, 0 without relevant posts or ideal gain |
| RankingMetrics.RecallAtK | internal/evalbench/metrics.go:9-23 | found over relevant, 0 without relevant posts |
| RankingTheorems.TopGradesTotalMost | internal/evalbench/metrics.go:40-50 | no sub-bag of the grades totals more than as many of the first sorted ones |
| RankingTheorems.PrefixDominated | internal/evalbench/metrics.go:31-50 | distinct hits gain in total at most what as many ideal positions hold |
| RankingTheorems.SummationByParts | internal/evalbench/metrics.go:31-50 | prefix-wise domination carries over to discounted sums, with a margin |
| RankingTheorems.DcgAtMostIdeal | internal/evalbench/metrics.go:26-55 | DCG is between 0 and the ideal DCG for distinct hits and non-negative grades |
| RankingTheorems.NdcgInUnitInterval | internal/evalbench/metrics.go:26-55 | NDCG is in [0,1] for them |
| RankingTheorems.RepeatBreaksNdcg | internal/evalbench/metrics.go:31-39 | for any hits with a repeat among the first k there are grades that push NDCG above 1 |
| RankingTheorems.NdcgBoundedIffDistinct | internal/evalbench/metrics.go:26-55 | NDCG is at most 1 for all grades iff the first k hits are distinct posts |
| RankingOptimum.GainInFull | internal/evalbench/metrics.go:27-39 | the gain at k is the sum of grade over logarithm of position over the graded hits among the first k |
| RankingOptimum.NdcgIsRelative | internal/evalbench/metrics.go:26-55 | NDCG times the gain at k of the graded posts listed best first is the gain at k of the hits; 0 when the former is |
| RankingOptimum.BestFirstExists | internal/evalbench/metrics.go:40-46 | the graded posts can be listed best first |
| RankingOptimum.NdcgIsOneIff | internal/evalbench/metrics.go:26-55 | for non-negative grades, one of them positive, k of at least 1 and distinct hits, NDCG is 1 iff no list of distinct posts gains more at k |
| RankingOptimum.BestFirstScoresOne | internal/evalbench/metrics.go:26-55 | hits that list the graded posts best first score exactly 1 at every k of at least 1 |
| RankingTheorems.RecallBoundedIffDistinct | internal/evalbench/metrics.go:9-23 | recall is in [0,1] for all relevant sets iff they are |
| RankingOptimum.RecallIsShareFound | internal/evalbench/metrics.go:9-23 | for distinct hits, recall times the number of relevant posts is how many of them are among the first k, and recall is 1 iff all are |
| Jobs.JobStore.EnqueueJob | internal/store/jobs.go:34-50 | inserts a pending row unless the partial index has an active row with the same board and thread; the sequence number is spent either way |
| Jobs.JobStore.ClaimJob | internal/store/jobs.go:53-75 | takes of the site's pending jobs that are due the one with the least (run_after, id), written out in the row fields; nothing iff there is none |
| Jobs.JobStore.CompleteJob | internal/store/jobs.go:78-87 | marks that row done and touches nothing else |
| Jobs.JobStore.FailJob | internal/store/jobs.go:90-105 | counts the attempt, then fails the row for good or puts it back with its wait |
| Jobs.JobStore.PendingJobCount | internal/store/jobs.go:109-120 | the number of active jobs of exactly this key, comparing nulls as equal |
| Jobs.OldestExists | internal/store/jobs.go:57-66 | a due job implies an oldest one |
| Jobs.OldestIsUnique | internal/store/jobs.go:57-66 | and only one |
| Jobs.CountZero | internal/store/jobs.go:109-120 | the count is zero iff no active job has the key |
| Jobs.TransitionsSettle | internal/store/jobs.go:53-105 | claim, complete and fail each lower (attempts left, status rank) |
| Backoff.BackoffDelay | internal/scheduler/backoff.go:10-29 | aborts iff half the wrapped delay is not positive, otherwise a jittered capped delay |
| Backoff.QueueDelay | internal/scheduler/backoff.go:10-29 | with one minute and thirty the raw delay is min(30, 2^(attempt-1)) minutes, negative exactly at attempts 29 and 30 |
| Backoff.QueueDelayAborts | internal/scheduler/backoff.go:17-27 | aborts iff the attempt is 29 or 30, whatever is rolled |
| Backoff.QueueDelayRange | internal/scheduler/backoff.go:26-28 | every queue delay is at least 75% and under 125% of the raw one |
| Backoff.QueueDelayDrawn | internal/scheduler/backoff.go:10-29 | for every attempt the queue reaches the delay is three quarters of 1, 2, 4, 8, 16 or 30 minutes and what is drawn below half of them, so every such delay can be drawn |
| Backoff.CooldownLaw | internal/scheduler/backoff.go:33-47 | the cooldown is the doubled base capped at a day, at least a minute, and never falls with more failures |
| Retries.RunTells | internal/store/jobs.go:90-105 | at every moment of every run a job's attempts are its failures so far, its claims those and the current one, and each wait was drawn for its attempt |
| Retries.FailureWaits | internal/scheduler/jobs.go:301-307 | in every run a failing poll, download or backfill waits 1, 1, 2, 4, 8, 16, then 30 minutes, give or take a quarter; any other job one minute; the tenth failure is final |
| Retries.TotalWaitRange | internal/scheduler/jobs.go:301-307 | waits drawn for attempts 0 to n-1 total between 75% and 125% of the doubling schedule |
| Retries.AlwaysFailingJob | internal/scheduler/jobs.go:301-307 | in every run a job is failed iff it failed ten times, after ten claims, never more; its nine waits total 91.5 to 152.5 minutes |
| Retries.TenClaimsTakeTime | internal/store/jobs.go:53-75 | in every run at least 91.5 minutes of clock time lie between a job's first and tenth claim |
| SiteHealth.SiteTable.RecordSiteSuccess | internal/store/health.go:10-22 | resets the site's failures and circuit and no other row |
| SiteHealth.SiteTable.RecordSiteFailure | internal/store/health.go:24-34 | adds one failure and returns the new number |
| SiteHealth.SiteTable.SetCircuitOpen | internal/store/health.go:36-44 | opens the circuit until the given time |
| SiteHealth.SiteTable.CircuitStatus | internal/store/health.go:46-56 | open iff flagged open and not past its end |
| SiteHealth.SiteTable.SiteFailed | internal/scheduler/jobs.go:309-323 | counts the failure, and from the threshold on opens the circuit for the cooldown |
| SiteHealth.SiteTable.CircuitWait | internal/scheduler/jobs.go:325-338 | after sleeping the returned time the circuit no longer blocks |
| SchedulerHealth.CountIsSinceSuccess | internal/store/health.go:10-34 | in every run a site's failure count is the number of failures counted since its last recorded success |
| SchedulerHealth.SuccessCloses | internal/store/health.go:10-22 | right after a recorded success the site has no failures and its circuit is closed |
| SchedulerHealth.OnlyPollsCount | internal/scheduler/jobs.go:294-307 | whatever changes a site's health, in every run, is a catalog or thread poll of that site in progress |
| SchedulerHealth.ThresholdTrips | internal/scheduler/jobs.go:309-323 | for any number of workers, a failure that brings the count to the threshold or more makes its worker's next step open the circuit for that count's cooldown; below it the next step leaves health alone |
| SchedulerSafety.StepSafe | internal/scheduler/scheduler.go:158-213 | every step of every process keeps the invariant: unique active jobs, true counts at the supervisors, workers holding distinct running jobs |
| SchedulerSafety.RunSafe | internal/scheduler/scheduler.go:59-114 | it holds at every position of every interleaving |
| SchedulerSafety.AtMostOneActiveJob | internal/store/migrations/0002_jobs.sql:29-31 | at every moment at most one job of each (site, board, thread, kind) is active |
| SchedulerSafety.InsertKeepsUniqueIff | internal/scheduler/enqueue.go:39-50 | an insert keeps jobs unique iff the key is indexed or has no active job |
| SchedulerSettles.StepSettles | internal/store/jobs.go:53-105 | in the machine every row either stays or lowers its measure, and a row at rest never changes |
| SchedulerSettles.RestIsFinal | internal/store/jobs.go:53-105 | a job done or failed stays exactly as it is for the rest of the run |
| SchedulerSettles.ClaimsBounded | internal/store/jobs.go:90-105 | claims of a job equal its attempts plus the running one, so there are never more than 10 |
| SchedulerQueue.ClaimTakesOldest | internal/store/jobs.go:53-75 | in every run a claimed job is pending, due and of the worker's site, and its (run_after, id) is lexicographically less than that of every other such job |
| SchedulerQueue.NothingLeftWaiting | internal/store/jobs.go:53-75 | a worker that finds nothing to claim leaves no job of its site pending and due |
| SchedulerQueue.PendingStays | internal/store/jobs.go:53-105 | in every run a pending row stays exactly as it is until it is claimed |
| SchedulerQueue.NoOvertaking | internal/store/jobs.go:53-75 | while a job is pending and due, every job claimed on its site was due before it, or at the same time with a smaller id |
| SchedulerQueue.SupervisorInserts | internal/store/jobs.go:34-50 | an insert of a supervisor gives a pending row without attempts and ten allowed, unless the key was counted or the index has it |
| SchedulerQueue.WorkerQueues | internal/scheduler/jobs.go:67-195 | after a catalog poll thread polls are queued, after a thread poll downloads, for that board and thread, unless the index has the key |
| SchedulerQueue.JobsShaped | internal/store/migrations/0002_jobs.sql:29-31 | in every run each thread poll and download names a board and a thread, so the index covers it, and every other job a board only |
| SchedulerBreaker.StepGuarded | internal/scheduler/jobs.go:309-338 | with one worker per site every step keeps: an open circuit has enough failures and covers the cooldown since the last one |
| SchedulerBreaker.NoClaimWhileOpen | internal/scheduler/scheduler.go:158-182 | a claim on a site flagged open happens only after its end, with failures at the threshold |
| SchedulerBreaker.FailuresAreSpaced | internal/scheduler/backoff.go:33-47 | a failure after n ≥ threshold failures comes at least the n-th cooldown after the marked one |
| SchedulerBreaker.MarkIsLastFailure | internal/scheduler/jobs.go:309-315 | the mark is the time and number of the site's latest counted failure in the run |
| SchedulerBreaker.ConsecutiveFailuresSpaced | internal/scheduler/jobs.go:309-338 | failures n and n+1 from the threshold on are at least the cooldown of n apart |
| Crawl.CrawlPages | internal/scheduler/jobs.go:29-55 | the poll fails iff a page of the batch fails and all before it are non-empty; otherwise its summaries are the lists joined in page order up to the first empty page, and its cursor is 1 or one past the last page |
| Crawl.PollOutcome | internal/scheduler/jobs.go:29-55 | the same of the specification, for every fetch function |
| CrawlPolls.FailsIff | internal/scheduler/jobs.go:41-46 | on a history whose pages may each fail, a poll fails iff some page of its batch, no further than the first empty one, fails |
| CrawlPolls.SucceedsAlike | internal/scheduler/jobs.go:29-55 | and when it succeeds it moves the cursor as without failures and has every thread of its pages |
| Crawl.PollOfHistory | internal/scheduler/jobs.go:29-55 | on a history of n pages a poll never fails, collects all its pages, and moves the cursor on or back to 1 |
| Crawl.NextInRange | internal/scheduler/jobs.go:36-55 | the cursor stays in 1..n+1 |
| Crawl.LapCovers | internal/scheduler/jobs.go:29-55 | from any cursor, ceil(n/k) polls and one more fetch every page |
| Crawl.LapMisses | internal/scheduler/jobs.go:29-55 | from page 2, ceil(n/k) polls miss page 1 |
| Crawl.CycleCovers | internal/scheduler/jobs.go:29-55 | on the way from page 1, any floor(n/k)+1 polls fetch every page |
| Crawl.CycleMisses | internal/scheduler/jobs.go:29-55 | and one fewer miss page 1 |
| Crawl.TwoCyclesCover | internal/scheduler/jobs.go:29-55 | so when each poll continues the last, two cycles fetch every page |
| Crawl.LaggedPollsCover | internal/scheduler/jobs.go:29-55 | polls that each continue one of the d before them fetch every page within d·ceil(n/k)+1 |
| Crawl.LaggedPollsCoverFromFirst | internal/scheduler/jobs.go:29-55 | within d·floor(n/k)+1 when they come from page 1 |
| CrawlMachine.StepFresh | internal/scheduler/jobs.go:103-110 | every interleaved step keeps each cursor within three polls of the newest |
| CrawlCoverage.EveryPageIsFetched | internal/scheduler/enqueue.go:39-50 | in every run, 3·ceil(n/k)+1 consecutive successful polls fetch every page; less on new boards and without stale reads |
| CrawlCoverage.SlowRun | internal/scheduler/jobs.go:63-64 | there are runs of any length that poll each cursor three times before the next |
| CrawlCoverage.ShorterWindowMisses | internal/scheduler/jobs.go:103-110 | for each kind of run, some run has a window one poll shorter, or any shorter, that misses page 1 |
| CrawlCoverage.LeastWindow | internal/scheduler/jobs.go:29-110 | a number of polls suffices in all runs of a kind iff it is at least that one |
| CrawlCoverage.TwoCyclesSufficeIff | internal/scheduler/jobs.go:29-110 | two cycles suffice in every run iff n = 0 or n = k, on new boards iff n < 2k, without stale reads always |
| CrawlCoverage.TwoCyclesMissFirstPage | internal/store/migrations/0003_archive.sql:5 | from the default cursor 1, two pages, one a poll: six polls, two cycles, without page 1 |
| CrawlMachine.CursorFollowsSuccess | internal/scheduler/jobs.go:103-110 | the stored cursor is in 1..n+1 and is the last successful poll's next page; failures leave it unchanged |
| CrawlPolls.FailedPollKeepsCursor | internal/scheduler/jobs.go:42-46 | in every run a poll with a failing page leaves the stored cursor as it is, and its job waits with its own cursor or is given up |
| CrawlPolls.LoadedPollMovesCursor | internal/scheduler/jobs.go:29-110 | in every run a poll whose pages all load is logged, and the cursor about to be stored is the one its pages give |
| CrawlPolls.EveryThreadIsSeen | internal/scheduler/jobs.go:29-110 | however often pages fail, within the number of successful polls above some poll has every thread that a given page listed when it was polled |
| Threads.ThreadStore.UpsertThread | internal/store/threads.go:17-35 | inserts a live row or refreshes the one of that board and id, clearing its misses |
| Threads.ThreadStore.MarkThreadSeen | internal/store/threads.go:101-114 | sets that row's last-seen time, clears its misses and keeps the larger reply count |
| Threads.ThreadStore.MarkThreadArchived | internal/store/threads.go:116-124 | archives that row |
| Threads.ThreadStore.RecordThreadMissing | internal/store/threads.go:127-137 | adds one miss to that row and returns the number |
| Threads.SameMirrors | internal/store/store.go:289-309 | refreshing listed threads never changes whether a sibling board has a thread, so a page's mirror searches do not depend on their order |
| Threads.ThreadStore.RefreshListed | internal/scheduler/jobs.go:67-101 | every listed thread not mirrored elsewhere is live, without misses, seen now, with the most replies known or listed, created if new; nothing else changes |
| Threads.ThreadStore.ArchiveMissing | internal/scheduler/jobs.go:112-135 | every active thread of the board not listed counts a miss, and is archived when that reaches the limit |
| Threads.ThreadStore.LiveCatalogPass | internal/scheduler/jobs.go:67-135 | the effect of a whole pass on every row, old and new |
| Threads.MostIsLargest | internal/store/threads.go:101-114 | the reply count after a pass is the largest of the one known and those listed |
| Threads.ListedThreadIsStored | internal/store/store.go:289-309 | a listed thread is stored, live, seen now and with at least the listed replies unless a board of the family has it; boards outside the family never suppress it |
| Threads.MirroredThreadIsSkipped | internal/scheduler/jobs.go:71-84 | for a thread another board of the family has, no row of this board is made or changed |
| Threads.PassKeepsLimit | internal/scheduler/jobs.go:112-135 | a pass leaves no live thread of any board with as many misses as the limit, if none had before |
| ThreadRuns.RunKeepsLimit | internal/scheduler/jobs.go:112-135 | in every run of the statements from an empty table, by any number of workers, the same holds whenever no worker stands between counting a miss and archiving |
| Threads.CounterIsMisses | internal/scheduler/jobs.go:112-135 | over any history the counter of a live thread is the number of polls that missed it since it was last seen |
| Threads.MissesCounted | internal/store/threads.go:127-137 | misses in a row on a thread that stays live are all counted |
| Threads.ArchivedByPollIff | internal/scheduler/jobs.go:124-133 | a miss archives a live thread iff the limit's worth of misses came with no sighting in between |
| BlobIndex.BlobStore.RecordDownloadedFile | internal/store/blobs.go:74-115 | the whole effect of the transaction on blob and file row; fails iff the row does not exist |
| BlobIndex.BlobStore.RecordThumbDownloaded | internal/store/blobs.go:121-146 | stores the thumbnail without changing any count |
| BlobIndex.BlobStore.UpsertFile | internal/store/posts.go:100-149 | binds the row to a blob found by md5, else by sha1, else leaves its binding |
| BlobHistory.BindingOrder | internal/store/posts.go:112-149 | a blob with the reported md5 if there is one, else one with the sha1, else the binding stays |
| BlobHistory.DownloadsAreFoundByMd5 | internal/store/blobs.go:89-104 | in every run, after a download that reported an md5, a file listed with it is bound to a blob carrying it, whatever its sha1, unless a later download of the content reported another |
| BlobHistory.Md5Stays | internal/store/blobs.go:89-104 | in every run a blob keeps its md5 until a download of its content reports another |
| BlobHistory.ThumbPathStays | internal/store/blobs.go:138-143 | in every run the first thumbnail path of a blob stays |
| BlobHistory.RowsOnlyGain | internal/store/blobs.go:106-113 | in every run file rows, their flags and their being bound are never taken back |
| BlobIndex.DownloadKeepsCountsIff | internal/store/blobs.go:74-115 | a download keeps every count equal to its referring rows iff the download is safe |
| BlobIndex.BindingKeepsCountsIff | internal/store/posts.go:112-149 | rebinding keeps them iff the row is not fully downloaded, nothing was found, or its own blob was |
| BlobIndex.ThumbKeepsCounts | internal/store/blobs.go:117-146 | thumbnails keep them |
| BlobIndex.FaithfulRunsAreConsistent | internal/store/blobs.go:68-115 | if downloads are full ones, each row always yields the same content and bindings agree, every count is right in every reachable state |
| BlobIndex.RunConsistentIff | internal/store/blobs.go:68-115 | the counts are right throughout a run iff each of its steps is safe |
| BlobIndex.ChangedContentBreaksCounts | internal/scheduler/jobs.go:207-218 | a run that breaks them: a row downloaded in full twice, with different contents |
| BlobIndex.ChangedBindingBreaksCounts | internal/store/posts.go:112-149 | another: a downloaded row whose platform hash later names another blob |
| BlobIndex.CountsCoverDownloads | internal/store/blobs.go:74-115 | with no assumption, the counts never total less than the fully downloaded rows |
| Dsl.ToSqlWhere | internal/search/dsl.go:398-422 | the loop's text and arguments are the joined conditions of the kept filters, numbered by the values bound before each |
| DslMeaning.KeptIff | internal/search/dsl.go:424-516 | a filter is kept iff its field is known, its operator is one of eight, and it does not order a subquery |
| DslMeaning.FragmentMeans | internal/search/dsl.go:424-516 | each fragment, read back as SQL after any prefix of arguments, evaluates to the filter's meaning on every row |
| DslTheorems.JoinReads | internal/search/dsl.go:416-419 | the text joined with AND parses as the conjunction of exactly the fragments, negations included |
| DslTheorems.WhereMeansFilters | internal/search/dsl.go:398-516 | for every filter list and row, the parsed clause under its arguments has the three-valued truth of all filters together |
| DslTheorems.MeaningIsOwn | internal/search/dsl.go:398-516 | without quote filters each filter depends only on its own value, and the clause is always bound |
| DslTheorems.RowSelectedIff | internal/search/dsl.go:398-516 | a row is selected iff every kept filter is true of it |
| DslRows.FieldColumn | internal/search/dsl.go:518-569 | every documented field, in any case, is looked up in the column of the attribute it names, by a schema written apart from the compiler |
| DslRows.CaseIgnored | internal/search/dsl.go:520 | fields that differ in case only are looked up alike |
| DslRows.FilterAnswers | internal/search/dsl.go:424-569 | for every post and documented field, one filter's clause has the truth its operator asks of that attribute: equal, different, ordered, like with percent signs, found by text search, having files; unknown on null, turned round by negation |
| DslRows.SelectedIff | internal/search/dsl.go:398-569 | a list of such filters selects exactly the posts that answer every one of them |
| DslRows.QuoteMeans | internal/search/dsl.go:561-562 | a quote filter asks whether the post quotes the statement's first argument |
| DslTheorems.NegationComplements | internal/search/dsl.go:443-513 | flipping Negate on a kept filter swaps true and false on every row and keeps unknown |
| DslTheorems.PlaceholdersInOrderIff | internal/search/dsl.go:404-414 | left to right the placeholders are $1..$len(args) iff no kept filter is on the quote field |
| DslTheorems.BoundClauseIff | internal/search/dsl.go:398-422 | the clause has a truth, all its parameters bound, iff no kept filter is on the quote field or some filter binds a value |
| DslTheorems.QuoteAloneIsUnbound | internal/search/dsl.go:561-562 | so a lone quote filter has an unbound parameter on every row |
| Tokenizer.PreTokenize | internal/embedder/tokenize.go:117-140 | the loop with its flushes computes the specified tokens |
| Tokenizer.PreTokensLaws | internal/embedder/tokenize.go:117-148 | by the Unicode classes and code-point ranges: spaces and controls separate, punctuation and the three ideograph ranges stand alone, any other run is one token; these equations fix every text's tokens |
| Tokenizer.PreTokensKeepRunes | internal/embedder/tokenize.go:117-140 | joined, the tokens are the text without its blanks, and none is empty |
| TokenizerLaws.BytesJoin | internal/embedder/tokenize.go:117-140 | the bytes of joined runes are the joined bytes |
| TokenizerLaws.BytesOfOne | internal/embedder/tokenize.go:117-140 | and one rune's bytes are its encoding |
| TokenizerLaws.LoweredEach | internal/embedder/tokenize.go:150-156 | lowering maps each rune by itself |
| Tokenizer.FindEnd | internal/embedder/tokenize.go:91-101 | the shrinking candidate ends at the longest match |
| Tokenizer.Subword | internal/embedder/tokenize.go:84-113 | the ids of the token's greedy pieces, or its own id |
| Tokenizer.PiecesAreSplit | internal/embedder/tokenize.go:88-113 | the pieces follow one another to the end, each the longest vocabulary match at its place or one unmatched byte |
| Tokenizer.SplitIsUnique | internal/embedder/tokenize.go:88-113 | there is only one such split |
| TokenizerLaws.IdsMatch | internal/embedder/tokenize.go:88-113 | the ids of a token are those of pieces from its beginning to its end, each the longest found as it stands at the beginning and after "##" elsewhere, or an unknown id for one byte where nothing is found |
| Tokenizer.PiecesCoverToken | internal/embedder/tokenize.go:88-113 | joined in order, the pieces are the token's bytes |
| Tokenizer.ShortcutAgreesIff | internal/embedder/tokenize.go:85-87 | the whole-word shortcut agrees with the loop except on an empty token in the vocabulary |
| Tokenizer.UnknownBytes | internal/embedder/tokenize.go:103-107 | where nothing matches, each byte gives an unknown id |
| Tokenizer.OneIdPerRuneIff | internal/embedder/tokenize.go:103-107 | an unknown token gives one id a rune iff each of its runes is encoded in one byte |
| Tokenizer.CollectIds | internal/embedder/tokenize.go:50-58 | breaking early leaves a prefix of all ids, complete or at least as long as what fits |
| TokenizerLaws.AllIdsLaws | internal/embedder/tokenize.go:48-58 | the ids of joined token lists are joined, and one token's are those of its bytes, lowered first if the model asks |
| Tokenizer.Tokenize | internal/embedder/tokenize.go:48-80 | aborts iff the limit is under 2; otherwise position by position the start mark, the first maxLen-2 of all ids, the end mark, then padding that the mask leaves out |
| VectorText.FormatVector | internal/store/embeddings.go:175-186 | the numbers joined by commas in brackets |
| VectorText.ParseVector | internal/store/embeddings_canonical.go:12-27 | all parts between commas as numbers, or failure when one is none |
| VectorText.SplitJoin | internal/store/embeddings_canonical.go:17 | splitting at commas undoes joining with them |
| VectorText.TrimBrackets | internal/store/embeddings_canonical.go:13 | trimming takes off the printed brackets and nothing of the content |
| VectorText.SplitLaws | internal/store/embeddings_canonical.go:17 | a text without commas is one part, and a comma ends the parts before it |
| VectorText.TrimLaw | internal/store/embeddings_canonical.go:13 | trimming takes what is to be dropped off both ends and stops at the first character that is not |
| VectorText.PartsParseIff | internal/store/embeddings_canonical.go:17-26 | a list of parts parses iff each of them, trimmed of spaces, is a number, and then to these numbers in order |
| VectorText.LiteralShape | internal/store/embeddings.go:175-186 | a printed vector opens with [ and closes with ], has no bracket in between, and its parts between commas are the numbers in order |
| VectorText.RoundTrip | internal/store/embeddings_canonical.go:12-27 | parsing a formatted vector gives it back, the empty one included |

## Left out

- Floating point: scores, similarities, rates and vectors are real numbers; rounding and float32 overflow are not modelled.
- Store errors and crashes: every statement succeeds, and no job stays in progress because a worker died.
- Several workers per site in the circuit breaker and the crawl: their two-statement updates are proved for one, the default; job uniqueness is proved for any number.
- Supervisor polling intervals and stale-thread lists: when a supervisor counts and which thread it picks is free in the machine.
- SchedulerSafety.AtMostOneActiveJob: the machine has no step for the OCR, CLIP and Whisper inserts, which name site 0 and count nothing; for their keys the claim rests on the foreign key that rejects them.
- Raw-capture and download bodies: only their effect on job rows is modelled.
- Backoff.CooldownLaw: requires a poll interval whose 32-fold fits an int64, about nine years.
- NearDuplicates.DetectNearDuplicates: requires distinct file hashes, the primary key of the table it scans.
- Bursts.DetectBursts: requires the positive window the constructor sets; which boards have a recent event is a parameter.
- Bursts.OneEventPerBoard: supposes the table `anomaly_events`, which no migration creates.
- Threads.ArchivedByPollIff: counting a miss and archiving are one event, as they are with the default one worker per site.
- Threads.ThreadStore.LiveCatalogPass: a pass runs without statements of other workers in between; `ThreadRuns` interleaves single statements but says less of each row.
- The tokenizer's default ids for missing special tokens: all ids are parameters.
- Tokenizer.Tokenize: a text is its runes, so invalid UTF-8 has been replaced before the model begins.
- Dsl.ToSqlWhere: SQL is modelled as tokens, a subquery column being one; the database's type errors and its own field lookup are not, and case folding of field names is ASCII.
- DslRows.FilterAnswers: says nothing of the fields `vector`, `embedding` and `semantic`, whose column is none of the table's, nor of which tables the query joins; quote filters have `DslRows.QuoteMeans`.
- The DSL parser: `Parse` need not terminate on characters it does not know, so only its AST's compilation is modelled.
- The vector parameter map of the compiler: it is always empty.
- Cluster merging, canonical texts, continuity pointers, embedding freshness, percentile and volume statistics: the code keeps no strong invariant there, or one body shows it.
- HTTP, site adapters, HTML parsing, configuration merging, storage paths, user interface: plumbing or foreign code.
