# Plinius, modelled and proved

Plinius runs LLM benchmarks and prepares blind human reviews of the answers. This Dafny project
models the algorithmic kernels of that system and proves what they promise: the canonical JSON
behind every content id, the seeded blinding pipeline, the statistics, the concurrent executor,
the review workflow with its unblinding, the extraction of files from model output, and the
qualification verdict.

`dafny verify dfyconfig.toml` checks everything.

| module | models |
|---|---|
| `Js`, `Text`, `Order`, `Groups` | 16-bit strings, splitting and trimming, stable sorting, insertion-ordered grouping |
| `CanonicalJson`, `Snapshot` | canonical text, content hash, snapshot ids |
| `Shuffle`, `BlindId`, `Records`, `Select`, `Generator`, `Pairwise`, `PairwiseRedaction`, `WinRate`, `Attribution` | the blinding pipeline, from the generator to the win rates |
| `Algebra`, `Sums`, `Stats`, `Pearson`, `Spearman` | statistics over the reals |
| `WorkerPool` | the executor as interleaved steps of its workers |
| `Review`, `Aggregate` | the review state machine, and aggregation through the private mapping |
| `Blocks`, `Extract`, `Workspace` | the labelled-block parser, path validation and limits, destinations on disk |
| `Verdict` | repetition signals and the multi-threshold decision |

Conventions. Code that updates variables, arrays or objects is a method or a class whose contract
equates its result with a function; the lemmas then speak about that function. A comparator of the
source is a total preorder given as a parameter (`collate` stands for `localeCompare`); SHA-256 and
HMAC are parameters too, so every result holds for any digest. Square roots are any non-negative
number with the right square. A coin flip or a shuffle draw is a function of the 32-bit generator
state.

The code is modelled where it and its own comments differ, or where a promise holds only in part:

- `src/suite/hash.ts:4-6` promises equal hashes for equal values and, by use, different ones
  otherwise. A member named `__proto__` is lost without trace, because assigning that key sets the
  prototype (`CanonicalJson.TextIsExactWithoutProto` gives the exact condition). Integer-like keys
  come first in numeric order, which the model includes.
- `src/catalog/snapshot.ts:5-7` promises reproducible ids. Models whose ids tie under the collation
  keep their arrival order: the text behind the id is the same for every order of the models exactly
  when tied models have equal content (`Snapshot.OrderIndependentIffTiesEqual`).
- `src/framework/review.ts:63` says the comment is present once a task is REVIEWED. `advanceTask`
  reaches REVIEWED without one (`Review.ReviewedWithoutComment`). A call breaks the promise exactly
  when it advances an uncommented task from IN_REVIEW (`Review.CallCommentsIff`, over runs
  `Review.RunCommentsIff`).
- `src/coding/extract.ts:53` tests for UNC paths after absolute paths have been refused, so that
  reason is never reported (`Extract.UncNeverReported`).
- The key `benchmark::target` of `src/blind/select.ts:42-44` names one pair only while benchmark ids
  keep their schema (`Records.KeyNamesPair`, `Records.KeyClashes`); two given ids share a key exactly
  when one of them, with the separator, begins the other (`Records.KeysMeetIffPrefix`).
- `src/coding/workspace.ts:61-73` catches a failing exclusive write as a collision, but not a failing
  directory creation: an accepted path that needs a directory where an earlier accepted path is a
  file makes the whole call fail (`Workspace.WriteFiles` states exactly when;
  `Workspace.AcceptedMayConflict` is an instance).
- `src/blind/generator.ts:296-308` shows raw responses in the pairwise packet whatever the redaction
  policy (`Pairwise.PairwiseIgnoresRedaction`). The pairwise packet keeps what the exclude policy
  promises exactly when the answer of every run that is compared with another target's is clean
  (`PairwiseRedaction.AnswersCleanIffRivalsClean`, and
  `PairwiseRedaction.PacketCleanIffRivalsClean` for all scanned texts); otherwise a run kept out of
  the main packet is shown there (`PairwiseRedaction.ExcludedRunExample`).
- `src/blind/blind-id.ts:67-75` resolves no collisions between pairwise ids, and
  `src/blind/analysis.ts:285` keeps one entry per id. Choices are credited to the targets shown
  exactly when pairs that share an id show the same targets on the same sides
  (`Attribution.PacketCreditsIffSharedIdsAgree`); run ids with a `|` can break this under every key
  (`Attribution.CollidingIdsMiscredit`).
- `src/blind/analysis.ts:317-320` collects the win rates in a plain object, which keeps no target
  called `__proto__` (`WinRate.PairwiseWinRate`).

## Model

| member | source | states |
|---|---|---|
| CanonicalJson.CanonicalTextIdentifies | src/suite/hash.ts:10-27 | two values have one canonical text if and only if they are equal up to key order at every depth, `__proto__` members aside |
| CanonicalJson.TextIsExactWithoutProto | src/suite/hash.ts:20-24 | the text tells a value from every other `__proto__`-free value exactly when it has no such member itself |
| CanonicalJson.PrintInjective | src/suite/hash.ts:11-11 | JSON printing is injective, even followed by further text: equal outputs mean equal values and equal remainders |
| CanonicalJson.EqualSortsEqual | src/suite/hash.ts:14-27 | values equal up to key order sort to the same value |
| CanonicalJson.SortedDetermines | src/suite/hash.ts:14-27 | values that sort to the same value are equal up to key order |
| CanonicalJson.SortValue | src/suite/hash.ts:14-27 | the key loop builds the canonical value, whatever order the members come in |
| CanonicalJson.HashIdentifies | src/suite/hash.ts:30-33 | hash agreement means equality up to key order, for all values, if and only if the digest never collides on canonical texts |
| Snapshot.SnapshotIdCanonical | src/catalog/snapshot.ts:20-42 | the snapshot id ignores model order and key order when tied models have equal content |
| Snapshot.OrderIndependentIffTiesEqual | src/catalog/snapshot.ts:37-40 | all rearrangements of a list of models have one canonical text if and only if any two of them whose ids tie have equal content |
| Snapshot.TiedModelsKeepTheirOrder | src/catalog/snapshot.ts:37-40 | a list of any length with two tied models of different content has two orders with different texts |
| Shuffle.Rng.Next | src/blind/rng.ts:19-25 | one step of the state, and the output read off the new state, for any step and output functions |
| Shuffle.MakeRng | src/blind/rng.ts:17-26 | a seeded generator is a fresh one with mulberry32 as its step and output; the packets are built with it |
| Shuffle.MulberryAfter | src/blind/rng.ts:20-21 | after k outputs the state is a + k * 0x6d2b79f5 modulo 2^32 |
| Shuffle.MulberryPeriod | src/blind/rng.ts:20-21 | the states after j and k outputs agree if and only if j and k agree modulo 2^32 |
| Shuffle.NextDraw | src/blind/rng.ts:32-32 | the next draw over n slots is below n in every generator state |
| Shuffle.ShuffledKeeps | src/blind/rng.ts:29-36 | a shuffle is a rearrangement whatever is drawn |
| Shuffle.ShuffledInjective | src/blind/rng.ts:29-36 | on distinct items different draws give different orders |
| Shuffle.ShuffledReaches | src/blind/rng.ts:29-36 | every order is reached by some draws |
| Shuffle.ShuffleIsBijection | src/blind/rng.ts:29-36 | draw sequences and orders of distinct items correspond one to one |
| Shuffle.RunShuffles | src/blind/rng.ts:31-34 | the descending in-place loop shuffles the open slots by their draws and leaves the rest alone |
| Shuffle.ShuffleInPlace | src/blind/rng.ts:31-34 | the swaps on the array and the generator steps follow that loop |
| Shuffle.ShuffleItems | src/blind/rng.ts:29-36 | a fresh array holds the shuffled items, the input is untouched, one draw is used per slot but the last |
| BlindId.EncodedIsLead | src/blind/blind-id.ts:17-31 | ids of a length agree exactly when the leading five bits per character agree |
| BlindId.Encode | src/blind/blind-id.ts:17-31 | the overflowing 32-bit accumulator still yields the big-endian five-bit groups, at most floor(8n/5) of them |
| BlindId.BlindIdsInjective | src/blind/blind-id.ts:45-64 | exactly the given records get an id, each derived from its own record, no two alike |
| BlindId.BlindIdsIgnoreOrder | src/blind/blind-id.ts:53-53 | the assignment is the same for every order of the records |
| BlindId.FreeId | src/blind/blind-id.ts:54-59 | the collision loop ends at the first unused salt whenever some salt is unused |
| BlindId.AssignBlindIds | src/blind/blind-id.ts:45-64 | the loops compute that assignment on exactly the inputs for which every collision loop ends |
| BlindId.PlentifulAssignable | src/blind/blind-id.ts:53-62 | the assignment ends whenever the salts offer every record as many ids as there are records |
| BlindId.PairwiseBlindIdSymmetric | src/blind/blind-id.ts:67-75 | a pairwise id does not depend on which record is shown first |
| Records.KeyNamesPair | src/blind/select.ts:42-44 | benchmark ids without a doubled or final colon make the group key identify benchmark and target |
| Records.KeyClashes | src/blind/select.ts:42-44 | any other benchmark id shares its keys with a different benchmark |
| Records.KeysMeetIffPrefix | src/blind/select.ts:42-44 | two benchmark ids can share a key if and only if one of them followed by the separator begins the other followed by it |
| Records.KebabSeparable | src/suite/schema.ts:193-195 | ids the schema accepts are of the first kind |
| Groups.GroupBy | src/blind/select.ts:46-53 | the grouping loop keeps keys in order of first occurrence and each group in arrival order |
| Select.SlotsSpread | src/blind/select.ts:66-74 | stratified indices start at 0, stay in range, strictly increase, and lie floor(n/count) or ceil(n/count) apart |
| Select.PickStratified | src/blind/select.ts:66-74 | the picking loop takes the items at those indices, or all of a small group |
| Select.PickRandom | src/blind/select.ts:98-104 | one group's copy is shuffled with the shared generator and cut to the count |
| Select.GroupByTargetBenchmark | src/blind/select.ts:46-63 | the groups in order of first occurrence, each by repetition and then record id |
| Select.SamplesEveryGroup | src/blind/select.ts:94-116 | random and stratified modes take min(count, size) records from the records of every group key, none twice, nothing else |
| Select.SamplesEveryTarget | src/blind/select.ts:94-116 | with separable benchmark ids they do so for every benchmark and target |
| Select.SelectsOffered | src/blind/select.ts:80-118 | no mode selects a record that was not offered |
| Select.SelectedHaveResponses | src/blind/select.ts:21-40 | what filtering and selection let through comes from the records and has a response |
| Select.StratifiedIgnoresOrder | src/blind/select.ts:109-116 | a group's stratified sample is the same for every order of the records |
| Select.SelectRecords | src/blind/select.ts:80-118 | the method computes the selection; only the random mode moves the generator |
| Generator.RandomizedRearranges | src/blind/generator.ts:225-254 | randomizing keeps exactly the items, those of one benchmark together |
| Generator.RandomizedIgnoresOrder | src/blind/generator.ts:225-254 | the final order does not depend on the order in which items were built |
| Generator.SourceHashIgnoresOrder | src/blind/generator.ts:75-84 | the source hash is the same for every order of the records |
| Generator.PublicSetIgnoresOrder | src/blind/generator.ts:95-223 | the whole public packet is the same for every order of the records, and the mapping has the same entries |
| Generator.PublicSetIsKeptItems | src/blind/generator.ts:111-154 | the packet's items are those of the kept records, rearranged, contiguous per benchmark |
| Generator.EntriesMatchItems | src/blind/generator.ts:137-145 | no two items or entries share a blind id, items and entries correspond one to one by it, and each entry names the run whose answer the item shows |
| Generator.PublicSetIsBlind | src/blind/generator.ts:4-7 | the packet is unchanged if target, repetition and experiment of every record are erased |
| Generator.ExcludedItemsStayOut | src/blind/redact.ts:111-145 | under the exclude policy no scanned text of any item in the packet has a hit |
| Generator.RedactionsExact | src/blind/redact.ts:126-139 | the private manifest lists every hit on every record, kept or not, and nothing else |
| Generator.BuildItems | src/blind/generator.ts:107-146 | the loop collects the kept items, their entries and all redactions |
| Generator.RandomizeItems | src/blind/generator.ts:225-254 | grouping, ordering and the two seeded shuffles give the randomized items |
| Generator.GenerateBlindReviewSet | src/blind/generator.ts:95-223 | main packet, private mapping and manifest, with their hashes and seeds, for records that have responses |
| Pairwise.RepresentativesPerKey | src/blind/generator.ts:264-272 | one run per benchmark and target key, with the lowest repetition |
| Pairwise.AllRepresentedIffFaithful | src/blind/generator.ts:265-272 | every benchmark and target with a run is represented exactly when no two of them share a key |
| Pairwise.EachPairOnce | src/blind/generator.ts:285-322 | for any coin flips a benchmark gets m(m-1)/2 pairs, and two different targets are joined exactly once if both are represented, else never |
| Pairwise.TargetsCompared | src/blind/generator.ts:264-279 | without key clashes a target is compared exactly on the benchmarks it has a run for |
| Pairwise.SchemaIdsComparedOnce | src/blind/generator.ts:264-322 | with benchmark ids of the schema, two different targets are joined exactly once on a benchmark if both have a run there, and never otherwise |
| Pairwise.PairwiseIgnoresRedaction | src/blind/generator.ts:296-308 | the pairwise packet is the same under every redaction policy and scan |
| Pairwise.SidesMatch | src/blind/generator.ts:296-319 | for any coin flips the texts shown as A and B belong to the runs the entry names, two different targets of one benchmark |
| Pairwise.PairwiseIgnoresOrder | src/blind/generator.ts:256-336 | the pairwise packet and its mapping are the same for every order of the records |
| Pairwise.EarliestPerKey | src/blind/generator.ts:264-272 | the replace-if-earlier loop finds those runs |
| Pairwise.BuildPairwise | src/blind/generator.ts:256-336 | the nested loops with one coin flip per emitted pair compute the packet |
| Pairwise.GenerateReview | src/blind/generator.ts:95-223 | both packets, the mapping with its pairwise part and the manifest; the pairwise packet shares the main header and hashes and exists only if configured |
| PairwiseRedaction.ShownTexts | src/blind/generator.ts:285-322 | for any coin flips the texts the pairwise packet shows are those of the representatives that have another target to be compared with |
| PairwiseRedaction.AnswersCleanIffRivalsClean | src/blind/generator.ts:296-308 | for any coin flips no answer in the packet trips the scan if and only if no answer of such a representative does |
| PairwiseRedaction.PacketCleanIffRivalsClean | src/blind/redact.ts:116-124 | the same for every text of the kinds the redaction scans |
| PairwiseRedaction.RivalIffOtherTarget | src/blind/generator.ts:264-279 | without key clashes a representative has a target to be compared with if and only if another target has a run on its benchmark |
| PairwiseRedaction.ExcludedRunIsShown | src/blind/redact.ts:143-145 | under the exclude policy such a representative with a hit in its answer is absent from the main packet and shown in the pairwise one |
| PairwiseRedaction.ExcludedRunExample | src/blind/generator.ts:296-308 | two targets on one benchmark, one answer with a hit, for which that happens |
| WinRate.WinsAreConserved | src/blind/analysis.ts:281-321 | the wins of all targets add up to the matched reviews, their comparisons to twice that |
| WinRate.WinRatesInRange | src/blind/analysis.ts:317-319 | no target has more wins than comparisons and every win rate is in [0, 1] |
| WinRate.SidesDoNotMatter | src/blind/analysis.ts:293-315 | exchanging the sides of any comparisons, with mirrored choices, changes no tally |
| WinRate.PairwiseWinRate | src/blind/analysis.ts:281-321 | the tally loop yields exactly the compared targets, `__proto__` aside, each with wins, comparisons and win rate |
| Attribution.PairwiseUnblindingIsFaithful | src/blind/analysis.ts:285-315 | with distinct pairwise ids, tallies through blind ids equal the tallies read off the runs shown, for any coin flips and choices |
| Attribution.PacketCreditsIffSharedIdsAgree | src/blind/analysis.ts:285-315 | all choices are credited to the targets shown if and only if pairs that share a blind id show the same targets on the same sides |
| Attribution.PairIdsMayCollide | src/blind/blind-id.ts:67-75 | the run ids `a|b`, `c` and `a`, `b|c` get one pairwise id under every key |
| Attribution.CollidingIdsMiscredit | src/blind/blind-id.ts:67-75 | four runs of four targets for which some choices are credited to targets that were not shown |
| Pearson.FactorSign | src/commands/compare.ts:94-94 | each factor under the root is non-negative, and zero exactly for a constant series |
| Pearson.CauchySchwarz | src/commands/compare.ts:93-94 | the squared numerator never exceeds the value under the root |
| Pearson.PearsonBounded | src/commands/compare.ts:83-97 | the value is in [-1, 1], the root exists, and it is zero exactly for a constant series |
| Pearson.PearsonExtreme | src/commands/compare.ts:83-97 | the value is 1 exactly for points on a rising line and -1 exactly for points on a falling one |
| Spearman.ComputeRanks | src/blind/analysis.ts:72-77 | the rank loop fills the array with the ranks |
| Spearman.RanksPermute | src/blind/analysis.ts:72-77 | ranks are a permutation of 1..n, ties included |
| Spearman.SpearmanBounded | src/blind/analysis.ts:69-83 | the value is in [-1, 1], 1 exactly for equal rankings and -1 exactly for reversed ones |
| Spearman.ComputeSpearman | src/blind/analysis.ts:69-83 | the accumulation loop computes that value |
| Stats.StatsBounds | src/experiment/stats.ts:15-34 | min, mean, median and max are in order, the variance is at most (mean-min)(max-mean), the deviation at most half the range and zero exactly when all values agree |
| Stats.StatsIgnoreOrder | src/experiment/stats.ts:19-33 | no field depends on the order of the values |
| Stats.VarianceBounded | src/experiment/stats.ts:22-22 | variance is between 0 and (mean-lo)(hi-mean) for values in [lo, hi] |
| WorkerPool.Reachable | src/utils/executor.ts:52-79 | every state of every schedule satisfies the pool invariant |
| WorkerPool.ClaimsInOrder | src/utils/executor.ts:60-61 | under every schedule the indices 0, 1, 2, ... are claimed in order, each once |
| WorkerPool.InFlightBound | src/utils/executor.ts:52-52 | at most min(concurrency, n) tasks run at one time, each claimed and not yet settled |
| WorkerPool.RunsAreShort | src/utils/executor.ts:60-81 | every schedule ends within three steps per task and two per worker |
| WorkerPool.WorkerProgress | src/utils/executor.ts:54-79 | a worker that is not done can always take exactly one step |
| WorkerPool.FinishedIsMap | src/utils/executor.ts:81-82 | when all workers are done the results are a sequential map of the tasks, failures included, if and only if a worker was asked for or there is nothing to do |
| WorkerPool.Shared.Advance | src/utils/executor.ts:54-79 | the code between two awaits is one step of the model |
| WorkerPool.ExecuteWithConcurrency | src/utils/executor.ts:42-83 | under an arbitrary scheduler the executor ends with result i in slot i |
| Review.RunClimbs | src/framework/review.ts:31-41 | over any calls a task keeps its identity and climbs one state per successful call, at most four |
| Review.StatesOnlyAdvance | src/framework/review.ts:162-183 | between any two moments of a run no state moves back |
| Review.CommentOnce | src/framework/review.ts:175-183 | a comment comes from the single successful submission, and its task is then REVIEWED or FINALIZED |
| Review.CommentStays | src/framework/review.ts:162-183 | a comment is never replaced |
| Review.ReviewedWithoutComment | src/framework/review.ts:162-169 | calls that bring a fresh task to REVIEWED without a comment |
| Review.CommentIffSubmitted | src/framework/review.ts:162-183 | a task created without a comment has one if and only if some call submitted one for it |
| Review.CallCommentsIff | src/framework/review.ts:162-183 | one call leaves "a reviewed task has a comment" true if and only if it was true and the call does not advance an uncommented task from IN_REVIEW |
| Review.RunCommentsIff | src/framework/review.ts:162-183 | a run leaves it true if and only if it was true and no call of the run, in the state it meets, does that |
| Review.CountsCoverTasks | src/framework/review.ts:186-190 | the state counts sum to the number of tasks |
| Review.ReviewSet.FindTask | src/framework/review.ts:155-159 | the search loop finds the first task with the blind id |
| Review.ReviewSet.AdvanceTask | src/framework/review.ts:162-169 | the legal transition is made, anything else is refused and changes nothing |
| Review.ReviewSet.SubmitReview | src/framework/review.ts:175-183 | the comment is attached and the task reviewed, only from IN_REVIEW and only if the comment is valid |
| Review.ReviewSet.StateCounts | src/framework/review.ts:186-190 | the counting loop counts every state |
| Review.Replay | src/framework/review.ts:162-183 | any history of calls on the object is a run of the specification |
| Aggregate.CreateReviewSet | src/framework/review.ts:112-153 | tasks and mapping entries of the runs in id order, under their assigned blind ids |
| Aggregate.CreateIgnoresOrder | src/framework/review.ts:112-136 | review set and mapping are the same for every order of the runs |
| Aggregate.AttributionSurvives | src/framework/aggregate.ts:40-57 | after any calls every task still maps to the model and category of its own run |
| Aggregate.UnblindingIsFaithful | src/framework/aggregate.ts:39-90 | after any calls, aggregating through blind ids equals aggregating directly over the runs |
| Aggregate.CategoriesRecombine | src/framework/aggregate.ts:73-89 | category counts sum to the model count and weighted category averages recombine to the model average |
| Aggregate.ReportIsComplete | src/framework/aggregate.ts:72-89 | exactly the models with a score appear, strictly in order, each with an average, and all scores are counted once |
| Aggregate.AggregateResults | src/framework/aggregate.ts:39-90 | the accumulator loops compute the aggregate, collected strengths and weaknesses included |
| Blocks.ParseLabeledBlocks | src/coding/extract.ts:131-176 | the nested loops end and return the files of the line-by-line definition |
| Blocks.CollectBlock | src/coding/extract.ts:162-168 | the inner loop collects up to the first closing fence or the end |
| Blocks.FencesAreNotMarkers | src/coding/extract.ts:139-147 | a line that opens a fence is never taken for a path marker |
| Blocks.LabelFound | src/coding/extract.ts:150-154 | a path label in the info string is found whatever note without an equals sign precedes it |
| Blocks.ParseUndoesPrint | src/coding/extract.ts:131-176 | files printed in labelled fences, with prose or marker lines between them, come back in order and identical |
| Blocks.SurvivesIffNoFenceInside | src/coding/extract.ts:162-171 | the files of a printed document come back, in order and identical, if and only if no line of any content closes a fence |
| Extract.AcceptedIffSafe | src/coding/extract.ts:46-66 | a path is accepted exactly when it has no forbidden unit or prefix and only plain segments |
| Extract.UncNeverReported | src/coding/extract.ts:51-53 | the UNC reason is never given |
| Extract.Extraction.PushFile | src/coding/extract.ts:68-102 | one candidate is accepted or refused with its reason; the call asks to stop only at the file or total limit |
| Extract.ExactlyOnePlace | src/coding/extract.ts:193-199 | each processed candidate is in exactly one of accepted and rejected, in order |
| Extract.ExtractionKeepsLimits | src/coding/extract.ts:68-102 | accepted paths are valid and distinct, all limits hold, the byte total is exact |
| Extract.TruncationOnlyAtLimit | src/coding/extract.ts:193-199 | extraction stops early only at a valid new candidate over a limit, otherwise all are processed |
| Extract.ExtractFiles | src/coding/extract.ts:181-202 | the loop over the files of the JSON envelope, or of the parsed blocks without one, computes that state and the truncation flag |
| Workspace.DestinationIsRootPlusSegments | src/coding/workspace.ts:61-64 | a validated path normalizes to the root followed by its own segments |
| Workspace.RootCheckIsPrefix | src/coding/workspace.ts:33-39 | the textual root check holds exactly for the root and what lies below it |
| Workspace.ValidatedStaysInside | src/coding/workspace.ts:33-39 | the root check never throws for a validated path |
| Workspace.DestinationsDiffer | src/coding/workspace.ts:62-62 | destinations agree exactly for equal paths |
| Workspace.ExtractionAccepts | src/coding/workspace.ts:59-63 | the files extraction delivers meet what the write loop relies on |
| Workspace.WriteFiles | src/coding/workspace.ts:61-73 | nothing on disk is overwritten, the new files are exactly those that found their place free, and the call fails exactly when a path needs a directory where a file already is |
| Workspace.AcceptedMayConflict | src/coding/workspace.ts:61-73 | two accepted files, `a` and `a/b`, make the call fail on a disk with no file and no directory below the root |
| Workspace.FlatFilesAllWritten | src/coding/workspace.ts:61-73 | with nothing in the way and no path below another, every file is written |
| Verdict.SummaryConsistent | src/evaluators/registry.ts:44-65 | status counts partition the checks, flags mean what they say, the blocking pass rate is 1 exactly without a blocking failure |
| Verdict.ErroredRunIsInfrastructure | src/experiment/verdict.ts:43-65 | a run with an errored check is an infrastructure failure, blocking failures notwithstanding |
| Verdict.VerdictIgnoresOrder | src/experiment/verdict.ts:87-216 | no field of the result depends on the order of the repetitions |
| Verdict.InfrastructureIsNeutral | src/experiment/verdict.ts:93-120 | sets with the same decidable repetitions, at least one, get the same status, violations and rates |
| Verdict.AddingInfrastructure | src/experiment/verdict.ts:93-142 | adding an infrastructure failure anywhere changes none of these |
| Verdict.StrictPassRate | src/experiment/verdict.ts:143-160 | with pass-rate threshold 1 a qualified set has no decidable blocking failure or missing verifier |
| Verdict.NoCatastropheAllowed | src/experiment/verdict.ts:161-165 | with no catastrophe allowed a qualified set has no decidable catastrophic repetition |
| Verdict.ClearingFailures | src/experiment/verdict.ts:143-201 | clearing failures keeps "qualified" if and only if a missing verifier is still accompanied by a blocking failure |
| Verdict.ClearingMayDisqualify | src/experiment/verdict.ts:143-152 | an instance of the exception: one missing verifier and one failure under lenient thresholds |
| Verdict.ClearingNeverDisqualifies | src/experiment/verdict.ts:143-201 | with no verifier missing, clearing a failure never loses "qualified" |
| Verdict.FailureMayQualify | src/experiment/verdict.ts:143-152 | an instance: under lenient thresholds "not available" is inconclusive where "fail" is qualified |
| Verdict.FailingGainsIff | src/experiment/verdict.ts:143-201 | a set that is not qualified becomes so by failing where checks could not run if and only if a missing verifier was the reason, a decidable check now fails, the catastrophe rate stays within its limit and the other thresholds were met already |
| Verdict.RatesConsistent | src/experiment/verdict.ts:96-120 | all rates are in [0, 1], passes and catastrophes exclude each other, and only an all-infrastructure set has rate 1 there |
| Verdict.Aggregate | src/experiment/verdict.ts:87-216 | the early returns and the pushed violations compute the result, reason included |

## Left out

- Backends, SDK wrappers, CLI commands, stores, Markdown writers, environment and git capture: input and output only.
- Rounding of floating-point numbers: the statistics, scores and rates are real numbers, so `NaN`, infinities and rounding errors are not covered; the generator and the encoder are exact 32-bit arithmetic.
- SHA-256 and HMAC: arbitrary functions, so no claim about collisions or secrecy of a digest is made.
- `localeCompare`: an arbitrary total preorder; results that need it to tell ids apart say so.
- Number printing in JSON: a number is the text printed for it, so 0 and -0 are one value; `undefined`, functions and `toJSON` do not occur.
- WorkerPool.ExecuteWithConcurrency: does not model a negative or fractional concurrency, for which creating the worker array throws; pauses may end at any time.
- Extract.ExtractFiles: what the JSON envelope parser finds in the text is a parameter, because `JSON.parse` is outside the model.
- Spearman.ComputeSpearman: takes series of one length, as its caller passes them.
- Workspace.WriteFiles: starts from whatever the fixtures left on disk; copying the fixtures, symbolic links and other failures of the file system are not modelled.
- Generator.GenerateBlindReviewSet: the standard rubric and the selection and filter settings are opaque texts; the scan for identity hits, the phrase replacement, language detection and artifact extraction are parameters.
- Verdict.Aggregate: violations and the reason are values with their numbers, not formatted text.
- `compareManifest`, lifecycle, routing, budget tracking, catalog filtering and diffing, cost totals: single-branch classifications and sums.
