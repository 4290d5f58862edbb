# AI Vocal Coach: a verified model

The system compares a sung take with a reference song. A Go API admits songs and takes onto two Redis
streams; a Python worker prepares songs, aligns takes with their reference, scores them and stores the
results. These Dafny modules model the parts of it whose correctness is not visible from one body, and
prove what the code and its documentation promise about them.

| module | models |
|---|---|
| `Basics`, `Statuses` | shared value types, Python's rounding, the statuses of an analysis |
| `Dtw`, `DtwTheorems` | the banded dynamic-time-warping kernel, its backtrack, and when it can fail |
| `TimeMaps` | the piecewise-linear time map and `refine_center` |
| `Align`, `AlignTheorems` | the two-level aligner, the start-offset search and what the stage accepts |
| `TwoLevel` | what an attempt, the start-offset scan and the stage are, by their inputs |
| `Pitch`, `PitchTheorems` | the pitch comparison and score, and key normalisation |
| `IntroComparison` | what the comparison reads after a start offset was found |
| `Runner`, `RunnerTheorems` | the pipeline runner: modes, groups, retries, interruption and resumption |
| `Lifecycle`, `LifecycleTheorems` | songs, analyses, both streams and the worker's hand as a transition system, and its invariant |
| `Effects` | what each step of the worker does, and how often a crashing job is tried |
| `Cancellation` | when a cancel is final, and which rows end up stuck |
| `Backend` | the API services, producers and job handlers as imperative code over that state |
| `Scheduling` | the scheduler's ticks, startup reclaim, priority and draining, as steps |
| `Worker` | the scheduler's loops over the store |
| `SuccessTail` | the durable writes that end a successful job, with crashes between any two |
| `RefreshTokens` | the refresh-token store with its expiring index sets |
| `RateLimiter` | the sliding-window limiter |
| `Vad` | the voice-activity mask, its spans, gated detection and pause regions |
| `QueuePositions` | queue positions, one SQL statement at a time |
| `Admission` | concurrent admission of analyses |
| `SongAdmission` | concurrent admission of songs, which share a row per content hash |

Conventions:

- Audio frames are an arbitrary type, the frame distance an arbitrary non-negative real function with
  `dist(x, x) = 0`, the cents function one with `cents(x, x) = 0`. Floating-point numbers are reals,
  infinity is explicit. Identifiers, stream ids and times are natural numbers.
- `argsort` may order equal scores in any way; an `UPDATE ... RETURNING` may return its rows in any order;
  both orders are parameters. Random tokens and ids are parameters that were never used before.
- A stage attempt, and how one delivery of a job ends (finished, refused, crashed before or after the row was
  marked processing), are parameters too. A crash covers a graceful interrupt and a worker death.
- In `Lifecycle` one service call is one step, and a handler's terminal writes plus the acknowledgement are
  one step. Delivering an entry and handling it are separate steps: between them the one worker has it in
  hand, and handles it whatever happened to the stream or the row meanwhile. The length a cheap pre-check
  read is a parameter, since it may be stale. `Backend` runs the same calls statement by statement and
  proves them to be those steps; `SuccessTail`, `Admission` and `SongAdmission` take the steps apart.
- A class method proved equal to a specification function is listed below next to the lemmas about that
  function.

Where the code and its documentation disagree, the code is modelled:

- After a start-offset search the emitted reference indices are relative to the cut reference, and the pitch
  stage looks them up in the uncut one (`IntroComparison.ComparisonDropsTheOffset`, concretely
  `IntroComparison.TritoneIntroIsMisread`; right all the same in `IntroComparison.RepeatedNoteIsReadRight`).
- A canceled analysis can still run to done, because the worker looks neither at the status nor at the stream
  once it has an entry: after a cancel of a row woken by its song, which has no recorded id, and after a cancel
  of a row whose entry is already in the worker's hand (`Cancellation.CancelIsFinal`). In the second case the
  row can even be left processing with no entry, which no request accepts and no worker finds
  (`Cancellation.StuckRowIsReachable`, `Cancellation.EveryoneHasAnEntryExactly`).
- A done row can become failed: a worker that dies between the done write and the acknowledgement often
  enough makes the next startup give the job up (`SuccessTail.DoneIsFinalExactly`).
- A startup reclaims one batch of a hundred pending entries that have been idle for long enough; what is younger
  or lies beyond is not read again by that worker (`Worker.Scheduler.RunUntilIdle`).
- An upload of audio somebody else is just uploading is answered with that row; if the other upload is then
  refused, its rollback deletes the row and any analysis on it (`SongAdmission.HandedRowIsGoneExactly`).
- Reuse of a rotated token revokes its family only within the grace period
  (`RefreshTokens.ReplayIsCaughtWithinGrace`).
- The waiting song's preparation jumps the line only if its entry is among the first hundred
  (`Scheduling.WaitingSongGoesFirst`).

## Model

| member | source | states |
|---|---|---|
| Dtw.BestIsLeast | worker/src/vocalcoach/dsp/dtw.py:51-114 | Reference for the kernel: the value of every in-band cell is the least total distance over all warping paths from (0, 0) to it that stay inside the band, and infinite exactly when there is none |
| Dtw.BandedDtwKernel | worker/src/vocalcoach/dsp/dtw.py:51-114 | The offset-indexed double loop fills its array so that every stored cell holds that least cost and every recorded direction leads to the predecessor attaining it |
| Dtw.FillRow | worker/src/vocalcoach/dsp/dtw.py:69-112 | One row of the kernel, cell by cell, from the finished row above |
| Dtw.CheapestPredecessor | worker/src/vocalcoach/dsp/dtw.py:87-108 | The strict comparisons pick a cheapest of the three neighbours and prefer the diagonal on ties |
| Dtw.DirectionExactly | worker/src/vocalcoach/dsp/dtw.py:87-108 | The code of a reached cell names a cheapest predecessor, and of equally cheap ones the diagonal before the upper and the upper before the left |
| Dtw.ReadsBest | worker/src/vocalcoach/dsp/dtw.py:78-100 | Reading the band with offset indexing yields the neighbour's cost, and infinity for a neighbour outside the band |
| Dtw.PathsCostAtLeastBest | worker/src/vocalcoach/dsp/dtw.py:51-114 | No in-band path to a cell is cheaper than the stored cost |
| Dtw.TraceIsCheapest | worker/src/vocalcoach/dsp/dtw.py:51-133 | Following the recorded directions gives an in-band path from (0, 0) whose distances sum to exactly the stored cost |
| Dtw.TraceIsLinked | worker/src/vocalcoach/dsp/dtw.py:117-133 | The directions met while walking back from a reachable cell are all defined and stay in the band |
| Dtw.Backtrack | worker/src/vocalcoach/dsp/dtw.py:117-133 | The backtrack loop terminates, never leaves the band, and returns exactly the traced path, start first |
| Dtw.FollowCodes | worker/src/vocalcoach/dsp/dtw.py:117-133 | The loop on i and j over the direction codes, with i + j decreasing |
| Dtw.BandedDtw | worker/src/vocalcoach/dsp/dtw.py:145-184 | `banded_dtw` as a whole: size guard, empty side, unreachable corner, no path, or the path with its distance divided by its length |
| DtwTheorems.PathLength | worker/src/vocalcoach/dsp/dtw.py:117-133 | Every path from (0, 0) to (n-1, m-1) has between max(n, m) and n+m-1 pairs |
| DtwTheorems.LeastPathIsCheapest | worker/src/vocalcoach/dsp/dtw.py:51-133 | A least-cost path is a cheapest alignment among all alignments inside the band |
| DtwTheorems.AcceptedPathIsCheapest | worker/src/vocalcoach/dsp/dtw.py:145-184 | Whatever `banded_dtw` returns is an alignment inside the band, cheapest among all of them, with its pairs numbering between max(n, m) and n+m-1 |
| DtwTheorems.OutcomeExactly | worker/src/vocalcoach/dsp/dtw.py:145-184 | One banded pass by its input: empty side, more than 50 000 000 cells, a cheapest alignment inside the band iff there is any, and otherwise a failed alignment |
| DtwTheorems.DistanceIsAMean | worker/src/vocalcoach/dsp/dtw.py:177-184 | The normalized distance is the mean of the returned pairs' distances and lies between the least and the greatest of them |
| DtwTheorems.WideningNeverCosts | worker/src/vocalcoach/dsp/dtw.py:69-114 | On the same centre the final cost never rises as the band widens |
| DtwTheorems.CoveringBandIsFullDtw | worker/src/vocalcoach/dsp/dtw.py:69-114 | Once the band covers both lengths the cost is that of unconstrained, full-matrix DTW |
| DtwTheorems.DiagonalReaches | worker/src/vocalcoach/dsp/dtw.py:159-175 | On the diagonal centre the corner is reachable iff the lengths differ by at most the band |
| DtwTheorems.DiagonalFailsExactly | worker/src/vocalcoach/dsp/dtw.py:153-175 | On the diagonal centre, past the size guard, `banded_dtw` raises AlignmentFailed iff a side is empty or the length difference exceeds the band |
| DtwTheorems.TornRowsUnreached | worker/src/vocalcoach/dsp/dtw.py:69-112 | Behind a centre step larger than the band allows no row is reachable |
| DtwTheorems.RowSpreads | worker/src/vocalcoach/dsp/dtw.py:69-112 | In an untorn staircase every in-band cell right of a reachable one is reachable |
| DtwTheorems.StaircaseFailsExactly | worker/src/vocalcoach/dsp/dtw.py:153-175 | For a non-decreasing centre from 0 to m and a band of at least 1, past the guard, it fails iff the first step exceeds band + 1 or a later one exceeds 2 * band + 1 |
| DtwTheorems.ZeroDiagonal | worker/src/vocalcoach/dsp/dtw.py:93-112 | When the diagonal is free the trace is the diagonal itself: ties never bend the path |
| TimeMaps.InterpMonotone | worker/src/vocalcoach/audio/timemap.py:36-43 | Piecewise-linear lookup through non-decreasing knots is non-decreasing, ends clamped |
| TimeMaps.InterpExactly | worker/src/vocalcoach/audio/timemap.py:36-43 | Lookup by its result: constant outside the knots, and between two of them dividing the step in the ratio in which the time divides the interval |
| TimeMaps.InterpIdentity | worker/src/vocalcoach/audio/timemap.py:36-43 | Looking up through identical knots returns the time itself inside their range |
| Basics.RoundNearest | worker/src/vocalcoach/dsp/pitch_scoring.py:29-31 | Rounding by its result: within a half, and even when two integers are equally near |
| TimeMaps.SortedReferenceTimes | worker/src/vocalcoach/audio/timemap.py:45-59 | The fine grid projected through a monotone map is monotone |
| TimeMaps.ProjectionFollowsPath | worker/src/vocalcoach/dsp/dtw.py:254-256 | For every monotone coarse path, from the take's side to the reference's: at a coarse frame on the path the projected frame is exactly its partner's, between two of them the nearest frame to the proportional point and between their partners, and outside the path the end's partner |
| TimeMaps.CenterFollowsPath | worker/src/vocalcoach/dsp/dtw.py:254-271 | Every row of the centre is the projected frame, clipped to the reference, plus its share of the gap the path leaves at the end, to the nearest column; the last row is the last column |
| TimeMaps.RefineCenter | worker/src/vocalcoach/dsp/dtw.py:229-271 | The in-place loops of `refine_center` compute the projected, rounded, clipped and drift-corrected centre |
| TimeMaps.CenterMonotone | worker/src/vocalcoach/dsp/dtw.py:254-271 | Rounding, clipping and spreading the end gap keep the centre non-decreasing |
| TimeMaps.RefinedCenterIsStaircase | worker/src/vocalcoach/dsp/dtw.py:229-271 | For every monotone non-empty coarse path the centre has n + 1 rows, starts at 0, ends at m, never decreases and stays in [0, m] |
| Align.CoarsePass | worker/src/vocalcoach/pipeline/stages/align.py:159-165 | Striding, cropping and the coarse pass, with the mismatch flag and the length kept |
| TwoLevel.StridedExactly | worker/src/vocalcoach/pipeline/stages/align.py:155-165 | The stride picks exactly the frames at its multiples, the first included |
| Align.FinePass | worker/src/vocalcoach/pipeline/stages/align.py:167-189 | Projecting the coarse path and the refined pass |
| Align.AttemptAlign | worker/src/vocalcoach/pipeline/stages/align.py:140-190 | One two-level attempt against the reference cut at a start offset |
| TwoLevel.AttemptIsTwoLevel | worker/src/vocalcoach/pipeline/stages/align.py:140-190 | A successful attempt by its inputs: the coarse path is a cheapest alignment of the strided frames around the diagonal, both sides cut to the shorter iff their lengths differ by more than the band; the fine path is a cheapest alignment of the frames kept, around a centre that follows that coarse path; the flag says whether they were cut |
| Align.StartOffsetScoresKernel | worker/src/vocalcoach/dsp/dtw.py:187-205 | The score of offset k is the mean unwarped distance of the take to the reference from k on, infinite past its end |
| TwoLevel.OffsetScoreExactly | worker/src/vocalcoach/dsp/dtw.py:187-205 | A start offset's score by its inputs: infinite iff the take is empty or no reference frame is left; otherwise score times frames compared is the cost of the diagonal of the take against the reference from there on, and the score lies between any bounds on those distances |
| TwoLevel.OffsetsScanned | worker/src/vocalcoach/pipeline/stages/align.py:212-217 | The offsets scanned are those up to a minute that leave a frame |
| Align.FindReferenceStartOffset | worker/src/vocalcoach/pipeline/stages/align.py:193-235 | The fallback loop over the best-scoring offsets with its skips, early return and re-raise |
| Align.RunAlignStage | worker/src/vocalcoach/pipeline/stages/align.py:281-302 | Direct attempt, ceiling, search, and the offset 0 or found offset that is accepted |
| TwoLevel.StageAcceptsExactly | worker/src/vocalcoach/pipeline/stages/align.py:193-302 | The stage accepts an offset and an attempt iff it is the direct one within the ceiling of 0.45, or the direct one failed without being too large and this is the first fit among the three best-scoring positive offsets |
| AlignTheorems.AlignmentIsMonotone | worker/src/vocalcoach/dsp/dtw.py:117-133 | Both index lists of an alignment are non-decreasing |
| AlignTheorems.CoarsePassSucceeds | worker/src/vocalcoach/pipeline/stages/align.py:98-130 | After cropping, the coarse pass cannot fail on non-empty inputs that pass the size guard |
| AlignTheorems.FineCenterIsStaircase | worker/src/vocalcoach/pipeline/stages/align.py:180-189 | The centre handed to the refined pass is always a staircase, so its corner check always passes |
| AlignTheorems.AttemptFailsExactly | worker/src/vocalcoach/pipeline/stages/align.py:140-190 | Exactly when an attempt fails: an empty side, a size guard, or a projected centre that tears the refined band |
| AlignTheorems.SelfAlignment | worker/src/vocalcoach/dsp/dtw.py:93-133 | Aligning a sequence with itself while the band holds the diagonal gives the diagonal at cost 0 |
| AlignTheorems.IdentityProjection | worker/src/vocalcoach/dsp/dtw.py:229-271 | The diagonal coarse path projects every fine frame to within a stride of itself |
| AlignTheorems.PerfectAttempt | worker/src/vocalcoach/pipeline/stages/align.py:140-190 | Any non-empty curve aligned with itself through crop, coarse pass, `refine_center` and refined pass gives exactly the diagonal at cost 0 with no length mismatch |
| AlignTheorems.PerfectTakeAccepted | worker/src/vocalcoach/pipeline/stages/align.py:257-302 | The stage accepts such a take at offset 0 whatever the candidate order |
| AlignTheorems.TooLargeExactly | worker/src/vocalcoach/pipeline/stages/align.py:140-190 | Which attempts are too large, by the two lengths alone: either guard, at the cropped coarse size or at the fine size kept |
| AlignTheorems.NoCandidateTooLarge | worker/src/vocalcoach/pipeline/stages/align.py:216-235 | If the direct attempt passed the size guards, so does the attempt at every offset: a shorter reference never makes a pass larger |
| AlignTheorems.SearchTakesFirstAcceptable | worker/src/vocalcoach/pipeline/stages/align.py:216-235 | The search loop, over any attempts, returns the first acceptable candidate in score order; if it re-raises the error it was given no candidate is acceptable, and a different error means a candidate was too large |
| AlignTheorems.AcceptedWithinCeiling | worker/src/vocalcoach/pipeline/stages/align.py:281-302 | Every accepted alignment is within the ceiling, is the outcome of an attempt at its own offset, and a positive offset is taken only after the direct attempt failed |
| AlignTheorems.RejectionIsTheOriginal | worker/src/vocalcoach/pipeline/stages/align.py:193-235 | A rejected take always raises the direct attempt's own failure |
| AlignTheorems.ZeroScoreComesFirst | worker/src/vocalcoach/pipeline/stages/align.py:216-224 | The only positive offset that scores zero comes first in any argsort order, or right behind offset 0 |
| AlignTheorems.IntroIsRecovered | worker/src/vocalcoach/pipeline/stages/align.py:193-235 | If the reference is an intro followed by the take, the intro's length is in range and no other positive offset scores zero, and the direct attempt failed, the search returns exactly that length with the diagonal at cost 0, whether or not offset 0 scores zero too |
| AlignTheorems.FarTakeIsRejected | worker/src/vocalcoach/pipeline/stages/align.py:281-302 | A take every frame of which is further than the ceiling from every frame of the reference is rejected, directly and at every start offset |
| Pitch.AlignAndCompare | worker/src/vocalcoach/dsp/pitch_scoring.py:34-64 | The append loop builds the aligned reference and the per-frame deviations |
| Pitch.LowerMeanScoresHigher | worker/src/vocalcoach/dsp/pitch_scoring.py:29-31 | A smaller mean deviation never scores lower |
| PitchTheorems.ScoreExactly | worker/src/vocalcoach/dsp/pitch_scoring.py:29-31 | A mean of c cents scores 100 - c to a tenth, and 0 from a semitone on |
| PitchTheorems.MeanAbsExactly | worker/src/vocalcoach/dsp/pitch_scoring.py:50-64 | The mean absolute deviation is a single value's own size, and of two lists the means weighted by their lengths |
| PitchTheorems.PresentExactly | worker/src/vocalcoach/dsp/pitch_scoring.py:50-64 | Exactly the frames with a deviation are compared, each once and in order |
| PitchTheorems.PitchScoreWithin | worker/src/vocalcoach/pipeline/stages/pitch.py:55-71 | The pitch score is 0 when nothing was compared and otherwise lies between the scores of the largest and the smallest deviation |
| PitchTheorems.ConstantlyOffScores | worker/src/vocalcoach/pipeline/stages/pitch.py:55-71 | A take off by c cents, sharp or flat, wherever it is compared scores 100 - c to a tenth, and 0 from a semitone on |
| Pitch.RunAlign | worker/src/vocalcoach/pipeline/stages/align.py:272-302 | The whole stage: a take with too few voiced frames is rejected before anything is aligned |
| PitchTheorems.NoVoiceExactly | worker/src/vocalcoach/pipeline/stages/align.py:272-279 | The stage hears no voice iff fewer than one frame in twenty is voiced; otherwise it is the alignment |
| Pitch.PerfectTakeScores100 | worker/src/vocalcoach/pipeline/stages/pitch.py:55-71 | End to end: a take identical to its reference is rejected for having no voice iff less than a twentieth of it is voiced, and otherwise is accepted at offset 0, compared frame with equal frame, and scores 100 |
| Pitch.PerfectTakeIsItsOwnMatch | worker/src/vocalcoach/pipeline/stages/pitch.py:55-71 | A take identical to its reference, however little of it is voiced: the alignment is accepted at offset 0, every frame is compared with itself, and the score is 100, or 0 when no frame is voiced |
| IntroComparison.ReadsAMatch | worker/src/vocalcoach/pipeline/stages/align.py:305-319 | The time map rebuilt from the emitted index lists reads, for every recording frame on the path, a reference index the path matched with that frame |
| IntroComparison.ComparisonDropsTheOffset | worker/src/vocalcoach/pipeline/stages/pitch.py:61-64 | For every accepted alignment: where the aligned frame is reference[f + offset] the comparison reads reference[f]; the two agree on the whole take iff the reference repeats itself that much later at every index read, and always at offset 0 |
| IntroComparison.RecoveredIntroComparesFromTheStart | worker/src/vocalcoach/pipeline/stages/align.py:305-319 | End to end for a recovered intro: the stage accepts its length, the cut reference gives back the take, and the comparison reads the take iff the uncut reference also begins with it |
| IntroComparison.TritoneIntroIsMisread | worker/src/vocalcoach/dsp/pitch_embedding.py:25-43 | A concrete take after a tritone intro: the stage accepts it at offset 1, and the comparison reads the intro |
| IntroComparison.RepeatedNoteIsReadRight | worker/src/vocalcoach/pipeline/stages/align.py:216-235 | The other side concretely: a note against itself, a tritone and itself again is accepted at offset 2, offset 0 being skipped, and the comparison reads the note |
| Pitch.OrderedIsSorted | worker/src/vocalcoach/pipeline/stages/key_normalization.py:71-80 | The sorted values are the same values in order |
| PitchTheorems.QuartileExactly | worker/src/vocalcoach/pipeline/stages/key_normalization.py:71-80 | Quartiles by order statistics: the right parts of the two neighbouring values |
| PitchTheorems.MedianExactly | worker/src/vocalcoach/pipeline/stages/key_normalization.py:71-80 | The median is the mean of the two middle values |
| Pitch.MedianMinimises | worker/src/vocalcoach/pipeline/stages/key_normalization.py:71-80 | The median minimises the sum of absolute deviations |
| Pitch.MedianShiftIsBest | worker/src/vocalcoach/pipeline/stages/key_normalization.py:71-92 | Removing the median shift leaves no larger a mean deviation than removing any other shift |
| Pitch.KeyShiftNeverLowersPitch | worker/src/vocalcoach/pipeline/stages/key_normalization.py:71-92 | An applied shift has at most the original mean deviation and at least the original score |
| PitchTheorems.KeyShiftExactly | worker/src/vocalcoach/pipeline/stages/key_normalization.py:64-92 | A shift is applied iff transposing is eligible, the median lies between the limits and the quartiles are close enough together; the adjusted mean and score are those of the deviations less the median |
| PitchTheorems.ShiftedExactly | worker/src/vocalcoach/pipeline/stages/key_normalization.py:82-92 | Removing a shift subtracts it from every deviation |
| Pitch.TransposedTakeScores100 | worker/src/vocalcoach/pipeline/stages/key_normalization.py:71-92 | Whatever the alignment: if all compared voiced frames deviate by one interval, the shift is applied iff eligible and the interval lies between the limits, and then it scores 100 |
| IntroComparison.TransposedAlignmentScores100 | worker/src/vocalcoach/pipeline/stages/key_normalization.py:71-92 | For a take accepted at offset 0 without a length mismatch whose matched voiced frames are all one interval apart, key normalisation finds that interval, applies it iff eligible and between the limits, and then it scores 100 |
| Runner.RunEntryWithRetries | worker/src/vocalcoach/pipeline/runner.py:367-375 | A single stage or a group |
| Runner.RunStageWithRetries | worker/src/vocalcoach/pipeline/runner.py:404-432 | The retry loop computes the specified outcome |
| Runner.RunGroupWithRetries | worker/src/vocalcoach/pipeline/runner.py:377-402 | Gathering the members' first tries, then settling them in order, computes the specified outcome |
| Runner.StageTries | worker/src/vocalcoach/pipeline/runner.py:404-432 | A stage is decided by its first try that is not a transient failure, or by the last allowed one, the third in all: a success is recorded, a failure of a required stage is its error, of an optional one a recorded skip |
| Runner.MemberTries | worker/src/vocalcoach/pipeline/runner.py:377-402 | Likewise for a group member, with at most four tries |
| Runner.OptionalNeverFails | worker/src/vocalcoach/pipeline/runner.py:404-432 | An optional stage never fails a run, alone or in a group |
| Runner.GroupFailsWithTheFirst | worker/src/vocalcoach/pipeline/runner.py:377-402 | A group fails iff some member does, with the error of the first such member in group order |
| Runner.GroupResults | worker/src/vocalcoach/pipeline/runner.py:377-402 | A group that succeeds has exactly one result per member, in member order, each the member's own outcome |
| Runner.NextEntry | worker/src/vocalcoach/pipeline/runner.py:279-359 | One entry of a run: it fails the run with its own error and saves nothing, or its results come first and the rest runs with them in its context |
| RunnerTheorems.ModeKeepsExactly | worker/src/vocalcoach/pipeline/runner.py:237-259 | The mode filter keeps exactly the stages that list the mode, in order, and leaves no empty group |
| RunnerTheorems.NoModeKeepsAll | worker/src/vocalcoach/pipeline/runner.py:237-259 | Without a mode every entry is active |
| RunnerTheorems.RemainingExactly | worker/src/vocalcoach/pipeline/runner.py:222-234 | What remains is exactly the stages not saved yet, in order |
| RunnerTheorems.RunsExactly | worker/src/vocalcoach/pipeline/runner.py:279-359 | A run goes through exactly the stages of its mode that are not saved yet, in the order of the pipeline |
| RunnerTheorems.OnlyItsModeRuns | worker/src/vocalcoach/pipeline/runner.py:305-348 | Every announcement and every save of a run is for a stage of its mode that was not saved before; an announcement carries the stage's place among the active stages and their number |
| Runner.GroupResumes | worker/src/vocalcoach/pipeline/runner.py:222-234 | A group cut after any number of saved members finishes with the same results |
| Runner.RunResumes | worker/src/vocalcoach/pipeline/runner.py:222-359 | A run resumed from any prefix of its saved results saves exactly the missing ones, in order, with the same end |
| Runner.ResumeEquivalence | worker/src/vocalcoach/pipeline/runner.py:279-359 | However often a run is stopped between entries or killed between two saves, inside a group too, the writes, the results and the end are those of one uninterrupted run |
| Runner.PositionOfUnique | worker/src/vocalcoach/pipeline/runner.py:307-313 | With unique names the position of the k-th stage is k + 1 |
| Runner.NumberingIsSequential | worker/src/vocalcoach/pipeline/runner.py:307-348 | Every save of every interrupted and resumed history carries its own position 1..total and names the stage that comes next |
| Runner.Run | worker/src/vocalcoach/pipeline/runner.py:279-359 | The loop itself: what it saves, publishes and returns, stop requests included, against the run it specifies |
| Runner.SaveResults | worker/src/vocalcoach/pipeline/runner.py:338-348 | Saves one entry's results, each with the stage that comes next |
| Runner.PublishMembers | worker/src/vocalcoach/pipeline/runner.py:332-334 | Announces each member with its position and the total |
| LifecycleTheorems.InvAlways | worker/src/vocalcoach/queue/handler.py:155-210 | Every state reached by any sequence of requests, deliveries, outcomes, crashes, reclaims and give-ups satisfies the lifecycle invariant |
| LifecycleTheorems.StepKeeps | worker/src/vocalcoach/queue/consumer.py:119-144 | Every single action keeps it |
| LifecycleTheorems.NobodyIsForgotten | worker/src/vocalcoach/queue/prep_handler.py:142-225 | In every reachable state: a queued analysis has exactly one entry on analyses:run; a processing one has exactly one iff its recorded entry, if any, still exists; a waiting one waits for a song that is pending or processing with exactly one entry on songs:prep |
| LifecycleTheorems.ReferenceIsAlwaysCached | worker/src/vocalcoach/queue/handler.py:297-307 | Every entry of analyses:run, and the one in the worker's hand even if it was deleted meanwhile, belongs to a row whose song has a cached reference, so the missing-reference error is never raised |
| LifecycleTheorems.EnqueueKeeps | api/internal/service/analysis/enqueue.go:33-149 | Submitting, waiting, admission and the rollback after a lost race keep the invariant |
| LifecycleTheorems.RetryKeeps | api/internal/service/analysis/retry.go:32-82 | The three-way retry decision keeps it |
| LifecycleTheorems.CancelKeeps | api/internal/service/analysis/cancel.go:21-36 | Canceling keeps it |
| LifecycleTheorems.AddSongKeeps | api/internal/service/song/service.go:64-88 | Admitting a song keeps it |
| LifecycleTheorems.RetryPrepKeeps | api/internal/service/song/prepare.go:21-39 | Restarting a failed preparation keeps it |
| LifecycleTheorems.HandleRunKeeps | worker/src/vocalcoach/queue/handler.py:155-210 | Handling the entry in hand, finished, refused or crashed, keeps it whether or not the entry still exists |
| LifecycleTheorems.HandlePrepKeeps | worker/src/vocalcoach/queue/prep_handler.py:142-173 | A preparation that finishes and wakes its rows, fails with them, or crashes keeps it |
| LifecycleTheorems.PrepReadyKeeps | worker/src/vocalcoach/queue/prep_handler.py:213-218 | Waking publishes one entry for each waiting row and no second entry for any row |
| LifecycleTheorems.GiveUpRunKeeps | worker/src/vocalcoach/queue/consumer.py:233-258 | Giving up on an analysis keeps it |
| LifecycleTheorems.GiveUpPrepKeeps | worker/src/vocalcoach/queue/prep_handler.py:175-182 | Giving up on a preparation keeps it |
| LifecycleTheorems.StatusMachine | api/internal/repository/postgres/analysis_repository.go:108-227 | No row disappears, a row changes status only by an action that concerns it and along the drawn transitions, and loses its place in line only by its own retry, which sends it to the very back |
| LifecycleTheorems.NewestIsLast | api/internal/repository/postgres/analysis_repository.go:60-70 | A newly submitted analysis is behind every other and changes none of them |
| Effects.DeliverRunExactly | worker/src/vocalcoach/queue/consumer.py:87-117 | Delivering hands out the oldest entry nobody was given yet, counts its first delivery and changes nothing else |
| Effects.HandleRunExactly | worker/src/vocalcoach/queue/handler.py:155-210 | Handling the entry in hand: done, failed, processing or unchanged by how it ended, the entry gone iff the handler got through, and no other row or entry touched |
| Effects.GiveUpRunExactly | worker/src/vocalcoach/queue/consumer.py:233-258 | Giving up: an entry delivered more than three times goes, and its row fails if it still exists; any other is left alone |
| Effects.HandlePrepExactly | worker/src/vocalcoach/queue/prep_handler.py:142-218 | A preparation that finishes makes its song ready with a cached reference and queues exactly its waiting rows with an entry each behind all others; one that is refused fails the song and those rows; one that dies at most marks the song |
| Effects.GiveUpPrepExactly | worker/src/vocalcoach/queue/prep_handler.py:175-182 | Giving up on a preparation delivered more than three times fails its song and exactly its waiting rows |
| Effects.ReclaimExactly | worker/src/vocalcoach/queue/consumer.py:187-231 | One round of startup reclaim: up to three deliveries the entry is delivered once more and handled, beyond that its row fails without another try |
| Effects.TriedFourTimes | worker/src/vocalcoach/queue/consumer.py:187-231 | A job that kills its worker every time is tried four times in all, no more and no fewer |
| Effects.ReclaimPrepExactly | worker/src/vocalcoach/queue/consumer.py:187-231 | Likewise for a preparation |
| LifecycleTheorems.DoneIsTerminal | worker/src/vocalcoach/repositories/postgres.py:371-382 | With a handler's terminal writes and the acknowledgement as one step, no sequence of actions changes the status of a done row; SuccessTail.DoneIsFinalExactly takes that step apart |
| Cancellation.StaysExactly | api/internal/service/analysis/cancel.go:12-20 | "Canceled is terminal" is false of the code: a canceled (or processing) row keeps its status in every continuation iff no entry of it is on analyses:run or in the worker's hand |
| Cancellation.CancelIsFinal | api/internal/service/analysis/cancel.go:21-36 | In the caller's terms: a successful cancel is final iff the row was waiting, or had a recorded entry that was not in the worker's hand |
| Cancellation.UndeliveredCancelIsFinal | api/internal/service/analysis/cancel.go:21-36 | Canceling a row whose recorded entry was not delivered yet is final |
| Cancellation.ReachableFinishes | worker/src/vocalcoach/queue/consumer.py:119-144 | Any row with an entry on the stream or in the worker's hand can be run to done, whatever its status |
| Cancellation.WokenIsNotFinal | worker/src/vocalcoach/queue/prep_handler.py:213-216 | First failing case: a row woken by its song has no recorded id, so canceling it is never final |
| Cancellation.CanceledCanReturn | worker/src/vocalcoach/queue/prep_handler.py:213-216 | That case concretely: a run of four actions after which a successful cancel is not final |
| Cancellation.CanceledInHand | worker/src/vocalcoach/queue/scheduler.py:159-166 | Second failing case: the recorded entry is in the worker's hand; the cancel deletes it, yet the row ends done, or processing for good if the worker dies after marking it |
| Cancellation.StuckRowIsReachable | worker/src/vocalcoach/queue/scheduler.py:159-166 | That case concretely: a run of five actions after which a successful cancel is not final, and a death after the mark leaves the row processing with no entry in every continuation |
| Cancellation.StrandsExactly | worker/src/vocalcoach/repositories/postgres.py:217-231 | A step strands a row iff the worker dies after marking the row of an entry deleted while in its hand; no step rescues one |
| Cancellation.StrandedForever | api/internal/service/analysis/cancel.go:21-36 | A stranded row is processing with no entry in every continuation |
| Cancellation.EveryoneHasAnEntryExactly | worker/src/vocalcoach/queue/handler.py:155-210 | Over every run: all queued and processing analyses have an entry iff no step of the run stranded a row |
| Backend.Store.Enqueue | api/internal/service/analysis/enqueue.go:33-149 | The service method, statement by statement, is the lifecycle step. It succeeds iff the song exists, its preparation has not failed and, if it is ready, both lengths seen are under the cap; then the row waits, or is queued last with exactly one new undelivered entry recorded; each refusal has its own error and leaves rows and streams as they were |
| Backend.Store.Retry | api/internal/service/analysis/retry.go:32-82 | Likewise. It succeeds iff the row exists and is failed, its song exists, the preparation has not failed and, if the song is ready, the length seen is under the cap; then the row waits without a recorded entry, or is queued last with exactly one new undelivered entry recorded; each refusal has its own error and changes nothing |
| Backend.Store.Cancel | api/internal/service/analysis/cancel.go:21-36 | Likewise. It succeeds iff the row is queued or waiting, and then changes its status alone and removes exactly its recorded entry |
| Backend.Store.AddSong | api/internal/service/song/service.go:64-88 | Likewise. A known song is answered as it is; a new one is admitted, with one new entry, iff the stream is under its cap, and otherwise leaves nothing |
| Backend.Store.RetryPrep | api/internal/service/song/prepare.go:21-39 | Likewise. It succeeds iff the length seen is under the cap and the preparation of an existing song has failed, which is then pending again with one new entry |
| Backend.Store.EnqueueRunIfUnderLimit | api/internal/queue/producer.go:95-131 | The atomic check-and-add script |
| Backend.Store.HandleAnalysis | worker/src/vocalcoach/queue/handler.py:155-210 | What one delivery writes to the row and whether it is terminal |
| Backend.Store.ProcessRunEntry | worker/src/vocalcoach/queue/consumer.py:119-144 | Handling the entry in hand and acknowledging it when terminal is the lifecycle step, for an entry deleted after delivery too |
| Backend.Store.WakeReady | worker/src/vocalcoach/queue/prep_handler.py:213-218 | One statement moves the rows, then the loop publishes each of them |
| Backend.Store.HandleSongPrep | worker/src/vocalcoach/queue/prep_handler.py:142-173 | What one preparation writes, in its three endings |
| Backend.Store.ProcessPrepEntry | worker/src/vocalcoach/queue/consumer.py:119-144 | Handling a preparation and acknowledging it is the lifecycle step |
| Backend.Store.GiveUpRun | worker/src/vocalcoach/queue/consumer.py:233-258 | Giving up fails the row, if the entry still exists, and removes the entry |
| Backend.Store.GiveUpPrep | worker/src/vocalcoach/queue/consumer.py:233-258 | Giving up fails the song and its waiting rows and removes the entry |
| Worker.Scheduler.Tick | worker/src/vocalcoach/queue/scheduler.py:100-116 | One priority evaluation picks the specified job and performs exactly its step |
| Worker.Scheduler.ProcessPriorityPrep | worker/src/vocalcoach/queue/scheduler.py:118-139 | Claims, scans the pending batch and runs the waiting song's entry |
| Worker.Scheduler.ProcessNextPrep | worker/src/vocalcoach/queue/scheduler.py:141-157 | Claims and runs the oldest pending entry |
| Worker.Scheduler.ReadNextRun | worker/src/vocalcoach/queue/consumer.py:87-117 | Delivers at most one entry, the oldest undelivered |
| Worker.Scheduler.OldestWaiting | worker/src/vocalcoach/repositories/postgres.py:467-496 | Finds a waiting row no other waiting row precedes |
| Worker.Scheduler.FindPending | worker/src/vocalcoach/queue/scheduler.py:130-135 | The scan returns the first pending entry of the song that still exists |
| Scheduling.ClaimTakesFront | worker/src/vocalcoach/queue/consumer.py:146-163 | Claiming takes the next entries in stream order |
| Scheduling.PendingIsFront | worker/src/vocalcoach/queue/consumer.py:165-179 | After a claim the pending batch is exactly the front of the stream |
| Scheduling.AnalysesGoFirst | worker/src/vocalcoach/queue/scheduler.py:107-110 | A preparation runs only when no analysis is undelivered, and analyses run oldest first |
| Scheduling.WaitingSongGoesFirst | worker/src/vocalcoach/queue/scheduler.py:112-139 | The longest-waiting analysis's song jumps the line iff its entry is in the first batch; otherwise the oldest entry runs |
| Scheduling.OtherwiseInStreamOrder | worker/src/vocalcoach/queue/scheduler.py:141-157 | With nobody waiting, preparations run in stream order |
| Scheduling.TickDrains | worker/src/vocalcoach/queue/scheduler.py:100-157 | Every tick that finds work, with a terminal handler, strictly decreases entries plus waiting rows, although a finished preparation publishes new analyses; and it cancels, strands and leaves behind nothing |
| Scheduling.IdleIsAllThatIsLeft | worker/src/vocalcoach/queue/scheduler.py:86-88 | When a tick finds nothing, songs:prep is empty, every song is ready or failed, every entry left on analyses:run was delivered before, and every row is over, stranded, or owns such an entry |
| Scheduling.DrainedExactly | worker/src/vocalcoach/queue/scheduler.py:86-88 | An idle state has everything over iff no entry was left behind and no row is stranded |
| Scheduling.ReclaimLeavesExactly | worker/src/vocalcoach/queue/consumer.py:187-231 | After one startup reclaim with terminal handlers the entries still behind are exactly those not idle for long enough or behind a whole batch of 100 that are, and no row was canceled or stranded |
| Worker.Scheduler.Drain | worker/src/vocalcoach/queue/scheduler.py:85-98 | Ticking with terminal handlers until idle or stopped takes at most as many ticks as there was work, ends early iff a stop was requested, loses nothing, and when not stopped leaves only what was behind or stranded before |
| Worker.Scheduler.RunUntilIdle | worker/src/vocalcoach/queue/scheduler.py:79-98 | From every state of the invariant, startup reclaim of the entries idle for long enough and ticks with terminal handlers, unless stopped, end with everything over iff the reclaim read every entry that still exists and no row was stranded |
| Worker.Scheduler.ReclaimStuckRuns | worker/src/vocalcoach/queue/consumer.py:187-231 | The reclaim loop over the list that was read once is the fold of single reclaims, for any list of pending entries |
| Worker.Scheduler.ReclaimStuckPreps | worker/src/vocalcoach/queue/consumer.py:187-231 | Likewise for the preparations, which lose nothing however they end |
| Scheduling.CrashingJobIsGivenUp | worker/src/vocalcoach/queue/consumer.py:187-258 | A job that crashes the worker every time is closed after at most four reclaims of its entry |
| SuccessTail.CrashReplayIsIdempotent | worker/src/vocalcoach/queue/handler.py:201-285 | However often and wherever the worker died between two writes, the delivery that gets through leaves exactly the row of a crash-free pass |
| SuccessTail.CurvesAreNeverLost | worker/src/vocalcoach/repositories/postgres.py:287-299 | At every point of every crash history each dense curve is staged or saved |
| SuccessTail.PassIsBetween | worker/src/vocalcoach/queue/handler.py:240-285 | Wherever a pass dies each column holds its old or its final value, and nothing is pruned before both curves are saved |
| SuccessTail.DoneIsFinalExactly | worker/src/vocalcoach/queue/consumer.py:207-209 | A job whose pipeline completed ends done iff it was acknowledged or was not yet delivered too often at the next startup; otherwise the give-up overwrites the status and keeps what is stored |
| SuccessTail.DoneIsOverwritten | worker/src/vocalcoach/queue/handler.py:212-219 | Concretely: four deaths between the done write and the acknowledgement, and a done row is marked failed |
| SuccessTail.ScorePhase | worker/src/vocalcoach/queue/handler.py:240-244 | Saving scores touches nothing else and a full pass saves every staged one |
| SuccessTail.AnalysisRecord.SaveScores | worker/src/vocalcoach/queue/handler.py:240-244 | The loop over the aspects writes exactly these updates, in order |
| SuccessTail.AnalysisRecord.Complete | worker/src/vocalcoach/queue/handler.py:201-210 | The handler's writes are exactly one pass, in order, and leave the row done and acknowledged with every staged score, curve and result saved, the snapshot of that result, the new versions, and the dense fields pruned |
| RefreshTokens.IndexAgreesWithTokens | api/internal/repository/redisrepo/refresh_token_store.go:80-88 | In every reachable state each live token is in its family's set and the family in its user's, both outlive it, and a family has at most one active token |
| RefreshTokens.AgreementNeedsShortGrace | api/internal/repository/redisrepo/refresh_token_store.go:33-36 | That agreement holds in every run iff the grace period is no longer than the tokens' life |
| RefreshTokens.StepAgrees | api/internal/repository/redisrepo/refresh_token_store.go:66-189 | Every operation keeps it |
| RefreshTokens.ReuseKillsTheFamily | api/internal/repository/redisrepo/refresh_token_store.go:112-117 | After reuse detection no token of the family is ever rotated again, even once the revocation mark expires |
| RefreshTokens.ReplayIsCaughtWithinGrace | api/internal/repository/redisrepo/refresh_token_store.go:92-94 | After any later actions on the store, replaying a rotated token is detected as reuse iff the token was not removed by a revocation and the grace period has not passed; otherwise it is merely unknown |
| RefreshTokens.RotatesOnce | api/internal/repository/redisrepo/refresh_token_store.go:95-140 | A token rotates successfully at most once in any run |
| RefreshTokens.IssuedLivesItsLife | api/internal/repository/redisrepo/refresh_token_store.go:66-90 | With nothing else happening, an issued token can be rotated for exactly its life |
| RefreshTokens.SuccessorLivesItsLife | api/internal/repository/redisrepo/refresh_token_store.go:95-140 | So can the successor a rotation issues, while its family is not revoked |
| RefreshTokens.RevokedForALife | api/internal/repository/redisrepo/refresh_token_store.go:170-189 | A family's revocation mark lasts exactly a token's life |
| RefreshTokens.RevokeAllLeavesNone | api/internal/repository/redisrepo/refresh_token_store.go:151-168 | Logging out everywhere ends exactly the user's own live tokens |
| RefreshTokens.RevokeFamilyIsExact | api/internal/repository/redisrepo/refresh_token_store.go:170-189 | Revoking a family ends exactly that family's live tokens |
| RefreshTokens.RefreshTokenStore.Rotate | api/internal/repository/redisrepo/refresh_token_store.go:95-140 | The method has the specified outcome and state, and its successor is active in the same family |
| RefreshTokens.RefreshTokenStore.RevokeAllForUser | api/internal/repository/redisrepo/refresh_token_store.go:153-168 | The loop over the families revokes their union |
| RefreshTokens.RefreshTokenStore.RevokeOne | api/internal/repository/redisrepo/refresh_token_store.go:170-189 | The loop over the hashes deletes them all and marks the family |
| RefreshTokens.RefreshTokenStore.Issue | api/internal/repository/redisrepo/refresh_token_store.go:66-90 | A fresh token rotates next |
| RateLimiter.KeyIsTheLog | api/internal/repository/redisrepo/analysis_rate_limiter.go:45-73 | After any calls the key stands for the full log of accepted times: trimming and key expiry forget nothing still in the window |
| RateLimiter.AllowedExactly | api/internal/repository/redisrepo/analysis_rate_limiter.go:49-75 | A call is allowed iff fewer than the limit were accepted within the window |
| RateLimiter.NeverOverLimit | api/internal/repository/redisrepo/analysis_rate_limiter.go:40-76 | No interval of the window's length ever contains more than the limit of accepted calls |
| RateLimiter.RetryAfterIsExact | api/internal/repository/redisrepo/analysis_rate_limiter.go:53-65 | With no other accept, waiting any shorter than the advised time is denied again and waiting exactly that long is allowed |
| RateLimiter.AnalysisRateLimiter.Allow | api/internal/repository/redisrepo/analysis_rate_limiter.go:40-76 | The method has the specified verdict and new key, and touches no other user's key |
| Vad.FoldShortGaps | worker/src/vocalcoach/dsp/vad.py:42-54 | The run-length loop masks a frame off iff it lies in a maximal silent run of at least the minimum length |
| Vad.MinRunExactly | worker/src/vocalcoach/dsp/vad.py:42-54 | A minimum run is the nearest whole number of frames to its duration, but at least one |
| Vad.VoicedMask | worker/src/vocalcoach/dsp/vad.py:23-54 | Nothing is voiced without energy; otherwise exactly the frames of long silent runs are off |
| Vad.VoicingIsUnique | worker/src/vocalcoach/dsp/vad.py:23-54 | That promise determines the mask |
| Vad.VoicedSpans | worker/src/vocalcoach/dsp/vad.py:57-69 | The spans are the maximal voiced runs, in order, and cover every voiced frame |
| Vad.SpansRebuildMask | worker/src/vocalcoach/dsp/vad.py:57-69 | The spans rebuild the mask exactly |
| Vad.SpansAreUnique | worker/src/vocalcoach/dsp/vad.py:57-69 | Only one list of spans fits a mask |
| Vad.DetectGated | worker/src/vocalcoach/dsp/pitch_detection.py:15-42 | The result has the mask's length, is empty on every masked frame, and holds each span's own detections at the span's own offsets |
| Vad.DetectionsStayInPlace | worker/src/vocalcoach/dsp/pitch_detection.py:15-42 | With a detector that reads every frame off one sample, a voiced frame has what is read off its own sample of the whole recording, and a masked one nothing |
| Vad.FillSpan | worker/src/vocalcoach/dsp/pitch_detection.py:33-41 | One span's detections are written in place and nothing else is touched |
| Vad.PauseFrames | worker/src/vocalcoach/pipeline/stages/breath.py:41-51 | The pauses are exactly the long silent runs, in order |
| Vad.PauseRegions | worker/src/vocalcoach/pipeline/stages/breath.py:29-52 | Likewise in seconds, and none without energy |
| Vad.PausesAreTheGatedFrames | worker/src/vocalcoach/pipeline/stages/breath.py:29-52 | With the same minimum run a frame is inside a pause iff the mask gates it off |
| Vad.PausesAreInvertedSpans | worker/src/vocalcoach/pipeline/stages/breath.py:29-52 | The pauses are the voiced spans of the inverted mask |
| QueuePositions.RecalculationIsDense | api/internal/repository/postgres/analysis_repository.go:234-266 | Recalculating gives every queued row its rank by submission, uses exactly the places 1..k, and reports exactly the rows it changed |
| QueuePositions.EveryPlaceTaken | api/internal/repository/postgres/analysis_repository.go:236-240 | Every place from 1 to k is somebody's |
| QueuePositions.RankFollowsSeq | api/internal/repository/postgres/analysis_repository.go:236-240 | Ranks follow the submission order strictly |
| QueuePositions.StepKeeps | api/internal/repository/postgres/analysis_repository.go:60-266 | Every statement keeps: positions only on queued rows, in submission order, never better than the true rank; a wake or recalculation makes them dense |
| QueuePositions.PositionsFromEmpty | api/internal/repository/postgres/analysis_repository.go:60-266 | That holds over every run of statements |
| QueuePositions.StatementsExactly | worker/src/vocalcoach/repositories/postgres.py:397-445 | The worker's statements, row by row: a mark sets its own row's status and takes its place away, a failed preparation fails and a finished one queues exactly its waiting rows, after which every queued row has its rank |
| QueuePositions.AnalysisRepository.RecalculatePositions | api/internal/repository/postgres/analysis_repository.go:234-266 | The statement and the loop collecting its rows |
| QueuePositions.AnalysisRepository.WakeWaitingForReference | worker/src/vocalcoach/repositories/postgres.py:397-445 | The wake transaction: exactly the waiting rows are queued, keep their submission order, and all get a position |
| QueuePositions.AnalysisRepository.Cancel | api/internal/repository/postgres/analysis_repository.go:112-138 | Cancels iff queued or waiting, clears the position and changes no other row |
| QueuePositions.AnalysisRepository.Retry | api/internal/repository/postgres/analysis_repository.go:148-184 | Succeeds iff the row is failed, and then puts it behind everyone, without a place, changing no other row |
| Admission.NeverOverfull | api/internal/queue/producer.go:95-131 | For every interleaving of analysis submissions the stream is at most the cap plus the unconditional entries present |
| Admission.RefusedLeaveNothing | api/internal/service/analysis/enqueue.go:115-135 | A caller answered "queue full" has left no row, no file and no entry |
| Admission.StepKeeps | api/internal/service/analysis/enqueue.go:33-149 | Every atomic move of a submission keeps both facts for every caller |
| Admission.AnswersExactly | api/internal/queue/producer.go:95-131 | The script refuses exactly at the cap and otherwise adds exactly the caller's entry; the check before it turns away by the length it sees |
| SongAdmission.StepKeeps | api/internal/service/song/service.go:72-88 | Likewise for song uploads, which share a row per content hash: every move keeps what each upload has at each point, whose row each hash is, and that a handed row was created by an upload |
| SongAdmission.AnswersExactly | api/internal/repository/postgres/song_repository.go:61-88 | Likewise for uploads; known audio is answered with the row of its content hash, new audio gets its own |
| SongAdmission.NeverOverfull | api/internal/queue/producer.go:95-131 | For every interleaving of uploads songs:prep is at most the cap plus the unconditional entries present |
| SongAdmission.RefusedLeaveNothing | api/internal/service/song/service.go:79-87 | An upload answered "queue full" has left no row, no file and no entry of its own |
| SongAdmission.HandedRowIsGoneExactly | api/internal/service/song/upload.go:65-79 | The row an upload of known audio was answered with is gone iff the upload that created it was itself refused |
| SongAdmission.RollbackTakesExactly | api/internal/repository/postgres/song_repository.go:49-59 | A rollback takes the caller's own row and no other, the analyses on it and no others, and so the row another upload was answered with iff it was that one |
| SongAdmission.SharedRowIsRolledBack | api/migrations/00004_create_analyses_table.sql:6 | Concretely: a second uploader is told the song exists and submits an analysis, then the first is refused and the row and the analysis are gone |
| Admission.BoundIsTight | api/internal/queue/producer.go:78-93 | The bound is attained: cap-many admitted entries and any number of unconditional ones on top |

## Left out

- Audio decoding, source separation, transcription, pitch detectors, loudness and ffmpeg: foreign numeric code; a detector is an arbitrary function.
- The pitch embedding, `log2` and decibels: abstract distance, abstract cents, and a loudness threshold given as a factor of the peak.
- IEEE rounding: costs, scores and times are reals, so a sum that differs only by rounding is not distinguished.
- Subprocesses, timeouts, thread counts and signals: a stage attempt is an oracle; the stop signal is a flag.
- The result fields of `AlignStage.run` other than path, offset and mismatch flag.
- The confidence step-downs and the weighted total: the `WEAK_ALIGNMENT` threshold of 45.0 can never be met by an accepted alignment, which costs at most 0.45; the rest is read off one branch.
- `breath._score` and the other aspect stages: one comparison loop over regions, without a further law.
- Ownership checks, HTTP, WebSocket, mail, OAuth, translations, configuration and the web front end.
- Account deletion, the file sweep and YouTube import: side cases of the same lifecycle.
- The rate-limit check inside `Enqueue`, file probing and transcoding: they only refuse earlier.
- LifecycleTheorems.InvAlways: one worker process; does not cover a Redis or database error in the middle of a call, which the code leaves as a known gap: a wake between the status read and the insert of an enqueue, a crash between the wake commit and its publishes, a crash between acknowledging and deleting an entry, or a failed write while giving up; admitting a song is one step there, so the rollback of a row another upload was answered with (`SongAdmission.RollbackTakesExactly`) is not among its runs.
- LifecycleTheorems.DoneIsTerminal: terminal writes and the acknowledgement are one step there; `SuccessTail.DoneIsFinalExactly` states when a done row survives deaths between them.
- Cancellation.CancelIsFinal: a cancel is one step; a delivery between its row write and its `XDEL` is the second failing case again.
- Worker.Scheduler.RunUntilIdle: assumes one worker and handlers that return a terminal result; how long an entry has been idle is read once, at startup; a preparation that keeps crashing is picked again on every tick.
- Worker.Scheduler.Tick: the idle wait of `run_forever` is not modelled, since without new requests it delivers nothing.
- SuccessTail.CrashReplayIsIdempotent: timestamps, published events and file cleanup are not modelled.
- RateLimiter.NeverOverLimit: times are whole milliseconds on a clock that never runs backwards, and the window is a whole number of seconds, so that the key's expiry is exact.
- RefreshTokens.AgreementNeedsShortGrace: a life or grace of zero is an immediate expiry here, where Redis would keep the key for good; the code's grace is 30 s.
- RefreshTokens.StepAgrees: each operation is atomic; the code reads, marks and issues in separate Redis calls.
- Vad.VoicedMask: a frame's loudness relative to the peak is compared as a factor instead of in decibels.
