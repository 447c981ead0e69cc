# Verification model of the video-composition backend

A Dafny model of the stateful and algorithmic core of the backend, with proofs of what it keeps.
`dafny verify dfyconfig.toml` checks the whole project.

**The fenced job protocol of Stage 5.1** (`JobProtocol`, `JobFrames`, `JobSafety`, `JobTheorems`,
`JobTokens`, `JobLedger`, `PlanLedger`, `QueueTheorems`, `QueueHistory`, `SlotHistory`, `JobExecutor`,
`JobQueue`).  A labelled
transition system over one plan row: any number of jobs, workers, queue callers and operators, one
atomic action for each SQL statement or transaction.  The fence UPDATE holds the row lock until commit,
so fence, plan-row write and commit are one action; the claim UPDATE and the SELECT of its token are
two; the cancelled write before a claim carries no token and is an action of its own; FAILED jobs can be
claimed again; the active-job read of a queue caller and its compare-and-swap are two.  Operator cancel
and retry are allowed in every status, since the status read before them may be out of date.  The
executor, its heartbeat and the queue caller are classes over a shared database whose state is at all
times the one the recorded run of the system reaches; between any two statements other sessions may
commit anything.  The ledgers read every column of jobs and plan off the history of events.

**Framing** (`Crop*`, `PathCheck`, `SafePaths`, `Keyframe*`, `Tracked*`, `PanVelocity`, `SceneFraming`).  Clamping,
interpolation, target fitting, the smoothing loop with detection losses, capping, and the path check
that decides whether a crop may be kept; over `real`.

**Captions to ASS** (`Bidi*`, `Caption*`, `Ass*`).  Direction resolution, wrapping, segmentation, overlap
trimming, per-word states, the escaper and the document, with a reader that follows the libass rule for
backslashes and override blocks.

**Intervals and selection** (`Analysis*`, `SceneCuts`, `Novelty`, `Candidate*`, `Proposal*`).  Analysis
plans, scenes, novelty suppression, operator-owned candidate rows and coarse proposals.

`Wrappers`, `Sequences`, `Sorting`, `Texts` and `Rounding` hold the shared parts.

## Where the code and its documentation differ

The model follows the code.  Each difference is a lemma with a concrete input, and where there is one
the exact condition under which the documented statement holds.

- At most one active job per envelope (`backend/app/composition/queue.py:1-9`) fails when a result write
  frees the slot before its job finishes (`ReleaseBeforeFinishLetsSecondJobIn`), and when a job is retried
  (`LoneRetryLetsSecondJobIn`).  It holds exactly under `AtMostOneByHistoryIff`; `DisciplineSuffices` gives
  a rule for releases and retries that is enough.
- Two workers can hold one token when a claim falls between a claim and its token read
  (`LateReadSharesToken`); tokens are unique exactly under `TokensAreUniqueIff`.
- A late reconciliation frees the slot of another job (`ReconcileFreesAnothersSlot`); a release frees its
  own job's slot exactly under `ReleaseFreesOwnSlotIff`.  A stale clear frees the slot of an active job
  after a retry (`StaleClearFreesRetriedJob`), exactly under `StaleClearFreesActiveIff`.
- Escaping (`backend/app/composition/ass.py:10-17`) lets a tag through when a dropped character hides its
  letter from the backslash: `HiddenTagIsALineBreak`, `EscapeRoundTripIff`.
- A token that ends in a backslash takes the brace of the block behind it, so emphasized captions show
  that block: `BackslashEventShowsItsBlock`, `EmphasisShowsTheSameLinesIff`.
- The pan velocity (`docs/STAGE_5_1_OPERATIONS.md:159-166`) is exceeded by up to an eighth, since the easing
  is above the identity on the upper half: `PanVelocityIsExceeded` gives such a step of the emitted crop,
  `EmittedPanIsKeptIff` the exact condition.
- The analysis rate can end below `min_fps` (`backend/app/composition/analysis.py:206-208`):
  `RateCanEndBelowFloor`, `FloorIsKeptIff`.  A footprint can be refused though the floor would fit:
  `TwoSpansRefusedThoughFloorFits`, `RefusedThoughFloorFits`, against `OneSpanRefusedIff`,
  `FewSpansRefused`.
- The count check of `_token_lines` never fails, and `_fallback_ranges` and the tail branch of
  `generate_proposals` are never reached: `TokenLinesPartition`, `RawRanges`.

## Model

| member | source | states |
|---|---|---|
| `JobTheorems.FencedHistory` | backend/app/composition/executor.py:187-273 | In every run, whatever is interleaved, a write that carries a token carries the version stored at that moment; the writes of one job come in nondecreasing version order; every claim has a version no earlier write had |
| `JobTheorems.ClosedVersionStaysClosed` | backend/app/composition/executor.py:275-300 | Once a version has been finished, cancelled or retried, no later write of that version is a claim, heartbeat, guarded plan-row write or finish: at most one finish per version, no result after a cancel |
| `JobTheorems.SupersededWorkerIsInert` | backend/app/composition/executor.py:83-103 | A worker, or its heartbeat thread, whose token is behind the stored version changes no job column, no plan column and leaves no event |
| `JobTheorems.SupersededWorkerNeverWrites` | backend/app/composition/executor.py:171-222 | From the moment it is superseded a worker stays superseded and appends nothing to the history, in every continuation |
| `JobTheorems.NewEventsAreTheActors` | backend/app/composition/executor.py:316-356 | Every durable change is recorded, at most one event a step, under the name of the party that made the step |
| `JobTheorems.TerminalJobIsFrozen` | backend/app/composition/executor.py:275-300 | No worker, heartbeat or queue step changes any column of a SUCCEEDED or CANCELLED job |
| `JobTheorems.TerminalJobStaysFrozen` | backend/app/api/app.py:2094-2137 | Over whole runs: only an operator action on that very job can move it out of SUCCEEDED or CANCELLED |
| `JobLedger.StatusAsLogged` | backend/app/composition/executor.py:275-300 | In every run a job has the status, failure and end that the last event to set its status names: SUCCEEDED after a success, FAILED with that failure after a failing finish, CANCELLED, QUEUED or RUNNING |
| `JobLedger.UnloggedIsUnchanged` | backend/app/composition/executor.py:224-300 | A job no event speaks of is as it was at first |
| `JobLedger.HeartbeatAsLogged` | backend/app/composition/executor.py:83-103 | The liveness column holds the time of the last effective claim or heartbeat of the job |
| `JobLedger.UnsignedKeepsTimes` | backend/app/composition/executor.py:83-103 | and without one in the run it is as at first, and so is the start |
| `JobLedger.ClaimDecides` | backend/app/composition/executor.py:233-262 | A claim takes QUEUED and FAILED jobs always, SUCCEEDED and CANCELLED ones never, a RUNNING one by its times |
| `JobLedger.RunningIsTakenIff` | backend/app/composition/executor.py:233-262 | A RUNNING job is taken from its worker exactly when its last claim or heartbeat in the run came before the deadline |
| `JobLedger.InheritedIsTakenIff` | backend/app/composition/executor.py:233-262 | One that came into the run running, and gave no sign in it, by the columns it came with |
| `JobLedger.IdleIsTakenIff` | backend/app/composition/executor.py:224-300 | By the last status event: enqueued, retried and failed jobs are taken, succeeded and cancelled ones are not |
| `JobLedger.UnclaimedFailureDecides` | backend/app/composition/executor.py:521-540 | A worker without a token fails exactly a job still QUEUED, with its failure and end, and frees the slot; else it changes nothing |
| `JobLedger.EndedIsClaimedAfterRetry` | backend/app/api/app.py:2094-2137 | A claim that follows a success or a cancellation of its job follows an operator retry in between |
| `PlanLedger.PlanAsLogged` | backend/app/composition/executor.py:316-356 | In every run the plan row shows the execution of its last execution event and the payload of its last result, as the history tells them |
| `JobTokens.VersionStaysIff` | backend/app/composition/executor.py:233-262 | Between two states of a run the version of a job stays the same exactly when no claim of that job falls between them |
| `JobTokens.TokensAreUniqueIff` | backend/app/composition/executor.py:224-273 | No two workers of a job ever hold the same token throughout a run exactly when between any two of their effective token reads there is an effective claim of the job |
| `JobTokens.PromptReadsIff` | backend/app/composition/executor.py:233-272 | Every read finds the version its own claim wrote exactly when no claim of the job falls between any claim and the token read of the same worker |
| `JobTokens.TokensFaithfulIff` | backend/app/composition/executor.py:233-272 | Throughout a run every held token is the version its holder claimed exactly when no claim of the job falls between any claim and the token read of the same worker |
| `JobTokens.OwnTokensAreUnique` | backend/app/composition/executor.py:224-273 | If no claim falls between a claim and its read, one falls between any two reads of different workers, so tokens are unique |
| `JobTokens.UniqueThoughLate` | backend/app/composition/executor.py:233-272 | The converse fails: a late read of a version whose claimer never reads leaves tokens unique |
| `JobTheorems.LateReadSharesToken` | backend/app/composition/executor.py:233-272 | Uniqueness fails: a cancel and retry between a claim and its token read lets two workers hold version 2 and both write the plan row |
| `JobSafety.StepKeeps` | backend/app/composition/executor.py:224-356 | Every step of every party keeps worker memory, won versions and the history consistent; versions never fall and RUNNING is entered only with a fresh version |
| `JobTheorems.RunKeeps` | backend/app/composition/executor.py:224-356 | The same over every finite run |
| `QueueTheorems.SlotConservation` | backend/app/composition/queue.py:167-194 | Enqueues plus adoptions of `active_job_id` balance its releases, each committed enqueue leaves exactly one job row, and enqueues never exceed releases by more than one |
| `QueueTheorems.StepConserves` | backend/app/composition/executor.py:316-356 | The balance is kept by every single step of worker, operator and queue caller |
| `QueueTheorems.LosingCallerLeavesNothing` | backend/app/composition/queue.py:240-259 | An enqueue commits exactly when the caller saw no active job and the slot is free; otherwise no row, plan column or event is left behind |
| `QueueHistory.ActiveAsLogged` | backend/app/composition/executor.py:275-300 | In every run a job is QUEUED or RUNNING exactly when the history says so: activated, and not finished, failed or cancelled since |
| `QueueHistory.EnqueueAloneIff` | backend/app/composition/queue.py:225-259 | A committed enqueue finds no active job exactly when none that was activated since its caller read the table still stands |
| `QueueHistory.AloneByHistory` | backend/app/api/app.py:2094-2137 | A retry or claim finds no other active job exactly when no other job has been activated without being finished, failed or cancelled since |
| `QueueHistory.AtMostOneByHistoryIff` | backend/app/composition/queue.py:1-9 | At most one QUEUED or RUNNING job throughout a run exactly when every enqueue meets the first condition and every retry and claim the second |
| `QueueHistory.DisciplineSuffices` | backend/app/composition/queue.py:1-9 | At most one job is active throughout a run whose slot is given up only when its job is no longer active, and whose retries and claims revive only the job that holds the slot |
| `QueueHistory.LoneRetryLetsSecondJobIn` | backend/app/api/app.py:2094-2137 | A retry while nothing else is active does not suffice: the slot stays free, and a caller that read before enqueues a second job |
| `QueueTheorems.ReleaseBeforeFinishLetsSecondJobIn` | backend/app/composition/queue.py:210-267 | The documented guarantee of at most one active job fails: the result write frees the slot while its job still runs, and a caller that read earlier wins the compare-and-swap |
| `SlotHistory.SlotAsLogged` | backend/app/composition/executor.py:316-356 | In every state of every run `active_job_id` is the job of the last write that took the slot, or empty if one has emptied it since |
| `SlotHistory.ReleaseFreesOwnSlotIff` | backend/app/composition/executor.py:316-347 | A worker release empties the slot whoever holds it; it was the slot of its own job exactly when the last write that concerned the slot put that job there |
| `SlotHistory.ReconcileFreesAnothersSlot` | backend/app/composition/executor.py:316-322 | After a cancel, a stale clear and a new enqueue, the late reconciliation of the cancelled job frees the slot of the new one, which is still queued |
| `SlotHistory.StaleClearFreesActiveIff` | backend/app/composition/queue.py:180-194 | A stale clear that empties the slot takes it from an active job exactly when that job was activated since the caller last read the table and still stands |
| `SlotHistory.StaleClearFreesRetriedJob` | backend/app/composition/queue.py:180-194 | A retry between the read and the clear: the slot of a job that is queued again is freed |
| `JobExecutor.Executor.FenceClaim` | backend/app/composition/executor.py:187-213 | The no-op UPDATE as a function of row and memory: matched, merely not RUNNING, or superseded and the claim lost |
| `JobExecutor.Executor.ClaimGuard` | backend/app/composition/executor.py:215-222 | The guard: refused once the claim is lost, fenced for an owner, and for anyone else open while the job is not RUNNING |
| `JobExecutor.Executor.ClaimIsCurrent` | backend/app/composition/executor.py:171-185 | The unfenced check, as one protocol step that may mark the claim lost |
| `JobExecutor.Executor.ClaimJob` | backend/app/composition/executor.py:224-273 | Succeeds exactly when the row was QUEUED or FAILED, or RUNNING with its liveness time, or failing that its start, before the deadline; the token is whatever the later SELECT finds |
| `JobExecutor.Executor.UpdateClaim` | backend/app/composition/executor.py:233-262 | The claim UPDATE in that case: a new version, RUNNING, heartbeat set to the time of the claim, failure cleared; else nothing |
| `JobExecutor.Executor.ReadToken` | backend/app/composition/executor.py:264-272 | The token SELECT after whatever other sessions did since the claim committed |
| `JobExecutor.Executor.FinishJob` | backend/app/composition/executor.py:275-300 | The row of the held RUNNING claim ends SUCCEEDED, FAILED with its failure or CANCELLED, as the outcome says; of any other claim nothing changes and it is marked lost |
| `JobExecutor.Executor.ReconcileCancelled` | backend/app/composition/executor.py:316-322 | Writes the cancelled row exactly when the guard without RUNNING lets it |
| `JobExecutor.Executor.ReconcileIfCancelled` | backend/app/composition/executor.py:324-347 | After a refused write: a reconciliation exactly when the claim stands and the job was seen cancelled, else nothing |
| `JobExecutor.Executor.MarkCancelled` | backend/app/composition/executor.py:324-333 | Writes exactly when the guard holds; refused, it reconciles or leaves the row to others |
| `JobExecutor.Executor.MarkFailed` | backend/app/composition/executor.py:335-347 | Releases the slot as FAILED exactly when the guard holds; refused, it reconciles or leaves the row to others |
| `JobExecutor.Executor.ClaimRow` | backend/app/composition/executor.py:349-356 | Adopts the slot and marks ANALYZING exactly when the guard holds |
| `JobExecutor.Executor.PersistUnderGuard` | backend/app/composition/executor.py:435-447 | The planner result is persisted in the transaction of its guard, or refused with no change |
| `JobExecutor.Executor.ShouldStop` | backend/app/composition/executor.py:358-359 | Stops on a cancelled job at once, otherwise exactly when the claim is no longer current |
| `JobExecutor.Executor.Execute` | backend/app/composition/executor.py:383-486 | Which outcome each answer of settings, inputs, cache and planner leads to, and the row write and matching job finish behind it, against any interference |
| `JobExecutor.Executor.ExecuteClaimed` | backend/app/composition/executor.py:397-486 | The same once the job is claimed |
| `JobExecutor.Executor.RunPlanner` | backend/app/composition/executor.py:433-482 | Planner raised, cancelled, refused or persisted, each with its row write and finish |
| `JobExecutor.Executor.RecordFailure` | backend/app/composition/executor.py:488-540 | Without a token fails exactly a job still QUEUED; with one acts only while the stored version is its own |
| `JobExecutor.Executor.RecordClaimedFailure` | backend/app/composition/executor.py:504-519 | A job seen RUNNING is failed, a cancelled one reconciled, any other left alone |
| `JobExecutor.LivenessHeartbeat.Renew` | backend/app/composition/executor.py:83-103 | Renews the liveness column of exactly the RUNNING claim it was started for |
| `JobExecutor.Database.Interleave` | backend/app/composition/executor.py:51-103 | Whatever other sessions and the heartbeat thread commit between two statements; the state stays one the protocol reaches |
| `JobQueue.QueueCaller.ActiveJob` | backend/app/composition/queue.py:143-153 | Returns a QUEUED or RUNNING job, or none only if the whole table has none |
| `JobQueue.QueueCaller.InsertAndClaim` | backend/app/composition/queue.py:240-259 | Job insertion and compare-and-swap commit together or roll back together |
| `JobQueue.QueueCaller.ClearStaleClaim` | backend/app/composition/queue.py:180-194 | Frees the slot only if it still holds the value seen |
| `JobQueue.QueueCaller.QueueVisualComposition` | backend/app/composition/queue.py:210-267 | Against any interference: adds exactly the job it reports as queued, which then holds the slot, and none on every other outcome; refuses only after two failed tries, and tries at most twice |
| `CropGeometry.ClampIsNearestInside` | backend/app/composition/geometry.py:162-184 | A crop that fits is shifted, never rescaled, and by the least amount on each axis |
| `CropGeometry.ClampFixesExactlyInside` | backend/app/composition/geometry.py:162-184 | The clamp leaves a crop alone exactly when it already lies in the frame, and its result always does |
| `CropGeometry.ClampTargetIdempotent` | backend/app/composition/framing.py:127-138 | Clamping a clamped target changes nothing, for every target and every display |
| `CropGeometry.FramedIffClampFixes` | backend/app/composition/framing.py:99-138 | On a display at least as wide as 9:16, re-clamping is a no-op exactly for the targets whose crop lies in the frame |
| `CropGeometry.ClampTargetFrames` | backend/app/composition/framing.py:127-138 | There every clamped target lies in the frame and keeps its height |
| `CropPath.LerpIsFramed` | backend/app/composition/framing.py:966-991 | Crops inside the frame form a convex set |
| `CropPath.InterpolationStaysFramed` | backend/app/composition/framing.py:966-991 | A path of framed keyframes yields at every time a crop inside the frame, of exact 9:16 shape, unchanged by re-clamping |
| `CropPath.SegmentContainment` | backend/app/composition/framing.py:966-991 | A fixed box inside the crop at two times of one keyframe segment is inside it at every time between |
| `CropTimes.InterpolatedIsCrop` | backend/app/composition/framing.py:966-991 | At every time of every path: the end crops before and after, and in the first segment that spans the time the crop that has gone the eased share of the way in each coordinate |
| `CropTimes.PassesThroughKeyframes` | backend/app/composition/framing.py:966-991 | A path whose times rise shows at each keyframe its crop |
| `CropTargets.TargetFromBox` | backend/app/composition/framing.py:209-263 | The crop whose height is nearest the wanted one, margins first, among the candidates that contain the box; none exactly when no candidate does |
| `CropMargins.TriedHeights` | backend/app/composition/framing.py:198-206 | The candidate heights: the wanted one brought into range and 33 even marks from the least to the whole frame, ascending, and no others |
| `CropMargins.BaseHeightIsLeast` | backend/app/composition/framing.py:227-239 | The wanted height is the least at which the face takes no more than its target share, leaves head room and chin, and takes at most 96 percent of the width; the whole frame when none is |
| `CropMargins.KeptHeightIsNearest` | backend/app/composition/framing.py:241-263 | The kept height is the nearest to it that keeps the margins, or failing any that contains the box; the smaller of two as near |
| `CropMargins.ContainedIff` | backend/app/composition/framing.py:145-174 | A crop contains a box exactly when the box passes none of its edges by more than a millionth of a pixel |
| `CropMargins.CenterCropIsCentered` | backend/app/composition/framing.py:141-142 | The center crop is the middle of the frame at its whole height, on every display |
| `CropMargins.MarginsIff` | backend/app/composition/framing.py:177-195 | The margins are kept exactly when the box grown by them lies in the crop |
| `CropMargins.FreeCropPlacesFace` | backend/app/composition/framing.py:241-249 | A crop the frame leaves alone centers the face and leaves exactly the head room above it |
| `CropMargins.FreeCropKeepsMarginsIff` | backend/app/composition/framing.py:177-195 | and keeps the margins exactly when the face is narrow and low enough, up to the pixel tolerance |
| `CropTargets.UnionBox` | backend/app/composition/framing.py:278-293 | The tight union of all sample boxes, none exactly without samples |
| `CropTargets.FitBox` | backend/app/composition/framing.py:332-372 | Too wide, the first candidate height that holds the box, or no fit, each exactly when it applies |
| `CropTargets.FitSubjects` | backend/app/composition/framing.py:332-372 | The same for the expanded union of all subjects |
| `CropMargins.ExpandedBoxKeepsMargins` | backend/app/composition/framing.py:340-355 | The box of several subjects keeps the chin share beside and below them and the head room above, its corner pulled into the frame |
| `CropMargins.TooWideIff` | backend/app/composition/framing.py:356-361 | Too wide exactly when not even a crop of the whole height, up to a millionth, is as large as the box |
| `CropMargins.FitIsLeast` | backend/app/composition/framing.py:362-372 | A box in the frame that is not too wide is always fitted, by the least height that is large enough, up to a millionth |
| `CropTargets.MultiSubjectCropHoldsEverySample` | backend/app/composition/framing.py:332-372 | A multi-subject crop contains every sample box that lies in the frame |
| `KeyframeLists.Finalize` | backend/app/composition/framing.py:677-685 | Keyframes closer than epsilon are merged, the later one kept; on ordered input the result is a strictly rising selection with the same end |
| `KeyframeLists.MergedIsRising` | backend/app/composition/framing.py:677-685 | Merging ordered keyframes leaves gaps of more than epsilon and keeps the last one |
| `KeyframeLists.Weakest` | backend/app/composition/framing.py:696-707 | No inner keyframe has a smaller path delta than the one chosen, by more than epsilon |
| `KeyframeLists.CapKeyframes` | backend/app/composition/framing.py:688-713 | Inner keyframes go weakest first until the cap holds: a selection of the input with both ends kept, the first keyframe flagged |
| `KeyframeThinning.CappedByDrops` | backend/app/composition/framing.py:688-713 | A path over the cap loses inner keyframes one by one, each the first that sways least up to a millionth, until as many are left as allowed, and its first keyframe says so |
| `PathCheck.Nearest` | backend/app/composition/framing.py:1044-1053 | The first observation at the least distance from a time |
| `PathCheck.PathPreservesSubjects` | backend/app/composition/framing.py:994-1071 | Accepts exactly the paths with observed time coverage whose crop holds each track at every keyframe, midpoint and in-scene sample time |
| `SafePaths.PathSafeIff` | backend/app/composition/framing.py:994-1071 | Accepted exactly when the observations reach both edges and leave none farther apart than the hold, and at every keyframe, halfway between two, and at every in-scene observation the crop holds the nearest observation of each track, which is within the hold |
| `PathCheck.AcceptedPathShowsEverySample` | backend/app/composition/framing.py:994-1071 | An accepted path has every in-scene observation of every track inside the interpolated crop of its own time |
| `PathCheck.AcceptedPathIsObserved` | backend/app/composition/framing.py:1020-1031 | In an accepted path no instant is farther than the hold window from an observation |
| `PathCheck.AcceptedStaticCropHoldsEverySample` | backend/app/composition/framing.py:994-1071 | When both keyframes share one crop, that crop holds every in-scene observation |
| `TrackedPath.NextHeightIsLimited` | backend/app/composition/framing.py:848-857 | One step changes the crop height by at most the zoom rate times the elapsed time, a hero step by at most the tolerance, and stays within the allowed heights |
| `TrackedPath.NextHeightIsNearest` | backend/app/composition/framing.py:848-857 | Of all heights in range and within the zoom rate of the current one, the next is the nearest to the height wanted; a hero shot that wants over two hundredths stays |
| `TrackedPath.NextCropZooms` | backend/app/composition/framing.py:818-857 | so it is for the height of every emitted step, the wanted one being the smoothed |
| `TrackedPath.HeroKeepsHeightIff` | backend/app/composition/framing.py:848-857 | A hero shot keeps its height exactly when more is wanted than it tolerates, or nothing can be had |
| `TrackedPath.HeightIsBetween` | backend/app/composition/framing.py:848-857 | The height never overshoots the one it moves to |
| `TrackedPath.NextCropStepsToward` | backend/app/composition/framing.py:818-859 | A step never overshoots the crop it aims at and stays put inside the dead zone |
| `PanVelocity.PanVelocityIsKeptIff` | backend/app/composition/policy.py:386-393 | The eased pan goes beyond the documented velocity limit exactly when its distance lies strictly between the limit and twice the limit, or the limit is not positive |
| `PanVelocity.PanExceedsByAnEighthAtMost` | backend/app/composition/framing.py:837-846 | It never goes beyond a positive limit by more than an eighth |
| `PanVelocity.PannedLength` | backend/app/composition/framing.py:837-846 | The length of a pan step is that of the eased pan |
| `PanVelocity.EmittedPanIsKeptIff` | backend/app/composition/framing.py:837-859 | When the panned crop lies in the frame, the center of the emitted crop has moved by exactly the eased pan, and keeps the velocity under exactly that condition |
| `PanVelocity.NoGrowthStaysFramed` | backend/app/composition/framing.py:837-859 | The panned crop of every step that is no larger than the crops it moves from and to lies in the frame |
| `PanVelocity.ClampAddsHalfTheGrowth` | backend/app/composition/framing.py:127-138 | Otherwise clamping adds to the pan of an in-frame crop, on each axis, at most half of what the crop grows by; a crop that shrinks moves no further than it was panned |
| `PanVelocity.GrowthMovesTheCrop` | backend/app/composition/framing.py:127-138 | That bound is reached by a crop that grows at the edge of the frame |
| `PanVelocity.PanVelocityIsExceeded` | backend/app/composition/framing.py:796-859 | With the settings as shipped, on a full-HD frame, a step of a quarter second from an in-frame crop to an in-frame crop moves the emitted center by an eighth more than the velocity allows |
| `TrackedPath.Pan` | backend/app/composition/framing.py:837-846 | The pan step as that function of distance and limit |
| `TrackedPath.PanToward` | backend/app/composition/framing.py:818-846 | Smoothing, dead zone with hysteresis and pan, as a function of the state |
| `TrackedPath.Advance` | backend/app/composition/framing.py:796-862 | One smoothed step from the current crop: exact next crop and panning flag; the height is the reachable one nearest to the smoothed, or unchanged for a hero shot that wants more than it tolerates |
| `TrackedPath.NoteLoss` | backend/app/composition/framing.py:770-794 | A detection loss emits the full center crop at the end of the hold, unless a keyframe came since |
| `TrackedPath.MoveAndEmit` | backend/app/composition/framing.py:859-876 | A keyframe follows exactly when the minimum hold is over and the crop differs from the last one emitted |
| `TrackedPath.TakeSample` | backend/app/composition/framing.py:769-876 | One turn of the loop: loss, step and emission, keeping the time order and the zoom bound |
| `TrackedPath.FollowSamples` | backend/app/composition/framing.py:752-876 | The loop over all samples: its states are linked turn by turn, and its losses are those the sample times determine |
| `TrackedPath.CloseScene` | backend/app/composition/framing.py:878-912 | The loss and the closing keyframe at the scene end |
| `TrackedPath.FinishPath` | backend/app/composition/framing.py:878-914 | Closing, merging and capping leave a path inside the scene, from its start to within epsilon of its end, strictly rising, within the cap, zoom-bounded between losses |
| `TrackedPath.TrackedKeyframes` | backend/app/composition/framing.py:716-914 | The tracked path: center crop held, with the evidence of why, without a usable subject; otherwise built by the loop and good in the sense above |
| `TrackedTurns.LossIsNoted` | backend/app/composition/framing.py:770-794 | A gap over the hold, a second at least, puts the center crop at its end, unless a keyframe already stands there |
| `TrackedTurns.TookIsTurn` | backend/app/composition/framing.py:769-876 | Every turn by times, distances and shares alone: dead zone left at twice the distance it is entered at, pan limit halved for a hero shot, share eased beyond the limit, keyframe after the minimum hold for a crop apart by more than a ten-thousandth |
| `TrackedTurns.SubjectIsTracked` | backend/app/composition/framing.py:736-914 | Every tracked path thins and caps the keyframes of a chain of such turns, over the samples by time, position and size, with the mean score as confidence |
| `SceneFraming.MeanBoxInHull` | backend/app/composition/framing.py:266-275 | The mean box lies in every box that surrounds all the samples it averages |
| `SceneFraming.StaticTarget` | backend/app/composition/framing.py:577-654 | The crop, evidence and confidence of each static mode: fitted to the mean box of the first subject, or to the first three subjects together, or else the center crop with the reason |
| `SceneFraming.SingleSubject` | backend/app/composition/framing.py:591-627 | The single-subject mode falls back exactly without samples or without a fitting crop |
| `SceneFraming.BuildCropKeyframes` | backend/app/composition/framing.py:917-963 | The path of each mode, with the scene edges put in order |
| `SceneFraming.BuildScene` | backend/app/composition/framing.py:1074-1161 | A crop mode survives exactly when its path is safe; otherwise the full source is shown with the evidence of the loss |
| `SceneFraming.KeptCropShowsSubjects` | backend/app/composition/framing.py:1074-1161 | In a scene left in a crop mode every in-scene observation of a preserved subject is inside the crop shown at its time |
| `SceneFraming.KeptCropIsObserved` | backend/app/composition/framing.py:1074-1161 | and no instant of it is farther than the hold window from an observation |
| `SceneFraming.KeptStaticCropHoldsSubjects` | backend/app/composition/framing.py:1074-1161 | In the static modes one crop serves the whole scene and holds every in-scene observation |
| `SceneFraming.BuiltPathStaysFramed` | backend/app/composition/framing.py:917-991 | On a wide display every built path shows at every time an exact 9:16 crop inside the frame |
| `Bidi.ScanDirection` | backend/app/composition/bidi.py:41-50 | Right-to-left exactly when the first strong character is |
| `Bidi.ResolveDirections` | backend/app/composition/bidi.py:64-84 | Number attachment and the two neutral passes compute the nearest earlier direction, else the nearest later, else the base |
| `Bidi.ResolutionRule` | backend/app/composition/bidi.py:64-84 | That direction is the only one the rule allows |
| `BidiOrder.VisualOrder` | backend/app/composition/bidi.py:87-112 | The run reversal equals level-by-level reversal by rule L2 of UAX #9, section 3.4, and is a permutation |
| `BidiOrder.RunOrderIsRuleL2` | backend/app/composition/bidi.py:87-112 | Reordering runs is reversing levels, for any run decomposition |
| `BidiOrder.L2IsPermutation` | backend/app/composition/bidi.py:87-112 | Level-by-level reversal loses and repeats no token |
| `BidiOrder.AtomicUnits` | backend/app/composition/bidi.py:139-161 | The wrapping units: maximal left-to-right runs, every other token alone |
| `BidiOrder.UnitsPartition` | backend/app/composition/bidi.py:139-161 | The units partition the tokens in order, and no two left-to-right units are adjacent |
| `CaptionWrap.WrapText` | backend/app/composition/captions.py:327-369 | Lines and overflow flag as the greedy placement of units |
| `CaptionWrap.WrapIsGood` | backend/app/composition/captions.py:327-369 | The lines partition the tokens in order, every line of several tokens fits the width, and every break was forced by lack of room |
| `CaptionWrap.FittingUnitStaysTogether` | backend/app/composition/captions.py:327-369 | A left-to-right run that fits on a line is never split across lines |
| `CaptionWrap.WrapJoinsBack` | backend/app/composition/captions.py:327-369 | The lines joined by spaces are the text |
| `CaptionSegments.CutUnit` | backend/app/composition/captions.py:469-483 | A unit is cut exactly at its boundaries |
| `CaptionSegments.PackPieces` | backend/app/composition/captions.py:432-465 | Packing keeps all words in order, respects the limits, crosses no boundary and cuts only where it must |
| `CaptionSegments.MergeShort` | backend/app/composition/captions.py:486-515 | The merge loop ends, loses nothing, keeps the limits, only joins neighbours, and leaves no short fragment that could take in its successor |
| `CaptionSegments.SegmentSpanWords` | backend/app/composition/captions.py:420-466 | The fragments concatenate to the words; every fragment of several words is within words, duration and lines |
| `CaptionTiming.EventEndIsBounded` | backend/app/composition/captions.py:701-708 | An event lasts no longer than allowed, ends within the tail, covers its words and the minimum when it may |
| `CaptionTiming.TrimOverlaps` | backend/app/composition/captions.py:626-630 | In place: the drafts sorted, then each but the last trimmed to its successor |
| `CaptionTiming.TrimmedAt` | backend/app/composition/captions.py:626-630 | Trimming moves only ends, toward the start, and only to the start of the successor |
| `CaptionTiming.TrimmedFollow` | backend/app/composition/captions.py:626-630 | Trimmed drafts do not overlap |
| `CaptionTiming.BuildCaptionEvents` | backend/app/composition/captions.py:766-864 | Trimming, rounding, sorting and the filter of degenerate events |
| `CaptionTiming.KeptEventsFollow` | backend/app/composition/captions.py:820-872 | Every kept event ends before the next starts and lasts long enough to be read |
| `AssEscape.Escape` | backend/app/composition/ass.py:56-98 | The index loop computes the escaped text, and reports a bidi control exactly when there is one |
| `AssEscape.EscapedNeverOpensOverride` | backend/app/composition/ass.py:10-17 | Read by the libass rule, no escaped text ever opens an override block |
| `AssEscape.EscapeRoundTripIff` | backend/app/composition/ass.py:56-98 | Escaped text shows the sanitized source text, up to word joiners, exactly when no dropped character stands between a backslash and `N`, `n` or `h` |
| `AssEscape.PrintableTextIsShown` | backend/app/composition/ass.py:56-98 | A text without control characters, breaks and joiners is shown character by character, braces and backslashes included |
| `AssEscape.CharacterIsWritten` | backend/app/composition/ass.py:64-76 | By its code a character is removed, becomes a space, or stays |
| `AssEscape.SpecialIsWritten` | backend/app/composition/ass.py:77-92 | Braces are written behind a backslash; a backslash before `N`, `n` or `h` is cut off from it by a word joiner |
| `AssEscape.HiddenTagIsALineBreak` | backend/app/composition/ass.py:10-17 | The documented round trip fails there: backslash, bidi control, `N` reads as a line break |
| `AssEscape.EscapedHasNoLineFeed` | backend/app/composition/ass.py:56-98 | No line feed survives, so a dialogue stays on its line |
| `AssTime.FormatParses` | backend/app/composition/ass.py:113-120 | A formatted time reads back as itself |
| `AssTime.CentisecondsMonotone` | backend/app/composition/ass.py:113-120 | Formatting never reorders two times |
| `AssTime.CentisecondsSeparate` | backend/app/composition/ass.py:113-120 | Times more than a centisecond apart stay apart |
| `AssLines.TokenLines` | backend/app/composition/ass.py:144-163 | Lines of token indexes; the count check in it never fails |
| `AssLines.TokenLinesPartition` | backend/app/composition/ass.py:144-163 | Whatever the lines are, every token is shown once and in order |
| `AssLines.TokenLinesRecoverWrapping` | backend/app/composition/ass.py:144-163 | From wrapped lines exactly the wrapping is recovered |
| `AssBody.StaticBodyReads` | backend/app/composition/ass.py:166-190 | A static body reads as its placement override and its lines, whatever the tokens are |
| `AssBody.StaticBodyShowsLinesIff` | backend/app/composition/ass.py:166-190 | and shows exactly its lines exactly when no token hides a tag letter behind a backslash |
| `AssBody.ColoredTokenReadsIff` | backend/app/composition/ass.py:166-190 | An emphasized token reads as itself between its color blocks exactly when it does not end in a backslash |
| `AssEmphasis.ActiveBodyShowsStaticIff` | backend/app/composition/ass.py:166-213 | An emphasized body shows the static lines exactly when none of their tokens ends in a backslash |
| `AssEmphasis.SpoiledShowsMore` | backend/app/composition/ass.py:166-190 | A token that ends in a backslash shows more than itself: the block behind it is shown too |
| `AssDocument.ActiveEmphasisSafe` | backend/app/composition/bidi.py:126-136 | The scan over the tokens |
| `AssDocument.EmphasisSafeIff` | backend/app/composition/bidi.py:126-136 | Words are emphasized only in texts without a single right-to-left character |
| `AssDocument.EventText` | backend/app/composition/ass.py:166-213 | Placement block and lines of one event, plain or with one word active |
| `AssDocument.ActiveWordStates` | backend/app/composition/ass.py:216-253 | The states of an event, one per word exactly when its timings allow emphasis |
| `AssDocument.StatesTile` | backend/app/composition/ass.py:216-253 | The states tile exactly the interval of the event; emphasized ones last at least the minimum |
| `AssDocument.WordStatesIff` | backend/app/composition/ass.py:216-253 | There is a state for each word exactly when the style asks for it, nothing runs right to left, tokens and words match, every word takes time, the first starts with the event and all are spoken five hundredths of a second apart |
| `AssHighlight.SpokenWordIsHighlighted` | backend/app/composition/ass.py:205-253 | While word i is spoken, from its start to that of the next, its glyphs stand under the active color and all other glyphs under the primary one |
| `AssHighlight.StaticHasNoColor` | backend/app/composition/ass.py:166-190 | The static state shows its glyphs under no color block |
| `AssDialogue.BuildAssText` | backend/app/composition/ass.py:262-296 | The document: header, then the dialogue lines of the ordered events |
| `AssDialogue.DialogueReadsBack` | backend/app/composition/ass.py:290-295 | A dialogue line reads back as the dialogue it was written from, commas in its text included |
| `AssDialogue.StateLineReadsBack` | backend/app/composition/ass.py:256-295 | so every line of the document reads back as its state: its times to the centisecond, the style of its zone, its text |
| `AssDialogue.DocumentIntervalsFollow` | backend/app/composition/ass.py:262-296 | Through trimming, rounding, filtering, word states and formatting, the dialogues of the document are in order and do not overlap by the stamps as written |
| `AssTheorems.StaticEventShowsItsLinesIff` | backend/app/composition/ass.py:166-190 | The dialogue of a wrapped event shows exactly its lines exactly when no token hides a tag letter |
| `AssTheorems.EmphasisShowsTheSameLinesIff` | backend/app/composition/ass.py:205-253 | Every emphasized state of an event shows what its static state shows exactly when no token of the text ends in a backslash |
| `AssBackslash.BackslashTokenShowsItsBlock` | backend/app/composition/ass.py:166-190 | A token that is a backslash, in its color, reads as its color block and then, character by character, the block that was to restore the color; the backslash is not shown |
| `AssBackslash.BackslashEventShowsItsBlock` | backend/app/composition/ass.py:205-253 | An event with such a token, on one line: its static state shows exactly the text, each of its word states the other word and that block |
| `AssTheorems.DocumentIntervalsLast` | backend/app/composition/ass.py:262-296 | For nonnegative times every dialogue ends, as written, after it starts |
| `AssTheorems.DraftsRunForward` | backend/app/composition/captions.py:664-741 | The drafts of every fragment list run forward, so the document results hold of every plan |
| `AnalysisSpans.MergeSpans` | backend/app/composition/analysis.py:154-165 | The union per block, or a refusal exactly for a negative or empty span |
| `AnalysisSpans.MergedSpansMerge` | backend/app/composition/analysis.py:154-165 | The union is in order and disjoint, covers every span and adds only epsilon gaps |
| `AnalysisPlan.ExpandSpans` | backend/app/composition/analysis.py:168-180 | Padding refuses a negative margin and otherwise merges |
| `AnalysisPlan.FootprintCovers` | backend/app/composition/analysis.py:193-246 | The footprint covers every selected span, as rounded to microseconds |
| `AnalysisPlan.FootprintReach` | backend/app/composition/analysis.py:168-180 | The footprint reaches no farther than the margin and three microseconds from a selected span |
| `AnalysisPlan.FramesMonotone` | backend/app/composition/analysis.py:183-190 | A slower rate never needs more frames |
| `AnalysisPlan.RateFalls` | backend/app/composition/analysis.py:243-249 | Every turn lowers the rate by more than epsilon, but not below the floor cut to whole millionths |
| `AnalysisPlan.ReduceRate` | backend/app/composition/analysis.py:236-257 | The loop ends with the rate of the recursion, refused exactly when the footprint still does not fit; all rates tried fall |
| `AnalysisPlan.FitRate` | backend/app/composition/analysis.py:229-269 | The plan at the analysis rate, or at the reduced one |
| `AnalysisPlan.PlanAnalysis` | backend/app/composition/analysis.py:193-269 | The first refusal, or a plan that covers all spans, reaches no farther than the margin, fits the frame budget and keeps to an allowed rate |
| `AnalysisFloor.FloorIsKeptIff` | backend/app/composition/analysis.py:206-208 | Every plan the planner can answer for given rates keeps to the floor exactly when the analysis rate is at least the floor and the floor is a whole number of millionths or no more than a millionth below the rate |
| `AnalysisFloor.RateCanEndBelowFloor` | backend/app/composition/analysis.py:206-208 | The documented floor is undercut: one second at two frames a second, a budget of one and a floor of 1.0000005 give a plan at rate 1 |
| `AnalysisRefusal.FloorTooFastIsRefused` | backend/app/composition/analysis.py:208-209 | For arguments the planner accepts, a footprint that does not fit at a floor of whole millionths makes it answer with the scope refusal |
| `AnalysisRefusal.OneSpanRefusedIff` | backend/app/composition/analysis.py:208-209 | For a footprint of one span the planner answers so exactly when it does not fit at such a floor; at an analysis rate no more than a millionth above the floor, which is never lowered, exactly when it does not fit at that rate |
| `AnalysisRefusal.FewSpansRefused` | backend/app/composition/analysis.py:208-209 | With turns enough for its spans, the planner refuses a footprint that does not fit at the floor and accepts one that fits a millionth above it |
| `AnalysisRefusal.TwoSpansRefusedThoughFloorFits` | backend/app/composition/analysis.py:236-257 | Between those two no number of spans decides: two spans are refused with the rate a millionth above a floor that fits |
| `AnalysisRefusal.RefusedThoughFloorFits` | backend/app/composition/analysis.py:236-257 | With too many spans the turns run out far above a floor that fits |
| `SceneCuts.MergeScenes` | backend/app/composition/analysis.py:347-362 | The loop equals repeated merging of the first shortest scene into its shorter neighbour |
| `SceneCuts.CutPartsScenesIff` | backend/app/composition/analysis.py:332-346 | The unmerged scenes part at exactly the cuts more than a millionth of a second inside the span |
| `SceneCuts.ReducedByMerges` | backend/app/composition/analysis.py:347-362 | The reduced scenes come from the cut ones by a chain of merges, each of the first shortest scene, too short, into its shorter neighbour, the earlier in a tie, down to scenes all long enough |
| `SceneCuts.ReducedTiles` | backend/app/composition/analysis.py:347-362 | The merged scenes tile the span, keep to input cuts, and are long enough unless one is left |
| `SceneCuts.ReducedKeeps` | backend/app/composition/analysis.py:347-350 | Scenes that are all long enough are left alone |
| `SceneCuts.SegmentScenes` | backend/app/composition/analysis.py:314-364 | Refused exactly for an empty span or a negative minimum; otherwise the cut scenes, merged down one boundary at a time until all are long enough or one is left, and rounded |
| `SceneCuts.RoundedScenesTouch` | backend/app/composition/analysis.py:362-364 | Rounding keeps the scenes contiguous and none runs backward |
| `Novelty.IsRedundant` | backend/app/candidates/novelty.py:94-113 | Redundant exactly on a corpus hit or when a better item of the batch is near-duplicate |
| `Novelty.ScoreNovelty` | backend/app/candidates/novelty.py:49-91 | The verdict of every item, by that rule and the largest similarities |
| `Novelty.ScoresMean` | backend/app/candidates/novelty.py:70-90 | An item has a given novelty exactly when no other item is nearer than that leaves, and a given risk exactly when something of the corpus is as near; all lie in [0, 1] |
| `Novelty.SurvivorsAreApart` | backend/app/candidates/novelty.py:94-113 | Any two survivors are below the same-source threshold |
| `Novelty.ChainToSurvivor` | backend/app/candidates/novelty.py:94-113 | Without corpus hits every item reaches a survivor through near-duplicates, each strictly better than the one before |
| `Novelty.BestIsKeptIff` | backend/app/candidates/novelty.py:94-113 | The best item is kept exactly when the corpus does not claim it |
| `Novelty.SomeItemIsKept` | backend/app/candidates/novelty.py:94-113 | A nonempty batch without corpus hits keeps its best item, so it keeps one |
| `CandidateRows.CandidateStore.RegisterOperatorCandidate` | backend/app/candidates/registration.py:137-253 | Created, reused or refused, and the rows after it, as a function of rows and evidence |
| `CandidateRows.CandidateStore.StaleOperatorRows` | backend/app/candidates/executor.py:384-391 | Exactly the operator rows whose evidence changed are retired |
| `CandidateRows.CandidateStore.ApplyDrafts` | backend/app/candidates/executor.py:393-410 | Every draft fills its row, unless an operator owns it |
| `CandidateRows.CandidateStore.RetireOthers` | backend/app/candidates/executor.py:411-416 | Exactly the automatic rows that were not drafted are retired |
| `CandidateRows.CandidateStore.Persist` | backend/app/candidates/executor.py:370-416 | The rows after a reanalysis, key by key; every draft is applied, matched or collided |
| `CandidateRows.OperatorRowEndures` | backend/app/candidates/executor.py:379-416 | Over every run an operator row keeps its marker and fields, and is current at the end exactly when it was at the start and no reanalysis found its evidence changed |
| `CandidateRows.CurrentAutomaticRowsAreTheDrafted` | backend/app/candidates/executor.py:393-416 | After a reanalysis the current automatic rows are exactly the drafted keys no operator owns, with the drafted fields |
| `CandidateRows.RegistrationAddsOneRow` | backend/app/candidates/registration.py:137-253 | A registration adds at most its own row, current under the evidence it saw, and changes no other |
| `CandidateRows.RegisteringTwiceReuses` | backend/app/candidates/registration.py:256-299 | Registering the same window again under the same evidence finds the row |
| `CandidateRows.ReuseNeedsUnchangedEvidence` | backend/app/candidates/registration.py:256-299 | A row is handed out again only if its evidence has never been found changed and is unchanged now |
| `CandidateAnswers.OperatorKeyAnswers` | backend/app/candidates/registration.py:256-299 | After any run an operator key is answered as stale, as raw identity conflict or with its row, exactly by whether its row stands and its marker was made for this window, key and evidence |
| `CandidateAnswers.CreatedKeyAnswers` | backend/app/candidates/registration.py:137-253 | A window registered for a free key is reused ever after exactly for the same window, identity and fingerprint, as long as no reanalysis found the fingerprint changed |
| `CandidateAnswers.DraftedKeyAnswers` | backend/app/candidates/registration.py:302-325 | A drafted key is answered with its automatic row exactly for the drafted window, to a millionth of a second, and refused as a different window otherwise |
| `CandidateAnswers.DroppedKeyAnswers` | backend/app/candidates/registration.py:256-299 | A key dropped by a reanalysis is refused as stale until the next |
| `CandidateAnswers.AbsentKeyAnswers` | backend/app/candidates/registration.py:137-253 | Evidence without the range is invalid for every key; a key without a row is created |
| `CandidateAnswers.CountsMean` | backend/app/candidates/executor.py:393-410 | The counts of a reanalysis: drafts applied, drafts on an operator row of their own window, and drafts turned away from another |
| `ProposalAtoms.SlicingConserves` | backend/app/candidates/proposals.py:176-214 | Slicing an over-long atom keeps its text, tiles its time and keeps every slice within the limit |
| `ProposalAtoms.EnforceAtomBounds` | backend/app/candidates/proposals.py:176-214 | Every atom in turn, sliced when over-long |
| `ProposalShares.SliceIs` | backend/app/candidates/proposals.py:193-212 | Each slice has the even share of the time and, rounded to the nearest, of the characters |
| `ProposalShares.SliceCountIsLeast` | backend/app/candidates/proposals.py:192-192 | The slices are the fewest within the limit |
| `ProposalAtoms.BoundAtomsOrdered` | backend/app/candidates/proposals.py:176-214 | Ordered atoms stay ordered and all become bounded |
| `ProposalAtoms.BoundAtomsKeepText` | backend/app/candidates/proposals.py:176-214 | No text is lost |
| `ProposalChunks.ChunkWords` | backend/app/candidates/proposals.py:217-235 | Greedy groups of all words in order, each as long as the limit allows; the chunks are the worded ones |
| `ProposalChunks.WordChunksOrdered` | backend/app/candidates/proposals.py:217-235 | Chunks of ordered words are ordered and stay inside the segment |
| `ProposalChunks.ChunkTokens` | backend/app/candidates/proposals.py:248-267 | The chunks of an over-long text, by token counts and weights |
| `ProposalChunks.SharedChunksShareOut` | backend/app/candidates/proposals.py:238-267 | Those chunks tile the time and share out all tokens in order |
| `ProposalShares.ChunkCountIsLeast` | backend/app/candidates/proposals.py:247-247 | There are as few chunks as fit the limit, and no more than tokens |
| `ProposalShares.TokenEndIsEven` | backend/app/candidates/proposals.py:255-260 | Each cut of the tokens is the even share rounded to the nearest, half to even; the guards against empty groups never bind |
| `ProposalShares.SharedChunkIs` | backend/app/candidates/proposals.py:249-267 | So each chunk has the tokens between its cuts, and begins when the text before it has taken its share of the time by length |
| `Proposals.ChunkText` | backend/app/candidates/proposals.py:238-267 | One chunk, or the shared ones |
| `Proposals.SplitSegment` | backend/app/candidates/proposals.py:131-152 | The atoms of an over-long segment, from its words when it has any, else from its text |
| `Proposals.BuildAtoms` | backend/app/candidates/proposals.py:113-128 | The atoms of all segments, one segment after the other; of ordered segments they are ordered inside the source |
| `Proposals.RawRanges` | backend/app/candidates/proposals.py:72-97 | The ranges partition the atoms, each running to its first reason to close; so the fallback and the tail branch are never reached |
| `ProposalContent.RangeEndsIff` | backend/app/candidates/proposals.py:76-97 | A range ends at the first atom that is the last of all, or before one that would not fit the window, or at a natural boundary past both minimum lengths |
| `Proposals.DecidedFits` | backend/app/candidates/proposals.py:80-97 | Every range of bounded atoms fits the window |
| `Proposals.BuildProposals` | backend/app/candidates/proposals.py:102-106 | The proposals of the ranges that take time; what they carry is said by `ProposalsKeepAllWords` |
| `ProposalContent.ClampIsNearest` | backend/app/candidates/proposals.py:480-484 | Clamping yields the nearest value in bounds, the lower bound when there is none |
| `ProposalContent.EffectiveDurationIs` | backend/app/candidates/proposals.py:63-64 | The duration given when positive, else the end of the last segment, never less than nothing |
| `ProposalWords.AtomsKeepAllWords` | backend/app/candidates/proposals.py:113-267 | The atoms of a transcript carry its tokens in order, of the timed words of an over-long segment when it has any and of its text otherwise |
| `ProposalContent.ProposalsKeepAllWords` | backend/app/candidates/proposals.py:321-343 | The tokens of a proposal are those of its atoms, so the proposals of a partition carry those of all atoms, each once and in order; each names its first and last segment and lists all of them |
| `ProposalWords.TranscriptIsProposed` | backend/app/candidates/proposals.py:47-110 | With no atom left to slice, the proposals carry the words of the whole transcript |
| `Proposals.BuiltFollow` | backend/app/candidates/proposals.py:321-343 | Proposals of a partition follow one another in time and atoms |
| `ProposalSelection.MergeSimilar` | backend/app/candidates/proposals.py:346-362 | Each proposal joins the first one it is alike, or stands for itself |
| `ProposalContent.AlikeIff` | backend/app/candidates/proposals.py:383-388 | Two proposals are alike exactly when they share half of the shorter one and their texts are similar by three fifths |
| `ProposalContent.UnionIsLeast` | backend/app/candidates/proposals.py:365-380 | The union is the least proposal around two, with the longer text, the first of two as long |
| `ProposalContent.MergingSpeaksForAll` | backend/app/candidates/proposals.py:346-362 | Every proposal stays represented in a merged one |
| `ProposalSelection.MergingSpansAll` | backend/app/candidates/proposals.py:346-380 | Every proposal stays inside a merged one |
| `ProposalSelection.ApartAreNotMerged` | backend/app/candidates/proposals.py:346-388 | No merge fires among proposals that are apart |
| `ProposalSelection.Prune` | backend/app/candidates/proposals.py:399-417 | The capped selection |
| `ProposalSelection.PruningKeepsTheBest` | backend/app/candidates/proposals.py:399-417 | Exactly the cap is kept, nothing is lost between kept and dropped, and no dropped one scores higher than a kept one |
| `ProposalContent.CapAllows` | backend/app/candidates/proposals.py:407-412 | More than one proposal is kept only up to the limit for a source and to what the hourly limit begins, an hour at least counting |
| `ProposalSelection.GeneratedAreWellSpread` | backend/app/candidates/proposals.py:72-110 | On ordered segments nothing is merged, and every proposal is bounded by the window, later than the one before and apart from it in atoms |
| `ProposalContent.GeneratedCarry` | backend/app/candidates/proposals.py:47-110 | On ordered segments every proposal that is kept carries the tokens of its atoms and takes time |
| `ProposalSelection.GenerateProposals` | backend/app/candidates/proposals.py:47-110 | The proposals as the stages in turn make them; well spread on ordered segments, and carrying their words by `GeneratedCarry` |

## Left out

- AnalysisRefusal.FewSpansRefused: leaves open the footprints of several spans that fit at the floor but not a millionth above it; `TwoSpansRefusedThoughFloorFits` is one that is refused, and which are depends on the whole descent of the rate.
- PanVelocity.EmittedPanIsKeptIff: is for steps whose panned crop lies in the frame, as that of every step that does not grow does; what the clamp adds to the others is bounded by `ClampAddsHalfTheGrowth`. Lengths are in frame units, as in the code.
- TrackedPath.TrackedKeyframes: the path is inside the scene only for samples inside it, and the zoom bound needs distinct sample times, as the code substitutes a fixed time step for equal ones; a merge within epsilon can move the first time unless the minimum hold exceeds two epsilons.
- SceneFraming.KeptCropShowsSubjects: of several observations of one track at one time only the first is meant, since the path check looks at no other.
- CandidateRows.CandidateStore.Persist: takes drafts of distinct keys, which the candidate analysis produces; two drafts of one new key are not modelled.
- JobExecutor.Executor.RecordFailure: the call after a claim was skipped, which the worker entry point never makes, is not modelled.
- `1 - exp(-6 dt)` and `hypot` are parameters of the smoothing; of the first only the range is used, of the second that it is the Euclidean length.
- `persistent_tracks`, `read_visual_composition` and `execute_visual_composition` are not modelled: persistent tracks and the cache answer are inputs, and the planner persists under the guard or refuses.
- `select_framing_mode`, screen-content detection and scene-zone decisions are inputs: a framing decision, and a flag for the upper zone on each draft.
- Text width, Unicode classes, break punctuation, similarity, natural boundaries, pre-scores and fingerprints are parameters.
- Rounding error of floating point: numbers are reals, with the epsilons and decimal roundings of the code; checks for NaN and infinity have nothing to act on.
- Word selection for caption spans, parsing of spans, boxes, words and raw word records, and the ASS header and style lines (an arbitrary list of header lines).
- `_resolve_window` and `_validate_reason`: a registration starts from a resolved window; the counters of preserved and retired operator rows are not kept.
- `merge_cuts`, `scaled_dimensions`, FFmpeg, ONNX and ffprobe processes, HTTP, CLI, migrations, provider clients and the frontend: plumbing, input and output.
- Reasons, metrics, display names and evidence codes that no branch reads, apart from the framing evidence of keyframes.
- Creation of the plan row and dispatch to a worker: the plan row exists from the start.
