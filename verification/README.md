# What the coach keeps true about a learner and about running work

These modules model the state-keeping layer of the IELTS coach and prove what it keeps. Each database table is a map
from keys to rows, each transaction is one step, time is an integer or a real, and text that is only stored and
compared is a string. Shares, scores and weights are exact reals. Where the Python code changes tables or objects in
place there is a class whose methods are proved against specification functions; the laws are lemmas about those
functions, over all inputs, all runs and all interleavings of the steps.

| module | models | what is proved |
|---|---|---|
| `Mastery`, `LearningModel`, `LearningRules`, `SessionIngest`, `SessionEvidence`, `SessionReviews`, `LearningStore` | `learning_model.py` | what evidence weighs, what a session leaves of it and when reviews are due; a mastery row and its cached review date are always what a recomputation from scratch gives; ingesting a session by comparing, deleting and upserting is replacing its evidence |
| `Pedagogy`, `TeachingStore` | `pedagogy.py` | a teaching cycle is the replay of its event log; one winner per revision; what a tutor turn may append; where recommendations lead |
| `Allocation` | `allocation.py` | the redistribution loop converges, exactly when; shares sum to one; the weekly change is limited |
| `AgentRuns`, `Answers` | `agent_jobs.py`, `storage_agents.py`, `validation.py` | one model invocation per attempt over claims, crashes, sweeps and retries; only the checks' output on a received answer persists |
| `BackgroundJobs` | `background_jobs.py` | ended jobs stay ended, one claim per life, one active job per key, no queued job is forgotten |
| `Backups`, `Migrations`, `DataLifecycle`, `ReviewQueue` | `backups.py`, `migrations.py`, `data_lifecycle.py`, `learning_orchestration.py` | rollback gives every root back; migrations complete in order and once; a file goes only with its last row; the review queue is reconciled and never reopens a task |
| `ProviderCircuit`, `ContextAssembly` | `model_providers.py`, `context_engine.py` | the circuit follows the trace of outcomes; the context budget is exactly greedy |

`Upserts`, `Rounding`, `Text`, `Collections` and `Wrappers` hold what several modules share.

Some promises do not hold of the code as it is. In each case the code is modelled as it is, one lemma says exactly when
the promise holds, and another exhibits inputs that break it:

- **Mastery inside the window's scores.** With no confidence in any item the estimate is 0, whatever the scores:
  `Mastery.EstimateWithinScoresExactly`, `Mastery.NoConfidenceGivesZero`.
- **Mastery rows after an ingestion.** `learning_model.py:1250-1256` selects a session's rows without looking at their
  track, and `:1371-1413` recalculates IELTS skills only. Skill ids such as `listening.gist` exist on two tracks, so a row of
  the other track can be deleted and leave its mastery row stale: `SessionIngest.IngestedIsConsistentExactly`,
  `LearningStore.SharedSkillGoesStale`.
- **Ingestion as replacement.** Stored rows are matched by skill and source id as given, but written under their track
  and the cleaned source id: `SessionIngest.PatchIsReplacementExactly`, `SessionIngest.ForeignMatchSurvives`.
- **Twelve rounds.** For a maximum shift between a quarter and three quarters of 1e-9 a total off one can be left over:
  `Allocation.TwelveRoundsSuffice`, `Allocation.MaximaThatSuffice`, `Allocation.StuckCandidateStays`.
- **Observations on active cycles.** `get_active_teaching_cycle` looks a cycle up in one transaction and reads it in
  another, so a turn may hold the snapshot of a cycle finished in between: `Pedagogy.ObservationIsOnActiveExactly`,
  `Pedagogy.SnapshotIsFinishedExactly`, `Pedagogy.ObservationCanFollowCompletion`.
- **Milestones reported twice.** The look for an earlier report compares the whole session id with what is stored,
  which is cut to 240 characters and nothing for an empty id: `Pedagogy.MilestoneTwiceExactly`.
- **One invocation per attempt.** `retry` reads and writes the run in two transactions; two retries of one failure can
  set the same attempt number twice: `AgentRuns.RetryWriteExactly`, `AgentRuns.OverlappingRetries`.
- **Databases after a failed restore.** The snapshot goes back under the name in use at the start; an archive or
  restored settings that name another file leave that file rebased or migrated, unless it needs neither:
  `Backups.DatabasesAreBackExactly`, `Backups.OtherNameStaysBehind`, `Backups.OtherSettingsStayMigrated`,
  `Backups.OtherSettingsStayRebased`.
- **Roots after a failed restore.** A corpus the archive does not contain may stay rebased, if rebasing changes it:
  `Backups.RootsAreBackExactly`, `Backups.KeptCorpusStaysRebased`.
- **Reopened review tasks.** The write of a start does not look at the status again: `ReviewQueue.ReopenedExactly`,
  `ReviewQueue.CompletionBetweenIsUndone`.
- **One outcome per provider call.** An exception of a class the call does not handle, for instance one raised while
  the body of an HTTP error is read, leaves no outcome: `ProviderCircuit.OneOutcomePerCallExactly`,
  `ProviderCircuit.BrokenCallRecordsNothing`.
- **Files of registered media rows.** The check for other rows compares stored paths as text with the resolved path,
  and a failure, at a row, a file or the commit, brings the rows back but not the files gone before it:
  `DataLifecycle.RegisteredKeepFilesExactly`, `DataLifecycle.FailureTakesFileExactly`,
  `DataLifecycle.UnresolvedSurvivorLosesFile`, `DataLifecycle.StuckFileCostsAnother`.
- **Evidence ids.** `_stable_id` joins the parts of a key with a separator the parts may contain, so two observations
  can get one id; the second is then refused and nothing is overwritten: `LearningModel.JoinedAlike`,
  `LearningModel.SecondOfAlikeIsRefused`, `LearningModel.OtherEvidenceStays`, `SessionIngest.NotRefusedExactly`.
- **Attachment budget and count.** A negative cap on one attachment overruns the budget, a negative limit on their
  number breaks the count: `ContextAssembly.AttachmentBudgetExactly`, `ContextAssembly.NegativeCapOverruns`,
  `ContextAssembly.AttachmentsAddUpExactly`.

## Assumptions

- A lease that expires belongs to a manager that is no longer busy with the run, and one manager handles a run in one
  thread at a time.
- One background job manager is alive at a time; a restart is a step.
- A rollback's own steps succeed; rebasing or migrating that stops half way leaves alone what it would leave alone if
  it went on; resolving a path twice gives what resolving it once gives; and migrations are listed in ascending order
  under different ids.

## Model

| member | source | states |
|---|---|---|
| Mastery.EstimateWithinScoresExactly | src/ielts_coach/learning_model.py:797-843 | the estimate lies between the least and the greatest score of the window if and only if some item carries confidence or the least score is zero |
| Mastery.NoConfidenceGivesZero | src/ielts_coach/learning_model.py:832-832 | a single item without confidence gives the estimate zero, whatever its score |
| Mastery.EstimateIsBounded | src/ielts_coach/learning_model.py:797-843 | estimate and confidence, rounded or not, stay in [0, 1] |
| Mastery.EstimateIsMonotone | src/ielts_coach/learning_model.py:809-832 | raising one score never lowers the estimate |
| Mastery.NewestMovesTowardsItsScore | src/ielts_coach/learning_model.py:809-832 | an item put in front of a window moves the estimate to a point between the old estimate and its score |
| Mastery.KindsCountAsAttempts | src/ielts_coach/learning_model.py:16-22 | at any place in a window an assessment counts as an attempt of 5/4 of its confidence, a review of 11/10, a tutor's observation of 7/10 and a self-report of 7/20 |
| Mastery.OneSureAttempt | src/ielts_coach/learning_model.py:812-834 | one attempt of full confidence gives its own score as the estimate and a quarter as the confidence in it |
| Mastery.TwoAttempts | src/ielts_coach/learning_model.py:812-834 | of two attempts the older counts 92 hundredths of its confidence |
| Mastery.HeavierKindMovesTowardsItsScore | src/ielts_coach/learning_model.py:812-834 | changing an item to a kind that counts more moves the estimate towards its score |
| Mastery.StatusFollowsScores | src/ielts_coach/learning_model.py:834-843 | when all scores lie in one of the bands bounded by 0.4, 0.7 and 0.85, and some confidence, the status is that band's; it is unknown exactly without evidence |
| LearningModel.RecordedKeepsProjection | src/ielts_coach/learning_model.py:662-794 | recording evidence, scheduled or not, brings the mastery row and review date of its skill up to date with a recomputation and spoils no other skill's |
| LearningModel.ReviewCompletedKeepsProjection | src/ielts_coach/learning_model.py:1065-1145 | so does completing a review |
| LearningModel.StatusUpdatedKeepsProjection | src/ielts_coach/learning_model.py:1148-1174 | changing a review's status keeps every skill's row and date as good as they were |
| LearningModel.RecordingAgainChangesNothing | src/ielts_coach/learning_model.py:722-794 | recording the same report a second time changes no evidence, mastery, schedule or date |
| LearningModel.ChangedEvidenceIsScheduled | src/ielts_coach/learning_model.py:722-794 | new or changed evidence is stored under its id and makes the review of its skill and objective pending for it, due in one day to eight weeks, touching no other review and losing no repetition |
| LearningModel.CompletionAdvancesReview | src/ielts_coach/learning_model.py:1065-1145 | completing a review counts one repetition, touches no other review, and either closes it or makes it due in one day to eight weeks, no earlier than the cached date says |
| LearningModel.CompletionsAreDistinct | src/ielts_coach/learning_model.py:1085-1128 | when two completions of one review carry different repetitions, recording the second never overwrites the observation of the first |
| LearningModel.OtherEvidenceStays | src/ielts_coach/learning_model.py:741-757 | whatever ids the keys are given, recording a report never overwrites the evidence of another observation |
| LearningModel.JoinedAlike | src/ielts_coach/learning_model.py:36-39 | source types and ids that contain the separator join to the same text, so two observations can have one id |
| LearningModel.SecondOfAlikeIsRefused | src/ielts_coach/learning_model.py:736-757 | of two observations that join alike the second is refused while the first is stored, whatever the digest |
| LearningModel.IntervalGrows | src/ielts_coach/learning_model.py:891-902 | better estimates and more repetitions never shorten the interval, which is one to fifty-six days |
| LearningModel.NewerEvidenceLeadsWindow | src/ielts_coach/learning_model.py:802-810 | evidence newer than all of a skill's, while the window is not full, goes to the front and shifts the rest |
| LearningModel.RecordingNewestMovesEstimate | src/ielts_coach/learning_model.py:797-888 | with fewer than twenty items, newest evidence moves the stored estimate towards its score |
| LearningModel.StoredMasteryIsBounded | src/ielts_coach/learning_model.py:832-888 | every stored estimate and confidence is in [0, 1] and counts at most the window |
| LearningRules.RecordedExactly | src/ielts_coach/learning_model.py:681-757 | a report is recorded if and only if its skill is known, score and confidence are in [0, 1], its source has content, its objective and activity fit, and no other observation has its id; every refusal names a reason that applies |
| LearningRules.EvidenceIsAsReported | src/ielts_coach/learning_model.py:688-794 | the evidence stored is what was reported, at the time given, or the time it had, or the present; no other evidence changes |
| LearningRules.ChangedExactly | src/ielts_coach/learning_model.py:722-735 | evidence counts as changed if and only if storing it changes the table |
| LearningRules.RowIsDrawnFromNewest | src/ielts_coach/learning_model.py:797-888 | a mastery row that is up to date is drawn from the twenty newest rows of its skill, later ids first among equal times, and tells their number and the time of the newest |
| LearningRules.CachedDateIsEarliest | src/ielts_coach/learning_model.py:913-932 | the cached date is the earliest at which a review of the skill that is pending or in progress is due, if there is one |
| LearningRules.ReviewFollowsEstimate | src/ielts_coach/learning_model.py:891-990 | the review scheduled for changed evidence is due in 1, 3, 7 or 14 days by the stored estimate, doubled and doubled again with the repetitions from 0.7 on, and its priority is the hundredths missing to certainty, ten at least |
| LearningRules.CompletedExactly | src/ielts_coach/learning_model.py:1065-1099 | a review is completed if and only if it exists, is not dismissed and its evidence can be recorded |
| LearningRules.CompletionIsEvidence | src/ielts_coach/learning_model.py:1085-1111 | completing a review stores the score as a review's, under the review's id and the repetition it ends, and the review refers to it |
| LearningRules.CompletionFollowsEstimate | src/ielts_coach/learning_model.py:1112-1145 | a review that goes on is due by the estimate its completion leaves; one that ends keeps its dates |
| LearningRules.StatusIsWritten | src/ielts_coach/learning_model.py:1148-1174 | a review takes on the status asked for, which may be any but completed, and nothing else changes |
| Text.CleanIsCore | src/ielts_coach/learning_model.py:688-691 | cleaning cuts the white space from both ends, all of it and nothing else, and then what is beyond the limit |
| SessionIngest.PatchIsReplacementExactly | src/ielts_coach/learning_model.py:1340-1389 | comparing, deleting and upserting gives exactly the wholesale replacement of the session's evidence, last write per key, if and only if every row whose source id is reported as given is rewritten |
| SessionIngest.ForeignMatchSurvives | src/ielts_coach/learning_model.py:1340-1369 | a session row of another track that a report matches survives, so the ingestion is no replacement |
| SessionIngest.CleanReportsReplace | src/ielts_coach/learning_model.py:1340-1389 | with keys that cleaning does not change, and no row of another track that a report matches, it is that replacement |
| SessionIngest.NotRefusedExactly | src/ielts_coach/learning_model.py:1372-1389 | all reports are upserted if and only if none is refused by itself and no two different observations, stored or reported, get one id |
| SessionIngest.OtherSessionsAreUntouched | src/ielts_coach/learning_model.py:1227-1415 | whatever its reports, clean or not, an ingestion leaves the rows another session stored under its own prefix as they were |
| SessionIngest.IngestedKeepsProjection | src/ielts_coach/learning_model.py:1227-1415 | ingestion keeps every IELTS mastery row equal to its recomputation and every cached review date right |
| SessionIngest.IngestedIsConsistentExactly | src/ielts_coach/learning_model.py:1250-1257 | where the other-track skills that lose a row have all their evidence in the window, all mastery rows stay consistent if and only if no deleted row is of another track |
| SessionIngest.ForeignRowsGoStale | src/ielts_coach/learning_model.py:1250-1257 | a skill of another track that loses such a row keeps a stale mastery row |
| SessionEvidence.QuestionIsStored | src/ielts_coach/learning_model.py:1260-1284 | every question with a result whose key no later question and no criterion repeats has its row: an attempt of full confidence, of score one if the answer was right and zero if not |
| SessionEvidence.CriterionIsStored | src/ielts_coach/learning_model.py:1285-1313 | every criterion of a local rubric whose key no later one repeats has its row: an assessment of a ninth of its band, or of the middle of its range, with the confidence of its label |
| SessionEvidence.OverallIsStored | src/ielts_coach/learning_model.py:1314-1339 | the score of the whole session is stored when no question and no criterion says anything and its kind is one of three |
| SessionEvidence.RowsAreSaid | src/ielts_coach/learning_model.py:1259-1389 | whatever evidence the session has afterwards is that of something it says, or was there before under such a skill and source as given |
| SessionEvidence.UnansweredLeavesNoRow | src/ielts_coach/learning_model.py:1259-1262 | a question without a result leaves no row where its own would be, unless something else is said there |
| SessionEvidence.Silent | src/ielts_coach/learning_model.py:1259-1297 | a question says something if and only if it has a result; a criterion if and only if it is of a local rubric and has a band or a range |
| SessionEvidence.UnnoticedChangesNothing | src/ielts_coach/learning_model.py:1238-1248 | a session of another track, without an id or about no dimension of the pack changes nothing |
| SessionReviews.ProjectionChangedExactly | src/ielts_coach/learning_model.py:1340-1362 | where the session has one row for each skill and source, the projection counts as changed if and only if some row does not say what the last report of its skill and source says or some report has no row |
| SessionReviews.ConcernedIsRescheduled | src/ielts_coach/learning_model.py:1390-1415 | if it changed, the bare review of every skill that a report or an old row names is pending for the skill's newest evidence and due by its new estimate, keeping its repetitions, or is gone when no evidence is left |
| SessionReviews.OthersAreKept | src/ielts_coach/learning_model.py:1363-1415 | every other review stays as it was, save for a reference to a deleted row, and no other one is new |
| SessionIngest.SecondIngestionChangesNothing | src/ielts_coach/learning_model.py:1227-1415 | a second ingestion of the same dated reports, with clean keys that match no row of another track, returns the very same store |
| SessionIngest.SameDataAgain | src/ielts_coach/learning_model.py:1227-1415 | the same for whole session data with a fixed time of occurrence |
| LearningStore.EstimateOf | src/ielts_coach/learning_model.py:812-834 | the accumulating loop computes the weighted mean and the coverage |
| LearningStore.LearnerTables.Recalculate | src/ielts_coach/learning_model.py:797-888 | the skill's mastery row becomes the projection of its evidence and open reviews |
| LearningStore.LearnerTables.RefreshNextReview | src/ielts_coach/learning_model.py:913-932 | an existing mastery row's review date becomes the earliest open due date |
| LearningStore.LearnerTables.ScheduleReview | src/ielts_coach/learning_model.py:935-990 | the schedule under the stable key is made pending and due after the interval |
| LearningStore.LearnerTables.Record | src/ielts_coach/learning_model.py:662-794 | the tables end as `Recorded` says, or unchanged with the refusal |
| LearningStore.LearnerTables.CompleteReview | src/ielts_coach/learning_model.py:1065-1145 | the tables end as `ReviewCompleted` says, or unchanged with the refusal |
| LearningStore.LearnerTables.UpdateReviewStatus | src/ielts_coach/learning_model.py:1148-1174 | the tables end as `StatusUpdated` says, or unchanged with the refusal |
| LearningStore.LearnerTables.DeleteStale | src/ielts_coach/learning_model.py:1363-1369 | the loop deletes exactly the session's rows that no report answers to, and clears references to them |
| LearningStore.LearnerTables.UpsertAll | src/ielts_coach/learning_model.py:1372-1389 | the loop applies the reports in order, last write per key, or stops at the first refusal |
| LearningStore.LearnerTables.FinishSkills | src/ielts_coach/learning_model.py:1390-1415 | the loop over the affected skills leaves each with its fresh row and schedule, in whatever order they come |
| LearningStore.LearnerTables.IngestSession | src/ielts_coach/learning_model.py:1227-1415 | the whole ingestion ends as `Ingested` says; a refusal leaves the tables as they were |
| LearningStore.AnyRunKeepsProjection | src/ielts_coach/learning_model.py:662-990 | after any sequence of operations every IELTS mastery row is its recomputation and every cached review date of every track is the earliest open due date |
| LearningStore.RunsOnOneTrackAreConsistent | src/ielts_coach/learning_model.py:662-990 | when session evidence keeps to its track, so is every mastery row of every track |
| LearningStore.SharedSkillGoesStale | src/ielts_coach/learning_model.py:1227-1415 | two operations are enough to leave a mastery row of another track stale |
| Allocation.RoundProgress | src/ielts_coach/allocation.py:48-65 | a round moves the residual towards zero without crossing it and finishes or saturates one more module |
| Allocation.ResidualKeepsSign | src/ielts_coach/allocation.py:48-65 | the residual never changes sign over any number of rounds |
| Allocation.TwelveRoundsSuffice | src/ielts_coach/allocation.py:43-66 | every module stays within the maximum of its previous share, and every candidate ends within 1e-9 of one if and only if a bound on the previous total and the maximum holds |
| Allocation.StuckCandidateStays | src/ielts_coach/allocation.py:48-62 | whenever that bound fails there is a candidate whose residual the loop never reduces |
| Allocation.MaximaThatSuffice | src/ielts_coach/allocation.py:43-66 | with previous shares summing to one only maxima between 0.25e-9 and 0.75e-9 fail |
| Allocation.FourRoundsAreEnough | src/ielts_coach/allocation.py:48-65 | when that bound holds, four rounds already give what twelve give |
| Allocation.NormalisedSumsToOne | src/ielts_coach/allocation.py:33-40 | a positive total, and only that, gives four-decimal shares summing to exactly one, each within its rounding error of exact |
| Allocation.WeeklyChangeIsLimited | src/ielts_coach/allocation.py:33-66 | when that bound holds, each weekly change exceeds the maximum by at most the rounding error and the loop tolerance on its own share |
| Allocation.ChangeOfOrdinaryShares | src/ielts_coach/allocation.py:33-66 | when no previous share is below the maximum the tolerance term is at most 1e-9 |
| Allocation.CapShift | src/ielts_coach/allocation.py:43-66 | the twelve-round loop over lists of eligible modules computes `Capped`, normalised |
| Allocation.Normalise | src/ielts_coach/allocation.py:33-40 | rounding and repairing listening in place computes `Normalised`, or the error |
| Allocation.CandidateShares | src/ielts_coach/allocation.py:117-149 | the candidate sums to one and follows the signals: listening and reading divide the receptive share as 1 + gap to 1 + gap, writing and speaking the rest as 1.7 + gap to 0.8 + gap with speaking at 0.08 at least, each with 0.35 more when dormant and writing when at risk; writing is non-negative exactly when there is room |
| Allocation.MoreMissingMoreShare | src/ielts_coach/allocation.py:117-149 | with neither of them dormant, of listening and reading the one further below its target gets more of the receptive share, and both the same when both have reached it |
| Allocation.ReceptiveShareFollows | src/ielts_coach/allocation.py:90-114 | the receptive share is the policy's, 0.05 more for a gap of 0.75, 0.10 less below a minimum or else 0.05 less when listening and reading are near their targets and writing or speaking is not, kept within the policy's bounds |
| Allocation.RecommendAllocation | src/ielts_coach/allocation.py:69-156 | the candidate is, up to rounding, one that follows the signals; the published allocation is that candidate limited, sums to one and keeps the weekly limit |
| Pedagogy.AnyRunIsValid | src/ielts_coach/pedagogy.py:52-571 | after any sequence of transactions every cycle row is the replay of its log and no thread has two unfinished cycles |
| Pedagogy.LogOfAnyRun | src/ielts_coach/pedagogy.py:715-758 | the sequence is 1..n, the revision n-1, consecutive events chain along allowed edges, and the stored phase is the last one |
| Pedagogy.ReplayedShape | src/ielts_coach/pedagogy.py:29-37 | what a log that replays looks like: numbering, chain, edges, end |
| Pedagogy.FinishedIsAbsorbing | src/ielts_coach/pedagogy.py:340-351 | completed and cancelled cycles keep status and phase whatever follows |
| Pedagogy.OneWinnerPerRevision | src/ielts_coach/pedagogy.py:702-712 | over any run at most one operation that presents a given revision of a cycle changes it |
| Pedagogy.ObservationIsOnActiveExactly | src/ielts_coach/pedagogy.py:440-511 | under any interleaving an appended observation finds the row its turn has read, so the cycle is active if and only if the snapshot was |
| Pedagogy.SnapshotIsFinishedExactly | src/ielts_coach/pedagogy.py:192-203 | over any interleaving the snapshot a turn holds is of a finished cycle if and only if the cycle was finished between the turn's lookup and its read |
| Pedagogy.ObservationCanFollowCompletion | src/ielts_coach/pedagogy.py:192-203 | a turn that looks a cycle up, and reads it after it was completed, appends to it |
| Pedagogy.SessionMovesCycle | src/ielts_coach/pedagogy.py:514-571 | the first report of a milestone by a session moves the active cycle of its thread to assess (completed) or to independent practice (started) from the phases that lead there, leaves it in the others, stores the session, raises the revision and logs the event; it is refused only when another session's id has the same first 240 characters |
| Pedagogy.MilestoneTwiceExactly | src/ielts_coach/pedagogy.py:536-543 | a second report of the milestone changes nothing if and only if the session's id is neither empty nor longer than 240 characters |
| Pedagogy.NoCycleToMove | src/ielts_coach/pedagogy.py:514-535 | a session without a thread, or whose thread has no active cycle, changes nothing |
| Pedagogy.StartedExactly | src/ielts_coach/pedagogy.py:88-157 | a cycle is started if and only if its request passed its checks, its thread has no unfinished cycle and its id is new; it is active at revision zero with its first event |
| Pedagogy.TransitionedExactly | src/ielts_coach/pedagogy.py:269-313 | a transition is accepted if and only if the revision is current, the cycle active, its phase one of those that lead to the one asked for, and the source new; then phase, revision and log change, each error has its cause, and nothing else changes |
| Pedagogy.StatusSetExactly | src/ielts_coach/pedagogy.py:332-374 | an active cycle can be paused, completed or cancelled, a paused one resumed or cancelled, at the current revision, and nothing else |
| Pedagogy.ObservedExactly | src/ielts_coach/pedagogy.py:585-622 | an observation adds its event and raises the revision whatever the status; one recorded before changes nothing |
| Pedagogy.TurnStarts | src/ielts_coach/pedagogy.py:467-479 | a tutor turn that found no cycle starts one in the phase its result calls for, unless its thread has one by then |
| Pedagogy.TurnMoves | src/ielts_coach/pedagogy.py:482-498 | a turn that has read its cycle moves it to the phase its result calls for, if the phase it has read leads there and the cycle has not changed since |
| Pedagogy.TurnObserves | src/ielts_coach/pedagogy.py:498-511 | or else it notes an observation, once |
| Pedagogy.TurnIsLate | src/ielts_coach/pedagogy.py:480-511 | it does nothing when the cycle it has read is paused or has changed since |
| Pedagogy.TurnEnds | src/ielts_coach/pedagogy.py:463-511 | a turn is over once it has been applied, and one that found a cycle does nothing before it has read it |
| Pedagogy.RecommendedExactly | src/ielts_coach/pedagogy.py:390-437 | for each recommendation, the status, phases and ranges of the estimate that lead to it |
| Pedagogy.RecommendationIsAccepted | src/ielts_coach/pedagogy.py:390-437 | every recommended phase is an allowed edge, and the transition to it at the current revision succeeds |
| Pedagogy.ConsolidatesExactly | src/ielts_coach/pedagogy.py:390-437 | following recommendations consolidates within four steps if and only if the estimate is at least 0.8 or the phase already is consolidate |
| TeachingStore.CycleTables.AppendEvent | src/ielts_coach/pedagogy.py:715-758 | an event gets the next sequence number, or is refused by the unique index over sources |
| TeachingStore.CycleTables.StartCycle | src/ielts_coach/pedagogy.py:88-157 | ends as `Started` says, or unchanged with the error |
| TeachingStore.CycleTables.TransitionCycle | src/ielts_coach/pedagogy.py:269-313 | ends as `Transitioned` says, or unchanged with the error |
| TeachingStore.CycleTables.UpdateStatus | src/ielts_coach/pedagogy.py:332-374 | ends as `StatusSet` says, or unchanged with the error |
| TeachingStore.CycleTables.RecordObservation | src/ielts_coach/pedagogy.py:585-622 | ends as `Observed` says, or unchanged with the error |
| TeachingStore.CycleTables.IngestSession | src/ielts_coach/pedagogy.py:514-571 | the milestone goes to the one active cycle of its thread |
| AgentRuns.InvokedOncePerAttempt | src/ielts_coach/agent_jobs.py:87-701 | over any claims, crashes, expiries, sweeps and careful retries a model is invoked at most once for each attempt |
| AgentRuns.SavedAnswerIsEnough | src/ielts_coach/agent_jobs.py:463-491 | a run with a saved answer goes on without a new invocation until it is retried |
| AgentRuns.RowTellsProgress | src/ielts_coach/agent_jobs.py:447-683 | with careful retries status, checkpoint and result of the row always tell how far the manager at work has come and what it goes on from |
| AgentRuns.RecoveryResumes | src/ielts_coach/agent_jobs.py:87-180 | a swept run is queued again with its saved answer when it keeps one, and otherwise failed |
| AgentRuns.RetryStartsOver | src/ielts_coach/agent_jobs.py:295-347 | a retry queues the next attempt with nothing saved and nobody's lease |
| AgentRuns.PersistedIsEndorsed | src/ielts_coach/agent_jobs.py:577-683 | in any trace, however often the run was resumed, a persisted result is accepted by the policy and is the answer of a response that was vouched for, or the normal form of one, accepted by the schema and the rules; no mock or manual run persists |
| AgentRuns.JudgedAgain | src/ielts_coach/agent_jobs.py:577-645 | checking an output again, as a resumed run does, gives what the checks give for the received answer itself, if anything |
| Answers.NormalisedTwice | src/ielts_coach/validation.py:18-30 | normalising an answer, at every depth, a second time changes nothing |
| Answers.PartsAreWrittenOut | src/ielts_coach/validation.py:18-30 | the normal form has the same parts at the same places, dates and paths written out as text and everything else as it was |
| AgentRuns.RetryWriteExactly | src/ielts_coach/agent_jobs.py:295-347 | the write of a retry can lead to a second invocation for an attempt if and only if a later attempt was invoked since it read the row or a manager has just claimed the run |
| AgentRuns.CarefulIsHarmless | src/ielts_coach/agent_jobs.py:295-326 | a retry whose row is still the failed row it read is harmless |
| AgentRuns.OverlappingRetries | src/ielts_coach/agent_jobs.py:295-347 | two retries that both read before either writes lead to a second invocation |
| AgentRuns.StepIsSound | src/ielts_coach/storage_agents.py:317-418 | every step in which a retry overwrites only the row it read keeps one busy manager under the lease, and a queued run whose attempt was invoked always has a saved answer |
| AgentRuns.ExecutedIsTrace | src/ielts_coach/agent_jobs.py:447-735 | an undisturbed execution is the trace of its steps |
| AgentRuns.ExecutionDecides | src/ielts_coach/agent_jobs.py:447-735 | an undisturbed execution decides the saved answer without a new invocation, or asks once and decides that |
| AgentRuns.AgentRun.Execute | src/ielts_coach/agent_jobs.py:447-735 | the method changes the row as that execution says, or not at all when the run is not its to claim; a saved or a new answer ends persisted (or as a passed test) if and only if it is accepted, and failed and gone otherwise |
| AgentRuns.AgentRun.Deliver | src/ielts_coach/agent_jobs.py:562-683 | from answer to persisted, test passed, awaiting import or failed, by what the policy and, unless it was vouched for, the schema and the rules say of its normal form |
| BackgroundJobs.EndedStaysEnded | src/ielts_coach/background_jobs.py:141-162 | a job that has left queued and running never becomes active again, restarts included |
| BackgroundJobs.ClaimedAtMostOnce | src/ielts_coach/background_jobs.py:207-241 | a job is claimed at most once in its life, and never by a child process |
| BackgroundJobs.OneActiveJobPerKey | src/ielts_coach/background_jobs.py:90-139 | at most one active job has a given non-empty dedupe key |
| BackgroundJobs.QueuedHasOnePlace | src/ielts_coach/background_jobs.py:183-212 | after a recovery and until shutdown each queued job is in one queue entry or with one worker that has not claimed it yet |
| BackgroundJobs.ServedInTurn | src/ielts_coach/background_jobs.py:183-196 | one queue entry comes first, the oldest of the most urgent, so equal priorities are served in the order they came |
| BackgroundJobs.SomeEntryIsFirst | src/ielts_coach/background_jobs.py:191-196 | something can always be taken from a queue that is not empty |
| BackgroundJobs.StatusFollows | src/ielts_coach/background_jobs.py:55-401 | by any step a job becomes running only when claimed or marked, completed only when its child ends well while it is running, failed only when its launch, its child, a restart or a stop breaks it while active, and cancelled only by the write of a cancellation; nothing else of it changes but the count of claims |
| BackgroundJobs.StagesFollow | src/ielts_coach/background_jobs.py:191-296 | a worker takes the first entry, looks, claims, launches, watches and leaves, in that order, and leaves at once when the job is no longer queued |
| BackgroundJobs.ChildrenFollow | src/ielts_coach/background_jobs.py:298-355 | a child is launched, reads its job, marks it and executes, in that order, and ends at once when its job is not active |
| BackgroundJobs.CancellationsFollow | src/ielts_coach/background_jobs.py:141-181 | a cancellation is asked for only while its job is active and is written once; a stopped manager stays stopped until it is started again |
| BackgroundJobs.StepKeepsOnePlace | src/ielts_coach/background_jobs.py:183-205 | every step keeps scheduled jobs in exactly one place |
| BackgroundJobs.StepKeepsKeysApart | src/ielts_coach/background_jobs.py:102-137 | every step, between the look at a key and the insertion too, keeps active keys apart |
| BackgroundJobs.JobManager.Enqueue | src/ielts_coach/background_jobs.py:183-189 | schedules a job unless it is scheduled or the manager has stopped |
| BackgroundJobs.JobManager.SubmitJob | src/ielts_coach/background_jobs.py:90-139 | returns the active job with the key, or a new one that is then queued |
| BackgroundJobs.JobManager.Recover | src/ielts_coach/background_jobs.py:55-88 | interrupted jobs have failed and every queued one is scheduled |
| Backups.FailedRestoreKeepsRoots | src/ielts_coach/backups.py:335-395 | a restore that fails anywhere leaves every managed root as before, save for rebasing, wholly or in part, a corpus the archive did not contain |
| Backups.DatabasesAreBackExactly | src/ielts_coach/backups.py:364-395 | whatever goes wrong, a failed restore gives all database files back if and only if the archive has no database, or goes by the name of the one in use and leaves the settings naming it too, or a file that neither rebasing nor migrating changes |
| Backups.RootsAreBackExactly | src/ielts_coach/backups.py:506-596 | whatever goes wrong, it gives all managed roots back if and only if the archive has no database, brings a corpus or finds none, leaves the settings naming a file that does not exist, or rebasing would not change the corpus |
| Backups.KeptCorpusStaysRebased | src/ielts_coach/backups.py:578-596 | in every other case a service that fails to start leaves the kept corpus rebased |
| Backups.OtherNameStaysBehind | src/ielts_coach/backups.py:474-503 | an archive database whose name is not that of a database in use stays behind when its integrity check fails |
| Backups.OtherSettingsStayMigrated | src/ielts_coach/backups.py:373-379 | restored settings that name another file leave it migrated when the health check fails |
| Backups.OtherSettingsStayRebased | src/ielts_coach/backups.py:515-596 | they leave it rebased when rebasing fails after its tables are written |
| Backups.OneNameIsEnough | src/ielts_coach/backups.py:364-395 | in any world a rolled-back restore under that condition on names and files gives all database files back |
| Backups.RestoredRoots | src/ielts_coach/backups.py:346-363 | a restore that succeeds installs every root of the archive and keeps every other |
| Backups.DataHome.SwapRoots | src/ielts_coach/backups.py:338-363 | the loop swaps the roots up to the first failure |
| Backups.DataHome.UndoSwap | src/ielts_coach/backups.py:380-392 | both reverse loops undo what was installed and moved |
| Backups.DataHome.Restore | src/ielts_coach/backups.py:318-395 | the data home ends as `Restoring` says |
| Migrations.RunKeepsPrefix | src/ielts_coach/migrations.py:309-373 | a run leaves a longer or equal prefix completed, and returns if and only if nothing left to do fails |
| Migrations.AnyRunsKeepPrefix | src/ielts_coach/migrations.py:309-373 | so do any number of failing and dying runs |
| Migrations.NothingIsAppliedTwice | src/ielts_coach/migrations.py:317-330 | no migration is applied twice over any runs |
| Migrations.RunAfterReturnIsNoOp | src/ielts_coach/migrations.py:317-330 | after a run that returned everything due is completed and the next run changes nothing |
| Migrations.CompletedEntriesStay | src/ielts_coach/migrations.py:325-330 | a completed entry is never rewritten |
| Migrations.MigrationJournal.Apply | src/ielts_coach/migrations.py:309-373 | the loop over the journal ends as `Ran` says, whichever way it ends |
| DataLifecycle.MediaRegistry.Purge | src/ielts_coach/data_lifecycle.py:76-127 | fails exactly when a requested row raises, a file due to go is stuck or the commit fails; otherwise exactly the requested unreferenced rows and the files due are gone; if it fails all rows are back, and the files gone are those of rows that raise nothing, none of them stuck; a referenced row is never gone |
| DataLifecycle.MediaRegistry.Collect | src/ielts_coach/data_lifecycle.py:111-119 | one row goes, and its file unless another row stores the same path or unlinking raises |
| DataLifecycle.UnlinkedOneMore | src/ielts_coach/data_lifecycle.py:113-123 | collecting one more row unlinks its own file, unless another row still stores that path, and no other file, so the order does not matter |
| DataLifecycle.PurgedExactly | src/ielts_coach/data_lifecycle.py:86-119 | whatever the order of rows, whether a collection fails is the same, and so is what is gone when it completes; if it fails no row is gone, and only files of rows that raise nothing are |
| DataLifecycle.SurvivorKeepsFileExactly | src/ielts_coach/data_lifecycle.py:108-119 | a row keeps its file while it is registered, whatever the order, if and only if its file is not due or goes with the row, or, where the collection fails and all rows stay, no row that raises nothing can take it before |
| DataLifecycle.RegisteredKeepFilesExactly | src/ielts_coach/data_lifecycle.py:86-119 | all registered rows always keep their files if and only if the collection completes and no row that stays resolves to a file due, or it fails and no file can be taken before |
| DataLifecycle.ResolvedRowsKeepFilesExactly | src/ielts_coach/data_lifecycle.py:86-119 | with resolved stored paths: if and only if the collection completes or no file can be taken before it fails |
| DataLifecycle.FailureTakesFileExactly | src/ielts_coach/data_lifecycle.py:86-119 | some order fails and takes the file of a row that stays registered if and only if the collection is bound to fail and some row that raises nothing has a file due that is not stuck |
| DataLifecycle.StuckFileCostsAnother | src/ielts_coach/data_lifecycle.py:108-119 | two resolved rows, the second with a stuck file: both stay registered and the first has lost its file |
| DataLifecycle.SharedFileGoes | src/ielts_coach/data_lifecycle.py:113-123 | a file shared by collected rows only goes |
| DataLifecycle.UnresolvedSurvivorLosesFile | src/ielts_coach/data_lifecycle.py:113-123 | an unresolved stored path can cost a referenced row its file |
| ReviewQueue.SyncedIsReconciled | src/ielts_coach/learning_orchestration.py:177-239 | the reconciliation does to each key what its row and its candidates call for, and nothing else |
| ReviewQueue.AfterSync | src/ielts_coach/learning_orchestration.py:177-239 | every candidate has a row, every open managed row is a candidate's and carries its details, closed rows are unchanged |
| ReviewQueue.SyncIsIdempotent | src/ielts_coach/learning_orchestration.py:177-239 | a second reconciliation with the same candidates changes nothing |
| ReviewQueue.ClosedStaysClosed | src/ielts_coach/learning_orchestration.py:414-610 | no sequence of operations, each one step, reopens a closed task |
| ReviewQueue.ReopenedExactly | src/ielts_coach/learning_orchestration.py:440-473 | with starts in two transactions, a closed task is reopened if and only if a checked start is then written |
| ReviewQueue.CompletionBetweenIsUndone | src/ielts_coach/learning_orchestration.py:440-473 | a completion between the check and the write is undone |
| ReviewQueue.UndisturbedStart | src/ielts_coach/learning_orchestration.py:440-473 | a start written right after its check is the whole start |
| ReviewQueue.UnnamedTaskCloses | src/ielts_coach/learning_orchestration.py:215-235 | an open task that is nobody's candidate is completed if and only if it comes from one of the four managed sources |
| ReviewQueue.StartTakesUp | src/ielts_coach/learning_orchestration.py:440-473 | after reconciling, an unknown task is refused, so is a closed one, and an open one is in progress with the unit named after it, made if there was none |
| ReviewQueue.ConsolidationTakesUp | src/ielts_coach/learning_orchestration.py:363-422 | the day's consolidation takes up a task that is still pending, unless the day has its unit |
| ReviewQueue.BindingSetsGoing | src/ielts_coach/learning_orchestration.py:476-538 | binding sets a planned unit going and leaves one that is done or cancelled |
| ReviewQueue.QueueTables.SyncTasks | src/ielts_coach/learning_orchestration.py:177-239 | the loop of upserts and the completion of stale tasks reconcile every key |
| ReviewQueue.QueueTables.StartTask | src/ielts_coach/learning_orchestration.py:440-473 | synchronises, refuses unknown and closed tasks, and starts the others with their unit |
| ReviewQueue.QueueTables.CompleteReviewTask | src/ielts_coach/learning_orchestration.py:541-568 | completes the row and its unit, which then are closed together |
| ReviewQueue.QueueTables.CompletePracticeUnit | src/ielts_coach/learning_orchestration.py:571-610 | completes a unit and closes every task it was practised for, and no other |
| ProviderCircuit.HealthMatchesTrace | src/ielts_coach/model_providers.py:1315-1375 | the stored count is the retryable failures since the last success, and the circuit is open for 60 to 900 seconds from the last outcome if and only if that was at least the third of them |
| ProviderCircuit.NothingIsSentWhileOpen | src/ielts_coach/model_providers.py:1291-1312 | while the circuit is open a call sends and records nothing |
| ProviderCircuit.ClosedCircuitSends | src/ielts_coach/model_providers.py:1204-1288 | with fewer than three such failures an authorised call sends one to four requests |
| ProviderCircuit.OneOutcomePerCallExactly | src/ielts_coach/model_providers.py:1031-1288 | over any trace a provider has exactly as many records as its calls that sent a request and let no exception escape |
| ProviderCircuit.BrokenCallRecordsNothing | src/ielts_coach/model_providers.py:1239-1275 | a call whose first request breaks sends one request and records nothing |
| ProviderCircuit.RefusedExactly | src/ielts_coach/model_providers.py:1291-1375 | an authorised call sends nothing if and only if the last outcome was a retryable failure, at least the third since the last success, and the cooldown asked for, kept between 60 and 900 seconds, is not over |
| ProviderCircuit.UnauthorisedSendsNothing | src/ielts_coach/model_providers.py:1222-1229 | a call without the credential it needs sends nothing |
| ProviderCircuit.RequestsAreRetries | src/ielts_coach/model_providers.py:1204-1288 | every request but the last failed with 408, 429, 500, 502, 503, 504 or unreachable, and the last did not or used up the configured retries, three at most |
| ProviderCircuit.LogTellsLastRequest | src/ielts_coach/model_providers.py:1031-1288 | what a call records is how its last request and its body ended |
| ProviderCircuit.ProviderHealth.OpenResponse | src/ielts_coach/model_providers.py:1204-1288 | the retry loop sends what `Sent` says and records a final failure only |
| ProviderCircuit.ProviderHealth.Perform | src/ielts_coach/model_providers.py:1031-1201 | a whole call changes the health table as the trace says |
| ProviderCircuit.ProviderHealth.RecordFailure | src/ielts_coach/model_providers.py:1333-1375 | counts retryable failures and opens the circuit from the third |
| ContextAssembly.AttachmentsAreGreedy | src/ielts_coach/context_engine.py:35-57 | the characters taken are exactly the lesser of the budget and the capped total |
| ContextAssembly.AttachmentBudgetExactly | src/ielts_coach/context_engine.py:38-46 | the attachment budget is always respected if and only if the cap on one attachment is not negative |
| ContextAssembly.NegativeCapOverruns | src/ielts_coach/context_engine.py:43-46 | a negative cap lets one long attachment overrun its budget |
| ContextAssembly.AttachmentsKeepOrder | src/ielts_coach/context_engine.py:38-54 | taken texts are beginnings of offered ones, in the order offered |
| ContextAssembly.AttachmentsAddUpExactly | src/ielts_coach/context_engine.py:35-57 | taken and omitted attachments add up to those offered if and only if the limit on their number is not negative |
| ContextAssembly.ConversationIsGreedy | src/ielts_coach/context_engine.py:59-97 | the conversation uses exactly the lesser of the budget and what is selected |
| ContextAssembly.ConversationKeepsNewest | src/ielts_coach/context_engine.py:62-97 | a suffix of the messages with text is kept whole and in order, and at most one more is cut to a beginning |
| ContextAssembly.ConversationIsWholeExactly | src/ielts_coach/context_engine.py:59-97 | all messages with text are kept, whole and in order, if and only if they fit the room |
| ContextAssembly.NothingCutExactly | src/ielts_coach/context_engine.py:62-72 | no message is counted as cut if and only if the room lasts until the oldest one is reached |
| ContextAssembly.TakeAttachments | src/ielts_coach/context_engine.py:35-57 | the attachment loop computes what the functions above describe |
| ContextAssembly.KeepConversation | src/ielts_coach/context_engine.py:59-97 | the loop from the newest message back computes what the functions above describe |

## Left out

- Columns that only record when a row was written, the stored calculation behind an estimate, and titles, contexts and reasons kept as text.
- Floating point: shares, scores and weights are exact reals, and rounding is to the nearest with ties to even.
- ISO timestamps: a time is a number, and the texts are assumed to compare as their times do.
- Learner model: the objectives and activities themselves, and the cascades when a thread, a session or an objective is deleted. Reviews are addressed by their stable key instead of their id; ids of new reviews come from a counter that one ingestion advances once for all its schedules.
- LearningModel.CompletionsAreDistinct: stated for review ids that do not start with white space and leave room for the number, which the generated ids do.
- Text: white space is the characters up to U+00A0 that Python strips; case folding and the choice of skills by the domain pack are functions of the pack.
- Allocation: the reasons and evidence stored beside an allocation, and where its signals come from.
- Teaching cycles: the checks of linked records and titles are one flag, the deletion of a thread's cycles is not modelled, and mastery enters the recommender as an optional estimate.
- Agent runs: cancellation, the statuses it leads to, and the parent process that watches an isolated worker; an answer is a value of text, numbers, flags, lists and named parts, whose part names are text and which reads back from the store as it was written; the schema and the semantic rules accept or refuse it, and the policy returns it or raises. Usage, events and provider attempts of a run are not modelled, nor is anything the persisting step writes elsewhere.
- Background jobs: what a job does, its payload and its pid; the watching loop may end at any time. Raised database errors in a worker thread are not modelled.
- Backups: creating, verifying and pruning archives, and the extraction of an archive. Installing, rebasing, migrating and checking act on the database and the corpus by arbitrary functions and may fail before or after their effect.
- Migrations: what an action does; it succeeds, raises or dies as a whole, and the version it goes on from is journalled as in the code without a claim about it.
- Media: walking directories, quotas and the deletion of whole threads.
- Review queue: which reviews are due is a parameter; tasks and units are addressed by their stable and source keys, and units hold only a status.
- Provider calls: requests, bodies and streams are their endings; the delays between retries and concurrent calls are not modelled.
- Context: what the envelope holds beside attachment texts and messages.
- The remaining modules of the repository.
