# GitLab achievements, verified

A Dafny model of the parts of the repository that have to be right across crashes, retries, restarts and
concurrent processes, with proofs of what they are meant to guarantee. `dafny verify dfyconfig.toml` checks it all.

| files | what they model |
|---|---|
| `Awards`, `AwardSafety`, `AwardTurns`, `AwardConvergence`, `AwardRetune`, `AwardDelivery`, `AwardRace` | delivering earned awards to GitLab over two stores that can each fail |
| `Lease` | the cross-process lease and its renewal loop |
| `Activity`, `Days`, `Engine`, `EngineStore`, `Confluence` | the achievement engine: events, counters, sets, tiers, EXP |
| `Pipelines`, `Backfill`, `BackfillRunner`, `BackfillMeaning` | the resumable history walk, and build fixes |
| `DedupKeys`, `Webhook`, `EventsApi`, `NormalizersAgree` | the two normalizers and the keys they share |
| `IdentityCache`, `IdentityRace`, `Queue`, `Watermark` | the bounded expiring cache, the webhook queue, the reconciliation window |
| `Achievements`, `AchievementsConverge`, `AchievementsPasses`, `AchievementsReconcile`, `Catalog` | binding the catalog to GitLab's achievements; tier curves and numerals |
| `Sets` | one fact about sets |

Code that updates state in place is a class whose methods are proved equal to a specification function of the old
state (`Delivery`, `Tables`, `CachingVerifier`, `LeaseTable`, `Reconciliation`, `Watermark`) or, for the history
walk, proved to keep its invariants outright (`Walk`); the theorems are about those functions and invariants.
The lease, the delivery race and the queue are state machines over atomic steps.

Failures are inputs. A pass reads a script of fates, one per call or statement: the call works, is refused, or takes
hold although its caller sees an error. A script that runs out (award delivery), or an entry that ends the pass
(elsewhere), is a crash at that point. A claim about every script is therefore a claim about a failure or crash
between any two statements. GitLab is a second mutable store beside the database's tables. Times are numbers, days
are numbers from 1, and what the inner verifier, GitLab and the clock say are parameters.

## What the proofs found

- **A stale username can award twice.** An award that was made but not recorded is made again, by a pass all of
  whose calls succeed, exactly when the stored username has come to name an account that owns no award at all
  (`AwardSafety.StaleNameAwardsTwice`). Otherwise no run awards twice, given that no two of a user's rows are for one
  achievement, which the unique indexes see to (`internal/db/models.go`, lines 69 and 188-189).
- **A retune does not always heal on the next pass.** After a pass that went through it does, whatever the retune
  (`AwardRetune.RetuneHeals`, `AwardRetune.SmoothRunsHeal`). In general a pass without failures leaves a user's live
  awards exactly the top tiers if and only if each of their rows can still come right, and passes never change which
  can (`AwardRetune.RetunedRunConverges`, `AwardConvergence.PassKeepsHealing`). A crash between a GitLab call and the
  row it should have written, with a retune after it, leaves one that cannot: a top tier taken for delivered under an
  award that is gone, or a withdrawn one with an award still live (`AwardRetune.LostWithdrawal`,
  `AwardRetune.LostDelivery`); no later pass mends it until tiers change again (`AwardConvergence.NeverComesRight`).
- **The lease's two-query grace is not always enough.** "Cancelled within a third of the time to live plus two
  queries" holds exactly when the time to live divides by three or a query is no longer than the remainder. Otherwise
  the bound is larger by the difference, and a run is given that reaches it (`Lease.GraceIsReached`).
- **A second shutdown can report success over a queue that is not empty**, after a first one that timed out; so can
  a first one when a delivery had checked for the shutdown just before it began
  (`Queue.SecondShutdownMayLie`, `Queue.LateSendMayBeLost`). Without either, success means drained
  (`Queue.NilMeansDrained`).
- **A branch or tag whose own name starts with `refs/`** gets different keys from the two normalizers when an
  event spells it in short (`NormalizersAgree.PushesAgree` gives the exact condition).
- **Walk and scan can disagree about a build fix** when only one of them reaches the ref's last finished pipeline;
  `Pipelines.WalkAndScanAgree` gives the exact condition. A build fix on no ref is one only the history reports.
- **A bounded walk drops undated releases.** The comment on `afterCeiling` says that a record with no usable date is
  kept. With a floor configured, the comparison with it drops such a release all the same
  (`internal/backfill/backfill.go`, line 553; `BackfillMeaning.UndatedReleaseIsDropped`): an undated one is handed over
  exactly when the walk has no floor (`BackfillMeaning.UndatedIsHandedExactlyWhen`). The same is true of merge requests
  without `merged_at` (line 515), which yield no activity anyway.
- **Reconciling achievements can get stuck for good.** A catalog entry that would adopt an achievement some other row
  records, such as the row of a criteria since renamed, is refused by the unique index on every pass
  (`AchievementsPasses.RenamedCriteriaIsStuck`); so is one whose achievement cannot be given its name because another
  holds it. A pass without faults goes through exactly when nothing stands in any entry's way, and the catalog can be
  brought in line at all exactly when nothing stands there for good (`AchievementsPasses.PassSettles`,
  `AchievementsPasses.SettlesExactlyWhen`). Where one achievement is the target of two entries no pass goes through: for
  good if the adopting entry comes first, and once if the bound one does (`AchievementsPasses.SharedTargetStops`,
  `AchievementsPasses.OrderDecides`).
- **A forgotten identity can come back.** A verification that was under way when its token was forgotten is kept
  afterwards and answers the next lookup; nothing else that began before the forget does
  (`IdentityRace.WhatWasUnderWayReturns`, `IdentityRace.OnlyWhatWasUnderWayReturns`).

## Model

| member | source | states |
|---|---|---|
| `AwardSafety.NeverTwoLive` | internal/bootstrap/awards.go:211-257 | over every run of passes one at a time, with catalogs retuned, names going stale, tiers earned and awards revoked elsewhere in between, calls failing before or after they apply and crashes anywhere: no user ever holds two live awards of one achievement, if none did at the start |
| `AwardSafety.PassStaysSafe` | internal/bootstrap/awards.go:70-104 | one pass under any script of fates adds no duplicate live award |
| `AwardSafety.StaleNameAwardsTwice` | internal/bootstrap/awards.go:505-539 | for an unrecorded live award and two working calls, delivering stays safe if and only if the stored username still names the user or names somebody whose awards give it away |
| `AwardSafety.ListedExactly` | internal/bootstrap/awards.go:505-539 | a listing indexes, per achievement, a live award of the user for every achievement they hold one of, and nothing else |
| `AwardSafety.DeliverGuards` | internal/bootstrap/awards.go:211-257 | delivering one award keeps what the pass knows of the user's live awards complete for every award still to come, and keeps GitLab free of duplicates |
| `AwardSafety.SupersedeGuards` | internal/bootstrap/awards.go:325-357 | the same of withdrawing a lower tier's award |
| `AwardConvergence.AnyRunConverges` | internal/bootstrap/awards.go:144-202 | after any run under a fixed catalog, a pass whose calls all work leaves each user's live awards among this app's achievements exactly the top held tier per criteria, under the recorded IDs, lower tiers superseded; and whatever pass follows changes nothing and calls nothing |
| `AwardConvergence.SmoothPassConverges` | internal/bootstrap/awards.go:144-183 | one pass whose calls all work leaves every row at rest, and a user's live awards exactly the top tiers if and only if each of their rows could come right before it |
| `AwardConvergence.PassKeepsHealing` | internal/bootstrap/awards.go:211-257 | a pass under any fates keeps duplicates out and records true, and neither mends a row that cannot come right nor spoils one that can |
| `AwardConvergence.NeverComesRight` | internal/bootstrap/awards.go:144-183 | a row that cannot come right keeps GitLab from holding exactly the top tiers through any number of passes under that catalog |
| `AwardConvergence.RestAndHealIsExact` | internal/bootstrap/awards.go:144-183 | GitLab holds exactly the top tiers if and only if every row is at rest and can be left there |
| `AwardConvergence.NextPassIsQuiet` | internal/bootstrap/awards.go:144-183 | once every row is at rest, no pass awards, revokes or writes, whatever its calls would have come to |
| `AwardConvergence.RunKeepsSound` | internal/bootstrap/awards.go:211-257 | every run from a fresh start keeps the invariant tying rows to live awards: each row's record is its own award's, and every live award of ours is some row's |
| `AwardConvergence.SmoothPassEnds` | internal/bootstrap/awards.go:70-104 | with no failing call, a pass with two statements per user and four per award to spend always runs to its end |
| `AwardConvergence.PickedIsTop` | internal/bootstrap/awards.go:191-202 | the tier a pass takes for the top is the highest tier of its criteria among all the user's rows |
| `AwardTurns.DeliverKeeps` | internal/bootstrap/awards.go:211-257 | delivering one award, whatever becomes of its calls, touches that award only, keeps what the pass knows exact, and does not change whether the row can come right |
| `AwardTurns.SupersedeKeeps` | internal/bootstrap/awards.go:325-381 | the same of withdrawing a lower tier's award |
| `AwardTurns.DeliverSettles` | internal/bootstrap/awards.go:211-257 | when its calls work, delivering ends accepted under an ID |
| `AwardTurns.SupersedeSettles` | internal/bootstrap/awards.go:325-381 | when its calls work, withdrawing ends superseded |
| `AwardRetune.EveryRunKeepsBase` | internal/bootstrap/awards.go:48-51 | over every run with retunes, earned tiers, outside revocations and failing passes: no two live awards of one achievement, every live award of ours is some row's, and a row records awards of its own only |
| `AwardRetune.RetunedRunConverges` | internal/bootstrap/awards.go:108-116 | after any such run, a pass whose calls all work leaves a user exactly the top tiers of its catalog if and only if each of their rows could come right |
| `AwardRetune.RetuneHeals` | internal/bootstrap/awards.go:108-116 | where GitLab holds exactly a user's top tiers, every row can come right under any retuned catalog |
| `AwardRetune.SmoothRunsHeal` | internal/bootstrap/awards.go:48-51 | in a run whose passes all go well, after each of them every user visited holds exactly their top tiers, however the catalog changed in between |
| `AwardRetune.LostWithdrawal` | internal/bootstrap/awards.go:325-357 | a crash between taking a lower tier off and writing so leaves a row that cannot come right once a retune makes it the top |
| `AwardRetune.LostDelivery` | internal/bootstrap/awards.go:211-257 | a crash between awarding a tier again and writing so leaves a row that cannot come right once a retune takes it back |
| `AwardDelivery.Delivery.ReconcileAwards` | internal/bootstrap/awards.go:70-104 | the loop over users, run in place, ends in the specified state for every script, and keeps GitLab free of duplicates |
| `AwardDelivery.Delivery.ReconcileUserAwards` | internal/bootstrap/awards.go:144-183 | one user's turn: top tiers picked, each award delivered or superseded in the order listed |
| `AwardDelivery.Delivery.TopTiersOf` | internal/bootstrap/awards.go:191-202 | the loop computes the highest tier per criteria |
| `AwardDelivery.Delivery.DeliverAward` | internal/bootstrap/awards.go:211-257 | confirms, adopts or awards; records by compare-and-set; revokes its own award when it lost |
| `AwardDelivery.Delivery.SupersedeAward` | internal/bootstrap/awards.go:325-357 | revokes whatever live award stands behind a lower tier, then marks it superseded |
| `AwardDelivery.Delivery.TransitionAward` | internal/bootstrap/awards.go:275-293 | writes the row only if it is still as it was read, and says whether it was |
| `AwardDelivery.Delivery.RecordAwardDelivered` | internal/bootstrap/awards.go:394-411 | the row becomes accepted under the record's ID, counted when it was written |
| `AwardDelivery.Delivery.RecordAwardFailure` | internal/bootstrap/awards.go:424-445 | the row becomes failed unless it was already, and unless it moved |
| `AwardDelivery.Delivery.Load` | internal/bootstrap/awards.go:505-539 | the listing loop leaves exactly the live awards of the user, or a failure when a foreign one shows up |
| `AwardDelivery.Delivery.AwardOnGitLab` | internal/bootstrap/awards.go:568-582 | awards and remembers what was awarded; an award that took hold unseen is there all the same |
| `AwardDelivery.Delivery.RevokeOnGitLab` | internal/bootstrap/awards.go:586-598 | revokes and forgets what was revoked |
| `AwardRace.FinishedPassesAgree` | internal/bootstrap/awards.go:211-257 | any number of passes interleaved on one top-tier award, whatever its row recorded before: when all have finished, every live award is the one the row records, so at most one |
| `Lease.TakeoverIsEarned` | internal/db/lease.go:184-221 | the lease changes hands only once the claim behind it ran out or its holder released it |
| `Lease.ReplacedForGood` | internal/db/lease.go:283-318 | a replaced holder never owns the lease again, and no later renewal or release of its changes the row |
| `Lease.CancelledInTime` | internal/db/lease.go:229-277 | with queries shorter than a renewal interval, a live context is never older than the exact grace period past the claim behind it |
| `Lease.OverlapIsBounded` | internal/db/lease.go:94-132 | two holders work side by side for less than the grace period after a takeover |
| `Lease.GraceIsReached` | internal/db/lease.go:229-277 | where the thirds of the time to live do not add up, a timely run outlives a third plus two queries, by exactly what the grace period allows |
| `Lease.LeaseTable.TakeLease` | internal/db/lease.go:184-221 | update of a claim that ran out, else insert if there is none: taken exactly in those two cases |
| `Lease.LeaseTable.TouchLease` | internal/db/lease.go:283-293 | renews only its own claim, and says whether it still was |
| `Lease.LeaseTable.ReleaseLease` | internal/db/lease.go:304-318 | frees only its own claim |
| `Confluence.OrderIsImmaterial` | internal/engine/engine.go:188-202 | two event sequences with the same set of taken events, where equal keys mean equal events but for the project, lead to the same store |
| `Confluence.ReachableStoresAgree` | internal/engine/engine.go:229-305 | after any prefix of events the store is the one that the set of distinct events determines: counters, days, projects, tiers and EXP |
| `Confluence.HoldsWhatCountsReach` | internal/engine/engine.go:443-536 | with thresholds of at least 1: each cumulative counter is the sum of weights over the user's distinct activities, a tier is held if and only if its threshold is reached, and EXP is the sum of the held tiers' rewards |
| `Confluence.EvaluateAgrees` | internal/engine/engine.go:229-273 | a new event takes a user's rows to what their set of events with that event in it comes to |
| `Confluence.RepeatAgrees` | internal/engine/projects.go:80-111 | a repeat adds its project if it is new to the user, and otherwise changes nothing |
| `Confluence.DayCountersAreCurrent` | internal/engine/engine.go:307-337 | the stored day counters equal the totals of the stored days in every reachable state, although recomputing is skipped when nothing changed |
| `Days.ComputeDayTotals` | internal/engine/days.go:144-187 | the loop over the ordered days computes how many there are, the longest run of consecutive ones, and the notable ones |
| `Days.LongestRunIsUnique` | internal/engine/days.go:133-143 | the longest run is the one number such that a run that long exists and none longer |
| `Days.RecordingNeverLowers` | internal/engine/days.go:79-133 | recording a day or latching a flag lowers none of the four totals |
| `EngineStore.Tables.Process` | internal/engine/engine.go:114-202 | one event, run in place: dropped for an unknown or excluded actor, a repeat adds a project at most, a first sighting is evaluated |
| `EngineStore.Tables.Evaluate` | internal/engine/engine.go:229-273 | counter, day and project criteria in turn, and EXP re-derived exactly when something was awarded |
| `EngineStore.Tables.EvaluateRepeat` | internal/engine/projects.go:80-111 | a known activity adds a project new to the user, with its tiers and EXP |
| `EngineStore.Tables.EvaluateDays` | internal/engine/engine.go:307-337 | a day that is new or newly notable is stored and the four day criteria recomputed; any other changes nothing |
| `EngineStore.Tables.RecordActivityDay` | internal/engine/days.go:79-133 | the day is stored with its flags latched, reporting exactly whether anything changed; undated activity is ignored |
| `EngineStore.Tables.EvaluateProjects` | internal/engine/projects.go:22-51 | a new project is added and the count set to the size of the set |
| `EngineStore.Tables.AwardReachedTiers` | internal/engine/engine.go:495-536 | the held tiers grow by exactly those of the criteria that the count reaches, returning how many are new |
| `EngineStore.Tables.IncrementCounter` | internal/engine/engine.go:443-460 | one counter grows by the weight, from nothing if need be |
| `EngineStore.Tables.SetCounter` | internal/engine/engine.go:467-486 | one counter is overwritten |
| `EngineStore.Tables.RecomputeExp` | internal/engine/exp.go:82-98 | one user's total becomes the sum of the rewards of the tiers they hold |
| `EngineStore.Tables.RecomputeAll` | internal/engine/exp.go:127-161 | every total is right afterwards, only wrong ones changed, and the number returned is exactly how many were wrong |
| `EngineStore.TotalsStayRight` | internal/engine/engine.go:256-272 | no sequence of events leaves a total wrong in a store whose totals were right, whatever the keys |
| `EngineStore.RecomputationRestores` | internal/engine/exp.go:36-161 | after any change of rewards a recomputation rights every total, touches exactly the users whose total was wrong, and later events keep it so |
| `Backfill.HandingFits` | internal/backfill/backfill.go:588-597 | a record counts as handed over only when all of its activities went to the processor |
| `BackfillRunner.Walk.Run` | internal/backfill/backfill.go:144-187 | whatever goes wrong in a run, no saved cursor is ahead of the work, nothing but due records was handed over, completion is recorded only when all that is due was, and an interruption costs at most 200 records; a run in which nothing goes wrong completes |
| `BackfillRunner.Walk.Attempts` | internal/backfill/backfill.go:144-187 | the same after any schedule of interrupted, failed and forced runs; a last run without faults completes the walk; and once completed with no project ever refused by GitLab, what was handed over is exactly what is due, whole |
| `BackfillRunner.Walk.WalkProjects` | internal/backfill/backfill.go:211-253 | going through leaves every due record of every group-owned project handed over, but for projects given up on as unreadable |
| `BackfillRunner.Walk.WalkProject` | internal/backfill/backfill.go:279-299 | phases run in order from the saved one; the project is passed only once all four are done or GitLab refused it |
| `BackfillRunner.Walk.HandleProjectError` | internal/backfill/backfill.go:306-321 | a project is given up on exactly when GitLab answers not found or not permitted, and anything else ends the run with the cursor as it was |
| `BackfillRunner.Walk.WalkEvents` | internal/backfill/backfill.go:330-373 | every due event has been handed over, whether in this run or before the saved date, and the date is never ahead |
| `BackfillRunner.Walk.AdvanceEventsCursor` | internal/backfill/backfill.go:378-388 | the date never moves back, nor for an event without one, and nothing before it is left out |
| `BackfillRunner.Walk.WalkPipelines` | internal/backfill/backfill.go:404-450 | every due pipeline has been handed over with the outcome before it that an uninterrupted walk would have known, resumed or not |
| `BackfillRunner.Walk.WalkPipeline` | internal/backfill/backfill.go:431-446 | one pipeline is processed before the cursor moves up to it |
| `BackfillRunner.Walk.WalkRecords` | internal/backfill/backfill.go:495-571 | every due merge request, or release, has been handed over |
| `BackfillRunner.Walk.Process` | internal/backfill/backfill.go:588-597 | the record's activities go to the processor in order, and a failure among them leaves the record not handed over |
| `BackfillRunner.Walk.MaybeFlush` | internal/backfill/backfill.go:601-616 | at most 200 records are ever handed over without the cursor being saved |
| `BackfillRunner.Walk.MarkCompleted` | internal/backfill/progress.go:137-144 | the completion mark is stored before the cursor is cleared, and a crash between the two is sound |
| `BackfillRunner.FloorMeets` | internal/backfill/progress.go:105-116 | what the resumed floor leaves out is before the saved date or before the window, and what it lets through is due unless it is the live path's |
| `BackfillMeaning.HandedIsDue` | internal/backfill/backfill.go:211-321 | a finished walk has handed over exactly the in-window records of the group-owned projects |
| `BackfillMeaning.UndatedReleaseIsDropped` | internal/backfill/backfill.go:551-555 | a release without a date, in the window and below any ceiling, is not due to a walk with a floor |
| `BackfillMeaning.UndatedIsDueExactlyWhen` | internal/backfill/backfill.go:573-585 | no ceiling holds back a merge request or release without a date, and it is due if and only if the walk has no floor |
| `BackfillMeaning.UndatedIsHandedExactlyWhen` | internal/backfill/backfill.go:495-571 | a finished walk has handed such a record over if and only if it had no floor |
| `BackfillMeaning.InterruptionsDoNotMatter` | internal/backfill/progress.go:47-63 | two finished walks of one instance, whatever interrupted either, leave the engine with the same store: each activity counted once |
| `Pipelines.LastPipelineOutcome` | internal/gitlabclient/pipelines.go:46-79 | the newest-first loop finds the ref's last finished pipeline before the given one, looking through 50 |
| `Pipelines.ScanNamesLastFinished` | internal/gitlabclient/pipelines.go:31-45 | the scan names the last finished predecessor if and only if fewer than 50 of the ref's pipelines lie in between |
| `Pipelines.WalkNamesLastFinished` | internal/backfill/backfill.go:415-462 | the forward fold names the last finished predecessor if and only if the walked window holds it |
| `Pipelines.WalkAndScanAgree` | internal/backfill/backfill.go:390-403 | both name the same outcome exactly when no predecessor finished, or the last that did is within both their reaches or beyond both |
| `Pipelines.FixesAgree` | internal/eventsapi/normalize.go:510-521 | both report the same build fix but for a pass whose failed predecessor only one of them can see |
| `DedupKeys.KeysDoNotCollide` | internal/activity/activity.go:122-131 | over the whole grammar, two keys spelled alike are the same key, for refs, commits, paths and discussion IDs without colons |
| `DedupKeys.DecimalIsInjective` | internal/webhook/normalize.go:208 | a number can be read back from its digits in a key |
| `DedupKeys.JoinIsInjective` | internal/webhook/normalize.go:933-939 | the parts of a key can be read back, the last of them colons and all |
| `DedupKeys.ColonsCollide` | internal/webhook/normalize.go:208 | with colons in refs, two different pushes would share a key |
| `Webhook.HookKeysAreSpelled` | internal/webhook/normalize.go:193-859 | every key a payload yields is the one that its kind and the payload's identifiers spell in the grammar |
| `Webhook.SourceKeysAreSpelled` | internal/webhook/normalize.go:504-899 | so is every key of a pipeline fix, a release looked up and a discussion read from the API |
| `Webhook.LastResolvedNote` | internal/webhook/normalize.go:671-689 | the loop finds the note resolved last, or none when a resolvable one is open |
| `Webhook.LastResolvedIs` | internal/webhook/normalize.go:671-689 | that note is after every earlier resolvable one and no earlier than any later one, and there is none exactly when one is open or none can be resolved |
| `Webhook.ResolvedLastIsUnique` | internal/webhook/normalize.go:671-689 | there is at most one such note |
| `Webhook.DiscussionCountsExactlyWhen` | internal/webhook/normalize.go:642-666 | a discussion counts if and only if it is a thread with a resolvable note and none open, for whoever resolved the last |
| `Webhook.ActivitiesDoNotCollide` | internal/webhook/normalize.go:193-899 | two activities of payloads, pipeline fixes, looked-up releases or discussions share a key only when of one kind and agreeing on every identifier it is built from |
| `NormalizersAgree.PushesAgree` | internal/eventsapi/normalize.go:160-221 | branch and tag pushes, creations and deletions: both normalize to the same keys, kinds, actors, projects and weights, if and only if the ref is not one that merely looks qualified |
| `NormalizersAgree.MergeRequestsAgree` | internal/eventsapi/normalize.go:310-328 | an action's record, with a merge's landing read from the merge request, comes to what the hook does, quick merges aside, if and only if the hook names who acted or nothing landed |
| `NormalizersAgree.IssuesAgree` | internal/webhook/normalize.go:408-444 | issue actions agree, tracked or not |
| `NormalizersAgree.CommentsAgree` | internal/eventsapi/normalize.go:252-303 | comments and review comments agree, whichever field names the note and however its type is spelled |
| `NormalizersAgree.PipelinesAgree` | internal/webhook/normalize.go:463-519 | runs and outcomes agree, and given the same previous outcome so do fixes, except on no ref or in no project |
| `NormalizersAgree.ReleasesAgree` | internal/webhook/normalize.go:869-899 | a release counted live has the key, author and project that the releases API gives it |
| `NormalizersAgree.WikiPagesAgree` | internal/eventsapi/normalize.go:428-447 | a created page is counted alike, under its project's path and tied to no project, and an event read both ways counts once |
| `NormalizersAgree.OthersAreNoWikiPages` | internal/eventsapi/normalize.go:428-447 | no event of another kind is taken for a wiki page |
| `IdentityCache.AnswersAreFreshOrRemembered` | internal/api/identity.go:133-156 | for every sequence of undivided calls on a non-decreasing clock, each answer is fresh from the inner verifier or is what it answered for that token less than a time to live ago with no forget since |
| `IdentityRace.HitsWereKept` | internal/api/identity.go:133-198 | with lookups, stores and forgets of any number of callers interleaved, each answer from the cache was kept for that token less than a time to live ago with no forget since it was kept |
| `IdentityRace.OnlyWhatWasUnderWayReturns` | internal/api/identity.go:158-166 | a lookup after a forget is answered from a verification begun before it only if that one was under way at the forget and kept after it |
| `IdentityRace.WhatWasUnderWayReturns` | internal/api/identity.go:133-166 | and such a one does answer the next lookup within its time to live |
| `IdentityCache.CallsKeepValid` | internal/api/identity.go:187-221 | the queue stays sorted by expiry, every entry is queued with its own expiry, and at most 10,000 entries remain |
| `IdentityCache.EvictionKeepsValid` | internal/api/identity.go:205-221 | eviction ends with room for one more and no expired entry |
| `IdentityCache.EvictionDropsSoonest` | internal/api/identity.go:205-221 | nothing is dropped that expires later than something kept |
| `IdentityCache.EvictionSparesTheLive` | internal/api/identity.go:205-221 | an unexpired entry goes only when the cache is full, and then it alone |
| `IdentityCache.EntryWasAnswer` | internal/api/identity.go:133-198 | every entry is an answer some earlier call got for its token, not forgotten since |
| `IdentityCache.CachingVerifier.VerifyToken` | internal/api/identity.go:133-156 | answers from the cache, else from the inner verifier, caching what may be cached |
| `IdentityCache.CachingVerifier.LookupKey` | internal/api/identity.go:168-184 | finds an unexpired entry and removes an expired one |
| `IdentityCache.CachingVerifier.EvictFor` | internal/api/identity.go:205-221 | the popping loop, stale duplicates included, comes to the specified eviction |
| `IdentityCache.CachingVerifier.StoreAnswer` | internal/api/identity.go:187-198 | makes room, stores and queues |
| `IdentityCache.CachingVerifier.ForgetToken` | internal/api/identity.go:160-166 | removes the entry and leaves its queue element to go stale |
| `Queue.RunConserves` | internal/webhook/queue.go:183-374 | in every interleaving, each activity sent was processed, failed, is queued or is being evaluated, as often as it was sent; and everything offered was accepted, rejected or is still in a delivery's hands |
| `Queue.NilMeansDrained` | internal/webhook/queue.go:236-258 | when shutting down began with every delivery returned and no shutdown has timed out, one that returns nil leaves an empty queue with accepted equal to processed plus failed |
| `Queue.CountersTellExactly` | internal/webhook/queue.go:261-269 | with no delivery under way, accepted equals processed plus failed if and only if nothing is queued or being evaluated |
| `Queue.RunIsOrderly` | internal/webhook/queue.go:287-316 | while no shutdown has timed out a worker leaves an empty queue only |
| `Queue.SecondShutdownMayLie` | internal/webhook/queue.go:236-258 | after one that timed out, a reachable state has a shutdown returned nil over an accepted activity still queued |
| `Queue.LateSendMayBeLost` | internal/webhook/queue.go:192-226 | the same without a timeout, for a delivery that checked just before the shutdown |
| `Watermark.NoHoles` | internal/reconcile/reconcile.go:130-156 | for every run of successful and failed passes, each instant from the start of the first successful window to the last successful start was read by a successful pass |
| `Watermark.WindowsOverlap` | internal/reconcile/watermark.go:70-88 | each window reaches an hour past the last successful start, less than a second more when the watermark decides; and the gap is exactly how far it reaches past the look-back |
| `Watermark.Watermark.Run` | internal/reconcile/reconcile.go:130-156 | the watermark advances on success only, to when the pass began |
| `Watermark.Watermark.FindWindow` | internal/reconcile/watermark.go:70-88 | the window and gap that the stored watermark and the look-back give |
| `Watermark.Watermark.MarkCompleted` | internal/reconcile/watermark.go:96-118 | stores the start in whole seconds |
| `Watermark.Watermark.RunAll` | internal/reconcile/reconcile.go:130-156 | a history of passes reports exactly the windows that NoHoles is about |
| `AchievementsPasses.PassSettles` | internal/bootstrap/achievements_reconcile.go:33-68 | a pass that goes through, from whatever start, leaves each entry bound to its own live achievement with the entry's name and description and a mirroring row, and its five counts add up to the entries; one without faults goes through if and only if nothing stood in any entry's way |
| `AchievementsPasses.PassTurns` | internal/bootstrap/achievements_reconcile.go:33-150 | wherever a pass is interrupted, rows and names stay unique and the same achievements stand in the same entries' way |
| `AchievementsPasses.EntryTurns` | internal/bootstrap/achievements_reconcile.go:55-150 | one entry's turn changes its own row and achievement only, gets through only past what did not stand in its way, and then does unless something goes wrong |
| `AchievementsPasses.RenameMeets` | internal/bootstrap/achievements.go:154-175 | GitLab refuses the entry's own achievement its name if and only if another held it at the start and no earlier entry was bound to that one |
| `AchievementsPasses.AdoptionMeets` | internal/db/models.go:61-74 | the database refuses an adoption if and only if some row recorded the achievement at the start |
| `AchievementsPasses.SharedTargetStops` | internal/bootstrap/achievements_reconcile.go:80-150 | no pass goes through in which two entries are after one listed achievement; it stands in the adopting entry's way for good if that comes first, and for one pass if second |
| `AchievementsPasses.StuckForever` | internal/bootstrap/achievements_reconcile.go:33-150 | where something stands in an entry's way for good, no pass ever goes through |
| `AchievementsPasses.HealsInTime` | internal/bootstrap/achievements_reconcile.go:33-150 | where nothing does, after any faulty passes one more without faults than there are entries is enough to settle everything |
| `AchievementsPasses.SettlesExactlyWhen` | internal/bootstrap/achievements_reconcile.go:15-32 | some run of passes goes through if and only if nothing stands in any entry's way for good |
| `AchievementsPasses.RenamedCriteriaIsStuck` | internal/bootstrap/achievements_reconcile.go:80-103 | an entry whose criteria key was renamed, the old row still there, stops every pass |
| `AchievementsPasses.OrderDecides` | internal/bootstrap/achievements_reconcile.go:113-150 | an achievement renamed by hand to another entry's name stops every pass if that entry comes first, and the first pass only if it comes second |
| `AchievementsConverge.AdoptTurns` | internal/bootstrap/achievements_reconcile.go:164-206 | adopting stops at the row when another row records the achievement; otherwise it binds it and pulls it in line in the same turn |
| `AchievementsConverge.ResyncTurns` | internal/bootstrap/achievements.go:191-222 | an existing achievement is brought in line under the same ID, unless GitLab refuses it the name |
| `AchievementsConverge.CreateTurns` | internal/bootstrap/achievements.go:43-75 | creating and recreating bind a new achievement |
| `Achievements.SettledIsQuiet` | internal/bootstrap/achievements.go:138-149 | where everything mirrors the catalog, a pass makes no call at all and reports every entry unchanged |
| `Achievements.ReportAddsUp` | internal/bootstrap/achievements_reconcile.go:33-150 | the five counts add up to the entries of a pass that went through, and to fewer for one that did not |
| `AchievementsReconcile.Reconciliation.ReconcileAchievements` | internal/bootstrap/achievements_reconcile.go:33-49 | the pass in place: rows and names unique before and after any failure, settled and counted when it goes through, which without faults it does exactly when nothing stood in the way; nothing written when it was settled |
| `AchievementsReconcile.Reconciliation.Passes` | internal/bootstrap/achievements_reconcile.go:33-49 | any passes with any faults: none goes through where an entry is blocked for good, and where none is, enough of them without faults settle everything |
| `AchievementsReconcile.Reconciliation.Save` | internal/db/models.go:61-74 | writes one row, and stops the pass on an achievement that another row records |
| `AchievementsReconcile.Reconciliation.ReconcileEntry` | internal/bootstrap/achievements_reconcile.go:55-150 | resyncs by ID, adopts by name, creates or recreates, and tallies |
| `AchievementsReconcile.Reconciliation.ReconcileAchievement` | internal/bootstrap/achievements.go:191-222 | pushes drift, saves the row, and says exactly whether there was anything to do |
| `AchievementsReconcile.Reconciliation.AdoptAchievement` | internal/bootstrap/achievements_reconcile.go:164-206 | records what GitLab holds, then reconciles against that |
| `AchievementsReconcile.Reconciliation.CreateAchievement` | internal/bootstrap/achievements_reconcile.go:245-273 | a new achievement and its row, in that order |
| `AchievementsReconcile.Reconciliation.ListAchievements` | internal/bootstrap/achievements_reconcile.go:224-240 | indexes every listed achievement by its name |
| `Catalog.StandardCurvesRise` | internal/catalog/curves.go:38-65 | each standard curve is strictly increasing at every tier, the nudged second infernal tier included |
| `Catalog.StepsRiseWithinTheirList` | internal/catalog/curves.go:72-84 | an explicit list rises over a range of tiers if and only if the range stays within the list and the list rises there |
| `Catalog.EasyFitsExactly` | internal/catalog/curves.go:38-40 | the steepest curve fits a 64-bit threshold up to tier index 18 and no further |
| `Catalog.Pow` | internal/catalog/curves.go:89-97 | the loop computes the power, and 1 for a negative exponent |
| `Catalog.RomanNumeral` | internal/catalog/templates.go:482-500 | the subtracting loop writes the numeral, and nothing below 1 |
| `Catalog.RomanReadsBack` | internal/catalog/templates.go:468-500 | reading a numeral by the rule that a smaller letter before a greater counts against it gives the number back, for every number |
| `Catalog.Expand` | internal/catalog/templates.go:65-90 | one entry per tier of the range, curves read at the index and names numbered from I |
| `Catalog.TiersAreDistinct` | internal/catalog/templates.go:65-90 | over any range of a standard curve, names are pairwise distinct and thresholds and rewards strictly rise |

## Left out

- HTTP handlers, OAuth, sessions, configuration, leaderboards, exclusion policy, webhook registration, the frontend and the icon generator: input and output, delegated to SQL and libraries, or single-branch facts.
- SQL, gorm, transactions and pagination: tables are maps, a transaction is one step, and a failing event leaves nothing behind.
- Usernames, avatars, award timestamps, metrics and logging: they depend on arrival order or are only observed. A username matters to award delivery alone, as the account that it answers for.
- Timestamp parsing, time zones and calendars: a day is a number from 1, and a payload's time is a parameter of the normalizers, so their agreement is not about when.
- 64-bit overflow of counters, EXP and IDs: numbers are unbounded, except where `Catalog.EasyFitsExactly` says what fits.
- SHA-256 collisions: the identity cache is keyed by token.
- AwardConvergence.AnyRunConverges: assumes a fixed catalog and that nobody else revokes this app's awards, as the code does not re-award what the row records as delivered; AwardRetune.RetunedRunConverges needs neither.
- AwardSafety.NeverTwoLive: no two rows of one user's listing are for the same achievement, by the unique indexes on a definition's achievement and on a user's awards.
- AwardRetune.EveryRunKeepsBase: a retune may change criteria and tiers and add definitions, but binds none of them to another achievement and deletes none; what a deleted achievement takes with it is not modelled.
- AwardRace.FinishedPassesAgree: claims at most one live award, not that one remains, because a pass may adopt an award whose maker then takes it back.
- IdentityCache.AnswersAreFreshOrRemembered: calls are undivided; IdentityRace.HitsWereKept is about the same cache with lookup and store apart.
- Confluence.OrderIsImmaterial: equal keys must mean equal events but for the project; the exclusion of a user between the filter and the transaction is the same as before it.
- BackfillRunner.Walk.Attempts: the instance, its pipelines' outcomes and the window are the same in every run, projects are listed by ID and events by date, and the report's counts are not kept.
- BackfillRunner.Walk.WalkRecords: merge requests and releases are one method, as they differ in the listing read; GitLab's updated-after filter is left out because the check that follows it is stricter.
- Pipelines.WalkAndScanAgree: pipelines are created in the order of their IDs.
- NormalizersAgree.MergeRequestsAgree: a quick merge is seen by the live path alone, as the record has no two timestamps to compare.
- NormalizersAgree.CommentsAgree: a resolved thread is seen by the live path alone; when a merge request's discussions are read for one is not modelled.
- Queue.NilMeansDrained: a shutdown that reports success without either condition may still have drained; what is shown is that it need not have.
- Achievements: avatars are present or absent, as they are to the program, and failing to render one is not modelled; GitLab gives out new IDs and refuses a name that is taken, on update as on creation.
- The reconciliation pass's own walk: it reads what the history walk reads, without cursors.
- Draining retries' back-off and the enqueue timer: a delivery may give up whenever it is about to send.
