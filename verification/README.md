# Protect: verified models of the delivery, reputation, cache and intake protocols

This project models four protocols of the Protect platform that keep state across
processes, and proves what they promise over whole runs.

- **Outbox dispatch.** Rows of `outbox_events` are claimed by any number of
  workers, published through Redis together with a marker, and finalized in
  Postgres. Every await of a dispatch is a step of its own; workers crash
  anywhere, an EXEC can take effect without being acknowledged, finalization, the
  counter increment and the catch block's own update can fail, leases are
  reclaimed and the requeue command runs beside them. `OutboxProtocol` is the step
  relation, `OutboxLease` and `OutboxOverlap` the invariants with and without the
  lease assumption, `OutboxRetry` the retry delay, `OutboxLimits` the exact bounds and the runs
  beyond them, `OutboxWorker` the dispatcher and the command as programs.
- **Reputation.** Flags, instant reports, approvals, rejections and decay are
  transactions of statements under a per-user row lock and a unique index;
  admin edits recompute. `FlagPolicy`, `Decay` and `DecayLaw` hold the arithmetic, `Reputation`
  and `ReputationFacts` each transaction run alone, `ReputationTx` and
  `ReputationRuns` their interleavings, `ReputationPaths` runs that show what can
  happen, `ReputationEdits` admin edits in two steps,
  `ReputationStore` the services as programs.
- **User cache.** Three Redis keys beside the user row: `UserCache` for whole
  operations and the services, `UserCacheRuns` for interleaved requests.
- **Report intake.** Lookup, daily counter, cooldown and insert as separate steps
  of concurrent attempts: `ReportIntake`, `ReportDedupe`, `ReportCap`,
  `ReportLimits`, and `ReportService` as a program.

Smaller components: the bot's fixed-window `RateLimiter`, the dashboard's
`SparseSeries` merge and `ActivityFeed`, `MemberPaging`, the `Metrics` buffers and
the `MemberSync` schedule.

Programs are classes whose fields hold what Postgres and Redis hold. In
`OutboxWorker`, `ReportService` and `ActivityFeed` the invariant `Valid` says that
the fields stand at the end of a run of the protocol; in the first two `Interfere`
performs any steps of the other processes between two requests. So the theorems
about runs hold of the programs.

Some promises fail. Each is stated with the exact condition under which it holds,
for all runs, and most with runs that break it: publishing at most once and the retry
budget hold exactly when batches last no longer than the lease, the former given
that no marker expires before its event is recorded as processed; a DISPATCHED row
leaves that status exactly in the catch block; equal reports stay apart exactly
when the cap is at most one, or attempts last at most half the cooldown, or the
cooldown covers an attempt's duration and the dedupe window together, and an
instant report whose cache write fails lets duplicates through; reports exceed the
cap by the counts given back for committed ones; the aggregate is sound exactly
when what commits between the two steps of an admin edit leaves that edit's sum
unchanged on balance; a cached answer is out of date exactly when a write committed
since it was read; a decay pass raises exactly the flags that are at full weight
and dated far enough ahead of its clock; the feed sends a row as often as answers
contain it. `docs/runbooks/worker-recovery.md` reads the marker as excluding a
second publish altogether; the code excludes it within the lease, and without it
bounds the publishes by the number of workers.

## Model

| member | source | states |
|---|---|---|
| OutboxProtocol.BackoffNeverShrinks | apps/worker/src/dispatch.ts:197-201 | whatever the two jitters, the delay after a later attempt is at least that after an earlier one, until the cap |
| OutboxRetry.ClaimedWhenDue | apps/worker/src/dispatch.ts:43-58 | in every run, however workers overlap: a claim takes a row whose latest dispatch failed only when min(120000, 500·2^n + 500·jitter) milliseconds, rounded down, have passed since then, n being the failed attempts by the claimed copy, unless the requeue command has reset the row |
| OutboxRetry.NextClaimWhenDue | apps/worker/src/dispatch.ts:43-58 | within the lease nothing has to be assumed of other catch blocks: the next claim of a failed row that was not reset comes when that delay is over |
| Powers.Pow2Adds | apps/worker/src/dispatch.ts:198-201 | the powers of two that the delay uses: 2^1 is 2, and 2^(m+n) is 2^m times 2^n |
| OutboxLease.AtMostOnce | apps/worker/src/dispatch.ts:93-213 | in every run with crashes, lost acknowledgements, failed updates and one requeue command, no event id is published twice, provided live batches are no older than some bound within the lease at a reclaim and markers outlive the writing of the processed row |
| OutboxLease.RequeueOnlyUnpublished | apps/api/scripts/outbox-safe-requeue.ts:93-128 | in such runs the command resets only FAILED rows whose event was never published |
| OutboxLease.DispatchBudget | apps/worker/src/dispatch.ts:100-110 | a PENDING row always has attempts left, and a row sees at most maxAttempts completed dispatches since it was created or requeued |
| OutboxLease.DispatchMakesProgress | apps/worker/src/dispatch.ts:155-212 | a dispatch that runs to its end leaves the row DISPATCHED, FAILED, or PENDING with exactly one attempt more |
| OutboxLease.DispatchedChangesOnlyInCatch | apps/worker/src/dispatch.ts:180-212 | in such runs a DISPATCHED row changes status if and only if the catch block runs for it; its event stays processed, and it becomes FAILED exactly when the claimed attempts plus one reach the maximum, else PENDING |
| OutboxLease.RunKeepsInv | apps/worker/src/dispatch.ts:21-213 | every reachable state keeps the invariant that ties held rows, copies, markers, processed rows and publishes together |
| OutboxOverlap.LateReaderNeverPublishes | apps/worker/src/dispatch.ts:141-180 | with no lease assumption: two publishes of one event come from different workers, and the later one's worker had read the marker before the earlier publish |
| OutboxOverlap.PublishesBoundedByWorkers | apps/worker/src/dispatch.ts:141-180 | with no lease assumption: an event is published at most once per worker slot |
| OutboxOverlap.CountIsPublishers | apps/worker/src/dispatch.ts:141-180 | the number of publishes of an event equals the number of different workers that published it |
| OutboxOverlap.DispatchedWasPublished | apps/worker/src/dispatch.ts:71-91 | with no lease assumption: a DISPATCHED row has a processed row and was published |
| OutboxOverlap.RunKeepsInv | apps/worker/src/dispatch.ts:93-213 | every reachable state keeps the invariant that published events are remembered by marker or processed row |
| OutboxLimits.OnceExactlyWithinLease | apps/worker/src/dispatch.ts:21-37 | for every configuration with two workers, publishing at most once holds of all runs whose batches last at most `bound` if and only if `bound` is within the lease |
| OutboxLimits.BudgetExactlyWithinLease | apps/worker/src/dispatch.ts:197-211 | for every maximum of at least two attempts the same exact bound holds for "a PENDING row has attempts left" |
| OutboxLimits.LeaseIsNeeded | apps/worker/src/dispatch.ts:21-37 | for every configuration with two workers and every bound above the lease some run within the bound publishes an event twice |
| OutboxLimits.LeaseIsNeededForBudget | apps/worker/src/dispatch.ts:197-211 | and in some such run, for every maximum of at least two, the status follows the claimed copy and a PENDING row has used every attempt |
| OutboxLimits.OnceExactlyWithMarkers | apps/worker/src/dispatch.ts:141-178 | for every configuration with two workers: publishing at most once holds of all runs if and only if batches last at most the lease and no marker may expire before its event is recorded as processed |
| OutboxLimits.MarkerIsNeeded | apps/worker/src/dispatch.ts:141-178 | for every configuration, with a single worker and any bound on batches, some run in which a marker expires early publishes an event twice |
| OutboxLimits.DispatchedRowCanFail | apps/worker/src/dispatch.ts:180-212 | for every number of attempts already used there is a run within any bound in which a failing increment after finalization takes a published row out of DISPATCHED, into FAILED exactly on the last attempt |
| OutboxWorker.Platform.ReclaimStaleProcessing | apps/worker/src/dispatch.ts:21-37 | is the reclaim step and leaves workers alone: exactly the PROCESSING rows whose lease began more than the lease time ago become PENDING, without a lease, and no other column or row changes |
| OutboxWorker.Platform.SelectEligible | apps/worker/src/dispatch.ts:50-58 | at most a batch of distinct unlocked rows, each PENDING with no retry time or one that has come; fewer only when no other such row exists |
| OutboxWorker.Platform.ClaimOutboxBatch | apps/worker/src/dispatch.ts:43-69 | claims such rows: exactly they become PROCESSING with their lease starting now, and the worker holds copies of them |
| OutboxWorker.Platform.CheckGuards | apps/worker/src/dispatch.ts:100-122 | fails the row exactly when the claimed copy's attempts are used up or its type is unknown, and changes no row otherwise |
| OutboxWorker.Platform.FindStatus | apps/worker/src/dispatch.ts:124-130 | reads the stored status; a DISPATCHED row ends the dispatch |
| OutboxWorker.Platform.FindProcessed | apps/worker/src/dispatch.ts:132-139 | tells whether the event is recorded as processed and moves the worker accordingly |
| OutboxWorker.Platform.GetMarker | apps/worker/src/dispatch.ts:141-143 | tells whether the marker is set and moves the worker accordingly |
| OutboxWorker.Platform.ExecMulti | apps/worker/src/dispatch.ts:166-178 | publish and marker together or neither, acknowledged or not |
| OutboxWorker.Platform.FinalizeDispatched | apps/worker/src/dispatch.ts:71-91 | row DISPATCHED with lease and retry time cleared and event processed together, or neither |
| OutboxWorker.Platform.RecordAttempt | apps/worker/src/dispatch.ts:197-211 | the whole row afterwards: stored attempts plus one, status from the claimed copy, no lease, retry time now plus min(120000, 500·2^n + 500·jitter) rounded down |
| OutboxWorker.Platform.DispatchOne | apps/worker/src/dispatch.ts:93-213 | a run of protocol steps after which the worker has moved to the next row or abandoned its batch; without failures an admissible event ends up processed |
| OutboxWorker.Platform.PublishOne | apps/worker/src/dispatch.ts:155-212 | the try block and its catch, under interference after every await |
| OutboxWorker.Platform.DispatchAll | apps/worker/src/dispatch.ts:276-284 | the loop stops at the first dispatch that throws; without failures every admissible claimed event is processed |
| OutboxWorker.Platform.ProcessOutboxBatch | apps/worker/src/dispatch.ts:261-284 | reclaim, claim and dispatch are steps of a run; the worker holds nothing afterwards |
| OutboxWorker.Platform.RequeueOne | apps/api/scripts/outbox-safe-requeue.ts:93-128 | skips a row exactly when the processed lookup or the marker read found it published; otherwise both found nothing, and exactly with `--apply` one reset is performed |
| OutboxWorker.Platform.ResetRow | apps/api/scripts/outbox-safe-requeue.ts:112-127 | with `--apply` the row is PENDING with no attempts, lease or retry time; without it nothing changes |
| OutboxWorker.Platform.SafeRequeue | apps/api/scripts/outbox-safe-requeue.ts:87-128 | one result per listed row in order, never `requeued` in a dry run, and as many resets as results that say so |
| OutboxWorker.Platform.ProgramsPublishOnce | apps/worker/src/dispatch.ts:93-213 | whatever the programs did within the lease, nothing is in the publish log twice |
| OutboxWorker.Platform.ProgramsPublishBounded | apps/worker/src/dispatch.ts:93-213 | whatever the programs did at all, no event is published more often than there are workers |
| FlagPolicy.LevelMonotone | apps/api/src/domain/flag-policy.service.ts:19-25 | a higher score never has a lower level, for thresholds in any order |
| FlagPolicy.LevelExactlyWhen | apps/api/src/domain/flag-policy.service.ts:19-25 | for increasing thresholds each level is exactly the range from its threshold to the next |
| FlagPolicy.SeverityExact | apps/api/src/domain/flag-policy.service.ts:40-66 | under the default tiers the weight of a severity is the least score that reaches it, and a user without points ends at exactly that level; CLEAN weighs what WATCH weighs |
| FlagPolicy.TiersIndependent | apps/api/src/domain/flag-policy.service.ts:40-66 | each tier setting is the weight of its own severity, WATCH's of CLEAN too, and changes no other weight |
| FlagPolicy.SeverityFloor | apps/api/src/domain/flag-policy.service.ts:40-66 | a flag at a severity lifts every user to it if and only if the tier weight reaches the least threshold of that level and those above; the default tiers do |
| Decay.DecayAntitone | apps/worker/src/decay-job.ts:37-55 | between any two times, before or after the flag's creation, the decayed weight never rises and is never negative; an ADMIN_OVERRIDE keeps its weight |
| Decay.ExceedsExactlyWhenAhead | apps/worker/src/decay-job.ts:45-54 | a pass computes more than the given weight if and only if the flag decays and is dated so far ahead of the clock that weight times factor reaches the next integer |
| Decay.CreatedIsNotAhead | apps/worker/src/decay-job.ts:51-54 | that is never so for a flag created by the time the clock is read |
| Decay.RaisedExactlyWhen | apps/worker/src/decay-job.ts:102-141 | a flag with its full weight or that of an earlier pass is raised if and only if it still has its full weight and is dated ahead |
| Decay.HalvingsCompose | apps/worker/src/decay-job.ts:53-54 | k floored halvings one after the other are one floored division by 2^k |
| Decay.WholeHalfLives | apps/worker/src/decay-job.ts:45-54 | after exactly k half-lives at multiplier 1 the effective weight is k successive floored halvings |
| DecayLaw.WeightAtAge | apps/worker/src/decay-job.ts:45-54 | at every age, half-life and multiplier: when age times multiplier is (p − q)/n half-lives the decayed weight is the greatest whole e with e^n·2^p ≤ weight^n·2^q, and when it is more, or less, the bound on that side holds |
| DecayLaw.WeightHalfway | apps/worker/src/decay-job.ts:51-54 | for instance after half a half-life at multiplier 1: the result is the greatest whole number whose square doubled is at most the weight's square |
| DecayLaw.MultiplierStretchesAge | apps/worker/src/decay-job.ts:51-54 | age a at multiplier m gives the weight of any age and multiplier with the same product |
| DecayLaw.UndecayedKeepsWeight | apps/worker/src/decay-job.ts:45-50 | overrides, and all flags under a half-life that is not positive, keep their weight |
| Decay.PassNeverRaisesSum | apps/worker/src/decay-job.ts:102-115 | if no flag's weight rises, neither does the sum |
| Decay.PassKeepsSchedule | apps/worker/src/decay-job.ts:102-141 | a pass does not change what any later pass computes, because decay restarts from the original weight |
| Decay.RepeatedPassChangesNothing | apps/worker/src/decay-job.ts:118-133 | a second pass at the same instant finds no changed weight |
| Decay.OnlyOverridesRemain | apps/worker/src/decay-job.ts:45-54 | once 2^k exceeds every other weight and k half-lives have passed, the sum is exactly that of the override flags |
| ReputationFacts.TransactionAmounts | apps/api/src/flags/flags.service.ts:69-154 | run statement by statement, with the score incremented, read back and saved, each transaction has its one stated effect on user, report and events |
| ReputationFacts.SerialKeepsDb | apps/api/src/internal/user-consistency.service.ts:62-77 | a committed transaction keeps every user's score, level, event numbering and all unique keys |
| ReputationFacts.EditKeepsDb | apps/api/src/admin/admin-flags.service.ts:23-166 | so does an admin edit or the filing of a pending report |
| ReputationFacts.SumAppend | apps/worker/src/decay-job.ts:118-125 | a flag adds its effective weight to the sum, or its weight while it has no effective one |
| ReputationFacts.FilingEffect | apps/api/src/reports/reports.service.ts:213-275 | filing a pending report creates the missing users, the report and one event, changes no aggregate, and is refused exactly on a taken id or key |
| ReputationTx.CommitIsSerial | apps/api/src/prisma/user-row-lock.ts:4-12 | a transaction that commits amid others has exactly the effect it would have had alone on the database it commits to |
| ReputationTx.RunKeepsInv | apps/api/src/prisma/user-row-lock.ts:4-12 | in every run open transactions hold different rows and keys, and the committed database is sound |
| ReputationRuns.InterleavingsAreSerial | apps/api/src/prisma/user-row-lock.ts:4-12 | every interleaving of statements, rollbacks and waits commits what the committed transactions produce one after the other |
| ReputationRuns.AggregateAlwaysSound | apps/api/src/internal/user-consistency.service.ts:62-77 | at every moment of every run each user's score is the non-negative sum of effective weights and its level is that of the score |
| ReputationRuns.HistoryIsGapless | apps/api/src/flags/flags.service.ts:104-151 | the committed user.updated events of a user carry the versions 1 to stateVersion once each, the last with the current score and level |
| ReputationRuns.AnyDeliveryOrderRebuilds | apps/api/src/flags/flags.service.ts:141-150 | a consumer that keeps the highest version rebuilds the user from any order and repetition of deliveries |
| ReputationRuns.ApprovalEffect | apps/api/src/reports/reports.service.ts:519-608 | a committed approval adds one flag and its weight, one version, accepts the report and takes its unique key |
| ReputationRuns.ApprovalCommitsOnce | apps/api/prisma/schema.prisma:350 | however many approvals of a report pass the pending check, at most one commits |
| ReputationRuns.SecondPatchRollsBack | apps/api/src/admin/admin-flags.service.ts:157-166 | after one patch of a flag every later patch of it fails on its event key |
| ReputationRuns.FlagReachesSeverity | apps/api/src/reports/reports.service.ts:519-553 | after a committed trusted flag or approval at a severity, from any reachable state, the user's level is at least that severity, and exactly that one if the user had no points |
| ReputationRuns.DecayRaisesExactlyWhen | apps/worker/src/decay-job.ts:78-164 | in every run with non-decreasing job times, flags committed between the reading of the clock and the user's turn included, a decay transaction raises a flag exactly when it has its full weight and is dated ahead, and raises nothing at all, flag, score, level or override, exactly when there is no such flag |
| ReputationPaths.RunsAlone | apps/api/src/prisma/user-row-lock.ts:4-12 | the converse of `CommitIsSerial`: from any state with nothing open, a transaction that passes its check and whose keys are free has steps to its commit, with exactly its serial effect |
| ReputationPaths.AheadFlagIsRaised | apps/worker/src/decay-job.ts:45-54 | for any settings, user, weight and clock reading, a flag that is dated ahead is raised in some run: it is created with its weight, and a pass leaves flag and score above it |
| ReputationPaths.CanBeAheadExactlyWhen | apps/worker/src/decay-job.ts:45-54 | for any half-life there is a date at which a flag is ahead of the clock if and only if it has a positive weight, is no override and its source decays |
| ReputationRuns.RepeatedDecayIsIdle | apps/worker/src/decay-job.ts:127-133 | a pass repeated at the same instant writes nothing and bumps no version |
| ReputationRuns.DecayLeavesOverrides | apps/worker/src/decay-job.ts:102-149 | after enough half-lives a pass leaves a sound user with exactly the override weights |
| ReputationEdits.SoundExactlyWhenUpToDate | apps/api/src/admin/admin-flags.service.ts:23-35 | with edits as two steps, in every run: the aggregate is sound throughout if and only if every edit wrote a sum that was still that of the flags it left |
| ReputationEdits.SoundExactlyWhenNothingMissed | apps/api/src/admin/admin-flags.service.ts:23-35 | the same condition by what happened meanwhile: sound throughout if and only if, for every edit, the flags, decay passes and other edits that committed for its user between its read and its write leave its sum unchanged on balance |
| ReputationEdits.WrittenRowSoundExactlyWhen | apps/api/src/admin/admin-flags.service.ts:23-35 | for any state an edit read and any sound state it writes to, the written row is sound if and only if both give the same sum |
| ReputationEdits.FlagCommittedMeanwhileIsLost | apps/api/src/admin/admin-flags.service.ts:23-35 | whenever a flag of positive weight commits between the two steps, it stays in the table and the score lacks exactly its weight |
| ReputationEdits.UnlockedRecomputeLosesFlag | apps/api/src/admin/admin-flags.service.ts:61-105 | such a run exists for any two flags: one left in the table, and no points |
| ReputationStore.Store.AddToAggregate | apps/api/src/flags/flags.service.ts:94-110 | increment, read back and save amount to score plus weight, its level and the next version |
| ReputationStore.Store.RecomputeUser | apps/api/src/admin/admin-flags.service.ts:23-35 | the loop saves the sum over the user's flags, its level and the next version |
| ReputationStore.Store.EnqueueMany | apps/api/src/events/outbox.service.ts:44-74 | all rows or, when one key exists, none |
| ReputationStore.Store.CreateFlag | apps/api/src/flags/flags.service.ts:69-154 | leaves exactly the serial transaction's database, or the old one on a taken key; on success score and level rise by the flag's weight, the version by one, and user.flagged and user.updated with the stored state are enqueued |
| ReputationStore.Store.CreateInstantReport | apps/api/src/reports/reports.service.ts:309-423 | the same for an instant report, with the report accepted and linked to its flag and user.reported enqueued |
| ReputationStore.Store.Approve | apps/api/src/reports/reports.service.ts:483-608 | refuses CLEAN, missing, decided or flagged reports without effect; otherwise a full rollback, or a community flag of the tier setting of that severity with its weight in score and level, the report accepted and linked, and the approval's events |
| ReputationStore.Store.Reject | apps/api/src/reports/reports.service.ts:723-762 | refuses missing or decided reports without effect; otherwise a full rollback, or the status REJECTED alone and the ticket's event |
| ReputationStore.Store.DeleteFlag | apps/api/src/admin/admin-flags.service.ts:61-105 | removes one flag with that id, unlinks its reports, sets the score to the sum over the others with its level and the next version, and enqueues both events; 404s on a missing user or flag, rolls back on a taken key |
| ReputationStore.Store.PatchFlag | apps/api/src/admin/admin-flags.service.ts:115-169 | rejects an empty patch, 404s on a missing user or flag, otherwise replaces weight and effective weight of one flag with that id, recomputes and enqueues user.updated, or rolls back |
| ReputationStore.Store.DecayUser | apps/worker/src/decay-job.ts:86-164 | afterwards every flag weighs what it decays to, and score and level follow; it reports a mutation, raises the version and enqueues an event exactly when a weight, the score or the level differed; a taken key rolls back |
| ReputationStore.Store.WeighFlags | apps/worker/src/decay-job.ts:102-115 | the loop's sum and weights are those of the decayed flags |
| ReputationStore.Store.RunDecayJob | apps/worker/src/decay-job.ts:60-169 | every user with flags ends with the decayed weights of the flags before the job, their sum and its level; cache keys of exactly the users for whom something differed are deleted, and a failure stops after a committed prefix |
| ReputationStore.PassAccounts | apps/worker/src/decay-job.ts:82-165 | a job over distinct users treats each as if it were alone |
| ReputationStore.Store.Validate | apps/api/src/internal/user-consistency.service.ts:42-77 | reports a score or level issue exactly when score or level differ from the sum and its level; never on a sound database |
| UserCache.CachedReadsAgree | apps/api/src/users/users.service.ts:23-76 | after any sequence of whole operations, reads, decay deletes and separate expiries a cached or negative-marker answer equals the skip-cache answer |
| UserCache.ReadsReturnLastWrite | apps/api/src/users/users.service.ts:23-63 | after any sequence of whole operations a read, through the cache or past it, answers score, level and count of the last write, and zero, CLEAN and zero before the first |
| UserCache.StateOfLastWrite | apps/api/src/users/users.service.ts:40-58 | the user row then holds that write, and its version is the number of writes |
| UserCache.OpKeepsCoherent | apps/api/src/cache/user-cache.service.ts:12-117 | each whole operation, and each key's expiry, keeps cache and database coherent |
| UserCache.Users.WriteAuthoritative | apps/api/src/cache/user-cache.service.ts:74-85 | sets version and payload and deletes the negative marker |
| UserCache.Users.WriteIfNewer | apps/api/src/cache/user-cache.service.ts:12-21 | writes payload and version and clears the marker exactly when the stored version is absent or not greater, else changes nothing |
| UserCache.Users.GetPublicByDiscordId | apps/api/src/users/users.service.ts:23-63 | answers score, level and count of the newest committed state, fills the cache exactly on a miss, and leaves it coherent |
| UserCache.Users.RefreshPublicCache | apps/api/src/users/users.service.ts:65-76 | aligns the cache with the row, or clears it when there is none |
| UserCache.Users.ChangeAndRefresh | apps/api/src/flags/flags.service.ts:156-156 | commits the given score, level and count as the next version and leaves exactly that in payload and version key, with no marker |
| UserCache.Users.ChangeAndOffer | apps/api/src/reports/reports.service.ts:425-426 | commits the given score, level and count as the next version; the offer lands, also behind a leftover version key |
| UserCache.Users.DecayAndDelete | apps/worker/src/decay-job.ts:166-168 | commits the given score, level and count as the next version; payload and marker go, the version key stays, the cache stays coherent |
| UserCacheRuns.CacheServesSnapshots | apps/api/src/cache/user-cache.service.ts:74-106 | under any interleaving the payload is a committed snapshot, the version key is never ahead of the database, and both agree when present |
| UserCacheRuns.RowReadsLastCommit | apps/api/src/users/users.service.ts:40-58 | in every run a request that reads the row carries score, level and count of the last write committed before, with the number of commits as version, and finds no row only when nothing was written |
| UserCacheRuns.OfferCarriesCommit | apps/api/src/reports/reports.service.ts:425-426 | in every run an offer carries exactly what its own request committed |
| UserCacheRuns.NewestOfferLands | apps/api/src/cache/user-cache.service.ts:91-106 | an offer of the current database version always lands, even after the decay job's partial delete |
| UserCacheRuns.OffersNeverRegress | apps/api/src/cache/user-cache.service.ts:12-21 | an offer is refused exactly when the version key is ahead, and otherwise replaces nothing newer |
| UserCacheRuns.StaleExactlyWhenWrittenSince | apps/api/src/users/users.service.ts:23-63 | in every run, with payload and marker read at two moments: an answer from the cache is what a direct read returned at the row read or commit of the request that wrote that payload or marker, and at any later moment is out of date if and only if a write has committed since |
| UserCacheRuns.LateMarkerServesOldState | apps/api/src/users/users.service.ts:46-57 | a run in which a late negative marker hides a user at the highest level |
| UserCacheRuns.SlowReadThroughServesOldState | apps/api/src/users/users.service.ts:42-61 | a run in which a slow read-through puts the state before a write back into the cache |
| ReportIntake.RawKeyInjective | apps/api/src/reports/reports-anti-abuse.service.ts:31-41 | for digit-only ids equal dedupe strings mean equal reporter, target, guild and reason |
| ReportDedupe.SameKeyExactlyWhen | apps/api/src/reports/reports-anti-abuse.service.ts:31-41 | two committed reports have equal keys if and only if reporter, target, guild and normalised reason are equal |
| ReportCap.LookupFindsExactly | apps/api/src/reports/reports-anti-abuse.service.ts:51-61 | in every run the lookup ends an attempt if and only if a report with its reporter, target, guild and normalised reason was created inside the window |
| ReportDedupe.NoDuplicates | apps/api/src/reports/reports-anti-abuse.service.ts:43-91 | in every run that never rolls back after a commit and whose attempts last at most half the cooldown, or at most the cooldown less the dedupe window, reports with the same reporter, target, guild and normalised reason are more than the window apart |
| ReportDedupe.RunKeepsInv | apps/api/src/reports/reports.service.ts:198-292 | with attempts no longer than the cooldown every reachable state keeps the ownership of cooldown keys, and each new holder's key is later than every other report's by more than the cooldown |
| ReportDedupe.EqualReportIsFar | apps/api/src/reports/reports-anti-abuse.service.ts:51-91 | an attempt that commits in time creates its report more than the window after every equal one, seen by its lookup or missed |
| ReportDedupe.OneHolderInTime | apps/api/src/reports/reports-anti-abuse.service.ts:78-91 | with attempts no longer than the cooldown, two attempts in time are never both past the cooldown step of one reporter and guild |
| ReportLimits.SlowAttemptsDuplicate | apps/api/src/reports/reports-anti-abuse.service.ts:51-91 | for every cap of at least two, every bound above both limits and every report, some run within the bound commits it twice inside the window |
| ReportCap.ApartExactlyWhen | apps/api/src/reports/reports-anti-abuse.service.ts:43-91 | for every window, cooldown, cap and bound: equal reports are more than the window apart in all runs within the bound that never roll back after a commit if and only if the cap is at most one, or twice the bound is within the cooldown, or bound plus window is |
| ReportLimits.RollbackAfterCommitDuplicates | apps/api/src/reports/reports.service.ts:425-440 | an instant report whose cache write fails, whatever it says, frees its cooldown and an equal report is committed at once |
| ReportCap.AdmissionsWithinCap | apps/api/src/reports/reports-anti-abuse.service.ts:68-91 | in every run, attempts admitted and not rolled back never exceed the cap, and the day key is exactly their number plus attempts being refused or leaked by a crash |
| ReportCap.ReportsWithinCap | apps/api/src/reports/reports-anti-abuse.service.ts:68-100 | in every run a reporter's committed reports exceed the cap by at most the number of counts given back for committed reports |
| ReportCap.CleanRunRefundsNothing | apps/api/src/reports/reports-anti-abuse.service.ts:94-100 | that number is zero when no attempt rolls back after a commit |
| ReportCap.IdleCounterIsExact | apps/api/src/reports/reports-anti-abuse.service.ts:94-100 | without crashes, whenever a reporter has nothing in flight their reports are exactly the day key plus that number |
| ReportCap.RollbackAfterCommitExceedsCap | apps/api/src/reports/reports.service.ts:425-440 | for every cap of at least one and every number of failed cache writes some run has exactly that many reports above the cap |
| ReportService.Platform.FindDuplicate | apps/api/src/reports/reports-anti-abuse.service.ts:57-61 | finds a duplicate exactly when a report with the same reporter, target, guild and normalised reason was created inside the window |
| ReportService.Platform.IncrDayKey | apps/api/src/reports/reports-anti-abuse.service.ts:68-76 | increments the day key and refuses exactly above the cap |
| ReportService.Platform.SetCooldownKey | apps/api/src/reports/reports-anti-abuse.service.ts:78-85 | takes the key of the reporter in that guild exactly when it is missing or expired, for the cooldown from now |
| ReportService.Platform.Commit | apps/api/src/reports/reports.service.ts:213-275 | appends the report, or nothing, and moves to the end, the cache write or the rollback |
| ReportService.Platform.RollbackSlots | apps/api/src/reports/reports-anti-abuse.service.ts:94-100 | deletes the cooldown key, then decrements the day key |
| ReportService.Platform.AssertCanReport | apps/api/src/reports/reports-anti-abuse.service.ts:43-92 | makes exactly the requests of its outcome, in order, under interference between them; refuses as a duplicate exactly when such a report exists |
| ReportService.Platform.CreateReport | apps/api/src/reports/reports.service.ts:198-442 | both intake paths make exactly the requests of their reply, in order; every request is a protocol step |
| ReportService.Platform.ProgramsKeepLimits | apps/api/src/reports/reports.service.ts:198-442 | the cap and the spacing hold of whatever the programs committed |
| RateLimiter.SlidingBound | apps/bot/src/services/guildRateLimiter.ts:7-19 | with a non-decreasing clock any half-open minute admits at most 2·perMinute − 1 calls of a guild |
| RateLimiter.RefusedOnlyWhenFull | apps/bot/src/services/guildRateLimiter.ts:11-18 | a call is refused only if the limit's number of calls of its guild were admitted in the 60000 ms up to it |
| RateLimiter.BoundIsReached | apps/bot/src/services/guildRateLimiter.ts:12-18 | for every limit some calls admit exactly that many in one minute |
| RateLimiter.GuildsIndependent | apps/bot/src/services/guildRateLimiter.ts:11-15 | a guild's window and admissions are those it would have without the other guilds' calls |
| RateLimiter.NoLimitNoAdmission | apps/bot/src/services/guildRateLimiter.ts:16-16 | a limit below one admits nothing |
| RateLimiter.GuildRateLimiter.TryConsume | apps/bot/src/services/guildRateLimiter.ts:7-19 | answers as the history of calls determines, always true without a guild |
| RateLimiter.GuildRateLimiter.ProgramBounded | apps/bot/src/services/guildRateLimiter.ts:7-19 | the object admits fewer than twice the limit in any minute |
| SparseSeries.MergeSparseSeries | apps/api/src/dashboard/dashboard.service.ts:83-107 | points strictly increase, their buckets are the union of the inputs, every column shows its own input, and an input with one row per bucket keeps its total |
| SparseSeries.ColumnTotal | apps/api/src/dashboard/dashboard.service.ts:98-106 | a column over increasing buckets that cover its input sums to the input's total |
| SparseSeries.CountIsTheRows | apps/api/src/dashboard/dashboard.service.ts:89-106 | with one row per bucket a point shows its bucket's count, and 0 for a bucket without a row |
| ActivityFeed.SentAsOftenAsAnswered | apps/api/src/dashboard/me-dashboard.controller.ts:29-37 | in every run, polls overlapping or not, a row has been sent exactly as often as answers contained it |
| ActivityFeed.NothingTwice | apps/api/src/dashboard/dashboard.service.ts:354-368 | in every run in which no poll is issued while another is open the feed is strictly ordered, no row appears twice and the watermark never falls |
| ActivityFeed.SafeRunMissesNothing | apps/api/src/dashboard/dashboard.service.ts:354-368 | in every run, overlapping or not: if no row is logged behind the watermark or an open poll and no full page cuts a group of equal timestamps, nothing the watermark has passed is missing |
| ActivityFeed.EverythingOnceExactlyWhen | apps/api/src/dashboard/dashboard.service.ts:354-368 | without overlap that condition is exact |
| ActivityFeed.LeftBehindForever | apps/api/src/dashboard/dashboard.service.ts:354-368 | without overlap a row left behind is never sent later |
| ActivityFeed.FindMany | apps/api/src/dashboard/dashboard.service.ts:356-360 | exactly the rows after the given time, ordered by timestamp and then id, cut off after a hundred |
| ActivityFeed.ActivityStream.OnInterval | apps/api/src/dashboard/me-dashboard.controller.ts:29-31 | issues a poll with the present watermark, whatever else is open |
| ActivityFeed.ActivityStream.OnAnswer | apps/api/src/dashboard/me-dashboard.controller.ts:32-37 | overwrites the watermark and sends the page's rows in order |
| ActivityFeed.ActivityStream.ProgramSendsOnce | apps/api/src/dashboard/me-dashboard.controller.ts:26-42 | nothing has been sent twice as long as the timer never fires while a poll is open |
| ActivityFeed.OverlappingPollsRepeat | apps/api/src/dashboard/me-dashboard.controller.ts:29-39 | in every run, of two answered polls issued from one watermark, if the one that read later got a page that is not full, every row of the other is sent twice |
| ActivityFeed.LateAnswerFallsBack | apps/api/src/dashboard/me-dashboard.controller.ts:29-39 | for any two rows logged in order some run sends the first twice and sets the watermark back |
| MemberPaging.FollowingSeesAll | apps/api/src/me/me.service.ts:80-108 | following nextSkip over a fixed list ends and yields exactly the rows from the start position on, in order |
| MemberPaging.PageHoldsWhatIsAsked | apps/api/src/me/me.service.ts:80-108 | a page has the number of rows asked for, 1 to 500 and 10 by default, from the row asked for, the first by default, as long as so many remain, and says exactly whether more follow |
| MemberPaging.NoRequestWasted | apps/api/src/me/me.service.ts:100-108 | the number of requests is the number of rows left divided by the page size, rounded up |
| Metrics.MetricsService.RecordRequest | apps/api/src/metrics/metrics.service.ts:20-44 | the buffers hold exactly the last 512 durations and 256 query counts of everything recorded |
| Metrics.Percentile | apps/api/src/metrics/metrics.service.ts:138-144 | at most p percent of the samples are less than the answer, and more than p percent, or all, are at most the answer |
| Metrics.MetricsService.LatencyPercentiles | apps/api/src/metrics/metrics.service.ts:94-150 | p50 ≤ p95 ≤ p99, each with that property among the last 512 requests |
| Metrics.RanksOrdered | apps/api/src/metrics/metrics.service.ts:140-144 | a rank determines its value, and higher ranks hold no smaller values |
| MemberSync.Outbox.RunMemberSyncSchedule | apps/worker/src/member-sync-schedule-job.ts:17-70 | with any number of concurrent schedulers a guild has at most one event per bucket; a tick leaves every guild whose insert the database answers with one, counts exactly those it made and those it found, and when nobody interferes makes one for every such guild that had none in this bucket |
| MemberSync.BucketsAreIntervals | apps/worker/src/member-sync-schedule-job.ts:26-26 | two ticks share a bucket exactly when they fall into one interval, and ticks an interval apart have increasing buckets |

## Left out

- OutboxOverlap.PublishesBoundedByWorkers: assumes that a marker expires only after its event is in `processed_events` and no dispatch that missed that entry is about to read it.
- Redis commands that fail one by one inside an EXEC, and an EXEC without result: PUBLISH, XADD and the marker are one effect.
- The order in which a claim picks rows (`ORDER BY created_at`), backlog snapshots and alerts, and two requeue commands at once.
- An UPDATE that the client gave up on but that lands later: a failed catch update abandons the batch before or after it took effect, as two different runs.
- ReportDedupe.NoDuplicates: excludes attempts that delete the cooldown key of a report they have committed, because with them the property fails; `ReportLimits` gives the run.
- ReportCap.AdmissionsWithinCap: holds within one lifetime of the day key, because a key that expires between an increment and its decrement forgets the former.
- ReportCap.ApartExactlyWhen: its case of a cap of at most one likewise speaks of one lifetime of the day key.
- Redis losing keys early, a process without Redis, and SHA-256 truncation: dedupe keys are compared by the string that is hashed, and trimming, lower-casing and cutting a reason happen before `norm`.
- The report row's `createdAt` is the time of the insert step, somewhere between the cooldown and the commit.
- Decay.DecayAntitone: `Math.pow` is a parameter that is 1 at 0, never negative and never increasing, because double rounding is not modelled.
- ReputationRuns.DecayRaisesExactlyWhen: assumes that decay transactions commit in the order of their job times.
- ReputationStore.Store.RunDecayJob: the per-user effect is stated for a job time whose event keys are free, because a second job in the same millisecond conflicts and stops.
- In `ReputationRuns` admin edits are single steps; `ReputationEdits` splits them and says exactly when that makes no difference. A decided report can change again when an approval and a rejection both passed the pending check, so nothing is claimed there.
- The reporter's empty user row that an instant report creates if it is missing, audit rows, ticket fields other than the event key, permission and trust checks before a transaction, and event payloads other than `user.updated`.
- The Redis part of `validate`, hit and miss counters, and parsing of cached JSON.
- ActivityFeed.NothingTwice: excludes polls issued while another is open, because with them it fails; `SentAsOftenAsAnswered` and `OverlappingPollsRepeat` say what then holds. A poll that fails ends the stream and is not modelled.
- How the weights of trust-level, community and override flags are configured: a flag is created with whatever weight it is given.
- Cursor paging in the audit and user lists, admin changes of tickets, role resolution, entitlements, circuit breaker, retries, license redemption, the web app, embeds, commands and deployment: one-branch code or no invariant over runs.
