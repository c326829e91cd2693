# Verified model of the CAP outbox/inbox library

Dafny model and proofs for the parts of the repository that decide whether messages are lost,
duplicated or reordered: the outbox claim/lease/fencing protocol with its SQL adapters, the
subscription lifecycle, the inbox with its deduplication and retries, the message envelope, and
the workspace algorithms that decide what continuous integration builds and tests.

Verify everything with `dafny verify --resource-limit 2000000 --verification-time-limit 0
dfyconfig.toml` (Dafny 4.11).

## How it is organised

- `OutboxStore` is the in-memory store as a class over shared event objects, each method tied to
  a transition on tables. `OutboxProtocol` lets any number of claimants (schedulers running
  `dispatchOutboxBatch`, dashboards running `flushOutbox`), immediate publishers and
  administrators act on it in any order, on a clock that may advance between any two steps, with
  requests and replies that can be lost and claimants that can crash. `OutboxHistory` records the
  events, `OutboxCore` holds the store invariant, `OutboxGuarantees` states what holds of every
  run, and `OutboxWitnesses` are runs that show where those guarantees end. `OutboxLaws` says field
  by field what each store operation does. `OutboxRound` is the
  dashboard's flush as a loop over the store when nobody else acts, and `OutboxFlush` shows that
  it is a run of the protocol.
- `Heartbeat` is the lease heartbeat as a machine over its callbacks. The protocol uses it inside
  every emission.
- `Sql` gives statements three-valued logic and both SET semantics; `SqlAdapters` proves that the
  adapters' statements do to a table what the in-memory store does; `PrismaSql` builds the
  statements with positional parameters.
- `Lifecycle` is the register/start/stop machine, `LifecycleEngine` the same in place.
- `InboxTable`, `RetrySelection`, `InboxStore` and `InboxEngine` are the inbox: table, selection of
  due rows, the class that shares its objects with callers, and the handling of one record with
  calls that may be lost. `InboxRuns` is the system of deliveries, batches, manual retries, marks
  and requeues, all at the same time; `InboxGuarantees` says what holds of every run, `InboxRepeats`
  when a message is handled again, `InboxAlone` what holds as long as no record is held twice.
  `InboxSteps` shows that the methods of `InboxEngine` are runs, `InboxWitnesses` has runs that
  show where the guarantees end.
- `Envelope` and `MessageRoundTrip` follow a payload from emit to the inbox. `Backoff` is the delay.
- `TopicMatcher`, `WorkspaceGraph`, `TransitiveClosure`, `AffectedPlan` and `TestBatches` are the
  algorithms. `Basics` has the string order of `compareStrings` and sorted lists.

## What the proofs turned up

- "Every emission starts under the claimant's own unexpired lease" does not hold as it stands: the
  renewal and the start of the emission are separate moments. It holds exactly when the clock is
  still before the granted deadline and no unfenced write came between
  (`EmissionUnderOwnLease`); `EmissionsCanOverlap` is a run where it fails and two claims emit the
  same row at once.
- There is no one maximum retry count for the outbox: every engine brings its own, and a dashboard
  takes 3 unless it is given one. With different maxima a row stays claimable beyond the smaller one
  and is dead-lettered below the greater (`TwoMaximaDisagree`); that one number separates live from
  dead-lettered rows holds exactly when the maxima agree (`AgreedMaximumSplits`, `OneMaximumIff`).
- A row at the maximum retry count need not be dead-lettered: an immediate publish that succeeds
  late completes a dead-lettered row without an owner (`DeadLetteredRowPublished`). Nor is a
  published row final: an immediate publish that fails late turns it back into a failed row, which
  is then published again. This happens exactly when its retry count stays below the writer's
  maximum, and with different maxima to dead-lettered rows too (`UnfencedWriteRevivesIff`,
  `PublishedRowCompletedAgain`, `DeadLetteredRowRevived`); such failures are the one kind of unfenced
  write that `CompletionsAreBounded` has to except.
- An inbox handler can succeed more than once for one message. The mark stands in the same `try` as
  the handler, so a mark that is rejected sends a success to the `catch`, and a process that dies
  before the mark leaves the row pending (`HandlerSucceedsTwice`); a handler that outlasts the
  fallback window is overtaken by a batch (`SlowHandlerOvertaken`); and a manual retry handles rows of
  any status (`AgainByHand`, `DeadLetterHandledByHand`). Without a manual retry a success is the last
  one exactly when the message is settled (`NeverAgainIffSettled`, `SuccessSettlesIff`). All successes
  are accounted for (`SuccessesAreCounted`), and with nothing done by hand and no record held twice
  they are at most one more than the lost marks (`SuccessesWithoutHands`).
- On a first delivery in the in-memory store the engine's record is the stored object, and its
  assignments after the failure write run in a later microtask. A requeue in between is answered as
  done and then undone (`RequeueUndone`). As long as no record is held twice, retry counts add up
  exactly when that has not happened since (`BalancedIffNoneUndone`).
- Releasing expired claims before claiming is harmless only because a claimed row's retry time
  never lies beyond its lease; this holds in every reachable store and is needed
  (`ReleaseThenClaimNeedsRetryTimeOrder`).
- The subscription and dedupe keys join two strings with `|`. They are injective exactly when no
  first part continues another at a separator (`InjectiveIffNoneSwallows`); nothing in the code
  enforces that for inbox groups, where a collision drops a message (`DroppedIff`).
- A publisher given neither headers nor a message id sends the payload bare, and a payload of one
  of three shapes is then taken apart on arrival (`BareArrivesIff`). The engine never does this.
- The MySQL threshold in the failure statement matters for exactly one retry count
  (`WrongThresholdOnMySql`).

## Assumptions

Claim tokens are fresh, ids are fresh and (in the inbox) non-empty, every actor's maximum of retries
is at least 1 (they may differ), clocks do not run backwards, and each storage operation is atomic
(one statement, or one transaction); it may be rejected before or after it took effect.
Package names are distinct, as `validatePackageIdentities` guarantees. Timestamps are integers.

## Model

| member | source | states |
|---|---|---|
| `OutboxGuarantees.LeaseExclusion` | libs/cap-core/src/engine/cap-engine.ts:835-888 | over every run: a claim starts at most one emission, before it is settled and under its last granted deadline; if it starts before that deadline and neither claim was hit by an unfenced write, any other claim that started an emission of the row is settled or past its own deadline |
| `OutboxGuarantees.EmissionUnderOwnLease` | libs/cap-core/src/engine/cap-engine.ts:839-879 | at the moment an emission may start the claimant holds the row under an unexpired lease exactly when the clock is before the granted deadline and no unfenced write came between |
| `OutboxWitnesses.EmissionsCanOverlap` | libs/cap-core/src/engine/cap-engine.ts:839-879 | a concrete run where the deadline condition fails: one claimant waits past its deadline after renewing and starts emitting while a second claimant with a live lease is emitting the same row |
| `OutboxGuarantees.FencedCompletion` | libs/cap-core/src/engine/cap-engine.ts:889-946 | over every run with unfenced writes, releases and requeues interleaved: a fenced write that took effect found the row as its token claimed it except for lease renewals, is the first of its claim, follows a started (for `published`: fulfilled) emission, and the diagnostic equals the stored retry count and kind under the maximum of the claimant that wrote |
| `OutboxGuarantees.RefusedWriteChangesNothing` | libs/cap-core/src/testing/in-memory-publish-storage.ts:65-100 | a fenced completion succeeds exactly when the row is still locked by the token; a refused one changes nothing, and refusal means an unfenced write or a passed deadline |
| `OutboxGuarantees.NothingLostOrStuck` | libs/cap-core/src/testing/in-memory-publish-storage.ts:50-129 | over every run, with a maximum of its own for every engine and dashboard: owner and deadline are set exactly while processing, the retry count is the number of recorded failures, dead-lettered rows have reached the least maximum, live rows are below the greatest, rows at the greatest are dead-lettered or published, and each live row has a computable time from which every claim can take it |
| `OutboxGuarantees.AgreedMaximumSplits` | libs/cap-dashboard-core/src/dashboard.service.ts:50-71 | when all maxima agree, over every run the rows at the maximum are dead-lettered or published and no row below it is dead-lettered |
| `OutboxWitnesses.OneMaximumIff` | libs/cap-dashboard-core/src/dashboard.service.ts:21-23 | for two claimants, one maximum splits dead-lettered from live rows in all runs exactly when their maxima are equal |
| `OutboxWitnesses.TwoMaximaDisagree` | libs/cap-dashboard-core/src/dashboard.service.ts:303-313 | for any two different maxima: a run that leaves a row claimable at the smaller one, and one that dead-letters it below the greater |
| `OutboxWitnesses.DeadLetteredRowPublished` | libs/cap-core/src/engine/cap-engine.ts:777-800 | a concrete run in which the immediate publish completes a dead-lettered row, leaving it published at the maximum |
| `OutboxGuarantees.ReleaseFirstIsHarmless` | libs/cap-core/src/engine/cap-engine.ts:675-687 | in every reachable store, releasing expired claims first does not change what a claim returns |
| `OutboxGuarantees.CompletionsAreBounded` | libs/cap-core/src/engine/cap-engine.ts:835-947 | without new publishes, requeues, and unfenced failures that revive a row, the fenced completions still to come are at most the sum of attempts the live rows have left under the greatest maximum |
| `OutboxGuarantees.UnfencedWriteRevivesIff` | libs/cap-core/src/engine/cap-engine.ts:806-816 | an unfenced write gives a row more attempts exactly if it records a failure on a published or dead-lettered row whose count stays below the writer's own maximum; when all maxima agree only a published row can be revived |
| `OutboxWitnesses.PublishedRowCompletedAgain` | libs/cap-core/src/engine/cap-engine.ts:777-833 | a concrete run without publish or requeue in which such a failure revives a row with no attempts left and it is completed once more |
| `OutboxWitnesses.DeadLetteredRowRevived` | libs/cap-core/src/engine/cap-engine.ts:806-816 | a concrete run with maxima 1 and 3 in which a late immediate failure makes a dead-lettered row live again |
| `OutboxGuarantees.EventComesFromStep` | libs/cap-core/src/engine/cap-engine.ts:675-704 | every emission start or completion in the history of a run was made by one step from a reachable state |
| `OutboxProtocol.StepKeeps` | libs/cap-core/src/engine/cap-engine.ts:675-976 | every step of any number of claimants, publishers and administrators keeps the state invariant |
| `OutboxProtocol.EffectKeeps` | libs/cap-core/src/engine/cap-engine.ts:835-976 | every store action of a claimant (release, claim, renew, emit, write, with lost requests and lost replies) keeps the store invariant |
| `OutboxProtocol.ProgressKeeps` | libs/cap-dashboard-core/src/dashboard.service.ts:245-340 | a claimant's own program keeps its copies, tokens and deadlines true to the history, through the claim, renew, heartbeat and completion branches |
| `OutboxProtocol.DisturbsOnlyOwnToken` | libs/cap-core/src/engine/cap-engine.ts:681-687 | no actor changes what the history says about another claim token |
| `OutboxCore.ClaimKeeps` | libs/cap-core/src/testing/in-memory-publish-storage.ts:50-63 | claiming under a fresh token keeps the store invariant |
| `OutboxCore.SettleKeeps` | libs/cap-core/src/testing/in-memory-publish-storage.ts:65-100 | a fenced completion keeps it |
| `OutboxCore.OverwriteKeeps` | libs/cap-core/src/engine/cap-engine.ts:777-833 | an unfenced completion of an immediate publish keeps it |
| `OutboxCore.RequeueKeeps` | libs/cap-core/src/testing/in-memory-publish-storage.ts:136-154 | a manual requeue keeps it |
| `OutboxStore.ClaimIdsMeaning` | libs/cap-core/src/testing/in-memory-publish-storage.ts:50-63 | a claim takes distinct claimable rows, at most `limit`, and all of them when fewer |
| `OutboxStore.ClaimMeaning` | libs/cap-core/src/testing/in-memory-publish-storage.ts:50-63 | it locks exactly those rows under the owner and deadline, returns copies in order, and leaves every other row alone |
| `OutboxStore.ReleaseThenClaim` | libs/cap-core/src/testing/in-memory-publish-storage.ts:116-129 | release-then-claim returns the same rows as claiming, and the stores differ only on expired rows beyond the limit |
| `OutboxStore.ReleaseThenClaimNeedsRetryTimeOrder` | libs/cap-core/src/testing/in-memory-publish-storage.ts:215-224 | whenever a leased row carries a retry time beyond its lease the two differ, so the reachable-state condition is needed |
| `OutboxStore.InMemoryPublishStorage.SavePublish` | libs/cap-core/src/testing/in-memory-publish-storage.ts:29-35 | stores the given object itself under its id |
| `OutboxStore.InMemoryPublishStorage.ClaimUnpublished` | libs/cap-core/src/testing/in-memory-publish-storage.ts:50-63 | the in-place loop with its early exit equals the claim transition and returns copies |
| `OutboxStore.InMemoryPublishStorage.MarkPublished` | libs/cap-core/src/testing/in-memory-publish-storage.ts:65-80 | completes the row and answers true exactly when the ownership check passes |
| `OutboxStore.InMemoryPublishStorage.MarkPublishFailed` | libs/cap-core/src/testing/in-memory-publish-storage.ts:82-100 | counts the failure, dead-letters at the maximum, unlocks; false changes nothing |
| `OutboxStore.InMemoryPublishStorage.RenewPublishClaim` | libs/cap-core/src/testing/in-memory-publish-storage.ts:102-114 | extends the lease exactly for the current owner of an unexpired claim |
| `OutboxStore.InMemoryPublishStorage.ReleaseExpiredClaims` | libs/cap-core/src/testing/in-memory-publish-storage.ts:116-129 | frees every expired row and no other |
| `OutboxStore.InMemoryPublishStorage.FindPublishById` | libs/cap-core/src/testing/in-memory-publish-storage.ts:131-134 | a copy of the row, if any |
| `OutboxStore.InMemoryPublishStorage.RequeuePublish` | libs/cap-core/src/testing/in-memory-publish-storage.ts:136-154 | resets failed and dead-lettered rows, reports the previous status, refuses the others |
| `OutboxLaws.ClaimLaw` | libs/cap-core/src/testing/in-memory-publish-storage.ts:50-63 | a claim takes, in order of insertion and up to the limit, the pending rows, the failed rows whose retry time has come and the rows whose lease has run out; it locks them for the owner until the deadline, returns copies, and changes nothing else |
| `OutboxLaws.PublishLaw` | libs/cap-core/src/testing/in-memory-publish-storage.ts:65-80 | a completion applies exactly to a stored row that the named owner, if any, holds; it publishes the row for good and unlocks it |
| `OutboxLaws.FailureLaw` | libs/cap-core/src/testing/in-memory-publish-storage.ts:82-100 | a failure is counted and recorded and unlocks the row; below the maximum it may be claimed exactly from the retry time on, at the maximum never |
| `OutboxLaws.RenewLaw` | libs/cap-core/src/testing/in-memory-publish-storage.ts:102-114 | a renewal succeeds exactly for the owner of an unexpired lease and moves only the deadline |
| `OutboxLaws.ReleaseLaw` | libs/cap-core/src/testing/in-memory-publish-storage.ts:116-129 | a release turns exactly the rows whose lease has run out into failed rows without an owner |
| `OutboxLaws.RequeueLaw` | libs/cap-core/src/testing/in-memory-publish-storage.ts:136-154 | a requeue resets failed and dead-lettered rows, claimable from now on, and refuses the others |
| `OutboxRound.FlushOutbox` | libs/cap-dashboard-core/src/dashboard.service.ts:233-350 | a flush while nobody else acts releases, claims and gives each claimed row its turn in place; a rejected release, claim or completion ends it as a failure, otherwise published and failed add up to the claimed rows |
| `OutboxRound.FlushRow` | libs/cap-dashboard-core/src/dashboard.service.ts:265-339 | one row: renew, heartbeat while emitting, then a fenced completion, with calls that may be rejected before or after they took effect |
| `OutboxRound.RunHeartbeat` | libs/cap-dashboard-core/src/dashboard.service.ts:352-379 | the renewals during an emission, up to the first one refused or rejected |
| `OutboxRound.TurnEndsRow` | libs/cap-dashboard-core/src/dashboard.service.ts:265-339 | with renewals in time the row ends as its emission ended, or stays held if its completion never reached the store, and no other row changes; a turn begun after the deadline changes nothing |
| `OutboxRound.TimelyFlush` | libs/cap-dashboard-core/src/dashboard.service.ts:233-350 | when the turns of the claimed rows are timely, the rows before the first rejected completion end as their emissions ended and the later ones stay held; the flush answers a failure exactly when a completion was rejected, and success exactly when none was and every emission was fulfilled |
| `OutboxRound.TurnsEndRows` | libs/cap-dashboard-core/src/dashboard.service.ts:257-340 | the same for the loop, with the counters counting the fulfilled and the rejected emissions |
| `OutboxFlush.FlushIsSteps` | libs/cap-dashboard-core/src/dashboard.service.ts:233-350 | a flush with nobody else at work, with its lost requests and replies, is a run of its claimant's steps in the protocol, with the same effect on the table |
| `OutboxFlush.TurnIsSteps` | libs/cap-dashboard-core/src/dashboard.service.ts:257-340 | so is one row's turn: the row ends as in the loop, and the claimant goes on to the next row or leaves the round |
| `Heartbeat.StateReflectsSchedule` | libs/cap-core/src/utils/active-lease-heartbeat.util.ts:16-58 | for every schedule: ownership is lost exactly when some renewal was refused or threw; at most one of timer and renewal exists; the timer is armed exactly while another renewal may be needed |
| `Heartbeat.NoRenewalAfterLossOrSettlement` | libs/cap-core/src/utils/active-lease-heartbeat.util.ts:26-43 | renewals never overlap and none starts after a loss or after the operation settled |
| `Heartbeat.ReturnsQuietly` | libs/cap-core/src/utils/active-lease-heartbeat.util.ts:45-58 | the helper returns at most one renewal settlement after the operation, with no timer and no renewal pending |
| `Heartbeat.ActiveLease.OnTimer` | libs/cap-core/src/utils/active-lease-heartbeat.util.ts:29-30 | the captured variables after the timer fires |
| `Heartbeat.ActiveLease.OnRenewalSettled` | libs/cap-core/src/utils/active-lease-heartbeat.util.ts:30-41 | the captured variables after a renewal settles, with the next timer armed only if still needed |
| `Heartbeat.ActiveLease.OnOperationSettled` | libs/cap-core/src/utils/active-lease-heartbeat.util.ts:47-55 | the captured variables after the operation settles |
| `SqlAdapters.ConditionsMeanPredicates` | libs/cap-storage-knex/src/knex-publish-storage.ts:186-344 | under three-valued NULL logic the claimable, ownership, renewable, expiry and requeue conditions select the same rows as the in-memory predicates |
| `SqlAdapters.FailedRow` | libs/cap-storage-typeorm/src/typeorm-publish-storage.ts:188-226 | the failure SET list gives the in-memory row under left-to-right and under simultaneous assignment, also with the `coalesce` form of the retry time |
| `SqlAdapters.WrongThresholdOnMySql` | libs/cap-storage-mikro-orm/src/storage/mikro-publish-storage.ts:149-176 | with the other databases' threshold MySQL would store the wrong status exactly when `retryCount + 2 = maxRetries` |
| `SqlAdapters.MarkPublishedRefines` | libs/cap-storage-knex/src/knex-publish-storage.ts:136-153 | same table and same answer as the in-memory completion |
| `SqlAdapters.MarkPublishFailedRefines` | libs/cap-storage-knex/src/knex-publish-storage.ts:155-184 | same table and same answer as the in-memory failure, for all adapters and both assignment semantics |
| `SqlAdapters.RenewPublishClaimRefines` | libs/cap-storage-typeorm/src/typeorm-publish-storage.ts:228-244 | same table and answer as the in-memory renewal |
| `SqlAdapters.ReleaseExpiredClaimsRefines` | libs/cap-storage-mikro-orm/src/storage/mikro-publish-storage.ts:192-198 | same table as the in-memory release |
| `SqlAdapters.RequeuePublishRefines` | libs/cap-storage-knex/src/knex-publish-storage.ts:222-247 | same table as the in-memory requeue; the answer says requeued for exactly the same rows, and with no write between the two queries it is the in-memory answer without the previous status |
| `SqlAdapters.ClaimUnpublishedRefines` | libs/cap-storage-knex/src/knex-publish-storage.ts:95-134 | whatever rows `ORDER BY created_at LIMIT` returns, the transaction locks and returns the rows the in-memory store would if it had received the same rows in some order of their creation times |
| `SqlAdapters.QueryIsLoop` | libs/cap-storage-mikro-orm/src/storage/mikro-publish-storage.ts:322-346 | what the query may return is exactly what the in-memory loop collects for some order of insertion by creation time, ties in any order |
| `SqlAdapters.LoopCollects` | libs/cap-storage-knex/src/knex-publish-storage.ts:95-110 | for an order of insertion that respects creation times and, within one, the answer, the query's answer is what the loop collects |
| `SqlAdapters.LockSelectedLocks` | libs/cap-storage-prisma/src/prisma-publish-storage.ts:157-178 | an update `WHERE id IN (...)` locks exactly the listed rows |
| `Sql.PositionsAreNumbers` | libs/cap-storage-prisma/src/prisma-storage-utils.ts:16-19 | statements whose placeholders stand in the order the values were collected mean the same with `?` as with numbered placeholders |
| `PrismaSql.MarkPublishedStatement` | libs/cap-storage-prisma/src/prisma-publish-storage.ts:190-221 | the built text and values bind the completion statement in both placeholder styles |
| `PrismaSql.MarkPublishFailedStatement` | libs/cap-storage-prisma/src/prisma-publish-storage.ts:223-269 | the built text and values bind the failure statement, fenced or not, MySQL or not |
| `PrismaSql.RenewPublishClaimStatement` | libs/cap-storage-prisma/src/prisma-publish-storage.ts:271-295 | the same for renewal |
| `PrismaSql.ReleaseExpiredClaimsStatement` | libs/cap-storage-prisma/src/prisma-publish-storage.ts:297-314 | the same for release |
| `PrismaSql.RequeuePublishStatement` | libs/cap-storage-prisma/src/prisma-publish-storage.ts:323-355 | the same for requeue |
| `PrismaSql.ClaimUnpublishedSelect` | libs/cap-storage-prisma/src/prisma-publish-storage.ts:123-155 | the same for the select of the claim and its limit |
| `PrismaSql.ClaimUnpublishedUpdate` | libs/cap-storage-prisma/src/prisma-publish-storage.ts:157-178 | the same for the update of the claim, with one placeholder collected for each selected row |
| `Lifecycle.LifecycleSafety` | libs/cap-core/src/engine/cap-engine.ts:237-423 | over every run of register, start and stop with failing consumes and closes: `ready` means all attached, `stopped` none; an incomplete shutdown shows as `failed`; attached means consumed since the last close; keys are unique |
| `Lifecycle.ConsumesAreOrderly` | libs/cap-core/src/engine/cap-engine.ts:277-360 | no consume is issued between a failed close and the next successful one, and each registration is consumed successfully at most once between closes |
| `Lifecycle.PendingStopStep` | libs/cap-core/src/engine/cap-engine.ts:376-423 | while a stop is pending nothing is consumed, every broker answer brings it closer to its end, and it ends in `stopped` with nothing attached or `failed` with the flags preserved |
| `Lifecycle.StopWins` | libs/cap-core/src/engine/cap-engine.ts:327-360 | once asked for, a stop settles after at most two broker answers with no new consume issued |
| `Lifecycle.AttachLoopEnds` | libs/cap-core/src/engine/cap-engine.ts:314-360 | without a stop each resolved consume leaves one registration fewer, and the last one makes the engine ready |
| `Lifecycle.StartObeysLaw` | libs/cap-core/src/engine/cap-engine.ts:287-336 | the same for the step itself, in every state of the invariant |
| `Lifecycle.ResolvedConsumeAttaches` | libs/cap-core/src/engine/cap-engine.ts:318-360 | a resolved consume attaches the first unattached registration and issues the next consume, or makes the engine ready when none is left |
| `Lifecycle.RejectedConsumeFails` | libs/cap-core/src/engine/cap-engine.ts:338-351 | a rejected consume fails the startup and keeps the attachments made so far |
| `Lifecycle.StartReachesReady` | libs/cap-core/src/engine/cap-engine.ts:287-360 | over every run: a start at rest that nobody stops ends ready with every registration attached after as many resolved consumes as there were unattached registrations |
| `Lifecycle.StartupCompletes` | libs/cap-core/src/engine/cap-engine.ts:318-360 | on the way there each resolved consume leaves one registration fewer, and the engine is ready exactly when none is left |
| `Lifecycle.QueuedStartFollowsStop` | libs/cap-core/src/engine/cap-engine.ts:290-297 | a start asked for while stopping runs only once the stop has settled: afresh after a successful close, without effect after a failed one |
| `Lifecycle.StopObeysLaw` | libs/cap-core/src/engine/cap-engine.ts:376-405 | a stop at rest begins a close, or without a close function leaves the engine stopped with nothing attached; during a startup it waits for the outstanding consume; when stopped or already stopping it changes nothing |
| `Lifecycle.StopEnds` | libs/cap-core/src/engine/cap-engine.ts:388-423 | a close that succeeds detaches everything, one that fails keeps the attachments and marks the shutdown incomplete; a stop that waited goes on to the close when the outstanding consume is answered, either way |
| `Lifecycle.RegisterLaw` | libs/cap-core/src/engine/cap-engine.ts:237-263 | a registration is accepted exactly for a topic that is not empty, at rest, under a new key, and then comes last and unattached |
| `Lifecycle.StepKeeps` | libs/cap-core/src/engine/cap-engine.ts:277-423 | every step keeps the lifecycle invariant |
| `LifecycleEngine.CapEngine.RegisterSubscription` | libs/cap-core/src/engine/cap-engine.ts:237-260 | accepts exactly non-empty topics with a new key outside starting, stopping and ready |
| `LifecycleEngine.CapEngine.StartSubscriptions` | libs/cap-core/src/engine/cap-engine.ts:287-336 | a start at rest makes the engine ready if everything is attached, and otherwise issues one consume, for the first unattached registration; while stopping it waits; while ready, starting or before an incomplete shutdown was made good it changes nothing |
| `LifecycleEngine.CapEngine.OnConsumeResolved` | libs/cap-core/src/engine/cap-engine.ts:335-360 | performs the step of a resolved consume: go on, finish, or give way to a stop |
| `LifecycleEngine.CapEngine.OnConsumeRejected` | libs/cap-core/src/engine/cap-engine.ts:338-351 | performs the step of a failed consume |
| `LifecycleEngine.CapEngine.StopSubscriptions` | libs/cap-core/src/engine/cap-engine.ts:376-405 | performs the stop step in place |
| `LifecycleEngine.CapEngine.OnCloseResolved` | libs/cap-core/src/engine/cap-engine.ts:416-422 | performs the step of a successful close |
| `LifecycleEngine.CapEngine.OnCloseRejected` | libs/cap-core/src/engine/cap-engine.ts:406-414 | performs the step of a failed close |
| `InboxTable.TrySaveDeduplicates` | libs/cap-core/src/testing/in-memory-received-storage.ts:20-36 | a record is inserted exactly when no stored row has its identity; index and rows stay in agreement |
| `InboxTable.DroppedIff` | libs/cap-core/src/testing/in-memory-received-storage.ts:20-36 | a message is dropped exactly when its pair of group and key is stored, or a stored pair reads like it with the separator shifted |
| `InboxTable.InsertedIffNewPair` | libs/cap-core/src/testing/in-memory-received-storage.ts:192-196 | as long as no group in use continues another at a separator, a message is inserted exactly when its pair of group and dedupe key is new |
| `InboxTable.SwallowedGroupLosesMessage` | libs/cap-core/src/testing/in-memory-received-storage.ts:192-196 | where one group continues another at a separator, a message of one is dropped as a duplicate of the other |
| `InboxTable.SaveLaw` | libs/cap-core/src/testing/in-memory-received-storage.ts:20-36 | a record that reads like no stored row is stored as it is; otherwise nothing changes and the answer names the row it reads like |
| `InboxTable.MarkLaw` | libs/cap-core/src/testing/in-memory-received-storage.ts:38-47 | a mark makes the row processed at the given time and no longer due, and changes nothing else |
| `InboxTable.FailureLaw` | libs/cap-core/src/testing/in-memory-received-storage.ts:90-104 | a failure is counted once and recorded; below the maximum the row is due at the given time, at the maximum not again |
| `InboxTable.RequeueLaw` | libs/cap-core/src/testing/in-memory-received-storage.ts:113-130 | a requeue takes a failed or dead-lettered row back to the start, due from now on; other rows stay as they are |
| `InboxStore.InMemoryReceivedStorage.TrySaveReceived` | libs/cap-core/src/testing/in-memory-received-storage.ts:20-36 | keeps the given object itself when it is new, returns the stored one when it is not |
| `InboxStore.InMemoryReceivedStorage.MarkProcessed` | libs/cap-core/src/testing/in-memory-received-storage.ts:38-47 | marks the stored row processed; an unknown id changes nothing |
| `InboxStore.InMemoryReceivedStorage.MarkReceivedFailed` | libs/cap-core/src/testing/in-memory-received-storage.ts:90-104 | counts the failure in the stored row and dead-letters at the maximum |
| `InboxStore.InMemoryReceivedStorage.RequeueReceived` | libs/cap-core/src/testing/in-memory-received-storage.ts:113-130 | resets failed and dead-lettered rows only, reporting the previous status |
| `InboxStore.InMemoryReceivedStorage.GetRetryDue` | libs/cap-core/src/testing/in-memory-received-storage.ts:49-88 | returns fresh copies of the batch, for any collation of ids: the failed rows whose retry time has come and the pending rows from before the window, ordered by due time, then arrival, then id, with every row left out coming after them |
| `InboxStore.InMemoryReceivedStorage.FindReceivedById` | libs/cap-core/src/testing/in-memory-received-storage.ts:106-111 | a fresh copy of the row, if any |
| `RetrySelection.SelectionIsPrefix` | libs/cap-core/src/testing/in-memory-received-storage.ts:68-85 | selections for growing limits are prefixes of one another, and a selection does not depend on the store's iteration order |
| `RetrySelection.FirstDueRowsAreSelected` | libs/cap-core/src/testing/in-memory-received-storage.ts:55-85 | filter, sort and slice give the `limit` least due rows: every due row left out comes later and the limit is used up; dead-lettered, processed, recent pending and not yet due rows never appear |
| `RetrySelection.SelectionIsBatch` | libs/cap-core/src/testing/in-memory-received-storage.ts:55-85 | a selection is exactly such a batch, described by the rows' own fields |
| `RetrySelection.BeforeIsStrictOrder` | libs/cap-core/src/testing/in-memory-received-storage.ts:68-84 | due time, then arrival, then id is a strict total order on rows of different ids, for any collation that is one on the ids |
| `InboxEngine.TryHandle` | libs/cap-core/src/engine/cap-engine.ts:1223-1274 | one handling does to the stored row what its mark and, if the `catch` is reached by the handler's error or by a rejected mark, its failure write do, then whatever administrators do before the answer is processed, and then, if the record is the stored object itself, the assignments; it completes exactly when its last call was answered |
| `InboxEngine.FailedHandlingWaits` | libs/cap-core/src/engine/cap-engine.ts:1239-1265 | a failed handling whose write is answered counts and records the failure; below the maximum the row is due again between min(1000*2^n, 300000) and min(1000*2^n + 999, 300000) after the failure, n being the count the record showed, at the maximum never |
| `InboxEngine.SuccessfulHandlingMarks` | libs/cap-core/src/engine/cap-engine.ts:1227-1234 | a successful handling whose mark is answered leaves the row processed at the time of the mark and changes nothing else |
| `InboxEngine.CallMarkProcessed` | libs/cap-core/src/engine/cap-engine.ts:1228-1234 | the mark, what happens before its answer is processed, and the assignments, for every way the call can go |
| `InboxEngine.CallMarkFailed` | libs/cap-core/src/engine/cap-engine.ts:1240-1265 | the same for the failure write: the count assigned is the one read before the call |
| `InboxEngine.Reflect` | libs/cap-core/src/engine/cap-engine.ts:1260-1264 | the assignments change the stored row exactly if the record is the stored object, and no other row |
| `InboxEngine.AssignmentsRepeat` | libs/cap-core/src/engine/cap-engine.ts:1260-1264 | if nothing happens in between, the assignments change nothing the store has not done, be the record the stored object or a copy |
| `InboxEngine.RetryReceived` | libs/cap-core/src/engine/cap-engine.ts:651-661 | without a subscription nothing happens; otherwise the record is handled whatever its status |
| `InboxEngine.OnDelivery` | libs/cap-core/src/engine/cap-engine.ts:1110-1131 | a duplicate delivery changes nothing; a new one is saved and handled through the stored object |
| `InboxEngine.RetryInboxBatch` | libs/cap-core/src/engine/cap-engine.ts:706-741 | handles the least due rows in order, with the fallback window for pending ones, up to a handling that rejects |
| `InboxEngine.HandleBatch` | libs/cap-core/src/engine/cap-engine.ts:722-738 | the loop over the copies of a batch changes the stored rows one handling at a time |
| `InboxSteps.BatchIsSteps` | libs/cap-core/src/engine/cap-engine.ts:722-738 | a whole retry batch in place is a run of the system's steps |
| `InboxSteps.DeliveryIsSteps` | libs/cap-core/src/engine/cap-engine.ts:1110-1131 | so is a delivery: saving and, for a new record, its handling through the stored object, with requeues and marks before the assignments |
| `InboxSteps.RetryIsSteps` | libs/cap-dashboard-core/src/dashboard.service.ts:198-219 | so is a manual retry of a row of any status |
| `InboxRuns.StepKeeps` | libs/cap-core/src/engine/cap-engine.ts:651-741 | every step of any number of deliveries, batches and manual retries at once, each interrupted at every `await`, and every requeue and manual mark keeps the inbox invariant, with calls lost or unanswered and processes dying |
| `InboxGuarantees.OneRowPerPair` | libs/cap-core/src/testing/in-memory-received-storage.ts:17-36 | over every run at most one row has a given group and dedupe key |
| `InboxGuarantees.SuccessesAreCounted` | libs/cap-core/src/engine/cap-engine.ts:1227-1234 | over every run the successes of an identity's handler, and the times its row became processed without one, add up to the marks lost, the successes repeated on a processed row, and one if the row is processed |
| `InboxAlone.SuccessesWithoutHands` | libs/cap-core/src/engine/cap-engine.ts:706-738 | without manual retries and marks, and as long as no batch selects a record that is still held, the handler succeeded exactly once for each lost mark and once more if the row is processed: at most once when every mark lasted |
| `InboxWitnesses.SlowHandlerOvertaken` | libs/cap-core/src/engine/cap-engine.ts:706-717 | a concrete run in which a handler outlasts the fallback window and a batch handles its row as stale: two successes, no lost mark |
| `InboxRepeats.NeverAgainIffSettled` | libs/cap-core/src/engine/cap-engine.ts:1227-1264 | at every moment of every run, no continuation without a manual retry of a stored message makes its handler succeed again exactly when its row is processed, no job has a handler of it running or waiting, and no failure write and no late assignments of one are to come |
| `InboxRepeats.AgainByHand` | libs/cap-dashboard-core/src/dashboard.service.ts:198-219 | at every moment of every run a manual retry can bring every stored message's handler to success once more, so the exception is needed |
| `InboxGuarantees.SuccessSettlesIff` | libs/cap-core/src/engine/cap-engine.ts:1228-1260 | a success settles its message exactly when its mark took effect, the `catch` is not entered, and no other job threatens the row; after a lost reply, exactly when the failure write does not take effect and no other job does |
| `InboxRepeats.AnotherSuccess` | libs/cap-core/src/engine/cap-engine.ts:706-741 | from every state in which a stored message is not settled some continuation without a manual retry runs its handler to success once more |
| `InboxWitnesses.HandlerSucceedsTwice` | libs/cap-core/src/engine/cap-engine.ts:1227-1260 | a concrete run with two successes, nothing done by hand and no record held twice: the mark is rejected, the success is recorded as a failure, and the retry batch handles the message again |
| `InboxGuarantees.RetryCountsBalance` | libs/cap-core/src/engine/cap-engine.ts:1240-1264 | over every run the stored retry count and the lost failure writes add up to the handler errors and unanswered marks since save or requeue and to what assignments to the stored object added; dead-lettered means at least the least maximum, and at the greatest the row is dead-lettered or processed |
| `InboxAlone.BalancedIffNoneUndone` | libs/cap-core/src/engine/cap-engine.ts:1255-1264 | as long as no handling begins for a record still held, count and lost writes add up to the errors and unanswered marks alone exactly when no requeue fell between a failure write and its assignments to the stored object |
| `InboxWitnesses.RequeueUndone` | libs/cap-core/src/engine/cap-engine.ts:555-586 | a concrete run with maximum 1 in which such a requeue is answered as done and then undone: dead-lettered with count 1 and no failure since |
| `InboxWitnesses.DeadLetterHandledByHand` | libs/cap-dashboard-core/src/dashboard.service.ts:198-219 | a concrete run in which a manual retry handles a dead-lettered row, which is then processed at the maximum |
| `InboxAlone.StepKeepsAlone` | libs/cap-core/src/engine/cap-engine.ts:1223-1264 | if handlings begin only for records nobody holds, every record is held by at most one job and the count that assignments will write is the stored one unless the row was requeued |
| `InboxGuarantees.ProcessedEndsIff` | libs/cap-core/src/engine/cap-engine.ts:1228-1264 | no step removes a row or changes its identity; a processed row stops being processed exactly by a failure write on it that takes effect or by the late assignments of one |
| `InboxGuarantees.OpenRowsBecomeDue` | libs/cap-core/src/engine/cap-engine.ts:706-717 | over every run an open row is due exactly from its retry time, or from the end of the fallback window |
| `Backoff.DelaysNeverShrink` | libs/cap-core/src/engine/backoff.ts:1-9 | the delay is at most the cap and does not shrink from an attempt to a later one, whatever the jitter |
| `Backoff.DelayWindow` | libs/cap-core/src/engine/backoff.ts:6-8 | below the cap the delay is the doubled base plus less than one base; otherwise it is the cap |
| `Backoff.DelayLaw` | libs/cap-core/src/engine/backoff.ts:1-9 | the delay is the base times the n-th number of 1, 2, 4, ... plus the draw, up to the cap |
| `Envelope.ExplicitDecodesIffValid` | libs/cap-core/src/utils/cap-message-envelope.util.ts:60-142 | a value that declares the envelope kind decodes exactly when it is a valid version 1 envelope; any other value fails only as a rejected legacy envelope |
| `Envelope.CreatedIsValidIff` | libs/cap-core/src/utils/cap-message-envelope.util.ts:43-82 | building gives a valid envelope exactly for JSON payloads with valid headers |
| `Envelope.DecodeUndoesCreate` | libs/cap-core/src/utils/cap-message-envelope.util.ts:84-97 | decoding takes off exactly the layer building put on, for payloads shaped like envelopes too, with the transport's headers winning |
| `Envelope.DecodeKeepsIff` | libs/cap-core/src/utils/cap-message-envelope.util.ts:84-115 | decoding leaves a value as it is exactly when it is neither kind of envelope |
| `Envelope.LegacyIsTakenApart` | libs/cap-core/src/utils/cap-message-envelope.util.ts:99-109 | an object with an own JSON payload, perhaps headers and nothing else yields that payload, with the explicit headers winning, unless legacy envelopes are rejected |
| `Envelope.OtherValuesAreKept` | libs/cap-core/src/utils/cap-message-envelope.util.ts:111-115 | a value of neither kind is the payload itself, with the explicit headers |
| `Envelope.ExplicitInFields` | libs/cap-core/src/utils/cap-message-envelope.util.ts:117-142 | an explicit envelope is refused for its version, its payload or its headers, whichever is at fault first, and otherwise yields its payload |
| `Envelope.KindsInFields` | libs/cap-core/src/utils/cap-message-envelope.util.ts:144-179 | what counts as either kind, by the properties of the value; no value is both |
| `Envelope.CreatedInFields` | libs/cap-core/src/utils/cap-message-envelope.util.ts:43-58 | a built envelope has the marker, the payload and perhaps the headers, and nothing else |
| `Envelope.JsonIsJsonInside` | libs/cap-core/src/utils/cap-message-envelope.util.ts:211-223 | a value counts as JSON exactly when nothing inside it at any depth is undefined, not finite, a date, a function or an object of a class |
| `MessageRoundTrip.PayloadArrives` | libs/cap-core/src/engine/cap-engine.ts:1174-1221 | engine emit, publisher, JSON wire, bridge and persisting store every JSON payload unchanged, under the outbox id unless the transport brings a message id |
| `MessageRoundTrip.EmittedEnvelope` | libs/cap-transport-nestjs-microservices/src/cap-microservices-publisher.ts:27-40 | the engine's emit always sends an envelope whose message id header replaces any other |
| `MessageRoundTrip.EnvelopeIsNoWrapper` | libs/cap-transport-nestjs-microservices/src/cap-microservices-bridge.ts:55-83 | an envelope is never unwrapped as a legacy wrapper |
| `MessageRoundTrip.BareArrivesIff` | libs/cap-transport-nestjs-microservices/src/cap-microservices-bridge.ts:150-185 | without an envelope a JSON payload arrives unchanged exactly when it has none of the three recognised shapes |
| `MessageRoundTrip.WrapperIsUnwrapped` | libs/cap-transport-nestjs-microservices/src/cap-microservices-bridge.ts:85-130 | a legacy wrapper is reduced to its payload; headers and metadata of the transport win over the nested ones, key by key |
| `Envelope.MergePrefersHigher` | libs/cap-core/src/utils/cap-message-envelope.util.ts:181-187 | merging takes each header from the second argument if present and from the first otherwise; no headers become absent |
| `MessageRoundTrip.WireKeepsEnvelope` | libs/cap-transport-nestjs-microservices/src/cap-microservices-publisher.ts:37-40 | JSON serialisation keeps an envelope an envelope of the same payload |
| `MessageRoundTrip.LegacyArrives` | libs/cap-core/src/engine/cap-engine.ts:1174-1221 | a message that looks like a legacy envelope reaches the record with the payload inside it unless such envelopes are rejected |
| `MessageRoundTrip.PersistLaw` | libs/cap-core/src/engine/cap-engine.ts:1188-1217 | message id and dedupe key come from the transport if it gave them, otherwise from the headers and from topic, group and message id; without any message id a fresh one is used |
| `MessageRoundTrip.DispatchLaw` | libs/cap-transport-nestjs-microservices/src/cap-microservices-bridge.ts:55-130 | the bridge takes apart exactly the wrappers, described by their properties, merging headers and metadata with the transport winning, and passes on everything else as it is |
| `MessageRoundTrip.EmitLaw` | libs/cap-transport-nestjs-microservices/src/cap-microservices-publisher.ts:27-40 | the payload is sent bare exactly without headers and without a message id; otherwise in an envelope with the message id in its headers |
| `MessageRoundTrip.WireIsJson` | libs/cap-transport-nestjs-microservices/src/cap-microservices-publisher.ts:37-40 | what is read from the wire is JSON whatever was sent |
| `MessageRoundTrip.CapMicroservicesBridge.Consume` | libs/cap-transport-nestjs-microservices/src/cap-microservices-bridge.ts:136-148 | registers a handler under its topic and group and no other |
| `MessageRoundTrip.CapMicroservicesBridge.DispatchTo` | libs/cap-transport-nestjs-microservices/src/cap-microservices-bridge.ts:150-185 | every handler of the topic and group gets the unwrapped message with merged headers and metadata, and the warning is given once a wrapper reached a handler |
| `TopicMatcher.TopicMatches` | libs/cap-transport-rabbitmq/src/rabbitmq-subscriber.ts:437-456 | terminates and is true exactly when the topic words split into one run per pattern word that it takes |
| `TopicMatcher.MatchFrom` | libs/cap-transport-rabbitmq/src/rabbitmq-subscriber.ts:440-454 | the backtracking recursion with its inner loop decides the suffixes by cases |
| `TopicMatcher.CasesMeanSegments` | libs/cap-transport-rabbitmq/src/rabbitmq-subscriber.ts:440-454 | deciding by cases and the existence of a segmentation are the same |
| `TopicMatcher.TableAgrees` | libs/cap-transport-rabbitmq/src/rabbitmq-subscriber.ts:437-456 | a table filled right to left agrees with it on every pattern and topic |
| `TopicMatcher.SplitUndoesJoin` | libs/cap-transport-rabbitmq/src/rabbitmq-subscriber.ts:438-439 | splitting at dots is the only way to write a text as words without dots |
| `TopicMatcher.SplitAtFirstDot` | libs/cap-transport-rabbitmq/src/rabbitmq-subscriber.ts:438-439 | a text without dots is one word; what stands before the first dot is the first word |
| `TopicMatcher.HashMatchesAnything` | libs/cap-transport-rabbitmq/src/rabbitmq-subscriber.ts:444-449 | a pattern with a `#` matches exactly the topics of which what precedes it matches a beginning and what follows it an end that does not overlap |
| `TopicMatcher.WordsMatchOneByOne` | libs/cap-transport-rabbitmq/src/rabbitmq-subscriber.ts:450-454 | a pattern without `#` matches exactly the topics of as many words, each equal to its pattern word unless that is `*` |
| `TopicMatcher.FindSubscription` | libs/cap-transport-rabbitmq/src/rabbitmq-subscriber.ts:308-316 | the first registered subscription of the group whose pattern matches, or none if none does |
| `WorkspaceGraph.BuildEdges` | tools/workspace-packages.js:221-251 | each package depends on exactly the workspace packages that some dependency section of its manifest lists, and the two edge maps are inverse |
| `WorkspaceGraph.CycleSearch.Visit` | tools/workspace-packages.js:253-269 | finishes a package and everything it needs, or reports a genuine cycle off the stack |
| `WorkspaceGraph.FindCycle` | tools/workspace-packages.js:253-270 | reports a cycle exactly when the graph has one, and the reported cycle is genuine |
| `WorkspaceGraph.SortPackages` | tools/workspace-packages.js:275-301 | fails exactly on cyclic graphs; otherwise returns the lexicographically smallest dependency-first order |
| `WorkspaceGraph.LowerDependents` | tools/workspace-packages.js:288-296 | the inner loop keeps the counts of missing dependencies and the sorted ready list right |
| `WorkspaceGraph.GreedyIsLeast` | tools/workspace-packages.js:285-297 | an order that always takes the least ready package precedes every other dependency-first order |
| `WorkspaceGraph.LeftoverHasCycle` | tools/workspace-packages.js:298-299 | packages left over when nothing is ready hold a cycle |
| `WorkspaceGraph.OrderWorkspace` | tools/workspace-packages.js:221-301 | after a cycle search that found none the sort never reports that the packages could not be ordered |
| `WorkspaceGraph.SelectPackages` | tools/workspace-packages.js:377-389 | the requested packages in dependency-first order, or an unknown name |
| `Basics.KeptInOrder` | tools/workspace-packages.js:377-389 | filtering keeps the order |
| `Basics.LessAtFirstDifference` | tools/workspace-packages.js:34-38 | the string order is decided at the first difference |
| `TransitiveClosure.Closure` | tools/affected-validation.js:407-420 | the work list computes the least closed set that contains the seeds |
| `TransitiveClosure.ClosureIsReach` | tools/affected-validation.js:407-420 | that set is what can be reached from the seeds |
| `TransitiveClosure.KeepClosedSet` | tools/affected-validation.js:422-427 | a closed selection of a dependency-first order is dependency first |
| `AffectedPlan.MarkFiles` | tools/affected-validation.js:542-666 | the loop over the changed files marks the directly affected packages and the build, test, pack and dependent seeds, and gives one reason for each file |
| `AffectedPlan.Expand` | tools/affected-validation.js:674-722 | global escalation, extra build seeds and the two closures give the sets the marks call for |
| `AffectedPlan.CreatePlan` | tools/affected-validation.js:519-772 | the plan passes `validatePlan`; its lists are determined by the changed files alone: a package is tested exactly for a changed unit test or runtime file of its own or of a package it depends on for the latter, packed for a runtime or pack documentation change, built if a package to be built for its own sake depends on it, everything with a global change; the test files are those below the tested packages and changed applications, and there is one reason for each file |
| `AffectedPlan.KeptListIsPackageList` | tools/affected-validation.js:815-832 | every list built by `orderedNames` passes the plan checks on duplicates, known names and order |
| `AffectedPlan.ValidPlanInFields` | tools/affected-validation.js:782-832 | a plan passes `validatePlan` exactly if it has the version, its files and reasons are sorted without repetition, and its lists hold known packages in the workspace order |
| `AffectedPlan.BuildIsDependencyFirst` | tools/affected-validation.js:720-723 | the build list is closed under dependencies and lists them first |
| `AffectedPlan.DependentsAreCovered` | tools/affected-validation.js:707-724 | everything that depends on a package with a runtime change, directly or through others, is built, tested and listed as affected |
| `AffectedPlan.ListsFitOne` | tools/affected-validation.js:542-724 | which lists hold a package, by its changed files and dependencies |
| `AffectedPlan.WantedIsBuilt` | tools/affected-validation.js:669-722 | every package with a runtime or test change, every packed one, and the testing package when anything is tested, is built |
| `TestBatches.BatchTestFiles` | tools/affected-validation.js:924-945 | the batches concatenate to the input; each is one file or keeps to the given limits, or else 40 files and 12000 characters of command line; no other split that does has fewer |
| `TestBatches.StaysAhead` | tools/affected-validation.js:930-942 | full batches stay ahead of every other split, from any earlier starting point |
| `Basics.JoinKeyCollidesIff` | libs/cap-core/src/engine/cap-engine.ts:92-94 | two pairs share a joined key exactly when they are equal or one is the other with the separator shifted |
| `Basics.NoKeyInCommonIff` | libs/cap-core/src/engine/cap-engine.ts:92-94 | two different first parts share no key exactly when neither continues the other at a separator |
| `Basics.InjectiveIffNoneSwallows` | libs/cap-core/src/testing/in-memory-received-storage.ts:192-196 | keys over a set of names are injective exactly when no name continues another at a separator |

## Left out

- Broker clients, connection recovery, polling loops, topology, timeouts and real ORM or driver behaviour.
- `dispatchOutboxBatch` as a loop over the heap: where other actors interleave it is a state machine over its awaits; `OutboxRound` has the loop for the dashboard, whose turns are the same but for the diagnostics.
- Storages without `renewPublishClaim`: renewal is taken to exist, as it does in all stores of the repository.
- The retry delays of failure writes are parameters of the steps; `Backoff` says how they are computed.
- The failure details kept with the lifecycle state, and the engine's status report.
- Dynamic `subscribe()`, which attaches without joining the start/stop serialisation.
- Lifecycle.StopWins: an aborted startup and the stop waiting for it proceed as one step; calls made in the microtasks between them, where a start does not yet see the pending stop, and calls made while a settled promise's cleanup is still queued, are not modelled.
- RetrySelection.BeforeIsStrictOrder: takes `localeCompare` as any strict total order on the ids; different ids that a locale treats as equal, which the stable sort would leave in insertion order, are not covered.
- `retryInbox` and `markInboxProcessed` in read-only mode, for an unknown id, or without a retry handler, and the texts of their answers.
- `flushOutbox` in read-only mode or without a publisher, and the text of its message.
- The SQL adapters of the inbox.
- JSON details beyond `Wire`: key order, duplicate keys, sparse arrays, accessors, prototypes other than plain or not.
- Payloads and headers inside outbox and inbox rows are opaque there; `MessageRoundTrip` treats them in full. Warnings and logging are left out, except the bridge's one-time flag.
- WorkspaceGraph.BuildEdges: version ranges and `file:` references are not checked, the failures they cause are I/O around semver and the file system.
- AffectedPlan.CreatePlan: path classification, import scanning and test discovery are parameters; of the gates only `e2e` is modelled, as it decides the build seeds.
- `validatePlan` checks on value types (arrays, objects) hold by typing.
- Snapshots, listings, diagnostics sinks, NestJS/Express wiring, dashboard UI, transaction managers, release tooling.
