# Family Events API: verified model of its protocols and bounded algorithms

This project models the parts of the Family Events API whose correctness does not show in any
single function: transactions of several writers over shared tables, workers that crash or lose
answers, cursors that must agree with an ORDER BY, and small algorithms with exact limits. Each
database transaction is one atomic step over tables held as maps and sequences, with its own clock
reading; runs are sequences of such steps in any order, with crashes and lost acknowledgements
between them. Code that updates objects, arrays or counters step by step is a class or a method
with loops, proved equal to the function that specifies it, and the theorems are proved about
those functions. The modules named `Answers` and `Order` say what those functions mean in the rows'
own fields: each reply as a condition on the rows before, the rows after, and, over runs, where
everything of note came from.

`dafny verify dfyconfig.toml` checks everything.

## Modules

| files | subject |
|---|---|
| `Common` | options, time, mail states |
| `Accounts`, `AccountSystem`, `AccountSafety`, `AccountTheorems`, `AccountAnswers`, `AccountRuns`, `AccountStore` | identity snapshots, identity removal, operator deletion and invitation redemption over the same tables |
| `Outbox`, `OutboxSafety`, `OutboxBudget`, `OutboxAnswers`, `OutboxStore` | the transactional email outbox with several workers |
| `Keyset`, `Discovery`, `DiscoveryOrder`, `DeadLetters`, `AdminList` | keyset pagination: order, cursor, predicate, probe |
| `Migrations`, `MigrationRunners`, `MigrationStore` | the migration loader, reconciliation, and interleaved runners |
| `CronGate`, `CronAnswers` | the ownership handoff of scheduled operations |
| `CorrectionReports`, `CapabilityLimit`, `ReportAnswers`, `CorrectionReportStore` | sliding limits, single-use capabilities, deduplication |
| `ZonedTime` | local midnights and weekend windows |
| `JobLog` | the evicting job log |
| `PushPayload`, `WebPush`, `DerSignature` | payload truncation, base64url, signatures |
| `WorkerPool`, `PushDelivery`, `PushAnswers`, `PushSender` | the shared-index worker pool and delivery accounting |
| `NotificationQueue`, `NotificationAnswers`, `NotificationRun` | the debounced queue's marker and a run's counters |

## What the proofs found

Six promises do not hold as stated. The model keeps the code as it is, gives a concrete input for
each, and proves exactly when the promise does hold.

* `docs/CLERK_LIFECYCLE.md` says that `user.deleted` permanently tombstones the Clerk id. An account
  that is staged for deletion while no identity is linked gets no tombstone; an identity that then
  signs in with its address is linked to it, loses the mapping in a deferred cleanup, and a later
  `user.deleted` returns early because the deletion is completed
  (`AccountTheorems.IdentityLeftBehind`). `AccountTheorems.RemoveBuries` shows that the tombstone is
  missing in exactly this situation, and that the account is then already erased. The model follows
  the code.
* Two reports of one content are 15 minutes apart unless a report committed between them has a
  later clock than the second (`CorrectionReports.GapTheorem`): such a report can purge the digest
  first (`CorrectionReports.SkewBreaksGap`). `CorrectionReports.DuplicateTheorem` gives the exact
  condition for a refusal.
* The price cursor conflates a missing price with an infinite one, and its codec refuses the
  infinite one. Paging by price enumerates the matching rows if and only if no page ends with an
  infinite price, nor with a missing price while an infinite one is later by start and id
  (`Discovery.DiscoveryTheorem`). Otherwise the client ends on a refused cursor
  (`Discovery.RefusedCursor`) or gets rows twice (`Discovery.RowServedTwice`).
* `zonedDayStartUtc` cannot return a midnight that the zone skips. With at most one change of offset
  near the target, and an offset now that is one of the two, the result is a local midnight if and
  only if the day has one, that is, if the change does not jump over it (`ZonedTime.ExactTheorem`).
  For the windows between two such starts to tile time the change must not repeat midnight either;
  `ZonedTime.TilingExactly` gives the condition on both midnights, and `ZonedTime.MidnightGap` a
  zone that springs forward at midnight.
* A finished body of a scheduled operation does not always have one history row: its success row is
  inserted inside the `try`, so an insert that fails or is not acknowledged leads to a failure row
  for the same body. It has two rows or none in the runs of `CronGate.TwoRowsOrNone`, and exactly one
  under the condition of `CronGate.HistoryTheorem`.
* `derToRawSignature` returns a DER signature of exactly 64 bytes unchanged, and that is never the
  raw signature (`DerSignature.DerTheorem`, `DerSignature.SixtyFourByteForm`).

## Modelling decisions

* Accounts: addresses are canonical (trimmed, lower-case); `randomUUID()` hands out a UUID no table
  mentions; deleting a row of `auth.users` cascades to profile, access and mapping and fires the two
  triggers of the migrations; `admin_delete_user` refuses administrators and missing rows, and
  otherwise erases the row or fails with a foreign-key error; cleaning a retained account deletes
  its mapping rows, because that table references `auth.users` with a cascade, and writes no
  tombstone. `redeem_invite_for_email` either fails or leaves a claim with some expiry. Since each
  transaction is atomic, the "Identity link changed" conflict cannot occur. The
  `reject_deleted_user_access` trigger is not part of the steps; `AccessTriggerNeverFires` shows
  that it would never fire.
* Outbox: the row's payload, recipients and rendering are one rendered body or a failure to render;
  account deletion may cancel any unsent row. A completion's clock is not behind its claim's.
* Correction capabilities: a transaction's `now()` may lie up to 14 minutes behind that of one that
  committed before it, one minute less than a capability lives.
* Listings: the search filters of one listing are a fixed finite set of rows; cursors are modelled
  as the JSON objects inside the encoded text, with text, UUID and timestamp formats assumed to
  round-trip. NaN and negative infinity prices are not modelled.
* Cron: labels and gate labels of the registered schedules are distinct, as in
  `src/pipeline/families.ts` and `src/pipeline/scheduled-operations.ts`. A job's row state and its
  handler are separate, so a job can expire under its handler; the exclusion theorem assumes that it
  does not, and `EarlyExpiryBreaksExclusion` shows why. A history insert is stored, stored without an
  acknowledgement, or not stored.
* Zones: a zone is any function from instants to offsets; calendar dates are day numbers, so the
  two-digit-year rule of `Date.UTC` is out of scope.
* Push: the answers of providers, the database and the schedule of the workers are arbitrary; one
  send is not aborted. Subscription rows have distinct ids and belong to the users asked for.
* Notification queue: the statements that enqueue and refresh rows are outside the repository, so
  refreshes are arbitrary; a refresh may not repeat the stamp of an entry that some run still holds
  with another change. `NotificationQueue.ClashLosesChange` shows that this is needed.

## Model

| member | source | states |
|---|---|---|
| AccountTheorems.IdentityTheorem | src/auth/clerk-lifecycle.service.ts:63-230 | in every reachable state of interleaved snapshots, removals, operator deletions and redemptions: no account has two identities, no identity is both mapped and tombstoned, and no account named by a tombstone is mapped |
| AccountTheorems.TombstoneIsForever | src/auth/clerk-lifecycle.service.ts:221-226 | a deletion time, once set, is never cleared or changed, and the identity is never mapped again |
| AccountTheorems.RevocationTheorem | src/onboarding/onboarding.service.ts:35-68 | from the moment an account has a deletion record, no later run of any writer enables its access |
| AccountTheorems.AccessTriggerNeverFires | schema/migrations/20261008006000_coordinated_account_deletion.sql:19-33 | whenever access turns on, the account has no deletion record and no tombstone and is mapped, so the rejecting trigger has nothing to reject |
| AccountTheorems.EnablesOnlyCreated | src/auth/clerk-lifecycle.service.ts:128-156 | a snapshot can turn access on only for the account it has just created, which it maps |
| AccountTheorems.DeletionTheorem | src/user-access/account-deletion.service.ts:93-142 | along every run: a record is pending cleanup, deferred or completed if and only if its provider confirmation is set; its token never decreases; completed is absorbing and means that the account is gone |
| AccountTheorems.ClaimsIncrease | src/user-access/account-deletion.service.ts:106-142 | of any two claims of one account in a run, with any steps between them, the later has the greater token |
| AccountTheorems.FenceTheorem | src/user-access/account-deletion.service.ts:217-239 | a worker whose token is superseded at some point of a run is superseded at every later one, and no step it then takes changes any table |
| AccountTheorems.SingleHolder | src/user-access/account-deletion.service.ts:233-239 | no two workers on one account hold the same token, and at most one of them holds the newest |
| AccountTheorems.SnapshotTheorem | src/auth/clerk-lifecycle.service.ts:82-113 | under duplicated, reordered and contradictory webhooks a mapped identity with a lifecycle row shows address and timestamp of one committed snapshot, the last and newest of all that committed for it |
| AccountTheorems.SnapshotsIncrease | src/auth/clerk-lifecycle.service.ts:86-87 | committed snapshots of one identity have strictly increasing timestamps, so of two deliveries with one timestamp only the first commits |
| AccountTheorems.TimestampTheorem | src/auth/clerk-lifecycle.service.ts:86-113 | the timestamp of an identity never decreases along a run |
| AccountTheorems.SnapshotIsAbsorbed | src/auth/clerk-lifecycle.service.ts:82-183 | a snapshot that is not refused leaves its identity deleted, or at its own or a newer timestamp |
| AccountTheorems.RemoveBuries | src/auth/clerk-lifecycle.service.ts:187-243 | in every reachable state a removal leaves no mapping, and leaves a tombstone if and only if the identity was not left behind by an earlier completed deletion that never named it |
| AccountTheorems.SignInDuringDeletion | src/user-access/account-deletion.service.ts:112-157 | concrete run: an account staged without an identity is linked by a sign-in during its deletion |
| AccountTheorems.IdentityLeftBehind | src/auth/clerk-lifecycle.service.ts:207-211 | concrete run: after that deletion completes, user.deleted leaves no tombstone |
| AccountSafety.StepKeeps | src/auth/clerk-lifecycle.service.ts:63-302 | every transaction of every writer keeps the invariant of the account tables and of the deletion workers, and moves no row backwards |
| AccountSafety.RunKeeps | src/user-access/account-deletion.service.ts:203-283 | the same for runs of any length |
| AccountSafety.ApplyBinds | src/auth/clerk-lifecycle.service.ts:86-183 | a snapshot transaction binds exactly its identity to its address and timestamp, or changes nothing |
| AccountSafety.StagedRecord | src/user-access/account-deletion.service.ts:93-142 | a claim is granted only without a running lease, with a token above all earlier ones, and sends its holder where the record stands |
| AccountSafety.CleanUpRecord | src/user-access/account-deletion.service.ts:232-270 | the cleanup transaction touches one record, only for the holder of its token, and leaves it completed, deferred or as it was |
| AccountAnswers.SnapshotReplies | src/auth/clerk-lifecycle.service.ts:78-165 | stale, conflict and applied, each if and only if a condition on tombstone, timestamp, mapping, accounts with the address, their confirmation and their owners holds |
| AccountAnswers.SnapshotBinds | src/auth/clerk-lifecycle.service.ts:86-183 | which account an applied snapshot binds, with which role, address and timestamp, and that no other identity, address or deletion record changes |
| AccountAnswers.InvitationTheorem | src/auth/clerk-lifecycle.service.ts:142-153 | a snapshot turns access on if and only if it created the account and, where invitations are required, the address had an unclaimed invitation that had not expired; a claim row changes exactly on such an invitation, to the created account |
| AccountAnswers.CreatesExactly | src/auth/clerk-lifecycle.service.ts:118-130 | a snapshot creates an account if and only if it is applied to an identity that has none, for an address that has none |
| AccountAnswers.CreatedRows | src/auth/clerk-lifecycle.service.ts:128-165 | the profile, access, invitation and welcome rows of a created account |
| AccountAnswers.ProfilesFollow | src/auth/clerk-lifecycle.service.ts:88-114 | only a mapped account has its profile address changed, to the snapshot's |
| AccountAnswers.StageReplies | src/user-access/account-deletion.service.ts:87-142 | each of the five replies of staging, if and only if a condition on actor, record, lease, account and role holds |
| AccountAnswers.AdministratorIsProtected | src/user-access/account-deletion.service.ts:104-134 | an administrator's account is never claimed, and no refusal changes any table |
| AccountAnswers.FirstStageRows | src/user-access/account-deletion.service.ts:108-174 | every row after a first staging: the buried identity, the access and mail that are cut, and the record with its lease |
| AccountAnswers.ReclaimRows | src/user-access/account-deletion.service.ts:93-107 | a reclaim changes the token and the lease of the record, and nothing else |
| AccountAnswers.CleanUpReplies | src/user-access/account-deletion.service.ts:231-270 | each of the four replies of the cleanup, if and only if a condition on record, token, account, role and the database's answer holds |
| AccountAnswers.CleanUpRows | src/user-access/account-deletion.service.ts:231-270 | the cleanup leaves an erased account and a completed record, an anonymised account and a deferred record, or no change |
| AccountAnswers.DeletedRows | schema/migrations/20261008001000_clerk_lifecycle.sql:1-27 | deleting an auth row removes the account's rows, buries whoever is mapped to it, frees its invitation, and touches nothing of others |
| AccountAnswers.RemovalRows | src/auth/clerk-lifecycle.service.ts:187-302 | user.deleted: nothing once the deletion is completed; otherwise identity, access and mail are cut, the record is reopened under a newer token, and the account is erased, anonymised or left for a retry |
| AccountAnswers.RedeemReplies | src/onboarding/onboarding.service.ts:17-75 | each of the five replies to a redemption, if and only if a condition on mapping, tombstone, access, role, claim and invitation holds |
| AccountAnswers.RedeemRows | src/onboarding/onboarding.service.ts:52-68 | a redemption writes only when it turns access on, on an invitation nobody held, which the account then holds |
| AccountAnswers.FencedRows | src/user-access/account-deletion.service.ts:217-229 | error report and confirmation land only under the record's token, and what they write |
| AccountAnswers.ProviderMoves | src/user-access/account-deletion.service.ts:215-229 | an operator deletion goes on to its cleanup if and only if its confirmation landed and it learned so |
| AccountAnswers.CleanupMoves | src/user-access/account-deletion.service.ts:231-283 | it reports exactly a cleanup that was rolled back or whose end it did not learn |
| AccountAnswers.QueuedMail | schema/migrations/20261008008000_community_event_email.sql:15-40 | decision mail is queued if and only if no deletion record and no tombstone names the account and its key is new |
| AccountRuns.AccessOrigin | src/auth/clerk-lifecycle.service.ts:128-156 | over runs: whoever has access at the end and had none at the start was given it by one event, at a moment when an invitation for it was live or none was required |
| AccountRuns.InvitedTheorem | src/onboarding/onboarding.service.ts:52-68 | over runs with invitations required: everyone with access holds an invitation of their own |
| AccountRuns.AdministratorTheorem | src/user-access/account-deletion.service.ts:104-134 | over runs: no operator deletion is ever under way for an administrator's account, so the provider is never asked to delete one |
| AccountStore.Store.ApplySnapshot | src/auth/clerk-lifecycle.service.ts:63-184 | the whole new tables of a snapshot: refused, updated, created or linked |
| AccountStore.Store.RemoveIdentity | src/auth/clerk-lifecycle.service.ts:187-302 | the whole new tables of a removal, and when it reports a failed cleanup |
| AccountStore.Store.StageDeletion | src/user-access/account-deletion.service.ts:87-174 | the reply and whole new tables of staging: refusals, a reclaim, or a first stage |
| AccountStore.Store.CleanUpAccount | src/user-access/account-deletion.service.ts:231-270 | the reply and whole new tables of the cleanup transaction |
| AccountStore.Store.DeleteAccount | src/user-access/account-deletion.service.ts:203-283 | the whole new tables of an undisturbed deletion; it returns normally if and only if the record is then completed and nobody deletes themselves |
| AccountStore.DeleteAloneTheorem | src/user-access/account-deletion.service.ts:203-283 | the same for the function of the tables: the invariants are kept, no row moves backwards, and the answer tells whether the record is completed |
| AccountStore.Store.RedeemInvite | src/onboarding/onboarding.service.ts:17-75 | the reply and whole new tables of a redemption |
| OutboxSafety.ProviderCallTheorem | src/transactional-email/transactional-email.service.ts:151-259 | across every run all provider calls of one row carry the same stored body, later ones a greater token, and all are claimed less than 23 hours after the first |
| OutboxSafety.StaleCompletionTheorem | src/transactional-email/transactional-email.service.ts:230-259 | once a row was claimed again, the completion of the earlier claim changes nothing |
| OutboxSafety.AbsorbingTheorem | src/transactional-email/transactional-email.service.ts:154-170 | sent and cancelled are final, needs_review can only become cancelled, and none of the three is sent to the provider again |
| OutboxSafety.BackoffBounds | src/transactional-email/transactional-email.service.ts:243-246 | the backoff stays between 30 and 3600 seconds and never decreases with the attempts |
| OutboxSafety.RunKeeps | src/transactional-email/transactional-email.service.ts:147-318 | the invariant behind these, over every run of claims, completions, retries and account deletions |
| OutboxBudget.BudgetTheorem | src/transactional-email/transactional-email.service.ts:155-170 | without operator retries a row is claimed at most 1381 times, and the attempts counter counts exactly its provider calls |
| OutboxBudget.BudgetIsTight | src/transactional-email/transactional-email.service.ts:215-246 | a run that reaches 1381 claims |
| OutboxAnswers.ClaimCalls | src/transactional-email/transactional-email.service.ts:153-228 | a claim calls the provider if and only if the row is due, inside its 23 hours, bound to an active account or to none, the provider is configured and a stored or rendered body exists; the call and the leased row |
| OutboxAnswers.ClaimSkips | src/transactional-email/transactional-email.service.ts:159-214 | the row after every other claim: review, cancellation, a minute's wait, or a failure to render |
| OutboxAnswers.CompletionRows | src/transactional-email/transactional-email.service.ts:230-259 | the row after a completion: only under its token sent, failed for a client error other than 409 and 429, or due again after the backoff |
| OutboxAnswers.BackoffDoubles | src/transactional-email/transactional-email.service.ts:243-246 | the delay doubles from 30 seconds up to an hour |
| OutboxAnswers.RetryRows | src/transactional-email/transactional-email.service.ts:293-318 | the row after an operator's retry |
| OutboxAnswers.DeletionRows | src/user-access/account-deletion.service.ts:158-161 | an account's deletion cancels its mail unless it was sent |
| OutboxAnswers.CallOrigin | src/transactional-email/transactional-email.service.ts:153-228 | over runs: every provider call was made by a claim when everything spoke for it, with the body and token of that moment |
| OutboxAnswers.RecipientTheorem | src/transactional-email/transactional-email.service.ts:172-195 | over runs: every call for mail bound to an account was made by a claim that found the account active |
| OutboxAnswers.RenderedOnce | src/transactional-email/transactional-email.service.ts:196-228 | over runs: all calls of a row carry the message rendered for its first call |
| OutboxStore.Store.PickDue | src/transactional-email/transactional-email.service.ts:154-158 | the first in creation order of the due rows that no other transaction holds; none if and only if every due row is held |
| OutboxStore.Store.ClaimNext | src/transactional-email/transactional-email.service.ts:153-221 | one claim transaction as a step of the state machine; held rows stay as they are, and it finds nothing only if every due row is held |
| OutboxStore.Store.CompleteClaim | src/transactional-email/transactional-email.service.ts:230-259 | the fenced completion |
| OutboxStore.Store.HandleJob | src/transactional-email/transactional-email.service.ts:147-261 | the bounded loop is a run of the state machine with at most ten provider calls |
| OutboxStore.Store.RetryMail | src/transactional-email/transactional-email.service.ts:293-323 | the operator's retry and its refusals |
| Keyset.SuffixAfter | src/data/events.repository.ts:258-266 | the rows strictly after the k-th are the rest of the enumeration |
| Keyset.FollowTheorem | src/consumer/consumer.service.ts:98-149 | if predicate and order agree, following cursors visits every row once, in order, and ends with a null cursor |
| Keyset.FollowIff | src/consumer/consumer.service.ts:98-149 | when each page boundary is answered either rightly or with a refusal or a row seen before, paging enumerates the rows if and only if all boundaries are answered rightly |
| Discovery.PredicateIsOrder | src/data/events.repository.ts:181-190 | for every pair of rows and each sort, the cursor predicate means strictly after the cursor's row in ORDER BY order, unless a price sort meets a NULL and an infinite price whose tie-break disagrees |
| Discovery.CodecRoundTrip | src/consumer/cursor.ts:45-79 | a row's cursor survives the codec if and only if it need not carry an infinite price; then it is refused |
| Discovery.AcceptedIsCanonical | src/consumer/cursor.ts:15-79 | every accepted cursor object is what its decoding encodes to |
| Discovery.OrderIsTotal | src/data/events.repository.ts:181-190 | the ORDER BY distinguishes every two rows with different ids, and is antisymmetric |
| Discovery.AgreesUnlessMisleading | src/data/events.repository.ts:258-266 | order, encoder, decoder and predicate of each sort agree after every row, but for an infinite price and for a missing one with a later infinite one |
| Discovery.DiscoveryTheorem | src/consumer/consumer.service.ts:98-149 | for every candidate set, sort and page size, following next_cursor enumerates the matching rows once in order and ends without a cursor, if and only if no page ends with such a misleading row |
| Discovery.FinitePricesSuffice | src/consumer/consumer.service.ts:98-149 | it always does so when the sort is not by price or all prices are finite |
| Discovery.MisledRequest | src/data/events.repository.ts:181-190 | after a misleading row the next request is refused, or answered first with a row that was served before |
| Discovery.RefusedCursor | src/consumer/cursor.ts:20-24 | a table whose first page ends with an infinite price: its cursor is refused and paging breaks off |
| Discovery.RowServedTwice | src/data/events.repository.ts:181-190 | the same table with larger pages: the cursor of a missing price is accepted, and the second page starts with a row of the first |
| DiscoveryOrder.OrderTheorem | src/data/events.repository.ts:181-190 | of two listed rows the earlier comes first in the fields themselves: start and id up or down, price up with infinity and then NULL last, rating down with NULL as zero and then the number of ratings down |
| DiscoveryOrder.ListingTheorem | src/consumer/consumer.service.ts:98-149 | what a client collects by following next_cursor is every matching event in that order of the fields, and an end, if and only if no page ends with a misleading row |
| DiscoveryOrder.RefusesExactly | src/consumer/cursor.ts:15-60 | a request is refused if and only if its cursor is of another sort, has the wrong keys, or carries an infinite price |
| DiscoveryOrder.PageIsCut | src/consumer/consumer.service.ts:130-148 | a page holds at most the rows asked for, and only a full page carries a cursor, that of its last row |
| DeadLetters.PredicateIsOrder | src/admin/admin-dead-letter.repository.ts:52-75 | the three predicate cases, NULLs in three-valued logic included, mean strictly after the last row |
| DeadLetters.DeadLetterTheorem | src/admin/admin-dead-letter.service.ts:36-46 | following nextCursor visits every dead letter once and ends with null; each finished no earlier than the next, unfinished ones last, and of equals the greater id first |
| DeadLetters.RefusesExactly | src/admin/admin-dead-letter.service.ts:36-46 | a request is refused if and only if its cursor's id is no positive bigint |
| AdminList.PromiseAnswers | src/admin/admin-review.service.ts:47-50 | the clamped RPC's promise in terms of positions of the list |
| AdminList.ListEvents | src/admin/admin-review.service.ts:45-84 | the events asked for, the true total, and a cursor if and only if an event remains, also for the largest page where no probe row fits under the clamp |
| AdminList.PageIsRight | src/admin/admin-review.service.ts:45-84 | the page as a function of the RPC: right events, true total, and a cursor if and only if an event remains, at every position and page size |
| AdminList.AdminListTheorem | src/admin/admin-review.service.ts:45-84 | over any RPC that keeps its promise, following the cursors enumerates the matching events once in order and ends with null, for every page size up to 500 |
| Migrations.SortedFilesSortVersions | scripts/migrations.ts:28-30 | file names sorted by code unit with different versions are sorted by version |
| Migrations.LoadVersions | scripts/migrations.ts:64-70 | the duplicate check accepts exactly the directories whose versions ascend |
| Migrations.Reconcile | scripts/migrations.ts:87-107 | reconciliation succeeds if and only if the ledger is a prefix of the history in version, file name and checksum, and its three errors name what is wrong |
| MigrationRunners.ExactlyOnceTheorem | scripts/migrations.ts:109-142 | with any number of runners, crashes and lost answers, each migration's SQL commits at most once, in version order, and the ledger lists exactly those |
| MigrationRunners.PrefixTheorem | scripts/migrations.ts:87-107 | the ledger is always a prefix of the longest history |
| MigrationRunners.ReturnTheorem | scripts/migrations.ts:119-133 | a runner that returned left its whole history applied and reports exactly what its own transactions executed |
| MigrationRunners.AppliedForGood | scripts/migrations.ts:119-133 | what a returned runner applied stays applied |
| MigrationRunners.ReportsAreDisjoint | scripts/migrations.ts:122-130 | no two runners report the same version |
| MigrationStore.Database.RunOne | scripts/migrations.ts:119-132 | one locked transaction of a migration |
| MigrationStore.Database.ApplyMigrations | scripts/migrations.ts:109-142 | alone on a database it returns if and only if the ledger is a prefix and the missing SQL works; on an error it stops just before the failing migration |
| CronGate.ExclusionTheorem | src/pipeline/cron-gate.service.ts:103-135 | no API body runs while the legacy owner of its operation is enabled, in every run in which jobs stay active under their handlers |
| CronGate.EarlyExpiryBreaksExclusion | src/admin/admin-cron-controls.repository.ts:46-55 | a run that violates exclusion when a job expires under its handler |
| CronGate.OneOwnerTheorem | src/admin/admin-cron-controls.repository.ts:57-72 | after an accepted ownership change the two bits are never on together again |
| CronGate.OwnershipTheorem | src/admin/admin-cron-controls.repository.ts:32-76 | an accepted change sets exactly the two bits to the owner asked for, a refused one changes nothing, and legacy is accepted only without active jobs |
| CronGate.HistoryTheorem | src/pipeline/cron-gate.service.ts:116-135 | in every run with crashes and failing inserts, each body has at most one success and one failure row, each only if its insert committed, and exactly one row if and only if the ends of the inserts say so; a failure row of a body that worked needs an unacknowledged success insert |
| CronGate.HistoryIsGrounded | src/pipeline/cron-gate.service.ts:60-66 | no history row is about a body that never began |
| CronGate.TwoRowsOrNone | src/pipeline/cron-gate.service.ts:117-133 | runs from a state without jobs in which a body that worked ends with two history rows, or with none |
| CronAnswers.ReadsGates | src/pipeline/cron-gate.service.ts:103-115 | a handler goes on to its body if and only if the legacy row says off and the API row does not |
| CronAnswers.DispatchReplies | src/admin/admin-cron-controls.repository.ts:84-97 | each refusal of a dispatch, if and only if a condition on the two gate rows holds |
| CronAnswers.OwnershipReplies | src/admin/admin-cron-controls.repository.ts:32-76 | each refusal of an ownership change, and the two rows of an accepted one with every other row as it was |
| CronAnswers.HandsOver | src/admin/admin-cron-controls.repository.ts:46-72 | the handoff to the legacy service happens if and only if no job of the queue is active |
| CronAnswers.Dispatches | src/admin/admin-cron-controls.repository.ts:78-97 | a dispatch adds an idle job if and only if the API may run and the queue takes it |
| CronAnswers.BodyOrigin | src/pipeline/cron-gate.service.ts:68-115 | over runs: every body that began was let in by a handler of its operation that read the gates when the API might run |
| CronAnswers.LabelTheorem | src/pipeline/cron-gate.service.ts:116-133 | over runs: every history row carries the legacy label of its body's operation, or its own label without one, and a success row is about a body that worked |
| CronGate.CronTables.SetOwnerOf | src/admin/admin-cron-controls.repository.ts:32-76 | the whole new gate table and the refusal |
| CronGate.CronTables.DispatchJob | src/admin/admin-cron-controls.repository.ts:78-97 | dispatch is refused if and only if the family is not installed, legacy is on or the API schedule is off; otherwise a job is enqueued unless the queue answers with no id |
| CronGate.CronTables.RunGated | src/pipeline/cron-gate.service.ts:68-135 | the body runs if and only if the gates allow it; the call throws if and only if it ran and did not both work and have its success row acknowledged; the rows added are those of its inserts |
| CorrectionReports.WindowTheorem | src/consumer/correction-report.service.ts:65-107 | every 15-minute window holds at most 20 reports committed anonymously on an event and at most 5 by a user, in any commit order |
| CorrectionReports.DuplicateTheorem | src/consumer/correction-report.service.ts:110-124 | exactly when an admitted report is refused as already received |
| CorrectionReports.SpacingTheorem | src/consumer/correction-report.service.ts:110-124 | two reports of one content are 15 minutes apart, or a report between them ran 15 minutes ahead of the first |
| CorrectionReports.GapTheorem | src/consumer/correction-report.service.ts:110-124 | two reports of one content are 15 minutes apart if no report committed between them has a later clock than the second |
| CorrectionReports.SkewBreaksGap | src/consumer/correction-report.service.ts:110-124 | three reports that break the gap under skewed clocks |
| CorrectionReports.SingleUseTheorem | src/consumer/correction-report.service.ts:153-167 | every anonymous report spent an issued capability, and no capability admitted two |
| CapabilityLimit.MintTheorem | src/consumer/correction-report.service.ts:26-53 | with clocks that lag by less than 14 minutes behind commits, every one-minute window holds at most 120 minted capabilities, purges and submissions in between included |
| CapabilityLimit.RecentAreCounted | src/consumer/correction-report.service.ts:30-46 | all capabilities minted in the last minute are still stored when the limit is checked |
| ReportAnswers.AnonymousReplies | src/consumer/correction-report.service.ts:56-124 | each reply to an anonymous report, if and only if a condition on event, capability with its expiry, the last 15 minutes, keys and content holds |
| ReportAnswers.UserReplies | src/consumer/correction-report.service.ts:88-124 | each reply to a user's report, if and only if a condition on event, restriction, the last 15 minutes, content and account holds |
| ReportAnswers.AcceptedRows | src/consumer/correction-report.service.ts:80-131 | the rows after an accepted report: the report, its content for 15 minutes, the spent and purged capabilities and the replacement |
| ReportAnswers.MintReplies | src/consumer/correction-report.service.ts:22-54 | when a capability is issued, when the presented one is kept and what refuses, and the capabilities after |
| ReportAnswers.OtherRows | schema/migrations/20260902006000_correction_reports.sql:10-11 | deleting a user takes the name off their reports and nothing else of them |
| ReportAnswers.CapabilityAgeTheorem | src/consumer/correction-report.service.ts:153-167 | over runs: every anonymous report was sent less than 15 minutes after an event of the run issued the capability it spent |
| CorrectionReportStore.Tables.ConsumeCapability | src/consumer/correction-report.service.ts:153-167 | a usable capability is consumed, anything else changes nothing |
| CorrectionReportStore.Tables.SubmitReport | src/consumer/correction-report.service.ts:56-146 | the committed tables of a submission, and no trace of a refused one |
| CorrectionReportStore.Tables.MintCapability | src/consumer/correction-report.service.ts:22-54 | the committed tables of a mint, and when nothing is minted |
| ZonedTime.OffsetAtIsOffset | src/pipeline/zoned-time.ts:55-66 | cutting wall parts and instant to seconds recovers the offset |
| ZonedTime.MidnightTheorem | src/pipeline/zoned-time.ts:72-81 | with at most one change near the target, from one offset to another, whether the result is a local midnight as a condition on the change, the midnight and the offset now |
| ZonedTime.MidnightExists | src/pipeline/zoned-time.ts:72-81 | the day has a local midnight if and only if the change does not jump over it |
| ZonedTime.ExactTheorem | src/pipeline/zoned-time.ts:72-81 | if the offset now is one of the two, the result is a local midnight if and only if the day has one |
| ZonedTime.DayStartDivides | src/pipeline/zoned-time.ts:72-81 | whether all instants before the result are of earlier local days and all later ones are not: if and only if the change neither jumps over midnight nor repeats it, up to the offset now and two boundary cases |
| ZonedTime.DayStartTheorem | src/pipeline/zoned-time.ts:72-81 | if the offset is steady around the midnight for as long as offsets can differ, the result is that midnight |
| ZonedTime.TilingTheorem | src/pipeline/zoned-time.ts:68-81 | consecutive day windows tile time without gap or overlap: an instant is in a window if and only if that is its local day |
| ZonedTime.TilingExactly | src/pipeline/zoned-time.ts:68-81 | with at most one change near each end, the window is exactly its local day if and only if both midnights are clean of their changes |
| ZonedTime.WeekendTheorem | src/pipeline/zoned-time.ts:83-96 | the weekend window holds now if and only if it is Friday to Sunday locally, and it covers the same local days as the SQL range |
| ZonedTime.SqlWeekendIsFridayToSunday | src/data/events.repository.ts:230-241 | the SQL range is the three days from that Friday |
| ZonedTime.MidnightGap | src/pipeline/zoned-time.ts:76-80 | a zone that springs forward at midnight has no such midnight, and the start computed the day before is 23:00 and does not divide the days |
| ZonedTime.AfterMidnightGap | src/pipeline/zoned-time.ts:76-80 | in that zone the start computed after the change does divide the days |
| JobLog.LogTheorem | src/jobs/jobs.service.ts:359-413 | for every sequence of writes: at most 25 events and 24 KiB, kept plus dropped equals writes, kept events in write order |
| JobLog.CompletionTheorem | src/jobs/jobs.service.ts:384-412 | a completion within the cap is admitted as the newest event after dropping the fewest oldest ones |
| JobLog.AdmissionTheorem | src/jobs/jobs.service.ts:364-412 | any other line is kept as the newest event if and only if it is one, fewer than 25 are kept and it fits into 24 KiB; nothing makes way for it |
| JobLog.LosslessTheorem | src/jobs/jobs.service.ts:359-413 | the log loses nothing if and only if every line is an event, there are at most 25, and they fit together; then it holds exactly them |
| JobLog.OutputTheorem | src/jobs/jobs.service.ts:428-457 | the serialized output stays within 32 KiB |
| JobLog.Sink.Evict | src/jobs/jobs.service.ts:392-402 | the eviction loop drops exactly the oldest events that must go, and the byte counter stays the sum |
| JobLog.Sink.Accept | src/jobs/jobs.service.ts:364-412 | one write, with the byte counter equal to the sum of what is kept |
| PushPayload.BoundedPushPayload | src/notifications/push/payload.ts:4-33 | refused if and only if empty texts do not fit; the result fits, is the full payload if that fits, and else has the largest common code-point prefix for every builder that grows |
| PushPayload.WebPayloadGrows | src/notifications/push.service.ts:293-299 | the web payload builder grows with its texts |
| PushPayload.PointTheorem | src/notifications/push/payload.ts:10-11 | every code point is escaped or spelled in UTF-8, in as many bytes as its size says (section 7 of RFC 8259, section 3 of RFC 3629) |
| PushPayload.WebBytesTheorem | src/notifications/push.service.ts:293-299 | the size of a web payload is the length of its JSON text in bytes |
| PushPayload.WebPushText | src/notifications/push/web-push.ts:112-118 | the web payload is refused exactly when its url alone is too long, and otherwise passes the 4096-byte record check (section 2 of RFC 8188) |
| WebPush.RoundTripTheorem | src/notifications/push/web-push.ts:26-39 | decoding an encoding returns every byte string (section 5 of RFC 4648) |
| WebPush.EncodedForm | src/notifications/push/web-push.ts:26-30 | the encoding is the base64 symbols with two replaced and no padding |
| WebPush.EncodingTheorem | src/notifications/push/web-push.ts:26-30 | each character of the encoding is the url-safe form of the standard alphabet's character for its six bits, most significant first (section 4 of RFC 4648) |
| WebPush.SplitJoins | src/notifications/push/web-push.ts:26-39 | regrouping bits into symbols and back loses nothing |
| WebPush.Base64UrlEncode | src/notifications/push/web-push.ts:26-30 | the text decodes to the data, has the exact length, and uses only the url-safe alphabet |
| WebPush.DecodeTheorem | src/notifications/push/web-push.ts:32-39 | which texts of url-safe characters and white space decode, as a condition on their counts, and that the bytes are those of the text without white space |
| WebPush.CanonicalTheorem | src/notifications/push/web-push.ts:26-39 | encoding what was decoded gives the text back if and only if the bits dropped from its last symbol are zero |
| WebPush.Base64UrlDecode | src/notifications/push/web-push.ts:32-39 | the decoded bytes; for url-safe text, when it throws and how many bytes there are |
| DerSignature.DerToRaw | src/notifications/push/web-push.ts:41-56 | for every byte string of any length: 64 bytes as they are, otherwise 64 bytes holding the two integers that the length bytes point at, cut to 32 bytes or right-aligned, as if zeros followed a signature that ends early |
| DerSignature.DerTheorem | src/notifications/push/web-push.ts:41-56 | for every 256-bit r and s the DER form becomes r followed by s if and only if it is not 64 bytes long |
| DerSignature.DerIsNotRaw | src/notifications/push/web-push.ts:42 | a 64-byte DER form never equals the raw signature |
| DerSignature.SixtyFourByteForm | src/notifications/push/web-push.ts:42 | signatures whose DER form has 64 bytes exist |
| WorkerPool.PoolTheorem | src/notifications/push.service.ts:85-99 | for every schedule: no item twice, at most min(items, concurrency) in flight, and every item exactly once when all workers are done |
| WorkerPool.AdvanceKeeps | src/notifications/push.service.ts:92-97 | a worker's step between two awaits keeps the invariant of the shared index |
| WorkerPool.AdvanceShrinks | src/notifications/push.service.ts:92-97 | every schedule ends |
| PushDelivery.ConservationTheorem | src/notifications/push.service.ts:125-203 | requested equals matched plus unmatched plus failed-batch recipients, and sent plus failed plus pruned plus skipped equals the subscriptions found |
| PushDelivery.UniqueTheorem | src/notifications/push.service.ts:81-83 | unique keeps each value once and loses none |
| PushAnswers.DeliveryTheorem | src/notifications/push.service.ts:125-203 | each counter of a send is the number of found subscriptions that came to its end, by credentials, completeness, host, token, the provider's answer and the pruning; the recipients are counted by what the lookups of a thousand users each said |
| PushSender.AnyOrder | src/notifications/push.service.ts:280-341 | outcome counts do not depend on the order of completion |
| PushSender.Sender.ForEachConcurrent | src/notifications/push.service.ts:85-99 | one group through the pool: the same counters whatever worker steps next |
| PushSender.Sender.Record | src/notifications/push.service.ts:415-430 | one subscription's outcome in the counters |
| PushSender.Sender.SendWeb | src/notifications/push.service.ts:166-171 | the web group: skipped, or sent through the pool |
| PushSender.Sender.SendFcm | src/notifications/push.service.ts:344-413 | the mobile group: skipped, failed as a whole, or sent through the pool |
| PushSender.Sender.Prune | src/notifications/push.service.ts:180-194 | expired subscriptions count as pruned, or as failed if the statement fails |
| PushSender.Sender.Send | src/notifications/push.service.ts:125-203 | the counters of a whole send, for every schedule in every batch |
| NotificationQueue.NoLostChangeTheorem | src/notifications/notification-queue.repository.ts:110-126 | with refreshes anywhere, crashes and lost lock sessions, a row marked processed was delivered in exactly its present version, if no refresh repeats the stamp of an entry still held with another change |
| NotificationQueue.MarkTheorem | src/notifications/notification-queue.repository.ts:110-126 | the marker touches a row if and only if its created_at is the listed one and it is unprocessed |
| NotificationQueue.MarkCountTheorem | src/notifications/notification-queue.service.ts:207-214 | the marked count never exceeds the entries, and equals them only if every one was still current |
| NotificationQueue.ClashLosesChange | src/notifications/notification-queue.repository.ts:119-121 | the condition on stamps is needed: in any state in which a run has sent a row, a refresh that repeats its stamp is marked processed undelivered |
| NotificationQueue.RepeatedStampLosesChange | src/notifications/notification-queue.repository.ts:119-121 | such a run from the empty queue, whose last change is never delivered |
| NotificationAnswers.OneListing | src/notifications/notification-queue.repository.ts:51-67 | queue and cutoff determine the listing: the hundred oldest due entries in order |
| NotificationAnswers.DebounceTheorem | src/notifications/notification-queue.service.ts:155-159 | over runs: every entry ever delivered was listed when it was the row's version, unprocessed and older than the cutoff |
| NotificationQueue.ExclusiveTheorem | src/notifications/notification-queue.repository.ts:144-164 | at most one run holds the advisory lock's section while lock sessions last |
| NotificationRun.SendEmails | src/notifications/notification-queue.service.ts:218-246 | each prepared item is counted as sent, failed or skipped by its own outcome |
| NotificationRun.InsertInApp | src/notifications/notification-queue.service.ts:248-275 | every row is sent or failed, in bulk or one by one |
| NotificationRun.BuildGroups | src/notifications/notification-queue.service.ts:281-299 | one group per event and kind of change, each opted-in user once, in order of appearance |
| NotificationRun.GroupUsersDistinct | src/notifications/notification-queue.service.ts:287-298 | a group holds exactly the opted-in users of its key, each once |
| NotificationRun.WantedTheorem | src/notifications/notification-queue.service.ts:177-290 | who is pushed to: the addressees of the entries found who have not opted out |
| NotificationRun.KeysTheorem | src/notifications/notification-queue.service.ts:281-299 | there is exactly one group for each event and kind of change among them |
| NotificationRun.SendPushes | src/notifications/notification-queue.service.ts:301-318 | the push counters gain the opted-out entries and exactly what the sends of the groups add up to, a throwing send being one failed batch |
| NotificationRun.PushConserves | src/notifications/notification-queue.service.ts:301-318 | such counters account for every recipient of every group: matched, unmatched or in a failed batch |
| NotificationRun.ProcessEntries | src/notifications/notification-queue.service.ts:155-216 | the counters of the three channels as numbers of entries by event, addressee, preference and answer; processed and refreshed add up to the entries when marking succeeds, processed being those still in their listed version |

## Left out

- Controllers, DTOs, guards, OpenAPI and the shape checks of request bodies: single-branch plumbing.
- Calls to the identity provider, the mail and push providers, cryptography and signing: steps with an arbitrary outcome.
- SQL functions whose bodies are not part of the repository's TypeScript (`admin_delete_user`, `redeem_invite_for_email`, `events_enriched`, `admin_list_events`): used through the contracts above.
- Operator access toggling through `admin_set_user_access`: its rule is in SQL outside this model, so access is written only by the modelled transactions.
- Audit-log rows, `sent_at`, `provider_id` and the outbox's `last_error`: written, never read by the modelled decisions.
- AccountStore.Store.DeleteAccount: the tables of a deletion that nothing disturbs; it is three transactions between which others may commit, and runs with others in between are the subject of `AccountTheorems`.
- AccountStore.Store.Defer: models the cascading tables by the mapping alone, the only one of them the other transactions read.
- JobLog.OutputTheorem: for at most 2^53 - 1 writes, beyond which the original's counter no longer counts.
- AdminList.ListEvents: the RPC's own SQL is replaced by its contract.
- CorrectionReports.WindowTheorem: report rows leave the table only with their event, which then accepts no reports; deleting events is not a step.
- CapabilityLimit.MintTheorem: assumes that no clock reading lies 14 minutes or more behind an earlier one, so that no purge runs ahead of the minute being counted; replacements stored by submissions are outside the code's limit and are not counted.
- Retry and removal of dead letters, and the list of failed mails: single statements.
- Discovery's text, tag, distance, age and cost filters, and the map listing: the filters are one fixed set of rows.
- The failure ping after a failed operation, the digest test task, which bypasses the cron gate, and legacy ticks still running when ownership changes.
- ZonedTime.TilingExactly: for zones with at most one change near each midnight and offsets that differ by less than eight hours.
- Rendering of emails and pages, keyword classification, geocoding, stock images and log redaction.
