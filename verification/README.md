# Verified model of the multi-device tombstone sync server

A Dafny model of the server that stores encrypted configuration assets for several devices of one
account, with proofs of what its sync protocol guarantees over whole runs. Secondary cores: the
start-up backfill, invite registration, and the in-memory rate limiter.

## How the model is laid out

- `VectorClock`, `Text`, `Wrappers`: clocks and string helpers. A stored clock keeps its spelling (what
  rotation and migration compare) and its content (what comparison, merge and bump use).
- `ServerConfig`, `Transitions`: rows, requests, and the state machine of one locked row. The closures the
  services pass to the repository are imperative methods in `Transitions`, proved equal to the `Decide`
  functions that the properties are about.
- `Database`: the committed tables as a value, and `Next`, the specification of one whole transaction. A step
  carries the revisions it draws; `ValidStep` asks only what the account lock guarantees about them.
- `Evolution`: the invariant `WellFormed` is inductive, and every run `Evolves` its start.
- `Lifecycle`, `Replay`, `RunSafety`, `Sync`, `Collection`, `Departures`: the properties of single requests, of
  repeated requests, of runs, of a pulling client, of tombstone collection, and of rows that leave.
- `Outcomes`, `Provenance`: what every request answers and leaves behind, cause by cause and field by field, stated
  on the two databases and not through the transitions; and over runs, that contents are always ones somebody sent.
- `Isolation`, `LockProtocol`, `SyncSystem`: many transactions in progress at once, drawing from one sequence,
  committing or aborting in any order, reduced to the atomic steps of `Database`; and a client pulling beside them.
- `Scenarios`: whole runs from the empty database that reach what the theorems single out.
- `Selection`, `Store`, `SystemSetting`, `ConfigService`, `CleanupService`, `Snapshot`, `MasterKeyRotation`,
  `CryptoMigration`, `Backfill`: the repository and the services as classes and methods with loops, each tied to
  the specification. `Tables.Interfere` stands for whatever other requests commit between two accesses of a call.
- `Invites`, `RateLimit`: the two self-contained secondary cores.

The main theorems, hardest first: `LockProtocol.InterleavingIsSerial` and `NoCursorGap`;
`ConfigService.Service.Upload` (an upload made of unlocked lookups, a create and a locked update is one atomic
transaction); `SyncSystem.ReplicaStaysInSyncInterleaved`; `Collection.CollectedOnlyAfterEveryDevice` and
`Departures.GoneWasAcknowledged`; `MasterKeyRotation.RotateEncryptedConfigsAndToken` (check-and-write with rollback
refines check-all-then-write-all); `CryptoMigration.MigrationMovesEachOnce`; `Replay.AnsweredWritesAgainIff` and
`AppliedNeverWritesAgain`; `Provenance.BlobWasSent` and `DeletedContentsComeBack`; `Departures.ResetAfterRunIff`; `RunSafety.NoResurrection`;
`CleanupService.Cleaner.PurgeExpired` and `DueRowsDrain`; `Invites.InviteConservation`; `RateLimit.SpanBound`.

## What turned out false, and the exact condition

- **A bump is not always an advance.** Adding one to an int64 entry wraps at 2^63-1, and the clock then falls
  back. `VectorClock.BumpAdvances` and `RunSafety.EveryChangeAdvances`: it advances if and only if the entry is below
  that value. `RunSafety.CleanupFallsBackIff`: the cleaner's clock falls back if and only if it is not;
  `Scenarios.SaturatedCleanupIsReached` is a run that gets there.
- **A delete or a restore answered through its operation id is not at-most-once.** The answer is success without a
  change, and the clock sent with it is not looked at. Some later run lets the same request write again if and only if
  it is `Replay.Repeatable`: a delete whose clock the deleted row does not cover (a restore in between makes the replay
  delete again), or a restore whose clock is above the active row's by at least two in total (a delete fits in between,
  and the replay makes the asset active again). Every other successful request, and every one that took effect, never
  writes again on its row (`Replay.AnsweredWritesAgainIff`, `Replay.AppliedNeverWritesAgain`).
- **A requested reset does not mean a restored backup.** The maximum is read off live rows. A client that had caught up
  is asked to reset if and only if the row that carried its cursor, and every row committed since, are gone
  (`Departures.ResetAfterRunIff`; in one step, `Departures.StepLowersMaxIff`). There are two causes, and a run from the
  empty database for each: the collector removes the newest tombstone, acknowledged by every device
  (`Scenarios.CollectionCausesReset`), or the owner deletes the newest unbound row
  (`Scenarios.LegacyDeleteCausesReset`). Watermarks may exceed the current maximum; they never exceed the highest
  revision committed for the account (`Database.AcksBounded`, part of the invariant).
- **The delete wins over a concurrent upload only when the upload does not cover it.**
  `Lifecycle.DeleteAfterUploadWinsIff` gives the condition.
- **The limiter admits at most 2·max − 1 requests per key in any span shorter than its window**, not 2·max, and
  that many are reached (`RateLimit.BoundIsTight`).
- **The backfill points a revision-0 row at whatever its log ends with.** `Backfill.BackfillIndexesIff` says for
  which rows log and index then agree.

## Model

| member | source | states |
|---|---|---|
| VectorClock.ParseVectorClockJson | internal/service/vector_clock.go:118-130 | accepts a clock exactly when it is JSON with non-blank keys and entries in 0..2^63-1 |
| VectorClock.CompareVectorClock | internal/service/vector_clock.go:77-116 | decides exactly the pointwise order with missing entries as zero |
| VectorClock.RelateConverse | internal/service/vector_clock.go:104-115 | newer and older are converses; equal and conflict are symmetric |
| VectorClock.NewerTransitive | internal/service/vector_clock.go:104-115 | strictly newer composes with at-or-below on either side |
| VectorClock.MergeVectorClocks | internal/service/vector_clock.go:49-68 | the merge loop leaves the entry-wise maximum, or panics on the nil map exactly when it would write to it |
| VectorClock.MergeIsJoin | internal/service/vector_clock.go:49-68 | the merge is the least upper bound, and after a conflict strictly newer than both inputs |
| VectorClock.ConflictMerges | internal/service/vector_clock.go:49-68 | conflicting clocks always merge, into a clock with a positive entry |
| VectorClock.BumpVectorClock | internal/service/vector_clock.go:132-152 | changes the actor's entry to the larger of its wrapped successor and the minimum |
| VectorClock.BumpAdvances | internal/service/vector_clock.go:138-146 | no other entry changes, and the result is strictly newer if and only if the entry was below 2^63-1 |
| Transitions.MutateUpload | internal/service/config_service.go:187-212 | the locked upload closure computes `DecideUpload` |
| Transitions.MutateDelete | internal/service/config_lifecycle_service.go:33-66 | the delete closure computes `DecideDelete`, with its shortcut, merge and recovery window |
| Transitions.MutateRestore | internal/service/config_lifecycle_service.go:97-122 | the restore closure computes `DecideRestore`, which `Outcomes.RestoreDecision` and `Provenance.StepHasEffect` describe field by field |
| Transitions.MutatePurge | internal/service/config_lifecycle_service.go:136-160 | the purge closure computes `DecidePurge` |
| Transitions.MutateCleanup | internal/service/asset_deletion_policy_service.go:177-197 | the cleaner's closure computes `DecideCleanup` |
| ServerConfig.DecisionIsRowStep | internal/service/config_lifecycle_service.go:41-65 | every accepted transition keeps the row's shape and recovery window and advances its clock, except the cleaner on a saturated row |
| ServerConfig.CleanupNeverFails | internal/service/asset_deletion_policy_service.go:182-189 | on a reachable deleted row the bump neither fails to parse nor writes into the nil map |
| Lifecycle.DeleteAccepts | internal/service/config_lifecycle_service.go:33-65 | a delete that is no retry is accepted if and only if the row does not cover its clock, and ends at the join of the two |
| Lifecycle.DeleteWinsInBothOrders | internal/service/config_lifecycle_service.go:41-59 | both orders of an upload and a delete it does not cover end deleted; upload first ends exactly at the join |
| Lifecycle.DeleteAfterUploadWinsIff | internal/service/config_lifecycle_service.go:41-47 | after an accepted upload the delete is accepted if and only if the upload does not cover it |
| Outcomes.UploadIsAnswered | internal/service/config_service.go:187-212 | an upload by asset takes effect if and only if the row is live and its clock strictly newer; then ciphertext, clock and fingerprint are the ones sent and nothing else changes; every refusal has its cause |
| Outcomes.UploadByIdIsAnswered | internal/service/config_service.go:163-249 | the same for an upload by row id, with the refusals for another asset or one already bound, and the binding of a legacy row |
| Outcomes.DeleteIsAnswered | internal/service/config_lifecycle_service.go:33-73 | a delete is refused only below or at the row's clock or when purged; it keeps the ciphertext, ends at the join, and opens the window once |
| Outcomes.RestoreIsAnswered | internal/service/config_lifecycle_service.go:97-130 | a restore takes effect if and only if the row is deleted and the clock strictly newer; it gives back ciphertext, fingerprint and identity unchanged, under exactly the clock sent |
| Outcomes.PurgeIsAnswered | internal/service/config_lifecycle_service.go:136-168 | a purge takes effect if and only if the row is deleted and the clock strictly newer; it erases the ciphertext and closes the window, and keeps who deleted it and when |
| Outcomes.CleanupIsAnswered | internal/service/asset_deletion_policy_service.go:177-203 | the cleaner erases exactly a deleted row whose window has passed, and touches no entry of the clock but its own |
| Provenance.StepHasEffect | internal/repository/server_config_repository.go:143-180 | whatever row any step changes, it belongs to the step's account and changes in exactly the fields that operation writes, to the values it was sent |
| Provenance.StepCreates | internal/repository/server_config_repository.go:87-97 | a row a step creates is live and holds what the upload sent, and nothing else creates rows |
| Provenance.BlobWasSent | internal/service/config_lifecycle_service.go:115-121 | over any run a row's ciphertext is the one it had, or erased, or one sent for this row on the way |
| Provenance.DeletedContentsComeBack | internal/service/config_lifecycle_service.go:93-130 | over any run of deletes and restores a row keeps ciphertext, fingerprint and identity, unless it is uploaded to or its owner rotates or migrates |
| Lifecycle.AcceptedRetryIsKept | internal/service/config_lifecycle_service.go:33-36 | repeating an accepted request at once answers success without a change, and the cleaner finds nothing left to do |
| Lifecycle.ReplayIsInert | internal/service/config_lifecycle_service.go:33-46 | replaying a request that took effect, after any run and at any time, writes nothing on the same row |
| Lifecycle.ReplayedCreateIsInert | internal/service/config_service.go:187-212 | the same for the first upload of an asset |
| Lifecycle.AnsweredByOperationIdReplaysIff | internal/service/config_lifecycle_service.go:34-36 | a delete answered by its operation id can, after one accepted restore, delete again if and only if the row had not caught up with its clock |
| Lifecycle.AnsweredRestoreReplaysIff | internal/service/config_lifecycle_service.go:98-100 | a restore answered by its operation id can, after one accepted delete, restore again if and only if its clock is above the row's by at least two in total |
| Replay.AnsweredWritesAgainIff | internal/service/config_lifecycle_service.go:97-122 | over all runs, a request answered without a change can write again on its row if and only if it is such a delete or restore |
| Replay.AppliedNeverWritesAgain | internal/service/config_lifecycle_service.go:33-66 | over all runs, a request that took effect never writes again on its row |
| Replay.ReplayedUploadByIdIsInert | internal/service/config_service.go:163-184 | an upload by row id that succeeded, also one that bound a legacy row, never writes again, by row id or by asset |
| Evolution.SaveIsLawful | internal/repository/server_config_repository.go:182-200 | saving rows under fresh revisions with one log entry each keeps every invariant and evolves the database |
| Evolution.PlanIsLawful | internal/repository/server_config_repository.go:143-180 | whatever any locked transaction plans to save is a lawful write |
| Evolution.StepIsLawful | internal/repository/server_config_repository.go:143-205 | every step keeps shape, log-index agreement, unique assets and bounded watermarks, and evolves the database |
| Evolution.EvolvesTransitive | internal/repository/server_config_repository.go:182-205 | what runs guarantee composes, because identifiers and revisions are never reused |
| Evolution.RunIsLawful | internal/repository/server_config_repository.go:182-205 | the same over runs of any length |
| Evolution.EveryTransactionCanCommit | internal/repository/server_config_repository.go:182-205 | in every reachable database every admissible transaction has a valid step, so no guarantee holds for want of steps |
| RunSafety.ChangedRowIsWritten | internal/repository/server_config_repository.go:143-180 | a row changes only by a locked transaction of its owner that addressed it and decided so |
| RunSafety.EveryChangeAdvances | internal/service/config_lifecycle_service.go:41-57 | every change strictly advances clock and revision, a rotation keeps the clock, and the cleaner on a saturated row is the only exception |
| RunSafety.ClockNeverDecreases | internal/service/config_lifecycle_service.go:41-57 | over any run no entry of a row's clock decreases, unless a saturated row is cleaned |
| RunSafety.CleanupFallsBackIff | internal/service/vector_clock.go:142-146 | on a due row the cleaner's clock falls below the stored one if and only if the cleaner's entry is 2^63-1 |
| Scenarios.SaturatedCleanupIsReached | internal/service/asset_deletion_policy_service.go:177-197 | a run from the empty database whose last step, a cleanup, makes a clock fall back |
| RunSafety.NoResurrection | internal/service/config_lifecycle_service.go:97-121 | in any run a deleted row is active again only if a restore ran whose clock strictly dominates the tombstone's |
| RunSafety.PurgedIsFrozen | internal/service/config_service.go:165-190 | a purged row keeps every field under every operation until it is collected |
| RunSafety.CiphertextErasedOnlyWhenAllowed | internal/service/asset_deletion_policy_service.go:177-197 | ciphertext is erased only by a purge with a strictly newer clock or by the cleaner at least seven days after the deletion |
| RunSafety.RedeleteKeepsWindow | internal/service/config_lifecycle_service.go:60-64 | no later delete moves the recovery window |
| RunSafety.RevisionsNameRows | internal/repository/server_config_repository.go:182-200 | in every reachable database live revisions are positive and distinct, and the last entry about each row carries its account, asset, state and operation |
| Sync.KnownBoundsOldRows | internal/repository/server_config_repository.go:229-241 | a live row at or below a cursor that was once known is exactly the row that was there then |
| Sync.PageCovers | internal/service/config_sync_service.go:24-56 | everything between the old cursor and the page's cursor is in the page |
| Sync.ReplicaStaysInSync | internal/service/config_sync_service.go:24-56 | at every moment of every interleaving a client that follows cursors and resets mirrors each live row at or below its cursor |
| Sync.LastPageAgrees | internal/service/config_sync_service.go:44-56 | after a page without more, and without a write since, the client agrees on every live row |
| SyncSystem.ReplicaStaysInSyncInterleaved | internal/service/config_sync_service.go:24-56 | the same mirror at every moment of every interleaving of pulls with transactions begun, drawing, committing and aborting |
| SyncSystem.LastPageAgreesInterleaved | internal/service/config_sync_service.go:44-56 | agreement after a last page with transactions still open, as long as none committed since |
| Sync.CheckedAckIsValid | internal/service/config_sync_service.go:58-81 | a watermark checked against an earlier maximum is still bounded when it is stored later |
| Collection.RemovedIsAcknowledgedTombstone | internal/repository/server_config_repository.go:292-334 | a removed row was selected, stayed unchanged over all three statements, and was acknowledged by every device of the second |
| Collection.WatermarkFollowsCommit | internal/repository/server_config_repository.go:250-276 | a watermark at or above a committed revision was given by an acknowledgement after that commit |
| Collection.CommittedBeforeCheck | internal/service/config_sync_service.go:58-81 | and the revision was committed already when that acknowledgement was checked |
| CleanupService.OldTombstonesLeave | internal/repository/server_config_repository.go:292-334 | alone, a run removes every tombstone old enough and acknowledged by every device, unless the old ones exceed the batch limit |
| Collection.CollectedOnlyAfterEveryDevice | internal/repository/server_config_repository.go:292-334 | a tombstone is collected only if the account has a device and every device at the eligibility query acknowledged it after its commit |
| Departures.StepThatRemoves | internal/repository/server_config_repository.go:343-369 | a step that removes a row is a collection of a tombstone or its owner's deletion of an unbound row, and changes no other row |
| Departures.CollectorStepIsCleared | internal/repository/server_config_repository.go:307-333 | what the collector deletes after an eligibility query anywhere earlier in a run was cleared by that query |
| Departures.GoneWasAcknowledged | internal/repository/server_config_repository.go:292-334 | over runs, a row that is gone was deleted unbound by its owner, or was a tombstone every device registered at its clearing had acknowledged after its commit |
| Departures.StepLowersMaxIff | internal/repository/server_config_repository.go:243-248 | in one step the account's maximum falls if and only if the row that carried it left |
| Departures.ResetIff | internal/service/config_sync_service.go:34-42 | a cursor exceeds the maximum if and only if every row with an entry at or above it is gone |
| Departures.ResetAfterRunIff | internal/service/config_sync_service.go:34-42 | a client that had caught up is asked to reset if and only if its cursor's row and every row committed since are gone |
| Scenarios.CollectionCausesReset | internal/repository/server_config_repository.go:292-334 | a run in which collecting an expired tombstone acknowledged by every device makes the next pull a reset |
| Scenarios.LegacyDeleteCausesReset | internal/repository/server_config_repository.go:343-369 | a run in which deleting the newest unbound row does the same |
| Isolation.PlanIsIsolated | internal/repository/server_config_repository.go:143-205 | a transaction that writes would do the same on any database that agrees on its account and open rows |
| Isolation.ExecuteIsForeign | internal/repository/server_config_repository.go:182-205 | what one account's transaction writes is invisible to every other account |
| LockProtocol.CommitIsStep | internal/repository/server_config_repository.go:143-205 | a commit after any interleaving is one valid atomic step on the database it meets |
| LockProtocol.EventKeeps | internal/repository/server_config_repository.go:182-205 | drawn revisions stay above everything committed for the lock holder, and plans that write stay current |
| LockProtocol.InterleavingIsSerial | internal/repository/server_config_repository.go:87-109 | every interleaving of begun, drawing, committing and aborting transactions equals the atomic steps of its commits |
| LockProtocol.NoCursorGap | internal/repository/server_config_repository.go:182-205 | once a revision of an account is visible every later commit for it has a higher one, holes and other accounts notwithstanding |
| LockProtocol.FreeAccountBegins | internal/repository/server_config_repository.go:202-205 | a request about an account nobody has locked can always begin, whoever else has begun |
| LockProtocol.OpenTransactionFinishes | internal/repository/server_config_repository.go:143-180 | an open transaction can always draw its revisions and commit, as one atomic step on the present database, without moving any other |
| LockProtocol.WithoutLockGapOpens | internal/repository/server_config_repository.go:202-205 | why: a run of the same machine that breaks only the lock, in which a row appears below the cursor of a reader that had caught up |
| Selection.Select | internal/repository/server_config_repository.go:229-241 | the ordered, limited query: exactly the first matching rows |
| Selection.SelectionSize | internal/repository/server_config_repository.go:280-290 | such a query returns as many rows as match, up to the limit |
| Store.Tables.MaxRevisionByUserId | internal/repository/server_config_repository.go:243-248 | the highest revision among the account's live rows, or zero |
| Store.Tables.ListChangedByUserId | internal/repository/server_config_repository.go:229-241 | the first rows above the cursor in revision order, and whether any is left out |
| Store.Tables.ListExpiredDeleted | internal/repository/server_config_repository.go:280-290 | the due rows, the longest overdue first, with the default limit for limits out of range |
| Store.Tables.AcknowledgeDevice | internal/repository/server_config_repository.go:250-276 | the device's watermark becomes the larger of the stored and the new one, and nothing else changes |
| Store.Tables.IsAcknowledged | internal/repository/server_config_repository.go:309-324 | true if and only if the account has a device and none of its devices is behind |
| Store.Tables.DeleteAcknowledgedPurgedBefore | internal/repository/server_config_repository.go:292-334 | three statements with interference between them remove exactly the eligible rows still purged; deferred plus eligible equals candidates, deleted is at most eligible |
| Store.Tables.DeleteByIdAndUserId | internal/repository/server_config_repository.go:343-369 | deletes exactly an unbound row of the account, and refuses the rest without a change |
| Store.Tables.AppendConfigChange | internal/repository/server_config_repository.go:182-200 | logs the row under the next number of the sequence and changes only its revision |
| Store.Tables.Create | internal/repository/server_config_repository.go:87-97 | one new row under a fresh identifier and revision, or a refusal without effect |
| Store.Tables.MutateByAssetId | internal/repository/server_config_repository.go:143-180 | executes the specified transaction on what it finds under the lock, and tells whether it wrote |
| Store.OneRowCommit | internal/repository/server_config_repository.go:143-200 | a one-row plan commits as one valid step under any revision above the log |
| SystemSetting.AssetDeletionPolicy.Normalize | internal/model/system_setting.go:206-228 | forces each field into its range, keeps zero tombstone retention, and changes nothing that is in range |
| SystemSetting.GetAssetDeletionPolicy | internal/service/asset_deletion_policy_service.go:73-87 | the policy in force is normalized, and each field is the one the functions below give |
| SystemSetting.RetentionDays | internal/model/system_setting.go:197-212 | ninety days unless stored; a stored value is kept in 7..3650 and otherwise forced to the nearer bound |
| SystemSetting.BatchSize | internal/model/system_setting.go:197-228 | five hundred unless stored; a stored value is kept in 100..5000 and otherwise forced to the nearer bound |
| SystemSetting.TombstoneDays | internal/model/system_setting.go:197-221 | zero unless stored; zero stays zero, and any other value is forced into 365..3650 |
| SystemSetting.CleanupEnabled | internal/model/system_setting.go:197-204 | off if and only if stored as false |
| ConfigService.Normalize | internal/service/config_service.go:93-118 | accepts exactly uploads with an account, ciphertext, a clock that parses and, if present, a valid asset identifier and fingerprint; changes nothing but trimming and case |
| ConfigService.NormalizedIsFixed | internal/service/config_service.go:93-118 | an accepted upload is a fixed point, so sending it again compares equal with what was stored |
| Text.TrimIsExact | internal/service/config_service.go:100-107 | trimming takes all white space off both ends and nothing else |
| ConfigService.Service.Upload | internal/service/config_service.go:72-91 | the whole call amounts to one transaction inside it, whose answer and effect are spelled out; alone, it is that transaction on the database it found, and an account's first upload of an asset succeeds and leaves its row |
| ConfigService.Service.UploadByAsset | internal/service/config_service.go:124-161 | addressed by asset it is exactly one atomic upload; the only other answers, two refusals without effect, mean that inside the call the asset's row existed at one moment and was gone at a later one |
| ConfigService.MomentIsAnswered | internal/service/config_service.go:72-91 | the call's one transaction answers and leaves what `Outcomes` spells out |
| ConfigService.AloneIsAnswered | internal/service/config_service.go:72-91 | alone, the call answers by row id, by asset or as a first upload, on the database it found |
| ConfigService.HolderVanished | internal/service/config_service.go:147-158 | an asset found by one access and not by a later one has had its row physically removed in between |
| ConfigService.Service.AfterLostRace | internal/service/config_service.go:147-158 | the loser of a create race becomes an atomic upload on the winner's row, or repeats its refusal without effect |
| ConfigService.Service.UploadByConfigId | internal/service/config_service.go:163-184 | addressed by row id it executes the specified transaction, with every refusal in the source's order |
| ConfigService.Service.UpdateLegacy | internal/service/config_service.go:221-249 | the unlocked compare-and-save of a legacy row, taken as one step, executes the specified transaction |
| ConfigService.RacingUploadsLeaveOneRow | internal/service/config_service.go:134-161 | while the winner's row exists the loser's create is refused and the asset has exactly one row |
| ConfigService.Service.DeleteAsset | internal/service/config_lifecycle_service.go:23-74 | refuses malformed input, else answers as `DeleteAnswer` spells out, with the policy's recovery window |
| ConfigService.Service.RestoreAsset | internal/service/config_lifecycle_service.go:93-130 | refuses malformed input, else answers as `RestoreAnswer` spells out: the deleted row comes back whole |
| ConfigService.Service.PurgeAsset | internal/service/config_lifecycle_service.go:132-168 | refuses malformed input, else answers as `PurgeAnswer` spells out |
| ConfigService.Service.Delete | internal/service/config_service.go:268-283 | physical deletion of an unbound row, with the refusals mapped for the client |
| ConfigService.Service.PullChanges | internal/service/config_sync_service.go:24-56 | a reset exactly when the cursor exceeds every live revision it read first, else a page of what is listed afterwards; at most the limit, a hundred by default, five hundred at most, and full whenever there is more |
| Sync.PullIsClientSteps | internal/service/config_sync_service.go:24-56 | that answer is exactly the check and the listing of the client protocol the replica theorems are about |
| ConfigService.Service.AcknowledgeSync | internal/service/config_sync_service.go:58-81 | accepts exactly well-formed input at or below the maximum and stores it as a valid acknowledgement |
| CleanupService.CleanupDecision | internal/service/asset_deletion_policy_service.go:177-197 | on a reachable row the cleaner keeps what is not due, purges what is, and fails only for want of an operation id |
| CleanupService.Cleaner.PurgeExpired | internal/service/asset_deletion_policy_service.go:167-207 | purged counts exactly the rows turned from due to purged, failures are disjoint, and a quiet pass changes no other row |
| CleanupService.Cleaner.Cleanup | internal/service/asset_deletion_policy_service.go:151-231 | a stored `false` is reported and stops a system run without a change, anything else lets it run; purge and tombstone counts are exact, zero tombstone retention removes no row, and a quiet pass without failures drains a full batch |
| CleanupService.Cleaner.CollectTombstones | internal/service/asset_deletion_policy_service.go:209-219 | one collection, with deferred plus eligible equal to the candidates and deleted equal to the tombstones removed |
| CleanupService.DueRowsDrain | internal/service/asset_deletion_policy_service.go:167-207 | without failures, at a fixed time, n due rows are gone after ceil(n / limit) passes |
| Snapshot.ListOpen | internal/repository/server_config_repository.go:388-393 | exactly the account's open rows, each once, in id order |
| Snapshot.IndexItems | internal/repository/server_config_repository.go:398-407 | the replacement index exists if and only if every item is usable and no id repeats |
| Snapshot.CountedSnapshot | internal/repository/server_config_repository.go:394-396 | equal length, no duplicate and every open row named make the list the exact snapshot |
| Snapshot.WrittenIsStaged | internal/repository/server_config_repository.go:415-421 | distinct rows saved and logged one after another leave what one write of all of them would |
| Snapshot.StagedCommits | internal/repository/server_config_repository.go:411-423 | such a write of a transaction's whole plan is one valid step of the specification |
| MasterKeyRotation.Authorize | internal/service/master_key_rotation_service.go:72-82 | passes if and only if the account is neither deleted nor banned and the password verifies; a deleted account outranks a banned one, and both outrank the password |
| MasterKeyRotation.ReplaceEach | internal/repository/server_config_repository.go:409-423 | stops at the first row without a match and then leaves rows and log as they were, or replaces and logs every row |
| MasterKeyRotation.CompletedMatches | internal/repository/server_config_repository.go:394-414 | a loop that completes has checked everything the simple form checks |
| MasterKeyRotation.RotateEncryptedConfigsAndToken | internal/repository/server_config_repository.go:373-432 | the interleaved loop refines check-all-then-write-all: one atomic step with a raised token version, or no change and the specified refusal |
| MasterKeyRotation.Rotate | internal/service/master_key_rotation_service.go:45-93 | every refusal with its cause and without a change; otherwise each row is replaced once, the account's version is one higher, and the tokens are minted at that version |
| MasterKeyRotation.MatchesIff | internal/repository/server_config_repository.go:394-414 | the checks pass if and only if the list names every row that is not purged, each once, with the clock it has now |
| MasterKeyRotation.RotationReplacesEachOnce | internal/repository/server_config_repository.go:409-430 | success replaces each open blob once and nothing else, keeps every clock, gives distinct higher revisions and raises the token version by one |
| CryptoMigration.CheckEach | internal/repository/server_config_repository.go:471-479 | stops at the first row whose clock or digest differs, and writes nothing |
| CryptoMigration.ChecksMatch | internal/repository/server_config_repository.go:468-479 | equal length, no duplicate and a match for each row, with stored clocks never empty, make the list the exact snapshot |
| CryptoMigration.MigrateEncryptedConfigsToV2 | internal/repository/server_config_repository.go:437-493 | one atomic step on an exact snapshot, or no change and the specified refusal |
| CryptoMigration.Validate | internal/service/config_crypto_migration_service.go:41-64 | accepts exactly non-empty lists of distinct OTC2 items whose clock strictly advances |
| CryptoMigration.MigrateToV2 | internal/service/config_crypto_migration_service.go:40-78 | every refusal with its cause and without a change; otherwise every row that is not purged is moved once, and nothing else changes |
| CryptoMigration.MigrationMovesEachOnce | internal/repository/server_config_repository.go:480-491 | success means a bijection with the open rows, each now OTC2 under a strictly newer clock and a fresh revision, and nothing else changed |
| Backfill.MigrateDatabase | internal/config/migrate.go:41-79 | refuses duplicate assets without a change, else inserts the missing entries and indexes revision-0 rows |
| Backfill.BackfillIndexesIff | internal/config/migrate.go:51-74 | log and index agree on a row afterwards if and only if they did before or the row was at revision 0 with no log or one that ends with the row |
| Backfill.BackfillEstablishesInvariant | internal/config/migrate.go:41-74 | from any mix of indexed rows and rows without history the running system's whole invariant holds afterwards |
| Backfill.BackfillIsIdempotent | internal/config/migrate.go:51-74 | a second start-up changes nothing, whatever the first one found |
| Invites.StepKeepsBalance | internal/repository/registration_invite_repository.go:70-97 | every step of every registration, revocation or failure keeps use counts equal to outstanding uses and within the maximum |
| Invites.InviteConservation | internal/repository/registration_invite_repository.go:70-97 | accounts made with a code, reservations in flight and failed releases add up to its use count, at most its maximum |
| Invites.ReleaseIsNeverBlocked | internal/repository/registration_invite_repository.go:92-97 | a registration that gives back its own use always passes the guard |
| Invites.NoCodeIsOverused | internal/model/registration_invite.go:29-31 | over any run no code yields more accounts than it was issued for |
| Invites.RevokedStaysRevoked | internal/repository/registration_invite_repository.go:52-68 | a revoked code is never consumed again and keeps its first revocation time |
| Invites.ExpiredStaysExpired | internal/model/registration_invite.go:29-31 | a code whose attempts all come after its expiry gains no use, and its expiry never moves |
| Invites.StatementsWrite | internal/repository/registration_invite_repository.go:70-97 | a consumption adds one use and its time, a release takes one use and clears the time, and neither touches another code |
| Invites.Registry.Issue | internal/service/registration_invite_service.go:49-78 | issues an unused code with a limit of 1..1000 uses and an expiry 1..365 days ahead, and refuses anything else |
| Invites.Registry.Consume | internal/service/registration_invite_service.go:100-110 | takes one use exactly when the trimmed code names an available invite |
| Invites.Registry.Release | internal/service/registration_invite_service.go:112-118 | gives back exactly one use, or leaves the reservation stuck when the database fails |
| Invites.Registry.Register | internal/service/auth_service.go:59-110 | a failed check, a taken name, a missing code and an unusable code each give their own refusal and make no account; a failed insertion gives its reservation back, stuck only when the release failed |
| Invites.AloneIsRegistered | internal/service/auth_service.go:84-109 | alone, a registration past its checks makes its account, and takes one use of its code, if and only if the code is usable and the insertion does not fail |
| RateLimit.Limiter.PruneExpired | internal/middleware/rate_limit.go:59-65 | removes exactly the expired buckets |
| RateLimit.Limiter.Allow | internal/middleware/rate_limit.go:32-56 | answers every request exactly as a limiter that never prunes |
| RateLimit.SpanCount | internal/middleware/rate_limit.go:41-47 | in a span shorter than the window at most one new bucket is opened, and the admitted requests are accounted for |
| RateLimit.SpanBound | internal/middleware/rate_limit.go:41-47 | such a span admits at most 2·max − 1 requests of a client |
| RateLimit.BoundIsTight | internal/middleware/rate_limit.go:41-47 | for every max and every window above one nanosecond some span of a nanosecond admits exactly that many |
| RateLimit.OthersDoNotMatter | internal/middleware/rate_limit.go:34-46 | a client's bucket depends on its own requests only |
| RateLimit.QuietWindowAdmits | internal/middleware/rate_limit.go:41-47 | after a whole window without requests a client's next one is admitted |

## Left out

- HTTP controllers, routing, JSON binding, the admin console, timers, logging and audit records: no state the properties depend on.
- The JSON text of clocks: a clock is its spelling and its parsed content, and a merged or bumped clock gets a fixed canonical spelling. Non-canonical numbers and duplicate keys are whatever the content says.
- SHA-256, Argon2id, AES-GCM, JWT signing and random identifiers: function parameters, or values drawn nondeterministically.
- PostgreSQL and GORM: row locks, atomic commit and rollback, sequences and the unique index are the primitives of the model. A database error is modelled only where the source handles it (the cleaner, registration, release).
- ConfigService.Service.UpdateLegacy: does not model interference between the unlocked read and the whole-row save of a legacy row, because the source takes no lock there; that read, check and save are one step.
- ConfigService.Service.UploadByConfigId: for a legacy row the lookups by row id and by asset are taken in the same moment as the save, for the same reason; a row already bound to an asset is rechecked under the lock, with interference allowed after the lookup.
- ConfigService.Service.Delete: takes its time argument only to name the specified transaction; no field depends on it.
- Sync.LastPageAgrees: speaks of live rows only; a client's copy of a row that has since been physically removed is not withdrawn by any page.
- LockProtocol.InterleavingIsSerial: a transaction reads once, after it has its lock; refusals take effect at that read, writes at the commit. Concurrent whole-row saves of a user record outside a lock are not modelled.
- RateLimit.SpanBound: request times must not decrease in the order in which the mutex is taken; the source reads the clock before it locks.
- Invites.Registry.Register: the checks of policy, address and password are one parameter, and a failed insertion is assumed to have inserted nothing.
- Invites.Registry.Issue: the random code is a parameter, and its prefix, note, author and audit record are not kept.
- Closures are defunctionalised: `MutateByAssetId` takes a request instead of a function, and `Transitions.Mutate` dispatches on it.
- Device platform, client version and last-seen columns, trash paging, identity fingerprint search, counting, and the full pull of legacy clients: easy members or queries.
- Rows whose state column is NULL or empty, and the canonicalisation of user names, in the start-up migration.
- Lengths of strings are counted in characters, and only ASCII letters are lowered; the source counts bytes.
- Timestamp precision of the database, and durations beyond the range of a Go `time.Duration`.
- Account administration, security, recovery and audit policies, and the migration bundle's export and restore: after a restore the guarantees start again from the restored database.
