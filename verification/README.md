# Secrets broker: verified models of its stateful protocols

The broker daemon keeps an encrypted store of secrets and runs several protocols on it. This
project models them in Dafny and proves what they promise over every input and every run:

- **Recovery shares** (`bytes`, `gf256`, `carryless`, `polynomial`, `recovery_shares`): splitting a
  secret over the field of section 4.2 of FIPS 197 and combining shares again.
- **Master-key rotation** (`vault`, `atomic_file`, `key_rotation`): re-encryption of the whole store,
  publication with a pending key wrapper, and recovery after a crash between any two disk writes.
- **Audit log** (`audit_text`, `audit_chain`): field scrubbing, record normalisation and the hash chain.
- **Migration** (`text`, `migration`, `migration_run`, `migration_service`, `campaign_run`,
  `campaign_service`): resumable write/verify operations and bulk campaigns on top of them.
- **The local store** (`kv_store`, `version_order`, `rotation_ledger`, `local_store`,
  `local_backend`): KV histories, rotation versions, tombstones and plain writes in one store.
- **Grants, lockout, leases** (`ram_files`, `lockout`, `lease_replay`).

Code that changes state step by step is a method or a class; its contract ties it to a function on
values, and the run theorems are about those functions. Encryption and hashing are constructors of
datatypes, so that decryption undoes encryption and digests are injective by construction. Clocks,
randomness, file outcomes and the answers of providers are parameters, and every theorem holds for
all of them. A save has three outcomes: not published, published with an error, and saved.

Where the code surprises a reader:

- `scrubAuditField` is not idempotent, because its truncation branch skips the collapsing of blanks;
  the chain is sound because two passes always settle (`OnePassSettlesIff`, `NormalizeTwiceSettles`).
- An event that carried a hash of its own, written while the chain is off, would break the log for
  good (`EveryRunVerifiesIff`, `PresetHashBreaksTheLog`). Only the function can receive such an
  event: no caller in the broker sets a hash field, so what holds of the broker is `EveryRunVerifies`.
- An operation ID with a changed plan can run: the fingerprint joins the refs with line breaks, and a
  ref that contains one is refused as an item only after the operation is on record
  (`LineBreakHidesAChange`); without line breaks it runs nothing (`ChangedPlanRunsNothing`).
- KV version 1 reads the current plaintext once it has left the window (`EvictedIsNotFoundIff`), even
  if the current version is deleted (`NothingReadsIff`, `DeletedButReadable`).
- A default rollback does not undo an activation if the activated ID was the active one, or if the
  rollback repeats the operation that last rolled back to that ID (`RollbackUndoesActivateIff`,
  `ActiveIdStagedAgain`, `OperationRollsBackAgain`); conservation needs IDs that are never reused.
- A migration item whose last save was lost is reported, and kept by a campaign, as migrated and
  verified while the ledger records only its write (`MigratedButNotOnRecord`,
  `CompletedIsOnRecordIff`, `CompletedButNotOnRecord`).
- A campaign item that was refused with an item result (target not ready, no executor, no audit
  before the execution, changed plan), met a locked broker, was no longer ready, lost its source, or
  failed its closing audit is not retried before the campaign is revalidated
  (`VisitLeavesInPlayIff`, `PassLeavesInPlayIff`, `RefusalLeavesBehind`, `AuditFailureLeavesBehind`).
- Retry-after seconds are rounded down, so waiting that long can come up to a second too early
  (`Decide`).
- The branches at kv_v2.go:599-613, lockout.go:81-83 and the zero-denominator check at
  recovery_shares.go:441-454 cannot be reached.

`dafny verify dfyconfig.toml` checks everything.

## Model

| member | source | states |
|---|---|---|
| `GF256.GfMul` | cmd/secretsbroker/recovery_shares.go:687-701 | The shift-and-reduce loop over machine bytes computes the field product `Mul`, defined by recursion on one factor. |
| `Carryless.MulIsTheRemainder` | cmd/secretsbroker/recovery_shares.go:687-701 | A byte equals `Mul(a, b)` if and only if it is a remainder of the carry-less polynomial product of a and b modulo x^8+x^4+x^3+x+1 (0x11b); the product and the multiple are defined without the loop or its 0x1b. |
| `Carryless.RemainderIsUnique` | cmd/secretsbroker/recovery_shares.go:687-701 | No two different bytes are remainders of one polynomial modulo 0x11b. |
| `GF256.MulComm` | cmd/secretsbroker/recovery_shares.go:687-701 | Field multiplication is commutative, for all bytes. |
| `GF256.MulAssoc` | cmd/secretsbroker/recovery_shares.go:687-701 | Field multiplication is associative, for all bytes. |
| `GF256.MulXorLeft` | cmd/secretsbroker/recovery_shares.go:687-701 | It distributes over xor on the left. |
| `GF256.MulXorRight` | cmd/secretsbroker/recovery_shares.go:687-701 | It distributes over xor on the right. |
| `GF256.EightSquaringsFixAll` | cmd/secretsbroker/recovery_shares.go:710-725 | Squaring eight times is the identity: every element satisfies a^256 = a. |
| `GF256.MulInverse` | cmd/secretsbroker/recovery_shares.go:710-725 | a times a^254 is one, for every nonzero a. |
| `GF256.GfInv` | cmd/secretsbroker/recovery_shares.go:710-725 | The square-and-multiply loop returns a^254; with it a times the result is one for every nonzero a, and zero gives zero. |
| `GF256.GfDiv` | cmd/secretsbroker/recovery_shares.go:703-708 | Division as coded, including zero when either operand is zero. |
| `GF256.QuotientUndoesMul` | cmd/secretsbroker/recovery_shares.go:703-708 | The quotient by a nonzero byte undoes multiplication by it. |
| `GF256.MulCancel` | cmd/secretsbroker/recovery_shares.go:703-725 | A product is zero only if a factor is zero. |
| `Polynomial.VanishingRatio` | cmd/secretsbroker/recovery_shares.go:441-454 | Dividing factor by factor, as the interpolation loop does, gives the ratio of two values of the vanishing polynomial. |
| `Polynomial.InterpolationIsExact` | cmd/secretsbroker/recovery_shares.go:439-458 | Interpolating at zero through n distinct points returns the constant term of every polynomial with at most n coefficients. |
| `Polynomial.TooManyRoots` | cmd/secretsbroker/recovery_shares.go:388-460 | A polynomial with as many distinct roots as coefficients is zero. |
| `Polynomial.FitMeetsValues` | cmd/secretsbroker/recovery_shares.go:388-418 | Through any n distinct points with any values there is a polynomial with n coefficients. |
| `RecoveryShares.HornerLoop` | cmd/secretsbroker/recovery_shares.go:404-414 | The loop from the highest coefficient down evaluates the polynomial. |
| `RecoveryShares.SplitSecret` | cmd/secretsbroker/recovery_shares.go:388-418 | The nested loops fill every share with the polynomial values at its index; refused exactly for a threshold below one or above the count, a count above 255 or an empty secret, or when entropy fails. |
| `RecoveryShares.FillColumn` | cmd/secretsbroker/recovery_shares.go:404-414 | One byte of every share is the polynomial's value at its index, and the bytes filled before stay. |
| `RecoveryShares.WeightLoop` | cmd/secretsbroker/recovery_shares.go:441-454 | The inner loop computes the Lagrange weight at zero; the zero-denominator check never fires on distinct indexes. |
| `RecoveryShares.InterpolateLoop` | cmd/secretsbroker/recovery_shares.go:439-458 | One byte of the secret is the interpolation at zero of the shares' bytes. |
| `RecoveryShares.CombineSecret` | cmd/secretsbroker/recovery_shares.go:420-460 | Every malformed set is refused with the error of the code, every well-formed one combined. |
| `RecoveryShares.CombineUndoesSplit` | cmd/secretsbroker/recovery_shares.go:388-460 | For every secret, threshold and coefficients: any t or more shares with distinct indexes, in any order, combine to exactly the secret. |
| `RecoveryShares.SplitThenCombine` | cmd/secretsbroker/recovery_shares.go:388-460 | The two methods in a row return the secret, for any policy and any choice of t different shares in any order. |
| `RecoveryShares.FewerSharesFixNothing` | cmd/secretsbroker/recovery_shares.go:388-418 | For t-1 shares with any contents and any candidate secret, exactly one choice of coefficients explains those shares: fewer than t shares fix nothing. |
| `RecoveryShares.TailExists` | cmd/secretsbroker/recovery_shares.go:404-414 | For each byte such coefficients exist. |
| `RecoveryShares.TailUnique` | cmd/secretsbroker/recovery_shares.go:404-414 | For each byte they are unique. |
| `RecoveryShares.ImportShares` | cmd/secretsbroker/recovery_shares.go:462-497 | The consistency check of a set of share files, then the first t shares are combined; every refusal has its condition, and an accepted set agrees in policy, key, key version, threshold and count, with distinct indexes in range. |
| `RecoveryShares.ImportRecoversSecret` | cmd/secretsbroker/recovery_shares.go:289-341 | A consistent set of at least t genuine files gives back the secret, whichever t come first. |
| `AtomicFile.ReplaceRetrying` | cmd/secretsbroker/atomic_file.go:17-27 | At most five attempts, only transient denials are retried, and the waits add up to 0, 10, 30, 70 or 150 ms. |
| `AtomicFile.Destination.WriteAtomically` | cmd/secretsbroker/atomic_file.go:45-84 | The destination changes exactly when the result says it was published, and that happens exactly when preparation and one of five attempts succeed. |
| `Vault.RekeyStore` | cmd/secretsbroker/backup_restore.go:268-288 | The loops over secrets, KV histories, tombstones, staged and retained versions give the re-encrypted store, or nothing if any one payload does not open. |
| `Vault.RekeyOneEntry` | cmd/secretsbroker/backup_restore.go:315-334 | One entry with its KV history is re-encrypted in place, or nothing. |
| `Vault.RekeyPreservesMeaning` | cmd/secretsbroker/backup_restore.go:249-361 | Every payload of the new store opens under the new key to its old plaintext: the decrypted view is the same. |
| `KeyRotation.ManagedBroker.RecoverKey` | cmd/secretsbroker/key_wrapper_provider.go:122-173 | Start-up recovery step by step is the recovery function, for every outcome of its file operations. |
| `KeyRotation.RecoverWorks` | cmd/secretsbroker/key_wrapper_provider.go:122-173 | From a recoverable disk recovery keeps the store and, unless a file operation fails, returns the store's key from a live wrapper with no pending one. |
| `KeyRotation.RecoverIff` | cmd/secretsbroker/key_wrapper_provider.go:122-173 | On any disk, recovery succeeds if and only if the live wrapper holds the store's key and no pending one had to be removed in vain, or the pending one holds it and could be promoted; it never returns another key than the store's. |
| `KeyRotation.ManagedBroker.RotateAndSave` | cmd/secretsbroker/backup_restore.go:249-305 | Nothing is published if a payload does not open; the live key moves exactly when the store is published. |
| `KeyRotation.ManagedBroker.RotateManaged` | cmd/secretsbroker/lifecycle_management.go:328-393 | "Applied" if and only if recovery succeeds, the operation is new, the expected key ID is the store's, and authorisation, random source, every file step, the save and the closing audit work; "already applied" if and only if a rotation receipt of the operation with the same expected key ID exists and its audit works; the store is rotated if and only if it gets as far as a publication, with that receipt added; a stale expected key changes nothing. Every return leaves the broker where some path of the step system leads, with the same decrypted store. |
| `KeyRotation.ManagedBroker.Commit` | cmd/secretsbroker/lifecycle_management.go:366-392 | The second half: applied exactly when every step works, published exactly when the pending wrapper and the save allow it, and an audit failure after promotion leaves the rotation in place. |
| `KeyRotation.StepKeepsInv` | cmd/secretsbroker/lifecycle_management.go:328-393 | Every protocol step, crash, recovery and ordinary store operation keeps the invariant. |
| `KeyRotation.CrashAnywhereThenRecover` | cmd/secretsbroker/lifecycle_management.go:328-393 | After any run of rotations, crashes, recoveries, file errors and store operations, recovery returns a key that opens every payload, and no operation rotated the store twice. |
| `KeyRotation.RunPreservesMeaning` | cmd/secretsbroker/lifecycle_management.go:328-393 | Rotations and recoveries alone never change what the store says, wherever they stop. |
| `AuditText.ScrubTwiceIsClean` | cmd/secretsbroker/local_store.go:1098-1114 | Two passes of the scrubber leave a clean field within the limit. |
| `AuditText.ScrubSettles` | cmd/secretsbroker/local_store.go:1098-1114 | A third pass changes nothing, for every ASCII field. |
| `AuditText.OnePassSettlesIff` | cmd/secretsbroker/local_store.go:1098-1114 | One pass is enough if and only if the trimmed text fits the limit or its cut is already clean. |
| `AuditText.OnePassIsNotEnough` | cmd/secretsbroker/local_store.go:1098-1114 | There is a field that one pass does not settle: the truncation skips the collapsing of blanks. |
| `AuditText.ScrubIsTidied` | cmd/secretsbroker/local_store.go:1098-1114 | For every text that fits, scrubbing equals a one-pass form: runs of blanks, tabs and line breaks between visible characters become one blank, and control characters vanish. |
| `AuditText.CutAt256` | cmd/secretsbroker/local_store.go:1098-1114 | Visible text is kept up to 256 characters and cut there. |
| `AuditText.ScrubKeepsMarks` | cmd/secretsbroker/local_store.go:1098-1114 | No visible character is lost, added or moved, except by the cut. |
| `AuditChain.NormalizeTwiceSettles` | cmd/secretsbroker/local_store.go:1057-1096 | Normalising a record twice reaches a fixed point, with all defaults, actor kinds and provider names. |
| `AuditChain.PreparedVerifies` | cmd/secretsbroker/audit_chain.go:32-37 | A prepared record, read back through normalisation, carries the right link and its own digest. |
| `AuditChain.VerifyAuditChain` | cmd/secretsbroker/audit_chain.go:98-141 | The loop's counters, running hash and annotated events are those of the recursive specification. |
| `AuditChain.AuditLog.WriteAuditEvent` | cmd/secretsbroker/local_store.go:1012-1055 | The log grows by exactly one record or is left alone when the append is refused; the record of an ordinary event says what the event said. |
| `AuditChain.RecordSays` | cmd/secretsbroker/local_store.go:1057-1130 | Field by field, for every event with clean fields: what it said is kept; an empty actor kind becomes "system", "operator" or "service" exactly by the service ID; a ref without a hash gets the digest of that ref; empty operation, outcome, reason and status become "unknown", "degraded", the outcome and "audit_recorded"; a provider operation without a provider names its ref. |
| `AuditChain.BreaksAreCounted` | cmd/secretsbroker/audit_chain.go:98-141 | After a broken record the next one verifies if and only if it links to the hash the broken one carries, and after the start of the chain a record without a hash is always a break. |
| `AuditChain.AppendKeepsIntactIff` | cmd/secretsbroker/local_store.go:1012-1055 | No append to an intact log is refused, and the log stays intact if and only if the append is chained (by the option, or because the chain has started) or the event reads back without links or as a proper first link. |
| `AuditChain.EveryRunVerifiesIff` | cmd/secretsbroker/audit_chain.go:32-141 | A run of writes, for any events and any setting at each write, verifies with zero failures in the shape unchecked* verified* if and only if every write was chained or its event passes unchained; otherwise the log has failures. |
| `AuditChain.PresetHashBreaksTheLog` | cmd/secretsbroker/local_store.go:1012-1055 | The failing input: an event that carries a hash of its own, written while the chain is off, leaves a log that fails and refuses every later event. |
| `AuditChain.EveryRunVerifies` | cmd/secretsbroker/audit_chain.go:32-141 | Corollary: with events whose hash fields are empty every run verifies, with the option on or off at each write. |
| `AuditChain.VerifyLogShape` | cmd/secretsbroker/audit_chain.go:98-141 | Any log without failures has that shape and its tip as last hash. |
| `AuditChain.SameTipSameChain` | cmd/secretsbroker/audit_chain.go:89-141 | Two logs that verify and end in one hash have the same chained part, whatever their lengths. |
| `Migration.EffectKeepsTruth` | cmd/secretsbroker/provider_operation_executor.go:242-255 | A call or a save keeps every record borne out by the calls made. |
| `Migration.RecordedIsFinal` | cmd/secretsbroker/provider_operation_executor.go:111-240 | Over any trail of effects: once recorded as written an item's target is never written again, once verified no call is made for it. |
| `Migration.PlanIsFixed` | cmd/secretsbroker/provider_operation_executor.go:111-240 | Every later call of a recorded operation carries the recorded fingerprint, source and target, and one idempotency key per item. |
| `Migration.VerifiedImpliesWritten` | cmd/secretsbroker/provider_operation_executor.go:111-240 | At every point verified implies written, and written implies that an applied write call was made. |
| `Migration.ReachableIsTidy` | cmd/secretsbroker/provider_operation_executor.go:111-240 | In every ledger that any executions, crashes and restarts can leave, a verified item is written and reported as migrated. |
| `Migration.FingerprintTellsPlans` | cmd/secretsbroker/provider_operation_executor.go:273-277 | For plans without line breaks and empty refs, two fingerprints (digests of the joined text over the sorted refs) are equal if and only if source, target and refs are the same, whatever the order of the refs. |
| `Migration.BlankIsLocal` | cmd/secretsbroker/provider_operation_executor.go:273-277 | A plan without a source is a plan for the local source. |
| `Migration.FingerprintsCollide` | cmd/secretsbroker/provider_operation_executor.go:273-277 | The failing input: one ref that contains a line break has the fingerprint of two refs. |
| `Migration.KeysTellItems` | cmd/secretsbroker/provider_operation_executor.go:279-281 | The text behind an idempotency key determines operation, target and ref, if target and ref have no line breaks, as those that reach a call have not. |
| `MigrationService.Service.MigrateItem` | cmd/secretsbroker/provider_operation_executor.go:160-219 | One item's turn: statuses, calls and what reached the disk for every answer and every save result, as effects of a trail. |
| `MigrationRun.RefusedWriteIsRecorded` | cmd/secretsbroker/provider_operation_executor.go:178-193 | A write that was not applied is reported and recorded with the target's code where it is one of six, otherwise as degraded, with one more attempt and not as written. |
| `MigrationRun.UnsavedWriteStops` | cmd/secretsbroker/provider_operation_executor.go:194-201 | A write that was applied but not recorded with success is not verified and is reported as still ready. |
| `MigrationRun.VerificationIsRecorded` | cmd/secretsbroker/provider_operation_executor.go:203-218 | A verification is reported and recorded as migrated if confirmed, with the target's code where it is one of five, otherwise as failed. |
| `MigrationRun.NoCallWithoutNeed` | cmd/secretsbroker/provider_operation_executor.go:160-176 | No call for an item that is not ready, is verified or has no readable source, and what is reported then. |
| `MigrationService.Service.MigrateItems` | cmd/secretsbroker/provider_operation_executor.go:160-219 | The loop over the items: exactly the turns of the specification up to the first save that fails, the rest left as planned. |
| `MigrationService.Service.ExecuteMigration` | cmd/secretsbroker/provider_operation_executor.go:111-240 | The whole execution refines `Execute` and only extends the trail; "applied" means every ref is on record as written and verified; unhindered, it completes if and only if the recorded fingerprint is the plan's; for plans without line breaks a changed plan, and only that, is a conflict, which makes no call and saves nothing. |
| `MigrationService.Service.Persist` | cmd/secretsbroker/provider_operation_executor.go:242-255 | A record is saved only if the calls bear it out; the disk changes exactly when the save is published. |
| `MigrationService.Service.Restarted` | cmd/secretsbroker/provider_operation_executor.go:111-160 | A restart after a crash between any two effects is again a valid service. |
| `MigrationRun.ExecuteGrows` | cmd/secretsbroker/provider_operation_executor.go:111-240 | No execution, however it ends, undoes a record or touches another operation. |
| `MigrationRun.ExecuteKeepsTidy` | cmd/secretsbroker/provider_operation_executor.go:111-240 | Every execution, whatever the answers and saves, leaves every record tidy. |
| `MigrationRun.ExecuteKeepsPlans` | cmd/secretsbroker/provider_operation_executor.go:111-240 | A recorded plan is never changed, and a new record carries the plan that made it. |
| `MigrationRun.AppliedIsOnRecord` | cmd/secretsbroker/provider_operation_executor.go:221-239 | From every reachable ledger, "applied" means that every ref of the plan is on record as written and verified under this plan. |
| `MigrationRun.OutcomeIsOnRecord` | cmd/secretsbroker/provider_operation_executor.go:221-239 | A finished execution has its outcome on record, "applied" if and only if every item was migrated and verified; it fails to finish only for a changed fingerprint or a save that failed. |
| `MigrationRun.ResumeCompletesIff` | cmd/secretsbroker/provider_operation_executor.go:111-240 | From every reachable ledger, an unhindered execution completes if and only if the operation is new or its recorded fingerprint is the plan's. |
| `MigrationRun.ChangedPlanIff` | cmd/secretsbroker/provider_operation_executor.go:124-139 | An operation on record by one plan and asked for with another, both without line breaks, is a conflict without any effect if and only if the plan was changed. |
| `MigrationRun.LineBreakHidesAChange` | cmd/secretsbroker/provider_operation_executor.go:124-156 | The failing input as a run: an operation recorded for one invalid ref with a line break, without a call, then writes and verifies the two refs of a different plan. |
| `MigrationRun.MigratedIsOnRecordIff` | cmd/secretsbroker/provider_operation_executor.go:203-218 | In every reachable ledger, an item reported as migrated is on record as verified if and only if it already was or its last save was published. |
| `MigrationRun.MigratedButNotOnRecord` | cmd/secretsbroker/provider_operation_executor.go:214-218 | The failing case: the last save is lost, the item is reported as migrated and only its write is on record. |
| `CampaignService.Campaigns.Apply` | cmd/secretsbroker/bulk_campaign.go:170-267 | Refused without any effect exactly for its guards; otherwise ledger, calls and items are those of one pass, and the stored campaign keeps its operations; unhindered, it finishes exactly the due items whose plan stands. |
| `CampaignService.Campaigns.ApplyItem` | cmd/secretsbroker/bulk_campaign.go:398-428 | One item: the operation's checks, execution and closing audit, and how the answer is copied into the item. |
| `CampaignService.Campaigns.VisitItem` | cmd/secretsbroker/bulk_campaign.go:226-251 | One round of the loop: left alone, deferred, or applied and saved. |
| `CampaignService.Campaigns.Create` | cmd/secretsbroker/bulk_campaign.go:97-114 | A plan is stored only if an item can be applied and the audit record was written. |
| `CampaignService.Campaigns.Revalidate` | cmd/secretsbroker/bulk_campaign.go:116-168 | The items are assessed afresh and forget what was applied, but every item keeps its operation. |
| `CampaignRun.PassKeepsRefs` | cmd/secretsbroker/bulk_campaign.go:226-251 | A pass keeps every item's place and ref, and leaves items that are not due untouched. |
| `CampaignRun.PressureDefers` | cmd/secretsbroker/bulk_campaign.go:233-238 | Under backpressure there is no call and no record, and deferred items stay due. |
| `CampaignRun.PushBackEndsThePass` | cmd/secretsbroker/bulk_campaign.go:226-251 | Once an item ends with a code that pushes back, the calls and the ledger of the whole pass are those up to that item, and later due items are deferred. |
| `CampaignRun.VisitPausesIff` | cmd/secretsbroker/bulk_campaign.go:442-449 | A visit leaves pressure if and only if its answer asks for a pause: a failed closing audit, a refusal or source outcome among five codes, a write answered by anything but applied, a policy, a conflict or an invalid ref, or a verification answered by one of four codes. |
| `CampaignRun.AnswerDecidesThePass` | cmd/secretsbroker/bulk_campaign.go:226-251 | An item visited without pressure decides by its answer: if it asks for a pause, calls and ledger of the pass end with it and every later due item is skipped; if not, the next due item is visited. |
| `CampaignRun.RefusalIsReported` | cmd/secretsbroker/bulk_campaign.go:398-428 | What a refused or unaudited item says afterwards, and that it made no call and left no record. |
| `CampaignRun.RetriedOutcomes` | cmd/secretsbroker/bulk_campaign.go:430-440 | The outcomes that are retried: all but five. |
| `CampaignRun.PassGrows` | cmd/secretsbroker/bulk_campaign.go:226-251 | No pass undoes a record of any operation. |
| `CampaignRun.UnhinderedPassIff` | cmd/secretsbroker/bulk_campaign.go:226-251 | From every reachable ledger, an unhindered pass finishes a due item, with a record of its verification, if and only if the item is not on record under another plan. |
| `CampaignRun.PassKeepsTidy` | cmd/secretsbroker/bulk_campaign.go:226-251 | Every pass, hindered or not, leaves every record tidy. |
| `CampaignRun.PassKeepsPlans` | cmd/secretsbroker/bulk_campaign.go:673-675 | No pass of any campaign changes whether an item is on record under its own plan. |
| `CampaignRun.EveryRunStands` | cmd/secretsbroker/bulk_campaign.go:673-675 | In every run of direct operations and campaign passes, with any answers and failing saves, the records are tidy and every campaign item is on record under its own plan or not at all. |
| `CampaignRun.UnhinderedPassAfterAnyRun` | cmd/secretsbroker/bulk_campaign.go:170-267 | After any such run an unhindered pass finishes every due item. |
| `CampaignRun.PlanOnRecord` | cmd/secretsbroker/provider_operation_executor.go:124-156 | Through any run of operations and passes a direct operation keeps the plan that put it on record. |
| `CampaignRun.ChangedPlanRunsNothing` | cmd/secretsbroker/provider_operation_executor.go:124-139 | After any run, for plans without line breaks: a changed plan makes no call and saves nothing, and an unchanged one that meets no obstacle completes. |
| `CampaignRun.VisitLeavesInPlayIff` | cmd/secretsbroker/bulk_campaign.go:398-440 | A due item that is visited ends due or completed if and only if it was deferred, or refused without an item result and with a retried outcome or without an audit record, or ran audited under its own plan, still ready, and with a readable source, a retried source outcome, an earlier verification or an unsaved new record. |
| `CampaignRun.PassLeavesInPlayIff` | cmd/secretsbroker/bulk_campaign.go:226-251 | The same for every item of a pass from any reachable ledger, in the ledger and under the pressure left by the items before it; items behind a failed campaign save stay due. |
| `CampaignRun.RefusalLeavesBehind` | cmd/secretsbroker/provider_config_migration.go:391-470 | Failing inputs: a target that is not ready, or a locked broker, leaves a due item neither due nor completed. |
| `CampaignRun.AuditFailureLeavesBehind` | cmd/secretsbroker/provider_config_migration.go:396-411 | Failing input: a migration that succeeded but whose closing audit record failed leaves its item neither due nor completed, though the ledger has it as verified. |
| `CampaignRun.CompletedIsOnRecordIff` | cmd/secretsbroker/bulk_campaign.go:398-428 | An item that a visit completes is on record as verified if and only if it was before or the last save of its migration was published. |
| `CampaignRun.PassCompletedIsOnRecordIff` | cmd/secretsbroker/bulk_campaign.go:226-251 | The same for every item that a pass from a reachable ledger completes. |
| `CampaignRun.CompletedButNotOnRecord` | cmd/secretsbroker/bulk_campaign.go:226-251 | The failing input: after a lost last save the item is completed, the ledger has only its write, and a later pass makes no call and changes nothing. |
| `KVStore.HistoryIsNeverMissing` | cmd/secretsbroker/kv_v2.go:599-613 | The branch of the append that rebuilds a missing history cannot be reached. |
| `KVStore.MutateVersions` | cmd/secretsbroker/kv_v2.go:536-584 | The delete/undelete loop equals its specification, with its refusals. |
| `KVStore.AppendKeepsShape` | cmd/secretsbroker/kv_v2.go:586-620 | The window after an append is the newest at most ten records, contiguous and ending at the new current version. |
| `KVStore.ResolveReadsCurrent` | cmd/secretsbroker/kv_v2.go:622-664 | The entry's payload and its highest KV version decrypt to one plaintext. |
| `KVStore.WriteKeepsWellFormed` | cmd/secretsbroker/kv_v2.go:476-534 | Writes and patches keep the history contiguous, bounded and readable. |
| `KVStore.MutateKeepsWellFormed` | cmd/secretsbroker/kv_v2.go:536-584 | So do deletes and undeletes. |
| `KVStore.RekeyKeepsWellFormed` | cmd/secretsbroker/backup_restore.go:314-334 | So does re-encryption. |
| `KVStore.EveryRunIsLogged` | cmd/secretsbroker/kv_v2.go:403-664 | In every run of KV writes, patches, mutations and key rotations, from an absent path or a plainly written entry, the window holds what the last accepted writes meant to store: the value sent, or the merge into the value stored before. |
| `KVStore.KeptReadsBack` | cmd/secretsbroker/kv_v2.go:403-423 | A kept version reads back what its own write meant to store, unless it is deleted. |
| `KVStore.WriteMeans` | cmd/secretsbroker/kv_v2.go:476-534 | A write is accepted if and only if its check-and-set value, if any, is the current version and a patch finds a readable value; then the entry and the new current version hold the value sent, or the merge into the value read before; each refusal has its error. |
| `KVStore.KeptIff` | cmd/secretsbroker/kv_v2.go:586-620 | The window is the ten newest versions. |
| `KVStore.MutateReads` | cmd/secretsbroker/kv_v2.go:536-584 | A delete or undelete changes exactly the kept versions it names, or the current one if it names none: they become unreadable, or read their own writes again. |
| `KVStore.MutateRefusedIff` | cmd/secretsbroker/kv_v2.go:536-584 | It is refused if and only if it names versions and none of them is kept. |
| `KVStore.EvictedIsNotFoundIff` | cmd/secretsbroker/kv_v2.go:622-646 | An evicted version is not found if and only if it is not version 1, which reads the current plaintext. |
| `KVStore.NothingReadsIff` | cmd/secretsbroker/kv_v2.go:403-423 | No version number reads anything if and only if every kept version is deleted and version 1 has not left the window. |
| `KVStore.DeleteHidesCurrent` | cmd/secretsbroker/kv_v2.go:536-584 | A delete of the current version hides it from every read of the current version; but once version 1 has left the window, reading version 1 returns it. |
| `KVStore.DeletedButReadable` | cmd/secretsbroker/kv_v2.go:622-646 | A reachable case: eleven writes and a delete from an absent path. |
| `KVStore.CasIsAcceptedOnce` | cmd/secretsbroker/kv_v2.go:586-597 | In every such run, of two accepted check-and-set writes the later one carried the larger value, so each value succeeds at most once. |
| `VersionOrder.NewestRetained` | cmd/secretsbroker/rotation_versions.go:668-679 | The scan returns the newest version whatever the map order. |
| `VersionOrder.SortedVersions` | cmd/secretsbroker/rotation_versions.go:595-609 | A sorted enumeration of exactly the versions. |
| `VersionOrder.TrimmedKeepsNewest` | cmd/secretsbroker/rotation_versions.go:681-703 | What trimming leaves has the right size and every kept version is newer than every dropped one. |
| `VersionOrder.TrimRetained` | cmd/secretsbroker/rotation_versions.go:681-703 | The deleting loop leaves exactly that set and repairs the previous-version ID. |
| `RotationLedger.RetireLoop` | cmd/secretsbroker/rotation_versions.go:386-460 | The loop and branches of retire equal their specification. |
| `RotationLedger.StageAnswer` | cmd/secretsbroker/rotation_versions.go:126-217 | Each answer of a stage request has its exact condition, and only a new version changes the ledger. |
| `RotationLedger.ActivateAnswer` | cmd/secretsbroker/rotation_versions.go:219-297 | A conflict if and only if the expected version is not the active one; applied if and only if the version is also staged and audited; then entry, previous ID and retained version are as stated. |
| `RotationLedger.RollbackAnswer` | cmd/secretsbroker/rotation_versions.go:299-384 | Each answer of a rollback has its exact condition, with the version named or the previous one. |
| `RotationLedger.RetireAnswer` | cmd/secretsbroker/rotation_versions.go:386-460 | Retiring by ID removes exactly that version; a conflict if and only if it is the active one. |
| `RotationLedger.StageAddsOne` | cmd/secretsbroker/rotation_versions.go:126-217 | Staging a fresh ID adds that one version and changes nothing else. |
| `RotationLedger.ActivateConserves` | cmd/secretsbroker/rotation_versions.go:219-297 | Activation moves versions without losing or altering a payload. |
| `RotationLedger.RollbackConserves` | cmd/secretsbroker/rotation_versions.go:299-384 | So does a rollback. |
| `RotationLedger.RetireOnlyDrops` | cmd/secretsbroker/rotation_versions.go:386-460 | Retiring drops retained versions and touches nothing else. |
| `RotationLedger.RetireKeepsNewest` | cmd/secretsbroker/rotation_versions.go:407-443 | Trimming by limit keeps exactly the newest max(limit, 1), whatever IDs were reused. |
| `RotationLedger.RollbackUndoesActivate` | cmd/secretsbroker/rotation_versions.go:219-384 | A default rollback right after an activation restores the exact payload and version. |
| `RotationLedger.RollbackUndoesActivateIff` | cmd/secretsbroker/rotation_versions.go:219-384 | With reused IDs a default rollback right after an activation restores the payload if and only if the activated ID was not the active one and the rollback does not repeat the operation that last rolled back to that ID; otherwise it is a conflict that changes nothing. |
| `RotationLedger.ActiveIdStagedAgain` | cmd/secretsbroker/rotation_versions.go:126-297 | First failing input: a version staged under the active ID and activated; the earlier payload is out of reach of a default rollback. |
| `RotationLedger.OperationRollsBackAgain` | cmd/secretsbroker/rotation_versions.go:320-327 | Second failing input, a run of requests from a fresh ledger: v0 is staged and activated again after an operation rolled back to it, and that operation cannot roll it back. |
| `RotationLedger.ApplyKeepsWellKept` | cmd/secretsbroker/rotation_versions.go:126-460 | With IDs that are not reused, every request keeps active, staged and retained versions disjoint. |
| `RotationLedger.ApplyKeepsInOrder` | cmd/secretsbroker/rotation_versions.go:126-460 | Every request, with new or reused IDs, keeps versions filed under their own IDs, and the previous ID naming a retained version or empty exactly when none is retained. |
| `RotationLedger.EveryRunIsWellKept` | cmd/secretsbroker/rotation_versions.go:126-460 | So does every run with never-reused IDs. |
| `RotationLedger.EveryRunConserves` | cmd/secretsbroker/rotation_versions.go:126-460 | In such a run a version's payload stays the same until it is retired. |
| `LocalStore.StepKeepsSound` | cmd/secretsbroker/local_store.go:337-382 | Plain writes, KV operations, rotations of versions, decommission, restore and key rotation, saved or not, keep the store sound: every payload opens and every history agrees with its entry. |
| `LocalStore.ResolveAgreesWithKV` | cmd/secretsbroker/local_store.go:911-924 | In every reachable store resolve reads the plaintext of the highest KV version, and the store names the live key. |
| `LocalStore.StepResolves` | cmd/secretsbroker/local_store.go:911-924 | After one operation a ref resolves to the value that the operation set (written, merged, activated, rolled back to or restored), to nothing if it was decommissioned, and otherwise to what it did before. |
| `LocalStore.LastSetWins` | cmd/secretsbroker/local_store.go:911-924 | Over any run a ref resolves to the value set by the last published operation on it. |
| `LocalStore.StagedThenActivated` | cmd/secretsbroker/rotation_versions.go:126-297 | A value that was staged is what the ref resolves to once its version is activated, whatever ran in between. |
| `LocalStore.EveryLedgerIsInOrder` | cmd/secretsbroker/rotation_versions.go:407-443 | In every reachable store, through plain writes, KV operations, decommission, restore and key rotation and with any version IDs, the previous ID of a ledger names a retained version, or is empty exactly when none is retained. |
| `LocalStore.RollbackRestoresIff` | cmd/secretsbroker/rotation_versions.go:219-384 | In every reachable store, activating a staged version and rolling back by default brings back the earlier payload and version if and only if neither reuse of an ID stands in the way. |
| `LocalStore.TombstoneStands` | cmd/secretsbroker/decommission.go:169-227 | A decommissioned entry keeps its decrypted contents through any run until it is restored. |
| `LocalStore.RestoreNeverReplaces` | cmd/secretsbroker/decommission.go:229-284 | Restoring leaves every active secret as it was. |
| `LocalStore.DecommissionRoundTrip` | cmd/secretsbroker/decommission.go:169-284 | Decommission, any run with key rotations, then restore gives back version, plaintext and KV history. |
| `LocalBackend.Backend.WriteSecret` | cmd/secretsbroker/local_store.go:337-382 | If published, the ref resolves to the value written, with the given version, its first creation time and no KV history, and everything else is as before; the store names the live key. |
| `LocalBackend.Backend.WriteKVData` | cmd/secretsbroker/kv_v2.go:476-534 | A KV write or patch is the specified step; it succeeds if and only if it is accepted and saved, and then resolution and the new current version read the value sent or merged; no other ref changes. |
| `LocalBackend.Backend.MutateKV` | cmd/secretsbroker/kv_v2.go:536-584 | A KV delete or undelete is the specified step and changes nothing that resolution reads. |
| `LocalBackend.Backend.RotateVersion` | cmd/secretsbroker/rotation_versions.go:126-460 | Stage, activate, rollback and retire are the specified step with the specified answer, and resolution reads the activated or rolled-back value, or what it read before. |
| `LocalBackend.Backend.DecommissionSecret` | cmd/secretsbroker/decommission.go:169-227 | Accepted if and only if the plan is valid, the version is the expected one and the audit and save work, or it repeats a standing decommission; then the entry is in the tombstone and nowhere else. |
| `LocalBackend.Backend.RestoreSecret` | cmd/secretsbroker/decommission.go:229-284 | Accepted if and only if the tombstone stands with the expected version and the ref is free, or it repeats a restore; then exactly the entry of the tombstone is back. |
| `LocalBackend.Backend.RotateMasterKey` | cmd/secretsbroker/backup_restore.go:241-305 | So is an unmanaged key rotation: the live key always matches the published store. |
| `RamFiles.ValidPathHasNoTrailingSlash` | cmd/secretsbroker/ram_webdav.go:77-92 | An accepted path never ends in a slash, so a request with one names no file. |
| `RamFiles.ValidPathIff` | cmd/secretsbroker/ram_webdav.go:77-92 | Which paths are accepted: up to 512 characters, split by single slashes into names that are not empty, not a dot or two, and made of letters, digits, dots, underscores and hyphens. |
| `RamFiles.InputLimits` | cmd/secretsbroker/ram_webdav.go:98-117 | 256 KiB a file and 768 KiB in all. |
| `RamFiles.RoomIff` | cmd/secretsbroker/ram_webdav.go:131-138 | Room if and only if the store is open, the owner has a grant or fewer than 1024 exist, and the other owners leave the size free within 64 MiB. |
| `RamFiles.BuildFiles` | cmd/secretsbroker/ram_webdav.go:98-117 | The table is built exactly for acceptable inputs: valid, distinct, prefix-free and within the limits. |
| `RamFiles.HasConflict` | cmd/secretsbroker/ram_webdav.go:98-117 | The scan finds a file/directory conflict exactly when there is one. |
| `RamFiles.InstallKeepsConsistentIff` | cmd/secretsbroker/ram_webdav.go:119-149 | Installing a grant keeps the maps inverse, the bytes summed and the limits if and only if its token is not live under another owner. |
| `RamFiles.EveryRunIsConsistentIff` | cmd/secretsbroker/ram_webdav.go:94-181 | A run of create, replace, revoke and close is consistent at every point (at most 1024 grants and 64 MiB, counted exactly) if and only if no accepted creation draws a token that is live under another owner. |
| `RamFiles.LiveIff` | cmd/secretsbroker/ram_webdav.go:94-181 | In every run without a clash, tokens drawn again after their end or by their own owner included, a token is live, with its own grant, if and only if an accepted creation drew it and nothing has replaced, revoked or closed it since. |
| `RamFiles.ServedIff` | cmd/secretsbroker/ram_webdav.go:255-345 | In every run without a clash a token serves exactly the files of its own creation until that ends, and no name both as a file and as a directory. |
| `RamFiles.EveryRunIsConsistent` | cmd/secretsbroker/ram_webdav.go:94-181 | Corollary: with tokens that are never drawn twice every reachable store is consistent. |
| `RamFiles.GoneStaysGone` | cmd/secretsbroker/ram_webdav.go:151-160 | A token that is gone is never served again and its revocation changes nothing. |
| `RamFiles.ReplacedIsGone` | cmd/secretsbroker/ram_webdav.go:119-149 | A replaced token is gone at once and cannot revoke its successor. |
| `RamFiles.RamFileStore.CreateGrant` | cmd/secretsbroker/ram_webdav.go:94-149 | Accepted exactly under the code's conditions, otherwise nothing changes; the store stays consistent if and only if the drawn token is not live under another owner. |
| `RamFiles.RamFileStore.RevokeGrant` | cmd/secretsbroker/ram_webdav.go:151-160 | Revocation is the specified step and keeps consistency. |
| `RamFiles.RamFileStore.CloseStore` | cmd/secretsbroker/ram_webdav.go:172-180 | Closing empties the store for good. |
| `RamFiles.RamFileStore.Serve` | cmd/secretsbroker/ram_webdav.go:304-345 | Although a trailing slash is taken off before the lookup, a file is answered exactly for a live token and the exact name of one of its files, and a directory exactly for the root or a name on the way to a file. |
| `Lockout.CountHasWitnesses` | cmd/secretsbroker/lockout.go:68-94 | The history's count stands for that many real failures with no success or clearing in between. |
| `Lockout.LockNeedsFailures` | cmd/secretsbroker/lockout.go:59-183 | A lock needs threshold failures of its own scope, the last less than the cooldown ago. |
| `Lockout.FailuresLock` | cmd/secretsbroker/lockout.go:68-94 | Any row of failures that starts afresh, with events of other scopes in between and further failures under the lock, locks its scope if and only if it has threshold failures and the cooldown from the threshold-th is not over. |
| `Lockout.ThreeStrikes` | cmd/secretsbroker/lockout.go:68-94 | Three failures in a row lock for exactly five minutes from the third; two do not. |
| `Lockout.RowCounts` | cmd/secretsbroker/lockout.go:68-94 | What such a row counts: its first threshold failures. |
| `Lockout.LockoutStore.Active` | cmd/secretsbroker/lockout.go:59-66 | The answer is that of the history, though expired entries are dropped; retry-after lies between 1 and the cooldown in seconds. |
| `Lockout.LockoutStore.ActiveLocked` | cmd/secretsbroker/lockout.go:156-168 | The same, and the dropped entry changes no later answer. |
| `Lockout.LockoutStore.Decide` | cmd/secretsbroker/lockout.go:170-183 | Whoever waits the reported seconds comes less than a second too early, and not too early at all if and only if the time left is a whole number of seconds or at most one. |
| `Lockout.LockoutStore.RecordFailure` | cmd/secretsbroker/lockout.go:68-94 | Adds one failure to the history; "started" exactly when this failure locks. |
| `Lockout.LockoutStore.RecordSuccess` | cmd/secretsbroker/lockout.go:96-103 | Adds a success. |
| `Lockout.LockoutStore.Clear` | cmd/secretsbroker/lockout.go:105-114 | Adds a clearing; reports an entry for every locked scope and only for counted ones. |
| `Lockout.LockoutStore.ActiveCount` | cmd/secretsbroker/lockout.go:135-154 | Counts exactly the scopes that the history locks. |
| `LeaseReplay.ReplayMemory.Remember` | cmd/secretsbroker/local_store.go:634-654 | Forgets the expired, refuses a held identifier, else remembers it. |
| `LeaseReplay.ReplayMemory.VerifyLease` | cmd/secretsbroker/local_store.go:490-545 | Only a genuine, unexpired lease is accepted, and one whose identifier is not held always is. |
| `LeaseReplay.AcceptedIsHeld` | cmd/secretsbroker/local_store.go:634-654 | An accepted lease is held until it expires. |
| `LeaseReplay.AcceptedOnce` | cmd/secretsbroker/local_store.go:490-545 | Under a nondecreasing clock a lease is accepted at most once, although the memory forgets. |
| `LeaseReplay.AcceptedIff` | cmd/secretsbroker/local_store.go:490-545 | Under a nondecreasing clock an attempt is accepted if and only if the lease is genuine and unexpired and no unexpired lease with its issuer and identifier was accepted before. |
| `LeaseReplay.HeldWasAccepted` | cmd/secretsbroker/local_store.go:634-654 | The memory holds nothing that was not accepted. |

## Left out

- AES-GCM, HMAC, SHA-256, age and DPAPI: symbolic constructors; nonces, ciphertext bytes and the truncation of key IDs are not modelled.
- Non-ASCII audit fields: truncation inside a rune and replacement characters.
- HTTP handlers, flag parsing, JSON coding, telemetry, status tables and next-action texts: one-branch facts.
- Remote providers: an executor with arbitrary typed answers.
- Operating-system file, access-control and locking code: atomic publication with three outcomes, and mutual exclusion.
- Backup create and restore, managed creation: mostly guards, and a whole-store restore breaks the per-ref run invariants.
- KV field-map coding (kv_v2.go:802-824): the model works on plaintexts.
- An explicit key flag or key file at start-up: recovery is modelled for wrapped keys only; the unmanaged `key rotate` command is a step of the local store but not of the managed runs.
- Validation of refs, reasons and confirmations: flags of the operations; the schema fields of a share file are one flag.
- Source metadata of entries and the fallback for a blank stored version: not needed by any property.
- Lockout.LockoutStore.RecordFailure: calls are atomic and the clock never goes back; a clock that does is not covered.
- LeaseReplay.AcceptedOnce: the signature and claim checks of a lease are one flag, and lease checks are atomic.
- RamFiles.LiveIff: for runs in which no accepted creation draws a token that is live under another owner; after such a clash the maps are not inverse and an owner's replacement can remove another owner's grant.
- RamFiles.RamFileStore.Serve: GET requests for a token of the right form; host checks, HEAD, OPTIONS, PROPFIND listings and usage counters are not modelled.
- RecoveryShares.SplitSecret: the wiping of coefficient buffers after use is not modelled.
- MigrationService.Service.ExecuteMigration: refs come trimmed, without empty ones, and in the order in which they are processed (the code sorts them for that too); the fingerprint sorts them itself.
- IDs of campaign items: an ID is a constructor over campaign, target and ref; campaign IDs have no colon, so its text is as distinct.
- CampaignService.Campaigns.Apply: confirmation, expiry, request conflicts and authorisation are flags, and only migration campaigns run; counts and aggregate outcomes of a campaign are not modelled.
- LocalStore.ResolveAgreesWithKV: resolve is modelled in its local branch; refs that a configured remote source answers are not.
- CampaignRun.EveryRunStands: direct operations have IDs of their own; one that is given the text of a campaign item's ID is covered by the condition of `UnhinderedPassIff`.
