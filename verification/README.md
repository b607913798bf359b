# A verified model of the sidekick-usages persistence protocols

This Dafny project models the parts of sidekick-usages that keep saved accounts and
private credentials consistent on disk, and proves what they promise: over every
fault, crash, restart and interleaving that the model allows.

`dafny verify dfyconfig.toml` checks the whole project (Dafny 4.11).

## How it is modelled

* **Storage.** One account root is a class whose fields are the private tree, the
  reserved transaction directory, the authority file and the published lineage. Every
  durable operation is atomic and takes its next *fault* from a schedule: proceed, fail
  before the write, fail after it, or crash. A restart replaces the schedule, and a
  theorem that quantifies over schedules quantifies over every crash point. A *calm*
  environment has nothing pending. Ghost logs record what order alone can show: each
  look at a guarded source with the disk at that moment, each change of refresh evidence
  with the authority at that moment, and each tree that was made durable.
* **Journals** (`Journal.dfy`). A ghost base state and a well-formed journal say which
  states are reachable. Each step of commit and recovery is a lemma that keeps that
  invariant, and each method keeps it on every outcome.
* **Private transactions.** The runtime form (journal version one), the migration form
  (version two, with lineage publication and source divergence), their plans and their
  recovery are imperative methods over the account root.
* **Account store** (`AccountStore.dfy`, `AccountStoreRuns.dfy`). A store caches one
  account map. Its operations are specified on ordered maps (`AccountMaps.dfy`), and a
  driver interleaves any number of stores.
* **Refresh** (`CredentialRefresh.dfy`, `CredentialRefreshCoordinator.dfy`,
  `CredentialRefreshRuns.dfy`, `RefreshLocks.dfy`). The refresh log with the private
  transaction inside its merge and the coordinator above it are imperative; many
  coordinators, locks and quiescent owners are a state machine over all interleavings,
  and `CredentialRefreshSteps.dfy` shows that the log takes its steps.
* **Managed files** (`PersistenceFilesystem.dfy`, `ArtifactGrammar.dfy`). Names map to
  inodes and bytes, and a link count is the number of names of an inode.
* **Supporting algorithms.** Portable path sets, credential ownership, passive
  assessment, and the HTTP retry executor.

SHA-256 is an injective constructor, an inode number is new while the file it would
replace is alive, and portable name keys are an arbitrary function.

## Promises that hold only under a condition

* A migration whose displaced home contains a target home is accepted by the journal
  checks and can never finish, because destroying a bundle removes its subtree.
  `MigrationTransactions.AncestorIsAccepted` is such a request, and
  `MigrationTransactions.CommitMigration` shows that an accepted migration finishes if
  and only if no displaced home contains a target home.
* Removing or resetting accounts keeps accounts and bundles in agreement if and only if
  no displaced home contains a surviving one (`AccountMaps.AgreementIff`;
  `AccountMaps.NestedHomesBreakAgreement` is the counterexample). Homes that are direct
  children of the private root always satisfy it.
* A publication interrupted between link and removal can be recovered if and only if its
  kind is in the pair map and its bytes are canonical
  (`PersistenceFilesystem.LinkedIsRecoverableIff`). A version-two snapshot is not
  (`PersistenceFilesystem.VersionTwoSnapshotStaysInterrupted`).
* A refresh displaces nothing, but the bundle it installs is prepared for the current
  label. A committed refresh leaves a home that no account names, with the old
  credentials in it, if and only if the expected home is canonical and differs from the
  new one (`AccountStoreRuns.MergeLeavesHomeIff`). Renaming an account and then
  refreshing it is such a run (`AccountStoreRuns.RefreshAfterRenameLeavesHome`).
  Accounts and the homes they name agree all the same.
* Loading, recovering and merging resolve a pending transaction if and only if its
  journal records no source guard (`AccountStores.AccountStore.Load`,
  `AccountStores.AccountStore.RecoverCredentials`), because none of them presents one.
  A guarded persist that stops after its journal
  (`AccountStores.GuardedCrashIsReachable`) makes each of them raise source-changed
  until a call presents that guard.
* Concurrent refreshes replace the credentials they saw at most once if nobody writes
  those credentials back and the provider does not issue them again
  (`RefreshLocks.ReplacedAtMostOnce`), and in general at most once more for each step
  that can bring them back (`RefreshLocks.ReplacementsBounded`,
  `RefreshLocks.RestoredCanBeReplacedAgain`).

## Model

| member | source | states |
|---|---|---|
| `Storage.AccountRoot.InstallStagedFile` | src/sidekick_usages/persistence/private_credentials.py:323-369 | installing an artifact is one step that copies or moves it; it fails without effect when the artifact is missing or the file is not the expected one |
| `Storage.AccountRoot.DestroyBundle` | src/sidekick_usages/persistence/private_credentials.py:400-406 | destroying a bundle removes its whole subtree, or stops on either side of doing so; nothing else changes |
| `Storage.AccountRoot.CommitAuthority` | src/sidekick_usages/persistence/transaction.py:75-87 | the authority is replaced only if it is still exactly the expected one |
| `Journals.CoherentIsWellFormed` | src/sidekick_usages/persistence/credential_transaction_schema.py:181-233 | for every portable key function, the checks of both journal schemas give distinct files, stages and backups, displaced bundles that are not targets, and no bundle in the reserved transaction directory |
| `Journals.CoherentNamesFit` | src/sidekick_usages/persistence/credential_transaction_schema.py:181-315 | in the portable namespace no list names a bundle twice, only targets were present at base, no displaced bundle is a target, and the targets are the bundles of the files; a migration also has its guard, its generation and portable nested paths |
| `Journals.PartWriteKeeps` | src/sidekick_usages/persistence/credential_transactions.py:318-341 | writing a stage or backup that is not there yet keeps every interrupted state recoverable |
| `Journals.InstallTargetKeeps` | src/sidekick_usages/persistence/credential_transaction_recovery.py:271-288 | installing one target whose backup is written keeps the state recoverable, whether the stage is copied or moved |
| `Journals.RestoreKeeps` | src/sidekick_usages/persistence/credential_transaction_recovery.py:309-344 | putting one backup back keeps the state recoverable and returns that file to its base bytes, even when the backup is moved |
| `Journals.DeleteNewKeeps` | src/sidekick_usages/persistence/credential_transaction_recovery.py:309-326 | deleting a file that did not exist at base keeps the state recoverable and returns it to base |
| `Journals.AuthorityCommitKeeps` | src/sidekick_usages/persistence/credential_transactions.py:173-177 | the authority commit, made only with every file at target, turns a state that rolls back into one that rolls forward |
| `Journals.DestroyDisplacedKeeps` | src/sidekick_usages/persistence/credential_transaction_recovery.py:470-480 | deleting displaced bundles after the commit keeps the target, if none of them contains a target file |
| `Journals.CleanupKeeps` | src/sidekick_usages/persistence/credential_transaction_recovery.py:559-577 | artifacts may be removed one by one exactly because the transaction is already settled |
| `Journals.FinalTargetUnique` | src/sidekick_usages/persistence/credential_transaction_recovery.py:346-388 | journal and base determine every private byte of the target state |
| `Journals.BaseIsNotTarget` | src/sidekick_usages/persistence/credential_transaction_recovery.py:639-661 | an authority read as base is never read as target |
| `Journals.ReachableStates` | src/sidekick_usages/persistence/credential_transaction_recovery.py:290-345 | in every reachable state: a target authority means every journalled file has its target digest; a base authority means each is at base or target, each one moved off an existing base has its backup, and no displaced bundle was touched; files outside the journal never change |
| `CredentialTransactionRecovery.RequireSourceGuard` | src/sidekick_usages/persistence/credential_transaction_recovery.py:258-269 | undisturbed it passes if and only if the caller guards the recorded source in its recorded state and the source still looks like it; when it passes it looked once |
| `CredentialTransactionRecovery.RestoreRecord` | src/sidekick_usages/persistence/credential_transaction_recovery.py:309-344 | restores one record or fails closed; under any faults earlier restored records stay restored |
| `CredentialTransactionRecovery.RestoreBase` | src/sidekick_usages/persistence/credential_transaction_recovery.py:290-307 | returns the whole private tree to its base bytes and leaves authority, journal and lineage alone |
| `CredentialTransactionRecovery.EnsureTarget` | src/sidekick_usages/persistence/credential_transaction_recovery.py:346-377 | when it returns every journalled file has its target digest; a tree already at target is not written |
| `CredentialTransactionRecovery.RollBackOrForward` | src/sidekick_usages/persistence/credential_transaction_recovery.py:130-136 | whatever the tree holds it fails closed: rolling back touches only files at a journalled target, rolling forward only journalled files that are missing or at base and what is displaced; undisturbed it rolls forward whenever each file is at target or can be brought there |
| `CredentialTransactionRecovery.RequireTargetFiles` | src/sidekick_usages/persistence/credential_transaction_recovery.py:379-388 | accepts if and only if every journalled file has its target digest |
| `CredentialTransactionRecovery.RequireBaseFiles` | src/sidekick_usages/persistence/credential_transaction_recovery.py:390-407 | accepts if and only if every journalled file has its base digest and no new bundle is present |
| `CredentialTransactionRecovery.RequirePrivateState` | src/sidekick_usages/persistence/credential_transaction_recovery.py:409-422 | accepts a base or target state if and only if the private tree is in it, displaced bundles included |
| `CredentialTransactionRecovery.DeleteDisplaced` | src/sidekick_usages/persistence/credential_transaction_recovery.py:470-480 | when it returns no displaced bundle is left; it never creates a file and, unless one contains a target, keeps the target |
| `CredentialTransactionRecovery.CleanupArtifacts` | src/sidekick_usages/persistence/credential_transaction_recovery.py:559-577 | removes only artifacts, and when it returns none that the journal names is left |
| `CredentialTransactionRecovery.CleanupTransaction` | src/sidekick_usages/persistence/credential_transaction_recovery.py:552-557 | the journal goes after every artifact it names, so a stop anywhere leaves a resolvable state |
| `CredentialTransactionRecovery.Recover` | src/sidekick_usages/persistence/credential_transaction_recovery.py:103-138 | under any faults a reachable state stays reachable; undisturbed and with the recorded guard every reachable state resolves with no directory left; a third authority, another guard or a changed source stops it before any change; the authority is never written |
| `CredentialTransactionPlans.FilePlan` | src/sidekick_usages/persistence/credential_transaction_plans.py:131-165 | one bundle is planned if and only if it and each file it constrains is still what the caller prepared for; numbering continues and each record is the exact transition from the tree |
| `CredentialTransactionPlans.BuildRuntimePlan` | src/sidekick_usages/persistence/credential_transaction_plans.py:168-210 | a runtime plan is built if and only if the request is within bounds, direct children, still expected and its journal passes its schema; the journal is the one that describes the request |
| `CredentialTransactionPlans.BuildMigrationPlan` | src/sidekick_usages/persistence/credential_transaction_plans.py:252-319 | the same for a migration plan, with nested paths unique in the portable namespace |
| `CredentialTransactionPlans.ValidateRuntimeDisplaced` | src/sidekick_usages/persistence/credential_transaction_plans.py:93-109 | accepts if and only if the bundles are direct children with distinct portable names within the account bound |
| `CredentialTransactionPlans.PlannedMatches` | src/sidekick_usages/persistence/credential_transaction_plans.py:168-210 | an accepted journal states exactly the base digests and bundle presence recovery relies on |
| `CredentialTransactions.MaterializeStages` | src/sidekick_usages/persistence/credential_transactions.py:323-329 | all stages are written before any bundle file changes; a stop anywhere leaves the base tree |
| `CredentialTransactions.MaterializeBackups` | src/sidekick_usages/persistence/credential_transactions.py:330-341 | all backups hold base bytes before any bundle file changes |
| `CredentialTransactions.ApplyTarget` | src/sidekick_usages/persistence/credential_transaction_recovery.py:271-288 | files reach target one by one and every prefix is recoverable |
| `CredentialTransactions.WriteJournal` | src/sidekick_usages/persistence/credential_transactions.py:304-316 | the journal is written only into an empty directory; a stop on either side is a reachable state |
| `CredentialTransactions.Finish` | src/sidekick_usages/persistence/credential_transactions.py:169-190 | the source guard holds at a look right before the authority is replaced and at one right after it, or the call does not return; undisturbed a changed source changes nothing; normal return means the target state with no directory left |
| `CredentialTransactions.ExecuteRecovering` | src/sidekick_usages/persistence/credential_transactions.py:165-193 | an exception recovers before it propagates and one from the recovery takes its place; if nothing disturbs the recovery and the guard holds, the transaction is resolved when the exception leaves |
| `CredentialTransactions.ExecuteOrRecover` | src/sidekick_usages/persistence/credential_transactions.py:165-193 | an exception recovers before it propagates; every outcome is a reachable state |
| `CredentialTransactions.Commit` | src/sidekick_usages/persistence/credential_transactions.py:120-193 | a refused request and, undisturbed, one whose guarded source changed change nothing; a guarded request replaces the authority only after two looks at which the guard held and returns only after a third; an accepted one is in a state of its own journal on every outcome; a normal return is exactly the target; undisturbed it returns |
| `CredentialTransactions.RuntimeHasNoDisplacedAncestor` | src/sidekick_usages/persistence/credential_transaction_plans.py:93-109 | a runtime displaced bundle never contains a target file |
| `CredentialTransactions.RecoverThroughCrashes` | src/sidekick_usages/persistence/credential_transaction_recovery.py:103-138 | any number of faulty recoveries and one undisturbed one resolve any reachable state |
| `CredentialTransactions.CommitThroughCrashes` | src/sidekick_usages/persistence/credential_transactions.py:120-193 | crash atomicity: any faults in the commit and in any number of recoveries, then one undisturbed recovery, end with no directory and exactly base authority with base bytes or target authority with target bytes and displaced bundles gone |
| `MigrationTransactions.CompleteTarget` | src/sidekick_usages/persistence/credential_transaction_recovery.py:164-192 | a target state is completed and its exact bytes published before the journal may go |
| `MigrationTransactions.CompleteBase` | src/sidekick_usages/persistence/credential_transaction_recovery.py:194-243 | a base state is restored; after a divergence a present base is published first |
| `MigrationTransactions.ResolveMigration` | src/sidekick_usages/persistence/credential_transaction_recovery.py:140-243 | one journal under the recorded or a divergent guard: it returns only after the guard held first and at two proofs of the private state around the artifact removal; undisturbed, a guard that does not fit or a source that looks otherwise changes nothing; lineage invariant kept under any faults, resolved when undisturbed, nothing changed for a third authority |
| `MigrationTransactions.RecoverMigration` | src/sidekick_usages/persistence/credential_transaction_recovery.py:140-192 | strict recovery of a version-two journal; a runtime journal is refused |
| `MigrationTransactions.ResolveSourceDivergence` | src/sidekick_usages/persistence/credential_transaction_recovery.py:194-243 | the outcome names the side the authority is on; ending at a present base means that base was published |
| `MigrationTransactions.CommitMigration` | src/sidekick_usages/persistence/credential_transactions.py:195-277 | an accepted migration under an unchanged source finishes, undisturbed, if and only if no displaced home contains a target home; a changed source changes nothing; it returns only after the guard held before any write, before and after the authority commit, and after publication with the journal still there |
| `MigrationTransactions.MigrateThroughCrashes` | src/sidekick_usages/persistence/credential_transactions.py:195-277 | over whole runs of commit, recovery and divergence resolution with crashes and a changing source: one undisturbed attempt ends at base with base bytes or at target with target bytes published |
| `MigrationTransactions.GoneIsSettled` | src/sidekick_usages/persistence/credential_transaction_recovery.py:559-597 | the version-two journal disappears with the authority at target only after a snapshot of exactly those bytes is published |
| `MigrationTransactions.DisplacedAncestorIsNeverPrivate` | src/sidekick_usages/persistence/credential_transaction_recovery.py:409-422 | a target file below a displaced bundle can never pass the final proof |
| `MigrationTransactions.AncestorIsAccepted` | src/sidekick_usages/persistence/credential_transaction_schema.py:260-315 | a concrete request the schema accepts whose displaced home contains a target home, so the promise fails for it |
| `AccountMaps.UpsertFinds` | src/sidekick_usages/persistence/account_store.py:327 | assigning one entry changes that entry and no other |
| `AccountMaps.UpsertKeepsOrder` | src/sidekick_usages/persistence/account_store.py:327 | and leaves the order of all other entries alone |
| `AccountMaps.WithoutFinds` | src/sidekick_usages/persistence/account_store.py:411-423 | removing one label removes exactly that entry |
| `AccountMaps.RelabelFinds` | src/sidekick_usages/persistence/account_store.py:440-448 | a rename moves one entry to its new label in place and touches no other |
| `AccountMaps.AppliedFinds` | src/sidekick_usages/persistence/account_store.py:300-475 | what a persist, remove, rename or provider reset leaves under each label, and exactly when a persist is refused |
| `AccountMaps.AppliedOrder` | src/sidekick_usages/persistence/account_store.py:300-475 | what each of them does to the order of the accounts: what stays keeps it, an assigned label keeps its place, a new one goes last |
| `AccountMaps.MergeChangesOneAccount` | src/sidekick_usages/persistence/account_store.py:355-378 | a merge changes one account, in place, and in it only the fields a refresh owns: the rotated credentials and plan, or the failure message, with the completion time and status; a target that moved on is left exactly as it is |
| `AccountMaps.FinalTargetIsFilesAfter` | src/sidekick_usages/persistence/account_store.py:634-649 | the target state of a commit is the old tree with prepared files written and displaced homes gone |
| `AccountMaps.AgreementIff` | src/sidekick_usages/persistence/account_store.py:567-614 | after a commit every canonical home holds the credentials of the account naming it if and only if no displaced home contains a surviving one that was not rewritten |
| `AccountMaps.NestedHomesBreakAgreement` | src/sidekick_usages/persistence/account_store.py:613-614 | removing the account of an outer home takes the home of an account below it |
| `AccountStores.CanonicalPrivateAccounts` | src/sidekick_usages/persistence/account_store.py:729-747 | indexing succeeds if and only if no two accounts name one canonical home |
| `AccountStores.PrivateChange` | src/sidekick_usages/persistence/account_store.py:574-614 | the set algebra accepts if and only if homes are distinct, every prepared bundle is named and every new or changed home is prepared; displaced are exactly the homes no longer named |
| `AccountStores.AccountStore.FreshAccounts` | src/sidekick_usages/persistence/account_store.py:530-544 | returns the decoding of the durable authority with its fingerprint, and refuses orphaned credentials and undecodable bytes |
| `AccountStores.AccountStore.Load` | src/sidekick_usages/persistence/account_store.py:190-217 | resolves pending evidence before it caches the durable map: undisturbed, evidence resolves if and only if its journal records no source guard; under a recorded guard it raises source-changed and changes nothing |
| `AccountStores.AccountStore.ReadFresh` | src/sidekick_usages/persistence/account_store.py:247-258 | the answer is the durable account, and the cache is the durable map |
| `AccountStores.AccountStore.CommitCredentials` | src/sidekick_usages/persistence/account_store.py:560-653 | either the authority is untouched or the candidate replaced exactly the map the cache equals; under a guard only after looks at which it held, and not at all, undisturbed, if the source changed |
| `AccountStores.AccountStore.PersistCredentials` | src/sidekick_usages/persistence/account_store.py:300-329 | a normal return leaves the account at its label, nothing at a different previous label and every other label as it was, durably; a missing previous or taken new label is refused untouched; a guarded call moves the durable map only while its source looks as expected |
| `AccountStores.AccountStore.RemoveCredentials` | src/sidekick_usages/persistence/account_store.py:411-423 | removes exactly one label and the home only it named; every other label is as it was |
| `AccountStores.AccountStore.Rename` | src/sidekick_usages/persistence/account_store.py:425-450 | moves one account to a free label, in place, and leaves every other label as it was; a taken label refuses it |
| `AccountStores.AccountStore.ResetProviderCredentials` | src/sidekick_usages/persistence/account_store.py:460-475 | removes exactly one provider's accounts and the homes they alone named |
| `AccountStores.AccountStore.MergeCredentialRefresh` | src/sidekick_usages/persistence/account_store.py:331-400 | rebases onto the freshly reopened map: the result is the merge into exactly that map, a target that moved on is adopted untouched, and evidence under a recorded guard stops it before any change |
| `AccountStores.AccountStore.RecoverCredentials` | src/sidekick_usages/persistence/account_store.py:477-495 | leaves the authority alone; undisturbed it resolves what is pending if and only if no source guard is recorded, and adopts the durable map it left |
| `AccountStores.GuardedCrashIsReachable` | src/sidekick_usages/credentials/claude_restore.py:183-191 | a guarded persist that stops right after its journal is accepted and reachable, and from then on only a caller with its guard can resolve it |
| `AccountStores.AccountStore.GenerateLabel` | src/sidekick_usages/persistence/account_store.py:505-522 | returns the smallest unused numbered label |
| `AccountStores.MatchingCacheIsDurable` | src/sidekick_usages/persistence/account_store.py:720-726 | a matching fingerprint means the cache is the durable map, even if an inode number was reused |
| `AccountStoreRuns.RunStep` | src/sidekick_usages/persistence/account_store.py:293-495 | one operation of one store under any faults, guarded or not, in any state of the cache: the durable map moves by exactly that operation or not at all, and the disk stays explained |
| `AccountStoreRuns.Interleave` | src/sidekick_usages/persistence/account_store.py:300-401 | no lost updates for any interleaving of any operations of many stores, with changing guarded sources: every durable map is the previous one with exactly one operation applied or none, every operation reported as made is in it, every cache is the decoding of its baseline, a last recovery under the pending guard leaves no transaction, and with well prepared bundles accounts and bundles agree at the end |
| `AccountStoreRuns.ApartHasNoSurvivorBelow` | src/sidekick_usages/persistence/account_store.py:613-614 | homes that do not contain each other, nested or not, leave no surviving home below a displaced one |
| `AccountStoreRuns.PreparedKeepsApart` | src/sidekick_usages/credentials/codex.py:370-389 | a new home that was prepared as absent never contains or lies below a named one, so homes stay apart |
| `AccountStoreRuns.MergeIsGood` | src/sidekick_usages/persistence/account_store.py:331-400 | a refresh merge keeps accounts and bundles in agreement on both sides of its transaction, also when it moves the home to a new bundle |
| `AccountStoreRuns.MergeLeavesHomeIff` | src/sidekick_usages/persistence/account_store.py:379-395 | a committed success merge leaves a home that no account names if and only if the expected home is canonical and differs from the new one; it still holds the old credentials |
| `AccountStoreRuns.RefreshAfterRenameLeavesHome` | src/sidekick_usages/persistence/account_store.py:425-450 | renaming an account and then refreshing it is such a merge |
| `CredentialRefresh.RecoveredTwice` | src/sidekick_usages/persistence/credential_refresh.py:464-546 | recovering one account's evidence twice is recovering it once |
| `CredentialRefresh.RecoveredAccounts` | src/sidekick_usages/persistence/credential_refresh.py:514-546 | recovery gives the staged replacement where the account still held the expected credentials, and leaves a replaced or removed account and every other account as found |
| `CredentialRefresh.CredentialRefreshTransactions.BeginIntent` | src/sidekick_usages/persistence/credential_refresh.py:292-306 | an intent is written only for an account without evidence |
| `CredentialRefresh.CredentialRefreshTransactions.Confirm` | src/sidekick_usages/persistence/credential_refresh.py:269-291 | it confirms only after two further fresh reads, under the operation lock and then the evidence lock, both saw the expected credentials |
| `CredentialRefresh.CredentialRefreshTransactions.HoldStable` | src/sidekick_usages/persistence/credential_refresh.py:249-318 | a lease is granted only after three reads in a row saw its credentials, on the authority the last of them saw; it gives up only after the target changed in each of four attempts; undisturbed, without evidence and with readable authorities it returns |
| `CredentialRefresh.CredentialRefreshTransactions.WriteStage` | src/sidekick_usages/persistence/credential_refresh.py:343-368 | the stage is durable before the journal says it is complete |
| `CredentialRefresh.CredentialRefreshTransactions.MergeStaged` | src/sidekick_usages/persistence/credential_refresh.py:514-546 | the durable map is the staged one or untouched, and private agreement is kept by the transaction inside |
| `CredentialRefresh.CredentialRefreshTransactions.SettleEvidence` | src/sidekick_usages/persistence/credential_refresh.py:369-402 | durability doubt, and nothing else, is recorded and blocks; any other error leaves the complete journal; a merge that returned is recorded and cleaned |
| `CredentialRefresh.CredentialRefreshTransactions.MergeAndClean` | src/sidekick_usages/persistence/credential_refresh.py:369-402 | whatever interrupts the merge, evidence and durable map are in step; the journal becomes uncertain only if a write took effect and yet reported an error, and such an error never leaves it complete; undisturbed a stage that merges is merged and cleaned |
| `CredentialRefresh.CredentialRefreshTransactions.CommitSuccess` | src/sidekick_usages/persistence/credential_refresh.py:320-402 | every outcome is a state of one refresh; evidence is uncertain only after durability doubt; a normal return leaves no evidence and the staged map, and undisturbed an accepted stage that merges gets there; a mismatched bundle is refused before any write |
| `CredentialRefresh.CredentialRefreshTransactions.PersistFailureIfCurrent` | src/sidekick_usages/persistence/credential_refresh.py:446-462 | a failure is written only onto the credentials it was about |
| `CredentialRefresh.CredentialRefreshTransactions.FinishWithoutExchange` | src/sidekick_usages/persistence/credential_refresh.py:437-444 | the intent goes and the answer is the durable account |
| `CredentialRefresh.CredentialRefreshTransactions.RecoverDirectory` | src/sidekick_usages/persistence/credential_refresh.py:464-512 | blocked evidence changes nothing; otherwise the directory goes only after the durable map is the recovered one; undisturbed and admitted it completes |
| `CredentialRefresh.CredentialRefreshTransactions.Recover` | src/sidekick_usages/persistence/credential_refresh.py:208-236 | evidence held by another process, and its account, are never touched; exactly the rest is recovered, and undisturbed it stops only at evidence that cannot be resolved |
| `CredentialRefreshRuns.RecoverRefresh` | src/sidekick_usages/persistence/credential_refresh.py:464-546 | one recovery of the refresh log keeps everything known about the refresh; undisturbed it completes if and only if the refresh is resolvable |
| `CredentialRefreshRuns.RefreshThroughCrashes` | src/sidekick_usages/persistence/credential_refresh.py:320-402 | nested logs: after crashes in the refresh, in the private transaction inside its merge and in both recoveries, recovering private then refresh state leaves the staged replacement if the stage was durable and it applied, the old state if there was no stage, evidence only when it cannot be resolved, none at all for an admitted stage of a run without durability doubt, and accounts and bundles in agreement if they agreed before and the bundle was prepared for the new or the same home |
| `CredentialRefreshRuns.RecoverAmidOthers` | src/sidekick_usages/persistence/credential_refresh.py:464-546 | a crashed refresh amid any operations of other stores and any recoveries, all under any guards and faults: every durable map is the one before it, one operation applied to it or the evidence recovered into it; a last recovery under the pending guard leaves no transaction, and evidence still there goes if and only if nothing stands in the way of its stage |
| `CredentialRefreshCoordinator.Coordinator.FinishFailure` | src/sidekick_usages/credentials/refresh.py:241-258 | a failed exchange never touches newer durable credentials and reports success for them; otherwise exactly its failure is recorded |
| `CredentialRefreshCoordinator.Coordinator.RefreshStable` | src/sidekick_usages/credentials/refresh.py:182-239 | it exchanges if and only if it is forced, nothing was observed or the lease holds what was observed; without an exchange no account changes, with one the durable accounts change by its own answer alone; undisturbed it returns, says which and leaves no evidence |
| `CredentialRefreshCoordinator.Coordinator.Refresh` | src/sidekick_usages/credentials/refresh.py:102-159 | amid commits of other processes before the lease and during the exchange: a supported lease exchanges if and only if it is forced, nothing was observed or it holds what was observed; what the exchange makes of the accounts and what the caller is told follow from the map durable at the merge, and newer or removed credentials are left as found |
| `CredentialRefreshCoordinator.AnswerEffect` | src/sidekick_usages/credentials/refresh.py:182-258 | what a replacement or a failure makes of every account, field by field |
| `RefreshLocks.StepKeepsInv` | src/sidekick_usages/persistence/credential_refresh.py:208-318 | every step of every process, crashes included, keeps locks, phases and evidence in step |
| `RefreshLocks.AtRestIsOrderly` | src/sidekick_usages/persistence/credential_refresh.py:208-318 | a world in which nobody is doing anything satisfies the lock discipline, whatever accounts and evidence there are: every run starts from it |
| `RefreshLocks.LeasesExclude` | src/sidekick_usages/persistence/credential_refresh.py:259-317 | over all interleavings no two leases share a label or a provider's refresh token |
| `RefreshLocks.GrantReadsUnderLocks` | src/sidekick_usages/persistence/credential_refresh.py:280-317 | a lease is granted only on credentials read from the durable accounts while both its locks are held |
| `RefreshLocks.OthersNeverTouchALease` | src/sidekick_usages/persistence/credential_refresh.py:208-232 | no step of another process, recovery included, touches a held lease or its evidence |
| `RefreshLocks.QuiescenceExcludesRefreshes` | src/sidekick_usages/persistence/credential_refresh_artifacts.py:119-149 | no lease and no recovery coexists with a quiescent lifecycle owner |
| `RefreshLocks.QuiescentIff` | src/sidekick_usages/persistence/credential_refresh_artifacts.py:119-149 | a process becomes quiescent exactly when it holds the lifecycle alone and no operation or evidence lock is held |
| `RefreshLocks.AnswerChoosesStep` | src/sidekick_usages/credentials/refresh.py:203-229 | a replacement is staged and a failure persisted, never the other way round |
| `RefreshLocks.FailureKeepsNewer` | src/sidekick_usages/credentials/refresh.py:241-258 | a failed exchange leaves newer credentials and their status alone and reports success |
| `RefreshLocks.ReplacedAtMostOnce` | src/sidekick_usages/credentials/refresh.py:182-239 | among any number of refreshes that saw the same credentials at most one replacement becomes durable, if nobody restores them |
| `RefreshLocks.ReplacementsBounded` | src/sidekick_usages/credentials/refresh.py:182-239 | over any interleaving the credentials are replaced at most once for being there and once more for each step that can bring them back |
| `RefreshLocks.LaterLeasesSkipExchange` | src/sidekick_usages/credentials/refresh.py:190-203 | every lease granted after the replacement to a caller that saw the old credentials and is not forced makes no exchange and succeeds |
| `RefreshLocks.RestoredCanBeReplacedAgain` | src/sidekick_usages/credentials/refresh.py:190-203 | the bound is reached: two refreshes that both saw the same credentials each durably replace them when a third process writes them back in between |
| `CredentialRefreshSteps.GrantIsBeginIntent` | src/sidekick_usages/persistence/credential_refresh.py:280-306 | a lease is granted in the interleaving exactly when the log begins an intent, and the evidence is the same afterwards |
| `CredentialRefreshSteps.ChoiceIsStep` | src/sidekick_usages/credentials/refresh.py:190-203 | with its lease the coordinator exchanges exactly when the interleaving enables the exchange, and skips exactly when it enables skipping |
| `CredentialRefreshSteps.StageIsWriteStage` | src/sidekick_usages/persistence/credential_refresh.py:343-368 | writing the stage in the log is the step that writes it |
| `CredentialRefreshSteps.MergeIsMergeStaged` | src/sidekick_usages/persistence/credential_refresh.py:514-546 | merging a stage in the interleaving leaves the accounts that the log's merge leaves |
| `CredentialRefreshSteps.FailureIsPersistFailure` | src/sidekick_usages/persistence/credential_refresh.py:446-462 | persisting a failure leaves the accounts that the log's failure merge leaves |
| `CredentialRefreshSteps.RecoveryIsRecoverDirectory` | src/sidekick_usages/persistence/credential_refresh.py:464-512 | recovering a free directory leaves the recovered accounts and drops the directory in both |
| `PersistenceFilesystem.Directory.FindLinkPartner` | src/sidekick_usages/persistence/_recovery.py:76-121 | finds the other name of a two-link inode if and only if the two are a mapped publication pair |
| `PersistenceFilesystem.Directory.Read` | src/sidekick_usages/persistence/filesystem_access.py:224-271 | a complete read is of a single-link file; a two-link file is read only as an interrupted publication |
| `PersistenceFilesystem.Directory.CreateCandidate` | src/sidekick_usages/persistence/filesystem.py:292-326 | a fresh temporary under a free name, or nothing but at most that one temporary left behind |
| `PersistenceFilesystem.Directory.ReplacementMayHaveCommitted` | src/sidekick_usages/persistence/filesystem.py:541-563 | undisturbed it answers no if and only if the authority is still the expected one; otherwise it never answers no wrongly |
| `PersistenceFilesystem.Directory.HandleFailedPublication` | src/sidekick_usages/persistence/filesystem.py:419-435 | after a failed link: the same bytes under the final name are durability doubt and stay, other bytes are a conflict, and no final is a failed write |
| `PersistenceFilesystem.Directory.CommitPayload` | src/sidekick_usages/persistence/filesystem.py:219-290 | normal return means exactly the payload under the candidate's identity, made durable; source-changed and replace-failed mean this call did not change the authority, even if replace errs after taking effect; all other doubt is durability-uncertain |
| `PersistenceFilesystem.Directory.PublishContentAddressed` | src/sidekick_usages/persistence/filesystem.py:328-387 | an existing final is never replaced: the same bytes are reused and others are a conflict; a moved authority publishes nothing; the tree is the old one, with our temporary, with both names of one file, or with the final alone, which was made durable |
| `PersistenceFilesystem.Directory.VerifyPublished` | src/sidekick_usages/persistence/filesystem.py:437-463 | normal return means the final was made durable before the temporary went, and is the candidate, alone |
| `PersistenceFilesystem.Directory.CompleteInterruptedPublication` | src/sidekick_usages/persistence/_recovery.py:212-262 | undisturbed it completes a validated pair; it removes nothing but the temporary |
| `PersistenceFilesystem.Directory.RecoverOrDiscardTemporary` | src/sidekick_usages/persistence/_recovery.py:264-294 | undisturbed it removes the temporary if and only if it is single-link or completable; otherwise nothing is touched |
| `PersistenceFilesystem.Directory.RecoverTemporaries` | src/sidekick_usages/persistence/migrations/account.py:553-574 | recovery of all temporaries never removes or changes another name, and changes nothing when there are none |
| `PersistenceFilesystem.LinkedIsRecoverableIff` | src/sidekick_usages/persistence/_recovery.py:163-210 | an interruption between link and removal can be recovered if and only if the kind is mapped and its bytes are canonical |
| `PersistenceFilesystem.VersionTwoSnapshotStaysInterrupted` | src/sidekick_usages/persistence/_recovery.py:163-185 | a version-two snapshot interrupted there blocks its own recovery |
| `PersistenceFilesystem.PublishThroughCrashes` | src/sidekick_usages/persistence/filesystem.py:328-463 | from any directory, under any expected source and racing publisher, publication and any number of recoveries stopped anywhere: no name but temporaries is removed or changed, and for mapped kinds one undisturbed recovery leaves no temporary and either the tree it met or that with the single-link final alone |
| `ArtifactGrammar.ParseOfPrint` | src/sidekick_usages/persistence/artifacts.py:155-238 | every name printed for a safe authority basename parses back to its kind, digest and purpose |
| `ArtifactGrammar.ParseIsSound` | src/sidekick_usages/persistence/artifacts.py:181-238 | whatever parses was printed, and is classified as what it says |
| `ArtifactGrammar.PrintIsInjective` | src/sidekick_usages/persistence/artifacts.py:155-179 | two managed names that print alike are the same: no string has two classifications |
| `ArtifactGrammar.PrintIsSafe` | src/sidekick_usages/persistence/artifacts.py:241-254 | every printed name is itself a safe basename |
| `ArtifactGrammar.PrintedBackup` | src/sidekick_usages/persistence/artifacts.py:159-166 | the names of the three kinds of backup |
| `ArtifactGrammar.PrintedOthers` | src/sidekick_usages/persistence/artifacts.py:154-173 | the names of authority, lock and receipt |
| `ArtifactGrammar.PrintedTemporary` | src/sidekick_usages/persistence/artifacts.py:174-179 | the name of a temporary of each purpose |
| `ArtifactGrammar.SafeBasenames` | src/sidekick_usages/persistence/artifacts.py:241-254 | basenames that are safe and basenames that are not |
| `ArtifactGrammar.CharactersAre` | src/sidekick_usages/persistence/artifacts.py:118-147 | digests and tokens are lower-case hexadecimal; control characters are the two control blocks |
| `PrivateBundlePaths.NestedLoops` | src/sidekick_usages/persistence/private_bundle_paths.py:94-101 | the nested loops accept if and only if no key sequence is a prefix of another |
| `PrivateBundlePaths.SpellingLoops` | src/sidekick_usages/persistence/private_bundle_paths.py:102-114 | the spelling map accepts if and only if shared key prefixes are spelled identically |
| `PrivateBundlePaths.RequirePortableUnique` | src/sidekick_usages/persistence/private_bundle_paths.py:79-114 | the whole check is exact, for every key function |
| `CredentialOwnership.FieldConflicts` | src/sidekick_usages/persistence/credential_ownership.py:32-62 | the quadratic scan with its handled set equals the reference grouping: classes of two or more, once each, in first-occurrence order |
| `CredentialOwnership.ReportedIffOpens` | src/sidekick_usages/persistence/credential_ownership.py:32-62 | a class is reported if and only if some record opens it |
| `CredentialOwnership.ConflictIffDuplicate` | src/sidekick_usages/persistence/credential_ownership.py:32-62 | there is a conflict if and only if two records share an owner |
| `CredentialOwnership.OpeningsAreDisjoint` | src/sidekick_usages/persistence/credential_ownership.py:32-62 | no record is in two reported classes |
| `CredentialOwnership.RejectDuplicateCredentialOwnership` | src/sidekick_usages/persistence/credential_ownership.py:75-87 | rejection happens if and only if some class exists, and names the first |
| `Assessment.FirstRecoveryArtifact` | src/sidekick_usages/persistence/assessment.py:379-407 | finds the first recovery artifact by kind and name, or none exists |
| `Assessment.OrderedIssues` | src/sidekick_usages/persistence/assessment.py:490-505 | the ordered findings are exactly the findings, without duplicates, strictly increasing |
| `Assessment.AssessPersistence` | src/sidekick_usages/persistence/assessment.py:543-590 | the verdict is determined by the set of findings |
| `Assessment.VerdictIgnoresOrder` | src/sidekick_usages/persistence/assessment.py:543-590 | the result does not depend on the order of observation |
| `Assessment.CodeIsMostUrgent` | src/sidekick_usages/persistence/assessment.py:490-505 | the code is the most urgent of all findings |
| `Assessment.CodeMeans` | src/sidekick_usages/persistence/assessment.py:214-487 | for every code exactly the evidence under which it is reported |
| `Assessment.UrgencyOrder` | src/sidekick_usages/persistence/assessment.py:105-132 | the order of the codes and of the kinds of artifact |
| `Assessment.GateIff` | src/sidekick_usages/persistence/assessment.py:543-590 | writing is allowed if and only if the authority is absent or current, every artifact of ours is valid, nothing is temporary or interrupted, and an absent authority left nothing behind and no prototype to import |
| `Retry.ProvenConnectIff` | src/sidekick_usages/http/retry.py:369-394 | only a connect timeout below retry wrappers and at most one proxy counts as proof that nothing was sent |
| `Retry.RetriesIff` | src/sidekick_usages/http/retry.py:145-304 | for every operation and result, exactly what may be tried again |
| `Retry.RejectsRetryIff` | src/sidekick_usages/http/retry.py:364-366 | the server forbids a retry exactly by the word false in letters of any case |
| `Retry.StripTrims` | src/sidekick_usages/http/retry.py:316 | white space goes at both ends and nowhere else |
| `Retry.DelayIsCappedValue` | src/sidekick_usages/http/retry.py:322-330 | length and text comparison give the capped number for digit strings of any length and any leading zeros (section 10.2.3 of RFC 9110) |
| `Retry.ParseRetryAfter` | src/sidekick_usages/http/retry.py:307-347 | digits of any length give their number up to the cap, anything else is rounded up from the date and kept between zero and the cap, and no header or date gives nothing |
| `Retry.RetryDelay` | src/sidekick_usages/http/retry.py:279-299 | a delay is chosen if and only if an attempt is left and it is below the budget left; it is what was asked for or within the backoff of its attempt |
| `Retry.BackoffDoubles` | src/sidekick_usages/http/retry.py:288-292 | the backoff doubles from half a second up to its cap |
| `Retry.EndingIs` | src/sidekick_usages/http/retry.py:145-213 | the response of the last attempt, if it is final, or what that attempt met, with the number of attempts and the latest guidance |
| `Retry.LastRetryAfterIs` | src/sidekick_usages/http/retry.py:163-185 | the guidance kept is the latest valid one |
| `Retry.AtMostOneReached` | src/sidekick_usages/http/retry.py:263-277 | for both refreshes and the Codex heartbeat only the last attempt can have reached the server |
| `Retry.Execute` | src/sidekick_usages/http/retry.py:145-213 | at most three attempts, each begun with budget left, each retry allowed by its policy, the ending and guidance of the last attempt, and less than the budget slept if the clock is monotone; if only sleeping takes time, each attempt has exactly the budget less what was slept, and the call stops early only when the policy forbids a retry or its delay does not fit |

## Left out

- Native platform code, permissions, mounts and fsync: create, link, rename, unlink and exact reads are atomic.
- Writes below one private file: a bundle write, a staged install, a delete and a directory destroy are one step each in the transaction protocols; temporaries are modelled only in `PersistenceFilesystem.dfy`.
- Identities of private files: the private tree maps paths to bytes, so a compare-and-swap on a private file compares bytes; the authority keeps its inode.
- File sizes and size limits: sizes follow from bytes, and the byte bounds are left out.
- CredentialTransactionPlans.ValidateRuntimeDisplaced: the sorted order of the returned homes; the theorems hold for whatever order bundles, files and displaced homes are given in.
- Containment of a home in a displaced one, and presence of a bundle, are on exact names: a file system that folds names is not modelled, while the journal checks compare portable keys.
- JSON text, schemas and base64: an abstract codec that decodes what it encodes, with unique labels and unique credential owners.
- Unicode normalisation, case folding, reserved names and length limits of path components: the portable key is an arbitrary function.
- Outside writers that ignore locks: only as a third authority, a changed guarded source, or a change just before the authority is replaced or a final is linked.
- CredentialTransactionRecovery.Recover: reads of private files do not fail on their own; one that fails between two writes is the failure of the next write.
- AccountStores.AccountStore.CommitCredentials: a store without a private tree replaces the authority without looking at pending private evidence, as the code does, so its preservation of pending transactions is stated for stores with one.
- CredentialRefreshCoordinator.Coordinator.Refresh: one exchange and the preparation of companion state are one answer, a function of the leased account; locks are the subject of `RefreshLocks.dfy`, and what others commit while the provider is asked still decodes.
- RefreshLocks.QuiescenceExcludesRefreshes: the scan over single lock files is one step, and lock timeouts are a process that stops.
- RefreshLocks.ReplacedAtMostOnce: a store operation is one atomic write of the account map; its transaction is the subject of the account store.
- PersistenceFilesystem.Directory.CreateCandidate: a crash does not leave a partly written temporary.
- Retry.Execute: delays are real numbers, header whitespace is ASCII, and the distance of an HTTP date is a parameter.
- Assessment.AssessPersistence: messages, next commands, guidance and account counts are left out; document conversions are parameters.
- Full reset, permission repair and deletion of credential artifacts: sequences of validated removals that would add only easy members.
- Lookups of the account store by token or provider, and deep copies of accounts.
- Provider adapters and companion preparation, HTTP pooling, TLS and proxies, command line, rendering, doctor output, daemon and scheduler scripts, updates and packaging.
- Heartbeat, maintenance margins, expiry classification, Claude transition policy and activity snapshots: short branches.
