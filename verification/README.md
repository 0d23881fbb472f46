# Skydriver control plane: a verified model

Skydriver's control plane is a set of small concurrent protocols over D1 (SQL batches that commit
whole or not at all) and object stores (one request at a time, never atomic with the database), plus a
number of algorithms whose answers other parts rely on. This project models the logic of those
protocols and algorithms in Dafny and proves what they promise, over every run and every input.

How the protocols are modelled:

- One D1 statement or batch is one atomic step, with every `WHERE` guard. Each R2 or provider request
  is a step of its own. A handler is a worker that remembers what it has read so far; any number of
  workers run at once, and a worker may stop for ever after any step. A run is a list of steps.
- The database triggers and unique indexes of `control-plane/migrations` are part of the model. A
  trigger that raises undoes the whole batch.
- A digest is represented by what it digests, a lease owner or a revision id by a fresh number, time by
  an input of the step that reads the clock.
- State that the code rewrites row by row appears twice: as a class whose methods rewrite it statement
  by statement, and as a function from old to new tables. The methods' contracts equate the two, and
  the invariants are proved about the function. What a step leaves in the columns, and when it may be taken, is
  stated again beside it without the functions that compute it, so that a step that does nothing meets none of it.

| files | subject |
|---|---|
| `CatalogTables`, `CatalogProtocol`, `CatalogInvariant`, `CatalogSafety`, `CatalogLeases`, `CatalogClaims`, `CatalogCollapse`, `CatalogEffects`, `CatalogStore` | catalog materialization: outbox, leases, immutable objects, publication, collapse, garbage collection |
| `CheckpointAssembly` | grouping entry rows into a checkpoint |
| `NamespaceTables`, `NamespaceProtocol`, `NamespaceInvariant`, `NamespaceMounts`, `NamespaceSafety`, `NamespaceEffects`, `NamespaceAdmission`, `NamespaceProgress`, `NamespaceReplacements`, `NamespacePlans`, `NamespaceRuns`, `NamespaceSwap`, `NamespaceNest`, `NamespaceStore` | the directory tree, its optimistic mutations, mount points and drivers |
| `DirectoryPaging` | revision-pinned listing under concurrent mutations |
| `Authorization`, `TokenAttenuation`, `CatalogDelivery` | the two authorization evaluators and bulk delivery |
| `AliyunTraversal`, `DrivePaths`, `ProviderScan`, `ScanSchedule`, `ScanOnce`, `InventoryEndToEnd` | the resumable traversal, which files it reports under which keys, the fenced scan, its schedule, when it counts a page once, and scan and traversal together |
| `CanonicalRequest`, `CanonicalText` | the canonical request of a presigned URL |
| `UnicodeText`, `TextOrder`, `Separators`, `Sorting`, `ActivityPage` | prefix ranges, byte order, cutting and joining, merge paging |
| `CredentialRefresh`, `CredentialProtocol`, `CredentialSafety`, `CredentialBackoff`, `CredentialEffects`, `CredentialRuns` | credential renewal and replacement under fencing tokens |
| `LoginThrottle`, `LoginAdmission`, `TransferMetrics`, `MetricColumns` | rate limiting, metric rollups |

## Where the code falls short of its promise

These are properties that turned out false of the code as it is. For each a lemma or a concrete run shows the
failing case, and the same or another lemma says exactly when the code is right.

- A removal deletes an entry by name and revision, but retires the file or directory that the handler
  loaded earlier. If the entry was meanwhile replaced by another of the same revision, the wrong entry
  goes and its subject is orphaned. `NamespaceSwap.SwapHappens` is a run that does it to a file. Done to a
  directory it breaks the mounts: in `NamespaceNest.MountsNest` the directory above looks empty, is mounted,
  and two explicit mounts lie on one path. `NamespaceSafety.DirectoriesKeptExactly` says for every batch that
  it keeps rows, links, mounts and chains of directories in order exactly when the entry it deletes and its
  own subject are the same wherever one of the two is an active directory, which is the hypothesis of the
  mount promises; `NamespaceSafety.RemovalIsExactlyFaithful` says when directories and files both stay in order.
- `UNIQUE (filesystem_id, parent_id, name)` also covers tombstoned rows, so the name of a removed
  directory can never be used again below its parent by mkdir or a directory rename: such a batch commits only
  while no row, live or removed, holds that name there (`NamespaceSafety.RemovedNameIsGone`).
- `change_is_safe` lets the unchanged driver of a populated mount point through, but the batch then
  aborts, because a mount row may only be inserted on an empty directory
  (`NamespaceSafety.ReplacementRefusedExactly`).
- `in_subtree` accepts a token root that no directory row backs; the SQL evaluator does not
  (`Authorization.SubtreeIsClosureWhenListed`, `Authorization.DanglingRootIsAccepted`).
- The inventory fence is the cursor value itself, so a page counts again once the cursor comes back to where it
  was listed from: at once, when a page leads to its own cursor (`ScanOnce.RepeatHappens`), or after other pages
  (`ScanOnce.CycleHappens`). `ScanOnce.CountedOnceExactly` says that a generation counts each page at most once
  exactly when no committed page leads to its own cursor or to one committed before in the generation, which
  `run` could check before its batch. The Aliyun traversal never repeats a cursor.
- Keys of a drive's files do not distinguish a slash in a name from a folder, and a top folder without a name leaves
  no trace (`DrivePaths.SlashesCoincide`). Two files have the same key exactly when their paths, without empty
  names in front, are the same once every name is cut at its own slashes (`DrivePaths.KeysCoincideExactly`); with
  names that are not empty and have no slash keys are never shared (`DrivePaths.KeysTellFilesApart`).
- Small transfers are meant to be sampled at ten percent with weight ten (`docs/management-plane-v1.md:168`). The code
  keeps those whose operation ends in hexadecimal digit zero or ten, two of sixteen, so sixteen operations that
  differ in their last digit weigh twenty. Weights stand for the transfers exactly when these are large
  (`MetricColumns.SmallTransfersAreOverstated`).
- The canonical URI does not distinguish a bucket and key in path style from a key in host style that is the
  bucket, a slash and the key, and coincides across styles in no other case (`CanonicalText.StylesCoincide`).
- Credential replacement and renewal recognise their own commit by revision and second. A replacement reports
  success without its credential being stored exactly when another was stored as that revision in that second
  and the driver's revision is the loaded one or the next (`CredentialSafety.ReplacementLostExactly`), and a renewal that stored nothing reports success exactly when
  the row is ready and was last completed at its revision in its second
  (`CredentialSafety.RenewalMistakenExactly`, `CredentialSafety.RenewalMistakenWithoutCoincidence`). The other
  credential may come from an operator or from another renewal; `CredentialRuns` has a run of each kind.
- A superseded worker's commit or failure should change nothing. It does when its token is live all the same, for
  one of two reasons (`CredentialSafety.SupersededCommitExactly`, `CredentialSafety.SupersededFailureExactly`).
  - `load_claimed` asks for any live claim by the worker's own clock, so a slow worker is handed the claim that
    another has taken since, and may fail or commit it. `CredentialSafety.LoadFindsOwnExactly` says that it
    finds its own token exactly when nobody claimed in between; in `CredentialRuns.SlowLoadEndsOtherClaim` it
    ends the other's claim.
  - Deleting and re-creating a refresh row starts its tokens over, so an old token becomes live again.
    A failure then ends a newer claim (`CredentialRuns.StaleFailureEndsNewClaim`), and with coincident
    replacements a commit completes one without storing anything (`CredentialRuns.StaleCommitMovesNewRow`).
    The statements allow this, but only if a driver's replacements are of both kinds, with and without an
    issuer (`CredentialSafety.OneKindNeverDeletes`); those of each present driver kind are all of one
    (`control-plane/src/driver_authorization.rs:83-154`).

## Model

| member | source | states |
|---|---|---|
| CatalogSafety.HeadIsDeliverable | control-plane/src/vfs_catalog_materialization.rs:309-446 | in every reachable state, with any interleaving of workers, crashes, expiries, mutations and cleanups, each catalog head names a published revision of its filesystem whose live artifact equals the recorded receipt and whose R2 object holds exactly those bytes, at that version, under that key |
| CatalogSafety.HeadStep | control-plane/src/vfs_catalog_materialization.rs:956-1103 | a step moves a head only as a publication under an unexpired lease, to the current mutation head, strictly forward, with the row's revision raised by one |
| CatalogSafety.HeadNeverMovesBack | control-plane/src/vfs_catalog_materialization.rs:1046-1064 | over any continuation of any run a head never disappears and never names an older revision |
| CatalogSafety.RunIsForward | control-plane/src/vfs_catalog_materialization.rs:133-157 | published receipts are final, collapses stay, heads move forward, over any continuation of any run |
| CatalogSafety.DeliveredObjectIsStable | control-plane/src/vfs_catalog_materialization.rs:1413-1518 | while a head names the same revision, key, bytes and R2 version of its object do not change, whatever is retired, collected or retried meanwhile |
| CatalogSafety.ResolvedOnce | control-plane/src/vfs_catalog_materialization.rs:1109-1219 | a done outbox row is published or collapsed but not both; a collapsed revision is older than a published one of its filesystem and than its head |
| CatalogSafety.CollapsedIsNeverPublished | control-plane/src/vfs_catalog_materialization.rs:1132-1158 | a late worker can never publish a collapsed revision |
| CatalogCollapse.CollapseStepLeaves | control-plane/src/vfs_catalog_materialization.rs:1131-1219 | the same rows as a step of the protocol: what a collapse run leaves of collapses, outbox rows and artifacts, row by row, and that objects stay |
| CatalogCollapse.CollapseRuns | control-plane/src/vfs_catalog_materialization.rs:1131-1219 | a collapsing worker is never refused: its run collapses the oldest 500 of the backlog, or all of it |
| CatalogCollapse.DoneExactly | control-plane/src/vfs_catalog_materialization.rs:1109-1219 | in every run an outbox row is finished exactly when its revision is published or collapsed, so the limits of one run leave no collapsed revision open |
| CatalogCollapse.DoneIsFinal | control-plane/src/vfs_catalog_materialization.rs:956-1085 | a finished row is never touched again, over any continuation of any run |
| CatalogCollapse.BacklogIsCleared | control-plane/src/vfs_catalog_materialization.rs:1131-1219 | after one run over at most 500 older pending revisions every older revision of the filesystem is finished, the pending ones collapsed |
| CatalogClaims.ClaimsExactlyWhenOpen | control-plane/src/vfs_catalog_materialization.rs:187-228 | a claim succeeds exactly when the revision is pending and the newest and the row is waiting past its retry time or claimed past its lease; it then has a new owner, a lease of 300 seconds, and one attempt more |
| CatalogClaims.SelectsExactlyWhenOpen | control-plane/src/vfs_catalog_materialization.rs:159-186 | a row is selected exactly under the same conditions and if nothing has collapsed it |
| CatalogClaims.RowRests | control-plane/src/vfs_catalog_materialization.rs:159-228 | in every run a row stays as it is until a claim after its time, a collapse, or a step of the worker that holds its lease: no claim comes before the retry time or lease end |
| CatalogClaims.ReleaseSetsRetry | control-plane/src/vfs_catalog_materialization.rs:1325-1361 | a release by the lease holder leaves the row waiting, open at once or one minute to six hours and a minute later, with its attempts |
| CatalogClaims.UnloadableIsGivenBack | control-plane/src/vfs_catalog_materialization.rs:229-269 | a claim that could not be loaded is released, for a retry exactly while the revision is still the newest |
| CatalogClaims.WaitDoubles | control-plane/src/vfs_catalog_materialization.rs:1358-1361 | each attempt up to the ninth doubles the wait of the one before, from one minute on |
| CatalogEffects.MutationIsWanted | control-plane/src/vfs_namespace_mutation.rs:806-835 | a mutation makes a new pending revision that is the newest, claimable at once, and touches no other revision or filesystem |
| CatalogEffects.LoadsExactlyWhenCurrent | control-plane/src/vfs_catalog_materialization.rs:271-307 | a claim is gone on with exactly while its lease is live, its revision pending and newest, and its root the live one |
| CatalogEffects.StoresOnlyRecorded | control-plane/src/vfs_catalog_materialization.rs:698-734 | a worker goes on to store its object exactly when the row it reads back carries its bytes in the writing or staged state |
| CatalogEffects.PutNeverOverwrites | control-plane/src/vfs_catalog_materialization.rs:1477-1518 | a put stores a new version under a free key and else changes nothing |
| CatalogEffects.ConflictNeedsTheSameBytes | control-plane/src/vfs_catalog_materialization.rs:1495-1518 | on a taken key the worker goes on exactly with the version that is there, if its bytes are the same |
| CatalogEffects.PublishesOnlyStaged | control-plane/src/vfs_catalog_materialization.rs:736-773 | a worker goes on to publish exactly when the row it reads back is staged with its bytes and version |
| CatalogEffects.PublicationLeaves | control-plane/src/vfs_catalog_materialization.rs:956-1085 | under a live lease, with the newest pending revision and its staged version, the batch publishes revision, artifact, row and head and nothing else, unless the head clock is ahead |
| CatalogEffects.NothingElsePublishes | control-plane/src/vfs_catalog_materialization.rs:956-1085 | without one of these conditions heads, revisions and rows stay |
| CatalogEffects.DoneExactlyWhenPublished | control-plane/src/vfs_catalog_materialization.rs:1085-1103 | a worker takes itself as done exactly when the head names its revision, published, finished and live |
| CatalogEffects.SupersededGivesUp | control-plane/src/vfs_catalog_materialization.rs:1281-1323 | a superseded worker orphans its staged artifact exactly when no head of either kind names the revision |
| CatalogEffects.RetirementGivesUp | control-plane/src/vfs_catalog_materialization.rs:1221-1279 | retirement orphans up to 100 live artifacts that no head names, at its time, and touches nothing else |
| CatalogEffects.CollectsExactly | control-plane/src/vfs_catalog_materialization.rs:1413-1445 | an artifact is selected for collection exactly when it has been orphaned for a day, or unfinished for a day under no mutation head, and no head names it |
| CatalogEffects.CollectionTakesBoth | control-plane/src/vfs_catalog_materialization.rs:1446-1465 | an undisturbed collection takes away the object and its row and nothing else |
| CatalogInvariant.ExecuteKeeps | control-plane/src/vfs_catalog_materialization.rs:133-157 | every atomic step of anybody keeps the system invariant: rows, bucket and the memory of all workers in flight |
| CatalogInvariant.PublishKeepsTables | control-plane/src/vfs_catalog_materialization.rs:956-1085 | the publication batch keeps every row in order and makes nothing reachable that was not |
| CatalogInvariant.MutateKeepsTables | control-plane/src/vfs_namespace_mutation.rs:806-835 | a new mutation head keeps every row in order and only takes reachability away from older revisions |
| CatalogInvariant.CollapsedIsUnreachable | control-plane/migrations/0052_vfs_catalog_checkpoints.sql:138-159 | a collapsed revision is under no head, so the trigger that protects reachable artifacts never fires in the collapse batch |
| CatalogInvariant.DeleteObjectKeeps | control-plane/src/vfs_catalog_materialization.rs:1446-1448 | deleting the object of a selected artifact breaks no receipt that is still reachable, even if the selection is old |
| CatalogInvariant.PutKeeps | control-plane/src/vfs_catalog_materialization.rs:1477-1494 | a create-only put never disturbs a recorded version |
| CatalogLeases.LeasesAlwaysOk | control-plane/src/vfs_catalog_materialization.rs:187-228 | in every run no two workers hold the same lease owner |
| CatalogLeases.OnlyTheLeaseHolderPublishes | control-plane/src/vfs_catalog_materialization.rs:956-1085 | when a head moves, the worker that moved it is the only one with that row's lease |
| CatalogLeases.UndisturbedRetryPublishes | control-plane/src/vfs_catalog_materialization.rs:309-446 | whatever crashed attempts left behind, one undisturbed pass over the mutation head with the same checkpoint bytes publishes it |
| CatalogStore.BatchIsPublish | control-plane/src/vfs_catalog_materialization.rs:956-1085 | the statements of the publication batch with their triggers compose to one step: it aborts exactly when the head's clock would go back, the head would be set to itself, or a published revision was staged as another object |
| CatalogStore.CatalogDatabase.Publish | control-plane/src/vfs_catalog_materialization.rs:946-1085 | the batch in place, statement by statement, with undo: the new tables and the outcome are those of that step, and the rows stay in order |
| CatalogStore.CatalogDatabase.ClaimLatest | control-plane/src/vfs_catalog_materialization.rs:187-269 | claim, load and the release of an unloadable claim: the new tables and the loaded candidate |
| CatalogStore.CatalogDatabase.RecordWriting | control-plane/src/vfs_catalog_materialization.rs:698-734 | the intent is recorded, and the call succeeds exactly when no other bytes are on record for the revision |
| CatalogStore.CatalogDatabase.MarkStaged | control-plane/src/vfs_catalog_materialization.rs:736-773 | the version is recorded, and the call succeeds exactly when the row then carries this receipt |
| CatalogStore.CatalogDatabase.CollapseHistorical | control-plane/src/vfs_catalog_materialization.rs:1131-1219 | the oldest 500 collapsible revisions are collapsed into the head; the first 500 open rows of its collapsed revisions end finished, without owner, lease or retry time, with the attempts they had; a staged artifact of theirs ends orphaned; every other row stays, and none of the head stays open unless 500 were settled |
| CatalogStore.CatalogDatabase.DeleteArtifact | control-plane/src/vfs_catalog_materialization.rs:1449-1465 | the row goes only in the selected state and only if no head names it |
| CatalogStore.CatalogDatabase.Release | control-plane/src/vfs_catalog_materialization.rs:1325-1361 | only the lease holder's claim is released, with the retry delay when it is to be retried |
| CatalogStore.CatalogDatabase.MarkOrphaned | control-plane/src/vfs_catalog_materialization.rs:1281-1323 | a staged artifact is orphaned only when no head names its revision |
| CatalogTables.RetryDelay | control-plane/src/vfs_catalog_materialization.rs:1358-1361 | the delay lies between one minute and six hours and a minute |
| CheckpointAssembly.AssembleCheckpoint | control-plane/src/vfs_catalog_materialization.rs:643-696 | fails on an invalid kind, else on an entry of an unlisted directory, and otherwise gives each directory exactly its entries in row order (a repeated directory only the first time) |
| CheckpointAssembly.NothingLostOrReordered | control-plane/src/vfs_catalog_materialization.rs:448-492 | on rows in the order of the two queries the concatenated lists are exactly the entry rows |
| CheckpointAssembly.EntriesShowRows | control-plane/src/vfs_catalog_materialization.rs:653-668 | entry k of the concatenated lists has the name, payload and kind of row k |
| CheckpointAssembly.ListShowsOwnRows | control-plane/src/vfs_catalog_materialization.rs:653-668 | each directory lists exactly its own rows in row order, whatever the order of the queries |
| CheckpointAssembly.Group | control-plane/src/vfs_catalog_materialization.rs:648-669 | the map built by the first loop holds for each directory its converted entries |
| NamespaceSafety.MountsNeverNest | control-plane/src/vfs_mounts.rs:28-175 | in every run of mkdir, remove, rename, put and driver replacement, with handlers interleaved at every read, no path to the root carries two explicit mounts; given that a batch deletes its own subject's entry wherever that entry or subject is an active directory, whatever is swapped among files |
| NamespaceSafety.DriversAreResolved | control-plane/src/vfs_mounts.rs:28-84 | every active directory's stored driver is the one found by walking up to the nearest mount or the root default; given that a batch deletes its own subject's entry wherever that entry or subject is an active directory |
| NamespaceSafety.MountsChangeDriver | control-plane/src/vfs_mounts.rs:73-83 | a mount lies directly on the root's storage and has another driver; given that a batch deletes its own subject's entry wherever that entry or subject is an active directory |
| NamespaceSafety.DirectoriesAreLinked | control-plane/migrations/0021_vfs_v2_core.sql:539-629 | an entry names a directory exactly when that directory is active with this parent and name, and only active directories have entries; given that a batch deletes its own subject's entry wherever that entry or subject is an active directory |
| NamespaceSafety.FilesAreLinked | control-plane/migrations/0021_vfs_v2_core.sql:539-629 | a file entry names an active file on its directory's driver, an active file has exactly one entry; given that each removal deletes the entry of the subject it loaded |
| NamespaceSafety.DirectoriesKeptExactly | control-plane/src/vfs_namespace_mutation.rs:389-804 | every committed batch keeps rows, links, mounts and chains of directories in order if and only if the entry it deletes and its subject are the same wherever one of the two is an active directory |
| NamespaceSafety.FaithfulRunsAreCareful | control-plane/src/vfs_namespace_mutation.rs:667-723 | a run whose removals all delete the entry of the subject they loaded meets the condition of the mount promises, renames included |
| NamespaceNest.MountsNest | control-plane/src/vfs_namespace_mutation.rs:152-217 | a run from the bootstrap after which two active explicit mounts lie on one path to the root |
| NamespaceSafety.AnswerNeverGoesStale | control-plane/src/vfs_policy_management.rs:414-487 | the relationship a handler computed before its batch is still the right one when the batch runs, as long as the directory is active; given that a batch deletes its own subject's entry wherever that entry or subject is an active directory |
| NamespaceSafety.OneReplacementPerRevision | control-plane/migrations/0026_vfs_v2_policy_management.sql:150-158 | of all replacements that loaded one placement revision at most one ever commits |
| NamespaceSafety.ReplacementRefusedExactly | control-plane/src/vfs_mounts.rs:87-124 | a replacement that passed both checks is refused exactly when it would write an explicit mount on a populated directory |
| NamespaceSafety.RemovalIsExactlyFaithful | control-plane/src/vfs_namespace_mutation.rs:667-723 | a committed removal keeps directories and files in order if and only if the deleted entry still named the subject the handler loaded |
| NamespaceSwap.SwapHappens | control-plane/src/vfs_namespace_mutation.rs:152-217 | a run in which a removal deletes the entry of another file |
| NamespaceSafety.RemovedNameIsGone | control-plane/migrations/0021_vfs_v2_core.sql:110-113 | after a directory is removed no mkdir and no directory rename to its name and parent ever commits, swapped removals or not |
| NamespaceSafety.AlwaysRooted | control-plane/migrations/0021_vfs_v2_core.sql:110-163 | in every run, whatever is swapped, each directory row has a chain to the root and no two rows share parent and name |
| NamespaceSafety.ExecuteKeeps | control-plane/src/vfs_namespace_mutation.rs:130-342 | every atomic step keeps directories, plans and pending replacements in order; given that a batch deletes its own subject's entry wherever that entry or subject is an active directory |
| NamespaceInvariant.RenameDirectoryKeeps | control-plane/src/vfs_namespace_mutation.rs:283-294 | same effective driver and a subject that is no mount are enough for the whole moved subtree, mounts inside it included |
| NamespaceInvariant.MkdirKeeps | control-plane/src/vfs_directory_management.rs:276-335 | the new directory inherits its parent's driver and is linked from it |
| NamespaceInvariant.CommitKeepsDirectories | control-plane/src/vfs_namespace_mutation.rs:389-804 | every mutation batch that takes no directory's entry for another's keeps every row, link, mount and chain in order |
| NamespaceInvariant.CommitKeeps | control-plane/src/vfs_namespace_mutation.rs:389-804 | every mutation batch that removes its own subject keeps directories and files in order; how links, subjects and revisions move is said by the rows of NamespaceEffects |
| NamespaceEffects.CommitLinks | control-plane/src/vfs_namespace_mutation.rs:389-804 | a committed batch deletes the entry of its removal or rename, makes at most one entry, and changes no other link |
| NamespaceEffects.CommitLives | control-plane/src/vfs_namespace_mutation.rs:389-804 | mkdir and a new put bring one subject to life that never was, a removal retires its own, and no other file or directory lives or dies |
| NamespaceEffects.CommitRevisions | control-plane/src/vfs_put_commit.rs:1617-1640 | after a rename or a put over it an entry has the loaded revision plus one; no entry loses revisions |
| NamespaceEffects.LinksMoveWithPlan | control-plane/src/vfs_namespace_mutation.rs:531-548 | the revision of a directory's entry moves by one exactly with the batches that plan both ends of it |
| NamespaceEffects.OverwriteRefusesOld | control-plane/src/vfs_put_commit.rs:1617-1640 | after a committed put over an entry no removal, rename or put over of that name with the old revision commits, whatever is planned, and the entry still names the file |
| NamespaceEffects.MovedIsNeverTaken | control-plane/src/vfs_namespace_mutation.rs:155-266 | over any continuation, a request with a revision from before a rename or an overwrite never takes the entry of that subject, wherever it is by then; given that each removal deletes the entry of the subject it loaded |
| NamespaceEffects.RevisionTells | control-plane/src/vfs_namespace_mutation.rs:155-266 | at any two moments of a run the revision of a subject's entry has grown, or the entry is in the same place; on the same condition |
| NamespaceEffects.TakesWhatItLoaded | control-plane/src/vfs_namespace_mutation.rs:155-266 | a request that commits on the entry of a subject finds place and revision as they were when it was loaded; on the same condition |
| NamespaceAdmission.AdmissionTookPlace | control-plane/src/vfs_namespace_mutation.rs:152-302 | in every run whoever plans or commits has found, at some moment before, everything its admission looks for: the entry with this subject and revision, an empty directory, no mount, the same driver |
| NamespaceAdmission.AdmissionGoesOn | control-plane/src/vfs_namespace_mutation.rs:152-302 | a handler goes on exactly when its next read finds what it wants |
| NamespaceProgress.UndisturbedRequestCommits | control-plane/src/vfs_namespace_mutation.rs:130-342 | a handler that nobody disturbs carries through every request that the tree allows up to 32 directories deep: admission, walks, plan and batch refuse nothing else, and links and subjects come and go as the request says |
| NamespaceReplacements.DesiredExactly | control-plane/src/vfs_mounts.rs:28-84 | the root takes its default, a directory inherits its parent's driver, and takes another as a mount exactly when no mount lies above it |
| NamespaceReplacements.SafeExactly | control-plane/src/vfs_mounts.rs:87-124 | a change is safe exactly when the driver stays or the directory has no entry |
| NamespaceReplacements.UndisturbedReplacementCommits | control-plane/src/vfs_policy_management.rs:414-498 | a replacement that nobody disturbs stores the driver with its mount row and a later revision, and nothing else; only a populated mount point is refused |
| NamespaceReplacements.LateDriverIsBootstrapped | control-plane/src/vfs_bootstrap.rs:375-405 | a root that is given its driver later is the root bootstrapped with it |
| NamespaceInvariant.CommitPins | control-plane/src/vfs_namespace_mutation.rs:514-548 | a directory's revision moves with every change of its row or its entries |
| NamespaceInvariant.EmptyHasNoChildren | control-plane/src/vfs_namespace_mutation.rs:875-882 | an active directory hangs below no directory without entries |
| NamespaceInvariant.BootstrapOk | control-plane/src/vfs_bootstrap.rs:375-405 | the bootstrapped root, with or without its driver, is in order |
| NamespaceMounts.OneMountPerPath | control-plane/src/vfs_mounts.rs:28-84 | the local rules on rows imply that no chain carries two mounts |
| NamespaceMounts.StoredIsResolved | control-plane/src/vfs_mounts.rs:28-84 | the local rules on rows imply that stored and resolved driver agree |
| NamespaceMounts.UnderMountShows | control-plane/src/vfs_mounts.rs:39-57 | the recursive nesting query is answered by comparing the parent's driver with the root's |
| NamespaceMounts.EmptySubtree | control-plane/src/vfs_mounts.rs:98-116 | the recursive emptiness query is answered by the directory's own entries |
| NamespaceMounts.PlacementKeeps | control-plane/src/vfs_policy_management.rs:431-498 | a replacement whose relationship still holds keeps the directories in order |
| NamespaceMounts.PlacementKeepsFiles | control-plane/migrations/0071_linux_vfs_mounts.sql:268-297 | a replacement changes no driver that a file lies on |
| NamespaceMounts.CommitKeepsDrivers | control-plane/src/vfs_namespace_mutation.rs:389-804 | no mutation changes a driver or moves a directory to another driver |
| NamespaceMounts.PlacementKeepsDrivers | control-plane/migrations/0071_linux_vfs_mounts.sql:268-297 | a replacement touches neither the parent of an active directory nor the root above one |
| NamespacePlans.PlannedRenameNeverCycles | control-plane/src/vfs_put_commit.rs:1082-1254 | however its reads were interleaved, a planned rename whose fence holds does not go below itself, so the cycle trigger never fires on it |
| NamespacePlans.FencedPlanIsCurrent | control-plane/src/vfs_put_commit.rs:1109-1154 | when the fence holds, every row and entry the planner read is the one of that moment |
| NamespacePlans.PlansAreLinked | control-plane/src/vfs_put_commit.rs:1165-1222 | every directory of a finished plan is named by an entry of its parent in the plan |
| NamespaceStore.NamespaceDatabase.Rename | control-plane/src/vfs_namespace_mutation.rs:389-601 | the batch in place with its triggers and undo, on every reachable tree: outcome and tables are those of the atomic step |
| NamespaceStore.NamespaceDatabase.Remove | control-plane/src/vfs_namespace_mutation.rs:608-804 | the same for removal |
| NamespaceStore.NamespaceDatabase.Mkdir | control-plane/src/vfs_directory_management.rs:215-436 | the same for mkdir: directory row, copied driver row and its trigger, entry row, revisions, the trigger on committing, with undo |
| NamespaceStore.MkdirBatchIsCommit | control-plane/migrations/0025_vfs_v2_directory_create.sql:63-90 | the statements and triggers of a mkdir compose to the atomic step, and refuse exactly when it does |
| NamespaceStore.NamespaceDatabase.Replace | control-plane/src/vfs_policy_management.rs:431-498 | the same for the driver replacement: intent, old rows out, new rows in, mount row, the trigger on committing, with undo |
| NamespaceStore.NamespaceDatabase.HasEntriesBelow | control-plane/migrations/0071_linux_vfs_mounts.sql:282-296 | the recursive emptiness query as a search over a set of seen directories |
| NamespaceStore.NamespaceDatabase.MoveRevisions | control-plane/src/vfs_namespace_mutation.rs:514-549 | the loops over planned directories and links: the fence holds exactly when every directory statement matched, and the result is the bump of all of them |
| NamespaceStore.NamespaceDatabase.IsAtOrAbove | control-plane/migrations/0021_vfs_v2_core.sql:147-163 | the trigger's recursive ancestor query as a loop |
| NamespaceStore.NamespaceDatabase.IsUnderMount | control-plane/migrations/0071_linux_vfs_mounts.sql:221-237 | the recursive nesting query of the mount row's trigger as a loop |
| NamespaceStore.RenameBatchIsCommit | control-plane/migrations/0039_vfs_remove_protocol.sql:138-167 | statements, triggers, fence and receipt of a rename compose to the atomic step, and refuse exactly when it does |
| NamespaceStore.RemoveBatchIsCommit | control-plane/migrations/0039_vfs_remove_protocol.sql:50-79 | the same for removal |
| DirectoryPaging.ListingIsExact | control-plane/src/vfs_directories.rs:74-172 | a client that follows the cursor from the first page to the end has exactly the entries of one revision of the directory, in order and once, whatever mutations came between any two of its reads |
| DirectoryPaging.RevisionPinsEntries | control-plane/src/vfs_namespace_mutation.rs:514-548 | two looks at a directory at the same revision, at any two moments of a run, see the same entries |
| DirectoryPaging.PageReadsOneRevision | control-plane/src/vfs_directories.rs:92-132 | an answered page was read from one revision, which is the cursor's |
| DirectoryPaging.OtherRevisionConflicts | control-plane/src/vfs_directories.rs:92-132 | a page is answered exactly when directory and revision are the cursor's before and after the read |
| DirectoryPaging.PageAnsweredExactly | control-plane/src/vfs_directories.rs:92-132 | a page is answered exactly when the directory is active at the cursor's revision before and after the query |
| DirectoryPaging.QuietListingEnds | control-plane/src/vfs_directories.rs:74-172 | where nothing changes, following the cursor comes to its end with any page size |
| DirectoryPaging.List | control-plane/src/vfs_directories.rs:92-148 | a missing directory is not found, a page is answered exactly when both revisions read are the cursor's, anything else conflicts; a page holds the first `limit` rows, and a next cursor exactly when there was one more, at the last name kept |
| Authorization.InSubtree | control-plane/src/vfs_authorization.rs:201-220 | the loop ends on every graph and answers whether a walk up from the target meets the root |
| Authorization.AclAllows | control-plane/src/vfs_authorization.rs:222-253 | the loop ends on every graph; true exactly when some grant for the action names the principal, or a group that lists it as a member, and lies on a listed directory that the target inherits from; an error exactly when there is none and the way up by inheritance leaves the listed directories or comes back |
| Authorization.AnswerByGrants | control-plane/src/vfs_authorization.rs:222-253 | the same about the specification, which the decision uses |
| Authorization.GroupsAreForMembers | control-plane/src/vfs_authorization.rs:255-260 | a principal in no group is answered as if all grants to groups were deleted |
| Authorization.ClosureByPath | control-plane/src/vfs_access.rs:23-40 | the closure is what a path of parents reaches |
| Authorization.ClosureIsLeast | control-plane/src/vfs_access.rs:23-40 | the closure is contained in every set that holds the start and is closed under one step up |
| Authorization.ClosureIsClosed | control-plane/src/vfs_access.rs:23-40 | the closure itself is closed under one step up |
| Authorization.SubtreeIsClosureWhenListed | control-plane/src/vfs_authorization.rs:201-220 | loop and recursive query agree on a root if and only if it is listed or not met |
| Authorization.DanglingRootIsAccepted | control-plane/src/vfs_authorization.rs:208-213 | a graph on which they differ |
| TokenAttenuation.Authorize | control-plane/src/vfs_authorization.rs:164-199 | the method computes the decision, and allows a request exactly when no reason to deny it holds |
| TokenAttenuation.AllowedExactly | control-plane/src/vfs_authorization.rs:164-199 | allowed is the conjunction of the token conditions and a grant in the closure, which DecidesByFirstReason says without closures |
| TokenAttenuation.DecidesByFirstReason | control-plane/src/vfs_authorization.rs:164-199 | a request is denied for the first of eight reasons that holds, each said in terms of single grants and paths of directories, and allowed when none does |
| TokenAttenuation.AttenuationIsMonotone | control-plane/src/vfs_authorization.rs:164-199 | fewer actions, a deeper root, narrower drivers or snapshot and an earlier end never allow more |
| TokenAttenuation.ChainIsMonotone | control-plane/src/vfs_authorization.rs:164-199 | the same along a whole chain of tokens |
| TokenAttenuation.MeetsIsTransitive | control-plane/src/vfs_authorization.rs:201-220 | subtrees nest despite the cycle guard |
| TokenAttenuation.GrantsOnlyAllow | control-plane/src/vfs_authorization.rs:233-239 | adding grants never takes an allowed request back |
| CatalogDelivery.DeliveryIsAuthorized | control-plane/src/vfs_catalog_delivery.rs:203-333 | when a whole catalog is delivered to a token, the per-directory query authorizes it to list and read every directory reachable through active children, for a filesystem root and for a subtree |
| CatalogDelivery.BoundaryNeedsItsOwnGrant | control-plane/src/vfs_access.rs:31-40 | what does not inherit is authorized by its own grants only, which is why a boundary refuses delivery |
| CatalogDelivery.EvaluatorsAgree | control-plane/src/vfs_access.rs:13-110 | the query and the in-memory loops decide alike when the token's root is listed |
| CatalogDelivery.AuthorizedByGrants | control-plane/src/vfs_access.rs:13-110 | the query authorizes exactly a token in force with all it was issued from, for an active directory at or below its root, with a grant that names its principal or a group of it on a row inherited from |
| CatalogDelivery.EligibleExactly | control-plane/src/vfs_catalog_delivery.rs:203-333 | a catalog is delivered exactly when the head is the content of the filesystem's active root, the per-directory query lets the token list and read its root, and nothing below stops inheriting; given that rows above active ones are active |
| AliyunTraversal.TraversalIsWalk | control-plane/src/driver_inventory.rs:213-302 | wherever the page and object cuts fall, the objects of successive runs concatenate to the recursive walk of the drive, in no more runs than listings plus one; what the walk holds is said by DrivePaths.WalkIsTheFiles |
| AliyunTraversal.TraversalEnds | control-plane/src/driver_inventory.rs:285-297 | runs end: with the complete walk, or at a cursor over the size limit |
| AliyunTraversal.RunStopsAtFirstBound | control-plane/src/driver_inventory.rs:230-302 | a run stops at the first of an empty stack, a hundred objects and eight listings, and fails exactly when what is left exceeds 64 KiB |
| AliyunTraversal.ShortCursorsComplete | control-plane/src/driver_inventory.rs:285-297 | where every cursor fits, every traversal completes |
| DrivePaths.WalkIsTheFiles | control-plane/src/driver_inventory.rs:253-279 | the walk reports exactly the files that lists of folder names lead to: the key is those names and the file's joined by slashes, version and size are the file's |
| DrivePaths.TraversalDeliversTheFiles | control-plane/src/driver_inventory.rs:213-302 | so does every complete traversal, however its runs are cut |
| DrivePaths.WalkCountsFiles | control-plane/src/driver_inventory.rs:253-279 | as many objects as the listings show files, repeated ones as often |
| DrivePaths.KeyCutsToNames | control-plane/src/driver_inventory.rs:259-263 | with names without slashes, cutting a key at its slashes gives the names back |
| DrivePaths.KeysTellFilesApart | control-plane/src/driver_inventory.rs:259-263 | files on different paths of such names have different keys |
| DrivePaths.KeysCoincideExactly | control-plane/src/driver_inventory.rs:259-263 | with any names, when two files have the same key |
| DrivePaths.SlashesCoincide | control-plane/src/driver_inventory.rs:259-263 | two pairs of files that do |
| AliyunTraversal.AdvanceWalks | control-plane/src/driver_inventory.rs:231-279 | one listing outputs the front of what the stack stands for, and fewer listings remain |
| AliyunTraversal.LoopWalks | control-plane/src/driver_inventory.rs:230-284 | the bounded loop outputs the front and leaves the rest, whatever stops it |
| AliyunTraversal.PushedFolders | control-plane/src/driver_inventory.rs:253-279 | pushing a page's folders in reverse makes the stack walk them in order |
| AliyunTraversal.ListFrame | control-plane/src/driver_inventory.rs:231-279 | one round of the loop: the new stack and the collected objects |
| AliyunTraversal.ListAliyunPage | control-plane/src/driver_inventory.rs:213-302 | the loop with its bounds and the cursor limit computes one run, of which RunStopsAtFirstBound says where it stops and DrivePaths what it reports |
| ProviderScan.CompletedScanIsExact | control-plane/src/vfs_provider_inventory.rs:264-322 | when a generation is complete, a key is observed exactly when its last sighting in it was unknown; the counters are those of the committed pages |
| ProviderScan.ResolvedOnlyByProof | control-plane/src/vfs_provider_inventory.rs:272-301 | a key stops being observed only by a known sighting or a completed generation that never saw it |
| ProviderScan.OvertakenChangesNothing | control-plane/src/vfs_provider_inventory.rs:319-322 | an overtaken worker's commit or error changes nothing |
| ProviderScan.SightingsKeepKey | control-plane/src/vfs_provider_inventory.rs:267-281 | what the evidence of a key means survives any page of sightings |
| ProviderScan.ScanDatabase.Commit | control-plane/src/vfs_provider_inventory.rs:264-322 | the loop over a page and its fenced batch, in place |
| ProviderScan.RunKeeps | control-plane/src/vfs_provider_inventory.rs:106-171 | every run keeps rows, evidence and workers in order; the schedule column is empty exactly when unsupported |
| ScanSchedule.FinishedScanRests | control-plane/src/vfs_provider_inventory.rs:302-322 | a complete drive is left alone for a day and a failed one until its retry time, one minute to six hours and a minute, row and evidence unchanged in every run, unless it is refreshed or given up; then it is selected |
| ScanSchedule.SelectsExactlyWhenDue | control-plane/src/vfs_provider_inventory.rs:174-188 | a row that is not unsupported is selected exactly from the time of its next scan on |
| ScanSchedule.StartsExactlyWhenSame | control-plane/src/vfs_provider_inventory.rs:224-234 | a selected row that is still the same starts the next generation with nothing counted |
| ScanSchedule.FencedPageLeaves | control-plane/src/vfs_provider_inventory.rs:264-322 | a fenced page adds its objects and those without an owner, moves the cursor, and leaves of each key the evidence that its verdicts say: counts, generations and state |
| ScanSchedule.RefreshIsDue | control-plane/src/vfs_provider_inventory.rs:138-152 | a refresh makes the driver due at once, lets a running scan go on and begins any other anew |
| ScanSchedule.WaitDoubles | control-plane/src/vfs_provider_inventory.rs:416-451 | each attempt up to the ninth doubles the wait |
| InventoryEndToEnd.CompletedScanSawTheDrive | control-plane/src/vfs_provider_inventory.rs:229-322 | a completed scan of a drive sighted exactly the drive's walk, counted each object once and no cursor twice, and observes exactly the keys last found unknown |
| InventoryEndToEnd.CompletedScanSawTheFiles | control-plane/src/vfs_provider_inventory.rs:229-322 | the same in terms of folders: a completed scan sighted exactly the keys of the files that folder names lead to, as many as the listings show |
| ScanOnce.CountedOnceExactly | control-plane/src/vfs_provider_inventory.rs:229-322 | for every run: no cursor is committed twice in a generation, at any moment and in any continuation whose own pages do not return, if and only if no committed page of the run leads to its own cursor or to one its generation has committed |
| ScanOnce.HeldPageIsCountedExactly | control-plane/src/vfs_provider_inventory.rs:319-322 | a worker's batch counts its page exactly under the fence, and repeats a cursor exactly when that was committed before |
| ScanOnce.RepeatedCursorCountsTwice | control-plane/src/vfs_provider_inventory.rs:319-322 | of two workers with the same page that commit one right after the other, the second counts it again exactly when the page leaves the cursor where it was |
| ScanOnce.RepeatHappens | control-plane/src/vfs_provider_inventory.rs:319-322 | a run in which two workers hold such a page and count its one object twice |
| ScanOnce.CycleHappens | control-plane/src/vfs_provider_inventory.rs:319-322 | a run in which no page leads to its own cursor and one is still counted twice, because a later page leads back |
| InventoryEndToEnd.PageProgress | control-plane/src/vfs_provider_inventory.rs:319-322 | a committed page moves the sighted part of the walk forward by its objects |
| CanonicalText.TextIsTheRequest | control-plane/src/r2_signing.rs:243-310 | two accepted requests, of whichever addressing styles, have the same canonical text if and only if method, target, parameters with multiplicity and trimmed headers agree |
| CanonicalText.TextHasTheseLines | control-plane/src/r2_signing.rs:264-308 | cut at its line breaks an accepted text is method, path, query, one line for each header in the order of names, a blank, the names, and the payload mark |
| CanonicalText.SignedHeadersAreTheNames | control-plane/src/r2_signing.rs:264-268 | cut at its semicolons the list of signed headers is `host` and the names of all headers, each once, ascending |
| CanonicalText.ScanIsExact | control-plane/src/r2_signing.rs:255-263 | the neighbour scan refuses a header set exactly when two names coincide |
| CanonicalText.ScanNeighbours | control-plane/src/r2_signing.rs:258-263 | the scan finds equal neighbours if there are any |
| CanonicalText.RenderedIsInjective | control-plane/src/r2_signing.rs:264-272 | the header block can be taken apart in one way |
| CanonicalText.UriIsInjective | control-plane/src/r2_signing.rs:273-277 | within a style the path determines bucket and key |
| CanonicalText.UriDecodes | control-plane/src/r2_signing.rs:273-277 | decoding the path gives a slash, the bucket and a slash where it is in the path, and the key |
| CanonicalText.StylesCoincide | control-plane/src/r2_signing.rs:273-277 | across styles the paths coincide if and only if the bucket has no slash and the key in host style is the bucket, a slash and the other key |
| CanonicalRequest.PercentEncode | control-plane/src/r2_signing.rs:606-622 | the loop computes the encoding |
| CanonicalRequest.DecodeUndoesEncode | control-plane/src/r2_signing.rs:606-622 | sections 2.1 and 2.3 of RFC 3986: decoding undoes it, with slashes kept or not |
| CanonicalRequest.EncodedAlphabet | control-plane/src/r2_signing.rs:606-622 | encoded text consists of unreserved characters, percent signs and kept slashes |
| CanonicalRequest.EncodedKeepsUnreserved | control-plane/src/r2_signing.rs:606-622 | unreserved text, and slashes where they are kept, stay as they are |
| CanonicalRequest.QueryIsTheMultiset | control-plane/src/r2_signing.rs:292-309 | the canonical query is the same exactly for the same multiset of parameters |
| CanonicalRequest.JoinedIsInjective | control-plane/src/r2_signing.rs:298-309 | the joined query can be taken apart in one way |
| CanonicalRequest.QueryParsesBack | control-plane/src/r2_signing.rs:292-309 | cutting at ampersands and equals signs and decoding gives the parameters back, in canonical order and with their multiplicities |
| CanonicalRequest.QueryAscends | control-plane/src/r2_signing.rs:292-297 | the parts of the query ascend by encoded name, then by encoded value |
| UnicodeText.RangeIsPrefix | control-plane/src/management.rs:1269-1276 | a text has the prefix exactly when it lies in the half-open range, or above the prefix when there is no bound |
| UnicodeText.PrefixUpperBound | control-plane/src/management.rs:1392-1404 | the loop from the right, over the surrogate gap and carries, computes the bound |
| UnicodeText.Utf8KeepsOrder | control-plane/src/management.rs:1269-1276 | section 1 of RFC 3629: scalar order is byte order, and the encoding is injective |
| UnicodeText.Utf8Decodes | control-plane/src/management.rs:1269-1276 | section 3 of RFC 3629: number, marks and payload of the bytes of each scalar |
| UnicodeText.QueryRangeIsPrefix | control-plane/src/management.rs:1269-1276 | so the byte-wise comparison of the query selects exactly the names with the prefix |
| ActivityPage.Activity | control-plane/src/management.rs:871-1025 | row i of the page is row offset + i of all rows of both queries, ordered by attention, newest, kind and id; `hasMore` exactly when rows are left |
| ActivityPage.PageOfCandidates | control-plane/src/management.rs:1011-1025 | the sorted candidates agree with the sorted union as far as the page can see |
| Sorting.MergeOfFronts | control-plane/src/management.rs:1011-1025 | the front of a merge needs only the fronts of its parts |
| Sorting.SortedIsUnique | control-plane/src/management.rs:993-1001 | without ties any two sorts agree |
| LoginThrottle.FailuresAreBounded | control-plane/src/operator_sessions.rs:98-118 | in any run with a clock that does not go back, at most max * (T/900 + 2) failed checks of one subject are let through in any T seconds |
| LoginAdmission.AdmittedExactly | control-plane/src/operator_sessions.rs:98-118 | in every run an attempt is let through exactly when no subject of it ended a window (20 failures, 200 for an account) less than its block (15 minutes, 30 for an account) ago; it is then the next failure of each of its subjects, in the window of the last one if that is younger than 15 minutes, and of nobody else |
| LoginAdmission.RetirementDrops | control-plane/src/maintenance.rs:258-275 | retention drops exactly chosen rows untouched for a day |
| LoginAdmission.CountsTheAdmissions | control-plane/src/operator_sessions.rs:482-519 | what the bound on failures counts |
| LoginThrottle.BlockIsKept | control-plane/src/operator_sessions.rs:502-505 | after the failure that uses up a window none is let through until the block has passed |
| LoginThrottle.CountAllAt | control-plane/src/operator_sessions.rs:482-519 | recording counts each named row once and touches no other |
| LoginThrottle.PoliciesFit | control-plane/src/operator_sessions.rs:20-26 | every policy blocks for at least a window and allows at least two failures |
| LoginThrottle.RateLimits.RetryAfter | control-plane/src/operator_sessions.rs:455-480 | nothing when no policy blocks, else the longest remaining block, at least one second |
| LoginThrottle.RateLimits.FailedAttempt | control-plane/src/operator_sessions.rs:98-115 | an attempt is admitted exactly when no policy blocks, and then counted for all of them |
| CredentialSafety.RevisionsAgree | control-plane/src/driver_credentials.rs:229-278 | in every run the refresh row's observed revision is the envelope's, and no fencing token of one life of the row commits twice |
| CredentialSafety.CommitReachesExactly | control-plane/src/driver_credentials.rs:229-278 | in every run a commit under a live token stores its credential and raises both revisions if and only if the row observes its revision, completes the row alone if and only if it observes the next one, and else changes nothing; the row alone is always a later life than the claim's |
| CredentialSafety.LoadFindsOwnExactly | control-plane/src/driver_credentials.rs:175-197 | in every run a load finds the token its worker has just taken if and only if nobody else claimed between claim and load |
| CredentialSafety.CommitRaisesBoth | control-plane/src/driver_credentials.rs:229-278 | a commit raises both revisions if the claim it was loaded from is live, and else changes nothing, as long as no replacement coincided or the row was never deleted |
| CredentialSafety.CommitOfOneKind | control-plane/src/driver_authorization.rs:83-154 | the same without condition for a driver whose replacements all start renewal, or all end it |
| CredentialSafety.OneKindNeverDeletes | control-plane/src/management_driver_credentials.rs:371-404 | the replacements of such a driver never delete a refresh row |
| CredentialSafety.SupersededCommitExactly | control-plane/src/driver_credentials.rs:229-278 | in every run the commit of a worker whose own claim was superseded changes something if and only if its token is live and its load came late, or the row was deleted since and observes its revision or the next |
| CredentialSafety.SupersededFailureExactly | control-plane/src/driver_credentials.rs:321-354 | in every run the failure of such a worker changes something if and only if its token is live after a late load or a deletion |
| CredentialSafety.FailureReachesExactly | control-plane/src/driver_credentials.rs:321-354 | in every run a failure reaches the row if and only if the tokens agree, and then ends the claim its worker took if and only if the row was not deleted since the load and the load found that claim |
| CredentialBackoff.BackoffIsKept | control-plane/src/driver_credentials.rs:321-354 | in every run, after a failure that is to be retried no claim succeeds before the retry time it wrote, one to 257 minutes after its claim, unless an operator replaces the credential; from then on an idle worker's claim succeeds |
| CredentialBackoff.ClaimsExactlyWhenOpen | control-plane/src/driver_credentials.rs:90-128 | a claim takes the next token exactly from the refresh time of a ready row, the retry time of a failed one, the end of the lease of a claimed one, and never from one that waits for reauthorization |
| CredentialBackoff.RowRests | control-plane/src/driver_credentials.rs:90-128 | a row that nobody holds stays as it is in every run until its time or an operator comes, whoever still works on an older claim |
| CredentialBackoff.WaitDoubles | control-plane/src/driver_credentials.rs:357-360 | each attempt up to the ninth doubles the wait of the one before, from one minute on |
| CredentialEffects.LoadsExactlyWhileLive | control-plane/src/driver_credentials.rs:175-197 | a load finds a task exactly while some claim is live and observes the envelope's revision |
| CredentialEffects.NoCommitWithoutLease | control-plane/src/driver_credentials.rs:229-278 | a commit after the end of its lease, or under another token, changes nothing |
| CredentialEffects.RenewedCredentialRests | control-plane/src/driver_credentials.rs:253-278 | after a commit that stored its credential the row has no lease, retry time or attempts, and is claimed at its refresh time and not before, in every run without a replacement |
| CredentialEffects.FailureEndsClaim | control-plane/src/driver_credentials.rs:321-354 | a failure under the row's token ends the claim for a retry or for an operator and keeps every other column; else it changes nothing |
| CredentialEffects.ReplacementStores | control-plane/src/management_driver_credentials.rs:230-404 | a replacement under the loaded revisions stores its credential, raises the driver's revision, and restarts or ends renewal |
| CredentialEffects.ReplacementRefused | control-plane/migrations/0033_management_driver_credentials.sql:3-18 | under revisions that have moved on it changes nothing, but for the coincidence of revision and second |
| CredentialRuns.SlowLoadEndsOtherClaim | control-plane/src/driver_credentials.rs:175-197 | a run, with one life of the row and no coincidence, in which a slow worker loads and ends the claim of another |
| CredentialRuns.StaleFailureEndsNewClaim | control-plane/src/management_driver_credentials.rs:372-404 | a run in which a stale failure ends a newer claim |
| CredentialRuns.StaleCommitMovesNewRow | control-plane/src/management_driver_credentials.rs:372-404 | a run in which a stale commit completes a newer claim and stores nothing |
| CredentialSafety.ReplacementLostExactly | control-plane/migrations/0033_management_driver_credentials.sql:3-18 | in every run a replacement commits without storing its credential if and only if another was stored as the same revision in the same second and the driver's revision is the loaded one or the next |
| CredentialRuns.MovedDriverRefuses | control-plane/migrations/0033_management_driver_credentials.sql:3-18 | a run in which revision and second coincide and the replacement aborts, the driver having moved by two |
| CredentialSafety.RenewalMistakenExactly | control-plane/src/driver_credentials.rs:297-318 | in every run a renewal reports success although another credential is stored if and only if it stored none and the row is ready and was last completed at its revision in its second |
| CredentialSafety.RenewalMistakenWithoutCoincidence | control-plane/src/driver_credentials.rs:297-318 | without coincident replacements that is exactly when somebody else's credential was stored as that revision in that second |
| CredentialRuns.CoincidenceLosesReplacement | control-plane/migrations/0033_management_driver_credentials.sql:3-18 | a run from empty tables in which a replacement is allowed to commit and the renewed credential stays |
| CredentialRuns.ConfirmationMistakesReplacement | control-plane/src/driver_credentials.rs:297-318 | a run from empty tables in which a renewal reports success and the operator's credential stays |
| CredentialRuns.ConfirmationMistakesRenewal | control-plane/src/driver_credentials.rs:175-197 | a run without any coincident replacement in which a renewal reports the success of another renewal |
| CredentialRefresh.CredentialDatabase.Commit | control-plane/src/driver_credentials.rs:229-318 | the batch in place: the new rows, and success when the claim was live |
| CredentialRefresh.CredentialDatabase.ClaimTask | control-plane/src/driver_credentials.rs:90-140 | the row changes exactly if it is ready and its refresh time has come, or to be retried and its retry time has come, or claimed and its lease has run out: the next token, a lease of 300 seconds, one attempt more; a task exactly when the row also agrees with its envelope |
| CredentialRefresh.CredentialDatabase.Fail | control-plane/src/driver_credentials.rs:321-354 | the row changes exactly under a live claim of this token, to be retried between one minute and 257 later or to wait for reauthorization, without its lease; the envelope and every other column stay |
| CredentialRefresh.RetryDelay | control-plane/src/driver_credentials.rs:357-360 | the delay lies between one and 257 minutes, so the six-hour cap never applies |
| TransferMetrics.CountedOnce | control-plane/src/transfer_metrics.rs:210-227 | every hourly and daily row is the sum of the weighted observations of the requests rolled up for it, and no operation is rolled up twice, workers stopping between receipt and batch included |
| MetricColumns.ColumnsAreSums | control-plane/src/transfer_metrics.rs:229-289 | in every run each column of each hourly and daily row is the integer sum, over the counted requests of its key and period, of what they measured times one or ten |
| MetricColumns.DaysAddUp | control-plane/src/transfer_metrics.rs:229-289 | each column of a daily row is the sum of that column over its 24 hourly rows |
| MetricColumns.CountedExactly | control-plane/src/transfer_metrics.rs:189-289 | an undisturbed request is counted exactly when no column of its rows leaves the signed range and it is not of the epoch's first day |
| MetricColumns.AcceptedExactly | control-plane/src/transfer_metrics.rs:189-209 | which requests count at all |
| MetricColumns.ValidExactly | control-plane/src/transfer_metrics.rs:668-692 | telemetry is valid exactly when it is sound in plain integers; the checked additions refuse nothing else |
| MetricColumns.WorthByColumn | control-plane/src/transfer_metrics.rs:292-333 | what an accepted request adds to each column |
| MetricColumns.SmallTransfersAreOverstated | control-plane/src/transfer_metrics.rs:711-725 | sixteen operations with all last digits weigh sixteen exactly when they are large, and else twenty |
| TransferMetrics.RowsAreOk | control-plane/src/transfer_metrics.rs:229-289 | every row's speed buckets add up to its weighted transfers, and neither provider time nor the phases exceed the total time |
| TransferMetrics.DaysAreSums | control-plane/src/transfer_metrics.rs:229-289 | every daily row is the sum of its 24 hourly rows |
| TransferMetrics.ObservationIsExact | control-plane/src/transfer_metrics.rs:292-333 | valid telemetry is weighted exactly, and dropped only when the weighted bytes leave the signed range |
| TransferMetrics.BucketMeaning | control-plane/src/transfer_metrics.rs:727-735 | bucket b covers 2^(b-1) to 2^b units of 128 KiB per second, the last without end |
| TransferMetrics.MetricsDatabase.Record | control-plane/src/transfer_metrics.rs:189-289 | receipt first, then the loop over the two rollups and their all-or-nothing batch |

## Left out

- HTTP routing, cookies, headers, JSON and XML decoding, watch notifications: plumbing around the logic above.
- Cryptography: a digest is what it digests, sealed material is a number, and signatures are not modelled.
- Merkle roots, `validate_catalog_checkpoint`, deltas and projections: a directory's root changes only together with its revision, so the revision fence stands for both; a checkpoint's own validation is not part of the model.
- Catalog deltas: they are best effort. The model only lets anybody put and delete delta objects at any time. That no orphaned object ever leaks is not claimed.
- The order in which claimable rows, artifacts to retire and garbage are selected: any eligible row may be picked, and any set of up to 100 retirable artifacts.
- Real time: every step takes its clock as an input, and nothing is claimed beyond the guards.
- Removal's fence as two outcomes: its receipt compares the resulting revision and root, so a removal that lost a race to an identical one may also report success. On the tables of the model this changes nothing; it is modelled as a refusal.
- A rename planner that reads a row whose link its parent does not show plans fewer directories; the model refuses such a plan. Its fence could not hold, since the missing link means that the child moved.
- File versions, locations and the put intent protocol: a put is its commit, with the driver fence, and a removal retires its file whatever version it has by then (the entry's revision, which is checked, moves with every new version: `NamespaceEffects.OverwriteRefusesOld`).
- The JSON and base64 form of cursors: a cursor is what it encodes. The length limit of the Aliyun cursor is kept, over any length function.
- The bound on rebase attempts of a mutation: a worker may try its batch any number of times.
- Token authority, quotas and receipts inside the namespace batches: they only make more batches abort.
- Directory keys, ACL revisions and names' validity: independent of the invariants.
- The policies of `LoginThrottle` as serialized attempts: two attempts whose checks overlap in time are not modelled.
- Header trimming is any function that adds no line break; the host is taken to be free of line breaks.
- The checks of `presign_target_at` on credential, expiry, region and timestamp: they refuse a request before any text is built.
- Retention of metric rows and of receipts, and the analytics queries.
- The management apply handlers, and the Go programs: easy members only.
