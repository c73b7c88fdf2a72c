# Android key storage: a verified model

This project models the parts of Android's `system/security` repository that keep keys and
credentials, and proves what they promise over whole runs: the Keystore 2.0 database and its garbage
collector, the on-demand worker and the protocols on top of it, per-operation authorization,
protected confirmation, boot-level keys, the two legacy stores, identity credentials and the
attestation application id. It is written in Dafny 4.11; `dafny verify dfyconfig.toml` checks all of
it.

| part | modules |
|---|---|
| tables and transactions of the key database | `Tables`, `Transactions`, `KeystoreDatabase` |
| what transactions keep, and what they store, load, find, move and remove | `BlobRows`, `BlobStates`, `References`, `StoreLoad`, `Lookups`, `Removals`, `MovesAndGrants`, `LimitedUse`, `GcHints` |
| the garbage collector among its clients | `GarbageCollection`, `GcHandOver`, `KeyMintDeletion`, `GcRuns`, `StateColumn`, `GcNotification`, `GcLiveness` |
| the worker thread | `AsyncTasks` |
| listing, and locks on keys | `Ordering`, `Listing`, `MergedListing`, `KeyLocks` |
| authorization, confirmation, boot levels | `OperationAuth`, `Confirmation`, `BootLevelKeys` |
| legacy keys and the legacy store | `LegacyProtocol`, `LegacyImport`, `LegacyStore` |
| identity credentials | `Credential`, `AuthKeys`, `CredentialStore` |
| attestation application id | `AttestationId` |

How the model is built:

- A table is a map from row id to row. Each transaction of `KeystoreDB` has a function that gives
  its committed effect, its answer and whether it asks for a garbage collection (`Transactions.Exec`),
  and a method on mutable tables that runs the statements one after the other and is proved to have
  that effect (`KeystoreDatabase`). The new row id of a blob is one more than the largest in use, as
  in SQLite, so that ids of deleted rows come back.
- A concurrent protocol is a state machine with one step per access to shared state or per critical
  section, under sequential consistency. A run is any sequence of steps, for any number of threads.
  Histories (what was queued, which token arrived, which attempts failed) are part of the state, so
  that promises about runs can be stated.
- Objects that are updated in place are classes whose methods are proved against the functions or
  steps that the theorems are about.
- What the outside answers (KeyMint, the HAL, clocks, the file system, whether a transaction commits,
  permission checks, random ids) is a parameter of the call or of the step.

Some promises turned out to hold only under a condition, and are stated with the exact one:

- the two out-of-date tests of the collector agree over a run exactly until a namespace with key
  blobs is cleared, a blob is set for an id without key, or the collector removes the entry of an
  unreferenced key, such as a replaced one, that still has a key blob (`TestsAgreeUntilStranded`); the
  query by state never collects such a blob unless a later transaction supersedes it
  (`StrandedForGood`, `StrandedUntilSuperseded`);
- of the rollback resistant keys that a bulk deletion of legacy keys removes, KeyMint is told exactly
  of those that were encrypted, with a known super key and KeyMint instance (`ReachesKeyMintExactly`);
  under the query by state the last one of all is left out, and never taken up later
  (`LastKeyStaysBehind`, `LoneKeyStaysBehind`, `LastRowIsForgotten`);
- a key blob that names a KeyMint instance is in use or has been passed to that instance whenever the
  query by id finds nothing (`KeyMintIsTold`); under the query by state this is proved for keys that
  were deleted, used up or removed with their user (`RemovedKeyReachesKeyMint`);
- once the collector's transaction has failed, garbage stays until somebody asks for a collection
  again, and then it is served (`FailureDefersGarbage`, `RequestIsServed`);
- a client that pages through the merged listing loses a key exactly if the first alias is too long
  for a response, or if the database page was cut off and a legacy alias past the cut fits the
  response together with all before it (`MergedListingLoses`); the answers together are all aliases
  exactly if none of them loses one (`MergedPagingComplete`);
- a token goes to a waiting operation exactly if that was the last one to register the challenge and
  no earlier token is on its way to it (`TokenReachesLatest`);
- removing an entry of the legacy store removes it exactly if it is not both in the table and in a
  file, which takes a failed file removal (`LegacyKeystore.Remove`, `RemovedEntrySurvives`);
- importing a legacy entry keeps its user certificate exactly if it has a key
  (`UserCertificateCarriedOver`, `UserCertificateLost`);
- loading a credential dereferences null exactly if the first defect of the file is a key record
  whose expiration date is not a number (`NullExactly`);
- two namespaces of a credential have separate entries exactly if neither goes on with a colon after
  the name of the other (`SharedEntryIds`, `EntryReplaced`);
- the size estimate of the attestation id is safe exactly for version codes below 2^47 (`SafeBelow`).

In two places the code differs from what its comments say, and the model follows the code. The error
for malformed access control profile ids of a credential entry can not occur, since malformed ids are
read as an empty list (`MalformedIdsLoadAsNone`). Certificate metadata is not removed with the row it
belongs to (`CertificateMetadataLeaks`), which does no harm since no caller stores any.

## Model

| member | source | states |
|---|---|---|
| KeystoreDatabase.KeystoreDB.constructor | keystore2/src/database.rs:1030-1155 | a new database is empty |
| KeystoreDatabase.KeystoreDB.SetBlobInternal | keystore2/src/database.rs:1673-1728 | the statements for one blob supersede the rows of the same component, insert the new row under the next row id and add its metadata, or remove the component; nothing else changes |
| KeystoreDatabase.KeystoreDB.SetBlob | keystore2/src/database.rs:1638-1651 | the committed effect, the answer and the request for a collection of set_blob |
| KeystoreDatabase.KeystoreDB.SetDeletedBlob | keystore2/src/database.rs:1657-1671 | the blob is stored under the id that no key has |
| KeystoreDatabase.KeystoreDB.RebindAlias | keystore2/src/database.rs:1778-1824 | the location moves from whoever holds it to the new entry, or the call fails |
| KeystoreDatabase.KeystoreDB.StoreNewKey | keystore2/src/database.rs:1896-1973 | all parts of the new key are stored and it takes its location, or nothing changes |
| KeystoreDatabase.KeystoreDB.StoreNewCertificate | keystore2/src/database.rs:1978-2022 | the same for an entry that is only a certificate |
| KeystoreDatabase.KeystoreDB.StoreSuperKey | keystore2/src/database.rs:1467-1512 | a super key is stored live at once |
| KeystoreDatabase.KeystoreDB.MigrateKeyNamespace | keystore2/src/database.rs:1828-1888 | an entry moves to a location where no live key is, or nothing changes |
| KeystoreDatabase.KeystoreDB.AddGrant | keystore2/src/database.rs:2847-2910 | granting updates the grantee's grant or adds one |
| KeystoreDatabase.KeystoreDB.Ungrant | keystore2/src/database.rs:2914-2942 | the grants of that key to that grantee are removed |
| KeystoreDatabase.KeystoreDB.MarkKeyUnreferenced | keystore2/src/database.rs:2423-2445 | the key and what hangs on it goes, and its blobs are orphaned |
| KeystoreDatabase.KeystoreDB.UnbindKey | keystore2/src/database.rs:2462-2485 | the key the descriptor resolves to is removed if the caller may |
| KeystoreDatabase.KeystoreDB.CheckAndUpdateKeyUsageCount | keystore2/src/database.rs:2269-2303 | the statements have the effect of a use; what that is, `UsableExactly` and `LimitOverRun` say |
| KeystoreDatabase.KeystoreDB.UnbindKeysForUser | keystore2/src/database.rs:2597-2657 | the loop has the effect of removing a user; what that is, `UserRemoved` says |
| KeystoreDatabase.KeystoreDB.UnbindAuthBoundKeysForUser | keystore2/src/database.rs:2668-2721 | the same for the keys bound to authentication; see `AuthBoundRemoved` |
| KeystoreDatabase.KeystoreDB.UnbindKeysForNamespace | keystore2/src/database.rs:2498-2553 | the client keys of a namespace and their rows go; their blobs stay for the collector |
| KeystoreDatabase.KeystoreDB.HandleNextSupersededBlobs | keystore2/src/database.rs:1298-1416 | deletes the rows handled before, then answers with at most 20 rows of the selected query, all of them if there are fewer, or else purges certificates |
| KeystoreDatabase.KeystoreDB.UpgradeFrom1To2 | keystore2/src/database.rs:967-1028 | the upgrade marks lost key blobs orphaned and superseded ones superseded |
| KeystoreDatabase.GcInternal.ProcessOneKey | keystore2/src/gc.rs:103-134 | one step of the collector, with every way it can fail; KeyMint is told exactly if the metadata of the row taken off names an instance and the blob is not sealed or can be unwrapped, and then that instance is told, with that blob |
| BlobRows.TxKeepsBlobs | keystore2/src/database.rs:1673-1728 | every transaction keeps which row of a component is current, and never revives or changes a key blob that is out of date |
| BlobStates.StateTestWithinIdTest | keystore2/src/database.rs:1319-1368 | in every state that satisfies the invariant, what the state column selects is selected by the MAX(id) test, and the difference is exactly the current rows without key |
| BlobStates.UpgradeMakesTestsAgree | keystore2/src/database.rs:967-1028 | after the upgrade both tests select the same key blobs |
| BlobStates.StrandsExactly | keystore2/src/database.rs:2498-2553 | from agreeing tests, a client's transaction leaves a current row without key exactly if it clears a namespace with key blobs or sets a blob for an id without key |
| BlobStates.TestsStayEqual | keystore2/src/database.rs:1319-1368 | after any client's transaction the two tests agree exactly if it is not one of those |
| BlobStates.ReusedIdRevives | keystore2/src/database.rs:1978-2022 | storing a certificate under an unused key id keeps all garbage garbage exactly if no leftover key blob carries that id |
| BlobStates.CertificateMetadataLeaks | keystore2/src/database.rs:1693-1726 | metadata of a removed certificate row is inherited by the key blob that gets its row id |
| References.AccessIsLive | keystore2/src/database.rs:2069-2180 | whatever way a key is looked up, the key found is live |
| References.GrantResolvesForGrantee | keystore2/src/database.rs:2095-2121 | a grant resolves only for its grantee, only to its key, only while the key is live |
| References.LocationLookup | keystore2/src/database.rs:2027-2052 | a location resolves to the one live key there |
| References.StoreBindsLocation | keystore2/src/database.rs:1896-1973 | storing under a location succeeds and makes it resolve to the new key |
| References.GrantAgainUpdates | keystore2/src/database.rs:2847-2910 | granting twice changes the access vector of the same grant |
| References.TxKeepsKeyRules | keystore2/src/database.rs:1426-2942 | every transaction moves keys only from existing to live to unreferenced to gone, keeps one live client key per location and one grant per key and grantee, and leaves no row of a removed key |
| StoreLoad.StoredKeyLoads | keystore2/src/database.rs:1896-1973 | a stored key loads from its location with exactly what it was stored with, and every other key loads as before |
| StoreLoad.StoredCertificateLoads | keystore2/src/database.rs:1978-2022 | the same for an entry that is only a certificate, every other key included |
| StoreLoad.SetBlobLoads | keystore2/src/database.rs:2182-2237 | after set_blob that component loads as set and no other component of any key changes |
| StoreLoad.StoredExactly | keystore2/src/database.rs:1896-2022 | a key or certificate is stored exactly if its descriptor names an alias of an app or of a namespace and carries no blob; otherwise nothing changes |
| Lookups.LocationResolves | keystore2/src/database.rs:2027-2052 | a location resolves exactly to the one live key of the type there; without any it is not found, with several the lookup fails |
| Lookups.AppFindsOwnKeys | keystore2/src/database.rs:2075-2093 | for an app the answer is a key exactly if that is the live client key of the caller itself under the alias, whatever namespace was asked for |
| Lookups.NamespaceIsShared | keystore2/src/database.rs:2075-2093 | in a namespace of the policy the answer is the live client key there, for every caller |
| Lookups.KeyIdFindsOwner | keystore2/src/database.rs:2123-2176 | a key id finds the live key with the domain and namespace of its owner, and with the vector of the caller's grant exactly if the caller is not the app that owns it |
| Lookups.BlobIsNoEntry | keystore2/src/database.rs:2177-2180 | a descriptor with a blob names no entry |
| Lookups.OnlyOwnerFinds | keystore2/src/database.rs:2061-2180 | a key of an app that is granted to nobody is found under its alias by that app alone; by its id others find it only with the owner's descriptor and no vector |
| Lookups.OwnerLoadsStoredKey | keystore2/src/database.rs:1896-1973 | a key that an app stored is found by it under its alias and by nobody else under any alias or grant, and loads with what it was stored with |
| LimitedUse.LoadsParamsMeans | keystore2/src/database.rs:2723-2749 | the parameters that the rows on limited use are about are those the key loads with |
| LimitedUse.UseCounts | keystore2/src/database.rs:2269-2303 | with more than one use left a use succeeds and leaves one less; nothing else that loads changes |
| LimitedUse.LastUseRemoves | keystore2/src/database.rs:2294-2297 | the last use succeeds and removes the key, and every other key loads as before |
| LimitedUse.OtherLimits | keystore2/src/database.rs:2284-2300 | a limit of zero or none at all refuses every use, and a negative one never runs out |
| LimitedUse.LimitOverRun | keystore2/src/database.rs:2269-2303 | over any run of clients and collector, as long as the key exists the limit that loads is that at first less the uses since, which are fewer, and its other parameters are as they were |
| LimitedUse.UsesSucceed | keystore2/src/database.rs:2269-2303 | in every such state a use succeeds |
| LimitedUse.GoneAfterLastUse | keystore2/src/database.rs:2294-2297 | after a use in such a run the key is gone exactly if it was the n-th |
| LimitedUse.UsedUpForGood | keystore2/src/database.rs:2284-2286 | once the key is gone every use fails and changes nothing |
| LimitedUse.UsableExactly | keystore2/src/database.rs:2269-2303 | a key with a limit of n can be used exactly n times in a row, loads with what is left in between, and other keys load as before |
| Removals.UserRemoved | keystore2/src/database.rs:2597-2657 | a key is gone exactly if it was live and a client key of an app of the user or a super key of the user; all else loads as before, the grants left are those to keys left and to other users, and the blobs of the keys gone are there for the collector under either query |
| Removals.AuthBoundRemoved | keystore2/src/database.rs:2668-2721 | gone are exactly the live keys of the user's apps that load with a secure user id; the rest as before |
| Removals.NamespaceCleared | keystore2/src/database.rs:2498-2553 | gone are exactly the client keys of the namespace, in whatever state; the grants left are those to keys left and not to the app cleared; blob rows are unchanged; other domains are refused |
| Removals.KeyUnbound | keystore2/src/database.rs:2462-2485 | gone is exactly the key that the descriptor finds, if the caller may; otherwise nothing changes |
| Removals.ComponentRemoved | keystore2/src/database.rs:1708-1726 | setting a certificate to nothing stops exactly that component from loading; a key blob cannot be taken away |
| MovesAndGrants.StoredSuperKeyLoads | keystore2/src/database.rs:1467-1512 | a super key loads with the blob and metadata it was stored with, and every other key as before |
| MovesAndGrants.StoredSuperKeyFound | keystore2/src/database.rs:1467-1512 | it is found exactly if it is the only one of its user under that alias |
| MovesAndGrants.MovesExactly | keystore2/src/database.rs:1828-1888 | a key moves exactly if the caller may, it exists, and its destination is a location where nothing stands |
| MovesAndGrants.MovedKeyFound | keystore2/src/database.rs:1828-1888 | a live client key that moved is found at its destination and not where it was; all else is found and loads as before |
| MovesAndGrants.GrantGiven | keystore2/src/database.rs:2847-2910 | the grantee, and nobody else, finds the key by the grant returned, with the vector given; that is the old grant if there was one, and all else is as before |
| MovesAndGrants.GrantTaken | keystore2/src/database.rs:2914-2942 | exactly the grants of that key to that grantee are gone and no longer resolve |
| MovesAndGrants.LeftoversMarked | keystore2/src/database.rs:1426-1438 | entries never bound to a location become unreferenced; all else is as before |
| GcHints.HintsAreComplete | keystore2/src/database.rs:1549-1587 | a transaction that does not ask for a collection left no row and no key entry that either query, or the final purge, would newly collect |
| GarbageCollection.CollectorIsInvisible | keystore2/src/database.rs:1298-1416 | a step of the collector changes nothing that loading a key in use returns |
| GarbageCollection.StepKeepsSysInv | keystore2/src/gc.rs:103-134 | each client transaction and each collector step keeps the collector's ids pointing at distinct out-of-date rows with the content it read |
| GarbageCollection.CollectorIsSafe | keystore2/src/gc.rs:103-134 | in every state of every interleaving, under either query, the ids the collector holds are distinct and name key blobs that are out of date, and what it read of those still to be handed over is what they hold |
| GarbageCollection.HeldIdIsNotReused | keystore2/src/gc.rs:103-134 | from the moment the collector takes up an id until it deletes that row, the id names the very same row, with the same content and metadata |
| GarbageCollection.BlobGoesOnlyAfterHandOver | keystore2/src/gc.rs:103-134 | no key blob leaves the table unless that very row, with the blob and metadata it then has, was handed over before |
| GarbageCollection.StartingPoints | keystore2/src/database.rs:967-1155 | a new database and an upgraded one can start a run |
| GarbageCollection.PoppedOnce | keystore2/src/gc.rs:113-132 | a row handed to KeyMint is not handed over again while it exists |
| GcHandOver.TxRevivesNone | keystore2/src/database.rs:1673-1728 | no client's transaction makes a key blob current again |
| GcHandOver.SelectedUntilDeleted | keystore2/src/database.rs:1298-1416 | a key blob that either query selects stays the same and selected until the collector deletes it |
| GcHandOver.SelectedIsHandedOver | keystore2/src/gc.rs:103-165 | in every run, what either query selects is handed over, as it was when it was selected, before that query finds nothing any more |
| KeyMintDeletion.StoredUntilHandedOver | keystore2/src/gc.rs:103-134 | in every run a key blob is in the table as it was stored, or was handed over as it was stored |
| KeyMintDeletion.KeyMintIsTold | keystore2/src/gc.rs:119-132 | a key that loads with a blob that names a KeyMint instance: when the query by id later finds nothing, the key still loads with it, or that instance has been told to delete it |
| KeyMintDeletion.StoredKeyReachesKeyMint | keystore2/src/gc.rs:119-132 | so a key, encrypted or not, that was stored and later removed or given another blob has been passed to its instance by then |
| KeyMintDeletion.RemovedKeyReachesKeyMint | keystore2/src/gc.rs:119-132 | under either query: a key that was deleted, used up or removed with its user has been passed to its instance by the time that query finds nothing |
| GcRuns.StepMakesProgress | keystore2/src/gc.rs:137-165 | a step either leaves fewer key blobs to handle and schedules another, or leaves the database drained |
| GcRuns.CollectorDrains | keystore2/src/gc.rs:137-165 | left alone the collector stops within one step more than there are key blobs, with nothing left that the query or the purge would take |
| GcRuns.DrainedIsClean | keystore2/src/database.rs:1298-1416 | drained means: each row left is the latest of its component of a key that exists, or for the query by state is marked current; and no unreferenced key is left |
| GcRuns.DrainHandsOverOnce | keystore2/src/gc.rs:103-134 | no row is handed over twice while it drains, whether invalidation succeeds or not |
| GcRuns.LifeCycleOverRun | keystore2/src/database.rs:2423-2445 | over any run of clients and collector a key's state only advances |
| GcRuns.GrantOverRun | keystore2/src/database.rs:2847-2910 | a grant never changes its key or its grantee |
| GcRuns.GrantResolvesAsIssued | keystore2/src/database.rs:2095-2121 | as long as a grant exists it resolves for its grantee, and only for it, to the key it was issued for, if that is live |
| StateColumn.DeletionKeepsTestsEqual | keystore2/src/database.rs:1303-1315 | deleting collected rows keeps the two tests equal |
| StateColumn.CollectorStrands | keystore2/src/database.rs:1298-1416 | the collector's transaction makes the tests disagree exactly if an unreferenced key has a key blob other than those it deletes |
| StateColumn.StepKeepsTestsEqual | keystore2/src/database.rs:1298-1416 | after any step of clients or collector the tests agree exactly if the step strands no key blob, which is told from the state before |
| StateColumn.TestsAgreeUntilStranded | keystore2/src/database.rs:1319-1368 | over any run the tests agree throughout exactly if no step strands a key blob |
| StateColumn.StrandedUntilSuperseded | keystore2/src/database.rs:1673-1728 | a stranded row stays as it is under any client's transaction, and stays out of reach of the query by state exactly if the transaction does not supersede it |
| StateColumn.StrandedForGood | keystore2/src/database.rs:1319-1368 | over any run with the query by state, a stranded row is never selected, deleted or handed over, as long as nothing supersedes it |
| StateColumn.QueryByStateHoldsNone | keystore2/src/database.rs:1319-1368 | after a query by state the collector holds no stranded row |
| StateColumn.DeletedBlobSelected | keystore2/src/database.rs:1657-1671 | a blob stored by set_deleted_blob is selected by id at once, and by state exactly from the next transaction that supersedes it |
| StateColumn.ReplacedKeyStrands | keystore2/src/database.rs:1778-1824 | replacing a live key that has a key blob and then collecting makes the tests disagree |
| StateColumn.StoreStoreFetch | keystore2/src/database.rs:1298-1317 | a run from the empty database that does so: two keys under one alias, and one query |
| AsyncTasks.StepKeepsInv | keystore2/src/async_task.rs:170-260 | each critical section of the queueing threads and of the worker keeps the log in order and the state in step with it |
| AsyncTasks.EveryStateInv | keystore2/src/async_task.rs:170-260 | in every run: what was queued is what was started followed by what waits, per priority; one worker at most; nothing waits without one; the shelf is in one place, as it was left |
| AsyncTasks.EventsAreOk | keystore2/src/async_task.rs:104-108 | each job is started in order, once, alone, low priority only when no high priority job waits, with the shelf as the last one left it; a worker exits only with empty queues after its idle callbacks |
| AsyncTasks.WorkerProgresses | keystore2/src/async_task.rs:209-258 | a live worker can always take a step, and each step brings it closer to its exit |
| AsyncTasks.AllJobsRun | keystore2/src/async_task.rs:209-258 | without new jobs the worker stops within a bound, and then every job ever queued has been started and none is running |
| AsyncTasks.AsyncTask.Queue | keystore2/src/async_task.rs:170-188 | the critical section of queue has the effect of the step, and spawns exactly if no worker runs |
| AsyncTasks.AsyncTask.TakeShelf | keystore2/src/async_task.rs:207-208 | the worker starts with the shelf that was left |
| AsyncTasks.AsyncTask.NextAction | keystore2/src/async_task.rs:210-242 | the worker goes idle, runs the next job, exits or waits, as the steps demand |
| GcNotification.StepKeepsInv | keystore2/src/gc.rs:79-165 | each access to the flag, the queues and the database keeps the flag equal to the steps on their way, and somebody awake while there is garbage |
| GcNotification.AtMostOneStep | keystore2/src/gc.rs:79-83 | at most one step is about to be queued, queued or just begun |
| GcNotification.StepFindsCollector | keystore2/src/gc.rs:47-83 | whenever a step is started, the collector is on the shelf |
| GcNotification.NoLostWakeup | keystore2/src/gc.rs:137-165 | after boot, whenever no thread notifies and no job waits or runs, nothing is left to collect, unless the collector's last transaction failed and nobody has asked for a collection since; before boot nothing is collected |
| GcNotification.AwakeWhileGarbage | keystore2/src/gc.rs:79-165 | after boot, while there is garbage, somebody will still look at the database or make sure that somebody does, under the same exception |
| GcNotification.FailureDefersGarbage | keystore2/src/gc.rs:150-165 | the exception is real: a run from the start in which the collector's transaction fails and that ends quietly with garbage left |
| GcLiveness.InternalStepGetsCloser | keystore2/src/gc.rs:79-165 | every step of notifying threads, worker and collector decreases a measure, if clients, other jobs and failures stop |
| GcLiveness.SomebodyCanMove | keystore2/src/gc.rs:79-165 | unless all is quiet somebody can take a step |
| GcLiveness.CollectorComesToRest | keystore2/src/gc.rs:79-165 | so from every reachable state the run is bounded; where it ends all is quiet and nothing is left to collect, if it began with somebody awake or without a failure that nobody followed up |
| GcLiveness.RequestIsServed | keystore2/src/gc.rs:79-165 | a commit that asks for a collection after boot is served in bounded time, whatever failed before it |
| Listing.PagingIsComplete | keystore2/src/database.rs:2759-2812 | paging past the last alias returned yields every alias once, in order, for any page size |
| Listing.ListingIsComplete | keystore2/src/database.rs:2759-2839 | the pages of client keys are exactly the live aliases and as many as count_keys says |
| Listing.SuperKeysRepeat | keystore2/src/database.rs:1467-1512 | for super keys the count and the listing differ when one is stored twice |
| Ordering.Dedup | keystore2/legacykeystore/lib.rs:407-410 | of a sorted list, the same elements without repetition |
| MergedListing.EstimateSafeAmount | keystore2/src/utils.rs:541-578 | the longest prefix whose estimated size is within the limit |
| MergedListing.MergeAndFilter | keystore2/src/utils.rs:514-539 | the page and the legacy aliases past the starting point, sorted, each once |
| MergedListing.ListKeyEntries | keystore2/src/utils.rs:585-614 | the answer is the longest prefix of that merger that fits a response, the answer that the theorems on paging are about |
| MergedListing.MergedListingLoses | keystore2/src/utils.rs:514-614 | a client that goes on past the last alias returned loses a key exactly if the first alias is too long for a response, or the page was cut off and the least legacy alias past the cut fits together with the page and the legacy aliases before the cut |
| MergedListing.MergedPagingComplete | keystore2/src/utils.rs:514-614 | going on past the last alias until an answer is empty yields all aliases, each once and in order, exactly if no answer on the way loses one, told from what is stored |
| MergedListing.LegacyAliasHidesKeys | keystore2/src/utils.rs:585-614 | at the real limits: 10001 keys with aliases of 19 characters and one legacy alias after them lose a key |
| MergedListing.HiddenKeyIsNeverListed | keystore2/src/utils.rs:585-614 | so that listing is never complete, however often the client goes on |
| KeyLocks.KeyIdLockDb.Get | keystore2/src/database.rs:594-601 | the lock set follows the step of the thread that gets the guard, and no other thread owns the key id then |
| KeyLocks.KeyIdLockDb.TryGet | keystore2/src/database.rs:607-614 | the guard is refused exactly if some thread owns the key id, and otherwise the caller alone owns it; the lock set follows the step |
| KeyLocks.KeyIdLockDb.Drop | keystore2/src/database.rs:624-630 | the lock set follows the thread's leaving, and nobody owns the key id then |
| KeyLocks.EveryStateInv | keystore2/src/database.rs:2341-2421 | in every run each key id has at most one guard, every locked id has an owner, and every thread's guard, permission and snapshot belong together |
| KeyLocks.LoadedKeyIsPermittedKey | keystore2/src/database.rs:2310-2421 | whatever commits in between, the loaded key is the one the permission was checked for and the one that is locked, and it was live |
| KeyLocks.LoadedKeyIsExclusive | keystore2/src/database.rs:586-631 | no other thread has, or is about to have, a loaded key |
| KeyLocks.RebindWhileWaiting | keystore2/src/database.rs:2373-2421 | after waiting for the lock the key is loaded exactly if it is still live, by its id; otherwise the lock is released |
| KeyLocks.LoadedOnRequest | keystore2/src/database.rs:2342-2421 | a thread that has a key loaded was asked for it, and permission was given for what the request resolved to then |
| KeyLocks.LoadedKeyIsOwn | keystore2/src/database.rs:2342-2421 | an app is given a key that was its own under that alias when permission was given |
| KeyLocks.UnhinderedLoads | keystore2/src/database.rs:2342-2421 | a request that resolves, is permitted and finds the key unlocked loads that key as it is |
| OperationAuth.TokenReceiverMap.AddAuthToken | keystore2/src/enforcements.rs:170-182 | the map follows the arrival; the token is routed, if at all, to the last registrant of its challenge, which was sent no token before |
| OperationAuth.TokenReceiverMap.AddReceiver | keystore2/src/enforcements.rs:184-195 | the map and the counter follow the registration, cleanup included: every 26th time receivers whose operation is gone are removed, never the new one |
| OperationAuth.StepKeepsInv | keystore2/src/enforcements.rs:234-340 | creating, registering, arriving, handing over, advancing and dropping keep every token with the operation it was routed to |
| OperationAuth.PassesOnlyWithItsToken | keystore2/src/enforcements.rs:315-340 | an operation passes only with a token that carries its challenge, arrived after it registered, and was routed to it and no other |
| OperationAuth.TokenReachesLatest | keystore2/src/enforcements.rs:184-195 | in every run a token goes to a waiting operation of its challenge exactly if that was the last to register it and no earlier token is on its way to it, so no cleanup costs the last registrant its token |
| OperationAuth.OverwrittenIsRefused | keystore2/src/enforcements.rs:184-195 | a run in which two operations register one challenge: the second passes with the token and the first is refused |
| OperationAuth.KeepsPassing | keystore2/src/enforcements.rs:315-340 | once passed, an operation is given the same tokens ever after |
| OperationAuth.TimeStampedAnswers | keystore2/src/enforcements.rs:83-107 | an operation that needs a time stamp is refused before it is finalized; then it is answered with its token and the time stamp of the reply every time, or with the error of the reply once and refused for good after that |
| OperationAuth.TokenAnswers | keystore2/src/enforcements.rs:315-340 | an operation that needs its own token is answered with the one handed over to it every time, and refused until then |
| OperationAuth.PassesWithoutToken | keystore2/src/enforcements.rs:315-340 | an operation that needs no authorization passes every time with no token |
| OperationAuth.CleanedUpInTime | keystore2/src/enforcements.rs:184-195 | among any 26 registrations there is a cleanup that leaves receivers of waiting operations only |
| LegacyProtocol.StepKeepsInv | keystore2/src/legacy_importer.rs:142-286 | each access keeps the lock, the state and the queue consistent |
| LegacyProtocol.StateNeverGoesBack | keystore2/src/legacy_importer.rs:142-201 | the state never leaves empty and never returns to uninitialized |
| LegacyProtocol.RequestFindsState | keystore2/src/legacy_importer.rs:230-272 | every request runs after the initialization, and one that finds no importer state finds the legacy store empty for good |
| LegacyProtocol.SkippedMeansEmpty | keystore2/src/legacy_importer.rs:230-286 | whoever is told that the store is empty is told the truth |
| LegacyProtocol.FailsExactly | keystore2/src/legacy_importer.rs:142-201 | a request fails exactly when it finds the importer uninitialized for the second time or cannot read the store when it sets the importer up |
| LegacyProtocol.ReadyIsExecuted | keystore2/src/legacy_importer.rs:230-286 | a request made once the importer is set up is executed, unless the store is empty |
| LegacyProtocol.UnreadableStoreStrands | keystore2/src/legacy_importer.rs:142-201 | in every run, if the first look at the store fails, every request that had not finished by then fails, until a new initializer is set |
| LegacyImport.Augment | keystore2/src/legacy_importer.rs:897-913 | KeyMint's parameters come first and unchanged, and each legacy value that is new is added once |
| LegacyImport.LegacyImporterState.GetSuperKeyIdCheckUnlockableOrDelete | keystore2/src/legacy_importer.rs:444-479 | the entry is removed only if the user has no super key anywhere |
| LegacyImport.LegacyImporterState.CharacteristicsFileToCache | keystore2/src/legacy_importer.rs:481-581 | the blob to store is the legacy one, or the upgraded one, encrypted again if it was, with the legacy one and its metadata as superseded; no legacy parameter value is dropped |
| LegacyImport.LegacyImporterState.CheckAndImport | keystore2/src/legacy_importer.rs:585-713 | whatever fails, the entry is still in its file, or a transaction that carries it is committed (its blob or the upgraded one, with all that decrypting it and finding its KeyMint instance takes), or it can never be unlocked; if nothing fails it is imported |
| LegacyImport.LegacyImporterState.CheckAndImportSuperKey | keystore2/src/legacy_importer.rs:715-744 | the super key's file goes only after the key is stored |
| LegacyImport.LegacyImporterState.DeleteOne | keystore2/src/legacy_importer.rs:779-856 | an entry goes only if it is not spared, and a rollback resistant one only after its row was stored for the collector, if it can be unwrapped; nothing else is stored |
| LegacyImport.LegacyImporterState.BulkDelete | keystore2/src/legacy_importer.rs:748-857 | the loop removes listed entries only, all that are not spared if nothing fails, each rollback resistant one after its row was stored, in the order of the list; the query by id selects all these rows and the query by state all but the last |
| LegacyImport.BulkDeletionTakes | keystore2/src/legacy_importer.rs:791-812 | of the listed entries exactly these stay: keys the system boots with, and what is not an encrypted key if those are to be kept |
| LegacyImport.DeletedKeyIsHeld | keystore2/src/legacy_importer.rs:814-850 | a rollback resistant key deleted in bulk has a row with its blob, and if it is encrypted with vector, tag, super key and KeyMint instance |
| LegacyImport.ReachesKeyMintExactly | keystore2/src/legacy_importer.rs:811-850 | of a removed rollback resistant key a row is selected that names its KeyMint instance exactly if the key was encrypted, with a known super key and KeyMint instance, and under the query by state its row is not the last |
| LegacyImport.LastKeyStaysBehind | keystore2/src/legacy_importer.rs:779-857 | the same told from the inputs of a bulk deletion that goes through: under the query by state the last key handed on is left out |
| LegacyImport.PassedOnIsHandedOver | keystore2/src/gc.rs:103-134 | what is selected so is handed over, with its KeyMint instance, before the query finds nothing any more |
| LegacyImport.LastRowIsForgotten | keystore2/src/database.rs:1319-1368 | the last row is never taken up by a collector that selects by state, unless another blob is stored without a key |
| LegacyImport.LoneKeyStaysBehind | keystore2/src/legacy_importer.rs:748-857 | a bulk deletion of one encrypted key, with everything known: the query by id selects its row and the query by state does not |
| LegacyImport.ImportedKeyLoads | keystore2/src/legacy_importer.rs:585-713 | after an import the key loads from its location with the legacy blob or the upgraded one, the metadata to decrypt it and to find its KeyMint instance, the certificates and the parameters, and every other key loads as before |
| LegacyImport.ImportedBlobUnwraps | keystore2/src/legacy_importer.rs:640-672 | an encrypted key loads with its own vector, tag, super key and KeyMint instance |
| LegacyImport.ImportedKeyIsFound | keystore2/src/legacy_importer.rs:603-605 | the app it belongs to finds the key under its alias, whatever namespace the request named |
| LegacyImport.UpgradedKeyImported | keystore2/src/legacy_importer.rs:585-713 | an import by the longest way: encrypted, with parameters from a file, and upgraded by KeyMint; the upgraded blob loads and the file is gone |
| LegacyImport.UserCertificateCarriedOver | keystore2/src/legacy_importer.rs:688-713 | a user certificate is carried over exactly if there is a key with it |
| LegacyImport.UserCertificateLost | keystore2/src/legacy_importer.rs:688-713 | an import of an entry with two certificates and no key: the file is gone and only the CA certificate loads |
| LegacyStore.LegacyKeystore.GetLegacy | keystore2/legacykeystore/lib.rs:445-537 | importing an entry leaves what callers see unchanged |
| LegacyStore.LegacyKeystore.Get | keystore2/legacykeystore/lib.rs:327-344 | the answer is the map's; not found exactly if the map has no such entry |
| LegacyStore.LegacyKeystore.Put | keystore2/legacykeystore/lib.rs:346-354 | the map gets the entry, whether or not a stale file can be removed; if not the file stays |
| LegacyStore.LegacyKeystore.Remove | keystore2/legacykeystore/lib.rs:356-370 | the map loses the entry exactly if it is not in both places |
| LegacyStore.RemovedEntrySurvives | keystore2/legacykeystore/lib.rs:346-370 | a put whose file removal fails, then a removal that succeeds: the entry is still there |
| LegacyStore.LegacyKeystore.BulkDelete | keystore2/legacykeystore/lib.rs:476-506 | the loop removes all listed files but those that cannot be removed |
| LegacyStore.LegacyKeystore.DeleteNamespace | keystore2/legacykeystore/lib.rs:372-392 | the map loses the entries of the app's uid, or of wifi for its namespace, and no others; other namespaces have none |
| LegacyStore.LegacyKeystore.DeleteUser | keystore2/legacykeystore/lib.rs:394-400 | the map loses the entries of the user and no others |
| LegacyStore.LegacyKeystore.List | keystore2/legacykeystore/lib.rs:402-411 | the aliases with the prefix, sorted, each once |
| LegacyStore.EffectiveUid | keystore2/legacykeystore/lib.rs:307-325 | exactly the caller's own uid, or none, gives the caller's own; exactly the system asking for wifi gives that of wifi; all else is refused |
| Confirmation.BackOffGrows | keystore2/src/apc.rs:111-135 | the penalty never shrinks, doubles between the sixth and the sixteenth failure and stops at a day |
| Confirmation.StepKeepsInv | keystore2/src/apc.rs:189-299 | presenting, cancelling and ending a prompt keep each client's record equal to its history |
| Confirmation.OnePromptAtATime | keystore2/src/apc.rs:242-299 | no two prompts are shown at once |
| Confirmation.AttemptsAreSpaced | keystore2/src/apc.rs:111-135 | the failed attempts of a client since its last success are as far apart as their number demands, and take at least the sum of the back-offs |
| Confirmation.CounterFits | keystore2/src/apc.rs:217-222 | the 32-bit counter cannot overflow in eleven million years |
| Confirmation.PromptAllowed | keystore2/src/apc.rs:250-268 | a prompt is refused for cooling down exactly while the back-off of the client's history lasts, its last instant included |
| Confirmation.SuccessClearsRecord | keystore2/src/apc.rs:207-215 | a confirmed prompt clears that client's record, no other, and sends its token |
| Confirmation.BackOffBegins | keystore2/src/apc.rs:111-125 | the first two failures are free, the third to fifth cost 30 seconds and the sixth 60 |
| Confirmation.PromptOutcome | keystore2/src/apc.rs:242-299 | a prompt is shown exactly if no other is, the client need not wait and the HAL accepts; otherwise nothing changes and the client is told why |
| Confirmation.EndOfPrompt | keystore2/src/apc.rs:189-231 | over any run: the end of a prompt clears its client's record if it was confirmed, adds an attempt if the user declined it or it was aborted after the client took it back, and else counts for nothing; no other record changes |
| Confirmation.OnlyEndsCount | keystore2/src/apc.rs:189-321 | nothing else touches a record or sends a token |
| Confirmation.ApcManager.PresentPrompt | keystore2/src/apc.rs:242-299 | the method does what the step says |
| Confirmation.ApcManager.CancelPrompt | keystore2/src/apc.rs:301-321 | only the client that shows the prompt can cancel it |
| Confirmation.ApcManager.OnResult | keystore2/src/apc.rs:189-240 | the session ends, with reward or penalty |
| BootLevelKeys.AccessibleExactly | keystore2/src/boot_level_keys.rs:206-270 | after any calls, with any failed derivations, a level is accessible exactly if none finished the cache and none that succeeded advanced beyond it |
| BootLevelKeys.BootLevelKeyCache.constructor | keystore2/src/boot_level_keys.rs:200-204 | all levels are accessible at first |
| BootLevelKeys.BootLevelKeyCache.GetHkdfKey | keystore2/src/boot_level_keys.rs:214-236 | the key of an accessible level is as many derivations from the level zero key, cached or not; a failed derivation leaves the cache right |
| BootLevelKeys.BootLevelKeyCache.AdvanceBootLevel | keystore2/src/boot_level_keys.rs:238-264 | keys below the new level are dropped, going back has no effect, and an advance that fails, which is exactly if a derivation it needs fails, has none either |
| BootLevelKeys.BootLevelKeyCache.Finish | keystore2/src/boot_level_keys.rs:266-270 | no level is accessible any more |
| BootLevelKeys.BootLevelKeyCache.AesKey | keystore2/src/boot_level_keys.rs:272-289 | none exactly for inaccessible levels, an error exactly if a derivation fails, and otherwise always the same key for the same level |
| Credential.AuthKeyRoundTrip | identity/CredentialData.cpp:174-208 | a key record loads as saved, and one without the seventh field with the longest validity |
| Credential.LaterFieldsIgnored | identity/CredentialData.cpp:143-246 | fields that a later version appends to a record are ignored, and a record that lacks fields is refused |
| Credential.EntryRoundTrip | identity/CredentialData.cpp:323-367 | an entry loads as saved |
| Credential.MalformedIdsLoadAsNone | identity/CredentialData.cpp:210-227 | any malformed list of profile ids is read as an empty one, without an error |
| Credential.CredentialRoundTrip | identity/CredentialData.cpp:78-431 | loading what was saved restores every field, in whatever order the map comes and whatever was in memory; refused exactly if the data or the certificate is missing or the number of keys is not the count |
| Credential.NullExactly | identity/CredentialData.cpp:174-208 | loading dereferences null exactly if the first defect in the order of the file is a key record with six right fields and a seventh that is not a number |
| Credential.NullWitness | identity/CredentialData.cpp:174-208 | a file that does |
| Credential.SharedEntryIds | identity/CredentialData.cpp:73-76 | two namespaces share an entry id exactly if they are equal or one goes on with a colon after the other |
| CredentialStore.EntryReplaced | identity/CredentialData.cpp:73-76 | two entries of two such namespaces: the second replaces the first |
| Credential.ParseItems | identity/CredentialData.cpp:229-246 | the loop yields the elements in order, or what the first malformed one says |
| CredentialStore.CredentialData.SaveToDisk | identity/CredentialData.cpp:78-141 | the loops build the item that the round trip is about |
| CredentialStore.CredentialData.LoadFromDisk | identity/CredentialData.cpp:248-431 | the loops load what the round trip is about, and fail on exactly what is malformed or incomplete |
| CredentialStore.CredentialData.SetAvailableAuthenticationKeys | identity/CredentialData.cpp:492-508 | the list has the wanted length, keys that stay are unchanged, new ones were never certified; a negative count ends the process |
| CredentialStore.CredentialData.SelectAuthKey | identity/CredentialData.cpp:555-579 | the key selected, and one use counted for it and no other |
| CredentialStore.CredentialData.GetAuthKeysNeedingCertification | identity/CredentialData.cpp:581-618 | exactly the keys in need get a new pending certificate, up to the first for which the HAL fails, and if it fails for none all pending ones are returned in order |
| CredentialStore.CredentialData.StoreStaticAuthenticationData | identity/CredentialData.cpp:620-636 | the first key that waits for this certificate is certified, or nothing changes |
| CredentialStore.CertificationCompletes | identity/CredentialData.cpp:620-636 | the key is usable and in need of nothing then, exactly if the certificate is not empty |
| CredentialStore.NeedsNewKeyExactly | identity/CredentialData.cpp:593-600 | a key needs a new one exactly if none waits and it has none certified, or that is used up or soon expires |
| CredentialStore.CertifiedPairIsUsed | identity/CredentialData.cpp:601-636 | the pair made for a key in need is the one in use once it is certified |
| CredentialStore.RequestsAre | identity/CredentialData.cpp:613-618 | to be certified are the new certificates and those that keys wait for, and no others |
| AuthKeys.FindAuthKey | identity/CredentialData.cpp:519-553 | the first of the least used keys that are certified and not expired unless that is allowed, if it is not used up unless that is; none exactly if there is no such key |
| AuthKeys.FindsUnique | identity/CredentialData.cpp:519-553 | there is only one such answer |
| AuthKeys.FairUse | identity/CredentialData.cpp:519-579 | of n eligible fresh keys selections succeed exactly n times the limit, no two keys ever differ by more than one use and none exceeds the limit |
| AttestationId.Build | keystore/keystore_attestation_id.cpp:201-262 | the two loops keep the longest list of packages, and then of signatures, that the estimate allows; refused exactly if there is no package, or one without a name is met before the estimate is used up |
| AttestationId.KeptFits | keystore/keystore_attestation_id.cpp:92-123 | with version codes below 2^47 what is kept is encoded in at most 1024 bytes |
| AttestationId.TooLong | keystore/keystore_attestation_id.cpp:201-262 | three long names with version 2^47 and five signatures are estimated at 1024 and encoded as 1025 bytes |
| AttestationId.SafeBelow | keystore/keystore_attestation_id.cpp:92-123 | the estimate is safe for all inputs with versions below a bound exactly if the bound is at most 2^47 |
| AttestationId.Gather | keystore2/aaid/aaid.cpp:22-42 | the size is that of the encoding of what was kept, and with such versions the size check never fails |

## Left out

- GcNotification.NoLostWakeup: assumes that the worker object exists as long as the collector, as the global one does; the weak reference is not modelled.
- GarbageCollection.CollectorIsSafe: assumes that the random id of a new key is not carried by leftover blob rows, which the code relies on 64 random bits for; `ReusedIdRevives` is what happens otherwise.
- LegacyStore.LegacyKeystore.Get: is about calls one after the other; a get that imports and a put at the same time are not modelled.
- LegacyImport.LegacyImporterState.CheckAndImport: the reading of legacy files, KeyMint's characteristics and the ciphers are answers from outside.
- Credential.CredentialRoundTrip: CBOR items are trees; encoding them as bytes, and how the CBOR library treats entry sizes of 2^63 and more, which the model converts as C++ does, are not covered.
- CredentialStore.CredentialData.SelectAuthKey: a use count beyond 2^31 - 1, possible only with exhausted keys allowed, wraps around in the model.
- BootLevelKeys.BootLevelKeyCache.AesKey: HKDF is an arbitrary function; nothing is said about its strength.
- AttestationId.Build: the bytes of names and digests are not modelled, only their lengths.
- SQL text, indices, pragmas, storage statistics and retries when the database is busy: only the committed effect of each transaction is modelled.
- Row ids at the end of SQLite's range, and sizes beyond what a process can hold.
- Binder, KeyMint, the identity HAL, SELinux and the cryptographic libraries.
- `perboot.rs`, `permission.rs`, `super_key.rs` but for which blobs have to be unwrapped, `versioning.rs` and the parsing in `legacy_blob.rs`.
- Panicking jobs, poisoned mutexes, weak memory ordering and what a restart does to the collector's lists.
- Loading only some components of a key, and the time-out of the worker's wait as a duration.
- Draining the channel of confirmation tokens, and the checks of authorize_create.
- `keystore_cli_v2.cpp`, `keystore2_engine.cpp`, `odsign_main.cpp`, provisioning tools, metrics, audit log, entropy and error mapping: they pass data on to the parts above or to the system.
- `key_parameter.rs` and the blob wrapping of `km_compat.rs`: conversions between two forms of the same data.
