# Quasar: synchronisation of stores

Quasar keeps one or two key-value stores (Hazelcast and MongoDB) in step with a source of truth, which is
either a Kubernetes informer or the primary store itself. This project models what Quasar does around the
stores and proves what that achieves. `dafny verify dfyconfig.toml` checks everything.

| file | content |
|---|---|
| `Json.dfy` | JSON trees, the accessors of an unstructured object, environment defaulting in place |
| `Strings.dfy` | the string operations of Go's standard library that naming and selectors need |
| `Config.dfy` | configured resources, dataset names, document ids |
| `Replication.dfy` | the dual-store protocol over any keys and values: steps, runs, conservation, convergence |
| `RenamedReplication.dfy` | the same protocol between stores that key objects differently |
| `Stores.dfy` | what each call is to Hazelcast and to MongoDB, and a store client over its remote data |
| `StoreManager.dfy` | the dual store manager as a class that takes the steps of `Replication` |
| `Reconciliation.dfy` | reconciliation passes as a class with the loops of the source |
| `PassTheorems.dfy` | exact effect, idempotence, repair and completeness of passes |
| `HazelcastClient.dfy` | the triggers of passes and the reconnect sweep, one call at a time |
| `SweepTheorems.dfy` | what a reconnect sweep brings into the store from the registered sources |
| `Protocol.dfy` | the same triggers as atomic steps of arbitrarily many threads |
| `Interleaving.dfy` | those threads with the data: every listing, reading and upsert a step of its own |
| `Metrics.dfy`, `Watcher.dfy` | informer notifications, the mirrored store and the gauge |
| `StaleSnapshots.dfy` | notifications interleaved with passes that work from old listings |
| `ProvisioningSync.dfy` | requests, goroutines and passes over stale listings of the primary, interleaved |
| `Provisioning.dfy` | PUT, GET and DELETE of the provisioning API |
| `Selector.dfy` | field selectors |

## How the system is represented

- A remote store is a map from dataset and id to documents. What the remote side does to a call is an input:
  a write is `Done`, `Refused`, `Uncertain` (an error after the write took effect) or `Panicked` (a missing
  Hazelcast map), a read gets through or not. So contracts say exactly when a call fails. A store class keeps the
  answers that its callers heard in a ghost log. For a pass these inputs are one `Remote`, for a sweep one per
  registered reconciliation.
- A MongoDB document carries its collection key as `_id`. The model keeps the rest of the document under that
  key and shows the `_id` in reads and listings, so documents are compared without it. A replacement that would
  change the `_id` is refused, as MongoDB does.
- One class `Store` with a constant kind stands for the two implementations of the `Store` interface.
- Objects are passed by reference where the source edits them in place: a pass edits the objects of its listing,
  and a watcher handler edits the object of the informer.
- Concurrency is a state machine over labelled atomic steps (`Replication`, `Protocol`, `StaleSnapshots`,
  `ProvisioningSync`, `Interleaving`); a run is any sequence of enabled steps, so theorems about runs hold for every schedule.

## Where the code does not do what one might expect

Each of these is stated with the exact condition under which things go well.

- Secondary copies are unordered goroutines, so a create and a delete of one key can leave the stores different
  for good (`Replication.ReorderedCopiesDiverge`). Every schedule converges exactly in settled states
  (`ConvergesIffSettled`), and a run keeps its states settled exactly when each event is harmless
  (`SettledRuns`).
- MongoDB and Hazelcast agree on the key of a call exactly when the document id is the name
  (`Stores.SameOperationIff`); under the default uid key a GET right after a PUT misses
  (`Provisioning.DefaultKeyMisses`, with an accepted request in `Provisioning.PutWithoutUidIsLost`).
- Writes go to the dataset of kind + "s", reads and passes use the configured plural; the two are one dataset
  exactly when these words agree (`Config.WrittenDatasetIsReadDataset`, with an accepted request in
  `Provisioning.IrregularPluralIsLost`).
- An incremental pass compares sizes first, so stale keys can mask missing ones
  (`PassTheorems.IncrementalCompleteness`, `PassTheorems.StaleKeyMasksMissingName`).
- A pass never removes a key, and a pass that listed an object before its deletion or its last change can put
  the old version back (`StaleSnapshots.VersionIsFinalIff`, `StaleSnapshots.DeleteIsFinalIff`, with runs in
  `StaleSnapshots.DeleteUndone` and `StaleSnapshots.UpdateUndone`), a deleted one for good
  (`StaleSnapshots.StaleKeyIsForever`). In provisioning mode `ProvisioningSync.EntryIsFinalIff` says when an
  entry is final, and `ProvisioningSync.DeleteUndone` shows a DELETE that is undone.
- A connect handler that looks at the flag before the disconnect handler resets it is spent, and the flag stays
  down (`Protocol.OvertakingConnectIsLost`): at rest the flag is up exactly when a connect handler looked at it
  after the last disconnect handler's step (`Protocol.FlagUpIffLookedAfterDrops`).
- An incremental pass can rewrite entries in exactly two ways (`PassTheorems.IncrementalKeepsEntries`): after a
  failed key read, which makes it a full pass (`PassTheorems.FailedKeysMeanFullPass`,
  `PassTheorems.FailedKeysRewrite`), and for objects that are written to another dataset than the counted one
  (`PassTheorems.ForeignDatasetRewrites`). In the second case the size check never closes, and every pass
  repeats the work (`SweepTheorems.MismatchIsForever`).
- Two configured resources with dots in plural or version can share a dataset; `Config.SameDatasetIff` says
  exactly when.

## Model

| member | source | states |
|---|---|---|
| Json.Unstructured.AddMissingEnvironment | internal/utils/utils.go:69-84 | the object itself is edited, into its environment-defaulted form |
| Json.EnvironmentIsExact | internal/utils/utils.go:69-84 | an object changes exactly when `spec` is absent or a map without `environment`, and what it then becomes |
| Json.EnvironmentIdempotent | internal/utils/utils.go:69-84 | a second defaulting changes nothing, for all JSON trees |
| Json.EnvironmentIsStringOrUntouched | internal/utils/utils.go:69-84 | afterwards `spec.environment` reads "default" or nothing was touched, including null or non-map `spec` and a non-string environment |
| Json.EnvironmentKeepsPaths | internal/utils/utils.go:69-84 | every existing path is kept, and every path outside `spec` and `spec.environment` reads the same |
| Json.EnvironmentKeepsIdentity | internal/utils/utils.go:69-84 | name, uid, resource version, apiVersion and kind survive the defaulting |
| Json.AccessorsRead | internal/utils/utils.go:17-23 | where name, uid, resource version, apiVersion and kind are read, and that an absent string reads as "" |
| Config.SameDatasetIff | internal/config/resource.go:47-51 | exactly when two configured resources share a dataset, up to case, for all strings |
| Config.DatasetNamesInjective | internal/config/resource.go:47-51 | with dot-free plural and version, equal dataset names mean equal plural, group and version up to case, and conversely |
| Config.DottedPluralCollides | internal/config/resource.go:47-51 | without dot-free plurals two resources can share a dataset |
| Config.WrittenDatasetIsReadDataset | internal/utils/utils.go:86-89 | an object is written to the dataset that is listed and counted exactly when the plural is the kind with an "s", up to case |
| Config.DatasetNamesAreLowered | internal/utils/utils.go:86-89 | dataset names character by character: the joined parts with upper-case letters lowered and nothing else changed |
| Config.RegularPluralsMeet | internal/config/resource.go:47-51 | a resource whose plural is its kind in lower case with an "s" is read where it is written |
| Config.SubscriptionsMeet | internal/config/resource.go:47-51 | for example a Subscription, configured as "subscriptions" |
| Config.EnvironmentKeepsDataset | internal/utils/utils.go:86-89 | defaulting moves no object to another dataset |
| Config.FirstIsFirst | internal/config/config.go:35-48 | a lookup finds the first matching resource, or none exists |
| Config.MongoIdIs | internal/utils/mongo.go:15-30 | the document id of a configured object: the string at the configured path, no id without one, the uid when no path is configured |
| Config.MongoIdOfUnknown | internal/utils/mongo.go:15-30 | the document id of an object that is not configured is its uid |
| Strings.LowerIs | internal/config/resource.go:50-50 | each upper-case ASCII letter becomes its lower-case partner, every other character stays |
| Strings.TrimSpaceIs | internal/store/mongo.go:334-339 | trimming removes the white space around a string and nothing else |
| Strings.SpacesAre | internal/store/mongo.go:334-334 | which characters are white space |
| Config.FieldPathIs | internal/utils/mongo.go:20-20 | a configured field is a path separated by dots, with or without a leading one |
| Replication.LastWriterWins | internal/store/storemanager.go:98-156 | a fold of operations leaves each key as the last operation on it says |
| Replication.NothingLostNothingInvented | internal/store/storemanager.go:107-114 | issued = applied + failed + pending, as multisets, in every reachable state |
| Replication.OneCopyPerCall | internal/store/storemanager.go:102-114 | in every run, a call that returns adds exactly its own operation to the pending ones, also when the primary failed, and a panicking call adds none |
| Replication.PendingIsCallsLessEndings | internal/store/storemanager.go:107-114 | in every reachable state the pending goroutines are as many as the returned calls and initially pending ones less the ended |
| Replication.SecondaryProvenance | internal/store/storemanager.go:107-156 | a secondary entry is the initial one or the effect of some issued write to its key, with failures of every kind |
| Replication.AgreementIsLastEffects | internal/store/storemanager.go:98-156 | after any history the stores agree on a key exactly when its last applied write and its last applied copy have the same effect |
| Replication.ConvergesIffSettled | internal/store/storemanager.go:107-156 | no schedule of the pending goroutines can make the stores differ exactly when each leaves its key as the primary has it and the other keys agree |
| Replication.WriteStaysSettled | internal/store/storemanager.go:98-156 | the exact guard under which a write call keeps the stores convergent |
| Replication.DrainStaysSettled | internal/store/storemanager.go:107-114 | the exact condition under which a goroutine's ending, failed or not, keeps the stores convergent |
| Replication.SettledRuns | internal/store/storemanager.go:98-156 | all states of a run are convergent exactly when all its events meet their guards |
| Replication.SecondaryConverges | internal/store/storemanager.go:98-156 | from equal stores, with no failure and no two writes to one key under way, the secondary equals the primary once nothing is pending |
| Replication.ReorderedCopiesDiverge | internal/store/storemanager.go:107-114 | a create and a delete copied in the other order leave the stores different at rest |
| Replication.PanicEndsProcess | internal/store/storemanager.go:107-114 | a panicking goroutine ends the process, and nothing else does |
| RenamedReplication.AlignedRun | internal/store/storemanager.go:98-156 | a run of stores that key differently is, step by step, a run under the keys of the secondary |
| RenamedReplication.RenamedSettledRuns | internal/store/storemanager.go:98-156 | all states of such a run converge up to the renaming exactly when its events are harmless under the keys of the secondary |
| RenamedReplication.RenamedConverges | internal/store/storemanager.go:98-156 | a disciplined run ends with the renamed primary as the secondary once nothing is pending |
| Replication.ReplayChangesNothing | internal/reconciliation/reconciliation.go:107-115 | replaying any history of upserts and deletes on its own result changes nothing |
| Stores.Store.Perform | internal/store/hazelcast.go:139-196 | one remote call changes the data as its operation says when it takes effect, and not otherwise; the caller hears what the remote side did, a refusal for a call that cannot be made |
| Stores.Store.Create | internal/store/mongo.go:92-116 | an upsert under the store's own key; without a document id it fails and changes nothing |
| Stores.Store.Update | internal/store/mongo.go:118-142 | an upsert of the new object under the key of the old one |
| Stores.Store.Delete | internal/store/mongo.go:144-167 | a removal under the store's own key |
| Stores.Store.Count | internal/store/hazelcast.go:273-285 | the number of keys of a dataset; none exactly when the store cannot be read |
| Stores.Store.Keys | internal/store/hazelcast.go:287-308 | each key of a dataset once; none exactly when the store cannot be read |
| Stores.Store.Read | internal/store/mongo.go:214-238 | the stored document with its `_id`, or not found exactly when there is none; an error exactly when the store cannot be read |
| Stores.Store.List | internal/store/mongo.go:240-296 | each document once; all of them from MongoDB, exactly the readable ones from Hazelcast |
| Stores.SameOperationIff | internal/utils/mongo.go:15-30 | a call is the same operation on both stores exactly when the document id is the name and the object brings no `_id` |
| Stores.HazelcastOpIs | internal/store/hazelcast.go:139-196 | which entry each call writes or deletes in Hazelcast |
| Stores.MongoOpIs | internal/store/mongo.go:92-167 | which document each call replaces or deletes in MongoDB, and which calls it refuses |
| StoreManager.DualStoreManager.Create | internal/store/storemanager.go:98-115 | takes exactly the write step of the protocol, primary first, one pending copy |
| StoreManager.DualStoreManager.Update | internal/store/storemanager.go:117-135 | takes exactly the write step of the protocol for an update |
| StoreManager.DualStoreManager.Delete | internal/store/storemanager.go:137-156 | takes exactly the write step of the protocol for a delete |
| StoreManager.DualStoreManager.FinishOne | internal/store/storemanager.go:107-114 | takes exactly the drain step of the protocol; a panic ends the process |
| StoreManager.DualStoreManager.Read | internal/store/storemanager.go:172-177 | reads come from the primary only |
| StoreManager.MongoAndHazelcastConverge | internal/store/storemanager.go:98-156 | convergence for a MongoDB and a Hazelcast store, either of them primary, for objects named by their document id |
| StoreManager.FiledStoresConverge | internal/store/storemanager.go:98-156 | convergence of the two stores, either of them primary, for any document id, the default uid included, up to the one-to-one renaming of keys |
| Reconciliation.Reconciliation.GenerateDiff | internal/reconciliation/reconciliation.go:118-135 | the nested loops compute the filter by name |
| Reconciliation.Reconciliation.Restore | internal/reconciliation/reconciliation.go:107-115 | the store becomes the fold of the upserts that took effect, exactly the listed objects that the loop came to are edited in place, errors end nothing, a panic ends the loop; each upsert is answered as the remote side lets it |
| Reconciliation.EditedOnce | internal/reconciliation/reconciliation.go:107-108 | a listed object is edited once, as soon as the loop came to it or to another listing of it |
| Reconciliation.Reconciliation.FullyReconcile | internal/reconciliation/reconciliation.go:102-116 | a full pass restores every listed object |
| Reconciliation.Reconciliation.IncrementallyReconcile | internal/reconciliation/reconciliation.go:64-100 | size check, key read and diff select the items; nothing else is written; each read gets through exactly as the remote side lets it |
| Reconciliation.Reconciliation.Reconcile | internal/reconciliation/reconciliation.go:38-62 | with the lock, a pass restores what its mode selects from what its source lists; failed listings and unknown modes do nothing |
| Reconciliation.Reconciliation.SafeReconcile | internal/reconciliation/reconciliation.go:166-189 | skipped exactly when locked; otherwise the pass runs and the lock is free afterwards, panic or not |
| Reconciliation.ListResources | internal/reconciliation/store.go:26-33 | new objects holding a listing of the primary's dataset or of the cluster, none exactly when the source cannot be read |
| PassTheorems.PassIsExact | internal/reconciliation/reconciliation.go:107-115 | a key ends with the normalised form of the last item for it that got through, else as before |
| PassTheorems.PassKeepsKeys | internal/reconciliation/reconciliation.go:102-116 | nothing in a pass removes a key |
| PassTheorems.FullPassIdempotent | internal/reconciliation/reconciliation.go:102-116 | a second failure-free pass over the edited listing changes nothing |
| PassTheorems.FullPassRepairs | internal/reconciliation/reconciliation.go:102-116 | from any store, every listed object is restored exactly when keys tell the objects apart; all else, stale keys included, stays |
| PassTheorems.FullPassMirrorsIff | internal/reconciliation/reconciliation.go:102-116 | the store becomes a mirror of the listing exactly when it had no stale key |
| PassTheorems.RepairFromPrimary | internal/provisioning/service.go:108-110 | in provisioning mode one full pass leaves every primary object in Hazelcast under its name, normalised and equal up to `_id` |
| PassTheorems.DiffIsSubsequence | internal/reconciliation/reconciliation.go:118-135 | the diff is the order-preserving subsequence of the resources with names outside the keys |
| PassTheorems.KeepsEntriesIff | internal/reconciliation/reconciliation.go:107-115 | a pass keeps every entry that was there exactly when the last item that got through to each was stored already |
| PassTheorems.KeepsEntriesWhateverIff | internal/reconciliation/reconciliation.go:107-115 | it does so for all answers of the remote side exactly when every item whose key is present is stored already |
| PassTheorems.IncrementalKeepsEntries | internal/reconciliation/reconciliation.go:64-100 | an incremental pass changes no entry that was there, whatever its upserts are answered, exactly when its count fails or shows no shortage, or every listed object is stored in normalised form already whose key is present but unseen, the keys being unread or the object being filed outside the counted dataset |
| PassTheorems.HomePassKeepsEntries | internal/reconciliation/reconciliation.go:64-100 | for objects filed in the counted dataset a successful key read alone is enough |
| PassTheorems.FailedKeysRewrite | internal/reconciliation/reconciliation.go:85-92 | a run with a failed key read that rewrites an entry |
| PassTheorems.ForeignDatasetRewrites | internal/reconciliation/reconciliation.go:80-99 | with every read successful, an object filed outside the counted dataset is rewritten |
| PassTheorems.ForeignPassNeverCloses | internal/reconciliation/reconciliation.go:66-80 | a pass whose objects are all filed elsewhere leaves the counted keys, and so every later reading, as they were |
| PassTheorems.IncrementalCompleteness | internal/reconciliation/reconciliation.go:64-100 | all names are present afterwards exactly when the size check masked none; with keys among the names the key set equals the names |
| PassTheorems.StaleKeyMasksMissingName | internal/reconciliation/reconciliation.go:80-80 | a stale key hides a missing name from the size check |
| PassTheorems.FailedKeysMeanFullPass | internal/reconciliation/reconciliation.go:85-92 | a failed key read after a size mismatch selects every resource |
| HazelcastClient.HazelcastStore.InitializeResource | internal/store/hazelcast.go:90-123 | a missing map or index panics before anything is registered; otherwise the reconciliation is registered and, when provisioning and connected, runs one pass over a listing of its source and a reading of the store |
| HazelcastClient.HazelcastStore.Tick | internal/reconciliation/reconciliation.go:147-157 | a tick runs one pass, over a listing of its source and a reading of the store, exactly when connected and the lock is free |
| HazelcastClient.HazelcastStore.Sweep | internal/store/hazelcast.go:389-414 | one pass for each reconciliation with a free lock, whichever of them panic, each over a listing of its registered source and a reading of the store as the passes before it left it; the store is their composition |
| HazelcastClient.HazelcastStore.OnConnected | internal/store/hazelcast.go:374-415 | a sweep when the flag was down, nothing when it was up; the flag is up afterwards |
| SweepTheorems.SweepIsPassByPass | internal/store/hazelcast.go:389-414 | in either mode a dataset that only one pass of a sweep writes to ends as that pass would leave it had it run alone |
| SweepTheorems.MismatchIsForever | internal/reconciliation/reconciliation.go:66-80 | over any number of incremental passes, a counted dataset that nothing is written to stays empty, and each counting pass upserts its whole listing again |
| SweepTheorems.SweepRestoresAll | internal/store/hazelcast.go:389-414 | after a full-mode sweep, as `OnConnected` promises it, whose listings and upserts got through, the store holds the objects of all registered sources at once exactly when their keys tell all of them apart, whatever the plurals; datasets without such objects are as before |
| SweepTheorems.SweepRestoresEach | internal/store/hazelcast.go:389-414 | sources that share no dataset are restored independently, each exactly when its own keys tell its objects apart |
| SweepTheorems.SweepCompletesAll | internal/reconciliation/reconciliation.go:64-100 | after an incremental-mode sweep each registered dataset has all listed names exactly when its size before the sweep masked none |
| SweepTheorems.HealthySweepSucceeds | internal/store/hazelcast.go:389-414 | when every call of a sweep gets through, all its passes succeed, as the theorems above ask |
| HazelcastClient.HazelcastStore.OnDisconnected | internal/store/hazelcast.go:417-425 | the flag is down afterwards |
| Protocol.Reachable | internal/reconciliation/reconciliation.go:166-189 | every reachable state satisfies the invariants of locks, flag and sweeps, over any number of threads |
| Protocol.AtMostOneInside | internal/reconciliation/reconciliation.go:171-188 | at most one thread is inside `reconcile` per reconciliation |
| Protocol.SkippedIffAnotherHolds | internal/reconciliation/reconciliation.go:171-176 | a trigger is skipped exactly when another thread holds the lock at that step |
| Protocol.ReturnReleases | internal/reconciliation/reconciliation.go:177-188 | from any reachable state a returning pass releases its lock by its own next steps, disturbs nobody, and goes on with the rest of its sweep |
| Protocol.PanicReleases | internal/reconciliation/reconciliation.go:177-188 | so does a panicking one, thanks to the recover |
| Protocol.PanicWithoutRecover | internal/store/hazelcast.go:399-413 | without that recover a panicking pass of any reachable state still releases its lock, but outside a sweep nothing happens any more, and in a sweep exactly what was still to visit stays untried |
| Protocol.DropsMinusSweeps | internal/store/hazelcast.go:374-425 | effective disconnects minus started sweeps is 0 when connected and 1 when not, in every interleaving |
| Protocol.FlagUpIffSwappedAfterDrops | internal/store/hazelcast.go:381-425 | in every run the flag is up exactly when each disconnect step was followed by a swap |
| Protocol.FlagUpIffLookedAfterDrops | internal/store/hazelcast.go:381-425 | at rest it is up exactly when each disconnect step was followed by a look or a swap of some connect handler |
| Protocol.HandlerSweepsIff | internal/store/hazelcast.go:381-387 | a connect handler starts a sweep exactly when the flag is down at its look and still down at its next step |
| Protocol.TickGoesOnIff | internal/reconciliation/reconciliation.go:150-157 | a tick goes on to the lock exactly when the flag is up at its look |
| Protocol.LostMemberGoesOn | internal/store/hazelcast.go:125-129 | a lost member goes to the lock of every registered reconciliation whatever the flag is |
| Protocol.ConnectedLooks | internal/store/hazelcast.go:381-384 | a connect handler goes on to its swap exactly when the flag is down at its look |
| Protocol.DisconnectedDrops | internal/store/hazelcast.go:417-425 | a disconnect handler leaves the flag down, and counts exactly when it was up |
| Protocol.SweepVisits | internal/store/hazelcast.go:385-413 | a successful swap starts a sweep over all that is registered, and each visit goes to a lock |
| Protocol.VisitableIff | internal/store/hazelcast.go:396-413 | a sweep may visit what was registered at its start and, besides, what was registered since, nothing twice; it may end exactly when all of its start is tried |
| Protocol.HandlerEnds | internal/store/hazelcast.go:381-414 | a sweep that ends is recorded and leaves its thread free, and so does a lost swap |
| Protocol.SweepTriesAll | internal/store/hazelcast.go:389-414 | with the recover of SafeReconcile no panic ends the process or a sweep early, and every ended sweep has tried all reconciliations registered at its start |
| Protocol.SweepIsRange | internal/store/hazelcast.go:389-414 | with or without it, an ended sweep tried what Range visits when the passes that panicked during the sweep let their panics escape only without it; of its goal it tried exactly what it did not leave |
| Protocol.RangeReachesAllIff | internal/store/hazelcast.go:399-413 | a sweep would reach all entries exactly when no callback before the last let a panic escape |
| Protocol.OvertakingConnectIsLost | internal/store/hazelcast.go:381-387 | a connect handler ahead of the disconnect handler leaves the flag down with no sweep |
| Interleaving.PassesSerialise | internal/reconciliation/reconciliation.go:38-189 | over any number of threads and every interleaving of listings, readings and upserts, the store is what the passes make of it one after the other in lock order, and each has read what the passes before it leave |
| Interleaving.AtRestWholePasses | internal/reconciliation/reconciliation.go:166-189 | with no thread inside a pass, the store is that of whole passes in lock order |
| Interleaving.SoloPass | internal/reconciliation/reconciliation.go:38-116 | a thread left to itself can run every pass of the sequential model, with every sequence of answers, and makes the same of the store |
| Interleaving.KeysAskedIff | internal/reconciliation/reconciliation.go:80-85 | a pass that has counted asks for the keys exactly when the store holds fewer than it listed |
| Interleaving.LockOpensPass | internal/reconciliation/reconciliation.go:171-176 | taking a free lock opens a pass at the end of the log, a taken one opens none |
| Metrics.GetLabelsForResource | internal/utils/prometheus.go:16-37 | the loop computes the resolvable labels |
| Metrics.ResolvedLabel | internal/utils/prometheus.go:19-33 | a "$" value gives the string at its path or no label, any other value itself |
| Metrics.EnvironmentLabel | internal/utils/prometheus.go:19-33 | for example "$spec.environment" |
| Watcher.ResourceWatcher.Add | internal/k8s/watcher.go:115-136 | the object is normalised in place and stored, with one copy for the secondary; a successful add counts one in its series |
| Watcher.ResourceWatcher.Update | internal/k8s/watcher.go:138-159 | an equal resource version is a no-op; otherwise the new object is normalised and stored |
| Watcher.ResyncIffSameVersion | internal/k8s/watcher.go:142-147 | an update is skipped exactly when `metadata.resourceVersion` is the same on both sides, an absent one reading as "" |
| Watcher.VersionsDecide | internal/k8s/watcher.go:142-144 | for objects that carry a version the two strings decide |
| Watcher.CacheHoldsEditedObjects | internal/k8s/watcher.go:115-180 | the informer holds the objects as the handlers edited them, a resynced one as it came |
| Watcher.ResourceWatcher.Delete | internal/k8s/watcher.go:161-180 | a successful delete removes the name and counts one off its series |
| Watcher.DeliveryMirrors | internal/k8s/watcher.go:115-180 | exactly when a name is right in the store after one delivery, with any answer; others are untouched |
| Watcher.DeliveryStores | internal/k8s/watcher.go:115-180 | a delivery changes at most the entry of its name, to the normalised content it brings, exactly when its call takes effect |
| Watcher.WatcherSimulates | internal/k8s/watcher.go:115-180 | over any run a store keyed by name equals the informer's objects in normalised form after every delivery |
| Watcher.GaugeConserved | internal/k8s/watcher.go:124-127 | the sum over all series is successful adds minus successful deletes, over any run |
| Watcher.DeliveryKeepsGauge | internal/k8s/watcher.go:170-173 | series stay exact exactly when the delivery moves no object between series |
| Watcher.GaugeCountsObjects | internal/k8s/watcher.go:115-180 | over runs without failure or label change each series counts the live objects with its labels |
| StaleSnapshots.NothingFromThinAir | internal/reconciliation/reconciliation.go:38-116 | with deliveries, failures, panics and stale passes in any order, every entry is initial, gone, or a version once exposed under its name |
| StaleSnapshots.PassAlone | internal/reconciliation/reconciliation.go:102-116 | a pass left to itself can run with every sequence of answers, and makes of the store what the sequential pass makes of it |
| StaleSnapshots.PassBegins | internal/reconciliation/reconciliation.go:38-62 | a pass that is not under way begins over any objects of the source |
| StaleSnapshots.WatcherCatchesUp | internal/k8s/watcher.go:115-180 | with the watcher alone and every call taking effect, the store holds exactly the objects of the source once all notifications are delivered |
| StaleSnapshots.VersionIsFinalIff | internal/reconciliation/reconciliation.go:107-115 | a delivered latest version of a name, or its absence, is final under every continuation exactly when every item of the name in a pass under way normalises to it |
| StaleSnapshots.DeleteIsFinalIff | internal/reconciliation/reconciliation.go:107-115 | a delivered delete is final under every continuation exactly when no pass under way had listed the object |
| StaleSnapshots.FullPassMakesCurrent | internal/reconciliation/reconciliation.go:102-116 | over a quiet source one full pass whose calls take effect makes every live object current for good, whatever other passes do beside it |
| StaleSnapshots.StaleKeyIsForever | internal/reconciliation/reconciliation.go:102-116 | an undone delete is removed by no later pass or notification |
| StaleSnapshots.DeleteUndone | internal/k8s/watcher.go:161-168 | a run without any failure in which a delete between listing and upsert is undone |
| StaleSnapshots.UpdateUndone | internal/k8s/watcher.go:138-150 | a run without any failure in which a stored update is undone |
| Provisioning.ProvisioningService.PutResource | internal/provisioning/crud.go:19-36 | a PUT on either primary: 200 exactly when the store answered done, 500 exactly on an error, before or after the effect, nothing when it panicked; the store effect; rejected requests change nothing |
| Provisioning.ProvisioningService.DeleteResource | internal/provisioning/crud.go:163-181 | a DELETE: 204 exactly when the store answered done, otherwise as for a PUT; the store effect |
| Provisioning.ProvisioningService.GetResource | internal/provisioning/crud.go:41-66 | the document at the address of the URL with for an accepted request 200 with it, 404 exactly when there is none, 500 exactly when the store cannot be read |
| Provisioning.AcceptReadIff | internal/provisioning/middleware.go:49-85 | a read is accepted exactly for a non-empty id and a complete configured URL; 400 exactly without id or configuration, 500 exactly for an incomplete URL |
| Provisioning.AcceptWriteIff | internal/provisioning/utils.go:79-111 | a write is accepted exactly when, besides, its normalised body carries name, apiVersion and configured kind of the URL; otherwise 400, or 500 exactly for an incomplete URL |
| Provisioning.ValidationsAre | internal/provisioning/validate.go:15-52 | the three comparisons of body and URL, each refusing with 400 |
| Provisioning.AcceptedIdentity | internal/provisioning/utils.go:79-111 | an accepted body is the object that the URL names, in group, version, kind and name |
| Provisioning.AddressIff | internal/provisioning/utils.go:128-141 | a write addresses the entry that a read of its URL finds exactly when plural and document id fit |
| Provisioning.PutThenGet | internal/provisioning/crud.go:19-66 | on either store a GET after a PUT returns the normalised body exactly when both address one entry, else what it returned before |
| Provisioning.DeleteThenGet | internal/provisioning/crud.go:163-181 | a GET after a DELETE finds nothing when both address one entry, else what it found before |
| Provisioning.NameKeyIsRequestId | internal/utils/mongo.go:15-30 | with `.metadata.name` as document id every accepted body is keyed by the id of its URL |
| Provisioning.DefaultKeyMisses | internal/utils/mongo.go:29-29 | under the default uid key a GET after a PUT misses exactly when the uid is not the name |
| Provisioning.PutWithoutUidIsLost | internal/utils/mongo.go:29-29 | an accepted PUT without uid whose GET is 404 |
| Provisioning.IrregularPluralIsLost | internal/utils/utils.go:86-89 | an accepted PUT for an irregular plural whose GET is 404, on either store |
| Provisioning.RoundTrip | internal/provisioning/crud.go:19-181 | PUT, GET, DELETE, GET for a resource keyed by name, on either store, and no other entry changes |
| ProvisioningSync.ProvisionedProvenance | internal/store/storemanager.go:98-156 | in provisioning mode, with requests, goroutines, failures, panics and passes over stale listings in any order, every Hazelcast entry is initial, gone, or an object that a request wrote under its key, up to `_id` and normalisation |
| ProvisioningSync.PassAlone | internal/reconciliation/reconciliation.go:102-116 | a pass left to itself can run with every sequence of answers, and makes of Hazelcast what the sequential pass makes of it |
| ProvisioningSync.PassBegins | internal/reconciliation/reconciliation.go:38-62 | a pass that is not under way begins over documents of any listing of the primary |
| ProvisioningSync.EntryIsFinalIff | internal/store/storemanager.go:98-156 | an entry of Hazelcast, or its absence, is final up to `_id` under every continuation without a request for it exactly when every goroutine, listed item and primary document for it would leave it so |
| ProvisioningSync.DeleteUndone | internal/provisioning/crud.go:163-181 | a run without any failure in which a pass undoes a DELETE in Hazelcast for good |
| Selector.ParseFieldSelector | internal/store/mongo.go:324-345 | the loop computes the parsed filter |
| Selector.ParseOfJoined | internal/store/mongo.go:331-343 | for all strings, a comma joins two selectors and the later overrides the earlier |
| Selector.SegmentWithoutEquals | internal/store/mongo.go:335-335 | a segment without "=" is ignored wherever it stands |
| Selector.PaddedSelector | internal/store/mongo.go:333-341 | white space around an assignment, its key and its value does not matter |
| Selector.FirstEqualsSeparates | internal/store/mongo.go:335-340 | the first "=" separates, and both sides are trimmed |
| Selector.PrintThenParse | internal/store/mongo.go:324-345 | printing any expressible filter, keys in any order, and parsing it returns the filter |

## Left out

- Stores.Store.List: field selectors and limits of a listing are not applied, and undecodable MongoDB documents are not modelled; a pass asks for neither.
- StoreManager.DualStoreManager.FinishOne: a goroutine acts on the object as it was at the call; later edits through the shared reference are not modelled: the only edit is the environment defaulting, which callers apply before the call and which then changes nothing (`Json.EnvironmentIdempotent`).
- Interleaving.PassesSerialise: caches that write to one dataset are excluded, since their passes may interleave inside it; requests and notifications beside the passes are the subject of `StaleSnapshots` and `ProvisioningSync`.
- SweepTheorems.SweepCompletesAll: sources whose objects are filed outside the counted dataset are excluded here and covered by `SweepTheorems.MismatchIsForever`.
- Strings.Lower: only ASCII letters are lower-cased, which is all that Kubernetes names contain.
- Watcher.WatcherSimulates: informer tombstones, one name in several namespaces and a changed group or version within a run are excluded by its consistency condition. A MongoDB primary is covered for objects whose document id is their name.
- Provisioning.AcceptedIdentity: groups and versions containing "/" are excluded, since they cannot stand in an apiVersion.
- listResources, listKeys and countResources of the provisioning API: one validation and one store call each.
- The client libraries for Hazelcast, MongoDB, Kubernetes and HTTP: remote data, answers and failures stand in for them; tickers and lifecycle events are arbitrary triggers.
- The Redis store (internal/store/redis.go): most of its reads are unimplemented panics.
- The MongoDB fallback replay (internal/fallback/mongo.go): it is set up without a usable client.
- MatchFieldSelector: a substring test on serialised JSON, a different relation from MongoDB's parsed selector.
- Index creation, token checks, configuration loading, logging, the metrics server, shutdown order and the clamping of the reconciliation interval: settled by one library call or one branch each.
