# A verified model of the Gardener discovery server

The discovery server mirrors Kubernetes objects into two in-memory stores and publishes them over HTTP:
OpenID discovery documents from secrets, cluster CA bundles from configmaps. This project models its
reconcilers, event filters, stores, key codec, HTTP read side, shutdown protocol and certificate reload,
and proves what holds of them in every run.

Run `dafny verify dfyconfig.toml` to verify it.

## How it is organised

| module | what it is |
|---|---|
| `Cluster`, `Wrappers`, `Client` | the Kubernetes objects, the reads of the informer cache, reads that may fail |
| `Controller` | the step machine both reconcilers run in, and the inductive invariant of coherence |
| `Provenance`, `Draining`, `Revocation` | facts about whole runs: where data comes from, how old it can be, what the machine drains to |
| `Scenarios`, `Staleness`, `Orphans` | runs built step by step, and the two in which an entry outlives the resync period |
| `Keys` | `SplitProjectNameAndShootUID` against the joined keys, and the mapping keys |
| `Openidmeta`, `OidcReconciler`, `OidcSystem` | the OIDC reconciler: its decisions, `Reconcile` as methods on a store, its system theorems |
| `Certificates`, `CertificateReconciler`, `CertificateIndex`, `CertificateSystem`, `DataKeys` | the same for the CA reconciler and its two-level index |
| `Refinement`, `Sweep` | the methods and the step machine agree; full sweeps on an unchanging cluster |
| `Stores` | the store on the heap, with real buffers |
| `Locks`, `Linearizability`, `LockedIndex` | the two nested locks, one lock operation at a time, and the index they guard |
| `Handler`, `Shutdown`, `DynamicCert` | HTTP replies, the termination handshake, the serving certificate |

A reconciler appears three times, and the copies are tied together. As a `Program` (`NextStep`) it asks for one
object at a time, so that anything may change between two reads; as methods of a class it takes the exits of
the Go function in their order and updates a store on the heap; as `Decide` it is the verdict on an unchanging
cluster. `ProgramDecides`, `ConcludeDecides` and the `Ended` contracts connect them, and
`DecideKeepsExactlyValid` ties the verdict to a requirement that does not mention the order of checks.

## What is assumed

* controller-runtime, written out at the head of `Controller`: a key is not processed twice at once, a key added
  while it is processed runs again, an error or a recovered panic re-adds the key later, a positive
  `RequeueAfter` re-adds it after that time (the earlier of two due times for one key stands), anything else
  forgets it. Both queues it can run with are covered: one with a single entry per key, where adding a key
  absorbs its delayed entry, and one with a separate delaying part, where it does not (`Absorb` may happen
  whenever a queued key has a timer or a retry). At most 50 workers run. Informers deliver one notification per
  change, in order.
* The JSON, JOSE, PEM, X.509 and UUID libraries are arbitrary deterministic functions (the `Libs` records and
  `acceptsUID`), so every theorem holds for all of them. Of the PEM decoder it is assumed that the remainder
  is shorter than its input when a block is found (RFC 7468 text), of `uuid.Parse`, where it matters, that what
  it accepts has one of the four shapes of `Keys.UUIDShape`.
* Shoot UIDs are canonical UUIDs (section 4 of RFC 9562) where a theorem says `CanonicalShoots`.
* A nil Go map reads like an empty one. Strings are sequences of Unicode code points, which is how
  `strings.TrimSpace` reads them; for the ASCII text Kubernetes names, labels and UIDs consist of, these are
  Go's bytes, and an invalid byte counts as one code point.
* A run is prompt for a key if time passes only while the key is not due, queued or in flight, and none of its
  reads fails. Every staleness bound is proved of all prompt runs. A run is timely if besides the key is processed
  again between any two moments at the first of which it awaits a retry; the entry that outlives the period does
  so in a timely run.
* The secret cache is restricted to one namespace (cmd/discovery-server/app/app.go:110-118), which is why
  OIDC requests are plain names and the store key is the name alone.
* Label and annotation names and values belong to the gardener API library; their values here are the ones the
  repository's tests spell out or use.

## What turned out

* A JWKS of JSON `null` decodes into a nil key set without error, and the loop over its keys then panics. The
  manager recovers the panic as an error, so the reconcile is retried and the entry stays as it was.
  `DecideFailsExactlyOnNilKeySet` says exactly when. The staleness bound of an entry holds in every prompt run
  in which no secret of that name has a nil key set (`ServedDocumentIsRecent`); otherwise there is a timely run
  in which the entry grows as old as one likes (`EntryOutlivesPeriod`), so that the bound holds of all timely
  runs exactly when no key set decodes to nil or nothing can be stored under the name (`BoundedIff`). A nil key
  set is also the one reason a full sweep can miss the declared store (`SweepConvergesIff`) and the one reason
  the controller cannot come to rest (`StoreCanDrainIff`).
* A CA bundle without a single PEM block passes the scan and is published (`BundleWithoutBlocksIsKept`).
* Re-pointing a configmap to another data key orphans the old entry until something is written under its key
  again: the CA endpoint goes on serving it past any resync period, even once the configmap is deleted
  (`OrphanIsServedOn`, `OrphanOutlivesPeriod`), while in prompt runs an entry some configmap is mapped to is never
  older than one period (`MappedBundleIsRecent`). Two configmaps with one data key can take it from each other (`RepointingOrphans`, `OrphanStays`, `SharingUnservesTheOther`,
  `IndexFailures`). Mapping and store correspond throughout a run exactly when every create met the guard
  (`ConsistentThroughoutIff`).
* A project name ending in a dash makes its joined key split into another pair
  (`TrailingDashSplitsElsewhere`, `SplitFindsJoinedPair`).
* `uuid.Parse` does not look at the outer characters of a 38-character UID, so an accepted UID may begin with a
  dash; lookups stay unambiguous all the same (`LookupFindsOnlyItsShoot`).
* The listening goroutine of `runServer` is stuck on its send exactly when serving failed and the `ctx.Done`
  branch was taken, whichever came first: both select cases may be ready at once (`ListenerLeaksIff`,
  `ListenerLeaks`).

## Model

| member | source | states |
|---|---|---|
| Controller.KeyInvHolds | internal/reconciler/openidmeta/add.go:29-67 | in every reachable state of every run each key keeps the inductive coherence invariant, for any program whose filter and reconcile respect the property carried |
| Controller.IdleKeyIsCoherent | internal/reconciler/openidmeta/metadata.go:36-225 | a key with no passing notification, not queued, not in flight and not awaiting a retry has committed what suits its current object |
| Controller.StepKeeps | internal/reconciler/openidmeta/add.go:34-45 | each kind of step (change, world change, delivery, start, one read or its failure, commit, timer, retry, tick) keeps the invariant of every key |
| OidcSystem.StoreIsCoherent | internal/reconciler/openidmeta/metadata.go:36-225 | over all interleavings, an idle name in the store has a current secret with the public label and exactly the stored bytes |
| Openidmeta.DroppedEventNeverMatters | internal/reconciler/openidmeta/add.go:48-67 | when the filter drops an event, neither the old nor the new secret could have been written, in any cluster |
| Openidmeta.EventPassesIff | internal/reconciler/openidmeta/add.go:48-67 | an event passes if and only if the secret carries the public label after it or did before it; a generic event never does |
| OidcSystem.FilterLosesNothing | internal/reconciler/openidmeta/add.go:48-67 | a filtered and an unfiltered system with the same final secrets drain to the same store |
| OidcSystem.StoreDrains | internal/reconciler/openidmeta/metadata.go:36-225 | with projects and shoots unchanging, an all-idle state holds exactly the entries the secrets call for, whatever happened on the way |
| OidcSystem.EveryScheduleDrainsStore | internal/reconciler/openidmeta/add.go:34-45 | if no eligible secret has a nil key set, the controller left to itself stops within a computed number of steps on every schedule, and has then stored exactly what the secrets call for |
| OidcSystem.StoreCanDrainIff | internal/reconciler/openidmeta/metadata.go:192-201 | on an unchanging cluster internal steps lead to quiescence if and only if no cached eligible secret has a nil key set |
| OidcSystem.StoreCanDrain | internal/reconciler/openidmeta/add.go:34-45 | if none has, internal steps lead from every reachable state to quiescence with exactly the declared store |
| OidcSystem.RequeuedSecretIsDecided | internal/reconciler/openidmeta/metadata.go:36-225 | for one name alone: if projects and shoots are unchanged since it was last queued or notified, then once idle it is stored if and only if its secret is valid, with the secret's bytes |
| Draining.InternalStepsRunOut | internal/reconciler/certificate/add.go:34-45 | as long as every reconcile asks for boundedly many reads and none of a cached object on the present cluster ends in an error, no scheduling of deliveries, starts, reads, commits, retries and due timers fits more steps into a run than its load |
| Draining.EveryScheduleDrains | internal/reconciler/certificate/add.go:34-45 | with the rest of the cluster unchanging and no cached object decided as an error, the controller comes to rest whatever the scheduler picks, and at rest it has committed exactly what the objects call for |
| Draining.CanDrainIff | internal/reconciler/certificate/add.go:34-45 | quiescence is within reach if and only if no cached object is decided as an error |
| Draining.RequeuedKeyIsDecided | internal/reconciler/certificate/add.go:34-45 | an idle key has committed the verdict on the present cluster if that is unchanged since the key was last queued or its notification was pending, whatever its worker had read by then |
| Openidmeta.CheckSecretMeans | internal/reconciler/openidmeta/metadata.go:50-121 | the checks before the first further read pass with given values if and only if the secret says so, in terms that do not mention their order |
| Openidmeta.DecideKeepsExactlyValid | internal/reconciler/openidmeta/metadata.go:50-224 | a reconcile writes if and only if the secret and the cluster meet the whole requirement, and then exactly the two documents |
| Openidmeta.DecideFailsExactlyOnNilKeySet | internal/reconciler/openidmeta/metadata.go:192-201 | with every read answered a reconcile errs if and only if the secret is otherwise eligible and its key set decodes to nil |
| OidcSystem.ServedDocumentWasVetted | internal/reconciler/openidmeta/metadata.go:57-222 | in every reachable state a 200 body is a document of a secret that one earlier reconcile read, together with a project and shoot that owned it, and found valid for exactly the project and UID asked for |
| OidcSystem.ServedDocumentIsRecent | internal/reconciler/openidmeta/metadata.go:217-224 | in a prompt run in which no secret cached under the name has a nil key set, the stored entry was read and passed every check at most one resync period ago |
| Staleness.EntryOutlivesPeriod | internal/reconciler/openidmeta/metadata.go:192-201 | whenever a valid secret can turn into an otherwise eligible one with a nil key set, some timely run keeps its entry beyond any age, although the name is processed again between any two ticks at which it awaits a retry |
| Staleness.BoundedIff | internal/utils/utils.go:30-37 | the bound holds in every timely run if and only if no JWKS decodes to a nil key set, or the name or the libraries admit no entry at all |
| OidcSystem.NilKeySetFreezesEntry | internal/reconciler/openidmeta/metadata.go:192-201 | in any run, while the cached secret is eligible with a nil key set and nothing else changes, what is stored under the name stays what it was, entry or none |
| Provenance.Observe | internal/reconciler/openidmeta/metadata.go:40-160 | what a worker remembers having read it did read, in order, in one uninterrupted processing, from the cache of each moment |
| Provenance.CommittedDataHasWitness | internal/reconciler/openidmeta/metadata.go:217-222 | every committed entry was decided by one earlier reconcile that made all its reads, and nothing else committed to the key since |
| Provenance.RecheckIsPending | internal/reconciler/openidmeta/metadata.go:224 | with a positive resync period every committed key always has a timer, is queued, in flight or awaiting a retry |
| Provenance.RecheckIsNotPutOff | internal/reconciler/openidmeta/metadata.go:224 | a pending re-check is never put off: whatever else happens, it stays due no later than it was |
| Provenance.StartsAreApart | internal/reconciler/openidmeta/add.go:37-44 | in every run a key is started again only after its worker has committed or a read of it failed |
| Provenance.AtMostFiftyWorkers | internal/reconciler/openidmeta/add.go:38 | in every run there are at most fifty workers at once |
| Provenance.CommittedDataIsRecent | cmd/discovery-server/app/options/options.go:144-149 | in a prompt run without erring reconciles committed data was read at most one period ago and its re-check is due within the period |
| Provenance.PromptIsPunctual | internal/reconciler/openidmeta/metadata.go:36-225 | a prompt run has no erring reconcile of a key if no object ever cached under it makes the program fail by itself |
| Revocation.OnlyDeclaredOutlivesPeriod | internal/reconciler/openidmeta/metadata.go:217-224 | in a run prompt for a key, none of whose reconciles ends in an error that leaves the store alone, what it still has committed more than a period after the cluster settled is what the cluster calls for |
| Revocation.InvalidSecretIsGone | internal/reconciler/openidmeta/metadata.go:36-225 | in a prompt run without nil key sets a stored secret that is no longer valid is gone within one period, though no event reports changes of its project or shoot |
| Revocation.InvalidConfigMapIsGone | internal/reconciler/certificate/reconciler.go:42-221 | the same for what a configmap has committed, in every prompt run |
| Revocation.InvalidBundleIsGone | internal/reconciler/certificate/reconciler.go:42-245 | the same for what the CA endpoint serves: more than a period after the configmaps that write under a data key settled, and while any is mapped to it, the bundle stored there is that of a valid configmap |
| OidcReconciler.ClaimOf | internal/reconciler/openidmeta/metadata.go:50-121 | the exits before the first further read, in their order, leave exactly the claim the specification finds |
| OidcReconciler.Reconciler.Reconcile | internal/reconciler/openidmeta/metadata.go:36-225 | the new store, the error and the requeue time are those of the program's outcome for any answers to its reads, failing ones included |
| OidcReconciler.Reconciler.WithProject | internal/reconciler/openidmeta/metadata.go:123-146 | the same from the read of the project on |
| OidcReconciler.Reconciler.WithShoot | internal/reconciler/openidmeta/metadata.go:148-174 | the same from the read of the shoot on |
| OidcReconciler.Reconciler.Publish | internal/reconciler/openidmeta/metadata.go:176-225 | the documents are written if both URLs are https and all keys public and valid, removed if not, left alone on a nil key set |
| OidcReconciler.ConcludeDecides | internal/reconciler/openidmeta/metadata.go:36-225 | on an unchanging cluster a whole reconcile comes to the verdict |
| Refinement.FailedReadConcludes | internal/reconciler/openidmeta/metadata.go:47-159 | a read that fails for another reason than NotFound, be it of the object itself or of any further one reached, ends the reconcile in a failure |
| Refinement.FailedReadKeepsStore | internal/reconciler/openidmeta/metadata.go:47-159 | and then the OIDC store is as it was, and the reconcile returns an error and asks for no requeue |
| Refinement.FailedReadKeepsIndex | internal/reconciler/certificate/reconciler.go:58-162 | and then the certificate index is as it was, and the reconcile returns an error and asks for no requeue |
| Refinement.FailedReadIsHandled | internal/reconciler/openidmeta/metadata.go:131 | which is what a failing read does in the step machine: nothing committed changes, the worker is gone, and the key is due for a retry |
| Refinement.CommitIsHandled | internal/reconciler/openidmeta/metadata.go:224 | a commit step acts on the returned result as the controller library does: an error re-adds the key, a positive requeue time re-adds it then, anything else forgets it |
| Refinement.WorkerDecidesLikeMethod | internal/reconciler/openidmeta/metadata.go:36-225 | a worker of the step machine decides what the method concludes from the same answers, each from the cache of a different moment |
| Refinement.OidcCommitIsMethodEffect | internal/reconciler/openidmeta/metadata.go:217-222 | a commit step changes the store as the method does |
| Refinement.CertificateCommitIsMethodEffect | internal/reconciler/certificate/reconciler.go:218-245 | a commit step changes mapping and store as the method does |
| CertificateIndex.MappingTrace | internal/reconciler/certificate/reconciler.go:229-245 | after any operations the mapping of a configmap is the data key of its last create not followed by its delete |
| CertificateIndex.StoreTrace | internal/reconciler/certificate/reconciler.go:229-245 | the store holds under a key the payload of the last create on it not followed by a delete from a configmap then mapped to it |
| CertificateIndex.DeleteUnmapped | internal/reconciler/certificate/reconciler.go:239-245 | deleting an unmapped configmap changes nothing if and only if nothing is stored under the empty key |
| CertificateIndex.CreateKeepsIff | internal/reconciler/certificate/reconciler.go:229-237 | a create keeps mapping and store in correspondence if and only if it neither re-points its configmap nor shares another's data key |
| CertificateIndex.DeleteKeeps | internal/reconciler/certificate/reconciler.go:239-245 | a delete always keeps them in correspondence |
| CertificateIndex.ConsistentSizes | internal/reconciler/certificate/reconciler.go:229-245 | in correspondence, the store's keys are exactly the mapped data keys and there are as many entries as mappings |
| CertificateIndex.ConsistentThroughoutIff | internal/reconciler/certificate/reconciler.go:229-245 | over a whole sequence of operations the correspondence holds at every point if and only if every create met the guard in its turn |
| CertificateIndex.OrphanStays | internal/reconciler/certificate/reconciler.go:229-245 | an entry no configmap maps to stays, unchanged, until somebody creates on its key |
| CertificateIndex.RepointingOrphans | internal/reconciler/certificate/reconciler.go:233-236 | re-pointing leaves such an entry behind |
| CertificateIndex.SharingUnservesTheOther | internal/reconciler/certificate/reconciler.go:243-244 | deleting one of two configmaps with the same data key leaves the other mapped and not stored |
| CertificateIndex.IndexFailures | internal/reconciler/certificate/reconciler.go:229-245 | both do happen, from the empty index, on these operations |
| CertificateSystem.MappingFollowsCommits | internal/reconciler/certificate/reconciler.go:42-245 | in every run the mapping holds, for each configmap, the data key it last committed, and nothing else |
| CertificateSystem.IndexIsFaithful | internal/reconciler/certificate/reconciler.go:42-245 | in every controller run without re-pointing or sharing, after each reconcile mapping and store correspond one to one, payloads included |
| LockedIndex.ConsistentWheneverFree | internal/reconciler/certificate/reconciler.go:229-245 | over every interleaving of lock steps, if no create re-points or shares, then whenever `r.mutex` is free the store's keys are the mapped data keys one to one and `Len` is the mapping's size |
| LockedIndex.FaithfulWheneverFree | internal/reconciler/certificate/reconciler.go:229-245 | when the operations that took effect are those of a controller run without re-pointing or sharing, then whenever `r.mutex` is free mapping and store hold exactly what that run has committed, payloads included |
| LockedIndex.ReplayIsDoAll | internal/reconciler/certificate/reconciler.go:229-245 | the calls that took effect under the locks amount to the index operations of the trace results, in that order |
| LockedIndex.ReadsLastStored | internal/store/store.go:57-82 | in the sequential order a read of a non-empty key returns what was last stored under it, by a write or a create, and not taken out since, by name or through the configmap mapped to it |
| CertificateSystem.StoreHoldsExactlyOwned | internal/reconciler/certificate/reconciler.go:229-245 | read back, in runs without re-pointing or sharing: a key holds a payload if and only if some configmap's last commit says so, and both maps have the same size |
| CertificateSystem.CommitsAreCoherent | internal/reconciler/certificate/reconciler.go:42-221 | over all interleavings an idle configmap's entry is the wrapped bundle of the configmap as it is now, with both labels and only CA blocks |
| CertificateSystem.StoreIsCoherent | internal/reconciler/certificate/reconciler.go:42-245 | coherence read from the store, in runs without re-pointing or sharing |
| DataKeys.KeyFollowsOwner | internal/reconciler/certificate/reconciler.go:229-245 | one data key alone: if only one configmap ever writes under it and is not re-pointed away from it, the key holds exactly what that configmap committed, whatever the others do |
| DataKeys.KeyIsCoherent | internal/reconciler/certificate/reconciler.go:42-245 | and when that configmap is idle, the key holds its bundle as it is now |
| CertificateSystem.CommitsDrain | internal/reconciler/certificate/reconciler.go:42-221 | with the rest of the cluster unchanging, an all-idle state has committed exactly what the configmaps call for |
| CertificateSystem.EveryScheduleDrainsCommits | internal/reconciler/certificate/add.go:34-45 | left to itself the controller gets there on every schedule within a computed number of steps |
| CertificateSystem.CommitsCanDrainIff | internal/reconciler/certificate/reconciler.go:212-216 | on an unchanging cluster internal steps lead to quiescence if and only if every bundle that is otherwise in order can be marshalled |
| CertificateSystem.CommitsCanDrain | internal/reconciler/certificate/add.go:34-45 | if so, internal steps lead from every reachable state to quiescence with exactly the declared commits |
| CertificateSystem.FilterLosesNothing | internal/reconciler/certificate/add.go:48-71 | filtered and unfiltered systems drain to the same commits, and without re-pointing or sharing to the same index |
| CertificateSystem.ServedBundleWasVetted | internal/reconciler/certificate/reconciler.go:73-218 | in every run at all a 200 body is the JSON-wrapped bundle of a configmap one earlier reconcile vetted for exactly the project and UID asked for |
| CertificateSystem.MappedBundleIsRecent | internal/reconciler/certificate/reconciler.go:218-220 | in a run prompt for the configmaps that write under a data key, the bundle stored there was read and passed every check at most one period ago as long as any configmap is mapped to the key, whoever shares or is re-pointed |
| CertificateSystem.StoredBundleIsRecent | internal/reconciler/certificate/reconciler.go:218-220 | without re-pointing or sharing, that goes for whatever is stored |
| DataKeys.OrphanIsServedOn | internal/reconciler/certificate/reconciler.go:229-245 | in every run a stored key that no configmap is mapped to keeps its payload until the next write under it, however far time advances |
| Orphans.OrphanOutlivesPeriod | internal/reconciler/certificate/reconciler.go:229-245 | whenever a valid configmap can be re-pointed to another shoot, some run, prompt and without an error, serves its first bundle at any later time, with the configmap long deleted and the mapping empty |
| Certificates.ScanBundle | internal/reconciler/certificate/reconciler.go:171-204 | the scan ends and falls through if and only if every block found by iterating the decoder over its own remainders, however far, is a header-less CERTIFICATE that parses as a CA |
| Certificates.AllCABlocksMeans | internal/reconciler/certificate/reconciler.go:171-204 | the blocks the decisions speak of are exactly those found by iterating the decoder, each with the four tests written out |
| Certificates.DecideKeepsExactlyValid | internal/reconciler/certificate/reconciler.go:61-220 | a reconcile writes if and only if the configmap and the cluster meet the whole requirement, under the joined key and with the wrapped bundle |
| Certificates.DecideErrsExactlyOnMarshal | internal/reconciler/certificate/reconciler.go:212-216 | with every read answered a reconcile errs if and only if a valid bundle cannot be marshalled, having removed it |
| Certificates.DroppedEventNeverMatters | internal/reconciler/certificate/add.go:48-71 | when the filter drops an event, neither the old nor the new configmap could have been written, in any cluster |
| Certificates.EventPassesIff | internal/reconciler/certificate/add.go:48-71 | an event passes if and only if the configmap carries both labels, with their values, after it or did before it; a generic event never does |
| Certificates.BundleWithoutBlocksIsKept | internal/reconciler/certificate/reconciler.go:171-218 | a configmap in order but for having no PEM block at all is written under its joined key |
| CertificateReconciler.Reconciler.Init | internal/reconciler/certificate/reconciler.go:223-227 | the mapping is made once and later calls change nothing |
| CertificateReconciler.Reconciler.CreateMapping | internal/reconciler/certificate/reconciler.go:229-237 | on the heap, mapping and store become those of the index operation |
| CertificateReconciler.Reconciler.DeleteMapping | internal/reconciler/certificate/reconciler.go:239-245 | on the heap, mapping and store become those of the index operation |
| CertificateReconciler.Reconciler.Reconcile | internal/reconciler/certificate/reconciler.go:42-221 | the new index, the error and the requeue time are those of the program's outcome for any answers to its reads, failing ones included |
| CertificateReconciler.Reconciler.WithConfigMap | internal/reconciler/certificate/reconciler.go:61-110 | the same from the configmap's own checks on |
| CertificateReconciler.Reconciler.WithProject | internal/reconciler/certificate/reconciler.go:112-149 | the same from the read of the project on |
| CertificateReconciler.Reconciler.WithShoot | internal/reconciler/certificate/reconciler.go:151-169 | the same from the read of the shoot on |
| CertificateReconciler.Reconciler.Publish | internal/reconciler/certificate/reconciler.go:171-220 | the bundle is scanned and wrapped, then written under the joined key, or the mapping removed, with an error if wrapping failed |
| CertificateReconciler.BadBlockUnpublishes | internal/reconciler/certificate/reconciler.go:171-204 | from any index, a block anywhere in the decode chain that fails any of the four tests has the configmap unmapped and its data key absent, and an index in correspondence stays so |
| CertificateReconciler.BadBlockIsRemoved | internal/reconciler/certificate/reconciler.go:42-221 | the same whatever the reads return; only a failing read ends the reconcile otherwise, and then the index stays as it is |
| CertificateReconciler.ConcludeDecides | internal/reconciler/certificate/reconciler.go:42-221 | on an unchanging cluster a whole reconcile comes to the verdict |
| Sweep.SweepOutcome | internal/reconciler/openidmeta/metadata.go:36-225 | after reconciling names in any order, with repeats, a name's entry depends only on whether it was among them |
| Sweep.SweepConvergesIff | internal/reconciler/openidmeta/metadata.go:36-225 | a sweep over every secret and stored key leaves exactly the declared store if and only if no stored name has an eligible secret with a nil key set |
| Sweep.CertificateSweepConverges | internal/reconciler/certificate/reconciler.go:42-245 | given injective data keys and a consistent starting index, a full sweep leaves the index of exactly the valid configmaps |
| Stores.Copy | internal/store/openidmeta/data.go:21-29 | a copy has the same bytes in new buffers that differ from each other |
| Stores.Clone | internal/store/certificate/data.go:20-26 | one buffer copied byte by byte into a new one |
| Stores.Store.constructor | internal/store/store.go:36-44 | a new store is empty and owns no buffer |
| Stores.Store.Read | internal/store/store.go:57-66 | the value under the key, in buffers nobody else has, or nothing if it is absent |
| Stores.Store.Write | internal/store/store.go:70-75 | the bytes the caller passed are stored under the key, in buffers of the store's own, and no other entry changes |
| Stores.Store.Delete | internal/store/store.go:78-82 | the entry is gone and no other changes |
| Stores.Store.Len | internal/store/store.go:85-89 | the number of entries |
| Stores.PlayOnHeap | internal/store/store.go:57-82 | a caller that writes, reads, deletes and overwrites its own buffers at will sees exactly what it would if the store held values, so no buffer is ever shared |
| Locks.LocksHold | internal/store/store.go:57-89 | in every interleaving each thread holds exactly the locks its stage says, one writer at a time and never beside a reader |
| Locks.SomeThreadMoves | internal/reconciler/certificate/reconciler.go:229-245 | while any call is in progress some thread can move, so the nested locks never deadlock |
| Locks.AllCallsCanFinish | internal/reconciler/certificate/reconciler.go:229-245 | from every reachable state moves alone bring every call to its end |
| Locks.MovesRunOut | internal/reconciler/certificate/reconciler.go:229-245 | however moves are scheduled there are only so many, so every call ends under any scheduler |
| Linearizability.EveryInterleavingIsSequential | internal/store/store.go:57-89 | every interleaving of readers, writers and index operations is equivalent to one sequential order in which each call acts once, between call and return, with the reply it returns |
| Linearizability.CompletedCallTookEffect | internal/store/store.go:57-89 | spelled out for each completed call of an execution: its one moment of effect lies after its call and before its return, and it returns what it gets there when the calls before it have acted one at a time |
| Keys.SplitIffJoined | internal/utils/utils.go:21-27 | split gives two parts if and only if the key is those parts joined, the first has no separator and no trailing dash, the second no separator, and neither is blank |
| Keys.SplitJoinInverse | internal/utils/utils.go:21-27 | split and join undo each other, both ways round, on the keys split accepts |
| Keys.SplitFindsJoinedPair | internal/utils/utils.go:21-27 | when a joined key splits at all it splits into the pair joined, or moves exactly the trailing dash of the project over |
| Keys.TrailingDashSplitsElsewhere | internal/utils/utils.go:21-27 | a pair that shows the trailing-dash condition is needed |
| Keys.TrimSpaceEmptiesBlank | internal/utils/utils.go:23 | the blank test is true of exactly the strings made of white space |
| Keys.SpacesListed | internal/utils/utils.go:23 | which characters count as white space, one by one |
| Keys.JoinInjective | internal/reconciler/certificate/reconciler.go:218 | for project names of any shape and UIDs without a separator or leading dash, equal keys mean equal parts |
| Keys.LookupFindsOnlyItsShoot | internal/handler/handler.go:82-94 | a UID the handler accepts finds, under any project name, no other shoot's key |
| Keys.CanonicalUUIDIsPlain | internal/handler/handler.go:82-83 | canonical UUIDs have no separator, no leading dash, and survive a split |
| Keys.JoinedKeyHasSeparator | internal/reconciler/certificate/reconciler.go:218 | no data key is the empty string an absent mapping reads as |
| Keys.MappingKeyInjective | internal/reconciler/certificate/reconciler.go:45 | mapping keys tell requests apart |
| Handler.Served | internal/handler/handler.go:31-107 | which replies there are and exactly when: 200 with the entry, 400 for a refused UID, 404 for an absent key, 405 for another method, with their texts, and which headers are set to what |
| Handler.Serve | internal/handler/handler.go:31-107 | the chain of handlers, updating a response writer, sends exactly that reply |
| Handler.StoreRequest | internal/handler/handler.go:80-107 | on the response writer: 400 with its text for a refused UID, 404 with its text for an absent key, 200 with the entry and the caching header for a stored one |
| Handler.AllowMethods | internal/handler/handler.go:40-60 | the next handler runs if and only if the method is among those allowed, and otherwise the reply is the 405 one |
| Handler.NotFound | internal/handler/handler.go:63-74 | the 404 reply |
| Shutdown.RunJoinsBothErrors | cmd/discovery-server/app/app.go:222-244 | `run` returns only after both sides have returned, with the very errors the steps so far made them return, in the order they were handed over, and neither goroutine is left blocked on its send |
| Shutdown.EndsHaveCauses | cmd/discovery-server/app/app.go:222-274 | each side's context is cancelled only by the parent or after the other side has handed its error over, the server shuts down only then, and sees its channel closed only after it was |
| Shutdown.ErrChannelIsSound | cmd/discovery-server/app/app.go:249-258 | the inner channel carries at most one value, is closed at most once, and is never used after that |
| Shutdown.ServerResult | cmd/discovery-server/app/app.go:260-273 | `runServer` has returned an error if and only if the steps so far say so: the serve error that was received, the error of a failed shutdown, or nil after a close or a clean shutdown |
| Shutdown.ListenerLeaksIff | cmd/discovery-server/app/app.go:250-263 | past its select, the inner goroutine is stuck if and only if serving failed and the `ctx.Done` branch was taken, and then stays stuck |
| Shutdown.ListenerLeaks | cmd/discovery-server/app/app.go:247-274 | it does happen, serving failing before or after the branch is taken, in runs that end with `run` having returned |
| Shutdown.RunsAreShort | cmd/discovery-server/app/app.go:222-274 | every step uses up a measure, so no run has more than eleven steps |
| Shutdown.TriggeredRunProceeds | cmd/discovery-server/app/app.go:222-244 | once either side has ended or the parent context is cancelled, a step is due until `run` has returned |
| Shutdown.TriggeredRunReturns | cmd/discovery-server/app/app.go:222-244 | taking due steps then ends with `run` having returned |
| DynamicCert.AreEqual | internal/dynamiccert/certificate.go:75-86 | equality of the chains, byte for byte |
| DynamicCert.DynamicCertificate.ReloadCert | internal/dynamiccert/certificate.go:59-73 | a failed load or an equal chain keeps the very object, any other load replaces it by one with the loaded chain |
| DynamicCert.Serve | internal/dynamiccert/certificate.go:59-93 | over any reloads and handshakes, each handshake gets the chain of the last successful load, and two get the same object if and only if no load in between changed the chain |

## Left out

- `NewStore` refusing a nil copy function and `MustNewStore` panicking on it: the two stores there are have one.
- The type parameter of `Store`: `Stores.Data` is the two types it is used with.
- Deep copies made by `Client.Get`: read objects are values here.
- `Stores.Store` under concurrent callers: the heap class is sequential, its concurrency is the lock machine of `Locks`, which holds bytes as values.
- `Locks`: the mapping's removal and the release of the outer mutex are one step, as nobody can tell them apart; the two deferred unlocks are otherwise steps of their own.
- The exits of `Reconcile` that do the same removal are gathered in `OidcReconciler.ClaimOf`, `OidcReconciler.Reconciler.ShootAccepted` and `Certificates.ScanBundle`, each with the checks in their order; log messages are gone.
- OIDC decisions on the nil key set: the panic is an error outcome, stack unwinding is not modelled.
- `ReconciliationTimeout`: a timed-out reconcile is one whose read fails.
- Rate limiting and back-off arithmetic: a retry comes at any later time.
- Objects becoming valid again through a project or shoot alone: rejected objects are not requeued, so the repository promises nothing; `RequeuedKeyIsDecided` asks for the rest of the cluster to be unchanging since the key was last due, `StoreDrains` and `CommitsDrain` for the whole run.
- `net/http`: routing, path values, dropping the body of a reply to HEAD, and failing writes.
- The handler wrappers per endpoint, workload identity, metrics, logging, flags and options beyond the positive resync period.
- The certificate's private key, the ticker and file reading in `DynamicCert`; the lock around the current object makes each reload and handshake one step. A failing first load returns no object and is left out.
- `getCipherSuiteIDs`, TLS, and everything in `app.go` before the channels are made.
- Helm charts, scripts and end-to-end tests.
