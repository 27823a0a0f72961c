# Verified model of the platform utilities

A Dafny model of the parts of this repository in which state, loops and protocols meet, with proofs of what those
parts promise. Each imperative component is a class or a method with loop invariants, proved equal to a specification
function; the promises are then lemmas over that function, for all inputs, all runs, or all reachable states.
`dafny verify dfyconfig.toml` checks the whole project.

## Components

- **Deploying and collecting.** `Cluster` is the API server: a map from identity to object with one version counter,
  and server-side apply as an overlay that does not write when nothing would change. `DeploySpec` gives stamping,
  the fingerprint, the merge strategies, the skip decision and the steps of a deployment as functions, `DeployLaws`
  what they mean for each key and request, `DeployRun` the deployer, the cache and the server as objects, `DeployCache` what the cache may hide, `CollectionSpec` the
  sweep as a function, `CollectionRules` which objects it may take, `CollectionLaws` its promises, `GarbageCollector` the collector as an object, `Lifecycle`
  runs of the cycle "deploy, then collect", `Decimal` the printed generation, `TypeSelection` the choice of the
  types to sweep. Others may act, and the server may refuse, between any two requests of a deployment or a sweep.
- **Drift and merge.** `Json` has unstructured objects and strategic merge patches, `DriftRevert` the patch and its
  application, `DriftLaws` what it achieves, `DeploymentMerge` the opposite operation, in which the live object wins.
- **Conditions.** `FrameworkConditions`, `ManagerRuns`, `ReconcileCycles` and `FrameworkManager` are the framework's list
  primitives, aggregator, runs, cycles and manager, `ManagerLaws` what each operation does to the entries; `ReconcilerApply`, `ApplyCycles` and `ReadySoundness` the reconcile
  cycle, repeated calls of it, and its Ready phase; `PackageConditions` the stand-alone manager.
- **Caches and concurrency.** `RenderCache` (a memo over heap objects), `StatusUpdate` (a retry loop against other
  writers), `DynamicWatches` and `OwnershipAction` (a registry of watches under a lock).
- **Files and order.** `ParamsCodec` (`params.env`), `CertManagerOrder` (a conserving reorder).
- **Flakiness.** `Classification`, `Budget`, `Quarantine`, `QuarantineLaws`.
- `Options`, `Sorting`, `Ordering` are shared: results, stable sorting, and byte-wise string order.

## Reading the model

A Go string is a `seq<char>` with one char per byte. The clock, the network, the API server, the ticket tracker and
caller-supplied functions are parameters: a time, an oracle indexed by the number of the call, or a function value.
One clock reading is taken per condition-manager operation. A map's iteration order is arbitrary in the model as in
the program: loops over maps take keys in any order, and results are proved independent of it. Where the program sorts
with an unstable sort the model sorts stably; the contracts state only sortedness and contents, or the keys are distinct.

## Where the code and its promise part ways

Each of these is a lemma; the code is kept as it is, and the condition under which it does meet the promise is exact
wherever the lemma's name says so.

- A deploy cache hit can hide a write. Exactly when is `HitIsRightExactlyWhen`; `PlainHitsAreRight` is a condition on
  manifest and live object that survives any race, `CalmHitsAreRight` one on the manifest alone that needs nobody to
  act while a deployment is under way. The failing families are a manifest that states `managed=true`
  (`ManagedFlipIsHidden`), own owner references (`OwnerChangeIsHidden`), and, because the forced apply has no version
  to check, a write between the read and the request (`RaceHidesWrite`, `RaceHidesLegacyOwner`). A hit decided on an
  outdated copy hides a write as `StaleHitHidesWriteExactlyWhen` says.
- `WithManagedAnnotation` changes the opt-out key of the deployer only; the collector reads its own. No rendered resource
  but create-only ones is ever taken by the sweep exactly when the two keys are the same (`NeverTakenExactlyWhen`);
  otherwise exactly those are whose live object is opted out under the deployer's key only, and stale (`RenderedAreTakenExactlyWhen`,
  `TakingWorld`).
- The collector deletes by key what it decided on from a list: it takes an object that is no longer due exactly when
  somebody wrote it in between (`TakenWronglyExactlyWhen`). A create-only resource is never restamped, so the sweep takes
  it as soon as the generation or the release moves on (`CreateOnlyIsTakenExactlyWhen`).
- With a field owner of its own the deployer labels resources so that the collector's default selector never sees them
  (`StampedIsInReachExactlyWhen`).
- `IsHappy` looks at any entry of the target type, so a stray second target entry that says True makes every cycle
  Ready that does not clear it; and provisioning must be a dependent to count (`ReadyExactlyWhen`, `StrayTargetAlwaysReady`,
  `UnguardedProvisioningShowsReady`).
- A condition manager built over an old list may not mirror its dependents until the first recomputation
  (`NewManagerSyncsExactlyWhen`, `NewManagerMirrorsExactlyWhen`).
- The comment on `Values` says keys are added as needed; a missing key with an empty value is not
  (`ValuesMergesExactlyWhen`). The code is followed.
- `params.env` maps outside the normal form do not survive a round trip (`RoundTripsExactlyWhenNormal`).
- The choice between two views of an RBAC kind ignores versions (`UsableTypeIsKeptExactlyWhen`).
- A "lower" recommendation may suggest a longer timeout (`LowerSuggestsMoreExactlyWhen`), and with a threshold below two
  thirds a "raise" a shorter one (`LowThresholdCanShrink`). Raises are strict above two thirds before truncation
  (`RaiseIsStrictBeforeTruncation`) and after it as `RaiseIsStrictExactlyWhen` and `DefaultRaiseIsStrictExactlyWhen` say:
  at the default threshold a timeout of one nanosecond is the one that fails.
- The first attempt of a status update trusts the caller's copy (`FirstAttemptIsRightExactlyWhen`); a negative retry limit
  reports exhaustion without having tried (`NegativeLimitTriesNothing`).
- Merging live values leaves drift where a shared live container states empty resources
  (`MergeLeavesNoDriftExactlyWhen`).
- A test ends without a ticket or a refusal exactly when the tracker answers an empty ticket
  (`EndsWithTicketOrRefusalExactlyWhen`), and a run without a test forgets its ticket (`AbsenceForgetsTicket`).
- The render cache serves what was rendered last under the key; it is always fresh exactly when equal keys stand for equal
  renderings (`AlwaysFreshExactlyWhen`).

## Model

| member | source | states |
|---|---|---|
| Decimal.AtoiOfFormatInt | pkg/deploy/deploy.go:448-449 | reading back a printed generation is the identity on every int64, so a stamp always compares equal to the generation it came from |
| Cluster.ApplyIdempotent | pkg/deploy/deploy.go:624-659 | applying the same manifest twice writes once: the second apply leaves the server, version counter included, as it is |
| Cluster.ParsePrintedGroupVersion | pkg/controller/gc/gc.go:287-312 | a printed group and version parses back, so an owner reference the deployer writes is recognised by the collector |
| DeployRun.Deployer.Deploy | pkg/deploy/deploy.go:263-326 | a whole invocation, others acting and requests being refused at any point: the list as the sort function hands it on, every resource stamped and deployed in order, the cache and server after it, stopping at the first error |
| DeployRun.Deployer.DeployOne | pkg/deploy/deploy.go:328-411 | one resource, others acting between its read, its update and its request, any of which may be refused: the skip decision, the create-only and opted-out paths, and the record in the cache, as specified |
| DeployRun.Deployer.ShouldSkip | pkg/deploy/deploy.go:357-378 | skips if and only if the entry of the live version and manifest is present and the object is not terminating; a terminating object loses its entry |
| DeployRun.Deployer.ApplyResource | pkg/deploy/deploy.go:497-549 | the path behind the cache works on the copy read at the start: legacy owners dropped by an update that conflicts if the copy is out of date, the manifest merged with the copy and forced on whatever is there by then |
| DeploySpec.UndisturbedIsUncached | pkg/deploy/deploy.go:497-549 | if nobody acts in between, those steps are one atomic deployment of the live object |
| DeployCache.SendReflects | pkg/deploy/deploy.go:530-562 | whatever copy the request worked on and whatever it met, the object of the version that is recorded carries the labels and annotations of the stamped manifest, its owner, and each of its fields unless a merge strategy lets the live object decide |
| DeployCache.DeployReflects | pkg/deploy/deploy.go:413-464 | a deployment nobody disturbed leaves no legacy owner either, and no field the strategy merged under managed=true |
| DeployCache.DeploymentIsHistory | pkg/deploy/deploy.go:328-562 | a deployment with others acting between its steps is a history of the single steps, so what holds of every history holds of every interleaving of every deployer sharing the cache |
| DeployCache.DeployKeepsCoherent | pkg/deploy/cache.go:70-157 | a deployment keeps the invariant that a cache entry of a version that is still live describes the live object, whatever others do while it is under way |
| DeployCache.ReachedCoherent | pkg/deploy/cache.go:70-157 | that invariant holds after any history of requests working on any copy, stale ones included, foreign writes, removals, deletions and expiries |
| DeployCache.SkipRightExactlyWhen | pkg/deploy/deploy.go:357-441 | for an object that carries the manifest, the uncached path changes nothing if and only if the guard holds, a condition on manifest, live object and configuration |
| DeployCache.SkipRightOnceOwned | pkg/deploy/deploy.go:413-495 | the same equivalence once no legacy owner reference is left to remove |
| DeployCache.HitIsRightExactlyWhen | pkg/deploy/deploy.go:357-378 | refinement of the cache: after any such history a hit is right, the uncached path being a no-op, if and only if the guard on manifest, live object and configuration holds |
| DeployCache.StaleHitHidesWriteExactlyWhen | pkg/deploy/deploy.go:336-378 | a hit on a copy read earlier, after whatever happened since: right for the version read if and only if the guard holds of the copy, and then it hides a write if and only if the live object no longer carries what the deployer would send, which takes its removal or a later version |
| DeployCache.PlainHitsAreRight | pkg/deploy/deploy.go:357-441 | for manifests without own references, every hit after every history with any races is right on a live object that has no legacy owner and, under a merge strategy, does not say managed=true |
| DeployCache.CalmHitsAreRight | pkg/deploy/deploy.go:357-441 | without races, a check on manifest and configuration alone is enough: others may edit at will, but not while a deployment is under way |
| DeployCache.RaceHidesWrite | pkg/deploy/deploy.go:336-562 | with a race it is not: managed=true written between the read and the forced request makes the next attempt a hit although the uncached path would write, for every plain manifest whose replicas the merge had replaced |
| DeployCache.RaceHidesLegacyOwner | pkg/deploy/deploy.go:466-528 | the same with a legacy owner added between the read and the request |
| DeployCache.ManagedFlipIsHidden | pkg/deploy/deploy.go:661-683 | a manifest that itself states managed=true shows the failing family: its first deployment still merges, the next is a hit although the uncached path would write |
| DeployCache.OwnerChangeIsHidden | pkg/resources/hash.go:16-40 | the fingerprint ignores owner references, so a changed reference is hidden by a hit although the uncached path would write it |
| DeployCache.NextIsHit | pkg/deploy/deploy.go:551-562 | a deployment that stores something makes the next attempt a hit, unless the object opted out |
| DeployCache.ReplicasArePreserved | pkg/deploy/merge.go:130-144 | with the Deployment merge strategy the replicas of a live object without managed=true survive deployment, whatever the manifest says |
| DeployLaws.StampedSays | pkg/deploy/deploy.go:380-464 | stamping key by key: a CRD gets the configured labels and annotations and part-of platform; anything else also its owner's generation, name and uid, the release type and version where they are not empty, and a part-of label if it has none: the field owner or else the lower-cased kind of the owner; nothing else changes |
| DeployLaws.DecideSays | pkg/deploy/deploy.go:336-378 | which way the deployer goes, from the live object and the cache: opted out, terminating, cached for the live version, or sent, each if and only if |
| DeployLaws.LeavingAloneSays | pkg/deploy/deploy.go:328-378 | whatever is left alone, nothing is sent and no entry changes but that of a terminating object, which goes |
| DeployLaws.DisownedSays | pkg/deploy/deploy.go:475-495 | the update that drops legacy owners: made if and only if the copy shows one, refused as NotFound or Conflict if and only if the object is gone or has moved on, and otherwise the copy without exactly the references that name a legacy type |
| DeployLaws.SendingFailsExactlyWhen | pkg/deploy/deploy.go:497-562 | each error of the request, and that it changes nothing, if and only if: an owner of another namespace, an unsupported mode, or a patch-mode creation of something that is there |
| DeployLaws.AttemptSays | pkg/deploy/deploy.go:413-562 | the requests of a deployment in their order, with others acting before each, and which refusal or failure ends it |
| DeployRun.DeployedAllSays | pkg/deploy/deploy.go:263-287 | an invocation by its turns: each resource meets the world the one before it left, up to the last or to the first error, which is returned |
| DeployLaws.OptingOutSays | pkg/deploy/deploy.go:497-511 | a manifest that opts out never changes an object that is there, and is created without the opt-out annotation where there is none |
| DeployLaws.SentOwners | pkg/deploy/deploy.go:413-441 | what is sent has as owner exactly the reference to the owning object, by apiVersion, kind, name and uid, unless it is a CRD, of an excluded type or without owner, when its own references stay |
| DeployLaws.DeployRecords | pkg/deploy/deploy.go:551-562 | a deployment that sent something records the manifest for exactly the version then stored and keeps every other entry |
| DeployLaws.AppliedSays | pkg/deploy/deploy.go:624-659 | what the server holds after an apply, field by field: what the manifest states wins, all else stays, and a version is taken if and only if something changed |
| DeployLaws.RefersToSays | pkg/resources/owner.go:55-68 | a reference names a type if and only if its kind is the type's and its apiVersion is the version, or group and version around the only slash |
| DeployCache.SendStores | pkg/deploy/deploy.go:530-659 | the whole object after a request: labels, annotations, owner, and for every path whether the manifest, the copy read or the live object supplies it, the paths of the container resources and replicas spelled out |
| DeployCache.LiveTuningIsPreserved | pkg/deploy/merge.go:31-166 | on a live object that does not say managed=true the Deployment strategy stores the replicas and the resources of shared containers exactly when, and as, the live object has them, and the observability strategy those of its spec; every other path of the manifest is stored as the manifest has it |
| DeployCache.ManifestWins | pkg/deploy/deploy.go:624-683 | without a strategy, or once the live object says managed=true, that holds of every path of the manifest, but for the rules of an aggregated role |
| GarbageCollector.Collector.Run | pkg/controller/gc/gc.go:113-152 | selects exactly the types whose deletion and listing are granted, one view per aliased kind, and sweeps them; a group version that does not parse ends it before any request, and only that; undisturbed, exactly the objects doomed under those types go |
| GarbageCollector.Collector.Sweep | pkg/controller/gc/gc.go:129-152 | with others acting and requests failing at any point, the steps of the sweep, its count and its error are those specified; undisturbed, exactly the doomed objects go, and an error comes from malformed metadata it met |
| CollectionSpec.OwnedByTypeFinds | pkg/resources/owner.go:55-68 | the answer is yes if and only if some reference matches and none before the first match is malformed, and no if and only if every reference is well-formed and none matches |
| GarbageCollector.Collector.CollectType | pkg/controller/gc/gc.go:154-186 | one type: excluded, passed over if it cannot be listed, ended by a failing list, or the deletion loop over the copies listed |
| GarbageCollector.Collector.DeleteResources | pkg/controller/gc/gc.go:314-350 | the loop decides on the copies, deletes by key, counts the requests that got through and stops at the first error |
| GarbageCollector.Collector.DeleteItem | pkg/controller/gc/gc.go:325-376 | one item: malformed, left, refused, or deleted, whatever has its key by then |
| GarbageCollector.Collector.List | pkg/controller/gc/gc.go:252-274 | copies of the objects of the type with matching labels, each once |
| CollectionLaws.TypeAsksExactlyFor | pkg/controller/gc/gc.go:314-350 | whatever others do, a type asks for the deletion of exactly the objects its list showed to be deletable and not terminating, unless a request fails |
| CollectionLaws.TakenWronglyExactlyWhen | pkg/controller/gc/gc.go:314-376 | a request takes an object that is not due if and only if the last thing that happened to it since it was listed is a write that makes it undeletable; the object then has a later version, which the request does not check |
| CollectionLaws.UndisturbedSweep | pkg/controller/gc/gc.go:129-152 | undisturbed, the deletions are exactly the doomed objects, each once, or the sweep ends at a malformed one with only doomed objects gone |
| CollectionLaws.SweepIsHistory | pkg/controller/gc/gc.go:129-152 | any sweep is one more history of the server, so what every history keeps it keeps |
| Lifecycle.StampedIsFresh | pkg/deploy/deploy.go:443-464 | what the deployer stamps is what the collector reads as fresh |
| Lifecycle.StampedIsInReachExactlyWhen | pkg/deploy/deploy.go:311-326 | the collector's default selector sees a deployed resource if and only if its part-of label, or without one the deployer's field owner, is the owner's kind |
| Lifecycle.FreshIsNotStale | pkg/controller/gc/predicates.go:30-62 | the default predicate never selects a freshly stamped object |
| Lifecycle.DeployMakesSafe | pkg/deploy/deploy.go:328-441 | whichever way a single deployment goes, a cache hit included, and whatever others do meanwhile, its object is afterwards one the collector spares, or someone has removed it |
| Lifecycle.DeployKeepsSpared | pkg/deploy/deploy.go:328-441 | deploying any resource, or the same again, keeps the spared object of a manifest that is not create-only spared as long as others do it no harm |
| Lifecycle.EditsAreHarmless | pkg/controller/gc/gc.go:287-312 | anything done to other objects is harmless, their creation included, and so is deleting, removing, and editing anything but the stamps and the opt-out annotation |
| Lifecycle.RenderedAreTakenExactlyWhen | pkg/controller/gc/gc.go:113-152 | from any coherent state, after deploying a list with any cache expiries and others doing no harm to the listed objects, a rendered resource that is not create-only is taken by the sweep if and only if its live object is opted out under the deployer's key, not under the collector's, and stale; without removals every one is there |
| Lifecycle.NeverTakenExactlyWhen | pkg/deploy/deploy.go:208-215 | a rendered resource that is not create-only is never taken, in any world and any cycle, if and only if the opt-out key of the deployer is that of the collector |
| Lifecycle.TakingWorld | pkg/deploy/deploy.go:208-215 | for every other key, a world with one object in which the next cycle takes a resource it has just rendered |
| Lifecycle.CreateOnlyIsTakenExactlyWhen | pkg/deploy/deploy.go:497-511 | a create-only resource is taken by the sweep after its deployment if and only if it would have been without: it is never restamped |
| Lifecycle.SparedIsAskedOnlyWhen | pkg/controller/gc/gc.go:314-350 | with others acting during the sweep as well, a spared object is asked to be deleted only if the copy listed is opted out under another key and stale |
| Lifecycle.Cycle | pkg/controller/gc/gc.go:113-152 | one cycle on the real objects, a failed deployment skipping the sweep: it keeps the promise of a cycle and leaves the cache coherent, whatever others do before, during and after its requests |
| Lifecycle.EveryCycleKeepsPromise | pkg/controller/gc/gc.go:113-152 | over any run of cycles, generations and releases moving on and any history between them, every cycle keeps it: rendered resources that nobody harms survive, all but the exposed ones; every object listed is deleted or accounted for; the cache stays coherent |
| Lifecycle.LeftBehindExactlyWhen | pkg/controller/gc/gc.go:287-312 | a listed object is left behind if and only if it is terminating, opted out, not owned while only owned ones are collected, without annotations, or freshly stamped |
| Lifecycle.StaleIsCollected | pkg/controller/gc/predicates.go:30-62 | an owned object stamped by an earlier generation or release is doomed for the next sweep |
| Lifecycle.SweepKeepsCoherent | pkg/controller/gc/gc.go:314-376 | a sweep, disturbed or not, keeps every remaining cache entry true of its object |
| CollectionRules.MatchesExactlyWhen | pkg/controller/gc/gc.go:378-386 | what is listed: the configured labels, or by default the part-of label of the lower-cased owner kind |
| CollectionRules.DeletableExactlyWhen | pkg/controller/gc/gc.go:287-312 | an object may go if and only if it is removable, not opted out, owned where only owned objects are collected, and annotated with a stamp that is missing, differs or is of another generation; both errors and the refusal have their exact condition as well |
| CollectionRules.ItemsEndWith | pkg/controller/gc/gc.go:314-376 | the deletion loop ends with the error of the first item that cannot be decided or whose deletion is refused, and without one if there is none |
| CollectionRules.TypeEndsWith | pkg/controller/gc/gc.go:154-186 | an unremovable, excluded or unlistable type is passed over, a failing list is the error, and otherwise the loop over its items |
| CollectionRules.AtoiExactlyWhen | pkg/controller/gc/predicates.go:51-58 | a generation is read if and only if it is decimal digits with or without a sign, in the range of an int64 |
| TypeSelection.IsResourceMatchingRule | pkg/controller/gc/authorization.go:61-79 | matches if and only if some group and some resource of the rule name the resource or are the wildcard |
| TypeSelection.HasPermissions | pkg/controller/gc/authorization.go:86-110 | true if and only if verbs are asked for and each is granted by some rule without resource names |
| TypeSelection.ComputeAuthorizedResources | pkg/controller/gc/authorization.go:114-172 | the result is duplicate-free, sorted and exactly the set of authorized types; an error if and only if a group version does not parse |
| TypeSelection.AliasKindsInGroup | pkg/controller/gc/openshift_rbac.go:50-65 | exactly the aliased kinds the group serves |
| TypeSelection.PreferKubernetesRBACResources | pkg/controller/gc/openshift_rbac.go:74-125 | the early returns and the filter loop all compute the same selection |
| TypeSelection.OnlyAliasesAreDropped | pkg/controller/gc/openshift_rbac.go:74-125 | the selection is a duplicate-free sublist of the deletable types in their order, aliases included, that keeps every type that is no alias |
| TypeSelection.SomeViewStays | pkg/controller/gc/openshift_rbac.go:74-125 | a kind never loses both views: what is dropped leaves a view of the other group |
| TypeSelection.WorkingViewIsChosen | pkg/controller/gc/openshift_rbac.go:74-125 | whenever a view can be deleted and listed, exactly one working view is kept: Kubernetes first |
| TypeSelection.UsableTypeIsKeptExactlyWhen | pkg/controller/gc/openshift_rbac.go:94-106 | kinds are compared, not versions: a type both deletable and listable is kept whenever one exists, if and only if Kubernetes does not serve the kind under different versions only |
| TypeSelection.ChoiceIsStable | pkg/controller/gc/openshift_rbac.go:74-125 | selecting again from the selection changes nothing |
| TypeSelection.SelectDeletableTypes | pkg/controller/gc/gc.go:214-242 | the swept types are the selection from the types authorized for delete and for list, without duplicates |
| TypeSelection.AuthorizedExactlyWhen | pkg/controller/gc/authorization.go:114-172 | a type is authorized if and only if a served resource with the verb yields its five fields and a rule without resource names grants the verb on it |
| TypeSelection.ParsesExactlyWhen | pkg/controller/gc/authorization.go:114-124 | no error if and only if the group version of every list that serves the verb parses |
| TypeSelection.PreferredIsChosen | pkg/controller/gc/openshift_rbac.go:74-125 | from the raw types: a type is selected if and only if it can be deleted and does not give way to the other view of its kind |
| FrameworkConditions.NewAggregator | framework/controller/conditions/conditions_aggregator.go:41-76 | accepts if and only if no dependent is unnamed, the target, or declared with two polarities, and then records exactly the definitions |
| FrameworkConditions.FirstUnhealthyCondition | framework/controller/conditions/conditions_aggregator.go:132-162 | the sort-and-scan finds the selected condition |
| FrameworkConditions.SelectIsLeastBlocking | framework/controller/conditions/conditions_aggregator.go:132-234 | the selected condition is the least-typed explicitly unhealthy one, else the least-typed Unknown one; none if and only if nothing blocks |
| FrameworkConditions.AggregateTrueMeansAllHealthy | framework/controller/conditions/conditions_aggregator.go:106-211 | the aggregate is True if and only if every considered condition is healthy under its polarity |
| FrameworkConditions.AggregateForgetsOrder | framework/controller/conditions/conditions_aggregator.go:106-162 | with unique types the aggregate is invariant under permutation |
| FrameworkConditions.DuplicateTypesShowOrder | framework/controller/conditions/conditions_aggregator.go:132-162 | with a repeated type it is not: two orders of one list aggregate differently |
| FrameworkConditions.TransitionTimeTracksStatus | framework/controller/conditions/conditions_support.go:11-53 | the transition time of an entry moves only with its status, to the time the caller brings or else to now |
| FrameworkManager.SetStatusCondition | framework/controller/conditions/conditions_support.go:11-53 | the in-place write is the specified upsert, and it reports a change if and only if a compared field differs |
| FrameworkManager.RemoveStatusCondition | framework/controller/conditions/conditions_support.go:55-73 | every entry of the type goes, the rest keeps its order, and the answer says whether any went |
| FrameworkManager.Manager.constructor | framework/controller/conditions/conditions_manager.go:19-56 | seeds exactly the missing target and dependents as Unknown |
| FrameworkManager.Manager.SetCondition | framework/controller/conditions/conditions_manager.go:81-99 | writes, records the type as active and recomputes unless nothing changed or the target was written |
| FrameworkManager.Manager.ClearCondition | framework/controller/conditions/conditions_manager.go:101-111 | removes the type and recomputes only if something was removed |
| FrameworkManager.Manager.MarkHealthy | framework/controller/conditions/conditions_manager.go:141-153 | writes the healthy status of the type under its polarity, True without an aggregator |
| FrameworkManager.Manager.MarkUnhealthy | framework/controller/conditions/conditions_manager.go:155-167 | writes the unhealthy status of the type under its polarity, False without an aggregator |
| FrameworkManager.Manager.RecomputeHappiness | framework/controller/conditions/conditions_manager.go:181-192 | the target becomes the aggregate of the list, which `AggregateSays` gives from its entries |
| FrameworkManager.Manager.CleanupStaleConditions | framework/controller/conditions/conditions_manager.go:198-251 | unwritten dependents become explicitly unhealthy, other unwritten types go, and the target is recomputed if and only if something changed |
| FrameworkManager.Manager.Sort | framework/controller/conditions/conditions_manager.go:253-261 | the list is sorted by the aggregator order, stably; by type without an aggregator |
| FrameworkManager.Manager.PerformAll | framework/controller/conditions/conditions_manager.go:33-261 | any sequence of manager calls has the effect of the run of the state machine, with and without an aggregator |
| ManagerRuns.StepKeepsSync | framework/controller/conditions/conditions_manager.go:81-251 | every operation but a direct write of the target keeps the target equal to the aggregate |
| ManagerRuns.TargetMirrorsAggregate | framework/controller/conditions/conditions_manager.go:33-113 | from an empty object with at least one dependent, after any operations that leave the target alone, types are unique and the target is the aggregate |
| ManagerRuns.NewManagerSyncsExactlyWhen | framework/controller/conditions/conditions_manager.go:33-56 | a new manager leaves the target in step if and only if a dependent was missing or the list was in step |
| ManagerRuns.NoDependentsStartsOutOfStep | framework/controller/conditions/conditions_manager.go:33-56 | without dependents it starts out of step |
| ManagerRuns.TargetOverrideIsTemporary | framework/controller/conditions/conditions_manager.go:81-99 | a direct write of the target lasts until the next recomputation and leaves no trace in the aggregate |
| ReconcileCycles.CycleSettles | framework/controller/conditions/conditions_manager.go:33-261 | a finished cycle satisfies what makes the next one with its marks a no-op, from any starting list |
| ReconcileCycles.Quiescence | framework/controller/reconciler/reconciler.go:482-563 | a second cycle with the same marks, each type once and never the target, leaves the whole list unchanged, order and transition times included |
| ReconcileCycles.RepeatedTypeMovesTransitionTime | framework/controller/conditions/conditions_manager.go:81-99 | marking one type twice with different statuses moves its transition time in every cycle |
| ApplyCycles.ApplyIsCycle | framework/controller/reconciler/reconciler.go:474-563 | the list apply ends with, from any pre-apply and actions that set conditions, is that of the cycle over their marks and the provisioning mark |
| ApplyCycles.ApplyQuiescence | framework/controller/reconciler/reconciler.go:474-563 | so a second apply with the same marks, at any later times, leaves the whole list unchanged |
| ApplyCycles.ApplyTwice | framework/controller/reconciler/reconciler.go:474-630 | on a status block: after two calls of apply in a row the conditions, the phase and the observed generation are those of the first |
| FrameworkConditions.ConsideredExactlyWhen | framework/controller/conditions/conditions_aggregator.go:185-198 | what takes part: neither the target nor an informational condition, and only dependents where any are declared |
| FrameworkConditions.HealthyExactlyWhen | framework/controller/conditions/conditions_aggregator.go:173-211 | healthy: False under negative polarity, True under any other, and never Unknown |
| FrameworkConditions.AggregateSays | framework/controller/conditions/conditions_aggregator.go:106-162 | the aggregate from the list: False if and only if some considered condition is explicitly unhealthy, Unknown if and only if none is and one is Unknown, True if and only if all are healthy, with the reason and message of the first culprit, or none |
| FrameworkConditions.SetStatusWrites | framework/controller/conditions/conditions_support.go:11-53 | a write entry by entry: appended when its type is missing, no change when the first entry agrees in five fields, else in its place with the transition time kept unless the status moves |
| ManagerLaws.SetSays | framework/controller/conditions/conditions_manager.go:81-99 | setting: written, marked as active, and recomputed if and only if the list changed and the type is not the target |
| ManagerLaws.ClearSays | framework/controller/conditions/conditions_manager.go:101-111 | clearing: exactly the entries of the type go, the rest in order, and a recomputation follows if and only if there was one |
| ManagerLaws.StatusSays | framework/controller/conditions/conditions_manager.go:141-167 | the status written for healthy and unhealthy under each polarity |
| ManagerLaws.CleanupSays | framework/controller/conditions/conditions_manager.go:198-251 | a cleanup type by type: an unwritten dependent is told that it was not set, stale types are gone, all else shows what it showed; nothing happens if and only if nothing had to change |
| ManagerLaws.NewSays | framework/controller/conditions/conditions_manager.go:33-56 | a new manager keeps what each type shows and seeds each missing dependent as a silent Unknown |
| ManagerLaws.SortSays | framework/controller/conditions/conditions_manager.go:253-261 | sorting only moves entries: the target, the dependents, the rest, each by name, entries of one type in their order |
| ReconcilerApply.Reconciler.ProvisionWith | framework/controller/reconciler/reconciler.go:491-546 | pre-apply check, action loop with stop and requeue errors, and provisioning mark, as specified |
| ReconcilerApply.Reconciler.Finish | framework/controller/reconciler/reconciler.go:548-559 | cleanup, recomputation and sort give the list the phase is read from |
| ReconcilerApply.Reconciler.Apply | framework/controller/reconciler/reconciler.go:474-630 | phase, observed generation, conditions and the returned error or delay of a whole cycle, as `ApplyFailsExactlyWhen` and `ApplyDelayIs` give them from the inputs |
| ReadySoundness.ReadyExactlyWhen | framework/controller/reconciler/reconciler.go:548-563 | with cleanup on, the phase is Ready if and only if every dependent was written and every considered condition written is healthy, or a stray second target entry says True |
| ReadySoundness.ReadyIsSound | framework/controller/reconciler/reconciler.go:490-563 | Ready, and the advance of the observed generation, imply that pre-apply passed, no action failed other than by asking for a requeue, every dependent was written this cycle, and what is left is healthy |
| ReadySoundness.HappyExactlyWhen | framework/controller/conditions/conditions_support.go:93-97 | a target in step shows happy if and only if the aggregate is True or a stray entry says so |
| ReadySoundness.StrayTargetAlwaysReady | framework/controller/reconciler/reconciler.go:555-563 | with a stray True target entry every cycle ends Ready, whatever its pre-apply and actions do and however they end, with and without cleanup, unless they clear the target |
| ReadySoundness.UnguardedProvisioningShowsReady | framework/controller/reconciler/reconciler.go:530-563 | if provisioning does not take part in the aggregate, a failed cycle is shown Ready |
| ReadySoundness.UnwrittenDependentBlocks | framework/controller/conditions/conditions_manager.go:198-251 | an unwritten dependent blocks the aggregate after cleanup |
| ApplyCycles.ApplyFailsExactlyWhen | framework/controller/reconciler/reconciler.go:491-630 | the error of a cycle from its inputs: a failed hook first, then a failed write, then the first failing action unless pre-apply stopped, paused exactly when its delay is positive; none otherwise |
| ApplyCycles.ApplyDelayIs | framework/controller/reconciler/reconciler.go:598-624 | the delay of a cycle that succeeds: the stop delay, or that of the last action that asked for one, or the default |
| ApplyCycles.ProvisioningSays | framework/controller/reconciler/reconciler.go:530-546 | what the provisioning condition says at the end of a cycle: True, or False with the reason and message of what stopped or failed first |
| PackageConditions.Deduplicate | pkg/controller/conditions/conditions.go:42-55 | keeps the first occurrence of each dependent and never the happy type |
| PackageConditions.KeptLists | pkg/controller/conditions/conditions.go:42-55 | the registration lists exactly the given types other than the happy one, each once |
| PackageConditions.RemoveFirstCondition | pkg/controller/conditions/conditions_support.go:85-104 | removes the first entry of the type only, and says whether there was one |
| PackageConditions.HappyManager.constructor | pkg/controller/conditions/conditions.go:42-65 | registers the deduplicated dependents and seeds what is missing |
| PackageConditions.HappyManager.InitializeConditions | pkg/controller/conditions/conditions.go:261-287 | a missing happy condition becomes Unknown, missing dependents True or Unknown after it |
| PackageConditions.HappyManager.SetCondition | pkg/controller/conditions/conditions.go:87-97 | writes and propagates only a change |
| PackageConditions.HappyManager.ClearCondition | pkg/controller/conditions/conditions.go:100-110 | removes and propagates only if present |
| PackageConditions.HappyManager.RecomputeHappiness | pkg/controller/conditions/conditions.go:178-201 | happy repeats the selected dependent, else becomes True unless the happy type itself triggered |
| PackageConditions.HappyManager.FindUnhappyDependent | pkg/controller/conditions/conditions.go:296-334 | finds the selected dependent |
| PackageConditions.HappyManager.Sort | pkg/controller/conditions/conditions.go:217-255 | sorts the list by registration and name, stably |
| PackageConditions.HappyManager.PerformAll | pkg/controller/conditions/conditions.go:87-255 | any sequence of calls has the effect of the run of the state machine |
| PackageConditions.SelectedIsMostUrgent | pkg/controller/conditions/conditions.go:296-334 | the selection is False before Unknown, then the latest transition, then registration order; none if and only if no Error dependent complains |
| PackageConditions.HappyMirrorsDependents | pkg/controller/conditions/conditions.go:42-211 | from an empty object, after any operations, while an Error dependent is False or Unknown the happy condition is present and repeats the selected one |
| PackageConditions.StepKeepsMirror | pkg/controller/conditions/conditions.go:87-255 | every single operation keeps that |
| PackageConditions.HappyOverrideSticksExactlyWhen | pkg/controller/conditions/conditions.go:178-201 | a caller's write to the happy condition sticks if and only if no dependent is unhappy or it says the same as the selected one |
| PackageConditions.MarkTrueNeverSticks | pkg/controller/conditions/conditions.go:128-130 | marking happy True while a dependent is unhappy leaves it as it was |
| PackageConditions.HappyTrueExactlyWhen | pkg/controller/conditions/conditions.go:178-201 | after a changed dependent happy is True if and only if no dependent is left to complain |
| PackageConditions.NewManagerMirrorsExactlyWhen | pkg/controller/conditions/conditions.go:261-287 | over any old list a new manager mirrors if and only if no dependent, those just seeded included, complains or happy already says what the most urgent complaint says |
| PackageConditions.CompleteListMirrorsAsBefore | pkg/controller/conditions/conditions.go:261-287 | with nothing missing it mirrors if and only if the list did |
| PackageConditions.TrueHappyMirrorsExactlyWhen | pkg/controller/conditions/conditions.go:261-287 | over a True happy condition it mirrors if and only if no dependent complains already |
| PackageConditions.SeededSilenceSpeaks | pkg/controller/conditions/conditions.go:261-287 | a dependent seeded as Unknown that nothing more urgent outranks has to be matched by a silent Unknown happy condition |
| PackageConditions.FalseDependentSpeaks | pkg/controller/conditions/conditions.go:261-287 | with a False dependent it mirrors if and only if happy already says what the most urgent False one says |
| PackageConditions.OldListStartsOutOfStep | pkg/controller/conditions/conditions.go:261-287 | the shortest list it does not mirror over; the first recomputation puts it right |
| PackageConditions.SortIsCanonical | pkg/controller/conditions/conditions.go:217-255 | with unique types the sorted list does not depend on the order written |
| PackageConditions.RecomputeSays | pkg/controller/conditions/conditions.go:178-201 | a recomputation from the list: happy is written with the status, reason and message of the complaint that outweighs all others, else as True with its fixed reason, unless its own change is propagated |
| PackageConditions.SpeakerIsSelected | pkg/controller/conditions/conditions.go:296-334 | whose complaint counts, from the entries: the first of its type, not informational, False or Unknown; False before Unknown, then the later transition, then registration order |
| PackageConditions.SetSays | pkg/controller/conditions/conditions.go:87-97 | a write that leaves the list as it was is not propagated, and any other is |
| PackageConditions.ClearSays | pkg/controller/conditions/conditions.go:100-110 | clearing takes out the entry the type shows and propagates that; a missing type changes nothing |
| PackageConditions.NewSays | pkg/controller/conditions/conditions.go:261-287 | a new manager keeps the list and appends the missing happy condition as Unknown and the missing dependents in order, as True or Unknown after it |
| PackageConditions.SortSays | pkg/controller/conditions/conditions.go:217-255 | sorting only moves entries: happy, the dependents as registered, the rest by name, entries of one type in their order |
| StatusUpdate.Update | pkg/status/update.go:51-92 | the retry loop with the limit of the last option, five by default: server, caller copy, error and number of mutations as specified |
| StatusUpdate.UpdateIsLinearizable | pkg/status/update.go:51-92 | under any interleaving and for any copy: failure means our calls changed nothing, success that there is exactly one write of ours, the mutation of the object it replaced unless it was the first attempt with a copy that is no read; at most maxRetries+1 mutations |
| StatusUpdate.FirstAttemptTrustsCaller | pkg/status/update.go:69-80 | the first attempt does not re-read: what it writes is the mutation of the copy, right if and only if the mutation gives the stored object the same status |
| StatusUpdate.FirstAttemptIsRightExactlyWhen | pkg/status/update.go:69-80 | it is right for every mutation if and only if the copy is an unmodified read of what it replaces |
| StatusUpdate.NegativeLimitTriesNothing | pkg/status/update.go:69-91 | retries are reported exhausted without a cause if and only if the limit is negative, and then nothing was tried |
| StatusUpdate.QuietServerSucceeds | pkg/status/update.go:69-91 | once others are quiet one retry is enough |
| StatusUpdate.ServerAnswers | pkg/status/update.go:71-86 | a fault before everything, then absence, then, to a write only, a version that has moved |
| StatusUpdate.WritesLand | pkg/status/update.go:82-86 | a write that is accepted takes nothing but the status |
| StatusUpdate.UpdateEndsWith | pkg/status/update.go:69-89 | the first attempt that meets no conflict ends the update: with what it stored and the copy holding that, or with its refusal or failed re-read and the copy holding the last mutation; attempts, requests and mutations are counted |
| StatusUpdate.UpdateIsExhausted | pkg/status/update.go:69-91 | retries are exhausted if every attempt allowed meets a conflict, after exactly one more than the limit |
| StatusUpdate.NothingToApply | pkg/status/update.go:58-60 | without a function nothing is requested, and only then is that the error |
| RenderCache.Clone | pkg/resources/types.go:59-71 | fresh, distinct objects with the same contents |
| RenderCache.Cacher.Render | pkg/render/cacher/cacher.go:54-80 | hit, miss, nil key function, key error and empty key as specified; the renderer ran if and only if it says so |
| RenderCache.Cacher.ReRender | pkg/render/cacher/cacher.go:32-48 | a failed rendering leaves memo and key as they were |
| RenderCache.ResourceCacher.Render | pkg/render/cacher/resourcecacher.go:46-81 | appends fresh copies only: cache and request share no object, before and after |
| RenderCache.PerformAll | pkg/render/cacher/resourcecacher.go:46-81 | any history of renders, invalidations, key functions and in-place edits by callers keeps them apart and follows the memo on values, which no edit touches |
| RenderCache.RenderServesFresh | pkg/render/cacher/cacher.go:54-80 | if the key determines the output, a successful render after any history hands out what a fresh rendering would, and flags the request if and only if the renderer ran |
| RenderCache.AlwaysFreshExactlyWhen | pkg/render/cacher/cacher.go:54-80 | every render after every history that uses the given key functions is fresh if and only if equal keys stand for equal renderings, or the renderer never succeeds |
| RenderCache.HitIsFreshExactlyWhen | pkg/render/cacher/cacher.go:72-77 | after any history, whatever the key functions, a hit hands out the rendering of the input rendered last without running the renderer: right if and only if that input renders like the current one |
| RenderCache.NothingToHit | pkg/render/cacher/cacher.go:28-30 | after an invalidation, or without a key function, the renderer runs |
| RenderCache.RenderEndsExactly | pkg/render/cacher/cacher.go:54-80 | each error of a render, whether the renderer ran, and what failed renders leave untouched, from key function, key and memo |
| RenderCache.RenderRemembers | pkg/render/cacher/cacher.go:32-48 | after a render that ran, any input of the same key is served its output without running the renderer |
| RenderCache.EventsSpareMemo | pkg/render/cacher/resourcecacher.go:46-81 | edits and new requests never reach the memo; an invalidation makes the next render with a proper key miss |
| ParamsCodec.Unmarshal | framework/render/kustomize/params/params.go:139-156 | the scanner loop parses the lines of the file as specified |
| ParamsCodec.Marshal | framework/render/kustomize/params/params.go:159-175 | the file is the keys in order, one line each, whatever order the map is read in |
| ParamsCodec.UnmarshalIsNormal | framework/render/kustomize/params/params.go:139-156 | what is parsed is always in normal form |
| ParamsCodec.RoundTripsExactlyWhenNormal | framework/render/kustomize/params/params.go:139-175 | printing and parsing gives a map back if and only if it is in normal form: trimmed keys without =, newline or leading #, values without newline or trailing space, lines within the scanner limit |
| ParamsCodec.ParsedFilesAreFixed | framework/render/kustomize/params/params.go:139-175 | for every byte sequence that parses, printing the result and parsing it again gives the same map |
| ParamsCodec.Apply | framework/render/kustomize/params/params.go:80-121 | the file is rewritten if and only if a mapper reports a change, with the mapped parameters |
| ParamsCodec.ApplyIsReadBackExactlyWhen | framework/render/kustomize/params/params.go:80-121 | what is written is read back if and only if the mapped parameters are in normal form |
| ParamsCodec.Params.Replace | framework/render/kustomize/params/params.go:36-52 | only keys already present are replaced, in place, and a change is reported if and only if there is one |
| ParamsCodec.Params.Merge | framework/render/kustomize/params/params.go:56-69 | values are set over the parameters in place, and a change is reported if and only if there is one |
| ParamsCodec.ValuesMergesExactlyWhen | framework/render/kustomize/params/params.go:54-69 | the result is the merge its comment promises if and only if no missing key is given an empty value |
| ParamsCodec.TrimSpaceSays | framework/render/kustomize/params/params.go:139-156 | trimming takes Unicode white space off both ends, all of it and nothing else |
| ParamsCodec.LinesSay | framework/render/kustomize/params/params.go:139-156 | a text is its lines, each ended by a newline that only the last may lack |
| ParamsCodec.UnmarshalSays | framework/render/kustomize/params/params.go:139-156 | each key has the value of the last line that says something of it, before the first line too long for the scanner, which alone makes it fail |
| ParamsCodec.MarshalSays | framework/render/kustomize/params/params.go:159-175 | the printed file is one line for each key, in increasing byte order |
| ParamsCodec.MappedSays | framework/render/kustomize/params/params.go:36-69 | what each mapper does to a key: a replacement never adds one, and values add all but empty ones |
| DriftRevert.BuildResourcesPatch | pkg/deploy/drift.go:227-263 | the requests and limits patch of one container |
| DriftRevert.MatchContainerPatch | pkg/deploy/drift.go:116-167 | the patch against the first live container of the name |
| DriftRevert.ComputeContainerPatches | pkg/deploy/drift.go:87-114 | the patches of all manifest containers in order, or the error of a mistyped list |
| DriftRevert.RevertDeploymentDrift | pkg/deploy/drift.go:44-85 | the live object afterwards, or the error, leaving it untouched |
| DriftLaws.RevertMeetsManifest | pkg/deploy/drift.go:44-263 | for well-typed Deployments: shared containers with live resources end with exactly the manifest requests and limits, replicas stay if and only if the manifest states them, all else is untouched |
| DriftLaws.ContainerReverted | pkg/deploy/drift.go:144-263 | the same for one container |
| DriftLaws.RevertIdempotent | pkg/deploy/drift.go:44-220 | reverting twice is reverting once |
| DriftLaws.ItemsPatched | pkg/deploy/drift.go:185-220 | a strategic merge patch of containers by name changes each named container by its own patch and no other |
| DriftLaws.PatchesAnswer | pkg/deploy/drift.go:87-142 | the emitted patch of a name is that of the manifest container of the name |
| DeploymentMerge.BuildResourceMap | pkg/deploy/merge.go:79-102 | the live resources by container name |
| DeploymentMerge.ApplyResourceMap | pkg/deploy/merge.go:104-128 | the in-place loop over the rendered containers |
| DeploymentMerge.RenderedObject.MergeContainerResources | pkg/deploy/merge.go:44-77 | the rendered object after the resources step, or a list error leaving it untouched |
| DeploymentMerge.RenderedObject.MergeDeployments | pkg/deploy/merge.go:31-38 | the rendered object after the merge, and how it ends |
| DeploymentMerge.MergedReads | pkg/deploy/merge.go:31-144 | replicas are the live ones, containers the merged ones, every other field is as rendered |
| DeploymentMerge.LiveResourcesWin | pkg/deploy/merge.go:104-128 | a shared container has the live resources, or none if the live copy has none to speak of |
| DeploymentMerge.NewContainersAreKept | pkg/deploy/merge.go:104-128 | a container the live object lacks is left as rendered |
| DeploymentMerge.MergeLeavesNoDriftExactlyWhen | pkg/deploy/merge.go:31-144 | against the merged manifest drift detection finds nothing if and only if no shared live container states empty resources |
| DeploymentMerge.MergeIdempotent | pkg/deploy/merge.go:31-144 | merging again changes nothing |
| Json.NestedWalks | pkg/deploy/drift.go:94-107 | reading a nested field: found at the end of the walk, missing where it meets a null or a map without the key, an error at anything else |
| DriftLaws.RevertFailsExactlyWhen | pkg/deploy/drift.go:87-183 | reverting fails on unreadable containers of either object, else on unreadable replicas, and only then |
| DriftLaws.PatchedExactlyWhen | pkg/deploy/drift.go:116-167 | a manifest container is patched if and only if the first live container of its name has resources that the manifest leaves out or states differently as a map |
| DeploymentMerge.EveryContainerMerges | pkg/deploy/merge.go:79-128 | for any two lists, names repeated or missing included: resources follow the last live container of the name, everything else stays |
| DeploymentMerge.MergeEndsExactly | pkg/deploy/merge.go:31-144 | how a merge ends, from what can be read on the way to containers and replicas, and that a list error changes nothing |
| DeploymentMerge.MergeWithoutContainers | pkg/deploy/merge.go:130-144 | where the rendered object lists no containers only the replicas change, to the live ones |
| QuarantineLaws.TestKeyInjective | flakiness/analyzer.go:83-89 | keys are equal if and only if the tests are, on names free of the separator |
| QuarantineLaws.NulMakesKeysCollide | flakiness/analyzer.go:83-89 | with the separator in a name different tests collide |
| Quarantine.IndexPriorEntries | flakiness/flakiness.go:339-348 | the last quarantined entry of each key |
| QuarantineLaws.IndexedIsLast | flakiness/flakiness.go:339-348 | every quarantined key is indexed, and by its last entry |
| Quarantine.CarryTickets | flakiness/flakiness.go:247-266 | tickets carried over in place, and the tests left to file, in order |
| Quarantine.FileNew | flakiness/flakiness.go:268-287 | each test is filed once in order; answers land in the first entry of the key |
| Quarantine.CheckResolved | flakiness/flakiness.go:301-337 | prior tickets polled for tests no longer quarantined, and those released |
| Quarantine.ReconcileQuarantine | flakiness/flakiness.go:247-293 | the whole run, with and without a tracker |
| QuarantineLaws.OneAttemptEach | flakiness/flakiness.go:247-287 | a run attempts exactly the quarantined tests without a prior ticket, once each |
| QuarantineLaws.NewTestAnswered | flakiness/flakiness.go:268-287 | each such test ends with the ticket the tracker gave for it, or with its error on record |
| QuarantineLaws.EndsWithTicketOrRefusalExactlyWhen | flakiness/flakiness.go:247-293 | for any lists and any tracker: every quarantined test ends with a ticket or with its own filing refused, if and only if no request of the run is answered with an empty ticket |
| QuarantineLaws.RefusalIsRecorded | flakiness/flakiness.go:268-287 | such a refusal is on record |
| QuarantineLaws.EmptyTicketIsLost | flakiness/flakiness.go:268-287 | the shortest run that loses a test: one new test, one empty ticket |
| QuarantineLaws.OnlyTicketsChange | flakiness/flakiness.go:247-293 | a run changes tickets and nothing else |
| QuarantineLaws.ReleasedAreNotQuarantined | flakiness/flakiness.go:301-337 | released tests are disjoint from quarantined ones and come from prior entries with a ticket |
| QuarantineLaws.TicketSticks | flakiness/flakiness.go:247-293 | over any runs fed with the previous entries, a held ticket never changes and its test is never filed again while it stays quarantined |
| QuarantineLaws.OneTicketEver | flakiness/flakiness.go:247-293 | so no two runs obtain a ticket for a test that stays quarantined |
| QuarantineLaws.AbsenceForgetsTicket | flakiness/flakiness.go:339-348 | one run without the test forgets its ticket: it is filed again when it returns |
| QuarantineLaws.RunFiles | flakiness/flakiness.go:247-287 | a run from its lists: exactly the quarantined tests without a ticket in their last quarantined prior entry are filed, in order, the k-th ending with the k-th answer; the others carry that ticket, and what is not quarantined is unchanged |
| QuarantineLaws.RunChecks | flakiness/flakiness.go:288-337 | exactly the prior tickets of tests no longer quarantined are asked about, in order; released are exactly those answered Done, Closed or Resolved, and the errors are exactly those of refused filings and refused questions |
| QuarantineLaws.RunWithoutTracker | flakiness/flakiness.go:247-266 | without a tracker known tickets are carried over, the new tests are named, and nothing else happens |
| Classification.Analyze | flakiness/report.go:231-336 | one record for every test with an analyzable sample: passes and failures counted over its series, the history its samples in order with the outcome, build, commit and PR of their series, the dates the latest of them |
| Classification.CountTrailingFailures | flakiness/analyzer.go:230-241 | the length of the trailing failure streak |
| Classification.AnalyzeWith | flakiness/analyzer.go:173-218 | the classification loop, as specified |
| Classification.TrailingIsMaximal | flakiness/analyzer.go:230-241 | the streak is all failures and the run before it passed |
| Classification.DefensiveBranchesAreDead | flakiness/analyzer.go:184-199 | for accumulated records the short-history and empty-prefix branches are never taken |
| Classification.HealthyExactlyWhen | flakiness/analyzer.go:176-178 | healthy if and only if too few runs or no failure |
| Classification.PersistentExactlyWhen | flakiness/analyzer.go:180-182 | persistent if and only if enough runs and all failed |
| Classification.RegressionExactlyWhen | flakiness/analyzer.go:184-217 | a regression if and only if the ordered runs step from mostly passing to only failing for long enough; the transition is the first run after the step |
| Classification.PassEndsRegression | flakiness/analyzer.go:190-194 | a passing newest run ends every regression |
| Classification.ClassificationForgetsOrder | flakiness/analyzer.go:220-228 | with distinct times the order of the history does not matter |
| Classification.TiesShowOrder | flakiness/analyzer.go:220-228 | with equal times it does |
| Classification.QuarantineList | flakiness/report.go:114-159 | one entry for each test that is not healthy, with its pattern, counts, dates and the commit or build blamed for a regression; quarantined if and only if flaky beyond the threshold, no test twice, in a fixed order |
| Classification.CountsOfSeries | flakiness/report.go:255-312 | failed runs are the samples of series with a fail or error outcome, the others those of series that passed |
| Classification.RecordReports | flakiness/report.go:255-326 | each run carries build, commit, PR and outcome of a series of its test, every sample is one, and both dates are attained maxima |
| Classification.QuarantinedExactlyWhen | flakiness/analyzer.go:97-171 | an entry is quarantined if and only if its test is flaky and fails in more than the threshold of its runs; its rate times the runs is the number of failures |
| Classification.ListedDescribes | flakiness/report.go:114-159 | every field of an entry, over the record and its transition |
| Classification.DefaultsFillIn | flakiness/analyzer.go:41-53 | what stands in for options that are not positive |
| Budget.PercentileIsOnTheLine | flakiness/runtime.go:251-271 | at a fractional rank the percentile lies that far on the line between the two neighbouring samples |
| Budget.PercentileMonotone | flakiness/runtime.go:251-271 | on a sorted sample the percentile is monotone in p and stays between the ends |
| Budget.PercentilesOrdered | flakiness/runtime.go:236-245 | P50 <= P95 <= P99 <= Max for every aggregated test, after truncation to nanoseconds |
| Budget.RuntimeForgetsOrder | flakiness/runtime.go:234-245 | the order in which durations were read does not show |
| Budget.AggregateRuntimes | flakiness/runtime.go:205-249 | one runtime for each test with a value, over all its values |
| Budget.ComputeRecommendations | flakiness/budget.go:245-308 | the advice for each configured test, raises first, then by name |
| Budget.RaiseNeverShrinks | flakiness/budget.go:266-279 | from a threshold of two thirds a raise never suggests less, and strictly more once the margin reaches a nanosecond |
| Budget.RaiseIsStrictBeforeTruncation | flakiness/budget.go:266-279 | before truncation to nanoseconds: every raise suggests strictly more if and only if the threshold is above two thirds |
| Budget.RaiseIsStrictExactlyWhen | flakiness/budget.go:266-279 | after truncation: every raise of a timeout suggests strictly more if and only if that of the least P95 reported does |
| Budget.DefaultRaiseIsStrictExactlyWhen | flakiness/budget.go:266-279 | at the default threshold every raise is strict if and only if the timeout is at least two nanoseconds |
| Budget.DefaultRaiseIsStrict | flakiness/budget.go:209-279 | so it is for every aggregated test |
| Budget.LowThresholdCanShrink | flakiness/budget.go:266-279 | below two thirds, for every threshold, zero and negative ones included, some raise suggests less than the current timeout |
| Budget.LowerSuggestsMoreExactlyWhen | flakiness/budget.go:281-298 | a lower recommendation suggests a longer timeout if and only if the timeout is under a second or the P99 headroom exceeds it |
| Budget.LowerCanRaise | flakiness/budget.go:281-298 | and that happens, with steady tests under a short timeout |
| Budget.NearTimeoutMeansRaise | flakiness/budget.go:209-243 | a test is reported near its timeout if and only if a raise is recommended |
| Budget.GroupByBuild | flakiness/budget.go:111-134 | grouping loses and invents no time: each build is there, its suites add up to all that ran in it |
| Budget.SumTakesOut | flakiness/budget.go:144-148 | the sum over a map does not depend on its iteration order |
| Budget.ComputePipelineBudget | flakiness/budget.go:136-161 | the use reported is that of the build in which most time was spent |
| Budget.ComputeSuiteBudgets | flakiness/budget.go:163-207 | a configured suite is reported if and only if it took time in some build, once, with its largest total, most used first |
| Budget.AdviceSays | flakiness/budget.go:245-298 | the advice without division: a raise if and only if the P95 reaches the threshold of the timeout, else a lower if and only if it is within three tenths over five runs; suggested is one and a half times the P99, truncated, for a lower at least a second |
| Budget.RuntimeSays | flakiness/runtime.go:234-245 | the reported percentiles, maximum and count of any ascending arrangement of the durations |
| CertManagerOrder.CertManagerPostRenderer | framework/resources/sort.go:43-86 | partition, insertion point and block loop compute the reordering |
| CertManagerOrder.ReorderingConserves | framework/resources/sort.go:43-86 | a permutation; other resources, and each cert-manager kind by itself, keep their relative order |
| CertManagerOrder.BlockIsInPlace | framework/resources/sort.go:62-83 | one contiguous block, cluster issuers, issuers, certificates, directly in front of the first workload or webhook |
| CertManagerOrder.IssuersComeFirst | framework/resources/sort.go:43-111 | every issuer and certificate precedes every workload and webhook |
| CertManagerOrder.ReorderingIdempotent | framework/resources/sort.go:43-86 | twice is once |
| CertManagerOrder.ReorderingUnique | framework/resources/sort.go:43-86 | these promises determine the result: any list that keeps them is the one computed |
| CertManagerOrder.KindsSay | framework/resources/sort.go:88-111 | the kinds moved and the kinds they are moved in front of |
| DynamicWatches.StepKeepsInv | framework/controller/actions/dynamicownership/action_dynamic_ownership.go:105-152 | every atomic step of every call keeps mutual exclusion and the agreement of registry, registrations and announced types |
| DynamicWatches.AtMostOneWatch | framework/controller/actions/dynamicownership/action_dynamic_ownership.go:105-152 | under any interleaving with failing registrations each key is registered successfully at most once, never attempted again afterwards, and never if pre-registered |
| DynamicWatches.WatchedExactlyWhen | framework/controller/actions/dynamicownership/action_dynamic_ownership.go:125-152 | outside the moment between registering and recording, a key is watched if and only if it was pre-registered or registered successfully, and the announced owned types are those registered as owned |
| DynamicWatches.DoneMeansWatched | framework/controller/actions/dynamicownership/action_dynamic_ownership.go:154-242 | a call that ends without error leaves every resource it was given watched, excluded, or of an API found unavailable, whatever other calls did |
| OwnershipAction.Action.RegisterIfNeeded | framework/controller/actions/dynamicownership/action_dynamic_ownership.go:110-152 | under the lock: an unknown key is registered with one request, logged, recorded and announced if owned exactly when accepted; a known one is left alone |
| OwnershipAction.Action.RunCall | framework/controller/actions/dynamicownership/action_dynamic_ownership.go:154-242 | the loop is a run of the protocol: it fails if and only if the outside refused something, registers only what was asked for and not watched, records and announces exactly what was accepted, and otherwise leaves every resource watched, excluded, or of an API it was told is missing |
| OwnershipAction.FirstCall | framework/controller/actions/dynamicownership/action_dynamic_ownership.go:258-275 | a first call on a new action meets all of the above |
| DynamicWatches.KeyOfSays | framework/controller/actions/dynamicownership/action_dynamic_ownership.go:167-190 | one watch for each CRD by name, and for other resources one per type, owned unless marked as not managed |
| DynamicWatches.PreRegisteredAreSpared | framework/controller/actions/dynamicownership/action_dynamic_ownership.go:80-88 | a pre-registered type is watched as owned from the start and never registered so again |
| DynamicWatches.FailsExactlyWhenRefused | framework/controller/actions/dynamicownership/action_dynamic_ownership.go:154-242 | under any interleaving a call fails if and only if one of its own steps was refused |
| DynamicWatches.UnavailableExactlyWhen | framework/controller/actions/dynamicownership/action_dynamic_ownership.go:191-200 | an API counts as unavailable if and only if the call asked for it and was told so |
| DynamicWatches.StepProgresses | framework/controller/actions/dynamicownership/action_dynamic_ownership.go:105-242 | a step is taken unless its call has ended or waits for the lock, and always brings that call nearer to its end |
| DynamicWatches.NeverStuck | framework/controller/actions/dynamicownership/action_dynamic_ownership.go:105-152 | no deadlock: while some call has not ended, one can move, whatever it is answered |

## Left out

- The framework copies of deploy, collection and render caching, which mirror the package code modelled here.
- Helm, Kustomize and template engines, `postrenderer.ApplyOrder`, REST mapping, discovery I/O and scheme conversion:
  libraries; SHA-256, spew and base64: the fingerprint is the manifest without the fields the hash drops.
- Deployment: custom merge functions, field managers, metrics, the length of the cache's time to live (expiry happens at
  any moment), a CRD whose apply is answered with NotFound, which the program ignores, and manifests that state their own
  resource version, uid or status. A manifest body is its leaf paths, an empty map being a leaf; type errors inside merged
  fields are in `DeploymentMerge` only. The owner stays the same over a run; its generation and the release vary.
- DeployCache.HitIsRightExactlyWhen: the paths of a container are keyed by its name, and `Named` says that the name is
  one of its fields; a container without a name, which the merge passes over and the API server rejects, has no paths.
- Collection: custom object predicates, failures of discovery and of the permission review, and metrics; foreground
  deletion is modelled as marking the object terminating. The uids of an object's owners stand in the order an oracle
  gives.
- TypeSelection.SelectDeletableTypes: discovery and permission rules are given; the namespace lookup is not modelled.
- Drift: the group and kind checks are booleans, nil arguments are excluded by the types, and the server's own
  defaulting of removed replicas is not modelled. Deep equality is structural.
- RemoveDeploymentResources and MergeObservabilityResources have no Json-level model; the second is one of the merge
  strategies of `DeploySpec`.
- Conditions: nil accessors, deep copies and the aliasing of the returned slices; actions touch conditions only
  through the manager.
- ReconcilerApply.Reconciler.Apply: hooks are modelled by how they end and cannot change other status fields; events,
  metrics and the NotFound answer of the status write, which the program ignores, are not modelled.
- StatusUpdate.Update: a failed request is one that had no effect on the server, the mutation leaves metadata alone,
  and a read replaces the caller's copy as a whole.
- RenderCache.Cacher.Render: a renderer builds new objects each time, and the key bytes are not shared with the caller.
  That the key determines the output is an assumption of `RenderServesFresh`: the default hash concatenates its parts
  without separators.
- Codec: reading and writing files, and the environment lookup of `FromEnv`.
- Flakiness: querying the metrics store (series are given as read), Jira over HTTP, regular expressions of excluded
  tests, command-line output, per-suite runtime totals and trends. Arithmetic is over the reals, with the program's
  truncation to whole nanoseconds; IEEE rounding is not modelled.
- Quarantine.ReconcileQuarantine: error texts are kept, their formatting is not.
- OwnershipAction.Action.RunCall: is the call without others in between; interleavings are the subject of
  `DynamicWatches`. Event handlers and predicates passed to the registration are not modelled.
- TLS profiles, webhooks, predicates and handlers, cluster detection, singleton and ingress lookups, release lists,
  preconditions and deep-copy code: they would add only easy members.
