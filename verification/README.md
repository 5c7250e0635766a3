# Verified model of pelicon/dr

`pelicon/dr` mirrors the objects of one Kubernetes namespace into a paired cluster. For every
namespace a worker takes objects from a queue, filters and rewrites them, holds each one back until
what it depends on has been sent, and hands it to a transport manager, which writes it to the paired
cluster and remembers the highest version it wrote for every uid. Two controllers start and stop the
workers and pass cluster settings on.

This project models that logic in Dafny and proves what the pipeline promises: over every
interleaving of its loops, for every object, every configuration and every order in which Go may
range over a map. `dafny verify dfyconfig.toml` checks all of it.

## How the model is built

- **Trees.** `Json` has unstructured objects as values. `Probe` (what stands at a location) and
  `Pruned` (a tree with map keys cut off) are two independent ways to talk about trees; the filter
  theorems are stated with them and not with the filters' own recursion.
- **Filters.** `VariableMappingFilter`, `VariableDeleteFilter` and `FilterChain` follow the Go
  loops. A call yields the tree it leaves behind, also when it fails half way, and a verdict:
  passed, failed or panicked. The order in which Go ranges over a rule map is an explicit argument
  of the specification and a ghost result of the methods. `MappingLaws`, `MappingConfluence`,
  `MappingOrder`, `MappingPruned`, `InstalledChain`, `Identity`, `Retry` and `LostName` hold the theorems.
- **The Go heap.** An `*ObjResource` is an index into a sequence of objects, an `*Unstructured` an
  index into a sequence of trees, so that objects which share one tree see each other's rewrites.
- **The two loops.** `Pipeline` is a state machine: one step is one iteration of the worker's `run`,
  one iteration of the manager's `transport`, an arrival, the end of a delay, or a new configuration.
  `NamespaceWorker` and `TransportManager` are the Go types as classes with the Go loops as methods;
  each method is proved to move the state exactly as the machine's step does. Log fields (admissions,
  successes, hand-overs, drops) are history that decides nothing.
- **Laws.** `TransportLaws`, `LookupLaws` and `WorkerLaws` say what single steps come to without naming
  the functions that compute it: by location, by key, by position, by what was found.
- **Runs.** A run starts with empty queues and no recorded version against a paired cluster that holds
  anything, as after a restart of the worker. `PipelineSafety` and `PipelineTheorems` say what every run
  keeps, `LostUid` and `NeverRecorded` what becomes of objects whose uid is lost.
- **Progress.** `PipelineProgress` and `PipelineSchedule` prove that `d + 1` alternating rounds empty
  both queues when dependencies are nested `d` deep, and that those rounds can always be run.
- **Controllers.** `ConfigContainer`, `DRNamespaceController` and `DRClusterController` are classes
  with the fields and loops of the source, and theorems over any sequence of calls or attempts.

## Where the code differs from what one would expect

The code was followed in each case, and the model proves what then holds.

- Rules whose written locations lie apart can still interfere: `spec,replicas` mapped to a number and
  `spec,replicas,x` on an object without `replicas` pass in one order and fail in the other
  (`MappingConfluence.WritesApartIsNotEnough`). `Apart` therefore also looks at where a walk ends
  without writing, and `MappingConfluence.ApartIff` shows that this is exact.
- A waiting object is filtered again. When a second pass leaves it as it is has an exact condition
  (`Retry.FixedIff`, `Retry.SecondPass`, `Retry.RetryIndependent`, equivalences): rewritten strings settle,
  no delete path matches anything that is left, and what mapping adds again is deleted again. If delete
  rules leave names alone the rules and the object decide it (`Retry.StableByRules`); if one takes the name
  of an object that other rules are keyed to, the second pass puts back what they deleted
  (`LostName.LostNameShows`).
- The range variables in `filter_factory.go` and in the StatefulSet checker are shared by all
  iterations: every default delete rule names the last white-listed kind, and every dependency of a
  StatefulSet shows the last claim, so that only that claim is waited for
  (`DependencyCheckers.OnlyLastClaimGates`, `DependencyCheckers.LastClaimStandsForAllIff`,
  `DependencyCheckers.ReadyWithoutClaims`). Objects of the last white-listed kind lose their uid, share
  one recorded version, and hide each other (`Identity.StringKeptIff`, `LostUid.SecondNeverWritten`).
  As no version is ever recorded for the uid such an object had, nothing that depends on it is ever handed
  over (`NeverRecorded.DependentNeverGoes`).
- A status that says inactive while a worker runs makes the DRNamespace reconciler start a second
  worker beside the first (`DRNamespaceController.TrackedUnlessStale`, an equivalence); two reconciles reach that
  position (`DRNamespaceController.StaleStatusStartsSecond`).
- A DRNamespace that names no cluster is refused when it is seen first, but not when it is created anew
  after a deletion: then it stays paired as it was (`DRNamespaceController.PairedAsSpec`).
- A changed adapter or collector does not reach a worker that keeps running; the status claims it
  (`DRNamespaceController.UpToDateIff`, an equivalence, and `DRNamespaceController.ChangedAdapterIgnored`).
- A reconcile stores its filter configuration if and only if no earlier one of the namespace has finished
  (`DRNamespaceController.PreviousIff`). So a changed configuration never comes into force, not even when
  the DRNamespace is deleted and created anew, and every worker started later filters as the first one says
  (`DRNamespaceController.ConfigInForce`, `DRNamespaceController.WorkersFilterAlike`).
- A namespace paired anew with a cluster whose settings are not stored yet keeps sending to the old one
  (`ConfigContainer.OldClusterKept`). That happens exactly when nothing is stored for the new cluster and
  something was for a cluster of the namespace since its transporter started (`ConfigContainer.OldSettingsIff`).
- An update goes on after a failed read, unless the object is just not there, and dereferences a nil
  pointer; the model has that as a panic of `Transport` (`KubeTransporter.ReadPanics`), which ends a run.
- A merge patch cannot set a member to null (`MergePatch.PatchReachesIff`, an equivalence).
- At the largest 63-bit version nothing counts as newer any more
  (`PipelineTheorems.NewVersionIsStringOrder`, an equivalence).
- White-listing single objects adds delete rules without a kind, and the delete filter then
  dereferences a nil pointer: nothing is accepted any more, and every white-listed object whose mapping
  passes ends the run (`InstalledChain.InstalledPanics`, an equivalence, `InstalledChain.AcceptedByKind`
  and `InstalledChain.ListedObjectPanics`).

## Model

| member | source | states |
|---|---|---|
| VariableMappingFilter.IteratePath | pkg/filter/variablemappingfilter/filter.go:93-178 | the recursion terminates with the path as measure and leaves the specified tree and verdict, for malformed input and panics too |
| VariableMappingFilter.IterateList | pkg/filter/variablemappingfilter/filter.go:146-174 | the loop over a list: what comes before the first failing element stays rewritten, what follows stays as it was |
| VariableMappingFilter.RunEntry | pkg/filter/variablemappingfilter/filter.go:77-87 | ranging over the rule map in whatever order amounts to applying every key exactly once in some order, up to the first failure |
| VariableMappingFilter.Out | pkg/filter/variablemappingfilter/filter.go:74-91 | the whole filter, for every choice of iteration orders |
| MappingLaws.IterateExact | pkg/filter/variablemappingfilter/filter.go:93-178 | a passing rule changes exactly the locations its path resolves to through maps, list fan-out and placeholders; everything else is as before |
| MappingLaws.IterateRefinesUpdate | pkg/filter/variablemappingfilter/filter.go:31-178 | a tree is the result of a passing rule if and only if it holds the expected contents at every location |
| MappingLaws.ShapeKept | pkg/filter/variablemappingfilter/filter.go:31-72 | string rules keep every map domain and list; other rules add only locations they write and remove only what hung below one |
| MappingLaws.StringWritten | pkg/filter/variablemappingfilter/filter.go:31-43 | a string rule that writes meets a string and changes only the first place where what it looks for occurs, nothing if there is none |
| MappingLaws.ConstantWritten | pkg/filter/variablemappingfilter/filter.go:44-69 | any other rule writes the boolean, whole number or float its replacement spells, whatever was there |
| MappingLaws.PassesIff | pkg/filter/variablemappingfilter/filter.go:31-178 | a rule passes exactly if its walk meets maps and lists only, and what it meets where it writes is a string or nothing, for a string rule, or its replacement can be read, for any other |
| MappingConfluence.NoPanic | pkg/filter/variablemappingfilter/filter.go:93-100 | a null-free object and a path with a component left never make the walk panic |
| MappingConfluence.ApartMeansNoClash | pkg/filter/variablemappingfilter/filter.go:93-178 | two paths are apart if and only if no location one writes is equal to, above or below a location where the other's walk ends |
| MappingConfluence.Commute | pkg/filter/variablemappingfilter/filter.go:77-86 | two passing rules that are apart pass and end in the same tree in either order |
| MappingConfluence.StillFails | pkg/filter/variablemappingfilter/filter.go:83-85 | a rule that does not pass is not made to pass by running another one first |
| MappingConfluence.ApartIff | pkg/filter/variablemappingfilter/filter.go:77-86 | being apart is exactly what makes two paths commute whatever they are mapped to, unless one cannot be walked at all |
| MappingConfluence.WritesApartIsNotEnough | pkg/filter/variablemappingfilter/filter.go:133-137 | a concrete object and two rules with disjoint writes whose verdict depends on the order |
| MappingConfluence.TwiceIsOnce | pkg/filter/variablemappingfilter/filter.go:31-43 | running a passed rule again passes, and changes nothing if and only if no rewritten string still contains what is looked for |
| MappingConfluence.IdempotentKept | pkg/filter/variablemappingfilter/filter.go:77-86 | a rule stays idempotent when a rule that is apart runs first |
| MappingOrder.PassTogether | pkg/filter/variablemappingfilter/filter.go:77-87 | rules that are pairwise apart pass together if and only if each passes alone |
| MappingOrder.MapOutRules | pkg/filter/variablemappingfilter/filter.go:75-88 | the filter passes exactly when all entries have a kind and the object's rules pass in a row, and then gives their result |
| Retry.KindRulesHave | pkg/filter/variablemappingfilter/filter.go:75-86 | whatever the orders, the rules run on an object are exactly the keys of the entries for its group, version and kind |
| MappingOrder.KindKept | pkg/filter/variablemappingfilter/filter.go:76-86 | no mapping changes what kind of object it is looking at |
| MappingOrder.OrderDoesNotMatter | pkg/filter/variablemappingfilter/filter.go:74-91 | confluence: two iteration orders give the same success verdict and, on success, the same tree |
| MappingOrder.AllFixed | pkg/filter/variablemappingfilter/filter.go:77-87 | after a passing run of rules that are apart and idempotent, each of them leaves the result alone |
| MappingOrder.OnePass | pkg/filter/variablemappingfilter/filter.go:77-87 | a passing run of rules that are apart leaves at each location a rule writes exactly what that rule makes of the original contents |
| MappingOrder.OutAgainIff | pkg/drmanager/dependencynamespaceworker/dependency_namesapce_worker.go:172-215 | running the mapping filter on its own result changes nothing if and only if no string a rule rewrote still holds what the rule looks for |
| Strconv.ReplaceStable | pkg/filter/variablemappingfilter/filter.go:39 | replacing changes nothing if and only if the substring is gone or replaced by itself |
| Strconv.ReplaceFirstExact | pkg/filter/variablemappingfilter/filter.go:39 | replacing cuts out the first occurrence, puts the replacement there and keeps everything before and after it; a string without one stays as it is |
| Strconv.ParseBoolIff | pkg/filter/variablemappingfilter/filter.go:44-51 | the strings that are booleans are a digit, a word or its first letter, in lower case, upper case or with an initial capital, and which of both each of them is |
| Strconv.SplitIff | pkg/filter/variablemappingfilter/filter.go:78 | a key is split into the only list of comma-free components that makes it when joined |
| ApiTypes.GroupAndVersion | vendor/k8s.io/apimachinery/pkg/runtime/schema/group_version.go:220-236 | group and version on either side of one slash are read back, without a slash it is a version of the core group |
| ApiTypes.RefusedIff | vendor/k8s.io/apimachinery/pkg/runtime/schema/group_version.go:220-236 | exactly the strings with two slashes are refused |
| ApiTypes.KindIsRead | vendor/k8s.io/apimachinery/pkg/apis/meta/v1/unstructured/unstructured.go:425-432 | the kind an object is matched by, with and without a group, and the empty one for an apiVersion with two slashes |
| Strconv.AtoiSaturates | pkg/transportmanager/transportmanager.go:140-141 | numerals are read exactly up to 63 bits and saturate beyond |
| Strconv.StringOrderIsNumeric | pkg/transportmanager/transportmanager.go:142 | length-then-lexicographic order of canonical numerals is numeric order |
| Strconv.AtoiMalformed | pkg/transportmanager/transportmanager.go:139-141 | every other string, also an empty one or a lone sign, counts as zero, unless its digits before the bad character already overflow |
| VariableDeleteFilter.DeleteVariables | pkg/filter/variabledeletefilter/filter.go:46-50 | the loop removes the listed paths one after the other |
| VariableDeleteFilter.Out | pkg/filter/variabledeletefilter/filter.go:28-44 | kind rules, then object rules, matched against the object as rewritten so far, with the nil dereferences as panics |
| VariableDeleteFilter.RemoveAllExact | pkg/filter/variabledeletefilter/filter.go:46-50 | what lies under a rule path is gone, every other location is as it was |
| VariableDeleteFilter.DeletesActAsSet | pkg/filter/variabledeletefilter/filter.go:46-50 | two lists of paths with the same members give the same tree, whatever their order and repetitions |
| VariableDeleteFilter.DeletedIsGone | pkg/filter/variabledeletefilter/filter.go:46-50 | afterwards no rule's path resolves |
| VariableDeleteFilter.OutIsRemoveAll | pkg/filter/variabledeletefilter/filter.go:28-44 | an object that keeps what it is matched by loses exactly the paths of all rules that match it |
| VariableDeleteFilter.DeleteAgain | pkg/filter/variabledeletefilter/filter.go:28-44 | anything between the filter's result and its input is taken to the same result |
| VariableDeleteFilter.DeletesBackIff | pkg/filter/variabledeletefilter/filter.go:28-44 | the filter takes a bigger object back to one that the same rules match if and only if their paths do and no rule it looks at lacks what it needs |
| FilterChain.RunFilter | pkg/filter/whitelistfilter/filter.go:26-47 | one filter of the chain, white list and PVC check included, does what the chain's specification says |
| FilterChain.FilterConfigPointer.AddDefaultConfig | pkg/filter/filter_factory.go:76-109 | the loops append one default rule for each white-listed kind and object, all naming the last one |
| FilterChain.FilterAggregation.UpdateFilterHook | pkg/filter/filter_factory.go:25-74 | installs white list, mapping, delete and PVC filter in this order, from the enriched configuration |
| FilterChain.EnrichedLists | pkg/filter/filter_factory.go:86-108 | after n notifications the delete lists are the original ones followed by n times as many default entries as white-listed items |
| FilterChain.EnrichedDeletesAlike | pkg/filter/filter_factory.go:86-108 | n notifications make the delete filter do to every object what one does |
| FilterChain.EnrichmentStable | pkg/filter/filter_factory.go:25-109 | the installed chain has the same effect on every object after n notifications as after one |
| InstalledChain.ChainRuns | pkg/drmanager/dependencynamespaceworker/dependency_namesapce_worker.go:45-64 | the chain of a configuration is white list, mapping, deletion and volume check in a row, up to the first that refuses, fails or panics |
| InstalledChain.KindListPanics | pkg/filter/variabledeletefilter/filter.go:30-35 | the kind rules never fail, and panic if and only if one of them has no kind |
| InstalledChain.ObjectListPanics | pkg/filter/variabledeletefilter/filter.go:36-42 | the object rules panic if and only if some rule has no kind, or has the kind the rules before it leave the object with and no object |
| InstalledChain.InstalledDeletePanics | pkg/filter/filter_factory.go:86-108 | the installed delete filter panics if and only if single objects are white-listed or a configured rule lacks what it needs, and passes otherwise |
| InstalledChain.InstalledPanics | pkg/filter/filter_factory.go:43-74 | for every configuration, object and iteration order: the installed chain panics if and only if the object is white-listed and its mapping panics, or passes and the delete filter panics |
| InstalledChain.AcceptedByKind | pkg/filter/filter_factory.go:98-108 | an object is accepted only by its kind, and only if no single object is white-listed at all |
| InstalledChain.VerdictIff | pkg/filter/filter_factory.go:43-109 | when an object is refused, an error or accepted, for every configuration, object and iteration order |
| InstalledChain.NothingConfigured | pkg/filter/filter_factory.go:43-74 | without a configuration nothing is accepted |
| InstalledChain.WellFormedDeletes | pkg/filter/filter_factory.go:86-97 | with no single object white-listed and rules that name what they are for, the delete filter takes every object |
| InstalledChain.ListedObjectPanics | pkg/filter/filter_factory.go:98-108 | one white-listed object and the panic it causes |
| MappingPruned.PassesAgain | pkg/filter/variablemappingfilter/filter.go:77-87 | each rule of a passing run would pass again on its result |
| MappingPruned.BetweenIff | pkg/filter/variablemappingfilter/filter.go:74-91 | run on what deletion left of their result, rules that are apart pass; they leave what is there alone, and put back only what was deleted, if and only if every rewritten string that is left settles |
| MappingPruned.OnlyAddsIff | pkg/filter/variablemappingfilter/filter.go:77-87 | rules that are apart only add to an object if and only if each of them leaves alone what it meets |
| MappingPruned.DeletedBackIff | pkg/filter/variabledeletefilter/filter.go:46-50 | deletion undoes such a run if and only if no path leads to anything that was there and every location added to lies below one |
| Retry.FixedIff | pkg/drmanager/dependencynamespaceworker/dependency_namesapce_worker.go:172-215 | which objects a pass of the installed chain accepts and leaves as they are: those let through to the end of which no rule changes what it meets, no delete path leads to anything, and all that mapping adds is deleted again |
| Retry.SecondPass | pkg/drmanager/dependencynamespaceworker/dependency_namesapce_worker.go:172-215 | under an installed configuration a second pass, in any order, accepts the object and changes nothing if and only if what was rewritten and not deleted settles, no delete path matches anything left, and all that would be added again is deleted again |
| Retry.RetryIndependent | pkg/drmanager/dependencynamespaceworker/dependency_namesapce_worker.go:172-215 | all positive numbers of passes, in all orders, give the object of one pass if and only if the same condition holds |
| Retry.StableByRules | pkg/filter/variabledeletefilter/filter.go:28-44 | when no delete rule for the kind takes a name, that condition is one on the rules and the object: every rewritten string under no delete path settles |
| LostName.LostNameShows | pkg/filter/variabledeletefilter/filter.go:36-42 | a configuration that deletes the name of an object it has rules for, and the second pass that gives another object |
| Identity.MapKeepsString | pkg/filter/variablemappingfilter/filter.go:93-178 | a passing mapping leaves a string two keys down alone unless a rule for the kind has exactly its path |
| Identity.AcceptedExact | pkg/filter/filter_factory.go:43-109 | an accepted object, location by location: what mapping made of it, without what the delete rules hit when it was their turn, and without the uid if the kind is white-listed last |
| Identity.StringKeptIff | pkg/filter/filter_factory.go:86-97 | a string of any accepted object is what mapping made of it, or empty if and only if a rule that hit the object deletes it or it is the uid and the kind is white-listed last |
| Identity.LastKindLosesUid | pkg/filter/filter_factory.go:86-97 | an accepted object of the kind white-listed last has no uid when it is sent |
| MergePatch.MatchesIsEqual | vendor/github.com/evanphx/json-patch/merge.go:285-326 | for trees without null members the comparison is equality |
| MergePatch.PatchReachesModified | vendor/github.com/evanphx/json-patch/merge.go:329-383 | applying the computed patch as section 2 of RFC 7396 says gives the modified object |
| MergePatch.MentionedIff | pkg/transportmanager/kubeapiserver/transporter.go:109-114 | the patch mentions exactly the members that differ |
| MergePatch.PatchReachesIff | vendor/github.com/evanphx/json-patch/merge.go:329-383 | patches reach an object from every starting point without null members if and only if it has none itself |
| KubeTransporter.KubeApiserverTransporter.SetConfig | pkg/transportmanager/kubeapiserver/transporter.go:44-49 | stores the settings |
| KubeTransporter.KubeApiserverTransporter.Transport | pkg/transportmanager/kubeapiserver/transporter.go:51-130 | create, update or create instead, delete; a failing call leaves the remote cluster alone, and an update whose read fails panics |
| KubeTransporter.UpdateMakesRemoteEqual | pkg/transportmanager/kubeapiserver/transporter.go:104-114 | for objects without null members an update makes the remote object equal to the prepared one and touches no other |
| TransportLaws.SucceedsIff | pkg/transportmanager/kubeapiserver/transporter.go:51-130 | when a call succeeds and when it is told that the object exists, in terms of settings, failures and what is there; an error changes nothing, and no call changes another object |
| TransportLaws.DeleteExact | pkg/transportmanager/kubeapiserver/transporter.go:120-127 | a delete that succeeds takes away its object and nothing else |
| TransportLaws.CreateExact | pkg/transportmanager/kubeapiserver/transporter.go:71-99 | what is created, by a create or by an update, is location by location what was sent without the fields listed for its resource |
| TransportLaws.UpdateExact | pkg/transportmanager/kubeapiserver/transporter.go:87-119 | after an update every location of the remote object is as sent, except that resource version and uid, and those of a volume's claim, are the remote object's own |
| TransportLaws.StaleIsDropped | pkg/transportmanager/transportmanager.go:87-92 | an object whose version is not newer is settled without being sent, recorded or tried again |
| TransportLaws.OthersAreSent | pkg/transportmanager/transportmanager.go:94-121 | any other object is sent; its version is recorded if it was written or already there, and it waits for another try with nothing recorded otherwise |
| TransportLaws.SendReturnsIff | pkg/transportmanager/kubeapiserver/transporter.go:87-105 | an iteration ends the process exactly if an update that is not stale reaches its read and the read fails |
| TransportLaws.RecordedMeans | pkg/transportmanager/transportmanager.go:94-121 | a new record of a written delete means that the object is gone, of a written create or update that it is there, and one without a write that it was there or the cluster said so |
| KubeTransporter.PatchSparesIdentity | pkg/transportmanager/kubeapiserver/transporter.go:149-162 | the patch never mentions uid or resourceVersion, if and only if the remote object has them as plain strings or not at all |
| KubeTransporter.CreatedWithoutIdentity | pkg/transportmanager/kubeapiserver/transporter.go:132-147 | a created object carries no uid or resourceVersion and keeps its key |
| WorkQueue.ServeIdle | vendor/k8s.io/client-go/util/workqueue/queue.go:141-176 | Get then Done removes exactly the served item and keeps the queue consistent |
| WorkQueue.AddedWhileServed | vendor/k8s.io/client-go/util/workqueue/queue.go:108-176 | an item added while it is served is queued exactly once more when it is done |
| WorkQueue.RetryIdle | vendor/k8s.io/client-go/util/workqueue/queue.go:108-176 | an iteration that puts its item and new ones back keeps the queue consistent and loses nothing |
| DependencyCheckers.Sift | pkg/drmanager/dependencynamespaceworker/dependencychecker/statefulset/dependencychecker.go:58-71 | the pods whose first owner is the StatefulSet, or the panic on an empty owner list |
| DependencyCheckers.CheckPodVolumesDependency | pkg/drmanager/dependencynamespaceworker/dependencychecker/statefulset/dependencychecker.go:73-117 | the claims of a pod's volumes in order, the first failed lookup, or the panic on a malformed volume |
| DependencyCheckers.ClaimsOfOwnedPods | pkg/drmanager/dependencynamespaceworker/dependencychecker/statefulset/dependencychecker.go:32-40 | the claims of all owned pods in order |
| DependencyCheckers.AllocateClaims | pkg/drmanager/dependencynamespaceworker/dependencychecker/statefulset/dependencychecker.go:44-55 | after the loop every new object points at one tree, the last claim |
| DependencyCheckers.DependencyCheckStatefulSet | pkg/drmanager/dependencynamespaceworker/dependencychecker/statefulset/dependencychecker.go:23-56 | what the check allocates, or its failure or panic with the heap untouched |
| DependencyCheckers.DependencyCheckClaim | pkg/drmanager/dependencynamespaceworker/dependencychecker/persistentvolumeclaim/dependencychecker.go:19-39 | the volume the claim is bound to as a new object, nothing, or a failed lookup |
| LookupLaws.OwnerIff | vendor/k8s.io/apimachinery/pkg/apis/meta/v1/unstructured/unstructured.go:178-198 | the first owner of a pod by location, and when there is an empty list of owners |
| LookupLaws.PodsOwned | pkg/drmanager/dependencynamespaceworker/dependencychecker/statefulset/dependencychecker.go:58-71 | the pods of a set are exactly those whose first owner it is, in the order listed; an empty list of owners panics |
| LookupLaws.VolumesListed | pkg/drmanager/dependencynamespaceworker/dependencychecker/statefulset/dependencychecker.go:73-117 | the claims of a pod are exactly what its volumes mount, in their order |
| LookupLaws.VolumesFail | pkg/drmanager/dependencynamespaceworker/dependencychecker/statefulset/dependencychecker.go:73-117 | the lookups stop at the first volume that cannot be read, with an error if its claim is not found and a panic if it is malformed |
| LookupLaws.SetVerdict | pkg/drmanager/dependencynamespaceworker/dependencychecker/statefulset/dependencychecker.go:23-40 | a set's lookups succeed only if the pods are listed and all of its pods find their claims, and fail only otherwise |
| LookupLaws.SetLookup | pkg/drmanager/dependencynamespaceworker/dependencychecker/statefulset/dependencychecker.go:31-55 | they find the claims of its pods, pod by pod and in order; each is labelled with the claim's own kind, and all show the last claim |
| LookupLaws.SetClaimsUnique | pkg/drmanager/dependencynamespaceworker/dependencychecker/statefulset/dependencychecker.go:31-40 | that determines the list of claims |
| DependencyCheckers.OnlyLastClaimGates | pkg/drmanager/dependencynamespaceworker/dependencychecker/statefulset/dependencychecker.go:45-52 | a StatefulSet's list counts as transported if and only if it is empty or its last claim is |
| DependencyCheckers.LastClaimStandsForAllIff | pkg/drmanager/dependencynamespaceworker/dependencychecker/statefulset/dependencychecker.go:45-52 | that means waiting for every claim if and only if all claims carry one uid |
| DependencyCheckers.AnyClaimsFound | pkg/drmanager/dependencynamespaceworker/dependencychecker/statefulset/dependencychecker.go:23-117 | for any StatefulSet and any claims with names of their own there is a cluster in which the lookups find exactly these claims |
| DependencyCheckers.ReadyWithoutClaims | pkg/drmanager/dependencynamespaceworker/dependencychecker/statefulset/dependencychecker.go:45-52 | so any claims that differ in uid can be found with only the last one transported, and the StatefulSet counts as ready |
| TransportManager.BasicTransportManager.constructor | pkg/transportmanager/transportmanager.go:185-207 | starts with nothing recorded and nothing queued; a new transporter replaces the registered one and gets the stored settings, or stays unregistered and without settings when the namespace is not paired |
| TransportManager.BasicTransportManager.IsResourceTransported | pkg/transportmanager/transportmanager.go:47-54 | true if and only if a version is recorded for the uid |
| TransportManager.BasicTransportManager.AddResourceObj | pkg/transportmanager/transportmanager.go:56-62 | adds to the queue and changes nothing else |
| TransportManager.BasicTransportManager.CheckNewVersion | pkg/transportmanager/transportmanager.go:133-149 | true if and only if nothing is recorded or the recorded number is smaller |
| TransportManager.BasicTransportManager.MarkAsSuccessed | pkg/transportmanager/transportmanager.go:151-153 | records the object's version under its uid |
| TransportManager.BasicTransportManager.Transport | pkg/transportmanager/transportmanager.go:71-127 | one iteration moves the pipeline exactly as the machine's transport step, or panics exactly when it does |
| TransportManager.BasicTransportManager.SendNow | pkg/transportmanager/transportmanager.go:87-122 | stale skip, success, "already exists", failure with retry and the panic, as one state change |
| NamespaceWorker.DependencyNamespaceWorker.ObjEnqueue | pkg/drmanager/dependencynamespaceworker/dependency_namesapce_worker.go:135-144 | an event becomes a new object that waits in the queue |
| NamespaceWorker.DependencyNamespaceWorker.RunFilters | pkg/drmanager/dependencynamespaceworker/dependency_namesapce_worker.go:45-64 | every filter rewrites the same object; no filter at all accepts nothing |
| NamespaceWorker.DependencyNamespaceWorker.ResolveDependencies | pkg/drmanager/dependencynamespaceworker/dependency_namesapce_worker.go:249-263 | both checkers are asked, each answers for its resource |
| NamespaceWorker.DependencyNamespaceWorker.NotTransported | pkg/drmanager/dependencynamespaceworker/dependency_namesapce_worker.go:227-240 | the dependencies without a recorded version, in order |
| NamespaceWorker.DependencyNamespaceWorker.RequeueDependencies | pkg/drmanager/dependencynamespaceworker/dependency_namesapce_worker.go:242-247 | each of them waits in the queue and its uid is in scope from now on |
| NamespaceWorker.DependencyNamespaceWorker.Run | pkg/drmanager/dependencynamespaceworker/dependency_namesapce_worker.go:146-225 | one iteration moves the pipeline exactly as the machine's worker step, or panics exactly when it does |
| NamespaceWorker.DependencyNamespaceWorker.RunInScope | pkg/drmanager/dependencynamespaceworker/dependency_namesapce_worker.go:172-224 | filtering in place, then the rest on the rewritten object |
| NamespaceWorker.DependencyNamespaceWorker.FinishRun | pkg/drmanager/dependencynamespaceworker/dependency_namesapce_worker.go:173-224 | drop, hand over a delete, or resolve and gate |
| NamespaceWorker.DependencyNamespaceWorker.FinishGate | pkg/drmanager/dependencynamespaceworker/dependency_namesapce_worker.go:211-223 | hand over when nothing is lacking, wait together with what is lacking otherwise |
| PipelineSafety.WorkerOutcome | pkg/drmanager/dependencynamespaceworker/dependency_namesapce_worker.go:146-225 | an iteration drops its object, hands it over with all dependencies recorded, or waits with new objects; never two of these |
| WorkerLaws.ArrivesAsIs | pkg/drmanager/dependencynamespaceworker/dependency_namesapce_worker.go:135-144 | an event of the collector becomes a new object with a tree of its own, which waits for its turn |
| WorkerLaws.DelayIsOver | vendor/k8s.io/client-go/util/workqueue/delaying_queue.go:178-254 | a waiting object whose delay is over is at the end of its queue, once |
| WorkerLaws.DroppedIff | pkg/drmanager/dependencynamespaceworker/dependency_namesapce_worker.go:162-209 | when an object is dropped and why: out of scope, refused or an error in the filters, or not to be deleted and with a dependency that is not found; it is then not handed over |
| WorkerLaws.HandedIff | pkg/drmanager/dependencynamespaceworker/dependency_namesapce_worker.go:164-223 | an object is handed over exactly if it is in scope, accepted, and to be deleted or with all it depends on found and transported; it goes to the end of the queue as the filters left it, and a deletion takes its uid out of scope |
| WorkerLaws.WaitsWithDependency | pkg/drmanager/dependencynamespaceworker/dependency_namesapce_worker.go:211-247 | any other object waits, with new objects for what it depends on, in its own action, which come into scope |
| WorkerLaws.AdmittedByName | pkg/drmanager/dependencynamespaceworker/dependency_namesapce_worker.go:202-223 | an object that is not dropped is admitted under its uid and exactly the uid of what it depends on |
| WorkerLaws.ClaimNeedsItsVolume | pkg/drmanager/dependencynamespaceworker/dependencychecker/persistentvolumeclaim/dependencychecker.go:19-39 | a claim is handed over only when the volume it names is found and transported, and dropped when it is not found |
| WorkerLaws.SetNeedsItsClaims | pkg/drmanager/dependencynamespaceworker/dependencychecker/statefulset/dependencychecker.go:23-56 | a set is handed over only when its pods are listed, all their claims are found, and the last of these is transported |
| WorkerLaws.DependencySucceedsFirst | pkg/drmanager/dependencynamespaceworker/dependency_namesapce_worker.go:202-223 | in every run: what a claim or set depends on succeeds before it is handed over, and it succeeds only afterwards |
| PipelineSafety.SuccessAfterDependencies | pkg/transportmanager/transportmanager.go:151-153 | a new success finds successes of all its dependencies in the log |
| PipelineSafety.StepKeepsInvariant | pkg/drmanager/dependencynamespaceworker/dependency_namesapce_worker.go:135-247 | every step of every kind keeps conservation, scope, watermark and dependency order |
| PipelineSafety.InvariantInEveryRun | pkg/drmanager/dependencynamespaceworker/dependency_namesapce_worker.go:135-247 | so they hold in every reachable state, whatever the paired cluster held before |
| PipelineTheorems.DependencyBeforeDependent | pkg/drmanager/dependencynamespaceworker/dependency_namesapce_worker.go:196-223 | when a hand-over is recorded as a success, every uid its dependencies were resolved to was recorded earlier |
| PipelineTheorems.NoLostHandOver | pkg/transportmanager/transportmanager.go:56-127 | a handed-over object is pending or settled, never both, and a settled version is covered by the recorded one |
| PipelineTheorems.SettledAsSent | pkg/transportmanager/transportmanager.go:71-127 | an object is settled only by the iteration that takes it from the queue, under the uid and version it has then, and stays settled so |
| PipelineTheorems.EveryObjectInOnePlace | pkg/drmanager/dependencynamespaceworker/dependency_namesapce_worker.go:135-225 | an object that entered is pending, handed over or dropped for a named reason, exactly one of these, and handed over by one admission only |
| PipelineTheorems.NoResurrection | pkg/transportmanager/transportmanager.go:92-122 | successes of one uid have strictly increasing versions, so nothing at or below a deleted version is applied |
| PipelineTheorems.RemoteChangesAreNew | pkg/transportmanager/transportmanager.go:87-122 | a paired cluster that held anything at the start changes only by a logged write, newer than everything logged for its uid |
| PipelineTheorems.StaysUnwritten | pkg/transportmanager/transportmanager.go:82-91 | an object that was settled without a write is never written, over every continuation |
| PipelineTheorems.WatermarkMonotone | pkg/transportmanager/transportmanager.go:133-153 | no step drops a uid or lowers its version |
| PipelineTheorems.ScopeClosure | pkg/drmanager/dependencynamespaceworker/dependency_namesapce_worker.go:164-223 | every handed-over object ends a chain of admissions that starts in the namespace and where each was resolved as a dependency of the one before |
| PipelineTheorems.NewVersionIsStringOrder | pkg/transportmanager/transportmanager.go:133-149 | newer means later in length-then-lexicographic order and the recorded version below the largest 63-bit number, an equivalence |
| PipelineTheorems.MalformedCountsAsZero | pkg/transportmanager/transportmanager.go:133-149 | a version that is no numeral counts as zero on either side of the comparison, whatever the other one is |
| PipelineTheorems.NoVersionIsNeverNewer | pkg/transportmanager/transportmanager.go:133-149 | once a version that is not negative is recorded, a delivery without a version is skipped |
| LostUid.SecondNeverWritten | pkg/transportmanager/transportmanager.go:87-122 | for any two objects of the one kind a configuration white-lists, the second with no higher version: a run from the start that settles the second without a write, after which no continuation writes it |
| NeverRecorded.InstalledLoses | pkg/filter/filter_factory.go:86-97 | a configuration that white-lists a kind last takes the uid from every object of that kind, whether its chain accepts the object or stops half way |
| NeverRecorded.DependentNeverGoes | pkg/drmanager/dependencynamespaceworker/dependency_namesapce_worker.go:202-223 | in every run under such configurations no version is recorded for the uid of such an object, and nothing that was found to depend on it is handed over |
| PipelineProgress.WorkerStep | pkg/drmanager/dependencynamespaceworker/dependency_namesapce_worker.go:146-225 | on plan an iteration never panics or drops: it hands over if and only if the object is to be deleted or its dependencies are transported, and otherwise puts back the object and all it needs |
| PipelineProgress.LowestIsReady | pkg/drmanager/dependencynamespaceworker/dependency_namesapce_worker.go:211-217 | an object of the lowest rank still held lacks nothing |
| PipelineProgress.RoundRaises | pkg/drmanager/dependencynamespaceworker/dependency_namesapce_worker.go:202-247 | after one round of each loop everything still held is nested at least one level deeper |
| PipelineProgress.BoundedProgress | pkg/drmanager/dependencynamespaceworker/dependency_namesapce_worker.go:202-247 | with dependencies nested at most d deep, and deletes of the namespace among the objects, d + 1 rounds leave both queues empty, nothing dropped, everything handed over and recorded |
| PipelineSchedule.WorkerRoundExists | pkg/drmanager/dependencynamespaceworker/dependency_namesapce_worker.go:146-225 | a round in which the worker looks at everything it holds, also at what it only got meanwhile, always comes to an end |
| PipelineSchedule.TransportRoundExists | pkg/transportmanager/transportmanager.go:71-127 | with settings, no faults and everything to be deleted present remotely the transport queue can be drained |
| PipelineSchedule.ProgressHappens | pkg/drmanager/dependencynamespaceworker/dependency_namesapce_worker.go:202-247 | from any state on plan the d + 1 rounds can be run, with the outcome above |
| ClaimProgress.ClaimsInTwoRounds | pkg/drmanager/dependencynamespaceworker/dependencychecker/persistentvolumeclaim/dependencychecker.go:19-39 | for any number of claims of the namespace, written or deleted, and their volumes, under an installed configuration with no rule about what identifies them and neither kind white-listed last, two rounds suffice |
| ConfigContainer.DrConfig.constructor | pkg/configs/config_container.go:78-95 | starts empty |
| ConfigContainer.DrConfig.UpdateClusterConfigToContainer | pkg/configs/config_container.go:101-120 | stores and delivers a configuration, refuses nil, and does not touch the filter side |
| ConfigContainer.DrConfig.NotifyClusterConfigChange | pkg/configs/config_container.go:194-221 | the fan-out reaches exactly the listeners of namespaces paired with the cluster |
| ConfigContainer.DrConfig.UpdateNamespaceConfigedCluster | pkg/configs/config_container.go:122-139 | pairs a namespace and delivers what is stored for the cluster; empty names are refused |
| ConfigContainer.DrConfig.NotifyNamespaceConfigedClusterChange | pkg/configs/config_container.go:223-244 | delivers the stored settings to that namespace's listener and to no other |
| ConfigContainer.DrConfig.RegClusterConfigListener | pkg/configs/config_container.go:154-169 | a listener replaces the namespace's old one, also itself, and gets what is stored; an unpaired namespace is refused and the listener left alone |
| ConfigContainer.DrConfig.UpdateFilterConfigToContainer | pkg/configs/config_container.go:141-152 | stores a configuration, and if an aggregation is registered enriches it behind the pointer and installs its chain |
| ConfigContainer.DrConfig.NotifyFilterListeners | pkg/configs/config_container.go:182-192 | only the namespace's own aggregation is given the chain |
| ConfigContainer.DrConfig.RegFilterConfigListener | pkg/configs/config_container.go:171-180 | an aggregation replaces the namespace's old one and gets the chain of what is stored, or of nil |
| ConfigContainer.Replay | pkg/configs/config_container.go:101-244 | after any sequence of the five kinds of call both sides of the container are what the calls amount to, and every listener holds what is stored for its namespace |
| ConfigContainer.AlwaysCoherent | pkg/configs/config_container.go:101-244 | what any sequence of calls amounts to is coherent, for transporters and for filters |
| ConfigContainer.RegisteredIff | pkg/configs/config_container.go:154-169 | a transporter is registered if and only if it was started after a pairing of its namespace |
| ConfigContainer.SettingsInForce | pkg/configs/config_container.go:101-169 | a registered transporter holds the settings stored last for the cluster its namespace was paired with last, in whatever order the calls came |
| ConfigContainer.ChainInForce | pkg/configs/config_container.go:141-192 | a registered aggregation runs the chain of the configuration stored last for its namespace, enriched at least once |
| ConfigContainer.StoringRepairs | pkg/configs/config_container.go:110-117 | storing settings makes all listeners coherent again when only those of that cluster were not |
| ConfigContainer.OldClusterKept | pkg/configs/config_container.go:223-244 | the calls after which a namespace paired with one cluster still sends with the settings of another |
| ConfigContainer.HeldIsLastKnown | pkg/configs/config_container.go:101-169 | a transporter holds what was stored for its namespace's cluster when that was last known since it started |
| ConfigContainer.OldSettingsIff | pkg/configs/config_container.go:223-244 | a transporter holds other settings than those stored for its namespace's cluster if and only if nothing is stored for it now and something was for a cluster of the namespace since the start |
| DRNamespaceController.ReconcileDRNamespace.Reconcile | pkg/controller/drnamespace/drnamespace_controller.go:90-196 | one reconcile, with deletion, read errors and refused pairings, as a change of workers, status and both sides of the container; a started worker registers a new filter aggregation, which enriches the stored configuration again |
| DRNamespaceController.ReconcileDRNamespace.SyncActiveWorker | pkg/controller/drnamespace/drnamespace_controller.go:160-190 | stops, starts or restarts the worker |
| DRNamespaceController.TrackedUnlessStale | pkg/controller/drnamespace/drnamespace_controller.go:161-190 | a reconcile keeps track of every running worker if and only if it is not in the stale-status position |
| DRNamespaceController.StaleStatusStartsSecond | pkg/controller/drnamespace/drnamespace_controller.go:161-190 | a namespace is made active, and a reconcile that still reads the status from before leaves two workers running |
| DRNamespaceController.LiveIffActive | pkg/controller/drnamespace/drnamespace_controller.go:160-190 | afterwards a worker of the namespace runs exactly when the spec is active, unless one ran while spec and status said inactive, an equivalence |
| DRNamespaceController.WorkerLifecycle | pkg/controller/drnamespace/drnamespace_controller.go:90-196 | over every sequence of reconciles, deletions and read errors: equal maps, and exactly the contexts in them are uncancelled, so at most one for a namespace |
| DRNamespaceController.LastEventDecides | pkg/controller/drnamespace/drnamespace_controller.go:90-196 | after a reconcile a worker of the namespace runs if and only if the spec is active, after a deletion none does |
| DRNamespaceController.RunningIff | pkg/controller/drnamespace/drnamespace_controller.go:90-196 | over every sequence of events a worker runs exactly if the last deletion or finished reconcile of its namespace was a reconcile of an active spec, whatever failed reads, refused pairings and other namespaces came since |
| DRNamespaceController.NoneRuns | pkg/controller/drnamespace/drnamespace_controller.go:90-196 | no worker runs before such an event |
| DRNamespaceController.UpToDateIff | pkg/controller/drnamespace/drnamespace_controller.go:160-190 | the exact condition under which the worker that runs after a reconcile has the adapter and collector of the spec |
| DRNamespaceController.StatusShowsSpec | pkg/controller/drnamespace/drnamespace_controller.go:111-196 | a reconcile that ends shows the spec in the status, but for a role already there; it is tried again exactly if it would pair a nameless namespace or cluster |
| DRNamespaceController.RoleStays | pkg/controller/drnamespace/drnamespace_controller.go:117-121 | over every sequence without a deletion a role in the status stays |
| DRNamespaceController.PairedAsSpec | pkg/controller/drnamespace/drnamespace_controller.go:147-158 | after a reconcile that ends, at any point of any sequence, the namespace is paired with the cluster of its spec, unless that names none; then no pairing changes |
| DRNamespaceController.PreviousIff | pkg/controller/drnamespace/drnamespace_controller.go:130-147 | over every sequence of events: a namespace counts as seen, so that its configuration is not stored again, if and only if some reconcile of it has finished |
| DRNamespaceController.ConfigInForce | pkg/controller/drnamespace/drnamespace_controller.go:136-147 | over every continuation, re-creation included, what is stored for a namespace is the configuration of the first reconcile that finished, enriched some number of times |
| DRNamespaceController.WorkersFilterAlike | pkg/drmanager/dependencynamespaceworker/dependency_namesapce_worker.go:69-107 | every worker that runs, restarted ones included, filters every object as that first configuration says |
| DRNamespaceController.ChangedAdapterIgnored | pkg/controller/drnamespace/drnamespace_controller.go:124-190 | two reconciles after which the status shows an adapter the running worker does not have |
| DRClusterController.ReconcileDRCluster.UpdateNamespaces | pkg/controller/drcluster/drcluster_controller.go:112-122 | an update loop up to the call that fails |
| DRClusterController.ReconcileDRCluster.Sync | pkg/controller/drcluster/drcluster_controller.go:126-144 | one block: skipped when nothing differs, status set only when the loop got through |
| DRClusterController.ReconcileDRCluster.SyncNamespaces | pkg/controller/drcluster/drcluster_controller.go:101-164 | the three blocks up to the first that fails |
| DRClusterController.ReconcileDRCluster.StoreSettings | pkg/controller/drcluster/drcluster_controller.go:166-172 | the direct write to the saved map followed by the update does what the update alone does, deliveries included |
| DRClusterController.ReconcileDRCluster.Reconcile | pkg/controller/drcluster/drcluster_controller.go:96-180 | one attempt with a failure anywhere |
| DRClusterController.AttemptApproaches | pkg/controller/drcluster/drcluster_controller.go:96-180 | a failing attempt leaves every namespace on its way to the same target, a finished one leaves all of them there |
| DRClusterController.CrashRetryConverges | pkg/controller/drcluster/drcluster_controller.go:96-180 | any number of failing attempts, then one success, leave what one successful attempt leaves, in the API server and in the container, and one more attempt updates no namespace |
| DRClusterController.PassedOn | pkg/controller/drcluster/drcluster_controller.go:112-163 | Active reaches only namespaces paired with this cluster, the other two fields every namespace |
| DRClusterController.FinishedDelivers | pkg/controller/drcluster/drcluster_controller.go:166-172 | an attempt that gets past the namespaces stores the settings, every listener of a namespace paired with the cluster holds them, and nothing else in the container changes |
| DRClusterController.DoneIff | pkg/controller/drcluster/drcluster_controller.go:96-180 | an attempt gets to its end exactly if the call that would fail is not made: a listing only for a field that differs, an update only for a namespace that gets it |

## Left out

- Shutdown of the queues and of the process; a run is what happens before it.
- Data races: `Versions` and `NamespaceConfigedCluster` are read without locks in the source. Each
  iteration, reconcile and call is one atomic step here.
- Wall-clock backoff: a rate-limited item waits in a set and is added again at any later time.
- Updates in place inside a tree: trees are values and a rewrite replaces the tree of its heap cell.
  Sharing between objects is kept, through the cell; the deep copy before a transport is a value.
- API clients, discovery and informers. The source cluster is a snapshot the checkers look things up
  in, the paired cluster a map from resource, namespace and name; a read finds an object, finds none or
  fails, and a call that fails changes nothing remotely. Server-side defaulting and validation are not modelled.
- Rounding: `strconv.ParseFloat` is a parameter of a mapping, and numbers are compared on the wire as
  exact reals, so integers beyond 2^53 are not rounded.
- Progress for deletes of objects absent remotely, which the code retries without end, and of objects
  outside the namespace, which take the uid they came in by out of scope; and for dependencies the code
  finds under a wrong resource: the plan of `PipelineProgress` holds the objects as the code labels them,
  and the white list decides which of them are let through.
- `pkg/namespacecrstatusupdater`: it overwrites whole statuses from possibly stale reads. The lifecycle
  theorem therefore assumes that a reconcile sees the status the previous one enqueued.
- Deletion of a cluster (`deActiveRelativeDRNamespaces`), the condition built for the status of an
  object, the base namespace worker, the HTTP transporter, the periodic collector and command-line
  plumbing.
- ConfigContainer.DrConfig.UpdateFilterConfigToContainer: no two namespaces store one pointer, as every
  DRNamespace brings its own configuration.
- ConfigContainer.DrConfig.RegClusterConfigListener: one listener is not registered for two namespaces, as
  every transport manager brings its own; the same holds for the aggregations.
- DRNamespaceController.WorkerLifecycle: there is one DRNamespace for each namespace, and a deletion is
  reconciled before the object is created again.
- FilterChain.FilterAggregation.UpdateFilterHook: a filter keeps the configuration as it was when it
  was installed; entries appended behind the shared pointer later are immaterial by `EnrichmentStable`.
- MappingOrder.OrderDoesNotMatter: of two orders that both fail nothing is said about the trees left
  behind; the worker drops such an object.
- Retry.RetryIndependent: mapping rules for the object do not interfere, and no delete rule for its kind
  hits `kind` or `apiVersion`.
- Identity.LastKindLosesUid: for configured kind rules for that kind that leave `kind` and `apiVersion` alone.
