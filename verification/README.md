# Karmada control-plane logic, verified

A Dafny model of the parts of Karmada whose correctness is a matter of state and arithmetic, with proofs of what
they are for. `dafny verify dfyconfig.toml` checks the whole project.

* **Estimating replicas** (`Resource`, `Capacity`, `FirstFit`, `SchedulingSimulator`, `FirstFitTheorems`). The
  simulator places sets of components on nodes by first fit and subtracts in place. The loops are proved equal to a
  specification on values; about that specification the theorems say that the count is exact for one component,
  that a component is placed whenever any placement exists, and that every counted set is backed by a packing that
  conserves each node's resources.
* **Cluster resource models** (`GradeEntries`, `ResourceSummary`). Nodes are graded by binary search and kept as a
  sorted list that turns into a tree. Both forms refine one map, over any sequence of additions. The number of an
  entry is the `quantity` in its key; the value that the tree stores goes stale and is never read.
* **Policies and claims** (`Policies`, `Claims`, `Detector`, `DetectorInvariants`, `NoTemplateLost`, `LazyPolicies`,
  `PreemptionOrder`, `Deprioritized`, `ProtocolRuns`, `DetectorWorkers`, `PolicyWorkers`). Selection of a policy, the
  claim that it leaves on a template, and the protocol around it as a state machine: template workers, policy workers
  and users take turns one step at a time, a worker may hold an outdated copy of a template for as long as it likes,
  and any step may fail and be retried. What holds in every run is proved of the state machine; the code of both
  workers, written as it is on a detector with its fields, is proved to do nothing but runs of it.
* **Dependencies** (`AttachedBindings`, `OrphanBindings`). Who requires a binding, recorded twice, the strategy that
  follows, and which bindings nobody requires any more.
* **Search** (`SearchRegistry`). The index of watched resources, updated by differences.
* **Bookkeeping** (`ManagedMetadata`, `TargetClusters`, `Assumptions`). Managed labels and annotations over rounds of
  synchronization, the merge of target clusters in 32 bits, and the scheduler's assumption cache.

Where a loop changes state in place, a method does so here, proved against a function of the state before; the
theorems are about those functions. Lemmas whose names end in `Means` say what such a function is on the fields of the
input, so that a theorem can be read without its definitions. Go's 32-bit and 64-bit arithmetic is written out (`FixedWidth`). A loop over a Go
map is a loop that takes any remaining key, so results hold for every iteration order.

## Where the code falls short of its intention

Each of these is stated by lemmas: an input that shows it, or the exact condition under which the code is right.

* A lazy policy lets one template travel under two queue keys. A worker that found the template gone can then take
  its successor from the waiting list after the other key has settled it there: `LazyPolicies.LazyPolicyLosesTemplate`,
  `LazyPolicies.LostExactlyIfLazy`. `NoTemplateLost.NoTemplateIsLost` is about one template: policies that have nothing
  to do with it may be lazy.
* After a patch, only clusters of the placement are assumed exactly if the copy of the binding that the scheduler read
  was a workload and still listed every assumed cluster that is not chosen again. The lister may be behind, and a
  binding may have been scaled to nothing, when the cache is not updated: `Assumptions.StaleReadLeaks`,
  `Assumptions.ScaledDownLeaks`, `Assumptions.AssumedIsPlacementExactly`.
* A registry that stays keeps standing for resources it no longer selects: `SearchRegistry.DroppedResourceStays`,
  `SearchRegistry.IndexIsCurrentExactly`, `SearchRegistry.RoundsRemember`. The comments in
  `pkg/search/controller.go` do not say so.
* Dependency keys collide for kinds or versions with a dash, which custom resources may have, and then a binding that
  nothing requires can be kept: `OrphanBindings.DashesCollide`, `OrphanBindings.DashedKindKeepsOrphan`,
  `OrphanBindings.KeysEqualExactly`, `OrphanBindings.VerdictRightExactly`.
* A merge of target clusters drops replicas of repeated old names: `TargetClusters.RepeatedNameLoses`,
  `TargetClusters.LossExactly`.

## What the proofs assume

* Replicas, requests and node resources are not negative (`FirstFit.ValidComponent`, `Capacities.IsNode`), the nodes
  of a simulation are distinct objects, and the match of a node with a component is a fixed predicate.
* The bounds of cluster resource models are sorted and there is at least one resource, as the API validates
  (`ResourceSummaries.ResourceSummary.Valid`); `InitSummary` establishes this from such models.
* Permanent IDs are not empty and belong to one policy each; names and namespaces of policies are not empty, a policy
  has at least one selector, and a propagation policy selects in its own namespace, as the API demands
  (`Claims.Admitted`).
* Users do not touch the claims of policies on templates, neither when they create nor when they edit one
  (`Detector.SameClaim`). The controller of multi-cluster services does: it takes a template over in one write.
* A write that changes the metadata of a template gives it a new version and queues it again; a write based on an
  outdated version fails; a worker that returns an error has its key queued again.
* The hash in depended-by labels does not collide (it is a datatype here).

## Model

| member | source | states |
|---|---|---|
| `Resources.Resource.FromList` | pkg/util/resource.go:46-50 | a resource built from a list holds exactly what the list says under recognised names |
| `Resources.Resource.Add` | pkg/util/resource.go:53-74 | every recognised quantity grows by what is listed, in 64 bits and in any order of the list; all others stay |
| `Resources.Resource.Multiply` | pkg/util/resource.go:77-93 | every recognised dimension is multiplied in place in 64 bits; names that are not scalars stay |
| `Resources.Resource.SubResource` | pkg/util/resource.go:96-115 | clamped subtraction in place, also from itself: a scalar that either side does not list is left alone, the set of scalars never changes |
| `Resources.Resource.Allocatable` | pkg/util/resource.go:118-140 | true exactly if the node covers every quantity, negative ones included, and lists every scalar that is asked for, even a zero one |
| `Resources.CoversIsFit` | pkg/util/resource.go:118-140 | on a node without negative quantities that is: one copy fits in every dimension, and the scalars asked for are listed |
| `Resources.Resource.ResourceList` | pkg/util/resource.go:191-218 | exactly the positive entries |
| `Resources.Resource.MaxDivided` | pkg/util/resource.go:221-248 | the least of the pod count and the truncated quotients, for any node; without negative quantities the Galois connection: k copies are admitted exactly if k is at most the result |
| `Resources.LeastIsGreatest` | pkg/util/resource.go:221-248 | without negative quantities the least quotient is the greatest number of copies that all names admit |
| `Resources.Resource.Clone` | pkg/util/resource.go:315-331 | a new object with the same value, so the original keeps its own when the clone is multiplied |
| `FixedWidth.QuotientGalois` | pkg/util/resource.go:221-248 | the integer division behind MaxDivided: k <= a/b exactly if b*k <= a |
| `Capacities.Capacity` | pkg/util/resource.go:221-248 | the greatest number of copies of a request that fit in all dimensions at once |
| `Capacities.MaxDividedIsCapacity` | pkg/util/resource.go:221-248 | MaxDivided of the positive entries of a request is that greatest number |
| `Capacities.CapacityAfterTaking` | pkg/estimator/scheduling_simulator_components.go:104-122 | MaxDivided(r - k*q) = MaxDivided(r) - k for every k up to MaxDivided(r) |
| `Capacities.TakingLeavesNode` | pkg/estimator/scheduling_simulator_components.go:104-122 | what is left of a node is still non-negative and within 64 bits in every dimension |
| `Capacities.CapacityOnlyShrinks` | pkg/estimator/scheduling_simulator_components.go:104-122 | taking copies of one request never makes room for another |
| `Capacities.AllocatableAgreement` | pkg/util/resource.go:118-140 | for k >= 1 the multiplied request passes the comparison of Allocatable exactly if k <= MaxDivided, and then its key test passes too if all scalar requests are positive |
| `SchedulingSimulators.TakingIsExact` | pkg/util/resource.go:77-115 | within the capacity no product leaves int64 and the clamp at zero never changes a difference |
| `SchedulingSimulators.PlaceOn` | pkg/estimator/scheduling_simulator_components.go:92-127 | one node gives min(capacity, remaining) if it matches and 0 otherwise, and keeps the rest exactly |
| `SchedulingSimulators.SchedulingSimulator.ScheduleComponent` | pkg/estimator/scheduling_simulator_components.go:83-130 | true exactly if the capacities of the matching nodes add up to the replicas; the nodes hold what first fit leaves; a nil component is skipped, an undecodable one is an error without effect |
| `SchedulingSimulators.SchedulingSimulator.ScheduleComponentSet` | pkg/estimator/scheduling_simulator_components.go:69-81 | one pass over the components: complete, incomplete or failed, with the nodes as that pass leaves them |
| `SchedulingSimulators.SchedulingSimulator.SimulateScheduling` | pkg/estimator/scheduling_simulator_components.go:51-66 | the number of complete sets of the first-fit specification up to max(upperBound, 0), or the decoding error; the aliased node objects end as specified |
| `FirstFitTheorems.PlacementIsComplete` | pkg/estimator/scheduling_simulator_components.go:83-130 | a component is scheduled if and only if some placement of its replicas on matching nodes fits |
| `FirstFitTheorems.FirstFitIsPlacement` | pkg/estimator/scheduling_simulator_components.go:92-130 | what first fit takes is such a placement |
| `FirstFitTheorems.CapsAfterComponent` | pkg/estimator/scheduling_simulator_components.go:104-124 | placing a component lowers the replicas that are still placeable by exactly its replicas |
| `FirstFitTheorems.SingleComponentCount` | pkg/estimator/scheduling_simulator_components.go:51-130 | for one component the count is min(bound, floor(sum of MaxDivided over matching nodes / replicas)), and the bound for no replicas |
| `FirstFitTheorems.CountWithinCapacity` | pkg/estimator/scheduling_simulator_components.go:51-130 | for any list, count times replicas of each component is within the capacity for that component alone |
| `FirstFitTheorems.AttemptConserves` | pkg/estimator/scheduling_simulator_components.go:69-130 | one pass: per node and dimension, free before = free after + placed, and a complete pass places every replica of every component on matching nodes |
| `FirstFitTheorems.SimulationConserves` | pkg/estimator/scheduling_simulator_components.go:51-130 | for any list the count is backed by a packing: each counted set places everything on matching nodes and initial = final + placed in every node and dimension |
| `FirstFitTheorems.PackingFitsNodes` | pkg/estimator/scheduling_simulator_components.go:51-130 | no node ever gives more than it had |
| `FirstFitTheorems.CountStops` | pkg/estimator/scheduling_simulator_components.go:51-130 | why the count stops: below the bound and without an error, some component of the next pass has no placement at all on what the counted sets and the components before it leave |
| `FirstFit.RequestMeans` | pkg/estimator/scheduling_simulator_components.go:92-105 | one replica asks for the entry of its own list under each recognised name, one pod whatever is listed, and nothing else |
| `FirstFit.MatchNodeMeans` | pkg/estimator/scheduling_simulator_components.go:132-160 | the nodes admitted are those that the affinity and tolerations of the component admit; without requirements the schedulable ones free of taints |
| `FirstFitTheorems.CountIsWhatFits` | pkg/estimator/scheduling_simulator_components.go:51-130 | for one component the count is at least m exactly if the bound allows it and its m sets of replicas can be put on admitted nodes, each giving what the component lists for each replica and one pod |
| `FirstFitTheorems.PlacementIsOnNodes` | pkg/estimator/scheduling_simulator_components.go:83-130 | a placement of the specification is one in the terms of the component: its list, affinity and tolerations |
| `FirstFitTheorems.NodesGiveWhatIsListed` | pkg/estimator/scheduling_simulator_components.go:51-130 | for any list of components each node gives, for each replica put on it, the quantity listed under each name, and keeps the rest |
| `FirstFitTheorems.SetsGoWhereAdmitted` | pkg/estimator/scheduling_simulator_components.go:51-130 | each counted set puts all replicas of each component on the nodes, and only on those that its affinity and tolerations admit |
| `FirstFitTheorems.ErrorMeansUndecodable` | pkg/estimator/scheduling_simulator_components.go:51-102 | an error means that some component cannot be decoded, and the first one that cannot makes an error |
| `ResourceSummaries.SearchLastLessElement` | pkg/modeling/modeling.go:123-145 | on sorted bounds the greatest index whose value is at most the target, or -1 |
| `ResourceSummaries.ResourceSummary.GetIndex` | pkg/modeling/modeling.go:112-121 | the minimum over the resources is the greatest grade reached in all of them at once, or -1 |
| `ResourceSummaries.GradeIsThreshold` | pkg/modeling/modeling.go:112-121 | exactly the grades up to that one are reached |
| `GradeEntries.CompareTransitive` | pkg/modeling/modeling.go:148-160 | the comparator orders vectors transitively |
| `GradeEntries.CompareSwap` | pkg/modeling/modeling.go:148-160 | the comparator is antisymmetric |
| `GradeEntries.MergeSorted` | pkg/modeling/modeling.go:163-223 | merging a node keeps the entries strictly sorted |
| `GradeEntries.MergeTotal` | pkg/modeling/modeling.go:163-223 | merging a node adds its quantity to the total |
| `GradeEntries.MergeCounts` | pkg/modeling/modeling.go:163-223 | merging a node adds its quantity under its own vector and leaves every other vector alone |
| `ResourceSummaries.ResourceModels.AddToList` | pkg/modeling/modeling.go:171-205 | the list loop inserts, merges or appends exactly as the sorted merge says |
| `ResourceSummaries.ResourceModels.ConvertToTree` | pkg/modeling/modeling.go:225-232 | the switch to a tree loses nothing and keeps the order |
| `ResourceSummaries.ResourceModels.AddToTree` | pkg/modeling/modeling.go:207-220 | the tree branch merges into the live tree, rewriting the quantity in the key, and leaves no list |
| `ResourceSummaries.ResourceModels.NodeNum` | pkg/modeling/modeling.go:235-246 | the number of entries of whichever form is live |
| `ResourceSummaries.ResourceModels.Add` | pkg/modeling/modeling.go:163-223 | either form refines one map from compared vector to number; exactly one form is live (list up to 6, tree from 6), sorted, and the counter is the sum of the entries |
| `ResourceSummaries.ResourceSummary.AddToResourceSummary` | pkg/modeling/modeling.go:163-223 | the grade of the node counts it, every other grade is unchanged, and a node below all grades is not counted |
| `ResourceSummaries.ResourceSummary.AddAll` | pkg/modeling/modeling.go:163-223 | the same for any sequence of additions |
| `ResourceSummaries.RunCountsVector` | pkg/modeling/modeling.go:163-246 | after any sequence of additions a grade has an entry for a vector exactly if some added node has this grade and vector, with the number of such nodes |
| `ResourceSummaries.RunCountsGrade` | pkg/modeling/modeling.go:163-246 | and its counter is the number of all nodes of that grade |
| `ResourceSummaries.GradeMeans` | pkg/modeling/modeling.go:112-121 | a grade is reached exactly if each bound of it is met by the quantity that the node lists, a missing one counting as zero |
| `ResourceSummaries.StepMeans` | pkg/modeling/modeling.go:163-223 | adding a node changes exactly the grade whose bounds its list meets while it misses one of the next: counter and entry grow by its quantity |
| `ResourceSummaries.InitSummary` | pkg/modeling/modeling.go:75-102 | one empty grade per model with the minima of the models as bounds, resource by resource; uniform models are never refused |
| `ResourceSummaries.MinimumMeans` | pkg/modeling/modeling.go:75-102 | the bound of a model for a name is the minimum of its last range of that name, or zero |
| `Policies.NarrowerMatchesCloser` | pkg/util/selector.go:55-94 | filling in a namespace, a name or labels makes the match closer, and what the narrower selector matches the wider one matches too, except exactly where a name has put the wider label selector out of force |
| `Policies.SelectorPriorityMeans` | pkg/util/selector.go:55-94 | 3, 2 or 1 exactly for a match in API version, kind and namespace by name, by labels, or without either; a name is decided by the name alone |
| `Policies.LabelSelectorMeans` | pkg/util/selector.go:55-94 | a label selector matches exactly if it can be parsed and each requirement holds: in, not in, exists, does not exist |
| `Policies.ResourceMatchSelectorsPriority` | pkg/util/selector.go:177-185 | the greatest priority of all selectors |
| `Policies.SelectsByPriority` | pkg/util/selector.go:167-185 | it is above mismatch exactly if some selector matches |
| `Policies.HighestIsBest` | pkg/util/selector.go:177-185 | the priority of a policy is at least p exactly if that of some selector is |
| `Policies.AtLeastAsGoodTransitive` | pkg/detector/compare.go:30-65 | the order by explicit priority, selector priority and name is transitive |
| `Policies.GetHigherPriority` | pkg/detector/compare.go:105-114 | the policy with the smaller name, and the second one when there is no first or the names are equal |
| `Policies.GetHighestPriorityPolicy` | pkg/detector/compare.go:30-65 | none exactly if no policy matches, otherwise a matching policy that no matching policy precedes, also at the least priority int32 has |
| `Policies.BestMeans` | pkg/detector/compare.go:30-65 | a policy is selected exactly if a selector of its own matches and no matching one has a greater priority field (missing counting as zero), or the same and a better selector, or the same in both and a smaller name |
| `Policies.LessMeans` | pkg/detector/compare.go:105-114 | the order of names: the first difference decides, and a beginning comes first |
| `Policies.BestIsUnique` | pkg/detector/compare.go:30-65 | with distinct names the outcome does not depend on the order of the list |
| `Claims.Object.AddPP` | pkg/detector/claim.go:43-53 | sets the label and both annotations, nothing else |
| `Claims.Object.AddCPP` | pkg/detector/claim.go:56-65 | sets the label and the annotation, nothing else |
| `Claims.Object.CleanupPP` | pkg/detector/claim.go:68-71 | removes exactly what AddPP sets |
| `Claims.Object.CleanupCPP` | pkg/detector/claim.go:74-77 | removes exactly what AddCPP sets |
| `Claims.Object.RemoveLabels` | pkg/util/label.go:79-89 | removes exactly the given keys |
| `Claims.Object.ExcludeClusterPolicy` | pkg/detector/policy.go:412-418 | removes a cluster claim if its label is present and says so |
| `Claims.Object.ClaimPolicyForObject` | pkg/detector/detector.go:762-776 | claims unless already claimed by this ID, displacing a cluster claim; says whether a write is needed |
| `Claims.Object.ClaimClusterPolicyForObject` | pkg/detector/detector.go:780-791 | claims unless already claimed by this ID |
| `Claims.ClaimedIsWhole` | pkg/detector/detector.go:762-791 | claiming leaves one whole claim of the new policy and no other, and keeps all other labels |
| `Claims.CleanupIsWhole` | pkg/detector/claim.go:68-77 | cleaning up removes the whole claim of its kind and leaves the other kind as it was |
| `Claims.ClaimOfMeans` | pkg/detector/policy.go:40-106 | who holds an object, key by key: a propagation policy by both annotations and the label, else a cluster policy by annotation and label |
| `Claims.PPClaimMeans` | pkg/detector/detector.go:762-776 | key by key what a claim by a propagation policy sets, removes and leaves |
| `Claims.CPPClaimMeans` | pkg/detector/detector.go:780-791 | key by key what a claim by a cluster policy sets and leaves |
| `Claims.CleanupMeans` | pkg/detector/claim.go:68-77 | key by key what cleaning up removes and leaves |
| `Claims.NeedCleanupClaimMetadata` | pkg/detector/claim.go:84-91 | true exactly if every target label has the target value |
| `Claims.CleanupResourceTemplateClaimMetadata` | pkg/detector/detector.go:1367-1401 | whatever others write between the retries: the claim is removed exactly if an attempt is reached whose version carries the ID and whose write succeeds, from that version; ok exactly if such a write, a version without the ID or a template that is gone ends the retries |
| `DetectorInvariants.SelectionIsChosen` | pkg/detector/detector.go:381-438 | what a step of the protocol takes as chosen is exactly what the selection loop selects from the listed live policies |
| `DetectorInvariants.PreemptedIsGood` | pkg/detector/preemption.go:109-224 | a preemption leaves the metadata as it was or replaces one whole claim by the whole claim of the preempting policy |
| `DetectorInvariants.StepKeepsGood` | pkg/detector/policy.go:40-208 | every step of template workers, policy workers and users keeps claims whole and owned, including steps on outdated reads |
| `DetectorInvariants.RunKeepsGood` | pkg/detector/detector.go:231-265 | so does every run |
| `DetectorInvariants.ClaimsAreAllOrNothing` | pkg/detector/detector.go:762-791 | in every reachable state each kind of claim is complete or absent, never both kinds are present, and the ID belongs to the named policy |
| `DetectorInvariants.DeletionRespectsOtherClaims` | pkg/detector/detector.go:1374-1384 | handling a deleted policy takes a claim only from a template that carries its ID, and then the whole claim; every other template keeps its metadata |
| `DetectorInvariants.CleanupClaimMeans` | pkg/detector/detector.go:1374-1384 | and for a template that carries the ID it does take the claim, and the ID from its binding |
| `NoTemplateLost.StepKeepsSafe` | pkg/detector/policy.go:40-106 | for one template: every step keeps it waiting, queued or in hand while it is unclaimed, and due to meet every policy that selects it if scans can read it; lazy policies may do as they like with other templates |
| `NoTemplateLost.NoTemplateIsLost` | pkg/detector/policy.go:40-106 | unless a policy name has a lazy version and a version that can claim the template, or a lazy version that can find it waiting, in every reachable state the live template is claimed, taken over, waiting, queued or in the hands of a worker, across failures, deletions, take-overs and retries |
| `NoTemplateLost.NoTemplateWaitsInVain` | pkg/detector/detector.go:1278-1281 | when the template rests unclaimed it is on the waiting list and every live policy that selects it has yet to scan the list or to release the template; scans need only be able to read this template |
| `LazyPolicies.LazyPolicyLosesTemplate` | pkg/detector/detector.go:1551-1570 | given such a lazy version, and such a version of the same policy, a run that puts no other versions and has no failing step ends with a live unclaimed template that is nowhere remembered |
| `LazyPolicies.LostExactlyIfLazy` | pkg/detector/detector.go:231-265 | for every template key and every set of versions in which policies may be put: the template can get lost exactly if one name has a lazy version and a version that can claim the template, or a lazy version that can find it waiting |
| `PreemptionOrder.PreemptedExactly` | pkg/detector/preemption.go:109-224 | a policy takes over a claimed template exactly if it ranks above the claiming policy and that policy exists or is displaced unseen |
| `PreemptionOrder.TakeoverByPriority` | pkg/detector/preemption.go:109-224 | read off the policies: between one kind a takeover happens exactly if the priority field is greater (missing counting as zero) and the claiming policy exists; a propagation policy always displaces a cluster policy, never the other way round |
| `PreemptionOrder.RankOnlyRises` | pkg/detector/preemption.go:62-106 | while policies stay fixed every step takes the claim away, or is an attempt with an outdated policy, or keeps the rank, and then a preemption raises it |
| `PreemptionOrder.RunRankOnlyRises` | pkg/detector/preemption.go:62-106 | over whole runs without such attempts the rank never falls, and a preemption makes it strictly higher: no ping-pong |
| `PreemptionOrder.StepUsesHeadroom` | pkg/detector/preemption.go:62-106 | each preemption uses up one of the distinct ranks above the template; only a release or an attempt with an outdated policy restores any |
| `PreemptionOrder.PreemptionsAreBounded` | pkg/detector/preemption.go:62-224 | in every run with fixed policies the preemptions of a template are bounded by the distinct ranks above it, counted anew for each time its claim is taken away or a worker with an outdated policy tries to preempt it |
| `PreemptionOrder.UpToDateAttempts` | pkg/detector/preemption.go:62-106 | workers that know the policies as they are make no outdated attempts in the whole run |
| `PreemptionOrder.CountsMean` | pkg/detector/preemption.go:62-106 | what the bound counts: steps of policy workers that change the metadata, steps that take the claim away, attempts with an outdated policy |
| `Deprioritized.PriorityQueue.Dequeue` | pkg/detector/preemption.go:339-355 | removes one element that none precedes, of equals any |
| `Deprioritized.HandleDeprioritizedPolicy` | pkg/detector/preemption.go:253-291 | requeues exactly the preempting policies with an explicit priority strictly between new and old, as often as listed, in non-increasing priority |
| `Deprioritized.RequeuedMeans` | pkg/detector/preemption.go:253-291 | read off the policies: exactly the listed ones that preempt and have a priority field above the new and below the old one, the higher first |
| `Deprioritized.RequeuePotentialKeys` | pkg/detector/preemption.go:339-348 | drains the queue into a non-increasing permutation |
| `Deprioritized.PriorityIsRank` | pkg/detector/preemption.go:339-355 | for policies of one kind the order of the queue is the order of ranks |
| `Deprioritized.HighestWinsAtOnce` | pkg/detector/preemption.go:109-153 | processed in that order, the claim of a template changes at most once: to a highest policy that names it if that ranks above the claiming one, else not at all |
| `Deprioritized.BestCandidateWins` | pkg/detector/preemption.go:253-348 | what HandleDeprioritizedPolicy requeues changes the claim of a template at most once: to a listed policy in the range that names it and has the greatest priority of those, exactly if one of them ranks above the claiming policy |
| `Deprioritized.DeprioritizedLosesExactly` | pkg/detector/preemption.go:253-348 | a template of the policy that lost priority changes hands exactly if a listed preempting policy with a priority in the range names it |
| `Deprioritized.DeprioritizedEndsWithBest` | pkg/detector/preemption.go:253-348 | once every requeued policy has had one ReconcilePolicy turn without an error, a template of the policy that lost priority is claimed by a candidate of the greatest priority, or is as it was if there is no candidate |
| `Deprioritized.TurnsAreAfterAll` | pkg/detector/detector.go:1241-1291 | turns of policies one after the other have the effect of their preemptions in that order |
| `DetectorWorkers.ResourceDetector.LookForMatchedPolicy` | pkg/detector/detector.go:381-438 | what is found among the listed policies that are not being deleted is a choice of the protocol, none without a namespace for namespaced ones |
| `DetectorWorkers.ResourceDetector.ClaimTemplate` | pkg/detector/detector.go:762-791 | claims the object, and writes exactly if the metadata changes; a failed write stores nothing |
| `DetectorWorkers.ResourceDetector.ApplyPolicy` | pkg/detector/detector.go:441-526 | applying a policy, with its failures and the shortcut for lazy policies, is one run of the protocol; without a failed write it ends without an error, with the template claimed and its binding carrying the ID |
| `DetectorWorkers.ResourceDetector.GetAndApplyPolicy` | pkg/detector/policy.go:108-208 | so is following a claim; when nothing outside fails it is an error exactly if the claiming policy is being deleted, else a dangling claim is removed, an object that is not selected is left alone, or the policy is applied |
| `DetectorWorkers.ResourceDetector.PropagateResource` | pkg/detector/policy.go:40-106 | so is the whole decision; when nothing outside fails: claim, propagation policy, cluster policy or waiting list, with an error only for a claiming policy that is being deleted and for the first time on the waiting list |
| `DetectorWorkers.ResourceDetector.Reconcile` | pkg/detector/detector.go:231-265 | so is a reconciliation; when nothing outside fails, objects that are gone or taken over leave the waiting list and nothing else changes |
| `DetectorWorkers.ResourceDetector.Worker` | pkg/util/worker.go:209-223 | a whole turn of the worker is a non-empty run by this worker alone, without a failing step if nothing outside fails and the claiming policy is not being deleted, and comes to the outcome that ReconciledWell states; it ends without the key in hand, and with it queued after an error |
| `DetectorWorkers.TurnMeans` | pkg/detector/policy.go:40-208 | what that outcome is, case by case, for templates, bindings and the waiting list, and exactly when it is an error |
| `DetectorWorkers.TookMeans` | pkg/detector/detector.go:441-526 | what applying a policy leaves, entry by entry: the claimed metadata, and in the binding its ID in place of those it replaces |
| `DetectorWorkers.ChosenMeans` | pkg/detector/detector.go:381-438 | what is chosen, read off the policies: live, of the kind and namespace, selecting, and first by priority field, selector and name |
| `PolicyWorkers.GetMatching` | pkg/detector/detector.go:963-986 | exactly the waiting keys whose templates can be read and are selected, each once |
| `PolicyWorkers.RemoveClaimMetadataIfNotMatched` | pkg/detector/policy.go:290-317 | a template that carries the ID and is no longer selected is cleaned up and, if both writes succeed, its binding forgotten; nothing else changes; ok exactly if nothing failed; a run of the protocol |
| `PolicyWorkers.CleanUnmatched` | pkg/detector/policy.go:210-261 | every bound template that is no longer selected loses its claim unless reading or writing it fails, whatever fails for others, and nothing else changes; ok exactly if none failed |
| `PolicyWorkers.RefreshBound` | pkg/detector/detector.go:1253-1263 | every template that carries the ID is queued, flagged exactly if the policy is lazy |
| `PolicyWorkers.ReleaseMatched` | pkg/detector/detector.go:1278-1281 | exactly the matched keys leave the waiting list, and all are queued |
| `PolicyWorkers.PreemptPropagationPolicy` | pkg/detector/preemption.go:109-153 | against a propagation policy: by priority, not against itself, an error if it is gone; stores what it claims |
| `PolicyWorkers.PreemptClusterPropagationPolicyDirectly` | pkg/detector/preemption.go:156-181 | against a cluster policy: whatever its priority |
| `PolicyWorkers.PreemptClusterPropagationPolicy` | pkg/detector/preemption.go:184-224 | between cluster policies: by priority, not against itself, an error if it is gone |
| `PolicyWorkers.PreemptTemplate` | pkg/detector/preemption.go:62-106 | the calls for one template amount to one write of the preempted metadata; an error if the claiming policy is gone, and otherwise only for a failed write |
| `PolicyWorkers.HandlePreemption` | pkg/detector/preemption.go:62-106 | every named template that is stored ends with its preempted metadata unless reading or writing it fails, whatever fails for others, and all other templates keep theirs; ok only if all succeed, an error only if one has a reason |
| `PolicyWorkers.HandlePolicyCreationOrUpdate` | pkg/detector/detector.go:1241-1291 | when ok, every stored template has its outcome: cleaned up if bound and not selected, preempted if named, else as before; every bound template is queued, matched ones leave the waiting list; an error has a reason; all of it is a run of the protocol |
| `PolicyWorkers.ReconcilePolicy` | pkg/detector/detector.go:1038-1073 | a whole turn of the policy worker is a non-empty run by this worker alone and reaches that outcome when ok; after an error, which has a reason, the policy is queued again |
| `PolicyWorkers.PolicyTurnMeans` | pkg/detector/detector.go:1241-1291 | what a turn without an error does to each template, binding and waiting key, read off the selectors of the policy |
| `PolicyWorkers.WentWrongMeans` | pkg/detector/detector.go:1241-1291 | without an outside failure a turn is an error only if a preempting policy has a selector without a name, or names a template whose claiming policy of its kind does not exist |
| `PolicyWorkers.OutcomeReached` | pkg/detector/detector.go:1241-1291 | cleaning and preempting do not interfere: a named template is never cleaned, so each template gets the one or the other |
| `AttachedBindings.MergeBindingSnapshot` | pkg/dependenciesdistributor/dependencies_distributor.go:790-810 | the nested loops compute the merge |
| `AttachedBindings.MergeRecords` | pkg/dependenciesdistributor/dependencies_distributor.go:790-810 | a merge records exactly the referrers of both lists, each once |
| `AttachedBindings.MergeKeepsNewest` | pkg/dependenciesdistributor/dependencies_distributor.go:790-810 | with the newest clusters of each |
| `AttachedBindings.DeleteBindingFromSnapshot` | pkg/dependenciesdistributor/dependencies_distributor.go:812-821 | deleting while stepping back computes the filtered list |
| `AttachedBindings.DeletedRecords` | pkg/dependenciesdistributor/dependencies_distributor.go:812-821 | exactly the one referrer is gone, the others keep their clusters and stay unique |
| `AttachedBindings.DetectAndResolveConflictResolution` | pkg/dependenciesdistributor/policy_utils.go:53-77 | overwrite exactly if some binding overwrites, conflict exactly if both kinds occur, in spite of the early exit |
| `AttachedBindings.DetectAndResolvePreserveOnDeletion` | pkg/dependenciesdistributor/policy_utils.go:82-104 | the same for preservation, nil counting as false |
| `AttachedBindings.ResolveResourceBindingFromSnapshots` | pkg/dependenciesdistributor/policy_utils.go:34-48 | the referred bindings in order, an error exactly if one is missing |
| `AttachedBindings.ResourceBinding.Update` | pkg/dependenciesdistributor/dependencies_distributor.go:606-640 | the mutation: merged records, united labels, joined strategy only without placement; an error for another owner or a missing referrer |
| `AttachedBindings.ResourceBinding.RemoveReferrer` | pkg/dependenciesdistributor/dependencies_distributor.go:565-590 | one removal: record and label gone, strategy cleared or joined anew only without placement, an error for a missing referrer |
| `AttachedBindings.UpdatedMeans` | pkg/dependenciesdistributor/dependencies_distributor.go:606-640 | field by field what the mutation leaves and exactly when it is refused; with a placement of its own the strategy stays |
| `AttachedBindings.RemovedMeans` | pkg/dependenciesdistributor/dependencies_distributor.go:565-590 | field by field what a removal leaves and exactly when it is refused |
| `AttachedBindings.StepKeepsConsistent` | pkg/dependenciesdistributor/dependencies_distributor.go:557-640 | every write of the distributor, a policy or the garbage collector keeps labels and RequiredBy in agreement |
| `AttachedBindings.RunKeepsConsistent` | pkg/dependenciesdistributor/dependencies_distributor.go:557-640 | in every run a depended-by label for a referrer exists exactly if it occurs in RequiredBy, exactly once |
| `AttachedBindings.LabelsAreSnapshots` | pkg/dependenciesdistributor/dependencies_distributor.go:557-640 | from the start, in every run: a binding has the label of a referrer exactly if it has a snapshot of it, and only one |
| `AttachedBindings.WriteSettles` | pkg/dependenciesdistributor/policy_utils.go:53-104 | after each create, update or removal that succeeds, also one that changes nothing, a binding without placement has the joined strategy of its referrers, and none without referrers |
| `AttachedBindings.RunKeepsSettled` | pkg/dependenciesdistributor/policy_utils.go:53-104 | and over runs as long as the referrers keep theirs |
| `AttachedBindings.StrategiesFollow` | pkg/dependenciesdistributor/policy_utils.go:53-104 | from the start, while the referrers keep theirs: the strategy of a dependency, read off its referrers |
| `AttachedBindings.JoinIgnoresOrder` | pkg/dependenciesdistributor/policy_utils.go:53-104 | the joined strategy depends only on who the referrers are |
| `AttachedBindings.DetachUndoesAttach` | pkg/dependenciesdistributor/dependencies_distributor.go:557-598 | removing a new referrer restores records and labels |
| `OrphanBindings.KeysEqualExactly` | pkg/dependenciesdistributor/dependencies_distributor.go:745-751 | for all kinds, API versions and namespaces: exactly when two keys are equal |
| `OrphanBindings.KeyIsInjective` | pkg/dependenciesdistributor/dependencies_distributor.go:745-751 | so the key distinguishes them if kind and version have no dash and the namespace no slash |
| `OrphanBindings.DashesCollide` | pkg/dependenciesdistributor/dependencies_distributor.go:745-751 | a dash in a kind makes different dependencies share a key, in any namespace |
| `OrphanBindings.VersionDashCollides` | pkg/dependenciesdistributor/dependencies_distributor.go:745-751 | so does a dash in a version: what follows it can as well be the front of the namespace |
| `OrphanBindings.IndexDependencies` | pkg/dependenciesdistributor/dependencies_distributor.go:474-478 | the index lists, for every key, exactly the dependencies with that key in order |
| `OrphanBindings.IsOrphanAttachedBindings` | pkg/dependenciesdistributor/dependencies_distributor.go:499-539 | the first dependency that hits or fails decides, an orphan if all miss |
| `OrphanBindings.FindOrphanAttachedBindings` | pkg/dependenciesdistributor/dependencies_distributor.go:467-497 | the orphans in order, an error exactly if the decision on some binding fails |
| `OrphanBindings.VerdictMeans` | pkg/dependenciesdistributor/dependencies_distributor.go:499-539 | a miss exactly if all dependencies miss, otherwise the outcome of one of them |
| `OrphanBindings.CheckMeans` | pkg/dependenciesdistributor/dependencies_distributor.go:508-536 | read off the fields when a dependency requires a resource and when it cannot be decided |
| `OrphanBindings.VerdictIsFirst` | pkg/dependenciesdistributor/dependencies_distributor.go:499-539 | a dependency decides exactly if none before it does |
| `OrphanBindings.OrphansExactly` | pkg/dependenciesdistributor/dependencies_distributor.go:467-539 | for all dependencies and bindings: the orphans are exactly the bindings that nothing requires and about which no dependency with a colliding key is mistaken |
| `OrphanBindings.OrphansInPlainTerms` | pkg/dependenciesdistributor/dependencies_distributor.go:467-539 | read off the dependencies: each of the same kind, version and namespace names another resource, or has no name and a selector that does not match the labels or finds no resource, or has neither; and the converse when no other dependency shares the key |
| `OrphanBindings.ErrorsInPlainTerms` | pkg/dependenciesdistributor/dependencies_distributor.go:499-539 | the exact reason for an error: of the dependencies with the key, the first that does not miss has no name and a selector that cannot be parsed or labels that cannot be fetched |
| `OrphanBindings.OrphansCounted` | pkg/dependenciesdistributor/dependencies_distributor.go:467-497 | each orphan is found as often as it is attached |
| `OrphanBindings.VerdictRightExactly` | pkg/dependenciesdistributor/dependencies_distributor.go:467-539 | the verdict on a binding is right exactly if it is not the case that nothing requires it and a dependency of other kind, version or namespace that shares its key hits or fails; a miss is always right |
| `OrphanBindings.SeparableIsNeverMistaken` | pkg/dependenciesdistributor/dependencies_distributor.go:467-539 | without dashes in kinds and versions no verdict is mistaken |
| `OrphanBindings.DashedKindKeepsOrphan` | pkg/dependenciesdistributor/dependencies_distributor.go:467-539 | for a kind with a dash: a binding that nothing requires is kept |
| `OrphanBindings.VerdictIsSomeones` | pkg/dependenciesdistributor/dependencies_distributor.go:467-539 | a hit or an error comes from a dependency with the same key, and without dashes from one of the same kind, version and namespace |
| `SearchRegistry.DiffKey` | pkg/util/common.go:27-54 | the keys that came and the keys that went, each once, also for nil maps |
| `SearchRegistry.ClusterRegistry.AddResources` | pkg/search/controller.go:206-217 | the index follows one more registry, and the list reports exactly the new keys |
| `SearchRegistry.ClusterRegistry.RemoveRegistry` | pkg/search/controller.go:228-239 | the index forgets a registry, empty sets leave it and are reported |
| `SearchRegistry.ClusterRegistry.Modify` | pkg/search/controller.go:219-248 | the index holds the remembered relation, removed are exactly the keys that lost all their registries, added exactly the keys that are new or came back |
| `SearchRegistry.ReconcileClusterWithRegistries` | pkg/search/controller.go:287-334 | the index holds a registry for a resource exactly if it matches and selects the resource now or was indexed for it; no set is empty; a change is reported exactly if some resource lost all its registries or is new |
| `SearchRegistry.FixedSelectorsAreIndexed` | pkg/search/controller.go:219-248 | with fixed selectors the remembered relation is the current one |
| `SearchRegistry.IndexIsCurrentExactly` | pkg/search/controller.go:206-248 | otherwise the index is current exactly if no registry that stays has dropped a resource |
| `SearchRegistry.DroppedResourceStays` | pkg/search/controller.go:206-248 | a registry that matches twice and drops a resource in between leaves it indexed, though no registry selects it |
| `SearchRegistry.RoundsRemember` | pkg/search/controller.go:287-334 | over any number of rounds a registry stands for a resource exactly if it selected it at some time since it last began to match |
| `ManagedMetadata.SplitUndoesJoin` | pkg/util/label.go:111-125 | splitting undoes joining for keys without commas, except that no keys become one empty key |
| `ManagedMetadata.CommaLosesKey` | pkg/util/label.go:101-107 | a key with a comma is not found again |
| `ManagedMetadata.Unstructured.RecordManagedLabels` | pkg/util/label.go:111-125 | the record, read back, is the set of label keys |
| `ManagedMetadata.Unstructured.RecordManagedAnnotations` | pkg/util/annotation.go:88-104 | the record, read back, is the set of annotation keys and both record keys |
| `ManagedMetadata.Unstructured.RetainLabels` | pkg/util/label.go:48-66 | desired keys win; of the observed ones those stay that were not managed |
| `ManagedMetadata.Unstructured.RetainAnnotations` | pkg/util/annotation.go:50-68 | the same for annotations |
| `ManagedMetadata.Unstructured.SetLabelsAndAnnotationsForWorkload` | pkg/util/work.go:125-133 | every label keeps its key and value, the ID of the Work is added under its key, no other key appears, and what is recorded is what is sent |
| `ManagedMetadata.SentMeans` | pkg/util/work.go:125-133 | every desired label is sent with its value, except that the ID of the Work, if there is one, is sent under its own key |
| `ManagedMetadata.Unstructured.Sync` | pkg/util/objectwatcher/objectwatcher.go:121-147 | one round is one step of the model, from the labels, annotations and ID of the Work that are desired and the records as read |
| `ManagedMetadata.SyncExactly` | pkg/util/objectwatcher/objectwatcher.go:121-147 | after any run, one more round leaves the desired labels and annotations and the ID of the Work, and the observed keys that the last round did not desire, with these values: withdrawn keys vanish |
| `ManagedMetadata.MemberKeysSurvive` | pkg/util/objectwatcher/objectwatcher.go:121-147 | a key that the member added survives any number of rounds that do not desire it |
| `TargetClusters.GetSumOfReplicas` | pkg/util/binding.go:101-107 | the total in 32 bits |
| `TargetClusters.MergeTargetClusters` | pkg/util/binding.go:120-144 | for every set of names, replicas add up in 32 bits for every map order and both early returns; names are united, distinct if the new ones are; new entries stay in place with their components, and the slice of new clusters ends as the head of the result |
| `TargetClusters.MergeConserves` | pkg/util/binding.go:101-144 | with distinct old names GetSumOfReplicas is conserved, in total and for each name |
| `TargetClusters.LossExactly` | pkg/util/binding.go:120-144 | with repeated old names it is conserved exactly if the dropped entries cancel out in 32 bits |
| `TargetClusters.RepeatedNameLoses` | pkg/util/binding.go:120-144 | an old list that names a cluster twice loses the replicas of its first entry, unless there are none |
| `Assumptions.AssigningCache.Assume` | pkg/scheduler/cache/cache.go:231-247 | records one entry and restarts the expiry, other bindings untouched |
| `Assumptions.AssigningCache.ReleaseClusterAssumption` | pkg/scheduler/cache/cache.go:253-265 | drops one entry, and the binding with its last entry |
| `Assumptions.AssigningCache.ReleaseAssumption` | pkg/scheduler/cache/cache.go:269-274 | drops one binding |
| `Assumptions.AssigningCache.GC` | pkg/scheduler/cache/cache.go:318-331 | drops and counts exactly the expired bindings |
| `Assumptions.AssigningCache.UpdateAssumptionsCache` | pkg/scheduler/scheduler.go:728-779 | entries of a workload become: kept ones outside the dropped clusters, and the full footprint for each new cluster; other bindings untouched |
| `Assumptions.AssigningCache.PatchScheduleResult` | pkg/scheduler/scheduler.go:686-718 | nothing changes for an empty or refused patch, otherwise the update |
| `Assumptions.NewlyHealthyClusters` | pkg/scheduler/event_handler.go:522-538 | exactly the clusters healthy now and not before |
| `Assumptions.AssigningCache.ReleaseHealthyClusterAssumptions` | pkg/scheduler/event_handler.go:496-517 | exactly those are released, for workloads only |
| `Assumptions.AssumedIsPlacementExactly` | pkg/scheduler/scheduler.go:728-779 | after a patch nothing outside the new placement is assumed exactly if the binding was read as a workload that lists every assumed cluster which is not chosen again; for a workload the two are equal then |
| `Assumptions.AfterPatchMeans` | pkg/scheduler/scheduler.go:728-779 | entry by entry what is assumed after a patch: which clusters, and for a chosen one all components, or the resource with the replicas of its last entry and the requirements |
| `Assumptions.StepStaysWithin` | pkg/scheduler/scheduler.go:686-779 | with a current copy a patch of a workload makes the two equal, a patch of anything else keeps assumptions within the placement exactly if they are within the result, and every other step only drops assumptions |
| `Assumptions.RunStaysWithin` | pkg/scheduler/scheduler.go:686-779 | so in every run of current reads only clusters are assumed that are in the placement, or left it while the binding was no workload |
| `Assumptions.StaleReadLeaks` | pkg/scheduler/scheduler.go:686-779 | with an outdated copy a cluster stays assumed that has left the placement |
| `Assumptions.ScaledDownLeaks` | pkg/scheduler/scheduler.go:728-738 | a workload that is scaled to nothing and moved leaves the old cluster assumed, though every copy is current |
| `Assumptions.GetAffinityIndex` | pkg/scheduler/helper.go:99-110 | the first term with the observed name, else the first term |
| `Assumptions.ScheduleWithClusterAffinities` | pkg/scheduler/scheduler.go:618-684 | places with the first term from there on that succeeds; if none does, clears the placement exactly when the first error was that nothing fits |

## Left out

- NoTemplateLost.NoTemplateWaitsInVain: asks that scans of the waiting list can read the template; `GetMatching` skips an object that it cannot fetch, and then the template waits until something else queues it.
- NoTemplateLost.NoTemplateIsLost: asks that every version of every policy is harmless to the template; `LazyPolicies.LostExactlyIfLazy` says for which versions a template can get lost.
- PreemptionOrder.PreemptionsAreBounded: bounds the preemptions by the attempts made with an outdated policy, whose number the state machine does not bound: a worker there may try a template any number of times.
- FirstFitTheorems.CountWithinCapacity: an upper bound only; for several components first fit makes no promise of the greatest count.
- Deprioritized.PriorityQueue.Dequeue: states what the queue library promises; its heap is not modelled.
- Assumptions.RunStaysWithin: asks that the scheduler reads the stored clusters; see `Assumptions.AssumedIsPlacementExactly` for the exact condition of each patch. Deletion of a binding and its event are one step.
- TargetClusters.MergeTargetClusters: the result is a sequence; that `append` may reuse spare room behind the slice of new clusters is not captured.
- AttachedBindings.MergeBindingSnapshot: works on sequences, as does the deletion; sharing of a backing array between slices is not captured.
- ManagedMetadata.Unstructured.RecordManagedLabels: the recorded keys come in any order here; the code sorts them, which only keeps the string stable.
- ResourceSummaries.ResourceModels.Add: counts are unbounded integers, not 64-bit ones.
- The red-black tree is a sequence in comparator order behind the contracts of lookup and insertion; balancing is not modelled.
- `resource.Quantity`, JSON, label-selector parsing, node affinity and tolerations: quantities are integers, selectors are parsed or unparsable, affinity is a predicate.
- Interleavings of goroutines: the detector, the dependency distributor and the scheduler are state machines on values with atomic steps. The methods of `DetectorWorkers` and `PolicyWorkers` run one worker's turn without others in between; that turns interleave is part of the state machine only.
- Deprioritized.DeprioritizedEndsWithBest: the turns follow each other without steps of others in between, and the binding of the template carries no ID of a requeued policy that does not name it.
- Handling a policy that is being deleted is a set of steps of the state machine (`CleanupClaim`, `RemovePolicy`) and the retry loop `Claims.CleanupResourceTemplateClaimMetadata`; its loop over selectors is not written out. A binding is cleaned together with its template there.
- Twins for cluster-scoped kinds share one model: cluster propagation policies with propagation policies, `ClusterResourceBinding` with `ResourceBinding`.
- What the controller of multi-cluster services does apart from taking templates over: its own labels and bindings.
- Claims on bindings, and the ID check when a selector no longer matches: `removeResourceClaimMetadataIfNotMatched` removes a claim without comparing IDs, so that step is modelled without a check.
- `IsDependentOverridesPresent`, skipped namespaces and event filters: they only make a worker return early or with an error, which any step may do.
- `SetMaxResource` and the pod request helpers of `pkg/util/resource.go`, `isComponentReplicasChanged`, `RescheduleRequired` and finalizer merging would only add easy members.
- The scheduling algorithm itself: its outcome for each affinity term is a parameter.
- The cache of bindings in the assigning state, beside the assumptions, and expired entries that are skipped when the cache is read.
- Informer managers, clients, events, metrics and logging.
