# A verified model of the Epsilon scheduler

This project models in Dafny the state that the general purpose scheduler of Epsilon keeps and
the decisions it takes from it, and proves what the code promises about them. Running
`dafny verify dfyconfig.toml` checks all of it.

The parts, each with the main results:

- **Cache** (`CacheModel`, `CacheInvariants`, `CacheConservation`, `CacheEffects`,
  `CacheCleanups`, `CacheCases`; as objects `CacheLists`, `CacheEntries`, `NodeInfos`, `NodeTreeObjects`,
  `SchedulerCaches`, `ObjectRuns`). Every public operation is a step of a state machine over
  values, and the classes, with their doubly linked list, their zone arrays and their maps
  changed in place, are proved to move as it says, call by call and over whole runs. What each
  operation does is stated by the pods and nodes on the entries. In every run the list is
  strictly decreasing in generation, every pod key sits in one place and every total is a sum
  over pods, a pod expires only when it is late, and a confirmed pod never does.
- **Snapshot** (`Snapshots`, `SnapshotRuns`, `SnapshotLists`, `SnapshotBalance`,
  `SnapshotCases`; as objects `SnapshotObjects`, `SnapshotUpdates`; from scratch
  `FullSnapshots`). The incremental update, which walks only the newer prefix of the list and
  notices deletions only by size, leaves the snapshot equal to the cache and to one built from
  scratch, and a second update finds nothing to do; where that needs a condition, the condition
  is given exactly.
- **Zone order** (`RoundRobin`, `NodeTrees`, `NodeTreeCases`). When a full pass of the cursor
  is a permutation of the nodes, and in which order it goes.
- **Volumes** (`GreedyMatching`, `VolumeMatching`, `PodClaims`, `PodVolumes`, `AssumeCaches`,
  `BindingCaches`, `VolumeAssumptions`, `VolumeBinders`, `VolumeCases`). Smallest-fit matching
  binds as many claims as any assignment, a plan holds each delayed claim as often as the pod
  names it, and assuming and writing a plan roll back exactly what is not done, unless a claim
  is listed twice.
- **Inter-pod affinity** (`AffinityTerms`, `Counters`, `AffinityFilter`, `AffinityRefinement`,
  `AffinityUpdates`, `AffinityRemovals`, `Scores`, `AffinityScoring`, `AffinityRuns`,
  `AffinityCases`). Counters and scores by topology pair give the verdict and the score of the
  definition over all pods, nodes and terms, on every snapshot of an orderly run.
- **Admission** (`Resources`, `HostPorts`, `Admission`, `CacheAdmission`). No overcommitment
  and exact host ports over whole runs on a node and of the cache.
- **Epsilon's own protocols** (`Reservations`, `Backoff`, `ShortJobs`). The reservations in
  node conditions, the squaring backoff and the round robin of short jobs.

`Api` holds the parts of the Kubernetes objects that the code reads, and `Sequences` facts
about sequences that several parts use.

Some promises do not hold of the code as it stands. For these the model keeps the code and
states exactly when the promise holds; the lemmas after a semicolon are runs or inputs at which
it fails:

- A full pass of the node tree repeats and skips nodes after a node was added between passes in
  a way that leaves the cursors unbalanced (`NodeTrees.FullPassIsExactIffBalanced`,
  `NodeTrees.AddingKeepsBalanceIff`; `NodeTreeCases.AddedZoneRepeats`).
- Placeholder entries without a node hide deletions from the snapshot
  (`Snapshots.UpdateKeysIff`; `SnapshotCases.RemovedNodeStays`), and a node that becomes known
  by an update which does not change its zone never joins the tree
  (`SnapshotLists.PlaceholderUpdateIff`; `SnapshotCases.PlaceholderNeverJoins`).
- An update of a pod towards a node without an entry leaves the pod where it was
  (`CacheConservation.UpdateToUnknownNodeIff`; `CacheCases.UpdateStrays`).
- Removing a pod by an object of other weights breaks the totals
  (`NodeInfos.RemovePodConservesIff`; `CacheCases.HeavierForgotten`), and the message of a
  removal that finds no pod reads the name of a missing node (`NodeInfos.RemovePodPanicsIff`).
  Well-formed events reach this in the cleanup (`CacheInvariants.ExpireCrashesIff`,
  `CacheCleanups.CleanupCrashesIff`; `CacheCases.CleanupPanics`).
- A pod with two volumes on one delayed claim gets two volumes for it, or has it both matched
  and provisioned (`PodVolumes.PlanOnceIff`, `PodClaims.DelayedOnceIff`,
  `VolumeBinders.FoundPlanOk`; `VolumeCases.ClaimTakesTwoVolumes`,
  `VolumeCases.ClaimIsMatchedAndProvisioned`).
- For the same pod, when a claim to provision is listed twice and only its first write
  succeeds, the rollback also takes back the assumption of the claim that was written
  (`VolumeBinders.WrittenStayIff`; `VolumeCases.WrittenClaimIsRestored`).
- The loop that takes reservations back skips an entry that it has just moved
  (`Reservations.SweptClearIff`; `Reservations.SecondReservationStays`).
- Squaring the backoff in 64 bits reaches 0 at attempt number 6, counted from 0, so with a
  maximum of 2^32 or more a failing pod is retried for ever, without delay (`Backoff.TowerIff`,
  `Backoff.RetriesEndIff`).
- The incremental affinity state reads terms without namespaces in the namespace of the
  incoming pod (`AffinityUpdates.UpdateIsRecomputeIff`,
  `AffinityRemovals.RemovalIsRecomputeIff`; `AffinityCases.UpdateBlocksNode`).
- The first pod of a series is let through although a pod matches its terms, if that pod is on
  a node without their topology keys (`AffinityRefinement.ReadingsAgreeIff`;
  `AffinityCases.MatchPassedOver`).
- Restoring an object undoes an assumption only if there was none before
  (`AssumeCaches.RestoreUndoesIff`, `VolumeBinders.FailureLeavesNoTraceIff`;
  `VolumeCases.FailureLosesAssumption`).

Greedy matching turns out not to need the sorting of the claims: the proof uses only that a
larger volume serves whatever claim a smaller one serves. Claims with selectors break that, and
`VolumeCases.MatchingCanFall` gives two of them that greedy matching serves worse than it
could.

A step may take any arguments unless a theorem asks for more. Where it does, the predicates
`CacheConservation.WellFormed`, `SnapshotLists.NodeEventOk`, `SnapshotBalance.ComesInTurn`,
`CacheAdmission.Supplied` and `Admission.Proper` say what the callers supply: a pod that stands
in for a stored one weighs the same, an update names the stored pod, and a node event names the
cached zone. Kubernetes quantities are integers in the unit in which the code reads them.
Feature gates have their defaults, with BalanceAttachedNodeVolumes off. Map iteration order is
arbitrary wherever the code ranges over a map, and the answers of the API server, the clock and
the visiting order of a cleanup are inputs.

## Model

| member | source | states |
|---|---|---|
| CacheModel.StepOrdered | general_purpose_scheduler/internal/cache/cache.go:126-172 | every public operation, with any arguments, keeps the list holding each entry once and strictly decreasing in generation from the head |
| CacheModel.RunOrdered | general_purpose_scheduler/internal/cache/cache.go:413-453 | so after every run of operations from the empty cache |
| CacheModel.PodAddedMovesAhead | general_purpose_scheduler/internal/cache/cache.go:413-421 | after addPod the entry is first in the list with a generation above all others, the others keep their values and their order, the pod is its last one, and a new placeholder has no node |
| CacheModel.PodTakenMovesAhead | general_purpose_scheduler/internal/cache/cache.go:443-453 | after a removal that finds the pod the same holds, the node is as it was, and exactly the pod that was found is gone from the pods |
| CacheInvariants.StepMachine | general_purpose_scheduler/internal/cache/cache.go:338-410 | every step keeps assumed keys among the pod states, and an assumed pod whose binding finished has a deadline |
| CacheInvariants.RunMachine | general_purpose_scheduler/internal/cache/cache.go:338-410 | so in every reachable state, whatever the arguments of the calls |
| CacheInvariants.CleanupKey | general_purpose_scheduler/internal/cache/cache.go:704-736 | a cleanup keeps the state of a key as it is or drops it, and drops it only past its deadline |
| CacheInvariants.CleanupAddsNothing | general_purpose_scheduler/internal/cache/cache.go:704-736 | a cleanup adds neither pod states nor assumed keys |
| CacheInvariants.RunDeadline | general_purpose_scheduler/internal/cache/cache.go:364-381 | the deadline of an assumed pod in a run is the time of one of its FinishBinding calls plus the ttl |
| CacheInvariants.ExpiryIsLate | general_purpose_scheduler/internal/cache/cache.go:704-727 | a pod that a cleanup removes was assumed, and the cleanup runs later than one of its FinishBinding calls plus the ttl |
| CacheInvariants.ExpireCrashesIff | general_purpose_scheduler/internal/cache/cache.go:704-736 | in a reachable state one turn of the cleanup crashes if and only if the pod is due and its entry has no node and does not hold it: never at the missing state or the missing deadline |
| CacheConservation.OnePlacePerKey | general_purpose_scheduler/framework/v1alpha1/types.go:354-434 | each pod key sits on at most one entry and there at most once, and its state names that entry |
| CacheConservation.HeldWhereNamed | general_purpose_scheduler/internal/cache/cache.go:338-547 | a key that an entry holds has a state that names the entry |
| CacheConservation.PodRemovedConserving | general_purpose_scheduler/internal/cache/cache.go:443-453 | after removePod with a pod of the stored weights no entry holds the key, and a removal that fails changes nothing |
| CacheConservation.StepConserving | general_purpose_scheduler/internal/cache/cache.go:338-547 | every well-formed operation keeps each key in one place, the affinity slice the affinity part of the pods, and each total the sum over the pods |
| CacheConservation.RunConserving | general_purpose_scheduler/internal/cache/cache.go:338-547 | so in every run of well-formed operations |
| CacheConservation.UpdateToUnknownNodeIff | general_purpose_scheduler/internal/cache/cache.go:424-437 | an update towards a node without an entry keeps this invariant if and only if no entry holds the pod |
| CacheEffects.AssumeAdds | general_purpose_scheduler/internal/cache/cache.go:338-357 | an assumed pod is on the entry of its node, with a state of its own and assumed; no other pod, node or state changes |
| CacheEffects.FinishStarts | general_purpose_scheduler/internal/cache/cache.go:359-381 | only the state of an assumed pod changes: its binding is marked and its deadline is the time plus the ttl |
| CacheEffects.ForgetTakesOut | general_purpose_scheduler/internal/cache/cache.go:383-410 | a forgotten pod is on no entry and has no state; if its entry is there and does not hold it the call fails, or panics without a node, and nothing changes |
| CacheEffects.ConfirmSettles | general_purpose_scheduler/internal/cache/cache.go:455-478 | an assumed pod that is confirmed is no longer assumed, has no deadline, and its state has the object confirmed; on the same node entries, list and generations stay as they were |
| CacheEffects.ConfirmMoves | general_purpose_scheduler/internal/cache/cache.go:465-478 | confirmed on another node it is on that entry and on no other, also if the entry it was assumed on did not hold it; the call panics exactly if that entry has no node either |
| CacheEffects.ConfirmAdds | general_purpose_scheduler/internal/cache/cache.go:479-486 | a pod without a state joins the entry of its node and is not assumed |
| CacheEffects.UpdateReplaces | general_purpose_scheduler/internal/cache/cache.go:424-437 | a well-formed update towards a known node: the new object is on its entry, no other object of the key is on any, and all other pods stay, each as often; if the entry does not hold the old one nothing changes |
| CacheEffects.UpdateRestates | general_purpose_scheduler/internal/cache/cache.go:492-518 | an update that goes through puts the new object into the state and leaves deadline, mark and all other states; towards a node without an entry it always does, and no entry changes |
| CacheEffects.DeleteTakesOut | general_purpose_scheduler/internal/cache/cache.go:520-547 | a deleted pod is on no entry and has no state; if its entry is there and does not hold it nothing changes |
| CacheEffects.RefusedLeaves | general_purpose_scheduler/internal/cache/cache.go:338-547 | the calls that are refused, each with its error, change nothing |
| CacheEffects.ExpireDrops | general_purpose_scheduler/internal/cache/cache.go:704-736 | one turn of the cleanup takes out the pod if it is due and its entry holds it or is gone, else it changes nothing |
| CacheEffects.CleanupDrops | general_purpose_scheduler/internal/cache/cache.go:704-736 | a cleanup that does not crash takes out exactly the pods it visits that are due and can be taken out, from entries and states, and leaves every other pod where it is |
| CacheEffects.AddNodeStands | general_purpose_scheduler/internal/cache/cache.go:584-600 | the entry of the name has the node and its allocatable amounts; all pods, states and other nodes stay |
| CacheEffects.UpdateNodeStands | general_purpose_scheduler/internal/cache/cache.go:602-619 | the same for the new node of an update |
| CacheEffects.RemoveNodeDrops | general_purpose_scheduler/internal/cache/cache.go:627-641 | the entry goes with its pods and all states stay; the outcome is an error exactly if the name has no entry, which changes nothing, or the tree does not hold the node in its zone |
| CacheEffects.StepMembers | general_purpose_scheduler/internal/cache/node_tree.go:72-136 | what each operation does to the pairs of zone and name that the tree holds |
| CacheEffects.GenerationsTaken | general_purpose_scheduler/framework/v1alpha1/types.go:247-249 | every change of an entry takes one generation, and a new entry one more |
| CacheEffects.StaysSettled | general_purpose_scheduler/internal/cache/cache.go:355-355 | in a run a pod that is not assumed is not until it is assumed again |
| CacheEffects.ConfirmedNeverExpires | general_purpose_scheduler/internal/cache/cache.go:476-478 | in a run a confirmed pod that is not assumed again is taken out by no later cleanup, and its state stays |
| CacheEffects.StepAllHeld | general_purpose_scheduler/internal/cache/cache.go:338-736 | if every stored pod is on its entry, a well-formed operation that removes no node keeps this, and goes through without an error unless it is refused |
| CacheEffects.RunAllHeld | general_purpose_scheduler/internal/cache/cache.go:338-736 | so in every well-formed run that removes no node |
| CacheEffects.HeldIffStored | general_purpose_scheduler/internal/cache/cache.go:338-547 | where this holds an entry holds a key if and only if the key has a state that names the entry |
| CacheInvariants.StepTreeValid | general_purpose_scheduler/internal/cache/cache.go:584-641 | every operation, with any arguments, a crash of the cleanup included, keeps the node tree consistent |
| CacheInvariants.RunTreeValid | general_purpose_scheduler/internal/cache/node_tree.go:72-170 | so in every run: zones are the keys, none is empty, no node is twice in a zone and the count is right |
| CacheCases.CleanupPanics | general_purpose_scheduler/framework/v1alpha1/types.go:433-433 | a well-formed run reaches the crash of the cleanup: a pod is assumed and its binding finishes, its node is removed, another pod is assumed on that name, and the cleanup runs past the deadline |
| CacheCleanups.CleanupCrashesAt | general_purpose_scheduler/internal/cache/cache.go:704-736 | in a well-formed run a cleanup crashes if and only if it visits a pod that is due and whose entry has no node and does not hold it |
| CacheCleanups.CleanupCrashesIff | general_purpose_scheduler/internal/cache/cache.go:704-736 | so, whatever the order of the map, if and only if there is such an assumed pod |
| CacheCases.HeavierForgotten | general_purpose_scheduler/internal/cache/cache.go:383-410 | a pod is assumed and forgotten through an object of its key that asks for more: the entry has no pods and a request below zero |
| CacheCases.UpdateStrays | general_purpose_scheduler/internal/cache/cache.go:424-437 | a run in which the update of a pod names a node without an entry, after which one place per pod no longer holds |
| SchedulerCaches.SchedulerCache.AssumePod | general_purpose_scheduler/internal/cache/cache.go:338-357 | the object moves as the state machine says: all fields of the new value and the outcome |
| SchedulerCaches.SchedulerCache.FinishBinding | general_purpose_scheduler/internal/cache/cache.go:359-381 | the same for FinishBinding |
| SchedulerCaches.SchedulerCache.ForgetPod | general_purpose_scheduler/internal/cache/cache.go:383-410 | the same for ForgetPod |
| SchedulerCaches.SchedulerCache.AddPod | general_purpose_scheduler/internal/cache/cache.go:455-490 | the same for AddPod, with the move to another node |
| SchedulerCaches.SchedulerCache.UpdatePod | general_purpose_scheduler/internal/cache/cache.go:492-518 | the same for UpdatePod |
| SchedulerCaches.SchedulerCache.RemovePod | general_purpose_scheduler/internal/cache/cache.go:520-547 | the same for RemovePod, with its fatal branch |
| SchedulerCaches.SchedulerCache.AddNode | general_purpose_scheduler/internal/cache/cache.go:584-600 | the same for AddNode, list and tree included |
| SchedulerCaches.SchedulerCache.UpdateNode | general_purpose_scheduler/internal/cache/cache.go:602-619 | the same for UpdateNode |
| SchedulerCaches.SchedulerCache.RemoveNode | general_purpose_scheduler/internal/cache/cache.go:627-641 | the same for RemoveNode |
| SchedulerCaches.SchedulerCache.CleanupAssumedPods | general_purpose_scheduler/internal/cache/cache.go:704-727 | the same for the cleanup in the order in which it visits the assumed keys, each of which it visits unless it crashes |
| SchedulerCaches.SchedulerCache.ExpirePod | general_purpose_scheduler/internal/cache/cache.go:729-736 | the same for expirePod |
| SchedulerCaches.SchedulerCache.PutPod | general_purpose_scheduler/internal/cache/cache.go:413-421 | the same for addPod |
| SchedulerCaches.SchedulerCache.ReplacePod | general_purpose_scheduler/internal/cache/cache.go:424-437 | the same for updatePod |
| SchedulerCaches.SchedulerCache.TakePod | general_purpose_scheduler/internal/cache/cache.go:443-453 | the same for removePod, which keeps the set of entries |
| SchedulerCaches.SchedulerCache.constructor | general_purpose_scheduler/internal/cache/cache.go:101-115 | a new object is the empty state machine and owns all its parts |
| ObjectRuns.Perform | general_purpose_scheduler/internal/cache/cache.go:338-641 | any call on the object is the step of the state machine, and adds only new objects to the cache |
| ObjectRuns.RunBoth | general_purpose_scheduler/internal/cache/cache.go:202-276 | any list of calls on a cache and a snapshot, wherever in a run they stand, takes both on in that run, up to a panic |
| ObjectRuns.RunFromStart | general_purpose_scheduler/internal/cache/cache_test.go:1495-1540 | new objects end as the run on values does, and a snapshot just updated in an orderly run equals the cache |
| CacheLists.NodeInfoListItem.Unlink | general_purpose_scheduler/internal/cache/cache.go:137-142 | two pointer writes join the neighbours of an item, and next and prev stay inverse along the rest |
| CacheLists.NodeInfoListItem.LinkFirst | general_purpose_scheduler/internal/cache/cache.go:143-147 | the item in front of the list makes a list again |
| CacheLists.NodeInfoList.MoveToHead | general_purpose_scheduler/internal/cache/cache.go:126-149 | the list becomes the item followed by the others in their old order |
| CacheLists.NodeInfoList.Remove | general_purpose_scheduler/internal/cache/cache.go:154-172 | the list loses the item and keeps its order |
| CacheEntries.NodeEntries.MoveNodeInfoToHead | general_purpose_scheduler/internal/cache/cache.go:126-149 | map and list stay in step, and the names spell the order with this name in front |
| CacheEntries.NodeEntries.RemoveNodeInfoFromList | general_purpose_scheduler/internal/cache/cache.go:154-172 | the name leaves the map and the list |
| CacheEntries.ItemIs | general_purpose_scheduler/internal/cache/cache.go:220-224 | following next from place to place meets the entries in list order |
| Snapshots.NewerSplits | general_purpose_scheduler/internal/cache/cache.go:220-224 | where the walk breaks: on a list by decreasing generation the entries before the break are exactly the newer ones |
| Snapshots.WalkAt | general_purpose_scheduler/internal/cache/cache.go:220-247 | what the walk leaves under a name: the entry if it was reached and has a node, else what was there |
| Snapshots.UpdateIsComplete | general_purpose_scheduler/internal/cache/cache.go:202-276 | whatever names the deletion loop meets first, an update leaves every cached node in the snapshot as it is, if the snapshot held the older ones |
| Snapshots.UpdateKeepsLists | general_purpose_scheduler/internal/cache/cache.go:257-276 | after an update the affinity list is the affinity part of the node list, also when the lists are not made anew |
| Snapshots.WalkFlags | general_purpose_scheduler/internal/cache/cache.go:231-246 | the flag for all lists goes up exactly if the walk adds a name, and while the other is down no known entry changed between having affinity pods and having none |
| Snapshots.UpdateKeysIff | general_purpose_scheduler/internal/cache/cache.go:253-256 | after an update the snapshot has exactly the cached nodes if and only if there is no placeholder or the snapshot had no other name before |
| Snapshots.AffinityFlagIff | general_purpose_scheduler/internal/cache/cache.go:231-246 | the flag for the affinity list goes up if and only if some entry changes between having affinity pods and having none |
| Snapshots.UpdateIsNewest | general_purpose_scheduler/internal/cache/cache.go:248-251 | an update takes over the generation of the head, which no entry exceeds |
| Snapshots.UpdateTwice | general_purpose_scheduler/internal/cache/cache.go:202-276 | right behind an update without an error another one walks over no entry and changes neither snapshot nor cursor |
| Snapshots.UpdateOkIff | general_purpose_scheduler/internal/cache/cache.go:257-276 | there is no error if and only if every name dealt out for new lists is in the map, or, without new lists, the old one has as many names as the tree has nodes; after an error the lists are made anew |
| SnapshotRuns.StepEvolves | general_purpose_scheduler/internal/cache/cache.go:338-641 | every well-formed operation leaves an entry as it was or gives it a generation above all before |
| SnapshotRuns.RunOk | general_purpose_scheduler/internal/cache/cache.go:202-276 | list order, conservation, a faithful snapshot and consistent lists hold together in every run of operations and updates |
| SnapshotRuns.EveryUpdateIsComplete | general_purpose_scheduler/internal/cache/cache.go:202-276 | in every such run each update leaves every cached node in the snapshot as it is |
| SnapshotLists.PlaceholderUpdateIff | general_purpose_scheduler/internal/cache/cache.go:602-619 | an update that gives a placeholder its node keeps the tree in step if and only if it changes the zone |
| SnapshotLists.StepMatches | general_purpose_scheduler/internal/cache/cache.go:584-641 | every step whose node events name the cached zone keeps the tree holding exactly the cached nodes, each under its zone |
| SnapshotLists.NewListIff | general_purpose_scheduler/internal/cache/cache.go:278-301 | lists made anew raise no error, and hold each node once if and only if the zone cursors were balanced |
| SnapshotLists.UpdateIsExact | general_purpose_scheduler/internal/cache/cache.go:202-276 | without placeholders and with balanced cursors an update raises no error and its node list has each node once |
| SnapshotLists.RunExact | general_purpose_scheduler/internal/cache/cache.go:202-276 | so in every orderly run |
| SnapshotLists.EveryUpdateIsExact | general_purpose_scheduler/internal/cache/cache_test.go:1495-1540 | in every orderly run each update raises no error and leaves the snapshot equal to the cache: map, node list and affinity list |
| SnapshotBalance.StepBalanceIff | general_purpose_scheduler/internal/cache/cache.go:584-641 | an operation keeps the zone cursors balanced if and only if the node that it may add comes in turn |
| SnapshotBalance.TidyIsOrderly | general_purpose_scheduler/internal/cache/cache.go:202-276 | a run that adds nodes only in turn is orderly: its cursors are balanced whenever a snapshot is taken |
| SnapshotBalance.EveryTidyUpdateIsExact | general_purpose_scheduler/internal/cache/cache_test.go:1495-1540 | in every such run each update raises no error and leaves the snapshot equal to the cache |
| SnapshotUpdates.UpdateSnapshot | general_purpose_scheduler/internal/cache/cache.go:202-276 | the loops on the objects do to cache and snapshot what the update on values says, and overwrite entries in place so that both lists keep pointing to those of the map |
| SnapshotUpdates.WalkNewer | general_purpose_scheduler/internal/cache/cache.go:220-247 | the loop along the pointers from the head makes the walk over the newer entries |
| SnapshotUpdates.DealLists | general_purpose_scheduler/internal/cache/cache.go:278-293 | the lists made with one call of next for each node hold what the cursor deals out and the map knows |
| SnapshotUpdates.SiftList | general_purpose_scheduler/internal/cache/cache.go:294-300 | the affinity list is made from the node list |
| SnapshotObjects.Snapshot.RemoveDeletedNodes | general_purpose_scheduler/internal/cache/cache.go:304-315 | the loop deletes names that are not cached, as many as the snapshot has too many |
| SnapshotObjects.Snapshot.Refresh | general_purpose_scheduler/internal/cache/cache.go:231-246 | an entry is overwritten in place, and lists that point to it stay valid |
| FullSnapshots.CreateNodeInfoMap | general_purpose_scheduler/internal/cache/snapshot.go:71-91 | the loops build the pods first and then the nodes, taking a generation for each |
| FullSnapshots.ListAll | general_purpose_scheduler/internal/cache/snapshot.go:49-66 | each entry is listed once, and those with affinity pods on the second list |
| FullSnapshots.CacheIsFull | general_purpose_scheduler/internal/cache/snapshot.go:71-91 | the cache agrees with the map built from scratch out of its pods and nodes in node, pods, affinity pods, totals and allocatable amounts, apart from placeholders without pods, and in the used ports if and only if those of the entry are exactly the ports of its pods |
| FullSnapshots.EveryUpdateIsFull | general_purpose_scheduler/internal/cache/snapshot.go:49-91 | in every orderly run each incremental update agrees with a snapshot built from scratch, in the used ports of an entry if and only if they are exactly the ports of its pods |
| SnapshotCases.RemovedNodeStays | general_purpose_scheduler/internal/cache/cache.go:253-256 | a well-formed run with a placeholder after which a removed node is still in the snapshot that was just updated |
| SnapshotCases.PlaceholderNeverJoins | general_purpose_scheduler/internal/cache/cache.go:602-619 | a node first seen by an update in its own zone, after a pod was assumed on it, is cached and in no zone of the tree, however often it is updated in that zone |
| FullSnapshots.PortsAgreeIff | general_purpose_scheduler/framework/v1alpha1/types.go:569-602 | an entry has the used ports of one built from scratch out of the same pods if and only if they are exactly the ports of its pods |
| NodeInfos.NodeInfo.AddPod | general_purpose_scheduler/framework/v1alpha1/types.go:354-378 | the new value of all fields and of the generation counter |
| NodeInfos.NodeInfo.RemovePod | general_purpose_scheduler/framework/v1alpha1/types.go:381-434 | the same, for each of its four outcomes |
| NodeInfos.NodeInfo.SetNode | general_purpose_scheduler/framework/v1alpha1/types.go:285-291 | the same for SetNode |
| NodeInfos.NodeInfo.Clone | general_purpose_scheduler/framework/v1alpha1/types.go:313-341 | a new object with the same value |
| NodeInfos.NodeInfo.UpdateUsedPorts | general_purpose_scheduler/framework/v1alpha1/types.go:485-497 | the nested loops add or remove the ports of all containers |
| NodeInfos.AddPodConserves | general_purpose_scheduler/framework/v1alpha1/types.go:354-378 | adding a pod with a new key keeps totals the sums over the pods and the affinity slice their affinity part |
| NodeInfos.RemoveKeyKeepsAffinity | general_purpose_scheduler/framework/v1alpha1/types.go:387-409 | the swap-deletions from both slices keep the affinity slice the affinity part of the pods, and a failed removal changes nothing |
| NodeInfos.RemovePodConservesIff | general_purpose_scheduler/framework/v1alpha1/types.go:381-434 | removing through another object with the key of a held pod keeps the totals if and only if both weigh the same in every measure |
| NodeInfos.NonZeroRequestedDominates | general_purpose_scheduler/framework/v1alpha1/types.go:447-482 | the scoring totals are never below the real ones for CPU and memory |
| NodeInfos.RemovePodPanicsIff | general_purpose_scheduler/framework/v1alpha1/types.go:433-433 | RemovePod panics if and only if the key is absent and the entry has no node |
| Resources.CalculateResource | general_purpose_scheduler/framework/v1alpha1/types.go:447-482 | the loop computes the request of the pod and its two scoring amounts |
| Resources.PodRequestIsPeakDemand | general_purpose_scheduler/framework/v1alpha1/types.go:447-482 | the request without overhead is the least amount that covers the containers together and each init container alone |
| Resources.NonZeroIsPeakDemand | general_purpose_scheduler/scheduler/util/non_zero.go:34-63 | the scoring amounts without overhead are the least that cover the containers together and each init container alone, where one that asks for nothing counts as 100 milli-units of CPU and 200 MB |
| Resources.Add | general_purpose_scheduler/framework/v1alpha1/types.go:91-115 | a list is added in every recognized dimension, whatever the order of its entries |
| Resources.SetMaxResource | general_purpose_scheduler/framework/v1alpha1/types.go:167-195 | each dimension becomes the larger one, whatever the order |
| Resources.NonZeroAboveRequest | general_purpose_scheduler/scheduler/util/non_zero.go:43-85 | the amounts with defaults are never below the request |
| HostPorts.AddPortTaken | general_purpose_scheduler/framework/v1alpha1/types.go:569-585 | adding a port adds its key and leaves no address without ports |
| HostPorts.RemovePortTaken | general_purpose_scheduler/framework/v1alpha1/types.go:588-602 | removing a port removes its key and leaves no address without ports |
| HostPorts.KeyOfIs | general_purpose_scheduler/framework/v1alpha1/types.go:647-654 | an absent address stands for all addresses and an absent protocol for TCP |
| HostPorts.CheckConflict | general_purpose_scheduler/framework/v1alpha1/types.go:615-644 | a conflict is a taken port of the same number and protocol under the same or a wildcard address |
| HostPorts.GetContainerPorts | general_purpose_scheduler/framework/plugins/nodeports/node_ports.go:60-71 | the ports of all containers in order |
| HostPorts.Fits | general_purpose_scheduler/framework/plugins/nodeports/node_ports.go:116-129 | the verdict is that no wanted port clashes with a taken one |
| HostPorts.ConflictsIff | general_purpose_scheduler/framework/plugins/nodeports/node_ports.go:116-129 | there is a conflict if and only if some container asks for a port whose number and protocol are taken at an address that covers it or that it covers |
| NodeTrees.AddedNodeValid | general_purpose_scheduler/internal/cache/node_tree.go:72-88 | adding keeps zones equal to the keys, no zone empty, no repetition and the count, and adds the pair of zone and name |
| NodeTrees.RemovedNodeValid | general_purpose_scheduler/internal/cache/node_tree.go:91-120 | removing keeps the same, and removes the pair |
| NodeTrees.NextIsStep | general_purpose_scheduler/internal/cache/node_tree.go:147-170 | next ends and is one step of the round-robin cursor |
| NodeTrees.FullPassIsExactIffBalanced | general_purpose_scheduler/internal/cache/node_tree.go:147-170 | as many calls of next as there are nodes return each node once if and only if the cursors of the zones are balanced |
| NodeTrees.FullPassKeepsBalance | general_purpose_scheduler/internal/cache/node_tree.go:147-170 | such a pass leaves the cursors balanced |
| NodeTrees.PassOrder | general_purpose_scheduler/internal/cache/node_tree.go:147-170 | from zone 0 with nothing delivered, or with all zones exhausted, a full pass goes round by round and zone by zone |
| NodeTrees.PassLeavesStart | general_purpose_scheduler/internal/cache/node_tree.go:147-170 | such a pass ends where the next one can start, so every later pass goes in this order too |
| NodeTrees.AddingKeepsBalanceIff | general_purpose_scheduler/internal/cache/node_tree.go:72-88 | in any tree with balanced cursors, a new node leaves them balanced if and only if its zone has nodes left, or the node comes last in the round order among those served, or, with the cursor of its zone beyond it, no node before it in the order is still to come |
| NodeTrees.RemovingKeepsBalance | general_purpose_scheduler/internal/cache/node_tree.go:91-120 | removing a node keeps balanced cursors balanced |
| NodeTreeCases.AddedZoneRepeats | general_purpose_scheduler/internal/cache/node_tree.go:72-170 | two nodes in one zone, a full pass, then a node in a second zone: the next full pass returns the new node twice and one of the old ones never |
| RoundRobin.FullPassIff | general_purpose_scheduler/internal/cache/node_tree.go:138-170 | a full pass is a permutation if and only if the positions delivered so far begin the order round by round, and then as much is delivered afterwards |
| RoundRobin.BalancedIffInitial | general_purpose_scheduler/internal/cache/node_tree.go:46-57 | this condition in terms of the cursors of the zones |
| RoundRobin.SyncedThroughout | general_purpose_scheduler/internal/cache/node_tree.go:147-170 | a cursor that starts fresh delivers in this order for ever |
| RoundRobin.PassInOrder | general_purpose_scheduler/internal/cache/node_tree.go:147-170 | a pass from a fresh cursor, or from one with all zones exhausted, visits positions in increasing order |
| RoundRobin.PassEndsAtStart | general_purpose_scheduler/internal/cache/node_tree.go:147-170 | and ends at such a cursor again |
| NodeTreeObjects.NodeTree.AddNode | general_purpose_scheduler/internal/cache/node_tree.go:72-88 | the loop on the object does what the edit on values says |
| NodeTreeObjects.NodeTree.RemoveNode | general_purpose_scheduler/internal/cache/node_tree.go:91-108 | the same for removal, with the outcome |
| NodeTreeObjects.NodeTree.RemoveZone | general_purpose_scheduler/internal/cache/node_tree.go:112-120 | the zone leaves the map and its first place in the zone list |
| NodeTreeObjects.NodeTree.UpdateNode | general_purpose_scheduler/internal/cache/node_tree.go:123-136 | the same for a change of zone |
| NodeTreeObjects.NodeTree.ResetExhausted | general_purpose_scheduler/internal/cache/node_tree.go:138-143 | all cursors go to zero |
| NodeTreeObjects.NodeTree.Next | general_purpose_scheduler/internal/cache/node_tree.go:147-170 | the unbounded loop ends with the name and the tree that the scan on values gives |
| NodeTreeObjects.NodeArray.Next | general_purpose_scheduler/internal/cache/node_tree.go:46-57 | the next name of a zone, or exhausted with the cursor unchanged |
| Admission.FitsRequest | general_purpose_scheduler/framework/plugins/noderesources/fit.go:229-326 | no shortage is reported if and only if the pod fits beside requests and reservations; otherwise exactly the resources that lack room are, with their amounts |
| Admission.FitsIff | general_purpose_scheduler/framework/plugins/noderesources/fit.go:229-326 | the verdict in terms of the node with the pod on it: its pods are not too many, and, unless the pod asks for nothing, the named amounts with the reservations, and every scalar asked for and not ignored, are within the allocatable ones |
| Admission.FitsKeepsNoOvercommit | general_purpose_scheduler/framework/plugins/noderesources/fit.go:229-326 | admitting a pod keeps every requested amount and the pod count within the allocatable ones, also for pods that ask for nothing |
| Admission.RemovalKeepsNoOvercommit | general_purpose_scheduler/framework/v1alpha1/types.go:381-434 | so does a removal |
| Admission.AdmittedApart | general_purpose_scheduler/framework/plugins/nodeports/node_ports.go:120-129 | an admitted pod shares no port key with the pods present |
| Admission.RemovalPortsIff | general_purpose_scheduler/framework/v1alpha1/types.go:588-602 | after a removal the used ports are exactly those of the pods left if and only if the removed pod shared none |
| Admission.RunSound | general_purpose_scheduler/framework/plugins/noderesources/fit.go:229-326 | in every run of admissions, removals and renewals of the node object with no lower allocatable amounts there is no overcommitment and the used ports are exactly those of the pods present |
| Admission.FreshSound | general_purpose_scheduler/framework/v1alpha1/types.go:285-310 | a fresh node starts such a run |
| CacheAdmission.StepGood | general_purpose_scheduler/internal/cache/cache.go:338-641 | an operation of the cache under which pods come to a node only when admitted, and leave it as the objects they came as, keeps its entry without overcommitment and with exact ports |
| CacheAdmission.RunFits | general_purpose_scheduler/framework/plugins/noderesources/fit.go:229-326 | so in every run of the cache, whatever else happens in it |
| Reservations.EncodingRoundTrip | general_purpose_scheduler/framework/plugins/noderesources/fit.go:199-226 | reading undoes the encoding for all triples of 64-bit integers |
| Reservations.PartsRead | general_purpose_scheduler/framework/plugins/noderesources/fit.go:199-226 | of a text with two commas each part is read by itself |
| Reservations.OtherTextReads | general_purpose_scheduler/framework/plugins/noderesources/fit.go:203-205 | a text that has not two commas reserves nothing |
| Reservations.DigitsRead | general_purpose_scheduler/framework/plugins/noderesources/fit.go:207-223 | digits are read with and without a sign, and a number out of range as nothing |
| Reservations.OtherPartReads | general_purpose_scheduler/framework/plugins/noderesources/fit.go:207-223 | a part with any other character is read as nothing |
| Reservations.RemovePreemptionInfo | general_purpose_scheduler/helper.go:203-222 | the loop over the original range with swap-deletion in place leaves what the recursive sweep says |
| Reservations.SweptClearIff | general_purpose_scheduler/helper.go:205-221 | with m matching entries the loop leaves none if and only if none of the last m - 1 entries matches |
| Reservations.SweptOne | general_purpose_scheduler/helper.go:205-221 | one matching entry is removed and the others stay, up to order |
| Reservations.SweptKeepsOthers | general_purpose_scheduler/helper.go:205-221 | however many entries match, the others all stay, each as often as before |
| Reservations.SecondReservationStays | general_purpose_scheduler/helper.go:205-221 | of two entries with the key the loop leaves the second |
| Reservations.ReservationTakenBack | general_purpose_scheduler/helper.go:164-221 | adding a reservation and removing it by its key restores the conditions up to order, if no other has the key |
| Reservations.ReservationReads | general_purpose_scheduler/helper.go:173-180 | a reservation counts with its own amounts up to a minute after it was made, then not |
| Reservations.OthersReserveNothing | general_purpose_scheduler/framework/plugins/noderesources/fit.go:241-241 | other conditions reserve nothing |
| Reservations.ReservedAmounts | general_purpose_scheduler/framework/plugins/noderesources/fit.go:231-251 | the loop adds up the amounts of the valid reservations |
| Reservations.ReservationCounts | general_purpose_scheduler/framework/plugins/noderesources/fit.go:237-249 | a reservation adds its amounts to the totals, wherever it stands |
| Reservations.ReservationEnds | general_purpose_scheduler/framework/plugins/noderesources/fit.go:237-249 | after a reservation is taken back the totals are what they were |
| Backoff.KeepFailing | general_purpose_scheduler/processes.go:104-125 | a pod that keeps failing is given up at the first attempt that carries more than the maximum, having waited for all attempts before |
| Backoff.TowerIff | retry/main.go:189-196 | attempt k carries 2 to the power 2^k if and only if k is at most 5: after that squaring in 64 bits gives 0 |
| Backoff.WaitedIs | retry/main.go:179-196 | the time waited before attempt k is the sum of 2^(2^j) for j below k and below 6 |
| Backoff.RetriesEndIff | general_purpose_scheduler/processes.go:104-108 | some attempt is given up if and only if the maximum is below 2^32, and then at attempt 5 at the latest |
| Backoff.TotalWaitBound | retry/main.go:179-194 | the waits add up to less than twice the maximum |
| VolumeMatching.FindMatchingVolume | general_purpose_scheduler/k8s.io/kubernetes/pkg/controller/volume/persistentvolume/util/util.go:181-305 | the result is the first pre-bound candidate, if the node reaches it, else the first smallest eligible volume, else none; or a selector error |
| VolumeMatching.EligibleIff | general_purpose_scheduler/k8s.io/kubernetes/pkg/controller/volume/persistentvolume/util/util.go:199-290 | the conditions on a smallest volume field by field, each access mode included |
| VolumeMatching.BoundToClaimIff | general_purpose_scheduler/k8s.io/kubernetes/pkg/controller/volume/persistentvolume/util/util.go:154-165 | a volume is bound to a claim if and only if it refers to it, with its identifier or without |
| VolumeMatching.FindMatchingVolumes | general_purpose_scheduler/k8s.io/kubernetes/pkg/controller/volume/scheduling/scheduler_binder.go:761-799 | each claim in turn gets its best match among the volumes not chosen before, and is bound or left over |
| VolumeMatching.ChosenIsGreedy | general_purpose_scheduler/k8s.io/kubernetes/pkg/controller/volume/scheduling/scheduler_binder.go:761-799 | without pre-bound volumes this is the greedy choice of a smallest volume |
| VolumeMatching.PlainExchangeable | general_purpose_scheduler/k8s.io/kubernetes/pkg/controller/volume/persistentvolume/util/util.go:181-305 | for claims without selectors and with equal access modes a larger volume that serves some claim of a smaller one serves all of them |
| VolumeMatching.MatchingIsMaximum | general_purpose_scheduler/k8s.io/kubernetes/pkg/controller/volume/scheduling/scheduler_binder.go:761-799 | for such claims the choice is an assignment of eligible volumes, no other binds more, and all are bound if all can be |
| GreedyMatching.GreedyIsMaximum | general_purpose_scheduler/k8s.io/kubernetes/pkg/controller/volume/scheduling/scheduler_binder.go:761-799 | the exchange argument for any such family of choices, in whatever order the claims come |
| GreedyMatching.GreedyIsComplete | general_purpose_scheduler/k8s.io/kubernetes/pkg/controller/volume/scheduling/scheduler_binder.go:761-799 | a complete assignment, if there is one, is matched by a complete greedy one |
| VolumeCases.MatchingCanFall | general_purpose_scheduler/k8s.io/kubernetes/pkg/controller/volume/scheduling/scheduler_binder.go:761-799 | with a selector that only the smaller of two volumes meets, the matching binds one claim of two although both could be bound |
| PodClaims.GetPodVolumes | general_purpose_scheduler/k8s.io/kubernetes/pkg/controller/volume/scheduling/scheduler_binder.go:694-726 | there is an error if and only if some claim of the pod is unknown or its class cannot be read; else the three parts are the bound, the delayed and the other claims of the pod, each in order |
| PodClaims.PartsAre | general_purpose_scheduler/k8s.io/kubernetes/pkg/controller/volume/scheduling/scheduler_binder.go:694-726 | the recursion behind the loop sorts the claims by these three conditions |
| PodClaims.PartsPartition | general_purpose_scheduler/k8s.io/kubernetes/pkg/controller/volume/scheduling/scheduler_binder.go:694-726 | together the parts hold every claim of the pod as often as its volumes name it |
| PodClaims.DelayedOnceIff | general_purpose_scheduler/k8s.io/kubernetes/pkg/controller/volume/scheduling/scheduler_binder.go:694-726 | the delayed part names a claim twice if and only if two volumes of the pod name one delayed claim |
| PodVolumes.CheckBoundClaims | general_purpose_scheduler/k8s.io/kubernetes/pkg/controller/volume/scheduling/scheduler_binder.go:728-757 | the first claim not in order decides between error and conflict |
| PodVolumes.CheckVolumeProvisions | general_purpose_scheduler/k8s.io/kubernetes/pkg/controller/volume/scheduling/scheduler_binder.go:804-840 | the first claim that cannot be provisioned decides between error and conflict |
| PodVolumes.ProvisionableIff | general_purpose_scheduler/k8s.io/kubernetes/pkg/controller/volume/scheduling/scheduler_binder.go:804-840 | when a claim can be provisioned for a node, in terms of its class |
| PodVolumes.SortBySize | general_purpose_scheduler/k8s.io/kubernetes/pkg/controller/volume/scheduling/scheduler_binder.go:864-877 | the same claims by increasing request |
| PodVolumes.ListPVs | general_purpose_scheduler/k8s.io/kubernetes/pkg/controller/volume/scheduling/scheduler_assume_cache.go:391-407 | exactly the latest objects of the class |
| PodVolumes.SplitSelected | general_purpose_scheduler/k8s.io/kubernetes/pkg/controller/volume/scheduling/scheduler_binder.go:281-293 | the claims with a selected node and those without, in order; absent if one has another node |
| PodVolumes.Match | general_purpose_scheduler/k8s.io/kubernetes/pkg/controller/volume/scheduling/scheduler_binder.go:761-799 | the matching of the sorted claims against what the volume cache lists for each |
| PodVolumes.PlanDelayed | general_purpose_scheduler/k8s.io/kubernetes/pkg/controller/volume/scheduling/scheduler_binder.go:274-312 | the outcome, the matched and the provisioned claims of the search are those of the split, the matching and the check of the rest |
| PodVolumes.PlanIsOk | general_purpose_scheduler/k8s.io/kubernetes/pkg/controller/volume/scheduling/scheduler_binder.go:200-315 | without conflict each delayed claim is matched or to be provisioned, in all as often as it is listed, no volume serves two, and each is free, large enough, of the right mode and reachable |
| PodVolumes.PlanOnceIff | general_purpose_scheduler/k8s.io/kubernetes/pkg/controller/volume/scheduling/scheduler_binder.go:200-315 | such a plan serves each claim once if and only if the delayed claims are listed once |
| PodVolumes.PlanIsMaximum | general_purpose_scheduler/k8s.io/kubernetes/pkg/controller/volume/scheduling/scheduler_binder.go:761-799 | the plan matches as many plain claims as any assignment of volumes of the cache |
| VolumeBinders.VolumeBinder.FindPodVolumes | general_purpose_scheduler/k8s.io/kubernetes/pkg/controller/volume/scheduling/scheduler_binder.go:200-315 | errors and verdicts are those of the search; what is looked up for the pod and the node afterwards are its matched and its provisioned claims, each absent exactly if empty, and every other pod and node looks up as before |
| VolumeBinders.FoundPlanOk | general_purpose_scheduler/k8s.io/kubernetes/pkg/controller/volume/scheduling/scheduler_binder.go:200-315 | without conflict the remembered plan holds each delayed claim that the volumes of the pod name, as often as they name it: every claim is served once if and only if no two volumes name one delayed claim |
| VolumeCases.ClaimTakesTwoVolumes | general_purpose_scheduler/k8s.io/kubernetes/pkg/controller/volume/scheduling/scheduler_binder.go:694-726 | a pod with two volumes on one delayed claim: the search succeeds and gives the claim two volumes |
| VolumeCases.ClaimIsMatchedAndProvisioned | general_purpose_scheduler/k8s.io/kubernetes/pkg/controller/volume/scheduling/scheduler_binder.go:694-726 | the same pod with one free volume: the claim is matched and also to be provisioned |
| VolumeBinders.VolumeBinder.AssumePodVolumes | general_purpose_scheduler/k8s.io/kubernetes/pkg/controller/volume/scheduling/scheduler_binder.go:322-393 | outcome and new state in terms of how many planned objects can be assumed in turn: all of them means success and they are assumed; else those before the first that cannot be are restored and the decisions are left alone |
| VolumeBinders.FailureLeavesNoTraceIff | general_purpose_scheduler/k8s.io/kubernetes/pkg/controller/volume/scheduling/scheduler_binder.go:842-852 | a failure leaves both caches as they were if and only if none of the objects before the first that cannot be assumed had an assumption |
| VolumeCases.FailureLosesAssumption | general_purpose_scheduler/k8s.io/kubernetes/pkg/controller/volume/scheduling/scheduler_binder.go:842-852 | a failed call that takes back the assumption of another pod on the same volume |
| VolumeBinders.PlanAssumedExactly | general_purpose_scheduler/k8s.io/kubernetes/pkg/controller/volume/scheduling/scheduler_binder.go:344-368 | success leaves exactly the planned volume assumed under each planned name |
| VolumeBinders.UnplannedStays | general_purpose_scheduler/k8s.io/kubernetes/pkg/controller/volume/scheduling/scheduler_binder.go:344-368 | and all other names as they were |
| VolumeBinders.ClaimsAssumedExactly | general_purpose_scheduler/k8s.io/kubernetes/pkg/controller/volume/scheduling/scheduler_binder.go:370-385 | under each planned claim name exactly the claim with the selected node is assumed, the last one listed if the name is listed twice |
| VolumeBinders.UnplannedClaimStays | general_purpose_scheduler/k8s.io/kubernetes/pkg/controller/volume/scheduling/scheduler_binder.go:370-385 | and all other claims stay as they were |
| VolumeBinders.VolumeBinder.BindAPIUpdate | general_purpose_scheduler/k8s.io/kubernetes/pkg/controller/volume/scheduling/scheduler_binder.go:439-498 | whichever write fails, exactly the objects not yet written are restored, and the decision holds those written; success restores nothing |
| VolumeBinders.RolledBackExactly | general_purpose_scheduler/k8s.io/kubernetes/pkg/controller/volume/scheduling/scheduler_binder.go:439-498 | name by name: an unwritten volume has its API object, every other what it had |
| VolumeBinders.ClaimsRolledBackExactly | general_purpose_scheduler/k8s.io/kubernetes/pkg/controller/volume/scheduling/scheduler_binder.go:848-852 | name by name: an unwritten claim has its API object, every other what it had |
| VolumeBinders.WrittenStayIff | general_purpose_scheduler/k8s.io/kubernetes/pkg/controller/volume/scheduling/scheduler_binder.go:439-498 | what was written stays assumed if and only if no claim with an assumption is listed both among those written and among the others |
| VolumeCases.WrittenClaimIsRestored | general_purpose_scheduler/k8s.io/kubernetes/pkg/controller/volume/scheduling/scheduler_binder.go:842-852 | a claim that two volumes name is assumed twice and written once, the second write fails, and the assumption of the written claim is taken back |
| VolumeBinders.FoundClaimsAgree | general_purpose_scheduler/k8s.io/kubernetes/pkg/controller/volume/scheduling/scheduler_binder.go:200-315 | the claims that a found plan provisions are objects of the cache, so two of one name are one object |
| VolumeBinders.ReachesAllIff | general_purpose_scheduler/k8s.io/kubernetes/pkg/controller/volume/scheduling/scheduler_binder.go:322-393 | for a plan with distinct volumes and one object per claim name, all objects can be assumed if and only if each is in its cache with a version that is not lower |
| VolumeBinders.FoundPlanAssumable | general_purpose_scheduler/k8s.io/kubernetes/pkg/controller/volume/scheduling/scheduler_binder.go:322-393 | a plan that was found is assumed in full if the caches have not changed and versions parse |
| VolumeBinders.FindThenAssume | general_purpose_scheduler/k8s.io/kubernetes/pkg/controller/volume/scheduling/scheduler_binder.go:200-393 | a search without conflict and then the assumption of what it remembered: unless all claims are bound already all of it is assumed, each matched volume refers to its claim, each claim to provision has the node, and the decision holds the objects in the caches |
| VolumeBinders.AssumedDecision | general_purpose_scheduler/k8s.io/kubernetes/pkg/controller/volume/scheduling/scheduler_binder.go:344-389 | the decision after a success: each claim with its volume, which refers to it, and each claim to provision with the node |
| VolumeBinders.WrittenDecision | general_purpose_scheduler/k8s.io/kubernetes/pkg/controller/volume/scheduling/scheduler_binder.go:439-498 | the decision after the writes: the objects the server returned for what was written, the others as they were |
| VolumeBinders.VolumeBinder.ArePodVolumesBound | general_purpose_scheduler/k8s.io/kubernetes/pkg/controller/volume/scheduling/scheduler_binder.go:682-690 | all claims are known and fully bound |
| VolumeBinders.VolumeBinder.RevertAssumedPVs | general_purpose_scheduler/k8s.io/kubernetes/pkg/controller/volume/scheduling/scheduler_binder.go:842-846 | every listed volume is restored |
| VolumeBinders.VolumeBinder.RevertAssumedPVCs | general_purpose_scheduler/k8s.io/kubernetes/pkg/controller/volume/scheduling/scheduler_binder.go:848-852 | every listed claim is restored |
| VolumeAssumptions.BindVolumeOk | general_purpose_scheduler/k8s.io/kubernetes/pkg/controller/volume/persistentvolume/util/util.go:115-149 | the new volume refers to the claim and is marked as bound by the controller unless it was bound to it before, is dirty exactly if it differs, and binding it again changes nothing |
| VolumeAssumptions.PVsTakenBack | general_purpose_scheduler/k8s.io/kubernetes/pkg/controller/volume/scheduling/scheduler_binder.go:842-846 | restoring the names of a plan undoes any part of it that was assumed |
| VolumeAssumptions.RestoredAllIff | general_purpose_scheduler/k8s.io/kubernetes/pkg/controller/volume/scheduling/scheduler_assume_cache.go:327-339 | restoring names changes nothing if and only if none has an assumption |
| AssumeCaches.AssumeCache.Add | general_purpose_scheduler/k8s.io/kubernetes/pkg/controller/volume/scheduling/scheduler_assume_cache.go:152-193 | an object of an unknown name, or with a larger version than the latest one, becomes the latest and the API object; any other changes nothing |
| AssumeCaches.AssumeCache.Assume | general_purpose_scheduler/k8s.io/kubernetes/pkg/controller/volume/scheduling/scheduler_assume_cache.go:293-325 | the same, and success exactly if the version is not below the latest one |
| AssumeCaches.AssumeCache.Restore | general_purpose_scheduler/k8s.io/kubernetes/pkg/controller/volume/scheduling/scheduler_assume_cache.go:327-339 | the latest object becomes the API object |
| AssumeCaches.AssumeCache.Delete | general_purpose_scheduler/k8s.io/kubernetes/pkg/controller/volume/scheduling/scheduler_assume_cache.go:199-218 | the name leaves the store |
| AssumeCaches.AddStores | general_purpose_scheduler/k8s.io/kubernetes/pkg/controller/volume/scheduling/scheduler_assume_cache.go:152-193 | what an addition leaves under its name and under all others |
| AssumeCaches.OthersLeave | general_purpose_scheduler/k8s.io/kubernetes/pkg/controller/volume/scheduling/scheduler_assume_cache.go:199-339 | what deletion, assumption and restoring leave under every name |
| AssumeCaches.StoredIff | general_purpose_scheduler/k8s.io/kubernetes/pkg/controller/volume/scheduling/scheduler_assume_cache.go:152-218 | in every run a name has an entry if and only if it was added and not deleted since |
| AssumeCaches.ApiObjectIsLast | general_purpose_scheduler/k8s.io/kubernetes/pkg/controller/volume/scheduling/scheduler_assume_cache.go:152-218 | in every run the API object is that of the last addition that was newer than the latest object at its time, since the last deletion |
| AssumeCaches.LatestIsLast | general_purpose_scheduler/k8s.io/kubernetes/pkg/controller/volume/scheduling/scheduler_assume_cache.go:152-339 | and the latest object that of the last addition in effect or the last assumption, or the API object after a restore |
| AssumeCaches.RunStoreOk | general_purpose_scheduler/k8s.io/kubernetes/pkg/controller/volume/scheduling/scheduler_assume_cache.go:152-339 | in every run the latest object is the API object or has no lower version |
| AssumeCaches.LatestNeverSinks | general_purpose_scheduler/k8s.io/kubernetes/pkg/controller/volume/scheduling/scheduler_assume_cache.go:152-325 | no operation but a restore of the name lowers the version of the latest object |
| AssumeCaches.RestoreUndoesIff | general_purpose_scheduler/k8s.io/kubernetes/pkg/controller/volume/scheduling/scheduler_assume_cache.go:293-339 | restoring undoes an assumption if and only if there was none before |
| AssumeCaches.RestoredAllAt | general_purpose_scheduler/k8s.io/kubernetes/pkg/controller/volume/scheduling/scheduler_assume_cache.go:327-339 | restoring a list of names restores these and no others |
| BindingCaches.PodBindingCache.UpdateBindings | general_purpose_scheduler/k8s.io/kubernetes/pkg/controller/volume/scheduling/scheduler_binder_cache.go:101-123 | the decision for the pod and the node is replaced |
| BindingCaches.PodBindingCache.ClearBindings | general_purpose_scheduler/k8s.io/kubernetes/pkg/controller/volume/scheduling/scheduler_binder_cache.go:157-167 | the decision is deleted |
| BindingCaches.PodBindingCache.DeleteBindings | general_purpose_scheduler/k8s.io/kubernetes/pkg/controller/volume/scheduling/scheduler_binder_cache.go:89-99 | all decisions for the pod are deleted |
| BindingCaches.PodBindingCache.GetBindings | general_purpose_scheduler/k8s.io/kubernetes/pkg/controller/volume/scheduling/scheduler_binder_cache.go:125-139 | the bindings of the decision, or none |
| BindingCaches.PodBindingCache.GetProvisionedPVCs | general_purpose_scheduler/k8s.io/kubernetes/pkg/controller/volume/scheduling/scheduler_binder_cache.go:141-155 | the claims to provision of the decision, or none |
| BindingCaches.LookupUpdated | general_purpose_scheduler/k8s.io/kubernetes/pkg/controller/volume/scheduling/scheduler_binder_cache.go:101-155 | an update is read back, and every other pod and node reads as before |
| BindingCaches.LookupCleared | general_purpose_scheduler/k8s.io/kubernetes/pkg/controller/volume/scheduling/scheduler_binder_cache.go:125-167 | a cleared decision reads as none, and every other as before |
| AffinityTerms.GetAffinityTerms | general_purpose_scheduler/framework/plugins/interpodaffinity/filtering.go:178-193 | all terms with their namespaces, or an error if one selector does not convert |
| AffinityTerms.MatchesIffSelects | general_purpose_scheduler/scheduler/util/topologies.go:28-49 | a processed term matches a pod if and only if the pod is in a namespace that the term names, or in that of the owner if it names none, and its labels meet the selector |
| AffinityFilter.UpdateWithAffinityTerms | general_purpose_scheduler/framework/plugins/interpodaffinity/filtering.go:134-148 | the counters of the pairs of all terms move if the pod matches all of them |
| AffinityFilter.UpdateWithAntiAffinityTerms | general_purpose_scheduler/framework/plugins/interpodaffinity/filtering.go:152-167 | the counter of the pair of each term the pod matches moves |
| AffinityFilter.PairsOfExistingPod | general_purpose_scheduler/framework/plugins/interpodaffinity/filtering.go:452-473 | the pairs at which an existing pod repels the incoming one |
| AffinityFilter.GetTPMapMatchingExistingAntiAffinity | general_purpose_scheduler/framework/plugins/interpodaffinity/filtering.go:211-249 | the tally of these pairs over all listed nodes, or an error |
| AffinityFilter.GetTPMapMatchingIncoming | general_purpose_scheduler/framework/plugins/interpodaffinity/filtering.go:255-309 | both tallies for the terms of the incoming pod over all nodes, or an error |
| AffinityFilter.PreFilter | general_purpose_scheduler/framework/plugins/interpodaffinity/filtering.go:329-360 | the three tallies, or an error |
| AffinityFilter.Filter | general_purpose_scheduler/framework/plugins/interpodaffinity/filtering.go:515-547 | the verdict in terms of the counters |
| AffinityFilter.SatisfiesExisting | general_purpose_scheduler/framework/plugins/interpodaffinity/filtering.go:403-416 | no label of the node has a positive counter |
| AffinityFilter.NodeMatchesAll | general_purpose_scheduler/framework/plugins/interpodaffinity/filtering.go:419-432 | every term has a positive counter on the node |
| AffinityFilter.NodeMatchesAny | general_purpose_scheduler/framework/plugins/interpodaffinity/filtering.go:436-447 | some term has a positive counter on the node |
| AffinityRefinement.RepelledIff | general_purpose_scheduler/framework/plugins/interpodaffinity/filtering.go:211-249 | the counters repel the pod from a node if and only if a pod placed anywhere has an anti-affinity term that matches it in the same topology |
| AffinityRefinement.AttractedIff | general_purpose_scheduler/framework/plugins/interpodaffinity/filtering.go:255-309 | the counter of a term is positive on a node if and only if a pod placed in the same topology matches all terms |
| AffinityRefinement.FirstOfSeriesIff | general_purpose_scheduler/framework/plugins/interpodaffinity/filtering.go:486-499 | the affinity tally is empty if and only if no pod placed on a node with a topology key matches the terms |
| AffinityRefinement.AntiAffinityIff | general_purpose_scheduler/framework/plugins/interpodaffinity/filtering.go:501-508 | some anti-affinity counter is positive on a node if and only if a matching pod is placed in the same topology |
| AffinityRefinement.FilterIsBruteForce | general_purpose_scheduler/framework/plugins/interpodaffinity/filtering.go:403-547 | the verdict from the counters equals the definition over all pods on all nodes and all terms as they stand in the pods, with the exception for the first pod of a series |
| AffinityRefinement.PreFilterErrorIff | general_purpose_scheduler/framework/plugins/interpodaffinity/filtering.go:329-360 | PreFilter fails if and only if a selector of the pod, or an anti-affinity selector of a placed pod, does not convert |
| AffinityUpdates.UpdateWithPod | general_purpose_scheduler/framework/plugins/interpodaffinity/filtering.go:74-109 | the three counters move by the pairs of the pod, and nothing moves on an error |
| AffinityUpdates.PreFilterClean | general_purpose_scheduler/framework/plugins/interpodaffinity/filtering.go:134-167 | no counter of a PreFilter state is zero |
| AffinityUpdates.UpdateUndone | general_purpose_scheduler/framework/plugins/interpodaffinity/filtering.go:74-109 | an update with the opposite sign restores the state |
| AffinityUpdates.PreFilterOverAll | general_purpose_scheduler/framework/plugins/interpodaffinity/filtering.go:329-360 | it makes no difference that existing pods are only looked up on nodes that have pods with affinity |
| AffinityUpdates.UpdateIsRecomputeIff | general_purpose_scheduler/framework/plugins/interpodaffinity/filtering.go:74-109 | adding a pod to the state equals recomputing it with the pod present if and only if the pod names a node, or has no pair with the terms of the incoming pod, and none of its terms is read with the wrong default namespace |
| AffinityUpdates.RunClean | general_purpose_scheduler/framework/plugins/interpodaffinity/filtering.go:74-109 | so after any run of updates with either sign |
| AffinityRemovals.RemovalIsRecomputeIff | general_purpose_scheduler/framework/plugins/interpodaffinity/filtering.go:74-109 | taking a held pod out of the state equals recomputing it without the pod under the same condition |
| AffinityRemovals.RunIsRecompute | general_purpose_scheduler/framework/plugins/interpodaffinity/filtering.go:74-109 | over any run of pods placed and taken that update right the incremental state is the recomputed one |
| AffinityRefinement.ReadingsAgreeIff | general_purpose_scheduler/framework/plugins/interpodaffinity/filtering.go:490-497 | the exception for the first pod of a series means that no pod matches, as explained there, if and only if no pod matches or one that does is on a node with a topology key of the terms |
| AffinityCases.MatchPassedOver | general_purpose_scheduler/framework/plugins/interpodaffinity/filtering.go:490-497 | a matching pod on a node without the key, which takes the incoming pod all the same |
| AffinityCases.UpdateBlocksNode | general_purpose_scheduler/framework/plugins/interpodaffinity/filtering.go:80-86 | a pod of another namespace whose term names none: the updated state blocks a node that a recomputed one lets pass |
| AffinityRuns.SnapshotAgrees | general_purpose_scheduler/internal/cache/cache.go:278-301 | the lists of a snapshot that equals the cache hold the same entries and, on the second, exactly those with affinity pods |
| AffinityRuns.EveryVerdictIsBruteForce | general_purpose_scheduler/framework/plugins/interpodaffinity/filtering.go:329-547 | in every orderly run, after each snapshot, the verdict from the counters equals the definition over all pods on all nodes |
| Counters.BumpBack | general_purpose_scheduler/framework/plugins/interpodaffinity/filtering.go:134-167 | counting up and down again gives the same map, keys included |
| Counters.OrderIrrelevant | general_purpose_scheduler/framework/plugins/interpodaffinity/filtering.go:134-167 | the order of the counted pairs does not matter |
| Counters.MergeTally | general_purpose_scheduler/framework/plugins/interpodaffinity/filtering.go:120-124 | merging the map of a node equals counting its pairs |
| Counters.Append | general_purpose_scheduler/framework/plugins/interpodaffinity/filtering.go:120-124 | the loop merges the maps, whatever the order of the entries |
| AffinityScoring.ProcessTerms | general_purpose_scheduler/framework/plugins/interpodaffinity/scoring.go:80-105 | the map records one entry more for each matching term with a topology value |
| AffinityScoring.ProcessExistingPod | general_purpose_scheduler/framework/plugins/interpodaffinity/scoring.go:120-177 | the map records the entries of both directions for the pod, or there is an error |
| AffinityScoring.MergeNodes | general_purpose_scheduler/framework/plugins/interpodaffinity/scoring.go:235-268 | merging the maps of the nodes records the entries of all of them |
| AffinityScoring.PreScore | general_purpose_scheduler/framework/plugins/interpodaffinity/scoring.go:180-268 | nothing is written exactly if the terms of the pod do not convert; else the written map records the entries of the processed nodes, or a pod is unreadable |
| AffinityScoring.NothingWithoutAffinity | general_purpose_scheduler/framework/plugins/interpodaffinity/scoring.go:120-177 | two pods without affinity score nothing |
| AffinityScoring.SoftIsWorth | general_purpose_scheduler/framework/plugins/interpodaffinity/scoring.go:55-78 | the processed soft terms are worth what the terms in the pod are, each with its own weight, namespaces, selector and key |
| AffinityScoring.HardIsWorth | general_purpose_scheduler/framework/plugins/interpodaffinity/scoring.go:145-153 | the same for hard terms with the configured weight |
| AffinityScoring.PodReadableIff | general_purpose_scheduler/framework/plugins/interpodaffinity/scoring.go:140-175 | an existing pod is an error if and only if a hard affinity selector that counts does not convert, or a soft anti-affinity one while its soft affinity ones do |
| AffinityScoring.AllReadableIff | general_purpose_scheduler/framework/plugins/interpodaffinity/scoring.go:235-268 | there is an error if and only if one of the pods processed is one |
| AffinityScoring.SliceIsEnough | general_purpose_scheduler/framework/plugins/interpodaffinity/scoring.go:240-247 | skipping pods without affinity does not change the score of a node if the incoming pod has none |
| AffinityScoring.ListIsEnough | general_purpose_scheduler/framework/plugins/interpodaffinity/scoring.go:199-210 | nor does skipping nodes without such pods |
| AffinityScoring.ScoreIsBruteForce | general_purpose_scheduler/framework/plugins/interpodaffinity/scoring.go:286-305 | the score from any merged record equals the signed sum, over all pods whose node shares the topology value, of the weights that the terms have in the pods themselves |
| AffinityRuns.EveryScoreIsBruteForce | general_purpose_scheduler/framework/plugins/interpodaffinity/scoring.go:180-305 | in every orderly run, after each snapshot, the score from any record of the processed entries equals the sum over all pods |
| Scores.PutHolds | general_purpose_scheduler/framework/plugins/interpodaffinity/scoring.go:80-99 | adding a weight adds one entry to the record |
| Scores.MergedHolds | general_purpose_scheduler/framework/plugins/interpodaffinity/scoring.go:107-118 | merging two maps merges their records |
| Scores.Score | general_purpose_scheduler/framework/plugins/interpodaffinity/scoring.go:286-305 | the loop over the map sums the entries whose pair is on the labels |
| Scores.OrderIrrelevant | general_purpose_scheduler/framework/plugins/interpodaffinity/scoring.go:107-118 | maps that record the same entries in any order agree |
| ShortJobs.ShortJobScheduler.Schedule | short_job_scheduler/scheduler.go:71-100 | the first suitable node behind the previous one around the circle; none leaves the cursor where it was; an index beyond the list panics |
| ShortJobs.LoadsEven | short_job_scheduler/scheduler.go:71-100 | in the order in which these calls take the nodes, no node is ever two jobs ahead of another |
| ShortJobs.ScheduleEach | short_job_scheduler/scheduler.go:71-100 | k calls with every node suitable take the nodes in turn, and no node is ever given two jobs more than another |

## Left out

- Locks and goroutines: every method of a cache, and every call of PreScore, is one atomic step; the parallel loops of PreFilter and PreScore are run in list order, and `Counters.OrderIrrelevant` and `Scores.OrderIrrelevant` say that the order does not matter.
- 64-bit overflow, except in the backoff, where it decides, and in the reading of reservations.
- The list item holds the value of its NodeInfo: `CacheEntries` overwrites it where the code calls methods of the NodeInfo object, and the methods themselves are proved in `NodeInfos.NodeInfo` against the same functions.
- The head of the list is kept in an object of its own, together with the list as a sequence for specification.
- `FullSnapshots.CreateNodeInfoMap`: builds a map of entry values where the code fills a map of pointers; nothing else points to them yet.
- FilterOutPods, ListPods, Dump, GetNodeInfo, GetPod, IsAssumedPod and the metrics of the cache: they only read.
- Image states and TransientInfo: the counts of images on other nodes are stale by design between node updates, and the transient part is reset only under a gate that is off.
- GetZoneKey: the zone of a node is a field; how it is put together from labels is not modelled.
- PreFilter and PreScore in `AffinityFilter` and `AffinityScoring` read the two node lists as arguments; the errors of the lister are not modelled. `AffinityRuns` takes them from the snapshot of a run.
- NormalizeScore and the plugins that score with floating point, and the reduction of plugin scores.
- Gt and Lt requirements of node selectors, and match fields of volume node affinity.
- GetBindVolumeToClaim: the error of making an object reference, which depends on the scheme, is not modelled.
- CSI translation of volumes, checkBindings and BindPodVolumes: they wait for other components; bindAPIUpdate takes the answers of the API server as arguments.
- Versions that do not parse are an absent version; the errors of Assume are one failure, since its callers do not tell them apart.
- `PodVolumes.SortBySize`: sorts by insertion where the code calls the sort of the library; which order equal requests come in does not matter to the theorems.
- Deciding which pod to preempt (getPodToPreempt), the preemption itself and the node autoscaler: they compare against allocatable amounts, or vote.
- Message queues, HTTP, configuration, informers and the Kubernetes client.
- `ShortJobs.ShortJobScheduler.Schedule`: takes the suitability of the nodes in name order; checkNode and checkTaints are not modelled.
