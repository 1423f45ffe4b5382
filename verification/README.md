# Verification of the Humio operator's decision logic

A model in Dafny of the decisions the Humio operator takes for a HumioCluster and for a HumioAlert, with proofs about
single decisions and about whole runs. `dafny verify dfyconfig.toml` checks everything.

What is modelled, file by file:

- `Maintenance.dfy` - what one maintenance pass over a node pool decides, and the runs that passes, pod creation, the
  kubelet, failing status writes and the ungated status writes make up. A pass deletes its pods one call at a time, and
  pods may change between two calls. `Availability.dfy`, `Exclusion.dfy`, `Zones.dfy` and `Revisions.dfy` hold the
  safety of these runs, `Deletions.dfy` ties each delete call to the pass that decided it, and `Progress.dfy` and
  `Completion.dfy` prove that maintenance comes to an end. `Reconcile.dfy` is the same pass as the operator writes it,
  with loops and failing calls, proved to take only steps of those runs.
- `PodsStatus.dfy`, `PodComparison.dfy`, `PodLifecycle.dfy`, `ClusterStatus.dfy` - the parts a pass is made of.
- `PodSanitizer.dfy`, `PodHasher.dfy`, `ManagedFields.dfy` - canonical form, hash and tracking of operator-managed
  fields, which decide whether a pod restarts.
- `PodCreation.dfy` - making new pods: volume claims, certificate names, hash; `NodeCertificates.dfy` - the certificates
  they take; `OwnPods.dfy` - what is special about pods the operator made itself.
- `Downscaling.dfy` - the eviction protocol, one step per remote call, with a crash possible after each;
  `DownscalingController.dfy` - the operator's code for it; `ZoneBalance.dfy` - which zone loses a pod; `Surplus.dfy` -
  what happens when other pods are terminating.
- `AlertFinalizer.dfy` - the finalizer protocol of an alert.
- `ScheduledSearch.dfy` - conversion between the two API versions of a scheduled search.
- `Kube.dfy`, `NodePool.dfy`, `Ordering.dfy`, `Seqs.dfy`, `Decimal.dfy` - objects, settings, sorting, lists, numbers.

Where the code falls short of a promise, the model follows the code, and what breaks the promise, and exactly when, is
proved:

- The wait for other pods applies in the cluster states Restarting and Upgrading only; in Pending a rolling restart
  deletes without looking (`Availability.PromiseIsExact`).
- The writes that skip the maintenance check can put a second pool into maintenance
  (`Exclusion.UngatedStepBreaksExclusion`, `Exclusion.UngatedStepExclusive`).
- A restart of all pods at the same time is meant for changes of EXTERNAL_URL, but no pod that the operator made ever
  asks for one (`OwnPods.OwnPodsRollExactly`). A foreign pod of the pool may ask, by not having the variable, and is
  overruled when a later pod's configuration changes without asking (`PodLifecycles.SimultaneousRestartOverruled`,
  `PodLifecycles.SimultaneousExactly`).
- A changed EXTERNAL_URL value is never noticed (`PodHasher.ExternalUrlIsNotHashed`,
  `PodComparisons.ExternalUrlMismatch`).
- The test for an injected volume has its arguments swapped, so a real injected volume is not normalised
  (`PodSanitizer.InjectedVolumesStay`); and the test for a data volume without a claim compares an address with a value,
  so every data volume is normalised (`PodSanitizer.SanitizeCanonical`).
- An operator upgrade that changes the default image restarts pods although the image is a managed field; that is by
  design, and nothing else in such an upgrade does (`ManagedFields.UpgradeRestartsForImageOnly`).
- Terminating pods count as surplus, so the last live pod may be evicted while another one is still leaving
  (`Surplus.LastLivePodIsEvicted`, `Surplus.FlagLeavesEnoughExactly`).
- Changing the view or the cluster of an alert orphans it (`AlertFinalizer.ViewEditLeavesOrphan`,
  `AlertFinalizer.EditOrphansExactly`), and an alert resource without labels is updated in every reconcile
  (`AlertFinalizer.AsExpectedExactly`).
- Times of 2^63 seconds and more wrap in the time parser and are lost or misread (`ScheduledSearch.WrappedProductIsLost`,
  `ScheduledSearch.WrappedProductIsMisread`, `ScheduledSearch.KeepsMeaningExactly`), and the configured requeue period is
  never used (`ClusterStatuses.StateHidesRequeuePeriod`).

## Model

| member | source | states |
|---|---|---|
| `Availability.AvailabilityOverRuns` | internal/controller/humiocluster_controller.go:2114-2147 | Over every run of passes, deletions call by call, pod creation, pod changes and pod losses, with pods failing at any time: the available pods plus those that failed so far never number fewer than the wanted pods less the allowed unavailable ones, if every pass is guarded |
| `Availability.GuardedDeletion` | internal/controller/humiocluster_controller.go:1973-2147 | A guarded pass deletes an available pod only when every listed pod is available and none is missing; otherwise only evicted, orphaned or broken pods |
| `Availability.PromiseIsExact` | internal/controller/humiocluster_controller.go:2114-2147 | For each cluster state: every rolling pass in it keeps that promise if and only if the state is not Pending (nor the state of a cluster never written), since the wait applies in Restarting and Upgrading only; the failing states come with a concrete pass |
| `Availability.WitnessBreaksPromise` | internal/controller/humiocluster_controller.go:2116 | The concrete pass: in Pending, with one of two pods missing, the only available pod is deleted |
| `Availability.RollingStrategyIsGuarded` | internal/controller/humiocluster_pod_lifecycle.go:42-77 | With the rolling strategy, a pass is guarded if and only if the cluster state is not Pending (nor never written) and, when a difference is found during a restart or upgrade, the last change of version is between known versions and the last change of configuration does not add or remove EXTERNAL_URL |
| `Availability.NoBatchOutsideMaintenance` | internal/controller/humiocluster_controller.go:1990-2008 | A pass over a Running or ConfigError cluster never deletes a batch: a difference starts maintenance first |
| `Exclusion.EntersExactly` | internal/controller/humiocluster_controller.go:1990-2008 | Maintenance is entered if and only if the cluster is Running or ConfigError and some considered live pod calls for a restart; as an upgrade if and only if some such pod runs another humio image, and as a restart otherwise |
| `Decisions.DecidesInOrder` | internal/controller/humiocluster_controller.go:1990-2147 | For every pass, which decision is taken, told from pods, annotations and status entry: entering, finishing, giving up for want of the bootstrap token, saving a revision, cleaning up, turning to a zone, deleting; the first that applies decides, and exactly then |
| `Decisions.DeletesExactly` | internal/controller/humiocluster_controller.go:2114-2147 | A pass that gets as far as deleting does nothing without a pod to restart or under OnDelete, waits exactly when pods are outstanding during a rolling restart or upgrade, and otherwise deletes from the front of the list as many pods as the maximum leaves after those still waiting for their minimum ready time |
| `Decisions.ReplacesExactly` | internal/controller/humiocluster_pods.go:722-810 | Which pods are to be replaced, told from the pods: live, calling for a restart, and in the pinned zone if there is one and the zone counts |
| `Decisions.DecisionContents` | internal/controller/humiocluster_controller.go:2023-2097 | A saved revision carries the two hashes of the desired pod, clean-up takes the first pod of its list, and the pinned zone is that of the first pod with another revision or hash on a worker node with a known zone |
| `Decisions.StoresExactly` | internal/controller/humiocluster_controller.go:1990-2112 | The whole entry that each decision stores |
| `Decisions.CarriesOnExactly` | internal/controller/humiocluster_controller.go:2114-2165 | The reconcile goes on to the next pool if and only if the pass waits, or deletes or finds nothing to do outside an upgrade of all pods at once |
| `Availability.DeletesListedPods` | internal/controller/humiocluster_controller.go:2063-2147 | Every deleted pod is a listed one that is not terminating, their number is within the scaled maximum, and clean-up takes unavailable pods only |
| `Availability.StartDeleting` | internal/controller/humiocluster_controller.go:2133-2147 | When a pass starts to delete, the available pods it will not delete are all the available ones, or at least the wanted number less the maximum |
| `Exclusion.ExclusionOverRuns` | internal/controller/humiocluster_controller.go:205-212 | Over runs of gated steps: at most one pool is in maintenance, the cluster is in the state of that pool and Running exactly when there is none, and a batch is decided only for the pool in maintenance, which is still the one in maintenance at every later moment of the deletion loop |
| `Exclusion.DeleteCallsInMaintenance` | internal/controller/humiocluster_controller.go:2133-2147 | In such runs every delete call was decided by an earlier pass, and when that pass decided a batch, the pod belongs to the one pool in maintenance at the time of the call |
| `Deletions.DeletionsAreDecided` | internal/controller/humiocluster_controller.go:2133-2147 | Over runs of any steps, whatever is being deleted was decided by one earlier pass over the same pool, and the status has not been written since |
| `Exclusion.ExclusiveOverRuns` | internal/controller/humiocluster_controller.go:205-273 | Over runs of any steps, cluster-wide error states included: at most one pool is in maintenance as long as every ungated write finds no other pool there, or writes Running |
| `Exclusion.UngatedStepExclusive` | internal/controller/humiocluster_controller.go:247-273 | The steps that skip the maintenance check (service account annotations, Pending and ConfigError writes) keep the exclusion if and only if they write Running or no other pool is in maintenance |
| `Decisions.UngatedWritesExactly` | internal/controller/humiocluster_controller.go:247-273 | What each write that skips the maintenance check stores: changed service account annotations the cluster state, no zone and the next revision if they call for a restart, the others Pending, never during a restart or upgrade, or ConfigError, with the rest of the entry kept |
| `Exclusion.UngatedStepBreaksExclusion` | internal/controller/humiocluster_controller.go:247-261 | A concrete state and step: one pool is restarting, the service account annotations of another one change, and a second pool is in maintenance |
| `Exclusion.AllowedAlone` | internal/controller/humiocluster_controller.go:431-455 | The maintenance check admits a pool only when no other pool is in maintenance |
| `Exclusion.AllowedIsInMaintenance` | internal/controller/humiocluster_controller.go:431-455 | While the cluster is not Running, the admitted pool is the one in maintenance and its state is that of the cluster |
| `Exclusion.WriteExclusive` | internal/controller/humiocluster_status.go:190-217 | Writing a pool's entry keeps the exclusion if and only if the entry is Running or its pool is alone |
| `Exclusion.ZoneDecisionsNeedAnEntry` | internal/controller/humiocluster_controller.go:2041-2112 | A zone is pinned or cleared only for a pool that has a status entry, so its unset state is never written |
| `Exclusion.FinishCertifies` | internal/controller/humiocluster_controller.go:2010-2021 | When a pass finishes maintenance, exactly nodeCount pods are listed and each is ready, not terminating, of the desired revision and without a critical mismatch |
| `Exclusion.RunningIsCertified` | internal/controller/humiocluster_controller.go:2010-2021 | Over runs of gated steps a pool leaves maintenance only by such a finishing pass |
| `Zones.ZoneByZone` | internal/controller/humiocluster_controller.go:2076-2112 | From pinning a zone until clearing it, over any run: the zone and the revision stay the same, and every pod that a clean zone-aware pass sets out to delete lies in that zone |
| `Zones.DeleteCallsInZone` | internal/controller/humiocluster_controller.go:2076-2147 | At each delete call such a pass decided, the pin and the revision still stand, and the pod of that name lay in the pinned zone |
| `Zones.PinIsClearedInBetween` | internal/controller/humiocluster_controller.go:2076-2112 | Over any run the pin never moves from one zone to another without being cleared in between |
| `Zones.ClearedOnce` | internal/controller/humiocluster_controller.go:2098-2112 | A zone that was cleared is not pinned again under the same revision, and holds no stale pod, if no stale pod is scheduled into it afterwards |
| `Zones.DeletesInPinnedZone` | internal/controller/humiocluster_pods.go:782-806 | A clean zone-aware pass deletes pods of the pinned zone only |
| `Zones.ZoneDecisionsFollowStalePods` | internal/controller/humiocluster_controller.go:2079-2111 | A zone is pinned only for a stale pod in it, and cleared only when no listed pod in it, terminating ones included, has an outdated revision or hash |
| `Zones.StepZone` | internal/controller/humiocluster_controller.go:2036-2112 | Every step, gated or not, keeps the pinned zone, clears it, or starts from none; a new revision clears it |
| `Revisions.RevisionsOverRuns` | internal/controller/humiocluster_controller.go:2036-2061 | Between any two states of a run of any steps: the revision never falls, grows by at most one a step, and equal revisions mean equal pod and bootstrap token hashes |
| `Revisions.StepRevision` | internal/controller/humiocluster_controller.go:247-261 | Only a pass that saves new hashes, or changed service account annotations, start a new revision; every other step keeps revision and hashes |
| `Completion.FinishIsReached` | internal/controller/humiocluster_controller.go:1952-2165 | Maintenance ends: in a run that keeps to the settings, whatever else pods do, if more passes whose writes succeed are made over the wanted number of settled pods than there was to do at the start and delete calls were given up, some pass finishes maintenance |
| `Progress.BoundedWork` | internal/controller/humiocluster_controller.go:1952-2165 | In a run that keeps to the settings and has not finished, the passes that pin or clear a zone or delete a non-empty batch number at most what was left to do at its start and the delete calls given up since, less what is left now, counted from obsolete, not yet deleted and not yet scheduled pods and the zone |
| `Progress.StepRank` | internal/controller/humiocluster_controller.go:1952-2165 | No step adds to what is left to do except by the delete calls it gives up, a pass that does something takes from it, and the stored settings stay in force |
| `Progress.BatchRank` | internal/controller/humiocluster_controller.go:2133-2147 | Setting out to delete a non-empty batch takes something away |
| `Progress.EndRank` | internal/controller/humiocluster_controller.go:2133-2147 | Giving a batch up half way leaves at most as many more pods to do as it still names |
| `Progress.KubeletRank` | internal/controller/humiocluster_controller.go:2076-2112 | A stale pod that is scheduled late adds at most the pin of its zone, which is paid for by its being scheduled |
| `Progress.BatchIsObsolete` | internal/controller/humiocluster_pods.go:734-806 | Every pod of a batch is listed, live, and differs from the desired pod in a critical annotation or the image |
| `Progress.OthersStayOut` | internal/controller/humiocluster_controller.go:431-455 | While the pool is being restarted or upgraded, no other pool is let in |
| `Completion.CalmPassDecides` | internal/controller/humiocluster_controller.go:2010-2147 | Over the wanted number of settled pods a pass finishes maintenance, pins or clears a zone, or deletes a non-empty batch, whatever the pinned zone and the strategy, OnDelete excepted |
| `Completion.CalmStatusOf` | internal/controller/humiocluster_pod_status.go:79-193 | Such pods are all counted as ready, none as waiting, broken or to be cleaned up, and at least one pod may be deleted |
| `Completion.SomethingReplaceable` | internal/controller/humiocluster_pods.go:782-806 | When neither a pin nor a clear is due and some pod is outdated, the zone restriction allows some outdated pod |
| `Completion.NewPodsAreLeftAlone` | internal/controller/humiocluster_controller.go:2114-2147 | A pod that is made from the settings under a certificate that is up to date is in no later batch of the pool, over any run that keeps to them |
| `Completion.CreationKeepsTo` | internal/controller/humiocluster_controller.go:2197-2234 | What the part of a reconcile that creates pods leaves behind is a step that keeps to the settings, if the certificates taken have names the operator gives |
| `Progress.MadeIsUpToDate` | internal/controller/humiocluster_pods.go:648-671 | A pod made from the settings under a certificate that is up to date matches the desired pod in every critical annotation and the image |
| `Maintenance.WrittenEntry` | internal/controller/humiocluster_controller.go:1990-2112 | Which parts of a pool's entry each decision keeps: only saving a revision changes revision and hashes, only pinning leaves a zone set |
| `Maintenance.WriteIsStatusOption` | internal/controller/humiocluster_status.go:190-217 | The write of a pass is what the status option for a node pool does to the stored status |
| `Maintenance.MaintainWrites` | internal/controller/humiocluster_controller.go:1952-2165 | A pass leaves the entries alone or replaces the entry of its own pool |
| `Maintenance.FirstZone` | internal/controller/humiocluster_controller.go:2085-2097 | The zone to pin is a non-empty zone of a stale pod in the list |
| `Reconcile.HumioClusterReconciler.EnsureMismatchedPodsAreDeleted` | internal/controller/humiocluster_controller.go:1952-2165 | One pass, whatever fails in it: the entry it decided on is stored or not, or a prefix of the pods it decided on got their delete call, and nothing else changes; if nothing failed, all of the decision was carried out, and whether the reconcile goes on is up to the decision alone; failure is reported only when a call went wrong or nothing could be decided; if the reconcile goes on, no entry was written |
| `Reconcile.HumioClusterReconciler.DecideNext` | internal/controller/humiocluster_controller.go:1990-2147 | The branches in their order compute the decision that the maintenance properties are proved about |
| `Reconcile.HumioClusterReconciler.DeletePods` | internal/controller/humiocluster_controller.go:2133-2147 | The deletion loop marks the victims one after the other, and stops early only at a failed call |
| `Reconcile.HumioClusterReconciler.MaintainPools` | internal/controller/humiocluster_controller.go:205-212 | The loop over the pools is a run of maintenance steps, since settings made once stay current until the first pass that writes, which ends the loop; if nothing fails and it reaches its end, every admitted pool has had exactly the deletions of its own pass and all other pods are as before; without a call going wrong it fails only for an admitted pool whose pass cannot decide, and ends early only at one whose pass does not carry on |
| `Reconcile.HumioClusterReconciler.CarryOut` | internal/controller/humiocluster_controller.go:1990-2165 | Stores the entry of the decision, or deletes its pods in order, and falls short of that only when a call went wrong; otherwise the reconcile goes on exactly after a wait, or after deletions that are not those of an upgrade at once |
| `Reconcile.CarryingOutIsARun` | internal/controller/humiocluster_controller.go:1952-2165 | Whatever a pass manages to carry out before it fails is a run of maintenance steps |
| `Reconcile.DeleteAllAt` | internal/controller/humiocluster_controller.go:2133-2147 | After the delete calls a pod is terminating if it was before or its name was given, and nothing else about it changed |
| `Reconcile.DecideZone` | internal/controller/humiocluster_controller.go:2076-2112 | The zone branch with its filters: pins the zone of the first stale pod with a known zone, clears when the filtered list is empty |
| `Reconcile.FilterPodsExcludePodsWithPodRevisionOrPodHash` | internal/controller/humiocluster_pods.go:1032-1046 | Keeps exactly the pods without the given revision and hash, in order |
| `Reconcile.FilterPodsByZoneName` | internal/controller/humiocluster_pods.go:1018-1030 | Keeps exactly the pods in the zone, in order |
| `Reconcile.CurrentlyConfiguredNodePoolsInMaintenance` | internal/controller/humiocluster_controller.go:445-455 | Lists exactly the configured pools that have an entry that is not Running |
| `Reconcile.NodePoolAllowsMaintenanceOperations` | internal/controller/humiocluster_controller.go:431-442 | Admits a pool when none is in maintenance or it is itself |
| `PodsStatuses.GetPodsStatus` | internal/controller/humiocluster_pod_status.go:79-178 | The counting loop over the sorted listing computes the status function, and gives up exactly on an unreadable revision, a failed claim check or a malformed maximum |
| `PodsStatuses.ListingOrder` | internal/controller/humiocluster_pod_status.go:90-92 | The comparator of the sort is a strict weak order, the listing comes out in ascending order of names, and when names are unique it does not depend on the order in which the API server answers |
| `PodsStatuses.Accounting` | internal/controller/humiocluster_pod_status.go:79-193 | Ready and not ready pods add up to the listing; the ready count is the number of pods that count as ready; the budget lies between zero and the scaled maximum, which is at least one; error and clean-up entries are listed, live, unavailable pods |
| `PodsStatuses.StatusExactly` | internal/controller/humiocluster_pod_status.go:79-178 | Exactly the broken pods of the listing are error entries: live, not evicted, and unschedulable, or not counted by their Ready condition while a container waits for another reason than being created or ended otherwise than completed; exactly the live pods that are evicted or pending with an orphaned claim that may be deleted are cleaned up |
| `PodsStatuses.ErrorEntriesExactly` | internal/controller/humiocluster_pod_status.go:127-170 | A pod is an error entry of the tally if and only if it is listed and broken |
| `PodsStatuses.ReadyExactly` | internal/controller/humiocluster_pod_status.go:141-170 | A pod counts as ready if and only if it is live, not evicted, has a true Ready condition and no wait left; it is held against the deletion budget if and only if a wait is left |
| `PodsStatuses.MaximumExactly` | internal/controller/humiocluster_pod_status.go:93-101 | An absolute maximum is taken as it is, a percentage is the largest whole number of pods within that share of the node count, and either is at least one |
| `PodsStatuses.UnreadableExactly` | internal/controller/humiocluster_pod_status.go:79-125 | There is no status if and only if the maximum is malformed, or some pod has an unreadable revision or, live and pending, a claim that cannot be checked |
| `PodsStatuses.MinReadyWindow` | internal/controller/humiocluster_pod_status.go:222-247 | A pod with a known transition time has waited long enough exactly when more than the minimum less one second has passed, and no wait exceeds 300 seconds |
| `PodsStatuses.TerminatingAndEvictedNeverReady` | internal/controller/humiocluster_pod_status.go:115-160 | Terminating and evicted pods never count as ready, and a pod that counts has no wait left |
| `PodsStatuses.PodTallyMeaning` | internal/controller/humiocluster_pod_status.go:110-170 | One pod counts at most once, only when available, and an available pod leaves no error entry |
| `PodsStatuses.RemainingMinReadyWaitTime` | internal/controller/humiocluster_pod_status.go:222-247 | The filter and comparison compute the remaining wait from the latest transition to ready |
| `PodsStatuses.LatestTransitionTime` | internal/controller/humiocluster_pod_status.go:249-263 | The loop finds the latest transition to ready |
| `PodsStatuses.LatestTransition` | internal/controller/humiocluster_pod_status.go:249-263 | The latest transition bounds every transition to ready and, when not zero, is one of them |
| `PodsStatuses.LatestOfFiltered` | internal/controller/humiocluster_pod_status.go:222-232 | Filtering for ready conditions first does not change the latest transition |
| `PodsStatuses.AddPod` | internal/controller/humiocluster_pod_status.go:103-172 | One turn of the loop adds the tally of one pod |
| `PodsStatuses.TallyConditions` | internal/controller/humiocluster_pod_status.go:127-170 | The loop over the conditions computes the tally of a pod |
| `PodsStatuses.PodsStatus.PodRevisionCountMatchesNodeCountAndAllPodsHaveRevision` | internal/controller/humiocluster_pod_status.go:197-212 | The counting loop answers whether there are nodeCount revisions, all equal to the desired one |
| `PodComparisons.PodComparison.constructor` | internal/controller/humiocluster_pod_compare.go:49-76 | Building the comparison finding by finding gives the comparison function |
| `PodComparisons.PodComparison.SetDoesNotMatch` | internal/controller/humiocluster_pod_compare.go:163-171 | A later warning never replaces a critical finding |
| `PodComparisons.PodComparison.ProcessAnnotations` | internal/controller/humiocluster_pod_compare.go:173-195 | Collects the differing annotations in order; critical if one of the critical ones differs, else a warning for the managed hash |
| `PodComparisons.CriticalLeavesTrace` | internal/controller/humiocluster_pod_compare.go:49-112 | The severity is critical exactly when a critical annotation or the image differs, a critical finding leaves a listed annotation or a version mismatch, and there is no mismatch exactly when nothing differs |
| `PodComparisons.SeverityExactly` | internal/controller/humiocluster_pod_compare.go:49-112 | The severity is critical if and only if the humio image differs or the bootstrap token hash, pod hash, pod revision, variable source hash or certificate hash does, each by name; a warning is left for the managed fields hash alone |
| `PodComparisons.EnvMismatchesExactly` | internal/controller/humiocluster_pod_compare.go:114-138 | A variable is a mismatch if and only if it is missing on one side or its first values differ after sanitizing |
| `PodComparisons.MismatchedNames` | internal/controller/humiocluster_pod_compare.go:114-138 | The two map loops collect exactly the names missing on one side or with different first values |
| `PodComparisons.ExternalUrlMismatch` | internal/controller/humiocluster_pod_compare.go:114-138 | EXTERNAL_URL counts as changed if and only if exactly one of the pods has it, because sanitizing normalises its value |
| `PodLifecycles.GetPodDesiredLifecycleState` | internal/controller/humiocluster_pods.go:722-810 | The comparison loop computes the lifecycle function, and fails exactly when a live pod cannot be compared |
| `PodLifecycles.ReplacedPods` | internal/controller/humiocluster_pods.go:782-806 | The pods to be replaced are exactly the outdated live pods that the zone restriction allows, in order |
| `PodLifecycles.DifferenceMeansOutdated` | internal/controller/humiocluster_pods.go:734-769 | A difference is found if and only if some live pod is outdated |
| `PodLifecycles.DifferenceByName` | internal/controller/humiocluster_pods.go:734-769 | A difference is found if and only if some live comparable pod has another image, token hash, pod hash, revision, variable source hash or certificate hash than the desired pod |
| `PodLifecycles.VersionDifferenceByImage` | internal/controller/humiocluster_pods.go:734-769 | A version difference is found if and only if some live comparable pod runs another humio image |
| `PodLifecycles.LastPodDecides` | internal/controller/humiocluster_pods.go:758-780 | The recorded differences are those of the last pod that has one, not of any pod |
| `PodLifecycles.RollsExactly` | internal/controller/humiocluster_pod_lifecycle.go:42-77 | For every strategy and any pods, a restart rolls if and only if the last change of version is between known versions, the last change of configuration does not add or remove EXTERNAL_URL, and the strategy rolls (best effort: only a version change within one minor version) |
| `PodLifecycles.SimultaneousExactly` | internal/controller/humiocluster_pods.go:758-780 | When some outdated pod asks for a simultaneous restart and nothing else keeps the restart from rolling, it is simultaneous if and only if the last pod whose configuration changes asks for it too |
| `PodLifecycles.SimultaneousRestartOverruled` | internal/controller/humiocluster_pods.go:758-780 | Two concrete pods, one without EXTERNAL_URL and so not made by this operator: it asks for a simultaneous restart, the other one only has another hash, and the restart rolls |
| `OwnPods.OwnPodsRollExactly` | internal/controller/humiocluster_defaults.go:420-511 | Among pods the operator made itself nobody asks for a simultaneous restart, whatever is changed: whether a restart rolls is up to the strategy and the versions alone |
| `OwnPods.OnlyForeignPodsAsk` | internal/controller/humiocluster_defaults.go:464-467 | Against the operator's desired pod exactly the pods without EXTERNAL_URL ask for a simultaneous restart, and no pod of the operator is without it |
| `OwnPods.OwnPodsAreGuarded` | internal/controller/humiocluster_pod_lifecycle.go:42-77 | With the rolling strategy and the operator's own pods, a pass is guarded if and only if the cluster is not Pending (nor never written) and it does not replace pods of an unknown version |
| `OwnPods.BlueprintPodsAreOwn` | internal/controller/humiocluster_pods.go:116-146 | Every pod made from a blueprint with such an environment is one of the operator's own, and so is the desired pod |
| `ClusterStatuses.ClusterResource.UpdateStatus` | internal/controller/humiocluster_status.go:291-317 | The retry loop applies the options once to the stored status or not at all, however many conflicts occur; it gives up only when a call fails or after five conflicts; a write that is reported as failed may have done either; the first option that asks for a requeue decides |
| `ClusterStatuses.PutPoolEntries` | internal/controller/humiocluster_status.go:190-217 | Writing an entry changes that pool's entry and no other |
| `ClusterStatuses.PutPoolDistinct` | internal/controller/humiocluster_status.go:190-217 | Entries stay one per pool |
| `ClusterStatuses.StateHidesRequeuePeriod` | internal/controller/humiocluster_status.go:219-231 | A state option in front of the configured requeue period hides it, so the configured period is never used |
| `ClusterStatuses.RequeuePeriods` | internal/controller/humiocluster_status.go:219-231 | One second while restarting, upgrading or pending, ten after a configuration error, otherwise the configured period or fifteen seconds; no other option asks for a requeue |
| `ClusterStatuses.OptionsExactly` | internal/controller/humiocluster_status.go:181-285 | Each option changes its own field of the status and no other |
| `NodePools.NodePool.StrategyDefaults` | internal/controller/humiocluster_defaults.go:926-952 | What a missing update strategy and its missing fields stand for |
| `PodSanitizer.PodObject.SanitizePod` | internal/controller/humiocluster_pods.go:537-646 | Rewriting and sorting the pod in place gives the canonical form |
| `PodSanitizer.SanitizeIdempotent` | internal/controller/humiocluster_pods.go:537-646 | Sanitizing twice is sanitizing once |
| `PodSanitizer.SanitizeCanonical` | internal/controller/humiocluster_pods.go:537-646 | Two specs with distinct names per container sanitize to the same form if and only if they differ only in variable order, node name, hostname, the source of the data volume, secret names and the other normalised fields, the value of EXTERNAL_URL, and volumes whose names are prefixes of kube-api-access- |
| `PodSanitizer.CanonicalValues` | internal/controller/humiocluster_pods.go:537-646 | The values the canonical form puts in for host name and EXTERNAL_URL; every other variable is kept, and variables come in descending order of names |
| `PodSanitizer.InjectedVolumesStay` | internal/controller/humiocluster_pods.go:596-605 | A volume the API server injects (kube-api-access- and a suffix) is left as it is, and has the same form as itself only |
| `PodSanitizer.CanonicalVars` | internal/controller/humiocluster_pods.go:537-646 | Rewritten and sorted variables are equal if and only if the same rewritten variables occur |
| `PodHasher.HashDecides` | internal/controller/humiocluster_pod_hasher.go:45-99 | Two specs have the same hash without managed fields if and only if they agree on everything but tracked variables' values, tracked images and what sanitizing normalises |
| `PodHasher.UnmanagedChangeChangesHash` | internal/controller/humiocluster_pod_hasher.go:45-85 | Losing or changing one variable that is not managed changes the hash, except for EXTERNAL_URL of the humio container |
| `PodHasher.ImageChangeChangesHash` | internal/controller/humiocluster_pod_hasher.go:45-85 | Another image changes the hash if and only if the operator does not manage the image of that container |
| `PodHasher.IdentityIsNotHashed` | internal/controller/humiocluster_pods.go:564-612 | Specs that differ only in hostname, data claim and secret names have the same hash |
| `PodHasher.ExternalUrlIsNotHashed` | internal/controller/humiocluster_pods.go:537-646 | Changing the value of a user's EXTERNAL_URL never changes the hash |
| `PodHasher.PodHashMinusManagedFields` | internal/controller/humiocluster_pod_hasher.go:32-99 | The nested loops that blank fields by index compute the hash function |
| `PodHasher.BlankManagedFields` | internal/controller/humiocluster_pod_hasher.go:45-85 | Blanking by index blanks exactly the tracked images and variables |
| `PodHasher.BlankedByNames` | internal/controller/humiocluster_pod_hasher.go:45-85 | Only the names on the tracker matter, not the values |
| `PodHasher.SortCommutes` | internal/controller/humiocluster_pod_hasher.go:45-85 | Blanking values before or after the sort is the same |
| `ManagedFields.TrackedExactly` | internal/controller/humiocluster_defaults.go:967-983 | A variable is tracked as operator-managed exactly when it was before, or it has a default and the user did not set it |
| `ManagedFields.CompletedExactly` | internal/controller/humiocluster_defaults.go:974-983 | The completed environment holds exactly the user's variables and the defaults the user did not set |
| `ManagedFields.UpgradeKeepsHash` | internal/controller/humiocluster_defaults.go:288-511 | Changing only default values and the default images of the humio container and of the init container changes no pod hash |
| `ManagedFields.UpgradeRestartsForImageOnly` | internal/controller/humiocluster_defaults.go:299-340 | After such an upgrade no critical annotation of a running pod differs from the desired one, so the pod restarts if and only if the default image of the humio container changed, and never for another helper image |
| `ManagedFields.TrackedNodePool.GetHelperImage` | internal/controller/humiocluster_defaults.go:319-343 | The user's image, else the source's, else the default, which is tracked among the init containers |
| `ManagedFields.TrackedNodePool.GetEnvironmentVariables` | internal/controller/humiocluster_defaults.go:420-511 | Offering the defaults one after the other completes the environment and tracks what was filled in |
| `ManagedFields.TrackedNodePool.AppendEnvVarToEnvVarsIfNotAlreadyPresent` | internal/controller/humiocluster_defaults.go:974-983 | Appends and tracks a default exactly when the name is missing |
| `ManagedFields.TrackedNodePool.GetImage` | internal/controller/humiocluster_defaults.go:288-313 | The user's image, else the source's, else the default, which is tracked |
| `ManagedFields.MergeContainerIntoPod` | internal/controller/humiocluster_defaults.go:1080-1123 | Merges into the first container of that name or appends |
| `ManagedFields.MergeEnvironmentVariables` | internal/controller/humiocluster_defaults.go:1125-1140 | Appends the variables whose names are missing, in order |
| `ManagedFields.MergeManages` | internal/controller/humiocluster_defaults.go:1080-1140 | Merging a container adds exactly its own names and image to what is managed |
| `ManagedFields.EnvDefaultsDistinct` | internal/controller/humiocluster_defaults.go:420-511 | The defaults never name a variable twice |
| `ManagedFields.EnvDefaultsSameOffer` | internal/controller/humiocluster_defaults.go:420-511 | Two settings offer the same variables if and only if both or neither use the root path |
| `ManagedFields.ExternalAddress` | internal/controller/humiocluster_defaults.go:464-467 | Unless the user sets it, EXTERNAL_URL is the pod's name in the headless service, with https exactly under TLS |
| `ManagedFields.PublicAddress` | internal/controller/humiocluster_defaults.go:482-502 | Unless the user sets it, PUBLIC_URL is the ingress, always with https, or else the pod with the scheme of TLS, and the path when it is not the root |
| `ManagedFields.MergeEnvVars` | internal/controller/humiocluster_controller.go:2948-2967 | The nested loops complete the pool's variables with the common ones |
| `ManagedFields.MergedEnvVarsExactly` | internal/controller/humiocluster_controller.go:2948-2967 | The pool's own variable wins and nothing is lost |
| `PodCreation.ApiServer.EnsurePodsExist` | internal/controller/humiocluster_controller.go:2197-2234 | However far a creation pass gets: old pods stay, new pods are fresh and made from the blueprint, have names and claims of their own and, with TLS, the name and hash of a certificate; on success there are exactly max(previous, nodeCount) pods; it stops short only when a call fails, claims or certificates run out, a random name is taken, or two kinds of data volume are asked for |
| `PodCreation.ApiServer.CreateForPool` | internal/controller/humiocluster_controller.go:224-290 | Certificates first, then pods: however far it gets, no pod it creates is obsolete, unless the pod takes a certificate under a name the operator does not give; it fails only when a call does or for a named shortage or conflict |
| `PodCreation.Blueprint.MadeObsoleteExactly` | internal/controller/humiocluster_pods.go:648-671 | A new pod matches the desired pod in hash, revision and image, whatever its name, claim and secrets, and is obsolete if and only if the certificate it takes has another hash than the desired one |
| `PodCreation.Blueprint.PodsHashAlike` | internal/controller/humiocluster_pods.go:91-114 | All pods made from one blueprint have the same hash |
| `PodCreation.DesiredPodForStatus` | internal/controller/humiocluster_pods.go:91-114 | The desired pod does not depend on the state of the pool or on the pinned zone |
| `NodeCertificates.CertificateStore.UpdateNodeCertificates` | internal/controller/humiocluster_tls.go:270-318 | Rewrites exactly the certificates under node names that have another hash and counts those with the pool's prefix; when it gives up, each certificate is as before or rewritten, and a call failed or a foreign name stands in the way |
| `NodeCertificates.CertificateStore.EnsureHumioNodeCertificates` | internal/controller/humiocluster_controller.go:1127-1155 | Every certificate under a node name has the desired hash and there are at least nodeCount with the pool's prefix, unless a call fails or a name is taken; in any case each is an old one or one of the operator |
| `NodeCertificates.OwnNamesAreNodeNames` | internal/controller/humiocluster_tls.go:201-210 | A name that the operator gives is made again from its last part, so its certificate is renewed |
| `PodCreation.ClaimsStayApart` | internal/controller/humiocluster_controller.go:2206-2221 | In no run of creation passes and other changes do two pods of a pool hold the same claim |
| `PodCreation.LeastUnusedClaim` | internal/controller/humiocluster_persistent_volumes.go:63-96 | The allocated claim is listed, unused and before every other unused claim in the order bound first, then name; allocation fails if and only if every listed claim is in use |
| `PodCreation.LeastIsBest` | internal/controller/humiocluster_persistent_volumes.go:79-96 | The allocated claim is unused, bound whenever any unused listed claim is bound, and before every other unused claim of the same binding by name |
| `PodCreation.FindNextAvailablePvc` | internal/controller/humiocluster_persistent_volumes.go:63-96 | Marks the claims of listed pods as used, sorts the list in place and returns its first unused claim: bound if any unused one is, and the first by name among those; none if and only if every listed claim is in use |
| `PodCreation.RecordClaims` | internal/controller/humiocluster_persistent_volumes.go:67-77 | The in-use set grows by exactly the data claims of the listed pods |
| `Ordering.StrLessExactly` | internal/controller/humiocluster_persistent_volumes.go:79-85 | The order on names used throughout: a proper prefix comes first, otherwise the first differing character decides |
| `PodCreation.FindPvcForPod` | internal/controller/humiocluster_persistent_volumes.go:46-61 | Returns a listed claim of the pod, and none only if it has none |
| `PodCreation.ApiServer.NextVolumeSource` | internal/controller/humiocluster_pods.go:901-913 | With claims enabled the data volume is an unused claim, bound if any unused one is, and the first by name among those, and it counts as used from then on; both kinds of data volume at once is an error; there is no other failure than that, a failed call, and every claim in use |
| `PodCreation.FindHumioNodeNameAndCertHash` | internal/controller/humiocluster_pods.go:846-899 | The first certificate with a JKS keystore whose name no new or existing pod has; none only if there is no such certificate |
| `PodCreation.ApiServer.NextName` | internal/controller/humiocluster_pods.go:846-899 | A random name without TLS, otherwise the name of a free certificate, and none only when a call fails or no certificate is free |
| `PodCreation.CreationIsAStep` | internal/controller/humiocluster_controller.go:2197-2234 | What a creation pass leaves behind is a creation step of the maintenance runs |
| `Downscaling.RunsAreSafe` | internal/controller/humiocluster_controller.go:2270-2357 | At every point of every run, wherever passes end or the operator crashes, with other pools using the shared list: a registered node of this pool whose pod downscaling deleted is on record, every id on record passed both checks, those of other pools in their own passes, at most one listed pod is flagged or labelled, and downscaling alone never leaves fewer than nodeCount pods |
| `Downscaling.RefreshMeansDrained` | internal/controller/humiocluster_controller.go:2472-2485 | Over every run, when the refreshed check of an id is passed, LogScale knows the node, has no data on it only, none of its data under-replicated, and no digest led by it |
| `Downscaling.CheapMeansDrained` | internal/controller/humiocluster_controller.go:2487-2509 | Over every run, the same three flags are down in the node list that the cheap check of an id was made on |
| `Downscaling.BothChecksBefore` | internal/controller/humiocluster_controller.go:2318-2349 | Over every run, before an id is put on record or a pod with it is deleted, both checks of that id were passed in the same pass, with the node known and all three flags down in what each check read |
| `Downscaling.DeletedPodWasChecked` | internal/controller/humiocluster_controller.go:2318-2349 | In particular every delete call of a pod follows, in its own pass, a refreshed check that found the pod's node known to LogScale with all three flags down |
| `Downscaling.RecordedUntilUnregistered` | internal/controller/humiocluster_controller.go:2402-2446 | LogScale is asked to drop a node only when its id is on record, passed both checks and was last seen not alive; an id leaves the record only when its node is no longer registered |
| `Downscaling.NobodyChosen` | internal/controller/humiocluster_controller.go:2278-2311 | When a flag is sent no pod of the pool is flagged or labelled |
| `Surplus.FlagLeavesEnoughExactly` | internal/controller/humiocluster_controller.go:2304-2310 | When a node is flagged, as many live pods as wanted are left if and only if the surplus covers the terminating pods as well as the evicted one; that is certain when no listed pod is terminating, and only then when there is one pod too many and a live one is chosen |
| `Surplus.LastLivePodIsEvicted` | internal/controller/humiocluster_controller.go:2304-2310 | A concrete run: a pool that wants one pod has a terminating and a live one, and the live one is evicted |
| `Downscaling.OperatorKeepsInv` | internal/controller/humiocluster_controller.go:2270-2603 | Every remote call of the operator keeps the invariant |
| `Downscaling.OutsideKeepsInv` | internal/controller/humiocluster_controller.go:2270-2603 | So does every step of pods and LogScale between two calls |
| `Downscaling.LabelOne` | internal/controller/humiocluster_controller.go:2574-2603 | Labelling the pod of a flagged node chooses no second pod |
| `Downscaling.DeleteRecord` | internal/controller/humiocluster_controller.go:2330-2342 | A pod is deleted only with its node's id on record |
| `Downscaling.DeleteCallExactly` | internal/controller/humiocluster_controller.go:2330-2342 | A delete call makes the pod of that name terminate and touches nothing else of the pool, LogScale or the record |
| `Downscaling.ForgetRecord` | internal/controller/humiocluster_controller.go:2410-2441 | Forgetting removes exactly that id, and its node is not registered |
| `DownscalingController.Downscaler.ProcessDownscaling` | internal/controller/humiocluster_controller.go:2270-2357 | A reconcile, with any call failing with or without effect and anything happening between calls, only takes steps of the protocol; it gives up only when a call fails or not every unmarked pod is on a worker node with a zone label; otherwise every recorded id was forgotten, refused or alive, one pod was flagged and labelled if more pods than wanted were unmarked and none marked, every marked pod whose node was found drained got its delete call and its node was attended to, and every other marked pod was still needed or a call failed |
| `DownscalingController.Downscaler.HandleUnmarkedEvictions` | internal/controller/humiocluster_controller.go:2373-2400 | After it every listed pod is labelled or known not to be flagged |
| `DownscalingController.Downscaler.UpdateEvictionStatus` | internal/controller/humiocluster_controller.go:2574-2603 | Labels the pod exactly when the node list shows the flag |
| `DownscalingController.Downscaler.MarkPodForEviction` | internal/controller/humiocluster_controller.go:2519-2572 | Unless a call fails, flags the node of one of the listed pods, once nothing else is chosen, and labels the pod unless a later read shows no flag; when all nodes have zone labels the pod lies in a zone with the most unmarked pods, and then only a failed call keeps it from being flagged |
| `DownscalingController.Downscaler.ProcessMarked` | internal/controller/humiocluster_controller.go:2314-2353 | Every marked pod found safe had its node found drained, got its delete call, and its node was attended to; any other was still needed by LogScale, or a call failed; says when the reconcile comes back |
| `DownscalingController.Downscaler.ProcessMarkedPod` | internal/controller/humiocluster_controller.go:2318-2349 | For one marked pod: record, delete, unregister, in that order, after both checks found its node drained; a pod that is left alone was still needed, or a call failed |
| `DownscalingController.Downscaler.CheckEvictionStatusForPod` | internal/controller/humiocluster_controller.go:2487-2509 | Says safe only after a refreshed check that found the node known with no data on it only, nothing under-replicated and no digest led, and not safe only when LogScale still needed the node or a call failed |
| `DownscalingController.Downscaler.UnregisterNode` | internal/controller/humiocluster_controller.go:2402-2446 | Unless a call fails: the id is forgotten, LogScale refused to drop its node, or the node was alive; every other id stays |
| `DownscalingController.Downscaler.IsEvictedNodeAlive` | internal/controller/humiocluster_controller.go:2457-2470 | Not alive exactly when the node list shows the node as not alive |
| `DownscalingController.MatchPodsToHosts` | internal/controller/humiocluster_controller.go:2616-2633 | Maps exactly the listed pods with an available node of their name, the last such node winning |
| `ZoneBalance.BalanceOverEvictions` | internal/controller/humiocluster_controller.go:2533-2569 | Over any number of evictions from a fullest zone the spread between zones stays at most the initial one, or one |
| `ZoneBalance.PickPod` | internal/controller/humiocluster_controller.go:2533-2545 | When all pods are scheduled on nodes with zone labels, the picked pod lies in a zone with the most unmarked pods |
| `ZoneBalance.GetZoneForPodRemoval` | internal/controller/humiocluster_controller.go:2646-2664 | The counting loop and the maximum give a fullest zone; an unlabelled node ends the count with the empty zone |
| `ZoneBalance.GetKeyWithHighestValue` | internal/controller/utils.go:24-42 | A key of the map whose value no other exceeds; none exactly for the empty map |
| `ZoneBalance.EvictionKeepsSpread` | internal/controller/humiocluster_controller.go:2646-2664 | One eviction from a fullest zone keeps the spread or brings it to one |
| `AlertFinalizer.NoOrphanOverRuns` | internal/controller/humioalert_controller.go:107-185 | Over any run, with failures after any call, a remote alert exists only while its resource exists with the finalizer, provided that edits do not move the key away from an alert or from one being added |
| `AlertFinalizer.EditOrphansExactly` | api/v1alpha1/humioalert_types.go:57-70 | An edit leaves an orphan at once if and only if it changes view or cluster while an alert exists under the old key |
| `AlertFinalizer.EditsKeepInvExactly` | api/v1alpha1/humioalert_types.go:57-70 | The invariant survives exactly the harmless edits |
| `AlertFinalizer.HarmfulEditOrphans` | internal/controller/humioalert_controller.go:107-185 | Every edit that is not harmless leads to an orphan, at once or by the next two calls of the reconcile that is under way |
| `AlertFinalizer.LabelsAfterFinalizer` | internal/controller/humioalert_controller.go:139-148 | The write that adds the finalizer drops an empty list of labels; apart from that it keeps what is sent to LogScale |
| `AlertFinalizer.ViewEditLeavesOrphan` | api/v1alpha1/humioalert_types.go:67-70 | A run from nothing in which changing the view leaves the old alert behind |
| `AlertFinalizer.StepKeepsInv` | internal/controller/humioalert_controller.go:107-185 | Every other step keeps the invariant |
| `AlertFinalizer.Converges` | internal/controller/humioalert_controller.go:107-185 | Without failures two reconciles settle any state: both sides gone, or the alert agrees with the resource |
| `AlertFinalizer.PassProgress` | internal/controller/humioalert_controller.go:107-185 | Each such reconcile lowers the measure until the state is settled, and keeps settled states settled |
| `AlertFinalizer.PassIsARun` | internal/controller/humioalert_controller.go:107-185 | Such a reconcile is a run of the protocol |
| `AlertFinalizer.AsExpectedExactly` | internal/controller/humioalert_controller.go:212-250 | The comparison accepts exactly the alerts that agree with the resource field by field, up to the order of labels and actions, and never a resource without labels |
| `AlertFinalizer.HumioAlert.AlertAlreadyAsExpected` | internal/controller/humioalert_controller.go:212-250 | Field by field, sorting the lists in place |
| `AlertFinalizer.HumioAlertReconciler.Reconcile` | internal/controller/humioalert_controller.go:107-185 | A reconcile, with any call failing and anything happening between calls, only takes steps of the protocol; unless it gives up it takes the step that its findings about resource and alert ask for, and it gives up only when a call fails or somebody else wrote the resource or removed the alert meanwhile |
| `ScheduledSearch.ParsePrint` | api/v1alpha1/humioscheduledsearch_types.go:240-310 | Parsing a printed non-negative count of seconds returns it |
| `ScheduledSearch.ParseAccepts` | api/v1alpha1/humioscheduledsearch_types.go:240-285 | Which texts are accepted: now, or digits and a known unit |
| `ScheduledSearch.UnitsExactly` | api/v1alpha1/humioscheduledsearch_types.go:269-285 | A minute is sixty seconds, an hour sixty minutes, a day 24 hours, a week seven days, a year 365 days, under each of their names, and nothing else is a unit |
| `ScheduledSearch.PrintsLargestUnit` | api/v1alpha1/humioscheduledsearch_types.go:288-310 | Whole days are printed in days, other whole hours in hours, other whole minutes in minutes, the rest in seconds, and nothing positive as now |
| `ScheduledSearch.BetaFields` | api/v1alpha1/humioscheduledsearch_types.go:114-166 | Start becomes interval and end becomes offset; the common fields are carried over one by one; of two bad texts the start is reported |
| `ScheduledSearch.AlphaFields` | api/v1alpha1/humioscheduledsearch_types.go:169-221 | Interval becomes start and offset end, with now for a missing offset; the common fields are carried over one by one |
| `ScheduledSearch.ParseTimeStringToSeconds` | api/v1alpha1/humioscheduledsearch_types.go:240-285 | The index loop computes the parse function, errors included |
| `ScheduledSearch.ParseSecondsToString` | api/v1alpha1/humioscheduledsearch_types.go:288-310 | The table search computes the print function |
| `ScheduledSearch.AlphaRoundTrip` | api/v1alpha1/humioscheduledsearch_types.go:114-221 | v1alpha1 to v1beta1 and back keeps every field but the two times; a time keeps its meaning if and only if that is below 2^63 seconds, and the seconds it was read as if and only if those are not negative |
| `ScheduledSearch.KeepsMeaningExactly` | api/v1alpha1/humioscheduledsearch_types.go:240-310 | A time text is read as what it means, and comes back as that from being read, printed and read again, if and only if its meaning is below 2^63 seconds |
| `ScheduledSearch.ProductSurvivesExactly` | api/v1alpha1/humioscheduledsearch_types.go:240-310 | A number with a unit is read as their product, and survives the round trip as it, if and only if the product is below 2^63 |
| `ScheduledSearch.WrappedProductIsLost` | api/v1alpha1/humioscheduledsearch_types.go:275-285 | The largest count of minutes wraps to minus one minute and comes back as now |
| `ScheduledSearch.WrappedProductIsMisread` | api/v1alpha1/humioscheduledsearch_types.go:275-285 | 307445734561825861 minutes are read as 44 seconds, which then come back unnoticed |
| `ScheduledSearch.AlphaStable` | api/v1alpha1/humioscheduledsearch_types.go:114-221 | One trip reaches a fixed point |
| `ScheduledSearch.BetaRoundTrip` | api/v1alpha1/humioscheduledsearch_types.go:114-221 | Which v1beta1 specs return unchanged via v1alpha1, both directions |
| `ScheduledSearch.AlphaSearch.ConvertTo` | api/v1alpha1/humioscheduledsearch_types.go:114-166 | Assigning field by field gives the conversion but for the maximum wait, which keeps its old value; on a bad time string the two times keep theirs |
| `ScheduledSearch.AlphaSearch.ConvertFrom` | api/v1alpha1/humioscheduledsearch_types.go:169-221 | Assigning field by field gives the conversion back |

## Left out

Assumptions about the surroundings, all visible as guards of steps or as `requires`:

- List results are current; names of pods, claims and status entries are unique; a pod has at most one Ready condition,
  and a ready pod is neither pending, evicted, unschedulable nor broken (`PodsStatuses.WellFormed`).
- The desired pod of a pass is given: it has the humio container, a non-empty pod hash and the pool's revision
  (`Maintenance.ConstructedFor`). Pod construction beyond environment, images,
  hostname, volumes, annotations and hash is not modelled.
- The set of configured pools is fixed. Removal of the status entries of pools with no nodes is not modelled.
- The zone label of a worker node is a lookup that does not fail (an unknown node has the empty zone, as in the code).
- Only the operator sets eviction flags and labels; nobody else unregisters the node of an unmarked pod; node ids are
  not used again; every listed pod on a worker node matches an available LogScale node.
- No outside creator of alerts; the operator's finalizer is the only one on the resource; LogScale stores what is sent.

Not modelled:

- Kubernetes and GraphQL plumbing, logging, metrics, sleeps, and waiting for new objects to become visible.
- The contents of certificates, ingresses, services, config maps, disruption budgets, licences, bootstrap tokens,
  telemetry.
- The check for orphaned claims is an answer that comes with each pod; the filter for schedulable claims is not modelled.
- Image tags are parsed already: an image carries its version or the mark that it has none.
- JSON and SHA256 are an injective digest, so equal hashes mean equal contents.
- `sort.Slice` is a stable insertion sort; comparators are proved to be strict weak orders.
- Log-only fields of the pod status, object metadata of the scheduled-search conversion, and the pod list, licence and
  observed-generation strings of the cluster status.
- The branches for the test environment without worker nodes.
- The action controller and the other resource controllers, which repeat the alert protocol.

Contracts that say less than the code does:

- Reconcile.HumioClusterReconciler.MaintainPools: covers the maintenance loop only, and nobody else acts between two
  passes of it; the runs themselves allow it.
- PodCreation.ApiServer.EnsurePodsExist: the pods of other pools are a fixed set of taken names, and the wait until new
  pods are visible is left out.
- Downscaling.RunsAreSafe: that another pool records only ids it has checked is a guard of its steps.
- Completion.FinishIsReached: takes the settings as fixed, certificates as taken under names the operator gives, and a
  strategy other than OnDelete; passes whose status write fails do not count.
- ZoneBalance.BalanceOverEvictions: counts unmarked pods and lets no pod come or go between evictions.
- AlertFinalizer.Converges: takes reconciles without failures and without interference.
- Reconcile.HumioClusterReconciler.EnsureMismatchedPodsAreDeleted: requeue times are not part of the result.
- ScheduledSearch.AlphaSearch.ConvertTo: object metadata, the annotation that preserves the old spec, and the status are
  not modelled.
- ScheduledSearch.AlphaSearch.ConvertFrom: object metadata, that annotation and the status are not modelled.
