# Verified model of azure-operator

azure-operator reconciles Kubernetes clusters on Azure. Most of it moves data between two APIs; this project models
the parts that decide something over time, and proves what those decisions keep.

* **Node pool upgrades.** `NodePool.dfy` has one reconcile pass as a function of the world and of the replies of the
  APIs, `Drainer.dfy` the cordoning and draining of nodes, `NodePoolHandler.dfy` the handlers in their imperative
  form, proved equal to those functions. `NodePoolRuns.dfy` proves safety over all runs, `NodePoolLiveness.dfy`
  progress, and `NodePoolDecisions.dfy` says for all replies when each state is left and what a pass does.
* **Control plane upgrades.** `StatusStore.dfy` is the nested status list, `Masters.dfy` the pass,
  `MastersHandler.dfy` its imperative form, `MastersRuns.dfy` the theorems about runs, `MastersDecisions.dfy` when each
  stage is left, `Rollout.dfy` the comparison of releases that decides about outdated masters. `MainDeployment.dfy`
  is the other deployment gated by checksums, `Checksum.dfy` the checksum itself.
* **Addresses.** `Cidr.dfy` has blocks, their notation, and contracts for the three functions of the IPAM library;
  `Network.dfy` the split of a virtual network; `SubnetList.dfy` and `Ipam.dfy` the allocation of node pool subnets as
  a protocol under a lock; `Subnets.dfy` their reconciliation with Azure; `VNets.dfy` the collection of virtual
  networks.
* **Small algorithms.** `Text.dfy`, `Names.dfy`, `Labels.dfy`, `Normalize.dfy`, `CircuitBreaker.dfy`.

A call to Azure or Kubernetes is a read or write of the world that may fail; its outcome is a field of an `Env` value,
and theorems quantify over all of them. A handler that fails still names a next state, which nobody stores; for masters
the model names the empty one in every such case.

Some promises turn out to depend on a condition. The theorems state it exactly:

* Cordoning a cordoned node is an error that the handler does not tolerate: without API errors, a cordon pass succeeds
  exactly when no outdated node is unschedulable (`NodePoolLiveness.CordonIff`). A pass leaves the pool blocked exactly
  when one was, or when it cordons one and then a call for a later one fails or the next state is not saved
  (`Sticks`); every later pass, whatever the replies, then stays there until somebody else helps
  (`CordonConflictBlocks`).
* An instance that is deleted was cordoned and drained first, unless it became outdated only after the cordon pass
  (`NodePoolRuns.DrainBeforeDelete`); then it may not have been (`LateIsNotDrained`, a run).
* A scaling pass lowers the capacity exactly when it exceeds twice the outdated instances
  (`NodePoolRuns.ScalingLowersCapacityIff`), and it can (`CapacityDropExample`).
* A node pool recovers from an unknown state in one pass, masters never do (`NodePoolRuns.PersistedStateIsClosed`,
  `MastersRuns.PassMovesAlongEdges`).
* The masters rest exactly if an empty checksum never has to replace a stored one (`MastersRuns.Quiescence`); the
  checksums the repository computes are SHA-256 sums, which are never empty, so there the condition holds.
* A control plane whose masters all run its release rests exactly as long as that release is listed
  (`MastersDecisions.RestsIffListed`); once it is not, the control plane starts over for ever (`NeverRestsUnlisted`).
* The main deployment of a new cluster is always submitted twice, since its parameters change after the first
  submission (`MainDeployment.SubmittedTwice`); a missing one is submitted exactly when the stored checksums are not
  those of the first submission, so if it is lost right after that one, it never is (`MissingIsSubmittedIff`,
  `LostStaysLost`).
* The subnet handler deploys from the list that it read before. Ranges stay apart exactly as long as each range it
  deploys is in the network, disjoint from every range held under another name, and disjoint from the one about to be
  handed out (`Ipam.AddressSafety`, `DeploymentIsSafeIff`, `MayDeployMeans`); that is so for ranges their name still
  holds (`TimelyDeploymentsAreSafe`), and not for one whose pool was deleted in the meantime
  (`OutdatedDeploymentOverlaps`, a run).
* From a list with unique names, an allocation gives its pool a second entry exactly when the list can be read, a /24
  block is free, and the entry of the pool has no CIDR (`Ipam.EntryIsDoubledIff`, and `EntryWithoutRangeIsDoubled` for
  an example); the two removals of a subnet agree exactly when all entries between the first and the last of its name
  are the same (`SubnetList.RemovalsAgreeIff`).
* Subnets come to rest exactly when one name has one CIDR (`Subnets.CanRestIff`, `NeverRests`), and from any start
  exactly the stale subnets are submitted (`SubmittedIffStale`).
* A deployment is collected exactly when the same pass deletes its subnet and the deletion of the deployment does not
  fail (`Subnets.CollectedIff`). A pass makes an orphan of it exactly when the subnet is deleted and the deletion of the
  deployment fails (`PassOrphansIff`); an orphan stays for ever, and a pool with its name and CIDR is never submitted
  (`OrphanedDeploymentStays`).
* A new virtual network avoids a known one exactly unless that one is larger than the range of the installation and
  begins before it (`VNets.NewNetworkAvoidsKnownOnes`); then it can lie inside it (`EnclosingNetworkIsOverlapped`).
* Against the comment on the function, a DNS label may end in a dash and may hold decimal digits outside ASCII. It is
  valid or empty exactly when it was not cut behind a dash and holds no such digit (`Normalize.LabelIff`), and when
  nothing is cut, as with at most 63 characters, exactly when the input has no such digit (`ShortLabelIff`,
  `ShortInputIff`).

## Model

| member | source | states |
|---|---|---|
| `Drainer.EvictPods` | pkg/drainer/drainer.go:122-185 | the two loops send the evictions that the specification names and report its verdict |
| `Drainer.EvictionDiscipline` | pkg/drainer/drainer.go:122-185 | only listed, non-exempt pods are evicted; no system pod while another evictable pod exists; a drain is done exactly when the pods were listed and all are exempt; a pass in progress tried every pod of its class |
| `Drainer.OnePod` | pkg/drainer/key.go:10-37 | a pod keeps its node from being drained exactly unless it is of a daemon set, evicted already, or has one of four name prefixes; it is then asked to go |
| `Drainer.WorkloadCluster.CordonNode` | pkg/drainer/drainer.go:43-64 | a missing node is no error, nor one that vanishes before the patch; an already cordoned one is; otherwise the node becomes unschedulable |
| `Drainer.WorkloadCluster.DrainNode` | pkg/drainer/drainer.go:66-106 | start stamp, time limit and evictions of one node, all three parts of the new state |
| `Drainer.DrainStampAndFrame` | pkg/drainer/drainer.go:77-105 | a valid start is written once, in whole seconds; no other field or node changes; a drain in progress is within its time limit |
| `NodePool.AnnotationRoundTrip` | service/controller/azuremachinepool/handler/nodepool/status.go:13-69 | the persisted string and the state determine each other |
| `NodePoolRuns.CapacitySafety` | service/controller/azuremachinepool/handler/nodepool/create_scale_workers.go:127-155 | in every run an upgrade of k outdated out of n instances has between k and max(n, 2k) instances, loses no up-to-date one, and leaves exactly those, at least k |
| `NodePoolRuns.UpgradeInvariant` | service/controller/azuremachinepool/handler/nodepool/create.go:40-103 | what every state of an upgrade keeps, for all replies and quiet steps of the environment |
| `NodePoolRuns.GrowKeepsClassification` | service/controller/azuremachinepool/handler/nodepool/create_scale_workers.go:294-321 | scaling up adds only instances that are up to date and changes no classification |
| `NodePoolRuns.DeleteLeavesUpToDate` | service/controller/azuremachinepool/handler/nodepool/create_terminate_old_workers.go:36-67 | deleting the outdated ids leaves exactly the up-to-date instances, in order |
| `NodePoolRuns.ScalingLowersCapacityIff` | pkg/handler/nodes/scalestrategy/staircase.go:10-21 | a scaling pass lowers the capacity exactly when it exceeds twice the outdated instances; upwards it goes by at most five |
| `NodePoolRuns.CapacityDropExample` | service/controller/azuremachinepool/handler/nodepool/create_scale_workers.go:134-147 | a world and replies in which it does: capacity 5, one instance, outdated and succeeded |
| `NodePoolRuns.DrainBeforeDelete` | service/controller/azuremachinepool/handler/nodepool/drain_old_workers.go:44-91 | in every run of an on-demand pool, for each deleted instance an earlier pass cordoned its node or found none, and the drain pass after that found it absent, without evictable pod, or past 15 minutes; or else it became outdated only after the cordon pass |
| `NodePoolRuns.LateIsNotDrained` | service/controller/azuremachinepool/handler/nodepool/create_terminate_old_workers.go:36-67 | a run with good replies in which an instance that became outdated in the terminate state is deleted, neither cordoned nor drained |
| `NodePoolRuns.RunIsPrepared` | service/controller/azuremachinepool/handler/nodepool/drain_old_workers.go:44-91 | the invariant behind it: in the drain state each outdated instance was cordoned, in the terminate state drained after that, by passes of the run, or it became outdated late |
| `NodePoolRuns.PassPrepares` | service/controller/azuremachinepool/handler/nodepool/cordon_old_workers.go:43-75 | one pass, any handler and replies: it enters the drain state only with every outdated node secured, the terminate state only with every one done, and deletes only outdated instances in that state |
| `NodePoolRuns.HandlersMoveAlongEdges` | pkg/handler/nodes/state/funcs.go:9-27 | transitions name known states along the listed edges, and never write the annotation |
| `NodePoolRuns.PersistedStateIsClosed` | service/controller/azuremachinepool/handler/nodepool/create.go:40-103 | errors, conflicts and upgrading masters keep the state; an unknown state moves to ScaleUpWorkerVMSS in one pass that saves |
| `NodePoolRuns.RunStaysKnown` | service/controller/azuremachinepool/handler/nodepool/create.go:22-37 | once the state is known it stays known in every run |
| `NodePoolRuns.RollingIff` | service/controller/azuremachinepool/handler/nodepool/create_deployment_uninitialized.go:118-147 | nodes are rolled exactly when something other than scaling changed |
| `NodePoolLiveness.CordonIff` | service/controller/azuremachinepool/handler/nodepool/cordon_old_workers.go:43-75 | without API errors a cordon pass succeeds exactly when no outdated node is unschedulable yet |
| `NodePoolLiveness.CordonAllLoop` | service/controller/azuremachinepool/handler/nodepool/cordon_old_workers.go:61-75 | from nodes of which none is unschedulable, the loop fails exactly when the calls for some node fail, and leaves one unschedulable exactly when it cordons one before that |
| `NodePoolLiveness.CordonConflictBlocks` | service/controller/azuremachinepool/handler/nodepool/cordon_old_workers.go:65-75 | exactly which replies of a cordon pass leave an outdated node unschedulable in the cordon state; then every run with any replies stays there and deletes nothing, as long as some outdated node stays unschedulable |
| `NodePoolLiveness.DrainIff` | service/controller/azuremachinepool/handler/nodepool/drain_old_workers.go:65-90 | without API errors draining ends exactly when every outdated node is gone, empty or past 15 minutes, and leaves a start on all others |
| `NodePoolLiveness.Staircase` | pkg/handler/nodes/scalestrategy/staircase.go:10-21 | after i scaling passes there are min(n + 5i, max(n, 2k)) instances |
| `NodePoolLiveness.UpgradeTerminates` | service/controller/azuremachinepool/handler/nodepool/create.go:22-103 | without errors: exactly ceil(max(0, 2k - n) / 5) scaling passes, then wait, cordon, a bounded drain, two terminate passes, and the initial state without outdated instances |
| `NodePoolDecisions.VersionOrder` | service/controller/azuremachinepool/handler/nodepool/create_scale_workers.go:262-275 | versions are compared by major, then minor, then patch; the order is total |
| `NodePoolDecisions.OutdatedMeans` | service/controller/azuremachinepool/handler/nodepool/create_scale_workers.go:158-292 | which instances are outdated, by size, image, operator version, cgroup version and kubelet |
| `NodePoolDecisions.GateIff` | service/controller/azuremachinepool/handler/nodepool/create.go:105-146 | a pass does nothing as long as a master has another version or is not ready, or that cannot be told; otherwise even an unknown state is left |
| `NodePoolDecisions.SubmitsIff` | service/controller/azuremachinepool/handler/nodepool/create_deployment_uninitialized.go:117-202 | for all replies, one submission exactly when there is no deployment, the difference is not empty, a pool without autoscaling has another capacity, or the deployment failed or was canceled; nothing else changes |
| `NodePoolDecisions.RollsIff` | service/controller/azuremachinepool/handler/nodepool/create_deployment_uninitialized.go:117-164 | the pass goes on to scaling exactly when it submits over a deployment and something other than the capacity changed |
| `NodePoolDecisions.ScaleUpMoves` | service/controller/azuremachinepool/handler/nodepool/create_scale_workers.go:31-156 | for all replies, when the scaling state goes on to waiting, and when back |
| `NodePoolDecisions.ScalesIff` | service/controller/azuremachinepool/handler/nodepool/create_scale_workers.go:127-155 | for all replies, when a pass scales, and that the autoscaler is off from then on, also when scaling fails |
| `NodePoolDecisions.WaitMoves` | service/controller/azuremachinepool/handler/nodepool/create_wait_for_nodes_to_become_ready.go:18-99 | for all replies, an on-demand pool goes on to cordoning exactly when some node is a ready worker, a spot pool to termination; nothing else changes |
| `NodePoolDecisions.RollsOnlyWhenReady` | service/controller/azuremachinepool/handler/nodepool/create_wait_for_nodes_to_become_ready.go:47-66 | in every run of an on-demand pool nodes are cordoned, drained or deleted only after a pass that found a ready worker, without waiting again in between |
| `NodePoolDecisions.CordonMoves` | service/controller/azuremachinepool/handler/nodepool/cordon_old_workers.go:17-82 | for all replies, when the cordon state goes on to draining, and when to termination |
| `NodePoolDecisions.DrainMoves` | service/controller/azuremachinepool/handler/nodepool/drain_old_workers.go:18-97 | for all replies, draining ends exactly when every outdated node is gone, empty or past 15 minutes and its calls succeed |
| `NodePoolDecisions.DrainAsks` | service/controller/azuremachinepool/handler/nodepool/drain_old_workers.go:44-91 | with good replies a drain pass asks every pod whose turn it is on every outdated node within its time limit to go |
| `NodePoolDecisions.TerminateMoves` | service/controller/azuremachinepool/handler/nodepool/create_terminate_old_workers.go:15-103 | for all replies, which ids are deleted, when the state is left, and that the autoscaler is turned on exactly then |
| `NodePoolDecisions.DeleteNodesMeans` | service/controller/azuremachinepool/handler/nodepool/create_terminate_old_workers.go:69-90 | a spot pool deletes nodes in order up to the first that is missing or refused |
| `NodePoolDecisions.OnlyOutdatedAreTouched` | service/controller/azuremachinepool/handler/nodepool/create.go:40-103 | whatever state and replies, a pass cordons, stamps, evicts from and deletes only nodes of outdated instances |
| `NodePoolHandler.Handler.IsMasterUpgrading` | service/controller/azuremachinepool/handler/nodepool/create.go:105-146 | the search answers whether some master is outdated or not ready |
| `NodePoolHandler.Handler.IsWorkerInstanceFromPreviousRelease` | service/controller/azuremachinepool/handler/nodepool/create_scale_workers.go:239-292 | the three version tests; an instance without a node is not outdated |
| `NodePoolHandler.Handler.SplitInstancesByUpdatedStatus` | service/controller/azuremachinepool/handler/nodepool/create_scale_workers.go:158-216 | the loop splits the instances, in order, by version, size and image |
| `NodePoolHandler.Handler.InstancesAreRunning` | service/controller/internal/vmsscheck/vmss.go:19-48 | true exactly when every instance has succeeded |
| `NodePoolHandler.Handler.CountReadyNodes` | service/controller/azuremachinepool/handler/nodepool/create_wait_for_nodes_to_become_ready.go:69-85 | the number of ready workers |
| `NodePoolHandler.Handler.ScaleVMSS` | service/controller/azuremachinepool/handler/nodepool/create_scale_workers.go:294-321 | the capacity becomes the node count of the strategy, or nothing changes |
| `NodePoolHandler.Handler.ScaleUpWorkerVMSS` | service/controller/azuremachinepool/handler/nodepool/create_scale_workers.go:31-156 | does what NodePool.ScaleUp says |
| `NodePoolHandler.Handler.WaitForWorkersToBecomeReady` | service/controller/azuremachinepool/handler/nodepool/create_wait_for_nodes_to_become_ready.go:18-67 | does what NodePool.WaitForWorkers says |
| `NodePoolHandler.Handler.CordonOldWorkerInstances` | service/controller/azuremachinepool/handler/nodepool/cordon_old_workers.go:17-82 | does what NodePool.Cordon says |
| `NodePoolHandler.Handler.DrainOldWorkerInstances` | service/controller/azuremachinepool/handler/nodepool/drain_old_workers.go:18-97 | does what NodePool.Drain says |
| `NodePoolHandler.Handler.TerminateOldWorkers` | service/controller/azuremachinepool/handler/nodepool/create_terminate_old_workers.go:15-103 | does what NodePool.Terminate says |
| `NodePoolHandler.Handler.DeploymentUninitialized` | service/controller/azuremachinepool/handler/nodepool/create_deployment_uninitialized.go:23-207 | does what NodePool.Uninitialized says |
| `NodePoolHandler.Handler.EnsureCreated` | service/controller/azuremachinepool/handler/nodepool/create.go:40-103 | a pass of the handler is NodePool.EnsureCreated, about which the theorems are |
| `StatusStore.StatusHolder.GetResourceStatus` | pkg/handler/nodes/status.go:11-35 | finds the first status of the type, over nested and duplicate entries |
| `StatusStore.StatusHolder.SetResourceStatus` | pkg/handler/nodes/status.go:37-92 | the loop that rewrites entries gives the list that Set names, or nothing changes |
| `StatusStore.SetIsMapUpdate` | pkg/handler/nodes/status.go:53-82 | for any nesting and duplicates, setting updates the map from resource and type to status at one place |
| `StatusStore.LookupMeans` | pkg/handler/nodes/status.go:22-34 | the first resource of the name with a condition of the type decides |
| `StatusStore.SetKeepsOtherResources` | service/controller/azureconfig/handler/deployment/resource.go:401-431 | resources of other handlers keep place and conditions; at most one resource is added; those of the handler begin with the new condition and its time |
| `Masters.StageRoundTrip` | service/controller/azureconfig/handler/masters/create.go:14-29 | the stored stage string and the stage determine each other |
| `Masters.PassKeepsOtherStatus` | service/controller/azureconfig/handler/masters/create.go:33-69 | a pass touches no status but the three of its own handler |
| `MastersRuns.PassMovesAlongEdges` | service/controller/azureconfig/handler/masters/create.go:33-69 | a pass keeps the stage or follows an edge; an unknown stage is kept with everything else |
| `MastersRuns.OneOperationPerPass` | service/controller/azureconfig/handler/masters/create_master_instances_upgrading.go:65-140 | at most one operation a pass, on the first outdated machine, and one exactly when all masters are ready, no machine is in flight and one is outdated |
| `MastersRuns.OneMasterAtATime` | service/controller/azureconfig/handler/masters/create_master_instances_upgrading.go:84-131 | in every run at most one master machine is in flight |
| `MastersRuns.OperationsAreConserved` | service/controller/azureconfig/handler/masters/create_master_instances_upgrading.go:92-131 | operations started, less the one in flight, plus work left is constant; k outdated masters take at most 2k operations |
| `MastersRuns.MastersAreRolled` | service/controller/azureconfig/handler/masters/create_master_instances_upgrading.go:92-140 | with replies, work m takes exactly m passes with one operation each, then DeploymentCompleted |
| `MastersRuns.Quiescence` | service/controller/azureconfig/handler/masters/create_deployment_completed.go:92-128 | from the empty stage five passes and one submission lead to DeploymentCompleted; it rests there for ever exactly when the checksums could be stored |
| `MastersRuns.RestIsQuiet` | service/controller/azureconfig/handler/masters/create_deployment_completed.go:119-128 | at rest no pass writes status or submits |
| `MastersDecisions.PassThrough` | service/controller/azureconfig/handler/masters/create_empty.go:9-11 | the empty stage and the one after provisioning are left by every pass that can store the next |
| `MastersDecisions.SubmitsIff` | service/controller/azureconfig/handler/masters/create_deployment_uninitialized.go:17-102 | for all replies, when a deployment is submitted, and when its stage is left |
| `MastersDecisions.InitializedMoves` | service/controller/azureconfig/handler/masters/create_deployment_initialized.go:13-50 | for all replies, on when the deployment succeeded, back when it failed or was canceled |
| `MastersDecisions.CheckMoves` | service/controller/azureconfig/handler/masters/create_cluster_upgrade_requirement_check.go:21-74 | for all replies, the masters are rolled exactly when the cluster was created and a master is out of date |
| `MastersDecisions.CompletedMoves` | service/controller/azureconfig/handler/masters/create_deployment_completed.go:17-139 | for all replies, when a completed control plane starts over |
| `MastersDecisions.UpgradingMoves` | service/controller/azureconfig/handler/masters/create_master_instances_upgrading.go:25-141 | for all replies, where the rolling stage leads, and when it starts an operation, in terms of nodes and machines |
| `MastersDecisions.VersionMeans` | service/controller/azureconfig/handler/masters/create_master_instances_upgrading.go:73-76 | the version of a machine is that of its last node |
| `MastersDecisions.FifthPassDecides` | service/controller/azureconfig/handler/masters/create.go:14-69 | from the empty stage with good replies the fifth pass stores MasterInstancesUpgrading exactly when the cluster was created and a master is out of date by then, DeploymentCompleted otherwise |
| `MastersDecisions.OutdatedMasterIsRolled` | service/controller/azureconfig/handler/masters/create_deployment_completed.go:79-88 | a completed control plane with an outdated master is rolled six passes later |
| `MastersDecisions.RestsIffListed` | service/controller/azureconfig/handler/masters/create_deployment_completed.go:60-88 | with masters of its release, unchanged checksums and good replies it rests exactly as long as its release is listed |
| `MastersDecisions.NeverRestsUnlisted` | service/controller/azureconfig/handler/masters/create_deployment_completed.go:60-88 | in a run without that release listed, every pass in DeploymentCompleted leaves it, and a created cluster rolls again six passes later |
| `Rollout.AnyNodeOutOfDate` | pkg/handler/nodes/upgrade.go:18-40 | the loop answers what AnyOutOfDate says |
| `Rollout.NodeNeedsToBeRolled` | pkg/handler/nodes/upgrade.go:42-85 | the loop over the five components answers what NeedsToBeRolled says |
| `Rollout.FindMeans` | pkg/handler/nodes/upgrade.go:87-99 | a release is the first one of the name, with or without the leading v |
| `Rollout.ComponentMeans` | service/controller/key/common.go:79-86 | the version of a component is that of its first entry |
| `Rollout.AllCurrentIff` | pkg/handler/nodes/upgrade.go:18-85 | no node is out of date exactly when for each its release and the destination are known, with the same known versions of five components; otherwise the first such node decides |
| `Rollout.RolledNodes` | pkg/handler/nodes/upgrade.go:42-85 | nodes of the destination release are out of date exactly when it is not listed, and cannot be compared exactly when it is incomplete |
| `MastersHandler.Handler.AreNodesReadyForUpgrading` | service/controller/azureconfig/handler/masters/create_master_instances_upgrading.go:174-189 | true exactly when there is a master and all are ready |
| `MastersHandler.Handler.NodeVersions` | service/controller/azureconfig/handler/masters/create_master_instances_upgrading.go:73-76 | the map holds the version of the last node of each machine |
| `MastersHandler.Handler.MasterInstancesUpgrading` | service/controller/azureconfig/handler/masters/create_master_instances_upgrading.go:25-141 | does what Masters.Upgrading says |
| `MastersHandler.Handler.DeploymentUninitialized` | service/controller/azureconfig/handler/masters/create_deployment_uninitialized.go:17-102 | submits, then stores both checksums, with every way to stop in between |
| `MastersHandler.Handler.DeploymentInitialized` | service/controller/azureconfig/handler/masters/create_deployment_initialized.go:13-50 | does what Masters.Initialized says |
| `MastersHandler.Handler.ClusterUpgradeRequirementCheck` | service/controller/azureconfig/handler/masters/create_cluster_upgrade_requirement_check.go:21-74 | does what Masters.Check says |
| `MastersHandler.Handler.DeploymentCompleted` | service/controller/azureconfig/handler/masters/create_deployment_completed.go:17-139 | does what Masters.Completed says |
| `MastersHandler.Handler.EnsureCreated` | service/controller/azureconfig/handler/masters/create.go:33-69 | a pass of the handler is Masters.EnsureCreated; it fails exactly when the status cannot be read or written, the stage is unknown, or its transition fails |
| `MainDeployment.Handler.EnsureCreated` | service/controller/azureconfig/handler/deployment/resource.go:104-258 | the handler does what Pass says, and returns an error exactly when Fails says so |
| `MainDeployment.SuccessMeansStored` | service/controller/azureconfig/handler/deployment/resource.go:174-258 | a pass that compares checksums and returns no error leaves those of the computed deployment in the status |
| `MainDeployment.SubmittedTwice` | service/controller/azureconfig/handler/deployment/resource.go:124-172 | a new cluster is submitted exactly twice when its two parameter sets differ, once when not, and from the third pass on nothing changes |
| `MainDeployment.SubmitsIff` | service/controller/azureconfig/handler/deployment/resource.go:104-258 | for all replies, when the deployment is submitted: missing or succeeded with a changed checksum, or failed whatever the checksums; and when the service endpoint is set |
| `MainDeployment.MissingIsSubmittedIff` | service/controller/azureconfig/handler/deployment/resource.go:184-212 | a missing deployment is submitted exactly when the stored checksums are not those of the initial one |
| `MainDeployment.LostStaysLost` | service/controller/azureconfig/handler/deployment/resource.go:184-212 | lost right after its first submission, the deployment stays lost in every run with any replies |
| `Checksum.GetDeploymentParametersChecksum` | pkg/checksum/checksum.go:26-87 | the checksum does not depend on the order in which the map is visited |
| `Checksum.ChecksumIgnoresIgnitionConfig` | pkg/checksum/checksum.go:33-72 | parameters that mean the same have the same checksum |
| `Checksum.IgnitionConfigIsIgnored` | pkg/checksum/checksum.go:51-59 | any change under ignition.config keeps the meaning |
| `Checksum.ChangedIgnitionKeepsChecksum` | pkg/checksum/checksum.go:33-72 | replacing a cloud configuration by one that decodes to such a changed document keeps the checksum |
| `Checksum.ChecksumIff` | pkg/checksum/checksum.go:26-87 | with injective encodings and hash, equal checksums and equal meaning are the same |
| `Checksum.NulledIff` | pkg/checksum/checksum.go:44-59 | two documents have the same image exactly when they agree in everything but ignition.config |
| `Checksum.ChecksumDecides` | pkg/checksum/checksum.go:26-87 | in terms of the parameters alone: when there is a checksum, and that two are the same exactly when the keys, the other parameters, and the documents of the cloud configurations up to ignition.config are |
| `Cidr.NestedOrDisjoint` | pkg/handler/ipam/azure_machinepool_subnet_collector.go:130-133 | two blocks are disjoint or the one with the longer prefix lies in the other |
| `Cidr.CidrRoundTrip` | pkg/handler/ipam/azure_machinepool_subnet_persister.go:73-78 | a block is read back as it was written |
| `Cidr.FreeIsFirstFit` | pkg/handler/ipam/create.go:107-112 | what Free returns is the least available block; it fails only when there is none, or on the two argument errors |
| `Cidr.HalvesPartition` | service/network/network.go:26-29 | the halves are disjoint blocks that make up the whole |
| `Cidr.Canonicalize` | pkg/handler/ipam/azure_machinepool_subnet_collector.go:130-131 | exactly the blocks that start in the network, without duplicates |
| `Network.Compute` | service/network/network.go:21-50 | the four searches give the closed layout, and fail exactly as it says |
| `Network.SplitIsDisjoint` | service/network/network.go:21-50 | the split exists exactly for prefixes up to 21; its four subnets are pairwise disjoint and inside the network |
| `Network.RoomForThree` | service/network/network.go:21-50 | Calico takes the upper half; masters, workers and VPN each the first free /24 block beside those before |
| `Network.AzureConfig.Persist` | pkg/handler/ipam/azure_config_persister.go:41-72 | all six persisted fields, or none |
| `Network.PersistedReadsBack` | pkg/handler/ipam/azure_config_persister.go:41-72 | each persisted range reads back as the block of its own part of the split |
| `Network.GetVpnSubnet` | service/controller/azureconfig/handler/deployment/deployment.go:98-110 | the VPN subnet of the parsed network, none on an error |
| `Network.VpnAvoidsPersistedSubnets` | service/controller/azureconfig/handler/deployment/deployment.go:98-110 | computed from the persisted range, the VPN subnet exists and avoids the three persisted ones |
| `SubnetList.NotAllocatedMeans` | pkg/handler/ipam/azure_machinepool_subnet_checker.go:73-88 | nothing is allocated exactly when no subnet of that name has a CIDR |
| `SubnetList.LookupMeans` | pkg/handler/ipam/azure_machinepool_subnet_checker.go:73-88 | the first entry of the name with a CIDR decides, with its range or as malformed |
| `SubnetList.RemovalsAgreeIff` | service/controller/azuremachinepool/handler/nodepool/delete.go:65-88 | first-match and last-match removal agree exactly when all entries between the two matches are the same one; so with unique names |
| `SubnetList.BlocksCover` | pkg/handler/ipam/azure_machinepool_subnet_collector.go:137-157 | every range of the list is collected |
| `SubnetList.BlocksMean` | pkg/handler/ipam/azure_machinepool_subnet_collector.go:137-157 | nothing else is collected; the list cannot be read exactly when the first CIDR of some entry cannot |
| `SubnetList.AzureCluster.Check` | pkg/handler/ipam/azure_machinepool_subnet_checker.go:47-88 | the first subnet of that name with a CIDR decides, also the error |
| `SubnetList.AzureCluster.CollectFromSpec` | pkg/handler/ipam/azure_machinepool_subnet_collector.go:137-157 | as many unset blocks as subnets, then the ranges; an error when one cannot be read |
| `SubnetList.CollectFromVNet` | pkg/handler/ipam/azure_machinepool_subnet_collector.go:160-223 | the ranges of all subnets in Azure; an error when one cannot be read |
| `SubnetList.AzureCluster.Persist` | pkg/handler/ipam/azure_machinepool_subnet_persister.go:47-86 | one subnet is appended, or nothing changes |
| `SubnetList.AzureCluster.Release` | pkg/handler/ipam/azure_machinepool_subnet_releaser.go:44-86 | the first match is spliced out; a conflict is no error and changes nothing |
| `SubnetList.AzureCluster.RemoveSubnet` | service/controller/azuremachinepool/handler/nodepool/delete.go:65-88 | the last match is spliced out |
| `Ipam.AddressSafety` | pkg/handler/ipam/create.go:49-127 | in every interleaving, worlds are safe exactly as long as every deployment from the list read before is guarded; safe means that ranges under different names are disjoint and inside the network, and the range to be handed out next avoids everything held or alive |
| `Ipam.NoOverlapMeans` | pkg/handler/ipam/create.go:90-113 | ranges do not overlap exactly when each address belongs to at most one name, in the network |
| `Ipam.TimelyDeploymentsAreSafe` | service/controller/azurecluster/handler/subnet/resource.go:142-192 | runs are safe in which only ranges are deployed that their name still holds |
| `Ipam.OnlyPersistAdds` | pkg/handler/ipam/azure_machinepool_subnet_persister.go:73-80 | no step but the holder's last one and deployments adds a range |
| `Ipam.FindSucceedsIff` | pkg/handler/ipam/create.go:90-113 | a range is found exactly when some /24 block of the network avoids everything collected |
| `Ipam.DeploymentIsSafeIff` | service/controller/azurecluster/handler/subnet/resource.go:142-192 | a deployment keeps a safe world safe exactly when its range is in the network, disjoint from those under other names, and disjoint from the one to be handed out next |
| `Ipam.MayDeployMeans` | service/controller/azurecluster/handler/subnet/resource.go:142-192 | that is the case exactly when nothing overlaps afterwards, nor after the holder of the lock has handed out its range |
| `Ipam.OutdatedDeploymentOverlaps` | service/controller/azurecluster/handler/subnet/resource.go:74-109 | in any network with room, a run from a safe world: the list is read, the pool deleted, its range given to another, and deployed, before or after that is persisted; it ends in an overlap |
| `Ipam.ReleaseEffect` | pkg/handler/ipam/azure_machinepool_subnet_releaser.go:44-86 | an uninterrupted release removes exactly the first entry of a pool that owns a range, and nothing otherwise; with unique names none of that name is left |
| `Ipam.DeletionFollowsProtocol` | pkg/handler/ipam/delete.go:13-73 | that is the list the handler leaves with good replies |
| `Ipam.DeletePoolEffect` | service/controller/azuremachinepool/handler/nodepool/delete.go:65-88 | for any list, exactly the last entry of the name goes, whoever holds the lock |
| `Ipam.DeleteEffect` | service/controller/azurecluster/handler/subnet/resource.go:249-266 | exactly that subnet goes |
| `Ipam.LockSteps` | pkg/locker/mutex_locker.go:38-46 | nobody gets a lock that is held; an abort gives it back and changes nothing else; a reading of the list is exact |
| `Ipam.EachPoolOwnsOneEntry` | pkg/handler/ipam/azure_machinepool_subnet_releaser.go:70-75 | from entries with CIDRs and unique names, every reachable list has one entry a pool, and both removals agree |
| `Ipam.EntryIsDoubledIff` | pkg/handler/ipam/azure_machinepool_subnet_checker.go:74-84 | from unique names, an uninterrupted allocation doubles a name exactly when the pool has an entry without a CIDR, the list can be read, and a block is free |
| `Ipam.EntryWithoutRangeIsDoubled` | pkg/handler/ipam/azure_machinepool_subnet_checker.go:74-84 | the example of one entry without a CIDR, after which the two removals differ |
| `Ipam.AttemptEffect` | pkg/handler/ipam/create.go:17-130 | an uninterrupted allocation appends the first free block or does nothing |
| `Ipam.HandlerFollowsProtocol` | pkg/handler/ipam/create.go:17-130 | with good replies the handler chooses what the protocol chooses |
| `Ipam.ChosenAvoids` | pkg/handler/ipam/create.go:17-130 | for all replies, a range is handed out only when everything was read and the pool owns nothing; it is a /24 block of the network that avoids every readable range there |
| `Ipam.Handler.EnsureCreated` | pkg/handler/ipam/create.go:17-130 | the whole new list, for all replies; an error unless the pool has a range, the cluster no network, or a range was chosen and saved; who gets the lock gives it back on every path, who does not changes nothing |
| `Ipam.Handler.EnsureDeleted` | pkg/handler/ipam/delete.go:13-73 | the whole new list and when there is an error, for all replies; who gets the lock gives it back on every path, who does not changes nothing |
| `Ipam.MutexLocker.Lock` | pkg/locker/mutex_locker.go:38-41 | the caller gets the lock exactly when nobody holds it, and waits otherwise |
| `Subnets.Handler.EnsureSubnets` | service/controller/azurecluster/handler/subnet/resource.go:125-232 | the loop does what Ensure says, behind the NAT gateway |
| `Subnets.Handler.EnsureSubnetIsAllowed` | service/controller/azurecluster/handler/subnet/resource.go:338-386 | the storage rule is appended unless it is there |
| `Subnets.Handler.GarbageCollectSubnets` | service/controller/azurecluster/handler/subnet/resource.go:236-276 | the loop does what Collect says |
| `Subnets.Handler.EnsureCreated` | service/controller/azurecluster/handler/subnet/resource.go:74-123 | garbage collection, then the subnets, unless it failed; a gateway that is not ready or a missing storage account is no error |
| `Subnets.AttemptFailsIff` | service/controller/azurecluster/handler/subnet/resource.go:74-140 | when the handler fails, for all replies |
| `Subnets.RecordMeans` | service/controller/azurecluster/handler/subnet/resource.go:201-228 | the id is saved exactly when it is another one; only then a conflict cancels or a failed save fails the pass |
| `Subnets.AllowMeans` | service/controller/azurecluster/handler/subnet/resource.go:338-386 | when the storage rule is added, and that a missing account only cancels |
| `Subnets.EnsureFrame` | service/controller/azurecluster/handler/subnet/resource.go:125-232 | whatever the replies: at most one submission, names and CIDRs unchanged, rules only added and never twice |
| `Subnets.SubmitsTheFirst` | service/controller/azurecluster/handler/subnet/resource.go:142-192 | the submitted subnet is the first one missing, out of date, or dropped as failed under the same name, with its name and CIDR; a pass to the end found none |
| `Subnets.SubmitsTheFirstStale` | service/controller/azurecluster/handler/subnet/resource.go:142-192 | with unique names it is the first one missing or out of date |
| `Subnets.SweepIsSafe` | service/controller/azurecluster/handler/subnet/resource.go:245-322 | no subnet of the specification or protected one is deleted, nor the deployment of one in the specification |
| `Subnets.ProtectedIff` | service/controller/azurecluster/handler/subnet/resource.go:308-322 | subnets of the masters, the workers and the gateway stay whatever the replies; with good ones every other one goes that is neither used nor specified |
| `Subnets.CollectLeavesIff` | service/controller/azurecluster/handler/subnet/resource.go:236-276 | which subnets are left, and when it fails, for all replies; with good ones, exactly the specified, protected and used subnets are left |
| `Subnets.SweepIff` | service/controller/azurecluster/handler/subnet/resource.go:245-276 | for all replies, a listed name loses its subnet exactly when the loop reaches it, it is neither specified nor protected, and is deleted; its deployment exactly when that is deleted too |
| `Subnets.CollectedIff` | service/controller/azurecluster/handler/subnet/resource.go:245-276 | for all replies, a deployment is collected exactly when its subnet is so deleted and its own deletion does not fail |
| `Subnets.PassOrphansIff` | service/controller/azurecluster/handler/subnet/resource.go:249-266 | a whole pass makes an orphan of the deployment of a subnet that is there exactly when it deletes the subnet and the deletion of the deployment fails |
| `Subnets.OrphanedDeploymentStays` | service/controller/azurecluster/handler/subnet/resource.go:249-266 | in every run with any replies, a deployment that did not fail and has no subnet stays, and no subnet of its name and CIDR is submitted |
| `Subnets.CanRestIff` | service/controller/azurecluster/handler/subnet/resource.go:388-409 | a specification can be in step with deployments exactly when one name has one CIDR |
| `Subnets.RoundEffect` | service/controller/azurecluster/handler/subnet/resource.go:142-231 | a round submits one stale subnet, which no longer is one, or finds none out of date and drops the failed deployments |
| `Subnets.Converges` | service/controller/azurecluster/handler/subnet/resource.go:142-231 | from any start m stale subnets take at most m submissions and m passes, one more after failures; then ids and rules are recorded and nothing is written |
| `Subnets.SubmittedIffStale` | service/controller/azurecluster/handler/subnet/resource.go:169-192 | with unique names exactly the subnets stale at the start are ever submitted, once each |
| `Subnets.NeverRests` | service/controller/azurecluster/handler/subnet/resource.go:169-192 | one name with two CIDRs makes every pass submit, from any start |
| `VNets.FromAllSubscriptions` | pkg/handler/ipam/virtualnetwork_collector.go:156-193 | the loop with the list of finished subscriptions finds what Subscriptions says |
| `VNets.FromAzureConfigs` | pkg/handler/ipam/virtualnetwork_collector.go:132-154 | the networks of all clusters that have one; an error when one cannot be read |
| `VNets.ConfigsFailIff` | pkg/handler/ipam/virtualnetwork_collector.go:132-154 | collection fails exactly when a CIDR that is not empty cannot be read |
| `VNets.ReadOnce` | pkg/handler/ipam/virtualnetwork_collector.go:175-190 | each subscription with working credentials is read exactly once |
| `VNets.FoundIffSeen` | pkg/handler/ipam/virtualnetwork_collector.go:162-193 | a network is found exactly when some cluster's credentials see it |
| `VNets.NewNetworkAvoidsKnownOnes` | pkg/handler/ipam/virtualnetwork_collector.go:82-130 | a new network avoids each reserved, configured or seen one exactly unless that one contains the range of the installation and begins before it |
| `VNets.EnclosingNetworkIsOverlapped` | pkg/handler/ipam/virtualnetwork_collector.go:82-130 | with such a network as the only known one nothing is collected, and the new network is found inside it |
| `Text.UintRoundTrip` | service/controller/key/key.go:786-806 | a number is read back from its numeral |
| `Names.InstanceNameRoundTrip` | service/controller/key/key.go:330-347 | the id is read back as canonical decimal exactly when it is below 36^6, and fails otherwise |
| `Names.InstanceNameInjective` | service/controller/key/key.go:714-721 | instances of a pool have the same name exactly when they have the same number |
| `Labels.EnsureLabel` | service/controller/key/key.go:808-838 | the loop over the parts gives the list that EnsureLabelSpec names |
| `Labels.EnsureLabelIsMapUpdate` | service/controller/key/key.go:808-838 | ensuring a label updates the map behind the list at one key |
| `Labels.EnsureLabelKeepsOrder` | service/controller/key/key.go:808-838 | other parts keep their place; repeating changes nothing; the last value wins |
| `Labels.EnsureLabelsCommute` | service/controller/key/key.go:808-838 | labels of different keys commute in the map |
| `Normalize.AsDNSLabelName` | pkg/normalize/normalize.go:18-52 | the loops compute LabelName |
| `Normalize.LabelForm` | pkg/normalize/normalize.go:18-52 | at most 63 allowed characters, no leading dash, a trailing one exactly when the cut is behind a dash |
| `Normalize.KeepsContent` | pkg/normalize/normalize.go:24-44 | before the cut no letter or digit is lost or moved |
| `Normalize.WordsStayApart` | pkg/normalize/normalize.go:24-32 | other characters between letters and digits become one dash |
| `Normalize.ThriceIsTwice` | pkg/normalize/normalize.go:18-52 | applying it three times is applying it twice, and twice is once exactly without a trailing dash |
| `Normalize.NotAlwaysALabel` | pkg/normalize/normalize.go:10-17 | two inputs whose result is no DNS label |
| `Normalize.LabelIff` | pkg/normalize/normalize.go:10-17 | the result is a label or empty exactly when no cut is behind a dash and every decimal digit before the cut is an ASCII one |
| `Normalize.ShortLabelIff` | pkg/normalize/normalize.go:10-17 | when nothing is cut, exactly when every decimal digit of the lower case input is an ASCII one |
| `Normalize.ShortInputIff` | pkg/normalize/normalize.go:10-17 | so for every input of at most 63 characters |
| `CircuitBreaker.Do` | client/senddecorator/ratelimit_circuitbreaker.go:28-55 | when a request is forwarded, what is returned, and the time stored |
| `CircuitBreaker.ParseRetryAfter` | pkg/httputil/parser.go:16-41 | the first header value that can be read decides |
| `CircuitBreaker.ServeMeans` | client/senddecorator/ratelimit_circuitbreaker.go:28-55 | only a forwarded request answered by 429 stores a time: that of the first readable header value, or six minutes later |
| `CircuitBreaker.ServedIsSequential` | client/senddecorator/ratelimit_circuitbreaker.go:28-55 | any answers over a clock that never goes back make a sequential run |
| `CircuitBreaker.NoRequestBeforeRetryTime` | client/senddecorator/ratelimit_circuitbreaker.go:28-55 | no request is forwarded at or before the retry time of any earlier 429 |
| `CircuitBreaker.HeldBackOnlyByLatest` | pkg/backpressure/backpressure.go:5-19 | a request is held back only by the retry time of the latest 429 |
| `CircuitBreaker.RemoveElementFromSlice` | client/senddecorator/ratelimit_circuitbreaker.go:57-70 | shifting in place removes the first occurrence |
| `CircuitBreaker.RemovesOneOccurrence` | client/senddecorator/ratelimit_circuitbreaker.go:57-70 | one occurrence goes; the element is gone exactly when it occurred at most once |

## Left out

- Azure and Kubernetes clients, credentials, DNS, peering, role assignments, templates, certificates, conditions, metrics and logging: only the state a call reads or writes is modelled, and that it may fail.
- The bodies of the IPAM library and of the node pool template difference are not part of the repository: the first are replaced by contracts with an implementation, the second is a reply.
- The locker on a Kubernetes lock, whose "already exists" path goes on without exclusivity: the protocol assumes the mutex.
- Ipam.AddressSafety: one subnet handler works on one list at a time, which it reads in one step; deployments are steps of their own, with the guard stated there.
- NodePoolRuns.CapacitySafety: during one upgrade nobody else changes the set of instances, the capacity counts them, outdated instances stay outdated, and up-to-date ones stay up to date.
- NodePoolRuns.DrainBeforeDelete: for on-demand pools, whose persisted state nobody else writes.
- Ipam.MutexLocker.Lock: the source blocks until it holds the lock; here the caller is told to wait, changes nothing, and calls again.
- Subnets.Handler.GarbageCollectSubnets: the list of subnets is read in one step, so reading its next page does not fail on its own.
- MastersRuns.OperationsAreConserved: between operations the environment keeps machines and which of them are outdated.
- Subnets.Converges: deployments that have not failed succeed before the next pass, and the APIs reply.
- ARM deployments of subnets and scale sets that change some time after they were accepted: a subnet deployment is one step of the protocol, and a scale set follows its capacity at once.
- Panics on missing data: unset annotations, empty deployments, missing secrets, instance ids that are no numbers. A spot instance without a node at termination is a failure of the pass.
- The cluster autoscaler as another actor: it is a flag that a scaling pass clears and the last terminate pass sets; runs assume that nobody else changes the set of instances.
- Drainer.WorkloadCluster.CordonNode: that a node vanished before the patch is its outcome; that it is gone shows in a later step of the environment.
- Iteration order over node labels when roles contradict each other: a node carries its roles.
- Pre-releases in semantic versions: versions are three numbers.
- Nodes are found by instance id instead of by name, as names are injective in it (`Names.InstanceNameInjective`).
- The list of provider ids and the other status fields that the initial state writes: only that saving them may fail or conflict.
- The listing of releases and nodes, and the readiness of clusters, are replies.
- What the NAT gateway step at the end of the main deployment handler does: it only follows an unchanged deployment, and may fail.
- IPv6 blocks and notations: addresses are 32 bits.
- Concurrent senders behind one circuit breaker: requests are served one after another.
- Unicode tables are parameters of the normalisation, with what the proofs need of them stated.
- Deletion of clusters and node pools besides the subnet list, worker migration, CRUD handlers for namespaces, services, endpoints, DNS records and blobs: simple differences that would add only easy members.
