# containerlab, verified

A Dafny model of the parts of containerlab whose correctness is an argument rather than a reading:
the staged deployment scheduler, the parking of interfaces while a node is stopped, and six smaller
pieces of state or arithmetic (`Wrappers` holds what they share). `dafny verify dfyconfig.toml`
checks everything.

**Staged deployment** (`DependencyGraph`, `Acyclicity`, `NodeGraph`, `DependencyManagement`,
`NodeCreation`, `Scheduler`, `SchedulerSafety`, `StageSafety`, `NodeRoutes`, `SchedulerLiveness`,
`PoolStarvation`, `Deployment`). The classes of the dependency manager keep a ghost graph of ports
(node, stage) that says what their wait groups, depender lists and must-wait flags hold; creating
the nodes is proved to produce exactly the edges that the topology asks for. The scheduler is a
transition system: a program counter for each node, a counter for each port, the signals sent, the
worker pool and the channel; one iteration of the loop in `Done` is one step. Safety is proved of
every reachable state, whatever fails. Progress and termination are proved when nothing fails, and
with failures for all nodes that depend on none of the failed ones.

**Parking** (`EndpointOwnership`, `CarriedLinks`, `Parking`, `EndpointSelection`, `Discovery`,
`WantedInterfaces`, `Lifecycle`, `LifecycleRuns`). The kernel is a map from (namespace, name) to an
interface with its kind, its ownership altname and whether it is up; the kind of an end of a veth pair
says which pair and which end, so whether the peer is in the same namespace follows from the map.
Endpoints are objects with an owner, nodes hold lists of them. Every forward operation takes a flag
`faulty` and, when it is set, may fail at any point; compensating operations are called without it. How
container starts come out is a script: they go well, or report an error before or after the start. The
main result follows a set `wanted` of interfaces over whole runs of stops, starts and new processes.

**Smaller parts**: `ImagePull` (single-flight pulls, a transition system), `HostsText`, `HostsFile`
and `HostsFileRuns` (the `/etc/hosts` blocks, at the level of the text), `VethDeploy` (the two-ended
deployment of a veth link), `ClosTopology` (the Clos generator), `NetlinkEvents` (the interface
watcher), `HostAddress` (host numbers inside a prefix), `TemplateSeq` (the `seq` template function).

## What the proofs turned up

- A node that has to wait before a stage later than create waits while it holds a worker. All acyclic
  deployments with k such nodes finish with w workers if and only if k is below w
  (`PoolStarvation.PoolBoundIsExact`). For k not below w a star of k + 1 nodes gets stuck although
  nothing fails (`PoolStarvation.PoolTooSmall`); with waits at create only, one worker is enough.
- A restore destroys every parked interface that discovery does not list, and only those
  (`LifecycleRuns.RestoreKeepsIff`). A stop and a start without any fault, by one process or two, keep a
  captured interface if and only if it is a veth, neither `lo` nor `eth0`, whose peer is not captured with
  it (`LifecycleRuns.StopThenStart`). A link from a node to itself is therefore lost
  (`LifecycleRuns.SelfLinkIsLost`).
- A container start may report an error after the container has started. The node then runs with its
  interfaces parked. Another start brings them back. A stop without faults succeeds if and only if
  everything the node tracks can be parked, and otherwise destroys what is parked
  (`Lifecycle.DefaultNode.Stop`); stop, such a start, a new process and a stop reach that state
  (`LifecycleRuns.HalfStartThenStop`). Nothing else loses an interface: a run is safe when no start errs
  late, and in any case when no node is stopped while it runs and its parking namespace exists
  (`LifecycleRuns.Run`).
- When the end of a veth link that belongs to no node fails after the other end is placed, the retry
  looks for the wrong end: no further call of the placed end can finish the link
  (`VethDeploy.NodelessEndStaysOut`). A call without faults succeeds in every other state that no failed
  cleanup has left behind (`VethDeploy.DeploySucceedsIff`). The comment above the retry says that each
  retry is idempotent because of the cleanup; that holds for the first end only.
- Appending a lab's block and deleting it again gives back the text of the hosts file if and only if
  the text ends with a newline and has no marker of the lab (`HostsFileRuns.AppendThenDelete`).

## Model

| member | source | states |
|---|---|---|
| `Acyclicity.IsAcyclic` | core/dependency_manager/dependency_manager.go:137-202 | for every map: true exactly when every name that waits is a key and there is no cycle; terminates |
| `Acyclicity.PeelingIsExact` | core/dependency_manager/dependency_manager.go:154-201 | repeated removal of leaves empties a map if and only if it is closed and acyclic |
| `Acyclicity.PeelRoundRanks` | core/dependency_manager/dependency_manager.go:173-201 | the round in which a node is peeled is a rank that rises along every dependency |
| `Acyclicity.StuckHasCycle` | core/dependency_manager/dependency_manager.go:168-171 | a closed map that peeling cannot empty holds a cycle, found by walking |
| `Acyclicity.SplitLeaves` | core/dependency_manager/dependency_manager.go:160-166 | the first loop keeps exactly the nodes with dependers and lists exactly the others |
| `Acyclicity.DropLeaves` | core/dependency_manager/dependency_manager.go:176-199 | the second loop is one peel of the whole map |
| `Acyclicity.KeepOthers` | core/dependency_manager/dependency_manager.go:180-195 | the inner loops keep, in order, the dependers that are not leaves |
| `NodeGraph.CyclesAgree` | core/dependency_manager/dependency_manager.go:101-133 | the stage-blind name map has a cycle exactly when the graph of recorded edges has one |
| `NodeGraph.AcyclicGraphHasRank` | core/dependency_manager/dependency_manager.go:123-133 | passing the gate gives a rank that falls along every recorded edge |
| `NodeGraph.RankedGraphIsAcyclic` | core/dependency_manager/dependency_manager.go:123-133 | conversely, a rank excludes every cycle |
| `DependencyGraph.EdgeAddedRecorded` | core/dependency_manager/dependency_node.go:182-198 | adding an edge keeps: every counter is the number of incoming edges, every port with dependers must be waited for |
| `DependencyManagement.DependencyNode.AddDepender` | core/dependency_manager/dependency_node.go:182-198 | the three mutations on two nodes are one added edge: list, counter and must-wait flag; a node may depend on itself |
| `DependencyManagement.DependencyNode.IncreaseDependencyWG` | core/dependency_manager/depender_node_stage.go:27-29 | one counter of the depender goes up, nothing else changes in any node |
| `DependencyManagement.DependencyNode.SignalDone` | core/dependency_manager/depender_node_stage.go:23-25 | one counter of the depender goes down, nothing else changes |
| `DependencyManagement.DependencyNode.Done` | core/dependency_manager/dependency_node.go:167-178 | lowers the counters by exactly the multiset of recorded dependers of the stage |
| `DependencyManagement.DependencyManager.AddNode` | core/dependency_manager/dependency_manager.go:38-40 | a node joins with zero counters, no dependers and the must-wait flags of its execs |
| `DependencyManagement.DependencyManager.GenerateDependencyMap` | core/dependency_manager/dependency_manager.go:101-120 | the map lists, for every node, exactly those that wait for one of its stages |
| `DependencyManagement.DependencyManager.CheckAcyclicity` | core/dependency_manager/dependency_manager.go:123-133 | succeeds if and only if no cycle of nodes waits for itself |
| `NodeCreation.CLab.CreateNodes` | core/deploy.go:302-342 | fails exactly when a wait-for entry of some node's configuration names no node, or on a cycle; otherwise the counted edges are exactly those of the topology, and the scheduler starts behind the gate |
| `NodeCreation.CLab.CreateStaticDynamicDependency` | core/clab.go:284-310 | gains exactly one edge from every node with a static address to every node without |
| `NodeCreation.CLab.CreateWaitForDependency` | core/clab.go:314-333 | gains one edge for each wait-for entry, or reports that some entry names no node |
| `NodeCreation.CLab.CreateNamespaceSharingDependency` | core/clab.go:254-279 | gains one create-to-create edge for each node that shares the namespace of another node of the topology |
| `NodeCreation.PlannedEdges` | core/clab.go:254-333 | how often a port tells another is read off the two addresses, the wait-for lists and the network modes: one for static before dynamic, one for each wait-for entry, one for a shared namespace |
| `NodeCreation.WaitForHonoured` | core/clab.go:314-333 | every entry of every stage's wait-for list, however many there are, has its edge |
| `NodeCreation.PlannedWaits` | core/dependency_manager/dependency_node.go:43-54 | a stage must be waited for exactly when somebody awaits it or it is create-links, configure or healthy and has commands |
| `SchedulerSafety.StepKeepsInv` | core/clab.go:335-475 | every step, failures and cancellation included, keeps: counters exact, pool conserved, stages passed in order |
| `SchedulerSafety.RunKeepsInv` | core/clab.go:335-552 | so does every run |
| `StageSafety.StageSafety` | core/dependency_manager/dependency_node.go:104-112 | in every reachable state, whatever fails: if EnterStage has ever let a node through, each dependee has signalled that very edge, from the loop of Done of the awaited stage |
| `StageSafety.HistoryIsTrue` | core/dependency_manager/dependency_node.go:104-198 | the two histories that the safety results speak of record exactly the ports whose EnterStage returned and whose Done began in the run |
| `StageSafety.CountersCount` | core/dependency_manager/dependency_node.go:167-198 | every counter is the number of its edges not yet signalled, never negative, and positive whenever a signal is about to arrive |
| `StageSafety.ChannelsAreSafe` | core/clab.go:481-552 | nobody sends on the closed channel; reporting a failure never blocks |
| `StageSafety.ClosedOnce` | core/clab.go:516-549 | no run closes the channel twice |
| `StageSafety.StaticBeforeDynamic` | core/clab.go:284-310 | a node without a static address is past the wait before its deployment only after every node with one has begun Done for create, failing nodes included |
| `StageSafety.FailedBlocks` | core/dependency_manager/dependency_node.go:104-112 | once a node has failed, the dependers it has not signalled are never let through in any continuation, and do not finish unless they wait before healthy or exit only |
| `NodeRoutes.AwaitedStagesOnly` | core/clab.go:425-468 | in every reachable state: no node enters, polls in or leaves the healthy or exit stage unless somebody waits for it; a finished node has been let into exactly the first three stages and the awaited ones |
| `NodeRoutes.NodeMoves` | core/clab.go:335-552 | the moves of a node, both directions: entering after the wait, the hand-over, work, failures at create and create-links only, giving up on health, leaving Done after the last signal for the next stage on its way |
| `SchedulerLiveness.EveryRunIsBounded` | core/clab.go:335-552 | in every interleaving, whatever fails, the number of steps besides polling is bounded |
| `SchedulerLiveness.DeadlockFree` | core/clab.go:335-552 | acyclic, more workers than nodes that may wait inside their worker, nothing failed: an unfinished state has a step that is more than a poll |
| `SchedulerLiveness.EveryRunFinishes` | core/clab.go:478-552 | such a run can go on if and only if it is not complete: all nodes finished, channel closed, workers gone |
| `SchedulerLiveness.OthersFinish` | core/clab.go:335-552 | with failures: as long as a node that depends, over any number of edges, on no failed node is unfinished, the run can go on with more than a poll |
| `SchedulerLiveness.CanComplete` | core/clab.go:478-552 | from every such state a complete state is reached |
| `PoolStarvation.PoolTooSmall` | core/clab.go:516-549 | for all k and w with w not above k: a topology of k + 1 nodes, k of them waiting inside, is planned, passes the gate and can get stuck for ever with w workers without any failure |
| `PoolStarvation.StarPlanned` | core/deploy.go:302-342 | the starving star is exactly what createNodes builds from k + 1 configured nodes |
| `PoolStarvation.PoolBoundIsExact` | core/clab.go:516-549 | for all k and w: every acyclic deployment with k nodes waiting inside finishes with w workers if and only if k is below w |
| `Deployment.DeploymentFinishes` | core/deploy.go:302-342 | for what createNodes plans: bounded steps and no deadlock if there are more workers than nodes with a wait-for entry after create |
| `Deployment.PlannedInside` | core/clab.go:254-333 | the nodes that may wait inside their worker are exactly those with a wait-for entry after create |
| `Deployment.PlannedWaitsOnlyToCreate` | core/clab.go:254-333 | nobody waits inside a worker if and only if all wait-for entries are at the create stage |
| `Deployment.StaticDynamicAlonePasses` | core/clab.go:284-310 | static and dynamic addresses alone always pass the acyclicity check |
| `Deployment.DoneIsARunOfSignals` | core/dependency_manager/dependency_node.go:174-177 | the signalling steps of the scheduler, taken without interruption, do to the counters what the method Done does |
| `EndpointOwnership.LinkNode.AdoptEndpoint` | links/generic_link_node.go:51-85 | accepted exactly for an endpoint owned under this name whose interface no other tracked endpoint has; appended unless tracked already |
| `EndpointOwnership.LinkNode.ReleaseEndpoint` | links/generic_link_node.go:87-98 | removes the first occurrence in place, or reports that there is none |
| `EndpointOwnership.AdoptableMeaning` | nodes/default_node.go:913-952 | for a list without repeated names, adoption is refused exactly when another endpoint has the name |
| `EndpointOwnership.MoveEndpoint` | links/endpoint.go:169-237 | all or nothing: interface, owner and both lists move together or only the interface may be shaken; refused without a fault only for the stated reasons; the branch after a failed adoption cannot be reached |
| `EndpointOwnership.MoveKeepsOwnership` | links/endpoint.go:169-237 | every outcome leaves both lists without repeated names and every owner right, and the endpoint in exactly one list, that of its owner |
| `EndpointOwnership.ActivateEndpoint` | links/endpoint.go:240-248 | brings exactly this interface up, or changes nothing |
| `EndpointOwnership.Kernel.MoveLink` | links/endpoint.go:324-339 | the interface arrives down, with kind and altname; a refusal may leave it down where it was |
| `CarriedLinks.CarriedBack` | links/parking_node.go:42-47 | a batch moved away, one refusal, the batch moved back: every interface is where it was, none has lost kind or altname |
| `CarriedLinks.BroughtBackUp` | links/parking_node.go:43-47 | with activation, only the refused interface may be down afterwards |
| `Parking.ListOwnedInterfaceNames` | links/parking_node.go:245-309 | lists each interface of the namespace that counts as owned once, and no other, in the order of names |
| `Parking.OwnedExactly` | links/parking_node.go:275-309 | which interface counts as owned, in terms of names, kinds and altnames of the namespace only |
| `Parking.CaptureCandidates` | links/parking_node.go:173-231 | fails before any move when an endpoint of the topology is on no veth link; otherwise tracks one endpoint for every tracked or owned name |
| `Parking.MoveBack` | links/parking_node.go:43-47 | no move of a rollback is refused; lists, owners and interfaces all return |
| `Parking.MoveEach` | links/parking_node.go:41-55 | moves in order up to the first refusal; at that point what was moved is a prefix, wholly on the other side |
| `Parking.MoveAll` | links/parking_node.go:61-97 | all or nothing for the batch of a capture or a restore; each endpoint stays in exactly one list, the one of its owner |
| `Parking.CaptureFrom` | links/parking_node.go:34-59 | success: the source tracks nothing and everything it tracked or owned is parked, down; failure: both sides track what they tracked, all but the culprit as up as before; succeeds whenever nothing stands in the way |
| `Discovery.ReleaseStale` | links/parking_node.go:114-130 | what is tracked without being there: runtime endpoints are dropped, those of the topology go back to the original node |
| `Discovery.GatherListed` | links/parking_node.go:132-168 | every listed name ends with exactly one endpoint of the parking node, the known one if there is one |
| `Discovery.DiscoverOwnedEndpoints` | links/parking_node.go:99-171 | tracks exactly the listed names afterwards; fails only before it has changed anything |
| `Discovery.TopologyPreserved` | links/parking_node.go:119-130 | no endpoint of the topology is lost or invented |
| `Discovery.RuntimeDropped` | links/parking_node.go:119-130 | an endpoint of runtime origin whose interface is not there is in neither list afterwards |
| `Discovery.DiscoverTwice` | links/parking_node.go:99-171 | a second discovery leaves both lists exactly as the first did |
| `Discovery.RestoreTo` | links/parking_node.go:61-97 | success: exactly the listed interfaces come back, up; failure: all are parked again and the lists are those after discovery, or untouched |
| `Lifecycle.DefaultNode.LifecycleStopContainers` | nodes/default_node.go:624-645 | an error of a container that did stop is no error; an error means that nothing happened |
| `Lifecycle.DefaultNode.LifecycleStartContainers` | nodes/default_node.go:611-622 | reports a start only when this call started the container |
| `Lifecycle.DefaultNode.ParkEndpoints` | nodes/default_node.go:1028-1054 | everything tracked or owned is parked, or every wanted interface is at home again; without faults it succeeds from a running node if and only if everything tracked can be parked; a failure destroys what was in the parking namespace before |
| `Lifecycle.DefaultNode.RestoreEndpoints` | nodes/default_node.go:1057-1073 | the node holds exactly what it held and the listed parked interfaces, all up, and tracks exactly their names besides its own; everything else in the parking namespace is gone |
| `Lifecycle.DefaultNode.Stop` | nodes/default_node.go:1075-1119 | a stopped or created container is left alone, one that is not found is an error, and a failing pre-stop hook changes nothing; otherwise success: what ran or was paused is stopped, nothing tracked, the parking namespace holding exactly what was captured, all wanted interfaces among it; failure: the status as before, running with all of them; without faults, success if and only if everything tracked can be parked. A node that runs while parked: the same condition, but otherwise all that was parked is destroyed |
| `Lifecycle.DefaultNode.Start` | nodes/default_node.go:1125-1189 | without parking state: starts the container unless it runs or is paused, and succeeds exactly when that went well; not found is an error; success always leaves a running or paused container. With parking state, success: running with all wanted interfaces, and from a stopped node with exactly the interfaces that were listed; failure: stopped again with all of them parked, or running with all, or running with all parked exactly when the container start reported its error late; succeeds without faults |
| `Lifecycle.CapturedExactly` | links/parking_node.go:173-231 | a stop captures what is tracked and every other veth with the altname, but lo and eth0, whose other end is elsewhere; an untracked interface without altname never |
| `Lifecycle.ParkableExactly` | links/parking_node.go:173-231 | the condition for a stop, read off the endpoints and interfaces: each tracked endpoint is of runtime origin or on a veth link, its interface is there, and its name is not parked already |
| `LifecycleRuns.Run` | nodes/default_node.go:1075-1189 | over any run of stops, starts and new processes, with arbitrary faults: if no start errs late, the node is always up with all wanted interfaces or stopped with all parked; with late errors none is lost if nothing is stopped, or if stops are held back while the node runs and its parking namespace exists (without late errors none is held back) |
| `LifecycleRuns.RunThenStart` | nodes/default_node.go:1125-1189 | after any such run, from whatever state it ended in, one start without faults has the node up with everything |
| `LifecycleRuns.ParkThenRestore` | nodes/default_node.go:1028-1073 | round trip by name: the node tracks and holds the wanted interfaces, up, and no name it did not have |
| `LifecycleRuns.RestoreKeepsIff` | nodes/default_node.go:1057-1073 | a restore keeps a parked interface if and only if discovery lists it |
| `LifecycleRuns.StopThenStart` | nodes/default_node.go:1075-1189 | a stop and a start without faults, by one process or two: both succeed if and only if everything tracked can be parked; then, apart from lo and eth0, the node holds exactly the captured veths whose peer was not captured with them, up and with their kind |
| `LifecycleRuns.SelfLinkIsLost` | links/parking_node.go:302-308 | both ends of a link from a running node to itself are destroyed by a stop and a start, without any fault |
| `LifecycleRuns.HalfStartThenStop` | nodes/default_node.go:1035-1039 | a run from a healthy node into the loss: a stop, a start that reports its error late, a new process, a stop |
| `ImagePull.StepKeepsInv` | core/image.go:59-121 | every step of every goroutine and of the collector keeps: ongoing pulls have their owner at work, results sent are verdicts, one from each node |
| `ImagePull.EachPulledOnce` | core/image.go:84-110 | in every interleaving each image and policy is pulled at most once |
| `ImagePull.WaiterReadsTheError` | core/image.go:89-97 | a waiter goes on with exactly the error that the finished pull has |
| `ImagePull.ChannelNeverBlocks` | core/image.go:20-31 | a goroutine with a result always finds room in the channel |
| `ImagePull.NeverStuck` | core/image.go:75-118 | whatever the order in which nodes visit their images, some step is possible until the call returns |
| `ImagePull.EveryRunIsBounded` | core/image.go:19-121 | every run is finite |
| `ImagePull.EveryRunReturns` | core/image.go:28-55 | a run that can go no further has returned |
| `ImagePull.ReturnedResult` | core/image.go:40-55 | no error is returned exactly when no node was cancelled and every image of every node is named and was pulled; a returned error is the first one sent, and is the cancellation or the first failing image of the node that sent it |
| `ImagePull.OutcomeGood` | core/image.go:75-120 | a node reports no error if and only if it has a name for, and a good pull of, each of its images |
| `HostsText.MarkersDiffer` | core/hostsfile.go:19-20 | markers tell labs apart, and no start marker of any lab is an end marker of any lab |
| `HostsText.MarkersTrimmed` | core/hostsfile.go:113-116 | a marker line trimmed is the marker |
| `HostsText.TrimSpaceIs` | core/hostsfile.go:113-116 | trimming takes all white space off both ends and nothing else |
| `HostsText.SpacesAre` | core/hostsfile.go:113-116 | white space is that of Unicode, code point by code point |
| `HostsFile.ToHostsConfig` | types/hostentry.go:49-63 | the text of the entries of a version is their lines in order |
| `HostsFile.LinesAre` | types/hostentry.go:36-63 | a line is written exactly when it is address, tab, name, the first twelve characters of a long enough container id and the description of an entry of the version asked for |
| `HostsFile.LinesJoin` | types/hostentry.go:49-63 | the lines of a list are those of its parts, so order and number are those of the entries |
| `HostsFile.BlockIs` | core/hostsfile.go:64-72 | a block is the two marker lines and, between them, the line of every IPv4 entry and then of every IPv6 entry, and no other |
| `HostsFile.File.ReadLine` | core/hostsfile.go:104-107 | reads the lines of the text one by one and drops an unterminated last one |
| `HostsFile.File.DeleteEntriesFromHostsFile` | core/hostsfile.go:81-143 | the loop over the text computes the sweep of its lines; an unclosed block leaves the file alone |
| `HostsFile.File.AppendHostsFileEntries` | core/hostsfile.go:26-79 | replaces the lab's block by a new one at the end; a failure to collect entries is found after the old block has gone; a missing file ends as the localhost line and the block |
| `HostsFile.SweepBlock` | core/hostsfile.go:113-121 | a lab's own block is swept away whole, another lab's block is kept whole |
| `HostsFile.SweepKeepsAllIff` | core/hostsfile.go:113-121 | nothing is dropped if and only if no line is a marker of the lab |
| `HostsFileRuns.SweepRepresented` | core/hostsfile.go:81-143 | on base lines and complete blocks, a deletion removes exactly the lab's block and keeps all other lines in order |
| `HostsFileRuns.Run` | core/hostsfile.go:26-143 | over any sequence of appends and deletions by any labs the file is the base lines and one complete block for each lab last appended; operations fail only for want of a name or of entries |
| `HostsFileRuns.UnchangedIff` | core/hostsfile.go:97-122 | a deletion gives back the very text exactly when its last line is terminated and no line is a marker of the lab |
| `HostsFileRuns.AppendThenDelete` | core/hostsfile.go:26-143 | on every text without an unclosed block, appending and deleting is deleting, so the identity under exactly that condition |
| `VethDeploy.LinkVEth.DeployAEnd` | links/link_veth.go:128-194 | success places the first end, and the other too when it belongs to no node; the link is left half deployed in that case exactly when the first end goes well and the other does not; any other failure leaves the state |
| `VethDeploy.LinkVEth.DeployBEnd` | links/link_veth.go:196-232 | success completes the link; an end that is no longer under its temporary name is a permanent error without effect |
| `VethDeploy.LinkVEth.GetEndpointIndex` | links/link_veth.go:236-255 | the position of the endpoint in the link, or that it does not belong to it |
| `VethDeploy.LinkVEth.Deploy` | links/link_veth.go:274-321 | a transient failure is returned after the third attempt only; from a new link with a cleanup that works, m < 3 transient failures and then a good attempt give success after m + 1 attempts, and an interrupted wait ends the call; a foreign endpoint and a deployed link change nothing; the caller's end is placed on success |
| `VethDeploy.LinkVEth.Remove` | links/link_veth.go:323-337 | a working removal leaves no pair; removing twice changes nothing |
| `VethDeploy.Run` | links/link_veth.go:274-337 | over any sequence of calls by both endpoints, with faults: at most one pair, half deployed means exactly one end placed, fully deployed both |
| `VethDeploy.DeployBoth` | links/link_veth.go:290-304 | without faults the link is complete after one attempt by each endpoint, or by one when the other belongs to no node |
| `VethDeploy.NodelessEndStaysOut` | links/link_veth.go:189-191 | from a new link: when such an end fails to deploy, no number of calls by the placed end changes anything |
| `VethDeploy.DeploySucceedsIff` | links/link_veth.go:274-321 | from every state, a call without faults succeeds if and only if the link is not half deployed with the caller's end gone from its temporary name and no failed cleanup left a pair behind; otherwise it changes nothing |
| `ClosTopology.GenerateTopologyConfig` | cmd/generate.go:311-375 | one link for each pair of nodes of neighbouring stages, in loop order, as many as the sum of the products; the nodes defined are exactly those that the loops meet |
| `ClosTopology.InterfaceUsedOnce` | cmd/generate.go:353-364 | no interface of a node is in two links or at both ends of one |
| `ClosTopology.InterfacesAre` | cmd/generate.go:327-362 | a node uses exactly the interfaces numbered from one to the sizes of its two neighbouring stages |
| `ClosTopology.FullyMeshed` | cmd/generate.go:326-375 | every two nodes of neighbouring stages are linked, at the interfaces that their positions and the size of the stage before give, under the names that stage and position give |
| `ClosTopology.NamesDiffer` | cmd/generate.go:333-343 | different stages or positions have different names, whatever the prefix |
| `ClosTopology.DecimalIs` | cmd/generate.go:333-343 | positions are written in decimal digits without leading zeros |
| `NetlinkEvents.Watcher.constructor` | core/events/netlink.go:278-306 | the initial snapshots, impairments included, tell the whole state map |
| `NetlinkEvents.Watcher.ProcessUpdate` | core/events/netlink.go:360-417 | the state of an updated interface has every attribute of the update and the impairments queried, a deleted one is gone, all others are as before; a new interface is reported created, a deleted one deleted; the events still tell the map |
| `NetlinkEvents.Watcher.PollNetemChanges` | core/events/netlink.go:420-453 | every interface has the impairments just queried, and the events still tell the map |
| `NetlinkEvents.EqualIsAllButStats` | core/events/netlink.go:400-415 | a state counts as unchanged exactly when nothing but the counters differs |
| `NetlinkEvents.Run` | core/events/netlink.go:340-357 | over every sequence of updates and polls, replaying the events gives exactly the state map |
| `NetlinkEvents.TruthfulSplit` | core/events/netlink.go:400-415 | every creation event is of an interface absent from the replay so far, every update event changes one that is present |
| `HostAddress.IntToIP` | utils/ip.go:147-162 | packing the stripped bytes into the end gives the address with that value |
| `HostAddress.RoundTrip` | utils/ip.go:140-162 | an address turned into an integer and back is the same address, leading zero bytes included |
| `HostAddress.FirstByte` | utils/ip.go:140-145 | the first byte of an address is the most significant |
| `HostAddress.OrIsSum` | utils/ip.go:164-171 | on disjoint bits the bitwise or is the sum |
| `HostAddress.OrBit` | utils/ip.go:164-171 | a bit of the or is set exactly when it is set in one of the two |
| `HostAddress.HostBig` | utils/ip.go:110-138 | for every prefix of b bits in an address of s bytes, with h = 8 s - b: succeeds if and only if -2^h <= n < 2^h; the address is in the prefix and is the address cleared below bit h plus n modulo 2^h; n itself is changed as stated |
| `HostAddress.SameHost` | utils/ip.go:110-138 | two host numbers give the same address exactly when they agree modulo 2^h, so different non-negative ones never do |
| `TemplateSeq.Seq` | utils/template.go:209-274 | start, start plus step and so on, never past the end, and one more step would be past it; empty for a zero step |
| `TemplateSeq.StepsUnique` | utils/template.go:202-207 | that description has only one answer |
| `TemplateSeq.Defaults` | utils/template.go:209-247 | start and step are 1 unless given; other numbers of arguments and arguments that are no numbers are errors |
| `TemplateSeq.Examples` | utils/template.go:202-207 | counting up, in steps, and down whatever the sign of the step |

## Left out

- Kernel, container runtime, namespaces and symlinks: oracles that may succeed or fail. Errors of reading or writing files are not modelled.
- Progress after the context is cancelled; nodes that depend on a failed one stay blocked, as `StageSafety.FailedBlocks` says.
- PoolStarvation.PoolBoundIsExact: exact over all topologies with k such nodes; a single one may need fewer workers, for instance when a node also awaits at create what it awaits later.
- Stages outside the five of types/stages.go:332-337 in wait-for entries: a wait group that does not exist would be used.
- A network mode `container:` without a name, which indexes past the end; the model takes the name already split off.
- Startup delays, the contents of execs, log output, and execs run inside Done and EnterStage, of which only the return is kept.
- Aliasing between slices: lists are sequence-valued fields, updated in place as values.
- The order of map iteration, which is arbitrary in the model.
- DependencyManagement.DependencyManager.AddNode: asks for a new name; a second node under a registered name, which replaces the first in the source, cannot come up because the names are the keys of the node map (core/deploy.go:307-309).
- Whether an interface whose move failed is up; the rollback does not bring it up.
- Endpoint identity over a restart: a restore uses a new parking node, so the round trip is by name.
- LifecycleRuns.Run: follows interfaces whose peer is in neither the node's nor the parking namespace, as for every link between two nodes; what happens to the others is `StopThenStart`.
- Parking.ListOwnedInterfaceNames: the source looks for an interface with the peer's index; indices of different namespaces may coincide by chance, while the model compares identities.
- Lifecycle.DefaultNode.Stop: compensating operations (rollback moves, the restore in the failure handler, namespace deletion) are taken to succeed.
- Peer interfaces in other namespaces that disappear with a deleted namespace.
- ImagePull.EachPulledOnce: the key ignores the runtime, as in the source, so nothing is claimed about each runtime having its image.
- HostsFileRuns.Run: lab names have no newline, which schemas/clab.schema.json:1843-1847 demands, and addresses do not start with white space or a number sign.
- VethDeploy.Run: removal of a placed end is taken to work; if both removals fail, a later deployment makes a second pair. Deploy calls are serialised, as by the mutex.
- ClosTopology.GenerateTopologyConfig: interface numbers, not the names formatted from them; images, licences and management addresses.
- NetlinkEvents.Run: statistics, which rewrite states without an update event, and the formatting of events; impairment values are real numbers, without NaN.
- HostAddress.HostBig: numbers outside int64, for which the truncation in the source is undefined; its only caller passes an int64.
- TemplateSeq.Seq: overflow of int64; the model counts with integers.
- Command line, certificates, inventories, graphs, git, SSH and the node kinds: nothing there has a claim of this kind.
