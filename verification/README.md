# Proofs about the JVB operator

This project models the parts of the meeting operator that keep state in a Kubernetes cluster: the
reconciler of the JVB custom resource, which manages numbered Deployments, Services, exporter
Services and SIP ConfigMaps itself; the autoscaler that writes the replica count of that resource; and
the last-write-wins folds over environment lists. It proves what the reconciler achieves, what holds
at every API call, what survives crashes and conflicts, and where the code falls short of its intent.

## How the model is built

- `Basics`, `Naming`, `Resources`: 32-bit integers, object names, specs and the values built from
  them. A store maps names to Deployments, Services and ConfigMaps. Names are structured values;
  `Naming` proves that rendering them as the source does loses nothing.
- `Api`: the API server. Every request may be struck by a fault: a version conflict, a request that
  never arrives, or one that takes effect while the reply is lost. A `World` is the store, the JVB object,
  the watch events, the faults still to come and the log of requests that took effect. A crash is a run
  cut at any point of its log.
- `Program`: one reconcile as a function of the world it starts in.
- `Clusters`, `Controller`, `Finalizers`, `Scaler`: the same code in the form of the source, classes whose
  methods overwrite `envs`, `replicaName`, `replica` and the cluster in loops. Each method is proved to
  compute the function of `Program` under every sequence of faults. The rows of the loops and of
  `Reconcile` stand for this refinement; the methods without branches to speak of have the same form.
- `Environment`, `FaultFree`, `UnderFaults`, `Footprint`, `Conflicts`: what a reconcile leaves behind
  without faults (exactly, replica by replica), what each of its steps does under any, which requests it
  may make under any, and what it still achieves when conflicts are the only ones.
- `Recovery`, `Lifecycle`, `BrokenPrefix`, `Deletion`, `Removal`: fixpoints, crash recovery, wiring, the
  prefix property and the faults that break it, whole lifecycles, and deletions that are cut short.
- `EventLoop`, `SelfTrigger`, `Uninterrupted`, `Requeue`, `Exactness`, `SpecShown`: the controller's queue,
  event filter and watch events as a state machine in which reconciles interleave, request by request,
  with edits and crashes.
- `Autoscaler`, `Turn`: the scaling arithmetic over the reals, and prosody's TURN configuration.

## Assumptions

- There is one JVB object in a namespace, because the names of its children do not include its own.
- `Spec.Replicas` is below the greatest int32: the source's loops do not end at that value. Ports are
  int32 sums and wrap around; two replicas of one spec still never share a port.
- Reads of child objects see the latest writes. Reads of the JVB object may be outdated, and writes of
  it are version-checked.
- The external address of a LoadBalancer Service is a fixed function of the Service during a reconcile.
- Rendered text (SIP options, logging properties, the shutdown script) is kept as the template together
  with what it is rendered from.
- Watch events are delivered one at a time and in order. A crash loses them, but the restarted
  controller lists its objects, so the object is queued. A write that changes nothing raises no version
  and causes no event.
- Samples are real numbers. Where a rounded value does not fit an int32, the number the conversion gives
  is a parameter, as Go leaves it to the platform.
- The TURN configuration reads Secrets of one namespace that do not change meanwhile.

## Where the code differs from its intent

The model follows the code in each case.

- `additionalEnvironments` writes the generated block back to the shared list
  (`internal/jitsi/jvb/deployment.go:353` and `:365`), so all replicas announce the port of the first one
  created. See `Recovery.OneBlockForAll` and `Recovery.FixpointAfterOneIff`.
- The averaging loops assign `sum = +value` (`internal/jitsiautoscaler/influx.go:72`,
  `internal/jitsiautoscaler/prom.go:71`). Scaling up stays sound; scaling down is sound only for answers
  whose mean and aggregate have the same integral part. See `Autoscaler.ScaleDownIsSoundIff`.
- `deleteService` does not look for the exporter Service once the main Service is gone
  (`internal/jitsi/jvb/deployment.go:582-585`). See `Recovery.CutStrandsExporter`.
- The exporter Service is created but never updated (`internal/jitsi/jvb/deployment.go:166-170`). See
  `Lifecycle.ExporterPortIff`.
- The scale-down loop stops at replica 1 (`internal/jitsi/jvb/deployment.go:488`), so scaling to zero
  keeps it. See `Deletion.LeakFreeLifecycle` and `Deletion.ScalingToZeroLeaks`.
- `Delete` releases the object before it removes the children
  (`internal/jitsi/jvb/deployment.go:549`), so a deletion that is cut short is not resumed, unless somebody
  else holds a finalizer. A release that fails is not retried. See `Removal`.
- Failing updates of children are logged and swallowed (`internal/jitsi/jvb/deployment.go:478-480`), so the
  status may be written although a pod is outdated. See `SpecShown.PodShownIff` and
  `SpecShown.OldImageStays`.
- So are failing deletions in the scale-down loop (`internal/jitsi/jvb/deployment.go:490-495`); the replica
  then stays for good. See `Exactness.FailedDeletionStrands`.
- The event filter drops every update that puts the first finalizers on the object
  (`internal/jitsi/jvb/controller.go:115-117`), even if it changes the spec. See `EventLoop.EditIsLostIff`.
- A replica that cannot be read counts as existing (`internal/jitsi/jvb/deployment.go:79-84`). See
  `BrokenPrefix.PrefixUnderFaultsIff`.
- An edit that lands during a reconcile can strand replicas. See
  `Uninterrupted.EditDuringReconcileStrands` and `Exactness.QuiescentExactIff`.
- The int32 product of a scale-up can leave the range. See `Autoscaler.InRangeIff` and
  `Autoscaler.StepIsMonotoneIff`.

## Model

| member | source | states |
|---|---|---|
| Naming.ItoaInjective | internal/jitsi/jvb/deployment.go:52 | two indices print the same in decimal only if they are equal, negative ones included |
| Naming.NamesInFull | internal/jitsi/jvb/deployment.go:156 | the five families of names as the format strings of the source give them |
| Naming.RenderInjective | internal/jitsi/jvb/deployment.go:201 | `jvb-r`, `exporter-jvb-r`, `jvb-r-custom-sip` and the two fixed ConfigMap names are pairwise distinct strings for all r, and distinct from every name the operator never builds |
| Naming.NamesAreFaithful | internal/jitsi/jvb/deployment.go:411-420 | reading, writing and deleting by structured name is doing so by the rendered string, so the frame conditions of the loops hold for the strings the API server sees |
| Environment.ExtendEnvOnce | internal/jitsi/jvb/deployment.go:336-370 | because the block is written back to the shared list, a second replica gets exactly the list the first one got |
| Environment.BlockWantedIff | internal/jitsi/jvb/deployment.go:338-369 | the list is extended if and only if the protocol is TCP or UDP and no entry is named JVB_PORT |
| Environment.BlockAnnounces | internal/jitsi/jvb/deployment.go:343-383 | what a pod reads in the extended list: under UDP its JVB_PORT, under TCP the fixed 30300 and the port under four other names, the port being the spec's, or 10000, plus the index; DOCKER_HOST_ADDRESS is the user's last one if there is one, else the LoadBalancer address or empty |
| Environment.BlockKeepsTheRest | internal/jitsi/jvb/deployment.go:353-366 | the user's entries stay in front, every added entry is a literal under one of six names, and every other variable reads as before |
| Environment.LastValueIsLast | internal/jitsi/jvb/deployment.go:142-148 | the logging level is looked up in the last entry of the name, and the lookup finds something exactly when the name occurs |
| Environment.LoggingUnaffected | internal/jitsi/jvb/deployment.go:142-148 | the generated block never changes the logging level, so the logging ConfigMap written before and after the block is the same |
| Controller.EnvExists | internal/jitsi/jvb/deployment.go:631-649 | the loop answers true exactly when some entry has the name |
| Controller.FindLoggingLevel | internal/jitsi/jvb/deployment.go:142-148 | the level loop computes the value of the last entry named LOGGING_LEVEL, or INFO if there is none |
| Controller.Jvb.AdditionalEnvironments | internal/jitsi/jvb/deployment.go:336-370 | the new shared list and the returned list are both the old list extended for this replica |
| Controller.Jvb.Create | internal/jitsi/jvb/deployment.go:49-68 | under every fault the loop leaves the cluster, its request log and the environment list as the recursive program does |
| Controller.Jvb.UpdateReplicaCount | internal/jitsi/jvb/deployment.go:485-499 | under every fault the descending loop, which swallows errors, leaves the cluster as the recursive program does; it terminates for every status and spec |
| Controller.Jvb.Update | internal/jitsi/jvb/deployment.go:453-483 | a replica that cannot be read ends the update with an error and no status write; otherwise the status write decides the outcome |
| Controller.Jvb.DeleteConfigMaps | internal/jitsi/jvb/deployment.go:614-629 | exactly the ConfigMaps labelled app=jvb are requested to go, each once, whatever becomes of the others |
| Controller.Jvb.Delete | internal/jitsi/jvb/deployment.go:548-565 | the object is released first, then replicas 1..n and all labelled ConfigMaps of the original store are removed; every error is swallowed |
| Controller.Reconciler.Reconcile | internal/jitsi/jvb/controller.go:57-107 | under every fault the imperative reconcile leaves the same cluster and reports the same outcome as the functional program, whose outcome Requeue.FetchDecides and Requeue.DoneMeans pin down; a deletion gets the listing of the original store |
| Requeue.FetchDecides | internal/jitsi/jvb/controller.go:60-67 | a fetch of the object that fails is reported as an error and changes nothing; a missing object and one being deleted are reported as done |
| Requeue.DoneMeans | internal/jitsi/jvb/controller.go:68-76 | whatever faults strike it, a reconcile of a live object that reports success leaves the object with its spec and that spec's count as status, and replicas 1..n in existence |
| Requeue.ReconcileFollowsObject | internal/jitsi/jvb/controller.go:78-107 | without faults, new replicas carry the object's annotations and image, Services its type and annotations, existing Deployments keep their own annotations, and replicas between spec and status go |
| UnderFaults.EnsureServiceEffect | internal/jitsi/jvb/deployment.go:163-180 | under any faults the main Service is created where the read says it is missing, overwritten except for its selector where the read finds it, and left alone where the read fails |
| UnderFaults.WithExporterEffect | internal/jitsi/jvb/deployment.go:166-170 | the exporter Service is created, with the metrics port and the replica's label, exactly if no exporter type is given, there is none, and the request arrives |
| UnderFaults.PutEffect | internal/jitsi/jvb/deployment.go:459-467 | under any faults an update of a ConfigMap that finds nothing is followed by a creation; no other failure is |
| UnderFaults.UpdateReplicaEffect | internal/jitsi/jvb/deployment.go:459-480 | under any faults the update of a replica succeeds exactly if its read finds it, and then replaces the pod alone unless that write is refused or dropped, whatever became of the SIP options and Services |
| UnderFaults.DropServiceEffect | internal/jitsi/jvb/deployment.go:580-601 | under any faults the main Service goes if it is read and the deletion arrives; the exporter Service only after that deletion is confirmed |
| UnderFaults.DropReplicaEffect | internal/jitsi/jvb/deployment.go:490-495 | under any faults the Deployment goes exactly if its own read and deletion get through, whatever became of the Services |
| UnderFaults.DropsInOrder | internal/jitsi/jvb/deployment.go:552-560 | deletion drops the replicas 1, 2, ..., n in this order, errors notwithstanding |
| UnderFaults.DropConfigMapsEffect | internal/jitsi/jvb/deployment.go:623-627 | a listed ConfigMap stays exactly if its own deletion is dropped; no error stops the others |
| UnderFaults.ListingDecides | internal/jitsi/jvb/deployment.go:620-622 | without a listing no ConfigMap is deleted |
| UnderFaults.AddFinalizerEffect | internal/utils/finalizers.go:13-21 | under any faults: no write when the operator's finalizer is there; otherwise it is added behind the others and nothing else changes, in the stored object if the write takes effect and in the caller's copy always |
| UnderFaults.WithoutLaws | internal/utils/finalizers.go:27 | removing a finalizer commutes with concatenation and takes away every occurrence of it and nothing else |
| Clusters.Cluster.ListConfigMaps | internal/jitsi/jvb/deployment.go:614-622 | the listing names every ConfigMap with the label exactly once and no other |
| FaultFree.ChildrenFree | internal/jitsi/jvb/deployment.go:49-68 | a fault-free reconcile always succeeds and leaves exactly the store described replica by replica: wanted replicas as the spec has them, doomed ones gone, all else untouched |
| FaultFree.ConvergedIsUnique | internal/jitsi/jvb/deployment.go:453-483 | that description determines the store completely |
| FaultFree.ScaleDownTargets | internal/jitsi/jvb/deployment.go:485-499 | for every status above the spec the loop visits status, status-1, ... down to but without max(spec, 1), each once, whatever is missing or fails; from a status below 1 it goes down to the spec |
| FaultFree.ScaleDownFromFree | internal/jitsi/jvb/deployment.go:485-499 | without faults precisely those slots are emptied and no other object changes |
| FaultFree.DropReplicaFree | internal/jitsi/jvb/deployment.go:567-601 | Deployment and Service of a replica go; its exporter Service goes only if the main Service was there; nothing else changes |
| Footprint.ChildrenFootprint | internal/jitsi/jvb/deployment.go:49-68 | under arbitrary faults every request that takes effect is legitimate for the plan and the object is left alone; and as long as conflicts are the only faults, replicas come up in ascending and go in descending order |
| Lifecycle.ServedIndices | internal/jitsi/jvb/deployment.go:485-499 | no fault makes a reconcile delete a Deployment with index up to the spec, or write one above it |
| Recovery.FixpointAfterTwo | internal/jitsi/jvb/deployment.go:453-483 | for every store and plan all reconciles from the second on leave the store of the second |
| Recovery.FixpointAfterOneIff | internal/jitsi/jvb/deployment.go:336-370 | one reconcile suffices if and only if there are no replicas, JVB_PORT is given by the user, the protocol is neither TCP nor UDP, replica 1 is the first missing, or none is missing |
| Recovery.OneBlockForAll | internal/jitsi/jvb/deployment.go:336-370 | after one reconcile every replica holds the same list, the spec's followed by one block for the least index that was missing (1 if none); it is the block for a replica's own port only for that index |
| Recovery.CrashRecovery | internal/jitsi/jvb/deployment.go:49-68 | after any sequence of reconciles cut at any request and struck by any faults, one fault-free reconcile yields the Deployments, ports, Services and ConfigMaps of an undisturbed run; environment lists and the exporter Services of removed replicas are excepted |
| Recovery.CrashRecoveryExactIff | internal/jitsi/jvb/deployment.go:567-601 | the stores are equal altogether if and only if the first missing index is the one of the undisturbed run (where a block is generated at all), and the same removed replicas have an exporter Service without a main Service |
| Recovery.CutStrandsExporter | internal/jitsi/jvb/deployment.go:580-601 | the exception is real: for every store and plan that scale down a replica with an exporter, cutting between the two deletions leaves an exporter Service that the next complete reconcile keeps, while an undisturbed one removes it |
| Lifecycle.WiringTheorem | internal/jitsi/jvb/deployment.go:163-196 | after any history of edits, complete, failing and crashing reconciles, a complete reconcile leaves for each r in 1..n: Service port, target port and container port r above the spec's port, or above 10000 if it has none; the Service's type and annotations those of the spec; a selector that matches the pods of Deployment r and of no other, ports pairwise distinct, and an exporter Service that selects the same pods |
| Lifecycle.ConfigurationTheorem | internal/jitsi/jvb/deployment.go:313-334 | from any store a complete reconcile leaves each replica with the image and exporter container of the spec, mounting its own SIP ConfigMap, the two shared ones and, for telegraf, the exporter's; the three exist with the contents the spec asks for |
| Lifecycle.ReplicaAfter | internal/jitsi/jvb/deployment.go:163-236 | from any store a complete reconcile leaves each wanted replica's Services field by field as the spec says, only the selector of an existing main Service and an existing exporter Service surviving; of an existing Deployment all but the pod survives, a new one carries the object's annotations |
| Lifecycle.OthersAfter | internal/jitsi/jvb/deployment.go:485-499 | a replica between spec and status loses Deployment, Service and, with it, exporter, but keeps its SIP ConfigMap; all others are left alone |
| Lifecycle.ExporterPortIff | internal/jitsi/jvb/deployment.go:163-171 | the exporter Service tells the metrics port of the spec if and only if it was absent before or told that port already, since it is created but never updated |
| Lifecycle.EquippedAtEveryStep | internal/jitsi/jvb/deployment.go:50-65 | at every API call of a reconcile that meets conflicts at most, every replica finds the ConfigMaps it mounts, and none is created before its Service |
| Lifecycle.OrderlyKeepsInStep | internal/jitsi/jvb/deployment.go:51-66 | a single request of a run that meets conflicts at most keeps the existing indices an interval 1..k between spec and status |
| Lifecycle.PrefixAtEveryStep | internal/jitsi/jvb/deployment.go:485-499 | if the spec changes only after a finished reconcile, then at every API call, with reconciles cut off anywhere, struck by any version conflicts and retried, the existing Deployment indices are 1..k for some k between spec and status |
| Lifecycle.PatientInvariant | internal/jitsi/jvb/deployment.go:485-499 | in such a history a finished reconcile leaves status equal to spec and exactly the replicas 1..n, or at most replica 1 when none is asked for |
| BrokenPrefix.PrefixUnderFaultsIff | internal/jitsi/jvb/deployment.go:51-66 | from a store without replicas and under any faults, the existing indices are 1..k for some k at every API call of the reconcile if and only if no replica comes up above one whose read fails or whose Deployment create is dropped; other lost requests do not matter |
| BrokenPrefix.LostReadBreaksPrefix | internal/jitsi/jvb/deployment.go:79-84 | a witness: for every store without replicas and every spec of two or more, one lost read of replica 1 leads to a state with replica 2 and without replica 1 |
| Deletion.LeakFreeLifecycle | internal/jitsi/jvb/deployment.go:548-629 | from a namespace without jvb objects, any sequence of spec changes to whatever counts and complete reconciles that ends with a reconcile, followed by the deletion, restores the namespace store exactly if and only if the last spec asks for a replica or no reconcile was ever asked for one |
| Deletion.FirstReplicaStays | internal/jitsi/jvb/deployment.go:485-499 | in such a history replica 1 exists exactly if some completed reconcile was asked for a replica |
| Deletion.DeletionSweepsIff | internal/jitsi/jvb/deployment.go:548-565 | a fault-free deletion leaves no Deployment, Service, exporter or labelled ConfigMap if and only if all replicas are within 1..n and no exporter is without its main Service |
| Deletion.ScalingToZeroLeaks | internal/jitsi/jvb/deployment.go:488-488 | whenever replica 1 exists and the last spec asks for none, the deletion after the reconcile leaves it |
| Removal.CutDeletionResumesIff | internal/jitsi/jvb/deployment.go:548-565 | a deletion cut before or after its release, at any request and under any faults, is taken up again by the next reconcile, which deletes all of 1..n, if and only if the release did not land or the object has another finalizer; otherwise the next reconcile changes nothing, and neither does any later one |
| Removal.ResumedDeletionEnds | internal/jitsi/jvb/deployment.go:567-629 | however often a deletion is cut and struck by faults, as long as the object is there, for which a foreign finalizer is enough, a fault-free reconcile ends in the store of an undisturbed deletion, up to exporter Services whose main Service went in a cut attempt and which stay; exactly there if and only if there are none |
| Removal.FailedReleaseIsNotRetried | internal/jitsi/jvb/deployment.go:548-551 | when the release fails, the reconcile reports success and no event follows: the object stays with its finalizer and nothing due; when it lands, there is an event |
| Removal.ConfigMapsGoLast | internal/jitsi/jvb/deployment.go:552-563 | under any faults a deletion turns to the ConfigMaps only when it is through with all replicas |
| Conflicts.GentleChildren | internal/jitsi/jvb/deployment.go:453-483 | a reconcile disturbed by nothing but version conflicts still runs to its end, with every wanted replica present and every doomed one gone |
| EventLoop.RunKeepsInv | internal/jitsi/jvb/controller.go:57-122 | under every fault on every request, as long as no edit escapes the filter at rest, an idle controller has a wake-up pending or status and Deployments are as the spec asks |
| EventLoop.QuiescentMeansConverged | internal/jitsi/jvb/controller.go:109-122 | from whatever namespace a controller that is due starts in, whenever queue, inbox and controller are empty, status equals spec and Deployments 1..n exist: for every interleaving of edits, stale reads, crashes, conflicts, dropped, lost and swallowed requests and reconciles |
| EventLoop.EditIsLostIff | internal/jitsi/jvb/controller.go:115-117 | the proviso on edits is exact: an edit of the count in a settled quiescent state leaves the controller quiescent and unsettled if and only if it also puts the first finalizers on the object |
| SpecShown.QuiescentMeansShown | internal/jitsi/jvb/deployment.go:453-483 | where no fault strikes requests on children, a quiescent state shows the current spec: every replica is wired up, configured and runs the pod the spec describes, in spite of edits, crashes, outdated reads and any faults on finalizer and status writes, from whatever namespace in which Services and pods carry the label of their own replica |
| SpecShown.PodShownIff | internal/jitsi/jvb/deployment.go:476-480 | under conflicts the update still succeeds, but a replica runs the pod of the spec if and only if no conflict refused the write of its Deployment, or it ran that pod before |
| SpecShown.ConflictHidesSpec | internal/jitsi/jvb/deployment.go:478-480 | the proviso on faults is needed: whenever a reconcile of an object with its finalizer is due and its replicas all exist, a single conflict can end it in a quiescent state, status written, with the old Deployment of replica 1; if that is outdated, the state does not show the spec |
| SpecShown.OldImageStays | internal/jitsi/jvb/deployment.go:476-480 | every new object with a replica, an edit of its image and one conflict reach such a state: quiescent, status as asked, the old image running |
| EventLoop.QuietMeansExact | internal/jitsi/jvb/deployment.go:485-499 | if conflicts are the only failures and no edit, crash or outdated read struck a reconcile, the Deployments are exactly 1..n, for n of at least 1, provided they were those of the status at first |
| Exactness.AfterExactIff | internal/jitsi/jvb/deployment.go:485-499 | a fault-free reconcile leaves exactly the replicas 1..n, for n of at least 1, if and only if it finds none outside 1..max(spec, status) |
| Exactness.GentleExactIff | internal/jitsi/jvb/deployment.go:485-499 | the same for a reconcile that meets version conflicts |
| Exactness.QuiescentExactIff | internal/jitsi/jvb/deployment.go:485-499 | a quiescent state has exactly the Deployments 1..n if and only if the latest reconcile found none outside 1..max(spec, status), for every interleaving with edits, crashes, outdated reads, faults on the object's writes and conflicts on children |
| Exactness.OverhangIsForGood | internal/jitsi/jvb/deployment.go:486-488 | once the status is that of the spec, a replica above it exists after any number of further reconciles exactly if it does now |
| Exactness.FailedDeletionStrands | internal/jitsi/jvb/deployment.go:490-495 | for every store with all replicas and every plan that scales down by one to at least one, one dropped deletion of the Deployment is swallowed: the reconcile succeeds, and the replica stays for good, although an undisturbed reconcile removes it |
| Uninterrupted.EditDuringReconcileStrands | internal/jitsi/jvb/deployment.go:485-499 | a family of runs in which it is not exact: for every new object and every smaller count, an edit that the filter hears during the first reconcile leads to a quiescent state that still has a replica above the spec |
| EventLoop.ReplicaCeiling | internal/jitsi/jvb/deployment.go:51-66 | from any state within a limit, as long as no edit asks for more, no interleaving with crashes, conflicts, lost requests and swallowed errors lets a Deployment exist outside 1..limit, at any atomic step |
| Uninterrupted.TurnIsReconcile | internal/jitsi/jvb/controller.go:57-107 | a turn of the event loop that nothing interrupts is the reconcile function: same store, same object, same events, same requeueing |
| Requeue.StruckTurnIsReconcile | internal/jitsi/jvb/controller.go:57-107 | under any faults a turn of the event loop that nothing else interrupts is the reconcile function: same store, same object, same events, and queued again exactly when the function reports an error |
| Uninterrupted.ReconcileCompletes | internal/jitsi/jvb/controller.go:57-76 | a fault-free reconcile of a live object is the completed reconcile of the lifecycle theorems: same children, and the next reconcile reads the written status |
| Uninterrupted.ReconcileDeletes | internal/jitsi/jvb/deployment.go:548-565 | a fault-free reconcile of an object being deleted is the deletion of the lifecycle theorems |
| SelfTrigger.SelfTriggerBound | internal/jitsi/jvb/controller.go:96-122 | a fault-free reconcile's own writes put at most one wake-up through the filter, exactly when the finalizer is added to a non-empty list or removed from an object being deleted; the next reconcile causes none |
| SelfTrigger.LiveReconcile | internal/jitsi/jvb/controller.go:68-76 | a fault-free reconcile of a live object succeeds, leaves the finalizer, the status equal to the spec and the converged children; with nothing to change it does not touch the object |
| SelfTrigger.LoopTerminates | internal/jitsi/jvb/controller.go:96-122 | with no outside writes and no faults the loop is silent after two turns, and after one unless the reconcile wakes itself |
| Autoscaler.RoundToEvenIsNearest | internal/jitsiautoscaler/influx.go:26-32 | rounding gives the nearest integer, of two equally near ones the even one, and no other integer qualifies |
| Autoscaler.CountAvgInflux | internal/jitsiautoscaler/influx.go:51-76 | the loop returns the last numeric row divided by the number of all rows; NaN exactly for an empty answer, 0 for a failed query |
| Autoscaler.CountAvgProm | internal/jitsiautoscaler/prom.go:59-74 | the second sample of the last series divided by the number of series, NaN for an empty matrix; 1 for a failed query, 0 for an answer that is no matrix; no result exactly when some series lacks a second sample, where the source panics |
| Autoscaler.AveragesWithoutSamples | internal/jitsiautoscaler/prom.go:46-68 | an unknown metric reads as 0; a failed query as 0 for Influx and 1 for Prometheus |
| Autoscaler.AggregateBelowMean | internal/jitsiautoscaler/influx.go:65-75 | for non-negative samples that value never exceeds the true mean, whether or not the non-numeric rows are counted |
| Autoscaler.ScaleUpIsSound | internal/jitsiautoscaler/influx.go:22-36 | taking the scale-up branch implies that the true mean reaches the target |
| Autoscaler.AggregateIsMeanIff | internal/jitsiautoscaler/influx.go:65-75 | for non-negative samples that are not all zero the value is the true mean if and only if every row is numeric and all but the last one are zero |
| Autoscaler.ScaleDownIsSoundIff | internal/jitsiautoscaler/influx.go:25-31 | for non-negative samples the scale-down branch is right for every int32 target if and only if aggregate and mean have the same integral part, or the aggregate reaches the greatest target |
| Autoscaler.ScaleDownAtRealsIff | internal/jitsiautoscaler/influx.go:25-31 | were targets real numbers: if and only if all samples are zero, or all rows are numeric and only the last is not zero |
| Autoscaler.ScaleDownCanBeWrong | internal/jitsiautoscaler/influx.go:25-31 | a witness that it can be wrong: two samples with mean 55 fall below a target of 20 |
| Autoscaler.ScaleDownIsMinimum | internal/jitsiautoscaler/influx.go:90-100 | with a minimum of at least 1 any scale-down goes straight to the minimum |
| Autoscaler.NeverAboveMaximum | internal/jitsiautoscaler/influx.go:78-88 | for positive targets no reading and no count lead above the maximum, overflow included |
| Autoscaler.NeverAboveMaximumAtAll | internal/jitsiautoscaler/influx.go:22-36 | nor do targets of 0 or less, a NaN average, or conversions to int32 that the platform decides, as long as samples are not negative |
| Autoscaler.PlatformDecides | internal/jitsiautoscaler/influx.go:32-33 | a NaN average, a target of 0 and a factor beyond int32 scale up by the number the platform's conversion gives, clamped by the maximum |
| Autoscaler.InRangeIff | internal/jitsiautoscaler/prom.go:76-98 | from within the range the next count stays in it if and only if the int32 product does not wrap below the minimum; it never does without overflow |
| Autoscaler.RangeAlwaysKeptIff | internal/jitsiautoscaler/prom.go:76-86 | it stays in the range for every reading whose factor is an int32 if and only if the current count is 1 |
| Autoscaler.OverflowLeavesRange | internal/jitsiautoscaler/prom.go:76-86 | a concrete overflow takes the count below the minimum |
| Autoscaler.StepIsMonotone | internal/jitsiautoscaler/prom.go:27-44 | for products within int32 the next count is within the range and does not decrease as the average grows, across both branches and at ties |
| Autoscaler.StepIsMonotoneIff | internal/jitsiautoscaler/prom.go:76-98 | the step is monotone over all readings with a factor up to some bound if and only if the count times that bound is within int32 |
| Autoscaler.ScaleUpsMultiply | internal/jitsiautoscaler/influx.go:78-88 | k consecutive scale-ups from R give min(R * q1 * ... * qk, Max), every factor being at least 1, as long as no multiplication overflows |
| Scaler.AutoScaler.Scale | internal/jitsiautoscaler/prom.go:27-44 | for every average, target and conversion: without faults the stored object changes in nothing but the replica count, which becomes the next count, and its version; under any faults no child object changes |
| Scaler.RescaleKeepsTheRest | internal/jitsiautoscaler/influx.go:78-100 | without faults a scaling step writes the object back with another replica count and nothing else, finalizers, annotations and status included, and causes one event if the count differs |
| Scaler.ScalingIsAnEdit | internal/jitsiautoscaler/influx.go:78-100 | whatever faults strike it, a scaling step leaves object and events alone or has the effect of one edit of the event loop that changes the count only |
| Scaler.AutoScaler.ScaleByInflux | internal/jitsiautoscaler/influx.go:22-49 | a scaling step on an Influx answer, an empty one included; an unknown metric and a failed query read as 0 |
| Scaler.AutoScaler.ScaleByProm | internal/jitsiautoscaler/prom.go:27-57 | a scaling step on a Prometheus answer; an unknown metric reads as 0, a failed query as 1; where it panics the cluster is as it was |
| Scaler.FailedQueryScalesToMinimum | internal/jitsiautoscaler/prom.go:61-64 | a failing Prometheus query sends the count to the minimum, unless the target is 1, when it changes nothing |
| Scaler.AutoscaledCeiling | internal/jitsiautoscaler/influx.go:78-100 | if only the autoscaler edits the spec, on samples that are not negative and with whatever targets, from any state within Max, no interleaving with reconciles, crashes, conflicts and swallowed errors lets a Deployment exist outside 1..Max |
| Turn.GetTurnCredentialsConfig | internal/jitsi/prosody/deployment.go:67-136 | each field of the result is the value of the last entry under its own variable name, or empty; a flag is set if that value is true; the credential is the literal or what the Secret holds under its name and key; there is no result exactly when some credential entry refers to a ConfigMap |
| Turn.OrderAcrossNamesIsIrrelevant | internal/jitsi/prosody/deployment.go:67-104 | any reordering that keeps the entries of each variable in order, and any change of unrelated entries, leaves the configuration the same |
| Turn.NeighboursCommute | internal/jitsi/prosody/deployment.go:67-104 | neighbouring entries of different variables may change places anywhere in the list |

## Left out

- EventLoop.QuiescentMeansConverged: the event loop handles a live object; deletion, with crashes and faults, is covered by Deletion and Removal, without interleaved edits.
- Infinite and NaN samples; averages are NaN only where the source divides zero by zero.
- Coalescing of queued events and back-off times: a queue is a flag, and a retry may come at any later point.
- Informer caches that lag behind for child objects, and versions of child objects: conflicts on their updates are injected faults.
- Writes to child objects by anyone but the operator, and server-side defaulting of their fields.
- Deletion of labelled ConfigMaps in other namespaces, which the listing without a namespace reaches.
- The polling loop of `getExternalIP` with its timers; an address map stands for its outcome.
- Pod details that are only copied: probes, security contexts, resources, pull policies, volume paths, fixed container ports.
- Rendering of templates and the embedded shell script, including template errors.
- The choice between Influx and Prometheus, their clients, credentials, request contexts (the Prometheus variant nests a new timeout into its stored context at each step) and the repeat interval.
- The int32 loop at the greatest int32 value, where the source does not terminate.
- The other reconcilers (web, jicofo, jigasi, jibri, etherpad, whiteboard, and prosody apart from its TURN configuration): each manages at most one Deployment or StatefulSet and one Service, so they would add only easy members.
- Port list builders, `RemoveString`, error-reason helpers and generated deep copies: maps, filters and copies.
