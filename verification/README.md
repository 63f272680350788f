# Verified model of virt-observability-controller

virt-observability-controller runs in a KubeVirt cluster. It polls the virt-handler pods for statistics of
virtual machine instances (VMIs), keeps the last good answer for each VMI in a cache and exposes the cache as
Prometheus metrics. It also reconciles the Service, Secret, ServiceMonitor and PrometheusRule that make those
metrics scrapable. This project models that behaviour in Dafny and proves properties of it. Verify it with
`dafny verify dfyconfig.toml`.

## What is modelled

**The VMStats pipeline.** `Polls` says what one poll computes, as functions of what it reads: the VMI listing,
the pod listing of each node's lookup and the reply to each fetch. `PollSpec` is the sequential meaning of a
poll. `StatsCaches` and `Pollers` are the cache and the poller as classes, with the loops of the source. They run
each worker at its `go` statement. `PollMachine` is the same poll as a step system, and covers every other
schedule: a dispatcher that ranges over the nodes in any order, one worker per node, the semaphore, the wait
group, and a scrape that may list the cache between any two steps. `PollLiveness` proves that a poll terminates
without deadlock, `PollRuns` is about any number of polls in a row, `Collectors` and `VMIReports` are about the
samples of a scrape, `EmittedSamples` spells them out on the statistics, `MetricNames` is about their names, and `ScrapeRuns` joins polls and scrapes.

**The reconcilers.** `Reconcilers` is a reconcile with fresh reads, on a cluster whose every call may fail.
`ControlLoop` is the same controller as a level-triggered loop: versioned objects that others edit and delete,
watch events that arrive late or are superseded, an informer cache that lags, one deduplicated request, and
writes that are refused, fail, or are applied but reported as failed. `ControlLoopLiveness` proves that a loop left
alone can always go on to convergence, that every run of it is bounded by its stale reads, and that it stops only
where it has converged; `ControlLoopStaleness` says what happens while no event arrives. `PrometheusRules` is the rule controller.

**Text and labels.** `Exposition` is the parser of exposition lines, `TextFormat` a printer of the text format and
what the parser makes of printed text.
`Labels` holds the two label sanitizers and the rewriting of a label map in any order a Go map can be ranged
over in.

**Aggregation.** `Allowlists`, `VMStatuses`, `Migrations` and `VCPUs`.

## Assumptions

- A VMI listing has one object per namespace and name, and no namespace contains a slash (`ValidSnapshot`).
- The poller's concurrency limit is at least 1 (it is set to 10), and every fetch returns. Only the liveness results use these.
- The result pointers in a virt-handler's reply are not nil.
- A poll that sees no scheduled VMI returns before the prune, so it leaves the cache as it was. This is the
  source's behaviour and the model keeps it.
- The pod store is live. Each node's lookup of its handler has a listing of its own, in any order.
- The API server stores what it is sent and gives each accepted write a version that has not been used before.
  The informer cache, the deduplicated queue and the requeue on error are those of controller-runtime.
- A kind's API returns objects of that kind (`WellTyped`).
- Semantic equality takes nil and empty for the same, so they are one value in the model.
- Strings are sequences of Unicode code points. Invalid UTF-8 is not part of this model.

## Where the code is not what one might expect

- vCPU count: the product is computed in 32 bits and does not depend on the order of cores, sockets and threads
  unless some pair of them wraps to zero. `NotSymmetric` gives the input, `SymmetricIff` the exact condition.
- The exposition parser panics on a line with an opening brace and no closing brace after it (`PanicsIff`, `LoneBracePanics`), and it
  never undoes an escape. The round trip is exact precisely when no label value needs escaping (`RoundTripIff`);
  `QuoteIsLost` gives an input.
- The metrics-resources loop can go round on a stale cache for as long as no watch event arrives. It does so exactly
  when the cache makes some stage send a write the server refuses (`RestIff`, `PassRestsIff`, `MisledForEver`), and a
  pass returns to the very state it began in exactly when the stages before that one write nothing (`CycleIff`).
  `MisledIsReachable` and `MisledLaterIsReachable` give inputs. Delivering the events always leads out (`CanConverge`).
- Label export: when two raw label keys sanitize alike and carry different values, the exported value depends on
  the iteration order of a Go map (`ExportDeterministicIff`, with the input `ExportVaries`).
- Virtual machine status: a status of no list, for example `WaitingForReceiver`, belongs to the group `<unknown>`
  while its timestamp is reported as an error's (`GroupAndMetricAgree`).
- Of the Secret's annotations the controller compares the service account only, but an update replaces them all.
  `ForeignAnnotationLost` gives the input, `HealedForeign` and `OverwriteSyncs` the exact condition. Label maps, a
  Service's ports and selector and a ServiceMonitor's spec are compared whole and replaced whole.
- A network interface's alias is used when its set flag is true, even if it is empty; a drive's alias is used when it is not empty.
- Two devices of one VMI that come out under one name and report one metric yield one series twice. Nothing in the
  code prevents it. `AliasOfAnother` gives an input, `EntryNoDuplicates` the exact condition.

## Model

| member | source | states |
|---|---|---|
| StatsCaches.StatsCache.constructor | pkg/monitoring/metrics/vmstats/cache.go:37-41 | a new cache is empty |
| StatsCaches.StatsCache.Store | pkg/monitoring/metrics/vmstats/cache.go:43-47 | exactly the entry of the key changes, to the given VMI and statistics |
| StatsCaches.StatsCache.List | pkg/monitoring/metrics/vmstats/cache.go:49-57 | every cached entry is listed, each once, in some order of the keys |
| StatsCaches.StatsCache.Prune | pkg/monitoring/metrics/vmstats/cache.go:59-67 | exactly the entries whose key is active stay, unchanged |
| StatsCaches.StatsCache.Remove | pkg/monitoring/metrics/vmstats/cache.go:69-73 | exactly the entry of the key goes |
| Polls.KeyInjective | pkg/monitoring/metrics/vmstats/poller.go:95 | equal keys mean equal namespace and name when namespaces have no slash |
| Polls.GroupMembers | pkg/monitoring/metrics/vmstats/poller.go:144-154 | a VMI is in a node's group exactly when it is listed with that non-empty node name |
| Polls.GroupKeepsOrder | pkg/monitoring/metrics/vmstats/poller.go:144-154 | a group keeps the order of the listing |
| Polls.GroupingIsPartition | pkg/monitoring/metrics/vmstats/poller.go:144-154 | all groups together hold every scheduled VMI as often as it is listed, and no group is empty |
| Polls.KeyInOneLookup | pkg/monitoring/metrics/vmstats/poller.go:92-100 | each scheduled VMI is in the table of its own node's worker and in no other worker's |
| Polls.HandlerIsFirst | pkg/monitoring/metrics/vmstats/poller.go:156-170 | the address is that of the first pod that is labelled virt-handler, runs on the node and has an address, each condition spelled out on the pod's fields; there is none exactly when every pod fails one of them |
| Polls.LookupMembers | pkg/monitoring/metrics/vmstats/poller.go:93-96 | a worker's table has exactly the keys of its group, each with a VMI of that key |
| Polls.LookupIs | pkg/monitoring/metrics/vmstats/poller.go:92-96 | a worker's table seen from the listing: a key is in it exactly when the key's VMI runs on the worker's node |
| Polls.WorkerFetchesFresh | pkg/monitoring/metrics/vmstats/poller.go:117-136 | what a worker stores is exactly the fresh entries of the keys of its own node |
| Polls.NoReplyNoFresh | pkg/monitoring/metrics/vmstats/poller.go:102-121 | without handler, or when the fetch fails, no key of the node has a fresh entry |
| Polls.ActiveGrows | pkg/monitoring/metrics/vmstats/poller.go:94-100 | after each dispatched node the active keys are those of all VMIs on the nodes dispatched so far |
| Polls.PrunedIsSpec | pkg/monitoring/metrics/vmstats/poller.go:140-141 | pruning the cache all workers leave yields the sequential meaning of the poll |
| Polls.PollSpecAt | pkg/monitoring/metrics/vmstats/poller.go:76-142 | the cache after a poll, key by key: all as before when stores are not ready or no listed VMI has a node; else absent if not scheduled, fresh if its node answered for it, and as before otherwise |
| Polls.SkipsIff | pkg/monitoring/metrics/vmstats/poller.go:77-84 | a poll does nothing exactly when stores are not ready or no listed VMI has a node |
| Polls.SchedulesIff | pkg/monitoring/metrics/vmstats/poller.go:92-98 | a key is scheduled exactly when it is namespace, slash and name of a listed VMI with a node |
| Polls.PollSpecKeeps | pkg/monitoring/metrics/vmstats/poller.go:77-141 | a poll that lists no VMI with a node keeps the whole cache; any other leaves no key but those of listed VMIs with a node |
| Pollers.GroupVMIsByNode | pkg/monitoring/metrics/vmstats/poller.go:144-154 | the loop yields one group per scheduled node, the VMIs of that node in listing order |
| Pollers.FindVirtHandlerPodIP | pkg/monitoring/metrics/vmstats/poller.go:156-170 | the loop finds the first pod whose label, node, phase and address qualify, or reports none when every pod fails one of these |
| Pollers.Poller.PollNode | pkg/monitoring/metrics/vmstats/poller.go:110-137 | a worker that ranges over the reply in any order stores the usable results of its own keys and nothing else; a failed fetch stores nothing |
| Pollers.Poller.BuildLookup | pkg/monitoring/metrics/vmstats/poller.go:93-100 | the inner loop builds the node's table and makes its keys active |
| Pollers.Poller.VisitNode | pkg/monitoring/metrics/vmstats/poller.go:92-138 | one turn of the dispatch loop: active keys grow also when the node has no handler; only its own keys are stored |
| Pollers.Poller.VisitNodes | pkg/monitoring/metrics/vmstats/poller.go:92-138 | whatever order the nodes come in, each key ends with its fresh entry or the one before the poll |
| Pollers.Poller.PollOnce | pkg/monitoring/metrics/vmstats/poller.go:76-142 | a poll leaves the cache of `PollSpec`; untouched when stores are not ready or no listed VMI has a node, and otherwise with keys of listed VMIs with a node only |
| PollMachine.InvStep | pkg/monitoring/metrics/vmstats/poller.go:86-141 | every step of dispatcher, worker or scrape keeps the invariant over dispatch, counts and cache contents |
| PollMachine.ReachedInv | pkg/monitoring/metrics/vmstats/poller.go:86-141 | the invariant holds of every state of every schedule |
| PollMachine.ConcurrentPollRefinesSpec | pkg/monitoring/metrics/vmstats/poller.go:76-142 | for every interleaving and node order, a finished poll leaves the cache of the sequential meaning |
| PollMachine.Synchronisation | pkg/monitoring/metrics/vmstats/poller.go:86-141 | tokens are the slots taken and not given back, within the limit; the wait group counts unfinished workers and a pending spawn; after the join both are zero and all workers have ended |
| PollMachine.NoWorkAfterJoin | pkg/monitoring/metrics/vmstats/poller.go:140-141 | after the wait only the prune and scrapes can happen: no store follows |
| PollMachine.ScrapeSeesOldOrFresh | pkg/monitoring/metrics/vmstats/cache.go:49-57 | in the middle of a poll a scrape finds each key with its old or its fresh entry, and a cached scheduled key is never missing |
| PollLiveness.MeasureFalls | pkg/monitoring/metrics/vmstats/poller.go:86-141 | every step but a scrape lowers the measure |
| PollLiveness.PollTerminates | pkg/monitoring/metrics/vmstats/poller.go:86-141 | no schedule takes more steps than the measure, scrapes aside |
| PollLiveness.DeadlockFree | pkg/monitoring/metrics/vmstats/poller.go:108-140 | with a limit of at least one, every reachable unfinished state has a step |
| PollLiveness.PollCanFinish | pkg/monitoring/metrics/vmstats/poller.go:86-141 | from every state some schedule ends the poll within the measure |
| PollRuns.RunsRefineSpec | pkg/monitoring/metrics/vmstats/poller.go:62-74 | between polls the cache is what the polls so far compute one after another, however each was scheduled |
| PollRuns.CacheIsLastGood | pkg/monitoring/metrics/vmstats/poller.go:117-141 | after any polls a key is cached with an entry exactly when that is its last good one: fetched by some poll and since then only passed over |
| PollRuns.Retention | pkg/monitoring/metrics/vmstats/poller.go:102-141 | a cached key survives every later poll that lists its VMI with a node, has no stores yet, or lists no VMI with a node, whatever fails |
| PollRuns.UnscheduledIsDropped | pkg/monitoring/metrics/vmstats/cache.go:59-67 | a poll that lists some VMI with a node, and none of the key, drops the key |
| PollRuns.FreshIff | pkg/monitoring/metrics/vmstats/poller.go:102-136 | the fresh entry of a key is exactly one whose VMI the poll lists with a node and under that key, and whose error-free statistics came from the first pod that is labelled virt-handler, runs on that node and has an address |
| PollRuns.Provenance | pkg/monitoring/metrics/vmstats/poller.go:92-136 | at every moment of every run each entry came, VMI and statistics together, from one poll and from the handler of the VMI's own node |
| PollRuns.ReachableWellKeyed | pkg/monitoring/metrics/vmstats/poller.go:95-135 | at every moment each entry sits under the namespace, slash and name of its own VMI |
| ScrapeRuns.ScrapeAtAnyMoment | pkg/monitoring/metrics/vmstats/collector.go:58-76 | a scrape between any two steps of any run emits no series twice exactly when no two devices of a cached VMI clash, and each sample carries the identity and node of a VMI that some poll supplied together with its statistics |
| Labels.SanitizeLabelName | pkg/monitoring/metrics/helpers.go:166-176 | the result is a valid label name, and is the argument exactly when that is valid |
| Labels.SanitizeSpelledOut | pkg/monitoring/metrics/helpers.go:53 | every character outside a-z, A-Z, 0-9 and underscore becomes an underscore, and one goes in front exactly of an empty name and of a digit |
| Labels.ValidSpelledOut | pkg/monitoring/metrics/helpers.go:174-176 | a valid name is not empty, does not start with a digit, and holds only a-z, A-Z, 0-9 and underscore |
| Labels.SanitizeIdempotent | pkg/monitoring/metrics/helpers.go:166-172 | sanitizing twice is sanitizing once |
| Labels.SanitizersAgree | pkg/monitoring/metrics/vmstats/report.go:28 | the two sanitizers give the same text, up to the underscore in front of an empty name or a digit, exactly on names of a-z, A-Z, 0-9, underscore, dot, slash and dash |
| Labels.PrefixedFormatValid | pkg/monitoring/metrics/vmstats/report.go:28-50 | with its prefix the formatted label is a valid label name exactly when it holds only a-z, A-Z, 0-9, underscore, dot, slash and dash |
| Labels.RelabelExact | pkg/monitoring/metrics/vmstats/report.go:44-50 | the rewritten map has exactly the new names of the raw keys, each with the value of the key ranged over last |
| Labels.OrderIndependentIff | pkg/monitoring/metrics/vmstats/report.go:46-49 | the rewritten map is the same for every iteration order exactly when raw keys that come out alike carry equal values |
| Collectors.BaseLabelsKept | pkg/monitoring/metrics/vmstats/report.go:56-75 | runtime and additional labels never overwrite node, namespace and name; the sample's own labels win over the runtime ones |
| Collectors.RuntimeLabelsExact | pkg/monitoring/metrics/vmstats/report.go:44-50 | the runtime labels are exactly the VMI's own under `kubernetes_vmi_label_` and the formatted name, each with the value of such a label |
| Collectors.DecimalReads | pkg/monitoring/metrics/vmstats/metrics_vcpu.go:54 | the decimal id of a vCPU denotes its index, so ids differ |
| EmittedSamples.EntryExact | pkg/monitoring/metrics/vmstats/collector.go:64-73 | a sample is emitted for an entry exactly when it is one of those spelled out in `EntrySample`, metric by metric on the fields of the statistics |
| EmittedSamples.NetworkExact | pkg/monitoring/metrics/vmstats/metrics_network.go:65-110 | exactly the set fields of named interfaces, each as its own metric's value, under the alias if set and else the name |
| EmittedSamples.BlockExact | pkg/monitoring/metrics/vmstats/metrics_block.go:65-113 | exactly the set fields of named drives, each as its own metric's value with times in seconds, under the alias unless empty and else the name |
| EmittedSamples.VcpuExact | pkg/monitoring/metrics/vmstats/metrics_vcpu.go:46-75 | exactly the set times of each vCPU in seconds, with its decimal index as id and, for the running time, the text of its state |
| EmittedSamples.GuestDiskExact | pkg/monitoring/metrics/vmstats/metrics_guest.go:164-174 | exactly total and used bytes of each decoded disk, with its name and mount point |
| EmittedSamples.GuestInterfaceExact | pkg/monitoring/metrics/vmstats/metrics_guest.go:191-203 | exactly one sample of value 1 for each decoded interface, with its name, MAC and first address or none |
| EmittedSamples.PlainExact | pkg/monitoring/metrics/vmstats/metrics_memory.go:86-118 | exactly the plain readings that are set, each as its own metric's value, with no label of their own |
| EmittedSamples.GuestRow | pkg/monitoring/metrics/vmstats/metrics_guest.go:76-148 | exactly the operating system, host name, time zone and user count that the agent gave, with their labels |
| Collectors.VcpusToldApart | pkg/monitoring/metrics/vmstats/metrics_vcpu.go:46-75 | the vCPU samples of a VMI differ in metric or id, with no condition on the statistics |
| Collectors.NetsToldApart | pkg/monitoring/metrics/vmstats/metrics_network.go:65-110 | the network samples of a VMI are different series exactly when no two named interfaces come out under one name and report one metric |
| Collectors.BlocksToldApart | pkg/monitoring/metrics/vmstats/metrics_block.go:65-113 | the block samples of a VMI are different series exactly when no two named drives come out under one name and report one metric |
| Collectors.DisksToldApart | pkg/monitoring/metrics/vmstats/metrics_guest.go:150-175 | the guest disk samples are different series exactly when disk and mount point pairs are distinct |
| Collectors.InterfacesToldApart | pkg/monitoring/metrics/vmstats/metrics_guest.go:177-204 | the guest interface samples are different series exactly when name, MAC and first address triples are distinct |
| Collectors.TableNoDuplicates | pkg/monitoring/metrics/vmstats/collector.go:64-73 | the samples of one family are different series exactly when no two devices report one metric under the same own labels |
| Collectors.EntryCarriesIdentity | pkg/monitoring/metrics/vmstats/report.go:59-69 | every sample of an entry carries the VMI's node, namespace and name, whatever labels the VMI has |
| Collectors.EntryNoDuplicates | pkg/monitoring/metrics/vmstats/collector.go:64-73 | all samples of one entry are different series exactly when no two of its devices clash (`NoClash`, a condition on the statistics alone) |
| Collectors.ScrapeHasNoDuplicates | pkg/monitoring/metrics/vmstats/collector.go:58-76 | all samples of one scrape of different VMIs are different series exactly when no two devices of one VMI clash |
| Collectors.ClashingDrivesCollide | pkg/monitoring/metrics/vmstats/metrics_block.go:72-82 | two drives under one effective name that report one metric, as when one drive's alias is the other's name, yield a series twice |
| Collectors.AliasOfAnother | pkg/monitoring/metrics/vmstats/metrics_block.go:72-82 | an input: two named drives of which one's alias is the other's name, both reporting reads |
| Collectors.DistinctDevicesSuffice | pkg/monitoring/metrics/vmstats/collector.go:64-73 | distinct effective names, pairs and triples are enough for all samples of an entry to be different series |
| MetricNames.NameTellsMetric | pkg/monitoring/metrics/vmstats/metrics_block.go:30-63 | the names the metrics are exposed under are all different |
| MetricNames.SeriesIsNamed | pkg/monitoring/metrics/vmstats/report.go:70-74 | two samples are one series exactly when they have one exposed name and the same labels |
| VMIReports.VMIReport.constructor | pkg/monitoring/metrics/vmstats/report.go:38-42 | a new report has the runtime labels of its VMI |
| VMIReports.VMIReport.BuildRuntimeLabels | pkg/monitoring/metrics/vmstats/report.go:44-50 | the loop builds the rewritten labels of some iteration order |
| VMIReports.VMIReport.NewCollectorResultWithLabels | pkg/monitoring/metrics/vmstats/report.go:56-75 | the successive loops overwrite in the order base, runtime, additional |
| VMIReports.VMIReport.CollectVCPUMetrics | pkg/monitoring/metrics/vmstats/metrics_vcpu.go:46-75 | the loop emits the set readings of each vCPU in order, and exactly the samples spelled out in `VcpuSample` |
| VMIReports.VMIReport.CollectNetworkMetrics | pkg/monitoring/metrics/vmstats/metrics_network.go:65-110 | the loop emits the set readings of each named interface in order, and exactly the samples spelled out in `NetworkSample`: received bytes as received bytes, and so on, under the effective name |
| VMIReports.VMIReport.CollectBlockMetrics | pkg/monitoring/metrics/vmstats/metrics_block.go:65-113 | the loop emits the set readings of each named drive in order, and exactly the samples spelled out in `BlockSample` |
| VMIReports.VMIReport.CollectGuestDiskStats | pkg/monitoring/metrics/vmstats/metrics_guest.go:164-174 | two samples per decoded disk in order, exactly those spelled out in `GuestDiskSample` |
| VMIReports.VMIReport.CollectGuestInterfaces | pkg/monitoring/metrics/vmstats/metrics_guest.go:191-203 | one sample per decoded interface in order, exactly those spelled out in `GuestInterfaceSample` |
| VMIReports.VMIReport.Collect | pkg/monitoring/metrics/vmstats/collector.go:66-73 | all families of one entry, one after another; exactly the samples spelled out in `EntrySample` |
| VMIReports.CollectCallback | pkg/monitoring/metrics/vmstats/collector.go:58-76 | the callback reports every cached entry, and when entries sit under their own keys emits no series twice exactly when no two devices of a VMI clash |
| VMIReports.ListedOnce | pkg/monitoring/metrics/vmstats/collector.go:59-74 | listing every entry once, in any order, reports each, and repeats no series exactly when no two devices of a VMI clash |
| Allowlists.FilterCollector | pkg/monitoring/metrics/metrics.go:76-107 | keeps the allowed metrics, wraps the callback to the results of kept metrics, and is nil when nothing is kept |
| Allowlists.FilterVMStatsCollector | pkg/monitoring/metrics/vmstats/collector.go:80-110 | the second implementation computes the same collector as the first |
| Allowlists.FilterVMStatsResults | pkg/monitoring/metrics/vmstats/collector.go:98-108 | its callback returns the same results, as a nil slice exactly when there are none |
| Allowlists.FilterResults | pkg/monitoring/metrics/metrics.go:94-104 | the wrapped callback returns exactly the results of kept metrics, in order |
| Allowlists.SetupMetrics | pkg/monitoring/metrics/metrics.go:57-74 | no allowlist registers every collector whole, otherwise exactly the filtered non-nil ones in order |
| Allowlists.FilterComposes | pkg/monitoring/metrics/metrics.go:76-107 | filtering by two lists in a row is filtering by their intersection, in metrics and output, nil collectors included |
| Allowlists.FilteredRegisters | pkg/monitoring/metrics/metrics.go:76-86 | a filtered collector registers exactly the metrics whose name is listed as true, and is nil exactly when there are none |
| Allowlists.FilteredEmits | pkg/monitoring/metrics/vmstats/collector.go:80-110 | a result is emitted exactly when a metric of its name is registered and the name is listed as true, as often as before |
| Allowlists.RestrictKeepsOrder | pkg/monitoring/metrics/metrics.go:94-104 | the filtered output is the original's in the same order |
| Allowlists.EmptyAllowlist | pkg/monitoring/metrics/metrics.go:36-38 | an allowlist that allows nothing registers nothing |
| Resources.OverwriteSyncs | pkg/controller/metricsresources_controller.go:88-146 | an update brings the object in sync and leaves the unmanaged rest of it alone, but keeps a Secret's foreign annotations exactly when there are none; it changes any object that was out of sync |
| Resources.DesiredSyncs | pkg/controller/metricsresources_controller.go:151-227 | what is created is in sync |
| Resources.EnqueuesOwnedOnly | pkg/controller/metricsresources_controller.go:230-257 | a watch event makes a request exactly when its object is one of the three owned ones, spelled out by kind, namespace and name |
| Resources.InSyncIff | pkg/controller/metricsresources_controller.go:151-227 | an owned object is there and in sync exactly when it is as configured: ports, selector, labels, service account, endpoint with scheme and credentials, all spelled out from the configuration |
| Reconcilers.MetricsResourcesReconciler.ReconcileService | pkg/controller/metricsresources_controller.go:74-99 | success leaves one port with the configured number, the selector and the three labels, with at most one write and none when they were so; failure changes nothing and comes only of a failed call |
| Reconcilers.MetricsResourcesReconciler.ReconcileSecret | pkg/controller/metricsresources_controller.go:101-124 | the same for the Secret's service-account annotation and labels, and the token type when it is created; an existing Secret keeps the annotations besides the service account exactly when it was in sync or had none |
| Reconcilers.MetricsResourcesReconciler.ReconcileServiceMonitor | pkg/controller/metricsresources_controller.go:126-149 | the same for the ServiceMonitor: one endpoint, https with unverified certificates exactly when metrics are secure and http otherwise, with the token of the owned Secret, selecting the labels of the Service |
| Reconcilers.MetricsResourcesReconciler.Reconcile | pkg/controller/metricsresources_controller.go:60-72 | it succeeds exactly when no call failed, and then all three objects are as configured; an error leaves the later ones as they were; objects in sync, all other objects, and of the updated ones everything the controller never writes are untouched; a second reconcile writes nothing. A Secret that existed keeps its foreign annotations exactly when it was in sync or had none |
| Reconcilers.HealedIsFine | pkg/controller/metricsresources_controller.go:74-149 | a sub-reconcile heals its object, breaks no other, and leaves alone what was in sync, what it does not own and what it never writes |
| Reconcilers.HealedForeign | pkg/controller/metricsresources_controller.go:115-121 | an existing Secret keeps its foreign annotations exactly when it was in sync or had none |
| Reconcilers.ForeignAnnotationLost | pkg/controller/metricsresources_controller.go:115-121 | an input: a Secret whose labels were removed loses a team's annotation to the update |
| Reconcilers.Stages | pkg/controller/metricsresources_controller.go:60-72 | the three sub-reconciles in order: what each has done and has not done yet |
| ControlLoop.StepInv | pkg/controller/metricsresources_controller.go:60-149 | every edit, delivery, stale read, write, conflict and failure keeps the loop's invariant |
| ControlLoop.ReachableInv | pkg/controller/metricsresources_controller.go:60-149 | the invariant holds in every run from an empty informer cache |
| ControlLoop.LevelTriggered | pkg/controller/metricsresources_controller.go:60-149 | after a first request each owned object is as desired, or an event of it is undelivered, or a request is queued, or the pass has still to deal with it |
| ControlLoop.QuiescentIsConverged | pkg/controller/metricsresources_controller.go:229-258 | when nothing is left to do every owned object is as desired and as configured |
| ControlLoop.ConvergedIff | pkg/controller/metricsresources_controller.go:151-227 | wherever the invariant holds, converged means as configured, spelled out from the configuration |
| ControlLoop.WritesOnlyManagedFields | pkg/controller/metricsresources_controller.go:88-146 | however stale the read, an accepted write creates the missing object or overwrites managed fields of the current one, and nothing else in the cluster; an updated Secret has kept its foreign annotations exactly when it had none |
| ControlLoopLiveness.FreshRead | pkg/controller/metricsresources_controller.go:78-95 | after its events have arrived, a read decides on a write the server would accept |
| ControlLoopLiveness.FreshStageHeals | pkg/controller/metricsresources_controller.go:74-149 | with a fresh read, a stage of the loop leaves the cluster that a successful sub-reconcile of `Reconcilers` leaves |
| ControlLoopLiveness.CalmRunsEnd | pkg/controller/metricsresources_controller.go:60-149 | every undisturbed run, stale reads included, takes at most as many steps as the measure and ten for each stale read, and keeps the invariant |
| ControlLoopLiveness.LeftAloneConverges | pkg/controller/metricsresources_controller.go:60-149 | left alone, on however old a cache, the loop takes a number of steps bounded by the measure and its stale reads; wherever it has come it can go on to a state with nothing left to do and every owned object as desired; and where it can take no step it is there |
| ControlLoopLiveness.CanConverge | pkg/controller/metricsresources_controller.go:60-149 | from every state of a triggered loop an undisturbed run without stale reads, of at most as many steps as the measure, ends with nothing left to do and every owned object as desired |
| ControlLoopStaleness.PassRestsIff | pkg/controller/metricsresources_controller.go:60-149 | a whole pass during which no event arrives leaves no request behind exactly when the cache misleads none of the three stages; if it leaves one, the next pass is misled too |
| ControlLoopStaleness.RestIff | pkg/controller/metricsresources_controller.go:60-149 | while no event arrives, some run of a requested loop comes to rest exactly when the cache misleads no stage |
| ControlLoopStaleness.CycleIff | pkg/controller/metricsresources_controller.go:60-149 | a pass during which no event arrives leads back to the state it began in, request and all, exactly when the cache misleads some stage into a write the server refuses and the stages before it find their objects in sync |
| ControlLoopStaleness.MisledForEver | pkg/controller/metricsresources_controller.go:60-149 | a loop whose cache misleads any stage goes round any number of times while no event arrives, with a stale read each time |
| ControlLoopStaleness.MisledIsReachable | pkg/controller/metricsresources_controller.go:80-83 | an input: someone else creates the Service and the first pass runs before word of it arrives |
| ControlLoopStaleness.MisledLaterIsReachable | pkg/controller/metricsresources_controller.go:60-124 | an input at a later stage: word of the Service has arrived and word of the Secret has not, and the pass returns to its own beginning |
| PrometheusRules.PrometheusRuleReconciler.Reconcile | pkg/controller/prometheusrule_controller.go:52-108 | on success the rule exists exactly when rules are registered, with their spec, labels and annotations; it fails exactly when setting up, building or a call fails, and then changes nothing; on a cluster as wanted nothing is written; unmanaged parts are kept |
| Exposition.SplitLabels | test/monitoring/metrics/metrics.go:149-169 | the quote-aware loop computes the split of the specification |
| Exposition.ParsePairs | test/monitoring/metrics/metrics.go:131-139 | the loop reads each pair at its first equal sign, skips pairs without one, and lets a later key win |
| Exposition.LabelsExact | test/monitoring/metrics/metrics.go:131-139 | the keys are exactly those of pairs with an equal sign, taken up to the first one, each with the unquoted value of its last pair |
| Exposition.ParseLine | test/monitoring/metrics/metrics.go:111-147 | the parser computes the reading of the specification, or panics where it says so |
| Exposition.FindMetric | test/monitoring/metrics/metrics.go:91-105 | the search computes the samples of the specification, skipping blank and comment lines |
| Exposition.PanicsIff | test/monitoring/metrics/metrics.go:114-130 | the parser panics exactly on an opening brace with no closing brace after it |
| Exposition.LoneBracePanics | test/monitoring/metrics/metrics.go:130 | an input: the line that is an opening brace |
| TextFormat.SplitInvertsJoin | test/monitoring/metrics/metrics.go:149-169 | splitting inverts joining quote-balanced pieces with commas, but for an empty last piece |
| TextFormat.SplitExact | test/monitoring/metrics/metrics.go:149-169 | splitting gives back the pieces of any comma join, trimmed, when all but the last are quote-balanced; an empty last one is lost |
| TextFormat.EveryTextJoins | test/monitoring/metrics/metrics.go:149-169 | every text is such a join, so that says all of splitting |
| TextFormat.LineIsRead | test/monitoring/metrics/metrics.go:124-147 | any line with braces is read as the text before the first, the labels between, and the first field after the last, or none |
| TextFormat.BareLineIsRead | test/monitoring/metrics/metrics.go:117-126 | any line without an opening brace is read as its first two fields, or as many as there are |
| TextFormat.RoundTrip | test/monitoring/metrics/metrics.go:111-147 | reading a printed line without double quotes gives back name, value and labels, each label value as written |
| TextFormat.RoundTripIff | test/monitoring/metrics/metrics.go:111-147 | for any label values, a printed line is read back as meant exactly when no value holds a backslash, a double quote or a line feed |
| TextFormat.QuoteBreaks | test/monitoring/metrics/metrics.go:130-169 | labels with a double quote in some value are never read back as meant, whatever the other values |
| TextFormat.ReadFromEach | test/monitoring/metrics/metrics.go:131-139 | labels as heavy as the parts they are read from leave no part overwritten |
| TextFormat.QuoteIsLost | test/monitoring/metrics/metrics.go:137 | an input for the failing side: a double quote comes back as a backslash |
| TextFormat.FindMetricFindsAll | test/monitoring/metrics/metrics.go:91-105 | searching a whole printed exposition, with blank and comment lines, space around lines and time stamps, whatever the label values, finds every sample of the name with its value, each once, in order, and nothing else |
| TextFormat.FindMetricExactIff | test/monitoring/metrics/metrics.go:91-105 | and finds them with the labels as meant exactly when no label value of a sample of the name needs escaping |
| VMStatuses.GroupAndMetricAgree | pkg/monitoring/metrics/vmstats_collector.go:551-566 | the timestamp metric matches the status group exactly on the known statuses; every other one is reported as an error |
| VMStatuses.GroupsSpelledOut | pkg/monitoring/metrics/helpers.go:55-85 | the group of each of the sixteen statuses by name, and of no other |
| VMStatuses.MetricsSpelledOut | pkg/monitoring/metrics/vmstats_collector.go:551-566 | the timestamp metric of each status by name |
| VMStatuses.ReceiverIsUnknown | pkg/monitoring/metrics/helpers.go:141-155 | a status of no list |
| VMStatuses.LatestIsGreatest | pkg/monitoring/metrics/helpers.go:209-225 | the time is the greatest of the Ready, Failure and Paused transition times, or -1 when none exceeds that |
| VMStatuses.GetLastConditionTransitionTime | pkg/monitoring/metrics/helpers.go:209-225 | the loop computes the latest eligible transition time |
| VMStatuses.ReportVMTimestamps | pkg/monitoring/metrics/vmstats_collector.go:529-549 | exactly five samples, one per timestamp metric; only the one of the status carries the time, the others zero |
| VMStatuses.ReportVMLabels | pkg/monitoring/metrics/vmstats_collector.go:500-527 | one sample with the merged labels under their new names, or none when there are no labels |
| VMStatuses.LabelExportExact | pkg/monitoring/metrics/vmstats_collector.go:501-515 | exported names are exactly `label_` and the sanitized name of a label of the machine or its template, valid, each with the value of such a raw key, the template's winning |
| VMStatuses.ExportDeterministicIff | pkg/monitoring/metrics/vmstats_collector.go:511-515 | the export is independent of iteration order exactly when raw keys that sanitize alike carry equal values |
| VMStatuses.ExportVaries | pkg/monitoring/metrics/vmstats_collector.go:511-515 | an input: a machine labelled `a.b` and `a-b` with different values has two different exports |
| VMStatuses.ReportVMStats | pkg/monitoring/metrics/vmstats_collector.go:489-498 | each machine's label sample and five timestamp samples, in the order of the machines |
| Migrations.ReportMigrationStats | pkg/monitoring/metrics/migrationstats_collector.go:99-147 | finished migrations in input order, then the four gauges, each the number of migrations in its phase or phases by name |
| Migrations.GaugesSpelledOut | pkg/monitoring/metrics/migrationstats_collector.go:110-119 | each gauge is the number of places whose phase is the named one, or one of the four named ones |
| Migrations.FinishedSpelledOut | pkg/monitoring/metrics/migrationstats_collector.go:120-130 | a succeeded or failed migration yields one sample of that outcome with VMI, name and namespace, and no other yields any |
| Migrations.Conservation | pkg/monitoring/metrics/migrationstats_collector.go:99-147 | gauges, finished samples and unrecognised phases add up to the number of migrations |
| Migrations.CountOfPermutation | pkg/monitoring/metrics/migrationstats_collector.go:109-131 | gauges do not depend on the order of the migrations |
| Migrations.FinishedInOrder | pkg/monitoring/metrics/migrationstats_collector.go:120-130 | finished samples keep the input order |
| VCPUs.GetNumberOfVCPUs | pkg/monitoring/metrics/helpers.go:87-112 | the branching 32-bit product spelled out: the product modulo 2^32 of the fields, unset ones counting as one; the threads alone where cores and sockets wrap to zero, and one where all do; one without a CPU specification |
| VCPUs.NumberInRange | pkg/monitoring/metrics/helpers.go:87-112 | at least one for all inputs, wrap-around included |
| VCPUs.ExactWhenItFits | pkg/monitoring/metrics/helpers.go:92-106 | the product of the fields, unset ones counting as one, whenever it is below 2^32 |
| VCPUs.NotSymmetric | pkg/monitoring/metrics/helpers.go:92-110 | an input for which the order of the fields matters |
| VCPUs.SymmetricIff | pkg/monitoring/metrics/helpers.go:92-110 | exactly when the order of the fields does not matter |
| VCPUs.SymmetricWhenItFits | pkg/monitoring/metrics/helpers.go:92-110 | the order does not matter while the product fits |

## Left out

- Collect: the CPU, memory and dirty-rate collectors and the four single guest samples are emitted in one step and not in the source's statements, from readings already converted to the metric's unit. Which samples they are is stated exactly by `EntryExact`.
- FilterCollector: the wrapped callback is modelled by what one call of it returns.
- PollOnce: runs each worker where it is spawned. The other schedules are those of `PollMachine`.
- CalmRunsEnd: an undisturbed run counts deliveries of the owned objects' events only. Those of other objects change nothing in this loop.
- ReconcileService: owner references, resource quantities and API-side defaulting and validation of objects are not modelled. What the controller does not write is one opaque map.
- The HTTP client, TLS and the decoding of JSON answers: a fetch is an oracle, and guest lists start decoded.
- Flag parsing, manager set-up and certificate loading in `cmd/main.go`, and `pkg/tlsutil`.
- The alert and recording rule tables: what the rule registry holds and builds is an input.
- The watches of the rule controller.
- Real time: the ticker, the fetch timeout and shutdown. A tick is an event that can happen between polls.
- Floating-point rounding of sample values: they are reals or integers.
- The process and network side of the end-to-end helpers (`Scrape`, `freePort`).
- The collectors that copy fields of VMs and VMIs (info, disks, memory, interfaces): they would only add easy members.
