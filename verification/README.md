# A verified model of mdai-operator

mdai-operator is a Kubernetes operator: its controllers turn custom resources (hubs, collectors,
observers, replays, ingresses) into ConfigMaps, Deployments, Services and Ingresses, and its webhooks
decide which resources are accepted. This project models the decisions the operator makes, leaving out
the transport, and proves what they amount to. `dafny verify dfyconfig.toml` checks all of it.

Code that updates objects step by step is modelled by classes and methods with loops. Each such method
is proved to do what a specification function says; the results are lemmas about those functions.

## What is modelled

**Log routing** (`LogRoutingConfig`, `LogRoutingCompiler`, `LogRoutingCorrect`, `LogRoutingOutcome`). The compiler that turns a
collector's logs section into exporters, pipelines, a routing table and default pipelines. Both sides get a
meaning as the list of exports a log record brings about: the compiled side by interpreting router,
pipelines, severity filters and exporters, the declarative side directly. For admitted resources the two
agree, whatever order the routing map is walked in, for every record that is in one wanted stream. For a
record that is marked both as audit and as hub or collector they need not: the order shows for exactly the
records that `TableOrderShowsExactly` describes. The routing connector is taken to route by the first
matching entry, and all records to the defaults for a table without entries (`TableIsEmptyIff`). Generated
names are constructors whose texts are proved different.

**Replay lifecycle** (`ReplayWorld`, `ReplayPass`, `ReplayController`, `ReplaySafety`, `ReplayFinalizer`,
`ReplayConvergence`, `ReplayOutcome`, `ReplayRequeue`, `ReplayLiveDrop`, `ReplayMetrics`). The replay controller as a state
machine over a store with resource versions. A script says, for every API call to come, what other clients
do before it (delete, edit, recreate, change finalizers, the queue or the children) and whether it fails,
conflicts or takes effect although an error is returned. Texts that only serve as tags (finalizers, labels,
condition messages) are constructors. Children are read from a cache that only holds those with the
operator's label. A pass is a function of that world; the class form of adapter and controller is proved
equal to it. Safety is proved for every script, convergence from where the script ends. The queue is tied to
the rendered collector: one gauge for each pipeline and exporter is what the collector is taken to report.

**Desired objects** (`DesiredStore`, `DesiredReconcile`, `DesiredProperties`, `DesiredNames`). The
upsert-then-prune reconcile of the ingress controller over a store with uids, an owner index by name and a
cache that leaves out Services without the operator's label, with any call failing, the names that keep its
objects apart, and when two builds of them agree.

**Hub** (`HubVariables`, `HubEnv`, `HubEnvProperties`, `HubEnvValues`, `MetaRefs`, `HubRestart`, `HubAutomations`).
Validation of variables, the environment they export, meta references over updates, writing the
environment and restarting collectors, and automation rules.

**Names** (`Truncate`, `Naming`, `PortNames`, `Decimal`), **ports and endpoints** (`Endpoint`, `MultiPort`,
`ServicePorts`, `IngressRules`, `IngressYields`, `RuleViews`, `Slices`) and **observers** (`ObserverConfig`).

Strings are sequences of one-byte characters, so names are ASCII. Go integers appear as unbounded ones
with the 32-bit bound stated where it matters. A pointer that may be nil is an `Option`. Walks over Go
maps take any order.

## Where the code falls short

Each of these is a property that does not hold in general; the model keeps the code as it is, and the
lemma gives the exact condition, an example, or both.

- An audit record of the hub or a collector can go to either of two S3 prefixes, depending on the order
  of a map walk (`TableOrderShowsExactly`, `OrderShowsForHubAuditRecords`).
- A replay pass can take the finalizer off a resource nobody deleted: exactly if it fetched one under
  deletion and then reads a live one of the same name again (`LiveResourceLosesFinalizerIff`,
  `RecreatedResourceLosesFinalizer`). The deletion timestamp is not looked at a second time.
- A replay whose ConfigMap holds no data, or one of whose children has lost the operator's label, never settles:
  the first panics in every pass, the second cannot be read and not be created either
  (`ConvergesInThreePassesIff`, `EmptyConfigMapPanics`).
- A collector that says in its own labels who manages it gets Services that the next pass cannot read, so that
  every later pass fails and prunes nothing (`CollectorComesToRestIff`, `OverriddenLabelBlocks`).
- A replay pass can leave the resource unsettled without being run again: after a deployment conflict, if
  the closing read or status write fails, or if the fetch falsely reads as not found (`PassStallsIff`,
  `FailedReportStalls`).
- A replay without a destination is never finalized unless its queue is to be ignored: its collector
  reports no queue (`NoDestinationNeverFinalizes`).
- Two builds of one ingress can differ, and rewrite each other's, if components share a host
  (`CollectorComesToRestIff`, `SharedHostDisagrees`).
- An update never sets a Service's type or traffic policy or an Ingress's class (`SpecAsDesiredIff`); an
  object of another owner is taken over if its name is desired, and pruned if its owner merely has the
  same name (`ForeignObjectIsSafeIff`).
- A restart that met a conflict, or was still to come when a pass failed, is never made up for
  (`RestartedOverRunIff`, `SkippedIsNotRetried`, `InterruptedPassForgets`).
- Two inferred ports can end up under one name (`KeptNamesClashIff`, `KeptNamesDoClash`), and a rule of the
  ingress can name a port that the service has renamed or dropped (`BackendLeadsToItsPortIff`).
- Defaulting an endpoint can change the port it stands for (`DefaultingKeepsPortIff` and the two lemmas
  behind it).
- Port names may contain capitals and dots (`PortNameIsLabelIff`, `PortNameNeedNotBeLabel`).
- A join transformer without its settings is accepted, and a pass that comes to it panics
  (`AcceptedPanicsIff`, `NilJoinIsAccepted`).
- A rule whose condition names the empty text is accepted but does not translate, and a blank one waits
  for an alert that does not exist (`AcceptedWhenTranslatesIff`, `BlankNameGetsThrough`).
- A comment in the source says that meta references must not change; by way of a hub without the
  variable they can (`RecreationChangesRefsIff`), as its error message itself suggests.

## Model

| member | source | states |
|---|---|---|
| LogRoutingConfig.PipelineTextIsInjective | internal/controller/mdaicollector_adapter.go:430-452 | two generated pipeline names are never written alike |
| LogRoutingConfig.ExporterTextIsInjective | internal/controller/mdaicollector_adapter.go:479-504 | two generated exporter names are never written alike |
| LogRoutingCompiler.ConfigAugmenter.AddOrCreateRoutingTableEntryWithPipeline | internal/controller/mdaicollector_adapter.go:457-477 | the in-place table gains the pipeline at the end of the stream's entry; the other stream gets no entry |
| LogRoutingCompiler.ConfigAugmenter.AddPipelineForLogstream | internal/controller/mdaicollector_adapter.go:437-453 | the whole new state of pipelines and table after adding an OTLP pipeline |
| LogRoutingCompiler.ConfigAugmenter.AddS3ComponentsAndPipeline | internal/controller/mdaicollector_adapter.go:420-435 | the whole new state of exporters, pipelines and table after adding a stream's S3 components |
| LogRoutingCompiler.ConfigAugmenter.AugmentConfigForOtlp | internal/controller/mdaicollector_adapter.go:375-418 | exactly the enabled streams get OTLP pipelines and routes; the other stream's pipeline is returned as a default |
| LogRoutingCompiler.ConfigAugmenter.AugmentPipelinesForS3 | internal/controller/mdaicollector_adapter.go:316-373 | exactly the enabled streams get S3 pipelines, exporters and routes; nothing without a secret |
| LogRoutingCompiler.ListTable | internal/controller/mdaicollector_adapter.go:296-299 | the table lists every entry of the map once, in some order |
| LogRoutingCompiler.RoutesAreExact | internal/controller/mdaicollector_adapter.go:316-477 | starting empty, both sinks leave each routed stream with exactly its OTLP and then its S3 pipeline |
| LogRoutingCompiler.GetMdaiCollectorConfig | internal/controller/mdaicollector_adapter.go:274-314 | without a logs section the base is unchanged; otherwise the result is one of the compiled configurations |
| LogRoutingCorrect.AdmittedMeansActive | internal/webhook/v1/mdaicollector_webhook.go:134-193 | for an admitted resource a sink emits a stream exactly if the sink wants it, and every severity is a known one |
| LogRoutingCorrect.FilterAgrees | internal/controller/mdaicollector_adapter.go:506-527 | the filter a pipeline gets passes exactly the records the minimum severity admits, and every audit record |
| LogRoutingCorrect.RoutesDeliver | internal/controller/mdaicollector_adapter.go:420-477 | running a stream's routes on a record exports exactly what is wanted for that stream |
| LogRoutingCorrect.RouteOfStream | internal/controller/mdaicollector_adapter.go:296-303 | a record of one routed stream takes that stream's entry wherever the walk put it |
| LogRoutingCorrect.DeliversExactlyWhatIsWanted | internal/controller/mdaicollector_adapter.go:274-526 | for every admitted resource, table order and record in one wanted stream: one copy to each sink that enables it and admits the severity, S3 under the stream's own prefix, and nothing else |
| LogRoutingCorrect.UnwantedStreamsFallToOther | internal/controller/mdaicollector_adapter.go:300-303 | records of a stream that no sink enables take the default pipelines |
| LogRoutingCorrect.TableIsEmptyIff | internal/controller/mdaicollector_adapter.go:296-299 | the routing table is empty if and only if no sink wants audit, collector or hub records |
| LogRoutingCorrect.OrderDecides | internal/controller/mdaicollector_adapter.go:296-299 | a doubly marked record takes the entry listed first |
| LogRoutingCorrect.DoublyMarkedTakesOneRoute | internal/controller/mdaicollector_adapter.go:296-299 | a record in two wanted streams is delivered as one of them asks, never both |
| LogRoutingCorrect.TableOrderShowsExactly | internal/controller/mdaicollector_adapter.go:296-299 | delivery is the same for all table orders if and only if the record is not an audit record of a routed component with S3 taking part |
| LogRoutingCorrect.OrderShowsForHubAuditRecords | internal/controller/mdaicollector_adapter.go:296-299 | an admitted resource and a record of the hub's own audit events whose destination depends on the order |
| LogRoutingCorrect.GeneratedGraphIsClosed | internal/controller/mdaicollector_adapter.go:281-304 | for any logs section, every pipeline the router names is defined, and so is everything a generated pipeline names |
| LogRoutingCorrect.EmbeddedBaseIsSuitable | internal/controller/config/mdai_collector_base_config.yaml:1-130 | the embedded base has the processors and pipelines the compiler relies on |
| LogRoutingCorrect.EmbeddedNamesDoNotClash | internal/controller/config/mdai_collector_base_config.yaml:1-130 | no generated name overwrites one of the base |
| LogRoutingCorrect.CompileAdmitted | internal/controller/mdaicollector_adapter.go:274-314 | compiling an admitted resource over the embedded base delivers what the resource asks for |
| LogRoutingOutcome.StreamSettings | internal/controller/mdaicollector_adapter.go:329-416 | each stream is on and without a minimum unless its own setting says otherwise; none has to do with another's |
| LogRoutingOutcome.GeneratedExactly | internal/controller/mdaicollector_adapter.go:316-418 | exactly which pipelines and exporters are generated: OTLP's with an endpoint, S3's with a secret, a pipeline for each stream that is on |
| LogRoutingOutcome.GeneratedPipelines | internal/controller/mdaicollector_adapter.go:506-526 | receivers, processors and exporters of each generated pipeline, in order |
| LogRoutingOutcome.GeneratedExporters | internal/controller/mdaicollector_adapter.go:479-504 | region, bucket, prefix, file prefix, partition and SSL setting of each S3 exporter, and the OTLP endpoint |
| LogRoutingOutcome.PrefixesAreEqualIff | internal/controller/mdaicollector_adapter.go:490-492 | the prefixes of two collectors' streams are equal if and only if collector and stream are |
| LogRoutingOutcome.WrittenExactly | internal/controller/mdaicollector_adapter.go:274-526 | for an admitted resource and a record in one wanted stream: the exporters it goes to, field by field, and under which conditions on the record |
| LogRoutingOutcome.AdmittedIff | internal/webhook/v1/mdaicollector_webhook.go:134-193 | what an admitted resource has: its name character by character, credentials, bucket, region, endpoint and minimum severities |
| LogRoutingOutcome.RejectedFor | internal/webhook/v1/mdaicollector_webhook.go:134-193 | what is said of one that is not admitted |
| LogRoutingOutcome.GeneratedTexts | internal/controller/mdaicollector_adapter.go:420-504 | how the generated names are written |
| LogRoutingOutcome.UnwantedAreShown | internal/controller/config/mdai_collector_base_config.yaml:1-130 | over the embedded base, records that no sink is to get go to the debug exporter |
| LogRoutingOutcome.EmbeddedBaseShows | internal/controller/config/mdai_collector_base_config.yaml:1-130 | which debug exporter the embedded base shows each record by |
| ReplayController.ReplayAdapter.ReconcileHandler | internal/controller/mdaireplay_controller.go:69-93 | the loop with early exit does what the chain of operations does |
| ReplayController.Reconcile | internal/controller/mdaireplay_controller.go:42-66 | a pass of the controller is the pass function of the world |
| ReplaySafety.ReleaseKeeps | internal/controller/mdaireplay_adapter.go:458-487 | behind an open gate the release only makes lawful writes |
| ReplaySafety.PerformKeeps | internal/controller/mdaireplay_adapter.go:83-175 | each operation keeps the invariant of a pass and hands the next one what it relies on |
| ReplaySafety.PassIsLawful | internal/controller/mdaireplay_controller.go:42-93 | in any pass: the finalizer is dropped only if the fetched resource was under deletion and the queue is ignored or was read and not above zero before; children are written only for a live resource with condition and finalizer; writes change nothing of the stored resource but the controller's own finalizer or conditions |
| ReplaySafety.EveryRunIsLawful | internal/controller/mdaireplay_controller.go:42-93 | the same for every pass of every run, with any acts of others and any failures |
| ReplaySafety.EventsOfRun | internal/controller/mdaireplay_controller.go:42-93 | event by event in any run: what each write to the resource, its status or a child changes, and of which resource it is made |
| ReplayFinalizer.PassDropsWhileDeleting | internal/controller/mdaireplay_adapter.go:432-501 | with clients that leave the finalizer alone, it is dropped only from a stored resource that is being deleted |
| ReplayFinalizer.HeldUntilGateOpens | internal/controller/mdaireplay_adapter.go:432-501 | over every such run a finalizer once set is held until some pass with an open gate drops it |
| ReplayFinalizer.DroppedByMeans | internal/controller/mdaireplay_adapter.go:432-501 | which events of the run such a drop consists of |
| ReplayConvergence.QuietSynchronized | internal/controller/mdaireplay_adapter.go:154-175 | left alone, if each child is absent or can be read and the ConfigMap, if there, holds data, the three match the spec afterwards, others are untouched, and nothing is written if they matched |
| ReplayConvergence.UnusableSynchronized | internal/controller/mdaireplay_adapter.go:154-175 | otherwise the operation fails and that child stays as it is; nothing at all changes if it is the ConfigMap |
| ReplayConvergence.QuietPassStarts | internal/controller/mdaireplay_adapter.go:118-129 | a live resource without conditions gets its first one in a pass, and nothing else changes |
| ReplayConvergence.QuietPassProtects | internal/controller/mdaireplay_adapter.go:96-111 | one with a condition but without the finalizer gets that, and nothing else changes |
| ReplayConvergence.QuietDone | internal/controller/mdaireplay_adapter.go:131-152 | afterwards the resource is reported available, with spec, finalizers and children as they were, and nothing is written if it was |
| ReplayConvergence.QuietPassProgresses | internal/controller/mdaireplay_controller.go:42-93 | a quiet pass over a live resource that can settle strictly lowers the number of passes to go, or changes nothing when settled |
| ReplayConvergence.QuietPassFails | internal/controller/mdaireplay_controller.go:42-93 | one over a prepared resource that cannot fails, is run again and leaves it so |
| ReplayConvergence.ConvergesInThreePassesIff | internal/controller/mdaireplay_controller.go:42-93 | after three quiet passes a live resource is available with matching children, for its own spec and for good, if and only if its config builds, each child is absent or can be read, and the ConfigMap is absent or holds data |
| ReplayConvergence.SettlesOnceLeftAloneIff | internal/controller/mdaireplay_controller.go:42-93 | after any script of acts and failures, a resource that is then live is settled three passes after the script, for the spec it then has and for good, if and only if it then can be |
| ReplayConvergence.BadConfigNeverSettles | internal/controller/mdaireplay_adapter.go:240-307 | without a telemetry type for a set destination every pass fails, and without a source it panics; either way it is run again and changes nothing |
| ReplayConvergence.EmptyConfigMapPanics | internal/controller/mdaireplay_adapter.go:210-213 | at a ConfigMap without data every pass panics, is run again and changes nothing |
| ReplayConvergence.QuietDeletionPass | internal/controller/mdaireplay_adapter.go:432-487 | under deletion a quiet pass either leaves the store alone and asks for a re-run in five seconds, or lets the resource go and asks for nothing, exactly as the queue says |
| ReplayConvergence.WaitsForTheQueue | internal/controller/mdaireplay_adapter.go:442-454 | with the queue in the way no number of passes changes the store |
| ReplayOutcome.BuildsIff | internal/controller/mdaireplay_adapter.go:250-292 | the configuration builds if and only if there is a source and a destination that is set has a telemetry type |
| ReplayOutcome.BuiltFields | internal/controller/mdaireplay_adapter.go:240-307 | each field of the configuration is the spec's; exporter and pipeline are there if and only if the destination is not empty |
| ReplayOutcome.SettledMeans | internal/controller/mdaireplay_adapter.go:131-430 | what a settled replay has: its condition, the names of its three children, configuration, image, secret, selector and labels, field by field |
| ReplayOutcome.SetStatusConditionIs | internal/controller/mdaireplay_adapter.go:118-152 | a condition takes the place of the first of its type, or the last, and leaves the others |
| ReplayOutcome.WithoutIs | internal/controller/mdaireplay_adapter.go:489-501 | deleting a finalizer takes away that one and no other |
| ReplayOutcome.ResultsTell | internal/controller/mdaireplay_controller.go:82-93 | what each result of an operation makes the runtime do |
| ReplayOutcome.NewConfigMap | internal/controller/mdaireplay_adapter.go:181-213 | a new ConfigMap holds the configuration under the labels of the replay's app, the hub and the operator |
| ReplayOutcome.FirstWritesReply | internal/controller/mdaireplay_adapter.go:96-129 | on a live resource that is not prepared the pass ends with its first write and reports its failure |
| ReplayOutcome.DeletionReplies | internal/controller/mdaireplay_adapter.go:432-456 | under deletion: the reply for a missing finalizer, an unreadable queue, a full one, and an empty or ignored one |
| ReplayOutcome.ReleaseReplies | internal/controller/mdaireplay_adapter.go:458-501 | which failed call of the release counts as done and which is reported for a re-run |
| ReplayRequeue.CreateOrUpdateOutcomeIff | internal/controller/mdaireplay_adapter.go:210-213 | with nobody else about, writing a child succeeds if and only if it is absent or can be read, the read is answered rightly, the mutation does not panic and the write, where one follows, is answered rightly; and when it meets a conflict or a panic |
| ReplayRequeue.PassStallsIff | internal/controller/mdaireplay_controller.go:69-93 | a pass over a prepared resource, with any calls failing, leaves it unsettled and asks for no re-run if and only if the fetch reads as not found, or a call on the deployment meets a conflict before all is settled, or all children are written and the closing read or status write of a resource not yet reported available fails; nothing of the resource has changed then |
| ReplayRequeue.FailedReportStalls | internal/controller/mdaireplay_adapter.go:131-152 | for example if only the last status write fails |
| ReplayLiveDrop.ReleaseDropsIff | internal/controller/mdaireplay_adapter.go:458-501 | behind the gate the finalizer is dropped if and only if the copy read again carries it and both writes get through, from a resource that is under deletion exactly if that copy is; nothing is written if the read fails |
| ReplayLiveDrop.LiveResourceLosesFinalizerIff | internal/controller/mdaireplay_adapter.go:432-501 | a pass takes the finalizer off a live resource if and only if it fetched one under deletion, found the gate open, read a live one with the finalizer again and got its writes through |
| ReplayLiveDrop.RecreatedResourceLosesFinalizer | internal/controller/mdaireplay_adapter.go:458-487 | a run in which that happens |
| ReplayMetrics.ExtractMetricValueFromResponse | internal/controller/mdaireplay_adapter.go:523-545 | the reading is the first gauge or counter of the family; unreadable if there is none |
| ReplayMetrics.EmptyMeansDrainedIff | internal/controller/mdaireplay_adapter.go:535-542 | an empty reading means empty queues, in whatever order they are reported, if and only if the collector has at most one |
| ReplayMetrics.RenderedQueues | internal/controller/mdaireplay_adapter.go:250-279 | the collector of a replay has one queue, or none without a destination |
| ReplayMetrics.RenderedParts | internal/controller/mdaireplay_adapter.go:250-279 | exporter and pipeline of a destination, by name |
| ReplayMetrics.QueueInTheWayIff | internal/controller/mdaireplay_adapter.go:440-456 | so the queue holds finalization back if and only if it is not to be ignored and something is queued or there is no destination |
| ReplayMetrics.ReleasedIffDrained | internal/controller/mdaireplay_adapter.go:432-487 | a quiet pass lets a resource under deletion go if and only if the queue is to be ignored, or there is a destination and all queues are empty |
| ReplayMetrics.NoDestinationNeverFinalizes | internal/controller/mdaireplay_adapter.go:250-454 | without a destination no number of passes lets it go, unless the queue is to be ignored |
| DesiredReconcile.Cluster.CreateOrUpdate | internal/controller/common.go:124-131 | one attempt: which calls are made, and the store after each fate of them; what is there and cannot be read is not found and cannot be created |
| DesiredReconcile.Cluster.RetryOnConflict | internal/controller/common.go:126-130 | the loop makes up to five attempts while they end in conflicts |
| DesiredReconcile.RetryOutcome | internal/controller/common.go:126-130 | it upserts successfully if and only if the object is absent or can be read and one attempt gets through; otherwise the store is as it was or upserted |
| DesiredReconcile.Cluster.FindOwnedObjects | internal/controller/mdaiingress_controller.go:221-239 | the filled map holds exactly the readable objects listed under the owner's name, by uid |
| DesiredReconcile.ListedIff | internal/controller/mdaiingress_controller.go:119-158 | what is listed for an owner, by owner references, kind, namespace and label |
| DesiredReconcile.Merge | internal/controller/mdaiingress_controller.go:228-236 | copying one map into another keeps exactly both sets of keys |
| DesiredReconcile.Cluster.UpsertDesired | internal/controller/common.go:103-146 | an error exactly if some object is not upserted; after any failures only desired keys touched, nothing lost, nothing unreadable touched, and the objects left to prune; without a failure all upserts done and exactly the undesired left |
| DesiredReconcile.Cluster.DeleteObjects | internal/controller/common.go:158-176 | whatever fails, only tracked objects go; without a failure all of them |
| DesiredReconcile.Cluster.ReconcileDesiredObjects | internal/controller/common.go:103-156 | whatever fails, an undesired object without an owner of the name, or of another namespace, stays as it is, and so does what cannot be read; nothing is pruned unless every desired object is upserted; without an error the undesired readable objects that are gone are exactly the Services whose first owner has the name and the Ingresses one of whose owners has |
| DesiredReconcile.Cluster.Reconcile | internal/controller/mdaiingress_controller.go:99-107 | the same for listing and reconcile together; without a fault an error exactly if some object is not upserted |
| DesiredProperties.MutateSettles | internal/manifests/mutate.go:41-110 | a mutation makes the object as desired and is the identity exactly on such objects |
| DesiredProperties.UpsertSettles | internal/controller/common.go:124-131 | an upsert needs no write if and only if the object is there and as desired |
| DesiredProperties.ReconciledExactly | internal/controller/common.go:103-156 | the objects listed under the owner's name are exactly the desired ones that can be read, the others listed are gone, nothing else changed |
| DesiredProperties.ReconciledAsDesired | internal/controller/common.go:103-146 | every desired object is there and as desired |
| DesiredProperties.ReconciledTwice | internal/controller/common.go:103-156 | a second pass changes nothing and makes no write |
| DesiredProperties.PassSucceedsIff | cmd/main.go:221-239 | without a fault everything is upserted if and only if each desired object that is there can be read |
| DesiredProperties.HiddenBlocks | cmd/main.go:221-239 | with a desired object that cannot be read no pass upserts everything, whatever the calls do |
| DesiredProperties.ReadableAfterIff | internal/manifests/mutate.go:41-110 | an object can be read after a pass if and only if it is an Ingress or its desired labels name the operator |
| DesiredProperties.SpecAsDesiredIff | internal/manifests/mutate.go:99-110 | the spec equals the desired one if and only if the object is new or already had the type and policy, or the class |
| DesiredProperties.ForeignObjectIsSafeIff | internal/controller/mdaiingress_controller.go:224-227 | an object of another owner is left alone if and only if its key is not desired and it is not listed under the owner's name |
| DesiredNames.Build | internal/manifests/collector/collector.go:17-37 | the loop lists the manifests that have contents, in order |
| DesiredNames.BuiltKeys | internal/manifests/collector/collector.go:17-37 | for every collector name they have distinct keys, in the owner's namespace |
| DesiredNames.KeysThatFit | internal/manifests/collector/collector.go:17-37 | kind and name of each of the three objects, for collector names that fit |
| DesiredNames.ServiceLabelsAre | internal/manifests/manifestutils/labels.go:27-62 | where each label of a Service comes from |
| DesiredNames.RebuildRestsIff | internal/controller/mdaiingress_controller.go:94-107 | after a pass over one build a pass over another succeeds without a write if and only if both ended with the same rules, or there is no ingress, and the collector leaves the operator's label alone, or there is no Service |
| DesiredNames.OverriddenLabelBlocks | internal/manifests/manifestutils/labels.go:27-42 | once a collector that overrides the label has Services, no pass over its objects upserts everything, whatever the calls do |
| DesiredNames.CollectorComesToRestIff | internal/manifests/collector/ingress_aws.go:44-98 | whatever way each build takes, a pass after a successful one succeeds without a write if and only if no pass succeeds, or both: there is no ingress or the gRPC components mapped to one host have the same paths, and there is no Service or the collector leaves the operator's label alone |
| Decimal.NumberOfDigits | internal/components/single_endpoint.go:94-96 | reading a printed number gives the number |
| Truncate.CutConserves | internal/naming/triming.go:27-47 | characters taken away and excess left over add up to the excess; numbers are untouched |
| Truncate.CutGoesLeftToRight | internal/naming/triming.go:28-47 | each string is replaced by a prefix of itself, emptied up to some point and untouched behind it |
| Truncate.CutValues | internal/naming/triming.go:28-47 | the loop keeps removed plus excess constant and computes the cut |
| Truncate.TruncateText | internal/naming/triming.go:22-56 | the method computes the truncated text |
| Truncate.TruncatedFits | internal/naming/triming.go:22-56 | the result is never longer than the limit |
| Truncate.TruncatedExactly | internal/naming/triming.go:25-56 | an over-long text is cut to exactly the limit and trimmed if the fixed part fits, and otherwise to the fixed part and hard to the limit, untrimmed |
| Truncate.TrimmedIs | internal/naming/triming.go:11-63 | trimming takes away exactly what stands before the first letter or digit and behind the last |
| Truncate.DNSName | internal/naming/dns.go:22-38 | the loop computes the name character by character |
| Truncate.DnsNameAt | internal/naming/dns.go:22-38 | each character of the name |
| Truncate.DnsNameIsLabel | internal/naming/dns.go:22-38 | the result is a label if and only if the text is neither empty nor over 63 characters; labels stay as they are |
| Naming.BuildIsLabel | internal/naming/main.go:11-62 | every builder, for any format and values, gives a label or the empty text |
| Naming.FixedTextMakesLabel | internal/naming/main.go:11-62 | with alphanumeric fixed text it is never empty |
| Naming.SuffixedLabel | internal/naming/main.go:29-57 | behind a label only the end of the label gives way to the suffix |
| Naming.ServiceShape | internal/naming/main.go:45-47 | however much is cut, a service name is a label ending in nine characters that are no hyphens |
| Naming.ServiceNameShape | internal/naming/main.go:29-57 | every kind of service name is a label with the last letter of its suffix |
| Naming.GrpcNames | internal/naming/main.go:49-57 | the gRPC name of any collector differs from the non-gRPC name of any collector |
| Naming.ServiceKindsNeverClash | internal/naming/main.go:29-57 | service names of different kinds never clash, for any two names |
| Naming.ServiceClashesIff | internal/naming/main.go:45-47 | on labels the plain name only appends up to 53 characters, and two clash if and only if their first 53 characters agree |
| Naming.OtherBuildersMakeLabels | internal/naming/main.go:11-27 | ingress, ConfigMap and extra ConfigMap names are labels, the bare name a label or empty |
| Naming.NamesThatFit | internal/naming/main.go:11-62 | on labels of up to 42 characters, the exact name each builder gives |
| PortNames.PortNameFits | internal/naming/port.go:20-34 | at most fifteen characters for every non-negative 32-bit number |
| PortNames.PortNameIsStable | internal/naming/port.go:20-34 | naming a port by its own name changes nothing |
| PortNames.PortNameIs | internal/naming/port.go:14-34 | which names are kept, with slashes and underscores as hyphens, and what the others give way to |
| PortNames.PortNameIsLabelIff | internal/naming/port.go:14-34 | the result is a label if and only if the name is too long or does not match the pattern, or is not empty and has no capital and no dot |
| PortNames.PortNameNeedNotBeLabel | internal/naming/port.go:14-34 | two names that are kept and are no labels |
| Endpoint.PortRoundTrip | internal/components/component.go:73-94 | reading a printed address and port gives the port from 1 to 2147483647, and an error for 0 and above |
| Endpoint.PortOfConfig | internal/components/single_endpoint.go:31-49 | the endpoint decides if there is one, then the listen address, then the default |
| Endpoint.DefaultingIsIdempotent | internal/components/single_endpoint.go:89-106 | defaulting twice is defaulting once, for every address and config |
| Endpoint.AddressDefaulterIs | internal/components/single_endpoint.go:89-106 | what becomes of each form of endpoint: none, one with an address, and one without |
| Endpoint.DefaultingKeepsPortIff | internal/components/single_endpoint.go:31-106 | defaulting keeps the effective port if and only if the endpoint is empty, or starts with an address and a colon, or has no colon and no other port at its start than the default, or behind a leading colon its first part with a digit, if any, reads like its last |
| Endpoint.OneColonKeepsPort | internal/components/single_endpoint.go:94-101 | with exactly one colon it is always kept |
| Endpoint.DefaultingMovesBareNumber | internal/components/single_endpoint.go:97-101 | a bare number becomes the port although it was not read as one |
| Endpoint.DefaultingMovesSecondPort | internal/components/single_endpoint.go:97-101 | of two ports behind an empty address reading takes the first and defaulting the second |
| MultiPort.MultiPortReceiver.Ports | internal/components/multi_endpoint.go:39-58 | whatever the shared objects were called, the ports are those of the specification, in some order of the protocols; an error exactly for an unknown protocol |
| MultiPort.MultiPortReceiver.PortsWithUrlPaths | internal/components/multi_endpoint.go:168-189 | the same ports, each with its protocol's paths |
| MultiPort.PortFields | internal/components/component.go:129-142 | each port handed out, field by field, in terms of its protocol's object and endpoint |
| MultiPort.MultiPortReceiver.GetDefaultConfig | internal/components/multi_endpoint.go:69-97 | every protocol gets its defaulted config |
| MultiPort.DefaultConfigIs | internal/components/multi_endpoint.go:69-97 | a protocol without an endpoint listens at its own address, or else the receiver's, and its port |
| MultiPort.PortsAreHistoryIndependent | internal/components/multi_endpoint.go:39-58 | calls on the same name and protocols give the same multiset of ports in any walk, after any history, and on any receiver of the same settings |
| MultiPort.BuiltAlike | internal/components/multi_endpoint.go:133-158 | receivers built from the same builders are such |
| MultiPort.CallsAgree | internal/components/multi_endpoint.go:39-189 | both calls agree, with any calls of either kind and any names in between |
| MultiPort.DefaultConfigKeepsPortIff | internal/components/multi_endpoint.go:69-97 | a defaulted protocol keeps its port if and only if its endpoint allows it |
| MultiPort.LastOfItsNameCounts | internal/components/multi_endpoint.go:147-156 | of several builders of one name the last one counts |
| MultiPort.Build | internal/components/multi_endpoint.go:133-158 | the receiver has exactly the wanted protocols with their settings; an error exactly without a builder or with an unnamed one, a panic exactly if that is the first |
| Slices.DeleteUnless | internal/manifests/collector/service_aws.go:44-48 | walking backwards while deleting in place leaves the order-preserving filter |
| Slices.FilterSplits | internal/manifests/collector/service_aws.go:44-136 | what is kept and what is not make up the whole |
| ServicePorts.ExtractPortNumbersAndNames | internal/manifests/collector/service.go:64-74 | exactly the numbers, with an empty protocol read as TCP, and names of the resource's ports |
| ServicePorts.ServicePortsFromCfg | internal/manifests/collector/ingress.go:25-53 | the resource's ports and then the kept inferred ones |
| ServicePorts.GrpcServicePorts | internal/manifests/collector/service_aws.go:39-48 | the filter of all ports by gRPC |
| ServicePorts.NonGrpcServicePorts | internal/manifests/collector/service_aws.go:108-136 | the filter of all ports by the rest |
| ServicePorts.FilterPortAvoidsClashes | internal/manifests/collector/service.go:37-62 | a port is dropped if and only if its number is taken or both its names are; a kept one clashes with nothing of the resource and is renamed only if it must |
| ServicePorts.FilteredPort | internal/manifests/collector/service.go:17-62 | when an inferred port is dropped, kept or renamed, in the fields of the ports |
| ServicePorts.KeptPortsAvoidClashes | internal/manifests/collector/ingress.go:40-49 | no kept inferred port clashes with a port of the resource by name or by number and protocol |
| ServicePorts.KeptPortsAreComplete | internal/manifests/collector/ingress.go:40-49 | every inferred port that can be kept is kept |
| ServicePorts.ResourcePortsSplit | internal/manifests/collector/service_aws.go:39-136 | the resource's ports are split between the two services exactly, each share first and in order |
| ServicePorts.KeptNamesClashIff | internal/manifests/collector/service.go:43-57 | two kept ports get one name if and only if both kept the one they had in common, or both were renamed with one number, or one was renamed to the other's name |
| ServicePorts.KeptNamesDoClash | internal/manifests/collector/service.go:43-57 | such a pair: one number over two protocols |
| IngressRules.KeepGrpcComponents | internal/manifests/collector/ingress_aws.go:44-57 | deleting and replacing map entries while walking it leaves exactly the components with gRPC ports, and only those ports |
| IngressRules.IsGrpcComponentIff | internal/manifests/collector/ingress_aws.go:44-57 | a component whose ports a receiver handed out has a gRPC port if and only if one of its configured protocols was built with that application protocol |
| IngressRules.PathAt | internal/manifests/collector/ingress_aws.go:126-143 | where each URL path of each port stands in the array, and what it leads to |
| IngressRules.ComponentRules | internal/manifests/collector/ingress_aws.go:119-159 | the array is filled completely and within bounds; every rule of the component shares all its paths in order |
| IngressRules.CreatePathIngressRules | internal/manifests/collector/ingress_aws.go:116-162 | the rules of all components, in some order of the components |
| IngressRules.RulesIgnoreOrder | internal/manifests/collector/ingress_aws.go:116-162 | the multiset of rules does not depend on that order |
| IngressRules.SortRules | internal/manifests/collector/ingress_aws.go:96-98 | sorted by host, and the same rules |
| IngressRules.LessIsByFirstDifference | internal/manifests/collector/ingress_aws.go:96-98 | the order of the hosts is decided by the first difference |
| IngressRules.IngressAws | internal/manifests/collector/ingress_aws.go:19-113 | when there is no ingress, when there is an error, and otherwise the sorted rules |
| IngressYields.SortedUnique | internal/manifests/collector/ingress_aws.go:96-98 | there is one way to sort the rules if rules of one host are the same |
| IngressYields.YieldsOneIff | internal/manifests/collector/ingress_aws.go:67-162 | any two walks, each sorted in any way, end with the same rules if and only if components mapped to one host have the same paths |
| IngressYields.SharedHostDisagrees | internal/manifests/collector/ingress_aws.go:116-162 | two components with a gRPC port of a name of its own, mapped to one host, do not |
| IngressYields.TwoReceiversOnOneHost | internal/manifests/collector/ingress_aws.go:116-162 | two such components |
| IngressYields.PortOrderIsHidden | internal/manifests/collector/ingress_aws.go:44-57 | the order of a component's ports, also that of a walk, cannot show while it has at most one gRPC port |
| IngressRules.BackendNamesPort | internal/manifests/collector/ingress_aws.go:127-140 | a rule names its port as the receiver named it |
| IngressRules.BackendLeadsToItsPortIff | internal/manifests/collector/service_aws.go:39-48 | that name leads to the port's own number in the gRPC service if and only if the port clashes with nothing of the resource, or the resource has that very port for gRPC |
| HubVariables.ValidateVariables | internal/webhook/v1/mdaihub_webhook.go:460-539 | no error if and only if keys and exported names are unique, storage, references and transformers are as required |
| HubVariables.VariableOkIff | internal/webhook/v1/mdaihub_webhook.go:460-498 | what storage and references an accepted variable has, by type and data type |
| HubVariables.SerializersOkIff | internal/webhook/v1/mdaihub_webhook.go:500-539 | which serializers may be added to it |
| HubEnv.HubAdapter.ApplySerializerToString | internal/controller/hub_adapter.go:570-582 | texts override what is there |
| HubEnv.HubAdapter.ApplySetTransformation | internal/controller/hub_adapter.go:584-612 | lists leave what is there, and the last join counts; a panic exactly at a join without settings under a name that is not there |
| HubEnv.HubAdapter.HandleComputedVariable | internal/controller/hub_adapter.go:325-356 | an error exactly if a read fails, a panic exactly where one is due, otherwise the written environment |
| HubEnv.HubAdapter.HandleMetaVariable | internal/controller/hub_adapter.go:358-383 | the same for meta variables, indexing references within bounds |
| HubEnv.HubAdapter.SyncValkeyVariables | internal/controller/hub_adapter.go:385-417 | stops exactly at the first variable whose read fails or that panics; otherwise environment, manual environment and kept keys are as specified |
| HubEnvProperties.AcceptedIsIndexable | internal/webhook/v1/mdaihub_webhook.go:491-498 | acceptance makes indexing the references of hash sets safe |
| HubEnvProperties.EnvIsExact | internal/controller/hub_adapter.go:385-417 | an accepted hub exports a value under a name if and only if the variable declaring the name has it |
| HubEnvValues.JoinItemsIff | internal/controller/hub_adapter.go:603-606 | joining gives the items in order with the delimiter between any two and nothing else, and is the only text that does |
| HubEnvValues.ComputedValueIff | internal/controller/hub_adapter.go:325-356 | what an accepted manual or computed variable exports under a serializer's name, by data type, in terms of what is stored under its key |
| HubEnvValues.MetaValueIff | internal/controller/hub_adapter.go:358-383 | the same for meta variables: the text under the key and its two references in order, or the joined list |
| HubEnvValues.OtherTypesExportNothing | internal/controller/hub_adapter.go:411-414 | a variable of another type exports nothing |
| HubEnvValues.ManualEnvIff | internal/controller/hub_adapter.go:400-401 | the manual environment has exactly the manual variables' data types |
| HubEnvValues.KeptKeysIff | internal/controller/hub_adapter.go:391-397 | exactly the keys of variables in the built-in storage are kept |
| HubEnvValues.FailsIff | internal/controller/hub_adapter.go:325-383 | a variable's read fails if and only if Valkey fails for its key and its data type goes with its type |
| HubEnvValues.PanicsIff | internal/controller/hub_adapter.go:584-612 | when an accepted variable panics, by type, data type and transformers |
| HubEnvProperties.AcceptedPanicsIff | internal/controller/hub_adapter.go:584-612 | a variable of an accepted hub panics if and only if it is a list with a join transformer without settings |
| HubEnvProperties.NilJoinIsAccepted | internal/webhook/v1/mdaihub_webhook.go:500-539 | a hub that is accepted and panics |
| HubEnvProperties.EnvIgnoresOrder | internal/controller/hub_adapter.go:570-612 | any two orders of the same accepted variables export the same environment |
| HubEnvProperties.AcceptedKeysAreKept | internal/controller/hub_adapter.go:396-397 | no key of an accepted hub is cleaned up |
| HubEnvProperties.OrderDecidesIff | internal/controller/hub_adapter.go:570-612 | without acceptance: two variables under one name depend on their order if and only if both are texts or both are lists |
| MetaRefs.MetaMapIsExact | internal/webhook/v1/mdaihub_webhook.go:126-131 | among accepted variables a key has at most one set of references |
| MetaRefs.ValidateMetaVarRefs | internal/webhook/v1/mdaihub_webhook.go:121-149 | no error if and only if no meta variable changes its references |
| MetaRefs.UpdateOkIff | internal/webhook/v1/mdaihub_webhook.go:121-149 | in terms of keys that are meta variables before and after |
| MetaRefs.RefsNeverChange | internal/webhook/v1/mdaihub_webhook.go:98-149 | over any sequence of accepted updates a key that stays a meta variable keeps its references |
| MetaRefs.RecreationChangesRefsIff | internal/webhook/v1/mdaihub_webhook.go:121-149 | an update by way of a hub in between is accepted if and only if its meta variables agree with those before and after: references of keys that are none there may change |
| MetaRefs.RecreationChangesRefs | internal/webhook/v1/mdaihub_webhook.go:121-149 | by way of a hub without variables any references can become any others |
| HubRestart.WrittenExactly | internal/controller/hub_adapter.go:446-462 | exactly the collectors' namespaces hold the environment afterwards |
| HubRestart.HubAdapter.CreateOrUpdateEnvConfigMap | internal/controller/hub_adapter.go:700-737 | the ConfigMap holds the environment, and was changed exactly if it was missing or different |
| HubRestart.HubAdapter.RestartCollectorAndAudit | internal/controller/hub_adapter.go:419-444 | one restart with one audit event, or nothing and no error after a conflict |
| HubRestart.HubAdapter.SyncComputedConfigMapsAndRestart | internal/controller/hub_adapter.go:446-473 | without an error all ConfigMaps are written and exactly the stale, unconflicted collectors restarted in order; with one, those ConfigMaps and restarts have been made that come before it, and at most one restart without its audit event |
| HubRestart.RestartedIff | internal/controller/hub_adapter.go:446-473 | without a conflict a collector is restarted once, with an audit event, if its namespace's ConfigMap was missing or different, and not otherwise |
| HubRestart.OnlyStaleAreRestarted | internal/controller/hub_adapter.go:464-471 | every restart has its audit event and is of a collector in a stale namespace |
| HubRestart.SkippedIsNotRetried | internal/controller/hub_adapter.go:429-435 | a second pass with the same environment restarts and writes nothing, not even for skipped collectors |
| HubRestart.InterruptedPassForgets | internal/controller/hub_adapter.go:452-462 | after a failed pass the next restarts only collectors whose namespace was not yet written |
| HubRestart.RestartedOverTwoPasses | internal/controller/hub_adapter.go:446-473 | over two passes each stale collector is restarted exactly once, or never if it was skipped |
| HubRestart.PassRestartsIff | internal/controller/hub_adapter.go:446-473 | a pass, failed or not, restarts a collector once if its namespace was stale and the pass gets to it, and otherwise not; the namespace is stale afterwards if and only if it was and is not written |
| HubRestart.RestartedOverRunIff | internal/controller/hub_adapter.go:446-473 | over any passes with one environment, failed or not, a collector is restarted exactly once if its namespace was stale and the pass that first writes it also gets to the collector, and never otherwise |
| HubAutomations.ValidateAction | internal/webhook/v1/mdaihub_webhook.go:267-352 | accepted if and only if exactly one payload is present and it is valid |
| HubAutomations.AcceptedIsSingle | internal/webhook/v1/mdaihub_webhook.go:267-352 | an accepted action has exactly one payload, of its field's type |
| HubAutomations.SingleActionOkIff | internal/webhook/v1/mdaihub_webhook.go:354-420 | for each kind of action: accepted if and only if its variable is known, and what else it needs |
| HubAutomations.ValidateThen | internal/webhook/v1/mdaihub_webhook.go:218-229 | accepted if and only if there is an action and all are accepted |
| HubAutomations.TransformThenToCommands | internal/controller/event_config_transformer.go:45-93 | all commands in order; an error exactly for an action without a payload |
| HubAutomations.SingleActionCommand | internal/controller/event_config_transformer.go:48-88 | each field of an action becomes the command of its kind with its payload |
| HubAutomations.AcceptedThenTranslates | internal/controller/event_config_transformer.go:45-93 | an accepted list becomes exactly one command per action, in order, of the matching kind and payload |
| HubAutomations.TranslationIsInjective | internal/controller/event_config_transformer.go:45-93 | accepted lists that translate alike are alike |
| HubAutomations.WhenOkIff | internal/webhook/v1/mdaihub_webhook.go:235-260 | which conditions are accepted, in the texts they give |
| HubAutomations.TriggerOf | internal/controller/event_config_transformer.go:14-43 | the trigger a condition becomes, text by text |
| HubAutomations.AcceptedWhenTranslatesIff | internal/controller/event_config_transformer.go:14-43 | an accepted condition translates if and only if the given name is not empty, to something known if it is not blank |
| HubAutomations.BlankNameGetsThrough | internal/webhook/v1/mdaihub_webhook.go:235-260 | a blank alert name is accepted and translates to an unknown alert |
| ObserverConfig.GeneratedTextIsInjective | internal/controller/observer.go:268-304 | generated names are written alike only if they are the same |
| ObserverConfig.Builder.AddOne | internal/controller/observer.go:265-306 | the whole new state of processors, connectors and pipelines |
| ObserverConfig.Builder.GetObserverCollectorConfig | internal/controller/observer.go:240-318 | the loop generates the specified configuration |
| ObserverConfig.LastCounts | internal/controller/observer.go:265-306 | for any list, pipelines, connector and grouping of a name are those of its last observer |
| ObserverConfig.LastFilterCounts | internal/controller/observer.go:285-289 | a filter outlives a later observer of the name without one |
| ObserverConfig.BaseIsKept | internal/controller/observer.go:265-306 | what no observer generates is as it was |
| ObserverConfig.ObserverPipelinesAreClosed | internal/controller/observer.go:290-304 | for any list, every observer has its two pipelines and all they name is defined |
| ObserverConfig.OutputIsClosed | internal/controller/observer.go:306-318 | the metrics pipeline collects from each connector in order, all it names is defined, and none is listed twice if and only if the names are distinct |
| ObserverConfig.CountsExactlyWhatIsObserved | internal/controller/observer.go:240-318 | with distinct names a log or trace is counted for an observer if and only if the observer's own filter admits it, by its own labels, whatever the others are |
| ObserverConfig.ObserversAreIndependent | internal/controller/observer.go:265-306 | with distinct names what is generated for an observer depends on it alone |

## Left out

- Kubernetes client, informers, webhook server, Valkey connection, OpenTelemetry set-up, flags: plumbing; calls become store operations that may fail.
- YAML and JSON encoding and hashing: configurations stay structured values, payloads stand for their encoding, and the deployment's hash annotation keeps the object that was hashed.
- Owner references of a replay's children, and setting them: they decide nothing in a pass but can make it fail when another controller owns the object. Fields of the children that are the same for every replay.
- Transition times and observed generations of conditions, and restart timestamps.
- Cache staleness: reads see the store, as far as the cache holds it, as it is at the time of the call; the stale copies that a pass itself keeps are modelled.
- The label filter of the cache for a hub's ConfigMaps: one that cannot be read makes its creation fail like any failing call.
- Other clients acting during an ingress or hub pass: there only failures and conflicts are modelled.
- The branch for immutable-field errors: no mutation raises one.
- The finalizers of hub, collector and other controllers: the replay controller is the harder instance of the same shape.
- MdaiDal: it writes a new timestamp in each pass, so nothing comes to rest.
- PromQL and URL syntax, webhook headers and replay specs in automation rules: an acceptable or unacceptable payload stands for the outcome of these checks.
- The parsers of single-port components beyond their endpoint handling, probes and RBAC tables.
- Labels and annotations of the ingress services as builders compute them: they are arbitrary maps.
- How the library sort orders equal hosts: any order is allowed for.
- The ports of the ingress services as the OpenTelemetry operator infers them: arbitrary lists, the same in both builds of a comparison.
- Names outside ASCII: a byte index and a rune count differ there.
- LogRoutingCorrect.DeliversExactlyWhatIsWanted: speaks of records in exactly one wanted stream, because for others the code's answer depends on the order of a map walk; TableOrderShowsExactly has the exact condition.
- HubEnv.HubAdapter.SyncValkeyVariables: requires that hash sets have two references, which the code indexes unchecked; AcceptedIsIndexable shows that the webhook sees to it.
- HubEnv.HubAdapter.TransformInto: promises nothing of the environment after a panic, which ends the pass before it is used.
- Slices.DeleteUnless: the slice header and its capacity are not modelled, only the elements and the length.
- Endpoint.AddressDefaulter: returns the defaulted config instead of writing it into its argument, which is decoded anew for each call.
- DesiredStore.Mutate: is a function of the object that was read instead of a closure over it; the store that it is written back to is updated in place.
