/** The compiler of internal/controller/mdaicollector_adapter.go: it fills three maps in place and
    then lists the routing table by walking the third one. */
module LogRoutingCompiler {
  import opened Wrappers
  import opened LogRoutingConfig

  // ---------- Names and components it generates ----------

  /** The filter of a level; a level outside the known four has none. */
  function SeverityFilterNames(level: SeverityLevel): seq<ProcessorName> {
    if ValidSeverity(level) then [MinSeverityFilter(level)] else []
  }

  function PipelineWithExporterAndSeverityFilter(receiver: ReceiverName, exporter: ExporterName,
                                                 min: Option<SeverityLevel>, batch: Option<ProcessorName>): Pipeline
  {
    var filters := if min.Some? then SeverityFilterNames(min.value) else [];
    var batches := if batch.Some? then [batch.value] else [];
    Pipeline([receiver], filters + batches, [exporter])
  }

  function ContextOf(s: LogStream): RoutingContext { if s == Audit then LogContext else ResourceContext }

  /** The pipeline each sink should end up with for a stream it has switched on. */
  function OtlpPipelineOf(otlp: OtlpLogsConfig, s: LogStream): Pipeline {
    PipelineWithExporterAndSeverityFilter(Router, OtlpSink, MinSeverity(otlp.streams, s),
                                          if s == Audit then Some(BatchAudit) else None)
  }

  function S3PipelineOf(s3: S3LogsConfig, s: LogStream): Pipeline {
    PipelineWithExporterAndSeverityFilter(Router, S3Sink(s), MinSeverity(s3.streams, s), Some(Batch))
  }

  // ---------- The routing table map ----------

  type RoutingTable = map<LogStream, RoutingEntry>

  /** Every entry carries the context and condition of its own stream. */
  ghost predicate WellFormed(rt: RoutingTable) {
    && Other !in rt
    && forall s | s in rt :: rt[s].context == ContextOf(s) && rt[s].condition == LogstreamIs(s) && rt[s].pipelines != []
  }

  function Routes(rt: RoutingTable, s: LogStream): seq<PipelineName> {
    if s in rt then rt[s].pipelines else []
  }

  function AppendIf(c: bool, names: seq<PipelineName>, name: PipelineName): seq<PipelineName> {
    if c then names + [name] else names
  }

  /** One more pipeline for a stream; the other stream never gets an entry. */
  function AddRoute(rt: RoutingTable, s: LogStream, name: PipelineName): RoutingTable {
    if s == Other then rt
    else rt[s := RoutingEntry(if s in rt then rt[s].context else ContextOf(s),
                              if s in rt then rt[s].condition else LogstreamIs(s),
                              Routes(rt, s) + [name])]
  }

  function AddRouteIf(rt: RoutingTable, c: bool, s: LogStream, name: PipelineName): RoutingTable {
    if c then AddRoute(rt, s, name) else rt
  }

  /** Only the stream's own route grew, by the pipeline, and only if the stream is on. */
  ghost predicate RouteGrew(before: RoutingTable, after: RoutingTable, s: LogStream, on: bool, name: PipelineName) {
    && WellFormed(after)
    && forall t | t != Other :: Routes(after, t) == AppendIf(on && t == s, Routes(before, t), name)
  }

  // ---------- What a compilation must leave behind ----------

  predicate OtlpActive(logs: LogsConfig) {
    logs.otlp.Some? && logs.otlp.value.endpoint != ""
  }

  predicate S3Active(logs: LogsConfig, secret: Option<string>) {
    secret.Some? && logs.s3.Some?
  }

  predicate OtlpEmits(logs: LogsConfig, s: LogStream) {
    OtlpActive(logs) && StreamOn(logs.otlp.value.streams, s)
  }

  predicate S3Emits(logs: LogsConfig, secret: Option<string>, s: LogStream) {
    S3Active(logs, secret) && StreamOn(logs.s3.value.streams, s)
  }

  /** The pipelines that a record routed to a stream should go through. */
  function RoutesFor(logs: LogsConfig, secret: Option<string>, s: LogStream): seq<PipelineName> {
    (if OtlpEmits(logs, s) then [OtlpPipeline(s)] else [])
    + (if S3Emits(logs, secret, s) then [S3Pipeline(s)] else [])
  }

  /** `after` is `before` plus the OTLP pipelines of the streams that are on, and nothing else. */
  ghost predicate OtlpPipelinesAdded(before: map<PipelineName, Pipeline>, after: map<PipelineName, Pipeline>,
                                     logs: LogsConfig) {
    && (forall s | OtlpEmits(logs, s) ::
        OtlpPipeline(s) in after && after[OtlpPipeline(s)] == OtlpPipelineOf(logs.otlp.value, s))
    && (forall n | forall s :: OtlpEmits(logs, s) ==> n != OtlpPipeline(s) ::
          (n in after <==> n in before) && (n in before ==> after[n] == before[n]))
  }

  ghost predicate S3PipelinesAdded(before: map<PipelineName, Pipeline>, after: map<PipelineName, Pipeline>,
                                   logs: LogsConfig, secret: Option<string>)
  {
    && (forall s | S3Emits(logs, secret, s) ::
        S3Pipeline(s) in after && after[S3Pipeline(s)] == S3PipelineOf(logs.s3.value, s))
    && (forall n | forall s :: S3Emits(logs, secret, s) ==> n != S3Pipeline(s) ::
          (n in after <==> n in before) && (n in before ==> after[n] == before[n]))
  }

  ghost predicate S3ExportersAdded(before: map<ExporterName, Exporter>, after: map<ExporterName, Exporter>,
                                   hubName: string, logs: LogsConfig, secret: Option<string>)
  {
    && (forall s | S3Emits(logs, secret, s) ::
        S3Sink(s) in after && after[S3Sink(s)] == S3Destination(hubName, logs.s3.value, s))
    && (forall n | forall s :: S3Emits(logs, secret, s) ==> n != S3Sink(s) ::
          (n in after <==> n in before) && (n in before ==> after[n] == before[n]))
  }

  function OtlpExporters(before: map<ExporterName, Exporter>, logs: LogsConfig): map<ExporterName, Exporter> {
    if OtlpActive(logs) then before[OtlpSink := OtlpExporter(logs.otlp.value.endpoint, true)] else before
  }

  /** The table is the map's entries, listed in the order some walk visited the keys. */
  ghost predicate Walk(order: seq<LogStream>, rt: RoutingTable, table: seq<RoutingEntry>) {
    && (forall i, j | 0 <= i < j < |order| :: order[i] != order[j])
    && (forall s :: s in order <==> s in rt)
    && |table| == |order|
    && forall i | 0 <= i < |order| :: order[i] in rt && table[i] == rt[order[i]]
  }

  ghost predicate RoutesEveryStream(rt: RoutingTable, logs: LogsConfig, secret: Option<string>) {
    WellFormed(rt) && forall s | s != Other :: Routes(rt, s) == RoutesFor(logs, secret, s)
  }

  /** `cfg` is one of the configurations the compiler can produce from `base`. */
  ghost predicate CompiledVia(base: CollectorConfig, hubName: string, logs: LogsConfig, secret: Option<string>,
                              cfg: CollectorConfig, order: seq<LogStream>, rt: RoutingTable,
                              mid: map<PipelineName, Pipeline>)
  {
    && cfg.processors == base.processors
    && OtlpPipelinesAdded(base.pipelines, mid, logs)
    && S3PipelinesAdded(mid, cfg.pipelines, logs, secret)
    && S3ExportersAdded(OtlpExporters(base.exporters, logs), cfg.exporters, hubName, logs, secret)
    && RoutesEveryStream(rt, logs, secret)
    && Walk(order, rt, cfg.table)
    && cfg.defaultPipelines ==
       (if RoutesFor(logs, secret, Other) != [] then RoutesFor(logs, secret, Other) else base.defaultPipelines)
  }

  ghost predicate Compiled(base: CollectorConfig, hubName: string, logs: LogsConfig, secret: Option<string>,
                           cfg: CollectorConfig)
  {
    exists order, rt, mid :: CompiledVia(base, hubName, logs, secret, cfg, order, rt, mid)
  }

  // ---------- Sets of in-place map updates ----------

  function PutIf<K, V>(m: map<K, V>, c: bool, k: K, v: V): map<K, V> {
    if c then m[k := v] else m
  }

  /** The guarded update a sink makes for one stream. */
  function OtlpStep(m: map<PipelineName, Pipeline>, otlp: OtlpLogsConfig, s: LogStream): map<PipelineName, Pipeline> {
    PutIf(m, StreamOn(otlp.streams, s), OtlpPipeline(s), OtlpPipelineOf(otlp, s))
  }

  function S3Step(m: map<PipelineName, Pipeline>, s3: S3LogsConfig, s: LogStream): map<PipelineName, Pipeline> {
    PutIf(m, StreamOn(s3.streams, s), S3Pipeline(s), S3PipelineOf(s3, s))
  }

  function S3ExporterStep(m: map<ExporterName, Exporter>, hubName: string, s3: S3LogsConfig,
                          s: LogStream): map<ExporterName, Exporter> {
    PutIf(m, StreamOn(s3.streams, s), S3Sink(s), S3Destination(hubName, s3, s))
  }

  function OtlpPipelinesInto(m: map<PipelineName, Pipeline>, logs: LogsConfig): map<PipelineName, Pipeline> {
    if !OtlpActive(logs) then m else
    var otlp := logs.otlp.value;
    OtlpStep(OtlpStep(OtlpStep(OtlpStep(m, otlp, Audit), otlp, Collector), otlp, Hub), otlp, Other)
  }

  function S3PipelinesInto(m: map<PipelineName, Pipeline>, logs: LogsConfig,
                           secret: Option<string>): map<PipelineName, Pipeline> {
    if !S3Active(logs, secret) then m else
    var s3 := logs.s3.value;
    S3Step(S3Step(S3Step(S3Step(m, s3, Audit), s3, Collector), s3, Hub), s3, Other)
  }

  function S3ExportersInto(m: map<ExporterName, Exporter>, hubName: string, logs: LogsConfig,
                           secret: Option<string>): map<ExporterName, Exporter> {
    if !S3Active(logs, secret) then m else
    var s3 := logs.s3.value;
    S3ExporterStep(S3ExporterStep(S3ExporterStep(S3ExporterStep(m, hubName, s3, Audit), hubName, s3, Collector),
                                  hubName, s3, Hub), hubName, s3, Other)
  }

  function FourRoutes(rt: RoutingTable, on: SinkStreams, p: LogStream -> PipelineName): RoutingTable {
    var r1 := AddRouteIf(rt, StreamOn(on, Audit), Audit, p(Audit));
    var r2 := AddRouteIf(r1, StreamOn(on, Collector), Collector, p(Collector));
    var r3 := AddRouteIf(r2, StreamOn(on, Hub), Hub, p(Hub));
    AddRouteIf(r3, StreamOn(on, Other), Other, p(Other))
  }

  function OtlpRoutesInto(rt: RoutingTable, logs: LogsConfig): RoutingTable {
    if !OtlpActive(logs) then rt else FourRoutes(rt, logs.otlp.value.streams, s => OtlpPipeline(s))
  }

  function S3RoutesInto(rt: RoutingTable, logs: LogsConfig, secret: Option<string>): RoutingTable {
    if !S3Active(logs, secret) then rt else FourRoutes(rt, logs.s3.value.streams, s => S3Pipeline(s))
  }

  lemma OtlpPipelinesAreExact(m: map<PipelineName, Pipeline>, logs: LogsConfig)
    ensures OtlpPipelinesAdded(m, OtlpPipelinesInto(m, logs), logs)
  {
  }

  lemma S3PipelinesAreExact(m: map<PipelineName, Pipeline>, logs: LogsConfig, secret: Option<string>)
    ensures S3PipelinesAdded(m, S3PipelinesInto(m, logs, secret), logs, secret)
  {
  }

  lemma S3ExportersAreExact(m: map<ExporterName, Exporter>, hubName: string, logs: LogsConfig, secret: Option<string>)
    ensures S3ExportersAdded(m, S3ExportersInto(m, hubName, logs, secret), hubName, logs, secret)
  {
  }

  lemma AddRouteIfIsExact(rt: RoutingTable, c: bool, s: LogStream, name: PipelineName)
    requires WellFormed(rt)
    ensures RouteGrew(rt, AddRouteIf(rt, c, s, name), s, c, name)
  {
  }

  lemma FourRoutesAt(rt: RoutingTable, on: SinkStreams, p: LogStream -> PipelineName, t: LogStream)
    requires WellFormed(rt) && t != Other
    ensures WellFormed(FourRoutes(rt, on, p))
    ensures Routes(FourRoutes(rt, on, p), t) == AppendIf(StreamOn(on, t), Routes(rt, t), p(t))
  {
    AddRouteIfIsExact(rt, StreamOn(on, Audit), Audit, p(Audit));
    var r1 := AddRouteIf(rt, StreamOn(on, Audit), Audit, p(Audit));
    AddRouteIfIsExact(r1, StreamOn(on, Collector), Collector, p(Collector));
    var r2 := AddRouteIf(r1, StreamOn(on, Collector), Collector, p(Collector));
    AddRouteIfIsExact(r2, StreamOn(on, Hub), Hub, p(Hub));
    var r3 := AddRouteIf(r2, StreamOn(on, Hub), Hub, p(Hub));
    AddRouteIfIsExact(r3, StreamOn(on, Other), Other, p(Other));
  }

  /** Starting empty, the two sinks leave every stream with exactly its routes. */
  lemma RoutesAreExact(logs: LogsConfig, secret: Option<string>)
    ensures RoutesEveryStream(S3RoutesInto(OtlpRoutesInto(map[], logs), logs, secret), logs, secret)
  {
    var rt := OtlpRoutesInto(map[], logs);
    forall t | t != Other ensures WellFormed(rt) && Routes(rt, t) == AppendIf(OtlpEmits(logs, t), [], OtlpPipeline(t)) {
      if OtlpActive(logs) { FourRoutesAt(map[], logs.otlp.value.streams, s => OtlpPipeline(s), t); }
    }
    assert WellFormed(rt) by {
      assert Audit != Other;
      assert WellFormed(rt) && Routes(rt, Audit) == AppendIf(OtlpEmits(logs, Audit), [], OtlpPipeline(Audit));
    }
    var st := S3RoutesInto(rt, logs, secret);
    forall t | t != Other ensures WellFormed(st) && Routes(st, t) == RoutesFor(logs, secret, t) {
      if S3Active(logs, secret) { FourRoutesAt(rt, logs.s3.value.streams, s => S3Pipeline(s), t); }
      assert Routes(rt, t) == AppendIf(OtlpEmits(logs, t), [], OtlpPipeline(t));
    }
    assert WellFormed(st) by {
      assert Audit != Other;
      assert WellFormed(st) && Routes(st, Audit) == RoutesFor(logs, secret, Audit);
    }
  }

  // ---------- The compiler ----------

  class ConfigAugmenter {
    var exporters: map<ExporterName, Exporter>
    var pipelines: map<PipelineName, Pipeline>
    var routingTable: RoutingTable

    constructor (exporters: map<ExporterName, Exporter>, pipelines: map<PipelineName, Pipeline>)
      ensures this.exporters == exporters && this.pipelines == pipelines && routingTable == map[]
    {
      this.exporters := exporters;
      this.pipelines := pipelines;
      this.routingTable := map[];
    }

    method AddOrCreateRoutingTableEntryWithPipeline(logstream: LogStream, pipelineName: PipelineName)
      modifies this`routingTable
      ensures routingTable == AddRoute(old(routingTable), logstream, pipelineName)
    {
      if logstream == Other {
        return;
      }
      if logstream !in routingTable {
        assert Routes(routingTable, logstream) + [pipelineName] == [pipelineName];
        routingTable := routingTable[logstream :=
          RoutingEntry(ContextOf(logstream), LogstreamIs(logstream), [pipelineName])];
        return;
      }
      var entry := routingTable[logstream];
      entry := entry.(pipelines := entry.pipelines + [pipelineName]);
      routingTable := routingTable[logstream := entry];
    }

    method AddPipelineForLogstream(config: Option<LogstreamConfig>, logstream: LogStream, exporterName: ExporterName)
      returns (pipelineName: PipelineName)
      modifies this`pipelines, this`routingTable
      ensures pipelineName == OtlpPipeline(logstream)
      ensures pipelines == old(pipelines)[pipelineName :=
        PipelineWithExporterAndSeverityFilter(Router, exporterName,
                                              if config.Some? then config.value.minSeverity else None, None)]
      ensures routingTable == AddRoute(old(routingTable), logstream, pipelineName)
    {
      var minSeverity: Option<SeverityLevel> := None;
      if config.Some? && config.value.minSeverity.Some? {
        minSeverity := config.value.minSeverity;
      }
      pipelineName := OtlpPipeline(logstream);
      pipelines :=
        pipelines[pipelineName := PipelineWithExporterAndSeverityFilter(Router, exporterName, minSeverity, None)];
      AddOrCreateRoutingTableEntryWithPipeline(logstream, pipelineName);
    }

    method AddS3ComponentsAndPipeline(hubName: string, logstream: LogStream, s3: S3LogsConfig,
                                      min: Option<SeverityLevel>)
      returns (pipelineName: PipelineName)
      modifies this
      ensures pipelineName == S3Pipeline(logstream)
      ensures exporters == old(exporters)[S3Sink(logstream) := S3Destination(hubName, s3, logstream)]
      ensures pipelines == old(pipelines)[pipelineName :=
        PipelineWithExporterAndSeverityFilter(Router, S3Sink(logstream), min, Some(Batch))]
      ensures routingTable == AddRoute(old(routingTable), logstream, pipelineName)
    {
      exporters := exporters[S3Sink(logstream) := S3Destination(hubName, s3, logstream)];
      pipelineName := S3Pipeline(logstream);
      pipelines := pipelines[pipelineName :=
        PipelineWithExporterAndSeverityFilter(Router, S3Sink(logstream), min, Some(Batch))];
      AddOrCreateRoutingTableEntryWithPipeline(logstream, pipelineName);
    }

    /** The block the OTLP augmentation repeats for each stream. */
    method AddOtlpStream(otlp: OtlpLogsConfig, logstream: LogStream) returns (added: seq<PipelineName>)
      modifies this`pipelines, this`routingTable
      ensures pipelines == OtlpStep(old(pipelines), otlp, logstream)
      ensures routingTable ==
        AddRouteIf(old(routingTable), StreamOn(otlp.streams, logstream), logstream, OtlpPipeline(logstream))
      ensures added == if StreamOn(otlp.streams, logstream) then [OtlpPipeline(logstream)] else []
    {
      added := [];
      if logstream == Audit {
        var auditLogs := otlp.streams.auditLogs;
        if auditLogs.None? || !auditLogs.value.disabled {
          var pipelineName := OtlpPipeline(Audit);
          pipelines :=
            pipelines[pipelineName := PipelineWithExporterAndSeverityFilter(Router, OtlpSink, None, Some(BatchAudit))];
          AddOrCreateRoutingTableEntryWithPipeline(Audit, pipelineName);
          added := [pipelineName];
        }
      } else {
        var config := StreamConfig(otlp.streams, logstream);
        if config.None? || !config.value.disabled {
          var pipelineName := AddPipelineForLogstream(config, logstream, OtlpSink);
          added := [pipelineName];
        }
      }
    }

    method AugmentConfigForOtlp(logs: LogsConfig) returns (defaults: seq<PipelineName>)
      modifies this
      ensures exporters == OtlpExporters(old(exporters), logs)
      ensures pipelines == OtlpPipelinesInto(old(pipelines), logs)
      ensures routingTable == OtlpRoutesInto(old(routingTable), logs)
      ensures defaults == if OtlpEmits(logs, Other) then [OtlpPipeline(Other)] else []
    {
      defaults := [];
      if logs.otlp.None? || logs.otlp.value.endpoint == "" {
        return;
      }
      var otlp := logs.otlp.value;
      exporters := exporters[OtlpSink := OtlpExporter(otlp.endpoint, true)];
      var _ := AddOtlpStream(otlp, Audit);
      var _ := AddOtlpStream(otlp, Collector);
      var _ := AddOtlpStream(otlp, Hub);
      var others := AddOtlpStream(otlp, Other);
      defaults := defaults + others;
    }

    /** The block the S3 augmentation repeats for each stream; for the collector stream the
        exporter is written twice, to no further effect. */
    method AddS3Stream(hubName: string, s3: S3LogsConfig, logstream: LogStream) returns (added: seq<PipelineName>)
      modifies this
      ensures exporters == S3ExporterStep(old(exporters), hubName, s3, logstream)
      ensures pipelines == S3Step(old(pipelines), s3, logstream)
      ensures routingTable ==
        AddRouteIf(old(routingTable), StreamOn(s3.streams, logstream), logstream, S3Pipeline(logstream))
      ensures added == if StreamOn(s3.streams, logstream) then [S3Pipeline(logstream)] else []
    {
      added := [];
      if logstream == Audit {
        var auditLogs := s3.streams.auditLogs;
        if auditLogs.None? || !auditLogs.value.disabled {
          var pipelineName := AddS3ComponentsAndPipeline(hubName, Audit, s3, None);
          added := [pipelineName];
        }
      } else {
        var config := StreamConfig(s3.streams, logstream);
        if config.None? || !config.value.disabled {
          if logstream == Collector {
            exporters := exporters[S3Sink(Collector) := S3Destination(hubName, s3, Collector)];
          }
          var min: Option<SeverityLevel> := None;
          if config.Some? && config.value.minSeverity.Some? {
            min := config.value.minSeverity;
          }
          var pipelineName := AddS3ComponentsAndPipeline(hubName, logstream, s3, min);
          added := [pipelineName];
        }
      }
    }

    method AugmentPipelinesForS3(hubName: string, logs: LogsConfig, secret: Option<string>)
      returns (defaults: seq<PipelineName>)
      modifies this
      ensures exporters == S3ExportersInto(old(exporters), hubName, logs, secret)
      ensures pipelines == S3PipelinesInto(old(pipelines), logs, secret)
      ensures routingTable == S3RoutesInto(old(routingTable), logs, secret)
      ensures defaults == if S3Emits(logs, secret, Other) then [S3Pipeline(Other)] else []
    {
      defaults := [];
      if secret.None? {
        return;
      }
      if logs.s3.None? {
        return;
      }
      var s3 := logs.s3.value;
      var _ := AddS3Stream(hubName, s3, Audit);
      var _ := AddS3Stream(hubName, s3, Collector);
      var _ := AddS3Stream(hubName, s3, Hub);
      var others := AddS3Stream(hubName, s3, Other);
      defaults := defaults + others;
    }
  }

  /** Lists the entries of the routing table, in whatever order the keys come. */
  method ListTable(rt: RoutingTable) returns (table: seq<RoutingEntry>, order: seq<LogStream>)
    ensures Walk(order, rt, table)
  {
    table, order := [], [];
    var remaining := rt.Keys;
    while remaining != {}
      invariant remaining <= rt.Keys
      invariant forall i, j | 0 <= i < j < |order| :: order[i] != order[j]
      invariant forall s :: s in order <==> s in rt && s !in remaining
      invariant |table| == |order|
      invariant forall i | 0 <= i < |order| :: order[i] in rt && table[i] == rt[order[i]]
      decreases remaining
    {
      var s :| s in remaining;
      remaining := remaining - {s};
      table, order := table + [rt[s]], order + [s];
    }
  }

  method GetMdaiCollectorConfig(base: CollectorConfig, hubName: string, logsConfig: Option<LogsConfig>,
                                secret: Option<string>) returns (cfg: CollectorConfig)
    ensures logsConfig.None? ==> cfg == base
    ensures logsConfig.Some? ==> Compiled(base, hubName, logsConfig.value, secret, cfg)
  {
    cfg := base;
    if logsConfig.Some? {
      var logs := logsConfig.value;
      var augmenter := new ConfigAugmenter(base.exporters, base.pipelines);
      var others := augmenter.AugmentConfigForOtlp(logs);
      ghost var mid := augmenter.pipelines;
      var s3Others := augmenter.AugmentPipelinesForS3(hubName, logs, secret);
      others := others + s3Others;
      var table, order := ListTable(augmenter.routingTable);
      cfg := base.(exporters := augmenter.exporters, pipelines := augmenter.pipelines, table := table);
      if |others| > 0 {
        cfg := cfg.(defaultPipelines := others);
      }
      OtlpPipelinesAreExact(base.pipelines, logs);
      S3PipelinesAreExact(mid, logs, secret);
      S3ExportersAreExact(OtlpExporters(base.exporters, logs), hubName, logs, secret);
      RoutesAreExact(logs, secret);
      assert CompiledVia(base, hubName, logs, secret, cfg, order, augmenter.routingTable, mid);
    }
  }
}
