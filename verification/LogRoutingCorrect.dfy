/** The compiled configuration means what the declarative one asks for. */
module LogRoutingCorrect {
  import opened Wrappers
  import opened LogRoutingConfig
  import opened LogRoutingCompiler

  // ---------- What the base configuration must provide ----------

  /** The filters and batch processors the compiler refers to, and no clash with the names it makes. */
  ghost predicate SuitableBase(base: CollectorConfig) {
    && (forall level | ValidSeverity(level) ::
          MinSeverityFilter(level) in base.processors &&
            base.processors[MinSeverityFilter(level)] == SeverityFilter(SeverityNumber(level)))
    && (forall n | n in {Batch, BatchAudit} :: n in base.processors && base.processors[n] == Passthrough)
    && (forall n | n in base.pipelines :: n.BasePipeline?)
    && (forall n | n in base.exporters :: n.BaseExporter?)
    && (forall n | n in base.defaultPipelines :: n in base.pipelines)
    && (forall n, e | n in base.pipelines && e in base.pipelines[n].exporters :: e.BaseExporter?)
  }

  /** The admitted resource, its compilation, and a base that supports it. */
  ghost predicate Setting(base: CollectorConfig, cr: MdaiCollector, cfg: CollectorConfig) {
    && Validate(cr).None?
    && cr.logs.Some?
    && SuitableBase(base)
    && Compiled(base, cr.name, cr.logs.value, AwsAccessKeySecret(cr), cfg)
  }

  /** The webhook leaves no sink that the compiler would skip and no severity without a filter. */
  lemma AdmittedMeansActive(cr: MdaiCollector, s: LogStream)
    requires Validate(cr).None? && cr.logs.Some?
    ensures OtlpEmits(cr.logs.value, s) <==> OtlpWants(cr.logs.value, s)
    ensures S3Emits(cr.logs.value, AwsAccessKeySecret(cr), s) <==> S3Wants(cr.logs.value, s)
    ensures cr.logs.value.otlp.Some? ==> SeverityAccepted(cr.logs.value.otlp.value.streams, s)
    ensures cr.logs.value.s3.Some? ==> SeverityAccepted(cr.logs.value.s3.value.streams, s)
  {
  }

  // ---------- One pipeline ----------

  lemma FilterAgrees(base: CollectorConfig, min: Option<SeverityLevel>, receiver: ReceiverName, exporter: ExporterName,
                     batch: Option<ProcessorName>, r: LogRecord)
    requires SuitableBase(base)
    requires min.Some? ==> ValidSeverity(min.value)
    requires batch.Some? ==> batch.value in {Batch, BatchAudit}
    ensures Passes(base.processors, PipelineWithExporterAndSeverityFilter(receiver, exporter, min, batch).processors, r)
            <==> Admits(min, r)
  {
    var names := PipelineWithExporterAndSeverityFilter(receiver, exporter, min, batch).processors;
    assert min.Some? ==> names[0] == MinSeverityFilter(min.value);
    assert forall i | 0 <= i < |names| :: (min.Some? && i == 0) || Some(names[i]) == batch;
  }

  /** A single-exporter pipeline fed by the router exports a record or drops it. */
  lemma RunSingle(cfg: CollectorConfig, name: PipelineName, e: ExporterName, r: LogRecord)
    requires name in cfg.pipelines && e in cfg.exporters
    requires cfg.pipelines[name].receivers == [Router] && cfg.pipelines[name].exporters == [e]
    ensures RunPipeline(cfg, name, r) ==
            if Passes(cfg.processors, cfg.pipelines[name].processors, r) then [cfg.exporters[e]] else []
  {
    assert [e][1..] == [];
    assert Resolve(cfg.exporters, [e]) == [cfg.exporters[e]] + Resolve(cfg.exporters, []);
    assert cfg.pipelines[name].receivers[0] == Router;
  }

  lemma OtlpLookup(base: CollectorConfig, hubName: string, logs: LogsConfig, secret: Option<string>,
                   cfg: CollectorConfig, s: LogStream)
    requires Compiled(base, hubName, logs, secret, cfg) && OtlpEmits(logs, s)
    ensures OtlpPipeline(s) in cfg.pipelines && cfg.pipelines[OtlpPipeline(s)] == OtlpPipelineOf(logs.otlp.value, s)
    ensures OtlpSink in cfg.exporters && cfg.exporters[OtlpSink] == OtlpExporter(logs.otlp.value.endpoint, true)
    ensures cfg.processors == base.processors
  {
    var order, rt, mid :| CompiledVia(base, hubName, logs, secret, cfg, order, rt, mid);
    var n := OtlpPipeline(s);
    assert n in mid;
    assert OtlpSink in OtlpExporters(base.exporters, logs);
  }

  lemma S3Lookup(base: CollectorConfig, hubName: string, logs: LogsConfig, secret: Option<string>, cfg: CollectorConfig,
                 s: LogStream)
    requires Compiled(base, hubName, logs, secret, cfg) && S3Emits(logs, secret, s)
    ensures S3Pipeline(s) in cfg.pipelines && cfg.pipelines[S3Pipeline(s)] == S3PipelineOf(logs.s3.value, s)
    ensures S3Sink(s) in cfg.exporters && cfg.exporters[S3Sink(s)] == S3Destination(hubName, logs.s3.value, s)
    ensures cfg.processors == base.processors
  {
    var order, rt, mid :| CompiledVia(base, hubName, logs, secret, cfg, order, rt, mid);
  }

  lemma OtlpPipelineDelivers(base: CollectorConfig, cr: MdaiCollector, cfg: CollectorConfig, s: LogStream, r: LogRecord)
    requires Setting(base, cr, cfg)
    requires OtlpWants(cr.logs.value, s)
    ensures SeverityAccepted(cr.logs.value.otlp.value.streams, s)
    ensures RunPipeline(cfg, OtlpPipeline(s), r) ==
            if Admits(MinSeverity(cr.logs.value.otlp.value.streams, s), r)
            then [OtlpExporter(cr.logs.value.otlp.value.endpoint, true)] else []
  {
    var otlp := cr.logs.value.otlp.value;
    AdmittedMeansActive(cr, s);
    OtlpLookup(base, cr.name, cr.logs.value, AwsAccessKeySecret(cr), cfg, s);
    var batch := if s == Audit then Some(BatchAudit) else None;
    FilterAgrees(base, MinSeverity(otlp.streams, s), Router, OtlpSink, batch, r);
    RunSingle(cfg, OtlpPipeline(s), OtlpSink, r);
  }

  lemma S3PipelineDelivers(base: CollectorConfig, cr: MdaiCollector, cfg: CollectorConfig, s: LogStream, r: LogRecord)
    requires Setting(base, cr, cfg)
    requires S3Wants(cr.logs.value, s)
    ensures SeverityAccepted(cr.logs.value.s3.value.streams, s)
    ensures RunPipeline(cfg, S3Pipeline(s), r) ==
            if Admits(MinSeverity(cr.logs.value.s3.value.streams, s), r)
            then [S3Destination(cr.name, cr.logs.value.s3.value, s)] else []
  {
    var s3 := cr.logs.value.s3.value;
    AdmittedMeansActive(cr, s);
    S3Lookup(base, cr.name, cr.logs.value, AwsAccessKeySecret(cr), cfg, s);
    FilterAgrees(base, MinSeverity(s3.streams, s), Router, S3Sink(s), Some(Batch), r);
    RunSingle(cfg, S3Pipeline(s), S3Sink(s), r);
  }

  function Optional<T>(c: bool, x: T): seq<T> { if c then [x] else [] }

  lemma RunUpToTwo(cfg: CollectorConfig, c: bool, x: PipelineName, d: bool, y: PipelineName, r: LogRecord)
    ensures RunPipelines(cfg, Optional(c, x) + Optional(d, y), r) ==
            (if c then RunPipeline(cfg, x, r) else []) + (if d then RunPipeline(cfg, y, r) else [])
  {
    assert RunPipelines(cfg, [y], r) == RunPipeline(cfg, y, r) by { assert [y][1..] == []; }
    assert RunPipelines(cfg, [x], r) == RunPipeline(cfg, x, r) by { assert [x][1..] == []; }
    assert [x] + [] == [x] && [] + [y] == [y];
    assert ([x] + [y])[1..] == [y];
  }

  /** The routes of a stream carry a record to the sinks that want it, once each. */
  lemma RoutesDeliver(base: CollectorConfig, cr: MdaiCollector, cfg: CollectorConfig, s: LogStream, r: LogRecord)
    requires Setting(base, cr, cfg)
    ensures cr.logs.value.otlp.Some? ==> SeverityAccepted(cr.logs.value.otlp.value.streams, s)
    ensures cr.logs.value.s3.Some? ==> SeverityAccepted(cr.logs.value.s3.value.streams, s)
    ensures RunPipelines(cfg, RoutesFor(cr.logs.value, AwsAccessKeySecret(cr), s), r) ==
      Wanted(cr.name, cr.logs.value, s, r)
  {
    AdmittedMeansActive(cr, s);
    var otlp, s3 := OtlpWants(cr.logs.value, s), S3Wants(cr.logs.value, s);
    assert RoutesFor(cr.logs.value, AwsAccessKeySecret(cr), s) ==
      Optional(otlp, OtlpPipeline(s)) + Optional(s3, S3Pipeline(s));
    RunUpToTwo(cfg, otlp, OtlpPipeline(s), s3, S3Pipeline(s), r);
    if otlp { OtlpPipelineDelivers(base, cr, cfg, s, r); }
    if s3 { S3PipelineDelivers(base, cr, cfg, s, r); }
  }

  // ---------- The routing table ----------

  /** A routed stream's entry holds for exactly the records of that stream. */
  lemma EntryHolds(rt: RoutingTable, s: LogStream, r: LogRecord)
    requires WellFormed(rt) && s in rt
    ensures Holds(rt[s], r) <==> InStream(r, s)
  {
  }

  lemma {:induction false} RouteFollowsFirstMatch(table: seq<RoutingEntry>, defaults: seq<PipelineName>, r: LogRecord,
                                                  k: nat)
    requires k <= |table|
    requires forall i | 0 <= i < k :: !Holds(table[i], r)
    requires k < |table| ==> Holds(table[k], r)
    ensures Route(table, defaults, r) == if k < |table| then table[k].pipelines else defaults
    decreases k
  {
    if k > 0 {
      assert !Holds(table[0], r);
      RouteFollowsFirstMatch(table[1..], defaults, r, k - 1);
    }
  }

  /** Whatever the order of the table: the one routed stream a record is in decides its route. */
  lemma RouteOfStream(order: seq<LogStream>, rt: RoutingTable, table: seq<RoutingEntry>, defaults: seq<PipelineName>,
                      r: LogRecord, s: LogStream)
    requires WellFormed(rt) && Walk(order, rt, table)
    requires s in rt && InStream(r, s)
    requires forall t | t in rt && t != s :: !InStream(r, t)
    ensures Route(table, defaults, r) == rt[s].pipelines
  {
    var k :| 0 <= k < |order| && order[k] == s;
    forall i | 0 <= i < |order| ensures Holds(table[i], r) <==> i == k { EntryHolds(rt, order[i], r); }
    RouteFollowsFirstMatch(table, defaults, r, k);
  }

  lemma RouteOfNoStream(order: seq<LogStream>, rt: RoutingTable, table: seq<RoutingEntry>, defaults: seq<PipelineName>,
                        r: LogRecord)
    requires WellFormed(rt) && Walk(order, rt, table)
    requires forall t | t in rt :: !InStream(r, t)
    ensures Route(table, defaults, r) == defaults
  {
    forall i | 0 <= i < |order| ensures !Holds(table[i], r) { EntryHolds(rt, order[i], r); }
    RouteFollowsFirstMatch(table, defaults, r, |table|);
  }

  lemma RoutedIffWanted(cr: MdaiCollector, rt: RoutingTable, s: LogStream)
    requires Validate(cr).None? && cr.logs.Some? && s != Other
    requires RoutesEveryStream(rt, cr.logs.value, AwsAccessKeySecret(cr))
    ensures s in rt <==> SomeSinkWants(cr.logs.value, s)
    ensures s in rt ==> rt[s].pipelines == RoutesFor(cr.logs.value, AwsAccessKeySecret(cr), s)
  {
    AdmittedMeansActive(cr, s);
    assert Routes(rt, s) == RoutesFor(cr.logs.value, AwsAccessKeySecret(cr), s);
  }

  /** The table is empty exactly if no sink wants audit, collector or hub records: every record is then
      taken to go to the defaults, though the connector may refuse such a table. */
  lemma TableIsEmptyIff(base: CollectorConfig, cr: MdaiCollector, cfg: CollectorConfig)
    requires Setting(base, cr, cfg)
    ensures cfg.table == [] <==> forall s | s != Other :: !SomeSinkWants(cr.logs.value, s)
  {
    var order, rt, mid :| CompiledVia(base, cr.name, cr.logs.value, AwsAccessKeySecret(cr), cfg, order, rt, mid);
    forall s | s != Other ensures s in order <==> SomeSinkWants(cr.logs.value, s) { RoutedIffWanted(cr, rt, s); }
    if cfg.table != [] { assert order[0] in order && order[0] != Other; }
  }

  // ---------- Main results ----------

  /** Every record of a stream that some sink wants is delivered once to exactly the sinks that
      want the stream and admit the record, whatever order the table was listed in; provided the
      record is in no second wanted stream. */
  lemma DeliversExactlyWhatIsWanted(base: CollectorConfig, cr: MdaiCollector, cfg: CollectorConfig, s: LogStream,
                                    r: LogRecord)
    requires Setting(base, cr, cfg)
    requires InStream(r, s) && SomeSinkWants(cr.logs.value, s)
    requires forall t | t != s && InStream(r, t) :: !SomeSinkWants(cr.logs.value, t)
    ensures cr.logs.value.otlp.Some? ==> SeverityAccepted(cr.logs.value.otlp.value.streams, s)
    ensures cr.logs.value.s3.Some? ==> SeverityAccepted(cr.logs.value.s3.value.streams, s)
    ensures Deliver(cfg, r) == Wanted(cr.name, cr.logs.value, s, r)
  {
    var logs, secret := cr.logs.value, AwsAccessKeySecret(cr);
    var order, rt, mid :| CompiledVia(base, cr.name, logs, secret, cfg, order, rt, mid);
    forall t | t != Other ensures t in rt <==> SomeSinkWants(logs, t) { RoutedIffWanted(cr, rt, t); }
    RoutesDeliver(base, cr, cfg, s, r);
    if s == Other {
      AdmittedMeansActive(cr, Other);
      assert RoutesFor(logs, secret, Other) != [];
      RouteOfNoStream(order, rt, cfg.table, cfg.defaultPipelines, r);
    } else {
      RoutedIffWanted(cr, rt, s);
      RouteOfStream(order, rt, cfg.table, cfg.defaultPipelines, r, s);
    }
  }

  /** Switching a stream off in every sink does not silence it: its records are delivered like
      those of the other stream, and when nothing wants that one either, as the base would. */
  lemma UnwantedStreamsFallToOther(base: CollectorConfig, cr: MdaiCollector, cfg: CollectorConfig, r: LogRecord)
    requires Setting(base, cr, cfg)
    requires forall t | t != Other && InStream(r, t) :: !SomeSinkWants(cr.logs.value, t)
    ensures cr.logs.value.otlp.Some? ==> SeverityAccepted(cr.logs.value.otlp.value.streams, Other)
    ensures cr.logs.value.s3.Some? ==> SeverityAccepted(cr.logs.value.s3.value.streams, Other)
    ensures Deliver(cfg, r) == if SomeSinkWants(cr.logs.value, Other)
                               then Wanted(cr.name, cr.logs.value, Other, r)
                               else RunPipelines(base, base.defaultPipelines, r)
  {
    var logs, secret := cr.logs.value, AwsAccessKeySecret(cr);
    var order, rt, mid :| CompiledVia(base, cr.name, logs, secret, cfg, order, rt, mid);
    forall t | t != Other ensures t in rt <==> SomeSinkWants(logs, t) { RoutedIffWanted(cr, rt, t); }
    RouteOfNoStream(order, rt, cfg.table, cfg.defaultPipelines, r);
    RoutesDeliver(base, cr, cfg, Other, r);
    AdmittedMeansActive(cr, Other);
    if !SomeSinkWants(logs, Other) {
      BasePipelinesUnchanged(base, cr, cfg, base.defaultPipelines, r);
    }
  }

  lemma BaseNamesUntouched(base: CollectorConfig, cr: MdaiCollector, cfg: CollectorConfig)
    requires Setting(base, cr, cfg)
    ensures cfg.processors == base.processors
    ensures forall n | n in base.pipelines :: n in cfg.pipelines && cfg.pipelines[n] == base.pipelines[n]
    ensures forall e: ExporterName | e.BaseExporter? :: (e in cfg.exporters <==> e in base.exporters)
                                                    && (e in base.exporters ==> cfg.exporters[e] == base.exporters[e])
  {
    var logs, secret := cr.logs.value, AwsAccessKeySecret(cr);
    var order, rt, mid :| CompiledVia(base, cr.name, logs, secret, cfg, order, rt, mid);
    forall n | n in base.pipelines ensures n in cfg.pipelines && cfg.pipelines[n] == base.pipelines[n] {
      BasePipelineStays(base, cr.name, logs, secret, cfg, n);
    }
  }

  lemma {:induction false} ResolveUnchanged(a: map<ExporterName, Exporter>, b: map<ExporterName, Exporter>,
                                            names: seq<ExporterName>)
    requires forall e | e in names :: (e in a <==> e in b) && (e in a ==> a[e] == b[e])
    ensures Resolve(a, names) == Resolve(b, names)
  {
    if names != [] {
      assert names[0] in names && forall e | e in names[1..] :: e in names;
      ResolveUnchanged(a, b, names[1..]);
    }
  }

  lemma {:induction false} BasePipelinesUnchanged(base: CollectorConfig, cr: MdaiCollector, cfg: CollectorConfig,
                                                  names: seq<PipelineName>, r: LogRecord)
    requires Setting(base, cr, cfg)
    requires forall n | n in names :: n in base.pipelines
    ensures RunPipelines(cfg, names, r) == RunPipelines(base, names, r)
  {
    if names != [] {
      BaseNamesUntouched(base, cr, cfg);
      assert names[0] in names && forall n | n in names[1..] :: n in names;
      ResolveUnchanged(cfg.exporters, base.exporters, base.pipelines[names[0]].exporters);
      BasePipelinesUnchanged(base, cr, cfg, names[1..], r);
    }
  }

  // ---------- When the order of the table shows ----------

  function FinalRoutes(logs: LogsConfig, secret: Option<string>): RoutingTable {
    S3RoutesInto(OtlpRoutesInto(map[], logs), logs, secret)
  }

  function Key(rt: RoutingTable, s: LogStream): seq<LogStream> { if s in rt then [s] else [] }

  function Entry(rt: RoutingTable, s: LogStream): seq<RoutingEntry> { if s in rt then [rt[s]] else [] }

  function Keys(rt: RoutingTable, first: LogStream, second: LogStream, third: LogStream): seq<LogStream> {
    Key(rt, first) + Key(rt, second) + Key(rt, third)
  }

  function Entries(rt: RoutingTable, first: LogStream, second: LogStream, third: LogStream): seq<RoutingEntry> {
    Entry(rt, first) + Entry(rt, second) + Entry(rt, third)
  }

  /** The configuration the compiler returns when the walk visits the keys in the preferred order. */
  function CompileInOrder(base: CollectorConfig, hubName: string, logs: LogsConfig, secret: Option<string>,
                          first: LogStream, second: LogStream, third: LogStream): CollectorConfig
  {
    var rt := FinalRoutes(logs, secret);
    var others := RoutesFor(logs, secret, Other);
    CollectorConfig(
      S3ExportersInto(OtlpExporters(base.exporters, logs), hubName, logs, secret),
      base.processors,
      S3PipelinesInto(OtlpPipelinesInto(base.pipelines, logs), logs, secret),
      Entries(rt, first, second, third),
      if others != [] then others else base.defaultPipelines)
  }

  lemma CompileInOrderIsCompiled(base: CollectorConfig, hubName: string, logs: LogsConfig, secret: Option<string>,
                                 first: LogStream, second: LogStream, third: LogStream)
    requires ThreeStreams(first, second, third)
    ensures Compiled(base, hubName, logs, secret, CompileInOrder(base, hubName, logs, secret, first, second, third))
  {
    var rt := FinalRoutes(logs, secret);
    var cfg := CompileInOrder(base, hubName, logs, secret, first, second, third);
    var mid := OtlpPipelinesInto(base.pipelines, logs);
    OtlpPipelinesAreExact(base.pipelines, logs);
    S3PipelinesAreExact(mid, logs, secret);
    S3ExportersAreExact(OtlpExporters(base.exporters, logs), hubName, logs, secret);
    RoutesAreExact(logs, secret);
    var order := Keys(rt, first, second, third);
    WalkInOrder(rt, first, second, third);
    assert CompiledVia(base, hubName, logs, secret, cfg, order, rt, mid);
  }

  /** A walk that has visited exactly the keys among those seen. */
  ghost predicate PartialWalk(order: seq<LogStream>, rt: RoutingTable, table: seq<RoutingEntry>, seen: set<LogStream>) {
    && (forall i, j | 0 <= i < j < |order| :: order[i] != order[j])
    && (forall s :: s in order <==> s in rt && s in seen)
    && |table| == |order|
    && forall i | 0 <= i < |order| :: order[i] in rt && table[i] == rt[order[i]]
  }

  lemma WalkOneMore(order: seq<LogStream>, rt: RoutingTable, table: seq<RoutingEntry>, seen: set<LogStream>,
                    s: LogStream)
    requires PartialWalk(order, rt, table, seen) && s !in seen
    ensures PartialWalk(order + Key(rt, s), rt, table + Entry(rt, s), seen + {s})
  {
    if s !in rt {
      assert order + [] == order && table + [] == table;
    }
  }

  /** The three routed streams, in some order. */
  predicate ThreeStreams(first: LogStream, second: LogStream, third: LogStream) {
    && first != Other && second != Other && third != Other
    && first != second && second != third && first != third
  }

  lemma OneOfThree(first: LogStream, second: LogStream, third: LogStream, s: LogStream)
    requires ThreeStreams(first, second, third) && s != Other
    ensures s in {first, second} + {third}
  {
  }

  lemma WalkInOrder(rt: RoutingTable, first: LogStream, second: LogStream, third: LogStream)
    requires WellFormed(rt)
    requires ThreeStreams(first, second, third)
    ensures Walk(Keys(rt, first, second, third), rt, Entries(rt, first, second, third))
  {
    WalkOneMore([], rt, [], {}, first);
    assert [] + Key(rt, first) == Key(rt, first) && [] + Entry(rt, first) == Entry(rt, first) &&
      {} + {first} == {first};
    WalkOneMore(Key(rt, first), rt, Entry(rt, first), {first}, second);
    assert {first} + {second} == {first, second};
    WalkOneMore(Key(rt, first) + Key(rt, second), rt, Entry(rt, first) + Entry(rt, second), {first, second}, third);
    forall s | s in rt ensures s in {first, second} + {third} { OneOfThree(first, second, third, s); }
  }

  /** The stream a record's resource names, if it is one of the two component streams. */
  function ResourceStream(r: LogRecord): Option<LogStream> {
    if r.resourceStream == Some("collector") then Some(Collector)
    else if r.resourceStream == Some("hub") then Some(Hub)
    else None
  }

  /** An audit record of a component whose own stream is routed too, where S3 takes part. */
  predicate OrderSensitive(logs: LogsConfig, r: LogRecord) {
    && InStream(r, Audit) && SomeSinkWants(logs, Audit)
    && ResourceStream(r).Some? && SomeSinkWants(logs, ResourceStream(r).value)
    && (S3Wants(logs, Audit) || S3Wants(logs, ResourceStream(r).value))
  }

  /** With the audit entry listed first, or last, a doubly marked record takes the audit route,
      or that of its component. */
  lemma OrderDecides(base: CollectorConfig, cr: MdaiCollector, r: LogRecord, s: LogStream, first: LogStream,
                     second: LogStream, third: LogStream)
    requires Validate(cr).None? && cr.logs.Some? && SuitableBase(base)
    requires ThreeStreams(first, second, third)
    requires s == first && InStream(r, s) && SomeSinkWants(cr.logs.value, s)
    ensures var cfg := CompileInOrder(base, cr.name, cr.logs.value, AwsAccessKeySecret(cr), first, second, third);
      && Setting(base, cr, cfg)
      && (cr.logs.value.otlp.Some? ==> SeverityAccepted(cr.logs.value.otlp.value.streams, s))
      && (cr.logs.value.s3.Some? ==> SeverityAccepted(cr.logs.value.s3.value.streams, s))
      && Deliver(cfg, r) == Wanted(cr.name, cr.logs.value, s, r)
  {
    var logs, secret := cr.logs.value, AwsAccessKeySecret(cr);
    var cfg := CompileInOrder(base, cr.name, logs, secret, first, second, third);
    CompileInOrderIsCompiled(base, cr.name, logs, secret, first, second, third);
    RoutesAreExact(logs, secret);
    var rt := FinalRoutes(logs, secret);
    RoutedIffWanted(cr, rt, s);
    EntryHolds(rt, s, r);
    assert cfg.table[0] == rt[s];
    RoutesDeliver(base, cr, cfg, s, r);
  }

  /** For a record in two wanted streams the routes of one of them are taken. */
  lemma DoublyMarkedTakesOneRoute(base: CollectorConfig, cr: MdaiCollector, cfg: CollectorConfig, r: LogRecord,
                                  t: LogStream)
    requires Setting(base, cr, cfg)
    requires InStream(r, Audit) && SomeSinkWants(cr.logs.value, Audit)
    requires t in {Collector, Hub} && InStream(r, t) && SomeSinkWants(cr.logs.value, t)
    ensures forall s | s in {Audit, t} ::
      && (cr.logs.value.otlp.Some? ==> SeverityAccepted(cr.logs.value.otlp.value.streams, s))
      && (cr.logs.value.s3.Some? ==> SeverityAccepted(cr.logs.value.s3.value.streams, s))
    ensures Deliver(cfg, r) in [Wanted(cr.name, cr.logs.value, Audit, r), Wanted(cr.name, cr.logs.value, t, r)]
  {
    var logs, secret := cr.logs.value, AwsAccessKeySecret(cr);
    var order, rt, mid :| CompiledVia(base, cr.name, logs, secret, cfg, order, rt, mid);
    RoutedIffWanted(cr, rt, Audit);
    RoutedIffWanted(cr, rt, t);
    var s := RouteOfTwoStreams(order, rt, cfg.table, cfg.defaultPipelines, r, t);
    RoutesDeliver(base, cr, cfg, Audit, r);
    RoutesDeliver(base, cr, cfg, t, r);
  }

  lemma RouteOfTwoStreams(order: seq<LogStream>, rt: RoutingTable, table: seq<RoutingEntry>,
                          defaults: seq<PipelineName>, r: LogRecord, t: LogStream)
    returns (s: LogStream)
    requires WellFormed(rt) && Walk(order, rt, table)
    requires t in {Collector, Hub} && Audit in rt && t in rt && InStream(r, Audit) && InStream(r, t)
    ensures s == Audit || s == t
    ensures Route(table, defaults, r) == rt[s].pipelines
  {
    assert Audit in order && t in order;
    var a :| 0 <= a < |order| && order[a] == Audit;
    var b :| 0 <= b < |order| && order[b] == t;
    var k := if a < b then a else b;
    forall i | 0 <= i < |order| ensures Holds(table[i], r) <==> i == a || i == b { EntryHolds(rt, order[i], r); }
    RouteFollowsFirstMatch(table, defaults, r, k);
    s := order[k];
  }

  lemma WantedDiffers(name: string, logs: LogsConfig, r: LogRecord, t: LogStream)
    requires t in {Collector, Hub} && InStream(r, Audit) && InStream(r, t)
    requires forall s | s in {Audit, t} :: (logs.otlp.Some? ==> SeverityAccepted(logs.otlp.value.streams, s))
                                           && (logs.s3.Some? ==> SeverityAccepted(logs.s3.value.streams, s))
    requires SomeSinkWants(logs, Audit) && SomeSinkWants(logs, t)
    ensures Wanted(name, logs, Audit, r) == Wanted(name, logs, t, r) <==> !S3Wants(logs, Audit) && !S3Wants(logs, t)
  {
    assert StreamName(t)[0] != 'a';
    if S3Wants(logs, Audit) {
      var x := Wanted(name, logs, Audit, r);
      assert x[|x| - 1] == S3Destination(name, logs.s3.value, Audit);
      assert x[|x| - 1].filePrefix[0] == 'a';
      if S3Wants(logs, t) {
        var y := Wanted(name, logs, t, r);
        assert y[|y| - 1] == S3Destination(name, logs.s3.value, t);
        assert y[|y| - 1].filePrefix[0] == StreamName(t)[0];
      }
    } else if S3Wants(logs, t) {
      var y := Wanted(name, logs, t, r);
      assert y[|y| - 1] == S3Destination(name, logs.s3.value, t);
    }
  }

  /** The order in which the map is walked shows for exactly the order-sensitive records. */
  lemma TableOrderShowsExactly(base: CollectorConfig, cr: MdaiCollector, r: LogRecord)
    requires Validate(cr).None? && cr.logs.Some? && SuitableBase(base)
    ensures (forall c1, c2 | Setting(base, cr, c1) && Setting(base, cr, c2) :: Deliver(c1, r) == Deliver(c2, r))
            <==> !OrderSensitive(cr.logs.value, r)
  {
    var logs := cr.logs.value;
    if OrderSensitive(logs, r) {
      var t := ResourceStream(r).value;
      var u := if t == Hub then Collector else Hub;
      OrderDecides(base, cr, r, Audit, Audit, Collector, Hub);
      OrderDecides(base, cr, r, t, t, u, Audit);
      WantedDiffers(cr.name, logs, r, t);
    } else {
      forall c1, c2 | Setting(base, cr, c1) && Setting(base, cr, c2) ensures Deliver(c1, r) == Deliver(c2, r) {
        InsensitiveDelivery(base, cr, c1, c2, r);
      }
    }
  }

  lemma InsensitiveDelivery(base: CollectorConfig, cr: MdaiCollector, c1: CollectorConfig, c2: CollectorConfig,
                            r: LogRecord)
    requires Setting(base, cr, c1) && Setting(base, cr, c2)
    requires !OrderSensitive(cr.logs.value, r)
    ensures Deliver(c1, r) == Deliver(c2, r)
  {
    var logs := cr.logs.value;
    if InStream(r, Audit) && SomeSinkWants(logs, Audit) && ResourceStream(r).Some? &&
      SomeSinkWants(logs, ResourceStream(r).value) {
      var t := ResourceStream(r).value;
      DoublyMarkedTakesOneRoute(base, cr, c1, r, t);
      DoublyMarkedTakesOneRoute(base, cr, c2, r, t);
      WantedDiffers(cr.name, logs, r, t);
    } else if exists s :: s != Other && InStream(r, s) && SomeSinkWants(logs, s) {
      var s :| s != Other && InStream(r, s) && SomeSinkWants(logs, s);
      DeliversExactlyWhatIsWanted(base, cr, c1, s, r);
      DeliversExactlyWhatIsWanted(base, cr, c2, s, r);
    } else {
      UnwantedStreamsFallToOther(base, cr, c1, r);
      UnwantedStreamsFallToOther(base, cr, c2, r);
    }
  }

  // ---------- The generated graph is closed ----------

  /** For any logs section, admitted or not: what the router and the generated pipelines refer to is defined. */
  lemma GeneratedGraphIsClosed(base: CollectorConfig, hubName: string, logs: LogsConfig, secret: Option<string>,
                               cfg: CollectorConfig)
    requires SuitableBase(base) && Compiled(base, hubName, logs, secret, cfg)
    ensures forall i, n | 0 <= i < |cfg.table| && n in cfg.table[i].pipelines :: n in cfg.pipelines && !n.BasePipeline?
    ensures forall n | n in cfg.defaultPipelines :: n in cfg.pipelines
    ensures forall n | n in cfg.pipelines && !n.BasePipeline? ::
      && cfg.pipelines[n].receivers == [Router]
      && (forall p | p in cfg.pipelines[n].processors :: p in cfg.processors)
      && (forall e | e in cfg.pipelines[n].exporters :: e in cfg.exporters)
  {
    var order, rt, mid :| CompiledVia(base, hubName, logs, secret, cfg, order, rt, mid);
    forall i, n | 0 <= i < |cfg.table| && n in cfg.table[i].pipelines ensures n in cfg.pipelines && !n.BasePipeline? {
      var s := order[i];
      assert s in rt && s != Other && cfg.table[i] == rt[s];
      assert Routes(rt, s) == RoutesFor(logs, secret, s);
      RoutesDefined(base, hubName, logs, secret, cfg, s, n);
    }
    forall n | n in cfg.defaultPipelines ensures n in cfg.pipelines {
      if RoutesFor(logs, secret, Other) != [] {
        RoutesDefined(base, hubName, logs, secret, cfg, Other, n);
      } else {
        BasePipelineStays(base, hubName, logs, secret, cfg, n);
      }
    }
    forall n | n in cfg.pipelines && !n.BasePipeline?
      ensures cfg.pipelines[n].receivers == [Router]
      ensures forall p | p in cfg.pipelines[n].processors :: p in cfg.processors
      ensures forall e | e in cfg.pipelines[n].exporters :: e in cfg.exporters
    {
      GeneratedPipelineIsClosed(base, hubName, logs, secret, cfg, n);
    }
  }

  lemma BasePipelineStays(base: CollectorConfig, hubName: string, logs: LogsConfig, secret: Option<string>,
                          cfg: CollectorConfig, n: PipelineName)
    requires SuitableBase(base) && Compiled(base, hubName, logs, secret, cfg) && n in base.pipelines
    ensures n in cfg.pipelines && cfg.pipelines[n] == base.pipelines[n]
  {
    var order, rt, mid :| CompiledVia(base, hubName, logs, secret, cfg, order, rt, mid);
    assert n.BasePipeline?;
    assert n in mid && mid[n] == base.pipelines[n];
  }

  lemma RoutesDefined(base: CollectorConfig, hubName: string, logs: LogsConfig, secret: Option<string>,
                      cfg: CollectorConfig, s: LogStream, n: PipelineName)
    requires Compiled(base, hubName, logs, secret, cfg) && n in RoutesFor(logs, secret, s)
    ensures n in cfg.pipelines && !n.BasePipeline?
  {
    var a := if OtlpEmits(logs, s) then [OtlpPipeline(s)] else [];
    var b := if S3Emits(logs, secret, s) then [S3Pipeline(s)] else [];
    assert n in a + b;
    if n in a {
      OtlpLookup(base, hubName, logs, secret, cfg, s);
    } else {
      S3Lookup(base, hubName, logs, secret, cfg, s);
    }
  }

  lemma GeneratedPipelineIsClosed(base: CollectorConfig, hubName: string, logs: LogsConfig, secret: Option<string>,
                                  cfg: CollectorConfig, n: PipelineName)
    requires SuitableBase(base) && Compiled(base, hubName, logs, secret, cfg)
    requires n in cfg.pipelines && !n.BasePipeline?
    ensures cfg.pipelines[n].receivers == [Router]
    ensures forall p | p in cfg.pipelines[n].processors :: p in cfg.processors
    ensures forall e | e in cfg.pipelines[n].exporters :: e in cfg.exporters
  {
    var order, rt, mid :| CompiledVia(base, hubName, logs, secret, cfg, order, rt, mid);
    if s :| S3Emits(logs, secret, s) && n == S3Pipeline(s) {
      ProcessorsDefined(base, MinSeverity(logs.s3.value.streams, s), S3Sink(s), Some(Batch));
    } else {
      assert n in mid;
      assert n !in base.pipelines;
      var s :| OtlpEmits(logs, s) && n == OtlpPipeline(s);
      var batch := if s == Audit then Some(BatchAudit) else None;
      ProcessorsDefined(base, MinSeverity(logs.otlp.value.streams, s), OtlpSink, batch);
    }
  }

  lemma ProcessorsDefined(base: CollectorConfig, min: Option<SeverityLevel>, exporter: ExporterName,
                          batch: Option<ProcessorName>)
    requires SuitableBase(base) && (batch.Some? ==> batch.value in {Batch, BatchAudit})
    ensures forall p | p in PipelineWithExporterAndSeverityFilter(Router, exporter, min, batch).processors ::
      p in base.processors
  {
  }

  // ---------- The embedded base configuration ----------

  const ROUTER_TEXT := "routing/logstream"
  const COUNT_TEXT := "count/severity_counts"

  const BASE_EXPORTERS: map<ExporterName, Exporter> :=
    map[BaseExporter("debug") := OtherExporter("debug"), BaseExporter("debug/audit") := OtherExporter("debug/audit"),
        BaseExporter("debug/hub") := OtherExporter("debug/hub"),
        BaseExporter("debug/collector") := OtherExporter("debug/collector"),
        BaseExporter("debug/verbose") := OtherExporter("debug/verbose"),
        BaseExporter("prometheus") := OtherExporter("prometheus")]

  /** The base's resource processors relabel records but never drop one. */
  const BASE_PROCESSORS: map<ProcessorName, Processor> :=
    map[BaseProcessor("deltatocumulative") := Passthrough, Batch := Passthrough, BatchAudit := Passthrough,
        MinSeverityFilter(DEBUG) := SeverityFilter(5), MinSeverityFilter(INFO) := SeverityFilter(9),
        MinSeverityFilter(WARN) := SeverityFilter(13), MinSeverityFilter(ERROR) := SeverityFilter(17),
        BaseProcessor("resource/k8slogstream") := Passthrough, BaseProcessor("resource/hub-to-audit") := Passthrough]

  const BASE_PIPELINES: map<PipelineName, Pipeline> :=
    map[BasePipeline("logs/k8s_events") :=
        Pipeline([BaseReceiver("k8s_events")], [BaseProcessor("resource/k8slogstream")],
                                                    [BaseExporter(ROUTER_TEXT), BaseExporter(COUNT_TEXT)]),
        BasePipeline("logs/input") :=
          Pipeline([BaseReceiver("otlp")], [], [BaseExporter(ROUTER_TEXT), BaseExporter(COUNT_TEXT)]),
        BasePipeline("logs/debug_audit") :=
          Pipeline([Router], [BaseProcessor("resource/hub-to-audit"), BatchAudit], [BaseExporter("debug/audit")]),
        BasePipeline("logs/debug_hub") := Pipeline([Router], [Batch], [BaseExporter("debug/hub")]),
        BasePipeline("logs/debug_collector") := Pipeline([Router], [Batch], [BaseExporter("debug/collector")]),
        BasePipeline("logs/debug_other") := Pipeline([Router], [Batch], [BaseExporter("debug")]),
        BasePipeline("metrics/log_counts") :=
          Pipeline([BaseReceiver(COUNT_TEXT)], [BaseProcessor("deltatocumulative")], [BaseExporter("prometheus")])]

  const BASE_CONFIG := CollectorConfig(BASE_EXPORTERS, BASE_PROCESSORS, BASE_PIPELINES,
    [RoutingEntry(LogContext, LogstreamIs(Audit), [BasePipeline("logs/debug_audit")]),
     RoutingEntry(ResourceContext, LogstreamIs(Collector), [BasePipeline("logs/debug_collector")]),
     RoutingEntry(ResourceContext, LogstreamIs(Hub), [BasePipeline("logs/debug_hub")])],
    [BasePipeline("logs/debug_other")])

  lemma EmbeddedFilters(level: SeverityLevel)
    requires ValidSeverity(level)
    ensures MinSeverityFilter(level) in BASE_PROCESSORS
    ensures BASE_PROCESSORS[MinSeverityFilter(level)] == SeverityFilter(SeverityNumber(level))
  {
  }

  lemma EmbeddedPipelines(n: PipelineName)
    requires n in BASE_PIPELINES
    ensures n.BasePipeline? && forall e | e in BASE_PIPELINES[n].exporters :: e.BaseExporter?
  {
  }

  lemma EmbeddedBaseIsSuitable()
    ensures SuitableBase(BASE_CONFIG)
  {
    forall level | ValidSeverity(level)
      ensures MinSeverityFilter(level) in BASE_PROCESSORS
      ensures BASE_PROCESSORS[MinSeverityFilter(level)] == SeverityFilter(SeverityNumber(level))
    {
      EmbeddedFilters(level);
    }
    forall n | n in BASE_PIPELINES
      ensures n.BasePipeline? && forall e | e in BASE_PIPELINES[n].exporters :: e.BaseExporter? {
      EmbeddedPipelines(n);
    }
  }

  /** No name of the base is written like a generated one, so the compiler overwrites nothing of it. */
  lemma EmbeddedNamesDoNotClash()
    ensures forall n, m: PipelineName | n in BASE_PIPELINES && !m.BasePipeline? :: PipelineText(n) != PipelineText(m)
    ensures forall e, f: ExporterName | e in BASE_EXPORTERS && !f.BaseExporter? :: ExporterText(e) != ExporterText(f)
  {
    forall n, m: PipelineName | n in BASE_PIPELINES && !m.BasePipeline? ensures PipelineText(n) != PipelineText(m) {
      assert |n.text| > 5 && n.text[5] != 'o' && n.text[5] != 's';
      assert PipelineText(m)[5] == if m.OtlpPipeline? then 'o' else 's';
    }
    forall e, f: ExporterName | e in BASE_EXPORTERS && !f.BaseExporter? ensures ExporterText(e) != ExporterText(f) {
      assert |e.text| > 0 && e.text[0] != 'o' && e.text[0] != 'a';
      assert ExporterText(f)[0] == if f.OtlpSink? then 'o' else 'a';
    }
  }

  // ---------- Compiler and meaning together ----------

  /** Compiling an admitted resource over the embedded base yields a configuration with the
      delivery the resource asks for. */
  method CompileAdmitted(cr: MdaiCollector) returns (cfg: CollectorConfig)
    requires Validate(cr).None? && cr.logs.Some?
    ensures forall s ::
      && (cr.logs.value.otlp.Some? ==> SeverityAccepted(cr.logs.value.otlp.value.streams, s))
      && (cr.logs.value.s3.Some? ==> SeverityAccepted(cr.logs.value.s3.value.streams, s))
    ensures forall r, s | InStream(r, s) && SomeSinkWants(cr.logs.value, s)
                          && (forall t | t != s && InStream(r, t) :: !SomeSinkWants(cr.logs.value, t)) ::
      Deliver(cfg, r) == Wanted(cr.name, cr.logs.value, s, r)
  {
    cfg := GetMdaiCollectorConfig(BASE_CONFIG, cr.name, cr.logs, AwsAccessKeySecret(cr));
    EmbeddedBaseIsSuitable();
    forall s
      ensures cr.logs.value.otlp.Some? ==> SeverityAccepted(cr.logs.value.otlp.value.streams, s)
      ensures cr.logs.value.s3.Some? ==> SeverityAccepted(cr.logs.value.s3.value.streams, s)
    {
      AdmittedMeansActive(cr, s);
    }
    forall r, s | InStream(r, s) && SomeSinkWants(cr.logs.value, s)
                  && (forall t | t != s && InStream(r, t) :: !SomeSinkWants(cr.logs.value, t))
      ensures Deliver(cfg, r) == Wanted(cr.name, cr.logs.value, s, r)
    {
      DeliversExactlyWhatIsWanted(BASE_CONFIG, cr, cfg, s, r);
    }
  }

  lemma ExampleIsAdmitted(logs: LogsConfig)
    requires logs == LogsConfig(Some(S3LogsConfig(SinkStreams(None, None, None, None), "us-east-1", "logs")), None)
    ensures Validate(MdaiCollector("hub", Some(AWSConfig(Some("secret"))), Some(logs))).None?
    ensures OrderSensitive(logs, LogRecord(Some("hub"), Some("audit"), 9))
  {
  }

  /** An admitted resource and a record, of the kind the hub itself emits for audit events, whose
      destination depends on the order of the map walk. */
  lemma OrderShowsForHubAuditRecords(base: CollectorConfig)
    returns (cr: MdaiCollector, r: LogRecord, c1: CollectorConfig, c2: CollectorConfig)
    requires SuitableBase(base)
    ensures Setting(base, cr, c1) && Setting(base, cr, c2)
    ensures r.recordStream == Some("audit") && r.resourceStream == Some("hub")
    ensures Deliver(c1, r) != Deliver(c2, r)
  {
    var logs := LogsConfig(Some(S3LogsConfig(SinkStreams(None, None, None, None), "us-east-1", "logs")), None);
    cr := MdaiCollector("hub", Some(AWSConfig(Some("secret"))), Some(logs));
    r := LogRecord(Some("hub"), Some("audit"), 9);
    ExampleIsAdmitted(logs);
    TableOrderShowsExactly(base, cr, r);
    c1, c2 :| Setting(base, cr, c1) && Setting(base, cr, c2) && Deliver(c1, r) != Deliver(c2, r);
  }
}
