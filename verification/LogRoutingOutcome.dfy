/** What a compilation amounts to in the fields of the resource: which pipelines and exporters there are,
    what they hold, and where a record is written to. */
module LogRoutingOutcome {
  import opened Wrappers
  import opened LogRoutingConfig
  import opened LogRoutingCompiler
  import opened LogRoutingCorrect

  // ---------- Admission ----------

  predicate IsNameChar(c: char) { 97 <= c as int <= 122 || 48 <= c as int <= 57 }

  /** A minimum that is given is one of the four known levels. */
  predicate MinimumKnown(c: Option<LogstreamConfig>) {
    c.Some? && c.value.minSeverity.Some? ==> c.value.minSeverity.value in {"debug", "info", "warn", "error"}
  }

  /** The resource is admitted exactly if its name has one to 32 lower-case letters, digits and hyphens, and no
      hyphen at either end; S3, if set, has credentials with a secret, a bucket and a region; OTLP, if set, has
      an endpoint; and every minimum severity is a known one. */
  lemma AdmittedIff(cr: MdaiCollector)
    ensures Validate(cr).None? <==>
      && 1 <= |cr.name| <= 32 && IsNameChar(cr.name[0]) && IsNameChar(cr.name[|cr.name| - 1])
      && (forall i | 0 <= i < |cr.name| :: IsNameChar(cr.name[i]) || cr.name[i] == '-')
      && (cr.logs.Some? && cr.logs.value.s3.Some? ==>
            && cr.aws.Some? && cr.aws.value.accessKeySecret.Some?
            && cr.logs.value.s3.value.s3Bucket != "" && cr.logs.value.s3.value.s3Region != ""
            && var streams := cr.logs.value.s3.value.streams;
            && MinimumKnown(streams.collectorLogs) && MinimumKnown(streams.hubLogs) && MinimumKnown(streams.otherLogs))
      && (cr.logs.Some? && cr.logs.value.otlp.Some? ==>
            && cr.logs.value.otlp.value.endpoint != ""
            && var streams := cr.logs.value.otlp.value.streams;
            && MinimumKnown(streams.collectorLogs) && MinimumKnown(streams.hubLogs) && MinimumKnown(streams.otherLogs))
  {
    assert forall c :: IsLowerAlphanumeric(c) <==> IsNameChar(c);
    assert ValidName(cr.name) <==>
      && 1 <= |cr.name| <= 32 && IsNameChar(cr.name[0]) && IsNameChar(cr.name[|cr.name| - 1])
      && (forall i | 0 <= i < |cr.name| :: IsNameChar(cr.name[i]) || cr.name[i] == '-');
    if cr.logs.Some? {
      if cr.logs.value.s3.Some? { MinimaKnown(cr.logs.value.s3.value.streams); }
      if cr.logs.value.otlp.Some? { MinimaKnown(cr.logs.value.otlp.value.streams); }
    }
  }

  lemma MinimaKnown(streams: SinkStreams)
    ensures ValidateSeverities(streams).None? <==>
      MinimumKnown(streams.collectorLogs) && MinimumKnown(streams.hubLogs) && MinimumKnown(streams.otherLogs)
  {
  }

  /** What is said of a resource that is not admitted: the first thing that is wrong, in this order. */
  lemma RejectedFor(cr: MdaiCollector)
    ensures Validate(cr) == Some(BadName) <==> !ValidName(cr.name)
    ensures ValidName(cr.name) && cr.logs.Some? && cr.logs.value.s3.Some? ==>
      var s3, aws, reason := cr.logs.value.s3.value, cr.aws, Validate(cr);
      && (reason == Some(S3WithoutAws) <==> aws.None?)
      && (reason == Some(S3WithoutBucket) <==> aws.Some? && s3.s3Bucket == "")
      && (reason == Some(S3WithoutRegion) <==> aws.Some? && s3.s3Bucket != "" && s3.s3Region == "")
      && (reason == Some(S3WithoutSecret) <==>
            aws == Some(AWSConfig(None)) && s3.s3Bucket != "" && s3.s3Region != "" &&
              ValidateSeverities(s3.streams).None?)
    ensures ValidName(cr.name) && cr.logs.Some? && cr.logs.value.s3.None? && cr.logs.value.otlp.Some? ==>
      (Validate(cr) == Some(OtlpWithoutEndpoint) <==> cr.logs.value.otlp.value.endpoint == "")
    ensures forall streams ::
      && (ValidateSeverities(streams) == Some(BadSeverity(Collector)) <==> !MinimumKnown(streams.collectorLogs))
      && (ValidateSeverities(streams) == Some(BadSeverity(Hub)) <==>
            MinimumKnown(streams.collectorLogs) && !MinimumKnown(streams.hubLogs))
      && (ValidateSeverities(streams) == Some(BadSeverity(Other)) <==>
            MinimumKnown(streams.collectorLogs) && MinimumKnown(streams.hubLogs) && !MinimumKnown(streams.otherLogs))
  {
  }

  // ---------- Names ----------

  /** How the generated names are written. */
  lemma GeneratedTexts()
    ensures PipelineText(OtlpPipeline(Audit)) == "logs/otlp_audit" && PipelineText(S3Pipeline(Audit)) == "logs/s3_audit"
    ensures PipelineText(OtlpPipeline(Collector)) == "logs/otlp_collector"
    ensures PipelineText(S3Pipeline(Collector)) == "logs/s3_collector"
    ensures PipelineText(OtlpPipeline(Hub)) == "logs/otlp_hub" && PipelineText(S3Pipeline(Hub)) == "logs/s3_hub"
    ensures PipelineText(OtlpPipeline(Other)) == "logs/otlp_other" && PipelineText(S3Pipeline(Other)) == "logs/s3_other"
    ensures ExporterText(OtlpSink) == "otlp" && ExporterText(S3Sink(Audit)) == "awss3/audit"
    ensures ExporterText(S3Sink(Collector)) == "awss3/collector" && ExporterText(S3Sink(Hub)) == "awss3/hub"
    ensures ExporterText(S3Sink(Other)) == "awss3/other"
  {
  }

  // ---------- Streams ----------

  /** A stream is on and has no minimum unless its own setting says otherwise; no setting has to do with
      another stream, and audit's has no minimum. */
  lemma StreamSettings(streams: SinkStreams, audit: Option<AuditLogstreamConfig>, c: Option<LogstreamConfig>,
                       s: LogStream)
    ensures var on := c.None? || !c.value.disabled;
      && (StreamOn(streams.(auditLogs := audit), s) <==>
          if s == Audit then audit != Some(AuditLogstreamConfig(true)) else StreamOn(streams, s))
      && (StreamOn(streams.(collectorLogs := c), s) <==> if s == Collector then on else StreamOn(streams, s))
      && (StreamOn(streams.(hubLogs := c), s) <==> if s == Hub then on else StreamOn(streams, s))
      && (StreamOn(streams.(otherLogs := c), s) <==> if s == Other then on else StreamOn(streams, s))
    ensures var min := if c.Some? then c.value.minSeverity else None;
      && MinSeverity(streams.(auditLogs := audit), s) == MinSeverity(streams, s)
      && MinSeverity(streams.(collectorLogs := c), s) == (if s == Collector then min else MinSeverity(streams, s))
      && MinSeverity(streams.(hubLogs := c), s) == (if s == Hub then min else MinSeverity(streams, s))
      && MinSeverity(streams.(otherLogs := c), s) == (if s == Other then min else MinSeverity(streams, s))
    ensures MinSeverity(streams, Audit) == None
  {
  }

  // ---------- What is generated ----------

  ghost predicate OnlyBaseNames(base: CollectorConfig) {
    && (forall n | n in base.pipelines :: n.BasePipeline?)
    && (forall e | e in base.exporters :: e.BaseExporter?)
  }

  /** A sink takes part if it is set and has what it needs: an endpoint, or a secret. Then, and only then,
      there is its pipeline for each stream that is on, and its exporter. */
  lemma GeneratedExactly(base: CollectorConfig, hubName: string, logs: LogsConfig, secret: Option<string>,
                         cfg: CollectorConfig, s: LogStream)
    requires Compiled(base, hubName, logs, secret, cfg) && OnlyBaseNames(base)
    ensures OtlpSink in cfg.exporters <==> logs.otlp.Some? && logs.otlp.value.endpoint != ""
    ensures OtlpPipeline(s) in cfg.pipelines <==>
      logs.otlp.Some? && logs.otlp.value.endpoint != "" && StreamOn(logs.otlp.value.streams, s)
    ensures S3Pipeline(s) in cfg.pipelines <==> secret.Some? && logs.s3.Some? && StreamOn(logs.s3.value.streams, s)
    ensures S3Sink(s) in cfg.exporters <==> S3Pipeline(s) in cfg.pipelines
  {
    OtlpGeneratedExactly(base, hubName, logs, secret, cfg, s);
    S3GeneratedExactly(base, hubName, logs, secret, cfg, s);
  }

  lemma OtlpGeneratedExactly(base: CollectorConfig, hubName: string, logs: LogsConfig, secret: Option<string>,
                             cfg: CollectorConfig, s: LogStream)
    requires Compiled(base, hubName, logs, secret, cfg) && OnlyBaseNames(base)
    ensures OtlpSink in cfg.exporters <==> OtlpActive(logs)
    ensures OtlpPipeline(s) in cfg.pipelines <==> OtlpEmits(logs, s)
  {
    hide OtlpActive, S3Emits, OtlpEmits, RoutesEveryStream, Walk, OtlpPipelineOf, S3PipelineOf, S3Destination;
    var order, rt, mid :| CompiledVia(base, hubName, logs, secret, cfg, order, rt, mid);
    assert OtlpPipeline(s) in cfg.pipelines <==> OtlpPipeline(s) in mid;
    assert OtlpSink in cfg.exporters <==> OtlpSink in OtlpExporters(base.exporters, logs);
  }

  lemma S3GeneratedExactly(base: CollectorConfig, hubName: string, logs: LogsConfig, secret: Option<string>,
                           cfg: CollectorConfig, s: LogStream)
    requires Compiled(base, hubName, logs, secret, cfg) && OnlyBaseNames(base)
    ensures S3Pipeline(s) in cfg.pipelines <==> S3Emits(logs, secret, s)
    ensures S3Sink(s) in cfg.exporters <==> S3Emits(logs, secret, s)
  {
    hide OtlpActive, S3Emits, OtlpEmits, RoutesEveryStream, Walk, OtlpPipelineOf, S3PipelineOf, S3Destination;
    var order, rt, mid :| CompiledVia(base, hubName, logs, secret, cfg, order, rt, mid);
    assert S3Pipeline(s) !in base.pipelines && S3Pipeline(s) !in mid;
  }

  /** A generated pipeline reads the router, writes to its sink's exporter, has the filter of its stream's
      minimum if that is a known level, and the batch processor that goes with it, but nothing else. */
  lemma GeneratedPipelines(base: CollectorConfig, hubName: string, logs: LogsConfig, secret: Option<string>,
                           cfg: CollectorConfig, s: LogStream)
    requires Compiled(base, hubName, logs, secret, cfg)
    ensures OtlpEmits(logs, s) ==>
      && OtlpPipeline(s) in cfg.pipelines
      && var p := cfg.pipelines[OtlpPipeline(s)];
      && p.receivers == [Router] && p.exporters == [OtlpSink]
      && p.processors == FilterFor(MinSeverity(logs.otlp.value.streams, s)) + (if s == Audit then [BatchAudit] else [])
    ensures S3Emits(logs, secret, s) ==>
      && S3Pipeline(s) in cfg.pipelines
      && var p := cfg.pipelines[S3Pipeline(s)];
      && p.receivers == [Router] && p.exporters == [S3Sink(s)]
      && p.processors == FilterFor(MinSeverity(logs.s3.value.streams, s)) + [Batch]
  {
    hide Compiled;
    if OtlpEmits(logs, s) {
      OtlpLookup(base, hubName, logs, secret, cfg, s);
      PipelineParts(OtlpSink, MinSeverity(logs.otlp.value.streams, s), if s == Audit then Some(BatchAudit) else None);
    }
    if S3Emits(logs, secret, s) {
      S3Lookup(base, hubName, logs, secret, cfg, s);
      PipelineParts(S3Sink(s), MinSeverity(logs.s3.value.streams, s), Some(Batch));
    }
  }

  lemma PipelineParts(exporter: ExporterName, min: Option<SeverityLevel>, batch: Option<ProcessorName>)
    ensures PipelineWithExporterAndSeverityFilter(Router, exporter, min, batch) ==
      Pipeline([Router], FilterFor(min) + (if batch.Some? then [batch.value] else []), [exporter])
  {
  }

  function FilterFor(min: Option<SeverityLevel>): seq<ProcessorName> {
    match min
    case Some(level) =>
      if level in {"debug", "info", "warn", "error"} then [MinSeverityFilter(level)] else []
    case None => []
  }

  /** An S3 exporter writes to the section's region and bucket, under a prefix and a file prefix of its
      own stream, by the hour; the OTLP exporter sends to the section's endpoint. */
  lemma GeneratedExporters(base: CollectorConfig, hubName: string, logs: LogsConfig, secret: Option<string>,
                           cfg: CollectorConfig, s: LogStream)
    requires Compiled(base, hubName, logs, secret, cfg)
    ensures S3Emits(logs, secret, s) ==>
      && S3Sink(s) in cfg.exporters && cfg.exporters[S3Sink(s)].S3Exporter?
      && var e := cfg.exporters[S3Sink(s)];
      && e.region == logs.s3.value.s3Region && e.bucket == logs.s3.value.s3Bucket
      && e.prefix == hubName + "-" + StreamName(s) + "-logs" && e.filePrefix == StreamName(s) + "-"
      && e.partitionFormat == "%Y/%m/%d/%H" && e.disableSSL
    ensures OtlpEmits(logs, s) ==>
      OtlpSink in cfg.exporters && cfg.exporters[OtlpSink] == OtlpExporter(logs.otlp.value.endpoint, true)
  {
    if OtlpEmits(logs, s) { OtlpLookup(base, hubName, logs, secret, cfg, s); }
    if S3Emits(logs, secret, s) { S3Lookup(base, hubName, logs, secret, cfg, s); }
  }

  /** No two collectors, and no two streams of one, write under the same prefix. */
  lemma PrefixesAreEqualIff(m: string, s: LogStream, n: string, t: LogStream)
    ensures m + "-" + StreamName(s) + "-logs" == n + "-" + StreamName(t) + "-logs" <==> m == n && s == t
  {
    var x, y := m + "-" + StreamName(s) + "-logs", n + "-" + StreamName(t) + "-logs";
    if x == y {
      StreamEndsDiffer(s, t, x);
      assert x[..|m|] == m && y[..|n|] == n;
    }
  }

  lemma StreamEndsDiffer(s: LogStream, t: LogStream, x: string)
    requires |x| >= |StreamName(s)| + 5 && x[|x| - 5 - |StreamName(s)|..|x| - 5] == StreamName(s)
    requires |x| >= |StreamName(t)| + 5 && x[|x| - 5 - |StreamName(t)|..|x| - 5] == StreamName(t)
    ensures s == t
  {
    var k := |x| - 6;
    forall u | u == s || u == t
      ensures x[k] == StreamName(u)[|StreamName(u)| - 1] && x[k - 2] == StreamName(u)[|StreamName(u)| - 3]
    {
      assert x[k] == x[|x| - 5 - |StreamName(u)|..|x| - 5][|StreamName(u)| - 1];
      assert x[k - 2] == x[|x| - 5 - |StreamName(u)|..|x| - 5][|StreamName(u)| - 3];
    }
  }

  // ---------- Where a record is written to ----------

  /** A pipeline hands a record to all its exporters, one after the other. */
  lemma {:induction false} ResolveIs(exporters: map<ExporterName, Exporter>, names: seq<ExporterName>)
    requires forall e | e in names :: e in exporters
    ensures |Resolve(exporters, names)| == |names|
    ensures forall i | 0 <= i < |names| :: Resolve(exporters, names)[i] == exporters[names[i]]
  {
    if names != [] {
      assert names[0] in names && forall e | e in names[1..] :: e in names;
      ResolveIs(exporters, names[1..]);
    }
  }

  /** For an admitted resource, a record in exactly one wanted stream is sent to the endpoint once, if OTLP
      is set, the stream is on there and the record is not below the minimum; and written once to the
      bucket under the stream's own prefixes, if the same holds of S3. */
  lemma WrittenExactly(base: CollectorConfig, cr: MdaiCollector, cfg: CollectorConfig, s: LogStream, r: LogRecord)
    requires Setting(base, cr, cfg)
    requires InStream(r, s) && SomeSinkWants(cr.logs.value, s)
    requires forall t | t != s && InStream(r, t) :: !SomeSinkWants(cr.logs.value, t)
    ensures var logs := cr.logs.value;
      Deliver(cfg, r) ==
        (if logs.otlp.Some? && StreamOn(logs.otlp.value.streams, s) &&
         NotBelow(MinSeverity(logs.otlp.value.streams, s), r)
         then [OtlpExporter(logs.otlp.value.endpoint, true)] else [])
        + (if logs.s3.Some? && StreamOn(logs.s3.value.streams, s) && NotBelow(MinSeverity(logs.s3.value.streams, s), r)
           then [S3Exporter(logs.s3.value.s3Region, logs.s3.value.s3Bucket, cr.name + "-" + StreamName(s) + "-logs",
                            StreamName(s) + "-", "%Y/%m/%d/%H", true)]
           else [])
  {
    hide Compiled, SuitableBase, Deliver, InStream;
    var logs := cr.logs.value;
    DeliversExactlyWhatIsWanted(base, cr, cfg, s, r);
    if logs.otlp.Some? { AdmitsIff(MinSeverity(logs.otlp.value.streams, s), r); }
    if logs.s3.Some? { AdmitsIff(MinSeverity(logs.s3.value.streams, s), r); }
  }

  lemma AdmitsIff(min: Option<SeverityLevel>, r: LogRecord)
    requires min.Some? ==> ValidSeverity(min.value)
    ensures Admits(min, r) <==> NotBelow(min, r)
  {
  }

  /** An audit record, or one that reaches the minimum's number. */
  predicate NotBelow(min: Option<SeverityLevel>, r: LogRecord) {
    r.recordStream != Some("audit") ==>
      && (min == Some("debug") ==> r.severityNumber >= 5)
      && (min == Some("info") ==> r.severityNumber >= 9)
      && (min == Some("warn") ==> r.severityNumber >= 13)
      && (min == Some("error") ==> r.severityNumber >= 17)
  }

  /** Over the embedded base, records that no sink is to get are shown by the debug exporter. */
  lemma UnwantedAreShown(cr: MdaiCollector, cfg: CollectorConfig, r: LogRecord)
    requires Setting(BASE_CONFIG, cr, cfg)
    requires forall s :: !SomeSinkWants(cr.logs.value, s)
    ensures Deliver(cfg, r) == [OtherExporter("debug")]
  {
    UnwantedStreamsFallToOther(BASE_CONFIG, cr, cfg, r);
    EmbeddedDefaults(r);
  }

  lemma EmbeddedDefaults(r: LogRecord)
    ensures RunPipelines(BASE_CONFIG, BASE_CONFIG.defaultPipelines, r) == [OtherExporter("debug")]
  {
    var name, e := BasePipeline("logs/debug_other"), BaseExporter("debug");
    assert name in BASE_PIPELINES && e in BASE_EXPORTERS && Batch in BASE_PROCESSORS;
    RunSingle(BASE_CONFIG, name, e, r);
    assert [name][1..] == [];
  }

  /** The embedded base itself shows a record by the exporter of its stream, audit first. */
  lemma EmbeddedBaseShows(r: LogRecord)
    ensures Deliver(BASE_CONFIG, r) ==
      [OtherExporter(if r.recordStream == Some("audit") then "debug/audit"
                     else if r.resourceStream == Some("collector") then "debug/collector"
                     else if r.resourceStream == Some("hub") then "debug/hub"
                     else "debug")]
  {
    var k := if r.recordStream == Some("audit") then 0
             else if r.resourceStream == Some("collector") then 1
             else if r.resourceStream == Some("hub") then 2 else 3;
    RouteFollowsFirstMatch(BASE_CONFIG.table, BASE_CONFIG.defaultPipelines, r, k);
    match k {
      case 0 => EmbeddedShows("logs/debug_audit", "debug/audit", r);
      case 1 => EmbeddedShows("logs/debug_collector", "debug/collector", r);
      case 2 => EmbeddedShows("logs/debug_hub", "debug/hub", r);
      case _ => EmbeddedDefaults(r);
    }
  }

  lemma EmbeddedShows(name: string, exporter: string, r: LogRecord)
    requires (name, exporter) in {("logs/debug_audit", "debug/audit"), ("logs/debug_collector", "debug/collector"),
                                  ("logs/debug_hub", "debug/hub")}
    ensures RunPipelines(BASE_CONFIG, [BasePipeline(name)], r) == [OtherExporter(exporter)]
  {
    var n, e := BasePipeline(name), BaseExporter(exporter);
    assert n in BASE_PIPELINES && e in BASE_EXPORTERS && Batch in BASE_PROCESSORS && BatchAudit in BASE_PROCESSORS;
    RunSingle(BASE_CONFIG, n, e, r);
    assert [n][1..] == [];
  }
}
