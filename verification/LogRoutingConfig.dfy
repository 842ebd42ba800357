/** The two ends of the log-routing compiler: the declarative logs section of an MdaiCollector
    (api/v1/mdaicollector_types.go, with its admission webhook), and the collector configuration
    it is compiled to, with the meaning of both. */
module LogRoutingConfig {
  import opened Wrappers

  // ---------- The declarative side ----------

  datatype LogStream = Audit | Collector | Hub | Other

  function StreamName(s: LogStream): string {
    match s
    case Audit => "audit"
    case Collector => "collector"
    case Hub => "hub"
    case Other => "other"
  }

  /** A severity level is free text in the API; only the webhook restricts it. */
  type SeverityLevel = string

  const DEBUG: SeverityLevel := "debug"
  const INFO: SeverityLevel := "info"
  const WARN: SeverityLevel := "warn"
  const ERROR: SeverityLevel := "error"

  predicate ValidSeverity(level: SeverityLevel) {
    level == DEBUG || level == INFO || level == WARN || level == ERROR
  }

  datatype AuditLogstreamConfig = AuditLogstreamConfig(disabled: bool)

  datatype LogstreamConfig = LogstreamConfig(minSeverity: Option<SeverityLevel>, disabled: bool)

  /** The four per-stream settings that the S3 and the OTLP section both carry. */
  datatype SinkStreams = SinkStreams(
    auditLogs: Option<AuditLogstreamConfig>,
    collectorLogs: Option<LogstreamConfig>,
    hubLogs: Option<LogstreamConfig>,
    otherLogs: Option<LogstreamConfig>)

  datatype S3LogsConfig = S3LogsConfig(streams: SinkStreams, s3Region: string, s3Bucket: string)

  datatype OtlpLogsConfig = OtlpLogsConfig(streams: SinkStreams, endpoint: string)

  datatype LogsConfig = LogsConfig(s3: Option<S3LogsConfig>, otlp: Option<OtlpLogsConfig>)

  datatype AWSConfig = AWSConfig(accessKeySecret: Option<string>)

  datatype MdaiCollector = MdaiCollector(name: string, aws: Option<AWSConfig>, logs: Option<LogsConfig>)

  /** The setting of one non-audit stream. */
  function StreamConfig(streams: SinkStreams, s: LogStream): Option<LogstreamConfig>
    requires s != Audit
  {
    match s
    case Collector => streams.collectorLogs
    case Hub => streams.hubLogs
    case Other => streams.otherLogs
  }

  /** A stream is on unless it is explicitly disabled. */
  predicate StreamOn(streams: SinkStreams, s: LogStream) {
    match s
    case Audit => streams.auditLogs.None? || !streams.auditLogs.value.disabled
    case _ =>
      var c := StreamConfig(streams, s);
      c.None? || !c.value.disabled
  }

  /** The minimum severity asked for; audit never has one. */
  function MinSeverity(streams: SinkStreams, s: LogStream): Option<SeverityLevel> {
    match s
    case Audit => None
    case _ =>
      var c := StreamConfig(streams, s);
      if c.Some? then c.value.minSeverity else None
  }

  // ---------- Admission ----------

  datatype Rejection =
    | BadName
    | S3WithoutAws
    | S3WithoutBucket
    | S3WithoutRegion
    | BadSeverity(stream: LogStream)
    | S3WithoutSecret
    | OtlpWithoutEndpoint

  predicate IsLowerAlphanumeric(c: char) {
    'a' <= c <= 'z' || '0' <= c <= '9'
  }

  /** One to 32 characters from [a-z0-9-], starting and ending with a letter or a digit. */
  predicate ValidName(name: string) {
    && 1 <= |name| <= 32
    && IsLowerAlphanumeric(name[0])
    && IsLowerAlphanumeric(name[|name| - 1])
    && forall i | 0 <= i < |name| :: IsLowerAlphanumeric(name[i]) || name[i] == '-'
  }

  predicate SeverityAccepted(streams: SinkStreams, s: LogStream) {
    var min := MinSeverity(streams, s);
    min.Some? ==> ValidSeverity(min.value)
  }

  function ValidateSeverities(streams: SinkStreams): Option<Rejection> {
    if !SeverityAccepted(streams, Collector) then Some(BadSeverity(Collector))
    else if !SeverityAccepted(streams, Hub) then Some(BadSeverity(Hub))
    else if !SeverityAccepted(streams, Other) then Some(BadSeverity(Other))
    else None
  }

  function ValidateS3LogsConfig(s3: Option<S3LogsConfig>, aws: Option<AWSConfig>): Option<Rejection> {
    if s3.None? then None
    else if aws.None? then Some(S3WithoutAws)
    else if s3.value.s3Bucket == "" then Some(S3WithoutBucket)
    else if s3.value.s3Region == "" then Some(S3WithoutRegion)
    else if ValidateSeverities(s3.value.streams).Some? then ValidateSeverities(s3.value.streams)
    else if aws.value.accessKeySecret.None? then Some(S3WithoutSecret)
    else None
  }

  function ValidateOtlpLogsConfig(otlp: Option<OtlpLogsConfig>): Option<Rejection> {
    if otlp.None? then None
    else if otlp.value.endpoint == "" then Some(OtlpWithoutEndpoint)
    else ValidateSeverities(otlp.value.streams)
  }

  /** The webhook: the first complaint, or None when the resource is admitted. */
  function Validate(cr: MdaiCollector): Option<Rejection> {
    if !ValidName(cr.name) then Some(BadName)
    else if cr.logs.None? then None
    else
      var s3 := ValidateS3LogsConfig(cr.logs.value.s3, cr.aws);
      if s3.Some? then s3 else ValidateOtlpLogsConfig(cr.logs.value.otlp)
  }

  /** The secret the controller passes to the compiler. */
  function AwsAccessKeySecret(cr: MdaiCollector): Option<string> {
    if cr.aws.Some? then cr.aws.value.accessKeySecret else None
  }

  // ---------- The compiled side ----------

  datatype Exporter =
    | OtlpExporter(endpoint: string, insecure: bool)
    | S3Exporter(region: string, bucket: string, prefix: string, filePrefix: string,
                 partitionFormat: string, disableSSL: bool)
    | OtherExporter(kind: string)

  datatype Processor = SeverityFilter(minNumber: int) | Passthrough

  /** Component names: those the compiler makes up, and those of the base configuration. */
  datatype PipelineName = OtlpPipeline(stream: LogStream) | S3Pipeline(stream: LogStream) | BasePipeline(text: string)

  datatype ExporterName = OtlpSink | S3Sink(stream: LogStream) | BaseExporter(text: string)

  datatype ProcessorName = MinSeverityFilter(level: SeverityLevel) | Batch | BatchAudit | BaseProcessor(text: string)

  datatype ReceiverName = Router | BaseReceiver(text: string)

  datatype Pipeline = Pipeline(receivers: seq<ReceiverName>, processors: seq<ProcessorName>,
                               exporters: seq<ExporterName>)

  /** Which attribute set a routing condition reads. */
  datatype RoutingContext = ResourceContext | LogContext

  /** The condition that the attribute `mdai-logstream` is the stream's name. */
  datatype Condition = LogstreamIs(stream: LogStream)

  datatype RoutingEntry = RoutingEntry(context: RoutingContext, condition: Condition, pipelines: seq<PipelineName>)

  /** The parts of a collector configuration that routing depends on. */
  datatype CollectorConfig = CollectorConfig(
    exporters: map<ExporterName, Exporter>,
    processors: map<ProcessorName, Processor>,
    pipelines: map<PipelineName, Pipeline>,
    table: seq<RoutingEntry>,
    defaultPipelines: seq<PipelineName>)

  /** The names as they are written into the configuration. */
  function PipelineText(n: PipelineName): string {
    match n
    case OtlpPipeline(s) => "logs/otlp_" + StreamName(s)
    case S3Pipeline(s) => "logs/s3_" + StreamName(s)
    case BasePipeline(text) => text
  }

  function ExporterText(n: ExporterName): string {
    match n
    case OtlpSink => "otlp"
    case S3Sink(s) => "awss3/" + StreamName(s)
    case BaseExporter(text) => text
  }

  lemma StreamNamesDiffer(s: LogStream, t: LogStream)
    requires s != t
    ensures StreamName(s) != StreamName(t)
  {
    assert "audit"[0] != "other"[0];
  }

  /** Different generated names are written differently, so keying by name is keying by text. */
  lemma PipelineTextIsInjective(m: PipelineName, n: PipelineName)
    requires m != n && !m.BasePipeline? && !n.BasePipeline?
    ensures PipelineText(m) != PipelineText(n)
  {
    var a, b := PipelineText(m), PipelineText(n);
    if m.OtlpPipeline? && n.OtlpPipeline? {
      StreamNamesDiffer(m.stream, n.stream);
      assert a[|"logs/otlp_"|..] == StreamName(m.stream) && b[|"logs/otlp_"|..] == StreamName(n.stream);
    } else if m.S3Pipeline? && n.S3Pipeline? {
      StreamNamesDiffer(m.stream, n.stream);
      assert a[|"logs/s3_"|..] == StreamName(m.stream) && b[|"logs/s3_"|..] == StreamName(n.stream);
    } else {
      assert a[5] != b[5];
    }
  }

  lemma ExporterTextIsInjective(m: ExporterName, n: ExporterName)
    requires m != n && !m.BaseExporter? && !n.BaseExporter?
    ensures ExporterText(m) != ExporterText(n)
  {
    var a, b := ExporterText(m), ExporterText(n);
    if m.S3Sink? && n.S3Sink? {
      StreamNamesDiffer(m.stream, n.stream);
      assert a[|"awss3/"|..] == StreamName(m.stream) && b[|"awss3/"|..] == StreamName(n.stream);
    } else {
      assert a[0] != b[0];
    }
  }

  // ---------- What the compiled side means ----------

  /** A log record: the `mdai-logstream` attribute of its resource and of the record itself,
      and its severity number. */
  datatype LogRecord = LogRecord(
    resourceStream: Option<string>,
    recordStream: Option<string>,
    severityNumber: int)

  predicate Holds(e: RoutingEntry, r: LogRecord) {
    match e.context
    case ResourceContext => r.resourceStream == Some(StreamName(e.condition.stream))
    case LogContext => r.recordStream == Some(StreamName(e.condition.stream))
  }

  /** The routing connector moves a record along the first entry whose condition holds,
      and along the default pipelines when none does. */
  function Route(table: seq<RoutingEntry>, defaults: seq<PipelineName>, r: LogRecord): seq<PipelineName> {
    if table == [] then defaults
    else if Holds(table[0], r) then table[0].pipelines
    else Route(table[1..], defaults, r)
  }

  /** A severity filter drops low records, except those whose own attribute marks them as audit. */
  predicate Keeps(p: Processor, r: LogRecord) {
    p.SeverityFilter? ==> r.severityNumber >= p.minNumber || r.recordStream == Some("audit")
  }

  predicate Passes(processors: map<ProcessorName, Processor>, names: seq<ProcessorName>, r: LogRecord) {
    forall i | 0 <= i < |names| :: names[i] in processors ==> Keeps(processors[names[i]], r)
  }

  function Resolve(exporters: map<ExporterName, Exporter>, names: seq<ExporterName>): seq<Exporter> {
    if names == [] then []
    else (if names[0] in exporters then [exporters[names[0]]] else []) + Resolve(exporters, names[1..])
  }

  /** What one pipeline hands to its exporters for a record coming out of the router. */
  function RunPipeline(cfg: CollectorConfig, name: PipelineName, r: LogRecord): seq<Exporter> {
    if name !in cfg.pipelines then []
    else
      var p := cfg.pipelines[name];
      if Router in p.receivers && Passes(cfg.processors, p.processors, r)
      then Resolve(cfg.exporters, p.exporters)
      else []
  }

  function RunPipelines(cfg: CollectorConfig, names: seq<PipelineName>, r: LogRecord): seq<Exporter> {
    if names == [] then []
    else RunPipeline(cfg, names[0], r) + RunPipelines(cfg, names[1..], r)
  }

  /** Every export of a record that reaches the router, in order, with repetitions. */
  function Deliver(cfg: CollectorConfig, r: LogRecord): seq<Exporter> {
    RunPipelines(cfg, Route(cfg.table, cfg.defaultPipelines, r), r)
  }

  // ---------- What the declarative side means ----------

  /** Does the record belong to the stream?  Audit is marked on the record, the two component
      streams on the resource; the other stream is what matches none of these. */
  predicate InStream(r: LogRecord, s: LogStream) {
    match s
    case Audit => r.recordStream == Some("audit")
    case Collector => r.resourceStream == Some("collector")
    case Hub => r.resourceStream == Some("hub")
    case Other =>
      && r.recordStream != Some("audit")
      && r.resourceStream != Some("collector")
      && r.resourceStream != Some("hub")
  }

  function SeverityNumber(level: SeverityLevel): int
    requires ValidSeverity(level)
  {
    if level == DEBUG then 5 else if level == INFO then 9 else if level == WARN then 13 else 17
  }

  /** Audit records are never held back; others need at least the minimum severity. */
  predicate Admits(min: Option<SeverityLevel>, r: LogRecord)
    requires min.Some? ==> ValidSeverity(min.value)
  {
    || min.None?
    || r.recordStream == Some("audit")
    || r.severityNumber >= SeverityNumber(min.value)
  }

  predicate OtlpWants(logs: LogsConfig, s: LogStream) {
    logs.otlp.Some? && StreamOn(logs.otlp.value.streams, s)
  }

  predicate S3Wants(logs: LogsConfig, s: LogStream) {
    logs.s3.Some? && StreamOn(logs.s3.value.streams, s)
  }

  predicate SomeSinkWants(logs: LogsConfig, s: LogStream) {
    OtlpWants(logs, s) || S3Wants(logs, s)
  }

  /** The S3 destination of a stream: its own prefix under the collector's name. */
  function S3Destination(name: string, s3: S3LogsConfig, s: LogStream): Exporter {
    S3Exporter(s3.s3Region, s3.s3Bucket, name + "-" + StreamName(s) + "-logs", StreamName(s) + "-",
               "%Y/%m/%d/%H", true)
  }

  /** What the user asked for: one copy to each sink that wants the stream and admits the record. */
  function Wanted(name: string, logs: LogsConfig, s: LogStream, r: LogRecord): seq<Exporter>
    requires logs.otlp.Some? ==> SeverityAccepted(logs.otlp.value.streams, s)
    requires logs.s3.Some? ==> SeverityAccepted(logs.s3.value.streams, s)
  {
    (if OtlpWants(logs, s) && Admits(MinSeverity(logs.otlp.value.streams, s), r)
     then [OtlpExporter(logs.otlp.value.endpoint, true)] else [])
    + (if S3Wants(logs, s) && Admits(MinSeverity(logs.s3.value.streams, s), r)
       then [S3Destination(name, logs.s3.value, s)] else [])
  }
}
