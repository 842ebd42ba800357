/** The size of the sending queue as internal/controller/mdaireplay_adapter.go reads it, and what the
    reading says about the queues of the collector that a replay is rendered to. */
module ReplayMetrics {
  import opened Wrappers
  import opened ReplayWorld
  import opened ReplayPass
  import opened ReplayFinalizer
  import opened ReplayConvergence

  // ---------- Reading ----------

  datatype Metric = Gauge(value: real) | Counter(value: real) | OtherMetric

  datatype MetricName = QueueSize | OtherName(name: string)

  /** The metric families of a response, or nothing if it cannot be parsed. */
  datatype Response = Malformed | Families(families: map<MetricName, seq<Metric>>)

  predicate Usable(m: Metric) { m.Gauge? || m.Counter? }

  function FirstUsable(series: seq<Metric>): QueueReading {
    if series == [] then Unreadable
    else if Usable(series[0]) then Size(series[0].value)
    else FirstUsable(series[1..])
  }

  function ReadingOf(body: Response, metricName: MetricName): QueueReading {
    if body.Malformed? || metricName !in body.families then Unreadable else FirstUsable(body.families[metricName])
  }

  predicate IsFirstUsable(series: seq<Metric>, i: nat) {
    i < |series| && Usable(series[i]) && forall j | 0 <= j < i :: !Usable(series[j])
  }

  method ExtractMetricValueFromResponse(body: Response, metricName: MetricName) returns (r: QueueReading)
    ensures r == ReadingOf(body, metricName)
    ensures r.Size? <==> body.Families? && metricName in body.families
                         && exists i :: 0 <= i < |body.families[metricName]| && Usable(body.families[metricName][i])
    ensures r.Size? ==>
      exists i: nat :: IsFirstUsable(body.families[metricName], i) && r.size == body.families[metricName][i].value
  {
    if body.Malformed? { return Unreadable; }
    if metricName !in body.families { return Unreadable; }
    var series := body.families[metricName];
    for i := 0 to |series|
      invariant FirstUsable(series[i..]) == FirstUsable(series)
      invariant forall j | 0 <= j < i :: !Usable(series[j])
    {
      if Usable(series[i]) {
        assert IsFirstUsable(series, i);
        return Size(series[i].value);
      }
    }
    return Unreadable;
  }

  lemma {:induction false} FirstUsableIs(series: seq<Metric>, i: nat)
    requires IsFirstUsable(series, i)
    ensures FirstUsable(series) == Size(series[i].value)
  {
    if i > 0 { FirstUsableIs(series[1..], i - 1); }
  }

  // ---------- Queues ----------

  /** The sending queue of an exporter for one kind of telemetry. */
  datatype Queue = Queue(telemetryType: string, exporter: string)

  /** The collector reports one gauge for each of its queues, in an order of its own, and no such family
      if it has none. */
  predicate Reports(body: Response, queues: set<Queue>, order: seq<Queue>, sizes: map<Queue, real>) {
    && body.Families?
    && queues == (set q | q in order) && (forall i, j | 0 <= i < j < |order| :: order[i] != order[j])
    && sizes.Keys == queues
    && (if order == [] then QueueSize !in body.families
        else QueueSize in body.families &&
             body.families[QueueSize] == seq(|order|, i requires 0 <= i < |order| => Gauge(sizes[order[i]])))
  }

  predicate Drained(sizes: map<Queue, real>) { forall q | q in sizes :: sizes[q] <= 0.0 }

  /** What is read is the size of the queue that the collector lists first. */
  lemma ReadsTheFirst(body: Response, queues: set<Queue>, order: seq<Queue>, sizes: map<Queue, real>)
    requires Reports(body, queues, order, sizes)
    ensures ReadingOf(body, QueueSize) == if order == [] then Unreadable else Size(sizes[order[0]])
  {
    if order != [] { FirstUsableIs(body.families[QueueSize], 0); }
  }

  /** An empty reading means that every queue is empty. */
  ghost predicate EmptyMeansDrained(queues: set<Queue>) {
    forall body, order, sizes | Reports(body, queues, order, sizes) ::
      ReadingOf(body, QueueSize).Size? && ReadingOf(body, QueueSize).size <= 0.0 ==> Drained(sizes)
  }

  /** It can be relied on for a collector with one queue or none, and for no other. */
  lemma EmptyMeansDrainedIff(queues: set<Queue>)
    ensures EmptyMeansDrained(queues) <==> |queues| <= 1
  {
    if |queues| <= 1 {
      forall body, order, sizes | Reports(body, queues, order, sizes)
        ensures ReadingOf(body, QueueSize).Size? && ReadingOf(body, QueueSize).size <= 0.0 ==> Drained(sizes)
      {
        ReadsTheFirst(body, queues, order, sizes);
        if order != [] {
          assert order[0] in queues;
          OnlyElement(queues, order[0]);
        }
      }
    } else {
      SecondQueueShows(queues);
    }
  }

  lemma OnlyElement<T>(s: set<T>, x: T)
    requires x in s && |s| <= 1
    ensures s == {x}
  {
    assert |s - {x}| == 0;
  }

  lemma {:induction false} Listed(queues: set<Queue>) returns (order: seq<Queue>)
    ensures queues == (set q | q in order) && forall i, j | 0 <= i < j < |order| :: order[i] != order[j]
    ensures |order| == |queues|
  {
    if queues == {} {
      order := [];
    } else {
      var x :| x in queues;
      var rest := Listed(queues - {x});
      order := [x] + rest;
      assert (set q | q in order) == {x} + (set q | q in rest);
      forall i, j | 0 <= i < j < |order| ensures order[i] != order[j] { assert order[j] in queues - {x}; }
    }
  }

  lemma SecondQueueShows(queues: set<Queue>)
    requires |queues| > 1
    ensures !EmptyMeansDrained(queues)
  {
    var order := Listed(queues);
    assert order[0] in queues && order[1] in queues;
    var sizes := map q | q in queues :: if q == order[0] then 0.0 else 1.0;
    var body := Families(map[QueueSize := seq(|order|, i requires 0 <= i < |order| => Gauge(sizes[order[i]]))]);
    assert Reports(body, queues, order, sizes);
    ReadsTheFirst(body, queues, order, sizes);
    assert sizes[order[1]] > 0.0;
  }

  // ---------- The collector of a replay ----------

  datatype Pipeline = Pipeline(telemetryType: string, exporters: seq<string>)

  const OTLP_HTTP := "otlphttp"

  /** What is added to the base configuration, which has neither exporters nor pipelines: the exporter
      of the destination, and the pipeline that feeds it. */
  function ExportersOf(c: ReplayConfig): map<string, string> {
    if c.exporterEndpoint.Some? then map[OTLP_HTTP := c.exporterEndpoint.value] else map[]
  }

  function PipelinesOf(c: ReplayConfig): map<string, Pipeline> {
    if c.replayPipelineType.Some?
    then map[c.replayPipelineType.value + "/replay" := Pipeline(c.replayPipelineType.value, [OTLP_HTTP])]
    else map[]
  }

  /** Every pipeline has a queue at each exporter it feeds. */
  function QueuesOf(c: ReplayConfig): set<Queue> {
    set name, e | name in PipelinesOf(c) && e in PipelinesOf(c)[name].exporters && e in ExportersOf(c)
      :: Queue(PipelinesOf(c)[name].telemetryType, e)
  }

  /** A destination adds the exporter that sends to it and one pipeline, named after the telemetry; without
      one there is neither. */
  lemma RenderedParts(name: string, spec: ReplaySpec)
    requires BuildConfig(name, spec).Ok?
    ensures var c := BuildConfig(name, spec).value;
      if spec.otlpHttpEndpoint.Some? && spec.otlpHttpEndpoint.value != ""
      then && ExportersOf(c) == map["otlphttp" := spec.otlpHttpEndpoint.value]
           && PipelinesOf(c) == map[spec.telemetryType + "/replay" := Pipeline(spec.telemetryType, ["otlphttp"])]
      else ExportersOf(c) == map[] && PipelinesOf(c) == map[]
  {
  }

  predicate HasDestination(spec: ReplaySpec) { spec.otlpHttpEndpoint.Some? && spec.otlpHttpEndpoint.value != "" }

  /** A configuration that builds has one queue, or none without a destination. */
  lemma RenderedQueues(name: string, spec: ReplaySpec)
    requires BuildConfig(name, spec).Ok?
    ensures QueuesOf(BuildConfig(name, spec).value) ==
      if HasDestination(spec) then {Queue(spec.telemetryType, OTLP_HTTP)} else {}
  {
    var c := BuildConfig(name, spec).value;
    if HasDestination(spec) {
      var pipeline := spec.telemetryType + "/replay";
      assert pipeline in PipelinesOf(c) && OTLP_HTTP in PipelinesOf(c)[pipeline].exporters &&
        OTLP_HTTP in ExportersOf(c);
    }
  }

  /** The queue's reading comes from the collector that was rendered for the resource. */
  predicate ReadFrom(name: string, st: Store, body: Response, order: seq<Queue>, sizes: map<Queue, real>)
    requires st.cr.Some?
  {
    && BuildConfig(name, st.cr.value.spec).Ok?
    && Reports(body, QueuesOf(BuildConfig(name, st.cr.value.spec).value), order, sizes)
    && st.queue == ReadingOf(body, QueueSize)
  }

  lemma ListedBelongs(body: Response, queues: set<Queue>, order: seq<Queue>, sizes: map<Queue, real>, i: nat)
    requires Reports(body, queues, order, sizes) && i < |order|
    ensures order[i] in queues
  {
    assert order[i] in (set q | q in order);
  }

  lemma OneQueue(body: Response, q: Queue, order: seq<Queue>, sizes: map<Queue, real>)
    requires Reports(body, {q}, order, sizes)
    ensures q in sizes && ReadingOf(body, QueueSize) == Size(sizes[q])
    ensures Drained(sizes) <==> sizes[q] <= 0.0
  {
    assert q in {q};
    assert q in order;
    ListedBelongs(body, {q}, order, sizes, 0);
    ReadsTheFirst(body, {q}, order, sizes);
  }

  lemma NoQueue(body: Response, order: seq<Queue>, sizes: map<Queue, real>)
    requires Reports(body, {}, order, sizes)
    ensures order == []
  {
    if order != [] { ListedBelongs(body, {}, order, sizes, 0); }
  }

  /** So the gate is as it should be wherever there is a destination: unless the queue is to be ignored,
      it is in the way exactly while something is queued. Without a destination it always is. */
  lemma QueueInTheWayIff(name: string, st: Store, body: Response, order: seq<Queue>, sizes: map<Queue, real>)
    requires st.cr.Some? && ReadFrom(name, st, body, order, sizes)
    ensures QueueInTheWay(st) <==>
      !st.cr.value.spec.ignoreSendingQueue && (!HasDestination(st.cr.value.spec) || !Drained(sizes))
  {
    var spec := st.cr.value.spec;
    ReadsTheFirst(body, QueuesOf(BuildConfig(name, spec).value), order, sizes);
    RenderedQueues(name, spec);
    if HasDestination(spec) {
      var q := Queue(spec.telemetryType, OTLP_HTTP);
      OneQueue(body, q, order, sizes);
    } else {
      NoQueue(body, order, sizes);
    }
  }

  /** A quiet pass lets a resource under deletion go exactly if the queue is to be ignored or the
      collector has a queue and all it has are empty. */
  lemma ReleasedIffDrained(name: string, w: World, body: Response, order: seq<Queue>, sizes: map<Queue, real>)
    requires Quiet(w) && Armed(w.store) && ReadFrom(name, w.store, body, order, sizes)
    ensures var spec := w.store.cr.value.spec;
      Released(name, w.store.cr.value, Reconcile(name, w).0.store.cr) <==>
      spec.ignoreSendingQueue || (HasDestination(spec) && Drained(sizes))
  {
    QueueInTheWayIff(name, w.store, body, order, sizes);
    QuietDeletionPass(name, w);
    var cr := w.store.cr.value;
    WithoutShortens(cr.finalizers, ReplayFinalizer);
    assert cr.finalizers != Without(cr.finalizers, ReplayFinalizer);
  }

  /** A replay without a destination is never let go unless its queue is to be ignored: its collector
      has no queue to report, and no number of passes gets beyond that. */
  lemma NoDestinationNeverFinalizes(name: string, w: World, body: Response, order: seq<Queue>, sizes: map<Queue, real>,
                                    n: nat)
    requires Quiet(w) && Armed(w.store) && ReadFrom(name, w.store, body, order, sizes)
    requires !HasDestination(w.store.cr.value.spec) && !w.store.cr.value.spec.ignoreSendingQueue
    ensures After(name, w, n).store == w.store
  {
    QueueInTheWayIff(name, w.store, body, order, sizes);
    WaitsForTheQueue(name, w, n);
  }
}
