/** The collector configuration of the observers: getObserverCollectorConfig of internal/controller/observer.go. */
module ObserverConfig {
  import opened Wrappers

  datatype Observer = Observer(
    name: string, labels: seq<string>, countMetric: Option<string>, bytesMetric: Option<string>, filter: Option<string>)

  // ---------- Names ----------

  /** The generated names, and the ones of the base configuration that generated pipelines use. */
  datatype ProcessorName =
    | GroupBy(observer: string) | FilterOf(observer: string) | Batch | DeltaToCumulative | OtherProcessor(name: string)

  datatype PipelineName =
    | Logs(observer: string) | Traces(observer: string) | ObserverOutput | OtherPipeline(name: string)

  datatype Endpoint = Otlp | Prometheus | DataVolume(observer: string) | OtherEndpoint(name: string)

  function ProcessorText(p: ProcessorName): string {
    match p
    case GroupBy(o) => "groupbyattrs/" + o
    case FilterOf(o) => "filter/" + o
    case Batch => "batch"
    case DeltaToCumulative => "deltatocumulative"
    case OtherProcessor(n) => n
  }

  function PipelineText(p: PipelineName): string {
    match p
    case Logs(o) => "logs/" + o
    case Traces(o) => "traces/" + o
    case ObserverOutput => "metrics/observeroutput"
    case OtherPipeline(n) => n
  }

  /** Generated names are as different as their texts. */
  lemma GeneratedTextIsInjective(p: ProcessorName, q: ProcessorName, r: PipelineName, s: PipelineName)
    requires !p.OtherProcessor? && !q.OtherProcessor? && !r.OtherPipeline? && !s.OtherPipeline?
    ensures ProcessorText(Batch) == "batch" && ProcessorText(DeltaToCumulative) == "deltatocumulative"
    ensures PipelineText(ObserverOutput) == "metrics/observeroutput"
    ensures ProcessorText(p) == ProcessorText(q) <==> p == q
    ensures PipelineText(r) == PipelineText(s) <==> r == s
  {
    var x, y := ProcessorText(p), ProcessorText(q);
    assert x[0] ==
      (match p
       case GroupBy(_) => 'g'
       case FilterOf(_) => 'f'
       case Batch => 'b'
       case DeltaToCumulative => 'd'
       case _ => ' ');
    assert y[0] ==
      (match q
       case GroupBy(_) => 'g'
       case FilterOf(_) => 'f'
       case Batch => 'b'
       case DeltaToCumulative => 'd'
       case _ => ' ');
    if p.GroupBy? && q.GroupBy? { assert x[13..] == p.observer && y[13..] == q.observer; }
    if p.FilterOf? && q.FilterOf? { assert x[7..] == p.observer && y[7..] == q.observer; }
    var u, v := PipelineText(r), PipelineText(s);
    assert u[0] == (match r case Logs(_) => 'l' case Traces(_) => 't' case _ => 'm');
    assert v[0] == (match s case Logs(_) => 'l' case Traces(_) => 't' case _ => 'm');
    if r.Logs? && s.Logs? { assert u[5..] == r.observer && v[5..] == s.observer; }
    if r.Traces? && s.Traces? { assert u[7..] == r.observer && v[7..] == s.observer; }
  }

  // ---------- Configurations ----------

  datatype Processor = GroupByKeys(keys: seq<string>) | FilterSpec(filter: string) | BaseProcessor(text: string)

  datatype DataVolumeSpec = DataVolumeSpec(labels: seq<string>, countMetric: Option<string>,
                                           bytesMetric: Option<string>)

  datatype Pipeline = Pipeline(receivers: seq<Endpoint>, processors: seq<ProcessorName>, exporters: seq<Endpoint>)

  datatype Config = Config(processors: map<ProcessorName, Processor>, connectors: map<string, DataVolumeSpec>,
                           pipelines: map<PipelineName, Pipeline>)

  /** What the generated pipelines rely on in the base configuration. */
  predicate Suitable(base: Config) { Batch in base.processors && DeltaToCumulative in base.processors }

  // ---------- Specification ----------

  function SpecOf(o: Observer): DataVolumeSpec { DataVolumeSpec(o.labels, o.countMetric, o.bytesMetric) }

  function PipelineOf(o: Observer): Pipeline {
    Pipeline([Otlp], (if o.filter.Some? then [FilterOf(o.name)] else []) + [Batch, GroupBy(o.name)],
             [DataVolume(o.name)])
  }

  function AddObserver(c: Config, o: Observer): Config {
    var grouped := c.processors[GroupBy(o.name) := GroupByKeys(o.labels)];
    Config(if o.filter.Some? then grouped[FilterOf(o.name) := FilterSpec(o.filter.value)] else grouped,
           c.connectors[o.name := SpecOf(o)],
           c.pipelines[Logs(o.name) := PipelineOf(o)][Traces(o.name) := PipelineOf(o)])
  }

  function AddFirst(base: Config, obs: seq<Observer>, n: nat): Config
    requires n <= |obs|
  {
    if n == 0 then base else AddObserver(AddFirst(base, obs, n - 1), obs[n - 1])
  }

  function Receivers(obs: seq<Observer>, n: nat): (r: seq<Endpoint>)
    requires n <= |obs|
    ensures |r| == n
  {
    seq(n, i requires 0 <= i < n => DataVolume(obs[i].name))
  }

  function OutputPipeline(obs: seq<Observer>): Pipeline {
    Pipeline(Receivers(obs, |obs|), [DeltaToCumulative], [Prometheus])
  }

  function Generated(base: Config, obs: seq<Observer>): Config {
    var c := AddFirst(base, obs, |obs|);
    c.(pipelines := c.pipelines[ObserverOutput := OutputPipeline(obs)])
  }

  // ---------- The builder ----------

  class Builder {
    var processors: map<ProcessorName, Processor>
    var connectors: map<string, DataVolumeSpec>
    var pipelines: map<PipelineName, Pipeline>

    constructor (base: Config)
      ensures Current() == base
    {
      processors, connectors, pipelines := base.processors, base.connectors, base.pipelines;
    }

    function Current(): Config
      reads this
    {
      Config(processors, connectors, pipelines)
    }

    method AddOne(o: Observer)
      modifies this
      ensures Current() == AddObserver(old(Current()), o)
    {
      processors := processors[GroupBy(o.name) := GroupByKeys(o.labels)];
      connectors := connectors[o.name := DataVolumeSpec(o.labels, o.countMetric, o.bytesMetric)];
      var pipelineProcessors: seq<ProcessorName> := [];
      if o.filter.Some? {
        processors := processors[FilterOf(o.name) := FilterSpec(o.filter.value)];
        pipelineProcessors := pipelineProcessors + [FilterOf(o.name)];
      }
      pipelineProcessors := pipelineProcessors + [Batch, GroupBy(o.name)];
      assert pipelineProcessors == PipelineOf(o).processors;
      var pipeline := Pipeline([Otlp], pipelineProcessors, [DataVolume(o.name)]);
      pipelines := pipelines[Logs(o.name) := pipeline];
      pipelines := pipelines[Traces(o.name) := pipeline];
    }

    method GetObserverCollectorConfig(obs: seq<Observer>)
      modifies this
      ensures Current() == Generated(old(Current()), obs)
    {
      var dataVolumeReceivers: seq<Endpoint> := [];
      for n := 0 to |obs|
        invariant Current() == AddFirst(old(Current()), obs, n)
        invariant dataVolumeReceivers == Receivers(obs, n)
      {
        AddOne(obs[n]);
        dataVolumeReceivers := dataVolumeReceivers + [DataVolume(obs[n].name)];
      }
      pipelines := pipelines[ObserverOutput := Pipeline(dataVolumeReceivers, [DeltaToCumulative], [Prometheus])];
    }
  }

  // ---------- The last observer of a name counts ----------

  /** The last of the first n observers that has this name. */
  predicate IsLast(obs: seq<Observer>, n: nat, i: nat)
    requires n <= |obs|
  {
    i < n && forall j | i < j < n :: obs[j].name != obs[i].name
  }

  /** Whatever the list: pipelines, connector and grouping of a name are those of its last observer. */
  lemma {:induction false} LastCounts(base: Config, obs: seq<Observer>, n: nat, i: nat)
    requires n <= |obs| && IsLast(obs, n, i)
    ensures var c, o := AddFirst(base, obs, n), obs[i];
      && Logs(o.name) in c.pipelines && c.pipelines[Logs(o.name)] == PipelineOf(o)
      && Traces(o.name) in c.pipelines && c.pipelines[Traces(o.name)] == PipelineOf(o)
      && o.name in c.connectors && c.connectors[o.name].labels == o.labels
      && c.connectors[o.name].countMetric == o.countMetric && c.connectors[o.name].bytesMetric == o.bytesMetric
      && GroupBy(o.name) in c.processors && c.processors[GroupBy(o.name)] == GroupByKeys(o.labels)
    ensures PipelineOf(obs[i]).receivers == [Otlp] && PipelineOf(obs[i]).exporters == [DataVolume(obs[i].name)]
    ensures obs[i].filter.Some? ==>
      PipelineOf(obs[i]).processors == [FilterOf(obs[i].name), Batch, GroupBy(obs[i].name)]
    ensures obs[i].filter.None? ==> PipelineOf(obs[i]).processors == [Batch, GroupBy(obs[i].name)]
  {
    if i < n - 1 { LastCounts(base, obs, n - 1, i); }
  }

  /** A filter is that of the last observer of the name that has one: it outlives a later one without. */
  lemma {:induction false} LastFilterCounts(base: Config, obs: seq<Observer>, n: nat, i: nat)
    requires n <= |obs| && i < n && obs[i].filter.Some?
    requires forall j | i < j < n :: obs[j].name != obs[i].name || obs[j].filter.None?
    ensures var c, o := AddFirst(base, obs, n), obs[i];
      FilterOf(o.name) in c.processors && c.processors[FilterOf(o.name)] == FilterSpec(o.filter.value)
  {
    if i < n - 1 { LastFilterCounts(base, obs, n - 1, i); }
  }

  lemma {:induction false} ProcessorsGrow(base: Config, obs: seq<Observer>, n: nat, p: ProcessorName)
    requires n <= |obs| && p in base.processors
    ensures p in AddFirst(base, obs, n).processors
  {
    if n > 0 { ProcessorsGrow(base, obs, n - 1, p); }
  }

  /** What no observer generates is as it was. */
  lemma {:induction false} BaseIsKept(base: Config, obs: seq<Observer>, n: nat)
    requires n <= |obs|
    ensures var c := AddFirst(base, obs, n);
      && (forall p: ProcessorName | !p.GroupBy? && !p.FilterOf? ::
            (p in c.processors <==> p in base.processors) &&
              (p in base.processors ==> c.processors[p] == base.processors[p]))
      && (forall p: PipelineName | !p.Logs? && !p.Traces? ::
            (p in c.pipelines <==> p in base.pipelines) &&
              (p in base.pipelines ==> c.pipelines[p] == base.pipelines[p]))
  {
    if n > 0 { BaseIsKept(base, obs, n - 1); }
  }

  // ---------- Closed graphs ----------

  predicate ClosedPipeline(c: Config, p: Pipeline) {
    && (forall i | 0 <= i < |p.processors| :: p.processors[i] in c.processors)
    && (forall i | 0 <= i < |p.receivers| && p.receivers[i].DataVolume? :: p.receivers[i].observer in c.connectors)
    && (forall i | 0 <= i < |p.exporters| && p.exporters[i].DataVolume? :: p.exporters[i].observer in c.connectors)
  }

  lemma LastOf(obs: seq<Observer>, n: nat, i: nat) returns (k: nat)
    requires i < n <= |obs|
    ensures IsLast(obs, n, k) && obs[k].name == obs[i].name
  {
    k := i;
    var j := i + 1;
    while j < n
      invariant i <= k < j <= n && obs[k].name == obs[i].name
      invariant forall m | k < m < j :: obs[m].name != obs[i].name
    {
      if obs[j].name == obs[i].name { k := j; }
      j := j + 1;
    }
  }

  /** For any list, duplicates or not: every observer has its two pipelines, and all they name is there. */
  lemma ObserverPipelinesAreClosed(base: Config, obs: seq<Observer>, i: nat)
    requires Suitable(base) && i < |obs|
    ensures var c := Generated(base, obs);
      && Logs(obs[i].name) in c.pipelines && ClosedPipeline(c, c.pipelines[Logs(obs[i].name)])
      && Traces(obs[i].name) in c.pipelines && ClosedPipeline(c, c.pipelines[Traces(obs[i].name)])
  {
    var n := |obs|;
    var k := LastOf(obs, n, i);
    LastCounts(base, obs, n, k);
    ProcessorsGrow(base, obs, n, Batch);
    if obs[k].filter.Some? { LastFilterCounts(base, obs, n, k); }
  }

  /** The metrics pipeline collects from each observer's connector, in order, and all it names is there;
      no connector is listed twice exactly when the names are distinct. */
  lemma OutputIsClosed(base: Config, obs: seq<Observer>)
    requires Suitable(base)
    ensures var c := Generated(base, obs);
      && ObserverOutput in c.pipelines && c.pipelines[ObserverOutput] == OutputPipeline(obs)
      && ClosedPipeline(c, c.pipelines[ObserverOutput])
    ensures (forall i, j | 0 <= i < j < |obs| :: Receivers(obs, |obs|)[i] != Receivers(obs, |obs|)[j]) <==>
      DistinctNames(obs)
  {
    var n := |obs|;
    ProcessorsGrow(base, obs, n, DeltaToCumulative);
    var c := Generated(base, obs);
    forall i | 0 <= i < n ensures obs[i].name in c.connectors {
      var k := LastOf(obs, n, i);
      LastCounts(base, obs, n, k);
    }
    forall i, j | 0 <= i < j < n ensures Receivers(obs, n)[i] != Receivers(obs, n)[j] <==> obs[i].name != obs[j].name {}
  }

  // ---------- Independence ----------

  predicate DistinctNames(obs: seq<Observer>) { forall i, j | 0 <= i < j < |obs| :: obs[i].name != obs[j].name }

  /** With distinct names all that is generated under a name depends on that observer alone, whatever the others are. */
  lemma ObserversAreIndependent(base: Config, obs: seq<Observer>, others: seq<Observer>, i: nat, j: nat)
    requires DistinctNames(obs) && DistinctNames(others) && i < |obs| && j < |others| && obs[i] == others[j]
    requires FilterOf(obs[i].name) !in base.processors
    ensures var c, d, name := Generated(base, obs), Generated(base, others), obs[i].name;
      && Logs(name) in c.pipelines && Logs(name) in d.pipelines && c.pipelines[Logs(name)] == d.pipelines[Logs(name)]
      && Traces(name) in c.pipelines && Traces(name) in d.pipelines &&
        c.pipelines[Traces(name)] == d.pipelines[Traces(name)]
      && name in c.connectors && name in d.connectors && c.connectors[name] == d.connectors[name]
      && GroupBy(name) in c.processors && GroupBy(name) in d.processors &&
        c.processors[GroupBy(name)] == d.processors[GroupBy(name)]
      && (FilterOf(name) in c.processors <==> FilterOf(name) in d.processors)
      && (FilterOf(name) in c.processors ==> c.processors[FilterOf(name)] == d.processors[FilterOf(name)])
  {
    LastCounts(base, obs, |obs|, i);
    LastCounts(base, others, |others|, j);
    OwnFilter(base, obs, |obs|, i);
    OwnFilter(base, others, |others|, j);
  }

  lemma OwnFilter(base: Config, obs: seq<Observer>, n: nat, i: nat)
    requires DistinctNames(obs) && i < n <= |obs| && FilterOf(obs[i].name) !in base.processors
    ensures var c, f := AddFirst(base, obs, n), FilterOf(obs[i].name);
      (f in c.processors <==> obs[i].filter.Some?) &&
        (f in c.processors ==> c.processors[f] == FilterSpec(obs[i].filter.value))
  {
    if obs[i].filter.Some? {
      LastFilterCounts(base, obs, n, i);
    } else {
      NoFilter(base, obs, n, obs[i].name);
    }
  }

  lemma {:induction false} NoFilter(base: Config, obs: seq<Observer>, n: nat, name: string)
    requires n <= |obs| && FilterOf(name) !in base.processors
    requires forall j | 0 <= j < n && obs[j].name == name :: obs[j].filter.None?
    ensures FilterOf(name) !in AddFirst(base, obs, n).processors
  {
    if n > 0 { NoFilter(base, obs, n - 1, name); }
  }

  // ---------- What the configuration means ----------

  /** Whether a record gets through all processors of a pipeline; only filters drop records, and what
      they let through is left open. */
  predicate Passes<R>(c: Config, p: Pipeline, admits: (string, R) -> bool, r: R) {
    forall i | 0 <= i < |p.processors| ::
      p.processors[i] in c.processors
      && (c.processors[p.processors[i]].FilterSpec? ==> admits(c.processors[p.processors[i]].filter, r))
  }

  /** A record that comes in over OTLP and gets through the pipeline is counted by the observer's
      connector, and the count comes out at Prometheus. */
  predicate CountedVia<R>(c: Config, name: PipelineName, observer: string, admits: (string, R) -> bool, r: R) {
    && name in c.pipelines && Otlp in c.pipelines[name].receivers && Passes(c, c.pipelines[name], admits, r)
    && DataVolume(observer) in c.pipelines[name].exporters && observer in c.connectors
    && ObserverOutput in c.pipelines && DataVolume(observer) in c.pipelines[ObserverOutput].receivers
    && Passes(c, c.pipelines[ObserverOutput], admits, r) && Prometheus in c.pipelines[ObserverOutput].exporters
  }

  /** What the observer asks for. */
  predicate Observes<R>(o: Observer, admits: (string, R) -> bool, r: R) { o.filter.Some? ==> admits(o.filter.value, r) }

  /** The processors every pipeline shares drop nothing. */
  predicate Neutral(base: Config) {
    Suitable(base) && !base.processors[Batch].FilterSpec? && !base.processors[DeltaToCumulative].FilterSpec?
  }

  lemma OutputPasses<R>(base: Config, obs: seq<Observer>, admits: (string, R) -> bool, r: R)
    requires Neutral(base)
    ensures Passes(Generated(base, obs), OutputPipeline(obs), admits, r)
  {
    BaseIsKept(base, obs, |obs|);
  }

  /** With distinct names a log or trace is counted for an observer exactly if the observer's own filter
      admits it, by that observer's labels, whatever the other observers are. */
  lemma CountsExactlyWhatIsObserved<R>(base: Config, obs: seq<Observer>, i: nat, admits: (string, R) -> bool, r: R)
    requires Neutral(base) && DistinctNames(obs) && i < |obs|
    ensures var c, o := Generated(base, obs), obs[i];
      && (CountedVia(c, Logs(o.name), o.name, admits, r) <==> Observes(o, admits, r))
      && (CountedVia(c, Traces(o.name), o.name, admits, r) <==> Observes(o, admits, r))
      && o.name in c.connectors && c.connectors[o.name].labels == o.labels
      && GroupBy(o.name) in c.processors && c.processors[GroupBy(o.name)] == GroupByKeys(o.labels)
  {
    hide PipelineOf, AddFirst;
    var c, o := Generated(base, obs), obs[i];
    LastCounts(base, obs, |obs|, i);
    BaseIsKept(base, obs, |obs|);
    OutputPasses(base, obs, admits, r);
    assert Receivers(obs, |obs|)[i] == DataVolume(o.name);
    var p := PipelineOf(o);
    assert p.receivers[0] == Otlp && p.exporters[0] == DataVolume(o.name) &&
      OutputPipeline(obs).exporters[0] == Prometheus;
    if o.filter.Some? {
      LastFilterCounts(base, obs, |obs|, i);
      assert p.processors == [FilterOf(o.name), Batch, GroupBy(o.name)];
      assert p.processors[0] == FilterOf(o.name);
    } else {
      assert p.processors == [Batch, GroupBy(o.name)];
    }
  }
}
