/** One reconcile pass of internal/controller/mdaireplay_adapter.go as a function of the world. */
module ReplayPass {
  import opened Wrappers
  import opened ReplayWorld

  // ---------- Results of operations ----------

  const REQUEUE_TIME: nat := 5

  datatype OperationResult = OperationResult(requeueDelay: nat, requeueRequest: bool, cancelRequest: bool)

  /** `NilSource` and `NilData` are panics, at a missing S3 source and at a ConfigMap without data, which
      controller-runtime recovers and returns as errors. */
  datatype Failure = Api(error: ApiError) | BadConfig | NilSource | NilData | QueueUnreadable

  datatype Outcome = Outcome(result: OperationResult, err: Option<Failure>)

  function ContinueProcessing(): Outcome { Outcome(OperationResult(0, false, false), None) }

  function StopProcessing(): Outcome { Outcome(OperationResult(0, false, true), None) }

  function Requeue(): Outcome { Outcome(OperationResult(0, true, false), None) }

  function RequeueWithError(e: Failure): Outcome { Outcome(OperationResult(0, true, false), Some(e)) }

  function RequeueAfter(delay: nat, e: Option<Failure>): Outcome { Outcome(OperationResult(delay, true, false), e) }

  // ---------- Local edits ----------

  /** Replaces the condition of the same type in place, or appends. */
  function SetStatusCondition(conditions: seq<Condition>, c: Condition): seq<Condition> {
    if conditions == [] then [c]
    else if conditions[0].kind == c.kind then [c] + conditions[1..]
    else [conditions[0]] + SetStatusCondition(conditions[1..], c)
  }

  function Without(xs: seq<Finalizer>, x: Finalizer): seq<Finalizer> {
    if xs == [] then []
    else if xs[0] == x then Without(xs[1..], x)
    else [xs[0]] + Without(xs[1..], x)
  }

  const STARTED := Condition(Available, Unknown, Reconciling, StartingReconciliation)
  const DONE := Condition(Available, True, Reconciling, ReconciledSuccessfully)

  function Finalizing(name: string): Condition {
    Condition(Degraded, True, FinalizingReason, FinalizerAccomplished(name))
  }

  // ---------- Desired children ----------

  function ResourceName(name: string, spec: ReplaySpec, suffix: string): string {
    "replay-" + name + "-" + spec.hubName + "-" + suffix
  }

  /** Rendering fails without a telemetry type for a set destination, and without an S3 source. */
  function BuildConfig(name: string, spec: ReplaySpec): Result<ReplayConfig, Failure> {
    var exporting := spec.otlpHttpEndpoint.Some? && spec.otlpHttpEndpoint.value != "";
    if exporting && spec.telemetryType == "" then Err(BadConfig)
    else if spec.s3.None? then Err(NilSource)
    else Ok(ReplayConfig(name, spec.hubName, spec.statusVariableRef, spec.opampEndpoint, spec.startTime, spec.endTime,
                         spec.s3.value,
                         if exporting then spec.otlpHttpEndpoint else None,
                         if exporting then Some(spec.telemetryType) else None))
  }

  function ConfigKey(name: string, spec: ReplaySpec): ChildKey {
    ChildKey(ConfigMap, ResourceName(name, spec, "collector-config"))
  }
  function DeploymentKey(name: string, spec: ReplaySpec): ChildKey {
    ChildKey(Deployment, ResourceName(name, spec, "collector"))
  }
  function ServiceKey(name: string, spec: ReplaySpec): ChildKey {
    ChildKey(Service, ResourceName(name, spec, "service"))
  }

  /** The labels the controller puts on the deployment and on the service. */
  function OwnLabels(name: string, app: string): Labels {
    map[AppLabel := Value(app), HubNameLabel := Value(name), ManagedByLabel := MdaiOperator,
        ComponentLabel := MdaiReplay]
  }

  /** The labels a ConfigMap is made with; an update leaves them alone. */
  function ConfigLabels(name: string, spec: ReplaySpec): Labels {
    map[AppLabel := Value(ResourceName(name, spec, "collector")), HubNameLabel := Value(spec.hubName),
        ManagedByLabel := MdaiOperator, ComponentLabel := MdaiObserver]
  }

  predicate HoldsData(b: Body) { b.ConfigMapBody? && b.data != map[] }

  /** The entry is assigned in the map that was read, and that is nil if the ConfigMap holds no data. */
  function MutateConfigMap(labels: Labels, config: ReplayConfig): Option<Body> -> Option<Body> {
    (existing: Option<Body>) =>
      if existing.None? then Some(ConfigMapBody(labels, map[CollectorYaml := Rendered(config)]))
      else if !HoldsData(existing.value) then None
      else Some(ConfigMapBody(existing.value.labels, existing.value.data[CollectorYaml := Rendered(config)]))
  }

  function ImageOf(spec: ReplaySpec): Image { if spec.image != "" then NamedImage(spec.image) else DefaultImage }

  function MutateDeployment(name: string, spec: ReplaySpec, hashed: Child): Option<Body> -> Option<Body> {
    (existing: Option<Body>) =>
      var labels: Labels := if existing.Some? then existing.value.labels else map[];
      Some(DeploymentBody(labels + OwnLabels(name, ResourceName(name, spec, "collector")), ImageOf(spec),
                          spec.awsAccessKeySecret, Some(hashed)))
  }

  function MutateService(name: string, spec: ReplaySpec): Option<Body> -> Option<Body> {
    (existing: Option<Body>) =>
      var labels: Labels := if existing.Some? then existing.value.labels else map[];
      var app := ResourceName(name, spec, "collector");
      Some(ServiceBody(labels + OwnLabels(name, app), app))
  }

  // ---------- The operations ----------

  /** A pass in progress: the world and the adapter's copy of the resource. */
  datatype Pass = Pass(world: World, cr: CR)

  datatype Finalized = ObjectModified | ObjectUnchanged(err: Option<Failure>)

  function DeleteFinalizer(p: Pass): (Pass, Option<Failure>) {
    if ReplayFinalizer in p.cr.finalizers then
      var local := p.cr.(finalizers := Without(p.cr.finalizers, ReplayFinalizer));
      var (w, r) := UpdateCR(p.world, local);
      if r.Ok? then (Pass(w, r.value), None) else (Pass(w, local), Some(Api(r.error)))
    else (p, None)
  }

  /** The part of finalization that runs once the queue no longer stands in the way. */
  function Release(name: string, p: Pass): (Pass, Finalized) {
    var (w1, got) := GetCR(p.world);
    if got.Err? then
      (Pass(w1, p.cr), if got.error == NotFound then ObjectModified else ObjectUnchanged(Some(Api(got.error))))
    else
      var conditions := SetStatusCondition(got.value.conditions, Finalizing(name));
      var local := got.value.(conditions := conditions);
      if conditions != got.value.conditions then
        var (w2, r) := UpdateStatus(w1, local);
        if r.Err? then
          (Pass(w2, local), if r.error == NotFound then ObjectModified else ObjectUnchanged(Some(Api(r.error))))
        else
          var (q, err) := DeleteFinalizer(Pass(w2, r.value));
          (q, if err.Some? then ObjectUnchanged(err) else ObjectModified)
      else
        var (q, err) := DeleteFinalizer(Pass(w1, local));
        (q, if err.Some? then ObjectUnchanged(err) else ObjectModified)
  }

  function Finalize(name: string, p: Pass): (Pass, Finalized) {
    if ReplayFinalizer !in p.cr.finalizers then (p, ObjectModified)
    else if p.cr.spec.ignoreSendingQueue then Release(name, p)
    else
      var (w, reading) := ReadQueue(p.world);
      if reading.Unreadable? then (Pass(w, p.cr), ObjectUnchanged(Some(QueueUnreadable)))
      else if reading.size > 0.0 then (Pass(w, p.cr), ObjectUnchanged(None))
      else Release(name, Pass(w, p.cr))
  }

  function EnsureDeletionProcessed(name: string, p: Pass): (Pass, Outcome) {
    if !p.cr.deleting then (p, ContinueProcessing())
    else
      var (q, f) := Finalize(name, p);
      (q, if f.ObjectUnchanged? then RequeueAfter(REQUEUE_TIME, f.err) else StopProcessing())
  }

  function EnsureStatusInitialized(p: Pass): (Pass, Outcome) {
    if |p.cr.conditions| != 0 then (p, ContinueProcessing())
    else
      var local := p.cr.(conditions := SetStatusCondition(p.cr.conditions, STARTED));
      var (w, r) := UpdateStatus(p.world, local);
      if r.Err? then (Pass(w, local), RequeueWithError(Api(r.error))) else (Pass(w, r.value), StopProcessing())
  }

  function EnsureFinalizerInitialized(p: Pass): (Pass, Outcome) {
    if ReplayFinalizer in p.cr.finalizers then (p, ContinueProcessing())
    else
      var local := p.cr.(finalizers := p.cr.finalizers + [ReplayFinalizer]);
      var (w, r) := UpdateCR(p.world, local);
      if r.Err? then (Pass(w, local), RequeueWithError(Api(r.error))) else (Pass(w, r.value), StopProcessing())
  }

  function ChildFailure(e: ChildError): Failure { if e.NilMap? then NilData else Api(e.error) }

  function EnsureSynchronized(name: string, p: Pass): (Pass, Outcome) {
    var spec, config := p.cr.spec, BuildConfig(name, p.cr.spec);
    if config.Err? then (p, RequeueWithError(config.error))
    else
      var (w1, c) :=
        CreateOrUpdate(p.world, ConfigKey(name, spec), MutateConfigMap(ConfigLabels(name, spec), config.value));
      if c.Err? then (Pass(w1, p.cr), RequeueWithError(ChildFailure(c.error)))
      else
        var (w2, d) := CreateOrUpdate(w1, DeploymentKey(name, spec), MutateDeployment(name, spec, c.value));
        if d.Err? then
          (Pass(w2, p.cr), if d.error == Call(Conflict) then Requeue() else RequeueWithError(ChildFailure(d.error)))
        else
          var (w3, s) := CreateOrUpdate(w2, ServiceKey(name, spec), MutateService(name, spec));
          (Pass(w3, p.cr), if s.Err? then RequeueWithError(ChildFailure(s.error)) else ContinueProcessing())
  }

  function EnsureStatusSetToDone(p: Pass): (Pass, Outcome) {
    var (w1, got) := GetCR(p.world);
    if got.Err? then (Pass(w1, p.cr), Requeue())
    else
      var local := got.value.(conditions := SetStatusCondition(got.value.conditions, DONE));
      var (w2, r) := UpdateStatus(w1, local);
      if r.Err? then (Pass(w2, local), Requeue()) else (Pass(w2, r.value), ContinueProcessing())
  }

  // ---------- The chain ----------

  datatype Operation = DeletionProcessed | StatusInitialized | FinalizerInitialized | Synchronized | StatusSetToDone

  const OPERATIONS := [DeletionProcessed, StatusInitialized, FinalizerInitialized, Synchronized, StatusSetToDone]

  function Perform(op: Operation, name: string, p: Pass): (Pass, Outcome) {
    match op
    case DeletionProcessed => EnsureDeletionProcessed(name, p)
    case StatusInitialized => EnsureStatusInitialized(p)
    case FinalizerInitialized => EnsureFinalizerInitialized(p)
    case Synchronized => EnsureSynchronized(name, p)
    case StatusSetToDone => EnsureStatusSetToDone(p)
  }

  /** What the runtime is told: when to run again, and the error if there was one. */
  datatype Reply = Reply(requeueAfter: nat, err: Option<Failure>)

  /** The runtime runs the pass again of its own accord after an error or for a positive delay. */
  predicate AsksForRerun(r: Reply) { r.err.Some? || r.requeueAfter > 0 }

  /** The outcome lets the next operation run. */
  predicate Continues(o: Outcome) { o.err.None? && !o.result.requeueRequest && !o.result.cancelRequest }

  /** The operations from number i on. */
  function Chain(i: nat, name: string, p: Pass): (Pass, Reply)
    requires i <= |OPERATIONS|
    decreases |OPERATIONS| - i
  {
    if i == |OPERATIONS| then (p, Reply(0, None))
    else
      var (q, o) := Perform(OPERATIONS[i], name, p);
      if o.err.Some? || o.result.requeueRequest then (q, Reply(o.result.requeueDelay, o.err))
      else if o.result.cancelRequest then (q, Reply(0, None))
      else Chain(i + 1, name, q)
  }

  /** A whole pass, from a fresh event log. */
  function Reconcile(name: string, w: World): (World, Reply) {
    var (v, got) := GetCR(w.(log := []));
    if got.Err? then (v, if got.error == NotFound then Reply(0, None) else Reply(0, Some(Api(got.error))))
    else
      var (p, reply) := Chain(0, name, Pass(v.(log := v.log + [PassStarted(got.value)]), got.value));
      (p.world, reply)
  }

  // ---------- Runs ----------

  /** The world after n passes, each with its own log. */
  function After(name: string, w: World, n: nat): World {
    if n == 0 then w else Reconcile(name, After(name, w, n - 1)).0
  }

  lemma {:induction false} AfterAfter(name: string, w: World, m: nat, n: nat)
    ensures After(name, After(name, w, m), n) == After(name, w, m + n)
  {
    hide Reconcile;
    if n > 0 { AfterAfter(name, w, m, n - 1); }
  }
}
