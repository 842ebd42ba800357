/** What a settled replay has, in the fields of its spec. */
module ReplayOutcome {
  import opened Wrappers
  import opened ReplayWorld
  import opened ReplayPass
  import opened ReplaySafety
  import opened ReplayFinalizer
  import opened ReplayConvergence

  // ---------- The configuration ----------

  /** It builds exactly if there is a source and a destination that is set has a telemetry type; what is
      wrong with the destination is noticed first. */
  lemma BuildsIff(name: string, spec: ReplaySpec)
    ensures BuildConfig(name, spec).Ok? <==>
      && spec.s3.Some?
      && (spec.otlpHttpEndpoint.Some? && spec.otlpHttpEndpoint.value != "" ==> spec.telemetryType != "")
    ensures BuildConfig(name, spec) == Err(BadConfig) <==>
      spec.otlpHttpEndpoint.Some? && spec.otlpHttpEndpoint.value != "" && spec.telemetryType == ""
    ensures BuildConfig(name, spec).Err? ==> BuildConfig(name, spec).error in {BadConfig, NilSource}
  {
  }

  /** What the collector of a replay is told is the spec's, field by field; it has an exporter and a pipeline
      exactly if the destination is not empty. */
  lemma BuiltFields(name: string, spec: ReplaySpec, c: ReplayConfig)
    requires BuildConfig(name, spec) == Ok(c)
    ensures c.replayId == name && c.hubName == spec.hubName && c.statusVariableRef == spec.statusVariableRef
    ensures c.opampEndpoint == spec.opampEndpoint && c.startTime == spec.startTime && c.endTime == spec.endTime
    ensures spec.s3 == Some(c.s3)
    ensures if spec.otlpHttpEndpoint.Some? && spec.otlpHttpEndpoint.value != ""
            then c.exporterEndpoint == spec.otlpHttpEndpoint && c.replayPipelineType == Some(spec.telemetryType)
            else c.exporterEndpoint == None && c.replayPipelineType == None
  {
  }

  // ---------- The children ----------

  /** The labels the operator puts on a replay's deployment and service. */
  lemma HasLabelsIff(labels: Labels, name: string, app: string)
    ensures HasLabels(labels, name, app) <==>
      && AppLabel in labels && labels[AppLabel] == Value(app)
      && HubNameLabel in labels && labels[HubNameLabel] == Value(name)
      && ManagedByLabel in labels && labels[ManagedByLabel] == MdaiOperator
      && ComponentLabel in labels && labels[ComponentLabel] == MdaiReplay
  {
    var own := OwnLabels(name, app);
    assert AppLabel in own && HubNameLabel in own && ManagedByLabel in own && ComponentLabel in own;
  }

  /** A settled replay is live, has the finalizer and is reported available; its three children are there
      under names made of its own and its hub's: the ConfigMap with the configuration the spec asks for, the
      deployment with the spec's image, or the default one if it names none, and its secret, restarted for
      that very ConfigMap, and the service that selects it. */
  lemma SettledMeans(name: string, st: Store)
    requires Settled(name, st)
    ensures st.cr.Some? && !st.cr.value.deleting && ReplayFinalizer in st.cr.value.finalizers
    ensures exists i | 0 <= i < |st.cr.value.conditions| ::
      && st.cr.value.conditions[i] == Condition(Available, True, Reconciling, ReconciledSuccessfully)
      && forall j | 0 <= j < i :: st.cr.value.conditions[j].kind != Available
    ensures var spec := st.cr.value.spec;
      var app := "replay-" + name + "-" + spec.hubName + "-collector";
      var configKey, deploymentKey := ChildKey(ConfigMap, app + "-config"), ChildKey(Deployment, app);
      var serviceKey := ChildKey(Service, "replay-" + name + "-" + spec.hubName + "-service");
      && configKey in st.children && deploymentKey in st.children && serviceKey in st.children
      && var (config, deployment, service) :=
        (st.children[configKey], st.children[deploymentKey].body, st.children[serviceKey].body);
      && config.body.ConfigMapBody? && CollectorYaml in config.body.data
      && config.body.data[CollectorYaml].Rendered?
      && var c := config.body.data[CollectorYaml].config;
      && c.replayId == name && c.hubName == spec.hubName && c.statusVariableRef == spec.statusVariableRef
      && c.opampEndpoint == spec.opampEndpoint && c.startTime == spec.startTime && c.endTime == spec.endTime
      && spec.s3 == Some(c.s3)
      && (if spec.otlpHttpEndpoint.Some? && spec.otlpHttpEndpoint.value != ""
          then c.exporterEndpoint == spec.otlpHttpEndpoint && c.replayPipelineType == Some(spec.telemetryType)
          else c.exporterEndpoint == None && c.replayPipelineType == None)
      && deployment.DeploymentBody? && deployment.secret == spec.awsAccessKeySecret && deployment.hashed == Some(config)
      && (spec.image != "" ==> deployment.image == NamedImage(spec.image))
      && (spec.image == "" ==> deployment.image == DefaultImage)
      && service.ServiceBody? && service.selector == app
      && (forall body | body in {deployment, service} ::
            && ManagedByLabel in body.labels && body.labels[ManagedByLabel] == MdaiOperator
            && AppLabel in body.labels && body.labels[AppLabel] == Value(app)
            && HubNameLabel in body.labels && body.labels[HubNameLabel] == Value(name)
            && ComponentLabel in body.labels && body.labels[ComponentLabel] == MdaiReplay)
  {
    var spec := st.cr.value.spec;
    HasConditionAt(st.cr.value.conditions, DONE);
    Names(name, spec);
    BuiltFields(name, spec, BuildConfig(name, spec).value);
    var app := ResourceName(name, spec, "collector");
    HasLabelsIff(st.children[DeploymentKey(name, spec)].body.labels, name, app);
    HasLabelsIff(st.children[ServiceKey(name, spec)].body.labels, name, app);
  }

  lemma Names(name: string, spec: ReplaySpec)
    ensures ConfigKey(name, spec).name == "replay-" + name + "-" + spec.hubName + "-collector" + "-config"
    ensures DeploymentKey(name, spec).name == "replay-" + name + "-" + spec.hubName + "-collector"
    ensures ServiceKey(name, spec).name == "replay-" + name + "-" + spec.hubName + "-service"
  {
    var front := "replay-" + name + "-" + spec.hubName;
    assert front + "-" + "collector-config" == front + "-collector" + "-config";
    assert front + "-" + "collector" == front + "-collector";
    assert front + "-" + "service" == front + "-service";
  }

  /** The first condition of its type is this one. */
  lemma {:induction false} HasConditionAt(conditions: seq<Condition>, c: Condition)
    ensures HasCondition(conditions, c) <==>
      exists i | 0 <= i < |conditions| :: conditions[i] == c && forall j | 0 <= j < i :: conditions[j].kind != c.kind
  {
    if conditions != [] {
      HasConditionAt(conditions[1..], c);
      if conditions[0].kind == c.kind {
        assert conditions[0] == c ==> HasCondition(conditions, c);
      } else {
        if i :| 0 <= i < |conditions| && conditions[i] == c && forall j | 0 <= j < i :: conditions[j].kind != c.kind {
          assert conditions[1..][i - 1] == c;
        }
        if i :| 0 <= i < |conditions| - 1 && conditions[1..][i] == c && forall j | 0 <= j < i ::
          conditions[1..][j].kind != c.kind {
          assert conditions[i + 1] == c && forall j | 0 <= j < i + 1 :: conditions[j].kind != c.kind;
        }
      }
    }
  }

  // ---------- Local edits ----------

  /** Setting a condition puts it in the place of the first of its type, or behind all if there is none, and
      leaves the others. */
  lemma {:induction false} SetStatusConditionIs(conditions: seq<Condition>, c: Condition) returns (k: nat)
    ensures k <= |conditions| && forall j | 0 <= j < k :: conditions[j].kind != c.kind
    ensures k < |conditions| ==> conditions[k].kind == c.kind && SetStatusCondition(conditions, c) == conditions[k := c]
    ensures k == |conditions| ==> SetStatusCondition(conditions, c) == conditions + [c]
  {
    k := 0;
    if conditions != [] && conditions[0].kind != c.kind {
      var j := SetStatusConditionIs(conditions[1..], c);
      k := j + 1;
      assert conditions == [conditions[0]] + conditions[1..];
      forall m | 0 < m < k ensures conditions[m].kind != c.kind { assert conditions[1..][m - 1] == conditions[m]; }
    } else if conditions != [] {
      assert conditions == [conditions[0]] + conditions[1..];
    }
  }

  /** Taking a finalizer off goes through the list, and takes away that one and no other. */
  lemma {:induction false} WithoutIs(xs: seq<Finalizer>, ys: seq<Finalizer>, x: Finalizer, y: Finalizer)
    ensures Without(xs + ys, x) == Without(xs, x) + Without(ys, x)
    ensures Without([y], x) == if y == x then [] else [y]
  {
    assert [y][1..] == [];
    if xs == [] {
      assert xs + ys == ys;
    } else {
      assert (xs + ys)[1..] == xs[1..] + ys;
      WithoutIs(xs[1..], ys, x, y);
    }
  }

  // ---------- Results of operations ----------

  /** What the runtime is told after an operation that ends the pass, and that the other result does not. */
  lemma ResultsTell(i: nat, name: string, p: Pass, e: Failure, delay: nat)
    requires i < |OPERATIONS|
    ensures var (q, o) := Perform(OPERATIONS[i], name, p);
      && (o == StopProcessing() ==> Chain(i, name, p) == (q, Reply(0, None)))
      && (o == Requeue() ==> Chain(i, name, p) == (q, Reply(0, None)))
      && (o == RequeueWithError(e) ==> Chain(i, name, p) == (q, Reply(0, Some(e))))
      && (o == RequeueAfter(delay, None) ==> Chain(i, name, p) == (q, Reply(delay, None)))
      && (o == RequeueAfter(delay, Some(e)) ==> Chain(i, name, p) == (q, Reply(delay, Some(e))))
      && (o == ContinueProcessing() ==> Chain(i, name, p) == Chain(i + 1, name, q))
  {
  }

  /** A ConfigMap that is not there is made with the operator's labels, the hub's name and the configuration. */
  lemma NewConfigMap(name: string, spec: ReplaySpec, config: ReplayConfig)
    ensures var made := MutateConfigMap(ConfigLabels(name, spec), config)(None);
      && made.Some? && made.value.ConfigMapBody?
      && made.value.data == map[CollectorYaml := Rendered(config)]
      && made.value.labels == map[AppLabel := Value("replay-" + name + "-" + spec.hubName + "-collector"),
                                  HubNameLabel := Value(spec.hubName), ManagedByLabel := MdaiOperator,
                                  ComponentLabel := MdaiObserver]
  {
    Names(name, spec);
  }

  // ---------- Replies ----------

  /** On a live resource that is not prepared the pass ends with the first write, and reports it if it fails. */
  lemma FirstWritesReply(name: string, p: Pass)
    requires !p.cr.deleting
    ensures p.cr.conditions == [] ==>
      var r :=
        UpdateStatus(p.world,
                     p.cr.(conditions := [Condition(Available, Unknown, Reconciling, StartingReconciliation)])).1;
      Chain(0, name, p).1 == if r.Err? then Reply(0, Some(Api(r.error))) else Reply(0, None)
    ensures p.cr.conditions != [] && ReplayFinalizer !in p.cr.finalizers ==>
      var r := UpdateCR(p.world, p.cr.(finalizers := p.cr.finalizers + [ReplayFinalizer])).1;
      Chain(0, name, p).1 == if r.Err? then Reply(0, Some(Api(r.error))) else Reply(0, None)
  {
    ChainContinues(0, name, p);
    if p.cr.conditions != [] { ChainContinues(1, name, p); }
  }

  /** Under deletion: nothing is done without the finalizer. With it, a queue that cannot be read is reported
      and one that is not empty is not, both for a re-run in five seconds, unless it is to be ignored. */
  lemma DeletionReplies(name: string, p: Pass)
    requires p.cr.deleting
    ensures ReplayFinalizer !in p.cr.finalizers ==> Chain(0, name, p) == (p, Reply(0, None))
    ensures ReplayFinalizer in p.cr.finalizers && !p.cr.spec.ignoreSendingQueue ==>
      var (w, reading) := ReadQueue(p.world);
      && (reading == Unreadable ==> Chain(0, name, p) == (Pass(w, p.cr), Reply(5, Some(QueueUnreadable))))
      && (reading.Size? && reading.size > 0.0 ==> Chain(0, name, p) == (Pass(w, p.cr), Reply(5, None)))
      && (reading.Size? && reading.size <= 0.0 ==> Chain(0, name, p).1 == ReplyTo(Release(name, Pass(w, p.cr)).1))
    ensures ReplayFinalizer in p.cr.finalizers && p.cr.spec.ignoreSendingQueue ==>
      Chain(0, name, p).1 == ReplyTo(Release(name, p).1)
  {
    ChainOnDeletion(name, p);
  }

  function ReplyTo(f: Finalized): Reply { if f.ObjectUnchanged? then Reply(5, f.err) else Reply(0, None) }

  /** Letting go: a resource that is gone when it is read again, or when its status is written, is taken for
      done; any other failure of these calls, and any of the last, is reported for a re-run. */
  lemma ReleaseReplies(name: string, p: Pass)
    ensures var (w1, got) := GetCR(p.world);
      && (got == Err(NotFound) ==> ReplyTo(Release(name, p).1) == Reply(0, None))
      && (got.Err? && got != Err(NotFound) ==> ReplyTo(Release(name, p).1) == Reply(5, Some(Api(got.error))))
      && (got.Ok? &&
          HasCondition(got.value.conditions,
                       Condition(Degraded, True, FinalizingReason, FinalizerAccomplished(name))) ==>
            ReplyTo(Release(name, p).1) == RemovalReply(w1, got.value))
      && (got.Ok? &&
          !HasCondition(got.value.conditions,
                        Condition(Degraded, True, FinalizingReason, FinalizerAccomplished(name))) ==>
            var local := got.value.(conditions := SetStatusCondition(got.value.conditions, Finalizing(name)));
            var (w2, r) := UpdateStatus(w1, local);
            && (r == Err(NotFound) ==> ReplyTo(Release(name, p).1) == Reply(0, None))
            && (r.Err? && r != Err(NotFound) ==> ReplyTo(Release(name, p).1) == Reply(5, Some(Api(r.error))))
            && (r.Ok? ==> ReplyTo(Release(name, p).1) == RemovalReply(w2, r.value)))
  {
    var (w1, got) := GetCR(p.world);
    if got.Ok? { SetConditionHolds(got.value.conditions, Finalizing(name)); }
  }

  /** The reply once it only remains to take the finalizer off, if it is there. */
  function RemovalReply(w: World, cr: CR): Reply {
    var r := UpdateCR(w, cr.(finalizers := Without(cr.finalizers, ReplayFinalizer))).1;
    if ReplayFinalizer in cr.finalizers && r.Err? then Reply(5, Some(Api(r.error))) else Reply(0, None)
  }
}
