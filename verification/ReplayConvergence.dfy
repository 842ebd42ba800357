/** Where the replay controller ends up when it is left alone: nobody else acts and no call fails. */
module ReplayConvergence {
  import opened Wrappers
  import opened ReplayWorld
  import opened ReplayPass
  import opened ReplaySafety
  import opened ReplayFinalizer

  // ---------- Conditions ----------

  predicate HasCondition(conditions: seq<Condition>, c: Condition) {
    conditions != [] && (if conditions[0].kind == c.kind then conditions[0] == c else HasCondition(conditions[1..], c))
  }

  lemma {:induction false} SetConditionHolds(conditions: seq<Condition>, c: Condition)
    ensures HasCondition(SetStatusCondition(conditions, c), c)
    ensures HasCondition(conditions, c) <==> SetStatusCondition(conditions, c) == conditions
  {
    if conditions != [] && conditions[0].kind != c.kind {
      SetConditionHolds(conditions[1..], c);
      assert SetStatusCondition(conditions, c)[1..] == SetStatusCondition(conditions[1..], c);
      assert HasCondition(conditions, c) <==> HasCondition(conditions[1..], c);
      assert conditions == [conditions[0]] + conditions[1..];
    } else if conditions != [] {
      assert conditions == [conditions[0]] + conditions[1..];
    }
  }

  // ---------- What the children should be ----------

  predicate ConfigMatches(name: string, spec: ReplaySpec, st: Store) {
    var config := BuildConfig(name, spec);
    && config.Ok?
    && ConfigKey(name, spec) in st.children
    && var body := st.children[ConfigKey(name, spec)].body;
    && Visible(body) && body.ConfigMapBody? && CollectorYaml in body.data &&
      body.data[CollectorYaml] == Rendered(config.value)
  }

  predicate HasLabels(labels: Labels, name: string, app: string) {
    forall k | k in OwnLabels(name, app) :: k in labels && labels[k] == OwnLabels(name, app)[k]
  }

  predicate DeploymentMatches(name: string, spec: ReplaySpec, st: Store) {
    && ConfigKey(name, spec) in st.children && DeploymentKey(name, spec) in st.children
    && var body := st.children[DeploymentKey(name, spec)].body;
    && body.DeploymentBody? && body.image == ImageOf(spec) && body.secret == spec.awsAccessKeySecret
    && body.hashed == Some(st.children[ConfigKey(name, spec)])
    && HasLabels(body.labels, name, ResourceName(name, spec, "collector"))
  }

  predicate ServiceMatches(name: string, spec: ReplaySpec, st: Store) {
    && ServiceKey(name, spec) in st.children
    && var body := st.children[ServiceKey(name, spec)].body;
    && body.ServiceBody? && body.selector == ResourceName(name, spec, "collector")
    && HasLabels(body.labels, name, ResourceName(name, spec, "collector"))
  }

  predicate ChildrenMatch(name: string, spec: ReplaySpec, st: Store) {
    ConfigMatches(name, spec, st) && DeploymentMatches(name, spec, st) && ServiceMatches(name, spec, st)
  }

  /** A live resource that is reported available, with children as its spec asks. */
  predicate Settled(name: string, st: Store) {
    && st.cr.Some? && !st.cr.value.deleting && ReplayFinalizer in st.cr.value.finalizers
    && HasCondition(st.cr.value.conditions, DONE)
    && ChildrenMatch(name, st.cr.value.spec, st)
  }

  // ---------- Writing one child ----------

  /** Nobody else acts, though calls may fail. */
  predicate Alone(w: World) { forall i | 0 <= i < |w.script| :: w.script[i].acts == [] }

  predicate Quiet(w: World) { w.script == [] }

  lemma AloneAdvance(w: World)
    requires Alone(w)
    ensures Alone(Advance(w)) && Advance(w).store == w.store
    ensures Quiet(w) ==> Advance(w) == w && NextFault(w) == NoFault
  {
    if w.script != [] { assert w.script[0].acts == []; }
  }

  /** A write that succeeds leaves the child as the mutation wants it, and the store alone if it already
      was. A quiet one succeeds exactly if the child is not there or can be read, and the mutation does not
      panic. A quiet one that fails, and one that meets a conflict, changes nothing. */
  lemma AloneCreateOrUpdate(w: World, key: ChildKey, mutate: Option<Body> -> Option<Body>)
    requires Alone(w)
    ensures var (v, r) := CreateOrUpdate(w, key, mutate);
      var st := w.store;
      var read := if key in st.children then Some(st.children[key].body) else None;
      && Alone(v) && v.store.cr == st.cr && v.store.queue == st.queue
      && (Quiet(w) ==>
            && Quiet(v) && (r.Ok? <==> (read.Some? ==> Visible(read.value)) && mutate(read).Some?)
            && (r.Err? ==> v.store == st && r != Err(Call(Conflict))))
      && (r == Err(Call(Conflict)) ==> v.store == st)
      && (r.Ok? ==>
            && (read.Some? ==> Visible(read.value))
            && key in v.store.children && v.store.children[key] == r.value && mutate(read) == Some(r.value.body)
            && v.store.children.Keys == st.children.Keys + {key}
            && (forall k | k in st.children && k != key :: v.store.children[k] == st.children[k])
            && (read.Some? && read == mutate(read) ==> v.store == st))
  {
    AloneAdvance(w);
    AloneAdvance(GetChild(w, key).0);
  }

  lemma ConfigMapFixpoint(labels: Labels, config: ReplayConfig, b: Option<Body>)
    ensures MutateConfigMap(labels, config)(b).None? <==> b.Some? && !HoldsData(b.value)
    ensures var body := MutateConfigMap(labels, config)(b);
      body.Some? ==>
        && body.value.ConfigMapBody? && body.value.labels == (if b.Some? then b.value.labels else labels)
        && CollectorYaml in body.value.data && body.value.data[CollectorYaml] == Rendered(config)
    ensures b.Some? && b.value.ConfigMapBody? && CollectorYaml in b.value.data &&
      b.value.data[CollectorYaml] == Rendered(config)
      ==> MutateConfigMap(labels, config)(b) == b
  {
    if b.Some? && b.value.ConfigMapBody? && CollectorYaml in b.value.data &&
      b.value.data[CollectorYaml] == Rendered(config) {
      assert b.value.data[CollectorYaml := Rendered(config)] == b.value.data;
    }
  }

  lemma LabelsFixpoint(labels: Labels, name: string, app: string)
    ensures HasLabels(labels + OwnLabels(name, app), name, app)
    ensures HasLabels(labels, name, app) ==> labels + OwnLabels(name, app) == labels
  {
  }

  // ---------- Writing the three children ----------

  predicate IsChildOf(name: string, spec: ReplaySpec, k: ChildKey) {
    k == ConfigKey(name, spec) || k == DeploymentKey(name, spec) || k == ServiceKey(name, spec)
  }

  /** All children but the one under key are as they were. */
  ghost predicate OthersKept(key: ChildKey, st: Store, after: Store) {
    && (forall k | k != key :: k in after.children <==> k in st.children)
    && (forall k | k in st.children && k != key :: after.children[k] == st.children[k])
  }

  /** The ConfigMap is not there, or can be read and holds data. */
  predicate ConfigUsable(name: string, spec: ReplaySpec, st: Store) {
    var key := ConfigKey(name, spec);
    key in st.children ==> Visible(st.children[key].body) && HoldsData(st.children[key].body)
  }

  predicate CanBeRead(st: Store, key: ChildKey) { key in st.children ==> Visible(st.children[key].body) }

  /** Every child is not there or can be read, and the ConfigMap holds data. */
  predicate Usable(name: string, spec: ReplaySpec, st: Store) {
    ConfigUsable(name, spec, st) && CanBeRead(st, DeploymentKey(name, spec)) && CanBeRead(st, ServiceKey(name, spec))
  }

  function WantedConfigMap(name: string, spec: ReplaySpec): Option<Body> -> Option<Body>
    requires BuildConfig(name, spec).Ok?
  {
    MutateConfigMap(ConfigLabels(name, spec), BuildConfig(name, spec).value)
  }

  lemma AloneConfig(name: string, spec: ReplaySpec, w: World)
    requires Alone(w) && BuildConfig(name, spec).Ok?
    ensures var (v, c) := CreateOrUpdate(w, ConfigKey(name, spec), WantedConfigMap(name, spec));
      && Alone(v) && v.store.cr == w.store.cr && v.store.queue == w.store.queue
      && (Quiet(w) ==>
          Quiet(v) && (c.Ok? <==> ConfigUsable(name, spec, w.store)) &&
            (c.Err? ==> v.store == w.store && c != Err(Call(Conflict))))
      && (c.Ok? ==>
            && ConfigMatches(name, spec, v.store) && v.store.children[ConfigKey(name, spec)] == c.value
            && OthersKept(ConfigKey(name, spec), w.store, v.store)
            && (ConfigMatches(name, spec, w.store) ==> v.store == w.store))
  {
    AloneCreateOrUpdate(w, ConfigKey(name, spec), WantedConfigMap(name, spec));
    var key, children := ConfigKey(name, spec), w.store.children;
    var read := if key in children then Some(children[key].body) else None;
    ConfigMapFixpoint(ConfigLabels(name, spec), BuildConfig(name, spec).value, read);
  }

  lemma AloneDeployment(name: string, spec: ReplaySpec, w: World, c: Child)
    requires Alone(w) && ConfigKey(name, spec) in w.store.children && w.store.children[ConfigKey(name, spec)] == c
    ensures var (v, d) := CreateOrUpdate(w, DeploymentKey(name, spec), MutateDeployment(name, spec, c));
      && Alone(v) && v.store.cr == w.store.cr && v.store.queue == w.store.queue
      && (Quiet(w) ==>
          Quiet(v) && (d.Ok? <==> CanBeRead(w.store, DeploymentKey(name, spec))) &&
            (d.Err? ==> v.store == w.store && d != Err(Call(Conflict))))
      && (d == Err(Call(Conflict)) ==> v.store == w.store)
      && (d.Ok? ==>
            && DeploymentMatches(name, spec, v.store)
            && OthersKept(DeploymentKey(name, spec), w.store, v.store)
            && (DeploymentMatches(name, spec, w.store) ==> v.store == w.store))
  {
    var key := DeploymentKey(name, spec);
    AloneCreateOrUpdate(w, key, MutateDeployment(name, spec, c));
    var labels: Labels := if key in w.store.children then w.store.children[key].body.labels else map[];
    LabelsFixpoint(labels, name, ResourceName(name, spec, "collector"));
  }

  lemma AloneService(name: string, spec: ReplaySpec, w: World)
    requires Alone(w)
    ensures var (v, s) := CreateOrUpdate(w, ServiceKey(name, spec), MutateService(name, spec));
      && Alone(v) && v.store.cr == w.store.cr && v.store.queue == w.store.queue
      && (Quiet(w) ==>
          Quiet(v) && (s.Ok? <==> CanBeRead(w.store, ServiceKey(name, spec))) &&
            (s.Err? ==> v.store == w.store && s != Err(Call(Conflict))))
      && (s.Ok? ==>
            && ServiceMatches(name, spec, v.store)
            && OthersKept(ServiceKey(name, spec), w.store, v.store)
            && (ServiceMatches(name, spec, w.store) ==> v.store == w.store))
  {
    var key := ServiceKey(name, spec);
    AloneCreateOrUpdate(w, key, MutateService(name, spec));
    var labels: Labels := if key in w.store.children then w.store.children[key].body.labels else map[];
    LabelsFixpoint(labels, name, ResourceName(name, spec, "collector"));
  }

  /** Left alone, the three children are as the spec asks afterwards if all of them are usable. */
  lemma QuietSynchronized(name: string, p: Pass)
    requires Quiet(p.world) && BuildConfig(name, p.cr.spec).Ok? && Usable(name, p.cr.spec, p.world.store)
    ensures var (q, o) := EnsureSynchronized(name, p);
      && Continues(o) && q.cr == p.cr && Quiet(q.world)
      && q.world.store.cr == p.world.store.cr && q.world.store.queue == p.world.store.queue
      && ChildrenMatch(name, p.cr.spec, q.world.store)
      && (forall k | !IsChildOf(name, p.cr.spec, k) :: k in q.world.store.children <==> k in p.world.store.children)
      && (forall k | k in p.world.store.children && !IsChildOf(name, p.cr.spec, k) ::
            q.world.store.children[k] == p.world.store.children[k])
      && (ChildrenMatch(name, p.cr.spec, p.world.store) ==> q.world.store == p.world.store)
  {
    hide CreateOrUpdate;
    var spec := p.cr.spec;
    AloneConfig(name, spec, p.world);
    var (w1, c) := CreateOrUpdate(p.world, ConfigKey(name, spec), WantedConfigMap(name, spec));
    AloneDeployment(name, spec, w1, c.value);
    var w2 := CreateOrUpdate(w1, DeploymentKey(name, spec), MutateDeployment(name, spec, c.value)).0;
    AloneService(name, spec, w2);
  }

  lemma StillReadable(key: ChildKey, st: Store, after: Store, k: ChildKey)
    requires OthersKept(key, st, after) && k != key
    ensures CanBeRead(after, k) <==> CanBeRead(st, k)
  {
  }

  /** If one of them is not, the operation fails, and that child stays as it is. */
  lemma UnusableSynchronized(name: string, p: Pass)
    requires Quiet(p.world) && BuildConfig(name, p.cr.spec).Ok? && !Usable(name, p.cr.spec, p.world.store)
    ensures var (q, o) := EnsureSynchronized(name, p);
      && o.err.Some? && q.cr == p.cr && Quiet(q.world) && q.world.store.cr == p.world.store.cr
      && !Usable(name, p.cr.spec, q.world.store)
      && (!ConfigUsable(name, p.cr.spec, p.world.store) ==> q.world.store == p.world.store)
  {
    hide CreateOrUpdate;
    var spec := p.cr.spec;
    AloneConfig(name, spec, p.world);
    var (w1, c) := CreateOrUpdate(p.world, ConfigKey(name, spec), WantedConfigMap(name, spec));
    if c.Ok? {
      AloneDeployment(name, spec, w1, c.value);
      StillReadable(ConfigKey(name, spec), p.world.store, w1.store, DeploymentKey(name, spec));
      StillReadable(ConfigKey(name, spec), p.world.store, w1.store, ServiceKey(name, spec));
      var (w2, d) := CreateOrUpdate(w1, DeploymentKey(name, spec), MutateDeployment(name, spec, c.value));
      if d.Ok? {
        StillReadable(DeploymentKey(name, spec), w1.store, w2.store, ServiceKey(name, spec));
        AloneService(name, spec, w2);
        var (w3, s) := CreateOrUpdate(w2, ServiceKey(name, spec), MutateService(name, spec));
        assert s.Err?;
        assert EnsureSynchronized(name, p) == (Pass(w3, p.cr), RequeueWithError(ChildFailure(s.error)));
      }
    }
  }

  // ---------- One quiet pass over a live resource ----------

  predicate Live(st: Store) { st.cr.Some? && !st.cr.value.deleting }

  predicate Prepared(cr: CR) { cr.conditions != [] && ReplayFinalizer in cr.finalizers }

  /** The world in which the chain starts. */
  function Fetched(w: World): World
    requires w.store.cr.Some?
  {
    w.(log := [PassStarted(w.store.cr.value)])
  }

  lemma QuietFetch(name: string, w: World)
    requires Quiet(w) && w.store.cr.Some?
    ensures Reconcile(name, w) == (Chain(0, name, Pass(Fetched(w), w.store.cr.value)).0.world,
                                   Chain(0, name, Pass(Fetched(w), w.store.cr.value)).1)
  {
    var u := w.(log := []);
    assert GetCR(u) == (u, Ok(w.store.cr.value));
    assert u.(log := u.log + [PassStarted(w.store.cr.value)]) == Fetched(w);
  }

  lemma QuietDone(p: Pass)
    requires Quiet(p.world) && p.world.store.cr.Some?
    ensures var (q, o) := EnsureStatusSetToDone(p);
      var cr := p.world.store.cr.value;
      && Continues(o) && Quiet(q.world)
      && q.world.store.children == p.world.store.children && q.world.store.cr.Some?
      && var after := q.world.store.cr.value;
      && after.spec == cr.spec && after.finalizers == cr.finalizers && after.deleting == cr.deleting
      && HasCondition(after.conditions, DONE)
      && (HasCondition(cr.conditions, DONE) ==> q.world.store == p.world.store)
  {
    SetConditionHolds(p.world.store.cr.value.conditions, DONE);
  }

  lemma ChainStops(i: nat, name: string, p: Pass)
    requires i < |OPERATIONS| && Perform(OPERATIONS[i], name, p).1 == StopProcessing()
    ensures Chain(i, name, p) == (Perform(OPERATIONS[i], name, p).0, Reply(0, None))
  {
  }

  lemma ChainContinues(i: nat, name: string, p: Pass)
    requires i < |OPERATIONS| && Continues(Perform(OPERATIONS[i], name, p).1)
    ensures Chain(i, name, p) == Chain(i + 1, name, Perform(OPERATIONS[i], name, p).0)
  {
  }

  /** A live resource without conditions gets its first one, and nothing else happens. */
  lemma QuietPassStarts(name: string, w: World)
    requires Quiet(w) && Live(w.store) && w.store.cr.value.conditions == []
    ensures var (v, reply) := Reconcile(name, w);
      && reply == Reply(0, None) && Quiet(v)
      && v.store ==
        w.store.(cr :=
                 Some(w.store.cr.value.(conditions :=
                                        [Condition(Available, Unknown, Reconciling, StartingReconciliation)],
                                               version := w.store.clock + 1)),
                 clock := w.store.clock + 1)
  {
    QuietFetch(name, w);
    var p := Pass(Fetched(w), w.store.cr.value);
    ChainContinues(0, name, p);
    ChainStops(1, name, p);
  }

  /** Next it gets the finalizer, and nothing else happens. */
  lemma QuietPassProtects(name: string, w: World)
    requires Quiet(w) && Live(w.store) && w.store.cr.value.conditions != [] &&
      ReplayFinalizer !in w.store.cr.value.finalizers
    ensures var (v, reply) := Reconcile(name, w);
      && reply == Reply(0, None) && Quiet(v)
      && v.store == w.store.(cr := Some(w.store.cr.value.(finalizers := w.store.cr.value.finalizers + [ReplayFinalizer],
                                                         version := w.store.clock + 1)), clock := w.store.clock + 1)
  {
    QuietFetch(name, w);
    var p := Pass(Fetched(w), w.store.cr.value);
    ChainContinues(0, name, p);
    ChainContinues(1, name, p);
    assert (p.cr.finalizers + [ReplayFinalizer])[|p.cr.finalizers|] == ReplayFinalizer;
    ChainStops(2, name, p);
  }

  lemma QuietTail(name: string, p: Pass)
    requires Quiet(p.world) && Live(p.world.store) && p.world.store.cr == Some(p.cr) && Prepared(p.cr)
    requires BuildConfig(name, p.cr.spec).Ok? && Usable(name, p.cr.spec, p.world.store)
    ensures var (x, reply) := Chain(3, name, p);
      && reply == Reply(0, None) && Quiet(x.world) && Settled(name, x.world.store)
      && x.world.store.cr.value.spec == p.cr.spec
      && (Settled(name, p.world.store) ==> x.world.store == p.world.store)
  {
    hide Chain, EnsureSynchronized, EnsureStatusSetToDone, ChildrenMatch, Usable;
    QuietSynchronized(name, p);
    ChainContinues(3, name, p);
    var q := EnsureSynchronized(name, p).0;
    QuietDone(q);
    LastStep(name, q);
    SameChildren(name, p.cr.spec, q.world.store, EnsureStatusSetToDone(q).0.world.store);
  }

  lemma LastStep(name: string, q: Pass)
    requires Continues(EnsureStatusSetToDone(q).1)
    ensures Chain(4, name, q) == (EnsureStatusSetToDone(q).0, Reply(0, None))
  {
    ChainContinues(4, name, q);
  }

  /** The config builds and every child is usable. */
  predicate CanSettle(name: string, st: Store)
    requires st.cr.Some?
  {
    BuildConfig(name, st.cr.value.spec).Ok? && Usable(name, st.cr.value.spec, st)
  }

  lemma SettledCanSettle(name: string, st: Store)
    requires Settled(name, st)
    ensures CanSettle(name, st)
  {
    var spec := st.cr.value.spec;
    var app := ResourceName(name, spec, "collector");
    assert ManagedByLabel in OwnLabels(name, app);
  }

  lemma PreparedChain(name: string, p: Pass)
    requires !p.cr.deleting && Prepared(p.cr)
    ensures Chain(0, name, p) == Chain(3, name, p)
  {
    ChainContinues(0, name, p);
    ChainContinues(1, name, p);
    ChainContinues(2, name, p);
  }

  /** Then one pass settles it, if it can be; a pass over a settled resource changes nothing. */
  lemma QuietPassSettles(name: string, w: World)
    requires Quiet(w) && Live(w.store) && Prepared(w.store.cr.value) && CanSettle(name, w.store)
    ensures var (v, reply) := Reconcile(name, w);
      && reply == Reply(0, None) && Quiet(v) && Settled(name, v.store)
      && v.store.cr.value.spec == w.store.cr.value.spec
      && (Settled(name, w.store) ==> v.store == w.store)
  {
    QuietFetch(name, w);
    var p := Pass(Fetched(w), w.store.cr.value);
    PreparedChain(name, p);
    QuietTail(name, p);
  }

  /** If it cannot be settled, every pass over a prepared resource fails and is run again; one that the
      config or the ConfigMap is to blame for changes nothing. */
  lemma QuietPassFails(name: string, w: World)
    requires Quiet(w) && Live(w.store) && Prepared(w.store.cr.value) && !CanSettle(name, w.store)
    ensures var (v, reply) := Reconcile(name, w);
      && Quiet(v) && v.store.cr == w.store.cr && !CanSettle(name, v.store)
      && reply.err.Some? && AsksForRerun(reply)
      && (BuildConfig(name, w.store.cr.value.spec).Err? || !ConfigUsable(name, w.store.cr.value.spec, w.store) ==>
          v.store == w.store)
  {
    QuietFetch(name, w);
    var p := Pass(Fetched(w), w.store.cr.value);
    PreparedChain(name, p);
    if BuildConfig(name, p.cr.spec).Ok? { UnusableSynchronized(name, p); }
    FailingStep(3, name, p);
  }

  lemma FailingStep(i: nat, name: string, p: Pass)
    requires i < |OPERATIONS|
    requires Perform(OPERATIONS[i], name, p).1.err.Some?
    ensures var (q, o) := Perform(OPERATIONS[i], name, p); Chain(i, name, p) == (q, Reply(o.result.requeueDelay, o.err))
  {
  }

  lemma SameChildren(name: string, spec: ReplaySpec, st: Store, other: Store)
    requires ChildrenMatch(name, spec, st) && other.children == st.children
    ensures ChildrenMatch(name, spec, other)
  {
  }

  // ---------- Convergence ----------

  /** How many passes are still needed. */
  function PassesToGo(name: string, st: Store): nat
    requires st.cr.Some?
  {
    if Settled(name, st) then 0
    else 1 + (if st.cr.value.conditions == [] then 1 else 0)
         + (if ReplayFinalizer !in st.cr.value.finalizers then 1 else 0)
  }

  predicate Progress(name: string, w: World, v: World, reply: Reply)
    requires Live(w.store)
  {
    && reply == Reply(0, None) && Quiet(v) && Live(v.store) && v.store.cr.value.spec == w.store.cr.value.spec
    && (if Settled(name, w.store) then v.store == w.store else PassesToGo(name, v.store) < PassesToGo(name, w.store))
    && (!Settled(name, v.store) ==> v.store.cr != w.store.cr)
    && CanSettle(name, v.store)
  }

  lemma StartingProgresses(name: string, w: World, v: World)
    requires Live(w.store) && w.store.cr.value.conditions == [] && Quiet(v)
    requires CanSettle(name, w.store) && v.store.children == w.store.children
    requires v.store.cr == Some(w.store.cr.value.(conditions := [STARTED], version := w.store.clock + 1))
    ensures Progress(name, w, v, Reply(0, None))
  {
  }

  lemma ProtectingProgresses(name: string, w: World, v: World)
    requires Live(w.store) && w.store.cr.value.conditions != [] && ReplayFinalizer !in w.store.cr.value.finalizers &&
      Quiet(v)
    requires CanSettle(name, w.store) && v.store.children == w.store.children
    requires v.store.cr ==
      Some(w.store.cr.value.(finalizers := w.store.cr.value.finalizers + [ReplayFinalizer],
                             version := w.store.clock + 1))
    ensures Progress(name, w, v, Reply(0, None))
  {
    var fs := w.store.cr.value.finalizers;
    assert (fs + [ReplayFinalizer])[|fs|] == ReplayFinalizer;
    assert |v.store.cr.value.finalizers| != |fs|;
  }

  /** Every quiet pass over a live resource that can settle brings it strictly closer, or leaves a settled
      one alone; while it is not settled the pass changed the resource, and so is followed by another. */
  lemma QuietPassProgresses(name: string, w: World)
    requires Quiet(w) && Live(w.store) && CanSettle(name, w.store)
    ensures Progress(name, w, Reconcile(name, w).0, Reconcile(name, w).1)
    ensures var (v, reply) := Reconcile(name, w);
      && reply == Reply(0, None)
      && (Settled(name, w.store) ==> v.store == w.store)
      && (!Settled(name, w.store) ==> v.store.cr.Some? && PassesToGo(name, v.store) < PassesToGo(name, w.store) <= 3)
      && (!Settled(name, v.store) ==> v.store.cr != w.store.cr)
  {
    var (v, reply) := Reconcile(name, w);
    if w.store.cr.value.conditions == [] {
      QuietPassStarts(name, w);
      StartingProgresses(name, w, v);
    } else if ReplayFinalizer !in w.store.cr.value.finalizers {
      QuietPassProtects(name, w);
      ProtectingProgresses(name, w, v);
    } else {
      QuietPassSettles(name, w);
      SettledCanSettle(name, v.store);
    }
  }

  lemma {:induction false} QuietRunProgresses(name: string, w: World, n: nat)
    requires Quiet(w) && Live(w.store) && CanSettle(name, w.store)
    ensures var v := After(name, w, n);
      && Quiet(v) && Live(v.store) && v.store.cr.value.spec == w.store.cr.value.spec && CanSettle(name, v.store)
      && (PassesToGo(name, v.store) + n <= PassesToGo(name, w.store) || Settled(name, v.store))
  {
    hide Reconcile;
    if n > 0 {
      QuietRunProgresses(name, w, n - 1);
      QuietPassProgresses(name, After(name, w, n - 1));
    }
  }

  lemma {:induction false} SettledStays(name: string, w: World, n: nat)
    requires Quiet(w) && Settled(name, w.store)
    ensures After(name, w, n).store == w.store && Quiet(After(name, w, n))
  {
    hide Reconcile;
    if n > 0 {
      SettledStays(name, w, n - 1);
      SettledCanSettle(name, w.store);
      QuietPassProgresses(name, After(name, w, n - 1));
    }
  }

  /** A quiet pass over a live resource that cannot settle leaves it so. */
  lemma QuietPassStaysStuck(name: string, w: World)
    requires Quiet(w) && Live(w.store) && !CanSettle(name, w.store)
    ensures var v := Reconcile(name, w).0; Quiet(v) && Live(v.store) && !CanSettle(name, v.store)
  {
    if w.store.cr.value.conditions == [] {
      QuietPassStarts(name, w);
    } else if ReplayFinalizer !in w.store.cr.value.finalizers {
      QuietPassProtects(name, w);
    } else {
      QuietPassFails(name, w);
    }
  }

  lemma {:induction false} StaysStuck(name: string, w: World, n: nat)
    requires Quiet(w) && Live(w.store) && !CanSettle(name, w.store)
    ensures var v := After(name, w, n);
      Quiet(v) && Live(v.store) && !CanSettle(name, v.store) && !Settled(name, v.store)
  {
    hide Reconcile;
    if n > 0 {
      StaysStuck(name, w, n - 1);
      QuietPassStaysStuck(name, After(name, w, n - 1));
    }
    if Settled(name, After(name, w, n).store) { SettledCanSettle(name, After(name, w, n).store); }
  }

  /** Left alone, a live resource is settled after three passes, and from then on, if and only if its
      config builds, each of its children is not there or can be read, and the ConfigMap, if it is there,
      holds data; it is then settled for its own spec, and no later pass changes the store. */
  lemma ConvergesInThreePassesIff(name: string, w: World, m: nat, n: nat)
    requires Quiet(w) && Live(w.store) && 3 <= m <= n
    ensures Settled(name, After(name, w, m).store) <==> CanSettle(name, w.store)
    ensures CanSettle(name, w.store) ==>
      After(name, w, m).store.cr.value.spec == w.store.cr.value.spec &&
        After(name, w, n).store == After(name, w, m).store
  {
    hide Reconcile;
    if CanSettle(name, w.store) {
      QuietRunProgresses(name, w, m);
      SettledStays(name, After(name, w, m), n - m);
      AfterAfter(name, w, m, n - m);
    } else {
      StaysStuck(name, w, m);
    }
  }

  /** At a ConfigMap without data every pass over a prepared resource panics, is run again, and changes
      nothing. */
  lemma {:induction false} EmptyConfigMapPanics(name: string, w: World, n: nat)
    requires Quiet(w) && Live(w.store) && Prepared(w.store.cr.value) && BuildConfig(name, w.store.cr.value.spec).Ok?
    requires var key := ConfigKey(name, w.store.cr.value.spec);
      key in w.store.children && Visible(w.store.children[key].body) && !HoldsData(w.store.children[key].body)
    ensures var v := After(name, w, n);
      v.store == w.store && Quiet(v) && Reconcile(name, v).1 == Reply(0, Some(NilData)) &&
        AsksForRerun(Reconcile(name, v).1)
  {
    hide Reconcile;
    if n > 0 {
      EmptyConfigMapPanics(name, w, n - 1);
      QuietPassFails(name, After(name, w, n - 1));
    }
    NilDataReply(name, After(name, w, n));
  }

  lemma NilDataReply(name: string, w: World)
    requires Quiet(w) && Live(w.store) && Prepared(w.store.cr.value) && BuildConfig(name, w.store.cr.value.spec).Ok?
    requires var key := ConfigKey(name, w.store.cr.value.spec);
      key in w.store.children && Visible(w.store.children[key].body) && !HoldsData(w.store.children[key].body)
    ensures Reconcile(name, w).1 == Reply(0, Some(NilData))
  {
    QuietFetch(name, w);
    var p := Pass(Fetched(w), w.store.cr.value);
    PreparedChain(name, p);
    FailingStep(3, name, p);
  }

  // ---------- After any finite interference ----------

  predicate AtMost(k: nat, w: World) { |w.script| <= k }

  lemma CreateOrUpdateUsesUp(k: nat, w: World, key: ChildKey, mutate: Option<Body> -> Option<Body>)
    requires AtMost(k, w)
    ensures AtMost(k, CreateOrUpdate(w, key, mutate).0)
  {
  }

  lemma ReleaseUsesUp(k: nat, name: string, p: Pass)
    requires AtMost(k, p.world)
    ensures AtMost(k, Release(name, p).0.world)
  {
  }

  lemma SynchronizedUsesUp(k: nat, name: string, p: Pass)
    requires AtMost(k, p.world)
    ensures AtMost(k, EnsureSynchronized(name, p).0.world)
  {
    hide CreateOrUpdate;
    var config, spec := BuildConfig(name, p.cr.spec), p.cr.spec;
    if config.Ok? {
      CreateOrUpdateUsesUp(k, p.world, ConfigKey(name, spec), MutateConfigMap(ConfigLabels(name, spec), config.value));
      var (w1, c) :=
        CreateOrUpdate(p.world, ConfigKey(name, spec), MutateConfigMap(ConfigLabels(name, spec), config.value));
      if c.Ok? {
        CreateOrUpdateUsesUp(k, w1, DeploymentKey(name, spec), MutateDeployment(name, spec, c.value));
        var w2 := CreateOrUpdate(w1, DeploymentKey(name, spec), MutateDeployment(name, spec, c.value)).0;
        CreateOrUpdateUsesUp(k, w2, ServiceKey(name, spec), MutateService(name, spec));
      }
    }
  }

  lemma PerformUsesUp(k: nat, op: Operation, name: string, p: Pass)
    requires AtMost(k, p.world)
    ensures AtMost(k, Perform(op, name, p).0.world)
  {
    hide Release, EnsureSynchronized;
    match op {
      case DeletionProcessed =>
        ReleaseUsesUp(k, name, p);
        ReleaseUsesUp(k, name, Pass(ReadQueue(p.world).0, p.cr));
      case StatusInitialized =>
      case FinalizerInitialized =>
      case Synchronized => SynchronizedUsesUp(k, name, p);
      case StatusSetToDone =>
    }
  }

  /** Every pass uses up what happens around at least one call, the fetch. */
  lemma PassUsesUp(k: nat, name: string, w: World)
    requires AtMost(k + 1, w)
    ensures AtMost(k, Reconcile(name, w).0)
  {
    hide Chain;
    var (v, got) := GetCR(w.(log := []));
    if got.Ok? {
      var inv := (u: World) => AtMost(k, u);
      forall op, q: Pass | inv(q.world) ensures inv(Perform(op, name, q).0.world) { PerformUsesUp(k, op, name, q); }
      ChainInduction(inv, 0, name, Pass(v.(log := v.log + [PassStarted(got.value)]), got.value));
    }
  }

  lemma {:induction false} RunUsesUp(name: string, w: World, n: nat)
    requires n <= |w.script|
    ensures AtMost(|w.script| - n, After(name, w, n))
  {
    hide Reconcile;
    if n > 0 {
      RunUsesUp(name, w, n - 1);
      PassUsesUp(|w.script| - n, name, After(name, w, n - 1));
    }
  }

  /** So it is after whatever a script has in store: a resource that is then live is settled at the latest
      three passes after the script, for the spec it then has, if and only if it then can be. */
  lemma SettlesOnceLeftAloneIff(name: string, w: World, m: nat, n: nat)
    requires |w.script| + 3 <= m <= n
    requires Live(After(name, w, |w.script|).store)
    ensures var u := After(name, w, |w.script|);
      && (Settled(name, After(name, w, m).store) <==> CanSettle(name, u.store))
      && (CanSettle(name, u.store) ==>
            && After(name, w, m).store.cr.value.spec == u.store.cr.value.spec
            && After(name, w, n).store == After(name, w, m).store)
  {
    hide Reconcile;
    var k := |w.script|;
    var u := After(name, w, k);
    RunUsesUp(name, w, k);
    ConvergesInThreePassesIff(name, u, m - k, n - k);
    AfterAfter(name, w, k, m - k);
    AfterAfter(name, w, k, n - k);
  }

  /** Without a config that builds, every pass over a prepared resource fails with the reason, is run
      again, and changes nothing. */
  lemma BadConfigNeverSettles(name: string, w: World)
    requires Quiet(w) && Live(w.store) && Prepared(w.store.cr.value) && BuildConfig(name, w.store.cr.value.spec).Err?
    ensures var (v, reply) := Reconcile(name, w);
      v.store == w.store && reply == Reply(0, Some(BuildConfig(name, w.store.cr.value.spec).error)) &&
        !Settled(name, w.store)
  {
    QuietFetch(name, w);
    var p := Pass(Fetched(w), w.store.cr.value);
    PreparedChain(name, p);
    FailingStep(3, name, p);
  }

  // ---------- Deletion ----------

  /** What is left once the controller has let go: gone if nobody else holds it. */
  function Released(name: string, cr: CR, rest: Option<CR>): bool {
    var others := Without(cr.finalizers, ReplayFinalizer);
    if others == [] then rest.None?
    else
      && rest.Some? && rest.value.finalizers == others && rest.value.deleting && rest.value.spec == cr.spec
      && HasCondition(rest.value.conditions, Condition(Degraded, True, FinalizingReason, FinalizerAccomplished(name)))
  }

  predicate QueueInTheWay(st: Store)
    requires st.cr.Some?
  {
    !st.cr.value.spec.ignoreSendingQueue && (st.queue.Unreadable? || st.queue.size > 0.0)
  }

  lemma {:induction false} WithoutShortens(xs: seq<Finalizer>, x: Finalizer)
    requires x in xs
    ensures |Without(xs, x)| < |xs|
  {
    if xs[0] != x { WithoutShortens(xs[1..], x); } else { WithoutNeverLengthens(xs[1..], x); }
  }

  lemma {:induction false} WithoutNeverLengthens(xs: seq<Finalizer>, x: Finalizer)
    ensures |Without(xs, x)| <= |xs|
  {
    if xs != [] { WithoutNeverLengthens(xs[1..], x); }
  }

  lemma QuietRelease(name: string, p: Pass)
    requires Quiet(p.world) && Armed(p.world.store)
    ensures var (q, f) := Release(name, p);
      && f == ObjectModified && Quiet(q.world) && q.world.store.children == p.world.store.children
      && Released(name, p.world.store.cr.value, q.world.store.cr)
  {
    var cr := p.world.store.cr.value;
    var conditions := SetStatusCondition(cr.conditions, Finalizing(name));
    SetConditionHolds(cr.conditions, Finalizing(name));
    WithoutShortens(cr.finalizers, ReplayFinalizer);
    var local := cr.(conditions := conditions);
    assert GetCR(p.world) == (p.world, Ok(cr));
    if conditions != cr.conditions {
      var (w2, r) := UpdateStatus(p.world, local);
      assert r.Ok? && r.value == local.(version := p.world.store.clock + 1) && w2.store.cr == Some(r.value);
      QuietDeleteFinalizer(Pass(w2, r.value));
    } else {
      QuietDeleteFinalizer(Pass(p.world, local));
    }
  }

  lemma QuietDeleteFinalizer(p: Pass)
    requires Quiet(p.world) && p.world.store.cr == Some(p.cr) && Armed(p.world.store)
    ensures var (q, err) := DeleteFinalizer(p);
      var others := Without(p.cr.finalizers, ReplayFinalizer);
      && err.None? && Quiet(q.world) && q.world.store.children == p.world.store.children
      && (others == [] ==> q.world.store.cr.None?)
      && (others != [] ==> q.world.store.cr == Some(p.cr.(finalizers := others, version := p.world.store.clock + 1)))
  {
    WithoutShortens(p.cr.finalizers, ReplayFinalizer);
  }

  /** Under deletion one quiet pass either finds the queue in the way, changes nothing and asks for a
      re-run in five seconds, or lets the resource go and asks for nothing. */
  lemma QuietDeletionPass(name: string, w: World)
    requires Quiet(w) && Armed(w.store)
    ensures var (v, reply) := Reconcile(name, w);
      && Quiet(v) && v.store.children == w.store.children
      && (QueueInTheWay(w.store) ==>
            && v.store == w.store && AsksForRerun(reply) && reply.requeueAfter == 5
            && (reply.err.Some? <==> w.store.queue.Unreadable?))
      && (!QueueInTheWay(w.store) ==> Released(name, w.store.cr.value, v.store.cr) && !AsksForRerun(reply))
    ensures !QueueInTheWay(w.store) ==>
      var cr, rest := w.store.cr.value, Reconcile(name, w).0.store.cr;
      && (rest.None? <==> forall i | 0 <= i < |cr.finalizers| :: cr.finalizers[i] == ReplayFinalizer)
      && (rest.Some? ==>
            && ReplayFinalizer !in rest.value.finalizers && rest.value.deleting && rest.value.spec == cr.spec
            && HasCondition(rest.value.conditions,
                            Condition(Degraded, True, FinalizingReason, FinalizerAccomplished(name))))
  {
    QuietFetch(name, w);
    var p := Pass(Fetched(w), w.store.cr.value);
    QuietFinalize(name, p);
    ChainOnDeletion(name, p);
    var cr := w.store.cr.value;
    DeletedIsGone(cr.finalizers, ReplayFinalizer);
    NothingWithoutIff(cr.finalizers, ReplayFinalizer);
  }

  lemma {:induction false} NothingWithoutIff(xs: seq<Finalizer>, x: Finalizer)
    ensures Without(xs, x) == [] <==> forall i | 0 <= i < |xs| :: xs[i] == x
  {
    if xs != [] {
      NothingWithoutIff(xs[1..], x);
      if xs[0] == x {
        assert (forall i | 0 <= i < |xs[1..]| :: xs[1..][i] == x) ==>
          forall i | 0 < i < |xs| :: xs[i] == xs[1..][i - 1];
      }
    }
  }

  lemma ChainOnDeletion(name: string, p: Pass)
    requires p.cr.deleting
    ensures var (q, f) := Finalize(name, p);
      Chain(0, name, p) == (q, if f.ObjectUnchanged? then Reply(REQUEUE_TIME, f.err) else Reply(0, None))
  {
  }

  lemma QuietFinalize(name: string, p: Pass)
    requires Quiet(p.world) && Armed(p.world.store) && p.world.store.cr == Some(p.cr)
    ensures var (q, f) := Finalize(name, p);
      && Quiet(q.world) && q.world.store.children == p.world.store.children
      && (QueueInTheWay(p.world.store) ==>
            && q.world.store == p.world.store
            && f == ObjectUnchanged(if p.world.store.queue.Unreadable? then Some(QueueUnreadable) else None))
      && (!QueueInTheWay(p.world.store) ==> Released(name, p.cr, q.world.store.cr) && f == ObjectModified)
  {
    if !QueueInTheWay(p.world.store) {
      if p.cr.spec.ignoreSendingQueue {
        QuietRelease(name, p);
      } else {
        QuietRelease(name, Pass(ReadQueue(p.world).0, p.cr));
      }
    }
  }

  /** However often it is run, the controller waits for the queue. */
  lemma {:induction false} WaitsForTheQueue(name: string, w: World, n: nat)
    requires Quiet(w) && Armed(w.store) && QueueInTheWay(w.store)
    ensures After(name, w, n).store == w.store && Quiet(After(name, w, n))
  {
    hide Reconcile;
    if n > 0 {
      WaitsForTheQueue(name, w, n - 1);
      QuietDeletionPass(name, After(name, w, n - 1));
    }
  }
}
