/** When the runtime is asked to run a replay again, and exactly which failing calls it is not told of. */
module ReplayRequeue {
  import opened Wrappers
  import opened ReplayWorld
  import opened ReplayPass
  import opened ReplaySafety
  import opened ReplayFinalizer
  import opened ReplayConvergence

  // ---------- Which requeues reach the runtime ----------

  lemma DoneNeverAsks(p: Pass)
    ensures var o := EnsureStatusSetToDone(p).1; o == ContinueProcessing() || o == Requeue()
  {
  }

  lemma SynchronizedOutcomes(name: string, p: Pass)
    ensures var o := EnsureSynchronized(name, p).1;
      (o.err.Some? && o.result == RequeueWithError(o.err.value).result) || o == Requeue() || o == ContinueProcessing()
  {
  }

  lemma TailReply(name: string, p: Pass)
    ensures var o := EnsureSynchronized(name, p).1;
      Chain(3, name, p).1 == (if o.err.Some? then Reply(0, o.err) else Reply(0, None))
    ensures var o := EnsureSynchronized(name, p).1; o.err.Some? || o == Requeue() || Continues(o)
  {
    hide EnsureSynchronized, EnsureStatusSetToDone;
    SynchronizedOutcomes(name, p);
    var (q, o) := EnsureSynchronized(name, p);
    if Continues(o) {
      DoneNeverAsks(q);
      assert Chain(5, name, EnsureStatusSetToDone(q).0).1 == Reply(0, None);
      assert Chain(4, name, q).1 == Reply(0, None);
    }
  }

  // ---------- Which calls get through ----------

  function MutatedRead(w: World, key: ChildKey, mutate: Option<Body> -> Option<Body>): Option<Body>
    requires GetChild(w, key).1.Ok?
  {
    var read := GetChild(w, key).1.value;
    mutate(if read.Some? then Some(read.value.body) else None)
  }

  /** The helper reads a child and then writes it, because it does not see one or the mutation changes it. */
  predicate WriteFollows(w: World, key: ChildKey, mutate: Option<Body> -> Option<Body>) {
    var read := GetChild(w, key).1;
    && read.Ok? && MutatedRead(w, key, mutate).Some?
    && (read.value.None? || MutatedRead(w, key, mutate).value != read.value.value.body)
  }

  predicate MeetsConflict(w: World, key: ChildKey, mutate: Option<Body> -> Option<Body>) {
    NextFault(w) == Fail(Conflict) || (WriteFollows(w, key, mutate) && NextFault(GetChild(w, key).0) == Fail(Conflict))
  }

  /** A panic: what was read has no map to write into. */
  predicate MeetsNil(w: World, key: ChildKey, mutate: Option<Body> -> Option<Body>) {
    GetChild(w, key).1.Ok? && MutatedRead(w, key, mutate).None?
  }

  /** The child is not there or can be read, the read is answered rightly, the mutation does not panic, and
      the write is answered rightly if one follows. */
  predicate GetsThrough(w: World, key: ChildKey, mutate: Option<Body> -> Option<Body>) {
    && CanBeRead(w.store, key)
    && (NextFault(w) == NoFault || (NextFault(w) == Fail(NotFound) && key !in w.store.children))
    && !MeetsNil(w, key, mutate)
    && (WriteFollows(w, key, mutate) ==> NextFault(GetChild(w, key).0) == NoFault)
  }

  lemma CreateOrUpdateOutcomeIff(w: World, key: ChildKey, mutate: Option<Body> -> Option<Body>)
    requires Alone(w)
    ensures var r := CreateOrUpdate(w, key, mutate).1;
      && (r.Ok? <==> GetsThrough(w, key, mutate))
      && (r == Err(Call(Conflict)) <==> MeetsConflict(w, key, mutate))
      && (r == Err(NilMap) <==> MeetsNil(w, key, mutate))
  {
    AloneAdvance(w);
    AloneAdvance(GetChild(w, key).0);
  }

  // ---------- Passes that stall ----------

  predicate ReportFails(w: World) { NextFault(w) != NoFault || NextFault(GetCR(w).0).Fail? }

  /** From the calls on the children on: the ConfigMap is written, and then either a call on the deployment
      meets a conflict before everything was settled, or the other children are written too and the
      closing read or status write fails although the resource is not yet reported available. */
  predicate TailStalls(name: string, cr: CR, w: World) {
    var spec := cr.spec;
    && BuildConfig(name, spec).Ok?
    && var (w1, c) := CreateOrUpdate(w, ConfigKey(name, spec), WantedConfigMap(name, spec));
    && c.Ok?
    && var deploy := MutateDeployment(name, spec, c.value);
       if MeetsConflict(w1, DeploymentKey(name, spec), deploy) then !Settled(name, w1.store)
       else
         var (w2, d) := CreateOrUpdate(w1, DeploymentKey(name, spec), deploy);
         var (w3, s) := CreateOrUpdate(w2, ServiceKey(name, spec), MutateService(name, spec));
         d.Ok? && s.Ok? && !HasCondition(cr.conditions, DONE) && ReportFails(w3)
  }

  /** Or the fetch fails with an answer that reads as if the resource were gone. */
  predicate Stalls(name: string, w: World)
    requires w.store.cr.Some?
  {
    if NextFault(w) == NoFault then TailStalls(name, w.store.cr.value, GetCR(Fetched(w)).0)
    else NextFault(w) == Fail(NotFound) && !Settled(name, w.store)
  }

  lemma ReportOutcome(name: string, p: Pass)
    requires Alone(p.world) && p.world.store.cr == Some(p.cr) && !p.cr.deleting && ReplayFinalizer in p.cr.finalizers
    requires ChildrenMatch(name, p.cr.spec, p.world.store)
    ensures var st := EnsureStatusSetToDone(p).0.world.store;
      !Settled(name, st) <==> !HasCondition(p.cr.conditions, DONE) && ReportFails(p.world)
    ensures var st := EnsureStatusSetToDone(p).0.world.store;
      !Settled(name, st) ==> st == p.world.store
  {
    SetConditionHolds(p.cr.conditions, DONE);
    AloneAdvance(p.world);
    AloneAdvance(GetCR(p.world).0);
    SameChildren(name, p.cr.spec, p.world.store, EnsureStatusSetToDone(p).0.world.store);
  }

  lemma DeploymentStep(name: string, spec: ReplaySpec, w: World, c: Child)
    requires Alone(w) && ConfigMatches(name, spec, w.store) && w.store.children[ConfigKey(name, spec)] == c
    ensures var mutate := MutateDeployment(name, spec, c);
      var (v, d) := CreateOrUpdate(w, DeploymentKey(name, spec), mutate);
      && Alone(v) && v.store.cr == w.store.cr
      && (MeetsConflict(w, DeploymentKey(name, spec), mutate) <==> d == Err(Call(Conflict)))
      && (d == Err(Call(Conflict)) ==> v.store == w.store)
      && (d.Ok? ==> ConfigMatches(name, spec, v.store) && DeploymentMatches(name, spec, v.store))
  {
    hide MeetsConflict;
    AloneDeployment(name, spec, w, c);
    CreateOrUpdateOutcomeIff(w, DeploymentKey(name, spec), MutateDeployment(name, spec, c));
  }

  lemma ServiceAndReport(name: string, cr: CR, w: World)
    requires Alone(w) && w.store.cr == Some(cr) && !cr.deleting && ReplayFinalizer in cr.finalizers
    requires ConfigMatches(name, cr.spec, w.store) && DeploymentMatches(name, cr.spec, w.store)
    ensures var (v, s) := CreateOrUpdate(w, ServiceKey(name, cr.spec), MutateService(name, cr.spec));
      s.Ok? ==>
        var st := EnsureStatusSetToDone(Pass(v, cr)).0.world.store;
        && (!Settled(name, st) <==> !HasCondition(cr.conditions, DONE) && ReportFails(v))
        && (!Settled(name, st) ==> st.cr == w.store.cr)
  {
    AloneService(name, cr.spec, w);
    var (v, s) := CreateOrUpdate(w, ServiceKey(name, cr.spec), MutateService(name, cr.spec));
    if s.Ok? { ReportOutcome(name, Pass(v, cr)); }
  }

  lemma TailWorld(name: string, p: Pass)
    ensures var (q, o) := EnsureSynchronized(name, p);
      Chain(3, name, p).0 == if Continues(o) then EnsureStatusSetToDone(q).0 else q
  {
    var (q, o) := EnsureSynchronized(name, p);
    if Continues(o) { DoneNeverAsks(q); }
  }

  /** The pass ends with a store that is not settled, and nobody is asked to run it again. */
  predicate EndsStalled(name: string, st: Store, reply: Reply) { !Settled(name, st) && !AsksForRerun(reply) }

  lemma TailStallsIff(name: string, p: Pass)
    requires Alone(p.world) && p.world.store.cr == Some(p.cr) && !p.cr.deleting && ReplayFinalizer in p.cr.finalizers
    ensures var (x, reply) := Chain(3, name, p);
      && (EndsStalled(name, x.world.store, reply) <==> TailStalls(name, p.cr, p.world))
      && (EndsStalled(name, x.world.store, reply) ==> x.world.store.cr == p.world.store.cr)
  {
    hide Chain, MeetsConflict, CreateOrUpdate, ReportFails, EnsureStatusSetToDone, Settled;
    TailReply(name, p);
    TailWorld(name, p);
    var spec := p.cr.spec;
    if BuildConfig(name, spec).Ok? {
      AloneConfig(name, spec, p.world);
      var (w1, c) := CreateOrUpdate(p.world, ConfigKey(name, spec), WantedConfigMap(name, spec));
      if c.Ok? {
        DeploymentStep(name, spec, w1, c.value);
        var (w2, d) := CreateOrUpdate(w1, DeploymentKey(name, spec), MutateDeployment(name, spec, c.value));
        if d.Ok? {
          ServiceAndReport(name, p.cr, w2);
          var (w3, s) := CreateOrUpdate(w2, ServiceKey(name, spec), MutateService(name, spec));
          var (q, o) := EnsureSynchronized(name, p);
          assert s.Ok? ==> q == Pass(w3, p.cr) && Continues(o);
          assert TailStalls(name, p.cr, p.world) <==> s.Ok? && !HasCondition(p.cr.conditions, DONE) && ReportFails(w3);
        }
      }
    }
  }

  /** A pass over a prepared live resource, with nobody else about, ends stalled if and only if the
      failing calls are of that kind; and the resource is then as it was, so no event of it brings
      another pass about either. */
  lemma PassStallsIff(name: string, w: World)
    requires Alone(w) && Live(w.store) && Prepared(w.store.cr.value)
    ensures var (v, reply) := Reconcile(name, w);
      && (!Settled(name, v.store) && reply == Reply(0, None) <==> Stalls(name, w))
      && (Stalls(name, w) ==> v.store.cr == w.store.cr)
  {
    hide Reconcile;
    if NextFault(w) == NoFault {
      AloneFetch(name, w);
      AloneAdvance(Fetched(w));
      var p := Pass(GetCR(Fetched(w)).0, w.store.cr.value);
      PreparedChain(name, p);
      TailStallsIff(name, p);
    } else {
      FailedFetch(name, w);
      var (v, reply) := Reconcile(name, w);
      assert reply == Reply(0, None) <==> !AsksForRerun(reply);
    }
  }

  lemma AloneFetch(name: string, w: World)
    requires Alone(w) && w.store.cr.Some? && NextFault(w) == NoFault
    ensures var p := Pass(GetCR(Fetched(w)).0, w.store.cr.value);
      Reconcile(name, w) == (Chain(0, name, p).0.world, Chain(0, name, p).1)
  {
    hide Chain;
    AloneAdvance(w);
    var v := GetCR(w.(log := [])).0;
    assert v.(log := v.log + [PassStarted(w.store.cr.value)]) == GetCR(Fetched(w)).0;
  }

  lemma FailedFetch(name: string, w: World)
    requires Alone(w) && NextFault(w) != NoFault
    ensures var (v, reply) := Reconcile(name, w);
      v.store == w.store && (AsksForRerun(reply) <==> NextFault(w) != Fail(NotFound))
  {
    hide Chain;
    AloneAdvance(w);
  }

  // ---------- A run that stalls ----------

  const CALM := Tick([], NoFault)

  lemma CalmAdvance(w: World)
    requires w.script != [] && w.script[0] == CALM
    ensures Advance(w) == w.(script := w.script[1..]) && NextFault(w) == NoFault
  {
  }

  lemma CalmMatchedChild(w: World, key: ChildKey, mutate: Option<Body> -> Option<Body>)
    requires w.script != [] && w.script[0] == CALM && key in w.store.children
    requires Visible(w.store.children[key].body)
    requires mutate(Some(w.store.children[key].body)) == Some(w.store.children[key].body)
    ensures CreateOrUpdate(w, key, mutate) == (w.(script := w.script[1..]), Ok(w.store.children[key]))
  {
    CalmAdvance(w);
  }

  lemma CalmMatchedSynchronized(name: string, p: Pass)
    requires |p.world.script| >= 3 && p.world.script[0] == p.world.script[1] == p.world.script[2] == CALM
    requires ChildrenMatch(name, p.cr.spec, p.world.store)
    ensures EnsureSynchronized(name, p) == (Pass(p.world.(script := p.world.script[3..]), p.cr), ContinueProcessing())
  {
    var spec, st, app := p.cr.spec, p.world.store, ResourceName(name, p.cr.spec, "collector");
    var c, d := st.children[ConfigKey(name, spec)], st.children[DeploymentKey(name, spec)];
    var s := st.children[ServiceKey(name, spec)];
    var config := BuildConfig(name, spec).value;
    ConfigMapFixpoint(ConfigLabels(name, spec), config, Some(c.body));
    LabelsFixpoint(d.body.labels, name, app);
    LabelsFixpoint(s.body.labels, name, app);
    assert ManagedByLabel in OwnLabels(name, app);
    var w1, w2 := p.world.(script := p.world.script[1..]), p.world.(script := p.world.script[2..]);
    CalmMatchedChild(p.world, ConfigKey(name, spec), WantedConfigMap(name, spec));
    CalmMatchedChild(w1, DeploymentKey(name, spec), MutateDeployment(name, spec, c));
    assert w1.script[1..] == p.world.script[2..];
    CalmMatchedChild(w2, ServiceKey(name, spec), MutateService(name, spec));
    assert w2.script[1..] == p.world.script[3..];
  }

  /** Every call succeeds but the last, which was to record that the replay is available. */
  function LastCallFails(st: Store, e: ApiError): World {
    World(st, [CALM, CALM, CALM, CALM, CALM, Tick([], Fail(e))], [])
  }

  lemma FailedDone(p: Pass, e: ApiError)
    requires p.world.script == [CALM, Tick([], Fail(e))] && p.world.store.cr.Some?
    ensures var (q, o) := EnsureStatusSetToDone(p);
      q.world == p.world.(script := []) && o == Requeue()
  {
    CalmAdvance(p.world);
    assert p.world.script[1..] == [Tick([], Fail(e))];
  }

  lemma CalmFetch(name: string, st: Store, rest: seq<Tick>)
    requires st.cr.Some?
    ensures var p := Pass(World(st, rest, [PassStarted(st.cr.value)]), st.cr.value);
      Reconcile(name, World(st, [CALM] + rest, [])) == (Chain(0, name, p).0.world, Chain(0, name, p).1)
  {
    var u := World(st, [CALM] + rest, []);
    CalmAdvance(u);
    assert u.script[1..] == rest;
    assert u.log + [PassStarted(st.cr.value)] == [PassStarted(st.cr.value)];
  }

  lemma FailedTail(name: string, p: Pass, e: ApiError)
    requires p.world.script == [CALM, CALM, CALM, CALM, Tick([], Fail(e))] && p.world.store.cr == Some(p.cr)
    requires ChildrenMatch(name, p.cr.spec, p.world.store)
    ensures var (q, reply) := Chain(3, name, p); q.world.store == p.world.store && reply == Reply(0, None)
  {
    hide Chain, EnsureSynchronized, EnsureStatusSetToDone, ChildrenMatch;
    CalmMatchedSynchronized(name, p);
    var q := Pass(p.world.(script := [CALM, Tick([], Fail(e))]), p.cr);
    assert p.world.script[3..] == q.world.script;
    TailReply(name, p);
    TailWorld(name, p);
    FailedDone(q, e);
  }

  /** The pass then leaves the store as it was, not settled, and asks for nothing: since it changed
      nothing either, no event of the resource brings another pass about. */
  lemma FailedReportStalls(name: string, st: Store, e: ApiError)
    requires Live(st) && Prepared(st.cr.value) && ChildrenMatch(name, st.cr.value.spec, st)
    requires !HasCondition(st.cr.value.conditions, DONE)
    ensures var (v, reply) := Reconcile(name, LastCallFails(st, e));
      && v.store == st && !AsksForRerun(reply) && !Settled(name, v.store)
  {
    var rest := [CALM, CALM, CALM, CALM, Tick([], Fail(e))];
    assert LastCallFails(st, e).script == [CALM] + rest;
    CalmFetch(name, st, rest);
    var p := Pass(World(st, rest, [PassStarted(st.cr.value)]), st.cr.value);
    PreparedChain(name, p);
    FailedTail(name, p, e);
  }
}
