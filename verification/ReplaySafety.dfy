/** What holds of the replay controller in every run, whatever the other clients do between its API
    calls and whichever calls fail. */
module ReplaySafety {
  import opened Wrappers
  import opened ReplayWorld
  import opened ReplayPass

  // ---------- The events of one pass ----------

  /** The write that takes the controller's finalizer off. */
  predicate Drops(e: Event) {
    e.CRWritten? && ReplayFinalizer in e.before.finalizers && ReplayFinalizer !in e.after.finalizers
  }

  /** The queue does not hold finalization back: it is to be ignored, or was read and found empty. */
  predicate OpensGate(fetched: CR, e: Event) {
    e.QueueRead? && e.reading.Size? && e.reading.size <= 0.0 && !fetched.spec.ignoreSendingQueue
  }

  predicate GateOpen(fetched: CR, log: seq<Event>) {
    fetched.spec.ignoreSendingQueue || exists i | 0 <= i < |log| :: OpensGate(fetched, log[i])
  }

  /** The controller's writes to the resource: its own finalizer, on or off, and nothing else. */
  predicate OwnFinalizerOnly(e: Event) {
    e.CRWritten? ==>
      && e.after.spec == e.before.spec && e.after.conditions == e.before.conditions &&
        e.after.deleting == e.before.deleting
      && (if ReplayFinalizer in e.before.finalizers
          then e.after.finalizers == Without(e.before.finalizers, ReplayFinalizer)
          else e.after.finalizers == e.before.finalizers + [ReplayFinalizer])
  }

  /** Its status writes: one of its three conditions, and nothing else. */
  predicate OwnConditionsOnly(name: string, e: Event) {
    e.StatusWritten? ==>
      && e.after.spec == e.before.spec && e.after.finalizers == e.before.finalizers &&
        e.after.deleting == e.before.deleting
      && exists c | c in {STARTED, DONE, Finalizing(name)} ::
        e.after.conditions == SetStatusCondition(e.before.conditions, c)
  }

  /** What each event of a pass must satisfy, given the resource the pass fetched and the events so far. */
  predicate Lawful(name: string, fetched: CR, log: seq<Event>, i: nat)
    requires i < |log|
  {
    var e := log[i];
    && OwnFinalizerOnly(e)
    && OwnConditionsOnly(name, e)
    && (Drops(e) ==> fetched.deleting && ReplayFinalizer in fetched.finalizers && GateOpen(fetched, log[..i]))
    && (e.ChildWritten? ==> !fetched.deleting && fetched.conditions != [] && ReplayFinalizer in fetched.finalizers)
    && (e.CRWritten? && !Drops(e) ==>
        !fetched.deleting && ReplayFinalizer !in fetched.finalizers && fetched.conditions != [])
  }

  predicate LawfulLog(name: string, fetched: CR, log: seq<Event>) {
    forall i | 0 <= i < |log| :: Lawful(name, fetched, log, i)
  }

  /** The log of a pass that fetched the resource. */
  predicate LawfulPass(name: string, fetched: CR, log: seq<Event>) {
    log != [] && log[0] == PassStarted(fetched) && LawfulLog(name, fetched, log)
  }

  lemma LawfulAppend(name: string, fetched: CR, log: seq<Event>, e: Event)
    requires LawfulPass(name, fetched, log)
    requires Lawful(name, fetched, log + [e], |log|)
    ensures LawfulPass(name, fetched, log + [e])
  {
    forall i | 0 <= i < |log| ensures Lawful(name, fetched, log + [e], i) {
      assert Lawful(name, fetched, log, i);
      assert (log + [e])[..i] == log[..i];
    }
  }

  // ---------- Versions: a stale copy never gets through ----------

  /** A copy of the resource that is either out of date or exact. */
  predicate Coherent(st: Store, c: CR) {
    && c.version <= st.clock
    && (st.cr.Some? ==> st.cr.value.version <= st.clock)
    && (st.cr.Some? && st.cr.value.version == c.version ==> st.cr.value == c)
  }

  predicate Stamped(st: Store) { st.cr.Some? ==> st.cr.value.version <= st.clock }

  lemma ActStamps(st: Store, act: UserAct)
    requires Stamped(st)
    ensures Stamped(Act(st, act))
    ensures forall c | Coherent(st, c) :: Coherent(Act(st, act), c)
  {
  }

  lemma {:induction false} ActsStamp(st: Store, acts: seq<UserAct>)
    requires Stamped(st)
    ensures Stamped(Acts(st, acts))
    ensures forall c | Coherent(st, c) :: Coherent(Acts(st, acts), c)
    decreases |acts|
  {
    if acts != [] {
      ActStamps(st, acts[0]);
      ActsStamp(Act(st, acts[0]), acts[1..]);
    }
  }

  lemma AdvanceStamps(w: World)
    requires Stamped(w.store)
    ensures Stamped(Advance(w).store) && Advance(w).log == w.log
    ensures forall c | Coherent(w.store, c) :: Coherent(Advance(w).store, c)
  {
    if w.script != [] { ActsStamp(w.store, w.script[0].acts); }
  }

  // ---------- One API call ----------

  /** What every call of a pass keeps: version stamps, and lawful events since the fetch. */
  predicate Sound(name: string, fetched: CR, w: World) {
    Stamped(w.store) && LawfulPass(name, fetched, w.log)
  }

  lemma GetCRKeeps(name: string, fetched: CR, w: World)
    requires Sound(name, fetched, w)
    ensures var (v, r) := GetCR(w);
      && Sound(name, fetched, v) && v.log == w.log
      && (r.Ok? ==> Coherent(v.store, r.value))
      && forall c | Coherent(w.store, c) :: Coherent(v.store, c)
  {
    AdvanceStamps(w);
  }

  lemma UpdateStatusKeeps(name: string, fetched: CR, w: World, base: CR, c: Condition)
    requires Sound(name, fetched, w) && Coherent(w.store, base)
    requires c in {STARTED, DONE, Finalizing(name)}
    ensures var (v, r) := UpdateStatus(w, base.(conditions := SetStatusCondition(base.conditions, c)));
      && Sound(name, fetched, v) && w.log <= v.log
      && (r.Ok? ==>
          Coherent(v.store, r.value) && r.value.finalizers == base.finalizers && r.value.deleting == base.deleting)
  {
    AdvanceStamps(w);
    var v := UpdateStatus(w, base.(conditions := SetStatusCondition(base.conditions, c))).0;
    if v.log != w.log {
      var e := v.log[|w.log|];
      assert v.log == w.log + [e] && e.before == base;
      LawfulAppend(name, fetched, w.log, e);
    }
  }

  lemma {:induction false} DeletedIsGone(xs: seq<Finalizer>, x: Finalizer)
    ensures x !in Without(xs, x)
  {
    if xs != [] { DeletedIsGone(xs[1..], x); }
  }

  lemma DropFinalizerKeeps(name: string, fetched: CR, w: World, base: CR)
    requires Sound(name, fetched, w) && Coherent(w.store, base)
    requires ReplayFinalizer in base.finalizers
    requires fetched.deleting && ReplayFinalizer in fetched.finalizers && GateOpen(fetched, w.log)
    ensures Sound(name, fetched, UpdateCR(w, base.(finalizers := Without(base.finalizers, ReplayFinalizer))).0)
  {
    AdvanceStamps(w);
    DeletedIsGone(base.finalizers, ReplayFinalizer);
    var v := UpdateCR(w, base.(finalizers := Without(base.finalizers, ReplayFinalizer))).0;
    if v.log != w.log {
      var e := v.log[|w.log|];
      assert v.log == w.log + [e] && e.before == base;
      assert (w.log + [e])[..|w.log|] == w.log;
      LawfulAppend(name, fetched, w.log, e);
    }
  }

  lemma AddFinalizerKeeps(name: string, fetched: CR, w: World)
    requires Sound(name, fetched, w) && Coherent(w.store, fetched)
    requires !fetched.deleting && fetched.conditions != [] && ReplayFinalizer !in fetched.finalizers
    ensures Sound(name, fetched, UpdateCR(w, fetched.(finalizers := fetched.finalizers + [ReplayFinalizer])).0)
  {
    AdvanceStamps(w);
    var v := UpdateCR(w, fetched.(finalizers := fetched.finalizers + [ReplayFinalizer])).0;
    if v.log != w.log {
      var e := v.log[|w.log|];
      assert v.log == w.log + [e] && e.before == fetched;
      assert e.after.finalizers[|fetched.finalizers|] == ReplayFinalizer;
      LawfulAppend(name, fetched, w.log, e);
    }
  }

  lemma ReadQueueKeeps(name: string, fetched: CR, w: World)
    requires Sound(name, fetched, w)
    ensures var (v, reading) := ReadQueue(w);
      && Sound(name, fetched, v) && v.log == w.log + [QueueRead(reading)]
      && forall c | Coherent(w.store, c) :: Coherent(v.store, c)
  {
    AdvanceStamps(w);
    LawfulAppend(name, fetched, w.log, QueueRead(ReadQueue(w).1));
  }

  lemma CreateOrUpdateKeeps(name: string, fetched: CR, w: World, key: ChildKey, mutate: Option<Body> -> Option<Body>)
    requires Sound(name, fetched, w)
    requires !fetched.deleting && fetched.conditions != [] && ReplayFinalizer in fetched.finalizers
    ensures Sound(name, fetched, CreateOrUpdate(w, key, mutate).0)
  {
    var v := GetChild(w, key).0;
    AdvanceStamps(w);
    AdvanceStamps(v);
    LawfulAppend(name, fetched, v.log, ChildWritten(key));
  }

  // ---------- One operation ----------

  lemma ReleaseKeeps(name: string, fetched: CR, p: Pass)
    requires Sound(name, fetched, p.world)
    requires fetched.deleting && ReplayFinalizer in fetched.finalizers && GateOpen(fetched, p.world.log)
    ensures Sound(name, fetched, Release(name, p).0.world)
  {
    GetCRKeeps(name, fetched, p.world);
    var (w1, got) := GetCR(p.world);
    if got.Ok? {
      var conditions := SetStatusCondition(got.value.conditions, Finalizing(name));
      var local := got.value.(conditions := conditions);
      if conditions != got.value.conditions {
        UpdateStatusKeeps(name, fetched, w1, got.value, Finalizing(name));
        var (w2, r) := UpdateStatus(w1, local);
        GateStaysOpen(fetched, w1.log, w2.log);
        if r.Ok? && ReplayFinalizer in r.value.finalizers { DropFinalizerKeeps(name, fetched, w2, r.value); }
      } else {
        assert local == got.value;
        if ReplayFinalizer in local.finalizers { DropFinalizerKeeps(name, fetched, w1, local); }
      }
    }
  }

  lemma GateStaysOpen(fetched: CR, log: seq<Event>, longer: seq<Event>)
    requires GateOpen(fetched, log) && log <= longer
    ensures GateOpen(fetched, longer)
  {
    if !fetched.spec.ignoreSendingQueue {
      var i :| 0 <= i < |log| && OpensGate(fetched, log[i]);
      assert longer[i] == log[i];
    }
  }

  lemma DeletionProcessedKeeps(name: string, p: Pass)
    requires Sound(name, p.cr, p.world)
    ensures Sound(name, p.cr, EnsureDeletionProcessed(name, p).0.world)
  {
    if p.cr.deleting && ReplayFinalizer in p.cr.finalizers {
      if p.cr.spec.ignoreSendingQueue {
        ReleaseKeeps(name, p.cr, p);
      } else {
        ReadQueueKeeps(name, p.cr, p.world);
        var (w, reading) := ReadQueue(p.world);
        if reading.Size? && reading.size <= 0.0 {
          assert OpensGate(p.cr, w.log[|w.log| - 1]);
          ReleaseKeeps(name, p.cr, Pass(w, p.cr));
        }
      }
    }
  }

  lemma SynchronizedKeeps(name: string, p: Pass)
    requires Sound(name, p.cr, p.world)
    requires !p.cr.deleting && p.cr.conditions != [] && ReplayFinalizer in p.cr.finalizers
    ensures Sound(name, p.cr, EnsureSynchronized(name, p).0.world)
    ensures EnsureSynchronized(name, p).0.cr == p.cr
  {
    var config := BuildConfig(name, p.cr.spec);
    if config.Ok? {
      CreateOrUpdateKeeps(name, p.cr, p.world, ConfigKey(name, p.cr.spec),
                          MutateConfigMap(ConfigLabels(name, p.cr.spec), config.value));
      var (w1, c) :=
        CreateOrUpdate(p.world, ConfigKey(name, p.cr.spec),
                       MutateConfigMap(ConfigLabels(name, p.cr.spec), config.value));
      if c.Ok? {
        CreateOrUpdateKeeps(name, p.cr, w1, DeploymentKey(name, p.cr.spec), MutateDeployment(name, p.cr.spec, c.value));
        var (w2, d) := CreateOrUpdate(w1, DeploymentKey(name, p.cr.spec), MutateDeployment(name, p.cr.spec, c.value));
        if d.Ok? {
          CreateOrUpdateKeeps(name, p.cr, w2, ServiceKey(name, p.cr.spec), MutateService(name, p.cr.spec));
        }
      }
    }
  }

  lemma StatusSetToDoneKeeps(name: string, fetched: CR, p: Pass)
    requires Sound(name, fetched, p.world)
    ensures Sound(name, fetched, EnsureStatusSetToDone(p).0.world)
  {
    GetCRKeeps(name, fetched, p.world);
    var (w1, got) := GetCR(p.world);
    if got.Ok? { UpdateStatusKeeps(name, fetched, w1, got.value, DONE); }
  }

  // ---------- One pass ----------

  /** What is known when operation number i starts. */
  predicate Ready(i: nat, name: string, fetched: CR, p: Pass) {
    && Sound(name, fetched, p.world)
    && (i <= 3 ==> p.cr == fetched)
    && (i <= 2 ==> Coherent(p.world.store, fetched))
    && (i >= 1 ==> !fetched.deleting)
    && (i >= 2 ==> fetched.conditions != [])
    && (i >= 3 ==> ReplayFinalizer in fetched.finalizers)
  }

  lemma PerformKeeps(i: nat, name: string, fetched: CR, p: Pass)
    requires i < |OPERATIONS| && Ready(i, name, fetched, p)
    ensures var (q, o) := Perform(OPERATIONS[i], name, p);
      Sound(name, fetched, q.world) && (Continues(o) ==> Ready(i + 1, name, fetched, q))
  {
    match i {
      case 0 => DeletionProcessedKeeps(name, p);
      case 1 => if fetched.conditions == [] { UpdateStatusKeeps(name, fetched, p.world, fetched, STARTED); }
      case 2 => if ReplayFinalizer !in fetched.finalizers { AddFinalizerKeeps(name, fetched, p.world); }
      case 3 => SynchronizedKeeps(name, p);
      case _ => StatusSetToDoneKeeps(name, fetched, p);
    }
  }

  lemma {:induction false} ChainKeeps(i: nat, name: string, fetched: CR, p: Pass)
    requires i <= |OPERATIONS| && Ready(i, name, fetched, p)
    ensures Sound(name, fetched, Chain(i, name, p).0.world)
    decreases |OPERATIONS| - i
  {
    if i < |OPERATIONS| {
      PerformKeeps(i, name, fetched, p);
      var (q, o) := Perform(OPERATIONS[i], name, p);
      if Continues(o) { ChainKeeps(i + 1, name, fetched, q); }
    }
  }

  /** A pass that got no resource did nothing; any other is lawful from its fetch on. */
  predicate LawfulRun(name: string, log: seq<Event>) {
    log == [] || (log[0].PassStarted? && LawfulPass(name, log[0].fetched, log))
  }

  lemma PassIsLawful(name: string, w: World)
    requires Stamped(w.store)
    ensures Stamped(Reconcile(name, w).0.store)
    ensures LawfulRun(name, Reconcile(name, w).0.log)
    ensures var got := GetCR(w.(log := [])).1; got.Ok? ==> LawfulPass(name, got.value, Reconcile(name, w).0.log)
  {
    var u := w.(log := []);
    AdvanceStamps(u);
    var (v, got) := GetCR(u);
    if got.Ok? {
      var x := v.(log := v.log + [PassStarted(got.value)]);
      assert x.log == [PassStarted(got.value)];
      ChainKeeps(0, name, got.value, Pass(x, got.value));
    }
  }

  // ---------- Every run ----------

  /** Every pass of every run is lawful: the finalizer goes only from a resource under deletion once
      the gate is open, children are written only for a live resource that has a condition and the
      finalizer, and no write loses another client's change. */
  lemma {:induction false} EveryRunIsLawful(name: string, w: World, n: nat)
    requires Stamped(w.store) && w.log == []
    ensures Stamped(After(name, w, n).store)
    ensures LawfulRun(name, After(name, w, n).log)
  {
    hide Reconcile;
    if n > 0 {
      EveryRunIsLawful(name, w, n - 1);
      PassIsLawful(name, After(name, w, n - 1));
    }
  }

  /** Event by event, for any pass of any run: a write to the resource adds the controller's finalizer, for a
      live one with a condition and without it, or takes it off, for one under deletion that has it, once the
      queue is ignored or was read and not above zero, and changes nothing else; a status write sets one of the
      controller's three conditions and changes nothing else; a child is written for a live resource with a
      condition and the finalizer. */
  lemma EventsOfRun(name: string, w: World, n: nat, i: nat)
    requires Stamped(w.store) && w.log == [] && i < |After(name, w, n).log|
    ensures var log := After(name, w, n).log;
      && log[0].PassStarted?
      && var fetched, e := log[0].fetched, log[i];
      && (e.CRWritten? ==>
            && e.after.spec == e.before.spec && e.after.conditions == e.before.conditions
            && e.after.deleting == e.before.deleting
            && (ReplayFinalizer in e.before.finalizers ==>
                  && e.after.finalizers == Without(e.before.finalizers, ReplayFinalizer)
                  && fetched.deleting && ReplayFinalizer in fetched.finalizers
                  && (fetched.spec.ignoreSendingQueue
                      || exists j | 0 <= j < i ::
                        log[j].QueueRead? && log[j].reading.Size? && log[j].reading.size <= 0.0))
            && (ReplayFinalizer !in e.before.finalizers ==>
                  && e.after.finalizers == e.before.finalizers + [ReplayFinalizer]
                  && !fetched.deleting && fetched.conditions != [] && ReplayFinalizer !in fetched.finalizers))
      && (e.StatusWritten? ==>
            && e.after.spec == e.before.spec && e.after.finalizers == e.before.finalizers
            && e.after.deleting == e.before.deleting
            && exists c | c in {Condition(Available, Unknown, Reconciling, StartingReconciliation),
                                Condition(Available, True, Reconciling, ReconciledSuccessfully),
                                Condition(Degraded, True, FinalizingReason, FinalizerAccomplished(name))} ::
                 e.after.conditions == SetStatusCondition(e.before.conditions, c))
      && (e.ChildWritten? ==> !fetched.deleting && fetched.conditions != [] && ReplayFinalizer in fetched.finalizers)
  {
    hide Reconcile;
    EveryRunIsLawful(name, w, n);
    var log := After(name, w, n).log;
    var fetched, e := log[0].fetched, log[i];
    assert Lawful(name, fetched, log, i);
    if e.CRWritten? && ReplayFinalizer in e.before.finalizers {
      DeletedIsGone(e.before.finalizers, ReplayFinalizer);
      if !fetched.spec.ignoreSendingQueue {
        var j :| 0 <= j < i && OpensGate(fetched, log[..i][j]);
        assert log[..i][j] == log[j];
      }
    } else if e.CRWritten? {
      assert e.after.finalizers[|e.before.finalizers|] == ReplayFinalizer;
    }
  }
}
