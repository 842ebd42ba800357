/** The finalizer of a replay stays on until the gate opens, as long as other clients leave it alone. */
module ReplayFinalizer {
  import opened Wrappers
  import opened ReplayWorld
  import opened ReplayPass
  import opened ReplaySafety

  // ---------- Clients that leave the finalizer alone ----------

  predicate LeavesFinalizer(act: UserAct) { act.SetFinalizers? ==> ReplayFinalizer in act.finalizers }

  predicate ActsLeaveIt(acts: seq<UserAct>) { forall i | 0 <= i < |acts| :: LeavesFinalizer(acts[i]) }

  predicate Respectful(script: seq<Tick>) { forall i | 0 <= i < |script| :: ActsLeaveIt(script[i].acts) }

  predicate Held(st: Store) { st.cr.Some? && ReplayFinalizer in st.cr.value.finalizers }

  predicate Armed(st: Store) { Held(st) && st.cr.value.deleting }

  lemma {:induction false} ActsHold(st: Store, acts: seq<UserAct>)
    requires ActsLeaveIt(acts) && Held(st)
    ensures Held(Acts(st, acts)) && (Armed(st) ==> Armed(Acts(st, acts)))
    decreases |acts|
  {
    if acts != [] {
      assert LeavesFinalizer(acts[0]);
      ActsHold(Act(st, acts[0]), acts[1..]);
    }
  }

  lemma AdvanceHolds(w: World)
    requires Respectful(w.script)
    ensures Respectful(Advance(w).script) && Advance(w).log == w.log
    ensures Held(w.store) ==> Held(Advance(w).store)
    ensures Armed(w.store) ==> Armed(Advance(w).store)
  {
    if w.script != [] {
      assert ActsLeaveIt(w.script[0].acts);
      if Held(w.store) { ActsHold(w.store, w.script[0].acts); }
    }
  }

  // ---------- Held, or dropped on the record ----------

  predicate Dropped(log: seq<Event>) { exists i | 0 <= i < |log| :: Drops(log[i]) }

  /** What every call keeps; `held` says whether the pass started with the finalizer on. */
  predicate Guarded(held: bool, w: World) { Respectful(w.script) && (held ==> Held(w.store) || Dropped(w.log)) }

  lemma StaysDropped(log: seq<Event>, e: Event)
    ensures Dropped(log) ==> Dropped(log + [e])
    ensures Drops(e) ==> Dropped(log + [e])
  {
    if Dropped(log) {
      var i :| 0 <= i < |log| && Drops(log[i]);
      assert Drops((log + [e])[i]);
    }
    if Drops(e) { assert Drops((log + [e])[|log|]); }
  }

  lemma GetCRGuards(held: bool, w: World)
    requires Guarded(held, w)
    ensures Guarded(held, GetCR(w).0)
  {
    AdvanceHolds(w);
  }

  /** Whatever copy is written back. */
  lemma UpdateCRGuards(held: bool, w: World, local: CR)
    requires Guarded(held, w)
    ensures Guarded(held, UpdateCR(w, local).0)
  {
    AdvanceHolds(w);
    var v := UpdateCR(w, local).0;
    if v.log != w.log { StaysDropped(w.log, v.log[|w.log|]); }
  }

  lemma UpdateStatusGuards(held: bool, w: World, local: CR)
    requires Guarded(held, w)
    ensures Guarded(held, UpdateStatus(w, local).0)
  {
    AdvanceHolds(w);
    var v := UpdateStatus(w, local).0;
    if v.log != w.log { StaysDropped(w.log, v.log[|w.log|]); }
  }

  lemma ReadQueueGuards(held: bool, w: World)
    requires Guarded(held, w)
    ensures Guarded(held, ReadQueue(w).0)
  {
    AdvanceHolds(w);
    StaysDropped(w.log, QueueRead(ReadQueue(w).1));
  }

  lemma CreateOrUpdateGuards(held: bool, w: World, key: ChildKey, mutate: Option<Body> -> Option<Body>)
    requires Guarded(held, w)
    ensures Guarded(held, CreateOrUpdate(w, key, mutate).0)
  {
    var v := GetChild(w, key).0;
    AdvanceHolds(w);
    AdvanceHolds(v);
    StaysDropped(v.log, ChildWritten(key));
  }

  lemma ReleaseGuards(held: bool, name: string, p: Pass)
    requires Guarded(held, p.world)
    ensures Guarded(held, Release(name, p).0.world)
  {
    GetCRGuards(held, p.world);
    var (w1, got) := GetCR(p.world);
    if got.Ok? {
      var local := got.value.(conditions := SetStatusCondition(got.value.conditions, Finalizing(name)));
      UpdateStatusGuards(held, w1, local);
      var (w2, r) := UpdateStatus(w1, local);
      DeleteFinalizerGuards(held, Pass(w1, local));
      if r.Ok? { DeleteFinalizerGuards(held, Pass(w2, r.value)); }
    }
  }

  lemma DeleteFinalizerGuards(held: bool, p: Pass)
    requires Guarded(held, p.world)
    ensures Guarded(held, DeleteFinalizer(p).0.world)
  {
    UpdateCRGuards(held, p.world, p.cr.(finalizers := Without(p.cr.finalizers, ReplayFinalizer)));
  }

  lemma SynchronizedGuards(held: bool, name: string, p: Pass)
    requires Guarded(held, p.world)
    ensures Guarded(held, EnsureSynchronized(name, p).0.world)
  {
    var config := BuildConfig(name, p.cr.spec);
    if config.Ok? {
      CreateOrUpdateGuards(held, p.world, ConfigKey(name, p.cr.spec),
                           MutateConfigMap(ConfigLabels(name, p.cr.spec), config.value));
      var (w1, c) :=
        CreateOrUpdate(p.world, ConfigKey(name, p.cr.spec),
                       MutateConfigMap(ConfigLabels(name, p.cr.spec), config.value));
      if c.Ok? {
        CreateOrUpdateGuards(held, w1, DeploymentKey(name, p.cr.spec), MutateDeployment(name, p.cr.spec, c.value));
        var w2 := CreateOrUpdate(w1, DeploymentKey(name, p.cr.spec), MutateDeployment(name, p.cr.spec, c.value)).0;
        CreateOrUpdateGuards(held, w2, ServiceKey(name, p.cr.spec), MutateService(name, p.cr.spec));
      }
    }
  }

  lemma PerformGuards(held: bool, op: Operation, name: string, p: Pass)
    requires Guarded(held, p.world)
    ensures Guarded(held, Perform(op, name, p).0.world)
  {
    match op {
      case DeletionProcessed =>
        ReadQueueGuards(held, p.world);
        ReleaseGuards(held, name, p);
        ReleaseGuards(held, name, Pass(ReadQueue(p.world).0, p.cr));
      case StatusInitialized =>
        UpdateStatusGuards(held, p.world, p.cr.(conditions := SetStatusCondition(p.cr.conditions, STARTED)));
      case FinalizerInitialized =>
        UpdateCRGuards(held, p.world, p.cr.(finalizers := p.cr.finalizers + [ReplayFinalizer]));
      case Synchronized => SynchronizedGuards(held, name, p);
      case StatusSetToDone =>
        GetCRGuards(held, p.world);
        var (w, got) := GetCR(p.world);
        if got.Ok? {
          UpdateStatusGuards(held, w, got.value.(conditions := SetStatusCondition(got.value.conditions, DONE)));
        }
    }
  }

  /** What every operation keeps, the chain keeps. */
  lemma {:induction false} ChainInduction(inv: World -> bool, i: nat, name: string, p: Pass)
    requires i <= |OPERATIONS| && inv(p.world)
    requires forall op, q: Pass | inv(q.world) :: inv(Perform(op, name, q).0.world)
    ensures inv(Chain(i, name, p).0.world)
    decreases |OPERATIONS| - i
  {
    if i < |OPERATIONS| {
      var (q, o) := Perform(OPERATIONS[i], name, p);
      if Continues(o) { ChainInduction(inv, i + 1, name, q); }
    }
  }

  lemma ChainGuards(held: bool, name: string, p: Pass)
    requires Guarded(held, p.world)
    ensures Guarded(held, Chain(0, name, p).0.world)
  {
    var inv := (w: World) => Guarded(held, w);
    forall op, q: Pass | inv(q.world) ensures inv(Perform(op, name, q).0.world) { PerformGuards(held, op, name, q); }
    ChainInduction(inv, 0, name, p);
  }

  // ---------- Only a resource under deletion loses it ----------

  predicate DropsWhileDeleting(log: seq<Event>) { forall i | 0 <= i < |log| && Drops(log[i]) :: log[i].before.deleting }

  lemma AppendDropsWhileDeleting(log: seq<Event>, e: Event)
    requires DropsWhileDeleting(log) && (Drops(e) ==> e.before.deleting)
    ensures DropsWhileDeleting(log + [e])
  {
  }

  lemma DeleteFinalizerWhileDeleting(p: Pass)
    requires Respectful(p.world.script) && Armed(p.world.store) && DropsWhileDeleting(p.world.log)
    ensures DropsWhileDeleting(DeleteFinalizer(p).0.world.log)
  {
    AdvanceHolds(p.world);
    var w := DeleteFinalizer(p).0.world;
    if w.log != p.world.log { AppendDropsWhileDeleting(p.world.log, w.log[|p.world.log|]); }
  }

  lemma ReleaseWhileDeleting(name: string, p: Pass)
    requires Respectful(p.world.script) && Armed(p.world.store) && DropsWhileDeleting(p.world.log)
    ensures DropsWhileDeleting(Release(name, p).0.world.log)
  {
    AdvanceHolds(p.world);
    var (w1, got) := GetCR(p.world);
    if got.Ok? {
      var local := got.value.(conditions := SetStatusCondition(got.value.conditions, Finalizing(name)));
      AdvanceHolds(w1);
      var (w2, r) := UpdateStatus(w1, local);
      if w2.log != w1.log { AppendDropsWhileDeleting(w1.log, w2.log[|w1.log|]); }
      DeleteFinalizerWhileDeleting(Pass(w1, local));
      if r.Ok? { DeleteFinalizerWhileDeleting(Pass(w2, r.value)); }
    }
  }

  lemma DeletionProcessedWhileDeleting(name: string, p: Pass)
    requires Respectful(p.world.script) && Armed(p.world.store) && DropsWhileDeleting(p.world.log)
    ensures DropsWhileDeleting(EnsureDeletionProcessed(name, p).0.world.log)
  {
    AdvanceHolds(p.world);
    ReleaseWhileDeleting(name, p);
    var (w, reading) := ReadQueue(p.world);
    AppendDropsWhileDeleting(p.world.log, QueueRead(reading));
    ReleaseWhileDeleting(name, Pass(w, p.cr));
  }

  // ---------- Runs ----------

  /** The finalizer is taken off a resource that is being deleted, in a pass that found it so and
      found the gate open before. */
  predicate GatedDrop(log: seq<Event>, i: nat)
    requires i < |log|
  {
    && Drops(log[i]) && log[i].before.deleting
    && log[0].PassStarted? && log[0].fetched.deleting && GateOpen(log[0].fetched, log[..i])
  }

  predicate HasGatedDrop(log: seq<Event>) { exists i | 0 <= i < |log| :: GatedDrop(log, i) }

  lemma PassGuards(name: string, w: World)
    requires Respectful(w.script)
    ensures Guarded(Held(w.store), Reconcile(name, w).0)
  {
    var u := w.(log := []);
    GetCRGuards(Held(w.store), u);
    var (v, got) := GetCR(u);
    if got.Ok? {
      StaysDropped(v.log, PassStarted(got.value));
      ChainGuards(Held(w.store), name, Pass(v.(log := v.log + [PassStarted(got.value)]), got.value));
    }
  }

  lemma LiveDropsNothing(name: string, fetched: CR, log: seq<Event>)
    requires LawfulPass(name, fetched, log) && !(fetched.deleting && ReplayFinalizer in fetched.finalizers)
    ensures DropsWhileDeleting(log)
  {
    forall i | 0 <= i < |log| ensures !Drops(log[i]) { assert Lawful(name, fetched, log, i); }
  }

  /** The first operation ends every pass over a resource under deletion. */
  lemma DeletingPassIsShort(name: string, p: Pass)
    requires p.cr.deleting
    ensures Chain(0, name, p).0 == EnsureDeletionProcessed(name, p).0
  {
  }

  lemma EmptyLogDropsNothing()
    ensures DropsWhileDeleting([])
  {
  }

  lemma FetchedDropsWhileDeleting(name: string, v: World, fetched: CR)
    requires Respectful(v.script) && v.log == [PassStarted(fetched)]
    requires fetched.deleting && ReplayFinalizer in fetched.finalizers && v.store.cr == Some(fetched)
    ensures DropsWhileDeleting(Chain(0, name, Pass(v, fetched)).0.world.log)
  {
    DeletionProcessedWhileDeleting(name, Pass(v, fetched));
    DeletingPassIsShort(name, Pass(v, fetched));
  }

  lemma PassDropsWhileDeleting(name: string, w: World)
    requires Respectful(w.script) && Stamped(w.store)
    ensures DropsWhileDeleting(Reconcile(name, w).0.log)
  {
    PassIsLawful(name, w);
    var u := w.(log := []);
    AdvanceHolds(u);
    var (v, got) := GetCR(u);
    if got.Err? {
      EmptyLogDropsNothing();
    } else if got.value.deleting && ReplayFinalizer in got.value.finalizers {
      FetchedDropsWhileDeleting(name, v.(log := v.log + [PassStarted(got.value)]), got.value);
    } else {
      LiveDropsNothing(name, got.value, Reconcile(name, w).0.log);
    }
  }

  lemma PassHoldsOrDrops(name: string, w: World)
    requires Respectful(w.script) && Stamped(w.store) && Held(w.store)
    ensures Held(Reconcile(name, w).0.store) || HasGatedDrop(Reconcile(name, w).0.log)
  {
    PassGuards(name, w);
    PassIsLawful(name, w);
    PassDropsWhileDeleting(name, w);
    var log := Reconcile(name, w).0.log;
    if Dropped(log) {
      var i :| 0 <= i < |log| && Drops(log[i]);
      assert Lawful(name, log[0].fetched, log, i);
      assert GatedDrop(log, i);
    }
  }

  /** Some pass of the run so far, with an open gate, took the finalizer off. */
  predicate DroppedBy(name: string, w: World, n: nat) {
    n > 0 && (HasGatedDrop(After(name, w, n).log) || DroppedBy(name, w, n - 1))
  }

  lemma StepHoldsOrDrops(name: string, u: World)
    requires Respectful(u.script) && Stamped(u.store)
    ensures var v := Reconcile(name, u).0;
      && Respectful(v.script) && Stamped(v.store)
      && (Held(u.store) ==> Held(v.store) || HasGatedDrop(v.log))
  {
    hide Reconcile;
    PassGuards(name, u);
    PassIsLawful(name, u);
    if Held(u.store) { PassHoldsOrDrops(name, u); }
  }

  /** Over every run with other clients that leave the finalizer alone, whatever else they do and
      whichever calls fail: the resource keeps it until a pass with an open gate takes it off. */
  lemma {:induction false} HeldUntilGateOpens(name: string, w: World, n: nat)
    requires Respectful(w.script) && Stamped(w.store) && Held(w.store)
    ensures var v := After(name, w, n);
      && Respectful(v.script) && Stamped(v.store)
      && (Held(v.store) || DroppedBy(name, w, n))
  {
    hide Reconcile;
    if n > 0 {
      HeldUntilGateOpens(name, w, n - 1);
      StepHoldsOrDrops(name, After(name, w, n - 1));
    }
  }

  /** In the events of the run: some pass fetched the resource under deletion, ignored its queue or read it
      and found it not above zero, and then took the finalizer off a resource under deletion. */
  lemma {:induction false} DroppedByMeans(name: string, w: World, n: nat) returns (k: nat, i: nat, j: nat)
    requires DroppedBy(name, w, n)
    ensures 0 < k <= n
    ensures var log := After(name, w, k).log;
      && 0 < i < |log| && log[0].PassStarted? && log[0].fetched.deleting
      && log[i].CRWritten? && log[i].before.deleting
      && ReplayFinalizer in log[i].before.finalizers && ReplayFinalizer !in log[i].after.finalizers
      && (log[0].fetched.spec.ignoreSendingQueue
          || (j < i && log[j].QueueRead? && log[j].reading.Size? && log[j].reading.size <= 0.0))
  {
    hide Reconcile;
    j := 0;
    if HasGatedDrop(After(name, w, n).log) {
      k := n;
      var log := After(name, w, n).log;
      i :| 0 <= i < |log| && GatedDrop(log, i);
      if !log[0].fetched.spec.ignoreSendingQueue {
        j :| 0 <= j < i && OpensGate(log[0].fetched, log[..i][j]);
      }
    } else {
      k, i, j := DroppedByMeans(name, w, n - 1);
    }
  }
}
