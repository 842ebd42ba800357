/** When a pass takes the finalizer off a resource that nobody asked to delete. */
module ReplayLiveDrop {
  import opened Wrappers
  import opened ReplayWorld
  import opened ReplayPass
  import opened ReplaySafety
  import opened ReplayFinalizer
  import opened ReplayConvergence
  import opened ReplayRequeue

  // ---------- Letting go ----------

  /** The next call is a write that takes effect on this version of the resource. */
  predicate TakesEffect(w: World, version: nat) {
    var cr := Advance(w).store.cr;
    !NextFault(w).Fail? && cr.Some? && cr.value.version == version
  }

  function Noted(name: string, cr: CR): CR { cr.(conditions := SetStatusCondition(cr.conditions, Finalizing(name))) }

  /** The copy read again carries the finalizer, and what is then written gets through: the condition,
      unless it is there, with an answer, and the removal of the finalizer. */
  predicate GoesThrough(name: string, w: World) {
    var (w1, got) := GetCR(w);
    && got.Ok? && ReplayFinalizer in got.value.finalizers
    && TakesEffect(w1, got.value.version)
    && (HasCondition(got.value.conditions, Finalizing(name))
        || (NextFault(w1) == NoFault &&
            TakesEffect(UpdateStatus(w1, Noted(name, got.value)).0, Advance(w1).store.clock + 1)))
  }

  /** From event n on, the only drops are those of a copy that is deleting exactly if cr is. */
  predicate DropsFrom(log: seq<Event>, n: nat, cr: CR) {
    forall i | n <= i < |log| && Drops(log[i]) :: log[i].before.deleting == cr.deleting
  }

  predicate DroppedFrom(log: seq<Event>, n: nat) { exists i | n <= i < |log| :: Drops(log[i]) }

  lemma DeleteFinalizerDropsIff(p: Pass)
    requires Stamped(p.world.store) && Coherent(p.world.store, p.cr)
    ensures var log, before := DeleteFinalizer(p).0.world.log, p.world.log;
      && before <= log && DropsFrom(log, |before|, p.cr)
      && (DroppedFrom(log, |before|) <==> ReplayFinalizer in p.cr.finalizers && TakesEffect(p.world, p.cr.version))
  {
    AdvanceStamps(p.world);
    DeletedIsGone(p.cr.finalizers, ReplayFinalizer);
    var log, before := DeleteFinalizer(p).0.world.log, p.world.log;
    if ReplayFinalizer in p.cr.finalizers && TakesEffect(p.world, p.cr.version) {
      assert Drops(log[|before|]);
    }
  }

  lemma StatusStep(name: string, w: World, cr: CR)
    requires Stamped(w.store) && Coherent(w.store, cr) && !HasCondition(cr.conditions, Finalizing(name))
    ensures var (v, r) := UpdateStatus(w, Noted(name, cr));
      && Stamped(v.store) && w.log <= v.log && (forall i | |w.log| <= i < |v.log| :: v.log[i].StatusWritten?)
      && (r.Ok? <==> NextFault(w) == NoFault && TakesEffect(w, cr.version))
      && (r.Ok? ==> Coherent(v.store, r.value) && r.value == Noted(name, cr).(version := Advance(w).store.clock + 1))
  {
    AdvanceStamps(w);
    SetConditionHolds(cr.conditions, Finalizing(name));
  }

  /** Letting go drops the finalizer exactly if all of that goes through, from a resource that is under
      deletion exactly if the copy read again is: `finalize` does not look at that a second time. */
  lemma ReleaseDropsIff(name: string, p: Pass)
    requires Stamped(p.world.store)
    ensures var log, before, got := Release(name, p).0.world.log, p.world.log, GetCR(p.world).1;
      && before <= log && (got.Err? ==> log == before)
      && (got.Ok? ==> DropsFrom(log, |before|, got.value))
      && (DroppedFrom(log, |before|) <==> GoesThrough(name, p.world))
  {
    AdvanceStamps(p.world);
    var (w1, got) := GetCR(p.world);
    if got.Ok? {
      var cr := got.value;
      SetConditionHolds(cr.conditions, Finalizing(name));
      if HasCondition(cr.conditions, Finalizing(name)) {
        assert Noted(name, cr) == cr;
        DeleteFinalizerDropsIff(Pass(w1, cr));
      } else {
        StatusStep(name, w1, cr);
        var (w2, r) := UpdateStatus(w1, Noted(name, cr));
        if r.Ok? { DeleteFinalizerDropsIff(Pass(w2, r.value)); }
      }
    }
  }

  // ---------- A pass ----------

  predicate DropsFromLive(log: seq<Event>) { exists i | 0 <= i < |log| :: Drops(log[i]) && !log[i].before.deleting }

  /** The copy read again is live and loses its finalizer. */
  predicate LetsGoOfLive(name: string, w: World) {
    GetCR(w).1.Ok? && !GetCR(w).1.value.deleting && GoesThrough(name, w)
  }

  /** Where letting go starts, if the pass gets there. */
  function AtRelease(w: World): Option<World> {
    var (v, got) := GetCR(w.(log := []));
    if got.Err? || !got.value.deleting || ReplayFinalizer !in got.value.finalizers then None
    else
      var u := v.(log := v.log + [PassStarted(got.value)]);
      var (x, reading) := ReadQueue(u);
      if got.value.spec.ignoreSendingQueue then Some(u)
      else if reading.Size? && reading.size <= 0.0 then Some(x)
      else None
  }

  /** A pass takes the finalizer off a live resource if and only if it fetched one under deletion, found
      the gate open, read a live one again and got its writes through. */
  lemma LiveResourceLosesFinalizerIff(name: string, w: World)
    requires Stamped(w.store)
    ensures DropsFromLive(Reconcile(name, w).0.log) <==>
      AtRelease(w).Some? && LetsGoOfLive(name, AtRelease(w).value)
  {
    var u := w.(log := []);
    AdvanceStamps(u);
    var (v, got) := GetCR(u);
    if got.Err? {
      assert Reconcile(name, w).0.log == [];
    } else {
      var fetched := got.value;
      var p := Pass(v.(log := v.log + [PassStarted(fetched)]), fetched);
      assert p.world.log == [PassStarted(fetched)];
      if !fetched.deleting {
        LivePassDropsNothing(name, w);
      } else {
        ChainOnDeletion(name, p);
        FinalizeDropsIff(name, p);
      }
    }
  }

  lemma LivePassDropsNothing(name: string, w: World)
    requires Stamped(w.store)
    requires var got := GetCR(w.(log := [])).1; got.Ok? && !got.value.deleting
    ensures !DropsFromLive(Reconcile(name, w).0.log)
  {
    PassIsLawful(name, w);
    var fetched, log := GetCR(w.(log := [])).1.value, Reconcile(name, w).0.log;
    forall i | 0 <= i < |log| ensures !Drops(log[i]) { assert Lawful(name, fetched, log, i); }
  }

  lemma FinalizeDropsIff(name: string, p: Pass)
    requires Stamped(p.world.store) && p.world.log == [PassStarted(p.cr)]
    ensures var (x, reading) := ReadQueue(p.world);
      DropsFromLive(Finalize(name, p).0.world.log) <==>
      && ReplayFinalizer in p.cr.finalizers
      && (if p.cr.spec.ignoreSendingQueue then LetsGoOfLive(name, p.world)
          else reading.Size? && reading.size <= 0.0 && LetsGoOfLive(name, x))
  {
    AdvanceStamps(p.world);
    ReleaseDropsLiveIff(name, p);
    ReleaseDropsLiveIff(name, Pass(ReadQueue(p.world).0, p.cr));
  }

  lemma ReleaseDropsLiveIff(name: string, p: Pass)
    requires Stamped(p.world.store) && forall i | 0 <= i < |p.world.log| :: !Drops(p.world.log[i])
    ensures DropsFromLive(Release(name, p).0.world.log) <==> LetsGoOfLive(name, p.world)
  {
    ReleaseDropsIff(name, p);
    var log, n := Release(name, p).0.world.log, |p.world.log|;
    forall i | 0 <= i < n ensures !Drops(log[i]) { assert log[i] == p.world.log[i]; }
    if LetsGoOfLive(name, p.world) {
      var i :| n <= i < |log| && Drops(log[i]);
      assert !log[i].before.deleting;
    }
  }

  // ---------- A new resource that loses its finalizer ----------

  /** Between the fetch and the second read of one pass, the old resource is let go and a new one of
      the same name is made. */
  function Recreated(spec: ReplaySpec): World {
    World(Store(Some(CR(spec, [ReplayFinalizer], [DONE], true, 1)), map[], Size(0.0), 1),
          [CALM, Tick([SetFinalizers([]), Create(spec, [ReplayFinalizer])], NoFault)], [])
  }

  lemma RecreatedAct(st: Store, spec: ReplaySpec)
    requires st.cr.Some? && st.cr.value.deleting
    ensures Acts(st, [SetFinalizers([]), Create(spec, [ReplayFinalizer])])
      == st.(cr := Some(CR(spec, [ReplayFinalizer], [], false, st.clock + 1)), clock := st.clock + 1)
  {
    var acts := [SetFinalizers([]), Create(spec, [ReplayFinalizer])];
    var gone := Act(st, acts[0]);
    assert gone == st.(cr := None);
    var made := Act(gone, acts[1]);
    assert acts[1..] == [acts[1]] && acts[1..][1..] == [];
    assert Acts(gone, acts[1..]) == Acts(made, []);
  }

  /** Letting go of a live resource only takes the finalizer off. */
  lemma ReleaseLive(name: string, p: Pass)
    requires Quiet(p.world) && Live(p.world.store) && p.world.store.cr.value.finalizers == [ReplayFinalizer]
    ensures var st := Release(name, p).0.world.store;
      st.cr.Some? && !st.cr.value.deleting && st.cr.value.finalizers == []
  {
    assert [ReplayFinalizer][1..] == [];
    assert Without([ReplayFinalizer], ReplayFinalizer) == [];
  }

  /** The pass then takes the finalizer off the new resource, which nobody asked to delete: what is
      required of other clients for HeldUntilGateOpens cannot be left out. */
  lemma RecreatedResourceLosesFinalizer(name: string, spec: ReplaySpec)
    requires spec.ignoreSendingQueue
    ensures Stamped(Recreated(spec).store) && Held(Recreated(spec).store)
    ensures var st := Reconcile(name, Recreated(spec)).0.store;
      st.cr.Some? && !st.cr.value.deleting && !Held(st)
  {
    var u := Recreated(spec);
    var fetched := u.store.cr.value;
    CalmAdvance(u);
    var t := Tick([SetFinalizers([]), Create(spec, [ReplayFinalizer])], NoFault);
    var p := Pass(World(u.store, [t], [PassStarted(fetched)]), fetched);
    assert u.script[1..] == [t];
    assert [] + [PassStarted(fetched)] == p.world.log;
    ChainOnDeletion(name, p);
    RecreatedAct(u.store, spec);
    var w := Advance(p.world);
    assert w.script == [];
    assert Release(name, p) == Release(name, Pass(w, fetched));
    ReleaseLive(name, Pass(w, fetched));
  }
}
