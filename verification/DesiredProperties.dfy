/** What a pass over desired objects without a failure achieves, and what it does to objects of others. */
module DesiredProperties {
  import opened DesiredStore
  import opened DesiredReconcile

  // ---------- What an object should be ----------

  /** An object is as desired, as far as an update can make it so. */
  predicate AsDesired(o: Object, d: Desired, ref: OwnerRef) {
    && o.owners == [ref]
    && match d.spec
       case ServiceSpec(ports, selector, _, _) =>
         && Includes(o.labels, d.labels) && Includes(o.annotations, d.annotations)
         && o.spec.ServiceSpec? && o.spec.ports == ports && o.spec.selector == selector
       case IngressSpec(backend, rules, tls, _) =>
         && o.labels == d.labels && o.annotations == d.annotations
         && o.spec.IngressSpec? && o.spec.backend == backend && o.spec.rules == rules && o.spec.tls == tls
  }

  predicate Includes<K, V(==)>(m: map<K, V>, part: map<K, V>) {
    forall k | k in part :: k in m && m[k] == part[k]
  }

  lemma MergeFixpoint<K, V>(m: map<K, V>, part: map<K, V>)
    ensures Includes(m + part, part) && (Includes(m, part) <==> m + part == m)
  {
    if m + part == m {
      forall k | k in part ensures k in m && m[k] == part[k] { assert (m + part)[k] == part[k]; }
    }
  }

  /** An update makes an object as desired, and leaves it alone exactly when it already was. */
  lemma MutateSettles(o: Object, d: Desired, ref: OwnerRef)
    ensures AsDesired(Mutate(o, d, ref), d, ref)
    ensures Mutate(o, d, ref) == o <==> AsDesired(o, d, ref)
  {
    MergeFixpoint(o.labels, d.labels);
    MergeFixpoint(o.annotations, d.annotations);
  }

  lemma UpsertSettles(st: Store, d: Desired, ref: OwnerRef)
    ensures AsDesired(Upsert(st, d, ref).objects[d.key], d, ref)
    ensures !NeedsWrite(st, d, ref) <==> d.key in st.objects && AsDesired(st.objects[d.key], d, ref)
  {
    if d.key in st.objects {
      MutateSettles(st.objects[d.key], d, ref);
      assert Upsert(st, d, ref).objects[d.key] == Mutate(st.objects[d.key], d, ref);
      if AsDesired(st.objects[d.key], d, ref) { assert st.objects[d.key := st.objects[d.key]] == st.objects; }
    }
  }

  // ---------- All upserts ----------

  predicate Distinct(ds: seq<Desired>) { forall i, j | 0 <= i < j < |ds| :: ds[i].key != ds[j].key }

  ghost predicate Own(st: Store, keys: set<Key>, ref: OwnerRef) {
    forall k | k in keys :: k in st.objects && st.objects[k].owners == [ref]
  }

  lemma UpsertOwns(st: Store, d: Desired, ref: OwnerRef, keys: set<Key>)
    requires Own(st, keys, ref)
    ensures Own(Upsert(st, d, ref), keys + {d.key}, ref)
  {
    UpsertSettles(st, d, ref);
  }

  lemma {:induction false} UpsertAllTouches(st: Store, ds: seq<Desired>, n: nat, ref: OwnerRef)
    requires n <= |ds|
    ensures Touches(st, UpsertAll(st, ds, n, ref), FirstKeys(ds, n))
  {
    if n > 0 {
      UpsertAllTouches(st, ds, n - 1, ref);
      OneMoreKey(ds, n - 1);
      UpsertTouches(st, UpsertAll(st, ds, n - 1, ref), ds[n - 1], ref, FirstKeys(ds, n - 1));
    }
  }

  lemma {:induction false} UpsertAllOwns(st: Store, ds: seq<Desired>, n: nat, ref: OwnerRef)
    requires n <= |ds|
    ensures Own(UpsertAll(st, ds, n, ref), FirstKeys(ds, n), ref)
  {
    if n > 0 {
      UpsertAllOwns(st, ds, n - 1, ref);
      OneMoreKey(ds, n - 1);
      UpsertOwns(UpsertAll(st, ds, n - 1, ref), ds[n - 1], ref, FirstKeys(ds, n - 1));
    }
  }

  lemma UpsertElsewhere(st: Store, d: Desired, ref: OwnerRef, k: Key)
    requires k in st.objects && k != d.key
    ensures k in Upsert(st, d, ref).objects && Upsert(st, d, ref).objects[k] == st.objects[k]
  {
  }

  /** An object stays as it is while other keys are upserted. */
  lemma {:induction false} StaysPut(st: Store, ds: seq<Desired>, ref: OwnerRef, k: Key, i: nat, n: nat)
    requires i <= n <= |ds|
    requires k in UpsertAll(st, ds, i, ref).objects && forall m | i <= m < n :: ds[m].key != k
    ensures k in UpsertAll(st, ds, n, ref).objects
    ensures UpsertAll(st, ds, n, ref).objects[k] == UpsertAll(st, ds, i, ref).objects[k]
    decreases n
  {
    if n > i {
      StaysPut(st, ds, ref, k, i, n - 1);
      UpsertElsewhere(UpsertAll(st, ds, n - 1, ref), ds[n - 1], ref, k);
    }
  }

  lemma UpsertAllSettles(st: Store, ds: seq<Desired>, ref: OwnerRef, i: nat)
    requires Distinct(ds) && i < |ds|
    ensures ds[i].key in UpsertAll(st, ds, |ds|, ref).objects
    ensures AsDesired(UpsertAll(st, ds, |ds|, ref).objects[ds[i].key], ds[i], ref)
    ensures UpsertAll(st, ds, |ds|, ref).objects[ds[i].key].spec ==
      if ds[i].key in st.objects then Mutate(st.objects[ds[i].key], ds[i], ref).spec else ds[i].spec
  {
    UpsertSettles(UpsertAll(st, ds, i, ref), ds[i], ref);
    StaysPut(st, ds, ref, ds[i].key, i + 1, |ds|);
    UpsertAllTouches(st, ds, i, ref);
    assert ds[i].key !in FirstKeys(ds, i);
  }

  lemma {:induction false} SettledStays(st: Store, ds: seq<Desired>, n: nat, ref: OwnerRef)
    requires n <= |ds|
    requires forall i | 0 <= i < |ds| :: ds[i].key in st.objects && AsDesired(st.objects[ds[i].key], ds[i], ref)
    ensures UpsertAll(st, ds, n, ref) == st
  {
    if n > 0 {
      SettledStays(st, ds, n - 1, ref);
      UpsertSettles(st, ds[n - 1], ref);
    }
  }

  // ---------- The whole pass ----------

  /** The objects listed under the owner's name are then exactly the desired ones that can be read; the
      others that were listed are gone; nothing else has changed. */
  lemma ReconciledExactly(st: Store, ds: seq<Desired>, owner: Owner)
    requires InNamespace(ds, owner)
    ensures var after := Reconciled(st, ds, owner);
      && OwnedKeys(after, owner) == (set k | k in Keys(ds) && !Hidden(after, k))
      && after.objects.Keys == st.objects.Keys - OwnedKeys(st, owner) + Keys(ds)
      && Touches(st, after, OwnedKeys(st, owner) + Keys(ds))
  {
    UpsertAllTouches(st, ds, |ds|, owner.Ref());
    UpsertAllOwns(st, ds, |ds|, owner.Ref());
    var after := Reconciled(st, ds, owner);
    forall k | k in Keys(ds) && !Hidden(after, k) ensures Listed(after, owner, k) {
      assert after.objects[k].owners[0] == owner.Ref();
    }
    forall k | Listed(after, owner, k) ensures k in Keys(ds) {
      if k !in Keys(ds) { assert Listed(st, owner, k); }
    }
  }

  lemma ReconciledAsDesired(st: Store, ds: seq<Desired>, owner: Owner, i: nat)
    requires Distinct(ds) && i < |ds|
    ensures var after := Reconciled(st, ds, owner);
      ds[i].key in after.objects && AsDesired(after.objects[ds[i].key], ds[i], owner.Ref())
  {
    UpsertAllSettles(st, ds, owner.Ref(), i);
  }

  lemma NothingPruned(st: Store)
    ensures Prune(st, {}) == st
  {
    assert st.objects - {} == st.objects;
  }

  // ---------- When a pass succeeds ----------

  /** Object number i is in the owner's namespace and can be read, if it is there, when its turn comes. */
  predicate ReadableInTurn(st: Store, ds: seq<Desired>, i: nat, owner: Owner)
    requires i < |ds|
  {
    ds[i].key.namespace == owner.namespace && !Hidden(UpsertAll(st, ds, i, owner.Ref()), ds[i].key)
  }

  lemma FaultFreeStep(st: Store, ds: seq<Desired>, i: nat, owner: Owner)
    requires i < |ds| && TryAll(st, [], ds, i, owner) == (UpsertAll(st, ds, i, owner.Ref()), [])
    ensures GetsUpserted(st, [], ds, i, owner) <==> ReadableInTurn(st, ds, i, owner)
    ensures GetsUpserted(st, [], ds, i, owner) ==>
      TryAll(st, [], ds, i + 1, owner) == (UpsertAll(st, ds, i + 1, owner.Ref()), [])
  {
    hide Retry;
    var now := UpsertAll(st, ds, i, owner.Ref());
    RetryOutcome(now, [], ds[i], owner.Ref(), RETRIES);
    RetryWithoutFaults(now, ds[i], owner.Ref(), RETRIES);
  }

  /** Without a fault, everything is upserted exactly if it is all readable in turn. */
  lemma {:induction false} FaultFreeUpserts(st: Store, ds: seq<Desired>, n: nat, owner: Owner)
    requires n <= |ds|
    ensures AllUpserted(st, [], ds, n, owner) <==> forall i | 0 <= i < n :: ReadableInTurn(st, ds, i, owner)
    ensures AllUpserted(st, [], ds, n, owner) ==>
      TryAll(st, [], ds, n, owner) == (UpsertAll(st, ds, n, owner.Ref()), [])
  {
    hide GetsUpserted, ReadableInTurn;
    if n > 0 {
      FaultFreeUpserts(st, ds, n - 1, owner);
      OneMoreUpserted(st, [], ds, n - 1, owner);
      if AllUpserted(st, [], ds, n - 1, owner) { FaultFreeStep(st, ds, n - 1, owner); }
    }
  }

  lemma OneMoreUpserted(st: Store, faults: seq<Fault>, ds: seq<Desired>, i: nat, owner: Owner)
    requires i < |ds|
    ensures AllUpserted(st, faults, ds, i + 1, owner) <==>
      AllUpserted(st, faults, ds, i, owner) && GetsUpserted(st, faults, ds, i, owner)
  {
  }

  /** So a pass over objects with keys of their own succeeds, if no call fails, exactly if all of them
      that are there can be read. */
  lemma PassSucceedsIff(st: Store, ds: seq<Desired>, owner: Owner)
    requires Distinct(ds) && InNamespace(ds, owner)
    ensures AllUpserted(st, [], ds, |ds|, owner) <==> forall i | 0 <= i < |ds| :: !Hidden(st, ds[i].key)
  {
    FaultFreeUpserts(st, ds, |ds|, owner);
    forall i | 0 <= i < |ds| ensures ReadableInTurn(st, ds, i, owner) <==> !Hidden(st, ds[i].key) {
      UpsertAllTouches(st, ds, i, owner.Ref());
      assert ds[i].key !in FirstKeys(ds, i);
    }
  }

  lemma {:induction false} TryAllKeepsHidden(st: Store, faults: seq<Fault>, ds: seq<Desired>, n: nat, owner: Owner)
    requires n <= |ds|
    ensures KeepsHidden(st, TryAll(st, faults, ds, n, owner).0)
  {
    if n > 0 {
      TryAllKeepsHidden(st, faults, ds, n - 1, owner);
      var (s, fs) := TryAll(st, faults, ds, n - 1, owner);
      RetryOutcome(s, fs, ds[n - 1], owner.Ref(), RETRIES);
      if !Hidden(s, ds[n - 1].key) { UpsertKeepsHidden(st, s, ds[n - 1], owner.Ref()); }
    }
  }

  /** With a desired object that is there and cannot be read, every pass fails, whatever else happens; it
      keeps what is hidden, so the next one does too. */
  lemma HiddenBlocks(st: Store, faults: seq<Fault>, ds: seq<Desired>, i: nat, owner: Owner)
    requires i < |ds| && Hidden(st, ds[i].key)
    ensures !AllUpserted(st, faults, ds, |ds|, owner)
  {
    TryAllKeepsHidden(st, faults, ds, i, owner);
    assert !GetsUpserted(st, faults, ds, i, owner);
  }

  /** A Service whose desired labels say who manages it can be read afterwards exactly if they say that
      the operator does; an Ingress always can. */
  lemma ReadableAfterIff(st: Store, ds: seq<Desired>, owner: Owner, i: nat)
    requires Distinct(ds) && i < |ds| && (ds[i].spec.ServiceSpec? <==> ds[i].key.kind.Service?)
    requires ds[i].key.kind.Service? ==> ManagedBy in ds[i].labels
    ensures !Hidden(Reconciled(st, ds, owner), ds[i].key) <==> (ds[i].key.kind.Service? ==> IsManaged(ds[i].labels))
  {
    ReconciledAsDesired(st, ds, owner, i);
  }

  /** A second pass leaves the store alone, without a single write. */
  lemma ReconciledTwice(st: Store, ds: seq<Desired>, owner: Owner)
    requires Distinct(ds) && InNamespace(ds, owner)
    ensures Reconciled(Reconciled(st, ds, owner), ds, owner) == Reconciled(st, ds, owner)
    ensures forall i | 0 <= i < |ds| :: !NeedsWrite(Reconciled(st, ds, owner), ds[i], owner.Ref())
  {
    var after := Reconciled(st, ds, owner);
    ReconciledExactly(st, ds, owner);
    forall i | 0 <= i < |ds|
      ensures ds[i].key in after.objects && AsDesired(after.objects[ds[i].key], ds[i], owner.Ref()) &&
        !NeedsWrite(after, ds[i], owner.Ref())
    {
      ReconciledAsDesired(st, ds, owner, i);
      UpsertSettles(after, ds[i], owner.Ref());
    }
    SettledStays(after, ds, |ds|, owner.Ref());
    NothingPruned(after);
  }

  // ---------- What an update never sets ----------

  /** The fields that no update sets: type and traffic policy of a Service, class of an Ingress. */
  predicate SameUnsetFields(had: Spec, wanted: Spec) {
    match (had, wanted)
    case (ServiceSpec(_, _, t, p), ServiceSpec(_, _, wantedType, wantedPolicy)) => t == wantedType && p == wantedPolicy
    case (IngressSpec(_, _, _, c), IngressSpec(_, _, _, wantedClass)) => c == wantedClass
    case _ => true
  }

  /** The spec comes out as desired exactly when the object is new or already had those fields. */
  lemma SpecAsDesiredIff(st: Store, ds: seq<Desired>, owner: Owner, i: nat)
    requires Distinct(ds) && i < |ds|
    ensures ds[i].key in Reconciled(st, ds, owner).objects
    ensures Reconciled(st, ds, owner).objects[ds[i].key].spec == ds[i].spec <==>
      (ds[i].key in st.objects ==> SameUnsetFields(st.objects[ds[i].key].spec, ds[i].spec))
  {
    UpsertAllSettles(st, ds, owner.Ref(), i);
  }

  // ---------- Objects of others ----------

  /** An object that does not name this owner is left alone exactly when it is neither desired nor
      listed under the owner's name: one that merely stands under a desired key is taken over, and one
      whose owner merely has the same name is pruned. */
  lemma ForeignObjectIsSafeIff(st: Store, ds: seq<Desired>, owner: Owner, k: Key)
    requires InNamespace(ds, owner)
    requires k in st.objects && owner.Ref() !in st.objects[k].owners
    ensures var after, o := Reconciled(st, ds, owner), st.objects[k];
      var desired := exists i | 0 <= i < |ds| :: ds[i].key == k;
      var listed := k.namespace == owner.namespace &&
        if k.kind == Ingress then exists i | 0 <= i < |o.owners| :: o.owners[i].name == owner.name
        else o.owners != [] && o.owners[0].name == owner.name && IsManaged(o.labels);
      && (k in after.objects && after.objects[k] == o <==> !desired && !listed)
      && (desired ==> k in after.objects && after.objects[k].owners == [owner.Ref()])
      && (!desired && listed ==> k !in after.objects)
  {
    UpsertAllTouches(st, ds, |ds|, owner.Ref());
    UpsertAllOwns(st, ds, |ds|, owner.Ref());
    ListedIff(st, owner, k);
    assert k in Keys(ds) <==> exists i | 0 <= i < |ds| :: ds[i].key == k;
    if k in Keys(ds) { assert owner.Ref() in [owner.Ref()]; }
  }
}
