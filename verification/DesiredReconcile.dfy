/** The upsert-then-prune pass of internal/controller/common.go and the listing of owned objects of
    internal/controller/mdaiingress_controller.go, with any call failing. */
module DesiredReconcile {
  import opened Wrappers
  import opened DesiredStore

  datatype Failure = ApiFailure | ConflictFailure | CrossNamespace

  /** The map holds exactly these keys, each under its object's uid. */
  predicate Tracks(st: Store, owned: map<nat, Key>, keys: set<Key>) {
    && (forall u | u in owned :: owned[u] in keys && owned[u] in st.objects && st.objects[owned[u]].uid == u)
    && (forall k | k in keys :: k in st.objects && st.objects[k].uid in owned && owned[st.objects[k].uid] == k)
  }

  lemma TracksOneMore(st: Store, owned: map<nat, Key>, keys: set<Key>, k: Key)
    requires UniqueUids(st) && Tracks(st, owned, keys) && k in st.objects
    ensures Tracks(st, owned[st.objects[k].uid := k], keys + {k})
  {
  }

  lemma TracksOneLess(st: Store, owned: map<nat, Key>, keys: set<Key>, k: Key)
    requires UniqueUids(st) && Tracks(st, owned, keys) && k in st.objects
    ensures Tracks(st, owned - {st.objects[k].uid}, keys - {k})
  {
  }

  lemma RestShrinks(rest: map<nat, Key>, uid: nat)
    requires uid in rest
    ensures |rest - {uid}| < |rest|
  {
    assert (rest - {uid}).Keys == rest.Keys - {uid};
  }

  lemma MergeStep(st: Store, owned: map<nat, Key>, rest: map<nat, Key>, got: set<Key>, todo: set<Key>, uid: nat)
    requires UniqueUids(st) && Tracks(st, owned, got) && Tracks(st, rest, todo) && uid in rest
    ensures Tracks(st, owned[uid := rest[uid]], got + {rest[uid]}) && Tracks(st, rest - {uid}, todo - {rest[uid]})
    ensures got + {rest[uid]} + (todo - {rest[uid]}) == got + todo
  {
    TracksOneMore(st, owned, got, rest[uid]);
    TracksOneLess(st, rest, todo, rest[uid]);
  }

  method Merge(into: map<nat, Key>, more: map<nat, Key>, ghost st: Store, ghost keys: set<Key>, ghost others: set<Key>)
    returns (owned: map<nat, Key>)
    requires UniqueUids(st) && Tracks(st, into, keys) && Tracks(st, more, others)
    ensures Tracks(st, owned, keys + others)
  {
    owned := into;
    var rest := more;
    ghost var got, todo := keys, others;
    while rest != map[]
      invariant Tracks(st, owned, got) && Tracks(st, rest, todo) && got + todo == keys + others
      decreases |rest|
    {
      var uid :| uid in rest;
      MergeStep(st, owned, rest, got, todo, uid);
      RestShrinks(rest, uid);
      got, todo := got + {rest[uid]}, todo - {rest[uid]};
      owned, rest := owned[uid := rest[uid]], rest - {uid};
    }
    assert got == keys + others;
  }

  lemma BothKinds(st: Store, owner: Owner)
    ensures ListedKeys(st, owner, Service) + ListedKeys(st, owner, Ingress) == OwnedKeys(st, owner)
  {
  }

  function ListedKeys(st: Store, owner: Owner, kind: Kind): set<Key> {
    set k | k in OwnedKeys(st, owner) && k.kind == kind
  }

  function ByUid(st: Store, keys: set<Key>): (r: map<nat, Key>)
    requires UniqueUids(st) && keys <= st.objects.Keys
    ensures Tracks(st, r, keys)
  {
    map k | k in keys :: st.objects[k].uid := k
  }

  /** Nothing but these keys differs. */
  ghost predicate Touches(st: Store, after: Store, keys: set<Key>) {
    forall k | k !in keys ::
      (k in st.objects <==> k in after.objects) && (k in st.objects ==> after.objects[k] == st.objects[k])
  }

  /** What cannot be read stays as it is. */
  ghost predicate KeepsHidden(st: Store, after: Store) {
    forall k | Hidden(st, k) :: k in after.objects && after.objects[k] == st.objects[k]
  }

  /** Where a pass stands after its first i desired objects; `clean` says that none failed. */
  ghost predicate Upserting(first: Store, keys: set<Key>, ds: seq<Desired>, ref: OwnerRef, i: nat,
                            st: Store, owned: map<nat, Key>, left: set<Key>, clean: bool)
    requires i <= |ds|
  {
    && UniqueUids(st) && Tracks(st, owned, left) && left <= keys
    && Touches(first, st, FirstKeys(ds, i)) && first.objects.Keys <= st.objects.Keys && KeepsHidden(first, st)
    && (clean ==> st == UpsertAll(first, ds, i, ref) && left == keys - FirstKeys(ds, i))
  }

  lemma UidAfterUpsert(st: Store, d: Desired, ref: OwnerRef, k: Key)
    requires k in Upsert(st, d, ref).objects
    ensures Upsert(st, d, ref).objects[k].uid == if k in st.objects then st.objects[k].uid else st.nextUid
    ensures k in st.objects || k == d.key
  {
  }

  lemma UpsertKeepsUids(st: Store, d: Desired, ref: OwnerRef)
    requires UniqueUids(st)
    ensures UniqueUids(Upsert(st, d, ref))
  {
    var after := Upsert(st, d, ref);
    forall k | k in after.objects ensures after.objects[k].uid < after.nextUid { UidAfterUpsert(st, d, ref, k); }
    forall j, k | j in after.objects && k in after.objects && after.objects[j].uid == after.objects[k].uid
      ensures j == k {
      UidAfterUpsert(st, d, ref, j);
      UidAfterUpsert(st, d, ref, k);
    }
  }

  lemma TracksAfterUpsert(st: Store, d: Desired, ref: OwnerRef, owned: map<nat, Key>, left: set<Key>)
    requires UniqueUids(st) && Tracks(st, owned, left)
    ensures UniqueUids(Upsert(st, d, ref)) && Tracks(Upsert(st, d, ref), owned, left)
    ensures Tracks(Upsert(st, d, ref), owned - {Upsert(st, d, ref).objects[d.key].uid}, left - {d.key})
  {
    UpsertKeepsUids(st, d, ref);
    TracksOneLess(Upsert(st, d, ref), owned, left, d.key);
  }

  lemma OneMoreKey(ds: seq<Desired>, i: nat)
    requires i < |ds|
    ensures FirstKeys(ds, i + 1) == FirstKeys(ds, i) + {ds[i].key}
  {
  }

  lemma UpsertKeepsHidden(first: Store, st: Store, d: Desired, ref: OwnerRef)
    requires KeepsHidden(first, st) && !Hidden(st, d.key)
    ensures KeepsHidden(first, Upsert(st, d, ref))
  {
  }

  lemma UpsertTouches(first: Store, st: Store, d: Desired, ref: OwnerRef, keys: set<Key>)
    requires Touches(first, st, keys)
    ensures Touches(first, Upsert(st, d, ref), keys + {d.key})
  {
  }

  lemma SkippedStep(first: Store, keys: set<Key>, ds: seq<Desired>, ref: OwnerRef, i: nat,
                    st: Store, owned: map<nat, Key>, left: set<Key>, clean: bool)
    requires i < |ds| && Upserting(first, keys, ds, ref, i, st, owned, left, clean)
    ensures Upserting(first, keys, ds, ref, i + 1, st, owned, left, false)
  {
    OneMoreKey(ds, i);
  }

  lemma LostStep(first: Store, keys: set<Key>, ds: seq<Desired>, ref: OwnerRef, i: nat,
                 st: Store, owned: map<nat, Key>, left: set<Key>, clean: bool)
    requires i < |ds| && Upserting(first, keys, ds, ref, i, st, owned, left, clean) && !Hidden(st, ds[i].key)
    ensures Upserting(first, keys, ds, ref, i + 1, Upsert(st, ds[i], ref), owned, left, false)
  {
    TracksAfterUpsert(st, ds[i], ref, owned, left);
    UpsertTouches(first, st, ds[i], ref, FirstKeys(ds, i));
    UpsertKeepsHidden(first, st, ds[i], ref);
    OneMoreKey(ds, i);
  }

  lemma UpsertStep(first: Store, keys: set<Key>, ds: seq<Desired>, ref: OwnerRef, i: nat,
                   st: Store, owned: map<nat, Key>, left: set<Key>, clean: bool)
    requires i < |ds| && Upserting(first, keys, ds, ref, i, st, owned, left, clean) && !Hidden(st, ds[i].key)
    ensures var after := Upsert(st, ds[i], ref);
      Upserting(first, keys, ds, ref, i + 1, after, owned - {after.objects[ds[i].key].uid}, left - {ds[i].key}, clean)
  {
    TracksAfterUpsert(st, ds[i], ref, owned, left);
    LostStep(first, keys, ds, ref, i, st, owned, left, clean);
    OneMoreKey(ds, i);
  }

  /** Where pruning stands: `gone` is deleted, `todo` still to come. */
  ghost predicate Pruning(first: Store, keys: set<Key>, st: Store, rest: map<nat, Key>, todo: set<Key>, gone: set<Key>,
                          clean: bool) {
    && st == Prune(first, gone) && Tracks(first, rest, todo) && gone <= keys && todo <= keys
    && (clean ==> gone + todo == keys)
  }

  lemma PruneStep(first: Store, keys: set<Key>, st: Store, rest: map<nat, Key>, todo: set<Key>, gone: set<Key>,
                  clean: bool,
                  uid: nat, deleted: bool, after: Store)
    requires UniqueUids(first) && Pruning(first, keys, st, rest, todo, gone, clean) && uid in rest
    requires after == if deleted then st.(objects := st.objects - {rest[uid]}) else st
    ensures Pruning(first, keys, after, rest - {uid}, todo - {rest[uid]}, if deleted then gone + {rest[uid]} else gone,
                    clean && deleted)
  {
    TracksOneLess(first, rest, todo, rest[uid]);
    assert first.objects - gone - {rest[uid]} == first.objects - (gone + {rest[uid]});
  }

  lemma PruneStarts(st: Store, objects: map<nat, Key>, keys: set<Key>)
    requires Tracks(st, objects, keys)
    ensures Pruning(st, keys, st, objects, keys, {}, true)
  {
    assert st.objects - {} == st.objects;
  }

  lemma PruneEnds(first: Store, keys: set<Key>, st: Store, todo: set<Key>, gone: set<Key>, clean: bool)
    requires Pruning(first, keys, st, map[], todo, gone, clean)
    ensures st == Prune(first, gone) && gone <= keys && (clean ==> gone == keys)
  {
    assert todo == {};
  }

  lemma NotClean(first: Store, keys: set<Key>, st: Store, rest: map<nat, Key>, todo: set<Key>, gone: set<Key>,
                 clean: bool)
    requires Pruning(first, keys, st, rest, todo, gone, clean)
    ensures Pruning(first, keys, st, rest, todo, gone, false)
  {
  }

  /** Retrying leaves the store alone or upserts, and ends well exactly if the object is not hidden and an
      attempt survives. */
  lemma {:induction false} RetryOutcome(st: Store, faults: seq<Fault>, d: Desired, ref: OwnerRef, attempts: nat)
    ensures var t := Retry(st, faults, d, ref, attempts);
      && (t.store == st || (t.store == Upsert(st, d, ref) && !Hidden(st, d.key)))
      && (t.fault == NoFault ==> t.store == Upsert(st, d, ref))
      && (t.fault == NoFault <==> !Hidden(st, d.key) && Survives(faults, NeedsWrite(st, d, ref), attempts))
  {
    if attempts > 0 {
      var t := Attempt(st, faults, d, ref);
      if t.fault == Conflict { RetryOutcome(t.store, t.faults, d, ref, attempts - 1); }
    }
  }

  /** All ways one step can go. */
  lemma UpsertCases(first: Store, script: seq<Fault>, keys: set<Key>, ds: seq<Desired>, owner: Owner, i: nat,
                    st: Store, faults: seq<Fault>, owned: map<nat, Key>, left: set<Key>, clean: bool)
    requires i < |ds| && Upserting(first, keys, ds, owner.Ref(), i, st, owned, left, clean)
    requires (st, faults) == TryAll(first, script, ds, i, owner)
    ensures AllUpserted(first, script, ds, i + 1, owner) <==>
      AllUpserted(first, script, ds, i, owner) && GetsUpserted(first, script, ds, i, owner)
    ensures Upserting(first, keys, ds, owner.Ref(), i + 1, st, owned, left, false)
    ensures ds[i].key.namespace == owner.namespace ==>
      var t := Retry(st, faults, ds[i], owner.Ref(), RETRIES);
      && (t.fault == NoFault <==> GetsUpserted(first, script, ds, i, owner))
      && (if t.fault == NoFault
          then ds[i].key in t.store.objects &&
               Upserting(first, keys, ds, owner.Ref(), i + 1, t.store, owned - {t.store.objects[ds[i].key].uid},
                         left - {ds[i].key}, clean)
          else Upserting(first, keys, ds, owner.Ref(), i + 1, t.store, owned, left, false))
  {
    var ref := owner.Ref();
    SkippedStep(first, keys, ds, ref, i, st, owned, left, clean);
    RetryOutcome(st, faults, ds[i], ref, RETRIES);
    if !Hidden(st, ds[i].key) {
      LostStep(first, keys, ds, ref, i, st, owned, left, clean);
      UpsertStep(first, keys, ds, ref, i, st, owned, left, clean);
    }
  }

  predicate InNamespace(ds: seq<Desired>, owner: Owner) {
    forall i | 0 <= i < |ds| :: ds[i].key.namespace == owner.namespace
  }

  /** What is left is as it was. */
  predicate PrunedOnly(st: Store, after: Store) { after == Prune(st, st.objects.Keys - after.objects.Keys) }

  lemma PruningOnly(st: Store, gone: set<Key>)
    ensures PrunedOnly(st, Prune(st, gone)) && Touches(st, Prune(st, gone), gone)
  {
    assert st.objects - (st.objects.Keys - (st.objects - gone).Keys) == st.objects - gone;
  }

  /** Both listings succeed. */
  predicate Lists(faults: seq<Fault>) { Head(faults) == NoFault && Head(Tail(faults)) == NoFault }

  lemma {:induction false} NoFaultsStay(st: Store, ds: seq<Desired>, n: nat, owner: Owner)
    requires n <= |ds|
    ensures TryAll(st, [], ds, n, owner).1 == []
  {
    if n > 0 {
      NoFaultsStay(st, ds, n - 1, owner);
      RetryWithoutFaults(TryAll(st, [], ds, n - 1, owner).0, ds[n - 1], owner.Ref(), RETRIES);
    }
  }

  lemma RetryWithoutFaults(st: Store, d: Desired, ref: OwnerRef, attempts: nat)
    ensures Retry(st, [], d, ref, attempts).faults == []
  {
  }

  lemma PruningKeepsHidden(first: Store, all: Store, owner: Owner, gone: set<Key>)
    requires KeepsHidden(first, all) && gone <= OwnedKeys(first, owner)
    ensures KeepsHidden(first, Prune(all, gone))
  {
  }

  // ---------- In terms of owner references ----------

  /** One of the object's owners has the name. */
  predicate HasOwnerNamed(o: Object, name: string) { exists i | 0 <= i < |o.owners| :: o.owners[i].name == name }

  /** What is listed for the owner, kind by kind: a Service with the operator's label is under its first
      owner's name, an Ingress under each of its owners'. */
  lemma ListedIff(st: Store, owner: Owner, k: Key)
    ensures k.kind == Service ==>
      (Listed(st, owner, k) <==>
       && k in st.objects && k.namespace == owner.namespace
       && st.objects[k].owners != [] && st.objects[k].owners[0].name == owner.name
       && ManagedBy in st.objects[k].labels && st.objects[k].labels[ManagedBy] == MdaiOperator)
    ensures k.kind == Ingress ==>
      (Listed(st, owner, k) <==>
       && k in st.objects && k.namespace == owner.namespace
       && exists i | 0 <= i < |st.objects[k].owners| :: st.objects[k].owners[i].name == owner.name)
  {
  }

  /** What a pass leaves alone, whatever fails: undesired objects without an owner of the name, and those of
      other namespaces. */
  ghost predicate SparesOthers(st: Store, after: Store, ds: seq<Desired>, owner: Owner) {
    forall k | k in st.objects && (forall i | 0 <= i < |ds| :: ds[i].key != k)
               && (k.namespace != owner.namespace || !HasOwnerNamed(st.objects[k], owner.name)) ::
      k in after.objects && after.objects[k] == st.objects[k]
  }

  lemma OthersAreSpared(st: Store, after: Store, ds: seq<Desired>, owner: Owner)
    requires Touches(st, after, OwnedKeys(st, owner) + Keys(ds))
    ensures SparesOthers(st, after, ds, owner)
  {
    forall k | k in st.objects && (forall i | 0 <= i < |ds| :: ds[i].key != k)
               && (k.namespace != owner.namespace || !HasOwnerNamed(st.objects[k], owner.name))
      ensures k in after.objects && after.objects[k] == st.objects[k]
    {
      assert k !in Keys(ds);
    }
  }

  /** What a pass without an error prunes: of the undesired objects that can be read, in the owner's
      namespace, the Services whose first owner has the name and the Ingresses one of whose owners has. */
  ghost predicate PrunesOwned(st: Store, after: Store, ds: seq<Desired>, owner: Owner) {
    forall k | k in st.objects && (forall i | 0 <= i < |ds| :: ds[i].key != k) && k.namespace == owner.namespace ::
      var o := st.objects[k];
      && (k.kind == Service && ManagedBy in o.labels && o.labels[ManagedBy] == MdaiOperator ==>
            (k !in after.objects <==> o.owners != [] && o.owners[0].name == owner.name))
      && (k.kind == Ingress ==> (k !in after.objects <==> HasOwnerNamed(o, owner.name)))
  }

  lemma OwnedArePruned(st: Store, ds: seq<Desired>, owner: Owner)
    ensures PrunesOwned(st, Reconciled(st, ds, owner), ds, owner)
  {
    UpsertAllKeys(st, ds, |ds|, owner.Ref());
    forall k | k in st.objects && (forall i | 0 <= i < |ds| :: ds[i].key != k)
      ensures k in Reconciled(st, ds, owner).objects <==> !Listed(st, owner, k)
    {
      assert k !in Keys(ds);
    }
  }

  lemma {:induction false} UpsertAllKeys(st: Store, ds: seq<Desired>, n: nat, ref: OwnerRef)
    requires n <= |ds|
    ensures UpsertAll(st, ds, n, ref).objects.Keys == st.objects.Keys + FirstKeys(ds, n)
  {
    hide Upsert;
    if n > 0 {
      UpsertAllKeys(st, ds, n - 1, ref);
      OneMoreKey(ds, n - 1);
    }
  }

  class Cluster {
    var store: Store
    var faults: seq<Fault>

    constructor (store: Store, faults: seq<Fault>)
      requires UniqueUids(store)
      ensures this.store == store && this.faults == faults
    {
      this.store, this.faults := store, faults;
    }

    method NextFault() returns (f: Fault)
      modifies this`faults
      ensures f == Head(old(faults)) && faults == Tail(old(faults))
    {
      f := Head(faults);
      faults := Tail(faults);
    }

    /** Read, mutate, and create or write back what changed; what cannot be read cannot be created either. */
    method CreateOrUpdate(d: Desired, ref: OwnerRef) returns (f: Fault)
      modifies this
      ensures Tried(store, faults, f) == Attempt(old(store), old(faults), d, ref)
    {
      f := NextFault();
      if f != NoFault { return; }
      if d.key !in store.objects || !Visible(d.key.kind, store.objects[d.key]) {
        f := NextFault();
        if d.key in store.objects {
          f := if f == Conflict then Conflict else OtherFailure;
        } else if f in {NoFault, Lost} {
          store := Store(store.objects[d.key := Created(d, ref, store.nextUid)], store.nextUid + 1);
        }
      } else {
        var existing := store.objects[d.key];
        var mutated := Mutate(existing, d, ref);
        if mutated == existing {
          assert store.objects[d.key := mutated] == store.objects;
          return;
        }
        assert Upsert(store, d, ref).objects[d.key] != store.objects[d.key];
        f := NextFault();
        if f in {NoFault, Lost} { store := store.(objects := store.objects[d.key := mutated]); }
      }
    }

    /** Up to five attempts, while they end in conflicts. */
    method RetryOnConflict(d: Desired, ref: OwnerRef) returns (err: Option<Failure>)
      modifies this
      ensures var t := Retry(old(store), old(faults), d, ref, RETRIES);
        store == t.store && faults == t.faults && (err.None? <==> t.fault == NoFault)
    {
      var left := RETRIES;
      while left > 0
        invariant 0 <= left <= RETRIES
        invariant Retry(store, faults, d, ref, left) == Retry(old(store), old(faults), d, ref, RETRIES)
      {
        var f := CreateOrUpdate(d, ref);
        if f == NoFault { return None; }
        if f != Conflict { return Some(ApiFailure); }
        left := left - 1;
      }
      return Some(ConflictFailure);
    }

    /** The uids and keys of the objects of one kind that the index lists under the owner. */
    method GetList(kind: Kind, owner: Owner) returns (r: Result<map<nat, Key>, Failure>)
      requires UniqueUids(store)
      modifies this`faults
      ensures r.Ok? ==> Tracks(store, r.value, ListedKeys(store, owner, kind))
      ensures r.Ok? <==> Head(old(faults)) == NoFault
      ensures faults == Tail(old(faults))
    {
      var f := NextFault();
      if f != NoFault { return Err(ApiFailure); }
      return Ok(ByUid(store, ListedKeys(store, owner, kind)));
    }

    /** Fills one map from the listings of both kinds. */
    method FindOwnedObjects(owner: Owner) returns (r: Result<map<nat, Key>, Failure>)
      requires UniqueUids(store)
      modifies this`faults
      ensures r.Ok? ==> Tracks(store, r.value, OwnedKeys(store, owner))
      ensures r.Ok? <==> Lists(old(faults))
      ensures r.Ok? ==> faults == Tail(Tail(old(faults)))
    {
      var services := GetList(Service, owner);
      if services.Err? { return services; }
      var ingresses := GetList(Ingress, owner);
      if ingresses.Err? { return ingresses; }
      var owned := Merge(services.value, ingresses.value, store,
                         ListedKeys(store, owner, Service), ListedKeys(store, owner, Ingress));
      BothKinds(store, owner);
      return Ok(owned);
    }

    /** Upserts every desired object, striking each that succeeds off the objects to prune. */
    method UpsertDesired(owner: Owner, ds: seq<Desired>, ownedObjects: map<nat, Key>, ghost keys: set<Key>)
      returns (errs: seq<Failure>, owned: map<nat, Key>, ghost left: set<Key>)
      requires UniqueUids(store) && Tracks(store, ownedObjects, keys)
      modifies this
      ensures Upserting(old(store), keys, ds, owner.Ref(), |ds|, store, owned, left, errs == [])
      ensures (store, faults) == TryAll(old(store), old(faults), ds, |ds|, owner)
      ensures errs == [] <==> AllUpserted(old(store), old(faults), ds, |ds|, owner)
    {
      errs, owned, left := [], ownedObjects, keys;
      for i := 0 to |ds|
        invariant Upserting(old(store), keys, ds, owner.Ref(), i, store, owned, left, errs == [])
        invariant (store, faults) == TryAll(old(store), old(faults), ds, i, owner)
        invariant errs == [] <==> AllUpserted(old(store), old(faults), ds, i, owner)
      {
        UpsertCases(old(store), old(faults), keys, ds, owner, i, store, faults, owned, left, errs == []);
        if ds[i].key.namespace != owner.namespace {
          errs := errs + [CrossNamespace];
        } else {
          var err := RetryOnConflict(ds[i], owner.Ref());
          if err.Some? {
            errs := errs + [err.value];
          } else {
            owned, left := owned - {store.objects[ds[i].key].uid}, left - {ds[i].key};
          }
        }
      }
    }

    method Delete(key: Key) returns (err: Option<Failure>, ghost deleted: bool)
      modifies this
      ensures store == if deleted then old(store).(objects := old(store).objects - {key}) else old(store)
      ensures err.None? ==> deleted
      ensures old(faults) == [] ==> err.None? && faults == []
    {
      var f := NextFault();
      deleted := f.NoFault? || f.Lost?;
      if f.NoFault? || f.Lost? { store := store.(objects := store.objects - {key}); }
      return if f.NoFault? then None else Some(ApiFailure), deleted;
    }

    /** Deletes the tracked objects in any order, going on after a failure. */
    method DeleteObjects(objects: map<nat, Key>, ghost keys: set<Key>)
      returns (errs: seq<Failure>, ghost gone: set<Key>)
      requires UniqueUids(store) && Tracks(store, objects, keys)
      modifies this
      ensures store == Prune(old(store), gone) && gone <= keys
      ensures errs == [] ==> gone == keys
      ensures old(faults) == [] ==> errs == []
    {
      errs, gone := [], {};
      var rest := objects;
      ghost var todo := keys;
      PruneStarts(store, objects, keys);
      while rest != map[]
        invariant Pruning(old(store), keys, store, rest, todo, gone, errs == [])
        invariant old(faults) == [] ==> errs == [] && faults == []
        decreases |rest|
      {
        var uid :| uid in rest;
        RestShrinks(rest, uid);
        ghost var before := store;
        var err, deleted := Delete(rest[uid]);
        PruneStep(old(store), keys, before, rest, todo, gone, errs == [], uid, deleted, store);
        gone := if deleted then gone + {rest[uid]} else gone;
        todo, rest := todo - {rest[uid]}, rest - {uid};
        if err.Some? {
          NotClean(old(store), keys, store, rest, todo, gone, errs == [] && deleted);
          errs := errs + [err.value];
        }
      }
      PruneEnds(old(store), keys, store, todo, gone, errs == []);
    }

    /** If some desired object is not upserted, an error is reported and nothing is pruned; otherwise what is
        left is what upserting made of it. Without a failure the store is exactly as asked for. No object is
        touched that is neither desired nor owned by name, nor one that cannot be read. */
    method ReconcileDesiredObjects(owner: Owner, ds: seq<Desired>, ownedObjects: map<nat, Key>)
      returns (errs: seq<Failure>)
      requires UniqueUids(store) && Tracks(store, ownedObjects, OwnedKeys(store, owner))
      modifies this
      ensures errs == [] ==> store == Reconciled(old(store), ds, owner)
      ensures SparesOthers(old(store), store, ds, owner)
      ensures errs == [] ==> PrunesOwned(old(store), store, ds, owner)
      ensures Touches(old(store), store, OwnedKeys(old(store), owner) + Keys(ds)) && KeepsHidden(old(store), store)
      ensures var upserted := AllUpserted(old(store), old(faults), ds, |ds|, owner);
        if upserted then PrunedOnly(UpsertAll(old(store), ds, |ds|, owner.Ref()), store)
        else errs != [] && old(store).objects.Keys <= store.objects.Keys
      ensures old(faults) == [] ==> (errs == [] <==> AllUpserted(old(store), [], ds, |ds|, owner))
    {
      ghost var keys := OwnedKeys(store, owner);
      ghost var first, faultsFirst := store, faults;
      var failed, owned, left := UpsertDesired(owner, ds, ownedObjects, keys);
      if failed != [] {
        OthersAreSpared(first, store, ds, owner);
        return failed;
      }
      ghost var all := store;
      if faultsFirst == [] { NoFaultsStay(first, ds, |ds|, owner); }
      var pruned, gone := DeleteObjects(owned, left);
      PruningOnly(all, gone);
      PruningKeepsHidden(first, all, owner, gone);
      OthersAreSpared(first, store, ds, owner);
      OwnedArePruned(first, ds, owner);
      return pruned;
    }

    method Reconcile(owner: Owner, ds: seq<Desired>) returns (errs: seq<Failure>)
      requires UniqueUids(store)
      modifies this
      ensures errs == [] ==> store == Reconciled(old(store), ds, owner)
      ensures SparesOthers(old(store), store, ds, owner)
      ensures errs == [] ==> PrunesOwned(old(store), store, ds, owner)
      ensures Touches(old(store), store, OwnedKeys(old(store), owner) + Keys(ds)) && KeepsHidden(old(store), store)
      ensures var upserted := Lists(old(faults)) && AllUpserted(old(store), Tail(Tail(old(faults))), ds, |ds|, owner);
        if upserted then PrunedOnly(UpsertAll(old(store), ds, |ds|, owner.Ref()), store)
        else errs != [] && old(store).objects.Keys <= store.objects.Keys
      ensures old(faults) == [] ==> (errs == [] <==> AllUpserted(old(store), [], ds, |ds|, owner))
    {
      var owned := FindOwnedObjects(owner);
      if owned.Err? { return [owned.error]; }
      errs := ReconcileDesiredObjects(owner, ds, owned.value);
    }
  }
}
