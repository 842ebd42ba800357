/** The objects of a namespace as the ingress reconciler sees them, and what an upsert and a pass over
    the desired objects are to leave behind: internal/controller/common.go, internal/manifests/mutate.go
    and the owner index of internal/controller/mdaiingress_controller.go. */
module DesiredStore {
  import opened RuleViews

  datatype Kind = Service | Ingress

  datatype Key = Key(kind: Kind, namespace: string, name: string)

  datatype OwnerRef = OwnerRef(kind: string, name: string, uid: nat)

  datatype Owner = Owner(kind: string, namespace: string, name: string, uid: nat) {
    function Ref(): OwnerRef { OwnerRef(kind, name, uid) }
  }

  datatype Spec =
    | ServiceSpec(ports: seq<string>, selector: map<string, string>, serviceType: string, trafficPolicy: string)
    | IngressSpec(backend: string, rules: seq<RuleView>, tls: seq<string>, className: string)

  datatype Label = ManagedBy | Version | Name | OtherLabel(key: string)

  datatype LabelValue = MdaiOperator | Value(text: string)

  type Labels = map<Label, LabelValue>

  datatype Object = Object(uid: nat, labels: Labels, annotations: map<string, string>, owners: seq<OwnerRef>,
                           spec: Spec)

  /** What a builder asks for; builders set no owners. */
  datatype Desired = Desired(key: Key, labels: Labels, annotations: map<string, string>, spec: Spec)

  /** `nextUid` is above every uid ever handed out. */
  datatype Store = Store(objects: map<Key, Object>, nextUid: nat)

  predicate UniqueUids(st: Store) {
    && (forall k | k in st.objects :: st.objects[k].uid < st.nextUid)
    && (forall j, k | j in st.objects && k in st.objects && st.objects[j].uid == st.objects[k].uid :: j == k)
  }

  // ---------- What the client sees ----------

  predicate IsManaged(labels: Labels) { ManagedBy in labels && labels[ManagedBy] == MdaiOperator }

  /** The cache that is read from holds all Ingresses, but only Services with the operator's label. */
  predicate Visible(kind: Kind, o: Object) { kind.Service? ==> IsManaged(o.labels) }

  /** An object that is there and cannot be read: reading it finds nothing, creating it fails. */
  predicate Hidden(st: Store, k: Key) { k in st.objects && !Visible(k.kind, st.objects[k]) }

  // ---------- Ownership by name ----------

  /** The owner index: a Service is listed under its first owner's name, an Ingress under every owner's. */
  predicate IndexedUnder(kind: Kind, o: Object, name: string) {
    match kind
    case Service => o.owners != [] && o.owners[0].name == name
    case Ingress => exists i | 0 <= i < |o.owners| :: o.owners[i].name == name
  }

  predicate Listed(st: Store, owner: Owner, k: Key) {
    && k in st.objects && k.namespace == owner.namespace && IndexedUnder(k.kind, st.objects[k], owner.name)
    && Visible(k.kind, st.objects[k])
  }

  function OwnedKeys(st: Store, owner: Owner): set<Key> {
    set k | k in st.objects && Listed(st, owner, k)
  }

  // ---------- One upsert ----------

  /** Of an existing Service only ports and selector are set, of an Ingress all but the class. A stored
      object is read into the type of the desired one, so the kinds agree. */
  function MutateSpec(existing: Spec, desired: Spec): Spec {
    match (existing, desired)
    case (ServiceSpec(_, _, _, _), ServiceSpec(ports, selector, _, _)) =>
      existing.(ports := ports, selector := selector)
    case (IngressSpec(_, _, _, _), IngressSpec(backend, rules, tls, _)) =>
      existing.(backend := backend, rules := rules, tls := tls)
    case _ => desired
  }

  /** The mutation of an existing object: labels and annotations of a Service are merged, those of an
      Ingress replaced. */
  function Mutate(existing: Object, d: Desired, ref: OwnerRef): Object {
    existing.(labels := if d.spec.ServiceSpec? then existing.labels + d.labels else d.labels,
              annotations := if d.spec.ServiceSpec? then existing.annotations + d.annotations else d.annotations,
              owners := [ref], spec := MutateSpec(existing.spec, d.spec))
  }

  function Created(d: Desired, ref: OwnerRef, uid: nat): Object {
    Object(uid, d.labels, d.annotations, [ref], d.spec)
  }

  function Upsert(st: Store, d: Desired, ref: OwnerRef): (r: Store)
    ensures d.key in r.objects && r.objects.Keys == st.objects.Keys + {d.key}
  {
    if d.key in st.objects then st.(objects := st.objects[d.key := Mutate(st.objects[d.key], d, ref)])
    else Store(st.objects[d.key := Created(d, ref, st.nextUid)], st.nextUid + 1)
  }

  predicate NeedsWrite(st: Store, d: Desired, ref: OwnerRef) { Upsert(st, d, ref) != st }

  // ---------- A whole pass ----------

  function Keys(ds: seq<Desired>): set<Key> { FirstKeys(ds, |ds|) }

  function FirstKeys(ds: seq<Desired>, n: nat): set<Key>
    requires n <= |ds|
  {
    set i | 0 <= i < n :: ds[i].key
  }

  /** The first n desired objects upserted, in order. */
  function UpsertAll(st: Store, ds: seq<Desired>, n: nat, ref: OwnerRef): Store
    requires n <= |ds|
  {
    if n == 0 then st else Upsert(UpsertAll(st, ds, n - 1, ref), ds[n - 1], ref)
  }

  function Prune(st: Store, keys: set<Key>): Store { st.(objects := st.objects - keys) }

  /** What a pass without a failure leaves. */
  function Reconciled(st: Store, ds: seq<Desired>, owner: Owner): Store {
    Prune(UpsertAll(st, ds, |ds|, owner.Ref()), OwnedKeys(st, owner) - Keys(ds))
  }

  // ---------- Calls that fail ----------

  /** `Lost` is a write that took effect although its caller got an error. */
  datatype Fault = NoFault | Conflict | OtherFailure | Lost

  const RETRIES: nat := 5

  /** No fault is left once the script is used up. */
  function Head(faults: seq<Fault>): Fault { if faults == [] then NoFault else faults[0] }

  function Tail(faults: seq<Fault>): seq<Fault> { if faults == [] then [] else faults[1..] }

  /** What an upsert leaves: the store, the faults to come, and its own. */
  datatype Tried = Tried(store: Store, faults: seq<Fault>, fault: Fault)

  /** One attempt: a read and, if anything is to be written, a write. */
  function Attempt(st: Store, faults: seq<Fault>, d: Desired, ref: OwnerRef): Tried {
    var read, rest := Head(faults), Tail(faults);
    var write := Head(rest);
    if read != NoFault then Tried(st, rest, read)
    else if Hidden(st, d.key) then Tried(st, Tail(rest), if write == Conflict then Conflict else OtherFailure)
    else if !NeedsWrite(st, d, ref) then Tried(st, rest, NoFault)
    else Tried(if write in {NoFault, Lost} then Upsert(st, d, ref) else st, Tail(rest), write)
  }

  /** Attempts while they end in conflicts. */
  function Retry(st: Store, faults: seq<Fault>, d: Desired, ref: OwnerRef, attempts: nat): Tried {
    if attempts == 0 then Tried(st, faults, Conflict)
    else
      var t := Attempt(st, faults, d, ref);
      if t.fault == Conflict then Retry(t.store, t.faults, d, ref, attempts - 1) else t
  }

  /** Whether one of the attempts gets through; only a conflict is tried again. */
  predicate Survives(faults: seq<Fault>, writes: bool, attempts: nat)
    decreases attempts
  {
    attempts > 0 &&
    var read := Head(faults);
    var rest := Tail(faults);
    if read != NoFault then read == Conflict && Survives(rest, writes, attempts - 1)
    else !writes || Head(rest) == NoFault || (Head(rest) == Conflict && Survives(Tail(rest), writes, attempts - 1))
  }

  /** The first n desired objects, each in the owner's namespace tried with what the one before left. */
  function TryAll(st: Store, faults: seq<Fault>, ds: seq<Desired>, n: nat, owner: Owner): (Store, seq<Fault>)
    requires n <= |ds|
  {
    if n == 0 then (st, faults)
    else
      var (s, fs) := TryAll(st, faults, ds, n - 1, owner);
      if ds[n - 1].key.namespace != owner.namespace then (s, fs)
      else
        var t := Retry(s, fs, ds[n - 1], owner.Ref(), RETRIES);
        (t.store, t.faults)
  }

  /** Desired object number i is upserted: it is in the owner's namespace, can be read if it is there, and
      one of its attempts survives. */
  predicate GetsUpserted(st: Store, faults: seq<Fault>, ds: seq<Desired>, i: nat, owner: Owner)
    requires i < |ds|
  {
    var (s, fs) := TryAll(st, faults, ds, i, owner);
    && ds[i].key.namespace == owner.namespace && !Hidden(s, ds[i].key)
    && Survives(fs, NeedsWrite(s, ds[i], owner.Ref()), RETRIES)
  }

  predicate AllUpserted(st: Store, faults: seq<Fault>, ds: seq<Desired>, n: nat, owner: Owner)
    requires n <= |ds|
  {
    forall i | 0 <= i < n :: GetsUpserted(st, faults, ds, i, owner)
  }
}
