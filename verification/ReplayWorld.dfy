/** The cluster as the replay controller sees it: one MdaiReplay, its children and the sending queue,
    reached through API calls that may fail and between which other clients may act. */
module ReplayWorld {
  import opened Wrappers

  // ---------- Stored objects ----------

  datatype S3Configuration = S3Configuration(region: string, bucket: string, filePrefix: string, path: string,
                                             partition: string)

  datatype ReplaySpec = ReplaySpec(
    startTime: string, endTime: string, telemetryType: string, hubName: string, statusVariableRef: string,
    opampEndpoint: string, ignoreSendingQueue: bool, awsAccessKeySecret: Option<string>,
    s3: Option<S3Configuration>, otlpHttpEndpoint: Option<string>, image: string)

  datatype ConditionType = Available | Degraded | OtherCondition(name: string)

  datatype ConditionStatus = True | False | Unknown

  datatype Reason = Reconciling | FinalizingReason | OtherReason(text: string)

  datatype Message =
    | StartingReconciliation | ReconciledSuccessfully | FinalizerAccomplished(name: string) | OtherMessage(text: string)

  datatype Condition = Condition(kind: ConditionType, status: ConditionStatus, reason: Reason, message: Message)

  /** The controller's own finalizer, or somebody else's. */
  datatype Finalizer = ReplayFinalizer | OtherFinalizer(name: string)

  datatype CR = CR(spec: ReplaySpec, finalizers: seq<Finalizer>, conditions: seq<Condition>, deleting: bool,
                   version: nat)

  datatype ChildKind = ConfigMap | Deployment | Service

  datatype ChildKey = ChildKey(kind: ChildKind, name: string)

  /** The collector configuration a replay is rendered to. */
  datatype ReplayConfig = ReplayConfig(
    replayId: string, hubName: string, statusVariableRef: string, opampEndpoint: string,
    startTime: string, endTime: string, s3: S3Configuration,
    exporterEndpoint: Option<string>, replayPipelineType: Option<string>)

  datatype Text = Rendered(config: ReplayConfig) | Raw(text: string)

  datatype DataKey = CollectorYaml | OtherKey(name: string)

  datatype Label = AppLabel | HubNameLabel | ManagedByLabel | ComponentLabel | OtherLabel(name: string)

  datatype LabelValue = MdaiOperator | MdaiReplay | MdaiObserver | Value(text: string)

  type Labels = map<Label, LabelValue>

  datatype Image = DefaultImage | NamedImage(name: string)

  /** What a child holds; a deployment's hash annotation is kept as the object that was hashed. */
  datatype Body =
    | ConfigMapBody(labels: Labels, data: map<DataKey, Text>)
    | DeploymentBody(labels: Labels, image: Image, secret: Option<string>, hashed: Option<Child>)
    | ServiceBody(labels: Labels, selector: string)

  datatype Child = Child(body: Body, version: nat)

  /** The client reads from a cache that only holds children with the operator's label. */
  predicate Visible(b: Body) { ManagedByLabel in b.labels && b.labels[ManagedByLabel] == MdaiOperator }

  datatype QueueReading = Unreadable | Size(size: real)

  /** `clock` is the last resource version handed out. */
  datatype Store = Store(cr: Option<CR>, children: map<ChildKey, Child>, queue: QueueReading, clock: nat)

  // ---------- What other clients may do ----------

  datatype UserAct =
    | Delete
    | Edit(spec: ReplaySpec)
    | SetFinalizers(finalizers: seq<Finalizer>)
    | Create(spec: ReplaySpec, finalizers: seq<Finalizer>)
    | SetQueue(queue: QueueReading)
    | PutChild(key: ChildKey, body: Body)
    | DropChild(key: ChildKey)

  function Act(st: Store, act: UserAct): Store {
    match act
    case Delete =>
      if st.cr.None? then st
      else if st.cr.value.finalizers == [] then st.(cr := None)
      else st.(cr := Some(st.cr.value.(deleting := true, version := st.clock + 1)), clock := st.clock + 1)
    case Edit(spec) =>
      if st.cr.None? then st
      else st.(cr := Some(st.cr.value.(spec := spec, version := st.clock + 1)), clock := st.clock + 1)
    case SetFinalizers(fs) =>
      if st.cr.None? then st
      else if st.cr.value.deleting && fs == [] then st.(cr := None)
      else st.(cr := Some(st.cr.value.(finalizers := fs, version := st.clock + 1)), clock := st.clock + 1)
    case Create(spec, fs) =>
      if st.cr.Some? then st
      else st.(cr := Some(CR(spec, fs, [], false, st.clock + 1)), clock := st.clock + 1)
    case SetQueue(q) => st.(queue := q)
    case PutChild(k, b) => st.(children := st.children[k := Child(b, st.clock + 1)], clock := st.clock + 1)
    case DropChild(k) => st.(children := st.children - {k})
  }

  function Acts(st: Store, acts: seq<UserAct>): Store
    decreases |acts|
  {
    if acts == [] then st else Acts(Act(st, acts[0]), acts[1..])
  }

  // ---------- API calls ----------

  datatype ApiError = NotFound | Conflict | OtherError

  /** `Lost` is a call that took effect although its caller got an error. */
  datatype Fault = NoFault | Fail(error: ApiError) | Lost

  /** What happens around one API call: acts of others before it, and its fate. */
  datatype Tick = Tick(acts: seq<UserAct>, fault: Fault)

  datatype Event =
    | PassStarted(fetched: CR)
    | QueueRead(reading: QueueReading)
    | CRWritten(before: CR, after: CR)
    | StatusWritten(before: CR, after: CR)
    | ChildWritten(key: ChildKey)

  /** The store, the script of what is still to happen around the coming calls (nothing once it is
      used up), and the events of the pass that is running. */
  datatype World = World(store: Store, script: seq<Tick>, log: seq<Event>)

  function Advance(w: World): World {
    if w.script == [] then w else w.(store := Acts(w.store, w.script[0].acts), script := w.script[1..])
  }

  function NextFault(w: World): Fault {
    if w.script == [] then NoFault else w.script[0].fault
  }

  /** The answer of a call that took effect. */
  function Answer<T>(fault: Fault, value: T): Result<T, ApiError> {
    if fault == Lost then Err(OtherError) else Ok(value)
  }

  function GetCR(w: World): (World, Result<CR, ApiError>) {
    var v := Advance(w);
    (v, match NextFault(w)
        case Fail(e) => Err(e)
        case Lost => Err(OtherError)
        case NoFault => if v.store.cr.None? then Err(NotFound) else Ok(v.store.cr.value))
  }

  /** An update of metadata and spec, guarded by the resource version. */
  function UpdateCR(w: World, local: CR): (World, Result<CR, ApiError>) {
    var v, fault := Advance(w), NextFault(w);
    if fault.Fail? then (v, Err(fault.error))
    else if v.store.cr.None? then (v, Err(NotFound))
    else
      var stored := v.store.cr.value;
      var wanted := stored.(spec := local.spec, finalizers := local.finalizers);
      if stored.version != local.version then (v, Err(Conflict))
      else if wanted == stored then (v, Answer(fault, stored))
      else
        var after := wanted.(version := v.store.clock + 1);
        var gone := stored.deleting && after.finalizers == [];
        (v.(store := v.store.(cr := if gone then None else Some(after), clock := v.store.clock + 1),
            log := v.log + [CRWritten(stored, after)]),
         Answer(fault, after))
  }

  /** An update of the status subresource. */
  function UpdateStatus(w: World, local: CR): (World, Result<CR, ApiError>) {
    var v, fault := Advance(w), NextFault(w);
    if fault.Fail? then (v, Err(fault.error))
    else if v.store.cr.None? then (v, Err(NotFound))
    else
      var stored := v.store.cr.value;
      var wanted := stored.(conditions := local.conditions);
      if stored.version != local.version then (v, Err(Conflict))
      else if wanted == stored then (v, Answer(fault, stored))
      else
        var after := wanted.(version := v.store.clock + 1);
        (v.(store := v.store.(cr := Some(after), clock := v.store.clock + 1),
            log := v.log + [StatusWritten(stored, after)]),
         Answer(fault, after))
  }

  function ReadQueue(w: World): (World, QueueReading) {
    var v := Advance(w);
    var reading := if NextFault(w) == NoFault then v.store.queue else Unreadable;
    (v.(log := v.log + [QueueRead(reading)]), reading)
  }

  function GetChild(w: World, key: ChildKey): (World, Result<Option<Child>, ApiError>) {
    var v := Advance(w);
    (v, match NextFault(w)
        case Fail(e) => if e == NotFound then Ok(None) else Err(e)
        case Lost => Err(OtherError)
        case NoFault =>
          Ok(if key in v.store.children && Visible(v.store.children[key].body)
             then Some(v.store.children[key]) else None))
  }

  /** A create, which fails for a child that is there, or an update of the version that was read. */
  function WriteChild(w: World, key: ChildKey, read: Option<Child>, body: Body): (World, Result<Child, ApiError>) {
    var v, fault := Advance(w), NextFault(w);
    if fault.Fail? then (v, Err(fault.error))
    else if read.None? && key in v.store.children then (v, Err(OtherError))
    else if read.Some? && key !in v.store.children then (v, Err(NotFound))
    else if read.Some? && v.store.children[key].version != read.value.version then (v, Err(Conflict))
    else
      var child := Child(body, v.store.clock + 1);
      (v.(store := v.store.(children := v.store.children[key := child], clock := v.store.clock + 1),
          log := v.log + [ChildWritten(key)]),
       Answer(fault, child))
  }

  /** Why a child was not written: a call failed, or the mutation wrote into a map that is nil, which panics. */
  datatype ChildError = Call(error: ApiError) | NilMap

  function Written(r: Result<Child, ApiError>): Result<Child, ChildError> {
    if r.Err? then Err(Call(r.error)) else Ok(r.value)
  }

  /** The controller-runtime helper: read, apply the mutation, create or write back what changed. A mutation
      without a result panics. */
  function CreateOrUpdate(w: World, key: ChildKey, mutate: Option<Body> -> Option<Body>)
    : (World, Result<Child, ChildError>)
  {
    var (v, read) := GetChild(w, key);
    if read.Err? then (v, Err(Call(read.error)))
    else
      var body := mutate(if read.value.Some? then Some(read.value.value.body) else None);
      if body.None? then (v, Err(NilMap))
      else if read.value.Some? && body.value == read.value.value.body then (v, Ok(read.value.value))
      else
        var (x, r) := WriteChild(v, key, read.value, body.value);
        (x, Written(r))
  }
}
