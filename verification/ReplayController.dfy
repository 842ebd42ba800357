/** The replay adapter and controller in the form of internal/controller/mdaireplay_adapter.go and
    mdaireplay_controller.go: operations that edit the adapter's resource and write through a client.
    Each is proved to do what its function in ReplayPass says. */
module ReplayController {
  import opened Wrappers
  import opened ReplayWorld
  import P = ReplayPass

  /** The API client, the metrics endpoint and everybody else. */
  class Client {
    var world: World

    constructor (world: World)
      ensures this.world == world
    {
      this.world := world;
    }

    method Start()
      modifies this
      ensures world == old(world).(log := [])
    {
      world := world.(log := []);
    }

    method Note(e: Event)
      modifies this
      ensures world == old(world).(log := old(world).log + [e])
    {
      world := world.(log := world.log + [e]);
    }

    method Get() returns (r: Result<CR, ApiError>)
      modifies this
      ensures (world, r) == GetCR(old(world))
    {
      r := GetCR(world).1;
      world := GetCR(world).0;
    }

    method Update(cr: CR) returns (r: Result<CR, ApiError>)
      modifies this
      ensures (world, r) == UpdateCR(old(world), cr)
    {
      r := UpdateCR(world, cr).1;
      world := UpdateCR(world, cr).0;
    }

    method StatusUpdate(cr: CR) returns (r: Result<CR, ApiError>)
      modifies this
      ensures (world, r) == UpdateStatus(old(world), cr)
    {
      r := UpdateStatus(world, cr).1;
      world := UpdateStatus(world, cr).0;
    }

    method GetMetricValue() returns (reading: QueueReading)
      modifies this
      ensures (world, reading) == ReadQueue(old(world))
    {
      reading := ReadQueue(world).1;
      world := ReadQueue(world).0;
    }

    method GetObject(key: ChildKey) returns (r: Result<Option<Child>, ApiError>)
      modifies this
      ensures (world, r) == GetChild(old(world), key)
    {
      r := GetChild(world, key).1;
      world := GetChild(world, key).0;
    }

    method WriteObject(key: ChildKey, read: Option<Child>, body: Body) returns (r: Result<Child, ApiError>)
      modifies this
      ensures (world, r) == WriteChild(old(world), key, read, body)
    {
      r := WriteChild(world, key, read, body).1;
      world := WriteChild(world, key, read, body).0;
    }

    method CreateOrUpdateObject(key: ChildKey, mutate: Option<Body> -> Option<Body>)
      returns (r: Result<Child, ChildError>)
      modifies this
      ensures (world, r) == CreateOrUpdate(old(world), key, mutate)
    {
      var read := GetObject(key);
      if read.Err? { return Err(Call(read.error)); }
      var body := mutate(if read.value.Some? then Some(read.value.value.body) else None);
      if body.None? { return Err(NilMap); }
      if read.value.Some? && body.value == read.value.value.body { return Ok(read.value.value); }
      var written := WriteObject(key, read.value, body.value);
      return Written(written);
    }
  }

  class ReplayAdapter {
    const name: string
    const client: Client
    var replayCR: CR

    constructor (name: string, client: Client, cr: CR)
      ensures this.name == name && this.client == client && replayCR == cr
    {
      this.name, this.client, replayCR := name, client, cr;
    }

    function State(): P.Pass
      reads this, client
    {
      P.Pass(client.world, replayCR)
    }

    method EnsureDeletionProcessed() returns (o: P.Outcome)
      modifies this, client
      ensures (State(), o) == P.EnsureDeletionProcessed(name, old(State()))
    {
      if !replayCR.deleting { return P.ContinueProcessing(); }
      var state := Finalize();
      if state.ObjectUnchanged? { return P.RequeueAfter(P.REQUEUE_TIME, state.err); }
      return P.StopProcessing();
    }

    method Finalize() returns (f: P.Finalized)
      modifies this, client
      ensures (State(), f) == P.Finalize(name, old(State()))
    {
      if ReplayFinalizer !in replayCR.finalizers { return P.ObjectModified; }
      if !replayCR.spec.ignoreSendingQueue {
        var size := client.GetMetricValue();
        if size.Unreadable? { return P.ObjectUnchanged(Some(P.QueueUnreadable)); }
        if size.size > 0.0 { return P.ObjectUnchanged(None); }
      }
      f := LetGo();
    }

    method LetGo() returns (f: P.Finalized)
      modifies this, client
      ensures (State(), f) == P.Release(name, old(State()))
    {
      var got := client.Get();
      if got.Err? {
        return if got.error == NotFound then P.ObjectModified else P.ObjectUnchanged(Some(P.Api(got.error)));
      }
      replayCR := got.value;
      replayCR := replayCR.(conditions := P.SetStatusCondition(replayCR.conditions, P.Finalizing(name)));
      if replayCR.conditions != got.value.conditions {
        var r := client.StatusUpdate(replayCR);
        if r.Err? {
          return if r.error == NotFound then P.ObjectModified else P.ObjectUnchanged(Some(P.Api(r.error)));
        }
        replayCR := r.value;
      }
      var err := DeleteFinalizer();
      return if err.Some? then P.ObjectUnchanged(err) else P.ObjectModified;
    }

    method DeleteFinalizer() returns (err: Option<P.Failure>)
      modifies this, client
      ensures (State(), err) == P.DeleteFinalizer(old(State()))
    {
      if ReplayFinalizer !in replayCR.finalizers { return None; }
      replayCR := replayCR.(finalizers := P.Without(replayCR.finalizers, ReplayFinalizer));
      var r := client.Update(replayCR);
      if r.Err? { return Some(P.Api(r.error)); }
      replayCR := r.value;
      return None;
    }

    method EnsureStatusInitialized() returns (o: P.Outcome)
      modifies this, client
      ensures (State(), o) == P.EnsureStatusInitialized(old(State()))
    {
      if |replayCR.conditions| != 0 { return P.ContinueProcessing(); }
      replayCR := replayCR.(conditions := P.SetStatusCondition(replayCR.conditions, P.STARTED));
      var r := client.StatusUpdate(replayCR);
      if r.Err? { return P.RequeueWithError(P.Api(r.error)); }
      replayCR := r.value;
      return P.StopProcessing();
    }

    method EnsureFinalizerInitialized() returns (o: P.Outcome)
      modifies this, client
      ensures (State(), o) == P.EnsureFinalizerInitialized(old(State()))
    {
      if ReplayFinalizer in replayCR.finalizers { return P.ContinueProcessing(); }
      replayCR := replayCR.(finalizers := replayCR.finalizers + [ReplayFinalizer]);
      var r := client.Update(replayCR);
      if r.Err? { return P.RequeueWithError(P.Api(r.error)); }
      replayCR := r.value;
      return P.StopProcessing();
    }

    method EnsureSynchronized() returns (o: P.Outcome)
      modifies this, client
      ensures (State(), o) == P.EnsureSynchronized(name, old(State()))
    {
      var spec := replayCR.spec;
      var config := P.BuildConfig(name, spec);
      if config.Err? { return P.RequeueWithError(config.error); }
      var configMap :=
        client.CreateOrUpdateObject(P.ConfigKey(name, spec),
                                    P.MutateConfigMap(P.ConfigLabels(name, spec), config.value));
      if configMap.Err? { return P.RequeueWithError(P.ChildFailure(configMap.error)); }
      var deployment :=
        client.CreateOrUpdateObject(P.DeploymentKey(name, spec), P.MutateDeployment(name, spec, configMap.value));
      if deployment.Err? {
        return if deployment.error == Call(Conflict) then P.Requeue()
        else P.RequeueWithError(P.ChildFailure(deployment.error));
      }
      var service := client.CreateOrUpdateObject(P.ServiceKey(name, spec), P.MutateService(name, spec));
      return if service.Err? then P.RequeueWithError(P.ChildFailure(service.error)) else P.ContinueProcessing();
    }

    method EnsureStatusSetToDone() returns (o: P.Outcome)
      modifies this, client
      ensures (State(), o) == P.EnsureStatusSetToDone(old(State()))
    {
      var got := client.Get();
      if got.Err? { return P.Requeue(); }
      replayCR := got.value;
      replayCR := replayCR.(conditions := P.SetStatusCondition(replayCR.conditions, P.DONE));
      var r := client.StatusUpdate(replayCR);
      if r.Err? { return P.Requeue(); }
      replayCR := r.value;
      return P.ContinueProcessing();
    }

    method Perform(op: P.Operation) returns (o: P.Outcome)
      modifies this, client
      ensures (State(), o) == P.Perform(op, name, old(State()))
    {
      match op {
        case DeletionProcessed => o := EnsureDeletionProcessed();
        case StatusInitialized => o := EnsureStatusInitialized();
        case FinalizerInitialized => o := EnsureFinalizerInitialized();
        case Synchronized => o := EnsureSynchronized();
        case StatusSetToDone => o := EnsureStatusSetToDone();
      }
    }

    /** Runs the operations in order until one ends the pass. */
    method ReconcileHandler() returns (reply: P.Reply)
      modifies this, client
      ensures (State(), reply) == P.Chain(0, name, old(State()))
    {
      var i := 0;
      while i < |P.OPERATIONS|
        invariant 0 <= i <= |P.OPERATIONS|
        invariant P.Chain(i, name, State()) == P.Chain(0, name, old(State()))
      {
        var o := Perform(P.OPERATIONS[i]);
        if o.err.Some? || o.result.requeueRequest { return P.Reply(o.result.requeueDelay, o.err); }
        if o.result.cancelRequest { return P.Reply(0, None); }
        i := i + 1;
      }
      return P.Reply(0, None);
    }
  }

  method Reconcile(name: string, client: Client) returns (reply: P.Reply)
    modifies client
    ensures (client.world, reply) == P.Reconcile(name, old(client.world))
  {
    client.Start();
    var got := client.Get();
    if got.Err? {
      return if got.error == NotFound then P.Reply(0, None) else P.Reply(0, Some(P.Api(got.error)));
    }
    client.Note(PassStarted(got.value));
    var adapter := new ReplayAdapter(name, client, got.value);
    reply := adapter.ReconcileHandler();
  }
}
