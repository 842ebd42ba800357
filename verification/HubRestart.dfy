/** Writing a hub's environment to the namespaces of its collectors and restarting them:
    syncComputedConfigMapsAndRestart of internal/controller/hub_adapter.go. */
module HubRestart {
  import opened Wrappers

  type EnvMap = map<string, string>

  datatype Collector = Collector(namespace: string, name: string)

  /** A restart is an update of the collector's restart annotation; its audit event holds the environment. */
  datatype Restart = Restart(collector: Collector, audit: Option<EnvMap>)

  datatype Fault = NoFault | Conflict | OtherFailure

  // ---------- Specification ----------

  /** The namespace has no env ConfigMap, or one with other contents. */
  predicate Stale(configMaps: map<string, EnvMap>, namespace: string, env: EnvMap) {
    namespace !in configMaps || configMaps[namespace] != env
  }

  /** The ConfigMaps once those of the first n collectors are written. */
  function Written(configMaps: map<string, EnvMap>, cs: seq<Collector>, n: nat, env: EnvMap): map<string, EnvMap>
    requires n <= |cs|
  {
    if n == 0 then configMaps else Written(configMaps, cs, n - 1, env)[cs[n - 1].namespace := env]
  }

  predicate NamespaceAmong(cs: seq<Collector>, n: nat, namespace: string)
    requires n <= |cs|
  {
    exists i | 0 <= i < n :: cs[i].namespace == namespace
  }

  lemma {:induction false} WrittenExactly(configMaps: map<string, EnvMap>, cs: seq<Collector>, n: nat, env: EnvMap,
                                          namespace: string)
    requires n <= |cs|
    ensures var after := Written(configMaps, cs, n, env);
      if NamespaceAmong(cs, n, namespace) then namespace in after && after[namespace] == env
      else (namespace in after <==> namespace in configMaps) &&
           (namespace in after ==> after[namespace] == configMaps[namespace])
  {
    if n > 0 { WrittenExactly(configMaps, cs, n - 1, env, namespace); }
  }

  /** The namespaces among the first n collectors' that were stale. */
  predicate ToRestart(configMaps: map<string, EnvMap>, cs: seq<Collector>, n: nat, env: EnvMap, namespace: string)
    requires n <= |cs|
  {
    NamespaceAmong(cs, n, namespace) && Stale(configMaps, namespace, env)
  }

  /** A restart with its audit event for each of the first n collectors whose namespace was stale, except
      the skipped ones, in order. */
  function Restarts(configMaps: map<string, EnvMap>, cs: seq<Collector>, n: nat, env: EnvMap,
                    skipped: set<nat>): seq<Restart>
    requires n <= |cs|
  {
    if n == 0 then []
    else
      var before := Restarts(configMaps, cs, n - 1, env, skipped);
      if Stale(configMaps, cs[n - 1].namespace, env) && n - 1 !in skipped then before + [Restart(cs[n - 1], Some(env))]
      else before
  }

  /** How far a pass got: it stopped behind the first n ConfigMaps, or at the restart of collector number
      m, which may have been made without its audit event, or nowhere. */
  datatype Progress =
    | BehindConfigMaps(n: nat)
    | AtRestart(m: nat, skipped: set<nat>, unaudited: bool)
    | Finished(skipped: set<nat>)

  /** A pass can get that far; it only stops at a restart that it has to make. */
  predicate Possible(p: Progress, configMaps: map<string, EnvMap>, cs: seq<Collector>, env: EnvMap) {
    match p
    case BehindConfigMaps(n) => n <= |cs|
    case AtRestart(m, _, _) => m < |cs| && Stale(configMaps, cs[m].namespace, env)
    case Finished(_) => true
  }

  function MapsLeft(p: Progress, configMaps: map<string, EnvMap>, cs: seq<Collector>, env: EnvMap): map<string, EnvMap>
    requires Possible(p, configMaps, cs, env)
  {
    Written(configMaps, cs, if p.BehindConfigMaps? then p.n else |cs|, env)
  }

  function RestartsMade(p: Progress, configMaps: map<string, EnvMap>, cs: seq<Collector>, env: EnvMap): seq<Restart>
    requires Possible(p, configMaps, cs, env)
  {
    match p
    case BehindConfigMaps(_) => []
    case AtRestart(m, skipped, unaudited) =>
      Restarts(configMaps, cs, m, env, skipped) + (if unaudited then [Restart(cs[m], None)] else [])
    case Finished(skipped) => Restarts(configMaps, cs, |cs|, env, skipped)
  }

  // ---------- The controller ----------

  class HubAdapter {
    const collectors: seq<Collector>
    var configMaps: map<string, EnvMap>
    var log: seq<Restart>
    var faults: seq<Fault>

    constructor (collectors: seq<Collector>, configMaps: map<string, EnvMap>, faults: seq<Fault>)
      ensures this.collectors == collectors && this.configMaps == configMaps && this.faults == faults && log == []
    {
      this.collectors, this.configMaps, this.faults, log := collectors, configMaps, faults, [];
    }

    method NextFault() returns (f: Fault)
      modifies this`faults
      ensures old(faults) == [] ==> f == NoFault && faults == []
      ensures NoConflictIn(old(faults)) ==> f != Conflict && NoConflictIn(faults)
    {
      if faults == [] { return NoFault; }
      f := faults[0];
      faults := faults[1..];
    }

    static predicate NoConflictIn(faults: seq<Fault>) { forall i | 0 <= i < |faults| :: faults[i] != Conflict }

    /** Reads the ConfigMap and creates or updates it if it has to. */
    method CreateOrUpdateEnvConfigMap(env: EnvMap, namespace: string) returns (r: Result<bool, Fault>)
      modifies this`configMaps, this`faults
      ensures r.Err? ==> configMaps == old(configMaps)
      ensures r.Ok? ==>
        configMaps == old(configMaps)[namespace := env] && (r.value <==> Stale(old(configMaps), namespace, env))
      ensures old(faults) == [] ==> r.Ok? && faults == []
      ensures NoConflictIn(old(faults)) ==> NoConflictIn(faults)
    {
      var f := NextFault();
      if f != NoFault { return Err(f); }
      if namespace in configMaps && configMaps[namespace] == env {
        assert configMaps[namespace := env] == configMaps;
        return Ok(false);
      }
      f := NextFault();
      if f != NoFault { return Err(f); }
      configMaps := configMaps[namespace := env];
      return Ok(true);
    }

    /** A conflict is passed over in silence: no restart, no audit event, no error. */
    method RestartCollectorAndAudit(c: Collector, env: EnvMap) returns (err: Option<Fault>, ghost skipped: bool)
      modifies this`log, this`faults
      ensures skipped ==> err.None? && log == old(log)
      ensures err.None? && !skipped ==> log == old(log) + [Restart(c, Some(env))]
      ensures err.Some? ==> log == old(log) || log == old(log) + [Restart(c, None)]
      ensures old(faults) == [] ==> err.None? && faults == []
      ensures NoConflictIn(old(faults)) ==> !skipped && NoConflictIn(faults)
    {
      var f := NextFault();
      if f == Conflict { return None, true; }
      if f != NoFault { return Some(f), false; }
      log := log + [Restart(c, None)];
      f := NextFault();
      if f != NoFault { return Some(f), false; }
      log := log[|log| - 1 := Restart(c, Some(env))];
      return None, false;
    }

    /** First all ConfigMaps, then all restarts. If nothing fails, every collector's namespace has the
        environment, and exactly the collectors whose namespace was stale have been restarted, each with one
        audit event, except those whose update met a conflict. After an error ConfigMaps and restarts are
        those up to where it happened. */
    method SyncComputedConfigMapsAndRestart(env: EnvMap) returns (err: Option<Fault>, ghost p: Progress)
      modifies this
      ensures Possible(p, old(configMaps), collectors, env)
      ensures configMaps == MapsLeft(p, old(configMaps), collectors, env)
      ensures log == old(log) + RestartsMade(p, old(configMaps), collectors, env)
      ensures err.None? <==> p.Finished?
      ensures NoConflictIn(old(faults)) && !p.BehindConfigMaps? ==> p.skipped == {}
      ensures old(faults) == [] ==> err.None?
    {
      var f := NextFault();
      if f != NoFault { return Some(f), BehindConfigMaps(0); }
      var namespaces: set<string> := {};
      for n := 0 to |collectors|
        invariant configMaps == Written(old(configMaps), collectors, n, env) && log == old(log)
        invariant forall k :: k in namespaces <==> ToRestart(old(configMaps), collectors, n, env, k)
        invariant old(faults) == [] ==> faults == []
        invariant NoConflictIn(old(faults)) ==> NoConflictIn(faults)
      {
        var namespace := collectors[n].namespace;
        WrittenExactly(old(configMaps), collectors, n, env, namespace);
        OneMoreToRestart(old(configMaps), collectors, n, env);
        var r := CreateOrUpdateEnvConfigMap(env, namespace);
        if r.Err? { return Some(r.error), BehindConfigMaps(n); }
        if r.value { namespaces := namespaces + {namespace}; }
      }
      err, p := RestartAll(env, namespaces, old(configMaps));
    }

    method RestartAll(env: EnvMap, namespaces: set<string>, ghost before: map<string, EnvMap>)
      returns (err: Option<Fault>, ghost p: Progress)
      requires forall k :: k in namespaces <==> ToRestart(before, collectors, |collectors|, env, k)
      modifies this`log, this`faults
      ensures !p.BehindConfigMaps? && Possible(p, before, collectors, env)
      ensures log == old(log) + RestartsMade(p, before, collectors, env)
      ensures err.None? <==> p.Finished?
      ensures NoConflictIn(old(faults)) ==> p.skipped == {}
      ensures old(faults) == [] ==> err.None?
    {
      ghost var skipped: set<nat> := {};
      for n := 0 to |collectors|
        invariant log == old(log) + Restarts(before, collectors, n, env, skipped)
        invariant forall i | i in skipped :: i < n
        invariant old(faults) == [] ==> faults == []
        invariant NoConflictIn(old(faults)) ==> skipped == {} && NoConflictIn(faults)
      {
        var c := collectors[n];
        assert ToRestart(before, collectors, |collectors|, env, c.namespace) <==> Stale(before, c.namespace, env);
        SkippedLater(before, collectors, n, env, skipped, n);
        if c.namespace in namespaces {
          ghost var conflicted, sofar := false, log;
          err, conflicted := RestartCollectorAndAudit(c, env);
          if err.Some? { return err, AtRestart(n, skipped, log != sofar); }
          skipped := if conflicted then skipped + {n} else skipped;
        }
      }
      return None, Finished(skipped);
    }
  }

  lemma OneMoreToRestart(configMaps: map<string, EnvMap>, cs: seq<Collector>, n: nat, env: EnvMap)
    requires n < |cs|
    ensures forall k :: ToRestart(configMaps, cs, n + 1, env, k) <==>
      ToRestart(configMaps, cs, n, env, k) || (k == cs[n].namespace && Stale(configMaps, k, env))
  {
    forall k ensures NamespaceAmong(cs, n + 1, k) <==> NamespaceAmong(cs, n, k) || k == cs[n].namespace {
      if k == cs[n].namespace { assert cs[n].namespace == k; }
    }
  }

  lemma {:induction false} SkippedLater(configMaps: map<string, EnvMap>, cs: seq<Collector>, n: nat, env: EnvMap,
                                        skipped: set<nat>, k: nat)
    requires n <= k <= |cs|
    ensures Restarts(configMaps, cs, n, env, skipped + {k}) == Restarts(configMaps, cs, n, env, skipped)
  {
    if n > 0 { SkippedLater(configMaps, cs, n - 1, env, skipped, k); }
  }

  // ---------- What a pass amounts to ----------

  predicate Distinct(cs: seq<Collector>) { forall i, j | 0 <= i < j < |cs| :: cs[i] != cs[j] }

  /** How often a collector is restarted with an audit event of this environment. */
  function Count(log: seq<Restart>, c: Collector, env: EnvMap): nat {
    if log == [] then 0
    else Count(log[..|log| - 1], c, env) + if log[|log| - 1] == Restart(c, Some(env)) then 1 else 0
  }

  lemma CountSnoc(log: seq<Restart>, r: Restart, c: Collector, env: EnvMap)
    ensures Count(log + [r], c, env) == Count(log, c, env) + if r == Restart(c, Some(env)) then 1 else 0
  {
    assert (log + [r])[..|log|] == log;
  }

  lemma {:induction false} RestartsCount(configMaps: map<string, EnvMap>, cs: seq<Collector>, n: nat, env: EnvMap,
                                         skipped: set<nat>, i: nat)
    requires n <= |cs| && i < |cs| && Distinct(cs)
    ensures Count(Restarts(configMaps, cs, n, env, skipped), cs[i], env)
      == if i < n && Stale(configMaps, cs[i].namespace, env) && i !in skipped then 1 else 0
  {
    if n > 0 {
      RestartsCount(configMaps, cs, n - 1, env, skipped, i);
      CountSnoc(Restarts(configMaps, cs, n - 1, env, skipped), Restart(cs[n - 1], Some(env)), cs[i], env);
      assert i == n - 1 || cs[i] != cs[n - 1];
    }
  }

  /** Every restart has its audit event, and is of a collector whose namespace was stale. */
  lemma {:induction false} OnlyStaleAreRestarted(configMaps: map<string, EnvMap>, cs: seq<Collector>, n: nat,
                                                 env: EnvMap, skipped: set<nat>, k: nat)
    requires n <= |cs| && k < |Restarts(configMaps, cs, n, env, skipped)|
    ensures var r := Restarts(configMaps, cs, n, env, skipped)[k];
      r.audit == Some(env) && Stale(configMaps, r.collector.namespace, env) && r.collector in cs
  {
    if k < |Restarts(configMaps, cs, n - 1, env, skipped)| {
      OnlyStaleAreRestarted(configMaps, cs, n - 1, env, skipped, k);
    }
  }

  /** Without a conflict a collector is restarted once if its namespace's ConfigMap was missing or
      different, and not at all otherwise. */
  lemma RestartedIff(configMaps: map<string, EnvMap>, cs: seq<Collector>, env: EnvMap, i: nat)
    requires Distinct(cs) && i < |cs|
    ensures Count(Restarts(configMaps, cs, |cs|, env, {}), cs[i], env) ==
      if Stale(configMaps, cs[i].namespace, env) then 1 else 0
  {
    RestartsCount(configMaps, cs, |cs|, env, {}, i);
  }

  // ---------- The next pass ----------

  lemma {:induction false} NothingStale(configMaps: map<string, EnvMap>, cs: seq<Collector>, n: nat, env: EnvMap,
                                        skipped: set<nat>)
    requires n <= |cs| && forall i | 0 <= i < n :: !Stale(configMaps, cs[i].namespace, env)
    ensures Restarts(configMaps, cs, n, env, skipped) == [] && Written(configMaps, cs, n, env) == configMaps
  {
    if n > 0 {
      NothingStale(configMaps, cs, n - 1, env, skipped);
      assert configMaps[cs[n - 1].namespace := env] == configMaps;
    }
  }

  /** After a pass that succeeded, another with the same environment restarts nothing and writes nothing:
      not even a collector whose restart the first one skipped over a conflict. */
  lemma SkippedIsNotRetried(configMaps: map<string, EnvMap>, cs: seq<Collector>, env: EnvMap, skipped: set<nat>)
    ensures var after := Written(configMaps, cs, |cs|, env);
      Restarts(after, cs, |cs|, env, skipped) == [] && Written(after, cs, |cs|, env) == after
  {
    var after := Written(configMaps, cs, |cs|, env);
    forall i | 0 <= i < |cs| ensures !Stale(after, cs[i].namespace, env) {
      WrittenExactly(configMaps, cs, |cs|, env, cs[i].namespace);
    }
    NothingStale(after, cs, |cs|, env, skipped);
  }

  /** After a pass that failed behind the n-th ConfigMap, the next restarts just those of the stale
      collectors whose namespace the first one had not yet written. */
  lemma InterruptedPassForgets(configMaps: map<string, EnvMap>, cs: seq<Collector>, n: nat, env: EnvMap, i: nat)
    requires Distinct(cs) && n <= |cs| && i < |cs|
    ensures Count(Restarts(Written(configMaps, cs, n, env), cs, |cs|, env, {}), cs[i], env) ==
      if Stale(configMaps, cs[i].namespace, env) && !NamespaceAmong(cs, n, cs[i].namespace) then 1 else 0
  {
    WrittenExactly(configMaps, cs, n, env, cs[i].namespace);
    RestartedIff(Written(configMaps, cs, n, env), cs, env, i);
  }

  /** So over one environment, through a first pass that succeeded and a second, each stale collector
      is restarted exactly once unless the first pass skipped it, and then never. */
  lemma RestartedOverTwoPasses(configMaps: map<string, EnvMap>, cs: seq<Collector>, env: EnvMap, skipped: set<nat>,
                               i: nat)
    requires Distinct(cs) && i < |cs|
    ensures var after := Written(configMaps, cs, |cs|, env);
      var log := Restarts(configMaps, cs, |cs|, env, skipped) + Restarts(after, cs, |cs|, env, {});
      Count(log, cs[i], env) == if Stale(configMaps, cs[i].namespace, env) && i !in skipped then 1 else 0
  {
    SkippedIsNotRetried(configMaps, cs, env, {});
    RestartsCount(configMaps, cs, |cs|, env, skipped, i);
    var log := Restarts(configMaps, cs, |cs|, env, skipped);
    assert log + [] == log;
  }

  // ---------- Any number of passes ----------

  /** How often a collector is restarted, with an audit event or without. */
  function Times(log: seq<Restart>, c: Collector): nat {
    if log == [] then 0 else Times(log[..|log| - 1], c) + if log[|log| - 1].collector == c then 1 else 0
  }

  lemma {:induction false} TimesConcat(a: seq<Restart>, b: seq<Restart>, c: Collector)
    ensures Times(a + b, c) == Times(a, c) + Times(b, c)
  {
    if b == [] {
      assert a + b == a;
    } else {
      var n := |b| - 1;
      assert (a + b)[..|a + b| - 1] == a + b[..n];
      TimesConcat(a, b[..n], c);
    }
  }

  lemma {:induction false} RestartsTimes(configMaps: map<string, EnvMap>, cs: seq<Collector>, n: nat, env: EnvMap,
                                         skipped: set<nat>, i: nat)
    requires n <= |cs| && i < |cs| && Distinct(cs)
    ensures Times(Restarts(configMaps, cs, n, env, skipped), cs[i])
      == if i < n && Stale(configMaps, cs[i].namespace, env) && i !in skipped then 1 else 0
  {
    if n > 0 {
      RestartsTimes(configMaps, cs, n - 1, env, skipped, i);
      var before := Restarts(configMaps, cs, n - 1, env, skipped);
      assert (before + [Restart(cs[n - 1], Some(env))])[..|before|] == before;
      assert i == n - 1 || cs[i] != cs[n - 1];
    }
  }

  /** A pass that gets this far gets to the restart of collector number i, and does not skip it. */
  predicate Reaches(p: Progress, i: nat) {
    match p
    case BehindConfigMaps(_) => false
    case AtRestart(m, skipped, unaudited) => (i < m && i !in skipped) || (i == m && unaudited)
    case Finished(skipped) => i !in skipped
  }

  /** It writes the ConfigMap of the namespace. */
  predicate Writes(p: Progress, cs: seq<Collector>, namespace: string) {
    p.BehindConfigMaps? ==> p.n <= |cs| && NamespaceAmong(cs, p.n, namespace)
  }

  /** One pass restarts a collector once if its namespace was stale and the pass reaches it, and otherwise
      not; the namespace is stale afterwards if it was and the pass does not write it. */
  lemma PassRestartsIff(p: Progress, configMaps: map<string, EnvMap>, cs: seq<Collector>, env: EnvMap, i: nat)
    requires Possible(p, configMaps, cs, env) && Distinct(cs) && i < |cs|
    ensures Times(RestartsMade(p, configMaps, cs, env), cs[i]) ==
      if Stale(configMaps, cs[i].namespace, env) && Reaches(p, i) then 1 else 0
    ensures Stale(MapsLeft(p, configMaps, cs, env), cs[i].namespace, env) <==>
      Stale(configMaps, cs[i].namespace, env) && !Writes(p, cs, cs[i].namespace)
  {
    WrittenExactly(configMaps, cs, if p.BehindConfigMaps? then p.n else |cs|, env, cs[i].namespace);
    match p {
      case BehindConfigMaps(_) =>
      case Finished(skipped) => RestartsTimes(configMaps, cs, |cs|, env, skipped, i);
      case AtRestart(m, skipped, unaudited) =>
        RestartsTimes(configMaps, cs, m, env, skipped, i);
        var last := if unaudited then [Restart(cs[m], None)] else [];
        TimesConcat(Restarts(configMaps, cs, m, env, skipped), last, cs[i]);
        assert last != [] ==> last[..|last| - 1] == [] && Times(last, cs[i]) == if cs[m] == cs[i] then 1 else 0;
        assert i == m || cs[i] != cs[m];
    }
  }

  /** The passes of a run, each from what the one before left. */
  predicate IsRun(ps: seq<Progress>, n: nat, configMaps: map<string, EnvMap>, cs: seq<Collector>, env: EnvMap)
    requires n <= |ps|
    decreases n, 0
  {
    n > 0 ==>
      IsRun(ps, n - 1, configMaps, cs, env) && Possible(ps[n - 1], MapsAfter(ps, n - 1, configMaps, cs, env), cs, env)
  }

  function MapsAfter(ps: seq<Progress>, n: nat, configMaps: map<string, EnvMap>, cs: seq<Collector>,
                     env: EnvMap): map<string, EnvMap>
    requires n <= |ps| && IsRun(ps, n, configMaps, cs, env)
    decreases n, 1
  {
    if n == 0 then configMaps else MapsLeft(ps[n - 1], MapsAfter(ps, n - 1, configMaps, cs, env), cs, env)
  }

  function LogAfter(ps: seq<Progress>, n: nat, configMaps: map<string, EnvMap>, cs: seq<Collector>,
                    env: EnvMap): seq<Restart>
    requires n <= |ps| && IsRun(ps, n, configMaps, cs, env)
  {
    if n == 0 then []
    else LogAfter(ps, n - 1, configMaps, cs, env)
         + RestartsMade(ps[n - 1], MapsAfter(ps, n - 1, configMaps, cs, env), cs, env)
  }

  predicate NotYetWritten(ps: seq<Progress>, n: nat, cs: seq<Collector>, namespace: string)
    requires n <= |ps|
  {
    forall k | 0 <= k < n :: !Writes(ps[k], cs, namespace)
  }

  /** Some pass reaches the collector before any earlier one has written its namespace's ConfigMap. */
  predicate ReachedInTime(ps: seq<Progress>, n: nat, cs: seq<Collector>, i: nat)
    requires n <= |ps| && i < |cs|
  {
    exists k | 0 <= k < n :: Reaches(ps[k], i) && NotYetWritten(ps, k, cs, cs[i].namespace)
  }

  /** Over any number of passes with one environment, failed or not, a collector is restarted exactly once
      if its namespace was stale and the pass that first writes it also reaches the collector, and never
      otherwise: no pass makes up for the restart that the writing one did not get to. */
  lemma {:induction false} RestartedOverRunIff(ps: seq<Progress>, n: nat, configMaps: map<string, EnvMap>,
                                               cs: seq<Collector>, env: EnvMap, i: nat)
    requires n <= |ps| && IsRun(ps, n, configMaps, cs, env) && Distinct(cs) && i < |cs|
    ensures Times(LogAfter(ps, n, configMaps, cs, env), cs[i])
      == if Stale(configMaps, cs[i].namespace, env) && ReachedInTime(ps, n, cs, i) then 1 else 0
    ensures Stale(MapsAfter(ps, n, configMaps, cs, env), cs[i].namespace, env) <==>
      Stale(configMaps, cs[i].namespace, env) && NotYetWritten(ps, n, cs, cs[i].namespace)
  {
    if n > 0 {
      hide Times, MapsLeft, RestartsMade, Reaches, Writes, Possible, ReachedInTime;
      RestartedOverRunIff(ps, n - 1, configMaps, cs, env, i);
      var now := MapsAfter(ps, n - 1, configMaps, cs, env);
      PassRestartsIff(ps[n - 1], now, cs, env, i);
      TimesConcat(LogAfter(ps, n - 1, configMaps, cs, env), RestartsMade(ps[n - 1], now, cs, env), cs[i]);
      OneMorePass(ps, n - 1, cs, i);
    }
  }

  lemma OneMorePass(ps: seq<Progress>, n: nat, cs: seq<Collector>, i: nat)
    requires n < |ps| && i < |cs|
    ensures ReachedInTime(ps, n + 1, cs, i) <==>
      ReachedInTime(ps, n, cs, i) || (Reaches(ps[n], i) && NotYetWritten(ps, n, cs, cs[i].namespace))
    ensures ReachedInTime(ps, n, cs, i) ==> !NotYetWritten(ps, n, cs, cs[i].namespace)
  {
  }
}
