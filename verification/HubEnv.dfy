/** The environment a hub exports: syncValkeyVariables and its writers in internal/controller/hub_adapter.go. */
module HubEnv {
  import opened Wrappers
  import opened HubVariables

  /** What Valkey holds for the hub, by key; reads of the keys in `failing` fail. A set that is not there
      reads as empty and a map as its empty text, everything else may be missing. */
  datatype Valkey = Valkey(
    sets: map<string, seq<string>>, strings: map<string, string>, maps: map<string, string>,
    lists: map<string, seq<string>>, hashes: map<(string, string, string), string>, emptyMap: string,
    failing: set<string>)

  datatype Reading = Slice(items: seq<string>) | Text(text: string) | Missing | Unsupported

  /** What ends a pass early: a read that fails, or a panic at a join without its settings. */
  datatype Stop = ReadError(key: string) | NilJoin

  /** The join of the items, the delimiter between any two. */
  function JoinItems(items: seq<string>, delimiter: string): string {
    if items == [] then "" else if |items| == 1 then items[0]
    else items[0] + delimiter + JoinItems(items[1..], delimiter)
  }

  // ---------- Reading ----------

  predicate Handled(v: Variable) { v.storageType.BuiltInValkey? && !v.variableType.OtherType? }

  /** Indexing the references of a hash set is safe. */
  predicate RefsIndexable(v: Variable) { v.variableType.Meta? && v.dataType.HashSet? ==> |v.refs| >= 2 }

  predicate ReadsValkey(v: Variable) {
    if v.variableType.Meta? then v.dataType.PriorityList? || v.dataType.HashSet?
    else !v.dataType.PriorityList? && !v.dataType.HashSet? && !v.dataType.OtherData?
  }

  function Find<K, V>(m: map<K, V>, k: K): Option<V> { if k in m then Some(m[k]) else None }

  function AsText(o: Option<string>): Reading { if o.Some? then Text(o.value) else Missing }

  function ReadComputed(v: Variable, valkey: Valkey): Reading {
    match v.dataType
    case SetData => Slice(if v.key in valkey.sets then valkey.sets[v.key] else [])
    case MapData => Text(if v.key in valkey.maps then valkey.maps[v.key] else valkey.emptyMap)
    case StringData => AsText(Find(valkey.strings, v.key))
    case IntData => AsText(Find(valkey.strings, v.key))
    case BooleanData => AsText(Find(valkey.strings, v.key))
    case FloatData => AsText(Find(valkey.strings, v.key))
    case _ => Unsupported
  }

  function ReadMeta(v: Variable, valkey: Valkey): Reading
    requires v.variableType.Meta? && RefsIndexable(v)
  {
    match v.dataType
    case PriorityList => if v.key in valkey.lists then Slice(valkey.lists[v.key]) else Missing
    case HashSet => AsText(Find(valkey.hashes, (v.key, v.refs[0], v.refs[1])))
    case _ => Unsupported
  }

  function Read(v: Variable, valkey: Valkey): Reading
    requires RefsIndexable(v)
  {
    if v.variableType.Meta? then ReadMeta(v, valkey) else ReadComputed(v, valkey)
  }

  // ---------- Writing ----------

  /** What a serializer makes of the value of its variable: the last join of a list, the text as it is. */
  function Rendered(s: Serializer, r: Reading): Option<string> {
    match r
    case Text(t) => Some(t)
    case Slice(items) => LastJoin(s.transformers, items)
    case _ => None
  }

  function LastJoin(ts: seq<Transformer>, items: seq<string>): Option<string> {
    if ts == [] then None
    else
      var t := ts[|ts| - 1];
      if t.Join? then Some(JoinItems(items, t.delimiter)) else LastJoin(ts[..|ts| - 1], items)
  }

  /** A text overrides what is there, a list leaves it. */
  function WriteOne(s: Serializer, r: Reading, env: map<string, string>): map<string, string> {
    var value := Rendered(s, r);
    if value.None? || (r.Slice? && s.name in env) then env else env[s.name := value.value]
  }

  function WriteFirst(sers: seq<Serializer>, n: nat, r: Reading, env: map<string, string>): map<string, string>
    requires n <= |sers|
  {
    if n == 0 then env else WriteOne(sers[n - 1], r, WriteFirst(sers, n - 1, r, env))
  }

  /** A join without its settings is come upon among the first n: only a list is joined, and only under a
      name that is not there. */
  predicate Derefs(sers: seq<Serializer>, n: nat, r: Reading, env: map<string, string>)
    requires n <= |sers|
  {
    r.Slice? && exists j | 0 <= j < n ::
      sers[j].name !in WriteFirst(sers, j, r, env) && NoJoinBlock in sers[j].transformers
  }

  function Write(v: Variable, valkey: Valkey, env: map<string, string>): map<string, string>
    requires RefsIndexable(v)
  {
    WriteFirst(Serializers(v), |Serializers(v)|, Read(v, valkey), env)
  }

  // ---------- The whole environment ----------

  predicate AllIndexable(vars: seq<Variable>) { forall i | 0 <= i < |vars| :: RefsIndexable(vars[i]) }

  function Env(vars: seq<Variable>, n: nat, valkey: Valkey): map<string, string>
    requires n <= |vars| && AllIndexable(vars)
  {
    if n == 0 then map[]
    else if Handled(vars[n - 1]) then Write(vars[n - 1], valkey, Env(vars, n - 1, valkey))
    else Env(vars, n - 1, valkey)
  }

  predicate Fails(v: Variable, valkey: Valkey) { Handled(v) && ReadsValkey(v) && v.key in valkey.failing }

  predicate Panics(vars: seq<Variable>, i: nat, valkey: Valkey)
    requires i < |vars| && AllIndexable(vars)
  {
    Handled(vars[i]) &&
      Derefs(Serializers(vars[i]), |Serializers(vars[i])|, Read(vars[i], valkey), Env(vars, i, valkey))
  }

  predicate Stops(vars: seq<Variable>, i: nat, valkey: Valkey)
    requires i < |vars| && AllIndexable(vars)
  {
    Fails(vars[i], valkey) || Panics(vars, i, valkey)
  }

  class HubAdapter {
    const variables: seq<Variable>
    const valkey: Valkey
    var envMap: map<string, string>
    var manualEnvMap: map<string, DataType>
    var valkeyKeysToKeep: set<string>

    constructor (variables: seq<Variable>, valkey: Valkey)
      ensures this.variables == variables && this.valkey == valkey
      ensures envMap == map[] && manualEnvMap == map[] && valkeyKeysToKeep == {}
    {
      this.variables, this.valkey := variables, valkey;
      envMap, manualEnvMap, valkeyKeysToKeep := map[], map[], {};
    }

    method ApplySerializerToString(v: Variable, value: string)
      modifies this`envMap
      ensures envMap == WriteFirst(Serializers(v), |Serializers(v)|, Text(value), old(envMap))
    {
      if v.serializeAs.None? { return; }
      var sers := v.serializeAs.value;
      for j := 0 to |sers|
        invariant envMap == WriteFirst(sers, j, Text(value), old(envMap))
      {
        envMap := envMap[sers[j].name := value];
      }
    }

    method ApplySetTransformation(v: Variable, items: seq<string>) returns (panicked: bool)
      modifies this`envMap
      ensures panicked <==> Derefs(Serializers(v), |Serializers(v)|, Slice(items), old(envMap))
      ensures !panicked ==> envMap == WriteFirst(Serializers(v), |Serializers(v)|, Slice(items), old(envMap))
    {
      if v.serializeAs.None? { return false; }
      var sers := v.serializeAs.value;
      for j := 0 to |sers|
        invariant envMap == WriteFirst(sers, j, Slice(items), old(envMap))
        invariant !Derefs(sers, j, Slice(items), old(envMap))
      {
        var name := sers[j].name;
        if name in envMap { continue; }
        panicked := TransformInto(name, sers[j].transformers, items);
        if panicked { return; }
      }
      return false;
    }

    /** Of what is joined before a panic nothing is promised. */
    method TransformInto(name: string, ts: seq<Transformer>, items: seq<string>) returns (panicked: bool)
      requires name !in envMap
      modifies this`envMap
      ensures panicked <==> NoJoinBlock in ts
      ensures !panicked ==>
        var last := LastJoin(ts, items); envMap == if last.None? then old(envMap) else old(envMap)[name := last.value]
    {
      for k := 0 to |ts|
        invariant NoJoinBlock !in ts[..k]
        invariant var last := LastJoin(ts[..k], items);
          envMap == if last.None? then old(envMap) else old(envMap)[name := last.value]
      {
        assert ts[..k + 1][..k] == ts[..k];
        match ts[k] {
          case Join(delimiter) => envMap := envMap[name := JoinItems(items, delimiter)];
          case NoJoinBlock => return true;
          case OtherTransformer =>
        }
      }
      assert ts[..|ts|] == ts;
      return false;
    }

    method HandleComputedVariable(v: Variable) returns (err: Option<Stop>)
      requires !v.variableType.Meta?
      modifies this`envMap
      ensures ReadsValkey(v) && v.key in valkey.failing ==> err == Some(ReadError(v.key))
      ensures !(ReadsValkey(v) && v.key in valkey.failing) ==>
        err ==
          if Derefs(Serializers(v), |Serializers(v)|, ReadComputed(v, valkey), old(envMap)) then Some(NilJoin) else None
      ensures err.None? ==> envMap == WriteFirst(Serializers(v), |Serializers(v)|, ReadComputed(v, valkey), old(envMap))
    {
      if !ReadsValkey(v) { WriteNothing(Serializers(v), |Serializers(v)|, Unsupported, envMap); return None; }
      if v.key in valkey.failing { return Some(ReadError(v.key)); }
      match ReadComputed(v, valkey) {
        case Slice(items) =>
          var panicked := ApplySetTransformation(v, items);
          if panicked { return Some(NilJoin); }
        case Text(value) => ApplySerializerToString(v, value);
        case Missing => WriteNothing(Serializers(v), |Serializers(v)|, Missing, envMap);
      }
      return None;
    }

    method HandleMetaVariable(v: Variable) returns (err: Option<Stop>)
      requires v.variableType.Meta? && RefsIndexable(v)
      modifies this`envMap
      ensures ReadsValkey(v) && v.key in valkey.failing ==> err == Some(ReadError(v.key))
      ensures !(ReadsValkey(v) && v.key in valkey.failing) ==>
        err ==
          if Derefs(Serializers(v), |Serializers(v)|, ReadMeta(v, valkey), old(envMap)) then Some(NilJoin) else None
      ensures err.None? ==> envMap == WriteFirst(Serializers(v), |Serializers(v)|, ReadMeta(v, valkey), old(envMap))
    {
      if !ReadsValkey(v) { WriteNothing(Serializers(v), |Serializers(v)|, Unsupported, envMap); return None; }
      if v.key in valkey.failing { return Some(ReadError(v.key)); }
      match ReadMeta(v, valkey) {
        case Slice(items) =>
          var panicked := ApplySetTransformation(v, items);
          if panicked { return Some(NilJoin); }
        case Text(value) => ApplySerializerToString(v, value);
        case Missing => WriteNothing(Serializers(v), |Serializers(v)|, Missing, envMap);
      }
      return None;
    }

    /** Stops at the first read that fails or panic; otherwise the maps are those of the specification. */
    method SyncValkeyVariables() returns (err: Option<Stop>)
      requires AllIndexable(variables)
      requires envMap == map[] && manualEnvMap == map[] && valkeyKeysToKeep == {}
      modifies this
      ensures err.None? <==> forall i | 0 <= i < |variables| :: !Stops(variables, i, valkey)
      ensures err.Some? ==> exists i: nat :: i < |variables| && Stops(variables, i, valkey)
                              && (forall j | 0 <= j < i :: !Stops(variables, j, valkey))
                              && (Fails(variables[i], valkey) ==> err.value == ReadError(variables[i].key))
                              && (!Fails(variables[i], valkey) ==> Panics(variables, i, valkey) && err.value == NilJoin)
      ensures err.None? ==> envMap == Env(variables, |variables|, valkey)
      ensures err.None? ==>
        manualEnvMap == ManualEnv(variables, |variables|) && valkeyKeysToKeep == KeptKeys(variables, |variables|)
    {
      for i := 0 to |variables|
        invariant forall j | 0 <= j < i :: !Stops(variables, j, valkey)
        invariant envMap == Env(variables, i, valkey)
        invariant manualEnvMap == ManualEnv(variables, i) && valkeyKeysToKeep == KeptKeys(variables, i)
      {
        var v := variables[i];
        if !v.storageType.BuiltInValkey? { continue; }
        valkeyKeysToKeep := valkeyKeysToKeep + {v.key};
        if v.variableType.Manual? { manualEnvMap := manualEnvMap[v.key := v.dataType]; }
        if v.variableType.OtherType? { continue; }
        if v.variableType.Meta? {
          err := HandleMetaVariable(v);
        } else {
          err := HandleComputedVariable(v);
        }
        if err.Some? {
          assert Stops(variables, i, valkey);
          return;
        }
      }
      return None;
    }
  }

  lemma {:induction false} WriteNothing(sers: seq<Serializer>, n: nat, r: Reading, env: map<string, string>)
    requires n <= |sers| && (r.Missing? || r.Unsupported?)
    ensures WriteFirst(sers, n, r, env) == env
  {
    if n > 0 { WriteNothing(sers, n - 1, r, env); }
  }

  function ManualEnv(vars: seq<Variable>, n: nat): map<string, DataType>
    requires n <= |vars|
  {
    if n == 0 then map[]
    else
      var v := vars[n - 1];
      if v.storageType.BuiltInValkey? && v.variableType.Manual? then ManualEnv(vars, n - 1)[v.key := v.dataType]
      else ManualEnv(vars, n - 1)
  }

  function KeptKeys(vars: seq<Variable>, n: nat): set<string>
    requires n <= |vars|
  {
    if n == 0 then {}
    else KeptKeys(vars, n - 1) + if vars[n - 1].storageType.BuiltInValkey? then {vars[n - 1].key} else {}
  }
}
