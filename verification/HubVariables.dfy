/** Hub variables and their validation: internal/webhook/v1/mdaihub_webhook.go and api/v1/mdaihub_types.go. */
module HubVariables {
  import opened Wrappers

  datatype StorageType = BuiltInValkey | OtherStorage

  datatype VariableType = Manual | Computed | Meta | OtherType

  datatype DataType =
    | SetData | StringData | IntData | BooleanData | FloatData | MapData
    | PriorityList | HashSet | OtherData

  /** `NoJoinBlock` is a join transformer without its settings. */
  datatype Transformer = Join(delimiter: string) | NoJoinBlock | OtherTransformer

  datatype Serializer = Serializer(name: string, transformers: seq<Transformer>)

  datatype Variable = Variable(
    key: string, variableType: VariableType, dataType: DataType, storageType: StorageType,
    refs: seq<string>, serializeAs: Option<seq<Serializer>>)

  function Serializers(v: Variable): seq<Serializer> { if v.serializeAs.Some? then v.serializeAs.value else [] }

  // ---------- What is accepted ----------

  predicate TakesTransformers(d: DataType) { d.SetData? || d.PriorityList? }

  predicate RefsOk(v: Variable) {
    if v.variableType.Meta? then v.refs != [] && (v.dataType.HashSet? ==> |v.refs| == 2) else v.refs == []
  }

  predicate SerializerOk(v: Variable, s: Serializer) {
    TakesTransformers(v.dataType) || (!v.dataType.OtherData? && s.transformers == [])
  }

  predicate VariableOk(v: Variable) {
    && v.storageType.BuiltInValkey? && RefsOk(v)
    && forall j | 0 <= j < |Serializers(v)| :: SerializerOk(v, Serializers(v)[j])
  }

  predicate NoDuplicates(s: seq<string>) { forall i, j | 0 <= i < j < |s| :: s[i] != s[j] }

  function KeysOf(vars: seq<Variable>, n: nat): (r: seq<string>)
    requires n <= |vars|
    ensures |r| == n
  {
    seq(n, i requires 0 <= i < n => vars[i].key)
  }

  function NamesOf(sers: seq<Serializer>, n: nat): (r: seq<string>)
    requires n <= |sers|
    ensures |r| == n
  {
    seq(n, i requires 0 <= i < n => sers[i].name)
  }

  /** The names that the first n variables export, in order. */
  function ExportedNames(vars: seq<Variable>, n: nat): seq<string>
    requires n <= |vars|
  {
    if n == 0 then [] else ExportedNames(vars, n - 1) + NamesOf(Serializers(vars[n - 1]), |Serializers(vars[n - 1])|)
  }

  predicate AcceptedUpTo(vars: seq<Variable>, n: nat)
    requires n <= |vars|
  {
    && (forall i | 0 <= i < n :: VariableOk(vars[i]))
    && NoDuplicates(KeysOf(vars, n)) && NoDuplicates(ExportedNames(vars, n))
  }

  predicate Accepted(vars: seq<Variable>) { AcceptedUpTo(vars, |vars|) }

  /** What a variable needs to be accepted: the built-in storage; two references for a hash set, any for
      another meta variable, and none otherwise. */
  lemma VariableOkIff(key: string, t: VariableType, d: DataType, storage: StorageType, refs: seq<string>)
    ensures VariableOk(Variable(key, t, d, storage, refs, None)) <==>
      && storage == BuiltInValkey
      && (t == Meta && d == HashSet ==> |refs| == 2)
      && (t == Meta && d != HashSet ==> refs != [])
      && (t in {Manual, Computed, OtherType} ==> refs == [])
  {
  }

  /** And for each serializer on top: that it has no transformers, unless the variable is a set or a priority
      list; with a data type that is not known none is accepted. */
  lemma SerializersOkIff(v: Variable, sers: seq<Serializer>)
    requires v.serializeAs == None
    ensures VariableOk(v.(serializeAs := Some(sers))) <==>
      && VariableOk(v)
      && (v.dataType in {StringData, IntData, BooleanData, FloatData, MapData, HashSet} ==>
            forall j | 0 <= j < |sers| :: sers[j].transformers == [])
      && (v.dataType == OtherData ==> sers == [])
  {
    var w := v.(serializeAs := Some(sers));
    assert Serializers(w) == sers && Serializers(v) == [];
    assert RefsOk(w) <==> RefsOk(v);
    if VariableOk(w) && sers != [] { assert SerializerOk(w, sers[0]); }
    if VariableOk(w) { assert forall j | 0 <= j < |sers| :: SerializerOk(w, Serializers(w)[j]); }
  }

  // ---------- The webhook ----------

  datatype VariableError =
    | UnsupportedStorage(i: nat) | DuplicateKey(i: nat) | RefsRequired(i: nat) | HashSetRefs(i: nat)
    | RefsForbidden(i: nat) | DuplicateName(i: nat, j: nat)
    | TransformersForbidden(i: nat, j: nat) | UnsupportedDataType(i: nat, j: nat)

  lemma NoDuplicatesSnoc(s: seq<string>, x: string)
    ensures NoDuplicates(s + [x]) <==> NoDuplicates(s) && x !in s
  {
    if NoDuplicates(s + [x]) {
      forall i, j | 0 <= i < j < |s| ensures s[i] != s[j] { assert (s + [x])[i] != (s + [x])[j]; }
      forall i | 0 <= i < |s| ensures s[i] != x { assert (s + [x])[i] != (s + [x])[|s|]; }
    }
  }

  predicate SameElements(m: set<string>, s: seq<string>) {
    (forall x | x in m :: x in s) && (forall x | x in s :: x in m)
  }

  method RefErrors(v: Variable, i: nat) returns (errs: seq<VariableError>)
    ensures errs == [] <==> RefsOk(v)
  {
    errs := [];
    if v.variableType.Meta? {
      if |v.refs| == 0 { errs := errs + [RefsRequired(i)]; }
      if v.dataType.HashSet? && |v.refs| != 2 { errs := errs + [HashSetRefs(i)]; }
    } else if |v.refs| > 0 {
      errs := errs + [RefsForbidden(i)];
    }
  }

  method SerializerErrors(v: Variable, i: nat, before: seq<string>, names: set<string>)
    returns (errs: seq<VariableError>, exported: set<string>)
    requires SameElements(names, before)
    ensures var sers := Serializers(v); var all := before + NamesOf(sers, |sers|);
      && SameElements(exported, all)
      && (NoDuplicates(before) ==>
          (errs == [] <==> NoDuplicates(all) && forall j | 0 <= j < |sers| :: SerializerOk(v, sers[j])))
  {
    errs, exported := [], names;
    var sers := Serializers(v);
    assert before + NamesOf(sers, 0) == before;
    for j := 0 to |sers|
      invariant SameElements(exported, before + NamesOf(sers, j))
      invariant NoDuplicates(before) ==>
        (errs == [] <==> NoDuplicates(before + NamesOf(sers, j)) && forall k | 0 <= k < j :: SerializerOk(v, sers[k]))
    {
      var name := sers[j].name;
      assert before + NamesOf(sers, j + 1) == before + NamesOf(sers, j) + [name];
      NoDuplicatesSnoc(before + NamesOf(sers, j), name);
      if name in exported {
        errs := errs + [DuplicateName(i, j)];
      } else {
        exported := exported + {name};
      }
      if !TakesTransformers(v.dataType) {
        if v.dataType.OtherData? {
          errs := errs + [UnsupportedDataType(i, j)];
        } else if |sers[j].transformers| > 0 {
          errs := errs + [TransformersForbidden(i, j)];
        }
      }
    }
  }

  /** No error is found exactly when the variables are acceptable. */
  method ValidateVariables(vars: seq<Variable>) returns (errs: seq<VariableError>)
    ensures errs == [] <==> Accepted(vars)
  {
    errs := [];
    var keys: set<string> := {};
    var exported: set<string> := {};
    for i := 0 to |vars|
      invariant SameElements(keys, KeysOf(vars, i)) && SameElements(exported, ExportedNames(vars, i))
      invariant errs == [] <==> AcceptedUpTo(vars, i)
    {
      var v := vars[i];
      KeysSnoc(vars, i);
      if !v.storageType.BuiltInValkey? { errs := errs + [UnsupportedStorage(i)]; }
      if v.key in keys {
        errs := errs + [DuplicateKey(i)];
      } else {
        keys := keys + {v.key};
      }
      var refErrs := RefErrors(v, i);
      var serErrs;
      serErrs, exported := SerializerErrors(v, i, ExportedNames(vars, i), exported);
      PrefixAccepted(vars, i);
      errs := errs + refErrs + serErrs;
    }
  }

  lemma KeysSnoc(vars: seq<Variable>, i: nat)
    requires i < |vars|
    ensures KeysOf(vars, i + 1) == KeysOf(vars, i) + [vars[i].key]
    ensures NoDuplicates(KeysOf(vars, i + 1)) <==> NoDuplicates(KeysOf(vars, i)) && vars[i].key !in KeysOf(vars, i)
  {
    NoDuplicatesSnoc(KeysOf(vars, i), vars[i].key);
  }

  lemma NoDuplicatesPrefix(s: seq<string>, t: seq<string>)
    requires NoDuplicates(s + t)
    ensures NoDuplicates(s) && NoDuplicates(t) && forall x | x in s :: x !in t
  {
    forall i, j | 0 <= i < j < |s| ensures s[i] != s[j] { assert (s + t)[i] != (s + t)[j]; }
    forall i, j | 0 <= i < j < |t| ensures t[i] != t[j] { assert (s + t)[|s| + i] != (s + t)[|s| + j]; }
    forall i, j | 0 <= i < |s| && 0 <= j < |t| ensures s[i] != t[j] { assert (s + t)[i] != (s + t)[|s| + j]; }
  }

  lemma PrefixAccepted(vars: seq<Variable>, i: nat)
    requires i < |vars|
    ensures AcceptedUpTo(vars, i + 1) <==>
      && AcceptedUpTo(vars, i) && VariableOk(vars[i])
      && NoDuplicates(KeysOf(vars, i + 1)) && NoDuplicates(ExportedNames(vars, i + 1))
  {
    KeysSnoc(vars, i);
    if NoDuplicates(ExportedNames(vars, i + 1)) {
      NoDuplicatesPrefix(ExportedNames(vars, i), NamesOf(Serializers(vars[i]), |Serializers(vars[i])|));
    }
  }
}
