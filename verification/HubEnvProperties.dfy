/** The environment of an accepted hub does not depend on the order of its variables. */
module HubEnvProperties {
  import opened Wrappers
  import opened HubVariables
  import opened HubEnv

  // ---------- Acceptance makes the references safe ----------

  lemma AcceptedIsIndexable(vars: seq<Variable>)
    requires Accepted(vars)
    ensures AllIndexable(vars)
  {
    forall i | 0 <= i < |vars| ensures RefsIndexable(vars[i]) { assert VariableOk(vars[i]); }
  }

  // ---------- What one variable exports ----------

  predicate ExportsAt(v: Variable, valkey: Valkey, j: nat, name: string, value: string)
    requires RefsIndexable(v) && j < |Serializers(v)|
  {
    Handled(v) && Serializers(v)[j].name == name && Rendered(Serializers(v)[j], Read(v, valkey)) == Some(value)
  }

  predicate Exports(v: Variable, valkey: Valkey, name: string, value: string)
    requires RefsIndexable(v)
  {
    exists j | 0 <= j < |Serializers(v)| :: ExportsAt(v, valkey, j, name, value)
  }

  /** With fresh and distinct names neither writer ever meets a name that is there. */
  lemma {:induction false} WriteFresh(sers: seq<Serializer>, n: nat, r: Reading, env: map<string, string>, name: string)
    requires n <= |sers| && NoDuplicates(NamesOf(sers, n)) && forall j | 0 <= j < n :: sers[j].name !in env
    ensures var after := WriteFirst(sers, n, r, env);
      && (name in after <==> name in env || exists j | 0 <= j < n :: sers[j].name == name && Rendered(sers[j], r).Some?)
      && (name in env ==> after[name] == env[name])
      && (forall j | 0 <= j < n && sers[j].name == name && Rendered(sers[j], r).Some? ::
          after[name] == Rendered(sers[j], r).value)
  {
    if n > 0 {
      var k := n - 1;
      assert NamesOf(sers, n) == NamesOf(sers, k) + [sers[k].name];
      NoDuplicatesSnoc(NamesOf(sers, k), sers[k].name);
      forall j | 0 <= j < k ensures sers[j].name != sers[k].name {
        assert NamesOf(sers, k)[j] == sers[j].name;
      }
      WriteFresh(sers, k, r, env, name);
      WriteFresh(sers, k, r, env, sers[k].name);
    }
  }

  lemma {:induction false} WrittenNames(sers: seq<Serializer>, n: nat, r: Reading, env: map<string, string>,
                                        name: string)
    requires n <= |sers| && name in WriteFirst(sers, n, r, env)
    ensures name in env || name in NamesOf(sers, n)
  {
    if n > 0 {
      assert NamesOf(sers, n) == NamesOf(sers, n - 1) + [sers[n - 1].name];
      if name in WriteFirst(sers, n - 1, r, env) { WrittenNames(sers, n - 1, r, env, name); }
    }
  }

  lemma {:induction false} EnvNames(vars: seq<Variable>, n: nat, valkey: Valkey, name: string)
    requires n <= |vars| && AllIndexable(vars) && name in Env(vars, n, valkey)
    ensures name in ExportedNames(vars, n)
  {
    var v, sers := vars[n - 1], Serializers(vars[n - 1]);
    if Handled(v) { WrittenNames(sers, |sers|, Read(v, valkey), Env(vars, n - 1, valkey), name); }
    if name in Env(vars, n - 1, valkey) { EnvNames(vars, n - 1, valkey, name); }
  }

  // ---------- The environment, name by name ----------

  predicate ExportedBy(vars: seq<Variable>, n: nat, valkey: Valkey, name: string, value: string)
    requires n <= |vars| && AllIndexable(vars)
  {
    exists i | 0 <= i < n :: Exports(vars[i], valkey, name, value)
  }

  predicate HasValue(env: map<string, string>, name: string, value: string) { name in env && env[name] == value }

  lemma WriteVariable(v: Variable, valkey: Valkey, env: map<string, string>, name: string, value: string)
    requires RefsIndexable(v) && Handled(v)
    requires NoDuplicates(NamesOf(Serializers(v), |Serializers(v)|))
    requires forall j | 0 <= j < |Serializers(v)| :: Serializers(v)[j].name !in env
    ensures HasValue(Write(v, valkey, env), name, value) <==>
      HasValue(env, name, value) || Exports(v, valkey, name, value)
  {
    var sers, r := Serializers(v), Read(v, valkey);
    WriteFresh(sers, |sers|, r, env, name);
    if HasValue(Write(v, valkey, env), name, value) && name !in env {
      var j :| 0 <= j < |sers| && sers[j].name == name && Rendered(sers[j], r).Some?;
      assert ExportsAt(v, valkey, j, name, value);
    }
  }

  lemma {:induction false} EnvUpTo(vars: seq<Variable>, n: nat, valkey: Valkey, name: string, value: string)
    requires n <= |vars| && AllIndexable(vars) && AcceptedUpTo(vars, n)
    ensures HasValue(Env(vars, n, valkey), name, value) <==> ExportedBy(vars, n, valkey, name, value)
  {
    if n > 0 {
      var v := vars[n - 1];
      var env, sers := Env(vars, n - 1, valkey), Serializers(v);
      PrefixAccepted(vars, n - 1);
      EnvUpTo(vars, n - 1, valkey, name, value);
      NoDuplicatesPrefix(ExportedNames(vars, n - 1), NamesOf(sers, |sers|));
      forall j | 0 <= j < |sers| ensures sers[j].name !in env {
        assert NamesOf(sers, |sers|)[j] == sers[j].name;
        if sers[j].name in env { EnvNames(vars, n - 1, valkey, sers[j].name); }
      }
      if Handled(v) { WriteVariable(v, valkey, env, name, value); }
      ExportedBySnoc(vars, n - 1, valkey, name, value);
    }
  }

  lemma ExportedBySnoc(vars: seq<Variable>, n: nat, valkey: Valkey, name: string, value: string)
    requires n < |vars| && AllIndexable(vars)
    ensures ExportedBy(vars, n + 1, valkey, name, value) <==>
      ExportedBy(vars, n, valkey, name, value) || Exports(vars[n], valkey, name, value)
    ensures !Handled(vars[n]) ==> !Exports(vars[n], valkey, name, value)
  {
  }

  /** An accepted hub exports exactly the value that the variable declaring the name has. */
  lemma EnvIsExact(vars: seq<Variable>, valkey: Valkey, name: string, value: string)
    requires Accepted(vars)
    ensures AllIndexable(vars)
    ensures HasValue(Env(vars, |vars|, valkey), name, value) <==> ExportedBy(vars, |vars|, valkey, name, value)
  {
    AcceptedIsIndexable(vars);
    EnvUpTo(vars, |vars|, valkey, name, value);
  }

  // ---------- Panics ----------

  /** A list variable whose serializers have a join without settings. */
  predicate JoinsNil(v: Variable, valkey: Valkey)
    requires RefsIndexable(v)
  {
    Handled(v) && Read(v, valkey).Slice? && exists j | 0 <= j < |Serializers(v)| ::
      NoJoinBlock in Serializers(v)[j].transformers
  }

  /** Names that are fresh and distinct are never skipped. */
  lemma FreshDerefsIff(sers: seq<Serializer>, r: Reading, env: map<string, string>)
    requires NoDuplicates(NamesOf(sers, |sers|)) && forall j | 0 <= j < |sers| :: sers[j].name !in env
    ensures Derefs(sers, |sers|, r, env) <==>
      r.Slice? && exists j | 0 <= j < |sers| :: NoJoinBlock in sers[j].transformers
  {
    forall j | 0 <= j < |sers| ensures sers[j].name !in WriteFirst(sers, j, r, env) {
      NotNamedBefore(sers, j);
      if sers[j].name in WriteFirst(sers, j, r, env) { WrittenNames(sers, j, r, env, sers[j].name); }
    }
  }

  lemma NotNamedBefore(sers: seq<Serializer>, j: nat)
    requires j < |sers| && NoDuplicates(NamesOf(sers, |sers|))
    ensures sers[j].name !in NamesOf(sers, j)
  {
    forall k | 0 <= k < j ensures NamesOf(sers, j)[k] != sers[j].name {
      assert NamesOf(sers, |sers|)[k] != NamesOf(sers, |sers|)[j];
    }
  }

  /** An accepted hub comes upon a join without its settings exactly if one of its lists has one: the
      webhook lets it through, and every pass then panics. */
  lemma AcceptedPanicsIff(vars: seq<Variable>, i: nat, valkey: Valkey)
    requires Accepted(vars) && i < |vars|
    ensures AllIndexable(vars)
    ensures Panics(vars, i, valkey) <==> JoinsNil(vars[i], valkey)
  {
    AcceptedIsIndexable(vars);
    AcceptedPrefix(vars, i + 1);
    var sers, env := Serializers(vars[i]), Env(vars, i, valkey);
    NoDuplicatesPrefix(ExportedNames(vars, i), NamesOf(sers, |sers|));
    forall j | 0 <= j < |sers| ensures sers[j].name !in env {
      assert NamesOf(sers, |sers|)[j] == sers[j].name;
      if sers[j].name in env { EnvNames(vars, i, valkey, sers[j].name); }
    }
    FreshDerefsIff(sers, Read(vars[i], valkey), env);
  }

  lemma {:induction false} AcceptedPrefix(vars: seq<Variable>, n: nat)
    requires Accepted(vars) && n <= |vars|
    ensures AcceptedUpTo(vars, n)
    decreases |vars| - n
  {
    if n < |vars| {
      AcceptedPrefix(vars, n + 1);
      PrefixAccepted(vars, n);
    }
  }

  /** Such a hub is accepted. */
  lemma NilJoinIsAccepted(key: string, name: string, valkey: Valkey)
    ensures var v := Variable(key, Computed, SetData, BuiltInValkey, [], Some([Serializer(name, [NoJoinBlock])]));
      Accepted([v]) && AllIndexable([v]) && Panics([v], 0, valkey)
  {
    var v := Variable(key, Computed, SetData, BuiltInValkey, [], Some([Serializer(name, [NoJoinBlock])]));
    assert Serializers(v)[0].transformers[0] == NoJoinBlock;
    assert ExportedNames([v], 0) == [] && |ExportedNames([v], 1)| == 1;
    AcceptedPanicsIff([v], 0, valkey);
  }

  // ---------- Order ----------

  predicate SameVariables(a: seq<Variable>, b: seq<Variable>) {
    (forall v | v in a :: v in b) && (forall v | v in b :: v in a)
  }

  /** Any two orders of the same accepted variables export the same environment. */
  lemma EnvIgnoresOrder(a: seq<Variable>, b: seq<Variable>, valkey: Valkey)
    requires Accepted(a) && Accepted(b) && SameVariables(a, b)
    ensures AllIndexable(a) && AllIndexable(b)
    ensures Env(a, |a|, valkey) == Env(b, |b|, valkey)
  {
    AcceptedIsIndexable(a);
    AcceptedIsIndexable(b);
    EnvIncluded(a, b, valkey);
    EnvIncluded(b, a, valkey);
    assert Env(a, |a|, valkey).Keys == Env(b, |b|, valkey).Keys;
  }

  lemma EnvIncluded(a: seq<Variable>, b: seq<Variable>, valkey: Valkey)
    requires Accepted(a) && Accepted(b) && (forall v | v in a :: v in b) && AllIndexable(a) && AllIndexable(b)
    ensures forall name | name in Env(a, |a|, valkey) :: HasValue(Env(b, |b|, valkey), name, Env(a, |a|, valkey)[name])
  {
    forall name | name in Env(a, |a|, valkey) ensures HasValue(Env(b, |b|, valkey), name, Env(a, |a|, valkey)[name]) {
      var value := Env(a, |a|, valkey)[name];
      EnvIsExact(a, valkey, name, value);
      var i :| 0 <= i < |a| && Exports(a[i], valkey, name, value);
      assert a[i] in b;
      var k :| 0 <= k < |b| && b[k] == a[i];
      assert ExportedBy(b, |b|, valkey, name, value);
      EnvIsExact(b, valkey, name, value);
    }
  }

  /** Every key of an accepted hub is kept in Valkey, manual or not, so nothing live is cleaned up. */
  lemma {:induction false} AcceptedKeysAreKept(vars: seq<Variable>, n: nat)
    requires n <= |vars| && forall i | 0 <= i < |vars| :: VariableOk(vars[i])
    ensures forall i | 0 <= i < n :: vars[i].key in KeptKeys(vars, n)
  {
    if n > 0 { AcceptedKeysAreKept(vars, n - 1); }
  }

  // ---------- Without acceptance ----------

  /** A handled variable with one serializer. */
  predicate ExportsOne(v: Variable, s: Serializer) { Handled(v) && RefsIndexable(v) && v.serializeAs == Some([s]) }

  lemma EnvOfOne(v: Variable, s: Serializer, valkey: Valkey, env: map<string, string>)
    requires ExportsOne(v, s)
    ensures Write(v, valkey, env) == WriteOne(s, Read(v, valkey), env)
  {
    assert WriteFirst([s], 0, Read(v, valkey), env) == env;
  }

  lemma EnvOfTwo(v: Variable, w: Variable, s: Serializer, t: Serializer, valkey: Valkey)
    requires ExportsOne(v, s) && ExportsOne(w, t)
    ensures AllIndexable([v, w])
    ensures Env([v, w], 2, valkey) == WriteOne(t, Read(w, valkey), WriteOne(s, Read(v, valkey), map[]))
  {
    var vars := [v, w];
    assert Env(vars, 0, valkey) == map[];
    EnvOfOne(v, s, valkey, map[]);
    assert Env(vars, 1, valkey) == Write(v, valkey, map[]);
    EnvOfOne(w, t, valkey, Env(vars, 1, valkey));
  }

  /** Two variables that export different values under one name: their order decides exactly when both
      are texts, of which the last is taken, or both are lists, of which the first is. Of one of either
      the text is taken. */
  lemma OrderDecidesIff(v: Variable, w: Variable, s: Serializer, t: Serializer, valkey: Valkey)
    requires ExportsOne(v, s) && ExportsOne(w, t) && s.name == t.name
    requires Rendered(s, Read(v, valkey)).Some? && Rendered(t, Read(w, valkey)).Some?
    requires Rendered(s, Read(v, valkey)) != Rendered(t, Read(w, valkey))
    ensures AllIndexable([v, w]) && AllIndexable([w, v])
    ensures Env([v, w], 2, valkey) != Env([w, v], 2, valkey) <==> (Read(v, valkey).Text? <==> Read(w, valkey).Text?)
  {
    EnvOfTwo(v, w, s, t, valkey);
    EnvOfTwo(w, v, t, s, valkey);
    var x, y := Rendered(s, Read(v, valkey)).value, Rendered(t, Read(w, valkey)).value;
    assert map[s.name := x][s.name] != map[s.name := y][s.name];
    assert map[s.name := x][s.name := y] == map[s.name := y];
    assert map[s.name := y][s.name := x] == map[s.name := x];
  }
}
