/** References of meta variables under updates: validateMetaVarRefs of internal/webhook/v1/mdaihub_webhook.go. */
module MetaRefs {
  import opened HubVariables

  /** The references of the meta variables among the first n, by key. */
  function MetaMap(vars: seq<Variable>, n: nat): map<string, seq<string>>
    requires n <= |vars|
  {
    if n == 0 then map[]
    else if vars[n - 1].variableType.Meta? then MetaMap(vars, n - 1)[vars[n - 1].key := vars[n - 1].refs]
    else MetaMap(vars, n - 1)
  }

  predicate Declares(vars: seq<Variable>, key: string, refs: seq<string>) {
    exists i | 0 <= i < |vars| :: vars[i].variableType.Meta? && vars[i].key == key && vars[i].refs == refs
  }

  lemma {:induction false} MetaMapDeclares(vars: seq<Variable>, n: nat, key: string)
    requires n <= |vars| && key in MetaMap(vars, n)
    ensures exists i | 0 <= i < n ::
      vars[i].variableType.Meta? && vars[i].key == key && vars[i].refs == MetaMap(vars, n)[key]
  {
    var v := vars[n - 1];
    if v.variableType.Meta? && v.key == key {
      assert vars[n - 1].refs == MetaMap(vars, n)[key];
    } else {
      MetaMapDeclares(vars, n - 1, key);
    }
  }

  lemma {:induction false} MetaMapHas(vars: seq<Variable>, n: nat, i: nat)
    requires i < n <= |vars| && vars[i].variableType.Meta? && NoDuplicates(KeysOf(vars, |vars|))
    ensures vars[i].key in MetaMap(vars, n) && MetaMap(vars, n)[vars[i].key] == vars[i].refs
  {
    if i < n - 1 {
      MetaMapHas(vars, n - 1, i);
      assert KeysOf(vars, |vars|)[i] != KeysOf(vars, |vars|)[n - 1];
    }
  }

  /** Among accepted variables a key has at most one set of references. */
  lemma MetaMapIsExact(vars: seq<Variable>, key: string, refs: seq<string>)
    requires Accepted(vars)
    ensures Declares(vars, key, refs) <==> key in MetaMap(vars, |vars|) && MetaMap(vars, |vars|)[key] == refs
  {
    if key in MetaMap(vars, |vars|) { MetaMapDeclares(vars, |vars|, key); }
    if Declares(vars, key, refs) {
      var i :| 0 <= i < |vars| && vars[i].variableType.Meta? && vars[i].key == key && vars[i].refs == refs;
      MetaMapHas(vars, |vars|, i);
    }
  }

  // ---------- One update ----------

  predicate UpdateOk(oldVars: seq<Variable>, newVars: seq<Variable>) {
    forall i | 0 <= i < |newVars| && newVars[i].variableType.Meta? && newVars[i].key in MetaMap(oldVars, |oldVars|) ::
      MetaMap(oldVars, |oldVars|)[newVars[i].key] == newVars[i].refs
  }

  /** The positions of the new variables whose references are not those of the old ones of the same key. */
  method ValidateMetaVarRefs(oldVars: seq<Variable>, newVars: seq<Variable>) returns (errs: seq<nat>)
    ensures errs == [] <==> UpdateOk(oldVars, newVars)
  {
    errs := [];
    if |oldVars| == 0 || |newVars| == 0 { return; }
    var oldMap: map<string, seq<string>> := map[];
    for i := 0 to |oldVars|
      invariant oldMap == MetaMap(oldVars, i)
    {
      if oldVars[i].variableType.Meta? { oldMap := oldMap[oldVars[i].key := oldVars[i].refs]; }
    }
    for i := 0 to |newVars|
      invariant errs == [] <==> forall j | 0 <= j < i && newVars[j].variableType.Meta? && newVars[j].key in oldMap ::
        oldMap[newVars[j].key] == newVars[j].refs
    {
      var v := newVars[i];
      if v.variableType.Meta? {
        if v.key in oldMap && oldMap[v.key] != v.refs { errs := errs + [i]; }
      }
    }
  }

  /** The references of the keys that are meta variables in both agree. */
  predicate Agree(vars: seq<Variable>, others: seq<Variable>) {
    forall key | key in MetaMap(vars, |vars|) && key in MetaMap(others, |others|) ::
      MetaMap(vars, |vars|)[key] == MetaMap(others, |others|)[key]
  }

  /** An accepted update is one that leaves every key that is a meta variable before and after its references. */
  lemma UpdateOkIff(oldVars: seq<Variable>, newVars: seq<Variable>)
    requires Accepted(oldVars) && Accepted(newVars)
    ensures UpdateOk(oldVars, newVars) <==> Agree(oldVars, newVars)
  {
    var before, after := MetaMap(oldVars, |oldVars|), MetaMap(newVars, |newVars|);
    if UpdateOk(oldVars, newVars) {
      forall key | key in before && key in after ensures before[key] == after[key] {
        MetaMapDeclares(newVars, |newVars|, key);
      }
    } else {
      var i :| 0 <= i < |newVars| && newVars[i].variableType.Meta? && newVars[i].key in before &&
        before[newVars[i].key] != newVars[i].refs;
      MetaMapHas(newVars, |newVars|, i);
    }
  }

  // ---------- Any number of updates ----------

  predicate History(hubs: seq<seq<Variable>>) {
    && (forall t | 0 <= t < |hubs| :: Accepted(hubs[t]))
    && (forall t | 0 < t < |hubs| :: UpdateOk(hubs[t - 1], hubs[t]))
  }

  /** Over any sequence of accepted updates, a key that stays a meta variable keeps its references. */
  lemma {:induction false} RefsNeverChange(hubs: seq<seq<Variable>>, key: string, first: seq<string>, t: nat,
                                           refs: seq<string>)
    requires History(hubs) && t < |hubs|
    requires forall u | 0 <= u <= t :: key in MetaMap(hubs[u], |hubs[u]|)
    requires Declares(hubs[0], key, first) && Declares(hubs[t], key, refs)
    ensures refs == first
  {
    MetaMapIsExact(hubs[t], key, refs);
    if t == 0 {
      MetaMapIsExact(hubs[0], key, first);
    } else {
      var before := MetaMap(hubs[t - 1], |hubs[t - 1]|)[key];
      MetaMapIsExact(hubs[t - 1], key, before);
      RefsNeverChange(hubs, key, first, t - 1, before);
      UpdateOkIff(hubs[t - 1], hubs[t]);
    }
  }

  lemma HistoryOfThree(a: seq<Variable>, b: seq<Variable>, c: seq<Variable>)
    requires Accepted(a) && Accepted(b) && Accepted(c)
    ensures History([a, b, c]) <==> UpdateOk(a, b) && UpdateOk(b, c)
  {
    var hubs := [a, b, c];
    assert hubs[0] == a && hubs[1] == b && hubs[2] == c;
    if UpdateOk(a, b) && UpdateOk(b, c) {
      forall t | 0 < t < |hubs| ensures UpdateOk(hubs[t - 1], hubs[t]) {
        if t == 1 { assert UpdateOk(hubs[0], hubs[1]); } else { assert UpdateOk(hubs[1], hubs[2]); }
      }
    }
  }

  /** It must stay one: by way of a hub in between, the references of exactly those keys can change that
      are no meta variables there; the others must agree with both sides. */
  lemma RecreationChangesRefsIff(oldVars: seq<Variable>, between: seq<Variable>, newVars: seq<Variable>)
    requires Accepted(oldVars) && Accepted(newVars) && Accepted(between)
    ensures History([oldVars, between, newVars]) <==> Agree(oldVars, between) && Agree(between, newVars)
  {
    UpdateOkIff(oldVars, between);
    UpdateOkIff(between, newVars);
    HistoryOfThree(oldVars, between, newVars);
  }

  /** In particular any references can become any others. */
  lemma RecreationChangesRefs(oldVars: seq<Variable>, newVars: seq<Variable>)
    requires Accepted(oldVars) && Accepted(newVars)
    ensures History([oldVars, [], newVars])
  {
    assert Accepted([]);
    RecreationChangesRefsIff(oldVars, [], newVars);
  }
}
