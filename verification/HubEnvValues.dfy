/** What an accepted hub exports, in terms of what Valkey holds for its variables. */
module HubEnvValues {
  import opened Wrappers
  import opened HubVariables
  import opened HubEnv
  import opened HubEnvProperties

  // ---------- Joining ----------

  /** Where item number k starts, if every item before it is followed by the delimiter. */
  function Offset(items: seq<string>, delimiter: string, k: nat): nat
    requires k <= |items|
  {
    if k == 0 then 0 else Offset(items, delimiter, k - 1) + |items[k - 1]| + |delimiter|
  }

  predicate PieceAt(t: string, start: nat, piece: string) {
    start + |piece| <= |t| && t[start..start + |piece|] == piece
  }

  /** The items in order with the delimiter between any two, and nothing else. */
  predicate IsJoin(items: seq<string>, delimiter: string, t: string) {
    && |t| + (if items == [] then 0 else |delimiter|) == Offset(items, delimiter, |items|)
    && (forall k | 0 <= k < |items| :: ItemAt(items, delimiter, t, k))
    && (forall k | 0 <= k < |items| - 1 :: DelimiterAt(items, delimiter, t, k))
  }

  lemma {:induction false} OffsetOfRest(items: seq<string>, delimiter: string, k: nat)
    requires k < |items|
    ensures Offset(items, delimiter, k + 1) == |items[0]| + |delimiter| + Offset(items[1..], delimiter, k)
  {
    if k > 0 { OffsetOfRest(items, delimiter, k - 1); }
  }

  lemma {:induction false} OffsetGrows(items: seq<string>, delimiter: string, j: nat, k: nat)
    requires j <= k <= |items|
    ensures Offset(items, delimiter, j) <= Offset(items, delimiter, k)
    decreases k
  {
    if j < k { OffsetGrows(items, delimiter, j, k - 1); }
  }

  lemma PieceBehind(head: string, t: string, start: nat, piece: string)
    ensures PieceAt(head + t, |head| + start, piece) <==> PieceAt(t, start, piece)
  {
    if start + |piece| <= |t| {
      assert (head + t)[|head| + start..|head| + start + |piece|] == t[start..start + |piece|];
    }
  }

  predicate ItemAt(items: seq<string>, delimiter: string, t: string, k: nat)
    requires k < |items|
  {
    PieceAt(t, Offset(items, delimiter, k), items[k])
  }

  predicate DelimiterAt(items: seq<string>, delimiter: string, t: string, k: nat)
    requires k < |items|
  {
    PieceAt(t, Offset(items, delimiter, k) + |items[k]|, delimiter)
  }

  lemma PiecesShift(items: seq<string>, delimiter: string, t: string, k: nat)
    requires k < |items| - 1
    ensures var whole := items[0] + delimiter + t;
      && (ItemAt(items, delimiter, whole, k + 1) <==> ItemAt(items[1..], delimiter, t, k))
      && (DelimiterAt(items, delimiter, whole, k + 1) <==> DelimiterAt(items[1..], delimiter, t, k))
  {
    var head, rest := items[0] + delimiter, items[1..];
    OffsetOfRest(items, delimiter, k);
    PieceBehind(head, t, Offset(rest, delimiter, k), rest[k]);
    PieceBehind(head, t, Offset(rest, delimiter, k) + |rest[k]|, delimiter);
  }

  lemma FirstPieces(items: seq<string>, delimiter: string, t: string)
    requires items != []
    ensures var whole := items[0] + delimiter + t;
      ItemAt(items, delimiter, whole, 0) && DelimiterAt(items, delimiter, whole, 0)
  {
    var whole := items[0] + delimiter + t;
    assert whole[0..|items[0]|] == items[0] && whole[|items[0]|..|items[0]| + |delimiter|] == delimiter;
  }

  /** With more than one item: the first, a delimiter, and the join of the rest. */
  lemma JoinStep(items: seq<string>, delimiter: string, t: string)
    requires |items| > 1
    ensures IsJoin(items, delimiter, items[0] + delimiter + t) <==> IsJoin(items[1..], delimiter, t)
  {
    hide ItemAt, DelimiterAt;
    var whole, rest := items[0] + delimiter + t, items[1..];
    OffsetOfRest(items, delimiter, |items| - 1);
    FirstPieces(items, delimiter, t);
    forall k | 0 <= k < |rest|
      ensures ItemAt(items, delimiter, whole, k + 1) <==> ItemAt(rest, delimiter, t, k)
      ensures DelimiterAt(items, delimiter, whole, k + 1) <==> DelimiterAt(rest, delimiter, t, k)
    {
      PiecesShift(items, delimiter, t, k);
    }
    if IsJoin(items, delimiter, whole) {
      forall k | 0 <= k < |rest| ensures ItemAt(rest, delimiter, t, k) {
        assert ItemAt(items, delimiter, whole, k + 1);
      }
      forall k | 0 <= k < |rest| - 1 ensures DelimiterAt(rest, delimiter, t, k) {
        assert DelimiterAt(items, delimiter, whole, k + 1);
      }
    }
    if IsJoin(rest, delimiter, t) {
      forall k | 0 <= k < |items| ensures ItemAt(items, delimiter, whole, k) {
        if k > 0 { assert ItemAt(rest, delimiter, t, k - 1); }
      }
      forall k | 0 <= k < |items| - 1 ensures DelimiterAt(items, delimiter, whole, k) {
        if k > 0 { assert DelimiterAt(rest, delimiter, t, k - 1); }
      }
    }
  }

  lemma StartsWithFirst(items: seq<string>, delimiter: string, t: string)
    requires |items| > 1 && IsJoin(items, delimiter, t)
    ensures |t| >= |items[0]| + |delimiter| && t == items[0] + delimiter + t[|items[0]| + |delimiter|..]
  {
    assert ItemAt(items, delimiter, t, 0) && DelimiterAt(items, delimiter, t, 0);
  }

  /** That is what joining gives, and only that. */
  lemma {:induction false} JoinItemsIff(items: seq<string>, delimiter: string, t: string)
    ensures t == JoinItems(items, delimiter) <==> IsJoin(items, delimiter, t)
  {
    if |items| > 1 {
      var joined := JoinItems(items[1..], delimiter);
      JoinItemsIff(items[1..], delimiter, joined);
      JoinStep(items, delimiter, joined);
      if IsJoin(items, delimiter, t) {
        StartsWithFirst(items, delimiter, t);
        var rest := t[|items[0]| + |delimiter|..];
        JoinStep(items, delimiter, rest);
        JoinItemsIff(items[1..], delimiter, rest);
      }
    } else if |items| == 1 {
      assert Offset(items, delimiter, 1) == Offset(items, delimiter, 0) + |items[0]| + |delimiter|;
      assert ItemAt(items, delimiter, t, 0) <==> |t| >= |items[0]| && t[..|items[0]|] == items[0];
    }
  }

  // ---------- Values ----------

  /** Serializer number j of variable number i has this value in the environment. */
  predicate IsExported(vars: seq<Variable>, valkey: Valkey, i: nat, j: nat, t: string)
    requires AllIndexable(vars) && i < |vars| && j < |Serializers(vars[i])|
  {
    var name, env := Serializers(vars[i])[j].name, Env(vars, |vars|, valkey);
    name in env && env[name] == t
  }

  lemma {:induction false} NamePlace(vars: seq<Variable>, n: nat, i: nat, j: nat) returns (k: nat)
    requires i < n <= |vars| && j < |Serializers(vars[i])|
    ensures k < |ExportedNames(vars, n)| && ExportedNames(vars, n)[k] == Serializers(vars[i])[j].name
    ensures k >= |ExportedNames(vars, i)| && (i < n - 1 ==> k < |ExportedNames(vars, n - 1)|)
    ensures i == n - 1 ==> k == |ExportedNames(vars, i)| + j
  {
    if i == n - 1 {
      k := |ExportedNames(vars, i)| + j;
    } else {
      k := NamePlace(vars, n - 1, i, j);
    }
  }

  /** Two serializers of accepted variables have one name only if they are the same one. */
  lemma {:induction false} NamesDiffer(vars: seq<Variable>, n: nat, i: nat, j: nat, i': nat, j': nat)
    requires i < n <= |vars| && j < |Serializers(vars[i])| && i' < n && j' < |Serializers(vars[i'])|
    requires NoDuplicates(ExportedNames(vars, n)) && Serializers(vars[i])[j].name == Serializers(vars[i'])[j'].name
    ensures i == i' && j == j'
    decreases n
  {
    if i < n - 1 && i' < n - 1 {
      NoDuplicatesPrefix(ExportedNames(vars, n - 1), NamesOf(Serializers(vars[n - 1]), |Serializers(vars[n - 1])|));
      NamesDiffer(vars, n - 1, i, j, i', j');
    } else {
      var k := NamePlace(vars, n, i, j);
      var k' := NamePlace(vars, n, i', j');
      assert k == k';
    }
  }

  lemma ExportedAtIff(vars: seq<Variable>, valkey: Valkey, i: nat, j: nat, t: string)
    requires Accepted(vars) && i < |vars| && j < |Serializers(vars[i])|
    ensures AllIndexable(vars)
    ensures IsExported(vars, valkey, i, j, t) <==> ExportsAt(vars[i], valkey, j, Serializers(vars[i])[j].name, t)
  {
    var name := Serializers(vars[i])[j].name;
    EnvIsExact(vars, valkey, name, t);
    if IsExported(vars, valkey, i, j, t) {
      var i' :| 0 <= i' < |vars| && Exports(vars[i'], valkey, name, t);
      var j' :| 0 <= j' < |Serializers(vars[i'])| && ExportsAt(vars[i'], valkey, j', name, t);
      NamesDiffer(vars, |vars|, i, j, i', j');
    }
    if ExportsAt(vars[i], valkey, j, name, t) { assert Exports(vars[i], valkey, name, t); }
  }

  /** The join by the last join transformer, if there is one. */
  predicate LastJoinIs(ts: seq<Transformer>, items: seq<string>, t: string) {
    exists k | 0 <= k < |ts| :: IsLastJoin(ts, k) && IsJoin(items, ts[k].delimiter, t)
  }

  predicate IsLastJoin(ts: seq<Transformer>, k: nat) {
    k < |ts| && ts[k].Join? && forall m | k < m < |ts| :: !ts[m].Join?
  }

  lemma {:induction false} LastJoinIff(ts: seq<Transformer>, items: seq<string>, t: string)
    ensures LastJoin(ts, items) == Some(t) <==> LastJoinIs(ts, items, t)
  {
    if ts != [] {
      var n := |ts| - 1;
      if ts[n].Join? {
        JoinItemsIff(items, ts[n].delimiter, t);
        assert IsLastJoin(ts, n);
        if LastJoinIs(ts, items, t) {
          var k :| 0 <= k < |ts| && IsLastJoin(ts, k) && IsJoin(items, ts[k].delimiter, t);
          assert k == n;
        }
      } else {
        LastJoinIff(ts[..n], items, t);
        forall k | 0 <= k < n ensures IsLastJoin(ts, k) <==> IsLastJoin(ts[..n], k) {
          assert forall m | k < m < n :: ts[..n][m] == ts[m];
        }
        if LastJoinIs(ts, items, t) {
          var k :| 0 <= k < |ts| && IsLastJoin(ts, k) && IsJoin(items, ts[k].delimiter, t);
          assert k < n;
        }
        if LastJoinIs(ts[..n], items, t) {
          var k :| 0 <= k < n && IsLastJoin(ts[..n], k) && IsJoin(items, ts[..n][k].delimiter, t);
          assert IsLastJoin(ts, k);
        }
      }
    }
  }

  /** An accepted variable that is not a meta variable exports the text that is stored under its key, the map
      stored there or the empty map's text, or the items of the set stored there, joined. */
  lemma ComputedValueIff(vars: seq<Variable>, valkey: Valkey, i: nat, j: nat, t: string)
    requires Accepted(vars) && i < |vars| && j < |Serializers(vars[i])|
    requires vars[i].variableType.Manual? || vars[i].variableType.Computed?
    ensures AllIndexable(vars)
    ensures var v, ts := vars[i], Serializers(vars[i])[j].transformers;
      && (v.dataType in {StringData, IntData, BooleanData, FloatData} ==>
            (IsExported(vars, valkey, i, j, t) <==> v.key in valkey.strings && valkey.strings[v.key] == t))
      && (v.dataType == MapData ==>
            (IsExported(vars, valkey, i, j, t) <==>
             t == if v.key in valkey.maps then valkey.maps[v.key] else valkey.emptyMap))
      && (v.dataType == SetData ==>
            (IsExported(vars, valkey, i, j, t) <==>
             LastJoinIs(ts, if v.key in valkey.sets then valkey.sets[v.key] else [], t)))
      && (v.dataType in {PriorityList, HashSet, OtherData} ==> !IsExported(vars, valkey, i, j, t))
  {
    ExportedAtIff(vars, valkey, i, j, t);
    var v := vars[i];
    assert VariableOk(v);
    LastJoinIff(Serializers(v)[j].transformers, if v.key in valkey.sets then valkey.sets[v.key] else [], t);
  }

  /** An accepted meta variable exports the text stored under its key and its two references, in their
      order, or the items of the list stored under its key, joined. */
  lemma MetaValueIff(vars: seq<Variable>, valkey: Valkey, i: nat, j: nat, t: string)
    requires Accepted(vars) && i < |vars| && j < |Serializers(vars[i])|
    requires vars[i].variableType.Meta?
    ensures AllIndexable(vars) && (vars[i].dataType == HashSet ==> |vars[i].refs| == 2)
    ensures var v, ts := vars[i], Serializers(vars[i])[j].transformers;
      && (v.dataType == HashSet ==>
            (IsExported(vars, valkey, i, j, t) <==>
             (v.key, v.refs[0], v.refs[1]) in valkey.hashes && valkey.hashes[(v.key, v.refs[0], v.refs[1])] == t))
      && (v.dataType == PriorityList ==>
            (IsExported(vars, valkey, i, j, t) <==> v.key in valkey.lists && LastJoinIs(ts, valkey.lists[v.key], t)))
      && (v.dataType !in {HashSet, PriorityList} ==> !IsExported(vars, valkey, i, j, t))
  {
    ExportedAtIff(vars, valkey, i, j, t);
    var v := vars[i];
    assert VariableOk(v);
    if v.key in valkey.lists { LastJoinIff(Serializers(v)[j].transformers, valkey.lists[v.key], t); }
  }

  /** A variable of another type exports nothing. */
  lemma OtherTypesExportNothing(vars: seq<Variable>, valkey: Valkey, i: nat, j: nat, t: string)
    requires Accepted(vars) && i < |vars| && j < |Serializers(vars[i])| && vars[i].variableType.OtherType?
    ensures AllIndexable(vars) && !IsExported(vars, valkey, i, j, t)
  {
    ExportedAtIff(vars, valkey, i, j, t);
  }

  // ---------- The other two maps ----------

  /** The manual environment has the data type of each manual variable under its key, and nothing else. */
  lemma {:induction false} ManualEnvIff(vars: seq<Variable>, n: nat, key: string, d: DataType)
    requires n <= |vars| && AcceptedUpTo(vars, n)
    ensures key in ManualEnv(vars, n) && ManualEnv(vars, n)[key] == d <==>
      exists i | 0 <= i < n :: vars[i].variableType == Manual && vars[i].key == key && vars[i].dataType == d
    ensures key in ManualEnv(vars, n) ==> key in KeysOf(vars, n)
  {
    if n > 0 {
      PrefixAccepted(vars, n - 1);
      KeysSnoc(vars, n - 1);
      ManualEnvIff(vars, n - 1, key, d);
      assert VariableOk(vars[n - 1]);
      if exists i | 0 <= i < n - 1 :: vars[i].variableType == Manual && vars[i].key == key && vars[i].dataType == d {
        assert key in KeysOf(vars, n - 1);
      }
    }
  }

  /** The keys to keep are those of the variables in the built-in storage. */
  lemma {:induction false} KeptKeysIff(vars: seq<Variable>, n: nat, key: string)
    requires n <= |vars|
    ensures key in KeptKeys(vars, n) <==>
      exists i | 0 <= i < n :: vars[i].storageType == BuiltInValkey && vars[i].key == key
  {
    if n > 0 { KeptKeysIff(vars, n - 1, key); }
  }

  // ---------- What ends a pass ----------

  /** A variable's read fails if Valkey fails for its key and its data type goes with its type. */
  lemma FailsIff(v: Variable, valkey: Valkey)
    ensures Fails(v, valkey) <==>
      && v.key in valkey.failing && v.storageType == BuiltInValkey
      && ((v.variableType == Meta && v.dataType in {PriorityList, HashSet})
          || (v.variableType in {Manual, Computed}
              && v.dataType in {StringData, IntData, BooleanData, FloatData, MapData, SetData}))
  {
  }

  /** An accepted variable panics exactly if it is a set, or a priority list that is there, and one of its
      serializers has a join transformer without settings. */
  lemma PanicsIff(vars: seq<Variable>, i: nat, valkey: Valkey)
    requires Accepted(vars) && i < |vars|
    ensures AllIndexable(vars)
    ensures var v := vars[i];
      Panics(vars, i, valkey) <==>
        && ((v.variableType in {Manual, Computed} && v.dataType == SetData)
            || (v.variableType == Meta && v.dataType == PriorityList && v.key in valkey.lists))
        && exists j, k | 0 <= j < |Serializers(v)| && 0 <= k < |Serializers(v)[j].transformers| ::
             Serializers(v)[j].transformers[k] == NoJoinBlock
  {
    AcceptedPanicsIff(vars, i, valkey);
    assert VariableOk(vars[i]);
  }
}
