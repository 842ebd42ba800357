/** What a build of the AWS ingress may end with: sort.Slice of internal/manifests/collector/ingress_aws.go
    sorts by host only, after a walk over a map. */
module IngressYields {
  import opened Wrappers
  import opened RuleViews
  import opened MultiPort
  import opened IngressRules
  import PortNames
  import Slices

  /** The rules that some walk over the components and some sort end with. */
  ghost predicate MayYield(service: string, hosts: map<string, string>, comps: Components, sorted: seq<RuleView>) {
    exists order :: IsOrder(order, comps.Keys) && Sorts(sorted, RulesInOrder(service, hosts, comps, order))
  }

  ghost predicate YieldsOne(service: string, hosts: map<string, string>, comps: Components) {
    forall x, y | MayYield(service, hosts, comps, x) && MayYield(service, hosts, comps, y) :: x == y
  }

  /** Components mapped to one host have the same paths. */
  predicate HostsAgree(service: string, hosts: map<string, string>, comps: Components) {
    forall c, d | c in comps && d in comps && c in hosts && d in hosts && hosts[c] == hosts[d] ::
      AllPaths(service, comps[c], |comps[c]|) == AllPaths(service, comps[d], |comps[d]|)
  }

  /** Rules of one host are the same rule. */
  predicate Determined(rules: seq<RuleView>) {
    forall i, j | 0 <= i < |rules| && 0 <= j < |rules| && rules[i].host == rules[j].host :: rules[i] == rules[j]
  }

  lemma SameMembers(x: seq<RuleView>, y: seq<RuleView>, i: nat) returns (j: nat)
    requires multiset(x) == multiset(y) && i < |x|
    ensures j < |y| && y[j] == x[i]
  {
    assert x[i] in multiset(x);
    j :| 0 <= j < |y| && y[j] == x[i];
  }

  lemma HeadsAreEqual(x: seq<RuleView>, y: seq<RuleView>)
    requires SortedByHost(x) && SortedByHost(y) && multiset(x) == multiset(y) && Determined(x) && x != [] && y != []
    ensures x[0] == y[0]
  {
    var j := SameMembers(x, y, 0);
    var i := SameMembers(y, x, 0);
    LessIsTotal(x[0].host, y[0].host);
  }

  lemma TailsShareMembers(x: seq<RuleView>, y: seq<RuleView>)
    requires multiset(x) == multiset(y) && x != [] && y != [] && x[0] == y[0]
    ensures multiset(x[1..]) == multiset(y[1..])
  {
    assert x == [x[0]] + x[1..] && y == [y[0]] + y[1..];
    assert multiset(x[1..]) == multiset(x) - multiset{x[0]} && multiset(y[1..]) == multiset(y) - multiset{y[0]};
  }

  /** Then all sorts of them end the same. */
  lemma {:induction false} SortedUnique(x: seq<RuleView>, y: seq<RuleView>)
    requires SortedByHost(x) && SortedByHost(y) && multiset(x) == multiset(y) && Determined(x)
    ensures x == y
  {
    assert |multiset(x)| == |x| && |multiset(y)| == |y|;
    if x != [] {
      HeadsAreEqual(x, y);
      TailsShareMembers(x, y);
      SortedUnique(x[1..], y[1..]);
      assert x == [x[0]] + x[1..] && y == [y[0]] + y[1..];
    }
  }

  lemma {:induction false} SortExists(rules: seq<RuleView>) returns (sorted: seq<RuleView>)
    ensures Sorts(sorted, rules)
  {
    if rules == [] {
      sorted := [];
    } else {
      var n := |rules| - 1;
      var rest := SortExists(rules[..n]);
      var k := PlaceExists(rest, rules[n], |rest|);
      assert rules == rules[..n] + [rules[n]];
      InsertedMembers(rest, rules[n], k);
      sorted := rest[..k] + [rules[n]] + rest[k..];
    }
  }

  lemma InsertedMembers(rules: seq<RuleView>, r: RuleView, k: nat)
    requires k <= |rules|
    ensures multiset(rules[..k] + [r] + rules[k..]) == multiset(rules) + multiset{r}
  {
    assert rules == rules[..k] + rules[k..];
  }

  lemma {:induction false} PlaceExists(rules: seq<RuleView>, r: RuleView, n: nat) returns (k: nat)
    requires SortedByHost(rules) && n <= |rules| && forall i | n <= i < |rules| :: !Less(rules[i].host, r.host)
    ensures k <= |rules| && SortedByHost(rules[..k] + [r] + rules[k..])
  {
    if n > 0 && Less(r.host, rules[n - 1].host) {
      LessIsTotal(r.host, rules[n - 1].host);
      k := PlaceExists(rules, r, n - 1);
    } else {
      k := n;
      forall i | 0 <= i < k ensures !Less(r.host, rules[i].host) {
        if i < k - 1 { LessIsTransitive(rules[i].host, rules[k - 1].host, r.host); }
      }
    }
  }

  /** Two different rules of one host can change places in a sorted list. */
  lemma SwapSorts(x: seq<RuleView>, rules: seq<RuleView>, i: nat, j: nat)
    requires Sorts(x, rules) && i < |x| && j < |x| && x[i].host == x[j].host
    ensures Sorts(x[i := x[j]][j := x[i]], rules)
  {
    var y := x[i := x[j]][j := x[i]];
    assert multiset(y) == multiset(x);
    forall m, n | 0 <= m < n < |y| ensures !Less(y[n].host, y[m].host) {
      assert y[m].host == x[m].host && y[n].host == x[n].host;
    }
  }

  lemma InFlattened<T>(ss: seq<seq<T>>, i: nat, j: nat) returns (k: nat)
    requires i < |ss| && j < |ss[i]|
    ensures k < |Slices.Flatten(ss)| && Slices.Flatten(ss)[k] == ss[i][j]
    decreases |ss|
  {
    var n := |ss| - 1;
    if i == n {
      k := |Slices.Flatten(ss[..n])| + j;
    } else {
      k := InFlattened(ss[..n], i, j);
    }
  }

  lemma FromFlattened<T>(ss: seq<seq<T>>, k: nat) returns (i: nat, j: nat)
    requires k < |Slices.Flatten(ss)|
    ensures i < |ss| && j < |ss[i]| && Slices.Flatten(ss)[k] == ss[i][j]
    decreases |ss|
  {
    var n := |ss| - 1;
    var front := Slices.Flatten(ss[..n]);
    if k < |front| {
      i, j := FromFlattened(ss[..n], k);
    } else {
      i, j := n, k - |front|;
    }
  }

  predicate NoneEmpty(comps: Components) { forall c | c in comps :: comps[c] != [] }

  lemma RuleOfComponent(service: string, hosts: map<string, string>, comps: Components, order: seq<string>, c: string)
    returns (k: nat)
    requires IsOrder(order, comps.Keys) && NoneEmpty(comps) && c in comps && c in hosts
    ensures var rules := RulesInOrder(service, hosts, comps, order);
      k < |rules| && rules[k] == RuleView(hosts[c], AllPaths(service, comps[c], |comps[c]|))
  {
    var i := Position(order, comps.Keys, c);
    var ss := MapSeq(order, RulesByComponent(service, hosts, comps));
    assert ss[i] == RulesOf(service, hosts, c, comps[c]);
    k := InFlattened(ss, i, 0);
  }

  lemma ComponentOfRule(service: string, hosts: map<string, string>, comps: Components, order: seq<string>, k: nat)
    returns (c: string)
    requires IsOrder(order, comps.Keys) && k < |RulesInOrder(service, hosts, comps, order)|
    ensures c in comps && c in hosts
    ensures RulesInOrder(service, hosts, comps, order)[k] == RuleView(hosts[c], AllPaths(service, comps[c], |comps[c]|))
  {
    var ss := MapSeq(order, RulesByComponent(service, hosts, comps));
    var i, j := FromFlattened(ss, k);
    c := order[i];
    assert ss[i] == RulesOf(service, hosts, c, comps[c]);
  }

  lemma DeterminedIff(service: string, hosts: map<string, string>, comps: Components, order: seq<string>)
    requires IsOrder(order, comps.Keys) && NoneEmpty(comps)
    ensures Determined(RulesInOrder(service, hosts, comps, order)) <==> HostsAgree(service, hosts, comps)
  {
    var rules := RulesInOrder(service, hosts, comps, order);
    if HostsAgree(service, hosts, comps) {
      forall i, j | 0 <= i < |rules| && 0 <= j < |rules| && rules[i].host == rules[j].host
        ensures rules[i] == rules[j] {
        var c := ComponentOfRule(service, hosts, comps, order, i);
        var d := ComponentOfRule(service, hosts, comps, order, j);
      }
    }
    if Determined(rules) {
      forall c, d | c in comps && d in comps && c in hosts && d in hosts && hosts[c] == hosts[d]
        ensures AllPaths(service, comps[c], |comps[c]|) == AllPaths(service, comps[d], |comps[d]|)
      {
        var i := RuleOfComponent(service, hosts, comps, order, c);
        var j := RuleOfComponent(service, hosts, comps, order, d);
        assert rules[i].host == rules[j].host;
      }
    }
  }

  lemma MembersDetermine(x: seq<RuleView>, rules: seq<RuleView>)
    requires multiset(x) == multiset(rules)
    ensures Determined(x) <==> Determined(rules)
  {
    if Determined(x) { Determines(x, rules); }
    if Determined(rules) { Determines(rules, x); }
  }

  lemma Determines(x: seq<RuleView>, y: seq<RuleView>)
    requires multiset(x) == multiset(y) && Determined(x)
    ensures Determined(y)
  {
    forall i, j | 0 <= i < |y| && 0 <= j < |y| && y[i].host == y[j].host ensures y[i] == y[j] {
      var m := SameMembers(y, x, i);
      var n := SameMembers(y, x, j);
      assert x[m].host == x[n].host;
    }
  }

  lemma AnyOrder(keys: set<string>) returns (order: seq<string>)
    ensures IsOrder(order, keys)
  {
    if keys == {} {
      order := [];
    } else {
      var k :| k in keys;
      var rest := AnyOrder(keys - {k});
      order := [k] + rest;
      forall x | x in keys ensures x in order {
        if x != k { assert x in rest; }
      }
    }
  }

  /** Two walks, each sorted somehow, end with the same rules for certain if and only if the components
      mapped to one host have the same paths. */
  lemma YieldsOneIff(service: string, hosts: map<string, string>, comps: Components)
    requires NoneEmpty(comps)
    ensures YieldsOne(service, hosts, comps) <==> HostsAgree(service, hosts, comps)
  {
    if HostsAgree(service, hosts, comps) {
      forall x, y | MayYield(service, hosts, comps, x) && MayYield(service, hosts, comps, y) ensures x == y {
        AgreeingYields(service, hosts, comps, x, y);
      }
    } else {
      var x, y := TwoYields(service, hosts, comps);
    }
  }

  lemma AgreeingYields(service: string, hosts: map<string, string>, comps: Components, x: seq<RuleView>,
                       y: seq<RuleView>)
    requires NoneEmpty(comps) && HostsAgree(service, hosts, comps)
    requires MayYield(service, hosts, comps, x) && MayYield(service, hosts, comps, y)
    ensures x == y
  {
    var a :| IsOrder(a, comps.Keys) && Sorts(x, RulesInOrder(service, hosts, comps, a));
    var b :| IsOrder(b, comps.Keys) && Sorts(y, RulesInOrder(service, hosts, comps, b));
    RulesIgnoreOrder(service, hosts, comps, a, b);
    DeterminedIff(service, hosts, comps, a);
    MembersDetermine(x, RulesInOrder(service, hosts, comps, a));
    SortedUnique(x, y);
  }

  lemma OneYield(service: string, hosts: map<string, string>, comps: Components) returns (x: seq<RuleView>)
    ensures MayYield(service, hosts, comps, x)
  {
    var order := AnyOrder(comps.Keys);
    x := SortExists(RulesInOrder(service, hosts, comps, order));
  }

  lemma TwoYields(service: string, hosts: map<string, string>, comps: Components)
    returns (x: seq<RuleView>, y: seq<RuleView>)
    requires NoneEmpty(comps) && !HostsAgree(service, hosts, comps)
    ensures MayYield(service, hosts, comps, x) && MayYield(service, hosts, comps, y) && x != y
  {
    var order := AnyOrder(comps.Keys);
    var rules := RulesInOrder(service, hosts, comps, order);
    DeterminedIff(service, hosts, comps, order);
    x := SortExists(rules);
    MembersDetermine(x, rules);
    var i, j :| 0 <= i < |x| && 0 <= j < |x| && x[i].host == x[j].host && x[i] != x[j];
    SwapSorts(x, rules, i, j);
    y := x[i := x[j]][j := x[i]];
  }

  /** The ports of a component come in the order of a walk as well; with at most one gRPC port that
      cannot show. */
  lemma PortOrderIsHidden(a: Components, b: Components)
    requires a.Keys == b.Keys && forall c | c in a :: multiset(a[c]) == multiset(b[c])
    requires forall c | c in a :: |Slices.Filter(a[c], HasGrpcPort)| <= 1
    ensures GrpcComponents(a) == GrpcComponents(b)
  {
    forall c | c in a ensures Slices.Filter(a[c], HasGrpcPort) == Slices.Filter(b[c], HasGrpcPort) {
      Slices.FilterShares(a[c], b[c], HasGrpcPort);
      OneMember(Slices.Filter(a[c], HasGrpcPort), Slices.Filter(b[c], HasGrpcPort));
    }
  }

  lemma OneMember<T>(x: seq<T>, y: seq<T>)
    requires multiset(x) == multiset(y) && |x| <= 1
    ensures x == y
  {
    assert |multiset(x)| == |x| && |multiset(y)| == |y|;
    if x != [] { assert x[0] in multiset(y); }
  }

  /** Two receivers with a gRPC port each, sent to one host, are enough for the rules to differ. */
  lemma SharedHostDisagrees(service: string, host: string, a: string, b: string, p: PortUrlPaths, q: PortUrlPaths)
    requires a != b && HasGrpcPort(p) && HasGrpcPort(q) && p.urlPaths != [] && PortNameIn(p) != PortNameIn(q)
    ensures var comps := map[a := [p], b := [q]];
      GrpcComponents(comps) == comps && !HostsAgree(service, map[a := host, b := host], comps)
  {
    var comps, hosts := map[a := [p], b := [q]], map[a := host, b := host];
    FilterOne(p);
    FilterOne(q);
    assert GrpcComponents(comps) == comps;
    var x, y := AllPaths(service, [p], 1), AllPaths(service, [q], 1);
    assert x == PathsOf(service, PortNameIn(p), p.urlPaths, |p.urlPaths|);
    assert y == PathsOf(service, PortNameIn(q), q.urlPaths, |q.urlPaths|);
    assert x[0].portName == PortNameIn(p);
    assert |y| > 0 ==> y[0].portName == PortNameIn(q);
    assert a in comps && b in comps && comps[a] == [p] && comps[b] == [q];
  }

  function GrpcPort(name: string): PortUrlPaths { PortUrlPaths(Port(name, 4317, 0, 4317, "TCP", Some("grpc")), ["/"]) }

  /** For example these. */
  lemma TwoReceiversOnOneHost(service: string, host: string)
    ensures !HostsAgree(service, map["a" := host, "b" := host],
                        GrpcComponents(map["a" := [GrpcPort("a")], "b" := [GrpcPort("b")]]))
  {
    assert PortNames.ReplaceAll("a") == "a" && PortNames.ReplaceAll("b") == "b";
    SharedHostDisagrees(service, host, "a", "b", GrpcPort("a"), GrpcPort("b"));
  }

  lemma FilterOne(p: PortUrlPaths)
    requires HasGrpcPort(p)
    ensures Slices.Filter([p], HasGrpcPort) == [p]
  {
    assert [p][..0] == [];
  }
}
