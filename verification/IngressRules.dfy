/** The rules of the AWS ingress: internal/manifests/collector/ingress_aws.go. */
module IngressRules {
  import opened Wrappers
  import opened MultiPort
  import opened RuleViews
  import Naming
  import PortNames
  import ServicePorts
  import Slices

  type Components = map<string, seq<PortUrlPaths>>

  /** A rule refers to its paths; the rules of one component share theirs. */
  datatype Rule = Rule(host: string, paths: array<Path>)

  // ---------- Specification ----------

  predicate HasGrpcPort(p: PortUrlPaths) { ServicePorts.IsGrpc(p.port) }

  /** The components with a gRPC port, each with its gRPC ports only. */
  function GrpcComponents(comps: Components): Components {
    map c | c in comps && Slices.Filter(comps[c], HasGrpcPort) != [] :: Slices.Filter(comps[c], HasGrpcPort)
  }

  /** The first n URL paths of a port, under the name the service has for it. */
  function PathsOf(service: string, portName: string, urls: seq<string>, n: nat): (r: seq<Path>)
    requires n <= |urls|
    ensures |r| == n
  {
    seq(n, i requires 0 <= i < n => Path(urls[i], service, portName))
  }

  function PortNameIn(p: PortUrlPaths): string { PortNames.PortName(p.port.name, p.port.port) }

  /** The paths of the first n ports of a component, in order. */
  function AllPaths(service: string, ports: seq<PortUrlPaths>, n: nat): (r: seq<Path>)
    requires n <= |ports|
    ensures |r| == PathCount(ports, n)
  {
    if n == 0 then []
    else AllPaths(service, ports, n - 1)
         + PathsOf(service, PortNameIn(ports[n - 1]), ports[n - 1].urlPaths, |ports[n - 1].urlPaths|)
  }

  function PathCount(ports: seq<PortUrlPaths>, n: nat): nat
    requires n <= |ports|
  {
    if n == 0 then 0 else PathCount(ports, n - 1) + |ports[n - 1].urlPaths|
  }

  lemma {:induction false} PathCountGrows(ports: seq<PortUrlPaths>, m: nat, n: nat)
    requires m <= n <= |ports|
    ensures PathCount(ports, m) <= PathCount(ports, n)
    decreases n
  {
    if m < n { PathCountGrows(ports, m, n - 1); }
  }

  /** Each URL path of each port leads to the service's port of that name, port by port in order. */
  lemma {:induction false} PathAt(service: string, ports: seq<PortUrlPaths>, n: nat, p: nat, u: nat)
    requires p < n <= |ports| && u < |ports[p].urlPaths|
    ensures PathCount(ports, p) + u < PathCount(ports, n)
    ensures AllPaths(service, ports, n)[PathCount(ports, p) + u] ==
      Path(ports[p].urlPaths[u], service, PortNames.PortName(ports[p].port.name, ports[p].port.port))
  {
    if p < n - 1 {
      PathAt(service, ports, n - 1, p, u);
    }
  }

  /** One rule for each gRPC port of a component that is mapped to a host, each with all paths of the component. */
  function RulesOf(service: string, hosts: map<string, string>, comp: string,
                   ports: seq<PortUrlPaths>): (r: seq<RuleView>)
    ensures |r| == if comp in hosts then |ports| else 0
  {
    if comp !in hosts then [] else seq(|ports|, i => RuleView(hosts[comp], AllPaths(service, ports, |ports|)))
  }

  function RulesByComponent(service: string, hosts: map<string, string>,
                            comps: Components): map<string, seq<RuleView>> {
    map c | c in comps :: RulesOf(service, hosts, c, comps[c])
  }

  function RulesInOrder(service: string, hosts: map<string, string>, comps: Components,
                        order: seq<string>): seq<RuleView>
    requires forall i | 0 <= i < |order| :: order[i] in comps
  {
    Slices.Flatten(MapSeq(order, RulesByComponent(service, hosts, comps)))
  }

  /** A component is one with a gRPC port exactly if one of its configured protocols was built with the
      application protocol grpc, whatever order its ports came in. */
  lemma IsGrpcComponentIff(wanted: map<string, Settings>, addrs: map<string, string>,
                           mappings: map<string, ServicePort>,
                           urls: map<string, seq<string>>, protocols: Protocols, order: seq<string>,
                           comps: Components, c: string)
    requires Built(wanted, addrs, mappings, urls)
    requires protocols.Keys <= mappings.Keys && IsOrder(order, protocols.Keys)
    requires c in comps && JustPorts(comps[c]) == PortsInOrder(mappings, c, protocols, order)
    ensures c in GrpcComponents(comps) <==> exists p | p in protocols :: wanted[p].appProtocol == Some("grpc")
  {
    PortFields(mappings, c, protocols, order);
    forall i | 0 <= i < |order|
      ensures HasGrpcPort(comps[c][i]) <==> wanted[order[i]].appProtocol == Some("grpc")
    {
      assert JustPorts(comps[c])[i] == comps[c][i].port;
    }
    if c in GrpcComponents(comps) {
      var q := Slices.Filter(comps[c], HasGrpcPort)[0];
      Slices.FilterKeeps(comps[c], HasGrpcPort, q);
      var i :| 0 <= i < |comps[c]| && comps[c][i] == q;
      assert order[i] in protocols;
    }
    if p :| p in protocols && wanted[p].appProtocol == Some("grpc") {
      var i := Position(order, protocols.Keys, p);
      Slices.FilterKeeps(comps[c], HasGrpcPort, comps[c][i]);
    }
  }

  // ---------- Keeping the gRPC ports ----------

  method DeleteNonGrpc(ports: seq<PortUrlPaths>) returns (r: seq<PortUrlPaths>)
    ensures r == Slices.Filter(ports, HasGrpcPort)
  {
    var a := new PortUrlPaths[|ports|](i requires 0 <= i < |ports| => ports[i]);
    assert a[..] == ports && a[..|ports|] == ports;
    var len := Slices.DeleteUnless(a, |ports|, HasGrpcPort);
    return a[..len];
  }

  /** Walks the map while replacing and deleting its entries. */
  method KeepGrpcComponents(all: Components) returns (comps: Components)
    ensures comps == GrpcComponents(all)
  {
    comps := all;
    var rest := all;
    while rest != map[]
      invariant Keeping(all, comps, rest)
      decreases |rest|
    {
      var comp :| comp in rest;
      KeepOne(all, comps, rest, comp);
      var ports := DeleteNonGrpc(comps[comp]);
      comps := if |ports| > 0 then comps[comp := ports] else comps - {comp};
      rest := rest - {comp};
    }
    KeptAll(all, comps);
  }

  /** Where the walk stands: the rest of the map is as it was. */
  ghost predicate Keeping(all: Components, comps: Components, rest: Components) {
    && rest.Keys <= all.Keys && comps.Keys <= all.Keys
    && forall c | c in all ::
         if c in rest then c in comps && comps[c] == all[c]
         else (c in comps <==> c in GrpcComponents(all)) && (c in comps ==> comps[c] == GrpcComponents(all)[c])
  }

  lemma KeepOne(all: Components, comps: Components, rest: Components, c: string)
    requires Keeping(all, comps, rest) && c in rest
    ensures c in comps && |rest - {c}| < |rest|
    ensures var ports := Slices.Filter(comps[c], HasGrpcPort);
      Keeping(all, if |ports| > 0 then comps[c := ports] else comps - {c}, rest - {c})
  {
    RestShrinks(rest, c);
  }

  lemma KeptAll(all: Components, comps: Components)
    requires Keeping(all, comps, map[])
    ensures comps == GrpcComponents(all)
  {
    assert forall c :: c in comps <==> c in GrpcComponents(all);
  }

  // ---------- Building the rules ----------

  /** The array is filled through one running index while rules that already refer to it are appended;
      in the end it is full, so every rule of the component has all its paths. */
  method ComponentRules(service: string, hosts: map<string, string>, comp: string, ports: seq<PortUrlPaths>)
    returns (rules: seq<Rule>)
    ensures forall i | 0 <= i < |rules| :: fresh(rules[i].paths)
    ensures Viewed(rules) == RulesOf(service, hosts, comp, ports)
  {
    var totalPaths := TotalPaths(ports);
    var paths := new Path[totalPaths](_ => Path("", "", ""));
    rules := [];
    var i := 0;
    for p := 0 to |ports|
      invariant fresh(paths) && i == PathCount(ports, p) && i <= paths.Length == PathCount(ports, |ports|)
      invariant paths[..i] == AllPaths(service, ports, p)
      invariant |rules| == if comp in hosts then p else 0
      invariant forall k | 0 <= k < |rules| :: rules[k].paths == paths && rules[k].host == hosts[comp]
    {
      PathCountGrows(ports, p + 1, |ports|);
      i := FillPort(service, ports, p, paths, i);
      if comp in hosts { rules := rules + [Rule(hosts[comp], paths)]; }
    }
    assert paths[..] == AllPaths(service, ports, |ports|);
    if comp in hosts { SharedViews(rules, paths, hosts[comp], AllPaths(service, ports, |ports|)); }
  }

  lemma SharedViews(rules: seq<Rule>, paths: array<Path>, host: string, contents: seq<Path>)
    requires paths[..] == contents
    requires forall k | 0 <= k < |rules| :: rules[k].paths == paths && rules[k].host == host
    ensures Viewed(rules) == seq(|rules|, i => RuleView(host, contents))
  {
  }

  method TotalPaths(ports: seq<PortUrlPaths>) returns (total: nat)
    ensures total == PathCount(ports, |ports|)
  {
    total := 0;
    for p := 0 to |ports|
      invariant total == PathCount(ports, p)
    {
      total := total + |ports[p].urlPaths|;
    }
  }

  lemma PathsOneMore(service: string, portName: string, urls: seq<string>, n: nat)
    requires n < |urls|
    ensures PathsOf(service, portName, urls, n + 1) ==
      PathsOf(service, portName, urls, n) + [Path(urls[n], service, portName)]
  {
  }

  lemma Associative<T>(a: seq<T>, b: seq<T>, c: seq<T>)
    ensures a + (b + c) == a + b + c
  {
  }

  method FillPort(service: string, ports: seq<PortUrlPaths>, p: nat, paths: array<Path>, start: nat) returns (i: nat)
    requires p < |ports| && start == PathCount(ports, p) && PathCount(ports, p + 1) <= paths.Length
    requires paths[..start] == AllPaths(service, ports, p)
    modifies paths
    ensures i == PathCount(ports, p + 1) && paths[..i] == AllPaths(service, ports, p + 1)
  {
    i := start;
    var portName := PortNames.PortName(ports[p].port.name, ports[p].port.port);
    var urls := ports[p].urlPaths;
    for n := 0 to |urls|
      invariant i == start + n
      invariant paths[..i] == AllPaths(service, ports, p) + PathsOf(service, portName, urls, n)
    {
      PathsOneMore(service, portName, urls, n);
      paths[i] := Path(urls[n], service, portName);
      Associative(AllPaths(service, ports, p), PathsOf(service, portName, urls, n), [paths[i]]);
      assert paths[..i + 1] == paths[..i] + [paths[i]];
      i := i + 1;
    }
  }

  /** The rules with the paths they now refer to. */
  function Viewed(rules: seq<Rule>): (r: seq<RuleView>)
    reads set i | 0 <= i < |rules| :: rules[i].paths
    ensures |r| == |rules|
  {
    seq(|rules|, i requires 0 <= i < |rules| reads set j | 0 <= j < |rules| :: rules[j].paths =>
      RuleView(rules[i].host, rules[i].paths[..]))
  }

  method CreatePathIngressRules(service: string, hosts: map<string, string>, comps: Components)
    returns (rules: seq<Rule>, ghost order: seq<string>)
    ensures IsOrder(order, comps.Keys)
    ensures forall i | 0 <= i < |rules| :: fresh(rules[i].paths)
    ensures Viewed(rules) == RulesInOrder(service, hosts, comps, order)
  {
    rules, order := [], [];
    var rest := comps;
    while rest != map[]
      invariant Walking(comps, rest, order)
      invariant forall i | 0 <= i < |rules| :: fresh(rules[i].paths)
      invariant Viewed(rules) == RulesInOrder(service, hosts, comps, order)
      decreases |rest|
    {
      var comp :| comp in rest;
      WalkOne(service, hosts, comps, rest, order, comp);
      var more := ComponentRules(service, hosts, comp, comps[comp]);
      ViewedConcat(rules, more);
      rules, order, rest := rules + more, order + [comp], rest - {comp};
    }
    WalkedAll(comps, order);
  }

  predicate Walking(comps: Components, rest: Components, order: seq<string>) {
    && rest.Keys <= comps.Keys && IsOrder(order, comps.Keys - rest.Keys)
    && forall i | 0 <= i < |order| :: order[i] in comps
  }

  lemma WalkOne(service: string, hosts: map<string, string>, comps: Components, rest: Components, order: seq<string>,
                c: string)
    requires Walking(comps, rest, order) && c in rest
    ensures c in comps && Walking(comps, rest - {c}, order + [c]) && |rest - {c}| < |rest|
    ensures RulesInOrder(service, hosts, comps, order + [c])
      == RulesInOrder(service, hosts, comps, order) + RulesOf(service, hosts, c, comps[c])
  {
    RestShrinks(rest, c);
    var m := RulesByComponent(service, hosts, comps);
    assert MapSeq(order + [c], m) == MapSeq(order, m) + [m[c]];
    Slices.FlattenSnoc(MapSeq(order, m), m[c]);
  }

  lemma WalkedAll(comps: Components, order: seq<string>)
    requires Walking(comps, map[], order)
    ensures IsOrder(order, comps.Keys)
  {
    var none: Components := map[];
    assert comps.Keys - none.Keys == comps.Keys;
  }

  lemma ViewedConcat(a: seq<Rule>, b: seq<Rule>)
    ensures Viewed(a + b) == Viewed(a) + Viewed(b)
  {
  }

  // ---------- Sorting by host ----------

  /** The order of Go strings. */
  predicate Less(a: string, b: string) {
    b != "" && (a == "" || a[0] < b[0] || (a[0] == b[0] && Less(a[1..], b[1..])))
  }

  lemma {:induction false} LessIsTotal(a: string, b: string)
    ensures Less(a, b) || Less(b, a) || a == b
    ensures !(Less(a, b) && Less(b, a)) && !Less(a, a)
  {
    if a != "" && b != "" {
      LessIsTotal(a[1..], b[1..]);
      assert a == [a[0]] + a[1..] && b == [b[0]] + b[1..];
    }
    if a != "" { LessIsTotal(a[1..], a[1..]); }
  }

  /** The first difference decides, and a text stands before those it begins. */
  lemma {:induction false} LessIsByFirstDifference(front: string, c: char, d: char, s: string, t: string)
    requires c != d
    ensures Less(front + [c] + s, front + [d] + t) <==> c < d
    ensures Less(front, front + [c] + s) && !Less(front + [c] + s, front)
  {
    var x, y := front + [c] + s, front + [d] + t;
    if front == "" {
      assert x[0] == c && y[0] == d;
    } else {
      assert x[1..] == front[1..] + [c] + s && y[1..] == front[1..] + [d] + t;
      LessIsByFirstDifference(front[1..], c, d, s, t);
    }
  }

  lemma {:induction false} LessIsTransitive(a: string, b: string, c: string)
    requires !Less(b, a) && !Less(c, b)
    ensures !Less(c, a)
  {
    if a != "" && b != "" && c != "" && a[0] == b[0] && b[0] == c[0] { LessIsTransitive(a[1..], b[1..], c[1..]); }
  }

  predicate SortedByHost(rules: seq<RuleView>) {
    forall i, j | 0 <= i < j < |rules| :: !Less(rules[j].host, rules[i].host)
  }

  /** Sorting leaves rules of equal hosts in any order. */
  predicate Sorts(sorted: seq<RuleView>, rules: seq<RuleView>) {
    SortedByHost(sorted) && multiset(sorted) == multiset(rules)
  }

  /** The position of a rule among sorted ones. */
  method FindPlace(rules: seq<RuleView>, r: RuleView) returns (k: nat)
    requires SortedByHost(rules)
    ensures k <= |rules| && SortedByHost(rules[..k] + [r] + rules[k..])
  {
    k := |rules|;
    while k > 0 && Less(r.host, rules[k - 1].host)
      invariant k <= |rules|
      invariant forall i | k <= i < |rules| :: !Less(rules[i].host, r.host)
    {
      LessIsTotal(r.host, rules[k - 1].host);
      k := k - 1;
    }
    forall i | 0 <= i < k ensures !Less(r.host, rules[i].host) {
      if i < k - 1 { LessIsTransitive(rules[i].host, rules[k - 1].host, r.host); }
    }
  }

  method SortRules(rules: seq<RuleView>) returns (sorted: seq<RuleView>)
    ensures Sorts(sorted, rules)
  {
    sorted := [];
    for n := 0 to |rules|
      invariant SortedByHost(sorted) && multiset(sorted) == multiset(rules[..n])
    {
      var k := FindPlace(sorted, rules[n]);
      assert rules[..n + 1] == rules[..n] + [rules[n]];
      assert sorted == sorted[..k] + sorted[k..];
      sorted := sorted[..k] + [rules[n]] + sorted[k..];
    }
    assert rules[..|rules|] == rules;
  }

  // ---------- The whole ingress ----------

  datatype RuleType = PathRules | OtherRules

  lemma {:induction false} NothingFlattened<T>(ss: seq<seq<T>>)
    ensures Slices.Flatten(ss) == [] <==> forall i | 0 <= i < |ss| :: ss[i] == []
  {
    if ss != [] {
      var front, last := ss[..|ss| - 1], ss[|ss| - 1];
      NothingFlattened(front);
      assert Slices.Flatten(ss) == Slices.Flatten(front) + last;
      assert forall i | 0 <= i < |front| :: front[i] == ss[i];
    }
  }

  /** No gRPC component is mapped to a host. */
  predicate NoneMapped(comps: Components, hosts: map<string, string>) {
    forall c | c in GrpcComponents(comps) :: c !in hosts
  }

  lemma NoRulesIfNoneMapped(service: string, hosts: map<string, string>, all: Components, order: seq<string>)
    requires IsOrder(order, GrpcComponents(all).Keys)
    ensures RulesInOrder(service, hosts, GrpcComponents(all), order) == [] <==> NoneMapped(all, hosts)
  {
    var comps := GrpcComponents(all);
    var ss := MapSeq(order, RulesByComponent(service, hosts, comps));
    NothingFlattened(ss);
    forall i | 0 <= i < |order| ensures ss[i] == [] <==> order[i] !in hosts {
      assert ss[i] == RulesOf(service, hosts, order[i], comps[order[i]]);
    }
  }

  /** Nothing if there is no gRPC port or none of a mapped component, an error if no component is mapped
      at all; otherwise the rules sorted by host, the same ones in whatever order the map was walked. */
  method IngressAws(otelcol: string, hosts: map<string, string>, comps: Components, ruleType: RuleType)
    returns (r: Result<Option<seq<RuleView>>, string>, ghost order: seq<string>)
    ensures r.Err? <==> GrpcComponents(comps) != map[] && ruleType == PathRules && hosts == map[]
    ensures r == Ok(None) <==>
      (GrpcComponents(comps) == map[] || ruleType == OtherRules || (hosts != map[] && NoneMapped(comps, hosts)))
    ensures r.Ok? && r.value.Some? ==>
      && IsOrder(order, GrpcComponents(comps).Keys)
      && Sorts(r.value.value,
               RulesInOrder(Naming.ServiceName(Naming.Grpc, otelcol), hosts, GrpcComponents(comps), order))
  {
    order := [];
    var service := Naming.ServiceName(Naming.Grpc, otelcol);
    var grpc := KeepGrpcComponents(comps);
    if grpc == map[] { return Ok(None), order; }
    if ruleType == OtherRules { return Ok(None), order; }
    if hosts == map[] { return Err("empty components to hostnames mapping"), order; }
    var rules: seq<Rule>;
    rules, order := CreatePathIngressRules(service, hosts, grpc);
    NoRulesIfNoneMapped(service, hosts, comps, order);
    if |rules| == 0 { return Ok(None), order; }
    var sorted := SortRules(Viewed(rules));
    return Ok(Some(sorted)), order;
  }

  // ---------- Whatever the order ----------

  lemma RulesIgnoreOrder(service: string, hosts: map<string, string>, comps: Components, a: seq<string>, b: seq<string>)
    requires IsOrder(a, comps.Keys) && IsOrder(b, comps.Keys)
    ensures multiset(RulesInOrder(service, hosts, comps, a)) == multiset(RulesInOrder(service, hosts, comps, b))
  {
    var m := RulesByComponent(service, hosts, comps);
    OrdersAgree(a, b, comps.Keys, m);
    Slices.FlattenIgnoresOrder(MapSeq(a, m), MapSeq(b, m));
  }

  // ---------- Rules and ports agree ----------

  /** A rule names its port as the receiver does: naming a port once more changes nothing. */
  lemma BackendNamesPort(mappings: map<string, ServicePort>, name: string, protocols: Protocols, protocol: string)
    requires protocol in mappings && protocol in protocols
    ensures var p := PortOf(mappings, name, protocols, protocol); PortNames.PortName(p.name, p.port) == p.name
  {
    var svc, ec := mappings[protocol], protocols[protocol];
    PortNames.PortNameIsStable(name + "-" + protocol, EffectivePortOf(svc, ec));
  }

  lemma BackendIsServed(cr: seq<Port>, inferred: seq<Port>, p: Port)
    requires p in inferred && ServicePorts.IsGrpc(p) && !ServicePorts.ClashesWith(cr, p)
    ensures p in ServicePorts.GrpcPorts(cr, inferred)
  {
    ServicePorts.FilterPortAvoidsClashes(cr, p);
    ServicePorts.KeptPortsAreComplete(cr, inferred, p);
    Slices.FilterKeeps(ServicePorts.AllPorts(cr, inferred), ServicePorts.IsGrpc, p);
  }

  /** The port has p's name, number and protocol. */
  predicate StandsFor(s: Port, p: Port) { s.name == p.name && ServicePorts.NumberKey(s) == ServicePorts.NumberKey(p) }

  /** What a rule's backend names leads to the receiver's own port of the gRPC service exactly if the port
      clashes with none of the resource, or the resource has that very port itself, for gRPC. Otherwise the
      service has renamed or dropped it, and the rule still has the old name. */
  lemma BackendLeadsToItsPortIff(cr: seq<Port>, inferred: seq<Port>, p: Port)
    requires p in inferred && ServicePorts.IsGrpc(p)
    ensures (exists s | s in ServicePorts.GrpcPorts(cr, inferred) :: StandsFor(s, p)) <==>
      !ServicePorts.ClashesWith(cr, p) || exists r | r in cr :: ServicePorts.IsGrpc(r) && StandsFor(r, p)
  {
    var all := ServicePorts.AllPorts(cr, inferred);
    if !ServicePorts.ClashesWith(cr, p) {
      BackendIsServed(cr, inferred, p);
      assert StandsFor(p, p);
    }
    forall r | r in cr && ServicePorts.IsGrpc(r) && StandsFor(r, p) ensures r in ServicePorts.GrpcPorts(cr, inferred) {
      Slices.FilterKeeps(all, ServicePorts.IsGrpc, r);
    }
    forall s | s in ServicePorts.GrpcPorts(cr, inferred) && StandsFor(s, p)
      ensures !ServicePorts.ClashesWith(cr, p) || (s in cr && ServicePorts.IsGrpc(s))
    {
      Slices.FilterKeeps(all, ServicePorts.IsGrpc, s);
      if cr != [] && s !in cr {
        var i :| 0 <= i < |ServicePorts.KeptPorts(cr, inferred)| && ServicePorts.KeptPorts(cr, inferred)[i] == s;
        ServicePorts.KeptPortsAvoidClashes(cr, inferred, i);
      }
    }
  }
}
