/** The multi-protocol receiver of internal/components/multi_endpoint.go, whose calls overwrite the
    names of port objects that all calls share. */
module MultiPort {
  import opened Wrappers
  import opened Endpoint
  import Decimal
  import PortNames

  // ---------- Values ----------

  /** A port as it is handed out. */
  datatype Port = Port(name: string, port: int, nodePort: int, targetPort: int, protocol: string,
                       appProtocol: Option<string>)

  /** What a builder is told about one protocol. */
  datatype Settings = Settings(name: string, port: int, nodePort: int, targetPort: int, protocol: string,
                               appProtocol: Option<string>, address: string, urlPaths: seq<string>)

  datatype PortUrlPaths = PortUrlPaths(port: Port, urlPaths: seq<string>)

  type Protocols = map<string, Option<EndpointConfig>>

  /** A port object: its name is overwritten, the rest stays. */
  class ServicePort {
    var name: string
    const port: int
    const nodePort: int
    const targetPort: int
    const protocol: string
    const appProtocol: Option<string>

    constructor (s: Settings)
      ensures port == s.port && nodePort == s.nodePort && targetPort == s.targetPort
      ensures protocol == s.protocol && appProtocol == s.appProtocol
    {
      name := PortNames.PortName(s.name, s.port);
      port, nodePort, targetPort, protocol, appProtocol := s.port, s.nodePort, s.targetPort, s.protocol, s.appProtocol;
    }
  }

  /** A copy under the object's present name. */
  method ConstructServicePort(current: ServicePort, port: int) returns (p: Port)
    ensures p == CopyOf(current, current.name, port)
  {
    p := Port(current.name, port, current.nodePort, if port > 0 && current.targetPort > 0 then port else 0,
              current.protocol, current.appProtocol);
  }

  function CopyOf(current: ServicePort, name: string, port: int): Port {
    Port(name, port, current.nodePort, if port > 0 && current.targetPort > 0 then port else 0,
         current.protocol, current.appProtocol)
  }

  // ---------- Specification ----------

  /** The name of a component's port for one protocol. */
  function PortNameOf(name: string, protocol: string, port: int): string {
    PortNames.PortName(name + "-" + protocol, port)
  }

  function PortOf(mappings: map<string, ServicePort>, name: string, protocols: Protocols, protocol: string): Port
    requires protocol in mappings && protocol in protocols
  {
    var svc, ec := mappings[protocol], protocols[protocol];
    var port := EffectivePortOf(svc, ec);
    CopyOf(svc, PortNameOf(name, protocol, port), port)
  }

  /** In terms of the objects: the port has the number of the endpoint or else the object's, the name made of
      the component's, the protocol's and that number, the object's other fields, and its own number as
      target if both are positive. */
  predicate IsPortFor(p: Port, svc: ServicePort, name: string, protocol: string, ec: Option<EndpointConfig>) {
    && (ec.None? ==> p.port == svc.port)
    && (ec.Some? ==> p.port == GetPortNumOrDefault(ec.value, svc.port))
    && p.name == PortNames.PortName(name + "-" + protocol, p.port)
    && p.nodePort == svc.nodePort && p.protocol == svc.protocol && p.appProtocol == svc.appProtocol
    && p.targetPort == (if p.port > 0 && svc.targetPort > 0 then p.port else 0)
  }

  lemma PortFields(mappings: map<string, ServicePort>, name: string, protocols: Protocols, order: seq<string>)
    requires forall i | 0 <= i < |order| :: order[i] in mappings && order[i] in protocols
    ensures forall i | 0 <= i < |order| ::
      IsPortFor(PortsInOrder(mappings, name, protocols, order)[i], mappings[order[i]], name, order[i],
                protocols[order[i]])
    ensures forall i | 0 <= i < |order| ::
      var p, svc, ec := PortsInOrder(mappings, name, protocols, order)[i], mappings[order[i]], protocols[order[i]];
      && p.port == (if ec.Some? then GetPortNumOrDefault(ec.value, svc.port) else svc.port)
      && p.name == PortNames.PortName(name + "-" + order[i], p.port)
      && p.nodePort == svc.nodePort && p.protocol == svc.protocol && p.appProtocol == svc.appProtocol
      && p.targetPort == (if p.port > 0 && svc.targetPort > 0 then p.port else 0)
  {
  }

  /** An order in which a walk over the map may visit its keys. */
  predicate IsOrder(order: seq<string>, keys: set<string>) {
    && (forall i | 0 <= i < |order| :: order[i] in keys)
    && (forall k | k in keys :: k in order)
    && (forall i, j | 0 <= i < j < |order| :: order[i] != order[j])
  }

  function PortsInOrder(mappings: map<string, ServicePort>, name: string, protocols: Protocols,
                        order: seq<string>): seq<Port>
    requires forall i | 0 <= i < |order| :: order[i] in mappings && order[i] in protocols
  {
    seq(|order|, i requires 0 <= i < |order| => PortOf(mappings, name, protocols, order[i]))
  }

  function EffectivePortOf(svc: ServicePort, ec: Option<EndpointConfig>): int {
    if ec.Some? then GetPortNumOrDefault(ec.value, svc.port) else svc.port
  }

  function DefaultConfigOf(mappings: map<string, ServicePort>, addrs: map<string, string>, defaultAddr: string,
                           protocols: Protocols, protocol: string): EndpointConfig
    requires protocol in mappings && protocol in protocols
  {
    AddressDefaulter(if protocol in addrs then addrs[protocol] else defaultAddr,
                     EffectivePortOf(mappings[protocol], protocols[protocol]), protocols[protocol])
  }

  // ---------- The receiver ----------

  class MultiPortReceiver {
    const name: string
    const defaultRecAddr: string
    const addrMappings: map<string, string>
    const portMappings: map<string, ServicePort>
    const urlPathsMapping: map<string, seq<string>>

    constructor (name: string, defaultRecAddr: string, addrMappings: map<string, string>,
                 portMappings: map<string, ServicePort>, urlPathsMapping: map<string, seq<string>>)
      ensures this.name == name && this.defaultRecAddr == defaultRecAddr && this.addrMappings == addrMappings
      ensures this.portMappings == portMappings && this.urlPathsMapping == urlPathsMapping
    {
      this.name, this.defaultRecAddr, this.addrMappings := name, defaultRecAddr, addrMappings;
      this.portMappings, this.urlPathsMapping := portMappings, urlPathsMapping;
    }

    predicate Valid() { urlPathsMapping.Keys == portMappings.Keys }

    /** Renames the shared port object of a protocol and copies it. */
    method ServicePortFor(name: string, protocols: Protocols, protocol: string) returns (p: Port)
      requires protocol in portMappings && protocol in protocols
      modifies portMappings[protocol]
      ensures p == PortOf(portMappings, name, protocols, protocol)
    {
      var defaultSvc := portMappings[protocol];
      var port := defaultSvc.port;
      var ec := protocols[protocol];
      if ec.Some? { port := GetPortNumOrDefault(ec.value, port); }
      defaultSvc.name := PortNameOf(name, protocol, port);
      p := ConstructServicePort(defaultSvc, port);
    }

    /** Walks the protocols in any order, renaming the shared port objects as it goes. Whatever they
        were called before, the ports are those of the specification, which reads no state at all. */
    method Ports(name: string, protocols: Protocols) returns (r: Result<seq<Port>, string>, ghost order: seq<string>)
      modifies portMappings.Values
      ensures r.Ok? <==> protocols.Keys <= portMappings.Keys
      ensures r.Ok? ==> IsOrder(order, protocols.Keys) && r.value == PortsInOrder(portMappings, name, protocols, order)
      ensures r.Ok? ==> forall i | 0 <= i < |order| ::
        IsPortFor(r.value[i], portMappings[order[i]], name, order[i], protocols[order[i]])
    {
      var ports: seq<Port> := [];
      order := [];
      var rest := protocols;
      while rest != map[]
        invariant Visiting(order, protocols, rest, portMappings)
        invariant ports == PortsInOrder(portMappings, name, protocols, order)
        decreases |rest|
      {
        var protocol :| protocol in rest;
        if protocol !in portMappings { return Err(protocol), order; }
        var p := ServicePortFor(name, protocols, protocol);
        VisitOne(order, protocols, rest, portMappings, protocol);
        PortsOneMore(portMappings, name, protocols, order, protocol);
        ports, order, rest := ports + [p], order + [protocol], rest - {protocol};
      }
      VisitedAll(order, protocols, portMappings);
      PortFields(portMappings, name, protocols, order);
      return Ok(ports), order;
    }

    method PortsWithUrlPaths(name: string, protocols: Protocols)
      returns (r: Result<seq<PortUrlPaths>, string>, ghost order: seq<string>)
      requires Valid()
      modifies portMappings.Values
      ensures r.Ok? <==> protocols.Keys <= portMappings.Keys
      ensures r.Ok? ==> IsOrder(order, protocols.Keys)
      ensures r.Ok? ==> JustPorts(r.value) == PortsInOrder(portMappings, name, protocols, order)
      ensures r.Ok? ==> forall i | 0 <= i < |order| ::
        IsPortFor(r.value[i].port, portMappings[order[i]], name, order[i], protocols[order[i]])
      ensures r.Ok? ==>
        forall i | 0 <= i < |order| :: order[i] in urlPathsMapping && r.value[i].urlPaths == urlPathsMapping[order[i]]
    {
      var ports: seq<PortUrlPaths> := [];
      order := [];
      var rest := protocols;
      while rest != map[]
        invariant Visiting(order, protocols, rest, portMappings) && |ports| == |order|
        invariant JustPorts(ports) == PortsInOrder(portMappings, name, protocols, order)
        invariant forall i | 0 <= i < |order| :: ports[i].urlPaths == urlPathsMapping[order[i]]
        decreases |rest|
      {
        var protocol :| protocol in rest;
        if protocol !in portMappings { return Err(protocol), order; }
        var p := ServicePortFor(name, protocols, protocol);
        VisitOne(order, protocols, rest, portMappings, protocol);
        PortsOneMore(portMappings, name, protocols, order, protocol);
        var u := PortUrlPaths(p, urlPathsMapping[protocol]);
        assert JustPorts(ports + [u]) == JustPorts(ports) + [p];
        ports, order, rest := ports + [u], order + [protocol], rest - {protocol};
      }
      VisitedAll(order, protocols, portMappings);
      PortFields(portMappings, name, protocols, order);
      return Ok(ports), order;
    }

    /** Where defaulting stands: done for every known protocol but the rest. */
    predicate Defaulting(defaulted: map<string, EndpointConfig>, protocols: Protocols, rest: Protocols) {
      && rest.Keys <= protocols.Keys && defaulted.Keys == protocols.Keys - rest.Keys
      && forall p | p in defaulted :: p in portMappings
           && defaulted[p] == DefaultConfigOf(portMappings, addrMappings, defaultRecAddr, protocols, p)
    }

    /** The defaulted config of every protocol. */
    method GetDefaultConfig(protocols: Protocols) returns (r: Result<map<string, EndpointConfig>, string>)
      ensures r.Ok? <==> protocols.Keys <= portMappings.Keys
      ensures r.Ok? ==> r.value.Keys == protocols.Keys
      ensures r.Ok? ==>
        forall p | p in protocols ::
          r.value[p] == DefaultConfigOf(portMappings, addrMappings, defaultRecAddr, protocols, p)
    {
      var defaulted: map<string, EndpointConfig> := map[];
      var rest := protocols;
      while rest != map[]
        invariant Defaulting(defaulted, protocols, rest)
        decreases |rest|
      {
        var protocol :| protocol in rest;
        if protocol !in portMappings { return Err(protocol); }
        var port := portMappings[protocol].port;
        var ec := protocols[protocol];
        if ec.Some? { port := GetPortNumOrDefault(ec.value, port); }
        var addr := if protocol in addrMappings then addrMappings[protocol] else defaultRecAddr;
        RestShrinks(rest, protocol);
        defaulted, rest := defaulted[protocol := AddressDefaulter(addr, port, ec)], rest - {protocol};
      }
      return Ok(defaulted);
    }
  }

  function JustPorts(ports: seq<PortUrlPaths>): (r: seq<Port>)
    ensures |r| == |ports|
  {
    seq(|ports|, i requires 0 <= i < |ports| => ports[i].port)
  }

  /** Where a walk stands: `order` visited, `rest` to come, no unknown protocol so far. */
  predicate Visiting(order: seq<string>, protocols: Protocols, rest: Protocols, mappings: map<string, ServicePort>) {
    && rest.Keys <= protocols.Keys && IsOrder(order, protocols.Keys - rest.Keys)
    && forall i | 0 <= i < |order| :: order[i] in mappings && order[i] in protocols
  }

  lemma VisitOne(order: seq<string>, protocols: Protocols, rest: Protocols, mappings: map<string, ServicePort>,
                 k: string)
    requires Visiting(order, protocols, rest, mappings) && k in rest && k in mappings
    ensures Visiting(order + [k], protocols, rest - {k}, mappings) && |rest - {k}| < |rest|
  {
    RestShrinks(rest, k);
  }

  lemma VisitedAll(order: seq<string>, protocols: Protocols, mappings: map<string, ServicePort>)
    requires Visiting(order, protocols, map[], mappings)
    ensures IsOrder(order, protocols.Keys) && protocols.Keys <= mappings.Keys
  {
    var none: Protocols := map[];
    assert protocols.Keys - none.Keys == protocols.Keys;
    forall k | k in protocols ensures k in mappings { assert k in order; }
  }

  lemma PortsOneMore(mappings: map<string, ServicePort>, name: string, protocols: Protocols, order: seq<string>,
                     k: string)
    requires k in mappings && k in protocols && forall i | 0 <= i < |order| ::
      order[i] in mappings && order[i] in protocols
    ensures PortsInOrder(mappings, name, protocols, order + [k])
      == PortsInOrder(mappings, name, protocols, order) + [PortOf(mappings, name, protocols, k)]
  {
  }

  lemma RestShrinks<V>(rest: map<string, V>, k: string)
    requires k in rest
    ensures |rest - {k}| < |rest| && (rest - {k}).Keys == rest.Keys - {k}
  {
    assert (rest - {k}).Keys == rest.Keys - {k};
  }

  // ---------- History does not matter ----------

  function MapSeq<T>(order: seq<string>, m: map<string, T>): (r: seq<T>)
    requires forall i | 0 <= i < |order| :: order[i] in m
    ensures |r| == |order|
  {
    seq(|order|, i requires 0 <= i < |order| => m[order[i]])
  }

  function Without(order: seq<string>, j: nat): seq<string>
    requires j < |order|
  {
    order[..j] + order[j + 1..]
  }

  lemma WithoutOrder(order: seq<string>, keys: set<string>, j: nat)
    requires IsOrder(order, keys) && j < |order|
    ensures IsOrder(Without(order, j), keys - {order[j]})
  {
    forall k | k in keys - {order[j]} ensures k in Without(order, j) {
      var i :| 0 <= i < |order| && order[i] == k;
      assert Without(order, j)[if i < j then i else i - 1] == k;
    }
  }

  lemma WithoutMultiset<T>(order: seq<string>, m: map<string, T>, j: nat)
    requires j < |order| && forall i | 0 <= i < |order| :: order[i] in m
    ensures multiset(MapSeq(order, m)) == multiset(MapSeq(Without(order, j), m)) + multiset{m[order[j]]}
  {
    var s := MapSeq(order, m);
    assert s == s[..j] + [s[j]] + s[j + 1..];
    assert MapSeq(Without(order, j), m) == s[..j] + s[j + 1..];
  }

  lemma {:induction false} OrdersAgree<T>(a: seq<string>, b: seq<string>, keys: set<string>, m: map<string, T>)
    requires IsOrder(a, keys) && IsOrder(b, keys) && keys <= m.Keys
    ensures multiset(MapSeq(a, m)) == multiset(MapSeq(b, m))
    decreases |a|
  {
    if a == [] {
      assert keys == {};
    } else {
      var j := Position(b, keys, a[0]);
      WithoutOrder(a, keys, 0);
      WithoutOrder(b, keys, j);
      OrdersAgree(Without(a, 0), Without(b, j), keys - {a[0]}, m);
      WithoutMultiset(a, m, 0);
      WithoutMultiset(b, m, j);
    }
  }

  lemma Position(order: seq<string>, keys: set<string>, k: string) returns (j: nat)
    requires IsOrder(order, keys) && k in keys
    ensures j < |order| && order[j] == k
  {
    j :| 0 <= j < |order| && order[j] == k;
  }

  /** Port objects that differ at most in their names. */
  predicate SameSettings(mappings: map<string, ServicePort>, others: map<string, ServicePort>) {
    && mappings.Keys == others.Keys
    && forall k | k in mappings ::
         && mappings[k].port == others[k].port && mappings[k].nodePort == others[k].nodePort
         && mappings[k].targetPort == others[k].targetPort && mappings[k].protocol == others[k].protocol
         && mappings[k].appProtocol == others[k].appProtocol
  }

  /** Any two calls on the same name and protocols, made at any time, walking in any order and on
      whichever of two receivers of the same settings, hand out the same ports. */
  lemma PortsAreHistoryIndependent(mappings: map<string, ServicePort>, others: map<string, ServicePort>,
                                   name: string, protocols: Protocols, a: seq<string>, b: seq<string>)
    requires SameSettings(mappings, others)
    requires protocols.Keys <= mappings.Keys && IsOrder(a, protocols.Keys) && IsOrder(b, protocols.Keys)
    ensures multiset(PortsInOrder(mappings, name, protocols, a)) == multiset(PortsInOrder(others, name, protocols, b))
  {
    var m := map k | k in protocols :: PortOf(mappings, name, protocols, k);
    assert PortsInOrder(mappings, name, protocols, a) == MapSeq(a, m);
    assert PortsInOrder(others, name, protocols, b) == MapSeq(b, m);
    OrdersAgree(a, b, protocols.Keys, m);
  }

  datatype Call = Ports(name: string, protocols: Protocols) | PortsWithUrlPaths(name: string, protocols: Protocols)

  /** Two calls on one receiver, with any other calls in between. */
  method CallsAgree(m: MultiPortReceiver, name: string, protocols: Protocols, between: seq<Call>)
    returns (first: Result<seq<Port>, string>, second: Result<seq<PortUrlPaths>, string>)
    requires m.Valid()
    modifies m.portMappings.Values
    ensures first.Ok? == second.Ok?
    ensures first.Ok? ==> multiset(first.value) == multiset(JustPorts(second.value))
  {
    ghost var a, b;
    first, a := m.Ports(name, protocols);
    for i := 0 to |between| {
      match between[i] {
        case Ports(n, ps) => var ports, o := m.Ports(n, ps);
        case PortsWithUrlPaths(n, ps) => var ports, o := m.PortsWithUrlPaths(n, ps);
      }
    }
    second, b := m.PortsWithUrlPaths(name, protocols);
    if first.Ok? { PortsAreHistoryIndependent(m.portMappings, m.portMappings, name, protocols, a, b); }
  }

  /** A protocol without an endpoint listens at its own address, or the receiver's if it has none, and its
      port; one with an address and a port of its own stays as it is. */
  lemma DefaultConfigIs(mappings: map<string, ServicePort>, addrs: map<string, string>, defaultAddr: string,
                        protocols: Protocols, p: string)
    requires p in mappings && p in protocols
    ensures var c := DefaultConfigOf(mappings, addrs, defaultAddr, protocols, p);
      var addr := if p in addrs then addrs[p] else defaultAddr;
      && (protocols[p].None? ==> c == EndpointConfig(addr + ":" + Decimal.Text(mappings[p].port), ""))
      && (protocols[p].Some? && protocols[p].value.endpoint == "" ==>
            && c.endpoint == addr + ":" + Decimal.Text(GetPortNumOrDefault(protocols[p].value, mappings[p].port))
            && c.listenAddress == protocols[p].value.listenAddress)
  {
  }

  /** Defaulting keeps the port a protocol listens on exactly when its endpoint allows it. */
  lemma DefaultConfigKeepsPortIff(mappings: map<string, ServicePort>, addrs: map<string, string>, defaultAddr: string,
                                  protocols: Protocols, p: string)
    requires p in mappings && p in protocols && mappings[p].port <= MAX_INT32
    requires !HasColon(if p in addrs then addrs[p] else defaultAddr)
    ensures EffectivePortOf(mappings[p], Some(DefaultConfigOf(mappings, addrs, defaultAddr, protocols, p)))
              == EffectivePortOf(mappings[p], protocols[p])
      <==> protocols[p].None? || PortIsKept(protocols[p].value.endpoint, mappings[p].port)
  {
    var addr := if p in addrs then addrs[p] else defaultAddr;
    var c := if protocols[p].Some? then protocols[p].value else EndpointConfig("", "");
    DefaultingKeepsPortIff(addr, mappings[p].port, c);
  }

  // ---------- Building a receiver ----------

  /** The builders after the first, which names the receiver; a later one of the same name wins. */
  function Wanted(builders: seq<Settings>, n: nat): map<string, Settings>
    requires n <= |builders|
  {
    if n <= 1 then map[] else Wanted(builders, n - 1)[builders[n - 1].name := builders[n - 1]]
  }

  lemma {:induction false} LastOfItsNameCounts(builders: seq<Settings>, n: nat, i: nat)
    requires 1 <= i < n <= |builders| && forall j | i < j < n :: builders[j].name != builders[i].name
    ensures builders[i].name in Wanted(builders, n) && Wanted(builders, n)[builders[i].name] == builders[i]
  {
    if i < n - 1 { LastOfItsNameCounts(builders, n - 1, i); }
  }

  predicate Reflects(svc: ServicePort, s: Settings) {
    && svc.port == s.port && svc.nodePort == s.nodePort && svc.targetPort == s.targetPort
    && svc.protocol == s.protocol && svc.appProtocol == s.appProtocol
  }

  ghost predicate Built(wanted: map<string, Settings>, addrs: map<string, string>, ports: map<string, ServicePort>,
                        urls: map<string, seq<string>>) {
    && addrs.Keys == wanted.Keys && ports.Keys == wanted.Keys && urls.Keys == wanted.Keys
    && forall k | k in wanted ::
      Reflects(ports[k], wanted[k]) && addrs[k] == wanted[k].address && urls[k] == wanted[k].urlPaths
  }

  /** Receivers built from the same builders differ at most in the names of their port objects. */
  lemma BuiltAlike(wanted: map<string, Settings>, addrs: map<string, string>, ports: map<string, ServicePort>,
                   urls: map<string, seq<string>>,
                   otherAddrs: map<string, string>, otherPorts: map<string, ServicePort>,
                   otherUrls: map<string, seq<string>>)
    requires Built(wanted, addrs, ports, urls) && Built(wanted, otherAddrs, otherPorts, otherUrls)
    ensures SameSettings(ports, otherPorts) && addrs == otherAddrs && urls == otherUrls
  {
    assert forall k | k in wanted :: Reflects(ports[k], wanted[k]) && Reflects(otherPorts[k], wanted[k]);
  }

  /** Why a build fails: no builder, one without a name, or a first one without, which panics. */
  datatype BuildError = NoBuilders | Unnamed | Panic

  method Build(builders: seq<Settings>) returns (r: Result<MultiPortReceiver, BuildError>)
    ensures r.Ok? <==> builders != [] && forall i | 0 <= i < |builders| :: builders[i].name != ""
    ensures r == Err(NoBuilders) <==> builders == []
    ensures r == Err(Panic) <==> builders != [] && builders[0].name == ""
    ensures r.Ok? ==>
      r.value.Valid() && r.value.name == builders[0].name && r.value.defaultRecAddr == builders[0].address
    ensures r.Ok? ==>
      Built(Wanted(builders, |builders|), r.value.addrMappings, r.value.portMappings, r.value.urlPathsMapping)
  {
    if |builders| < 1 { return Err(NoBuilders); }
    if builders[0].name == "" { return Err(Panic); }
    var addrs: map<string, string> := map[];
    var ports: map<string, ServicePort> := map[];
    var urls: map<string, seq<string>> := map[];
    for n := 1 to |builders|
      invariant forall i | 0 <= i < n :: builders[i].name != ""
      invariant Built(Wanted(builders, n), addrs, ports, urls)
    {
      var s := builders[n];
      if s.name == "" { return Err(Unnamed); }
      var svc := new ServicePort(s);
      ports, addrs, urls := ports[s.name := svc], addrs[s.name := s.address], urls[s.name := s.urlPaths];
    }
    var m := new MultiPortReceiver(builders[0].name, builders[0].address, addrs, ports, urls);
    return Ok(m);
  }
}
