/** The ports of the gRPC and the non-gRPC service: internal/manifests/collector/service.go, ingress.go
    and service_aws.go. */
module ServicePorts {
  import opened Wrappers
  import opened MultiPort
  import Decimal
  import PortNames
  import Slices

  // ---------- Clashes with ports of the resource ----------

  datatype PortNumberKey = PortNumberKey(port: int, protocol: string)

  /** An empty protocol is read as TCP. */
  function NumberKey(p: Port): PortNumberKey { PortNumberKey(p.port, if p.protocol == "" then "TCP" else p.protocol) }

  predicate NumberTaken(cr: seq<Port>, p: Port) { exists i | 0 <= i < |cr| :: NumberKey(cr[i]) == NumberKey(p) }

  predicate NameTaken(cr: seq<Port>, name: string) { exists i | 0 <= i < |cr| :: cr[i].name == name }

  predicate ClashesWith(cr: seq<Port>, p: Port) { NumberTaken(cr, p) || NameTaken(cr, p.name) }

  method ExtractPortNumbersAndNames(cr: seq<Port>) returns (numbers: set<PortNumberKey>, names: set<string>)
    ensures forall p: Port :: NumberKey(p) in numbers <==> NumberTaken(cr, p)
    ensures forall name :: name in names <==> NameTaken(cr, name)
  {
    numbers, names := {}, {};
    for i := 0 to |cr|
      invariant forall k :: k in numbers <==> exists j :: 0 <= j < i && NumberKey(cr[j]) == k
      invariant forall name :: name in names <==> exists j :: 0 <= j < i && cr[j].name == name
    {
      numbers, names := numbers + {NumberKey(cr[i])}, names + {cr[i].name};
    }
  }

  // ---------- Filtering one inferred port ----------

  function Renamed(p: Port): Port { p.(name := PortNames.FallbackPortName(p.port)) }

  /** The inferred port as it is kept, if it is. */
  function FilterPort(cr: seq<Port>, p: Port): Option<Port> {
    if NumberTaken(cr, p) then None
    else if !NameTaken(cr, p.name) then Some(p)
    else if NameTaken(cr, Renamed(p).name) then None
    else Some(Renamed(p))
  }

  method FilterPortIn(candidate: Port, numbers: set<PortNumberKey>, names: set<string>, ghost cr: seq<Port>)
    returns (r: Option<Port>)
    requires forall p: Port :: NumberKey(p) in numbers <==> NumberTaken(cr, p)
    requires forall name :: name in names <==> NameTaken(cr, name)
    ensures r == FilterPort(cr, candidate)
  {
    if NumberKey(candidate) in numbers { return None; }
    if candidate.name in names {
      var fallback := PortNames.FallbackPortName(candidate.port);
      if fallback in names { return None; }
      return Some(candidate.(name := fallback));
    }
    return Some(candidate);
  }

  function KeptPorts(cr: seq<Port>, inferred: seq<Port>): (r: seq<Port>)
    ensures |r| <= |inferred|
  {
    if inferred == [] then []
    else
      var n := |inferred| - 1;
      var kept := FilterPort(cr, inferred[n]);
      KeptPorts(cr, inferred[..n]) + if kept.Some? then [kept.value] else []
  }

  /** The ports of the resource, then the inferred ones that do not clash with them. */
  function AllPorts(cr: seq<Port>, inferred: seq<Port>): seq<Port> {
    if cr == [] then inferred else cr + KeptPorts(cr, inferred)
  }

  method ServicePortsFromCfg(cr: seq<Port>, inferred: seq<Port>) returns (ports: seq<Port>)
    ensures ports == AllPorts(cr, inferred)
  {
    if |cr| == 0 { return inferred; }
    var numbers, names := ExtractPortNumbersAndNames(cr);
    var resulting: seq<Port> := [];
    for i := 0 to |inferred|
      invariant resulting == KeptPorts(cr, inferred[..i])
    {
      assert inferred[..i + 1][..i] == inferred[..i];
      var filtered := FilterPortIn(inferred[i], numbers, names, cr);
      if filtered.Some? { resulting := resulting + [filtered.value]; }
    }
    assert inferred[..|inferred|] == inferred;
    return cr + resulting;
  }

  // ---------- The two services ----------

  predicate IsGrpc(p: Port) { p.appProtocol == Some("grpc") }

  predicate IsNotGrpc(p: Port) { p.appProtocol != Some("grpc") }

  function GrpcPorts(cr: seq<Port>, inferred: seq<Port>): seq<Port> { Slices.Filter(AllPorts(cr, inferred), IsGrpc) }

  function NonGrpcPorts(cr: seq<Port>, inferred: seq<Port>): seq<Port> {
    Slices.Filter(AllPorts(cr, inferred), IsNotGrpc)
  }

  /** From the ports inferred of receivers; the other kind is deleted in place. */
  method GrpcServicePorts(cr: seq<Port>, receiverPorts: seq<Port>) returns (ports: seq<Port>)
    ensures ports == GrpcPorts(cr, receiverPorts)
  {
    var all := ServicePortsFromCfg(cr, receiverPorts);
    ports := DeleteOthers(all, IsGrpc);
  }

  /** From the ports inferred of all components. */
  method NonGrpcServicePorts(cr: seq<Port>, allInferred: seq<Port>) returns (ports: seq<Port>)
    ensures ports == NonGrpcPorts(cr, allInferred)
  {
    var all := ServicePortsFromCfg(cr, allInferred);
    ports := DeleteOthers(all, IsNotGrpc);
  }

  method DeleteOthers(all: seq<Port>, keep: Port -> bool) returns (ports: seq<Port>)
    ensures ports == Slices.Filter(all, keep)
  {
    var a := new Port[|all|](i requires 0 <= i < |all| => all[i]);
    assert a[..] == all;
    assert a[..|all|] == all;
    var len := Slices.DeleteUnless(a, |all|, keep);
    return a[..len];
  }

  // ---------- No clash with the resource ----------

  /** An inferred port is dropped exactly when its number is taken, or both its names are; a kept one
      differs from it at most in the name and clashes with no port of the resource. */
  lemma FilterPortAvoidsClashes(cr: seq<Port>, p: Port)
    ensures var r := FilterPort(cr, p);
      && (r.None? <==> NumberTaken(cr, p) || (NameTaken(cr, p.name) && NameTaken(cr, Renamed(p).name)))
      && (r.Some? ==> (r.value == p || r.value == Renamed(p)) && !ClashesWith(cr, r.value))
      && (!ClashesWith(cr, p) ==> r == Some(p))
  {
    if !NumberTaken(cr, p) { assert NumberKey(Renamed(p)) == NumberKey(p); }
  }

  /** In the fields of the ports: an inferred port is dropped if a port of the resource has its number and
      protocol, no protocol being TCP, or if both its name and the one made of its number are names of the
      resource; otherwise it is as it was but for the name, which gives way if it is one of the resource. */
  lemma FilteredPort(cr: seq<Port>, p: Port)
    ensures var r, fallback := FilterPort(cr, p), "port-" + Decimal.Text(p.port);
      var sameNumber := exists i | 0 <= i < |cr| ::
        cr[i].port == p.port && (cr[i].protocol == p.protocol || {cr[i].protocol, p.protocol} == {"", "TCP"});
      var nameTaken := exists i | 0 <= i < |cr| :: cr[i].name == p.name;
      var fallbackTaken := exists i | 0 <= i < |cr| :: cr[i].name == fallback;
      && (r == None <==> sameNumber || (nameTaken && fallbackTaken))
      && (r != None ==> r == Some(if nameTaken then p.(name := fallback) else p))
  {
    assert NumberTaken(cr, p) <==> exists i | 0 <= i < |cr| ::
      cr[i].port == p.port && (cr[i].protocol == p.protocol || {cr[i].protocol, p.protocol} == {"", "TCP"});
  }

  lemma {:induction false} KeptPortsAvoidClashes(cr: seq<Port>, inferred: seq<Port>, i: nat)
    requires i < |KeptPorts(cr, inferred)|
    ensures var p := KeptPorts(cr, inferred)[i];
      !ClashesWith(cr, p) && exists j | 0 <= j < |inferred| :: FilterPort(cr, inferred[j]) == Some(p)
  {
    var n := |inferred| - 1;
    var before := KeptPorts(cr, inferred[..n]);
    FilterPortAvoidsClashes(cr, inferred[n]);
    if i < |before| {
      KeptPortsAvoidClashes(cr, inferred[..n], i);
      var j :| 0 <= j < n && FilterPort(cr, inferred[..n][j]) == Some(before[i]);
      assert FilterPort(cr, inferred[j]) == Some(KeptPorts(cr, inferred)[i]);
    } else {
      assert FilterPort(cr, inferred[n]) == Some(KeptPorts(cr, inferred)[i]);
    }
  }

  /** And every inferred port that can be kept is, under its own name or the other. */
  lemma {:induction false} KeptPortsAreComplete(cr: seq<Port>, inferred: seq<Port>, p: Port)
    requires p in inferred && FilterPort(cr, p).Some?
    ensures FilterPort(cr, p).value in KeptPorts(cr, inferred)
  {
    hide FilterPort;
    var n := |inferred| - 1;
    var kept := KeptPorts(cr, inferred[..n]);
    if inferred[n] != p {
      assert inferred == inferred[..n] + [inferred[n]];
      KeptPortsAreComplete(cr, inferred[..n], p);
      assert kept <= KeptPorts(cr, inferred);
    } else {
      assert KeptPorts(cr, inferred) == kept + [FilterPort(cr, p).value];
    }
  }

  // ---------- Every port of the resource is served once ----------

  /** Each service lists its share of the resource's ports first and in order, and the two shares make
      up the resource's ports exactly, whatever was inferred for either. */
  lemma ResourcePortsSplit(cr: seq<Port>, receiverPorts: seq<Port>, allInferred: seq<Port>)
    ensures Slices.Filter(cr, IsGrpc) <= GrpcPorts(cr, receiverPorts) || cr == []
    ensures Slices.Filter(cr, IsNotGrpc) <= NonGrpcPorts(cr, allInferred) || cr == []
    ensures multiset(Slices.Filter(cr, IsGrpc)) + multiset(Slices.Filter(cr, IsNotGrpc)) == multiset(cr)
    ensures forall p | p in GrpcPorts(cr, receiverPorts) :: p !in NonGrpcPorts(cr, allInferred)
  {
    Slices.FilterConcat(cr, KeptPorts(cr, receiverPorts), IsGrpc);
    Slices.FilterConcat(cr, KeptPorts(cr, allInferred), IsNotGrpc);
    Slices.FilterSplits(cr, IsGrpc, IsNotGrpc);
    forall p | p in GrpcPorts(cr, receiverPorts) ensures p !in NonGrpcPorts(cr, allInferred) {
      Slices.FilterKeeps(AllPorts(cr, receiverPorts), IsGrpc, p);
      Slices.FilterKeeps(AllPorts(cr, allInferred), IsNotGrpc, p);
    }
  }

  // ---------- Clashes among the inferred ports ----------

  lemma FallbackIsInjective(m: int, n: int)
    ensures PortNames.FallbackPortName(m) == PortNames.FallbackPortName(n) <==> m == n
  {
    var s, t := PortNames.FallbackPortName(m), PortNames.FallbackPortName(n);
    if s == t {
      assert s[5..] == Decimal.Text(m) && t[5..] == Decimal.Text(n);
      TextIsInjective(m, n);
    }
  }

  lemma TextIsInjective(m: int, n: int)
    requires Decimal.Text(m) == Decimal.Text(n)
    ensures m == n
  {
    var s, t := Decimal.Text(m), Decimal.Text(n);
    if m < 0 { Decimal.NumberOfDigits(-m); } else { Decimal.NumberOfDigits(m); }
    if n < 0 { Decimal.NumberOfDigits(-n); } else { Decimal.NumberOfDigits(n); }
    assert (s[0] == '-' <==> m < 0) && (t[0] == '-' <==> n < 0);
    if m < 0 { assert s[1..] == Decimal.Digits(-m) && t[1..] == Decimal.Digits(-n); }
  }

  /** Two kept ports end up under one name exactly when neither was renamed and they had one name
      before, or both were renamed and have the same number, or one was renamed to the name the other
      has: the names of the resource are looked at, those already given away are not. */
  lemma KeptNamesClashIff(cr: seq<Port>, p: Port, q: Port)
    requires FilterPort(cr, p).Some? && FilterPort(cr, q).Some?
    ensures FilterPort(cr, p).value.name == FilterPort(cr, q).value.name <==>
      || (!NameTaken(cr, p.name) && !NameTaken(cr, q.name) && p.name == q.name)
      || (NameTaken(cr, p.name) && NameTaken(cr, q.name) && p.port == q.port)
      || (NameTaken(cr, p.name) && !NameTaken(cr, q.name) && q.name == Renamed(p).name)
      || (!NameTaken(cr, p.name) && NameTaken(cr, q.name) && p.name == Renamed(q).name)
  {
    FallbackIsInjective(p.port, q.port);
  }

  /** It does happen: one number over two protocols, both names taken by other ports of the resource. */
  lemma KeptNamesDoClash(p: Port, q: Port)
    requires p.name != q.name && p.port == q.port && p.protocol == "TCP" && q.protocol == "UDP"
    requires p.name != Renamed(p).name && q.name != Renamed(p).name
    ensures exists cr: seq<Port> :: |cr| == 2 && var kept := KeptPorts(cr, [p, q]);
      |kept| == 2 && kept[0].name == kept[1].name
  {
    var other := p.port + 1;
    var cr := [p.(port := other), q.(port := other)];
    assert NumberKey(cr[0]).port == other && NumberKey(cr[1]).port == other;
    assert [p, q][..1] == [p] && [p][..0] == [];
    assert cr[0].name == p.name && cr[1].name == q.name;
    assert KeptPorts(cr, [p]) == [Renamed(p)];
    assert KeptPorts(cr, [p, q]) == [Renamed(p), Renamed(q)];
  }
}
