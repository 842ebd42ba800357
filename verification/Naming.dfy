/** The name builders of internal/naming/main.go. */
module Naming {
  import opened Truncate

  const MAX: nat := 63

  function Build(format: seq<Piece>, values: seq<Value>): string
    requires Holes(format) == |values|
  {
    DnsName(Truncated(format, MAX, values))
  }

  function SuffixFormat(suffix: string): (f: seq<Piece>)
    ensures Holes(f) == 1
  {
    var f := [Hole, Lit(suffix)];
    assert f[1..] == [Lit(suffix)] && f[1..][1..] == [];
    assert Holes(f[1..]) == 0;
    f
  }

  function WithSuffix(name: string, suffix: string): string { Build(SuffixFormat(suffix), [Str(name)]) }

  // ---------- The builders ----------

  datatype ServiceKind = Plain | Headless | Monitoring | Extension | Grpc | NonGrpc

  function Suffix(kind: ServiceKind): string {
    match kind
    case Plain => "-collector"
    case Headless => "-headless"
    case Monitoring => "-monitoring"
    case Extension => "-extension"
    case Grpc => "-grpc"
    case NonGrpc => "-non-grpc"
  }

  function Service(otelcol: string): string { WithSuffix(otelcol, Suffix(Plain)) }

  /** The plain service name, or one built on it: headless, monitoring, extension, grpc or non-grpc. */
  function ServiceName(kind: ServiceKind, otelcol: string): string {
    if kind.Plain? then Service(otelcol) else WithSuffix(Service(otelcol), Suffix(kind))
  }

  function IngressName(otelcol: string): string { WithSuffix(otelcol, "-ingress") }

  function ConfigMapFormat(): (f: seq<Piece>)
    ensures Holes(f) == 2
  {
    var f := [Hole, Lit("-collector-"), Hole];
    assert f[1..] == [Lit("-collector-"), Hole];
    assert f[1..][1..] == [Hole];
    assert f[1..][1..][1..] == [];
    f
  }

  /** The builder slices the hash, so it must have eight characters. */
  function ConfigMap(otelcol: string, configHash: string): string
    requires |configHash| >= 8
  {
    Build(ConfigMapFormat(), [Str(otelcol), Str(configHash[..8])])
  }

  function ConfigMapExtraFormat(): (f: seq<Piece>)
    ensures Holes(f) == 1
  {
    var f := [Lit("configmap-"), Hole];
    assert f[1..] == [Hole];
    assert f[1..][1..] == [];
    f
  }

  function ConfigMapExtra(name: string): string { Build(ConfigMapExtraFormat(), [Str(name)]) }

  function BareFormat(): (f: seq<Piece>)
    ensures Holes(f) == 1
  {
    var f := [Hole];
    assert f[1..] == [];
    f
  }

  function OpenTelemetryCollectorName(name: string): string { Build(BareFormat(), [Str(name)]) }

  // ---------- Every name is a label ----------

  /** Whatever the format and the values: a label, or nothing at all. */
  lemma BuildIsLabel(format: seq<Piece>, values: seq<Value>)
    requires Holes(format) == |values|
    ensures IsLabel(Build(format, values)) || Build(format, values) == ""
  {
    TruncatedFits(format, MAX, values);
    DnsNameIsLabel(Truncated(format, MAX, values));
  }

  predicate HasAlnum(s: string) { exists i | 0 <= i < |s| :: IsAlnum(s[i]) }

  predicate HasFixedAlnum(format: seq<Piece>) {
    exists i | 0 <= i < |format| :: format[i].Lit? && HasAlnum(format[i].text)
  }

  lemma HasAlnumConcat(s: string, t: string)
    ensures HasAlnum(s) || HasAlnum(t) ==> HasAlnum(s + t)
  {
    if HasAlnum(s) {
      var i :| 0 <= i < |s| && IsAlnum(s[i]);
      assert IsAlnum((s + t)[i]);
    }
    if HasAlnum(t) {
      var i :| 0 <= i < |t| && IsAlnum(t[i]);
      assert IsAlnum((s + t)[|s| + i]);
    }
  }

  lemma {:induction false} SprintfHasAlnum(format: seq<Piece>, values: seq<Value>)
    requires Holes(format) == |values| && HasFixedAlnum(format)
    ensures HasAlnum(Sprintf(format, values))
  {
    var i :| 0 <= i < |format| && format[i].Lit? && HasAlnum(format[i].text);
    var rest := if format[0].Hole? then values[1..] else values;
    var head := if format[0].Hole? then ValueText(values[0]) else format[0].text;
    if i > 0 {
      assert format[1..][i - 1] == format[i];
      SprintfHasAlnum(format[1..], rest);
    }
    HasAlnumConcat(head, Sprintf(format[1..], rest));
  }

  lemma {:induction false} TrimEndKeeps(s: string, k: nat)
    requires k < |s| && IsAlnum(s[k])
    ensures k < |TrimEnd(s)| && TrimEnd(s) <= s
  {
    if !IsAlnum(s[|s| - 1]) { TrimEndKeeps(s[..|s| - 1], k); }
  }

  /** Trimming the start stops at the latest at an alphanumeric character. */
  lemma {:induction false} TrimStartKeeps(s: string, k: nat) returns (j: nat)
    requires k < |s| && IsAlnum(s[k])
    ensures j <= k && TrimStart(s) == s[j..] && IsAlnum(s[j])
  {
    if IsAlnum(s[0]) {
      j := 0;
      assert s[0..] == s;
    } else {
      assert s[1..][k - 1] == s[k];
      j := TrimStartKeeps(s[1..], k - 1);
      assert s[1..][j..] == s[j + 1..];
      j := j + 1;
    }
  }

  lemma TrimKeepsAlnum(s: string)
    requires HasAlnum(s)
    ensures TrimNonAlphaNumeric(s) != ""
  {
    var k :| 0 <= k < |s| && IsAlnum(s[k]);
    TrimEndKeeps(s, k);
    var j := TrimStartKeeps(TrimEnd(s), k);
  }

  /** With alphanumeric fixed text the name is never empty. */
  lemma FixedTextMakesLabel(format: seq<Piece>, values: seq<Value>)
    requires Holes(format) == |values| && HasFixedAlnum(format)
    ensures IsLabel(Build(format, values))
  {
    TruncatedIsNotEmpty(format, values);
    BuildIsLabel(format, values);
  }

  lemma TruncatedIsNotEmpty(format: seq<Piece>, values: seq<Value>)
    requires Holes(format) == |values| && HasFixedAlnum(format)
    ensures Truncated(format, MAX, values) != ""
  {
    var result := Sprintf(format, values);
    var cut := if |result| > MAX then Cut(values, |result| - MAX) else values;
    SprintfHasAlnum(format, cut);
    TrimKeepsAlnum(Sprintf(format, cut));
  }

  // ---------- Suffixes ----------

  /** A suffix leaves room for the name, is made of label characters, starts with a hyphen and ends without. */
  predicate IsSuffix(suffix: string) {
    && 1 < |suffix| <= 20 && suffix[0] == '-' && IsLower(suffix[|suffix| - 1])
    && forall i | 0 <= i < |suffix| :: IsLower(suffix[i]) || suffix[i] == '-'
  }

  lemma SuffixesAreSuffixes(kind: ServiceKind)
    ensures IsSuffix(Suffix(kind)) && IsSuffix("-ingress")
  {
  }

  /** The part of a name that is left in front of a suffix. */
  function Kept(name: string, suffix: string): string
    requires |suffix| <= MAX
  {
    if |name| + |suffix| <= MAX then name else name[..MAX - |suffix|]
  }

  lemma SuffixSprintf(name: string, suffix: string)
    ensures Sprintf(SuffixFormat(suffix), [Str(name)]) == name + suffix
  {
    var f := SuffixFormat(suffix);
    assert f[1..] == [Lit(suffix)] && f[1..][1..] == [];
    assert [Str(name)][1..] == [] && suffix + "" == suffix;
    assert Sprintf(f[1..][1..], []) == "";
    assert Sprintf(f[1..], []) == suffix;
  }

  lemma SuffixTruncated(name: string, suffix: string)
    requires IsSuffix(suffix)
    ensures Truncated(SuffixFormat(suffix), MAX, [Str(name)]) == TrimStart(Kept(name, suffix) + suffix)
  {
    SuffixSprintf(name, suffix);
    var kept := Kept(name, suffix);
    if |name| + |suffix| > MAX {
      var excess := |name| + |suffix| - MAX;
      assert Cut([Str(name)], excess) == [Str(kept)];
      SuffixSprintf(kept, suffix);
    }
    var text := kept + suffix;
    assert text[|text| - 1] == suffix[|suffix| - 1];
  }

  /** Behind a name that is a label, all that happens is that the name gives way to the suffix. */
  lemma SuffixedLabel(name: string, suffix: string)
    requires IsLabel(name) && IsSuffix(suffix)
    ensures WithSuffix(name, suffix) == Kept(name, suffix) + suffix && IsLabel(WithSuffix(name, suffix))
  {
    hide Truncated, IsLabel, DnsName;
    SuffixTruncated(name, suffix);
    KeptIsLabel(name, suffix);
    DnsNameIsLabel(Kept(name, suffix) + suffix);
  }

  lemma KeptIsLabel(name: string, suffix: string)
    requires IsLabel(name) && IsSuffix(suffix)
    ensures var text := Kept(name, suffix) + suffix; IsLabel(text) && TrimStart(text) == text
  {
    var text := Kept(name, suffix) + suffix;
    assert text[0] == name[0] && text[|text| - 1] == suffix[|suffix| - 1];
  }

  // ---------- Service names ----------

  /** The plain name is what is left of a text that ends in the suffix's nine letters. */
  lemma ServiceText(otelcol: string) returns (name: string)
    ensures Service(otelcol) == DnsName(name) && |name| >= 9
    ensures forall i | |name| - 9 <= i < |name| :: IsLower(name[i]) && (i == |name| - 1 ==> name[i] == 'r')
  {
    var suffix := Suffix(Plain);
    SuffixesAreSuffixes(Plain);
    SuffixTruncated(otelcol, suffix);
    var text := Kept(otelcol, suffix) + suffix;
    var k := |text| - 9;
    forall i | k <= i < |text| ensures IsLower(text[i]) && (i == |text| - 1 ==> text[i] == 'r') {
      assert text[i] == suffix[i - |text| + 10];
    }
    var j := TrimStartKeeps(text, k);
    name := TrimStart(text);
    assert name == text[j..];
  }

  /** However much of the name is cut or trimmed, a service name ends in nine lower-case letters. */
  lemma ServiceShape(otelcol: string)
    ensures IsLabel(Service(otelcol)) && |Service(otelcol)| >= 9
    ensures forall i | |Service(otelcol)| - 9 <= i < |Service(otelcol)| :: Service(otelcol)[i] != '-'
    ensures Service(otelcol)[|Service(otelcol)| - 1] == 'r'
  {
    var name := ServiceText(otelcol);
    BuildIsLabel(SuffixFormat(Suffix(Plain)), [Str(otelcol)]);
    forall i | |name| - 9 <= i < |name| ensures DnsName(name)[i] == name[i] {}
  }

  lemma ServiceNameShape(kind: ServiceKind, otelcol: string)
    ensures var name, suffix := ServiceName(kind, otelcol), Suffix(kind);
      IsLabel(name) && name[|name| - 1] == suffix[|suffix| - 1]
  {
    ServiceShape(otelcol);
    SuffixesAreSuffixes(kind);
    if !kind.Plain? { SuffixedLabel(Service(otelcol), Suffix(kind)); }
  }

  lemma GrpcNames(a: string, b: string)
    ensures ServiceName(Grpc, a) != ServiceName(NonGrpc, b)
  {
    ServiceShape(a);
    ServiceShape(b);
    SuffixesAreSuffixes(Grpc);
    SuffixesAreSuffixes(NonGrpc);
    SuffixedLabel(Service(a), Suffix(Grpc));
    SuffixedLabel(Service(b), Suffix(NonGrpc));
    var g, n := ServiceName(Grpc, a), ServiceName(NonGrpc, b);
    var kept := Kept(Service(a), Suffix(Grpc));
    assert n[|n| - 9] == Suffix(NonGrpc)[0] == '-';
    assert g[|g| - 9] == kept[|kept| - 4] == Service(a)[|kept| - 4];
  }

  /** The service names of any two collectors, the same or not, never clash across kinds, however much
      of them truncation takes away. */
  lemma ServiceKindsNeverClash(j: ServiceKind, a: string, k: ServiceKind, b: string)
    requires j != k
    ensures ServiceName(j, a) != ServiceName(k, b)
  {
    ServiceNameShape(j, a);
    ServiceNameShape(k, b);
    if j.Grpc? && k.NonGrpc? {
      GrpcNames(a, b);
    } else if j.NonGrpc? && k.Grpc? {
      GrpcNames(b, a);
    }
  }

  /** On labels the plain service name only appends to at most 53 characters of the name, and two
      names clash exactly when those agree: never while they fit. */
  lemma ServiceClashesIff(a: string, b: string)
    requires IsLabel(a) && IsLabel(b)
    ensures |a| <= 53 ==> Service(a) == a + "-collector"
    ensures Service(a) == Service(b) <==> (if |a| <= 53 then a else a[..53]) == (if |b| <= 53 then b else b[..53])
  {
    var suffix := Suffix(Plain);
    SuffixesAreSuffixes(Plain);
    SuffixedLabel(a, suffix);
    SuffixedLabel(b, suffix);
    var x, y := Kept(a, suffix), Kept(b, suffix);
    if x + suffix == y + suffix {
      assert (x + suffix)[..|x|] == x && (y + suffix)[..|y|] == y;
    }
  }

  lemma OtherBuildersMakeLabels(otelcol: string, configHash: string)
    requires |configHash| >= 8
    ensures IsLabel(IngressName(otelcol)) && IsLabel(ConfigMap(otelcol, configHash)) && IsLabel(ConfigMapExtra(otelcol))
    ensures IsLabel(OpenTelemetryCollectorName(otelcol)) || OpenTelemetryCollectorName(otelcol) == ""
  {
    SuffixesAreSuffixes(Plain);
    assert IsAlnum("-ingress"[1]) && IsAlnum("-collector-"[1]) && IsAlnum("configmap-"[0]);
    assert SuffixFormat("-ingress")[1].Lit? && ConfigMapFormat()[1].Lit? && ConfigMapExtraFormat()[0].Lit?;
    FixedTextMakesLabel(SuffixFormat("-ingress"), [Str(otelcol)]);
    FixedTextMakesLabel(ConfigMapFormat(), [Str(otelcol), Str(configHash[..8])]);
    FixedTextMakesLabel(ConfigMapExtraFormat(), [Str(otelcol)]);
    BuildIsLabel(BareFormat(), [Str(otelcol)]);
  }

  // ---------- Names that fit ----------

  lemma SuffixFits(name: string, suffix: string)
    requires IsLabel(name) && IsSuffix(suffix) && |name| + |suffix| <= 63
    ensures WithSuffix(name, suffix) == name + suffix
  {
    SuffixedLabel(name, suffix);
  }

  /** On a label of up to 42 characters nothing is cut: this is what the builders say. */
  lemma NamesThatFit(name: string, configHash: string)
    requires IsLabel(name) && |name| <= 42 && |configHash| >= 8 && IsLabel(configHash[..8])
    ensures ServiceName(Plain, name) == name + "-collector"
    ensures ServiceName(Headless, name) == name + "-collector" + "-headless"
    ensures ServiceName(Monitoring, name) == name + "-collector" + "-monitoring"
    ensures ServiceName(Extension, name) == name + "-collector" + "-extension"
    ensures ServiceName(Grpc, name) == name + "-collector" + "-grpc"
    ensures ServiceName(NonGrpc, name) == name + "-collector" + "-non-grpc"
    ensures IngressName(name) == name + "-ingress"
    ensures OpenTelemetryCollectorName(name) == name
    ensures ConfigMap(name, configHash) == name + "-collector-" + configHash[..8]
    ensures ConfigMapExtra(name) == "configmap-" + name
  {
    SuffixesAreSuffixes(Plain);
    SuffixFits(name, "-collector");
    assert Suffix(Plain) == "-collector";
    SuffixedLabel(name, "-collector");
    forall kind: ServiceKind | !kind.Plain? ensures ServiceName(kind, name) == name + "-collector" + Suffix(kind) {
      SuffixesAreSuffixes(kind);
      SuffixFits(name + "-collector", Suffix(kind));
    }
    SuffixFits(name, "-ingress");
    OtherNamesThatFit(name, configHash);
  }

  lemma UntrimmedLabel(format: seq<Piece>, values: seq<Value>)
    requires Holes(format) == |values| && IsLabel(Sprintf(format, values))
    ensures Build(format, values) == Sprintf(format, values)
  {
    DnsNameIsLabel(Sprintf(format, values));
  }

  lemma OtherNamesThatFit(name: string, configHash: string)
    requires IsLabel(name) && |name| <= 42 && |configHash| >= 8 && IsLabel(configHash[..8])
    ensures OpenTelemetryCollectorName(name) == name
    ensures ConfigMap(name, configHash) == name + "-collector-" + configHash[..8]
    ensures ConfigMapExtra(name) == "configmap-" + name
  {
    BareText(name);
    UntrimmedLabel(BareFormat(), [Str(name)]);
    ConfigMapText(name, configHash[..8]);
    UntrimmedLabel(ConfigMapFormat(), [Str(name), Str(configHash[..8])]);
    ConfigMapExtraText(name);
    UntrimmedLabel(ConfigMapExtraFormat(), [Str(name)]);
  }

  lemma BareText(name: string)
    ensures Sprintf(BareFormat(), [Str(name)]) == name
  {
    var f := [Hole];
    assert f[1..] == [] && [Str(name)][1..] == [] && name + "" == name;
    assert Sprintf(f[1..], []) == "";
  }

  lemma ConfigMapText(name: string, hash: string)
    ensures Sprintf(ConfigMapFormat(), [Str(name), Str(hash)]) == name + "-collector-" + hash
  {
    var f, v := [Hole, Lit("-collector-"), Hole], [Str(name), Str(hash)];
    assert f[1..] == [Lit("-collector-"), Hole] && f[1..][1..] == [Hole] && f[1..][1..][1..] == [];
    assert v[1..] == [Str(hash)] && v[1..][1..] == [] && hash + "" == hash;
    assert Sprintf(f[1..][1..][1..], []) == "";
    assert Sprintf(f[1..][1..], v[1..]) == hash;
    assert Sprintf(f[1..], v[1..]) == "-collector-" + hash;
    assert name + ("-collector-" + hash) == name + "-collector-" + hash;
  }

  lemma ConfigMapExtraText(name: string)
    ensures Sprintf(ConfigMapExtraFormat(), [Str(name)]) == "configmap-" + name
  {
    var f := [Lit("configmap-"), Hole];
    assert f[1..] == [Hole] && f[1..][1..] == [] && [Str(name)][1..] == [] && name + "" == name;
    assert Sprintf(f[1..][1..], []) == "";
    assert Sprintf(f[1..], [Str(name)]) == name;
  }
}
