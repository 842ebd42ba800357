/** The desired objects of one collector, as internal/manifests/collector/collector.go lists them, and
    why the reconcile of them comes to rest. */
module DesiredNames {
  import opened Wrappers
  import opened DesiredStore
  import DesiredReconcile
  import DesiredProperties
  import Naming
  import opened Truncate
  import opened RuleViews
  import IngressRules
  import IngressYields

  datatype Content = Content(labels: Labels, annotations: map<string, string>, spec: Spec)

  /** The three manifests in the order they are built; any of them may be left out. */
  datatype Manifest = IngressManifest | GrpcManifest | NonGrpcManifest

  function KeyOf(m: Manifest, namespace: string, otelcol: string): Key {
    match m
    case IngressManifest => Key(Ingress, namespace, Naming.IngressName(otelcol))
    case GrpcManifest => Key(Service, namespace, Naming.ServiceName(Naming.Grpc, otelcol))
    case NonGrpcManifest => Key(Service, namespace, Naming.ServiceName(Naming.NonGrpc, otelcol))
  }

  const MANIFESTS := [IngressManifest, GrpcManifest, NonGrpcManifest]

  type Contents = map<Manifest, Content>

  /** The manifests among the first n that have contents. */
  function Present(contents: Contents, n: nat): seq<Manifest>
    requires n <= |MANIFESTS|
  {
    if n == 0 then [] else Present(contents, n - 1) + (if MANIFESTS[n - 1] in contents then [MANIFESTS[n - 1]] else [])
  }

  function ObjectOf(namespace: string, otelcol: string, contents: Contents, m: Manifest): Desired
    requires m in contents
  {
    Desired(KeyOf(m, namespace, otelcol), contents[m].labels, contents[m].annotations, contents[m].spec)
  }

  lemma PresentIn(contents: Contents, n: nat)
    requires n <= |MANIFESTS|
    ensures forall m :: m in Present(contents, n) <==> m in contents && m in MANIFESTS[..n]
    ensures forall i, j | 0 <= i < j < |Present(contents, n)| :: Present(contents, n)[i] != Present(contents, n)[j]
  {
    if n > 0 {
      PresentIn(contents, n - 1);
      FirstManifests(n - 1);
    }
  }

  function Objects(namespace: string, otelcol: string, contents: Contents, ms: seq<Manifest>): (ds: seq<Desired>)
    requires forall i | 0 <= i < |ms| :: ms[i] in contents
    ensures |ds| == |ms|
  {
    seq(|ms|, i requires 0 <= i < |ms| => ObjectOf(namespace, otelcol, contents, ms[i]))
  }

  predicate Names(ds: seq<Desired>, namespace: string, otelcol: string, manifests: seq<Manifest>) {
    |ds| == |manifests| && forall i | 0 <= i < |ds| :: ds[i].key == KeyOf(manifests[i], namespace, otelcol)
  }

  /** What is built for a collector, in order. */
  function Built(namespace: string, otelcol: string, contents: Contents): seq<Desired> {
    PresentIn(contents, |MANIFESTS|);
    Objects(namespace, otelcol, contents, Present(contents, |MANIFESTS|))
  }

  method Build(namespace: string, otelcol: string, contents: Contents) returns (ds: seq<Desired>)
    ensures ds == Built(namespace, otelcol, contents)
  {
    ds := [];
    for i := 0 to |MANIFESTS|
      invariant PresentBuilt(ds, namespace, otelcol, contents, i)
    {
      var m := MANIFESTS[i];
      PresentIn(contents, i);
      if m in contents {
        var c := contents[m];
        ds := ds + [Desired(KeyOf(m, namespace, otelcol), c.labels, c.annotations, c.spec)];
      }
    }
  }

  predicate PresentBuilt(ds: seq<Desired>, namespace: string, otelcol: string, contents: Contents, n: nat)
    requires n <= |MANIFESTS|
  {
    PresentIn(contents, n);
    ds == Objects(namespace, otelcol, contents, Present(contents, n))
  }

  /** The keys say what the objects are, as far as the names fit: the ingress and the two services. */
  lemma KeysThatFit(namespace: string, otelcol: string)
    requires IsLabel(otelcol) && |otelcol| <= 42
    ensures KeyOf(IngressManifest, namespace, otelcol) == Key(Ingress, namespace, otelcol + "-ingress")
    ensures KeyOf(GrpcManifest, namespace, otelcol) == Key(Service, namespace, otelcol + "-collector" + "-grpc")
    ensures KeyOf(NonGrpcManifest, namespace, otelcol) == Key(Service, namespace, otelcol + "-collector" + "-non-grpc")
  {
    Naming.NamesThatFit(otelcol, "00000000");
  }

  /** For every collector name the objects have keys of their own, in its namespace. */
  lemma BuiltKeys(namespace: string, otelcol: string, contents: Contents)
    ensures var ds := Built(namespace, otelcol, contents);
      && DesiredProperties.Distinct(ds)
      && (forall i | 0 <= i < |ds| :: ds[i].key.namespace == namespace)
      && Keys(ds) == set m | m in contents :: KeyOf(m, namespace, otelcol)
  {
    var ds, ms := Built(namespace, otelcol, contents), Present(contents, |MANIFESTS|);
    PresentIn(contents, |MANIFESTS|);
    AllManifests();
    NamesAreDistinct(ds, namespace, otelcol, ms);
    NamesCover(ds, namespace, otelcol, ms, contents);
  }

  lemma FirstManifests(i: nat)
    requires i < |MANIFESTS|
    ensures MANIFESTS[..i + 1] == MANIFESTS[..i] + [MANIFESTS[i]] && MANIFESTS[i] !in MANIFESTS[..i]
  {
  }

  lemma AllManifests()
    ensures MANIFESTS[..|MANIFESTS|] == MANIFESTS && forall m: Manifest :: m in MANIFESTS
  {
    forall m: Manifest ensures m in MANIFESTS {
      assert MANIFESTS[match m case IngressManifest => 0 case GrpcManifest => 1 case NonGrpcManifest => 2] == m;
    }
  }

  lemma KeysDiffer(namespace: string, otelcol: string, m: Manifest, n: Manifest)
    requires m != n
    ensures KeyOf(m, namespace, otelcol) != KeyOf(n, namespace, otelcol)
  {
    Naming.ServiceKindsNeverClash(Naming.Grpc, otelcol, Naming.NonGrpc, otelcol);
  }

  lemma NamesAreDistinct(ds: seq<Desired>, namespace: string, otelcol: string, manifests: seq<Manifest>)
    requires Names(ds, namespace, otelcol, manifests)
    requires forall j, k | 0 <= j < k < |manifests| :: manifests[j] != manifests[k]
    ensures DesiredProperties.Distinct(ds)
  {
    forall i, j | 0 <= i < j < |ds| ensures ds[i].key != ds[j].key {
      KeysDiffer(namespace, otelcol, manifests[i], manifests[j]);
    }
  }

  lemma NamesCover(ds: seq<Desired>, namespace: string, otelcol: string, manifests: seq<Manifest>,
                   contents: map<Manifest, Content>)
    requires Names(ds, namespace, otelcol, manifests) && forall m :: m in manifests <==> m in contents
    ensures Keys(ds) == set m | m in contents :: KeyOf(m, namespace, otelcol)
    ensures forall i | 0 <= i < |ds| :: ds[i].key.namespace == namespace
  {
    forall m | m in contents ensures KeyOf(m, namespace, otelcol) in Keys(ds) {
      var i :| 0 <= i < |manifests| && manifests[i] == m;
      assert ds[i].key == KeyOf(m, namespace, otelcol);
    }
    forall i | 0 <= i < |ds| ensures exists m :: m in contents && KeyOf(m, namespace, otelcol) == ds[i].key {
      assert manifests[i] in manifests;
    }
  }

  // ---------- Coming to rest ----------

  /** The labels of a Service: the operator's, then the collector's own, which may override it. */
  function ServiceLabels(own: Labels, version: LabelValue, name: LabelValue): (labels: Labels)
    ensures ManagedBy in labels
    ensures IsManaged(labels) <==> KeepsManagedBy(own)
  {
    var base := (map[ManagedBy := MdaiOperator] + own)[Version := version];
    if Name in base then base else base[Name := name]
  }

  /** The version is the builder's, the name only if the collector has none of its own; any other label is
      the collector's own, but for the operator's, which it may leave alone. */
  lemma ServiceLabelsAre(own: Labels, version: LabelValue, name: LabelValue, k: Label)
    ensures var labels := ServiceLabels(own, version, name);
      && Version in labels && labels[Version] == version
      && Name in labels && labels[Name] == (if Name in own then own[Name] else name)
      && (ManagedBy in own ==> labels[ManagedBy] == own[ManagedBy])
      && (k.OtherLabel? ==>
            (k in labels <==> k in own) && (k in own ==> labels[k] == own[k]))
  {
  }

  /** The collector does not say that somebody else manages it. */
  predicate KeepsManagedBy(own: Labels) { ManagedBy in own ==> own[ManagedBy] == MdaiOperator }

  predicate HasRules(contents: Contents) { IngressManifest in contents ==> contents[IngressManifest].spec.IngressSpec? }

  lemma FitHasRules(contents: Contents, own: Labels)
    requires Fit(contents, own)
    ensures HasRules(contents)
  {
  }

  /** The manifests have specs of their kinds, and Services labels made of the collector's own. */
  ghost predicate Fit(contents: Contents, own: Labels) {
    && HasRules(contents)
    && forall m | m in contents ::
      && (contents[m].spec.IngressSpec? <==> m.IngressManifest?)
      && (!m.IngressManifest? ==> exists version, name :: contents[m].labels == ServiceLabels(own, version, name))
  }

  /** The contents with the rules that this build ended with. */
  function WithRules(contents: Contents, rules: seq<RuleView>): Contents
    requires HasRules(contents)
  {
    if IngressManifest in contents
    then contents[IngressManifest :=
                  contents[IngressManifest].(spec := contents[IngressManifest].spec.(rules := rules))]
    else contents
  }

  function BuiltWith(owner: Owner, otelcol: string, contents: Contents, rules: seq<RuleView>): seq<Desired>
    requires HasRules(contents)
  {
    Built(owner.namespace, otelcol, WithRules(contents, rules))
  }

  predicate Succeeds(st: Store, owner: Owner, ds: seq<Desired>) { AllUpserted(st, [], ds, |ds|, owner) }

  /** After a pass over one list of objects, a pass over another succeeds and changes nothing, without a
      single write. */
  predicate AtRest(st: Store, owner: Owner, first: seq<Desired>, second: seq<Desired>) {
    var after := Reconciled(st, first, owner);
    && Succeeds(after, owner, second) && Reconciled(after, second, owner) == after
    && forall i | 0 <= i < |second| :: !NeedsWrite(after, second[i], owner.Ref())
  }

  predicate HasService(contents: Contents) { GrpcManifest in contents || NonGrpcManifest in contents }

  lemma BuiltAt(namespace: string, otelcol: string, contents: Contents, i: nat) returns (m: Manifest)
    requires i < |Built(namespace, otelcol, contents)|
    ensures m in contents && Built(namespace, otelcol, contents)[i] == ObjectOf(namespace, otelcol, contents, m)
  {
    PresentIn(contents, |MANIFESTS|);
    m := Present(contents, |MANIFESTS|)[i];
  }

  lemma BuiltFor(namespace: string, otelcol: string, contents: Contents, m: Manifest) returns (i: nat)
    requires m in contents
    ensures i < |Built(namespace, otelcol, contents)| &&
      Built(namespace, otelcol, contents)[i] == ObjectOf(namespace, otelcol, contents, m)
  {
    PresentIn(contents, |MANIFESTS|);
    AllManifests();
    assert m in Present(contents, |MANIFESTS|);
    i :| 0 <= i < |Present(contents, |MANIFESTS|)| && Present(contents, |MANIFESTS|)[i] == m;
  }

  lemma WithRulesFits(contents: Contents, own: Labels, rules: seq<RuleView>)
    requires Fit(contents, own)
    ensures Fit(WithRules(contents, rules), own) && WithRules(contents, rules).Keys == contents.Keys
  {
    forall m | m in contents && !m.IngressManifest?
      ensures exists version, name :: WithRules(contents, rules)[m].labels == ServiceLabels(own, version, name) {
    }
  }

  /** One of the objects is there already and cannot be read, so that no pass succeeds. */
  predicate Blocked(st: Store, owner: Owner, otelcol: string, contents: Contents) {
    exists m | m in contents :: Hidden(st, KeyOf(m, owner.namespace, otelcol))
  }

  lemma SucceedsUnlessBlocked(st: Store, owner: Owner, otelcol: string, contents: Contents)
    ensures Succeeds(st, owner, Built(owner.namespace, otelcol, contents)) <==> !Blocked(st, owner, otelcol, contents)
  {
    var ds := Built(owner.namespace, otelcol, contents);
    BuiltKeys(owner.namespace, otelcol, contents);
    assert DesiredReconcile.InNamespace(ds, owner);
    DesiredProperties.PassSucceedsIff(st, ds, owner);
    forall m | m in contents ensures KeyOf(m, owner.namespace, otelcol) in Keys(ds) {}
    if Blocked(st, owner, otelcol, contents) {
      var m :| m in contents && Hidden(st, KeyOf(m, owner.namespace, otelcol));
      var i := BuiltFor(owner.namespace, otelcol, contents, m);
    } else {
      forall i | 0 <= i < |ds| ensures !Hidden(st, ds[i].key) {
        var m := BuiltAt(owner.namespace, otelcol, contents, i);
      }
    }
  }

  /** After one build, a pass over another with the same manifests succeeds exactly if there is no Service
      or the collector leaves the label alone. */
  lemma RebuildSucceedsIff(st: Store, owner: Owner, otelcol: string, own: Labels, contents: Contents, others: Contents)
    requires Fit(contents, own) && others.Keys == contents.Keys
    ensures Succeeds(Reconciled(st, Built(owner.namespace, otelcol, contents), owner), owner,
                     Built(owner.namespace, otelcol, others))
      <==> (HasService(contents) ==> KeepsManagedBy(own))
  {
    hide Reconciled, Built, Hidden, Fit, Succeeds, KeyOf, Blocked, KeepsManagedBy;
    var after := Reconciled(st, Built(owner.namespace, otelcol, contents), owner);
    SucceedsUnlessBlocked(after, owner, otelcol, others);
    forall m | m in contents
      ensures Hidden(after, KeyOf(m, owner.namespace, otelcol)) <==> !m.IngressManifest? && !KeepsManagedBy(own)
    {
      ReadableIff(st, owner, otelcol, own, contents, m);
    }
    assert forall m | m in others :: m in contents;
    BlockedIff(after, owner, otelcol, others, KeepsManagedBy(own));
    assert HasService(others) <==> HasService(contents);
  }

  /** Once a collector that overrides the label has Services, every pass over its objects fails and prunes
      nothing, whatever the calls do. */
  lemma OverriddenLabelBlocks(st: Store, faults: seq<Fault>, owner: Owner, otelcol: string, own: Labels,
                              contents: Contents, others: Contents)
    requires Fit(contents, own) && others.Keys == contents.Keys && HasService(contents) && !KeepsManagedBy(own)
    ensures var ds := Built(owner.namespace, otelcol, others);
      !AllUpserted(Reconciled(st, Built(owner.namespace, otelcol, contents), owner), faults, ds, |ds|, owner)
  {
    hide Reconciled, Built, Fit, AllUpserted, KeyOf;
    var m := if GrpcManifest in contents then GrpcManifest else NonGrpcManifest;
    ReadableIff(st, owner, otelcol, own, contents, m);
    var i := BuiltFor(owner.namespace, otelcol, others, m);
    DesiredProperties.HiddenBlocks(Reconciled(st, Built(owner.namespace, otelcol, contents), owner), faults,
                                   Built(owner.namespace, otelcol, others), i, owner);
  }

  lemma BlockedIff(st: Store, owner: Owner, otelcol: string, contents: Contents, keeps: bool)
    requires forall m | m in contents :: Hidden(st, KeyOf(m, owner.namespace, otelcol)) <==>
      !m.IngressManifest? && !keeps
    ensures Blocked(st, owner, otelcol, contents) <==> HasService(contents) && !keeps
  {
    hide Hidden, KeyOf;
    if HasService(contents) {
      var m := if GrpcManifest in contents then GrpcManifest else NonGrpcManifest;
      assert m in contents;
    }
  }

  lemma ReadableIff(st: Store, owner: Owner, otelcol: string, own: Labels, contents: Contents, m: Manifest)
    requires Fit(contents, own) && m in contents
    ensures !Hidden(Reconciled(st, Built(owner.namespace, otelcol, contents), owner),
                    KeyOf(m, owner.namespace, otelcol))
      <==> m.IngressManifest? || KeepsManagedBy(own)
  {
    BuiltKeys(owner.namespace, otelcol, contents);
    var i := BuiltFor(owner.namespace, otelcol, contents, m);
    if !m.IngressManifest? {
      var version, name :| contents[m].labels == ServiceLabels(own, version, name);
    }
    DesiredProperties.ReadableAfterIff(st, Built(owner.namespace, otelcol, contents), owner, i);
  }

  lemma SameBuildChangesNothing(st: Store, owner: Owner, otelcol: string, contents: Contents)
    ensures var ds := Built(owner.namespace, otelcol, contents); var after := Reconciled(st, ds, owner);
      Reconciled(after, ds, owner) == after && forall i | 0 <= i < |ds| :: !NeedsWrite(after, ds[i], owner.Ref())
  {
    var ds := Built(owner.namespace, otelcol, contents);
    BuiltKeys(owner.namespace, otelcol, contents);
    assert DesiredReconcile.InNamespace(ds, owner);
    DesiredProperties.ReconciledTwice(st, ds, owner);
  }

  lemma IngressIsFirst(namespace: string, otelcol: string, contents: Contents)
    requires IngressManifest in contents
    ensures var ds := Built(namespace, otelcol, contents);
      |ds| > 0 && ds[0] == ObjectOf(namespace, otelcol, contents, IngressManifest)
  {
    PresentIn(contents, |MANIFESTS|);
    assert Present(contents, 1) == [IngressManifest];
    assert Present(contents, 2)[0] == IngressManifest;
    assert Present(contents, 3)[0] == IngressManifest;
  }

  /** Two builds in a row are at rest exactly if they agree on the rules, where there is an ingress, and
      the collector leaves the operator's label alone, where there is a Service. */
  lemma RebuildRestsIff(st: Store, owner: Owner, otelcol: string, own: Labels, contents: Contents, x: seq<RuleView>,
                        y: seq<RuleView>)
    requires Fit(contents, own)
    ensures AtRest(st, owner, BuiltWith(owner, otelcol, contents, x), BuiltWith(owner, otelcol, contents, y))
      <==> (IngressManifest in contents ==> x == y) && (HasService(contents) ==> KeepsManagedBy(own))
  {
    hide Succeeds;
    var first, second := BuiltWith(owner, otelcol, contents, x), BuiltWith(owner, otelcol, contents, y);
    WithRulesFits(contents, own, x);
    WithRulesFits(contents, own, y);
    RebuildSucceedsIff(st, owner, otelcol, own, WithRules(contents, x), WithRules(contents, y));
    SameBuildChangesNothing(st, owner, otelcol, WithRules(contents, x));
    if IngressManifest in contents {
      IngressIsFirst(owner.namespace, otelcol, WithRules(contents, x));
      IngressIsFirst(owner.namespace, otelcol, WithRules(contents, y));
      BuiltKeys(owner.namespace, otelcol, WithRules(contents, x));
      DesiredProperties.ReconciledAsDesired(st, first, owner, 0);
      DesiredProperties.UpsertSettles(Reconciled(st, first, owner), second[0], owner.Ref());
      assert first[0].key == second[0].key;
    }
  }

  /** If a pass over one build succeeds, then a pass over the other is at rest. */
  predicate RestsBetween(st: Store, owner: Owner, otelcol: string, contents: Contents, x: seq<RuleView>,
                         y: seq<RuleView>)
    requires HasRules(contents)
  {
    var first, second := BuiltWith(owner, otelcol, contents, x), BuiltWith(owner, otelcol, contents, y);
    Succeeds(st, owner, first) ==> AtRest(st, owner, first, second)
  }

  /** That is so whatever way each build takes. */
  ghost predicate ComesToRest(st: Store, owner: Owner, otelcol: string, contents: Contents, hosts: map<string, string>,
                              all: IngressRules.Components)
    requires HasRules(contents)
  {
    forall x, y | Yields(otelcol, hosts, all, x) && Yields(otelcol, hosts, all, y) ::
      RestsBetween(st, owner, otelcol, contents, x, y)
  }

  ghost predicate Yields(otelcol: string, hosts: map<string, string>, all: IngressRules.Components,
                         rules: seq<RuleView>) {
    IngressYields.MayYield(Naming.ServiceName(Naming.Grpc, otelcol), hosts, IngressRules.GrpcComponents(all), rules)
  }

  predicate HostsAgree(otelcol: string, hosts: map<string, string>, all: IngressRules.Components) {
    IngressYields.HostsAgree(Naming.ServiceName(Naming.Grpc, otelcol), hosts, IngressRules.GrpcComponents(all))
  }

  /** So a collector's objects come to rest if and only if no pass succeeds at all, or both: it has no
      ingress or the gRPC components that share a host have the same paths, as otherwise one build can
      rewrite the ingress of the one before; and it has no Service or does not override the operator's
      label, as otherwise the next pass cannot read what this one made. */
  lemma CollectorComesToRestIff(st: Store, owner: Owner, otelcol: string, own: Labels, contents: Contents,
                                hosts: map<string, string>, all: IngressRules.Components)
    requires Fit(contents, own)
    ensures ComesToRest(st, owner, otelcol, contents, hosts, all) <==>
      || Blocked(st, owner, otelcol, contents)
      || ((IngressManifest in contents ==> HostsAgree(otelcol, hosts, all)) &&
          (HasService(contents) ==> KeepsManagedBy(own)))
  {
    hide HostsAgree, ComesToRest, Blocked;
    if IngressManifest in contents && !HostsAgree(otelcol, hosts, all) {
      DisagreeingRests(st, owner, otelcol, own, contents, hosts, all);
    } else {
      AgreeingRests(st, owner, otelcol, own, contents, hosts, all);
    }
  }

  lemma TwoYieldsOf(otelcol: string, hosts: map<string, string>, all: IngressRules.Components)
    returns (x: seq<RuleView>, y: seq<RuleView>)
    requires !HostsAgree(otelcol, hosts, all)
    ensures Yields(otelcol, hosts, all, x) && Yields(otelcol, hosts, all, y) && x != y
  {
    x, y := IngressYields.TwoYields(Naming.ServiceName(Naming.Grpc, otelcol), hosts, IngressRules.GrpcComponents(all));
  }

  lemma OneYieldOf(otelcol: string, hosts: map<string, string>, all: IngressRules.Components) returns (x: seq<RuleView>)
    ensures Yields(otelcol, hosts, all, x)
  {
    x := IngressYields.OneYield(Naming.ServiceName(Naming.Grpc, otelcol), hosts, IngressRules.GrpcComponents(all));
  }

  lemma AgreeingYieldsOf(otelcol: string, hosts: map<string, string>, all: IngressRules.Components, x: seq<RuleView>,
                         y: seq<RuleView>)
    requires HostsAgree(otelcol, hosts, all) && Yields(otelcol, hosts, all, x) && Yields(otelcol, hosts, all, y)
    ensures x == y
  {
    IngressYields.AgreeingYields(Naming.ServiceName(Naming.Grpc, otelcol), hosts, IngressRules.GrpcComponents(all), x,
                                 y);
  }

  lemma DisagreeingRests(st: Store, owner: Owner, otelcol: string, own: Labels, contents: Contents,
                         hosts: map<string, string>, all: IngressRules.Components)
    requires Fit(contents, own) && IngressManifest in contents && !HostsAgree(otelcol, hosts, all)
    ensures ComesToRest(st, owner, otelcol, contents, hosts, all) <==> Blocked(st, owner, otelcol, contents)
  {
    hide RestsBetween, Blocked, Fit, Yields, HostsAgree;
    FitHasRules(contents, own);
    var x, y := TwoYieldsOf(otelcol, hosts, all);
    RestsBetweenIff(st, owner, otelcol, own, contents, x, y);
    forall v, w | Yields(otelcol, hosts, all, v) && Yields(otelcol, hosts, all, w)
      ensures Blocked(st, owner, otelcol, contents) ==> RestsBetween(st, owner, otelcol, contents, v, w)
    {
      RestsBetweenIff(st, owner, otelcol, own, contents, v, w);
    }
  }

  lemma AgreeingRests(st: Store, owner: Owner, otelcol: string, own: Labels, contents: Contents,
                      hosts: map<string, string>, all: IngressRules.Components)
    requires Fit(contents, own) && (IngressManifest in contents ==> HostsAgree(otelcol, hosts, all))
    ensures ComesToRest(st, owner, otelcol, contents, hosts, all) <==>
      Blocked(st, owner, otelcol, contents) || (HasService(contents) ==> KeepsManagedBy(own))
  {
    hide RestsBetween, Blocked, Fit, HasService, Yields, HostsAgree;
    FitHasRules(contents, own);
    var z := OneYieldOf(otelcol, hosts, all);
    RestsBetweenIff(st, owner, otelcol, own, contents, z, z);
    forall x, y | Yields(otelcol, hosts, all, x) && Yields(otelcol, hosts, all, y)
      ensures RestsBetween(st, owner, otelcol, contents, x, y) <==> RestsBetween(st, owner, otelcol, contents, z, z)
    {
      if IngressManifest in contents { AgreeingYieldsOf(otelcol, hosts, all, x, y); }
      RestsBetweenIff(st, owner, otelcol, own, contents, x, y);
    }
  }

  lemma RestsBetweenIff(st: Store, owner: Owner, otelcol: string, own: Labels, contents: Contents, x: seq<RuleView>,
                        y: seq<RuleView>)
    requires Fit(contents, own)
    ensures RestsBetween(st, owner, otelcol, contents, x, y) <==>
      || Blocked(st, owner, otelcol, contents)
      || ((IngressManifest in contents ==> x == y) && (HasService(contents) ==> KeepsManagedBy(own)))
  {
    hide Succeeds, AtRest, HasService, KeepsManagedBy;
    RebuildRestsIff(st, owner, otelcol, own, contents, x, y);
    WithRulesFits(contents, own, x);
    SucceedsUnlessBlocked(st, owner, otelcol, WithRules(contents, x));
    assert Blocked(st, owner, otelcol, WithRules(contents, x)) <==> Blocked(st, owner, otelcol, contents);
  }
}
