/** The HelmOps a blueprint workload should have, and how many clusters each covers. */
module Keys {
  import opened Ordering
  import opened Naming
  import opened Workload

  datatype HelmOpKey = HelmOpKey(ref: Ref, component: string, release: string, expectedClusters: nat)

  function BundleName(workload: string, chart: string): string
  {
    TruncateDNS1123Label(workload + "-" + Slugify(chart), LABEL_MAX)
  }

  function ComponentReleaseName(c: Component): string
  {
    if c.releaseName != "" then c.releaseName else c.chartName
  }

  function NamespaceOf(cluster: string): Namespace
  {
    if cluster == "local" then FleetLocal else FleetDefault
  }

  /** The targets a HelmOp in `ns` is expected to reach: the "local" entry once, the
      others as often as they are listed. */
  function ExpectedIn(ns: Namespace, targets: seq<string>): seq<string>
  {
    match ns
    case FleetLocal => if "local" in targets then ["local"] else []
    case FleetDefault => Downstream(targets)
  }

  function Downstream(targets: seq<string>): seq<string>
  {
    if targets == [] then []
    else
      var front := Downstream(targets[..|targets| - 1]);
      var last := targets[|targets| - 1];
      if last == "local" then front else front + [last]
  }

  function KeyFor(workload: string, c: Component, ns: Namespace, count: nat): HelmOpKey
  {
    HelmOpKey(Ref(ns, BundleName(workload, c.chartName)), c.chartName,
              CapReleaseName(ComponentReleaseName(c)), count)
  }

  /** One key where a namespace has targets, none where it has not. */
  function KeysNamed(name: string, chart: string, release: string, targets: seq<string>): seq<HelmOpKey>
  {
    var local, downstream := |ExpectedIn(FleetLocal, targets)|, |ExpectedIn(FleetDefault, targets)|;
    (if local > 0 then [HelmOpKey(Ref(FleetLocal, name), chart, release, local)] else [])
    + (if downstream > 0 then [HelmOpKey(Ref(FleetDefault, name), chart, release, downstream)] else [])
  }

  function KeysOf(workload: string, c: Component, targets: seq<string>, strategy: Strategy): seq<HelmOpKey>
  {
    if strategy == Helm then []
    else KeysNamed(BundleName(workload, c.chartName), c.chartName, CapReleaseName(ComponentReleaseName(c)), targets)
  }

  function KeysFor(workload: string, targets: seq<string>, strategy: Strategy): Component -> seq<HelmOpKey>
  {
    c => KeysOf(workload, c, targets, strategy)
  }

  function RawKeys(workload: string, components: seq<Component>, targets: seq<string>,
                   strategy: Strategy): seq<HelmOpKey>
  {
    FlatMap(KeysFor(workload, targets, strategy), components)
  }

  function RefKey(k: HelmOpKey): Key
  {
    [NamespaceName(k.ref.namespace), k.ref.name]
  }

  function DesiredKeys(workload: string, targets: seq<string>, components: seq<Component>,
                       strategy: Strategy): seq<HelmOpKey>
  {
    SortBy(RefKey, RawKeys(workload, components, targets, strategy))
  }

  method CountTargets(targets: seq<string>) returns (localCount: nat, downstreamCount: nat)
    ensures localCount == |ExpectedIn(FleetLocal, targets)|
    ensures downstreamCount == |ExpectedIn(FleetDefault, targets)|
  {
    localCount, downstreamCount := 0, 0;
    for i := 0 to |targets|
      invariant localCount == if "local" in targets[..i] then 1 else 0
      invariant downstreamCount == |Downstream(targets[..i])|
    {
      assert targets[..i + 1] == targets[..i] + [targets[i]];
      if targets[i] == "local" {
        localCount := 1;
      } else {
        downstreamCount := downstreamCount + 1;
      }
    }
    assert targets[..|targets|] == targets;
  }

  method DesiredHelmOpKeys(workload: string, targets: seq<string>, components: seq<Component>, strategy: Strategy)
    returns (keys: seq<HelmOpKey>)
    ensures keys == DesiredKeys(workload, targets, components, strategy)
  {
    var localCount, downstreamCount := CountTargets(targets);
    ghost var f := KeysFor(workload, targets, strategy);
    keys := [];
    for i := 0 to |components|
      invariant keys == FlatMap(f, components[..i])
    {
      FlatMapStep(f, components, i);
      var more := AppendKeys(workload, components[i], localCount, downstreamCount, targets, strategy);
      keys := keys + more;
    }
    assert components[..|components|] == components;
    keys := SortBy(RefKey, keys);
  }

  /** The body of the loop: up to two keys for one component. */
  method AppendKeys(workload: string, c: Component, localCount: nat, downstreamCount: nat, ghost targets: seq<string>,
                    strategy: Strategy)
    returns (keys: seq<HelmOpKey>)
    requires localCount == |ExpectedIn(FleetLocal, targets)|
    requires downstreamCount == |ExpectedIn(FleetDefault, targets)|
    ensures keys == KeysOf(workload, c, targets, strategy)
  {
    var name := BundleName(workload, c.chartName);
    var release := CapReleaseName(ComponentReleaseName(c));
    var inLocal, inDefault := [], [];
    if strategy == FleetBundle || strategy == GitOps {
      if localCount > 0 {
        inLocal := [HelmOpKey(Ref(FleetLocal, name), c.chartName, release, localCount)];
      }
      if downstreamCount > 0 {
        inDefault := [HelmOpKey(Ref(FleetDefault, name), c.chartName, release, downstreamCount)];
      }
      keys := inLocal + inDefault;
    } else {
      keys := [];
    }
  }

  /** `isComponentEnabled`: the first override naming the chart decides. */
  function ComponentEnabled(overrides: seq<Override>, chart: string): bool
  {
    if overrides == [] then true
    else if overrides[0].component != chart then ComponentEnabled(overrides[1..], chart)
    else overrides[0].enabled.None? || overrides[0].enabled.value
  }

  function EnabledComponents(overrides: seq<Override>, components: seq<Component>): seq<Component>
  {
    if components == [] then []
    else
      var front := EnabledComponents(overrides, components[..|components| - 1]);
      var last := components[|components| - 1];
      if ComponentEnabled(overrides, last.chartName) then front + [last] else front
  }

  // What the keys cover

  lemma {:induction false} DownstreamMembers(targets: seq<string>, t: string)
    ensures t in Downstream(targets) <==> t in targets && t != "local"
  {
    if targets != [] {
      DownstreamMembers(targets[..|targets| - 1], t);
      assert targets == targets[..|targets| - 1] + [targets[|targets| - 1]];
    }
  }

  lemma ExpectedMembers(ns: Namespace, targets: seq<string>, t: string)
    ensures t in ExpectedIn(ns, targets) <==> t in targets && NamespaceOf(t) == ns
  {
    DownstreamMembers(targets, t);
  }

  lemma RawKeysMembers(workload: string, components: seq<Component>, targets: seq<string>, strategy: Strategy,
                       k: HelmOpKey)
    ensures k in RawKeys(workload, components, targets, strategy) <==>
            exists c :: c in components && k in KeysOf(workload, c, targets, strategy)
  {
    FlatMapMembers(KeysFor(workload, targets, strategy), components, k);
    if exists c :: c in components && k in KeysOf(workload, c, targets, strategy) {
      var c :| c in components && k in KeysOf(workload, c, targets, strategy);
      assert k in KeysFor(workload, targets, strategy)(c);
    }
  }

  lemma KeysNamedMembers(name: string, chart: string, release: string, targets: seq<string>, k: HelmOpKey)
    ensures k in KeysNamed(name, chart, release, targets) <==>
            && |ExpectedIn(k.ref.namespace, targets)| > 0
            && k == HelmOpKey(Ref(k.ref.namespace, name), chart, release, |ExpectedIn(k.ref.namespace, targets)|)
    ensures forall key :: key in KeysNamed(name, chart, release, targets) ==> RefKey(key)[1] == name
    ensures DistinctKeys(RefKey, KeysNamed(name, chart, release, targets))
    ensures Sum(KeysNamed(name, chart, release, targets)) ==
            |ExpectedIn(FleetLocal, targets)| + |ExpectedIn(FleetDefault, targets)|
  {
    var keys := KeysNamed(name, chart, release, targets);
    NamespacesDiffer();
    forall i, j | 0 <= i < j < |keys| ensures RefKey(keys[i]) != RefKey(keys[j]) {
      assert RefKey(keys[i])[0] != RefKey(keys[j])[0];
    }
    if |keys| == 2 {
      assert Sum(keys[1..]) == keys[1].expectedClusters + Sum(keys[1..][1..]);
    }
  }

  lemma KeysOfMembers(workload: string, c: Component, targets: seq<string>, strategy: Strategy, k: HelmOpKey)
    requires strategy != Helm
    ensures k in KeysOf(workload, c, targets, strategy) <==>
            && |ExpectedIn(k.ref.namespace, targets)| > 0
            && k == KeyFor(workload, c, k.ref.namespace, |ExpectedIn(k.ref.namespace, targets)|)
  {
  }

  /** Every (component, target cluster) pair has a key whose HelmOp is expected to reach
      the cluster. */
  lemma DesiredKeysCover(workload: string, targets: seq<string>, components: seq<Component>, strategy: Strategy,
                         c: Component, t: string)
    requires strategy != Helm && c in components && t in targets
    ensures t in ExpectedIn(NamespaceOf(t), targets)
    ensures KeyFor(workload, c, NamespaceOf(t), |ExpectedIn(NamespaceOf(t), targets)|)
            in DesiredKeys(workload, targets, components, strategy)
  {
    var ns := NamespaceOf(t);
    ExpectedMembers(ns, targets, t);
    var k := KeyFor(workload, c, ns, |ExpectedIn(ns, targets)|);
    KeysOfMembers(workload, c, targets, strategy, k);
    RawKeysMembers(workload, components, targets, strategy, k);
    SortByKeepsMembers(RefKey, RawKeys(workload, components, targets, strategy), k);
  }

  /** Every key belongs to a component and expects at least one target. */
  lemma DesiredKeyHasComponent(workload: string, targets: seq<string>, components: seq<Component>, strategy: Strategy,
                               k: HelmOpKey)
    returns (c: Component)
    requires k in DesiredKeys(workload, targets, components, strategy)
    ensures strategy != Helm && c in components
    ensures k.expectedClusters == |ExpectedIn(k.ref.namespace, targets)| > 0
    ensures k == KeyFor(workload, c, k.ref.namespace, k.expectedClusters)
  {
    SortByKeepsMembers(RefKey, RawKeys(workload, components, targets, strategy), k);
    RawKeysMembers(workload, components, targets, strategy, k);
    c :| c in components && k in KeysOf(workload, c, targets, strategy);
    KeysOfMembers(workload, c, targets, strategy, k);
  }

  /** What a key says of its component: the HelmOp's name is the bundle name, and the
      release is named as the component asks, or after its chart. */
  lemma KeyFieldsAre(workload: string, targets: seq<string>, components: seq<Component>, strategy: Strategy,
                     k: HelmOpKey)
    returns (c: Component)
    requires k in DesiredKeys(workload, targets, components, strategy)
    ensures c in components && k.component == c.chartName
    ensures k.ref.name == TruncateDNS1123Label(workload + "-" + Slugify(c.chartName), 63)
    ensures k.release == CapReleaseName(if c.releaseName == "" then c.chartName else c.releaseName)
    ensures exists t :: t in targets && k.ref.namespace == if t == "local" then FleetLocal else FleetDefault
  {
    c := DesiredKeyHasComponent(workload, targets, components, strategy, k);
    var t := ExpectedIn(k.ref.namespace, targets)[0];
    ExpectedMembers(k.ref.namespace, targets, t);
  }

  function Sum(counts: seq<HelmOpKey>): nat
  {
    if counts == [] then 0 else counts[0].expectedClusters + Sum(counts[1..])
  }

  ghost predicate NoDuplicates<T>(s: seq<T>)
  {
    forall i, j :: 0 <= i < j < |s| ==> s[i] != s[j]
  }

  ghost function SetOf<T>(s: seq<T>): set<T>
  {
    set x | x in s
  }

  lemma {:induction false} SizeOfSet<T>(s: seq<T>)
    ensures |SetOf(s)| <= |s|
    ensures |s| == |SetOf(s)| <==> NoDuplicates(s)
  {
    if s == [] {
      assert SetOf(s) == {};
    } else {
      var front, last := s[..|s| - 1], s[|s| - 1];
      SizeOfSet(front);
      assert s == front + [last];
      assert SetOf(s) == SetOf(front) + {last};
      if NoDuplicates(s) {
        assert forall i, j :: 0 <= i < j < |front| ==> front[i] == s[i] != s[j] == front[j];
        assert last !in front;
      }
    }
  }

  lemma TargetsPartition(targets: seq<string>)
    ensures |SetOf(targets)| == |ExpectedIn(FleetLocal, targets)| + |SetOf(Downstream(targets))|
  {
    var local := if "local" in targets then {"local"} else {};
    forall t ensures t in SetOf(targets) <==> t in local + SetOf(Downstream(targets)) {
      DownstreamMembers(targets, t);
    }
    DownstreamMembers(targets, "local");
    assert SetOf(targets) == local + SetOf(Downstream(targets));
    assert local !! SetOf(Downstream(targets));
  }

  /** The clusters a component's HelmOps are expected to reach add up to the number of
      distinct targets exactly when no downstream cluster is listed twice; a second
      "local" is harmless, a second downstream entry can never be certified. */
  lemma ExpectedClustersAddUp(workload: string, c: Component, targets: seq<string>, strategy: Strategy)
    requires strategy != Helm
    ensures Sum(KeysOf(workload, c, targets, strategy)) >= |SetOf(targets)|
    ensures Sum(KeysOf(workload, c, targets, strategy)) == |SetOf(targets)| <==> NoDuplicates(Downstream(targets))
  {
    KeysNamedMembers(BundleName(workload, c.chartName), c.chartName, CapReleaseName(ComponentReleaseName(c)), targets,
                     KeyFor(workload, c, FleetLocal, 0));
    SizeOfSet(Downstream(targets));
    TargetsPartition(targets);
  }

  // Order of components and of targets

  predicate DistinctBundles(workload: string, components: seq<Component>)
  {
    forall i, j :: 0 <= i < j < |components| ==>
      BundleName(workload, components[i].chartName) != BundleName(workload, components[j].chartName)
  }

  lemma {:induction false} DownstreamLength(a: seq<string>)
    ensures |Downstream(a)| == |a| - multiset(a)["local"]
  {
    if a != [] {
      DownstreamLength(a[..|a| - 1]);
      assert a == a[..|a| - 1] + [a[|a| - 1]];
    }
  }

  lemma KeysOfForgetTargetOrder(workload: string, c: Component, a: seq<string>, b: seq<string>, strategy: Strategy)
    requires multiset(a) == multiset(b)
    ensures KeysOf(workload, c, a, strategy) == KeysOf(workload, c, b, strategy)
  {
    DownstreamLength(a);
    DownstreamLength(b);
    assert |multiset(a)| == |a| && |multiset(b)| == |b|;
    assert "local" in a <==> "local" in multiset(b);
  }

  lemma {:induction false} RawKeysForgetTargetOrder(workload: string, components: seq<Component>, a: seq<string>,
                                                    b: seq<string>, strategy: Strategy)
    requires multiset(a) == multiset(b)
    ensures RawKeys(workload, components, a, strategy) == RawKeys(workload, components, b, strategy)
  {
    if components != [] {
      RawKeysForgetTargetOrder(workload, components[..|components| - 1], a, b, strategy);
      KeysOfForgetTargetOrder(workload, components[|components| - 1], a, b, strategy);
    }
  }

  lemma NamespacesDiffer()
    ensures NamespaceName(FleetLocal) != NamespaceName(FleetDefault)
  {
  }

  lemma KeysOfShape(workload: string, c: Component, targets: seq<string>, strategy: Strategy)
    ensures forall k :: k in KeysOf(workload, c, targets, strategy) ==>
              RefKey(k)[1] == BundleName(workload, c.chartName)
    ensures DistinctKeys(RefKey, KeysOf(workload, c, targets, strategy))
  {
  }

  lemma {:induction false} RawKeysDistinct(workload: string, components: seq<Component>, targets: seq<string>,
                                           strategy: Strategy)
    requires DistinctBundles(workload, components)
    ensures DistinctKeys(RefKey, RawKeys(workload, components, targets, strategy))
  {
    if components != [] {
      var front, last := components[..|components| - 1], components[|components| - 1];
      RawKeysDistinct(workload, front, targets, strategy);
      KeysOfShape(workload, last, targets, strategy);
      var a, b := RawKeys(workload, front, targets, strategy), KeysOf(workload, last, targets, strategy);
      forall i, j | 0 <= i < |a| && 0 <= j < |b| ensures RefKey(a[i]) != RefKey(b[j]) {
        RawKeysMembers(workload, front, targets, strategy, a[i]);
        var c :| c in front && a[i] in KeysOf(workload, c, targets, strategy);
        KeysOfShape(workload, c, targets, strategy);
        assert RefKey(a[i])[1] != RefKey(b[j])[1];
      }
      DistinctAppend(RefKey, a, b);
    }
  }

  lemma DistinctAppend<T>(key: T -> Key, a: seq<T>, b: seq<T>)
    requires DistinctKeys(key, a) && DistinctKeys(key, b)
    requires forall i, j :: 0 <= i < |a| && 0 <= j < |b| ==> key(a[i]) != key(b[j])
    ensures DistinctKeys(key, a + b)
  {
  }

  /** The desired set is a function of which components and which targets are asked for,
      not of the order they are listed in. */
  lemma DesiredKeysForgetOrder(workload: string, a: seq<Component>, b: seq<Component>, s: seq<string>, t: seq<string>,
                               strategy: Strategy)
    requires DistinctBundles(workload, a)
    requires multiset(a) == multiset(b) && multiset(s) == multiset(t)
    ensures DesiredKeys(workload, s, a, strategy) == DesiredKeys(workload, t, b, strategy)
    ensures DistinctKeys(RefKey, DesiredKeys(workload, s, a, strategy))
  {
    RawKeysForgetTargetOrder(workload, b, s, t, strategy);
    FlatMapPermute(KeysFor(workload, s, strategy), a, b);
    RawKeysDistinct(workload, a, s, strategy);
    SortForgetsOrder(RefKey, RawKeys(workload, a, s, strategy), RawKeys(workload, b, s, strategy));
    SortBySorts(RefKey, RawKeys(workload, a, s, strategy));
    DistinctKeysPermute(RefKey, RawKeys(workload, a, s, strategy), DesiredKeys(workload, s, a, strategy));
  }

  /** A bundle name is a label whenever the workload's name is one with room for a
      chart: the only way to lose it is a chart name without a letter or digit that
      still fits, which leaves a trailing dash. */
  lemma BundleNameValid(workload: string, chart: string)
    requires LabelChars(workload) && workload != [] && workload[0] != '-'
    ensures IsLabel(BundleName(workload, chart)) <==>
            Slugify(chart) != [] || |workload| + 1 > LABEL_MAX
  {
    SlugifyShape(chart);
    var slug := Slugify(chart);
    JoinedName(workload, slug);
    TruncateValid(workload + "-" + slug, LABEL_MAX);
  }

  lemma JoinedName(workload: string, slug: string)
    requires LabelChars(workload) && workload != [] && workload[0] != '-' && IsSlug(slug)
    ensures LabelChars(workload + "-" + slug) && (workload + "-" + slug)[0] != '-'
    ensures |workload + "-" + slug| <= LABEL_MAX ==> (IsLabel(workload + "-" + slug) <==> slug != [])
  {
  }
}
