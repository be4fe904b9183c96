/** What one status pass over a blueprint workload makes of its answers: how the render
    loop ends, what is observed, and what the fleet steps leave in the status. */
module StatusPass {
  import opened Ordering
  import opened Workload
  import opened Keys
  import opened Certify
  import opened Baselines
  import opened Matrix
  import opened Phases
  import opened Operations
  import opened Runs
  import opened Rendering
  import opened BaselineRuns
  import opened Success
  import opened Failures

  // Which components, and which of their HelmOps

  /** The first override that names a chart decides; it disables by saying so. */
  ghost predicate Disabled(overrides: seq<Override>, chart: string)
  {
    exists i :: && 0 <= i < |overrides| && overrides[i] == Override(chart, Some(false))
                && forall j :: 0 <= j < i ==> overrides[j].component != chart
  }

  lemma {:induction false} DisabledMeans(overrides: seq<Override>, chart: string)
    ensures ComponentEnabled(overrides, chart) <==> !Disabled(overrides, chart)
  {
    if overrides != [] {
      var rest := overrides[1..];
      DisabledMeans(rest, chart);
      if overrides[0].component != chart {
        if Disabled(rest, chart) {
          var i :| 0 <= i < |rest| && rest[i] == Override(chart, Some(false))
                   && forall j :: 0 <= j < i ==> rest[j].component != chart;
          assert overrides[i + 1] == Override(chart, Some(false));
          assert forall j :: 0 < j < i + 1 ==> overrides[j] == rest[j - 1];
        }
        if i :| 0 <= i < |overrides| && overrides[i] == Override(chart, Some(false))
                && forall j :: 0 <= j < i ==> overrides[j].component != chart {
          assert rest[i - 1] == Override(chart, Some(false));
          assert forall j :: 0 <= j < i - 1 ==> rest[j] == overrides[j + 1];
        }
      } else {
        assert overrides[0] == Override(chart, overrides[0].enabled);
      }
    }
  }

  /** The enabled components are those not disabled, each as often and in the order the
      blueprint lists them. */
  lemma EnabledAre(overrides: seq<Override>, components: seq<Component>, c: Component)
    ensures EnabledComponents(overrides, []) == []
    ensures EnabledComponents(overrides, components + [c])
         == EnabledComponents(overrides, components) + if Disabled(overrides, c.chartName) then [] else [c]
  {
    DisabledMeans(overrides, c.chartName);
    assert (components + [c])[..|components|] == components;
  }

  lemma {:induction false} EnabledMembers(overrides: seq<Override>, components: seq<Component>, c: Component)
    ensures c in EnabledComponents(overrides, components) <==> c in components && !Disabled(overrides, c.chartName)
  {
    if components != [] {
      var front, last := components[..|components| - 1], components[|components| - 1];
      EnabledMembers(overrides, front, c);
      DisabledMeans(overrides, last.chartName);
      assert components == front + [last];
    }
  }

  ghost predicate Wanted(o: Object, components: seq<Component>, ref: Ref)
  {
    exists c, t :: && c in components && !Disabled(o.spec.overrides, c.chartName)
                   && t in o.spec.targetClusters && ref == RefOf(o, c, t)
  }

  ghost predicate Keyed(o: Object, obs: Observation, ref: Ref)
  {
    exists k :: k in KeysOfPass(o, obs) && k.ref == ref
  }

  /** A disabled component has no HelmOp, unless it shares its bundle name with an enabled
      one; an enabled one has a HelmOp wherever it has a target. */
  lemma DesiredRefs(o: Object, obs: Observation, ref: Ref)
    requires obs.blueprint.Present?
    ensures Keyed(o, obs, ref) <==> o.spec.strategy != Helm && Wanted(o, obs.blueprint.value, ref)
  {
    if Keyed(o, obs, ref) { KeyedIsWanted(o, obs, ref); }
    if o.spec.strategy != Helm && Wanted(o, obs.blueprint.value, ref) { WantedIsKeyed(o, obs, ref); }
  }

  lemma KeyedIsWanted(o: Object, obs: Observation, ref: Ref)
    requires obs.blueprint.Present? && Keyed(o, obs, ref)
    ensures o.spec.strategy != Helm && Wanted(o, obs.blueprint.value, ref)
  {
    var k :| k in KeysOfPass(o, obs) && k.ref == ref;
    var c := DesiredKeyHasComponent(o.name, o.spec.targetClusters, EnabledOf(o, obs), o.spec.strategy, k);
    EnabledMembers(o.spec.overrides, obs.blueprint.value, c);
    var t := ExpectedIn(k.ref.namespace, o.spec.targetClusters)[0];
    ExpectedMembers(k.ref.namespace, o.spec.targetClusters, t);
    assert ref == RefOf(o, c, t);
  }

  lemma WantedIsKeyed(o: Object, obs: Observation, ref: Ref)
    requires obs.blueprint.Present? && o.spec.strategy != Helm && Wanted(o, obs.blueprint.value, ref)
    ensures Keyed(o, obs, ref)
  {
    var c, t :| && c in obs.blueprint.value && !Disabled(o.spec.overrides, c.chartName)
                && t in o.spec.targetClusters && ref == RefOf(o, c, t);
    EnabledMembers(o.spec.overrides, obs.blueprint.value, c);
    DesiredKeysCover(o.name, o.spec.targetClusters, EnabledOf(o, obs), o.spec.strategy, c, t);
    assert KeyFor(o.name, c, NamespaceOf(t), CountIn(o, NamespaceOf(t))).ref == ref;
  }

  /** The HelmOps looked at after a component was rendered: one for each namespace that
      has a target. */
  lemma PatchedRefs(o: Object, c: Component, k: HelmOpKey)
    requires o.spec.strategy != Helm
    ensures k in PatchedKeys(o, c) <==> k in OwnKeys(o, c)
    ensures k in PatchedKeys(o, c) <==>
            exists t :: t in o.spec.targetClusters && k == KeyFor(o.name, c, NamespaceOf(t), CountIn(o, NamespaceOf(t)))
  {
    var targets, raw := o.spec.targetClusters, RawKeys(o.name, [c], o.spec.targetClusters, o.spec.strategy);
    SortByKeepsMembers(RefKey, raw, k);
    RawKeysMembers(o.name, [c], targets, o.spec.strategy, k);
    KeysOfMembers(o.name, c, targets, o.spec.strategy, k);
    assert forall d :: d in [c] <==> d == c;
    if k in KeysOf(o.name, c, targets, o.spec.strategy) {
      var t := ExpectedIn(k.ref.namespace, targets)[0];
      ExpectedMembers(k.ref.namespace, targets, t);
      assert t in targets && k == KeyFor(o.name, c, NamespaceOf(t), CountIn(o, NamespaceOf(t)));
    }
    if t :| t in targets && k == KeyFor(o.name, c, NamespaceOf(t), CountIn(o, NamespaceOf(t))) {
      ExpectedMembers(NamespaceOf(t), targets, t);
    }
  }

  function InNamespace(o: Object, c: Component, ns: Namespace): seq<HelmOpKey>
  {
    if CountIn(o, ns) == 0 then [] else [KeyFor(o.name, c, ns, CountIn(o, ns))]
  }

  /** They are looked at in order of their namespaces when git delivers them, and else the
      local one first, as they are made. */
  lemma PatchedOrder(o: Object, c: Component)
    requires o.spec.strategy != Helm
    ensures PatchedKeys(o, c)
         == if o.spec.strategy == GitOps then InNamespace(o, c, FleetDefault) + InNamespace(o, c, FleetLocal)
            else InNamespace(o, c, FleetLocal) + InNamespace(o, c, FleetDefault)
  {
    var targets, local, rest := o.spec.targetClusters, InNamespace(o, c, FleetLocal), InNamespace(o, c, FleetDefault);
    FlatMapOne(KeysFor(o.name, targets, o.spec.strategy), c);
    assert KeysOf(o.name, c, targets, o.spec.strategy) == local + rest;
    assert RawKeys(o.name, [c], targets, o.spec.strategy) == local + rest;
    SortedParts(local, rest);
  }

  lemma SortedParts(local: seq<HelmOpKey>, rest: seq<HelmOpKey>)
    requires |local| <= 1 && |rest| <= 1
    requires forall k :: k in local ==> k.ref.namespace == FleetLocal
    requires forall k :: k in rest ==> k.ref.namespace == FleetDefault
    ensures SortBy(RefKey, local + rest) == rest + local
  {
    var keys := local + rest;
    if |keys| == 2 {
      DefaultComesFirst(local[0], rest[0]);
      assert keys[1..] == rest && rest[1..] == [];
      assert SortBy(RefKey, rest) == Insert(RefKey, rest[0], []) == rest;
      assert Insert(RefKey, local[0], rest) == [rest[0]] + Insert(RefKey, local[0], rest[1..]);
    } else if |keys| == 1 {
      assert keys[1..] == [];
    }
  }

  lemma DefaultComesFirst(a: HelmOpKey, b: HelmOpKey)
    requires a.ref.namespace == FleetLocal && b.ref.namespace == FleetDefault
    ensures !KeyLe(RefKey(a), RefKey(b))
  {
    var local, default := "local", "default";
    assert "fleet-local" == "fleet-" + local && "fleet-default" == "fleet-" + default;
    SamePrefix("fleet-", local, default);
    assert local[0] > default[0];
    assert RefKey(a)[0] == "fleet-" + local && RefKey(b)[0] == "fleet-" + default;
  }

  lemma {:induction false} SamePrefix(p: string, a: string, b: string)
    ensures StrLe(p + a, p + b) <==> StrLe(a, b)
  {
    if p == "" {
      assert p + a == a && p + b == b;
    } else {
      SamePrefix(p[1..], a, b);
      assert (p + a)[1..] == p[1..] + a && (p + b)[1..] == p[1..] + b;
    }
  }

  function CountIn(o: Object, ns: Namespace): nat
  {
    |ExpectedIn(ns, o.spec.targetClusters)|
  }

  /** Every HelmOp of the component can be read, on the local and on the downstream side. */
  ghost predicate Legible(o: Object, c: Component, obs: Observation)
  {
    forall t :: t in o.spec.targetClusters ==> !obs.helmOp(RefOf(o, c, t)).Unreadable?
  }

  lemma LegibleMeans(o: Object, c: Component, obs: Observation)
    requires o.spec.strategy != Helm
    ensures Readable(PatchedKeys(o, c), obs.helmOp) <==> Legible(o, c, obs)
  {
    var keys := PatchedKeys(o, c);
    if Legible(o, c, obs) {
      forall i | 0 <= i < |keys| ensures !obs.helmOp(keys[i].ref).Unreadable? {
        PatchedRefs(o, c, keys[i]);
        var t :| t in o.spec.targetClusters && keys[i] == KeyFor(o.name, c, NamespaceOf(t), CountIn(o, NamespaceOf(t)));
        assert keys[i].ref == RefOf(o, c, t);
      }
    }
    if Readable(keys, obs.helmOp) {
      forall t | t in o.spec.targetClusters ensures !obs.helmOp(RefOf(o, c, t)).Unreadable? {
        var k := KeyFor(o.name, c, NamespaceOf(t), CountIn(o, NamespaceOf(t)));
        PatchedRefs(o, c, k);
        assert k in keys;
      }
    }
  }

  lemma {:induction false} KeyStepsMembers(keys: seq<HelmOpKey>, digest: RenderDigest, epoch: int,
                                           helmOp: Ref -> Read<HelmOp>, step: BaselineStep)
    requires Readable(keys, helmOp)
    ensures step in KeySteps(keys, digest, epoch, helmOp) <==>
            exists k :: k in keys && helmOp(k.ref).Present? && step == ObservedAs(helmOp(k.ref).value, digest, epoch)
  {
    if keys != [] {
      var front, k := keys[..|keys| - 1], keys[|keys| - 1];
      KeyStepsMembers(front, digest, epoch, helmOp, step);
      assert keys == front + [k];
    }
  }

  function ObservedAs(ho: HelmOp, digest: RenderDigest, epoch: int): BaselineStep
  {
    Observe(RenderBaseline(ho.uid, digest, epoch, ho.generation, ho.fingerprint))
  }

  /** Rendering a component observes each of its HelmOps that is there, at the digest of
      this render and the current epoch, and nothing else. */
  lemma EveryHelmOpIsObserved(o: Object, c: Component, answer: RenderAnswer, obs: Observation, step: BaselineStep)
    requires o.spec.strategy != Helm && answer.Rendered? && Legible(o, c, obs)
    ensures step in StepsOf(o, c, answer, obs) <==>
            exists t :: && t in o.spec.targetClusters && obs.helmOp(RefOf(o, c, t)).Present?
                        && step == ObservedAs(obs.helmOp(RefOf(o, c, t)).value,
                                              ComponentDigest(o.spec, c, answer.repoURL, answer.values),
                                              o.ann.retryEpoch)
  {
    var keys, digest := PatchedKeys(o, c), ComponentDigest(o.spec, c, answer.repoURL, answer.values);
    LegibleMeans(o, c, obs);
    KeyStepsMembers(keys, digest, o.ann.retryEpoch, obs.helmOp, step);
    if k :| k in keys && obs.helmOp(k.ref).Present?
            && step == ObservedAs(obs.helmOp(k.ref).value, digest, o.ann.retryEpoch) {
      PatchedRefs(o, c, k);
      var t :| t in o.spec.targetClusters && k == KeyFor(o.name, c, NamespaceOf(t), CountIn(o, NamespaceOf(t)));
      assert k.ref == RefOf(o, c, t);
    }
    if t :| && t in o.spec.targetClusters && obs.helmOp(RefOf(o, c, t)).Present?
            && step == ObservedAs(obs.helmOp(RefOf(o, c, t)).value, digest, o.ann.retryEpoch) {
      var k := KeyFor(o.name, c, NamespaceOf(t), CountIn(o, NamespaceOf(t)));
      PatchedRefs(o, c, k);
      assert k in keys && k.ref == RefOf(o, c, t);
    }
  }

  // How the render loop ends

  /** Component `i` was rendered and everything of it could be read. */
  ghost predicate Fine(o: Object, components: seq<Component>, obs: Observation, i: nat)
    requires i < |components|
  {
    obs.render(i).Rendered? && Legible(o, components[i], obs)
  }

  ghost predicate FineBefore(o: Object, components: seq<Component>, obs: Observation, n: nat)
    requires n <= |components|
  {
    forall i: nat :: i < n ==> Fine(o, components, obs, i)
  }

  /** What a pass makes of the first component it cannot get past: only a chart that is
      too large is settled, what may come right by itself is looked at again, and the
      rest is an error. It shows Failed, as far as the grace period lets it, but for
      HelmOps that git delivers. */
  ghost predicate StoppedBy(o: Object, answer: RenderAnswer, obs: Observation, s: StatusOutcome)
  {
    && s.result == (match answer
                    case Rendered(_, _, _) => Errored
                    case RenderFailed => Errored
                    case ChartTooLarge => Settled
                    case CatalogNotConfigured => Requeued
                    case TokenRejected => Requeued
                    case RepoNotReady => Requeued)
    && s.status == o.status.(baselines := s.status.baselines, phase := s.status.phase)
    && s.status.phase == if answer.Rendered? && o.spec.strategy == GitOps then o.status.phase
                         else GuardPhaseTransition(PhaseFailed, o.status.phase, o.createdAt, obs.now)
  }

  lemma OneTurn(o: Object, c: Component, answer: RenderAnswer, baselines: seq<RenderBaseline>,
                digests: map<Ref, RenderDigest>, obs: Observation)
    requires o.spec.strategy != Helm
    ensures var r := RenderOne(o, c, answer, baselines, digests, obs);
            && (r.Rendering? <==> answer.Rendered? && Legible(o, c, obs))
            && (r.Stopped? ==> StoppedBy(o, answer, obs, r.outcome))
  {
    LegibleMeans(o, c, obs);
    if answer.Rendered? {
      var held := if Forgets(o, answer) then o.status.baselines else baselines;
      RecordingIsSteps(PatchedKeys(o, c), held, ComponentDigest(o.spec, c, answer.repoURL, answer.values),
                       o.ann.retryEpoch, obs.helmOp);
    }
  }

  /** The loop gets through exactly when every component is fine, and it ends at the first
      that is not. */
  lemma {:induction false} LoopEnds(o: Object, components: seq<Component>, obs: Observation)
    requires o.spec.strategy != Helm
    ensures RenderAll(o, components, obs).Rendering? <==> FineBefore(o, components, obs, |components|)
    ensures RenderAll(o, components, obs).Stopped? ==>
              exists i :: 0 <= i < |components| && StopsAt(o, components, obs, i, RenderAll(o, components, obs).outcome)
    decreases |components|
  {
    if components != [] {
      var n := |components| - 1;
      var front := RenderAll(o, components[..n], obs);
      LoopEnds(o, components[..n], obs);
      FineInFront(o, components, obs, n);
      if front.Stopped? {
        var i :| 0 <= i < n && StopsAt(o, components[..n], obs, i, front.outcome);
        FineInFront(o, components, obs, i);
        assert StopsAt(o, components, obs, i, front.outcome);
      } else {
        OneTurn(o, components[n], obs.render(n), front.baselines, front.digests, obs);
        if RenderAll(o, components, obs).Stopped? {
          assert StopsAt(o, components, obs, n, RenderAll(o, components, obs).outcome);
        }
      }
      assert FineBefore(o, components, obs, n + 1) <==>
             FineBefore(o, components, obs, n) && Fine(o, components, obs, n);
    }
  }

  ghost predicate StopsAt(o: Object, components: seq<Component>, obs: Observation, i: nat, s: StatusOutcome)
    requires i < |components|
  {
    FineBefore(o, components, obs, i) && !Fine(o, components, obs, i) && StoppedBy(o, obs.render(i), obs, s)
  }

  lemma FineInFront(o: Object, components: seq<Component>, obs: Observation, n: nat)
    requires n < |components|
    ensures FineBefore(o, components[..|components| - 1], obs, n) <==> FineBefore(o, components, obs, n)
    ensures n < |components| - 1 ==>
              (Fine(o, components[..|components| - 1], obs, n) <==> Fine(o, components, obs, n))
  {
    var front := components[..|components| - 1];
    if FineBefore(o, front, obs, n) {
      forall i: nat | i < n ensures Fine(o, components, obs, i) { assert Fine(o, front, obs, i); }
    }
    if FineBefore(o, components, obs, n) {
      forall i: nat | i < n ensures Fine(o, front, obs, i) { assert Fine(o, components, obs, i); }
    }
  }

  // The fleet steps

  /** The Bundle of a desired HelmOp is rolled out: it carries the digest and is observed at
      its own generation, and it is ready on just as many clusters as it should be. */
  ghost predicate RolledOut(k: HelmOpKey, digests: Digests, bundle: Read<Bundle>)
  {
    && bundle.Present?
    && bundle.value.digestLabel == (if k.ref in digests then digests[k.ref] else NoDigest)
    && bundle.value.observedGeneration == bundle.value.generation
    && bundle.value.unavailable == 0
    && bundle.value.ready == bundle.value.desiredReady == k.expectedClusters && k.expectedClusters > 0
  }

  ghost predicate RolledOutBefore(keys: seq<HelmOpKey>, digests: Digests, bundleAt: Ref -> Read<Bundle>, n: nat)
    requires n <= |keys|
  {
    forall i :: 0 <= i < n ==> RolledOut(keys[i], digests, bundleAt(keys[i].ref))
  }

  /** A read fails while everything before it is rolled out, so it has to be made. */
  ghost predicate ReadBreaks(keys: seq<HelmOpKey>, digests: Digests, bundleAt: Ref -> Read<Bundle>)
  {
    exists i :: 0 <= i < |keys| && bundleAt(keys[i].ref).Unreadable? && RolledOutBefore(keys, digests, bundleAt, i)
  }

  lemma {:induction false} CertifyingLoop(keys: seq<HelmOpKey>, digests: Digests, bundleAt: Ref -> Read<Bundle>)
    ensures var v := CertifyKeys(keys, digests, bundleAt);
            && (v.Certified? <==> RolledOutBefore(keys, digests, bundleAt, |keys|))
            && (v.ReadFailed? <==> ReadBreaks(keys, digests, bundleAt))
            && (v.Certified? ==> v.entries == seq(|keys|, i requires 0 <= i < |keys| => EntryOf(keys[i], digests)))
  {
    if keys != [] {
      var n := |keys| - 1;
      var front := keys[..n];
      CertifyingLoop(front, digests, bundleAt);
      assert RolledOutBefore(keys, digests, bundleAt, n) <==> RolledOutBefore(front, digests, bundleAt, n);
      if ReadBreaks(front, digests, bundleAt) {
        var i :| 0 <= i < n && bundleAt(front[i].ref).Unreadable? && RolledOutBefore(front, digests, bundleAt, i);
        assert RolledOutBefore(keys, digests, bundleAt, i) && keys[i] == front[i];
      }
      if i :| 0 <= i < |keys| && bundleAt(keys[i].ref).Unreadable? && RolledOutBefore(keys, digests, bundleAt, i) {
        if i < n { assert RolledOutBefore(front, digests, bundleAt, i) && front[i] == keys[i]; }
      }
    }
  }

  function EntryOf(k: HelmOpKey, digests: Digests): AggregateEntry
  {
    AggregateEntry(k.ref, if k.ref in digests then digests[k.ref] else NoDigest)
  }

  /** The digest of a deployed version: what was rendered, HelmOp by HelmOp. */
  function DeployedDigest(keys: seq<HelmOpKey>, digests: Digests): AggregateDigest
  {
    AggregateRenderDigest(seq(|keys|, i requires 0 <= i < |keys| => EntryOf(keys[i], digests)))
  }

  ghost predicate AllRolledOut(o: Object, obs: Observation)
    requires GetsThrough(o, obs)
  {
    KeysOfPass(o, obs) != []
    && RolledOutBefore(KeysOfPass(o, obs), DigestsOf(o, obs), obs.bundleAt, |KeysOfPass(o, obs)|)
  }

  /** What a pass that builds a matrix leaves. The spec's version is on record afterwards
      if and only if every desired HelmOp is rolled out or it was on record before, and
      the record is new only when it says something new. The phase is the guarded verdict
      on the cells. The pass settles if and only if every read was answered up to the
      first HelmOp that is not rolled out, and the customisation could be told. */
  lemma FleetPassIs(o: Object, obs: Observation)
    requires Builds(o, obs)
    ensures var s := BlueprintStatus(o, obs);
            var keys, cells := KeysOfPass(o, obs), MatrixOf(o, obs).value;
            var before, target := o.status.deployedSource, DeployedDigest(keys, DigestsOf(o, obs));
            var version := if o.spec.blueprint.Some? then o.spec.blueprint.value.version else "";
            && s.status.cells == cells && s.status.clusters == AggregateClusters(cells)
            && s.status.phase == GuardPhaseTransition(PhaseFromCells(cells), o.status.phase, o.createdAt, obs.now)
            && s.status.baselines == BaselinesIn(o, obs) && s.status.activeOperation == o.status.activeOperation
            && s.status.deployedSource
               == (if !AllRolledOut(o, obs) then before
                   else if before.Some? && before.value.version == version && before.value.digest == target then before
                   else Some(DeployedSource(version, target, obs.now)))
            && (s.result == Settled <==>
                  obs.customizedOk && !ReadBreaks(keys, DigestsOf(o, obs), obs.bundleAt))
            && (s.result == Settled || s.result == Errored)
  {
    CertifyingLoop(KeysOfPass(o, obs), DigestsOf(o, obs), obs.bundleAt);
  }

  /** The other passes: what cannot be told is an error, a blueprint that is gone shows
      Failed and is settled, and a loop that ends early ends as its component says. */
  lemma OtherPasses(o: Object, obs: Observation)
    requires o.spec.blueprint.Some? && !Builds(o, obs)
    ensures var s := BlueprintStatus(o, obs);
            && s.status == o.status.(phase := s.status.phase, baselines := s.status.baselines)
            && (obs.blueprint.Unreadable? || GetsThrough(o, obs) ==>
                  s.result == Errored && s.status.phase == o.status.phase)
            && (obs.blueprint.Absent? ==>
                  && s.result == Settled && s.status.baselines == o.status.baselines
                  && s.status.phase == GuardPhaseTransition(PhaseFailed, o.status.phase, o.createdAt, obs.now))
            && (obs.blueprint.Present? && !GetsThrough(o, obs) ==>
                  exists i :: 0 <= i < |EnabledOf(o, obs)| && StopsAt(o, EnabledOf(o, obs), obs, i, s))
  {
    if obs.blueprint.Present? && o.spec.strategy != Helm {
      LoopEnds(o, EnabledOf(o, obs), obs);
    }
  }

  /** A pass gets through the loop exactly when every enabled component was rendered and
      all its HelmOps could be read; a plain Helm workload has no loop. */
  lemma ThroughMeans(o: Object, obs: Observation)
    ensures GetsThrough(o, obs) <==>
            && o.spec.blueprint.Some? && obs.blueprint.Present?
            && (o.spec.strategy == Helm || FineBefore(o, EnabledOf(o, obs), obs, |EnabledOf(o, obs)|))
  {
    if o.spec.strategy != Helm && obs.blueprint.Present? {
      LoopEnds(o, EnabledOf(o, obs), obs);
    }
  }
}
