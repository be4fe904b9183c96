/** What one settled pass over a blueprint workload proves about the fleet, down to the
    digest each component was rendered with. */
module Rendering {
  import opened Ordering
  import opened Workload
  import opened Keys
  import opened Certify
  import opened Baselines
  import opened Matrix
  import opened Phases
  import opened Operations

  lemma {:induction false} SetDigestsMeaning(digests: Digests, keys: seq<HelmOpKey>, digest: RenderDigest, ref: Ref)
    ensures DigestFor(SetDigests(digests, keys, digest), ref) ==
            if exists k :: k in keys && k.ref == ref then digest else DigestFor(digests, ref)
  {
    if keys != [] {
      var front, last := keys[..|keys| - 1], keys[|keys| - 1];
      SetDigestsMeaning(digests, front, digest, ref);
      assert keys == front + [last];
    }
  }

  function RefOf(o: Object, c: Component, t: string): Ref
  {
    Ref(NamespaceOf(t), BundleName(o.name, c.chartName))
  }

  ghost predicate Owns(o: Object, c: Component, ref: Ref)
  {
    exists k :: k in OwnKeys(o, c) && k.ref == ref
  }

  /** The HelmOps of one component are its own two and no others. */
  lemma RefsOfComponent(o: Object, c: Component, d: Component, t: string)
    requires o.spec.strategy != Helm && t in o.spec.targetClusters
    ensures Owns(o, d, RefOf(o, c, t)) <==> BundleName(o.name, c.chartName) == BundleName(o.name, d.chartName)
  {
    var targets := o.spec.targetClusters;
    var k := KeyFor(o.name, d, NamespaceOf(t), |ExpectedIn(NamespaceOf(t), targets)|);
    DesiredKeysCover(o.name, targets, [d], o.spec.strategy, d, t);
    assert k in OwnKeys(o, d);
    forall x | x in OwnKeys(o, d) ensures x.ref.name == BundleName(o.name, d.chartName) {
      var owner := DesiredKeyHasComponent(o.name, targets, [d], o.spec.strategy, x);
    }
  }

  /** The last turn of the render loop. */
  lemma LastRender(o: Object, components: seq<Component>, obs: Observation, ref: Ref)
    requires o.spec.strategy != Helm && components != [] && RenderAll(o, components, obs).Rendering?
    ensures var n := |components| - 1;
            && RenderAll(o, components[..n], obs).Rendering? && obs.render(n).Rendered?
            && DigestFor(RenderAll(o, components, obs).digests, ref) ==
               if Owns(o, components[n], ref)
               then ComponentDigest(o.spec, components[n], obs.render(n).repoURL, obs.render(n).values)
               else DigestFor(RenderAll(o, components[..n], obs).digests, ref)
  {
    var n := |components| - 1;
    var front := RenderAll(o, components[..n], obs);
    RenderOneDigests(o, components[n], obs.render(n), front.baselines, front.digests, obs, ref);
  }

  ghost predicate OwnedLast(o: Object, components: seq<Component>, i: nat, ref: Ref)
  {
    && i < |components| && Owns(o, components[i], ref)
    && forall j :: i < j < |components| ==> !Owns(o, components[j], ref)
  }

  lemma OwnedLastInFront(o: Object, components: seq<Component>, i: nat, ref: Ref)
    requires OwnedLast(o, components, i, ref) && i < |components| - 1
    ensures OwnedLast(o, components[..|components| - 1], i, ref) && !Owns(o, components[|components| - 1], ref)
  {
    var front := components[..|components| - 1];
    forall j | i < j < |front| ensures !Owns(o, front[j], ref) {
      assert front[j] == components[j];
    }
  }

  /** A HelmOp is looked for with the digest of the last component that owns it. */
  lemma {:induction false} LastRenderCounts(o: Object, components: seq<Component>, obs: Observation, i: nat, ref: Ref)
    requires o.spec.strategy != Helm && RenderAll(o, components, obs).Rendering?
    requires OwnedLast(o, components, i, ref)
    ensures obs.render(i).Rendered?
    ensures DigestFor(RenderAll(o, components, obs).digests, ref)
         == ComponentDigest(o.spec, components[i], obs.render(i).repoURL, obs.render(i).values)
  {
    var n := |components| - 1;
    LastRender(o, components, obs, ref);
    if i < n {
      OwnedLastInFront(o, components, i, ref);
      LastRenderCounts(o, components[..n], obs, i, ref);
    }
  }

  /** When the render loop gets through, every component was rendered and its HelmOps
      are looked for with the digest of its own render. */
  lemma DigestsAreTheRenders(o: Object, components: seq<Component>, obs: Observation, i: nat, t: string)
    requires o.spec.strategy != Helm && DistinctBundles(o.name, components)
    requires RenderAll(o, components, obs).Rendering?
    requires i < |components| && t in o.spec.targetClusters
    ensures obs.render(i).Rendered?
    ensures DigestFor(RenderAll(o, components, obs).digests, RefOf(o, components[i], t))
         == ComponentDigest(o.spec, components[i], obs.render(i).repoURL, obs.render(i).values)
  {
    OwnedOnce(o, components, i, t);
    LastRenderCounts(o, components, obs, i, RefOf(o, components[i], t));
  }

  lemma OwnedOnce(o: Object, components: seq<Component>, i: nat, t: string)
    requires o.spec.strategy != Helm && DistinctBundles(o.name, components)
    requires i < |components| && t in o.spec.targetClusters
    ensures OwnedLast(o, components, i, RefOf(o, components[i], t))
  {
    RefsOfComponent(o, components[i], components[i], t);
    forall j | i < j < |components| ensures !Owns(o, components[j], RefOf(o, components[i], t)) {
      RefsOfComponent(o, components[i], components[j], t);
    }
  }

  lemma RenderOneDigests(o: Object, c: Component, answer: RenderAnswer, baselines: seq<RenderBaseline>,
                         digests: Digests, obs: Observation, ref: Ref)
    requires RenderOne(o, c, answer, baselines, digests, obs).Rendering?
    ensures answer.Rendered?
    ensures DigestFor(RenderOne(o, c, answer, baselines, digests, obs).digests, ref) ==
            if Owns(o, c, ref)
            then ComponentDigest(o.spec, c, answer.repoURL, answer.values) else DigestFor(digests, ref)
  {
    if answer.Rendered? {
      var digest := ComponentDigest(o.spec, c, answer.repoURL, answer.values);
      SetDigestsMeaning(digests, OwnKeys(o, c), digest, ref);
    }
  }

  /** What the digest tells apart: everything of a component but its release name, which
      can change under a digest that stays the same. */
  lemma DigestIgnoresReleaseName(spec: Spec, c: Component, d: Component, repoURL: string, values: string)
    ensures ComponentDigest(spec, c, repoURL, values) == ComponentDigest(spec, d, repoURL, values) <==>
            && c.chartRepo == d.chartRepo && c.chartName == d.chartName && c.chartVersion == d.chartVersion
            && c.vendor == d.vendor && ComponentNamespace(spec, c) == ComponentNamespace(spec, d)
    ensures ComponentDigest(spec, c.(releaseName := d.releaseName), repoURL, values)
         == ComponentDigest(spec, c, repoURL, values)
  {
    RenderDigestIsCanonical(
      RenderInputs(c.chartRepo, c.chartName, c.chartVersion, ComponentNamespace(spec, c), c.vendor, repoURL,
                   spec.targetClusters, values),
      RenderInputs(d.chartRepo, d.chartName, d.chartVersion, ComponentNamespace(spec, d), d.vendor, repoURL,
                   spec.targetClusters, values));
  }

  /** A component's digest is of its chart, its own namespace if it has one and the
      workload's otherwise, where the chart comes from, the targets in any order, and the
      values it was given. */
  lemma DigestIsOf(spec: Spec, c: Component, repoURL: string, values: string)
    ensures ComponentDigest(spec, c, repoURL, values)
         == Render(RenderInputs(c.chartRepo, c.chartName, c.chartVersion,
                                if c.targetNamespace == "" then spec.targetNamespace else c.targetNamespace,
                                c.vendor, repoURL, SortStrings(spec.targetClusters), values))
  {
  }

  // Passes that get through the render loop

  ghost predicate GetsThrough(o: Object, obs: Observation)
  {
    o.spec.blueprint.Some? && obs.blueprint.Present? && RenderAll(o, EnabledOf(o, obs), obs).Rendering?
  }

  function DigestsOf(o: Object, obs: Observation): Digests
    requires GetsThrough(o, obs)
  {
    RenderAll(o, EnabledOf(o, obs), obs).digests
  }

  /** A pass that stops early never says Running unless the object said so before, and
      never settles saying so. */
  lemma {:induction false} StoppedIsNotRunning(o: Object, components: seq<Component>, obs: Observation)
    requires RenderAll(o, components, obs).Stopped?
    ensures EndsEarly(o, RenderAll(o, components, obs).outcome)
    decreases |components|
  {
    var n := |components| - 1;
    var front := RenderAll(o, components[..n], obs);
    if front.Stopped? {
      StoppedIsNotRunning(o, components[..n], obs);
    } else {
      OneStopIsNotRunning(o, components[n], obs.render(n), front.baselines, front.digests, obs);
    }
  }

  ghost predicate EndsEarly(o: Object, s: StatusOutcome)
  {
    && (s.result == Settled ==> s.status.phase != PhaseRunning)
    && s.status.deployedSource == o.status.deployedSource
  }

  lemma OneStopIsNotRunning(o: Object, c: Component, answer: RenderAnswer, baselines: seq<RenderBaseline>,
                            digests: Digests, obs: Observation)
    requires RenderOne(o, c, answer, baselines, digests, obs).Stopped?
    ensures EndsEarly(o, RenderOne(o, c, answer, baselines, digests, obs).outcome)
  {
  }

  /** The bundle of component `c` in the namespace of target `t` carries the digest of
      this pass's render and is observed at its own generation, and the target has a
      BundleDeployment that applied what it was asked to and is up. */
  ghost predicate UpOn(o: Object, obs: Observation, i: nat, t: string)
    requires i < |EnabledOf(o, obs)|
  {
    var c := EnabledOf(o, obs)[i];
    var r := obs.matrix(RefOf(o, c, t));
    && obs.render(i).Rendered?
    && r.bundle.Present?
    && BundleRenderCurrent(r.bundle.value, ComponentDigest(o.spec, c, obs.render(i).repoURL, obs.render(i).values))
    && r.deployments.Some?
    && exists bd :: bd in r.deployments.value && bd.cluster == t && DeploymentUp(bd)
  }

  /** A settled pass that leaves the phase Running has found every enabled component up,
      as rendered by this very pass, on every target cluster. */
  lemma SettledRunningMeansUp(o: Object, obs: Observation, i: nat, t: string)
    requires o.spec.blueprint.Some? && o.spec.strategy != Helm && DistinctBundles(o.name, EnabledOf(o, obs))
    requires BlueprintStatus(o, obs).result == Settled && BlueprintStatus(o, obs).status.phase == PhaseRunning
    requires i < |EnabledOf(o, obs)| && t in o.spec.targetClusters
    ensures UpOn(o, obs, i, t)
  {
    var components := EnabledOf(o, obs);
    RunningGotThrough(o, obs);
    DigestsAreTheRenders(o, components, obs, i, t);
    var r := RenderAll(o, components, obs);
    RunningFleet(o, r.baselines, r.digests, obs);
    RunningCoversEveryPair(o.name, components, o.spec.targetClusters, o.spec.strategy,
                           Prune(r.baselines, LiveUids(KeysOfPass(o, obs), obs.liveUid)),
                           o.ann.retryEpoch, r.digests, obs.matrix,
                           components[i], t);
  }

  lemma RunningGotThrough(o: Object, obs: Observation)
    requires o.spec.blueprint.Some?
    requires BlueprintStatus(o, obs).result == Settled && BlueprintStatus(o, obs).status.phase == PhaseRunning
    ensures GetsThrough(o, obs)
    ensures var r := RenderAll(o, EnabledOf(o, obs), obs);
            BlueprintStatus(o, obs) == FleetStatus(o, r.baselines, r.digests, obs)
  {
    if obs.blueprint.Present? && RenderAll(o, EnabledOf(o, obs), obs).Stopped? {
      StoppedIsNotRunning(o, EnabledOf(o, obs), obs);
    }
  }

  lemma RunningFleet(o: Object, baselines: seq<RenderBaseline>, digests: Digests, obs: Observation)
    requires FleetStatus(o, baselines, digests, obs).result == Settled
    requires FleetStatus(o, baselines, digests, obs).status.phase == PhaseRunning
    ensures var matrix := BuildMatrix(KeysOfPass(o, obs), o.spec.targetClusters,
                                      Prune(baselines, LiveUids(KeysOfPass(o, obs), obs.liveUid)),
                                      o.ann.retryEpoch, digests, obs.matrix);
            matrix.Some? && PhaseFromCells(matrix.value) == PhaseRunning
  {
  }

  /** A pass that certifies: every desired HelmOp's Bundle carries this pass's digest, is
      observed at its generation and is ready on exactly the clusters expected of it. */
  ghost predicate Certifies(o: Object, obs: Observation)
  {
    GetsThrough(o, obs) && AllCertified(KeysOfPass(o, obs), DigestsOf(o, obs), obs.bundleAt)
  }

  /** What is recorded as deployed changes only in a pass that certifies, and it then says
      the spec's version and the digest of exactly the desired HelmOps. */
  lemma DeployedChangesOnlyByCertifying(o: Object, obs: Observation)
    requires BlueprintStatus(o, obs).status.deployedSource != o.status.deployedSource
    ensures Certifies(o, obs)
    ensures BlueprintStatus(o, obs).status.deployedSource
         == Some(DeployedSource(BlueprintVersion(o.spec),
                                AggregateRenderDigest(EntriesOf(KeysOfPass(o, obs), DigestsOf(o, obs))), obs.now))
  {
    var r := RenderAll(o, EnabledOf(o, obs), obs);
    if r.Stopped? {
      StoppedIsNotRunning(o, EnabledOf(o, obs), obs);
    } else {
      CertificationCoversEverything(o.spec, o.status.deployedSource, KeysOfPass(o, obs), r.digests, obs.bundleAt,
                                    obs.now);
    }
  }

  /** So no component and no target is left out when a version is certified. */
  lemma CertifyingReachesEveryPair(o: Object, obs: Observation, i: nat, t: string)
    requires o.spec.strategy != Helm && DistinctBundles(o.name, EnabledOf(o, obs)) && Certifies(o, obs)
    requires i < |EnabledOf(o, obs)| && t in o.spec.targetClusters
    ensures var c := EnabledOf(o, obs)[i];
            var b := obs.bundleAt(RefOf(o, c, t));
            && obs.render(i).Rendered? && b.Present?
            && BundleRenderCurrent(b.value, ComponentDigest(o.spec, c, obs.render(i).repoURL, obs.render(i).values))
            && b.value.unavailable == 0
            && b.value.ready == b.value.desiredReady == |ExpectedIn(NamespaceOf(t), o.spec.targetClusters)|
            && t in ExpectedIn(NamespaceOf(t), o.spec.targetClusters)
  {
    var components := EnabledOf(o, obs);
    DigestsAreTheRenders(o, components, obs, i, t);
    DesiredKeysCover(o.name, o.spec.targetClusters, components, o.spec.strategy, components[i], t);
  }
}
