/** When a Fleet Bundle counts as rolled out, one cell of the (component, cluster)
    matrix, and the certification of a deployed version. */
module Certify {
  import opened Workload
  import opened Keys

  type Digests = map<Ref, RenderDigest>

  /** A missing map entry reads as the empty digest. */
  function DigestFor(digests: Digests, ref: Ref): RenderDigest
  {
    if ref in digests then digests[ref] else NoDigest
  }

  predicate BundleRenderCurrent(b: Bundle, expected: RenderDigest)
  {
    b.digestLabel == expected && b.observedGeneration == b.generation
  }

  predicate BundleCertified(b: Bundle, expected: RenderDigest, expectedClusters: int)
  {
    && expectedClusters > 0
    && BundleRenderCurrent(b, expected)
    && b.unavailable == 0
    && b.desiredReady == expectedClusters
    && b.ready == b.desiredReady
  }

  /** The BundleDeployment applied what its spec asks for and Fleet calls it up. */
  predicate DeploymentUp(bd: BundleDeployment)
  {
    bd.appliedId != "" && bd.appliedId == bd.desiredId && (bd.state == "Ready" || bd.state == "Modified")
  }

  function MatrixCellPhase(bd: BundleDeployment, parentRenderCurrent: bool): (p: ClusterPhase)
    ensures p == CellRunning <==> parentRenderCurrent && DeploymentUp(bd)
    ensures p == CellFailed ==> parentRenderCurrent && bd.appliedId == bd.desiredId != "" && bd.state == "ErrApplied"
  {
    if !parentRenderCurrent then CellPending
    else if bd.appliedId == "" || bd.appliedId != bd.desiredId then CellPending
    else if bd.state == "Ready" || bd.state == "Modified" then CellRunning
    else if bd.state == "ErrApplied" then CellFailed
    else CellPending
  }

  datatype Verdict = ReadFailed | NotCertified | Certified(entries: seq<AggregateEntry>)

  function CertifyKey(k: HelmOpKey, digests: Digests, bundle: Read<Bundle>): Verdict
  {
    match bundle
    case Unreadable => ReadFailed
    case Absent => NotCertified
    case Present(b) =>
      if BundleCertified(b, DigestFor(digests, k.ref), k.expectedClusters)
      then Certified([AggregateEntry(k.ref, DigestFor(digests, k.ref))]) else NotCertified
  }

  /** The loop over the keys: the first key that is not certified ends it. */
  function CertifyKeys(keys: seq<HelmOpKey>, digests: Digests, bundleAt: Ref -> Read<Bundle>): Verdict
  {
    if keys == [] then Certified([])
    else
      var front := CertifyKeys(keys[..|keys| - 1], digests, bundleAt);
      if !front.Certified? then front
      else
        var last := CertifyKey(keys[|keys| - 1], digests, bundleAt(keys[|keys| - 1].ref));
        if last.Certified? then Certified(front.entries + last.entries) else last
  }

  /** What `certifyDeployedSource` leaves in `status.deployedSource`, and whether every
      read it made was answered. */
  function CertifiedSource(spec: Spec, deployed: Option<DeployedSource>, keys: seq<HelmOpKey>, digests: Digests,
                           bundleAt: Ref -> Read<Bundle>, now: int): (Option<DeployedSource>, bool)
  {
    if |keys| == 0 then (deployed, true)
    else
      match CertifyKeys(keys, digests, bundleAt)
      case ReadFailed => (deployed, false)
      case NotCertified => (deployed, true)
      case Certified(entries) =>
        var digest := AggregateRenderDigest(entries);
        if deployed.Some? && deployed.value.version == BlueprintVersion(spec) && deployed.value.digest == digest
        then (deployed, true)
        else (Some(DeployedSource(BlueprintVersion(spec), digest, now)), true)
  }

  /** Every desired HelmOp's Bundle carries this pass's digest, is observed at its own
      generation and is ready on exactly the clusters it should be. */
  ghost predicate AllCertified(keys: seq<HelmOpKey>, digests: Digests, bundleAt: Ref -> Read<Bundle>)
  {
    && keys != []
    && forall k :: k in keys ==> KeyCertified(k, digests, bundleAt)
  }

  function EntriesOf(keys: seq<HelmOpKey>, digests: Digests): seq<AggregateEntry>
  {
    if keys == [] then []
    else
      var k := keys[|keys| - 1];
      EntriesOf(keys[..|keys| - 1], digests) + [AggregateEntry(k.ref, DigestFor(digests, k.ref))]
  }

  ghost predicate KeyCertified(k: HelmOpKey, digests: Digests, bundleAt: Ref -> Read<Bundle>)
  {
    && bundleAt(k.ref).Present?
    && BundleCertified(bundleAt(k.ref).value, DigestFor(digests, k.ref), k.expectedClusters)
  }

  lemma {:induction false} CertifyKeysMeaning(keys: seq<HelmOpKey>, digests: Digests, bundleAt: Ref -> Read<Bundle>)
    ensures CertifyKeys(keys, digests, bundleAt).Certified? <==>
            forall i :: 0 <= i < |keys| ==> KeyCertified(keys[i], digests, bundleAt)
    ensures CertifyKeys(keys, digests, bundleAt).Certified? ==>
              CertifyKeys(keys, digests, bundleAt).entries == EntriesOf(keys, digests)
  {
    if keys != [] {
      CertifyKeysMeaning(keys[..|keys| - 1], digests, bundleAt);
    }
  }

  /** The deployed version changes exactly when there is something to deploy, all of it
      is certified, and the record does not say so already; it then records the spec's
      version and the aggregate of exactly the desired HelmOps. */
  lemma CertificationCoversEverything(spec: Spec, deployed: Option<DeployedSource>, keys: seq<HelmOpKey>,
                                      digests: Digests, bundleAt: Ref -> Read<Bundle>, now: int)
    ensures var r := CertifiedSource(spec, deployed, keys, digests, bundleAt, now);
            var target := DeployedSource(BlueprintVersion(spec), AggregateRenderDigest(EntriesOf(keys, digests)), now);
            && (AllCertified(keys, digests, bundleAt) ==>
                  r.1 && r.0.Some? && r.0.value.(certifiedAt := now) == target
                  && (r.0 != deployed ==> r.0 == Some(target)))
            && (!AllCertified(keys, digests, bundleAt) ==> r.0 == deployed)
            && (r.0 == deployed && AllCertified(keys, digests, bundleAt) ==>
                  deployed.Some? && deployed.value.(certifiedAt := now) == target)
  {
    CertifyKeysMeaning(keys, digests, bundleAt);
  }

  /** Listing components or targets in another order certifies the same version with
      the same aggregate digest. */
  lemma CertificationForgetsOrder(workload: string, spec: Spec, deployed: Option<DeployedSource>, a: seq<Component>,
                                  b: seq<Component>, s: seq<string>, t: seq<string>, digests: Digests,
                                  bundleAt: Ref -> Read<Bundle>, now: int)
    requires DistinctBundles(workload, a) && multiset(a) == multiset(b) && multiset(s) == multiset(t)
    ensures CertifiedSource(spec, deployed, DesiredKeys(workload, s, a, spec.strategy), digests, bundleAt, now)
         == CertifiedSource(spec, deployed, DesiredKeys(workload, t, b, spec.strategy), digests, bundleAt, now)
  {
    DesiredKeysForgetOrder(workload, a, b, s, t, spec.strategy);
  }

  /** A certified pass leaves no (component, target) pair out: the Bundle that serves
      it carries the digest this pass rendered and is ready on all of the clusters its
      HelmOp is responsible for. */
  lemma CertifiedMeansRolledOut(workload: string, components: seq<Component>, targets: seq<string>, strategy: Strategy,
                                digests: Digests, bundleAt: Ref -> Read<Bundle>, c: Component, t: string)
    requires strategy != Helm && c in components && t in targets
    requires AllCertified(DesiredKeys(workload, targets, components, strategy), digests, bundleAt)
    ensures var ref := Ref(NamespaceOf(t), BundleName(workload, c.chartName));
            && bundleAt(ref).Present?
            && BundleRenderCurrent(bundleAt(ref).value, DigestFor(digests, ref))
            && bundleAt(ref).value.ready == bundleAt(ref).value.desiredReady == |ExpectedIn(NamespaceOf(t), targets)|
            && t in ExpectedIn(NamespaceOf(t), targets)
  {
    DesiredKeysCover(workload, targets, components, strategy, c, t);
  }
}
