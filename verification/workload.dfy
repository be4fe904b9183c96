/** The AIWorkload object as its controller sees it, and the Fleet objects it reads.

    Hashes are their own preimage: an intent digest is the tuple it hashes, a render
    digest the render inputs, an aggregate digest the sorted list of entries. Two
    digests are then equal exactly when what they hash is equal. */
module Workload {
  import opened Ordering

  datatype Option<+T> = None | Some(value: T)

  datatype Strategy = Helm | FleetBundle | GitOps

  datatype BlueprintRef = BlueprintRef(name: string, version: string)

  datatype Override = Override(component: string, enabled: Option<bool>)

  datatype Spec = Spec(
    blueprint: Option<BlueprintRef>,
    targetNamespace: string,
    strategy: Strategy,
    targetClusters: seq<string>,
    displayName: string,
    overrides: seq<Override>,
    fleetBundleNames: seq<string>)

  datatype Component = Component(
    chartName: string, chartRepo: string, chartVersion: string, vendor: string,
    targetNamespace: string, releaseName: string)

  // Digests

  datatype Intent = Intent(
    blueprintName: string, blueprintVersion: string, targetNamespace: string,
    strategy: Strategy, targetClusters: seq<string>)

  datatype RenderInputs = RenderInputs(
    chartRepo: string, chartName: string, chartVersion: string, namespace: string,
    vendor: string, repoURL: string, targets: seq<string>, values: string)

  /** `NoDigest` is the empty string: an absent label, an absent map entry. */
  datatype RenderDigest = NoDigest | Render(inputs: RenderInputs)

  datatype Namespace = FleetLocal | FleetDefault

  datatype Ref = Ref(namespace: Namespace, name: string)

  datatype AggregateEntry = AggregateEntry(ref: Ref, digest: RenderDigest)

  datatype AggregateDigest = NoAggregate | Aggregate(entries: seq<AggregateEntry>)

  function BlueprintName(spec: Spec): string
  {
    if spec.blueprint.Some? then spec.blueprint.value.name else ""
  }

  function BlueprintVersion(spec: Spec): string
  {
    if spec.blueprint.Some? then spec.blueprint.value.version else ""
  }

  function IntentDigest(spec: Spec): Intent
  {
    Intent(BlueprintName(spec), BlueprintVersion(spec), spec.targetNamespace, spec.strategy,
           SortStrings(spec.targetClusters))
  }

  function PerHelmOpRenderDigest(inputs: RenderInputs): RenderDigest
  {
    Render(inputs.(targets := SortStrings(inputs.targets)))
  }

  function NamespaceName(ns: Namespace): string
  {
    match ns
    case FleetLocal => "fleet-local"
    case FleetDefault => "fleet-default"
  }

  function EntryKey(e: AggregateEntry): Key
  {
    [NamespaceName(e.ref.namespace), e.ref.name]
  }

  function AggregateRenderDigest(entries: seq<AggregateEntry>): AggregateDigest
  {
    Aggregate(SortBy(EntryKey, entries))
  }

  // Recovery operations

  datatype OpType = Upgrade | Rollback | Retry

  datatype OpState = InProgress | Succeeded | Failed | Superseded

  datatype Reason = NoReason | BlueprintDrift | TimedOut

  datatype Operation = Operation(
    opType: OpType, nonce: string, targetVersion: string, expectedDigest: AggregateDigest,
    retryEpoch: int, requestedAt: int, intent: Intent, state: OpState, reason: Reason)

  // Status

  datatype Phase = NoPhase | PhasePending | PhaseRunning | PhaseDegraded | PhaseFailed | PhaseUnknown

  datatype ClusterPhase = CellRunning | CellPending | CellFailed

  datatype Cell = Cell(
    component: string, release: string, cluster: string, phase: ClusterPhase,
    revision: string, message: string)

  datatype ClusterStatus = ClusterStatus(cluster: string, phase: ClusterPhase, message: string)

  datatype DeployedSource = DeployedSource(version: string, digest: AggregateDigest, certifiedAt: int)

  datatype RenderBaseline = RenderBaseline(
    uid: string, digest: RenderDigest, epoch: int, generation: int, fingerprint: string)

  datatype Status = Status(
    phase: Phase,
    deployedSource: Option<DeployedSource>,
    activeOperation: Option<Operation>,
    cells: seq<Cell>,
    clusters: seq<ClusterStatus>,
    baselines: seq<RenderBaseline>)

  /** The annotations the recovery machine reads and writes. An empty request is an
      absent annotation. An operation annotation that does not decode reads as none. */
  datatype Annotations = Annotations(
    upgradeRequest: string,
    rollbackRequest: string,
    retryRequest: string,
    handled: seq<string>,
    operation: Option<Operation>,
    superseded: Option<Operation>,
    retryEpoch: int)

  datatype Object = Object(name: string, createdAt: int, spec: Spec, ann: Annotations, status: Status)

  // Fleet

  datatype Bundle = Bundle(
    digestLabel: RenderDigest, generation: int, observedGeneration: int,
    unavailable: int, ready: int, desiredReady: int)

  datatype BundleDeployment = BundleDeployment(
    cluster: string, desiredId: string, appliedId: string, state: string, message: string)

  /** `fingerprint` is empty exactly when the HelmOp carries no Accepted condition. */
  datatype HelmOp = HelmOp(uid: string, generation: int, acceptedIsFalse: bool, fingerprint: string)

  /** The answer to a read: the API may fail, the object may be absent. */
  datatype Read<+T> = Unreadable | Absent | Present(value: T)

  /** The digest ignores the order in which clusters are listed and nothing else. */
  lemma IntentDigestIsCanonical(a: Spec, b: Spec)
    ensures IntentDigest(a) == IntentDigest(b) <==>
            && BlueprintName(a) == BlueprintName(b)
            && BlueprintVersion(a) == BlueprintVersion(b)
            && a.targetNamespace == b.targetNamespace
            && a.strategy == b.strategy
            && multiset(a.targetClusters) == multiset(b.targetClusters)
  {
    SortStringsForgetsOrder(a.targetClusters, b.targetClusters);
  }

  lemma RenderDigestIsCanonical(a: RenderInputs, b: RenderInputs)
    ensures PerHelmOpRenderDigest(a) == PerHelmOpRenderDigest(b) <==>
            a == b.(targets := a.targets) && multiset(a.targets) == multiset(b.targets)
  {
    SortStringsForgetsOrder(a.targets, b.targets);
  }

  lemma EntryKeyIdentifiesRef(a: AggregateEntry, b: AggregateEntry)
    ensures EntryKey(a) == EntryKey(b) <==> a.ref == b.ref
  {
  }

  /** With one entry per HelmOp, the aggregate digest is a function of the set of
      entries: it determines them, and their order does not matter. */
  lemma AggregateDigestIsCanonical(a: seq<AggregateEntry>, b: seq<AggregateEntry>)
    requires forall i, j :: 0 <= i < j < |a| ==> a[i].ref != a[j].ref
    ensures AggregateRenderDigest(a) == AggregateRenderDigest(b) <==> multiset(a) == multiset(b)
  {
    SortBySorts(EntryKey, a);
    SortBySorts(EntryKey, b);
    if multiset(a) == multiset(b) {
      forall i, j | 0 <= i < j < |a| ensures EntryKey(a[i]) != EntryKey(a[j]) {
        EntryKeyIdentifiesRef(a[i], a[j]);
      }
      SortForgetsOrder(EntryKey, a, b);
    }
  }
}
