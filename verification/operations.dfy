/** The recovery-operation machine: what a request turns into, how an operation in
    flight is decided, and what one pass of the controller writes. */
module Operations {
  import opened Workload
  import opened Keys
  import opened Certify
  import opened Matrix
  import opened Baselines
  import opened Phases

  const MAX_HANDLED := 8
  const DEADLINE := 30 * MINUTE

  // The journal

  function TypeName(t: OpType): string
  {
    match t
    case Upgrade => "Upgrade"
    case Rollback => "Rollback"
    case Retry => "Retry"
  }

  function HandledId(t: OpType, nonce: string): string
  {
    TypeName(t) + "|" + nonce
  }

  function AddHandled(existing: seq<string>, id: string): seq<string>
  {
    if id in existing then existing
    else
      var out := existing + [id];
      if |out| > MAX_HANDLED then out[|out| - MAX_HANDLED..] else out
  }

  /** `strings.SplitN(v, "|", 2)`: the nonce, and the target or nothing. */
  function SplitRequest(v: string): (string, string)
  {
    if v == [] then ([], [])
    else if v[0] == '|' then ([], v[1..])
    else
      var rest := SplitRequest(v[1..]);
      ([v[0]] + rest.0, rest.1)
  }

  /** Times are written to annotations at a resolution of one second. */
  function StoredTime(now: int): int
  {
    now / SECOND * SECOND
  }

  // Triggers

  datatype Decision =
    | NoTrigger
    | SkipRollback(nonce: string)
    | StartVersion(opType: OpType, nonce: string, target: string, expectedDigest: AggregateDigest)
    | StartRetry(nonce: string)

  /** The upgrade request is looked at first, and a request that was handled already
      ends the search: nothing behind it is looked at. */
  function Decide(o: Object): Decision
  {
    if o.ann.upgradeRequest != "" then
      var (nonce, target) := SplitRequest(o.ann.upgradeRequest);
      if HandledId(Upgrade, nonce) in o.ann.handled then NoTrigger
      else if target == BlueprintVersion(o.spec) then StartRetry(nonce)
      else StartVersion(Upgrade, nonce, target, NoAggregate)
    else if o.ann.rollbackRequest != "" then
      var nonce := o.ann.rollbackRequest;
      var deployed := o.status.deployedSource;
      if HandledId(Rollback, nonce) in o.ann.handled then NoTrigger
      else if deployed.None? || (o.spec.blueprint.Some? && deployed.value.version == BlueprintVersion(o.spec)) then
        SkipRollback(nonce)
      else StartVersion(Rollback, nonce, deployed.value.version, deployed.value.digest)
    else if o.ann.retryRequest != "" then
      if HandledId(Retry, o.ann.retryRequest) in o.ann.handled then NoTrigger
      else StartRetry(o.ann.retryRequest)
    else NoTrigger
  }

  function WithoutRequest(ann: Annotations, request: OpType): Annotations
  {
    match request
    case Upgrade => ann.(upgradeRequest := "")
    case Rollback => ann.(rollbackRequest := "")
    case Retry => ann.(retryRequest := "")
  }

  function WithVersion(spec: Spec, version: string): Spec
  {
    if spec.blueprint.Some? then spec.(blueprint := Some(spec.blueprint.value.(version := version))) else spec
  }

  /** The one Update a trigger ends in: request removed, identity recorded, journal set. */
  function FinishTrigger(o: Object, request: OpType, id: string, op: Option<Operation>): Object
  {
    var ann := WithoutRequest(o.ann, request).(handled := AddHandled(o.ann.handled, id));
    o.(ann := if op.Some? then ann.(operation := op) else ann)
  }

  function StartVersionOp(o: Object, opType: OpType, nonce: string, target: string, expectedDigest: AggregateDigest,
                          now: int): Object
  {
    var ann := if o.ann.operation.Some? then o.ann.(superseded := o.ann.operation) else o.ann;
    var spec := WithVersion(o.spec, target);
    var op := Operation(opType, nonce, target, expectedDigest, 0, StoredTime(now), IntentDigest(spec), InProgress,
                        NoReason);
    FinishTrigger(o.(spec := spec, ann := ann), opType, HandledId(opType, nonce), Some(op))
  }

  function StartRetryOp(o: Object, nonce: string, now: int): Object
  {
    var epoch := o.ann.retryEpoch + 1;
    var op := Operation(Retry, nonce, "", NoAggregate, epoch, StoredTime(now), IntentDigest(o.spec), InProgress,
                        NoReason);
    FinishTrigger(o.(ann := o.ann.(retryEpoch := epoch)), Retry, HandledId(Retry, nonce), Some(op))
  }

  function Triggered(o: Object, now: int): Option<Object>
  {
    match Decide(o)
    case NoTrigger => None
    case SkipRollback(nonce) => Some(FinishTrigger(o, Rollback, HandledId(Rollback, nonce), None))
    case StartVersion(opType, nonce, target, expectedDigest) =>
      Some(StartVersionOp(o, opType, nonce, target, expectedDigest, now))
    case StartRetry(nonce) => Some(StartRetryOp(o, nonce, now))
  }

  // What a pass reads

  /** `published`: under GitOps the component's git file was not the published one, so it
      was written, and its hash put on the object. */
  datatype RenderAnswer =
    | Rendered(repoURL: string, values: string, published: bool)
    | CatalogNotConfigured
    | TokenRejected
    | ChartTooLarge
    | RepoNotReady
    | RenderFailed

  datatype Edit = Edit(spec: Spec, upgradeRequest: string, rollbackRequest: string, retryRequest: string)

  /** What becomes of a write. It lands; it is refused; it lands but the answer is lost,
      or the controller dies before it sees it; or somebody else's write gets there first. */
  datatype Fate = Lands | Refused | LandsUnanswered | Raced(edit: Edit)

  datatype Write = TriggerWrite | NamesWrite | StatusWrite | JournalWrite | ProjectWrite | ClearWrite

  /** The answers one pass gets: the clock, the blueprint, the renders in order, the
      HelmOps after rendering, the fleet at each of the three times it is read, and the
      fate of each write. */
  datatype Observation = Observation(
    now: int,
    blueprint: Read<seq<Component>>,
    render: nat -> RenderAnswer,
    helmOp: Ref -> Read<HelmOp>,
    cleanupOk: bool,
    liveUid: Ref -> Option<string>,
    matrix: Ref -> KeyRead,
    bundleAt: Ref -> Read<Bundle>,
    customizedOk: bool,
    syncOf: string -> Option<seq<Option<int>>>,
    fate: Write -> Fate)

  // The status pass of a blueprint workload

  datatype PassResult = Settled | Requeued | Errored

  datatype StatusOutcome = StatusOutcome(status: Status, result: PassResult)

  datatype RenderState =
    | Rendering(baselines: seq<RenderBaseline>, digests: Digests)
    | Stopped(outcome: StatusOutcome)

  function ComponentNamespace(spec: Spec, c: Component): string
  {
    if c.targetNamespace != "" then c.targetNamespace else spec.targetNamespace
  }

  function ComponentDigest(spec: Spec, c: Component, repoURL: string, values: string): RenderDigest
  {
    PerHelmOpRenderDigest(RenderInputs(c.chartRepo, c.chartName, c.chartVersion, ComponentNamespace(spec, c),
                                       c.vendor, repoURL, spec.targetClusters, values))
  }

  datatype Recorded = Recorded(baselines: seq<RenderBaseline>, ok: bool)

  /** One baseline per HelmOp of the component, until a read fails. */
  function RecordBaselines(keys: seq<HelmOpKey>, baselines: seq<RenderBaseline>, digest: RenderDigest, epoch: int,
                           helmOp: Ref -> Read<HelmOp>): Recorded
  {
    if keys == [] then Recorded(baselines, true)
    else
      var front, k := RecordBaselines(keys[..|keys| - 1], baselines, digest, epoch, helmOp), keys[|keys| - 1];
      if !front.ok then front
      else
        match helmOp(k.ref)
        case Unreadable => Recorded(front.baselines, false)
        case Absent => front
        case Present(ho) =>
          Recorded(Upsert(front.baselines, RenderBaseline(ho.uid, digest, epoch, ho.generation, ho.fingerprint)), true)
  }

  function SetDigests(digests: Digests, keys: seq<HelmOpKey>, digest: RenderDigest): Digests
  {
    if keys == [] then digests else SetDigests(digests, keys[..|keys| - 1], digest)[keys[|keys| - 1].ref := digest]
  }

  function OwnKeys(o: Object, c: Component): seq<HelmOpKey>
  {
    DesiredKeys(o.name, o.spec.targetClusters, [c], o.spec.strategy)
  }

  /** The order baselines are recorded in: sorted under GitOps, local first otherwise. */
  function PatchedKeys(o: Object, c: Component): seq<HelmOpKey>
  {
    if o.spec.strategy == GitOps then OwnKeys(o, c) else KeysOf(o.name, c, o.spec.targetClusters, o.spec.strategy)
  }

  function FailedPhase(o: Object, obs: Observation): Phase
  {
    GuardPhaseTransition(PhaseFailed, o.status.phase, o.createdAt, obs.now)
  }

  function Stop(o: Object, baselines: seq<RenderBaseline>, phase: Phase, result: PassResult): RenderState
  {
    Stopped(StatusOutcome(o.status.(baselines := baselines, phase := phase), result))
  }

  /** A publication ends in an `Update`, and its answer overwrites what the copy has
      recorded in this pass with what is stored. An empty list is not part of an answer,
      and overwrites nothing. */
  predicate Forgets(o: Object, answer: RenderAnswer)
  {
    answer.Rendered? && answer.published && o.spec.strategy == GitOps && o.status.baselines != []
  }

  function RenderOne(o: Object, c: Component, answer: RenderAnswer, baselines: seq<RenderBaseline>, digests: Digests,
                     obs: Observation): RenderState
  {
    match answer
    case CatalogNotConfigured => Stop(o, baselines, FailedPhase(o, obs), Requeued)
    case TokenRejected => Stop(o, baselines, FailedPhase(o, obs), Requeued)
    case ChartTooLarge => Stop(o, baselines, FailedPhase(o, obs), Settled)
    case RepoNotReady => Stop(o, baselines, FailedPhase(o, obs), Requeued)
    case RenderFailed => Stop(o, baselines, FailedPhase(o, obs), Errored)
    case Rendered(repoURL, values, _) =>
      var digest := ComponentDigest(o.spec, c, repoURL, values);
      var held := if Forgets(o, answer) then o.status.baselines else baselines;
      var recorded := RecordBaselines(PatchedKeys(o, c), held, digest, o.ann.retryEpoch, obs.helmOp);
      if recorded.ok then Rendering(recorded.baselines, SetDigests(digests, OwnKeys(o, c), digest))
      // The HelmOp is patched as part of rendering, but only looked up under GitOps.
      else Stop(o, recorded.baselines, if o.spec.strategy == FleetBundle then FailedPhase(o, obs) else o.status.phase,
                Errored)
  }

  function RenderAll(o: Object, components: seq<Component>, obs: Observation): RenderState
  {
    if components == [] || o.spec.strategy == Helm then Rendering(o.status.baselines, map[])
    else
      var n := |components| - 1;
      match RenderAll(o, components[..n], obs)
      case Stopped(outcome) => Stopped(outcome)
      case Rendering(baselines, digests) => RenderOne(o, components[n], obs.render(n), baselines, digests, obs)
  }

  function LiveUids(keys: seq<HelmOpKey>, liveUid: Ref -> Option<string>): set<string>
  {
    set k | k in keys && liveUid(k.ref).Some? :: liveUid(k.ref).value
  }

  function EnabledOf(o: Object, obs: Observation): seq<Component>
  {
    if obs.blueprint.Present? then EnabledComponents(o.spec.overrides, obs.blueprint.value) else []
  }

  function KeysOfPass(o: Object, obs: Observation): seq<HelmOpKey>
  {
    DesiredKeys(o.name, o.spec.targetClusters, EnabledOf(o, obs), o.spec.strategy)
  }

  /** Steps after rendering: cleanup, prune, matrix, phases, certification. */
  function FleetStatus(o: Object, baselines: seq<RenderBaseline>, digests: Digests, obs: Observation): StatusOutcome
  {
    var keys := KeysOfPass(o, obs);
    if !obs.cleanupOk then StatusOutcome(o.status.(baselines := baselines), Errored)
    else
      var kept := Prune(baselines, LiveUids(keys, obs.liveUid));
      var matrix := BuildMatrix(keys, o.spec.targetClusters, kept, o.ann.retryEpoch, digests, obs.matrix);
      if matrix.None? then StatusOutcome(o.status.(baselines := kept), Errored)
      else
        var cells := matrix.value;
        var phase := GuardPhaseTransition(PhaseFromCells(cells), o.status.phase, o.createdAt, obs.now);
        var status := o.status.(baselines := kept, cells := cells, clusters := AggregateClusters(cells),
                                phase := phase);
        var (deployed, ok) := CertifiedSource(o.spec, o.status.deployedSource, keys, digests, obs.bundleAt, obs.now);
        StatusOutcome(status.(deployedSource := deployed), if ok && obs.customizedOk then Settled else Errored)
  }

  /** `fleetBundleNames` still has to be filled in; that is a write of its own. */
  predicate NeedsNames(o: Object, obs: Observation)
  {
    o.spec.blueprint.Some? && obs.blueprint.Present? && |o.spec.fleetBundleNames| == 0
  }

  function BundleNames(workload: string, components: seq<Component>): seq<string>
  {
    if components == [] then []
    else
      var front, last := components[..|components| - 1], components[|components| - 1];
      BundleNames(workload, front) + [BundleName(workload, last.chartName)]
  }

  function BlueprintStatus(o: Object, obs: Observation): StatusOutcome
  {
    if o.spec.blueprint.None? then StatusOutcome(o.status, Settled)
    else
      match obs.blueprint
      case Unreadable => StatusOutcome(o.status, Errored)
      case Absent => StatusOutcome(o.status.(phase := FailedPhase(o, obs)), Settled)
      case Present(_) =>
        match RenderAll(o, EnabledOf(o, obs), obs)
        case Stopped(outcome) => outcome
        case Rendering(baselines, digests) => FleetStatus(o, baselines, digests, obs)
  }

  // Projection and decision

  /** `projectOperation`: the journal wins; without one, a finished operation the spec
      has moved on from is retired. */
  function Projected(o: Object): Option<Operation>
  {
    if o.ann.operation.Some? then o.ann.operation
    else if o.status.activeOperation.Some?
            && o.status.activeOperation.value.state != InProgress
            && o.status.activeOperation.value.intent != IntentDigest(o.spec) then None
    else o.status.activeOperation
  }

  function Project(o: Object): Object
  {
    o.(status := o.status.(activeOperation := Projected(o)))
  }

  predicate SyncedTo(generations: Option<seq<Option<int>>>, epoch: int)
  {
    generations.Some?
    && forall i :: 0 <= i < |generations.value| ==> generations.value[i].Some? && generations.value[i].value >= epoch
  }

  predicate RetrySettled(o: Object, epoch: int, syncOf: string -> Option<seq<Option<int>>>)
  {
    forall name :: name in o.spec.fleetBundleNames ==> SyncedTo(syncOf(name), epoch)
  }

  predicate CertifiedAtTarget(o: Object, op: Operation, syncOf: string -> Option<seq<Option<int>>>)
  {
    if op.opType == Retry then o.status.phase == PhaseRunning && RetrySettled(o, op.retryEpoch, syncOf)
    else o.status.deployedSource.Some? && o.status.deployedSource.value.version == op.targetVersion
  }

  predicate AnyCellFailed(cells: seq<Cell>)
  {
    exists i :: 0 <= i < |cells| && cells[i].phase == CellFailed
  }

  predicate RollbackDrift(o: Object, op: Operation)
  {
    && op.opType == Rollback
    && o.status.deployedSource.Some?
    && o.status.deployedSource.value.version == op.targetVersion
    && op.expectedDigest != NoAggregate
    && o.status.deployedSource.value.digest != op.expectedDigest
  }

  /** `operationOutcome`, on the facts `reconcileOperation` gathers. */
  function OperationOutcome(o: Object, op: Operation, certified: bool, anyFailed: bool, drift: bool,
                            now: int): Operation
  {
    if op.state != InProgress then op
    else if op.intent != IntentDigest(o.spec) then op.(state := Superseded)
    else if op.opType == Rollback && drift then op.(state := Failed, reason := BlueprintDrift)
    else if certified then op.(state := Succeeded)
    else if anyFailed then op.(state := Failed)
    else if now - op.requestedAt > DEADLINE then op.(state := Failed, reason := TimedOut)
    else op
  }

  function Outcome(o: Object, op: Operation, obs: Observation): Operation
  {
    OperationOutcome(o, op, CertifiedAtTarget(o, op, obs.syncOf), AnyCellFailed(o.status.cells), RollbackDrift(o, op),
                     obs.now)
  }

  function WithJournal(o: Object, op: Option<Operation>): Object
  {
    o.(ann := o.ann.(operation := op))
  }

  function WithActive(o: Object, op: Operation): Object
  {
    o.(status := o.status.(activeOperation := Some(op)))
  }

  // The stored object and one pass over it

  datatype Cause =
    | Created
    | ByUser
    | ByTrigger(now: int)
    | ByNames(components: seq<Component>)
    | ByStatus(obs: Observation, result: PassResult)
    | ByEcho
    | ByJournal(obs: Observation)
    | ByProjection
    | ByClear

  /** One stored version of the object and who wrote it. A version's resource version is
      its index in the list of versions. */
  datatype Version = Version(obj: Object, cause: Cause)

  /** The controller's in-memory copy and the resource version it was read at. */
  datatype Copy = Copy(obj: Object, rv: nat)

  datatype Put = Put(log: seq<Version>, copy: Copy, ok: bool)

  function Last(log: seq<Version>): Object
    requires log != []
  {
    log[|log| - 1].obj
  }

  function ApplyEdit(o: Object, e: Edit): Object
  {
    o.(spec := e.spec,
       ann := o.ann.(upgradeRequest := e.upgradeRequest, rollbackRequest := e.rollbackRequest,
                     retryRequest := e.retryRequest))
  }

  function Race(log: seq<Version>, fate: Fate): seq<Version>
    requires log != []
  {
    if fate.Raced? then log + [Version(ApplyEdit(Last(log), fate.edit), ByUser)] else log
  }

  /** A write is accepted only at the current resource version. */
  predicate Accepted(log: seq<Version>, w: Copy, fate: Fate)
    requires log != []
  {
    fate != Refused && w.rv == |Race(log, fate)| - 1
  }

  /** `Update`: stores metadata and spec, keeps the stored status, and answers with what
      is stored, which overwrites the status the copy had in memory. */
  function PutMeta(log: seq<Version>, w: Copy, fate: Fate, cause: Cause): (p: Put)
    requires log != []
    ensures |p.log| >= |log|
  {
    var raced := Race(log, fate);
    if !Accepted(log, w, fate) then Put(raced, w, false)
    else
      var stored := w.obj.(status := Last(raced).status);
      var landed := raced + [Version(stored, cause)];
      Put(landed, if fate.LandsUnanswered? then w else Copy(stored, |landed| - 1), !fate.LandsUnanswered?)
  }

  /** `Status().Update`: stores the status and nothing else. */
  function PutStatus(log: seq<Version>, w: Copy, fate: Fate, cause: Cause): (p: Put)
    requires log != []
    ensures |p.log| >= |log|
  {
    var raced := Race(log, fate);
    if !Accepted(log, w, fate) then Put(raced, w, false)
    else
      var stored := Last(raced).(status := w.obj.status);
      var landed := raced + [Version(stored, cause)];
      Put(landed, if fate.LandsUnanswered? then w else Copy(stored, |landed| - 1), !fate.LandsUnanswered?)
  }

  datatype Stage = Stage(log: seq<Version>, copy: Copy, result: PassResult, cause: Cause)

  /** `reconcileStatus` of a blueprint workload, with the one write it may make. */
  function StatusStage(log: seq<Version>, w: Copy, obs: Observation): (s: Stage)
    requires log != []
    ensures |s.log| >= |log|
  {
    if NeedsNames(w.obj, obs) then
      var named := w.obj.(spec := w.obj.spec.(fleetBundleNames := BundleNames(w.obj.name, obs.blueprint.value)));
      var p := PutMeta(log, w.(obj := named), obs.fate(NamesWrite), ByNames(obs.blueprint.value));
      Stage(p.log, p.copy, if p.ok then Requeued else Errored, ByEcho)
    else
      var s := BlueprintStatus(w.obj, obs);
      Stage(log, w.(obj := w.obj.(status := s.status)), s.result, ByStatus(obs, s.result))
  }

  /** `reconcileOperation`: nothing while the operation is in flight, else journal,
      projection, clear, each only after the one before was answered. */
  function OperationStage(log: seq<Version>, w: Copy, obs: Observation): (next: seq<Version>)
    requires log != []
    ensures |next| >= |log|
  {
    if w.obj.ann.operation.None? then log
    else
      var outcome := Outcome(w.obj, w.obj.ann.operation.value, obs);
      if outcome.state == InProgress then log
      else
        var journaled := PutMeta(log, w.(obj := WithJournal(w.obj, Some(outcome))), obs.fate(JournalWrite),
                                 ByJournal(obs));
        if !journaled.ok then journaled.log
        else
          var c := journaled.copy;
          var projected := PutStatus(journaled.log, c.(obj := WithActive(c.obj, outcome)), obs.fate(ProjectWrite),
                                     ByProjection);
          if !projected.ok then projected.log
          else
            var d := projected.copy;
            PutMeta(projected.log, d.(obj := WithJournal(d.obj, None)), obs.fate(ClearWrite), ByClear).log
  }

  /** The one status write of a pass, whatever came before it. */
  function Persisted(s: Stage, obs: Observation): Put
    requires s.log != []
  {
    PutStatus(s.log, s.copy.(obj := Project(s.copy.obj)), obs.fate(StatusWrite), s.cause)
  }

  /** A pass goes on to the operation only after an answered status write that settled. */
  function Concluded(p: Put, result: PassResult, obs: Observation): (next: seq<Version>)
    requires p.log != []
    ensures |next| >= |p.log|
  {
    if !p.ok || result != Settled then p.log else OperationStage(p.log, p.copy, obs)
  }

  /** A pass with no request to answer. */
  function StatusPass(log: seq<Version>, w: Copy, obs: Observation): (next: seq<Version>)
    requires log != []
    ensures |next| >= |log|
  {
    var s := StatusStage(log, w, obs);
    Concluded(Persisted(s, obs), s.result, obs)
  }

  /** One call of `Reconcile` on a copy read at version `at`, which a cached read may
      leave behind the current one. */
  function Pass(log: seq<Version>, at: nat, obs: Observation): (next: seq<Version>)
    requires at < |log|
    ensures |next| >= |log|
  {
    var w := Copy(log[at].obj, at);
    match Triggered(w.obj, obs.now)
    case Some(triggered) => PutMeta(log, w.(obj := triggered), obs.fate(TriggerWrite), ByTrigger(obs.now)).log
    case None => StatusPass(log, w, obs)
  }

  // Runs

  datatype Event = UserEdits(edit: Edit) | Reconciles(at: nat, obs: Observation)

  function Step(log: seq<Version>, e: Event): (next: seq<Version>)
    requires log != []
    ensures |next| >= |log|
  {
    match e
    case UserEdits(edit) => log + [Version(ApplyEdit(Last(log), edit), ByUser)]
    case Reconciles(at, obs) => if at < |log| then Pass(log, at, obs) else log
  }

  /** What is stored after the object was created as `o` and `events` happened. */
  function Run(o: Object, events: seq<Event>): (log: seq<Version>)
    ensures log != []
  {
    if events == [] then [Version(o, Created)]
    else Step(Run(o, events[..|events| - 1]), events[|events| - 1])
  }

  /** An object the controller has not touched yet. */
  predicate Fresh(o: Object)
  {
    && o.ann.handled == []
    && o.ann.operation.None?
    && o.ann.retryEpoch == 0
    && o.status.activeOperation.None?
    && o.status.deployedSource.None?
    && o.status.baselines == []
  }
}
