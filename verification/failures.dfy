/** What it means that an operation failed, was superseded, or is still in flight. */
module Failures {
  import opened Ordering
  import opened Workload
  import opened Keys
  import opened Certify
  import opened Baselines
  import opened Matrix
  import opened Phases
  import opened Operations
  import opened Runs
  import opened Rendering
  import opened Success

  // A failed cell

  /** A BundleDeployment failed to apply exactly what it is asked for now. */
  predicate FailedToApply(bd: BundleDeployment)
  {
    bd.appliedId != "" && bd.appliedId == bd.desiredId && bd.state == "ErrApplied"
  }

  /** The key fails under the render of this pass: its Bundle carries it and some cluster
      could not apply it, or there is no Bundle because Fleet rejects the HelmOp for a
      reason it did not give before this attempt. */
  ghost predicate FailsNow(k: HelmOpKey, targets: seq<string>, baselines: seq<RenderBaseline>, epoch: int,
                           digest: RenderDigest, r: KeyRead)
  {
    || (r.bundle.Present? && BundleRenderCurrent(r.bundle.value, digest) && r.deployments.Some?
        && exists bd :: bd in r.deployments.value && bd.cluster != "" && FailedToApply(bd))
    || (r.bundle.Absent? && r.deployments.Some? && r.helmOp.Present?
        && AcceptedFalseTerminal(r.helmOp.value, Lookup(baselines, r.helmOp.value.uid), digest, epoch,
                                 r.helmOp.value.generation)
        && exists id :: id in ExpectedIn(k.ref.namespace, targets) && id !in SeenClusters(r.deployments.value))
  }

  ghost predicate SomeFailed(cells: seq<Cell>)
  {
    exists c :: c in cells && c.phase == CellFailed
  }

  lemma ListedFailed(k: HelmOpKey, bds: seq<BundleDeployment>, current: bool)
    ensures SomeFailed(ListedCells(k, bds, current)) <==>
            current && exists bd :: bd in bds && bd.cluster != "" && FailedToApply(bd)
  {
  }

  lemma MissingFailed(k: HelmOpKey, expected: seq<string>, seen: set<string>, phase: ClusterPhase)
    ensures SomeFailed(MissingCells(k, expected, seen, phase)) <==>
            phase == CellFailed && exists id :: id in expected && id !in seen
  {
  }

  lemma SomeFailedIn(a: seq<Cell>, b: seq<Cell>)
    ensures SomeFailed(a + b) <==> SomeFailed(a) || SomeFailed(b)
  {
  }

  lemma KeyFailedMeans(k: HelmOpKey, targets: seq<string>, baselines: seq<RenderBaseline>, epoch: int,
                       digest: RenderDigest, r: KeyRead)
    requires KeyCells(k, targets, baselines, epoch, digest, r).Some?
    ensures SomeFailed(KeyCells(k, targets, baselines, epoch, digest, r).value) <==>
            FailsNow(k, targets, baselines, epoch, digest, r)
  {
    var bundle, bds := BundleOf(r.bundle), r.deployments.value;
    var current := Current(bundle, digest);
    var expected, seen := ExpectedIn(k.ref.namespace, targets), SeenClusters(bds);
    ListedFailed(k, bds, current);
    var phase := MissingPhase(k, bundle, r.helmOp, baselines, digest, epoch);
    if exists id :: id in expected && id !in seen {
      MissingFailed(k, expected, seen, phase.value);
      SomeFailedIn(ListedCells(k, bds, current), MissingCells(k, expected, seen, phase.value));
    }
  }

  /** The matrix has a failed cell exactly when some desired HelmOp fails under this very
      render. What went wrong with an earlier one never shows. */
  lemma FailedCellMeansFailsNow(keys: seq<HelmOpKey>, targets: seq<string>, baselines: seq<RenderBaseline>, epoch: int,
                                digests: Digests, read: Ref -> KeyRead)
    requires BuildMatrix(keys, targets, baselines, epoch, digests, read).Some?
    ensures SomeFailed(BuildMatrix(keys, targets, baselines, epoch, digests, read).value) <==>
            exists k :: k in keys && FailsNow(k, targets, baselines, epoch, DigestFor(digests, k.ref), read(k.ref))
  {
    var raw := RawMatrix(keys, targets, baselines, epoch, digests, read).value;
    var cells := BuildMatrix(keys, targets, baselines, epoch, digests, read).value;
    if SomeFailed(cells) {
      var c :| c in cells && c.phase == CellFailed;
      SortByKeepsMembers(CellKey, raw, c);
      RawMatrixMembers(keys, targets, baselines, epoch, digests, read, c);
      var k :| k in keys && c in KeyCells(k, targets, baselines, epoch, DigestFor(digests, k.ref), read(k.ref)).value;
      KeyFailedMeans(k, targets, baselines, epoch, DigestFor(digests, k.ref), read(k.ref));
    }
    if k :| k in keys && FailsNow(k, targets, baselines, epoch, DigestFor(digests, k.ref), read(k.ref)) {
      KeyHasFailedCell(keys, targets, baselines, epoch, digests, read, k);
    }
  }

  lemma KeyHasFailedCell(keys: seq<HelmOpKey>, targets: seq<string>, baselines: seq<RenderBaseline>, epoch: int,
                         digests: Digests, read: Ref -> KeyRead, k: HelmOpKey)
    requires BuildMatrix(keys, targets, baselines, epoch, digests, read).Some?
    requires k in keys && FailsNow(k, targets, baselines, epoch, DigestFor(digests, k.ref), read(k.ref))
    ensures SomeFailed(BuildMatrix(keys, targets, baselines, epoch, digests, read).value)
  {
    var raw := RawMatrix(keys, targets, baselines, epoch, digests, read).value;
    RawMatrixMembers(keys, targets, baselines, epoch, digests, read, MissingCell(k, "", CellFailed));
    KeyFailedMeans(k, targets, baselines, epoch, DigestFor(digests, k.ref), read(k.ref));
    var c :| c in KeyCells(k, targets, baselines, epoch, DigestFor(digests, k.ref), read(k.ref)).value
             && c.phase == CellFailed;
    RawMatrixMembers(keys, targets, baselines, epoch, digests, read, c);
    SortByKeepsMembers(CellKey, raw, c);
  }

  // One decision, on the facts

  /** The operation has got where it was going: the record says its target, or, for a
      retry, the workload runs and everything listed was synced since. */
  ghost predicate Attained(o: Object, op: Operation, syncOf: string -> Option<seq<Option<int>>>)
  {
    match op.opType
    case Upgrade => DeployedAt(o, op.targetVersion)
    case Rollback => DeployedAt(o, op.targetVersion)
    case Retry =>
      && o.status.phase == PhaseRunning
      && forall name :: name in o.spec.fleetBundleNames ==> AllSince(syncOf(name), op.retryEpoch)
  }

  ghost predicate AllSince(generations: Option<seq<Option<int>>>, epoch: int)
  {
    generations.Some? && forall g :: g in generations.value ==> g.Some? && g.value >= epoch
  }

  /** A rollback's target is there, but not with the digest it was taken with. */
  ghost predicate Drifted(o: Object, op: Operation)
  {
    && op.opType == Rollback && DeployedAt(o, op.targetVersion)
    && op.expectedDigest != NoAggregate && o.status.deployedSource.value.digest != op.expectedDigest
  }

  ghost predicate HasFailedCell(o: Object)
  {
    exists c :: c in o.status.cells && c.phase == CellFailed
  }

  /** What becomes of an operation, in this order: a spec that moved on supersedes it,
      drift fails it, success wins over failed cells, and those over the deadline. */
  lemma OutcomeIs(o: Object, op: Operation, obs: Observation)
    ensures var done := Outcome(o, op, obs);
            if op.state != InProgress then done == op
            else if op.intent != IntentDigest(o.spec) then done == op.(state := Superseded)
            else if Drifted(o, op) then done == op.(state := OpState.Failed, reason := BlueprintDrift)
            else if Attained(o, op, obs.syncOf) then done == op.(state := Succeeded)
            else if HasFailedCell(o) then done == op.(state := OpState.Failed)
            else if obs.now - op.requestedAt > 30 * MINUTE then done == op.(state := OpState.Failed, reason := TimedOut)
            else done == op
  {
    assert AnyCellFailed(o.status.cells) <==> HasFailedCell(o) by { AnyMeansSome(o.status.cells); }
    forall name | name in o.spec.fleetBundleNames
      ensures SyncedTo(obs.syncOf(name), op.retryEpoch) <==> AllSince(obs.syncOf(name), op.retryEpoch)
    {
      SyncedMeans(obs.syncOf(name), op.retryEpoch);
    }
  }

  lemma SyncedMeans(generations: Option<seq<Option<int>>>, epoch: int)
    ensures SyncedTo(generations, epoch) <==> AllSince(generations, epoch)
  {
  }

  // Decisions of a run

  /** Version `j` decides `op`, found in flight, as `done`. */
  ghost predicate Decides(log: seq<Version>, j: nat, op: Operation, done: Operation)
  {
    && 0 < j < |log| && log[j].cause.ByJournal?
    && log[j - 1].obj.ann.operation == Some(op) && op.state == InProgress
    && log[j].obj.ann.operation == Some(done)
  }

  /** Every decision of a run changes nothing of the operation but its state and reason,
      and each verdict has its cause: superseded if and only if the spec no longer asks
      for what it was started for; failed only while it still does, and then either the
      target is deployed with another digest than a rollback expects, or some cell has
      failed, or half an hour has passed; and no failure while it could succeed. */
  lemma VerdictsHaveCauses(log: seq<Version>, j: nat, op: Operation, done: Operation)
    requires LegalLog(log) && Decides(log, j, op, done)
    ensures var o, obs := log[j].obj, log[j].cause.obs;
            && done == op.(state := done.state, reason := done.reason) && done.state != InProgress
            && (done.state == Superseded <==> op.intent != IntentDigest(o.spec))
            && (done.state == OpState.Failed ==>
                  match done.reason
                  case BlueprintDrift => op.opType == Rollback && o.status.deployedSource.Some?
                                         && o.status.deployedSource.value.version == op.targetVersion
                                         && op.expectedDigest != NoAggregate
                                         && o.status.deployedSource.value.digest != op.expectedDigest
                  case TimedOut => !HasFailedCell(o) && obs.now - op.requestedAt > DEADLINE
                  case NoReason => HasFailedCell(o))
            && (done.state == OpState.Failed && done.reason != BlueprintDrift ==> !Attained(o, op, obs.syncOf))
            && (Attained(o, op, obs.syncOf) && op.intent == IntentDigest(o.spec) ==>
                  done.state == Succeeded || done.reason == BlueprintDrift)
  {
    assert LegalAt(log, j);
    StartsWithoutReason(log, j - 1, op);
    OutcomeIs(log[j - 1].obj, op, log[j].cause.obs);
  }

  lemma StartsWithoutReason(log: seq<Version>, j: nat, op: Operation)
    requires LegalLog(log) && j < |log| && log[j].obj.ann.operation == Some(op) && op.state == InProgress
    ensures op.reason == NoReason
  {
    var i := OperationHasAStart(log, j, op);
    assert LegalAt(log, i);
  }

  // Which render a failed cell is about

  /** A pass that gets as far as a new matrix. */
  ghost predicate Builds(o: Object, obs: Observation)
  {
    GetsThrough(o, obs) && obs.cleanupOk && MatrixOf(o, obs).Some?
  }

  function BaselinesIn(o: Object, obs: Observation): seq<RenderBaseline>
    requires GetsThrough(o, obs)
  {
    Prune(RenderAll(o, EnabledOf(o, obs), obs).baselines, LiveUids(KeysOfPass(o, obs), obs.liveUid))
  }

  function MatrixOf(o: Object, obs: Observation): Option<seq<Cell>>
    requires GetsThrough(o, obs)
  {
    BuildMatrix(KeysOfPass(o, obs), o.spec.targetClusters, BaselinesIn(o, obs), o.ann.retryEpoch, DigestsOf(o, obs),
                obs.matrix)
  }

  /** Some desired HelmOp fails under the render this pass has just made. */
  ghost predicate FailsUnder(o: Object, obs: Observation)
  {
    && GetsThrough(o, obs)
    && exists k :: k in KeysOfPass(o, obs)
                   && FailsNow(k, o.spec.targetClusters, BaselinesIn(o, obs), o.ann.retryEpoch,
                               DigestFor(DigestsOf(o, obs), k.ref), obs.matrix(k.ref))
  }

  /** A pass that builds a matrix stores its cells, settled or not; any other pass leaves
      the cells as they were. */
  lemma CellsOfPass(o: Object, obs: Observation)
    ensures BlueprintStatus(o, obs).status.cells == if Builds(o, obs) then MatrixOf(o, obs).value else o.status.cells
    ensures BlueprintStatus(o, obs).result == Settled ==> (Builds(o, obs) <==> GetsThrough(o, obs))
  {
    if o.spec.blueprint.Some? && obs.blueprint.Present? {
      var r := RenderAll(o, EnabledOf(o, obs), obs);
      if r.Stopped? {
        StoppedKeepsCells(o, EnabledOf(o, obs), obs);
      } else {
        CellsOfFleet(o, r.baselines, r.digests, obs);
      }
    }
  }

  lemma {:induction false} StoppedKeepsCells(o: Object, components: seq<Component>, obs: Observation)
    requires RenderAll(o, components, obs).Stopped?
    ensures RenderAll(o, components, obs).outcome.status.cells == o.status.cells
    decreases |components|
  {
    var n := |components| - 1;
    var front := RenderAll(o, components[..n], obs);
    if front.Stopped? {
      StoppedKeepsCells(o, components[..n], obs);
    } else {
      OneStopKeepsCells(o, components[n], obs.render(n), front.baselines, front.digests, obs);
    }
  }

  lemma OneStopKeepsCells(o: Object, c: Component, answer: RenderAnswer, baselines: seq<RenderBaseline>,
                          digests: map<Ref, RenderDigest>, obs: Observation)
    ensures var r := RenderOne(o, c, answer, baselines, digests, obs);
            && (r.Rendering? ==> answer.Rendered?)
            && (r.Stopped? ==> r.outcome.status.cells == o.status.cells)
            && (r.Stopped? && answer.Rendered? ==> r.outcome.result == Errored)
  {
  }

  lemma CellsOfFleet(o: Object, baselines: seq<RenderBaseline>, digests: Digests, obs: Observation)
    ensures var kept := Prune(baselines, LiveUids(KeysOfPass(o, obs), obs.liveUid));
            var matrix := BuildMatrix(KeysOfPass(o, obs), o.spec.targetClusters, kept, o.ann.retryEpoch, digests,
                                      obs.matrix);
            var s := FleetStatus(o, baselines, digests, obs);
            && s.status.cells == (if obs.cleanupOk && matrix.Some? then matrix.value else o.status.cells)
            && (s.result == Settled ==> obs.cleanupOk && matrix.Some?)
  {
  }

  /** The failed cells of a pass that builds a matrix are about its own render. */
  lemma FailureIsCurrent(o: Object, obs: Observation)
    requires Builds(o, obs)
    ensures AnyCellFailed(BlueprintStatus(o, obs).status.cells) <==> FailsUnder(o, obs)
  {
    CellsOfPass(o, obs);
    FailedCellMeansFailsNow(KeysOfPass(o, obs), o.spec.targetClusters, BaselinesIn(o, obs), o.ann.retryEpoch,
                            DigestsOf(o, obs), obs.matrix);
    AnyMeansSome(MatrixOf(o, obs).value);
  }

  lemma AnyMeansSome(cells: seq<Cell>)
    ensures AnyCellFailed(cells) <==> SomeFailed(cells)
  {
  }

  /** Every enabled component of the blueprint was rendered. */
  ghost predicate RendersAll(o: Object, obs: Observation)
  {
    obs.blueprint.Present? && RendersFirst(obs, |EnabledOf(o, obs)|)
  }

  ghost predicate RendersFirst(obs: Observation, n: nat)
  {
    forall i :: 0 <= i < n ==> obs.render(i).Rendered?
  }

  /** Once everything is rendered only a failed read stops the loop, and that is an error. */
  ghost predicate StopsBy(r: RenderState, all: bool)
  {
    (r.Rendering? ==> all) && (r.Stopped? && all ==> r.outcome.result == Errored)
  }

  lemma {:induction false} RenderedThrough(o: Object, components: seq<Component>, obs: Observation)
    requires o.spec.strategy != Helm
    ensures StopsBy(RenderAll(o, components, obs), RendersFirst(obs, |components|))
    decreases |components|
  {
    if components != [] {
      var n := |components| - 1;
      RenderedThrough(o, components[..n], obs);
      LastTurn(o, components, obs);
      StopsAgain(RenderAll(o, components[..n], obs), RenderAll(o, components, obs), obs, n);
    }
  }

  lemma StopsAgain(front: RenderState, r: RenderState, obs: Observation, n: nat)
    requires StopsBy(front, RendersFirst(obs, n))
    requires if front.Stopped? then r == front else StopsBy(r, obs.render(n).Rendered?)
    ensures StopsBy(r, RendersFirst(obs, n + 1))
  {
    assert RendersFirst(obs, n + 1) <==> RendersFirst(obs, n) && obs.render(n).Rendered?;
  }

  lemma LastTurn(o: Object, components: seq<Component>, obs: Observation)
    requires o.spec.strategy != Helm && components != []
    ensures var n := |components| - 1;
            var front, r := RenderAll(o, components[..n], obs), RenderAll(o, components, obs);
            if front.Stopped? then r == front else StopsBy(r, obs.render(n).Rendered?)
  {
    var n := |components| - 1;
    var front := RenderAll(o, components[..n], obs);
    if front.Rendering? {
      OneStopKeepsCells(o, components[n], obs.render(n), front.baselines, front.digests, obs);
    }
  }

  lemma NoKeysNoFailure(o: Object, obs: Observation)
    requires FailsUnder(o, obs)
    ensures o.spec.strategy != Helm
  {
    var k :| k in KeysOfPass(o, obs);
    var c := DesiredKeyHasComponent(o.name, o.spec.targetClusters, EnabledOf(o, obs), o.spec.strategy, k);
  }

  // A settled pass need not have built a matrix

  /** A pass can settle without one: the blueprint is gone, or a chart is too large. An
      operation that is not certified is then failed by cells of an earlier pass, which
      say nothing about what is asked for now; without a blueprint that is nothing at all. */
  lemma OldCellsStillFail(o: Object, op: Operation, obs: Observation)
    requires o.spec.blueprint.Some? && BlueprintStatus(o, obs).result == Settled && !GetsThrough(o, obs)
    requires o.ann.operation == Some(op) && op.state == InProgress && op.intent == IntentDigest(o.spec)
    requires op.opType == Retry || (op.opType == Upgrade && !DeployedAt(o, op.targetVersion))
    requires AnyCellFailed(o.status.cells)
    ensures var judged := Project(o.(status := BlueprintStatus(o, obs).status));
            Outcome(judged, op, obs) == op.(state := OpState.Failed)
    ensures !FailsUnder(o, obs) && (obs.blueprint.Absent? ==> KeysOfPass(o, obs) == [])
  {
    CellsOfPass(o, obs);
    if obs.blueprint.Present? {
      StoppedIsNotRunning(o, EnabledOf(o, obs), obs);
    }
  }

  /** So it can happen, on the very first look: an upgrade in flight, a cell that failed
      under an earlier version, the blueprint of the new version not there. */
  lemma GoneBlueprintFails(o: Object, op: Operation, obs: Observation)
    requires o.spec.blueprint.Some? && obs.blueprint.Absent? && o.status.deployedSource.None?
    requires o.ann.operation == Some(op) && op.state == InProgress && op.opType == Upgrade
    requires op.intent == IntentDigest(o.spec) && op.reason == NoReason
    requires AnyCellFailed(o.status.cells)
    ensures var outcome := Outcome(Project(o.(status := BlueprintStatus(o, obs).status)), op, obs);
            outcome.state == OpState.Failed && outcome.reason == NoReason && KeysOfPass(o, obs) == []
  {
    OldCellsStillFail(o, op, obs);
  }

  // Whose cells a run goes by

  /** Version `n` stores a matrix its pass built. */
  ghost predicate BuildsAt(log: seq<Version>, n: nat)
  {
    0 < n < |log| && log[n].cause.ByStatus? && Builds(log[n - 1].obj, log[n].cause.obs)
  }

  /** The cells at version `n` are those of version `k`, and no pass in between built any. */
  ghost predicate CellsFrom(log: seq<Version>, k: nat, n: nat)
    requires k <= n < |log|
  {
    && log[n].obj.status.cells == log[k].obj.status.cells
    && (k == 0 || BuildsAt(log, k))
    && forall i :: k < i <= n ==> !BuildsAt(log, i)
  }

  lemma CellsStep(log: seq<Version>, n: nat)
    requires LegalLog(log) && 0 < n < |log|
    ensures BuildsAt(log, n) || log[n].obj.status.cells == log[n - 1].obj.status.cells
    ensures BuildsAt(log, n) ==>
              (AnyCellFailed(log[n].obj.status.cells) <==> FailsUnder(log[n - 1].obj, log[n].cause.obs))
  {
    assert LegalAt(log, n);
    if log[n].cause.ByStatus? {
      CellsOfPass(log[n - 1].obj, log[n].cause.obs);
      if BuildsAt(log, n) { FailureIsCurrent(log[n - 1].obj, log[n].cause.obs); }
    }
  }

  lemma {:induction false} LastMatrix(log: seq<Version>, n: nat) returns (k: nat)
    requires LegalLog(log) && n < |log|
    ensures k <= n && CellsFrom(log, k, n)
    decreases n
  {
    k := n;
    if n > 0 {
      CellsStep(log, n);
      if !BuildsAt(log, n) { k := LastMatrix(log, n - 1); }
    }
  }

  /** An operation that fails by a failed cell fails by the last matrix any pass built: at
      version `k` some desired HelmOp failed under the render made there (or the object
      was created with the cell). That is the render of the pass that decides if and only
      if the blueprint was there and every enabled component was rendered. */
  lemma FailureIsOfTheLastMatrix(log: seq<Version>, j: nat, op: Operation, done: Operation) returns (k: nat)
    requires LegalLog(log) && Decides(log, j, op, done)
    requires done.state == OpState.Failed && done.reason == NoReason && log[j].obj.spec.blueprint.Some?
    ensures j >= 2 && k < j && CellsFrom(log, k, j - 1)
    ensures k > 0 ==> FailsUnder(log[k - 1].obj, log[k].cause.obs)
    ensures k == j - 1 <==> RendersAll(log[j - 2].obj, log[j].cause.obs)
    ensures FailsUnder(log[j - 2].obj, log[j].cause.obs) <==> RendersAll(log[j - 2].obj, log[j].cause.obs)
  {
    JudgedCells(log, j, op, done);
    k := LastMatrix(log, j - 1);
    if k > 0 { CellsStep(log, k); }
    assert BuildsAt(log, j - 1) <==> Builds(log[j - 2].obj, log[j].cause.obs);
    CurrentIffRendered(log[j - 2].obj, log[j].cause.obs, log[j - 1].obj.status.cells);
  }

  lemma JudgedCells(log: seq<Version>, j: nat, op: Operation, done: Operation)
    requires LegalLog(log) && Decides(log, j, op, done)
    requires done.state == OpState.Failed && done.reason == NoReason
    ensures j >= 2 && log[j - 1].cause == ByStatus(log[j].cause.obs, Settled)
    ensures log[j].obj.spec == log[j - 2].obj.spec
    ensures var o, obs := log[j - 2].obj, log[j].cause.obs;
            BlueprintStatus(o, obs).result == Settled
            && log[j - 1].obj.status.cells == BlueprintStatus(o, obs).status.cells
    ensures AnyCellFailed(log[j - 1].obj.status.cells)
  {
    VerdictsHaveCauses(log, j, op, done);
    assert LegalAt(log, j) && LegalAt(log, j - 1);
  }

  lemma CurrentIffRendered(o: Object, obs: Observation, cells: seq<Cell>)
    requires o.spec.blueprint.Some? && BlueprintStatus(o, obs).result == Settled
    requires cells == BlueprintStatus(o, obs).status.cells && AnyCellFailed(cells)
    ensures Builds(o, obs) <==> RendersAll(o, obs)
    ensures FailsUnder(o, obs) <==> RendersAll(o, obs)
  {
    CellsOfPass(o, obs);
    if Builds(o, obs) {
      FailureIsCurrent(o, obs);
      NoKeysNoFailure(o, obs);
    }
    if obs.blueprint.Present? && o.spec.strategy != Helm {
      RenderedThrough(o, EnabledOf(o, obs), obs);
    }
  }
}
