/** What it means that an operation succeeded. */
module Success {
  import opened Workload
  import opened Keys
  import opened Operations
  import opened Runs
  import opened Rendering

  /** Version `i` starts `op`, and every version from it to `j` has it in the journal. */
  ghost predicate StartedBy(log: seq<Version>, i: nat, j: nat, op: Operation)
  {
    && 0 < i <= j < |log|
    && log[i].cause.ByTrigger?
    && (Decide(log[i - 1].obj).StartVersion? || Decide(log[i - 1].obj).StartRetry?)
    && forall k :: i <= k <= j ==> log[k].obj.ann.operation == Some(op)
  }

  /** An operation in flight was started by a trigger and is the one it started. */
  lemma {:induction false} OperationHasAStart(log: seq<Version>, j: nat, op: Operation) returns (i: nat)
    requires LegalLog(log) && j < |log|
    requires log[j].obj.ann.operation == Some(op) && op.state == InProgress
    ensures StartedBy(log, i, j, op)
    decreases j
  {
    assert LegalAt(log, j);
    if log[j].cause.ByTrigger? && (Decide(log[j - 1].obj).StartVersion? || Decide(log[j - 1].obj).StartRetry?) {
      return j;
    }
    KeptByOthers(log[j - 1], log[j], op);
    i := OperationHasAStart(log, j - 1, op);
  }

  lemma KeptByOthers(p: Version, v: Version, op: Operation)
    requires Legal(p, v) && v.obj.ann.operation == Some(op) && op.state == InProgress
    requires !v.cause.ByTrigger? || Decide(p.obj).SkipRollback?
    ensures p.obj.ann.operation == Some(op)
  {
  }

  /** Version `j` decides `op`, found in flight, and decides it Succeeded. */
  ghost predicate Succeeds(log: seq<Version>, j: nat, op: Operation)
  {
    && 0 < j < |log| && log[j].cause.ByJournal?
    && log[j - 1].obj.ann.operation == Some(op) && op.state == InProgress
    && log[j].obj.ann.operation == Some(op.(state := Succeeded))
  }

  predicate DeployedAt(o: Object, version: string)
  {
    o.status.deployedSource.Some? && o.status.deployedSource.value.version == version
  }

  /** A success is judged on the version stored just before, by a status pass that
      settled, and the spec there still
      asks for what the operation was started for. An Upgrade or a Rollback has its
      target deployed, a Rollback with the digest it expects if it expects one; a Retry
      has the workload Running and every listed BundleDeployment synced to its epoch. */
  lemma SuccessIsEarned(log: seq<Version>, j: nat, op: Operation)
    requires LegalLog(log) && Succeeds(log, j, op)
    ensures j >= 2 && log[j - 1].cause == ByStatus(log[j].cause.obs, Settled)
    ensures log[j].obj == WithJournal(log[j - 1].obj, Some(op.(state := Succeeded)))
    ensures IntentDigest(log[j].obj.spec) == op.intent
    ensures op.opType != Retry ==> DeployedAt(log[j].obj, op.targetVersion)
    ensures op.opType == Rollback && op.expectedDigest != NoAggregate ==>
              log[j].obj.status.deployedSource.value.digest == op.expectedDigest
    ensures op.opType == Retry ==>
              && log[j].obj.status.phase == PhaseRunning
              && forall name :: name in log[j].obj.spec.fleetBundleNames ==>
                   SyncedTo(log[j].cause.obs.syncOf(name), op.retryEpoch)
  {
    assert LegalAt(log, j);
  }

  /** Version `k` records `version` as deployed, in a pass that certified it. */
  ghost predicate CertifiedAt(log: seq<Version>, k: nat, version: string)
  {
    && 0 < k < |log| && log[k].cause.ByStatus?
    && BlueprintVersion(log[k - 1].obj.spec) == version && DeployedAt(log[k].obj, version)
    && Certifies(log[k - 1].obj, log[k].cause.obs)
  }

  lemma DeployedStep(log: seq<Version>, k: nat, version: string)
    requires LegalLog(log) && 0 < k < |log|
    requires DeployedAt(log[k].obj, version) && !DeployedAt(log[k - 1].obj, version)
    ensures CertifiedAt(log, k, version)
  {
    assert LegalAt(log, k);
    StepFrame(log[k - 1], log[k]);
    DeployedChangesOnlyByCertifying(log[k - 1].obj, log[k].cause.obs);
  }

  lemma {:induction false} DeployedSince(log: seq<Version>, i: nat, j: nat, version: string) returns (k: nat)
    requires LegalLog(log) && i < j < |log|
    requires !DeployedAt(log[i].obj, version) && DeployedAt(log[j].obj, version)
    ensures i < k <= j && CertifiedAt(log, k, version)
    decreases j
  {
    if DeployedAt(log[j - 1].obj, version) {
      k := DeployedSince(log, i, j - 1, version);
    } else {
      DeployedStep(log, j, version);
      k := j;
    }
  }

  /** An Upgrade or Rollback that succeeds, and whose target was not the deployed version
      when it was started, has been certified at its target between start and success:
      there is a pass in between that found every desired HelmOp rolled out. */
  lemma SuccessWasCertified(log: seq<Version>, j: nat, op: Operation) returns (i: nat, k: nat)
    requires LegalLog(log) && Succeeds(log, j, op) && op.opType != Retry
    ensures StartedBy(log, i, j - 1, op)
    ensures !DeployedAt(log[i].obj, op.targetVersion) ==> i < k < j && CertifiedAt(log, k, op.targetVersion)
  {
    i := OperationHasAStart(log, j - 1, op);
    k := 0;
    SuccessIsEarned(log, j, op);
    if !DeployedAt(log[i].obj, op.targetVersion) {
      k := DeployedSince(log, i, j - 1, op.targetVersion);
    }
  }

  /** A Retry that succeeds was judged by the very pass before: that pass found every
      enabled component up on every target, as it had just rendered it. */
  lemma RetrySuccessMeansUp(log: seq<Version>, j: nat, op: Operation, i: nat, t: string)
    requires LegalLog(log) && Succeeds(log, j, op) && op.opType == Retry
    requires j >= 2
    requires var o, obs := log[j - 2].obj, log[j].cause.obs;
             && o.spec.blueprint.Some? && o.spec.strategy != Helm && DistinctBundles(o.name, EnabledOf(o, obs))
             && i < |EnabledOf(o, obs)| && t in o.spec.targetClusters
    ensures UpOn(log[j - 2].obj, log[j].cause.obs, i, t)
  {
    SuccessIsEarned(log, j, op);
    assert LegalAt(log, j) && LegalAt(log, j - 1);
    SettledRunningMeansUp(log[j - 2].obj, log[j].cause.obs, i, t);
  }

  // What a retry waits for

  /** A retry's verdict waits for the HelmOps of a name to be synced, whatever the answers,
      if and only if the name is on the list. */
  lemma RetryWaitsForTheList(o: Object, epoch: int, name: string)
    ensures (forall syncOf: string -> Option<seq<Option<int>>> ::
               RetrySettled(o, epoch, syncOf) ==> SyncedTo(syncOf(name), epoch))
       <==> name in o.spec.fleetBundleNames
  {
    var listed: string -> Option<seq<Option<int>>> := n => if n in o.spec.fleetBundleNames then Some([]) else None;
    assert RetrySettled(o, epoch, listed);
  }

  /** What becomes of an unlisted HelmOp makes no difference to any verdict. */
  lemma UnlistedMakesNoDifference(o: Object, op: Operation, obs: Observation, name: string,
                                  answer: Option<seq<Option<int>>>)
    requires name !in o.spec.fleetBundleNames
    ensures Outcome(o, op, obs.(syncOf := n => if n == name then answer else obs.syncOf(n))) == Outcome(o, op, obs)
  {
    var other := obs.(syncOf := n => if n == name then answer else obs.syncOf(n));
    assert RetrySettled(o, op.retryEpoch, obs.syncOf) <==> RetrySettled(o, op.retryEpoch, other.syncOf);
  }

  lemma {:induction false} BundleNamesMembers(workload: string, components: seq<Component>, name: string)
    ensures name in BundleNames(workload, components) <==>
            exists c :: c in components && BundleName(workload, c.chartName) == name
  {
    if components != [] {
      var front, last := components[..|components| - 1], components[|components| - 1];
      BundleNamesMembers(workload, front, name);
      assert components == front + [last];
    }
  }

  ghost predicate NoEdits(log: seq<Version>, i: nat, j: nat)
  {
    forall k :: i < k <= j < |log| ==> !log[k].cause.ByUser?
  }

  /** Once filled in the list stays, through every change of version, until a user edits
      the object. */
  lemma {:induction false} NamesStay(log: seq<Version>, i: nat, j: nat)
    requires LegalLog(log) && i <= j < |log| && NoEdits(log, i, j)
    requires log[i].obj.spec.fleetBundleNames != []
    ensures log[j].obj.spec.fleetBundleNames == log[i].obj.spec.fleetBundleNames && log[j].obj.name == log[i].obj.name
    decreases j
  {
    if i < j {
      NamesStay(log, i, j - 1);
      assert LegalAt(log, j);
    }
  }

  /** So a retry that succeeds has synced the HelmOps of an enabled component if the
      blueprint the list was made from, at version `k`, has a component of that bundle
      name; and for any other its verdict did not ask. */
  lemma RetrySyncsTheFirstBlueprint(log: seq<Version>, k: nat, j: nat, op: Operation, c: Component)
    requires LegalLog(log) && Succeeds(log, j, op) && op.opType == Retry
    requires k < j && log[k].cause.ByNames? && log[k].cause.components != [] && NoEdits(log, k, j)
    ensures var o, name := log[j].obj, BundleName(log[j].obj.name, c.chartName);
            var listed := exists d :: d in log[k].cause.components && BundleName(o.name, d.chartName) == name;
            && (listed ==> SyncedTo(log[j].cause.obs.syncOf(name), op.retryEpoch))
            && (listed <==> name in o.spec.fleetBundleNames)
  {
    assert LegalAt(log, k);
    NamesAreNotEmpty(log[k].obj.name, log[k].cause.components);
    NamesStay(log, k, j);
    SuccessIsEarned(log, j, op);
    BundleNamesMembers(log[j].obj.name, log[k].cause.components, BundleName(log[j].obj.name, c.chartName));
  }

  lemma NamesAreNotEmpty(workload: string, components: seq<Component>)
    requires components != []
    ensures BundleNames(workload, components) != []
  {
  }

  // A rollback takes its target from the field its success is judged by

  /** What the first settled pass after a rollback was started makes of it. It is started
      for the version that is recorded as deployed already, so it needs no certification:
      it succeeds exactly when the record still has the digest it was taken with, which
      is so whenever that pass certifies nothing. */
  lemma RollbackIsBornDeployed(o: Object, now: int, obs: Observation)
    requires Decide(o).StartVersion? && Decide(o).opType == Rollback
    requires o.spec.blueprint.Some?
    ensures var started := Triggered(o, now).value;
            var judged := Project(started.(status := BlueprintStatus(started, obs).status));
            var op := started.ann.operation.value;
            && DeployedAt(started, op.targetVersion) && DeployedAt(judged, op.targetVersion)
            && (Outcome(judged, op, obs).state == Succeeded <==>
                  || judged.status.deployedSource.value.digest == o.status.deployedSource.value.digest
                  || op.expectedDigest == NoAggregate)
            && (!Certifies(started, obs) ==> Outcome(judged, op, obs).state == Succeeded)
  {
    var started := Triggered(o, now).value;
    if BlueprintStatus(started, obs).status.deployedSource != started.status.deployedSource {
      DeployedChangesOnlyByCertifying(started, obs);
    }
  }
}
