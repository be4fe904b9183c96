/** Operations get somewhere: one undisturbed pass over a fleet that has come up ends an
    operation as asked, with the journal cleared and the result shown. */
module Progress {
  import opened Workload
  import opened Phases
  import opened Operations
  import opened Runs
  import opened CrashSafety
  import opened Requests
  import opened Rendering
  import opened Success
  import opened Failures
  import opened StatusPass

  /** The target of an operation in flight is the version the spec asks for, as long as the
      spec has its intent; but an operation started without a blueprint has no version in
      its intent. */
  lemma TargetIsTheSpecs(log: seq<Version>, op: Operation)
    requires LegalLog(log) && Last(log).ann.operation == Some(op) && op.state == InProgress && op.opType != Retry
    requires op.intent == IntentDigest(Last(log).spec)
    ensures HasVersion(Last(log).spec, op.targetVersion) || op.intent.blueprintVersion == ""
  {
    var i := OperationWasAsked(log, |log| - 1, op);
    IntentDigestIsCanonical(log[i].obj.spec, Last(log).spec);
  }

  /** An upgrade or a rollback, in flight and still asked for, and a pass nothing goes wrong
      in that finds every desired HelmOp rolled out: afterwards the target is on record
      with the digest of what was rendered, the status shows the operation Succeeded, and
      the journal is gone. Only a rollback that expects another digest is Failed. */
  lemma RolledOutMeansDone(log: seq<Version>, op: Operation, obs: Observation)
    requires LegalLog(log) && Last(log).ann.operation == Some(op) && op.state == InProgress && op.opType != Retry
    requires op.intent == IntentDigest(Last(log).spec) && op.intent.blueprintVersion != ""
    requires Quiet(Last(log), obs) && Builds(Last(log), obs) && AllRolledOut(Last(log), obs)
    ensures var last, end := Last(log), Last(Pass(log, |log| - 1, obs));
            var digest := DeployedDigest(KeysOfPass(last, obs), DigestsOf(last, obs));
            var drifted := op.opType == Rollback && op.expectedDigest != NoAggregate && op.expectedDigest != digest;
            && end.ann == last.ann.(operation := None) && end.spec == last.spec
            && DeployedAt(end, op.targetVersion) && end.status.deployedSource.value.digest == digest
            && end.status.activeOperation == Some(if drifted then op.(state := OpState.Failed, reason := BlueprintDrift)
                                                  else op.(state := Succeeded))
  {
    var last := Last(log);
    var judged := Project(last.(status := BlueprintStatus(last, obs).status));
    TargetIsTheSpecs(log, op);
    QuietPassFinishes(log, op, obs);
    FleetPassIs(last, obs);
    OutcomeIs(judged, op, obs);
  }

  /** Likewise a retry, when the pass leaves the workload Running and everything listed was
      synced to its epoch. */
  lemma SyncedMeansDone(log: seq<Version>, op: Operation, obs: Observation)
    requires LegalLog(log) && Last(log).ann.operation == Some(op) && op.state == InProgress && op.opType == Retry
    requires op.intent == IntentDigest(Last(log).spec) && Quiet(Last(log), obs)
    requires BlueprintStatus(Last(log), obs).status.phase == PhaseRunning
    requires forall name :: name in Last(log).spec.fleetBundleNames ==> AllSince(obs.syncOf(name), op.retryEpoch)
    ensures var end := Last(Pass(log, |log| - 1, obs));
            && end.ann == Last(log).ann.(operation := None)
            && end.status.activeOperation == Some(op.(state := Succeeded)) && end.status.phase == PhaseRunning
  {
    var last := Last(log);
    QuietPassFinishes(log, op, obs);
    OutcomeIs(Project(last.(status := BlueprintStatus(last, obs).status)), op, obs);
  }

  /** A pass nothing goes wrong in that neither finds the operation through nor a failed
      cell leaves it in flight until half an hour is over, and then fails it. */
  lemma DeadlineDecides(log: seq<Version>, op: Operation, obs: Observation)
    requires LegalLog(log) && Last(log).ann.operation == Some(op) && op.state == InProgress
    requires op.intent == IntentDigest(Last(log).spec) && Quiet(Last(log), obs)
    requires var judged := Last(log).(status := BlueprintStatus(Last(log), obs).status);
             !Attained(judged, op, obs.syncOf) && !HasFailedCell(judged) && !Drifted(judged, op)
    ensures var end := Last(Pass(log, |log| - 1, obs));
            if obs.now - op.requestedAt <= 30 * MINUTE
            then end.ann == Last(log).ann && end.status.activeOperation == Some(op)
            else end.ann == Last(log).ann.(operation := None)
                 && end.status.activeOperation == Some(op.(state := OpState.Failed, reason := TimedOut))
  {
    var last := Last(log);
    QuietPassFinishes(log, op, obs);
    OutcomeIs(Project(last.(status := BlueprintStatus(last, obs).status)), op, obs);
  }
}
