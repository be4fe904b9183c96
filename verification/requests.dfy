/** What each request asks for, told by its text and by the object it is found on. */
module Requests {
  import opened Workload
  import opened Phases
  import opened Operations
  import opened Runs
  import opened Triggers
  import opened Success

  /** An upgrade request is "nonce|target", or a nonce alone, which asks for no version. */
  ghost predicate ReadsAs(v: string, nonce: string, target: string)
  {
    '|' !in nonce && (v == nonce + "|" + target || (v == nonce && target == ""))
  }

  /** Every text reads as exactly one nonce and target. */
  lemma {:induction false} EveryRequestReads(v: string) returns (nonce: string, target: string)
    ensures ReadsAs(v, nonce, target)
    ensures forall n, t :: ReadsAs(v, n, t) ==> n == nonce && t == target
  {
    nonce, target := FirstBar(v);
    forall n, t | ReadsAs(v, n, t) ensures n == nonce && t == target {
      SplitRequestReadsBack(n, t);
      SplitRequestReadsBack(nonce, target);
    }
  }

  lemma {:induction false} FirstBar(v: string) returns (nonce: string, target: string)
    ensures ReadsAs(v, nonce, target)
  {
    if v == "" {
      nonce, target := "", "";
    } else if v[0] == '|' {
      nonce, target := "", v[1..];
      assert v == "" + "|" + target;
    } else {
      var front, rest := FirstBar(v[1..]);
      nonce, target := [v[0]] + front, rest;
      assert v == [v[0]] + v[1..];
      assert [v[0]] + (front + "|" + rest) == nonce + "|" + target;
    }
  }

  predicate HasVersion(spec: Spec, version: string)
  {
    if spec.blueprint.Some? then spec.blueprint.value.version == version else version == ""
  }

  /** The spec asks for `version` of its blueprint, and for the rest as before. */
  function AtVersion(spec: Spec, version: string): Spec
  {
    if spec.blueprint.None? then spec else spec.(blueprint := Some(BlueprintRef(spec.blueprint.value.name, version)))
  }

  /** The journal of an operation as it starts. Times are kept to the second. */
  function Started(opType: OpType, nonce: string, target: string, digest: AggregateDigest, epoch: int, now: int,
                   spec: Spec): Option<Operation>
  {
    Some(Operation(opType, nonce, target, digest, epoch, now - now % SECOND, IntentDigest(spec), InProgress, NoReason))
  }

  // One request

  /** An upgrade request that was not handled, for a version the spec does not have: the
      spec gets that version and the journal that target, and nothing else but the
      bookkeeping changes. */
  lemma UpgradeStarts(o: Object, now: int, nonce: string, target: string)
    requires o.ann.upgradeRequest != "" && ReadsAs(o.ann.upgradeRequest, nonce, target)
    requires "Upgrade|" + nonce !in o.ann.handled && !HasVersion(o.spec, target)
    ensures var spec := AtVersion(o.spec, target);
            Triggered(o, now)
            == Some(o.(spec := spec,
                       ann := o.ann.(upgradeRequest := "",
                                     handled := AddHandled(o.ann.handled, "Upgrade|" + nonce),
                                     operation := Started(Upgrade, nonce, target, NoAggregate, 0, now, spec),
                                     superseded := Outgoing(o.ann))))
  {
    SplitRequestReadsBack(nonce, target);
    assert "Upgrade" + "|" + nonce == "Upgrade|" + nonce;
  }

  /** The operation that was under way stays readable. */
  function Outgoing(ann: Annotations): Option<Operation>
  {
    if ann.operation.Some? then ann.operation else ann.superseded
  }

  /** For the version the spec has already it is a retry instead, and the retry request
      goes in its place. */
  lemma SameVersionRetries(o: Object, now: int, nonce: string, target: string)
    requires o.ann.upgradeRequest != "" && ReadsAs(o.ann.upgradeRequest, nonce, target)
    requires "Upgrade|" + nonce !in o.ann.handled && HasVersion(o.spec, target)
    ensures Triggered(o, now) == Some(Retried(o, now, nonce))
  {
    SplitRequestReadsBack(nonce, target);
    assert "Upgrade" + "|" + nonce == "Upgrade|" + nonce;
    assert "Retry" + "|" + nonce == "Retry|" + nonce;
  }

  function Retried(o: Object, now: int, nonce: string): Object
  {
    var epoch := o.ann.retryEpoch + 1;
    o.(ann := o.ann.(retryRequest := "", retryEpoch := epoch, handled := AddHandled(o.ann.handled, "Retry|" + nonce),
                     operation := Started(Retry, nonce, "", NoAggregate, epoch, now, o.spec)))
  }

  /** A rollback goes to the version and the digest on record, unless there is no record or
      it says the version the spec has: then it is put aside. */
  lemma RollbackStarts(o: Object, now: int)
    requires o.ann.upgradeRequest == "" && o.ann.rollbackRequest != ""
    requires "Rollback|" + o.ann.rollbackRequest !in o.ann.handled
    ensures var nonce, deployed := o.ann.rollbackRequest, o.status.deployedSource;
            var done := o.ann.(rollbackRequest := "", handled := AddHandled(o.ann.handled, "Rollback|" + nonce));
            if deployed.None? || (o.spec.blueprint.Some? && o.spec.blueprint.value.version == deployed.value.version)
            then Triggered(o, now) == Some(o.(ann := done))
            else
              var version, digest := deployed.value.version, deployed.value.digest;
              var spec := AtVersion(o.spec, version);
              Triggered(o, now)
              == Some(o.(spec := spec,
                         ann := done.(operation := Started(Rollback, nonce, version, digest, 0, now, spec),
                                      superseded := Outgoing(o.ann))))
  {
    assert "Rollback" + "|" + o.ann.rollbackRequest == "Rollback|" + o.ann.rollbackRequest;
  }

  /** A retry keeps its nonce and raises the epoch. */
  lemma RetryStarts(o: Object, now: int)
    requires o.ann.upgradeRequest == "" && o.ann.rollbackRequest == "" && o.ann.retryRequest != ""
    requires "Retry|" + o.ann.retryRequest !in o.ann.handled
    ensures Triggered(o, now) == Some(Retried(o, now, o.ann.retryRequest))
  {
    assert "Retry" + "|" + o.ann.retryRequest == "Retry|" + o.ann.retryRequest;
  }

  /** Nothing is started exactly when there is no request, or the first one there is was
      handled before. */
  lemma NothingStarts(o: Object, now: int, nonce: string, target: string)
    requires ReadsAs(o.ann.upgradeRequest, nonce, target)
    ensures Triggered(o, now).None? <==>
            if o.ann.upgradeRequest != "" then "Upgrade|" + nonce in o.ann.handled
            else if o.ann.rollbackRequest != "" then "Rollback|" + o.ann.rollbackRequest in o.ann.handled
            else o.ann.retryRequest == "" || "Retry|" + o.ann.retryRequest in o.ann.handled
  {
    SplitRequestReadsBack(nonce, target);
    assert "Upgrade" + "|" + nonce == "Upgrade|" + nonce;
    assert "Rollback" + "|" + o.ann.rollbackRequest == "Rollback|" + o.ann.rollbackRequest;
    assert "Retry" + "|" + o.ann.retryRequest == "Retry|" + o.ann.retryRequest;
  }

  // Runs

  /** What the object of version `p` asks for is what `op` is. */
  ghost predicate AskedFor(p: Object, op: Operation)
  {
    match op.opType
    case Upgrade =>
      ReadsAs(p.ann.upgradeRequest, op.nonce, op.targetVersion) && !HasVersion(p.spec, op.targetVersion)
      && op.expectedDigest == NoAggregate
    case Rollback =>
      && p.ann.upgradeRequest == "" && p.ann.rollbackRequest == op.nonce && p.status.deployedSource.Some?
      && p.status.deployedSource.value.version == op.targetVersion
      && p.status.deployedSource.value.digest == op.expectedDigest
    case Retry =>
      && op.retryEpoch == p.ann.retryEpoch + 1
      && if p.ann.upgradeRequest == "" then p.ann.retryRequest == op.nonce
         else exists target :: ReadsAs(p.ann.upgradeRequest, op.nonce, target) && HasVersion(p.spec, target)
  }

  lemma StartIsAsked(p: Object, now: int, op: Operation)
    requires Triggered(p, now).Some? && Triggered(p, now).value.ann.operation == Some(op)
    requires Decide(p).StartVersion? || Decide(p).StartRetry?
    ensures AskedFor(p, op) && op.requestedAt <= now < op.requestedAt + SECOND
    ensures op.intent == IntentDigest(Triggered(p, now).value.spec)
    ensures Triggered(p, now).value.spec
         == if op.opType == Retry then p.spec else AtVersion(p.spec, op.targetVersion)
  {
    var nonce, target := EveryRequestReads(p.ann.upgradeRequest);
    NothingStarts(p, now, nonce, target);
    if p.ann.upgradeRequest != "" {
      if HasVersion(p.spec, target) {
        SameVersionRetries(p, now, nonce, target);
      } else {
        UpgradeStarts(p, now, nonce, target);
      }
    } else if p.ann.rollbackRequest != "" {
      RollbackStarts(p, now);
    } else {
      RetryStarts(p, now);
    }
  }

  /** In every run, an operation in flight is what some request asked for when it was
      started, and the version stored then had the spec it asked for. */
  lemma OperationWasAsked(log: seq<Version>, j: nat, op: Operation) returns (i: nat)
    requires LegalLog(log) && j < |log|
    requires log[j].obj.ann.operation == Some(op) && op.state == InProgress
    ensures StartedBy(log, i, j, op) && AskedFor(log[i - 1].obj, op)
    ensures op.intent == IntentDigest(log[i].obj.spec)
    ensures log[i].obj.spec
         == if op.opType == Retry then log[i - 1].obj.spec else AtVersion(log[i - 1].obj.spec, op.targetVersion)
  {
    i := OperationHasAStart(log, j, op);
    assert LegalAt(log, i);
    StartIsAsked(log[i - 1].obj, log[i].cause.now, op);
  }
}
