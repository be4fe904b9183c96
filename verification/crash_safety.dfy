/** The result of an operation survives crashes, lost answers and races between the
    three writes that finish it. */
module CrashSafety {
  import opened Workload
  import opened Operations
  import opened Runs

  /** A stored terminal operation is never decided again. What follows it holds the same
      operation, or starts another one, or has it cleared; and it is cleared only once
      the status of the stored object shows it. Every status write on top of it shows
      exactly that operation. */
  lemma TerminalJournalIsFinal(p: Version, v: Version)
    requires Legal(p, v) && Terminal(p.obj.ann.operation)
    ensures v.obj.ann.operation == p.obj.ann.operation
            || (v.cause.ByTrigger? && v.obj.ann.operation.Some? && v.obj.ann.operation.value.state == InProgress)
            || (v.cause.ByClear? && v.obj.ann.operation.None? && p.obj.status.activeOperation == p.obj.ann.operation)
    ensures v.obj.status != p.obj.status ==> v.obj.status.activeOperation == p.obj.ann.operation
  {
  }

  ghost predicate NoTriggerIn(log: seq<Version>, i: nat, j: nat)
    requires j < |log|
  {
    forall k :: i < k <= j ==> !log[k].cause.ByTrigger?
  }

  ghost predicate MovedOn(log: seq<Version>, i: nat, j: nat, op: Operation)
    requires j < |log|
  {
    exists k :: i <= k <= j && IntentDigest(log[k].obj.spec) != op.intent
  }

  /** Where a decided operation can be found: in the journal, or else in the status,
      unless the spec has asked for something else since. */
  ghost predicate Kept(log: seq<Version>, i: nat, j: nat, op: Operation)
    requires j < |log|
  {
    var o := log[j].obj;
    if o.ann.operation.Some? then o.ann.operation.value == op
    else o.status.activeOperation == Some(op) || (o.status.activeOperation.None? && MovedOn(log, i, j, op))
  }

  /** Once a decision is stored it is kept at every later version, for as long as no new
      operation is started, whatever crashes and races happen in between. */
  lemma {:induction false} DecisionIsNeverLost(log: seq<Version>, i: nat, j: nat, op: Operation)
    requires LegalLog(log) && i <= j < |log|
    requires log[i].obj.ann.operation == Some(op) && op.state != InProgress
    requires NoTriggerIn(log, i, j)
    ensures Kept(log, i, j, op)
    decreases j
  {
    if i < j {
      DecisionIsNeverLost(log, i, j - 1, op);
      assert LegalAt(log, j);
      var a, b := log[j - 1].obj, log[j].obj;
      if MovedOn(log, i, j - 1, op) {
        var k :| i <= k <= j - 1 && IntentDigest(log[k].obj.spec) != op.intent;
        assert MovedOn(log, i, j, op);
      }
      if a.ann.operation.Some? {
        TerminalJournalIsFinal(log[j - 1], log[j]);
      } else {
        StepFrame(log[j - 1], log[j]);
        KeptInStatus(log[j - 1], log[j], op);
        if IntentDigest(a.spec) != op.intent { assert MovedOn(log, i, j, op); }
      }
    }
  }

  /** Without a journal the shown operation stays, or is retired because the spec asks
      for something else. */
  lemma KeptInStatus(p: Version, v: Version, op: Operation)
    requires Legal(p, v) && !v.cause.ByTrigger? && p.obj.ann.operation.None?
    requires op.state != InProgress
    ensures v.obj.ann.operation.None?
    ensures p.obj.status.activeOperation == Some(op) ==>
              v.obj.status.activeOperation == Some(op)
              || (v.obj.status.activeOperation.None? && IntentDigest(p.obj.spec) != op.intent)
    ensures p.obj.status.activeOperation.None? ==> v.obj.status.activeOperation.None?
  {
    if v.cause.ByStatus? {
      StatusLeavesOperation(p.obj, v.cause.obs);
    }
  }

  /** The status pass itself does not touch the shown operation. */
  lemma StatusLeavesOperation(o: Object, obs: Observation)
    ensures BlueprintStatus(o, obs).status.activeOperation == o.status.activeOperation
  {
    if o.spec.blueprint.Some? && obs.blueprint.Present? && RenderAll(o, EnabledOf(o, obs), obs).Stopped? {
      RenderLeavesOperation(o, EnabledOf(o, obs), obs);
    }
  }

  lemma {:induction false} RenderLeavesOperation(o: Object, components: seq<Component>, obs: Observation)
    requires RenderAll(o, components, obs).Stopped?
    ensures RenderAll(o, components, obs).outcome.status.activeOperation == o.status.activeOperation
    decreases |components|
  {
    var n := |components| - 1;
    var front := RenderAll(o, components[..n], obs);
    if front.Stopped? {
      RenderLeavesOperation(o, components[..n], obs);
    } else {
      OneRenderLeavesOperation(o, components[n], obs.render(n), front.baselines, front.digests, obs);
    }
  }

  lemma OneRenderLeavesOperation(o: Object, c: Component, answer: RenderAnswer, baselines: seq<RenderBaseline>,
                                 digests: map<Ref, RenderDigest>, obs: Observation)
    requires RenderOne(o, c, answer, baselines, digests, obs).Stopped?
    ensures RenderOne(o, c, answer, baselines, digests, obs).outcome.status.activeOperation == o.status.activeOperation
  {
  }

  // Passes nothing goes wrong in

  /** No request is acted on, the status pass settles, and every write is answered. */
  ghost predicate Quiet(o: Object, obs: Observation)
  {
    && Triggered(o, obs.now).None?
    && !NeedsNames(o, obs)
    && BlueprintStatus(o, obs).result == Settled
    && forall w: Write :: obs.fate(w).Lands?
  }

  /** One quiet pass over an object with an operation in its journal. The object that the
      operation is judged by is the one the pass has just stored. A terminal operation
      ends up in the status and out of the journal, whichever of the three writes an
      earlier pass got to. One in flight is either left alone or decided and finished in
      the same way, and decided it is when its deadline has passed. */
  lemma QuietPassFinishes(log: seq<Version>, op: Operation, obs: Observation)
    requires LegalLog(log) && Last(log).ann.operation == Some(op) && Quiet(Last(log), obs)
    ensures var last := Last(log);
            var judged := Project(last.(status := BlueprintStatus(last, obs).status));
            var outcome := Outcome(judged, op, obs);
            var end := Last(Pass(log, |log| - 1, obs));
            && end.status == judged.status.(activeOperation := Some(outcome))
            && end.spec == last.spec
            && end.ann == last.ann.(operation := if outcome.state == InProgress then Some(op) else None)
            && (op.state != InProgress ==> outcome == op)
            && (obs.now - op.requestedAt > DEADLINE ==> outcome.state != InProgress)
            && (outcome.state == InProgress ==> outcome == op)
  {
    var last := Last(log);
    var judged := Project(last.(status := BlueprintStatus(last, obs).status));
    QuietStatusPass(log, obs);
    StatusLeavesOperation(last, obs);
    QuietOperationStage(log + [Version(judged, ByStatus(obs, Settled))], op, obs);
  }

  lemma QuietStatusPass(log: seq<Version>, obs: Observation)
    requires log != [] && Quiet(Last(log), obs)
    ensures var judged := Project(Last(log).(status := BlueprintStatus(Last(log), obs).status));
            Pass(log, |log| - 1, obs)
            == OperationStage(log + [Version(judged, ByStatus(obs, Settled))], Copy(judged, |log|), obs)
  {
    var judged := Project(Last(log).(status := BlueprintStatus(Last(log), obs).status));
    var p := Persisted(StatusStage(log, Copy(Last(log), |log| - 1), obs), obs);
    assert Answered(log, p, judged, ByStatus(obs, Settled));
  }

  lemma QuietOperationStage(log: seq<Version>, op: Operation, obs: Observation)
    requires log != [] && Last(log).ann.operation == Some(op)
    requires forall w: Write :: obs.fate(w).Lands?
    ensures var last := Last(log);
            var outcome := Outcome(last, op, obs);
            var end := Last(OperationStage(log, Copy(last, |log| - 1), obs));
            if outcome.state == InProgress then end == last
            else end == WithJournal(WithActive(last, outcome), None)
  {
  }
}
