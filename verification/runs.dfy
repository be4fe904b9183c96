/** Every run of the controller is a chain of legal versions: whatever stale copies the
    passes start from, whatever becomes of their writes and whoever races them, a
    stored version follows from the stored version before it. */
module Runs {
  import opened Workload
  import opened Operations

  predicate Terminal(op: Option<Operation>)
  {
    op.Some? && op.value.state != InProgress
  }

  /** What version `v` may be when `p` is the version before it. The status is written
      only when no request waits to be answered; a decision needs a settled status pass,
      on the same observations, as the version just before; projection needs the
      decision just before, and clearing the projection. */
  ghost predicate Legal(p: Version, v: Version)
  {
    match v.cause
    case Created => false
    case ByUser => exists e: Edit :: v.obj == ApplyEdit(p.obj, e)
    case ByTrigger(now) => Triggered(p.obj, now) == Some(v.obj)
    case ByNames(components) => LegalNames(p.obj, v.obj, components)
    case ByStatus(obs, result) => LegalStatus(p.obj, v.obj, obs) && result == BlueprintStatus(p.obj, obs).result
    case ByEcho => Decide(p.obj) == NoTrigger && v.obj == Project(p.obj)
    case ByJournal(obs) => p.cause == ByStatus(obs, Settled) && LegalDecision(p.obj, v.obj, obs)
    case ByProjection =>
      p.cause.ByJournal? && Terminal(p.obj.ann.operation) && v.obj == WithActive(p.obj, p.obj.ann.operation.value)
    case ByClear => p.cause.ByProjection? && LegalClear(p.obj, v.obj)
  }

  /** The names are filled in once, from the blueprint of that pass. */
  ghost predicate LegalNames(a: Object, b: Object, components: seq<Component>)
  {
    && Decide(a) == NoTrigger && |a.spec.fleetBundleNames| == 0
    && b == a.(spec := a.spec.(fleetBundleNames := BundleNames(a.name, components)))
  }

  ghost predicate LegalStatus(a: Object, b: Object, obs: Observation)
  {
    Decide(a) == NoTrigger && b == Project(a.(status := BlueprintStatus(a, obs).status))
  }

  ghost predicate LegalDecision(a: Object, b: Object, obs: Observation)
  {
    && a.ann.operation.Some?
    && Terminal(b.ann.operation)
    && b == WithJournal(a, Some(Outcome(a, a.ann.operation.value, obs)))
  }

  ghost predicate LegalClear(a: Object, b: Object)
  {
    Terminal(a.ann.operation) && a.status.activeOperation == a.ann.operation && b == WithJournal(a, None)
  }

  ghost predicate LegalAt(log: seq<Version>, i: nat)
  {
    0 < i < |log| ==> Legal(log[i - 1], log[i])
  }

  ghost predicate LegalLog(log: seq<Version>)
  {
    && log != []
    && log[0].cause == Created && Fresh(log[0].obj)
    && forall i: nat :: LegalAt(log, i)
  }

  ghost predicate Extends(log: seq<Version>, next: seq<Version>)
  {
    LegalLog(next) && |log| <= |next| && next[..|log|] == log
  }

  lemma ExtendsTrans(a: seq<Version>, b: seq<Version>, c: seq<Version>)
    requires Extends(a, b) && Extends(b, c)
    ensures Extends(a, c)
  {
  }

  lemma ExtendsSelf(log: seq<Version>)
    requires LegalLog(log)
    ensures Extends(log, log)
  {
  }

  lemma AppendLegal(log: seq<Version>, v: Version)
    requires LegalLog(log) && Legal(log[|log| - 1], v)
    ensures Extends(log, log + [v])
  {
    var next := log + [v];
    forall i: nat ensures LegalAt(next, i) {
      assert LegalAt(log, i);
      if i == |log| { assert next[i - 1] == log[|log| - 1] && next[i] == v; }
    }
    assert next[..|log|] == log;
  }

  lemma PrefixLegal(log: seq<Version>, n: nat)
    requires LegalLog(log) && 0 < n <= |log|
    ensures LegalLog(log[..n])
  {
    forall i: nat ensures LegalAt(log[..n], i) {
      assert LegalAt(log, i);
    }
  }

  lemma RaceLegal(log: seq<Version>, fate: Fate)
    requires LegalLog(log)
    ensures Extends(log, Race(log, fate))
  {
    ExtendsSelf(log);
    if fate.Raced? {
      AppendLegal(log, Version(ApplyEdit(Last(log), fate.edit), ByUser));
    }
  }

  /** An accepted write was made on the current version, with nobody in between. */
  lemma AcceptedIsCurrent(log: seq<Version>, w: Copy, fate: Fate)
    requires log != [] && w.rv < |log|
    ensures Accepted(log, w, fate) <==> w.rv == |log| - 1 && (fate.Lands? || fate.LandsUnanswered?)
    ensures Accepted(log, w, fate) ==> Race(log, fate) == log
  {
  }

  /** An `Update` only ever adds a version, and only a legal one. */
  lemma PutMetaLegal(log: seq<Version>, w: Copy, fate: Fate, cause: Cause)
    requires LegalLog(log) && w.rv < |log|
    requires w.rv == |log| - 1 ==> Legal(log[|log| - 1], Version(w.obj.(status := Last(log).status), cause))
    ensures Extends(log, PutMeta(log, w, fate, cause).log)
    ensures PutMeta(log, w, fate, cause).ok ==>
              Answered(log, PutMeta(log, w, fate, cause), w.obj.(status := Last(log).status), cause)
    ensures !PutMeta(log, w, fate, cause).ok ==> PutMeta(log, w, fate, cause).copy == w
  {
    AcceptedIsCurrent(log, w, fate);
    RaceLegal(log, fate);
    if Accepted(log, w, fate) {
      AppendLegal(log, Version(w.obj.(status := Last(log).status), cause));
    }
  }

  lemma PutStatusLegal(log: seq<Version>, w: Copy, fate: Fate, cause: Cause)
    requires LegalLog(log) && w.rv < |log|
    requires w.rv == |log| - 1 ==> Legal(log[|log| - 1], Version(Last(log).(status := w.obj.status), cause))
    ensures Extends(log, PutStatus(log, w, fate, cause).log)
    ensures PutStatus(log, w, fate, cause).ok ==>
              Answered(log, PutStatus(log, w, fate, cause), Last(log).(status := w.obj.status), cause)
  {
    AcceptedIsCurrent(log, w, fate);
    RaceLegal(log, fate);
    if Accepted(log, w, fate) {
      AppendLegal(log, Version(Last(log).(status := w.obj.status), cause));
    }
  }

  /** An answered write leaves the copy equal to the newest stored version. */
  ghost predicate Answered(log: seq<Version>, p: Put, stored: Object, cause: Cause)
  {
    p.log == log + [Version(stored, cause)] && p.copy == Copy(stored, |log|)
  }

  lemma StatusStageLegal(log: seq<Version>, at: nat, obs: Observation)
    requires LegalLog(log) && at < |log| && Decide(log[at].obj) == NoTrigger
    ensures var s := StatusStage(log, Copy(log[at].obj, at), obs);
            var p := Persisted(s, obs);
            && Extends(log, p.log)
            && (p.ok && s.result == Settled ==>
                  p.copy == Copy(Last(p.log), |p.log| - 1) && p.log[|p.log| - 1].cause == ByStatus(obs, Settled))
  {
    var w := Copy(log[at].obj, at);
    var s := StatusStage(log, w, obs);
    if NeedsNames(w.obj, obs) {
      NamesStageLegal(log, at, obs);
    } else {
      PutStatusLegal(log, s.copy.(obj := Project(s.copy.obj)), obs.fate(StatusWrite), ByStatus(obs, s.result));
    }
  }

  lemma NamesStageLegal(log: seq<Version>, at: nat, obs: Observation)
    requires LegalLog(log) && at < |log| && Decide(log[at].obj) == NoTrigger && NeedsNames(log[at].obj, obs)
    ensures var s := StatusStage(log, Copy(log[at].obj, at), obs);
            s.result != Settled && Extends(log, Persisted(s, obs).log)
  {
    var s := StatusStage(log, Copy(log[at].obj, at), obs);
    NamesWriteLegal(log, at, obs);
    EchoLegal(s.log, s.copy, obs);
    ExtendsTrans(log, s.log, Persisted(s, obs).log);
  }

  /** After the names were written the copy still has no request to answer, and it is what
      is stored if it is current. */
  lemma NamesWriteLegal(log: seq<Version>, at: nat, obs: Observation)
    requires LegalLog(log) && at < |log| && Decide(log[at].obj) == NoTrigger && NeedsNames(log[at].obj, obs)
    ensures var s := StatusStage(log, Copy(log[at].obj, at), obs);
            && s.result != Settled && s.cause == ByEcho && Extends(log, s.log)
            && s.copy.rv < |s.log| && (s.copy.rv == |s.log| - 1 ==> Echoes(s.log, s.copy))
  {
    var w := Copy(log[at].obj, at);
    var named := w.obj.(spec := w.obj.spec.(fleetBundleNames := BundleNames(w.obj.name, obs.blueprint.value)));
    PutMetaLegal(log, w.(obj := named), obs.fate(NamesWrite), ByNames(obs.blueprint.value));
    NamesAreIgnored(w.obj, named);
  }

  ghost predicate Echoes(log: seq<Version>, c: Copy)
  {
    log != [] && Decide(Last(log)) == NoTrigger && Project(c.obj).status == Project(Last(log)).status
  }

  lemma EchoLegal(log: seq<Version>, c: Copy, obs: Observation)
    requires LegalLog(log) && c.rv < |log| && (c.rv == |log| - 1 ==> Echoes(log, c))
    ensures Extends(log, PutStatus(log, c.(obj := Project(c.obj)), obs.fate(StatusWrite), ByEcho).log)
  {
    PutStatusLegal(log, c.(obj := Project(c.obj)), obs.fate(StatusWrite), ByEcho);
  }

  lemma NamesAreIgnored(a: Object, b: Object)
    requires b == a.(spec := a.spec.(fleetBundleNames := b.spec.fleetBundleNames))
    ensures Project(a).status == Project(b).status
    ensures Decide(a) == Decide(b)
  {
  }

  lemma OperationStageLegal(log: seq<Version>, obs: Observation)
    requires LegalLog(log) && log[|log| - 1].cause == ByStatus(obs, Settled)
    ensures Extends(log, OperationStage(log, Copy(Last(log), |log| - 1), obs))
  {
    var w := Copy(Last(log), |log| - 1);
    ExtendsSelf(log);
    if w.obj.ann.operation.Some? {
      var outcome := Outcome(w.obj, w.obj.ann.operation.value, obs);
      if outcome.state != InProgress {
        var decided := w.(obj := WithJournal(w.obj, Some(outcome)));
        PutMetaLegal(log, decided, obs.fate(JournalWrite), ByJournal(obs));
        var journaled := PutMeta(log, decided, obs.fate(JournalWrite), ByJournal(obs));
        if journaled.ok {
          FinishLegal(journaled.log, journaled.copy, outcome, obs);
          ExtendsTrans(log, journaled.log, OperationStage(log, w, obs));
        }
      }
    }
  }

  /** Projection and clearing, once the terminal journal is stored. */
  lemma FinishLegal(log: seq<Version>, c: Copy, outcome: Operation, obs: Observation)
    requires LegalLog(log) && c == Copy(Last(log), |log| - 1) && log[|log| - 1].cause.ByJournal?
    requires c.obj.ann.operation == Some(outcome) && outcome.state != InProgress
    ensures var projected := PutStatus(log, c.(obj := WithActive(c.obj, outcome)), obs.fate(ProjectWrite),
                                       ByProjection);
            && Extends(log, projected.log)
            && (projected.ok ==>
                  var d := projected.copy;
                  var cleared := d.(obj := WithJournal(d.obj, None));
                  Extends(log, PutMeta(projected.log, cleared, obs.fate(ClearWrite), ByClear).log))
  {
    PutStatusLegal(log, c.(obj := WithActive(c.obj, outcome)), obs.fate(ProjectWrite), ByProjection);
    var projected := PutStatus(log, c.(obj := WithActive(c.obj, outcome)), obs.fate(ProjectWrite), ByProjection);
    if projected.ok {
      var d := projected.copy.(obj := WithJournal(projected.copy.obj, None));
      PutMetaLegal(projected.log, d, obs.fate(ClearWrite), ByClear);
      ExtendsTrans(log, projected.log, PutMeta(projected.log, d, obs.fate(ClearWrite), ByClear).log);
    }
  }

  lemma ConcludedIsLegal(log: seq<Version>, p: Put, result: PassResult, obs: Observation)
    requires p.log != [] && Extends(log, p.log)
    requires p.ok && result == Settled ==>
               p.copy == Copy(Last(p.log), |p.log| - 1) && p.log[|p.log| - 1].cause == ByStatus(obs, Settled)
    ensures Extends(log, Concluded(p, result, obs))
  {
    if p.ok && result == Settled {
      OperationStageLegal(p.log, obs);
      ExtendsTrans(log, p.log, OperationStage(p.log, p.copy, obs));
    }
  }

  /** However stale the copy a pass starts from and wherever the pass is cut off, it
      forgets nothing that was stored and adds only legal versions. */
  lemma PassIsLegal(log: seq<Version>, at: nat, obs: Observation)
    requires LegalLog(log) && at < |log|
    ensures Extends(log, Pass(log, at, obs))
  {
    var o := log[at].obj;
    if Triggered(o, obs.now).Some? {
      PutMetaLegal(log, Copy(Triggered(o, obs.now).value, at), obs.fate(TriggerWrite), ByTrigger(obs.now));
    } else {
      StatusStageLegal(log, at, obs);
      var s := StatusStage(log, Copy(o, at), obs);
      ConcludedIsLegal(log, Persisted(s, obs), s.result, obs);
    }
  }

  /** Every run, from any fresh object, is a legal log. */
  lemma {:induction false} RunsAreLegal(o: Object, events: seq<Event>)
    requires Fresh(o)
    ensures LegalLog(Run(o, events))
  {
    if events != [] {
      var before, e := Run(o, events[..|events| - 1]), events[|events| - 1];
      RunsAreLegal(o, events[..|events| - 1]);
      match e
      case UserEdits(edit) => AppendLegal(before, Version(ApplyEdit(Last(before), edit), ByUser));
      case Reconciles(at, obs) => if at < |before| { PassIsLegal(before, at, obs); }
    } else {
      assert LegalLog([Version(o, Created)]) by { assert forall i: nat :: LegalAt([Version(o, Created)], i); }
    }
  }

  // What a legal step can do to the machine's own state

  /** Between two versions: who may change what. Everything but a trigger leaves the
      handled list, the epoch and the requests alone, and never starts an operation;
      only a status pass changes what is deployed. */
  lemma StepFrame(p: Version, v: Version)
    requires Legal(p, v)
    ensures !v.cause.ByTrigger? ==>
              && v.obj.ann.handled == p.obj.ann.handled
              && v.obj.ann.retryEpoch == p.obj.ann.retryEpoch
              && (v.obj.ann.operation != p.obj.ann.operation ==> v.cause.ByJournal? || v.cause.ByClear?)
              && (v.cause.ByJournal? ==> Terminal(v.obj.ann.operation))
    ensures v.cause.ByTrigger? ==> v.obj.status == p.obj.status
    ensures !v.cause.ByStatus? ==> v.obj.status.deployedSource == p.obj.status.deployedSource
    ensures v.obj.spec != p.obj.spec ==> v.cause.ByUser? || v.cause.ByTrigger? || v.cause.ByNames?
  {
  }
}
