/** What each write does to the stored object and to the copy, and what a pass writes. */
module Writes {
  import opened Workload
  import opened Keys
  import opened Phases
  import opened Operations
  import opened Runs

  // One write

  /** Somebody else's write, which touches the spec and the requests and nothing else. */
  function Edited(o: Object, e: Edit): Object
  {
    Object(o.name, o.createdAt, e.spec,
           Annotations(e.upgradeRequest, e.rollbackRequest, e.retryRequest,
                       o.ann.handled, o.ann.operation, o.ann.superseded, o.ann.retryEpoch),
           o.status)
  }

  /** What becomes of a write that would store `stored`: it is stored if and only if the
      copy is current and nobody refuses it or gets there first, and the copy learns of it
      if and only if it is answered. */
  ghost predicate Becomes(log: seq<Version>, w: Copy, fate: Fate, stored: Object, cause: Cause, p: Put)
    requires log != []
  {
    match fate
    case Refused => p == Put(log, w, false)
    case Raced(e) => p == Put(log + [Version(Edited(Last(log), e), ByUser)], w, false)
    case Lands =>
      p == if w.rv == |log| - 1 then Put(log + [Version(stored, cause)], Copy(stored, |log|), true)
           else Put(log, w, false)
    case LandsUnanswered =>
      p == if w.rv == |log| - 1 then Put(log + [Version(stored, cause)], w, false) else Put(log, w, false)
  }

  /** An update stores everything but the status, a status update the status alone. */
  lemma UpdatesBecome(log: seq<Version>, w: Copy, fate: Fate, cause: Cause)
    requires log != [] && w.rv < |log|
    ensures var o := Object(w.obj.name, w.obj.createdAt, w.obj.spec, w.obj.ann, Last(log).status);
            Becomes(log, w, fate, o, cause, PutMeta(log, w, fate, cause))
    ensures var last := Last(log);
            var o := Object(last.name, last.createdAt, last.spec, last.ann, w.obj.status);
            Becomes(log, w, fate, o, cause, PutStatus(log, w, fate, cause))
  {
  }

  // The shown operation

  /** Every status write shows the journal while there is one; after that it leaves the
      operation shown, unless that is over and the spec asks for something else. */
  lemma ShownIs(o: Object)
    ensures var shown := o.status.activeOperation;
            Project(o)
            == o.(status := o.status.(activeOperation :=
                    if o.ann.operation.Some? then o.ann.operation
                    else if shown.Some? && shown.value.state != InProgress && shown.value.intent != IntentDigest(o.spec)
                    then None else shown))
  {
  }

  // What a pass writes

  lemma {:induction false} NamesAre(workload: string, components: seq<Component>, i: nat)
    requires i < |components|
    ensures |BundleNames(workload, components)| == |components|
    ensures BundleNames(workload, components)[i] == BundleName(workload, components[i].chartName)
  {
    NamesLength(workload, components);
    if i < |components| - 1 { NamesAre(workload, components[..|components| - 1], i); }
    NamesLength(workload, components[..|components| - 1]);
  }

  lemma {:induction false} NamesLength(workload: string, components: seq<Component>)
    ensures |BundleNames(workload, components)| == |components|
  {
    if components != [] { NamesLength(workload, components[..|components| - 1]); }
  }

  /** A workload without bundle names gets them, one for each component of the blueprint, in
      a write of its own, and nothing is rendered in that pass. */
  lemma NamesAreFilledIn(log: seq<Version>, obs: Observation)
    requires log != [] && Triggered(Last(log), obs.now).None? && forall w: Write :: obs.fate(w).Lands?
    requires Last(log).spec.blueprint.Some? && obs.blueprint.Present? && Last(log).spec.fleetBundleNames == []
    ensures var o, components := Last(log), obs.blueprint.value;
            var named := o.(spec := o.spec.(fleetBundleNames := BundleNames(o.name, components)));
            Pass(log, |log| - 1, obs)
            == log + [Version(named, ByNames(components)), Version(Project(named), ByEcho)]
  {
    var o, components := Last(log), obs.blueprint.value;
    var named := o.(spec := o.spec.(fleetBundleNames := BundleNames(o.name, components)));
    var w := Copy(o, |log| - 1);
    UpdatesBecome(log, w.(obj := named), obs.fate(NamesWrite), ByNames(components));
    var s := StatusStage(log, w, obs);
    UpdatesBecome(s.log, s.copy.(obj := Project(s.copy.obj)), obs.fate(StatusWrite), ByEcho);
  }

  /** Such a pass comes back at once when the names were taken, and is an error when not. */
  lemma NamesComeBack(log: seq<Version>, w: Copy, obs: Observation)
    requires log != [] && w.rv < |log|
    requires w.obj.spec.blueprint.Some? && obs.blueprint.Present? && w.obj.spec.fleetBundleNames == []
    ensures StatusStage(log, w, obs).result
         == if w.rv == |log| - 1 && obs.fate(NamesWrite).Lands? then Requeued else Errored
  {
    var named := w.obj.(spec := w.obj.spec.(fleetBundleNames := BundleNames(w.obj.name, obs.blueprint.value)));
    UpdatesBecome(log, w.(obj := named), obs.fate(NamesWrite), ByNames(obs.blueprint.value));
  }

  /** Any other pass without a request stores its status, whatever its result, and goes on
      to the operation only if it settled. */
  lemma StatusIsStored(log: seq<Version>, obs: Observation)
    requires log != [] && Triggered(Last(log), obs.now).None? && obs.fate(StatusWrite).Lands?
    requires Last(log).spec.blueprint.None? || !obs.blueprint.Present? || Last(log).spec.fleetBundleNames != []
    ensures var o, s := Last(log), BlueprintStatus(Last(log), obs);
            var stored := log + [Version(Project(o.(status := s.status)), ByStatus(obs, s.result))];
            Pass(log, |log| - 1, obs)
            == if s.result == Settled && o.ann.operation.Some?
               then OperationStage(stored, Copy(Last(stored), |log|), obs) else stored
  {
    var s := StatusStage(log, Copy(Last(log), |log| - 1), obs);
    UpdatesBecome(log, s.copy.(obj := Project(s.copy.obj)), obs.fate(StatusWrite), s.cause);
  }

  /** A workload without a blueprint has nothing to render: its status stays. */
  lemma NothingToRender(o: Object, obs: Observation)
    requires o.spec.blueprint.None?
    ensures BlueprintStatus(o, obs) == StatusOutcome(o.status, Settled)
  {
  }
}
