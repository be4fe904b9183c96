/** One pass of the extension controller, as far as its clocks are concerned: four waits
    timed by annotations, and the retry of failures. Times are in nanoseconds; a pass
    reads the clock once. */
module WaitClocks {
  import opened Workload
  import opened Phases

  const HEALTH_CHECK_INTERVAL := 60 * SECOND
  const MAX_FAILURE_RETRY_INTERVAL := 15 * MINUTE
  const READINESS_REQUEUE := 10 * SECOND
  const PENDING_REQUEUE := 30 * SECOND
  const PENDING_TIMEOUT := 15 * MINUTE

  datatype Marker = DeploymentWait | ServiceWait | ReleaseWait | ExtensionWait

  /** An annotation's text either parses as a time or it does not. */
  datatype Stamp = Garbled | At(time: int)

  type Markers = map<Marker, Stamp>

  datatype Verdict =
    | VerdictPending | VerdictPendingTimedOut | VerdictReadinessTimedOut | VerdictInstalled | VerdictOther

  datatype Condition = Condition(ok: bool, verdict: Verdict, since: int)

  datatype ExtPhase = Installing | Installed | InstallFailed

  /** What is stored between passes. */
  datatype Ext = Ext(markers: Markers, phase: ExtPhase, ready: Option<Condition>, revision: int)

  /** What a pass works on: its own copy, and the annotations it has stored so far. */
  datatype Work = Work(markers: Markers, stored: Markers, phase: ExtPhase, ready: Option<Condition>, revision: int)

  datatype End = Requeue(after: int) | RequeueNow | Error | Stop

  datatype Progress = Running(work: Work) | Ended(work: Work, end: End)

  // Clocks and conditions

  /** RFC 3339 text has a resolution of one second. */
  function ToSecond(now: int): (t: int)
    ensures t <= now < t + SECOND
  {
    now / SECOND * SECOND
  }

  /** A start that does not parse or lies in the future is no start. */
  function Since(markers: Markers, m: Marker, now: int): Option<int>
  {
    if m in markers && markers[m].At? && markers[m].time <= now then Some(markers[m].time) else None
  }

  function Stamped(w: Work, m: Marker, now: int): Work
  {
    w.(markers := w.markers[m := At(ToSecond(now))])
  }

  function UpdateAnnotations(w: Work, ok: bool): Work
  {
    if ok then w.(stored := w.markers) else w
  }

  function Live(markers: Markers, ms: set<Marker>, now: int): set<Marker>
  {
    set m | m in ms && Since(markers, m, now).Some?
  }

  datatype Cleared = Cleared(work: Work, ok: bool)

  /** Makes no write when there is nothing to clear. */
  function ClearMarkers(w: Work, ms: set<Marker>, now: int, ok: bool): Cleared
  {
    var live := Live(w.markers, ms, now);
    if live == {} then Cleared(w, true)
    else Cleared(UpdateAnnotations(w.(markers := w.markers - live), ok), ok)
  }

  /** The transition time moves only when the status does. */
  function SetReady(ready: Option<Condition>, ok: bool, verdict: Verdict, now: int): Option<Condition>
  {
    Some(Condition(ok, verdict, if ready.Some? && ready.value.ok == ok then ready.value.since else now))
  }

  function FailureRetryInterval(ready: Option<Condition>, now: int): int
  {
    if ready.None? then HEALTH_CHECK_INTERVAL
    else
      var elapsed := now - ready.value.since;
      if elapsed < HEALTH_CHECK_INTERVAL then HEALTH_CHECK_INTERVAL
      else if elapsed > MAX_FAILURE_RETRY_INTERVAL then MAX_FAILURE_RETRY_INTERVAL
      else elapsed
  }

  function FailAndRetry(w: Work, verdict: Verdict, now: int): Progress
  {
    var failed := w.(ready := SetReady(w.ready, false, verdict, now), phase := InstallFailed);
    Ended(failed, Requeue(FailureRetryInterval(failed.ready, now)))
  }

  // The waits

  datatype EnsureAnswer = ReleaseSettled | ReleaseStillPending | EnsureFailed

  function HandlePending(w: Work, m: Marker, answer: EnsureAnswer, now: int, ok: bool): Progress
  {
    if answer != ReleaseStillPending then
      var c := ClearMarkers(w, {m}, now, ok);
      if !c.ok && answer == ReleaseSettled then Ended(c.work, Error) else Running(c.work)
    else
      match Since(w.markers, m, now)
      case None =>
        if !ok then Ended(Stamped(w, m, now), Error) else StillPending(UpdateAnnotations(Stamped(w, m, now), ok), now)
      case Some(since) =>
        if now - since > PENDING_TIMEOUT then FailAndRetry(w, VerdictPendingTimedOut, now) else StillPending(w, now)
  }

  function StillPending(w: Work, now: int): Progress
  {
    Ended(w.(ready := SetReady(w.ready, false, VerdictPending, now)), Requeue(PENDING_REQUEUE))
  }

  /** Inside its bound the wait leaves Ready as it was. */
  function AwaitReadiness(w: Work, m: Marker, now: int, timeout: int, ok: bool): Progress
  {
    match Since(w.markers, m, now)
    case None =>
      if !ok then Ended(Stamped(w, m, now), Error)
      else Ended(UpdateAnnotations(Stamped(w, m, now), ok), Requeue(READINESS_REQUEUE))
    case Some(since) =>
      if now - since > timeout then FailAndRetry(w, VerdictReadinessTimedOut, now)
      else Ended(w, Requeue(READINESS_REQUEUE))
  }

  /** A release at another revision than the recorded one is another rollout. */
  predicate NewRevision(recorded: int, revision: Option<int>)
  {
    revision.Some? && recorded != 0 && revision.value != recorded
  }

  function RestartReadinessClocks(w: Work, revision: Option<int>, now: int, ok: bool): Progress
  {
    if revision.None? then Running(w)
    else
      var c := if !NewRevision(w.revision, revision) then Cleared(w, true)
               else ClearMarkers(w, {DeploymentWait, ServiceWait}, now, ok);
      if !c.ok then Ended(c.work, Error) else Running(c.work.(revision := revision.value))
  }

  /** Waits on `m` unless it is resolved; clears the marker when it is. */
  function WaitOrClear(w: Work, m: Marker, resolved: bool, now: int, timeout: int, ok: bool): Progress
  {
    if !resolved then AwaitReadiness(w, m, now, timeout, ok)
    else
      var c := ClearMarkers(w, {m}, now, ok);
      if !c.ok then Ended(c.work, Error) else Running(c.work)
  }

  // A pass

  datatype SourceKind = HelmSource | GitSource

  /** Cleaning up after a changed name or source kind forgets the recorded revision. A
      pass may then end before it reaches the release, with an error, a failure that is
      retried as such or after a fixed time, or one only an edit can resolve. */
  datatype Early = Proceed | EarlyError | EarlyRetry | EarlyFail(requeue: End)

  datatype Moment = OnPending | OnRestart | OnDeployment | OnService | OnExtension | OnEnd

  datatype Answers = Answers(
    now: int, kind: SourceKind, resetRevision: bool, early: Early,
    release: EnsureAnswer,
    releaseInfo: Option<Option<int>>,
    deploymentReady: bool, serviceReady: bool,
    clusterRepoOk: bool,
    extension: EnsureAnswer,
    syncOk: bool,
    writeOk: Moment -> bool,
    interrupted: bool, persistOk: bool)

  function AfterEarly(w: Work, ans: Answers): Progress
  {
    match ans.early
    case Proceed => Running(w)
    case EarlyError => Ended(w, Error)
    case EarlyRetry => FailAndRetry(w, VerdictOther, ans.now)
    case EarlyFail(requeue) =>
      Ended(w.(ready := SetReady(w.ready, false, VerdictOther, ans.now), phase := InstallFailed), requeue)
  }

  function EnsureStage(p: Progress, m: Marker, answer: EnsureAnswer, now: int, ok: bool): Progress
  {
    if p.Ended? then p
    else
      var handled := HandlePending(p.work, m, answer, now, ok);
      if handled.Running? && answer == EnsureFailed then FailAndRetry(handled.work, VerdictOther, now) else handled
  }

  function AwaitReleaseRunning(p: Progress, ans: Answers, timeout: int): Progress
  {
    if p.Ended? then p
    else if ans.releaseInfo.None? then Ended(p.work, Error)
    else
      var r := RestartReadinessClocks(p.work, ans.releaseInfo.value, ans.now, ans.writeOk(OnRestart));
      if r.Ended? then r
      else WaitOrClear(r.work, DeploymentWait, ans.deploymentReady, ans.now, timeout, ans.writeOk(OnDeployment))
  }

  function AwaitService(p: Progress, ans: Answers, timeout: int): Progress
  {
    if p.Ended? then p else WaitOrClear(p.work, ServiceWait, ans.serviceReady, ans.now, timeout, ans.writeOk(OnService))
  }

  function EnsureClusterRepo(p: Progress, ans: Answers): Progress
  {
    if p.Running? && !ans.clusterRepoOk then FailAndRetry(p.work, VerdictOther, ans.now) else p
  }

  function HelmStages(p: Progress, ans: Answers, timeout: int): Progress
  {
    var released := EnsureStage(p, ReleaseWait, ans.release, ans.now, ans.writeOk(OnPending));
    var running := AwaitReleaseRunning(released, ans, timeout);
    var served := AwaitService(running, ans, timeout);
    EnsureStage(EnsureClusterRepo(served, ans), ExtensionWait, ans.extension, ans.now, ans.writeOk(OnExtension))
  }

  function GitStages(p: Progress, ans: Answers, timeout: int): Progress
  {
    var released := EnsureStage(EnsureClusterRepo(p, ans), ReleaseWait, ans.release, ans.now, ans.writeOk(OnPending));
    AwaitReleaseRunning(released, ans, timeout)
  }

  function Finish(p: Progress, ans: Answers): Progress
  {
    if p.Ended? then p
    else
      var done := p.work.(ready := SetReady(p.work.ready, true, VerdictInstalled, ans.now), phase := Installed);
      Ended(done, if ans.syncOk then Requeue(HEALTH_CHECK_INTERVAL) else RequeueNow)
  }

  function Begun(e: Ext, ans: Answers): Work
  {
    Work(e.markers, e.markers, Installing, e.ready, if ans.resetRevision then 0 else e.revision)
  }

  function Stages(e: Ext, ans: Answers, timeout: int): Progress
  {
    var p := AfterEarly(Begun(e, ans), ans);
    Finish(if ans.kind == HelmSource then HelmStages(p, ans, timeout) else GitStages(p, ans, timeout), ans)
  }

  predicate InPendingWait(ready: Option<Condition>)
  {
    ready.Some? && (ready.value.verdict == VerdictPending || ready.value.verdict == VerdictPendingTimedOut)
  }

  /** Conditions are stored at a resolution of one second, too. */
  function Persisted(ready: Option<Condition>): Option<Condition>
  {
    if ready.None? then None else Some(ready.value.(since := ToSecond(ready.value.since)))
  }

  /** `reconcileRequest`: an interrupted pass records no verdict; any other pass drops a
      pending marker that no longer times anything and stores its status. */
  function Pass(e: Ext, ans: Answers, timeout: int): Ext
  {
    var p := Stages(e, ans, timeout);
    if ans.interrupted then e.(markers := p.work.stored)
    else
      var w := if p.end != Error && !InPendingWait(p.work.ready)
               then ClearMarkers(p.work, {ReleaseWait, ExtensionWait}, ans.now, ans.writeOk(OnEnd)).work else p.work;
      if ans.persistOk then Ext(w.stored, w.phase, Persisted(w.ready), w.revision) else e.(markers := w.stored)
  }
}
