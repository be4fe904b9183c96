/** The extension controller's pass as it runs: it stamps and clears annotations on its
    copy, writes them, and sets conditions and phase along the way. Every method is shown
    to do what `WaitClocks` says. */
module ExtensionController {
  import opened Workload
  import opened WaitClocks

  /** The copy a pass works on. `stored` is what the API server has of its annotations. */
  class Extension {
    var markers: Markers
    var stored: Markers
    var phase: ExtPhase
    var ready: Option<Condition>
    var revision: int

    constructor (e: Ext)
      ensures AsWork() == Work(e.markers, e.markers, e.phase, e.ready, e.revision)
    {
      markers, stored, phase, ready, revision := e.markers, e.markers, e.phase, e.ready, e.revision;
    }

    function AsWork(): Work
      reads this
    {
      Work(markers, stored, phase, ready, revision)
    }
  }

  /** A step either lets the pass go on or ends it. */
  ghost function Outcome(w: Work, end: Option<End>): Progress
  {
    if end.None? then Running(w) else Ended(w, end.value)
  }

  class Reconciler {
    const timeout: int

    constructor (timeout: int)
      ensures this.timeout == timeout
    {
      this.timeout := timeout;
    }

    method UpdateAnnotations(ext: Extension, ok: bool)
      modifies ext`stored
      ensures ext.AsWork() == WaitClocks.UpdateAnnotations(old(ext.AsWork()), ok)
    {
      if ok {
        ext.stored := ext.markers;
      }
    }

    method SetWaitingSince(ext: Extension, m: Marker, now: int)
      modifies ext`markers
      ensures ext.AsWork() == Stamped(old(ext.AsWork()), m, now)
    {
      ext.markers := ext.markers[m := At(ToSecond(now))];
    }

    method ClearMarkers(ext: Extension, ms: seq<Marker>, now: int, writeOk: bool) returns (ok: bool)
      modifies ext`markers, ext`stored
      ensures Cleared(ext.AsWork(), ok) == WaitClocks.ClearMarkers(old(ext.AsWork()), (set m | m in ms), now, writeOk)
    {
      var cleared := false;
      ghost var gone: set<Marker> := {};
      for i := 0 to |ms|
        invariant gone == Live(old(ext.markers), (set m | m in ms[..i]), now)
        invariant cleared <==> gone != {}
        invariant ext.markers == old(ext.markers) - gone && ext.stored == old(ext.stored)
      {
        assert ms[..i + 1] == ms[..i] + [ms[i]];
        if Since(ext.markers, ms[i], now).Some? {
          ext.markers := ext.markers - {ms[i]};
          cleared := true;
          gone := gone + {ms[i]};
        }
      }
      assert ms[..|ms|] == ms;
      if !cleared {
        return true;
      }
      UpdateAnnotations(ext, writeOk);
      return writeOk;
    }

    method SetFailureAndRetry(ext: Extension, verdict: Verdict, now: int) returns (end: Option<End>)
      modifies ext`ready, ext`phase
      ensures Outcome(ext.AsWork(), end) == FailAndRetry(old(ext.AsWork()), verdict, now)
    {
      ext.ready := SetReady(ext.ready, false, verdict, now);
      ext.phase := InstallFailed;
      end := Some(Requeue(FailureRetryInterval(ext.ready, now)));
    }

    method HandlePendingReleaseMarker(ext: Extension, m: Marker, answer: EnsureAnswer, now: int, writeOk: bool)
      returns (end: Option<End>)
      modifies ext
      ensures Outcome(ext.AsWork(), end) == HandlePending(old(ext.AsWork()), m, answer, now, writeOk)
    {
      if answer != ReleaseStillPending {
        var ok := ClearMarkers(ext, [m], now, writeOk);
        assert (set x | x in [m]) == {m};
        return if !ok && answer == ReleaseSettled then Some(Error) else None;
      }
      var since := Since(ext.markers, m, now);
      if since.None? {
        SetWaitingSince(ext, m, now);
        UpdateAnnotations(ext, writeOk);
        if !writeOk {
          return Some(Error);
        }
      } else if now - since.value > PENDING_TIMEOUT {
        end := SetFailureAndRetry(ext, VerdictPendingTimedOut, now);
        return;
      }
      ext.ready := SetReady(ext.ready, false, VerdictPending, now);
      return Some(Requeue(PENDING_REQUEUE));
    }

    method AwaitReadiness(ext: Extension, m: Marker, now: int, writeOk: bool) returns (end: Option<End>)
      modifies ext
      ensures Outcome(ext.AsWork(), end) == WaitClocks.AwaitReadiness(old(ext.AsWork()), m, now, timeout, writeOk)
    {
      var since := Since(ext.markers, m, now);
      if since.None? {
        SetWaitingSince(ext, m, now);
        UpdateAnnotations(ext, writeOk);
        if !writeOk {
          return Some(Error);
        }
      } else if now - since.value > timeout {
        end := SetFailureAndRetry(ext, VerdictReadinessTimedOut, now);
        return;
      }
      return Some(Requeue(READINESS_REQUEUE));
    }

    method RestartReadinessClocks(ext: Extension, revision: int, now: int, writeOk: bool) returns (ok: bool)
      modifies ext`markers, ext`stored
      ensures Cleared(ext.AsWork(), ok) ==
              if NewRevision(old(ext.revision), Some(revision))
              then WaitClocks.ClearMarkers(old(ext.AsWork()), {DeploymentWait, ServiceWait}, now, writeOk)
              else Cleared(old(ext.AsWork()), true)
    {
      if ext.revision == 0 || revision == ext.revision {
        return true;
      }
      ok := ClearMarkers(ext, [DeploymentWait, ServiceWait], now, writeOk);
      assert (set m | m in [DeploymentWait, ServiceWait]) == {DeploymentWait, ServiceWait};
    }

    method AwaitReleaseRunning(ext: Extension, ans: Answers) returns (end: Option<End>)
      modifies ext
      ensures Outcome(ext.AsWork(), end) == WaitClocks.AwaitReleaseRunning(Running(old(ext.AsWork())), ans, timeout)
    {
      if ans.releaseInfo.None? {
        return Some(Error);
      }
      if ans.releaseInfo.value.Some? {
        var ok := RestartReadinessClocks(ext, ans.releaseInfo.value.value, ans.now, ans.writeOk(OnRestart));
        if !ok {
          return Some(Error);
        }
        ext.revision := ans.releaseInfo.value.value;
      }
      if !ans.deploymentReady {
        end := AwaitReadiness(ext, DeploymentWait, ans.now, ans.writeOk(OnDeployment));
        return;
      }
      var ok := ClearMarkers(ext, [DeploymentWait], ans.now, ans.writeOk(OnDeployment));
      assert (set x | x in [DeploymentWait]) == {DeploymentWait};
      end := if ok then None else Some(Error);
    }

    method ReconcileHelmSource(ext: Extension, ans: Answers) returns (end: Option<End>)
      modifies ext
      ensures Outcome(ext.AsWork(), end) == HelmStages(Running(old(ext.AsWork())), ans, timeout)
    {
      end := HandlePendingReleaseMarker(ext, ReleaseWait, ans.release, ans.now, ans.writeOk(OnPending));
      if end.Some? {
        return;
      }
      if ans.release == EnsureFailed {
        end := SetFailureAndRetry(ext, VerdictOther, ans.now);
        return;
      }
      end := AwaitReleaseRunning(ext, ans);
      if end.Some? {
        return;
      }
      if !ans.serviceReady {
        end := AwaitReadiness(ext, ServiceWait, ans.now, ans.writeOk(OnService));
        return;
      }
      var ok := ClearMarkers(ext, [ServiceWait], ans.now, ans.writeOk(OnService));
      assert (set x | x in [ServiceWait]) == {ServiceWait};
      if !ok {
        return Some(Error);
      }
      if !ans.clusterRepoOk {
        end := SetFailureAndRetry(ext, VerdictOther, ans.now);
        return;
      }
      end := InstallExtensionChart(ext, ExtensionWait, ans.extension, ans.now, ans.writeOk(OnExtension));
    }

    method InstallExtensionChart(ext: Extension, m: Marker, answer: EnsureAnswer, now: int, writeOk: bool)
      returns (end: Option<End>)
      modifies ext
      ensures Outcome(ext.AsWork(), end) == EnsureStage(Running(old(ext.AsWork())), m, answer, now, writeOk)
    {
      end := HandlePendingReleaseMarker(ext, m, answer, now, writeOk);
      if end.None? && answer == EnsureFailed {
        end := SetFailureAndRetry(ext, VerdictOther, now);
      }
    }

    method ReconcileGitSource(ext: Extension, ans: Answers) returns (end: Option<End>)
      modifies ext
      ensures Outcome(ext.AsWork(), end) == GitStages(Running(old(ext.AsWork())), ans, timeout)
    {
      if !ans.clusterRepoOk {
        end := SetFailureAndRetry(ext, VerdictOther, ans.now);
        return;
      }
      end := InstallExtensionChart(ext, ReleaseWait, ans.release, ans.now, ans.writeOk(OnPending));
      if end.Some? {
        return;
      }
      end := AwaitReleaseRunning(ext, ans);
    }

    method Reconcile(ext: Extension, ans: Answers) returns (end: End)
      requires ext.stored == ext.markers
      modifies ext
      ensures var e := Ext(old(ext.markers), old(ext.phase), old(ext.ready), old(ext.revision));
              Ended(ext.AsWork(), end) == Stages(e, ans, timeout)
    {
      ext.phase := Installing;
      if ans.resetRevision {
        ext.revision := 0;
      }
      var stop: Option<End>;
      match ans.early {
        case EarlyError =>
          return Error;
        case EarlyRetry =>
          stop := SetFailureAndRetry(ext, VerdictOther, ans.now);
          return stop.value;
        case EarlyFail(requeue) =>
          ext.ready := SetReady(ext.ready, false, VerdictOther, ans.now);
          ext.phase := InstallFailed;
          return requeue;
        case Proceed =>
      }
      if ans.kind == HelmSource {
        stop := ReconcileHelmSource(ext, ans);
      } else {
        stop := ReconcileGitSource(ext, ans);
      }
      if stop.Some? {
        return stop.value;
      }
      ext.ready := SetReady(ext.ready, true, VerdictInstalled, ans.now);
      ext.phase := Installed;
      return if ans.syncOk then Requeue(HEALTH_CHECK_INTERVAL) else RequeueNow;
    }

    /** The whole pass, on the stored object. */
    method ReconcileRequest(e: Ext, ans: Answers) returns (left: Ext)
      ensures left == Pass(e, ans, timeout)
    {
      var ext := new Extension(e);
      var end := Reconcile(ext, ans);
      if ans.interrupted {
        return e.(markers := ext.stored);
      }
      if end != Error && !InPendingWait(ext.ready) {
        var ok := ClearMarkers(ext, [ReleaseWait, ExtensionWait], ans.now, ans.writeOk(OnEnd));
        assert (set m | m in [ReleaseWait, ExtensionWait]) == {ReleaseWait, ExtensionWait};
      }
      if !ans.persistOk {
        return e.(markers := ext.stored);
      }
      return Ext(ext.stored, ext.phase, Persisted(ext.ready), ext.revision);
    }
  }
}
