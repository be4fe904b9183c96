/** How a pass of the extension controller ends: the phase, the Ready condition, when it
    comes back, and what of it is stored. */
module PassEnds {
  import opened Workload
  import opened Phases
  import opened WaitClocks
  import opened BoundedWaits

  /** A stamp that does not parse or lies in the future is no start of a wait. */
  lemma StartIs(markers: Markers, m: Marker, now: int, t: int)
    ensures Since(markers, m, now) == Some(t) <==> m in markers && markers[m] == At(t) && t <= now
  {
  }

  predicate Overdue(start: Option<int>, now: int, bound: int)
  {
    start.Some? && now > start.value + bound
  }

  predicate OfEnsure(answer: EnsureAnswer, start: Option<int>, now: int, v: Verdict)
  {
    || (v == VerdictOther && answer == EnsureFailed)
    || (v == VerdictPendingTimedOut && answer == ReleaseStillPending && Overdue(start, now, 15 * MINUTE))
  }

  /** What a pass fails with, if it does: whatever it cannot ensure, and every wait that is
      over its bound. */
  predicate FailsWith(e: Ext, ans: Answers, timeout: int, v: Verdict)
  {
    || (v == VerdictOther && (ans.early == EarlyRetry || ans.early.EarlyFail?))
    || (v == VerdictOther && ans.early == Proceed && ans.kind == GitSource && !ans.clusterRepoOk)
    || (AsksRelease(ans) && OfEnsure(ans.release, Since(e.markers, ReleaseWait, ans.now), ans.now, v))
    || (v == VerdictReadinessTimedOut && AsksDeployment(e, ans) && !ans.deploymentReady
        && Overdue(StampOf(e, ans, DeploymentWait), ans.now, timeout))
    || (v == VerdictReadinessTimedOut && AsksService(e, ans) && !ans.serviceReady
        && Overdue(StampOf(e, ans, ServiceWait), ans.now, timeout))
    || (v == VerdictOther && PassesService(e, ans) && !ans.clusterRepoOk)
    || (AsksExtension(e, ans) && OfEnsure(ans.extension, Since(e.markers, ExtensionWait, ans.now), ans.now, v))
  }

  /** Everything is there: from git once the rollout is up, else once the extension's chart
      is installed, too. */
  predicate Arrives(e: Ext, ans: Answers)
  {
    if ans.kind == GitSource then PassesDeployment(e, ans)
    else
      && AsksExtension(e, ans) && ans.extension == ReleaseSettled
      && (Since(e.markers, ExtensionWait, ans.now).Some? ==> ans.writeOk(OnExtension))
  }

  /** One of the two releases is mid-operation, and not for too long. */
  predicate WaitsForRelease(e: Ext, ans: Answers)
  {
    || (Waits(ReleaseWait, e, ans) && !Overdue(Since(e.markers, ReleaseWait, ans.now), ans.now, 15 * MINUTE))
    || (Waits(ExtensionWait, e, ans) && !Overdue(Since(e.markers, ExtensionWait, ans.now), ans.now, 15 * MINUTE))
  }

  /** The transition time is that of the last change of the status. */
  predicate IsReady(before: Option<Condition>, after: Option<Condition>, ok: bool, v: Verdict, now: int)
  {
    after == Some(Condition(ok, v, if before.Some? && before.value.ok == ok then before.value.since else now))
  }

  /** What the end of the stages says. */
  ghost predicate Says(e: Ext, ans: Answers, timeout: int, p: Progress)
  {
    && p.Ended?
    && (p.work.phase == Installed <==> Arrives(e, ans))
    && (p.work.phase == InstallFailed <==> exists v :: FailsWith(e, ans, timeout, v))
    && (Arrives(e, ans) ==>
          && IsReady(e.ready, p.work.ready, true, VerdictInstalled, ans.now)
          && p.end == if ans.syncOk then Requeue(60 * SECOND) else RequeueNow)
    && (forall v :: FailsWith(e, ans, timeout, v) ==>
          && IsReady(e.ready, p.work.ready, false, v, ans.now)
          && (!ans.early.EarlyFail? ==> p.end == Requeue(FailureRetryInterval(p.work.ready, ans.now)))
          && (ans.early.EarlyFail? ==> p.end == ans.early.requeue))
    && (WaitsForRelease(e, ans) ==> IsReady(e.ready, p.work.ready, false, VerdictPending, ans.now))
    && (p.work.phase == Installing && !WaitsForRelease(e, ans) ==> p.work.ready == e.ready)
  }

  lemma EarlySays(e: Ext, ans: Answers, timeout: int)
    requires !AsksRelease(ans)
    ensures Says(e, ans, timeout, OfRelease(e, ans))
  {
    assert FailsWith(e, ans, timeout, VerdictOther) <==> OfRelease(e, ans).work.phase == InstallFailed;
  }

  lemma ReleaseSays(e: Ext, ans: Answers, timeout: int)
    requires AsksRelease(ans) && !PassesRelease(e, ans)
    ensures Says(e, ans, timeout, OfRelease(e, ans))
  {
    ClearEffect(Begun(e, ans), {ReleaseWait}, ans.now, ans.writeOk(OnPending));
    ReleaseRuns(e, ans);
    var v := if ans.release == ReleaseStillPending then VerdictPendingTimedOut else VerdictOther;
    assert FailsWith(e, ans, timeout, v) <==> OfRelease(e, ans).work.phase == InstallFailed;
  }

  lemma AwaitedReady(w: Work, e: Ext, m: Marker, resolved: bool, now: int, timeout: int, ok: bool)
    requires Clean(w, e)
    ensures var p := WaitOrClear(w, m, resolved, now, timeout, ok);
            var over := !resolved && Overdue(Since(w.markers, m, now), now, timeout);
            p.Ended? ==>
              && p.work.phase == (if over then InstallFailed else Installing)
              && (over ==> IsReady(e.ready, p.work.ready, false, VerdictReadinessTimedOut, now))
              && (over ==> p.end == Requeue(FailureRetryInterval(p.work.ready, now)))
              && (!over ==> p.work.ready == e.ready)
  {
    ClearEffect(w, {m}, now, ok);
  }

  lemma RolloutSays(e: Ext, ans: Answers, timeout: int)
    requires PassesRelease(e, ans) && !PassesDeployment(e, ans)
    ensures Says(e, ans, timeout, OfRollout(e, ans, timeout))
  {
    RolloutRuns(e, ans, timeout);
    ReleaseRuns(e, ans);
    var w := OfRelease(e, ans).work;
    if ans.releaseInfo.Some? {
      Restarted(w, e, ans);
      var r := RestartReadinessClocks(w, ans.releaseInfo.value, ans.now, ans.writeOk(OnRestart));
      if r.Running? {
        AwaitedReady(r.work, e, DeploymentWait, ans.deploymentReady, ans.now, timeout, ans.writeOk(OnDeployment));
      } else {
        ClearEffect(w, {DeploymentWait, ServiceWait}, ans.now, ans.writeOk(OnRestart));
      }
    }
    assert FailsWith(e, ans, timeout, VerdictReadinessTimedOut)
      <==> OfRollout(e, ans, timeout).work.phase == InstallFailed;
  }

  lemma ServiceSays(e: Ext, ans: Answers, timeout: int)
    requires AsksService(e, ans) && !PassesService(e, ans)
    ensures Says(e, ans, timeout, OfService(e, ans, timeout))
  {
    RolloutRuns(e, ans, timeout);
    ServiceRuns(e, ans, timeout);
    AwaitedReady(OfRollout(e, ans, timeout).work, e, ServiceWait, ans.serviceReady, ans.now, timeout,
                 ans.writeOk(OnService));
    assert FailsWith(e, ans, timeout, VerdictReadinessTimedOut)
      <==> OfService(e, ans, timeout).work.phase == InstallFailed;
  }

  lemma GitSays(e: Ext, ans: Answers, timeout: int)
    requires PassesDeployment(e, ans) && ans.kind == GitSource
    ensures Says(e, ans, timeout, Stages(e, ans, timeout))
  {
    RolloutRuns(e, ans, timeout);
  }

  lemma RepositorySays(e: Ext, ans: Answers, timeout: int)
    requires PassesService(e, ans) && !ans.clusterRepoOk
    ensures Says(e, ans, timeout, Stages(e, ans, timeout))
  {
    ServiceRuns(e, ans, timeout);
    assert FailsWith(e, ans, timeout, VerdictOther);
  }

  lemma ExtensionSays(e: Ext, ans: Answers, timeout: int)
    requires AsksExtension(e, ans)
    ensures Says(e, ans, timeout, Stages(e, ans, timeout))
  {
    ServiceRuns(e, ans, timeout);
    ClearEffect(OfService(e, ans, timeout).work, {ExtensionWait}, ans.now, ans.writeOk(OnExtension));
    OneLive(OfService(e, ans, timeout).work.markers, ExtensionWait, ans.now);
    var v := if ans.extension == ReleaseStillPending then VerdictPendingTimedOut else VerdictOther;
    assert FailsWith(e, ans, timeout, v) <==> Stages(e, ans, timeout).work.phase == InstallFailed;
  }

  /** For every pass: Installed if and only if everything is there, with Ready true and
      another look in a minute, or at once when the catalog could not be synced; Failed if
      and only if something could not be ensured or is over its bound, with Ready false
      for that reason and the next look by the retry interval; else Installing, with Ready
      false while a release is mid-operation and as it was otherwise. */
  lemma StagesSay(e: Ext, ans: Answers, timeout: int)
    ensures Says(e, ans, timeout, Stages(e, ans, timeout))
  {
    StopsAt(e, ans, timeout);
    if !AsksRelease(ans) {
      EarlySays(e, ans, timeout);
    } else if !PassesRelease(e, ans) {
      ReleaseSays(e, ans, timeout);
    } else if !PassesDeployment(e, ans) {
      RolloutSays(e, ans, timeout);
    } else if AsksService(e, ans) && !PassesService(e, ans) {
      ServiceSays(e, ans, timeout);
    } else if ans.kind == GitSource {
      GitSays(e, ans, timeout);
    } else if !ans.clusterRepoOk {
      RepositorySays(e, ans, timeout);
    } else {
      ExtensionSays(e, ans, timeout);
    }
  }

  lemma ClearKeepsRevision(w: Work, ms: set<Marker>, now: int, ok: bool)
    ensures ClearMarkers(w, ms, now, ok).work.revision == w.revision
  {
  }

  lemma EnsureKeepsRevision(p: Progress, m: Marker, answer: EnsureAnswer, now: int, ok: bool)
    ensures EnsureStage(p, m, answer, now, ok).work.revision == p.work.revision
  {
    ClearKeepsRevision(p.work, {m}, now, ok);
  }

  lemma WaitKeepsRevision(w: Work, m: Marker, resolved: bool, now: int, timeout: int, ok: bool)
    ensures WaitOrClear(w, m, resolved, now, timeout, ok).work.revision == w.revision
  {
    ClearKeepsRevision(w, {m}, now, ok);
  }

  lemma ReleaseRevision(e: Ext, ans: Answers)
    ensures OfRelease(e, ans).work.revision == Begun(e, ans).revision
  {
    var p := AfterEarly(Begun(e, ans), ans);
    EnsureKeepsRevision(if ans.kind == HelmSource then p else EnsureClusterRepo(p, ans), ReleaseWait, ans.release,
                        ans.now,
                        ans.writeOk(OnPending));
  }

  lemma RolloutRevision(e: Ext, ans: Answers, timeout: int)
    ensures OfRollout(e, ans, timeout).work.revision
         == if AsksDeployment(e, ans) && RevisionOf(ans).Some? then RevisionOf(ans).value else Begun(e, ans).revision
  {
    ReleaseRevision(e, ans);
    ReleaseRuns(e, ans);
    var w := OfRelease(e, ans).work;
    if PassesRelease(e, ans) && ans.releaseInfo.Some? {
      Restarted(w, e, ans);
      ClearKeepsRevision(w, {DeploymentWait, ServiceWait}, ans.now, ans.writeOk(OnRestart));
      var r := RestartReadinessClocks(w, ans.releaseInfo.value, ans.now, ans.writeOk(OnRestart));
      WaitKeepsRevision(r.work, DeploymentWait, ans.deploymentReady, ans.now, timeout, ans.writeOk(OnDeployment));
    }
  }

  /** The revision recorded is the release's, as soon as a pass gets to see it and the
      clocks could be restarted; cleaning up after a renamed extension forgets it. */
  lemma RevisionIs(e: Ext, ans: Answers, timeout: int)
    ensures Stages(e, ans, timeout).work.revision
         == if AsksDeployment(e, ans) && RevisionOf(ans).Some? then RevisionOf(ans).value
            else if ans.resetRevision then 0 else e.revision
  {
    RolloutRevision(e, ans, timeout);
    var q := OfRollout(e, ans, timeout);
    WaitKeepsRevision(q.work, ServiceWait, ans.serviceReady, ans.now, timeout, ans.writeOk(OnService));
    EnsureKeepsRevision(EnsureClusterRepo(OfService(e, ans, timeout), ans), ExtensionWait, ans.extension, ans.now,
                        ans.writeOk(OnExtension));
  }

  /** What is stored: the markers as far as they were written; the rest when the pass was
      not interrupted and the status could be written, to the second. */
  lemma PassStores(e: Ext, ans: Answers, timeout: int)
    ensures var p, after := Stages(e, ans, timeout), Pass(e, ans, timeout);
            if ans.interrupted then after == e.(markers := p.work.stored)
            else if !ans.persistOk then after == e.(markers := after.markers)
            else
              && after.phase == p.work.phase && after.revision == p.work.revision
              && after.ready.Some? == p.work.ready.Some?
              && (after.ready.Some? ==>
                    && after.ready.value.ok == p.work.ready.value.ok
                    && after.ready.value.verdict == p.work.ready.value.verdict
                    && after.ready.value.since == p.work.ready.value.since - p.work.ready.value.since % SECOND)
  {
    ClearEffect(Stages(e, ans, timeout).work, {ReleaseWait, ExtensionWait}, ans.now, ans.writeOk(OnEnd));
  }
}
