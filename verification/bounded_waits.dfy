/** The four waits are bounded, each by its own clock. */
module BoundedWaits {
  import opened Workload
  import opened WaitClocks

  // How far a pass gets

  function RevisionOf(ans: Answers): Option<int>
  {
    if ans.releaseInfo.Some? then ans.releaseInfo.value else None
  }

  /** The release is at another revision than the recorded one. None is recorded before
      the first status write, nor after cleaning up behind a renamed extension. */
  predicate Restarts(e: Ext, ans: Answers)
  {
    RevisionOf(ans).Some? && e.revision != 0 && !ans.resetRevision && RevisionOf(ans).value != e.revision
  }

  predicate OfReadiness(m: Marker)
  {
    m == DeploymentWait || m == ServiceWait
  }

  /** The stamp a pass judges a wait by when it gets there: another revision than the
      recorded one has dropped both readiness stamps. */
  function StampOf(e: Ext, ans: Answers, m: Marker): Option<int>
  {
    if OfReadiness(m) && Restarts(e, ans) then None else Since(e.markers, m, ans.now)
  }

  /** Clearing fails only when there is something to clear. */
  predicate CanClear(e: Ext, ms: set<Marker>, ans: Answers, moment: Moment)
  {
    Live(e.markers, ms, ans.now) == {} || ans.writeOk(moment)
  }

  predicate AsksRelease(ans: Answers)
  {
    ans.early == Proceed && (ans.kind == GitSource ==> ans.clusterRepoOk)
  }

  predicate PassesRelease(e: Ext, ans: Answers)
  {
    AsksRelease(ans) && ans.release == ReleaseSettled && CanClear(e, {ReleaseWait}, ans, OnPending)
  }

  predicate AsksDeployment(e: Ext, ans: Answers)
  {
    && PassesRelease(e, ans) && ans.releaseInfo.Some?
    && (Restarts(e, ans) ==> CanClear(e, {DeploymentWait, ServiceWait}, ans, OnRestart))
  }

  predicate PassesDeployment(e: Ext, ans: Answers)
  {
    && AsksDeployment(e, ans) && ans.deploymentReady
    && (StampOf(e, ans, DeploymentWait).Some? ==> ans.writeOk(OnDeployment))
  }

  predicate AsksService(e: Ext, ans: Answers)
  {
    PassesDeployment(e, ans) && ans.kind == HelmSource
  }

  predicate PassesService(e: Ext, ans: Answers)
  {
    AsksService(e, ans) && ans.serviceReady && (StampOf(e, ans, ServiceWait).Some? ==> ans.writeOk(OnService))
  }

  predicate AsksExtension(e: Ext, ans: Answers)
  {
    PassesService(e, ans) && ans.clusterRepoOk
  }

  // When a pass ends in an error: always a write or a read that failed

  predicate PendingErrs(e: Ext, m: Marker, answer: EnsureAnswer, ans: Answers, moment: Moment)
  {
    && !ans.writeOk(moment)
    && ((answer == ReleaseStillPending && Since(e.markers, m, ans.now).None?)
        || (answer == ReleaseSettled && Since(e.markers, m, ans.now).Some?))
  }

  /** Stamping on the first look, or clearing at the last. */
  predicate ReadinessErrs(e: Ext, m: Marker, resolved: bool, ans: Answers, moment: Moment)
  {
    !ans.writeOk(moment) && (resolved <==> StampOf(e, ans, m).Some?)
  }

  predicate ReleaseErrs(e: Ext, ans: Answers)
  {
    || ans.early == EarlyError || ans.early == EarlyFail(Error)
    || (AsksRelease(ans) && PendingErrs(e, ReleaseWait, ans.release, ans, OnPending))
  }

  predicate RolloutErrs(e: Ext, ans: Answers)
  {
    || (PassesRelease(e, ans) && ans.releaseInfo.None?)
    || (PassesRelease(e, ans) && Restarts(e, ans) && !CanClear(e, {DeploymentWait, ServiceWait}, ans, OnRestart))
    || (AsksDeployment(e, ans) && ReadinessErrs(e, DeploymentWait, ans.deploymentReady, ans, OnDeployment))
  }

  predicate Errs(e: Ext, ans: Answers)
  {
    || ReleaseErrs(e, ans)
    || RolloutErrs(e, ans)
    || (AsksService(e, ans) && ReadinessErrs(e, ServiceWait, ans.serviceReady, ans, OnService))
    || (AsksExtension(e, ans) && PendingErrs(e, ExtensionWait, ans.extension, ans, OnExtension))
  }

  // What ends a wait

  /** A readiness wait that is on, and within its bound. */
  predicate Inside(e: Ext, ans: Answers, m: Marker, moment: Moment, timeout: int)
  {
    match StampOf(e, ans, m)
    case None => ans.writeOk(moment)
    case Some(since) => ans.now - since <= timeout
  }

  predicate WaitsInside(e: Ext, ans: Answers, timeout: int)
  {
    || (AsksDeployment(e, ans) && !ans.deploymentReady && Inside(e, ans, DeploymentWait, OnDeployment, timeout))
    || (AsksService(e, ans) && !ans.serviceReady && Inside(e, ans, ServiceWait, OnService, timeout))
  }

  /** What keeps the stamp of the extension's release in a pass that never looks at it.
      A readiness wait inside its bound writes no Ready condition, so the end of the pass
      judges by whatever an earlier pass left there. */
  predicate HeldUp(e: Ext, ans: Answers, timeout: int)
  {
    || ans.interrupted || Errs(e, ans) || !ans.writeOk(OnEnd)
    || (AsksRelease(ans) && ans.release == ReleaseStillPending)
    || (WaitsInside(e, ans, timeout) && InPendingWait(e.ready))
  }

  /** What ends the wait timed by a live stamp of `m`, or abandons it. Another revision
      ends a readiness wait, and readiness does, once the annotation could be removed. A
      pending wait ends when its release is found settled or failed; one that was not
      looked at is dropped at the end of the pass unless the pass is held up. */
  predicate Excused(m: Marker, e: Ext, ans: Answers, timeout: int)
  {
    match m
    case DeploymentWait =>
      && PassesRelease(e, ans) && ans.releaseInfo.Some?
      && if Restarts(e, ans) then ans.writeOk(OnRestart) else ans.deploymentReady && ans.writeOk(OnDeployment)
    case ServiceWait =>
      && PassesRelease(e, ans) && ans.releaseInfo.Some?
      && if Restarts(e, ans) then ans.writeOk(OnRestart)
         else AsksService(e, ans) && ans.serviceReady && ans.writeOk(OnService)
    case ReleaseWait =>
      if !AsksRelease(ans) then !ans.interrupted && !ReleaseErrs(e, ans) && ans.writeOk(OnEnd)
      else
        // A clear that failed is made up for by the one for the other marker.
        && ans.release != ReleaseStillPending
        && (|| ans.writeOk(OnPending)
            || (ans.release == EnsureFailed && !ans.interrupted
                && Since(e.markers, ExtensionWait, ans.now).Some? && ans.writeOk(OnEnd)))
    case ExtensionWait =>
      if AsksExtension(e, ans) then ans.extension != ReleaseStillPending && ans.writeOk(OnExtension)
      else !HeldUp(e, ans, timeout)
  }

  function Bound(m: Marker, timeout: int): int
  {
    if OfReadiness(m) then timeout else PENDING_TIMEOUT
  }

  function LooksAgainIn(m: Marker): int
  {
    if OfReadiness(m) then READINESS_REQUEUE else PENDING_REQUEUE
  }

  /** A pass that gets as far as the thing `m` times, finds it not there yet, and can
      write the annotation if it has to. */
  predicate Waits(m: Marker, e: Ext, ans: Answers)
  {
    match m
    case DeploymentWait => AsksDeployment(e, ans) && !ans.deploymentReady && CanStamp(e, ans, m, OnDeployment)
    case ServiceWait => AsksService(e, ans) && !ans.serviceReady && CanStamp(e, ans, m, OnService)
    case ReleaseWait => AsksRelease(ans) && ans.release == ReleaseStillPending && CanStamp(e, ans, m, OnPending)
    case ExtensionWait =>
      AsksExtension(e, ans) && ans.extension == ReleaseStillPending && CanStamp(e, ans, m, OnExtension)
  }

  predicate CanStamp(e: Ext, ans: Answers, m: Marker, moment: Moment)
  {
    StampOf(e, ans, m).None? ==> ans.writeOk(moment)
  }

  predicate Times(markers: Markers, m: Marker, since: int)
  {
    m in markers && markers[m] == At(since)
  }

  // The stages

  function OfRelease(e: Ext, ans: Answers): Progress
  {
    var p := AfterEarly(Begun(e, ans), ans);
    EnsureStage(if ans.kind == HelmSource then p else EnsureClusterRepo(p, ans), ReleaseWait, ans.release, ans.now,
                ans.writeOk(OnPending))
  }

  function OfRollout(e: Ext, ans: Answers, timeout: int): Progress
  {
    AwaitReleaseRunning(OfRelease(e, ans), ans, timeout)
  }

  function OfService(e: Ext, ans: Answers, timeout: int): Progress
  {
    AwaitService(OfRollout(e, ans, timeout), ans, timeout)
  }

  /** The same start of every wait but those in `ms`. */
  ghost predicate Agree(a: Markers, b: Markers, ms: set<Marker>, now: int)
  {
    forall m :: m !in ms ==> Since(a, m, now) == Since(b, m, now)
  }

  /** A pass still under way has no write outstanding and no verdict yet. */
  ghost predicate Clean(w: Work, e: Ext)
  {
    w.markers == w.stored && w.phase == Installing && w.ready == e.ready
  }

  lemma ClearEffect(w: Work, ms: set<Marker>, now: int, ok: bool)
    ensures var c := ClearMarkers(w, ms, now, ok);
            && c.ok == (Live(w.markers, ms, now) == {} || ok)
            && c.work == w.(markers := c.work.markers, stored := c.work.stored)
            && Agree(c.work.markers, w.markers, ms, now)
            && (forall m :: m in ms ==> Since(c.work.markers, m, now).None?)
            && c.work.stored == (if Live(w.markers, ms, now) != {} && ok then c.work.markers else w.stored)
            && (Live(w.markers, ms, now) == {} ==> c.work == w)
            && (forall m :: m in ms && Since(w.markers, m, now).Some? ==> Live(w.markers, ms, now) != {})
  {
    forall m | m in ms && Since(w.markers, m, now).Some? ensures Live(w.markers, ms, now) != {} {
      assert m in Live(w.markers, ms, now);
    }
  }

  lemma SameLive(a: Markers, b: Markers, ms: set<Marker>, now: int)
    requires forall m :: m in ms ==> Since(a, m, now) == Since(b, m, now)
    ensures Live(a, ms, now) == Live(b, ms, now)
  {
  }

  lemma OneLive(markers: Markers, m: Marker, now: int)
    ensures Live(markers, {m}, now) == {} <==> Since(markers, m, now).None?
  {
    if Since(markers, m, now).Some? { assert m in Live(markers, {m}, now); }
  }

  // Every stage tells how far the pass got, and what it did to the stamps

  /** What became of a live stamp: still there, or gone, or set anew in this pass. */
  predicate Became(markers: Markers, m: Marker, since: int, now: int, kept: bool)
  {
    if kept then Since(markers, m, now) == Some(since)
    else Since(markers, m, now) == None || Since(markers, m, now) == Some(ToSecond(now))
  }

  lemma ReleaseRuns(e: Ext, ans: Answers)
    ensures OfRelease(e, ans).Running? <==> PassesRelease(e, ans)
    ensures OfRelease(e, ans).Running? ==>
              var w := OfRelease(e, ans).work;
              && Clean(w, e) && w.revision == Begun(e, ans).revision
              && Agree(w.markers, e.markers, {ReleaseWait}, ans.now) && Since(w.markers, ReleaseWait, ans.now).None?
  {
    ClearEffect(Begun(e, ans), {ReleaseWait}, ans.now, ans.writeOk(OnPending));
  }

  lemma ReleaseEnds(e: Ext, ans: Answers)
    requires !PassesRelease(e, ans)
    ensures var p := OfRelease(e, ans);
            && p.Ended?
            && (p.end == Error <==> ReleaseErrs(e, ans))
            && (p.end != Error ==>
                  (InPendingWait(p.work.ready) <==> AsksRelease(ans) && ans.release == ReleaseStillPending))
            && Agree(p.work.stored, e.markers, {ReleaseWait}, ans.now)
            && Agree(p.work.markers, e.markers, {ReleaseWait}, ans.now)
  {
    ClearEffect(Begun(e, ans), {ReleaseWait}, ans.now, ans.writeOk(OnPending));
    OneLive(e.markers, ReleaseWait, ans.now);
  }

  lemma ReleaseStamp(e: Ext, ans: Answers, since: int)
    requires Since(e.markers, ReleaseWait, ans.now) == Some(since)
    ensures var w := OfRelease(e, ans).work;
            && Since(w.stored, ReleaseWait, ans.now)
               == (if AsksRelease(ans) && ans.release != ReleaseStillPending && ans.writeOk(OnPending) then None
                   else Some(since))
            && Since(w.markers, ReleaseWait, ans.now)
               == (if AsksRelease(ans) && ans.release != ReleaseStillPending then None else Some(since))
  {
    ClearEffect(Begun(e, ans), {ReleaseWait}, ans.now, ans.writeOk(OnPending));
  }

  // The rollout

  lemma Restarted(w: Work, e: Ext, ans: Answers)
    requires Clean(w, e) && ans.releaseInfo.Some? && w.revision == Begun(e, ans).revision
    requires Agree(w.markers, e.markers, {ReleaseWait}, ans.now)
    ensures var r := RestartReadinessClocks(w, ans.releaseInfo.value, ans.now, ans.writeOk(OnRestart));
            var cannot := Restarts(e, ans) && !CanClear(e, {DeploymentWait, ServiceWait}, ans, OnRestart);
            && r.Ended? == cannot
            && (cannot ==> r.end == Error && r.work.stored == w.stored)
            && (!cannot ==>
                  && Clean(r.work, e) && (RevisionOf(ans).Some? ==> r.work.revision == RevisionOf(ans).value)
                  && (forall m :: OfReadiness(m) ==> Since(r.work.markers, m, ans.now) == StampOf(e, ans, m))
                  && (forall m :: !OfReadiness(m) ==>
                        Since(r.work.markers, m, ans.now) == Since(w.markers, m, ans.now)))
  {
    ClearEffect(w, {DeploymentWait, ServiceWait}, ans.now, ans.writeOk(OnRestart));
    SameLive(w.markers, e.markers, {DeploymentWait, ServiceWait}, ans.now);
  }

  /** One readiness wait, on a copy with no write outstanding. */
  lemma Awaited(w: Work, e: Ext, m: Marker, resolved: bool, now: int, timeout: int, ok: bool)
    requires Clean(w, e) && OfReadiness(m)
    ensures var p := WaitOrClear(w, m, resolved, now, timeout, ok);
            var start := Since(w.markers, m, now);
            var stops := !ok && (resolved <==> start.Some?);
            && (p.Running? <==> resolved && !stops)
            && (p.Running? ==>
                  && Clean(p.work, e) && p.work.revision == w.revision
                  && Agree(p.work.markers, w.markers, {m}, now) && Since(p.work.markers, m, now).None?)
            && (p.Ended? ==> (p.end == Error <==> stops) && Agree(p.work.stored, w.markers, {m}, now))
            && (p.Ended? && stops ==> p.work.stored == w.stored)
            && (p.Ended? && !stops ==>
                  && WaitedOn(p, m, start, now, timeout) && p.work.markers == p.work.stored
                  && p.work.revision == w.revision
                  && (InPendingWait(p.work.ready)
                      <==> (start.None? || now - start.value <= timeout) && InPendingWait(e.ready)))
  {
    ClearEffect(w, {m}, now, ok);
    OneLive(w.markers, m, now);
  }

  /** A pass that waits on `m`, from a copy whose stamp is `since`: the first observation
      stamps, later ones keep the stamp, and past the bound the pass fails. */
  ghost predicate WaitedOn(p: Progress, m: Marker, since: Option<int>, now: int, bound: int)
  {
    && p.Ended?
    && p.end == Requeue(if since.Some? && now - since.value > bound then FailureRetryInterval(p.work.ready, now)
                        else LooksAgainIn(m))
    && Times(p.work.stored, m, if since.Some? then since.value else ToSecond(now))
    && Times(p.work.markers, m, if since.Some? then since.value else ToSecond(now))
    && p.work.phase == (if since.Some? && now - since.value > bound then InstallFailed else Installing)
  }

  lemma RolloutRuns(e: Ext, ans: Answers, timeout: int)
    ensures OfRollout(e, ans, timeout).Running? <==> PassesDeployment(e, ans)
    ensures OfRollout(e, ans, timeout).Running? ==>
              var w := OfRollout(e, ans, timeout).work;
              && Clean(w, e)
              && Since(w.markers, ReleaseWait, ans.now).None? && Since(w.markers, DeploymentWait, ans.now).None?
              && Since(w.markers, ServiceWait, ans.now) == StampOf(e, ans, ServiceWait)
              && Since(w.markers, ExtensionWait, ans.now) == Since(e.markers, ExtensionWait, ans.now)
  {
    ReleaseRuns(e, ans);
    var w := OfRelease(e, ans).work;
    if PassesRelease(e, ans) && ans.releaseInfo.Some? {
      Restarted(w, e, ans);
      var r := RestartReadinessClocks(w, ans.releaseInfo.value, ans.now, ans.writeOk(OnRestart));
      if r.Running? {
        Awaited(r.work, e, DeploymentWait, ans.deploymentReady, ans.now, timeout, ans.writeOk(OnDeployment));
      }
    }
  }

  lemma RolloutEnds(e: Ext, ans: Answers, timeout: int)
    requires PassesRelease(e, ans) && !PassesDeployment(e, ans)
    ensures var p := OfRollout(e, ans, timeout);
            && p.Ended?
            && (p.end == Error <==> RolloutErrs(e, ans))
            && (p.end != Error ==>
                  && p.work.markers == p.work.stored
                  && AsksDeployment(e, ans) && !ans.deploymentReady
                  && WaitedOn(p, DeploymentWait, StampOf(e, ans, DeploymentWait), ans.now, timeout)
                  && (RevisionOf(ans).Some? ==> p.work.revision == RevisionOf(ans).value)
                  && (InPendingWait(p.work.ready) <==> WaitsInside(e, ans, timeout) && InPendingWait(e.ready)))
            && Since(p.work.stored, ExtensionWait, ans.now) == Since(e.markers, ExtensionWait, ans.now)
            && Since(p.work.stored, ReleaseWait, ans.now).None?
  {
    ReleaseRuns(e, ans);
    var w := OfRelease(e, ans).work;
    if ans.releaseInfo.Some? {
      Restarted(w, e, ans);
      var r := RestartReadinessClocks(w, ans.releaseInfo.value, ans.now, ans.writeOk(OnRestart));
      if r.Running? {
        Awaited(r.work, e, DeploymentWait, ans.deploymentReady, ans.now, timeout, ans.writeOk(OnDeployment));
      }
    }
  }

  lemma RolloutStamps(e: Ext, ans: Answers, timeout: int, since: int)
    requires PassesRelease(e, ans)
    ensures Since(e.markers, DeploymentWait, ans.now) == Some(since) ==>
              Became(OfRollout(e, ans, timeout).work.stored, DeploymentWait, since, ans.now,
                     !Excused(DeploymentWait, e, ans, timeout))
    ensures Since(e.markers, ServiceWait, ans.now) == Some(since) ==>
              Became(OfRollout(e, ans, timeout).work.stored, ServiceWait, since, ans.now,
                     !(ans.releaseInfo.Some? && Restarts(e, ans) && ans.writeOk(OnRestart)))
  {
    ReleaseRuns(e, ans);
    var w := OfRelease(e, ans).work;
    if ans.releaseInfo.Some? {
      ClearEffect(w, {DeploymentWait, ServiceWait}, ans.now, ans.writeOk(OnRestart));
      SameLive(w.markers, e.markers, {DeploymentWait, ServiceWait}, ans.now);
      Restarted(w, e, ans);
      var r := RestartReadinessClocks(w, ans.releaseInfo.value, ans.now, ans.writeOk(OnRestart));
      if r.Running? {
        Awaited(r.work, e, DeploymentWait, ans.deploymentReady, ans.now, timeout, ans.writeOk(OnDeployment));
      }
    }
  }

  // The service

  lemma ServiceRuns(e: Ext, ans: Answers, timeout: int)
    requires ans.kind == HelmSource
    ensures OfService(e, ans, timeout).Running? <==> PassesService(e, ans)
    ensures OfService(e, ans, timeout).Running? ==>
              var w := OfService(e, ans, timeout).work;
              && Clean(w, e)
              && (forall m :: m != ExtensionWait ==> Since(w.markers, m, ans.now).None?)
              && Since(w.markers, ExtensionWait, ans.now) == Since(e.markers, ExtensionWait, ans.now)
  {
    RolloutRuns(e, ans, timeout);
    if PassesDeployment(e, ans) {
      Awaited(OfRollout(e, ans, timeout).work, e, ServiceWait, ans.serviceReady, ans.now, timeout,
              ans.writeOk(OnService));
    }
  }

  lemma ServiceEnds(e: Ext, ans: Answers, timeout: int)
    requires AsksService(e, ans) && !PassesService(e, ans)
    ensures var p := OfService(e, ans, timeout);
            && p.Ended?
            && (p.end == Error <==> ReadinessErrs(e, ServiceWait, ans.serviceReady, ans, OnService))
            && (p.end == Error ==> p.work.stored == OfRollout(e, ans, timeout).work.stored)
            && (p.end != Error ==>
                  && p.work.markers == p.work.stored && !ans.serviceReady
                  && WaitedOn(p, ServiceWait, StampOf(e, ans, ServiceWait), ans.now, timeout)
                  && (InPendingWait(p.work.ready) <==> WaitsInside(e, ans, timeout) && InPendingWait(e.ready)))
            && Since(p.work.stored, ExtensionWait, ans.now) == Since(e.markers, ExtensionWait, ans.now)
            && Since(p.work.stored, ReleaseWait, ans.now).None? && Since(p.work.stored, DeploymentWait, ans.now).None?
  {
    RolloutRuns(e, ans, timeout);
    Awaited(OfRollout(e, ans, timeout).work, e, ServiceWait, ans.serviceReady, ans.now, timeout,
            ans.writeOk(OnService));
  }

  // The last stage, and the whole pass

  lemma ServiceStamp(e: Ext, ans: Answers, timeout: int, since: int)
    requires AsksService(e, ans) && Since(e.markers, ServiceWait, ans.now) == Some(since)
    ensures Became(OfService(e, ans, timeout).work.stored, ServiceWait, since, ans.now,
                   !Excused(ServiceWait, e, ans, timeout))
  {
    RolloutRuns(e, ans, timeout);
    RolloutStamps(e, ans, timeout, since);
    ServiceRuns(e, ans, timeout);
    if !PassesService(e, ans) {
      ServiceEnds(e, ans, timeout);
    }
  }

  /** Where a pass stops. */
  lemma StopsAt(e: Ext, ans: Answers, timeout: int)
    ensures !PassesRelease(e, ans) ==> Stages(e, ans, timeout) == OfRelease(e, ans)
    ensures PassesRelease(e, ans) && !PassesDeployment(e, ans) ==> Stages(e, ans, timeout) == OfRollout(e, ans, timeout)
    ensures AsksService(e, ans) && !PassesService(e, ans) ==> Stages(e, ans, timeout) == OfService(e, ans, timeout)
    ensures PassesDeployment(e, ans) && ans.kind == GitSource ==>
              && Stages(e, ans, timeout).end != Error && !InPendingWait(Stages(e, ans, timeout).work.ready)
              && Stages(e, ans, timeout).work.markers == OfRollout(e, ans, timeout).work.markers
              && Stages(e, ans, timeout).work.stored == OfRollout(e, ans, timeout).work.stored
    ensures PassesService(e, ans) && !ans.clusterRepoOk ==>
              && Stages(e, ans, timeout).end != Error && !InPendingWait(Stages(e, ans, timeout).work.ready)
              && Stages(e, ans, timeout).work.markers == OfService(e, ans, timeout).work.markers
              && Stages(e, ans, timeout).work.stored == OfService(e, ans, timeout).work.stored
  {
    ReleaseRuns(e, ans);
    RolloutRuns(e, ans, timeout);
    if !PassesRelease(e, ans) {
      ReleaseEnds(e, ans);
    } else if !PassesDeployment(e, ans) {
      RolloutEnds(e, ans, timeout);
    } else if ans.kind == HelmSource {
      ServiceRuns(e, ans, timeout);
      if !PassesService(e, ans) { ServiceEnds(e, ans, timeout); }
    }
  }

  lemma ExtensionEnds(e: Ext, ans: Answers, timeout: int)
    requires AsksExtension(e, ans)
    ensures var p := Stages(e, ans, timeout);
            var start := Since(e.markers, ExtensionWait, ans.now);
            && p.Ended?
            && (p.end == Error <==> PendingErrs(e, ExtensionWait, ans.extension, ans, OnExtension))
            && (p.end != Error ==> (InPendingWait(p.work.ready) <==> ans.extension == ReleaseStillPending))
            && (ans.extension == ReleaseStillPending && p.end != Error ==>
                  WaitedOn(p, ExtensionWait, start, ans.now, PENDING_TIMEOUT))
  {
    ServiceRuns(e, ans, timeout);
    ClearEffect(OfService(e, ans, timeout).work, {ExtensionWait}, ans.now, ans.writeOk(OnExtension));
    OneLive(OfService(e, ans, timeout).work.markers, ExtensionWait, ans.now);
  }

  /** The other three waits are over by then. */
  lemma OthersAreOver(e: Ext, ans: Answers, timeout: int, m: Marker)
    requires AsksExtension(e, ans) && m != ExtensionWait
    ensures var w := Stages(e, ans, timeout).work;
            Since(w.stored, m, ans.now).None? && Since(w.markers, m, ans.now).None?
  {
    ServiceRuns(e, ans, timeout);
    EnsureLeaves(OfService(e, ans, timeout).work, ExtensionWait, ans.extension, ans.now, ans.writeOk(OnExtension), m);
  }

  lemma EnsureLeaves(w: Work, x: Marker, answer: EnsureAnswer, now: int, ok: bool, m: Marker)
    requires m != x && w.markers == w.stored
    ensures var after := EnsureStage(Running(w), x, answer, now, ok).work;
            Since(after.markers, m, now) == Since(w.markers, m, now) == Since(after.stored, m, now)
  {
    ClearEffect(w, {x}, now, ok);
    assert Since(ClearMarkers(w, {x}, now, ok).work.markers, m, now) == Since(w.markers, m, now);
  }

  lemma ExtensionStamp(e: Ext, ans: Answers, timeout: int, since: int)
    requires AsksExtension(e, ans) && Since(e.markers, ExtensionWait, ans.now) == Some(since)
    ensures var w := Stages(e, ans, timeout).work;
            && Since(w.stored, ExtensionWait, ans.now)
               == (if ans.extension != ReleaseStillPending && ans.writeOk(OnExtension) then None else Some(since))
            && Since(w.markers, ExtensionWait, ans.now)
               == (if ans.extension != ReleaseStillPending then None else Some(since))
  {
    ServiceRuns(e, ans, timeout);
    var w := OfService(e, ans, timeout).work;
    ClearEffect(w, {ExtensionWait}, ans.now, ans.writeOk(OnExtension));
    assert ExtensionWait in {ExtensionWait} && Since(w.markers, ExtensionWait, ans.now).Some?;
  }

  /** A pass ends in an error exactly when a read or a write it depends on failed. */
  lemma ErrorsAreFailures(e: Ext, ans: Answers, timeout: int)
    ensures Stages(e, ans, timeout).Ended? && (Stages(e, ans, timeout).end == Error <==> Errs(e, ans))
  {
    OneLive(e.markers, ReleaseWait, ans.now);
    StopsAt(e, ans, timeout);
    if !PassesRelease(e, ans) {
      ReleaseEnds(e, ans);
    } else if !PassesDeployment(e, ans) {
      RolloutEnds(e, ans, timeout);
    } else if AsksService(e, ans) && !PassesService(e, ans) {
      ServiceEnds(e, ans, timeout);
    } else if AsksExtension(e, ans) {
      ExtensionEnds(e, ans, timeout);
    }
  }

  lemma EndStamps(e: Ext, ans: Answers, timeout: int, m: Marker)
    ensures var p := Stages(e, ans, timeout);
            var drops := !ans.interrupted && p.end != Error && !InPendingWait(p.work.ready) && ans.writeOk(OnEnd)
                         && Live(p.work.markers, {ReleaseWait, ExtensionWait}, ans.now) != {};
            Since(Pass(e, ans, timeout).markers, m, ans.now)
            == if !drops then Since(p.work.stored, m, ans.now)
               else if OfReadiness(m) then Since(p.work.markers, m, ans.now) else None
  {
    ClearEffect(Stages(e, ans, timeout).work, {ReleaseWait, ExtensionWait}, ans.now, ans.writeOk(OnEnd));
  }

  // One pass: exactly when a stamp survives

  lemma ReadinessStampBecomes(e: Ext, ans: Answers, timeout: int, m: Marker, since: int)
    requires OfReadiness(m) && Since(e.markers, m, ans.now) == Some(since)
    ensures Became(Pass(e, ans, timeout).markers, m, since, ans.now, !Excused(m, e, ans, timeout))
  {
    EndStamps(e, ans, timeout, m);
    StopsAt(e, ans, timeout);
    RolloutRuns(e, ans, timeout);
    if !PassesRelease(e, ans) {
      ReleaseEnds(e, ans);
    } else {
      RolloutStamps(e, ans, timeout, since);
      if !PassesDeployment(e, ans) {
        RolloutEnds(e, ans, timeout);
      } else if ans.kind == HelmSource {
        LaterStages(e, ans, timeout, m, since);
      }
    }
  }

  /** A pass that gets past the rollout has dropped the deployment's stamp. */
  lemma LaterStages(e: Ext, ans: Answers, timeout: int, m: Marker, since: int)
    requires OfReadiness(m) && Since(e.markers, m, ans.now) == Some(since) && AsksService(e, ans)
    ensures Became(Pass(e, ans, timeout).markers, m, since, ans.now, !Excused(m, e, ans, timeout))
  {
    EndStamps(e, ans, timeout, m);
    StopsAt(e, ans, timeout);
    ServiceRuns(e, ans, timeout);
    if m == ServiceWait { ServiceStamp(e, ans, timeout, since); }
    if !PassesService(e, ans) {
      ServiceEnds(e, ans, timeout);
    } else if AsksExtension(e, ans) {
      OthersAreOver(e, ans, timeout, m);
    }
  }

  lemma ReleaseStampBecomes(e: Ext, ans: Answers, timeout: int, since: int)
    requires Since(e.markers, ReleaseWait, ans.now) == Some(since)
    ensures Became(Pass(e, ans, timeout).markers, ReleaseWait, since, ans.now, !Excused(ReleaseWait, e, ans, timeout))
  {
    EndStamps(e, ans, timeout, ReleaseWait);
    StopsAt(e, ans, timeout);
    ReleaseStamp(e, ans, since);
    OneLive(e.markers, ReleaseWait, ans.now);
    if !PassesRelease(e, ans) {
      ReleaseEnds(e, ans);
      BothLive(OfRelease(e, ans).work.markers, ans.now);
    } else if !PassesDeployment(e, ans) {
      RolloutEnds(e, ans, timeout);
    } else {
      RolloutRuns(e, ans, timeout);
      if ans.kind == HelmSource {
        ServiceRuns(e, ans, timeout);
        if !PassesService(e, ans) {
          ServiceEnds(e, ans, timeout);
        } else if AsksExtension(e, ans) {
          OthersAreOver(e, ans, timeout, ReleaseWait);
        }
      }
    }
  }

  lemma BothLive(markers: Markers, now: int)
    ensures Live(markers, {ReleaseWait, ExtensionWait}, now) == {}
            <==> Since(markers, ReleaseWait, now).None? && Since(markers, ExtensionWait, now).None?
  {
    var live := Live(markers, {ReleaseWait, ExtensionWait}, now);
    assert Since(markers, ReleaseWait, now).Some? ==> ReleaseWait in live;
    assert Since(markers, ExtensionWait, now).Some? ==> ExtensionWait in live;
  }

  lemma UnaskedStamp(e: Ext, ans: Answers, timeout: int, since: int)
    requires Since(e.markers, ExtensionWait, ans.now) == Some(since) && !AsksExtension(e, ans)
    ensures Since(Pass(e, ans, timeout).markers, ExtensionWait, ans.now)
            == if HeldUp(e, ans, timeout) then Some(since) else None
  {
    EndStamps(e, ans, timeout, ExtensionWait);
    StopsAt(e, ans, timeout);
    ErrorsAreFailures(e, ans, timeout);
    BothLive(Stages(e, ans, timeout).work.markers, ans.now);
    if !PassesRelease(e, ans) {
      ReleaseEnds(e, ans);
    } else if !PassesDeployment(e, ans) {
      RolloutEnds(e, ans, timeout);
    } else if AsksService(e, ans) && !PassesService(e, ans) {
      ServiceEnds(e, ans, timeout);
    } else {
      RolloutRuns(e, ans, timeout);
      if ans.kind == HelmSource { ServiceRuns(e, ans, timeout); }
    }
  }

  /** A pass that never looks at the extension's release: its stamp survives if and only
      if the pass is held up. */
  lemma UnaskedStampStays(e: Ext, ans: Answers, timeout: int, since: int)
    requires Times(e.markers, ExtensionWait, since) && since <= ans.now && !AsksExtension(e, ans)
    ensures Times(Pass(e, ans, timeout).markers, ExtensionWait, since) <==> HeldUp(e, ans, timeout)
  {
    UnaskedStamp(e, ans, timeout, since);
  }

  lemma AskedStamp(e: Ext, ans: Answers, timeout: int, since: int)
    requires Since(e.markers, ExtensionWait, ans.now) == Some(since) && AsksExtension(e, ans)
    ensures Since(Pass(e, ans, timeout).markers, ExtensionWait, ans.now)
            == if ans.extension != ReleaseStillPending && ans.writeOk(OnExtension) then None else Some(since)
  {
    EndStamps(e, ans, timeout, ExtensionWait);
    ExtensionStamp(e, ans, timeout, since);
    ExtensionEnds(e, ans, timeout);
    OthersAreOver(e, ans, timeout, ReleaseWait);
    BothLive(Stages(e, ans, timeout).work.markers, ans.now);
  }

  /** A live stamp outlasts a pass if and only if the pass is not excused, whatever the
      other waits, failing writes, failures and interruptions do to that pass. (In the
      second in which it was set, a stamp that was dropped may be set again the same.) */
  lemma StampIsKept(e: Ext, ans: Answers, timeout: int, m: Marker, since: int)
    requires Times(e.markers, m, since) && since <= ans.now
    ensures !Excused(m, e, ans, timeout) ==> Times(Pass(e, ans, timeout).markers, m, since)
    ensures Excused(m, e, ans, timeout) && since < ToSecond(ans.now) ==> !Times(Pass(e, ans, timeout).markers, m, since)
  {
    match m
    case DeploymentWait => ReadinessStampBecomes(e, ans, timeout, m, since);
    case ServiceWait => ReadinessStampBecomes(e, ans, timeout, m, since);
    case ReleaseWait => ReleaseStampBecomes(e, ans, timeout, since);
    case ExtensionWait =>
      if AsksExtension(e, ans) { AskedStamp(e, ans, timeout, since); } else { UnaskedStamp(e, ans, timeout, since); }
  }

  // What a waiting pass makes of its wait

  /** The server release (or, from git, the extension's) is still pending. */
  lemma PendingPass(e: Ext, ans: Answers, timeout: int)
    requires Waits(ReleaseWait, e, ans)
    ensures WaitedOn(Stages(e, ans, timeout), ReleaseWait, Since(e.markers, ReleaseWait, ans.now), ans.now,
                     PENDING_TIMEOUT)
    ensures InPendingWait(Stages(e, ans, timeout).work.ready)
  {
  }

  /** One waiting pass: Failed exactly when the wait has outlasted its bound, and the
      stamp it is judged by stays (or is set, when there was none). */
  lemma WaitingPass(e: Ext, ans: Answers, timeout: int, m: Marker)
    requires Waits(m, e, ans)
    ensures WaitedOn(Stages(e, ans, timeout), m, StampOf(e, ans, m), ans.now, Bound(m, timeout))
    ensures !OfReadiness(m) ==> InPendingWait(Stages(e, ans, timeout).work.ready)
  {
    StopsAt(e, ans, timeout);
    match m
    case DeploymentWait => RolloutEnds(e, ans, timeout);
    case ServiceWait => ServiceEnds(e, ans, timeout);
    case ReleaseWait => PendingPass(e, ans, timeout);
    case ExtensionWait => ExtensionEnds(e, ans, timeout);
  }

  /** What is stored after it. */
  lemma WaitingPassLeaves(e: Ext, ans: Answers, timeout: int, m: Marker)
    requires Waits(m, e, ans)
    ensures var since := StampOf(e, ans, m);
            Times(Pass(e, ans, timeout).markers, m, if since.Some? then since.value else ToSecond(ans.now))
    ensures !ans.interrupted && ans.persistOk ==> Pass(e, ans, timeout).phase == Stages(e, ans, timeout).work.phase
  {
    WaitingPass(e, ans, timeout, m);
    EndStamps(e, ans, timeout, m);
    var w := Stages(e, ans, timeout).work;
    assert Since(w.stored, m, ans.now) == Since(w.markers, m, ans.now);
  }

  /** Another revision than the recorded one is another rollout: whatever the clocks said,
      both readiness waits start over, and the new revision is the one recorded. */
  lemma NewRolloutStartsOver(e: Ext, ans: Answers, timeout: int, m: Marker)
    requires OfReadiness(m) && Waits(m, e, ans) && Restarts(e, ans)
    ensures WaitedOn(Stages(e, ans, timeout), m, None, ans.now, timeout)
    ensures Stages(e, ans, timeout).work.revision == RevisionOf(ans).value
    ensures !NewRevision(Stages(e, ans, timeout).work.revision, RevisionOf(ans))
  {
    WaitingPass(e, ans, timeout, m);
    RecordedRevision(e, ans, timeout);
    StopsAt(e, ans, timeout);
    if m == DeploymentWait {
      RolloutEnds(e, ans, timeout);
    } else {
      RolloutRuns(e, ans, timeout);
      Awaited(OfRollout(e, ans, timeout).work, e, ServiceWait, ans.serviceReady, ans.now, timeout,
              ans.writeOk(OnService));
    }
  }

  lemma RecordedRevision(e: Ext, ans: Answers, timeout: int)
    requires AsksDeployment(e, ans) && RevisionOf(ans).Some?
    ensures OfRollout(e, ans, timeout).Running? ==> OfRollout(e, ans, timeout).work.revision == RevisionOf(ans).value
  {
    ReleaseRuns(e, ans);
    var w := OfRelease(e, ans).work;
    Restarted(w, e, ans);
    var r := RestartReadinessClocks(w, ans.releaseInfo.value, ans.now, ans.writeOk(OnRestart));
    Awaited(r.work, e, DeploymentWait, ans.deploymentReady, ans.now, timeout, ans.writeOk(OnDeployment));
  }

  // Runs

  function Run(e: Ext, passes: seq<Answers>, timeout: int): Ext
  {
    if passes == [] then e else Pass(Run(e, passes[..|passes| - 1], timeout), passes[|passes| - 1], timeout)
  }

  /** Pass `i` of the run, on the object it finds, is not excused from waiting on `m`. */
  ghost predicate Unresolved(e: Ext, passes: seq<Answers>, timeout: int, m: Marker, i: nat)
  {
    0 < i < |passes| ==> !Excused(m, Run(e, passes[..i], timeout), passes[i], timeout)
  }

  lemma FrontUnresolved(e: Ext, passes: seq<Answers>, timeout: int, m: Marker)
    requires |passes| >= 2 && forall i: nat :: Unresolved(e, passes, timeout, m, i)
    ensures var n := |passes| - 1;
            && (forall i: nat :: Unresolved(e, passes[..n], timeout, m, i))
            && !Excused(m, Run(e, passes[..n], timeout), passes[n], timeout)
  {
    var n := |passes| - 1;
    forall i: nat ensures Unresolved(e, passes[..n], timeout, m, i) {
      assert Unresolved(e, passes, timeout, m, i);
      if i < n { assert passes[..n][..i] == passes[..i]; }
    }
    assert Unresolved(e, passes, timeout, m, n);
  }

  ghost predicate Forward(passes: seq<Answers>)
  {
    forall i, j :: 0 <= i < j < |passes| ==> passes[i].now <= passes[j].now
  }

  /** From the first pass that waits on `m` with no stamp, for as long as nothing resolves
      the wait, the stamp is the time of that first pass, whatever the other three waits
      do and whatever happens to the passes in between. */
  lemma {:induction false} FirstStampStays(e: Ext, passes: seq<Answers>, timeout: int, m: Marker)
    requires passes != [] && Forward(passes)
    requires Waits(m, e, passes[0]) && StampOf(e, passes[0], m).None?
    requires forall i: nat :: Unresolved(e, passes, timeout, m, i)
    ensures Times(Run(e, passes, timeout).markers, m, ToSecond(passes[0].now))
  {
    var n := |passes| - 1;
    var front := passes[..n];
    if n == 0 {
      assert Run(e, front, timeout) == e;
      WaitingPassLeaves(e, passes[0], timeout, m);
    } else {
      FrontUnresolved(e, passes, timeout, m);
      FirstStampStays(e, front, timeout, m);
      assert passes[0].now <= passes[n].now;
      StampIsKept(Run(e, front, timeout), passes[n], timeout, m, ToSecond(passes[0].now));
    }
  }

  /** A pass that waits on `m` by a live stamp without being excused judges it by that
      stamp. */
  lemma JudgedBy(e: Ext, ans: Answers, timeout: int, m: Marker)
    requires Waits(m, e, ans) && !Excused(m, e, ans, timeout) && Since(e.markers, m, ans.now).Some?
    ensures StampOf(e, ans, m) == Since(e.markers, m, ans.now)
  {
    if OfReadiness(m) { assert m in Live(e.markers, {DeploymentWait, ServiceWait}, ans.now); }
  }

  /** So a pass that still waits is Failed exactly when more than the bound has gone by
      since the first one, to the second; and it asks to be looked at again. */
  lemma WaitsAreBounded(e: Ext, passes: seq<Answers>, timeout: int, m: Marker)
    requires |passes| >= 2 && Forward(passes)
    requires Waits(m, e, passes[0]) && StampOf(e, passes[0], m).None?
    requires forall i: nat :: Unresolved(e, passes, timeout, m, i)
    requires var last := passes[|passes| - 1];
             Waits(m, Run(e, passes[..|passes| - 1], timeout), last) && !last.interrupted && last.persistOk
    ensures var last := passes[|passes| - 1];
            var p := Stages(Run(e, passes[..|passes| - 1], timeout), last, timeout);
            var over := last.now - ToSecond(passes[0].now) > Bound(m, timeout);
            && Run(e, passes, timeout).phase == (if over then InstallFailed else Installing)
            && p.end == Requeue(if over then FailureRetryInterval(p.work.ready, last.now) else LooksAgainIn(m))
  {
    var n := |passes| - 1;
    var front := passes[..n];
    FrontUnresolved(e, passes, timeout, m);
    FirstStampStays(e, front, timeout, m);
    assert passes[0].now <= passes[n].now;
    JudgedBy(Run(e, front, timeout), passes[n], timeout, m);
    WaitingPass(Run(e, front, timeout), passes[n], timeout, m);
    WaitingPassLeaves(Run(e, front, timeout), passes[n], timeout, m);
  }
}
