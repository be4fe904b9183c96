/** The reconciler itself: it changes its copy of the object field by field and writes it
    back. Every method is shown to do what the machine in `Operations` says. */
module Controller {
  import opened Workload
  import opened Keys
  import opened Certify
  import opened Baselines
  import opened Matrix
  import opened Phases
  import opened Operations

  /** The controller's copy of one AIWorkload. */
  class AIWorkload {
    var name: string
    var createdAt: int
    var spec: Spec
    var ann: Annotations
    var status: Status
    var rv: nat

    constructor (c: Copy)
      ensures AsCopy() == c
    {
      name, createdAt, spec, ann, status, rv := c.obj.name, c.obj.createdAt, c.obj.spec, c.obj.ann, c.obj.status, c.rv;
    }

    function Value(): Object
      reads this
    {
      Object(name, createdAt, spec, ann, status)
    }

    function AsCopy(): Copy
      reads this
    {
      Copy(Value(), rv)
    }

    /** The answer to a write is decoded into the object that was written. */
    method Decode(c: Copy)
      modifies this
      ensures AsCopy() == c
    {
      name, createdAt, spec, ann, status, rv := c.obj.name, c.obj.createdAt, c.obj.spec, c.obj.ann, c.obj.status, c.rv;
    }
  }

  /** The stored versions of one object. */
  class ApiServer {
    var log: seq<Version>

    ghost predicate Valid()
      reads this
    {
      log != []
    }

    constructor (o: Object)
      ensures Valid() && log == [Version(o, Created)]
    {
      log := [Version(o, Created)];
    }

    method Get(at: nat) returns (w: AIWorkload)
      requires at < |log|
      ensures fresh(w) && w.AsCopy() == Copy(log[at].obj, at)
    {
      w := new AIWorkload(Copy(log[at].obj, at));
    }

    method Update(w: AIWorkload, fate: Fate, cause: Cause) returns (ok: bool)
      requires Valid()
      modifies this, w
      ensures Valid()
      ensures Put(log, w.AsCopy(), ok) == PutMeta(old(log), old(w.AsCopy()), fate, cause)
    {
      if fate.Raced? {
        log := log + [Version(ApplyEdit(log[|log| - 1].obj, fate.edit), ByUser)];
      }
      if fate.Refused? || w.rv != |log| - 1 {
        return false;
      }
      var stored := w.Value().(status := log[|log| - 1].obj.status);
      log := log + [Version(stored, cause)];
      if fate.LandsUnanswered? {
        return false;
      }
      w.Decode(Copy(stored, |log| - 1));
      return true;
    }

    method UpdateStatus(w: AIWorkload, fate: Fate, cause: Cause) returns (ok: bool)
      requires Valid()
      modifies this, w
      ensures Valid()
      ensures Put(log, w.AsCopy(), ok) == PutStatus(old(log), old(w.AsCopy()), fate, cause)
    {
      if fate.Raced? {
        log := log + [Version(ApplyEdit(log[|log| - 1].obj, fate.edit), ByUser)];
      }
      if fate.Refused? || w.rv != |log| - 1 {
        return false;
      }
      var stored := log[|log| - 1].obj.(status := w.status);
      log := log + [Version(stored, cause)];
      if fate.LandsUnanswered? {
        return false;
      }
      w.Decode(Copy(stored, |log| - 1));
      return true;
    }
  }

  class Reconciler {
    const api: ApiServer

    constructor (api: ApiServer)
      ensures this.api == api
    {
      this.api := api;
    }

    // Requests

    /** At most one request is acted on. `handled` asks the caller to requeue. */
    method HandleTriggers(w: AIWorkload, now: int, fate: Fate) returns (handled: bool, ok: bool)
      requires api.Valid()
      modifies api, w
      ensures api.Valid()
      ensures Triggered(old(w.Value()), now).None? ==>
                !handled && ok && w.AsCopy() == old(w.AsCopy()) && api.log == old(api.log)
      ensures Triggered(old(w.Value()), now).Some? ==>
                var p := PutMeta(old(api.log), Copy(Triggered(old(w.Value()), now).value, old(w.rv)), fate,
                                 ByTrigger(now));
                api.log == p.log && ok == p.ok && handled == p.ok
    {
      var ids := w.ann.handled;
      if w.ann.upgradeRequest != "" {
        var (nonce, target) := SplitRequest(w.ann.upgradeRequest);
        if HandledId(Upgrade, nonce) in ids {
          return false, true;
        }
        var cur := if w.spec.blueprint.Some? then w.spec.blueprint.value.version else "";
        if target == cur {
          ok := StartRetry(w, nonce, now, fate);
          return ok, ok;
        }
        ok := StartVersionOp(w, Upgrade, nonce, target, NoAggregate, now, fate);
        return ok, ok;
      }
      if w.ann.rollbackRequest != "" {
        var nonce := w.ann.rollbackRequest;
        var id := HandledId(Rollback, nonce);
        if id in ids {
          return false, true;
        }
        var deployed := w.status.deployedSource;
        if deployed.None? || (w.spec.blueprint.Some? && deployed.value.version == w.spec.blueprint.value.version) {
          ok := FinishTrigger(w, Rollback, id, None, now, fate);
          return ok, ok;
        }
        ok := StartVersionOp(w, Rollback, nonce, deployed.value.version, deployed.value.digest, now, fate);
        return ok, ok;
      }
      if w.ann.retryRequest != "" {
        if HandledId(Retry, w.ann.retryRequest) in ids {
          return false, true;
        }
        ok := StartRetry(w, w.ann.retryRequest, now, fate);
        return ok, ok;
      }
      return false, true;
    }

    method StartVersionOp(w: AIWorkload, opType: OpType, nonce: string, target: string, expectedDigest: AggregateDigest,
                          now: int, fate: Fate)
      returns (ok: bool)
      requires api.Valid()
      modifies api, w
      ensures api.Valid()
      ensures var started := Operations.StartVersionOp(old(w.Value()), opType, nonce, target, expectedDigest, now);
              var p := PutMeta(old(api.log), Copy(started, old(w.rv)), fate, ByTrigger(now));
              api.log == p.log && ok == p.ok
    {
      if w.ann.operation.Some? {
        w.ann := w.ann.(superseded := w.ann.operation);
      }
      if w.spec.blueprint.Some? {
        w.spec := w.spec.(blueprint := Some(w.spec.blueprint.value.(version := target)));
      }
      var op := Operation(opType, nonce, target, expectedDigest, 0, StoredTime(now), IntentDigest(w.spec), InProgress,
                          NoReason);
      ok := FinishTrigger(w, opType, HandledId(opType, nonce), Some(op), now, fate);
    }

    method StartRetry(w: AIWorkload, nonce: string, now: int, fate: Fate) returns (ok: bool)
      requires api.Valid()
      modifies api, w
      ensures api.Valid()
      ensures var p := PutMeta(old(api.log), Copy(StartRetryOp(old(w.Value()), nonce, now), old(w.rv)), fate,
                               ByTrigger(now));
              api.log == p.log && ok == p.ok
    {
      var epoch := w.ann.retryEpoch + 1;
      w.ann := w.ann.(retryEpoch := epoch);
      var op := Operation(Retry, nonce, "", NoAggregate, epoch, StoredTime(now), IntentDigest(w.spec), InProgress,
                          NoReason);
      ok := FinishTrigger(w, Retry, HandledId(Retry, nonce), Some(op), now, fate);
    }

    method FinishTrigger(w: AIWorkload, request: OpType, id: string, op: Option<Operation>, now: int, fate: Fate)
      returns (ok: bool)
      requires api.Valid()
      modifies api, w
      ensures api.Valid()
      ensures var p := PutMeta(old(api.log), Copy(Operations.FinishTrigger(old(w.Value()), request, id, op), old(w.rv)),
                               fate, ByTrigger(now));
              api.log == p.log && ok == p.ok
    {
      w.ann := WithoutRequest(w.ann, request);
      w.ann := w.ann.(handled := AddHandled(w.ann.handled, id));
      if op.Some? {
        w.ann := w.ann.(operation := op);
      }
      ok := api.Update(w, fate, ByTrigger(now));
    }

    // Status

    method ReconcileStatus(w: AIWorkload, obs: Observation) returns (result: PassResult, cause: Cause)
      requires api.Valid()
      modifies api, w
      ensures api.Valid()
      ensures Stage(api.log, w.AsCopy(), result, cause) == StatusStage(old(api.log), old(w.AsCopy()), obs)
    {
      if NeedsNames(w.Value(), obs) {
        cause := ByEcho;
        var names := ComponentBundleNames(w, obs.blueprint.value);
        w.spec := w.spec.(fleetBundleNames := names);
        var ok := api.Update(w, obs.fate(NamesWrite), ByNames(obs.blueprint.value));
        result := if ok then Requeued else Errored;
      } else {
        result := ReconcileBlueprintStatus(w, obs);
        cause := ByStatus(obs, result);
      }
    }

    method ComponentBundleNames(w: AIWorkload, components: seq<Component>) returns (names: seq<string>)
      ensures names == BundleNames(w.name, components)
    {
      names := [];
      for i := 0 to |components|
        invariant names == BundleNames(w.name, components[..i])
      {
        assert components[..i + 1][..i] == components[..i];
        names := names + [BundleName(w.name, components[i].chartName)];
      }
      assert components[..|components|] == components;
    }

    method ReconcileBlueprintStatus(w: AIWorkload, obs: Observation) returns (result: PassResult)
      modifies w`status
      ensures StatusOutcome(w.status, result) == BlueprintStatus(old(w.Value()), obs)
    {
      if w.spec.blueprint.None? {
        return Settled;
      }
      match obs.blueprint {
        case Unreadable => return Errored;
        case Absent =>
          w.status := w.status.(phase := FailedPhase(w.Value(), obs));
          return Settled;
        case Present(components) =>
          ghost var before := w.Value();
          var stopped, digests := RenderComponents(w, EnabledComponents(w.spec.overrides, components), obs);
          if stopped.Some? {
            return stopped.value;
          }
          result := ReconcileFleet(w, before, EnabledComponents(w.spec.overrides, components), digests, obs);
      }
    }

    /** The render loop. It stops at the first component that cannot be rendered. */
    method RenderComponents(w: AIWorkload, components: seq<Component>, obs: Observation)
      returns (stopped: Option<PassResult>, digests: Digests)
      modifies w`status
      ensures match RenderAll(old(w.Value()), components, obs)
              case Stopped(outcome) => stopped == Some(outcome.result) && w.status == outcome.status
              case Rendering(baselines, d) =>
                stopped.None? && digests == d && w.status == old(w.status).(baselines := baselines)
    {
      digests := map[];
      if w.spec.strategy == Helm {
        return None, digests;
      }
      ghost var o := w.Value();
      var stored := w.status.baselines;
      for i := 0 to |components|
        invariant w.name == o.name && w.createdAt == o.createdAt && w.spec == o.spec && w.ann == o.ann
        invariant w.status == o.status.(baselines := w.status.baselines)
        invariant RenderAll(o, components[..i], obs) == Rendering(w.status.baselines, digests)
      {
        assert components[..i + 1][..i] == components[..i];
        stopped, digests := RenderComponent(w, o, stored, components[i], obs.render(i), digests, obs);
        if stopped.Some? {
          RenderStops(o, components, i + 1, obs);
          return;
        }
      }
      assert components[..|components|] == components;
      stopped := None;
    }

    static lemma {:induction false} RenderStops(o: Object, components: seq<Component>, n: nat, obs: Observation)
      requires n <= |components| && o.spec.strategy != Helm
      requires RenderAll(o, components[..n], obs).Stopped?
      ensures RenderAll(o, components, obs) == RenderAll(o, components[..n], obs)
      decreases |components|
    {
      if n < |components| {
        var front := components[..|components| - 1];
        assert front[..n] == components[..n];
        RenderStops(o, front, n, obs);
      } else {
        assert components[..n] == components;
      }
    }

    /** `stored` is what the answer to a publication says. */
    method RenderComponent(w: AIWorkload, ghost o: Object, stored: seq<RenderBaseline>, c: Component,
                           answer: RenderAnswer, digests: Digests, obs: Observation)
      returns (stopped: Option<PassResult>, next: Digests)
      requires w.Value() == o.(status := o.status.(baselines := w.status.baselines))
      requires stored == o.status.baselines
      modifies w`status
      ensures match RenderOne(o, c, answer, old(w.status.baselines), digests, obs)
              case Stopped(outcome) => stopped == Some(outcome.result) && w.status == outcome.status
              case Rendering(baselines, d) =>
                stopped.None? && next == d && w.status == o.status.(baselines := baselines)
    {
      next := digests;
      if answer.Rendered? {
        var digest := ComponentDigest(w.spec, c, answer.repoURL, answer.values);
        if answer.published && w.spec.strategy == GitOps && stored != [] {
          w.status := w.status.(baselines := stored);
        }
        var ok := RecordRenderBaselines(w, PatchedKeys(w.Value(), c), digest, obs);
        if !ok {
          if w.spec.strategy == FleetBundle {
            w.status := w.status.(phase := FailedPhase(w.Value(), obs));
          }
          return Some(Errored), digests;
        }
        next := SetDigests(digests, OwnKeys(w.Value(), c), digest);
        return None, next;
      }
      w.status := w.status.(phase := FailedPhase(w.Value(), obs));
      stopped := Some(if answer.RenderFailed? then Errored else if answer.ChartTooLarge? then Settled else Requeued);
    }

    method RecordRenderBaselines(w: AIWorkload, keys: seq<HelmOpKey>, digest: RenderDigest, obs: Observation)
      returns (ok: bool)
      modifies w`status
      ensures var r := RecordBaselines(keys, old(w.status.baselines), digest, w.ann.retryEpoch, obs.helmOp);
              ok == r.ok && w.status == old(w.status).(baselines := r.baselines)
    {
      ghost var before := w.status.baselines;
      for i := 0 to |keys|
        invariant w.status == old(w.status).(baselines := w.status.baselines)
        invariant RecordBaselines(keys[..i], before, digest, w.ann.retryEpoch, obs.helmOp)
               == Recorded(w.status.baselines, true)
      {
        assert keys[..i + 1][..i] == keys[..i];
        match obs.helmOp(keys[i].ref) {
          case Unreadable =>
            RecordingStops(keys, i + 1, before, digest, w.ann.retryEpoch, obs.helmOp);
            return false;
          case Absent =>
          case Present(ho) =>
            var entry := RenderBaseline(ho.uid, digest, w.ann.retryEpoch, ho.generation, ho.fingerprint);
            var baselines := UpsertRenderBaseline(w.status.baselines, entry);
            w.status := w.status.(baselines := baselines);
        }
      }
      assert keys[..|keys|] == keys;
      return true;
    }

    static lemma {:induction false} RecordingStops(keys: seq<HelmOpKey>, n: nat, baselines: seq<RenderBaseline>,
                                                   digest: RenderDigest, epoch: int, helmOp: Ref -> Read<HelmOp>)
      requires n <= |keys| && !RecordBaselines(keys[..n], baselines, digest, epoch, helmOp).ok
      ensures RecordBaselines(keys, baselines, digest, epoch, helmOp)
           == RecordBaselines(keys[..n], baselines, digest, epoch, helmOp)
      decreases |keys|
    {
      if n < |keys| {
        assert keys[..|keys| - 1][..n] == keys[..n];
        RecordingStops(keys[..|keys| - 1], n, baselines, digest, epoch, helmOp);
      } else {
        assert keys[..n] == keys;
      }
    }

    /** Cleanup, prune, matrix, phases, certification. */
    method ReconcileFleet(w: AIWorkload, ghost o: Object, components: seq<Component>, digests: Digests,
                          obs: Observation) returns (result: PassResult)
      requires w.Value() == o.(status := o.status.(baselines := w.status.baselines))
      requires components == EnabledOf(o, obs)
      modifies w`status
      ensures StatusOutcome(w.status, result) == FleetStatus(o, old(w.status.baselines), digests, obs)
    {
      var keys := DesiredHelmOpKeys(w.name, w.spec.targetClusters, components, w.spec.strategy);
      if !obs.cleanupOk {
        return Errored;
      }
      var uids := CollectUids(keys, obs.liveUid);
      var kept := PruneRenderBaselines(w.status.baselines, uids);
      w.status := w.status.(baselines := kept);
      var matrix := BuildComponentMatrix(keys, w.spec.targetClusters, kept, w.ann.retryEpoch, digests, obs.matrix);
      if matrix.None? {
        return Errored;
      }
      var clusters := AggregateClusterStatuses(matrix.value);
      w.status := w.status.(cells := matrix.value, clusters := clusters);
      var derived := DerivePhase(CellPhases(matrix.value));
      w.status := w.status.(phase := GuardPhaseTransition(derived, w.status.phase, w.createdAt, obs.now));
      var ok := CertifyDeployedSource(w, keys, digests, obs);
      return if ok && obs.customizedOk then Settled else Errored;
    }

    method CollectUids(keys: seq<HelmOpKey>, liveUid: Ref -> Option<string>) returns (uids: set<string>)
      ensures uids == LiveUids(keys, liveUid)
    {
      uids := {};
      for i := 0 to |keys|
        invariant uids == LiveUids(keys[..i], liveUid)
      {
        assert keys[..i + 1] == keys[..i] + [keys[i]];
        var uid := liveUid(keys[i].ref);
        if uid.Some? {
          uids := uids + {uid.value};
        }
      }
      assert keys[..|keys|] == keys;
    }

    method CertifyDeployedSource(w: AIWorkload, keys: seq<HelmOpKey>, digests: Digests, obs: Observation)
      returns (ok: bool)
      modifies w`status
      ensures var (deployed, read) := CertifiedSource(w.spec, old(w.status.deployedSource), keys, digests, obs.bundleAt,
                                                      obs.now);
              ok == read && w.status == old(w.status).(deployedSource := deployed)
    {
      if |keys| == 0 {
        return true;
      }
      var entries := [];
      for i := 0 to |keys|
        invariant w.status == old(w.status)
        invariant CertifyKeys(keys[..i], digests, obs.bundleAt) == Certified(entries)
      {
        assert keys[..i + 1][..i] == keys[..i];
        var digest := DigestFor(digests, keys[i].ref);
        match obs.bundleAt(keys[i].ref) {
          case Unreadable =>
            CertificationStops(keys, i + 1, digests, obs.bundleAt);
            return false;
          case Absent =>
            CertificationStops(keys, i + 1, digests, obs.bundleAt);
            return true;
          case Present(b) =>
            if !BundleCertified(b, digest, keys[i].expectedClusters) {
              CertificationStops(keys, i + 1, digests, obs.bundleAt);
              return true;
            }
        }
        entries := entries + [AggregateEntry(keys[i].ref, digest)];
      }
      assert keys[..|keys|] == keys;
      var digest := AggregateRenderDigest(entries);
      var version := if w.spec.blueprint.Some? then w.spec.blueprint.value.version else "";
      var deployed := w.status.deployedSource;
      if deployed.Some? && deployed.value.version == version && deployed.value.digest == digest {
        return true;
      }
      w.status := w.status.(deployedSource := Some(DeployedSource(version, digest, obs.now)));
      return true;
    }

    static lemma {:induction false} CertificationStops(keys: seq<HelmOpKey>, n: nat, digests: Digests,
                                                       bundleAt: Ref -> Read<Bundle>)
      requires n <= |keys| && !CertifyKeys(keys[..n], digests, bundleAt).Certified?
      ensures CertifyKeys(keys, digests, bundleAt) == CertifyKeys(keys[..n], digests, bundleAt)
      decreases |keys|
    {
      if n < |keys| {
        assert keys[..|keys| - 1][..n] == keys[..n];
        CertificationStops(keys[..|keys| - 1], n, digests, bundleAt);
      } else {
        assert keys[..n] == keys;
      }
    }

    // The operation in flight

    method ProjectOperation(w: AIWorkload)
      modifies w`status
      ensures w.Value() == Project(old(w.Value()))
    {
      if w.ann.operation.Some? {
        if w.status.activeOperation != w.ann.operation {
          w.status := w.status.(activeOperation := w.ann.operation);
        }
        return;
      }
      var active := w.status.activeOperation;
      if active.Some? && active.value.state != InProgress && active.value.intent != IntentDigest(w.spec) {
        w.status := w.status.(activeOperation := None);
      }
    }

    method AnyFailed(cells: seq<Cell>) returns (failed: bool)
      ensures failed == AnyCellFailed(cells)
    {
      for i := 0 to |cells|
        invariant !AnyCellFailed(cells[..i])
      {
        if cells[i].phase == CellFailed {
          return true;
        }
      }
      assert cells[..|cells|] == cells;
      return false;
    }

    method RetrySyncSettled(w: AIWorkload, epoch: int, syncOf: string -> Option<seq<Option<int>>>)
      returns (settled: bool)
      ensures settled == RetrySettled(w.Value(), epoch, syncOf)
    {
      var names := w.spec.fleetBundleNames;
      for i := 0 to |names|
        invariant forall name :: name in names[..i] ==> SyncedTo(syncOf(name), epoch)
      {
        assert names[..i + 1] == names[..i] + [names[i]];
        var generations := syncOf(names[i]);
        if generations.None? {
          assert names[i] in names;
          return false;
        }
        var items := generations.value;
        for j := 0 to |items|
          invariant forall m :: 0 <= m < j ==> items[m].Some? && items[m].value >= epoch
        {
          if items[j].None? || items[j].value < epoch {
            assert names[i] in names;
            return false;
          }
        }
      }
      assert names[..|names|] == names;
      return true;
    }

    method Decided(w: AIWorkload, op: Operation, obs: Observation) returns (outcome: Operation)
      ensures outcome == Outcome(w.Value(), op, obs)
    {
      var certified := w.status.deployedSource.Some? && w.status.deployedSource.value.version == op.targetVersion;
      if op.opType == Retry {
        certified := w.status.phase == PhaseRunning;
        if certified {
          certified := RetrySyncSettled(w, op.retryEpoch, obs.syncOf);
        }
      }
      var anyFailed := AnyFailed(w.status.cells);
      outcome := OperationOutcome(w.Value(), op, certified, anyFailed, RollbackDrift(w.Value(), op), obs.now);
    }

    method ReconcileOperation(w: AIWorkload, obs: Observation)
      requires api.Valid()
      modifies api, w
      ensures api.Valid()
      ensures api.log == OperationStage(old(api.log), old(w.AsCopy()), obs)
    {
      if w.ann.operation.None? {
        return;
      }
      var outcome := Decided(w, w.ann.operation.value, obs);
      if outcome.state == InProgress {
        return;
      }
      w.ann := w.ann.(operation := Some(outcome));
      var ok := api.Update(w, obs.fate(JournalWrite), ByJournal(obs));
      if !ok {
        return;
      }
      w.status := w.status.(activeOperation := Some(outcome));
      ok := api.UpdateStatus(w, obs.fate(ProjectWrite), ByProjection);
      if !ok {
        return;
      }
      w.ann := w.ann.(operation := None);
      ok := api.Update(w, obs.fate(ClearWrite), ByClear);
    }

    /** One reconcile, from a read of version `at` to the last write: what is stored
        afterwards is what the machine says. */
    method Reconcile(at: nat, obs: Observation)
      requires api.Valid() && at < |api.log|
      modifies api
      ensures api.Valid()
      ensures api.log == Pass(old(api.log), at, obs)
    {
      var w := api.Get(at);
      var handled, ok := HandleTriggers(w, obs.now, obs.fate(TriggerWrite));
      if !ok || handled {
        return;
      }
      var result, cause := ReconcileStatus(w, obs);
      ProjectOperation(w);
      ok := api.UpdateStatus(w, obs.fate(StatusWrite), cause);
      if !ok || result != Settled {
        return;
      }
      ReconcileOperation(w, obs);
    }
  }
}
