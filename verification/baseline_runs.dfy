/** The render baselines of a run: what is stored is what the observations and prunes of
    its stored passes add up to, so a rejection counts only against the attempt it is
    about. */
module BaselineRuns {
  import opened Ordering
  import opened Workload
  import opened Keys
  import opened Baselines
  import opened Operations
  import opened Runs

  function ApplyAll(before: seq<RenderBaseline>, steps: seq<BaselineStep>): seq<RenderBaseline>
  {
    if steps == [] then before else Apply(ApplyAll(before, steps[..|steps| - 1]), steps[|steps| - 1])
  }

  lemma {:induction false} AfterBoth(s: seq<BaselineStep>, t: seq<BaselineStep>)
    ensures After(s + t) == ApplyAll(After(s), t)
  {
    if t == [] {
      assert s + t == s;
    } else {
      AfterBoth(s, t[..|t| - 1]);
      assert (s + t)[..|s + t| - 1] == s + t[..|t| - 1];
    }
  }

  lemma {:induction false} ApplyBoth(before: seq<RenderBaseline>, s: seq<BaselineStep>, t: seq<BaselineStep>)
    ensures ApplyAll(before, s + t) == ApplyAll(ApplyAll(before, s), t)
  {
    if t == [] {
      assert s + t == s;
    } else {
      ApplyBoth(before, s, t[..|t| - 1]);
      assert (s + t)[..|s + t| - 1] == s + t[..|t| - 1];
    }
  }

  // The steps one pass takes

  predicate Readable(keys: seq<HelmOpKey>, helmOp: Ref -> Read<HelmOp>)
  {
    forall i :: 0 <= i < |keys| ==> !helmOp(keys[i].ref).Unreadable?
  }

  /** One observation for each HelmOp that is there, up to the first failed read. */
  function KeySteps(keys: seq<HelmOpKey>, digest: RenderDigest, epoch: int,
                    helmOp: Ref -> Read<HelmOp>): seq<BaselineStep>
  {
    if keys == [] then []
    else
      var front, k := KeySteps(keys[..|keys| - 1], digest, epoch, helmOp), keys[|keys| - 1];
      if !Readable(keys[..|keys| - 1], helmOp) then front
      else
        match helmOp(k.ref)
        case Present(ho) => front + [Observe(RenderBaseline(ho.uid, digest, epoch, ho.generation, ho.fingerprint))]
        case _ => front
  }

  lemma {:induction false} RecordingIsSteps(keys: seq<HelmOpKey>, baselines: seq<RenderBaseline>, digest: RenderDigest,
                                            epoch: int, helmOp: Ref -> Read<HelmOp>)
    ensures var r := RecordBaselines(keys, baselines, digest, epoch, helmOp);
            r.ok == Readable(keys, helmOp) && r.baselines == ApplyAll(baselines, KeySteps(keys, digest, epoch, helmOp))
  {
    if keys != [] {
      var front, k := keys[..|keys| - 1], keys[|keys| - 1];
      RecordingIsSteps(front, baselines, digest, epoch, helmOp);
      if Readable(front, helmOp) && helmOp(k.ref).Present? {
        var steps := KeySteps(keys, digest, epoch, helmOp);
        assert steps[..|steps| - 1] == KeySteps(front, digest, epoch, helmOp);
      }
    }
  }

  /** What rendering one component observes of its HelmOps. */
  function StepsOf(o: Object, c: Component, answer: RenderAnswer, obs: Observation): seq<BaselineStep>
    requires answer.Rendered?
  {
    KeySteps(PatchedKeys(o, c), ComponentDigest(o.spec, c, answer.repoURL, answer.values), o.ann.retryEpoch, obs.helmOp)
  }

  predicate Reached(o: Object, components: seq<Component>, obs: Observation, i: nat)
  {
    && i < |components| && o.spec.strategy != Helm
    && RenderAll(o, components[..i], obs).Rendering? && obs.render(i).Rendered?
  }

  /** The observations a pass is left with: a publication forgets those before it. */
  function RenderSteps(o: Object, components: seq<Component>, obs: Observation): seq<BaselineStep>
  {
    if components == [] then []
    else
      var n := |components| - 1;
      var front := RenderSteps(o, components[..n], obs);
      if !Reached(o, components, obs, n) then front
      else (if Forgets(o, obs.render(n)) then [] else front) + StepsOf(o, components[n], obs.render(n), obs)
  }

  function BaselinesOf(r: RenderState): seq<RenderBaseline>
  {
    match r
    case Rendering(baselines, _) => baselines
    case Stopped(outcome) => outcome.status.baselines
  }

  lemma OneRenderIsSteps(o: Object, c: Component, answer: RenderAnswer, baselines: seq<RenderBaseline>,
                         digests: map<Ref, RenderDigest>, obs: Observation)
    ensures BaselinesOf(RenderOne(o, c, answer, baselines, digests, obs)) ==
            if !answer.Rendered? then baselines
            else ApplyAll(if Forgets(o, answer) then o.status.baselines else baselines, StepsOf(o, c, answer, obs))
  {
    if answer.Rendered? {
      var held := if Forgets(o, answer) then o.status.baselines else baselines;
      var digest := ComponentDigest(o.spec, c, answer.repoURL, answer.values);
      RecordingIsSteps(PatchedKeys(o, c), held, digest, o.ann.retryEpoch, obs.helmOp);
      var recorded := RecordBaselines(PatchedKeys(o, c), held, digest, o.ann.retryEpoch, obs.helmOp);
      assert BaselinesOf(RenderOne(o, c, answer, baselines, digests, obs)) == recorded.baselines;
    }
  }

  lemma {:induction false} RenderingIsSteps(o: Object, components: seq<Component>, obs: Observation)
    ensures BaselinesOf(RenderAll(o, components, obs)) == ApplyAll(o.status.baselines, RenderSteps(o, components, obs))
  {
    if components != [] {
      var n := |components| - 1;
      RenderingIsSteps(o, components[..n], obs);
      if o.spec.strategy != Helm && RenderAll(o, components[..n], obs).Rendering? {
        var front := RenderAll(o, components[..n], obs);
        OneRenderIsSteps(o, components[n], obs.render(n), front.baselines, front.digests, obs);
        if Reached(o, components, obs, n) {
          var own := StepsOf(o, components[n], obs.render(n), obs);
          ApplyBoth(o.status.baselines, RenderSteps(o, components[..n], obs), own);
          assert [] + own == own;
        }
      }
    }
  }

  // Which observations of a pass survive it

  /** Nothing is published to git after component `i` is observed, unless nothing was
      stored. */
  ghost predicate Survives(o: Object, components: seq<Component>, obs: Observation, i: nat)
  {
    forall j :: i < j < |components| && Reached(o, components, obs, j) ==>
      !(obs.render(j).published && o.spec.strategy == GitOps && o.status.baselines != [])
  }

  ghost function Surviving(o: Object, components: seq<Component>, obs: Observation, n: nat): seq<BaselineStep>
    requires n <= |components|
  {
    if n == 0 then [] else Surviving(o, components, obs, n - 1) + KeptOf(o, components, obs, n - 1)
  }

  ghost function KeptOf(o: Object, components: seq<Component>, obs: Observation, i: nat): seq<BaselineStep>
    requires i < |components|
  {
    if Reached(o, components, obs, i) && Survives(o, components, obs, i)
    then StepsOf(o, components[i], obs.render(i), obs) else []
  }

  lemma ReachedInFront(o: Object, components: seq<Component>, obs: Observation, i: nat)
    requires i < |components| - 1
    ensures Reached(o, components, obs, i) == Reached(o, components[..|components| - 1], obs, i)
  {
    assert components[..|components| - 1][..i] == components[..i];
  }

  predicate EndsForgetting(o: Object, components: seq<Component>, obs: Observation)
  {
    components != [] && Reached(o, components, obs, |components| - 1) && Forgets(o, obs.render(|components| - 1))
  }

  lemma SurvivesInFront(o: Object, components: seq<Component>, obs: Observation, i: nat)
    requires i < |components| - 1
    ensures Survives(o, components, obs, i)
       <==> !EndsForgetting(o, components, obs) && Survives(o, components[..|components| - 1], obs, i)
  {
    forall j: nat | j < |components| - 1
      ensures Reached(o, components, obs, j) == Reached(o, components[..|components| - 1], obs, j)
    {
      ReachedInFront(o, components, obs, j);
    }
  }

  lemma KeptInFront(o: Object, components: seq<Component>, obs: Observation, i: nat)
    requires i < |components| - 1
    ensures KeptOf(o, components, obs, i)
         == if EndsForgetting(o, components, obs) then [] else KeptOf(o, components[..|components| - 1], obs, i)
  {
    ReachedInFront(o, components, obs, i);
    SurvivesInFront(o, components, obs, i);
  }

  lemma {:induction false} SurvivingInFront(o: Object, components: seq<Component>, obs: Observation, k: nat)
    requires k < |components|
    ensures Surviving(o, components, obs, k)
         == if EndsForgetting(o, components, obs) then [] else Surviving(o, components[..|components| - 1], obs, k)
  {
    if k > 0 {
      SurvivingInFront(o, components, obs, k - 1);
      KeptInFront(o, components, obs, k - 1);
    }
  }

  /** An observation of a pass is kept if and only if nothing is published after it in
      the same pass: what is left is exactly the steps of the components that survive. */
  lemma {:induction false} ObservationsSurvive(o: Object, components: seq<Component>, obs: Observation)
    ensures RenderSteps(o, components, obs) == Surviving(o, components, obs, |components|)
    decreases |components|
  {
    if components != [] {
      var n := |components| - 1;
      ObservationsSurvive(o, components[..n], obs);
      SurvivingInFront(o, components, obs, n);
    }
  }

  /** All of a pass: its observations, and the prune if it gets that far. */
  function PassSteps(o: Object, obs: Observation): seq<BaselineStep>
  {
    if o.spec.blueprint.None? || !obs.blueprint.Present? then []
    else
      RenderSteps(o, EnabledOf(o, obs), obs)
      + if RenderAll(o, EnabledOf(o, obs), obs).Rendering? && obs.cleanupOk
        then [Keep(LiveUids(KeysOfPass(o, obs), obs.liveUid))] else []
  }

  lemma FleetPrunes(o: Object, baselines: seq<RenderBaseline>, digests: map<Ref, RenderDigest>, obs: Observation)
    ensures FleetStatus(o, baselines, digests, obs).status.baselines ==
            if obs.cleanupOk then Prune(baselines, LiveUids(KeysOfPass(o, obs), obs.liveUid)) else baselines
  {
  }

  lemma PassIsSteps(o: Object, obs: Observation)
    ensures BlueprintStatus(o, obs).status.baselines == ApplyAll(o.status.baselines, PassSteps(o, obs))
  {
    if o.spec.blueprint.Some? && obs.blueprint.Present? {
      var r := RenderAll(o, EnabledOf(o, obs), obs);
      RenderingIsSteps(o, EnabledOf(o, obs), obs);
      var steps := PassSteps(o, obs);
      if r.Rendering? {
        FleetPrunes(o, r.baselines, r.digests, obs);
        if obs.cleanupOk {
          assert steps[..|steps| - 1] == RenderSteps(o, EnabledOf(o, obs), obs);
        } else {
          assert steps == RenderSteps(o, EnabledOf(o, obs), obs);
        }
      } else {
        assert steps == RenderSteps(o, EnabledOf(o, obs), obs);
      }
    }
  }

  // Runs

  function RunSteps(log: seq<Version>): seq<BaselineStep>
  {
    if |log| <= 1 then []
    else RunSteps(log[..|log| - 1]) + VersionSteps(log[|log| - 2], log[|log| - 1])
  }

  function VersionSteps(p: Version, v: Version): seq<BaselineStep>
  {
    if v.cause.ByStatus? then PassSteps(p.obj, v.cause.obs) else []
  }

  lemma VersionIsSteps(log: seq<Version>, n: nat)
    requires LegalLog(log) && 0 < n < |log|
    ensures log[n].obj.status.baselines == ApplyAll(log[n - 1].obj.status.baselines, VersionSteps(log[n - 1], log[n]))
  {
    assert LegalAt(log, n);
    if log[n].cause.ByStatus? {
      PassIsSteps(log[n - 1].obj, log[n].cause.obs);
    }
  }

  /** In every run the stored baselines are what the stored passes observed and pruned. */
  lemma {:induction false} StoredBaselinesAreTheSteps(log: seq<Version>)
    requires LegalLog(log)
    ensures Last(log).status.baselines == After(RunSteps(log))
    decreases |log|
  {
    if |log| > 1 {
      var n := |log| - 1;
      PrefixLegal(log, n);
      StoredBaselinesAreTheSteps(log[..n]);
      VersionIsSteps(log, n);
      AfterBoth(RunSteps(log[..n]), VersionSteps(log[n - 1], log[n]));
    }
  }

  /** So in every run a HelmOp's rejection is held against the current attempt exactly when
      the first observation of the unbroken run of that attempt saw another condition.
      One left over from an earlier render never is; a new one is if and only if some
      observation of its attempt that survived its pass came before it. */
  lemma RejectionsInRunsAreNew(log: seq<Version>, ho: HelmOp, digest: RenderDigest, epoch: int)
    requires LegalLog(log)
    ensures AcceptedFalseTerminal(ho, Lookup(Last(log).status.baselines, ho.uid), digest, epoch, ho.generation) <==>
            exists i :: && 0 <= i < |RunSteps(log)| && Opens(RunSteps(log), ho.uid, i)
                        && SameAttempt(RunSteps(log)[i].entry,
                                       RenderBaseline(ho.uid, digest, epoch, ho.generation, ho.fingerprint))
                        && RunSteps(log)[i].entry.fingerprint != ho.fingerprint && ho.acceptedIsFalse
  {
    StoredBaselinesAreTheSteps(log);
    RejectionMustBeNew(RunSteps(log), ho, digest, epoch);
  }

  // What a lost observation costs

  /** Two components for the local cluster, delivered through git. The pass is rendered
      to the end; the HelmOp of the first component is `ho`, the second has none yet. */
  ghost predicate RendersBoth(o: Object, a: Component, b: Component, obs: Observation, ho: HelmOp)
  {
    && o.spec.blueprint.Some? && o.spec.strategy == GitOps && o.spec.targetClusters == ["local"]
    && obs.blueprint.Present? && EnabledOf(o, obs) == [a, b]
    && BundleName(o.name, a.chartName) != BundleName(o.name, b.chartName)
    && obs.render(0).Rendered? && !obs.render(0).published && obs.render(1).Rendered?
    && obs.helmOp(RefIn(o, a)) == Present(ho) && obs.helmOp(RefIn(o, b)).Absent?
    && obs.liveUid(RefIn(o, a)) == Some(ho.uid) && obs.cleanupOk
  }

  function RefIn(o: Object, c: Component): Ref
  {
    Ref(FleetLocal, BundleName(o.name, c.chartName))
  }

  function SeenAs(o: Object, c: Component, answer: RenderAnswer, ho: HelmOp): RenderBaseline
    requires answer.Rendered?
  {
    RenderBaseline(ho.uid, ComponentDigest(o.spec, c, answer.repoURL, answer.values), o.ann.retryEpoch,
                   ho.generation, ho.fingerprint)
  }

  lemma LocalKeys(o: Object, c: Component)
    requires o.spec.strategy == GitOps && o.spec.targetClusters == ["local"]
    ensures PatchedKeys(o, c) == [KeyFor(o.name, c, FleetLocal, 1)]
  {
    var targets := ["local"];
    assert targets[..0] == [];
    assert Downstream(targets) == [];
    FlatMapOne(KeysFor(o.name, targets, GitOps), c);
    var keys := RawKeys(o.name, [c], targets, GitOps);
    assert keys == [KeyFor(o.name, c, FleetLocal, 1)];
    assert keys[1..] == [];
    assert SortBy(RefKey, keys) == Insert(RefKey, keys[0], []) == keys;
  }

  lemma OneKeySteps(k: HelmOpKey, digest: RenderDigest, epoch: int, helmOp: Ref -> Read<HelmOp>)
    ensures Readable([k], helmOp) <==> !helmOp(k.ref).Unreadable?
    ensures KeySteps([k], digest, epoch, helmOp) ==
            if !helmOp(k.ref).Present? then []
            else
              var ho := helmOp(k.ref).value;
              [Observe(RenderBaseline(ho.uid, digest, epoch, ho.generation, ho.fingerprint))]
  {
    var keys := [k];
    assert keys[..0] == [] && KeySteps(keys[..0], digest, epoch, helmOp) == [];
    assert Readable(keys, helmOp) <==> !helmOp(keys[0].ref).Unreadable?;
  }

  /** One turn of the render loop, where there is one HelmOp to look for. */
  lemma LocalRender(o: Object, c: Component, answer: RenderAnswer, baselines: seq<RenderBaseline>,
                    digests: map<Ref, RenderDigest>, obs: Observation)
    requires o.spec.strategy == GitOps && o.spec.targetClusters == ["local"]
    requires answer.Rendered? && !obs.helmOp(RefIn(o, c)).Unreadable?
    ensures RenderOne(o, c, answer, baselines, digests, obs).Rendering?
    ensures StepsOf(o, c, answer, obs) ==
            match obs.helmOp(RefIn(o, c))
            case Present(ho) => [Observe(SeenAs(o, c, answer, ho))]
            case _ => []
  {
    LocalKeys(o, c);
    var digest := ComponentDigest(o.spec, c, answer.repoURL, answer.values);
    OneKeySteps(KeyFor(o.name, c, FleetLocal, 1), digest, o.ann.retryEpoch, obs.helmOp);
    var held := if Forgets(o, answer) then o.status.baselines else baselines;
    RecordingIsSteps(PatchedKeys(o, c), held, digest, o.ann.retryEpoch, obs.helmOp);
  }

  lemma AppendRender(o: Object, front: seq<Component>, c: Component, obs: Observation)
    requires o.spec.strategy != Helm && RenderAll(o, front, obs).Rendering? && obs.render(|front|).Rendered?
    ensures var r := RenderAll(o, front, obs);
            RenderAll(o, front + [c], obs) == RenderOne(o, c, obs.render(|front|), r.baselines, r.digests, obs)
    ensures RenderSteps(o, front + [c], obs)
         == (if Forgets(o, obs.render(|front|)) then [] else RenderSteps(o, front, obs))
            + StepsOf(o, c, obs.render(|front|), obs)
  {
    assert (front + [c])[..|front|] == front;
  }

  lemma BothSteps(o: Object, a: Component, b: Component, obs: Observation, ho: HelmOp)
    requires RendersBoth(o, a, b, obs, ho)
    ensures RenderAll(o, [a, b], obs).Rendering?
    ensures RenderSteps(o, [a, b], obs)
         == if Forgets(o, obs.render(1)) then [] else [Observe(SeenAs(o, a, obs.render(0), ho))]
  {
    var r := RenderAll(o, [], obs);
    AppendRender(o, [], a, obs);
    LocalRender(o, a, obs.render(0), r.baselines, r.digests, obs);
    assert [] + [a] == [a];
    var one := RenderAll(o, [a], obs);
    AppendRender(o, [a], b, obs);
    LocalRender(o, b, obs.render(1), one.baselines, one.digests, obs);
    assert [a] + [b] == [a, b];
  }

  /** What such a pass stores about the first component's HelmOp. */
  lemma PassOverBoth(o: Object, a: Component, b: Component, obs: Observation, ho: HelmOp)
    requires RendersBoth(o, a, b, obs, ho) && OnePerUid(o.status.baselines)
    ensures var before := Lookup(o.status.baselines, ho.uid);
            var after := BlueprintStatus(o, obs).status.baselines;
            && OnePerUid(after)
            && Lookup(after, ho.uid)
               == if Forgets(o, obs.render(1)) then before
                  else FoundAfter(before, Observe(SeenAs(o, a, obs.render(0), ho)), ho.uid)
  {
    BothSteps(o, a, b, obs, ho);
    PassIsSteps(o, obs);
    var uids := LiveUids(KeysOfPass(o, obs), obs.liveUid);
    DesiredKeysCover(o.name, o.spec.targetClusters, [a, b], GitOps, a, "local");
    assert ho.uid in uids;
    assert PassSteps(o, obs) == RenderSteps(o, [a, b], obs) + [Keep(uids)];
    if Forgets(o, obs.render(1)) {
      assert PassSteps(o, obs) == [Keep(uids)];
      KeptAfter(o.status.baselines, [], uids, ho.uid);
    } else {
      KeptAfter(o.status.baselines, [Observe(SeenAs(o, a, obs.render(0), ho))], uids, ho.uid);
    }
  }

  lemma KeptAfter(before: seq<RenderBaseline>, seen: seq<BaselineStep>, uids: set<string>, uid: string)
    requires |seen| <= 1 && OnePerUid(before) && uid in uids
    ensures var after := ApplyAll(before, seen + [Keep(uids)]);
            && OnePerUid(after)
            && Lookup(after, uid)
               == if seen == [] then Lookup(before, uid) else FoundAfter(Lookup(before, uid), seen[0], uid)
  {
    var steps := seen + [Keep(uids)];
    assert steps[..|seen|] == seen;
    if seen == [] {
      ApplyMeaning(before, Keep(uids), uid);
    } else {
      ApplyMeaning(before, seen[0], uid);
      assert seen[..0] == [] && ApplyAll(before, seen) == Apply(before, seen[0]);
      ApplyMeaning(Apply(before, seen[0]), Keep(uids), uid);
    }
  }

  /** A first pass sees a HelmOp at a new generation; then the HelmOp is rejected; then a
      second pass sees that. The rejection is new, and it fails the attempt if and only if
      the first pass published nothing after it saw the HelmOp. Otherwise the second pass
      takes the rejection for the condition that was there before. */
  lemma PublicationHidesRejection(o: Object, a: Component, b: Component, first: Observation, second: Observation,
                                  ho: HelmOp, condition: string)
    requires RendersBoth(o, a, b, first, ho) && OnePerUid(o.status.baselines)
    requires var known := Lookup(o.status.baselines, ho.uid);
             known.Some? && !SameAttempt(known.value, SeenAs(o, a, first.render(0), ho))
    requires condition != ho.fingerprint
    requires var rejected := ho.(acceptedIsFalse := true, fingerprint := condition);
             RendersBoth(o.(status := BlueprintStatus(o, first).status), a, b, second, rejected)
    requires second.render(0) == first.render(0) && !second.render(1).published
    ensures var rejected := ho.(acceptedIsFalse := true, fingerprint := condition);
            var next := o.(status := BlueprintStatus(o, first).status);
            AcceptedFalseTerminal(rejected, Lookup(BlueprintStatus(next, second).status.baselines, ho.uid),
                                  SeenAs(o, a, first.render(0), ho).digest, o.ann.retryEpoch, ho.generation)
            <==> !first.render(1).published
  {
    var rejected := ho.(acceptedIsFalse := true, fingerprint := condition);
    var next := o.(status := BlueprintStatus(o, first).status);
    PassOverBoth(o, a, b, first, ho);
    PassOverBoth(next, a, b, second, rejected);
    LookupUid(o.status.baselines, ho.uid);
  }
}
