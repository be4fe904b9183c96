/** What the Helm client promises over whole runs: it goes quiet after one good write,
    and it is quiet only when what is running is what was asked for. */
module Convergence {
  import opened Workload
  import opened ChartCache
  import opened HelmRelease

  // Single passes

  /** While the newest revision is mid-operation a pass writes nothing and asks the registry for nothing. */
  lemma PendingIsLeftAlone(env: Helm, s: State, spec: ReleaseSpec, call: Call)
    requires s.revisions != [] && IsPending(s.revisions[|s.revisions| - 1].status)
    ensures EnsureRelease(env, s, spec, call).state == s
    ensures EnsureRelease(env, s, spec, call).result == if call.lastReadable then ReleasePending else Erred
  {
  }

  lemma {:induction false} DeployedIndexMeaning(revisions: seq<Revision>, i: nat)
    requires i < |revisions|
    ensures DeployedIndex(revisions) == i <==>
            && revisions[i].status == StatusDeployed
            && forall j :: i < j < |revisions| ==> revisions[j].status != StatusDeployed
  {
    if revisions[|revisions| - 1].status != StatusDeployed && i < |revisions| - 1 {
      DeployedIndexMeaning(revisions[..|revisions| - 1], i);
    }
  }

  lemma {:induction false} NothingDeployed(revisions: seq<Revision>)
    ensures DeployedIndex(revisions) < 0 <==> forall j :: 0 <= j < |revisions| ==> revisions[j].status != StatusDeployed
  {
    if revisions != [] && revisions[|revisions| - 1].status != StatusDeployed {
      NothingDeployed(revisions[..|revisions| - 1]);
    }
  }

  /** Attempts that never reached the cluster, however many lie on top and whatever they
      were made for, do not change what is decided once something is deployed; and with
      nothing deployed they are never taken for it. */
  lemma {:induction false} FailedOnTopDecidesNothing(revisions: seq<Revision>, top: seq<Revision>, spec: ReleaseSpec)
    requires forall i :: 0 <= i < |top| ==> top[i].status == StatusFailed || top[i].status == StatusSuperseded
    requires revisions != [] && !IsPending(revisions[|revisions| - 1].status)
    ensures DeployedRelease(revisions + top) == DeployedRelease(revisions)
    ensures DecideRelease(revisions + top, true, spec) == DecideRelease(revisions, true, spec)
    ensures DeployedRelease(revisions).None? ==> DecideRelease(revisions + top, true, spec) == ToUpgrade
  {
    if top != [] {
      var all := revisions + top;
      assert all[..|all| - 1] == revisions + top[..|top| - 1];
      FailedOnTopDecidesNothing(revisions, top[..|top| - 1], spec);
      assert all[|all| - 1] == top[|top| - 1];
    } else {
      assert revisions + top == revisions;
    }
  }

  /** The gauge of a pass that ends well without writing says whether the running revision
      still disagrees with the spec; the memo never silences it. */
  lemma GaugeTellsTheTruth(env: Helm, s: State, spec: ReleaseSpec, call: Call)
    requires EnsureRelease(env, s, spec, call).result == Done
    requires EnsureRelease(env, s, spec, call).state.revisions == s.revisions
    ensures DeployedRelease(s.revisions).Some?
    ensures EnsureRelease(env, s, spec, call).state.gauge ==
            Some(if NeedsUpgrade(DeployedRelease(s.revisions).value, spec) then 1 else 0)
  {
    DoneWritesSomething(env, s, spec, call);
  }

  /** A write that succeeds adds a revision. */
  lemma DoneWritesSomething(env: Helm, s: State, spec: ReleaseSpec, call: Call)
    ensures Write(env, s, spec, call).result == Done ==>
              |Write(env, s, spec, call).state.revisions| == |s.revisions| + 1
  {
  }

  // After one good write

  predicate CacheAgrees(env: Helm, s: State, source: Source, chart: Chart)
  {
    var key := CacheKey(source);
    key.Some? && key.value in s.charts ==> env.parse(s.charts[key.value].archive) in [None, Some(chart)]
  }

  /** The newest revision is deployed, from `chart`, for `spec`. */
  ghost predicate AppliedFor(env: Helm, s: State, spec: ReleaseSpec, chart: Chart)
  {
    && s.revisions != []
    && (var d := s.revisions[|s.revisions| - 1];
        && d.status == StatusDeployed
        && d.chartName == chart.name && d.version == chart.version
        && (spec.values.NoValues? || d.values == spec.values)
        && !LabelDrift(d, spec)
        && d.manifest == env.render(chart, d.values))
    && CacheAgrees(env, s, spec.source, chart)
  }

  /** The registry still answers with this chart, if it answers. */
  predicate SameChart(env: Helm, f: Fetch, chart: Chart)
  {
    Honest(env, f) && (f.Fetches? ==> f.chart == chart)
  }

  lemma LoadKeepsChart(env: Helm, s: State, source: Source, now: int, fetch: Fetch, chart: Chart)
    requires CacheAgrees(env, s, source, chart) && SameChart(env, fetch, chart)
    ensures var l := LoadChart(env, s, source, now, fetch);
            && l.state == s.(charts := l.state.charts, pulls := l.state.pulls)
            && CacheAgrees(env, l.state, source, chart)
            && (l.chart.Some? ==> l.chart.value == chart)
  {
  }

  /** A write that succeeds leaves the release applied for its spec. */
  lemma GoodWriteApplies(env: Helm, s: State, spec: ReleaseSpec, call: Call)
    requires Honest(env, call.fetch) && call.fate == Applied
    requires Write(env, s, spec, call).result == Done
    ensures AppliedFor(env, Write(env, s, spec, call).state, spec,
                       LoadChart(env, s, spec.source, call.upgraded, call.fetch).chart.value)
  {
  }

  lemma GoodPassApplies(env: Helm, s: State, spec: ReleaseSpec, call: Call) returns (chart: Chart)
    requires Honest(env, call.fetch) && Honest(env, call.renderFetch)
    requires EnsureRelease(env, s, spec, call).result == Done
    requires EnsureRelease(env, s, spec, call).state.revisions != s.revisions
    ensures AppliedFor(env, EnsureRelease(env, s, spec, call).state, spec, chart)
  {
    var deployed := DeployedRelease(s.revisions);
    var start := s;
    if DecideRelease(s.revisions, call.deployedReadable, spec) == ToUpgrade && deployed.Some?
       && !LabelDrift(deployed.value, spec) {
      start := LoadChart(env, s, spec.source, call.rendered, call.renderFetch).state;
    }
    assert EnsureRelease(env, s, spec, call) == Write(env, start, spec, call);
    GoodWriteApplies(env, start, spec, call);
    chart := LoadChart(env, start, spec.source, call.upgraded, call.fetch).chart.value;
  }

  ghost predicate Steady(env: Helm, call: Call, chart: Chart)
  {
    call.manifestReadable && SameChart(env, call.renderFetch, chart)
  }

  /** Once applied, a pass with the same spec writes nothing, whether or not the stored
      version or values can ever compare equal to the spec's. */
  lemma AppliedStaysQuiet(env: Helm, s: State, spec: ReleaseSpec, call: Call, chart: Chart)
    requires AppliedFor(env, s, spec, chart) && Steady(env, call, chart)
    ensures EnsureRelease(env, s, spec, call).state.revisions == s.revisions
    ensures AppliedFor(env, EnsureRelease(env, s, spec, call).state, spec, chart)
  {
    LoadKeepsChart(env, s, spec.source, call.rendered, call.renderFetch, chart);
  }

  function Passes(env: Helm, s: State, spec: ReleaseSpec, calls: seq<Call>): State
  {
    if calls == [] then s
    else EnsureRelease(env, Passes(env, s, spec, calls[..|calls| - 1]), spec, calls[|calls| - 1]).state
  }

  /** So one good write is the last: no later pass with that spec writes, at any time and
      through any failing reads and pulls. */
  lemma {:induction false} OneGoodWriteIsTheLast(env: Helm, s: State, spec: ReleaseSpec, first: Call, calls: seq<Call>)
    returns (chart: Chart)
    requires Honest(env, first.fetch) && Honest(env, first.renderFetch)
    requires EnsureRelease(env, s, spec, first).result == Done
             && EnsureRelease(env, s, spec, first).state.revisions != s.revisions
    ensures (forall i :: 0 <= i < |calls| ==> Steady(env, calls[i], chart)) ==>
              var after := EnsureRelease(env, s, spec, first).state;
              && Passes(env, after, spec, calls).revisions == after.revisions
              && AppliedFor(env, Passes(env, after, spec, calls), spec, chart)
  {
    var after := EnsureRelease(env, s, spec, first).state;
    chart := GoodPassApplies(env, s, spec, first);
    PassesStayQuiet(env, after, spec, calls, chart);
  }

  lemma {:induction false} PassesStayQuiet(env: Helm, s: State, spec: ReleaseSpec, calls: seq<Call>, chart: Chart)
    requires AppliedFor(env, s, spec, chart)
    ensures (forall i :: 0 <= i < |calls| ==> Steady(env, calls[i], chart)) ==>
              Passes(env, s, spec, calls).revisions == s.revisions
              && AppliedFor(env, Passes(env, s, spec, calls), spec, chart)
  {
    if calls != [] {
      var front := calls[..|calls| - 1];
      PassesStayQuiet(env, s, spec, front, chart);
      if forall i :: 0 <= i < |calls| ==> Steady(env, calls[i], chart) {
        assert forall i :: 0 <= i < |front| ==> front[i] == calls[i];
        AppliedStaysQuiet(env, Passes(env, s, spec, front), spec, calls[|calls| - 1], chart);
      }
    }
  }

  /** The one way to write again: the manifest cannot be read back, nothing short of a
      render could tell, and the chart renders something. */
  lemma WhenAppliedWritesAgain(env: Helm, s: State, spec: ReleaseSpec, call: Call, chart: Chart)
    requires AppliedFor(env, s, spec, chart) && SameChart(env, call.renderFetch, chart)
    ensures var d := s.revisions[|s.revisions| - 1];
            var rendered := LoadChart(env, s, spec.source, call.rendered, call.renderFetch);
            EnsureRelease(env, s, spec, call).state.revisions != s.revisions <==>
            && call.lastReadable && call.deployedReadable && !call.manifestReadable
            && NeedsUpgrade(d, spec) && !ConvergenceHolds(s.latch, spec, d, call.asked)
            && rendered.chart.Some? && call.renderOk && d.manifest != ""
            && LoadChart(env, rendered.state, spec.source, call.upgraded, call.fetch).chart.Some?
            && call.fate != Rejected
  {
    LoadKeepsChart(env, s, spec.source, call.rendered, call.renderFetch, chart);
    var l := LoadChart(env, s, spec.source, call.rendered, call.renderFetch);
    WriteAdds(env, l.state, spec, call);
    assert DeployedRelease(s.revisions) == Some(s.revisions[|s.revisions| - 1]);
  }

  lemma WriteAdds(env: Helm, s: State, spec: ReleaseSpec, call: Call)
    ensures Write(env, s, spec, call).state.revisions != s.revisions <==>
            LoadChart(env, s, spec.source, call.upgraded, call.fetch).chart.Some? && call.fate != Rejected
  {
  }

  // Any run: passes for any specs, deletions, and other writers

  datatype Step =
    | Ensures(spec: ReleaseSpec, call: Call)
    | Deletes(left: seq<Revision>)
    | Outside(revisions: seq<Revision>)

  function After(env: Helm, s: State, step: Step): State
  {
    match step
    case Ensures(spec, call) => EnsureRelease(env, s, spec, call).state
    case Deletes(left) => DeleteRelease(s, left)
    case Outside(revisions) => s.(revisions := revisions)
  }

  function Run(env: Helm, revisions: seq<Revision>, steps: seq<Step>): State
  {
    if steps == [] then State(revisions, None, map[], [], None)
    else After(env, Run(env, revisions, steps[..|steps| - 1]), steps[|steps| - 1])
  }

  ghost predicate CleanRun(env: Helm, steps: seq<Step>)
  {
    forall i :: 0 <= i < |steps| && steps[i].Ensures? ==>
      CleanSpec(steps[i].spec) && Honest(env, steps[i].call.fetch) && Honest(env, steps[i].call.renderFetch)
  }

  /** Everything in the cache was pulled: under its key, at its time, as this chart. */
  ghost predicate CacheIsPulled(env: Helm, s: State)
  {
    forall key :: key in s.charts ==> PulledAs(env, s.pulls, key, s.charts[key])
  }

  ghost predicate PulledAs(env: Helm, pulls: seq<Pull>, key: string, e: Entry)
  {
    exists p ::
      p in pulls && CacheKey(p.source) == Some(key) && p.at == e.at && p.chart.Some? && env.parse(e.archive) == p.chart
  }

  lemma LoadKeepsPulled(env: Helm, s: State, source: Source, now: int, fetch: Fetch)
    requires CacheIsPulled(env, s) && Honest(env, fetch)
    ensures CacheIsPulled(env, LoadChart(env, s, source, now, fetch).state)
    ensures s.pulls <= LoadChart(env, s, source, now, fetch).state.pulls
  {
  }

  /** The chart a pass works with was pulled for the same reference, repository and
      version, not more than ten minutes before. */
  ghost predicate PulledLately(pulls: seq<Pull>, source: Source, chart: Chart, now: int)
  {
    exists p :: && p in pulls && p.chart == Some(chart) && now - p.at <= CACHE_TTL
                && (p.source == source || (CacheKey(source).Some? && CacheKey(p.source) == CacheKey(source)))
  }

  lemma LoadedWasPulled(env: Helm, s: State, source: Source, now: int, fetch: Fetch)
    requires CacheIsPulled(env, s)
    ensures var l := LoadChart(env, s, source, now, fetch);
            l.chart.Some? ==> PulledLately(l.state.pulls, source, l.chart.value, now)
  {
    var l := LoadChart(env, s, source, now, fetch);
    var key := CacheKey(source);
    if key.Some? && Usable(s.charts, key.value, now, Parses(env)) {
      assert PulledAs(env, s.pulls, key.value, s.charts[key.value]);
    } else if l.chart.Some? {
      assert Pull(source, Fetched(fetch), now) in l.state.pulls;
    }
  }

  lemma WriteKeepsPulled(env: Helm, s: State, spec: ReleaseSpec, call: Call)
    requires CacheIsPulled(env, s) && Honest(env, call.fetch)
    ensures CacheIsPulled(env, Write(env, s, spec, call).state)
  {
  }

  lemma RenderKeepsPulled(env: Helm, s: State, deployed: Revision, spec: ReleaseSpec, call: Call)
    requires CacheIsPulled(env, s) && Honest(env, call.fetch) && Honest(env, call.renderFetch)
    ensures CacheIsPulled(env, RenderAndCompare(env, s, deployed, spec, call).state)
  {
    LoadKeepsPulled(env, s, spec.source, call.rendered, call.renderFetch);
    WriteKeepsPulled(env, LoadChart(env, s, spec.source, call.rendered, call.renderFetch).state, spec, call);
  }

  lemma PassKeepsPulled(env: Helm, s: State, spec: ReleaseSpec, call: Call)
    requires CacheIsPulled(env, s) && Honest(env, call.fetch) && Honest(env, call.renderFetch)
    ensures CacheIsPulled(env, EnsureRelease(env, s, spec, call).state)
  {
    WriteKeepsPulled(env, s, spec, call);
    if DeployedRelease(s.revisions).Some? {
      RenderKeepsPulled(env, s, DeployedRelease(s.revisions).value, spec, call);
    }
  }

  lemma {:induction false} RunIsPulled(env: Helm, revisions: seq<Revision>, steps: seq<Step>)
    requires CleanRun(env, steps)
    ensures CacheIsPulled(env, Run(env, revisions, steps))
  {
    if steps != [] {
      var front, last := steps[..|steps| - 1], steps[|steps| - 1];
      RunIsPulled(env, revisions, front);
      if last.Ensures? {
        PassKeepsPulled(env, Run(env, revisions, front), last.spec, last.call);
      }
    }
  }

  /** This pass rendered the chart, pulled not more than ten minutes before, and got the
      manifest of the running revision as far as it could be read. */
  ghost predicate RenderedAlike(env: Helm, s: State, spec: ReleaseSpec, call: Call)
  {
    var l := LoadChart(env, s, spec.source, call.rendered, call.renderFetch);
    && DeployedRelease(s.revisions).Some?
    && l.chart.Some? && PulledLately(l.state.pulls, spec.source, l.chart.value, call.rendered)
    && env.render(l.chart.value, EffectiveValues(s.revisions, spec.values))
       == ShownManifest(DeployedRelease(s.revisions).value, call)
  }

  /** Step `k` of the run is such a pass, and `at` is the verdict it recorded. */
  ghost predicate ProvenAt(env: Helm, revisions: seq<Revision>, steps: seq<Step>, k: nat, at: ConvergedAt)
  {
    && k < |steps| && steps[k].Ensures?
    && (var s, spec, call := Run(env, revisions, steps[..k]), steps[k].spec, steps[k].call;
        && RenderedAlike(env, s, spec, call)
        && !LabelDrift(DeployedRelease(s.revisions).value, spec)
        && SpecFingerprint(spec) == Some(at.spec)
        && DeployedFingerprint(DeployedRelease(s.revisions).value) == Some(at.deployed)
        && DeployedRelease(s.revisions).value.number == at.revision && call.proven == at.provenAt)
  }

  lemma RenderKeepsVerdict(env: Helm, s: State, deployed: Revision, spec: ReleaseSpec, call: Call)
    ensures var l := LoadChart(env, s, spec.source, call.rendered, call.renderFetch);
            var latch := RenderAndCompare(env, s, deployed, spec, call).state.latch;
            latch == s.latch
            || (l.chart.Some? && latch == Latched(None, spec, deployed, call.proven) && latch.Some?
                && env.render(l.chart.value, EffectiveValues(s.revisions, spec.values))
                   == ShownManifest(deployed, call))
  {
  }

  /** A pass either keeps the verdict or records one of its own. */
  lemma PassKeepsVerdict(env: Helm, s: State, spec: ReleaseSpec, call: Call)
    ensures var latch := EnsureRelease(env, s, spec, call).state.latch;
            var l := LoadChart(env, s, spec.source, call.rendered, call.renderFetch);
            latch == s.latch
            || (DeployedRelease(s.revisions).Some?
                && var d := DeployedRelease(s.revisions).value;
                   && latch.Some? && latch == Latched(None, spec, d, call.proven) && !LabelDrift(d, spec)
                   && l.chart.Some?
                   && env.render(l.chart.value, EffectiveValues(s.revisions, spec.values)) == ShownManifest(d, call))
  {
    if DeployedRelease(s.revisions).Some? {
      RenderKeepsVerdict(env, s, DeployedRelease(s.revisions).value, spec, call);
    }
  }

  /** In every run the verdict the client holds was proven by some pass of that run. */
  lemma {:induction false} VerdictsAreProven(env: Helm, revisions: seq<Revision>, steps: seq<Step>) returns (k: nat)
    requires CleanRun(env, steps) && Run(env, revisions, steps).latch.Some?
    ensures ProvenAt(env, revisions, steps, k, Run(env, revisions, steps).latch.value)
  {
    var front, last := steps[..|steps| - 1], steps[|steps| - 1];
    var before, after := Run(env, revisions, front), Run(env, revisions, steps);
    RunIsPulled(env, revisions, front);
    if last.Ensures? {
      PassKeepsVerdict(env, before, last.spec, last.call);
      LoadedWasPulled(env, before, last.spec.source, last.call.rendered, last.call.renderFetch);
    }
    if after.latch == before.latch {
      k := VerdictsAreProven(env, revisions, front);
      assert front[..k] == steps[..k];
    } else {
      k := |steps| - 1;
    }
  }

  /** Why a pass over `s` may end well without writing. */
  datatype Reason = SpecMatches | RenderMatches | ProvenEarlier(k: nat)

  ghost predicate Justifies(env: Helm, revisions: seq<Revision>, steps: seq<Step>, spec: ReleaseSpec, call: Call,
                            reason: Reason)
  {
    var s := Run(env, revisions, steps);
    && DeployedRelease(s.revisions).Some?
    && (var d := DeployedRelease(s.revisions).value;
        match reason
        case SpecMatches => !NeedsUpgrade(d, spec)
        case RenderMatches => !LabelDrift(d, spec) && RenderedAlike(env, s, spec, call)
        case ProvenEarlier(k) =>
          && !LabelDrift(d, spec)
          && k < |steps| && steps[k].Ensures?
          && (var t := Run(env, revisions, steps[..k]);
              && RenderedAlike(env, t, steps[k].spec, steps[k].call)
              && SameRender(steps[k].spec, spec)
              && DeployedRelease(t.revisions).value.number == d.number
              && DeployedFingerprint(DeployedRelease(t.revisions).value) == DeployedFingerprint(d)
              && call.asked - steps[k].call.proven <= CONVERGENCE_TTL))
  }

  predicate SameRender(a: ReleaseSpec, b: ReleaseSpec)
  {
    && a.source.chartRef == b.source.chartRef && a.source.repoURL == b.source.repoURL
    && a.source.version == b.source.version && ValuesEqual(a.values, b.values)
  }

  /** In every run, with other writers and other specs in between, a pass that ends well
      and writes nothing has one of three reasons: the running revision has the version,
      the values and the labels that were asked for; or it has the labels, and rendering
      the chart just now gave its manifest; or it has the labels, and a pass not more
      than half an hour before rendered the same to the same manifest, of a revision
      with this number, chart, version and values. What was merely attempted never
      counts. */
  lemma QuietPassIsJustified(env: Helm, revisions: seq<Revision>, steps: seq<Step>, spec: ReleaseSpec, call: Call)
    returns (reason: Reason)
    requires CleanRun(env, steps) && CleanSpec(spec)
    requires var s := Run(env, revisions, steps);
             && EnsureRelease(env, s, spec, call).result == Done
             && EnsureRelease(env, s, spec, call).state.revisions == s.revisions
    ensures Justifies(env, revisions, steps, spec, call, reason)
  {
    var s := Run(env, revisions, steps);
    DoneWritesSomething(env, s, spec, call);
    var d := DeployedRelease(s.revisions).value;
    if !NeedsUpgrade(d, spec) {
      reason := SpecMatches;
    } else if ConvergenceHolds(s.latch, spec, d, call.asked) {
      var k := VerdictsAreProven(env, revisions, steps);
      FingerprintMeaning(steps[k].spec, spec);
      reason := ProvenEarlier(k);
    } else {
      RunIsPulled(env, revisions, steps);
      LoadedWasPulled(env, s, spec.source, call.rendered, call.renderFetch);
      RenderedOrWritten(env, s, spec, call);
      reason := RenderMatches;
    }
  }

  lemma RenderedOrWritten(env: Helm, s: State, spec: ReleaseSpec, call: Call)
    requires DeployedRelease(s.revisions).Some?
    requires NeedsUpgrade(DeployedRelease(s.revisions).value, spec)
    requires !ConvergenceHolds(s.latch, spec, DeployedRelease(s.revisions).value, call.asked)
    requires EnsureRelease(env, s, spec, call).result == Done
    requires EnsureRelease(env, s, spec, call).state.revisions == s.revisions
    ensures var l := LoadChart(env, s, spec.source, call.rendered, call.renderFetch);
            && !LabelDrift(DeployedRelease(s.revisions).value, spec)
            && l.chart.Some?
            && env.render(l.chart.value, EffectiveValues(s.revisions, spec.values))
               == ShownManifest(DeployedRelease(s.revisions).value, call)
  {
  }
}
