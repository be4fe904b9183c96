/** When a pass over a release writes, what it writes, and how it ends: for every stored
    state, every spec and every answer. */
module ReleaseWrites {
  import opened Workload
  import opened Phases
  import opened ChartCache
  import opened HelmRelease
  import opened Convergence

  // Loading a chart

  /** The chart the cache still has for a source, if it does and it can be read. */
  function Kept(env: Helm, charts: Charts, source: Source, now: int): Option<Chart>
  {
    if source.hasAuth || source.hasTls then None
    else
      var key := Join([source.chartRef, source.repoURL, source.version]);
      if key in charts && now <= charts[key].at + 10 * MINUTE then env.parse(charts[key].archive) else None
  }

  /** A chart that is kept is used and nothing is asked of the registry; any other is asked
      for once, and kept from then on unless the source has credentials of its own. */
  lemma LoadIs(env: Helm, s: State, source: Source, now: int, fetch: Fetch)
    ensures var l, kept := LoadChart(env, s, source, now, fetch), Kept(env, s.charts, source, now);
            && l.chart == (if kept.Some? then kept else if fetch.Fetches? then Some(fetch.chart) else None)
            && l.state == s.(charts := l.state.charts, pulls := l.state.pulls)
            && l.state.pulls == (if kept.Some? then s.pulls else s.pulls + [Pull(source, l.chart, now)])
            && (kept.Some? ==> l.state.charts == s.charts)
            && (kept.None? && fetch.Fetches? && fetch.archive != "" && CacheKey(source).Some? ==>
                  CacheKey(source).value in l.state.charts
                  && l.state.charts[CacheKey(source).value] == Entry(fetch.archive, now))
  {
  }

  // What a write leaves

  /** What an upgrade starts from: the running revision, or the newest if none runs. */
  ghost predicate IsBase(revisions: seq<Revision>, i: nat)
  {
    && i < |revisions|
    && (forall j :: i < j < |revisions| ==> revisions[j].status != StatusDeployed)
    && (revisions[i].status == StatusDeployed
        || (i == |revisions| - 1 && forall j :: 0 <= j < |revisions| ==> revisions[j].status != StatusDeployed))
  }

  lemma BaseIs(revisions: seq<Revision>, i: nat)
    requires IsBase(revisions, i)
    ensures BaseIndex(revisions) == i
    ensures DeployedRelease(revisions) == if revisions[i].status == StatusDeployed then Some(revisions[i]) else None
  {
    DeployedIndexMeaning(revisions, i);
    NothingDeployed(revisions);
  }

  /** A new revision after `last`, field by field. Labels are added to those of the newest
      revision; without values of its own the spec goes on with those of the base. */
  ghost predicate Follows(env: Helm, last: Revision, base: Revision, chart: Chart, spec: ReleaseSpec, fate: WriteFate,
                          r: Revision)
  {
    && r.number == last.number + 1
    && r.status == (match fate
                    case Applied => StatusDeployed
                    case LeftPending => StatusPendingUpgrade
                    case RecordedFailed => StatusFailed
                    case Rejected => StatusFailed)
    && r.chartName == chart.name && r.version == chart.version
    && r.values == (if spec.values == NoValues then base.values else spec.values)
    && (forall k :: k in r.labels <==> k in spec.labels || k in last.labels)
    && (forall k :: k in r.labels ==> r.labels[k] == if k in spec.labels then spec.labels[k] else last.labels[k])
    && r.manifest == env.render(chart, r.values)
  }

  /** An upgrade from `before`: nothing without the chart or when Helm rejects it; else one
      revision more, and only a success supersedes the base. */
  ghost predicate Upgraded(env: Helm, before: State, i: nat, spec: ReleaseSpec, call: Call, after: Outcome)
    requires i < |before.revisions|
  {
    var revisions, chart := before.revisions, LoadChart(env, before, spec.source, call.upgraded, call.fetch).chart;
    && (after.result == if chart.Some? && call.fate == Applied then Done else Erred)
    && after.state.latch == before.latch && after.state.gauge == before.gauge
    && if chart.None? || call.fate == Rejected then after.state.revisions == revisions
       else
         && |after.state.revisions| == |revisions| + 1
         && (forall j :: 0 <= j < |revisions| && j != i ==> after.state.revisions[j] == revisions[j])
         && after.state.revisions[i]
            == (if call.fate == Applied then revisions[i].(status := StatusSuperseded) else revisions[i])
         && Follows(env, revisions[|revisions| - 1], revisions[i], chart.value, spec, call.fate,
                    after.state.revisions[|revisions|])
  }

  lemma WriteUpgrades(env: Helm, s: State, i: nat, spec: ReleaseSpec, call: Call)
    requires IsBase(s.revisions, i)
    ensures Upgraded(env, s, i, spec, call, Write(env, s, spec, call))
  {
    BaseIs(s.revisions, i);
    LoadIs(env, s, spec.source, call.upgraded, call.fetch);
    var chart := LoadChart(env, s, spec.source, call.upgraded, call.fetch).chart;
    if chart.Some? && call.fate != Rejected {
      var r := NewRevision(env, s.revisions, chart.value, spec, call.fate);
      assert Follows(env, s.revisions[|s.revisions| - 1], s.revisions[i], chart.value, spec, call.fate, r);
      assert Written(env, s.revisions, chart.value, spec, call.fate)[|s.revisions|] == r;
    }
  }

  // A pass

  /** With nothing stored a readable pass installs revision 1, as far as Helm lets it. */
  lemma NothingStored(env: Helm, s: State, spec: ReleaseSpec, call: Call)
    requires s.revisions == []
    ensures var after := EnsureRelease(env, s, spec, call);
            var chart := LoadChart(env, s, spec.source, call.upgraded, call.fetch).chart;
            && (!call.lastReadable ==> after == Outcome(s, Erred))
            && (after.result == if call.lastReadable && chart.Some? && call.fate == Applied then Done else Erred)
            && after.state.latch == s.latch && after.state.gauge == s.gauge
            && after.state.revisions
               == if !call.lastReadable || chart.None? || call.fate == Rejected then []
                  else [Revision(1, (match call.fate
                                     case Applied => StatusDeployed
                                     case LeftPending => StatusPendingInstall
                                     case RecordedFailed => StatusFailed
                                     case Rejected => StatusFailed),
                                 chart.value.name, chart.value.version, spec.values, spec.labels,
                                 env.render(chart.value, spec.values))]
  {
    LoadIs(env, s, spec.source, call.upgraded, call.fetch);
  }

  ghost predicate LacksLabel(d: Revision, spec: ReleaseSpec)
  {
    exists k :: k in spec.labels && (k in d.labels ==> d.labels[k] != spec.labels[k])
  }

  /** Values that cannot be encoded agree with nothing. */
  predicate Disagrees(d: Revision, spec: ReleaseSpec)
  {
    d.version != spec.source.version || d.values != spec.values || spec.values == Unmarshallable
  }

  predicate MidOperation(r: Revision)
  {
    r.status in {StatusPendingInstall, StatusPendingUpgrade, StatusPendingRollback}
  }

  /** The chart of the spec, as this pass would render it over base `i`. */
  ghost function Rendered(env: Helm, s: State, i: nat, spec: ReleaseSpec, call: Call): Option<string>
    requires i < |s.revisions|
  {
    var chart := LoadChart(env, s, spec.source, call.rendered, call.renderFetch).chart;
    if chart.None? || !call.renderOk then None
    else Some(env.render(chart.value, if spec.values == NoValues then s.revisions[i].values else spec.values))
  }

  /** How a pass over a stored release ends, in this order: what cannot be read is an
      error; a newest revision mid-operation is waited for; with nothing running, or a
      label missing, it upgrades; agreement is the end of it, and so is a memo that
      holds; else it renders, and upgrades if that differs from what is running. */
  lemma StoredRelease(env: Helm, s: State, i: nat, spec: ReleaseSpec, call: Call)
    requires IsBase(s.revisions, i)
    ensures var d, after := s.revisions[i], EnsureRelease(env, s, spec, call);
            var rendered := Rendered(env, s, i, spec, call);
            var loaded := LoadChart(env, s, spec.source, call.rendered, call.renderFetch).state;
            if !call.lastReadable then after == Outcome(s, Erred)
            else if MidOperation(s.revisions[|s.revisions| - 1]) then after == Outcome(s, ReleasePending)
            else if !call.deployedReadable then after == Outcome(s, Erred)
            else if d.status != StatusDeployed || LacksLabel(d, spec) then Upgraded(env, s, i, spec, call, after)
            else if !Disagrees(d, spec) then after == Outcome(s.(gauge := Some(0)), Done)
            else if ConvergenceHolds(s.latch, spec, d, call.asked) then after == Outcome(s.(gauge := Some(1)), Done)
            else if rendered.None? then after == Outcome(loaded, Erred)
            else if rendered.value == (if call.manifestReadable then d.manifest else "") then
              after == Outcome(loaded.(latch := Latched(s.latch, spec, d, call.proven), gauge := Some(1)), Done)
            else Upgraded(env, loaded, i, spec, call, after)
  {
    BaseIs(s.revisions, i);
    LoadIs(env, s, spec.source, call.rendered, call.renderFetch);
    WriteUpgrades(env, s, i, spec, call);
    WriteUpgrades(env, LoadChart(env, s, spec.source, call.rendered, call.renderFetch).state, i, spec, call);
    assert LabelDrift(s.revisions[i], spec) <==> LacksLabel(s.revisions[i], spec);
  }

  lemma BaseExists(revisions: seq<Revision>) returns (i: nat)
    requires revisions != []
    ensures IsBase(revisions, i)
  {
    i := BaseIndex(revisions);
    NothingDeployed(revisions);
    if DeployedIndex(revisions) >= 0 { DeployedIndexMeaning(revisions, i); }
  }

  /** Whether a pass has a reason to write. */
  ghost predicate HasToWrite(env: Helm, s: State, spec: ReleaseSpec, call: Call)
  {
    && call.lastReadable
    && (s.revisions != [] ==> !MidOperation(s.revisions[|s.revisions| - 1]) && call.deployedReadable)
    && forall i: nat :: IsBase(s.revisions, i) && s.revisions[i].status == StatusDeployed ==>
         || LacksLabel(s.revisions[i], spec)
         || (MustRender(s, i, spec, call) && DiffersFrom(env, s, i, spec, call))
  }

  predicate MustRender(s: State, i: nat, spec: ReleaseSpec, call: Call)
    requires i < |s.revisions|
  {
    Disagrees(s.revisions[i], spec) && !ConvergenceHolds(s.latch, spec, s.revisions[i], call.asked)
  }

  ghost predicate DiffersFrom(env: Helm, s: State, i: nat, spec: ReleaseSpec, call: Call)
    requires i < |s.revisions|
  {
    var rendered := Rendered(env, s, i, spec, call);
    rendered.Some? && rendered.value != if call.manifestReadable then s.revisions[i].manifest else ""
  }

  /** The chart for the write can be had: it is kept, this pass rendered it a moment ago
      and kept it, or the registry answers. */
  ghost predicate ChartIsHad(env: Helm, s: State, spec: ReleaseSpec, call: Call)
  {
    var renders := exists i: nat :: && IsBase(s.revisions, i) && s.revisions[i].status == StatusDeployed
                                    && !LacksLabel(s.revisions[i], spec);
    var start := if renders then LoadChart(env, s, spec.source, call.rendered, call.renderFetch).state else s;
    Kept(env, start.charts, spec.source, call.upgraded).Some? || call.fetch.Fetches?
  }

  lemma OnlyBase(revisions: seq<Revision>, i: nat, j: nat)
    requires IsBase(revisions, i) && IsBase(revisions, j)
    ensures i == j
  {
  }

  lemma ReasonOver(env: Helm, s: State, i: nat, spec: ReleaseSpec, call: Call)
    requires IsBase(s.revisions, i)
    ensures HasToWrite(env, s, spec, call) <==>
            && call.lastReadable && !MidOperation(s.revisions[|s.revisions| - 1]) && call.deployedReadable
            && (s.revisions[i].status == StatusDeployed ==>
                  || LacksLabel(s.revisions[i], spec)
                  || (MustRender(s, i, spec, call) && DiffersFrom(env, s, i, spec, call)))
    ensures (exists j: nat :: && IsBase(s.revisions, j) && s.revisions[j].status == StatusDeployed
                              && !LacksLabel(s.revisions[j], spec))
       <==> s.revisions[i].status == StatusDeployed && !LacksLabel(s.revisions[i], spec)
  {
    forall j: nat | IsBase(s.revisions, j) ensures j == i { OnlyBase(s.revisions, i, j); }
  }

  lemma UpgradedChanges(env: Helm, before: State, i: nat, spec: ReleaseSpec, call: Call, after: Outcome)
    requires i < |before.revisions| && Upgraded(env, before, i, spec, call, after)
    ensures after.state.revisions != before.revisions
       <==> && (Kept(env, before.charts, spec.source, call.upgraded).Some? || call.fetch.Fetches?)
            && call.fate != Rejected
  {
    LoadIs(env, before, spec.source, call.upgraded, call.fetch);
  }

  lemma StoredWritesWhen(env: Helm, s: State, i: nat, spec: ReleaseSpec, call: Call)
    requires IsBase(s.revisions, i)
    ensures EnsureRelease(env, s, spec, call).state.revisions != s.revisions
       <==> HasToWrite(env, s, spec, call) && ChartIsHad(env, s, spec, call) && call.fate != Rejected
  {
    ReasonOver(env, s, i, spec, call);
    StoredRelease(env, s, i, spec, call);
    LoadIs(env, s, spec.source, call.rendered, call.renderFetch);
    var loaded := LoadChart(env, s, spec.source, call.rendered, call.renderFetch).state;
    var after := EnsureRelease(env, s, spec, call);
    if Upgraded(env, s, i, spec, call, after) { UpgradedChanges(env, s, i, spec, call, after); }
    if Upgraded(env, loaded, i, spec, call, after) { UpgradedChanges(env, loaded, i, spec, call, after); }
  }

  /** A pass writes if and only if it has a reason to, the chart can be had and Helm takes
      the write. */
  lemma WritesExactlyWhen(env: Helm, s: State, spec: ReleaseSpec, call: Call)
    ensures EnsureRelease(env, s, spec, call).state.revisions != s.revisions
       <==> HasToWrite(env, s, spec, call) && ChartIsHad(env, s, spec, call) && call.fate != Rejected
  {
    if s.revisions == [] {
      NothingStored(env, s, spec, call);
      LoadIs(env, s, spec.source, call.upgraded, call.fetch);
    } else {
      var i := BaseExists(s.revisions);
      StoredWritesWhen(env, s, i, spec, call);
    }
  }

  // The memo

  predicate CleanRevision(d: Revision)
  {
    NulFree([d.chartName, d.version]) && CleanValues(d.values)
  }

  /** A verdict on `spec` over revision `d` goes for another spec and revision if and only if
      they pull and render alike and half an hour has not gone by; and there is a verdict
      at all unless some values cannot be encoded. */
  lemma MemoIs(latch: Option<ConvergedAt>, spec: ReleaseSpec, d: Revision, proven: int, other: ReleaseSpec, e: Revision,
               now: int)
    requires CleanSpec(spec) && CleanSpec(other) && CleanRevision(d) && CleanRevision(e)
    requires spec.values != Unmarshallable && d.values != Unmarshallable
    ensures ConvergenceHolds(Latched(latch, spec, d, proven), other, e, now)
       <==> && other.source.chartRef == spec.source.chartRef && other.source.repoURL == spec.source.repoURL
            && other.source.version == spec.source.version && other.values == spec.values
            && e.number == d.number && e.chartName == d.chartName && e.version == d.version && e.values == d.values
            && now <= proven + 30 * MINUTE
  {
    FingerprintMeaning(other, spec);
    RevisionFingerprint(e, d);
  }

  lemma RevisionFingerprint(a: Revision, b: Revision)
    requires CleanRevision(a) && CleanRevision(b) && b.values != Unmarshallable
    ensures DeployedFingerprint(a) == DeployedFingerprint(b)
       <==> a.chartName == b.chartName && a.version == b.version && a.values == b.values
  {
    if a.values != Unmarshallable {
      var x := [a.chartName, a.version, ValuesFingerprint(a.values).value];
      var y := [b.chartName, b.version, ValuesFingerprint(b.values).value];
      assert [a.chartName, a.version][0] == a.chartName && [a.chartName, a.version][1] == a.version;
      assert [b.chartName, b.version][0] == b.chartName && [b.chartName, b.version][1] == b.version;
      JoinIsInjective(x, y);
      assert x == y <==> x[0] == y[0] && x[1] == y[1] && x[2] == y[2];
    }
  }

  /** So after a render that changed nothing, passes with that spec ask the registry for
      nothing more for half an hour, whatever could not be brought to agree. */
  lemma MemoSavesPulls(env: Helm, s: State, i: nat, spec: ReleaseSpec, call: Call, next: Call)
    requires IsBase(s.revisions, i) && s.revisions[i].status == StatusDeployed && !LacksLabel(s.revisions[i], spec)
    requires MustRender(s, i, spec, call) && EnsureRelease(env, s, spec, call).result == Done
    requires EnsureRelease(env, s, spec, call).state.revisions == s.revisions
    requires CleanSpec(spec) && CleanRevision(s.revisions[i])
    requires spec.values != Unmarshallable && s.revisions[i].values != Unmarshallable
    requires next.lastReadable && next.deployedReadable && next.asked <= call.proven + 30 * MINUTE
    ensures var t := EnsureRelease(env, s, spec, call).state;
            EnsureRelease(env, t, spec, next) == Outcome(t, Done)
  {
    StoredRelease(env, s, i, spec, call);
    DoneWritesSomething(env, s, spec, call);
    var t := EnsureRelease(env, s, spec, call).state;
    StoredRelease(env, t, i, spec, next);
    MemoIs(s.latch, spec, s.revisions[i], call.proven, spec, s.revisions[i], next.asked);
    LoadIs(env, s, spec.source, call.rendered, call.renderFetch);
  }

  /** A deletion leaves no verdict behind, for any release that comes after it, and no gauge;
      charts stay kept. */
  lemma DeletionForgets(s: State, left: seq<Revision>, spec: ReleaseSpec, d: Revision, now: int)
    ensures var after := DeleteRelease(s, left);
            && !ConvergenceHolds(after.latch, spec, d, now) && after.gauge == None
            && after.revisions == left && after.charts == s.charts && after.pulls == s.pulls
  {
  }
}
