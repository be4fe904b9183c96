/** Converging one Helm release: what a pass decides from release storage, the memo of
    renders that changed nothing, and when a pass is allowed to stay quiet. */
module HelmRelease {
  import opened Workload
  import opened Phases
  import opened ChartCache

  const CONVERGENCE_TTL := 30 * MINUTE

  datatype ReleaseStatus =
    | StatusDeployed | StatusFailed | StatusSuperseded
    | StatusPendingInstall | StatusPendingUpgrade | StatusPendingRollback
    | StatusUninstalling

  /** Values by their canonical JSON encoding, which is never empty. */
  datatype Values = NoValues | Json(text: string) | Unmarshallable

  datatype Chart = Chart(name: string, version: string, content: string)

  datatype ReleaseSpec = ReleaseSpec(source: Source, values: Values, labels: map<string, string>)

  datatype Revision = Revision(
    number: int, status: ReleaseStatus, chartName: string, version: string,
    values: Values, labels: map<string, string>, manifest: string)

  /** How archives parse and charts render: both are functions of what they are given. */
  datatype Helm = Helm(parse: string -> Option<Chart>, render: (Chart, Values) -> string)

  predicate IsPending(status: ReleaseStatus)
  {
    status == StatusPendingInstall || status == StatusPendingUpgrade || status == StatusPendingRollback
  }

  // The decision from storage

  /** `Storage.Deployed`: the newest revision that reached the cluster. */
  function DeployedIndex(revisions: seq<Revision>): (i: int)
    ensures -1 <= i < |revisions|
    ensures i >= 0 ==> revisions[i].status == StatusDeployed
  {
    if revisions == [] then -1
    else if revisions[|revisions| - 1].status == StatusDeployed then |revisions| - 1
    else DeployedIndex(revisions[..|revisions| - 1])
  }

  function DeployedRelease(revisions: seq<Revision>): Option<Revision>
  {
    if DeployedIndex(revisions) < 0 then None else Some(revisions[DeployedIndex(revisions)])
  }

  predicate LabelDrift(info: Revision, spec: ReleaseSpec)
  {
    exists k :: k in spec.labels && (k !in info.labels || info.labels[k] != spec.labels[k])
  }

  method FindLabelDrift(info: Revision, spec: ReleaseSpec) returns (drift: bool)
    ensures drift == LabelDrift(info, spec)
  {
    var todo := spec.labels.Keys;
    while todo != {}
      invariant todo <= spec.labels.Keys
      invariant forall k :: k in spec.labels && k !in todo ==> k in info.labels && info.labels[k] == spec.labels[k]
      decreases |todo|
    {
      var k :| k in todo;
      todo := todo - {k};
      if k !in info.labels || info.labels[k] != spec.labels[k] {
        return true;
      }
    }
    return false;
  }

  predicate ValuesEqual(a: Values, b: Values)
  {
    a == b && !a.Unmarshallable?
  }

  predicate NeedsUpgrade(info: Revision, spec: ReleaseSpec)
  {
    info.version != spec.source.version || LabelDrift(info, spec) || !ValuesEqual(info.values, spec.values)
  }

  datatype Decision = ToInstall | ToUpgrade | ToSkip | Pending | ReadError

  function DecideRelease(revisions: seq<Revision>, deployedReadable: bool, spec: ReleaseSpec): Decision
  {
    if revisions == [] then ToInstall
    else if IsPending(revisions[|revisions| - 1].status) then Pending
    else if !deployedReadable then ReadError
    else
      var deployed := DeployedRelease(revisions);
      if deployed.Some? && !NeedsUpgrade(deployed.value, spec) then ToSkip else ToUpgrade
  }

  // The memo

  datatype ConvergedAt = ConvergedAt(revision: int, spec: string, deployed: string, provenAt: int)

  function ValuesFingerprint(v: Values): Option<string>
  {
    match v
    case NoValues => Some("")
    case Json(text) => Some(text)
    case Unmarshallable => None
  }

  function SpecFingerprint(spec: ReleaseSpec): Option<string>
  {
    var values := ValuesFingerprint(spec.values);
    if values.None? then None
    else Some(Join([spec.source.chartRef, spec.source.repoURL, spec.source.version, values.value]))
  }

  function DeployedFingerprint(info: Revision): Option<string>
  {
    var values := ValuesFingerprint(info.values);
    if values.None? then None else Some(Join([info.chartName, info.version, values.value]))
  }

  predicate ConvergenceHolds(latch: Option<ConvergedAt>, spec: ReleaseSpec, deployed: Revision, now: int)
  {
    && latch.Some?
    && SpecFingerprint(spec) == Some(latch.value.spec)
    && DeployedFingerprint(deployed) == Some(latch.value.deployed)
    && latch.value.revision == deployed.number
    && now - latch.value.provenAt <= CONVERGENCE_TTL
  }

  function Latched(latch: Option<ConvergedAt>, spec: ReleaseSpec, deployed: Revision, now: int): Option<ConvergedAt>
  {
    if SpecFingerprint(spec).None? || DeployedFingerprint(deployed).None? then latch
    else Some(ConvergedAt(deployed.number, SpecFingerprint(spec).value, DeployedFingerprint(deployed).value, now))
  }

  /** JSON text is not empty and has no NUL in it. */
  predicate CleanValues(v: Values)
  {
    v.Json? ==> v.text != "" && '\0' !in v.text
  }

  predicate CleanSpec(spec: ReleaseSpec)
  {
    Clean(spec.source) && CleanValues(spec.values)
  }

  /** The memo calls two specs equal exactly when they would render alike: they pull the
      same chart and `ValuesEqual` says so of their values. */
  lemma FingerprintMeaning(a: ReleaseSpec, b: ReleaseSpec)
    requires CleanSpec(a) && CleanSpec(b)
    ensures SpecFingerprint(a).Some? && SpecFingerprint(a) == SpecFingerprint(b) <==>
            && a.source.chartRef == b.source.chartRef && a.source.repoURL == b.source.repoURL
            && a.source.version == b.source.version && ValuesEqual(a.values, b.values)
  {
    if !a.values.Unmarshallable? && !b.values.Unmarshallable? {
      var x := [a.source.chartRef, a.source.repoURL, a.source.version, ValuesFingerprint(a.values).value];
      var y := [b.source.chartRef, b.source.repoURL, b.source.version, ValuesFingerprint(b.values).value];
      SourceFields(a.source);
      SourceFields(b.source);
      JoinIsInjective(x, y);
      assert x == y <==> x[0] == y[0] && x[1] == y[1] && x[2] == y[2] && x[3] == y[3];
    }
  }

  lemma SourceFields(s: Source)
    requires Clean(s)
    ensures '\0' !in s.chartRef && '\0' !in s.repoURL && '\0' !in s.version
  {
    var parts := [s.chartRef, s.repoURL, s.version];
    assert parts[0] == s.chartRef && parts[1] == s.repoURL && parts[2] == s.version;
  }

  // Pulling, rendering and writing

  /** One request to the registry, and the chart it answered with, if it did. */
  datatype Pull = Pull(source: Source, chart: Option<Chart>, at: int)

  /** The cluster's record of the release, and what the client keeps in memory. `pulls`
      is the registry traffic so far. */
  datatype State = State(
    revisions: seq<Revision>, latch: Option<ConvergedAt>, charts: Charts, pulls: seq<Pull>, gauge: Option<int>)

  /** What the registry answers. A chart may come without an archive to keep. */
  datatype Fetch = FetchFails | Fetches(archive: string, chart: Chart)

  predicate Honest(env: Helm, f: Fetch)
  {
    f.Fetches? && f.archive != "" ==> env.parse(f.archive) == Some(f.chart)
  }

  datatype WriteFate = Applied | RecordedFailed | LeftPending | Rejected

  /** The answers one pass gets, and when it asks. */
  datatype Call = Call(
    lastReadable: bool, deployedReadable: bool, manifestReadable: bool,
    asked: int, rendered: int, proven: int, upgraded: int,
    renderFetch: Fetch, renderOk: bool, fetch: Fetch, fate: WriteFate)

  datatype Result = Done | ReleasePending | Erred

  function Parses(env: Helm): string -> bool
  {
    archive => env.parse(archive).Some?
  }

  datatype Loaded = Loaded(state: State, chart: Option<Chart>)

  function Fetched(fetch: Fetch): Option<Chart>
  {
    if fetch.Fetches? then Some(fetch.chart) else None
  }

  /** Counted before the attempt, so a pull that fails is counted, too. */
  function FetchChart(s: State, source: Source, now: int, fetch: Fetch): Loaded
  {
    var counted := s.(pulls := s.pulls + [Pull(source, Fetched(fetch), now)]);
    if fetch.FetchFails? then Loaded(counted, None)
    else
      var key := CacheKey(source);
      var charts := if key.Some? then Stored(s.charts, key.value, fetch.archive, now) else s.charts;
      Loaded(counted.(charts := charts), Some(fetch.chart))
  }

  function LoadChart(env: Helm, s: State, source: Source, now: int, fetch: Fetch): Loaded
  {
    var key := CacheKey(source);
    if key.None? then FetchChart(s, source, now, fetch)
    else
      var hit := Hit(s.charts, key.value, now, Parses(env));
      var looked := s.(charts := AfterLookup(s.charts, key.value, now, Parses(env)));
      if hit.Some? then Loaded(looked, env.parse(hit.value)) else FetchChart(looked, source, now, fetch)
  }

  /** The revision an upgrade starts from: the deployed one, else the newest. */
  function BaseIndex(revisions: seq<Revision>): (i: nat)
    requires revisions != []
    ensures i < |revisions|
  {
    if DeployedIndex(revisions) < 0 then |revisions| - 1 else DeployedIndex(revisions)
  }

  /** Helm carries the stored values forward when it is given none. */
  function EffectiveValues(revisions: seq<Revision>, values: Values): Values
  {
    if revisions != [] && values.NoValues? then revisions[BaseIndex(revisions)].values else values
  }

  function RecordedStatus(first: bool, fate: WriteFate): ReleaseStatus
  {
    match fate
    case Applied => StatusDeployed
    case LeftPending => if first then StatusPendingInstall else StatusPendingUpgrade
    case _ => StatusFailed
  }

  function NewRevision(env: Helm, revisions: seq<Revision>, chart: Chart, spec: ReleaseSpec, fate: WriteFate): Revision
  {
    var values := EffectiveValues(revisions, spec.values);
    if revisions == [] then
      Revision(1, RecordedStatus(true, fate), chart.name, chart.version, values, spec.labels, env.render(chart, values))
    else
      var last := revisions[|revisions| - 1];
      Revision(last.number + 1, RecordedStatus(false, fate), chart.name, chart.version, values,
               last.labels + spec.labels, env.render(chart, values))
  }

  /** What an install or upgrade leaves in storage. Success supersedes the revision it
      started from; a failure or a crash leaves that one in place. */
  function Written(env: Helm, revisions: seq<Revision>, chart: Chart, spec: ReleaseSpec, fate: WriteFate): seq<Revision>
  {
    if fate.Rejected? then revisions
    else
      var kept := if fate.Applied? && revisions != []
                  then revisions[BaseIndex(revisions) := revisions[BaseIndex(revisions)].(status := StatusSuperseded)]
                  else revisions;
      kept + [NewRevision(env, revisions, chart, spec, fate)]
  }

  datatype Outcome = Outcome(state: State, result: Result)

  /** `install` and `upgrade`: load the chart, then write. */
  function Write(env: Helm, s: State, spec: ReleaseSpec, call: Call): Outcome
  {
    var l := LoadChart(env, s, spec.source, call.upgraded, call.fetch);
    if l.chart.None? then Outcome(l.state, Erred)
    else
      Outcome(l.state.(revisions := Written(env, s.revisions, l.chart.value, spec, call.fate)),
              if call.fate.Applied? then Done else Erred)
  }

  /** An unreadable manifest reads as empty. */
  function ShownManifest(deployed: Revision, call: Call): string
  {
    if call.manifestReadable then deployed.manifest else ""
  }

  function RenderAndCompare(env: Helm, s: State, deployed: Revision, spec: ReleaseSpec, call: Call): Outcome
  {
    var l := LoadChart(env, s, spec.source, call.rendered, call.renderFetch);
    if l.chart.None? || !call.renderOk then Outcome(l.state, Erred)
    else if env.render(l.chart.value, EffectiveValues(s.revisions, spec.values)) == ShownManifest(deployed, call) then
      Outcome(l.state.(latch := Latched(s.latch, spec, deployed, call.proven), gauge := Some(1)), Done)
    else Write(env, l.state, spec, call)
  }

  function EnsureRelease(env: Helm, s: State, spec: ReleaseSpec, call: Call): Outcome
  {
    if !call.lastReadable then Outcome(s, Erred)
    else
      match DecideRelease(s.revisions, call.deployedReadable, spec)
      case ReadError => Outcome(s, Erred)
      case Pending => Outcome(s, ReleasePending)
      case ToInstall => Write(env, s, spec, call)
      case ToSkip => Outcome(s.(gauge := Some(0)), Done)
      case ToUpgrade =>
        var deployed := DeployedRelease(s.revisions);
        if deployed.None? || LabelDrift(deployed.value, spec) then Write(env, s, spec, call)
        else if ConvergenceHolds(s.latch, spec, deployed.value, call.asked) then Outcome(s.(gauge := Some(1)), Done)
        else RenderAndCompare(env, s, deployed.value, spec, call)
  }

  function DeleteRelease(s: State, revisions: seq<Revision>): State
  {
    s.(latch := None, gauge := None, revisions := revisions)
  }
}
