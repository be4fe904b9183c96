/** The client as it runs: it keeps the memo, the cache and the gauge in fields and
    updates them in place. Every method is shown to do what `HelmRelease` says. */
module HelmClients {
  import opened Workload
  import opened ChartCache
  import opened HelmRelease

  class HelmClient {
    const env: Helm
    const cache: Cache
    var revisions: seq<Revision>
    var latch: Option<ConvergedAt>
    var pulls: seq<Pull>
    var gauge: Option<int>

    function AsState(): State
      reads this, cache
    {
      State(revisions, latch, cache.charts, pulls, gauge)
    }

    constructor (env: Helm, revisions: seq<Revision>)
      ensures this.env == env && fresh(cache)
      ensures AsState() == State(revisions, None, map[], [], None)
    {
      this.env := env;
      this.revisions := revisions;
      latch, pulls, gauge := None, [], None;
      cache := new Cache();
    }

    method LoadChart(source: Source, now: int, fetch: Fetch) returns (chart: Option<Chart>)
      modifies this`pulls, cache
      ensures Loaded(AsState(), chart) == HelmRelease.LoadChart(env, old(AsState()), source, now, fetch)
    {
      var key := CacheKey(source);
      if key.Some? {
        var hit := cache.CachedChart(key.value, now, Parses(env));
        if hit.Some? {
          return env.parse(hit.value);
        }
      }
      pulls := pulls + [Pull(source, Fetched(fetch), now)];
      if fetch.FetchFails? {
        return None;
      }
      if key.Some? {
        cache.CacheChart(key.value, fetch.archive, now);
      }
      return Some(fetch.chart);
    }

    method Write(spec: ReleaseSpec, call: Call) returns (result: Result)
      modifies this`revisions, this`pulls, cache
      ensures Outcome(AsState(), result) == HelmRelease.Write(env, old(AsState()), spec, call)
    {
      var chart := LoadChart(spec.source, call.upgraded, call.fetch);
      if chart.None? {
        return Erred;
      }
      revisions := Written(env, revisions, chart.value, spec, call.fate);
      return if call.fate.Applied? then Done else Erred;
    }

    method LatchConvergence(spec: ReleaseSpec, deployed: Revision, now: int)
      modifies this`latch
      ensures latch == Latched(old(latch), spec, deployed, now)
    {
      var fingerprint := SpecFingerprint(spec);
      if fingerprint.None? {
        return;
      }
      var stored := DeployedFingerprint(deployed);
      if stored.None? {
        return;
      }
      latch := Some(ConvergedAt(deployed.number, fingerprint.value, stored.value, now));
    }

    method EnsureRelease(spec: ReleaseSpec, call: Call) returns (result: Result)
      modifies this, cache
      ensures Outcome(AsState(), result) == HelmRelease.EnsureRelease(env, old(AsState()), spec, call)
    {
      if !call.lastReadable {
        return Erred;
      }
      match DecideRelease(revisions, call.deployedReadable, spec) {
        case ReadError => return Erred;
        case Pending => return ReleasePending;
        case ToInstall =>
          result := Write(spec, call);
          return;
        case ToSkip =>
          gauge := Some(0);
          return Done;
        case ToUpgrade =>
      }
      var deployed := DeployedRelease(revisions);
      if deployed.None? {
        result := Write(spec, call);
        return;
      }
      var drift := FindLabelDrift(deployed.value, spec);
      if drift {
        result := Write(spec, call);
        return;
      }
      if ConvergenceHolds(latch, spec, deployed.value, call.asked) {
        gauge := Some(1);
        return Done;
      }
      var values := EffectiveValues(revisions, spec.values);
      var current := ShownManifest(deployed.value, call);
      var chart := LoadChart(spec.source, call.rendered, call.renderFetch);
      if chart.None? || !call.renderOk {
        return Erred;
      }
      if env.render(chart.value, values) == current {
        LatchConvergence(spec, deployed.value, call.proven);
        gauge := Some(1);
        return Done;
      }
      result := Write(spec, call);
    }

    /** The verdict goes first, so it is gone even when the uninstall fails. */
    method DeleteRelease(left: seq<Revision>)
      modifies this
      ensures AsState() == HelmRelease.DeleteRelease(old(AsState()), left)
      ensures latch.None? && gauge.None? && revisions == left && pulls == old(pulls)
              && cache.charts == old(cache.charts)
    {
      latch := None;
      gauge := None;
      revisions := left;
    }
  }
}
