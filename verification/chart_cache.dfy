/** The cache of downloaded chart archives, keyed by everything that decides which bytes
    a pull returns. */
module ChartCache {
  import opened Workload
  import opened Phases

  const CACHE_TTL := 10 * MINUTE

  // Keys and fingerprints are fields joined by NUL

  function Join(parts: seq<string>): string
  {
    if |parts| == 0 then "" else if |parts| == 1 then parts[0] else parts[0] + "\0" + Join(parts[1..])
  }

  predicate NulFree(parts: seq<string>)
  {
    forall i :: 0 <= i < |parts| ==> '\0' !in parts[i]
  }

  lemma {:induction false} HeadSplits(a: string, x: string, b: string, y: string)
    requires '\0' !in a && '\0' !in b && a + "\0" + x == b + "\0" + y
    ensures a == b && x == y
  {
    var u, v := a + "\0" + x, b + "\0" + y;
    assert u[0] == if a == "" then '\0' else a[0];
    assert v[0] == if b == "" then '\0' else b[0];
    if a == "" {
      assert x == u[1..] && y == v[1..];
    } else {
      assert u[1..] == a[1..] + "\0" + x && v[1..] == b[1..] + "\0" + y;
      HeadSplits(a[1..], x, b[1..], y);
    }
  }

  /** As many NUL-free fields on either side join to the same key only if they agree
      field by field. */
  lemma {:induction false} JoinIsInjective(a: seq<string>, b: seq<string>)
    requires NulFree(a) && NulFree(b) && |a| == |b|
    ensures Join(a) == Join(b) <==> a == b
  {
    if |a| > 1 {
      JoinIsInjective(a[1..], b[1..]);
      assert a == [a[0]] + a[1..] && b == [b[0]] + b[1..];
      if Join(a) == Join(b) {
        HeadSplits(a[0], Join(a[1..]), b[0], Join(b[1..]));
      }
    }
  }

  datatype Source = Source(chartRef: string, repoURL: string, version: string, hasAuth: bool, hasTls: bool)

  predicate Clean(s: Source)
  {
    NulFree([s.chartRef, s.repoURL, s.version])
  }

  function CacheKey(s: Source): Option<string>
  {
    if s.hasAuth || s.hasTls then None else Some(Join([s.chartRef, s.repoURL, s.version]))
  }

  /** Two sources share a cache entry exactly when neither has credentials or trust of its
      own and they agree on reference, repository and version. */
  lemma CacheKeyIdentifiesSource(a: Source, b: Source)
    requires Clean(a) && Clean(b)
    ensures CacheKey(a).Some? && CacheKey(a) == CacheKey(b) <==> a == b && !a.hasAuth && !a.hasTls
  {
    var x, y := [a.chartRef, a.repoURL, a.version], [b.chartRef, b.repoURL, b.version];
    JoinIsInjective(x, y);
    assert x == y <==> x[0] == y[0] && x[1] == y[1] && x[2] == y[2];
  }

  // The cache

  datatype Entry = Entry(archive: string, at: int)

  type Charts = map<string, Entry>

  predicate Expired(e: Entry, now: int)
  {
    now - e.at > CACHE_TTL
  }

  function Drop(charts: Charts, key: string): Charts
  {
    map k | k in charts && k != key :: charts[k]
  }

  function Pruned(charts: Charts, now: int): Charts
  {
    map k | k in charts && !Expired(charts[k], now) :: charts[k]
  }

  predicate Usable(charts: Charts, key: string, now: int, parses: string -> bool)
  {
    key in charts && !Expired(charts[key], now) && parses(charts[key].archive)
  }

  function Hit(charts: Charts, key: string, now: int, parses: string -> bool): Option<string>
  {
    if Usable(charts, key, now, parses) then Some(charts[key].archive) else None
  }

  /** A lookup drops what it finds but cannot use. */
  function AfterLookup(charts: Charts, key: string, now: int, parses: string -> bool): Charts
  {
    if Usable(charts, key, now, parses) then charts else Drop(charts, key)
  }

  function Stored(charts: Charts, key: string, archive: string, now: int): Charts
  {
    if archive == "" then charts else Pruned(charts, now)[key := Entry(archive, now)]
  }

  class Cache {
    var charts: Charts

    constructor ()
      ensures charts == map[]
    {
      charts := map[];
    }

    method CachedChart(key: string, now: int, parses: string -> bool) returns (hit: Option<string>)
      modifies this
      ensures hit == Hit(old(charts), key, now, parses)
      ensures charts == AfterLookup(old(charts), key, now, parses)
    {
      if key !in charts {
        assert charts == Drop(charts, key);
        return None;
      }
      var cached := charts[key];
      if now - cached.at > CACHE_TTL {
        charts := charts - {key};
        return None;
      }
      if !parses(cached.archive) {
        charts := charts - {key};
        return None;
      }
      return Some(cached.archive);
    }

    method CacheChart(key: string, archive: string, now: int)
      modifies this
      ensures charts == Stored(old(charts), key, archive, now)
    {
      if |archive| == 0 {
        return;
      }
      var todo := charts.Keys;
      while todo != {}
        invariant todo <= old(charts).Keys
        invariant forall k :: k in charts <==> k in old(charts) && (k in todo || !Expired(old(charts)[k], now))
        invariant forall k :: k in charts ==> charts[k] == old(charts)[k]
        decreases |todo|
      {
        var k :| k in todo;
        todo := todo - {k};
        if now - charts[k].at > CACHE_TTL {
          charts := charts - {k};
        }
      }
      assert charts == Pruned(old(charts), now);
      charts := charts[key := Entry(archive, now)];
    }
  }

  // Any interleaving of stores, lookups and time

  datatype Use = Stores(key: string, archive: string, at: int) | Looks(key: string, at: int)

  function AfterUses(uses: seq<Use>, parses: string -> bool): Charts
  {
    if uses == [] then map[]
    else
      var before := AfterUses(uses[..|uses| - 1], parses);
      match uses[|uses| - 1]
      case Stores(key, archive, at) => Stored(before, key, archive, at)
      case Looks(key, at) => AfterLookup(before, key, at, parses)
  }

  /** The plain map of pulls: the last archive stored under the key, never forgotten. */
  function LastPull(uses: seq<Use>, key: string): Option<Entry>
  {
    if uses == [] then None
    else
      var last := uses[|uses| - 1];
      if last.Stores? && last.key == key && last.archive != "" then Some(Entry(last.archive, last.at))
      else LastPull(uses[..|uses| - 1], key)
  }

  ghost predicate Forward(uses: seq<Use>, now: int)
  {
    && (forall i, j :: 0 <= i < j < |uses| ==> uses[i].at <= uses[j].at)
    && forall i :: 0 <= i < |uses| ==> uses[i].at <= now
  }

  /** What the cache holds for a key is the last pull, or nothing, and then only when the
      last pull is of no use any more. */
  ghost predicate Faithful(charts: Charts, key: string, pull: Option<Entry>, now: int, parses: string -> bool)
  {
    if key in charts then pull == Some(charts[key])
    else pull.None? || Expired(pull.value, now) || !parses(pull.value.archive)
  }

  lemma {:induction false} CacheIsFaithful(uses: seq<Use>, key: string, now: int, parses: string -> bool)
    requires Forward(uses, now)
    ensures Faithful(AfterUses(uses, parses), key, LastPull(uses, key), now, parses)
  {
    if uses != [] {
      var before := uses[..|uses| - 1];
      CacheIsFaithful(before, key, uses[|uses| - 1].at, parses);
    }
  }

  /** However stores, lookups and time interleave, a lookup answers with exactly the
      archive last pulled under its key if that is at most ten minutes old and parses,
      and with a miss otherwise. So pruning never turns a hit into a miss. */
  lemma {:induction false} CacheRefinesPulls(uses: seq<Use>, key: string, now: int, parses: string -> bool)
    requires Forward(uses, now)
    ensures Hit(AfterUses(uses, parses), key, now, parses) ==
            var pull := LastPull(uses, key);
            if pull.Some? && now - pull.value.at <= CACHE_TTL && parses(pull.value.archive)
            then Some(pull.value.archive) else None
  {
    CacheIsFaithful(uses, key, now, parses);
  }
}
