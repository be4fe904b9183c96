/** Regenerating the bundled catalog's nvidia library from the NGC chart list. */
module CatalogSync {
  import opened Ordering
  import opened Workload

  const NGC_HELM_BASE := "https://helm.ngc.nvidia.com"
  const SOURCE_NGC := "ngc"
  const SUPPORTED := "supported"
  const CHIP := Label(SUPPORTED, "Supported")
  const REASON_NOT_ON_NGC := "no longer published on NGC"
  const REASON_PATH_PREFIX := "NGC path no longer deployable: "

  datatype Label = Label(code: string, name: string)

  /** `details` holds the descriptive fields by their JSON names. */
  datatype Item = Item(slug: string, repositoryURL: string, source: string, labels: seq<Label>,
                       details: map<string, string>)

  datatype Resource = Resource(
    id: string, org: string, team: string, name: string, displayName: string, description: string,
    logoURL: string, dateModified: string, version: string, supported: bool)

  /** The fields a human has pinned for one slug. */
  datatype Pin = Pin(fields: map<string, string>, labels: Option<seq<Label>>)

  /** An override that does not decode is kept as None. */
  type Overrides = map<string, Option<Pin>>

  // Paths and keys

  function RepoPath(res: Resource): string
  {
    "/" + res.org + if res.team != "" then "/" + res.team else ""
  }

  function RepoURL(res: Resource): string
  {
    NGC_HELM_BASE + RepoPath(res)
  }

  function TrimPrefixSlash(s: string): string
  {
    if s != "" && s[0] == '/' then s[1..] else s
  }

  function TrimRightSlash(s: string): string
  {
    if s != "" && s[|s| - 1] == '/' then TrimRightSlash(s[..|s| - 1]) else s
  }

  predicate IsSpace(c: char)
  {
    c == ' ' || c == '\t' || c == '\n' || c == '\r'
  }

  function TrimLeft(s: string): string
  {
    if s != "" && IsSpace(s[0]) then TrimLeft(s[1..]) else s
  }

  function TrimRight(s: string): string
  {
    if s != "" && IsSpace(s[|s| - 1]) then TrimRight(s[..|s| - 1]) else s
  }

  function ResourceKey(res: Resource): string
  {
    TrimPrefixSlash(RepoPath(res)) + "/" + res.name
  }

  /** The path of a URL on the NGC Helm host, and nothing for any other. */
  function NGCPath(repositoryURL: string): Option<string>
  {
    var repo := TrimRightSlash(TrimRight(TrimLeft(repositoryURL)));
    if NGC_HELM_BASE <= repo && (|repo| == |NGC_HELM_BASE| || repo[|NGC_HELM_BASE|] == '/')
    then Some(repo[|NGC_HELM_BASE|..]) else None
  }

  function OwnedKey(path: string, slug: string): string
  {
    TrimPrefixSlash(path) + "/" + slug
  }

  datatype PathKind = PathUnknown | PathOrg | PathPublic | PathGated | PathExcluded

  const ORG_PATHS := {"/nvidia", "/nvidia/blueprint"}
  const PUBLIC_PATHS := {"/nim", "/nvidia/ai-dynamo", "/nvidia/doca"}
  const GATED_PATHS := {
    "/nim/baidu", "/nim/mit", "/nim/nvidia", "/nvidia/ace", "/nvidia/cuopt", "/nvidia/nemo-microservices",
    "/nvidia/omniverse", "/nvidia/omniverse-usdcode", "/nvidia/riva", "/nvidia/runai"}
  const EXCLUDED_PATHS := {"/nim/snowflake", "/eevaigoeixww/animation", "/eevaigoeixww/conversational-ai"}

  function ClassifyPath(path: string): PathKind
  {
    if path in ORG_PATHS then PathOrg
    else if path in EXCLUDED_PATHS then PathExcluded
    else if path in PUBLIC_PATHS then PathPublic
    else if path in GATED_PATHS then PathGated
    else PathUnknown
  }

  predicate Deployable(path: string)
  {
    var kind := ClassifyPath(path);
    kind == PathOrg || kind == PathPublic || kind == PathGated
  }

  // Building an entry

  predicate HasSupported(labels: seq<Label>)
  {
    exists i :: 0 <= i < |labels| && labels[i].code == SUPPORTED
  }

  function EnsureSupported(labels: seq<Label>): seq<Label>
  {
    if HasSupported(labels) then labels else [CHIP] + labels
  }

  function WithoutSupported(labels: seq<Label>): seq<Label>
  {
    if labels == [] then []
    else
      var front, last := WithoutSupported(labels[..|labels| - 1]), labels[|labels| - 1];
      if last.code == SUPPORTED then front else front + [last]
  }

  function Derive(res: Resource): Item
  {
    Item(res.name, RepoURL(res), "", [],
         map["name" := res.displayName, "description" := res.description, "logo_url" := res.logoURL,
             "last_updated_at" := res.dateModified, "packaging_format" := "HELM_CHART"])
  }

  function ApplyOverride(ov: Overrides, it: Item): Option<Item>
  {
    if it.slug !in ov then Some(it)
    else if ov[it.slug].None? then None
    else
      var pin := ov[it.slug].value;
      Some(it.(details := it.details + pin.fields, labels := if pin.labels.Some? then pin.labels.value else it.labels))
  }

  function BuildOwned(res: Resource, supported: bool, ov: Overrides): Option<Item>
  {
    var derived := Derive(res);
    var pinned := ApplyOverride(ov, if supported then derived.(labels := [CHIP]) else derived);
    if pinned.None? then None
    else
      var it := pinned.value;
      Some(it.(labels := if supported then EnsureSupported(it.labels) else WithoutSupported(it.labels),
               source := SOURCE_NGC))
  }

  // One entry per slug

  function RepoRank(repositoryURL: string): int
  {
    if TrimRightSlash(repositoryURL) == NGC_HELM_BASE + "/nim/nvidia" then 1 else 0
  }

  predicate PreferOver(candidate: Item, current: Item)
  {
    var c, o := RepoRank(candidate.repositoryURL), RepoRank(current.repositoryURL);
    if c != o then c > o else StrLt(candidate.repositoryURL, current.repositoryURL)
  }

  function SlugIndex(items: seq<Item>, slug: string): (i: int)
    ensures -1 <= i < |items|
    ensures i >= 0 ==> items[i].slug == slug
  {
    if items == [] then -1
    else if items[|items| - 1].slug == slug then |items| - 1
    else SlugIndex(items[..|items| - 1], slug)
  }

  function Collapse(out: seq<Item>, it: Item): seq<Item>
  {
    var i := SlugIndex(out, it.slug);
    if i < 0 then out + [it] else if PreferOver(it, out[i]) then out[i := it] else out
  }

  function Dedupe(items: seq<Item>): seq<Item>
  {
    if items == [] then [] else Collapse(Dedupe(items[..|items| - 1]), items[|items| - 1])
  }

  // The NGC state

  type ByKey = map<string, Resource>

  function IndexByKey(resources: seq<Resource>): ByKey
  {
    if resources == [] then map[]
    else IndexByKey(resources[..|resources| - 1])[ResourceKey(resources[|resources| - 1]) := resources[|resources| - 1]]
  }

  predicate Listed(res: Resource)
  {
    res.supported && Deployable(RepoPath(res))
  }

  function Labeled(resources: seq<Resource>, ov: Overrides): Option<seq<Item>>
  {
    if resources == [] then Some([])
    else AddLabeled(Labeled(resources[..|resources| - 1], ov), resources[|resources| - 1], ov)
  }

  function AddLabeled(front: Option<seq<Item>>, res: Resource, ov: Overrides): Option<seq<Item>>
  {
    if front.None? || !Listed(res) then front
    else
      var it := BuildOwned(res, true, ov);
      if it.None? then None else Some(front.value + [it.value])
  }

  datatype Chart = Chart(id: string, name: string, version: string)

  function ChartOf(res: Resource): Chart
  {
    Chart(res.id, res.displayName, res.version)
  }

  predicate LeftOut(res: Resource)
  {
    res.supported && ClassifyPath(RepoPath(res)) == PathUnknown
  }

  /** Supported charts nobody has classified the path of, by path. */
  function Unclassified(resources: seq<Resource>): map<string, seq<Chart>>
  {
    if resources == [] then map[]
    else AddUnclassified(Unclassified(resources[..|resources| - 1]), resources[|resources| - 1])
  }

  function AddUnclassified(front: map<string, seq<Chart>>, res: Resource): map<string, seq<Chart>>
  {
    if !LeftOut(res) then front
    else front[RepoPath(res) := (if RepoPath(res) in front then front[RepoPath(res)] else []) + [ChartOf(res)]]
  }

  // Existing entries

  predicate IsOwned(e: Item)
  {
    e.source == SOURCE_NGC
  }

  datatype Fate = Keep(item: Item) | Remove(reason: string) | Broken

  function ReconcileOwned(e: Item, byKey: ByKey, ov: Overrides): Fate
  {
    var path := NGCPath(e.repositoryURL);
    if path.None? then Broken
    else
      var key := OwnedKey(path.value, e.slug);
      if key !in byKey then Remove(REASON_NOT_ON_NGC)
      else if !Deployable(path.value) then Remove(REASON_PATH_PREFIX + path.value)
      else
        var it := BuildOwned(byKey[key], false, ov);
        if it.None? then Broken else Keep(it.value)
  }

  function Slugs(items: seq<Item>): set<string>
  {
    set i | 0 <= i < |items| :: items[i].slug
  }

  type Reasons = map<string, string>

  datatype Preserved = Unbuildable | Preserved(items: seq<Item>, reasons: Reasons)

  function PreserveOne(p: Preserved, e: Item, labeled: set<string>, byKey: ByKey, ov: Overrides): Preserved
  {
    if p.Unbuildable? || e.slug in labeled then p
    else if !IsOwned(e) then p.(items := p.items + [e])
    else
      match ReconcileOwned(e, byKey, ov)
      case Broken => Unbuildable
      case Keep(it) => p.(items := p.items + [it])
      case Remove(reason) => p.(reasons := p.reasons[e.slug := reason])
  }

  function Preserve(existing: seq<Item>, labeled: set<string>, byKey: ByKey, ov: Overrides): Preserved
  {
    if existing == [] then Preserved([], map[])
    else PreserveOne(Preserve(existing[..|existing| - 1], labeled, byKey, ov), existing[|existing| - 1], labeled, byKey,
                     ov)
  }

  function SlugKey(it: Item): Key
  {
    [it.slug]
  }

  /** The new library, and why slugs were removed. */
  datatype Synced = SyncError | Synced(items: seq<Item>, reasons: Reasons)

  function Sync(existing: seq<Item>, resources: seq<Resource>, ov: Overrides): Synced
  {
    var labeled := Labeled(resources, ov);
    if labeled.None? then SyncError
    else
      var listed := Dedupe(labeled.value);
      var kept := Preserve(existing, Slugs(listed), IndexByKey(resources), ov);
      if kept.Unbuildable? then SyncError
      else Synced(SortBy(SlugKey, Dedupe(kept.items + listed)), kept.reasons)
  }

  // The loops

  method DedupeBySlug(items: seq<Item>) returns (out: seq<Item>)
    ensures out == Dedupe(items)
  {
    var pos: map<string, nat> := map[];
    out := [];
    for i := 0 to |items|
      invariant out == Dedupe(items[..i])
      invariant forall s :: s in pos <==> SlugIndex(out, s) >= 0
      invariant forall s :: s in pos ==> pos[s] == SlugIndex(out, s)
    {
      assert items[..i + 1][..i] == items[..i];
      var it := items[i];
      SlugIndexAfter(out, it);
      if it.slug in pos {
        if PreferOver(it, out[pos[it.slug]]) {
          out := out[pos[it.slug] := it];
        }
      } else {
        pos := pos[it.slug := |out|];
        out := out + [it];
      }
    }
    assert items[..|items|] == items;
  }

  /** Replacing an entry leaves every position, appending adds the last. */
  lemma SlugIndexAfter(out: seq<Item>, it: Item)
    ensures forall s :: SlugIndex(out + [it], s) == if s == it.slug then |out| else SlugIndex(out, s)
    ensures forall s :: SlugIndex(out, it.slug) >= 0 ==>
              SlugIndex(out[SlugIndex(out, it.slug) := it], s) == SlugIndex(out, s)
  {
    assert (out + [it])[..|out|] == out;
    if SlugIndex(out, it.slug) >= 0 {
      forall s ensures SlugIndex(out[SlugIndex(out, it.slug) := it], s) == SlugIndex(out, s) {
        SameSlugsSameIndex(out, out[SlugIndex(out, it.slug) := it], s);
      }
    }
  }

  lemma {:induction false} SameSlugsSameIndex(a: seq<Item>, b: seq<Item>, slug: string)
    requires |a| == |b| && forall i :: 0 <= i < |a| ==> a[i].slug == b[i].slug
    ensures SlugIndex(a, slug) == SlugIndex(b, slug)
  {
    if a != [] {
      SameSlugsSameIndex(a[..|a| - 1], b[..|b| - 1], slug);
    }
  }

  method IndexNGC(resources: seq<Resource>, ov: Overrides)
    returns (byKey: ByKey, labeled: Option<seq<Item>>, unclassified: map<string, seq<Chart>>)
    ensures labeled.None? <==> Labeled(resources, ov).None?
    ensures labeled.Some? ==> byKey == IndexByKey(resources) && labeled.value == Dedupe(Labeled(resources, ov).value)
    ensures labeled.Some? ==> unclassified == Unclassified(resources)
  {
    byKey, unclassified := map[], map[];
    var items := [];
    for i := 0 to |resources|
      invariant byKey == IndexByKey(resources[..i])
      invariant Labeled(resources[..i], ov) == Some(items)
      invariant unclassified == Unclassified(resources[..i])
    {
      assert resources[..i + 1][..i] == resources[..i];
      byKey := byKey[ResourceKey(resources[i]) := resources[i]];
      var step;
      step, unclassified := PlaceResource(resources[i], ov, items, unclassified);
      if step.None? {
        LabeledStops(resources, i + 1, ov);
        return byKey, None, unclassified;
      }
      items := step.value;
    }
    assert resources[..|resources|] == resources;
    var listed := DedupeBySlug(items);
    labeled := Some(listed);
  }

  /** The switch on the path of one resource. */
  method PlaceResource(res: Resource, ov: Overrides, items: seq<Item>, unclassified: map<string, seq<Chart>>)
    returns (labeled: Option<seq<Item>>, left: map<string, seq<Chart>>)
    ensures labeled == AddLabeled(Some(items), res, ov) && left == AddUnclassified(unclassified, res)
  {
    labeled, left := Some(items), unclassified;
    if !res.supported {
      return;
    }
    var path := RepoPath(res);
    var kind := ClassifyPath(path);
    if kind == PathOrg || kind == PathPublic || kind == PathGated {
      var it := BuildOwned(res, true, ov);
      labeled := if it.None? then None else Some(items + [it.value]);
    } else if kind == PathUnknown {
      left := unclassified[path := (if path in unclassified then unclassified[path] else []) + [ChartOf(res)]];
    }
  }

  lemma {:induction false} LabeledStops(resources: seq<Resource>, n: nat, ov: Overrides)
    requires n <= |resources| && Labeled(resources[..n], ov).None?
    ensures Labeled(resources, ov).None?
    decreases |resources|
  {
    if n < |resources| {
      assert resources[..|resources| - 1][..n] == resources[..n];
      LabeledStops(resources[..|resources| - 1], n, ov);
    } else {
      assert resources[..n] == resources;
    }
  }

  method SyncNVAIE(existing: seq<Item>, resources: seq<Resource>, ov: Overrides)
    returns (out: Synced, unclassified: map<string, seq<Chart>>)
    ensures out == Sync(existing, resources, ov)
    ensures out.Synced? ==> unclassified == Unclassified(resources)
  {
    var byKey, listed;
    byKey, listed, unclassified := IndexNGC(resources, ov);
    if listed.None? {
      return SyncError, unclassified;
    }
    var kept := PreserveExisting(existing, Slugs(listed.value), byKey, ov);
    if kept.Unbuildable? {
      return SyncError, unclassified;
    }
    var result := DedupeBySlug(kept.items + listed.value);
    out := Synced(SortBy(SlugKey, result), kept.reasons);
  }

  method PreserveExisting(existing: seq<Item>, labeledSlugs: set<string>, byKey: ByKey, ov: Overrides)
    returns (kept: Preserved)
    ensures kept == Preserve(existing, labeledSlugs, byKey, ov)
  {
    var result, reasons := [], map[];
    for i := 0 to |existing|
      invariant Preserve(existing[..i], labeledSlugs, byKey, ov) == Preserved(result, reasons)
    {
      assert existing[..i + 1][..i] == existing[..i];
      var e := existing[i];
      if e.slug in labeledSlugs {
        continue;
      } else if !IsOwned(e) {
        result := result + [e];
      } else {
        match ReconcileOwned(e, byKey, ov) {
          case Broken =>
            PreserveStops(existing, i + 1, labeledSlugs, byKey, ov);
            return Unbuildable;
          case Keep(it) => result := result + [it];
          case Remove(reason) => reasons := reasons[e.slug := reason];
        }
      }
    }
    assert existing[..|existing|] == existing;
    kept := Preserved(result, reasons);
  }

  lemma {:induction false} PreserveStops(existing: seq<Item>, n: nat, labeled: set<string>, byKey: ByKey, ov: Overrides)
    requires n <= |existing| && Preserve(existing[..n], labeled, byKey, ov).Unbuildable?
    ensures Preserve(existing, labeled, byKey, ov).Unbuildable?
    decreases |existing|
  {
    if n < |existing| {
      assert existing[..|existing| - 1][..n] == existing[..n];
      PreserveStops(existing[..|existing| - 1], n, labeled, byKey, ov);
    } else {
      assert existing[..n] == existing;
    }
  }
}
