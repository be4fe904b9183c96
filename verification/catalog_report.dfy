/** The report of a catalog refresh, and what its lists add up to. */
module CatalogReport {
  import opened Ordering
  import opened CatalogSync
  import opened CatalogRefresh

  datatype App = App(slug: string, name: string, repositoryURL: string, reason: string)

  datatype PathCharts = PathCharts(path: string, charts: seq<Chart>)

  datatype Report = Report(added: seq<App>, removed: seq<App>, delabeled: seq<App>, relabeled: seq<App>,
                           unclassified: seq<PathCharts>)

  type Library = map<string, Item>

  function AppOf(e: Item): App
  {
    App(e.slug, if "name" in e.details then e.details["name"] else "", e.repositoryURL, "")
  }

  function AppKey(a: App): Key
  {
    [a.slug]
  }

  function ChartKey(c: Chart): Key
  {
    [c.id]
  }

  function PathKey(p: PathCharts): Key
  {
    [p.path]
  }

  /** The library before the run, by slug; a later entry of a slug hides an earlier one. */
  function Before(existing: seq<Item>): Library
  {
    if existing == [] then map[]
    else Before(existing[..|existing| - 1])[existing[|existing| - 1].slug := existing[|existing| - 1]]
  }

  datatype Change = Unchanged | IsAdded | IsDelabeled | IsRelabeled

  /** A change of support counts only for entries owned on both sides. */
  function ChangeOf(before: Library, e: Item): Change
  {
    if e.slug !in before then IsAdded
    else
      var b := before[e.slug];
      if IsOwned(b) && IsOwned(e) && HasSupported(b.labels) && !HasSupported(e.labels) then IsDelabeled
      else if IsOwned(b) && IsOwned(e) && !HasSupported(b.labels) && HasSupported(e.labels) then IsRelabeled
      else Unchanged
  }

  function Changed(before: Library, after: seq<Item>, change: Change): seq<App>
  {
    if after == [] then []
    else
      var front, e := Changed(before, after[..|after| - 1], change), after[|after| - 1];
      if ChangeOf(before, e) == change then front + [AppOf(e)] else front
  }

  function RemovedApp(before: Library, slug: string, reasons: Reasons): App
    requires slug in before
  {
    AppOf(before[slug]).(reason := if slug in reasons then reasons[slug] else "")
  }

  ghost predicate ListsRemoved(before: Library, after: seq<Item>, reasons: Reasons, removed: seq<App>)
  {
    && SortedBy(AppKey, removed) && DistinctKeys(AppKey, removed)
    && forall a :: a in removed <==>
         a.slug in before && a.slug !in Slugs(after) && a == RemovedApp(before, a.slug, reasons)
  }

  ghost predicate ListsUnclassified(unclassified: map<string, seq<Chart>>, paths: seq<PathCharts>)
  {
    && SortedBy(PathKey, paths) && DistinctKeys(PathKey, paths)
    && forall p :: p in paths <==> p.path in unclassified && p.charts == SortBy(ChartKey, unclassified[p.path])
  }

  ghost predicate IsReport(before: Library, after: seq<Item>, reasons: Reasons, unclassified: map<string, seq<Chart>>,
                           r: Report)
  {
    && r.added == SortBy(AppKey, Changed(before, after, IsAdded))
    && r.delabeled == SortBy(AppKey, Changed(before, after, IsDelabeled))
    && r.relabeled == SortBy(AppKey, Changed(before, after, IsRelabeled))
    && ListsRemoved(before, after, reasons, r.removed)
    && ListsUnclassified(unclassified, r.unclassified)
  }

  /** Maps have no order, yet there is one report. */
  lemma ReportIsDetermined(before: Library, after: seq<Item>, reasons: Reasons, unclassified: map<string, seq<Chart>>,
                           r: Report, q: Report)
    requires IsReport(before, after, reasons, unclassified, r) && IsReport(before, after, reasons, unclassified, q)
    ensures r == q
  {
    SortedSetsAgree(AppKey, r.removed, q.removed);
    SortedSetsAgree(PathKey, r.unclassified, q.unclassified);
  }

  // The loops

  predicate Keyed(before: Library)
  {
    forall s :: s in before ==> before[s].slug == s
  }

  method BuildReport(before: Library, after: seq<Item>, reasons: Reasons, unclassified: map<string, seq<Chart>>)
    returns (r: Report)
    requires Keyed(before)
    ensures IsReport(before, after, reasons, unclassified, r)
  {
    var added, delabeled, relabeled := [], [], [];
    var present := {};
    for i := 0 to |after|
      invariant added == Changed(before, after[..i], IsAdded)
      invariant delabeled == Changed(before, after[..i], IsDelabeled)
      invariant relabeled == Changed(before, after[..i], IsRelabeled)
      invariant present == Slugs(after[..i])
    {
      assert after[..i + 1][..i] == after[..i];
      SlugsStep(after, i);
      var e := after[i];
      present := present + {e.slug};
      match ChangeOf(before, e) {
        case IsAdded => added := added + [AppOf(e)];
        case IsDelabeled => delabeled := delabeled + [AppOf(e)];
        case IsRelabeled => relabeled := relabeled + [AppOf(e)];
        case Unchanged =>
      }
    }
    assert after[..|after|] == after;
    var removed := CollectRemoved(before, present, reasons);
    SortRemoved(before, after, reasons, removed);
    var paths := CollectUnclassified(unclassified);
    SortPaths(unclassified, paths);
    r := Report(SortBy(AppKey, added), SortBy(AppKey, removed), SortBy(AppKey, delabeled), SortBy(AppKey, relabeled),
                SortBy(PathKey, paths));
  }

  lemma SlugsStep(after: seq<Item>, i: nat)
    requires i < |after|
    ensures Slugs(after[..i + 1]) == Slugs(after[..i]) + {after[i].slug}
  {
  }

  method CollectRemoved(before: Library, present: set<string>, reasons: Reasons) returns (removed: seq<App>)
    requires Keyed(before)
    ensures DistinctKeys(AppKey, removed)
    ensures forall a :: a in removed <==>
              a.slug in before && a.slug !in present && a == RemovedApp(before, a.slug, reasons)
  {
    removed := [];
    var todo := before.Keys;
    while todo != {}
      invariant todo <= before.Keys
      invariant DistinctKeys(AppKey, removed)
      invariant forall a :: a in removed <==>
                  a.slug in before && a.slug !in todo && a.slug !in present && a == RemovedApp(before, a.slug, reasons)
      decreases |todo|
    {
      var slug :| slug in todo;
      if slug !in present {
        AppendDistinct(removed, RemovedApp(before, slug, reasons));
        removed := removed + [RemovedApp(before, slug, reasons)];
      }
      todo := todo - {slug};
    }
  }

  lemma AppendDistinct(apps: seq<App>, a: App)
    requires DistinctKeys(AppKey, apps) && forall x :: x in apps ==> x.slug != a.slug
    ensures DistinctKeys(AppKey, apps + [a])
  {
  }

  lemma SortRemoved(before: Library, after: seq<Item>, reasons: Reasons, removed: seq<App>)
    requires DistinctKeys(AppKey, removed)
    requires forall a :: a in removed <==>
               a.slug in before && a.slug !in Slugs(after) && a == RemovedApp(before, a.slug, reasons)
    ensures ListsRemoved(before, after, reasons, SortBy(AppKey, removed))
  {
    SortBySorts(AppKey, removed);
    DistinctKeysPermute(AppKey, removed, SortBy(AppKey, removed));
    forall a ensures a in SortBy(AppKey, removed) <==> a in removed { SortByKeepsMembers(AppKey, removed, a); }
  }

  method CollectUnclassified(unclassified: map<string, seq<Chart>>) returns (paths: seq<PathCharts>)
    ensures DistinctKeys(PathKey, paths)
    ensures forall p :: p in paths <==> p.path in unclassified && p.charts == SortBy(ChartKey, unclassified[p.path])
  {
    paths := [];
    var todo := unclassified.Keys;
    while todo != {}
      invariant todo <= unclassified.Keys
      invariant DistinctKeys(PathKey, paths)
      invariant forall p :: p in paths <==>
                  p.path in unclassified && p.path !in todo && p.charts == SortBy(ChartKey, unclassified[p.path])
      decreases |todo|
    {
      var path :| path in todo;
      AppendDistinctPath(paths, PathCharts(path, SortBy(ChartKey, unclassified[path])));
      paths := paths + [PathCharts(path, SortBy(ChartKey, unclassified[path]))];
      todo := todo - {path};
    }
  }

  lemma AppendDistinctPath(paths: seq<PathCharts>, p: PathCharts)
    requires DistinctKeys(PathKey, paths) && forall x :: x in paths ==> x.path != p.path
    ensures DistinctKeys(PathKey, paths + [p])
  {
  }

  lemma SortPaths(unclassified: map<string, seq<Chart>>, paths: seq<PathCharts>)
    requires DistinctKeys(PathKey, paths)
    requires forall p :: p in paths <==> p.path in unclassified && p.charts == SortBy(ChartKey, unclassified[p.path])
    ensures ListsUnclassified(unclassified, SortBy(PathKey, paths))
  {
    SortBySorts(PathKey, paths);
    DistinctKeysPermute(PathKey, paths, SortBy(PathKey, paths));
    forall p ensures p in SortBy(PathKey, paths) <==> p in paths { SortByKeepsMembers(PathKey, paths, p); }
  }

  // What the lists say

  lemma {:induction false} ChangedMeaning(before: Library, after: seq<Item>, change: Change)
    ensures forall a :: a in Changed(before, after, change) <==>
              exists e :: e in after && ChangeOf(before, e) == change && a == AppOf(e)
  {
    if after != [] {
      var front, e := after[..|after| - 1], after[|after| - 1];
      ChangedMeaning(before, front, change);
      assert after == front + [e];
      forall a
        ensures a in Changed(before, after, change) <==>
                exists x :: x in after && ChangeOf(before, x) == change && a == AppOf(x)
      {
        if ChangeOf(before, e) == change && a == AppOf(e) { assert e in after; }
      }
    }
  }

  lemma {:induction false} BeforeMeaning(existing: seq<Item>, slug: string)
    ensures slug in Before(existing) <==> slug in Slugs(existing)
    ensures slug in Before(existing) ==> Before(existing)[slug] in existing && Before(existing)[slug].slug == slug
  {
    if existing != [] {
      var n := |existing| - 1;
      BeforeMeaning(existing[..n], slug);
      SlugsStep(existing, n);
      assert existing[..n + 1] == existing;
    }
  }

  lemma BeforeOfDistinct(existing: seq<Item>, e: Item)
    requires DistinctSlugs(existing) && e in existing
    ensures e.slug in Before(existing) && Before(existing)[e.slug] == e
  {
  }

  /** A run that changes nothing reports no change of any app. */
  lemma NothingChanged(items: seq<Item>, unclassified: map<string, seq<Chart>>, r: Report)
    requires DistinctSlugs(items) && IsReport(Before(items), items, map[], unclassified, r)
    ensures r.added == [] && r.removed == [] && r.delabeled == [] && r.relabeled == []
  {
    forall e | e in items ensures ChangeOf(Before(items), e) == Unchanged {
      BeforeOfDistinct(items, e);
    }
    NoneChanged(Before(items), items, IsAdded);
    NoneChanged(Before(items), items, IsDelabeled);
    NoneChanged(Before(items), items, IsRelabeled);
    forall a ensures a !in r.removed {
      BeforeMeaning(items, a.slug);
    }
    HasMember(r.removed);
  }

  lemma NoneChanged(before: Library, after: seq<Item>, change: Change)
    requires forall e :: e in after ==> ChangeOf(before, e) == Unchanged
    requires change != Unchanged
    ensures Changed(before, after, change) == []
  {
  }

  /** After a refresh, a second one against the same charts reports no change. */
  lemma SecondRunReportsNothing(existing: seq<Item>, resources: seq<Resource>, ov: Overrides, r: Report)
    requires PlainCatalog(existing, resources) && Sync(existing, resources, ov).Synced?
    requires var first := Sync(existing, resources, ov).items;
             var second := Sync(first, resources, ov);
             second.Synced? && IsReport(Before(first), second.items, second.reasons, Unclassified(resources), r)
    ensures r.added == [] && r.removed == [] && r.delabeled == [] && r.relabeled == []
  {
    SyncIsAFixedPoint(existing, resources, ov);
    ResultHasDistinctSlugs(existing, resources, ov);
    NothingChanged(Sync(existing, resources, ov).items, Unclassified(resources), r);
  }

  lemma ResultHasDistinctSlugs(existing: seq<Item>, resources: seq<Resource>, ov: Overrides)
    requires Sync(existing, resources, ov).Synced?
    ensures DistinctSlugs(Sync(existing, resources, ov).items)
  {
    var listed := Dedupe(Labeled(resources, ov).value);
    SortedDedupe(Preserve(existing, Slugs(listed), IndexByKey(resources), ov).items + listed);
  }

  // Sizes

  lemma SizeIsSlugs(items: seq<Item>)
    requires DistinctSlugs(items)
    ensures |Slugs(items)| == |items|
  {
    ImageSize((e: Item) => e.slug, items);
    forall slug ensures slug in Slugs(items) <==> slug in Image((e: Item) => e.slug, items) {
      SlugInItems(items, slug);
    }
    assert Slugs(items) == Image((e: Item) => e.slug, items);
  }

  ghost function AppSlugs(apps: seq<App>): set<string>
  {
    Image((a: App) => a.slug, apps)
  }

  lemma AppsAreTheirSlugs(apps: seq<App>)
    requires DistinctKeys(AppKey, apps)
    ensures |AppSlugs(apps)| == |apps|
  {
    forall i, j | 0 <= i < j < |apps| ensures apps[i].slug != apps[j].slug {
      assert AppKey(apps[i]) != AppKey(apps[j]);
    }
    ImageSize((a: App) => a.slug, apps);
  }

  lemma {:induction false} ChangedIsDistinct(before: Library, after: seq<Item>, change: Change)
    requires DistinctSlugs(after)
    ensures DistinctKeys(AppKey, Changed(before, after, change))
  {
    if after != [] {
      var front, e := after[..|after| - 1], after[|after| - 1];
      assert forall i, j :: 0 <= i < j < |front| ==> front[i].slug == after[i].slug != after[j].slug == front[j].slug;
      ChangedIsDistinct(before, front, change);
      ChangedMeaning(before, front, change);
      forall a | a in Changed(before, front, change) ensures a.slug != e.slug {
        var x :| x in front && ChangeOf(before, x) == change && a == AppOf(x);
        var k :| 0 <= k < |front| && front[k] == x;
        assert after[k].slug != e.slug;
      }
      if ChangeOf(before, e) == change {
        AppendDistinct(Changed(before, front, change), AppOf(e));
      }
    }
  }

  lemma SortedApps(before: Library, after: seq<Item>, change: Change)
    requires DistinctSlugs(after)
    ensures var apps := SortBy(AppKey, Changed(before, after, change));
            && DistinctKeys(AppKey, apps) && SortedBy(AppKey, apps)
            && |AppSlugs(apps)| == |apps|
            && forall a :: a in apps <==> exists e :: e in after && ChangeOf(before, e) == change && a == AppOf(e)
  {
    var raw := Changed(before, after, change);
    var apps := SortBy(AppKey, raw);
    ChangedIsDistinct(before, after, change);
    ChangedMeaning(before, after, change);
    SortBySorts(AppKey, raw);
    DistinctKeysPermute(AppKey, raw, apps);
    AppsAreTheirSlugs(apps);
    forall a ensures a in apps <==> a in raw { SortByKeepsMembers(AppKey, raw, a); }
  }

  lemma SlugInItems(items: seq<Item>, slug: string)
    ensures slug in Slugs(items) <==> exists e :: e in items && e.slug == slug
  {
  }

  /** Added are the slugs that are new. */
  lemma AddedAreNew(existing: seq<Item>, after: seq<Item>)
    requires DistinctSlugs(after)
    ensures var apps := SortBy(AppKey, Changed(Before(existing), after, IsAdded));
            AppSlugs(apps) == Slugs(after) - Slugs(existing) && |AppSlugs(apps)| == |apps|
  {
    SortedApps(Before(existing), after, IsAdded);
    var apps := SortBy(AppKey, Changed(Before(existing), after, IsAdded));
    forall slug ensures slug in AppSlugs(apps) <==> slug in Slugs(after) - Slugs(existing) {
      SlugPlace(existing, after, slug);
      if slug in Slugs(after) - Slugs(existing) {
        var e :| e in after && e.slug == slug;
        assert AppOf(e) in apps;
      }
    }
  }

  /** Removed are those that are gone. */
  lemma RemovedAreGone(existing: seq<Item>, after: seq<Item>, reasons: Reasons, removed: seq<App>)
    requires ListsRemoved(Before(existing), after, reasons, removed)
    ensures AppSlugs(removed) == Slugs(existing) - Slugs(after) && |AppSlugs(removed)| == |removed|
  {
    AppsAreTheirSlugs(removed);
    forall slug ensures slug in AppSlugs(removed) <==> slug in Slugs(existing) - Slugs(after) {
      BeforeMeaning(existing, slug);
      if slug in Slugs(existing) - Slugs(after) { assert RemovedApp(Before(existing), slug, reasons) in removed; }
    }
  }

  /** An app in one of the other two lists was there before and still is. */
  lemma MovedWereThere(existing: seq<Item>, after: seq<Item>, change: Change)
    requires DistinctSlugs(after) && (change == IsDelabeled || change == IsRelabeled)
    ensures var slugs := AppSlugs(SortBy(AppKey, Changed(Before(existing), after, change)));
            && slugs <= Slugs(after) * Slugs(existing)
            && forall s :: s in slugs ==>
                 exists e :: e in after && e.slug == s && ChangeOf(Before(existing), e) == change
  {
    SortedApps(Before(existing), after, change);
    var apps := SortBy(AppKey, Changed(Before(existing), after, change));
    forall slug | slug in AppSlugs(apps)
      ensures slug in Slugs(after) * Slugs(existing)
              && exists e :: e in after && e.slug == slug && ChangeOf(Before(existing), e) == change
    {
      SlugPlace(existing, after, slug);
      var a :| a in apps && a.slug == slug;
      var e :| e in after && ChangeOf(Before(existing), e) == change && a == AppOf(e);
    }
  }

  lemma MovedOnce(existing: seq<Item>, after: seq<Item>)
    requires DistinctSlugs(after)
    ensures AppSlugs(SortBy(AppKey, Changed(Before(existing), after, IsDelabeled)))
         !! AppSlugs(SortBy(AppKey, Changed(Before(existing), after, IsRelabeled)))
  {
    MovedWereThere(existing, after, IsDelabeled);
    MovedWereThere(existing, after, IsRelabeled);
    AppsOfOne(after);
  }

  /** The four lists of a report, as sets of slugs. */
  lemma ListsAreTheDifference(existing: seq<Item>, after: seq<Item>, reasons: Reasons,
                              unclassified: map<string, seq<Chart>>, r: Report)
    requires DistinctSlugs(after) && IsReport(Before(existing), after, reasons, unclassified, r)
    ensures AppSlugs(r.added) == Slugs(after) - Slugs(existing)
    ensures AppSlugs(r.removed) == Slugs(existing) - Slugs(after)
    ensures AppSlugs(r.delabeled) <= Slugs(after) * Slugs(existing)
            && AppSlugs(r.relabeled) <= Slugs(after) * Slugs(existing)
    ensures AppSlugs(r.delabeled) !! AppSlugs(r.relabeled)
    ensures |AppSlugs(r.added)| == |r.added| && |AppSlugs(r.removed)| == |r.removed|
  {
    AddedAreNew(existing, after);
    RemovedAreGone(existing, after, reasons, r.removed);
    MovedWereThere(existing, after, IsDelabeled);
    MovedWereThere(existing, after, IsRelabeled);
    MovedOnce(existing, after);
  }

  lemma SlugPlace(existing: seq<Item>, after: seq<Item>, slug: string)
    ensures slug in Before(existing) <==> slug in Slugs(existing)
    ensures slug in Slugs(after) <==> exists e :: e in after && e.slug == slug
    ensures forall e :: e in after && e.slug == slug ==>
              (ChangeOf(Before(existing), e) == IsAdded <==> slug !in Slugs(existing))
  {
  }

  lemma AppsOfOne(after: seq<Item>)
    requires DistinctSlugs(after)
    ensures forall e, f :: e in after && f in after && e.slug == f.slug ==> e == f
  {
  }

  /** Nothing gets lost between a catalog with one entry per slug and its refresh: the
      size changes by what was added and removed, no app is in two of the lists, and
      every removal has one of the two reasons. */
  lemma ReportConserves(existing: seq<Item>, resources: seq<Resource>, ov: Overrides, r: Report)
    requires PlainCatalog(existing, resources) && DistinctSlugs(existing) && Sync(existing, resources, ov).Synced?
    requires var out := Sync(existing, resources, ov);
             IsReport(Before(existing), out.items, out.reasons, Unclassified(resources), r)
    ensures |Sync(existing, resources, ov).items| == |existing| + |r.added| - |r.removed|
    ensures AppSlugs(r.added) !! AppSlugs(r.removed) !! AppSlugs(r.delabeled) !! AppSlugs(r.relabeled)
    ensures forall a :: a in r.removed ==> a.reason == REASON_NOT_ON_NGC || REASON_PATH_PREFIX <= a.reason
  {
    var out := Sync(existing, resources, ov);
    ResultHasDistinctSlugs(existing, resources, ov);
    ListsAreTheDifference(existing, out.items, out.reasons, Unclassified(resources), r);
    SizeIsSlugs(existing);
    SizeIsSlugs(out.items);
    var x, y := Slugs(existing), Slugs(out.items);
    SizesDiffer(x, y);
    forall a | a in r.removed ensures a.reason == REASON_NOT_ON_NGC || REASON_PATH_PREFIX <= a.reason {
      RemovedHasReason(existing, resources, ov, a.slug);
    }
  }

  lemma SizesDiffer(x: set<string>, y: set<string>)
    ensures |y| == |x| + |y - x| - |x - y|
  {
  }

  lemma RemovedHasReason(existing: seq<Item>, resources: seq<Resource>, ov: Overrides, slug: string)
    requires PlainCatalog(existing, resources) && Sync(existing, resources, ov).Synced?
    requires slug in Before(existing) && slug !in Slugs(Sync(existing, resources, ov).items)
    ensures var reasons := Sync(existing, resources, ov).reasons;
            slug in reasons && (reasons[slug] == REASON_NOT_ON_NGC || REASON_PATH_PREFIX <= reasons[slug])
  {
    var listed := Dedupe(Labeled(resources, ov).value);
    var kept := Preserve(existing, Slugs(listed), IndexByKey(resources), ov);
    var e := Before(existing)[slug];
    BeforeMeaning(existing, slug);
    PreserveKeepsWell(existing, Slugs(listed), resources, ov);
    ResultWinners(existing, resources, ov, slug);
    SlugsAreWon(Sync(existing, resources, ov).items, slug);
    SlugsAreWon(listed, slug);
    WinnerIsBest(kept.items, slug);
    assert Covered(e, kept);
    assert slug in kept.reasons;
    assert RemovedFor(existing, slug, IndexByKey(resources), ov, kept.reasons[slug]);
  }

  // The report does not depend on the order of the charts

  function ChartsAt(path: string): Resource -> seq<Chart>
  {
    r => if LeftOut(r) && RepoPath(r) == path then [ChartOf(r)] else []
  }

  lemma {:induction false} UnclassifiedMeaning(resources: seq<Resource>, path: string)
    ensures path in Unclassified(resources) <==> FlatMap(ChartsAt(path), resources) != []
    ensures path in Unclassified(resources) ==> Unclassified(resources)[path] == FlatMap(ChartsAt(path), resources)
  {
    if resources != [] {
      var n := |resources| - 1;
      UnclassifiedMeaning(resources[..n], path);
      FlatMapStep(ChartsAt(path), resources, n);
      assert resources[..n + 1] == resources;
    }
  }

  ghost predicate DistinctIds(resources: seq<Resource>)
  {
    forall i, j :: 0 <= i < j < |resources| ==> resources[i].id != resources[j].id
  }

  lemma {:induction false} ChartsAreDistinct(resources: seq<Resource>, path: string)
    requires DistinctIds(resources)
    ensures DistinctKeys(ChartKey, FlatMap(ChartsAt(path), resources))
    ensures forall c :: c in FlatMap(ChartsAt(path), resources) ==> exists r :: r in resources && c.id == r.id
  {
    if resources != [] {
      var n := |resources| - 1;
      var front, last := resources[..n], resources[n];
      assert forall i :: 0 <= i < n ==> front[i] == resources[i];
      ChartsAreDistinct(front, path);
      FlatMapStep(ChartsAt(path), resources, n);
      assert resources[..n + 1] == resources;
      forall r | r in front ensures r in resources && r.id != last.id {
        var k :| 0 <= k < n && front[k] == r;
      }
      AddChart(FlatMap(ChartsAt(path), front), ChartOf(last));
    }
  }

  lemma AddChart(charts: seq<Chart>, c: Chart)
    requires DistinctKeys(ChartKey, charts)
    ensures (forall x :: x in charts ==> x.id != c.id) ==> DistinctKeys(ChartKey, charts + [c])
  {
  }

  /** The same charts in another order give the same report. */
  lemma ReportForgetsResourceOrder(existing: seq<Item>, a: seq<Resource>, b: seq<Resource>, ov: Overrides, r: Report,
                                   q: Report)
    requires multiset(a) == multiset(b) && DistinctResources(a) && DistinctIds(a)
    requires Sync(existing, a, ov).Synced? && Sync(existing, b, ov).Synced?
    requires IsReport(Before(existing), Sync(existing, a, ov).items, Sync(existing, a, ov).reasons, Unclassified(a), r)
    requires IsReport(Before(existing), Sync(existing, b, ov).items, Sync(existing, b, ov).reasons, Unclassified(b), q)
    ensures r == q
  {
    SyncForgetsResourceOrder(existing, a, b, ov);
    SortedSetsAgree(AppKey, r.removed, q.removed);
    forall p ensures p in r.unclassified <==> p in q.unclassified {
      UnclassifiedForgetsOrder(a, b, p.path);
    }
    SortedSetsAgree(PathKey, r.unclassified, q.unclassified);
  }

  lemma UnclassifiedForgetsOrder(a: seq<Resource>, b: seq<Resource>, path: string)
    requires multiset(a) == multiset(b) && DistinctIds(a)
    ensures path in Unclassified(a) <==> path in Unclassified(b)
    ensures path in Unclassified(a) ==>
              SortBy(ChartKey, Unclassified(a)[path]) == SortBy(ChartKey, Unclassified(b)[path])
  {
    UnclassifiedMeaning(a, path);
    UnclassifiedMeaning(b, path);
    FlatMapPermute(ChartsAt(path), a, b);
    ChartsAreDistinct(a, path);
    var x, y := FlatMap(ChartsAt(path), a), FlatMap(ChartsAt(path), b);
    assert |multiset(x)| == |x| && |multiset(y)| == |y|;
    SortForgetsOrder(ChartKey, x, y);
  }
}
