/** What a refresh of the catalog guarantees: one best entry per slug, a result that a
    second refresh leaves alone, and no dependence on the order NGC lists its charts in. */
module CatalogRefresh {
  import opened Ordering
  import opened Workload
  import opened CatalogSync

  // The best entry per slug

  lemma StrLtTotal(a: string, b: string)
    ensures a == b || StrLt(a, b) || StrLt(b, a)
    ensures !(StrLt(a, b) && StrLt(b, a)) && !StrLt(a, a)
  {
    StrLeTotal(a, b);
    if StrLe(a, b) && StrLe(b, a) { StrLeAntisymmetric(a, b); }
  }

  lemma StrLtTransitive(a: string, b: string, c: string)
    requires StrLt(a, b) && StrLt(b, c)
    ensures StrLt(a, c)
  {
    StrLeTransitive(a, b, c);
    if a == c { StrLeAntisymmetric(a, b); }
  }

  /** Preference is a strict order that only repository URLs decide. */
  lemma PreferIsStrict(x: Item, y: Item, z: Item)
    ensures !(PreferOver(x, y) && PreferOver(y, x))
    ensures PreferOver(x, y) && PreferOver(y, z) ==> PreferOver(x, z)
    ensures !PreferOver(x, y) && !PreferOver(y, x) ==> x.repositoryURL == y.repositoryURL
    ensures x.repositoryURL == y.repositoryURL ==>
              !PreferOver(x, y) && (PreferOver(x, z) <==> PreferOver(y, z)) && (PreferOver(z, x) <==> PreferOver(z, y))
  {
    StrLtTotal(x.repositoryURL, y.repositoryURL);
    StrLtTotal(y.repositoryURL, z.repositoryURL);
    if StrLt(x.repositoryURL, y.repositoryURL) && StrLt(y.repositoryURL, z.repositoryURL) {
      StrLtTransitive(x.repositoryURL, y.repositoryURL, z.repositoryURL);
    }
  }

  function Better(x: Option<Item>, y: Option<Item>): Option<Item>
  {
    if y.None? then x else if x.None? then y else if PreferOver(y.value, x.value) then y else x
  }

  /** The entry that stands for a slug: the first of the most preferred ones. */
  function Winner(items: seq<Item>, slug: string): Option<Item>
  {
    if items == [] then None
    else
      var front, last := Winner(items[..|items| - 1], slug), items[|items| - 1];
      if last.slug == slug then Better(front, Some(last)) else front
  }

  lemma {:induction false} WinnerIsBest(items: seq<Item>, slug: string)
    ensures match Winner(items, slug)
            case None => forall x :: x in items ==> x.slug != slug
            case Some(w) =>
              w in items && w.slug == slug && forall x :: x in items && x.slug == slug ==> !PreferOver(x, w)
  {
    if items != [] {
      var front, last := items[..|items| - 1], items[|items| - 1];
      WinnerIsBest(front, slug);
      assert items == front + [last];
      if last.slug == slug && Winner(front, slug).Some? {
        var w := Winner(front, slug).value;
        PreferIsStrict(last, w, w);
        forall x | x in front && x.slug == slug ensures PreferOver(last, w) ==> !PreferOver(x, last) {
          PreferIsStrict(x, last, w);
        }
        PreferIsStrict(last, last, last);
      } else if last.slug == slug {
        PreferIsStrict(last, last, last);
      }
    }
  }

  predicate FromNimNvidia(x: Item)
  {
    TrimRightSlash(x.repositoryURL) == NGC_HELM_BASE + "/nim/nvidia"
  }

  /** A slug's entry comes from the nim/nvidia repository if any of its entries does, and
      among equals from the smallest URL. */
  lemma NimNvidiaWins(items: seq<Item>, slug: string)
    requires Winner(items, slug).Some?
    ensures FromNimNvidia(Winner(items, slug).value) <==> exists x :: x in items && x.slug == slug && FromNimNvidia(x)
    ensures forall x :: x in items && x.slug == slug && FromNimNvidia(x) == FromNimNvidia(Winner(items, slug).value) ==>
              StrLe(Winner(items, slug).value.repositoryURL, x.repositoryURL)
  {
    WinnerIsBest(items, slug);
    var w := Winner(items, slug).value;
    forall x | x in items && x.slug == slug && FromNimNvidia(x) == FromNimNvidia(w)
      ensures StrLe(w.repositoryURL, x.repositoryURL)
    {
      assert !PreferOver(x, w);
      StrLeTotal(w.repositoryURL, x.repositoryURL);
    }
    assert forall x :: x in items && x.slug == slug ==> !PreferOver(x, w);
  }

  predicate DistinctSlugs(items: seq<Item>)
  {
    forall i, j :: 0 <= i < j < |items| ==> items[i].slug != items[j].slug
  }

  lemma {:induction false} SlugIndexMeaning(items: seq<Item>, slug: string)
    ensures SlugIndex(items, slug) < 0 <==> forall x :: x in items ==> x.slug != slug
  {
    if items != [] {
      SlugIndexMeaning(items[..|items| - 1], slug);
      assert items == items[..|items| - 1] + [items[|items| - 1]];
    }
  }

  /** Deduplication leaves one entry per slug, and it is the winner. */
  lemma {:induction false} DedupeKeepsWinners(items: seq<Item>)
    ensures DistinctSlugs(Dedupe(items))
    ensures forall x :: x in Dedupe(items) <==> Winner(items, x.slug) == Some(x)
  {
    if items != [] {
      var front, last := items[..|items| - 1], items[|items| - 1];
      DedupeKeepsWinners(front);
      CollapseKeepsWinners(front, last);
    }
  }

  lemma UpdateMembers(before: seq<Item>, i: nat, y: Item)
    requires DistinctSlugs(before) && i < |before| && before[i].slug == y.slug
    ensures DistinctSlugs(before[i := y])
    ensures forall x :: x in before[i := y] <==> if x.slug == y.slug then x == y else x in before
  {
    var out := before[i := y];
    forall x ensures x in out <==> if x.slug == y.slug then x == y else x in before {
      assert out[i] == y;
      assert forall j :: 0 <= j < |out| && j != i ==> out[j] == before[j] && out[j].slug != y.slug;
    }
  }

  lemma CollapseKeepsWinners(front: seq<Item>, last: Item)
    requires DistinctSlugs(Dedupe(front))
    requires forall x :: x in Dedupe(front) <==> Winner(front, x.slug) == Some(x)
    ensures var out := Collapse(Dedupe(front), last);
            DistinctSlugs(out) && forall x :: x in out <==> Winner(front + [last], x.slug) == Some(x)
  {
    var before, i := Dedupe(front), SlugIndex(Dedupe(front), last.slug);
    assert (front + [last])[..|front|] == front;
    SlugIndexMeaning(before, last.slug);
    WinnerIsBest(front, last.slug);
    if i >= 0 {
      assert before[i] in before;
      var w := if PreferOver(last, before[i]) then last else before[i];
      UpdateMembers(before, i, w);
      assert before[i := before[i]] == before;
      assert Collapse(before, last) == before[i := w];
    } else {
      assert forall w :: Winner(front, last.slug) == Some(w) ==> w in before;
      assert forall x :: x in before + [last] <==> x in before || x == last;
      CollapseAppends(before, last);
    }
  }

  lemma CollapseAppends(before: seq<Item>, last: Item)
    requires DistinctSlugs(before) && forall x :: x in before ==> x.slug != last.slug
    ensures DistinctSlugs(before + [last])
  {
  }

  lemma {:induction false} WinnerOfDistinct(items: seq<Item>, x: Item)
    requires DistinctSlugs(items)
    ensures x in items <==> Winner(items, x.slug) == Some(x)
  {
    WinnerIsBest(items, x.slug);
    if x in items && Winner(items, x.slug).Some? {
      var w := Winner(items, x.slug).value;
      var i :| 0 <= i < |items| && items[i] == x;
      var j :| 0 <= j < |items| && items[j] == w;
    }
  }

  lemma BetterIsAssociative(x: Option<Item>, y: Option<Item>, z: Option<Item>)
    ensures Better(Better(x, y), z) == Better(x, Better(y, z))
  {
    if x.Some? && y.Some? && z.Some? {
      PreferIsStrict(z.value, y.value, x.value);
      PreferIsStrict(y.value, x.value, z.value);
      PreferIsStrict(z.value, x.value, y.value);
      PreferIsStrict(x.value, y.value, z.value);
    }
  }

  lemma {:induction false} WinnerOfBoth(a: seq<Item>, b: seq<Item>, slug: string)
    ensures Winner(a + b, slug) == Better(Winner(a, slug), Winner(b, slug))
  {
    if b == [] {
      assert a + b == a;
    } else {
      var front, last := b[..|b| - 1], b[|b| - 1];
      WinnerOfBoth(a, front, slug);
      assert (a + b)[..|a + b| - 1] == a + front;
      BetterIsAssociative(Winner(a, slug), Winner(front, slug), Some(last));
    }
  }

  /** What is shown is a function of the winners alone. */
  lemma SortedWinnersAgree(a: seq<Item>, b: seq<Item>)
    requires forall slug :: Winner(a, slug) == Winner(b, slug)
    ensures SortBy(SlugKey, Dedupe(a)) == SortBy(SlugKey, Dedupe(b))
  {
    SortedDedupe(a);
    SortedDedupe(b);
    SortedSetsAgree(SlugKey, SortBy(SlugKey, Dedupe(a)), SortBy(SlugKey, Dedupe(b)));
  }

  lemma SortedDedupe(a: seq<Item>)
    ensures var out := SortBy(SlugKey, Dedupe(a));
            && SortedBy(SlugKey, out) && DistinctKeys(SlugKey, out) && DistinctSlugs(out)
            && forall x :: x in out <==> Winner(a, x.slug) == Some(x)
  {
    DedupeKeepsWinners(a);
    SortedDistinct(Dedupe(a));
  }

  lemma SortedDistinct(items: seq<Item>)
    requires DistinctSlugs(items)
    ensures var out := SortBy(SlugKey, items);
            && SortedBy(SlugKey, out) && DistinctKeys(SlugKey, out) && DistinctSlugs(out)
            && forall x :: x in out <==> x in items
  {
    var out := SortBy(SlugKey, items);
    SortBySorts(SlugKey, items);
    forall i, j | 0 <= i < j < |items| ensures SlugKey(items[i]) != SlugKey(items[j]) {
      assert SlugKey(items[i])[0] != SlugKey(items[j])[0];
    }
    DistinctKeysPermute(SlugKey, items, out);
    forall i, j | 0 <= i < j < |out| ensures out[i].slug != out[j].slug {
      assert SlugKey(out[i]) != SlugKey(out[j]);
    }
    forall x ensures x in out <==> x in items { SortByKeepsMembers(SlugKey, items, x); }
  }

  // Listed charts

  lemma BuiltFrom(res: Resource, supported: bool, ov: Overrides)
    requires BuildOwned(res, supported, ov).Some?
    ensures var it := BuildOwned(res, supported, ov).value;
            it.slug == res.name && it.repositoryURL == RepoURL(res) && IsOwned(it)
  {
  }

  lemma {:induction false} LabeledMeaning(resources: seq<Resource>, ov: Overrides)
    ensures Labeled(resources, ov).None? <==> exists r :: r in resources && Listed(r) && BuildOwned(r, true, ov).None?
    ensures Labeled(resources, ov).Some? ==>
              forall it :: it in Labeled(resources, ov).value <==>
                exists r :: r in resources && Listed(r) && BuildOwned(r, true, ov) == Some(it)
  {
    if resources != [] {
      var front, last := resources[..|resources| - 1], resources[|resources| - 1];
      LabeledMeaning(front, ov);
      assert resources == front + [last];
      assert last in resources;
      forall r ensures r in resources <==> r in front || r == last {}
    }
  }

  ghost predicate DistinctResources(resources: seq<Resource>)
  {
    forall i, j :: 0 <= i < j < |resources| ==> ResourceKey(resources[i]) != ResourceKey(resources[j])
  }

  lemma SameKeySameResource(resources: seq<Resource>, r: Resource, q: Resource)
    requires DistinctResources(resources) && r in resources && q in resources && ResourceKey(r) == ResourceKey(q)
    ensures r == q
  {
  }

  lemma {:induction false} IndexHolds(resources: seq<Resource>, key: string)
    requires key in IndexByKey(resources)
    ensures IndexByKey(resources)[key] in resources && ResourceKey(IndexByKey(resources)[key]) == key
  {
    var front, last := resources[..|resources| - 1], resources[|resources| - 1];
    if ResourceKey(last) != key {
      IndexHolds(front, key);
      assert resources == front + [last];
    }
  }

  lemma {:induction false} IndexHas(resources: seq<Resource>, r: Resource)
    requires r in resources
    ensures ResourceKey(r) in IndexByKey(resources)
  {
    var front, last := resources[..|resources| - 1], resources[|resources| - 1];
    assert resources == front + [last];
    if r in front {
      IndexHas(front, r);
    }
  }

  lemma IndexMeaning(resources: seq<Resource>, key: string)
    ensures key in IndexByKey(resources) <==> exists r :: r in resources && ResourceKey(r) == key
    ensures key in IndexByKey(resources) ==>
              IndexByKey(resources)[key] in resources && ResourceKey(IndexByKey(resources)[key]) == key
  {
  }

  lemma IndexForgetsOrder(a: seq<Resource>, b: seq<Resource>)
    requires multiset(a) == multiset(b) && DistinctResources(a)
    ensures IndexByKey(a) == IndexByKey(b)
  {
    assert forall r :: r in a <==> r in multiset(b);
    forall key ensures key in IndexByKey(a) <==> key in IndexByKey(b) {
      IndexMeaning(a, key);
      IndexMeaning(b, key);
    }
    forall key | key in IndexByKey(a) ensures IndexByKey(a)[key] == IndexByKey(b)[key] {
      IndexMeaning(a, key);
      IndexMeaning(b, key);
      SameKeySameResource(a, IndexByKey(a)[key], IndexByKey(b)[key]);
    }
  }

  /** Two listed entries with one slug and one repository come from one chart. */
  lemma ListedAreIdentified(resources: seq<Resource>, ov: Overrides, x: Item, y: Item)
    requires DistinctResources(resources) && Labeled(resources, ov).Some?
    requires x in Labeled(resources, ov).value && y in Labeled(resources, ov).value
    requires x.slug == y.slug && x.repositoryURL == y.repositoryURL
    ensures x == y
  {
    LabeledMeaning(resources, ov);
    var r :| r in resources && Listed(r) && BuildOwned(r, true, ov) == Some(x);
    var q :| q in resources && Listed(q) && BuildOwned(q, true, ov) == Some(y);
    BuiltFrom(r, true, ov);
    BuiltFrom(q, true, ov);
    assert RepoPath(r) == RepoURL(r)[|NGC_HELM_BASE|..] && RepoPath(q) == RepoURL(q)[|NGC_HELM_BASE|..];
    SameKeySameResource(resources, r, q);
  }

  lemma ListedWinnersAgree(a: seq<Resource>, b: seq<Resource>, ov: Overrides, slug: string)
    requires multiset(a) == multiset(b) && DistinctResources(a)
    requires Labeled(a, ov).Some? && Labeled(b, ov).Some?
    ensures Winner(Labeled(a, ov).value, slug) == Winner(Labeled(b, ov).value, slug)
  {
    var x, y := Labeled(a, ov).value, Labeled(b, ov).value;
    assert forall r :: r in a <==> r in multiset(b);
    LabeledMeaning(a, ov);
    LabeledMeaning(b, ov);
    assert forall it :: it in x <==> it in y;
    WinnerIsBest(x, slug);
    WinnerIsBest(y, slug);
    if Winner(x, slug).Some? {
      var u, v := Winner(x, slug).value, Winner(y, slug).value;
      PreferIsStrict(u, v, v);
      ListedAreIdentified(a, ov, u, v);
    }
  }

  /** Listing the charts in any other order gives the same library and the same reasons,
      or fails in the same way. */
  lemma SyncForgetsResourceOrder(existing: seq<Item>, a: seq<Resource>, b: seq<Resource>, ov: Overrides)
    requires multiset(a) == multiset(b) && DistinctResources(a)
    ensures Sync(existing, a, ov) == Sync(existing, b, ov)
  {
    IndexForgetsOrder(a, b);
    LabeledMeaning(a, ov);
    LabeledMeaning(b, ov);
    assert forall r :: r in a <==> r in multiset(b);
    if Labeled(a, ov).Some? {
      var x, y := Dedupe(Labeled(a, ov).value), Dedupe(Labeled(b, ov).value);
      ListedAgree(a, b, ov);
      var kept := Preserve(existing, Slugs(x), IndexByKey(a), ov);
      if kept.Preserved? {
        forall slug ensures Winner(kept.items + x, slug) == Winner(kept.items + y, slug) {
          WinnerOfBoth(kept.items, x, slug);
          WinnerOfBoth(kept.items, y, slug);
        }
        SortedWinnersAgree(kept.items + x, kept.items + y);
      }
    }
  }

  lemma ListedAgree(a: seq<Resource>, b: seq<Resource>, ov: Overrides)
    requires multiset(a) == multiset(b) && DistinctResources(a)
    requires Labeled(a, ov).Some? && Labeled(b, ov).Some?
    ensures var x, y := Dedupe(Labeled(a, ov).value), Dedupe(Labeled(b, ov).value);
            Slugs(x) == Slugs(y) && forall slug :: Winner(x, slug) == Winner(y, slug)
  {
    var x, y := Dedupe(Labeled(a, ov).value), Dedupe(Labeled(b, ov).value);
    forall slug ensures Winner(x, slug) == Winner(y, slug) {
      ListedWinnersAgree(a, b, ov, slug);
      DedupeIsTransparent(Labeled(a, ov).value, slug);
      DedupeIsTransparent(Labeled(b, ov).value, slug);
    }
    forall slug ensures slug in Slugs(x) <==> slug in Slugs(y) {
      SlugsAreWon(x, slug);
      SlugsAreWon(y, slug);
    }
  }

  lemma DedupeIsTransparent(items: seq<Item>, slug: string)
    ensures Winner(Dedupe(items), slug) == Winner(items, slug)
  {
    DedupeKeepsWinners(items);
    WinnerIsBest(items, slug);
    WinnerIsBest(Dedupe(items), slug);
    if Winner(items, slug).Some? {
      WinnerOfDistinct(Dedupe(items), Winner(items, slug).value);
    }
  }

  lemma SlugsAreWon(items: seq<Item>, slug: string)
    ensures slug in Slugs(items) <==> Winner(items, slug).Some?
  {
  }

  // Entries keep pointing at their chart

  /** Names a URL path can carry: no slash, no space. */
  predicate Plain(s: string)
  {
    forall i :: 0 <= i < |s| ==> s[i] != '/' && !IsSpace(s[i])
  }

  predicate PlainResource(res: Resource)
  {
    Plain(res.org) && Plain(res.team) && '/' !in res.name
  }

  lemma RepoPathEnds(res: Resource)
    requires PlainResource(res)
    ensures var p := RepoPath(res);
            p != "" && p[0] == '/' && !IsSpace(p[|p| - 1]) && (p[|p| - 1] == '/' <==> p == "/")
  {
  }

  /** The path read back from a generated URL; only the empty path loses its slash. */
  lemma PathReadsBack(res: Resource)
    requires PlainResource(res)
    ensures NGCPath(RepoURL(res)) == Some(if RepoPath(res) == "/" then "" else RepoPath(res))
  {
    RepoPathEnds(res);
    var url, p := RepoURL(res), RepoPath(res);
    assert url[0] == 'h' && url[|url| - 1] == p[|p| - 1];
    assert TrimRight(TrimLeft(url)) == url;
    if p == "/" {
      assert url[..|url| - 1] == NGC_HELM_BASE;
      assert TrimRightSlash(NGC_HELM_BASE) == NGC_HELM_BASE;
      assert TrimRightSlash(url) == NGC_HELM_BASE && NGC_HELM_BASE[|NGC_HELM_BASE|..] == "";
    } else {
      assert TrimRightSlash(url) == url;
      assert url[|NGC_HELM_BASE|..] == p && url[|NGC_HELM_BASE|] == '/';
    }
  }

  lemma NothingDeployableAtTheRoot()
    ensures !Deployable("") && !Deployable("/")
  {
  }

  function AfterLastSlash(s: string): string
  {
    if s == "" || s[|s| - 1] == '/' then "" else AfterLastSlash(s[..|s| - 1]) + [s[|s| - 1]]
  }

  lemma {:induction false} LastSlashIsThere(p: string, m: string)
    requires '/' !in m
    ensures AfterLastSlash(p + "/" + m) == m
  {
    var u := p + "/" + m;
    if m == "" {
      assert u == p + "/";
    } else {
      assert u[..|u| - 1] == p + "/" + m[..|m| - 1] && u[|u| - 1] == m[|m| - 1];
      assert m[|m| - 1] in m;
      LastSlashIsThere(p, m[..|m| - 1]);
      assert m == m[..|m| - 1] + [m[|m| - 1]];
    }
  }

  lemma LastSlashSplits(p: string, m: string, q: string, n: string)
    requires '/' !in m && '/' !in n && p + "/" + m == q + "/" + n
    ensures p == q && m == n
  {
    LastSlashIsThere(p, m);
    LastSlashIsThere(q, n);
    assert p == (p + "/" + m)[..|p|] && q == (q + "/" + n)[..|q|];
  }

  lemma PathStarts(repositoryURL: string)
    requires NGCPath(repositoryURL).Some?
    ensures NGCPath(repositoryURL).value == "" || NGCPath(repositoryURL).value[0] == '/'
  {
  }

  /** An owned entry finds the chart it was built from, under its own slug. */
  lemma KeyFindsChart(e: Item, res: Resource)
    requires PlainResource(res) && '/' !in e.slug && NGCPath(e.repositoryURL).Some?
    requires OwnedKey(NGCPath(e.repositoryURL).value, e.slug) == ResourceKey(res)
    ensures e.slug == res.name
    ensures Deployable(NGCPath(e.repositoryURL).value) <==> Deployable(RepoPath(res))
  {
    var p, q := NGCPath(e.repositoryURL).value, RepoPath(res);
    PathStarts(e.repositoryURL);
    RepoPathEnds(res);
    LastSlashSplits(TrimPrefixSlash(p), e.slug, TrimPrefixSlash(q), res.name);
    NothingDeployableAtTheRoot();
    if p != "" {
      assert p == "/" + TrimPrefixSlash(p) && q == "/" + TrimPrefixSlash(q);
    } else {
      assert q == "/" + TrimPrefixSlash(q);
    }
  }

  lemma BuiltKeepsKey(res: Resource, supported: bool, ov: Overrides)
    requires PlainResource(res) && BuildOwned(res, supported, ov).Some?
    ensures var it := BuildOwned(res, supported, ov).value;
            && NGCPath(it.repositoryURL).Some?
            && OwnedKey(NGCPath(it.repositoryURL).value, it.slug) == ResourceKey(res)
            && (Deployable(NGCPath(it.repositoryURL).value) <==> Deployable(RepoPath(res)))
  {
    BuiltFrom(res, supported, ov);
    PathReadsBack(res);
    NothingDeployableAtTheRoot();
  }

  // What is kept, and that it stays

  ghost predicate PlainCatalog(existing: seq<Item>, resources: seq<Resource>)
  {
    && (forall r :: r in resources ==> PlainResource(r))
    && forall e :: e in existing && IsOwned(e) ==> '/' !in e.slug
  }

  /** Another refresh keeps this entry as it is. */
  predicate Settled(e: Item, byKey: ByKey, ov: Overrides)
  {
    IsOwned(e) ==> ReconcileOwned(e, byKey, ov) == Keep(e)
  }

  lemma KeptIsSettled(e: Item, resources: seq<Resource>, ov: Overrides)
    requires IsOwned(e) && '/' !in e.slug && forall r :: r in resources ==> PlainResource(r)
    requires ReconcileOwned(e, IndexByKey(resources), ov).Keep?
    ensures var it := ReconcileOwned(e, IndexByKey(resources), ov).item;
            && it.slug == e.slug && IsOwned(it) && !HasSupported(it.labels)
            && Settled(it, IndexByKey(resources), ov)
  {
    var key := OwnedKey(NGCPath(e.repositoryURL).value, e.slug);
    IndexMeaning(resources, key);
    var res := IndexByKey(resources)[key];
    KeyFindsChart(e, res);
    BuiltFrom(res, false, ov);
    BuiltKeepsKey(res, false, ov);
    NoChip(ApplyOverride(ov, Derive(res)).value.labels);
  }

  lemma {:induction false} NoChip(labels: seq<Label>)
    ensures !HasSupported(WithoutSupported(labels))
  {
    if labels != [] {
      NoChip(labels[..|labels| - 1]);
    }
  }

  /** An entry that was kept: it stands for an existing one, and will stay. */
  ghost predicate StandsFor(x: Item, existing: seq<Item>, labeled: set<string>, byKey: ByKey, ov: Overrides)
  {
    && x.slug !in labeled && Settled(x, byKey, ov) && (IsOwned(x) ==> !HasSupported(x.labels))
    && exists e :: e in existing && e.slug == x.slug && (IsOwned(e) || e == x)
  }

  /** An existing entry that is not listed was kept, or there is a reason it was not. */
  ghost predicate Covered(e: Item, p: Preserved)
    requires p.Preserved?
  {
    e.slug in p.reasons || exists x :: x in p.items && x.slug == e.slug && (IsOwned(e) || x == e)
  }

  ghost predicate RemovedFor(existing: seq<Item>, slug: string, byKey: ByKey, ov: Overrides, reason: string)
  {
    exists e :: e in existing && e.slug == slug && IsRemoved(e, byKey, ov, reason)
  }

  predicate IsRemoved(e: Item, byKey: ByKey, ov: Overrides, reason: string)
  {
    IsOwned(e) && ReconcileOwned(e, byKey, ov) == Remove(reason)
  }

  /** What the pass over the existing entries leaves. */
  ghost predicate WellKept(p: Preserved, existing: seq<Item>, labeled: set<string>, byKey: ByKey, ov: Overrides)
    requires p.Preserved?
  {
    && (forall x :: x in p.items ==> StandsFor(x, existing, labeled, byKey, ov))
    && (forall e :: e in existing && e.slug !in labeled ==> Covered(e, p))
    && forall s :: s in p.reasons ==> RemovedFor(existing, s, byKey, ov, p.reasons[s])
  }

  lemma {:induction false} PreserveKeepsWell(existing: seq<Item>, labeled: set<string>, resources: seq<Resource>,
                                             ov: Overrides)
    requires PlainCatalog(existing, resources)
    requires Preserve(existing, labeled, IndexByKey(resources), ov).Preserved?
    ensures WellKept(Preserve(existing, labeled, IndexByKey(resources), ov), existing, labeled, IndexByKey(resources),
                     ov)
  {
    if existing != [] {
      var front, e := existing[..|existing| - 1], existing[|existing| - 1];
      assert existing == front + [e];
      assert e in existing;
      PreserveKeepsWell(front, labeled, resources, ov);
      PreserveOneKeepsWell(Preserve(front, labeled, IndexByKey(resources), ov), front, e, labeled, resources, ov);
    }
  }

  lemma Grown(p: Preserved, q: Preserved, front: seq<Item>, e: Item, labeled: set<string>, byKey: ByKey, ov: Overrides)
    requires p.Preserved? && q.Preserved? && WellKept(p, front, labeled, byKey, ov)
    requires forall x :: x in p.items ==> x in q.items
    requires forall s :: s in p.reasons ==> s in q.reasons
    ensures forall x :: x in p.items ==> StandsFor(x, front + [e], labeled, byKey, ov)
    ensures forall d :: d in front && d.slug !in labeled ==> Covered(d, q)
    ensures forall s :: s in p.reasons ==> RemovedFor(front + [e], s, byKey, ov, p.reasons[s])
  {
  }

  lemma AppendKeepsWell(p: Preserved, front: seq<Item>, e: Item, it: Item, labeled: set<string>, byKey: ByKey,
                        ov: Overrides)
    requires p.Preserved? && WellKept(p, front, labeled, byKey, ov)
    requires it.slug == e.slug && e.slug !in labeled && (IsOwned(e) || it == e)
    requires Settled(it, byKey, ov) && (IsOwned(it) ==> !HasSupported(it.labels))
    ensures WellKept(p.(items := p.items + [it]), front + [e], labeled, byKey, ov)
  {
  }

  lemma RemoveKeepsWell(p: Preserved, front: seq<Item>, e: Item, reason: string, labeled: set<string>, byKey: ByKey,
                        ov: Overrides)
    requires p.Preserved? && WellKept(p, front, labeled, byKey, ov)
    requires IsRemoved(e, byKey, ov, reason)
    ensures WellKept(p.(reasons := p.reasons[e.slug := reason]), front + [e], labeled, byKey, ov)
  {
  }

  lemma PreserveOneKeepsWell(p: Preserved, front: seq<Item>, e: Item, labeled: set<string>, resources: seq<Resource>,
                             ov: Overrides)
    requires PlainCatalog(front + [e], resources)
    requires p.Preserved? && WellKept(p, front, labeled, IndexByKey(resources), ov)
    requires PreserveOne(p, e, labeled, IndexByKey(resources), ov).Preserved?
    ensures WellKept(PreserveOne(p, e, labeled, IndexByKey(resources), ov), front + [e], labeled, IndexByKey(resources),
                     ov)
  {
    var byKey := IndexByKey(resources);
    assert e in front + [e];
    if e.slug in labeled {
      assert forall d :: d in front + [e] <==> d in front || d == e;
      Grown(p, p, front, e, labeled, byKey, ov);
    } else if !IsOwned(e) {
      AppendKeepsWell(p, front, e, e, labeled, byKey, ov);
    } else if ReconcileOwned(e, byKey, ov).Keep? {
      KeptIsSettled(e, resources, ov);
      AppendKeepsWell(p, front, e, ReconcileOwned(e, byKey, ov).item, labeled, byKey, ov);
    } else {
      RemoveKeepsWell(p, front, e, ReconcileOwned(e, byKey, ov).reason, labeled, byKey, ov);
    }
  }

  /** Entries that are settled and not listed pass through a refresh unchanged. */
  lemma {:induction false} SettledPassThrough(items: seq<Item>, labeled: set<string>, byKey: ByKey, ov: Overrides)
    requires forall x :: x in items && x.slug !in labeled ==> Settled(x, byKey, ov)
    ensures Preserve(items, labeled, byKey, ov) == Preserved(Unlisted(items, labeled), map[])
  {
    if items != [] {
      assert items == items[..|items| - 1] + [items[|items| - 1]];
      assert items[|items| - 1] in items;
      SettledPassThrough(items[..|items| - 1], labeled, byKey, ov);
    }
  }

  function Unlisted(items: seq<Item>, labeled: set<string>): seq<Item>
  {
    if items == [] then []
    else
      var front, last := Unlisted(items[..|items| - 1], labeled), items[|items| - 1];
      if last.slug in labeled then front else front + [last]
  }

  lemma {:induction false} UnlistedWinner(items: seq<Item>, labeled: set<string>, slug: string)
    ensures Winner(Unlisted(items, labeled), slug) == if slug in labeled then None else Winner(items, slug)
  {
    if items != [] {
      UnlistedWinner(items[..|items| - 1], labeled, slug);
    }
  }

  /** Every slug of the result is won by a listed entry if there is one, and else by what
      was kept. */
  lemma ResultWinners(existing: seq<Item>, resources: seq<Resource>, ov: Overrides, slug: string)
    requires PlainCatalog(existing, resources) && Sync(existing, resources, ov).Synced?
    ensures var listed := Dedupe(Labeled(resources, ov).value);
            var kept := Preserve(existing, Slugs(listed), IndexByKey(resources), ov);
            Winner(Sync(existing, resources, ov).items, slug) ==
            if slug in Slugs(listed) then Winner(listed, slug) else Winner(kept.items, slug)
  {
    var listed := Dedupe(Labeled(resources, ov).value);
    var kept := Preserve(existing, Slugs(listed), IndexByKey(resources), ov);
    PreserveKeepsWell(existing, Slugs(listed), resources, ov);
    WinnerOfBoth(kept.items, listed, slug);
    SlugsAreWon(listed, slug);
    WinnerIsBest(kept.items, slug);
    var both := kept.items + listed;
    SortedDedupe(both);
    WinnerIsBest(both, slug);
    WinnerIsBest(SortBy(SlugKey, Dedupe(both)), slug);
    if Winner(both, slug).Some? {
      WinnerOfDistinct(SortBy(SlugKey, Dedupe(both)), Winner(both, slug).value);
    }
  }

  lemma ResultIsSettled(existing: seq<Item>, resources: seq<Resource>, ov: Overrides, x: Item)
    requires PlainCatalog(existing, resources) && Sync(existing, resources, ov).Synced?
    requires x in Sync(existing, resources, ov).items
    ensures var listed := Dedupe(Labeled(resources, ov).value);
            var kept := Preserve(existing, Slugs(listed), IndexByKey(resources), ov);
            if x.slug in Slugs(listed) then x in listed else x in kept.items && Settled(x, IndexByKey(resources), ov)
  {
    var listed := Dedupe(Labeled(resources, ov).value);
    var kept := Preserve(existing, Slugs(listed), IndexByKey(resources), ov);
    PreserveKeepsWell(existing, Slugs(listed), resources, ov);
    ResultWinners(existing, resources, ov, x.slug);
    SortedDedupe(kept.items + listed);
    WinnerOfDistinct(Sync(existing, resources, ov).items, x);
    WinnerIsBest(listed, x.slug);
    WinnerIsBest(kept.items, x.slug);
  }

  /** Refreshing the result of a refresh, against the same charts and overrides, gives the
      same library back and removes nothing. */
  lemma SyncIsAFixedPoint(existing: seq<Item>, resources: seq<Resource>, ov: Overrides)
    requires PlainCatalog(existing, resources) && Sync(existing, resources, ov).Synced?
    ensures var out := Sync(existing, resources, ov).items;
            Sync(out, resources, ov) == Synced(out, map[])
  {
    var out := Sync(existing, resources, ov).items;
    var listed := Dedupe(Labeled(resources, ov).value);
    var byKey := IndexByKey(resources);
    forall x | x in out && x.slug !in Slugs(listed) ensures Settled(x, byKey, ov) {
      ResultIsSettled(existing, resources, ov, x);
    }
    SettledPassThrough(out, Slugs(listed), byKey, ov);
    var rest := Unlisted(out, Slugs(listed));
    forall slug ensures Winner(rest + listed, slug) == Winner(out, slug) {
      WinnerOfBoth(rest, listed, slug);
      UnlistedWinner(out, Slugs(listed), slug);
      ResultWinners(existing, resources, ov, slug);
      SlugsAreWon(listed, slug);
    }
    SortedWinnersAgree(rest + listed, out);
    var both := Preserve(existing, Slugs(listed), byKey, ov).items + listed;
    SortedDedupe(both);
    SortAgain(out);
  }

  lemma SortAgain(out: seq<Item>)
    requires SortedBy(SlugKey, out) && DistinctKeys(SlugKey, out) && DistinctSlugs(out)
    ensures SortBy(SlugKey, Dedupe(out)) == out
  {
    SortedDedupe(out);
    forall x ensures x in out <==> x in SortBy(SlugKey, Dedupe(out)) { WinnerOfDistinct(out, x); }
    SortedSetsAgree(SlugKey, SortBy(SlugKey, Dedupe(out)), out);
  }

  /** An owned entry of the result has the chip exactly when NGC has a supported chart of
      that name on a deployable path. */
  lemma ChipMeansSupported(existing: seq<Item>, resources: seq<Resource>, ov: Overrides, x: Item)
    requires PlainCatalog(existing, resources) && Sync(existing, resources, ov).Synced?
    requires x in Sync(existing, resources, ov).items && IsOwned(x)
    ensures HasSupported(x.labels) <==> exists r :: r in resources && Listed(r) && r.name == x.slug
  {
    var labeled := Labeled(resources, ov).value;
    var listed := Dedupe(labeled);
    LabeledMeaning(resources, ov);
    DedupeKeepsWinners(labeled);
    ResultIsSettled(existing, resources, ov, x);
    if x.slug in Slugs(listed) {
      WinnerIsBest(labeled, x.slug);
      var r :| r in resources && Listed(r) && BuildOwned(r, true, ov) == Some(x);
      BuiltFrom(r, true, ov);
      ChipIsThere(r, ov);
    } else {
      PreserveKeepsWell(existing, Slugs(listed), resources, ov);
      if exists r :: r in resources && Listed(r) && r.name == x.slug {
        var r :| r in resources && Listed(r) && r.name == x.slug;
        ListedIsLabeled(resources, ov, r);
      }
    }
  }

  lemma ChipIsThere(res: Resource, ov: Overrides)
    requires BuildOwned(res, true, ov).Some?
    ensures HasSupported(BuildOwned(res, true, ov).value.labels)
  {
    var labels := ApplyOverride(ov, Derive(res).(labels := [CHIP])).value.labels;
    assert ([CHIP] + labels)[0].code == SUPPORTED;
  }

  lemma ListedIsLabeled(resources: seq<Resource>, ov: Overrides, r: Resource)
    requires Labeled(resources, ov).Some? && r in resources && Listed(r)
    ensures r.name in Slugs(Dedupe(Labeled(resources, ov).value))
  {
    var labeled := Labeled(resources, ov).value;
    LabeledMeaning(resources, ov);
    var it := BuildOwned(r, true, ov).value;
    BuiltFrom(r, true, ov);
    assert it in labeled;
    WinnerIsBest(labeled, r.name);
    DedupeIsTransparent(labeled, r.name);
    SlugsAreWon(Dedupe(labeled), r.name);
  }

  /** An entry nobody generated, whose slug no supported chart claims, is still there and
      as it was. */
  lemma UnownedIsPreserved(existing: seq<Item>, resources: seq<Resource>, ov: Overrides, e: Item)
    requires PlainCatalog(existing, resources) && Sync(existing, resources, ov).Synced?
    requires e in existing && !IsOwned(e) && DistinctSlugs(existing)
    requires forall r :: r in resources && Listed(r) ==> r.name != e.slug
    ensures e in Sync(existing, resources, ov).items
  {
    var listed := Dedupe(Labeled(resources, ov).value);
    var kept := Preserve(existing, Slugs(listed), IndexByKey(resources), ov);
    NotListed(resources, ov, e.slug);
    PreserveKeepsWell(existing, Slugs(listed), resources, ov);
    KeptOnce(kept, existing, Slugs(listed), IndexByKey(resources), ov, e);
    ResultWinners(existing, resources, ov, e.slug);
    WinnerIsBest(kept.items, e.slug);
    WinnerIsBest(Sync(existing, resources, ov).items, e.slug);
  }

  lemma KeptOnce(p: Preserved, existing: seq<Item>, labeled: set<string>, byKey: ByKey, ov: Overrides, e: Item)
    requires p.Preserved? && WellKept(p, existing, labeled, byKey, ov) && DistinctSlugs(existing)
    requires e in existing && !IsOwned(e) && e.slug !in labeled
    ensures e in p.items && forall x :: x in p.items && x.slug == e.slug ==> x == e
  {
  }

  lemma NotListed(resources: seq<Resource>, ov: Overrides, slug: string)
    requires Labeled(resources, ov).Some?
    requires forall r :: r in resources && Listed(r) ==> r.name != slug
    ensures slug !in Slugs(Dedupe(Labeled(resources, ov).value))
  {
    var labeled := Labeled(resources, ov).value;
    LabeledMeaning(resources, ov);
    SlugsAreWon(Dedupe(labeled), slug);
    DedupeIsTransparent(labeled, slug);
    WinnerIsBest(labeled, slug);
    if Winner(labeled, slug).Some? {
      var r :| r in resources && Listed(r) && BuildOwned(r, true, ov) == Some(Winner(labeled, slug).value);
      BuiltFrom(r, true, ov);
    }
  }
}
