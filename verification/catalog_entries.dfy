/** What is in a refreshed library, entry by entry and field by field, and what is not and
    why. */
module CatalogEntries {
  import opened Ordering
  import opened CatalogSync
  import opened CatalogRefresh
  import opened Workload

  // One entry

  function PinnedFields(ov: Overrides, slug: string): map<string, string>
  {
    if slug in ov && ov[slug].Some? then ov[slug].value.fields else map[]
  }

  function PinnedLabels(ov: Overrides, slug: string): Option<seq<Label>>
  {
    if slug in ov && ov[slug].Some? then ov[slug].value.labels else None
  }

  const DERIVED := {"name", "description", "logo_url", "last_updated_at", "packaging_format"}

  function DerivedField(res: Resource, field: string): string
    requires field in DERIVED
  {
    if field == "name" then res.displayName
    else if field == "description" then res.description
    else if field == "logo_url" then res.logoURL
    else if field == "last_updated_at" then res.dateModified
    else "HELM_CHART"
  }

  /** The chip is there exactly when the chart is supported, first unless it was pinned
      elsewhere; other labels are as pinned. */
  ghost predicate LabelsAre(labels: seq<Label>, pinned: Option<seq<Label>>, supported: bool)
  {
    var others := if pinned.Some? then pinned.value else [];
    if !supported then labels == WithoutSupported(others)
    else labels == if exists l :: l in others && l.code == "supported" then others
                   else [Label("supported", "Supported")] + others
  }

  /** An entry for a chart: identified by name and repository, marked as generated, with
      the pinned fields and what NGC says for the rest. */
  ghost predicate IsEntryFor(it: Item, res: Resource, supported: bool, ov: Overrides)
  {
    && it.slug == res.name && it.source == "ngc"
    && it.repositoryURL == "https://helm.ngc.nvidia.com/" + res.org + (if res.team == "" then "" else "/" + res.team)
    && (forall f :: f in it.details <==> f in DERIVED || f in PinnedFields(ov, res.name))
    && (forall f :: f in it.details ==>
          it.details[f]
          == if f in PinnedFields(ov, res.name) then PinnedFields(ov, res.name)[f] else DerivedField(res, f))
    && LabelsAre(it.labels, PinnedLabels(ov, res.name), supported)
  }

  lemma RepositoryIs(res: Resource)
    ensures RepoURL(res) == "https://helm.ngc.nvidia.com/" + res.org + (if res.team == "" then "" else "/" + res.team)
  {
    var host, team := "https://helm.ngc.nvidia.com", if res.team == "" then "" else "/" + res.team;
    assert host + "/" == "https://helm.ngc.nvidia.com/";
    assert host + ("/" + res.org + team) == host + "/" + res.org + team;
  }

  lemma DetailsAre(res: Resource, pins: map<string, string>)
    ensures var details := Derive(res).details + pins;
            && (forall f :: f in details <==> f in DERIVED || f in pins)
            && (forall f :: f in details ==> details[f] == if f in pins then pins[f] else DerivedField(res, f))
  {
  }

  /** Every chart has such an entry unless its override cannot be read. */
  lemma EntryIs(res: Resource, supported: bool, ov: Overrides)
    ensures BuildOwned(res, supported, ov).None? <==> res.name in ov && ov[res.name].None?
    ensures BuildOwned(res, supported, ov).Some? ==>
              IsEntryFor(BuildOwned(res, supported, ov).value, res, supported, ov)
  {
    if !(res.name in ov && ov[res.name].None?) {
      RepositoryIs(res);
      DetailsAre(res, PinnedFields(ov, res.name));
      LabelsOf(PinnedLabels(ov, res.name), supported);
      BuiltOf(res, supported, ov);
    }
  }

  lemma BuiltOf(res: Resource, supported: bool, ov: Overrides)
    requires !(res.name in ov && ov[res.name].None?)
    ensures var pinned := PinnedLabels(ov, res.name);
            var start := if pinned.Some? then pinned.value else if supported then [CHIP] else [];
            BuildOwned(res, supported, ov)
            == Some(Item(res.name, RepoURL(res), "ngc",
                         if supported then EnsureSupported(start) else WithoutSupported(start),
                         Derive(res).details + PinnedFields(ov, res.name)))
  {
    var details := Derive(res).details;
    assert details + map[] == details;
  }

  lemma LabelsOf(pinned: Option<seq<Label>>, supported: bool)
    ensures var start := if pinned.Some? then pinned.value else if supported then [CHIP] else [];
            LabelsAre(if supported then EnsureSupported(start) else WithoutSupported(start), pinned, supported)
  {
    var start := if pinned.Some? then pinned.value else if supported then [CHIP] else [];
    assert HasSupported(start) <==> exists l :: l in start && l.code == "supported";
    assert [CHIP][0] == CHIP && HasSupported([CHIP]);
    assert [CHIP] + [] == [CHIP];
  }

  /** Taking the chip away takes nothing else away and keeps the order. */
  lemma OnlyTheChipGoes(labels: seq<Label>, l: Label)
    ensures WithoutSupported([]) == []
    ensures WithoutSupported(labels + [l]) == WithoutSupported(labels) + if l.code == "supported" then [] else [l]
  {
    assert (labels + [l])[..|labels|] == labels;
  }

  // The paths

  /** Where a chart can be installed from, by the path of its repository. */
  lemma PathsAre(path: string)
    ensures Deployable(path) <==>
            path in {"/nvidia", "/nvidia/blueprint", "/nim", "/nvidia/ai-dynamo", "/nvidia/doca", "/nim/baidu",
                     "/nim/mit", "/nim/nvidia", "/nvidia/ace", "/nvidia/cuopt", "/nvidia/nemo-microservices",
                     "/nvidia/omniverse", "/nvidia/omniverse-usdcode", "/nvidia/riva", "/nvidia/runai"}
    ensures ClassifyPath(path) == PathExcluded <==>
            path in {"/nim/snowflake", "/eevaigoeixww/animation", "/eevaigoeixww/conversational-ai"}
    ensures Deployable(path) || ClassifyPath(path) == PathExcluded || ClassifyPath(path) == PathUnknown
  {
  }

  lemma KeyIs(res: Resource)
    ensures ResourceKey(res) == res.org + (if res.team == "" then "" else "/" + res.team) + "/" + res.name
  {
  }

  ghost predicate All(s: string, chars: set<char>)
  {
    forall i :: 0 <= i < |s| ==> s[i] in chars
  }

  const BLANKS := {' ', '\t', '\n', '\r'}

  /** A repository on the NGC host keeps its path however it is padded with blanks and
      closing slashes. */
  lemma PathIs(before: string, path: string, slashes: string, after: string)
    requires All(before, BLANKS) && All(after, BLANKS) && All(slashes, {'/'})
    requires path == "" || (path[0] == '/' && path[|path| - 1] !in BLANKS + {'/'})
    ensures NGCPath(before + "https://helm.ngc.nvidia.com" + path + slashes + after) == Some(path)
  {
    var repo := "https://helm.ngc.nvidia.com" + path;
    var url := before + (repo + slashes + after);
    assert url == before + "https://helm.ngc.nvidia.com" + path + slashes + after;
    assert repo[0] == 'h' && repo[|repo| - 1] !in BLANKS + {'/'};
    LeftGoes(before, repo + slashes + after);
    assert repo + slashes + after == (repo + slashes) + after;
    assert (repo + slashes)[|repo + slashes| - 1] !in BLANKS;
    RightGoes(repo + slashes, after);
    SlashesGo(repo, slashes);
  }

  lemma {:induction false} LeftGoes(blanks: string, s: string)
    requires All(blanks, BLANKS) && s != "" && s[0] !in BLANKS
    ensures TrimLeft(blanks + s) == s
  {
    if blanks == "" {
      assert blanks + s == s;
    } else {
      LeftGoes(blanks[1..], s);
      assert (blanks + s)[1..] == blanks[1..] + s && (blanks + s)[0] == blanks[0];
    }
  }

  lemma {:induction false} RightGoes(s: string, blanks: string)
    requires All(blanks, BLANKS) && s != "" && s[|s| - 1] !in BLANKS
    ensures TrimRight(s + blanks) == s
  {
    if blanks == "" {
      assert s + blanks == s;
    } else {
      var n := |blanks| - 1;
      RightGoes(s, blanks[..n]);
      assert (s + blanks)[..|s + blanks| - 1] == s + blanks[..n] && (s + blanks)[|s + blanks| - 1] == blanks[n];
    }
  }

  lemma {:induction false} SlashesGo(s: string, slashes: string)
    requires All(slashes, {'/'}) && s != "" && s[|s| - 1] != '/'
    ensures TrimRightSlash(s + slashes) == s
  {
    if slashes == "" {
      assert s + slashes == s;
    } else {
      var n := |slashes| - 1;
      SlashesGo(s, slashes[..n]);
      assert (s + slashes)[..|s + slashes| - 1] == s + slashes[..n] && (s + slashes)[|s + slashes| - 1] == slashes[n];
    }
  }

  // What becomes of an entry

  ghost predicate Published(resources: seq<Resource>, path: string, slug: string)
  {
    exists r :: r in resources && ResourceKey(r) == OwnedKey(path, slug)
  }

  /** A generated entry that no supported chart claims: without an NGC repository the
      refresh fails; without a chart, or off the deployable paths, it goes; otherwise it
      is built again from its chart, without the chip. */
  lemma OwnedFateIs(e: Item, resources: seq<Resource>, ov: Overrides)
    ensures var path, fate := NGCPath(e.repositoryURL), ReconcileOwned(e, IndexByKey(resources), ov);
            if path.None? then fate == Broken
            else if !Published(resources, path.value, e.slug) then fate == Remove("no longer published on NGC")
            else if !Deployable(path.value) then fate == Remove("NGC path no longer deployable: " + path.value)
            else exists r :: && r in resources && ResourceKey(r) == OwnedKey(path.value, e.slug)
                             && BuiltAs(fate, r, ov)
  {
    var path := NGCPath(e.repositoryURL);
    if path.Some? {
      var key := OwnedKey(path.value, e.slug);
      IndexMeaning(resources, key);
      if key in IndexByKey(resources) && Deployable(path.value) {
        EntryIs(IndexByKey(resources)[key], false, ov);
        assert BuiltAs(ReconcileOwned(e, IndexByKey(resources), ov), IndexByKey(resources)[key], ov);
      }
    }
  }

  ghost predicate BuiltAs(fate: Fate, r: Resource, ov: Overrides)
  {
    if r.name in ov && ov[r.name].None? then fate == Broken
    else fate.Keep? && IsEntryFor(fate.item, r, false, ov)
  }

  // The pass over the existing entries

  /** What stands for `e` afterwards. */
  predicate BecomesOf(e: Item, byKey: ByKey, ov: Overrides, x: Item)
  {
    if IsOwned(e) then ReconcileOwned(e, byKey, ov) == Keep(x) else x == e
  }

  ghost predicate LeftBy(existing: seq<Item>, labeled: set<string>, byKey: ByKey, ov: Overrides, x: Item)
  {
    exists e :: e in existing && e.slug !in labeled && BecomesOf(e, byKey, ov, x)
  }

  ghost predicate Breaks(existing: seq<Item>, labeled: set<string>, byKey: ByKey, ov: Overrides)
  {
    exists e :: e in existing && e.slug !in labeled && IsOwned(e) && ReconcileOwned(e, byKey, ov) == Broken
  }

  lemma LeftByOneMore(front: seq<Item>, e: Item, labeled: set<string>, byKey: ByKey, ov: Overrides, x: Item)
    ensures LeftBy(front + [e], labeled, byKey, ov, x) <==>
            LeftBy(front, labeled, byKey, ov, x) || (e.slug !in labeled && BecomesOf(e, byKey, ov, x))
    ensures Breaks(front + [e], labeled, byKey, ov) <==>
            || Breaks(front, labeled, byKey, ov)
            || (e.slug !in labeled && IsOwned(e) && ReconcileOwned(e, byKey, ov) == Broken)
  {
    assert forall d :: d in front + [e] <==> d in front || d == e;
  }

  lemma {:induction false} PreservedAre(existing: seq<Item>, labeled: set<string>, byKey: ByKey, ov: Overrides, x: Item)
    ensures var p := Preserve(existing, labeled, byKey, ov);
            && (p.Unbuildable? <==> Breaks(existing, labeled, byKey, ov))
            && (p.Preserved? ==> (x in p.items <==> LeftBy(existing, labeled, byKey, ov, x)))
  {
    if existing != [] {
      var front, e := existing[..|existing| - 1], existing[|existing| - 1];
      PreservedAre(front, labeled, byKey, ov, x);
      assert existing == front + [e];
      LeftByOneMore(front, e, labeled, byKey, ov, x);
    }
  }

  ghost predicate GoesFor(existing: seq<Item>, labeled: set<string>, byKey: ByKey, ov: Overrides, slug: string,
                          reason: string)
  {
    exists e :: e in existing && e.slug == slug && slug !in labeled && IsRemoved(e, byKey, ov, reason)
  }

  lemma {:induction false} ReasonsAre(existing: seq<Item>, labeled: set<string>, byKey: ByKey, ov: Overrides,
                                      slug: string, reason: string)
    requires DistinctSlugs(existing) && Preserve(existing, labeled, byKey, ov).Preserved?
    ensures var reasons := Preserve(existing, labeled, byKey, ov).reasons;
            slug in reasons && reasons[slug] == reason <==> GoesFor(existing, labeled, byKey, ov, slug, reason)
  {
    if existing != [] {
      var front, e := existing[..|existing| - 1], existing[|existing| - 1];
      ReasonsAre(front, labeled, byKey, ov, slug, reason);
      assert existing == front + [e];
      assert forall d :: d in existing <==> d in front || d == e;
      if e.slug == slug { assert forall d :: d in front ==> d.slug != slug; }
    }
  }

  // The refreshed library

  /** A supported chart on a deployable path offers this slug. */
  predicate Offers(r: Resource, slug: string)
  {
    r.supported && r.name == slug && Deployable("/" + r.org + if r.team == "" then "" else "/" + r.team)
  }

  ghost predicate Claimed(resources: seq<Resource>, slug: string)
  {
    exists r :: r in resources && Offers(r, slug)
  }

  /** The entry of the offering chart nobody's entry is preferred over. */
  ghost predicate BestOffer(resources: seq<Resource>, ov: Overrides, x: Item)
  {
    && (exists r :: r in resources && Offers(r, x.slug) && BuildOwned(r, true, ov) == Some(x))
    && forall r :: r in resources && Offers(r, x.slug) && BuildOwned(r, true, ov).Some? ==>
         !PreferOver(BuildOwned(r, true, ov).value, x)
  }

  ghost predicate Expected(existing: seq<Item>, resources: seq<Resource>, ov: Overrides, x: Item)
  {
    if Claimed(resources, x.slug) then BestOffer(resources, ov, x)
    else exists e :: e in existing && e.slug == x.slug && BecomesOf(e, IndexByKey(resources), ov, x)
  }

  lemma OffersMeans(r: Resource, slug: string)
    ensures Offers(r, slug) <==> Listed(r) && r.name == slug
  {
  }

  lemma ClaimedIsListed(resources: seq<Resource>, ov: Overrides, slug: string)
    requires Labeled(resources, ov).Some?
    ensures Claimed(resources, slug) <==> slug in Slugs(Dedupe(Labeled(resources, ov).value))
  {
    if r :| r in resources && Offers(r, slug) {
      OffersMeans(r, slug);
      ListedIsLabeled(resources, ov, r);
    } else {
      forall r | r in resources && Listed(r) ensures r.name != slug { OffersMeans(r, slug); }
      NotListed(resources, ov, slug);
    }
  }

  lemma BestOfferWins(resources: seq<Resource>, ov: Overrides, x: Item)
    requires Labeled(resources, ov).Some? && DistinctResources(resources)
    ensures BestOffer(resources, ov, x) <==> Winner(Labeled(resources, ov).value, x.slug) == Some(x)
  {
    var labeled := Labeled(resources, ov).value;
    LabeledMeaning(resources, ov);
    WinnerIsBest(labeled, x.slug);
    forall r ensures Offers(r, x.slug) <==> Listed(r) && r.name == x.slug { OffersMeans(r, x.slug); }
    if BestOffer(resources, ov, x) {
      assert x in labeled;
      var w := Winner(labeled, x.slug).value;
      var r :| r in resources && Listed(r) && BuildOwned(r, true, ov) == Some(w);
      BuiltFrom(r, true, ov);
      StrLtTotal(w.repositoryURL, x.repositoryURL);
      assert !PreferOver(w, x) && !PreferOver(x, w);
      ListedAreIdentified(resources, ov, w, x);
    }
    if Winner(labeled, x.slug) == Some(x) {
      var r :| r in resources && Listed(r) && BuildOwned(r, true, ov) == Some(x);
      BuiltFrom(r, true, ov);
      forall q | q in resources && Offers(q, x.slug) && BuildOwned(q, true, ov).Some?
        ensures !PreferOver(BuildOwned(q, true, ov).value, x)
      {
        BuiltFrom(q, true, ov);
        assert BuildOwned(q, true, ov).value in labeled;
      }
    }
  }

  /** The refresh fails if and only if the override of a supported chart cannot be read or
      an unclaimed entry cannot be told or built; otherwise exactly the expected entries
      are in the library, one per slug and in order of the slugs. */
  lemma LibraryIs(existing: seq<Item>, resources: seq<Resource>, ov: Overrides, x: Item)
    requires PlainCatalog(existing, resources) && DistinctSlugs(existing) && DistinctResources(resources)
    requires Sync(existing, resources, ov).Synced?
    ensures x in Sync(existing, resources, ov).items <==> Expected(existing, resources, ov, x)
    ensures DistinctSlugs(Sync(existing, resources, ov).items) && SortedBy(SlugKey, Sync(existing, resources, ov).items)
  {
    var labeled := Labeled(resources, ov).value;
    var listed, byKey := Dedupe(labeled), IndexByKey(resources);
    var kept := Preserve(existing, Slugs(listed), byKey, ov);
    var out := Sync(existing, resources, ov).items;
    SortedDedupe(kept.items + listed);
    ClaimedIsListed(resources, ov, x.slug);
    ResultWinners(existing, resources, ov, x.slug);
    WinnerIsBest(out, x.slug);
    if x in out { WinnerOfDistinct(out, x); }
    if Claimed(resources, x.slug) {
      DedupeIsTransparent(labeled, x.slug);
      BestOfferWins(resources, ov, x);
    } else {
      PreservedAre(existing, Slugs(listed), byKey, ov, x);
      KeptWinner(existing, resources, ov, Slugs(listed), x);
    }
  }

  lemma KeptSlug(e: Item, resources: seq<Resource>, ov: Overrides, x: Item)
    requires IsOwned(e) ==> '/' !in e.slug
    requires forall r :: r in resources ==> PlainResource(r)
    requires BecomesOf(e, IndexByKey(resources), ov, x)
    ensures x.slug == e.slug
  {
    if IsOwned(e) { KeptIsSettled(e, resources, ov); }
  }

  lemma KeptWinner(existing: seq<Item>, resources: seq<Resource>, ov: Overrides, labeled: set<string>, x: Item)
    requires PlainCatalog(existing, resources) && DistinctSlugs(existing) && x.slug !in labeled
    requires Preserve(existing, labeled, IndexByKey(resources), ov).Preserved?
    ensures Winner(Preserve(existing, labeled, IndexByKey(resources), ov).items, x.slug) == Some(x)
       <==> exists e :: e in existing && e.slug == x.slug && BecomesOf(e, IndexByKey(resources), ov, x)
  {
    var byKey := IndexByKey(resources);
    var items := Preserve(existing, labeled, byKey, ov).items;
    PreservedAre(existing, labeled, byKey, ov, x);
    WinnerIsBest(items, x.slug);
    if Winner(items, x.slug) == Some(x) {
      var e :| e in existing && e.slug !in labeled && BecomesOf(e, byKey, ov, x);
      KeptSlug(e, resources, ov, x);
    }
    if e :| e in existing && e.slug == x.slug && BecomesOf(e, byKey, ov, x) {
      assert LeftBy(existing, labeled, byKey, ov, x);
      var w := Winner(items, x.slug).value;
      PreservedAre(existing, labeled, byKey, ov, w);
      var d :| d in existing && d.slug !in labeled && BecomesOf(d, byKey, ov, w);
      KeptSlug(d, resources, ov, w);
      assert d == e;
    }
  }

  lemma FailsExactlyWhen(existing: seq<Item>, resources: seq<Resource>, ov: Overrides)
    ensures Sync(existing, resources, ov).SyncError? <==>
            || (exists r :: r in resources && Offers(r, r.name) && r.name in ov && ov[r.name].None?)
            || (exists e :: e in existing && !Claimed(resources, e.slug) && IsOwned(e)
                            && ReconcileOwned(e, IndexByKey(resources), ov) == Broken)
  {
    LabeledMeaning(resources, ov);
    forall r: Resource ensures Offers(r, r.name) <==> Listed(r) { OffersMeans(r, r.name); }
    forall r: Resource ensures BuildOwned(r, true, ov).None? <==> r.name in ov && ov[r.name].None? {
      EntryIs(r, true, ov);
    }
    if Labeled(resources, ov).Some? {
      var listed := Slugs(Dedupe(Labeled(resources, ov).value));
      forall slug ensures Claimed(resources, slug) <==> slug in listed { ClaimedIsListed(resources, ov, slug); }
      if existing != [] { PreservedAre(existing, listed, IndexByKey(resources), ov, existing[0]); }
    }
  }

  /** An entry is reported gone if and only if no supported chart claims its slug and its
      own chart is, for one of the two reasons. */
  lemma ReasonIs(existing: seq<Item>, resources: seq<Resource>, ov: Overrides, slug: string, reason: string)
    requires DistinctSlugs(existing) && Sync(existing, resources, ov).Synced?
    ensures var reasons := Sync(existing, resources, ov).reasons;
            slug in reasons && reasons[slug] == reason <==>
            && !Claimed(resources, slug)
            && exists e :: e in existing && e.slug == slug && IsRemoved(e, IndexByKey(resources), ov, reason)
  {
    ClaimedIsListed(resources, ov, slug);
    ReasonsAre(existing, Slugs(Dedupe(Labeled(resources, ov).value)), IndexByKey(resources), ov, slug, reason);
  }

  /** The supported charts nobody has decided about: on a path that is neither deployable
      nor excluded, by that path. */
  lemma {:induction false} UndecidedAre(resources: seq<Resource>, path: string, chart: Chart)
    ensures path in Unclassified(resources) && chart in Unclassified(resources)[path] <==>
            exists r :: r in resources && Undecided(r, path) && chart == Chart(r.id, r.displayName, r.version)
    ensures path in Unclassified(resources) ==> Unclassified(resources)[path] != []
  {
    if resources != [] {
      var front, last := resources[..|resources| - 1], resources[|resources| - 1];
      UndecidedAre(front, path, chart);
      assert forall r :: r in resources <==> r in front || r == last by { assert resources == front + [last]; }
      PathsAre(RepoPath(last));
      assert LeftOut(last) && RepoPath(last) == path <==> Undecided(last, path);
    }
  }

  predicate Undecided(r: Resource, path: string)
  {
    && r.supported && path == "/" + r.org + (if r.team == "" then "" else "/" + r.team)
    && !Deployable(path) && path !in EXCLUDED_PATHS
  }
}
