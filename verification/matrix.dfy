/** The (component, cluster) matrix a blueprint pass builds, and what a Running verdict
    derived from it proves about the fleet. */
module Matrix {
  import opened Ordering
  import opened Workload
  import opened Keys
  import opened Certify
  import opened Baselines
  import opened Phases

  /** What the API answered about one key while the matrix was built. The HelmOp is
      read only when there is no Bundle and a cluster is missing. */
  datatype KeyRead = KeyRead(bundle: Read<Bundle>, deployments: Option<seq<BundleDeployment>>, helmOp: Read<HelmOp>)

  const MESSAGE_MAX := 1024

  function TruncateMessage(s: string): string
  {
    if |s| > MESSAGE_MAX then s[..MESSAGE_MAX] else s
  }

  function ListedCell(k: HelmOpKey, bd: BundleDeployment, current: bool): Cell
  {
    var phase := MatrixCellPhase(bd, current);
    Cell(k.component, k.release, bd.cluster, phase, bd.appliedId,
         TruncateMessage(if phase == CellFailed then bd.message else ""))
  }

  /** One cell per listed BundleDeployment whose cluster is known. */
  function ListedCells(k: HelmOpKey, bds: seq<BundleDeployment>, current: bool): seq<Cell>
  {
    if bds == [] then []
    else
      var front, bd := ListedCells(k, bds[..|bds| - 1], current), bds[|bds| - 1];
      if bd.cluster == "" then front else front + [ListedCell(k, bd, current)]
  }

  function SeenClusters(bds: seq<BundleDeployment>): set<string>
  {
    set bd | bd in bds && bd.cluster != "" :: bd.cluster
  }

  /** The phase of an expected cluster without a BundleDeployment. */
  function MissingPhase(k: HelmOpKey, bundle: Option<Bundle>, helmOp: Read<HelmOp>, baselines: seq<RenderBaseline>,
                        digest: RenderDigest, epoch: int): Option<ClusterPhase>
  {
    if bundle.Some? then Some(CellPending)
    else
      match helmOp
      case Unreadable => None
      case Absent => Some(CellPending)
      case Present(ho) =>
        Some(if AcceptedFalseTerminal(ho, Lookup(baselines, ho.uid), digest, epoch, ho.generation)
             then CellFailed else CellPending)
  }

  function MissingCell(k: HelmOpKey, cluster: string, phase: ClusterPhase): Cell
  {
    Cell(k.component, k.release, cluster, phase, "", "")
  }

  function MissingCells(k: HelmOpKey, expected: seq<string>, seen: set<string>, phase: ClusterPhase): seq<Cell>
  {
    if expected == [] then []
    else
      var front, id := MissingCells(k, expected[..|expected| - 1], seen, phase), expected[|expected| - 1];
      if id in seen then front else front + [MissingCell(k, id, phase)]
  }

  function BundleOf(r: Read<Bundle>): Option<Bundle>
  {
    if r.Present? then Some(r.value) else None
  }

  function Current(bundle: Option<Bundle>, digest: RenderDigest): bool
  {
    bundle.Some? && BundleRenderCurrent(bundle.value, digest)
  }

  /** The cells of one key, or nothing when a read failed. */
  function KeyCells(k: HelmOpKey, targets: seq<string>, baselines: seq<RenderBaseline>, epoch: int,
                    digest: RenderDigest, r: KeyRead): Option<seq<Cell>>
  {
    if r.bundle.Unreadable? || r.deployments.None? then None
    else
      var bundle := BundleOf(r.bundle);
      var listed := ListedCells(k, r.deployments.value, Current(bundle, digest));
      var expected, seen := ExpectedIn(k.ref.namespace, targets), SeenClusters(r.deployments.value);
      if forall id :: id in expected ==> id in seen then Some(listed)
      else
        var phase := MissingPhase(k, bundle, r.helmOp, baselines, digest, epoch);
        if phase.None? then None else Some(listed + MissingCells(k, expected, seen, phase.value))
  }

  function RawMatrix(keys: seq<HelmOpKey>, targets: seq<string>, baselines: seq<RenderBaseline>, epoch: int,
                     digests: Digests, read: Ref -> KeyRead): Option<seq<Cell>>
  {
    if keys == [] then Some([])
    else
      var front, k := RawMatrix(keys[..|keys| - 1], targets, baselines, epoch, digests, read), keys[|keys| - 1];
      if front.None? then None
      else
        var cells := KeyCells(k, targets, baselines, epoch, DigestFor(digests, k.ref), read(k.ref));
        if cells.None? then None else Some(front.value + cells.value)
  }

  function CellKey(c: Cell): Key
  {
    [c.component, c.cluster]
  }

  function BuildMatrix(keys: seq<HelmOpKey>, targets: seq<string>, baselines: seq<RenderBaseline>, epoch: int,
                       digests: Digests, read: Ref -> KeyRead): Option<seq<Cell>>
  {
    var raw := RawMatrix(keys, targets, baselines, epoch, digests, read);
    if raw.None? then None else Some(SortBy(CellKey, raw.value))
  }

  method BuildComponentMatrix(keys: seq<HelmOpKey>, targets: seq<string>, baselines: seq<RenderBaseline>, epoch: int,
                              digests: Digests, read: Ref -> KeyRead) returns (matrix: Option<seq<Cell>>)
    ensures matrix == BuildMatrix(keys, targets, baselines, epoch, digests, read)
  {
    var cells := [];
    for i := 0 to |keys|
      invariant RawMatrix(keys[..i], targets, baselines, epoch, digests, read) == Some(cells)
    {
      assert keys[..i + 1][..i] == keys[..i];
      var more := CellsOfKey(keys[i], targets, baselines, epoch, DigestFor(digests, keys[i].ref), read(keys[i].ref));
      if more.None? {
        FailureSticks(keys, i + 1, targets, baselines, epoch, digests, read);
        return None;
      }
      cells := cells + more.value;
    }
    assert keys[..|keys|] == keys;
    return Some(SortBy(CellKey, cells));
  }

  lemma {:induction false} FailureSticks(keys: seq<HelmOpKey>, i: nat, targets: seq<string>,
                                         baselines: seq<RenderBaseline>, epoch: int, digests: Digests,
                                         read: Ref -> KeyRead)
    requires i <= |keys| && RawMatrix(keys[..i], targets, baselines, epoch, digests, read).None?
    ensures RawMatrix(keys, targets, baselines, epoch, digests, read).None?
  {
    if i == |keys| {
      assert keys[..i] == keys;
    } else {
      var front := keys[..|keys| - 1];
      assert front[..i] == keys[..i];
      FailureSticks(front, i, targets, baselines, epoch, digests, read);
    }
  }

  /** The body of the loop over the keys: two loops, over what is listed and over what
      is expected. */
  method CellsOfKey(k: HelmOpKey, targets: seq<string>, baselines: seq<RenderBaseline>, epoch: int,
                    digest: RenderDigest, r: KeyRead) returns (out: Option<seq<Cell>>)
    ensures out == KeyCells(k, targets, baselines, epoch, digest, r)
  {
    if r.bundle.Unreadable? || r.deployments.None? {
      return None;
    }
    var bundle := BundleOf(r.bundle);
    var listed, seen := ScanDeployments(k, r.deployments.value, Current(bundle, digest));
    var expected := ExpectedIn(k.ref.namespace, targets);
    var phase := MissingPhase(k, bundle, r.helmOp, baselines, digest, epoch);
    var missing := ScanExpected(k, expected, seen, phase);
    if missing.None? {
      return None;
    }
    if missing.value == [] {
      assert listed + missing.value == listed;
    }
    return Some(listed + missing.value);
  }

  method ScanDeployments(k: HelmOpKey, bds: seq<BundleDeployment>, current: bool)
    returns (cells: seq<Cell>, seen: set<string>)
    ensures cells == ListedCells(k, bds, current) && seen == SeenClusters(bds)
  {
    cells, seen := [], {};
    for i := 0 to |bds|
      invariant cells == ListedCells(k, bds[..i], current)
      invariant seen == SeenClusters(bds[..i])
    {
      assert bds[..i + 1] == bds[..i] + [bds[i]];
      if bds[i].cluster != "" {
        seen := seen + {bds[i].cluster};
        cells := cells + [ListedCell(k, bds[i], current)];
      }
    }
    assert bds[..|bds|] == bds;
  }

  /** `phase` is looked at only when a cluster is missing. */
  method ScanExpected(k: HelmOpKey, expected: seq<string>, seen: set<string>, phase: Option<ClusterPhase>)
    returns (missing: Option<seq<Cell>>)
    ensures (forall id :: id in expected ==> id in seen) ==> missing == Some([])
    ensures !(forall id :: id in expected ==> id in seen) ==>
              missing == if phase.None? then None else Some(MissingCells(k, expected, seen, phase.value))
  {
    var cells := [];
    for i := 0 to |expected|
      invariant phase.None? ==> forall j :: 0 <= j < i ==> expected[j] in seen
      invariant phase.Some? ==> cells == MissingCells(k, expected[..i], seen, phase.value)
      invariant (forall j :: 0 <= j < i ==> expected[j] in seen) ==> cells == []
    {
      assert expected[..i + 1][..i] == expected[..i];
      if expected[i] !in seen {
        if phase.None? {
          return None;
        }
        cells := cells + [MissingCell(k, expected[i], phase.value)];
      }
    }
    assert expected[..|expected|] == expected;
    return Some(cells);
  }

  // What a cell can come from

  lemma {:induction false} ListedCellsMembers(k: HelmOpKey, bds: seq<BundleDeployment>, current: bool, c: Cell)
    ensures c in ListedCells(k, bds, current) <==>
            exists bd :: bd in bds && bd.cluster != "" && c == ListedCell(k, bd, current)
  {
    if bds != [] {
      ListedCellsMembers(k, bds[..|bds| - 1], current, c);
      assert bds == bds[..|bds| - 1] + [bds[|bds| - 1]];
    }
  }

  lemma {:induction false} MissingCellsMembers(k: HelmOpKey, expected: seq<string>, seen: set<string>,
                                               phase: ClusterPhase, c: Cell)
    ensures c in MissingCells(k, expected, seen, phase) <==>
            exists id :: id in expected && id !in seen && c == MissingCell(k, id, phase)
  {
    if expected != [] {
      MissingCellsMembers(k, expected[..|expected| - 1], seen, phase, c);
      assert expected == expected[..|expected| - 1] + [expected[|expected| - 1]];
    }
  }

  lemma {:induction false} RawMatrixTold(keys: seq<HelmOpKey>, targets: seq<string>, baselines: seq<RenderBaseline>,
                                         epoch: int, digests: Digests, read: Ref -> KeyRead)
    requires RawMatrix(keys, targets, baselines, epoch, digests, read).Some?
    ensures forall k :: k in keys ==>
              KeyCells(k, targets, baselines, epoch, DigestFor(digests, k.ref), read(k.ref)).Some?
  {
    if keys != [] {
      RawMatrixTold(keys[..|keys| - 1], targets, baselines, epoch, digests, read);
      assert keys == keys[..|keys| - 1] + [keys[|keys| - 1]];
    }
  }

  lemma {:induction false} RawMatrixMembers(keys: seq<HelmOpKey>, targets: seq<string>, baselines: seq<RenderBaseline>,
                                            epoch: int, digests: Digests, read: Ref -> KeyRead, c: Cell)
    requires RawMatrix(keys, targets, baselines, epoch, digests, read).Some?
    ensures forall k :: k in keys ==>
              KeyCells(k, targets, baselines, epoch, DigestFor(digests, k.ref), read(k.ref)).Some?
    ensures c in RawMatrix(keys, targets, baselines, epoch, digests, read).value <==>
            exists k ::
              k in keys && c in KeyCells(k, targets, baselines, epoch, DigestFor(digests, k.ref), read(k.ref)).value
  {
    RawMatrixTold(keys, targets, baselines, epoch, digests, read);
    if keys != [] {
      var front, last := keys[..|keys| - 1], keys[|keys| - 1];
      RawMatrixMembers(front, targets, baselines, epoch, digests, read, c);
      assert forall k :: k in keys <==> k in front || k == last by { assert keys == front + [last]; }
    }
  }

  /** A key is up: its Bundle carries this pass's digest and is observed at its own
      generation, every expected cluster has a BundleDeployment, and every
      BundleDeployment of the Bundle applied what it was asked to and is up. */
  ghost predicate KeyUp(k: HelmOpKey, targets: seq<string>, digest: RenderDigest, r: KeyRead)
  {
    && r.bundle.Present? && BundleRenderCurrent(r.bundle.value, digest)
    && r.deployments.Some?
    && (forall bd :: bd in r.deployments.value && bd.cluster != "" ==> DeploymentUp(bd))
    && (forall id :: id in ExpectedIn(k.ref.namespace, targets) ==>
          id != "" && exists bd :: bd in r.deployments.value && bd.cluster == id)
  }

  ghost predicate AllCellsRunning(cells: seq<Cell>)
  {
    forall c :: c in cells ==> c.phase == CellRunning
  }

  lemma ListedCellsRunning(k: HelmOpKey, bds: seq<BundleDeployment>, current: bool)
    ensures AllCellsRunning(ListedCells(k, bds, current)) <==>
            forall bd :: bd in bds && bd.cluster != "" ==> current && DeploymentUp(bd)
  {
  }

  lemma NothingMissing(k: HelmOpKey, expected: seq<string>, seen: set<string>, phase: ClusterPhase)
    requires phase != CellRunning
    ensures AllCellsRunning(MissingCells(k, expected, seen, phase)) <==> forall id :: id in expected ==> id in seen
  {
  }

  lemma KeyRunningMeansUp(k: HelmOpKey, targets: seq<string>, baselines: seq<RenderBaseline>, epoch: int,
                          digest: RenderDigest, r: KeyRead)
    requires ExpectedIn(k.ref.namespace, targets) != []
    requires KeyCells(k, targets, baselines, epoch, digest, r).Some?
    ensures AllCellsRunning(KeyCells(k, targets, baselines, epoch, digest, r).value) <==> KeyUp(k, targets, digest, r)
  {
    var cells := KeyCells(k, targets, baselines, epoch, digest, r).value;
    var bundle, bds := BundleOf(r.bundle), r.deployments.value;
    var current := Current(bundle, digest);
    var expected, seen := ExpectedIn(k.ref.namespace, targets), SeenClusters(bds);
    var phase := MissingPhase(k, bundle, r.helmOp, baselines, digest, epoch);
    ListedCellsRunning(k, bds, current);
    assert forall id :: id in seen <==> id != "" && exists bd :: bd in bds && bd.cluster == id;
    if forall id :: id in expected ==> id in seen {
      assert cells == ListedCells(k, bds, current);
      if AllCellsRunning(cells) {
        assert expected[0] in seen;
        var bd :| bd in bds && bd.cluster == expected[0];
        assert current;
      }
    } else {
      var missing := MissingCells(k, expected, seen, phase.value);
      NothingMissing(k, expected, seen, phase.value);
      assert cells == ListedCells(k, bds, current) + missing;
      assert forall c :: c in missing ==> c in cells;
    }
  }

  /** Running is never stale and never vacuous: the phase derived from a matrix is
      Running exactly when there is a key and every key is up. */
  lemma RunningMeansUp(keys: seq<HelmOpKey>, targets: seq<string>, baselines: seq<RenderBaseline>, epoch: int,
                       digests: Digests, read: Ref -> KeyRead)
    requires BuildMatrix(keys, targets, baselines, epoch, digests, read).Some?
    requires forall k :: k in keys ==> ExpectedIn(k.ref.namespace, targets) != []
    ensures PhaseFromCells(BuildMatrix(keys, targets, baselines, epoch, digests, read).value) == PhaseRunning <==>
            keys != [] && forall k :: k in keys ==> KeyUp(k, targets, DigestFor(digests, k.ref), read(k.ref))
  {
    var raw := RawMatrix(keys, targets, baselines, epoch, digests, read).value;
    var cells := BuildMatrix(keys, targets, baselines, epoch, digests, read).value;
    SortBySorts(CellKey, raw);
    RunningCells(cells);
    SameCells(raw, cells);
    RawMatrixRunning(keys, targets, baselines, epoch, digests, read);
  }

  lemma RunningCells(cells: seq<Cell>)
    ensures PhaseFromCells(cells) == PhaseRunning <==> cells != [] && AllCellsRunning(cells)
  {
    DerivedPhaseMeaning(CellPhases(cells));
    EveryPhases(cells, [], CellRunning);
    if cells != [] {
      assert CellPhases(cells)[0] == cells[0].phase;
    }
  }

  lemma SameCells(a: seq<Cell>, b: seq<Cell>)
    requires multiset(a) == multiset(b)
    ensures a == [] <==> b == []
    ensures AllCellsRunning(a) <==> AllCellsRunning(b)
  {
    assert |multiset(a)| == |a| && |multiset(b)| == |b|;
    assert forall c :: c in a <==> c in multiset(b);
  }

  lemma {:induction false} RawMatrixRunning(keys: seq<HelmOpKey>, targets: seq<string>, baselines: seq<RenderBaseline>,
                                            epoch: int, digests: Digests, read: Ref -> KeyRead)
    requires RawMatrix(keys, targets, baselines, epoch, digests, read).Some?
    requires forall k :: k in keys ==> ExpectedIn(k.ref.namespace, targets) != []
    ensures AllCellsRunning(RawMatrix(keys, targets, baselines, epoch, digests, read).value) <==>
            forall k :: k in keys ==> KeyUp(k, targets, DigestFor(digests, k.ref), read(k.ref))
    ensures RawMatrix(keys, targets, baselines, epoch, digests, read).value == [] <==> keys == []
  {
    if keys != [] {
      var front, k := keys[..|keys| - 1], keys[|keys| - 1];
      RawMatrixRunning(front, targets, baselines, epoch, digests, read);
      var digest := DigestFor(digests, k.ref);
      KeyRunningMeansUp(k, targets, baselines, epoch, digest, read(k.ref));
      KeyHasCells(k, targets, baselines, epoch, digest, read(k.ref));
      AppendRunning(RawMatrix(front, targets, baselines, epoch, digests, read).value,
                    KeyCells(k, targets, baselines, epoch, digest, read(k.ref)).value);
      assert keys == front + [k];
    }
  }

  lemma AppendRunning(a: seq<Cell>, b: seq<Cell>)
    ensures AllCellsRunning(a + b) <==> AllCellsRunning(a) && AllCellsRunning(b)
  {
  }

  /** Every expected cluster has a cell, whatever Fleet has created so far. */
  lemma ExpectedClusterHasCell(k: HelmOpKey, targets: seq<string>, baselines: seq<RenderBaseline>, epoch: int,
                               digest: RenderDigest, r: KeyRead, id: string)
    requires KeyCells(k, targets, baselines, epoch, digest, r).Some?
    requires id in ExpectedIn(k.ref.namespace, targets)
    ensures exists c ::
              c in KeyCells(k, targets, baselines, epoch, digest, r).value && c.cluster == id
              && c.component == k.component
  {
    var cells := KeyCells(k, targets, baselines, epoch, digest, r).value;
    var bds := r.deployments.value;
    var current := Current(BundleOf(r.bundle), digest);
    if id in SeenClusters(bds) {
      var bd :| bd in bds && bd.cluster == id && bd.cluster != "";
      ListedCellsMembers(k, bds, current, ListedCell(k, bd, current));
      assert ListedCell(k, bd, current) in cells;
    } else {
      var phase := MissingPhase(k, BundleOf(r.bundle), r.helmOp, baselines, digest, epoch).value;
      var expected, seen := ExpectedIn(k.ref.namespace, targets), SeenClusters(bds);
      MissingCellsMembers(k, expected, seen, phase, MissingCell(k, id, phase));
      assert MissingCell(k, id, phase) in cells;
    }
  }

  lemma KeyHasCells(k: HelmOpKey, targets: seq<string>, baselines: seq<RenderBaseline>, epoch: int,
                    digest: RenderDigest, r: KeyRead)
    requires ExpectedIn(k.ref.namespace, targets) != []
    requires KeyCells(k, targets, baselines, epoch, digest, r).Some?
    ensures KeyCells(k, targets, baselines, epoch, digest, r).value != []
  {
    ExpectedClusterHasCell(k, targets, baselines, epoch, digest, r, ExpectedIn(k.ref.namespace, targets)[0]);
  }

  /** The same by component and target cluster: when a blueprint pass derives Running,
      each enabled component is up on each target. */
  lemma RunningCoversEveryPair(workload: string, components: seq<Component>, targets: seq<string>, strategy: Strategy,
                               baselines: seq<RenderBaseline>, epoch: int, digests: Digests, read: Ref -> KeyRead,
                               c: Component, t: string)
    requires strategy != Helm && c in components && t in targets
    requires var keys := DesiredKeys(workload, targets, components, strategy);
             BuildMatrix(keys, targets, baselines, epoch, digests, read).Some?
             && PhaseFromCells(BuildMatrix(keys, targets, baselines, epoch, digests, read).value) == PhaseRunning
    ensures var ref := Ref(NamespaceOf(t), BundleName(workload, c.chartName));
            && read(ref).bundle.Present?
            && BundleRenderCurrent(read(ref).bundle.value, DigestFor(digests, ref))
            && read(ref).deployments.Some?
            && exists bd :: bd in read(ref).deployments.value && bd.cluster == t && DeploymentUp(bd)
  {
    var keys := DesiredKeys(workload, targets, components, strategy);
    forall k | k in keys ensures ExpectedIn(k.ref.namespace, targets) != [] {
      var owner := DesiredKeyHasComponent(workload, targets, components, strategy, k);
    }
    RunningMeansUp(keys, targets, baselines, epoch, digests, read);
    DesiredKeysCover(workload, targets, components, strategy, c, t);
    var k := KeyFor(workload, c, NamespaceOf(t), |ExpectedIn(NamespaceOf(t), targets)|);
    assert KeyUp(k, targets, DigestFor(digests, k.ref), read(k.ref));
  }

  // The matrix, cell by cell

  ghost predicate CurrentBundle(r: KeyRead, digest: RenderDigest)
  {
    r.bundle.Present? && r.bundle.value.digestLabel == digest
    && r.bundle.value.observedGeneration == r.bundle.value.generation
  }

  /** What a BundleDeployment says of its cluster: nothing while its Bundle is not current
      or something else is applied than was asked for; else up, failed, or on its way. */
  ghost predicate Shows(bd: BundleDeployment, current: bool, phase: ClusterPhase)
  {
    phase == if !current || bd.appliedId == "" || bd.appliedId != bd.desiredId then CellPending
             else if bd.state in {"Ready", "Modified"} then CellRunning
             else if bd.state == "ErrApplied" then CellFailed
             else CellPending
  }

  ghost predicate IsListedCell(k: HelmOpKey, digest: RenderDigest, r: KeyRead, bd: BundleDeployment, c: Cell)
  {
    && bd.cluster != "" && c.cluster == bd.cluster && c.component == k.component && c.release == k.release
    && Shows(bd, CurrentBundle(r, digest), c.phase) && c.revision == bd.appliedId
    && c.message == if c.phase != CellFailed then "" else if |bd.message| > 1024 then bd.message[..1024] else bd.message
  }

  /** The HelmOp was refused, and not for what it had been refused for before. */
  ghost predicate RefusedAnew(ho: HelmOp, baselines: seq<RenderBaseline>, digest: RenderDigest, epoch: int)
  {
    var known := Lookup(baselines, ho.uid);
    && known.Some? && known.value.digest == digest && known.value.epoch == epoch
    && known.value.generation == ho.generation
    && ho.acceptedIsFalse && ho.fingerprint != known.value.fingerprint
  }

  ghost predicate Missing(k: HelmOpKey, targets: seq<string>, r: KeyRead, id: string)
    requires r.deployments.Some?
  {
    && id in ExpectedIn(k.ref.namespace, targets)
    && forall bd :: bd in r.deployments.value ==> bd.cluster != id || id == ""
  }

  ghost predicate IsMissingCell(k: HelmOpKey, targets: seq<string>, baselines: seq<RenderBaseline>, epoch: int,
                                digest: RenderDigest, r: KeyRead, c: Cell)
    requires r.deployments.Some?
  {
    && Missing(k, targets, r, c.cluster)
    && c == Cell(k.component, k.release, c.cluster,
                 if r.bundle.Absent? && r.helmOp.Present? && RefusedAnew(r.helmOp.value, baselines, digest, epoch)
                 then CellFailed else CellPending, "", "")
  }

  ghost predicate IsCellOf(k: HelmOpKey, targets: seq<string>, baselines: seq<RenderBaseline>, epoch: int,
                           digest: RenderDigest, r: KeyRead, c: Cell)
    requires r.deployments.Some?
  {
    || (exists bd :: bd in r.deployments.value && IsListedCell(k, digest, r, bd, c))
    || IsMissingCell(k, targets, baselines, epoch, digest, r, c)
  }

  /** A key cannot be told when one of the reads it needs is not answered. */
  ghost predicate Untold(k: HelmOpKey, targets: seq<string>, r: KeyRead)
  {
    || r.bundle.Unreadable? || r.deployments.None?
    || (r.bundle.Absent? && r.helmOp.Unreadable? && exists id :: Missing(k, targets, r, id))
  }

  lemma MissingMeans(k: HelmOpKey, targets: seq<string>, r: KeyRead, id: string)
    requires r.deployments.Some?
    ensures Missing(k, targets, r, id) <==>
            id in ExpectedIn(k.ref.namespace, targets) && id !in SeenClusters(r.deployments.value)
  {
  }

  lemma ListedCellIs(k: HelmOpKey, digest: RenderDigest, r: KeyRead, bd: BundleDeployment, c: Cell)
    ensures bd.cluster != "" && c == ListedCell(k, bd, Current(BundleOf(r.bundle), digest))
       <==> IsListedCell(k, digest, r, bd, c)
  {
  }

  lemma CellsOfKeyAre(k: HelmOpKey, targets: seq<string>, baselines: seq<RenderBaseline>, epoch: int,
                      digest: RenderDigest, r: KeyRead, c: Cell)
    ensures KeyCells(k, targets, baselines, epoch, digest, r).None? <==> Untold(k, targets, r)
    ensures KeyCells(k, targets, baselines, epoch, digest, r).Some? ==>
              (c in KeyCells(k, targets, baselines, epoch, digest, r).value <==>
                 IsCellOf(k, targets, baselines, epoch, digest, r, c))
  {
    if !r.bundle.Unreadable? && r.deployments.Some? {
      var bds, expected := r.deployments.value, ExpectedIn(k.ref.namespace, targets);
      var seen := SeenClusters(bds);
      forall id ensures Missing(k, targets, r, id) <==> id in expected && id !in seen {
        MissingMeans(k, targets, r, id);
      }
      var current := Current(BundleOf(r.bundle), digest);
      ListedCellsMembers(k, bds, current, c);
      forall bd: BundleDeployment
        ensures bd.cluster != "" && c == ListedCell(k, bd, current) <==> IsListedCell(k, digest, r, bd, c)
      {
        ListedCellIs(k, digest, r, bd, c);
      }
      var phase := MissingPhase(k, BundleOf(r.bundle), r.helmOp, baselines, digest, epoch);
      if phase.Some? { MissingCellsMembers(k, expected, seen, phase.value, c); }
      if r.helmOp.Present? { LookupUid(baselines, r.helmOp.value.uid); }
    }
  }

  /** There is a matrix if and only if every key can be told, and its cells are, in order
      of component and cluster, one for every BundleDeployment of a known cluster and one
      for every expected cluster that has none. */
  lemma CellsAre(keys: seq<HelmOpKey>, targets: seq<string>, baselines: seq<RenderBaseline>, epoch: int,
                 digests: Digests, read: Ref -> KeyRead, c: Cell)
    ensures BuildMatrix(keys, targets, baselines, epoch, digests, read).None? <==>
            exists k :: k in keys && Untold(k, targets, read(k.ref))
    ensures BuildMatrix(keys, targets, baselines, epoch, digests, read).Some? ==>
              var cells := BuildMatrix(keys, targets, baselines, epoch, digests, read).value;
              && SortedBy(CellKey, cells)
              && (c in cells <==>
                    exists k :: k in keys && read(k.ref).deployments.Some?
                                && IsCellOf(k, targets, baselines, epoch, DigestFor(digests, k.ref), read(k.ref), c))
  {
    forall k: HelmOpKey ensures KeyCells(k, targets, baselines, epoch, DigestFor(digests, k.ref), read(k.ref)).None?
                <==> Untold(k, targets, read(k.ref))
    {
      CellsOfKeyAre(k, targets, baselines, epoch, DigestFor(digests, k.ref), read(k.ref), c);
    }
    ToldThrough(keys, targets, baselines, epoch, digests, read);
    var raw := RawMatrix(keys, targets, baselines, epoch, digests, read);
    if raw.Some? {
      SortBySorts(CellKey, raw.value);
      SortByKeepsMembers(CellKey, raw.value, c);
      RawMatrixMembers(keys, targets, baselines, epoch, digests, read, c);
      CellsFromKeys(keys, targets, baselines, epoch, digests, read, c);
    }
  }

  lemma {:induction false} ToldThrough(keys: seq<HelmOpKey>, targets: seq<string>, baselines: seq<RenderBaseline>,
                                       epoch: int, digests: Digests, read: Ref -> KeyRead)
    ensures RawMatrix(keys, targets, baselines, epoch, digests, read).None? <==>
            exists k ::
              k in keys && KeyCells(k, targets, baselines, epoch, DigestFor(digests, k.ref), read(k.ref)).None?
  {
    if keys != [] {
      var front, last := keys[..|keys| - 1], keys[|keys| - 1];
      ToldThrough(front, targets, baselines, epoch, digests, read);
      assert keys == front + [last];
    }
  }

  lemma CellsFromKeys(keys: seq<HelmOpKey>, targets: seq<string>, baselines: seq<RenderBaseline>, epoch: int,
                      digests: Digests, read: Ref -> KeyRead, c: Cell)
    requires forall k :: k in keys ==>
               KeyCells(k, targets, baselines, epoch, DigestFor(digests, k.ref), read(k.ref)).Some?
    ensures (exists k :: k in keys
                         && c in KeyCells(k, targets, baselines, epoch, DigestFor(digests, k.ref), read(k.ref)).value)
       <==> exists k :: k in keys && read(k.ref).deployments.Some?
                        && IsCellOf(k, targets, baselines, epoch, DigestFor(digests, k.ref), read(k.ref), c)
  {
    forall k | k in keys
      ensures read(k.ref).deployments.Some?
      ensures c in KeyCells(k, targets, baselines, epoch, DigestFor(digests, k.ref), read(k.ref)).value
         <==> IsCellOf(k, targets, baselines, epoch, DigestFor(digests, k.ref), read(k.ref), c)
    {
      CellsOfKeyAre(k, targets, baselines, epoch, DigestFor(digests, k.ref), read(k.ref), c);
    }
  }
}
