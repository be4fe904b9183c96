/** Cluster phases: the worst of a cluster's cells, the workload phase derived from a
    list of phases, and why the two ways of deriving it tell the same story. */
module Phases {
  import opened Ordering
  import opened Workload

  function Rank(p: ClusterPhase): nat
  {
    match p
    case CellFailed => 2
    case CellPending => 1
    case CellRunning => 0
  }

  function WorstClusterPhase(a: ClusterPhase, b: ClusterPhase): ClusterPhase
  {
    if Rank(a) >= Rank(b) then a else b
  }

  /** The phase the aggregation holds for `id` after reading `cells`. */
  function WorstOf(cells: seq<Cell>, id: string): Option<ClusterPhase>
  {
    if cells == [] then None
    else
      var sofar, c := WorstOf(cells[..|cells| - 1], id), cells[|cells| - 1];
      if c.cluster != id then sofar
      else if sofar.None? then Some(c.phase)
      else Some(WorstClusterPhase(sofar.value, c.phase))
  }

  /** The message it holds: the last one that arrived while the worst phase was Failed. */
  function MessageOf(cells: seq<Cell>, id: string): string
  {
    if cells == [] then ""
    else
      var front, c := cells[..|cells| - 1], cells[|cells| - 1];
      if c.cluster != id then MessageOf(front, id)
      else if WorstOf(front, id).None? then if c.phase == CellFailed then c.message else ""
      else if WorstOf(cells, id).value == CellFailed && c.message != "" then c.message
      else MessageOf(front, id)
  }

  function StatusKey(s: ClusterStatus): Key
  {
    [s.cluster]
  }

  /** What the aggregation promises: one entry per distinct cluster, in order. */
  ghost predicate IsAggregate(cells: seq<Cell>, statuses: seq<ClusterStatus>)
  {
    && SortedBy(StatusKey, statuses)
    && DistinctKeys(StatusKey, statuses)
    && (forall id :: (exists s :: s in statuses && s.cluster == id) <==> WorstOf(cells, id).Some?)
    && (forall s :: s in statuses ==> WorstOf(cells, s.cluster).Some? && s == StatusFor(cells, s.cluster))
  }

  function StatusFor(cells: seq<Cell>, id: string): ClusterStatus
    requires WorstOf(cells, id).Some?
  {
    ClusterStatus(id, WorstOf(cells, id).value, MessageOf(cells, id))
  }

  /** The promise leaves no choice. */
  lemma AggregateIsUnique(cells: seq<Cell>, a: seq<ClusterStatus>, b: seq<ClusterStatus>)
    requires IsAggregate(cells, a) && IsAggregate(cells, b)
    ensures a == b
  {
    forall s ensures multiset(a)[s] == multiset(b)[s] {
      SameMembers(cells, a, b, s);
      SameMembers(cells, b, a, s);
      if s in a {
        var i :| 0 <= i < |a| && a[i] == s;
        AtMostOnce(StatusKey, a, i);
      }
      if s in b {
        var j :| 0 <= j < |b| && b[j] == s;
        AtMostOnce(StatusKey, b, j);
      }
    }
    assert multiset(a) == multiset(b);
    SortedUnique(StatusKey, a, b);
  }

  lemma SameMembers(cells: seq<Cell>, a: seq<ClusterStatus>, b: seq<ClusterStatus>, s: ClusterStatus)
    requires IsAggregate(cells, a) && IsAggregate(cells, b)
    ensures s in a ==> s in b
  {
  }

  /** The clusters of the matrix in order of first appearance. */
  function Clusters(cells: seq<Cell>): seq<string>
  {
    if cells == [] then []
    else
      var front, id := Clusters(cells[..|cells| - 1]), cells[|cells| - 1].cluster;
      if id in front then front else front + [id]
  }

  function StatusesFor(cells: seq<Cell>, ids: seq<string>): (r: seq<ClusterStatus>)
    requires forall id :: id in ids ==> WorstOf(cells, id).Some?
    ensures |r| == |ids|
    ensures forall i :: 0 <= i < |r| ==> r[i] == StatusFor(cells, ids[i])
  {
    if ids == [] then [] else [StatusFor(cells, ids[0])] + StatusesFor(cells, ids[1..])
  }

  function AggregateClusters(cells: seq<Cell>): seq<ClusterStatus>
  {
    ClustersShape(cells);
    SortBy(StatusKey, StatusesFor(cells, Clusters(cells)))
  }

  lemma {:induction false} ClustersShape(cells: seq<Cell>)
    ensures forall i, j :: 0 <= i < j < |Clusters(cells)| ==> Clusters(cells)[i] != Clusters(cells)[j]
    ensures forall id :: id in Clusters(cells) <==> WorstOf(cells, id).Some?
  {
    if cells != [] {
      ClustersShape(cells[..|cells| - 1]);
    }
  }

  lemma AggregateClustersIsAggregate(cells: seq<Cell>)
    ensures IsAggregate(cells, AggregateClusters(cells))
  {
    ClustersShape(cells);
    var raw := StatusesFor(cells, Clusters(cells));
    assert DistinctKeys(StatusKey, raw) by {
      forall i, j | 0 <= i < j < |raw| ensures StatusKey(raw[i]) != StatusKey(raw[j]) {
        assert StatusKey(raw[i])[0] != StatusKey(raw[j])[0];
      }
    }
    var out := AggregateClusters(cells);
    SortBySorts(StatusKey, raw);
    DistinctKeysPermute(StatusKey, raw, out);
    forall s ensures s in out <==> s in raw { SortByKeepsMembers(StatusKey, raw, s); }
    forall id ensures (exists s :: s in out && s.cluster == id) <==> WorstOf(cells, id).Some? {
      if WorstOf(cells, id).Some? {
        assert id in Clusters(cells);
        var i :| 0 <= i < |Clusters(cells)| && Clusters(cells)[i] == id;
        assert raw[i] in out && raw[i].cluster == id;
      }
    }
  }

  /** Aggregates per cluster with two maps, then visits the map in whatever order the
      runtime picks and sorts. The order picked does not show. */
  method AggregateClusterStatuses(cells: seq<Cell>) returns (statuses: seq<ClusterStatus>)
    ensures statuses == AggregateClusters(cells)
  {
    var phases: map<string, ClusterPhase> := map[];
    var messages: map<string, string> := map[];
    for i := 0 to |cells|
      invariant forall id :: id in phases <==> WorstOf(cells[..i], id).Some?
      invariant forall id :: id in phases ==> phases[id] == WorstOf(cells[..i], id).value
      invariant forall id :: (if id in messages then messages[id] else "") == MessageOf(cells[..i], id)
    {
      var c := cells[i];
      assert cells[..i + 1][..i] == cells[..i];
      if c.cluster !in phases {
        phases := phases[c.cluster := c.phase];
        NoMessageYet(cells[..i], c.cluster);
        if c.phase == CellFailed {
          messages := messages[c.cluster := c.message];
        }
      } else {
        var worst := WorstClusterPhase(phases[c.cluster], c.phase);
        phases := phases[c.cluster := worst];
        if worst == CellFailed && c.message != "" {
          messages := messages[c.cluster := c.message];
        }
      }
    }
    assert cells[..|cells|] == cells;
    var raw := VisitMap(cells, phases, messages);
    statuses := SortBy(StatusKey, raw);
    SortBySorts(StatusKey, raw);
    DistinctKeysPermute(StatusKey, raw, statuses);
    forall s ensures s in statuses <==> s in raw { SortByKeepsMembers(StatusKey, raw, s); }
    AggregateClustersIsAggregate(cells);
    AggregateIsUnique(cells, statuses, AggregateClusters(cells));
  }

  lemma {:induction false} NoMessageYet(cells: seq<Cell>, id: string)
    requires WorstOf(cells, id).None?
    ensures MessageOf(cells, id) == ""
  {
    if cells != [] { NoMessageYet(cells[..|cells| - 1], id); }
  }

  method VisitMap(ghost cells: seq<Cell>, phases: map<string, ClusterPhase>, messages: map<string, string>)
    returns (raw: seq<ClusterStatus>)
    requires forall id :: id in phases <==> WorstOf(cells, id).Some?
    requires forall id :: id in phases ==> phases[id] == WorstOf(cells, id).value
    requires forall id :: (if id in messages then messages[id] else "") == MessageOf(cells, id)
    ensures DistinctKeys(StatusKey, raw)
    ensures forall s :: s in raw ==> WorstOf(cells, s.cluster).Some? && s == StatusFor(cells, s.cluster)
    ensures forall id :: (exists s :: s in raw && s.cluster == id) <==> WorstOf(cells, id).Some?
  {
    raw := [];
    var left := phases.Keys;
    while left != {}
      invariant left <= phases.Keys
      invariant forall s :: s in raw ==> s.cluster in phases && s.cluster !in left && s == StatusFor(cells, s.cluster)
      invariant forall id :: id in phases && id !in left ==> StatusFor(cells, id) in raw
      invariant forall i, j :: 0 <= i < j < |raw| ==> raw[i].cluster != raw[j].cluster
      decreases |left|
    {
      var id :| id in left;
      raw := raw + [ClusterStatus(id, phases[id], if id in messages then messages[id] else "")];
      left := left - {id};
    }
    forall i, j | 0 <= i < j < |raw| ensures StatusKey(raw[i]) != StatusKey(raw[j]) {
      assert StatusKey(raw[i])[0] != StatusKey(raw[j])[0];
    }
    forall id ensures (exists s :: s in raw && s.cluster == id) <==> WorstOf(cells, id).Some? {
      if id in phases { assert StatusFor(cells, id) in raw; }
    }
  }

  ghost predicate HasCell(cells: seq<Cell>, id: string, p: ClusterPhase)
  {
    exists c :: c in cells && c.cluster == id && c.phase == p
  }

  /** The aggregated phase of a cluster is the worst of its cells, whatever their order:
      Failed if one failed, else Pending if one is pending, else Running if there is one. */
  lemma {:induction false} WorstOfMeaning(cells: seq<Cell>, id: string)
    ensures WorstOf(cells, id) ==
            if HasCell(cells, id, CellFailed) then Some(CellFailed)
            else if HasCell(cells, id, CellPending) then Some(CellPending)
            else if HasCell(cells, id, CellRunning) then Some(CellRunning)
            else None
  {
    if cells != [] {
      var front, c := cells[..|cells| - 1], cells[|cells| - 1];
      WorstOfMeaning(front, id);
      forall p ensures HasCell(cells, id, p) <==> HasCell(front, id, p) || (c.cluster == id && c.phase == p) {
        assert cells == front + [c];
      }
    }
  }

  lemma AggregateForgetsCellOrder(a: seq<Cell>, b: seq<Cell>)
    requires multiset(a) == multiset(b)
    ensures |AggregateClusters(a)| == |AggregateClusters(b)|
    ensures forall i :: 0 <= i < |AggregateClusters(a)| ==>
              AggregateClusters(a)[i].(message := "") == AggregateClusters(b)[i].(message := "")
  {
    var x, y := AggregateClusters(a), AggregateClusters(b);
    AggregateClustersIsAggregate(a);
    AggregateClustersIsAggregate(b);
    forall id ensures WorstOf(a, id) == WorstOf(b, id) {
      WorstOfMeaning(a, id);
      WorstOfMeaning(b, id);
      forall p ensures HasCell(a, id, p) == HasCell(b, id, p) {
        assert forall c :: c in a <==> c in multiset(b);
      }
    }
    var u, v := Silenced(x), Silenced(y);
    forall s ensures s in u ==> s in v { SilencedMembers(a, b, s); }
    forall s ensures s in v ==> s in u { SilencedMembers(b, a, s); }
    SortedSetsAgree(StatusKey, u, v);
  }

  function Silenced(s: seq<ClusterStatus>): (r: seq<ClusterStatus>)
    ensures |r| == |s| && forall i :: 0 <= i < |s| ==> r[i] == s[i].(message := "")
  {
    if s == [] then [] else [s[0].(message := "")] + Silenced(s[1..])
  }

  lemma SilencedMembers(a: seq<Cell>, b: seq<Cell>, s: ClusterStatus)
    requires forall id :: WorstOf(a, id) == WorstOf(b, id)
    requires IsAggregate(a, AggregateClusters(a)) && IsAggregate(b, AggregateClusters(b))
    ensures s in Silenced(AggregateClusters(a)) ==> s in Silenced(AggregateClusters(b))
  {
  }

  // The workload phase

  function Count(phases: seq<ClusterPhase>, p: ClusterPhase): nat
  {
    if phases == [] then 0
    else Count(phases[..|phases| - 1], p) + if phases[|phases| - 1] == p then 1 else 0
  }

  ghost predicate Every(phases: seq<ClusterPhase>, p: ClusterPhase)
  {
    forall i :: 0 <= i < |phases| ==> phases[i] == p
  }

  /** The verdict in words: empty and all-pending are Pending, uniform otherwise keeps
      its name, anything mixed is Degraded. */
  ghost function PhaseOf(phases: seq<ClusterPhase>): Phase
  {
    if phases == [] || Every(phases, CellPending) then PhasePending
    else if Every(phases, CellRunning) then PhaseRunning
    else if Every(phases, CellFailed) then PhaseFailed
    else PhaseDegraded
  }

  function DerivedPhase(phases: seq<ClusterPhase>): Phase
  {
    if |phases| == 0 then PhasePending
    else
      var running, failed, pending := Count(phases, CellRunning), Count(phases, CellFailed), Count(phases, CellPending);
      if failed == 0 && pending == 0 then PhaseRunning
      else if failed == 0 && running == 0 then PhasePending
      else if running == 0 && pending == 0 then PhaseFailed
      else PhaseDegraded
  }

  method DerivePhase(phases: seq<ClusterPhase>) returns (phase: Phase)
    ensures phase == DerivedPhase(phases) == PhaseOf(phases)
  {
    DerivedPhaseMeaning(phases);
    if |phases| == 0 {
      return PhasePending;
    }
    var running, pending, failed := 0, 0, 0;
    for i := 0 to |phases|
      invariant running == Count(phases[..i], CellRunning)
      invariant failed == Count(phases[..i], CellFailed)
      invariant pending == Count(phases[..i], CellPending)
    {
      assert phases[..i + 1][..i] == phases[..i];
      match phases[i] {
        case CellRunning => running := running + 1;
        case CellFailed => failed := failed + 1;
        case CellPending => pending := pending + 1;
      }
    }
    assert phases[..|phases|] == phases;
    if failed == 0 && pending == 0 {
      return PhaseRunning;
    } else if failed == 0 && running == 0 {
      return PhasePending;
    } else if running == 0 && pending == 0 {
      return PhaseFailed;
    }
    return PhaseDegraded;
  }

  lemma {:induction false} CountZero(phases: seq<ClusterPhase>, p: ClusterPhase)
    ensures Count(phases, p) == 0 <==> forall i :: 0 <= i < |phases| ==> phases[i] != p
  {
    if phases != [] {
      CountZero(phases[..|phases| - 1], p);
    }
  }

  lemma DerivedPhaseMeaning(phases: seq<ClusterPhase>)
    ensures DerivedPhase(phases) == PhaseOf(phases)
  {
    CountZero(phases, CellRunning);
    CountZero(phases, CellFailed);
    CountZero(phases, CellPending);
    if phases != [] { assert phases[0] == phases[0]; }
  }

  function CellPhases(cells: seq<Cell>): (r: seq<ClusterPhase>)
    ensures |r| == |cells| && forall i :: 0 <= i < |cells| ==> r[i] == cells[i].phase
  {
    if cells == [] then [] else CellPhases(cells[..|cells| - 1]) + [cells[|cells| - 1].phase]
  }

  function StatusPhases(statuses: seq<ClusterStatus>): (r: seq<ClusterPhase>)
    ensures |r| == |statuses| && forall i :: 0 <= i < |statuses| ==> r[i] == statuses[i].phase
  {
    if statuses == [] then [] else StatusPhases(statuses[..|statuses| - 1]) + [statuses[|statuses| - 1].phase]
  }

  function PhaseFromCells(cells: seq<Cell>): Phase
  {
    DerivedPhase(CellPhases(cells))
  }

  function GuardPhaseTransition(derived: Phase, current: Phase, createdAt: int, now: int): Phase
  {
    if derived == PhaseFailed && current != PhaseRunning && current != PhaseDegraded && current != PhaseFailed
       && now - createdAt < GRACE_PERIOD
    then PhasePending else derived
  }

  /** The grace period only ever delays a Failed, to Pending, and only within five minutes
      of creation for a workload that has shown nothing of itself yet. A Failed that was
      shown is never taken back by it. */
  lemma GraceOnlyDelaysFailure(derived: Phase, current: Phase, createdAt: int, now: int)
    ensures var shown := GuardPhaseTransition(derived, current, createdAt, now);
            && (shown != derived <==> derived == PhaseFailed && now < createdAt + GRACE_PERIOD
                                      && (current == NoPhase || current == PhasePending || current == PhaseUnknown))
            && (shown != derived ==> shown == PhasePending)
            && (shown == PhaseFailed ==>
                  forall later :: GuardPhaseTransition(derived, shown, createdAt, later) == PhaseFailed)
  {
  }

  const SECOND := 1_000_000_000
  const MINUTE := 60 * SECOND
  const GRACE_PERIOD := 5 * MINUTE

  lemma ClusterCell(cells: seq<Cell>, s: ClusterStatus)
    requires s in AggregateClusters(cells)
    ensures HasCell(cells, s.cluster, s.phase)
    ensures s.phase == CellRunning ==> !HasCell(cells, s.cluster, CellFailed) && !HasCell(cells, s.cluster, CellPending)
    ensures s.phase == CellPending ==> !HasCell(cells, s.cluster, CellFailed)
  {
    AggregateClustersIsAggregate(cells);
    WorstOfMeaning(cells, s.cluster);
  }

  lemma CellCluster(cells: seq<Cell>, c: Cell) returns (s: ClusterStatus)
    requires c in cells
    ensures s in AggregateClusters(cells) && s.cluster == c.cluster && Rank(s.phase) >= Rank(c.phase)
  {
    AggregateClustersIsAggregate(cells);
    WorstOfMeaning(cells, c.cluster);
    assert HasCell(cells, c.cluster, c.phase);
    s :| s in AggregateClusters(cells) && s.cluster == c.cluster;
  }

  lemma EveryPhases(cells: seq<Cell>, statuses: seq<ClusterStatus>, p: ClusterPhase)
    ensures Every(CellPhases(cells), p) <==> forall c :: c in cells ==> c.phase == p
    ensures Every(StatusPhases(statuses), p) <==> forall s :: s in statuses ==> s.phase == p
  {
  }

  /** Deriving the phase from clusters instead of cells never turns a workload Running
      or stops it from being so, and agrees on every verdict that is not mixed. */
  lemma AggregationPreservesPhase(cells: seq<Cell>)
    ensures var fromCells, fromClusters := PhaseFromCells(cells), DerivedPhase(StatusPhases(AggregateClusters(cells)));
            && (fromClusters == PhaseRunning <==> fromCells == PhaseRunning)
            && (fromCells != PhaseDegraded ==> fromClusters == fromCells)
  {
    var statuses := AggregateClusters(cells);
    DerivedPhaseMeaning(CellPhases(cells));
    DerivedPhaseMeaning(StatusPhases(statuses));
    SameEmptiness(cells);
    EveryRunning(cells);
    UniformCells(cells, CellPending);
    UniformCells(cells, CellFailed);
    if cells != [] {
      assert CellPhases(cells)[0] == cells[0].phase;
      assert StatusPhases(statuses)[0] == statuses[0].phase;
    }
  }

  lemma SameEmptiness(cells: seq<Cell>)
    ensures AggregateClusters(cells) == [] <==> cells == []
  {
  }

  lemma EveryRunning(cells: seq<Cell>)
    ensures Every(CellPhases(cells), CellRunning) <==> Every(StatusPhases(AggregateClusters(cells)), CellRunning)
  {
    var statuses := AggregateClusters(cells);
    EveryPhases(cells, statuses, CellRunning);
    if forall c :: c in cells ==> c.phase == CellRunning {
      forall s | s in statuses ensures s.phase == CellRunning { ClusterCell(cells, s); }
    }
    if forall s :: s in statuses ==> s.phase == CellRunning {
      forall c | c in cells ensures c.phase == CellRunning { var s := CellCluster(cells, c); }
    }
  }

  lemma UniformCells(cells: seq<Cell>, p: ClusterPhase)
    ensures Every(CellPhases(cells), p) ==> Every(StatusPhases(AggregateClusters(cells)), p)
  {
    var statuses := AggregateClusters(cells);
    EveryPhases(cells, statuses, p);
    if forall c :: c in cells ==> c.phase == p {
      forall s | s in statuses ensures s.phase == p { ClusterCell(cells, s); }
    }
  }
}
