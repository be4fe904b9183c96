/** Render baselines: which fingerprint of a HelmOp's Accepted condition was there
    before the current render attempt had a chance to be rejected. */
module Baselines {
  import opened Ordering
  import opened Workload

  predicate SameAttempt(a: RenderBaseline, b: RenderBaseline)
  {
    a.digest == b.digest && a.epoch == b.epoch && a.generation == b.generation
  }

  function Upsert(baselines: seq<RenderBaseline>, entry: RenderBaseline): seq<RenderBaseline>
  {
    if baselines == [] then [entry]
    else if baselines[0].uid != entry.uid then [baselines[0]] + Upsert(baselines[1..], entry)
    else if SameAttempt(baselines[0], entry) then baselines
    else [entry] + baselines[1..]
  }

  method UpsertRenderBaseline(baselines: seq<RenderBaseline>, entry: RenderBaseline) returns (out: seq<RenderBaseline>)
    ensures out == Upsert(baselines, entry)
  {
    for i := 0 to |baselines|
      invariant Upsert(baselines, entry) == baselines[..i] + Upsert(baselines[i..], entry)
    {
      if baselines[i].uid == entry.uid {
        if baselines[i].digest != entry.digest || baselines[i].epoch != entry.epoch
           || baselines[i].generation != entry.generation {
          out := baselines[i := entry];
          assert out == baselines[..i] + ([entry] + baselines[i..][1..]);
          return;
        }
        assert baselines == baselines[..i] + baselines[i..];
        return baselines;
      }
      assert baselines[i..][1..] == baselines[i + 1..];
      assert baselines[..i + 1] == baselines[..i] + [baselines[i..][0]];
    }
    return baselines + [entry];
  }

  function UidKey(b: RenderBaseline): Key
  {
    [b.uid]
  }

  function KeepUids(baselines: seq<RenderBaseline>, uids: set<string>): seq<RenderBaseline>
  {
    if baselines == [] then []
    else
      var front, b := KeepUids(baselines[..|baselines| - 1], uids), baselines[|baselines| - 1];
      if b.uid in uids then front + [b] else front
  }

  function Prune(baselines: seq<RenderBaseline>, uids: set<string>): seq<RenderBaseline>
  {
    SortBy(UidKey, KeepUids(baselines, uids))
  }

  method PruneRenderBaselines(baselines: seq<RenderBaseline>, uids: set<string>) returns (out: seq<RenderBaseline>)
    ensures out == Prune(baselines, uids)
  {
    out := [];
    for i := 0 to |baselines|
      invariant out == KeepUids(baselines[..i], uids)
    {
      assert baselines[..i + 1][..i] == baselines[..i];
      if baselines[i].uid in uids {
        out := out + [baselines[i]];
      }
    }
    assert baselines[..|baselines|] == baselines;
    out := SortBy(UidKey, out);
  }

  /** The matrix takes the first baseline with the HelmOp's UID. */
  function Lookup(baselines: seq<RenderBaseline>, uid: string): Option<RenderBaseline>
  {
    if baselines == [] then None
    else if baselines[0].uid == uid then Some(baselines[0])
    else Lookup(baselines[1..], uid)
  }

  ghost predicate OnePerUid(baselines: seq<RenderBaseline>)
  {
    forall i, j :: 0 <= i < j < |baselines| ==> baselines[i].uid != baselines[j].uid
  }

  function AcceptedFalseTerminal(ho: HelmOp, baseline: Option<RenderBaseline>, digest: RenderDigest, epoch: int,
                                 generation: int): bool
  {
    && baseline.Some?
    && baseline.value.uid == ho.uid
    && baseline.value.digest == digest
    && baseline.value.epoch == epoch
    && baseline.value.generation == generation
    && ho.fingerprint != baseline.value.fingerprint
    && ho.acceptedIsFalse
  }

  // A list of baselines behaves as a map from UIDs

  lemma {:induction false} LookupMeaning(baselines: seq<RenderBaseline>, b: RenderBaseline)
    requires OnePerUid(baselines)
    ensures b in baselines <==> Lookup(baselines, b.uid) == Some(b)
  {
    if baselines != [] {
      LookupMeaning(baselines[1..], b);
      assert baselines == [baselines[0]] + baselines[1..];
    }
  }

  lemma {:induction false} LookupUid(baselines: seq<RenderBaseline>, uid: string)
    ensures Lookup(baselines, uid).Some? ==>
              Lookup(baselines, uid).value in baselines && Lookup(baselines, uid).value.uid == uid
    ensures Lookup(baselines, uid).None? ==> forall b :: b in baselines ==> b.uid != uid
  {
    if baselines != [] {
      LookupUid(baselines[1..], uid);
      assert baselines == [baselines[0]] + baselines[1..];
    }
  }

  lemma {:induction false} UpsertMembers(baselines: seq<RenderBaseline>, entry: RenderBaseline)
    requires OnePerUid(baselines)
    ensures OnePerUid(Upsert(baselines, entry))
    ensures forall b :: b in Upsert(baselines, entry) ==> b == entry || b in baselines
    ensures forall uid :: Lookup(Upsert(baselines, entry), uid) ==
              var before := Lookup(baselines, uid);
              if uid != entry.uid || (before.Some? && SameAttempt(before.value, entry)) then before else Some(entry)
  {
    if baselines != [] && baselines[0].uid != entry.uid {
      UpsertMembers(baselines[1..], entry);
      assert forall b :: b in baselines[1..] ==> b.uid != baselines[0].uid;
    }
  }

  lemma {:induction false} KeepUidsMembers(baselines: seq<RenderBaseline>, uids: set<string>)
    requires OnePerUid(baselines)
    ensures OnePerUid(KeepUids(baselines, uids))
    ensures forall b :: b in KeepUids(baselines, uids) <==> b in baselines && b.uid in uids
  {
    if baselines != [] {
      KeepUidsMembers(baselines[..|baselines| - 1], uids);
      assert baselines == baselines[..|baselines| - 1] + [baselines[|baselines| - 1]];
    }
  }

  lemma PruneMembers(baselines: seq<RenderBaseline>, uids: set<string>, uid: string)
    requires OnePerUid(baselines)
    ensures OnePerUid(Prune(baselines, uids))
    ensures Lookup(Prune(baselines, uids), uid) == if uid in uids then Lookup(baselines, uid) else None
  {
    var kept, out := KeepUids(baselines, uids), Prune(baselines, uids);
    KeepUidsMembers(baselines, uids);
    forall i, j | 0 <= i < j < |kept| ensures UidKey(kept[i]) != UidKey(kept[j]) {
      assert UidKey(kept[i])[0] != UidKey(kept[j])[0];
    }
    SortBySorts(UidKey, kept);
    DistinctKeysPermute(UidKey, kept, out);
    forall i, j | 0 <= i < j < |out| ensures out[i].uid != out[j].uid {
      assert UidKey(out[i]) != UidKey(out[j]);
    }
    LookupUid(out, uid);
    LookupUid(baselines, uid);
    if Lookup(out, uid).Some? {
      SortByKeepsMembers(UidKey, kept, Lookup(out, uid).value);
      LookupMeaning(baselines, Lookup(out, uid).value);
    } else if Lookup(baselines, uid).Some? {
      SortByKeepsMembers(UidKey, kept, Lookup(baselines, uid).value);
    }
  }

  // Any sequence of observations and prunes

  datatype BaselineStep = Observe(entry: RenderBaseline) | Keep(uids: set<string>)

  function After(steps: seq<BaselineStep>): seq<RenderBaseline>
  {
    if steps == [] then [] else Apply(After(steps[..|steps| - 1]), steps[|steps| - 1])
  }

  function Apply(before: seq<RenderBaseline>, step: BaselineStep): seq<RenderBaseline>
  {
    match step
    case Observe(entry) => Upsert(before, entry)
    case Keep(uids) => Prune(before, uids)
  }

  /** What one step makes of the baseline found for `uid`. */
  function FoundAfter(found: Option<RenderBaseline>, step: BaselineStep, uid: string): Option<RenderBaseline>
  {
    match step
    case Observe(entry) =>
      if uid != entry.uid || (found.Some? && SameAttempt(found.value, entry)) then found else Some(entry)
    case Keep(uids) => if uid in uids then found else None
  }

  lemma ApplyMeaning(before: seq<RenderBaseline>, step: BaselineStep, uid: string)
    requires OnePerUid(before)
    ensures OnePerUid(Apply(before, step))
    ensures Lookup(Apply(before, step), uid) == FoundAfter(Lookup(before, uid), step, uid)
  {
    match step
    case Observe(entry) => UpsertMembers(before, entry);
    case Keep(uids) => PruneMembers(before, uids, uid);
  }

  /** From step `i` on, `uid` was observed at one attempt only and never pruned. */
  ghost predicate Unbroken(steps: seq<BaselineStep>, uid: string, i: nat)
  {
    && i < |steps|
    && steps[i].Observe? && steps[i].entry.uid == uid
    && forall j {:trigger steps[j]} :: i < j < |steps| ==>
         match steps[j]
         case Observe(entry) => entry.uid == uid ==> SameAttempt(entry, steps[i].entry)
         case Keep(uids) => uid in uids
  }

  /** Step `i` opened the current unbroken run. */
  ghost predicate Opens(steps: seq<BaselineStep>, uid: string, i: nat)
  {
    Unbroken(steps, uid, i) && forall j :: 0 <= j < i ==> !Unbroken(steps, uid, j)
  }

  /** What one more step does to the run opened at `i`. */
  ghost predicate Continues(step: BaselineStep, uid: string, first: RenderBaseline)
  {
    match step
    case Observe(entry) => entry.uid == uid ==> SameAttempt(entry, first)
    case Keep(uids) => uid in uids
  }

  lemma UnbrokenStep(steps: seq<BaselineStep>, uid: string, i: nat)
    requires i < |steps| - 1
    ensures var n := |steps| - 1;
            Unbroken(steps, uid, i) <==> Unbroken(steps[..n], uid, i) && Continues(steps[n], uid, steps[i].entry)
  {
  }

  /** After any sequence of upserts and prunes there is at most one baseline per HelmOp,
      and it is the first observation of the current unbroken run of one attempt, if
      there is such a run, and absent otherwise. */
  lemma {:induction false} BaselineIsFirstObservation(steps: seq<BaselineStep>, uid: string)
    ensures OnePerUid(After(steps))
    ensures Lookup(After(steps), uid).None? <==> forall i :: 0 <= i < |steps| ==> !Unbroken(steps, uid, i)
    ensures forall i :: 0 <= i < |steps| && Opens(steps, uid, i) ==> Lookup(After(steps), uid) == Some(steps[i].entry)
  {
    if steps != [] {
      var n := |steps| - 1;
      var front := steps[..n];
      BaselineIsFirstObservation(front, uid);
      ApplyMeaning(After(front), steps[n], uid);
      assert Unbroken(steps, uid, n) <==> steps[n].Observe? && steps[n].entry.uid == uid;
      if i :| 0 <= i < n && Unbroken(front, uid, i) {
        var first := FirstUnbroken(front, uid, i);
        StepAfterBaseline(steps, uid, first);
        assert Lookup(After(front), uid) == Some(front[first].entry);
      } else {
        StepAfterNone(steps, front, uid);
      }
    }
  }

  /** With a run open at `first`, the last step either continues it, and nothing
      changes, or ends it, and only an observation of `uid` opens another. */
  lemma StepAfterBaseline(steps: seq<BaselineStep>, uid: string, first: nat)
    requires first < |steps| - 1 && Opens(steps[..|steps| - 1], uid, first)
    ensures var last := steps[|steps| - 1];
            if Continues(last, uid, steps[first].entry)
            then Opens(steps, uid, first) && forall i :: 0 <= i < |steps| && Opens(steps, uid, i) ==> i == first
            else forall i :: 0 <= i < |steps| ==>
              (Unbroken(steps, uid, i) <==> i == |steps| - 1 && last.Observe? && last.entry.uid == uid)
  {
    var n := |steps| - 1;
    var front := steps[..n];
    forall i | 0 <= i < n
      ensures Unbroken(steps, uid, i) ==> Unbroken(front, uid, i) && Continues(steps[n], uid, steps[first].entry)
    {
      UnbrokenStep(steps, uid, i);
      if Unbroken(front, uid, i) { assert SameAttempt(front[first].entry, front[i].entry); }
    }
    UnbrokenStep(steps, uid, first);
    assert Unbroken(steps, uid, n) <==> steps[n].Observe? && steps[n].entry.uid == uid;
  }

  lemma StepAfterNone(steps: seq<BaselineStep>, front: seq<BaselineStep>, uid: string)
    requires steps != [] && front == steps[..|steps| - 1]
    requires forall i :: 0 <= i < |front| ==> !Unbroken(front, uid, i)
    ensures var last := steps[|steps| - 1];
            forall i :: 0 <= i < |steps| ==>
              (Unbroken(steps, uid, i) <==> i == |steps| - 1 && last.Observe? && last.entry.uid == uid)
  {
    forall i | 0 <= i < |steps| - 1 ensures !Unbroken(steps, uid, i) {
      UnbrokenStep(steps, uid, i);
    }
  }

  /** A rejection fails the current attempt exactly when the attempt's first observation
      saw something else: one left over from an earlier render never does. */
  lemma RejectionMustBeNew(steps: seq<BaselineStep>, ho: HelmOp, digest: RenderDigest, epoch: int)
    ensures AcceptedFalseTerminal(ho, Lookup(After(steps), ho.uid), digest, epoch, ho.generation) <==>
            exists i :: && 0 <= i < |steps| && Opens(steps, ho.uid, i)
                        && steps[i].entry.digest == digest && steps[i].entry.epoch == epoch
                        && steps[i].entry.generation == ho.generation
                        && steps[i].entry.fingerprint != ho.fingerprint
                        && ho.acceptedIsFalse
  {
    BaselineIsFirstObservation(steps, ho.uid);
    LookupUid(After(steps), ho.uid);
    if Lookup(After(steps), ho.uid).Some? {
      var i :| 0 <= i < |steps| && Unbroken(steps, ho.uid, i);
      var first := FirstUnbroken(steps, ho.uid, i);
    }
  }

  lemma {:induction false} FirstUnbroken(steps: seq<BaselineStep>, uid: string, i: nat) returns (first: nat)
    requires Unbroken(steps, uid, i)
    ensures first <= i && Opens(steps, uid, first)
  {
    if j :| 0 <= j < i && Unbroken(steps, uid, j) {
      first := FirstUnbroken(steps, uid, j);
    } else {
      first := i;
    }
  }
}
