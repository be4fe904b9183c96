/** Requests: applied in one write or not at all, remembered by identity, and counted. */
module Triggers {
  import opened Workload
  import opened Operations
  import opened Runs

  // Identities and the request format

  /** A request "nonce|target" is read back as it was written; without a bar there is no
      target. */
  lemma {:induction false} SplitRequestReadsBack(nonce: string, target: string)
    requires '|' !in nonce
    ensures SplitRequest(nonce + "|" + target) == (nonce, target)
    ensures SplitRequest(nonce) == (nonce, "")
  {
    var v := nonce + "|" + target;
    if nonce == "" {
      assert v[0] == '|' && v[1..] == target;
    } else {
      SplitRequestReadsBack(nonce[1..], target);
      assert v[0] == nonce[0] && nonce[0] in nonce;
      assert v[1..] == nonce[1..] + "|" + target;
      assert [nonce[0]] + nonce[1..] == nonce;
    }
  }

  lemma BarSplits(a: string, m: string, b: string, n: string)
    requires '|' !in a && '|' !in b
    ensures a + "|" + m == b + "|" + n <==> a == b && m == n
  {
    SplitRequestReadsBack(a, m);
    SplitRequestReadsBack(b, n);
  }

  lemma TypeNamesDiffer(s: OpType, t: OpType)
    ensures '|' !in TypeName(s)
    ensures TypeName(s) == TypeName(t) <==> s == t
  {
  }

  /** Two triggers have one identity only if they are of one type with one nonce. */
  lemma HandledIdIsInjective(s: OpType, m: string, t: OpType, n: string)
    ensures HandledId(s, m) == HandledId(t, n) <==> s == t && m == n
  {
    TypeNamesDiffer(s, t);
    TypeNamesDiffer(t, s);
    BarSplits(TypeName(s), m, TypeName(t), n);
  }

  // One trigger

  /** The identity under which a decision is recorded. */
  function RecordedAs(d: Decision): Option<string>
  {
    match d
    case NoTrigger => None
    case SkipRollback(nonce) => Some(HandledId(Rollback, nonce))
    case StartVersion(opType, nonce, _, _) => Some(HandledId(opType, nonce))
    case StartRetry(nonce) => Some(HandledId(Retry, nonce))
  }

  /** An upgrade request, not handled yet, for the version the spec already has. */
  predicate SameVersionUpgrade(o: Object)
  {
    && o.ann.upgradeRequest != ""
    && (var (nonce, target) := SplitRequest(o.ann.upgradeRequest);
        HandledId(Upgrade, nonce) !in o.ann.handled && target == BlueprintVersion(o.spec))
  }

  /** It is the one request that is answered by an operation of another type. */
  lemma AnsweredInKind(o: Object)
    ensures SameVersionUpgrade(o) <==> o.ann.upgradeRequest != "" && Decide(o).StartRetry?
    ensures Decide(o) != NoTrigger && !SameVersionUpgrade(o) ==>
              AnswersAs(Decide(o)) == Some(if o.ann.upgradeRequest != "" then Upgrade
                                           else if o.ann.rollbackRequest != "" then Rollback else Retry)
  {
  }

  function AnswersAs(d: Decision): Option<OpType>
  {
    match d
    case NoTrigger => None
    case SkipRollback(_) => Some(Rollback)
    case StartVersion(opType, _, _, _) => Some(opType)
    case StartRetry(_) => Some(Retry)
  }

  /** The request the decision answers. */
  function Pending(o: Object): string
  {
    if o.ann.upgradeRequest != "" then o.ann.upgradeRequest
    else if o.ann.rollbackRequest != "" then o.ann.rollbackRequest
    else o.ann.retryRequest
  }

  /** How much of a request a stored version reflects: all four parts. */
  ghost predicate Applied(before: Object, after: Object)
  {
    var d := Decide(before);
    && RecordedAs(d).Some? && RecordedAs(d).value in after.ann.handled
    && (d.StartVersion? ==>
          && after.ann.operation.Some? && after.ann.operation.value.state == InProgress
          && after.ann.operation.value.targetVersion == d.target
          && (before.spec.blueprint.Some? ==> BlueprintVersion(after.spec) == d.target)
          && after.ann.operation.value.intent == IntentDigest(after.spec)
          && after.ann.retryEpoch == before.ann.retryEpoch
          && WithoutRequest(before.ann, d.opType).(handled := [], operation := None, superseded := None)
             == after.ann.(handled := [], operation := None, superseded := None)
          && after.ann.superseded == if before.ann.operation.Some? then before.ann.operation else before.ann.superseded)
    && (d.StartRetry? ==>
          && after.spec == before.spec
          && after.ann.operation.Some? && after.ann.operation.value.state == InProgress
          && after.ann.operation.value.opType == Retry
          && after.ann.operation.value.intent == IntentDigest(after.spec)
          && after.ann.operation.value.retryEpoch == after.ann.retryEpoch == before.ann.retryEpoch + 1
          && after.ann.retryRequest == "")
    && (d.SkipRollback? ==>
          after.spec == before.spec && after.ann.operation == before.ann.operation && after.ann.rollbackRequest == "")
  }

  lemma AddHandledMembers(existing: seq<string>, id: string)
    ensures id in AddHandled(existing, id)
    ensures forall x :: x in AddHandled(existing, id) ==> x == id || x in existing
  {
    var out := existing + [id];
    assert out[|out| - 1] == id;
    assert forall x :: x in out ==> x == id || x in existing;
    if id !in existing {
      var kept := AddHandled(existing, id);
      assert kept[|kept| - 1] == id;
      assert forall k :: 0 <= k < |kept| ==> kept[k] in out;
    }
  }

  /** A pass that finds a request makes one write and no other. */
  lemma PassOnTrigger(log: seq<Version>, at: nat, obs: Observation)
    requires log != [] && at < |log| && Triggered(log[at].obj, obs.now).Some?
    ensures Pass(log, at, obs)
         == PutMeta(log, Copy(Triggered(log[at].obj, obs.now).value, at), obs.fate(TriggerWrite),
                    ByTrigger(obs.now)).log
  {
  }

  lemma TriggeredApplies(o: Object, now: int)
    requires Triggered(o, now).Some?
    ensures Applied(o, Triggered(o, now).value) && Triggered(o, now).value.status == o.status
    ensures Triggered(o, now).value.ann.handled == AddHandled(o.ann.handled, RecordedAs(Decide(o)).value)
  {
    AddHandledMembers(o.ann.handled, RecordedAs(Decide(o)).value);
  }

  /** A pass that finds a request ends in one of two ways: nothing of the request is
      stored, or one version is added that holds spec version, journal, identity and
      the removal together. The second needs the copy to have been current. */
  lemma TriggersAreAtomic(log: seq<Version>, at: nat, obs: Observation)
    requires log != [] && at < |log|
    requires Triggered(log[at].obj, obs.now).Some?
    ensures var next := Pass(log, at, obs);
            || next == Race(log, obs.fate(TriggerWrite))
            || (at == |log| - 1 && |next| == |log| + 1 && next[..|log|] == log
                && next[at + 1].obj == Triggered(log[at].obj, obs.now).value
                && next[at + 1].obj.status == log[at].obj.status
                && Applied(log[at].obj, next[at + 1].obj))
  {
    PassOnTrigger(log, at, obs);
    TriggeredApplies(log[at].obj, obs.now);
    AcceptedIsCurrent(log, Copy(Triggered(log[at].obj, obs.now).value, at), obs.fate(TriggerWrite));
  }

  ghost predicate StillPending(before: Object, after: Object)
  {
    if before.ann.upgradeRequest != "" then after.ann.upgradeRequest == before.ann.upgradeRequest
    else if before.ann.rollbackRequest != "" then after.ann.rollbackRequest == before.ann.rollbackRequest
    else after.ann.retryRequest == before.ann.retryRequest
  }

  /** The request that was answered is gone afterwards unless it asked for the version
      the spec already has: then the retry request is removed in its place. */
  lemma RequestIsConsumed(o: Object, now: int)
    requires Triggered(o, now).Some?
    ensures Pending(o) != ""
    ensures StillPending(o, Triggered(o, now).value) <==> SameVersionUpgrade(o)
    ensures SameVersionUpgrade(o) ==> Triggered(o, now).value.ann.retryRequest == ""
  {
    if SameVersionUpgrade(o) {
      SameVersionUpgradeStays(o, now);
    }
  }

  /** A same-version upgrade under a nonce no upgrade was handled with is answered by a
      retry, is still there afterwards, and is answered the same way again. */
  lemma SameVersionUpgradeStays(o: Object, now: int)
    requires SameVersionUpgrade(o)
    ensures Triggered(o, now).Some?
    ensures var b := Triggered(o, now).value;
            && b.ann.upgradeRequest == o.ann.upgradeRequest && b.spec == o.spec
            && b.ann.retryEpoch == o.ann.retryEpoch + 1
            && SameVersionUpgrade(b) && Decide(b) == Decide(o)
  {
    var (nonce, target) := SplitRequest(o.ann.upgradeRequest);
    HandledIdIsInjective(Upgrade, nonce, Retry, nonce);
    AddHandledMembers(o.ann.handled, HandledId(Retry, nonce));
  }

  ghost predicate RetryAt(log: seq<Version>, k: nat)
  {
    0 < k < |log| && log[k].cause.ByTrigger? && SameVersionUpgrade(log[k - 1].obj)
  }

  ghost predicate OnlyRetries(log: seq<Version>, i: nat, j: nat)
  {
    forall k: nat :: i < k <= j ==> RetryAt(log, k)
  }

  /** While a same-version upgrade waits, a version that is not a user's edit answers it
      with one more retry. */
  lemma NextIsARetry(log: seq<Version>, k: nat)
    requires LegalLog(log) && 0 < k < |log|
    requires SameVersionUpgrade(log[k - 1].obj) && !log[k].cause.ByUser?
    ensures log[k].cause.ByTrigger?
    ensures SameVersionUpgrade(log[k].obj)
    ensures log[k].obj.ann.upgradeRequest == log[k - 1].obj.ann.upgradeRequest
    ensures log[k].obj.ann.retryEpoch == log[k - 1].obj.ann.retryEpoch + 1
    ensures log[k].obj.status == log[k - 1].obj.status
  {
    assert LegalAt(log, k);
    BeforeIsNoStatusPass(log, k - 1);
    var p, v := log[k - 1], log[k];
    if v.cause.ByTrigger? {
      SameVersionUpgradeStays(p.obj, v.cause.now);
      TriggeredApplies(p.obj, v.cause.now);
    }
  }

  lemma BeforeIsNoStatusPass(log: seq<Version>, k: nat)
    requires LegalLog(log) && k < |log| && SameVersionUpgrade(log[k].obj)
    ensures var c := log[k].cause; !c.ByStatus? && !c.ByJournal? && !c.ByProjection?
  {
    assert LegalAt(log, k);
    if log[k].cause.ByJournal? || log[k].cause.ByProjection? {
      BeforeIsNoStatusPass(log, k - 1);
    }
  }

  /** So a request for the version the spec already has starves the workload: until a
      user edits the object again every stored version is one more retry, the epoch
      grows by one with each, and no pass writes a status. */
  lemma {:induction false} SameVersionUpgradeStarves(log: seq<Version>, i: nat, j: nat)
    requires LegalLog(log) && i <= j < |log| && SameVersionUpgrade(log[i].obj)
    requires forall k :: i < k <= j ==> !log[k].cause.ByUser?
    ensures OnlyRetries(log, i, j) && SameVersionUpgrade(log[j].obj)
    ensures log[j].obj.ann.upgradeRequest == log[i].obj.ann.upgradeRequest
    ensures log[j].obj.ann.retryEpoch == log[i].obj.ann.retryEpoch + (j - i)
    ensures log[j].obj.status == log[i].obj.status
    decreases j
  {
    if i < j {
      SameVersionUpgradeStarves(log, i, j - 1);
      NextIsARetry(log, j);
    }
  }

  // The handled list over a whole run

  /** The identities accepted in a run, in order: those a trigger recorded that were not
      on the list at that moment. */
  function AcceptedIds(log: seq<Version>): seq<string>
  {
    if |log| <= 1 then []
    else
      var front := AcceptedIds(log[..|log| - 1]);
      front + AcceptedAt(log[|log| - 2], log[|log| - 1])
  }

  function AcceptedAt(p: Version, v: Version): seq<string>
  {
    var id := RecordedAs(Decide(p.obj));
    if v.cause.ByTrigger? && id.Some? && id.value !in p.obj.ann.handled then [id.value] else []
  }

  function Newest(ids: seq<string>): seq<string>
  {
    if |ids| > MAX_HANDLED then ids[|ids| - MAX_HANDLED..] else ids
  }

  ghost predicate NoRepeats(ids: seq<string>)
  {
    forall i, j :: 0 <= i < j < |ids| ==> ids[i] != ids[j]
  }

  /** What one version more does to the list. */
  lemma HandledStep(log: seq<Version>, n: nat)
    requires LegalLog(log) && 0 < n < |log|
    ensures var before, id := log[n - 1].obj.ann.handled, RecordedAs(Decide(log[n - 1].obj));
            log[n].obj.ann.handled
            == if log[n].cause.ByTrigger? && id.Some? then AddHandled(before, id.value) else before
  {
    assert LegalAt(log, n);
    StepFrame(log[n - 1], log[n]);
    if log[n].cause.ByTrigger? {
      TriggeredApplies(log[n - 1].obj, log[n].cause.now);
    }
  }

  lemma HandledGrows(handled: seq<string>, ids: seq<string>, id: string)
    requires handled == Newest(ids)
    ensures AddHandled(handled, id) == Newest(ids + if id in handled then [] else [id])
  {
  }

  lemma AcceptedStep(log: seq<Version>, n: nat, ids: seq<string>)
    requires LegalLog(log) && 0 < n < |log| && log[n - 1].obj.ann.handled == Newest(ids)
    ensures log[n].obj.ann.handled == Newest(ids + AcceptedAt(log[n - 1], log[n]))
  {
    HandledStep(log, n);
    var id := RecordedAs(Decide(log[n - 1].obj));
    if log[n].cause.ByTrigger? && id.Some? {
      HandledGrows(log[n - 1].obj.ann.handled, ids, id.value);
    } else {
      assert ids + AcceptedAt(log[n - 1], log[n]) == ids;
    }
  }

  /** In every run the handled list is the newest eight of the identities accepted so
      far, or all of them. */
  lemma {:induction false} HandledIsTheNewest(log: seq<Version>)
    requires LegalLog(log)
    ensures Last(log).ann.handled == Newest(AcceptedIds(log))
    decreases |log|
  {
    if |log| > 1 {
      PrefixLegal(log, |log| - 1);
      HandledIsTheNewest(log[..|log| - 1]);
      AcceptedStep(log, |log| - 1, AcceptedIds(log[..|log| - 1]));
    }
  }

  lemma AddHandledKeepsDistinct(existing: seq<string>, id: string)
    requires NoRepeats(existing)
    ensures NoRepeats(AddHandled(existing, id))
            && (|existing| <= MAX_HANDLED ==> |AddHandled(existing, id)| <= MAX_HANDLED)
  {
  }

  /** And no identity is on it twice, and never more than eight are. */
  lemma {:induction false} HandledHasNoRepeats(log: seq<Version>)
    requires LegalLog(log)
    ensures NoRepeats(Last(log).ann.handled) && |Last(log).ann.handled| <= MAX_HANDLED
    decreases |log|
  {
    if |log| > 1 {
      PrefixLegal(log, |log| - 1);
      HandledHasNoRepeats(log[..|log| - 1]);
      HandledStep(log, |log| - 1);
      var id := RecordedAs(Decide(log[|log| - 2].obj));
      if id.Some? { AddHandledKeepsDistinct(log[|log| - 2].obj.ann.handled, id.value); }
    }
  }

  lemma {:induction false} AcceptedIdsGrow(log: seq<Version>, i: nat, j: nat)
    requires 0 < i <= j <= |log|
    ensures AcceptedIds(log[..i]) <= AcceptedIds(log[..j])
    decreases j
  {
    if i < j {
      AcceptedIdsGrow(log, i, j - 1);
      assert log[..j][..j - 1] == log[..j - 1];
    }
  }

  /** The identity a request is looked up under. */
  function LookedUpAs(o: Object): string
  {
    if o.ann.upgradeRequest != "" then HandledId(Upgrade, SplitRequest(o.ann.upgradeRequest).0)
    else if o.ann.rollbackRequest != "" then HandledId(Rollback, o.ann.rollbackRequest)
    else HandledId(Retry, o.ann.retryRequest)
  }

  /** Version `i` answers a request by recording the identity it was looked up under. */
  ghost predicate Answers(log: seq<Version>, i: nat, id: string)
  {
    && 0 < i < |log| && log[i].cause.ByTrigger?
    && LookedUpAs(log[i - 1].obj) == id && RecordedAs(Decide(log[i - 1].obj)) == Some(id)
  }

  /** Only a same-version upgrade is recorded under another identity than its own. */
  lemma RecordedAsLookedUp(o: Object)
    requires Decide(o) != NoTrigger
    ensures RecordedAs(Decide(o)) == Some(LookedUpAs(o)) <==> !SameVersionUpgrade(o)
    ensures LookedUpAs(o) !in o.ann.handled
  {
    if SameVersionUpgrade(o) {
      var nonce := SplitRequest(o.ann.upgradeRequest).0;
      HandledIdIsInjective(Upgrade, nonce, Retry, nonce);
    }
  }

  /** An identity is answered again only after eight others have pushed it off the list:
      while it is on the list it starts nothing. */
  lemma AnsweredAtMostOnceInEight(log: seq<Version>, i: nat, j: nat, id: string)
    requires LegalLog(log) && i < j && Answers(log, i, id) && Answers(log, j, id)
    ensures |AcceptedIds(log[..j])| >= |AcceptedIds(log[..i + 1])| + MAX_HANDLED
  {
    AnswerIsAccepted(log, i, id);
    AcceptedIdsGrow(log, i + 1, j);
    StillListed(AcceptedIds(log[..j]), |AcceptedIds(log[..i + 1])| - 1);
    AnswerIsNew(log, j, id);
  }

  lemma AnswerIsNew(log: seq<Version>, j: nat, id: string)
    requires LegalLog(log) && Answers(log, j, id)
    ensures id !in Newest(AcceptedIds(log[..j]))
  {
    PrefixLegal(log, j);
    HandledIsTheNewest(log[..j]);
    assert Last(log[..j]) == log[j - 1].obj;
    RecordedAsLookedUp(log[j - 1].obj);
  }

  lemma AnswerIsAccepted(log: seq<Version>, i: nat, id: string)
    requires LegalLog(log) && Answers(log, i, id)
    ensures var ids := AcceptedIds(log[..i + 1]);
            ids != [] && ids[|ids| - 1] == id
  {
  }

  lemma StillListed(ids: seq<string>, k: nat)
    requires k < |ids|
    ensures k >= |ids| - MAX_HANDLED ==> ids[k] in Newest(ids)
  {
  }

  // The retry epoch over a whole run

  function RetryStarts(log: seq<Version>): nat
  {
    if |log| <= 1 then 0
    else RetryStarts(log[..|log| - 1]) + if StartsRetry(log[|log| - 2], log[|log| - 1]) then 1 else 0
  }

  predicate StartsRetry(p: Version, v: Version)
  {
    v.cause.ByTrigger? && Decide(p.obj).StartRetry?
  }

  lemma EpochStep(log: seq<Version>, n: nat)
    requires LegalLog(log) && 0 < n < |log|
    ensures log[n].obj.ann.retryEpoch
         == log[n - 1].obj.ann.retryEpoch + if StartsRetry(log[n - 1], log[n]) then 1 else 0
    ensures StartsRetry(log[n - 1], log[n]) ==>
              log[n].obj.ann.operation.Some? && log[n].obj.ann.operation.value.retryEpoch == log[n].obj.ann.retryEpoch
  {
    assert LegalAt(log, n);
    StepFrame(log[n - 1], log[n]);
  }

  /** In every run the epoch is the number of retries started so far. */
  lemma {:induction false} EpochCountsRetries(log: seq<Version>)
    requires LegalLog(log)
    ensures Last(log).ann.retryEpoch == RetryStarts(log)
    decreases |log|
  {
    if |log| > 1 {
      PrefixLegal(log, |log| - 1);
      EpochCountsRetries(log[..|log| - 1]);
      EpochStep(log, |log| - 1);
    }
  }

  lemma {:induction false} RetryStartsGrow(log: seq<Version>, i: nat, j: nat)
    requires 0 < i <= j <= |log|
    ensures RetryStarts(log[..i]) <= RetryStarts(log[..j])
    decreases j
  {
    if i < j {
      RetryStartsGrow(log, i, j - 1);
      assert log[..j][..j - 1] == log[..j - 1];
    }
  }

  /** The epoch never falls, and a later retry has a larger one than an earlier retry. */
  lemma EpochsAreOrdered(log: seq<Version>, i: nat, j: nat)
    requires LegalLog(log) && i < j < |log|
    ensures log[i].obj.ann.retryEpoch <= log[j].obj.ann.retryEpoch
    ensures StartsRetry(log[j - 1], log[j]) ==>
              && log[i].obj.ann.retryEpoch < log[j].obj.ann.retryEpoch
              && log[j].obj.ann.operation.Some?
              && log[j].obj.ann.operation.value.retryEpoch == log[j].obj.ann.retryEpoch
  {
    PrefixLegal(log, i + 1);
    PrefixLegal(log, j);
    PrefixLegal(log, j + 1);
    EpochCountsRetries(log[..i + 1]);
    EpochCountsRetries(log[..j + 1]);
    RetryStartsGrow(log, i + 1, j);
    assert log[..j + 1][..j] == log[..j];
    EpochStep(log, j);
  }
}
