/** Pull secrets on ServiceAccounts, and the pods recreated to pick them up: the counted
    path for Helm-labelled pods and the uncounted one for pods admitted too early. */
module PullSecrets {
  import opened Workload

  const MAX_BOUNCES := 3

  // Merging names into a ServiceAccount

  function Merge(existing: seq<string>, names: seq<string>): seq<string>
  {
    if names == [] then existing
    else
      var front, last := Merge(existing, names[..|names| - 1]), names[|names| - 1];
      if last in front then front else front + [last]
  }

  method MergeImagePullSecrets(existing: seq<string>, names: seq<string>) returns (out: seq<string>, mutated: bool)
    ensures out == Merge(existing, names)
    ensures mutated <==> out != existing
    ensures mutated <==> exists n :: n in names && n !in existing
  {
    var have := set n | n in existing;
    out, mutated := existing, false;
    for i := 0 to |names|
      invariant out == Merge(existing, names[..i])
      invariant have == set n | n in out
      invariant |out| >= |existing| && (mutated <==> |out| > |existing|)
      invariant mutated <==> exists n :: n in names[..i] && n !in existing
      invariant !mutated ==> out == existing
    {
      assert names[..i + 1][..i] == names[..i];
      assert names[..i + 1] == names[..i] + [names[i]];
      MergeMembers(existing, names[..i]);
      if names[i] !in have {
        out := out + [names[i]];
        have := have + {names[i]};
        mutated := true;
      }
    }
    assert names[..|names|] == names;
  }

  lemma {:induction false} MergeMembers(existing: seq<string>, names: seq<string>)
    ensures forall n :: n in Merge(existing, names) <==> n in existing || n in names
    ensures existing <= Merge(existing, names)
    ensures forall i, j :: |existing| <= i < |Merge(existing, names)| && 0 <= j < i ==>
              Merge(existing, names)[i] != Merge(existing, names)[j]
  {
    if names != [] {
      MergeMembers(existing, names[..|names| - 1]);
      assert names == names[..|names| - 1] + [names[|names| - 1]];
    }
  }

  /** The merge is a union that keeps what was there, in place and verbatim, and adds each
      missing name once; doing it again changes nothing, so an account settles. */
  lemma MergeSettles(existing: seq<string>, names: seq<string>)
    ensures existing <= Merge(existing, names)
    ensures forall n :: n in Merge(existing, names) <==> n in existing || n in names
    ensures Merge(Merge(existing, names), names) == Merge(existing, names)
  {
    MergeMembers(existing, names);
    MergeOfMembers(Merge(existing, names), names);
  }

  lemma {:induction false} MergeOfMembers(existing: seq<string>, names: seq<string>)
    requires forall n :: n in names ==> n in existing
    ensures Merge(existing, names) == existing
  {
    if names != [] {
      MergeOfMembers(existing, names[..|names| - 1]);
    }
  }

  // Pods and their controllers

  datatype OwnerKind = ReplicaSet | StatefulSet | DaemonSet | OtherKind

  /** `deployment` is the release annotation of the Deployment that controls a
      ReplicaSet. A counter that does not parse reads as absent. */
  datatype Owner = Owner(
    uid: string, kind: OwnerKind, release: string, deployment: Option<string>,
    counter: Option<int>, bouncedPod: string, templateSets: bool)

  datatype Pod = Pod(
    name: string, uid: string, deleting: bool, pullFailing: bool, phasePending: bool, helmLabelled: bool,
    account: string, secrets: seq<string>, controller: Option<string>, started: bool)

  /** A pod that was removed on the operator's request, and under which rule. */
  datatype Deletion = Deletion(pod: string, owner: string, counted: bool)

  datatype Cluster = Cluster(pods: map<string, Pod>, owners: map<string, Owner>, accounts: map<string, seq<string>>,
                             log: seq<Deletion>)

  datatype Scope = Scope(delivered: seq<string>, releases: set<string>)

  datatype Fate = Lands | Fails | LandsUnanswered

  /** The answers to the requests made for one pod. */
  datatype Answers = Answers(accountReadable: bool, ownerReadable: bool, deploymentReadable: bool, increment: Fate,
                             delete: Fate, record: Fate)

  datatype Verdict = Skipped | PendingLater | Done | Aborted

  type AccountCache = map<string, seq<string>>

  datatype Step = Step(cluster: Cluster, cache: AccountCache, verdict: Verdict)

  function AccountName(p: Pod): string
  {
    if p.account == "" then "default" else p.account
  }

  function SecretsOf(c: Cluster, account: string): seq<string>
  {
    if account in c.accounts then c.accounts[account] else []
  }

  predicate Misses(p: Pod, onAccount: seq<string>, delivered: seq<string>)
  {
    exists n :: n in delivered && n in onAccount && n !in p.secrets
  }

  predicate FromAccount(p: Pod, onAccount: seq<string>)
  {
    forall n :: n in p.secrets ==> n in onAccount
  }

  predicate TemplateKind(kind: OwnerKind)
  {
    kind != OtherKind
  }

  predicate OwnedByRelease(o: Owner, releases: set<string>, deploymentReadable: bool)
  {
    if releases == {} then false
    else if o.release != "" then o.release in releases
    else o.kind == ReplicaSet && o.deployment.Some? && deploymentReadable && o.deployment.value in releases
  }

  function Count(o: Owner): int
  {
    if o.counter.Some? then o.counter.value else 0
  }

  function WithOwner(c: Cluster, name: string, o: Owner): Cluster
  {
    c.(owners := c.owners[name := o])
  }

  /** A delete names the pod, not its UID. */
  function DeletePod(c: Cluster, p: Pod, owner: string, counted: bool): Cluster
    requires p.name in c.pods
  {
    c.(pods := c.pods - {p.name}, log := c.log + [Deletion(c.pods[p.name].uid, owner, counted)])
  }

  // The two paths

  function Recreate(c: Cluster, cache: AccountCache, p: Pod, scope: Scope, a: Answers): Step
  {
    var account := AccountName(p);
    if scope.delivered == [] then Step(c, cache, Skipped)
    else if account !in cache && !a.accountReadable then Step(c, cache, Aborted)
    else
      var looked := if account in cache then cache else cache[account := SecretsOf(c, account)];
      Step(c, looked, Skipped).(verdict := RecreateVerdict(c, looked[account], p, scope, a),
                                cluster := RecreateCluster(c, looked[account], p, scope, a))
  }

  /** Everything that has to hold before the pod is deleted. */
  predicate Recreatable(c: Cluster, onAccount: seq<string>, p: Pod, scope: Scope, a: Answers)
  {
    && Misses(p, onAccount, scope.delivered)
    && p.controller.Some? && a.ownerReadable && p.controller.value in c.owners
    && (var o := c.owners[p.controller.value];
        TemplateKind(o.kind) && OwnedByRelease(o, scope.releases, a.deploymentReadable) && !o.templateSets)
    && FromAccount(p, onAccount)
  }

  predicate WouldLoseWork(p: Pod)
  {
    !p.pullFailing && p.started
  }

  function RecreateVerdict(c: Cluster, onAccount: seq<string>, p: Pod, scope: Scope, a: Answers): Verdict
  {
    if !Recreatable(c, onAccount, p, scope, a) then Skipped
    else if WouldLoseWork(p) then PendingLater
    else if a.delete.Fails? || (p.name in c.pods && a.delete.LandsUnanswered?) then Aborted
    else if p.name !in c.pods then Skipped
    else Done
  }

  function RecreateCluster(c: Cluster, onAccount: seq<string>, p: Pod, scope: Scope, a: Answers): Cluster
  {
    if !Recreatable(c, onAccount, p, scope, a) || WouldLoseWork(p) || a.delete.Fails? || p.name !in c.pods then c
    else DeletePod(c, p, c.owners[p.controller.value].uid, false)
  }

  predicate Bounceable(c: Cluster, p: Pod, scope: Scope, a: Answers)
  {
    && p.controller.Some? && a.ownerReadable && p.controller.value in c.owners
    && (var o := c.owners[p.controller.value];
        && OwnedByRelease(o, scope.releases, a.deploymentReadable)
        && !(p.uid != "" && o.bouncedPod == p.uid)
        && Count(o) < MAX_BOUNCES)
  }

  /** Counter first, then the pod, then the pod's UID; each only after the answer to the
      one before. */
  function Bounce(c: Cluster, cache: AccountCache, p: Pod, scope: Scope, a: Answers): Step
  {
    if !Bounceable(c, p, scope, a) then Step(c, cache, Skipped)
    else if a.increment.Fails? then Step(c, cache, Aborted)
    else
      var name := p.controller.value;
      var counted := c.owners[name].(counter := Some(Count(c.owners[name]) + 1));
      var c1 := WithOwner(c, name, counted);
      if a.increment.LandsUnanswered? || a.delete.Fails? then Step(c1, cache, Aborted)
      else
        var c2 := if p.name in c1.pods then DeletePod(c1, p, counted.uid, true) else c1;
        if (p.name in c1.pods && a.delete.LandsUnanswered?) || a.record.Fails? then Step(c2, cache, Aborted)
        else
          var c3 := WithOwner(c2, name, counted.(bouncedPod := p.uid));
          Step(c3, cache, if a.record.LandsUnanswered? then Aborted else if p.name in c1.pods then Done else Skipped)
  }

  function Check(c: Cluster, cache: AccountCache, p: Pod, scope: Scope, a: Answers): Step
  {
    var admitting := !p.pullFailing && p.phasePending;
    if p.deleting || (!p.pullFailing && !admitting) then Step(c, cache, Skipped)
    else if admitting || !p.helmLabelled then Recreate(c, cache, p, scope, a)
    else Bounce(c, cache, p, scope, a)
  }

  datatype Tally = Tally(cluster: Cluster, cache: AccountCache, bounced: nat, pending: nat, ok: bool)

  /** One pass over the pods as listed; it ends at the first error. */
  function Restart(c: Cluster, listed: seq<Pod>, scope: Scope, answers: nat -> Answers): Tally
  {
    if listed == [] then Tally(c, map[], 0, 0, true)
    else
      var n := |listed| - 1;
      var t := Restart(c, listed[..n], scope, answers);
      if !t.ok then t
      else
        var s := Check(t.cluster, t.cache, listed[n], scope, answers(n));
        Tally(s.cluster, s.cache,
              t.bounced + if s.verdict == Done then 1 else 0,
              t.pending + if s.verdict == PendingLater then 1 else 0,
              s.verdict != Aborted)
  }
}
