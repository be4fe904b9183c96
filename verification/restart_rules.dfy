/** Which pods a pass deletes, which it leaves for later and which it spares: on the fields
    of the pod, its account and its controller. */
module RestartRules {
  import opened Workload
  import opened PullSecrets
  import opened BounceBudget

  // The facts

  predicate OnAccount(c: Cluster, p: Pod, secret: string)
  {
    var account := if p.account == "" then "default" else p.account;
    account in c.accounts && secret in c.accounts[account]
  }

  /** A secret was delivered, is on the pod's account, and the pod does not have it. */
  ghost predicate MissesDelivery(c: Cluster, p: Pod, scope: Scope)
  {
    exists n :: n in scope.delivered && OnAccount(c, p, n) && n !in p.secrets
  }

  ghost predicate OnlyAccountSecrets(c: Cluster, p: Pod)
  {
    forall n :: n in p.secrets ==> OnAccount(c, p, n)
  }

  /** The controller's own annotation decides; a ReplicaSet without one goes by that of its
      Deployment. */
  predicate OfRelease(o: Owner, releases: set<string>, deploymentReadable: bool)
  {
    if o.release != "" then o.release in releases
    else o.kind == ReplicaSet && deploymentReadable && o.deployment.Some? && o.deployment.value in releases
  }

  predicate ControllerIn(c: Cluster, p: Pod, scope: Scope, a: Answers)
  {
    && p.controller.Some? && a.ownerReadable && p.controller.value in c.owners
    && OfRelease(c.owners[p.controller.value], scope.releases, a.deploymentReadable)
  }

  /** Recreating the pod would give it the secret, and would stop there. */
  ghost predicate Qualifies(c: Cluster, p: Pod, scope: Scope, a: Answers)
  {
    && MissesDelivery(c, p, scope) && OnlyAccountSecrets(c, p)
    && ControllerIn(c, p, scope, a)
    && c.owners[p.controller.value].kind in {ReplicaSet, StatefulSet, DaemonSet}
    && !c.owners[p.controller.value].templateSets
  }

  /** A container has started and its image was pulled: recreating it would lose work. */
  predicate AtWork(p: Pod)
  {
    p.started && !p.pullFailing
  }

  function Without(c: Cluster, p: Pod, owner: string, counted: bool): Cluster
    requires p.name in c.pods
  {
    c.(pods := map n | n in c.pods && n != p.name :: c.pods[n],
       log := c.log + [Deletion(c.pods[p.name].uid, owner, counted)])
  }

  // One check

  /** The uncounted check. A pod at work that qualifies is left for later; any other that
      does is deleted, as far as the API goes along; and nothing else ever is. */
  lemma UncountedIs(c: Cluster, cache: AccountCache, p: Pod, scope: Scope, a: Answers)
    requires CacheCurrent(c, cache)
    ensures var s := Recreate(c, cache, p, scope, a);
            && CacheCurrent(c, s.cache)
            && if scope.delivered == [] then s.cluster == c && s.verdict == Skipped
               else if AccountName(p) !in cache && !a.accountReadable then s.cluster == c && s.verdict == Aborted
               else if !Qualifies(c, p, scope, a) then s.cluster == c && s.verdict == Skipped
               else if AtWork(p) then s.cluster == c && s.verdict == PendingLater
               else if a.delete.Fails? then s.cluster == c && s.verdict == Aborted
               else if p.name !in c.pods then s.cluster == c && s.verdict == Skipped
               else
                 && s.cluster == Without(c, p, c.owners[p.controller.value].uid, false)
                 && s.verdict == if a.delete.Lands? then Done else Aborted
  {
    if p.name in c.pods {
      assert c.pods - {p.name} == map n | n in c.pods && n != p.name :: c.pods[n];
    }
    var account := AccountName(p);
    var onAccount := if account in cache then cache[account] else SecretsOf(c, account);
    assert forall n :: n in onAccount <==> OnAccount(c, p, n);
    assert Misses(p, onAccount, scope.delivered) <==> MissesDelivery(c, p, scope);
    assert FromAccount(p, onAccount) <==> OnlyAccountSecrets(c, p);
  }

  /** The counted check may act on the pod. */
  predicate MayBounce(c: Cluster, p: Pod, scope: Scope, a: Answers)
  {
    && ControllerIn(c, p, scope, a)
    && (var o := c.owners[p.controller.value];
        && (p.uid == "" || o.bouncedPod != p.uid)
        && (if o.counter.Some? then o.counter.value else 0) < 3)
  }

  function Counted(o: Owner): Owner
  {
    o.(counter := Some(1 + if o.counter.Some? then o.counter.value else 0))
  }

  function WithController(c: Cluster, p: Pod, o: Owner): Cluster
    requires p.controller.Some?
  {
    c.(owners := c.owners[p.controller.value := o])
  }

  /** The counted check: the counter, then the pod, then the pod's UID, and each only when
      the one before is known to have happened. */
  lemma CountedIs(c: Cluster, cache: AccountCache, p: Pod, scope: Scope, a: Answers)
    ensures var s := Bounce(c, cache, p, scope, a);
            && s.cache == cache
            && if !MayBounce(c, p, scope, a) then s.cluster == c && s.verdict == Skipped
               else if a.increment.Fails? then s.cluster == c && s.verdict == Aborted
               else
                 var o := Counted(c.owners[p.controller.value]);
                 var raised := WithController(c, p, o);
                 if !a.increment.Lands? || a.delete.Fails? then s.cluster == raised && s.verdict == Aborted
                 else
                   var gone := if p.name in c.pods then Without(raised, p, o.uid, true) else raised;
                   if (p.name in c.pods && !a.delete.Lands?) || a.record.Fails? then
                     s.cluster == gone && s.verdict == Aborted
                   else
                     && s.cluster == WithController(gone, p, o.(bouncedPod := p.uid))
                     && s.verdict == if !a.record.Lands? then Aborted else if p.name in c.pods then Done else Skipped
  {
    if p.name in c.pods {
      assert c.pods - {p.name} == map n | n in c.pods && n != p.name :: c.pods[n];
    }
  }

  /** Which check a pod gets: none while it is going away or nothing is wrong with it; the
      counted one when its image pull fails and Helm labelled it; else the other. */
  lemma CheckIs(c: Cluster, cache: AccountCache, p: Pod, scope: Scope, a: Answers)
    ensures Check(c, cache, p, scope, a)
         == if p.deleting || !(p.pullFailing || p.phasePending) then Step(c, cache, Skipped)
            else if p.pullFailing && p.helmLabelled then Bounce(c, cache, p, scope, a)
            else Recreate(c, cache, p, scope, a)
  {
  }

  // A pass

  /** A pod a pass may delete: its image pull fails, or it is Pending and has started
      nothing. */
  predicate Expendable(p: Pod)
  {
    !p.deleting && (p.pullFailing || (p.phasePending && !p.started))
  }

  /** What is gone after a check, and what its verdict tells of it. */
  ghost predicate GoneAfter(c: Cluster, p: Pod, s: Step)
  {
    && CacheCurrent(s.cluster, s.cache) && s.cluster.accounts == c.accounts
    && s.cluster.pods.Keys <= c.pods.Keys && c.pods.Keys - s.cluster.pods.Keys <= {p.name}
    && (s.verdict == Done ==> |s.cluster.pods| == |c.pods| - 1)
    && (s.verdict == Skipped || s.verdict == PendingLater ==> s.cluster.pods == c.pods)
  }

  lemma UncountedRemoves(c: Cluster, cache: AccountCache, p: Pod, scope: Scope, a: Answers)
    requires CacheCurrent(c, cache)
    ensures var s := Recreate(c, cache, p, scope, a);
            GoneAfter(c, p, s) && (s.cluster.pods.Keys != c.pods.Keys ==> !AtWork(p))
  {
    UncountedIs(c, cache, p, scope, a);
    if p.name in c.pods { OneLess(c.pods, p.name); }
  }

  lemma CountedRemoves(c: Cluster, cache: AccountCache, p: Pod, scope: Scope, a: Answers)
    requires CacheCurrent(c, cache)
    ensures GoneAfter(c, p, Bounce(c, cache, p, scope, a))
  {
    CountedIs(c, cache, p, scope, a);
    if p.name in c.pods { OneLess(c.pods, p.name); }
  }

  lemma CheckRemovesExpendable(c: Cluster, cache: AccountCache, p: Pod, scope: Scope, a: Answers)
    requires CacheCurrent(c, cache)
    ensures var s := Check(c, cache, p, scope, a);
            GoneAfter(c, p, s) && (s.cluster.pods.Keys != c.pods.Keys ==> Expendable(p))
  {
    CheckIs(c, cache, p, scope, a);
    UncountedRemoves(c, cache, p, scope, a);
    CountedRemoves(c, cache, p, scope, a);
  }

  lemma OneLess(pods: map<string, Pod>, name: string)
    requires name in pods
    ensures var rest := map n | n in pods && n != name :: pods[n];
            rest.Keys == pods.Keys - {name} && |rest| == |pods| - 1
  {
    var rest := map n | n in pods && n != name :: pods[n];
    assert rest.Keys == pods.Keys - {name};
    assert |rest| == |rest.Keys| && |pods| == |pods.Keys|;
  }

  ghost predicate ListedExpendable(listed: seq<Pod>, name: string)
  {
    exists p :: p in listed && p.name == name && Expendable(p)
  }

  /** A pass deletes no pod but one that the list shows with a failing pull or Pending with
      nothing started. No pod at work is ever lost. */
  lemma {:induction false} PodsAtWorkAreSpared(c: Cluster, listed: seq<Pod>, scope: Scope, answers: nat -> Answers)
    ensures var t := Restart(c, listed, scope, answers);
            && CacheCurrent(t.cluster, t.cache) && t.cluster.pods.Keys <= c.pods.Keys
            && forall n :: n in c.pods && n !in t.cluster.pods ==> ListedExpendable(listed, n)
  {
    if listed != [] {
      var n := |listed| - 1;
      var t := Restart(c, listed[..n], scope, answers);
      PodsAtWorkAreSpared(c, listed[..n], scope, answers);
      assert forall m :: ListedExpendable(listed[..n], m) ==> ListedExpendable(listed, m);
      if t.ok {
        CheckRemovesExpendable(t.cluster, t.cache, listed[n], scope, answers(n));
        assert Expendable(listed[n]) ==> ListedExpendable(listed, listed[n].name);
      }
    }
  }

  lemma AbortsInFront(c: Cluster, listed: seq<Pod>, scope: Scope, answers: nat -> Answers, i: nat)
    requires i < |listed| - 1
    ensures AbortsAt(c, listed[..|listed| - 1], scope, answers, i) <==> AbortsAt(c, listed, scope, answers, i)
  {
    assert listed[..|listed| - 1][..i] == listed[..i];
  }

  ghost predicate NoErrors(c: Cluster, listed: seq<Pod>, scope: Scope, answers: nat -> Answers)
  {
    forall i: nat :: i < |listed| ==> !AbortsAt(c, listed, scope, answers, i)
  }

  lemma NoErrorsInFront(c: Cluster, listed: seq<Pod>, scope: Scope, answers: nat -> Answers)
    requires listed != []
    ensures NoErrors(c, listed, scope, answers) <==>
            && NoErrors(c, listed[..|listed| - 1], scope, answers)
            && !AbortsAt(c, listed, scope, answers, |listed| - 1)
  {
    var front := listed[..|listed| - 1];
    if NoErrors(c, listed, scope, answers) {
      forall i: nat | i < |front| ensures !AbortsAt(c, front, scope, answers, i) {
        AbortsInFront(c, listed, scope, answers, i);
      }
    }
    if NoErrors(c, front, scope, answers) {
      forall i: nat | i < |front| ensures !AbortsAt(c, listed, scope, answers, i) {
        AbortsInFront(c, listed, scope, answers, i);
        assert !AbortsAt(c, front, scope, answers, i);
      }
    }
  }

  /** An error ends the pass, and without one every listed pod was checked; the pods it
      says it restarted are those that are gone. */
  lemma {:induction false} PassTellsWhatIsGone(c: Cluster, listed: seq<Pod>, scope: Scope, answers: nat -> Answers)
    ensures var t := Restart(c, listed, scope, answers);
            && (t.ok ==> t.bounced + |t.cluster.pods| == |c.pods|)
            && (t.ok <==> NoErrors(c, listed, scope, answers))
  {
    if listed != [] {
      var n := |listed| - 1;
      var front := listed[..n];
      var t := Restart(c, front, scope, answers);
      PassTellsWhatIsGone(c, front, scope, answers);
      PodsAtWorkAreSpared(c, front, scope, answers);
      NoErrorsInFront(c, listed, scope, answers);
      if t.ok { CheckRemovesExpendable(t.cluster, t.cache, listed[n], scope, answers(n)); }
    }
  }

  /** Check `i` of the pass is the one that meets an error. */
  ghost predicate AbortsAt(c: Cluster, listed: seq<Pod>, scope: Scope, answers: nat -> Answers, i: nat)
    requires i < |listed|
  {
    var t := Restart(c, listed[..i], scope, answers);
    t.ok && Check(t.cluster, t.cache, listed[i], scope, answers(i)).verdict == Aborted
  }

  lemma {:induction false} ErrorsEndThePass(c: Cluster, listed: seq<Pod>, scope: Scope, answers: nat -> Answers, i: nat)
    requires i < |listed| && AbortsAt(c, listed, scope, answers, i)
    ensures var t := Restart(c, listed[..i], scope, answers);
            Restart(c, listed, scope, answers).cluster
            == Check(t.cluster, t.cache, listed[i], scope, answers(i)).cluster
    ensures !Restart(c, listed, scope, answers).ok
  {
    var n := |listed| - 1;
    if i < n {
      assert listed[..n][..i] == listed[..i];
      ErrorsEndThePass(c, listed[..n], scope, answers, i);
    }
  }

  lemma LeftMeans(c: Cluster, cache: AccountCache, p: Pod, scope: Scope, a: Answers)
    requires CacheCurrent(c, cache)
    ensures Check(c, cache, p, scope, a).verdict == PendingLater <==>
            && !p.deleting && p.phasePending && AtWork(p) && (AccountName(p) in cache || a.accountReadable)
            && Qualifies(c, p, scope, a)
  {
    CheckIs(c, cache, p, scope, a);
    UncountedIs(c, cache, p, scope, a);
    CountedIs(c, cache, p, scope, a);
  }

  /** The pods it reports as pending are those it left for later: at work, and still to be
      recreated once their pull fails. */
  lemma {:induction false} PendingAreLeftForLater(c: Cluster, listed: seq<Pod>, scope: Scope, answers: nat -> Answers)
    ensures Restart(c, listed, scope, answers).pending == LeftForLater(c, listed, scope, answers)
  {
    if listed != [] {
      var n := |listed| - 1;
      var t := Restart(c, listed[..n], scope, answers);
      PendingAreLeftForLater(c, listed[..n], scope, answers);
      PodsAtWorkAreSpared(c, listed[..n], scope, answers);
      LeftMeans(t.cluster, t.cache, listed[n], scope, answers(n));
    }
  }

  /** How many of the listed pods the pass comes to while they are at work and qualify. */
  ghost function LeftForLater(c: Cluster, listed: seq<Pod>, scope: Scope, answers: nat -> Answers): nat
  {
    if listed == [] then 0
    else
      var n := |listed| - 1;
      LeftForLater(c, listed[..n], scope, answers) + if LeftAt(c, listed, scope, answers, n) then 1 else 0
  }

  ghost predicate LeftAt(c: Cluster, listed: seq<Pod>, scope: Scope, answers: nat -> Answers, i: nat)
    requires i < |listed|
  {
    var t, p := Restart(c, listed[..i], scope, answers), listed[i];
    && t.ok && !p.deleting && p.phasePending && AtWork(p)
    && (AccountName(p) in t.cache || answers(i).accountReadable)
    && Qualifies(t.cluster, p, scope, answers(i))
  }
}
