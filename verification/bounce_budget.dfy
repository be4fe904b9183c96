/** Recreating pods stops: the counted path within a budget kept on the controller, the
    uncounted one because it runs out of pods to recreate. */
module BounceBudget {
  import opened Workload
  import opened PullSecrets

  // Runs: passes over whatever a list returned, and a cluster that lives on in between

  datatype Event = Passes(listed: seq<Pod>, scope: Scope, answers: nat -> Answers) | Lives(after: Cluster)

  function After(c: Cluster, e: Event): Cluster
  {
    match e
    case Passes(listed, scope, answers) => Restart(c, listed, scope, answers).cluster
    case Lives(after) => after.(log := c.log)
  }

  function Run(c: Cluster, events: seq<Event>): Cluster
  {
    if events == [] then c else After(Run(c, events[..|events| - 1]), events[|events| - 1])
  }

  // The budget

  function Bounced(log: seq<Deletion>, owner: string): nat
  {
    if log == [] then 0
    else Bounced(log[..|log| - 1], owner) + if log[|log| - 1].counted && log[|log| - 1].owner == owner then 1 else 0
  }

  ghost predicate DistinctUids(c: Cluster)
  {
    forall m, n :: m in c.owners && n in c.owners && m != n ==> c.owners[m].uid != c.owners[n].uid
  }

  /** For each controller object: deletions so far <= its counter <= 3. */
  ghost predicate WithinBudget(c: Cluster)
  {
    DistinctUids(c) && forall n :: n in c.owners ==> OwnerWithinBudget(c, n)
  }

  ghost predicate OwnerWithinBudget(c: Cluster, n: string)
    requires n in c.owners
  {
    Bounced(c.log, c.owners[n].uid) <= Count(c.owners[n]) <= MAX_BOUNCES
  }

  /** Nobody else writes the counter: a controller object keeps it for life, and a new
      object has none and an identity that was never used. */
  ghost predicate SingleWriter(before: Cluster, after: Cluster)
  {
    && DistinctUids(after)
    && forall n :: n in after.owners ==> CounterKept(before, after, n)
  }

  ghost predicate CounterKept(before: Cluster, after: Cluster, n: string)
    requires n in after.owners
  {
    if n in before.owners && before.owners[n].uid == after.owners[n].uid
    then after.owners[n].counter == before.owners[n].counter
    else after.owners[n].counter.None? && forall d :: d in before.log ==> d.owner != after.owners[n].uid
  }

  lemma {:induction false} NeverBounced(log: seq<Deletion>, owner: string)
    requires forall d :: d in log ==> d.owner != owner
    ensures Bounced(log, owner) == 0
  {
    if log != [] {
      assert log[|log| - 1] in log;
      NeverBounced(log[..|log| - 1], owner);
    }
  }

  lemma RecreateKeepsBudget(c: Cluster, cache: AccountCache, p: Pod, scope: Scope, a: Answers)
    requires WithinBudget(c)
    ensures WithinBudget(Recreate(c, cache, p, scope, a).cluster)
  {
  }

  /** What a counted check changes: the counter goes up by one, and then at most one pod
      goes, on that controller's account. */
  ghost predicate CountedChange(c: Cluster, after: Cluster, name: string, p: Pod)
  {
    && name in c.owners && name in after.owners && after.accounts == c.accounts
    && Count(c.owners[name]) < MAX_BOUNCES
    && after.owners[name]
       == c.owners[name].(counter := Some(Count(c.owners[name]) + 1), bouncedPod := after.owners[name].bouncedPod)
    && after.owners == c.owners[name := after.owners[name]]
    && (|| (after.log == c.log && after.pods == c.pods)
        || (p.name in c.pods && after.pods == c.pods - {p.name}
            && after.log == c.log + [Deletion(c.pods[p.name].uid, c.owners[name].uid, true)]))
  }

  lemma BounceChanges(c: Cluster, cache: AccountCache, p: Pod, scope: Scope, a: Answers)
    ensures var s := Bounce(c, cache, p, scope, a);
            s.cache == cache
            && (s.cluster == c || (p.controller.Some? && CountedChange(c, s.cluster, p.controller.value, p)))
  {
    if Bounceable(c, p, scope, a) && !a.increment.Fails? {
      var after := Bounce(c, cache, p, scope, a).cluster;
      assert after.owners == c.owners[p.controller.value := after.owners[p.controller.value]];
    }
  }

  /** One counted deletion at most, and never before the counter was raised for it. */
  lemma CountedChangeKeepsBudget(c: Cluster, after: Cluster, name: string, p: Pod)
    requires WithinBudget(c) && CountedChange(c, after, name, p)
    ensures WithinBudget(after)
  {
  }

  lemma BounceKeepsBudget(c: Cluster, cache: AccountCache, p: Pod, scope: Scope, a: Answers)
    requires WithinBudget(c)
    ensures WithinBudget(Bounce(c, cache, p, scope, a).cluster)
  {
    BounceChanges(c, cache, p, scope, a);
    var after := Bounce(c, cache, p, scope, a).cluster;
    if after != c {
      CountedChangeKeepsBudget(c, after, p.controller.value, p);
    }
  }

  lemma {:induction false} RestartKeepsBudget(c: Cluster, listed: seq<Pod>, scope: Scope, answers: nat -> Answers)
    requires WithinBudget(c)
    ensures WithinBudget(Restart(c, listed, scope, answers).cluster)
  {
    if listed != [] {
      var n := |listed| - 1;
      RestartKeepsBudget(c, listed[..n], scope, answers);
      var t := Restart(c, listed[..n], scope, answers);
      RecreateKeepsBudget(t.cluster, t.cache, listed[n], scope, answers(n));
      BounceKeepsBudget(t.cluster, t.cache, listed[n], scope, answers(n));
    }
  }

  lemma LivingKeepsBudget(before: Cluster, after: Cluster)
    requires WithinBudget(before) && SingleWriter(before, after)
    ensures WithinBudget(after.(log := before.log))
  {
    var c := after.(log := before.log);
    forall n | n in c.owners ensures OwnerWithinBudget(c, n) {
      assert CounterKept(before, after, n);
      if n in before.owners && before.owners[n].uid == after.owners[n].uid {
        assert OwnerWithinBudget(before, n);
      } else {
        NeverBounced(before.log, c.owners[n].uid);
      }
    }
  }

  ghost predicate LivesAt(c: Cluster, events: seq<Event>, i: nat)
    requires i < |events|
  {
    events[i].Lives? ==> SingleWriter(Run(c, events[..i]), events[i].after)
  }

  /** Over every run, through lists that are out of date, failing and unanswered writes
      and deletes, and controllers that come and go: for each controller object the
      counted deletions are at most its counter, which is at most three. */
  lemma {:induction false} BudgetHolds(c: Cluster, events: seq<Event>)
    requires WithinBudget(c)
    requires forall i: nat :: i < |events| ==> LivesAt(c, events, i)
    ensures WithinBudget(Run(c, events))
  {
    if events != [] {
      var front, last := events[..|events| - 1], events[|events| - 1];
      forall i: nat | i < |front| ensures LivesAt(c, front, i) {
        assert LivesAt(c, events, i);
        assert front[..i] == events[..i];
      }
      BudgetHolds(c, front);
      assert LivesAt(c, events, |events| - 1);
      match last
      case Passes(listed, scope, answers) => RestartKeepsBudget(Run(c, front), listed, scope, answers);
      case Lives(after) => LivingKeepsBudget(Run(c, front), after);
    }
  }

  // Pods that a list still shows

  /** The check gets all the way: counted, gone, and remembered on the controller. */
  predicate Remembers(c: Cluster, p: Pod, scope: Scope, a: Answers)
  {
    && !p.deleting && p.pullFailing && p.helmLabelled
    && Bounceable(c, p, scope, a)
    && a.increment.Lands? && !a.delete.Fails? && (p.name in c.pods ==> a.delete.Lands?) && !a.record.Fails?
  }

  /** The pods remembered on controller `name`, in order. */
  function RememberedBy(c: Cluster, p: Pod, scope: Scope, a: Answers, name: string): seq<string>
  {
    if p.controller == Some(name) && Remembers(c, p, scope, a) then [p.uid] else []
  }

  function RememberedIn(c: Cluster, listed: seq<Pod>, scope: Scope, answers: nat -> Answers, name: string): seq<string>
  {
    if listed == [] then []
    else
      var n := |listed| - 1;
      var t := Restart(c, listed[..n], scope, answers);
      RememberedIn(c, listed[..n], scope, answers, name)
      + if t.ok then RememberedBy(t.cluster, listed[n], scope, answers(n), name) else []
  }

  function Remembered(c: Cluster, events: seq<Event>, name: string): seq<string>
  {
    if events == [] then []
    else
      var front, last := events[..|events| - 1], events[|events| - 1];
      Remembered(c, front, name)
      + match last
        case Passes(listed, scope, answers) => RememberedIn(Run(c, front), listed, scope, answers, name)
        case Lives(_) => []
  }

  function Latest(first: string, uids: seq<string>): string
  {
    if uids == [] then first else uids[|uids| - 1]
  }

  /** The controller has room for one pod: the last one remembered. */
  ghost predicate Holds(before: Cluster, after: Cluster, uids: seq<string>, name: string)
    requires name in before.owners
  {
    && name in after.owners && after.owners[name].uid == before.owners[name].uid
    && after.owners[name].bouncedPod == Latest(before.owners[name].bouncedPod, uids)
  }

  lemma CheckRemembers(c: Cluster, cache: AccountCache, p: Pod, scope: Scope, a: Answers, name: string)
    requires name in c.owners
    ensures Holds(c, Check(c, cache, p, scope, a).cluster, RememberedBy(c, p, scope, a, name), name)
  {
  }

  lemma {:induction false} RestartRemembers(c: Cluster, listed: seq<Pod>, scope: Scope, answers: nat -> Answers,
                                            name: string)
    requires name in c.owners
    ensures Holds(c, Restart(c, listed, scope, answers).cluster, RememberedIn(c, listed, scope, answers, name), name)
  {
    if listed != [] {
      var n := |listed| - 1;
      RestartRemembers(c, listed[..n], scope, answers, name);
      var t := Restart(c, listed[..n], scope, answers);
      if t.ok { CheckRemembers(t.cluster, t.cache, listed[n], scope, answers(n), name); }
    }
  }

  /** Nobody else touches what the controller remembers. */
  ghost predicate RecordKeptAt(c: Cluster, events: seq<Event>, i: nat, name: string)
  {
    i < |events| && events[i].Lives? && name in Run(c, events[..i]).owners ==>
      Holds(Run(c, events[..i]), events[i].after, [], name)
  }

  lemma {:induction false} RunRemembers(c: Cluster, events: seq<Event>, name: string)
    requires name in c.owners
    requires forall i: nat :: RecordKeptAt(c, events, i, name)
    ensures Holds(c, Run(c, events), Remembered(c, events, name), name)
  {
    if events != [] {
      var n := |events| - 1;
      var front := events[..n];
      forall i: nat ensures RecordKeptAt(c, front, i, name) {
        assert RecordKeptAt(c, events, i, name);
        if i < n { assert front[..i] == events[..i]; }
      }
      RunRemembers(c, front, name);
      assert RecordKeptAt(c, events, n, name);
      if events[n].Passes? {
        RestartRemembers(Run(c, front), events[n].listed, events[n].scope, events[n].answers, name);
      }
    }
  }

  /** However long lists still show a pod that is gone and remembered: over any run it
      comes to be counted again if and only if the last pod its controller remembers by
      then is another one, and the controller is in scope with budget left. */
  lemma GonePodsCountAgain(c: Cluster, events: seq<Event>, name: string, p: Pod, scope: Scope, a: Answers)
    requires name in c.owners && p.controller == Some(name)
    requires p.uid != "" && c.owners[name].bouncedPod == p.uid
    requires forall i: nat :: RecordKeptAt(c, events, i, name)
    ensures var end, uids := Run(c, events), Remembered(c, events, name);
            && name in end.owners
            && (Bounceable(end, p, scope, a) <==>
                  && uids != [] && uids[|uids| - 1] != p.uid
                  && Count(end.owners[name]) < MAX_BOUNCES
                  && a.ownerReadable && OwnedByRelease(end.owners[name], scope.releases, a.deploymentReadable))
  {
    RunRemembers(c, events, name);
  }

  /** Two failing pods of one controller with its whole budget left, and answers that are
      all good. */
  ghost predicate TwoFailing(c: Cluster, name: string, p: Pod, q: Pod, scope: Scope, a: Answers)
  {
    && name in c.owners && Count(c.owners[name]) == 0 && c.owners[name].bouncedPod == ""
    && p.name in c.pods && q.name in c.pods && p.name != q.name
    && p.uid != "" && q.uid != "" && p.uid != q.uid
    && Failing(p, name) && Failing(q, name)
    && a.ownerReadable && OwnedByRelease(c.owners[name], scope.releases, a.deploymentReadable)
    && a.increment.Lands? && a.delete.Lands? && a.record.Lands?
  }

  predicate Failing(p: Pod, name: string)
  {
    !p.deleting && p.pullFailing && p.helmLabelled && p.controller == Some(name)
  }

  /** Two passes over one list: the first bounces both pods; the second counts the first
      pod again, long gone, and spends the last unit of the budget on nothing. */
  lemma TwoPodsSpendThree(c: Cluster, name: string, p: Pod, q: Pod, scope: Scope, answers: nat -> Answers)
    requires TwoFailing(c, name, p, q, scope, answers(0)) && answers(1) == answers(0)
    ensures var pass := Passes([p, q], scope, answers);
            var once, twice := Run(c, [pass]), Run(c, [pass, pass]);
            && once.pods == twice.pods == c.pods - {p.name, q.name} && once.log == twice.log
            && name in once.owners && Count(once.owners[name]) == 2
            && name in twice.owners && Count(twice.owners[name]) == MAX_BOUNCES
  {
    var pass := Passes([p, q], scope, answers);
    var none: seq<Event> := [];
    assert [pass][..0] == none && [pass, pass][..1] == [pass];
    FirstOfTwo(c, name, p, q, scope, answers(0));
    PassOfTwo(c, p, q, scope, answers);
    var once := Restart(c, [p, q], scope, answers).cluster;
    assert Run(c, [pass]) == once;
    PassOfTwo(once, p, q, scope, answers);
    SecondOfTwo(once, name, p, q, scope, answers(0));
  }

  lemma PassOfTwo(c: Cluster, p: Pod, q: Pod, scope: Scope, answers: nat -> Answers)
    ensures var first := Check(c, map[], p, scope, answers(0));
            var second := Check(first.cluster, first.cache, q, scope, answers(1));
            Restart(c, [p, q], scope, answers).cluster
            == if first.verdict == Aborted then first.cluster else second.cluster
  {
    var none: seq<Pod> := [];
    assert [p, q][..1] == [p] && [p][..0] == none;
    assert Restart(c, none, scope, answers).ok;
  }

  lemma FirstOfTwo(c: Cluster, name: string, p: Pod, q: Pod, scope: Scope, a: Answers)
    requires TwoFailing(c, name, p, q, scope, a)
    ensures var first := Check(c, map[], p, scope, a);
            var second := Check(first.cluster, first.cache, q, scope, a);
            && first.verdict == Done && second.cluster.pods == c.pods - {p.name, q.name}
            && second.cluster.owners == c.owners[name := c.owners[name].(counter := Some(2), bouncedPod := q.uid)]
  {
  }

  lemma SecondOfTwo(c: Cluster, name: string, p: Pod, q: Pod, scope: Scope, a: Answers)
    requires name in c.owners && Count(c.owners[name]) == 2 && c.owners[name].bouncedPod != p.uid
    requires Failing(p, name) && Failing(q, name) && p.uid != "" && p.name !in c.pods
    requires a.ownerReadable && OwnedByRelease(c.owners[name], scope.releases, a.deploymentReadable)
    requires a.increment.Lands? && a.delete.Lands? && a.record.Lands?
    ensures var first := Check(c, map[], p, scope, a);
            var second := Check(first.cluster, first.cache, q, scope, a);
            && first.verdict == Skipped && second.cluster == first.cluster
            && first.cluster.pods == c.pods && first.cluster.log == c.log
            && name in first.cluster.owners && Count(first.cluster.owners[name]) == MAX_BOUNCES
  {
  }

  /** A pod whose delete failed is not remembered, and is tried again for as long as the
      budget lasts. */
  lemma FailedDeletesAreRetried(c: Cluster, cache: AccountCache, p: Pod, scope: Scope, a: Answers, again: Answers)
    requires Bounceable(c, p, scope, a) && a.increment.Lands? && a.delete.Fails?
    requires again.ownerReadable && again.deploymentReadable
    ensures Bounceable(Bounce(c, cache, p, scope, a).cluster, p, scope, again)
       <==> Count(c.owners[p.controller.value]) + 1 < MAX_BOUNCES
  {
  }

  // The uncounted path

  function Recreations(log: seq<Deletion>): nat
  {
    if log == [] then 0 else Recreations(log[..|log| - 1]) + if log[|log| - 1].counted then 0 else 1
  }

  /** A pod in scope that lacks a delivered secret its ServiceAccount carries. */
  ghost predicate Lacks(c: Cluster, p: Pod, scope: Scope)
  {
    && Misses(p, SecretsOf(c, AccountName(p)), scope.delivered)
    && InScope(c, p, scope)
  }

  ghost predicate InScope(c: Cluster, p: Pod, scope: Scope)
  {
    && p.controller.Some? && p.controller.value in c.owners
    && (var o := c.owners[p.controller.value];
        TemplateKind(o.kind) && OwnedByRelease(o, scope.releases, true) && !o.templateSets)
  }

  ghost function Lacking(c: Cluster, scope: Scope): set<string>
  {
    set n | n in c.pods && Lacks(c, c.pods[n], scope)
  }

  predicate SameSpec(p: Pod, q: Pod)
  {
    p.name == q.name && p.uid == q.uid && p.account == q.account && p.secrets == q.secrets
    && p.controller == q.controller
  }

  /** The list is current about a pod: what has its name now, if anything has, is it. */
  ghost predicate Current(c: Cluster, p: Pod)
  {
    p.name in c.pods ==> SameSpec(p, c.pods[p.name])
  }

  ghost predicate CacheCurrent(c: Cluster, cache: AccountCache)
  {
    forall n :: n in cache ==> cache[n] == SecretsOf(c, n)
  }

  /** What an uncounted check deletes: nothing, or the pod with that name. */
  ghost predicate Removes(c: Cluster, after: Cluster, name: string)
  {
    && name in c.pods && after.pods == c.pods - {name}
    && after.owners == c.owners && after.accounts == c.accounts
    && |after.log| == |c.log| + 1 && after.log[..|c.log|] == c.log && !after.log[|c.log|].counted
  }

  lemma RecreateRemoves(c: Cluster, cache: AccountCache, p: Pod, scope: Scope, a: Answers)
    requires CacheCurrent(c, cache)
    ensures var s := Recreate(c, cache, p, scope, a);
            && CacheCurrent(s.cluster, s.cache)
            && (s.cluster == c || (Removes(c, s.cluster, p.name) && Lacks(c, p, scope)))
  {
  }

  lemma RemovalShrinks(c: Cluster, after: Cluster, name: string, scope: Scope)
    requires name in c.pods && after.pods == c.pods - {name} && after.accounts == c.accounts
    requires forall p: Pod :: InScope(after, p, scope) <==> InScope(c, p, scope)
    ensures Lacking(after, scope) == Lacking(c, scope) - {name}
    ensures |Lacking(after, scope)| == |Lacking(c, scope)| - if name in Lacking(c, scope) then 1 else 0
  {
    forall n ensures n in Lacking(after, scope) <==> n in Lacking(c, scope) - {name} {
      if n in after.pods {
        assert after.pods[n] == c.pods[n];
        assert InScope(after, c.pods[n], scope) <==> InScope(c, c.pods[n], scope);
      }
    }
  }

  /** A recreation brings the number of lacking pods down by one exactly when the pod it
      hits, the one that has the name now, lacks a secret; when the list was current it
      always does. */
  lemma RecreationShrinks(c: Cluster, cache: AccountCache, p: Pod, scope: Scope, a: Answers)
    requires CacheCurrent(c, cache) && Recreate(c, cache, p, scope, a).cluster != c
    ensures p.name in c.pods
    ensures var after := Recreate(c, cache, p, scope, a).cluster;
            && (|Lacking(after, scope)| == |Lacking(c, scope)| - 1 <==> Lacks(c, c.pods[p.name], scope))
            && (!Lacks(c, c.pods[p.name], scope) ==> Lacking(after, scope) == Lacking(c, scope))
            && (Current(c, p) ==> |Lacking(after, scope)| == |Lacking(c, scope)| - 1)
  {
    RecreateRemoves(c, cache, p, scope, a);
    var after := Recreate(c, cache, p, scope, a).cluster;
    assert forall q: Pod :: InScope(after, q, scope) <==> InScope(c, q, scope);
    RemovalShrinks(c, after, p.name, scope);
  }

  /** So a list that is behind can hit a pod that was recreated already, under the name it
      kept, and gain nothing. */
  lemma StaleListHitsTheReplacement(c: Cluster, p: Pod, scope: Scope, a: Answers)
    requires p.name in c.pods && FromAccount(p, SecretsOf(c, AccountName(p))) && Lacks(c, p, scope)
    requires c.pods[p.name] == p.(uid := c.pods[p.name].uid, secrets := SecretsOf(c, AccountName(p)))
    requires a.accountReadable && a.ownerReadable && a.deploymentReadable && a.delete.Lands?
    requires p.pullFailing && !p.helmLabelled && !p.deleting
    ensures var s := Check(c, map[], p, scope, a);
            && s.verdict == Done && Removes(c, s.cluster, p.name)
            && Lacking(s.cluster, scope) == Lacking(c, scope)
  {
    var after := Check(c, map[], p, scope, a).cluster;
    assert forall q: Pod :: InScope(after, q, scope) <==> InScope(c, q, scope);
    RemovalShrinks(c, after, p.name, scope);
  }

  /** The accounts and the controllers' templates are stable, a pod's spec is settled at
      admission, and a new pod of a controller whose template lists no secrets is admitted
      with its ServiceAccount's. */
  ghost predicate Admits(before: Cluster, after: Cluster, scope: Scope)
  {
    && after.accounts == before.accounts
    && (forall p: Pod :: InScope(after, p, scope) ==> InScope(before, p, scope) || AdmittedNow(before, after, p))
    && forall n :: n in after.pods ==> Admitted(before, after, n, scope)
  }

  /** The pod's controller is new, and with it every pod of it. */
  ghost predicate AdmittedNow(before: Cluster, after: Cluster, p: Pod)
  {
    forall n :: n in before.pods ==> before.pods[n].controller != p.controller
  }

  ghost predicate Admitted(before: Cluster, after: Cluster, n: string, scope: Scope)
    requires n in after.pods
  {
    || (n in before.pods && SameSpec(before.pods[n], after.pods[n]))
    || (InScope(after, after.pods[n], scope) ==>
          forall s :: s in SecretsOf(after, AccountName(after.pods[n])) ==> s in after.pods[n].secrets)
  }

  lemma LivingNeverAdds(before: Cluster, after: Cluster, scope: Scope)
    requires Admits(before, after, scope)
    ensures Lacking(after, scope) <= Lacking(before, scope)
  {
  }

  lemma SubsetSize(a: set<string>, b: set<string>)
    requires a <= b
    ensures |a| <= |b|
  {
    assert b == a + (b - a);
  }

  lemma RecreationsAppend(log: seq<Deletion>, d: Deletion)
    ensures Recreations(log + [d]) == Recreations(log) + if d.counted then 0 else 1
  {
  }

  /** What bounds the recreations: those made, and the pods that may still need one. */
  ghost function Potential(c: Cluster, scope: Scope): nat
  {
    Recreations(c.log) + |Lacking(c, scope)|
  }

  lemma CheckNeverRaises(c: Cluster, cache: AccountCache, p: Pod, scope: Scope, a: Answers)
    requires CacheCurrent(c, cache) && Current(c, p)
    ensures var s := Check(c, cache, p, scope, a);
            && CacheCurrent(s.cluster, s.cache) && s.cluster.pods.Items <= c.pods.Items
            && Potential(s.cluster, scope) <= Potential(c, scope)
  {
    var admitting := !p.pullFailing && p.phasePending;
    if p.deleting || (!p.pullFailing && !admitting) {
    } else if admitting || !p.helmLabelled {
      RecreateNeverRaises(c, cache, p, scope, a);
    } else {
      BounceNeverRaises(c, cache, p, scope, a);
    }
  }

  lemma RecreateNeverRaises(c: Cluster, cache: AccountCache, p: Pod, scope: Scope, a: Answers)
    requires CacheCurrent(c, cache) && Current(c, p)
    ensures var s := Recreate(c, cache, p, scope, a);
            && CacheCurrent(s.cluster, s.cache) && s.cluster.pods.Items <= c.pods.Items
            && Potential(s.cluster, scope) <= Potential(c, scope)
  {
    RecreateRemoves(c, cache, p, scope, a);
    var after := Recreate(c, cache, p, scope, a).cluster;
    if after != c {
      RecreationShrinks(c, cache, p, scope, a);
      assert after.log == c.log + [after.log[|c.log|]];
      RecreationsAppend(c.log, after.log[|c.log|]);
    }
  }

  lemma CountedChangeNeverRaises(c: Cluster, after: Cluster, name: string, p: Pod, scope: Scope)
    requires CountedChange(c, after, name, p)
    ensures after.pods.Items <= c.pods.Items && Potential(after, scope) <= Potential(c, scope)
  {
    assert forall q: Pod :: InScope(after, q, scope) <==> InScope(c, q, scope);
    if after.log != c.log {
      RecreationsAppend(c.log, after.log[|c.log|]);
      RemovalShrinks(c, after, p.name, scope);
    } else {
      assert Lacking(after, scope) == Lacking(c, scope);
    }
  }

  lemma BounceNeverRaises(c: Cluster, cache: AccountCache, p: Pod, scope: Scope, a: Answers)
    requires CacheCurrent(c, cache)
    ensures var s := Bounce(c, cache, p, scope, a);
            && CacheCurrent(s.cluster, s.cache) && s.cluster.pods.Items <= c.pods.Items
            && Potential(s.cluster, scope) <= Potential(c, scope)
  {
    BounceChanges(c, cache, p, scope, a);
    var after := Bounce(c, cache, p, scope, a).cluster;
    if after != c {
      CountedChangeNeverRaises(c, after, p.controller.value, p, scope);
    }
  }

  ghost predicate AllCurrent(c: Cluster, listed: seq<Pod>)
  {
    forall i :: 0 <= i < |listed| ==> Current(c, listed[i])
  }

  lemma {:induction false} RestartNeverRaises(c: Cluster, listed: seq<Pod>, scope: Scope, answers: nat -> Answers)
    requires AllCurrent(c, listed)
    ensures var t := Restart(c, listed, scope, answers);
            && CacheCurrent(t.cluster, t.cache) && t.cluster.pods.Items <= c.pods.Items
            && Potential(t.cluster, scope) <= Potential(c, scope)
  {
    if listed != [] {
      var n := |listed| - 1;
      RestartNeverRaises(c, listed[..n], scope, answers);
      var t := Restart(c, listed[..n], scope, answers);
      StillCurrent(c, t.cluster, listed[n]);
      CheckNeverRaises(t.cluster, t.cache, listed[n], scope, answers(n));
    }
  }

  lemma StillCurrent(c: Cluster, d: Cluster, p: Pod)
    requires Current(c, p) && d.pods.Items <= c.pods.Items
    ensures Current(d, p)
  {
    if p.name in d.pods {
      assert (p.name, d.pods[p.name]) in d.pods.Items;
    }
  }

  ghost predicate Orderly(c: Cluster, events: seq<Event>, scope: Scope, i: nat)
    requires i < |events|
  {
    var before := Run(c, events[..i]);
    match events[i]
    case Passes(listed, s, _) => s == scope && AllCurrent(before, listed)
    case Lives(after) => Admits(before, after, scope)
  }

  /** Over every run whose lists are current, with stable accounts and templates: the
      recreations made never exceed the number of lacking pods at the start. */
  lemma {:induction false} RecreationsAreBounded(c: Cluster, events: seq<Event>, scope: Scope)
    requires forall i: nat :: i < |events| ==> Orderly(c, events, scope, i)
    ensures Potential(Run(c, events), scope) <= Potential(c, scope)
    ensures Recreations(Run(c, events).log) - Recreations(c.log) <= |Lacking(c, scope)|
  {
    if events != [] {
      var front, last := events[..|events| - 1], events[|events| - 1];
      forall i: nat | i < |front| ensures Orderly(c, front, scope, i) {
        assert Orderly(c, events, scope, i);
        assert front[..i] == events[..i];
      }
      RecreationsAreBounded(c, front, scope);
      assert Orderly(c, events, scope, |events| - 1);
      var before := Run(c, front);
      match last
      case Passes(listed, s, answers) => RestartNeverRaises(before, listed, scope, answers);
      case Lives(after) =>
        LivingNeverAdds(before, after, scope);
        assert Lacking(after.(log := before.log), scope) == Lacking(after, scope);
        SubsetSize(Lacking(after, scope), Lacking(before, scope));
    }
  }
}
