/** The pass over a namespace's pods as it runs, against a cluster it changes. */
module PodRestarter {
  import opened Workload
  import opened PullSecrets

  class ApiServer {
    var pods: map<string, Pod>
    var owners: map<string, Owner>
    var accounts: map<string, seq<string>>
    var log: seq<Deletion>

    constructor (c: Cluster)
      ensures AsCluster() == c
    {
      pods, owners, accounts, log := c.pods, c.owners, c.accounts, c.log;
    }

    function AsCluster(): Cluster
      reads this
    {
      Cluster(pods, owners, accounts, log)
    }

    method PatchOwner(name: string, o: Owner)
      modifies this
      ensures AsCluster() == WithOwner(old(AsCluster()), name, o)
    {
      owners := owners[name := o];
    }

    /** Removes whatever pod has that name now. */
    method Delete(p: Pod, owner: string, counted: bool)
      requires p.name in pods
      modifies this
      ensures AsCluster() == DeletePod(old(AsCluster()), p, owner, counted)
    {
      log := log + [Deletion(pods[p.name].uid, owner, counted)];
      pods := pods - {p.name};
    }
  }

  class Restarter {
    const api: ApiServer
    var accountSecrets: AccountCache

    constructor (api: ApiServer)
      ensures this.api == api && accountSecrets == map[]
    {
      this.api := api;
      accountSecrets := map[];
    }

    function AsStep(v: Verdict): Step
      reads this, api
    {
      Step(api.AsCluster(), accountSecrets, v)
    }

    method ServiceAccountPullSecrets(p: Pod, readable: bool) returns (names: Option<seq<string>>)
      modifies this`accountSecrets
      ensures var account := AccountName(p);
              && (names.None? <==> account !in old(accountSecrets) && !readable)
              && (names.Some? ==> account in accountSecrets && names.value == accountSecrets[account])
              && accountSecrets == if account in old(accountSecrets) || !readable then old(accountSecrets)
                                   else old(accountSecrets)[account := SecretsOf(api.AsCluster(), account)]
    {
      var account := AccountName(p);
      if account in accountSecrets {
        return Some(accountSecrets[account]);
      }
      if !readable {
        return None;
      }
      var found := if account in api.accounts then api.accounts[account] else [];
      accountSecrets := accountSecrets[account := found];
      return Some(found);
    }

    method PodMisses(p: Pod, onAccount: seq<string>, delivered: seq<string>) returns (missing: bool)
      ensures missing == Misses(p, onAccount, delivered)
    {
      for i := 0 to |delivered|
        invariant !Misses(p, onAccount, delivered[..i])
      {
        assert delivered[..i + 1] == delivered[..i] + [delivered[i]];
        if delivered[i] in onAccount && delivered[i] !in p.secrets {
          assert delivered[i] in delivered;
          return true;
        }
      }
      assert delivered[..|delivered|] == delivered;
      return false;
    }

    method PullSecretsFromAccount(p: Pod, onAccount: seq<string>) returns (all: bool)
      ensures all == FromAccount(p, onAccount)
    {
      for i := 0 to |p.secrets|
        invariant forall n :: n in p.secrets[..i] ==> n in onAccount
      {
        assert p.secrets[..i + 1] == p.secrets[..i] + [p.secrets[i]];
        if p.secrets[i] !in onAccount {
          assert p.secrets[i] in p.secrets;
          return false;
        }
      }
      assert p.secrets[..|p.secrets|] == p.secrets;
      return true;
    }

    method RecreateForDeliveredSecret(p: Pod, scope: Scope, a: Answers) returns (v: Verdict)
      modifies this`accountSecrets, api
      ensures AsStep(v) == Recreate(old(api.AsCluster()), old(accountSecrets), p, scope, a)
    {
      if |scope.delivered| == 0 {
        return Skipped;
      }
      var onAccount := ServiceAccountPullSecrets(p, a.accountReadable);
      if onAccount.None? {
        return Aborted;
      }
      var missing := PodMisses(p, onAccount.value, scope.delivered);
      if !missing || p.controller.None? || !a.ownerReadable || p.controller.value !in api.owners {
        return Skipped;
      }
      var owner := api.owners[p.controller.value];
      if !TemplateKind(owner.kind) || !OwnedByRelease(owner, scope.releases, a.deploymentReadable)
         || owner.templateSets {
        return Skipped;
      }
      var fromAccount := PullSecretsFromAccount(p, onAccount.value);
      if !fromAccount {
        return Skipped;
      }
      if !p.pullFailing && p.started {
        return PendingLater;
      }
      if a.delete.Fails? {
        return Aborted;
      }
      if p.name !in api.pods {
        return Skipped;
      }
      api.Delete(p, owner.uid, false);
      return if a.delete.LandsUnanswered? then Aborted else Done;
    }

    method BounceHelmLabelledPod(p: Pod, scope: Scope, a: Answers) returns (v: Verdict)
      modifies api
      ensures AsStep(v) == Bounce(old(api.AsCluster()), old(accountSecrets), p, scope, a)
    {
      if p.controller.None? || !a.ownerReadable || p.controller.value !in api.owners {
        return Skipped;
      }
      var name := p.controller.value;
      var owner := api.owners[name];
      var count := Count(owner);
      if !OwnedByRelease(owner, scope.releases, a.deploymentReadable) {
        return Skipped;
      }
      if p.uid != "" && owner.bouncedPod == p.uid {
        return Skipped;
      }
      if count >= MAX_BOUNCES {
        return Skipped;
      }
      if a.increment.Fails? {
        return Aborted;
      }
      api.PatchOwner(name, owner.(counter := Some(count + 1)));
      if a.increment.LandsUnanswered? || a.delete.Fails? {
        return Aborted;
      }
      var present := p.name in api.pods;
      if present {
        api.Delete(p, owner.uid, true);
        if a.delete.LandsUnanswered? {
          return Aborted;
        }
      }
      if a.record.Fails? {
        return Aborted;
      }
      api.PatchOwner(name, api.owners[name].(bouncedPod := p.uid));
      return if a.record.LandsUnanswered? then Aborted else if present then Done else Skipped;
    }

    method RestartImagePullBackOffPods(listed: seq<Pod>, scope: Scope, answers: nat -> Answers)
      returns (bounced: nat, pending: nat, ok: bool)
      modifies this, api
      ensures Tally(api.AsCluster(), accountSecrets, bounced, pending, ok)
           == Restart(old(api.AsCluster()), listed, scope, answers)
    {
      accountSecrets := map[];
      bounced, pending := 0, 0;
      ghost var c := api.AsCluster();
      for i := 0 to |listed|
        invariant Tally(api.AsCluster(), accountSecrets, bounced, pending, true)
               == Restart(c, listed[..i], scope, answers)
      {
        assert listed[..i + 1][..i] == listed[..i];
        var p := listed[i];
        if p.deleting || (!p.pullFailing && !p.phasePending) {
          continue;
        }
        var admitting := !p.pullFailing && p.phasePending;
        var v: Verdict;
        if admitting || !p.helmLabelled {
          v := RecreateForDeliveredSecret(p, scope, answers(i));
        } else {
          v := BounceHelmLabelledPod(p, scope, answers(i));
        }
        if v == Aborted {
          RestartStops(c, listed, i + 1, scope, answers);
          return bounced, pending, false;
        }
        if v == PendingLater {
          pending := pending + 1;
        } else if v == Done {
          bounced := bounced + 1;
        }
      }
      assert listed[..|listed|] == listed;
      ok := true;
    }

    static lemma {:induction false} RestartStops(c: Cluster, listed: seq<Pod>, n: nat, scope: Scope,
                                                 answers: nat -> Answers)
      requires n <= |listed| && !Restart(c, listed[..n], scope, answers).ok
      ensures Restart(c, listed, scope, answers) == Restart(c, listed[..n], scope, answers)
      decreases |listed|
    {
      if n < |listed| {
        assert listed[..|listed| - 1][..n] == listed[..n];
        RestartStops(c, listed[..|listed| - 1], n, scope, answers);
      } else {
        assert listed[..n] == listed;
      }
    }
  }
}
