/** The sweeper: expiry, recovery of interrupted merges and reconciliation, call by call. */
module Sweeper {
  import opened Wrappers
  import opened Lifecycle
  import opened Clients
  import PullRequest

  predicate IsDistinct(order: seq<nat>) {
    forall i, j :: 0 <= i < j < |order| ==> order[i] != order[j]
  }

  ghost function SetOf(order: seq<nat>): set<nat> { set n | n in order }

  // The row for orphan n.
  function RowFor(w: World, n: nat, staleDuration: int): PendingDeploy
    requires IsOrphan(w, n)
  {
    Rehydrated(w.prs[n], PullRequest.ParsePRMeta(w.prs[n].body).value, n, w.now, staleDuration)
  }

  // What reconciling does for pull request n alone.
  function ReconcileOne(v: World, n: nat, labelled: set<nat>, staleDuration: int): World {
    if !IsOrphan(v, n) then v
    else AddLabels(SetRow(v, RowFor(v, n, staleDuration)), n, {PendingLabel}, n in labelled)
  }

  ghost function OrphansOf(w: World, listed: set<nat>): (orphans: set<nat>)
    ensures forall n :: n in orphans ==> IsOrphan(w, n)
  {
    set n | n in listed && IsOrphan(w, n)
  }

  // The rows and the pull requests after reconciling, one by one.
  ghost predicate RowsMatch(w: World, rows: map<nat, PendingDeploy>, orphans: set<nat>, staleDuration: int)
    requires forall n :: n in orphans ==> IsOrphan(w, n)
  {
    && rows.Keys == w.rows.Keys + orphans
    && (forall n | n in w.rows :: rows[n] == w.rows[n])
    && (forall n | n in orphans :: rows[n] == RowFor(w, n, staleDuration))
  }

  ghost predicate LabelsMatch(w: World, prs: map<nat, PR>, relabelled: set<nat>) {
    && prs.Keys == w.prs.Keys
    && (forall n | n in w.prs ::
          prs[n] == if n in relabelled then w.prs[n].(labels := w.prs[n].labels + {PendingLabel}) else w.prs[n])
  }

  ghost predicate IsReconciled(w: World, v: World, orphans: set<nat>, labelled: set<nat>, staleDuration: int)
    requires forall n :: n in orphans ==> IsOrphan(w, n)
  {
    && v == w.(rows := v.rows, prs := v.prs)
    && RowsMatch(w, v.rows, orphans, staleDuration)
    && LabelsMatch(w, v.prs, orphans * labelled)
  }

  lemma ReconcileMeans(w: World, listed: set<nat>, labelled: set<nat>, staleDuration: int)
    ensures var v := Reconcile(w, listed, labelled, staleDuration);
      IsReconciled(w, v, OrphansOf(w, listed), labelled, staleDuration)
  {
    hide PullRequest.ParsePRMeta, Rehydrated;
  }

  lemma ReconciledIsUnique(w: World, v: World, u: World, orphans: set<nat>, labelled: set<nat>, staleDuration: int)
    requires forall n :: n in orphans ==> IsOrphan(w, n)
    requires IsReconciled(w, v, orphans, labelled, staleDuration)
    requires IsReconciled(w, u, orphans, labelled, staleDuration)
    ensures v == u
  {
    hide IsOrphan, RowFor;
    assert v.rows == u.rows;
    assert v.prs == u.prs;
  }

  lemma RowForAgrees(w: World, v: World, n: nat, staleDuration: int)
    requires IsOrphan(w, n) && n in v.prs && n !in v.rows && v.prs[n] == w.prs[n] && v.now == w.now
    ensures IsOrphan(v, n) && RowFor(v, n, staleDuration) == RowFor(w, n, staleDuration)
    ensures RowFor(w, n, staleDuration).prNumber == n
  {
    hide PullRequest.ParsePRMeta;
  }

  lemma OneMoreRow(w: World, rows: map<nat, PendingDeploy>, orphans: set<nat>, n: nat, staleDuration: int)
    requires forall m :: m in orphans ==> IsOrphan(w, m)
    requires n !in orphans && IsOrphan(w, n) && RowsMatch(w, rows, orphans, staleDuration)
    ensures RowsMatch(w, rows[n := RowFor(w, n, staleDuration)], orphans + {n}, staleDuration)
  {
    assert n !in w.rows;
    hide IsOrphan, RowFor;
  }

  lemma OneMoreLabel(w: World, v: World, relabelled: set<nat>, n: nat, d: PendingDeploy, ok: bool)
    requires n in w.prs && n !in relabelled && d.prNumber == n && LabelsMatch(w, v.prs, relabelled)
    ensures var v' := AddLabels(SetRow(v, d), n, {PendingLabel}, ok);
      && v' == v.(rows := v.rows[n := d], prs := v'.prs)
      && LabelsMatch(w, v'.prs, if ok then relabelled + {n} else relabelled)
  {
  }

  lemma MakeReconciled(w: World, v: World, orphans: set<nat>, labelled: set<nat>, staleDuration: int)
    requires forall m :: m in orphans ==> IsOrphan(w, m)
    requires v == w.(rows := v.rows, prs := v.prs)
    requires RowsMatch(w, v.rows, orphans, staleDuration) && LabelsMatch(w, v.prs, orphans * labelled)
    ensures IsReconciled(w, v, orphans, labelled, staleDuration)
  {
    hide RowsMatch, LabelsMatch, IsOrphan;
  }

  lemma ReconciledOrphan(w: World, v: World, orphans: set<nat>, n: nat, labelled: set<nat>, staleDuration: int)
    requires forall m :: m in orphans ==> IsOrphan(w, m)
    requires n !in orphans && IsReconciled(w, v, orphans, labelled, staleDuration) && IsOrphan(w, n)
    ensures n in w.prs && n in v.prs && n !in v.rows && v.prs[n] == w.prs[n] && v.now == w.now
  {
    hide PullRequest.ParsePRMeta, RowFor;
  }

  lemma OneMoreReconciled(w: World, v: World, orphans: set<nat>, n: nat, labelled: set<nat>, staleDuration: int)
    requires forall m :: m in orphans ==> IsOrphan(w, m)
    requires n !in orphans && IsReconciled(w, v, orphans, labelled, staleDuration) && IsOrphan(w, n)
    ensures IsOrphan(v, n)
    ensures IsReconciled(w, AddLabels(SetRow(v, RowFor(v, n, staleDuration)), n, {PendingLabel}, n in labelled),
                         orphans + {n}, labelled, staleDuration)
  {
    hide IsOrphan, RowFor, AddLabels, SetRow, RowsMatch, LabelsMatch;
    ReconciledOrphan(w, v, orphans, n, labelled, staleDuration);
    RowForAgrees(w, v, n, staleDuration);
    OneMoreRow(w, v.rows, orphans, n, staleDuration);
    OneMoreLabel(w, v, orphans * labelled, n, RowFor(v, n, staleDuration), n in labelled);
    assert (orphans + {n}) * labelled == if n in labelled then orphans * labelled + {n} else orphans * labelled;
    hide IsReconciled;
    MakeReconciled(w, AddLabels(SetRow(v, RowFor(v, n, staleDuration)), n, {PendingLabel}, n in labelled),
                   orphans + {n}, labelled, staleDuration);
  }

  lemma OneMoreOrphan(w: World, listed: set<nat>, n: nat, labelled: set<nat>, staleDuration: int)
    requires n !in listed
    ensures Reconcile(w, listed + {n}, labelled, staleDuration)
         == ReconcileOne(Reconcile(w, listed, labelled, staleDuration), n, labelled, staleDuration)
  {
    var v := Reconcile(w, listed, labelled, staleDuration);
    ReconcileMeans(w, listed, labelled, staleDuration);
    ReconcileMeans(w, listed + {n}, labelled, staleDuration);
    var orphans := OrphansOf(w, listed + {n});
    hide PullRequest.ParsePRMeta, Reconcile, RowFor;
    if IsOrphan(w, n) {
      assert orphans == OrphansOf(w, listed) + {n};
      OneMoreReconciled(w, v, OrphansOf(w, listed), n, labelled, staleDuration);
    } else {
      assert orphans == OrphansOf(w, listed);
      assert !IsOrphan(v, n);
    }
    ReconciledIsUnique(w, Reconcile(w, listed + {n}, labelled, staleDuration),
                       ReconcileOne(v, n, labelled, staleDuration), orphans, labelled, staleDuration);
  }

  lemma NextOf(order: seq<nat>, i: nat)
    requires IsDistinct(order) && i < |order|
    ensures order[i] !in SetOf(order[..i]) && SetOf(order[..i + 1]) == SetOf(order[..i]) + {order[i]}
  {
    assert order[..i + 1] == order[..i] + [order[i]];
  }

  class Sweeper {
    const store: Store
    const gh: Client

    constructor (store: Store, gh: Client)
      ensures this.store == store && this.gh == gh
    {
      this.store, this.gh := store, gh;
    }

    ghost function View(): World
      reads this, store, gh
    {
      World(store.now, store.locks, store.rows, gh.prs, store.history)
    }

    // The two listings are merged; a failed listing is skipped.
    method ListOpenPRs(pending: Option<seq<nat>>, deploy: Option<seq<nat>>) returns (all: seq<nat>)
      ensures IsDistinct(all)
      ensures forall n :: n in all <==> (pending.Some? && n in pending.value) || (deploy.Some? && n in deploy.value)
    {
      var seen: set<nat> := {};
      all := [];
      var listings := [pending, deploy];
      for k := 0 to 2
        invariant IsDistinct(all) && seen == SetOf(all)
        invariant forall n :: n in all <==>
          (k > 0 && pending.Some? && n in pending.value) || (k > 1 && deploy.Some? && n in deploy.value)
      {
        if listings[k].Some? {
          var issues := listings[k].value;
          ghost var before := all;
          for i := 0 to |issues|
            invariant IsDistinct(all) && seen == SetOf(all)
            invariant forall n :: n in all <==> n in before || n in issues[..i]
          {
            if issues[i] !in seen {
              seen := seen + {issues[i]};
              all := all + [issues[i]];
            }
          }
        }
      }
    }

    // One pass of ReconcileFromGitHub's loop.
    method Rehydrate(n: nat, labelled: set<nat>, staleDuration: int)
      requires n in gh.prs
      modifies store, gh
      ensures View() == ReconcileOne(old(View()), n, labelled, staleDuration)
      ensures gh.prs.Keys == old(gh.prs.Keys)
    {
      hide PullRequest.ParsePRMeta, Rehydrated;
      var existing := store.Get(n);
      if existing.Some? { return; }
      var meta := PullRequest.ParsePRMeta(gh.prs[n].body);
      if meta.None? { return; }
      store.Set(Rehydrated(gh.prs[n], meta.value, n, store.now, staleDuration));
      gh.AddLabels(n, {PendingLabel}, n in labelled);
    }

    method ReconcileFromGitHub(pending: Option<seq<nat>>, deploy: Option<seq<nat>>, labelled: set<nat>,
                               staleDuration: int)
      requires pending.Some? ==> forall n :: n in pending.value ==> n in gh.prs
      requires deploy.Some? ==> forall n :: n in deploy.value ==> n in gh.prs
      modifies store, gh
      ensures View() == Reconcile(old(View()), Listed(pending, deploy), labelled, staleDuration)
    {
      var all := ListOpenPRs(pending, deploy);
      ghost var w := View();
      assert forall n :: n in all ==> n in gh.prs;
      ReconcileNothing(w, labelled, staleDuration);
      hide Reconcile, ReconcileOne;
      for i := 0 to |all|
        invariant forall n :: n in all ==> n in gh.prs
        invariant View() == Reconcile(w, SetOf(all[..i]), labelled, staleDuration)
      {
        assert all[i] in all;
        NextOf(all, i);
        OneMoreOrphan(w, SetOf(all[..i]), all[i], labelled, staleDuration);
        Rehydrate(all[i], labelled, staleDuration);
      }
      assert all[..|all|] == all;
      assert SetOf(all) == Listed(pending, deploy);
    }

    // The rows that a query answers with, as they are now.
    method Rows(order: seq<nat>) returns (ds: seq<PendingDeploy>)
      requires forall n :: n in order ==> n in store.rows
      ensures |ds| == |order| && forall i :: 0 <= i < |order| ==> ds[i] == store.rows[order[i]]
    {
      ds := [];
      for i := 0 to |order|
        invariant |ds| == i && forall k :: 0 <= k < i ==> ds[k] == store.rows[order[k]]
      {
        ds := ds + [store.rows[order[i]]];
      }
    }

    // RecoverStuck; order is the answer of the GetAll query.
    method RecoverStuck(order: seq<nat>, replies: map<nat, MergeReply>, unlabelled: set<nat>)
      requires IsDistinct(order) && forall n :: n in order ==> n in store.rows && n in replies
      requires forall n :: n in store.rows ==> store.rows[n].prNumber == n
      modifies store, gh
      ensures View() == RecoverAll(old(View()), order, replies, unlabelled)
    {
      hide LockKey;
      ghost var w := View();
      var ds := Rows(order);
      for i := 0 to |order|
        invariant View() == RecoverAll(w, order[..i], replies, unlabelled)
        invariant forall k :: i <= k < |order| ==> order[k] in store.rows && store.rows[order[k]] == ds[k]
      {
        var d := ds[i];
        var n := d.prNumber;
        assert order[..i + 1][..i] == order[..i];
        ghost var v := View();
        assert RecoverAll(w, order[..i + 1], replies, unlabelled) == RecoverOne(v, n, replies[n], n in unlabelled);
        hide RecoverAll;
        if d.state == Merging {
          var merged := gh.MergePR(n, replies[n]);
          assert merged == MergeResult(v, n, replies[n]);
          if merged.Ok? {
            gh.RemoveLabel(n, PendingLabel, n in unlabelled);
            store.ReleaseLock(d.environment, d.app);
            store.Delete(n);
          }
        }
      }
      assert order[..|order|] == order;
    }

    // RunOnce; order is the answer of the GetExpired query.
    method RunOnce(order: seq<nat>, unlabelled: set<nat>, pending: Option<seq<nat>>, deploy: Option<seq<nat>>,
                   labelled: set<nat>, staleDuration: int)
      requires IsExpiredQuery(View(), order)
      requires forall n :: n in store.rows ==> store.rows[n].prNumber == n
      requires pending.Some? ==> forall n :: n in pending.value ==> n in gh.prs
      requires deploy.Some? ==> forall n :: n in deploy.value ==> n in gh.prs
      modifies store, gh
      ensures View() == Reconcile(ExpireAll(old(View()), order, unlabelled),
                                  Listed(pending, deploy), labelled, staleDuration)
    {
      ghost var w := View();
      var ds := Rows(order);
      for i := 0 to |order|
        invariant View() == ExpireAll(w, order[..i], unlabelled)
        invariant gh.prs.Keys == w.prs.Keys
        invariant forall k :: i <= k < |order| ==> order[k] in store.rows && store.rows[order[k]] == ds[k]
      {
        assert order[..i + 1][..i] == order[..i];
        assert ds[i].prNumber == order[i];
        Expire(ds[i], ds[i].prNumber in unlabelled);
      }
      assert order[..|order|] == order;
      ReconcileFromGitHub(pending, deploy, labelled, staleDuration);
    }

    // One pass of RunOnce's loop.
    method Expire(d: PendingDeploy, labelRemoved: bool)
      requires d.prNumber in store.rows && store.rows[d.prNumber] == d
      modifies store, gh
      ensures View() == ExpireOne(old(View()), d.prNumber, labelRemoved)
      ensures store.rows == old(store.rows) - {d.prNumber} && gh.prs.Keys == old(gh.prs.Keys)
    {
      hide LockKey;
      gh.ClosePR(d.prNumber);
      gh.RemoveLabel(d.prNumber, PendingLabel, labelRemoved);
      store.ReleaseLock(d.environment, d.app);
      store.Delete(d.prNumber);
      store.PushHistory(HistoryFromPending(d, Expired, store.now));
    }
  }

  ghost function Listed(pending: Option<seq<nat>>, deploy: Option<seq<nat>>): set<nat> {
    (if pending.Some? then SetOf(pending.value) else {}) + (if deploy.Some? then SetOf(deploy.value) else {})
  }

  lemma ReconcileNothing(w: World, labelled: set<nat>, staleDuration: int)
    ensures Reconcile(w, {}, labelled, staleDuration) == w
  {
    var v := Reconcile(w, {}, labelled, staleDuration);
    assert v.rows == w.rows;
    assert v.prs == w.prs;
  }
}
