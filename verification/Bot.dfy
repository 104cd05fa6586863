/**
 The handlers, call by call. Calls that run in parallel are made one after the other; every
 handler is proved to be one step of the lifecycle.
 */
module Bot {
  import opened Wrappers
  import opened Lifecycle
  import opened Clients
  import opened MergeAttempts
  import PullRequest

  datatype MergeRun = MergeRun(sha: string, noOp: bool)

  datatype MergeFailure = MergeFailed(error: MergeError) | ContextDone

  // What the pair returned by MergeWithRetry stands for.
  function OutcomeOfRun(result: MergeRun, err: Option<MergeFailure>): MergeOutcome {
    match err
    case Some(ContextDone) => Interrupted
    case Some(MergeFailed(e)) => Failed(e)
    case None => if result.noOp then NoOp else MergedAs(result.sha)
  }

  // The answers of the lookups a request waits for.
  datatype Checks = Checks(requesterIsMember: bool, approverIsMember: bool, tagValid: bool, appKnown: bool)

  // Labels and message do not depend on why a request was accepted.
  lemma SameMessage(r: RequestReplies, accepted: bool)
    ensures forall w, n :: Decorate(w, n, r.(accepted := accepted)) == Decorate(w, n, r)
  {
  }

  class Bot {
    const store: Store
    const gh: Client

    constructor (store: Store, gh: Client)
      ensures this.store == store && this.gh == gh
    {
      this.store, this.gh := store, gh;
    }

    ghost function View(): World
      reads this, store, gh
    {
      World(store.now, store.locks, store.rows, gh.prs, store.history)
    }

    // --- asking for a deploy ---

    // The row, the labels and the message that asks for approval; on its own this is
    // handleECRApprovalRequest.
    method PlaceRequest(q: Request, n: nat, r: RequestReplies)
      modifies store, gh
      ensures View() == Decorate(SetRow(old(View()), RowOf(q, n, old(store.now))), n, r)
    {
      store.Set(RowOf(q, n, store.now));
      gh.AddLabels(n, {DeployLabel, PendingLabel}, r.labelled);
      if r.posted.Some? {
        store.SetSlackHandle(n, r.posted.value);
      }
    }

    // Slash command: handleDeploySubmit.
    method HandleDeploySubmit(q: Request, c: Checks, r: RequestReplies)
      modifies store, gh
      ensures View() == RequestDeploy(old(View()), q,
                                      r.(accepted := c.approverIsMember && c.tagValid && c.appKnown))
    {
      SameMessage(r, true);
      hide LockKey, PullRequest.Body, Decorate, SetRow, RowOf;
      if !c.approverIsMember { return; }
      if !c.tagValid { return; }
      if !c.appKnown { return; }
      var acquired := store.AcquireLock(q.environment, q.app, q.requesterID, q.lockTTL);
      if !acquired { return; }
      if r.create.NoBranch? {
        store.ReleaseLock(q.environment, q.app);
        return;
      }
      var created := gh.CreateDeployPR(ParamsOf(q), r.create, store.now);
      if created.Err? {
        store.ReleaseLock(q.environment, q.app);
        return;
      }
      PlaceRequest(q, created.value, r);
    }

    // A mention in a channel: handleMentionDeploy. It need not name an approver, but its author
    // has to be a member.
    method HandleMentionDeploy(q: Request, c: Checks, r: RequestReplies)
      modifies store, gh
      ensures View() == RequestDeploy(old(View()), q, r.(accepted :=
        c.requesterIsMember && c.appKnown && c.tagValid && (q.approverID == "" || c.approverIsMember)))
    {
      SameMessage(r, true);
      hide LockKey, PullRequest.Body, Decorate, SetRow, RowOf;
      if !c.requesterIsMember { return; }
      if !c.appKnown { return; }
      if q.approverID != "" {
        if !c.approverIsMember { return; }
      }
      if !c.tagValid { return; }
      var acquired := store.AcquireLock(q.environment, q.app, q.requesterID, q.lockTTL);
      if !acquired { return; }
      if r.create.NoBranch? {
        store.ReleaseLock(q.environment, q.app);
        return;
      }
      var created := gh.CreateDeployPR(ParamsOf(q), r.create, store.now);
      if created.Err? {
        store.ReleaseLock(q.environment, q.app);
        return;
      }
      PlaceRequest(q, created.value, r);
    }

    // handleECRPush
    method HandleECRPush(q: Request, r: RequestReplies, p: PushReplies)
      modifies store, gh
      ensures View() == ECRPush(old(View()), q, r, p)
    {
      hide LockKey, PullRequest.Body, Lifecycle.MergeWithRetry, AutoDeploy, Decorate, SetRow, RowOf;
      if !r.accepted { return; }
      var locked := store.IsLocked(q.environment, q.app);
      if locked { return; }
      var acquired := store.AcquireLock(q.environment, q.app, ECR_HOLDER, q.lockTTL);
      if !acquired { return; }
      if r.create.NoBranch? {
        store.ReleaseLock(q.environment, q.app);
        return;
      }
      var eq := ECRRequest(q);
      var created := gh.CreateDeployPR(ParamsOf(eq), r.create, store.now);
      if created.Err? {
        store.ReleaseLock(q.environment, q.app);
        return;
      }
      var n := created.value;
      if p.autoDeploy {
        HandleECRAutoDeploy(q, n, p.merge, p.labelRemoved);
      } else {
        PlaceRequest(eq, n, r);
      }
    }

    method HandleECRAutoDeploy(q: Request, n: nat, m: MergeReplies, labelRemoved: bool)
      modifies store, gh
      ensures View() == AutoDeploy(old(View()), q, n, m, labelRemoved)
    {
      hide LockKey;
      var result, err := MergeWithRetry(n, m);
      hide Lifecycle.MergeWithRetry;
      if err.Some? {
        NotifyECRAutoDeployFailed(q, n, err.value == ContextDone);
        return;
      }
      if result.noOp {
        gh.ClosePR(n);
        store.ReleaseLock(q.environment, q.app);
        return;
      }
      gh.RemoveLabel(n, PendingLabel, labelRemoved);
      store.ReleaseLock(q.environment, q.app);
      store.PushHistory(ECRHistory(q, n, store.now, result.sha));
    }

    // Under a cancelled context every call fails.
    method NotifyECRAutoDeployFailed(q: Request, n: nat, cancelled: bool)
      modifies store, gh
      ensures cancelled ==> View() == old(View())
      ensures !cancelled ==> View() == ReleaseLock(ClosePR(old(View()), n), LockKey(q.environment, q.app))
    {
      if !cancelled {
        gh.ClosePR(n);
        store.ReleaseLock(q.environment, q.app);
      }
    }

    // --- merging ---

    // Merge, and on a conflict rebase and merge once more.
    method MergeWithRetry(n: nat, m: MergeReplies) returns (result: MergeRun, err: Option<MergeFailure>)
      modifies gh
      ensures (View(), OutcomeOfRun(result, err)) == Lifecycle.MergeWithRetry(old(View()), n, m)
      ensures err.Some? ==> result == MergeRun("", false)
      ensures n in old(gh.prs) ==> var open := old(gh.prs)[n].status.Open?;
        && (forall sha :: OutcomeOfRun(result, err) == MergedAs(sha) <==> MergesAs(open, m, sha))
        && (OutcomeOfRun(result, err) == NoOp <==> EndsAsNoOp(open, m))
        && (OutcomeOfRun(result, err) == Interrupted <==> IsCut(open, m))
        && (forall e :: OutcomeOfRun(result, err) == Failed(e) <==> FailsWith(open, m, e))
        && gh.merges == old(gh.merges) + (if TriesAgain(open, m) then 2 else 1)
        && gh.rebases == old(gh.rebases) + (if MeetsConflict(open, m) && m.branchOk then 1 else 0)
      ensures gh.merges <= old(gh.merges) + 2 && gh.rebases <= old(gh.rebases) + 1
    {
      var first := gh.MergePR(n, m.first);
      assert first == MergeResult(old(View()), n, m.first);
      if first.Ok? {
        return MergeRun(first.value, false), None;
      }
      if first.error != Conflict {
        return MergeRun("", false), Some(MergeFailed(first.error));
      }
      if !m.branchOk {
        return MergeRun("", false), Some(MergeFailed(Conflict));
      }
      var rebased := gh.RebaseDeployBranch(m.rebase);
      match rebased {
        case RebaseNoChange => return MergeRun("", true), None;
        case RebaseFailed => return MergeRun("", false), Some(MergeFailed(Conflict));
        case Rebased =>
      }
      if m.interrupted {
        return MergeRun("", false), Some(ContextDone);
      }
      var second := gh.MergePR(n, m.second);
      assert second == MergeResult(old(View()), n, m.second);
      match second
      case Err(e) => return MergeRun("", false), Some(MergeFailed(e));
      case Ok(sha) => return MergeRun(sha, false), None;
    }

    // handleApprove: at most three merges and one rebase are asked for.
    method HandleApprove(n: nat, r: ApproveReplies)
      modifies store, gh
      ensures View() == Approve(old(View()), n, r)
      ensures gh.merges <= old(gh.merges) + 3 && gh.rebases <= old(gh.rebases) + 1
    {
      if !r.authorized { return; }
      var row := store.Get(n);
      if row.None? { return; }
      var d := row.value;
      var _ := store.UpdateState(n, Merging);
      if !r.appKnown {
        var _ := store.UpdateState(n, Pending);
        return;
      }
      ghost var w1 := View();
      assert w1 == UpdateState(old(View()), n, Merging);
      var result, err := MergeWithRetry(n, r.merge);
      ghost var w2 := View();
      ghost var outcome := OutcomeOfRun(result, err);
      assert Approve(old(View()), n, r) == Conclude(w2, n, outcome, r);
      hide Lifecycle.MergeWithRetry, Approve, LockKey;
      if err.Some? {
        match err.value {
          case ContextDone =>
            return; // the call that resets the state fails as well
          case MergeFailed(e) =>
            if e != HeadModified {
              var _ := store.UpdateState(n, Pending);
              return;
            }
        }
        if r.retryInterrupted { return; }
        var retried := gh.MergePR(n, r.third);
        assert retried == MergeResult(w2, n, r.third);
        if retried.Err? {
          var _ := store.UpdateState(n, Pending);
          return;
        }
        result := result.(sha := retried.value);
        if result.sha == "" { return; }
      }
      if result.noOp {
        CloseNoOpPR(d, n, r.labelRemoved);
        return;
      }
      gh.RemoveLabel(n, PendingLabel, r.labelRemoved);
      store.ReleaseLock(d.environment, d.app);
      store.Delete(n);
      store.PushHistory(HistoryFromPending(d, Approved, store.now).(gitopsCommitSHA := result.sha));
    }

    method CloseNoOpPR(d: PendingDeploy, n: nat, labelRemoved: bool)
      requires n in store.rows && KeyOf(store.rows[n]) == KeyOf(d)
      modifies store, gh
      ensures View() == CloseNoOp(old(View()), n, labelRemoved)
      ensures gh.merges == old(gh.merges) && gh.rebases == old(gh.rebases)
    {
      hide LockKey;
      gh.ClosePR(n);
      gh.RemoveLabel(n, PendingLabel, labelRemoved);
      store.ReleaseLock(d.environment, d.app);
      store.Delete(n);
    }

    // --- refusing ---

    // handleRejectSubmit
    method HandleRejectSubmit(n: nat, authorized: bool, labelRemoved: bool)
      modifies store, gh
      ensures View() == Reject(old(View()), n, authorized, labelRemoved)
    {
      hide LockKey;
      var row := store.Get(n);
      if row.None? || !authorized { return; }
      var d := row.value;
      gh.ClosePR(n);
      gh.RemoveLabel(n, PendingLabel, labelRemoved);
      store.ReleaseLock(d.environment, d.app);
      store.Delete(n);
      store.PushHistory(HistoryFromPending(d, Rejected, store.now));
    }

    // doCancelDeploy
    method DoCancelDeploy(n: nat, userID: string, allowECR: bool, labelRemoved: bool)
      modifies store, gh
      ensures View() == Cancel(old(View()), n, userID, allowECR, labelRemoved)
    {
      hide LockKey;
      var row := store.Get(n);
      if row.None? { return; }
      var d := row.value;
      if d.requesterID != userID {
        if !allowECR || d.requesterID != "" { return; }
      }
      gh.ClosePR(n);
      gh.RemoveLabel(n, PendingLabel, labelRemoved);
      store.ReleaseLock(d.environment, d.app);
      store.Delete(n);
      store.PushHistory(HistoryFromPending(d, Cancelled, store.now));
    }
  }
}
