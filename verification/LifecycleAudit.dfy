/** The history agrees with what the pull requests say about themselves. */
module LifecycleAudit {
  import opened Wrappers
  import opened Lifecycle
  import opened SingleFlight
  import opened LifecycleResults
  import opened LifecycleOutcomes
  import opened LifecycleEffects
  import opened MergeAttempts
  import PullRequest
  import MetaJson
  import Sanitize

  predicate IsEntryOf(h: HistoryEntry, d: PendingDeploy) {
    (h.app, h.environment, h.tag, h.requesterID, h.prNumber, h.slack)
    == (d.app, d.environment, d.tag, d.requesterID, d.prNumber, d.slack)
  }

  // The entry of a deploy that was made and merged for q within one step.
  ghost predicate IsAutoEntry(w: World, w': World, h: HistoryEntry, q: Request) {
    && h.prNumber !in w.prs && h.prNumber in w'.prs
    && w'.prs[h.prNumber].body == PullRequest.Body(ParamsOf(q)) && Sanitize.TagIsSafe(q.tag)
    && (h.app, h.environment, h.tag, h.requesterID) == (q.app, q.environment, q.tag, q.requesterID)
  }

  // What a step appends to history: entries of deploys that were pending, completed now, or
  // the entry of its own auto-deploy.
  ghost predicate Records(w: World, w': World, q: Option<Request>) {
    && w.history <= w'.history
    && forall i | |w.history| <= i < |w'.history| ::
         var h := w'.history[i];
         && h.completedAt == w.now
         && ((h.prNumber in w.rows && IsEntryOf(h, w.rows[h.prNumber])) || (q.Some? && IsAutoEntry(w, w', h, q.value)))
  }

  lemma OneEntry(w: World, w': World, n: nat, h: HistoryEntry)
    requires n in w.rows && h.prNumber == n && IsEntryOf(h, w.rows[n]) && h.completedAt == w.now
    requires w'.history == w.history + [h]
    ensures Records(w, w', None)
  {
  }

  lemma EndWithRecords(w: World, n: nat, t: EventType, labelRemoved: bool)
    requires n in w.rows && w.rows[n].prNumber == n
    ensures Records(w, EndWith(w, n, t, labelRemoved), None)
  {
    hide KeyOf;
    OneEntry(w, EndWith(w, n, t, labelRemoved), n, HistoryFromPending(w.rows[n], t, w.now));
  }

  lemma ApproveRecords(w: World, n: nat, r: ApproveReplies)
    requires Inv(w)
    ensures Records(w, Approve(w, n, r), None)
  {
    if r.authorized && n in w.rows {
      ApproveMeetsReplies(w, n, r);
      assert w.rows[n].prNumber == n;
      var open := w.prs[n].status.Open?;
      RepliesDecide(open, r);
      var w' := Approve(w, n, r);
      hide Approve, Inv, IsOver, ApprovesAs, FindsNoOp, Retains, Strands;
      if sha :| ApprovesAs(open, r, sha) {
        var d := w.rows[n];
        OneEntry(w, w', n, HistoryEntry(Approved, d.app, d.environment, d.tag, n, d.requesterID, w.now, sha, d.slack));
      }
    }
  }

  lemma AddedRecords(w: World, w': World, order: seq<nat>)
    requires AddsExpired(w, w', order) && forall n | n in w.rows :: w.rows[n].prNumber == n
    ensures Records(w, w', None)
  {
    hide IsAutoEntry;
    forall i | |w.history| <= i < |w'.history|
      ensures var h := w'.history[i];
        h.completedAt == w.now && h.prNumber in w.rows && IsEntryOf(h, w.rows[h.prNumber])
    {
      var k := i - |w.history|;
      assert order[k] in w.rows;
    }
  }

  lemma ExpireAllRecords(w: World, order: seq<nat>, unlabelled: set<nat>)
    requires Inv(w) && IsExpiredQuery(w, order)
    ensures Records(w, ExpireAll(w, order, unlabelled), None)
  {
    SweepExpiresExactly(w, order, unlabelled);
    assert forall n | n in w.rows :: w.rows[n].prNumber == n;
    hide *;
    AddedRecords(w, ExpireAll(w, order, unlabelled), order);
  }

  lemma AutoDeployRecords(w: World, q: Request, n: nat, p: PushReplies)
    requires n !in w.prs && Sanitize.TagIsSafe(q.tag)
    ensures var w1 := AcquireLock(w, LockKey(q.environment, q.app), ECR_HOLDER, q.lockTTL);
      var w' := AutoDeploy(CreateDeployPR(w1, ParamsOf(ECRRequest(q)), n), q, n, p.merge, p.labelRemoved);
      Records(w, w', Some(ECRRequest(q)))
  {
    hide LockKey, PullRequest.Body, Sanitize.TagIsSafe;
    var w1 := AcquireLock(w, LockKey(q.environment, q.app), ECR_HOLDER, q.lockTTL);
    var w2 := CreateDeployPR(w1, ParamsOf(ECRRequest(q)), n);
    MergeWithRetryMoves(w2, n, p.merge);
    hide MergeWithRetry;
  }

  lemma PushRecords(w: World, q: Request, r: RequestReplies, p: PushReplies)
    ensures Records(w, ECRPush(w, q, r, p), Some(ECRRequest(q)))
  {
    var key := LockKey(q.environment, q.app);
    if r.accepted && key !in w.locks {
      ReleaseUndoesAcquire(w, key, ECR_HOLDER, q.lockTTL);
      var w1 := AcquireLock(w, key, ECR_HOLDER, q.lockTTL);
      match CreatedNumber(w1, ParamsOf(ECRRequest(q)), r.create) {
        case None =>
        case Some(n) =>
          AutoDeployRecords(w, q, n, p);
          LaunchIsLaunch(w, ECRRequest(q), ECR_HOLDER, n, r);
          hide LockKey, PullRequest.Body, AutoDeploy, Sanitize.TagIsSafe, AcquireLock, CreateDeployPR;
          hide Launch, Decorate, IsAutoEntry, IsEntryOf, IsLaunchOf, KeepsPRs;
      }
    }
  }

  lemma RequestRecords(w: World, q: Request, r: RequestReplies)
    ensures RequestDeploy(w, q, r).history == w.history
  {
    hide LockKey, PullRequest.Body, Sanitize.TagIsSafe;
  }

  lemma NoEntry(w: World, w': World, q: Option<Request>)
    requires w'.history == w.history
    ensures Records(w, w', q)
  {
  }

  lemma StepRecords(w: World, s: Step)
    requires Inv(w) && IsAdmissible(w, s)
    ensures Records(w, Apply(w, s), RequestOf(s))
  {
    hide LocksHaveRows, LabelledHaveRows, HistoryIsSettled, IsExpiredQuery, IsListing, Records;
    hide RequestDeploy, ECRPush, IsAbandoned, Approve, EndWith, MayCancel, ExpireAll, RecoverAll, Rehydrated;
    NoEntry(w, w, RequestOf(s));
    match s
    case Submit(q, r) =>
      RequestRecords(w, q, r);
      NoEntry(w, Apply(w, s), Some(q));
    case Mention(q, r) =>
      RequestRecords(w, q, r);
      NoEntry(w, Apply(w, s), Some(q));
    case Push(q, r, p) => PushRecords(w, q, r, p);
    case Approval(n, a) => ApproveRecords(w, n, a);
    case Rejection(n, authorized, l) =>
      if n in w.rows { EndWithRecords(w, n, Rejected, l); }
    case Cancellation(n, user, allow, l) =>
      if n in w.rows { EndWithRecords(w, n, Cancelled, l); }
    case Sweep(order, u, listed, labelled, stale) =>
      ExpireAllRecords(w, order, u);
      ReconcileRecords(w, ExpireAll(w, order, u), listed, labelled, stale);
    case Recovery(order, replies, u) =>
      RecoveryIsExact(w, order, replies, u);
      NoEntry(w, Apply(w, s), None);
    case _ => NoEntry(w, Apply(w, s), None);
  }

  lemma ReconcileRecords(w: World, v: World, listed: set<nat>, labelled: set<nat>, staleDuration: int)
    requires Records(w, v, None)
    ensures Records(w, Reconcile(v, listed, labelled, staleDuration), None)
  {
    hide IsOrphan, Rehydrated, IsEntryOf;
  }

  // --- every run ---

  predicate TellsEntry(pr: PR, h: HistoryEntry) {
    PullRequest.ParsePRMeta(pr.body) == Some(MetaJson.PRMeta(h.requesterID, h.app, h.environment, h.tag))
  }

  // Every entry of history agrees with the metadata in the body of its pull request.
  ghost predicate HistoryIsFaithful(w: World) {
    forall i | 0 <= i < |w.history| ::
      w.history[i].prNumber in w.prs && TellsEntry(w.prs[w.history[i].prNumber], w.history[i])
  }

  lemma EntryIsTold(w: World, w': World, h: HistoryEntry)
    requires IsFaithful(w) && KeepsPRs(w, w') && h.prNumber in w.rows && IsEntryOf(h, w.rows[h.prNumber])
    ensures h.prNumber in w'.prs && TellsEntry(w'.prs[h.prNumber], h)
  {
    hide PullRequest.ParsePRMeta;
  }

  lemma AutoEntryIsTold(w: World, w': World, h: HistoryEntry, q: Request)
    requires IsAutoEntry(w, w', h, q) && PullRequest.HasPlainNames(ParamsOf(q))
    ensures TellsEntry(w'.prs[h.prNumber], h)
  {
    PullRequest.RoundTrip(ParamsOf(q));
    hide PullRequest.Body, PullRequest.ParsePRMeta;
  }

  lemma OldEntryIsTold(w: World, w': World, i: nat)
    requires HistoryIsFaithful(w) && KeepsPRs(w, w') && i < |w.history|
    ensures w.history[i].prNumber in w'.prs && TellsEntry(w'.prs[w.history[i].prNumber], w.history[i])
  {
    hide PullRequest.ParsePRMeta;
  }

  lemma StepKeepsHistoryFaithful(w: World, s: Step)
    requires Inv(w) && IsAdmissible(w, s) && IsPlain(s) && IsFaithful(w) && HistoryIsFaithful(w)
    ensures HistoryIsFaithful(Apply(w, s))
  {
    StepEvolves(w, s);
    StepRecords(w, s);
    var w' := Apply(w, s);
    assert KeepsPRs(w, w') && w.history <= w'.history;
    hide Apply, IsAdmissible, Inv, IsFaithful, HistoryIsFaithful, KeepsPRs, TellsEntry, IsAutoEntry, IsEntryOf, Evolves;
    forall i | 0 <= i < |w'.history|
      ensures w'.history[i].prNumber in w'.prs && TellsEntry(w'.prs[w'.history[i].prNumber], w'.history[i])
    {
      var h := w'.history[i];
      if i < |w.history| {
        OldEntryIsTold(w, w', i);
        assert w'.history[i] == w.history[i];
      } else if h.prNumber in w.rows && IsEntryOf(h, w.rows[h.prNumber]) {
        EntryIsTold(w, w', h);
      } else {
        AutoEntryHasPR(w, w', h, RequestOf(s).value);
        AutoEntryIsTold(w, w', h, RequestOf(s).value);
      }
    }
    assert HistoryIsFaithful(w') by { FaithfulIfTold(w'); }
  }

  lemma AutoEntryHasPR(w: World, w': World, h: HistoryEntry, q: Request)
    requires IsAutoEntry(w, w', h, q)
    ensures h.prNumber in w'.prs
  {
  }

  lemma FaithfulIfTold(w: World)
    requires forall i | 0 <= i < |w.history| ::
      w.history[i].prNumber in w.prs && TellsEntry(w.prs[w.history[i].prNumber], w.history[i])
    ensures HistoryIsFaithful(w)
  {
  }

  // Over every run each entry of history names the app, the environment, the tag and the
  // requester that the body of its pull request tells.
  lemma {:induction false} RunKeepsHistoryFaithful(w: World, steps: seq<Step>)
    requires Inv(w) && IsAdmissibleRun(w, steps) && IsFaithful(w) && HistoryIsFaithful(w)
    requires forall i :: 0 <= i < |steps| ==> IsPlain(steps[i])
    ensures HistoryIsFaithful(Run(w, steps))
    decreases |steps|
  {
    if steps != [] {
      StepKeepsInv(w, steps[0]);
      StepKeepsFaithful(w, steps[0]);
      StepKeepsHistoryFaithful(w, steps[0]);
      hide Apply, IsAdmissible, Inv, IsFaithful, HistoryIsFaithful, IsPlain;
      RunKeepsHistoryFaithful(Apply(w, steps[0]), steps[1..]);
    }
  }
}
