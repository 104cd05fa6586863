/** The outcomes of an approval, and recovery after lost rows. */
module LifecycleOutcomes {
  import opened Wrappers
  import opened Lifecycle
  import opened SingleFlight
  import opened LifecycleResults
  import opened MergeAttempts
  import PullRequest
  import MetaJson

  // --- approval ---

  // Deploy n is over: its row and its lock are gone, its pull request has this status, and
  // nothing else changed.
  ghost predicate IsOver(w: World, w': World, n: nat, status: PRStatus, labelRemoved: bool) {
    && n in w.rows && n in w.prs && w'.now == w.now
    && w'.rows == w.rows - {n}
    && w'.locks == w.locks - {LockKey(w.rows[n].environment, w.rows[n].app)}
    && w'.prs == w.prs[n := PR(status, LabelsAfter(w.prs[n], labelRemoved), w.prs[n].body, w.prs[n].createdAt)]
  }

  function LabelsAfter(pr: PR, labelRemoved: bool): set<Label> {
    if labelRemoved then pr.labels - {PendingLabel} else pr.labels
  }

  ghost predicate IsMerged(w: World, w': World, n: nat, sha: string, labelRemoved: bool) {
    && IsOver(w, w', n, Merged(sha, Bot), labelRemoved)
    && var d := w.rows[n];
       w'.history == w.history
         + [HistoryEntry(Approved, d.app, d.environment, d.tag, n, d.requesterID, w.now, sha, d.slack)]
  }

  ghost predicate IsNoOp(w: World, w': World, n: nat, labelRemoved: bool) {
    && n in w.prs
    && IsOver(w, w', n, if w.prs[n].status.Open? then Closed else w.prs[n].status, labelRemoved)
    && w'.history == w.history
  }

  // The deploy can be approved again: nothing but its state changed.
  ghost predicate IsRetained(w: World, w': World, n: nat) {
    n in w.rows && w' == w.(rows := w.rows[n := w.rows[n].(state := Pending)])
  }

  // The deploy is left in the merging state, for RecoverStuck to find: nothing else changed,
  // unless a merge went through that was answered without a SHA.
  ghost predicate IsStranded(w: World, w': World, n: nat) {
    && n in w.rows
    && w' == w.(rows := w.rows[n := w.rows[n].(state := Merging)], prs := w'.prs)
    && (w'.prs == w.prs || (n in w.prs && w'.prs == w.prs[n := w.prs[n].(status := Merged("", Bot))]))
  }

  lemma RetainedIsPending(w: World, w': World, n: nat)
    requires IsRetained(w, w', n)
    ensures n in w'.rows && w'.rows[n].state == Pending
  {
  }

  lemma StrandedIsMerging(w: World, w': World, n: nat)
    requires IsStranded(w, w', n)
    ensures n in w'.rows && w'.rows[n].state == Merging
  {
  }

  lemma OutcomesExclude(w: World, w': World, n: nat, sha: string, l: bool)
    ensures !(IsMerged(w, w', n, sha, l) && IsNoOp(w, w', n, l))
    ensures !(IsMerged(w, w', n, sha, l) && IsRetained(w, w', n))
    ensures !(IsMerged(w, w', n, sha, l) && IsStranded(w, w', n))
    ensures !(IsNoOp(w, w', n, l) && IsRetained(w, w', n))
    ensures !(IsNoOp(w, w', n, l) && IsStranded(w, w', n))
    ensures !(IsRetained(w, w', n) && IsStranded(w, w', n))
  {
    hide LockKey;
    if IsRetained(w, w', n) && IsStranded(w, w', n) {
      RetainedIsPending(w, w', n);
      StrandedIsMerging(w, w', n);
      assert false;
    }
  }

  lemma MergedAsOne(w: World, w': World, n: nat, sha: string, sha': string, l: bool)
    requires IsMerged(w, w', n, sha, l) && IsMerged(w, w', n, sha', l)
    ensures sha == sha'
  {
    hide LockKey;
    assert w'.history[|w.history|].gitopsCommitSHA == sha;
  }

  lemma RetireIsOver(w: World, v: World, n: nat, labelRemoved: bool)
    requires n in w.rows && n in w.prs && n in v.rows && n in v.prs
    requires KeyOf(v.rows[n]) == KeyOf(w.rows[n]) && v.rows == w.rows[n := v.rows[n]]
    requires v == w.(rows := v.rows, prs := w.prs[n := w.prs[n].(status := v.prs[n].status)])
    ensures IsOver(w, Retire(v, n, labelRemoved), n, v.prs[n].status, labelRemoved)
    ensures Retire(v, n, labelRemoved).history == w.history
  {
    hide LockKey;
    var u := Retire(v, n, labelRemoved);
    assert u.rows == w.rows - {n};
    assert u.prs == w.prs[n := u.prs[n]];
  }

  // w with row n in the merging state and pull request n merged as sha.
  function AfterMerge(w: World, n: nat, sha: string): World
    requires n in w.prs
  {
    UpdateState(w, n, Merging).(prs := w.prs[n := w.prs[n].(status := Merged(sha, Bot))])
  }

  lemma FinishIsMerged(w: World, n: nat, sha: string, labelRemoved: bool)
    requires n in w.rows && n in w.prs && w.rows[n].prNumber == n
    ensures IsMerged(w, FinishApproved(AfterMerge(w, n, sha), n, sha, labelRemoved), n, sha, labelRemoved)
  {
    RetireIsOver(w, AfterMerge(w, n, sha), n, labelRemoved);
    hide Retire, LockKey;
  }

  lemma NoOpIsNoOp(w: World, n: nat, labelRemoved: bool)
    requires n in w.rows && n in w.prs
    ensures IsNoOp(w, CloseNoOp(UpdateState(w, n, Merging), n, labelRemoved), n, labelRemoved)
  {
    RetireIsOver(w, ClosePR(UpdateState(w, n, Merging), n), n, labelRemoved);
    hide Retire, LockKey;
  }

  lemma RetainedAgain(w: World, n: nat)
    requires n in w.rows
    ensures IsRetained(w, UpdateState(UpdateState(w, n, Merging), n, Pending), n)
  {
    var w' := UpdateState(UpdateState(w, n, Merging), n, Pending);
    assert w'.rows == w.rows[n := w.rows[n].(state := Pending)];
  }

  lemma StrandedAtOnce(w: World, n: nat)
    requires n in w.rows
    ensures IsStranded(w, UpdateState(w, n, Merging), n)
  {
  }

  // The merge after a modified head.
  lemma RetryOutcome(w: World, n: nat, reply: MergeReply, labelRemoved: bool)
    requires n in w.rows && n in w.prs && w.rows[n].prNumber == n
    ensures var w' := RetryMerge(UpdateState(w, n, Merging), n, reply, labelRemoved);
      var open := w.prs[n].status.Open?;
      && (reply.Refused? || !open ==> IsRetained(w, w', n))
      && (open && reply == Accepted("") ==> IsStranded(w, w', n))
      && (open && reply.Accepted? && reply.sha != "" ==> IsMerged(w, w', n, reply.sha, labelRemoved))
  {
    var v := UpdateState(w, n, Merging);
    MergeMoves(v, n, reply);
    RetainedAgain(w, n);
    if reply.Accepted? && w.prs[n].status.Open? {
      assert MergePR(v, n, reply) == AfterMerge(w, n, reply.sha);
      FinishIsMerged(w, n, reply.sha, labelRemoved);
    }
  }

  // What handleApprove does with each outcome of the attempts.
  lemma ConcludeOutcome(w: World, n: nat, outcome: MergeOutcome, r: ApproveReplies)
    requires n in w.rows && n in w.prs && w.rows[n].prNumber == n
    ensures var v := match outcome case MergedAs(sha) => AfterMerge(w, n, sha) case _ => UpdateState(w, n, Merging);
      var w' := Conclude(v, n, outcome, r);
      match outcome
      case MergedAs(sha) => IsMerged(w, w', n, sha, r.labelRemoved)
      case NoOp => IsNoOp(w, w', n, r.labelRemoved)
      case Interrupted => IsStranded(w, w', n)
      case Failed(e) =>
        if e != HeadModified then IsRetained(w, w', n)
        else if r.retryInterrupted then IsStranded(w, w', n)
        else w' == RetryMerge(v, n, r.third, r.labelRemoved)
  {
    RetainedAgain(w, n);
    StrandedAtOnce(w, n);
    hide IsMerged, IsNoOp, IsRetained, IsStranded, FinishApproved, CloseNoOp, RetryMerge;
    match outcome
    case MergedAs(sha) => FinishIsMerged(w, n, sha, r.labelRemoved);
    case NoOp => NoOpIsNoOp(w, n, r.labelRemoved);
    case _ =>
  }

  lemma ApproveConcludes(w: World, n: nat, r: ApproveReplies)
    requires r.authorized && n in w.rows && n in w.prs && r.appKnown
    ensures var outcome := MergeWithRetry(UpdateState(w, n, Merging), n, r.merge).1;
      var v := match outcome case MergedAs(sha) => AfterMerge(w, n, sha) case _ => UpdateState(w, n, Merging);
      Approve(w, n, r) == Conclude(v, n, outcome, r)
  {
    AttemptsAre(UpdateState(w, n, Merging), n, r.merge);
    hide MergeWithRetry, Conclude, MergesAs, EndsAsNoOp, IsCut, FailsWith;
  }

  lemma KnownAppMeetsReplies(w: World, n: nat, r: ApproveReplies)
    requires r.authorized && r.appKnown && n in w.rows && n in w.prs && w.rows[n].prNumber == n
    ensures var w' := Approve(w, n, r); var open := w.prs[n].status.Open?;
      && (forall sha :: ApprovesAs(open, r, sha) ==> IsMerged(w, w', n, sha, r.labelRemoved))
      && (FindsNoOp(open, r) ==> IsNoOp(w, w', n, r.labelRemoved))
      && (Retains(open, r) ==> IsRetained(w, w', n))
      && (Strands(open, r) ==> IsStranded(w, w', n))
  {
    var v := UpdateState(w, n, Merging);
    assert v.prs == w.prs;
    AttemptsAre(v, n, r.merge);
    var outcome := MergeWithRetry(v, n, r.merge).1;
    ApproveConcludes(w, n, r);
    ConcludeOutcome(w, n, outcome, r);
    RetryOutcome(w, n, r.third, r.labelRemoved);
    hide MergeWithRetry, Conclude, Approve, IsMerged, IsNoOp, IsRetained, IsStranded, RetryMerge, UpdateState;
    hide AfterMerge, MergesAs, EndsAsNoOp, IsCut, FailsWith;
  }

  // An authorized approval of a live deploy ends as GitHub's replies say.
  lemma ApproveMeetsReplies(w: World, n: nat, r: ApproveReplies)
    requires Inv(w) && r.authorized && n in w.rows
    ensures n in w.prs
    ensures var w' := Approve(w, n, r); var open := w.prs[n].status.Open?;
      && (forall sha :: ApprovesAs(open, r, sha) ==> IsMerged(w, w', n, sha, r.labelRemoved))
      && (FindsNoOp(open, r) ==> IsNoOp(w, w', n, r.labelRemoved))
      && (Retains(open, r) ==> IsRetained(w, w', n))
      && (Strands(open, r) ==> IsStranded(w, w', n))
  {
    InvHasPR(w, n);
    assert w.rows[n].prNumber == n;
    hide Inv, IsMerged, IsNoOp, IsRetained, IsStranded;
    if r.appKnown {
      hide *;
      KnownAppMeetsReplies(w, n, r);
    } else {
      RetainedAgain(w, n);
    }
  }

  // An approval ends merged, as a no-op, retained or stranded exactly when the replies say so;
  // without a live row or a member of the team it does nothing.
  lemma ApproveEndsIff(w: World, n: nat, r: ApproveReplies)
    requires Inv(w)
    ensures !r.authorized || n !in w.rows ==> Approve(w, n, r) == w
    ensures r.authorized && n in w.rows ==>
      && n in w.prs
      && var w' := Approve(w, n, r); var open := w.prs[n].status.Open?;
      && (forall sha :: IsMerged(w, w', n, sha, r.labelRemoved) <==> ApprovesAs(open, r, sha))
      && (IsNoOp(w, w', n, r.labelRemoved) <==> FindsNoOp(open, r))
      && (IsRetained(w, w', n) <==> Retains(open, r))
      && (IsStranded(w, w', n) <==> Strands(open, r))
  {
    if r.authorized && n in w.rows {
      ApproveMeetsReplies(w, n, r);
      EndsAsMet(w, n, r, Approve(w, n, r), w.prs[n].status.Open?);
    }
  }

  lemma EndsAsMet(w: World, n: nat, r: ApproveReplies, w': World, open: bool)
    requires forall sha :: ApprovesAs(open, r, sha) ==> IsMerged(w, w', n, sha, r.labelRemoved)
    requires FindsNoOp(open, r) ==> IsNoOp(w, w', n, r.labelRemoved)
    requires Retains(open, r) ==> IsRetained(w, w', n)
    requires Strands(open, r) ==> IsStranded(w, w', n)
    ensures forall sha :: IsMerged(w, w', n, sha, r.labelRemoved) <==> ApprovesAs(open, r, sha)
    ensures IsNoOp(w, w', n, r.labelRemoved) <==> FindsNoOp(open, r)
    ensures IsRetained(w, w', n) <==> Retains(open, r)
    ensures IsStranded(w, w', n) <==> Strands(open, r)
  {
    RepliesDecide(open, r);
    forall sha {
      OutcomesExclude(w, w', n, sha, r.labelRemoved);
    }
    hide IsMerged, IsNoOp, IsRetained, IsStranded, ApprovesAs, FindsNoOp, Retains, Strands;
    OutcomesExclude(w, w', n, "", r.labelRemoved);
    forall sha | IsMerged(w, w', n, sha, r.labelRemoved) ensures ApprovesAs(open, r, sha) {
      OutcomesExclude(w, w', n, sha, r.labelRemoved);
      var sha' :| ApprovesAs(open, r, sha');
      MergedAsOne(w, w', n, sha, sha', r.labelRemoved);
    }
  }

  // Absent cancellation, and as GitHub answers every merge with a SHA, an approval merges
  // the deploy under a SHA that GitHub answered, closes it as a no-op or retains it.
  lemma ApproveTrichotomy(w: World, n: nat, r: ApproveReplies)
    requires Inv(w) && r.authorized && n in w.rows
    requires !r.merge.interrupted && !r.retryInterrupted && r.third != Accepted("")
    ensures var w' := Approve(w, n, r);
      || (exists sha :: IsMerged(w, w', n, sha, r.labelRemoved)
            && (r.merge.first == Accepted(sha) || r.merge.second == Accepted(sha) || r.third == Accepted(sha)))
      || IsNoOp(w, w', n, r.labelRemoved) || IsRetained(w, w', n)
  {
    ApproveMeetsReplies(w, n, r);
    var open := w.prs[n].status.Open?;
    RepliesDecide(open, r);
    hide IsMerged, IsNoOp, IsRetained, IsStranded, Inv, Approve;
    assert !Strands(open, r);
    if sha :| ApprovesAs(open, r, sha) {
      assert IsMerged(w, Approve(w, n, r), n, sha, r.labelRemoved);
    }
  }

  // --- recovery ---

  // Every pull request of a deploy carries metadata that tells the deploy.
  ghost predicate IsFaithful(w: World) {
    forall n | n in w.rows :: n in w.prs && TellsDeploy(w.prs[n], w.rows[n])
  }

  predicate TellsDeploy(pr: PR, d: PendingDeploy) {
    && pr.createdAt == d.requestedAt
    && PullRequest.ParsePRMeta(pr.body) == Some(MetaJson.PRMeta(d.requesterID, d.app, d.environment, d.tag))
  }

  // Names that reach the body unescaped are free of '<'.
  predicate IsPlain(s: Step) {
    RequestOf(s).Some? ==> PullRequest.HasPlainNames(ParamsOf(RequestOf(s).value))
  }

  lemma LaunchTellsDeploy(w: World, w': World, n: nat, q: Request)
    requires n in w'.rows && IsLaunchOf(w, w', n, q) && PullRequest.HasPlainNames(ParamsOf(q))
    ensures TellsDeploy(w'.prs[n], w'.rows[n])
  {
    PullRequest.RoundTrip(ParamsOf(q));
    hide PullRequest.Body, PullRequest.ParsePRMeta;
  }

  lemma StepKeepsFaithful(w: World, s: Step)
    requires Inv(w) && IsAdmissible(w, s) && IsPlain(s) && IsFaithful(w)
    ensures IsFaithful(Apply(w, s))
  {
    StepEvolves(w, s);
    var w' := Apply(w, s);
    hide Apply, PullRequest.ParsePRMeta, IsAdmissible, Inv;
    forall n | n in w'.rows ensures n in w'.prs && TellsDeploy(w'.prs[n], w'.rows[n]) {
      if !(n in w.rows && SameDeploy(w.rows[n], w'.rows[n])) {
        LaunchTellsDeploy(w, w', n, RequestOf(s).value);
      }
    }
  }

  lemma {:induction false} RunKeepsFaithful(w: World, steps: seq<Step>)
    requires Inv(w) && IsAdmissibleRun(w, steps) && IsFaithful(w)
    requires forall i :: 0 <= i < |steps| ==> IsPlain(steps[i])
    ensures IsFaithful(Run(w, steps))
    decreases |steps|
  {
    if steps != [] {
      StepKeepsInv(w, steps[0]);
      StepKeepsFaithful(w, steps[0]);
      RunKeepsFaithful(Apply(w, steps[0]), steps[1..]);
    }
  }

  lemma RestoredRow(w: World, lost: set<nat>, n: nat, listed: set<nat>, labelled: set<nat>, staleDuration: int)
    requires Inv(w) && IsFaithful(w) && n in w.rows && (n in lost ==> n in listed)
    ensures var w' := Reconcile(w.(rows := w.rows - lost), listed, labelled, staleDuration);
      && n in w'.rows && IsRestored(w.rows[n], w'.rows[n])
      && (n in lost ==> w'.rows[n].state == Pending)
      && (n !in lost ==> w'.rows[n] == w.rows[n])
  {
    hide PullRequest.ParsePRMeta, KeyOf, HolderOf;
    assert TellsDeploy(w.prs[n], w.rows[n]);
  }

  // Row d' stands for deploy d: the same lock, the same pull request, the same request.
  predicate IsRestored(d: PendingDeploy, d': PendingDeploy) {
    (d'.app, d'.environment, d'.tag, d'.requesterID, d'.requestedAt, d'.prNumber)
      == (d.app, d.environment, d.tag, d.requesterID, d.requestedAt, d.prNumber)
  }

  // The lost rows are back, ready to be approved, and the others are as they were.
  ghost predicate RestoresRows(w: World, w': World, lost: set<nat>) {
    && w'.rows.Keys == w.rows.Keys
    && (forall n | n in w.rows :: IsRestored(w.rows[n], w'.rows[n]))
    && (forall n | n in w.rows && n !in lost :: w'.rows[n] == w.rows[n])
    && (forall n | n in w.rows && n in lost :: w'.rows[n].state == Pending)
  }

  // Reconciling adds rows and labels for the orphans that are listed, and nothing else.
  lemma ReconcileShape(v: World, listed: set<nat>, labelled: set<nat>, staleDuration: int)
    ensures var w' := Reconcile(v, listed, labelled, staleDuration);
      && w'.locks == v.locks && w'.history == v.history && w'.prs.Keys == v.prs.Keys
      && (forall n | n in v.prs :: w'.prs[n].status == v.prs[n].status)
      && (forall n | n in v.prs && !(n in listed && IsOrphan(v, n)) :: w'.prs[n] == v.prs[n])
      && (forall n :: n in w'.rows <==> n in v.rows || (n in listed && IsOrphan(v, n)))
  {
    hide Rehydrated, PullRequest.ParsePRMeta;
  }

  lemma LostOrphan(w: World, lost: set<nat>, listed: set<nat>, n: nat)
    requires Inv(w) && lost <= w.rows.Keys && IsListing(w.(rows := w.rows - lost), listed)
    requires n in listed && IsOrphan(w.(rows := w.rows - lost), n)
    ensures n in lost
  {
    hide RowsAreSound, LocksHaveRows, HistoryIsSettled, PullRequest.ParsePRMeta;
  }

  lemma RestoredInv(w: World, w': World)
    requires Inv(w) && w'.rows.Keys == w.rows.Keys && w'.locks == w.locks && w'.history == w.history
    requires forall n | n in w.rows :: IsRestored(w.rows[n], w'.rows[n])
    requires w'.prs.Keys == w.prs.Keys
    requires forall n | n in w.prs :: w'.prs[n].status == w.prs[n].status
    requires forall n | n in w.prs && n !in w.rows :: w'.prs[n] == w.prs[n]
    ensures Inv(w')
  {
    forall n | n in w.rows ensures KeepsLock(w.rows[n], w'.rows[n]) {
      assert IsRestored(w.rows[n], w'.rows[n]);
    }
    hide KeepsLock, IsRestored;
    SameLocksKeepRows(w, w');
    hide RowsAreSound, LocksHaveRows;
  }

  // Rows that are lost while their pull requests are open and labelled come back with the
  // same app, environment, tag, requester and request time, so under the same lock, and
  // the invariant is restored. Nothing else is inserted.
  lemma ReconcileRestoresLostRows(w: World, lost: set<nat>, listed: set<nat>, labelled: set<nat>, staleDuration: int)
    requires Inv(w) && IsFaithful(w) && lost <= w.rows.Keys
    requires IsListing(w.(rows := w.rows - lost), listed) && lost <= listed
    ensures var w' := Reconcile(w.(rows := w.rows - lost), listed, labelled, staleDuration);
      Inv(w') && RestoresRows(w, w', lost)
  {
    var v := w.(rows := w.rows - lost);
    var w' := Reconcile(v, listed, labelled, staleDuration);
    ReconcileShape(v, listed, labelled, staleDuration);
    hide Reconcile, IsFaithful, IsRestored, IsOrphan, Inv;
    forall n | n in w.rows
      ensures n in w'.rows && IsRestored(w.rows[n], w'.rows[n])
      ensures n in lost ==> w'.rows[n].state == Pending
      ensures n !in lost ==> w'.rows[n] == w.rows[n]
    {
      RestoredRow(w, lost, n, listed, labelled, staleDuration);
    }
    forall n | n in listed && IsOrphan(v, n) ensures n in w.rows {
      LostOrphan(w, lost, listed, n);
    }
    RestoredInv(w, w');
  }
}
