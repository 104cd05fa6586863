/** What the attempts to merge a pull request come to, told from GitHub's replies alone. */
module MergeAttempts {
  import opened Lifecycle

  // open: the pull request is open. GitHub refuses to merge any other, as a conflict.
  predicate MeetsConflict(open: bool, m: MergeReplies) {
    m.first == Refused(Conflict) || (m.first.Accepted? && !open)
  }

  // The branch was rebased, and the wait after it was not cut short.
  predicate TriesAgain(open: bool, m: MergeReplies) {
    MeetsConflict(open, m) && m.branchOk && m.rebase == Rebased && !m.interrupted
  }

  predicate MergesAs(open: bool, m: MergeReplies, sha: string) {
    open && (m.first == Accepted(sha) || (TriesAgain(open, m) && m.second == Accepted(sha)))
  }

  // Only a rebase that finds the tag on the default branch makes a no-op.
  predicate EndsAsNoOp(open: bool, m: MergeReplies) {
    MeetsConflict(open, m) && m.branchOk && m.rebase == RebaseNoChange
  }

  predicate IsCut(open: bool, m: MergeReplies) {
    MeetsConflict(open, m) && m.branchOk && m.rebase == Rebased && m.interrupted
  }

  // A rebase that cannot be made leaves the conflict as the error.
  predicate FailsWith(open: bool, m: MergeReplies, e: MergeError) {
    || (m.first == Refused(e) && e != Conflict)
    || (e == Conflict && MeetsConflict(open, m) && (!m.branchOk || m.rebase == RebaseFailed))
    || (TriesAgain(open, m) && (m.second == Refused(e) || (e == Conflict && m.second.Accepted? && !open)))
  }

  // The attempts end in exactly the way that the replies tell, and touch the pull request
  // only by merging it.
  lemma AttemptsAre(w: World, n: nat, m: MergeReplies)
    requires n in w.prs
    ensures var open := w.prs[n].status.Open?; var (w', outcome) := MergeWithRetry(w, n, m);
      && (forall sha :: outcome == MergedAs(sha) <==> MergesAs(open, m, sha))
      && (outcome == NoOp <==> EndsAsNoOp(open, m))
      && (outcome == Interrupted <==> IsCut(open, m))
      && (forall e :: outcome == Failed(e) <==> FailsWith(open, m, e))
      && w' == match outcome
               case MergedAs(sha) => w.(prs := w.prs[n := w.prs[n].(status := Merged(sha, Bot))])
               case _ => w
  {
  }

  // --- an approval ---

  // The head was modified, so one more merge is asked for, without a rebase.
  predicate RetriesHead(open: bool, r: ApproveReplies) {
    r.appKnown && FailsWith(open, r.merge, HeadModified) && !r.retryInterrupted
  }

  predicate ApprovesAs(open: bool, r: ApproveReplies, sha: string) {
    || (r.appKnown && MergesAs(open, r.merge, sha))
    || (RetriesHead(open, r) && open && r.third == Accepted(sha) && sha != "")
  }

  predicate FindsNoOp(open: bool, r: ApproveReplies) {
    r.appKnown && EndsAsNoOp(open, r.merge)
  }

  predicate Retains(open: bool, r: ApproveReplies) {
    || !r.appKnown
    || (exists e :: e != HeadModified && FailsWith(open, r.merge, e))
    || (RetriesHead(open, r) && (r.third.Refused? || !open))
  }

  // A wait was cut short, or the last merge was answered without a SHA.
  predicate Strands(open: bool, r: ApproveReplies) {
    || (r.appKnown && IsCut(open, r.merge))
    || (r.appKnown && FailsWith(open, r.merge, HeadModified) && r.retryInterrupted)
    || (RetriesHead(open, r) && open && r.third == Accepted(""))
  }

  lemma RepliesDecide(open: bool, r: ApproveReplies)
    ensures (exists sha :: ApprovesAs(open, r, sha)) || FindsNoOp(open, r) || Retains(open, r) || Strands(open, r)
  {
    var m := r.merge;
    if m.first.Refused? { assert FailsWith(open, m, m.first.error) || m.first.error == Conflict; }
    if m.second.Refused? { assert FailsWith(open, m, m.second.error) || !TriesAgain(open, m); }
    if m.first.Accepted? { assert ApprovesAs(open, r, m.first.sha) || !open || !r.appKnown; }
    if m.second.Accepted? { assert ApprovesAs(open, r, m.second.sha) || !TriesAgain(open, m) || !open || !r.appKnown; }
    if r.third.Accepted? {
      assert ApprovesAs(open, r, r.third.sha) || !RetriesHead(open, r) || !open || r.third.sha == "";
    }
    assert FailsWith(open, m, Conflict) <==>
      (MeetsConflict(open, m) && (!m.branchOk || m.rebase == RebaseFailed)) ||
      (TriesAgain(open, m) && (m.second == Refused(Conflict) || (m.second.Accepted? && !open)));
  }
}
