/** What every run of handler steps keeps, and what follows from it. */
module SingleFlight {
  import opened Wrappers
  import opened Lifecycle
  import PullRequest

  // The name under which the lock of a deploy was taken.
  function HolderOf(d: PendingDeploy): string {
    if d.requesterID == "" then ECR_HOLDER else d.requesterID
  }

  // The lock of row n is there, taken by this very deploy.
  ghost predicate HoldsItsLock(w: World, n: nat)
    requires n in w.rows
  {
    var d := w.rows[n];
    && KeyOf(d) in w.locks
    && w.locks[KeyOf(d)].holder == HolderOf(d)
    && w.locks[KeyOf(d)].takenAt == d.requestedAt
  }

  ghost predicate RowsAreSound(w: World) {
    && (forall n | n in w.rows :: n in w.prs && w.rows[n].prNumber == n && HoldsItsLock(w, n))
    && (forall m, n | m in w.rows && n in w.rows && m != n :: KeyOf(w.rows[m]) != KeyOf(w.rows[n]))
  }

  ghost predicate LocksHaveRows(w: World) {
    forall k | k in w.locks :: exists n :: n in w.rows && KeyOf(w.rows[n]) == k
  }

  // An open pull request with one of the bot's labels has a row.
  ghost predicate LabelledHaveRows(w: World) {
    forall n | n in w.prs && w.prs[n].status.Open? && w.prs[n].labels != {} :: n in w.rows
  }

  // Entry h ends a deploy for good, and an approved entry tells how.
  ghost predicate IsSettled(w: World, h: HistoryEntry) {
    && h.prNumber in w.prs && h.prNumber !in w.rows
    && !w.prs[h.prNumber].status.Open?
    && (h.eventType == Approved ==> w.prs[h.prNumber].status == Merged(h.gitopsCommitSHA, Bot))
  }

  ghost predicate HistoryIsSettled(w: World) {
    && (forall i :: 0 <= i < |w.history| ==> IsSettled(w, w.history[i]))
    && (forall i, j :: 0 <= i < j < |w.history| ==> w.history[i].prNumber != w.history[j].prNumber)
  }

  ghost predicate Inv(w: World) {
    RowsAreSound(w) && LocksHaveRows(w) && LabelledHaveRows(w) && HistoryIsSettled(w)
  }

  // --- the five ways in which a step changes the state ---

  // A deploy begins: its lock, its pull request and its row.
  ghost predicate Begins(w: World, w': World, n: nat) {
    && n !in w.prs
    && n in w'.rows && w'.rows == w.rows[n := w'.rows[n]] && w'.rows[n].prNumber == n
    && n in w'.prs && w'.prs == w.prs[n := w'.prs[n]] && w'.prs[n].status.Open?
    && KeyOf(w'.rows[n]) !in w.locks && KeyOf(w'.rows[n]) in w'.locks
    && w'.locks == w.locks[KeyOf(w'.rows[n]) := w'.locks[KeyOf(w'.rows[n])]]
    && HoldsItsLock(w', n)
    && w'.history == w.history
  }

  // A deploy ends: its row and its lock go, its pull request is not open any more.
  ghost predicate Ends(w: World, w': World, n: nat) {
    && n in w.rows && w'.rows == w.rows - {n}
    && w'.locks == w.locks - {KeyOf(w.rows[n])}
    && n in w.prs && n in w'.prs && w'.prs == w.prs[n := w'.prs[n]] && !w'.prs[n].status.Open?
    && (w'.history == w.history
        || exists h :: w'.history == w.history + [h] && h.prNumber == n && IsSettled(w', h))
  }

  // Row n changes in its state or message handle only.
  ghost predicate Touches(w: World, w': World, n: nat) {
    && n in w.rows && n in w'.rows
    && w'.rows[n].(state := w.rows[n].state, slack := w.rows[n].slack) == w.rows[n]
    && w' == w.(rows := w.rows[n := w'.rows[n]])
  }

  // Pull request n is labelled, unlabelled, closed or merged, and not reopened.
  ghost predicate Moves(w: World, w': World, n: nat) {
    && n in w.prs && n in w'.prs && w' == w.(prs := w.prs[n := w'.prs[n]])
    && (!w.prs[n].status.Open? ==> w'.prs[n].status == w.prs[n].status)
    && (w'.prs[n].status.Open? ==> w'.prs[n].labels == {} || n in w.rows)
  }

  // An auto-deploy comes and goes within one step.
  ghost predicate Passes(w: World, w': World, n: nat) {
    && n !in w.prs && w'.rows == w.rows && w'.locks == w.locks
    && n in w'.prs && w'.prs == w.prs[n := w'.prs[n]] && !w'.prs[n].status.Open?
    && (w'.history == w.history
        || exists h :: w'.history == w.history + [h] && h.prNumber == n && IsSettled(w', h))
  }

  lemma RowIsLocked(w: World, n: nat)
    requires RowsAreSound(w) && n in w.rows
    ensures n in w.prs && w.rows[n].prNumber == n && HoldsItsLock(w, n) && KeyOf(w.rows[n]) in w.locks
  {
  }

  lemma RowsAreDistinct(w: World, m: nat, n: nat)
    requires RowsAreSound(w) && m in w.rows && n in w.rows && m != n
    ensures KeyOf(w.rows[m]) != KeyOf(w.rows[n])
  {
  }

  lemma LockStays(w: World, w': World, n: nat, m: nat)
    requires Begins(w, w', n) && m in w.rows && m != n && HoldsItsLock(w, m)
    ensures HoldsItsLock(w', m)
  {
    hide KeyOf, HolderOf;
  }

  lemma BeginKeepsRows(w: World, w': World, n: nat)
    requires RowsAreSound(w) && Begins(w, w', n)
    ensures RowsAreSound(w')
  {
    hide KeyOf, HolderOf, HoldsItsLock, RowsAreSound;
    forall m | m in w'.rows ensures m in w'.prs && w'.rows[m].prNumber == m && HoldsItsLock(w', m) {
      if m != n {
        RowIsLocked(w, m);
        LockStays(w, w', n, m);
      }
    }
    forall m, l | m in w'.rows && l in w'.rows && m != l ensures KeyOf(w'.rows[m]) != KeyOf(w'.rows[l]) {
      if m != n { RowIsLocked(w, m); }
      if l != n { RowIsLocked(w, l); }
      if m != n && l != n { RowsAreDistinct(w, m, l); }
    }
    MakeSound(w');
  }

  lemma MakeSound(w: World)
    requires forall n | n in w.rows :: n in w.prs && w.rows[n].prNumber == n && HoldsItsLock(w, n)
    requires forall m, n | m in w.rows && n in w.rows && m != n :: KeyOf(w.rows[m]) != KeyOf(w.rows[n])
    ensures RowsAreSound(w)
  {
  }

  lemma BeginKeepsLocks(w: World, w': World, n: nat)
    requires LocksHaveRows(w) && n !in w.rows && Begins(w, w', n)
    ensures LocksHaveRows(w')
  {
    hide KeyOf, HolderOf;
    forall k | k in w'.locks ensures exists m :: m in w'.rows && KeyOf(w'.rows[m]) == k {
      if k != KeyOf(w'.rows[n]) {
        var m :| m in w.rows && KeyOf(w.rows[m]) == k;
        assert m in w'.rows && KeyOf(w'.rows[m]) == k;
      }
    }
  }

  lemma BeginKeepsInv(w: World, w': World, n: nat)
    requires Inv(w) && Begins(w, w', n)
    ensures Inv(w')
  {
    BeginKeepsRows(w, w', n);
    NotARow(w, n);
    BeginKeepsLocks(w, w', n);
    hide KeyOf, HolderOf, RowsAreSound, LocksHaveRows;
  }

  lemma EndKeepsRows(w: World, w': World, n: nat)
    requires RowsAreSound(w) && LocksHaveRows(w) && Ends(w, w', n)
    ensures RowsAreSound(w') && LocksHaveRows(w')
  {
    hide KeyOf, HolderOf, IsSettled;
    forall k | k in w'.locks ensures exists m :: m in w'.rows && KeyOf(w'.rows[m]) == k {
      var m :| m in w.rows && KeyOf(w.rows[m]) == k;
      assert m in w'.rows;
    }
  }

  lemma EndKeepsInv(w: World, w': World, n: nat)
    requires Inv(w) && Ends(w, w', n)
    ensures Inv(w')
  {
    EndKeepsRows(w, w', n);
    hide KeyOf, HolderOf, RowsAreSound, LocksHaveRows;
    assert forall i :: 0 <= i < |w.history| ==> w.history[i].prNumber != n;
  }

  // Rows that keep their locks keep the part of the invariant about rows and locks.
  lemma SameLocksKeepRows(w: World, w': World)
    requires RowsAreSound(w) && LocksHaveRows(w)
    requires w'.rows.Keys == w.rows.Keys && w'.locks == w.locks && w'.prs.Keys == w.prs.Keys
    requires forall n | n in w.rows :: KeepsLock(w.rows[n], w'.rows[n])
    ensures RowsAreSound(w') && LocksHaveRows(w')
  {
    hide KeyOf, HolderOf, RowsAreSound;
    forall n | n in w'.rows ensures n in w'.prs && w'.rows[n].prNumber == n && HoldsItsLock(w', n) {
      RowIsLocked(w, n);
      assert KeepsLock(w.rows[n], w'.rows[n]);
    }
    forall m, n | m in w'.rows && n in w'.rows && m != n ensures KeyOf(w'.rows[m]) != KeyOf(w'.rows[n]) {
      RowsAreDistinct(w, m, n);
      assert KeepsLock(w.rows[m], w'.rows[m]) && KeepsLock(w.rows[n], w'.rows[n]);
    }
    MakeSound(w');
    hide HoldsItsLock;
    forall k | k in w'.locks ensures exists m :: m in w'.rows && KeyOf(w'.rows[m]) == k {
      var m :| m in w.rows && KeyOf(w.rows[m]) == k;
      assert KeepsLock(w.rows[m], w'.rows[m]);
      assert m in w'.rows && KeyOf(w'.rows[m]) == k;
    }
  }

  // d' is locked as d is.
  predicate KeepsLock(d: PendingDeploy, d': PendingDeploy) {
    KeyOf(d') == KeyOf(d) && HolderOf(d') == HolderOf(d) && d'.requestedAt == d.requestedAt && d'.prNumber == d.prNumber
  }

  lemma TouchKeepsInv(w: World, w': World, n: nat)
    requires Inv(w) && Touches(w, w', n)
    ensures Inv(w')
  {
    assert forall m | m in w.rows :: KeepsLock(w.rows[m], w'.rows[m]);
    hide KeepsLock;
    SameLocksKeepRows(w, w');
    hide RowsAreSound, LocksHaveRows;
  }

  lemma MoveKeepsInv(w: World, w': World, n: nat)
    requires Inv(w) && Moves(w, w', n)
    ensures Inv(w')
  {
    assert forall m | m in w.rows :: KeepsLock(w.rows[m], w'.rows[m]);
    hide KeepsLock;
    SameLocksKeepRows(w, w');
    hide RowsAreSound, LocksHaveRows;
  }

  lemma PassKeepsInv(w: World, w': World, n: nat)
    requires Inv(w) && Passes(w, w', n)
    ensures Inv(w')
  {
    hide KeyOf, HolderOf;
    assert forall i :: 0 <= i < |w.history| ==> w.history[i].prNumber != n;
  }

  // Passing time keeps the invariant exactly when no lock of a pending deploy lapses.
  lemma TickKeepsInvIff(w: World, dt: nat)
    requires Inv(w)
    ensures Inv(Tick(w, dt)) <==> NoLapse(w, dt)
  {
    hide KeyOf, HolderOf;
    var w' := Tick(w, dt);
    if NoLapse(w, dt) {
      forall k | k in w'.locks ensures exists m :: m in w'.rows && KeyOf(w'.rows[m]) == k {
        var m :| m in w.rows && KeyOf(w.rows[m]) == k;
        assert m in w'.rows;
      }
    }
  }

  // --- every step is made of those ---

  lemma LaunchBegins(w: World, q: Request, holder: string, n: nat)
    requires LockKey(q.environment, q.app) !in w.locks && n !in w.prs
    requires holder == if q.requesterID == "" then ECR_HOLDER else q.requesterID
    ensures Begins(w, Launch(AcquireLock(w, LockKey(q.environment, q.app), holder, q.lockTTL), q, n), n)
  {
    hide LockKey, PullRequest.Body;
  }

  lemma LabelKeepsInv(w: World, n: nat, labels: set<Label>, ok: bool)
    requires Inv(w) && n in w.rows
    ensures Inv(AddLabels(w, n, labels, ok))
  {
    if ok {
      assert Moves(w, AddLabels(w, n, labels, ok), n);
      MoveKeepsInv(w, AddLabels(w, n, labels, ok), n);
    }
  }

  lemma HandleKeepsInv(w: World, n: nat, h: SlackHandle)
    requires Inv(w) && n in w.rows
    ensures Inv(SetSlackHandle(w, n, h))
  {
    assert Touches(w, SetSlackHandle(w, n, h), n);
    TouchKeepsInv(w, SetSlackHandle(w, n, h), n);
  }

  lemma DecorateKeepsInv(w: World, n: nat, r: RequestReplies)
    requires Inv(w) && n in w.rows
    ensures Inv(Decorate(w, n, r))
  {
    LabelKeepsInv(w, n, {DeployLabel, PendingLabel}, r.labelled);
    hide Inv;
    if r.posted.Some? {
      HandleKeepsInv(AddLabels(w, n, {DeployLabel, PendingLabel}, r.labelled), n, r.posted.value);
    }
  }

  lemma RequestKeepsInv(w: World, q: Request, holder: string, n: nat, r: RequestReplies)
    requires Inv(w) && LockKey(q.environment, q.app) !in w.locks && n !in w.prs
    requires holder == if q.requesterID == "" then ECR_HOLDER else q.requesterID
    ensures Inv(Decorate(Launch(AcquireLock(w, LockKey(q.environment, q.app), holder, q.lockTTL), q, n), n, r))
  {
    LaunchBegins(w, q, holder, n);
    var w1 := Launch(AcquireLock(w, LockKey(q.environment, q.app), holder, q.lockTTL), q, n);
    hide Inv, Launch, AcquireLock, LockKey, Decorate;
    BeginKeepsInv(w, w1, n);
    DecorateKeepsInv(w1, n, r);
  }

  lemma ReleaseUndoesAcquire(w: World, key: string, holder: string, ttl: int)
    requires key !in w.locks
    ensures ReleaseLock(AcquireLock(w, key, holder, ttl), key) == w
  {
    assert w.locks[key := AcquireLock(w, key, holder, ttl).locks[key]] - {key} == w.locks;
  }

  lemma RequestDeployKeepsInv(w: World, q: Request, r: RequestReplies)
    requires Inv(w) && q.requesterID != ""
    ensures Inv(RequestDeploy(w, q, r))
  {
    var key := LockKey(q.environment, q.app);
    if r.accepted && key !in w.locks {
      ReleaseUndoesAcquire(w, key, q.requesterID, q.lockTTL);
      var w1 := AcquireLock(w, key, q.requesterID, q.lockTTL);
      match CreatedNumber(w1, ParamsOf(q), r.create) {
        case None =>
        case Some(n) => RequestKeepsInv(w, q, q.requesterID, n, r);
      }
    }
  }

  // What a merge does to a pull request.
  lemma MergeMoves(w: World, n: nat, reply: MergeReply)
    requires n in w.prs
    ensures match MergeResult(w, n, reply)
      case Ok(sha) =>
        && w.prs[n].status.Open?
        && MergePR(w, n, reply) == w.(prs := w.prs[n := w.prs[n].(status := Merged(sha, Bot))])
      case Err(_) => MergePR(w, n, reply) == w
  {
  }

  lemma MergeWithRetryMoves(w: World, n: nat, m: MergeReplies)
    requires n in w.prs
    ensures var (w', outcome) := MergeWithRetry(w, n, m);
      match outcome
      case MergedAs(sha) => w.prs[n].status.Open? && w' == w.(prs := w.prs[n := w.prs[n].(status := Merged(sha, Bot))])
      case _ => w' == w
  {
    MergeMoves(w, n, m.first);
    MergeMoves(w, n, m.second);
  }

  lemma AutoDeployKeepsInv(w: World, q: Request, n: nat, p: PushReplies)
    requires Inv(w) && LockKey(q.environment, q.app) !in w.locks && n !in w.prs
    requires var w1 := AcquireLock(w, LockKey(q.environment, q.app), ECR_HOLDER, q.lockTTL);
      MergeWithRetry(CreateDeployPR(w1, ParamsOf(ECRRequest(q)), n), n, p.merge).1 != Interrupted
    ensures var w1 := AcquireLock(w, LockKey(q.environment, q.app), ECR_HOLDER, q.lockTTL);
      Inv(AutoDeploy(CreateDeployPR(w1, ParamsOf(ECRRequest(q)), n), q, n, p.merge, p.labelRemoved))
  {
    hide LockKey, PullRequest.Body, RowsAreSound, LocksHaveRows, LabelledHaveRows, HistoryIsSettled;
    var key := LockKey(q.environment, q.app);
    var w1 := AcquireLock(w, key, ECR_HOLDER, q.lockTTL);
    ReleaseUndoesAcquire(w, key, ECR_HOLDER, q.lockTTL);
    var w2 := CreateDeployPR(w1, ParamsOf(ECRRequest(q)), n);
    var w' := AutoDeploy(w2, q, n, p.merge, p.labelRemoved);
    MergeWithRetryMoves(w2, n, p.merge);
    var (w3, outcome) := MergeWithRetry(w2, n, p.merge);
    assert w'.locks == w.locks;
    assert n in w'.prs && w'.prs == w.prs[n := w'.prs[n]];
    if outcome.MergedAs? {
      var h := ECRHistory(q, n, w.now, outcome.sha);
      assert w'.history == w.history + [h];
      NotARow(w, n);
      assert IsSettled(w', h);
    }
    assert Passes(w, w', n) by { NotARow(w, n); }
    PassKeepsInv(w, w', n);
  }

  lemma NotARow(w: World, n: nat)
    requires Inv(w) && n !in w.prs
    ensures n !in w.rows
  {
  }

  lemma ECRPushKeepsInv(w: World, q: Request, r: RequestReplies, p: PushReplies)
    requires Inv(w) && !IsAbandoned(w, q, r, p)
    ensures Inv(ECRPush(w, q, r, p))
  {
    var key := LockKey(q.environment, q.app);
    if r.accepted && key !in w.locks {
      ReleaseUndoesAcquire(w, key, ECR_HOLDER, q.lockTTL);
      var w1 := AcquireLock(w, key, ECR_HOLDER, q.lockTTL);
      match CreatedNumber(w1, ParamsOf(ECRRequest(q)), r.create) {
        case None =>
        case Some(n) =>
          if p.autoDeploy {
            AutoDeployKeepsInv(w, q, n, p);
          } else {
            RequestKeepsInv(w, ECRRequest(q), ECR_HOLDER, n, r);
          }
      }
    }
  }

  // An abandoned auto-deploy leaves a lock that belongs to no row.
  lemma AbandonedLeavesLock(w: World, q: Request, r: RequestReplies, p: PushReplies)
    requires Inv(w) && IsAbandoned(w, q, r, p)
    ensures var w' := ECRPush(w, q, r, p);
      w'.rows == w.rows && LockKey(q.environment, q.app) in w'.locks && LockKey(q.environment, q.app) !in w.locks
  {
    hide PullRequest.Body, RowsAreSound, LocksHaveRows, LabelledHaveRows, HistoryIsSettled;
    var w1 := AcquireLock(w, LockKey(q.environment, q.app), ECR_HOLDER, q.lockTTL);
    var n := CreatedNumber(w1, ParamsOf(ECRRequest(q)), r.create).value;
    MergeWithRetryMoves(CreateDeployPR(w1, ParamsOf(ECRRequest(q)), n), n, p.merge);
    hide LockKey, MergeWithRetry;
  }

  lemma StrayLockBreaksInv(w: World, w': World, key: string)
    requires Inv(w) && w'.rows == w.rows && key in w'.locks && key !in w.locks
    ensures !Inv(w')
  {
    hide LabelledHaveRows, HistoryIsSettled, KeyOf, HolderOf;
    forall n | n in w'.rows ensures KeyOf(w'.rows[n]) != key {
      assert HoldsItsLock(w, n);
    }
  }

  // An image push keeps the invariant exactly when its auto-deploy, if any, is not cut off
  // between two attempts to merge.
  lemma PushKeepsInvIff(w: World, q: Request, r: RequestReplies, p: PushReplies)
    requires Inv(w)
    ensures Inv(ECRPush(w, q, r, p)) <==> !IsAbandoned(w, q, r, p)
  {
    if IsAbandoned(w, q, r, p) {
      AbandonedLeavesLock(w, q, r, p);
      hide ECRPush, Inv, LockKey;
      StrayLockBreaksInv(w, ECRPush(w, q, r, p), LockKey(q.environment, q.app));
    } else {
      ECRPushKeepsInv(w, q, r, p);
    }
  }

  // Retiring a row whose pull request is not open ends the deploy.
  lemma RetireEnds(w: World, n: nat, labelRemoved: bool)
    requires n in w.rows && n in w.prs && !w.prs[n].status.Open?
    ensures Ends(w, Retire(w, n, labelRemoved), n)
    ensures Retire(w, n, labelRemoved).prs[n].status == w.prs[n].status
  {
    hide KeyOf;
    var w' := Retire(w, n, labelRemoved);
    assert w'.prs == w.prs[n := w'.prs[n]];
  }

  lemma RetireWithHistoryEnds(w: World, n: nat, labelRemoved: bool, h: HistoryEntry)
    requires n in w.rows && n in w.prs && !w.prs[n].status.Open? && h.prNumber == n
    requires h.eventType == Approved ==> w.prs[n].status == Merged(h.gitopsCommitSHA, Bot)
    ensures Ends(w, PushHistory(Retire(w, n, labelRemoved), h), n)
  {
    RetireEnds(w, n, labelRemoved);
    hide KeyOf;
    assert IsSettled(PushHistory(Retire(w, n, labelRemoved), h), h);
  }

  lemma CloseKeepsInv(w: World, n: nat)
    requires Inv(w)
    ensures Inv(ClosePR(w, n))
    ensures n in w.prs ==> n in ClosePR(w, n).prs && !ClosePR(w, n).prs[n].status.Open?
  {
    if n in w.prs && w.prs[n].status.Open? {
      assert Moves(w, ClosePR(w, n), n);
      MoveKeepsInv(w, ClosePR(w, n), n);
    }
  }

  lemma EndWithKeepsInv(w: World, n: nat, t: EventType, labelRemoved: bool)
    requires Inv(w) && n in w.rows && t != Approved
    ensures Inv(EndWith(w, n, t, labelRemoved))
  {
    CloseKeepsInv(w, n);
    RetireWithHistoryEnds(ClosePR(w, n), n, labelRemoved, HistoryFromPending(w.rows[n], t, w.now));
    EndKeepsInv(ClosePR(w, n), EndWith(w, n, t, labelRemoved), n);
  }

  lemma CloseNoOpKeepsInv(w: World, n: nat, labelRemoved: bool)
    requires Inv(w) && n in w.rows
    ensures Inv(CloseNoOp(w, n, labelRemoved))
  {
    CloseKeepsInv(w, n);
    RetireEnds(ClosePR(w, n), n, labelRemoved);
    EndKeepsInv(ClosePR(w, n), CloseNoOp(w, n, labelRemoved), n);
  }

  lemma UpdateStateKeepsInv(w: World, n: nat, s: DeployState)
    requires Inv(w)
    ensures Inv(UpdateState(w, n, s))
  {
    if n in w.rows {
      assert Touches(w, UpdateState(w, n, s), n);
      TouchKeepsInv(w, UpdateState(w, n, s), n);
    }
  }

  lemma MergePRKeepsInv(w: World, n: nat, reply: MergeReply)
    requires Inv(w) && n in w.rows
    ensures Inv(MergePR(w, n, reply)) && MergePR(w, n, reply).rows == w.rows
    ensures var w' := MergePR(w, n, reply);
      MergeResult(w, n, reply).Ok? ==> n in w'.prs && w'.prs[n].status == Merged(MergeResult(w, n, reply).value, Bot)
  {
    var w' := MergePR(w, n, reply);
    MergeMoves(w, n, reply);
    if MergeResult(w, n, reply).Ok? {
      assert Moves(w, w', n);
      MoveKeepsInv(w, w', n);
    }
  }

  lemma FinishKeepsInv(w: World, n: nat, sha: string, labelRemoved: bool)
    requires Inv(w) && n in w.rows && w.prs[n].status == Merged(sha, Bot)
    ensures Inv(FinishApproved(w, n, sha, labelRemoved))
  {
    var h := HistoryFromPending(w.rows[n], Approved, w.now).(gitopsCommitSHA := sha);
    RetireWithHistoryEnds(w, n, labelRemoved, h);
    EndKeepsInv(w, FinishApproved(w, n, sha, labelRemoved), n);
  }

  lemma RetryKeepsInv(w: World, n: nat, reply: MergeReply, labelRemoved: bool)
    requires Inv(w) && n in w.rows
    ensures Inv(RetryMerge(w, n, reply, labelRemoved))
  {
    MergePRKeepsInv(w, n, reply);
    var w' := MergePR(w, n, reply);
    match MergeResult(w, n, reply)
    case Err(_) => UpdateStateKeepsInv(w', n, Pending);
    case Ok(sha) => FinishKeepsInv(w', n, sha, labelRemoved);
  }

  lemma MergedKeepsInv(w: World, w': World, n: nat, sha: string)
    requires Inv(w) && n in w.rows && n in w.prs && w.prs[n].status.Open?
    requires w' == w.(prs := w.prs[n := w.prs[n].(status := Merged(sha, Bot))])
    ensures Inv(w') && w'.rows == w.rows && w'.prs[n].status == Merged(sha, Bot)
  {
    assert Moves(w, w', n);
    MoveKeepsInv(w, w', n);
  }

  lemma ConcludeKeepsInv(w: World, n: nat, outcome: MergeOutcome, r: ApproveReplies)
    requires Inv(w) && n in w.rows && n in w.prs
    requires outcome.MergedAs? ==> w.prs[n].status == Merged(outcome.sha, Bot)
    ensures Inv(Conclude(w, n, outcome, r))
  {
    match outcome
    case MergedAs(sha) => FinishKeepsInv(w, n, sha, r.labelRemoved);
    case NoOp => CloseNoOpKeepsInv(w, n, r.labelRemoved);
    case Interrupted =>
    case Failed(e) =>
      UpdateStateKeepsInv(w, n, Pending);
      RetryKeepsInv(w, n, r.third, r.labelRemoved);
  }

  lemma ApproveKeepsInv(w: World, n: nat, r: ApproveReplies)
    requires Inv(w)
    ensures Inv(Approve(w, n, r))
  {
    if r.authorized && n in w.rows {
      var w1 := UpdateState(w, n, Merging);
      UpdateStateKeepsInv(w, n, Merging);
      UpdateStateKeepsInv(w1, n, Pending);
      InvHasPR(w1, n);
      hide Inv, Conclude;
      MergeWithRetryMoves(w1, n, r.merge);
      var (w2, outcome) := MergeWithRetry(w1, n, r.merge);
      hide MergeWithRetry;
      if outcome.MergedAs? {
        MergedKeepsInv(w1, w2, n, outcome.sha);
      }
      ConcludeKeepsInv(w2, n, outcome, r);
    }
  }

  lemma InvHasPR(w: World, n: nat)
    requires Inv(w) && n in w.rows
    ensures n in w.prs
  {
  }

  lemma {:induction false} ExpireAllKeepsInv(w: World, order: seq<nat>, unlabelled: set<nat>)
    requires Inv(w)
    ensures Inv(ExpireAll(w, order, unlabelled))
    decreases |order|
  {
    if order != [] {
      var n := order[|order| - 1];
      var w1 := ExpireAll(w, order[..|order| - 1], unlabelled);
      ExpireAllKeepsInv(w, order[..|order| - 1], unlabelled);
      if n in w1.rows {
        EndWithKeepsInv(w1, n, Expired, n in unlabelled);
      }
    }
  }

  lemma RecoverOneKeepsInv(w: World, n: nat, reply: MergeReply, labelRemoved: bool)
    requires Inv(w)
    ensures Inv(RecoverOne(w, n, reply, labelRemoved))
  {
    hide RowsAreSound, LocksHaveRows, LabelledHaveRows, HistoryIsSettled, Retire;
    if n in w.rows && MergeResult(w, n, reply).Ok? {
      MergePRKeepsInv(w, n, reply);
      var w2 := MergePR(w, n, reply);
      RetireEnds(w2, n, labelRemoved);
      EndKeepsInv(w2, Retire(w2, n, labelRemoved), n);
    }
  }

  lemma {:induction false} RecoverAllKeepsInv(w: World, order: seq<nat>, replies: map<nat, MergeReply>,
                                              unlabelled: set<nat>)
    requires Inv(w)
    ensures Inv(RecoverAll(w, order, replies, unlabelled))
    decreases |order|
  {
    if order != [] {
      var n := order[|order| - 1];
      var w1 := RecoverAll(w, order[..|order| - 1], replies, unlabelled);
      hide Inv, RecoverOne;
      RecoverAllKeepsInv(w, order[..|order| - 1], replies, unlabelled);
      if n in replies {
        RecoverOneKeepsInv(w1, n, replies[n], n in unlabelled);
      }
    }
  }

  // Reconciling inserts nothing.
  lemma ReconcileIsIdle(w: World, listed: set<nat>, labelled: set<nat>, staleDuration: int)
    requires Inv(w) && IsListing(w, listed)
    ensures Reconcile(w, listed, labelled, staleDuration) == w
  {
    var w' := Reconcile(w, listed, labelled, staleDuration);
    hide KeyOf, HolderOf, PullRequest.ParsePRMeta;
    assert w'.rows == w.rows;
    assert w'.prs == w.prs;
  }

  // Every admissible step keeps the invariant.
  lemma StepKeepsInv(w: World, s: Step)
    requires Inv(w) && IsAdmissible(w, s)
    ensures Inv(Apply(w, s))
  {
    hide RowsAreSound, LocksHaveRows, LabelledHaveRows, HistoryIsSettled, IsExpiredQuery, IsListing;
    hide RequestDeploy, ECRPush, IsAbandoned, Approve, EndWith, MayCancel, ExpireAll, RecoverAll, Reconcile;
    hide Tick, NoLapse;
    match s
    case Submit(q, r) => RequestDeployKeepsInv(w, q, r);
    case Mention(q, r) => RequestDeployKeepsInv(w, q, r);
    case Push(q, r, p) => ECRPushKeepsInv(w, q, r, p);
    case Approval(n, a) => ApproveKeepsInv(w, n, a);
    case Rejection(n, authorized, l) =>
      if n in w.rows { EndWithKeepsInv(w, n, Rejected, l); }
    case Cancellation(n, user, allow, l) =>
      if n in w.rows { EndWithKeepsInv(w, n, Cancelled, l); }
    case Sweep(order, u, listed, labelled, stale) =>
      ExpireAllKeepsInv(w, order, u);
      ReconcileIsIdle(ExpireAll(w, order, u), listed, labelled, stale);
    case Recovery(order, replies, u) => RecoverAllKeepsInv(w, order, replies, u);
    case Reconciliation(listed, labelled, stale) => ReconcileIsIdle(w, listed, labelled, stale);
    case Time(dt) => TickKeepsInvIff(w, dt);
    case ClosedByHuman(n) => CloseKeepsInv(w, n);
    case MergedByHuman(n, sha) =>
      if n in w.prs && w.prs[n].status.Open? {
        assert Moves(w, HumanMerge(w, n, sha), n);
        MoveKeepsInv(w, HumanMerge(w, n, sha), n);
      }
  }

  lemma {:induction false} RunKeepsInv(w: World, steps: seq<Step>)
    requires Inv(w) && IsAdmissibleRun(w, steps)
    ensures Inv(Run(w, steps))
    decreases |steps|
  {
    if steps != [] {
      StepKeepsInv(w, steps[0]);
      RunKeepsInv(Apply(w, steps[0]), steps[1..]);
    }
  }

  // --- what follows for runs from the empty state ---

  // The lock of an (environment, app) is held exactly when exactly one deploy of it is in flight.
  ghost predicate IsSingleFlight(w: World) {
    forall key: string ::
      && (key in w.locks <==> exists n :: n in w.rows && KeyOf(w.rows[n]) == key)
      && (forall m, n :: m in w.rows && n in w.rows && KeyOf(w.rows[m]) == key && KeyOf(w.rows[n]) == key ==> m == n)
  }

  lemma SingleFlightOnEveryRun(steps: seq<Step>)
    requires IsAdmissibleRun(EMPTY, steps)
    ensures IsSingleFlight(Run(EMPTY, steps))
  {
    RunKeepsInv(EMPTY, steps);
    hide KeyOf, HolderOf;
  }
}
