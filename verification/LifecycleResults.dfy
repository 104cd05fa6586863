/** What the invariant of the lifecycle gives for endings, releases, approvals, sweeps and recovery. */
module LifecycleResults {
  import opened Wrappers
  import opened Lifecycle
  import opened SingleFlight
  import PullRequest
  import Sanitize

  // --- lock keys ---

  // Two deploys share a lock only if they are of the same app and environment, as long as
  // environment names are free of slashes.
  lemma LockKeyIsInjective(env1: string, app1: string, env2: string, app2: string)
    requires '/' !in env1 && '/' !in env2 && LockKey(env1, app1) == LockKey(env2, app2)
    ensures env1 == env2 && app1 == app2
  {
    var key := LockKey(env1, app1);
    assert key[5..] == env1 + ("/" + app1);
    assert key[5..] == env2 + ("/" + app2);
    SameSplit(env1, app1, env2, app2);
  }

  lemma FirstSlash(a: string, b: string)
    requires '/' !in a
    ensures var s := a + ("/" + b);
      && s[|a|] == '/' && (forall i :: 0 <= i < |a| ==> s[i] != '/')
      && s[..|a|] == a && s[|a| + 1..] == b
  {
    var s := a + ("/" + b);
    assert forall i :: 0 <= i < |a| ==> s[i] == a[i];
  }

  lemma SameSplit(a: string, b: string, c: string, d: string)
    requires '/' !in a && '/' !in c && a + ("/" + b) == c + ("/" + d)
    ensures a == c && b == d
  {
    FirstSlash(a, b);
    FirstSlash(c, d);
  }

  // --- what a step does to the deploys already there ---

  // Nothing but the state and the message handle of a row ever changes.
  predicate SameDeploy(d: PendingDeploy, d': PendingDeploy) {
    d'.(state := d.state, slack := d.slack) == d
  }

  predicate SamePR(p: PR, p': PR) {
    p'.body == p.body && p'.createdAt == p.createdAt
  }

  ghost predicate KeepsPRs(w: World, w': World) {
    forall n | n in w.prs :: n in w'.prs && SamePR(w.prs[n], w'.prs[n])
  }

  // Rows may go and may change state, but none appears.
  ghost predicate KeepsRows(w: World, w': World) {
    forall n | n in w'.rows :: n in w.rows && SameDeploy(w.rows[n], w'.rows[n])
  }

  ghost predicate Keeps(w: World, w': World) {
    KeepsPRs(w, w') && KeepsRows(w, w') && w.history <= w'.history && w'.now == w.now
  }

  lemma KeepsIsTransitive(w: World, v: World, u: World)
    requires Keeps(w, v) && Keeps(v, u)
    ensures Keeps(w, u)
  {
  }

  lemma RetireKeeps(w: World, n: nat, labelRemoved: bool)
    requires n in w.rows
    ensures Keeps(w, Retire(w, n, labelRemoved))
  {
    hide KeyOf;
  }

  lemma CloseKeeps(w: World, n: nat)
    ensures Keeps(w, ClosePR(w, n)) && ClosePR(w, n).rows == w.rows
  {
  }

  lemma MergeKeeps(w: World, n: nat, reply: MergeReply)
    ensures Keeps(w, MergePR(w, n, reply)) && MergePR(w, n, reply).rows == w.rows
  {
  }

  lemma UpdateKeeps(w: World, n: nat, s: DeployState)
    ensures Keeps(w, UpdateState(w, n, s))
    ensures UpdateState(w, n, s).rows.Keys == w.rows.Keys
  {
  }

  lemma PushKeeps(w: World, v: World, h: HistoryEntry)
    requires Keeps(w, v)
    ensures Keeps(w, PushHistory(v, h))
  {
  }

  lemma EndWithKeeps(w: World, n: nat, t: EventType, labelRemoved: bool)
    requires n in w.rows
    ensures Keeps(w, EndWith(w, n, t, labelRemoved))
  {
    CloseKeeps(w, n);
    RetireKeeps(ClosePR(w, n), n, labelRemoved);
    hide *;
    KeepsIsTransitive(w, ClosePR(w, n), Retire(ClosePR(w, n), n, labelRemoved)) by { CloseKeeps(w, n); }
    PushKeeps(w, Retire(ClosePR(w, n), n, labelRemoved), HistoryFromPending(w.rows[n], t, w.now));
  }

  lemma FinishKeeps(w: World, n: nat, sha: string, labelRemoved: bool)
    requires n in w.rows
    ensures Keeps(w, FinishApproved(w, n, sha, labelRemoved))
  {
    RetireKeeps(w, n, labelRemoved);
    PushKeeps(w, Retire(w, n, labelRemoved),
              HistoryFromPending(w.rows[n], Approved, w.now).(gitopsCommitSHA := sha));
  }

  lemma CloseNoOpKeeps(w: World, n: nat, labelRemoved: bool)
    requires n in w.rows
    ensures Keeps(w, CloseNoOp(w, n, labelRemoved))
  {
    CloseKeeps(w, n);
    RetireKeeps(ClosePR(w, n), n, labelRemoved);
    KeepsIsTransitive(w, ClosePR(w, n), CloseNoOp(w, n, labelRemoved));
  }

  lemma RetryKeeps(w: World, n: nat, reply: MergeReply, labelRemoved: bool)
    requires n in w.rows
    ensures Keeps(w, RetryMerge(w, n, reply, labelRemoved))
  {
    var v := MergePR(w, n, reply);
    MergeKeeps(w, n, reply);
    UpdateKeeps(v, n, Pending);
    match MergeResult(w, n, reply)
    case Err(_) => KeepsIsTransitive(w, v, UpdateState(v, n, Pending));
    case Ok(sha) =>
      FinishKeeps(v, n, sha, labelRemoved);
      KeepsIsTransitive(w, v, FinishApproved(v, n, sha, labelRemoved));
  }

  lemma ConcludeKeeps(w: World, n: nat, outcome: MergeOutcome, r: ApproveReplies)
    requires n in w.rows
    ensures Keeps(w, Conclude(w, n, outcome, r))
  {
    match outcome
    case MergedAs(sha) => FinishKeeps(w, n, sha, r.labelRemoved);
    case NoOp => CloseNoOpKeeps(w, n, r.labelRemoved);
    case Interrupted =>
    case Failed(e) =>
      UpdateKeeps(w, n, Pending);
      RetryKeeps(w, n, r.third, r.labelRemoved);
  }

  lemma MergeWithRetryKeeps(w: World, n: nat, m: MergeReplies)
    ensures Keeps(w, MergeWithRetry(w, n, m).0) && MergeWithRetry(w, n, m).0.rows == w.rows
  {
    MergeKeeps(w, n, m.first);
    MergeKeeps(w, n, m.second);
  }

  lemma ApproveKeeps(w: World, n: nat, r: ApproveReplies)
    ensures Keeps(w, Approve(w, n, r))
  {
    if r.authorized && n in w.rows {
      var w1 := UpdateState(w, n, Merging);
      UpdateKeeps(w, n, Merging);
      UpdateKeeps(w1, n, Pending);
      KeepsIsTransitive(w, w1, UpdateState(w1, n, Pending));
      MergeWithRetryKeeps(w1, n, r.merge);
      var (w2, outcome) := MergeWithRetry(w1, n, r.merge);
      ConcludeKeeps(w2, n, outcome, r);
      hide Keeps, MergeWithRetry, Conclude, UpdateState;
      KeepsIsTransitive(w1, w2, Conclude(w2, n, outcome, r));
      KeepsIsTransitive(w, w1, Conclude(w2, n, outcome, r));
    }
  }

  lemma {:induction false} ExpireAllKeeps(w: World, order: seq<nat>, unlabelled: set<nat>)
    ensures Keeps(w, ExpireAll(w, order, unlabelled))
    decreases |order|
  {
    if order != [] {
      var n := order[|order| - 1];
      var v := ExpireAll(w, order[..|order| - 1], unlabelled);
      ExpireAllKeeps(w, order[..|order| - 1], unlabelled);
      if n in v.rows {
        EndWithKeeps(v, n, Expired, n in unlabelled);
        KeepsIsTransitive(w, v, EndWith(v, n, Expired, n in unlabelled));
      }
    }
  }

  lemma {:induction false} RecoverAllKeeps(w: World, order: seq<nat>, replies: map<nat, MergeReply>,
                                           unlabelled: set<nat>)
    ensures Keeps(w, RecoverAll(w, order, replies, unlabelled))
    decreases |order|
  {
    if order != [] {
      var n := order[|order| - 1];
      var v := RecoverAll(w, order[..|order| - 1], replies, unlabelled);
      RecoverAllKeeps(w, order[..|order| - 1], replies, unlabelled);
      if n in replies && n in v.rows {
        var u := MergePR(v, n, replies[n]);
        MergeKeeps(v, n, replies[n]);
        RetireKeeps(u, n, n in unlabelled);
        KeepsIsTransitive(w, v, u);
        KeepsIsTransitive(w, u, Retire(u, n, n in unlabelled));
      }
    }
  }

  // The request behind a step that may begin a deploy.
  function RequestOf(s: Step): Option<Request> {
    match s
    case Submit(q, _) => Some(q)
    case Mention(q, _) => Some(q)
    case Push(q, _, _) => Some(ECRRequest(q))
    case _ => None
  }

  // Row n was written for request q, together with its pull request.
  ghost predicate IsLaunchOf(w: World, w': World, n: nat, q: Request)
    requires n in w'.rows
  {
    && n !in w.prs && n in w'.prs
    && SameDeploy(RowOf(q, n, w.now), w'.rows[n])
    && SamePR(PR(Open, {}, PullRequest.Body(ParamsOf(q)), w.now), w'.prs[n])
    && Sanitize.TagIsSafe(q.tag)
  }

  lemma LaunchIsLaunch(w: World, q: Request, holder: string, n: nat, r: RequestReplies)
    requires n !in w.prs && Sanitize.TagIsSafe(q.tag)
    ensures var w' := Decorate(Launch(AcquireLock(w, LockKey(q.environment, q.app), holder, q.lockTTL), q, n), n, r);
      && n in w'.rows && IsLaunchOf(w, w', n, q) && KeepsPRs(w, w') && w'.history == w.history
      && forall m | m in w'.rows && m != n :: m in w.rows && SameDeploy(w.rows[m], w'.rows[m])
  {
    hide LockKey, PullRequest.Body, Sanitize.TagIsSafe;
  }

  // Rows after a step: the ones there before, unchanged in what identifies them, and at
  // most those written for the request of this very step.
  ghost predicate Evolves(w: World, w': World, q: Option<Request>) {
    && KeepsPRs(w, w') && w.history <= w'.history
    && forall n | n in w'.rows ::
         (n in w.rows && SameDeploy(w.rows[n], w'.rows[n])) || (q.Some? && IsLaunchOf(w, w', n, q.value))
  }

  lemma RequestEvolves(w: World, q: Request, r: RequestReplies)
    ensures Evolves(w, RequestDeploy(w, q, r), Some(q))
  {
    var key := LockKey(q.environment, q.app);
    if r.accepted && key !in w.locks {
      ReleaseUndoesAcquire(w, key, q.requesterID, q.lockTTL);
      var w1 := AcquireLock(w, key, q.requesterID, q.lockTTL);
      match CreatedNumber(w1, ParamsOf(q), r.create) {
        case None =>
        case Some(n) => LaunchIsLaunch(w, q, q.requesterID, n, r);
      }
    }
  }

  lemma AutoDeployEvolves(w: World, q: Request, n: nat, p: PushReplies)
    requires n !in w.prs
    ensures var w1 := AcquireLock(w, LockKey(q.environment, q.app), ECR_HOLDER, q.lockTTL);
      Evolves(w, AutoDeploy(CreateDeployPR(w1, ParamsOf(ECRRequest(q)), n), q, n, p.merge, p.labelRemoved), None)
  {
    hide LockKey, PullRequest.Body;
    var w1 := AcquireLock(w, LockKey(q.environment, q.app), ECR_HOLDER, q.lockTTL);
    var w2 := CreateDeployPR(w1, ParamsOf(ECRRequest(q)), n);
    MergeWithRetryMoves(w2, n, p.merge);
  }

  lemma PushEvolves(w: World, q: Request, r: RequestReplies, p: PushReplies)
    ensures Evolves(w, ECRPush(w, q, r, p), Some(ECRRequest(q)))
  {
    var key := LockKey(q.environment, q.app);
    if r.accepted && key !in w.locks {
      ReleaseUndoesAcquire(w, key, ECR_HOLDER, q.lockTTL);
      var w1 := AcquireLock(w, key, ECR_HOLDER, q.lockTTL);
      match CreatedNumber(w1, ParamsOf(ECRRequest(q)), r.create) {
        case None =>
        case Some(n) =>
          if p.autoDeploy {
            AutoDeployEvolves(w, q, n, p);
          } else {
            LaunchIsLaunch(w, ECRRequest(q), ECR_HOLDER, n, r);
          }
      }
    }
  }

  lemma StepEvolves(w: World, s: Step)
    requires Inv(w) && IsAdmissible(w, s)
    ensures Evolves(w, Apply(w, s), RequestOf(s))
  {
    hide RowsAreSound, LocksHaveRows, LabelledHaveRows, HistoryIsSettled, IsExpiredQuery, IsListing;
    hide RequestDeploy, ECRPush, IsAbandoned, Approve, EndWith, MayCancel, ExpireAll, RecoverAll, Reconcile;
    match s
    case Submit(q, r) => RequestEvolves(w, q, r);
    case Mention(q, r) => RequestEvolves(w, q, r);
    case Push(q, r, p) => PushEvolves(w, q, r, p);
    case Approval(n, a) => ApproveKeeps(w, n, a);
    case Rejection(n, authorized, l) =>
      if n in w.rows { EndWithKeeps(w, n, Rejected, l); }
    case Cancellation(n, user, allow, l) =>
      if n in w.rows { EndWithKeeps(w, n, Cancelled, l); }
    case Sweep(order, u, listed, labelled, stale) =>
      ExpireAllKeepsInv(w, order, u);
      ReconcileIsIdle(ExpireAll(w, order, u), listed, labelled, stale);
      ExpireAllKeeps(w, order, u);
    case Recovery(order, replies, u) => RecoverAllKeeps(w, order, replies, u);
    case Reconciliation(listed, labelled, stale) => ReconcileIsIdle(w, listed, labelled, stale);
    case Time(dt) =>
    case ClosedByHuman(n) => CloseKeeps(w, n);
    case MergedByHuman(n, sha) =>
  }

  // --- endings ---

  lemma {:induction false} RunKeepsHistory(w: World, steps: seq<Step>)
    requires Inv(w) && IsAdmissibleRun(w, steps)
    ensures w.history <= Run(w, steps).history
    decreases |steps|
  {
    if steps != [] {
      StepKeepsInv(w, steps[0]);
      StepEvolves(w, steps[0]);
      RunKeepsHistory(Apply(w, steps[0]), steps[1..]);
    }
  }

  // Once history has an ending for a pull request, it keeps exactly that one: the deploy is
  // never revived, its pull request is not open, and an approved ending is the merge that
  // the bot made, under the SHA it was answered.
  lemma EndedStaysEnded(w: World, steps: seq<Step>, i: nat)
    requires Inv(w) && IsAdmissibleRun(w, steps) && i < |w.history|
    ensures var w' := Run(w, steps); var h := w.history[i];
      && i < |w'.history| && w'.history[i] == h && IsSettled(w', h)
      && forall j :: 0 <= j < |w'.history| && w'.history[j].prNumber == h.prNumber ==> j == i
  {
    RunKeepsInv(w, steps);
    RunKeepsHistory(w, steps);
    hide RowsAreSound, LocksHaveRows, LabelledHaveRows, IsSettled;
    var w' := Run(w, steps);
    assert w'.history[i] == w.history[i];
  }

  // --- releases ---

  lemma SurvivorKeepsLock(w: World, w': World, q: Option<Request>, n: nat)
    requires Inv(w) && Inv(w') && Evolves(w, w', q) && n in w.rows && n in w'.rows
    ensures KeyOf(w.rows[n]) in w'.locks
  {
    assert n in w.prs;
    assert KeyOf(w'.rows[n]) == KeyOf(w.rows[n]);
  }

  // A lock that a step takes away is the lock which a deploy ended by that step had taken.
  lemma EveryReleaseIsOwn(w: World, s: Step, key: string)
    requires Inv(w) && IsAdmissible(w, s)
    requires key in w.locks && key !in Apply(w, s).locks
    ensures exists n :: n in w.rows && n !in Apply(w, s).rows && KeyOf(w.rows[n]) == key && HoldsItsLock(w, n)
  {
    StepKeepsInv(w, s);
    StepEvolves(w, s);
    hide Apply, IsAdmissible;
    var w' := Apply(w, s);
    var n :| n in w.rows && KeyOf(w.rows[n]) == key;
    if n in w'.rows {
      SurvivorKeepsLock(w, w', RequestOf(s), n);
    }
  }

  // --- why locks must not lapse ---

  const DEFAULT_LOCK_TTL := 300
  const DEFAULT_STALE_DURATION := 7200

  // No lock lapses as time passes exactly when every pending deploy is still within the time
  // that its lock was taken for.
  lemma NoLapseIff(w: World, dt: nat)
    requires Inv(w)
    ensures NoLapse(w, dt) <==>
      forall n | n in w.rows ::
        KeyOf(w.rows[n]) in w.locks &&
        (w.locks[KeyOf(w.rows[n])].expires.None? || w.now + dt < w.locks[KeyOf(w.rows[n])].expires.value)
  {
    hide LocksHaveRows, LabelledHaveRows, HistoryIsSettled, KeyOf, HolderOf;
  }

  // A deploy whose lock lapses does not keep a second one of the same app from starting.
  lemma LapsedLockAdmitsSecond(w: World, n: nat, dt: nat, q: Request, r: RequestReplies)
    requires Inv(w) && n in w.rows && KeyOf(w.rows[n]) !in Tick(w, dt).locks
    requires LockKey(q.environment, q.app) == KeyOf(w.rows[n])
    requires r.accepted && CreatedNumber(w, ParamsOf(q), r.create).Some?
    ensures var w' := RequestDeploy(Tick(w, dt), q, r); var m := r.create.number;
      m != n && m in w'.rows && n in w'.rows && KeyOf(w'.rows[m]) == KeyOf(w'.rows[n])
  {
    hide LockKey, PullRequest.Body, Sanitize.TagIsSafe;
    var v := Tick(w, dt);
    LaunchIsLaunch(v, q, q.requesterID, r.create.number, r);
  }

  // ReleaseLock does not look at the holder: ending one of two deploys under the same key
  // takes the lock away from both.
  lemma EndingUnlocksBoth(w: World, m: nat, n: nat, t: EventType, labelRemoved: bool)
    requires m in w.rows && n in w.rows && m != n && KeyOf(w.rows[m]) == KeyOf(w.rows[n])
    ensures var w' := EndWith(w, n, t, labelRemoved);
      m in w'.rows && w'.rows[m] == w.rows[m] && n !in w'.rows && KeyOf(w.rows[m]) !in w'.locks
    ensures EndWith(w, n, t, labelRemoved).now == w.now
  {
    hide KeyOf;
  }

  lemma FreeKeyAdmits(w: World, m: nat, q: Request, r: RequestReplies)
    requires m in w.rows && m in w.prs && KeyOf(w.rows[m]) == LockKey(q.environment, q.app)
    requires KeyOf(w.rows[m]) !in w.locks
    requires r.accepted && CreatedNumber(w, ParamsOf(q), r.create).Some?
    ensures var w' := RequestDeploy(w, q, r); var k := r.create.number;
      k != m && k in w'.rows && m in w'.rows && KeyOf(w'.rows[k]) == KeyOf(w'.rows[m])
  {
    hide LockKey, PullRequest.Body, Sanitize.TagIsSafe;
    LaunchIsLaunch(w, q, q.requesterID, r.create.number, r);
  }

  lemma SecondHoldsLock(w: World, n: nat, q: Request, r: RequestReplies)
    requires n in w.rows && n in w.prs && KeyOf(w.rows[n]) == LockKey(q.environment, q.app)
    requires KeyOf(w.rows[n]) !in w.locks && w.rows[n].requestedAt < w.now && q.requesterID != ""
    requires r.accepted && CreatedNumber(w, ParamsOf(q), r.create).Some?
    ensures var w' := RequestDeploy(w, q, r); var m := r.create.number;
      && m in w'.rows && n in w'.rows && w'.rows[n] == w.rows[n]
      && n in w'.prs && m in w'.prs && HoldsItsLock(w', m) && !HoldsItsLock(w', n)
      && w'.rows.Keys == w.rows.Keys + {m}
  {
    hide LockKey, PullRequest.Body, Sanitize.TagIsSafe;
  }

  // A lapse therefore does not end with a second deploy. When the first one is rejected, the
  // lock that goes is the one that the second one took and still needs, and a third one gets in.
  lemma LapseTakesOthersLock(w: World, n: nat, dt: nat, q: Request, r: RequestReplies, labelRemoved: bool,
                             third: Request, s: RequestReplies)
    requires Inv(w) && n in w.rows && KeyOf(w.rows[n]) !in Tick(w, dt).locks && w.rows[n].requestedAt < w.now + dt
    requires LockKey(q.environment, q.app) == KeyOf(w.rows[n]) == LockKey(third.environment, third.app)
    requires q.requesterID != "" && r.accepted && CreatedNumber(w, ParamsOf(q), r.create).Some?
    requires var w3 := Reject(RequestDeploy(Tick(w, dt), q, r), n, true, labelRemoved);
      s.accepted && CreatedNumber(w3, ParamsOf(third), s.create).Some?
    ensures var w2 := RequestDeploy(Tick(w, dt), q, r);
      var w3 := Reject(w2, n, true, labelRemoved);
      var w4 := RequestDeploy(w3, third, s);
      var m, k := r.create.number, s.create.number;
      && m in w2.rows && HoldsItsLock(w2, m)
      && m in w3.rows && KeyOf(w3.rows[m]) !in w3.locks
      && !(exists e :: e in w2.rows && e !in w3.rows && HoldsItsLock(w2, e))
      && k != m && k in w4.rows && m in w4.rows && KeyOf(w4.rows[k]) == KeyOf(w4.rows[m])
  {
    var v := Tick(w, dt);
    var w2 := RequestDeploy(v, q, r);
    var m := r.create.number;
    LapsedLockAdmitsSecond(w, n, dt, q, r);
    SecondHoldsLock(v, n, q, r);
    EndingUnlocksBoth(w2, m, n, Rejected, labelRemoved);
    EndingKeepsOthers(w2, n, Rejected, labelRemoved);
    hide RequestDeploy, EndWith, LockKey, KeyOf, HoldsItsLock, Inv, Tick, CreatedNumber;
    FreeKeyAdmits(EndWith(w2, n, Rejected, labelRemoved), m, third, s);
  }

  lemma EndingKeepsOthers(w: World, n: nat, t: EventType, labelRemoved: bool)
    requires n in w.rows
    ensures var w' := EndWith(w, n, t, labelRemoved); w'.rows == w.rows - {n} && w'.prs.Keys == w.prs.Keys
  {
    hide KeyOf;
  }

  // The lock of a deploy is gone once its TTL is over, whether the deploy has ended or not.
  lemma WaitingLosesLock(w: World, q: Request, r: RequestReplies, dt: nat)
    requires LockKey(q.environment, q.app) !in w.locks
    requires r.accepted && CreatedNumber(w, ParamsOf(q), r.create).Some?
    requires 0 < q.lockTTL <= dt
    ensures var w' := Tick(RequestDeploy(w, q, r), dt); var n := r.create.number;
      && n in w'.rows && KeyOf(w'.rows[n]) == LockKey(q.environment, q.app) && KeyOf(w'.rows[n]) !in w'.locks
      && w'.now == w.now + dt && w'.rows[n].expiresAt == w.now + q.staleDuration
  {
    hide LockKey, PullRequest.Body, Sanitize.TagIsSafe;
  }

  // With the default durations this happens: from 5 minutes on, the lock of a deploy that
  // is not due before 2 hours is gone.
  lemma DefaultLockLapses(w: World, q: Request, r: RequestReplies, dt: nat)
    requires LockKey(q.environment, q.app) !in w.locks
    requires r.accepted && CreatedNumber(w, ParamsOf(q), r.create).Some?
    requires q.lockTTL == DEFAULT_LOCK_TTL && q.staleDuration == DEFAULT_STALE_DURATION
    requires DEFAULT_LOCK_TTL <= dt < DEFAULT_STALE_DURATION
    ensures var w' := Tick(RequestDeploy(w, q, r), dt); var n := r.create.number;
      n in w'.rows && KeyOf(w'.rows[n]) !in w'.locks && !IsExpired(w'.rows[n], w'.now)
  {
    hide LockKey, PullRequest.Body, Sanitize.TagIsSafe;
  }
}
