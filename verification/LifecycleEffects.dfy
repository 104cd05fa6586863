/** What the steps do to the whole state, told from the state and the replies alone. */
module LifecycleEffects {
  import opened Wrappers
  import opened Lifecycle
  import opened SingleFlight
  import opened LifecycleOutcomes
  import opened MergeAttempts
  import PullRequest
  import Sanitize

  // --- many deploys that end in one step ---

  // One of these deploys holds this lock.
  ghost predicate IsLockOfOne(w: World, gone: set<nat>, key: string) {
    exists n :: n in gone && n in w.rows && LockKey(w.rows[n].environment, w.rows[n].app) == key
  }

  // These deploys are over, each with its pull request in the given status: their rows and
  // their locks are gone, and all else but the history is as it was.
  ghost predicate AreOver(w: World, w': World, ends: map<nat, PRStatus>, unlabelled: set<nat>) {
    && w'.now == w.now
    && w'.rows == w.rows - ends.Keys
    && (forall k :: k in w'.locks <==> k in w.locks && !IsLockOfOne(w, ends.Keys, k))
    && (forall k | k in w'.locks :: w'.locks[k] == w.locks[k])
    && w'.prs.Keys == w.prs.Keys
    && (forall n | n in w.prs :: w'.prs[n] ==
          if n in ends
          then PR(ends[n], LabelsAfter(w.prs[n], n in unlabelled), w.prs[n].body, w.prs[n].createdAt)
          else w.prs[n])
  }

  lemma NoneIsOver(w: World, unlabelled: set<nat>)
    ensures AreOver(w, w, map[], unlabelled)
  {
    assert w.rows - {} == w.rows;
  }

  // Deploy n ends after the others.
  lemma OneMoreIsOver(w: World, v: World, v': World, ends: map<nat, PRStatus>, unlabelled: set<nat>,
                      n: nat, status: PRStatus)
    requires AreOver(w, v, ends, unlabelled) && n in w.prs && n in w.rows && n !in ends
    requires IsOver(v, v', n, status, n in unlabelled)
    ensures AreOver(w, v', ends[n := status], unlabelled)
  {
    hide LockKey, LabelsAfter;
    var ends' := ends[n := status];
    assert ends'.Keys == ends.Keys + {n};
    assert v.rows[n] == w.rows[n] && v.prs[n] == w.prs[n];
    forall k ensures IsLockOfOne(w, ends'.Keys, k) <==>
      IsLockOfOne(w, ends.Keys, k) || LockKey(w.rows[n].environment, w.rows[n].app) == k
    {
    }
    hide IsLockOfOne;
    assert v'.rows == w.rows - ends'.Keys;
  }

  // --- recovery ---

  // Only a listed deploy that was left in the merging state is recovered, and only when
  // GitHub merges its pull request.
  predicate IsRecovered(w: World, order: seq<nat>, replies: map<nat, MergeReply>, n: nat) {
    && n in order && n in replies && replies[n].Accepted?
    && n in w.rows && w.rows[n].state == Merging
    && n in w.prs && w.prs[n].status.Open?
  }

  ghost function RecoveredAs(w: World, order: seq<nat>, replies: map<nat, MergeReply>): (ends: map<nat, PRStatus>)
    ensures forall n :: n in ends <==> IsRecovered(w, order, replies, n)
    ensures forall n | n in ends :: IsRecovered(w, order, replies, n) && ends[n] == Merged(replies[n].sha, Bot)
  {
    map n | n in order && IsRecovered(w, order, replies, n) :: Merged(replies[n].sha, Bot)
  }

  lemma RecoverOneIs(v: World, n: nat, replies: map<nat, MergeReply>, l: bool)
    requires n in replies
    ensures var v' := RecoverOne(v, n, replies[n], l);
      && v'.history == v.history
      && if IsRecovered(v, [n], replies, n) then IsOver(v, v', n, Merged(replies[n].sha, Bot), l) else v' == v
  {
    hide LockKey;
    if IsRecovered(v, [n], replies, n) {
      RetireIsOver(v, MergePR(v, n, replies[n]), n, l);
    }
  }

  lemma RecoveredNext(w: World, v: World, before: seq<nat>, n: nat, replies: map<nat, MergeReply>, unlabelled: set<nat>)
    requires AreOver(w, v, RecoveredAs(w, before, replies), unlabelled)
    ensures var ends := RecoveredAs(w, before, replies); var ends' := RecoveredAs(w, before + [n], replies);
      if IsRecovered(v, [n], replies, n)
      then n !in ends && n in w.rows && n in w.prs && ends' == ends[n := Merged(replies[n].sha, Bot)]
      else ends' == ends
  {
  }

  // RecoverStuck merges what it recovers, removes its row and its lock, writes no history
  // entry, and leaves all else as it was.
  lemma {:induction false} RecoveryIsExact(w: World, order: seq<nat>, replies: map<nat, MergeReply>,
                                           unlabelled: set<nat>)
    ensures var w' := RecoverAll(w, order, replies, unlabelled);
      AreOver(w, w', RecoveredAs(w, order, replies), unlabelled) && w'.history == w.history
    decreases |order|
  {
    if order == [] {
      NoneIsOver(w, unlabelled);
      assert RecoveredAs(w, order, replies) == map[];
    } else {
      var n := order[|order| - 1];
      var before := order[..|order| - 1];
      assert order == before + [n];
      RecoveryIsExact(w, before, replies, unlabelled);
      var v := RecoverAll(w, before, replies, unlabelled);
      RecoveredNext(w, v, before, n, replies, unlabelled);
      hide LockKey, IsOver, RecoverOne, AreOver, RecoveredAs;
      if n in replies {
        RecoverOneIs(v, n, replies, n in unlabelled);
        hide IsRecovered;
        var w' := RecoverOne(v, n, replies[n], n in unlabelled);
        if IsRecovered(v, [n], replies, n) {
          OneMoreIsOver(w, v, w', RecoveredAs(w, before, replies), unlabelled, n, Merged(replies[n].sha, Bot));
        }
      }
    }
  }

  // A deploy that nobody approved keeps its row, its lock and its pull request.
  lemma RecoveryLeavesPending(w: World, order: seq<nat>, replies: map<nat, MergeReply>, unlabelled: set<nat>, n: nat)
    requires Inv(w) && n in w.rows && w.rows[n].state == Pending
    ensures var w' := RecoverAll(w, order, replies, unlabelled); var key := KeyOf(w.rows[n]);
      && n in w'.rows && w'.rows[n] == w.rows[n]
      && key in w.locks && key in w'.locks && w'.locks[key] == w.locks[key]
      && n in w.prs && n in w'.prs && w'.prs[n] == w.prs[n]
  {
    RecoveryIsExact(w, order, replies, unlabelled);
    RowIsLocked(w, n);
    forall m | m in w.rows && m != n ensures KeyOf(w.rows[m]) != KeyOf(w.rows[n]) {
      RowsAreDistinct(w, m, n);
    }
    hide Inv, LockKey, RecoverAll;
  }

  // --- rejection, cancellation and expiry ---

  function ClosedStatus(pr: PR): PRStatus {
    if pr.status.Open? then Closed else pr.status
  }

  // Deploy n ends without a merge: its pull request is closed and one entry is written.
  ghost predicate IsEnded(w: World, w': World, n: nat, t: EventType, labelRemoved: bool) {
    && n in w.prs && IsOver(w, w', n, ClosedStatus(w.prs[n]), labelRemoved)
    && var d := w.rows[n];
       w'.history == w.history
         + [HistoryEntry(t, d.app, d.environment, d.tag, d.prNumber, d.requesterID, w.now, "", d.slack)]
  }

  lemma EndWithEnds(w: World, n: nat, t: EventType, labelRemoved: bool)
    requires n in w.rows && n in w.prs
    ensures IsEnded(w, EndWith(w, n, t, labelRemoved), n, t, labelRemoved)
  {
    hide LockKey;
    RetireIsOver(w, ClosePR(w, n), n, labelRemoved);
  }

  // A rejection ends the deploy exactly when a live row meets a member of the team.
  lemma RejectIsExact(w: World, n: nat, authorized: bool, labelRemoved: bool)
    requires Inv(w)
    ensures var w' := Reject(w, n, authorized, labelRemoved);
      if n in w.rows && authorized then IsEnded(w, w', n, Rejected, labelRemoved) else w' == w
  {
    hide IsEnded, EndWith;
    if n in w.rows {
      EndWithEnds(w, n, Rejected, labelRemoved);
    }
  }

  // Only the requester cancels, and a deploy that an ECR push asked for where that is allowed.
  lemma CancelIsExact(w: World, n: nat, userID: string, allowECR: bool, labelRemoved: bool)
    requires Inv(w)
    ensures var w' := Cancel(w, n, userID, allowECR, labelRemoved);
      if n in w.rows && (w.rows[n].requesterID == userID || (allowECR && w.rows[n].requesterID == ""))
      then IsEnded(w, w', n, Cancelled, labelRemoved) else w' == w
  {
    hide IsEnded, EndWith;
    if n in w.rows {
      EndWithEnds(w, n, Cancelled, labelRemoved);
    }
  }

  // The deploys that are due, each with the status that its pull request is left in.
  ghost function DueAs(w: World): (ends: map<nat, PRStatus>)
    requires forall n :: n in w.rows ==> n in w.prs
    ensures forall n :: n in ends <==> n in w.rows && w.rows[n].state == Pending && w.rows[n].expiresAt <= w.now
    ensures forall n | n in ends :: n in w.prs && ends[n] == ClosedStatus(w.prs[n])
  {
    map n | n in w.rows && w.rows[n].state == Pending && w.rows[n].expiresAt <= w.now :: ClosedStatus(w.prs[n])
  }

  // After the old entries, one for each of these deploys, in this order.
  ghost predicate AddsExpired(w: World, w': World, order: seq<nat>) {
    && w.history <= w'.history && |w'.history| == |w.history| + |order|
    && forall i :: 0 <= i < |order| ==> order[i] in w.rows && var d := w.rows[order[i]];
         w'.history[|w.history| + i]
           == HistoryEntry(Expired, d.app, d.environment, d.tag, d.prNumber, d.requesterID, w.now, "", d.slack)
  }

  lemma AddsOneMore(w: World, v: World, v': World, before: seq<nat>, n: nat, l: bool)
    requires AddsExpired(w, v, before) && IsEnded(v, v', n, Expired, l)
    requires n in w.rows && n in v.rows && v.rows[n] == w.rows[n] && v.now == w.now
    ensures AddsExpired(w, v', before + [n])
  {
    hide IsOver;
  }

  lemma EndedIsOver(v: World, v': World, n: nat, t: EventType, l: bool)
    requires IsEnded(v, v', n, t, l)
    ensures n in v.prs && IsOver(v, v', n, ClosedStatus(v.prs[n]), l)
  {
  }

  lemma LastEnds(w: World, v: World, ends: map<nat, PRStatus>, n: nat, unlabelled: set<nat>)
    requires forall m :: m in w.rows ==> m in w.prs
    requires n in w.rows && n !in ends && AreOver(w, v, ends, unlabelled)
    ensures n in v.rows && v.rows[n] == w.rows[n] && n in v.prs && v.prs[n] == w.prs[n] && v.now == w.now
  {
  }

  lemma ExpireNext(w: World, v: World, before: seq<nat>, ends: map<nat, PRStatus>, n: nat, unlabelled: set<nat>)
    requires forall m :: m in w.rows ==> m in w.prs
    requires n in w.rows && n !in ends && AreOver(w, v, ends, unlabelled) && AddsExpired(w, v, before)
    ensures var v' := ExpireOne(v, n, n in unlabelled);
      AreOver(w, v', ends[n := ClosedStatus(w.prs[n])], unlabelled) && AddsExpired(w, v', before + [n])
  {
    LastEnds(w, v, ends, n, unlabelled);
    hide ClosedStatus, AreOver, AddsExpired, EndWith, IsEnded, IsOver;
    EndWithEnds(v, n, Expired, n in unlabelled);
    var v' := EndWith(v, n, Expired, n in unlabelled);
    EndedIsOver(v, v', n, Expired, n in unlabelled);
    OneMoreIsOver(w, v, v', ends, unlabelled, n, ClosedStatus(w.prs[n]));
    AddsOneMore(w, v, v', before, n, n in unlabelled);
  }

  lemma {:induction false} ExpiryIsExact(w: World, order: seq<nat>, ends: map<nat, PRStatus>, unlabelled: set<nat>)
    requires forall n :: n in w.rows ==> n in w.prs
    requires forall i, j :: 0 <= i < j < |order| ==> order[i] != order[j]
    requires forall n :: n in order <==> n in ends
    requires forall n | n in ends :: n in w.rows && ends[n] == ClosedStatus(w.prs[n])
    ensures var w' := ExpireAll(w, order, unlabelled);
      AreOver(w, w', ends, unlabelled) && AddsExpired(w, w', order)
    decreases |order|
  {
    hide ClosedStatus, AreOver, AddsExpired, ExpireOne;
    if order == [] {
      NoneIsOver(w, unlabelled);
      NoneIsAdded(w);
      assert ends == map[];
    } else {
      var n := order[|order| - 1];
      var before := order[..|order| - 1];
      assert order == before + [n] && n in order;
      assert forall m :: m in before <==> m in order && m != n;
      var ends' := ends - {n};
      ExpiryIsExact(w, before, ends', unlabelled);
      ExpireNext(w, ExpireAll(w, before, unlabelled), before, ends', n, unlabelled);
      assert ends'[n := ends[n]] == ends;
    }
  }

  lemma NoneIsAdded(w: World)
    ensures AddsExpired(w, w, [])
  {
  }

  // A sweep ends exactly the pending deploys that are due, each with one entry, in the order
  // in which they were due.
  lemma SweepExpiresExactly(w: World, order: seq<nat>, unlabelled: set<nat>)
    requires Inv(w) && IsExpiredQuery(w, order)
    ensures forall n :: n in w.rows ==> n in w.prs
    ensures var w' := ExpireAll(w, order, unlabelled);
      AreOver(w, w', DueAs(w), unlabelled) && AddsExpired(w, w', order)
  {
    ExpiryIsExact(w, order, DueAs(w), unlabelled);
  }

  // --- requests ---

  // The request is accepted, its app is free, and GitHub makes pull request n for it.
  predicate IsGranted(w: World, q: Request, r: RequestReplies, n: nat) {
    && r.accepted && ("lock:" + q.environment + "/" + q.app) !in w.locks
    && r.create == Created(n) && n !in w.prs && Sanitize.TagIsSafe(q.tag)
  }

  // Deploy n waits for approval: its lock, its row and its pull request are the only news.
  ghost predicate Awaits(w: World, w': World, q: Request, r: RequestReplies, n: nat, holder: string) {
    && w'.locks == w.locks[("lock:" + q.environment + "/" + q.app) :=
         Lock(holder, w.now, if q.lockTTL > 0 then Some(w.now + q.lockTTL) else None)]
    && w'.rows == w.rows[n := PendingDeploy(
         q.app, q.environment, q.tag, n, q.requester, q.requesterID, q.approverID, q.reason,
         w.now, w.now + q.staleDuration, Pending, if r.posted.Some? then r.posted.value else SlackHandle("", ""))]
    && w'.prs == w.prs[n := PR(
         Open, if r.labelled then {DeployLabel, PendingLabel} else {},
         PullRequest.Body(PullRequest.Params(
           q.app, q.environment, q.tag, q.requester, q.reason, q.requesterID)),
         w.now)]
    && w'.history == w.history && w'.now == w.now
  }

  lemma DecorateAwaits(w: World, w1: World, q: Request, r: RequestReplies, n: nat, holder: string)
    requires w1 == AcquireLock(w, LockKey(q.environment, q.app), holder, q.lockTTL)
    ensures Awaits(w, Decorate(Launch(w1, q, n), n, r), q, r, n, holder)
  {
    hide PullRequest.Body;
    var v := Launch(w1, q, n);
    var v' := Decorate(v, n, r);
    assert v.rows[n] == RowOf(q, n, w.now);
    assert {} + {DeployLabel, PendingLabel} == {DeployLabel, PendingLabel};
    assert v'.rows == w.rows[n := v'.rows[n]];
    assert v'.prs == w.prs[n := v'.prs[n]];
  }

  lemma TakenAndReleased(w: World, key: string, holder: string, ttl: int)
    requires key !in w.locks
    ensures ReleaseLock(AcquireLock(w, key, holder, ttl), key) == w
  {
    assert ReleaseLock(AcquireLock(w, key, holder, ttl), key).locks == w.locks;
  }

  // A request that is not granted leaves nothing behind.
  lemma RequestIsExact(w: World, q: Request, r: RequestReplies)
    ensures var w' := RequestDeploy(w, q, r);
      if r.create.Created? && IsGranted(w, q, r, r.create.number)
      then Awaits(w, w', q, r, r.create.number, q.requesterID) else w' == w
  {
    var key := LockKey(q.environment, q.app);
    hide Awaits, Decorate, Launch, Sanitize.TagIsSafe;
    if key !in w.locks {
      TakenAndReleased(w, key, q.requesterID, q.lockTTL);
      if r.create.Created? {
        DecorateAwaits(w, AcquireLock(w, key, q.requesterID, q.lockTTL), q, r, r.create.number, q.requesterID);
      }
    }
  }

  // A push that is not deployed at once waits like a request of nobody.
  lemma PushIsExact(w: World, q: Request, r: RequestReplies, p: PushReplies)
    requires !p.autoDeploy
    ensures var w' := ECRPush(w, q, r, p);
      if r.create.Created? && IsGranted(w, q, r, r.create.number)
      then Awaits(w, w', q.(requester := "ECR", requesterID := "", approverID := ""), r, r.create.number, "ECR")
      else w' == w
  {
    var key := LockKey(q.environment, q.app);
    hide Awaits, Decorate, Launch, Sanitize.TagIsSafe;
    if key !in w.locks {
      TakenAndReleased(w, key, ECR_HOLDER, q.lockTTL);
      if r.create.Created? {
        DecorateAwaits(w, AcquireLock(w, key, ECR_HOLDER, q.lockTTL), ECRRequest(q), r, r.create.number, ECR_HOLDER);
      }
    }
  }

  // The pull request of an auto-deploy is the only news, next to the entry of a merge.
  ghost predicate Leaves(w: World, w': World, q: Request, n: nat, status: PRStatus) {
    && w'.rows == w.rows && w'.now == w.now
    && w'.prs == w.prs[n := PR(
         status, {},
         PullRequest.Body(PullRequest.Params(q.app, q.environment, q.tag, "ECR", q.reason, "")),
         w.now)]
  }

  ghost predicate AutoDeploys(w: World, w': World, q: Request, n: nat, sha: string) {
    && Leaves(w, w', q, n, Merged(sha, Bot)) && w'.locks == w.locks
    && w'.history == w.history
         + [HistoryEntry(Approved, q.app, q.environment, q.tag, n, "", w.now, sha, SlackHandle("", ""))]
  }

  ghost predicate GivesUp(w: World, w': World, q: Request, n: nat) {
    Leaves(w, w', q, n, Closed) && w'.locks == w.locks && w'.history == w.history
  }

  // Cut off: the pull request stays open, and the lock is held until it lapses.
  ghost predicate Abandons(w: World, w': World, q: Request, n: nat) {
    && Leaves(w, w', q, n, Open) && w'.history == w.history
    && w'.locks == w.locks[("lock:" + q.environment + "/" + q.app) :=
         Lock("ECR", w.now, if q.lockTTL > 0 then Some(w.now + q.lockTTL) else None)]
  }

  // The world in which the merge of an auto-deploy starts.
  ghost function Started(w: World, q: Request, n: nat): World {
    CreateDeployPR(AcquireLock(w, LockKey(q.environment, q.app), ECR_HOLDER, q.lockTTL), ParamsOf(ECRRequest(q)), n)
  }

  lemma MergedAutoDeploys(w: World, q: Request, n: nat, sha: string, l: bool)
    requires LockKey(q.environment, q.app) !in w.locks
    ensures var w2 := Started(w, q, n);
      var w3 := w2.(prs := w2.prs[n := w2.prs[n].(status := Merged(sha, Bot))]);
      AutoDeploys(w, PushHistory(ReleaseLock(RemoveLabel(w3, n, PendingLabel, l), LockKey(q.environment, q.app)),
                                 ECRHistory(q, n, w.now, sha)), q, n, sha)
  {
    hide PullRequest.Body, LockKey;
    assert w.locks[LockKey(q.environment, q.app) := Lock(ECR_HOLDER, w.now, None)] - {LockKey(q.environment, q.app)}
        == w.locks;
    assert {} - {PendingLabel} == {};
  }

  lemma ClosedGivesUp(w: World, q: Request, n: nat)
    requires LockKey(q.environment, q.app) !in w.locks
    ensures GivesUp(w, ReleaseLock(ClosePR(Started(w, q, n), n), LockKey(q.environment, q.app)), q, n)
  {
    hide PullRequest.Body, LockKey;
    var w' := ReleaseLock(ClosePR(Started(w, q, n), n), LockKey(q.environment, q.app));
    assert w'.locks == w.locks;
  }

  lemma StartedIsAbandoned(w: World, q: Request, n: nat)
    ensures Abandons(w, Started(w, q, n), q, n)
    ensures n in Started(w, q, n).prs && Started(w, q, n).prs[n].status.Open? && Started(w, q, n).now == w.now
  {
    hide PullRequest.Body;
  }

  lemma AutoDeployIs(w: World, q: Request, n: nat, m: MergeReplies, l: bool)
    requires LockKey(q.environment, q.app) !in w.locks
    ensures var w' := AutoDeploy(Started(w, q, n), q, n, m, l);
      && (forall sha :: MergesAs(true, m, sha) ==> AutoDeploys(w, w', q, n, sha))
      && (EndsAsNoOp(true, m) ==> GivesUp(w, w', q, n))
      && (forall e :: FailsWith(true, m, e) ==> GivesUp(w, w', q, n))
      && (IsCut(true, m) ==> Abandons(w, w', q, n))
  {
    StartedIsAbandoned(w, q, n);
    AttemptsAre(Started(w, q, n), n, m);
    ClosedGivesUp(w, q, n);
    hide LockKey, MergeWithRetry, MergesAs, EndsAsNoOp, FailsWith, IsCut, AutoDeploys, GivesUp, Abandons, Started;
    hide PushHistory, ECRHistory, ReleaseLock, RemoveLabel, ClosePR;
    match MergeWithRetry(Started(w, q, n), n, m).1
    case MergedAs(sha) => MergedAutoDeploys(w, q, n, sha, l);
    case _ =>
  }

  lemma PushAutoDeploys(w: World, q: Request, r: RequestReplies, p: PushReplies)
    requires p.autoDeploy
    ensures ECRPush(w, q, r, p) ==
      if r.create.Created? && IsGranted(w, q, r, r.create.number)
      then AutoDeploy(Started(w, q, r.create.number), q, r.create.number, p.merge, p.labelRemoved) else w
  {
    var key := LockKey(q.environment, q.app);
    hide AutoDeploy, Sanitize.TagIsSafe, CreateDeployPR, PullRequest.Body;
    if key !in w.locks {
      TakenAndReleased(w, key, ECR_HOLDER, q.lockTTL);
    }
  }

  // An auto-deploy ends as GitHub's replies to its merge attempts say.
  lemma AutoDeployIsExact(w: World, q: Request, r: RequestReplies, p: PushReplies)
    requires p.autoDeploy
    ensures var w' := ECRPush(w, q, r, p); var m := p.merge;
      if r.create.Created? && IsGranted(w, q, r, r.create.number) then
        && (forall sha :: MergesAs(true, m, sha) ==> AutoDeploys(w, w', q, r.create.number, sha))
        && (EndsAsNoOp(true, m) ==> GivesUp(w, w', q, r.create.number))
        && (forall e :: FailsWith(true, m, e) ==> GivesUp(w, w', q, r.create.number))
        && (IsCut(true, m) ==> Abandons(w, w', q, r.create.number))
      else w' == w
  {
    PushAutoDeploys(w, q, r, p);
    if r.create.Created? && IsGranted(w, q, r, r.create.number) {
      assert LockKey(q.environment, q.app) !in w.locks;
      hide *;
      AutoDeployIs(w, q, r.create.number, p.merge, p.labelRemoved);
    }
  }

  // --- reconciliation and time ---

  // Each listed pull request without a row whose body can be read gets one, and a label.
  lemma ReconcileIsExact(w: World, listed: set<nat>, labelled: set<nat>, staleDuration: int)
    ensures var w' := Reconcile(w, listed, labelled, staleDuration);
      && w'.now == w.now && w'.locks == w.locks && w'.history == w.history && w'.prs.Keys == w.prs.Keys
      && (forall n :: n in w'.rows <==>
            n in w.rows || (n in listed && n in w.prs && PullRequest.ParsePRMeta(w.prs[n].body).Some?))
      && (forall n | n in w.rows :: w'.rows[n] == w.rows[n])
      && (forall n | n in w'.rows && n !in w.rows ::
            var pr := w.prs[n]; var m := PullRequest.ParsePRMeta(pr.body).value;
            w'.rows[n] == PendingDeploy(
              m.app, m.environment, m.tag, n, m.requesterSlackID, m.requesterSlackID, "", "recovered by reconciler",
              pr.createdAt, if pr.createdAt + staleDuration < w.now then w.now + 60 else pr.createdAt + staleDuration,
              Pending, SlackHandle("", "")))
      && (forall n | n in w.prs :: w'.prs[n] ==
            if n in w'.rows && n !in w.rows && n in labelled
            then w.prs[n].(labels := w.prs[n].labels + {PendingLabel}) else w.prs[n])
  {
    hide PullRequest.ParsePRMeta;
  }

  // Time drops the locks that lapse, and does nothing else.
  lemma TickIsExact(w: World, dt: nat)
    ensures var w' := Tick(w, dt);
      && w' == w.(now := w.now + dt, locks := w'.locks)
      && (forall k :: k in w'.locks <==>
            k in w.locks && !(w.locks[k].expires.Some? && w.locks[k].expires.value <= w.now + dt))
      && (forall k | k in w'.locks :: w'.locks[k] == w.locks[k])
  {
  }
}
