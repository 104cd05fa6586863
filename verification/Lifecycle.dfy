/**
 The deploy lifecycle as steps over the whole state: deploy locks, pending rows, pull
 requests and history. Every handler is one step. What Slack, GitHub and the identity
 lookups answer is part of the step; store calls and ClosePR succeed.
 */
module Lifecycle {
  import opened Wrappers
  import PullRequest
  import MetaJson
  import Sanitize

  // --- state ---

  // The value and the lapse of a lock key; takenAt is the time of the SET NX.
  datatype Lock = Lock(holder: string, takenAt: int, expires: Option<int>)

  datatype DeployState = Pending | Merging

  datatype SlackHandle = SlackHandle(channel: string, ts: string)

  const NO_HANDLE := SlackHandle("", "")

  datatype PendingDeploy = PendingDeploy(
    app: string,
    environment: string,
    tag: string,
    prNumber: nat,
    requester: string,
    requesterID: string,
    approverID: string,
    reason: string,
    requestedAt: int,
    expiresAt: int,
    state: DeployState,
    slack: SlackHandle)

  datatype EventType = Approved | Rejected | Cancelled | Expired

  datatype HistoryEntry = HistoryEntry(
    eventType: EventType,
    app: string,
    environment: string,
    tag: string,
    prNumber: nat,
    requesterID: string,
    completedAt: int,
    gitopsCommitSHA: string,
    slack: SlackHandle)

  datatype Merger = Bot | Human

  datatype PRStatus = Open | Closed | Merged(sha: string, mergedBy: Merger)

  datatype Label = DeployLabel | PendingLabel

  datatype PR = PR(status: PRStatus, labels: set<Label>, body: string, createdAt: int)

  datatype World = World(
    now: int,
    locks: map<string, Lock>,
    rows: map<nat, PendingDeploy>,
    prs: map<nat, PR>,
    history: seq<HistoryEntry>)

  const EMPTY := World(0, map[], map[], map[], [])

  // deployLockKey
  function LockKey(env: string, app: string): string {
    "lock:" + env + "/" + app
  }

  function KeyOf(d: PendingDeploy): string { LockKey(d.environment, d.app) }

  // --- single effects ---

  function AcquireLock(w: World, key: string, holder: string, ttl: int): World {
    w.(locks := w.locks[key := Lock(holder, w.now, if ttl > 0 then Some(w.now + ttl) else None)])
  }

  function ReleaseLock(w: World, key: string): World { w.(locks := w.locks - {key}) }

  function SetRow(w: World, d: PendingDeploy): World { w.(rows := w.rows[d.prNumber := d]) }

  function DeleteRow(w: World, n: nat): World { w.(rows := w.rows - {n}) }

  function UpdateState(w: World, n: nat, s: DeployState): World {
    if n in w.rows then w.(rows := w.rows[n := w.rows[n].(state := s)]) else w
  }

  function SetSlackHandle(w: World, n: nat, h: SlackHandle): World {
    if n in w.rows then w.(rows := w.rows[n := w.rows[n].(slack := h)]) else w
  }

  function PushHistory(w: World, e: HistoryEntry): World { w.(history := w.history + [e]) }

  function HistoryFromPending(d: PendingDeploy, t: EventType, now: int): HistoryEntry {
    HistoryEntry(t, d.app, d.environment, d.tag, d.prNumber, d.requesterID, now, "", d.slack)
  }

  function ClosePR(w: World, n: nat): World {
    if n in w.prs && w.prs[n].status.Open? then w.(prs := w.prs[n := w.prs[n].(status := Closed)]) else w
  }

  // ok is false when the call failed, which is only logged.
  function AddLabels(w: World, n: nat, labels: set<Label>, ok: bool): World {
    if ok && n in w.prs then w.(prs := w.prs[n := w.prs[n].(labels := w.prs[n].labels + labels)]) else w
  }

  function RemoveLabel(w: World, n: nat, l: Label, ok: bool): World {
    if ok && n in w.prs then w.(prs := w.prs[n := w.prs[n].(labels := w.prs[n].labels - {l})]) else w
  }

  datatype CreateReply = NoBranch | CreateFailed | NoChange | Created(number: nat)

  // The number of the pull request, when one is created.
  function CreatedNumber(w: World, p: PullRequest.Params, reply: CreateReply): Option<nat> {
    if reply.Created? && reply.number !in w.prs && Sanitize.TagIsSafe(p.tag) then Some(reply.number) else None
  }

  function CreateDeployPR(w: World, p: PullRequest.Params, n: nat): World {
    w.(prs := w.prs[n := PR(Open, {}, PullRequest.Body(p), w.now)])
  }

  // --- merging ---

  datatype MergeError = Conflict | CINotPassed | Draft | HeadModified | RateLimited | OtherError

  datatype MergeReply = Accepted(sha: string) | Refused(error: MergeError)

  // GitHub merges open pull requests only.
  function MergeResult(w: World, n: nat, reply: MergeReply): Result<string, MergeError> {
    match reply
    case Refused(e) => Err(e)
    case Accepted(sha) =>
      if n !in w.prs then Err(OtherError)
      else if w.prs[n].status.Open? then Ok(sha)
      else Err(Conflict)
  }

  function MergePR(w: World, n: nat, reply: MergeReply): World {
    var r := MergeResult(w, n, reply);
    if r.Ok? && n in w.prs then w.(prs := w.prs[n := w.prs[n].(status := Merged(r.value, Bot))]) else w
  }

  datatype RebaseReply = Rebased | RebaseNoChange | RebaseFailed

  // interrupted: the context is cancelled while waiting after the rebase.
  datatype MergeReplies = MergeReplies(
    first: MergeReply,
    branchOk: bool,
    rebase: RebaseReply,
    interrupted: bool,
    second: MergeReply)

  datatype MergeOutcome = MergedAs(sha: string) | NoOp | Failed(error: MergeError) | Interrupted

  function OutcomeOf(r: Result<string, MergeError>): MergeOutcome {
    match r case Ok(sha) => MergedAs(sha) case Err(e) => Failed(e)
  }

  // mergeWithRetry: merge, and on a conflict rebase and merge once more.
  function MergeWithRetry(w: World, n: nat, m: MergeReplies): (World, MergeOutcome) {
    var first := MergeResult(w, n, m.first);
    if first != Err(Conflict) then (MergePR(w, n, m.first), OutcomeOf(first))
    else if !m.branchOk || m.rebase.RebaseFailed? then (w, Failed(Conflict))
    else if m.rebase.RebaseNoChange? then (w, NoOp)
    else if m.interrupted then (w, Interrupted)
    else (MergePR(w, n, m.second), OutcomeOf(MergeResult(w, n, m.second)))
  }

  // --- asking for a deploy ---

  datatype Request = Request(
    app: string,
    environment: string,
    tag: string,
    requester: string,
    requesterID: string,
    approverID: string,
    reason: string,
    lockTTL: int,
    staleDuration: int)

  // accepted: membership, tag and app checks pass. posted: where Slack put the message.
  datatype RequestReplies = RequestReplies(
    accepted: bool,
    create: CreateReply,
    labelled: bool,
    posted: Option<SlackHandle>)

  function ParamsOf(q: Request): PullRequest.Params {
    PullRequest.Params(q.app, q.environment, q.tag, q.requester, q.reason, q.requesterID)
  }

  function RowOf(q: Request, n: nat, now: int): PendingDeploy {
    PendingDeploy(q.app, q.environment, q.tag, n, q.requester, q.requesterID, q.approverID, q.reason,
                  now, now + q.staleDuration, Pending, NO_HANDLE)
  }

  // The labels and the handle of the message that asks for approval.
  function Decorate(w: World, n: nat, r: RequestReplies): World {
    var w1 := AddLabels(w, n, {DeployLabel, PendingLabel}, r.labelled);
    match r.posted case Some(h) => SetSlackHandle(w1, n, h) case None => w1
  }

  // The pull request and its row.
  function Launch(w: World, q: Request, n: nat): World {
    SetRow(CreateDeployPR(w, ParamsOf(q), n), RowOf(q, n, w.now))
  }

  // handleDeploySubmit and handleMentionDeploy: the user's ID is stored in the lock.
  function RequestDeploy(w: World, q: Request, r: RequestReplies): World {
    var key := LockKey(q.environment, q.app);
    if !r.accepted || key in w.locks then w
    else
      var w1 := AcquireLock(w, key, q.requesterID, q.lockTTL);
      match CreatedNumber(w1, ParamsOf(q), r.create)
      case None => ReleaseLock(w1, key)
      case Some(n) => Decorate(Launch(w1, q, n), n, r)
  }

  const ECR_HOLDER := PullRequest.ECR_REQUESTER
  const ECR_REQUESTER_ID := ""

  // An ECR push carries no user: the requester is fixed.
  function ECRRequest(q: Request): Request {
    q.(requester := ECR_HOLDER, requesterID := ECR_REQUESTER_ID, approverID := "")
  }

  function ECRHistory(q: Request, n: nat, now: int, sha: string): HistoryEntry {
    HistoryEntry(Approved, q.app, q.environment, q.tag, n, ECR_REQUESTER_ID, now, sha, NO_HANDLE)
  }

  // handleECRAutoDeploy and notifyECRAutoDeployFailed: no row is ever written. When the
  // context is cancelled the clean-up calls fail too.
  function AutoDeploy(w: World, q: Request, n: nat, m: MergeReplies, labelRemoved: bool): World {
    var key := LockKey(q.environment, q.app);
    var (w1, outcome) := MergeWithRetry(w, n, m);
    match outcome
    case MergedAs(sha) =>
      PushHistory(ReleaseLock(RemoveLabel(w1, n, PendingLabel, labelRemoved), key), ECRHistory(q, n, w.now, sha))
    case Interrupted => w1
    case _ => ReleaseLock(ClosePR(w1, n), key)
  }

  datatype PushReplies = PushReplies(autoDeploy: bool, merge: MergeReplies, labelRemoved: bool)

  // handleECRPush
  function ECRPush(w: World, q: Request, r: RequestReplies, p: PushReplies): World {
    var key := LockKey(q.environment, q.app);
    if !r.accepted || key in w.locks then w
    else
      var w1 := AcquireLock(w, key, ECR_HOLDER, q.lockTTL);
      var eq := ECRRequest(q);
      match CreatedNumber(w1, ParamsOf(eq), r.create)
      case None => ReleaseLock(w1, key)
      case Some(n) =>
        if p.autoDeploy then AutoDeploy(CreateDeployPR(w1, ParamsOf(eq), n), q, n, p.merge, p.labelRemoved)
        else Decorate(Launch(w1, eq, n), n, r)
  }

  // The merge attempts for pull request n, which ECRPush creates, are cut off: the clean-up
  // calls fail with them.
  predicate IsAbandoned(w: World, q: Request, r: RequestReplies, p: PushReplies) {
    var key := LockKey(q.environment, q.app);
    var params := ParamsOf(ECRRequest(q));
    var w1 := AcquireLock(w, key, ECR_HOLDER, q.lockTTL);
    r.accepted && key !in w.locks && p.autoDeploy &&
    match CreatedNumber(w1, params, r.create)
    case None => false
    case Some(n) => MergeWithRetry(CreateDeployPR(w1, params, n), n, p.merge).1 == Interrupted
  }

  // --- ending a deploy ---

  // What every ending does with the label, the lock and the row.
  function Retire(w: World, n: nat, labelRemoved: bool): World
    requires n in w.rows
  {
    DeleteRow(ReleaseLock(RemoveLabel(w, n, PendingLabel, labelRemoved), KeyOf(w.rows[n])), n)
  }

  function EndWith(w: World, n: nat, t: EventType, labelRemoved: bool): World
    requires n in w.rows
  {
    PushHistory(Retire(ClosePR(w, n), n, labelRemoved), HistoryFromPending(w.rows[n], t, w.now))
  }

  // handleRejectSubmit
  function Reject(w: World, n: nat, authorized: bool, labelRemoved: bool): World {
    if n in w.rows && authorized then EndWith(w, n, Rejected, labelRemoved) else w
  }

  predicate MayCancel(d: PendingDeploy, userID: string, allowECR: bool) {
    d.requesterID == userID || (allowECR && d.requesterID == "")
  }

  // doCancelDeploy
  function Cancel(w: World, n: nat, userID: string, allowECR: bool, labelRemoved: bool): World {
    if n in w.rows && MayCancel(w.rows[n], userID, allowECR) then EndWith(w, n, Cancelled, labelRemoved) else w
  }

  // retryInterrupted: the context is cancelled while waiting to merge a modified head.
  datatype ApproveReplies = ApproveReplies(
    authorized: bool,
    appKnown: bool,
    merge: MergeReplies,
    retryInterrupted: bool,
    third: MergeReply,
    labelRemoved: bool)

  function FinishApproved(w: World, n: nat, sha: string, labelRemoved: bool): World
    requires n in w.rows
  {
    PushHistory(Retire(w, n, labelRemoved),
                HistoryFromPending(w.rows[n], Approved, w.now).(gitopsCommitSHA := sha))
  }

  // closeNoOpPR
  function CloseNoOp(w: World, n: nat, labelRemoved: bool): World
    requires n in w.rows
  {
    Retire(ClosePR(w, n), n, labelRemoved)
  }

  // What handleApprove does with the outcome of the merge attempts.
  function Conclude(w: World, n: nat, outcome: MergeOutcome, r: ApproveReplies): World
    requires n in w.rows
  {
    match outcome
    case MergedAs(sha) => FinishApproved(w, n, sha, r.labelRemoved)
    case NoOp => CloseNoOp(w, n, r.labelRemoved)
    case Interrupted => w
    case Failed(e) =>
      if e != HeadModified then UpdateState(w, n, Pending)
      else if r.retryInterrupted then w
      else RetryMerge(w, n, r.third, r.labelRemoved)
  }

  // The head was modified: one more attempt, without a rebase.
  function RetryMerge(w: World, n: nat, reply: MergeReply, labelRemoved: bool): World
    requires n in w.rows
  {
    var w1 := MergePR(w, n, reply);
    match MergeResult(w, n, reply)
    case Err(_) => UpdateState(w1, n, Pending)
    case Ok(sha) => if sha == "" then w1 else FinishApproved(w1, n, sha, labelRemoved)
  }

  // handleApprove
  function Approve(w: World, n: nat, r: ApproveReplies): World {
    if !r.authorized || n !in w.rows then w
    else
      var w1 := UpdateState(w, n, Merging);
      if !r.appKnown then UpdateState(w1, n, Pending)
      else
        var (w2, outcome) := MergeWithRetry(w1, n, r.merge);
        Conclude(w2, n, outcome, r)
  }

  // --- the sweeper ---

  function ExpireOne(w: World, n: nat, labelRemoved: bool): World {
    if n in w.rows then EndWith(w, n, Expired, labelRemoved) else w
  }

  // The loop of RunOnce over the rows that GetExpired returned.
  function ExpireAll(w: World, order: seq<nat>, unlabelled: set<nat>): World {
    if order == [] then w
    else ExpireOne(ExpireAll(w, order[..|order| - 1], unlabelled), order[|order| - 1],
                   order[|order| - 1] in unlabelled)
  }

  predicate IsExpired(d: PendingDeploy, now: int) {
    d.state == Pending && d.expiresAt <= now
  }

  // The answer of the GetExpired query: every expired pending row once, oldest first.
  ghost predicate IsExpiredQuery(w: World, order: seq<nat>) {
    && (forall n :: n in order <==> n in w.rows && IsExpired(w.rows[n], w.now))
    && (forall i, j :: 0 <= i < j < |order| ==> order[i] != order[j])
    && (forall i, j :: 0 <= i < j < |order| && order[i] in w.rows && order[j] in w.rows ==>
          w.rows[order[i]].expiresAt <= w.rows[order[j]].expiresAt)
  }

  function RecoverOne(w: World, n: nat, reply: MergeReply, labelRemoved: bool): World {
    if n in w.rows && w.rows[n].state == Merging && MergeResult(w, n, reply).Ok?
    then Retire(MergePR(w, n, reply), n, labelRemoved)
    else w
  }

  // RecoverStuck over the rows that GetAll returned, with GitHub's replies.
  function RecoverAll(w: World, order: seq<nat>, replies: map<nat, MergeReply>, unlabelled: set<nat>): World {
    if order == [] then w
    else
      var n := order[|order| - 1];
      var w1 := RecoverAll(w, order[..|order| - 1], replies, unlabelled);
      if n in replies then RecoverOne(w1, n, replies[n], n in unlabelled) else w1
  }

  const MINUTE := 60

  // The row that ReconcileFromGitHub writes for a pull request without one.
  function Rehydrated(pr: PR, m: MetaJson.PRMeta, n: nat, now: int, staleDuration: int): PendingDeploy {
    var expiresAt := pr.createdAt + staleDuration;
    PendingDeploy(m.app, m.environment, m.tag, n, m.requesterSlackID, m.requesterSlackID, "",
                  "recovered by reconciler", pr.createdAt,
                  if expiresAt < now then now + MINUTE else expiresAt, Pending, NO_HANDLE)
  }

  predicate IsOrphan(w: World, n: nat) {
    n in w.prs && n !in w.rows && PullRequest.ParsePRMeta(w.prs[n].body).Some?
  }

  // ReconcileFromGitHub, given the pull requests that were listed and those whose label
  // call succeeds.
  function Reconcile(w: World, listed: set<nat>, labelled: set<nat>, staleDuration: int): World {
    w.(
      rows := w.rows + map n | n in listed && IsOrphan(w, n) ::
        Rehydrated(w.prs[n], PullRequest.ParsePRMeta(w.prs[n].body).value, n, w.now, staleDuration),
      prs := map n | n in w.prs ::
        if n in listed && IsOrphan(w, n) && n in labelled
        then w.prs[n].(labels := w.prs[n].labels + {PendingLabel}) else w.prs[n])
  }

  // Only open pull requests that carry one of the bot's labels are listed.
  ghost predicate IsListing(w: World, listed: set<nat>) {
    forall n | n in listed :: n in w.prs && w.prs[n].status.Open? && w.prs[n].labels != {}
  }

  // --- the rest of the world ---

  // Redis drops lapsed keys.
  function Tick(w: World, dt: nat): World {
    var now := w.now + dt;
    w.(now := now,
       locks := map k | k in w.locks && (w.locks[k].expires.None? || now < w.locks[k].expires.value) :: w.locks[k])
  }

  // Someone closes or merges a pull request on GitHub.
  function HumanClose(w: World, n: nat): World { ClosePR(w, n) }

  function HumanMerge(w: World, n: nat, sha: string): World {
    if n in w.prs && w.prs[n].status.Open? then
      w.(prs := w.prs[n := w.prs[n].(status := Merged(sha, Human))])
    else w
  }

  // --- runs ---

  datatype Step =
    | Submit(q: Request, r: RequestReplies)
    | Mention(q: Request, r: RequestReplies)
    | Push(q: Request, r: RequestReplies, p: PushReplies)
    | Approval(n: nat, a: ApproveReplies)
    | Rejection(n: nat, authorized: bool, labelRemoved: bool)
    | Cancellation(n: nat, userID: string, allowECR: bool, labelRemoved: bool)
    | Sweep(order: seq<nat>, unlabelled: set<nat>, listed: set<nat>, labelled: set<nat>, staleDuration: int)
    | Recovery(order: seq<nat>, replies: map<nat, MergeReply>, unlabelled: set<nat>)
    | Reconciliation(listed: set<nat>, labelled: set<nat>, staleDuration: int)
    | Time(dt: nat)
    | ClosedByHuman(n: nat)
    | MergedByHuman(n: nat, sha: string)

  function Apply(w: World, s: Step): World {
    match s
    case Submit(q, r) => RequestDeploy(w, q, r)
    case Mention(q, r) => RequestDeploy(w, q, r)
    case Push(q, r, p) => ECRPush(w, q, r, p)
    case Approval(n, a) => Approve(w, n, a)
    case Rejection(n, authorized, l) => Reject(w, n, authorized, l)
    case Cancellation(n, user, allow, l) => Cancel(w, n, user, allow, l)
    case Sweep(order, u, listed, labelled, stale) =>
      Reconcile(ExpireAll(w, order, u), listed, labelled, stale)
    case Recovery(order, replies, u) => RecoverAll(w, order, replies, u)
    case Reconciliation(listed, labelled, stale) => Reconcile(w, listed, labelled, stale)
    case Time(dt) => Tick(w, dt)
    case ClosedByHuman(n) => HumanClose(w, n)
    case MergedByHuman(n, sha) => HumanMerge(w, n, sha)
  }

  function Run(w: World, steps: seq<Step>): World
    decreases |steps|
  {
    if steps == [] then w else Run(Apply(w, steps[0]), steps[1..])
  }

  // No lock of a pending deploy lapses.
  ghost predicate NoLapse(w: World, dt: nat) {
    forall n | n in w.rows :: KeyOf(w.rows[n]) in Tick(w, dt).locks
  }

  // The hypotheses on the environment: Slack users have an ID, queries and listings answer
  // truthfully, an auto-deploy is not cut off, and no lock lapses before its deploy ends.
  ghost predicate IsAdmissible(w: World, s: Step) {
    match s
    case Submit(q, r) => q.requesterID != ""
    case Mention(q, r) => q.requesterID != ""
    case Push(q, r, p) => !IsAbandoned(w, q, r, p)
    case Sweep(order, u, listed, labelled, stale) =>
      IsExpiredQuery(w, order) && IsListing(ExpireAll(w, order, u), listed)
    case Reconciliation(listed, labelled, stale) => IsListing(w, listed)
    case Time(dt) => NoLapse(w, dt)
    case _ => true
  }

  ghost predicate IsAdmissibleRun(w: World, steps: seq<Step>)
    decreases |steps|
  {
    steps == [] || (IsAdmissible(w, steps[0]) && IsAdmissibleRun(Apply(w, steps[0]), steps[1..]))
  }
}
