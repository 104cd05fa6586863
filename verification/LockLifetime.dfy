/** Without a TTL on the locks, single flight needs no assumption on time. */
module LockLifetime {
  import opened Wrappers
  import opened Lifecycle
  import opened SingleFlight
  import opened LifecycleResults
  import PullRequest
  import Sanitize

  // Locks may go; those that stay are unchanged.
  ghost predicate DropsLocks(w: World, w': World) {
    forall k | k in w'.locks :: k in w.locks && w'.locks[k] == w.locks[k]
  }

  // Besides, a lock for request q may come.
  ghost predicate AddsLockOf(w: World, w': World, q: Request) {
    forall k | k in w'.locks ::
      (k in w.locks && w'.locks[k] == w.locks[k])
      || w'.locks[k].expires == if q.lockTTL > 0 then Some(w.now + q.lockTTL) else None
  }

  lemma DropsAreTransitive(w: World, v: World, u: World)
    requires DropsLocks(w, v) && DropsLocks(v, u)
    ensures DropsLocks(w, u)
  {
  }

  lemma MergesKeepLocks(w: World, n: nat, m: MergeReplies)
    ensures MergeWithRetry(w, n, m).0.locks == w.locks
  {
  }

  lemma ConcludeDrops(w: World, n: nat, outcome: MergeOutcome, r: ApproveReplies)
    requires n in w.rows
    ensures DropsLocks(w, Conclude(w, n, outcome, r))
  {
    hide KeyOf;
  }

  lemma ApproveDrops(w: World, n: nat, r: ApproveReplies)
    ensures DropsLocks(w, Approve(w, n, r))
  {
    if r.authorized && n in w.rows {
      var w1 := UpdateState(w, n, Merging);
      MergesKeepLocks(w1, n, r.merge);
      MergeWithRetryKeeps(w1, n, r.merge);
      var (w2, outcome) := MergeWithRetry(w1, n, r.merge);
      ConcludeDrops(w2, n, outcome, r);
      hide MergeWithRetry, Conclude;
    }
  }

  lemma EndWithDrops(w: World, n: nat, t: EventType, labelRemoved: bool)
    requires n in w.rows
    ensures DropsLocks(w, EndWith(w, n, t, labelRemoved))
  {
    hide KeyOf;
  }

  lemma {:induction false} ExpireAllDrops(w: World, order: seq<nat>, unlabelled: set<nat>)
    ensures DropsLocks(w, ExpireAll(w, order, unlabelled))
    decreases |order|
  {
    if order != [] {
      var n := order[|order| - 1];
      var v := ExpireAll(w, order[..|order| - 1], unlabelled);
      ExpireAllDrops(w, order[..|order| - 1], unlabelled);
      if n in v.rows {
        EndWithDrops(v, n, Expired, n in unlabelled);
      }
      DropsAreTransitive(w, v, ExpireOne(v, n, n in unlabelled));
    }
  }

  lemma {:induction false} RecoverAllDrops(w: World, order: seq<nat>, replies: map<nat, MergeReply>,
                                           unlabelled: set<nat>)
    ensures DropsLocks(w, RecoverAll(w, order, replies, unlabelled))
    decreases |order|
  {
    if order != [] {
      var n := order[|order| - 1];
      var v := RecoverAll(w, order[..|order| - 1], replies, unlabelled);
      RecoverAllDrops(w, order[..|order| - 1], replies, unlabelled);
      if n in replies {
        RecoverOneDrops(v, n, replies[n], n in unlabelled);
        DropsAreTransitive(w, v, RecoverOne(v, n, replies[n], n in unlabelled));
      }
    }
  }

  lemma RecoverOneDrops(w: World, n: nat, reply: MergeReply, labelRemoved: bool)
    ensures DropsLocks(w, RecoverOne(w, n, reply, labelRemoved))
  {
    hide KeyOf;
  }

  lemma RequestAddsLock(w: World, q: Request, r: RequestReplies)
    ensures AddsLockOf(w, RequestDeploy(w, q, r), q)
  {
    hide LockKey, PullRequest.Body, Sanitize.TagIsSafe;
  }

  lemma AutoDeployDrops(w: World, q: Request, n: nat, m: MergeReplies, labelRemoved: bool)
    ensures DropsLocks(w, AutoDeploy(w, q, n, m, labelRemoved))
  {
    hide LockKey;
    MergesKeepLocks(w, n, m);
    hide MergeWithRetry;
  }

  lemma PushAddsLock(w: World, q: Request, r: RequestReplies, p: PushReplies)
    ensures AddsLockOf(w, ECRPush(w, q, r, p), q)
  {
    var w1 := AcquireLock(w, LockKey(q.environment, q.app), ECR_HOLDER, q.lockTTL);
    var params := ParamsOf(ECRRequest(q));
    var reply := CreatedNumber(w1, params, r.create);
    hide LockKey, PullRequest.Body, Sanitize.TagIsSafe, CreatedNumber, AutoDeploy;
    if reply.Some? {
      AutoDeployDrops(CreateDeployPR(w1, params, reply.value), q, reply.value, p.merge, p.labelRemoved);
    }
  }

  // --- locks without a TTL ---

  ghost predicate NoLockExpires(w: World) {
    forall k | k in w.locks :: w.locks[k].expires == None
  }

  // The configured TTL is zero or negative, which Redis is asked to take for no limit.
  predicate IsUnlimited(s: Step) {
    RequestOf(s).Some? ==> RequestOf(s).value.lockTTL <= 0
  }

  // Admissible, but for what happens to locks as time passes.
  ghost predicate IsAdmissibleButForTime(w: World, s: Step) {
    s.Time? || IsAdmissible(w, s)
  }

  lemma DropsKeepUnlimited(w: World, w': World)
    requires NoLockExpires(w) && DropsLocks(w, w')
    ensures NoLockExpires(w')
  {
  }

  lemma AddsKeepUnlimited(w: World, w': World, q: Request)
    requires NoLockExpires(w) && AddsLockOf(w, w', q) && q.lockTTL <= 0
    ensures NoLockExpires(w')
  {
  }

  lemma ReconcileDrops(w: World, listed: set<nat>, labelled: set<nat>, staleDuration: int)
    ensures DropsLocks(w, Reconcile(w, listed, labelled, staleDuration))
  {
    hide IsOrphan, Rehydrated, PullRequest.ParsePRMeta;
  }

  // Steps after which no lock is new.
  lemma StepDrops(w: World, s: Step)
    requires RequestOf(s).None?
    ensures DropsLocks(w, Apply(w, s))
  {
    hide Approve, EndWith, ExpireAll, RecoverAll, Reconcile, KeyOf;
    match s
    case Approval(n, a) => ApproveDrops(w, n, a);
    case Rejection(n, authorized, l) =>
      if n in w.rows { EndWithDrops(w, n, Rejected, l); }
    case Cancellation(n, user, allow, l) =>
      if n in w.rows { EndWithDrops(w, n, Cancelled, l); }
    case Sweep(order, u, listed, labelled, stale) =>
      ExpireAllDrops(w, order, u);
      ReconcileDrops(ExpireAll(w, order, u), listed, labelled, stale);
    case Recovery(order, replies, u) => RecoverAllDrops(w, order, replies, u);
    case Reconciliation(listed, labelled, stale) => ReconcileDrops(w, listed, labelled, stale);
    case _ =>
  }

  lemma UnlimitedNeverLapse(w: World, dt: nat)
    requires Inv(w) && NoLockExpires(w)
    ensures NoLapse(w, dt)
  {
    hide LocksHaveRows, LabelledHaveRows, HistoryIsSettled, KeyOf, HolderOf;
  }

  lemma UnlimitedStep(w: World, s: Step)
    requires Inv(w) && NoLockExpires(w) && IsUnlimited(s) && IsAdmissibleButForTime(w, s)
    ensures IsAdmissible(w, s) && NoLockExpires(Apply(w, s))
  {
    hide Inv, NoLockExpires, RequestDeploy, ECRPush, DropsLocks, AddsLockOf;
    if s.Time? {
      UnlimitedNeverLapse(w, s.dt);
    }
    hide IsAdmissible;
    match s
    case Submit(q, r) =>
      RequestAddsLock(w, q, r);
      AddsKeepUnlimited(w, Apply(w, s), q);
    case Mention(q, r) =>
      RequestAddsLock(w, q, r);
      AddsKeepUnlimited(w, Apply(w, s), q);
    case Push(q, r, p) =>
      PushAddsLock(w, q, r, p);
      AddsKeepUnlimited(w, Apply(w, s), q);
    case _ =>
      StepDrops(w, s);
      DropsKeepUnlimited(w, Apply(w, s));
  }

  ghost predicate IsRunButForTime(w: World, steps: seq<Step>)
    decreases |steps|
  {
    steps == [] || (IsAdmissibleButForTime(w, steps[0]) && IsRunButForTime(Apply(w, steps[0]), steps[1..]))
  }

  lemma {:induction false} UnlimitedRunIsAdmissible(w: World, steps: seq<Step>)
    requires Inv(w) && NoLockExpires(w) && IsRunButForTime(w, steps)
    requires forall i :: 0 <= i < |steps| ==> IsUnlimited(steps[i])
    ensures IsAdmissibleRun(w, steps)
    decreases |steps|
  {
    if steps != [] {
      UnlimitedStep(w, steps[0]);
      StepKeepsInv(w, steps[0]);
      hide Apply, Inv, NoLockExpires, IsAdmissible, IsAdmissibleButForTime, IsUnlimited;
      UnlimitedRunIsAdmissible(Apply(w, steps[0]), steps[1..]);
    }
  }

  // With a lock TTL of zero there is no hypothesis on time: however long deploys wait, the
  // lock of an environment and app is held exactly when exactly one deploy of it is pending.
  lemma UnlimitedLocksGiveSingleFlight(steps: seq<Step>)
    requires IsRunButForTime(EMPTY, steps)
    requires forall i :: 0 <= i < |steps| ==> IsUnlimited(steps[i])
    ensures IsSingleFlight(Run(EMPTY, steps))
  {
    EmptyIsSound();
    hide *;
    UnlimitedRunIsAdmissible(EMPTY, steps);
    SingleFlightOnEveryRun(steps);
  }

  // --- locks with a TTL ---

  // The one TTL that is configured.
  predicate TakesLocksFor(s: Step, ttl: int) {
    RequestOf(s).Some? ==> RequestOf(s).value.lockTTL == ttl
  }

  ghost predicate AllTakeLocksFor(steps: seq<Step>, ttl: int) {
    forall i :: 0 <= i < |steps| ==> TakesLocksFor(steps[i], ttl)
  }

  // Single flight, whatever is asked for and however much time passes.
  ghost predicate IsSingleFlightFor(ttl: int) {
    forall steps :: IsRunButForTime(EMPTY, steps) && AllTakeLocksFor(steps, ttl) ==> IsSingleFlight(Run(EMPTY, steps))
  }

  lemma TwoSteps(w: World, a: Step, b: Step)
    requires IsAdmissibleButForTime(w, a) && IsAdmissibleButForTime(Apply(w, a), b)
    ensures IsRunButForTime(w, [a, b]) && Run(w, [a, b]) == Apply(Apply(w, a), b)
  {
    hide Apply, IsAdmissibleButForTime;
    assert [a, b][1..] == [b] && [b][1..] == [];
    var w1 := Apply(w, a);
    assert IsRunButForTime(Apply(w1, b), []) && Run(Apply(w1, b), []) == Apply(w1, b);
    assert IsRunButForTime(w1, [b]) && Run(w1, [b]) == Apply(w1, b);
  }

  // Someone asks for a deploy, which then waits.
  lemma AskAndWait(q: Request, r: RequestReplies, dt: nat)
    requires q.requesterID != ""
    ensures var steps := [Submit(q, r), Time(dt)];
      && IsRunButForTime(EMPTY, steps) && Run(EMPTY, steps) == Tick(RequestDeploy(EMPTY, q, r), dt)
      && AllTakeLocksFor(steps, q.lockTTL)
  {
    hide RequestDeploy, Tick;
    TwoSteps(EMPTY, Submit(q, r), Time(dt));
  }

  lemma UnlockedRowIsNoSingleFlight(w: World, n: nat)
    requires n in w.rows && KeyOf(w.rows[n]) !in w.locks
    ensures !IsSingleFlight(w)
  {
    hide KeyOf;
    var key := KeyOf(w.rows[n]);
    assert exists m :: m in w.rows && KeyOf(w.rows[m]) == key;
  }

  lemma OneIsSafe(tag: string)
    requires tag == "1"
    ensures Sanitize.TagIsSafe(tag)
  {
  }

  lemma CounterexampleBreaks(steps: seq<Step>, ttl: int)
    requires IsRunButForTime(EMPTY, steps) && AllTakeLocksFor(steps, ttl) && !IsSingleFlight(Run(EMPTY, steps))
    ensures !IsSingleFlightFor(ttl)
  {
    hide IsRunButForTime, AllTakeLocksFor, IsSingleFlight, Run;
  }

  lemma IsCreatedAtFirst(q: Request, r: RequestReplies)
    requires r.create.Created? && Sanitize.TagIsSafe(q.tag)
    ensures LockKey(q.environment, q.app) !in EMPTY.locks && CreatedNumber(EMPTY, ParamsOf(q), r.create).Some?
  {
    hide LockKey, Sanitize.TagIsSafe;
  }

  lemma WaitBreaksSingleFlight(q: Request, r: RequestReplies)
    requires q.lockTTL > 0 && q.requesterID != "" && Sanitize.TagIsSafe(q.tag)
    requires r.accepted && r.create.Created?
    ensures !IsSingleFlightFor(q.lockTTL)
  {
    hide *;
    AskAndWait(q, r, q.lockTTL);
    IsCreatedAtFirst(q, r);
    WaitingLosesLock(EMPTY, q, r, q.lockTTL);
    UnlockedRowIsNoSingleFlight(Tick(RequestDeploy(EMPTY, q, r), q.lockTTL), r.create.number);
    CounterexampleBreaks([Submit(q, r), Time(q.lockTTL)], q.lockTTL);
  }

  // A deploy that waits for as long as its lock lasts breaks single flight.
  lemma LongWaitBreaksSingleFlight(ttl: nat)
    requires ttl > 0
    ensures !IsSingleFlightFor(ttl)
  {
    hide IsSingleFlightFor;
    var q := Request("app-env", "env", "1", "user", "U1", "", "", ttl, 0);
    OneIsSafe(q.tag);
    WaitBreaksSingleFlight(q, RequestReplies(true, Created(0), true, None));
  }

  lemma SmallTTLIsUnlimited(s: Step, ttl: int)
    requires ttl <= 0 && TakesLocksFor(s, ttl)
    ensures IsUnlimited(s)
  {
  }

  // Single flight holds on every run, time aside, if and only if locks are taken without a TTL.
  lemma SingleFlightIffUnlimited(ttl: int)
    ensures IsSingleFlightFor(ttl) <==> ttl <= 0
  {
    if ttl > 0 {
      LongWaitBreaksSingleFlight(ttl);
    } else {
      hide IsSingleFlight, IsRunButForTime, Run, IsUnlimited;
      forall steps | IsRunButForTime(EMPTY, steps) && AllTakeLocksFor(steps, ttl)
        ensures IsSingleFlight(Run(EMPTY, steps))
      {
        forall i | 0 <= i < |steps| ensures IsUnlimited(steps[i]) {
          SmallTTLIsUnlimited(steps[i], ttl);
        }
        UnlimitedLocksGiveSingleFlight(steps);
      }
    }
  }

  lemma EmptyIsSound()
    ensures Inv(EMPTY) && NoLockExpires(EMPTY)
  {
  }
}
