/** When exactly an entry is handled more than once. */
module EventQueueOnce {
  import opened EventQueue
  import opened EventQueueProofs

  // Token t is in the hands of worker w, which has yet to handle it.
  predicate Holds(s: System, w: nat, t: Token) {
    && w in s.workers
    && (t in s.workers[w].batch || exists task :: task in s.workers[w].tasks && task.token == t && !task.handled)
  }

  // Some live worker has yet to handle entry id.
  ghost predicate IsHeld(s: System, id: Id) {
    exists w, t :: Holds(s, w, t) && t.id == id
  }

  ghost predicate IsHandledTwice(trace: seq<Event>, id: Id) {
    exists i, j :: 0 <= i < j < |trace| && HandlesAt(trace, i, id) && HandlesAt(trace, j, id)
  }

  predicate HandlesAt(trace: seq<Event>, i: int, id: Id) {
    0 <= i < |trace| && trace[i].Handled? && trace[i].token.id == id
  }

  // --- a worker gets to handle what it holds ---

  ghost predicate WasHandledBy(trace: seq<Event>, from: nat, w: nat, t: Token) {
    exists i :: from <= i < |trace| && trace[i] == Handled(w, t)
  }

  // Worker w alone goes on, without reading or claiming.
  predicate IsWorkOf(step: Step, w: nat) {
    match step
    case Start(v) => v == w
    case Handle(v, _) => v == w
    case Ack(v, _, _) => v == w
    case _ => false
  }

  ghost predicate IsWork(steps: seq<Step>, w: nat) {
    forall i :: 0 <= i < |steps| ==> IsWorkOf(steps[i], w)
  }

  // What such work leaves as it is.
  ghost predicate OnlyWorks(s: System, s': System, w: nat) {
    && s'.streams == s.streams && s'.ecrConcurrency == s.ecrConcurrency && s'.workers.Keys == s.workers.Keys
    && (forall v | v in s.workers && v != w :: s'.workers[v] == s.workers[v])
    && s.trace <= s'.trace
    && forall i | |s.trace| <= i < |s'.trace| :: s'.trace[i].Handled?
  }

  lemma WorkOnlyWorks(s: System, step: Step, w: nat)
    requires Enabled(s, step) && IsWorkOf(step, w)
    ensures OnlyWorks(s, Apply(s, step), w)
  {
  }

  lemma OnlyWorksIsTransitive(s: System, v: System, u: System, w: nat)
    requires OnlyWorks(s, v, w) && OnlyWorks(v, u, w)
    ensures OnlyWorks(s, u, w)
  {
    forall i | |s.trace| <= i < |u.trace| ensures u.trace[i].Handled? {
      if i < |v.trace| {
        assert u.trace[i] == v.trace[i];
      }
    }
  }

  lemma HeldIsGiven(s: System, w: nat, t: Token)
    requires Inv(s) && Holds(s, w, t)
    ensures t.src < |s.trace| && Gives(s.trace[t.src], w, t.id)
  {
    assert IsSoundWorker(s, w, s.workers[w]);
    if t in s.workers[w].batch {
      assert IsLive(s, w, t);
    } else {
      var task :| task in s.workers[w].tasks && task.token == t && !task.handled;
      assert IsSoundTask(s, w, task);
    }
  }

  lemma TaskHasEntry(s: System, w: nat, task: Task)
    requires Inv(s) && w in s.workers && task in s.workers[w].tasks
    ensures HasEntry(s, task.token.id)
  {
    TaskHasGift(s, w, task);
    GivenIsDelivered(s, task.token.src, w, task.token.id);
  }

  // The next step by which worker w comes closer to handling token t of its batch.
  function NextWork(s: System, w: nat, task: Task): Step
    requires w in s.workers && task in s.workers[w].tasks && HasEntry(s, task.token.id)
  {
    if task.handled || !Decodes(MessageOf(s, task.token.id)) then Ack(w, task, false) else Handle(w, task)
  }

  function Unhandled(tasks: set<Task>): set<Task> { set task | task in tasks && !task.handled }

  function Left(tasks: set<Task>): nat { |tasks| + |Unhandled(tasks)| }

  lemma AckLeavesLess(tasks: set<Task>, task: Task)
    requires task in tasks
    ensures Left(tasks - {task}) < Left(tasks)
  {
    assert Unhandled(tasks - {task}) == Unhandled(tasks) - {task};
  }

  lemma HandleLeavesLess(tasks: set<Task>, task: Task)
    requires task in tasks && !task.handled
    ensures Left(tasks - {task} + {task.(handled := true)}) < Left(tasks)
  {
    assert task in Unhandled(tasks);
    assert Unhandled(tasks - {task} + {task.(handled := true)}) == Unhandled(tasks) - {task};
  }

  lemma NextWorkIsNearer(s: System, w: nat, task: Task)
    requires w in s.workers && task in s.workers[w].tasks && HasEntry(s, task.token.id)
    ensures var step := NextWork(s, w, task); Enabled(s, step) && IsWorkOf(step, w)
    ensures var wk' := Apply(s, NextWork(s, w, task)).workers[w];
      wk'.batch == s.workers[w].batch && Left(wk'.tasks) < Left(s.workers[w].tasks)
  {
    AckLeavesLess(s.workers[w].tasks, task);
    if !task.handled {
      HandleLeavesLess(s.workers[w].tasks, task);
    }
    hide Left, Decodes;
  }

  lemma StartIsNearer(s: System, w: nat, t: Token)
    requires w in s.workers && s.workers[w].tasks == {} && t in s.workers[w].batch && s.ecrConcurrency > 0
    ensures Enabled(s, Start(w)) && IsWorkOf(Start(w), w)
    ensures var s' := Apply(s, Start(w)); Holds(s', w, t) && |s'.workers[w].batch| < |s.workers[w].batch|
  {
    var wk := s.workers[w];
    assert Goroutines(wk) == {};
    var task := Task(wk.batch[0], false, wk.pc != Draining(ECR));
    var s' := Apply(s, Start(w));
    assert task in s'.workers[w].tasks;
    assert wk.batch == [wk.batch[0]] + wk.batch[1..];
  }

  lemma RunPrepend(s: System, step: Step, rest: seq<Step>)
    requires Enabled(s, step) && IsRun(Apply(s, step), rest)
    ensures IsRun(s, [step] + rest) && Run(s, [step] + rest) == Run(Apply(s, step), rest)
  {
    assert ([step] + rest)[1..] == rest;
  }

  lemma HandledLater(trace: seq<Event>, from: nat, from': nat, w: nat, t: Token)
    requires WasHandledBy(trace, from', w, t) && from <= from'
    ensures WasHandledBy(trace, from, w, t)
  {
  }

  ghost predicate IsWorkUpTo(s: System, steps: seq<Step>, w: nat, t: Token) {
    && IsWork(steps, w) && IsRun(s, steps) && OnlyWorks(s, Run(s, steps), w)
    && WasHandledBy(Run(s, steps).trace, |s.trace|, w, t)
  }

  lemma WorkFirst(s: System, step: Step, rest: seq<Step>, w: nat, t: Token)
    requires Enabled(s, step) && IsWorkOf(step, w) && IsWorkUpTo(Apply(s, step), rest, w, t)
    ensures IsWorkUpTo(s, [step] + rest, w, t)
  {
    var s' := Apply(s, step);
    WorkOnlyWorks(s, step, w);
    RunPrepend(s, step, rest);
    OnlyWorksIsTransitive(s, s', Run(s', rest), w);
    HandledLater(Run(s', rest).trace, |s.trace|, |s'.trace|, w, t);
    hide Apply, Enabled, OnlyWorks, WasHandledBy, Run, IsRun;
  }

  lemma HandleIsWork(s: System, w: nat, task: Task)
    requires w in s.workers && task in s.workers[w].tasks && !task.handled
    requires HasEntry(s, task.token.id) && Decodes(MessageOf(s, task.token.id))
    ensures IsWorkUpTo(s, [Handle(w, task)], w, task.token)
  {
    var s' := Apply(s, Handle(w, task));
    assert s'.trace[|s.trace|] == Handled(w, task.token);
    WorkOnlyWorks(s, Handle(w, task), w);
    assert [Handle(w, task)][1..] == [];
    assert IsRun(s', []) && Run(s', []) == s';
    hide Apply, OnlyWorks;
  }

  // Whatever a worker holds, it can go on to handle, even if it never reads or claims again.
  lemma {:induction false} HeldCanBeHandled(s: System, w: nat, t: Token) returns (steps: seq<Step>)
    requires Inv(s) && Holds(s, w, t)
    requires HasEntry(s, t.id) && Decodes(MessageOf(s, t.id))
    ensures IsWorkUpTo(s, steps, w, t)
    decreases |s.workers[w].batch|, Left(s.workers[w].tasks)
  {
    if task :| task in s.workers[w].tasks && task.token == t && !task.handled {
      steps := [Handle(w, task)];
      HandleIsWork(s, w, task);
    } else {
      var step;
      if s.workers[w].tasks == {} {
        step := Start(w);
        StartIsNearer(s, w, t);
      } else {
        var task :| task in s.workers[w].tasks;
        TaskHasEntry(s, w, task);
        step := NextWork(s, w, task);
        NextWorkIsNearer(s, w, task);
      }
      StepKeepsInv(s, step);
      WorkOnlyWorks(s, step, w);
      hide Inv, Left, Decodes, Apply, Enabled, IsWorkOf, NextWork, IsWorkUpTo;
      var rest := HeldCanBeHandled(Apply(s, step), w, t);
      steps := [step] + rest;
      WorkFirst(s, step, rest, w, t);
    }
  }

  // --- a claim that leads to a second handling ---

  // From position n on, nobody is given entry id.
  ghost predicate NotGivenFrom(trace: seq<Event>, n: nat, id: Id) {
    forall i | n <= i < |trace| :: !GivesToAnyone(trace[i], id)
  }

  // After this step the run goes on so that entry id is handled twice, with no more gifts.
  ghost predicate IsSecondHandling(s: System, step: Step, rest: seq<Step>, id: Id) {
    && IsRun(s, [step] + rest)
    && NotGivenFrom(Run(s, [step] + rest).trace, |s.trace| + 1, id)
    && IsHandledTwice(Run(s, [step] + rest).trace, id)
  }

  ghost predicate LeadsToSecondHandling(s: System, step: Step, id: Id) {
    exists rest :: IsSecondHandling(s, step, rest, id)
  }

  lemma {:induction false} RunAppend(s: System, a: seq<Step>, b: seq<Step>)
    requires IsRun(s, a) && IsRun(Run(s, a), b)
    ensures IsRun(s, a + b) && Run(s, a + b) == Run(Run(s, a), b)
    decreases |a|
  {
    if a == [] {
      assert a + b == b;
    } else {
      RunAppend(Apply(s, a[0]), a[1..], b);
      assert (a + b)[1..] == a[1..] + b;
    }
  }

  lemma ClaimGives(s: System, w: nat, ids: seq<Id>, id: Id)
    requires Enabled(s, Claim(w, ids)) && id in ids
    ensures Holds(Apply(s, Claim(w, ids)), w, Token(id, |s.trace|))
  {
    var k :| 0 <= k < |ids| && ids[k] == id;
    assert TokensFor(ids, |s.trace|)[k] == Token(id, |s.trace|);
  }

  lemma ClaimKeepsHeld(s: System, w: nat, ids: seq<Id>, v: nat, t: Token)
    requires Enabled(s, Claim(w, ids)) && Holds(s, v, t)
    ensures Holds(Apply(s, Claim(w, ids)), v, t)
  {
  }

  lemma WorkNotGiven(s: System, s': System, w: nat, n: nat, id: Id)
    requires OnlyWorks(s, s', w) && NotGivenFrom(s.trace, n, id)
    ensures NotGivenFrom(s'.trace, n, id)
  {
    forall i | n <= i < |s'.trace| ensures !GivesToAnyone(s'.trace[i], id) {
      if i < |s.trace| {
        assert s'.trace[i] == s.trace[i];
      }
    }
  }

  // Handled before position n, and again from n on.
  lemma TwoHandlings(trace: seq<Event>, n: nat, w: nat, t: Token, id: Id)
    requires n <= |trace| && WasHandled(trace[..n], id) && WasHandledBy(trace, n, w, t) && t.id == id
    ensures IsHandledTwice(trace, id)
  {
    var i: nat :| i < n && trace[..n][i].Handled? && trace[..n][i].token.id == id;
    var j :| n <= j < |trace| && trace[j] == Handled(w, t);
    assert HandlesAt(trace, i, id) && HandlesAt(trace, j, id);
  }

  // s1 is the state after the claim and some work of others, which have handled the entry.
  lemma FinishSecond(s: System, claim: Step, before: seq<Step>, s1: System, w: nat, id: Id)
    requires Enabled(s, claim) && claim.Claim?
    requires IsRun(Apply(s, claim), before) && s1 == Run(Apply(s, claim), before) && Inv(s1)
    requires NotGivenFrom(s1.trace, |s.trace| + 1, id) && WasHandled(s1.trace, id)
    requires Holds(s1, w, Token(id, |s.trace|)) && HasEntry(s1, id) && Decodes(MessageOf(s1, id))
    ensures LeadsToSecondHandling(s, claim, id)
  {
    hide Inv, Apply, Enabled, Holds, IsWork, Run, IsRun, WasHandled, NotGivenFrom, IsHandledTwice, Decodes, HasEntry;
    var t := Token(id, |s.trace|);
    var work := HeldCanBeHandled(s1, w, t);
    var s2 := Run(s1, work);
    RunAppend(Apply(s, claim), before, work);
    RunPrepend(s, claim, before + work);
    WorkNotGiven(s1, s2, w, |s.trace| + 1, id);
    assert s2.trace[..|s1.trace|] == s1.trace;
    hide OnlyWorks;
    TwoHandlings(s2.trace, |s1.trace|, w, t, id);
    assert IsSecondHandling(s, claim, before + work, id);
  }

  lemma OthersKeepHolding(s: System, s': System, v: nat, w: nat, t: Token)
    requires OnlyWorks(s, s', v) && v != w && Holds(s, w, t)
    ensures Holds(s', w, t)
  {
  }

  lemma HandleOneOfMany(s: System, w: nat, t: Token, mine: Token) returns (steps: seq<Step>)
    requires Holds(s, w, t) && t !in s.workers[w].batch && mine in s.workers[w].batch
    requires HasEntry(s, t.id) && Decodes(MessageOf(s, t.id))
    ensures IsWorkUpTo(s, steps, w, t) && Holds(Run(s, steps), w, mine)
  {
    var task :| task in s.workers[w].tasks && task.token == t && !task.handled;
    steps := [Handle(w, task)];
    HandleIsWork(s, w, task);
    var s' := Apply(s, Handle(w, task));
    assert Holds(s', w, mine);
    hide Holds, IsWorkUpTo, Apply, Decodes;
    assert steps[1..] == [];
    assert Run(s', []) == s';
  }

  // Worker v handles what it held when w made its claim; w still holds what it claimed.
  lemma OtherHandles(s1: System, w: nat, mine: Token, v: nat, t: Token) returns (steps: seq<Step>)
    requires Inv(s1) && Holds(s1, v, t) && Holds(s1, w, mine)
    requires v == w ==> t !in s1.workers[w].batch && mine in s1.workers[w].batch
    requires HasEntry(s1, t.id) && Decodes(MessageOf(s1, t.id))
    ensures IsWorkUpTo(s1, steps, v, t) && Holds(Run(s1, steps), w, mine)
  {
    hide Inv, Decodes, Run, IsRun, OnlyWorks, WasHandledBy, IsWork;
    if v == w {
      steps := HandleOneOfMany(s1, w, t, mine);
    } else {
      steps := HeldCanBeHandled(s1, v, t);
      OthersKeepHolding(s1, Run(s1, steps), v, w, mine);
    }
  }

  lemma WorkOnEntry(s: System, s': System, w: nat, id: Id)
    requires OnlyWorks(s, s', w) && HasEntry(s, id)
    ensures HasEntry(s', id) && MessageOf(s', id) == MessageOf(s, id) && s'.ecrConcurrency == s.ecrConcurrency
  {
  }

  lemma HandledByIsHandled(trace: seq<Event>, from: nat, w: nat, t: Token)
    requires WasHandledBy(trace, from, w, t)
    ensures WasHandled(trace, t.id)
  {
    var i :| from <= i < |trace| && trace[i] == Handled(w, t);
    var j: nat := i;
    assert trace[j].Handled? && trace[j].token.id == t.id;
  }

  // The facts about a claim that the two halves need.
  lemma AfterClaim(s: System, w: nat, ids: seq<Id>, id: Id)
    requires Inv(s) && Enabled(s, Claim(w, ids)) && id in ids
    ensures HasEntry(s, id)
    ensures var s1 := Apply(s, Claim(w, ids));
      && Inv(s1) && s1.ecrConcurrency == s.ecrConcurrency
      && HasEntry(s1, id) && MessageOf(s1, id) == MessageOf(s, id)
      && s1.trace == s.trace + [Claimed(w, s.workers[w].pc.todo[0], ids, s.now)]
      && NotGivenFrom(s1.trace, |s.trace| + 1, id)
      && Holds(s1, w, Token(id, |s.trace|)) && Token(id, |s.trace|) in s1.workers[w].batch
  {
    StepKeepsInv(s, Claim(w, ids));
    ClaimGives(s, w, ids, id);
    assert id in s.pending;
    assert EntriesArePlaced(s);
    var k :| 0 <= k < |ids| && ids[k] == id;
    assert TokensFor(ids, |s.trace|)[k] == Token(id, |s.trace|);
    hide Inv, Holds, IsUndelivered;
  }

  lemma ClaimsOldNotInBatch(s: System, w: nat, ids: seq<Id>, t: Token)
    requires Enabled(s, Claim(w, ids)) && t.src < |s.trace|
    ensures t !in Apply(s, Claim(w, ids)).workers[w].batch
  {
  }

  lemma UnsafeClaimLeads(s: System, w: nat, ids: seq<Id>, id: Id)
    requires Inv(s) && Enabled(s, Claim(w, ids)) && id in ids
    requires HasEntry(s, id) && Decodes(MessageOf(s, id))
    requires WasHandled(s.trace, id) || IsHeld(s, id)
    ensures LeadsToSecondHandling(s, Claim(w, ids), id)
  {
    var claim := Claim(w, ids);
    var s1 := Apply(s, claim);
    var mine := Token(id, |s.trace|);
    AfterClaim(s, w, ids, id);
    hide Decodes, Run, IsRun, OnlyWorks, WasHandledBy, IsWork, Inv, HasEntry, LeadsToSecondHandling, NotGivenFrom;
    if WasHandled(s.trace, id) {
      HandledStays(s.trace, Claimed(w, s.workers[w].pc.todo[0], ids, s.now), id);
      NoStepsRun(s1);
      FinishSecond(s, claim, [], s1, w, id);
    } else {
      var v, t :| Holds(s, v, t) && t.id == id;
      HeldIsGiven(s, v, t);
      ClaimKeepsHeld(s, w, ids, v, t);
      ClaimsOldNotInBatch(s, w, ids, t);
      hide Apply, Enabled, Holds, WasHandled, MessageOf;
      var before := OtherHandles(s1, w, mine, v, t);
      var s2 := Run(s1, before);
      WorkOnEntry(s1, s2, v, id);
      WorkNotGiven(s1, s2, v, |s.trace| + 1, id);
      HandledByIsHandled(s2.trace, |s1.trace|, v, t);
      RunKeepsInv(s1, before);
      FinishSecond(s, claim, before, s2, w, id);
    }
  }

  lemma NoStepsRun(s: System)
    ensures IsRun(s, []) && Run(s, []) == s
  {
  }

  // --- claims that do not ---

  // Whoever holds entry id, and whoever handled it, was given it by event n.
  ghost predicate HasOneGift(s: System, id: Id, n: nat) {
    && (forall w, t | Holds(s, w, t) && t.id == id :: t.src == n)
    && (forall i | HandlesAt(s.trace, i, id) :: s.trace[i].token.src == n)
  }

  lemma OneGiftIsHandledOnce(s: System, id: Id, n: nat)
    requires Inv(s) && HasOneGift(s, id, n)
    ensures !IsHandledTwice(s.trace, id)
  {
    assert HandledOnceEach(s.trace);
    hide Inv, Holds;
    forall i, j | HandlesAt(s.trace, i, id) && HandlesAt(s.trace, j, id) ensures !(i < j) {
      assert s.trace[i].token == Token(id, n) == s.trace[j].token;
    }
  }

  // The step gives entry id to a worker.
  predicate StepGives(s: System, step: Step, id: Id)
    requires Enabled(s, step)
  {
    |s.trace| < |Apply(s, step).trace| && GivesToAnyone(Apply(s, step).trace[|s.trace|], id)
  }

  // What a worker holds after a step it held before, or was given by it.
  lemma HeldBefore(s: System, step: Step, w: nat, t: Token)
    requires Enabled(s, step) && Holds(Apply(s, step), w, t)
    ensures Holds(s, w, t) || (StepGives(s, step, t.id) && t.src == |s.trace|)
  {
    var s' := Apply(s, step);
    if t in s'.workers[w].batch {
      if step.Claim? && step.w == w {
        assert t.id in step.ids;
      } else if step.ReadNew? && step.w == w {
        assert t.id in s'.trace[|s.trace|].ids;
      } else {
        assert t in s.workers[w].batch;
      }
    } else {
      var task :| task in s'.workers[w].tasks && task.token == t && !task.handled;
      if task !in s.workers[w].tasks {
        assert step == Start(w) && t == s.workers[w].batch[0];
      }
    }
  }

  lemma HandledBefore(s: System, step: Step, i: int, id: Id)
    requires Enabled(s, step) && HandlesAt(Apply(s, step).trace, i, id)
    ensures HandlesAt(s.trace, i, id)
         || (step.Handle? && i == |s.trace| && Apply(s, step).trace[i].token == step.task.token
             && Holds(s, step.w, step.task.token))
  {
  }

  // A step is safe for entry id if it does not give away what was handled or is held.
  ghost predicate IsSafeStep(s: System, step: Step, id: Id)
    requires Enabled(s, step)
  {
    StepGives(s, step, id) ==> !WasHandled(s.trace, id) && !IsHeld(s, id)
  }

  lemma HandlesAtIsHandled(trace: seq<Event>, i: int, id: Id)
    requires HandlesAt(trace, i, id)
    ensures WasHandled(trace, id)
  {
    var j: nat := i;
    assert trace[j].Handled? && trace[j].token.id == id;
  }

  lemma StepKeepsOneGift(s: System, step: Step, id: Id, n: nat) returns (n': nat)
    requires Enabled(s, step) && HasOneGift(s, id, n) && IsSafeStep(s, step, id)
    ensures HasOneGift(Apply(s, step), id, n')
    ensures n' == if StepGives(s, step, id) then |s.trace| else n
  {
    var s' := Apply(s, step);
    n' := if StepGives(s, step, id) then |s.trace| else n;
    forall w, t | Holds(s', w, t) && t.id == id ensures t.src == n' {
      HeldBefore(s, step, w, t);
    }
    forall i | HandlesAt(s'.trace, i, id) ensures s'.trace[i].token.src == n' {
      HandledBefore(s, step, i, id);
      if HandlesAt(s.trace, i, id) {
        HandlesAtIsHandled(s.trace, i, id);
        assert s'.trace[i] == s.trace[i];
      }
    }
  }

  ghost predicate IsSafeRun(s: System, steps: seq<Step>, id: Id)
    requires IsRun(s, steps)
    decreases |steps|
  {
    steps == [] || (IsSafeStep(s, steps[0], id) && IsSafeRun(Apply(s, steps[0]), steps[1..], id))
  }

  lemma {:induction false} SafeRunKeepsOneGift(s: System, steps: seq<Step>, id: Id, n: nat) returns (n': nat)
    requires IsRun(s, steps) && IsSafeRun(s, steps, id) && HasOneGift(s, id, n)
    ensures HasOneGift(Run(s, steps), id, n')
    decreases |steps|
  {
    if steps == [] {
      n' := n;
    } else {
      n' := StepKeepsOneGift(s, steps[0], id, n);
      hide HasOneGift, IsSafeStep, Apply, Enabled;
      n' := SafeRunKeepsOneGift(Apply(s, steps[0]), steps[1..], id, n');
    }
  }

  lemma UntouchedHasOneGift(s: System, id: Id)
    requires !WasHandled(s.trace, id) && !IsHeld(s, id)
    ensures HasOneGift(s, id, 0)
  {
    forall i ensures !HandlesAt(s.trace, i, id) {
      if HandlesAt(s.trace, i, id) {
        HandlesAtIsHandled(s.trace, i, id);
        assert false;
      }
    }
  }

  lemma {:induction false} RunKeepsTrace(s: System, steps: seq<Step>)
    requires IsRun(s, steps)
    ensures s.trace <= Run(s, steps).trace
    decreases |steps|
  {
    if steps != [] {
      RunKeepsTrace(Apply(s, steps[0]), steps[1..]);
    }
  }

  lemma {:induction false} UngivenIsSafe(s: System, steps: seq<Step>, id: Id)
    requires IsRun(s, steps) && NotGivenFrom(Run(s, steps).trace, |s.trace|, id)
    ensures IsSafeRun(s, steps, id)
    decreases |steps|
  {
    if steps != [] {
      var s' := Apply(s, steps[0]);
      RunKeepsTrace(s', steps[1..]);
      assert s.trace <= s'.trace;
      if |s.trace| < |s'.trace| {
        assert s'.trace[|s.trace|] == Run(s, steps).trace[|s.trace|];
      }
      UngivenIsSafe(s', steps[1..], id);
    }
  }

  lemma SafeClaimLeadsNowhere(s: System, w: nat, ids: seq<Id>, id: Id, rest: seq<Step>)
    requires Inv(s) && Enabled(s, Claim(w, ids)) && id in ids
    requires !WasHandled(s.trace, id) && !IsHeld(s, id)
    ensures !IsSecondHandling(s, Claim(w, ids), rest, id)
  {
    var claim := Claim(w, ids);
    if IsSecondHandling(s, claim, rest, id) {
      AfterClaim(s, w, ids, id);
      var s1 := Apply(s, claim);
      RunIsPrepended(s, claim, rest);
      UntouchedHasOneGift(s, id);
      assert IsSafeStep(s, claim, id);
      var n := StepKeepsOneGift(s, claim, id, 0);
      hide HasOneGift, IsSafeStep, Apply, Enabled, Inv, IsHandledTwice, IsSafeRun, WasHandled, IsHeld, Holds;
      UngivenIsSafe(s1, rest, id);
      n := SafeRunKeepsOneGift(s1, rest, id, n);
      RunKeepsInv(s1, rest);
      OneGiftIsHandledOnce(Run(s1, rest), id, n);
      assert false;
    }
  }

  lemma RunIsPrepended(s: System, step: Step, rest: seq<Step>)
    requires IsRun(s, [step] + rest)
    ensures Enabled(s, step) && IsRun(Apply(s, step), rest)
    ensures Run(s, [step] + rest) == Run(Apply(s, step), rest)
  {
    assert ([step] + rest)[1..] == rest;
  }

  // A claim lets its entries be handled a second time, without any further gift, exactly when
  // they were handled already or a live worker still has them to handle.
  lemma ClaimLeadsToSecondIff(s: System, w: nat, ids: seq<Id>, id: Id)
    requires Inv(s) && Enabled(s, Claim(w, ids)) && id in ids
    requires HasEntry(s, id) && Decodes(MessageOf(s, id))
    ensures LeadsToSecondHandling(s, Claim(w, ids), id) <==> WasHandled(s.trace, id) || IsHeld(s, id)
  {
    if WasHandled(s.trace, id) || IsHeld(s, id) {
      UnsafeClaimLeads(s, w, ids, id);
    } else {
      hide Inv, Enabled, IsSecondHandling, WasHandled, IsHeld;
      forall rest ensures !IsSecondHandling(s, Claim(w, ids), rest, id) {
        SafeClaimLeadsNowhere(s, w, ids, id, rest);
      }
    }
  }

  // --- whole runs ---

  // No claim of entry id comes after it was handled, or while a live worker has it to handle.
  ghost predicate ClaimsAreSafe(s: System, steps: seq<Step>, id: Id)
    requires IsRun(s, steps)
    decreases |steps|
  {
    steps != [] ==>
      && (steps[0].Claim? && id in steps[0].ids ==> !WasHandled(s.trace, id) && !IsHeld(s, id))
      && ClaimsAreSafe(Apply(s, steps[0]), steps[1..], id)
  }

  lemma UndeliveredIsUntouched(s: System, id: Id)
    requires Inv(s) && IsUndelivered(s, id)
    ensures !WasHandled(s.trace, id) && !IsHeld(s, id)
  {
    if w, t :| Holds(s, w, t) && t.id == id {
      HeldIsGiven(s, w, t);
      GivenIsDelivered(s, t.src, w, id);
    }
    if WasHandled(s.trace, id) {
      HandledIsDelivered(s, id);
    }
  }

  lemma HandledIsDelivered(s: System, id: Id)
    requires Inv(s) && WasHandled(s.trace, id)
    ensures !IsUndelivered(s, id)
  {
    var j: nat :| j < |s.trace| && s.trace[j].Handled? && s.trace[j].token.id == id;
    assert HandledOnceEach(s.trace);
    GivenIsDelivered(s, s.trace[j].token.src, s.trace[j].worker, id);
  }

  lemma SafeClaimsAreSafeSteps(s: System, step: Step, id: Id)
    requires Inv(s) && Enabled(s, step)
    requires step.Claim? && id in step.ids ==> !WasHandled(s.trace, id) && !IsHeld(s, id)
    ensures IsSafeStep(s, step, id)
  {
    if step.ReadNew? {
      ReadsAreSafe(s, step.w, step.k, id);
    } else {
      hide Inv, WasHandled, IsHeld, Decodes, HasInline;
    }
  }

  lemma ReadsAreSafe(s: System, w: nat, k: nat, id: Id)
    requires Inv(s) && Enabled(s, ReadNew(w, k))
    ensures IsSafeStep(s, ReadNew(w, k), id)
  {
    assert EntriesArePlaced(s);
    ReadDelivers(s, w, k);
    hide EntriesArePlaced, AckedAreDone, WorkersAreSound, TimesAreSound, HandledOnceEach, GiftsAreSpaced;
    hide ReadsByPriority, WasHandled, IsHeld;
    if StepGives(s, ReadNew(w, k), id) {
      UndeliveredIsUntouched(s, id);
    }
  }

  lemma {:induction false} SafeClaimsAreSafeRun(s: System, steps: seq<Step>, id: Id)
    requires Inv(s) && IsRun(s, steps) && ClaimsAreSafe(s, steps, id)
    ensures IsSafeRun(s, steps, id)
    decreases |steps|
  {
    if steps != [] {
      SafeClaimsAreSafeSteps(s, steps[0], id);
      StepKeepsInv(s, steps[0]);
      hide Inv, IsSafeStep, Apply, Enabled;
      SafeClaimsAreSafeRun(Apply(s, steps[0]), steps[1..], id);
    }
  }

  // In a run in which every claim of an entry is such that it cannot lead to a second handling,
  // there is none.
  lemma SafeClaimsHandleOnce(s: System, steps: seq<Step>, id: Id)
    requires IsInitial(s) && IsRun(s, steps) && ClaimsAreSafe(s, steps, id)
    ensures !IsHandledTwice(Run(s, steps).trace, id)
  {
    InitialIsSound(s);
    UntouchedHasOneGift(s, id);
    SafeClaimsAreSafeRun(s, steps, id);
    hide HasOneGift, Inv, IsHandledTwice, IsSafeRun;
    var n := SafeRunKeepsOneGift(s, steps, id, 0);
    RunKeepsInv(s, steps);
    OneGiftIsHandledOnce(Run(s, steps), id, n);
  }
}
