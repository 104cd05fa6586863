/** The order in which a worker visits the streams, told from the trace of every run. */
module EventQueueOrder {
  import opened EventQueue
  import opened EventQueueProofs

  // The last read, claim or crash of worker w, if any.
  datatype Move = NoMove | Last(event: Event)

  function MoveOf(trace: seq<Event>, w: nat): Move {
    var i := LastMove(trace, w);
    if i < 0 then NoMove else Last(trace[i])
  }

  // A round of reads, or a round of claims, over the active streams begins with the user's.
  predicate BeginsRound(e: Event) {
    (e.Read? || e.Claimed?) && e.stream == User
  }

  // What may come after a move. After each read of a background stream the next one is due,
  // and after a read of the user stream they are due if it yielded nothing.
  predicate MayFollow(m: Move, e: Event, argocdEnabled: bool) {
    e.Crashed? ||
    match m
    case NoMove => BeginsRound(e)
    case Last(Crashed(_)) => BeginsRound(e)
    case Last(Read(_, User, ids, _)) => if ids == [] then e.Read? && e.stream == ECR else BeginsRound(e)
    case Last(Read(_, ECR, _, _)) => if argocdEnabled then e.Read? && e.stream == ArgoCD else BeginsRound(e)
    case Last(Read(_, ArgoCD, _, _)) => BeginsRound(e)
    case Last(Claimed(_, User, _, _)) => e.Claimed? && e.stream == ECR
    case Last(Claimed(_, ECR, _, _)) =>
      if argocdEnabled then e.Claimed? && e.stream == ArgoCD else e.Read? && e.stream == User
    case Last(Claimed(_, ArgoCD, _, _)) => e.Read? && e.stream == User
    case Last(Handled(_, _)) => false
  }

  ghost predicate IsOrdered(trace: seq<Event>, argocdEnabled: bool) {
    forall j | 0 <= j < |trace| && !trace[j].Handled? ::
      MayFollow(MoveOf(trace[..j], trace[j].worker), trace[j], argocdEnabled)
  }

  // Place pc fits the last move: whatever the worker does next from there may follow it.
  predicate Fits(m: Move, pc: Place, argocdEnabled: bool) {
    match pc
    case Top => IsBetweenRounds(m, argocdEnabled)
    case Claiming(todo) =>
      if todo == [] then m.Last? && m.event.Claimed? && m.event.stream == if argocdEnabled then ArgoCD else ECR
      else if todo == [ArgoCD] then argocdEnabled && m.Last? && m.event.Claimed? && m.event.stream == ECR
      else if todo == (if argocdEnabled then [ECR, ArgoCD] else [ECR]) then
        m.Last? && m.event.Claimed? && m.event.stream == User
      else todo == (if argocdEnabled then [User, ECR, ArgoCD] else [User, ECR]) && IsBetweenRounds(m, argocdEnabled)
    case Reading(User) =>
      || IsBetweenRounds(m, argocdEnabled)
      || (m.Last? && m.event.Claimed? && m.event.stream == if argocdEnabled then ArgoCD else ECR)
    case Reading(ECR) => m.Last? && m.event.Read? && m.event.stream == User && m.event.ids == []
    case Reading(ArgoCD) => argocdEnabled && m.Last? && m.event.Read? && m.event.stream == ECR
    case Draining(stream) =>
      && m.Last? && m.event.Read? && m.event.stream == stream
      && (stream == User ==> m.event.ids != []) && (stream == ArgoCD ==> argocdEnabled)
  }

  predicate IsBetweenRounds(m: Move, argocdEnabled: bool) {
    match m
    case NoMove => true
    case Last(Crashed(_)) => true
    case Last(Read(_, User, ids, _)) => ids != []
    case Last(Read(_, ECR, _, _)) => !argocdEnabled
    case Last(Read(_, ArgoCD, _, _)) => true
    case _ => false
  }

  ghost predicate PlacesFit(s: System) {
    forall w | w in s.workers :: Fits(MoveOf(s.trace, w), s.workers[w].pc, s.argocdEnabled)
  }

  ghost predicate InOrder(s: System) {
    PlacesFit(s) && IsOrdered(s.trace, s.argocdEnabled)
  }

  lemma MoveAfter(trace: seq<Event>, e: Event, w: nat)
    ensures MoveOf(trace + [e], w) == if !e.Handled? && e.worker == w then Last(e) else MoveOf(trace, w)
  {
    assert (trace + [e])[..|trace|] == trace;
  }

  lemma OrderedNext(trace: seq<Event>, e: Event, argocdEnabled: bool)
    requires IsOrdered(trace, argocdEnabled)
    requires !e.Handled? ==> MayFollow(MoveOf(trace, e.worker), e, argocdEnabled)
    ensures IsOrdered(trace + [e], argocdEnabled)
  {
    var after := trace + [e];
    hide MayFollow, MoveOf;
    forall j | 0 <= j < |after| && !after[j].Handled?
      ensures MayFollow(MoveOf(after[..j], after[j].worker), after[j], argocdEnabled)
    {
      if j < |trace| {
        assert after[..j] == trace[..j] && after[j] == trace[j];
      } else {
        assert after[..j] == trace;
      }
    }
  }

  // One event, by worker w, that changes at most the place of w.
  lemma EventKeepsOrder(s: System, s': System, w: nat, e: Event)
    requires InOrder(s) && e.worker == w && s'.trace == s.trace + [e] && s'.argocdEnabled == s.argocdEnabled
    requires w in s.workers && w in s'.workers && s'.workers == s.workers[w := s'.workers[w]]
    requires !e.Handled? ==> MayFollow(MoveOf(s.trace, w), e, s.argocdEnabled)
    requires Fits(if e.Handled? then MoveOf(s.trace, w) else Last(e), s'.workers[w].pc, s.argocdEnabled)
    ensures InOrder(s')
  {
    OrderedNext(s.trace, e, s.argocdEnabled);
    hide MayFollow, MoveOf, Fits, IsOrdered;
    forall v | v in s'.workers ensures Fits(MoveOf(s'.trace, v), s'.workers[v].pc, s'.argocdEnabled) {
      MoveAfter(s.trace, e, v);
    }
  }

  // No event, and worker w goes to a place that fits as well.
  lemma MoveKeepsOrder(s: System, s': System, w: nat)
    requires InOrder(s) && s'.trace == s.trace && s'.argocdEnabled == s.argocdEnabled
    requires w in s.workers && w in s'.workers && s'.workers == s.workers[w := s'.workers[w]]
    requires Fits(MoveOf(s.trace, w), s'.workers[w].pc, s.argocdEnabled)
    ensures InOrder(s')
  {
    hide Fits, MoveOf, IsOrdered;
  }

  lemma EventStepKeepsOrder(s: System, step: Step)
    requires InOrder(s) && Enabled(s, step) && (step.Handle? || step.Crash? || step.Claim? || step.ReadNew?)
    ensures InOrder(Apply(s, step))
  {
    var s' := Apply(s, step);
    var e := s'.trace[|s.trace|];
    var w := step.w;
    assert Fits(MoveOf(s.trace, w), s.workers[w].pc, s.argocdEnabled);
    EventFollows(s, step);
    hide IsOrdered, MoveOf, Fits, MayFollow, PlacesFit;
    EventKeepsOrder(s, s', w, e);
  }

  lemma EventFollows(s: System, step: Step)
    requires Enabled(s, step) && (step.Handle? || step.Crash? || step.Claim? || step.ReadNew?)
    requires Fits(MoveOf(s.trace, step.w), s.workers[step.w].pc, s.argocdEnabled)
    ensures var s' := Apply(s, step); var e := s'.trace[|s.trace|]; var w := step.w;
      && e.worker == w && s'.trace == s.trace + [e] && w in s'.workers
      && (!e.Handled? ==> MayFollow(MoveOf(s.trace, w), e, s.argocdEnabled))
      && Fits(if e.Handled? then MoveOf(s.trace, w) else Last(e), s'.workers[w].pc, s.argocdEnabled)
  {
    hide MoveOf;
  }

  lemma MoveFits(s: System, step: Step)
    requires Enabled(s, step)
    requires step.TickerFires? || step.TickerSilent? || step.ClaimsDone? || step.DrainDone? || step.Start? || step.Ack?
    requires Fits(MoveOf(s.trace, step.w), s.workers[step.w].pc, s.argocdEnabled)
    ensures var s' := Apply(s, step); var w := step.w;
      && s'.trace == s.trace && w in s'.workers && Fits(MoveOf(s.trace, w), s'.workers[w].pc, s.argocdEnabled)
  {
    hide MoveOf;
  }

  lemma StepKeepsOrder(s: System, step: Step)
    requires InOrder(s) && Enabled(s, step)
    ensures InOrder(Apply(s, step))
  {
    if step.Append? || step.Tick? {
      hide Fits, MoveOf, IsOrdered;
    } else if step.Handle? || step.Crash? || step.Claim? || step.ReadNew? {
      EventStepKeepsOrder(s, step);
    } else {
      MoveFits(s, step);
      hide Fits, MoveOf, IsOrdered;
      MoveKeepsOrder(s, Apply(s, step), step.w);
    }
  }

  lemma {:induction false} RunKeepsOrder(s: System, steps: seq<Step>)
    requires InOrder(s) && IsRun(s, steps)
    ensures InOrder(Run(s, steps)) && Run(s, steps).argocdEnabled == s.argocdEnabled
    decreases |steps|
  {
    if steps != [] {
      StepKeepsOrder(s, steps[0]);
      assert Apply(s, steps[0]).argocdEnabled == s.argocdEnabled;
      hide Apply, Enabled, InOrder;
      RunKeepsOrder(Apply(s, steps[0]), steps[1..]);
    }
  }

  lemma MoveIsLast(trace: seq<Event>, w: nat, i: nat, j: nat)
    requires i < j < |trace| && !trace[i].Handled? && trace[i].worker == w && IsUndisturbed(trace, w, i, j)
    ensures MoveOf(trace[..j], w) == Last(trace[i])
  {
    var before := trace[..j];
    var k := LastMove(before, w);
    assert before[i] == trace[i];
    assert k == i;
  }

  // In every run the next read, claim or crash of a worker after move i is one that may
  // follow it: no background stream is skipped.
  lemma NextMoveFollows(s: System, steps: seq<Step>, i: nat, j: nat)
    requires IsInitial(s) && IsRun(s, steps)
    requires var trace := Run(s, steps).trace;
      && i < j < |trace| && !trace[i].Handled? && !trace[j].Handled? && trace[i].worker == trace[j].worker
      && IsUndisturbed(trace, trace[i].worker, i, j)
    ensures var trace := Run(s, steps).trace; MayFollow(Last(trace[i]), trace[j], s.argocdEnabled)
  {
    RunKeepsOrder(s, steps);
    var trace := Run(s, steps).trace;
    MoveIsLast(trace, trace[i].worker, i, j);
    hide MayFollow, MoveOf, Run;
  }

  // The first one begins with the user stream.
  lemma FirstMoveBegins(s: System, steps: seq<Step>, j: nat)
    requires IsInitial(s) && IsRun(s, steps)
    requires var trace := Run(s, steps).trace;
      && j < |trace| && !trace[j].Handled?
      && forall i | 0 <= i < j :: trace[i].Handled? || trace[i].worker != trace[j].worker
    ensures var e := Run(s, steps).trace[j]; e.Crashed? || BeginsRound(e)
  {
    RunKeepsOrder(s, steps);
    var trace := Run(s, steps).trace;
    var k := LastMove(trace[..j], trace[j].worker);
    hide Run;
    assert k < 0;
    assert MayFollow(MoveOf(trace[..j], trace[j].worker), trace[j], s.argocdEnabled);
  }

  ghost predicate AreBatches(trace: seq<Event>) {
    forall j | 0 <= j < |trace| && (trace[j].Read? || trace[j].Claimed?) :: |trace[j].ids| <= 10
  }

  lemma {:induction false} RunKeepsBatches(s: System, steps: seq<Step>)
    requires AreBatches(s.trace) && IsRun(s, steps)
    ensures AreBatches(Run(s, steps).trace)
    decreases |steps|
  {
    if steps != [] {
      StepKeepsBatches(s, steps[0]);
      hide Apply, Enabled, AreBatches;
      RunKeepsBatches(Apply(s, steps[0]), steps[1..]);
    }
  }

  lemma StepKeepsBatches(s: System, step: Step)
    requires AreBatches(s.trace) && Enabled(s, step)
    ensures AreBatches(Apply(s, step).trace)
  {
  }

  // The ArgoCD stream is left alone unless the feature is on; nothing yields more than ten
  // entries at a time.
  lemma OnlyActiveStreams(s: System, steps: seq<Step>, j: nat)
    requires IsInitial(s) && IsRun(s, steps)
    requires var trace := Run(s, steps).trace; j < |trace| && (trace[j].Read? || trace[j].Claimed?)
    ensures Run(s, steps).trace[j].stream in ActiveStreams(s) && |Run(s, steps).trace[j].ids| <= 10
  {
    RunKeepsBatches(s, steps);
    RunKeepsOrder(s, steps);
    var trace := Run(s, steps).trace;
    hide Run;
    assert MayFollow(MoveOf(trace[..j], trace[j].worker), trace[j], s.argocdEnabled);
  }

  // --- which entries are handled ---

  // An event of one of the five kinds, with data that fits.
  predicate IsSupported(m: Message) {
    || m == Envelope(SlashCommand, true) || m == Envelope(Interactive, true) || m == Envelope(ECRPush, true)
    || m == Envelope(AppMention, true) || m == Envelope(ArgoCDNotification, true)
  }

  ghost predicate OnlySupported(s: System) {
    forall j | 0 <= j < |s.trace| && s.trace[j].Handled? ::
      HasEntry(s, s.trace[j].token.id) && IsSupported(MessageOf(s, s.trace[j].token.id))
  }

  lemma StepKeepsMessages(s: System, step: Step, id: Id)
    requires Enabled(s, step) && HasEntry(s, id)
    ensures HasEntry(Apply(s, step), id) && MessageOf(Apply(s, step), id) == MessageOf(s, id)
  {
  }

  lemma StepKeepsSupported(s: System, step: Step)
    requires OnlySupported(s) && Enabled(s, step)
    ensures OnlySupported(Apply(s, step))
  {
    var s' := Apply(s, step);
    assert s.trace <= s'.trace && |s'.trace| <= |s.trace| + 1;
    forall j | 0 <= j < |s'.trace| && s'.trace[j].Handled?
      ensures HasEntry(s', s'.trace[j].token.id) && IsSupported(MessageOf(s', s'.trace[j].token.id))
    {
      if j < |s.trace| {
        assert s'.trace[j] == s.trace[j];
        StepKeepsMessages(s, step, s.trace[j].token.id);
      }
    }
  }

  lemma {:induction false} RunKeepsSupported(s: System, steps: seq<Step>)
    requires OnlySupported(s) && IsRun(s, steps)
    ensures OnlySupported(Run(s, steps))
    decreases |steps|
  {
    if steps != [] {
      StepKeepsSupported(s, steps[0]);
      hide Apply, Enabled, OnlySupported;
      RunKeepsSupported(Apply(s, steps[0]), steps[1..]);
    }
  }

  // In every run an entry that was acked was handled exactly if it is of one of the five
  // kinds with data that fits; any other one is dropped.
  lemma AckedIsHandledIff(s: System, steps: seq<Step>, id: Id)
    requires IsInitial(s) && IsRun(s, steps) && HasEntry(Run(s, steps), id) && id in Run(s, steps).acked
    ensures WasHandled(Run(s, steps).trace, id) <==> IsSupported(MessageOf(Run(s, steps), id))
  {
    RunKeepsSupported(s, steps);
    NothingIsLost(s, steps, id);
    hide Run, IsRun, IsInitial;
  }
}
