/** No entry is ever out of reach: one worker that goes on working serves it. */
module EventQueueProgress {
  import opened EventQueue
  import opened EventQueueProofs
  import opened EventQueueOnce

  // --- what a worker does by itself ---

  function Undelivered(l: Log): nat {
    if l.delivered <= |l.messages| then |l.messages| - l.delivered else 0
  }

  // A read that takes all there is, up to ten entries.
  predicate IsFullRead(s: System, stream: Stream, k: nat) {
    k == if Undelivered(s.streams.Of(stream)) < 10 then Undelivered(s.streams.Of(stream)) else 10
  }

  // A step of worker w alone, which does not crash, and whose store calls succeed.
  predicate IsOwn(s: System, step: Step, w: nat) {
    match step
    case TickerFires(v) => v == w
    case TickerSilent(v) => v == w
    case Claim(v, _) => v == w
    case ClaimsDone(v) => v == w
    case ReadNew(v, k) =>
      v == w && w in s.workers && s.workers[w].pc.Reading? && IsFullRead(s, s.workers[w].pc.stream, k)
    case DrainDone(v) => v == w
    case Start(v) => v == w
    case Handle(v, _) => v == w
    case Ack(v, _, ok) => v == w && ok
    case _ => false
  }

  // Worker w alone works, and time passes.
  ghost predicate IsCourse(s: System, steps: seq<Step>, w: nat)
    decreases |steps|
  {
    steps == [] ||
    (Enabled(s, steps[0]) && (steps[0].Tick? || IsOwn(s, steps[0], w)) && IsCourse(Apply(s, steps[0]), steps[1..], w))
  }

  lemma {:induction false} CourseIsRun(s: System, steps: seq<Step>, w: nat)
    requires IsCourse(s, steps, w)
    ensures IsRun(s, steps)
    decreases |steps|
  {
    if steps != [] {
      CourseIsRun(Apply(s, steps[0]), steps[1..], w);
    }
  }

  // Worker w gets from s to s'.
  ghost predicate Reaches(s: System, s': System, w: nat) {
    exists steps :: IsCourse(s, steps, w) && IsRun(s, steps) && Run(s, steps) == s'
  }

  lemma ReachesItself(s: System, w: nat)
    ensures Reaches(s, s, w)
  {
    assert IsCourse(s, [], w) && IsRun(s, []) && Run(s, []) == s;
  }

  lemma ReachesAfter(s: System, step: Step, s': System, w: nat)
    requires Enabled(s, step) && (step.Tick? || IsOwn(s, step, w)) && Reaches(Apply(s, step), s', w)
    ensures Reaches(s, s', w)
  {
    var rest :| IsCourse(Apply(s, step), rest, w) && IsRun(Apply(s, step), rest) && Run(Apply(s, step), rest) == s';
    RunPrepend(s, step, rest);
    assert ([step] + rest)[1..] == rest;
    assert IsCourse(s, [step] + rest, w);
  }

  lemma {:induction false} CourseAppend(s: System, a: seq<Step>, b: seq<Step>, w: nat)
    requires IsCourse(s, a, w) && IsRun(s, a) && IsCourse(Run(s, a), b, w) && IsRun(Run(s, a), b)
    ensures IsCourse(s, a + b, w) && IsRun(s, a + b) && Run(s, a + b) == Run(Run(s, a), b)
    decreases |a|
  {
    if a == [] {
      assert a + b == b;
    } else {
      CourseAppend(Apply(s, a[0]), a[1..], b, w);
      assert (a + b)[1..] == a[1..] + b;
    }
  }

  lemma ReachesOn(s: System, v: System, u: System, w: nat)
    requires Reaches(s, v, w) && Reaches(v, u, w)
    ensures Reaches(s, u, w)
  {
    var a :| IsCourse(s, a, w) && IsRun(s, a) && Run(s, a) == v;
    var b :| IsCourse(v, b, w) && IsRun(v, b) && Run(v, b) == u;
    CourseAppend(s, a, b, w);
  }

  // What no step takes back.
  ghost predicate Keeps(s: System, s': System) {
    && s'.argocdEnabled == s.argocdEnabled && s'.ecrConcurrency == s.ecrConcurrency
    && s'.workers.Keys == s.workers.Keys && s.acked <= s'.acked && s.now <= s'.now
    && forall st: Stream :: s'.streams.Of(st).messages == s.streams.Of(st).messages
  }

  lemma KeepsOn(s: System, v: System, u: System)
    requires Keeps(s, v) && Keeps(v, u)
    ensures Keeps(s, u)
  {
  }

  lemma StepKeeps(s: System, step: Step, w: nat)
    requires Enabled(s, step) && (step.Tick? || IsOwn(s, step, w))
    ensures Keeps(s, Apply(s, step))
  {
  }

  // --- finishing what is in hand ---

  // Entry id is in the hands of worker w, handled or not.
  ghost predicate HasInHand(wk: Worker, id: Id) {
    (exists b :: b in wk.batch && b.id == id) || (exists t :: t in wk.tasks && t.token.id == id)
  }

  // Worker w works off what it has: nothing is read, claimed or lost.
  ghost predicate WorksOff(s: System, s': System, w: nat) {
    && w in s.workers && w in s'.workers && s'.workers[w].pc == s.workers[w].pc
    && s'.streams == s.streams && s'.now == s.now && Keeps(s, s')
    && (forall id | id in s.pending && id !in s'.acked :: id in s'.pending && s'.pending[id] == s.pending[id])
    && (forall id: Id | HasInHand(s.workers[w], id) && id !in s'.acked :: HasInHand(s'.workers[w], id))
  }

  lemma WorksOffOn(s: System, v: System, u: System, w: nat)
    requires WorksOff(s, v, w) && WorksOff(v, u, w)
    ensures WorksOff(s, u, w)
  {
    hide HasInHand;
  }

  lemma WorksOffNothing(s: System, w: nat)
    requires w in s.workers
    ensures WorksOff(s, s, w)
  {
  }

  lemma StartWorksOff(s: System, w: nat)
    requires Enabled(s, Start(w))
    ensures WorksOff(s, Apply(s, Start(w)), w)
  {
    var wk := s.workers[w];
    var s' := Apply(s, Start(w));
    forall id: Id | HasInHand(wk, id) ensures HasInHand(s'.workers[w], id) {
      if t :| t in wk.tasks && t.token.id == id {
        assert t in s'.workers[w].tasks;
      } else {
        var b :| b in wk.batch && b.id == id;
        if b == wk.batch[0] {
          assert Task(b, false, wk.pc != Draining(ECR)) in s'.workers[w].tasks;
        } else {
          assert b in s'.workers[w].batch;
        }
      }
    }
  }

  lemma HandleWorksOff(s: System, w: nat, task: Task)
    requires Enabled(s, Handle(w, task))
    ensures WorksOff(s, Apply(s, Handle(w, task)), w)
  {
    var wk := s.workers[w];
    var s' := Apply(s, Handle(w, task));
    forall id: Id | HasInHand(wk, id) ensures HasInHand(s'.workers[w], id) {
      if t :| t in wk.tasks && t.token.id == id {
        assert (if t == task then t.(handled := true) else t) in s'.workers[w].tasks;
      }
    }
  }

  lemma AckWorksOff(s: System, w: nat, task: Task)
    requires Enabled(s, Ack(w, task, true))
    ensures WorksOff(s, Apply(s, Ack(w, task, true)), w)
  {
    var wk := s.workers[w];
    var s' := Apply(s, Ack(w, task, true));
    forall id: Id | HasInHand(wk, id) && id !in s'.acked ensures HasInHand(s'.workers[w], id) {
      if t :| t in wk.tasks && t.token.id == id {
        assert t in s'.workers[w].tasks;
      }
    }
  }

  // One step that brings a worker with something in hand nearer to having nothing.
  lemma OneStepOff(s: System, w: nat) returns (step: Step)
    requires Inv(s) && w in s.workers && (s.workers[w].batch != [] || s.workers[w].tasks != {})
    ensures Enabled(s, step) && IsOwn(s, step, w) && WorksOff(s, Apply(s, step), w)
    ensures var wk, wk' := s.workers[w], Apply(s, step).workers[w];
      |wk'.batch| < |wk.batch| || (wk'.batch == wk.batch && Left(wk'.tasks) < Left(wk.tasks))
  {
    var wk := s.workers[w];
    if task :| task in wk.tasks {
      TaskHasEntry(s, w, task);
      if task.handled || !Decodes(MessageOf(s, task.token.id)) {
        step := Ack(w, task, true);
        AckLeavesLess(wk.tasks, task);
        AckWorksOff(s, w, task);
      } else {
        step := Handle(w, task);
        HandleLeavesLess(wk.tasks, task);
        HandleWorksOff(s, w, task);
      }
    } else {
      step := Start(w);
      StartIsNearer(s, w, wk.batch[0]);
      StartWorksOff(s, w);
    }
  }

  ghost predicate HasNothing(wk: Worker) {
    wk.batch == [] && wk.tasks == {}
  }

  lemma {:induction false} WorkOff(s: System, w: nat) returns (s': System)
    requires Inv(s) && w in s.workers
    ensures Reaches(s, s', w) && Inv(s') && WorksOff(s, s', w) && HasNothing(s'.workers[w])
    decreases |s.workers[w].batch|, Left(s.workers[w].tasks)
  {
    if HasNothing(s.workers[w]) {
      s' := s;
      ReachesItself(s, w);
      WorksOffNothing(s, w);
    } else {
      var step := OneStepOff(s, w);
      StepKeepsInv(s, step);
      hide Inv, WorksOff, Enabled, Apply, IsOwn, Left, Reaches;
      assert w in Apply(s, step).workers by { WorksOffKeepsWorker(s, Apply(s, step), w); }
      s' := WorkOff(Apply(s, step), w);
      WorksOffOn(s, Apply(s, step), s', w);
      ReachesAfter(s, step, s', w);
    }
  }

  lemma WorksOffKeepsWorker(s: System, s': System, w: nat)
    requires WorksOff(s, s', w)
    ensures w in s.workers && w in s'.workers && s'.workers[w].pc == s.workers[w].pc
    ensures s'.streams == s.streams && s'.now == s.now && Keeps(s, s')
  {
  }

  // --- going on to the next store call ---

  // What Run does next when nothing is in hand and the ticker is silent. No claim is counted on.
  function NextStep(s: System, w: nat): Step
    requires w in s.workers
  {
    match s.workers[w].pc
    case Top => TickerSilent(w)
    case Claiming(todo) => if todo == [] then ClaimsDone(w) else Claim(w, [])
    case Reading(stream) =>
      var n := Undelivered(s.streams.Of(stream));
      ReadNew(w, if n < BATCH_SIZE then n else BATCH_SIZE)
    case Draining(_) => DrainDone(w)
  }

  function TotalOf(streams: Streams): nat {
    Undelivered(streams.user) + Undelivered(streams.ecr) + Undelivered(streams.argocd)
  }

  function Total(s: System): nat { TotalOf(s.streams) }

  // The distance to the end of the round, along the places that a round visits.
  function ToEnd(pc: Place): nat {
    match pc
    case Top => 0
    case Draining(User) => 1
    case Draining(ArgoCD) => 1
    case Reading(ArgoCD) => 2
    case Draining(ECR) => 3
    case Reading(ECR) => 4
    case Reading(User) => 5
    case Claiming(todo) => 6 + |todo|
  }

  // The distance to the next read of this stream, as long as no read yields anything.
  function ToRead(pc: Place, stream: Stream): nat {
    var due := ToEnd(Reading(stream));
    if ToEnd(pc) >= due then ToEnd(pc) - due else ToEnd(pc) + 10
  }

  lemma NextStepIsOwn(s: System, w: nat)
    requires Inv(s) && w in s.workers && HasNothing(s.workers[w])
    ensures Enabled(s, NextStep(s, w)) && IsOwn(s, NextStep(s, w), w)
  {
    assert EntriesArePlaced(s);
    hide EntriesArePlaced, AckedAreDone, WorkersAreSound, TimesAreSound, HandledOnceEach, GiftsAreSpaced;
    hide ReadsByPriority;
    if s.workers[w].pc.Reading? {
      StreamIsSound(s, s.workers[w].pc.stream);
    }
  }

  lemma StreamIsSound(s: System, stream: Stream)
    requires Inv(s)
    ensures s.streams.Of(stream).delivered <= |s.streams.Of(stream).messages|
  {
    assert EntriesArePlaced(s);
  }

  lemma ReadTakes(s: System, w: nat, k: nat)
    requires w in s.workers && s.workers[w].pc.Reading? && Enabled(s, ReadNew(w, k))
    ensures var stream := s.workers[w].pc.stream; var l := s.streams.Of(stream); var s' := Apply(s, ReadNew(w, k));
      && l.delivered + k <= |l.messages|
      && s'.streams == s.streams.With(stream, l.(delivered := l.delivered + k))
      && s'.pending == Hold(s.pending, NewIds(stream, l.delivered, k), w, s.now) && s'.acked == s.acked
  {
    hide AfterRead, Hold;
  }

  lemma TotalAfter(streams: Streams, stream: Stream, k: nat)
    requires var l := streams.Of(stream); l.delivered + k <= |l.messages|
    ensures var l := streams.Of(stream); var after := streams.With(stream, l.(delivered := l.delivered + k));
      TotalOf(after) == TotalOf(streams) - k
  {
  }

  lemma ReadLeavesLess(s: System, w: nat, k: nat)
    requires w in s.workers && s.workers[w].pc.Reading? && Enabled(s, ReadNew(w, k))
    ensures Total(Apply(s, ReadNew(w, k))) == Total(s) - k
  {
    ReadTakes(s, w, k);
    TotalAfter(s.streams, s.workers[w].pc.stream, k);
    hide Apply, Enabled, TotalOf;
  }

  lemma ReadGoesTo(s: System, w: nat, k: nat)
    requires w in s.workers && s.workers[w].pc.Reading? && Enabled(s, ReadNew(w, k))
    ensures var wk' := Apply(s, ReadNew(w, k)).workers[w]; var stream := s.workers[w].pc.stream;
      wk'.pc == if k == 0 then AfterRead(s, stream, true) else Draining(stream)
  {
  }

  lemma NextReadIsNearer(s: System, place: Stream, stream: Stream)
    requires place != stream && stream in ActiveStreams(s)
    ensures ToRead(AfterRead(s, place, true), stream) < ToRead(Reading(place), stream)
  {
  }

  // Each such step either delivers something or is a step towards the next read of any
  // active stream.
  lemma NextStepIsNearer(s: System, w: nat, stream: Stream)
    requires Inv(s) && w in s.workers && HasNothing(s.workers[w]) && Enabled(s, NextStep(s, w))
    requires stream in ActiveStreams(s) && Undelivered(s.streams.Of(stream)) > 0
    ensures var s' := Apply(s, NextStep(s, w));
      && w in s'.workers
      && (Total(s') < Total(s)
          || (Total(s') == Total(s) && ToRead(s'.workers[w].pc, stream) < ToRead(s.workers[w].pc, stream)))
  {
    if s.workers[w].pc.Reading? {
      var place := s.workers[w].pc.stream;
      var k := NextStep(s, w).k;
      assert k == 0 ==> place != stream;
      ReadLeavesLess(s, w, k);
      ReadGoesTo(s, w, k);
      if k == 0 {
        NextReadIsNearer(s, place, stream);
      }
      assert w in Apply(s, NextStep(s, w)).workers;
      hide Inv, Total, ToRead, Undelivered, Apply, Enabled, HasNothing;
    } else {
      OtherStepIsNearer(s, w, stream);
    }
  }

  lemma OtherStepIsNearer(s: System, w: nat, stream: Stream)
    requires w in s.workers && HasNothing(s.workers[w]) && Enabled(s, NextStep(s, w))
    requires stream in ActiveStreams(s) && !s.workers[w].pc.Reading?
    ensures var s' := Apply(s, NextStep(s, w));
      w in s'.workers && s'.streams == s.streams && ToRead(s'.workers[w].pc, stream) < ToRead(s.workers[w].pc, stream)
  {
  }

  // Entry id is undelivered, or in the hands of worker w.
  ghost predicate IsWithin(s: System, w: nat, id: Id) {
    IsUndelivered(s, id) || (w in s.workers && HasInHand(s.workers[w], id))
  }

  lemma NextStepDelivers(s: System, w: nat, id: Id)
    requires Inv(s) && w in s.workers && HasNothing(s.workers[w]) && Enabled(s, NextStep(s, w))
    requires IsUndelivered(s, id)
    ensures IsWithin(Apply(s, NextStep(s, w)), w, id)
  {
    hide Inv;
    var s' := Apply(s, NextStep(s, w));
    var wk := s.workers[w];
    if wk.pc == Reading(id.stream) && !IsUndelivered(s', id) {
      var l := s.streams.Of(id.stream);
      assert s'.workers[w].batch[id.pos - l.delivered] == Token(id, |s.trace|);
    }
  }

  // --- serving an entry that nobody was given ---

  lemma {:induction false} ServeUndelivered(s: System, w: nat, id: Id) returns (s': System)
    requires Inv(s) && w in s.workers && id.stream in ActiveStreams(s) && IsUndelivered(s, id)
    ensures Reaches(s, s', w) && Inv(s') && Keeps(s, s') && id in s'.acked && s'.now == s.now
    decreases Total(s), ToRead(s.workers[w].pc, id.stream)
  {
    var v := WorkOff(s, w);
    WorksOffKeepsWorker(s, v, w);
    assert IsUndelivered(v, id) && id.stream in ActiveStreams(v);
    assert v.now == s.now && Undelivered(v.streams.Of(id.stream)) > 0;
    var step := NextStep(v, w);
    NextStepIsOwn(v, w);
    assert Apply(v, step).now == v.now;
    NextStepIsNearer(v, w, id.stream);
    NextStepDelivers(v, w, id);
    StepKeepsInv(v, step);
    StepKeeps(v, step, w);
    var u := Apply(v, step);
    hide Inv, Enabled, Apply, IsOwn, Reaches, NextStep, IsUndelivered, HasInHand, Total, ToRead, WorksOff, HasNothing;
    assert id.stream in ActiveStreams(u) && u.now == v.now;
    if IsUndelivered(u, id) {
      s' := ServeUndelivered(u, w, id);
    } else {
      s' := WorkOff(u, w);
      WorksOffKeepsWorker(u, s', w);
      NothingMeansAcked(u, s', w, id);
    }
    KeepsOn(v, u, s');
    KeepsOn(s, v, s');
    ReachesAfter(v, step, s', w);
    ReachesOn(s, v, s', w);
  }

  lemma NothingMeansAcked(u: System, s': System, w: nat, id: Id)
    requires WorksOff(u, s', w) && HasNothing(s'.workers[w]) && HasInHand(u.workers[w], id)
    ensures id in s'.acked
  {
  }

  // --- serving an entry that someone was given ---

  ghost predicate KeepsPending(s: System, s': System) {
    forall id | id in s.pending && id !in s'.acked :: id in s'.pending && s'.pending[id] == s.pending[id]
  }

  lemma KeepsPendingOn(s: System, v: System, u: System)
    requires KeepsPending(s, v) && KeepsPending(v, u) && v.acked <= u.acked
    ensures KeepsPending(s, u)
  {
  }

  lemma NextStepKeepsPending(s: System, w: nat)
    requires Inv(s) && w in s.workers && HasNothing(s.workers[w]) && Enabled(s, NextStep(s, w))
    ensures KeepsPending(s, Apply(s, NextStep(s, w)))
  {
    if s.workers[w].pc.Reading? {
      ReadKeepsPending(s, w, NextStep(s, w).k);
    } else if s.workers[w].pc.Claiming? && s.workers[w].pc.todo != [] {
      hide Inv;
      EmptyClaim(s, w);
    } else {
      hide Inv;
    }
  }

  lemma ReadKeepsPending(s: System, w: nat, k: nat)
    requires Inv(s) && w in s.workers && s.workers[w].pc.Reading? && Enabled(s, ReadNew(w, k))
    ensures KeepsPending(s, Apply(s, ReadNew(w, k)))
  {
    ReadTakes(s, w, k);
    hide Apply, Enabled, Inv;
    var l := s.streams.Of(s.workers[w].pc.stream);
    forall id | id in NewIds(s.workers[w].pc.stream, l.delivered, k) ensures id !in s.pending {
      assert HasEntry(s, id) && IsUndelivered(s, id);
      PlacedOnce(s, id);
    }
  }

  lemma PlacedOnce(s: System, id: Id)
    requires Inv(s) && HasEntry(s, id) && IsUndelivered(s, id)
    ensures id !in s.pending
  {
    assert EntriesArePlaced(s);
  }

  lemma WorksOffKeepsPending(s: System, s': System, w: nat)
    requires WorksOff(s, s', w)
    ensures KeepsPending(s, s')
  {
  }

  lemma NextStepIsNearerToEnd(s: System, w: nat)
    requires w in s.workers && HasNothing(s.workers[w]) && s.workers[w].pc != Top && Enabled(s, NextStep(s, w))
    ensures var s' := Apply(s, NextStep(s, w));
      w in s'.workers && ToEnd(s'.workers[w].pc) < ToEnd(s.workers[w].pc)
  {
    if s.workers[w].pc.Reading? {
      ReadGoesTo(s, w, NextStep(s, w).k);
    }
  }

  lemma {:induction false} EndRound(s: System, w: nat) returns (s': System)
    requires Inv(s) && w in s.workers
    ensures Reaches(s, s', w) && Inv(s') && Keeps(s, s') && KeepsPending(s, s')
    ensures w in s'.workers && s'.workers[w] == IDLE
    decreases ToEnd(s.workers[w].pc)
  {
    var v := WorkOff(s, w);
    WorksOffKeepsWorker(s, v, w);
    WorksOffKeepsPending(s, v, w);
    if v.workers[w].pc == Top {
      s' := v;
    } else {
      var step := NextStep(v, w);
      NextStepIsOwn(v, w);
      NextStepIsNearerToEnd(v, w);
      NextStepKeepsPending(v, w);
      StepKeepsInv(v, step);
      StepKeeps(v, step, w);
      hide Inv, Enabled, Apply, IsOwn, Reaches, NextStep, ToEnd, WorksOff, HasNothing, KeepsPending;
      s' := EndRound(Apply(v, step), w);
      KeepsPendingOn(v, Apply(v, step), s');
      KeepsOn(v, Apply(v, step), s');
      KeepsOn(s, v, s');
      KeepsPendingOn(s, v, s');
      ReachesAfter(v, step, s', w);
      ReachesOn(s, v, s', w);
    }
  }

  lemma EmptyClaim(s: System, w: nat)
    requires w in s.workers && HasNothing(s.workers[w]) && s.workers[w].pc.Claiming? && s.workers[w].pc.todo != []
    ensures Enabled(s, Claim(w, [])) && IsOwn(s, Claim(w, []), w)
    ensures var s' := Apply(s, Claim(w, []));
      && s'.pending == s.pending && s'.now == s.now && w in s'.workers
      && s'.workers[w] == Worker(Claiming(s.workers[w].pc.todo[1..]), [], {})
  {
    assert Hold(s.pending, [], w, s.now) == s.pending;
  }

  lemma {:induction false} ClaimInTurn(s: System, w: nat, id: Id) returns (s': System)
    requires Inv(s) && w in s.workers && HasNothing(s.workers[w])
    requires s.workers[w].pc.Claiming? && id.stream in s.workers[w].pc.todo
    requires id in s.pending && s.pending[id].since + CLAIM_MIN_IDLE <= s.now
    ensures Reaches(s, s', w) && Inv(s') && Keeps(s, s') && id in s'.acked
    decreases |s.workers[w].pc.todo|
  {
    var todo := s.workers[w].pc.todo;
    var step := Claim(w, if todo[0] == id.stream then [id] else []);
    if todo[0] == id.stream {
      ClaimOne(s, w, id);
    } else {
      EmptyClaim(s, w);
    }
    StepKeepsInv(s, step);
    StepKeeps(s, step, w);
    var v := Apply(s, step);
    if todo[0] == id.stream {
      assert Token(id, |s.trace|) in v.workers[w].batch;
      s' := WorkOff(v, w);
      WorksOffKeepsWorker(v, s', w);
      NothingMeansAcked(v, s', w, id);
    } else {
      assert id.stream in todo[1..];
      hide Inv, Enabled, Apply, IsOwn, Reaches, Keeps;
      s' := ClaimInTurn(v, w, id);
    }
    hide Inv, Enabled, Apply, Reaches, Keeps;
    KeepsOn(s, v, s');
    ReachesAfter(s, step, s', w);
  }

  // A worker at the top of its loop waits for the minimal idle time and claims the entry.
  lemma WaitAndClaim(s: System, w: nat, id: Id) returns (s': System)
    requires Inv(s) && w in s.workers && s.workers[w] == IDLE && id.stream in ActiveStreams(s) && id in s.pending
    ensures Reaches(s, s', w) && Inv(s') && Keeps(s, s') && id in s'.acked
  {
    var v := Apply(s, Tick(CLAIM_MIN_IDLE));
    var u := Apply(v, TickerFires(w));
    assert TimesAreSound(s);
    StepKeepsInv(s, Tick(CLAIM_MIN_IDLE));
    StepKeeps(s, Tick(CLAIM_MIN_IDLE), w);
    StepKeepsInv(v, TickerFires(w));
    StepKeeps(v, TickerFires(w), w);
    hide Inv, Reaches, Keeps;
    s' := ClaimInTurn(u, w, id);
    KeepsOn(v, u, s');
    KeepsOn(s, v, s');
    ReachesAfter(v, TickerFires(w), s', w);
    ReachesAfter(s, Tick(CLAIM_MIN_IDLE), s', w);
  }

  lemma ServePending(s: System, w: nat, id: Id) returns (s': System)
    requires Inv(s) && w in s.workers && id.stream in ActiveStreams(s) && id in s.pending
    ensures Reaches(s, s', w) && Inv(s') && Keeps(s, s') && id in s'.acked
  {
    hide Inv, Reaches;
    var v := EndRound(s, w);
    if id in v.acked {
      s' := v;
    } else {
      s' := WaitAndClaim(v, w, id);
      KeepsOn(s, v, s');
      ReachesOn(s, v, s', w);
    }
  }

  // --- every entry can be served ---

  // At every point of every run any one worker can go on, alone and whatever became of the
  // others, so that the entry is acked, and handled if it can be decoded.
  lemma EveryEntryCanBeServed(s: System, steps: seq<Step>, w: nat, id: Id)
    returns (more: seq<Step>)
    requires IsInitial(s) && IsRun(s, steps) && w in Run(s, steps).workers
    requires HasEntry(Run(s, steps), id) && id.stream in ActiveStreams(Run(s, steps))
    ensures var v := Run(s, steps);
      && IsCourse(v, more, w) && IsRun(v, more)
      && id in Run(v, more).acked
      && (Decodes(MessageOf(v, id)) ==> WasHandled(Run(v, more).trace, id))
  {
    InitialIsSound(s);
    RunKeepsInv(s, steps);
    var v := Run(s, steps);
    assert EntriesArePlaced(v);
    var u := v;
    if IsUndelivered(v, id) {
      u := ServeUndelivered(v, w, id);
    } else if id in v.pending {
      u := ServePending(v, w, id);
    } else {
      ReachesItself(v, w);
    }
    more :| IsCourse(v, more, w) && IsRun(v, more) && Run(v, more) == u;
    assert AckedAreDone(u);
  }
}
