/** Every step of event delivery keeps the invariant, and what every run therefore guarantees. */
module EventQueueProofs {
  import opened EventQueue

  // --- places ---

  lemma GivenIsDelivered(s: System, j: nat, w: nat, id: Id)
    requires TimesAreSound(s) && j < |s.trace| && Gives(s.trace[j], w, id)
    ensures HasEntry(s, id) && !IsUndelivered(s, id)
  {
    assert GivesToAnyone(s.trace[j], id);
  }

  lemma AppendKeepsPlaced(s: System, stream: Stream, m: Message)
    requires EntriesArePlaced(s)
    ensures EntriesArePlaced(Apply(s, Append(stream, m)))
  {
    var s' := Apply(s, Append(stream, m));
    forall id: Id
      ensures IsUndelivered(s', id) == (IsUndelivered(s, id) || (HasEntry(s', id) && !HasEntry(s, id)))
      ensures HasEntry(s, id) ==> HasEntry(s', id)
    {
      assert s.streams.Of(stream).delivered <= |s.streams.Of(stream).messages|;
    }
    forall st: Stream ensures s'.streams.Of(st).delivered <= |s'.streams.Of(st).messages| {
      assert s.streams.Of(st).delivered <= |s.streams.Of(st).messages|;
    }
  }

  // A read takes the entries it answers with out of the undelivered ones.
  lemma ReadDelivers(s: System, w: nat, k: nat)
    requires Enabled(s, ReadNew(w, k)) && EntriesArePlaced(s)
    ensures var s' := Apply(s, ReadNew(w, k));
      var stream := s.workers[w].pc.stream;
      var ids := NewIds(stream, s.streams.Of(stream).delivered, k);
      forall id: Id ::
        && IsUndelivered(s', id) == (IsUndelivered(s, id) && id !in ids)
        && HasEntry(s', id) == HasEntry(s, id)
        && (id in ids ==> IsUndelivered(s, id) && HasEntry(s, id))
  {
    var s' := Apply(s, ReadNew(w, k));
    var stream := s.workers[w].pc.stream;
    var ids := NewIds(stream, s.streams.Of(stream).delivered, k);
    forall id: Id
      ensures IsUndelivered(s', id) == (IsUndelivered(s, id) && id !in ids)
      ensures HasEntry(s', id) == HasEntry(s, id)
      ensures id in ids ==> IsUndelivered(s, id) && HasEntry(s, id)
    {
      if IsUndelivered(s, id) && id.stream == stream && id.pos < s.streams.Of(stream).delivered + k {
        assert ids[id.pos - s.streams.Of(stream).delivered] == id;
      }
    }
  }

  lemma ReadPlaces(s: System, w: nat, k: nat)
    requires Enabled(s, ReadNew(w, k)) && EntriesArePlaced(s)
    ensures EntriesArePlaced(Apply(s, ReadNew(w, k)))
  {
    var s' := Apply(s, ReadNew(w, k));
    var stream := s.workers[w].pc.stream;
    ReadDelivers(s, w, k);
    hide IsUndelivered, HasEntry, NewIds;
  }

  lemma AckedIsPlaced(s: System, s': System, id: Id)
    requires EntriesArePlaced(s) && HasEntry(s, id) && !IsUndelivered(s, id)
    requires s'.streams == s.streams && s'.pending == s.pending - {id} && s'.acked == s.acked + {id}
    ensures EntriesArePlaced(s')
  {
    assert forall i: Id :: HasEntry(s', i) == HasEntry(s, i) && IsUndelivered(s', i) == IsUndelivered(s, i);
    hide HasEntry, IsUndelivered;
  }

  lemma AckPlaces(s: System, w: nat, t: Task)
    requires Inv(s) && Enabled(s, Ack(w, t, true))
    ensures EntriesArePlaced(Apply(s, Ack(w, t, true)))
  {
    assert IsSoundTask(s, w, t);
    GivenIsDelivered(s, t.token.src, w, t.token.id);
    hide EntriesArePlaced, WorkersAreSound, TimesAreSound, HandledOnceEach, GiftsAreSpaced, ReadsByPriority;
    hide AckedAreDone;
    AckedIsPlaced(s, Apply(s, Ack(w, t, true)), t.token.id);
  }

  lemma SamePlaces(s: System, s': System)
    requires EntriesArePlaced(s) && s'.streams == s.streams && s'.pending == s.pending && s'.acked == s.acked
    ensures EntriesArePlaced(s')
  {
    assert forall i: Id :: HasEntry(s', i) == HasEntry(s, i) && IsUndelivered(s', i) == IsUndelivered(s, i);
    hide HasEntry, IsUndelivered;
  }

  lemma ClaimPlaces(s: System, w: nat, ids: seq<Id>)
    requires EntriesArePlaced(s) && Enabled(s, Claim(w, ids))
    ensures EntriesArePlaced(Apply(s, Claim(w, ids)))
  {
    var s' := Apply(s, Claim(w, ids));
    assert forall i: Id :: HasEntry(s', i) == HasEntry(s, i) && IsUndelivered(s', i) == IsUndelivered(s, i);
    assert s'.pending.Keys == s.pending.Keys;
    hide HasEntry, IsUndelivered, Apply;
  }

  lemma StepKeepsPlaced(s: System, step: Step)
    requires Inv(s) && Enabled(s, step)
    ensures EntriesArePlaced(Apply(s, step))
  {
    hide EntriesArePlaced, WorkersAreSound, TimesAreSound, HandledOnceEach, GiftsAreSpaced, ReadsByPriority;
    hide AckedAreDone;
    match step
    case Append(stream, m) => AppendKeepsPlaced(s, stream, m);
    case ReadNew(w, k) => ReadPlaces(s, w, k);
    case Claim(w, ids) => ClaimPlaces(s, w, ids);
    case Ack(w, t, ok) =>
      if ok {
        AckPlaces(s, w, t);
      } else {
        SamePlaces(s, Apply(s, step));
      }
    case _ => SamePlaces(s, Apply(s, step));
  }

  // --- what is acked ---

  lemma HandledStays(trace: seq<Event>, e: Event, id: Id)
    requires WasHandled(trace, id)
    ensures WasHandled(trace + [e], id)
  {
    var j: nat :| j < |trace| && trace[j].Handled? && trace[j].token.id == id;
    assert (trace + [e])[j] == trace[j];
  }

  lemma StepKeepsAcked(s: System, step: Step)
    requires Inv(s) && Enabled(s, step)
    ensures AckedAreDone(Apply(s, step))
  {
    hide TimesAreSound, HandledOnceEach, GiftsAreSpaced, ReadsByPriority, HasDistinctTokens, IsLive;
    var s' := Apply(s, step);
    forall id | id in s'.acked && HasEntry(s', id)
      ensures WasHandled(s'.trace, id) || !Decodes(MessageOf(s', id))
    {
      if id in s.acked {
        assert HasEntry(s, id) && MessageOf(s', id) == MessageOf(s, id);
        if WasHandled(s.trace, id) && s'.trace != s.trace {
          HandledStays(s.trace, s'.trace[|s.trace|], id);
        }
      } else {
        assert step.Ack? && step.task.token.id == id;
        assert IsSoundTask(s, step.w, step.task);
      }
    }
  }

  // --- when entries were given ---

  lemma AppendKeepsTimes(s: System, stream: Stream, m: Message)
    requires TimesAreSound(s)
    ensures TimesAreSound(Apply(s, Append(stream, m)))
  {
    var s' := Apply(s, Append(stream, m));
    forall j, id: Id | 0 <= j < |s'.trace| && GivesToAnyone(s'.trace[j], id)
      ensures !IsUndelivered(s', id) && HasEntry(s', id)
    {
      assert GivesToAnyone(s.trace[j], id);
      assert HasEntry(s, id) && !IsUndelivered(s, id);
    }
  }

  // A gift of delivered entries, recorded with the time at which they are held from now on.
  lemma GiftKeepsTimes(s: System, s': System, e: Event, owner: nat)
    requires TimesAreSound(s) && (e.Read? || e.Claimed?) && e.time == s.now
    requires s'.trace == s.trace + [e] && s'.now == s.now && s'.pending == Hold(s.pending, e.ids, owner, s.now)
    requires forall id: Id :: HasEntry(s', id) == HasEntry(s, id)
    requires forall id: Id :: IsUndelivered(s', id) ==> IsUndelivered(s, id) && id !in e.ids
    requires forall id | id in e.ids :: HasEntry(s, id)
    ensures TimesAreSound(s')
  {
    forall j, id: Id | 0 <= j < |s'.trace| && GivesToAnyone(s'.trace[j], id)
      ensures !IsUndelivered(s', id) && HasEntry(s', id)
      ensures id in s'.pending ==> s'.trace[j].time <= s'.pending[id].since
    {
      hide IsUndelivered, HasEntry;
      if j < |s.trace| {
        assert GivesToAnyone(s.trace[j], id);
      }
    }
  }

  lemma OtherStepKeepsTimes(s: System, s': System)
    requires TimesAreSound(s) && s'.streams == s.streams && s.now <= s'.now
    requires s'.trace == s.trace || exists e :: s'.trace == s.trace + [e] && (e.Handled? || e.Crashed?)
    requires forall id | id in s'.pending :: id in s.pending && s'.pending[id] == s.pending[id]
    ensures TimesAreSound(s')
  {
    forall j, id: Id | 0 <= j < |s'.trace| && GivesToAnyone(s'.trace[j], id)
      ensures !IsUndelivered(s', id) && HasEntry(s', id)
      ensures id in s'.pending ==> s'.trace[j].time <= s'.pending[id].since
    {
      assert GivesToAnyone(s.trace[j], id);
      assert HasEntry(s, id) && !IsUndelivered(s, id);
    }
  }

  lemma StepKeepsTimes(s: System, step: Step)
    requires Inv(s) && Enabled(s, step)
    ensures TimesAreSound(Apply(s, step))
  {
    hide WorkersAreSound, HandledOnceEach, GiftsAreSpaced, ReadsByPriority, AckedAreDone;
    var s' := Apply(s, step);
    match step
    case Append(stream, m) => AppendKeepsTimes(s, stream, m);
    case Claim(w, ids) =>
      forall id | id in ids ensures HasEntry(s, id) && !IsUndelivered(s, id) {
        assert id in s.pending;
      }
      GiftKeepsTimes(s, s', Claimed(w, s.workers[w].pc.todo[0], ids, s.now), w);
    case ReadNew(w, k) =>
      ReadDelivers(s, w, k);
      GiftKeepsTimes(s, s', s'.trace[|s.trace|], w);
    case _ => OtherStepKeepsTimes(s, s');
  }

  // --- the trace ---

  lemma TraceGrows(trace: seq<Event>, e: Event)
    ensures forall j :: 0 <= j <= |trace| ==> (trace + [e])[..j] == trace[..j]
  {
  }

  lemma LastMoveGrows(trace: seq<Event>, e: Event, w: nat)
    ensures LastMove(trace + [e], w) == if !e.Handled? && e.worker == w then |trace| else LastMove(trace, w)
  {
    assert (trace + [e])[..|trace|] == trace;
  }

  lemma HandleKeepsOnce(s: System, w: nat, t: Token)
    requires HandledOnceEach(s.trace) && IsLive(s, w, t)
    ensures HandledOnceEach(s.trace + [Handled(w, t)])
  {
  }

  lemma OtherKeepsOnce(trace: seq<Event>, e: Event)
    requires HandledOnceEach(trace) && !e.Handled?
    ensures HandledOnceEach(trace + [e])
  {
  }

  lemma GiftKeepsSpacing(s: System, e: Event)
    requires TimesAreSound(s) && GiftsAreSpaced(s.trace)
    requires forall id: Id :: GivesToAnyone(e, id) ==>
      IsUndelivered(s, id) ||
      (e.Claimed? && id in s.pending && s.pending[id].since + CLAIM_MIN_IDLE <= e.time)
    ensures GiftsAreSpaced(s.trace + [e])
  {
    var trace' := s.trace + [e];
    forall i, j, id: Id | 0 <= i < j < |trace'| && GivesToAnyone(trace'[i], id) && GivesToAnyone(trace'[j], id)
      ensures trace'[j].Claimed? && trace'[i].time + CLAIM_MIN_IDLE <= trace'[j].time
    {
      assert GivesToAnyone(s.trace[i], id);
      if j < |s.trace| {
        assert GivesToAnyone(s.trace[j], id);
      }
    }
  }

  lemma EventKeepsPriority(trace: seq<Event>, e: Event)
    requires ReadsByPriority(trace) && (e.Read? ==> MayReadNow(trace, e.worker, e.stream))
    ensures ReadsByPriority(trace + [e])
  {
    TraceGrows(trace, e);
    assert (trace + [e])[..|trace|] == trace;
    hide MayReadNow;
    forall j | 0 <= j < |trace + [e]| && (trace + [e])[j].Read?
      ensures MayReadNow((trace + [e])[..j], (trace + [e])[j].worker, (trace + [e])[j].stream)
    {
      if j < |trace| {
        assert (trace + [e])[..j] == trace[..j];
      }
    }
  }

  lemma StepKeepsOnce(s: System, step: Step)
    requires Inv(s) && Enabled(s, step)
    ensures HandledOnceEach(Apply(s, step).trace)
  {
    var s' := Apply(s, step);
    hide HandledOnceEach, GiftsAreSpaced, ReadsByPriority, AckedAreDone, TimesAreSound, EntriesArePlaced;
    hide HasDistinctTokens;
    match step
    case Handle(w, t) =>
      assert IsSoundTask(s, w, t);
      HandleKeepsOnce(s, w, t.token);
    case Claim(w, ids) => OtherKeepsOnce(s.trace, Claimed(w, s.workers[w].pc.todo[0], ids, s.now));
    case ReadNew(w, k) => OtherKeepsOnce(s.trace, s'.trace[|s.trace|]);
    case Crash(w) => OtherKeepsOnce(s.trace, Crashed(w));
    case _ =>
  }

  lemma StepKeepsSpacing(s: System, step: Step)
    requires Inv(s) && Enabled(s, step)
    ensures GiftsAreSpaced(Apply(s, step).trace)
  {
    var s' := Apply(s, step);
    hide HandledOnceEach, GiftsAreSpaced, ReadsByPriority, AckedAreDone, TimesAreSound, WorkersAreSound;
    hide EntriesArePlaced;
    hide Decodes, HasInline, Goroutines;
    match step
    case Handle(w, t) => GiftKeepsSpacing(s, Handled(w, t.token));
    case Claim(w, ids) => GiftKeepsSpacing(s, Claimed(w, s.workers[w].pc.todo[0], ids, s.now));
    case ReadNew(w, k) =>
      ReadDelivers(s, w, k);
      GiftKeepsSpacing(s, s'.trace[|s.trace|]);
    case Crash(w) => GiftKeepsSpacing(s, Crashed(w));
    case _ =>
  }

  lemma StepKeepsPriority(s: System, step: Step)
    requires Inv(s) && Enabled(s, step)
    ensures ReadsByPriority(Apply(s, step).trace)
  {
    var s' := Apply(s, step);
    hide HandledOnceEach, GiftsAreSpaced, ReadsByPriority, AckedAreDone, TimesAreSound, EntriesArePlaced;
    hide HasDistinctTokens;
    hide IsLive, IsSoundTask, Goroutines;
    match step
    case Handle(w, t) => EventKeepsPriority(s.trace, Handled(w, t.token));
    case Claim(w, ids) => EventKeepsPriority(s.trace, Claimed(w, s.workers[w].pc.todo[0], ids, s.now));
    case ReadNew(w, k) =>
      assert IsSoundWorker(s, w, s.workers[w]);
      EventKeepsPriority(s.trace, s'.trace[|s.trace|]);
    case Crash(w) => EventKeepsPriority(s.trace, Crashed(w));
    case _ =>
  }

  // --- workers ---

  // What happens to worker w is a step of its own, or of another one: event e is w's.
  lemma LiveStays(s: System, s': System, e: Event, v: nat, t: Token)
    requires IsLive(s, v, t) && s'.trace == s.trace + [e]
    requires e.Handled? ==> e.token != t
    ensures IsLive(s', v, t)
  {
  }

  lemma TaskStays(s: System, s': System, e: Event, v: nat, t: Task)
    requires IsSoundTask(s, v, t) && s'.trace == s.trace + [e]
    requires e.Handled? ==> e.token != t.token
    ensures IsSoundTask(s', v, t)
  {
    if t.handled {
      HandledStays(s.trace, e, t.token.id);
    }
  }

  // Tokens of different workers differ.
  lemma TokensDiffer(s: System, w: nat, t: Token, v: nat, u: Token)
    requires w != v && t.src < |s.trace| && Gives(s.trace[t.src], w, t.id)
    requires u.src < |s.trace| && Gives(s.trace[u.src], v, u.id)
    ensures t != u
  {
  }

  // The other workers are not affected by what worker w records.
  lemma OthersStaySound(s: System, s': System, e: Event, w: nat, v: nat)
    requires WorkersAreSound(s) && v in s.workers && v != w && e.worker == w
    requires s'.trace == s.trace + [e] && s'.ecrConcurrency == s.ecrConcurrency
    requires e.Handled? ==> e.token.src < |s.trace| && Gives(s.trace[e.token.src], w, e.token.id)
    ensures IsSoundWorker(s', v, s.workers[v])
  {
    var wk := s.workers[v];
    assert IsSoundWorker(s, v, wk);
    hide HasDistinctTokens;
    LastMoveGrows(s.trace, e, v);
    forall b | b in wk.batch ensures IsLive(s', v, b) {
      if e.Handled? { TokensDiffer(s, w, e.token, v, b); }
      LiveStays(s, s', e, v, b);
    }
    forall t | t in wk.tasks ensures IsSoundTask(s', v, t) {
      if e.Handled? { TokensDiffer(s, w, e.token, v, t.token); }
      TaskStays(s, s', e, v, t);
    }
    hide IsLive, IsSoundTask;
    assert LastMove(s.trace, v) >= 0 ==> s'.trace[LastMove(s.trace, v)] == s.trace[LastMove(s.trace, v)];
  }

  // A gift: the batch is made of the tokens of event e, and of nothing else.
  lemma GiftIsSound(s: System, s': System, e: Event, w: nat, pc: Place)
    requires WorkersAreSound(s) && HandledOnceEach(s.trace) && w in s.workers && s.workers[w].batch == []
    requires (e.Read? || e.Claimed?) && e.worker == w && forall i, j :: 0 <= i < j < |e.ids| ==> e.ids[i] != e.ids[j]
    requires s'.trace == s.trace + [e] && s'.ecrConcurrency == s.ecrConcurrency
    requires pc.Reading? || pc == Top ==> e.ids == []
    requires pc == Reading(ECR) ==> IsEmptyUserRead(e)
    requires pc == Reading(ArgoCD) || pc == Draining(ECR) ==> IsECRRead(e)
    ensures IsSoundWorker(s', w, s.workers[w].(pc := pc, batch := TokensFor(e.ids, |s.trace|)))
  {
    var wk := s.workers[w];
    assert IsSoundWorker(s, w, wk);
    var batch := TokensFor(e.ids, |s.trace|);
    LastMoveGrows(s.trace, e, w);
    forall b | b in batch ensures IsLive(s', w, b) {
      NewTokenIsLive(s, s', e, w, b);
    }
    forall t | t in wk.tasks ensures IsSoundTask(s', w, t) && t.token.src < |s.trace| {
      TaskStays(s, s', e, w, t);
    }
    hide IsLive, IsSoundTask;
    assert HasDistinctTokens(wk.(pc := pc, batch := batch));
    assert Goroutines(wk.(pc := pc, batch := batch)) == Goroutines(wk);
    hide Goroutines, HasDistinctTokens;
  }

  lemma NewTokenIsLive(s: System, s': System, e: Event, w: nat, b: Token)
    requires HandledOnceEach(s.trace)
    requires (e.Read? || e.Claimed?) && e.worker == w && s'.trace == s.trace + [e]
    requires b.src == |s.trace| && b.id in e.ids
    ensures IsLive(s', w, b)
  {
  }

  lemma StartKeepsDistinct(wk: Worker, isInline: bool)
    requires HasDistinctTokens(wk) && wk.batch != []
    ensures HasDistinctTokens(wk.(batch := wk.batch[1..], tasks := wk.tasks + {Task(wk.batch[0], false, isInline)}))
  {
    assert forall b | b in wk.batch[1..] :: b in wk.batch && b != wk.batch[0];
    assert wk.batch[0] in wk.batch;
  }

  // A worker that changes neither its place nor the trace, but its batch and its tasks.
  lemma SameTraceIsSound(s: System, w: nat, wk: Worker, batch: seq<Token>, tasks: set<Task>)
    requires IsSoundWorker(s, w, wk) && (wk.batch == [] ==> batch == [])
    requires HasDistinctTokens(wk.(batch := batch, tasks := tasks))
    requires |Goroutines(wk.(batch := batch, tasks := tasks))| <= s.ecrConcurrency
    requires forall b | b in batch :: IsLive(s, w, b)
    requires forall t | t in tasks :: IsSoundTask(s, w, t)
    ensures IsSoundWorker(s, w, wk.(batch := batch, tasks := tasks))
  {
    hide IsLive, IsSoundTask, LastMove, HasDistinctTokens, Goroutines, MayReadNow;
  }

  lemma BatchIsLive(s: System, w: nat, b: Token)
    requires WorkersAreSound(s) && w in s.workers && b in s.workers[w].batch
    ensures IsLive(s, w, b)
  {
    assert IsSoundWorker(s, w, s.workers[w]);
  }

  lemma StartIsSound(s: System, w: nat)
    requires WorkersAreSound(s) && Enabled(s, Start(w))
    ensures IsSoundWorker(s, w, Apply(s, Start(w)).workers[w])
  {
    var wk := s.workers[w];
    var t := Task(wk.batch[0], false, wk.pc != Draining(ECR));
    assert IsSoundWorker(s, w, wk);
    StartKeepsDistinct(wk, wk.pc != Draining(ECR));
    StartKeepsBound(wk, t, s.ecrConcurrency);
    hide WorkersAreSound, IsLive, HasDistinctTokens, Goroutines, LastMove, MayReadNow, HasInline;
    forall b | b in wk.batch ensures IsLive(s, w, b) {
      BatchIsLive(s, w, b);
    }
    StartedIsSound(s, w, t);
    assert forall b | b in wk.batch[1..] :: b in wk.batch;
    hide IsSoundTask;
    SameTraceIsSound(s, w, wk, wk.batch[1..], wk.tasks + {t});
  }

  lemma StartKeepsBound(wk: Worker, t: Task, bound: nat)
    requires |Goroutines(wk)| <= bound && (!t.isInline ==> |Goroutines(wk)| < bound)
    ensures |Goroutines(wk.(batch := if wk.batch == [] then [] else wk.batch[1..], tasks := wk.tasks + {t}))| <= bound
  {
    var wk' := wk.(batch := if wk.batch == [] then [] else wk.batch[1..], tasks := wk.tasks + {t});
    assert Goroutines(wk') == if t.isInline then Goroutines(wk) else Goroutines(wk) + {t};
  }

  lemma StartedIsSound(s: System, w: nat, t: Task)
    requires IsLive(s, w, t.token) && !t.handled
    ensures IsSoundTask(s, w, t)
  {
  }

  lemma HandleKeepsDistinct(wk: Worker, t: Task)
    requires HasDistinctTokens(wk) && t in wk.tasks
    ensures HasDistinctTokens(wk.(tasks := wk.tasks - {t} + {t.(handled := true)}))
  {
  }

  lemma HandledIsSound(s: System, s': System, w: nat, t: Task)
    requires IsSoundTask(s, w, t) && s'.trace == s.trace + [Handled(w, t.token)]
    ensures IsSoundTask(s', w, t.(handled := true))
  {
    assert s'.trace[|s.trace|] == Handled(w, t.token);
  }

  // An event of w other than a read, a claim or a crash does not change its place in Run.
  lemma SamePlaceIsSound(s: System, s': System, e: Event, w: nat, wk: Worker, tasks: set<Task>)
    requires IsSoundWorker(s, w, wk) && s'.trace == s.trace + [e] && e.Handled?
    requires s'.ecrConcurrency == s.ecrConcurrency
    requires HasDistinctTokens(wk.(tasks := tasks)) && |Goroutines(wk.(tasks := tasks))| <= |Goroutines(wk)|
    requires forall b | b in wk.batch :: IsLive(s', w, b)
    requires forall t | t in tasks :: IsSoundTask(s', w, t)
    ensures IsSoundWorker(s', w, wk.(tasks := tasks))
  {
    LastMoveGrows(s.trace, e, w);
    assert LastMove(s.trace, w) >= 0 ==> s'.trace[LastMove(s.trace, w)] == s.trace[LastMove(s.trace, w)];
    hide IsLive, IsSoundTask, LastMove, HasDistinctTokens, Goroutines;
  }

  lemma BatchOutlivesHandling(s: System, s': System, w: nat, t: Task, b: Token)
    requires WorkersAreSound(s) && w in s.workers && t in s.workers[w].tasks && b in s.workers[w].batch
    requires s'.trace == s.trace + [Handled(w, t.token)]
    ensures IsLive(s', w, b)
  {
    assert IsSoundWorker(s, w, s.workers[w]);
    LiveStays(s, s', Handled(w, t.token), w, b);
  }

  lemma TasksOutliveHandling(s: System, s': System, w: nat, t: Task, u: Task)
    requires WorkersAreSound(s) && w in s.workers && t in s.workers[w].tasks && u in s.workers[w].tasks && u != t
    requires s'.trace == s.trace + [Handled(w, t.token)]
    ensures IsSoundTask(s', w, u)
  {
    assert IsSoundWorker(s, w, s.workers[w]);
    hide IsLive, LastMove;
    TaskStays(s, s', Handled(w, t.token), w, u);
  }

  lemma HandleIsSound(s: System, w: nat, t: Task)
    requires WorkersAreSound(s) && Enabled(s, Handle(w, t))
    ensures var s' := Apply(s, Handle(w, t)); IsSoundWorker(s', w, s'.workers[w])
  {
    var wk := s.workers[w];
    var s' := Apply(s, Handle(w, t));
    var tasks := wk.tasks - {t} + {t.(handled := true)};
    assert IsSoundWorker(s, w, wk);
    HandleKeepsDistinct(wk, t);
    HandleKeepsBound(wk, t);
    hide IsLive, IsSoundTask, LastMove, Goroutines, WorkersAreSound, MayReadNow, HasDistinctTokens, Decodes;
    forall b | b in wk.batch ensures IsLive(s', w, b) {
      BatchOutlivesHandling(s, s', w, t, b);
    }
    forall u | u in tasks ensures IsSoundTask(s', w, u) {
      if u == t.(handled := true) {
        HandledIsSound(s, s', w, t);
      } else {
        TasksOutliveHandling(s, s', w, t, u);
      }
    }
    hide IsSoundWorker;
    SamePlaceIsSound(s, s', Handled(w, t.token), w, wk, tasks);
  }

  lemma HandleKeepsBound(wk: Worker, t: Task)
    requires t in wk.tasks
    ensures |Goroutines(wk.(tasks := wk.tasks - {t} + {t.(handled := true)}))| <= |Goroutines(wk)|
  {
    var t' := t.(handled := true);
    var wk' := wk.(tasks := wk.tasks - {t} + {t'});
    if t.isInline {
      assert Goroutines(wk') == Goroutines(wk);
    } else {
      assert t in Goroutines(wk);
      assert Goroutines(wk') == Goroutines(wk) - {t} + {t'};
    }
  }

  lemma AckIsSound(s: System, w: nat, t: Task, ok: bool)
    requires WorkersAreSound(s) && Enabled(s, Ack(w, t, ok))
    ensures IsSoundWorker(s, w, s.workers[w].(tasks := s.workers[w].tasks - {t}))
  {
    var wk := s.workers[w];
    var wk' := wk.(tasks := wk.tasks - {t});
    assert IsSoundWorker(s, w, wk);
    assert Goroutines(wk') == Goroutines(wk) - {t};
  }

  lemma MoveIsSound(s: System, w: nat, pc: Place)
    requires WorkersAreSound(s) && w in s.workers && s.workers[w].batch == []
    requires pc == Top || pc.Claiming? || (pc.Reading? && MayReadNow(s.trace, w, pc.stream))
    ensures IsSoundWorker(s, w, s.workers[w].(pc := pc))
  {
    var wk := s.workers[w];
    assert IsSoundWorker(s, w, wk);
    assert Goroutines(wk.(pc := pc)) == Goroutines(wk);
    hide IsLive, IsSoundTask, MayReadNow, Goroutines;
  }

  lemma DrainedMayRead(s: System, w: nat)
    requires WorkersAreSound(s) && Enabled(s, DrainDone(w))
    ensures var pc := AfterRead(s, s.workers[w].pc.stream, false);
      pc == Top || (pc.Reading? && MayReadNow(s.trace, w, pc.stream))
  {
    assert IsSoundWorker(s, w, s.workers[w]);
  }

  // Soundness of a worker depends on the trace and the bound on goroutines only.
  lemma SoundnessDependsOn(s: System, s': System, w: nat, wk: Worker)
    requires IsSoundWorker(s, w, wk) && s'.trace == s.trace && s'.ecrConcurrency == s.ecrConcurrency
    ensures IsSoundWorker(s', w, wk)
  {
    forall t | t in wk.tasks ensures IsSoundTask(s', w, t) {
      assert IsSoundTask(s, w, t);
    }
  }

  lemma OwnStepIsSound(s: System, s': System, w: nat, wk: Worker)
    requires WorkersAreSound(s) && IsSoundWorker(s, w, wk)
    requires s'.workers == s.workers[w := wk] && s'.trace == s.trace && s'.ecrConcurrency == s.ecrConcurrency
    ensures WorkersAreSound(s')
  {
    forall v | v in s'.workers ensures IsSoundWorker(s', v, s'.workers[v]) {
      SoundnessDependsOn(s, s', v, s'.workers[v]);
    }
  }

  lemma EventStepIsSound(s: System, s': System, e: Event, w: nat, wk: Worker)
    requires WorkersAreSound(s) && IsSoundWorker(s', w, wk) && e.worker == w
    requires s'.workers == s.workers[w := wk] && s'.trace == s.trace + [e] && s'.ecrConcurrency == s.ecrConcurrency
    requires e.Handled? ==> e.token.src < |s.trace| && Gives(s.trace[e.token.src], w, e.token.id)
    ensures WorkersAreSound(s')
  {
    forall v | v in s'.workers ensures IsSoundWorker(s', v, s'.workers[v]) {
      if v != w {
        OthersStaySound(s, s', e, w, v);
      }
    }
  }

  // Steps that move a worker in Run.
  lemma MoveKeepsWorkers(s: System, step: Step)
    requires WorkersAreSound(s) && Enabled(s, step)
    requires step.TickerFires? || step.TickerSilent? || step.ClaimsDone? || step.DrainDone?
    ensures WorkersAreSound(Apply(s, step))
  {
    var s' := Apply(s, step);
    var w := step.w;
    hide WorkersAreSound, IsSoundWorker, MayReadNow, HasInline;
    if step.TickerFires? || step.TickerSilent? {
      TopHasNoBatch(s, w);
    }
    if step.DrainDone? {
      DrainedMayRead(s, w);
    }
    UserMayRead(s, w);
    MoveIsSound(s, w, s'.workers[w].pc);
    OwnStepIsSound(s, s', w, s'.workers[w]);
  }

  lemma UserMayRead(s: System, w: nat)
    ensures MayReadNow(s.trace, w, User)
  {
  }

  // Steps that give entries to a worker.
  lemma GiftKeepsWorkers(s: System, step: Step)
    requires WorkersAreSound(s) && HandledOnceEach(s.trace) && Enabled(s, step) && (step.Claim? || step.ReadNew?)
    ensures WorkersAreSound(Apply(s, step))
  {
    var s' := Apply(s, step);
    var w := step.w;
    var e := s'.trace[|s.trace|];
    hide WorkersAreSound, HandledOnceEach, IsSoundWorker, HasInline;
    if step.ReadNew? {
      TopHasNoBatch(s, w);
    }
    GiftIsSound(s, s', e, w, s'.workers[w].pc);
    EventStepIsSound(s, s', e, w, s'.workers[w]);
  }

  // Steps of process.
  lemma TaskKeepsWorkers(s: System, step: Step)
    requires WorkersAreSound(s) && Enabled(s, step) && (step.Start? || step.Handle? || step.Ack?)
    ensures WorkersAreSound(Apply(s, step))
  {
    var s' := Apply(s, step);
    hide WorkersAreSound, IsSoundWorker, HasInline, Goroutines, Decodes;
    match step
    case Start(w) =>
      StartIsSound(s, w);
      OwnStepIsSound(s, s', w, s'.workers[w]);
    case Ack(w, t, ok) =>
      AckIsSound(s, w, t, ok);
      OwnStepIsSound(s, s', w, s'.workers[w]);
    case Handle(w, t) =>
      HandleIsSound(s, w, t);
      TaskHasGift(s, w, t);
      EventStepIsSound(s, s', Handled(w, t.token), w, s'.workers[w]);
  }

  lemma CrashKeepsWorkers(s: System, w: nat)
    requires WorkersAreSound(s) && Enabled(s, Crash(w))
    ensures WorkersAreSound(Apply(s, Crash(w)))
  {
    var s' := Apply(s, Crash(w));
    IdleIsSound(s', w);
    hide WorkersAreSound, IsSoundWorker;
    EventStepIsSound(s, s', Crashed(w), w, IDLE);
  }

  lemma StepKeepsWorkers(s: System, step: Step)
    requires Inv(s) && Enabled(s, step)
    ensures WorkersAreSound(Apply(s, step))
  {
    hide EntriesArePlaced, AckedAreDone, TimesAreSound, GiftsAreSpaced, ReadsByPriority, HandledOnceEach;
    hide WorkersAreSound, Enabled;
    if step.Append? || step.Tick? {
      SameWorkers(s, Apply(s, step));
    } else if step.Crash? {
      CrashKeepsWorkers(s, step.w);
    } else if step.Claim? || step.ReadNew? {
      GiftKeepsWorkers(s, step);
    } else if step.Start? || step.Handle? || step.Ack? {
      TaskKeepsWorkers(s, step);
    } else {
      MoveKeepsWorkers(s, step);
    }
  }

  lemma IdleIsSound(s: System, w: nat)
    ensures IsSoundWorker(s, w, IDLE)
  {
    assert Goroutines(IDLE) == {};
  }

  lemma SameWorkers(s: System, s': System)
    requires WorkersAreSound(s) && s'.workers == s.workers && s'.trace == s.trace
    requires s'.ecrConcurrency == s.ecrConcurrency
    ensures WorkersAreSound(s')
  {
    forall v | v in s'.workers ensures IsSoundWorker(s', v, s'.workers[v]) {
      SoundnessDependsOn(s, s', v, s.workers[v]);
    }
  }

  lemma TopHasNoBatch(s: System, w: nat)
    requires WorkersAreSound(s) && w in s.workers && (s.workers[w].pc == Top || s.workers[w].pc.Reading?)
    ensures s.workers[w].batch == []
  {
    assert IsSoundWorker(s, w, s.workers[w]);
  }

  lemma TaskHasGift(s: System, w: nat, t: Task)
    requires WorkersAreSound(s) && w in s.workers && t in s.workers[w].tasks
    ensures t.token.src < |s.trace| && Gives(s.trace[t.token.src], w, t.token.id)
  {
    assert IsSoundTask(s, w, t);
  }

  // --- every run ---

  lemma StepKeepsInv(s: System, step: Step)
    requires Inv(s) && Enabled(s, step)
    ensures Inv(Apply(s, step))
  {
    StepKeepsPlaced(s, step);
    StepKeepsAcked(s, step);
    StepKeepsTimes(s, step);
    StepKeepsOnce(s, step);
    StepKeepsSpacing(s, step);
    StepKeepsPriority(s, step);
    StepKeepsWorkers(s, step);
    assert Apply(s, step).ecrConcurrency == s.ecrConcurrency;
    hide EntriesArePlaced, AckedAreDone, WorkersAreSound, TimesAreSound, HandledOnceEach, GiftsAreSpaced;
    hide ReadsByPriority, Apply;
  }

  lemma InitialIsSound(s: System)
    requires IsInitial(s)
    ensures Inv(s)
  {
    assert Goroutines(IDLE) == {};
  }

  lemma {:induction false} RunKeepsInv(s: System, steps: seq<Step>)
    requires Inv(s) && IsRun(s, steps)
    ensures Inv(Run(s, steps))
    decreases |steps|
  {
    if steps != [] {
      StepKeepsInv(s, steps[0]);
      RunKeepsInv(Apply(s, steps[0]), steps[1..]);
    }
  }

  function Ones(a: bool, b: bool, c: bool): nat {
    (if a then 1 else 0) + (if b then 1 else 0) + (if c then 1 else 0)
  }

  // At every point of every run each entry is in exactly one place, and an acked entry was
  // handled or cannot be decoded.
  lemma NothingIsLost(s: System, steps: seq<Step>, id: Id)
    requires IsInitial(s) && IsRun(s, steps) && HasEntry(Run(s, steps), id)
    ensures var s' := Run(s, steps);
      && Ones(IsUndelivered(s', id), id in s'.pending, id in s'.acked) == 1
      && (id in s'.acked ==> WasHandled(s'.trace, id) || !Decodes(MessageOf(s', id)))
  {
    InitialIsSound(s);
    RunKeepsInv(s, steps);
    assert EntriesArePlaced(Run(s, steps)) && AckedAreDone(Run(s, steps));
    hide WorkersAreSound, TimesAreSound, HandledOnceEach, GiftsAreSpaced, ReadsByPriority;
    hide IsUndelivered, Decodes, WasHandled;
  }

  // Event k claims entry id, which was given to someone at least a minute before.
  ghost predicate IsLateClaim(trace: seq<Event>, k: nat, id: Id) {
    && k < |trace| && trace[k].Claimed? && id in trace[k].ids
    && exists m: nat :: m < k && GivesToAnyone(trace[m], id) && trace[m].time + 60 <= trace[k].time
  }

  // An entry is handled a second time only after it was claimed from someone who had held
  // it, without a sign of life, for the minimal idle time.
  lemma SecondHandlingFollowsClaim(s: System, steps: seq<Step>, i: nat, j: nat)
    requires IsInitial(s) && IsRun(s, steps)
    requires var trace := Run(s, steps).trace;
      i < j < |trace| && trace[i].Handled? && trace[j].Handled? && trace[i].token.id == trace[j].token.id
    ensures var trace := Run(s, steps).trace; exists k: nat :: k < j && IsLateClaim(trace, k, trace[j].token.id)
  {
    InitialIsSound(s);
    RunKeepsInv(s, steps);
    var trace := Run(s, steps).trace;
    assert HandledOnceEach(trace) && GiftsAreSpaced(trace);
    hide EntriesArePlaced, AckedAreDone, WorkersAreSound, TimesAreSound, ReadsByPriority, Run;
    var id := trace[j].token.id;
    var a, b := trace[i].token.src, trace[j].token.src;
    var m, k := if a < b then a else b, if a < b then b else a;
    assert GivesToAnyone(trace[m], id) && GivesToAnyone(trace[k], id);
    assert IsLateClaim(trace, k, id);
  }

  // No read, claim or crash of worker w lies between events i and j.
  ghost predicate IsUndisturbed(trace: seq<Event>, w: nat, i: nat, j: nat) {
    forall l | i < l < j < |trace| :: trace[l].Handled? || trace[l].worker != w
  }

  lemma PreviousMove(trace: seq<Event>, j: nat) returns (i: nat)
    requires ReadsByPriority(trace) && j < |trace| && trace[j].Read? && trace[j].stream != User
    ensures i < j && trace[i].Read? && trace[i].worker == trace[j].worker && IsUndisturbed(trace, trace[j].worker, i, j)
    ensures trace[j].stream == ECR ==> IsEmptyUserRead(trace[i])
    ensures trace[j].stream == ArgoCD ==> IsECRRead(trace[i])
  {
    var before := trace[..j];
    assert MayReadNow(before, trace[j].worker, trace[j].stream);
    i := LastMove(before, trace[j].worker);
    forall l | i < l < j ensures trace[l].Handled? || trace[l].worker != trace[j].worker {
      assert before[l] == trace[l];
    }
  }

  // A worker reads the ECR stream right after a read of the user stream that yielded
  // nothing, and the ArgoCD stream right after such an ECR read.
  lemma UsersComeFirst(s: System, steps: seq<Step>, j: nat) returns (u: nat, e: nat)
    requires IsInitial(s) && IsRun(s, steps)
    requires var trace := Run(s, steps).trace; j < |trace| && trace[j].Read? && trace[j].stream != User
    ensures var trace := Run(s, steps).trace; var w := trace[j].worker;
      && u < e <= j && IsEmptyUserRead(trace[u]) && trace[u].worker == w && IsUndisturbed(trace, w, u, e)
      && IsECRRead(trace[e]) && trace[e].worker == w
      && (trace[j].stream == ECR ==> e == j)
      && (trace[j].stream == ArgoCD ==> e < j && IsUndisturbed(trace, w, e, j))
  {
    InitialIsSound(s);
    RunKeepsInv(s, steps);
    var trace := Run(s, steps).trace;
    assert ReadsByPriority(trace);
    hide EntriesArePlaced, AckedAreDone, WorkersAreSound, TimesAreSound, HandledOnceEach, GiftsAreSpaced;
    hide Run, IsUndisturbed;
    if trace[j].stream == ECR {
      e := j;
    } else {
      e := PreviousMove(trace, j);
    }
    u := PreviousMove(trace, e);
  }

  // --- exactly once fails ---

  const FIRST := Id(User, 0)
  const SLOW_TASK := Task(Token(FIRST, 0), false, true)
  const SECOND_TASK := Task(Token(FIRST, 2), false, true)

  // Worker 0 handles an event and is slow to ack it; a minute later worker 1 claims it and
  // handles it again.
  function SlowAck(m: Message): seq<Step> {
    [Append(User, m), TickerSilent(0), ReadNew(0, 1), Start(0), Handle(0, SLOW_TASK), Tick(60),
     TickerFires(1), Claim(1, [FIRST]), Start(1), Handle(1, SECOND_TASK)]
  }

  function Stage(now: nat, log: Log, pending: map<Id, Holding>, w0: Worker, w1: Worker, trace: seq<Event>): System {
    System(now, Streams(log, Log([], 0), Log([], 0)), pending, {}, map[0 := w0, 1 := w1], trace, 1, false)
  }

  function SlowAckState(m: Message, k: nat): System {
    var unread, read := Log([m], 0), Log([m], 1);
    var held, claimed := map[FIRST := Holding(0, 0)], map[FIRST := Holding(1, 60)];
    var busy := Worker(Draining(User), [], {SLOW_TASK.(handled := true)});
    var t1: seq<Event> := [Read(0, User, [FIRST], 0)];
    var t2 := t1 + [Handled(0, SLOW_TASK.token)];
    var t3 := t2 + [Claimed(1, User, [FIRST], 60)];
    match k
    case 0 => Stage(0, Log([], 0), map[], IDLE, IDLE, [])
    case 1 => Stage(0, unread, map[], IDLE, IDLE, [])
    case 2 => Stage(0, unread, map[], Worker(Reading(User), [], {}), IDLE, [])
    case 3 => Stage(0, read, held, Worker(Draining(User), [SLOW_TASK.token], {}), IDLE, t1)
    case 4 => Stage(0, read, held, Worker(Draining(User), [], {SLOW_TASK}), IDLE, t1)
    case 5 => Stage(0, read, held, busy, IDLE, t2)
    case 6 => Stage(60, read, held, busy, IDLE, t2)
    case 7 => Stage(60, read, held, busy, Worker(Claiming([User, ECR]), [], {}), t2)
    case 8 => Stage(60, read, claimed, busy, Worker(Claiming([ECR]), [SECOND_TASK.token], {}), t3)
    case 9 => Stage(60, read, claimed, busy, Worker(Claiming([ECR]), [], {SECOND_TASK}), t3)
    case _ => Stage(60, read, claimed, busy, Worker(Claiming([ECR]), [], {SECOND_TASK.(handled := true)}),
                    t3 + [Handled(1, SECOND_TASK.token)])
  }

  // What the steps of a worker with a single message do.
  lemma ReadOne(s: System, w: nat, id: Id)
    requires w in s.workers && s.workers[w].pc == Reading(id.stream) && s.streams.Of(id.stream).delivered == id.pos
    requires HasEntry(s, id)
    ensures Enabled(s, ReadNew(w, 1))
    ensures var l := s.streams.Of(id.stream); Apply(s, ReadNew(w, 1)) == s.(
      workers := s.workers[w := s.workers[w].(pc := Draining(id.stream), batch := [Token(id, |s.trace|)])],
      streams := s.streams.With(id.stream, l.(delivered := id.pos + 1)),
      pending := s.pending[id := Holding(w, s.now)],
      trace := s.trace + [Read(w, id.stream, [id], s.now)])
  {
    assert NewIds(id.stream, id.pos, 1) == [id];
    assert TokensFor([id], |s.trace|) == [Token(id, |s.trace|)];
    assert Hold(s.pending, [id], w, s.now) == s.pending[id := Holding(w, s.now)];
  }

  lemma ClaimOne(s: System, w: nat, id: Id)
    requires w in s.workers && s.workers[w].pc.Claiming? && s.workers[w].pc.todo != []
    requires s.workers[w].pc.todo[0] == id.stream && s.workers[w].batch == [] && !HasInline(s.workers[w])
    requires id in s.pending && s.pending[id].since + CLAIM_MIN_IDLE <= s.now
    ensures Enabled(s, Claim(w, [id]))
    ensures Apply(s, Claim(w, [id])) == s.(
      workers := s.workers[w := s.workers[w].(pc := Claiming(s.workers[w].pc.todo[1..]),
                                              batch := [Token(id, |s.trace|)])],
      pending := s.pending[id := Holding(w, s.now)],
      trace := s.trace + [Claimed(w, id.stream, [id], s.now)])
  {
    assert TokensFor([id], |s.trace|) == [Token(id, |s.trace|)];
    assert Hold(s.pending, [id], w, s.now) == s.pending[id := Holding(w, s.now)];
  }

  lemma StartOne(s: System, w: nat, pc: Place, t: Task)
    requires w in s.workers && s.workers[w] == Worker(pc, [t.token], {}) && pc != Draining(ECR)
    requires !t.handled && t.isInline
    ensures Enabled(s, Start(w)) && Apply(s, Start(w)) == s.(workers := s.workers[w := Worker(pc, [], {t})])
  {
    assert [t.token][1..] == [] && {} + {Task(t.token, false, true)} == {t};
  }

  lemma HandleOne(s: System, w: nat, pc: Place, t: Task)
    requires w in s.workers && s.workers[w] == Worker(pc, [], {t}) && !t.handled
    requires HasEntry(s, t.token.id) && Decodes(MessageOf(s, t.token.id))
    ensures Enabled(s, Handle(w, t))
    ensures Apply(s, Handle(w, t))
         == s.(workers := s.workers[w := Worker(pc, [], {t.(handled := true)})],
               trace := s.trace + [Handled(w, t.token)])
  {
    assert {t} - {t} + {t.(handled := true)} == {t.(handled := true)};
  }

  ghost predicate IsSlowAckStep(m: Message, k: nat) {
    k < 10 && Enabled(SlowAckState(m, k), SlowAck(m)[k])
    && Apply(SlowAckState(m, k), SlowAck(m)[k]) == SlowAckState(m, k + 1)
  }

  lemma FirstSteps(m: Message)
    ensures IsSlowAckStep(m, 0) && IsSlowAckStep(m, 1)
  {
  }

  lemma MiddleSteps(m: Message)
    ensures IsSlowAckStep(m, 5) && IsSlowAckStep(m, 6)
  {
  }

  lemma SlowRead(m: Message)
    ensures IsSlowAckStep(m, 2)
  {
    hide Apply, Enabled;
    ReadOne(SlowAckState(m, 2), 0, FIRST);
  }

  lemma SlowStart(m: Message)
    ensures IsSlowAckStep(m, 3)
  {
    hide Apply, Enabled;
    StartOne(SlowAckState(m, 3), 0, Draining(User), SLOW_TASK);
  }

  lemma SlowHandle(m: Message)
    requires Decodes(m)
    ensures IsSlowAckStep(m, 4)
  {
    hide Apply, Enabled;
    HandleOne(SlowAckState(m, 4), 0, Draining(User), SLOW_TASK);
  }

  lemma SecondClaim(m: Message)
    ensures IsSlowAckStep(m, 7)
  {
    hide Apply, Enabled, HasInline;
    IdleHasNoInline(SlowAckState(m, 7).workers[1]);
    ClaimOne(SlowAckState(m, 7), 1, FIRST);
  }

  lemma SecondStart(m: Message)
    ensures IsSlowAckStep(m, 8)
  {
    hide Apply, Enabled;
    StartOne(SlowAckState(m, 8), 1, Claiming([ECR]), SECOND_TASK);
  }

  lemma SecondHandle(m: Message)
    requires Decodes(m)
    ensures IsSlowAckStep(m, 9)
  {
    hide Apply, Enabled;
    HandleOne(SlowAckState(m, 9), 1, Claiming([ECR]), SECOND_TASK);
  }

  lemma IdleHasNoInline(wk: Worker)
    requires wk.tasks == {}
    ensures !HasInline(wk)
  {
  }

  lemma EverySlowAckStep(m: Message, k: nat)
    requires Decodes(m) && k < 10
    ensures IsSlowAckStep(m, k)
  {
    FirstSteps(m);
    MiddleSteps(m);
    SlowRead(m);
    SlowStart(m);
    SlowHandle(m);
    SecondClaim(m);
    SecondStart(m);
    SecondHandle(m);
    hide IsSlowAckStep;
  }

  lemma {:induction false} SlowAckRuns(m: Message, k: nat)
    requires Decodes(m) && k <= 10
    ensures IsRun(SlowAckState(m, k), SlowAck(m)[k..])
    ensures Run(SlowAckState(m, k), SlowAck(m)[k..]) == SlowAckState(m, 10)
    decreases 10 - k
  {
    var steps := SlowAck(m);
    assert |steps| == 10;
    hide Enabled, Apply, SlowAckState, SlowAck;
    if k < 10 {
      EverySlowAckStep(m, k);
      SlowAckRuns(m, k + 1);
      assert steps[k..][0] == steps[k] && steps[k..][1..] == steps[k + 1..];
    }
  }

  // Delivery is not exactly once.
  lemma ExactlyOnceFails(m: Message)
    requires Decodes(m)
    ensures IsInitial(SlowAckState(m, 0)) && IsRun(SlowAckState(m, 0), SlowAck(m))
    ensures Run(SlowAckState(m, 0), SlowAck(m)).trace
         == [Read(0, User, [FIRST], 0), Handled(0, SLOW_TASK.token),
             Claimed(1, User, [FIRST], 60), Handled(1, SECOND_TASK.token)]
  {
    SlowAckRuns(m, 0);
    assert SlowAck(m)[0..] == SlowAck(m);
    hide Run, IsRun;
  }
}
