/**
 Event delivery: Redis streams read by a consumer group of workers that crash and reclaim.
 Every store call and every handler invocation is a step of its own.
 */
module EventQueue {
  const CLAIM_MIN_IDLE := 60
  const BATCH_SIZE := 10

  datatype Stream = User | ECR | ArgoCD

  datatype EventKind = SlashCommand | Interactive | ECRPush | AppMention | ArgoCDNotification | Unsupported

  // The payload field of a stream entry; parses says whether its data fits its kind.
  datatype Message = NoPayload | NoEnvelope | Envelope(kind: EventKind, parses: bool)

  predicate Decodes(m: Message) {
    m.Envelope? && m.kind != Unsupported && m.parses
  }

  datatype Id = Id(stream: Stream, pos: nat)

  // A stream, and how much of it the group was given.
  datatype Log = Log(messages: seq<Message>, delivered: nat)

  datatype Streams = Streams(user: Log, ecr: Log, argocd: Log) {
    function Of(s: Stream): Log {
      match s case User => user case ECR => ecr case ArgoCD => argocd
    }

    function With(s: Stream, l: Log): (r: Streams)
      ensures forall u: Stream :: r.Of(u) == if u == s then l else Of(u)
    {
      match s case User => this.(user := l) case ECR => this.(ecr := l) case ArgoCD => this.(argocd := l)
    }
  }

  // An entry of the pending list.
  datatype Holding = Holding(owner: nat, since: nat)

  // An entry in the hands of a worker, and the position in the trace of the read or claim
  // that put it there.
  datatype Token = Token(id: Id, src: nat)

  // A running call of process: the worker's own, or a goroutine.
  datatype Task = Task(token: Token, handled: bool, isInline: bool)

  // Where Run is: at the top of the loop, in reclaimStuck, before a read, or in the loop
  // over the messages read.
  datatype Place = Top | Claiming(todo: seq<Stream>) | Reading(stream: Stream) | Draining(stream: Stream)

  datatype Worker = Worker(pc: Place, batch: seq<Token>, tasks: set<Task>)

  datatype Event =
    | Read(worker: nat, stream: Stream, ids: seq<Id>, time: nat)
    | Claimed(worker: nat, stream: Stream, ids: seq<Id>, time: nat)
    | Handled(worker: nat, token: Token)
    | Crashed(worker: nat)

  datatype System = System(
    now: nat,
    streams: Streams,
    pending: map<Id, Holding>,
    acked: set<Id>,
    workers: map<nat, Worker>,
    trace: seq<Event>,
    ecrConcurrency: nat,
    argocdEnabled: bool)

  const IDLE := Worker(Top, [], {})

  predicate IsInitial(s: System) {
    && s.streams == Streams(Log([], 0), Log([], 0), Log([], 0))
    && s.pending == map[] && s.acked == {} && s.trace == [] && s.ecrConcurrency > 0
    && forall w | w in s.workers :: s.workers[w] == IDLE
  }

  function ActiveStreams(s: System): seq<Stream> {
    if s.argocdEnabled then [User, ECR, ArgoCD] else [User, ECR]
  }

  predicate HasEntry(s: System, id: Id) { id.pos < |s.streams.Of(id.stream).messages| }

  function MessageOf(s: System, id: Id): Message
    requires HasEntry(s, id)
  {
    s.streams.Of(id.stream).messages[id.pos]
  }

  // Run goes on to the next stream, or to the top.
  function AfterRead(s: System, stream: Stream, nothing: bool): Place {
    match stream
    case User => if nothing then Reading(ECR) else Top
    case ECR => if s.argocdEnabled then Reading(ArgoCD) else Top
    case ArgoCD => Top
  }

  predicate HasInline(wk: Worker) { exists t :: t in wk.tasks && t.isInline }

  function Goroutines(wk: Worker): set<Task> { set t | t in wk.tasks && !t.isInline }

  function TokensFor(ids: seq<Id>, src: nat): (ts: seq<Token>)
    ensures |ts| == |ids| && forall i :: 0 <= i < |ids| ==> ts[i] == Token(ids[i], src)
  {
    seq(|ids|, i requires 0 <= i < |ids| => Token(ids[i], src))
  }

  function NewIds(stream: Stream, from: nat, k: nat): (ids: seq<Id>)
    ensures |ids| == k && forall i :: 0 <= i < k ==> ids[i] == Id(stream, from + i)
  {
    seq(k, i requires 0 <= i < k => Id(stream, from + i))
  }

  function Hold(pending: map<Id, Holding>, ids: seq<Id>, owner: nat, now: nat): map<Id, Holding> {
    pending + map id | id in ids :: Holding(owner, now)
  }

  // --- steps ---

  datatype Step =
    | Append(stream: Stream, m: Message)
    | Tick(dt: nat)
    | TickerFires(w: nat)
    | TickerSilent(w: nat)
    | Claim(w: nat, ids: seq<Id>)
    | ClaimsDone(w: nat)
    | ReadNew(w: nat, k: nat)
    | DrainDone(w: nat)
    | Start(w: nat)
    | Handle(w: nat, task: Task)
    | Ack(w: nat, task: Task, ok: bool)
    | Crash(w: nat)

  // XAUTOCLAIM: entries of the stream that were idle for long enough, at most a batch.
  predicate IsClaimable(s: System, stream: Stream, ids: seq<Id>) {
    && |ids| <= BATCH_SIZE
    && (forall i, j :: 0 <= i < j < |ids| ==> ids[i].pos < ids[j].pos)
    && forall id | id in ids ::
         id.stream == stream && id in s.pending && s.pending[id].since + CLAIM_MIN_IDLE <= s.now
  }

  predicate Enabled(s: System, step: Step) {
    match step
    case Append(_, _) => true
    case Tick(_) => true
    case TickerFires(w) => w in s.workers && s.workers[w].pc == Top
    case TickerSilent(w) => w in s.workers && s.workers[w].pc == Top
    case Claim(w, ids) =>
      && w in s.workers && s.workers[w].pc.Claiming? && s.workers[w].pc.todo != []
      && s.workers[w].batch == [] && !HasInline(s.workers[w])
      && IsClaimable(s, s.workers[w].pc.todo[0], ids)
    case ClaimsDone(w) =>
      && w in s.workers && s.workers[w].pc == Claiming([])
      && s.workers[w].batch == [] && !HasInline(s.workers[w])
    case ReadNew(w, k) =>
      && w in s.workers && s.workers[w].pc.Reading? && k <= BATCH_SIZE
      && s.streams.Of(s.workers[w].pc.stream).delivered + k <= |s.streams.Of(s.workers[w].pc.stream).messages|
    case DrainDone(w) =>
      && w in s.workers && s.workers[w].pc.Draining?
      && s.workers[w].batch == [] && !HasInline(s.workers[w])
    case Start(w) =>
      && w in s.workers && s.workers[w].batch != [] && !HasInline(s.workers[w])
      && (s.workers[w].pc == Draining(ECR) ==> |Goroutines(s.workers[w])| < s.ecrConcurrency)
    case Handle(w, t) =>
      && w in s.workers && t in s.workers[w].tasks && !t.handled && HasEntry(s, t.token.id)
      && Decodes(MessageOf(s, t.token.id))
    case Ack(w, t, _) =>
      && w in s.workers && t in s.workers[w].tasks && HasEntry(s, t.token.id)
      && (t.handled || !Decodes(MessageOf(s, t.token.id)))
    case Crash(w) => w in s.workers
  }

  function SetWorker(s: System, w: nat, wk: Worker): System { s.(workers := s.workers[w := wk]) }

  function Record(s: System, e: Event): System { s.(trace := s.trace + [e]) }

  function Apply(s: System, step: Step): System
    requires Enabled(s, step)
  {
    match step
    case Append(stream, m) =>
      var l := s.streams.Of(stream);
      s.(streams := s.streams.With(stream, l.(messages := l.messages + [m])))
    case Tick(dt) => s.(now := s.now + dt)
    case TickerFires(w) => SetWorker(s, w, s.workers[w].(pc := Claiming(ActiveStreams(s))))
    case TickerSilent(w) => SetWorker(s, w, s.workers[w].(pc := Reading(User)))
    case Claim(w, ids) =>
      var wk := s.workers[w];
      Record(SetWorker(s, w, wk.(pc := Claiming(wk.pc.todo[1..]), batch := TokensFor(ids, |s.trace|))),
             Claimed(w, wk.pc.todo[0], ids, s.now)).(pending := Hold(s.pending, ids, w, s.now))
    case ClaimsDone(w) => SetWorker(s, w, s.workers[w].(pc := Reading(User)))
    case ReadNew(w, k) =>
      var wk := s.workers[w];
      var stream := wk.pc.stream;
      var l := s.streams.Of(stream);
      var ids := NewIds(stream, l.delivered, k);
      Record(SetWorker(s, w, wk.(pc := if k == 0 then AfterRead(s, stream, true) else Draining(stream),
                                 batch := TokensFor(ids, |s.trace|))),
             Read(w, stream, ids, s.now)).(
        pending := Hold(s.pending, ids, w, s.now),
        streams := s.streams.With(stream, l.(delivered := l.delivered + k)))
    case DrainDone(w) => SetWorker(s, w, s.workers[w].(pc := AfterRead(s, s.workers[w].pc.stream, false)))
    case Start(w) =>
      var wk := s.workers[w];
      SetWorker(s, w, wk.(batch := wk.batch[1..],
                          tasks := wk.tasks + {Task(wk.batch[0], false, wk.pc != Draining(ECR))}))
    case Handle(w, t) =>
      var wk := s.workers[w];
      Record(SetWorker(s, w, wk.(tasks := wk.tasks - {t} + {t.(handled := true)})), Handled(w, t.token))
    case Ack(w, t, ok) =>
      var wk := s.workers[w];
      var s' := SetWorker(s, w, wk.(tasks := wk.tasks - {t}));
      if ok then s'.(pending := s.pending - {t.token.id}, acked := s.acked + {t.token.id}) else s'
    case Crash(w) => Record(SetWorker(s, w, IDLE), Crashed(w))
  }

  ghost predicate IsRun(s: System, steps: seq<Step>)
    decreases |steps|
  {
    steps == [] || (Enabled(s, steps[0]) && IsRun(Apply(s, steps[0]), steps[1..]))
  }

  ghost function Run(s: System, steps: seq<Step>): System
    requires IsRun(s, steps)
    decreases |steps|
  {
    if steps == [] then s else Run(Apply(s, steps[0]), steps[1..])
  }

  // --- where entries are ---

  predicate IsUndelivered(s: System, id: Id) {
    s.streams.Of(id.stream).delivered <= id.pos < |s.streams.Of(id.stream).messages|
  }

  // Every entry is undelivered, pending with one owner, or acked, and in one of these only.
  ghost predicate EntriesArePlaced(s: System) {
    && (forall id | HasEntry(s, id) ::
          && (IsUndelivered(s, id) || id in s.pending || id in s.acked)
          && !(IsUndelivered(s, id) && id in s.pending)
          && !(IsUndelivered(s, id) && id in s.acked))
    && s.pending.Keys !! s.acked
    && (forall id | id in s.pending || id in s.acked :: HasEntry(s, id))
    && (forall st: Stream :: s.streams.Of(st).delivered <= |s.streams.Of(st).messages|)
  }

  // --- what the trace tells ---

  // Event e put entry id into the hands of worker w.
  predicate Gives(e: Event, w: nat, id: Id) {
    (e.Read? || e.Claimed?) && e.worker == w && id in e.ids
  }

  predicate GivesToAnyone(e: Event, id: Id) {
    (e.Read? || e.Claimed?) && id in e.ids
  }

  predicate WasHandled(trace: seq<Event>, id: Id) {
    exists j: nat :: j < |trace| && trace[j].Handled? && trace[j].token.id == id
  }

  // Each gift is handled at most once.
  ghost predicate HandledOnceEach(trace: seq<Event>) {
    && (forall j | 0 <= j < |trace| && trace[j].Handled? ::
          trace[j].token.src < j && Gives(trace[trace[j].token.src], trace[j].worker, trace[j].token.id))
    && (forall i, j | 0 <= i < j < |trace| && trace[i].Handled? && trace[j].Handled? ::
          trace[i].token != trace[j].token)
  }

  // A later gift of an entry is a claim, and the entry had been idle since the earlier one.
  ghost predicate GiftsAreSpaced(trace: seq<Event>) {
    forall i, j, id: Id | 0 <= i < j < |trace| && GivesToAnyone(trace[i], id) && GivesToAnyone(trace[j], id) ::
      trace[j].Claimed? && trace[i].time + CLAIM_MIN_IDLE <= trace[j].time
  }

  // The last read, claim or crash of worker w.
  function LastMove(trace: seq<Event>, w: nat): (i: int)
    ensures -1 <= i < |trace|
    ensures i >= 0 ==> !trace[i].Handled? && trace[i].worker == w
    ensures forall j :: i < j < |trace| ==> trace[j].Handled? || trace[j].worker != w
  {
    if trace == [] then -1
    else
      var last := trace[|trace| - 1];
      if !last.Handled? && last.worker == w then |trace| - 1 else LastMove(trace[..|trace| - 1], w)
  }

  predicate IsEmptyUserRead(e: Event) { e.Read? && e.stream == User && e.ids == [] }

  predicate IsECRRead(e: Event) { e.Read? && e.stream == ECR }

  // The move before a background read.
  predicate MayReadNow(trace: seq<Event>, w: nat, stream: Stream) {
    var i := LastMove(trace, w);
    match stream
    case User => true
    case ECR => i >= 0 && IsEmptyUserRead(trace[i])
    case ArgoCD => i >= 0 && IsECRRead(trace[i])
  }

  ghost predicate ReadsByPriority(trace: seq<Event>) {
    forall j | 0 <= j < |trace| && trace[j].Read? :: MayReadNow(trace[..j], trace[j].worker, trace[j].stream)
  }

  // --- the invariant ---

  ghost predicate IsLive(s: System, w: nat, t: Token) {
    && t.src < |s.trace| && Gives(s.trace[t.src], w, t.id)
    && forall j | 0 <= j < |s.trace| && s.trace[j].Handled? :: s.trace[j].token != t
  }

  ghost predicate IsSoundTask(s: System, w: nat, t: Task) {
    && t.token.src < |s.trace| && Gives(s.trace[t.token.src], w, t.token.id)
    && (if t.handled then WasHandled(s.trace, t.token.id) else IsLive(s, w, t.token))
  }

  ghost predicate HasDistinctTokens(wk: Worker) {
    && (forall i, j :: 0 <= i < j < |wk.batch| ==> wk.batch[i] != wk.batch[j])
    && (forall t, b | t in wk.tasks && b in wk.batch :: t.token != b)
    && (forall t, u | t in wk.tasks && u in wk.tasks && t.token == u.token :: t == u)
  }

  ghost predicate IsSoundWorker(s: System, w: nat, wk: Worker) {
    && (forall b | b in wk.batch :: IsLive(s, w, b))
    && (forall t | t in wk.tasks :: IsSoundTask(s, w, t))
    && HasDistinctTokens(wk)
    && (wk.pc.Reading? ==> wk.batch == [] && MayReadNow(s.trace, w, wk.pc.stream))
    && (wk.pc == Draining(ECR) ==> LastMove(s.trace, w) >= 0 && IsECRRead(s.trace[LastMove(s.trace, w)]))
    && (wk.pc == Top ==> wk.batch == [])
    && |Goroutines(wk)| <= s.ecrConcurrency
  }

  ghost predicate WorkersAreSound(s: System) {
    forall w | w in s.workers :: IsSoundWorker(s, w, s.workers[w])
  }

  ghost predicate TimesAreSound(s: System) {
    && (forall id | id in s.pending :: s.pending[id].since <= s.now)
    && (forall j | 0 <= j < |s.trace| && (s.trace[j].Read? || s.trace[j].Claimed?) :: s.trace[j].time <= s.now)
    && (forall j, id: Id | 0 <= j < |s.trace| && GivesToAnyone(s.trace[j], id) ::
          && !IsUndelivered(s, id) && HasEntry(s, id)
          && (id in s.pending ==> s.trace[j].time <= s.pending[id].since))
  }

  ghost predicate AckedAreDone(s: System) {
    forall id | id in s.acked && HasEntry(s, id) :: WasHandled(s.trace, id) || !Decodes(MessageOf(s, id))
  }

  ghost predicate Inv(s: System) {
    && EntriesArePlaced(s) && AckedAreDone(s) && WorkersAreSound(s) && TimesAreSound(s)
    && HandledOnceEach(s.trace) && GiftsAreSpaced(s.trace) && ReadsByPriority(s.trace)
    && s.ecrConcurrency > 0
  }
}
