/** The buffer in front of the stream: a bounded channel, and a loop that retries with backoff. */
module Buffer {
  const DEFAULT_SIZE := 500
  const MAX_BACKOFF := 30

  function Min(a: nat, b: nat): nat { if a <= b then a else b }

  function Pow2(k: nat): nat { if k == 0 then 1 else 2 * Pow2(k - 1) }

  // The k-th wait of a retry loop, in seconds.
  function Wait(k: nat): nat { Min(Pow2(k), MAX_BACKOFF) }

  function Waits(n: nat): (ws: seq<nat>)
    ensures |ws| == n && forall k :: 0 <= k < n ==> ws[k] == Wait(k)
  {
    seq(n, k requires 0 <= k => Wait(k))
  }

  // Doubling up to the limit gives these waits one after the other.
  lemma NextWait(k: nat)
    ensures Wait(k + 1) == Min(Wait(k) * 2, MAX_BACKOFF)
  {
  }

  lemma {:induction false} WaitIsBounded(k: nat)
    ensures 1 <= Wait(k) <= 30 && Wait(k) <= Wait(k + 1)
    ensures Wait(k) == 30 <==> k >= 5
  {
    if k <= 5 {
      assert Pow2(1) == 2 && Pow2(2) == 4 && Pow2(3) == 8 && Pow2(4) == 16 && Pow2(5) == 32 && Pow2(6) == 64;
    } else {
      WaitIsBounded(k - 1);
      assert Pow2(k - 1) >= MAX_BACKOFF;
    }
  }

  // What the channel admits of the events that come in while nothing is taken out.
  function Admitted<E>(queued: nat, capacity: nat, events: seq<E>): (admitted: seq<E>)
    requires queued <= capacity
    ensures admitted <= events && |admitted| == Min(|events|, capacity - queued)
  {
    events[..Min(|events|, capacity - queued)]
  }

  // One turn of Run: the events that come in before it receives, those that come in during
  // the wait after each failed attempt, and whether Run is cancelled in the last of these.
  datatype Turn<E> = Turn(before: seq<E>, outages: seq<seq<E>>, cancelled: bool)

  // The channel after the events that come in during each of the waits.
  function Arrive<E>(queue: seq<E>, capacity: nat, outages: seq<seq<E>>): (r: seq<E>)
    requires |queue| <= capacity
    ensures queue <= r && |r| <= capacity
  {
    if outages == [] then queue
    else
      var before := Arrive(queue, capacity, outages[..|outages| - 1]);
      before + Admitted(|before|, capacity, outages[|outages| - 1])
  }

  function Flatten<E>(outages: seq<seq<E>>): seq<E> {
    if outages == [] then [] else Flatten(outages[..|outages| - 1]) + outages[|outages| - 1]
  }

  // Nothing that comes in during an outage is refused as long as there is room for all of it.
  lemma {:induction false} RoomTakesAll<E>(queue: seq<E>, capacity: nat, outages: seq<seq<E>>)
    requires |queue| + |Flatten(outages)| <= capacity
    ensures Arrive(queue, capacity, outages) == queue + Flatten(outages)
    decreases |outages|
  {
    if outages != [] {
      var n := |outages| - 1;
      RoomTakesAll(queue, capacity, outages[..n]);
      Admits(|queue + Flatten(outages[..n])|, capacity, outages[n]);
      assert queue + (Flatten(outages[..n]) + outages[n]) == (queue + Flatten(outages[..n])) + outages[n];
    }
  }

  lemma Admits<E>(queued: nat, capacity: nat, events: seq<E>)
    requires queued + |events| <= capacity
    ensures Admitted(queued, capacity, events) == events
  {
  }

  // The channel and the stream after one turn of Run.
  function PlayOne<E>(queue: seq<E>, stream: seq<E>, capacity: nat, t: Turn<E>): (r: (seq<E>, seq<E>))
    requires |queue| <= capacity
    ensures |r.0| <= capacity && stream <= r.1
  {
    var full := queue + Admitted(|queue|, capacity, t.before);
    if full == [] then (full, stream)
    else (Arrive(full[1..], capacity, t.outages), if t.cancelled then stream else stream + [full[0]])
  }

  predicate Stops<E>(queue: seq<E>, capacity: nat, t: Turn<E>)
    requires |queue| <= capacity
  {
    t.cancelled && queue + Admitted(|queue|, capacity, t.before) != []
  }

  // The channel and the stream after some turns.
  function Play<E>(queue: seq<E>, stream: seq<E>, capacity: nat, turns: seq<Turn<E>>): (r: (seq<E>, seq<E>))
    requires |queue| <= capacity
    ensures stream <= r.1
    decreases |turns|
  {
    if turns == [] then (queue, stream)
    else
      var (q, s) := PlayOne(queue, stream, capacity, turns[0]);
      if Stops(queue, capacity, turns[0]) then (q, s) else Play(q, s, capacity, turns[1..])
  }

  // Nothing comes in during this turn, and it is not cancelled.
  predicate IsQuiet<E>(t: Turn<E>) {
    t.before == [] && !t.cancelled && forall i :: 0 <= i < |t.outages| ==> t.outages[i] == []
  }

  lemma {:induction false} NothingArrives<E>(queue: seq<E>, capacity: nat, outages: seq<seq<E>>)
    requires |queue| <= capacity && forall i :: 0 <= i < |outages| ==> outages[i] == []
    ensures Arrive(queue, capacity, outages) == queue
    decreases |outages|
  {
    if outages != [] {
      NothingArrives(queue, capacity, outages[..|outages| - 1]);
    }
  }

  lemma QuietTurn<E>(queue: seq<E>, stream: seq<E>, capacity: nat, t: Turn<E>)
    requires |queue| <= capacity && IsQuiet(t)
    ensures !Stops(queue, capacity, t)
    ensures PlayOne(queue, stream, capacity, t)
         == if queue == [] then ([], stream) else (queue[1..], stream + [queue[0]])
  {
    assert queue + Admitted(|queue|, capacity, t.before) == queue;
    if queue != [] {
      NothingArrives(queue[1..], capacity, t.outages);
    }
  }

  // Once events stop coming in, everything queued reaches the stream in order, however many
  // attempts each event takes.
  lemma {:induction false} QuietTurnsDrain<E>(queue: seq<E>, stream: seq<E>, capacity: nat, turns: seq<Turn<E>>)
    requires |queue| <= capacity && |queue| <= |turns|
    requires forall i :: 0 <= i < |turns| ==> IsQuiet(turns[i])
    ensures Play(queue, stream, capacity, turns) == ([], stream + queue)
    decreases |turns|
  {
    hide PlayOne, Stops, IsQuiet;
    if turns == [] {
      assert stream + queue == stream;
    } else {
      QuietTurn(queue, stream, capacity, turns[0]);
      if queue == [] {
        QuietTurnsDrain(queue, stream, capacity, turns[1..]);
      } else {
        QuietTurnsDrain(queue[1..], stream + [queue[0]], capacity, turns[1..]);
        assert stream + [queue[0]] + queue[1..] == stream + queue;
      }
    }
  }

  class Buffer<E> {
    const capacity: nat
    var ch: seq<E>
    // The Redis stream, as far as this buffer writes it.
    var stream: seq<E>
    // The event that Run has taken out of the channel.
    ghost var held: seq<E>
    // The events that Add accepted.
    ghost var accepted: seq<E>

    // Events accepted by Add, in order, are those in the stream, then the one that is being
    // retried, then those in the channel.
    ghost predicate Valid()
      reads this
    {
      && |ch| <= capacity && |held| <= 1
      && accepted == stream + held + ch
    }

    constructor (size: int)
      ensures Valid() && capacity == (if size <= 0 then 500 else size)
      ensures ch == [] && stream == [] && held == [] && accepted == []
    {
      capacity := if size <= 0 then DEFAULT_SIZE else size;
      ch, stream, held, accepted := [], [], [], [];
    }

    method Add(evt: E) returns (ok: bool)
      requires Valid()
      modifies `ch, `accepted
      ensures Valid()
      ensures ok <==> |old(ch)| < capacity
      ensures ok ==> ch == old(ch) + [evt] && accepted == old(accepted) + [evt]
      ensures !ok ==> ch == old(ch) && accepted == old(accepted)
    {
      ok := |ch| < capacity;
      if ok {
        ch := ch + [evt];
        accepted := accepted + [evt];
      }
    }

    method AddAll(events: seq<E>)
      requires Valid()
      modifies `ch, `accepted
      ensures Valid()
      ensures ch == old(ch) + Admitted(|old(ch)|, capacity, events)
      ensures accepted == old(accepted) + Admitted(|old(ch)|, capacity, events)
    {
      for i := 0 to |events|
        invariant Valid()
        invariant ch == old(ch) + Admitted(|old(ch)|, capacity, events[..i])
        invariant accepted == old(accepted) + Admitted(|old(ch)|, capacity, events[..i])
      {
        assert events[..i + 1] == events[..i] + [events[i]];
        var _ := Add(events[i]);
      }
      assert events[..|events|] == events;
    }

    // drainOne; waits are the delays that were waited for.
    method DrainOne(evt: E, outages: seq<seq<E>>, cancelled: bool) returns (waits: seq<nat>)
      requires Valid() && held == [evt] && (cancelled ==> outages != [])
      modifies this
      ensures Valid() && waits == Waits(|outages|)
      ensures ch == Arrive(old(ch), capacity, outages)
      ensures !cancelled ==> held == [] && stream == old(stream) + [evt]
      ensures cancelled ==> held == [evt] && stream == old(stream)
      ensures old(accepted) <= accepted
    {
      var backoff := 1;
      waits := [];
      for k := 0 to |outages|
        invariant Valid() && held == [evt] && stream == old(stream) && (cancelled ==> k < |outages|)
        invariant ch == Arrive(old(ch), capacity, outages[..k])
        invariant waits == Waits(k) && backoff == Wait(k)
        invariant old(accepted) <= accepted
      {
        waits := waits + [backoff];
        assert outages[..k + 1][..k] == outages[..k];
        AddAll(outages[k]);
        if k == |outages| - 1 { assert outages[..k + 1] == outages; }
        if cancelled && k == |outages| - 1 { return; }
        NextWait(k);
        backoff := Min(backoff * 2, MAX_BACKOFF);
      }
      assert outages[..|outages|] == outages;
      stream := stream + [evt];
      held := [];
    }

    // One turn of Run; done is set when it is cancelled.
    method TakeTurn(t: Turn<E>) returns (done: bool)
      requires Valid() && held == [] && (t.cancelled ==> t.outages != [])
      modifies this
      ensures Valid() && (!done ==> held == [])
      ensures (ch, stream) == PlayOne(old(ch), old(stream), capacity, t)
      ensures done == Stops(old(ch), capacity, t)
      ensures old(accepted) <= accepted
    {
      AddAll(t.before);
      done := false;
      if ch != [] {
        var evt := ch[0];
        ch, held := ch[1..], [evt];
        var _ := DrainOne(evt, t.outages, t.cancelled);
        done := t.cancelled;
      }
    }

    // Run until it is cancelled, or for as many turns as are given.
    method Run(turns: seq<Turn<E>>)
      requires Valid() && held == []
      requires forall i :: 0 <= i < |turns| && turns[i].cancelled ==> turns[i].outages != []
      modifies this
      ensures Valid()
      ensures (ch, stream) == Play(old(ch), old(stream), capacity, turns)
      ensures old(accepted) <= accepted
    {
      hide PlayOne, Stops;
      for i := 0 to |turns|
        invariant Valid() && held == [] && old(accepted) <= accepted
        invariant Play(old(ch), old(stream), capacity, turns) == Play(ch, stream, capacity, turns[i..])
      {
        assert turns[i..][0] == turns[i] && turns[i..][1..] == turns[i + 1..];
        var done := TakeTurn(turns[i]);
        if done { return; }
      }
    }
  }
}
