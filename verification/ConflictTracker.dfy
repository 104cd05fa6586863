/** The tracker that batches and rate-limits the warnings about config conflicts. */
module ConflictTracker {
  import opened Wrappers

  const DEFAULT_COOLDOWN := 20 * 60

  // "app\x00env"
  type Key = string

  // --- one call ---

  datatype Tracker = Tracker(warned: set<Key>, lastWarn: Option<int>)

  const FRESH := Tracker({}, None)

  // A call of emitWarnings. hasChannel: warnings are configured.
  datatype Call = Call(hasChannel: bool, conflicts: set<Key>, now: int)

  predicate IsCoolingDown(t: Tracker, now: int, cooldown: int) {
    t.lastWarn.Some? && now - t.lastWarn.value < cooldown
  }

  // The conflicts in the message that a call posts; none without a message.
  function Posted(t: Tracker, c: Call, cooldown: int): set<Key> {
    if c.hasChannel && !IsCoolingDown(t, c.now, cooldown) then c.conflicts - t.warned else {}
  }

  function After(t: Tracker, c: Call, cooldown: int): Tracker {
    if !c.hasChannel then t
    else if Posted(t, c, cooldown) == {} then t.(warned := t.warned * c.conflicts)
    else Tracker(c.conflicts, Some(c.now))
  }

  class ConflictTracker {
    var warned: set<Key>
    var lastWarn: Option<int>
    const cooldown: int

    function View(): Tracker
      reads this
    {
      Tracker(warned, lastWarn)
    }

    constructor (cooldown: int := DEFAULT_COOLDOWN)
      ensures View() == FRESH && this.cooldown == cooldown
    {
      this.warned, this.lastWarn, this.cooldown := {}, None, cooldown;
    }

    // Forget the conflicts that are resolved.
    method Prune(conflicts: set<Key>)
      modifies `warned
      ensures warned == old(warned) * conflicts
    {
      var todo := warned;
      while todo != {}
        invariant todo <= old(warned) && warned == old(warned) * conflicts + todo
        decreases |todo|
      {
        var key :| key in todo;
        todo := todo - {key};
        if key !in conflicts {
          warned := warned - {key};
        }
      }
    }

    // The conflicts that were not warned about, in some order.
    method Collect(conflicts: set<Key>) returns (pending: seq<Key>)
      ensures forall k :: k in pending <==> k in conflicts - warned
      ensures forall i, j :: 0 <= i < j < |pending| ==> pending[i] != pending[j]
    {
      pending := [];
      var todo := conflicts;
      while todo != {}
        invariant todo <= conflicts
        invariant forall k :: k in pending <==> k in conflicts - warned - todo
        invariant forall i, j :: 0 <= i < j < |pending| ==> pending[i] != pending[j]
        decreases |todo|
      {
        var key :| key in todo;
        assert key !in pending;
        todo := todo - {key};
        if key !in warned {
          pending := pending + [key];
        }
      }
    }

    // emitWarnings; message is the batch that is posted.
    method EmitWarnings(channel: string, conflicts: set<Key>, now: int) returns (message: seq<Key>)
      modifies `warned, `lastWarn
      ensures View() == After(old(View()), Call(channel != "", conflicts, now), cooldown)
      ensures forall k :: k in message <==> k in Posted(old(View()), Call(channel != "", conflicts, now), cooldown)
      ensures forall i, j :: 0 <= i < j < |message| ==> message[i] != message[j]
    {
      message := [];
      if channel == "" { return; }
      Prune(conflicts);
      var newConflicts := Collect(conflicts);
      assert conflicts - warned == conflicts - old(warned);
      assert newConflicts == [] <==> conflicts - warned == {} by {
        if newConflicts != [] { assert newConflicts[0] in conflicts - warned; }
      }
      if newConflicts == [] { return; }
      if lastWarn.Some? && now - lastWarn.value < cooldown { return; }
      message := newConflicts;
      warned := warned + conflicts;
      lastWarn := Some(now);
      assert warned == conflicts;
    }
  }

  // --- every sequence of calls ---

  function Run(calls: seq<Call>, cooldown: int): Tracker {
    if calls == [] then FRESH
    else After(Run(calls[..|calls| - 1], cooldown), calls[|calls| - 1], cooldown)
  }

  // What call i of the sequence posts.
  function PostedAt(calls: seq<Call>, i: nat, cooldown: int): set<Key>
    requires i < |calls|
  {
    Posted(Run(calls[..i], cooldown), calls[i], cooldown)
  }

  ghost predicate IsChronological(calls: seq<Call>) {
    forall i, j :: 0 <= i < j < |calls| ==> calls[i].now <= calls[j].now
  }

  lemma RunGrows(calls: seq<Call>, n: nat, cooldown: int)
    requires n < |calls|
    ensures Run(calls[..n + 1], cooldown) == After(Run(calls[..n], cooldown), calls[n], cooldown)
  {
    assert calls[..n + 1][..n] == calls[..n];
  }

  // The last warning is that of the last call that posted.
  lemma {:induction false} LastWarnIsLate(calls: seq<Call>, i: nat, n: nat, cooldown: int)
    requires i < n <= |calls| && IsChronological(calls) && PostedAt(calls, i, cooldown) != {}
    ensures Run(calls[..n], cooldown).lastWarn.Some?
    ensures calls[i].now <= Run(calls[..n], cooldown).lastWarn.value
    decreases n
  {
    RunGrows(calls, n - 1, cooldown);
    if i < n - 1 {
      LastWarnIsLate(calls, i, n - 1, cooldown);
    }
  }

  // Two messages are a cooldown apart.
  lemma PostsAreSpaced(calls: seq<Call>, i: nat, j: nat, cooldown: int)
    requires i < j < |calls| && IsChronological(calls)
    requires PostedAt(calls, i, cooldown) != {} && PostedAt(calls, j, cooldown) != {}
    ensures calls[i].now + cooldown <= calls[j].now
  {
    LastWarnIsLate(calls, i, j, cooldown);
  }

  // Call k saw that a conflict was resolved.
  predicate SawResolved(c: Call, key: Key) { c.hasChannel && key !in c.conflicts }

  lemma {:induction false} WarnedUntilResolved(calls: seq<Call>, i: nat, n: nat, key: Key, cooldown: int)
    requires i < n <= |calls| && key in PostedAt(calls, i, cooldown)
    requires forall k :: i < k < n ==> !SawResolved(calls[k], key)
    ensures key in Run(calls[..n], cooldown).warned
    decreases n
  {
    RunGrows(calls, n - 1, cooldown);
    if i < n - 1 {
      WarnedUntilResolved(calls, i, n - 1, key, cooldown);
    }
  }

  // A conflict is posted a second time only if a call in between saw it resolved.
  lemma RepostNeedsResolution(calls: seq<Call>, i: nat, j: nat, key: Key, cooldown: int)
    requires i < j < |calls|
    requires key in PostedAt(calls, i, cooldown) && key in PostedAt(calls, j, cooldown)
    ensures exists k :: i < k < j && SawResolved(calls[k], key)
  {
    if forall k :: i < k < j ==> !SawResolved(calls[k], key) {
      WarnedUntilResolved(calls, i, j, key, cooldown);
    }
  }

  // A call without a channel does nothing. With one it posts what was not warned about, unless
  // a message was posted less than a cooldown ago; after it the warned conflicts are among
  // those it saw, and each other one it saw is held back by the cooldown, and only by that.
  lemma UnpostedMeansCooldown(calls: seq<Call>, cooldown: int)
    requires calls != []
    ensures var n := |calls| - 1; var last := calls[n];
      var t := Run(calls, cooldown); var before := Run(calls[..n], cooldown);
      var recent := before.lastWarn.Some? && last.now - before.lastWarn.value < cooldown;
      if !last.hasChannel then t == before && PostedAt(calls, n, cooldown) == {}
      else
        && (forall key :: key in PostedAt(calls, n, cooldown) <==>
              key in last.conflicts && key !in before.warned && !recent)
        && t.warned <= last.conflicts
        && (forall key | key in last.conflicts && key !in t.warned ::
              t.lastWarn.Some? && last.now - t.lastWarn.value < cooldown)
        && (last.conflicts <= t.warned <==> last.conflicts <= before.warned || !recent)
  {
    var before := Run(calls[..|calls| - 1], cooldown);
    var last := calls[|calls| - 1];
    if last.conflicts - before.warned == {} {
      forall key | key in last.conflicts ensures key in before.warned {
        assert key !in last.conflicts - before.warned;
      }
    }
  }
}
