/**
 The thread slot of an environment: concurrent calls of getThreadTS interleaved at every
 store and Slack call. The placeholder does not lapse while its owner is posting.
 */
module ThreadSlot {
  import opened Wrappers

  const PENDING := "pending"
  const POLLS := 5

  // Where a call of getThreadTS is. early: the first lookup found a value.
  datatype Call =
    | Begun
    | Counting
    | Claiming
    | Posting
    | Updating(ts: string)
    | Releasing
    | Polling(tries: nat)
    | Returned(ts: string, early: bool)

  // A parent message; life counts the claims of the slot.
  datatype Parent = Parent(ts: string, life: nat)

  datatype Slot = Slot(value: Option<string>, life: nat, parents: seq<Parent>, calls: map<nat, Call>)

  const EMPTY := Slot(None, 0, [], map[])

  datatype Step =
    | Begin(c: nat)
    | LookUp(c: nat, threshold: int)
    | Count(c: nat, enough: bool)
    | Claim(c: nat)
    | Post(c: nat, ts: Option<string>)
    | Update(c: nat)
    | Release(c: nat)
    | Poll(c: nat)
    | Fail(c: nat)
    | Lapse

  // The message timestamps of Slack are not empty and not the placeholder.
  predicate IsTimestamp(ts: string) { ts != "" && ts != PENDING }

  predicate IsAt(s: Slot, c: nat, at: Call) { c in s.calls && s.calls[c] == at }

  // Between winning the claim and replacing or deleting the placeholder.
  predicate Holds(call: Call) { call.Posting? || call.Updating? || call.Releasing? }

  predicate Enabled(s: Slot, step: Step) {
    match step
    case Begin(c) => c !in s.calls
    case LookUp(c, _) => IsAt(s, c, Begun)
    case Count(c, _) => IsAt(s, c, Counting)
    case Claim(c) => IsAt(s, c, Claiming)
    case Post(c, ts) => IsAt(s, c, Posting) && (ts.Some? ==> IsTimestamp(ts.value))
    case Update(c) => c in s.calls && s.calls[c].Updating?
    case Release(c) => IsAt(s, c, Releasing)
    case Poll(c) => c in s.calls && s.calls[c].Polling?
    // A call that has not claimed the slot dies, or cannot reach the store.
    case Fail(c) => c in s.calls && !Holds(s.calls[c])
    case Lapse => s.value.Some? && s.value.value != PENDING
  }

  function Go(s: Slot, c: nat, call: Call): Slot { s.(calls := s.calls[c := call]) }

  function Apply(s: Slot, step: Step): Slot
    requires Enabled(s, step)
  {
    match step
    case Begin(c) => Go(s, c, Begun)
    case LookUp(c, threshold) =>
      if threshold < 0 then Go(s, c, Returned("", false))
      else if s.value.Some? && s.value.value != "" then Go(s, c, Returned(s.value.value, true))
      else Go(s, c, if threshold > 1 then Counting else Claiming)
    case Count(c, enough) => Go(s, c, if enough then Claiming else Returned("", false))
    case Claim(c) =>
      if s.value.Some? then Go(s, c, Polling(0))
      else Go(s.(value := Some(PENDING), life := s.life + 1), c, Posting)
    case Post(c, ts) =>
      if ts.Some? then Go(s.(parents := s.parents + [Parent(ts.value, s.life)]), c, Updating(ts.value))
      else Go(s, c, Releasing)
    case Update(c) => Go(s.(value := Some(s.calls[c].ts)), c, Returned(s.calls[c].ts, false))
    case Release(c) => Go(s.(value := None), c, Returned("", false))
    case Poll(c) =>
      if s.value.Some? && s.value.value != "" && s.value.value != PENDING then Go(s, c, Returned(s.value.value, false))
      else if s.calls[c].tries + 1 < POLLS then Go(s, c, Polling(s.calls[c].tries + 1))
      else Go(s, c, Returned("", false))
    case Fail(c) => Go(s, c, Returned("", false))
    case Lapse => s.(value := None)
  }

  ghost predicate IsRun(s: Slot, steps: seq<Step>)
    decreases |steps|
  {
    steps == [] || (Enabled(s, steps[0]) && IsRun(Apply(s, steps[0]), steps[1..]))
  }

  ghost function Run(s: Slot, steps: seq<Step>): Slot
    requires IsRun(s, steps)
    decreases |steps|
  {
    if steps == [] then s else Run(Apply(s, steps[0]), steps[1..])
  }

  // --- the invariant ---

  // At most one call owns the slot, exactly while the slot reads the placeholder.
  ghost predicate HasOneOwner(s: Slot) {
    && (forall c, d | c in s.calls && d in s.calls && Holds(s.calls[c]) && Holds(s.calls[d]) :: c == d)
    && (s.value == Some(PENDING) <==> exists c :: c in s.calls && Holds(s.calls[c]))
  }

  // One parent message per life of the slot at most, each with a timestamp of its own life.
  ghost predicate ParentsAreSingle(s: Slot) {
    && (forall i :: 0 <= i < |s.parents| ==> s.parents[i].life <= s.life && IsTimestamp(s.parents[i].ts))
    && (forall i, j :: 0 <= i < j < |s.parents| ==> s.parents[i].life < s.parents[j].life)
  }

  predicate IsPosted(s: Slot, ts: string) {
    exists i :: 0 <= i < |s.parents| && s.parents[i].ts == ts
  }

  predicate IsLatest(s: Slot, ts: string) {
    s.parents != [] && s.parents[|s.parents| - 1] == Parent(ts, s.life)
  }

  // The value is the placeholder or the parent message of this life.
  ghost predicate ValueIsPosted(s: Slot) {
    s.value.Some? && s.value.value != PENDING ==> IsLatest(s, s.value.value)
  }

  ghost predicate CallIsSound(s: Slot, call: Call) {
    match call
    case Posting => forall i :: 0 <= i < |s.parents| ==> s.parents[i].life < s.life
    case Releasing => true
    case Updating(ts) => IsLatest(s, ts)
    case Returned(ts, early) => ts == "" || IsPosted(s, ts) || (early && ts == PENDING)
    case Polling(tries) => tries < POLLS
    case _ => true
  }

  ghost predicate CallsAreSound(s: Slot) {
    forall c | c in s.calls :: CallIsSound(s, s.calls[c])
  }

  ghost predicate Inv(s: Slot) {
    HasOneOwner(s) && ParentsAreSingle(s) && ValueIsPosted(s) && CallsAreSound(s)
  }

  // Call c goes on without having the slot, before and after.
  lemma BystanderKeepsOwner(s: Slot, s': Slot, c: nat)
    requires HasOneOwner(s) && c in s'.calls && s'.calls == s.calls[c := s'.calls[c]] && s'.value == s.value
    requires !Holds(s'.calls[c]) && (c in s.calls ==> !Holds(s.calls[c]))
    ensures HasOneOwner(s')
  {
    if s'.value == Some(PENDING) {
      var d :| d in s.calls && Holds(s.calls[d]);
      assert d in s'.calls && Holds(s'.calls[d]);
    }
  }

  // Call c takes the free slot.
  lemma NewOwner(s: Slot, s': Slot, c: nat)
    requires HasOneOwner(s) && s.value.None? && s'.value == Some(PENDING)
    requires c in s'.calls && s'.calls == s.calls[c := s'.calls[c]] && Holds(s'.calls[c])
    ensures HasOneOwner(s')
  {
  }

  // The owner goes on and keeps the slot.
  lemma SameOwner(s: Slot, s': Slot, c: nat)
    requires HasOneOwner(s) && s'.value == s.value && c in s.calls && Holds(s.calls[c])
    requires c in s'.calls && s'.calls == s.calls[c := s'.calls[c]] && Holds(s'.calls[c])
    ensures HasOneOwner(s')
  {
  }

  // The owner replaces or deletes the placeholder.
  lemma OwnerLeaves(s: Slot, s': Slot, c: nat)
    requires HasOneOwner(s) && s'.value != Some(PENDING) && c in s.calls && Holds(s.calls[c])
    requires c in s'.calls && s'.calls == s.calls[c := s'.calls[c]] && !Holds(s'.calls[c])
    ensures HasOneOwner(s')
  {
  }

  lemma UpdatesToTimestamp(s: Slot, c: nat)
    requires Inv(s) && c in s.calls && s.calls[c].Updating?
    ensures IsTimestamp(s.calls[c].ts)
  {
    assert CallIsSound(s, s.calls[c]);
  }

  lemma StepKeepsOwner(s: Slot, step: Step)
    requires Inv(s) && Enabled(s, step)
    ensures HasOneOwner(Apply(s, step))
  {
    hide IsPosted, ParentsAreSingle, ValueIsPosted, CallsAreSound, HasOneOwner, IsTimestamp;
    var s' := Apply(s, step);
    match step
    case Lapse => LapseKeepsOwner(s);
    case Post(c, _) => SameOwner(s, s', c);
    case Release(c) => OwnerLeaves(s, s', c);
    case Update(c) =>
      UpdatesToTimestamp(s, c);
      TimestampIsNoPlaceholder(s.calls[c].ts);
      OwnerLeaves(s, s', c);
    case Claim(c) =>
      if s.value.None? {
        NewOwner(s, s', c);
      } else {
        BystanderKeepsOwner(s, s', c);
      }
    case _ => BystanderKeepsOwner(s, s', step.c);
  }

  lemma LapseKeepsOwner(s: Slot)
    requires HasOneOwner(s) && Enabled(s, Lapse)
    ensures HasOneOwner(Apply(s, Lapse))
  {
  }

  lemma TimestampIsNoPlaceholder(ts: string)
    requires IsTimestamp(ts)
    ensures ts != "" && ts != PENDING
  {
  }

  lemma StepKeepsParents(s: Slot, step: Step)
    requires Inv(s) && Enabled(s, step)
    ensures ParentsAreSingle(Apply(s, step)) && ValueIsPosted(Apply(s, step))
  {
    hide HasOneOwner, IsPosted;
  }

  // What the other calls know stays true: the owner's parent message is the only one that may
  // still come, and only the owner may replace the value.
  lemma BystanderStaysSound(s: Slot, step: Step, c: nat)
    requires Inv(s) && Enabled(s, step) && c in s.calls && Apply(s, step).calls[c] == s.calls[c]
    requires step.Lapse? || step.c != c
    ensures CallIsSound(Apply(s, step), s.calls[c])
  {
    var s' := Apply(s, step);
    assert CallIsSound(s, s.calls[c]);
    hide IsTimestamp, ValueIsPosted;
    if s.calls[c].Returned? && IsPosted(s, s.calls[c].ts) {
      PostedStays(s, s', s.calls[c].ts);
    }
    hide IsPosted;
  }

  lemma ActorIsSound(s: Slot, step: Step)
    requires Inv(s) && Enabled(s, step) && !step.Lapse?
    ensures step.c in Apply(s, step).calls && CallIsSound(Apply(s, step), Apply(s, step).calls[step.c])
  {
    var s' := Apply(s, step);
    if step.c in s.calls {
      assert CallIsSound(s, s.calls[step.c]);
    }
    hide HasOneOwner, CallsAreSound;
    if s.value.Some? && s.value.value != PENDING {
      LatestIsPosted(s, s.value.value);
    }
    if step.Update? {
      LatestIsPosted(s, s.calls[step.c].ts);
    }
    hide IsPosted;
  }

  lemma LatestIsPosted(s: Slot, ts: string)
    requires IsLatest(s, ts)
    ensures forall s': Slot :: s'.parents == s.parents ==> IsPosted(s', ts)
  {
    forall s': Slot | s'.parents == s.parents ensures IsPosted(s', ts) {
      assert s'.parents[|s'.parents| - 1].ts == ts;
    }
  }

  lemma StepKeepsCalls(s: Slot, step: Step)
    requires Inv(s) && Enabled(s, step)
    ensures CallsAreSound(Apply(s, step))
  {
    var s' := Apply(s, step);
    hide CallIsSound, Inv, Enabled;
    forall c | c in s'.calls ensures CallIsSound(s', s'.calls[c]) {
      if !step.Lapse? && step.c == c {
        ActorIsSound(s, step);
      } else {
        BystanderStaysSound(s, step, c);
      }
    }
  }

  lemma PostedStays(s: Slot, s': Slot, ts: string)
    requires IsPosted(s, ts) && s.parents <= s'.parents
    ensures IsPosted(s', ts)
  {
    var i :| 0 <= i < |s.parents| && s.parents[i].ts == ts;
    assert s'.parents[i] == s.parents[i];
  }

  lemma StepKeepsInv(s: Slot, step: Step)
    requires Inv(s) && Enabled(s, step)
    ensures Inv(Apply(s, step))
  {
    StepKeepsOwner(s, step);
    StepKeepsParents(s, step);
    StepKeepsCalls(s, step);
  }

  lemma {:induction false} RunKeepsInv(s: Slot, steps: seq<Step>)
    requires Inv(s) && IsRun(s, steps)
    ensures Inv(Run(s, steps))
    decreases |steps|
  {
    if steps != [] {
      StepKeepsInv(s, steps[0]);
      RunKeepsInv(Apply(s, steps[0]), steps[1..]);
    }
  }

  // --- what every run guarantees ---

  // At most one call is between winning the claim and replacing or deleting the placeholder,
  // the slot reads the placeholder exactly then, and no two parent messages are posted in
  // one life of the slot.
  lemma OneParentPerLife(steps: seq<Step>)
    requires IsRun(EMPTY, steps)
    ensures var s := Run(EMPTY, steps);
      && (forall c, d | c in s.calls && d in s.calls && Holds(s.calls[c]) && Holds(s.calls[d]) :: c == d)
      && (s.value == Some(PENDING) <==> exists c :: c in s.calls && Holds(s.calls[c]))
      && (forall i, j :: 0 <= i < j < |s.parents| ==> s.parents[i].life != s.parents[j].life)
  {
    RunKeepsInv(EMPTY, steps);
    hide ValueIsPosted, CallsAreSound, Run;
  }

  // A call returns nothing, or the timestamp of a parent message that was posted. The
  // placeholder is returned by the first lookup only.
  lemma ResultsArePosted(steps: seq<Step>, c: nat)
    requires IsRun(EMPTY, steps)
    requires c in Run(EMPTY, steps).calls && Run(EMPTY, steps).calls[c].Returned?
    ensures var s := Run(EMPTY, steps); var r := s.calls[c];
      r.ts == "" || IsPosted(s, r.ts) || (r.early && r.ts == PENDING)
  {
    RunKeepsInv(EMPTY, steps);
    assert CallIsSound(Run(EMPTY, steps), Run(EMPTY, steps).calls[c]);
  }

  // The second of two calls comes while the first one is posting.
  function TwoCalls(): seq<Step> {
    [Begin(0), LookUp(0, 1), Claim(0), Begin(1), LookUp(1, 1)]
  }

  // It returns the placeholder, which is no message's timestamp.
  lemma PlaceholderLeaks()
    ensures IsRun(EMPTY, TwoCalls())
    ensures Run(EMPTY, TwoCalls()).calls == map[0 := Posting, 1 := Returned(PENDING, true)]
    ensures !IsTimestamp(PENDING)
  {
    var steps := TwoCalls();
    assert steps[1..] == [LookUp(0, 1), Claim(0), Begin(1), LookUp(1, 1)];
    assert steps[1..][1..] == [Claim(0), Begin(1), LookUp(1, 1)];
    assert steps[1..][1..][1..] == [Begin(1), LookUp(1, 1)];
    assert steps[1..][1..][1..][1..] == [LookUp(1, 1)];
    assert steps[1..][1..][1..][1..][1..] == [];
    var s1 := Apply(EMPTY, Begin(0));
    var s2 := Apply(s1, LookUp(0, 1));
    var s3 := Apply(s2, Claim(0));
    var s4 := Apply(s3, Begin(1));
    var s5 := Apply(s4, LookUp(1, 1));
    assert s5.calls == map[0 := Posting, 1 := Returned(PENDING, true)];
    assert IsRun(s5, []) && Run(s5, []) == s5;
    assert IsRun(s4, [LookUp(1, 1)]) && Run(s4, [LookUp(1, 1)]) == s5;
  }

  // A call returns the placeholder exactly when threading is on and its first lookup comes
  // while another one is posting.
  lemma PlaceholderLeaksIff(s: Slot, c: nat, threshold: int)
    requires Inv(s) && Enabled(s, LookUp(c, threshold))
    ensures Apply(s, LookUp(c, threshold)).calls[c] == Returned(PENDING, true)
       <==> threshold >= 0 && exists d :: d in s.calls && d != c && Holds(s.calls[d])
  {
    hide ParentsAreSingle, ValueIsPosted, CallsAreSound;
    if s.value == Some(PENDING) {
      var d :| d in s.calls && Holds(s.calls[d]);
      assert d != c;
    }
  }

  // --- the threshold ---

  // Call c found threading on, and the threshold met where one is to be met.
  ghost predicate MetThreshold(steps: seq<Step>, c: nat) {
    exists t :: LookUp(c, t) in steps && t >= 0 && (t > 1 ==> Count(c, true) in steps)
  }

  ghost predicate FoundThreading(steps: seq<Step>, c: nat) {
    exists t :: LookUp(c, t) in steps && t >= 0
  }

  ghost predicate CameBy(steps: seq<Step>, c: nat, call: Call) {
    match call
    case Begun => true
    case Counting => exists t :: LookUp(c, t) in steps && t > 1
    case Returned(ts, _) => ts != "" ==> FoundThreading(steps, c)
    case _ => MetThreshold(steps, c)
  }

  ghost predicate AllCameBy(s: Slot, steps: seq<Step>) {
    forall c | c in s.calls :: CameBy(steps, c, s.calls[c])
  }

  lemma {:induction false} RunLast(s: Slot, before: seq<Step>, last: Step)
    requires IsRun(s, before + [last])
    ensures IsRun(s, before) && Enabled(Run(s, before), last)
    ensures Run(s, before + [last]) == Apply(Run(s, before), last)
    decreases |before|
  {
    if before != [] {
      assert (before + [last])[1..] == before[1..] + [last];
      RunLast(Apply(s, before[0]), before[1..], last);
    } else {
      assert (before + [last])[1..] == [];
    }
  }

  lemma MoreStepsCameBy(before: seq<Step>, last: Step, c: nat, call: Call)
    requires CameBy(before, c, call)
    ensures CameBy(before + [last], c, call)
  {
    var steps := before + [last];
    assert forall x :: x in before ==> x in steps;
    if FoundThreading(before, c) {
      var t :| LookUp(c, t) in before && t >= 0;
      assert LookUp(c, t) in steps;
    }
    if MetThreshold(before, c) {
      var t :| LookUp(c, t) in before && t >= 0 && (t > 1 ==> Count(c, true) in before);
      assert LookUp(c, t) in steps;
    }
    if t :| LookUp(c, t) in before && t > 1 {
      assert LookUp(c, t) in steps;
    }
  }

  lemma MetIsThreading(steps: seq<Step>, c: nat)
    requires MetThreshold(steps, c)
    ensures FoundThreading(steps, c)
  {
    var t :| LookUp(c, t) in steps && t >= 0 && (t > 1 ==> Count(c, true) in steps);
    assert LookUp(c, t) in steps && t >= 0;
  }

  lemma ActorCameBy(s: Slot, before: seq<Step>, step: Step)
    requires AllCameBy(s, before) && Enabled(s, step) && !step.Lapse?
    ensures step.c in Apply(s, step).calls && CameBy(before + [step], step.c, Apply(s, step).calls[step.c])
  {
    var steps := before + [step];
    var c := step.c;
    assert step in steps;
    if c in s.calls {
      MoreStepsCameBy(before, step, c, s.calls[c]);
      assert CameBy(steps, c, s.calls[c]);
    }
    hide AllCameBy;
    match step
    case LookUp(_, t) => assert LookUp(c, t) in steps;
    case Count(_, enough) =>
      var t :| LookUp(c, t) in steps && t > 1;
      assert enough ==> MetThreshold(steps, c);
    case Update(_) => MetIsThreading(steps, c);
    case Poll(_) => MetIsThreading(steps, c);
    case _ =>
  }

  lemma {:induction false} EveryCallCameBy(steps: seq<Step>)
    requires IsRun(EMPTY, steps)
    ensures AllCameBy(Run(EMPTY, steps), steps)
    decreases |steps|
  {
    if steps != [] {
      var before, last := steps[..|steps| - 1], steps[|steps| - 1];
      assert steps == before + [last];
      RunLast(EMPTY, before, last);
      EveryCallCameBy(before);
      var s := Run(EMPTY, before);
      var s' := Apply(s, last);
      hide CameBy, Enabled, Run, IsRun;
      forall c | c in s'.calls ensures CameBy(steps, c, s'.calls[c]) {
        if !last.Lapse? && last.c == c {
          ActorCameBy(s, before, last);
        } else {
          MoreStepsCameBy(before, last, c, s.calls[c]);
        }
      }
    }
  }

  // A parent message is posted only by a call that found threading on and the threshold met;
  // with threading off nothing is ever returned.
  lemma PostsMeetThreshold(steps: seq<Step>, k: nat)
    requires IsRun(EMPTY, steps) && k < |steps|
    ensures steps[k].Post? ==> MetThreshold(steps[..k], steps[k].c)
    ensures forall c | c in Run(EMPTY, steps).calls && Run(EMPTY, steps).calls[c].Returned? ::
      Run(EMPTY, steps).calls[c].ts != "" ==> FoundThreading(steps, c)
  {
    EveryCallCameBy(steps);
    var s' := Run(EMPTY, steps);
    forall c | c in s'.calls && s'.calls[c].Returned? && s'.calls[c].ts != "" ensures FoundThreading(steps, c) {
      assert CameBy(steps, c, s'.calls[c]);
    }
    PrefixRuns(EMPTY, steps, k);
    var before := steps[..k];
    EveryCallCameBy(before);
    if steps[k].Post? {
      assert CameBy(before, steps[k].c, Posting);
    }
  }

  lemma {:induction false} PrefixRuns(s: Slot, steps: seq<Step>, k: nat)
    requires IsRun(s, steps) && k < |steps|
    ensures IsRun(s, steps[..k]) && Enabled(Run(s, steps[..k]), steps[k])
    decreases k
  {
    if k > 0 {
      assert steps[..k][1..] == steps[1..][..k - 1];
      PrefixRuns(Apply(s, steps[0]), steps[1..], k - 1);
    }
  }

  function Alone(c: nat, threshold: int, ts: string): seq<Step> {
    [Begin(c), LookUp(c, threshold)] + (if threshold > 1 then [Count(c, true)] else [])
      + [Claim(c), Post(c, Some(ts)), Update(c)]
  }

  lemma RunFirst(s: Slot, step: Step, rest: seq<Step>)
    requires Enabled(s, step) && IsRun(Apply(s, step), rest)
    ensures IsRun(s, [step] + rest) && Run(s, [step] + rest) == Run(Apply(s, step), rest)
  {
    assert ([step] + rest)[1..] == rest;
  }

  lemma GoAgain(s: Slot, c: nat, before: Call, call: Call)
    ensures Go(Go(s, c, before), c, call) == Go(s, c, call)
  {
  }

  lemma AloneItClaims(s: Slot, c: nat, threshold: int)
    requires c !in s.calls && threshold >= 0 && s.value.None?
    ensures Enabled(s, Begin(c)) && Apply(s, Begin(c)) == Go(s, c, Begun)
    ensures var v := Go(s, c, Begun);
      && Enabled(v, LookUp(c, threshold))
      && Apply(v, LookUp(c, threshold)) == Go(s, c, if threshold > 1 then Counting else Claiming)
    ensures var v := Go(s, c, Counting);
      Enabled(v, Count(c, true)) && Apply(v, Count(c, true)) == Go(s, c, Claiming)
  {
    GoAgain(s, c, Begun, if threshold > 1 then Counting else Claiming);
    GoAgain(s, c, Counting, Claiming);
  }

  lemma AloneItHolds(s: Slot, c: nat, ts: string)
    requires s.value.None? && IsTimestamp(ts)
    ensures var steps := [Claim(c), Post(c, Some(ts)), Update(c)]; var v := Go(s, c, Claiming);
      IsRun(v, steps) && Run(v, steps)
        == Slot(Some(ts), s.life + 1, s.parents + [Parent(ts, s.life + 1)], s.calls[c := Returned(ts, false)])
  {
    hide IsTimestamp;
    var v := Go(s, c, Claiming);
    var s1 := s.(value := Some(PENDING), life := s.life + 1);
    GoAgain(s1, c, Claiming, Posting);
    assert Apply(v, Claim(c)) == Go(s1, c, Posting);
    var s2 := s1.(parents := s.parents + [Parent(ts, s.life + 1)]);
    GoAgain(s2, c, Posting, Updating(ts));
    assert Apply(Go(s1, c, Posting), Post(c, Some(ts))) == Go(s2, c, Updating(ts));
    var s3 := s2.(value := Some(ts));
    GoAgain(s3, c, Updating(ts), Returned(ts, false));
    var s' := Go(s3, c, Returned(ts, false));
    assert Apply(Go(s2, c, Updating(ts)), Update(c)) == s';
    assert IsRun(s', []) && Run(s', []) == s';
    assert Enabled(v, Claim(c)) && Enabled(Go(s1, c, Posting), Post(c, Some(ts)));
    assert Enabled(Go(s2, c, Updating(ts)), Update(c));
    hide Apply, Enabled, Run, IsRun;
    RunFirst(Go(s2, c, Updating(ts)), Update(c), []);
    RunFirst(Go(s1, c, Posting), Post(c, Some(ts)), [Update(c)]);
    RunFirst(v, Claim(c), [Post(c, Some(ts)), Update(c)]);
  }

  // A call that is alone and meets the threshold posts the parent and leaves it in the slot.
  lemma AloneItPosts(s: Slot, c: nat, threshold: int, ts: string)
    requires s.value.None? && c !in s.calls && threshold >= 0 && IsTimestamp(ts)
    ensures IsRun(s, Alone(c, threshold, ts))
    ensures Run(s, Alone(c, threshold, ts)) == Slot(
      Some(ts), s.life + 1, s.parents + [Parent(ts, s.life + 1)], s.calls[c := Returned(ts, false)])
  {
    AloneItClaims(s, c, threshold);
    AloneItHolds(s, c, ts);
    hide IsTimestamp, Apply, Enabled, Run, IsRun, Go;
    var rest := [Claim(c), Post(c, Some(ts)), Update(c)];
    if threshold > 1 {
      RunFirst(Go(s, c, Counting), Count(c, true), rest);
      rest := [Count(c, true)] + rest;
    }
    RunFirst(Go(s, c, Begun), LookUp(c, threshold), rest);
    RunFirst(s, Begin(c), [LookUp(c, threshold)] + rest);
    assert Alone(c, threshold, ts) == [Begin(c)] + ([LookUp(c, threshold)] + rest);
  }

  function Polls(c: nat, k: nat): seq<Step> { seq(k, _ => Poll(c)) }

  lemma {:induction false} PollsWait(s: Slot, c: nat, from: nat, k: nat)
    requires s.value == Some(PENDING) && from + k <= 4
    ensures IsRun(Go(s, c, Polling(from)), Polls(c, k))
    ensures Run(Go(s, c, Polling(from)), Polls(c, k)) == Go(s, c, Polling(from + k))
    decreases k
  {
    if k > 0 {
      GoAgain(s, c, Polling(from), Polling(from + 1));
      assert Apply(Go(s, c, Polling(from)), Poll(c)) == Go(s, c, Polling(from + 1));
      assert Polls(c, k)[1..] == Polls(c, k - 1);
      PollsWait(s, c, from + 1, k - 1);
    }
  }

  // A call that did not get the slot looks four times in vain and gives up at the fifth; the
  // parent's timestamp ends the wait at once.
  lemma PollsGiveUp(s: Slot, c: nat, k: nat, ts: string)
    requires s.value == Some(PENDING) && IsAt(s, c, Polling(0)) && IsTimestamp(ts)
    ensures k <= 4 ==> IsRun(s, Polls(c, k)) && Run(s, Polls(c, k)) == Go(s, c, Polling(k))
    ensures k == 4 ==> Apply(Go(s, c, Polling(k)), Poll(c)) == Go(s, c, Returned("", false))
    ensures k <= 4 ==>
      var posted := Go(s, c, Polling(k)).(value := Some(ts));
      Apply(posted, Poll(c)) == Go(posted, c, Returned(ts, false))
  {
    hide IsTimestamp;
    if k <= 4 {
      assert Go(s, c, Polling(0)) == s;
      PollsWait(s, c, 0, k);
      GoAgain(s, c, Polling(k), Returned("", false));
    }
    TimestampIsNoPlaceholder(ts);
  }
}
