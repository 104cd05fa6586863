/** Retention of history rows: deletion in batches, and the floor that the configuration keeps. */
module Retention {
  import opened Wrappers
  import opened Strings

  // --- configuration ---

  // Durations are in nanoseconds.
  const DAY := 24 * 60 * 60 * 1_000_000_000
  const MIN_RETENTION := 390 * DAY
  const DEFAULT_RETENTION := 2 * 365 * DAY

  // What the retention_history string parses to.
  datatype Setting = Blank | Invalid | Duration(d: int)

  datatype Field = Host | Database | User | Port | RetentionHistory

  predicate IsDistinct(fields: seq<Field>) {
    forall i, j :: 0 <= i < j < |fields| ==> fields[i] != fields[j]
  }

  lemma NoFieldsAreDistinct()
    ensures IsDistinct([])
  {
  }

  // add, when the check failed
  function Report(errors: seq<Field>, field: Field, failed: bool): (r: seq<Field>)
    requires IsDistinct(errors) && field !in errors
    ensures IsDistinct(r) && forall f :: f in r <==> f in errors || (failed && f == field)
  {
    if failed then errors + [field] else errors
  }

  class PostgresConfig {
    const host: string
    const database: string
    const user: string
    const port: int
    const setting: Setting
    // Zero until validated.
    var retention: int

    constructor (host: string, database: string, user: string, port: int, setting: Setting)
      ensures retention == 0 && this.setting == setting && this.port == port
      ensures this.host == host && this.database == database && this.user == user
    {
      this.host, this.database, this.user := host, database, user;
      this.port, this.setting, this.retention := port, setting, 0;
    }

    // validateStructured
    method Validate() returns (errors: seq<Field>)
      modifies `retention
      ensures Host in errors <==> TrimSpace(host) == ""
      ensures Database in errors <==> TrimSpace(database) == ""
      ensures User in errors <==> TrimSpace(user) == ""
      ensures Port in errors <==> port < 0
      ensures RetentionHistory in errors <==> setting.Invalid? || (setting.Duration? && setting.d < MIN_RETENTION)
      ensures IsDistinct(errors)
      ensures retention >= MIN_RETENTION
      ensures retention ==
        (if setting.Duration? && RetentionHistory !in errors then setting.d else DEFAULT_RETENTION)
    {
      hide TrimSpace, IsDistinct, Report;
      assert IsDistinct([]) by { NoFieldsAreDistinct(); }
      errors := Report([], Host, TrimSpace(host) == "");
      errors := Report(errors, Database, TrimSpace(database) == "");
      errors := Report(errors, User, TrimSpace(user) == "");
      errors := Report(errors, Port, port < 0);
      retention := DEFAULT_RETENTION;
      match setting
      case Blank =>
      case Invalid => errors := Report(errors, RetentionHistory, true);
      case Duration(d) =>
        if d < MIN_RETENTION {
          errors := Report(errors, RetentionHistory, true);
        } else {
          retention := d;
        }
    }

    // Also for a configuration that was never validated.
    function HistoryRetentionDuration(): (d: int)
      reads this
      ensures retention <= 0 || retention >= MIN_RETENTION ==> d >= MIN_RETENTION
    {
      if retention > 0 then retention else DEFAULT_RETENTION
    }
  }

  // --- deletion ---

  datatype Row = Row(eventType: string, completedAt: int)

  function Eligible(rows: map<nat, Row>, cutoff: int): set<nat> {
    set id | id in rows && rows[id].completedAt < cutoff
  }

  // The rows that a complete purge leaves.
  function Kept(rows: map<nat, Row>, cutoff: int): map<nat, Row> {
    map id | id in rows && cutoff <= rows[id].completedAt :: rows[id]
  }

  ghost predicate IsPart(rows': map<nat, Row>, rows: map<nat, Row>) {
    forall id | id in rows' :: id in rows && rows'[id] == rows[id]
  }

  const BATCH_SIZE := 1000

  function Min(a: nat, b: nat): nat { if a <= b then a else b }

  lemma {:induction false} BatchExists(s: set<nat>, n: nat)
    requires n <= |s|
    ensures exists b: set<nat> :: b <= s && |b| == n
  {
    if n == 0 {
      assert {} <= s;
    } else {
      BatchExists(s, n - 1);
      var b :| b <= s && |b| == n - 1;
      SmallSetMisses(s, b);
      var x :| x in s - b;
      assert b + {x} <= s && |b + {x}| == n;
    }
  }

  lemma {:induction false} SubsetIsSmaller(a: set<nat>, b: set<nat>)
    requires a <= b
    ensures |a| <= |b|
  {
    if a != {} {
      var x :| x in a;
      SubsetIsSmaller(a - {x}, b - {x});
    }
  }

  lemma SmallSetMisses(a: set<nat>, b: set<nat>)
    requires |b| < |a|
    ensures a - b != {}
  {
    SubsetIsSmaller(a * b, b);
    assert a * b + (a - b) == a;
  }

  // A part of the eligible rows is gone: those that are left, and how many went.
  lemma BatchLeaves(rows: map<nat, Row>, cutoff: int, batch: set<nat>)
    requires batch <= Eligible(rows, cutoff)
    ensures Eligible(rows - batch, cutoff) == Eligible(rows, cutoff) - batch
    ensures |Eligible(rows - batch, cutoff)| == |Eligible(rows, cutoff)| - |batch|
    ensures Kept(rows - batch, cutoff) == Kept(rows, cutoff)
  {
    assert Eligible(rows - batch, cutoff) == Eligible(rows, cutoff) - batch;
  }

  lemma NothingEligible(rows: map<nat, Row>, cutoff: int)
    requires Eligible(rows, cutoff) == {}
    ensures Kept(rows, cutoff) == rows
  {
    forall id | id in rows ensures cutoff <= rows[id].completedAt {
      assert id !in Eligible(rows, cutoff);
    }
  }

  class Retainer {
    var rows: map<nat, Row>
    const retention: int

    constructor (rows: map<nat, Row>, retention: int)
      ensures this.rows == rows && this.retention == retention
    {
      this.rows, this.retention := rows, retention;
    }

    // One DELETE with a LIMIT: which of the eligible rows go is up to the database.
    method DeleteBatch(cutoff: int) returns (n: nat, ghost batch: set<nat>)
      modifies `rows
      ensures batch <= Eligible(old(rows), cutoff) && n == |batch| == Min(BATCH_SIZE, |Eligible(old(rows), cutoff)|)
      ensures rows == old(rows) - batch
    {
      var eligible := Eligible(rows, cutoff);
      var size := Min(BATCH_SIZE, |eligible|);
      BatchExists(eligible, size);
      var picked: set<nat> :| picked <= eligible && |picked| == size;
      batch := picked;
      rows := rows - picked;
      n := |picked|;
    }

    // fault: the batch whose DELETE fails, if one does.
    method DeleteBatched(cutoff: int, fault: Option<nat>) returns (total: nat, ok: bool)
      modifies `rows
      ensures ok ==> rows == Kept(old(rows), cutoff) && total == |Eligible(old(rows), cutoff)|
      ensures Kept(rows, cutoff) == Kept(old(rows), cutoff)
      ensures total == |Eligible(old(rows), cutoff)| - |Eligible(rows, cutoff)|
      ensures !ok ==> fault.Some? && total == 1000 * fault.value
      ensures fault.None? ==> ok
      ensures IsPart(rows, old(rows))
    {
      total := 0;
      ghost var round := 0;
      while true
        invariant Kept(rows, cutoff) == Kept(old(rows), cutoff)
        invariant total == |Eligible(old(rows), cutoff)| - |Eligible(rows, cutoff)|
        invariant IsPart(rows, old(rows))
        invariant total == BATCH_SIZE * round && (fault.Some? ==> round <= fault.value)
        decreases |Eligible(rows, cutoff)|
      {
        if fault == Some(total / BATCH_SIZE) {
          return total, false;
        }
        ghost var before := rows;
        var n, batch := DeleteBatch(cutoff);
        BatchLeaves(before, cutoff, batch);
        total := total + n;
        round := round + 1;
        if n < BATCH_SIZE { break; }
      }
      NothingEligible(rows, cutoff);
      ok := true;
    }

    // The count of the rows that a purge would delete, over the groups by event type that
    // the query answers with.
    method PreflightCount(cutoff: int, types: seq<string>) returns (total: nat, byType: map<string, nat>)
      requires forall i, j :: 0 <= i < j < |types| ==> types[i] != types[j]
      requires forall id | id in Eligible(rows, cutoff) :: rows[id].eventType in types
      ensures total == |Eligible(rows, cutoff)|
      ensures forall t | t in types :: t in byType && byType[t] == |OfType(rows, cutoff, t)|
    {
      total, byType := 0, map[];
      assert OfTypes(rows, cutoff, types[..0]) == {};
      for i := 0 to |types|
        invariant total == |OfTypes(rows, cutoff, types[..i])|
        invariant forall t | t in types[..i] :: t in byType && byType[t] == |OfType(rows, cutoff, t)|
      {
        var group := OfType(rows, cutoff, types[i]);
        assert types[..i + 1] == types[..i] + [types[i]];
        OneMoreType(rows, cutoff, types[..i], types[i]);
        byType := byType[types[i] := |group|];
        total := total + |group|;
      }
      assert types[..|types|] == types;
      assert OfTypes(rows, cutoff, types) == Eligible(rows, cutoff);
    }

    // RunOnce. deleted is what it reports, on success.
    method RunOnce(now: int, types: seq<string>, fault: Option<nat>) returns (deleted: Option<nat>)
      requires forall i, j :: 0 <= i < j < |types| ==> types[i] != types[j]
      requires forall id | id in Eligible(rows, now - retention) :: rows[id].eventType in types
      modifies `rows
      ensures fault.None? ==> rows == Kept(old(rows), now - retention)
      ensures deleted.Some? ==> deleted.value == |Eligible(old(rows), now - retention)|
      ensures Kept(rows, now - retention) == Kept(old(rows), now - retention)
      ensures IsPart(rows, old(rows))
    {
      var cutoff := now - retention;
      deleted := None;
      var total, _ := PreflightCount(cutoff, types);
      if total == 0 {
        NothingEligible(rows, cutoff);
        return;
      }
      var n, ok := DeleteBatched(cutoff, fault);
      if ok {
        deleted := Some(n);
      }
    }
  }

  ghost function OfTypes(rows: map<nat, Row>, cutoff: int, types: seq<string>): set<nat> {
    set id | id in Eligible(rows, cutoff) && rows[id].eventType in types
  }

  lemma OneMoreType(rows: map<nat, Row>, cutoff: int, types: seq<string>, t: string)
    requires t !in types
    ensures |OfTypes(rows, cutoff, types + [t])| == |OfTypes(rows, cutoff, types)| + |OfType(rows, cutoff, t)|
  {
    assert OfTypes(rows, cutoff, types + [t]) == OfTypes(rows, cutoff, types) + OfType(rows, cutoff, t);
    assert OfTypes(rows, cutoff, types) !! OfType(rows, cutoff, t);
  }

  function OfType(rows: map<nat, Row>, cutoff: int, eventType: string): set<nat> {
    set id | id in Eligible(rows, cutoff) && rows[id].eventType == eventType
  }

  // With a retention that passed validation, or the default, no row younger than 390 days is
  // among those that a purge may delete.
  lemma YoungRowsSurvive(rows: map<nat, Row>, rows': map<nat, Row>, now: int, retention: int, id: nat)
    requires retention >= MIN_RETENTION && id in rows && now - rows[id].completedAt < 390 * DAY
    requires Kept(rows', now - retention) == Kept(rows, now - retention)
    ensures id in rows' && rows'[id] == rows[id]
  {
    assert id in Kept(rows, now - retention);
    assert id in Kept(rows', now - retention);
  }

  // The retention that is configured, when it is long enough, else two years.
  function Effective(s: Setting): int {
    if s.Duration? && s.d >= 390 * DAY then s.d else 730 * DAY
  }

  // From the configuration to the table: whatever batches the database picks and wherever
  // the purge is cut short, a young row is there afterwards; when it is not, exactly the rows
  // older than the effective retention are gone.
  method Purge(config: PostgresConfig, rows: map<nat, Row>, now: int, types: seq<string>, fault: Option<nat>)
    returns (rows': map<nat, Row>)
    requires forall i, j :: 0 <= i < j < |types| ==> types[i] != types[j]
    requires forall id | id in rows :: rows[id].eventType in types
    modifies config
    ensures forall id | id in rows && now - rows[id].completedAt < 390 * DAY :: id in rows' && rows'[id] == rows[id]
    ensures IsPart(rows', rows)
    ensures fault.None? ==>
      forall id | id in rows :: id in rows' <==> now - rows[id].completedAt <= Effective(config.setting)
  {
    var _ := config.Validate();
    var r := new Retainer(rows, config.HistoryRetentionDuration());
    var _ := r.RunOnce(now, types, fault);
    rows' := r.rows;
    forall id | id in rows && now - rows[id].completedAt < 390 * DAY ensures id in rows' && rows'[id] == rows[id] {
      YoungRowsSurvive(rows, rows', now, r.retention, id);
    }
  }
}
