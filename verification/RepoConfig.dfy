/** Validation and defaulting of the app entries of a repository's .deploy-bot.json. */
module RepoConfig {
  import opened Wrappers
  import opened Strings

  // --- entries ---

  datatype AppEntry = AppEntry(
    app: string,
    environment: string,
    kustomizePath: string,
    ecrRepo: string,
    tagPattern: string,
    autoDeploy: bool)

  datatype Field = App | Environment | KustomizePath | EcrRepo | TagPattern | AppAndEnvironment

  // conflictsWith is the earlier entry that the message names, if any.
  datatype ValidationError =
    ValidationError(index: int, app: string, field: Field, conflictsWith: Option<nat>)

  // pathFn stands for KustomizePathFn (None when nil); compiles stands for the regular
  // expression compiler.
  datatype ValidateOpts = ValidateOpts(
    repoNaming: bool,
    repoName: string,
    exempt: bool,
    pathFn: Option<(string, string) -> string>,
    defaultTagPattern: string,
    compiles: string -> bool)
  {
    predicate AllowDerived() { repoNaming && !exempt }

    function DerivedApp(): string { repoName }

    function DerivedKustomizePath(env: string): string {
      match pathFn
      case Some(f) => f(repoName, env)
      case None => env + "/" + repoName + "/kustomization.yaml"
    }
  }

  // What an entry stands for once blanks are trimmed and fields derived.
  datatype Target = Target(app: string, env: string, path: string)

  datatype Rejection = Rejection(app: string, field: Field)

  function Names(e: AppEntry, o: ValidateOpts): Result<Target, Rejection> {
    var app, path, env := TrimSpace(e.app), TrimSpace(e.kustomizePath), TrimSpace(e.environment);
    if o.AllowDerived() then
      if env == "" then Err(Rejection(app, Environment))
      else if app != "" && app != o.DerivedApp() then Err(Rejection(app, App))
      else if path != "" && path != o.DerivedKustomizePath(env) then
        Err(Rejection(o.DerivedApp(), KustomizePath))
      else Ok(Target(o.DerivedApp(), env, o.DerivedKustomizePath(env)))
    else if app == "" then Err(Rejection("", App))
    else if env == "" then Err(Rejection(app, Environment))
    else if path == "" then Err(Rejection(app, KustomizePath))
    else Ok(Target(app, env, path))
  }

  function EffectivePattern(e: AppEntry, o: ValidateOpts): string {
    if e.tagPattern == "" then o.defaultTagPattern else e.tagPattern
  }

  // The checks that look at one entry alone.
  function Check(e: AppEntry, o: ValidateOpts): Result<Target, Rejection> {
    match Names(e, o)
    case Err(r) => Err(r)
    case Ok(t) =>
      if TrimSpace(e.ecrRepo) == "" then Err(Rejection(t.app, EcrRepo))
      else if EffectivePattern(e, o) != "" && !o.compiles(EffectivePattern(e, o)) then
        Err(Rejection(t.app, TagPattern))
      else Ok(t)
  }

  // --- what the checks of one entry demand of its fields ---

  // The demand on this field is not met. Under enforced naming a name or path may be left out.
  predicate Fails(e: AppEntry, o: ValidateOpts, f: Field) {
    var enforced := o.repoNaming && !o.exempt;
    var app, env, path := TrimSpace(e.app), TrimSpace(e.environment), TrimSpace(e.kustomizePath);
    match f
    case Environment => env == ""
    case App => if enforced then app != "" && app != o.repoName else app == ""
    case KustomizePath => if enforced then path != "" && path != o.DerivedKustomizePath(env) else path == ""
    case EcrRepo => TrimSpace(e.ecrRepo) == ""
    case TagPattern =>
      if e.tagPattern != "" then !o.compiles(e.tagPattern)
      else o.defaultTagPattern != "" && !o.compiles(o.defaultTagPattern)
    case AppAndEnvironment => false
  }

  // The order of the demands. Enforced naming needs the environment first, to derive the path.
  function Rank(o: ValidateOpts, f: Field): nat {
    match f
    case Environment => if o.repoNaming && !o.exempt then 0 else 1
    case App => if o.repoNaming && !o.exempt then 1 else 0
    case KustomizePath => 2
    case EcrRepo => 3
    case TagPattern => 4
    case AppAndEnvironment => 5
  }

  // An entry passes exactly when no field fails, and stands for what its fields name or
  // leave to be derived; otherwise the first field that fails is reported.
  lemma CheckLooksAtFields(e: AppEntry, o: ValidateOpts)
    ensures Check(e, o).Ok? <==> forall f: Field :: !Fails(e, o, f)
    ensures var enforced := o.repoNaming && !o.exempt; var env := TrimSpace(e.environment);
      match Check(e, o)
      case Ok(t) =>
        t == Target(if enforced then o.repoName else TrimSpace(e.app), env,
                    if enforced then o.DerivedKustomizePath(env) else TrimSpace(e.kustomizePath))
      case Err(r) =>
        && Fails(e, o, r.field) && (forall f: Field | Fails(e, o, f) :: Rank(o, r.field) <= Rank(o, f))
        && r.app == if enforced && r.field != Environment && r.field != App then o.repoName else TrimSpace(e.app)
  {
    hide TrimSpace;
    match Check(e, o)
    case Err(r) => assert Fails(e, o, r.field);
    case Ok(_) =>
      forall f: Field ensures !Fails(e, o, f) {
      }
  }

  function Key(t: Target): string { t.app + "\0" + t.env }

  // The zero byte keeps app and environment apart.
  lemma KeyTellsTarget(s: Target, t: Target)
    requires '\0' !in s.env && '\0' !in t.env
    ensures Key(s) == Key(t) <==> s.app == t.app && s.env == t.env
  {
    if Key(s) == Key(t) {
      SameKeyText(s, t);
      SameKeyText(t, s);
      var key, k := Key(s), |s.app|;
      assert s.app == key[..k] == t.app;
      assert s.env == key[k + 1..] == t.env;
    }
  }

  lemma SameKeyText(s: Target, t: Target)
    requires '\0' !in s.env && Key(s) == Key(t)
    ensures |s.env| <= |t.env|
  {
    assert Key(s)[|t.app|] == '\0';
  }

  // The outcome of those checks for every entry.
  type Checks = seq<Result<Target, Rejection>>

  function ChecksOf(apps: seq<AppEntry>, o: ValidateOpts): (cs: Checks)
    ensures |cs| == |apps|
  {
    seq(|apps|, i requires 0 <= i < |apps| => Check(apps[i], o))
  }

  // --- what it means for an entry to be rejected, without reference to the loop ---

  predicate SameKey(cs: Checks, i: nat, j: nat)
    requires i < |cs| && j < |cs|
  {
    cs[i].Ok? && cs[j].Ok? && Key(cs[i].value) == Key(cs[j].value)
  }

  predicate SamePath(cs: Checks, i: nat, j: nat)
    requires i < |cs| && j < |cs|
  {
    cs[i].Ok? && cs[j].Ok? && cs[i].value.path == cs[j].value.path
  }

  // Entry i passes its own checks and is the first with its key.
  predicate FirstOfKey(cs: Checks, i: nat)
    requires i < |cs|
  {
    cs[i].Ok? && forall k :: 0 <= k < i ==> !SameKey(cs, k, i)
  }

  // Entry k, the first of its key, targets the path of entry i.
  predicate ClaimsPathOf(cs: Checks, k: nat, i: nat)
    requires k < |cs| && i < |cs|
  {
    FirstOfKey(cs, k) && SamePath(cs, k, i)
  }

  predicate IsValidEntry(cs: Checks, i: nat)
    requires i < |cs|
  {
    FirstOfKey(cs, i) && forall k :: 0 <= k < i ==> !ClaimsPathOf(cs, k, i)
  }

  // The one error reported for an entry that is not valid.
  predicate IsErrorOf(cs: Checks, i: nat, e: ValidationError)
    requires i < |cs|
  {
    && e.index == i
    && match cs[i]
       case Err(r) => e.app == r.app && e.field == r.field && e.conflictsWith == None
       case Ok(t) =>
         && e.app == t.app
         && e.conflictsWith.Some? && e.conflictsWith.value < i
         && var k := e.conflictsWith.value;
            if FirstOfKey(cs, i)
            then e.field == KustomizePath && ClaimsPathOf(cs, k, i)
            else e.field == AppAndEnvironment && FirstOfKey(cs, k) && SameKey(cs, k, i)
  }

  // The errors for the first n entries: in strictly increasing order of index, one for
  // each entry that is not valid and none for the others.
  ghost predicate Reports(cs: Checks, n: nat, errs: seq<ValidationError>)
    requires n <= |cs|
  {
    && (forall a, b :: 0 <= a < b < |errs| ==> errs[a].index < errs[b].index)
    && (forall a :: 0 <= a < |errs| ==>
          && 0 <= errs[a].index < n
          && !IsValidEntry(cs, errs[a].index)
          && IsErrorOf(cs, errs[a].index, errs[a]))
    && (forall i :: 0 <= i < n && !IsValidEntry(cs, i) ==>
          exists a :: 0 <= a < |errs| && errs[a].index == i)
  }

  // seen holds the first index of every key met so far.
  ghost predicate IsSeen(cs: Checks, n: nat, seen: map<string, nat>)
    requires n <= |cs|
  {
    && (forall key | key in seen ::
          seen[key] < n && FirstOfKey(cs, seen[key]) && Key(cs[seen[key]].value) == key)
    && (forall i | 0 <= i < n && cs[i].Ok? :: Key(cs[i].value) in seen)
  }

  // kpaths holds a claimant of every path claimed so far.
  ghost predicate IsClaims(cs: Checks, n: nat, kpaths: map<string, nat>)
    requires n <= |cs|
  {
    && (forall path | path in kpaths ::
          kpaths[path] < n && FirstOfKey(cs, kpaths[path]) && cs[kpaths[path]].value.path == path)
    && (forall i | 0 <= i < n && FirstOfKey(cs, i) :: cs[i].value.path in kpaths)
  }

  method ValidateWithOpts(apps: seq<AppEntry>, o: ValidateOpts) returns (errs: seq<ValidationError>)
    ensures Reports(ChecksOf(apps, o), |apps|, errs)
  {
    errs := [];
    var seen: map<string, nat> := map[];
    var kpaths: map<string, nat> := map[];
    ghost var cs := ChecksOf(apps, o);
    assert forall i :: 0 <= i < |apps| ==> cs[i] == Check(apps[i], o);
    NothingReported(cs);
    hide *;
    for i := 0 to |apps|
      invariant Reports(cs, i, errs)
      invariant IsSeen(cs, i, seen)
      invariant IsClaims(cs, i, kpaths)
    {
      NextSeen(cs, i, seen);
      NextClaims(cs, i, seen, kpaths);
      NextReport(cs, i, errs, seen, kpaths);
      match Check(apps[i], o) {
        case Err(r) =>
          errs := errs + [ValidationError(i, r.app, r.field, None)];
        case Ok(t) =>
          if Key(t) in seen {
            errs := errs + [ValidationError(i, t.app, AppAndEnvironment, Some(seen[Key(t)]))];
          } else {
            seen := seen[Key(t) := i];
            if t.path in kpaths {
              errs := errs + [ValidationError(i, t.app, KustomizePath, Some(kpaths[t.path]))];
            } else {
              kpaths := kpaths[t.path := i];
            }
          }
      }
    }
  }

  lemma NothingReported(cs: Checks)
    ensures Reports(cs, 0, []) && IsSeen(cs, 0, map[]) && IsClaims(cs, 0, map[])
  {
  }

  // The error, if any, that the maps lead to for entry i is the one it deserves.
  lemma NextReport(cs: Checks, i: nat, errs: seq<ValidationError>, seen: map<string, nat>, kpaths: map<string, nat>)
    requires i < |cs| && Reports(cs, i, errs) && IsSeen(cs, i, seen) && IsClaims(cs, i, kpaths)
    ensures match cs[i]
      case Err(r) => Reports(cs, i + 1, errs + [ValidationError(i, r.app, r.field, None)])
      case Ok(t) =>
        if Key(t) in seen then
          Reports(cs, i + 1, errs + [ValidationError(i, t.app, AppAndEnvironment, Some(seen[Key(t)]))])
        else if t.path in kpaths then
          Reports(cs, i + 1, errs + [ValidationError(i, t.app, KustomizePath, Some(kpaths[t.path]))])
        else
          Reports(cs, i + 1, errs)
  {
    match cs[i]
    case Err(r) => ReportInvalid(cs, i, errs, ValidationError(i, r.app, r.field, None));
    case Ok(t) =>
      SeenDecidesFirst(cs, i, seen);
      ClaimsDecideValid(cs, i, kpaths);
      if Key(t) in seen {
        ReportInvalid(cs, i, errs, ValidationError(i, t.app, AppAndEnvironment, Some(seen[Key(t)])));
      } else if t.path in kpaths {
        ReportInvalid(cs, i, errs, ValidationError(i, t.app, KustomizePath, Some(kpaths[t.path])));
      } else {
        ReportValid(cs, i, errs);
      }
  }

  lemma ReportInvalid(cs: Checks, n: nat, errs: seq<ValidationError>, e: ValidationError)
    requires n < |cs| && Reports(cs, n, errs)
    requires !IsValidEntry(cs, n) && IsErrorOf(cs, n, e)
    ensures Reports(cs, n + 1, errs + [e])
  {
    var errs' := errs + [e];
    forall i | 0 <= i < n + 1 && !IsValidEntry(cs, i)
      ensures exists a :: 0 <= a < |errs'| && errs'[a].index == i
    {
      if i == n {
        assert errs'[|errs|].index == i;
      } else {
        var a :| 0 <= a < |errs| && errs[a].index == i;
        assert errs'[a].index == i;
      }
    }
  }

  lemma ReportValid(cs: Checks, n: nat, errs: seq<ValidationError>)
    requires n < |cs| && Reports(cs, n, errs) && IsValidEntry(cs, n)
    ensures Reports(cs, n + 1, errs)
  {
  }

  lemma SeenDecidesFirst(cs: Checks, i: nat, seen: map<string, nat>)
    requires i < |cs| && cs[i].Ok? && IsSeen(cs, i, seen)
    ensures FirstOfKey(cs, i) <==> Key(cs[i].value) !in seen
  {
    var key := Key(cs[i].value);
    if key in seen {
      assert SameKey(cs, seen[key], i);
    }
  }

  lemma ClaimsDecideValid(cs: Checks, i: nat, kpaths: map<string, nat>)
    requires i < |cs| && cs[i].Ok? && IsClaims(cs, i, kpaths)
    ensures var path := cs[i].value.path;
      && (path in kpaths ==> ClaimsPathOf(cs, kpaths[path], i))
      && (path !in kpaths ==> forall k :: 0 <= k < i ==> !ClaimsPathOf(cs, k, i))
  {
  }

  lemma NextSeen(cs: Checks, i: nat, seen: map<string, nat>)
    requires i < |cs| && IsSeen(cs, i, seen)
    ensures IsSeen(cs, i + 1,
      if cs[i].Ok? && Key(cs[i].value) !in seen then seen[Key(cs[i].value) := i] else seen)
  {
    if cs[i].Ok? {
      SeenDecidesFirst(cs, i, seen);
    }
  }

  lemma NextClaims(cs: Checks, i: nat, seen: map<string, nat>, kpaths: map<string, nat>)
    requires i < |cs| && IsSeen(cs, i, seen) && IsClaims(cs, i, kpaths)
    ensures IsClaims(cs, i + 1,
      if cs[i].Ok? && Key(cs[i].value) !in seen && cs[i].value.path !in kpaths
      then kpaths[cs[i].value.path := i] else kpaths)
  {
    if cs[i].Ok? {
      SeenDecidesFirst(cs, i, seen);
      hide IsSeen, IsClaims, FirstOfKey, Key;
      if FirstOfKey(cs, i) && cs[i].value.path !in kpaths {
        ClaimGrows(cs, i, kpaths);
      } else {
        ClaimsStay(cs, i, kpaths);
      }
    }
  }

  lemma ClaimGrows(cs: Checks, i: nat, kpaths: map<string, nat>)
    requires i < |cs| && IsClaims(cs, i, kpaths) && FirstOfKey(cs, i) && cs[i].value.path !in kpaths
    ensures IsClaims(cs, i + 1, kpaths[cs[i].value.path := i])
  {
    hide Key;
  }

  lemma ClaimsStay(cs: Checks, i: nat, kpaths: map<string, nat>)
    requires i < |cs| && IsClaims(cs, i, kpaths) && (FirstOfKey(cs, i) ==> cs[i].value.path in kpaths)
    ensures IsClaims(cs, i + 1, kpaths)
  {
    hide Key;
  }

  // --- valid entries ---

  // The indices below n that pass, in increasing order.
  ghost predicate IsValidList(cs: Checks, n: nat, valid: seq<nat>)
    requires n <= |cs|
  {
    && (forall a, b :: 0 <= a < b < |valid| ==> valid[a] < valid[b])
    && (forall a :: 0 <= a < |valid| ==> valid[a] < n && IsValidEntry(cs, valid[a]))
    && (forall i :: 0 <= i < n && IsValidEntry(cs, i) ==>
          exists a :: 0 <= a < |valid| && valid[a] == i)
  }

  method ValidEntries(n: nat, errs: seq<ValidationError>) returns (valid: seq<nat>)
    ensures (exists e :: e in errs && e.index < 0) ==> valid == []
    ensures (forall e :: e in errs ==> e.index >= 0) ==>
      && (forall a, b :: 0 <= a < b < |valid| ==> valid[a] < valid[b])
      && (forall i: nat :: i in valid <==> i < n && forall e :: e in errs ==> e.index != i)
  {
    valid := [];
    var invalid: set<int> := {};
    for k := 0 to |errs|
      invariant forall e :: e in errs[..k] ==> e.index >= 0
      invariant forall i :: i in invalid <==> exists e :: e in errs[..k] && e.index == i
    {
      assert errs[k] in errs;
      if errs[k].index < 0 {
        return;
      }
      assert errs[..k + 1] == errs[..k] + [errs[k]];
      invalid := invalid + {errs[k].index};
    }
    assert errs[..|errs|] == errs;
    for i := 0 to n
      invariant forall a, b :: 0 <= a < b < |valid| ==> valid[a] < valid[b]
      invariant forall j: nat :: j in valid <==> j < i && j !in invalid
    {
      if i !in invalid {
        assert forall a :: 0 <= a < |valid| ==> valid[a] in valid;
        valid := valid + [i];
      }
    }
  }

  // ValidEntries is the exact complement of the errors.
  lemma ComplementIsValid(cs: Checks, errs: seq<ValidationError>, valid: seq<nat>)
    requires Reports(cs, |cs|, errs)
    requires forall a, b :: 0 <= a < b < |valid| ==> valid[a] < valid[b]
    requires forall i: nat :: i in valid <==> i < |cs| && forall e :: e in errs ==> e.index != i
    ensures IsValidList(cs, |cs|, valid)
  {
    forall a | 0 <= a < |valid| ensures valid[a] < |cs| && IsValidEntry(cs, valid[a]) {
      assert valid[a] in valid;
    }
    forall i | 0 <= i < |cs| && IsValidEntry(cs, i)
      ensures exists a :: 0 <= a < |valid| && valid[a] == i
    {
      assert i in valid;
    }
  }

  lemma HasRoom(xs: seq<int>, n: int)
    requires xs != [] && forall a :: 0 <= a < |xs| ==> 0 <= xs[a] < n
    ensures n > 0
  {
    assert 0 <= xs[0] < n;
  }

  // The indices of one of the two kinds, in increasing order.
  ghost predicate IsShare(good: seq<bool>, kind: bool, xs: seq<int>) {
    && (forall a, b :: 0 <= a < b < |xs| ==> xs[a] < xs[b])
    && (forall a :: 0 <= a < |xs| ==> 0 <= xs[a] < |good| && good[xs[a]] == kind)
    && (forall i :: 0 <= i < |good| && good[i] == kind ==> i in xs)
  }

  lemma ShareOfNothing(kind: bool, xs: seq<int>)
    requires IsShare([], kind, xs)
    ensures xs == []
  {
    if xs != [] {
      HasRoom(xs, 0);
    }
  }

  lemma LastOfShare(good: seq<bool>, kind: bool, xs: seq<int>)
    requires good != [] && IsShare(good, kind, xs) && good[|good| - 1] == kind
    ensures xs != [] && IsShare(good[..|good| - 1], kind, xs[..|xs| - 1])
  {
    var n, last := |good| - 1, |xs| - 1;
    assert n in xs && xs[last] == n;
    assert xs == xs[..last] + [n];
  }

  lemma ShareOfOthers(good: seq<bool>, kind: bool, xs: seq<int>)
    requires good != [] && IsShare(good, kind, xs) && good[|good| - 1] != kind
    ensures IsShare(good[..|good| - 1], kind, xs)
  {
  }

  // Two increasing lists that share the indices between them.
  lemma {:induction false} CountShares(good: seq<bool>, xs: seq<int>, ys: seq<int>)
    requires IsShare(good, true, xs) && IsShare(good, false, ys)
    ensures |xs| + |ys| == |good|
    decreases |good|
  {
    hide IsShare;
    if good == [] {
      ShareOfNothing(true, xs);
      ShareOfNothing(false, ys);
    } else if good[|good| - 1] {
      LastOfShare(good, true, xs);
      ShareOfOthers(good, false, ys);
      CountShares(good[..|good| - 1], xs[..|xs| - 1], ys);
    } else {
      LastOfShare(good, false, ys);
      ShareOfOthers(good, true, xs);
      CountShares(good[..|good| - 1], xs, ys[..|ys| - 1]);
    }
  }

  // len(Apps) - len(errs), which the CLI prints, is the number of valid entries.
  lemma ValidCount(cs: Checks, errs: seq<ValidationError>, valid: seq<nat>)
    requires Reports(cs, |cs|, errs) && IsValidList(cs, |cs|, valid)
    ensures |valid| == |cs| - |errs|
  {
    var good := seq(|cs|, i requires 0 <= i < |cs| => IsValidEntry(cs, i));
    var bad := seq(|errs|, a requires 0 <= a < |errs| => errs[a].index);
    forall i | 0 <= i < |cs| ensures if good[i] then i in valid else i in bad {
      if !good[i] {
        var a :| 0 <= a < |errs| && errs[a].index == i;
        assert bad[a] == i;
      }
    }
    CountShares(good, valid, bad);
  }

  // No two valid entries deploy the same app to the same environment or share a path.
  lemma ValidEntriesAreUnique(cs: Checks, i: nat, j: nat)
    requires i < |cs| && j < |cs| && i != j
    requires IsValidEntry(cs, i) && IsValidEntry(cs, j)
    ensures var s, t := cs[i].value, cs[j].value;
      (s.app, s.env) != (t.app, t.env) && s.path != t.path
  {
    var first, second := if i < j then i else j, if i < j then j else i;
    assert !SameKey(cs, first, second);
    assert !ClaimsPathOf(cs, first, second);
  }

  // --- defaults ---

  function WithDefaults(e: AppEntry, o: ValidateOpts): AppEntry {
    var env := TrimSpace(e.environment);
    e.(app := if TrimSpace(e.app) == "" then o.DerivedApp() else e.app,
       kustomizePath := if TrimSpace(e.kustomizePath) == "" && env != ""
                        then o.DerivedKustomizePath(env) else e.kustomizePath,
       tagPattern := EffectivePattern(e, o))
  }

  function AllWithDefaults(apps: seq<AppEntry>, o: ValidateOpts): (r: seq<AppEntry>)
    ensures |r| == |apps|
  {
    seq(|apps|, i requires 0 <= i < |apps| => WithDefaults(apps[i], o))
  }

  method FillDefaults(entry: AppEntry, o: ValidateOpts) returns (e: AppEntry)
    ensures e == WithDefaults(entry, o)
  {
    hide TrimSpace;
    e := entry;
    var env := TrimSpace(e.environment);
    if TrimSpace(e.app) == "" {
      e := e.(app := o.DerivedApp());
    }
    if TrimSpace(e.kustomizePath) == "" && env != "" {
      e := e.(kustomizePath := o.DerivedKustomizePath(env));
    }
    if e.tagPattern == "" && o.defaultTagPattern != "" {
      e := e.(tagPattern := o.defaultTagPattern);
    }
  }

  method ApplyDefaults(apps: array<AppEntry>, o: ValidateOpts)
    modifies apps
    ensures apps[..] == AllWithDefaults(old(apps[..]), o)
  {
    hide WithDefaults;
    for i := 0 to apps.Length
      invariant forall k :: 0 <= k < i ==> apps[k] == WithDefaults(old(apps[k]), o)
      invariant forall k :: i <= k < apps.Length ==> apps[k] == old(apps[k])
    {
      var e := FillDefaults(apps[i], o);
      apps[i] := e;
    }
  }

  // Derived names are not blank and carry no blanks around them.
  ghost predicate DerivesTrimmed(o: ValidateOpts) {
    && IsTrimmed(o.DerivedApp())
    && forall env :: IsTrimmed(env) ==> IsTrimmed(o.DerivedKustomizePath(env))
  }

  lemma DefaultsKeepCheck(e: AppEntry, o: ValidateOpts)
    requires o.AllowDerived() && DerivesTrimmed(o)
    ensures var before, after := Check(e, o), Check(WithDefaults(e, o), o);
      && (before.Ok? ==> after == before)
      && (before.Err? ==> after.Err? && after.error.field == before.error.field)
  {
    var env := TrimSpace(e.environment);
    TrimSpaceTrims(e.environment);
    TrimSpaceOfTrimmed(o.DerivedApp());
    if env != "" {
      TrimSpaceOfTrimmed(o.DerivedKustomizePath(env));
    }
    hide TrimSpace;
  }

  // Validity only looks at the targets of the entries that pass their own checks.
  lemma SameTargetsSameValidity(cs: Checks, ds: Checks, i: nat)
    requires |cs| == |ds| && i < |cs|
    requires forall k :: 0 <= k < |cs| ==> (cs[k].Ok? <==> ds[k].Ok?)
    requires forall k :: 0 <= k < |cs| && cs[k].Ok? ==> cs[k] == ds[k]
    ensures IsValidEntry(cs, i) <==> IsValidEntry(ds, i)
  {
    forall k | 0 <= k <= i ensures FirstOfKey(cs, k) <==> FirstOfKey(ds, k) {
      assert forall m :: 0 <= m < k ==> (SameKey(cs, m, k) <==> SameKey(ds, m, k));
    }
    assert forall k :: 0 <= k < i ==> (ClaimsPathOf(cs, k, i) <==> ClaimsPathOf(ds, k, i));
  }

  // Under enforced naming the defaults do not change which entries are valid.
  lemma RevalidationIsStable(apps: seq<AppEntry>, o: ValidateOpts, i: nat)
    requires o.AllowDerived() && DerivesTrimmed(o) && i < |apps|
    ensures IsValidEntry(ChecksOf(AllWithDefaults(apps, o), o), i) <==> IsValidEntry(ChecksOf(apps, o), i)
  {
    forall k | 0 <= k < |apps|
      ensures var before, after := Check(apps[k], o), Check(AllWithDefaults(apps, o)[k], o);
        (before.Ok? <==> after.Ok?) && (before.Ok? ==> before == after)
    {
      DefaultsKeepCheck(apps[k], o);
    }
    SameTargetsSameValidity(ChecksOf(apps, o), ChecksOf(AllWithDefaults(apps, o), o), i);
  }

  // After the defaults a valid entry spells out its target, up to surrounding blanks.
  lemma DefaultsSpellOutTarget(e: AppEntry, o: ValidateOpts)
    requires o.AllowDerived() && DerivesTrimmed(o) && Check(e, o).Ok?
    ensures var d := WithDefaults(e, o);
      Check(e, o).value == Target(TrimSpace(d.app), TrimSpace(d.environment), TrimSpace(d.kustomizePath))
  {
    var env := TrimSpace(e.environment);
    TrimSpaceTrims(e.environment);
    TrimSpaceOfTrimmed(o.DerivedApp());
    TrimSpaceOfTrimmed(o.DerivedKustomizePath(env));
  }
}
