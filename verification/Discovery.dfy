/**
 From discovered entries to the configuration in force: conflicts with the operator's apps
 and among discovered apps, the filter, and the merge.
 */
module Discovery {
  import opened Wrappers

  datatype AppConfig = AppConfig(
    app: string,
    environment: string,
    kustomizePath: string,
    ecrRepo: string,
    tagPattern: string,
    autoDeploy: bool,
    sourceRepo: string)
  {
    function FullName(): string { app + "-" + environment }
  }

  type Apps = seq<AppConfig>

  lemma SameFullName(d: AppConfig, e: AppConfig)
    requires '-' !in d.environment && d.FullName() == e.FullName()
    ensures |d.environment| <= |e.environment|
  {
    assert d.FullName()[|e.app|] == '-';
  }

  // A full name tells app and environment, for environments without hyphens.
  lemma FullNameTellsApp(d: AppConfig, e: AppConfig)
    requires '-' !in d.environment && '-' !in e.environment
    ensures d.FullName() == e.FullName() <==> d.app == e.app && d.environment == e.environment
  {
    if d.FullName() == e.FullName() {
      SameFullName(d, e);
      SameFullName(e, d);
      var name, k := d.FullName(), |d.app|;
      assert d.app == name[..k] == e.app;
      assert d.environment == name[k + 1..] == e.environment;
    }
  }

  // With hyphens two apps can have one full name.
  lemma FullNamesClash(d: AppConfig)
    ensures d.(app := "a-b", environment := "c").FullName() == "a-b-c"
    ensures d.(app := "a", environment := "b-c").FullName() == "a-b-c"
  {
  }

  predicate HasName(apps: Apps, name: string) {
    exists i :: 0 <= i < |apps| && apps[i].FullName() == name
  }

  predicate HasPath(apps: Apps, path: string) {
    exists i :: 0 <= i < |apps| && apps[i].kustomizePath == path
  }

  // No two apps target the same kustomization file.
  ghost predicate PathsAreUnique(apps: Apps) {
    forall i, j :: 0 <= i < j < |apps| && apps[j].kustomizePath != "" ==>
      apps[i].kustomizePath != apps[j].kustomizePath
  }

  ghost predicate IsSharedPath(apps: Apps, path: string) {
    exists i, j :: 0 <= i < j < |apps| && apps[i].kustomizePath == apps[j].kustomizePath == path
  }

  // The check made when the operator's configuration is loaded; reports a path used twice.
  method CheckPaths(apps: Apps) returns (clash: Option<string>)
    ensures clash.None? <==> PathsAreUnique(apps)
    ensures clash.Some? ==> clash.value != ""
    ensures clash.Some? ==> IsSharedPath(apps, clash.value)
  {
    var kpaths: set<string> := {};
    for j := 0 to |apps|
      invariant kpaths == set i | 0 <= i < j && apps[i].kustomizePath != "" :: apps[i].kustomizePath
      invariant PathsAreUnique(apps[..j])
    {
      var path := apps[j].kustomizePath;
      if path != "" {
        if path in kpaths {
          var i :| 0 <= i < j && apps[i].kustomizePath == path;
          return Some(path);
        }
        kpaths := kpaths + {path};
      }
    }
    assert apps[..|apps|] == apps;
    return None;
  }

  // --- conflicts ---

  datatype Reason = NameTaken | PathTaken

  datatype ConflictInfo = ConflictInfo(
    app: string, env: string, sourceRepo: string, reason: Reason, detail: string)

  type Conflicts = map<string, ConflictInfo>

  function Label(d: AppConfig): string {
    d.FullName() + " from " + d.sourceRepo
  }

  // Entry i gives a reason to exclude its app: the operator has the name, the operator has
  // the path, or an earlier entry has the path.
  ghost predicate Excludes(ops: Apps, ds: Apps, i: nat, info: ConflictInfo)
    requires i < |ds|
  {
    var d := ds[i];
    && info.app == d.app && info.env == d.environment && info.sourceRepo == d.sourceRepo
    && match info.reason
       case NameTaken => HasName(ops, d.FullName()) && info.detail == ""
       case PathTaken =>
         && d.kustomizePath != ""
         && !HasName(ops, d.FullName())
         && (OperatorHolds(ops, d.kustomizePath, info.detail) || EarlierHolds(ds, i, d.kustomizePath, info.detail))
  }

  ghost predicate OperatorHolds(ops: Apps, path: string, detail: string) {
    exists o :: o in ops && o.kustomizePath == path && detail == "operator app " + o.FullName()
  }

  // One of the first n entries has the path, and this is its label.
  ghost predicate EarlierHolds(ds: Apps, n: nat, path: string, detail: string)
    requires n <= |ds|
  {
    exists j :: 0 <= j < n && ds[j].kustomizePath == path && detail == Label(ds[j])
  }

  // One of the first n entries is of this app and excludes it.
  ghost predicate HasGround(ops: Apps, ds: Apps, n: nat, name: string, info: ConflictInfo)
    requires n <= |ds|
  {
    exists i :: 0 <= i < n && ds[i].FullName() == name && Excludes(ops, ds, i, info)
  }

  // Every excluded app has such an entry.
  ghost predicate IsGrounded(ops: Apps, ds: Apps, n: nat, conflicts: Conflicts)
    requires n <= |ds|
  {
    forall name | name in conflicts :: HasGround(ops, ds, n, name, conflicts[name])
  }

  predicate IsKept(ds: Apps, i: nat, conflicts: Conflicts)
    requires i < |ds|
  {
    ds[i].FullName() !in conflicts
  }

  predicate ClearOfOperator(ops: Apps, d: AppConfig) {
    !HasName(ops, d.FullName()) && (d.kustomizePath != "" ==> !HasPath(ops, d.kustomizePath))
  }

  // The entries of the other apps clash with nothing of the operator's and not with each other.
  ghost predicate IsClear(ops: Apps, ds: Apps, n: nat, conflicts: Conflicts)
    requires n <= |ds|
  {
    && (forall i :: 0 <= i < n && IsKept(ds, i, conflicts) ==> ClearOfOperator(ops, ds[i]))
    && (forall i, j :: 0 <= i < j < n && IsKept(ds, i, conflicts) && IsKept(ds, j, conflicts)
          ==> (ds[j].kustomizePath != "" ==> ds[i].kustomizePath != ds[j].kustomizePath))
  }

  // The paths claimed so far, each with the label of a claimant.
  ghost predicate IsClaimed(ds: Apps, n: nat, conflicts: Conflicts, claimed: map<string, string>)
    requires n <= |ds|
  {
    && (forall path | path in claimed :: EarlierHolds(ds, n, path, claimed[path]))
    && (forall j :: 0 <= j < n && IsKept(ds, j, conflicts) && ds[j].kustomizePath != "" ==>
          ds[j].kustomizePath in claimed)
  }

  method DetectConflicts(ops: Apps, ds: Apps) returns (conflicts: Conflicts)
    ensures IsGrounded(ops, ds, |ds|, conflicts)
    ensures IsClear(ops, ds, |ds|, conflicts)
  {
    var operatorApps: set<string> := {};
    var operatorPaths: map<string, string> := map[];
    for i := 0 to |ops|
      invariant forall name :: name in operatorApps <==> HasName(ops[..i], name)
      invariant forall path | path in operatorPaths ::
        exists o :: o in ops && o.kustomizePath == path && operatorPaths[path] == o.FullName()
      invariant forall k :: 0 <= k < i && ops[k].kustomizePath != "" ==> ops[k].kustomizePath in operatorPaths
    {
      NameSetGrows(ops, i, operatorApps);
      operatorApps := operatorApps + {ops[i].FullName()};
      if ops[i].kustomizePath != "" {
        assert ops[i] in ops;
        operatorPaths := operatorPaths[ops[i].kustomizePath := ops[i].FullName()];
      }
    }
    assert ops[..|ops|] == ops;

    conflicts := map[];
    var discoveredPaths: map<string, string> := map[];
    for i := 0 to |ds|
      invariant IsGrounded(ops, ds, i, conflicts)
      invariant IsClear(ops, ds, i, conflicts)
      invariant IsClaimed(ds, i, conflicts, discoveredPaths)
    {
      var d := ds[i];
      var key := d.FullName();
      if key in conflicts {
        Skip(ops, ds, i, conflicts, discoveredPaths);
      } else if key in operatorApps {
        Exclude(ops, ds, i, conflicts, discoveredPaths,
                ConflictInfo(d.app, d.environment, d.sourceRepo, NameTaken, ""));
        conflicts := conflicts[key := ConflictInfo(d.app, d.environment, d.sourceRepo, NameTaken, "")];
      } else if d.kustomizePath != "" && d.kustomizePath in operatorPaths {
        var detail := "operator app " + operatorPaths[d.kustomizePath];
        Exclude(ops, ds, i, conflicts, discoveredPaths,
                ConflictInfo(d.app, d.environment, d.sourceRepo, PathTaken, detail));
        conflicts := conflicts[key := ConflictInfo(d.app, d.environment, d.sourceRepo, PathTaken, detail)];
      } else if d.kustomizePath != "" && d.kustomizePath in discoveredPaths {
        var detail := discoveredPaths[d.kustomizePath];
        Exclude(ops, ds, i, conflicts, discoveredPaths,
                ConflictInfo(d.app, d.environment, d.sourceRepo, PathTaken, detail));
        conflicts := conflicts[key := ConflictInfo(d.app, d.environment, d.sourceRepo, PathTaken, detail)];
      } else {
        Claim(ops, ds, i, conflicts, discoveredPaths);
        if d.kustomizePath != "" {
          discoveredPaths := discoveredPaths[d.kustomizePath := Label(d)];
        }
      }
    }
  }

  lemma NameSetGrows(ops: Apps, i: nat, names: set<string>)
    requires i < |ops| && forall name :: name in names <==> HasName(ops[..i], name)
    ensures forall name :: name in names + {ops[i].FullName()} <==> HasName(ops[..i + 1], name)
  {
    forall name ensures HasName(ops[..i + 1], name) <==> HasName(ops[..i], name) || name == ops[i].FullName() {
      if HasName(ops[..i], name) {
        var k :| 0 <= k < i && ops[..i][k].FullName() == name;
        assert ops[..i + 1][k].FullName() == name;
      }
      if name == ops[i].FullName() {
        assert ops[..i + 1][i].FullName() == name;
      }
      if HasName(ops[..i + 1], name) && name != ops[i].FullName() {
        var k :| 0 <= k < i + 1 && ops[..i + 1][k].FullName() == name;
        assert ops[..i][k].FullName() == name;
      }
    }
  }

  lemma GroundLasts(ops: Apps, ds: Apps, n: nat, name: string, info: ConflictInfo)
    requires n < |ds| && HasGround(ops, ds, n, name, info)
    ensures HasGround(ops, ds, n + 1, name, info)
  {
  }

  lemma ClaimLasts(ds: Apps, n: nat, path: string, detail: string)
    requires n < |ds| && EarlierHolds(ds, n, path, detail)
    ensures EarlierHolds(ds, n + 1, path, detail)
  {
  }

  lemma GroundedGrows(ops: Apps, ds: Apps, i: nat, conflicts: Conflicts)
    requires i < |ds| && IsGrounded(ops, ds, i, conflicts)
    ensures IsGrounded(ops, ds, i + 1, conflicts)
  {
    forall name | name in conflicts ensures HasGround(ops, ds, i + 1, name, conflicts[name]) {
      GroundLasts(ops, ds, i, name, conflicts[name]);
    }
  }

  lemma ClearGrows(ops: Apps, ds: Apps, i: nat, before: Conflicts, after: Conflicts)
    requires i < |ds| && IsClear(ops, ds, i, before)
    requires before.Keys <= after.Keys && !IsKept(ds, i, after)
    ensures IsClear(ops, ds, i + 1, after)
  {
    hide ClearOfOperator;
    assert forall k :: 0 <= k < |ds| && IsKept(ds, k, after) ==> IsKept(ds, k, before);
    hide IsKept;
  }

  lemma ClaimedGrows(ds: Apps, i: nat, before: Conflicts, after: Conflicts, claimed: map<string, string>)
    requires i < |ds| && IsClaimed(ds, i, before, claimed)
    requires before.Keys <= after.Keys && !IsKept(ds, i, after)
    ensures IsClaimed(ds, i + 1, after, claimed)
  {
    forall path | path in claimed ensures EarlierHolds(ds, i + 1, path, claimed[path]) {
      ClaimLasts(ds, i, path, claimed[path]);
    }
    assert forall k :: 0 <= k < |ds| && IsKept(ds, k, after) ==> IsKept(ds, k, before);
    hide IsKept, EarlierHolds;
  }

  lemma Skip(ops: Apps, ds: Apps, i: nat, conflicts: Conflicts, claimed: map<string, string>)
    requires i < |ds| && !IsKept(ds, i, conflicts)
    requires IsGrounded(ops, ds, i, conflicts) && IsClear(ops, ds, i, conflicts)
    requires IsClaimed(ds, i, conflicts, claimed)
    ensures IsGrounded(ops, ds, i + 1, conflicts) && IsClear(ops, ds, i + 1, conflicts)
    ensures IsClaimed(ds, i + 1, conflicts, claimed)
  {
    GroundedGrows(ops, ds, i, conflicts);
    ClearGrows(ops, ds, i, conflicts, conflicts);
    ClaimedGrows(ds, i, conflicts, conflicts, claimed);
  }

  lemma GroundAdded(ops: Apps, ds: Apps, i: nat, conflicts: Conflicts, info: ConflictInfo)
    requires i < |ds| && Excludes(ops, ds, i, info) && IsGrounded(ops, ds, i, conflicts)
    ensures IsGrounded(ops, ds, i + 1, conflicts[ds[i].FullName() := info])
  {
    assert HasGround(ops, ds, i + 1, ds[i].FullName(), info);
    GroundedGrows(ops, ds, i, conflicts);
    hide HasGround, Excludes;
  }

  lemma Exclude(ops: Apps, ds: Apps, i: nat, conflicts: Conflicts, claimed: map<string, string>, info: ConflictInfo)
    requires i < |ds| && Excludes(ops, ds, i, info)
    requires IsGrounded(ops, ds, i, conflicts) && IsClear(ops, ds, i, conflicts)
    requires IsClaimed(ds, i, conflicts, claimed)
    ensures var conflicts' := conflicts[ds[i].FullName() := info];
      && IsGrounded(ops, ds, i + 1, conflicts') && IsClear(ops, ds, i + 1, conflicts')
      && IsClaimed(ds, i + 1, conflicts', claimed)
  {
    var conflicts' := conflicts[ds[i].FullName() := info];
    GroundAdded(ops, ds, i, conflicts, info);
    ClearGrows(ops, ds, i, conflicts, conflicts');
    ClaimedGrows(ds, i, conflicts, conflicts', claimed);
  }

  function ClaimedBy(claimed: map<string, string>, d: AppConfig): map<string, string> {
    if d.kustomizePath != "" then claimed[d.kustomizePath := Label(d)] else claimed
  }

  lemma ClaimAdded(ds: Apps, i: nat, conflicts: Conflicts, claimed: map<string, string>)
    requires i < |ds| && IsClaimed(ds, i, conflicts, claimed)
    ensures IsClaimed(ds, i + 1, conflicts, ClaimedBy(claimed, ds[i]))
  {
    assert EarlierHolds(ds, i + 1, ds[i].kustomizePath, Label(ds[i]));
    forall path | path in claimed ensures EarlierHolds(ds, i + 1, path, claimed[path]) {
      ClaimLasts(ds, i, path, claimed[path]);
    }
    hide EarlierHolds, Label, IsKept;
  }

  lemma ClearAdded(ops: Apps, ds: Apps, i: nat, conflicts: Conflicts, claimed: map<string, string>)
    requires i < |ds| && ClearOfOperator(ops, ds[i])
    requires IsClear(ops, ds, i, conflicts) && IsClaimed(ds, i, conflicts, claimed)
    requires ds[i].kustomizePath != "" ==> ds[i].kustomizePath !in claimed
    ensures IsClear(ops, ds, i + 1, conflicts)
  {
    hide ClearOfOperator, IsKept, EarlierHolds;
  }

  lemma Claim(ops: Apps, ds: Apps, i: nat, conflicts: Conflicts, claimed: map<string, string>)
    requires i < |ds| && ClearOfOperator(ops, ds[i])
    requires IsGrounded(ops, ds, i, conflicts) && IsClear(ops, ds, i, conflicts)
    requires IsClaimed(ds, i, conflicts, claimed)
    requires ds[i].kustomizePath != "" ==> ds[i].kustomizePath !in claimed
    ensures IsGrounded(ops, ds, i + 1, conflicts) && IsClear(ops, ds, i + 1, conflicts)
    ensures IsClaimed(ds, i + 1, conflicts, ClaimedBy(claimed, ds[i]))
  {
    GroundedGrows(ops, ds, i, conflicts);
    ClearAdded(ops, ds, i, conflicts, claimed);
    ClaimAdded(ds, i, conflicts, claimed);
  }

  // --- filter and merge ---

  // The entries of the apps that are not excluded, in order.
  function Kept(ds: Apps, conflicts: Conflicts): Apps {
    if ds == [] then []
    else
      var n := |ds| - 1;
      Kept(ds[..n], conflicts) + if IsKept(ds, n, conflicts) then [ds[n]] else []
  }

  method Filter(ds: Apps, conflicts: Conflicts) returns (filtered: Apps)
    ensures filtered == Kept(ds, conflicts)
  {
    filtered := [];
    for i := 0 to |ds|
      invariant filtered == Kept(ds[..i], conflicts)
    {
      assert ds[..i + 1][..i] == ds[..i];
      if ds[i].FullName() !in conflicts {
        filtered := filtered + [ds[i]];
      }
    }
    assert ds[..|ds|] == ds;
  }

  lemma {:induction false} KeptIsFromKept(ds: Apps, conflicts: Conflicts, d: AppConfig)
    ensures d in Kept(ds, conflicts) <==> exists i :: 0 <= i < |ds| && ds[i] == d && IsKept(ds, i, conflicts)
    decreases |ds|
  {
    if ds != [] {
      var n := |ds| - 1;
      KeptIsFromKept(ds[..n], conflicts, d);
      if i :| 0 <= i < n && ds[..n][i] == d && IsKept(ds[..n], i, conflicts) {
        assert ds[i] == d && IsKept(ds, i, conflicts);
      }
      if i :| 0 <= i < n && ds[i] == d && IsKept(ds, i, conflicts) {
        assert ds[..n][i] == d && IsKept(ds[..n], i, conflicts);
      }
    }
  }

  // a is the first entry of its name.
  ghost predicate IsFirstNamed(apps: Apps, name: string, a: AppConfig) {
    exists i :: 0 <= i < |apps| && apps[i] == a && a.FullName() == name && !HasName(apps[..i], name)
  }

  // The operator's apps as they are, then the first discovered entry of every other name.
  ghost predicate IsMerged(ops: Apps, ds: Apps, merged: Apps) {
    && ops <= merged
    && (forall k :: |ops| <= k < |merged| ==>
          && IsFirstNamed(ds, merged[k].FullName(), merged[k])
          && !HasName(merged[..k], merged[k].FullName()))
    && (forall i :: 0 <= i < |ds| ==> HasName(merged, ds[i].FullName()))
  }

  lemma AddedNamesDiffer(ds: Apps, merged: Apps)
    requires IsMerged([], ds, merged)
    ensures |merged| <= 1 || merged[0].FullName() != merged[1].FullName()
  {
    if |merged| > 1 {
      assert merged[..1][0] == merged[0];
    }
  }

  // Of two new apps with one full name only the first is registered.
  lemma SecondIsDropped(d: AppConfig, e: AppConfig, merged: Apps)
    requires d.FullName() == e.FullName() && IsMerged([], [d, e], merged)
    ensures merged == [d]
  {
    assert [d, e][0] == d && [d, e][1] == e;
    assert HasName(merged, [d, e][0].FullName());
    forall k: nat | k < |merged| ensures merged[k].FullName() == d.FullName() && merged[k] == d {
      assert IsFirstNamed([d, e], merged[k].FullName(), merged[k]);
    }
    AddedNamesDiffer([d, e], merged);
  }

  method MergeApps(ops: Apps, ds: Apps) returns (merged: Apps)
    ensures IsMerged(ops, ds, merged)
  {
    var existing: set<string> := {};
    for i := 0 to |ops|
      invariant forall name :: name in existing <==> HasName(ops[..i], name)
    {
      NameSetGrows(ops, i, existing);
      existing := existing + {ops[i].FullName()};
    }
    assert ops[..|ops|] == ops;
    merged := ops;
    for i := 0 to |ds|
      invariant forall name :: name in existing <==> HasName(merged, name)
      invariant IsMerged(ops, ds[..i], merged)
    {
      var d := ds[i];
      if d.FullName() in existing {
        MergeSkips(ops, ds, i, merged);
      } else {
        MergeAdds(ops, ds, i, merged);
        assert merged == (merged + [d])[..|merged|];
        NameSetGrows(merged + [d], |merged|, existing);
        existing := existing + {d.FullName()};
        merged := merged + [d];
        assert merged[..|merged|] == merged;
      }
    }
    assert ds[..|ds|] == ds;
  }

  lemma FirstNamedLasts(ds: Apps, i: nat, name: string, a: AppConfig)
    requires i < |ds| && IsFirstNamed(ds[..i], name, a)
    ensures IsFirstNamed(ds[..i + 1], name, a)
  {
    var k :| 0 <= k < i && ds[..i][k] == a && a.FullName() == name && !HasName(ds[..i][..k], name);
    assert ds[..i + 1][k] == a;
    assert ds[..i][..k] == ds[..i + 1][..k];
  }

  lemma NameLasts(apps: Apps, d: AppConfig, name: string)
    requires HasName(apps, name)
    ensures HasName(apps + [d], name)
  {
    var k :| 0 <= k < |apps| && apps[k].FullName() == name;
    assert (apps + [d])[k].FullName() == name;
  }

  lemma MergeSkips(ops: Apps, ds: Apps, i: nat, merged: Apps)
    requires i < |ds| && IsMerged(ops, ds[..i], merged) && HasName(merged, ds[i].FullName())
    ensures IsMerged(ops, ds[..i + 1], merged)
  {
    hide HasName;
    forall k | |ops| <= k < |merged| ensures IsFirstNamed(ds[..i + 1], merged[k].FullName(), merged[k]) {
      FirstNamedLasts(ds, i, merged[k].FullName(), merged[k]);
    }
    var prefix := ds[..i + 1];
    forall k | 0 <= k < |prefix| ensures HasName(merged, prefix[k].FullName()) {
      if k < i {
        assert prefix[k] == ds[..i][k];
      }
    }
  }

  lemma MergeAdds(ops: Apps, ds: Apps, i: nat, merged: Apps)
    requires i < |ds| && IsMerged(ops, ds[..i], merged) && !HasName(merged, ds[i].FullName())
    ensures IsMerged(ops, ds[..i + 1], merged + [ds[i]])
  {
    var d := ds[i];
    var after := merged + [d];
    assert after[|merged|].FullName() == d.FullName();
    assert HasName(after, d.FullName());
    NotMergedBefore(ops, ds, i, merged);
    forall k | |ops| <= k < |after|
      ensures IsFirstNamed(ds[..i + 1], after[k].FullName(), after[k]) && !HasName(after[..k], after[k].FullName())
    {
      if k < |merged| {
        FirstNamedLasts(ds, i, merged[k].FullName(), merged[k]);
        assert after[..k] == merged[..k];
      } else {
        assert ds[..i + 1][i] == d && ds[..i + 1][..i] == ds[..i];
        assert after[..k] == merged;
      }
    }
    var prefix := ds[..i + 1];
    forall k | 0 <= k < |prefix| ensures HasName(after, prefix[k].FullName()) {
      if k < i {
        assert prefix[k] == ds[..i][k];
        NameLasts(merged, d, prefix[k].FullName());
      }
    }
  }

  lemma NotMergedBefore(ops: Apps, ds: Apps, i: nat, merged: Apps)
    requires i < |ds| && IsMerged(ops, ds[..i], merged) && !HasName(merged, ds[i].FullName())
    ensures !HasName(ds[..i], ds[i].FullName())
  {
  }

  lemma NameCameBefore(apps: Apps, i: nat, name: string)
    requires i < |apps| && HasName(apps[..i + 1], name) && apps[i].FullName() != name
    ensures HasName(apps[..i], name)
  {
    var k :| 0 <= k < i + 1 && apps[..i + 1][k].FullName() == name;
    assert apps[..i][k].FullName() == name;
  }

  method AppByName(apps: Apps, name: string) returns (r: Option<AppConfig>)
    ensures r.None? <==> !HasName(apps, name)
    ensures r.Some? ==> IsFirstNamed(apps, name, r.value)
  {
    for i := 0 to |apps|
      invariant !HasName(apps[..i], name)
    {
      if apps[i].FullName() == name {
        return Some(apps[i]);
      }
      if HasName(apps[..i + 1], name) {
        NameCameBefore(apps, i, name);
      }
    }
    assert apps[..|apps|] == apps;
    return None;
  }

  // --- what is registered in the end ---

  // A scan and a load over the same operator configuration.
  ghost predicate IsRegistration(ops: Apps, ds: Apps, conflicts: Conflicts, merged: Apps) {
    && IsGrounded(ops, ds, |ds|, conflicts)
    && IsClear(ops, ds, |ds|, conflicts)
    && IsMerged(ops, Kept(ds, conflicts), merged)
  }

  // An app registered from discovery comes from a kept entry.
  lemma AddedIsKept(ops: Apps, ds: Apps, conflicts: Conflicts, merged: Apps, k: nat) returns (i: nat)
    requires IsRegistration(ops, ds, conflicts, merged) && |ops| <= k < |merged|
    ensures i < |ds| && ds[i] == merged[k] && IsKept(ds, i, conflicts)
    ensures ClearOfOperator(ops, merged[k])
  {
    var kept := Kept(ds, conflicts);
    var m :| 0 <= m < |kept| && kept[m] == merged[k];
    KeptIsFromKept(ds, conflicts, merged[k]);
    i :| 0 <= i < |ds| && ds[i] == merged[k] && IsKept(ds, i, conflicts);
  }

  // In whatever order entries arrive: the operator's apps stay as they are, added names are
  // new, no added app has a name or a path of the operator's, and no two apps share a path.
  lemma RegistrationIsUnique(ops: Apps, ds: Apps, conflicts: Conflicts, merged: Apps)
    requires PathsAreUnique(ops) && IsRegistration(ops, ds, conflicts, merged)
    ensures ops <= merged
    ensures forall k :: |ops| <= k < |merged| ==> ClearOfOperator(ops, merged[k])
    ensures forall j, k :: 0 <= j < k < |merged| && |ops| <= k ==> merged[j].FullName() != merged[k].FullName()
    ensures PathsAreUnique(merged)
  {
    forall k | |ops| <= k < |merged| ensures ClearOfOperator(ops, merged[k]) {
      var _ := AddedIsKept(ops, ds, conflicts, merged, k);
    }
    forall j, k | 0 <= j < k < |merged| && |ops| <= k ensures merged[j].FullName() != merged[k].FullName() {
      assert merged[..k][j] == merged[j];
    }
    forall j, k | 0 <= j < k < |merged| && merged[k].kustomizePath != ""
      ensures merged[j].kustomizePath != merged[k].kustomizePath
    {
      if k < |ops| {
        assert merged[j] == ops[j] && merged[k] == ops[k];
      } else {
        AddedHasOwnPath(ops, ds, conflicts, merged, j, k);
      }
    }
  }

  lemma AddedHasOwnPath(ops: Apps, ds: Apps, conflicts: Conflicts, merged: Apps, j: nat, k: nat)
    requires IsRegistration(ops, ds, conflicts, merged)
    requires j < k < |merged| && |ops| <= k && merged[k].kustomizePath != ""
    requires merged[j].FullName() != merged[k].FullName()
    ensures merged[j].kustomizePath != merged[k].kustomizePath
  {
    var b := AddedIsKept(ops, ds, conflicts, merged, k);
    if j < |ops| {
      assert ops[j] == merged[j];
    } else {
      var a := AddedIsKept(ops, ds, conflicts, merged, j);
      assert a != b;
    }
  }

  // No entry of this app clashes with the operator's configuration or with any other entry.
  // The order of the entries plays no part in it.
  ghost predicate IsUntroubled(ops: Apps, ds: Apps, name: string) {
    forall i :: 0 <= i < |ds| && ds[i].FullName() == name ==>
      && ClearOfOperator(ops, ds[i])
      && forall j :: 0 <= j < |ds| && j != i && ds[i].kustomizePath != "" ==>
           ds[j].kustomizePath != ds[i].kustomizePath
  }

  // Such an app is always registered.
  lemma UntroubledIsRegistered(ops: Apps, ds: Apps, conflicts: Conflicts, merged: Apps, i: nat)
    requires IsRegistration(ops, ds, conflicts, merged)
    requires i < |ds| && IsUntroubled(ops, ds, ds[i].FullName())
    ensures HasName(merged, ds[i].FullName())
  {
    var name := ds[i].FullName();
    if name in conflicts {
      var k :| 0 <= k < |ds| && ds[k].FullName() == name && Excludes(ops, ds, k, conflicts[name]);
      GroundIsTrouble(ops, ds, k, conflicts[name]);
    } else {
      assert IsKept(ds, i, conflicts);
      KeptIsFromKept(ds, conflicts, ds[i]);
      var kept := Kept(ds, conflicts);
      var m :| 0 <= m < |kept| && kept[m] == ds[i];
    }
  }

  lemma GroundIsTrouble(ops: Apps, ds: Apps, k: nat, info: ConflictInfo)
    requires k < |ds| && Excludes(ops, ds, k, info)
    ensures !IsUntroubled(ops, ds, ds[k].FullName())
  {
    if info.reason.PathTaken? && OperatorHolds(ops, ds[k].kustomizePath, info.detail) {
      var o :| o in ops && o.kustomizePath == ds[k].kustomizePath;
      assert HasPath(ops, ds[k].kustomizePath);
    }
  }

  lemma PrefixHasName(apps: Apps, k: nat, i: nat, name: string)
    requires k < i <= |apps| && apps[k].FullName() == name
    ensures HasName(apps[..i], name)
  {
    assert apps[..i][k].FullName() == name;
  }

  // A name that the operator defines always resolves to the operator's entry.
  lemma OperatorWins(ops: Apps, ds: Apps, merged: Apps, name: string, a: AppConfig)
    requires IsMerged(ops, ds, merged) && HasName(ops, name) && IsFirstNamed(merged, name, a)
    ensures IsFirstNamed(ops, name, a)
  {
    var i :| 0 <= i < |merged| && merged[i] == a && a.FullName() == name && !HasName(merged[..i], name);
    var k :| 0 <= k < |ops| && ops[k].FullName() == name;
    assert merged[k] == ops[k];
    if k < i {
      PrefixHasName(merged, k, i, name);
      assert false;
    }
    assert merged[..i] == ops[..i] && merged[i] == ops[i];
  }
}
