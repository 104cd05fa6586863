/** A repository's config file from validation to discovered apps. */
module RepoParse {
  import opened Wrappers
  import opened Strings
  import opened RepoConfig
  import RepoNaming
  import Discovery

  datatype RepoDiscoveryConfig = RepoDiscoveryConfig(
    enforceRepoNaming: bool,
    kustomizePathTemplate: string,
    defaultTagPattern: string,
    exemptRepos: seq<string>)

  // What follows the last slash.
  function RepoNameOf(sourceRepo: string): (name: string)
    ensures '/' !in name
  {
    if '/' in sourceRepo then RepoNameOf(sourceRepo[1..]) else sourceRepo
  }

  function OptsFor(rd: RepoDiscoveryConfig, sourceRepo: string, compiles: string -> bool): ValidateOpts {
    ValidateOpts(
      rd.enforceRepoNaming,
      RepoNameOf(sourceRepo),
      sourceRepo in rd.exemptRepos,
      if rd.enforceRepoNaming
      then Some((repo, env) => RepoNaming.KustomizePathForRepo(rd.kustomizePathTemplate, repo, env))
      else None,
      rd.defaultTagPattern,
      compiles)
  }

  // Outside enforced naming only the default tag pattern is applied.
  function TagOnlyOpts(rd: RepoDiscoveryConfig, compiles: string -> bool): ValidateOpts {
    ValidateOpts(false, "", false, None, rd.defaultTagPattern, compiles)
  }

  // The entries after defaulting, valid or not.
  function Defaulted(apps: seq<AppEntry>, rd: RepoDiscoveryConfig, sourceRepo: string,
                     compiles: string -> bool): (r: seq<AppEntry>)
    ensures |r| == |apps|
  {
    var o := OptsFor(rd, sourceRepo, compiles);
    if o.AllowDerived() then AllWithDefaults(apps, o)
    else if rd.defaultTagPattern != "" then AllWithDefaults(apps, TagOnlyOpts(rd, compiles))
    else apps
  }

  function Discovered(e: AppEntry, sourceRepo: string): Discovery.AppConfig {
    Discovery.AppConfig(e.app, e.environment, e.kustomizePath, e.ecrRepo, e.tagPattern, e.autoDeploy, sourceRepo)
  }

  // apps is what the file lists; the API version has already been accepted.
  method ParseRepoConfig(apps: array<AppEntry>, sourceRepo: string, rd: RepoDiscoveryConfig, compiles: string -> bool)
    returns (valid: Discovery.Apps, verrs: seq<ValidationError>, ghost indices: seq<nat>)
    modifies apps
    ensures var cs := old(ChecksOf(apps[..], OptsFor(rd, sourceRepo, compiles)));
      && Reports(cs, apps.Length, verrs)
      && IsValidList(cs, apps.Length, indices)
    ensures apps[..] == Defaulted(old(apps[..]), rd, sourceRepo, compiles)
    ensures |valid| == |indices|
    ensures forall k :: 0 <= k < |valid| ==>
      indices[k] < apps.Length && valid[k] == Discovered(apps[..][indices[k]], sourceRepo)
  {
    var o := OptsFor(rd, sourceRepo, compiles);
    verrs := ValidateWithOpts(apps[..], o);
    ghost var cs := ChecksOf(apps[..], o);
    if o.AllowDerived() {
      ApplyDefaults(apps, o);
    } else if rd.defaultTagPattern != "" {
      ApplyDefaults(apps, TagOnlyOpts(rd, compiles));
    }
    var validIndices := ValidEntries(apps.Length, verrs);
    ComplementIsValid(cs, verrs, validIndices);
    indices := validIndices;
    hide OptsFor, Reports, IsValidEntry, Defaulted;
    valid := [];
    for k := 0 to |validIndices|
      invariant |valid| == k
      invariant forall m :: 0 <= m < k ==>
        validIndices[m] < apps.Length && valid[m] == Discovered(apps[validIndices[m]], sourceRepo)
    {
      valid := valid + [Discovered(apps[validIndices[k]], sourceRepo)];
    }
  }

  // A repository's name is all that follows its last slash.
  lemma {:induction false} RepoNameFollowsSlash(sourceRepo: string)
    ensures var name := RepoNameOf(sourceRepo);
      && '/' !in name && |name| <= |sourceRepo| && sourceRepo[|sourceRepo| - |name|..] == name
      && (name == sourceRepo || sourceRepo[|sourceRepo| - |name| - 1] == '/')
  {
    if '/' in sourceRepo {
      var rest := sourceRepo[1..];
      RepoNameFollowsSlash(rest);
      assert RepoNameOf(rest) == rest ==> sourceRepo[0] == '/';
    }
  }

  // The app that a valid entry becomes: its own fields, the default pattern where it names
  // none, and under enforced naming the derived name and path where it leaves them out.
  lemma ValidEntryIsDiscoveredAs(e: AppEntry, rd: RepoDiscoveryConfig, sourceRepo: string, compiles: string -> bool)
    requires Check(e, OptsFor(rd, sourceRepo, compiles)).Ok?
    ensures var d := Discovered(Defaulted([e], rd, sourceRepo, compiles)[0], sourceRepo);
      var repoName := RepoNameOf(sourceRepo);
      var enforced := rd.enforceRepoNaming && sourceRepo !in rd.exemptRepos;
      d == Discovery.AppConfig(
        if enforced && TrimSpace(e.app) == "" then repoName else e.app,
        e.environment,
        if enforced && TrimSpace(e.kustomizePath) == ""
        then RepoNaming.KustomizePathForRepo(rd.kustomizePathTemplate, repoName, TrimSpace(e.environment))
        else e.kustomizePath,
        e.ecrRepo,
        if e.tagPattern == "" then rd.defaultTagPattern else e.tagPattern,
        e.autoDeploy,
        sourceRepo)
  {
    hide TrimSpace, RepoNameOf, RepoNaming.KustomizePathForRepo;
  }

  // Under enforced naming with the default template the hypothesis of the stability result
  // comes down to the repository's name carrying no blanks.
  lemma EnforcedNamingDerivesTrimmed(rd: RepoDiscoveryConfig, sourceRepo: string, compiles: string -> bool)
    requires rd.enforceRepoNaming && rd.kustomizePathTemplate == ""
    requires IsTrimmed(RepoNameOf(sourceRepo))
    ensures DerivesTrimmed(OptsFor(rd, sourceRepo, compiles))
  {
    var o := OptsFor(rd, sourceRepo, compiles);
    forall env | IsTrimmed(env) ensures IsTrimmed(o.DerivedKustomizePath(env)) {
      RepoNaming.DefaultPathIsTrimmed(RepoNameOf(sourceRepo), env);
    }
  }

  // The app that an entry of an enforced repository becomes.
  function EnforcedApp(e: AppEntry, rd: RepoDiscoveryConfig, sourceRepo: string,
                       compiles: string -> bool): Discovery.AppConfig
  {
    Discovered(WithDefaults(e, OptsFor(rd, sourceRepo, compiles)), sourceRepo)
  }

  // Valid entries of two repositories under enforced naming never target the same file.
  lemma EnforcedReposNeverCollide(rd: RepoDiscoveryConfig, compiles: string -> bool,
                                  repo1: string, e1: AppEntry, repo2: string, e2: AppEntry)
    requires rd.enforceRepoNaming && rd.kustomizePathTemplate == ""
    requires repo1 !in rd.exemptRepos && repo2 !in rd.exemptRepos
    requires RepoNameOf(repo1) != RepoNameOf(repo2)
    requires IsTrimmed(RepoNameOf(repo1)) && IsTrimmed(RepoNameOf(repo2))
    requires Check(e1, OptsFor(rd, repo1, compiles)).Ok? && Check(e2, OptsFor(rd, repo2, compiles)).Ok?
    ensures EnforcedApp(e1, rd, repo1, compiles).kustomizePath != EnforcedApp(e2, rd, repo2, compiles).kustomizePath
  {
    EnforcedTarget(rd, compiles, repo1, e1);
    EnforcedTarget(rd, compiles, repo2, e2);
    RepoNaming.RepositoriesNeverCollide(RepoNameOf(repo1), TrimSpace(e1.environment),
                                        RepoNameOf(repo2), TrimSpace(e2.environment));
  }

  lemma EnforcedTarget(rd: RepoDiscoveryConfig, compiles: string -> bool, repo: string, e: AppEntry)
    requires rd.enforceRepoNaming && rd.kustomizePathTemplate == "" && repo !in rd.exemptRepos
    requires IsTrimmed(RepoNameOf(repo)) && Check(e, OptsFor(rd, repo, compiles)).Ok?
    ensures TrimSpace(EnforcedApp(e, rd, repo, compiles).kustomizePath)
         == RepoNaming.KustomizePathForRepo("", RepoNameOf(repo), TrimSpace(e.environment))
  {
    var o := OptsFor(rd, repo, compiles);
    EnforcedNamingDerivesTrimmed(rd, repo, compiles);
    DefaultsSpellOutTarget(e, o);
    hide TrimSpace, RepoNaming.KustomizePathForRepo;
  }
}
