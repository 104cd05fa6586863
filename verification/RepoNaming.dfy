/** Paths derived from repository names, and why repositories cannot collide on them. */
module RepoNaming {
  import opened Strings

  const DEFAULT_TEMPLATE := "{env}/{repo}/kustomization.yaml"
  const FILE := "/kustomization.yaml"

  // RepoDiscoveryConfig.KustomizePathForRepo
  function KustomizePathForRepo(tmpl: string, repoName: string, env: string): string {
    var t := if tmpl == "" then DEFAULT_TEMPLATE else tmpl;
    ReplaceAll(ReplaceAll(t, "{env}", env), "{repo}", repoName)
  }

  lemma PrefixOfShort(s: string, what: string, rest: string)
    requires s != "" && s[|s| - 1] !in what
    ensures |s| < |what| ==> !(what <= s + (what + rest))
    ensures what <= s + (what + rest) ==> what <= s && |what| < |s|
  {
    var text := s + (what + rest);
    assert text[|s| - 1] == s[|s| - 1];
    if what <= text {
      assert forall i :: 0 <= i < |what| ==> text[i] == what[i];
      assert |what| < |s|;
      assert text[..|what|] == s[..|what|];
    }
  }

  // An occurrence of a pattern is replaced whatever stands before it, when that ends with
  // a character that is not in the pattern; the text before it keeps that last character.
  lemma {:induction false} ReplacedAfter(s: string, what: string, rest: string, with: string) returns (pre: string)
    requires what != "" && s != "" && s[|s| - 1] !in what
    ensures ReplaceAll(s + (what + rest), what, with) == pre + (with + ReplaceAll(rest, what, with))
    ensures pre != "" && pre[|pre| - 1] == s[|s| - 1]
    decreases |s|
  {
    var text := s + (what + rest);
    var after := with + ReplaceAll(rest, what, with);
    PrefixOfShort(s, what, rest);
    if what <= text {
      assert text[|what|..] == s[|what|..] + (what + rest);
      var p := ReplacedAfter(s[|what|..], what, rest, with);
      pre := with + p;
      assert pre + after == with + (p + after);
    } else if |s| == 1 {
      assert text[1..] == what + rest;
      assert (what + rest)[|what|..] == rest;
      pre := s;
    } else {
      assert text[1..] == s[1..] + (what + rest);
      var p := ReplacedAfter(s[1..], what, rest, with);
      pre := [s[0]] + p;
      assert pre + after == [s[0]] + (p + after);
    }
  }

  predicate HasPair(s: string, c: char, d: char) {
    exists i :: 0 <= i < |s| - 1 && s[i] == c && s[i + 1] == d
  }

  lemma {:induction false} NothingReplaced(s: string, what: string, with: string)
    requires |what| >= 2 && !HasPair(s, what[0], what[1])
    ensures ReplaceAll(s, what, with) == s
    decreases |s|
  {
    if |s| >= |what| {
      assert s[0] != what[0] || s[0 + 1] != what[1];
      forall i | 0 <= i < |s[1..]| - 1 ensures !(s[1..][i] == what[0] && s[1..][i + 1] == what[1]) {
        assert s[1..][i] == s[i + 1] && s[1..][i + 1] == s[i + 1 + 1];
      }
      NothingReplaced(s[1..], what, with);
    }
  }

  const ENV := "{env}"
  const REPO := "{repo}"

  lemma FirstReplaced(what: string, tail: string, with: string)
    requires |what| >= 2 && !HasPair(tail, what[0], what[1])
    ensures ReplaceAll(what + tail, what, with) == with + tail
  {
    assert (what + tail)[|what|..] == tail;
    NothingReplaced(tail, what, with);
  }

  const TAIL := "/" + (REPO + FILE)

  lemma TemplateParts()
    ensures DEFAULT_TEMPLATE == ENV + TAIL && !HasPair(TAIL, ENV[0], ENV[1])
  {
  }

  lemma TailParts(env: string)
    ensures env + TAIL == (env + "/") + (REPO + FILE)
  {
  }

  lemma DefaultPath(repoName: string, env: string)
    ensures KustomizePathForRepo("", repoName, env) == ReplaceAll((env + "/") + (REPO + FILE), REPO, repoName)
  {
    hide ReplaceAll;
    TemplateParts();
    FirstReplaced(ENV, TAIL, env);
    TailParts(env);
  }

  lemma ReplacedBetween(dir: string, what: string, with: string, tail: string) returns (pre: string)
    requires |what| >= 2 && !HasPair(tail, what[0], what[1])
    requires dir != "" && dir[|dir| - 1] == '/' && '/' !in what
    ensures ReplaceAll(dir + (what + tail), what, with) == pre + (with + tail)
    ensures pre != "" && pre[|pre| - 1] == '/'
  {
    NothingReplaced(tail, what, with);
    pre := ReplacedAfter(dir, what, tail, with);
  }

  // With the default template the path ends with the repository name and the file name.
  lemma DefaultPathShape(repoName: string, env: string) returns (pre: string)
    ensures KustomizePathForRepo("", repoName, env) == pre + (repoName + FILE)
    ensures pre != "" && pre[|pre| - 1] == '/'
  {
    DefaultPath(repoName, env);
    pre := ReplacedBetween(env + "/", REPO, repoName, FILE);
  }

  lemma {:induction false} PlainHeadStays(head: string, rest: string, what: string, with: string)
    requires what != "" && what[0] !in head && |rest| >= |what|
    ensures ReplaceAll(head + rest, what, with) == head + ReplaceAll(rest, what, with)
    decreases |head|
  {
    if head == "" {
      assert head + rest == rest;
    } else {
      assert (head + rest)[0] == head[0] && (head + rest)[1..] == head[1..] + rest;
      PlainHeadStays(head[1..], rest, what, with);
    }
  }

  // For an environment without braces it is environment, repository and file name.
  lemma DefaultPathSpelledOut(repoName: string, env: string)
    requires '{' !in env
    ensures KustomizePathForRepo("", repoName, env) == env + "/" + repoName + "/kustomization.yaml"
  {
    DefaultPath(repoName, env);
    PlainHeadStays(env + "/", REPO + FILE, REPO, repoName);
    FirstReplaced(REPO, FILE, repoName);
    assert (env + "/") + (repoName + FILE) == env + "/" + repoName + FILE;
  }

  lemma LastComponent(p1: string, r1: string, p2: string, r2: string, tail: string)
    requires '/' !in r2 && p1 != "" && p1[|p1| - 1] == '/'
    requires p1 + (r1 + tail) == p2 + (r2 + tail)
    ensures |p1| <= |p2|
  {
    var text := p1 + (r1 + tail);
    assert text[|p1| - 1] == '/';
    assert text[|p2|..|p2| + |r2|] == r2;
    assert forall i :: |p2| <= i < |p2| + |r2| ==> text[i] == text[|p2|..|p2| + |r2|][i - |p2|];
  }

  lemma MiddleIsEqual(p1: string, r1: string, p2: string, r2: string, tail: string)
    requires |p1| == |p2| && p1 + (r1 + tail) == p2 + (r2 + tail)
    ensures r1 == r2
  {
    var text := p1 + (r1 + tail);
    assert r1 == text[|p1|..|text| - |tail|];
    assert r2 == text[|p2|..|text| - |tail|];
  }

  // Two repositories never derive the same path, whatever the environments are.
  lemma RepositoriesNeverCollide(repo1: string, env1: string, repo2: string, env2: string)
    requires '/' !in repo1 && '/' !in repo2 && repo1 != repo2
    ensures KustomizePathForRepo("", repo1, env1) != KustomizePathForRepo("", repo2, env2)
  {
    var p1 := DefaultPathShape(repo1, env1);
    var p2 := DefaultPathShape(repo2, env2);
    if p1 + (repo1 + FILE) == p2 + (repo2 + FILE) {
      LastComponent(p1, repo1, p2, repo2, FILE);
      LastComponent(p2, repo2, p1, repo1, FILE);
      MiddleIsEqual(p1, repo1, p2, repo2, FILE);
    }
  }

  lemma HeadOfReplaced(s: string, what: string, with: string)
    requires s != "" && what != "" && with != ""
    ensures var r := ReplaceAll(s, what, with); r != "" && (r[0] == s[0] || r[0] == with[0])
  {
  }

  // A derived path carries no blanks around it when its parts carry none.
  lemma DefaultPathIsTrimmed(repoName: string, env: string)
    requires IsTrimmed(repoName) && IsTrimmed(env)
    ensures IsTrimmed(KustomizePathForRepo("", repoName, env))
  {
    DefaultPath(repoName, env);
    HeadOfReplaced((env + "/") + (REPO + FILE), REPO, repoName);
    var pre := DefaultPathShape(repoName, env);
    EndsAsTail(pre + repoName, FILE);
    assert pre + (repoName + FILE) == (pre + repoName) + FILE;
  }

  lemma EndsAsTail(s: string, tail: string)
    requires IsTrimmed(tail)
    ensures var t := s + tail; !IsSpace(t[|t| - 1])
  {
    assert (s + tail)[|s + tail| - 1] == tail[|tail| - 1];
  }
}
