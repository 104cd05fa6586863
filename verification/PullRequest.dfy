/**
 Deploy pull requests: what CreateDeployPR and RebaseDeployBranch decide to write, the body
 they print, and the metadata read back from a body.
 */
module PullRequest {
  import opened Wrappers
  import opened MetaJson
  import Sanitize
  import TagRewrite

  datatype Params = Params(
    app: string,
    environment: string,
    tag: string,
    requester: string,
    reason: string,
    requesterSlackID: string)

  // --- deciding what to commit ---

  datatype PRError = UnsafeTag | BranchMissing | FileMissing | TagKeyNotFound | NoChange

  function BranchOf(p: Params): string {
    "deploy/" + (p.environment + "-" + p.app + "-" + Sanitize.BranchNameOf(p.tag))
  }

  // Clean names of environment and app make a clean branch name, whatever the tag: everything
  // after the slash is one clean component.
  lemma BranchIsClean(p: Params)
    requires Sanitize.IsCleanBranch(p.environment) && Sanitize.IsCleanBranch(p.app)
    ensures |BranchOf(p)| > 7 && BranchOf(p)[..7] == "deploy/" && Sanitize.IsCleanBranch(BranchOf(p)[7..])
    ensures BranchOf(p)[7..] == p.environment + "-" + p.app + "-" + Sanitize.BranchNameOf(p.tag)
  {
    var name := p.environment + "-" + p.app + "-" + Sanitize.BranchNameOf(p.tag);
    Sanitize.BranchNameIsClean(p.tag);
    Sanitize.JoinIsClean(p.environment, p.app);
    Sanitize.JoinIsClean(p.environment + "-" + p.app, Sanitize.BranchNameOf(p.tag));
    SplitAfter("deploy/", name);
  }

  lemma SplitAfter(head: string, name: string)
    ensures (head + name)[..|head|] == head && (head + name)[|head|..] == name
  {
  }

  // The new file contents for a deploy of tag, given the file on the base branch.
  function Updated(file: Option<string>, tag: string): Result<string, PRError>
    requires '$' !in tag
  {
    match file
    case None => Err(FileMissing)
    case Some(content) =>
      match TagRewrite.UpdateNewTag(content, tag)
      case Err(_) => Err(TagKeyNotFound)
      case Ok(updated) => if updated == content then Err(NoChange) else Ok(updated)
  }

  // The file contents that CreateDeployPR commits, given the file on the base branch.
  function PlanDeploy(p: Params, file: Option<string>): Result<string, PRError> {
    if !Sanitize.TagIsSafe(p.tag) then Err(UnsafeTag)
    else
      SafeTagIsWord(p.tag);
      Updated(file, p.tag)
  }

  // The file contents that RebaseDeployBranch force-pushes.
  function PlanRebase(p: Params, file: Option<string>, branchExists: bool): Result<string, PRError>
    requires '$' !in p.tag
  {
    if file.None? then Err(FileMissing)
    else if !branchExists then Err(BranchMissing)
    else Updated(file, p.tag)
  }

  lemma SafeTagIsWord(tag: string)
    requires Sanitize.TagIsSafe(tag)
    ensures TagRewrite.IsWord(tag) && '$' !in tag && '<' !in tag
  {
  }

  // "No change" is reported exactly when the file already carries the tag everywhere.
  lemma DeployIsNoChangeIffCurrent(p: Params, content: string)
    ensures PlanDeploy(p, Some(content)) == Err(NoChange) <==>
      && Sanitize.TagIsSafe(p.tag)
      && TagRewrite.Values(content) != []
      && TagRewrite.AllAre(TagRewrite.Values(content), p.tag)
  {
    TagRewrite.ValuesIffMatches(content);
    if Sanitize.TagIsSafe(p.tag) {
      SafeTagIsWord(p.tag);
      TagRewrite.NoChangeIffCurrent(content, p.tag);
    }
  }

  // What is committed, and every way in which nothing is: the values are replaced, and all
  // text outside them is kept.
  lemma DeployIsExact(p: Params, file: Option<string>)
    ensures PlanDeploy(p, file) ==
      if !Sanitize.TagIsSafe(p.tag) then Err(UnsafeTag)
      else if file.None? then Err(FileMissing)
      else if TagRewrite.Values(file.value) == [] then Err(TagKeyNotFound)
      else if TagRewrite.AllAre(TagRewrite.Values(file.value), p.tag) then Err(NoChange)
      else Ok(TagRewrite.Weave(TagRewrite.Pieces(file.value), CopiesFor(file.value, p.tag)))
    ensures PlanDeploy(p, file).Ok? ==> file.Some? && Carries(PlanDeploy(p, file).value, file.value, p.tag)
  {
    if Sanitize.TagIsSafe(p.tag) && file.Some? {
      SafeTagIsWord(p.tag);
      UpdatedIs(file.value, p.tag);
      TagRewrite.NoChangeIffCurrent(file.value, p.tag);
      TagRewrite.RewriteKeepsShape(file.value, p.tag);
    }
  }

  function CopiesFor(content: string, tag: string): seq<string> {
    TagRewrite.Copies(tag, |TagRewrite.Values(content)|)
  }

  // The text is content with the tag for every value.
  ghost predicate Carries(text: string, content: string, tag: string) {
    && TagRewrite.Pieces(text) == TagRewrite.Pieces(content)
    && TagRewrite.Values(text) == CopiesFor(content, tag)
  }

  lemma UpdatedIs(content: string, tag: string)
    requires '$' !in tag
    ensures TagRewrite.ReplaceAll(content, tag)
         == TagRewrite.Weave(TagRewrite.Pieces(content), CopiesFor(content, tag))
    ensures Updated(Some(content), tag) ==
      var text := TagRewrite.Weave(TagRewrite.Pieces(content), CopiesFor(content, tag));
      if TagRewrite.Values(content) == [] then Err(TagKeyNotFound)
      else if text == content then Err(NoChange)
      else Ok(text)
  {
    TagRewrite.ValuesIffMatches(content);
    TagRewrite.WeaveReplaced(content, tag);
  }

  // A rebase commits the same for the tag, and reports a missing file before a missing branch.
  lemma RebaseIsExact(p: Params, file: Option<string>, branchExists: bool)
    requires '$' !in p.tag
    ensures PlanRebase(p, file, branchExists) ==
      if file.None? then Err(FileMissing)
      else if !branchExists then Err(BranchMissing)
      else
        var text := TagRewrite.Weave(TagRewrite.Pieces(file.value), CopiesFor(file.value, p.tag));
        if TagRewrite.Values(file.value) == [] then Err(TagKeyNotFound)
        else if text == file.value then Err(NoChange)
        else Ok(text)
    ensures PlanRebase(p, file, branchExists).Ok? && TagRewrite.IsWord(p.tag) ==>
      file.Some? && Carries(PlanRebase(p, file, branchExists).value, file.value, p.tag)
  {
    if file.Some? {
      UpdatedIs(file.value, p.tag);
      if TagRewrite.IsWord(p.tag) {
        TagRewrite.RewriteKeepsShape(file.value, p.tag);
      }
    }
  }

  // Once the content of a deploy has landed on the base branch, asking again for the same
  // tag and rebasing a branch for it both report "no change".
  lemma LandedDeployIsNoChange(p: Params, again: Params, file: Option<string>)
    requires PlanDeploy(p, file).Ok? && again.tag == p.tag
    ensures '$' !in p.tag
    ensures PlanDeploy(again, Some(PlanDeploy(p, file).value)) == Err(NoChange)
    ensures PlanRebase(again, Some(PlanDeploy(p, file).value), true) == Err(NoChange)
  {
    SafeTagIsWord(p.tag);
    TagRewrite.LastWriteWins(file.value, p.tag, p.tag);
  }

  // A request for another tag after that is the same as if the first had never landed.
  lemma LastDeployWins(p: Params, q: Params, file: Option<string>)
    requires PlanDeploy(p, file).Ok? && PlanDeploy(q, file).Ok?
    ensures var landed := PlanDeploy(p, file).value; var wanted := PlanDeploy(q, file).value;
      PlanDeploy(q, Some(landed)) == if landed == wanted then Err(NoChange) else Ok(wanted)
  {
    SafeTagIsWord(p.tag);
    SafeTagIsWord(q.tag);
    TagRewrite.LastWriteWins(file.value, p.tag, q.tag);
  }

  // --- the body ---

  const ECR_REQUESTER := "ECR"

  function FormatRequester(name: string): string {
    if name == ECR_REQUESTER then "**deploy-bot** (ECR push auto-deploy)" else "@" + name
  }

  function MetaOf(p: Params): PRMeta {
    PRMeta(p.requesterSlackID, p.app, p.environment, p.tag)
  }

  const OPEN := "<!-- deploy-bot-meta: {"
  const CLOSE := "} -->"

  // Text that ends with a line break.
  predicate EndsLine(s: string) {
    s != "" && s[|s| - 1] == '\n'
  }

  function Line(name: string, value: string, end: string): (r: string)
    requires EndsLine(end)
    ensures EndsLine(r)
  {
    name + (value + end)
  }

  function EnvironmentLine(p: Params): string { Line("**Environment:** ", p.environment, "\n") }

  function AppLine(p: Params): string { Line("**App:** ", p.app, "\n") }

  function TagLine(p: Params): string { Line("**Tag:** `", p.tag, "`\n") }

  function RequesterLine(p: Params): string {
    Line("**Requester:** ", FormatRequester(p.requester), "\n")
  }

  function ReasonLines(p: Params): string {
    Line("**Reason:** ", Sanitize.GitHubMarkdown(p.reason), "\n\n")
  }

  // What is visible of the body, up to the metadata comment.
  function Visible(p: Params): string {
    EnvironmentLine(p) + (AppLine(p) + (TagLine(p) + (RequesterLine(p) + ReasonLines(p))))
  }

  function Comment(m: PRMeta): string {
    OPEN + (PrintFields(FieldsOf(m)) + CLOSE)
  }

  function Body(p: Params): string {
    Visible(p) + Comment(MetaOf(p))
  }

  // The body shows who asked for which tag, where and why, and then carries the metadata.
  lemma BodySpellsOut(p: Params)
    ensures Body(p) == EnvironmentLine(p) + (AppLine(p) + (TagLine(p) + (RequesterLine(p) + ReasonLines(p))))
      + Comment(PRMeta(p.requesterSlackID, p.app, p.environment, p.tag))
    ensures EnvironmentLine(p) == "**Environment:** " + p.environment + "\n"
    ensures AppLine(p) == "**App:** " + p.app + "\n"
    ensures TagLine(p) == "**Tag:** `" + p.tag + "`\n"
    ensures RequesterLine(p) == "**Requester:** "
      + (if p.requester == "ECR" then "**deploy-bot** (ECR push auto-deploy)" else "@" + p.requester) + "\n"
    ensures ReasonLines(p) == "**Reason:** " + Sanitize.GitHubMarkdown(p.reason) + "\n\n"
  {
    hide Comment, Sanitize.GitHubMarkdown;
  }

  // --- reading the metadata back ---

  // Distance to the first CLOSE, with no line break before it: the lazy .*?
  function FindClose(s: string): (k: Option<nat>)
    ensures k.Some? ==> k.value + |CLOSE| <= |s|
  {
    if CLOSE <= s then Some(0)
    else if s == "" || s[0] == '\n' then None
    else match FindClose(s[1..])
      case None => None
      case Some(k) => Some(k + 1)
  }

  // The first match of <!-- deploy-bot-meta: ({.*?}) -->, braces included.
  function FindMeta(s: string): Option<string> {
    if s == "" then None
    else if OPEN <= s && FindClose(s[|OPEN|..]).Some? then
      Some("{" + s[|OPEN|..|OPEN| + FindClose(s[|OPEN|..]).value] + "}")
    else FindMeta(s[1..])
  }

  function ParsePRMeta(body: string): Option<PRMeta> {
    match FindMeta(body)
    case None => None
    case Some(json) => Parse(json)
  }

  // A comment can neither begin nor end across the end of a line.
  lemma {:induction false} CloseStaysInLine(s: string, t: string)
    requires EndsLine(s)
    ensures FindClose(s + t) == FindClose(s)
  {
    var n := |s| - 1;
    assert (s + t)[n] == s[n] == '\n';
    if CLOSE <= s + t {
      assert forall i :: 0 <= i < |CLOSE| ==> (s + t)[i] == CLOSE[i];
      assert (s + t)[..|CLOSE|] == s[..|CLOSE|];
    } else {
      assert CLOSE <= s ==> CLOSE <= s + t;
      if s[0] != '\n' {
        assert (s + t)[1..] == s[1..] + t;
        CloseStaysInLine(s[1..], t);
      }
    }
  }

  lemma OpenStaysInLine(s: string, t: string)
    requires EndsLine(s)
    ensures OPEN <= s + t <==> OPEN <= s
    ensures OPEN <= s ==> |s| > |OPEN|
  {
    assert (s + t)[|s| - 1] == '\n';
    assert OPEN[|OPEN| - 1] == '{';
    if OPEN <= s + t {
      assert forall i :: 0 <= i < |OPEN| ==> (s + t)[i] == OPEN[i];
      assert (s + t)[..|OPEN|] == s[..|OPEN|];
    }
  }

  lemma SliceOfPrefix(s: string, t: string, i: nat, j: nat)
    requires i <= j <= |s|
    ensures (s + t)[i..j] == s[i..j]
  {
  }

  // Text made of whole lines is searched first; only then what follows it.
  lemma {:induction false} LinesAreSearchedFirst(s: string, t: string)
    requires EndsLine(s)
    ensures FindMeta(s + t) == if FindMeta(s).Some? then FindMeta(s) else FindMeta(t)
  {
    OpenStaysInLine(s, t);
    if OPEN <= s {
      var u := s[|OPEN|..];
      assert (s + t)[|OPEN|..] == u + t;
      CloseStaysInLine(u, t);
      if FindClose(u).Some? {
        SliceOfPrefix(s, t, |OPEN|, |OPEN| + FindClose(u).value);
      }
    }
    assert (s + t)[1..] == s[1..] + t;
    if |s| == 1 {
      assert s[1..] + t == t;
    } else {
      LinesAreSearchedFirst(s[1..], t);
    }
  }

  lemma {:induction false} NoAngleNoMeta(s: string)
    requires '<' !in s
    ensures FindMeta(s) == None
  {
    if s != "" {
      assert OPEN[0] == '<';
      NoAngleNoMeta(s[1..]);
    }
  }

  lemma {:induction false} CloseOfInert(s: string)
    requires IsInert(s)
    ensures FindClose(s + CLOSE) == Some(|s|)
  {
    if s == "" {
      assert s + CLOSE == CLOSE;
    } else {
      var text := s + CLOSE;
      var n := |s|;
      assert text[4] != '>' by {
        if n > 4 {
          assert text[4] == s[4];
        } else {
          assert text[4] == CLOSE[4 - n];
        }
      }
      assert CLOSE[4] == '>';
      assert !(CLOSE <= text);
      assert text[1..] == s[1..] + CLOSE;
      CloseOfInert(s[1..]);
    }
  }

  lemma MetaOfFields(fields: string)
    requires IsInert(fields)
    ensures FindMeta(OPEN + (fields + CLOSE)) == Some("{" + fields + "}")
  {
    CloseOfInert(fields);
    var s := OPEN + (fields + CLOSE);
    assert s[|OPEN|..] == fields + CLOSE;
    assert s[|OPEN|..|OPEN| + |fields|] == fields;
  }

  lemma MetaOfComment(m: PRMeta)
    ensures FindMeta(Comment(m)) == Some(Print(m))
  {
    PrintedIsInert(FieldsOf(m));
    MetaOfFields(PrintFields(FieldsOf(m)));
  }

  // The first metadata comment found in the three lines that are printed unescaped.
  function Injected(p: Params): Option<string> {
    var e := FindMeta(EnvironmentLine(p));
    var a := FindMeta(AppLine(p));
    if e.Some? then e else if a.Some? then a else FindMeta(RequesterLine(p))
  }

  lemma Regroup(s: string, t: string, u: string)
    ensures (s + t) + u == s + (t + u)
  {
  }

  lemma FiveLinesAreSearchedInOrder(a: string, b: string, c: string, d: string, e: string, t: string)
    requires EndsLine(a) && EndsLine(b) && EndsLine(c) && EndsLine(d) && EndsLine(e)
    ensures FindMeta(a + (b + (c + (d + e))) + t) ==
      if FindMeta(a).Some? then FindMeta(a)
      else if FindMeta(b).Some? then FindMeta(b)
      else if FindMeta(c).Some? then FindMeta(c)
      else if FindMeta(d).Some? then FindMeta(d)
      else if FindMeta(e).Some? then FindMeta(e)
      else FindMeta(t)
  {
    hide FindMeta, EndsLine;
    Regroup(a, b + (c + (d + e)), t);
    Regroup(b, c + (d + e), t);
    Regroup(c, d + e, t);
    Regroup(d, e, t);
    LinesAreSearchedFirst(a, b + (c + (d + (e + t))));
    LinesAreSearchedFirst(b, c + (d + (e + t)));
    LinesAreSearchedFirst(c, d + (e + t));
    LinesAreSearchedFirst(d, e + t);
    LinesAreSearchedFirst(e, t);
  }

  lemma NoAngleInLine(name: string, value: string, end: string)
    requires EndsLine(end)
    requires '<' !in name && '<' !in value && '<' !in end
    ensures FindMeta(Line(name, value, end)) == None
  {
    NoAngleNoMeta(Line(name, value, end));
  }

  lemma SafeTagLine(p: Params)
    requires Sanitize.TagIsSafe(p.tag)
    ensures FindMeta(TagLine(p)) == None
  {
    SafeTagIsWord(p.tag);
    NoAngleInLine("**Tag:** `", p.tag, "`\n");
  }

  lemma EscapedReasonLines(p: Params)
    ensures FindMeta(ReasonLines(p)) == None
  {
    Sanitize.MarkdownHasNoAngle(p.reason);
    NoAngleInLine("**Reason:** ", Sanitize.GitHubMarkdown(p.reason), "\n\n");
  }

  // What is read from a printed body: the metadata that was written, unless the app, the
  // environment or the requester line itself holds a metadata comment, which then wins.
  // The reason never matters.
  lemma ParseOfBody(p: Params)
    requires Sanitize.TagIsSafe(p.tag)
    ensures ParsePRMeta(Body(p)) ==
      match Injected(p) case None => Some(MetaOf(p)) case Some(json) => Parse(json)
  {
    FiveLinesAreSearchedInOrder(EnvironmentLine(p), AppLine(p), TagLine(p),
      RequesterLine(p), ReasonLines(p), Comment(MetaOf(p)));
    SafeTagLine(p);
    EscapedReasonLines(p);
    MetaOfComment(MetaOf(p));
    ParseOfPrinted(MetaOf(p));
  }

  // The names that the bot takes from its configuration and from identity lookups.
  predicate HasPlainNames(p: Params) {
    '<' !in p.app && '<' !in p.environment && '<' !in p.requester
  }

  lemma PlainRequesterLine(p: Params)
    requires '<' !in p.requester
    ensures FindMeta(RequesterLine(p)) == None
  {
    NoAngleInLine("**Requester:** ", FormatRequester(p.requester), "\n");
  }

  lemma PlainEnvironmentLine(p: Params)
    requires '<' !in p.environment
    ensures FindMeta(EnvironmentLine(p)) == None
  {
    NoAngleInLine("**Environment:** ", p.environment, "\n");
  }

  lemma PlainAppLine(p: Params)
    requires '<' !in p.app
    ensures FindMeta(AppLine(p)) == None
  {
    NoAngleInLine("**App:** ", p.app, "\n");
  }

  lemma RoundTrip(p: Params)
    requires Sanitize.TagIsSafe(p.tag) && HasPlainNames(p)
    ensures ParsePRMeta(Body(p)) == Some(MetaOf(p))
  {
    PlainEnvironmentLine(p);
    PlainAppLine(p);
    PlainRequesterLine(p);
    ParseOfBody(p);
    hide EnvironmentLine, AppLine, RequesterLine, FindMeta, Body, ParsePRMeta, Parse, Sanitize.TagIsSafe;
  }

  // Without the hypothesis on names the round trip fails, for instance for this app.
  lemma RoundTripNeedsPlainNames(p: Params)
    requires Sanitize.TagIsSafe(p.tag) && '<' !in p.environment
    requires p.app == OPEN + CLOSE
    ensures ParsePRMeta(Body(p)) == Some(EMPTY_META) && EMPTY_META != MetaOf(p)
  {
    CommentInAppLine(p);
    InjectedAppWins(p, "{}");
    EmptyObject();
  }

  lemma InjectedAppWins(p: Params, json: string)
    requires Sanitize.TagIsSafe(p.tag) && '<' !in p.environment
    requires FindMeta(AppLine(p)) == Some(json)
    ensures ParsePRMeta(Body(p)) == Parse(json)
  {
    NoAngleInLine("**Environment:** ", p.environment, "\n");
    ParseOfBody(p);
  }

  lemma EmptyObject()
    ensures Parse("{}") == Some(EMPTY_META)
  {
    assert "{}"[1..] == "}";
  }

  lemma CommentInAppLine(p: Params)
    requires p.app == OPEN + CLOSE
    ensures FindMeta(AppLine(p)) == Some("{}")
  {
    SkipPlainText("**App:** ", p.app + "\n");
    EmptyComment(p.app + "\n");
  }

  lemma EmptyComment(s: string)
    requires s == OPEN + CLOSE + "\n"
    ensures FindMeta(s) == Some("{}")
  {
    var json := "{" + s[|OPEN|..|OPEN|] + "}";
    assert s[|OPEN|..] == CLOSE + "\n";
    assert json == "{}";
  }

  lemma {:induction false} SkipPlainText(s: string, t: string)
    requires '<' !in s
    ensures FindMeta(s + t) == FindMeta(t)
  {
    if s == "" {
      assert s + t == t;
    } else {
      assert (s + t)[0] == s[0] && (s + t)[1..] == s[1..] + t;
      assert OPEN[0] == '<';
      SkipPlainText(s[1..], t);
    }
  }
}
