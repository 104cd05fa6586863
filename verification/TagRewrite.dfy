/**
 The kustomization rewrite: every value matched by (newTag:\s*)(\S+) is replaced by the
 requested tag. The regular expression is modelled as a left-to-right scanner.

 The text is split into the values that the scanner matches and the pieces around them;
 the rewrite is then understood as "same pieces, new values".
 */
module TagRewrite {
  import opened Wrappers

  const KEY := "newTag:"

  // The class \s of Go's regular expressions (ASCII only).
  predicate IsBlank(c: char) {
    c == ' ' || c == '\t' || c == '\n' || c == '\r' || c == '\U{000C}'
  }

  // Length of the longest blank prefix: \s*
  function BlankRun(s: string): (n: nat)
    ensures n <= |s|
    ensures forall i :: 0 <= i < n ==> IsBlank(s[i])
    ensures n < |s| ==> !IsBlank(s[n])
  {
    if s != "" && IsBlank(s[0]) then 1 + BlankRun(s[1..]) else 0
  }

  // Length of the longest non-blank prefix: \S+ (or nothing when 0)
  function WordRun(s: string): (n: nat)
    ensures n <= |s|
    ensures forall i :: 0 <= i < n ==> !IsBlank(s[i])
    ensures n < |s| ==> IsBlank(s[n])
  {
    if s != "" && !IsBlank(s[0]) then 1 + WordRun(s[1..]) else 0
  }

  // Where the value of a match at the head of s begins, if there is one.
  function ValueStart(s: string): nat
    requires KEY <= s
  {
    |KEY| + BlankRun(s[|KEY|..])
  }

  predicate MatchesHere(s: string) {
    KEY <= s && ValueStart(s) < |s|
  }

  function ValueEnd(s: string): (e: nat)
    requires MatchesHere(s)
    ensures ValueStart(s) < e <= |s|
  {
    ValueStart(s) + WordRun(s[ValueStart(s)..])
  }

  // The values of the successive non-overlapping matches.
  function Values(s: string): seq<string> {
    if s == "" then []
    else if MatchesHere(s) then [s[ValueStart(s)..ValueEnd(s)]] + Values(s[ValueEnd(s)..])
    else Values(s[1..])
  }

  // The text around the values: one piece before each value and one after the last.
  function Pieces(s: string): (ps: seq<string>)
    ensures |ps| == |Values(s)| + 1
  {
    if s == "" then [""]
    else if MatchesHere(s) then [s[..ValueStart(s)]] + Pieces(s[ValueEnd(s)..])
    else
      var ps := Pieces(s[1..]);
      [[s[0]] + ps[0]] + ps[1..]
  }

  function Weave(pieces: seq<string>, values: seq<string>): string
    requires |pieces| == |values| + 1
  {
    if values == [] then pieces[0]
    else pieces[0] + values[0] + Weave(pieces[1..], values[1..])
  }

  function Copies(tag: string, n: nat): (vs: seq<string>)
    ensures |vs| == n
  {
    seq(n, _ => tag)
  }

  // ReplaceAllString(content, "${1}" + tag).
  function ReplaceAll(s: string, tag: string): string {
    if s == "" then ""
    else if MatchesHere(s) then s[..ValueStart(s)] + tag + ReplaceAll(s[ValueEnd(s)..], tag)
    else [s[0]] + ReplaceAll(s[1..], tag)
  }

  // MatchString: some match exists anywhere.
  predicate MatchesSomewhere(s: string) {
    s != "" && (MatchesHere(s) || MatchesSomewhere(s[1..]))
  }

  datatype RewriteError = TagKeyNotFound

  // A '$' in the tag would be expanded by the replacement template; CreateDeployPR
  // refuses such tags before it gets here.
  function UpdateNewTag(content: string, tag: string): (r: Result<string, RewriteError>)
    requires '$' !in tag
    ensures r.Ok? <==> MatchesSomewhere(content)
  {
    if !MatchesSomewhere(content) then Err(TagKeyNotFound) else Ok(ReplaceAll(content, tag))
  }

  predicate IsWord(tag: string) {
    tag != "" && forall i :: 0 <= i < |tag| ==> !IsBlank(tag[i])
  }

  // What the regular expression means: key, blanks, then a maximal run of non-blanks.
  ghost predicate IsMatch(s: string, i: nat, v: nat, e: nat) {
    && i + |KEY| <= v < e <= |s|
    && s[i..i + |KEY|] == KEY
    && (forall k :: i + |KEY| <= k < v ==> IsBlank(s[k]))
    && (forall k :: v <= k < e ==> !IsBlank(s[k]))
    && (e == |s| || IsBlank(s[e]))
  }

  lemma MatchAtHead(s: string, v: nat, e: nat)
    requires IsMatch(s, 0, v, e)
    ensures MatchesHere(s)
  {
    assert s[..|KEY|] == KEY;
    assert s[|KEY|..][v - |KEY|] == s[v];
  }

  // A match after the first character is a match of the rest.
  lemma MatchShifts(s: string, i: nat, v: nat, e: nat)
    requires s != "" && 0 < i && 0 < v && 0 < e
    ensures IsMatch(s, i, v, e) <==> IsMatch(s[1..], i - 1, v - 1, e - 1)
  {
    if i + |KEY| <= |s| {
      assert s[1..][i - 1..i - 1 + |KEY|] == s[i..i + |KEY|];
    }
    hide KEY;
  }

  lemma MatchIsAhead(s: string, i: nat, v: nat, e: nat)
    requires IsMatch(s, i, v, e)
    ensures i <= v <= e
  {
  }

  // The scanner reports an error exactly when the expression matches nowhere.
  lemma {:induction false} ScannerFindsMatches(s: string)
    ensures MatchesSomewhere(s) <==> exists i: nat, v: nat, e: nat :: IsMatch(s, i, v, e)
  {
    if s != "" {
      ScannerFindsMatches(s[1..]);
      if MatchesHere(s) {
        assert IsMatch(s, 0, ValueStart(s), ValueEnd(s));
      } else {
        hide IsMatch, MatchesHere;
        if MatchesSomewhere(s[1..]) {
          var i: nat, v: nat, e: nat :| IsMatch(s[1..], i, v, e);
          MatchShifts(s, i + 1, v + 1, e + 1);
        }
        forall i: nat, v: nat, e: nat | IsMatch(s, i, v, e) ensures MatchesSomewhere(s[1..]) {
          if i == 0 {
            MatchAtHead(s, v, e);
          } else {
            MatchIsAhead(s, i, v, e);
            MatchShifts(s, i, v, e);
          }
        }
      }
    }
  }

  lemma {:induction false} ValuesIffMatches(s: string)
    ensures Values(s) != [] <==> MatchesSomewhere(s)
  {
    if s != "" && !MatchesHere(s) {
      ValuesIffMatches(s[1..]);
    }
  }

  lemma WeaveCons(p: string, v: string, ps: seq<string>, vs: seq<string>)
    requires |ps| == |vs| + 1
    ensures Weave([p] + ps, [v] + vs) == p + v + Weave(ps, vs)
  {
    assert ([p] + ps)[1..] == ps && ([v] + vs)[1..] == vs;
  }

  lemma SplitAt(s: string, v: nat, e: nat)
    requires v <= e <= |s|
    ensures s[..v] + s[v..e] + s[e..] == s
  {
  }

  lemma {:induction false} WeaveOriginal(s: string)
    ensures Weave(Pieces(s), Values(s)) == s
  {
    if s == "" {
    } else if MatchesHere(s) {
      var v, e := ValueStart(s), ValueEnd(s);
      WeaveOriginal(s[e..]);
      WeaveCons(s[..v], s[v..e], Pieces(s[e..]), Values(s[e..]));
      SplitAt(s, v, e);
    } else {
      WeaveOriginal(s[1..]);
      PrependToWeave([s[0]], Pieces(s[1..]), Values(s[1..]));
    }
  }

  lemma {:induction false} PrependToWeave(c: string, ps: seq<string>, vs: seq<string>)
    requires |ps| == |vs| + 1
    ensures Weave([c + ps[0]] + ps[1..], vs) == c + Weave(ps, vs)
  {
    if vs != [] {
      assert ([c + ps[0]] + ps[1..])[1..] == ps[1..];
      assert c + (ps[0] + vs[0] + Weave(ps[1..], vs[1..])) == (c + ps[0]) + vs[0] + Weave(ps[1..], vs[1..]);
    }
  }

  lemma {:induction false} WeaveReplaced(s: string, tag: string)
    ensures ReplaceAll(s, tag) == Weave(Pieces(s), Copies(tag, |Values(s)|))
  {
    if s == "" {
    } else if MatchesHere(s) {
      var v, e := ValueStart(s), ValueEnd(s);
      var n := |Values(s[e..])|;
      WeaveReplaced(s[e..], tag);
      WeaveCons(s[..v], tag, Pieces(s[e..]), Copies(tag, n));
      assert Copies(tag, |Values(s)|) == [tag] + Copies(tag, n);
    } else {
      WeaveReplaced(s[1..], tag);
      PrependToWeave([s[0]], Pieces(s[1..]), Copies(tag, |Values(s)|));
    }
  }

  // Text without 'n' followed by blanks only cannot hold a match.
  lemma {:induction false} NothingToMatch(s: string, k: nat, tag: string)
    requires k <= |s|
    requires 'n' !in s[..k]
    requires forall i :: k <= i < |s| ==> IsBlank(s[i])
    ensures ReplaceAll(s, tag) == s
  {
    if s != "" {
      assert KEY[0] == 'n';
      if k > 0 {
        assert s[..k][0] == s[0];
        assert s[1..][..k - 1] == s[..k][1..];
        NothingToMatch(s[1..], k - 1, tag);
      } else {
        NothingToMatch(s[1..], 0, tag);
      }
    }
  }

  // Up to the first 'n' of the result nothing can have been replaced.
  lemma {:induction false} UntouchedPrefix(s: string, tag: string, k: nat)
    requires k <= |ReplaceAll(s, tag)|
    requires 'n' !in ReplaceAll(s, tag)[..k]
    ensures k <= |s| && s[..k] == ReplaceAll(s, tag)[..k]
  {
    var r := ReplaceAll(s, tag);
    if k > 0 && s != "" {
      assert r[..k][0] == r[0];
      assert r[..k][0] in r[..k];
      if MatchesHere(s) {
        assert false;
      } else {
        assert r[1..] == ReplaceAll(s[1..], tag);
        assert r[..k][1..] == r[1..][..k - 1];
        UntouchedPrefix(s[1..], tag, k - 1);
        assert s[..k] == [s[0]] + s[1..][..k - 1];
      }
    }
  }

  // A rewrite does not create a match at a position that had none.
  lemma NoNewMatch(s: string, tag: string)
    requires s != "" && !MatchesHere(s)
    ensures !MatchesHere(ReplaceAll(s, tag))
  {
    var r := ReplaceAll(s, tag);
    var tail := ReplaceAll(s[1..], tag);
    assert r == [s[0]] + tail;
    if KEY <= r {
      assert tail[..6] == r[1..7] == KEY[1..] == "ewTag:";
      UntouchedPrefix(s[1..], tag, 6);
      assert s[..7] == [s[0]] + s[1..][..6] == KEY;
      assert forall i :: 7 <= i < |s| ==> s[i] == s[7..][i - 7];
      forall i | 6 <= i < |s[1..]| ensures IsBlank(s[1..][i]) {
        assert s[1..][i] == s[i + 1];
      }
      NothingToMatch(s[1..], 6, tag);
      assert r == s;
    }
  }

  lemma {:induction false} BlankRunOf(b: string, rest: string)
    requires forall i :: 0 <= i < |b| ==> IsBlank(b[i])
    requires rest != "" && !IsBlank(rest[0])
    ensures BlankRun(b + rest) == |b|
  {
    if b == "" {
      assert b + rest == rest;
    } else {
      BlankRunOf(b[1..], rest);
      assert (b + rest)[1..] == b[1..] + rest;
    }
  }

  lemma {:induction false} WordRunOf(w: string, rest: string)
    requires forall i :: 0 <= i < |w| ==> !IsBlank(w[i])
    requires rest == "" || IsBlank(rest[0])
    ensures WordRun(w + rest) == |w|
  {
    if w == "" {
      assert w + rest == rest;
    } else {
      WordRunOf(w[1..], rest);
      assert (w + rest)[1..] == w[1..] + rest;
    }
  }

  // After a value the scanner resumes at a blank or at the end, and so does the result.
  lemma ResumesAtBlank(s: string, tag: string)
    requires s == "" || IsBlank(s[0])
    ensures var r := ReplaceAll(s, tag); r == "" || IsBlank(r[0])
  {
    if s != "" { assert KEY[0] == 'n'; }
  }

  // Text put together as key, blanks, word and something that does not extend the word.
  lemma HeadMatchOf(b: string, w: string, rest: string)
    requires forall i :: 0 <= i < |b| ==> IsBlank(b[i])
    requires IsWord(w)
    requires rest == "" || IsBlank(rest[0])
    ensures var s := KEY + b + w + rest;
      && MatchesHere(s)
      && ValueStart(s) == |KEY| + |b|
      && ValueEnd(s) == |KEY| + |b| + |w|
  {
    var s := KEY + b + w + rest;
    assert s[..|KEY|] == KEY;
    assert s[|KEY|..] == b + (w + rest);
    BlankRunOf(b, w + rest);
    assert s[|KEY| + |b|..] == w + rest;
    WordRunOf(w, rest);
  }

  // A match at the head is still a match at the head, now with the new value.
  lemma HeadMatchRewritten(s: string, tag: string)
    requires IsWord(tag) && MatchesHere(s)
    ensures var r := ReplaceAll(s, tag); var v := ValueStart(s);
      && MatchesHere(r)
      && ValueStart(r) == v && r[..v] == s[..v]
      && ValueEnd(r) == v + |tag| && r[v..v + |tag|] == tag
      && r[v + |tag|..] == ReplaceAll(s[ValueEnd(s)..], tag)
  {
    var v, e := ValueStart(s), ValueEnd(s);
    var b := s[|KEY|..v];
    forall i | 0 <= i < |b| ensures IsBlank(b[i]) {
      assert b[i] == s[|KEY|..][i];
    }
    var w := WordRun(s[v..]);
    assert e < |s| ==> s[v..][w] == s[e..][0];
    var rest := ReplaceAll(s[e..], tag);
    ResumesAtBlank(s[e..], tag);
    HeadMatchOf(b, tag, rest);
    assert s[..v] == KEY + b;
    assert ReplaceAll(s, tag) == KEY + b + tag + rest;
  }

  // The result has the same surrounding text, and every match in it carries the new tag.
  lemma {:induction false} RewriteKeepsShape(s: string, tag: string)
    requires IsWord(tag)
    ensures Pieces(ReplaceAll(s, tag)) == Pieces(s)
    ensures Values(ReplaceAll(s, tag)) == Copies(tag, |Values(s)|)
  {
    var r := ReplaceAll(s, tag);
    if s == "" {
    } else if MatchesHere(s) {
      var v := ValueStart(s);
      HeadMatchRewritten(s, tag);
      RewriteKeepsShape(s[ValueEnd(s)..], tag);
      assert Copies(tag, |Values(s)|) == [tag] + Copies(tag, |Values(s[ValueEnd(s)..])|);
    } else {
      NoNewMatch(s, tag);
      assert r[1..] == ReplaceAll(s[1..], tag);
      RewriteKeepsShape(s[1..], tag);
    }
  }

  // Writing a and then b is writing b.
  lemma LastWriteWins(content: string, a: string, b: string)
    requires IsWord(a) && IsWord(b) && '$' !in a && '$' !in b
    ensures var once := UpdateNewTag(content, a);
      once.Ok? ==> UpdateNewTag(once.value, b) == UpdateNewTag(content, b)
    ensures UpdateNewTag(content, a).Ok? <==> UpdateNewTag(content, b).Ok?
  {
    if MatchesSomewhere(content) {
      var once := ReplaceAll(content, a);
      RewriteKeepsShape(content, a);
      ValuesIffMatches(content);
      ValuesIffMatches(once);
      WeaveReplaced(once, b);
      WeaveReplaced(content, b);
    }
  }

  predicate AllAre(vs: seq<string>, tag: string) {
    forall i :: 0 <= i < |vs| ==> vs[i] == tag
  }

  // The rewrite leaves the file as it is exactly when every value already is the tag, so
  // once a deploy has landed the same request is reported as "no change".
  lemma NoChangeIffCurrent(content: string, tag: string)
    requires IsWord(tag)
    ensures ReplaceAll(content, tag) == content <==> AllAre(Values(content), tag)
  {
    RewriteKeepsShape(content, tag);
    assert AllAre(Copies(tag, |Values(content)|), tag);
    if AllAre(Values(content), tag) {
      assert Values(content) == Copies(tag, |Values(content)|);
      WeaveOriginal(content);
      WeaveReplaced(content, tag);
    }
  }
}
