/** Sanitising of tags for git branch names and of free text for GitHub markdown. */
module Sanitize {

  // --- tags ---

  predicate IsAlnum(c: char) {
    'a' <= c <= 'z' || 'A' <= c <= 'Z' || '0' <= c <= '9'
  }

  predicate IsTagChar(c: char) {
    IsAlnum(c) || c == '.' || c == '_' || c == '+' || c == '-'
  }

  // All accepted characters are ASCII, so the byte limit of 256 is a character limit.
  predicate TagIsSafe(tag: string) {
    0 < |tag| <= 256 && IsAlnum(tag[0]) && forall i :: 0 <= i < |tag| ==> IsTagChar(tag[i])
  }

  // The longest tag that is accepted, and one character more.
  lemma LongestTag()
    ensures TagIsSafe(seq(256, _ => 'a')) && !TagIsSafe(seq(257, _ => 'a'))
  {
  }

  // --- branch names ---

  // The single characters that git refuses in a reference name.
  predicate IsListed(c: char) {
    c in "/:+ ~^*?[]\\"
  }

  // strings.NewReplacer with the listed characters and ".." mapped to a hyphen.
  function ReplaceListed(s: string): string {
    if s == "" then ""
    else if IsListed(s[0]) then "-" + ReplaceListed(s[1..])
    else if |s| >= 2 && s[0] == '.' && s[1] == '.' then "-" + ReplaceListed(s[2..])
    else [s[0]] + ReplaceListed(s[1..])
  }

  predicate HasPair(s: string, c: char) {
    exists i :: 0 <= i < |s| - 1 && s[i] == c && s[i + 1] == c
  }

  // strings.ReplaceAll(s, "--", "-")
  function HalveHyphens(s: string): (r: string)
    ensures |r| <= |s|
    ensures HasPair(s, '-') ==> |r| < |s|
  {
    if |s| < 2 then s
    else if s[0] == '-' && s[1] == '-' then "-" + HalveHyphens(s[2..])
    else
      assert HasPair(s, '-') ==> HasPair(s[1..], '-') by {
        if HasPair(s, '-') {
          var i :| 0 <= i < |s| - 1 && s[i] == '-' && s[i + 1] == '-';
          assert s[1..][i - 1] == '-' && s[1..][i] == '-';
        }
      }
      [s[0]] + HalveHyphens(s[1..])
  }

  // Every maximal run of hyphens becomes one hyphen.
  function Collapse(s: string): (r: string)
    ensures s != "" ==> r != "" && r[0] == s[0]
  {
    if |s| < 2 then s
    else if s[0] == '-' && s[1] == '-' then Collapse(s[1..])
    else [s[0]] + Collapse(s[1..])
  }

  predicate IsTrimmed(c: char) {
    c == '-' || c == '.'
  }

  predicate IsAllTrimmed(s: string) {
    forall i :: 0 <= i < |s| ==> IsTrimmed(s[i])
  }

  function TrimLeft(s: string): string {
    if s != "" && IsTrimmed(s[0]) then TrimLeft(s[1..]) else s
  }

  function TrimRight(s: string): string {
    if s != "" && IsTrimmed(s[|s| - 1]) then TrimRight(s[..|s| - 1]) else s
  }

  // strings.Trim(s, "-.")
  function Trim(s: string): string {
    TrimRight(TrimLeft(s))
  }

  const FALLBACK := "invalid"

  // What is left of the tag before the fallback is considered.
  function BranchStem(tag: string): string {
    Trim(Collapse(ReplaceListed(tag)))
  }

  function BranchNameOf(tag: string): string {
    var stem := BranchStem(tag);
    if stem == "" then FALLBACK else stem
  }

  // The loop that replaces "--" until none is left computes the collapse of every run.
  method BranchName(tag: string) returns (s: string)
    ensures s == BranchNameOf(tag)
  {
    s := ReplaceListed(tag);
    while HasPair(s, '-')
      invariant Collapse(s) == Collapse(ReplaceListed(tag))
      decreases |s|
    {
      HalvingKeepsCollapse(s);
      s := HalveHyphens(s);
    }
    CollapseNothing(s);
    s := Trim(s);
    if s == "" {
      s := FALLBACK;
    }
  }

  lemma {:induction false} HalvingKeepsCollapse(s: string)
    ensures Collapse(HalveHyphens(s)) == Collapse(s)
  {
    if |s| < 2 {
    } else if s[0] == '-' && s[1] == '-' {
      HalvingKeepsCollapse(s[2..]);
      var rest := HalveHyphens(s[2..]);
      assert s[1..][1..] == s[2..];
      if |s| > 2 {
        HeadOfHalved(s[2..]);
        assert ("-" + rest)[1..] == rest;
      }
    } else {
      HalvingKeepsCollapse(s[1..]);
      HeadOfHalved(s[1..]);
      var rest := HalveHyphens(s[1..]);
      assert ([s[0]] + rest)[1..] == rest;
    }
  }

  lemma HeadOfHalved(s: string)
    requires s != ""
    ensures HalveHyphens(s) != "" && HalveHyphens(s)[0] == s[0]
  {
  }

  lemma {:induction false} CollapseNothing(s: string)
    requires !HasPair(s, '-')
    ensures Collapse(s) == s
  {
    if |s| >= 2 {
      NoPairInTail(s, '-');
      CollapseNothing(s[1..]);
    }
  }

  lemma NoPairInTail(s: string, c: char)
    requires s != "" && !HasPair(s, c)
    ensures !HasPair(s[1..], c)
  {
    forall i | 0 <= i < |s[1..]| - 1 ensures !(s[1..][i] == c && s[1..][i + 1] == c) {
      assert s[1..][i] == s[i + 1] && s[1..][i + 1] == s[i + 2];
    }
  }

  // What a branch component may look like.
  predicate IsCleanBranch(s: string) {
    && s != ""
    && !HasPair(s, '-') && !HasPair(s, '.')
    && (forall i :: 0 <= i < |s| ==> !IsListed(s[i]))
    && !IsTrimmed(s[0]) && !IsTrimmed(s[|s| - 1])
  }

  // No listed character and no pair of dots.
  predicate IsReplaced(s: string) {
    !HasPair(s, '.') && forall i :: 0 <= i < |s| ==> !IsListed(s[i])
  }

  lemma PrependPair(c: char, r: string, d: char)
    requires !HasPair(r, d)
    requires c == d ==> r == "" || r[0] != d
    ensures !HasPair([c] + r, d)
  {
    forall i | 0 <= i < |r| ensures !(([c] + r)[i] == d && ([c] + r)[i + 1] == d) {
      assert ([c] + r)[i + 1] == r[i];
      assert i > 0 ==> ([c] + r)[i] == r[i - 1] && ([c] + r)[i + 1] == r[i - 1 + 1];
    }
  }

  lemma PrependReplaced(c: char, r: string)
    requires IsReplaced(r) && !IsListed(c) && (c == '.' ==> r == "" || r[0] != '.')
    ensures IsReplaced([c] + r)
  {
    PrependPair(c, r, '.');
    hide HasPair, IsListed;
  }

  lemma {:induction false} ReplaceListedReplaces(s: string)
    ensures IsReplaced(ReplaceListed(s))
    ensures s != "" && s[0] != '.' ==> ReplaceListed(s) != "" && ReplaceListed(s)[0] != '.'
  {
    assert s == "" ==> IsReplaced(s);
    hide HasPair;
    if s == "" {
    } else if IsListed(s[0]) {
      ReplaceListedReplaces(s[1..]);
      PrependReplaced('-', ReplaceListed(s[1..]));
    } else if |s| >= 2 && s[0] == '.' && s[1] == '.' {
      ReplaceListedReplaces(s[2..]);
      PrependReplaced('-', ReplaceListed(s[2..]));
    } else {
      ReplaceListedReplaces(s[1..]);
      PrependReplaced(s[0], ReplaceListed(s[1..]));
    }
  }

  lemma {:induction false} CollapseKeepsReplaced(s: string)
    requires IsReplaced(s)
    ensures IsReplaced(Collapse(s)) && !HasPair(Collapse(s), '-')
  {
    if |s| >= 2 {
      NoPairInTail(s, '.');
      CollapseKeepsReplaced(s[1..]);
      if !(s[0] == '-' && s[1] == '-') {
        assert s[0] == '.' ==> s[0 + 1] != '.';
        PrependPair(s[0], Collapse(s[1..]), '.');
        PrependPair(s[0], Collapse(s[1..]), '-');
      }
    }
  }

  ghost predicate IsSubstring(t: string, s: string) {
    exists i, j :: 0 <= i <= j <= |s| && t == s[i..j]
  }

  lemma {:induction false} TrimLeftCuts(s: string)
    ensures IsSubstring(TrimLeft(s), s)
    ensures TrimLeft(s) != "" ==> !IsTrimmed(TrimLeft(s)[0])
  {
    if s != "" && IsTrimmed(s[0]) {
      TrimLeftCuts(s[1..]);
      var i, j :| 0 <= i <= j <= |s[1..]| && TrimLeft(s) == s[1..][i..j];
      assert TrimLeft(s) == s[i + 1..j + 1];
    } else {
      assert s == s[0..|s|];
    }
  }

  lemma {:induction false} TrimRightCuts(s: string)
    ensures TrimRight(s) <= s
    ensures TrimRight(s) != "" ==> !IsTrimmed(TrimRight(s)[|TrimRight(s)| - 1])
  {
    if s != "" && IsTrimmed(s[|s| - 1]) {
      TrimRightCuts(s[..|s| - 1]);
    }
  }

  lemma SubstringHasNoPair(t: string, s: string, c: char)
    requires IsSubstring(t, s) && !HasPair(s, c)
    ensures !HasPair(t, c)
  {
    var i, j :| 0 <= i <= j <= |s| && t == s[i..j];
    forall k | 0 <= k < |t| - 1 ensures !(t[k] == c && t[k + 1] == c) {
      assert t[k] == s[i + k] && t[k + 1] == s[i + k + 1];
    }
  }

  lemma SubstringIsReplaced(t: string, s: string)
    requires IsSubstring(t, s) && IsReplaced(s)
    ensures IsReplaced(t)
  {
    var i, j :| 0 <= i <= j <= |s| && t == s[i..j];
    forall k | 0 <= k < |t| ensures !IsListed(t[k]) {
      assert t[k] == s[i + k];
    }
    SubstringHasNoPair(t, s, '.');
  }

  lemma TrimCuts(s: string)
    ensures IsSubstring(Trim(s), s)
    ensures Trim(s) != "" ==> !IsTrimmed(Trim(s)[0]) && !IsTrimmed(Trim(s)[|Trim(s)| - 1])
  {
    var l := TrimLeft(s);
    TrimLeftCuts(s);
    TrimRightCuts(l);
    var i, j :| 0 <= i <= j <= |s| && l == s[i..j];
    assert Trim(s) == l[..|Trim(s)|] == s[i..i + |Trim(s)|];
  }

  // Whatever the tag, the branch component is well formed.
  lemma BranchNameIsClean(tag: string)
    ensures IsCleanBranch(BranchNameOf(tag))
  {
    var r := ReplaceListed(tag);
    ReplaceListedReplaces(tag);
    CollapseKeepsReplaced(r);
    TrimCuts(Collapse(r));
    var t := BranchStem(tag);
    SubstringIsReplaced(t, Collapse(r));
    SubstringHasNoPair(t, Collapse(r), '-');
    if t == "" {
      FallbackIsClean();
    }
  }

  lemma FallbackIsClean()
    ensures IsCleanBranch(FALLBACK)
  {
  }

  lemma {:induction false} ReplaceListedNothing(s: string)
    requires IsReplaced(s)
    ensures ReplaceListed(s) == s
  {
    if s != "" {
      assert |s| >= 2 ==> !(s[0] == '.' && s[0 + 1] == '.');
      NoPairInTail(s, '.');
      ReplaceListedNothing(s[1..]);
    }
  }

  // Two well-formed components joined by a hyphen are one.
  lemma JoinIsClean(a: string, b: string)
    requires IsCleanBranch(a) && IsCleanBranch(b)
    ensures IsCleanBranch(a + "-" + b)
  {
    var s := a + "-" + b;
    JoinHasNoPair(a, b, '-');
    JoinHasNoPair(a, b, '.');
    forall i | 0 <= i < |s| ensures !IsListed(s[i]) {
      assert s[i] == if i < |a| then a[i] else if i == |a| then '-' else b[i - |a| - 1];
    }
    hide IsListed;
    assert s[0] == a[0] && s[|s| - 1] == b[|b| - 1];
  }

  lemma JoinHasNoPair(a: string, b: string, c: char)
    requires IsCleanBranch(a) && IsCleanBranch(b) && IsTrimmed(c)
    ensures !HasPair(a + "-" + b, c)
  {
    var s := a + "-" + b;
    assert !HasPair(a, c) && !HasPair(b, c);
    hide IsListed;
    forall i | 0 <= i < |s| - 1 ensures !(s[i] == c && s[i + 1] == c) {
      if i + 1 < |a| {
        assert s[i] == a[i] && s[i + 1] == a[i + 1];
      } else if i + 1 == |a| {
        assert s[i] == a[|a| - 1];
      } else if i == |a| {
        assert s[i + 1] == b[0];
      } else {
        assert s[i] == b[i - |a| - 1] && s[i + 1] == b[i - |a|];
      }
    }
  }

  // The well-formed components are exactly the fixpoints, so applying it twice is
  // applying it once.
  lemma FixpointIffClean(tag: string)
    ensures BranchNameOf(tag) == tag <==> IsCleanBranch(tag)
    ensures BranchNameOf(BranchNameOf(tag)) == BranchNameOf(tag)
  {
    BranchNameIsClean(tag);
    forall s | IsCleanBranch(s) ensures BranchNameOf(s) == s {
      ReplaceListedNothing(s);
      CollapseNothing(s);
    }
  }

  // A tag that CreateDeployPR accepts never falls back: its first character survives.
  lemma SafeTagKeepsHead(tag: string)
    requires TagIsSafe(tag)
    ensures BranchStem(tag) != "" && BranchNameOf(tag)[0] == tag[0]
  {
    var c := Collapse(ReplaceListed(tag));
    assert c[0] == tag[0];
    assert TrimLeft(c) == c;
    TrimRightKeepsHead(c);
  }

  lemma {:induction false} TrimRightKeepsHead(s: string)
    requires s != "" && !IsTrimmed(s[0])
    ensures TrimRight(s) != "" && TrimRight(s)[0] == s[0]
  {
    if IsTrimmed(s[|s| - 1]) {
      TrimRightKeepsHead(s[..|s| - 1]);
    }
  }

  // --- when a tag falls back ---

  // Nothing of the tag can stay: each character is listed, a hyphen or a dot.
  predicate IsAllSeparators(s: string) {
    forall i :: 0 <= i < |s| ==> IsListed(s[i]) || IsTrimmed(s[i])
  }

  lemma TrimmedSplits(c: char, rest: string)
    ensures IsAllTrimmed([c] + rest) <==> IsTrimmed(c) && IsAllTrimmed(rest)
  {
    assert ([c] + rest)[0] == c && ([c] + rest)[1..] == rest;
  }

  lemma SeparatorsSplit(c: char, rest: string)
    ensures IsAllSeparators([c] + rest) <==> (IsListed(c) || IsTrimmed(c)) && IsAllSeparators(rest)
  {
    assert ([c] + rest)[0] == c && ([c] + rest)[1..] == rest;
  }

  lemma {:induction false} SeparatorsReplaced(s: string)
    ensures IsAllSeparators(s) <==> IsAllTrimmed(ReplaceListed(s))
    decreases |s|
  {
    if s != "" {
      assert s == [s[0]] + s[1..];
      SeparatorsSplit(s[0], s[1..]);
      if !IsListed(s[0]) && |s| >= 2 && s[0] == '.' && s[1] == '.' {
        assert s[1..] == [s[1]] + s[2..];
        SeparatorsSplit(s[1], s[2..]);
        SeparatorsReplaced(s[2..]);
        TrimmedSplits('-', ReplaceListed(s[2..]));
      } else {
        SeparatorsReplaced(s[1..]);
        TrimmedSplits(if IsListed(s[0]) then '-' else s[0], ReplaceListed(s[1..]));
      }
      hide IsAllSeparators, IsAllTrimmed, IsListed;
    }
  }

  lemma {:induction false} SeparatorsCollapsed(s: string)
    ensures IsAllTrimmed(s) <==> IsAllTrimmed(Collapse(s))
  {
    if |s| >= 2 {
      SeparatorsCollapsed(s[1..]);
      assert s == [s[0]] + s[1..];
      if !(s[0] == '-' && s[1] == '-') {
        assert Collapse(s)[1..] == Collapse(s[1..]);
      }
    }
  }

  lemma {:induction false} TrimmedLeft(s: string)
    ensures IsAllTrimmed(s) <==> TrimLeft(s) == ""
  {
    if s != "" && IsTrimmed(s[0]) {
      TrimmedLeft(s[1..]);
      assert s == [s[0]] + s[1..];
    }
  }

  // The fallback is taken exactly when nothing of the tag can stay.
  lemma FallsBackIff(tag: string)
    ensures BranchStem(tag) == "" <==> IsAllSeparators(tag)
    ensures IsAllSeparators(tag) ==> BranchNameOf(tag) == "invalid"
  {
    var c := Collapse(ReplaceListed(tag));
    SeparatorsReplaced(tag);
    SeparatorsCollapsed(ReplaceListed(tag));
    TrimmedLeft(c);
    TrimLeftCuts(c);
    if TrimLeft(c) != "" {
      TrimRightKeepsHead(TrimLeft(c));
    }
  }

  // --- what replacing does, piece by piece ---

  predicate MeetAtDot(a: string, b: string) {
    a != "" && b != "" && a[|a| - 1] == '.' && b[0] == '.'
  }

  lemma HeadReplaced(c: char, rest: string)
    requires c == '.' ==> rest == "" || rest[0] != '.'
    ensures ReplaceListed([c] + rest) == [if IsListed(c) then '-' else c] + ReplaceListed(rest)
  {
    assert ([c] + rest)[1..] == rest;
  }

  lemma PairReplaced(rest: string)
    ensures ReplaceListed(".." + rest) == "-" + ReplaceListed(rest)
  {
    assert (".." + rest)[2..] == rest;
  }

  lemma Regroup(a: string, b: string, c: string)
    ensures (a + b) + c == a + (b + c)
  {
  }

  // Text is replaced independently on both sides of any place that is not inside "..".
  lemma {:induction false} ReplaceSplits(a: string, b: string)
    requires !MeetAtDot(a, b)
    ensures ReplaceListed(a + b) == ReplaceListed(a) + ReplaceListed(b)
    decreases |a|
  {
    if a == "" {
      assert a + b == b;
      assert ReplaceListed(a) == "";
    } else {
      hide ReplaceListed;
      if |a| >= 2 && a[0] == '.' && a[1] == '.' {
        var rest := a[2..];
        assert a == ".." + rest;
        Regroup("..", rest, b);
        PairReplaced(rest);
        PairReplaced(rest + b);
        ReplaceSplits(rest, b);
        Regroup("-", ReplaceListed(rest), ReplaceListed(b));
      } else {
        var c, rest := a[0], a[1..];
        assert a == [c] + rest;
        Regroup([c], rest, b);
        HeadReplaced(c, rest);
        assert c == '.' && rest == "" && b != "" ==> b[0] != '.';
        assert rest + b == "" || (rest + b)[0] == if rest == "" then b[0] else rest[0];
        HeadReplaced(c, rest + b);
        ReplaceSplits(rest, b);
        Regroup([if IsListed(c) then '-' else c], ReplaceListed(rest), ReplaceListed(b));
      }
    }
  }

  // Where no two dots meet, each listed character becomes a hyphen and all others stay.
  lemma {:induction false} ReplacePointwise(s: string)
    requires !HasPair(s, '.')
    ensures |ReplaceListed(s)| == |s|
    ensures forall i :: 0 <= i < |s| ==>
      ReplaceListed(s)[i] == if s[i] in "/:+ ~^*?[]\\" then '-' else s[i]
  {
    if s != "" {
      assert |s| >= 2 ==> !(s[0] == '.' && s[0 + 1] == '.');
      NoPairInTail(s, '.');
      ReplacePointwise(s[1..]);
    }
  }

  function Dots(k: nat): string { seq(k, _ => '.') }

  function Hyphens(k: nat): string { seq(k, _ => '-') }

  lemma TwoMoreDots(k: nat)
    ensures Dots(k + 2) == ".." + Dots(k)
    ensures Hyphens(k + 1) == "-" + Hyphens(k)
  {
  }

  // A run of dots becomes a hyphen for every two, and a last dot when their number is odd.
  lemma {:induction false} DotsReplaced(k: nat)
    ensures ReplaceListed(Dots(k)) == Hyphens(k / 2) + (if k % 2 == 1 then "." else "")
  {
    if k >= 2 {
      TwoMoreDots(k - 2);
      TwoMoreDots(k / 2 - 1);
      PairReplaced(Dots(k - 2));
      DotsReplaced(k - 2);
      hide ReplaceListed, Dots, Hyphens;
      Regroup("-", Hyphens(k / 2 - 1), if k % 2 == 1 then "." else "");
    } else if k == 1 {
      assert Dots(1) == ".";
    }
  }

  // --- git's rules ---

  // A component of a reference name as git-check-ref-format(1) accepts it.
  predicate IsRefComponent(s: string) {
    && s != "" && s[0] != '.' && s[|s| - 1] != '.'
    && !EndsIn(s, ".lock") && !HasPair(s, '.')
    && (forall i :: 0 <= i < |s| ==> s[i] > ' ' && s[i] != '\U{7F}' && s[i] !in "~^:?*[\\/")
    && !(exists i :: 0 <= i < |s| - 1 && s[i] == '@' && s[i + 1] == '{')
  }

  predicate EndsIn(s: string, end: string) {
    |end| <= |s| && s[|s| - |end|..] == end
  }

  predicate IsPlain(c: char) { IsAlnum(c) || c == '_' }

  predicate IsAllPlain(s: string) {
    forall i :: 0 <= i < |s| ==> IsPlain(s[i])
  }

  predicate HasNoPlain(s: string) {
    forall i :: 0 <= i < |s| ==> !IsPlain(s[i])
  }

  // The tag is head, dots, word and tail: word is the last run of plain characters, and dots
  // are all the dots before it.
  ghost predicate IsSplit(tag: string, head: string, dots: nat, word: string, tail: string) {
    && tag == head + Dots(dots) + word + tail
    && word != "" && IsAllPlain(word) && HasNoPlain(tail)
    && (head != "" ==> head[|head| - 1] != '.')
    && (dots == 0 && head != "" ==> !IsPlain(head[|head| - 1]))
  }

  lemma {:induction false} SplitTail(s: string) returns (front: string, tail: string)
    requires s != "" && IsPlain(s[0])
    ensures s == front + tail && front != "" && front[0] == s[0] && IsPlain(front[|front| - 1]) && HasNoPlain(tail)
    decreases |s|
  {
    if IsPlain(s[|s| - 1]) {
      front, tail := s, "";
    } else {
      var n := |s| - 1;
      front, tail := SplitTail(s[..n]);
      tail := tail + [s[n]];
      assert s == s[..n] + [s[n]];
    }
  }

  lemma {:induction false} SplitWord(s: string) returns (rest: string, word: string)
    ensures s == rest + word && IsAllPlain(word) && (rest != "" ==> !IsPlain(rest[|rest| - 1]))
    ensures s != "" && IsPlain(s[|s| - 1]) ==> word != ""
    decreases |s|
  {
    if s == "" || !IsPlain(s[|s| - 1]) {
      rest, word := s, "";
    } else {
      var n := |s| - 1;
      rest, word := SplitWord(s[..n]);
      word := word + [s[n]];
      assert s == s[..n] + [s[n]];
    }
  }

  lemma {:induction false} SplitDots(s: string) returns (head: string, dots: nat)
    ensures s == head + Dots(dots) && (head != "" ==> head[|head| - 1] != '.')
    decreases |s|
  {
    if s == "" || s[|s| - 1] != '.' {
      head, dots := s, 0;
    } else {
      var n := |s| - 1;
      head, dots := SplitDots(s[..n]);
      assert Dots(dots) + "." == Dots(dots + 1);
      assert s == s[..n] + ".";
      dots := dots + 1;
    }
  }

  lemma SplitTag(tag: string) returns (head: string, dots: nat, word: string, tail: string)
    requires TagIsSafe(tag)
    ensures IsSplit(tag, head, dots, word, tail)
  {
    var front, rest;
    front, tail := SplitTail(tag);
    rest, word := SplitWord(front);
    head, dots := SplitDots(rest);
    assert dots == 0 ==> head == rest;
  }

  predicate IsSafeText(s: string) {
    forall i :: 0 <= i < |s| ==> IsTagChar(s[i])
  }

  lemma {:induction false} TailReplaced(tail: string)
    requires IsSafeText(tail) && HasNoPlain(tail)
    ensures IsAllTrimmed(ReplaceListed(tail))
    decreases |tail|
  {
    if tail == "" {
    } else if |tail| >= 2 && tail[0] == '.' && tail[1] == '.' {
      TailReplaced(tail[2..]);
    } else {
      TailReplaced(tail[1..]);
    }
  }

  lemma {:induction false} CollapseKeepsTrimmed(s: string)
    requires IsAllTrimmed(s)
    ensures IsAllTrimmed(Collapse(s))
  {
    if |s| >= 2 {
      CollapseKeepsTrimmed(s[1..]);
    }
  }

  lemma {:induction false} CollapseSplits(a: string, b: string)
    requires a != "" && b != "" ==> a[|a| - 1] != '-' || b[0] != '-'
    ensures Collapse(a + b) == Collapse(a) + Collapse(b)
    decreases |a|
  {
    if a == "" {
      assert a + b == b;
    } else if b == "" {
      assert a + b == a;
    } else {
      assert (a + b)[1..] == a[1..] + b;
      CollapseSplits(a[1..], b);
      assert |a| == 1 ==> a == [a[0]];
    }
  }

  lemma {:induction false} CollapseKeepsLast(s: string)
    requires s != ""
    ensures Collapse(s) != "" && Collapse(s)[|Collapse(s)| - 1] == s[|s| - 1]
  {
    if |s| >= 2 {
      CollapseKeepsLast(s[1..]);
    }
  }

  lemma {:induction false} TrimRightDrops(s: string, tail: string)
    requires IsAllTrimmed(tail) && s != "" && !IsTrimmed(s[|s| - 1])
    ensures TrimRight(s + tail) == s
    decreases |tail|
  {
    if tail == "" {
      assert s + tail == s;
    } else {
      var n := |tail| - 1;
      assert (s + tail)[..|s + tail| - 1] == s + tail[..n];
      TrimRightDrops(s, tail[..n]);
    }
  }

  lemma PlainStays(word: string)
    requires IsAllPlain(word)
    ensures ReplaceListed(word) == word && Collapse(word) == word
  {
    assert !HasPair(word, '.') && !HasPair(word, '-');
    ReplacePointwise(word);
    CollapseNothing(word);
  }

  // What is left before the last word.
  function Front(head: string, dots: nat): string {
    Collapse(ReplaceListed(head + Dots(dots)))
  }

  lemma ReplacedSplit(tag: string, head: string, dots: nat, word: string, tail: string)
    requires IsSplit(tag, head, dots, word, tail)
    ensures ReplaceListed(tag) == ReplaceListed(head + Dots(dots)) + word + ReplaceListed(tail)
  {
    PlainStays(word);
    ReplaceSplits(head + Dots(dots), word);
    ReplaceSplits(head + Dots(dots) + word, tail);
  }

  lemma TailIsDropped(tag: string, front: string, tail: string)
    requires TagIsSafe(tag) && tag == front + tail && HasNoPlain(tail)
    ensures IsAllTrimmed(Collapse(ReplaceListed(tail)))
  {
    forall i | 0 <= i < |tail| ensures IsTagChar(tail[i]) {
      assert tag[|front| + i] == tail[i];
    }
    TailReplaced(tail);
    CollapseKeepsTrimmed(ReplaceListed(tail));
  }

  lemma StemOfSplit(tag: string, head: string, dots: nat, word: string, tail: string)
    requires TagIsSafe(tag) && IsSplit(tag, head, dots, word, tail)
    ensures BranchNameOf(tag) == Front(head, dots) + word
  {
    var front, rest := ReplaceListed(head + Dots(dots)), ReplaceListed(tail);
    ReplacedSplit(tag, head, dots, word, tail);
    PlainStays(word);
    TailIsDropped(tag, head + Dots(dots) + word, tail);
    CollapseSplits(front, word);
    CollapseSplits(front + word, rest);
    var c := Collapse(ReplaceListed(tag));
    SafeTagKeepsHead(tag);
    assert c[0] == tag[0] && TrimLeft(c) == c;
    TrimRightDrops(Front(head, dots) + word, Collapse(rest));
  }

  lemma EndOfFront(tag: string, head: string, dots: nat, word: string, tail: string)
    requires TagIsSafe(tag) && IsSplit(tag, head, dots, word, tail)
    ensures var f := Front(head, dots); f != "" ==> f[|f| - 1] == if dots % 2 == 1 then '.' else '-'
  {
    var r := ReplaceListed(head + Dots(dots));
    ReplaceSplits(head, Dots(dots));
    DotsReplaced(dots);
    if r != "" {
      CollapseKeepsLast(r);
      if dots == 0 && head != "" {
        var last := head[|head| - 1];
        assert head + Dots(0) == head;
        assert tag[|head| - 1] == last;
        assert last == '+' || last == '-';
        ReplaceSplits(head[..|head| - 1], [last]);
        assert head == head[..|head| - 1] + [last];
        assert ReplaceListed([last]) == "-";
      }
    }
  }

  lemma EndsInLock(front: string, word: string)
    requires word != "" && IsAllPlain(word) && (front != "" ==> IsTrimmed(front[|front| - 1]))
    ensures EndsIn(front + word, ".lock") <==> word == "lock" && front != "" && front[|front| - 1] == '.'
  {
    var s, end := front + word, ".lock";
    if EndsIn(s, end) {
      assert forall i :: 0 <= i < 5 ==> s[|s| - 5 + i] == end[i];
      assert s[|s| - 5] == '.';
      assert forall k :: |front| <= k < |s| ==> IsPlain(s[k]);
      assert front != "" && s[|front| - 1] == front[|front| - 1];
      assert |word| == 4;
      assert word == s[|front|..] == end[1..];
    }
  }

  lemma {:induction false} ReplacedIsSafe(s: string)
    requires IsSafeText(s)
    ensures IsSafeText(ReplaceListed(s))
    decreases |s|
  {
    if s == "" {
    } else if !IsListed(s[0]) && |s| >= 2 && s[0] == '.' && s[1] == '.' {
      ReplacedIsSafe(s[2..]);
    } else {
      ReplacedIsSafe(s[1..]);
    }
  }

  lemma {:induction false} CollapsedIsSafe(s: string)
    requires IsSafeText(s)
    ensures IsSafeText(Collapse(s))
  {
    if |s| >= 2 {
      CollapsedIsSafe(s[1..]);
    }
  }

  lemma BranchNameIsSafe(tag: string)
    requires TagIsSafe(tag)
    ensures IsSafeText(BranchNameOf(tag))
  {
    ReplacedIsSafe(tag);
    CollapsedIsSafe(ReplaceListed(tag));
    var c := Collapse(ReplaceListed(tag));
    TrimCuts(c);
    SafeTagKeepsHead(tag);
    var i, j :| 0 <= i <= j <= |c| && Trim(c) == c[i..j];
  }

  // The last word of the tag is "lock", after an odd number of dots.
  ghost predicate LeavesLock(tag: string) {
    exists head, dots, tail :: dots % 2 == 1 && IsSplit(tag, head, dots, "lock", tail)
  }

  lemma LockLeft(tag: string)
    requires TagIsSafe(tag)
    ensures EndsIn(BranchNameOf(tag), ".lock") <==> LeavesLock(tag)
  {
    hide TagIsSafe, IsAllPlain, EndsIn, BranchNameOf, Front;
    forall head, dots, word, tail | IsSplit(tag, head, dots, word, tail)
      ensures EndsIn(BranchNameOf(tag), ".lock") <==> word == "lock" && dots % 2 == 1
    {
      StemOfSplit(tag, head, dots, word, tail);
      EndOfFront(tag, head, dots, word, tail);
      EndsInLock(Front(head, dots), word);
      DotsAreInFront(head, dots);
    }
    var head, dots, word, tail := SplitTag(tag);
  }

  lemma DotsAreInFront(head: string, dots: nat)
    ensures dots > 0 ==> Front(head, dots) != ""
  {
    if dots > 0 {
      DotsReplaced(dots);
      LastDotsReplaced(head, dots);
    }
  }

  lemma {:induction false} LastDotsReplaced(head: string, dots: nat)
    requires dots > 0
    ensures ReplaceListed(head + Dots(dots)) != ""
  {
    assert head + Dots(dots) != "";
  }

  // For a tag that CreateDeployPR accepts, git accepts the branch component unless the tag
  // ends in ".lock": what follows the last word, and pairs of dots before it, do not count.
  lemma SafeTagNamesRef(tag: string)
    requires TagIsSafe(tag)
    ensures IsRefComponent(BranchNameOf(tag)) <==> !LeavesLock(tag)
  {
    LockLeft(tag);
    BranchNameIsSafe(tag);
    BranchNameIsClean(tag);
    hide LeavesLock, BranchNameOf, TagIsSafe;
    var s := BranchNameOf(tag);
    forall i | 0 <= i < |s| ensures s[i] > ' ' && s[i] != '\U{7F}' && s[i] !in "~^:?*[\\/" && s[i] != '@' {
      assert IsTagChar(s[i]) && !IsListed(s[i]);
    }
  }

  lemma CleanLockIsLeft(tag: string)
    requires IsCleanBranch(tag) && EndsIn(tag, ".lock")
    ensures BranchNameOf(tag) == tag && !IsRefComponent(tag)
  {
    FixpointIffClean(tag);
  }

  // A tag that the check accepts, whose branch git refuses.
  lemma LockIsNotReplaced()
    ensures TagIsSafe("v1.lock") && BranchNameOf("v1.lock") == "v1.lock" && !IsRefComponent("v1.lock")
  {
    hide BranchNameOf, IsRefComponent;
    assert "v1.lock"[2..] == ".lock";
    CleanLockIsLeft("v1.lock");
  }

  // --- GitHub markdown ---

  function EscapeMarkdownChar(c: char): string {
    match c
    case '@' => "\\@"
    case '#' => "\\#"
    case '[' => "\\["
    case ']' => "\\]"
    case '<' => "&lt;"
    case '>' => "&gt;"
    case _ => [c]
  }

  function EscapeMarkdown(s: string): string {
    if s == "" then "" else EscapeMarkdownChar(s[0]) + EscapeMarkdown(s[1..])
  }

  // Length of the UTF-8 encoding.
  function Utf8Len(c: char): (n: nat)
    ensures 1 <= n <= 4
  {
    if c < '\U{80}' then 1 else if c < '\U{800}' then 2 else if c < '\U{10000}' then 3 else 4
  }

  function ByteLen(s: string): nat {
    if s == "" then 0 else Utf8Len(s[0]) + ByteLen(s[1..])
  }

  // The first n bytes. A character cut in the middle leaves stray bytes, each of which
  // the JSON encoder of the API request turns into U+FFFD.
  function CutBytes(s: string, n: nat): string {
    if s == "" then ""
    else if Utf8Len(s[0]) <= n then [s[0]] + CutBytes(s[1..], n - Utf8Len(s[0]))
    else seq(n, _ => '\U{FFFD}')
  }

  const MARKDOWN_LIMIT := 1000

  function GitHubMarkdown(text: string): string {
    var s := EscapeMarkdown(text);
    if ByteLen(s) > MARKDOWN_LIMIT then CutBytes(s, MARKDOWN_LIMIT) + "..." else s
  }

  lemma {:induction false} EscapedHasNoAngle(s: string)
    ensures '<' !in EscapeMarkdown(s) && '>' !in EscapeMarkdown(s)
  {
    if s != "" {
      EscapedHasNoAngle(s[1..]);
    }
  }

  lemma {:induction false} CutKeepsOut(s: string, n: nat, c: char)
    requires c !in s && c != '\U{FFFD}'
    ensures c !in CutBytes(s, n)
  {
    if s != "" && Utf8Len(s[0]) <= n {
      CutKeepsOut(s[1..], n - Utf8Len(s[0]), c);
    }
  }

  // Free text can neither open nor close an HTML comment, cut or not.
  lemma MarkdownHasNoAngle(text: string)
    ensures '<' !in GitHubMarkdown(text) && '>' !in GitHubMarkdown(text)
  {
    var s := EscapeMarkdown(text);
    EscapedHasNoAngle(text);
    CutKeepsOut(s, MARKDOWN_LIMIT, '<');
    CutKeepsOut(s, MARKDOWN_LIMIT, '>');
  }

  // What markdown and HTML make of escaped text.
  function Unescape(s: string): string {
    if s == "" then ""
    else if "&lt;" <= s then "<" + Unescape(s[4..])
    else if "&gt;" <= s then ">" + Unescape(s[4..])
    else if |s| >= 2 && s[0] == '\\' && s[1] in "@#[]" then [s[1]] + Unescape(s[2..])
    else [s[0]] + Unescape(s[1..])
  }

  predicate IsSpecial(c: char) { c in "@#[]<>" }

  lemma EscapedHead(c: char, rest: string)
    requires c != '\\' && c != '&'
    ensures Unescape(EscapeMarkdownChar(c) + rest) == [c] + Unescape(rest)
  {
    var e := EscapeMarkdownChar(c);
    assert (e + rest)[|e|..] == rest;
    assert e + rest != "" && (e + rest)[0] == e[0];
    if c == '<' || c == '>' {
      assert (e + rest)[..4] == e;
      assert c == '>' ==> (e + rest)[1] == 'g';
    } else if IsSpecial(c) {
      assert (e + rest)[1] == c;
    }
  }

  // Text that fits and brings no backslash and no ampersand of its own is shown as it was written.
  lemma {:induction false} EscapedReadsBack(text: string)
    requires '\\' !in text && '&' !in text
    ensures Unescape(EscapeMarkdown(text)) == text
    ensures ByteLen(EscapeMarkdown(text)) <= 1000 ==> Unescape(GitHubMarkdown(text)) == text
  {
    if text != "" {
      EscapedReadsBack(text[1..]);
      EscapedHead(text[0], EscapeMarkdown(text[1..]));
    }
  }

  // Each character that mentions or links is preceded by a backslash.
  predicate IsGuarded(s: string) {
    forall i :: 0 <= i < |s| && s[i] in "@#[]" ==> i > 0 && s[i - 1] == '\\'
  }

  lemma GuardedSplits(a: string, b: string)
    requires IsGuarded(a) && IsGuarded(b)
    ensures IsGuarded(a + b)
  {
    var s := a + b;
    forall i | 0 <= i < |s| && s[i] in "@#[]" ensures i > 0 && s[i - 1] == '\\' {
      if i >= |a| {
        assert s[i] == b[i - |a|];
        assert s[i - 1] == b[i - |a| - 1];
      }
    }
  }

  lemma {:induction false} EscapedIsGuarded(s: string)
    ensures IsGuarded(EscapeMarkdown(s))
  {
    if s != "" {
      EscapedIsGuarded(s[1..]);
      assert IsGuarded(EscapeMarkdownChar(s[0]));
      GuardedSplits(EscapeMarkdownChar(s[0]), EscapeMarkdown(s[1..]));
    }
  }

  lemma {:induction false} CutOf(s: string, n: nat) returns (k: nat, stray: nat)
    ensures k <= |s| && CutBytes(s, n) == s[..k] + seq(stray, _ => '\U{FFFD}')
  {
    if s == "" {
      k, stray := 0, 0;
    } else if Utf8Len(s[0]) <= n {
      k, stray := CutOf(s[1..], n - Utf8Len(s[0]));
      k := k + 1;
      assert s[..k] == [s[0]] + s[1..][..k - 1];
    } else {
      k, stray := 0, n;
    }
  }

  lemma PrefixIsGuarded(s: string, k: nat)
    requires IsGuarded(s) && k <= |s|
    ensures IsGuarded(s[..k])
  {
  }

  lemma StrayIsGuarded(stray: nat)
    ensures IsGuarded(seq(stray, _ => '\U{FFFD}')) && IsGuarded("...")
  {
  }

  // The cut may take away what follows a backslash, never the backslash alone.
  lemma MarkdownIsGuarded(text: string)
    ensures IsGuarded(GitHubMarkdown(text))
  {
    var s := EscapeMarkdown(text);
    EscapedIsGuarded(text);
    var k, stray := CutOf(s, MARKDOWN_LIMIT);
    hide IsGuarded;
    StrayIsGuarded(stray);
    PrefixIsGuarded(s, k);
    GuardedSplits(s[..k], seq(stray, _ => '\U{FFFD}'));
    GuardedSplits(CutBytes(s, MARKDOWN_LIMIT), "...");
  }
}
