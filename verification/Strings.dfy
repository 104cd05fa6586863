/** The string operations of Go's standard library that the configuration code uses. */
module Strings {
  // unicode.IsSpace
  predicate IsSpace(c: char) {
    || c == ' ' || '\t' <= c <= '\r'
    || c == '\U{85}' || c == '\U{A0}' || c == '\U{1680}' || '\U{2000}' <= c <= '\U{200A}'
    || c == '\U{2028}' || c == '\U{2029}' || c == '\U{202F}' || c == '\U{205F}' || c == '\U{3000}'
  }

  function TrimSpaceLeft(s: string): string {
    if s != "" && IsSpace(s[0]) then TrimSpaceLeft(s[1..]) else s
  }

  function TrimSpaceRight(s: string): string {
    if s != "" && IsSpace(s[|s| - 1]) then TrimSpaceRight(s[..|s| - 1]) else s
  }

  // strings.TrimSpace
  function TrimSpace(s: string): string {
    TrimSpaceRight(TrimSpaceLeft(s))
  }

  predicate IsTrimmed(s: string) {
    s != "" && !IsSpace(s[0]) && !IsSpace(s[|s| - 1])
  }

  lemma TrimSpaceOfTrimmed(s: string)
    requires IsTrimmed(s)
    ensures TrimSpace(s) == s
  {
  }

  lemma {:induction false} TrimSpaceRightTrims(s: string)
    requires s == "" || !IsSpace(s[0])
    ensures TrimSpaceRight(s) == "" || IsTrimmed(TrimSpaceRight(s))
    decreases |s|
  {
    if s != "" && IsSpace(s[|s| - 1]) {
      TrimSpaceRightTrims(s[..|s| - 1]);
    }
  }

  lemma {:induction false} TrimSpaceLeftTrims(s: string)
    ensures TrimSpaceLeft(s) == "" || !IsSpace(TrimSpaceLeft(s)[0])
    decreases |s|
  {
    if s != "" && IsSpace(s[0]) {
      TrimSpaceLeftTrims(s[1..]);
    }
  }

  lemma TrimSpaceTrims(s: string)
    ensures TrimSpace(s) == "" || IsTrimmed(TrimSpace(s))
  {
    TrimSpaceLeftTrims(s);
    TrimSpaceRightTrims(TrimSpaceLeft(s));
  }

  predicate IsBlank(s: string) {
    forall i :: 0 <= i < |s| ==> IsSpace(s[i])
  }

  lemma {:induction false} LeftCuts(s: string) returns (cut: string)
    ensures IsBlank(cut) && s == cut + TrimSpaceLeft(s)
    decreases |s|
  {
    cut := "";
    if s != "" && IsSpace(s[0]) {
      var rest := LeftCuts(s[1..]);
      cut := [s[0]] + rest;
      assert s == [s[0]] + s[1..];
    }
  }

  lemma {:induction false} RightCuts(s: string) returns (cut: string)
    ensures IsBlank(cut) && s == TrimSpaceRight(s) + cut
    decreases |s|
  {
    cut := "";
    if s != "" && IsSpace(s[|s| - 1]) {
      var rest := RightCuts(s[..|s| - 1]);
      cut := rest + [s[|s| - 1]];
      assert s == s[..|s| - 1] + [s[|s| - 1]];
    }
  }

  // Only blanks are trimmed, and all of them on both sides.
  lemma TrimSpaceCutsBlanks(s: string) returns (head: string, tail: string)
    ensures IsBlank(head) && IsBlank(tail) && s == head + TrimSpace(s) + tail
    ensures TrimSpace(s) == "" || IsTrimmed(TrimSpace(s))
  {
    TrimSpaceTrims(s);
    head := LeftCuts(s);
    tail := RightCuts(TrimSpaceLeft(s));
  }

  // strings.ReplaceAll
  function ReplaceAll(s: string, what: string, with: string): string
    requires what != ""
  {
    if |s| < |what| then s
    else if what <= s then with + ReplaceAll(s[|what|..], what, with)
    else [s[0]] + ReplaceAll(s[1..], what, with)
  }
}
