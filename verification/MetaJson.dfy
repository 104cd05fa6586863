/**
 The flat JSON object kept in a pull request body: printed as Go's encoder prints a
 struct of strings (with HTML escaping), read back by a parser for objects whose values
 are all strings (sections 2, 4 and 7 of RFC 8259).
 */
module MetaJson {
  import opened Wrappers

  datatype PRMeta = PRMeta(requesterSlackID: string, app: string, environment: string, tag: string)

  const EMPTY_META := PRMeta("", "", "", "")

  // --- printing ---

  function HexDigit(n: nat): (c: char)
    requires n < 16
    ensures HexValue(c) == Some(n)
    ensures c != '>' && c != '\n' && c != '"'
  {
    "0123456789abcdef"[n]
  }

  function HexValue(c: char): (n: Option<nat>)
    ensures n.Some? ==> n.value < 16
  {
    if '0' <= c <= '9' then Some((c - '0') as nat)
    else if 'a' <= c <= 'f' then Some(10 + (c - 'a') as nat)
    else if 'A' <= c <= 'F' then Some(10 + (c - 'A') as nat)
    else None
  }

  function EscapeChar(c: char): string {
    if c == '"' || c == '\\' then ['\\', c]
    else if c == '\U{8}' then "\\b"
    else if c == '\U{C}' then "\\f"
    else if c == '\n' then "\\n"
    else if c == '\r' then "\\r"
    else if c == '\t' then "\\t"
    else if c < ' ' || c == '<' || c == '>' || c == '&' then
      "\\u00" + [HexDigit(c as nat / 16), HexDigit(c as nat % 16)]
    else if c == '\U{2028}' || c == '\U{2029}' then "\\u202" + [HexDigit(c as nat % 16)]
    else [c]
  }

  function Escape(s: string): string {
    if s == "" then "" else EscapeChar(s[0]) + Escape(s[1..])
  }

  function Quote(s: string): string {
    "\"" + Escape(s) + "\""
  }

  const KEY_REQUESTER := "requester_id"
  const KEY_APP := "app"
  const KEY_ENVIRONMENT := "environment"
  const KEY_TAG := "tag"

  // Field names with their values, in the order of the struct's declaration.
  type Fields = seq<(string, string)>

  function FieldsOf(m: PRMeta): Fields {
    [(KEY_REQUESTER, m.requesterSlackID), (KEY_APP, m.app),
     (KEY_ENVIRONMENT, m.environment), (KEY_TAG, m.tag)]
  }

  function PrintField(key: string, value: string): string {
    Quote(key) + ":" + Quote(value)
  }

  // What stands between the braces.
  function PrintFields(fs: Fields): string
    requires fs != []
  {
    PrintField(fs[0].0, fs[0].1) + if |fs| == 1 then "" else "," + PrintFields(fs[1..])
  }

  function Print(m: PRMeta): string {
    "{" + PrintFields(FieldsOf(m)) + "}"
  }

  function Next(field: string, rest: string): string { field + ("," + rest) }

  lemma PrintedFirst(f: (string, string), rest: Fields)
    requires rest != []
    ensures PrintFields([f] + rest) == Next(PrintField(f.0, f.1), PrintFields(rest))
  {
    assert ([f] + rest)[1..] == rest;
  }

  lemma PrintedLast(f: (string, string))
    ensures PrintFields([f]) == PrintField(f.0, f.1)
  {
    assert PrintFields([f]) == PrintField(f.0, f.1) + "";
  }

  // An object of four fields, with their names in quotes as they are.
  function Spelled(a: (string, string), b: (string, string), c: (string, string), d: (string, string)): string {
    "{" + Next(NamedField(a), Next(NamedField(b), Next(NamedField(c), NamedField(d)))) + "}"
  }

  lemma FourAreSpelled(a: (string, string), b: (string, string), c: (string, string), d: (string, string))
    requires IsName(a.0) && IsName(b.0) && IsName(c.0) && IsName(d.0)
    ensures "{" + PrintFields([a, b, c, d]) + "}" == Spelled(a, b, c, d)
  {
    FieldIsNamed(a);
    FieldIsNamed(b);
    FieldIsNamed(c);
    FieldIsNamed(d);
    hide NamedField, PrintField, PrintFields, IsName, Next;
    PrintedLast(d);
    PrintedFirst(c, [d]);
    assert [c] + [d] == [c, d];
    PrintedFirst(b, [c, d]);
    assert [b] + [c, d] == [b, c, d];
    PrintedFirst(a, [b, c, d]);
    assert [a] + [b, c, d] == [a, b, c, d];
  }

  // The object that is printed, name by name.
  lemma PrintSpellsOut(m: PRMeta)
    ensures Print(m) == Spelled(("requester_id", m.requesterSlackID), ("app", m.app),
                                ("environment", m.environment), ("tag", m.tag))
  {
    hide PrintFields, Spelled;
    FourAreSpelled(("requester_id", m.requesterSlackID), ("app", m.app),
                   ("environment", m.environment), ("tag", m.tag));
  }

  function NamedField(f: (string, string)): string {
    "\"" + f.0 + "\":" + Quote(f.1)
  }

  predicate IsName(s: string) {
    forall i :: 0 <= i < |s| ==> 'a' <= s[i] <= 'z' || s[i] == '_'
  }

  lemma {:induction false} NameStays(s: string)
    requires IsName(s)
    ensures Escape(s) == s
  {
    if s != "" {
      NameStays(s[1..]);
    }
  }

  lemma FieldIsNamed(f: (string, string))
    requires IsName(f.0)
    ensures PrintField(f.0, f.1) == NamedField(f)
  {
    NameStays(f.0);
  }

  // --- parsing ---

  function Hex4(s: string): (n: Option<nat>)
    requires |s| >= 4
    ensures n.Some? ==> n.value < 0x10000
  {
    match (HexValue(s[0]), HexValue(s[1]), HexValue(s[2]), HexValue(s[3]))
    case (Some(a), Some(b), Some(c), Some(d)) => Some(((a * 16 + b) * 16 + c) * 16 + d)
    case _ => None
  }

  predicate IsSurrogate(n: nat) {
    0xD800 <= n < 0xE000
  }

  // A \u escape after its 'u': the character and what follows. A surrogate pair is one
  // character; a lone surrogate reads as U+FFFD.
  function UnescapeUnicode(s: string): (r: Option<(char, string)>)
    ensures r.Some? ==> |r.value.1| < |s|
  {
    if |s| < 4 || Hex4(s).None? then None
    else
      var n := Hex4(s).value;
      var rest := s[4..];
      if !IsSurrogate(n) then Some((n as char, rest))
      else if n < 0xDC00 && |rest| >= 6 && rest[0] == '\\' && rest[1] == 'u'
              && Hex4(rest[2..]).Some? && 0xDC00 <= Hex4(rest[2..]).value < 0xE000 then
        Some(((0x10000 + (n - 0xD800) * 0x400 + (Hex4(rest[2..]).value - 0xDC00)) as char, rest[6..]))
      else Some(('\U{FFFD}', rest))
  }

  function Unescape(s: string): (r: Option<(char, string)>)
    ensures r.Some? ==> |r.value.1| < |s|
  {
    if s == "" then None
    else if s[0] == '"' || s[0] == '\\' || s[0] == '/' then Some((s[0], s[1..]))
    else if s[0] == 'b' then Some(('\U{8}', s[1..]))
    else if s[0] == 'f' then Some(('\U{C}', s[1..]))
    else if s[0] == 'n' then Some(('\n', s[1..]))
    else if s[0] == 'r' then Some(('\r', s[1..]))
    else if s[0] == 't' then Some(('\t', s[1..]))
    else if s[0] == 'u' then UnescapeUnicode(s[1..])
    else None
  }

  // A string after its opening quote: its value and what follows the closing quote.
  function ParseString(s: string): (r: Option<(string, string)>)
    ensures r.Some? ==> |r.value.1| < |s|
    decreases |s|
  {
    if s == "" || s[0] < ' ' then None
    else if s[0] == '"' then Some(("", s[1..]))
    else
      var head := if s[0] == '\\' then Unescape(s[1..]) else Some((s[0], s[1..]));
      match head
      case None => None
      case Some((c, rest)) =>
        match ParseString(rest)
        case None => None
        case Some((t, after)) => Some(([c] + t, after))
  }

  function SkipSpace(s: string): (r: string)
    ensures |r| <= |s|
  {
    if s != "" && s[0] in " \t\n\r" then SkipSpace(s[1..]) else s
  }

  function ParseQuoted(s: string): (r: Option<(string, string)>)
    ensures r.Some? ==> |r.value.1| < |s|
  {
    var t := SkipSpace(s);
    if t != "" && t[0] == '"' then ParseString(t[1..]) else None
  }

  // Unknown keys are ignored; a repeated key is overwritten.
  function Assign(m: PRMeta, key: string, value: string): PRMeta {
    if key == KEY_REQUESTER then m.(requesterSlackID := value)
    else if key == KEY_APP then m.(app := value)
    else if key == KEY_ENVIRONMENT then m.(environment := value)
    else if key == KEY_TAG then m.(tag := value)
    else m
  }

  // One "key": value pair and what follows it.
  function ParseField(s: string): (r: Option<(string, string, string)>)
    ensures r.Some? ==> |r.value.2| < |s|
  {
    match ParseQuoted(s)
    case None => None
    case Some((key, s1)) =>
      var s2 := SkipSpace(s1);
      if s2 == "" || s2[0] != ':' then None
      else
        match ParseQuoted(s2[1..])
        case None => None
        case Some((value, s3)) => Some((key, value, s3))
  }

  // One or more fields and the closing brace, after which only space may follow.
  function ParseFields(s: string, m: PRMeta): Option<PRMeta>
    decreases |s|
  {
    match ParseField(s)
    case None => None
    case Some((key, value, s3)) =>
      var s4 := SkipSpace(s3);
      if s4 == "" then None
      else if s4[0] == ',' then ParseFields(s4[1..], Assign(m, key, value))
      else if s4[0] == '}' && SkipSpace(s4[1..]) == "" then Some(Assign(m, key, value))
      else None
  }

  function Parse(s: string): Option<PRMeta> {
    var t := SkipSpace(s);
    if t == "" || t[0] != '{' then None
    else
      var u := SkipSpace(t[1..]);
      if u != "" && u[0] == '}' then
        if SkipSpace(u[1..]) == "" then Some(EMPTY_META) else None
      else ParseFields(u, EMPTY_META)
  }

  // --- reading back what was printed ---

  lemma UnescapeOfShort(c: char, rest: string)
    requires |EscapeChar(c)| == 2
    ensures EscapeChar(c)[0] == '\\' && Unescape([EscapeChar(c)[1]] + rest) == Some((c, rest))
  {
    hide UnescapeUnicode;
    assert ([EscapeChar(c)[1]] + rest)[1..] == rest;
  }

  lemma Hex4OfEscape(c: char, rest: string)
    requires |EscapeChar(c)| > 2
    ensures |EscapeChar(c)| == 6 && EscapeChar(c)[..2] == "\\u"
    ensures Hex4(EscapeChar(c)[2..] + rest) == Some(c as nat) && !IsSurrogate(c as nat)
  {
    assert HexValue('0') == Some(0) && HexValue('2') == Some(2);
  }

  lemma UnescapeOfHex(digits: string, c: char, rest: string)
    requires |digits| == 4 && Hex4(digits + rest) == Some(c as nat) && !IsSurrogate(c as nat)
    ensures Unescape("u" + (digits + rest)) == Some((c, rest))
  {
    hide Hex4;
    assert ("u" + (digits + rest))[1..] == digits + rest;
    assert (digits + rest)[4..] == rest;
  }

  lemma AfterBackslash(e: string, rest: string)
    requires |e| >= 2
    ensures (e + rest)[1..] == [e[1]] + (e[2..] + rest)
  {
  }

  lemma UnescapeOfEscape(c: char, rest: string)
    requires EscapeChar(c) != [c]
    ensures EscapeChar(c)[0] == '\\'
    ensures Unescape((EscapeChar(c) + rest)[1..]) == Some((c, rest))
  {
    var e := EscapeChar(c);
    AfterBackslash(e, rest);
    if |e| == 2 {
      UnescapeOfShort(c, rest);
      hide EscapeChar, Unescape;
      assert e[2..] + rest == rest;
    } else {
      Hex4OfEscape(c, rest);
      UnescapeOfHex(e[2..], c, rest);
      hide EscapeChar, Unescape, Hex4;
      assert e[1] == e[..2][1] == 'u';
    }
  }

  lemma {:induction false} ParseOfEscaped(s: string, rest: string)
    ensures ParseString(Escape(s) + "\"" + rest) == Some((s, rest))
  {
    if s == "" {
      assert Escape(s) + "\"" + rest == "\"" + rest;
    } else {
      var tail := Escape(s[1..]) + "\"" + rest;
      var text := Escape(s) + "\"" + rest;
      assert text == EscapeChar(s[0]) + tail;
      ParseOfEscaped(s[1..], rest);
      if EscapeChar(s[0]) == [s[0]] {
        assert text[1..] == tail;
      } else {
        UnescapeOfEscape(s[0], tail);
      }
      assert s == [s[0]] + s[1..];
    }
  }

  lemma ParseOfQuoted(s: string, rest: string)
    ensures ParseQuoted(Quote(s) + rest) == Some((s, rest))
  {
    var text := Quote(s) + rest;
    assert text[0] == '"';
    assert text[1..] == Escape(s) + "\"" + rest;
    ParseOfEscaped(s, rest);
  }

  lemma ParseOfField(key: string, value: string, rest: string)
    ensures ParseField(PrintField(key, value) + rest) == Some((key, value, rest))
  {
    hide Quote, ParseQuoted, ParseString;
    var afterKey := ":" + (Quote(value) + rest);
    assert PrintField(key, value) + rest == Quote(key) + afterKey;
    ParseOfQuoted(key, afterKey);
    assert SkipSpace(afterKey) == afterKey;
    assert afterKey[1..] == Quote(value) + rest;
    ParseOfQuoted(value, rest);
  }

  function AssignAll(m: PRMeta, fs: Fields): PRMeta
    decreases |fs|
  {
    if fs == [] then m else AssignAll(Assign(m, fs[0].0, fs[0].1), fs[1..])
  }

  lemma ParseFieldsLast(key: string, value: string, m: PRMeta)
    ensures ParseFields(PrintField(key, value) + "}", m) == Some(Assign(m, key, value))
  {
    ParseOfField(key, value, "}");
  }

  lemma ParseFieldsNext(key: string, value: string, more: string, m: PRMeta)
    ensures ParseFields(PrintField(key, value) + ("," + more), m)
         == ParseFields(more, Assign(m, key, value))
  {
    ParseOfField(key, value, "," + more);
    assert SkipSpace("," + more) == "," + more;
    assert ("," + more)[1..] == more;
  }

  lemma {:induction false} ParseOfFields(fs: Fields, m: PRMeta)
    requires fs != []
    ensures ParseFields(PrintFields(fs) + "}", m) == Some(AssignAll(m, fs))
    decreases |fs|
  {
    var (key, value) := fs[0];
    if |fs| == 1 {
      ParseFieldsLast(key, value, m);
      assert PrintFields(fs) + "}" == PrintField(key, value) + "}";
      assert fs[1..] == [];
    } else {
      var more := PrintFields(fs[1..]) + "}";
      assert PrintFields(fs) + "}" == PrintField(key, value) + ("," + more);
      ParseFieldsNext(key, value, more, m);
      ParseOfFields(fs[1..], Assign(m, key, value));
    }
  }

  lemma AssignFieldsOf(m: PRMeta)
    ensures AssignAll(EMPTY_META, FieldsOf(m)) == m
  {
    var fs := FieldsOf(m);
    var m1 := EMPTY_META.(requesterSlackID := m.requesterSlackID);
    var m2 := m1.(app := m.app);
    var m3 := m2.(environment := m.environment);
    assert AssignAll(m3, fs[3..]) == m;
    assert fs[2..][1..] == fs[3..];
    assert AssignAll(m2, fs[2..]) == m;
    assert fs[1..][1..] == fs[2..];
    assert AssignAll(m1, fs[1..]) == m;
  }

  lemma ParseOfObject(fs: Fields)
    requires fs != []
    ensures Parse("{" + PrintFields(fs) + "}") == Some(AssignAll(EMPTY_META, fs))
  {
    var body := PrintFields(fs) + "}";
    assert body[0] == '"';
    assert "{" + PrintFields(fs) + "}" == "{" + body;
    assert SkipSpace("{" + body) == "{" + body;
    assert ("{" + body)[1..] == body;
    assert SkipSpace(body) == body;
    ParseOfFields(fs, EMPTY_META);
  }

  // Reading what was printed gives the metadata back, whatever its strings are.
  lemma ParseOfPrinted(m: PRMeta)
    ensures Parse(Print(m)) == Some(m)
  {
    ParseOfObject(FieldsOf(m));
    AssignFieldsOf(m);
  }

  predicate IsInert(s: string) {
    '>' !in s && '\n' !in s
  }

  lemma {:induction false} EscapedIsInert(s: string)
    ensures IsInert(Escape(s))
  {
    if s != "" {
      EscapedIsInert(s[1..]);
      assert IsInert(EscapeChar(s[0]));
    }
  }

  // The printed object can neither close an HTML comment nor break a line.
  // What Go's encoder never leaves in a string: control characters, the characters that HTML
  // gives a meaning, and the two line separators.
  predicate IsHtmlSafe(s: string) {
    forall i :: 0 <= i < |s| ==>
      s[i] >= ' ' && s[i] !in "<>&" && s[i] != '\U{2028}' && s[i] != '\U{2029}'
  }

  lemma {:induction false} EscapedIsHtmlSafe(s: string)
    ensures IsHtmlSafe(Escape(s))
  {
    if s != "" {
      EscapedIsHtmlSafe(s[1..]);
      CharIsHtmlSafe(s[0]);
    }
  }

  lemma CharIsHtmlSafe(c: char)
    ensures IsHtmlSafe(EscapeChar(c))
  {
  }

  lemma JoinedIsHtmlSafe(s: string, t: string)
    requires IsHtmlSafe(s) && IsHtmlSafe(t)
    ensures IsHtmlSafe(s + t)
  {
  }

  lemma FieldIsHtmlSafe(key: string, value: string)
    ensures IsHtmlSafe(PrintField(key, value))
  {
    EscapedIsHtmlSafe(key);
    EscapedIsHtmlSafe(value);
  }

  lemma {:induction false} FieldsAreHtmlSafe(fs: Fields)
    requires fs != []
    ensures IsHtmlSafe(PrintFields(fs))
  {
    FieldIsHtmlSafe(fs[0].0, fs[0].1);
    if |fs| > 1 {
      FieldsAreHtmlSafe(fs[1..]);
      hide IsHtmlSafe;
      assert IsHtmlSafe(",") by { CommaIsHtmlSafe(); }
      JoinedIsHtmlSafe(",", PrintFields(fs[1..]));
      JoinedIsHtmlSafe(PrintField(fs[0].0, fs[0].1), "," + PrintFields(fs[1..]));
    }
  }

  lemma CommaIsHtmlSafe()
    ensures IsHtmlSafe(",")
  {
  }

  lemma {:induction false} PrintedIsInert(fs: Fields)
    requires fs != []
    ensures IsInert(PrintFields(fs))
  {
    EscapedIsInert(fs[0].0);
    EscapedIsInert(fs[0].1);
    if |fs| > 1 {
      PrintedIsInert(fs[1..]);
    }
  }
}
