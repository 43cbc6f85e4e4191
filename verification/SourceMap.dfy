/** The source text inside a source map: how the compiler prints it, and how the
    command line finds and reads it again. */
module SourceMap {
  import opened Syntax

  // ---- printing strings --------------------------------------------------------------------

  /** The control characters of Unicode. */
  predicate IsControl(c: char) { c as int < 0x20 || 0x7f <= c as int < 0xa0 }

  function HexDigit(d: nat): char
    requires d < 16
  {
    "0123456789abcdef"[d]
  }

  function Hex4(n: nat): (s: string)
    requires n < 0x10000
    ensures |s| == 4
  {
    [HexDigit(n / 0x1000), HexDigit(n / 0x100 % 16), HexDigit(n / 16 % 16), HexDigit(n % 16)]
  }

  function Escaped(c: char): string {
    if c == '"' then "\\\""
    else if c == '\\' then "\\\\"
    else if c == '\n' then "\\n"
    else if c == '\r' then "\\r"
    else if c == '\t' then "\\t"
    else if IsControl(c) then "\\u" + Hex4(c as int)
    else [c]
  }

  function Encoded(s: string): string {
    if s == "" then "" else Escaped(s[0]) + Encoded(s[1..])
  }

  function Quoted(s: string): string { "\"" + Encoded(s) + "\"" }

  lemma {:induction false} EncodedConcat(a: string, b: string)
    ensures Encoded(a + b) == Encoded(a) + Encoded(b)
  {
    if a == "" {
      assert a + b == b;
    } else {
      assert (a + b)[1..] == a[1..] + b;
      EncodedConcat(a[1..], b);
    }
  }

  method JsonString(value: string) returns (out: string)
    ensures out == Quoted(value)
  {
    hide Escaped;
    out := "\"";
    for i := 0 to |value|
      invariant out == "\"" + Encoded(value[..i])
    {
      assert value[..i + 1] == value[..i] + [value[i]];
      EncodedConcat(value[..i], [value[i]]);
      assert Encoded([value[i]]) == Escaped(value[i]) by { assert [value[i]][1..] == ""; }
      out := out + Escaped(value[i]);
    }
    assert value[..|value|] == value;
    out := out + "\"";
  }

  // ---- reading strings ---------------------------------------------------------------------

  function DigitValue(c: char): Option<nat> {
    if '0' <= c <= '9' then Some(c as int - '0' as int)
    else if 'a' <= c <= 'f' then Some(c as int - 'a' as int + 10)
    else if 'A' <= c <= 'F' then Some(c as int - 'A' as int + 10)
    else None
  }

  function HexValue(s: string, n: nat): Option<nat> {
    if s == "" then Some(n)
    else
      match DigitValue(s[0])
      case Some(d) => HexValue(s[1..], 16 * n + d)
      case None => None
  }

  /** Four hexadecimal digits; a plus sign may stand for the first. */
  function CodePoint(s: string): Option<nat>
    requires |s| == 4
  {
    HexValue(if s[0] == '+' then s[1..] else s, 0)
  }

  /** The character of a number, or the replacement character if it has none. */
  function Character(n: nat): char {
    if n < 0xd800 || 0xe000 <= n < 0x110000 then n as char else '\U{FFFD}'
  }

  datatype Read = Piece(text: string, next: nat) | Closed(next: nat) | Malformed

  /** What one character or escape at the cursor reads as. */
  function ReadAt(t: string, cursor: nat): Read
    requires cursor < |t|
  {
    if t[cursor] == '"' then Closed(cursor + 1)
    else if t[cursor] != '\\' then Piece([t[cursor]], cursor + 1)
    else if cursor + 1 >= |t| then Malformed
    else
      var e := t[cursor + 1];
      if e == '"' || e == '\\' || e == '/' then Piece([e], cursor + 2)
      else if e == 'b' then Piece("\U{0008}", cursor + 2)
      else if e == 'f' then Piece("\U{000C}", cursor + 2)
      else if e == 'n' then Piece("\n", cursor + 2)
      else if e == 'r' then Piece("\r", cursor + 2)
      else if e == 't' then Piece("\t", cursor + 2)
      else if e == 'u' && cursor + 6 <= |t| && CodePoint(t[cursor + 2..cursor + 6]).Some? then
        Piece([Character(CodePoint(t[cursor + 2..cursor + 6]).value)], cursor + 6)
      else Malformed
  }

  /** The rest of a string from behind its opening quote. */
  function Rest(t: string, cursor: nat): Option<(string, nat)>
    decreases |t| - cursor
  {
    if cursor >= |t| then None
    else
      match ReadAt(t, cursor)
      case Closed(next) => Some(("", next))
      case Malformed => None
      case Piece(text, next) =>
        match Rest(t, next)
        case None => None
        case Some(r) => Some((text + r.0, r.1))
  }

  function Parsed(t: string, start: nat): Option<(string, nat)> {
    if start < |t| && t[start] == '"' then Rest(t, start + 1) else None
  }

  function After(out: string, rest: Option<(string, nat)>): Option<(string, nat)> {
    match rest
    case None => None
    case Some(r) => Some((out + r.0, r.1))
  }

  lemma Nothing(rest: Option<(string, nat)>)
    ensures After("", rest) == rest
  {
    if rest.Some? { assert "" + rest.value.0 == rest.value.0; }
  }

  method ParseJsonString(t: string, start: nat) returns (r: Option<(string, nat)>)
    ensures r == Parsed(t, start)
  {
    hide ReadAt;
    if start >= |t| || t[start] != '"' {
      return None;
    }
    var out := "";
    var cursor := start + 1;
    Nothing(Rest(t, cursor));
    while cursor < |t|
      invariant Rest(t, start + 1) == After(out, Rest(t, cursor))
      decreases |t| - cursor
    {
      ReadForward(t, cursor);
      match ReadAt(t, cursor) {
        case Closed(next) =>
          assert out + "" == out;
          return Some((out, next));
        case Malformed => return None;
        case Piece(text, next) =>
          Shift(out, text, Rest(t, next));
          out := out + text;
          cursor := next;
      }
    }
    return None;
  }

  lemma ReadForward(t: string, cursor: nat)
    requires cursor < |t|
    ensures ReadAt(t, cursor).Piece? ==> ReadAt(t, cursor).next > cursor
  {
  }

  lemma Shift(out: string, text: string, rest: Option<(string, nat)>)
    ensures rest.Some? ==> out + (text + rest.value.0) == (out + text) + rest.value.0
  {
  }

  // ---- the round trip ------------------------------------------------------------------------

  lemma HexDigitValue(d: nat)
    requires d < 16
    ensures DigitValue(HexDigit(d)) == Some(d) && HexDigit(d) != '+'
  {
  }

  lemma HexFour(a: char, b: char, c: char, d: char)
    requires DigitValue(a).Some? && DigitValue(b).Some? && DigitValue(c).Some? && DigitValue(d).Some?
    ensures HexValue([a, b, c, d], 0)
         == Some(16 * (16 * (16 * DigitValue(a).value + DigitValue(b).value) + DigitValue(c).value)
             + DigitValue(d).value)
  {
    hide DigitValue;
    assert [a, b, c, d][1..] == [b, c, d] && [b, c, d][1..] == [c, d] && [c, d][1..] == [d] && [d][1..] == "";
    var m := 16 * (16 * DigitValue(a).value + DigitValue(b).value) + DigitValue(c).value;
    assert HexValue([d], m) == HexValue("", 16 * m + DigitValue(d).value);
    assert HexValue([c, d], 16 * DigitValue(a).value + DigitValue(b).value) == HexValue([d], m);
    assert HexValue([b, c, d], DigitValue(a).value) == HexValue([c, d], 16 * DigitValue(a).value + DigitValue(b).value);
    assert HexValue([a, b, c, d], 0) == HexValue([b, c, d], DigitValue(a).value);
  }

  lemma HexDigits(n: nat)
    requires n < 0x10000
    ensures 16 * (16 * (16 * (n / 0x1000) + n / 0x100 % 16) + n / 16 % 16) + n % 16 == n
  {
    assert n / 0x100 / 16 == n / 0x1000 && n / 16 / 16 == n / 0x100;
  }

  lemma CodePointOfHex4(n: nat)
    requires n < 0x10000
    ensures CodePoint(Hex4(n)) == Some(n)
  {
    hide HexValue, DigitValue, HexDigit;
    HexDigitValue(n / 0x1000);
    HexDigitValue(n / 0x100 % 16);
    HexDigitValue(n / 16 % 16);
    HexDigitValue(n % 16);
    HexFour(HexDigit(n / 0x1000), HexDigit(n / 0x100 % 16), HexDigit(n / 16 % 16), HexDigit(n % 16));
    HexDigits(n);
  }

  /** `f` stands in `t` at `i`. */
  predicate Stands(t: string, i: nat, f: string) {
    i + |f| <= |t| && t[i..i + |f|] == f
  }

  lemma StandsSplit(t: string, i: nat, a: string, b: string)
    requires Stands(t, i, a + b)
    ensures Stands(t, i, a) && Stands(t, i + |a|, b)
  {
    var f := a + b;
    assert t[i..i + |a|] == t[i..i + |f|][..|a|] == a;
    assert t[i + |a|..i + |a| + |b|] == t[i..i + |f|][|a|..] == b;
  }

  lemma StandsAt(t: string, i: nat, f: string, k: nat)
    requires Stands(t, i, f) && k < |f|
    ensures i + k < |t| && t[i + k] == f[k]
  {
    assert t[i + k] == t[i..i + |f|][k];
  }

  /** An escaped character reads as itself. */
  lemma ReadEscaped(t: string, i: nat, c: char)
    requires Stands(t, i, Escaped(c))
    ensures i < |t| && ReadAt(t, i) == Piece([c], i + |Escaped(c)|)
  {
    var f := Escaped(c);
    StandsAt(t, i, f, 0);
    if |f| > 1 { StandsAt(t, i, f, 1); }
    if |f| == 6 {
      CodePointOfHex4(c as int);
      assert t[i + 2..i + 6] == f[2..] == Hex4(c as int);
    }
  }

  lemma {:induction false} RestOfEncoded(t: string, i: nat, s: string)
    requires Stands(t, i, Encoded(s) + "\"")
    ensures Rest(t, i) == Some((s, i + |Encoded(s)| + 1))
    decreases s
  {
    hide ReadAt, Escaped;
    if s == "" {
      assert Encoded(s) + "\"" == "\"";
      ReadQuote(t, i);
    } else {
      assert Encoded(s) + "\"" == Escaped(s[0]) + (Encoded(s[1..]) + "\"");
      StandsSplit(t, i, Escaped(s[0]), Encoded(s[1..]) + "\"");
      ReadEscaped(t, i, s[0]);
      RestOfEncoded(t, i + |Escaped(s[0])|, s[1..]);
      assert [s[0]] + s[1..] == s;
    }
  }

  lemma ReadQuote(t: string, i: nat)
    requires Stands(t, i, "\"")
    ensures i < |t| && ReadAt(t, i) == Closed(i + 1)
  {
    assert t[i] == t[i..i + 1][0];
  }

  /** Parsing inverts printing, for every string, wherever it stands. */
  lemma ParsedQuoted(t: string, i: nat, s: string)
    requires Stands(t, i, Quoted(s))
    ensures Parsed(t, i) == Some((s, i + |Quoted(s)|))
  {
    hide Encoded, Rest;
    assert Quoted(s) == "\"" + (Encoded(s) + "\"");
    StandsSplit(t, i, "\"", Encoded(s) + "\"");
    StandsAt(t, i, "\"", 0);
    RestOfEncoded(t, i + 1, s);
  }

  // ---- the map around the text ---------------------------------------------------------------

  /** The white space of Unicode. */
  predicate IsSpace(c: char) {
    var n := c as int;
    9 <= n <= 13 || n == 0x20 || n == 0x85 || n == 0xa0 || n == 0x1680 || 0x2000 <= n <= 0x200a
    || n == 0x2028 || n == 0x2029 || n == 0x202f || n == 0x205f || n == 0x3000
  }

  function Trimmed(s: string): (r: string)
    ensures r != "" ==> !IsSpace(r[0]) && !IsSpace(r[|r| - 1])
    ensures s != "" && !IsSpace(s[0]) && !IsSpace(s[|s| - 1]) ==> r == s
  {
    if s == "" then ""
    else if IsSpace(s[0]) then Trimmed(s[1..])
    else if IsSpace(s[|s| - 1]) then Trimmed(s[..|s| - 1])
    else s
  }

  predicate EndsIn(s: string, suffix: string) {
    |suffix| <= |s| && s[|s| - |suffix|..] == suffix
  }

  /** The bytecode file a source file's map belongs to. */
  function OutputFile(file: string): string {
    var trimmed := Trimmed(file);
    if trimmed == "" then "bytecode.bin"
    else if EndsIn(trimmed, ".js") then trimmed[..|trimmed| - 3] + ".bin"
    else if EndsIn(trimmed, ".mjs") then trimmed[..|trimmed| - 4] + ".bin"
    else trimmed + ".bin"
  }

  /** Spaces around a text make no difference. */
  lemma {:induction false} TrimmedAround(a: string, s: string, b: string)
    requires (forall i :: 0 <= i < |a| ==> IsSpace(a[i])) && (forall i :: 0 <= i < |b| ==> IsSpace(b[i]))
    ensures Trimmed(a + s + b) == Trimmed(s)
    decreases |a| + |s| + |b|
  {
    hide IsSpace;
    var t := a + s + b;
    if a != "" {
      assert t[0] == a[0] && t[1..] == a[1..] + s + b;
      TrimmedAround(a[1..], s, b);
    } else if s != "" && IsSpace(s[0]) {
      assert t[0] == s[0] && t[1..] == "" + s[1..] + b;
      TrimmedAround("", s[1..], b);
    } else if b != "" {
      var c := b[..|b| - 1];
      assert t[|t| - 1] == b[|b| - 1] && t[..|t| - 1] == a + s + c;
      TrimmedAround(a, s, c);
      if s == "" { assert t == b; AllSpace(b); }
    } else {
      assert t == s;
    }
  }

  lemma {:induction false} AllSpace(s: string)
    requires forall i :: 0 <= i < |s| ==> IsSpace(s[i])
    ensures Trimmed(s) == ""
  {
    if s != "" { AllSpace(s[1..]); }
  }

  /** The name of the bytecode: the extension of a script or module gives way to `.bin`, any
      other name gets it appended, and no name at all is called by default. */
  lemma OutputNames(stem: string, file: string)
    requires stem != "" && !IsSpace(stem[0])
    ensures OutputFile(stem + ".js") == OutputFile(stem + ".mjs") == stem + ".bin"
    ensures file != "" && !IsSpace(file[0]) && !IsSpace(file[|file| - 1]) ==>
              EndsIn(file, ".js") || EndsIn(file, ".mjs") || OutputFile(file) == file + ".bin"
    ensures OutputFile("") == "bytecode.bin"
  {
    var js, mjs := stem + ".js", stem + ".mjs";
    assert js[0] == stem[0] && js[|js| - 1] == 's' && mjs[0] == stem[0] && mjs[|mjs| - 1] == 's';
    assert js[|js| - 3..] == ".js" && js[..|js| - 3] == stem;
    assert mjs[|mjs| - 4..] == ".mjs" && mjs[..|mjs| - 4] == stem;
    assert mjs[|mjs| - 3..][0] == 'm';
  }

  const HEAD := "{\"version\":3,\"file\":"
  const SOURCES := ",\"sources\":["
  const CONTENT := "],\"sourcesContent\":["
  const KEY := "\"sourcesContent\""

  /** The map of a source file, whatever follows the source text. */
  function MapText(file: string, source: string, rest: string): string {
    HEAD + Quoted(OutputFile(file)) + SOURCES + Quoted(file) + CONTENT + Quoted(source) + rest
  }

  // ---- finding the text ------------------------------------------------------------------------

  /** The first place at or after `i` where `f` stands. */
  function FindFrom(t: string, f: string, i: nat): (r: Option<nat>)
    ensures r.Some? ==> i <= r.value && Stands(t, r.value, f) && forall k :: i <= k < r.value ==> !Stands(t, k, f)
    ensures r.None? ==> forall k :: i <= k ==> !Stands(t, k, f)
    decreases |t| - i
  {
    if Stands(t, i, f) then Some(i) else if i >= |t| then None else FindFrom(t, f, i + 1)
  }

  function SkipSpace(t: string, i: nat): (k: nat)
    ensures i <= k
    decreases |t| - i
  {
    if i < |t| && IsSpace(t[i]) then SkipSpace(t, i + 1) else i
  }

  /** White space is skipped, all of it and nothing else. */
  lemma {:induction false} SkipsSpaces(t: string, i: nat, spaces: nat)
    requires i + spaces <= |t| && forall j :: i <= j < i + spaces ==> IsSpace(t[j])
    requires i + spaces < |t| ==> !IsSpace(t[i + spaces])
    ensures SkipSpace(t, i) == i + spaces
    decreases spaces
  {
    hide IsSpace;
    if spaces > 0 { SkipsSpaces(t, i + 1, spaces - 1); }
  }

  /** The first string of the list after the first key. */
  function FirstSourcesContent(t: string): Option<string> {
    match FindFrom(t, KEY, 0)
    case None => None
    case Some(key) =>
      match FindFrom(t, ":", key + |KEY|)
      case None => None
      case Some(colon) =>
        match FindFrom(t, "[", colon + 1)
        case None => None
        case Some(bracket) =>
          match Parsed(t, SkipSpace(t, bracket + 1))
          case None => None
          case Some(r) => Some(r.0)
  }

  method Locate(t: string, f: string, from: nat) returns (r: Option<nat>)
    ensures r == FindFrom(t, f, from)
  {
    var i := from;
    while i <= |t|
      invariant FindFrom(t, f, from) == FindFrom(t, f, i)
      decreases |t| + 1 - i
    {
      if i + |f| <= |t| && t[i..i + |f|] == f {
        return Some(i);
      }
      if i == |t| {
        return None;
      }
      i := i + 1;
    }
    return None;
  }

  method RecoverSource(t: string) returns (r: Option<string>)
    ensures r == FirstSourcesContent(t)
  {
    hide FindFrom, Parsed, IsSpace, Stands;
    var key := Locate(t, KEY, 0);
    if key.None? {
      return None;
    }
    var colon := Locate(t, ":", key.value + |KEY|);
    if colon.None? {
      return None;
    }
    var bracket := Locate(t, "[", colon.value + 1);
    if bracket.None? {
      return None;
    }
    var cursor := bracket.value + 1;
    while cursor < |t| && IsSpace(t[cursor])
      invariant SkipSpace(t, bracket.value + 1) == SkipSpace(t, cursor)
      decreases |t| - cursor
    {
      cursor := cursor + 1;
    }
    var parsed := ParseJsonString(t, cursor);
    return if parsed.None? then None else Some(parsed.value.0);
  }

  // ---- no other place looks like the key's end -----------------------------------------------------

  /** After `prev`, no quote follows a `t`, as one does at the end of the key. */
  predicate Calm(prev: char, s: string)
    decreases s
  {
    s == "" || (!(s[0] == '"' && prev == 't') && Calm(s[0], s[1..]))
  }

  function LastOr(prev: char, s: string): char {
    if s == "" then prev else s[|s| - 1]
  }

  lemma {:induction false} CalmConcat(prev: char, a: string, b: string)
    ensures Calm(prev, a + b) <==> Calm(prev, a) && Calm(LastOr(prev, a), b)
    decreases a
  {
    if a == "" {
      assert a + b == b;
    } else {
      assert (a + b)[1..] == a[1..] + b;
      CalmConcat(a[0], a[1..], b);
    }
  }

  lemma {:induction false} CalmAt(prev: char, s: string, j: nat)
    requires Calm(prev, s) && 0 < j < |s| && s[j] == '"'
    ensures s[j - 1] != 't'
    decreases s
  {
    if j > 1 { CalmAt(s[0], s[1..], j - 1); }
  }

  lemma EscapedCalm(prev: char, c: char)
    ensures Calm(prev, Escaped(c))
  {
    var f := Escaped(c);
    if c == '"' || c == '\\' || c == '\n' || c == '\r' || c == '\t' {
      assert f[1..] == [f[1]] && [f[1]][1..] == "";
    } else if IsControl(c) {
      HexCalm(c as int);
      assert f == "\\u" + Hex4(c as int) && f[1..][1..] == Hex4(c as int);
    } else {
      assert f[1..] == "";
    }
  }

  lemma HexCalm(n: nat)
    requires n < 0x10000
    ensures Calm('u', Hex4(n))
  {
    forall i | 0 <= i < 4 ensures Hex4(n)[i] != '"' {}
    QuoteFreeCalm('u', Hex4(n));
  }

  lemma {:induction false} QuoteFreeCalm(prev: char, s: string)
    requires '"' !in s
    ensures Calm(prev, s)
    decreases s
  {
    if s != "" { QuoteFreeCalm(s[0], s[1..]); }
  }

  /** A quote that does not follow a `t`, and text without quotes. */
  lemma QuoteThen(a: string, prev: char, word: string)
    requires Calm(prev, a) && LastOr(prev, a) != 't' && '"' !in word
    ensures Calm(prev, a + ("\"" + word))
  {
    QuoteFreeCalm('"', word);
    assert ("\"" + word)[1..] == word;
    CalmConcat(prev, a, "\"" + word);
  }

  lemma {:induction false} EncodedCalm(prev: char, s: string)
    ensures Calm(prev, Encoded(s))
    decreases s
  {
    hide Escaped, Calm;
    if s == "" {
      EmptyCalm(prev);
    } else {
      EscapedCalm(prev, s[0]);
      EncodedCalm(LastOr(prev, Escaped(s[0])), s[1..]);
      CalmConcat(prev, Escaped(s[0]), Encoded(s[1..]));
    }
  }

  lemma EmptyCalm(prev: char)
    ensures Calm(prev, "")
  {
  }

  /** An output file's name, as printed, ends in `bin`. */
  lemma OutputEncoded(file: string) returns (stem: string)
    ensures Encoded(OutputFile(file)) == stem + "bin"
  {
    var out := OutputFile(file);
    assert out[|out| - 3..] == "bin" by {
      if out != "bytecode.bin" { assert out[|out| - 4..] == ".bin"; }
      assert out[|out| - 4..][1..] == out[|out| - 3..];
    }
    assert out == out[..|out| - 3] + "bin";
    EncodedConcat(out[..|out| - 3], "bin");
    BinEncoded();
    stem := Encoded(out[..|out| - 3]);
  }

  lemma BinEncoded()
    ensures Encoded("bin") == "bin"
  {
    assert "bin"[1..] == "in" && "in"[1..] == "n" && "n"[1..] == "";
    assert Encoded("n") == "n" && Encoded("in") == "in";
  }

  /** Everything before the quote that closes the file's name. */
  function Before(file: string): string {
    HEAD + Quoted(OutputFile(file)) + SOURCES + "\"" + Encoded(file)
  }

  lemma HeadCalm()
    ensures Calm(' ', HEAD + "\"")
  {
    hide Calm;
    QuoteFreeCalm(' ', "{");
    QuoteThen("{", ' ', "version");
    assert "{" + ("\"" + "version") == "{\"version";
    QuoteThen("{\"version", ' ', ":3,");
    assert "{\"version" + ("\"" + ":3,") == "{\"version\":3,";
    QuoteThen("{\"version\":3,", ' ', "file");
    assert "{\"version\":3," + ("\"" + "file") == "{\"version\":3,\"file";
    QuoteThen("{\"version\":3,\"file", ' ', ":");
    assert "{\"version\":3,\"file" + ("\"" + ":") == HEAD;
    QuoteThen(HEAD, ' ', "");
    assert HEAD + ("\"" + "") == HEAD + "\"";
  }

  lemma SourcesCalm()
    ensures Calm('n', "\"" + SOURCES + "\"")
  {
    hide Calm;
    EmptyCalm('n');
    QuoteThen("", 'n', ",");
    assert "" + ("\"" + ",") == "\",";
    QuoteThen("\",", 'n', "sources");
    assert "\"," + ("\"" + "sources") == "\",\"sources";
    QuoteThen("\",\"sources", 'n', ":[");
    assert "\",\"sources" + ("\"" + ":[") == "\"" + SOURCES;
    QuoteThen("\"" + SOURCES, 'n', "");
    assert "\"" + SOURCES + ("\"" + "") == "\"" + SOURCES + "\"";
  }

  lemma BeforeCalm(file: string)
    ensures Calm(' ', Before(file))
  {
    hide Calm, Encoded;
    var stem := OutputEncoded(file);
    var name := Encoded(OutputFile(file));
    HeadCalm();
    SourcesCalm();
    EncodedCalm(LastOr(' ', HEAD + "\""), OutputFile(file));
    CalmConcat(' ', HEAD + "\"", name);
    var a := HEAD + "\"" + name;
    assert LastOr(' ', a) == 'n' by { assert a[|a| - 1] == name[|name| - 1] == "bin"[2]; }
    CalmConcat(' ', a, "\"" + SOURCES + "\"");
    var b := a + ("\"" + SOURCES + "\"");
    EncodedCalm(LastOr(' ', b), file);
    CalmConcat(' ', b, Encoded(file));
    assert Before(file) == b + Encoded(file);
  }

  // ---- the whole way back ----------------------------------------------------------------------------

  lemma KeyEnds(t: string, k: nat)
    requires Stands(t, k, KEY)
    ensures k + 15 < |t| && t[k + 14] == 't' && t[k + 15] == '"'
  {
    StandsAt(t, k, KEY, 14);
    StandsAt(t, k, KEY, 15);
  }

  /** No key ends within a calm beginning. */
  lemma NotBefore(b: string, t: string, e: nat)
    requires Calm(' ', b) && b <= t && 0 < e < |t| && t[e - 1] == 't' && t[e] == '"'
    ensures e >= |b|
  {
    hide Calm;
    if e < |b| { CalmAt(' ', b, e); }
  }

  /** The only key that ends in the text before the source is the real one. */
  lemma OnlyKey(a: string, rest: string, e: nat)
    requires |a| <= e <= |a| + 17 && 0 < e
    requires (a + (CONTENT + rest))[e - 1] == 't' && (a + (CONTENT + rest))[e] == '"'
    ensures e == |a| + 17
  {
    var t := a + (CONTENT + rest);
    var m := e - |a|;
    assert t[e] == (CONTENT + rest)[m] == CONTENT[m];
    if m > 0 { assert t[e - 1] == (CONTENT + rest)[m - 1] == CONTENT[m - 1]; }
    ContentQuotes(m);
  }

  lemma RealKey(a: string, rest: string)
    ensures Stands(a + (CONTENT + rest), |a| + 2, KEY)
  {
    var t := a + (CONTENT + rest);
    assert t[|a|..] == CONTENT + rest;
    assert t[|a| + 2..|a| + 2 + |KEY|] == (CONTENT + rest)[2..18] == CONTENT[2..18] == KEY;
  }

  /** In a text that is calm up to `b` the first key ends where the quote after `b` does,
      or where the real key does. */
  lemma KeyAfter(b: string, rest: string)
    requires Calm(' ', b)
    ensures var a := b + "\""; var k := FindFrom(a + (CONTENT + rest), KEY, 0);
            k.Some? && (k.value + |KEY| == |a| || k.value == |a| + 2)
  {
    hide Calm, FindFrom, Stands;
    var a := b + "\"";
    var t := a + (CONTENT + rest);
    RealKey(a, rest);
    var k := FindFrom(t, KEY, 0).value;
    KeyEnds(t, k);
    NotBefore(b, t, k + 15);
    if k + 15 >= |a| { OnlyKey(a, rest, k + 15); }
  }

  lemma ContentQuotes(m: nat)
    requires m < 18 && CONTENT[m] == '"' && (m > 0 ==> CONTENT[m - 1] == 't')
    ensures m == 17
  {
    var word := "sourcesContent";
    assert CONTENT == "],\"" + word + "\":[";
    assert CONTENT[1] == ',';
    forall i | 3 <= i < 17 ensures CONTENT[i] != '"' { assert CONTENT[i] == word[i - 3]; }
  }

  lemma CharFound(t: string, c: char, from: nat, at: nat)
    requires from <= at < |t| && t[at] == c && forall k :: from <= k < at ==> t[k] != c
    ensures FindFrom(t, [c], from) == Some(at)
  {
    hide FindFrom;
    assert Stands(t, at, [c]);
    var r := FindFrom(t, [c], from);
    assert t[r.value..r.value + 1][0] == c;
  }

  /** Recovery gives back the source text, whatever it holds and whatever the file is
      called: a name that holds the very key, or ends like it, is no exception. */
  lemma SourceRoundTrip(file: string, source: string, rest: string)
    ensures FirstSourcesContent(MapText(file, source, rest)) == Some(source)
  {
    hide Encoded, FindFrom, Parsed, Before, MapText;
    var a := Before(file) + "\"";
    var more := Quoted(source) + rest;
    var t := a + (CONTENT + more);
    assert MapText(file, source, rest) == t by { MapIs(file, source, rest); }
    BeforeCalm(file);
    KeyAfter(Before(file), more);
    var key := FindFrom(t, KEY, 0).value;
    var colon := |a| + 18;
    forall i | |a| <= i < |a| + 20 ensures t[i] == CONTENT[i - |a|] { assert t[i] == (CONTENT + more)[i - |a|]; }
    forall i | |a| <= i < colon ensures t[i] != ':' { ContentColon(i - |a|); }
    CharFound(t, ':', key + |KEY|, colon);
    CharFound(t, '[', colon + 1, colon + 1);
    var cursor := colon + 2;
    assert t[cursor..cursor + |Quoted(source)|] == Quoted(source) by { QuotedAt(a, source, rest); }
    assert Stands(t, cursor, Quoted(source));
    StandsAt(t, cursor, Quoted(source), 0);
    assert SkipSpace(t, cursor) == cursor;
    ParsedQuoted(t, cursor, source);
  }

  lemma ContentColon(i: nat)
    requires i < 18
    ensures CONTENT[i] != ':'
  {
    assert CONTENT[..18] == "],\"sourcesContent\"";
    assert CONTENT[i] == CONTENT[..18][i] == "],\"sourcesContent\""[i];
  }

  lemma MapIs(file: string, source: string, rest: string)
    ensures MapText(file, source, rest) == Before(file) + "\"" + (CONTENT + (Quoted(source) + rest))
  {
    hide Encoded, OutputFile;
    var pre := HEAD + Quoted(OutputFile(file)) + SOURCES;
    assert Before(file) + "\"" == pre + Quoted(file);
    assert MapText(file, source, rest) == pre + Quoted(file) + CONTENT + Quoted(source) + rest;
    Regroup(pre + Quoted(file), CONTENT, Quoted(source), rest);
  }

  lemma Regroup(a: string, b: string, c: string, d: string)
    ensures a + b + c + d == a + (b + (c + d))
  {
  }

  lemma QuotedAt(a: string, source: string, rest: string)
    ensures var t := a + (CONTENT + (Quoted(source) + rest)); var i := |a| + 20;
            i + |Quoted(source)| <= |t| && t[i..i + |Quoted(source)|] == Quoted(source)
  {
    hide Encoded;
    var t := a + (CONTENT + (Quoted(source) + rest));
    assert |CONTENT| == 20;
    assert t[|a| + 20..] == Quoted(source) + rest;
  }
}
