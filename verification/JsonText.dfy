/** The strings of a source map against JSON's own grammar (RFC 8259, section 7): what is
    printed are unescaped characters and escapes of its table, each for the character it
    stands for; and each of these is read as that character. */
module JsonText {
  import opened Syntax
  import opened SourceMap

  /** The letters that may follow a backslash, and the code points they stand for. */
  function EscapeTable(letter: char): Option<nat> {
    match letter
    case '"' => Some(0x22)
    case '\\' => Some(0x5c)
    case '/' => Some(0x2f)
    case 'b' => Some(8)
    case 't' => Some(9)
    case 'n' => Some(10)
    case 'f' => Some(12)
    case 'r' => Some(13)
    case _ => None
  }

  const HEX_DIGITS := "0123456789abcdef"
  const UPPER_HEX_DIGITS := "0123456789ABCDEF"

  /** `c` is a hexadecimal digit with the value `n`. */
  predicate HexIs(c: char, n: nat) { n < 16 && (HEX_DIGITS[n] == c || UPPER_HEX_DIGITS[n] == c) }

  predicate IsHex(c: char) { c in HEX_DIGITS || c in UPPER_HEX_DIGITS }

  /** One element of a string: an unescaped character, a backslash and a letter, or four digits
      after `\u` with their values. */
  datatype Unit = Unescaped(c: char) | Letter(letter: char) | Digits(text: string, values: seq<nat>)

  predicate Proper(u: Unit) {
    match u
    case Unescaped(c) => c != '"' && c != '\\' && c as int >= 0x20
    case Letter(letter) => EscapeTable(letter).Some?
    case Digits(text, values) =>
      |text| == 4 == |values| && forall k :: 0 <= k < 4 ==> HexIs(text[k], values[k])
  }

  function Text(u: Unit): string {
    match u
    case Unescaped(c) => [c]
    case Letter(letter) => ['\\', letter]
    case Digits(text, _) => "\\u" + text
  }

  function Code(u: Unit): nat
    requires Proper(u)
  {
    match u
    case Unescaped(c) => c as int
    case Letter(letter) => EscapeTable(letter).value
    case Digits(_, v) => 0x1000 * v[0] + 0x100 * v[1] + 0x10 * v[2] + v[3]
  }

  function Texts(us: seq<Unit>): string {
    if us == [] then "" else Text(us[0]) + Texts(us[1..])
  }

  // ---- printing --------------------------------------------------------------------------------

  /** What one character is printed as. */
  function Printed(c: char): Unit {
    if c == '"' || c == '\\' then Letter(c)
    else if c as int == 10 then Letter('n')
    else if c as int == 13 then Letter('r')
    else if c as int == 9 then Letter('t')
    else if IsControl(c) then
      var n := c as int;
      Digits(Hex4(n), [n / 0x1000, n / 0x100 % 16, n / 16 % 16, n % 16])
    else Unescaped(c)
  }

  lemma HexDigitIs(d: nat)
    requires d < 16
    ensures HexIs(HexDigit(d), d)
  {
  }

  lemma PrintedProper(c: char)
    ensures Proper(Printed(c)) && Code(Printed(c)) == c as int && Text(Printed(c)) == Escaped(c)
  {
    var n := c as int;
    if Printed(c).Digits? {
      HexDigitIs(n / 0x1000);
      HexDigitIs(n / 0x100 % 16);
      HexDigitIs(n / 16 % 16);
      HexDigitIs(n % 16);
      HexDigits(n);
    }
  }

  function PrintedAll(s: string): (us: seq<Unit>)
    ensures |us| == |s| && forall k :: 0 <= k < |s| ==> us[k] == Printed(s[k])
  {
    seq(|s|, k requires 0 <= k < |s| => Printed(s[k]))
  }

  lemma {:induction false} EncodedTexts(s: string)
    ensures Encoded(s) == Texts(PrintedAll(s))
  {
    if s != "" {
      PrintedProper(s[0]);
      EncodedTexts(s[1..]);
      assert PrintedAll(s)[1..] == PrintedAll(s[1..]);
    }
  }

  /** Every string is printed as a JSON string: between quotes, one proper element for each
      character, with that character's code point. */
  lemma PrintedIsJson(s: string) returns (us: seq<Unit>)
    ensures Quoted(s) == "\"" + Texts(us) + "\"" && |us| == |s|
    ensures forall k :: 0 <= k < |s| ==> Proper(us[k]) && Code(us[k]) == s[k] as int
  {
    hide Proper, Code, Printed, Texts, Encoded;
    us := PrintedAll(s);
    EncodedTexts(s);
    forall k | 0 <= k < |s| ensures Proper(us[k]) && Code(us[k]) == s[k] as int { PrintedProper(s[k]); }
  }

  // ---- reading ---------------------------------------------------------------------------------

  predicate Surrogate(n: nat) { 0xd800 <= n < 0xe000 }

  /** What an element reads as: its character; a lone half of a surrogate pair has none. */
  function ReadAs(u: Unit): (c: char)
    requires Proper(u)
    ensures Surrogate(Code(u)) ==> c == '\U{FFFD}'
    ensures !Surrogate(Code(u)) ==> c as int == Code(u)
  {
    CodeSmall(u);
    if Surrogate(Code(u)) then '\U{FFFD}' else Code(u) as char
  }

  lemma CodeSmall(u: Unit)
    requires Proper(u)
    ensures u.Unescaped? ==> !Surrogate(Code(u))
    ensures !u.Unescaped? ==> Code(u) < 0x10000
  {
    if u.Digits? {
      var v := u.values;
      assert HexIs(u.text[0], v[0]) && HexIs(u.text[1], v[1]) && HexIs(u.text[2], v[2]) && HexIs(u.text[3], v[3]);
    }
  }

  lemma HexIsValue(c: char, n: nat)
    requires HexIs(c, n)
    ensures DigitValue(c) == Some(n) && c != '+'
  {
  }

  lemma DigitsValue(u: Unit)
    requires Proper(u) && u.Digits?
    ensures CodePoint(u.text) == Some(Code(u))
  {
    hide HexIs, DigitValue, HexValue;
    var t, v := u.text, u.values;
    HexIsValue(t[0], v[0]);
    HexIsValue(t[1], v[1]);
    HexIsValue(t[2], v[2]);
    HexIsValue(t[3], v[3]);
    assert t == [t[0], t[1], t[2], t[3]];
    HexFour(t[0], t[1], t[2], t[3]);
  }

  /** Every proper element is read as its character, those included that are never printed. */
  lemma ReadsUnit(t: string, i: nat, u: Unit)
    requires Proper(u) && Stands(t, i, Text(u))
    ensures i < |t| && ReadAt(t, i) == Piece([ReadAs(u)], i + |Text(u)|)
  {
    hide HexIs, CodePoint, Code;
    StandsAt(t, i, Text(u), 0);
    CodeSmall(u);
    match u
    case Unescaped(c) => assert Code(u) == c as int by { UnescapedCode(c); }
    case Letter(letter) => StandsAt(t, i, Text(u), 1); LetterCode(letter);
    case Digits(text, _) =>
      StandsAt(t, i, Text(u), 1);
      assert t[i + 2..i + 6] == t[i..i + 6][2..] == text;
      DigitsValue(u);
  }

  lemma UnescapedCode(c: char)
    requires Proper(Unescaped(c))
    ensures Code(Unescaped(c)) == c as int
  {
  }

  lemma LetterCode(letter: char)
    requires Proper(Letter(letter))
    ensures Code(Letter(letter)) == EscapeTable(letter).value
  {
  }

  /** A backslash before anything that is not in the table, `u` apart, is an error. */
  lemma OtherLetters(t: string, i: nat)
    requires i + 1 < |t| && t[i] == '\\' && t[i + 1] != 'u' && EscapeTable(t[i + 1]).None?
    ensures ReadAt(t, i).Malformed?
  {
  }

  /** So is a `u` without four digits behind it, but for a plus sign in the first place. */
  lemma OtherDigits(t: string, i: nat, k: nat)
    requires i + 1 < |t| && t[i] == '\\' && t[i + 1] == 'u' && k < 4
    requires i + 6 <= |t| ==> !IsHex(t[i + 2 + k]) && !(k == 0 && t[i + 2] == '+')
    ensures ReadAt(t, i).Malformed?
  {
    if i + 6 <= |t| {
      var s := t[i + 2..i + 6];
      NoDigit(s[k]);
      if s[0] == '+' { NoValue(s[1..], 0, k - 1); } else { NoValue(s, 0, k); }
    }
  }

  lemma NoDigit(c: char)
    requires !IsHex(c)
    ensures DigitValue(c).None?
  {
    DigitShown(c);
  }

  lemma DigitShown(c: char)
    ensures DigitValue(c).Some? ==> DigitValue(c).value < 16
                                    && (HEX_DIGITS[DigitValue(c).value] == c
                                       || UPPER_HEX_DIGITS[DigitValue(c).value] == c)
  {
  }

  lemma {:induction false} NoValue(s: string, n: nat, k: nat)
    requires k < |s| && DigitValue(s[k]).None?
    ensures HexValue(s, n).None?
    decreases s
  {
    if k > 0 && DigitValue(s[0]).Some? { NoValue(s[1..], 16 * n + DigitValue(s[0]).value, k - 1); }
  }

  function ReadAll(us: seq<Unit>): (s: string)
    requires forall k :: 0 <= k < |us| ==> Proper(us[k])
    ensures |s| == |us| && forall k :: 0 <= k < |us| ==> s[k] == ReadAs(us[k])
  {
    seq(|us|, k requires 0 <= k < |us| => ReadAs(us[k]))
  }

  lemma {:induction false} RestOfTexts(t: string, i: nat, us: seq<Unit>)
    requires (forall k :: 0 <= k < |us| ==> Proper(us[k])) && Stands(t, i, Texts(us) + "\"")
    ensures Rest(t, i) == Some((ReadAll(us), i + |Texts(us)| + 1))
    decreases us
  {
    hide ReadAt, Proper, Text;
    if us == [] {
      assert Texts(us) + "\"" == "\"";
      ReadQuote(t, i);
    } else {
      assert Texts(us) + "\"" == Text(us[0]) + (Texts(us[1..]) + "\"");
      StandsSplit(t, i, Text(us[0]), Texts(us[1..]) + "\"");
      ReadsUnit(t, i, us[0]);
      RestOfTexts(t, i + |Text(us[0])|, us[1..]);
      assert ReadAll(us) == [ReadAs(us[0])] + ReadAll(us[1..]);
    }
  }

  /** Every JSON string, wherever it stands, is read as the characters of its elements. */
  lemma ParsedJson(t: string, i: nat, us: seq<Unit>)
    requires (forall k :: 0 <= k < |us| ==> Proper(us[k])) && Stands(t, i, "\"" + Texts(us) + "\"")
    ensures Parsed(t, i) == Some((ReadAll(us), i + |Texts(us)| + 2))
  {
    hide Proper, Texts, Rest;
    assert "\"" + Texts(us) + "\"" == "\"" + (Texts(us) + "\"");
    StandsSplit(t, i, "\"", Texts(us) + "\"");
    StandsAt(t, i, "\"", 0);
    RestOfTexts(t, i + 1, us);
  }

  // ---- where the reader is not JSON's ------------------------------------------------------------

  /** Two halves of a pair stand for one character; the reader makes two replacement
      characters of them. */
  lemma PairIsLost()
    ensures var us := [Digits("d834", [13, 8, 3, 4]), Digits("dd1e", [13, 13, 1, 14])];
            && Proper(us[0]) && Proper(us[1]) && ReadAll(us) == "\U{FFFD}\U{FFFD}"
  {
    var us := [Digits("d834", [13, 8, 3, 4]), Digits("dd1e", [13, 13, 1, 14])];
    assert Proper(us[0]) && Proper(us[1]);
    assert Code(us[0]) == 0xd834 && Code(us[1]) == 0xdd1e;
  }

  /** A plus sign is taken for the first of the four digits. */
  lemma PlusIsTaken()
    ensures ReadAt("\\u+041", 0) == Piece("A", 6)
  {
    var t := "\\u+041";
    assert t[2..6] == "+041" && "+041"[1..] == "041" && "041"[1..] == "41" && "41"[1..] == "1" && "1"[1..] == "";
    assert HexValue("1", 4) == Some(65) && HexValue("41", 0) == Some(65) && HexValue("041", 0) == Some(65);
  }
}
