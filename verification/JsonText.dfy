/** The text of a JSON value: Python's `json.dumps` without blanks, and `json.loads`. */
module JsonText {
  import opened Text
  import opened KeyOrder
  import opened Json
  import Seqs

  /** What a parser read at the front of a text, and what is left of the text. */
  datatype Parsed<+T> = Bad | Got(value: T, rest: string)

  // ----- characters of a string -----

  /** `ensure_ascii=False` or the default */
  datatype Style = Unicode | Ascii

  function ShortEscape(c: char): Option<char> {
    if c == '"' || c == '\\' then Some(c)
    else if c == '\n' then Some('n')
    else if c == '\r' then Some('r')
    else if c == '\t' then Some('t')
    else if c as int == 8 then Some('b')
    else if c as int == 12 then Some('f')
    else None
  }

  function Unescape(c: char): Option<char> {
    if c == '"' || c == '\\' || c == '/' then Some(c)
    else if c == 'n' then Some('\n')
    else if c == 'r' then Some('\r')
    else if c == 't' then Some('\t')
    else if c == 'b' then Some(8 as char)
    else if c == 'f' then Some(12 as char)
    else None
  }

  function HexChar(d: nat): char
    requires d < 16
  {
    if d < 10 then (48 + d) as char else (87 + d) as char
  }

  function HexValue(c: char): Option<nat> {
    if '0' <= c <= '9' then Some(c as int - 48)
    else if 'a' <= c <= 'f' then Some(c as int - 87)
    else if 'A' <= c <= 'F' then Some(c as int - 55)
    else None
  }

  function Hex4(n: nat): (s: string)
    requires n < 0x10000
    ensures |s| == 4
  {
    [HexChar(n / 4096), HexChar(n / 256 % 16), HexChar(n / 16 % 16), HexChar(n % 16)]
  }

  function Unhex4(s: string): Option<nat> {
    if |s| < 4 then None
    else
      match (HexValue(s[0]), HexValue(s[1]), HexValue(s[2]), HexValue(s[3]))
      case (Some(a), Some(b), Some(c), Some(d)) => Some(4096 * a + 256 * b + 16 * c + d)
      case _ => None
  }

  predicate High(n: nat) { 0xD800 <= n < 0xDC00 }

  predicate Low(n: nat) { 0xDC00 <= n < 0xE000 }

  /** The two surrogates of a character beyond the first 65536. */
  function HighOf(n: nat): (h: nat)
    requires 0x10000 <= n < 0x110000
    ensures High(h)
  {
    0xD800 + (n - 0x10000) / 0x400
  }

  function LowOf(n: nat): (l: nat)
    requires 0x10000 <= n < 0x110000
    ensures Low(l)
  {
    0xDC00 + (n - 0x10000) % 0x400
  }

  lemma HalvesJoin(n: nat)
    requires 0x10000 <= n < 0x110000
    ensures 0x10000 + 0x400 * (HighOf(n) - 0xD800) + (LowOf(n) - 0xDC00) == n
  {
  }

  predicate Plain(style: Style, c: char) {
    ' ' <= c && (style.Unicode? || c <= '~')
  }

  function UnicodeEscape(n: nat): (s: string)
    requires n < 0x10000
    ensures |s| == 6
  {
    ['\\', 'u'] + Hex4(n)
  }

  function Escape(style: Style, c: char): string {
    var n := c as int;
    match ShortEscape(c)
    case Some(e) => ['\\', e]
    case None =>
      if Plain(style, c) then [c]
      else if n < 0x10000 then UnicodeEscape(n)
      else UnicodeEscape(HighOf(n)) + UnicodeEscape(LowOf(n))
  }

  lemma HexDigit(d: nat)
    requires d < 16
    ensures HexValue(HexChar(d)) == Some(d)
  {
  }

  lemma Digits16(n: nat)
    requires n < 0x10000
    ensures n / 4096 < 16
    ensures 4096 * (n / 4096) + 256 * (n / 256 % 16) + 16 * (n / 16 % 16) + n % 16 == n
  {
    var a, b := n / 16, n / 256;
    assert b == a / 16 && n / 4096 == b / 16;
    assert n == 16 * a + n % 16 && a == 16 * b + a % 16 && b == 16 * (b / 16) + b % 16;
  }

  /** Four lower-case hexadecimal digits that read as the number. */
  lemma Hex4Is(n: nat)
    requires n < 0x10000
    ensures Hex(Hex4(n), 4) && Unhex4(Hex4(n)) == Some(n)
  {
    Digits16(n);
    HexDigit(n / 4096);
    HexDigit(n / 256 % 16);
    HexDigit(n / 16 % 16);
    HexDigit(n % 16);
  }

  /** The backslash and letter of the characters that have one, as JSON writes them. */
  lemma ShortEscapesAre(style: Style)
    ensures Escape(style, '"') == "\\\"" && Escape(style, '\\') == "\\\\"
    ensures Escape(style, '\n') == "\\n" && Escape(style, '\r') == "\\r" && Escape(style, '\t') == "\\t"
    ensures Escape(style, '\U{8}') == "\\b" && Escape(style, '\U{C}') == "\\f"
  {
  }

  /** What reads back after a backslash, a slash included; and the values of hexadecimal digits in either case. */
  lemma UnescapesAre(c: char)
    ensures Unescape('"') == Some('"') && Unescape('\\') == Some('\\') && Unescape('/') == Some('/')
    ensures Unescape('n') == Some('\n') && Unescape('r') == Some('\r') && Unescape('t') == Some('\t')
    ensures Unescape('b') == Some('\U{8}') && Unescape('f') == Some('\U{C}')
    ensures c !in "\"\\/nrtbf" ==> Unescape(c) == None
  {
  }

  lemma HexValueIs(c: char)
    ensures HexValue(c).Some? <==> c in "0123456789abcdef" || c in "ABCDEF"
    ensures forall d :: 0 <= d < 16 && "0123456789abcdef"[d] == c ==> HexValue(c) == Some(d)
    ensures forall d :: 0 <= d < 6 && "ABCDEF"[d] == c ==> HexValue(c) == Some(10 + d)
  {
    HexOnly(c);
    assert 'A' <= c <= 'F' ==> "ABCDEF"[c as int - 65] == c;
  }

  /**
   * Every other control character, and with `ensure_ascii` all beyond the tilde, is its UTF-16 units; the rest is
   * itself.
   */
  lemma OtherEscapesAre(style: Style, c: char)
    requires c !in {'"', '\\', '\n', '\r', '\t', '\U{8}', '\U{C}'}
    ensures ' ' <= c <= '~' || (style.Unicode? && ' ' <= c) ==> Escape(style, c) == [c]
    ensures (c < ' ' || (style.Ascii? && '~' < c)) && c as int < 0x10000 ==>
              Escape(style, c) == "\\u" + Hex4(c as int)
    ensures style.Ascii? && c as int >= 0x10000 ==>
              && |Units(c)| == 2
              && Escape(style, c) == ("\\u" + Hex4(Units(c)[0])) + ("\\u" + Hex4(Units(c)[1]))
  {
  }

  /** The code unit written as `\uXXXX` at the front of the text. */
  function ParseUnit(s: string): (p: Parsed<nat>)
    ensures p.Got? ==> |p.rest| < |s|
  {
    if |s| < 6 || s[0] != '\\' || s[1] != 'u' then Bad
    else match Unhex4(s[2..]) case None => Bad case Some(n) => Got(n, s[6..])
  }

  function ParseUnicode(s: string): (p: Parsed<char>)
    ensures p.Got? ==> |p.rest| < |s|
  {
    match ParseUnit(s)
    case Bad => Bad
    case Got(n, t) =>
      if High(n) then
        match ParseUnit(t)
        case Bad => Bad
        case Got(m, u) =>
          if Low(m) then Got((0x10000 + 0x400 * (n - 0xD800) + (m - 0xDC00)) as char, u) else Bad
      else if Low(n) || 0x110000 <= n then Bad
      else Got(n as char, t)
  }

  function ParseChar(s: string): (p: Parsed<char>)
    ensures p.Got? ==> |p.rest| < |s|
  {
    if s == "" || s[0] < ' ' then Bad
    else if s[0] != '\\' then Got(s[0], s[1..])
    else if |s| == 1 then Bad
    else if s[1] == 'u' then ParseUnicode(s)
    else match Unescape(s[1]) case None => Bad case Some(c) => Got(c, s[2..])
  }

  lemma UnitRoundTrip(n: nat, rest: string)
    requires n < 0x10000
    ensures ParseUnit(UnicodeEscape(n) + rest) == Got(n, rest)
  {
    var s := UnicodeEscape(n) + rest;
    assert s[2..] == Hex4(n) + rest;
    assert s[6..] == rest;
    Digits16(n);
    HexDigit(n / 4096);
    HexDigit(n / 256 % 16);
    HexDigit(n / 16 % 16);
    HexDigit(n % 16);
  }

  lemma PairRoundTrip(high: nat, low: nat, rest: string)
    requires High(high) && Low(low)
    ensures ParseUnicode((UnicodeEscape(high) + UnicodeEscape(low)) + rest)
         == Got((0x10000 + 0x400 * (high - 0xD800) + (low - 0xDC00)) as char, rest)
  {
    Seqs.Assoc(UnicodeEscape(high), UnicodeEscape(low), rest);
    UnitRoundTrip(high, UnicodeEscape(low) + rest);
    UnitRoundTrip(low, rest);
  }

  lemma UnicodeRoundTrip(style: Style, c: char, rest: string)
    requires ShortEscape(c).None? && !Plain(style, c)
    ensures ParseUnicode(Escape(style, c) + rest) == Got(c, rest)
  {
    var n := c as int;
    if n < 0x10000 {
      UnitRoundTrip(n, rest);
    } else {
      HalvesJoin(n);
      PairRoundTrip(HighOf(n), LowOf(n), rest);
    }
  }

  lemma EscapeHead(style: Style, c: char, rest: string)
    ensures Escape(style, c) != "" && Escape(style, c)[0] != '"'
    ensures (Escape(style, c) + rest)[0] == Escape(style, c)[0]
    ensures ShortEscape(c).None? && !Plain(style, c) ==>
              |Escape(style, c)| >= 6 && Escape(style, c)[0] == '\\' && Escape(style, c)[1] == 'u'
  {
  }

  lemma ParseCharUnicode(s: string)
    requires |s| >= 2 && s[0] == '\\' && s[1] == 'u'
    ensures ParseChar(s) == ParseUnicode(s)
  {
  }

  lemma EscapeRoundTrip(style: Style, c: char, rest: string)
    ensures ParseChar(Escape(style, c) + rest) == Got(c, rest)
    ensures Escape(style, c) != "" && Escape(style, c)[0] != '"'
  {
    EscapeHead(style, c, rest);
    if ShortEscape(c).Some? {
      assert (Escape(style, c) + rest)[2..] == rest;
    } else if Plain(style, c) {
      assert (Escape(style, c) + rest)[1..] == rest;
    } else {
      UnicodeRoundTrip(style, c, rest);
      ParseCharUnicode(Escape(style, c) + rest);
    }
  }

  // ----- strings -----

  function Escaped(style: Style, s: string): string {
    if s == "" then "" else Escape(style, s[0]) + Escaped(style, s[1..])
  }

  function Quote(style: Style, s: string): string {
    ['"'] + Escaped(style, s) + ['"']
  }

  /** The rest of a string after its opening quote. */
  function ParseChars(s: string): (p: Parsed<string>)
    ensures p.Got? ==> |p.rest| < |s|
    decreases |s|
  {
    if s == "" then Bad
    else if s[0] == '"' then Got("", s[1..])
    else
      match ParseChar(s)
      case Bad => Bad
      case Got(c, t) =>
        match ParseChars(t)
        case Bad => Bad
        case Got(cs, u) => Got([c] + cs, u)
  }

  lemma {:induction false} CharsRoundTrip(style: Style, s: string, rest: string)
    ensures ParseChars(Escaped(style, s) + (['"'] + rest)) == Got(s, rest)
  {
    var tail := ['"'] + rest;
    if s == "" {
      assert "" + tail == tail;
      assert tail[1..] == rest;
    } else {
      var first, others := Escape(style, s[0]), Escaped(style, s[1..]);
      Seqs.Assoc(first, others, tail);
      EscapeRoundTrip(style, s[0], others + tail);
      CharsRoundTrip(style, s[1..], rest);
      assert [s[0]] + s[1..] == s;
    }
  }

  /** Printable ASCII without quotation marks and backslashes. */
  predicate NeedsNoEscape(s: string) {
    forall i :: 0 <= i < |s| ==> ' ' <= s[i] <= '~' && s[i] != '"' && s[i] != '\\'
  }

  lemma {:induction false} EscapedPlain(style: Style, s: string)
    requires NeedsNoEscape(s)
    ensures Escaped(style, s) == s && Quote(style, s) == "\"" + s + "\""
  {
    if s != "" {
      EscapedPlain(style, s[1..]);
      OtherEscapesAre(style, s[0]);
      assert [s[0]] + s[1..] == s;
    }
  }

  // ----- numbers and words -----

  /** `0|[1-9][0-9]*` */
  function IntegerRun(s: string): (n: nat)
    ensures n <= DigitRun(s) <= |s|
  {
    if s != "" && s[0] == '0' then 1 else DigitRun(s)
  }

  /** `(\.[0-9]+)?` */
  function Fraction(s: string): (n: nat)
    ensures n <= |s|
  {
    if s != "" && s[0] == '.' && DigitRun(s[1..]) > 0 then 1 + DigitRun(s[1..]) else 0
  }

  /** `([eE][+-]?[0-9]+)?` */
  function Exponent(s: string): (n: nat)
    ensures n <= |s|
  {
    if s == "" || (s[0] != 'e' && s[0] != 'E') then 0
    else
      var k := if |s| > 1 && (s[1] == '+' || s[1] == '-') then 2 else 1;
      if DigitRun(s[k..]) > 0 then k + DigitRun(s[k..]) else 0
  }

  function ParseNumber(s: string): (p: Parsed<Json>)
    ensures p.Got? ==> |p.rest| < |s|
  {
    var sign := if s != "" && s[0] == '-' then 1 else 0;
    var t := s[sign..];
    var n := IntegerRun(t);
    var f := Fraction(t[n..]);
    var e := Exponent(t[n..][f..]);
    if n == 0 then Bad
    else if f + e > 0 then Got(Float(s[..sign + n + f + e]), t[n + f + e..])
    else
      DigitRunDigits(t, n);
      var v: int := Value(t[..n]);
      Got(Int(if sign == 1 then -v else v), t[n..])
  }

  // ----- the grammar of numbers (RFC 8259, section 6) -----

  /** Digits from `i` to `j`, at least one, and as many as there are. */
  predicate DigitsIn(s: string, i: nat, j: nat) {
    i < j <= |s| && (forall k :: i <= k < j ==> IsDigit(s[k])) && (j < |s| ==> !IsDigit(s[j]))
  }

  predicate IntegerAt(s: string, n: nat) {
    s != "" && if s[0] == '0' then n == 1 else DigitsIn(s, 0, n)
  }

  predicate FractionAt(s: string, n: nat) {
    s != "" && s[0] == '.' && DigitsIn(s, 1, n)
  }

  predicate ExponentAt(s: string, n: nat) {
    s != "" && s[0] in "eE" && if |s| > 1 && s[1] in "+-" then DigitsIn(s, 2, n) else DigitsIn(s, 1, n)
  }

  lemma {:induction false} DigitRunIs(s: string, n: nat)
    ensures DigitsIn(s, 0, n) <==> n > 0 && DigitRun(s) == n
  {
    if s != "" && IsDigit(s[0]) {
      if n > 1 {
        DigitRunIs(s[1..], n - 1);
      } else if |s| > 1 && IsDigit(s[1]) {
        DigitRunIs(s[1..], DigitRun(s[1..]));
      }
    }
  }

  lemma DigitsFrom(s: string, i: nat, n: nat)
    requires i <= |s|
    ensures DigitsIn(s, i, i + n) <==> n > 0 && DigitRun(s[i..]) == n
  {
    DigitRunIs(s[i..], n);
    assert DigitsIn(s[i..], 0, n) ==> forall k :: i <= k < i + n ==> s[k] == s[i..][k - i];
  }

  lemma PartsAre(s: string, n: nat)
    requires n > 0
    ensures IntegerRun(s) == n <==> IntegerAt(s, n)
    ensures Fraction(s) == n <==> FractionAt(s, n)
    ensures Exponent(s) == n <==> ExponentAt(s, n)
  {
    DigitRunIs(s, n);
    if s != "" {
      DigitsFrom(s, 1, n - 1);
    }
    if |s| > 1 && n > 1 {
      DigitsFrom(s, 2, n - 2);
    }
  }

  /** A sign, an integer, and then a fraction and an exponent where there are such. */
  ghost predicate NumberAt(s: string, sign: nat, n: nat, f: nat, e: nat) {
    && sign == (if s != "" && s[0] == '-' then 1 else 0)
    && sign + n + f + e <= |s|
    && IntegerAt(s[sign..], n)
    && var after := s[sign + n..];
       && (if f == 0 then forall k: nat :: !FractionAt(after, k) else FractionAt(after, f))
       && (if e == 0 then forall k: nat :: !ExponentAt(after[f..], k) else ExponentAt(after[f..], e))
  }

  lemma NoParts(s: string)
    ensures Fraction(s) == 0 <==> forall n: nat :: !FractionAt(s, n)
    ensures Exponent(s) == 0 <==> forall n: nat :: !ExponentAt(s, n)
  {
    if Fraction(s) > 0 {
      PartsAre(s, Fraction(s));
    }
    if Exponent(s) > 0 {
      PartsAre(s, Exponent(s));
    }
    forall n: nat
      ensures FractionAt(s, n) ==> Fraction(s) == n > 0
      ensures ExponentAt(s, n) ==> Exponent(s) == n > 0
    {
      if n > 0 {
        PartsAre(s, n);
      }
    }
  }

  lemma Lengths(s: string, sign: nat, n: nat, f: nat, e: nat)
    requires NumberAt(s, sign, n, f, e)
    ensures var t := s[sign..];
            && n > 0 && IntegerRun(t) == n && Seqs.Same(t[n..], s[sign + n..])
            && Fraction(t[n..]) == f && Exponent(t[n..][f..]) == e
  {
    var after := s[sign + n..];
    assert s[sign..][n..] == after;
    PartsAre(s[sign..], n);
    NoParts(after);
    NoParts(after[f..]);
    if f > 0 {
      PartsAre(after, f);
    }
    if e > 0 {
      PartsAre(after[f..], e);
    }
  }

  lemma ReadInteger(s: string, sign: nat, t: string, n: nat, digits: string, rest: string)
    requires sign == (if s != "" && s[0] == '-' then 1 else 0) && Seqs.Same(t, s[sign..])
    requires 0 < n == IntegerRun(t) && Fraction(t[n..]) == 0 && Exponent(t[n..][0..]) == 0
    requires Seqs.Same(digits, t[..n]) && Seqs.Same(rest, t[n..])
    ensures AllDigits(digits)
    ensures var v: int := Value(digits); ParseNumber(s) == Got(Int(if sign == 1 then -v else v), rest)
  {
    DigitRunDigits(t, n);
  }

  lemma ReadFloat(s: string, sign: nat, t: string, n: nat, f: nat, e: nat, text: string, rest: string)
    requires sign == (if s != "" && s[0] == '-' then 1 else 0) && Seqs.Same(t, s[sign..])
    requires 0 < n == IntegerRun(t) && Fraction(t[n..]) == f && Exponent(t[n..][f..]) == e && f + e > 0
    requires sign + n + f + e <= |s| && Seqs.Same(text, s[..sign + n + f + e]) && Seqs.Same(rest, t[n + f + e..])
    ensures ParseNumber(s) == Got(Float(text), rest)
  {
  }

  /** An integer is read by its value. */
  lemma IntegerIs(s: string, sign: nat, n: nat)
    requires NumberAt(s, sign, n, 0, 0)
    ensures AllDigits(s[sign..sign + n])
    ensures var v: int := Value(s[sign..sign + n]);
            ParseNumber(s) == Got(Int(if sign == 1 then -v else v), s[sign + n..])
  {
    Lengths(s, sign, n, 0, 0);
    Seqs.SliceOfDrop(s, sign, 0, n);
    assert Seqs.Same(s[sign..][..n], s[sign..][0..n]);
    ReadInteger(s, sign, s[sign..], n, s[sign..sign + n], s[sign + n..]);
  }

  lemma DropTwice<T>(s: seq<T>, i: nat, j: nat)
    requires i + j <= |s|
    ensures Seqs.Same(s[i..][j..], s[i + j..])
  {
    assert s[i..][j..] == s[i + j..];
  }

  /** Any other number is read by its text. */
  lemma FloatIs(s: string, sign: nat, n: nat, f: nat, e: nat)
    requires NumberAt(s, sign, n, f, e) && f + e > 0
    ensures ParseNumber(s) == Got(Float(s[..sign + n + f + e]), s[sign + n + f + e..])
  {
    Lengths(s, sign, n, f, e);
    DropTwice(s, sign, n + f + e);
    ReadFloat(s, sign, s[sign..], n, f, e, s[..sign + n + f + e], s[sign + n + f + e..]);
  }

  /** Nothing else is read as a number. */
  lemma NumberOnly(s: string) returns (sign: nat, n: nat, f: nat, e: nat)
    requires ParseNumber(s).Got?
    ensures NumberAt(s, sign, n, f, e)
  {
    sign := if s != "" && s[0] == '-' then 1 else 0;
    var t := s[sign..];
    n := IntegerRun(t);
    var after := s[sign + n..];
    assert t[n..] == after;
    f, e := Fraction(after), Exponent(after[Fraction(after)..]);
    PartsAre(t, n);
    NoParts(after);
    NoParts(after[f..]);
    if f > 0 {
      PartsAre(after, f);
    }
    if e > 0 {
      PartsAre(after[f..], e);
    }
  }

  function PrintInt(n: int): string {
    if n < 0 then ['-'] + Digits(-n) else Digits(n)
  }

  lemma {:induction false} DigitsHead(n: nat)
    ensures Digits(n) != "" && IsDigit(Digits(n)[0])
    ensures n > 0 ==> Digits(n)[0] != '0'
  {
    if n >= 10 {
      DigitsHead(n / 10);
    }
  }

  /** What may follow a value inside a canonical text. */
  predicate Ends(rest: string) {
    rest == "" || rest[0] == ',' || rest[0] == ']' || rest[0] == '}'
  }

  lemma NaturalRoundTrip(n: nat, rest: string)
    requires Ends(rest)
    ensures IntegerRun(Digits(n) + rest) == |Digits(n)| > 0
    ensures (Digits(n) + rest)[..|Digits(n)|] == Digits(n) && (Digits(n) + rest)[|Digits(n)|..] == rest
    ensures AllDigits(Digits(n)) && Value(Digits(n)) == n
    ensures IsDigit((Digits(n) + rest)[0])
  {
    ValueOfDigits(n);
    DigitsHead(n);
    DigitRunOf(Digits(n), rest);
    Seqs.Concatenation(Digits(n), rest);
  }

  lemma NoFraction(rest: string)
    requires Ends(rest)
    ensures Fraction(rest) == 0 && Exponent(rest[0..]) == 0
  {
    assert rest[0..] == rest;
  }

  lemma NumberParts(s: string, sign: nat, digits: nat, rest: string)
    requires sign == (if s != "" && s[0] == '-' then 1 else 0)
    requires s != "" && digits == IntegerRun(s[sign..]) > 0
    requires s[sign..][digits..] == rest && Ends(rest)
    requires AllDigits(s[sign..][..digits])
    ensures var v: int := Value(s[sign..][..digits]);
            ParseNumber(s) == Got(Int(if sign == 1 then -v else v), rest)
  {
    NoFraction(rest);
  }

  lemma IntRoundTrip(n: int, rest: string)
    requires Ends(rest)
    ensures ParseNumber(PrintInt(n) + rest) == Got(Int(n), rest)
    ensures PrintInt(n) != "" && (PrintInt(n)[0] == '-' || IsDigit(PrintInt(n)[0]))
  {
    var s := PrintInt(n) + rest;
    if n < 0 {
      NaturalRoundTrip(-n, rest);
      Seqs.Cons('-', Digits(-n), rest);
      NumberParts(s, 1, |Digits(-n)|, rest);
    } else {
      NaturalRoundTrip(n, rest);
      DigitsHead(n);
      assert s[0..] == s;
      NumberParts(s, 0, |Digits(n)|, rest);
    }
  }

  function Word(v: Json): string {
    match v
    case Null => "null"
    case Bool(b) => if b then "true" else "false"
    case _ => ""
  }

  function ParseWord(s: string): (p: Parsed<Json>)
    ensures p.Got? ==> |p.rest| < |s|
  {
    if Word(Null) <= s then Got(Null, s[4..])
    else if Word(Bool(true)) <= s then Got(Bool(true), s[4..])
    else if Word(Bool(false)) <= s then Got(Bool(false), s[5..])
    else ParseNumber(s)
  }

  lemma WordRoundTrip(v: Json, rest: string)
    requires v.Null? || v.Bool?
    ensures ParseWord(Word(v) + rest) == Got(v, rest)
    ensures Word(v) != "" && (Word(v)[0] == 'n' || Word(v)[0] == 't' || Word(v)[0] == 'f')
  {
    var s := Word(v) + rest;
    assert s[|Word(v)|..] == rest;
    assert s[0] == Word(v)[0];
  }

  lemma NotAWord(s: string)
    requires s != "" && (s[0] == '-' || IsDigit(s[0]))
    ensures ParseWord(s) == ParseNumber(s)
  {
    assert Word(Null)[0] == 'n' && Word(Bool(true))[0] == 't' && Word(Bool(false))[0] == 'f';
  }
}
