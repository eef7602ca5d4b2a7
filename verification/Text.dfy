/** Algebra of sequences, kept apart so that each proof asks the solver only for the instance it needs. */
module Seqs {
  /** Equality of two values as such, where the solver need not compare sequences element by element. */
  ghost predicate Same<T>(a: T, b: T) {
    a == b
  }

  lemma Assoc<T>(a: seq<T>, b: seq<T>, c: seq<T>)
    ensures (a + b) + c == a + (b + c)
  {
  }

  lemma Slice<T>(s: seq<T>, i: nat, j: nat, k: nat)
    requires i <= j <= k <= |s|
    ensures s[i..k] == s[i..j] + s[j..k]
  {
  }

  lemma Cut<T>(s: seq<T>, i: nat)
    requires i <= |s|
    ensures s == s[..i] + s[i..]
  {
  }

  lemma Concatenation<T>(a: seq<T>, b: seq<T>)
    ensures (a + b)[..|a|] == a && (a + b)[|a|..] == b
  {
  }

  lemma Whole<T>(s: seq<T>)
    ensures s[0..] == s && s[|s|..] == []
  {
  }

  lemma SliceOfDrop<T>(s: seq<T>, d: nat, i: nat, j: nat)
    requires d <= |s| && i <= j <= |s| - d
    ensures s[d..][i..j] == s[i + d..j + d]
  {
  }

  lemma SliceOfSlice<T>(s: seq<T>, a: nat, b: nat, i: nat, j: nat)
    requires a <= b <= |s| && i <= j <= b - a
    ensures s[a..b][i..j] == s[i + a..j + a]
  {
    forall k | 0 <= k < j - i
      ensures s[a..b][i..j][k] == s[i + a..j + a][k]
    {
      assert s[a..b][i + k] == s[a + (i + k)];
    }
  }

  lemma SliceOfTake<T>(s: seq<T>, m: nat, i: nat, j: nat)
    requires i <= j <= m <= |s|
    ensures s[..m][i..j] == s[i..j]
  {
  }

  lemma Tail<T>(s: seq<T>, i: nat)
    requires i < |s|
    ensures s[i..] != [] && s[i..][0] == s[i] && s[i..][1..] == s[i + 1..]
  {
  }

  lemma TakeNext<T>(s: seq<T>, k: nat)
    requires k < |s|
    ensures s[..k + 1] == s[..k] + [s[k]]
  {
  }

  lemma Cons<T>(head: T, a: seq<T>, b: seq<T>)
    ensures ([head] + a) + b == [head] + (a + b) && ([head] + a)[0] == head && ([head] + a)[1..] == a
  {
  }

  lemma AppendTail<T>(a: seq<T>, b: seq<T>)
    requires a != []
    ensures a + b != [] && (a + b)[0] == a[0] && (a + b)[1..] == a[1..] + b
  {
  }

  lemma Wrap<T>(open: T, s: seq<T>, close: T, rest: seq<T>)
    ensures ([open] + s + [close]) + rest == [open] + (s + ([close] + rest))
    ensures (([open] + s + [close]) + rest)[0] == open
    ensures (([open] + s + [close]) + rest)[1..] == s + ([close] + rest)
    ensures |([open] + s + [close]) + rest| == |s| + |rest| + 2
  {
  }

  lemma Empty<T>(a: seq<T>)
    ensures [] + a == a && a + [] == a
  {
  }
}

/** Character classes and string operations shared by the models, as Python's `str` defines them. */
module Text {
  import Seqs

  datatype Option<+T> = None | Some(value: T)
  datatype Result<+T> = Ok(value: T) | Err(message: string)

  type Byte = x: int | 0 <= x < 256

  /** `str.isspace`, which is also what `\s` and `str.strip` use. */
  predicate IsSpace(c: char) {
    var n := c as int;
    9 <= n <= 13 || 28 <= n <= 32 || n == 0x85 || n == 0xA0 || n == 0x1680 || 0x2000 <= n <= 0x200A
    || n == 0x2028 || n == 0x2029 || n == 0x202F || n == 0x205F || n == 0x3000
  }

  /** The line boundaries of `str.splitlines`. Each of them is white space. */
  predicate IsBreak(c: char) {
    var n := c as int;
    10 <= n <= 13 || 28 <= n <= 30 || n == 0x85 || n == 0x2028 || n == 0x2029
  }

  /** The same characters one by one. */
  const SPACES := "\t\n\U{B}\U{C}\r\U{1C}\U{1D}\U{1E}\U{1F} \U{85}\U{A0}\U{1680}"
                  + "\U{2000}\U{2001}\U{2002}\U{2003}\U{2004}\U{2005}\U{2006}\U{2007}\U{2008}\U{2009}\U{200A}"
                  + "\U{2028}\U{2029}\U{202F}\U{205F}\U{3000}"
  const BREAKS := "\n\U{B}\U{C}\r\U{1C}\U{1D}\U{1E}\U{85}\U{2028}\U{2029}"

  lemma SpacesAre(c: char)
    ensures c in SPACES <==> IsSpace(c)
    ensures c in BREAKS <==> IsBreak(c)
    ensures IsBreak(c) ==> IsSpace(c)
  {
  }

  predicate Blank(s: string) {
    forall i :: 0 <= i < |s| ==> IsSpace(s[i])
  }

  /** The comparisons in the sources are with ASCII words without a `k`, so ASCII case folding is exact for them. */
  function Lower(s: string): string {
    seq(|s|, i requires 0 <= i < |s| => if 'A' <= s[i] <= 'Z' then (s[i] as int + 32) as char else s[i])
  }

  function Join(separator: string, parts: seq<string>): string {
    if parts == [] then ""
    else if |parts| == 1 then parts[0]
    else parts[0] + separator + Join(separator, parts[1..])
  }

  function Concat(parts: seq<string>): string {
    if parts == [] then "" else parts[0] + Concat(parts[1..])
  }

  lemma ConcatCons(head: string, rest: seq<string>)
    ensures Concat([head] + rest) == head + Concat(rest)
  {
    Seqs.Cons(head, rest, []);
  }

  predicate Contains(s: string, part: string) {
    part <= s || (s != "" && Contains(s[1..], part))
  }

  predicate FoundAt(s: string, part: string, i: int) {
    0 <= i <= |s| - |part| && s[i..i + |part|] == part
  }

  lemma FoundFirst(s: string, part: string)
    ensures FoundAt(s, part, 0) <==> part <= s
  {
    assert part <= s ==> s[..|part|] == part;
  }

  lemma FoundNext(s: string, part: string, i: nat)
    requires s != ""
    ensures FoundAt(s[1..], part, i) <==> FoundAt(s, part, i + 1)
  {
    if i + 1 <= |s| - |part| {
      assert s[1..][i..i + |part|] == s[i + 1..i + 1 + |part|];
    }
  }

  lemma {:induction false} ContainsAt(s: string, part: string)
    ensures Contains(s, part) <==> exists i :: FoundAt(s, part, i)
  {
    FoundFirst(s, part);
    if s != "" {
      ContainsAt(s[1..], part);
      if i :| FoundAt(s[1..], part, i) {
        FoundNext(s, part, i);
      }
      if i :| FoundAt(s, part, i) && i > 0 {
        FoundNext(s, part, i - 1);
      }
    }
  }

  // ----- digits -----

  predicate IsDigit(c: char) {
    '0' <= c <= '9'
  }

  predicate AllDigits(s: string) {
    forall i :: 0 <= i < |s| ==> IsDigit(s[i])
  }

  /** `[0-9a-f]` exactly n times */
  predicate Hex(s: string, n: nat) {
    |s| == n && forall i :: 0 <= i < n ==> IsDigit(s[i]) || 'a' <= s[i] <= 'f'
  }

  /** How many digits a text begins with. */
  function DigitRun(s: string): (n: nat)
    ensures n <= |s|
  {
    if s == "" || !IsDigit(s[0]) then 0 else 1 + DigitRun(s[1..])
  }

  lemma {:induction false} DigitRunDigits(s: string, n: nat)
    requires n <= DigitRun(s)
    ensures AllDigits(s[..n])
  {
    if n > 0 {
      DigitRunDigits(s[1..], n - 1);
      assert s[..n] == [s[0]] + s[1..][..n - 1];
    }
  }

  lemma {:induction false} DigitRunOf(digits: string, rest: string)
    requires AllDigits(digits) && (rest == "" || !IsDigit(rest[0]))
    ensures DigitRun(digits + rest) == |digits|
  {
    if digits == "" {
      assert digits + rest == rest;
    } else {
      assert (digits + rest)[1..] == digits[1..] + rest;
      DigitRunOf(digits[1..], rest);
    }
  }

  lemma DigitsOnly(c: char)
    ensures IsDigit(c) <==> c in "0123456789"
  {
    assert IsDigit(c) ==> "0123456789"[c as int - 48] == c;
  }

  lemma HexOnly(c: char)
    ensures IsDigit(c) || 'a' <= c <= 'f' <==> c in "0123456789abcdef"
  {
    assert IsDigit(c) ==> "0123456789abcdef"[c as int - 48] == c;
    assert 'a' <= c <= 'f' ==> "0123456789abcdef"[c as int - 87] == c;
  }

  lemma HexIs(s: string, n: nat)
    ensures Hex(s, n) <==> |s| == n && forall i :: 0 <= i < n ==> s[i] in "0123456789abcdef"
  {
    forall i | 0 <= i < |s|
      ensures IsDigit(s[i]) || 'a' <= s[i] <= 'f' <==> s[i] in "0123456789abcdef"
    {
      HexOnly(s[i]);
    }
  }

  // ----- UTF-8 -----

  function Utf8(c: char): seq<Byte> {
    var n := c as int;
    if n < 0x80 then [n]
    else if n < 0x800 then [0xC0 + n / 0x40, 0x80 + n % 0x40]
    else if n < 0x10000 then [0xE0 + n / 0x1000, 0x80 + n / 0x40 % 0x40, 0x80 + n % 0x40]
    else [0xF0 + n / 0x40000, 0x80 + n / 0x1000 % 0x40, 0x80 + n / 0x40 % 0x40, 0x80 + n % 0x40]
  }

  /** One character of each length: A, e with an acute accent, the euro sign, and a face. */
  lemma Utf8Samples()
    ensures Utf8('A') == [0x41] && Utf8('\U{E9}') == [0xC3, 0xA9]
    ensures Utf8('\U{20AC}') == [0xE2, 0x82, 0xAC] && Utf8('\U{1F600}') == [0xF0, 0x9F, 0x98, 0x80]
  {
  }

  /** `text.encode()` */
  function Encode(text: string): seq<Byte> {
    if text == "" then [] else Utf8(text[0]) + Encode(text[1..])
  }

  /** ASCII texts are their own codes. */
  lemma {:induction false} EncodeAscii(text: string)
    requires forall i :: 0 <= i < |text| ==> text[i] as int < 0x80
    ensures |Encode(text)| == |text| && forall i :: 0 <= i < |text| ==> Encode(text)[i] == text[i] as int
  {
    if text != "" {
      EncodeAscii(text[1..]);
      forall i | 0 <= i < |text|
        ensures Encode(text)[i] == text[i] as int
      {
        assert i > 0 ==> Encode(text)[i] == Encode(text[1..])[i - 1];
      }
    }
  }

  lemma {:induction false} EncodeAppend(a: string, b: string)
    ensures Encode(a + b) == Encode(a) + Encode(b)
  {
    if a == "" {
      Seqs.Empty(b);
      Seqs.Empty(Encode(b));
    } else {
      Seqs.AppendTail(a, b);
      EncodeAppend(a[1..], b);
      Seqs.Assoc(Utf8(a[0]), Encode(a[1..]), Encode(b));
    }
  }

  /** `len(text.encode())` */
  function ByteLength(text: string): nat {
    |Encode(text)|
  }

  function ByteAt(bytes: seq<Byte>, i: nat): int {
    if i < |bytes| then bytes[i] else 0
  }

  /** The number that four bytes stand for, or as many of them as the first one tells. */
  function NumberOf(a: int, b: int, c: int, d: int): int {
    if a < 0x80 then a
    else if a < 0xE0 then (a - 0xC0) * 0x40 + (b - 0x80)
    else if a < 0xF0 then (a - 0xE0) * 0x1000 + (b - 0x80) * 0x40 + (c - 0x80)
    else (a - 0xF0) * 0x40000 + (b - 0x80) * 0x1000 + (c - 0x80) * 0x40 + (d - 0x80)
  }

  function FrontNumber(bytes: seq<Byte>): int {
    NumberOf(ByteAt(bytes, 0), ByteAt(bytes, 1), ByteAt(bytes, 2), ByteAt(bytes, 3))
  }

  /** The character at the front. What is not its UTF-8 byte for byte, an overlong form say, is refused. */
  function FrontChar(bytes: seq<Byte>): (c: Option<char>)
    ensures c.Some? ==> Utf8(c.value) <= bytes
  {
    var n := FrontNumber(bytes);
    if (0 <= n < 0xD800 || 0xE000 <= n < 0x110000) && Utf8(n as char) <= bytes then Some(n as char) else None
  }

  /** `bytes.decode()` */
  function Decode(bytes: seq<Byte>): Option<string> {
    if bytes == [] then Some("")
    else
      match FrontChar(bytes)
      case None => None
      case Some(c) => match Decode(bytes[|Utf8(c)|..]) case None => None case Some(text) => Some([c] + text)
  }

  lemma TwoBytes(n: nat, c: int, d: int)
    requires 0x80 <= n < 0x800
    ensures NumberOf(0xC0 + n / 0x40, 0x80 + n % 0x40, c, d) == n
  {
  }

  lemma ThreeBytes(n: nat, d: int)
    requires 0x800 <= n < 0x10000
    ensures NumberOf(0xE0 + n / 0x1000, 0x80 + n / 0x40 % 0x40, 0x80 + n % 0x40, d) == n
  {
    var m := n / 0x40;
    assert n == m * 0x40 + n % 0x40;
    assert m == m / 0x40 * 0x40 + m % 0x40 && m / 0x40 == n / 0x1000;
  }

  lemma FourBytes(n: nat)
    requires 0x10000 <= n < 0x110000
    ensures NumberOf(0xF0 + n / 0x40000, 0x80 + n / 0x1000 % 0x40, 0x80 + n / 0x40 % 0x40, 0x80 + n % 0x40) == n
  {
    var m := n / 0x40;
    var h := m / 0x40;
    assert n == m * 0x40 + n % 0x40;
    assert m == h * 0x40 + m % 0x40 && h == n / 0x1000;
    assert h == h / 0x40 * 0x40 + h % 0x40 && h / 0x40 == n / 0x40000;
  }

  lemma BytesAt(front: seq<Byte>, rest: seq<Byte>)
    ensures front <= front + rest
    ensures forall i :: 0 <= i < |front| ==> ByteAt(front + rest, i) == front[i]
  {
  }

  lemma FrontOfUtf8(c: char, rest: seq<Byte>)
    ensures FrontChar(Utf8(c) + rest) == Some(c)
  {
    var n, bytes := c as int, Utf8(c) + rest;
    BytesAt(Utf8(c), rest);
    if 0x80 <= n < 0x800 {
      TwoBytes(n, ByteAt(bytes, 2), ByteAt(bytes, 3));
    } else if 0x800 <= n < 0x10000 {
      ThreeBytes(n, ByteAt(bytes, 3));
    } else if 0x10000 <= n {
      FourBytes(n);
    }
    assert FrontNumber(bytes) == n;
  }

  lemma {:induction false} DecodeEncoded(text: string)
    ensures Decode(Encode(text)) == Some(text)
  {
    if text != "" {
      FrontOfUtf8(text[0], Encode(text[1..]));
      Seqs.Concatenation(Utf8(text[0]), Encode(text[1..]));
      DecodeEncoded(text[1..]);
      assert [text[0]] + text[1..] == text;
    }
  }

  lemma {:induction false} EncodeDecoded(bytes: seq<Byte>)
    ensures Decode(bytes).Some? ==> Encode(Decode(bytes).value) == bytes
    decreases |bytes|
  {
    if bytes != [] && FrontChar(bytes).Some? {
      var c := FrontChar(bytes).value;
      EncodeDecoded(bytes[|Utf8(c)|..]);
      if Decode(bytes).Some? {
        Seqs.Cons(c, Decode(bytes[|Utf8(c)|..]).value, []);
        Seqs.Cut(bytes, |Utf8(c)|);
      }
    }
  }

  /** The bytes that decode are exactly those of texts, each to its text. */
  lemma DecodeExactly(bytes: seq<Byte>, text: string)
    ensures Decode(bytes) == Some(text) <==> Encode(text) == bytes
  {
    DecodeEncoded(text);
    EncodeDecoded(bytes);
  }
}
