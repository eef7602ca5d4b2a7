/** The order in which canonical JSON prints the keys of an object (`key_order` in scripts/apple_brief_demo.py). */
module KeyOrder {
  import opened Text

  // ----- decimal numbers -----

  function DigitChar(d: nat): (c: char)
    requires d < 10
    ensures IsDigit(c) && c as int - 48 == d
  {
    (48 + d) as char
  }

  /** `str(n)` */
  function Digits(n: nat): string {
    if n < 10 then [DigitChar(n)] else Digits(n / 10) + [DigitChar(n % 10)]
  }

  /** `int(s)` for a string of digits */
  function Value(s: string): nat
    requires AllDigits(s)
  {
    if s == "" then 0 else 10 * Value(s[..|s| - 1]) + (s[|s| - 1] as int - 48)
  }

  lemma {:induction false} ValueOfDigits(n: nat)
    ensures AllDigits(Digits(n)) && Value(Digits(n)) == n && Digits(n) != ""
  {
    var s := Digits(n);
    if n < 10 {
      assert s[..0] == "";
    } else {
      ValueOfDigits(n / 10);
      assert s[..|s| - 1] == Digits(n / 10);
    }
  }

  /** Decimal notation: the last digit is the remainder by ten, and no number but zero starts with a zero. */
  lemma {:induction false} DigitsAre(n: nat)
    ensures n < 10 ==> Digits(n) == ["0123456789"[n]]
    ensures n >= 10 ==> Digits(n) == Digits(n / 10) + Digits(n % 10)
    ensures Digits(n) != "" && (Digits(n)[0] == '0' ==> n == 0)
  {
    if n >= 10 {
      DigitsAre(n / 10);
    }
  }

  // ----- UTF-16 -----

  /** The code units of one character; characters are Unicode scalar values. */
  function Units(c: char): seq<int> {
    var n := c as int;
    if n < 0x10000 then [n] else [0xD800 + (n - 0x10000) / 0x400, 0xDC00 + (n - 0x10000) % 0x400]
  }

  function Utf16(s: string): seq<int> {
    if s == "" then [] else Units(s[0]) + Utf16(s[1..])
  }

  /** A character below 65536 is its own unit; another one is a high and a low surrogate with ten bits each. */
  lemma UnitsAre(c: char)
    ensures c as int < 0x10000 ==> Units(c) == [c as int]
    ensures c as int >= 0x10000 ==>
              && |Units(c)| == 2
              && 0xD800 <= Units(c)[0] < 0xDC00 <= Units(c)[1] < 0xE000
              && (Units(c)[0] - 0xD800) * 1024 + (Units(c)[1] - 0xDC00) == c as int - 0x10000
  {
  }

  lemma UnitsDecode(c: char, d: char, a: seq<int>, b: seq<int>)
    requires Units(c) + a == Units(d) + b
    ensures c == d && a == b
  {
    var x, y := Units(c) + a, Units(d) + b;
    assert x[0] == Units(c)[0] && y[0] == Units(d)[0];
    if |Units(c)| == 2 && |Units(d)| == 2 {
      assert x[1] == Units(c)[1] && y[1] == Units(d)[1];
    }
    assert c == d;
    assert x[|Units(c)|..] == a && y[|Units(d)|..] == b;
  }

  lemma {:induction false} Utf16Injective(s: string, t: string)
    requires Utf16(s) == Utf16(t)
    ensures s == t
  {
    if s != "" && t != "" {
      UnitsDecode(s[0], t[0], Utf16(s[1..]), Utf16(t[1..]));
      Utf16Injective(s[1..], t[1..]);
      assert s == [s[0]] + s[1..] && t == [t[0]] + t[1..];
    }
  }

  /** Lexicographic order, a prefix first. */
  predicate LexLess(a: seq<int>, b: seq<int>) {
    b != [] && (a == [] || a[0] < b[0] || (a[0] == b[0] && LexLess(a[1..], b[1..])))
  }

  /** The first `k` elements agree, and then `a` ends, or has the smaller element. */
  predicate LessAt(a: seq<int>, b: seq<int>, k: nat) {
    && k <= |a| && k < |b|
    && a[..k] == b[..k]
    && (k == |a| || a[k] < b[k])
  }

  ghost predicate FirstDifferenceLess(a: seq<int>, b: seq<int>) {
    exists k: nat :: LessAt(a, b, k)
  }

  lemma LessAtTail(a: seq<int>, b: seq<int>, k: nat)
    requires a != [] && b != [] && a[0] == b[0]
    ensures LessAt(a[1..], b[1..], k) <==> LessAt(a, b, k + 1)
  {
    if k < |a| && k < |b| {
      assert a[..k + 1] == [a[0]] + a[1..][..k] && b[..k + 1] == [b[0]] + b[1..][..k];
      assert a[..k + 1][1..] == a[1..][..k] && b[..k + 1][1..] == b[1..][..k];
    }
  }

  lemma NotLessAt(a: seq<int>, b: seq<int>, k: nat)
    requires a != [] && b != [] && a[0] > b[0]
    ensures !LessAt(a, b, k)
  {
    if 0 < k && k <= |a| && k <= |b| {
      assert a[..k][0] == a[0] && b[..k][0] == b[0];
    }
  }

  lemma {:induction false} LexLessIff(a: seq<int>, b: seq<int>)
    ensures LexLess(a, b) <==> FirstDifferenceLess(a, b)
  {
    if a != [] && b != [] && a[0] == b[0] {
      LexLessIff(a[1..], b[1..]);
      if k: nat :| LessAt(a[1..], b[1..], k) {
        LessAtTail(a, b, k);
      }
      if k: nat :| LessAt(a, b, k) {
        LessAtTail(a, b, k - 1);
      }
    } else if LexLess(a, b) {
      assert LessAt(a, b, 0);
    } else if a != [] && b != [] {
      forall k: nat
        ensures !LessAt(a, b, k)
      {
        NotLessAt(a, b, k);
      }
    }
  }

  // ----- UTF-16, big-endian -----

  function BigEndian(units: seq<int>): seq<int> {
    if units == [] then [] else [units[0] / 256, units[0] % 256] + BigEndian(units[1..])
  }

  predicate AreUnits(units: seq<int>) {
    forall i :: 0 <= i < |units| ==> 0 <= units[i] < 0x10000
  }

  lemma {:induction false} Utf16Units(s: string)
    ensures AreUnits(Utf16(s))
  {
    if s != "" {
      Utf16Units(s[1..]);
    }
  }

  /** Comparing the bytes of `key.encode("utf-16-be")` is comparing its units. */
  lemma {:induction false} BytesOrder(a: seq<int>, b: seq<int>)
    requires AreUnits(a) && AreUnits(b)
    ensures LexLess(BigEndian(a), BigEndian(b)) <==> LexLess(a, b)
  {
    if a != [] && b != [] {
      BytesOrder(a[1..], b[1..]);
      var x, y := BigEndian(a), BigEndian(b);
      assert x[1..] == [a[0] % 256] + BigEndian(a[1..]) && y[1..] == [b[0] % 256] + BigEndian(b[1..]);
      assert x[1..][1..] == BigEndian(a[1..]) && y[1..][1..] == BigEndian(b[1..]);
    }
  }

  lemma {:induction false} LexTrichotomy(a: seq<int>, b: seq<int>)
    ensures LexLess(a, b) || a == b || LexLess(b, a)
  {
    if a != [] && b != [] && a[0] == b[0] {
      LexTrichotomy(a[1..], b[1..]);
      assert a == [a[0]] + a[1..] && b == [b[0]] + b[1..];
    }
  }

  lemma {:induction false} LexIrreflexive(a: seq<int>)
    ensures !LexLess(a, a)
  {
    if a != [] {
      LexIrreflexive(a[1..]);
    }
  }

  lemma {:induction false} LexTransitive(a: seq<int>, b: seq<int>, c: seq<int>)
    requires LexLess(a, b) && LexLess(b, c)
    ensures LexLess(a, c)
  {
    if a != [] && a[0] == b[0] == c[0] {
      LexTransitive(a[1..], b[1..], c[1..]);
    }
  }

  // ----- the order of keys -----

  const INDEX_LIMIT := 4294967295

  /** A canonical array index: digits that print back as they are, below the limit. */
  predicate IsIndex(key: string) {
    key != "" && AllDigits(key) && Digits(Value(key)) == key && Value(key) < INDEX_LIMIT
  }

  /** The indices are the decimal notations of the numbers below 4294967295. */
  lemma IndexExactly(key: string)
    ensures IsIndex(key) <==> exists n: nat :: n < 4294967295 && key == Digits(n)
  {
    if n: nat :| n < 4294967295 && key == Digits(n) {
      ValueOfDigits(n);
    }
  }

  datatype Rank = Index(n: nat) | Other(units: seq<int>)

  function KeyRank(key: string): Rank {
    if IsIndex(key) then Index(Value(key)) else Other(Utf16(key))
  }

  predicate RankLess(a: Rank, b: Rank) {
    match (a, b)
    case (Index(n), Index(m)) => n < m
    case (Index(_), Other(_)) => true
    case (Other(_), Index(_)) => false
    case (Other(u), Other(w)) => LexLess(u, w)
  }

  predicate KeyLess(a: string, b: string) {
    RankLess(KeyRank(a), KeyRank(b))
  }

  /**
   * Which order it is: indices come first, by value; the other keys by their UTF-16 units, of which the first that
   * differ decide, and that is by the bytes of `key.encode("utf-16-be")`.
   */
  lemma KeyOrderIs(a: string, b: string)
    ensures forall n: nat, m: nat :: n < 4294967295 && m < 4294967295 && a == Digits(n) && b == Digits(m) ==>
              (KeyLess(a, b) <==> n < m)
    ensures IsIndex(a) && !IsIndex(b) ==> KeyLess(a, b) && !KeyLess(b, a)
    ensures !IsIndex(a) && !IsIndex(b) ==> (KeyLess(a, b) <==> FirstDifferenceLess(Utf16(a), Utf16(b)))
    ensures FirstDifferenceLess(BigEndian(Utf16(a)), BigEndian(Utf16(b))) <==> FirstDifferenceLess(Utf16(a), Utf16(b))
  {
    forall n: nat, m: nat | n < 4294967295 && m < 4294967295 && a == Digits(n) && b == Digits(m)
      ensures KeyLess(a, b) <==> n < m
    {
      ValueOfDigits(n);
      ValueOfDigits(m);
    }
    if !IsIndex(a) && !IsIndex(b) {
      assert KeyLess(a, b) <==> LexLess(Utf16(a), Utf16(b));
    }
    LexLessIff(Utf16(a), Utf16(b));
    Utf16Units(a);
    Utf16Units(b);
    BytesOrder(Utf16(a), Utf16(b));
    LexLessIff(BigEndian(Utf16(a)), BigEndian(Utf16(b)));
  }

  lemma KeyRankInjective(a: string, b: string)
    requires KeyRank(a) == KeyRank(b)
    ensures a == b
  {
    if !IsIndex(a) {
      Utf16Injective(a, b);
    }
  }

  /**
   * The order of keys is a strict total order: exactly one of less, equal and greater holds, and less is transitive.
   */
  lemma KeyOrderTotal(a: string, b: string)
    ensures KeyLess(a, b) || a == b || KeyLess(b, a)
    ensures !(KeyLess(a, b) && KeyLess(b, a))
    ensures !KeyLess(a, a)
  {
    if KeyRank(a) == KeyRank(b) {
      KeyRankInjective(a, b);
    }
    if !IsIndex(a) && !IsIndex(b) {
      LexTrichotomy(Utf16(a), Utf16(b));
      if LexLess(Utf16(a), Utf16(b)) && LexLess(Utf16(b), Utf16(a)) {
        LexTransitive(Utf16(a), Utf16(b), Utf16(a));
        LexIrreflexive(Utf16(a));
      }
    }
    if !IsIndex(a) {
      LexIrreflexive(Utf16(a));
    }
  }

  lemma KeyOrderTransitive(a: string, b: string, c: string)
    requires KeyLess(a, b) && KeyLess(b, c)
    ensures KeyLess(a, c)
  {
    if !IsIndex(a) {
      LexTransitive(Utf16(a), Utf16(b), Utf16(c));
    }
  }

  // ----- the two orders in use -----

  /** The order of canonical texts, and Python's own order of strings. */
  datatype Order = CanonicalKeys | CodePoints

  function Points(s: string): (p: seq<int>)
    ensures |p| == |s|
  {
    if s == "" then [] else [s[0] as int] + Points(s[1..])
  }

  lemma {:induction false} PointsAre(s: string, i: nat)
    requires i < |s|
    ensures Points(s)[i] == s[i] as int
  {
    if i > 0 {
      PointsAre(s[1..], i - 1);
    }
  }

  lemma {:induction false} PointsInjective(s: string, t: string)
    requires Points(s) == Points(t)
    ensures s == t
  {
    if s != "" && t != "" {
      assert Points(s)[1..] == Points(s[1..]) && Points(t)[1..] == Points(t[1..]);
      assert Points(s)[0] == Points(t)[0];
      PointsInjective(s[1..], t[1..]);
      assert s == [s[0]] + s[1..] && t == [t[0]] + t[1..];
    }
  }

  predicate Before(order: Order, a: string, b: string) {
    match order
    case CanonicalKeys => KeyLess(a, b)
    case CodePoints => LexLess(Points(a), Points(b))
  }

  /** The first `k` characters agree, and then `a` ends, or has the smaller character. */
  predicate CharsLessAt(a: string, b: string, k: nat) {
    && k <= |a| && k < |b|
    && a[..k] == b[..k]
    && (k == |a| || a[k] < b[k])
  }

  ghost predicate FirstCharsLess(a: string, b: string) {
    exists k: nat :: CharsLessAt(a, b, k)
  }

  lemma PointsLessAt(a: string, b: string, k: nat)
    ensures LessAt(Points(a), Points(b), k) <==> CharsLessAt(a, b, k)
  {
    forall i: nat | i < |a|
      ensures Points(a)[i] == a[i] as int
    {
      PointsAre(a, i);
    }
    forall i: nat | i < |b|
      ensures Points(b)[i] == b[i] as int
    {
      PointsAre(b, i);
    }
    if k <= |a| && k <= |b| {
      assert forall i :: 0 <= i < k ==> Points(a)[..k][i] == a[..k][i] as int && Points(b)[..k][i] == b[..k][i] as int;
      assert Points(a)[..k] == Points(b)[..k] ==> forall i :: 0 <= i < k ==> a[..k][i] == b[..k][i];
    }
  }

  /** Python's order of strings: the first characters that differ decide. */
  lemma CodePointOrderIs(a: string, b: string)
    ensures Before(CodePoints, a, b) <==> FirstCharsLess(a, b)
  {
    LexLessIff(Points(a), Points(b));
    if k: nat :| LessAt(Points(a), Points(b), k) {
      PointsLessAt(a, b, k);
    }
    if k: nat :| CharsLessAt(a, b, k) {
      PointsLessAt(a, b, k);
    }
  }

  lemma BeforeTotal(order: Order, a: string, b: string)
    ensures Before(order, a, b) || a == b || Before(order, b, a)
    ensures !(Before(order, a, b) && Before(order, b, a))
    ensures !Before(order, a, a)
  {
    match order
    case CanonicalKeys => KeyOrderTotal(a, b);
    case CodePoints =>
      if Points(a) == Points(b) {
        PointsInjective(a, b);
      }
      LexTrichotomy(Points(a), Points(b));
      LexIrreflexive(Points(a));
      if LexLess(Points(a), Points(b)) && LexLess(Points(b), Points(a)) {
        LexTransitive(Points(a), Points(b), Points(a));
      }
  }

  lemma BeforeTransitive(order: Order, a: string, b: string, c: string)
    requires Before(order, a, b) && Before(order, b, c)
    ensures Before(order, a, c)
  {
    match order
    case CanonicalKeys => KeyOrderTransitive(a, b, c);
    case CodePoints => LexTransitive(Points(a), Points(b), Points(c));
  }
}
