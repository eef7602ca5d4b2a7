/**
 * The apt source formats as scripts/browser_acquisition.py writes them down, as patterns over a line; what the
 * scanners of `AptScan` compute step by step is what these patterns match.
 */
module AptGrammar {
  import opened Text
  import opened Splice
  import opened AptScan
  import Seqs

  // ----- one-line formats -----

  /** `[ \t]*` between two places. */
  predicate Blanked(s: string, i: nat, j: nat) {
    i <= j <= |s| && forall k :: i <= k < j ==> s[k] in " \t"
  }

  /** `[^\s#]+` between two places, as long as it can be. */
  predicate Uri(s: string, a: nat, b: nat) {
    && a < b <= |s|
    && (forall k :: a <= k < b ==> !IsSpace(s[k]) && s[k] != '#')
    && (b < |s| ==> IsSpace(s[b]) || s[b] == '#')
  }

  /** `\[[^\]\r\n]*\][ \t]+` from `o` to `a`, where the bracket closes at `c`. */
  predicate Options(s: string, o: nat, c: nat, a: nat) {
    && o < c && c + 1 < a <= |s|
    && s[o] == '[' && s[c] == ']'
    && (forall k :: o < k < c ==> s[k] != ']' && s[k] != '\r' && s[k] != '\n')
    && Blanked(s, c + 1, a)
  }

  /** `[ \t]*deb(?:-src)?[ \t]+` up to `o`, with the keyword from `i` to `k`. */
  predicate Keyword(s: string, i: nat, k: nat, o: nat) {
    && Blanked(s, 0, i) && i < k <= |s|
    && (s[i..k] == "deb" || s[i..k] == "deb-src")
    && k < o && Blanked(s, k, o) && (o < |s| ==> s[o] !in " \t")
  }

  /** The URI from `a` to `b` of a source line, after an option group or directly. */
  ghost predicate Grouped(s: string, a: nat, b: nat) {
    Uri(s, a, b) && exists i: nat, k: nat, o: nat, c: nat :: Keyword(s, i, k, o) && Options(s, o, c, a)
  }

  ghost predicate Ungrouped(s: string, a: nat, b: nat) {
    Uri(s, a, b) && exists i: nat, k: nat :: Keyword(s, i, k, a)
  }

  lemma {:induction false} BlanksAre(s: string, at: nat, n: nat)
    requires at <= |s|
    ensures Blanks(s, at) == n <==> at <= n <= |s| && Blanked(s, at, n) && (n < |s| ==> s[n] !in " \t")
    decreases |s| - at
  {
    if at < |s| && Gap(s[at]) {
      BlanksAre(s, at + 1, n);
    }
  }

  lemma {:induction false} UriEndIs(s: string, at: nat, n: nat)
    requires at <= |s|
    ensures at < n ==> (UriEnd(s, at) == n <==> Uri(s, at, n))
    decreases |s| - at
  {
    if at < |s| && UriChar(s[at]) {
      UriEndIs(s, at + 1, n);
      if n == at + 1 {
        assert UriEnd(s, n) == n <==> n == |s| || !UriChar(s[n]);
      }
    }
  }

  lemma UriAtIs(s: string, at: nat, n: nat)
    requires at <= |s|
    ensures UriAt(s, at) == [Span(at, n)] <==> Uri(s, at, n)
    ensures UriAt(s, at) != [] ==> UriAt(s, at) == [Span(at, UriEnd(s, at))] && Uri(s, at, UriEnd(s, at))
  {
    UriEndIs(s, at, n);
    UriEndIs(s, at, UriEnd(s, at));
  }

  lemma {:induction false} BracketEndIs(s: string, at: nat, c: nat)
    requires at <= |s|
    ensures BracketEnd(s, at) == Some(c + 1)
       <==> && at <= c < |s| && s[c] == ']'
            && forall k :: at <= k < c ==> s[k] != ']' && s[k] != '\r' && s[k] != '\n'
    decreases |s| - at
  {
    if at < |s| && s[at] != '\r' && s[at] != '\n' && s[at] != ']' {
      BracketEndIs(s, at + 1, c);
    }
  }

  /** The option group is skipped with all the blanks after it. */
  lemma AfterOptionsIs(s: string, o: nat, a: nat)
    requires o <= |s|
    ensures AfterOptions(s, o) == Some(a)
       <==> (exists c: nat :: Options(s, o, c, a)) && (a < |s| ==> s[a] !in " \t")
  {
    if o < |s| && s[o] == '[' {
      match BracketEnd(s, o + 1)
      case Some(e) =>
        BracketEndIs(s, o + 1, e - 1);
        BlanksAre(s, e, a);
        BlanksAre(s, e, Blanks(s, e));
        if AfterOptions(s, o) == Some(a) {
          assert Options(s, o, e - 1, a);
        }
        if c: nat :| Options(s, o, c, a) {
          BracketEndIs(s, o + 1, c);
        }
      case None =>
        if c: nat :| Options(s, o, c, a) {
          BracketEndIs(s, o + 1, c);
        }
    }
  }

  lemma KeywordSplit(s: string, at: nat)
    requires at <= |s| && KeywordEnd(s, at).Some?
    ensures s[at..KeywordEnd(s, at).value] == "deb" || s[at..KeywordEnd(s, at).value] == "deb-src"
  {
    if KeywordEnd(s, at) == Some(at + 7) {
      assert s[at..at + 7] == s[at..at + 3] + s[at + 3..at + 7];
      assert "deb" + "-src" == "deb-src";
    }
  }

  lemma KeywordFound(s: string, i: nat, k: nat, o: nat)
    requires Keyword(s, i, k, o)
    ensures KeywordEnd(s, i) == Some(k)
  {
    assert s[k] in " \t";
    if s[i..k] == "deb" {
      assert s[i..k] == s[i..i + 3];
      assert i + 7 <= |s| ==> s[i + 3..i + 7][0] == s[k];
    } else {
      assert s[i..i + 3] == s[i..k][..3] == "deb";
      assert s[i + 3..i + 7] == s[i..k][3..] == "-src";
    }
  }

  /** Where the keyword ends and what follows it begins. */
  lemma KeywordIs(s: string, o: nat)
    ensures (exists i: nat, k: nat :: Keyword(s, i, k, o))
       <==> KeywordEnd(s, Blanks(s, 0)).Some? && KeywordEnd(s, Blanks(s, 0)).value < o
            && Blanks(s, KeywordEnd(s, Blanks(s, 0)).value) == o
  {
    var at := Blanks(s, 0);
    BlanksAre(s, 0, at);
    var end := KeywordEnd(s, at);
    if end.Some? {
      BlanksAre(s, end.value, o);
      if end.value < o && Blanks(s, end.value) == o {
        KeywordSplit(s, at);
        assert Keyword(s, at, end.value, o);
      }
    }
    if i: nat, k: nat :| Keyword(s, i, k, o) {
      assert s[i..k][0] == s[i];
      BlanksAre(s, 0, i);
      KeywordFound(s, i, k, o);
      BlanksAre(s, k, o);
    }
  }

  /** Where the keyword and the blanks after it end. */
  function Place(line: string): (o: Option<nat>)
    ensures o.Some? ==> o.value <= |line|
  {
    match KeywordEnd(line, Blanks(line, 0))
    case None => None
    case Some(k) => if Blanks(line, k) == k then None else Some(Blanks(line, k))
  }

  lemma GroupedIs(line: string, a: nat, b: nat)
    ensures Grouped(line, a, b)
       <==> && Place(line).Some? && AfterOptions(line, Place(line).value) == Some(a)
            && UriAt(line, a) == [Span(a, b)]
  {
    if Place(line).Some? && AfterOptions(line, Place(line).value) == Some(a) {
      var o := Place(line).value;
      KeywordIs(line, o);
      AfterOptionsIs(line, o, a);
      UriAtIs(line, a, b);
    }
    if i: nat, k: nat, o: nat, c: nat :| Uri(line, a, b) && Keyword(line, i, k, o) && Options(line, o, c, a) {
      KeywordIs(line, o);
      AfterOptionsIs(line, o, a);
      UriAtIs(line, a, b);
    }
  }

  lemma UngroupedIs(line: string, a: nat, b: nat)
    ensures Ungrouped(line, a, b) <==> Place(line) == Some(a) && UriAt(line, a) == [Span(a, b)]
  {
    KeywordIs(line, a);
    if a <= |line| {
      UriAtIs(line, a, b);
    }
  }

  /**
   * `^[ \t]*deb(?:-src)?[ \t]+(?:\[[^\]\r\n]*\][ \t]+)?([^\s#]+)`: the URI after an option group where there is one
   * and a URI follows it, otherwise the URI after the keyword.
   */
  lemma ListUriIs(line: string, a: nat, b: nat)
    ensures ListUri(line) == [Span(a, b)]
       <==> Grouped(line, a, b) || (Ungrouped(line, a, b) && !exists x: nat, y: nat :: Grouped(line, x, y))
    ensures |ListUri(line)| <= 1
  {
    GroupedIs(line, a, b);
    UngroupedIs(line, a, b);
    if Place(line).Some? {
      var at := Place(line).value;
      UriAtIs(line, at, b);
      if AfterOptions(line, at).Some? {
        var u := AfterOptions(line, at).value;
        UriAtIs(line, u, b);
        GroupedIs(line, u, UriEnd(line, u));
      }
    }
    if x: nat, y: nat :| Grouped(line, x, y) {
      GroupedIs(line, x, y);
    }
  }

  /** `^[ \t]*([^\s#]+)` */
  lemma MirrorUriIs(line: string, a: nat, b: nat)
    ensures MirrorUri(line) == [Span(a, b)] <==> Blanked(line, 0, a) && Uri(line, a, b)
    ensures |MirrorUri(line)| <= 1
  {
    BlanksAre(line, 0, Blanks(line, 0));
    UriAtIs(line, Blanks(line, 0), b);
    if Blanked(line, 0, a) && Uri(line, a, b) {
      BlanksAre(line, 0, a);
    }
  }

  // ----- deb822 -----

  /** `([^\s:]+):` at the front, up to `n`. */
  predicate Header(line: string, n: nat) {
    && 2 <= n <= |line| && line[n - 1] == ':'
    && forall i :: 0 <= i < n - 1 ==> !IsSpace(line[i]) && line[i] != ':'
  }

  lemma {:induction false} NameLenIs(line: string, n: nat)
    ensures NameLen(line) == n
       <==> && n <= |line| && (forall i :: 0 <= i < n ==> !IsSpace(line[i]) && line[i] != ':')
            && (n < |line| ==> IsSpace(line[n]) || line[n] == ':')
  {
    if line != "" && !IsSpace(line[0]) && line[0] != ':' && n > 0 {
      NameLenIs(line[1..], n - 1);
    }
  }

  lemma HeaderEndIs(line: string, n: nat)
    ensures Header(line, n) <==> n > 0 && HeaderEnd(line) == n
  {
    NameLenIs(line, NameLen(line));
    if n > 0 {
      NameLenIs(line, n - 1);
    }
  }

  /** A word in either case, letter by letter. */
  predicate Spells(name: string, small: string, capital: string) {
    |name| == |small| == |capital| && forall i :: 0 <= i < |name| ==> name[i] == small[i] || name[i] == capital[i]
  }

  lemma LowerSpells(name: string, small: string, capital: string)
    requires |small| == |capital|
    requires forall i :: 0 <= i < |small| ==> 'a' <= small[i] <= 'z' && capital[i] as int == small[i] as int - 32
    ensures Lower(name) == small <==> Spells(name, small, capital)
  {
    if Spells(name, small, capital) {
      assert forall i :: 0 <= i < |name| ==> Lower(name)[i] == small[i];
    }
    if Lower(name) == small {
      assert forall i :: 0 <= i < |name| ==> Lower(name)[i] == small[i];
    }
  }

  /** The field that a line which is neither blank nor indented opens: none without a header, else the one it names. */
  lemma HeaderFieldIs(line: string)
    ensures HeaderField(line) == Uris
       <==> exists n: nat :: Header(line, n) && Spells(line[..n - 1], "uris", "URIS")
    ensures HeaderField(line) == Enabled
       <==> exists n: nat :: Header(line, n) && Spells(line[..n - 1], "enabled", "ENABLED")
  {
    var n := HeaderEnd(line);
    HeaderEndIs(line, n);
    if n > 0 {
      LowerSpells(line[..n - 1], "uris", "URIS");
      LowerSpells(line[..n - 1], "enabled", "ENABLED");
    }
    if m: nat :| Header(line, m) {
      HeaderEndIs(line, m);
    }
  }

  /** `line.lstrip().startswith("#")` */
  lemma {:induction false} CommentIs(line: string)
    ensures Comment(line) <==> exists i :: 0 <= i < |line| && line[i] == '#' && Blank(line[..i])
  {
    if line != "" && IsSpace(line[0]) {
      CommentIs(line[1..]);
      if i :| 0 <= i < |line[1..]| && line[1..][i] == '#' && Blank(line[1..][..i]) {
        assert line[..i + 1] == [line[0]] + line[1..][..i];
        assert line[i + 1] == '#' && Blank(line[..i + 1]);
      }
      if i :| 0 <= i < |line| && line[i] == '#' && Blank(line[..i]) {
        assert line[1..][..i - 1] == line[..i][1..];
      }
    } else if line != "" {
      assert line[..0] == "";
      assert forall i :: 0 < i <= |line| ==> line[..i][0] == line[0];
    }
  }

  predicate ZerosFrom(s: string, i: nat) {
    i < |s| && forall k :: i <= k < |s| ==> s[k] == '0'
  }

  /** `[+-]?(?:0+|0x0+)`, with the `x` in either case; the sign ends at `i`. */
  predicate ZeroNumber(s: string, i: nat) {
    && i <= 1 && i < |s| && (i == 1 ==> s[0] in "+-")
    && (ZerosFrom(s, i) || (i + 2 < |s| && s[i] == '0' && s[i + 1] in "xX" && ZerosFrom(s, i + 2)))
  }

  lemma LowerZeros(s: string, i: nat)
    requires i <= |s|
    ensures AllZeros(Lower(s)[i..]) <==> ZerosFrom(s, i)
  {
    assert forall k :: i <= k < |s| ==> Lower(s)[i..][k - i] == Lower(s)[k];
    assert forall k :: 0 <= k < |s| ==> (Lower(s)[k] == '0' <==> s[k] == '0');
  }

  /** The digits after the sign, plain or hexadecimal. */
  lemma LowerZeroDigits(s: string, i: nat)
    requires i <= |s|
    ensures var digits := Lower(s)[i..];
            (AllZeros(digits) || (|digits| > 2 && digits[..2] == "0x" && AllZeros(digits[2..])))
            <==> ZerosFrom(s, i) || (i + 2 < |s| && s[i] == '0' && s[i + 1] in "xX" && ZerosFrom(s, i + 2))
  {
    var digits := Lower(s)[i..];
    LowerZeros(s, i);
    if i + 2 <= |s| {
      LowerZeros(s, i + 2);
      assert digits[2..] == Lower(s)[i + 2..];
      assert digits[..2] == [Lower(s)[i], Lower(s)[i + 1]];
      assert digits[..2] == "0x" <==> s[i] == '0' && s[i + 1] in "xX";
    }
  }

  lemma ZeroLiteralIs(s: string)
    ensures ZeroLiteral(Lower(s)) <==> exists i: nat :: ZeroNumber(s, i)
  {
    assert Lower(s)[0..] == Lower(s);
    LowerZeroDigits(s, 0);
    if s != "" {
      assert Lower(s)[0] == '+' || Lower(s)[0] == '-' <==> s[0] in "+-";
      LowerZeroDigits(s, 1);
    }
    assert ZeroNumber(s, 0) || !ZeroNumber(s, 0);
    assert ZeroNumber(s, 1) || !ZeroNumber(s, 1);
  }

  /** A stanza is off when its `Enabled` words, with a blank between them, are one of these words or a zero. */
  lemma DisabledIs(words: seq<string>)
    ensures var value := Join(" ", words);
            Disabled(words)
            <==> || Spells(value, "no", "NO") || Spells(value, "false", "FALSE") || Spells(value, "off", "OFF")
                 || Spells(value, "without", "WITHOUT") || Spells(value, "disable", "DISABLE")
                 || exists i: nat :: ZeroNumber(value, i)
  {
    var value := Join(" ", words);
    LowerSpells(value, "no", "NO");
    LowerSpells(value, "false", "FALSE");
    LowerSpells(value, "off", "OFF");
    LowerSpells(value, "without", "WITHOUT");
    LowerSpells(value, "disable", "DISABLE");
    ZeroLiteralIs(value);
  }

  /** `\S+` from `at` on: a run that no other character can be added to. */
  predicate Run(s: string, at: nat, span: Span) {
    && at <= span.start < span.end <= |s|
    && (forall k :: span.start <= k < span.end ==> !IsSpace(s[k]))
    && (span.start > at ==> IsSpace(s[span.start - 1]))
    && (span.end < |s| ==> IsSpace(s[span.end]))
  }

  lemma {:induction false} WordEndIs(s: string, at: nat, n: nat)
    requires at <= n <= |s|
    ensures WordEnd(s, at) == n <==> (forall k :: at <= k < n ==> !IsSpace(s[k])) && (n < |s| ==> IsSpace(s[n]))
    decreases |s| - at
  {
    if at < |s| && !IsSpace(s[at]) && at < n {
      WordEndIs(s, at + 1, n);
    }
  }

  lemma {:induction false} RunsAre(s: string, at: nat, span: Span)
    requires at <= |s|
    ensures span in Runs(s, at) <==> Run(s, at, span)
    decreases |s| - at
  {
    if at < |s| && IsSpace(s[at]) {
      RunsAre(s, at + 1, span);
    } else if at < |s| {
      var end := WordEnd(s, at);
      WordEndIs(s, at, end);
      RunsAre(s, end, span);
      if span.start == at && at < span.end <= |s| {
        WordEndIs(s, at, span.end);
      }
    }
  }

  // ----- lines -----

  /** One end of a line. */
  predicate LineEnd(universal: bool, end: string) {
    if universal then end == "\r\n" || (|end| == 1 && end[0] in BREAKS) else end == "\n"
  }

  predicate Endless(universal: bool, s: string) {
    forall i :: 0 <= i < |s| ==> if universal then s[i] !in BREAKS else s[i] != '\n'
  }

  /** A line with its end at `k`. */
  predicate EndsAt(universal: bool, s: string, k: nat) {
    k < |s| && Endless(universal, s[..k]) && LineEnd(universal, s[k..])
  }

  ghost predicate Line(universal: bool, s: string) {
    exists k: nat :: EndsAt(universal, s, k)
  }

  lemma EndsAre(universal: bool, c: char)
    ensures Ends(universal, c) <==> if universal then c in BREAKS else c == '\n'
  {
    SpacesAre(c);
  }

  lemma LineGrows(universal: bool, c: char, later: string)
    requires !Ends(universal, c)
    ensures Line(universal, later) ==> Line(universal, [c] + later)
    ensures Endless(universal, later) ==> Endless(universal, [c] + later)
  {
    EndsAre(universal, c);
    if k: nat :| EndsAt(universal, later, k) {
      assert ([c] + later)[..k + 1] == [c] + later[..k] && ([c] + later)[k + 1..] == later[k..];
      assert EndsAt(universal, [c] + later, k + 1);
    }
  }

  lemma LineEndsAtOnce(universal: bool, s: string)
    requires s != "" && Ends(universal, s[0])
    ensures Line(universal, s[..LineLen(universal, s)])
  {
    var line := s[..LineLen(universal, s)];
    EndsAre(universal, s[0]);
    assert line[..0] == "" && line[0..] == line;
    assert EndsAt(universal, line, 0);
  }

  lemma LineGoesOn(universal: bool, s: string)
    requires |s| > 1 && !Ends(universal, s[0])
    ensures var n := LineLen(universal, s);
            && n == 1 + LineLen(universal, s[1..]) && s[1..] != ""
            && Seqs.Same([s[0]] + s[1..][..n - 1], s[..n]) && Seqs.Same([s[0]] + s[1..], s)
            && s[n - 1] == s[1..][n - 2] && (n < |s| ==> s[n] == s[1..][n - 1])
  {
    assert [s[0]] + s[1..][..LineLen(universal, s) - 1] == s[..LineLen(universal, s)];
    assert [s[0]] + s[1..] == s;
  }

  /** The first line ends at the first line end, and the last one possibly nowhere. */
  lemma {:induction false} LineLenIs(universal: bool, s: string)
    requires s != ""
    ensures var n := LineLen(universal, s);
            && (Line(universal, s[..n]) || (n == |s| && Endless(universal, s)))
            && (universal && n < |s| && s[n - 1] == '\r' ==> s[n] != '\n')
  {
    EndsAre(universal, s[0]);
    if Ends(universal, s[0]) {
      LineEndsAtOnce(universal, s);
    } else if |s| > 1 {
      LineLenIs(universal, s[1..]);
      LineGoesOn(universal, s);
      LineGrows(universal, s[0], s[1..][..LineLen(universal, s) - 1]);
      LineGrows(universal, s[0], s[1..]);
    }
  }

  /** No line begins within `\r\n`. */
  predicate Parted(universal: bool, line: string, next: string) {
    universal && line != "" && line[|line| - 1] == '\r' ==> next != "" && next[0] != '\n'
  }

  /** Lines with their ends, of which the last may have none. */
  ghost predicate Broken(universal: bool, lines: seq<string>) {
    if lines == [] then true
    else if |lines| == 1 then lines[0] != "" && (Line(universal, lines[0]) || Endless(universal, lines[0]))
    else Line(universal, lines[0]) && Parted(universal, lines[0], lines[1]) && Broken(universal, lines[1..])
  }

  lemma FirstLine(universal: bool, s: string)
    requires s != ""
    ensures var n, lines := LineLen(universal, s), Lines(universal, s);
            && lines != [] && lines[0] == s[..n] && Seqs.Same(lines[1..], Lines(universal, s[n..]))
            && (n == |s| ==> |lines| == 1 && lines[0] == s)
            && (n < |s| ==> |lines| > 1 && lines[1] != "" && lines[1][0] == s[n])
  {
    var n := LineLen(universal, s);
    Seqs.Cons(s[..n], Lines(universal, s[n..]), []);
    assert n == |s| ==> s[n..] == "" && s[..n] == s;
  }

  /** The lines of a text. Joined, they are the text. */
  lemma {:induction false} LinesAre(universal: bool, s: string)
    ensures Broken(universal, Lines(universal, s)) && Concat(Lines(universal, s)) == s
    decreases |s|
  {
    LinesJoin(universal, s);
    if s != "" {
      LineLenIs(universal, s);
      FirstLine(universal, s);
      LinesAre(universal, s[LineLen(universal, s)..]);
    }
  }
}
