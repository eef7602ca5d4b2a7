/**
 * Scanning a text line by line for tokens, and splicing replacements into it (scripts/browser_acquisition.py).
 *
 * A `Scanner` says which tokens of a line it picks and what it carries from line to line. The edit of a token is a
 * parameter too: the theorems rest on `Tame`, which is what an edit may do without changing what a scanner sees.
 */
module Splice {
  import opened Text
  import Seqs

  datatype Span = Span(start: nat, end: nat)

  type Edit = string -> string

  /** A token that stays one token wherever a URI may stand. */
  predicate Plain(w: string) {
    w != "" && w[0] != '[' && forall i :: 0 <= i < |w| ==> !IsSpace(w[i]) && w[i] != '#'
  }

  ghost predicate Tame(edit: Edit) {
    forall w :: edit(w) == w || (Plain(w) && Plain(edit(w)))
  }

  // ----- spans -----

  function Shift(spans: seq<Span>, d: nat): seq<Span> {
    if spans == [] then [] else [Span(spans[0].start + d, spans[0].end + d)] + Shift(spans[1..], d)
  }

  /** The text a span selects; empty when it selects none. */
  function Cut(s: string, span: Span): string {
    if span.start <= span.end <= |s| then s[span.start..span.end] else ""
  }

  function Texts(s: string, spans: seq<Span>): seq<string> {
    if spans == [] then [] else [Cut(s, spans[0])] + Texts(s, spans[1..])
  }

  /** Increasing, disjoint, not empty, and within `from..limit`. */
  predicate Ordered(spans: seq<Span>, from: nat, limit: nat) {
    if spans == [] then from <= limit
    else from <= spans[0].start < spans[0].end && Ordered(spans[1..], spans[0].end, limit)
  }

  lemma {:induction false} OrderedLimit(spans: seq<Span>, from: nat, limit: nat)
    requires Ordered(spans, from, limit)
    ensures from <= limit && (spans != [] ==> spans[0].end <= limit)
  {
    if spans != [] {
      OrderedLimit(spans[1..], spans[0].end, limit);
    }
  }

  lemma {:induction false} OrderedAt(spans: seq<Span>, from: nat, limit: nat, i: nat)
    requires Ordered(spans, from, limit) && i < |spans|
    ensures from <= spans[i].start < spans[i].end <= limit
    ensures Ordered(spans[i + 1..], spans[i].end, limit)
  {
    OrderedLimit(spans, from, limit);
    if i > 0 {
      OrderedAt(spans[1..], spans[0].end, limit, i - 1);
      assert spans[i] == spans[1..][i - 1] && spans[i + 1..] == spans[1..][i..];
    }
  }

  /** `s[i:j]`. */
  function Part(s: string, i: nat, j: nat): string {
    if i <= j <= |s| then s[i..j] else ""
  }

  /** The text from `from` on with every span replaced at once; everything between the spans is kept. */
  function Substitute(text: string, spans: seq<Span>, from: nat, edit: Edit): string {
    if spans == [] then Part(text, from, |text|)
    else Part(text, from, spans[0].start) + edit(Cut(text, spans[0])) + Substitute(text, spans[1..], spans[0].end, edit)
  }

  /** Characters before the first span are kept as they are. */
  lemma SubstituteFrom(text: string, spans: seq<Span>, from: nat, later: nat, edit: Edit)
    requires from <= later <= |text| && Ordered(spans, later, |text|)
    ensures Ordered(spans, from, |text|)
    ensures Substitute(text, spans, from, edit) == text[from..later] + Substitute(text, spans, later, edit)
  {
    OrderedLimit(spans, later, |text|);
    if spans == [] {
      Seqs.Slice(text, from, later, |text|);
    } else {
      var s, e := spans[0].start, spans[0].end;
      Seqs.Slice(text, from, later, s);
      Seqs.Assoc(text[from..later], text[later..s], edit(text[s..e]));
      Seqs.Assoc(text[from..later], text[later..s] + edit(text[s..e]), Substitute(text, spans[1..], e, edit));
    }
  }

  lemma SplicedSlices(text: string, tail: string, s: nat, e: nat, b: nat)
    requires s < e <= b <= |text|
    ensures var spliced := text[..b] + tail;
      spliced[..s] == text[..s] && spliced[s..e] == text[s..e] && spliced[e..] == text[e..b] + tail
  {
  }

  /** One splice, from right to left, extends the substitution by one span. */
  lemma SpliceStep(text: string, spans: seq<Span>, i: nat, b: nat, edit: Edit)
    requires Ordered(spans, 0, |text|) && i < |spans|
    requires spans[i].end <= b <= |text| && Ordered(spans[i + 1..], b, |text|)
    ensures spans[i].start < spans[i].end <= b
    ensures var spliced, s, e := text[..b] + Substitute(text, spans[i + 1..], b, edit), spans[i].start, spans[i].end;
      spliced[..s] + edit(spliced[s..e]) + spliced[e..] == text[..s] + Substitute(text, spans[i..], s, edit)
  {
    OrderedAt(spans, 0, |text|, i);
    var s, e := spans[i].start, spans[i].end;
    var tail := Substitute(text, spans[i + 1..], b, edit);
    SubstituteFrom(text, spans[i + 1..], e, b, edit);
    SplicedSlices(text, tail, s, e, b);
    Seqs.Tail(spans, i);
    Seqs.Assoc(text[..s], edit(text[s..e]), text[e..b] + tail);
    Seqs.Empty(edit(text[s..e]));
  }

  /** The loop of `replace_uris`: each span is spliced into the text itself, the last one first. */
  method ReplaceUris(text: string, spans: seq<Span>, edit: Edit) returns (r: string)
    requires Ordered(spans, 0, |text|)
    ensures r == Substitute(text, spans, 0, edit)
  {
    r := text;
    var i := |spans|;
    ghost var b: nat := |text|;
    assert spans[i..] == [];
    while i > 0
      invariant 0 <= i <= |spans| && b <= |text|
      invariant i < |spans| ==> b == spans[i].start
      invariant i == |spans| ==> b == |text|
      invariant Ordered(spans[i..], b, |text|)
      invariant r == text[..b] + Substitute(text, spans[i..], b, edit)
    {
      i := i - 1;
      OrderedAt(spans, 0, |text|, i);
      Seqs.Tail(spans, i);
      if i + 1 < |spans| {
        Seqs.Tail(spans, i + 1);
      }
      SpliceStep(text, spans, i, b, edit);
      var start, end := spans[i].start, spans[i].end;
      r := r[..start] + edit(r[start..end]) + r[end..];
      b := start;
    }
    assert spans[0..] == spans;
    SubstituteFrom(text, spans, 0, b, edit);
  }

  // ----- what one line contributes -----

  predicate NoSpace(w: string) {
    forall i :: 0 <= i < |w| ==> !IsSpace(w[i])
  }

  /** In order, inside the line and free of white space. */
  predicate Tokens(line: string, spans: seq<Span>, from: nat) {
    if spans == [] then from <= |line|
    else
      && from <= spans[0].start < spans[0].end <= |line|
      && NoSpace(Cut(line, spans[0]))
      && Tokens(line, spans[1..], spans[0].end)
  }

  lemma TokensCons(line: string, span: Span, rest: seq<Span>, from: nat)
    requires from <= span.start < span.end <= |line| && NoSpace(line[span.start..span.end])
    requires Tokens(line, rest, span.end)
    ensures Tokens(line, [span] + rest, from)
  {
    Seqs.Cons(span, rest, []);
  }

  lemma TextsCons(s: string, span: Span, rest: seq<Span>)
    requires span.start <= span.end <= |s|
    ensures Texts(s, [span] + rest) == [s[span.start..span.end]] + Texts(s, rest)
  {
    Seqs.Cons(span, rest, []);
  }

  lemma SubstituteCons(s: string, span: Span, rest: seq<Span>, edit: Edit)
    requires span.start <= span.end <= |s|
    ensures Substitute(s, [span] + rest, span.start, edit)
         == edit(s[span.start..span.end]) + Substitute(s, rest, span.end, edit)
  {
    Seqs.Cons(span, rest, []);
    assert Part(s, span.start, span.start) == "";
    Seqs.Empty(edit(s[span.start..span.end]));
  }

  lemma {:induction false} TokensOrdered(line: string, spans: seq<Span>, from: nat)
    requires Tokens(line, spans, from)
    ensures Ordered(spans, from, |line|)
  {
    if spans != [] {
      TokensOrdered(line, spans[1..], spans[0].end);
    }
  }

  // ----- scanners -----

  /**
   * `pick` gives the spans a line contributes, relative to the line. `first` gives the context of the first line and
   * `next` that of the following line, each from the lines not yet read; `C` is what the scanner carries along.
   */
  datatype Scanner<!C> = Scanner(
    pick: (string, C) -> seq<Span>,
    first: seq<string> -> C,
    next: (seq<string>, C) -> C)

  predicate PicksTokens<C>(sc: Scanner<C>, line: string, c: C) {
    Tokens(line, sc.pick(line, c), 0)
  }

  /** Whatever the line and the context, a scanner picks tokens. */
  ghost predicate Sound<C(!new)>(sc: Scanner<C>) {
    forall line, c :: PicksTokens(sc, line, c)
  }

  /** The spans of `lines`, which begin at offset `at`. */
  function SpansFrom<C>(sc: Scanner<C>, lines: seq<string>, at: nat, c: C): seq<Span> {
    if lines == [] then []
    else Shift(sc.pick(lines[0], c), at) + SpansFrom(sc, lines[1..], at + |lines[0]|, sc.next(lines, c))
  }

  /** One line with its tokens replaced. */
  function RewriteLine<C>(sc: Scanner<C>, edit: Edit, line: string, c: C): string {
    Substitute(line, sc.pick(line, c), 0, edit)
  }

  function RewriteFrom<C>(sc: Scanner<C>, edit: Edit, lines: seq<string>, c: C): seq<string> {
    if lines == [] then []
    else
      [RewriteLine(sc, edit, lines[0], c)]
      + RewriteFrom(sc, edit, lines[1..], sc.next(lines, c))
  }

  /** The token texts the scanner sees, in order. */
  function SeenFrom<C>(sc: Scanner<C>, lines: seq<string>, c: C): seq<string> {
    if lines == [] then []
    else
      Texts(lines[0], sc.pick(lines[0], c))
      + SeenFrom(sc, lines[1..], sc.next(lines, c))
  }

  lemma {:induction false} OrderedAppend(a: seq<Span>, b: seq<Span>, from: nat, mid: nat, limit: nat)
    requires Ordered(a, from, mid) && Ordered(b, mid, limit)
    ensures Ordered(a + b, from, limit)
  {
    if a == [] {
      Seqs.Empty(b);
      OrderedLimit(b, mid, limit);
    } else {
      OrderedAppend(a[1..], b, a[0].end, mid, limit);
      assert (a + b)[1..] == a[1..] + b;
    }
  }

  lemma {:induction false} OrderedShift(spans: seq<Span>, from: nat, limit: nat, d: nat)
    requires Ordered(spans, from, limit)
    ensures Ordered(Shift(spans, d), from + d, limit + d)
  {
    if spans != [] {
      OrderedShift(spans[1..], spans[0].end, limit, d);
      assert Shift(spans, d)[1..] == Shift(spans[1..], d);
    }
  }

  lemma SoundOrdered<C(!new)>(sc: Scanner<C>, line: string, c: C)
    requires Sound(sc)
    ensures Tokens(line, sc.pick(line, c), 0) && Ordered(sc.pick(line, c), 0, |line|)
  {
    assert PicksTokens(sc, line, c);
    TokensOrdered(line, sc.pick(line, c), 0);
  }

  /** The spans of lines that end at `limit` are in order and within them. */
  lemma {:induction false} SpansOrdered<C(!new)>(sc: Scanner<C>, lines: seq<string>, at: nat, c: C, limit: nat)
    requires Sound(sc) && limit == at + |Concat(lines)|
    ensures Ordered(SpansFrom(sc, lines, at, c), at, limit)
  {
    if lines != [] {
      var line, mid := lines[0], at + |lines[0]|;
      var here := sc.pick(line, c);
      var c' := sc.next(lines, c);
      SoundOrdered(sc, line, c);
      OrderedShift(here, 0, |line|, at);
      SpansOrdered(sc, lines[1..], mid, c', limit);
      OrderedAppend(Shift(here, at), SpansFrom(sc, lines[1..], mid, c'), at, mid, limit);
    }
  }

  lemma {:induction false} SubstituteAppend(text: string, a: seq<Span>, b: seq<Span>, from: nat, mid: nat, edit: Edit)
    requires mid <= |text| && Ordered(a, from, mid) && Ordered(b, mid, |text|)
    ensures Substitute(text, a + b, from, edit)
         == Substitute(text[..mid], a, from, edit) + Substitute(text, b, mid, edit)
  {
    OrderedLimit(a, from, mid);
    if a == [] {
      Seqs.Empty(b);
      SubstituteFrom(text, b, from, mid, edit);
      Seqs.SliceOfTake(text, mid, from, mid);
    } else {
      var s, e := a[0].start, a[0].end;
      SubstituteAppend(text, a[1..], b, e, mid, edit);
      assert (a + b)[1..] == a[1..] + b && (a + b)[0] == a[0];
      Seqs.SliceOfTake(text, mid, from, s);
      Seqs.SliceOfTake(text, mid, s, e);
      var later := Substitute(text, b, mid, edit);
      Seqs.Assoc(text[from..s] + edit(text[s..e]), Substitute(text[..mid], a[1..], e, edit), later);
    }
  }

  lemma ShiftTail(spans: seq<Span>, d: nat)
    requires spans != []
    ensures Shift(spans, d) != [] && Seqs.Same(Shift(spans, d)[1..], Shift(spans[1..], d))
    ensures Shift(spans, d)[0] == Span(spans[0].start + d, spans[0].end + d)
  {
  }

  lemma ShiftedPart(text: string, d: nat, i: nat, j: nat)
    requires i <= j <= |text| - d
    ensures Seqs.Same(Part(text, i + d, j + d), Part(text[d..], i, j))
  {
    Seqs.SliceOfDrop(text, d, i, j);
  }

  /** Texts and spans that agree at the first span and after it. */
  lemma SubstituteAlike(a: string, s: seq<Span>, i: nat, b: string, t: seq<Span>, j: nat, edit: Edit)
    requires s != [] && t != []
    requires Seqs.Same(Part(a, i, s[0].start), Part(b, j, t[0].start)) && Seqs.Same(Cut(a, s[0]), Cut(b, t[0]))
    requires Seqs.Same(Substitute(a, s[1..], s[0].end, edit), Substitute(b, t[1..], t[0].end, edit))
    ensures Seqs.Same(Substitute(a, s, i, edit), Substitute(b, t, j, edit))
  {
  }

  lemma {:induction false} SubstituteShift(text: string, d: nat, spans: seq<Span>, from: nat, edit: Edit)
    requires d <= |text| && Ordered(spans, from, |text| - d)
    ensures Seqs.Same(Substitute(text, Shift(spans, d), from + d, edit), Substitute(text[d..], spans, from, edit))
  {
    OrderedLimit(spans, from, |text| - d);
    if spans == [] {
      ShiftedPart(text, d, from, |text| - d);
    } else {
      var first, moved := spans[0], Span(spans[0].start + d, spans[0].end + d);
      SubstituteShift(text, d, spans[1..], first.end, edit);
      ShiftTail(spans, d);
      ShiftedPart(text, d, from, first.start);
      ShiftedPart(text, d, first.start, first.end);
      assert Seqs.Same(Cut(text, moved), Cut(text[d..], first));
      SubstituteAlike(text, Shift(spans, d), from + d, text[d..], spans, from, edit);
    }
  }

  lemma SubstituteWithin(text: string, at: nat, mid: nat, here: seq<Span>, edit: Edit)
    requires at <= mid <= |text| && Ordered(here, 0, mid - at)
    ensures Substitute(text[..mid], Shift(here, at), at, edit) == Substitute(text[at..mid], here, 0, edit)
  {
    Seqs.SliceOfTake(text, mid, at, mid);
    SubstituteShift(text[..mid], at, here, 0, edit);
  }

  lemma SubstituteHead(text: string, at: nat, mid: nat, here: seq<Span>, later: seq<Span>, edit: Edit)
    requires at <= mid <= |text| && Ordered(here, 0, mid - at) && Ordered(later, mid, |text|)
    ensures Substitute(text, Shift(here, at) + later, at, edit)
         == Substitute(text[at..mid], here, 0, edit) + Substitute(text, later, mid, edit)
  {
    OrderedShift(here, 0, mid - at, at);
    SubstituteAppend(text, Shift(here, at), later, at, mid, edit);
    SubstituteWithin(text, at, mid, here, edit);
  }

  lemma HeadLine(text: string, at: nat, line: string, rest: string)
    requires at <= |text| && text[at..] == line + rest
    ensures |text| == at + |line| + |rest| && text[at + |line|..] == rest && text[at..at + |line|] == line
  {
    var mid := at + |line|;
    assert text[mid..] == text[at..][|line|..];
    assert text[at..mid] == text[at..][..|line|];
  }

  lemma SpansFromLine<C(!new)>(sc: Scanner<C>, lines: seq<string>, at: nat, c: C)
    requires lines != []
    ensures SpansFrom(sc, lines, at, c)
         == Shift(sc.pick(lines[0], c), at) + SpansFrom(sc, lines[1..], at + |lines[0]|, sc.next(lines, c))
  {
  }

  lemma LineOrdered<C(!new)>(sc: Scanner<C>, lines: seq<string>, c: C, mid: nat, limit: nat)
    requires Sound(sc) && lines != [] && limit == mid + |Concat(lines[1..])|
    ensures Ordered(sc.pick(lines[0], c), 0, |lines[0]|)
    ensures Ordered(SpansFrom(sc, lines[1..], mid, sc.next(lines, c)), mid, limit)
  {
    SoundOrdered(sc, lines[0], c);
    SpansOrdered(sc, lines[1..], mid, sc.next(lines, c), limit);
  }

  lemma RewriteHead<C(!new)>(sc: Scanner<C>, edit: Edit, lines: seq<string>, c: C)
    requires lines != []
    ensures Concat(RewriteFrom(sc, edit, lines, c))
         == RewriteLine(sc, edit, lines[0], c) + Concat(RewriteFrom(sc, edit, lines[1..], sc.next(lines, c)))
  {
    ConcatCons(RewriteLine(sc, edit, lines[0], c), RewriteFrom(sc, edit, lines[1..], sc.next(lines, c)));
  }

  lemma SubstituteLine<C(!new)>(sc: Scanner<C>, edit: Edit, text: string, at: nat, lines: seq<string>, c: C, mid: nat)
    requires Sound(sc) && lines != [] && mid == at + |lines[0]|
    requires |text| == mid + |Concat(lines[1..])| && text[at..mid] == lines[0]
    ensures Substitute(text, SpansFrom(sc, lines, at, c), at, edit)
         == RewriteLine(sc, edit, lines[0], c)
          + Substitute(text, SpansFrom(sc, lines[1..], mid, sc.next(lines, c)), mid, edit)
  {
    LineOrdered(sc, lines, c, mid, |text|);
    SpansFromLine(sc, lines, at, c);
    SubstituteHead(text, at, mid, sc.pick(lines[0], c), SpansFrom(sc, lines[1..], mid, sc.next(lines, c)), edit);
  }

  /** Substituting in the text is rewriting its lines one by one. */
  lemma {:induction false} SubstituteIsLineByLine<C(!new)>(sc: Scanner<C>, edit: Edit, text: string, at: nat,
                                                           lines: seq<string>, c: C)
    requires Sound(sc) && at <= |text| && text[at..] == Concat(lines)
    ensures Substitute(text, SpansFrom(sc, lines, at, c), at, edit) == Concat(RewriteFrom(sc, edit, lines, c))
    decreases |lines|
  {
    if lines != [] {
      var mid := at + |lines[0]|;
      HeadLine(text, at, lines[0], Concat(lines[1..]));
      SubstituteLine(sc, edit, text, at, lines, c, mid);
      SubstituteIsLineByLine(sc, edit, text, mid, lines[1..], sc.next(lines, c));
      RewriteHead(sc, edit, lines, c);
    }
  }

  lemma {:induction false} TextsAppend(s: string, a: seq<Span>, b: seq<Span>)
    ensures Texts(s, a + b) == Texts(s, a) + Texts(s, b)
  {
    if a == [] {
      Seqs.Empty(b);
    } else {
      TextsAppend(s, a[1..], b);
      assert (a + b)[1..] == a[1..] + b;
    }
  }

  lemma {:induction false} TextsShift(text: string, at: nat, line: string, spans: seq<Span>, from: nat)
    requires at + |line| <= |text| && text[at..at + |line|] == line
    requires Ordered(spans, from, |line|)
    ensures Texts(text, Shift(spans, at)) == Texts(line, spans)
  {
    OrderedLimit(spans, from, |line|);
    if spans != [] {
      TextsShift(text, at, line, spans[1..], spans[0].end);
      Seqs.Cons(Span(spans[0].start + at, spans[0].end + at), Shift(spans[1..], at), []);
      Seqs.SliceOfSlice(text, at, at + |line|, spans[0].start, spans[0].end);
    }
  }

  /** The texts at the spans are the tokens seen line by line. */
  lemma {:induction false} TextsAreSeen<C(!new)>(sc: Scanner<C>, text: string, at: nat, lines: seq<string>, c: C)
    requires Sound(sc) && at <= |text| && text[at..] == Concat(lines)
    ensures Texts(text, SpansFrom(sc, lines, at, c)) == SeenFrom(sc, lines, c)
    decreases |lines|
  {
    if lines != [] {
      var line := lines[0];
      var c' := sc.next(lines, c);
      HeadLine(text, at, line, Concat(lines[1..]));
      TextsAreSeen(sc, text, at + |line|, lines[1..], c');
      SoundOrdered(sc, line, c);
      TextsShift(text, at, line, sc.pick(line, c), 0);
      TextsAppend(text, Shift(sc.pick(line, c), at), SpansFrom(sc, lines[1..], at + |line|, c'));
    }
  }

  // ----- lines of a text -----

  /** `splitlines` knows many line ends and `^` in a multi-line pattern one; `universal` tells which is meant. */
  predicate Ends(universal: bool, c: char) {
    if universal then IsBreak(c) else c == '\n'
  }

  /** Length of the first line, its end included. */
  function LineLen(universal: bool, s: string): (n: nat)
    ensures n <= |s| && (s != "" ==> n > 0)
  {
    if s == "" then 0
    else if Ends(universal, s[0]) then
      if universal && s[0] == '\r' && |s| > 1 && s[1] == '\n' then 2 else 1
    else 1 + LineLen(universal, s[1..])
  }

  function Lines(universal: bool, s: string): seq<string> {
    if s == "" then []
    else [s[..LineLen(universal, s)]] + Lines(universal, s[LineLen(universal, s)..])
  }

  lemma {:induction false} LinesJoin(universal: bool, s: string)
    ensures Concat(Lines(universal, s)) == s
  {
    if s != "" {
      var n := LineLen(universal, s);
      LinesJoin(universal, s[n..]);
      Seqs.Cut(s, n);
      Seqs.Cons(s[..n], Lines(universal, s[n..]), []);
    }
  }

  predicate NoEnds(universal: bool, s: string) {
    forall i :: 0 <= i < |s| ==> !Ends(universal, s[i])
  }

  lemma {:induction false} SkipNoEnds(universal: bool, a: string, b: string)
    requires NoEnds(universal, a)
    ensures LineLen(universal, a + b) == |a| + LineLen(universal, b)
  {
    if a == "" {
      Seqs.Empty(b);
    } else {
      assert (a + b)[0] == a[0] && (a + b)[1..] == a[1..] + b;
      SkipNoEnds(universal, a[1..], b);
    }
  }

  /** Up to a character that is not white space, the first line contains no line end. */
  lemma {:induction false} NoEndsBefore(universal: bool, s: string, n: nat)
    requires 0 < n <= LineLen(universal, s) && !IsSpace(s[n - 1])
    ensures NoEnds(universal, s[..n])
  {
    if n == 1 {
    } else {
      assert !Ends(universal, s[0]);
      NoEndsBefore(universal, s[1..], n - 1);
      assert s[..n] == [s[0]] + s[1..][..n - 1];
    }
  }

  /** What a rewritten rest must keep for the line before it to end where it did. */
  predicate SameEnd(universal: bool, next: string, next': string) {
    (next == "" <==> next' == "") && (universal && next != "" ==> next[0] == next'[0])
  }

  lemma {:induction false} LineLenDependsOnEnd(universal: bool, line: string, next: string, next': string)
    requires LineLen(universal, line + next) == |line| && SameEnd(universal, next, next')
    ensures LineLen(universal, line + next') == |line|
  {
    if line == "" {
      Seqs.Empty(next);
      Seqs.Empty(next');
    } else if !Ends(universal, line[0]) {
      assert (line + next)[1..] == line[1..] + next && (line + next')[1..] == line[1..] + next';
      LineLenDependsOnEnd(universal, line[1..], next, next');
    } else {
      assert (line + next)[0] == line[0] && (line + next')[0] == line[0];
      if |line| == 1 {
        assert |line + next| > 1 ==> (line + next)[1] == next[0];
        assert |line + next'| > 1 ==> (line + next')[1] == next'[0];
      } else {
        assert (line + next)[1] == line[1] && (line + next')[1] == line[1];
      }
    }
  }

  lemma LineSplit(line: string, from: nat, s: nat, e: nat, next: string)
    requires from <= s < e <= |line| && NoSpace(line[s..e])
    ensures var rest := line[from..] + next;
      rest == line[from..e] + (line[e..] + next) && rest[..e - from] == line[from..e] && !IsSpace(rest[e - from - 1])
  {
    Seqs.Slice(line, from, e, |line|);
    Seqs.Assoc(line[from..e], line[e..], next);
    Seqs.Concatenation(line[from..e], line[e..] + next);
    assert line[s..e][e - s - 1] == line[e - 1] && line[from..e][e - from - 1] == line[e - 1];
  }

  lemma EditHasNoEnds(universal: bool, edit: Edit, token: string)
    requires Tame(edit) && NoSpace(token)
    ensures NoEnds(universal, edit(token)) && NoSpace(edit(token)) && (token != "" ==> edit(token) != "")
  {
    assert edit(token) == token || Plain(edit(token));
  }

  lemma NoEndsJoin(universal: bool, line: string, from: nat, s: nat, e: nat, w: string)
    requires from <= s < e <= |line| && NoEnds(universal, line[from..e]) && NoEnds(universal, w)
    ensures NoEnds(universal, line[from..s] + w)
  {
    forall i | 0 <= i < s - from ensures !Ends(universal, line[from..s][i]) {
      assert line[from..s][i] == line[from..e][i];
    }
  }

  /** Replacing tokens in a line does not move where the line ends. */
  lemma {:induction false} SubstituteKeepsLine(universal: bool, line: string, spans: seq<Span>, from: nat, edit: Edit,
                                               next: string, next': string)
    requires Tame(edit) && Tokens(line, spans, from)
    requires LineLen(universal, line[from..] + next) == |line| - from && SameEnd(universal, next, next')
    ensures LineLen(universal, Substitute(line, spans, from, edit) + next') == |Substitute(line, spans, from, edit)|
  {
    if spans == [] {
      assert line[from..|line|] == line[from..];
      LineLenDependsOnEnd(universal, line[from..], next, next');
    } else {
      var s, e := spans[0].start, spans[0].end;
      var gap, token := line[from..s], line[s..e];
      var later := Substitute(line, spans[1..], e, edit);
      LineSplit(line, from, s, e, next);
      NoEndsBefore(universal, line[from..] + next, e - from);
      SkipNoEnds(universal, line[from..e], line[e..] + next);
      SubstituteKeepsLine(universal, line, spans[1..], e, edit, next, next');
      EditHasNoEnds(universal, edit, token);
      NoEndsJoin(universal, line, from, s, e, edit(token));
      SkipNoEnds(universal, gap + edit(token), later + next');
      Seqs.Assoc(gap + edit(token), later, next');
    }
  }

  // ----- a rewritten text -----

  function EditAll(edit: Edit, words: seq<string>): seq<string> {
    if words == [] then [] else [edit(words[0])] + EditAll(edit, words[1..])
  }

  lemma EditAllCons(edit: Edit, word: string, words: seq<string>)
    ensures EditAll(edit, [word] + words) == [edit(word)] + EditAll(edit, words)
  {
    Seqs.Cons(word, words, []);
  }

  lemma {:induction false} EditAllAppend(edit: Edit, a: seq<string>, b: seq<string>)
    ensures EditAll(edit, a + b) == EditAll(edit, a) + EditAll(edit, b)
  {
    if a == [] {
      Seqs.Empty(b);
    } else {
      EditAllAppend(edit, a[1..], b);
      Seqs.AppendTail(a, b);
      Seqs.Assoc([edit(a[0])], EditAll(edit, a[1..]), EditAll(edit, b));
    }
  }

  /** With universal line ends a picked token never begins a line. */
  ghost predicate Indented<C(!new)>(sc: Scanner<C>, universal: bool) {
    universal ==> forall line, c :: sc.pick(line, c) != [] ==> sc.pick(line, c)[0].start > 0
  }

  ghost predicate SteadyLine<C(!new)>(sc: Scanner<C>, edit: Edit, line: string, c: C) {
    var line' := RewriteLine(sc, edit, line, c);
    Texts(line', sc.pick(line', c)) == EditAll(edit, Texts(line, sc.pick(line, c)))
  }

  /** In a rewritten text the scanner finds the edited tokens, and carries the same context along. */
  ghost predicate Steady<C(!new)>(sc: Scanner<C>, edit: Edit) {
    && (forall line, c :: SteadyLine(sc, edit, line, c))
    && (forall lines, c :: sc.next(RewriteFrom(sc, edit, lines, c), c) == sc.next(lines, c))
    && (forall lines :: sc.first(RewriteFrom(sc, edit, lines, sc.first(lines))) == sc.first(lines))
  }

  /** A rewritten line is empty only if the line was, and begins like it where that matters. */
  lemma RewriteLineStart<C(!new)>(sc: Scanner<C>, universal: bool, edit: Edit, line: string, c: C)
    requires Tame(edit) && Sound(sc) && Indented(sc, universal)
    ensures SameEnd(universal, line, RewriteLine(sc, edit, line, c))
  {
    var spans := sc.pick(line, c);
    SoundOrdered(sc, line, c);
    if spans != [] {
      EditHasNoEnds(universal, edit, Cut(line, spans[0]));
    } else {
      assert line[0..|line|] == line;
    }
  }

  lemma RestStart<C(!new)>(sc: Scanner<C>, universal: bool, edit: Edit, lines: seq<string>, c: C)
    requires Tame(edit) && Sound(sc) && Indented(sc, universal)
    requires lines != [] ==> lines[0] != ""
    ensures SameEnd(universal, Concat(lines), Concat(RewriteFrom(sc, edit, lines, c)))
  {
    if lines != [] {
      RewriteLineStart(sc, universal, edit, lines[0], c);
    }
  }

  /** The lines of a rewritten text are the rewritten lines. */
  lemma {:induction false} LinesOfRewritten<C(!new)>(sc: Scanner<C>, universal: bool, edit: Edit, text: string, c: C)
    requires Tame(edit) && Sound(sc) && Indented(sc, universal)
    ensures var lines := Lines(universal, text);
      Lines(universal, Concat(RewriteFrom(sc, edit, lines, c))) == RewriteFrom(sc, edit, lines, c)
    decreases |text|
  {
    if text != "" {
      var n := LineLen(universal, text);
      var line, rest := text[..n], text[n..];
      var lines, later := Lines(universal, text), Lines(universal, rest);
      Seqs.Cons(line, later, []);
      Seqs.Cut(text, n);
      LinesJoin(universal, rest);
      var c' := sc.next(lines, c);
      var line', rest' := RewriteLine(sc, edit, line, c), Concat(RewriteFrom(sc, edit, later, c'));
      LinesOfRewritten(sc, universal, edit, rest, c');
      RestStart(sc, universal, edit, later, c');
      RewriteLineStart(sc, universal, edit, line, c);
      SoundOrdered(sc, line, c);
      assert line[0..] == line;
      SubstituteKeepsLine(universal, line, sc.pick(line, c), 0, edit, rest, rest');
      Seqs.Cons(line', RewriteFrom(sc, edit, later, c'), []);
      Seqs.Concatenation(line', rest');
    }
  }

  lemma {:induction false} SeenInRewritten<C(!new)>(sc: Scanner<C>, edit: Edit, lines: seq<string>, c: C)
    requires Steady(sc, edit)
    ensures SeenFrom(sc, RewriteFrom(sc, edit, lines, c), c) == EditAll(edit, SeenFrom(sc, lines, c))
    decreases |lines|
  {
    if lines != [] {
      var c' := sc.next(lines, c);
      var later := RewriteFrom(sc, edit, lines[1..], c');
      SeenInRewritten(sc, edit, lines[1..], c');
      Seqs.Cons(RewriteLine(sc, edit, lines[0], c), later, []);
      assert sc.next(RewriteFrom(sc, edit, lines, c), c) == c';
      assert SteadyLine(sc, edit, lines[0], c);
      EditAllAppend(edit, Texts(lines[0], sc.pick(lines[0], c)), SeenFrom(sc, lines[1..], c'));
    }
  }

  /** The spans of a text. */
  function Spans<C>(sc: Scanner<C>, universal: bool, text: string): seq<Span> {
    var lines := Lines(universal, text);
    SpansFrom(sc, lines, 0, sc.first(lines))
  }

  function Rewrite<C>(sc: Scanner<C>, universal: bool, edit: Edit, text: string): string {
    Substitute(text, Spans(sc, universal, text), 0, edit)
  }

  /** The spans of a text are increasing, disjoint and inside the text. */
  lemma SpansInText<C(!new)>(sc: Scanner<C>, universal: bool, text: string)
    requires Sound(sc)
    ensures Ordered(Spans(sc, universal, text), 0, |text|)
  {
    var lines := Lines(universal, text);
    LinesJoin(universal, text);
    SpansOrdered(sc, lines, 0, sc.first(lines), |text|);
  }

  /** The lines of the rewritten text are those of the text, each rewritten. */
  lemma RewrittenLines<C(!new)>(sc: Scanner<C>, universal: bool, edit: Edit, text: string)
    requires Tame(edit) && Sound(sc) && Indented(sc, universal)
    ensures var lines := Lines(universal, text);
      Lines(universal, Rewrite(sc, universal, edit, text)) == RewriteFrom(sc, edit, lines, sc.first(lines))
  {
    var lines := Lines(universal, text);
    LinesJoin(universal, text);
    assert text[0..] == text;
    SubstituteIsLineByLine(sc, edit, text, 0, lines, sc.first(lines));
    LinesOfRewritten(sc, universal, edit, text, sc.first(lines));
  }

  /**
   * The tokens of a rewritten text are the edited tokens of the text, in order: none is lost, split, joined or added.
   */
  lemma RewriteKeepsTokens<C(!new)>(sc: Scanner<C>, universal: bool, edit: Edit, text: string)
    requires Tame(edit) && Sound(sc) && Indented(sc, universal) && Steady(sc, edit)
    ensures var text' := Rewrite(sc, universal, edit, text);
      Texts(text', Spans(sc, universal, text')) == EditAll(edit, Texts(text, Spans(sc, universal, text)))
  {
    var lines := Lines(universal, text);
    var c := sc.first(lines);
    var lines' := RewriteFrom(sc, edit, lines, c);
    var text' := Rewrite(sc, universal, edit, text);
    LinesJoin(universal, text);
    assert text[0..] == text && text'[0..] == text';
    SubstituteIsLineByLine(sc, edit, text, 0, lines, c);
    LinesOfRewritten(sc, universal, edit, text, c);
    assert sc.first(lines') == c;
    SeenInRewritten(sc, edit, lines, c);
    TextsAreSeen(sc, text, 0, lines, c);
    TextsAreSeen(sc, text', 0, lines', c);
  }

  lemma {:induction false} SubstituteFixed(text: string, spans: seq<Span>, from: nat, edit: Edit, words: seq<string>)
    requires from <= |text| && Ordered(spans, from, |text|) && Texts(text, spans) == EditAll(edit, words)
    requires forall w :: edit(edit(w)) == edit(w)
    ensures Substitute(text, spans, from, edit) == text[from..]
  {
    OrderedLimit(spans, from, |text|);
    if spans == [] {
      assert text[from..|text|] == text[from..];
    } else {
      var s, e := spans[0].start, spans[0].end;
      assert words != [];
      Seqs.Cons(Cut(text, spans[0]), Texts(text, spans[1..]), []);
      Seqs.Cons(edit(words[0]), EditAll(edit, words[1..]), []);
      SubstituteFixed(text, spans[1..], e, edit, words[1..]);
      Seqs.Slice(text, from, s, e);
      Seqs.Slice(text, from, e, |text|);
      assert text[from..|text|] == text[from..] && text[e..|text|] == text[e..];
    }
  }

  /** Rewriting twice is rewriting once. */
  lemma RewriteTwice<C(!new)>(sc: Scanner<C>, universal: bool, edit: Edit, text: string)
    requires Tame(edit) && Sound(sc) && Indented(sc, universal) && Steady(sc, edit)
    requires forall w :: edit(edit(w)) == edit(w)
    ensures Rewrite(sc, universal, edit, Rewrite(sc, universal, edit, text)) == Rewrite(sc, universal, edit, text)
  {
    var text' := Rewrite(sc, universal, edit, text);
    RewriteKeepsTokens(sc, universal, edit, text);
    SpansInText(sc, universal, text');
    SubstituteFixed(text', Spans(sc, universal, text'), 0, edit, Texts(text, Spans(sc, universal, text)));
    assert text'[0..] == text';
  }
}
