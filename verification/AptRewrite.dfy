/**
 * Rewriting apt sources (scripts/browser_acquisition.py): the same tokens are found again, so doing it twice changes
 * nothing.
 */
module AptRewrite {
  import opened Text
  import opened Splice
  import opened AptScan
  import Seqs

  // ----- deb822 lines -----

  /** Length of the token at the front of `s`: up to white space. */
  function WordLen(s: string): (n: nat)
    ensures n <= |s|
  {
    if s == "" || IsSpace(s[0]) then 0 else 1 + WordLen(s[1..])
  }

  lemma {:induction false} WordLenStops(s: string)
    ensures NoSpace(s[..WordLen(s)]) && (WordLen(s) < |s| ==> IsSpace(s[WordLen(s)]))
  {
    if s != "" && !IsSpace(s[0]) {
      WordLenStops(s[1..]);
      assert s[..WordLen(s)] == [s[0]] + s[1..][..WordLen(s[1..])];
    }
  }

  /** The words of a value text, up to a word that starts a comment. */
  function Words(s: string): seq<string> {
    if s == "" || s[0] == '#' then []
    else if IsSpace(s[0]) then Words(s[1..])
    else [s[..WordLen(s)]] + Words(s[WordLen(s)..])
  }

  /** A value text with its words edited in place. */
  function EditWords(edit: Edit, s: string): string {
    if s == "" || s[0] == '#' then s
    else if IsSpace(s[0]) then [s[0]] + EditWords(edit, s[1..])
    else edit(s[..WordLen(s)]) + EditWords(edit, s[WordLen(s)..])
  }

  lemma {:induction false} WordEndIsLen(s: string, at: nat)
    requires at <= |s|
    ensures WordEnd(s, at) == at + WordLen(s[at..])
    decreases |s| - at
  {
    if at < |s| {
      Seqs.Tail(s, at);
      if !IsSpace(s[at]) {
        WordEndIsLen(s, at + 1);
      }
    }
  }

  lemma Rest(s: string, at: nat, end: nat)
    requires at <= end <= |s|
    ensures s[at..][end - at..] == s[end..] && s[at..][..end - at] == s[at..end]
  {
  }

  lemma WordsFromWord(s: string, at: nat, end: nat)
    requires at < |s| && s[at] != '#' && !IsSpace(s[at]) && end == WordEnd(s, at)
    ensures Words(s[at..]) == [s[at..end]] + Words(s[end..])
  {
    WordEndIsLen(s, at);
    Seqs.Tail(s, at);
    Rest(s, at, end);
  }

  lemma WordsAfterSpace(s: string, at: nat)
    requires at < |s| && IsSpace(s[at])
    ensures Words(s[at..]) == Words(s[at + 1..])
  {
    Seqs.Tail(s, at);
  }

  lemma NoWordsLeft(s: string, at: nat)
    requires at <= |s| && (at < |s| ==> s[at] == '#')
    ensures Words(s[at..]) == []
  {
    if at < |s| {
      Seqs.Tail(s, at);
    }
  }

  /** Reading words is reading the texts at the spans of the values. */
  lemma {:induction false} ValuesAreWords(s: string, at: nat)
    requires at <= |s|
    ensures Texts(s, Values(s, at)) == Words(s[at..])
    decreases |s| - at
  {
    if at == |s| || s[at] == '#' {
      NoWordsLeft(s, at);
    } else if IsSpace(s[at]) {
      WordsAfterSpace(s, at);
      ValuesAfterSpace(s, at);
      ValuesAreWords(s, at + 1);
    } else {
      var end := WordEnd(s, at);
      WordAt(s, at);
      ValuesFromWord(s, at);
      ValuesAreWords(s, end);
      TextsCons(s, Span(at, end), Values(s, end));
      WordsFromWord(s, at, end);
    }
  }

  lemma NoValuesLeft(s: string, at: nat, edit: Edit)
    requires at == |s| || (at < |s| && s[at] == '#')
    ensures Substitute(s, Values(s, at), at, edit) == EditWords(edit, s[at..])
  {
    assert s[at..|s|] == s[at..];
    if at < |s| {
      Seqs.Tail(s, at);
    }
  }

  lemma SpaceStays(s: string, at: nat, edit: Edit)
    requires at < |s| && s[at] != '#' && IsSpace(s[at])
    requires Substitute(s, Values(s, at + 1), at + 1, edit) == EditWords(edit, s[at + 1..])
    ensures Substitute(s, Values(s, at), at, edit) == EditWords(edit, s[at..])
  {
    ValuesAfterSpace(s, at);
    ValuesAreTokens(s, at + 1, at + 1);
    TokensOrdered(s, Values(s, at + 1), at + 1);
    SubstituteFrom(s, Values(s, at + 1), at, at + 1, edit);
    Seqs.Tail(s, at);
    assert s[at..at + 1] == [s[at]];
  }

  lemma EditFirst(s: string, edit: Edit)
    requires s != "" && s[0] != '#' && !IsSpace(s[0])
    ensures EditWords(edit, s) == edit(s[..WordLen(s)]) + EditWords(edit, s[WordLen(s)..])
  {
  }

  lemma EditFromWord(s: string, at: nat, end: nat, edit: Edit)
    requires at < |s| && s[at] != '#' && !IsSpace(s[at]) && end == WordEnd(s, at)
    ensures EditWords(edit, s[at..]) == edit(s[at..end]) + EditWords(edit, s[end..])
  {
    WordEndIsLen(s, at);
    Seqs.Tail(s, at);
    EditFirst(s[at..], edit);
    Rest(s, at, end);
  }

  /** Substituting at the spans is editing the words in place. */
  lemma {:induction false} SubstituteEditsWords(s: string, at: nat, edit: Edit)
    requires at <= |s|
    ensures Substitute(s, Values(s, at), at, edit) == EditWords(edit, s[at..])
    decreases |s| - at
  {
    if at == |s| || s[at] == '#' {
      NoValuesLeft(s, at, edit);
    } else if IsSpace(s[at]) {
      SubstituteEditsWords(s, at + 1, edit);
      SpaceStays(s, at, edit);
    } else {
      var end := WordEnd(s, at);
      WordAt(s, at);
      ValuesFromWord(s, at);
      SubstituteEditsWords(s, end, edit);
      SubstituteCons(s, Span(at, end), Values(s, end), edit);
      EditFromWord(s, at, end, edit);
    }
  }

  predicate Word(w: string) {
    w != "" && NoSpace(w) && w[0] != '#'
  }

  lemma {:induction false} WordLenOf(w: string, t: string)
    requires NoSpace(w) && (t != "" ==> IsSpace(t[0]))
    ensures WordLen(w + t) == |w|
  {
    if w == "" {
      Seqs.Empty(t);
    } else {
      assert (w + t)[0] == w[0] && (w + t)[1..] == w[1..] + t;
      WordLenOf(w[1..], t);
    }
  }

  lemma WordsCons(w: string, t: string)
    requires Word(w) && (t != "" ==> IsSpace(t[0]))
    ensures Words(w + t) == [w] + Words(t)
  {
    WordLenOf(w, t);
    Seqs.Concatenation(w, t);
    assert (w + t)[0] == w[0];
  }

  /** A text that starts with a word: the word, then nothing or white space, edited and not. */
  lemma FirstWord(edit: Edit, s: string)
    requires Tame(edit) && s != "" && !IsSpace(s[0]) && s[0] != '#'
    ensures var n := WordLen(s);
      && 0 < n <= |s| && Word(s[..n]) && Word(edit(s[..n]))
      && var later := EditWords(edit, s[n..]); later != "" ==> IsSpace(later[0])
  {
    WordLenStops(s);
    assert edit(s[..WordLen(s)]) == s[..WordLen(s)] || Plain(edit(s[..WordLen(s)]));
  }

  /** The words of an edited text are the edited words. */
  lemma {:induction false} WordsOfEdited(edit: Edit, s: string)
    requires Tame(edit)
    ensures Words(EditWords(edit, s)) == EditAll(edit, Words(s))
    decreases |s|
  {
    if s != "" && s[0] != '#' {
      if IsSpace(s[0]) {
        WordsOfEdited(edit, s[1..]);
        assert EditWords(edit, s)[1..] == EditWords(edit, s[1..]);
      } else {
        var n := WordLen(s);
        FirstWord(edit, s);
        WordsOfEdited(edit, s[n..]);
        WordsCons(edit(s[..n]), EditWords(edit, s[n..]));
        EditAllCons(edit, s[..n], Words(s[n..]));
      }
    }
  }

  // ----- what a rewritten line keeps -----

  lemma {:induction false} NameLenOf(name: string, t: string)
    requires forall i :: 0 <= i < |name| ==> !IsSpace(name[i]) && name[i] != ':'
    requires t != "" && t[0] == ':'
    ensures NameLen(name + t) == |name|
  {
    if name != "" {
      assert (name + t)[0] == name[0] && (name + t)[1..] == name[1..] + t;
      NameLenOf(name[1..], t);
    } else {
      Seqs.Empty(t);
    }
  }

  lemma {:induction false} NameLenStops(s: string)
    ensures forall i :: 0 <= i < NameLen(s) ==> !IsSpace(s[i]) && s[i] != ':'
  {
    if NameLen(s) > 0 {
      NameLenStops(s[1..]);
      forall i | 1 <= i < NameLen(s) ensures !IsSpace(s[i]) && s[i] != ':' {
        assert s[i] == s[1..][i - 1];
      }
    }
  }

  lemma HeaderKept(line: string, t: string)
    requires HeaderEnd(line) > 0
    ensures HeaderEnd(line[..HeaderEnd(line)] + t) == HeaderEnd(line)
    ensures HeaderField(line[..HeaderEnd(line)] + t) == HeaderField(line)
  {
    var n := HeaderEnd(line);
    var front := line[..n];
    assert front + t == line[..n - 1] + ([':'] + t);
    NameLenStops(line);
    NameLenOf(line[..n - 1], [':'] + t);
    assert (front + t)[n - 1] == ':' && (front + t)[..n - 1] == line[..n - 1];
  }

  lemma BlankCons(c: char, s: string)
    ensures Blank([c] + s) <==> IsSpace(c) && Blank(s)
  {
    forall i | 0 <= i < |s| ensures ([c] + s)[i + 1] == s[i] {
    }
    assert ([c] + s)[0] == c;
  }

  /** Leading white space is kept, and the first word after it is no comment before and after. */
  lemma {:induction false} EditedIsNoComment(edit: Edit, s: string)
    requires Tame(edit) && !Blank(s) && !Comment(s)
    ensures !Blank(EditWords(edit, s)) && !Comment(EditWords(edit, s))
    ensures IsSpace(s[0]) ==> EditWords(edit, s)[0] == s[0]
    decreases |s|
  {
    if IsSpace(s[0]) {
      assert s == [s[0]] + s[1..];
      BlankCons(s[0], s[1..]);
      EditedIsNoComment(edit, s[1..]);
      BlankCons(s[0], EditWords(edit, s[1..]));
      Seqs.Cons(s[0], EditWords(edit, s[1..]), "");
    } else {
      FirstWord(edit, s);
      assert EditWords(edit, s)[0] == edit(s[..WordLen(s)])[0];
    }
  }

  /** A rewritten URI line is a URI line with the edited values. */
  lemma UriLineKept(line: string, field: Field, edit: Edit)
    requires Tame(edit) && !Blank(line) && !Comment(line) && FieldAfter(line, field) == Uris
    ensures var line' := Substitute(line, FieldValues(line, field, Uris), 0, edit);
      && !Blank(line') && !Comment(line') && FieldAfter(line', field) == Uris && ValueStart(line') == ValueStart(line)
      && line' == line[..ValueStart(line)] + EditWords(edit, line[ValueStart(line)..])
  {
    var start := ValueStart(line);
    var later := EditWords(edit, line[start..]);
    ValuesAreTokens(line, start, start);
    TokensOrdered(line, Values(line, start), start);
    SubstituteFrom(line, Values(line, start), 0, start, edit);
    SubstituteEditsWords(line, start, edit);
    if IsSpace(line[0]) {
      assert line[0..] == line && line[..0] + later == later;
      EditedIsNoComment(edit, line);
    } else {
      HeaderKept(line, later);
      assert (line[..start] + later)[0] == line[0];
    }
  }

  lemma UriLineTexts(line: string, field: Field, edit: Edit)
    requires Tame(edit) && !Blank(line) && !Comment(line) && FieldAfter(line, field) == Uris
    ensures var line' := Substitute(line, FieldValues(line, field, Uris), 0, edit);
      Texts(line', FieldValues(line', field, Uris)) == EditAll(edit, Texts(line, FieldValues(line, field, Uris)))
  {
    var start := ValueStart(line);
    var line' := line[..start] + EditWords(edit, line[start..]);
    UriLineKept(line, field, edit);
    ValuesAreWords(line, start);
    ValuesAreWords(line', start);
    Seqs.Concatenation(line[..start], EditWords(edit, line[start..]));
    WordsOfEdited(edit, line[start..]);
  }

  /** What the scanner reads from a rewritten line. */
  lemma LineKept(off: Switch, edit: Edit, line: string, c: Context)
    requires Tame(edit)
    ensures var line' := RewriteLine(Deb822(off), edit, line, c);
      && Blank(line') == Blank(line) && FieldAfter(line', c.field) == FieldAfter(line, c.field)
      && Texts(line', FieldValues(line', c.field, Enabled)) == Texts(line, FieldValues(line, c.field, Enabled))
      && SteadyLine(Deb822(off), edit, line, c)
  {
    if c.on && !Blank(line) && !Comment(line) && FieldAfter(line, c.field) == Uris {
      UriLineKept(line, c.field, edit);
      UriLineTexts(line, c.field, edit);
    } else {
      assert PickDeb822(line, c) == [];
      assert line[0..|line|] == line;
    }
  }

  lemma {:induction false} EnabledWordsKept(off: Switch, edit: Edit, lines: seq<string>, c: Context)
    requires Tame(edit)
    ensures EnabledWords(RewriteFrom(Deb822(off), edit, lines, c), c.field) == EnabledWords(lines, c.field)
  {
    if lines != [] {
      var c' := NextDeb822(off, lines, c);
      LineKept(off, edit, lines[0], c);
      Seqs.Cons(RewriteLine(Deb822(off), edit, lines[0], c), RewriteFrom(Deb822(off), edit, lines[1..], c'), []);
      if !Blank(lines[0]) {
        EnabledWordsKept(off, edit, lines[1..], c');
      }
    }
  }

  lemma Deb822Steady(off: Switch, edit: Edit)
    requires Tame(edit)
    ensures Steady(Deb822(off), edit)
  {
    var sc := Deb822(off);
    forall line, c ensures SteadyLine(sc, edit, line, c) {
      LineKept(off, edit, line, c);
    }
    forall lines, c ensures sc.next(RewriteFrom(sc, edit, lines, c), c) == sc.next(lines, c) {
      if lines != [] {
        var c' := NextDeb822(off, lines, c);
        LineKept(off, edit, lines[0], c);
        Seqs.Cons(RewriteLine(sc, edit, lines[0], c), RewriteFrom(sc, edit, lines[1..], c'), []);
        EnabledWordsKept(off, edit, lines[1..], c');
      }
    }
    forall lines ensures sc.first(RewriteFrom(sc, edit, lines, sc.first(lines))) == sc.first(lines) {
      EnabledWordsKept(off, edit, lines, sc.first(lines));
    }
  }

  // ----- one-line formats -----

  lemma {:induction false} BlanksIs(s: string, at: nat, n: nat)
    requires at <= n <= |s| && (forall i :: at <= i < n ==> Gap(s[i])) && (n < |s| ==> !Gap(s[n]))
    ensures Blanks(s, at) == n
    decreases n - at
  {
    if at < n {
      BlanksIs(s, at + 1, n);
    }
  }

  lemma {:induction false} BlanksStops(s: string, at: nat)
    requires at <= |s|
    ensures (forall i :: at <= i < Blanks(s, at) ==> Gap(s[i])) && (Blanks(s, at) < |s| ==> !Gap(s[Blanks(s, at)]))
    decreases |s| - at
  {
    if at < |s| && Gap(s[at]) {
      BlanksStops(s, at + 1);
    }
  }

  lemma {:induction false} UriEndIs(s: string, at: nat, n: nat)
    requires at <= n <= |s| && (forall i :: at <= i < n ==> UriChar(s[i])) && (n < |s| ==> !UriChar(s[n]))
    ensures UriEnd(s, at) == n
    decreases n - at
  {
    if at < n {
      UriEndIs(s, at + 1, n);
    }
  }

  lemma {:induction false} UriEndBeyond(s: string, at: nat)
    requires at <= |s|
    ensures UriEnd(s, at) < |s| ==> !UriChar(s[UriEnd(s, at)])
    decreases |s| - at
  {
    if at < |s| && UriChar(s[at]) {
      UriEndBeyond(s, at + 1);
    }
  }

  /** The two texts agree before `n`, and go on with a character that neither ends blanks nor opens options. */
  predicate Agree(s: string, s': string, n: nat) {
    n < |s| && n < |s'| && s[..n] == s'[..n] && !Gap(s[n]) && !Gap(s'[n])
  }

  lemma AgreeAt(s: string, s': string, n: nat, i: nat)
    requires Agree(s, s', n) && i < n
    ensures s[i] == s'[i]
  {
    assert s[..n][i] == s'[..n][i];
  }

  lemma BlanksAgree(s: string, s': string, n: nat, at: nat)
    requires Agree(s, s', n) && at <= n
    ensures Blanks(s, at) <= n && Blanks(s', at) == Blanks(s, at)
  {
    var b := Blanks(s, at);
    BlanksStops(s, at);
    forall i | at <= i < b && i < n ensures Gap(s'[i]) {
      AgreeAt(s, s', n, i);
    }
    if b < n {
      AgreeAt(s, s', n, b);
    }
    BlanksIs(s', at, b);
  }

  lemma {:induction false} BracketEndAgree(s: string, s': string, n: nat, at: nat)
    requires Agree(s, s', n) && at <= n && BracketEnd(s, at).Some? && BracketEnd(s, at).value <= n
    ensures BracketEnd(s', at) == BracketEnd(s, at)
    decreases n - at
  {
    AgreeAt(s, s', n, at);
    if s[at] != ']' {
      BracketEndAgree(s, s', n, at + 1);
    }
  }

  lemma KeywordAgree(s: string, s': string, n: nat, at: nat)
    requires Agree(s, s', n) && at <= |s| && at <= |s'|
    requires KeywordEnd(s, at).Some? && KeywordEnd(s, at).value < n && Gap(s[KeywordEnd(s, at).value])
    ensures KeywordEnd(s', at) == KeywordEnd(s, at)
  {
    var k := KeywordEnd(s, at).value;
    Seqs.SliceOfTake(s, n, at, at + 3);
    Seqs.SliceOfTake(s', n, at, at + 3);
    if k == at + 7 {
      Seqs.SliceOfTake(s, n, at + 3, at + 7);
      Seqs.SliceOfTake(s', n, at + 3, at + 7);
    } else {
      AgreeAt(s, s', n, k);
      assert at + 7 <= |s'| ==> s'[at + 3..at + 7][0] == s'[at + 3];
    }
  }

  lemma Replaced(front: string, w: string, back: string)
    ensures var s := front + w + back;
            && |s| == |front| + |w| + |back|
            && (forall i :: |front| <= i < |front| + |w| ==> s[i] == w[i - |front|])
            && (back != [] ==> s[|front| + |w|] == back[0])
            && s[|front|..|front| + |w|] == w && s[..|front|] == front
  {
  }

  lemma UriFound(front: string, w: string, back: string)
    requires Plain(w) && (back != [] ==> !UriChar(back[0]))
    ensures UriAt(front + w + back, |front|) == [Span(|front|, |front| + |w|)]
  {
    Replaced(front, w, back);
    UriEndIs(front + w + back, |front|, |front| + |w|);
  }

  /** A URI that is replaced by one is found again where it was. */
  lemma UriReplaced(line: string, a: nat, w: string)
    requires a <= |line| && a < UriEnd(line, a) && Plain(w)
    ensures var line' := line[..a] + w + line[UriEnd(line, a)..];
      && a + |w| <= |line'| && UriAt(line', a) == [Span(a, a + |w|)]
      && line'[a..a + |w|] == w && line'[a] == w[0] && line'[..a] == line[..a]
  {
    var e := UriEnd(line, a);
    UriEndBeyond(line, a);
    if e < |line| {
      Seqs.Tail(line, e);
    }
    UriFound(line[..a], w, line[e..]);
    Replaced(line[..a], w, line[e..]);
  }

  /**
   * The line has at most one token, and when the edit changes it the new one is found in its place, and nothing else.
   */
  ghost predicate Settles(pick: string -> seq<Span>, edit: Edit, line: string) {
    pick(line) == []
    || (|pick(line)| == 1 && Tokens(line, pick(line), 0)
        && var a, e := pick(line)[0].start, pick(line)[0].end; var w := edit(line[a..e]);
           w == line[a..e] || pick(line[..a] + w + line[e..]) == [Span(a, a + |w|)])
  }

  lemma MirrorUriSettles(line: string, edit: Edit)
    requires Tame(edit)
    ensures Settles(MirrorUri, edit, line)
  {
    UriIsToken(line, Blanks(line, 0));
    if MirrorUri(line) != [] {
      var a, e := MirrorUri(line)[0].start, MirrorUri(line)[0].end;
      var w := edit(line[a..e]);
      if w != line[a..e] {
        UriReplaced(line, a, w);
        UriEndStops(line, a);
        BlanksAgree(line, line[..a] + w + line[e..], a, 0);
      }
    }
  }

  /** Everything before the options of a one-line source is read again. */
  lemma ListPrefixAgree(line: string, line': string, a: nat, b: nat, k: nat, at: nat)
    requires Agree(line, line', a) && b == Blanks(line, 0) && KeywordEnd(line, b) == Some(k)
    requires k < at <= a && at == Blanks(line, k)
    ensures b <= a && Blanks(line', 0) == b && KeywordEnd(line', b) == Some(k) && k <= |line'| && Blanks(line', k) == at
  {
    BlanksAgree(line, line', a, 0);
    BlanksStops(line, k);
    KeywordAgree(line, line', a, b);
    BlanksAgree(line, line', a, k);
  }

  lemma OptionsAgree(line: string, line': string, a: nat, at: nat)
    requires Agree(line, line', a) && at < a && AfterOptions(line, at) == Some(a)
    ensures AfterOptions(line', at) == Some(a)
  {
    AgreeAt(line, line', a, at);
    BracketEndAgree(line, line', a, at + 1);
    BlanksAgree(line, line', a, BracketEnd(line, at + 1).value);
  }

  lemma ListUriReplaced(line: string, w: string)
    requires ListUri(line) != [] && Plain(Cut(line, ListUri(line)[0])) && Plain(w)
    ensures var a, e := ListUri(line)[0].start, ListUri(line)[0].end;
      a <= e <= |line| && ListUri(line[..a] + w + line[e..]) == [Span(a, a + |w|)]
  {
    ListUriIsToken(line);
    var a, e := ListUri(line)[0].start, ListUri(line)[0].end;
    var line' := line[..a] + w + line[e..];
    var b := Blanks(line, 0);
    var k := KeywordEnd(line, b).value;
    var at := Blanks(line, k);
    UriReplaced(line, a, w);
    UriEndStops(line, a);
    assert line[a..e][0] == line[a];
    ListPrefixAgree(line, line', a, b, k, at);
    if at < a {
      OptionsAgree(line, line', a, at);
    }
  }

  lemma ListUriSettles(line: string, edit: Edit)
    requires Tame(edit)
    ensures Settles(ListUri, edit, line)
  {
    ListUriIsToken(line);
    if ListUri(line) != [] {
      var a, e := ListUri(line)[0].start, ListUri(line)[0].end;
      if edit(line[a..e]) != line[a..e] {
        ListUriReplaced(line, edit(line[a..e]));
      }
    }
  }

  lemma OneLineKept(pick: string -> seq<Span>, edit: Edit, line: string)
    requires Settles(pick, edit, line)
    ensures Tokens(line, pick(line), 0) && SteadyLine(OneLine(pick), edit, line, ())
  {
    if pick(line) == [] {
      assert line[0..|line|] == line;
    } else {
      var a, e := pick(line)[0].start, pick(line)[0].end;
      var w := edit(line[a..e]);
      var line' := RewriteLine(OneLine(pick), edit, line, ());
      assert pick(line)[1..] == [] && Cut(line, pick(line)[0]) == line[a..e];
      assert Substitute(line, pick(line)[1..], e, edit) == line[e..|line|] == line[e..];
      assert line' == line[0..a] + w + line[e..];
      assert line[0..a] == line[..a];
      if w == line[a..e] {
        Seqs.Slice(line, 0, a, e);
        Seqs.Cut(line, e);
        assert line' == line;
      } else {
        assert line'[a..a + |w|] == w;
      }
    }
  }

  lemma OneLineSteady(pick: string -> seq<Span>, edit: Edit)
    requires Tame(edit) && forall line :: Settles(pick, edit, line)
    ensures Sound(OneLine(pick)) && Indented(OneLine(pick), false) && Steady(OneLine(pick), edit)
  {
    forall line, c
      ensures PicksTokens(OneLine(pick), line, c) && SteadyLine(OneLine(pick), edit, line, c)
    {
      OneLineKept(pick, edit, line);
    }
  }
}
