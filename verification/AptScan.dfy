/**
 * The apt source formats of scripts/browser_acquisition.py: what their scanners pick from a line.
 *
 * In a deb822 file what a line contributes depends on the field in force and on whether its stanza is enabled. The
 * scanner `Deb822` looks ahead over the whole stanza for that; the code reads once and decides when a stanza ends.
 */
module AptScan {
  import opened Text
  import opened Splice
  import Seqs

  // ----- one line -----

  /** Where the token at `at` ends: up to white space. */
  function WordEnd(s: string, at: nat): (end: nat)
    requires at <= |s|
    ensures at <= end <= |s|
    decreases |s| - at
  {
    if at == |s| || IsSpace(s[at]) then at else WordEnd(s, at + 1)
  }

  lemma {:induction false} WordEndStops(s: string, at: nat)
    requires at <= |s|
    ensures forall i :: at <= i < WordEnd(s, at) ==> !IsSpace(s[i])
    decreases |s| - at
  {
    if at < |s| && !IsSpace(s[at]) {
      WordEndStops(s, at + 1);
    }
  }

  /** Length of a possible field name: neither white space nor a colon. */
  function NameLen(s: string): (n: nat)
    ensures n <= |s|
  {
    if s == "" || IsSpace(s[0]) || s[0] == ':' then 0 else 1 + NameLen(s[1..])
  }

  /** Where a field header ends, or 0 when the line has none. */
  function HeaderEnd(line: string): (n: nat)
    ensures n <= |line|
  {
    var n := NameLen(line);
    if 0 < n < |line| && line[n] == ':' then n + 1 else 0
  }

  /** The first character that is not white space is `#`. */
  predicate Comment(line: string) {
    line != "" && if IsSpace(line[0]) then Comment(line[1..]) else line[0] == '#'
  }

  /** Every maximal run of characters that are not white space. */
  function Runs(s: string, at: nat): seq<Span>
    requires at <= |s|
    decreases |s| - at
  {
    if at == |s| then []
    else if IsSpace(s[at]) then Runs(s, at + 1)
    else
      var end := WordEnd(s, at);
      [Span(at, end)] + Runs(s, end)
  }

  /** The runs that count as values: those before a run that starts a comment. */
  function Values(s: string, at: nat): seq<Span>
    requires at <= |s|
    decreases |s| - at
  {
    if at == |s| || s[at] == '#' then []
    else if IsSpace(s[at]) then Values(s, at + 1)
    else
      var end := WordEnd(s, at);
      [Span(at, end)] + Values(s, end)
  }

  /** `token[0].startswith("#")` */
  predicate Hash(s: string, span: Span) {
    span.start < |s| && s[span.start] == '#'
  }

  /** What a loop over `runs` that stops at a comment sees. */
  function BeforeComment(s: string, runs: seq<Span>): seq<Span> {
    if runs == [] || Hash(s, runs[0]) then [] else [runs[0]] + BeforeComment(s, runs[1..])
  }

  lemma {:induction false} ValuesAreRunsBeforeComment(s: string, at: nat)
    requires at <= |s|
    ensures Values(s, at) == BeforeComment(s, Runs(s, at))
    decreases |s| - at
  {
    if at == |s| {
    } else if IsSpace(s[at]) {
      ValuesAreRunsBeforeComment(s, at + 1);
    } else {
      ValuesAreRunsBeforeComment(s, WordEnd(s, at));
    }
  }

  lemma {:induction false} BeforeCommentIsPrefix(s: string, runs: seq<Span>, k: nat)
    requires k <= |runs| && (forall i :: 0 <= i < k ==> !Hash(s, runs[i])) && (k < |runs| ==> Hash(s, runs[k]))
    ensures BeforeComment(s, runs) == runs[..k]
  {
    if k > 0 {
      BeforeCommentIsPrefix(s, runs[1..], k - 1);
      assert runs[..k] == [runs[0]] + runs[1..][..k - 1];
    }
  }

  // ----- deb822 -----

  /** The field in force; the scanner tells apart only these. `Other` includes no field at all. */
  datatype Field = Uris | Enabled | Other

  function FieldNamed(name: string): Field {
    if Lower(name) == "uris" then Uris else if Lower(name) == "enabled" then Enabled else Other
  }

  /** The field a header line opens. */
  function HeaderField(line: string): Field {
    var n := HeaderEnd(line);
    if n == 0 then Other else FieldNamed(line[..n - 1])
  }

  /** The field a line leaves in force. */
  function FieldAfter(line: string, field: Field): Field {
    if Blank(line) then Other
    else if Comment(line) || IsSpace(line[0]) then field
    else HeaderField(line)
  }

  /** Where the values of a line begin. */
  function ValueStart(line: string): (n: nat)
    ensures n <= |line|
  {
    if line == "" || IsSpace(line[0]) then 0 else HeaderEnd(line)
  }

  /** The values a deb822 line gives to field `name`. */
  function FieldValues(line: string, field: Field, name: Field): seq<Span>
  {
    if Blank(line) || Comment(line) || FieldAfter(line, field) != name then []
    else Values(line, ValueStart(line))
  }

  /** The `Enabled` words from here to the end of the stanza. */
  function EnabledWords(lines: seq<string>, field: Field): seq<string>
  {
    if lines == [] || Blank(lines[0]) then []
    else Texts(lines[0], FieldValues(lines[0], field, Enabled)) + EnabledWords(lines[1..], FieldAfter(lines[0], field))
  }

  predicate AllZeros(s: string) {
    s != "" && forall i :: 0 <= i < |s| ==> s[i] == '0'
  }

  /** `[+-]?(?:0+|0x0+)` */
  predicate ZeroLiteral(s: string) {
    var digits := if s != "" && (s[0] == '+' || s[0] == '-') then s[1..] else s;
    AllZeros(digits) || (|digits| > 2 && digits[..2] == "0x" && AllZeros(digits[2..]))
  }

  /** Whether a stanza with these `Enabled` words is switched off. */
  predicate Disabled(words: seq<string>) {
    var value := Lower(Join(" ", words));
    value in {"no", "false", "off", "without", "disable"} || ZeroLiteral(value)
  }

  /**
   * Decides from a stanza's `Enabled` words whether it is off. `Disabled` is the one in use; the rest holds for any.
   */
  type Switch = seq<string> -> bool

  /** Whether the stanza that starts here is on: decided from all of its lines. */
  predicate StanzaOn(off: Switch, lines: seq<string>) {
    !off(EnabledWords(lines, Other))
  }

  // ----- one-line formats -----

  predicate Gap(c: char) {
    c == ' ' || c == '\t'
  }

  /** End of `[ \t]*` from `at`. */
  function Blanks(s: string, at: nat): (n: nat)
    requires at <= |s|
    ensures at <= n <= |s|
    decreases |s| - at
  {
    if at < |s| && Gap(s[at]) then Blanks(s, at + 1) else at
  }

  predicate UriChar(c: char) {
    !IsSpace(c) && c != '#'
  }

  /** End of `[^\s#]+` from `at`. */
  function UriEnd(s: string, at: nat): (n: nat)
    requires at <= |s|
    ensures at <= n <= |s|
    decreases |s| - at
  {
    if at < |s| && UriChar(s[at]) then UriEnd(s, at + 1) else at
  }

  function UriAt(s: string, at: nat): seq<Span>
    requires at <= |s|
  {
    var e := UriEnd(s, at);
    if at < e then [Span(at, e)] else []
  }

  /** End of `[^\]\r\n]*\]` from `at`, if the bracket closes on this line. */
  function BracketEnd(s: string, at: nat): (r: Option<nat>)
    requires at <= |s|
    ensures r.Some? ==> at < r.value <= |s|
    decreases |s| - at
  {
    if at == |s| || s[at] == '\r' || s[at] == '\n' then None
    else if s[at] == ']' then Some(at + 1)
    else BracketEnd(s, at + 1)
  }

  /** Where the URI is looked for first when `at` opens an option group. */
  function AfterOptions(s: string, at: nat): (r: Option<nat>)
    requires at <= |s|
    ensures r.Some? ==> at < r.value <= |s|
  {
    if at == |s| || s[at] != '[' then None
    else
      match BracketEnd(s, at + 1)
      case None => None
      case Some(e) => if Blanks(s, e) == e then None else Some(Blanks(s, e))
  }

  /** End of `deb(?:-src)?` from `at`. */
  function KeywordEnd(s: string, at: nat): (r: Option<nat>)
    requires at <= |s|
    ensures r.Some? ==> at < r.value <= |s|
  {
    if at + 3 <= |s| && s[at..at + 3] == "deb" then
      if at + 7 <= |s| && s[at + 3..at + 7] == "-src" then Some(at + 7) else Some(at + 3)
    else None
  }

  /**
   * The URI of a one-line source. An option group is skipped when a URI follows
   * it; when none does, the pattern backtracks and reads the bracket as the URI.
   */
  function ListUri(line: string): (r: seq<Span>)
  {
    match KeywordEnd(line, Blanks(line, 0))
    case None => []
    case Some(k) =>
      var at := Blanks(line, k);
      if at == k then []
      else
        var skipped := match AfterOptions(line, at) case None => [] case Some(u) => UriAt(line, u);
        if skipped != [] then skipped else UriAt(line, at)
  }

  // ----- the scanners -----

  datatype Context = Context(field: Field, on: bool)

  function PickDeb822(line: string, c: Context): seq<Span> {
    if c.on then FieldValues(line, c.field, Uris) else []
  }

  function NextDeb822(off: Switch, lines: seq<string>, c: Context): Context {
    if lines == [] then c
    else Context(FieldAfter(lines[0], c.field), if Blank(lines[0]) then StanzaOn(off, lines[1..]) else c.on)
  }

  function Deb822(off: Switch): Scanner<Context> {
    Scanner(PickDeb822, lines => Context(Other, StanzaOn(off, lines)), (lines, c) => NextDeb822(off, lines, c))
  }

  /** A format that reads each line by itself. */
  function OneLine(pick: string -> seq<Span>): Scanner<()> {
    Scanner((line, c) => pick(line), lines => (), (lines, c) => ())
  }

  /** The first word of a line of the mirror list. */
  function MirrorUri(line: string): seq<Span> {
    UriAt(line, Blanks(line, 0))
  }

  /** The spans of a `.list` text, of a `.sources` text and of the runner's mirror list. */
  function ListSpans(text: string): seq<Span> { Spans(OneLine(ListUri), false, text) }
  function SourcesSpans(text: string): seq<Span> { Spans(Deb822(Disabled), true, text) }
  function MirrorSpans(text: string): seq<Span> { Spans(OneLine(MirrorUri), false, text) }

  // ----- the one-pass scanner -----

  /**
   * What the scan will return when `result` holds the finished stanzas,
   * `pending` and `enabled` the open one, and `rest` is still to be read.
   */
  ghost function Outcome(off: Switch, result: seq<Span>, pending: seq<Span>, enabled: seq<string>, field: Field,
                         rest: seq<string>, at: nat): seq<Span>
  {
    var on := !off(enabled + EnabledWords(rest, field));
    result + (if on then pending else []) + SpansFrom(Deb822(off), rest, at, Context(field, on))
  }

  lemma BlankLine(off: Switch, result: seq<Span>, pending: seq<Span>, enabled: seq<string>, field: Field,
                  rest: seq<string>, at: nat)
    requires |rest| > 0 && Blank(rest[0])
    ensures Outcome(off, result, pending, enabled, field, rest, at)
         == Outcome(off, if off(enabled) then result else result + pending, [], [], Other, rest[1..], at + |rest[0]|)
  {
    Seqs.Empty(enabled);
    Seqs.Empty(EnabledWords(rest[1..], Other));
    Seqs.Empty(SpansFrom(Deb822(off), rest[1..], at + |rest[0]|, Context(Other, StanzaOn(off, rest[1..]))));
    Seqs.Empty(result);
    assert Shift(PickDeb822(rest[0], Context(field, !off(enabled))), at) == [];
  }

  /** A line that is not blank adds its `URIs` values to the stanza's spans and its `Enabled` values to its words. */
  lemma FieldLine(off: Switch, result: seq<Span>, pending: seq<Span>, enabled: seq<string>, field: Field,
                  rest: seq<string>, at: nat)
    requires |rest| > 0 && !Blank(rest[0])
    ensures Outcome(off, result, pending, enabled, field, rest, at)
         == Outcome(off, result, pending + Shift(FieldValues(rest[0], field, Uris), at),
                    enabled + Texts(rest[0], FieldValues(rest[0], field, Enabled)),
                    FieldAfter(rest[0], field), rest[1..], at + |rest[0]|)
  {
    var words := Texts(rest[0], FieldValues(rest[0], field, Enabled));
    var next := EnabledWords(rest[1..], FieldAfter(rest[0], field));
    Seqs.Assoc(enabled, words, next);
    var on := !off(enabled + words + next);
    var found := Shift(FieldValues(rest[0], field, Uris), at);
    var later := SpansFrom(Deb822(off), rest[1..], at + |rest[0]|, Context(FieldAfter(rest[0], field), on));
    Seqs.Assoc(result, pending, found + later);
    Seqs.Assoc(pending, found, later);
    Seqs.Assoc(result, pending + found, later);
    Seqs.Empty(later);
    assert Shift(PickDeb822(rest[0], Context(field, on)), at) == if on then found else [];
  }

  lemma ScanStart(off: Switch, lines: seq<string>)
    ensures Outcome(off, [], [], [], Other, lines, 0)
         == SpansFrom(Deb822(off), lines, 0, Context(Other, StanzaOn(off, lines)))
  {
    assert [] + EnabledWords(lines, Other) == EnabledWords(lines, Other);
  }

  lemma ScanEnd(off: Switch, result: seq<Span>, pending: seq<Span>, enabled: seq<string>, field: Field, at: nat)
    ensures Outcome(off, result, pending, enabled, field, [], at) == if off(enabled) then result else result + pending
  {
    assert enabled + EnabledWords([], field) == enabled;
  }

  lemma {:induction false} SpansSnoc(s: string, front: seq<Span>, span: Span, d: nat)
    ensures Shift(front + [span], d) == Shift(front, d) + [Span(span.start + d, span.end + d)]
    ensures Texts(s, front + [span]) == Texts(s, front) + [Cut(s, span)]
  {
    if front != [] {
      SpansSnoc(s, front[1..], span, d);
      Seqs.AppendTail(front, [span]);
    } else {
      Seqs.Empty([span]);
    }
  }

  /** What the tokens add: spans to the pending ones in a `URIs` field, words to the switch otherwise. */
  predicate Taken(line: string, tokens: seq<Span>, offset: nat, uris: bool, pending: seq<Span>, enabled: seq<string>,
                  pending': seq<Span>, enabled': seq<string>)
  {
    && pending' == (if uris then pending + Shift(tokens, offset) else pending)
    && enabled' == (if uris then enabled else enabled + Texts(line, tokens))
  }

  lemma NothingTaken(line: string, tokens: seq<Span>, offset: nat, uris: bool, pending: seq<Span>, enabled: seq<string>)
    ensures Taken(line, tokens[..0], offset, uris, pending, enabled, pending, enabled)
  {
    assert tokens[..0] == [];
  }

  lemma OneTaken(line: string, tokens: seq<Span>, k: nat, offset: nat, uris: bool, pending: seq<Span>,
                 enabled: seq<string>, spans: seq<Span>, words: seq<string>)
    requires k < |tokens| && Taken(line, tokens[..k], offset, uris, pending, enabled, spans, words)
    ensures uris ==> Taken(line, tokens[..k + 1], offset, uris, pending, enabled,
                           spans + [Span(tokens[k].start + offset, tokens[k].end + offset)], words)
    ensures !uris ==> Taken(line, tokens[..k + 1], offset, uris, pending, enabled,
                            spans, words + [Cut(line, tokens[k])])
  {
    Seqs.TakeNext(tokens, k);
    SpansSnoc(line, tokens[..k], tokens[k], offset);
    if uris {
      Seqs.Assoc(pending, Shift(tokens[..k], offset), [Span(tokens[k].start + offset, tokens[k].end + offset)]);
    } else {
      Seqs.Assoc(enabled, Texts(line, tokens[..k]), [Cut(line, tokens[k])]);
    }
  }

  /** The inner loop over the tokens of a value line, which stops at a comment. */
  method TakeTokens(line: string, tokens: seq<Span>, offset: nat, uris: bool, pending: seq<Span>, enabled: seq<string>)
    returns (pending': seq<Span>, enabled': seq<string>)
    ensures Taken(line, BeforeComment(line, tokens), offset, uris, pending, enabled, pending', enabled')
  {
    pending', enabled' := pending, enabled;
    NothingTaken(line, tokens, offset, uris, pending, enabled);
    var k := 0;
    while k < |tokens| && !Hash(line, tokens[k])
      invariant 0 <= k <= |tokens|
      invariant forall j :: 0 <= j < k ==> !Hash(line, tokens[j])
      invariant Taken(line, tokens[..k], offset, uris, pending, enabled, pending', enabled')
    {
      OneTaken(line, tokens, k, offset, uris, pending, enabled, pending', enabled');
      if uris {
        pending' := pending' + [Span(tokens[k].start + offset, tokens[k].end + offset)];
      } else {
        enabled' := enabled' + [Cut(line, tokens[k])];
      }
      k := k + 1;
    }
    BeforeCommentIsPrefix(line, tokens, k);
  }

  /** One line of a stanza: it may open a field, and adds its values to the URIs or to the `Enabled` words. */
  method TakeLine(line: string, offset: nat, pending: seq<Span>, enabled: seq<string>, field: Field)
    returns (pending': seq<Span>, enabled': seq<string>, field': Field)
    requires !Blank(line)
    ensures pending' == pending + Shift(FieldValues(line, field, Uris), offset)
    ensures enabled' == enabled + Texts(line, FieldValues(line, field, Enabled))
    ensures field' == FieldAfter(line, field)
  {
    pending', enabled', field' := pending, enabled, field;
    if !Comment(line) {
      var start := 0;
      if !IsSpace(line[0]) {
        start := HeaderEnd(line);
        field' := HeaderField(line);
      }
      if field' == Uris || field' == Enabled {
        ValuesAreRunsBeforeComment(line, start);
        pending', enabled' := TakeTokens(line, Runs(line, start), offset, field' == Uris, pending, enabled);
      }
    }
  }

  /** The loop body: a blank line ends the stanza, and only then is it known whether its URIs count. */
  method NextLine(off: Switch, line: string, offset: nat, result: seq<Span>, pending: seq<Span>, enabled: seq<string>,
                  field: Field, ghost rest: seq<string>)
    returns (result': seq<Span>, pending': seq<Span>, enabled': seq<string>, field': Field)
    requires |rest| > 0 && rest[0] == line
    ensures Outcome(off, result, pending, enabled, field, rest, offset)
         == Outcome(off, result', pending', enabled', field', rest[1..], offset + |line|)
  {
    if Blank(line) {
      BlankLine(off, result, pending, enabled, field, rest, offset);
      result' := if off(enabled) then result else result + pending;
      pending', enabled', field' := [], [], Other;
    } else {
      FieldLine(off, result, pending, enabled, field, rest, offset);
      result' := result;
      pending', enabled', field' := TakeLine(line, offset, pending, enabled, field);
    }
  }

  /** The end of the text ends the last stanza. */
  method LastStanza(off: Switch, result: seq<Span>, pending: seq<Span>, enabled: seq<string>, ghost field: Field,
                    ghost at: nat)
    returns (all: seq<Span>)
    ensures all == Outcome(off, result, pending, enabled, field, [], at)
  {
    ScanEnd(off, result, pending, enabled, field, at);
    all := if off(enabled) then result else result + pending;
  }

  /** What the scan still makes of the lines not yet read. */
  ghost predicate ComesTo(goal: seq<Span>, off: Switch, result: seq<Span>, pending: seq<Span>, enabled: seq<string>,
                    field: Field, rest: seq<string>, at: nat)
  {
    goal == Outcome(off, result, pending, enabled, field, rest, at)
  }

  /** The loop over the lines. `goal` is what is to come out: it never changes from line to line. */
  method ScanLines(lines: seq<string>, off: Switch, ghost goal: seq<Span>) returns (result: seq<Span>)
    requires ComesTo(goal, off, [], [], [], Other, lines, 0)
    ensures result == goal
  {
    var pending: seq<Span>, enabled: seq<string> := [], [];
    var field, offset: nat, i := Other, 0, 0;
    result := [];
    Seqs.Whole(lines);
    while i < |lines|
      invariant 0 <= i <= |lines|
      invariant ComesTo(goal, off, result, pending, enabled, field, lines[i..], offset)
    {
      Seqs.Tail(lines, i);
      result, pending, enabled, field := NextLine(off, lines[i], offset, result, pending, enabled, field, lines[i..]);
      offset := offset + |lines[i]|;
      i := i + 1;
    }
    result := LastStanza(off, result, pending, enabled, field, offset);
  }

  /** The deb822 scan: one pass, with the decision about a stanza taken when the stanza ends. */
  method ScanSources(lines: seq<string>, off: Switch) returns (result: seq<Span>)
    ensures result == SpansFrom(Deb822(off), lines, 0, Context(Other, StanzaOn(off, lines)))
  {
    ScanStart(off, lines);
    result := ScanLines(lines, off, Outcome(off, [], [], [], Other, lines, 0));
  }

  /** `uri_spans`: the spans for the two known suffixes, and an error for any other. */
  method UriSpans(text: string, suffix: string) returns (r: Result<seq<Span>>)
    ensures suffix == ".list" ==> r == Ok(ListSpans(text))
    ensures suffix == ".sources" ==> r == Ok(SourcesSpans(text))
    ensures suffix != ".list" && suffix != ".sources" ==> r.Err?
  {
    if suffix == ".list" {
      return Ok(ListSpans(text));
    }
    if suffix != ".sources" {
      return Err("Unsupported source format");
    }
    var result := ScanSources(Lines(true, text), Disabled);
    return Ok(result);
  }

  // ----- every picked span is a token -----

  lemma WordAt(s: string, at: nat)
    requires at < |s| && !IsSpace(s[at])
    ensures at < WordEnd(s, at) && NoSpace(s[at..WordEnd(s, at)])
  {
    WordEndStops(s, at);
  }

  lemma NoTokens(s: string, at: nat, from: nat)
    requires from <= at <= |s| && (at < |s| ==> s[at] == '#')
    ensures Tokens(s, Values(s, at), from)
  {
  }

  lemma ValuesAfterSpace(s: string, at: nat)
    requires at < |s| && s[at] != '#' && IsSpace(s[at])
    ensures Values(s, at) == Values(s, at + 1)
  {
  }

  lemma SpaceThenTokens(s: string, at: nat, from: nat)
    requires from <= at < |s| && s[at] != '#' && IsSpace(s[at]) && Tokens(s, Values(s, at + 1), from)
    ensures Tokens(s, Values(s, at), from)
  {
    ValuesAfterSpace(s, at);
  }

  lemma ValuesFromWord(s: string, at: nat)
    requires at < |s| && s[at] != '#' && !IsSpace(s[at])
    ensures Values(s, at) == [Span(at, WordEnd(s, at))] + Values(s, WordEnd(s, at))
  {
  }

  lemma {:induction false} ValuesAreTokens(s: string, at: nat, from: nat)
    requires from <= at <= |s|
    ensures Tokens(s, Values(s, at), from)
    decreases |s| - at
  {
    if at == |s| || s[at] == '#' {
      NoTokens(s, at, from);
    } else if IsSpace(s[at]) {
      ValuesAreTokens(s, at + 1, from);
      SpaceThenTokens(s, at, from);
    } else {
      var end := WordEnd(s, at);
      WordAt(s, at);
      ValuesFromWord(s, at);
      ValuesAreTokens(s, end, end);
      TokensCons(s, Span(at, end), Values(s, end), from);
    }
  }

  lemma {:induction false} UriEndStops(s: string, at: nat)
    requires at <= |s|
    ensures forall i :: at <= i < UriEnd(s, at) ==> UriChar(s[i])
    decreases |s| - at
  {
    if at < |s| && UriChar(s[at]) {
      UriEndStops(s, at + 1);
    }
  }

  lemma UriIsToken(s: string, at: nat)
    requires at <= |s|
    ensures Tokens(s, UriAt(s, at), 0)
  {
    UriEndStops(s, at);
  }

  lemma ListUriIsToken(line: string)
    ensures Tokens(line, ListUri(line), 0)
  {
    match KeywordEnd(line, Blanks(line, 0))
    case None =>
    case Some(k) =>
      var at := Blanks(line, k);
      UriIsToken(line, at);
      match AfterOptions(line, at)
      case None =>
      case Some(u) => UriIsToken(line, u);
  }

  lemma Deb822Sound(off: Switch)
    ensures Sound(Deb822(off))
    ensures Indented(Deb822(off), true)
  {
    forall line, c: Context
      ensures PicksTokens(Deb822(off), line, c)
      ensures PickDeb822(line, c) != [] ==> PickDeb822(line, c)[0].start > 0
    {
      ValuesAreTokens(line, ValueStart(line), 0);
      ValuesAreTokens(line, ValueStart(line), ValueStart(line));
      if line != "" && IsSpace(line[0]) {
        ValuesAreTokens(line, 1, 1);
      }
    }
  }
}
