/**
 * Planning the changes to /etc/apt (scripts/browser_acquisition.py): every file is read first, and a second plan is
 * empty.
 */
module AptPlan {
  import opened Text
  import opened Splice
  import opened AptScan
  import opened AptRewrite
  import opened AptGrammar
  import Seqs

  // ----- the one edit -----

  const AZURE := "azure.archive.ubuntu.com/ubuntu"
  const ARCHIVE := "archive.ubuntu.com/ubuntu"
  const RUNNER_LIST := "mirror+file:/etc/apt/apt-mirrors.txt"

  predicate Azure(token: string, tail: string) {
    token == "http://" + AZURE + tail || token == "https://" + AZURE + tail
  }

  /** The Azure mirror, with or without TLS and a final slash, becomes the archive; any other token stays. */
  function Normalize(token: string): string {
    if Azure(token, "") then "https://" + ARCHIVE
    else if Azure(token, "/") then "https://" + ARCHIVE + "/"
    else token
  }

  /** The four spellings of the Azure mirror, in full. */
  const AZURE_URLS := {
    "http://azure.archive.ubuntu.com/ubuntu", "https://azure.archive.ubuntu.com/ubuntu",
    "http://azure.archive.ubuntu.com/ubuntu/", "https://azure.archive.ubuntu.com/ubuntu/"
  }

  lemma AzureUrl()
    ensures "http://" + AZURE + "" == "http://azure.archive.ubuntu.com/ubuntu"
  {
  }

  lemma AzureTlsUrl()
    ensures "https://" + AZURE + "" == "https://azure.archive.ubuntu.com/ubuntu"
  {
  }

  lemma AzureDirectory()
    ensures "http://" + AZURE + "/" == "http://azure.archive.ubuntu.com/ubuntu/"
  {
  }

  lemma AzureTlsDirectory()
    ensures "https://" + AZURE + "/" == "https://azure.archive.ubuntu.com/ubuntu/"
  {
  }

  lemma ArchiveUrls()
    ensures "https://" + ARCHIVE == "https://archive.ubuntu.com/ubuntu"
    ensures "https://" + ARCHIVE + "/" == "https://archive.ubuntu.com/ubuntu/"
  {
  }

  lemma AzureApart()
    ensures |"http://azure.archive.ubuntu.com/ubuntu"| == 38 && |"https://azure.archive.ubuntu.com/ubuntu"| == 39
    ensures |"http://azure.archive.ubuntu.com/ubuntu/"| == 39 && |"https://azure.archive.ubuntu.com/ubuntu/"| == 40
    ensures "http://azure.archive.ubuntu.com/ubuntu/"[4] == ':' && "https://azure.archive.ubuntu.com/ubuntu"[4] == 's'
  {
  }

  /** What they become; nothing else becomes anything else. */
  lemma NormalizeIs(w: string)
    ensures Normalize("http://azure.archive.ubuntu.com/ubuntu") == "https://archive.ubuntu.com/ubuntu"
    ensures Normalize("https://azure.archive.ubuntu.com/ubuntu") == "https://archive.ubuntu.com/ubuntu"
    ensures Normalize("http://azure.archive.ubuntu.com/ubuntu/") == "https://archive.ubuntu.com/ubuntu/"
    ensures Normalize("https://azure.archive.ubuntu.com/ubuntu/") == "https://archive.ubuntu.com/ubuntu/"
    ensures w !in AZURE_URLS ==> Normalize(w) == w
    ensures RUNNER_LIST == "mirror+file:/etc/apt/apt-mirrors.txt"
  {
    AzureUrl();
    AzureTlsUrl();
    AzureDirectory();
    AzureTlsDirectory();
    ArchiveUrls();
    AzureApart();
  }

  predicate PlainChars(s: string) {
    forall i :: 0 <= i < |s| ==> UriChar(s[i]) && s[i] != '['
  }

  lemma PlainPieces()
    ensures PlainChars("http://") && PlainChars("https://") && PlainChars("/") && PlainChars("")
  {
  }

  lemma PlainAppend(a: string, b: string)
    requires PlainChars(a) && PlainChars(b)
    ensures PlainChars(a + b)
  {
  }

  lemma PlainParts()
    ensures PlainChars("azure.") && PlainChars("archive.") && PlainChars("ubuntu.com/ubuntu")
  {
  }

  lemma PlainHosts()
    ensures PlainChars(AZURE) && PlainChars(ARCHIVE)
  {
    PlainParts();
    PlainAppend("archive.", "ubuntu.com/ubuntu");
    PlainAppend("azure.", "archive." + "ubuntu.com/ubuntu");
  }

  lemma PlainUrl(scheme: string, host: string, tail: string)
    requires PlainChars(scheme) && PlainChars(host) && PlainChars(tail) && scheme != ""
    ensures Plain(scheme + host + tail)
  {
    PlainAppend(scheme, host);
    PlainAppend(scheme + host, tail);
  }

  lemma AzurePlain(token: string, tail: string)
    requires Azure(token, tail) && PlainChars(tail)
    ensures Plain(token)
  {
    PlainPieces();
    PlainHosts();
    PlainUrl("http://", AZURE, tail);
    PlainUrl("https://", AZURE, tail);
  }

  lemma NormalizePlain(w: string)
    ensures Normalize(w) == w || (Plain(w) && Plain(Normalize(w)))
  {
    PlainPieces();
    PlainHosts();
    if Azure(w, "") {
      AzurePlain(w, "");
      PlainUrl("https://", ARCHIVE, "");
      Seqs.Empty("https://" + ARCHIVE);
    } else if Azure(w, "/") {
      AzurePlain(w, "/");
      PlainUrl("https://", ARCHIVE, "/");
    }
  }

  lemma NormalizeLengths(w: string)
    ensures Normalize(w) == w || (|w| > 37 && |Normalize(w)| < 35)
    ensures |AZURE| == 31 && |RUNNER_LIST| == 36
  {
  }

  lemma NormalizeTame()
    ensures Tame(Normalize)
    ensures forall w :: Normalize(Normalize(w)) == Normalize(w)
    ensures forall w :: Normalize(w) == RUNNER_LIST <==> w == RUNNER_LIST
  {
    forall w ensures Normalize(w) == w || (Plain(w) && Plain(Normalize(w))) {
      NormalizePlain(w);
    }
    forall w
      ensures Normalize(Normalize(w)) == Normalize(w)
      ensures Normalize(w) == RUNNER_LIST <==> w == RUNNER_LIST
    {
      NormalizeLengths(w);
      NormalizeLengths(Normalize(w));
    }
  }

  // ----- rewriting one file -----

  function ListText(text: string): string { Rewrite(OneLine(ListUri), false, Normalize, text) }
  function SourcesText(text: string): string { Rewrite(Deb822(Disabled), true, Normalize, text) }
  function MirrorText(text: string): string { Rewrite(OneLine(MirrorUri), false, Normalize, text) }

  lemma ListScanner()
    ensures Sound(OneLine(ListUri)) && Indented(OneLine(ListUri), false)
    ensures Steady(OneLine(ListUri), Normalize) && Tame(Normalize)
  {
    NormalizeTame();
    forall line ensures Settles(ListUri, Normalize, line) {
      ListUriSettles(line, Normalize);
    }
    OneLineSteady(ListUri, Normalize);
  }

  lemma MirrorScanner()
    ensures Sound(OneLine(MirrorUri)) && Indented(OneLine(MirrorUri), false)
    ensures Steady(OneLine(MirrorUri), Normalize) && Tame(Normalize)
  {
    NormalizeTame();
    forall line ensures Settles(MirrorUri, Normalize, line) {
      MirrorUriSettles(line, Normalize);
    }
    OneLineSteady(MirrorUri, Normalize);
  }

  lemma SourcesScanner()
    ensures Sound(Deb822(Disabled)) && Indented(Deb822(Disabled), true)
    ensures Steady(Deb822(Disabled), Normalize) && Tame(Normalize)
  {
    NormalizeTame();
    Deb822Sound(Disabled);
    Deb822Steady(Disabled, Normalize);
  }

  /** Rewriting is idempotent in each format. */
  lemma RewriteIsIdempotent(text: string)
    ensures ListText(ListText(text)) == ListText(text)
    ensures SourcesText(SourcesText(text)) == SourcesText(text)
    ensures MirrorText(MirrorText(text)) == MirrorText(text)
  {
    NormalizeTame();
    ListScanner();
    RewriteTwice(OneLine(ListUri), false, Normalize, text);
    SourcesScanner();
    RewriteTwice(Deb822(Disabled), true, Normalize, text);
    MirrorScanner();
    RewriteTwice(OneLine(MirrorUri), false, Normalize, text);
  }

  lemma {:induction false} EachLine(pick: string -> seq<Span>, lines: seq<string>, i: nat)
    requires i < |lines|
    ensures |RewriteFrom(OneLine(pick), Normalize, lines, ())| == |lines|
    ensures RewriteFrom(OneLine(pick), Normalize, lines, ())[i] == Substitute(lines[i], pick(lines[i]), 0, Normalize)
  {
    if i > 0 {
      EachLine(pick, lines[1..], i - 1);
    } else if |lines| > 1 {
      EachLine(pick, lines[1..], 0);
    }
  }

  /** The line with the token from `a` to `b` normalized. */
  predicate Normalized(before: string, after: string, a: nat, b: nat) {
    a <= b <= |before| && after == before[..a] + Normalize(before[a..b]) + before[b..]
  }

  lemma OneSpan(line: string, spans: seq<Span>)
    requires |spans| <= 1 && Tokens(line, spans, 0)
    ensures spans == [] ==> Substitute(line, spans, 0, Normalize) == line
    ensures forall a: nat, b: nat :: spans == [Span(a, b)] ==>
              Normalized(line, Substitute(line, spans, 0, Normalize), a, b)
  {
    assert line[0..|line|] == line;
    if spans != [] {
      assert line[spans[0].end..|line|] == line[spans[0].end..];
      assert line[0..spans[0].start] == line[..spans[0].start];
      assert spans[1..] == [];
    }
  }

  lemma RewrittenLine(pick: string -> seq<Span>, text: string, i: nat)
    requires Sound(OneLine(pick)) && i < |Lines(false, text)|
    ensures var before, after := Lines(false, text), Lines(false, Rewrite(OneLine(pick), false, Normalize, text));
            |after| == |before| && after[i] == Substitute(before[i], pick(before[i]), 0, Normalize)
  {
    NormalizeTame();
    RewrittenLines(OneLine(pick), false, Normalize, text);
    EachLine(pick, Lines(false, text), i);
  }

  /** In a `.list` file each line keeps its place; only the one URI of a source line is normalized. */
  lemma ListTextIs(text: string, i: nat, a: nat, b: nat)
    requires i < |Lines(false, text)|
    ensures var before, after := Lines(false, text), Lines(false, ListText(text));
            && |after| == |before|
            && (ListUri(before[i]) == [] ==> after[i] == before[i])
            && (ListUri(before[i]) == [Span(a, b)] ==> Normalized(before[i], after[i], a, b))
  {
    var line := Lines(false, text)[i];
    ListScanner();
    RewrittenLine(ListUri, text, i);
    ListUriIs(line, a, b);
    ListUriIsToken(line);
    OneSpan(line, ListUri(line));
  }

  /** In the runner's mirror list each line keeps its place; only its first word is normalized. */
  lemma MirrorTextIs(text: string, i: nat, a: nat, b: nat)
    requires i < |Lines(false, text)|
    ensures var before, after := Lines(false, text), Lines(false, MirrorText(text));
            && |after| == |before|
            && (MirrorUri(before[i]) == [] ==> after[i] == before[i])
            && (MirrorUri(before[i]) == [Span(a, b)] ==> Normalized(before[i], after[i], a, b))
  {
    var line := Lines(false, text)[i];
    MirrorScanner();
    RewrittenLine(MirrorUri, text, i);
    MirrorUriIs(line, a, b);
    UriIsToken(line, Blanks(line, 0));
    OneSpan(line, MirrorUri(line));
  }

  /** In a `.sources` file each line keeps its place; only the `URIs` values of stanzas that are on are normalized. */
  lemma SourcesTextIs(text: string)
    ensures var lines := Lines(true, text);
            Lines(true, SourcesText(text))
            == RewriteFrom(Deb822(Disabled), Normalize, lines, Context(Other, !Disabled(EnabledWords(lines, Other))))
  {
    SourcesScanner();
    RewrittenLines(Deb822(Disabled), true, Normalize, text);
  }

  lemma {:induction false} EditAllKeepsRunner(words: seq<string>)
    ensures RUNNER_LIST in EditAll(Normalize, words) <==> RUNNER_LIST in words
  {
    NormalizeTame();
    if words != [] {
      EditAllKeepsRunner(words[1..]);
      assert words == [words[0]] + words[1..];
    }
  }

  // ----- the plan -----

  /** What is at a path. Reading anything but a decodable ordinary file is an error. */
  datatype Entry = Missing | Irregular | Undecodable | File(text: string)

  datatype Path = Main | Part(name: string) | Mirrors

  /** A file with its suffix, which selects the format. */
  datatype Source = Source(path: Path, suffix: string, entry: Entry)

  /** The part of the configuration directory that `plan` looks at. */
  datatype Apt = Apt(rootIsDirectory: bool, partsAreDirectory: bool, main: Entry, parts: seq<Source>, mirrors: Entry)

  datatype Change = Change(path: Path, text: string)

  /** A file system: the parts have names of their own. */
  predicate Distinct(sources: seq<Source>) {
    sources == [] || ((forall i :: 1 <= i < |sources| ==> sources[i].path != sources[0].path) && Distinct(sources[1..]))
  }

  function Sources(apt: Apt): seq<Source> {
    (if apt.main == Missing then [] else [Source(Main, ".list", apt.main)]) + apt.parts
  }

  predicate WellFormed(apt: Apt) {
    Distinct(apt.parts) && forall i :: 0 <= i < |apt.parts| ==> apt.parts[i].path.Part?
  }

  /** A file that can be read and whose format is known. */
  predicate Readable(s: Source) {
    s.entry.File? && (s.suffix == ".list" || s.suffix == ".sources")
  }

  function Updated(s: Source): string
    requires Readable(s)
  {
    if s.suffix == ".list" then ListText(s.entry.text) else SourcesText(s.entry.text)
  }

  /** The file refers to the runner's mirror list. */
  predicate NamesRunner(s: Source)
    requires Readable(s)
  {
    var text := s.entry.text;
    RUNNER_LIST in Texts(text, if s.suffix == ".list" then ListSpans(text) else SourcesSpans(text))
  }

  predicate AllReadable(sources: seq<Source>) {
    sources == [] || (Readable(sources[0]) && AllReadable(sources[1..]))
  }

  /** One change for each file whose rewriting differs from it, in order. */
  function ChangesTo(sources: seq<Source>): seq<Change>
    requires AllReadable(sources)
  {
    if sources == [] then []
    else
      (if Updated(sources[0]) == sources[0].entry.text then [] else [Change(sources[0].path, Updated(sources[0]))])
      + ChangesTo(sources[1..])
  }

  predicate AnyNamesRunner(sources: seq<Source>)
    requires AllReadable(sources)
  {
    sources != [] && (NamesRunner(sources[0]) || AnyNamesRunner(sources[1..]))
  }

  function MirrorChanges(mirrors: Entry): seq<Change>
    requires mirrors.File?
  {
    if MirrorText(mirrors.text) == mirrors.text then [] else [Change(Mirrors, MirrorText(mirrors.text))]
  }

  /** The plan succeeds when the directories are ordinary and every file that is read can be read. */
  predicate Plannable(apt: Apt) {
    apt.rootIsDirectory && apt.partsAreDirectory && AllReadable(Sources(apt))
    && (AnyNamesRunner(Sources(apt)) ==> apt.mirrors.File?)
  }

  function PlannedChanges(apt: Apt): seq<Change>
    requires Plannable(apt)
  {
    ChangesTo(Sources(apt)) + if AnyNamesRunner(Sources(apt)) then MirrorChanges(apt.mirrors) else []
  }

  /** Writing a plan's changes: each changed file gets its new text. */
  function Write(changes: seq<Change>, path: Path, entry: Entry): Entry {
    if changes == [] then entry
    else if changes[0].path == path then File(changes[0].text)
    else Write(changes[1..], path, entry)
  }

  function WriteAll(changes: seq<Change>, sources: seq<Source>): seq<Source> {
    if sources == [] then []
    else [sources[0].(entry := Write(changes, sources[0].path, sources[0].entry))] + WriteAll(changes, sources[1..])
  }

  function Written(apt: Apt, changes: seq<Change>): Apt {
    apt.(main := if apt.main == Missing then Missing else Write(changes, Main, apt.main),
         parts := WriteAll(changes, apt.parts),
         mirrors := Write(changes, Mirrors, apt.mirrors))
  }

  /** One file: its spans, its rewriting and whether it refers to the runner's list. */
  method PlanFile(s: Source) returns (r: Result<(string, bool)>)
    ensures r.Ok? <==> Readable(s)
    ensures r.Ok? ==> r.value == (Updated(s), NamesRunner(s))
  {
    if !s.entry.File? {
      return Err("Not an ordinary file");
    }
    var text := s.entry.text;
    var spans := UriSpans(text, s.suffix);
    if spans.Err? {
      return Err(spans.message);
    }
    if s.suffix == ".list" {
      ListScanner();
      SpansInText(OneLine(ListUri), false, text);
    } else {
      SourcesScanner();
      SpansInText(Deb822(Disabled), true, text);
    }
    var updated := ReplaceUris(text, spans.value, Normalize);
    return Ok((updated, RUNNER_LIST in Texts(text, spans.value)));
  }

  /** The loop over the sources: the changes so far, and whether one of them refers to the runner's list. */
  predicate Seen(sources: seq<Source>, i: nat, changes: seq<Change>, runner: bool) {
    && i <= |sources|
    && (AllReadable(sources) <==> AllReadable(sources[i..]))
    && (AllReadable(sources) ==>
          && ChangesTo(sources) == changes + ChangesTo(sources[i..])
          && (AnyNamesRunner(sources) <==> runner || AnyNamesRunner(sources[i..])))
  }

  method PlanNext(sources: seq<Source>, i: nat, changes: seq<Change>, runner: bool)
    returns (r: Result<(seq<Change>, bool)>)
    requires i < |sources| && Seen(sources, i, changes, runner)
    ensures r.Ok? ==> Seen(sources, i + 1, r.value.0, r.value.1)
    ensures r.Err? ==> !AllReadable(sources)
  {
    Seqs.Tail(sources, i);
    var file := PlanFile(sources[i]);
    if file.Err? {
      return Err(file.message);
    }
    var change := if file.value.0 == sources[i].entry.text then [] else [Change(sources[i].path, file.value.0)];
    if AllReadable(sources) {
      Seqs.Assoc(changes, change, ChangesTo(sources[i + 1..]));
    }
    return Ok((changes + change, runner || file.value.1));
  }

  /** The changes to the sources, and whether one of them refers to the runner's list. */
  method PlanAll(sources: seq<Source>) returns (r: Result<(seq<Change>, bool)>)
    ensures r.Ok? <==> AllReadable(sources)
    ensures r.Ok? ==> r.value == (ChangesTo(sources), AnyNamesRunner(sources))
  {
    var changes: seq<Change>, runner, i := [], false, 0;
    assert sources[0..] == sources;
    if AllReadable(sources) {
      Seqs.Empty(ChangesTo(sources));
    }
    while i < |sources|
      invariant Seen(sources, i, changes, runner)
    {
      var next := PlanNext(sources, i, changes, runner);
      if next.Err? {
        return Err(next.message);
      }
      changes, runner, i := next.value.0, next.value.1, i + 1;
    }
    assert sources[i..] == [];
    Seqs.Empty(changes);
    return Ok((changes, runner));
  }

  method PlanMirrors(text: string) returns (changes: seq<Change>)
    ensures changes == MirrorChanges(File(text))
  {
    MirrorScanner();
    SpansInText(OneLine(MirrorUri), false, text);
    var updated := ReplaceUris(text, MirrorSpans(text), Normalize);
    changes := if updated != text then [Change(Mirrors, updated)] else [];
  }

  /** `plan`: every file is read before anything is written, and the mirror list only when a source refers to it. */
  method Plan(apt: Apt) returns (r: Result<seq<Change>>)
    ensures r.Ok? <==> Plannable(apt)
    ensures r.Ok? ==> r.value == PlannedChanges(apt)
  {
    if !apt.rootIsDirectory || !apt.partsAreDirectory {
      return Err("Not an ordinary directory");
    }
    var sources := apt.parts;
    if apt.main == Missing {
      Seqs.Empty(sources);
    } else {
      sources := [Source(Main, ".list", apt.main)] + sources;
    }
    var planned := PlanAll(sources);
    if planned.Err? {
      return Err(planned.message);
    }
    var (changes, runner) := planned.value;
    if runner {
      if !apt.mirrors.File? {
        return Err("Not an ordinary file");
      }
      var more := PlanMirrors(apt.mirrors.text);
      changes := changes + more;
    } else {
      Seqs.Empty(changes);
    }
    return Ok(changes);
  }

  // ----- writing a plan, and planning again after any part of it -----

  /** The sources after the first `k` of their changes are written. */
  function Partly(sources: seq<Source>, k: nat): seq<Source>
    requires AllReadable(sources)
  {
    if sources == [] then []
    else if Updated(sources[0]) == sources[0].entry.text then [sources[0]] + Partly(sources[1..], k)
    else if k == 0 then sources
    else [sources[0].(entry := File(Updated(sources[0])))] + Partly(sources[1..], k - 1)
  }

  lemma DoneSettles(s: Source)
    requires Readable(s)
    ensures var s' := s.(entry := File(Updated(s)));
      Readable(s') && Updated(s') == Updated(s) && (NamesRunner(s') <==> NamesRunner(s))
  {
    var text := s.entry.text;
    RewriteIsIdempotent(text);
    if s.suffix == ".list" {
      ListScanner();
      RewriteKeepsTokens(OneLine(ListUri), false, Normalize, text);
      EditAllKeepsRunner(Texts(text, ListSpans(text)));
    } else {
      SourcesScanner();
      RewriteKeepsTokens(Deb822(Disabled), true, Normalize, text);
      EditAllKeepsRunner(Texts(text, SourcesSpans(text)));
    }
  }

  lemma ChangesKept(sources: seq<Source>)
    requires sources != [] && AllReadable(sources) && Updated(sources[0]) == sources[0].entry.text
    ensures Seqs.Same(ChangesTo(sources), ChangesTo(sources[1..]))
  {
    Seqs.Empty(ChangesTo(sources[1..]));
  }

  lemma ChangesFirst(sources: seq<Source>)
    requires sources != [] && AllReadable(sources) && Updated(sources[0]) != sources[0].entry.text
    ensures Seqs.Same(ChangesTo(sources), [Change(sources[0].path, Updated(sources[0]))] + ChangesTo(sources[1..]))
  {
  }

  lemma ChangesDrop(first: Change, later: seq<Change>, k: nat)
    requires 0 < k <= |later| + 1
    ensures Seqs.Same(([first] + later)[k..], later[k - 1..])
    ensures Seqs.Same(([first] + later)[..k], [first] + later[..k - 1])
  {
    assert ([first] + later)[k..] == later[k - 1..];
    assert ([first] + later)[..k] == [first] + later[..k - 1];
  }

  lemma ChangesStay(source: Source, rest: seq<Source>)
    requires Readable(source) && AllReadable(rest) && Updated(source) == source.entry.text
    ensures AllReadable([source] + rest) && Seqs.Same(ChangesTo([source] + rest), ChangesTo(rest))
    ensures AnyNamesRunner([source] + rest) <==> NamesRunner(source) || AnyNamesRunner(rest)
  {
    Seqs.Cons(source, rest, []);
    Seqs.Empty(ChangesTo(rest));
  }

  /** Planning after the first `k` changes finds the other ones, and the runner's list as before. */
  ghost predicate Resumes(sources: seq<Source>, k: nat)
    requires AllReadable(sources) && k <= |ChangesTo(sources)|
  {
    && AllReadable(Partly(sources, k))
    && Seqs.Same(ChangesTo(Partly(sources, k)), ChangesTo(sources)[k..])
    && (AnyNamesRunner(Partly(sources, k)) <==> AnyNamesRunner(sources))
  }

  lemma ResumesKept(sources: seq<Source>, k: nat)
    requires sources != [] && AllReadable(sources) && Updated(sources[0]) == sources[0].entry.text
    requires k <= |ChangesTo(sources[1..])| && Resumes(sources[1..], k)
    ensures k <= |ChangesTo(sources)| && Resumes(sources, k)
  {
    ChangesKept(sources);
    ChangesStay(sources[0], Partly(sources[1..], k));
  }

  lemma ResumesFirst(sources: seq<Source>, k: nat)
    requires sources != [] && AllReadable(sources) && Updated(sources[0]) != sources[0].entry.text
    requires 0 < k <= |ChangesTo(sources[1..])| + 1 && Resumes(sources[1..], k - 1)
    ensures k <= |ChangesTo(sources)| && Resumes(sources, k)
  {
    ChangesFirst(sources);
    DoneSettles(sources[0]);
    ChangesStay(sources[0].(entry := File(Updated(sources[0]))), Partly(sources[1..], k - 1));
    ChangesDrop(Change(sources[0].path, Updated(sources[0])), ChangesTo(sources[1..]), k);
  }

  lemma ResumesAtOnce(sources: seq<Source>)
    requires AllReadable(sources) && (sources == [] || Updated(sources[0]) != sources[0].entry.text)
    ensures Resumes(sources, 0)
  {
    Seqs.Whole(ChangesTo(sources));
  }

  lemma {:induction false} PartlyPlans(sources: seq<Source>, k: nat)
    requires AllReadable(sources) && k <= |ChangesTo(sources)|
    ensures Resumes(sources, k)
  {
    if sources == [] {
      ResumesAtOnce(sources);
    } else if Updated(sources[0]) == sources[0].entry.text {
      ChangesKept(sources);
      PartlyPlans(sources[1..], k);
      ResumesKept(sources, k);
    } else if k == 0 {
      ResumesAtOnce(sources);
    } else {
      ChangesFirst(sources);
      PartlyPlans(sources[1..], k - 1);
      ResumesFirst(sources, k);
    }
  }

  predicate Changes(changes: seq<Change>, path: Path) {
    changes != [] && (changes[0].path == path || Changes(changes[1..], path))
  }

  lemma ChangesCons(first: Change, rest: seq<Change>, path: Path)
    requires first.path != path && !Changes(rest, path)
    ensures !Changes([first] + rest, path)
  {
    Seqs.Cons(first, rest, []);
  }

  predicate Elsewhere(sources: seq<Source>, path: Path) {
    forall i :: 0 <= i < |sources| ==> sources[i].path != path
  }

  lemma ElsewhereTail(sources: seq<Source>, path: Path)
    requires sources != [] && Elsewhere(sources, path)
    ensures sources[0].path != path && Elsewhere(sources[1..], path)
  {
    assert forall i :: 0 <= i < |sources[1..]| ==> sources[1..][i] == sources[i + 1];
  }

  lemma DistinctTail(sources: seq<Source>)
    requires sources != [] && Distinct(sources)
    ensures Distinct(sources[1..]) && Elsewhere(sources[1..], sources[0].path)
  {
    assert forall i :: 0 <= i < |sources[1..]| ==> sources[1..][i] == sources[i + 1];
  }

  lemma {:induction false} ChangesToOthers(sources: seq<Source>, path: Path)
    requires AllReadable(sources) && Elsewhere(sources, path)
    ensures !Changes(ChangesTo(sources), path)
  {
    if sources != [] {
      ElsewhereTail(sources, path);
      ChangesToOthers(sources[1..], path);
      if Updated(sources[0]) == sources[0].entry.text {
        ChangesKept(sources);
      } else {
        ChangesFirst(sources);
        ChangesCons(Change(sources[0].path, Updated(sources[0])), ChangesTo(sources[1..]), path);
      }
    }
  }

  lemma {:induction false} ChangesPrefix(changes: seq<Change>, k: nat, path: Path)
    requires k <= |changes| && !Changes(changes, path)
    ensures !Changes(changes[..k], path)
  {
    if k > 0 {
      ChangesPrefix(changes[1..], k - 1, path);
      assert changes[..k][0] == changes[0] && changes[..k][1..] == changes[1..][..k - 1];
    }
  }

  lemma {:induction false} WriteOthers(changes: seq<Change>, more: seq<Change>, path: Path, entry: Entry)
    requires !Changes(changes, path)
    ensures Write(changes + more, path, entry) == Write(more, path, entry)
  {
    if changes == [] {
      Seqs.Empty(more);
    } else {
      Seqs.AppendTail(changes, more);
      WriteOthers(changes[1..], more, path, entry);
    }
  }

  lemma WriteNothing(changes: seq<Change>, path: Path, entry: Entry)
    requires !Changes(changes, path)
    ensures Write(changes, path, entry) == entry
  {
    WriteOthers(changes, [], path, entry);
    Seqs.Empty(changes);
  }

  lemma {:induction false} WriteAllNothing(sources: seq<Source>)
    ensures WriteAll([], sources) == sources
  {
    if sources != [] {
      WriteAllNothing(sources[1..]);
      Seqs.Cons(sources[0], sources[1..], []);
    }
  }

  /** Changes to other files do not matter. */
  lemma {:induction false} WriteAllOthers(first: seq<Change>, changes: seq<Change>, sources: seq<Source>)
    requires forall i :: 0 <= i < |sources| ==> !Changes(first, sources[i].path)
    ensures WriteAll(first + changes, sources) == WriteAll(changes, sources)
  {
    if sources != [] {
      assert forall i :: 0 <= i < |sources[1..]| ==> sources[1..][i] == sources[i + 1];
      WriteOthers(first, changes, sources[0].path, sources[0].entry);
      WriteAllOthers(first, changes, sources[1..]);
    }
  }

  lemma WriteHead(sources: seq<Source>, changes: seq<Change>)
    requires sources != []
    ensures Seqs.Same(WriteAll(changes, sources),
                      [sources[0].(entry := Write(changes, sources[0].path, sources[0].entry))]
                      + WriteAll(changes, sources[1..]))
  {
  }

  lemma WritesKept(sources: seq<Source>, k: nat)
    requires sources != [] && AllReadable(sources) && Distinct(sources) && Updated(sources[0]) == sources[0].entry.text
    requires k <= |ChangesTo(sources[1..])|
    requires Seqs.Same(WriteAll(ChangesTo(sources[1..])[..k], sources[1..]), Partly(sources[1..], k))
    ensures Seqs.Same(WriteAll(ChangesTo(sources)[..k], sources), Partly(sources, k))
  {
    ChangesKept(sources);
    WriteHead(sources, ChangesTo(sources)[..k]);
    DistinctTail(sources);
    ChangesToOthers(sources[1..], sources[0].path);
    ChangesPrefix(ChangesTo(sources[1..]), k, sources[0].path);
    WriteNothing(ChangesTo(sources[1..])[..k], sources[0].path, sources[0].entry);
  }

  lemma WritesAfter(sources: seq<Source>, first: Change, rest: seq<Change>)
    requires sources != [] && Distinct(sources) && first.path == sources[0].path
    ensures Write([first] + rest, sources[0].path, sources[0].entry) == File(first.text)
    ensures Seqs.Same(WriteAll([first] + rest, sources[1..]), WriteAll(rest, sources[1..]))
  {
    Seqs.Cons(first, rest, []);
    Seqs.Cons(first, [], []);
    assert forall i :: 0 <= i < |sources[1..]| ==> sources[1..][i] == sources[i + 1];
    WriteAllOthers([first], rest, sources[1..]);
  }

  lemma WritesFirst(sources: seq<Source>, k: nat)
    requires sources != [] && AllReadable(sources) && Distinct(sources) && Updated(sources[0]) != sources[0].entry.text
    requires 0 < k <= |ChangesTo(sources[1..])| + 1
    requires Seqs.Same(WriteAll(ChangesTo(sources[1..])[..k - 1], sources[1..]), Partly(sources[1..], k - 1))
    ensures Seqs.Same(WriteAll(ChangesTo(sources)[..k], sources), Partly(sources, k))
  {
    var first, later := Change(sources[0].path, Updated(sources[0])), ChangesTo(sources[1..]);
    ChangesFirst(sources);
    ChangesDrop(first, later, k);
    WriteHead(sources, [first] + later[..k - 1]);
    WritesAfter(sources, first, later[..k - 1]);
  }

  lemma WritesNone(sources: seq<Source>)
    requires sources != [] && AllReadable(sources) && Updated(sources[0]) != sources[0].entry.text
    ensures Seqs.Same(WriteAll(ChangesTo(sources)[..0], sources), Partly(sources, 0))
  {
    WriteAllNothing(sources);
    assert ChangesTo(sources)[..0] == [];
  }

  lemma {:induction false} WritesPartly(sources: seq<Source>, k: nat)
    requires AllReadable(sources) && Distinct(sources) && k <= |ChangesTo(sources)|
    ensures Seqs.Same(WriteAll(ChangesTo(sources)[..k], sources), Partly(sources, k))
  {
    if sources != [] {
      if Updated(sources[0]) == sources[0].entry.text {
        ChangesKept(sources);
        WritesPartly(sources[1..], k);
        WritesKept(sources, k);
      } else if k == 0 {
        WritesNone(sources);
      } else {
        ChangesFirst(sources);
        WritesPartly(sources[1..], k - 1);
        WritesFirst(sources, k);
      }
    }
  }

  lemma {:induction false} WriteExtra(changes: seq<Change>, more: seq<Change>, path: Path, entry: Entry)
    requires !Changes(more, path)
    ensures Write(changes + more, path, entry) == Write(changes, path, entry)
  {
    if changes == [] {
      Seqs.Empty(more);
      WriteNothing(more, path, entry);
    } else {
      Seqs.AppendTail(changes, more);
      WriteExtra(changes[1..], more, path, entry);
    }
  }

  lemma {:induction false} WriteAllExtra(changes: seq<Change>, more: seq<Change>, sources: seq<Source>)
    requires forall i :: 0 <= i < |sources| ==> !Changes(more, sources[i].path)
    ensures WriteAll(changes + more, sources) == WriteAll(changes, sources)
  {
    if sources != [] {
      assert forall i :: 0 <= i < |sources[1..]| ==> sources[1..][i] == sources[i + 1];
      WriteExtra(changes, more, sources[0].path, sources[0].entry);
      WriteAllExtra(changes, more, sources[1..]);
    }
  }

  lemma {:induction false} WriteAllPaths(changes: seq<Change>, sources: seq<Source>)
    ensures |WriteAll(changes, sources)| == |sources|
    ensures forall i :: 0 <= i < |sources| ==> WriteAll(changes, sources)[i].path == sources[i].path
    ensures Distinct(sources) ==> Distinct(WriteAll(changes, sources))
  {
    if sources != [] {
      WriteAllPaths(changes, sources[1..]);
      var first := sources[0].(entry := Write(changes, sources[0].path, sources[0].entry));
      Seqs.Cons(first, WriteAll(changes, sources[1..]), []);
    }
  }

  lemma {:induction false} StillThere(changes: seq<Change>, path: Path, entry: Entry)
    requires entry != Missing
    ensures Write(changes, path, entry) != Missing
  {
    if changes != [] {
      StillThere(changes[1..], path, entry);
    }
  }

  lemma SourcesWritten(apt: Apt, changes: seq<Change>)
    ensures Sources(Written(apt, changes)) == WriteAll(changes, Sources(apt))
  {
    if apt.main != Missing {
      Seqs.Cons(Source(Main, ".list", apt.main), apt.parts, []);
      StillThere(changes, Main, apt.main);
    } else {
      Seqs.Empty(apt.parts);
      Seqs.Empty(WriteAll(changes, apt.parts));
    }
  }

  lemma SourcesDistinct(apt: Apt)
    requires WellFormed(apt)
    ensures Distinct(Sources(apt)) && Elsewhere(Sources(apt), Mirrors)
  {
    if apt.main != Missing {
      Seqs.Cons(Source(Main, ".list", apt.main), apt.parts, []);
    } else {
      Seqs.Empty(apt.parts);
    }
  }

  lemma WrittenWellFormed(apt: Apt, changes: seq<Change>)
    requires WellFormed(apt)
    ensures WellFormed(Written(apt, changes))
  {
    WriteAllPaths(changes, apt.parts);
  }

  /** Part of the changes to the sources: the mirror list is as it was. */
  lemma SourcesPartWritten(apt: Apt, k: nat)
    requires WellFormed(apt) && Plannable(apt) && k <= |ChangesTo(Sources(apt))|
    ensures var apt' := Written(apt, ChangesTo(Sources(apt))[..k]);
            && Sources(apt') == Partly(Sources(apt), k) && apt'.mirrors == apt.mirrors
            && Plannable(apt')
            && ChangesTo(Sources(apt')) == ChangesTo(Sources(apt))[k..]
            && (AnyNamesRunner(Sources(apt')) <==> AnyNamesRunner(Sources(apt)))
  {
    var sources := Sources(apt);
    SourcesDistinct(apt);
    SourcesWritten(apt, ChangesTo(sources)[..k]);
    WritesPartly(sources, k);
    PartlyPlans(sources, k);
    ChangesToOthers(sources, Mirrors);
    ChangesPrefix(ChangesTo(sources), k, Mirrors);
    WriteNothing(ChangesTo(sources)[..k], Mirrors, apt.mirrors);
  }

  /** All changes, that of the mirror list included. */
  lemma MirrorsWritten(apt: Apt)
    requires WellFormed(apt) && Plannable(apt) && AnyNamesRunner(Sources(apt))
    ensures var apt' := Written(apt, ChangesTo(Sources(apt)) + MirrorChanges(apt.mirrors));
            Plannable(apt') && PlannedChanges(apt') == []
  {
    var sources, more := Sources(apt), MirrorChanges(apt.mirrors);
    var changes := ChangesTo(sources);
    var n := |changes|;
    assert changes[..n] == changes && changes[n..] == [];
    SourcesDistinct(apt);
    SourcesWritten(apt, changes + more);
    assert more == [] || more[1..] == [];
    WriteAllExtra(changes, more, sources);
    WritesPartly(sources, n);
    PartlyPlans(sources, n);
    ChangesToOthers(sources, Mirrors);
    WriteOthers(changes, more, Mirrors, apt.mirrors);
    RewriteIsIdempotent(apt.mirrors.text);
    assert Write(more, Mirrors, apt.mirrors) == File(MirrorText(apt.mirrors.text));
  }

  /**
   * The files are written one by one. However far that came, the next plan succeeds and is exactly the rest of the
   * changes, the runner's mirror list included; so after all of them there is nothing left to plan.
   */
  lemma PlanSettles(apt: Apt, k: nat)
    requires WellFormed(apt) && Plannable(apt) && k <= |PlannedChanges(apt)|
    ensures var apt' := Written(apt, PlannedChanges(apt)[..k]);
            WellFormed(apt') && Plannable(apt') && PlannedChanges(apt') == PlannedChanges(apt)[k..]
  {
    var changes, planned := ChangesTo(Sources(apt)), PlannedChanges(apt);
    WrittenWellFormed(apt, planned[..k]);
    if k <= |changes| {
      assert planned[..k] == changes[..k];
      SourcesPartWritten(apt, k);
    } else {
      assert planned[..k] == planned && planned[k..] == [];
      MirrorsWritten(apt);
    }
  }
}
