/** The release page and the identity comment at its end (scripts/release-notes.py). */
module ReleasePage {
  import opened Text
  import opened KeyOrder
  import opened Json
  import opened JsonText
  import opened JsonParse
  import opened WordSearch
  import opened ChangelogReflow
  import opened PageFormat
  import Seqs

  const MAX_BODY_BYTES := 100000
  const MAX_MANIFEST_BYTES := 65536

  // ----- the identity record -----

  datatype Archive = Archive(archive: string, archiveSha256: string, target: string)

  datatype Identity = Identity(archives: seq<Archive>, commit: string, tag: string)

  function ArchiveJson(a: Archive): Json {
    Obj(Member("archive", Str(a.archive),
        Member("archiveSha256", Str(a.archiveSha256),
        Member("target", Str(a.target), NoMembers))))
  }

  function ArchiveItems(archives: seq<Archive>): Items {
    if archives == [] then NoItems else Item(ArchiveJson(archives[0]), ArchiveItems(archives[1..]))
  }

  function IdentityMembers(id: Identity): Members {
    Member("archives", Arr(ArchiveItems(id.archives)),
    Member("commit", Str(id.commit),
    Member("contract", Str(CONTRACT),
    Member("tag", Str(id.tag), NoMembers))))
  }

  function IdentityJson(id: Identity): Json {
    Obj(IdentityMembers(id))
  }

  /** A value with its floats as `repr` writes them. */
  function Spelled(repr: string -> string, v: Json): Json {
    match v
    case Float(literal) => Float(repr(literal))
    case Arr(items) => Arr(SpelledItems(repr, items))
    case Obj(members) => Obj(SpelledMembers(repr, members))
    case _ => v
  }

  function SpelledItems(repr: string -> string, items: Items): Items {
    match items
    case NoItems => NoItems
    case Item(v, rest) => Item(Spelled(repr, v), SpelledItems(repr, rest))
  }

  function SpelledMembers(repr: string -> string, ms: Members): Members {
    match ms
    case NoMembers => NoMembers
    case Member(k, v, rest) => Member(k, Spelled(repr, v), SpelledMembers(repr, rest))
  }

  /** `json.dumps(v, sort_keys=True, separators=(",", ":"))` */
  function Dumps(repr: string -> string, v: Json): string {
    Print(Ascii, Sorted(CodePoints, Spelled(repr, v)))
  }

  lemma {:induction false} SpelledFloatFree(repr: string -> string, v: Json)
    requires FloatFree(v)
    ensures Spelled(repr, v) == v
  {
    match v
    case Arr(items) => SpelledItemsFloatFree(repr, items);
    case Obj(members) => SpelledMembersFloatFree(repr, members);
    case _ =>
  }

  lemma {:induction false} SpelledItemsFloatFree(repr: string -> string, items: Items)
    requires FloatFreeItems(items)
    ensures SpelledItems(repr, items) == items
  {
    if items.Item? {
      SpelledFloatFree(repr, items.first);
      SpelledItemsFloatFree(repr, items.rest);
    }
  }

  lemma {:induction false} SpelledMembersFloatFree(repr: string -> string, ms: Members)
    requires FloatFreeMembers(ms)
    ensures SpelledMembers(repr, ms) == ms
  {
    if ms.Member? {
      SpelledFloatFree(repr, ms.value);
      SpelledMembersFloatFree(repr, ms.rest);
    }
  }

  predicate HasKey(ms: Members, key: string) {
    Lookup(ms, key).Some?
  }

  predicate ArchiveShape(v: Json) {
    && v.Obj?
    && Size(v.members) == 3
    && HasKey(v.members, "archive") && HasKey(v.members, "archiveSha256") && HasKey(v.members, "target")
  }

  predicate ArchivesShape(items: Items) {
    items.NoItems? || (ArchiveShape(items.first) && ArchivesShape(items.rest))
  }

  predicate IsArchives(v: Option<Json>) {
    v.Some? && v.value.Arr? && ArchivesShape(v.value.items)
  }

  predicate IsCommit(v: Option<Json>) {
    v.Some? && v.value.Str? && Hex(v.value.s, 40)
  }

  predicate IsTag(v: Option<Json>) {
    v.Some? && v.value.Str? && ValidTag(v.value.s)
  }

  /** The checks on the fields of a parsed identity. */
  predicate MembersShape(ms: Members) {
    && Size(ms) == 4
    && IsArchives(Lookup(ms, "archives"))
    && IsCommit(Lookup(ms, "commit"))
    && Lookup(ms, "contract") == Some(Str(CONTRACT))
    && IsTag(Lookup(ms, "tag"))
  }

  // ----- finding text -----

  predicate MatchAt(s: string, pattern: string, i: nat) {
    i + |pattern| <= |s| && s[i..i + |pattern|] == pattern
  }

  /** `s.rfind(pattern)` among the first `n` starts. */
  function RFind(s: string, pattern: string, n: nat): (r: Option<nat>)
    ensures r.Some? ==> r.value < n && MatchAt(s, pattern, r.value)
    ensures r.Some? ==> forall i :: r.value < i < n ==> !MatchAt(s, pattern, i)
    ensures r.None? ==> forall i :: 0 <= i < n ==> !MatchAt(s, pattern, i)
  {
    if n == 0 then None
    else if MatchAt(s, pattern, n - 1) then Some(n - 1)
    else RFind(s, pattern, n - 1)
  }

  predicate EndsWith(s: string, suffix: string) {
    |suffix| <= |s| && s[|s| - |suffix|..] == suffix
  }

  /** Python's `s[from:-to]` */
  function Inner(s: string, from: nat, to: nat): string {
    if from + to <= |s| then s[from..|s| - to] else ""
  }

  // ----- rendering -----

  /** The texts that only depend on the identity, the class of word characters, and the text of a float. */
  datatype Page = Page(word: WordClass, install: Identity -> string, verify: Identity -> string,
                       repr: string -> string)

  function RenderNotes(page: Page, changelog: string, id: Identity): Result<string> {
    match SectionOf(page.word, changelog, id.tag)
    case Err(message) => Err(message)
    case Ok(section) =>
      Ok(Join("\n\n", section.paragraphs) + "\n\n## Changes\n\n" + Join("\n", section.bullets)
         + "\n\n" + page.install(id) + "\n\n" + page.verify(id) + "\n")
  }

  /** A text and then the lines of another, after an empty line. */
  lemma SplitAfterGap(a: string, b: string)
    ensures Split(a + "\n\n" + b) == Split(a) + ([""] + Split(b))
  {
    assert a + "\n\n" + b == a + "\n" + ("" + "\n" + b);
    SplitAppend(a, "" + "\n" + b);
    SplitAppend("", b);
    SplitLine("");
  }

  lemma NotesParts(summary: string, changes: string, install: string, verify: string)
    ensures var last := install + "\n\n" + (verify + "\n" + "");
            summary + "\n\n## Changes\n\n" + changes + "\n\n" + install + "\n\n" + verify + "\n"
            == (summary + "\n" + "") + "\n" + ("## Changes" + "\n\n" + (changes + "\n\n" + last))
  {
    var end := verify + "\n" + "";
    var last := install + "\n\n" + end;
    var later := changes + "\n\n" + last;
    assert "\n\n## Changes\n\n" == "\n" + ("" + "\n" + ("## Changes" + "\n\n"));
    assert verify + "\n" == end;
    assert summary + "\n\n## Changes\n\n" + changes + "\n\n" + install + "\n\n" + (verify + "\n")
        == summary + "\n\n## Changes\n\n" + later;
  }

  lemma LastLines(install: string, verify: string)
    ensures Split(install + "\n\n" + (verify + "\n" + "")) == Split(install) + ([""] + (Split(verify) + [""]))
  {
    SplitAfterGap(install, verify + "\n" + "");
    SplitAppend(verify, "");
    SplitLine("");
  }

  lemma SplitAfterGaps(a: string, b: string, c: string)
    ensures Seqs.Same(Split(a + "\n\n" + (b + "\n\n" + c)), Split(a) + ([""] + (Split(b) + ([""] + Split(c)))))
  {
    SplitAfterGap(b, c);
    SplitAfterGap(a, b + "\n\n" + c);
  }

  lemma ChangesLines(bullets: seq<string>, last: string)
    requires bullets != [] && NoFeeds(bullets)
    ensures Seqs.Same(Split("## Changes" + "\n\n" + (Join("\n", bullets) + "\n\n" + last)),
                      ["## Changes"] + ([""] + (bullets + ([""] + Split(last)))))
  {
    SplitLines(bullets);
    SplitLine("## Changes");
    SplitAfterGaps("## Changes", Join("\n", bullets), last);
  }

  /**
   * The notes, read line by line: the paragraphs with an empty line after each, the heading of the changes, the
   * bullets, and after an empty line each the texts on installing and verifying. The summary's runs of lines are the
   * paragraphs.
   */
  lemma NotesLines(page: Page, changelog: string, id: Identity)
    requires RenderNotes(page, changelog, id).Ok?
    ensures SectionOf(page.word, changelog, id.tag).Ok?
    ensures var s := SectionOf(page.word, changelog, id.tag).value;
            && Split(RenderNotes(page, changelog, id).value)
               == Spread(s.paragraphs)
                + (["## Changes"] + ([""] + (s.bullets
                + ([""] + (Split(page.install(id)) + ([""] + (Split(page.verify(id)) + [""])))))))
            && Texts(Runs(Spread(s.paragraphs), [])) == s.paragraphs
  {
    var s := SectionOf(page.word, changelog, id.tag).value;
    SectionLines(page.word, changelog, id.tag);
    RunsOfSpread(s.paragraphs);
    var last := page.install(id) + "\n\n" + (page.verify(id) + "\n" + "");
    var later := "## Changes" + "\n\n" + (Join("\n", s.bullets) + "\n\n" + last);
    NotesParts(Join("\n\n", s.paragraphs), Join("\n", s.bullets), page.install(id), page.verify(id));
    LastLines(page.install(id), page.verify(id));
    ChangesLines(s.bullets, last);
    SplitParagraphs(s.paragraphs);
    SplitAppend(Join("\n\n", s.paragraphs) + "\n" + "", later);
  }

  function RenderIdentity(id: Identity): string {
    MARKER + (Print(Ascii, Sorted(CodePoints, IdentityJson(id))) + END)
  }

  function RenderBody(page: Page, changelog: string, id: Identity): Result<string> {
    match RenderNotes(page, changelog, id)
    case Err(message) => Err(message)
    case Ok(notes) =>
      var body := (notes + "\n") + RenderIdentity(id);
      if ByteLength(body) > MAX_BODY_BYTES then Err("rendered release body exceeds the size limit") else Ok(body)
  }

  // ----- parsing -----

  datatype Parts = Parts(notes: string, identity: Json)

  /** The body cut at the last marker. */
  function ParseComment(repr: string -> string, front: string, comment: string): Result<Parts> {
    var payload := Inner(comment, |MARKER|, |END|);
    if !EndsWith(comment, END) || Contains(payload, CLOSE) then Err("identity comment is malformed")
    else
      match Loads(LastWins, payload)
      case None => Err("identity comment is not JSON")
      case Some(v) =>
        if !v.Obj? || !MembersShape(v.members) then Err("identity comment fields rejected")
        else if Dumps(repr, v) != payload then Err("identity comment is not canonical JSON")
        else if |front| < 2 || front[|front| - 1] != '\n' || front[|front| - 2] != '\n' then
          Err("identity comment must follow the notes after one blank line")
        else Ok(Parts(front[..|front| - 1], v))
  }

  function ParseIdentity(repr: string -> string, body: string): Result<Parts> {
    if ByteLength(body) > MAX_BODY_BYTES then Err("release body exceeds the size limit")
    else if !EndsWith(body, CLOSE) then Err("release body does not end with the identity comment")
    else
      match RFind(body, MARKER, |body| + 1)
      case None => Err("release body has no identity comment")
      case Some(start) => ParseComment(repr, body[..start], body[start..])
  }

  function VerifyBody(page: Page, body: string, changelog: string, id: Identity): Result<Json> {
    match ParseIdentity(page.repr, body)
    case Err(message) => Err(message)
    case Ok(parts) =>
      if !Same(parts.identity, IdentityJson(id)) then Err("release identity does not match the qualified packages")
      else
        match RenderNotes(page, changelog, id)
        case Err(message) => Err(message)
        case Ok(notes) =>
          if parts.notes != notes then Err("release notes differ from the rendered CHANGELOG.md section")
          else Ok(parts.identity)
  }

  // ----- text without angle brackets -----

  predicate NoAngle(s: string) {
    forall i :: 0 <= i < |s| ==> s[i] != '<' && s[i] != '>'
  }

  predicate Clean(v: Json) {
    match v
    case Float(_) => false
    case Str(s) => NoAngle(s)
    case Arr(items) => CleanItems(items)
    case Obj(members) => CleanMembers(members)
    case _ => true
  }

  predicate CleanItems(items: Items) {
    match items
    case NoItems => true
    case Item(v, rest) => Clean(v) && CleanItems(rest)
  }

  predicate CleanMembers(ms: Members) {
    match ms
    case NoMembers => true
    case Member(k, v, rest) => NoAngle(k) && Clean(v) && CleanMembers(rest)
  }

  lemma NoAngleAppend(a: string, b: string)
    requires NoAngle(a) && NoAngle(b)
    ensures NoAngle(a + b)
  {
  }

  lemma UnicodeNoAngle(n: nat)
    requires n < 0x10000
    ensures NoAngle(UnicodeEscape(n))
  {
  }

  lemma EscapeNoAngle(c: char)
    requires c != '<' && c != '>'
    ensures NoAngle(Escape(Ascii, c))
  {
    var n := c as int;
    if ShortEscape(c).None? && !Plain(Ascii, c) {
      if n < 0x10000 {
        UnicodeNoAngle(n);
      } else {
        UnicodeNoAngle(HighOf(n));
        UnicodeNoAngle(LowOf(n));
        NoAngleAppend(UnicodeEscape(HighOf(n)), UnicodeEscape(LowOf(n)));
      }
    }
  }

  lemma {:induction false} EscapedNoAngle(s: string)
    requires NoAngle(s)
    ensures NoAngle(Escaped(Ascii, s)) && NoAngle(Quote(Ascii, s))
  {
    if s != "" {
      EscapeNoAngle(s[0]);
      EscapedNoAngle(s[1..]);
      NoAngleAppend(Escape(Ascii, s[0]), Escaped(Ascii, s[1..]));
    }
    NoAngleAppend(['"'] + Escaped(Ascii, s), ['"']);
  }

  lemma {:induction false} DigitsNoAngle(n: nat)
    ensures NoAngle(Digits(n))
  {
    if n >= 10 {
      DigitsNoAngle(n / 10);
    }
  }

  lemma {:induction false} PrintNoAngle(v: Json)
    requires Clean(v)
    ensures NoAngle(Print(Ascii, v))
  {
    match v
    case Null =>
    case Bool(_) =>
    case Int(n) => DigitsNoAngle(if n < 0 then -n else n);
    case Str(s) => EscapedNoAngle(s);
    case Arr(items) => ItemsNoAngle(items);
    case Obj(members) => MembersNoAngle(members);
  }

  lemma {:induction false} ItemsNoAngle(items: Items)
    requires CleanItems(items)
    ensures NoAngle(PrintItems(Ascii, items))
  {
    if items.Item? {
      PrintNoAngle(items.first);
      ItemsNoAngle(items.rest);
    }
  }

  lemma {:induction false} MembersNoAngle(ms: Members)
    requires CleanMembers(ms)
    ensures NoAngle(PrintMembers(Ascii, ms))
  {
    if ms.Member? {
      EscapedNoAngle(ms.key);
      PrintNoAngle(ms.value);
      MembersNoAngle(ms.rest);
      NoAngleAppend([':'], Print(Ascii, ms.value));
      NoAngleAppend(Quote(Ascii, ms.key), [':'] + Print(Ascii, ms.value));
    }
  }

  lemma {:induction false} InsertClean(key: string, v: Json, ms: Members)
    requires NoAngle(key) && Clean(v) && CleanMembers(ms)
    ensures CleanMembers(Insert(CodePoints, key, v, ms))
  {
    if ms.Member? {
      InsertClean(key, v, ms.rest);
    }
  }

  lemma {:induction false} SortedClean(v: Json)
    requires Clean(v)
    ensures Clean(Sorted(CodePoints, v))
  {
    match v
    case Arr(items) => SortedItemsClean(items);
    case Obj(members) => SortedMembersClean(members);
    case _ =>
  }

  lemma {:induction false} SortedItemsClean(items: Items)
    requires CleanItems(items)
    ensures CleanItems(SortedItems(CodePoints, items))
  {
    if items.Item? {
      SortedClean(items.first);
      SortedItemsClean(items.rest);
    }
  }

  lemma {:induction false} SortedMembersClean(ms: Members)
    requires CleanMembers(ms)
    ensures CleanMembers(SortedMembers(CodePoints, ms))
  {
    if ms.Member? {
      SortedClean(ms.value);
      SortedMembersClean(ms.rest);
      InsertClean(ms.key, Sorted(CodePoints, ms.value), SortedMembers(CodePoints, ms.rest));
    }
  }

  // ----- the identities that manifests give -----

  predicate ArchiveAdmitted(a: Archive) {
    NoAngle(a.archive) && Hex(a.archiveSha256, 64) && NoAngle(a.target)
  }

  predicate ArchivesAdmitted(archives: seq<Archive>) {
    archives == [] || (ArchiveAdmitted(archives[0]) && ArchivesAdmitted(archives[1..]))
  }

  predicate IdentityAdmitted(id: Identity) {
    ValidTag(id.tag) && Hex(id.commit, 40) && ArchivesAdmitted(id.archives)
  }

  lemma LiteralsClean()
    ensures NoAngle("archives") && NoAngle("commit") && NoAngle("contract") && NoAngle("tag")
    ensures NoAngle("archive") && NoAngle("archiveSha256") && NoAngle("target") && NoAngle(CONTRACT)
  {
  }

  lemma KeysDiffer()
    ensures "archives" != "commit" && "archives" != "contract" && "archives" != "tag"
    ensures "commit" != "contract" && "commit" != "tag" && "contract" != "tag"
    ensures "archive" != "archiveSha256" && "archive" != "target" && "archiveSha256" != "target"
  {
    assert "archives"[0] != "contract"[0];
  }

  /** Members that can be printed, read back and found again. */
  predicate Proper(ms: Members) {
    Distinct(ms) && StrictMembers(ms) && FloatFreeMembers(ms) && CleanMembers(ms)
  }

  lemma ProperMember(key: string, v: Json, ms: Members)
    requires Proper(ms) && NoAngle(key) && Clean(v) && Admitted(v) && Lookup(ms, key) == None
    ensures Proper(Member(key, v, ms))
  {
  }

  lemma LookupStep(key: string, v: Json, ms: Members, x: string)
    ensures Lookup(Member(key, v, ms), x) == if x == key then Some(v) else Lookup(ms, x)
  {
  }

  lemma ArchiveClean(a: Archive)
    requires ArchiveAdmitted(a)
    ensures Clean(ArchiveJson(a)) && Admitted(ArchiveJson(a)) && ArchiveShape(ArchiveJson(a))
  {
    LiteralsClean();
    KeysDiffer();
    var m1 := Member("target", Str(a.target), NoMembers);
    ProperMember("target", Str(a.target), NoMembers);
    LookupStep("target", Str(a.target), NoMembers, "archiveSha256");
    LookupStep("target", Str(a.target), NoMembers, "archive");
    var m2 := Member("archiveSha256", Str(a.archiveSha256), m1);
    ProperMember("archiveSha256", Str(a.archiveSha256), m1);
    LookupStep("archiveSha256", Str(a.archiveSha256), m1, "archive");
    LookupStep("archiveSha256", Str(a.archiveSha256), m1, "target");
    assert Size(m1) == 1;
    assert Size(m2) == 1 + Size(m1);
    ProperMember("archive", Str(a.archive), m2);
  }

  lemma {:induction false} ArchivesClean(archives: seq<Archive>)
    requires ArchivesAdmitted(archives)
    ensures CleanItems(ArchiveItems(archives)) && StrictItems(ArchiveItems(archives))
    ensures FloatFreeItems(ArchiveItems(archives)) && ArchivesShape(ArchiveItems(archives))
  {
    if archives != [] {
      ArchiveClean(archives[0]);
      ArchivesClean(archives[1..]);
    }
  }

  lemma TagTail(tag: string)
    ensures var m := Member("tag", Str(tag), NoMembers);
            && Lookup(m, "contract") == None && Lookup(m, "commit") == None && Lookup(m, "archives") == None
            && Lookup(m, "tag") == Some(Str(tag))
  {
    KeysDiffer();
  }

  lemma IdentityProper(archives: seq<Archive>, commit: string, tag: string)
    requires NoAngle(tag) && NoAngle(commit)
    requires Clean(Arr(ArchiveItems(archives))) && Admitted(Arr(ArchiveItems(archives)))
    ensures var ms := IdentityMembers(Identity(archives, commit, tag));
            && Proper(ms)
            && Size(ms) == 4
            && Lookup(ms, "archives") == Some(Arr(ArchiveItems(archives)))
            && Lookup(ms, "commit") == Some(Str(commit))
            && Lookup(ms, "contract") == Some(Str(CONTRACT))
            && Lookup(ms, "tag") == Some(Str(tag))
  {
    LiteralsClean();
    KeysDiffer();
    var m1 := Member("tag", Str(tag), NoMembers);
    ProperMember("tag", Str(tag), NoMembers);
    TagTail(tag);
    var m2 := Member("contract", Str(CONTRACT), m1);
    ProperMember("contract", Str(CONTRACT), m1);
    LookupStep("contract", Str(CONTRACT), m1, "commit");
    LookupStep("contract", Str(CONTRACT), m1, "archives");
    LookupStep("contract", Str(CONTRACT), m1, "tag");
    var m3 := Member("commit", Str(commit), m2);
    ProperMember("commit", Str(commit), m2);
    LookupStep("commit", Str(commit), m2, "archives");
    LookupStep("commit", Str(commit), m2, "contract");
    LookupStep("commit", Str(commit), m2, "tag");
    ProperMember("archives", Arr(ArchiveItems(archives)), m3);
    assert Size(m1) == 1 && Size(m2) == 2 && Size(m3) == 3;
  }

  lemma IdentityClean(id: Identity)
    requires IdentityAdmitted(id)
    ensures Clean(IdentityJson(id)) && Admitted(IdentityJson(id)) && MembersShape(IdentityMembers(id))
  {
    LiteralsClean();
    KeysDiffer();
    ArchivesClean(id.archives);
    TagChars(id.tag);
    IdentityProper(id.archives, id.commit, id.tag);
  }

  // ----- the comment, to the letter -----

  function Entry(key: string, text: string): string {
    ("\"" + key + "\"") + (":" + text)
  }

  lemma LastEntry(key: string, v: Json)
    requires NeedsNoEscape(key)
    ensures Seqs.Same(PrintMembers(Ascii, Member(key, v, NoMembers)), Entry(key, Print(Ascii, v)))
  {
    EscapedPlain(Ascii, key);
    Seqs.Empty(Entry(key, Print(Ascii, v)));
  }

  lemma NextEntry(key: string, v: Json, rest: Members, text: string)
    requires NeedsNoEscape(key) && rest.Member? && Seqs.Same(PrintMembers(Ascii, rest), text)
    ensures Seqs.Same(PrintMembers(Ascii, Member(key, v, rest)), Entry(key, Print(Ascii, v)) + ("," + text))
  {
    EscapedPlain(Ascii, key);
    assert Quote(Ascii, key) == "\"" + key + "\"";
  }

  lemma ThreeEntries(k: string, v: Json, l: string, w: Json, m: string, x: Json)
    requires NeedsNoEscape(k) && NeedsNoEscape(l) && NeedsNoEscape(m)
    ensures Seqs.Same(PrintMembers(Ascii, Member(k, v, Member(l, w, Member(m, x, NoMembers)))),
                      Entry(k, Print(Ascii, v))
                      + ("," + (Entry(l, Print(Ascii, w)) + ("," + Entry(m, Print(Ascii, x))))))
  {
    LastEntry(m, x);
    NextEntry(l, w, Member(m, x, NoMembers), Entry(m, Print(Ascii, x)));
    NextEntry(k, v, Member(l, w, Member(m, x, NoMembers)),
              Entry(l, Print(Ascii, w)) + ("," + Entry(m, Print(Ascii, x))));
  }

  function ArchiveText(a: Archive): string {
    "{" + (Entry("archive", Quote(Ascii, a.archive)) + ("," + (Entry("archiveSha256", Quote(Ascii, a.archiveSha256))
    + ("," + Entry("target", Quote(Ascii, a.target)))))) + "}"
  }

  function ArchiveTexts(archives: seq<Archive>): seq<string> {
    if archives == [] then [] else [ArchiveText(archives[0])] + ArchiveTexts(archives[1..])
  }

  lemma LiteralsPlain()
    ensures NeedsNoEscape("archives") && NeedsNoEscape("commit") && NeedsNoEscape("contract") && NeedsNoEscape("tag")
    ensures NeedsNoEscape("archive") && NeedsNoEscape("archiveSha256") && NeedsNoEscape("target")
  {
  }

  lemma ArchivePrinted(a: Archive)
    ensures Seqs.Same(Print(Ascii, ArchiveJson(a)), ArchiveText(a))
  {
    LiteralsPlain();
    ThreeEntries("archive", Str(a.archive), "archiveSha256", Str(a.archiveSha256), "target", Str(a.target));
  }

  lemma {:induction false} ArchivesPrinted(archives: seq<Archive>)
    ensures Seqs.Same(PrintItems(Ascii, ArchiveItems(archives)), Join(",", ArchiveTexts(archives)))
  {
    if archives != [] {
      var text := ArchiveText(archives[0]);
      ArchivePrinted(archives[0]);
      ArchivesPrinted(archives[1..]);
      Seqs.Cons(text, ArchiveTexts(archives[1..]), []);
      if archives[1..] != [] {
        Seqs.Assoc(text, ",", Join(",", ArchiveTexts(archives[1..])));
      } else {
        Seqs.Empty(text);
      }
    }
  }

  lemma QuotedPlain(s: string)
    requires NeedsNoEscape(s)
    ensures Seqs.Same(Quote(Ascii, s), "\"" + s + "\"")
  {
    EscapedPlain(Ascii, s);
  }

  function RecordText(archives: string, commit: string, contract: string, tag: string): string {
    "{" + (Entry("archives", archives)
    + ("," + (Entry("commit", Quote(Ascii, commit))
    + ("," + (Entry("contract", "\"" + contract + "\"")
    + ("," + Entry("tag", Quote(Ascii, tag)))))))) + "}"
  }

  lemma FourEntries(k: string, v: Json, l: string, w: Json, m: string, x: Json, n: string, y: Json, text: string,
                    last: string)
    requires NeedsNoEscape(k) && NeedsNoEscape(l) && NeedsNoEscape(m) && NeedsNoEscape(n)
    requires Seqs.Same(Print(Ascii, v), text) && Seqs.Same(Print(Ascii, x), last)
    ensures Seqs.Same(PrintMembers(Ascii, Member(k, v, Member(l, w, Member(m, x, Member(n, y, NoMembers))))),
                      Entry(k, text) + ("," + (Entry(l, Print(Ascii, w))
                      + ("," + (Entry(m, last) + ("," + Entry(n, Print(Ascii, y))))))))
  {
    ThreeEntries(l, w, m, x, n, y);
    NextEntry(k, v, Member(l, w, Member(m, x, Member(n, y, NoMembers))),
              Entry(l, Print(Ascii, w)) + ("," + (Entry(m, Print(Ascii, x)) + ("," + Entry(n, Print(Ascii, y))))));
  }

  lemma RecordPrinted(v: Json, text: string, commit: string, contract: string, tag: string)
    requires Seqs.Same(Print(Ascii, v), text) && NeedsNoEscape(contract)
    ensures Seqs.Same(Print(Ascii, Obj(Member("archives", v, Member("commit", Str(commit),
                            Member("contract", Str(contract), Member("tag", Str(tag), NoMembers)))))),
                      RecordText(text, commit, contract, tag))
  {
    LiteralsPlain();
    QuotedPlain(contract);
    FourEntries("archives", v, "commit", Str(commit), "contract", Str(contract), "tag", Str(tag), text,
                "\"" + contract + "\"");
  }

  /** The frame of the comment, around the name of the contract. */
  lemma FrameIs(contract: string)
    requires contract == "algal.release-page.v1"
    ensures CONTRACT == contract && NeedsNoEscape(contract)
    ensures Seqs.Same(MARKER, "<!-- algal.release-page.v1 ") && END == " -->" && CLOSE == "-->"
  {
  }

  lemma IdentityPrinted(id: Identity, contract: string)
    requires contract == "algal.release-page.v1"
    ensures Seqs.Same(Print(Ascii, IdentityJson(id)),
                      RecordText("[" + Join(",", ArchiveTexts(id.archives)) + "]", id.commit, contract, id.tag))
  {
    ArchivesPrinted(id.archives);
    FrameIs(contract);
    RecordPrinted(Arr(ArchiveItems(id.archives)), "[" + Join(",", ArchiveTexts(id.archives)) + "]",
                  id.commit, contract, id.tag);
  }

  lemma Ascending(a: string, b: string, k: nat)
    requires CharsLessAt(a, b, k)
    ensures Before(CodePoints, a, b)
  {
    CodePointOrderIs(a, b);
  }

  lemma RecordKeysAscend()
    ensures Before(CodePoints, "archives", "commit") && Before(CodePoints, "commit", "contract")
    ensures Before(CodePoints, "contract", "tag")
  {
    Ascending("archives", "commit", 0);
    Ascending("commit", "contract", 2);
    Ascending("contract", "tag", 0);
  }

  lemma ArchiveKeysAscend()
    ensures Before(CodePoints, "archive", "archiveSha256") && Before(CodePoints, "archiveSha256", "target")
  {
    Ascending("archive", "archiveSha256", 7);
    Ascending("archiveSha256", "target", 0);
  }

  lemma ThreeSorted(k: string, v: Json, l: string, w: Json, m: string, x: Json)
    requires Before(CodePoints, k, l) && Before(CodePoints, l, m)
    requires Sorted(CodePoints, v) == v && Sorted(CodePoints, w) == w && Sorted(CodePoints, x) == x
    ensures var ms := Member(k, v, Member(l, w, Member(m, x, NoMembers)));
            Above(CodePoints, k, ms.rest) && Increasing(CodePoints, ms) && SortedValues(CodePoints, ms)
            && SortedMembers(CodePoints, ms) == ms
  {
    BeforeTransitive(CodePoints, k, l, m);
    var last := Member(m, x, NoMembers);
    var rest := Member(l, w, last);
    assert Increasing(CodePoints, last) && SortedValues(CodePoints, last);
    assert Increasing(CodePoints, rest) && SortedValues(CodePoints, rest);
    IncreasingFixed(CodePoints, Member(k, v, rest));
  }

  lemma {:induction false} ArchivesSorted(archives: seq<Archive>)
    ensures SortedItems(CodePoints, ArchiveItems(archives)) == ArchiveItems(archives)
  {
    if archives != [] {
      var a := archives[0];
      ArchiveKeysAscend();
      ThreeSorted("archive", Str(a.archive), "archiveSha256", Str(a.archiveSha256), "target", Str(a.target));
      ArchivesSorted(archives[1..]);
    }
  }

  lemma IdentitySorted(id: Identity)
    ensures Sorted(CodePoints, IdentityJson(id)) == IdentityJson(id)
  {
    var ms := IdentityMembers(id);
    RecordKeysAscend();
    ArchivesSorted(id.archives);
    ThreeSorted("commit", Str(id.commit), "contract", Str(CONTRACT), "tag", Str(id.tag));
    AboveTransitive(CodePoints, "archives", "commit", ms.rest.rest);
    IncreasingFixed(CodePoints, ms);
  }

  /** The comment, to the letter. */
  lemma CommentIs(id: Identity, contract: string)
    requires contract == "algal.release-page.v1"
    ensures RenderIdentity(id)
         == "<!-- algal.release-page.v1 "
          + (RecordText("[" + Join(",", ArchiveTexts(id.archives)) + "]", id.commit, contract, id.tag) + " -->")
  {
    IdentitySorted(id);
    IdentityPrinted(id, contract);
    FrameIs(contract);
  }

  // ----- what parsing accepts -----

  function ValuesOf(items: Items): seq<Json> {
    match items
    case NoItems => []
    case Item(v, rest) => [v] + ValuesOf(rest)
  }

  /** An object with exactly these keys. */
  ghost predicate HasKeys(v: Json, keys: set<string>) {
    v.Obj? && Keys(v.members) == keys
  }

  lemma KeysFrom(ms: Members, keys: set<string>)
    requires Distinct(ms)
    ensures Keys(ms) == keys <==> Size(ms) == |keys| && forall key :: key in keys ==> HasKey(ms, key)
  {
    KeysCount(ms);
    forall key
      ensures key in Keys(ms) <==> HasKey(ms, key)
    {
      KeysLookup(ms, key);
    }
    if Size(ms) == |keys| && forall key :: key in keys ==> HasKey(ms, key) {
      SubsetOfSameSize(keys, Keys(ms));
    }
  }

  lemma ThreeKeys(a: string, b: string, c: string)
    requires a != b && a != c && b != c
    ensures |{a, b, c}| == 3
  {
  }

  lemma FourKeys(a: string, b: string, c: string, d: string)
    requires a != b && a != c && a != d && b != c && b != d && c != d
    ensures |{a, b, c, d}| == 4
  {
  }

  lemma ArchiveShapeIs(v: Json)
    requires Strict(v)
    ensures ArchiveShape(v) <==> HasKeys(v, {"archive", "archiveSha256", "target"})
  {
    if v.Obj? {
      KeysDiffer();
      ThreeKeys("archive", "archiveSha256", "target");
      KeysFrom(v.members, {"archive", "archiveSha256", "target"});
    }
  }

  lemma {:induction false} ArchivesShapeIs(items: Items)
    requires StrictItems(items)
    ensures ArchivesShape(items)
       <==> forall v :: v in ValuesOf(items) ==> HasKeys(v, {"archive", "archiveSha256", "target"})
  {
    if items.Item? {
      ArchiveShapeIs(items.first);
      ArchivesShapeIs(items.rest);
      assert items.first in ValuesOf(items);
      assert forall v :: v in ValuesOf(items.rest) ==> v in ValuesOf(items);
    }
  }

  /** The record of the comment: four members, and what each of them is. */
  ghost predicate RecordOf(v: Json, items: Items, commit: string, tag: string) {
    && HasKeys(v, {"archives", "commit", "contract", "tag"})
    && Lookup(v.members, "archives") == Some(Arr(items))
    && (forall a :: a in ValuesOf(items) ==> HasKeys(a, {"archive", "archiveSha256", "target"}))
    && Lookup(v.members, "commit") == Some(Str(commit)) && Hex(commit, 40)
    && Lookup(v.members, "contract") == Some(Str("algal.release-page.v1"))
    && Lookup(v.members, "tag") == Some(Str(tag)) && ValidTag(tag)
  }

  lemma RecordIs(ms: Members)
    requires Distinct(ms) && StrictMembers(ms)
    ensures MembersShape(ms) <==> exists items, commit, tag :: RecordOf(Obj(ms), items, commit, tag)
  {
    KeysDiffer();
    FourKeys("archives", "commit", "contract", "tag");
    KeysFrom(ms, {"archives", "commit", "contract", "tag"});
    match Lookup(ms, "archives")
    case Some(Arr(items)) =>
      StrictLookup(ms, "archives");
      ArchivesShapeIs(items);
      if MembersShape(ms) {
        assert RecordOf(Obj(ms), items, Lookup(ms, "commit").value.s, Lookup(ms, "tag").value.s);
      }
    case _ =>
  }

  // ----- the shape does not depend on the order of members -----

  lemma ArchiveShapeSorted(v: Json)
    requires Strict(v) && ArchiveShape(v)
    ensures ArchiveShape(Sorted(CodePoints, v))
  {
    SortedIncreasing(CodePoints, v.members);
    SortedLookup(CodePoints, v.members, "archive");
    SortedLookup(CodePoints, v.members, "archiveSha256");
    SortedLookup(CodePoints, v.members, "target");
  }

  lemma {:induction false} ArchivesShapeSorted(items: Items)
    requires StrictItems(items) && ArchivesShape(items)
    ensures ArchivesShape(SortedItems(CodePoints, items))
  {
    if items.Item? {
      ArchiveShapeSorted(items.first);
      ArchivesShapeSorted(items.rest);
    }
  }

  lemma MembersShapeSorted(ms: Members)
    requires Distinct(ms) && StrictMembers(ms) && MembersShape(ms)
    ensures MembersShape(SortedMembers(CodePoints, ms))
  {
    SortedIncreasing(CodePoints, ms);
    SortedLookup(CodePoints, ms, "archives");
    SortedLookup(CodePoints, ms, "commit");
    SortedLookup(CodePoints, ms, "contract");
    SortedLookup(CodePoints, ms, "tag");
    StrictLookup(ms, "archives");
    ArchivesShapeSorted(Lookup(ms, "archives").value.items);
  }

  // ----- the trailing comment -----

  lemma MarkerOnlyStarts()
    ensures |MARKER| == 27 && MARKER[0] == '<'
    ensures forall k :: 1 <= k < |MARKER| ==> MARKER[k] != '<'
    ensures NoAngle(END[..|END| - 1]) && END[|END| - 1] == '>' && |END| == 4
    ensures END[1..] == CLOSE && |CLOSE| == 3 && CLOSE[2] == '>'
  {
  }

  lemma NotInside(payload: string, k: nat)
    requires NoAngle(payload) && 1 <= k < |MARKER + (payload + END)|
    ensures (MARKER + (payload + END))[k] != '<'
  {
    MarkerOnlyStarts();
    if k >= |MARKER| + |payload| {
      var j := k - |MARKER| - |payload|;
      assert (MARKER + (payload + END))[k] == END[j];
      if j < |END| - 1 {
        assert END[..|END| - 1][j] == END[j];
      }
    }
  }

  /** Whatever the front holds, the last marker is the one of the comment itself. */
  lemma LastMarker(front: string, payload: string)
    requires NoAngle(payload)
    ensures var body := front + (MARKER + (payload + END));
            RFind(body, MARKER, |body| + 1) == Some(|front|)
  {
    var comment := MARKER + (payload + END);
    var body := front + comment;
    MarkerOnlyStarts();
    assert body[|front|..|front| + |MARKER|] == MARKER;
    assert MatchAt(body, MARKER, |front|);
    forall i | |front| < i < |body| + 1
      ensures !MatchAt(body, MARKER, i)
    {
      if MatchAt(body, MARKER, i) {
        assert body[i] == body[i..i + |MARKER|][0] == '<';
        assert comment[i - |front|] == '<';
        NotInside(payload, i - |front|);
      }
    }
  }

  lemma CommentParts(front: string, payload: string)
    ensures var comment := MARKER + (payload + END);
            && Inner(comment, |MARKER|, |END|) == payload
            && EndsWith(comment, END) && EndsWith(front + comment, CLOSE)
            && (front + comment)[..|front|] == front && (front + comment)[|front|..] == comment
  {
    MarkerOnlyStarts();
    var comment := MARKER + (payload + END);
    assert (front + comment)[|front + comment| - 3..] == END[1..];
  }

  lemma {:induction false} NoClose(payload: string)
    requires NoAngle(payload)
    ensures !Contains(payload, CLOSE)
  {
    MarkerOnlyStarts();
    if |payload| >= 3 {
      assert payload[2] != CLOSE[2];
    }
    if payload != "" {
      NoClose(payload[1..]);
    }
  }

  // ----- rendering and parsing are inverse -----

  lemma ParsedAs(repr: string -> string, front: string, comment: string, payload: string, v: Json)
    requires Inner(comment, |MARKER|, |END|) == payload && EndsWith(comment, END) && !Contains(payload, CLOSE)
    requires Loads(LastWins, payload) == Some(v) && v.Obj? && MembersShape(v.members) && Dumps(repr, v) == payload
    requires EndsWith(front, "\n\n")
    ensures ParseComment(repr, front, comment) == Ok(Parts(front[..|front| - 1], v))
  {
    assert front[|front| - 2..] == "\n\n";
  }

  lemma CommentRoundTrip(repr: string -> string, front: string, id: Identity)
    requires IdentityAdmitted(id) && EndsWith(front, "\n\n")
    ensures ParseComment(repr, front, RenderIdentity(id))
         == Ok(Parts(front[..|front| - 1], Sorted(CodePoints, IdentityJson(id))))
  {
    var v := Sorted(CodePoints, IdentityJson(id));
    var payload := Print(Ascii, v);
    IdentityClean(id);
    SortedClean(IdentityJson(id));
    PrintNoAngle(v);
    NoClose(payload);
    CommentParts(front, payload);
    SortedKeeps(CodePoints, IdentityJson(id));
    LoadsPrint(Ascii, LastWins, v);
    MembersShapeSorted(IdentityMembers(id));
    SortedTwice(CodePoints, IdentityJson(id));
    SpelledFloatFree(repr, v);
    ParsedAs(repr, front, RenderIdentity(id), payload, v);
  }

  lemma NotesEnd(page: Page, changelog: string, id: Identity)
    requires RenderNotes(page, changelog, id).Ok?
    ensures EndsWith(RenderNotes(page, changelog, id).value + "\n", "\n\n")
  {
    var notes := RenderNotes(page, changelog, id).value;
    assert notes[|notes| - 1] == '\n';
    assert (notes + "\n")[|notes| - 1..] == "\n\n";
  }

  /**
   * Parsing a rendered page gives its notes and its identity, whatever the changelog says: comments forged in it come
   * before the last marker.
   */
  lemma ParseRendered(page: Page, changelog: string, id: Identity)
    requires IdentityAdmitted(id) && RenderBody(page, changelog, id).Ok?
    ensures var notes := RenderNotes(page, changelog, id).value;
            ParseIdentity(page.repr, RenderBody(page, changelog, id).value)
            == Ok(Parts(notes, Sorted(CodePoints, IdentityJson(id))))
    ensures Same(Sorted(CodePoints, IdentityJson(id)), IdentityJson(id))
  {
    var notes := RenderNotes(page, changelog, id).value;
    var front, v := notes + "\n", Sorted(CodePoints, IdentityJson(id));
    NotesEnd(page, changelog, id);
    IdentityClean(id);
    SortedIsSame(CodePoints, IdentityJson(id));
    SortedClean(IdentityJson(id));
    PrintNoAngle(v);
    LastMarker(front, Print(Ascii, v));
    CommentParts(front, Print(Ascii, v));
    CommentRoundTrip(page.repr, front, id);
    assert front[..|front| - 1] == notes;
  }

  lemma ObjectText(repr: string -> string, ms: Members)
    ensures Dumps(repr, Obj(ms)) != ""
  {
  }

  /** Unless the marker and the end overlap, the comment is the marker, the payload and the end. */
  lemma InnerSplits(comment: string)
    requires MARKER <= comment && EndsWith(comment, END) && Inner(comment, |MARKER|, |END|) != ""
    ensures comment == MARKER + (Inner(comment, |MARKER|, |END|) + END)
  {
    var payload := Inner(comment, |MARKER|, |END|);
    var n := |comment| - |END|;
    assert comment == comment[..|MARKER|] + (comment[|MARKER|..n] + comment[n..]);
  }

  /** What one cut of a body at a marker gives. */
  lemma ParsedComment(repr: string -> string, front: string, comment: string)
    requires MARKER <= comment && ParseComment(repr, front, comment).Ok?
    ensures var parts := ParseComment(repr, front, comment).value;
            && Strict(parts.identity)
            && front == parts.notes + "\n"
            && comment == MARKER + (Dumps(repr, parts.identity) + END)
  {
    var payload := Inner(comment, |MARKER|, |END|);
    ParsedIsStrict(LastWins, Skip(payload));
    var v := Loads(LastWins, payload).value;
    assert Dumps(repr, v) == payload != "" by {
      ObjectText(repr, v.members);
    }
    InnerSplits(comment);
    assert front == front[..|front| - 1] + [front[|front| - 1]];
  }

  lemma MarkerStart(body: string, start: nat)
    requires MatchAt(body, MARKER, start)
    ensures MARKER <= body[start..]
  {
    assert body[start..][..|MARKER|] == body[start..start + |MARKER|];
  }

  /** A parsed body is the notes, a line feed, and the comment around the sorted text of what was parsed. */
  lemma ParsedBody(repr: string -> string, body: string)
    requires ParseIdentity(repr, body).Ok?
    ensures var parts := ParseIdentity(repr, body).value;
            && Strict(parts.identity)
            && body == (parts.notes + "\n") + (MARKER + (Dumps(repr, parts.identity) + END))
            && ByteLength(body) <= MAX_BODY_BYTES
  {
    var start := RFind(body, MARKER, |body| + 1).value;
    MarkerStart(body, start);
    Seqs.Cut(body, start);
    ParsedComment(repr, body[..start], body[start..]);
  }

  lemma MarkerLater(front: string, comment: string, i: nat)
    requires comment != ""
    ensures MatchAt(front + comment, MARKER, |front| + 1 + i) <==> FoundAt(comment[1..], MARKER, i)
  {
    var body, n := front + comment, |MARKER|;
    if |front| + 1 + i + n <= |body| {
      assert body[|front| + 1 + i..|front| + 1 + i + n] == comment[1..][i..i + n];
    }
  }

  /** The last marker is the first one of the comment exactly when the comment holds no other. */
  lemma LastAt(front: string, comment: string)
    requires MARKER <= comment
    ensures RFind(front + comment, MARKER, |front + comment| + 1) == Some(|front|)
       <==> !Contains(comment[1..], MARKER)
  {
    var body, later := front + comment, comment[1..];
    MarkerOnlyStarts();
    ContainsAt(later, MARKER);
    assert body[|front|..|front| + |MARKER|] == MARKER;
    assert MatchAt(body, MARKER, |front|);
    if i :| FoundAt(later, MARKER, i) {
      MarkerLater(front, comment, i);
      assert MatchAt(body, MARKER, |front| + 1 + i);
    }
    var found := RFind(body, MARKER, |body| + 1);
    if found.Some? && found.value > |front| {
      MarkerLater(front, comment, found.value - |front| - 1);
    }
  }

  /** The body is the notes and, after an empty line, the comment with the canonical text of the record. */
  ghost predicate Commented(repr: string -> string, body: string, notes: string, v: Json) {
    var payload := Dumps(repr, v);
    var comment := "<!-- algal.release-page.v1 " + (payload + " -->");
    && ByteLength(body) <= 100000
    && notes != "" && notes[|notes| - 1] == '\n'
    && body == (notes + "\n") + comment
    && !Contains(comment[1..], "<!-- algal.release-page.v1 ") && !Contains(payload, "-->")
    && Loads(LastWins, payload) == Some(v)
    && exists items, commit, tag :: RecordOf(v, items, commit, tag)
  }

  lemma CutAtMarker(repr: string -> string, body: string, front: string, payload: string)
    requires Seqs.Same(body, front + (MARKER + (payload + END))) && ByteLength(body) <= MAX_BODY_BYTES
    requires !Contains((MARKER + (payload + END))[1..], MARKER)
    ensures ParseIdentity(repr, body) == ParseComment(repr, front, MARKER + (payload + END))
  {
    LastAt(front, MARKER + (payload + END));
    CommentParts(front, payload);
  }

  lemma Gap(notes: string)
    requires notes != "" && notes[|notes| - 1] == '\n'
    ensures EndsWith(notes + "\n", "\n\n") && (notes + "\n")[..|notes + "\n"| - 1] == notes
  {
    assert (notes + "\n")[|notes| - 1..] == "\n\n";
  }

  lemma CommentedParses(repr: string -> string, body: string, notes: string, v: Json)
    requires Commented(repr, body, notes, v)
    ensures ParseIdentity(repr, body) == Ok(Parts(notes, v))
  {
    var payload, front := Dumps(repr, v), notes + "\n";
    ParsedIsStrict(LastWins, Skip(payload));
    RecordIs(v.members);
    CutAtMarker(repr, body, front, payload);
    CommentParts(front, payload);
    Gap(notes);
    ParsedAs(repr, front, MARKER + (payload + END), payload, v);
  }

  /** The facts that an admitted comment establishes about its record. */
  lemma AdmittedComment(repr: string -> string, front: string, comment: string)
    requires MARKER <= comment && ParseComment(repr, front, comment).Ok?
    ensures var parts := ParseComment(repr, front, comment).value;
            var payload := Dumps(repr, parts.identity);
            && front == parts.notes + "\n" && parts.notes != "" && parts.notes[|parts.notes| - 1] == '\n'
            && comment == MARKER + (payload + END) && !Contains(payload, CLOSE)
            && Loads(LastWins, payload) == Some(parts.identity)
            && exists items, commit, tag :: RecordOf(parts.identity, items, commit, tag)
  {
    var payload := Inner(comment, |MARKER|, |END|);
    ParsedComment(repr, front, comment);
    ParsedIsStrict(LastWins, Skip(payload));
    RecordIs(Loads(LastWins, payload).value.members);
  }

  lemma LastOfBody(repr: string -> string, body: string) returns (front: string, comment: string)
    requires ParseIdentity(repr, body).Ok?
    ensures body == front + comment && MARKER <= comment && ByteLength(body) <= MAX_BODY_BYTES
    ensures ParseIdentity(repr, body) == ParseComment(repr, front, comment)
    ensures !Contains(comment[1..], MARKER)
  {
    var start := RFind(body, MARKER, |body| + 1).value;
    front, comment := body[..start], body[start..];
    MarkerStart(body, start);
    Seqs.Cut(body, start);
    LastAt(front, comment);
  }

  lemma ParsedCommented(repr: string -> string, body: string)
    requires ParseIdentity(repr, body).Ok?
    ensures Commented(repr, body, ParseIdentity(repr, body).value.notes, ParseIdentity(repr, body).value.identity)
  {
    var front, comment := LastOfBody(repr, body);
    AdmittedComment(repr, front, comment);
  }

  /** Parsing accepts exactly the bodies made of notes and the comment of an admitted record, and gives back both. */
  lemma ParsedExactly(repr: string -> string, body: string, notes: string, v: Json)
    ensures ParseIdentity(repr, body) == Ok(Parts(notes, v)) <==> Commented(repr, body, notes, v)
  {
    if Commented(repr, body, notes, v) {
      CommentedParses(repr, body, notes, v);
    }
    if ParseIdentity(repr, body).Ok? {
      ParsedCommented(repr, body);
    }
  }

  lemma VerifiedText(repr: string -> string, v: Json, id: Identity)
    requires IdentityAdmitted(id) && Strict(v) && Same(v, IdentityJson(id))
    ensures MARKER + (Dumps(repr, v) + END) == RenderIdentity(id)
  {
    IdentityClean(id);
    SameIffSorted(CodePoints, v, IdentityJson(id));
    SortedKeeps(CodePoints, v);
    SortedKeeps(CodePoints, IdentityJson(id));
    SpelledFloatFree(repr, v);
  }

  lemma RenderedPasses(page: Page, body: string, changelog: string, id: Identity)
    requires IdentityAdmitted(id) && RenderBody(page, changelog, id) == Ok(body)
    ensures VerifyBody(page, body, changelog, id).Ok?
  {
    ParseRendered(page, changelog, id);
  }

  /** The parts of a body that passed. */
  lemma PassedParts(page: Page, body: string, changelog: string, id: Identity)
    requires VerifyBody(page, body, changelog, id).Ok?
    ensures ParseIdentity(page.repr, body).Ok?
    ensures var parts := ParseIdentity(page.repr, body).value;
            Same(parts.identity, IdentityJson(id)) && RenderNotes(page, changelog, id) == Ok(parts.notes)
  {
  }

  /** A body made of the notes and the comment is the rendered one, if it keeps the bound. */
  lemma RenderedFrom(page: Page, body: string, changelog: string, id: Identity, notes: string)
    requires RenderNotes(page, changelog, id) == Ok(notes) && ByteLength(body) <= MAX_BODY_BYTES
    requires body == (notes + "\n") + RenderIdentity(id)
    ensures RenderBody(page, changelog, id) == Ok(body)
  {
  }

  lemma PassedIsRendered(page: Page, body: string, changelog: string, id: Identity)
    requires IdentityAdmitted(id) && VerifyBody(page, body, changelog, id).Ok?
    ensures RenderBody(page, changelog, id) == Ok(body)
  {
    PassedParts(page, body, changelog, id);
    var parts := ParseIdentity(page.repr, body).value;
    ParsedBody(page.repr, body);
    VerifiedText(page.repr, parts.identity, id);
    RenderedFrom(page, body, changelog, id, parts.notes);
  }

  /** The notes, an empty line and the comment, within the bound. */
  predicate IsPage(page: Page, changelog: string, id: Identity, body: string) {
    && RenderNotes(page, changelog, id).Ok?
    && body == (RenderNotes(page, changelog, id).value + "\n") + RenderIdentity(id)
    && ByteLength(body) <= 100000
  }

  lemma RenderedIsPage(page: Page, changelog: string, id: Identity, body: string)
    ensures RenderBody(page, changelog, id) == Ok(body) <==> IsPage(page, changelog, id, body)
  {
  }

  /**
   * A body is accepted for an identity exactly when it is the page rendered for it, byte for byte: no other body is,
   * and the rendered one always is.
   */
  lemma VerifyExact(page: Page, body: string, changelog: string, id: Identity)
    requires IdentityAdmitted(id)
    ensures RenderBody(page, changelog, id) == Ok(body) <==> IsPage(page, changelog, id, body)
    ensures VerifyBody(page, body, changelog, id).Ok? <==> IsPage(page, changelog, id, body)
    ensures VerifyBody(page, body, changelog, id).Ok? ==>
              Same(VerifyBody(page, body, changelog, id).value, IdentityJson(id))
  {
    RenderedIsPage(page, changelog, id, body);
    if IsPage(page, changelog, id, body) {
      RenderedPasses(page, body, changelog, id);
    }
    if VerifyBody(page, body, changelog, id).Ok? {
      PassedIsRendered(page, body, changelog, id);
      PassedParts(page, body, changelog, id);
    }
  }

  // ----- the identity from the package manifests -----

  const TARGETS := ["aarch64-apple-darwin", "x86_64-unknown-linux-gnu", "aarch64-unknown-linux-gnu"]

  /** One `*.release.json`: whether it is a regular file, not a link; its size; its text where it decodes. */
  datatype Manifest = Manifest(regular: bool, size: nat, text: Option<string>)

  function ArchiveName(tag: string, target: string): string {
    "algal-" + tag + "-" + target + ".tar.gz"
  }

  /** The members of a manifest that can be read and is an object. */
  function FieldsOf(m: Manifest): Option<Members> {
    if !m.regular || m.size > MAX_MANIFEST_BYTES || m.text.None? then None
    else
      match Loads(LastWins, m.text.value)
      case Some(Obj(members)) => Some(members)
      case _ => None
  }

  /** `value.get(key)` where it is a string */
  function Field(ms: Members, key: string): Option<string> {
    match Lookup(ms, key)
    case Some(Str(s)) => Some(s)
    case _ => None
  }

  predicate FieldsAdmitted(ms: Members, tag: string, commit: string) {
    && Field(ms, "tag") == Some(tag) && Field(ms, "commit") == Some(commit)
    && Field(ms, "sourceState") == Some("clean")
    && Field(ms, "target").Some? && Field(ms, "target").value in TARGETS
    && Field(ms, "archive") == Some(ArchiveName(tag, Field(ms, "target").value))
    && Field(ms, "archiveSha256").Some? && Hex(Field(ms, "archiveSha256").value, 64)
  }

  predicate ManifestAdmitted(m: Manifest, tag: string, commit: string) {
    FieldsOf(m).Some? && FieldsAdmitted(FieldsOf(m).value, tag, commit)
  }

  /** The text has this string under this key. */
  predicate Says(ms: Members, key: string, text: string) {
    Lookup(ms, key) == Some(Str(text))
  }

  predicate Supported(target: string) {
    target == "aarch64-apple-darwin" || target == "x86_64-unknown-linux-gnu" || target == "aarch64-unknown-linux-gnu"
  }

  /** A regular file of bounded size with the record of this archive, of this tag and commit, from a clean source. */
  ghost predicate Records(m: Manifest, tag: string, commit: string, a: Archive) {
    && m.regular && m.size <= 65536
    && exists text, ms ::
         && m.text == Some(text) && Loads(LastWins, text) == Some(Obj(ms))
         && Says(ms, "tag", tag) && Says(ms, "commit", commit) && Says(ms, "sourceState", "clean")
         && Says(ms, "target", a.target) && Supported(a.target)
         && Says(ms, "archive", a.archive) && a.archive == "algal-" + tag + "-" + a.target + ".tar.gz"
         && Says(ms, "archiveSha256", a.archiveSha256) && Hex(a.archiveSha256, 64)
  }

  function TextField(ms: Members, key: string): string {
    match Field(ms, key)
    case Some(s) => s
    case None => ""
  }

  function ArchiveOf(m: Manifest): Archive {
    match FieldsOf(m)
    case Some(ms) => Archive(TextField(ms, "archive"), TextField(ms, "archiveSha256"), TextField(ms, "target"))
    case None => Archive("", "", "")
  }

  /** A manifest is admitted exactly when it is the record of an archive, and then it is of the one that is taken. */
  lemma AdmittedRecords(m: Manifest, tag: string, commit: string, a: Archive)
    ensures Records(m, tag, commit, a) <==> ManifestAdmitted(m, tag, commit) && a == ArchiveOf(m)
  {
    if ManifestAdmitted(m, tag, commit) {
      assert Loads(LastWins, m.text.value) == Some(Obj(FieldsOf(m).value));
    }
  }

  function ArchivesOf(manifests: seq<Manifest>): seq<Archive> {
    if manifests == [] then [] else [ArchiveOf(manifests[0])] + ArchivesOf(manifests[1..])
  }

  predicate AllAdmitted(manifests: seq<Manifest>, tag: string, commit: string) {
    forall i :: 0 <= i < |manifests| ==> ManifestAdmitted(manifests[i], tag, commit)
  }

  function Named(archives: seq<Archive>): seq<string> {
    if archives == [] then [] else [archives[0].target] + Named(archives[1..])
  }

  /** The archive for a target that is there. */
  function Pick(archives: seq<Archive>, target: string): (a: Archive)
    requires target in Named(archives)
    ensures a in archives && a.target == target
  {
    if archives[0].target == target then archives[0] else Pick(archives[1..], target)
  }

  lemma TargetsNoAngle(tag: string, target: string)
    requires AllTagChars(tag) && target in TARGETS
    ensures NoAngle(target) && NoAngle(ArchiveName(tag, target))
  {
    assert NoAngle(TARGETS[0]) && NoAngle(TARGETS[1]) && NoAngle(TARGETS[2]);
    assert NoAngle("algal-") && NoAngle("-") && NoAngle(".tar.gz");
    NoAngleAppend("algal-", tag);
    NoAngleAppend("algal-" + tag, "-");
    NoAngleAppend("algal-" + tag + "-", target);
    NoAngleAppend("algal-" + tag + "-" + target, ".tar.gz");
  }

  lemma {:induction false} ArchivesAppend(a: seq<Manifest>, b: seq<Manifest>)
    ensures ArchivesOf(a + b) == ArchivesOf(a) + ArchivesOf(b)
  {
    if a == [] {
      assert a + b == b;
    } else {
      assert (a + b)[1..] == a[1..] + b;
      ArchivesAppend(a[1..], b);
    }
  }

  lemma ArchivesSnoc(manifests: seq<Manifest>, i: nat)
    requires i < |manifests|
    ensures ArchivesOf(manifests[..i + 1]) == ArchivesOf(manifests[..i]) + [ArchiveOf(manifests[i])]
  {
    assert manifests[..i + 1] == manifests[..i] + [manifests[i]];
    ArchivesAppend(manifests[..i], [manifests[i]]);
  }

  /** The archives of manifests that all pass. */
  method Collect(manifests: seq<Manifest>, tag: string, commit: string) returns (archives: Option<seq<Archive>>)
    ensures archives == if AllAdmitted(manifests, tag, commit) then Some(ArchivesOf(manifests)) else None
  {
    var found: seq<Archive>, i := [], 0;
    while i < |manifests|
      invariant i <= |manifests|
      invariant forall k :: 0 <= k < i ==> ManifestAdmitted(manifests[k], tag, commit)
      invariant found == ArchivesOf(manifests[..i])
    {
      if !ManifestAdmitted(manifests[i], tag, commit) {
        return None;
      }
      ArchivesSnoc(manifests, i);
      found := found + [ArchiveOf(manifests[i])];
      i := i + 1;
    }
    assert manifests[..i] == manifests;
    archives := Some(found);
  }

  predicate OnePerTarget(archives: seq<Archive>) {
    multiset(Named(archives))
    == multiset(["aarch64-apple-darwin", "x86_64-unknown-linux-gnu", "aarch64-unknown-linux-gnu"])
  }

  ghost predicate SomeRecords(manifests: seq<Manifest>, tag: string, commit: string, a: Archive) {
    exists i :: 0 <= i < |manifests| && Records(manifests[i], tag, commit, a)
  }

  lemma {:induction false} TakenFrom(manifests: seq<Manifest>, a: Archive)
    requires a in ArchivesOf(manifests)
    ensures exists i :: 0 <= i < |manifests| && ArchiveOf(manifests[i]) == a
  {
    if a != ArchiveOf(manifests[0]) {
      TakenFrom(manifests[1..], a);
      var i :| 0 <= i < |manifests| - 1 && ArchiveOf(manifests[1..][i]) == a;
      assert manifests[i + 1] == manifests[1..][i];
    }
  }

  lemma AllRecorded(manifests: seq<Manifest>, tag: string, commit: string, a: Archive)
    requires AllAdmitted(manifests, tag, commit) && a in ArchivesOf(manifests)
    ensures SomeRecords(manifests, tag, commit, a)
  {
    TakenFrom(manifests, a);
    var i :| 0 <= i < |manifests| && ArchiveOf(manifests[i]) == a;
    AdmittedRecords(manifests[i], tag, commit, a);
  }

  lemma NamedThree(a: Archive, b: Archive, c: Archive)
    ensures Named([a, b, c]) == [a.target, b.target, c.target]
  {
    assert [a, b, c][1..] == [b, c] && [b, c][1..] == [c];
    assert Named([c]) == [c.target];
    assert Named([b, c]) == [b.target] + Named([c]);
  }

  lemma EachNamed(archives: seq<Archive>)
    requires multiset(Named(archives)) == multiset(TARGETS)
    ensures TARGETS[0] in Named(archives) && TARGETS[1] in Named(archives) && TARGETS[2] in Named(archives)
  {
    assert TARGETS[0] in multiset(TARGETS) && TARGETS[1] in multiset(TARGETS) && TARGETS[2] in multiset(TARGETS);
  }

  /** The archives in the order of their targets: each target has one, so sorting is picking. */
  method InOrder(archives: seq<Archive>) returns (ordered: seq<Archive>)
    requires OnePerTarget(archives)
    ensures Named(ordered) == TARGETS && |ordered| == 3
    ensures forall k :: 0 <= k < 3 ==> ordered[k] in archives
  {
    EachNamed(archives);
    var a, b, c := Pick(archives, TARGETS[0]), Pick(archives, TARGETS[1]), Pick(archives, TARGETS[2]);
    ordered := [a, b, c];
    NamedThree(a, b, c);
    assert TARGETS == [TARGETS[0], TARGETS[1], TARGETS[2]];
  }

  lemma {:induction false} ArchiveFromManifest(manifests: seq<Manifest>, tag: string, commit: string, a: Archive)
    requires TagPattern(tag) && AllAdmitted(manifests, tag, commit) && a in ArchivesOf(manifests)
    ensures ArchiveAdmitted(a)
  {
    if a == ArchiveOf(manifests[0]) {
      TagChars(tag);
      TargetsNoAngle(tag, ArchiveOf(manifests[0]).target);
    } else {
      ArchiveFromManifest(manifests[1..], tag, commit, a);
    }
  }

  lemma {:induction false} AllArchivesAdmitted(manifests: seq<Manifest>, tag: string, commit: string,
                                               some: seq<Archive>)
    requires TagPattern(tag) && AllAdmitted(manifests, tag, commit)
    requires forall k :: 0 <= k < |some| ==> some[k] in ArchivesOf(manifests)
    ensures ArchivesAdmitted(some)
    decreases |some|
  {
    if some != [] {
      ArchiveFromManifest(manifests, tag, commit, some[0]);
      AllArchivesAdmitted(manifests, tag, commit, some[1..]);
    }
  }

  /**
   * One admitted manifest for each supported target, and no other: their archives in the order of the targets. The
   * result is an identity for which rendering and parsing are inverse.
   */
  method LoadManifests(manifests: seq<Manifest>, tag: string, commit: string) returns (r: Result<Identity>)
    ensures r.Ok? <==>
              && ValidTag(tag) && Hex(commit, 40)
              && AllAdmitted(manifests, tag, commit)
              && OnePerTarget(ArchivesOf(manifests))
    ensures r.Ok? ==>
              && IdentityAdmitted(r.value)
              && r.value.tag == tag && r.value.commit == commit
              && Named(r.value.archives)
                 == ["aarch64-apple-darwin", "x86_64-unknown-linux-gnu", "aarch64-unknown-linux-gnu"]
              && forall k :: 0 <= k < |r.value.archives| ==>
                   SomeRecords(manifests, tag, commit, r.value.archives[k])
  {
    if !ValidTag(tag) {
      return Err("invalid release tag");
    }
    if !Hex(commit, 40) {
      return Err("source commit must be a full lowercase SHA-1");
    }
    var archives := Collect(manifests, tag, commit);
    if archives.None? {
      return Err("release manifest rejected");
    }
    if !OnePerTarget(archives.value) {
      return Err("expected exactly one release manifest per supported target");
    }
    var ordered := InOrder(archives.value);
    AllArchivesAdmitted(manifests, tag, commit, ordered);
    forall k | 0 <= k < |ordered|
      ensures SomeRecords(manifests, tag, commit, ordered[k])
    {
      AllRecorded(manifests, tag, commit, ordered[k]);
    }
    r := Ok(Identity(ordered, commit, tag));
  }
}
