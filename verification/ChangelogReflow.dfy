/** The changelog section of a release, its wrapped lines joined (`changelog_section` in scripts/release-notes.py). */
module ChangelogReflow {
  import opened Text
  import opened PageFormat
  import opened WordSearch
  import Seqs

  const MAX_CHANGELOG_BYTES := 1048576

  // ----- strip -----

  function LStrip(s: string): string {
    if s != "" && IsSpace(s[0]) then LStrip(s[1..]) else s
  }

  function RStrip(s: string): string {
    if s != "" && IsSpace(s[|s| - 1]) then RStrip(s[..|s| - 1]) else s
  }

  function Strip(s: string): string {
    RStrip(LStrip(s))
  }

  /** Neither end is white space, and there is something between. */
  predicate Tight(s: string) {
    s != "" && !IsSpace(s[0]) && !IsSpace(s[|s| - 1])
  }

  lemma {:induction false} LStripHead(s: string)
    ensures Blank(s) <==> LStrip(s) == ""
    ensures LStrip(s) != "" ==> !IsSpace(LStrip(s)[0])
  {
    if s != "" && IsSpace(s[0]) {
      LStripHead(s[1..]);
      assert Blank(s[1..]) ==> Blank(s) by {
        assert s == [s[0]] + s[1..];
      }
      if Blank(s) {
        assert forall i :: 0 <= i < |s[1..]| ==> s[1..][i] == s[i + 1];
      }
    }
  }

  lemma {:induction false} RStripTight(s: string)
    requires s != "" && !IsSpace(s[0])
    ensures Tight(RStrip(s)) && RStrip(s)[0] == s[0]
    ensures |RStrip(s)| <= |s| && RStrip(s) == s[..|RStrip(s)|]
  {
    if IsSpace(s[|s| - 1]) {
      RStripTight(s[..|s| - 1]);
    }
  }

  /** Stripping a line that is not blank leaves a tight text; stripping that changes nothing. */
  lemma StripTight(s: string)
    ensures Blank(s) <==> Strip(s) == ""
    ensures !Blank(s) ==> Tight(Strip(s))
  {
    LStripHead(s);
    if LStrip(s) != "" {
      RStripTight(LStrip(s));
    }
  }

  lemma TightStays(s: string)
    requires Tight(s)
    ensures LStrip(s) == s && RStrip(s) == s && Strip(s) == s && !Blank(s)
  {
  }

  lemma {:induction false} LStripMentions(word: WordClass, s: string)
    ensures Mentions(word, LStrip(s)) <==> Mentions(word, s)
  {
    if s != "" && IsSpace(s[0]) {
      LStripMentions(word, s[1..]);
      MentionsAround(word, "", s[0], s[1..]);
      Seqs.Tail(s, 0);
      assert "" + [s[0]] + s[1..] == s;
    }
  }

  lemma {:induction false} RStripMentions(word: WordClass, s: string)
    ensures Mentions(word, RStrip(s)) <==> Mentions(word, s)
  {
    if s != "" && IsSpace(s[|s| - 1]) {
      RStripMentions(word, s[..|s| - 1]);
      MentionsAround(word, s[..|s| - 1], s[|s| - 1], "");
      assert s[..|s| - 1] + [s[|s| - 1]] + "" == s;
    }
  }

  /** Stripping a line neither makes a mention nor hides one. */
  lemma StripMentions(word: WordClass, s: string)
    ensures Mentions(word, Strip(s)) <==> Mentions(word, s)
  {
    LStripMentions(word, s);
    RStripMentions(word, LStrip(s));
  }

  // ----- bullets -----

  predicate Bullet(line: string) {
    |line| >= 2 && line[0] == '-' && line[1] == ' '
  }

  predicate BulletWithText(line: string) {
    Bullet(line) && !Blank(line[2..])
  }

  predicate Continuation(line: string) {
    |line| >= 2 && line[0] == ' ' && line[1] == ' ' && !Blank(line)
  }

  lemma TightOrNot(line: string)
    requires Bullet(line)
    ensures !IsSpace(line[0]) && LStrip(line) == line && !Blank(line)
  {
    assert !IsSpace('-');
  }

  /** Stripping the end never reaches past the last character that is not white space. */
  lemma {:induction false} LastText(line: string)
    requires BulletWithText(line)
    ensures BulletWithText(RStrip(line))
  {
    if IsSpace(line[|line| - 1]) {
      var shorter := line[..|line| - 1];
      var k :| 0 <= k < |line[2..]| && !IsSpace(line[2..][k]);
      assert line[2 + k] == line[2..][k];
      assert k < |shorter[2..]| && shorter[2..][k] == line[2..][k];
      LastText(shorter);
    }
  }

  lemma BulletStrips(line: string)
    requires BulletWithText(line)
    ensures !Blank(line) && Strip(line) == RStrip(line) && Tight(RStrip(line)) && BulletWithText(RStrip(line))
  {
    TightOrNot(line);
    RStripTight(line);
    LastText(line);
  }

  // ----- paragraphs -----

  /** Runs of lines that are not blank, each line stripped; `current` is the run that is still open. */
  function Runs(lines: seq<string>, current: seq<string>): seq<seq<string>>
    decreases |lines|
  {
    if lines == [] then (if current == [] then [] else [current])
    else if !Blank(lines[0]) then Runs(lines[1..], current + [Strip(lines[0])])
    else (if current == [] then [] else [current]) + Runs(lines[1..], [])
  }

  /** Bullets with their continuations; `done` are the ones before. `None` where a line is neither. */
  function Gather(lines: seq<string>, done: seq<seq<string>>): Option<seq<seq<string>>>
    decreases |lines|
  {
    if lines == [] then Some(done)
    else if BulletWithText(lines[0]) then Gather(lines[1..], done + [[RStrip(lines[0])]])
    else if Continuation(lines[0]) then
      if done == [] then None
      else Gather(lines[1..], done[|done| - 1 := done[|done| - 1] + [Strip(lines[0])]])
    else if !Blank(lines[0]) then None
    else Gather(lines[1..], done)
  }

  function FirstBullet(section: seq<string>): (k: nat)
    ensures k <= |section|
  {
    if section == [] || Bullet(section[0]) then 0 else 1 + FirstBullet(section[1..])
  }

  /** One text for each group: its lines joined by blanks. */
  function Texts(groups: seq<seq<string>>): seq<string> {
    if groups == [] then [] else [Join(" ", groups[0])] + Texts(groups[1..])
  }

  datatype Section = Section(paragraphs: seq<string>, bullets: seq<string>)

  predicate Heading(line: string) {
    |line| >= 2 && line[0] == '#' && (line[1] == ' ' || (|line| >= 3 && line[1] == '#' && line[2] == ' '))
  }

  /** The section's lines after its heading, up to the next heading of the first or second level. */
  function Body(lines: seq<string>): seq<string> {
    if lines == [] || Heading(lines[0]) then [] else [lines[0]] + Body(lines[1..])
  }

  /** `"\n".join(body).strip("\n").split("\n")` where something is left. */
  function Trim(lines: seq<string>): seq<string>
    decreases |lines|
  {
    if lines == [] then []
    else if lines[0] == "" then Trim(lines[1..])
    else if lines[|lines| - 1] == "" then Trim(lines[..|lines| - 1])
    else lines
  }

  predicate AllBlank(lines: seq<string>) {
    lines == [] || (Blank(lines[0]) && AllBlank(lines[1..]))
  }

  /** A section that still mentions "unreleased" is refused. */
  function Reflow(word: WordClass, lines: seq<string>): Result<Section> {
    var section := Trim(Body(lines));
    var k := FirstBullet(section);
    if AllBlank(section) then Err("section is empty")
    else if Mentions(word, Join("\n", section)) then Err("section still says Unreleased")
    else if k == |section| then Err("section has no change bullets")
    else if Runs(section[..k], []) == [] then Err("section has no summary paragraph")
    else
      match Gather(section[k..], [])
      case None => Err("section has text after its change bullets")
      case Some(bullets) => Ok(Section(Texts(Runs(section[..k], [])), Texts(bullets)))
  }

  // ----- every line lands once, in order -----

  function Flatten(groups: seq<seq<string>>): seq<string> {
    if groups == [] then [] else groups[0] + Flatten(groups[1..])
  }

  /** The lines that are not blank, stripped. */
  function Filled(lines: seq<string>): seq<string> {
    if lines == [] then []
    else (if Blank(lines[0]) then [] else [Strip(lines[0])]) + Filled(lines[1..])
  }

  lemma {:induction false} FlattenAppend(a: seq<seq<string>>, b: seq<seq<string>>)
    ensures Flatten(a + b) == Flatten(a) + Flatten(b)
  {
    if a == [] {
      assert a + b == b;
    } else {
      assert (a + b)[1..] == a[1..] + b;
      FlattenAppend(a[1..], b);
    }
  }

  lemma {:induction false} FilledAppend(a: seq<string>, b: seq<string>)
    ensures Filled(a + b) == Filled(a) + Filled(b)
  {
    if a == [] {
      assert a + b == b;
    } else {
      assert (a + b)[1..] == a[1..] + b;
      FilledAppend(a[1..], b);
    }
  }

  lemma {:induction false} RunsConserve(lines: seq<string>, current: seq<string>)
    ensures Flatten(Runs(lines, current)) == current + Filled(lines)
    decreases |lines|
  {
    if lines == [] {
      if current != [] {
        assert Flatten([current]) == current + Flatten([]);
      }
    } else if !Blank(lines[0]) {
      RunsConserve(lines[1..], current + [Strip(lines[0])]);
      Seqs.Assoc(current, [Strip(lines[0])], Filled(lines[1..]));
    } else {
      RunsConserve(lines[1..], []);
      if current == [] {
        Seqs.Empty(Runs(lines[1..], []));
      } else {
        Seqs.Cons(current, [], Runs(lines[1..], []));
      }
    }
  }

  lemma FlattenExtendLast(groups: seq<seq<string>>, line: string)
    requires groups != []
    ensures Flatten(groups[|groups| - 1 := groups[|groups| - 1] + [line]]) == Flatten(groups) + [line]
  {
    var front, last := groups[..|groups| - 1], groups[|groups| - 1];
    assert groups == front + [last];
    assert groups[|groups| - 1 := last + [line]] == front + [last + [line]];
    FlattenAppend(front, [last]);
    FlattenAppend(front, [last + [line]]);
    assert Flatten([last]) == last && Flatten([last + [line]]) == last + [line];
  }

  lemma {:induction false} GatherConserves(lines: seq<string>, done: seq<seq<string>>)
    requires Gather(lines, done).Some?
    ensures Flatten(Gather(lines, done).value) == Flatten(done) + Filled(lines)
    decreases |lines|
  {
    if lines == [] {
    } else if BulletWithText(lines[0]) {
      BulletStrips(lines[0]);
      FlattenAppend(done, [[RStrip(lines[0])]]);
      assert Flatten([[RStrip(lines[0])]]) == [RStrip(lines[0])];
      GatherConserves(lines[1..], done + [[RStrip(lines[0])]]);
      Seqs.Assoc(Flatten(done), [RStrip(lines[0])], Filled(lines[1..]));
    } else if Continuation(lines[0]) {
      FlattenExtendLast(done, Strip(lines[0]));
      GatherConserves(lines[1..], done[|done| - 1 := done[|done| - 1] + [Strip(lines[0])]]);
      Seqs.Assoc(Flatten(done), [Strip(lines[0])], Filled(lines[1..]));
    } else {
      GatherConserves(lines[1..], done);
      Seqs.Empty(Filled(lines[1..]));
    }
  }

  lemma {:induction false} TrimFilled(lines: seq<string>)
    ensures Filled(Trim(lines)) == Filled(lines)
    decreases |lines|
  {
    if lines == [] {
    } else if lines[0] == "" {
      TrimFilled(lines[1..]);
      Seqs.Empty(Filled(lines[1..]));
    } else if lines[|lines| - 1] == "" {
      TrimFilled(lines[..|lines| - 1]);
      Seqs.Cut(lines, |lines| - 1);
      FilledAppend(lines[..|lines| - 1], lines[|lines| - 1..]);
      assert lines[|lines| - 1..] == [""];
      assert Filled([""]) == [] + Filled([]);
    }
  }

  /**
   * Every line of the section that is not blank lands, stripped and in order, in exactly one paragraph or bullet, and
   * nothing else does.
   */
  lemma ReflowConserves(word: WordClass, lines: seq<string>)
    requires Reflow(word, lines).Ok?
    ensures exists paragraphs, bullets ::
              && Reflow(word, lines).value == Section(Texts(paragraphs), Texts(bullets))
              && Flatten(paragraphs) + Flatten(bullets) == Filled(Body(lines))
  {
    var section := Trim(Body(lines));
    var k := FirstBullet(section);
    var paragraphs, bullets := Runs(section[..k], []), Gather(section[k..], []).value;
    RunsConserve(section[..k], []);
    GatherConserves(section[k..], []);
    FilledAppend(section[..k], section[k..]);
    Seqs.Cut(section, k);
    TrimFilled(Body(lines));
    Seqs.Empty(Filled(section[..k]));
    Seqs.Empty(Filled(section[k..]));
  }

  // ----- reading the reflowed section again -----

  /** A text that may stand for a paragraph, and one that may stand for a bullet. */
  predicate IsParagraph(text: string) { Tight(text) }

  predicate IsBullet(text: string) { Tight(text) && BulletWithText(text) }

  predicate TightGroup(group: seq<string>) {
    group != [] && forall i :: 0 <= i < |group| ==> Tight(group[i])
  }

  predicate BulletGroup(group: seq<string>) {
    TightGroup(group) && BulletWithText(group[0])
  }

  lemma Ends(a: string, b: string)
    requires a != "" && !IsSpace(a[0]) && Tight(b)
    ensures Tight(a + b)
  {
  }

  lemma {:induction false} JoinTight(group: seq<string>)
    requires TightGroup(group)
    ensures Tight(Join(" ", group)) && group[0] <= Join(" ", group)
  {
    if |group| > 1 {
      JoinTight(group[1..]);
      Ends(group[0] + " ", Join(" ", group[1..]));
    }
  }

  lemma JoinBullet(group: seq<string>)
    requires BulletGroup(group)
    ensures IsBullet(Join(" ", group))
  {
    JoinTight(group);
    var head, text := group[0], Join(" ", group);
    var k :| 0 <= k < |head[2..]| && !IsSpace(head[2..][k]);
    assert text[2..][k] == text[2 + k] == head[2 + k] == head[2..][k];
  }

  lemma {:induction false} RunsTight(lines: seq<string>, current: seq<string>)
    requires current == [] || TightGroup(current)
    ensures forall i :: 0 <= i < |Runs(lines, current)| ==> TightGroup(Runs(lines, current)[i])
    decreases |lines|
  {
    if lines != [] {
      StripTight(lines[0]);
      RunsTight(lines[1..], if Blank(lines[0]) then [] else current + [Strip(lines[0])]);
    }
  }

  predicate BulletGroups(groups: seq<seq<string>>) {
    forall i :: 0 <= i < |groups| ==> BulletGroup(groups[i])
  }

  lemma {:induction false} GatherBullets(lines: seq<string>, done: seq<seq<string>>)
    requires Gather(lines, done).Some? && BulletGroups(done)
    ensures BulletGroups(Gather(lines, done).value) && |done| <= |Gather(lines, done).value|
    decreases |lines|
  {
    if lines == [] {
    } else if BulletWithText(lines[0]) {
      BulletStrips(lines[0]);
      GatherBullets(lines[1..], done + [[RStrip(lines[0])]]);
    } else if Continuation(lines[0]) {
      StripTight(lines[0]);
      GatherBullets(lines[1..], done[|done| - 1 := done[|done| - 1] + [Strip(lines[0])]]);
    } else {
      GatherBullets(lines[1..], done);
    }
  }

  predicate AllParagraphs(texts: seq<string>) {
    texts == [] || (IsParagraph(texts[0]) && AllParagraphs(texts[1..]))
  }

  predicate AllBullets(texts: seq<string>) {
    texts == [] || (IsBullet(texts[0]) && AllBullets(texts[1..]))
  }

  lemma {:induction false} TextsOfGroups(groups: seq<seq<string>>)
    requires forall i :: 0 <= i < |groups| ==> TightGroup(groups[i])
    ensures AllParagraphs(Texts(groups)) && |Texts(groups)| == |groups|
    ensures BulletGroups(groups) ==> AllBullets(Texts(groups))
  {
    if groups != [] {
      TextsOfGroups(groups[1..]);
      JoinTight(groups[0]);
      if BulletGroups(groups) {
        JoinBullet(groups[0]);
        assert forall i :: 0 <= i < |groups[1..]| ==> groups[1..][i] == groups[i + 1];
      }
    }
  }

  /** What a reflowed section is made of. */
  predicate WellFormed(s: Section) {
    s.paragraphs != [] && s.bullets != [] && AllParagraphs(s.paragraphs) && AllBullets(s.bullets)
  }

  lemma {:induction false} FirstBulletFound(section: seq<string>)
    ensures forall i :: 0 <= i < FirstBullet(section) ==> !Bullet(section[i])
    ensures FirstBullet(section) < |section| ==> Bullet(section[FirstBullet(section)])
  {
    if section != [] && !Bullet(section[0]) {
      FirstBulletFound(section[1..]);
      assert forall i :: 1 <= i < |section| ==> section[i] == section[1..][i - 1];
    }
  }

  lemma FirstGathered(lines: seq<string>)
    requires lines != [] && Bullet(lines[0]) && Gather(lines, []).Some?
    ensures Gather(lines, []).value != [] && BulletGroups(Gather(lines, []).value)
  {
    TightOrNot(lines[0]);
    if BulletWithText(lines[0]) {
      BulletStrips(lines[0]);
      GatherBullets(lines[1..], [] + [[RStrip(lines[0])]]);
    }
  }

  /** There is always a summary and a change, and each of them is one line without white space at its ends. */
  lemma ReflowWellFormed(word: WordClass, lines: seq<string>)
    requires Reflow(word, lines).Ok?
    ensures WellFormed(Reflow(word, lines).value)
  {
    var section := Trim(Body(lines));
    var k := FirstBullet(section);
    FirstBulletFound(section);
    RunsTight(section[..k], []);
    TextsOfGroups(Runs(section[..k], []));
    FirstGathered(section[k..]);
    TextsOfGroups(Gather(section[k..], []).value);
  }

  lemma {:induction false} FirstBulletAt(section: seq<string>, k: nat)
    requires k <= |section| && forall i :: 0 <= i < k ==> !Bullet(section[i])
    requires k == |section| || Bullet(section[k])
    ensures FirstBullet(section) == k
  {
    if k > 0 {
      assert forall i :: 0 <= i < |section| - 1 ==> section[1..][i] == section[i + 1];
      FirstBulletAt(section[1..], k - 1);
    }
  }

  // ----- the lines of a reflowed section -----

  function Spread(paragraphs: seq<string>): seq<string> {
    if paragraphs == [] then [] else [paragraphs[0], ""] + Spread(paragraphs[1..])
  }

  /** The lines of the paragraphs, each followed by an empty line, and of the bullets. */
  function Lines(s: Section): seq<string> {
    Spread(s.paragraphs) + s.bullets
  }

  /** A paragraph that reads as a bullet or as a heading. */
  predicate Stops(text: string) {
    Bullet(text) || Heading(text)
  }

  predicate NoneStops(paragraphs: seq<string>) {
    paragraphs == [] || (!Stops(paragraphs[0]) && NoneStops(paragraphs[1..]))
  }

  function Running(paragraphs: seq<string>): (n: nat)
    ensures n <= |paragraphs|
  {
    if paragraphs == [] || Stops(paragraphs[0]) then 0 else 1 + Running(paragraphs[1..])
  }

  lemma {:induction false} RunningAll(paragraphs: seq<string>)
    ensures Running(paragraphs) == |paragraphs| <==> NoneStops(paragraphs)
  {
    if paragraphs != [] {
      RunningAll(paragraphs[1..]);
    }
  }

  lemma TwoAhead(a: string, b: string, s: seq<string>, tail: seq<string>)
    ensures ([a, b] + s) + tail == [a, b] + (s + tail)
  {
  }

  lemma BodyTwo(p: string, rest: seq<string>)
    requires !Heading(p)
    ensures Body([p, ""] + rest) == [p, ""] + Body(rest)
  {
    var s := [p, ""] + rest;
    assert s[1..] == [""] + rest && s[1..][1..] == rest;
  }

  lemma FirstBulletTwo(p: string, y: seq<string>)
    requires !Bullet(p)
    ensures FirstBullet([p, ""] + y) == 2 + FirstBullet(y)
  {
    var s := [p, ""] + y;
    assert s[1..] == [""] + y && s[1..][1..] == y;
  }

  lemma RunsTwo(p: string, y: seq<string>)
    requires Tight(p) && Strip(p) == p && !Blank(p)
    ensures Texts(Runs([p, ""] + y, [])) == [p] + Texts(Runs(y, []))
  {
    var s := [p, ""] + y;
    assert s[1..] == [""] + y && s[1..][1..] == y;
    assert [] + [p] == [p];
    assert Runs(s[1..], [p]) == [[p]] + Runs(y, []);
    assert ([[p]] + Runs(y, []))[1..] == Runs(y, []);
  }

  lemma {:induction false} SpreadReread(paragraphs: seq<string>, tail: seq<string>)
    requires AllParagraphs(paragraphs) && tail != [] && Bullet(tail[0])
    ensures var x := Body(Spread(paragraphs) + tail);
            Texts(Runs(x[..FirstBullet(x)], [])) == paragraphs[..Running(paragraphs)]
  {
    var x := Body(Spread(paragraphs) + tail);
    if paragraphs == [] {
      Seqs.Empty(tail);
      assert x[0] == tail[0];
    } else if Stops(paragraphs[0]) {
      assert (Spread(paragraphs) + tail)[0] == paragraphs[0];
    } else {
      var p, rest := paragraphs[0], Spread(paragraphs[1..]) + tail;
      SpreadReread(paragraphs[1..], tail);
      TwoAhead(p, "", Spread(paragraphs[1..]), tail);
      var y := Body(rest);
      BodyTwo(p, rest);
      FirstBulletTwo(p, y);
      TightStays(p);
      RunsTwo(p, y[..FirstBullet(y)]);
      assert x[..FirstBullet(x)] == [p, ""] + y[..FirstBullet(y)];
      assert paragraphs[..Running(paragraphs)] == [p] + paragraphs[1..][..Running(paragraphs[1..])];
    }
  }

  lemma {:induction false} TrimFront(x: seq<string>)
    requires x != [] && x[0] != ""
    ensures var t := Trim(x);
            && 1 <= |t| <= |x|
            && t == x[..|t|]
            && forall i :: |t| <= i < |x| ==> x[i] == ""
    decreases |x|
  {
    if x[|x| - 1] == "" {
      TrimFront(x[..|x| - 1]);
    }
  }

  lemma {:induction false} FirstBulletPrefix(x: seq<string>, m: nat)
    requires m <= |x| && FirstBullet(x[..m]) < m
    ensures FirstBullet(x) == FirstBullet(x[..m])
  {
    assert x[..m][0] == x[0];
    if !Bullet(x[0]) {
      assert x[..m][1..] == x[1..][..m - 1];
      FirstBulletPrefix(x[1..], m - 1);
    }
  }

  lemma TrimKeepsFirstBullet(x: seq<string>)
    requires x != [] && x[0] != ""
    requires FirstBullet(Trim(x)) < |Trim(x)|
    ensures FirstBullet(x) == FirstBullet(Trim(x)) && x[..FirstBullet(x)] == Trim(x)[..FirstBullet(x)]
  {
    TrimFront(x);
    var m := |Trim(x)|;
    FirstBulletPrefix(x, m);
    Seqs.SliceOfTake(x, m, 0, FirstBullet(x));
  }

  lemma {:induction false} BodyAll(lines: seq<string>)
    requires forall i :: 0 <= i < |lines| ==> !Heading(lines[i])
    ensures Body(lines) == lines
  {
    if lines != [] {
      assert forall i :: 0 <= i < |lines[1..]| ==> lines[1..][i] == lines[i + 1];
      BodyAll(lines[1..]);
    }
  }

  lemma {:induction false} SpreadLines(paragraphs: seq<string>)
    requires AllParagraphs(paragraphs) && NoneStops(paragraphs)
    ensures forall i :: 0 <= i < |Spread(paragraphs)| ==> !Stops(Spread(paragraphs)[i])
  {
    if paragraphs != [] {
      SpreadLines(paragraphs[1..]);
    }
  }

  lemma {:induction false} BulletLines(bullets: seq<string>)
    requires AllBullets(bullets)
    ensures forall i :: 0 <= i < |bullets| ==> Bullet(bullets[i]) && bullets[i] != ""
  {
    if bullets != [] {
      BulletLines(bullets[1..]);
      assert bullets == [bullets[0]] + bullets[1..];
    }
  }

  function Singles(texts: seq<string>): seq<seq<string>> {
    if texts == [] then [] else [[texts[0]]] + Singles(texts[1..])
  }

  lemma {:induction false} SinglesTexts(texts: seq<string>)
    ensures Texts(Singles(texts)) == texts
  {
    if texts != [] {
      SinglesTexts(texts[1..]);
      assert Singles(texts)[1..] == Singles(texts[1..]);
    }
  }

  lemma {:induction false} GatherSingles(bullets: seq<string>, done: seq<seq<string>>)
    requires AllBullets(bullets)
    ensures Gather(bullets, done) == Some(done + Singles(bullets))
    decreases |bullets|
  {
    if bullets == [] {
      Seqs.Empty(done);
    } else {
      TightStays(bullets[0]);
      GatherSingles(bullets[1..], done + [[bullets[0]]]);
      Seqs.Assoc(done, [[bullets[0]]], Singles(bullets[1..]));
    }
  }

  /** Without a paragraph that reads as something else, the section is read back as it is. */
  lemma RereadWhole(s: Section)
    requires WellFormed(s) && NoneStops(s.paragraphs)
    ensures var x := Lines(s);
            && Body(x) == x && Trim(x) == x
            && FirstBullet(x) == |Spread(s.paragraphs)| < |x|
            && x[FirstBullet(x)..] == s.bullets
            && x[0] == s.paragraphs[0]
  {
    var x := Lines(s);
    var n := |Spread(s.paragraphs)|;
    SpreadLines(s.paragraphs);
    BulletLines(s.bullets);
    assert forall i :: n <= i < |x| ==> x[i] == s.bullets[i - n];
    BodyAll(x);
    FirstBulletAt(x, n);
    assert x[|x| - 1] != "" && x[0] == s.paragraphs[0];
  }

  lemma RereadOk(word: WordClass, s: Section)
    requires WellFormed(s) && !Mentions(word, Join("\n", Lines(s)))
    requires Body(Lines(s)) == Lines(s) && Trim(Lines(s)) == Lines(s)
    requires FirstBullet(Lines(s)) < |Lines(s)| && Lines(s)[0] == s.paragraphs[0]
    requires Texts(Runs(Lines(s)[..FirstBullet(Lines(s))], [])) == s.paragraphs
    requires Gather(Lines(s)[FirstBullet(Lines(s))..], []) == Some(Singles(s.bullets))
    requires Texts(Singles(s.bullets)) == s.bullets
    ensures Reflow(word, Lines(s)) == Ok(s)
  {
    TightStays(s.paragraphs[0]);
  }

  lemma RereadParagraphs(word: WordClass, s: Section)
    requires WellFormed(s) && Reflow(word, Lines(s)) == Ok(s)
    ensures var x := Body(Lines(s)); Texts(Runs(x[..FirstBullet(x)], [])) == s.paragraphs
  {
    var x := Body(Lines(s));
    assert Lines(s)[0] == s.paragraphs[0];
    TrimKeepsFirstBullet(x);
  }

  /**
   * Reading a section in reflowed form gives the same summary and changes, exactly when none of its paragraphs reads
   * as a bullet or a heading.
   */
  lemma RereadSame(word: WordClass, s: Section)
    requires WellFormed(s) && !Mentions(word, Join("\n", Lines(s)))
    ensures Reflow(word, Lines(s)) == Ok(s) <==> NoneStops(s.paragraphs)
  {
    BulletLines(s.bullets);
    SpreadReread(s.paragraphs, s.bullets);
    RunningAll(s.paragraphs);
    assert s.paragraphs[..|s.paragraphs|] == s.paragraphs;
    if NoneStops(s.paragraphs) {
      RereadWhole(s);
      GatherSingles(s.bullets, []);
      Seqs.Empty(Singles(s.bullets));
      SinglesTexts(s.bullets);
      RereadOk(word, s);
    } else if Reflow(word, Lines(s)) == Ok(s) {
      RereadParagraphs(word, s);
    }
  }

  // ----- reflowing makes no mention -----

  lemma {:induction false} FilledMentions(word: WordClass, lines: seq<string>)
    ensures AnyMentions(word, Filled(lines)) <==> AnyMentions(word, lines)
  {
    if lines != [] {
      FilledMentions(word, lines[1..]);
      StripMentions(word, lines[0]);
      StripTight(lines[0]);
      if Blank(lines[0]) {
        Seqs.Empty(Filled(lines[1..]));
      } else {
        Seqs.Cons(Strip(lines[0]), Filled(lines[1..]), []);
      }
    }
  }

  lemma {:induction false} TextsMention(word: WordClass, groups: seq<seq<string>>)
    ensures AnyMentions(word, Texts(groups)) <==> AnyMentions(word, Flatten(groups))
  {
    if groups != [] {
      TextsMention(word, groups[1..]);
      JoinMentions(word, ' ', groups[0]);
      Seqs.Cons(Join(" ", groups[0]), Texts(groups[1..]), []);
      AnyAppend(word, groups[0], Flatten(groups[1..]));
    }
  }

  lemma {:induction false} SpreadMentions(word: WordClass, paragraphs: seq<string>)
    ensures AnyMentions(word, Spread(paragraphs)) <==> AnyMentions(word, paragraphs)
  {
    if paragraphs != [] {
      SpreadMentions(word, paragraphs[1..]);
      Seqs.Cons(paragraphs[0], [""] + Spread(paragraphs[1..]), []);
      Seqs.Cons("", Spread(paragraphs[1..]), []);
      assert Spread(paragraphs) == [paragraphs[0]] + ([""] + Spread(paragraphs[1..]));
    }
  }

  /** Joining and stripping make no mention, so the reflowed text of a section is never refused for the word. */
  lemma ReflowNeverMentions(word: WordClass, lines: seq<string>)
    requires Reflow(word, lines).Ok?
    ensures !Mentions(word, Join("\n", Lines(Reflow(word, lines).value)))
  {
    var s, section := Reflow(word, lines).value, Trim(Body(lines));
    ReflowConserves(word, lines);
    var paragraphs, bullets :| s == Section(Texts(paragraphs), Texts(bullets))
                               && Flatten(paragraphs) + Flatten(bullets) == Filled(Body(lines));
    JoinMentions(word, '\n', section);
    TrimFilled(Body(lines));
    FilledMentions(word, section);
    TextsMention(word, paragraphs);
    TextsMention(word, bullets);
    AnyAppend(word, Flatten(paragraphs), Flatten(bullets));
    SpreadMentions(word, s.paragraphs);
    AnyAppend(word, Spread(s.paragraphs), s.bullets);
    JoinMentions(word, '\n', Lines(s));
  }

  // ----- exactly which sections read the same again -----

  /** The lines before the first bullet. */
  function Summary(lines: seq<string>): seq<string> {
    var section := Trim(Body(lines));
    section[..FirstBullet(section)]
  }

  /** The lines that the summary's paragraphs are joined from, stripped. */
  function SummaryRuns(lines: seq<string>): seq<seq<string>> {
    Runs(Summary(lines), [])
  }

  /** A dash or a heading's signs alone on the first line, which the next line's text then follows after a blank. */
  predicate BareMark(run: seq<string>) {
    |run| > 1 && run[0] in {"-", "#", "##"}
  }

  /** A run whose paragraph reads as a bullet or a heading. */
  predicate Misreads(run: seq<string>) {
    run != [] && (Stops(run[0]) || BareMark(run))
  }

  lemma MarkStops(head: string, rest: string)
    requires Tight(head) && Tight(rest)
    ensures Stops(head + " " + rest) <==> Stops(head) || head in {"-", "#", "##"}
  {
    var text := head + " " + rest;
    assert head <= text && text[|head|] == ' ';
    assert |head| == 1 ==> head == [head[0]];
    assert |head| == 2 ==> head == [head[0], head[1]];
  }

  lemma JoinStops(run: seq<string>)
    requires TightGroup(run)
    ensures Stops(Join(" ", run)) <==> Misreads(run)
  {
    JoinTight(run);
    var head, text := run[0], Join(" ", run);
    if |run| > 1 {
      assert text == head + " " + Join(" ", run[1..]);
      MarkStops(head, Join(" ", run[1..]));
    }
  }

  lemma {:induction false} NoneMisread(runs: seq<seq<string>>)
    requires forall i :: 0 <= i < |runs| ==> TightGroup(runs[i])
    ensures NoneStops(Texts(runs)) <==> forall run :: run in runs ==> !Misreads(run)
  {
    if runs != [] {
      JoinStops(runs[0]);
      NoneMisread(runs[1..]);
      Seqs.Cons(Join(" ", runs[0]), Texts(runs[1..]), []);
      assert forall run :: run in runs <==> run == runs[0] || run in runs[1..];
    }
  }

  /**
   * The reflowed form of a section is a fixed point exactly when no run of lines in its summary begins with a line
   * that reads, stripped, as a bullet or a heading, or with a mark alone on its line.
   */
  lemma RereadExactly(word: WordClass, lines: seq<string>)
    requires Reflow(word, lines).Ok?
    ensures var s := Reflow(word, lines).value;
            Reflow(word, Lines(s)) == Ok(s) <==> forall run :: run in SummaryRuns(lines) ==> !Misreads(run)
  {
    ReflowWellFormed(word, lines);
    ReflowNeverMentions(word, lines);
    RereadSame(word, Reflow(word, lines).value);
    RunsTight(Summary(lines), []);
    NoneMisread(SummaryRuns(lines));
  }

  predicate Quiet(run: seq<string>) {
    forall i :: 0 <= i < |run| ==> !Stops(run[i])
  }

  lemma {:induction false} RunsQuiet(lines: seq<string>, current: seq<string>)
    requires Quiet(current) && forall i :: 0 <= i < |lines| && !Blank(lines[i]) ==> !Stops(Strip(lines[i]))
    ensures forall run :: run in Runs(lines, current) ==> Quiet(run)
    decreases |lines|
  {
    if lines != [] {
      assert forall i :: 0 <= i < |lines[1..]| ==> lines[1..][i] == lines[i + 1];
      RunsQuiet(lines[1..], if Blank(lines[0]) then [] else current + [Strip(lines[0])]);
    }
  }

  predicate Indented(line: string) {
    line != "" && IsSpace(line[0])
  }

  lemma StripQuiet(line: string)
    requires !Indented(line) && !Blank(line) && !Stops(line)
    ensures !Stops(Strip(line))
  {
    RStripTight(line);
    assert LStrip(line) == line;
    assert Strip(line) <= line;
  }

  lemma {:induction false} BodyQuiet(lines: seq<string>)
    ensures forall i :: 0 <= i < |Body(lines)| ==> !Heading(Body(lines)[i])
  {
    if Body(lines) != [] {
      BodyQuiet(lines[1..]);
    }
  }

  lemma {:induction false} TrimQuiet(lines: seq<string>)
    requires forall i :: 0 <= i < |lines| ==> !Heading(lines[i])
    ensures forall i :: 0 <= i < |Trim(lines)| ==> !Heading(Trim(lines)[i])
    decreases |lines|
  {
    if lines != [] {
      if lines[0] == "" {
        TrimQuiet(lines[1..]);
      } else if lines[|lines| - 1] == "" {
        TrimQuiet(lines[..|lines| - 1]);
      }
    }
  }

  lemma SummaryQuiet(lines: seq<string>)
    ensures forall i :: 0 <= i < |Summary(lines)| ==> !Stops(Summary(lines)[i])
  {
    BodyQuiet(lines);
    TrimQuiet(Body(lines));
    FirstBulletFound(Trim(Body(lines)));
  }

  /** Where no line of the summary is indented, only a mark alone on the first of several lines can be misread. */
  lemma RereadProse(word: WordClass, lines: seq<string>)
    requires Reflow(word, lines).Ok?
    requires forall i :: 0 <= i < |Summary(lines)| ==> !Indented(Summary(lines)[i])
    ensures var s := Reflow(word, lines).value;
            Reflow(word, Lines(s)) == Ok(s) <==> forall run :: run in SummaryRuns(lines) ==> !BareMark(run)
  {
    RereadExactly(word, lines);
    SummaryQuiet(lines);
    var prose := Summary(lines);
    forall i | 0 <= i < |prose| && !Blank(prose[i])
      ensures !Stops(Strip(prose[i]))
    {
      StripQuiet(prose[i]);
    }
    RunsQuiet(prose, []);
  }

  lemma IndentedParagraph()
    ensures !Blank(" - a") && Tight("- a") && Bullet("- a")
    ensures Texts(Runs([" - a"], [])) == ["- a"] && Runs([" - a"], []) != []
  {
    assert " - a"[1..] == "- a" && !IsSpace(" - a"[1]);
    assert Strip(" - a") == "- a";
    assert [" - a"][1..] == [];
    assert [] + ["- a"] == ["- a"];
    assert Texts([["- a"]]) == ["- a"] + Texts([]);
  }

  lemma DashBullet()
    ensures IsBullet("- b")
    ensures Gather(["- b"], []) == Some([["- b"]]) && Texts([["- b"]]) == ["- b"]
  {
    assert "- b"[2..] == "b" && !IsSpace("b"[0]);
    assert RStrip("- b") == "- b";
    assert ["- b"][1..] == [];
    assert [] + [["- b"]] == [["- b"]];
    assert Texts([["- b"]]) == ["- b"] + Texts([]);
  }

  /** An indented line that starts with a dash becomes a paragraph that reads as a bullet. */
  lemma IndentedDash(word: WordClass)
    ensures var s := Section(["- a"], ["- b"]);
            && Reflow(word, [" - a", "- b"]) == Ok(s)
            && Reflow(word, Lines(s)) != Ok(s)
  {
    var s := Section(["- a"], ["- b"]);
    var lines := [" - a", "- b"];
    assert lines[1..] == ["- b"] && lines[1..][1..] == [];
    ShortMentions(word, Join("\n", lines));
    IndentedParagraph();
    DashBullet();
    assert lines[..1] == [" - a"];
    assert Body(lines) == lines;
    assert FirstBullet(lines) == 1;
    assert !AllBlank(lines);
    assert WellFormed(s) && !NoneStops(s.paragraphs);
    ReflowNeverMentions(word, lines);
    RereadSame(word, s);
  }

  lemma DashParagraph()
    ensures !Blank("-") && Tight("- x") && Bullet("- x")
    ensures Texts(Runs(["-", "x"], [])) == ["- x"] && Runs(["-", "x"], []) != []
  {
    assert !IsSpace("-"[0]) && !IsSpace("x"[0]);
    assert ["-", "x"][1..] == ["x"] && ["x"][1..] == [];
    assert [] + ["-"] == ["-"] && ["-"] + ["x"] == ["-", "x"];
    assert Runs(["x"], ["-"]) == Runs([], ["-", "x"]) == [["-", "x"]];
    assert Join(" ", ["-", "x"]) == "-" + " " + Join(" ", ["x"]) == "- x";
    assert Texts([["-", "x"]]) == ["- x"] + Texts([]);
  }

  /** Without any indentation, so does a dash alone on its line. */
  lemma BareDash(word: WordClass)
    ensures var s := Section(["- x"], ["- b"]);
            && Reflow(word, ["-", "x", "- b"]) == Ok(s)
            && Reflow(word, Lines(s)) != Ok(s)
  {
    var s := Section(["- x"], ["- b"]);
    var lines := ["-", "x", "- b"];
    assert lines[1..] == ["x", "- b"] && lines[1..][1..] == ["- b"] && ["- b"][1..] == [];
    ShortMentions(word, Join("\n", lines));
    DashParagraph();
    DashBullet();
    assert Body(["- b"]) == ["- b"];
    assert Body(["x", "- b"]) == ["x", "- b"];
    assert Body(lines) == lines;
    assert FirstBullet(["- b"]) == 0 && FirstBullet(["x", "- b"]) == 1;
    assert FirstBullet(lines) == 2;
    assert lines[..2] == ["-", "x"] && lines[2..] == ["- b"];
    assert !AllBlank(lines);
    assert WellFormed(s) && !NoneStops(s.paragraphs);
    ReflowNeverMentions(word, lines);
    RereadSame(word, s);
  }

  // ----- the loops -----

  /** `text.split("\n")` */
  function Split(text: string): (lines: seq<string>)
    ensures lines != []
  {
    if text == "" then [""]
    else
      var rest := Split(text[1..]);
      if text[0] == '\n' then [""] + rest else [[text[0]] + rest[0]] + rest[1..]
  }

  lemma {:induction false} SplitJoin(text: string)
    ensures Join("\n", Split(text)) == text
    ensures forall i :: 0 <= i < |Split(text)| ==> '\n' !in Split(text)[i]
  {
    if text != "" {
      SplitJoin(text[1..]);
      var rest := Split(text[1..]);
      if text[0] == '\n' {
        assert ([""] + rest)[1..] == rest;
      } else {
        assert ([[text[0]] + rest[0]] + rest[1..])[1..] == rest[1..];
        if |rest| > 1 {
          Seqs.Cons(text[0], rest[0] + "\n", Join("\n", rest[1..]));
          Seqs.Assoc([text[0]], rest[0], "\n");
        }
      }
    }
  }

  /** `(?: - [0-9]{4}-[0-9]{2}-[0-9]{2})?` */
  predicate Dated(s: string) {
    || s == ""
    || (&& |s| == 13 && s[..3] == " - "
        && AllDigits(s[3..7]) && s[7] == '-' && AllDigits(s[8..10]) && s[10] == '-' && AllDigits(s[11..]))
  }

  predicate Headed(title: string, line: string) {
    title <= line && Dated(line[|title|..])
  }

  /** The whole line is the heading of the release, with or without the tag's `v` and a date. */
  predicate ReleaseHeading(tag: string, line: string)
    requires tag != ""
  {
    Headed("## " + tag[1..], line) || Headed("## v" + tag[1..], line)
  }

  /** Where the headings of the release are. */
  function Starts(tag: string, lines: seq<string>, from: nat): (starts: seq<nat>)
    requires tag != "" && from <= |lines|
    ensures forall i :: 0 <= i < |starts| ==> from <= starts[i] < |lines|
    decreases |lines| - from
  {
    if from == |lines| then []
    else (if ReleaseHeading(tag, lines[from]) then [from] else []) + Starts(tag, lines, from + 1)
  }

  /** The section after the one heading. */
  function SectionIn(word: WordClass, lines: seq<string>, starts: seq<nat>): Result<Section>
    requires forall i :: 0 <= i < |starts| ==> starts[i] < |lines|
  {
    if |starts| == 0 then Err("CHANGELOG.md has no section")
    else if |starts| > 1 then Err("CHANGELOG.md has more than one section")
    else Reflow(word, lines[starts[0] + 1..])
  }

  function SectionOf(word: WordClass, changelog: string, tag: string): Result<Section> {
    if !ValidTag(tag) then Err("invalid release tag")
    else if ByteLength(changelog) > 1048576 then Err("CHANGELOG.md exceeds the size limit")
    else SectionIn(word, Split(changelog), Starts(tag, Split(changelog), 0))
  }

  lemma CloseRun(paragraphs: seq<string>, current: seq<string>, rest: seq<seq<string>>)
    ensures paragraphs + Texts([current] + rest) == (paragraphs + [Join(" ", current)]) + Texts(rest)
  {
    assert ([current] + rest)[1..] == rest;
  }

  method ParagraphsOf(lines: seq<string>) returns (paragraphs: seq<string>)
    ensures paragraphs == Texts(Runs(lines, []))
  {
    var current: seq<string>, i := [], 0;
    paragraphs := [];
    while i < |lines|
      invariant i <= |lines|
      invariant paragraphs + Texts(Runs(lines[i..], current)) == Texts(Runs(lines, []))
    {
      Seqs.Tail(lines, i);
      if !Blank(lines[i]) {
        current := current + [Strip(lines[i])];
      } else if current != [] {
        CloseRun(paragraphs, current, Runs(lines[i + 1..], []));
        paragraphs := paragraphs + [Join(" ", current)];
        current := [];
      } else {
        Seqs.Empty(Runs(lines[i + 1..], []));
      }
      i := i + 1;
    }
    if current != [] {
      CloseRun(paragraphs, current, []);
      Seqs.Empty([current]);
      Seqs.Empty(paragraphs + [Join(" ", current)]);
      paragraphs := paragraphs + [Join(" ", current)];
    }
  }

  lemma TextsAppend(a: seq<seq<string>>, b: seq<seq<string>>)
    ensures Texts(a + b) == Texts(a) + Texts(b)
  {
    if a == [] {
      assert a + b == b;
    } else {
      assert (a + b)[1..] == a[1..] + b;
      TextsAppend(a[1..], b);
    }
  }

  lemma {:induction false} JoinExtend(group: seq<string>, line: string)
    requires group != []
    ensures Join(" ", group + [line]) == Join(" ", group) + (" " + line)
  {
    if |group| == 1 {
      assert (group + [line])[1..] == [line];
    } else {
      assert (group + [line])[1..] == group[1..] + [line];
      JoinExtend(group[1..], line);
    }
  }

  /** Appending to the last bullet's text is appending a line to the last group. */
  lemma ExtendLast(done: seq<seq<string>>, line: string)
    requires done != [] && done[|done| - 1] != []
    ensures var n := |done| - 1;
            && |Texts(done)| == n + 1
            && Texts(done[n := done[n] + [line]]) == Texts(done)[n := Texts(done)[n] + (" " + line)]
  {
    var n := |done| - 1;
    var front, last := done[..n], done[n];
    assert done == front + [last];
    assert done[n := last + [line]] == front + [last + [line]];
    TextsAppend(front, [last]);
    TextsAppend(front, [last + [line]]);
    JoinExtend(last, line);
    assert Texts([last]) == [Join(" ", last)] && Texts([last + [line]]) == [Join(" ", last + [line])];
  }

  /** One text for each bullet: a line that starts one, and the indented lines after it. */
  method BulletsOf(lines: seq<string>) returns (bullets: Option<seq<string>>)
    ensures bullets == match Gather(lines, []) case None => None case Some(groups) => Some(Texts(groups))
  {
    var found: seq<string>, i := [], 0;
    ghost var done := [];
    assert lines[0..] == lines;
    while i < |lines|
      invariant i <= |lines|
      invariant Texts(done) == found && (found == [] <==> done == [])
      invariant forall k :: 0 <= k < |done| ==> done[k] != []
      invariant Gather(lines[i..], done) == Gather(lines, [])
    {
      Seqs.Tail(lines, i);
      var line := lines[i];
      if BulletWithText(line) {
        TextsAppend(done, [[RStrip(line)]]);
        assert Texts([[RStrip(line)]]) == [RStrip(line)];
        done := done + [[RStrip(line)]];
        found := found + [RStrip(line)];
      } else if Continuation(line) {
        if found == [] {
          return None;
        }
        ExtendLast(done, Strip(line));
        done := done[|done| - 1 := done[|done| - 1] + [Strip(line)]];
        found := found[|found| - 1 := found[|found| - 1] + (" " + Strip(line))];
      } else if !Blank(line) {
        return None;
      }
      i := i + 1;
    }
    bullets := Some(found);
  }

  method BodyOf(lines: seq<string>) returns (body: seq<string>)
    ensures body == Body(lines)
  {
    var i := 0;
    body := [];
    assert lines[0..] == lines;
    while i < |lines|
      invariant i <= |lines|
      invariant body + Body(lines[i..]) == Body(lines)
    {
      Seqs.Tail(lines, i);
      if Heading(lines[i]) {
        break;
      }
      Seqs.Assoc(body, [lines[i]], Body(lines[i + 1..]));
      body := body + [lines[i]];
      i := i + 1;
    }
    Seqs.Empty(body);
  }

  /** From the lines after the heading to the section. */
  method SectionFrom(word: WordClass, lines: seq<string>) returns (r: Result<Section>)
    ensures r == Reflow(word, lines)
  {
    var body := BodyOf(lines);
    var section := Trim(body);
    if AllBlank(section) {
      return Err("section is empty");
    }
    if Mentions(word, Join("\n", section)) {
      return Err("section still says Unreleased");
    }
    var k := FirstBullet(section);
    if k == |section| {
      return Err("section has no change bullets");
    }
    var paragraphs := ParagraphsOf(section[..k]);
    if paragraphs == [] {
      return Err("section has no summary paragraph");
    }
    var bullets := BulletsOf(section[k..]);
    if bullets.None? {
      return Err("section has text after its change bullets");
    }
    r := Ok(Section(paragraphs, bullets.value));
  }

  method SectionAfter(word: WordClass, lines: seq<string>, starts: seq<nat>) returns (r: Result<Section>)
    requires forall i :: 0 <= i < |starts| ==> starts[i] < |lines|
    ensures r == SectionIn(word, lines, starts)
  {
    if |starts| == 0 {
      return Err("CHANGELOG.md has no section");
    }
    if |starts| > 1 {
      return Err("CHANGELOG.md has more than one section");
    }
    r := SectionFrom(word, lines[starts[0] + 1..]);
  }

  /** `changelog_section` */
  method ChangelogSection(word: WordClass, changelog: string, tag: string) returns (r: Result<Section>)
    ensures r == SectionOf(word, changelog, tag)
  {
    if !ValidTag(tag) {
      return Err("invalid release tag");
    }
    if ByteLength(changelog) > MAX_CHANGELOG_BYTES {
      return Err("CHANGELOG.md exceeds the size limit");
    }
    var lines := Split(changelog);
    var starts := Starts(tag, lines, 0);
    r := SectionAfter(word, lines, starts);
  }

  // ----- the lines of a text, and texts that are lines -----

  lemma {:induction false} SplitAppend(a: string, b: string)
    ensures Split(a + "\n" + b) == Split(a) + Split(b)
  {
    if a == "" {
      assert "" + "\n" + b == "\n" + b && ("\n" + b)[1..] == b;
    } else {
      var text := a + "\n" + b;
      assert text[0] == a[0] && text[1..] == a[1..] + "\n" + b;
      SplitAppend(a[1..], b);
      var head, tail := Split(a[1..]), Split(b);
      if a[0] == '\n' {
        Seqs.Assoc([""], head, tail);
      } else {
        assert (head + tail)[0] == head[0] && (head + tail)[1..] == head[1..] + tail;
        Seqs.Assoc([[a[0]] + head[0]], head[1..], tail);
      }
    }
  }

  predicate NoFeed(line: string) {
    '\n' !in line
  }

  lemma {:induction false} SplitLine(line: string)
    requires NoFeed(line)
    ensures Split(line) == [line]
  {
    if line != "" {
      assert line[0] in line && NoFeed(line[1..]);
      SplitLine(line[1..]);
      assert [line[0]] + line[1..] == line;
    }
  }

  predicate NoFeeds(lines: seq<string>) {
    forall i :: 0 <= i < |lines| ==> NoFeed(lines[i])
  }

  lemma {:induction false} SplitLines(lines: seq<string>)
    requires lines != [] && NoFeeds(lines)
    ensures Split(Join("\n", lines)) == lines
  {
    SplitLine(lines[0]);
    if |lines| > 1 {
      assert forall i :: 0 <= i < |lines[1..]| ==> lines[1..][i] == lines[i + 1];
      SplitLines(lines[1..]);
      SplitAppend(lines[0], Join("\n", lines[1..]));
    }
  }

  /** Paragraphs with an empty line between them, and one more after them. */
  lemma {:induction false} SplitParagraphs(paragraphs: seq<string>)
    requires paragraphs != [] && NoFeeds(paragraphs)
    ensures Split(Join("\n\n", paragraphs) + "\n" + "") == Spread(paragraphs)
  {
    var text := Join("\n\n", paragraphs);
    SplitAppend(text, "");
    SplitLine(paragraphs[0]);
    if |paragraphs| == 1 {
      assert Spread(paragraphs[1..]) == [];
    } else {
      var later := Join("\n\n", paragraphs[1..]);
      assert forall i :: 0 <= i < |paragraphs[1..]| ==> paragraphs[1..][i] == paragraphs[i + 1];
      SplitParagraphs(paragraphs[1..]);
      SplitAppend(later, "");
      assert text == paragraphs[0] + "\n" + ("" + "\n" + later);
      SplitAppend(paragraphs[0], "" + "\n" + later);
      SplitAppend("", later);
      Seqs.Assoc([paragraphs[0], ""], Split(later), [""]);
    }
  }

  // ----- paragraphs and bullets are single lines -----

  lemma {:induction false} LStripNoFeed(s: string)
    requires NoFeed(s)
    ensures NoFeed(LStrip(s))
  {
    if s != "" && IsSpace(s[0]) {
      LStripNoFeed(s[1..]);
    }
  }

  lemma {:induction false} RStripNoFeed(s: string)
    requires NoFeed(s)
    ensures NoFeed(RStrip(s))
  {
    if s != "" && IsSpace(s[|s| - 1]) {
      RStripNoFeed(s[..|s| - 1]);
    }
  }

  lemma StripNoFeed(s: string)
    requires NoFeed(s)
    ensures NoFeed(Strip(s)) && NoFeed(RStrip(s))
  {
    LStripNoFeed(s);
    RStripNoFeed(LStrip(s));
    RStripNoFeed(s);
  }

  lemma {:induction false} JoinNoFeed(group: seq<string>)
    requires NoFeeds(group)
    ensures NoFeed(Join(" ", group))
  {
    if |group| > 1 {
      assert forall i :: 0 <= i < |group[1..]| ==> group[1..][i] == group[i + 1];
      JoinNoFeed(group[1..]);
    }
  }

  predicate NoFeedGroups(groups: seq<seq<string>>) {
    forall i :: 0 <= i < |groups| ==> NoFeeds(groups[i])
  }

  lemma {:induction false} TextsNoFeed(groups: seq<seq<string>>)
    requires NoFeedGroups(groups)
    ensures NoFeeds(Texts(groups))
  {
    if groups != [] {
      assert forall i :: 0 <= i < |groups[1..]| ==> groups[1..][i] == groups[i + 1];
      TextsNoFeed(groups[1..]);
      JoinNoFeed(groups[0]);
    }
  }

  lemma {:induction false} RunsNoFeed(lines: seq<string>, current: seq<string>)
    requires NoFeeds(lines) && NoFeeds(current)
    ensures NoFeedGroups(Runs(lines, current))
    decreases |lines|
  {
    if lines != [] {
      assert forall i :: 0 <= i < |lines[1..]| ==> lines[1..][i] == lines[i + 1];
      StripNoFeed(lines[0]);
      RunsNoFeed(lines[1..], if Blank(lines[0]) then [] else current + [Strip(lines[0])]);
    }
  }

  lemma {:induction false} GatherNoFeed(lines: seq<string>, done: seq<seq<string>>)
    requires NoFeeds(lines) && NoFeedGroups(done) && Gather(lines, done).Some?
    ensures NoFeedGroups(Gather(lines, done).value)
    decreases |lines|
  {
    if lines != [] {
      assert forall i :: 0 <= i < |lines[1..]| ==> lines[1..][i] == lines[i + 1];
      StripNoFeed(lines[0]);
      if BulletWithText(lines[0]) {
        GatherNoFeed(lines[1..], done + [[RStrip(lines[0])]]);
      } else if Continuation(lines[0]) {
        GatherNoFeed(lines[1..], done[|done| - 1 := done[|done| - 1] + [Strip(lines[0])]]);
      } else {
        GatherNoFeed(lines[1..], done);
      }
    }
  }

  lemma {:induction false} BodyNoFeed(lines: seq<string>)
    requires NoFeeds(lines)
    ensures NoFeeds(Body(lines))
  {
    if lines != [] {
      assert forall i :: 0 <= i < |lines[1..]| ==> lines[1..][i] == lines[i + 1];
      BodyNoFeed(lines[1..]);
    }
  }

  lemma {:induction false} TrimNoFeed(lines: seq<string>)
    requires NoFeeds(lines)
    ensures NoFeeds(Trim(lines))
    decreases |lines|
  {
    if lines != [] {
      if lines[0] == "" {
        TrimNoFeed(lines[1..]);
      } else if lines[|lines| - 1] == "" {
        TrimNoFeed(lines[..|lines| - 1]);
      }
    }
  }

  lemma ReflowNoFeed(word: WordClass, lines: seq<string>)
    requires NoFeeds(lines) && Reflow(word, lines).Ok?
    ensures NoFeeds(Reflow(word, lines).value.paragraphs) && NoFeeds(Reflow(word, lines).value.bullets)
  {
    var section := Trim(Body(lines));
    var k := FirstBullet(section);
    BodyNoFeed(lines);
    TrimNoFeed(Body(lines));
    RunsNoFeed(section[..k], []);
    GatherNoFeed(section[k..], []);
    TextsNoFeed(Runs(section[..k], []));
    TextsNoFeed(Gather(section[k..], []).value);
  }

  /** What a changelog gives: a summary and changes, each one line, tight at its ends. */
  lemma SectionLines(word: WordClass, changelog: string, tag: string)
    requires SectionOf(word, changelog, tag).Ok?
    ensures var s := SectionOf(word, changelog, tag).value;
            WellFormed(s) && NoFeeds(s.paragraphs) && NoFeeds(s.bullets)
  {
    var lines := Split(changelog);
    var from := Starts(tag, lines, 0)[0] + 1;
    SplitJoin(changelog);
    assert NoFeeds(lines[from..]);
    ReflowWellFormed(word, lines[from..]);
    ReflowNoFeed(word, lines[from..]);
  }

  lemma {:induction false} RunsOfSpread(paragraphs: seq<string>)
    requires AllParagraphs(paragraphs)
    ensures Texts(Runs(Spread(paragraphs), [])) == paragraphs
  {
    if paragraphs != [] {
      RunsOfSpread(paragraphs[1..]);
      TightStays(paragraphs[0]);
      RunsTwo(paragraphs[0], Spread(paragraphs[1..]));
      assert [paragraphs[0]] + paragraphs[1..] == paragraphs;
    }
  }
}
