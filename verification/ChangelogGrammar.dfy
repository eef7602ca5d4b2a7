/** The lines of a changelog as scripts/release-notes.py tells them apart, as patterns over a line. */
module ChangelogGrammar {
  import opened Text
  import opened WordSearch
  import opened ChangelogReflow
  import Seqs

  // ----- stripping -----

  lemma {:induction false} LStripIs(s: string) returns (lead: string)
    ensures Blank(lead) && s == lead + LStrip(s)
  {
    lead := "";
    if s != "" && IsSpace(s[0]) {
      var rest := LStripIs(s[1..]);
      lead := [s[0]] + rest;
      Seqs.Assoc([s[0]], rest, LStrip(s));
      assert s == [s[0]] + s[1..];
    }
  }

  /** What is stripped at the end is white space, and no more can be. */
  lemma {:induction false} RStripIs(s: string) returns (trail: string)
    ensures Blank(trail) && s == RStrip(s) + trail
    ensures RStrip(s) == "" || !IsSpace(RStrip(s)[|RStrip(s)| - 1])
  {
    trail := "";
    if s != "" && IsSpace(s[|s| - 1]) {
      var rest := RStripIs(s[..|s| - 1]);
      trail := rest + [s[|s| - 1]];
      Seqs.Assoc(RStrip(s), rest, [s[|s| - 1]]);
      assert s == s[..|s| - 1] + [s[|s| - 1]];
    }
  }

  /** What is stripped is white space, and no more can be. */
  lemma StripIs(s: string) returns (lead: string, trail: string)
    ensures Blank(lead) && Blank(trail) && s == lead + (Strip(s) + trail)
    ensures Strip(s) == "" || Tight(Strip(s))
  {
    lead := LStripIs(s);
    trail := RStripIs(LStrip(s));
    StripTight(s);
  }

  // ----- marks -----

  /** What begins a bullet, a line that continues one, and a heading of the first or second level. */
  lemma MarksAre(line: string)
    ensures Bullet(line) <==> "- " <= line
    ensures BulletWithText(line) <==> "- " <= line && exists i :: 2 <= i < |line| && !IsSpace(line[i])
    ensures Continuation(line) <==> "  " <= line && exists i :: 0 <= i < |line| && !IsSpace(line[i])
    ensures Heading(line) <==> "# " <= line || "## " <= line
  {
    if |line| >= 2 {
      assert line[..2] == [line[0], line[1]];
      assert forall i :: 0 <= i < |line| - 2 ==> line[2..][i] == line[i + 2];
      assert forall i :: 2 <= i < |line| ==> line[i] == line[2..][i - 2];
    }
    if |line| >= 3 {
      assert line[..3] == [line[0], line[1], line[2]];
    }
  }

  predicate Decimal(s: string, n: nat) {
    |s| == n && forall i :: 0 <= i < n ==> s[i] in "0123456789"
  }

  /** ` - [0-9]{4}-[0-9]{2}-[0-9]{2}` */
  predicate Date(s: string, year: string, month: string, day: string) {
    Decimal(year, 4) && Decimal(month, 2) && Decimal(day, 2) && s == " - " + (year + ("-" + (month + ("-" + day))))
  }

  lemma DecimalIs(s: string, n: nat)
    ensures Decimal(s, n) <==> |s| == n && AllDigits(s)
  {
    forall i | 0 <= i < |s|
      ensures IsDigit(s[i]) <==> s[i] in "0123456789"
    {
      DigitsOnly(s[i]);
    }
  }

  lemma DatedIs(s: string)
    ensures Dated(s) <==> s == "" || exists year, month, day :: Date(s, year, month, day)
  {
    if |s| == 13 {
      DecimalIs(s[3..7], 4);
      DecimalIs(s[8..10], 2);
      DecimalIs(s[11..], 2);
      if Dated(s) {
        assert s == " - " + (s[3..7] + ("-" + (s[8..10] + ("-" + s[11..]))));
        assert Date(s, s[3..7], s[8..10], s[11..]);
      }
    }
    if year, month, day :| Date(s, year, month, day) {
      assert s[..3] == " - " && s[3..7] == year && s[8..10] == month && s[11..] == day;
    }
  }

  /** `## `, possibly a `v`, the version, and possibly a date; nothing else. */
  ghost predicate ReleaseLine(tag: string, line: string, v: string, date: string)
    requires tag != ""
  {
    && (v == "" || v == "v")
    && (date == "" || exists year, month, day :: Date(date, year, month, day))
    && line == "## " + v + tag[1..] + date
  }

  lemma HeadedIs(title: string, line: string, date: string)
    ensures line == title + date ==> title <= line && line[|title|..] == date
    ensures title <= line ==> line == title + line[|title|..]
  {
  }

  lemma ReleaseHeadingIs(tag: string, line: string)
    requires tag != ""
    ensures ReleaseHeading(tag, line) <==> exists v, date :: ReleaseLine(tag, line, v, date)
  {
    var plain, marked := "## " + tag[1..], "## v" + tag[1..];
    assert "## " + "" == "## " && "## " + "v" == "## v";
    if Headed(plain, line) {
      DatedIs(line[|plain|..]);
      HeadedIs(plain, line, line[|plain|..]);
      assert ReleaseLine(tag, line, "", line[|plain|..]);
    }
    if Headed(marked, line) {
      DatedIs(line[|marked|..]);
      HeadedIs(marked, line, line[|marked|..]);
      assert ReleaseLine(tag, line, "v", line[|marked|..]);
    }
    if v, date :| ReleaseLine(tag, line, v, date) {
      DatedIs(date);
      HeadedIs(if v == "" then plain else marked, line, date);
    }
  }

  /** The headings found are those of the release, each once and in order. */
  lemma {:induction false} StartsAre(tag: string, lines: seq<string>, from: nat)
    requires tag != "" && from <= |lines|
    ensures forall i :: i in Starts(tag, lines, from) <==> from <= i < |lines| && ReleaseHeading(tag, lines[i])
    ensures forall i, j :: 0 <= i < j < |Starts(tag, lines, from)| ==>
              Starts(tag, lines, from)[i] < Starts(tag, lines, from)[j]
    decreases |lines| - from
  {
    if from < |lines| {
      StartsAre(tag, lines, from + 1);
    }
  }

  // ----- the section's lines -----

  predicate NoHeadings(lines: seq<string>) {
    forall i :: 0 <= i < |lines| ==> !Heading(lines[i])
  }

  /** The lines up to the next heading. */
  lemma {:induction false} BodyIs(lines: seq<string>)
    ensures Body(lines) <= lines && NoHeadings(Body(lines))
    ensures |Body(lines)| < |lines| ==> Heading(lines[|Body(lines)|])
  {
    if lines != [] && !Heading(lines[0]) {
      BodyIs(lines[1..]);
      assert lines == [lines[0]] + lines[1..];
    }
  }

  predicate AllEmpty(lines: seq<string>) {
    forall i :: 0 <= i < |lines| ==> lines[i] == ""
  }

  ghost predicate Around(lines: seq<string>, above: seq<string>, middle: seq<string>, below: seq<string>) {
    AllEmpty(above) && AllEmpty(below) && Seqs.Same(lines, above + (middle + below))
  }

  lemma AroundFirst(rest: seq<string>, above: seq<string>, middle: seq<string>, below: seq<string>)
    requires Around(rest, above, middle, below)
    ensures Around([""] + rest, [""] + above, middle, below)
  {
    Seqs.Assoc([""], above, middle + below);
  }

  lemma AroundLast(rest: seq<string>, above: seq<string>, middle: seq<string>, below: seq<string>)
    requires Around(rest, above, middle, below)
    ensures Around(rest + [""], above, middle, below + [""])
  {
    Seqs.Assoc(middle, below, [""]);
    Seqs.Assoc(above, middle + below, [""]);
  }

  lemma AroundAll(lines: seq<string>)
    ensures Around(lines, [], lines, [])
  {
    Seqs.Empty(lines);
  }

  /** Empty lines are taken off at both ends, and no more than that. */
  lemma {:induction false} TrimIs(lines: seq<string>) returns (above: seq<string>, below: seq<string>)
    ensures Around(lines, above, Trim(lines), below)
    ensures Trim(lines) == [] || (Trim(lines)[0] != "" && Trim(lines)[|Trim(lines)| - 1] != "")
    decreases |lines|
  {
    above, below := [], [];
    if lines == [] || (lines[0] != "" && lines[|lines| - 1] != "") {
      AroundAll(lines);
    } else if lines[0] == "" {
      above, below := TrimIs(lines[1..]);
      AroundFirst(lines[1..], above, Trim(lines), below);
      assert lines == [lines[0]] + lines[1..];
      above := [""] + above;
    } else {
      above, below := TrimIs(lines[..|lines| - 1]);
      AroundLast(lines[..|lines| - 1], above, Trim(lines), below);
      assert lines == lines[..|lines| - 1] + [lines[|lines| - 1]];
      below := below + [""];
    }
  }

  lemma {:induction false} AllBlankIs(lines: seq<string>)
    ensures AllBlank(lines) <==> forall i :: 0 <= i < |lines| ==> Blank(lines[i])
  {
    if lines != [] {
      AllBlankIs(lines[1..]);
      assert forall i :: 1 <= i < |lines| ==> lines[i] == lines[1..][i - 1];
    }
  }

  // ----- the word -----

  lemma Letters()
    ensures |WORD| == 10 && WORD == "unreleased"
    ensures forall k :: 0 <= k < 10 ==> "UNRELEASED"[k] as int + 32 == WORD[k] as int
    ensures forall k :: 0 <= k < 10 ==> (WORD[k] == 's' <==> k == 7)
  {
  }

  /** The word letter by letter, small or capital, or with the long s, and no word character beside it. */
  lemma StandsAtIs(word: WordClass, text: string, i: nat)
    ensures StandsAt(word, text, i)
       <==> && i + 10 <= |text|
            && (forall k :: 0 <= k < 10 ==>
                  || text[i + k] == "unreleased"[k] || text[i + k] == "UNRELEASED"[k]
                  || (k == 7 && text[i + k] == '\U{17F}'))
            && (i > 0 ==> !word(text[i - 1])) && (i + 10 < |text| ==> !word(text[i + 10]))
  {
    Letters();
  }
}
