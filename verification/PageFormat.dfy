/** What the parts of a release share: the identity comment's frame and the form of a tag (scripts/release-notes.py). */
module PageFormat {
  import opened Text
  import Seqs

  const CONTRACT := "algal.release-page.v1"
  const MARKER := "<!-- algal.release-page.v1 "
  const END := " -->"
  const CLOSE := "-->"

  // ----- tags -----

  predicate TagChar(c: char) {
    'a' <= c <= 'z' || 'A' <= c <= 'Z' || IsDigit(c) || c == '.' || c == '-'
  }

  predicate AllTagChars(s: string) {
    forall i :: 0 <= i < |s| ==> TagChar(s[i])
  }

  /** A run of digits, a dot: what is left of the text, or nothing. */
  function AfterPart(s: string): Option<string> {
    var n := DigitRun(s);
    if n > 0 && n < |s| && s[n] == '.' then Some(s[n + 1..]) else None
  }

  /** Digits and then nothing or a suffix. */
  predicate Last(patch: string) {
    var n := DigitRun(patch);
    n > 0 && (n == |patch| || (patch[n] == '-' && n + 1 < |patch| && AllTagChars(patch[n + 1..])))
  }

  /** `v[0-9]+\.[0-9]+\.[0-9]+(?:-[a-zA-Z0-9.-]+)?` */
  predicate TagPattern(tag: string) {
    && tag != "" && tag[0] == 'v'
    && AfterPart(tag[1..]).Some?
    && AfterPart(AfterPart(tag[1..]).value).Some?
    && Last(AfterPart(AfterPart(tag[1..]).value).value)
  }

  predicate ValidTag(tag: string) {
    |tag| <= 256 && TagPattern(tag)
  }

  lemma AfterPartChars(s: string)
    requires AfterPart(s).Some? && AllTagChars(AfterPart(s).value)
    ensures AllTagChars(s)
  {
    var n := DigitRun(s);
    DigitRunDigits(s, n);
    forall i | 0 <= i < |s|
      ensures TagChar(s[i])
    {
      if i < n {
        assert s[..n][i] == s[i];
      } else if i > n {
        assert s[n + 1..][i - n - 1] == s[i];
      }
    }
  }

  lemma TagChars(tag: string)
    requires TagPattern(tag)
    ensures AllTagChars(tag)
  {
    var minor := AfterPart(tag[1..]).value;
    var patch := AfterPart(minor).value;
    var n := DigitRun(patch);
    DigitRunDigits(patch, n);
    forall i | 0 <= i < |patch|
      ensures TagChar(patch[i])
    {
      if i < n {
        assert patch[..n][i] == patch[i];
      } else if i > n {
        assert patch[n + 1..][i - n - 1] == patch[i];
      }
    }
    AfterPartChars(minor);
    AfterPartChars(tag[1..]);
    forall i | 0 <= i < |tag|
      ensures TagChar(tag[i])
    {
      if i > 0 {
        assert tag[1..][i - 1] == tag[i];
      }
    }
  }

  // ----- the same grammar, part by part -----

  lemma SmallAre(c: char)
    ensures 'a' <= c <= 'z' <==> c in "abcdefghijklmnopqrstuvwxyz"
  {
    assert 'a' <= c <= 'z' ==> "abcdefghijklmnopqrstuvwxyz"[c as int - 97] == c;
  }

  lemma CapitalsAre(c: char)
    ensures 'A' <= c <= 'Z' <==> c in "ABCDEFGHIJKLMNOPQRSTUVWXYZ"
  {
    assert 'A' <= c <= 'Z' ==> "ABCDEFGHIJKLMNOPQRSTUVWXYZ"[c as int - 65] == c;
  }

  lemma TagCharsAre(c: char)
    ensures TagChar(c) <==>
              || c in "abcdefghijklmnopqrstuvwxyz" || c in "ABCDEFGHIJKLMNOPQRSTUVWXYZ"
              || c in "0123456789" || c in ".-"
  {
    SmallAre(c);
    CapitalsAre(c);
    DigitsOnly(c);
  }

  predicate Number(s: string) {
    s != "" && AllDigits(s)
  }

  predicate Suffix(s: string) {
    s == "" || (|s| > 1 && s[0] == '-' && AllTagChars(s[1..]))
  }

  ghost predicate TagOf(tag: string, major: string, minor: string, patch: string, suffix: string) {
    && tag == "v" + (major + ("." + (minor + ("." + (patch + suffix)))))
    && Number(major) && Number(minor) && Number(patch) && Suffix(suffix)
  }

  lemma PartAppended(number: string, rest: string)
    requires Number(number)
    ensures AfterPart(number + ("." + rest)) == Some(rest)
  {
    DigitRunOf(number, "." + rest);
    assert (number + ("." + rest))[|number| + 1..] == rest;
  }

  lemma PartTaken(s: string) returns (number: string)
    requires AfterPart(s).Some?
    ensures Number(number) && s == number + ("." + AfterPart(s).value)
  {
    number := s[..DigitRun(s)];
    DigitRunDigits(s, DigitRun(s));
    assert s[DigitRun(s)..] == "." + AfterPart(s).value;
  }

  lemma LastAppended(patch: string, suffix: string)
    requires Number(patch) && Suffix(suffix)
    ensures Last(patch + suffix)
  {
    DigitRunOf(patch, suffix);
    assert (patch + suffix)[|patch|..] == suffix;
    assert suffix != "" ==> (patch + suffix)[|patch| + 1..] == suffix[1..];
  }

  lemma LastTaken(s: string)
    requires Last(s)
    ensures Number(s[..DigitRun(s)]) && Suffix(s[DigitRun(s)..])
  {
    var n := DigitRun(s);
    DigitRunDigits(s, n);
    assert n < |s| ==> s[n..][1..] == s[n + 1..];
  }

  lemma TagTaken(tag: string, major: string, minor: string, patch: string, suffix: string)
    requires TagOf(tag, major, minor, patch, suffix)
    ensures TagPattern(tag)
  {
    var last := patch + suffix;
    var rest := minor + ("." + last);
    assert tag[1..] == major + ("." + rest);
    PartAppended(major, rest);
    PartAppended(minor, last);
    LastAppended(patch, suffix);
  }

  lemma TagSplit(tag: string) returns (major: string, minor: string, patch: string, suffix: string)
    requires TagPattern(tag)
    ensures TagOf(tag, major, minor, patch, suffix)
  {
    major := PartTaken(tag[1..]);
    var rest := AfterPart(tag[1..]).value;
    minor := PartTaken(rest);
    var last := AfterPart(rest).value;
    LastTaken(last);
    Seqs.Cut(last, DigitRun(last));
    patch, suffix := last[..DigitRun(last)], last[DigitRun(last)..];
    assert tag == "v" + tag[1..];
  }

  /** A tag is `v` and three numbers with dots between them, then nothing or a dash and tag characters. */
  lemma TagIs(tag: string)
    ensures ValidTag(tag) <==>
              |tag| <= 256 && exists major, minor, patch, suffix :: TagOf(tag, major, minor, patch, suffix)
  {
    if major, minor, patch, suffix :| TagOf(tag, major, minor, patch, suffix) {
      TagTaken(tag, major, minor, patch, suffix);
    }
    if TagPattern(tag) {
      var major, minor, patch, suffix := TagSplit(tag);
    }
  }
}
