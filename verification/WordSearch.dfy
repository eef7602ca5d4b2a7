/** The search for the word "unreleased" (`(?i)\bunreleased\b` in scripts/release-notes.py). */
module WordSearch {
  import opened Text
  import Seqs

  const WORD := "unreleased"

  /**
   * The class `\w`. Which characters it holds beyond the letters of the word does not matter, but white space is none.
   */
  type WordClass = word: char -> bool | forall c :: IsSpace(c) ==> !word(c) witness (c => false)

  predicate InWord(word: WordClass, c: char) {
    word(c)
  }

  /** Case folding; beyond ASCII only the long s is a form of a letter of the word. */
  predicate Folds(c: char, letter: char) {
    c == letter || c as int + 32 == letter as int || (letter == 's' && c as int == 0x17F)
  }

  /** The word stands at `i`, with a word boundary at both ends. */
  predicate StandsAt(word: WordClass, text: string, i: nat) {
    && i + |WORD| <= |text|
    && (forall k :: 0 <= k < |WORD| ==> Folds(text[i + k], WORD[k]))
    && (i == 0 || !InWord(word, text[i - 1]))
    && (i + |WORD| == |text| || !InWord(word, text[i + |WORD|]))
  }

  predicate Mentions(word: WordClass, text: string) {
    exists i :: 0 <= i < |text| && StandsAt(word, text, i)
  }

  lemma SpaceIsNone(word: WordClass, c: char)
    requires IsSpace(c)
    ensures !InWord(word, c) && forall k :: 0 <= k < |WORD| ==> !Folds(c, WORD[k])
  {
  }

  lemma StandsBefore(word: WordClass, a: string, c: char, b: string, i: nat)
    requires IsSpace(c) && i + |WORD| <= |a|
    ensures StandsAt(word, a + [c] + b, i) <==> StandsAt(word, a, i)
  {
    SpaceIsNone(word, c);
    var text := a + [c] + b;
    assert forall j :: 0 <= j < |a| ==> text[j] == a[j];
    assert text[|a|] == c;
  }

  lemma StandsAfter(word: WordClass, a: string, c: char, b: string, i: nat)
    requires IsSpace(c)
    ensures StandsAt(word, a + [c] + b, |a| + 1 + i) <==> StandsAt(word, b, i)
  {
    SpaceIsNone(word, c);
    var text := a + [c] + b;
    assert forall j :: 0 <= j < |b| ==> text[|a| + 1 + j] == b[j];
    assert text[|a|] == c;
  }

  lemma NotAcross(word: WordClass, a: string, c: char, b: string, i: nat)
    requires IsSpace(c) && i <= |a| < i + |WORD|
    ensures !StandsAt(word, a + [c] + b, i)
  {
    SpaceIsNone(word, c);
    assert (a + [c] + b)[i + (|a| - i)] == c;
    assert !Folds(c, WORD[|a| - i]);
  }

  /** White space ends every word: what is mentioned is mentioned before it or after it. */
  lemma MentionsAround(word: WordClass, a: string, c: char, b: string)
    requires IsSpace(c)
    ensures Mentions(word, a + [c] + b) <==> Mentions(word, a) || Mentions(word, b)
  {
    var text := a + [c] + b;
    if i :| 0 <= i < |text| && StandsAt(word, text, i) {
      if i > |a| {
        StandsAfter(word, a, c, b, i - |a| - 1);
      } else if i + |WORD| <= |a| {
        StandsBefore(word, a, c, b, i);
      } else {
        NotAcross(word, a, c, b, i);
      }
    }
    if i :| 0 <= i < |a| && StandsAt(word, a, i) {
      StandsBefore(word, a, c, b, i);
    }
    if i :| 0 <= i < |b| && StandsAt(word, b, i) {
      StandsAfter(word, a, c, b, i);
      assert StandsAt(word, text, |a| + 1 + i);
    }
  }

  lemma ShortMentions(word: WordClass, text: string)
    requires |text| < |WORD|
    ensures !Mentions(word, text)
  {
  }

  predicate AnyMentions(word: WordClass, lines: seq<string>) {
    lines != [] && (Mentions(word, lines[0]) || AnyMentions(word, lines[1..]))
  }

  lemma {:induction false} AnyAppend(word: WordClass, a: seq<string>, b: seq<string>)
    ensures AnyMentions(word, a + b) <==> AnyMentions(word, a) || AnyMentions(word, b)
  {
    if a == [] {
      Seqs.Empty(b);
    } else {
      Seqs.AppendTail(a, b);
      AnyAppend(word, a[1..], b);
    }
  }

  /** Joining with white space neither makes a mention nor hides one. */
  lemma {:induction false} JoinMentions(word: WordClass, separator: char, lines: seq<string>)
    requires IsSpace(separator)
    ensures Mentions(word, Join([separator], lines)) <==> AnyMentions(word, lines)
  {
    if |lines| > 1 {
      JoinMentions(word, separator, lines[1..]);
      MentionsAround(word, lines[0], separator, Join([separator], lines[1..]));
    }
  }
}
