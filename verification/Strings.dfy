/** Finding words in a text. */
module Strings {

  predicate Contains(s: string, part: string) {
    part <= s || (s != [] && Contains(s[1..], part))
  }

  /** The text is something, then the words, then something. */
  ghost predicate Says(text: string, words: string) {
    exists before, after :: text == before + words + after
  }

  lemma {:induction false} ContainsInSuffix(above: string, s: string, part: string)
    requires Contains(s, part)
    ensures Contains(above + s, part)
    decreases |above|
  {
    if above == [] {
      assert above + s == s;
    } else {
      assert (above + s)[1..] == above[1..] + s;
      ContainsInSuffix(above[1..], s, part);
    }
  }

  lemma {:induction false} Around(s: string, part: string) returns (before: string, after: string)
    requires Contains(s, part)
    ensures s == before + part + after
    decreases |s|
  {
    if part <= s {
      before, after := [], s[|part|..];
    } else {
      before, after := Around(s[1..], part);
      before := [s[0]] + before;
      assert s == [s[0]] + s[1..];
    }
  }

  /** The search finds the words exactly when the text says them. */
  lemma {:induction false} ContainsIs(s: string, part: string)
    ensures Contains(s, part) <==> Says(s, part)
  {
    if Contains(s, part) {
      var before, after := Around(s, part);
      assert s == before + part + after;
    }
    if before, after :| s == before + part + after {
      assert s == before + (part + after);
      ContainsInSuffix(before, part + after, part);
    }
  }

  /** The letter, or its capital. */
  predicate SameLetter(c: char, letter: char) {
    c == letter || ('a' <= letter <= 'z' && c as int == letter as int - 32)
  }

  predicate SpelledAs(text: string, word: string) {
    |text| == |word| && forall i | 0 <= i < |text| :: SameLetter(text[i], word[i])
  }

  /** The text has the word somewhere, in capitals or not. */
  ghost predicate SaysInAnyCase(text: string, word: string) {
    exists before, spelled, after :: SpelledAs(spelled, word) && text == before + spelled + after
  }
}
