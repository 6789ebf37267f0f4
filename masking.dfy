/**
 * The mask/reveal engine of the guessing game (src/extension.ts, `maskText`
 * and `revealChar`). A character is guessable when it lies in the basic Han
 * block U+4E00..U+9FA5 or is an ASCII letter; guessable characters are hidden
 * behind the placeholder `_`, everything else is always shown.
 */
module Masking {

  const Placeholder: char := '_'

  /** The character class `[一-龥a-zA-Z]` of both regular expressions. */
  predicate IsGuessable(c: char)
  {
    '\U{4e00}' <= c <= '\U{9fa5}' || 'a' <= c <= 'z' || 'A' <= c <= 'Z'
  }

  /** `maskText`: every guessable character becomes the placeholder. */
  function MaskText(text: string): (r: string)
    ensures |r| == |text|
    ensures forall i {:trigger r[i]} :: 0 <= i < |text| ==>
      r[i] == (if IsGuessable(text[i]) then Placeholder else text[i])
  {
    if text == [] then [] else [if IsGuessable(text[0]) then Placeholder else text[0]] + MaskText(text[1..])
  }

  /**
   * `revealChar`: a guessed character is shown as itself, any other guessable
   * character as the placeholder, and a non-guessable one as itself. The
   * source also passes the character just guessed, but never reads it, so
   * the model has no such parameter.
   */
  function RevealChar(text: string, guessed: set<char>): (r: string)
    ensures |r| == |text|
    ensures forall i {:trigger r[i]} :: 0 <= i < |text| ==>
      r[i] == (if text[i] in guessed then text[i] else if IsGuessable(text[i]) then Placeholder else text[i])
  {
    if text == [] then []
    else
      var c := text[0];
      [if c in guessed then c else if IsGuessable(c) then Placeholder else c] + RevealChar(text[1..], guessed)
  }

  /** Number of occurrences of `c` in `s`. */
  function Count(s: string, c: char): (n: nat)
    ensures n <= |s|
    ensures n == 0 <==> c !in s
  {
    if s == [] then 0 else (if s[0] == c then 1 else 0) + Count(s[1..], c)
  }

  /** Position `i` of the displayed text shows the original character. */
  predicate VisibleAt(text: string, guessed: set<char>, i: int)
    requires 0 <= i < |text|
  {
    RevealChar(text, guessed)[i] == text[i]
  }

  /** With nothing guessed, revealing is exactly masking (the initial view). */
  lemma RevealNothingIsMask(text: string)
    ensures RevealChar(text, {}) == MaskText(text)
  {
  }

  /** Matching is by exact character: guessing 'A' never uncovers an 'a'. */
  lemma RevealIsCaseSensitive(text: string, i: int)
    requires 0 <= i < |text| && text[i] == 'a'
    ensures RevealChar(text, {'A'})[i] == Placeholder
  {
  }

  /** Guessing more never hides a position that was visible. */
  lemma RevealMonotone(text: string, g: set<char>, g': set<char>, i: int)
    requires g <= g' && 0 <= i < |text|
    requires VisibleAt(text, g, i)
    ensures VisibleAt(text, g', i)
  {
  }

  /** A character that does not occur in the text changes nothing when it is added to the guesses. */
  lemma RevealIgnoresAbsent(text: string, guessed: set<char>, c: char)
    requires c !in text
    ensures RevealChar(text, guessed + {c}) == RevealChar(text, guessed)
  {
  }

  /** The number of placeholders never grows when the guessed set grows. */
  lemma {:induction false} PlaceholdersNeverIncrease(text: string, g: set<char>, g': set<char>)
    requires g <= g'
    ensures Count(RevealChar(text, g'), Placeholder) <= Count(RevealChar(text, g), Placeholder)
  {
    if text != [] {
      PlaceholdersNeverIncrease(text[1..], g, g');
      assert RevealChar(text, g)[1..] == RevealChar(text[1..], g);
      assert RevealChar(text, g')[1..] == RevealChar(text[1..], g');
    }
  }

  /** A guessable character that occurs in the text strictly reduces the placeholders of the full mask. */
  lemma {:induction false} GuessOccurringCharUncovers(text: string, c: char)
    requires IsGuessable(c) && c in text
    ensures Count(RevealChar(text, {c}), Placeholder) < Count(MaskText(text), Placeholder)
  {
    var r := RevealChar(text, {c});
    var m := MaskText(text);
    assert r[1..] == RevealChar(text[1..], {c});
    assert m[1..] == MaskText(text[1..]);
    assert Count(r, Placeholder) == (if r[0] == Placeholder then 1 else 0) + Count(r[1..], Placeholder);
    assert Count(m, Placeholder) == (if m[0] == Placeholder then 1 else 0) + Count(m[1..], Placeholder);
    if text[0] == c {
      PlaceholdersNeverIncrease(text[1..], {}, {c});
      RevealNothingIsMask(text[1..]);
    } else {
      GuessOccurringCharUncovers(text[1..], c);
    }
  }

  /**
   * The win check: the displayed text has no placeholder exactly when the
   * text itself has none and every guessable character in it was guessed.
   */
  lemma CompleteIff(text: string, guessed: set<char>)
    ensures Placeholder !in RevealChar(text, guessed) <==>
      Placeholder !in text && forall i :: 0 <= i < |text| && IsGuessable(text[i]) ==> text[i] in guessed
  {
    var r := RevealChar(text, guessed);
    if Placeholder !in r {
      forall i | 0 <= i < |text| ensures text[i] != Placeholder && (IsGuessable(text[i]) ==> text[i] in guessed) {
        assert r[i] != Placeholder;
      }
    }
  }

  /** A title with a literal `_` can never be completed: `_` is not guessable and always shows. */
  lemma UnderscoreBlocksCompletion(text: string, guessed: set<char>)
    requires Placeholder in text
    ensures Placeholder in RevealChar(text, guessed)
  {
    CompleteIff(text, guessed);
  }

  /** Completion, once reached, survives further guesses. */
  lemma CompleteStaysComplete(text: string, g: set<char>, g': set<char>)
    requires g <= g' && Placeholder !in RevealChar(text, g)
    ensures Placeholder !in RevealChar(text, g')
  {
    CompleteIff(text, g);
    CompleteIff(text, g');
  }
}
