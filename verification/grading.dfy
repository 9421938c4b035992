/** Grading a guess against an item under the selected quiz mode (`handleGuess`, first half). */
module Grading {
  import opened Wrappers
  import opened JsText
  import opened Items

  /** The quiz mode: `'prep'`, `'case'` or `'both'`. */
  datatype Mode = PrepOnly | CaseOnly | Both

  /** The two sub-answers the user has entered; an untouched field is the empty string. */
  datatype Guess = Guess(prep: string, grammaticalCase: string)

  /** `guessed.trim().toLowerCase() === expected?.trim().toLowerCase()`: an absent expected field is
      `undefined` and equals no string. */
  predicate Matches(guessed: string, expected: Option<string>) {
    expected.Some? && Normalize(guessed) == Normalize(expected.value)
  }

  /** The verdict: the preposition is checked unless the mode is `'case'`, the case unless it is `'prep'`. */
  predicate Grade(item: Item, guess: Guess, mode: Mode) {
    && (mode != CaseOnly ==> Matches(guess.prep, item.preposition))
    && (mode != PrepOnly ==> Matches(guess.grammaticalCase, item.grammaticalCase))
  }

  /** Each mode judges exactly its own sub-answers, and `Both` is the conjunction of the other two. */
  lemma GradeByMode(item: Item, guess: Guess)
    ensures Grade(item, guess, PrepOnly) <==>
      item.preposition.Some? && Normalize(guess.prep) == Normalize(item.preposition.value)
    ensures Grade(item, guess, CaseOnly) <==>
      item.grammaticalCase.Some? && Normalize(guess.grammaticalCase) == Normalize(item.grammaticalCase.value)
    ensures Grade(item, guess, Both) <==> Grade(item, guess, PrepOnly) && Grade(item, guess, CaseOnly)
  {
  }

  /** A sub-answer the mode does not ask for can be anything. */
  lemma GradeIgnoresUnaskedField(item: Item, guess: Guess, other: string)
    ensures Grade(item, guess.(grammaticalCase := other), PrepOnly) == Grade(item, guess, PrepOnly)
    ensures Grade(item, guess.(prep := other), CaseOnly) == Grade(item, guess, CaseOnly)
  {
  }

  /** An item without a preposition (or without a case) fails every mode that checks that field. */
  lemma AbsentFieldNeverMatches(item: Item, guess: Guess, mode: Mode)
    ensures item.preposition.None? && mode != CaseOnly ==> !Grade(item, guess, mode)
    ensures item.grammaticalCase.None? && mode != PrepOnly ==> !Grade(item, guess, mode)
  {
  }

  /** Surrounding whitespace and letter case in the guess do not change the verdict. */
  lemma GradeInsensitive(item: Item, guess: Guess, mode: Mode, a: string, b: string, prep: string, cs: string)
    requires AllWhitespace(a) && AllWhitespace(b)
    requires ToLower(prep) == ToLower(guess.prep) && ToLower(cs) == ToLower(guess.grammaticalCase)
    ensures Grade(item, Guess(a + prep + b, a + cs + b), mode) == Grade(item, guess, mode)
  {
    MatchesInsensitive(a, b, prep, guess.prep, item.preposition);
    MatchesInsensitive(a, b, cs, guess.grammaticalCase, item.grammaticalCase);
  }

  /** One sub-answer: padding and letter case do not change whether it matches. */
  lemma MatchesInsensitive(a: string, b: string, typed: string, guessed: string, expected: Option<string>)
    requires AllWhitespace(a) && AllWhitespace(b) && ToLower(typed) == ToLower(guessed)
    ensures Matches(a + typed + b, expected) == Matches(guessed, expected)
  {
    NormalizeIgnoresPadding(a, typed, b);
    NormalizeIgnoresCase(typed, guessed);
  }

  /** Grading an already normalized guess gives the same verdict as grading the raw one. */
  lemma GradeOfNormalizedGuess(item: Item, guess: Guess, mode: Mode)
    ensures Grade(item, Guess(Normalize(guess.prep), Normalize(guess.grammaticalCase)), mode)
         == Grade(item, guess, mode)
  {
    NormalizeIdempotent(guess.prep);
    NormalizeIdempotent(guess.grammaticalCase);
  }
}
