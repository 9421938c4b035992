/** The key-based mastery transition (`handleGuess`, second half): a consecutive-correct counter per
    item key and a sticky, append-only list of learned keys. */
module Mastery {

  /** The progress record of one dataset: `score`, the learned keys in the order they were learned,
      and the consecutive-correct counter of each key. */
  datatype Progress = Progress(score: int, learned: seq<string>, attempts: map<string, int>)

  /** Correct answers in a row needed to learn an item. */
  const Threshold: int := 3

  /** The record after a restart or a reset. */
  const Empty: Progress := Progress(0, [], map[])

  /** `attempts[key] || 0`: a key never graded counts 0. */
  function Count(attempts: map<string, int>, key: string): int {
    if key in attempts then attempts[key] else 0
  }

  predicate NoDuplicates<T(==)>(s: seq<T>) {
    forall i, j :: 0 <= i < j < |s| ==> s[i] != s[j]
  }

  /** A list without repetitions has as many distinct elements as entries. */
  lemma {:induction false} DistinctElementsCount<T>(s: seq<T>)
    requires NoDuplicates(s)
    ensures |set x | x in s| == |s|
    decreases |s|
  {
    if |s| > 0 {
      var p := s[..|s| - 1];
      assert s == p + [s[|s| - 1]];
      DistinctElementsCount(p);
      assert (set x | x in s) == (set x | x in p) + {s[|s| - 1]};
      assert s[|s| - 1] !in p;
    }
  }

  /** Two lists without repetitions that hold the same elements have the same length. */
  lemma SameElementsSameLength<T>(s: seq<T>, t: seq<T>)
    requires NoDuplicates(s) && NoDuplicates(t)
    requires forall x :: x in s <==> x in t
    ensures |s| == |t|
  {
    DistinctElementsCount(s);
    DistinctElementsCount(t);
    assert (set x | x in s) == (set x | x in t);
  }

  /** The invariant of a progress record: the score is the number of learned keys, no key is learned
      twice, and every key whose counter reached the threshold is learned. */
  predicate Valid(p: Progress) {
    && p.score == |p.learned|
    && NoDuplicates(p.learned)
    && forall k :: k in p.attempts && p.attempts[k] >= Threshold ==> k in p.learned
  }

  /** Whether this answer is the one that learns `key`. */
  predicate LearnsNow(p: Progress, key: string, correct: bool) {
    correct && Count(p.attempts, key) + 1 >= Threshold && key !in p.learned
  }

  /** The progress update of one graded answer for the item with key `key`. */
  function HandleGuess(p: Progress, key: string, correct: bool): (r: Progress)
    ensures Count(r.attempts, key) == if correct then Count(p.attempts, key) + 1 else 0
    ensures r.attempts.Keys == p.attempts.Keys + {key}
    ensures forall k :: k != key && k in p.attempts ==> r.attempts[k] == p.attempts[k]
    ensures r.learned == if LearnsNow(p, key, correct) then p.learned + [key] else p.learned
    ensures r.score == if LearnsNow(p, key, correct) then p.score + 1 else p.score
    ensures key in r.learned <==> key in p.learned || (correct && Count(p.attempts, key) + 1 >= Threshold)
    ensures Valid(p) ==> Valid(r)
  {
    var newCount := if correct then Count(p.attempts, key) + 1 else 0;
    var learnsNow := correct && newCount >= Threshold && key !in p.learned;
    Progress(
      if learnsNow then p.score + 1 else p.score,
      if learnsNow then p.learned + [key] else p.learned,
      p.attempts[key := newCount])
  }

  /** The record after answering the item `key` with the given verdicts, in order. */
  function Answer(p: Progress, key: string, verdicts: seq<bool>): Progress
    decreases |verdicts|
  {
    if |verdicts| == 0 then p else Answer(HandleGuess(p, key, verdicts[0]), key, verdicts[1..])
  }

  /** `n` correct verdicts. */
  function Streak(n: nat): (s: seq<bool>)
    ensures |s| == n && forall i :: 0 <= i < n ==> s[i]
  {
    seq(n, i => true)
  }

  /** A run of `n > 0` correct answers adds `n` to the counter, and the key is learned at its end
      exactly when it was learned before or the counter reached the threshold. */
  lemma {:induction false} StreakEffect(p: Progress, key: string, n: nat)
    requires n > 0
    ensures Count(Answer(p, key, Streak(n)).attempts, key) == Count(p.attempts, key) + n
    ensures key in Answer(p, key, Streak(n)).learned <==>
      key in p.learned || Count(p.attempts, key) + n >= Threshold
    decreases n
  {
    var q := HandleGuess(p, key, true);
    assert Streak(n)[1..] == Streak(n - 1);
    if n > 1 {
      StreakEffect(q, key, n - 1);
    }
  }

  /** An item whose counter is at zero and that is not learned yet is learned after exactly three
      correct answers in a row, and not after fewer. */
  lemma ThreeInARow(p: Progress, key: string, n: nat)
    requires key !in p.learned && Count(p.attempts, key) == 0
    ensures key in Answer(p, key, Streak(n)).learned <==> n >= Threshold
  {
    if n > 0 {
      StreakEffect(p, key, n);
    }
  }

  /** Learning is sticky and append-only: whatever the verdicts, every learned key stays learned at
      its place, and the invariant survives. */
  lemma {:induction false} AnswersKeepLearned(p: Progress, key: string, verdicts: seq<bool>)
    ensures p.learned <= Answer(p, key, verdicts).learned
    ensures Valid(p) ==> Valid(Answer(p, key, verdicts))
    decreases |verdicts|
  {
    if |verdicts| > 0 {
      AnswersKeepLearned(HandleGuess(p, key, verdicts[0]), key, verdicts[1..]);
    }
  }

  /** A wrong answer resets the counter even of a learned item, which stays learned. */
  lemma WrongAnswerKeepsLearned(p: Progress, key: string)
    requires key in p.learned
    ensures Count(HandleGuess(p, key, false).attempts, key) == 0
    ensures key in HandleGuess(p, key, false).learned
    ensures HandleGuess(p, key, false).score == p.score
  {
  }

  /** A fresh item answered wrong, then right three times: it is not learned after the third answer,
      it is learned after the fourth, and the score rises by exactly one, at that point. */
  lemma WrongThenThreeRight(key: string)
    ensures Answer(Empty, key, [false, true, true]).learned == []
    ensures Answer(Empty, key, [false, true, true, true]) == Progress(1, [key], map[key := 3])
  {
    var p1 := HandleGuess(Empty, key, false);
    var p2 := HandleGuess(p1, key, true);
    var p3 := HandleGuess(p2, key, true);
    var p4 := HandleGuess(p3, key, true);
    assert [false, true, true][1..] == [true, true];
    assert [true, true][1..] == [true];
    assert [false, true, true, true][1..] == [true, true, true];
    assert [true, true, true][1..] == [true, true];
    assert Answer(Empty, key, [false, true, true]) == p3;
    assert Answer(Empty, key, [false, true, true, true]) == p4;
  }

  /** One graded answer of a session: the key of the item shown and the verdict. */
  datatype Event = Event(key: string, correct: bool)

  /** The record after a sequence of graded answers on any items. */
  function Run(p: Progress, events: seq<Event>): Progress
    decreases |events|
  {
    if |events| == 0 then p else Run(HandleGuess(p, events[0].key, events[0].correct), events[1..])
  }

  /** Over a whole session the invariant holds, the learned list only grows at its end, and the score
      grows exactly with it. */
  lemma {:induction false} RunKeepsInvariant(p: Progress, events: seq<Event>)
    requires Valid(p)
    ensures Valid(Run(p, events))
    ensures p.learned <= Run(p, events).learned
    ensures Run(p, events).score - p.score == |Run(p, events).learned| - |p.learned|
    decreases |events|
  {
    if |events| > 0 {
      RunKeepsInvariant(HandleGuess(p, events[0].key, events[0].correct), events[1..]);
    }
  }
}
