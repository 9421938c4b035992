/** The first, single-dataset version of the trainer: progress is kept by row index in memory and
    converted to item keys when stored, back to indices when restored. A wrong answer does not reset
    the counter here, so it counts correct answers in total rather than in a row. */
module Legacy {
  import opened Wrappers
  import opened Json
  import opened Storage
  import opened Items
  import opened Grading
  import opened Random
  import Mastery
  import Utils
  import KeyRestore = Restore
  import opened CsvLoader

  datatype LegacyProgress = LegacyProgress(score: int, learned: seq<int>)

  /** The progress object and the attempts object (`{ [idx]: correctCount }`). */
  datatype State = State(progress: LegacyProgress, attempts: map<int, int>)

  const Fresh: State := State(LegacyProgress(0, []), map[])

  /** `attempts[idx] || 0`. */
  function CountAt(attempts: map<int, int>, idx: int): int {
    if idx in attempts then attempts[idx] else 0
  }

  /** The invariant for a dataset of `n` rows: the score counts the learned indices, none twice, and
      every index held is a row of the dataset. */
  predicate Valid(st: State, n: nat) {
    && st.progress.score == |st.progress.learned|
    && Mastery.NoDuplicates(st.progress.learned)
    && (forall i :: i in st.progress.learned ==> 0 <= i < n)
    && (forall i :: i in st.attempts ==> 0 <= i < n)
  }

  predicate LearnsNow(st: State, idx: int, correct: bool) {
    correct && CountAt(st.attempts, idx) + 1 >= Mastery.Threshold && idx !in st.progress.learned
  }

  /** `handleGuess` after grading, for the row `idx`. */
  function HandleGuess(st: State, idx: int, correct: bool): (r: State)
    ensures CountAt(r.attempts, idx) == CountAt(st.attempts, idx) + (if correct then 1 else 0)
    ensures r.attempts.Keys == st.attempts.Keys + {idx}
    ensures forall i :: i != idx && i in st.attempts ==> r.attempts[i] == st.attempts[i]
    ensures r.progress.learned == if LearnsNow(st, idx, correct) then st.progress.learned + [idx] else st.progress.learned
    ensures r.progress.score == if LearnsNow(st, idx, correct) then st.progress.score + 1 else st.progress.score
    ensures forall n: nat :: Valid(st, n) && 0 <= idx < n ==> Valid(r, n)
  {
    var prevCount := CountAt(st.attempts, idx);
    var newCount := if correct then prevCount + 1 else prevCount;
    var nextAttempts := CountAt(st.attempts, idx) + (if correct then 1 else 0);
    var learnsNow := correct && nextAttempts >= Mastery.Threshold && idx !in st.progress.learned;
    State(
      LegacyProgress(
        if learnsNow then st.progress.score + 1 else st.progress.score,
        if learnsNow then st.progress.learned + [idx] else st.progress.learned),
      st.attempts[idx := newCount])
  }

  /** The state after answering row `idx` with the given verdicts, in order. */
  function Answer(st: State, idx: int, verdicts: seq<bool>): State
    decreases |verdicts|
  {
    if |verdicts| == 0 then st else Answer(HandleGuess(st, idx, verdicts[0]), idx, verdicts[1..])
  }

  /** The number of correct verdicts. */
  function Corrects(verdicts: seq<bool>): nat
    decreases |verdicts|
  {
    if |verdicts| == 0 then 0 else (if verdicts[0] then 1 else 0) + Corrects(verdicts[1..])
  }

  /** The counter adds up every correct answer, wrong ones in between included, and the row is
      learned once that total reaches the threshold on a correct answer. */
  lemma {:induction false} AnswersAccumulate(st: State, idx: int, verdicts: seq<bool>)
    ensures CountAt(Answer(st, idx, verdicts).attempts, idx) == CountAt(st.attempts, idx) + Corrects(verdicts)
    ensures idx in Answer(st, idx, verdicts).progress.learned <==>
      idx in st.progress.learned || (Corrects(verdicts) > 0 && CountAt(st.attempts, idx) + Corrects(verdicts) >= Mastery.Threshold)
    decreases |verdicts|
  {
    if |verdicts| > 0 {
      AnswersAccumulate(HandleGuess(st, idx, verdicts[0]), idx, verdicts[1..]);
    }
  }

  /** Right, right, wrong, right: the index-keyed version learns the row, the key-based version,
      whose wrong answer resets the streak, does not. */
  lemma WrongAnswerDoesNotReset(idx: int, key: string)
    ensures idx in Answer(Fresh, idx, [true, true, false, true]).progress.learned
    ensures key !in Mastery.Answer(Mastery.Empty, key, [true, true, false, true]).learned
  {
    var v := [true, true, false, true];
    assert v[1..] == [true, false, true] && v[1..][1..] == [false, true] && v[1..][1..][1..] == [true];
    assert Corrects([true]) == 1;
    assert Corrects(v) == 3;
    AnswersAccumulate(Fresh, idx, v);
    var p2 := Mastery.HandleGuess(Mastery.HandleGuess(Mastery.Empty, key, true), key, true);
    var p3 := Mastery.HandleGuess(p2, key, false);
    assert Mastery.Answer(Mastery.Empty, key, v) == Mastery.Answer(p3, key, [true]);
  }

  // ---------------------------------------------------------------------------------------------
  // Restore: stored item keys back to row indices

  /** `savedAttempts[key]` when it is a number. */
  function SavedCounter(savedAttempts: Json, key: string): Option<int> {
    match Member(savedAttempts, key)
    case Some(JNum(n)) => Some(n)
    case _ => None
  }

  /** `newLearned` from row `from` on: the indices whose key was stored as learned, ascending. The
      test `savedProgress.learned.find(lk => lk === key)` yields the key itself, never the empty
      string, so it is the key-based trainer's membership test `KeyRestore.SavedLearned`. */
  function RestoredLearnedFrom(verbs: seq<Item>, savedProgress: Json, from: nat): (r: seq<int>)
    requires from <= |verbs|
    ensures forall i :: i in r <==> from <= i < |verbs| && KeyRestore.SavedLearned(savedProgress, VerbKey(verbs[i]))
    ensures forall a, b :: 0 <= a < b < |r| ==> r[a] < r[b]
    decreases |verbs| - from
  {
    if from == |verbs| then []
    else
      var rest := RestoredLearnedFrom(verbs, savedProgress, from + 1);
      assert forall b :: 0 <= b < |rest| ==> rest[b] in rest;
      if KeyRestore.SavedLearned(savedProgress, VerbKey(verbs[from])) then [from] + rest else rest
  }

  /** `newAttempts`: the stored counter of each row's key, for the rows that have one. */
  function RestoredAttempts(verbs: seq<Item>, savedAttempts: Json): (r: map<int, int>)
    ensures forall i :: i in r <==> 0 <= i < |verbs| && SavedCounter(savedAttempts, VerbKey(verbs[i])).Some?
    ensures forall i :: i in r ==> r[i] == SavedCounter(savedAttempts, VerbKey(verbs[i])).value
  {
    map i | 0 <= i < |verbs| && SavedCounter(savedAttempts, VerbKey(verbs[i])).Some? ::
      SavedCounter(savedAttempts, VerbKey(verbs[i])).value
  }

  /** The restore effect. Nothing happens while no rows are loaded; a stored attempts document that is
      `null` makes the first `savedAttempts[key]` throw. */
  function Restore(verbs: seq<Item>, current: State, savedProgress: Json, savedAttempts: Json): (r: Result<State, string>)
    ensures |verbs| == 0 ==> r == Ok(current)
    ensures |verbs| > 0 ==> (r.Err? <==> savedAttempts == JNull)
    ensures |verbs| > 0 && r.Ok? ==> Valid(r.value, |verbs|)
    ensures |verbs| > 0 && r.Ok? ==>
      forall i :: i in r.value.progress.learned <==> 0 <= i < |verbs| && KeyRestore.SavedLearned(savedProgress, VerbKey(verbs[i]))
    ensures |verbs| > 0 && r.Ok? ==> r.value.attempts == RestoredAttempts(verbs, savedAttempts)
  {
    if |verbs| == 0 then Ok(current)
    else if savedAttempts == JNull then Err("TypeError: cannot read properties of null")
    else
      var learned := RestoredLearnedFrom(verbs, savedProgress, 0);
      assert Mastery.NoDuplicates(learned);
      Ok(State(LegacyProgress(|learned|, learned), RestoredAttempts(verbs, savedAttempts)))
  }

  /** The restore effect reading its two documents from storage. */
  function RestoreFromStore(verbs: seq<Item>, current: State, store: Store): Result<State, string> {
    Restore(verbs, current, Utils.LoadProgress(store), Utils.LoadAttempts(store))
  }

  // ---------------------------------------------------------------------------------------------
  // Save: row indices to item keys

  /** `learned.map(idx => verbs[idx] ? getVerbKey(verbs[idx]) : null).filter(Boolean)`: indices
      outside the dataset are dropped. */
  function SavedLearnedKeys(verbs: seq<Item>, learned: seq<int>): (r: seq<string>)
    ensures forall k :: k in r <==> exists i :: i in learned && 0 <= i < |verbs| && VerbKey(verbs[i]) == k
    decreases |learned|
  {
    if |learned| == 0 then []
    else
      var rest := SavedLearnedKeys(verbs, learned[1..]);
      assert forall i :: i in learned <==> i == learned[0] || i in learned[1..];
      if 0 <= learned[0] < |verbs| then [VerbKey(verbs[learned[0]])] + rest else rest
  }

  /** The key of every row, by position. */
  function RowKeys(verbs: seq<Item>): (ks: seq<string>)
    ensures |ks| == |verbs|
    ensures forall i :: 0 <= i < |verbs| ==> ks[i] == VerbKey(verbs[i])
  {
    seq(|verbs|, i requires 0 <= i < |verbs| => VerbKey(verbs[i]))
  }

  /** `attemptsToSave` after visiting the rows below `n` in ascending order: each row that has a
      counter writes it under the row's key, a later row overwriting an earlier one. */
  function Rekey(keys: seq<string>, attempts: map<int, int>, n: nat): (r: map<string, int>)
    requires n <= |keys|
    ensures forall k :: k in r ==> k in keys[..n]
    ensures forall i :: 0 <= i < n && i in attempts ==> keys[i] in r
    decreases n
  {
    if n == 0 then map[]
    else
      var m := Rekey(keys, attempts, n - 1);
      assert keys[..n] == keys[..n - 1] + [keys[n - 1]];
      if n - 1 in attempts then m[keys[n - 1] := attempts[n - 1]] else m
  }

  /** With distinct keys every row's counter lands under its own key and nowhere else. */
  lemma {:induction false} RekeyByRow(keys: seq<string>, attempts: map<int, int>, n: nat, i: int)
    requires n <= |keys| && 0 <= i < |keys|
    requires forall a, b :: 0 <= a < b < |keys| ==> keys[a] != keys[b]
    ensures keys[i] in Rekey(keys, attempts, n) <==> i < n && i in attempts
    ensures i < n && i in attempts ==> Rekey(keys, attempts, n)[keys[i]] == attempts[i]
    decreases n
  {
    if n > 0 {
      RekeyByRow(keys, attempts, n - 1, i);
      assert i != n - 1 ==> keys[i] != keys[n - 1];
    }
  }

  /** `Object.entries` visits integer keys in ascending order, so when two rows share a key the
      counter of the higher row is the one stored. */
  lemma {:induction false} RekeyLastWins(keys: seq<string>, attempts: map<int, int>, n: nat, i: int)
    requires n <= |keys| && 0 <= i < n && i in attempts
    requires forall j :: i < j < n && j in attempts ==> keys[j] != keys[i]
    ensures Rekey(keys, attempts, n)[keys[i]] == attempts[i]
    decreases n
  {
    if i < n - 1 {
      RekeyLastWins(keys, attempts, n - 1, i);
    }
  }

  /** The counters the save effect stores, keyed by item key. */
  function SavedAttemptsMap(verbs: seq<Item>, attempts: map<int, int>): (r: map<string, int>)
    ensures forall k :: k in r ==> k in KeySet(verbs)
    ensures DistinctKeys(verbs) ==>
      forall i :: 0 <= i < |verbs| && i in attempts ==> VerbKey(verbs[i]) in r && r[VerbKey(verbs[i])] == attempts[i]
  {
    var keys := RowKeys(verbs);
    var r := Rekey(keys, attempts, |verbs|);
    assert forall k :: k in r ==> k in KeySet(verbs) by {
      forall k | k in r ensures k in KeySet(verbs) {
        var i :| 0 <= i < |verbs| && keys[i] == k;
        KeyOfRow(verbs, i);
      }
    }
    assert DistinctKeys(verbs) ==> forall i :: 0 <= i < |verbs| && i in attempts ==> keys[i] in r && r[keys[i]] == attempts[i] by {
      if DistinctKeys(verbs) {
        RowKeysDistinct(verbs);
        forall i | 0 <= i < |verbs| && i in attempts ensures keys[i] in r && r[keys[i]] == attempts[i] {
          RekeyByRow(keys, attempts, |verbs|, i);
        }
      }
    }
    r
  }

  /** The two documents the save effect writes. */
  function ProgressDoc(verbs: seq<Item>, st: State): Json {
    JObj(map["score" := JNum(st.progress.score), "learned" := StringArray(SavedLearnedKeys(verbs, st.progress.learned))])
  }

  function AttemptsDoc(verbs: seq<Item>, st: State): Json {
    NumberObject(SavedAttemptsMap(verbs, st.attempts))
  }

  /** The save effect: nothing while no rows are loaded. The two writes are accepted or refused
      separately: a refused `saveProgress` throws before the attempts are written, a refused
      `saveAttempts` is swallowed and leaves the stored attempts as they were. */
  function Persist(store: Store, verbs: seq<Item>, st: State, progressWritable: bool, attemptsWritable: bool)
    : (r: Result<Store, StorageError>)
    ensures |verbs| == 0 ==> r == Ok(store)
    ensures |verbs| > 0 ==> (r.Ok? <==> progressWritable)
    ensures |verbs| > 0 && r.Ok? ==> Utils.LoadProgress(r.value) == ProgressDoc(verbs, st)
    ensures |verbs| > 0 && r.Ok? && attemptsWritable ==> Utils.LoadAttempts(r.value) == AttemptsDoc(verbs, st)
    ensures |verbs| > 0 && r.Ok? && !attemptsWritable ==> Utils.LoadAttempts(r.value) == Utils.LoadAttempts(store)
  {
    if |verbs| == 0 then Ok(store)
    else
      match Utils.SaveProgress(store, ProgressDoc(verbs, st), progressWritable)
      case Err(e) => Err(e)
      case Ok(saved) =>
        var r := Utils.SaveAttempts(saved, AttemptsDoc(verbs, st), attemptsWritable);
        assert Utils.AttemptsEntry != Utils.ProgressEntry;
        Ok(r)
  }

  lemma LearnedRoundTrip(verbs: seq<Item>, st: State, i: int)
    requires DistinctKeys(verbs) && Valid(st, |verbs|) && 0 <= i < |verbs|
    ensures KeyRestore.SavedLearned(ProgressDoc(verbs, st), VerbKey(verbs[i])) <==> i in st.progress.learned
  {
    var keys := SavedLearnedKeys(verbs, st.progress.learned);
    if VerbKey(verbs[i]) in keys {
      var j :| j in st.progress.learned && 0 <= j < |verbs| && VerbKey(verbs[j]) == VerbKey(verbs[i]);
      assert j == i;
    }
  }

  lemma RowKeysDistinct(verbs: seq<Item>)
    requires DistinctKeys(verbs)
    ensures forall a, b :: 0 <= a < b < |RowKeys(verbs)| ==> RowKeys(verbs)[a] != RowKeys(verbs)[b]
  {
  }

  /** A counter read back from a stored object of numbers is the stored number. */
  lemma CounterOfNumberObject(m: map<string, int>, k: string)
    ensures SavedCounter(NumberObject(m), k) == if k in m then Some(m[k]) else None
  {
  }

  lemma AttemptsRoundTrip(verbs: seq<Item>, st: State, i: int)
    requires DistinctKeys(verbs) && 0 <= i < |verbs|
    ensures SavedCounter(AttemptsDoc(verbs, st), VerbKey(verbs[i])).Some? <==> i in st.attempts
    ensures i in st.attempts ==> SavedCounter(AttemptsDoc(verbs, st), VerbKey(verbs[i])).value == st.attempts[i]
  {
    var keys := RowKeys(verbs);
    RowKeysDistinct(verbs);
    RekeyByRow(keys, st.attempts, |verbs|, i);
    CounterOfNumberObject(Rekey(keys, st.attempts, |verbs|), keys[i]);
  }

  /** Two maps with the same keys and the same value under each key are equal. */
  lemma SameEntries(m: map<int, int>, a: map<int, int>)
    requires forall i :: i in m ==> i in a && m[i] == a[i]
    requires forall i :: i in a ==> i in m
    ensures m == a
  {
    forall i | i in m.Keys ensures i in a.Keys {
      assert i in m;
    }
    forall i | i in a.Keys ensures i in m.Keys {
      assert i in a;
    }
    assert m.Keys == a.Keys;
    assert forall i :: i in m.Keys ==> m[i] == a[i];
  }

  /** Restoring the two documents written for a valid state gives the state's counters back. */
  lemma RestoredAttemptsOfDoc(verbs: seq<Item>, st: State)
    requires DistinctKeys(verbs) && Valid(st, |verbs|)
    ensures RestoredAttempts(verbs, AttemptsDoc(verbs, st)) == st.attempts
  {
    var doc := AttemptsDoc(verbs, st);
    var m := RestoredAttempts(verbs, doc);
    forall i | i in m ensures i in st.attempts && m[i] == st.attempts[i] {
      AttemptsRoundTrip(verbs, st, i);
    }
    forall i | i in st.attempts ensures i in m {
      AttemptsRoundTrip(verbs, st, i);
    }
    SameEntries(m, st.attempts);
  }

  /** Restoring the progress document written for a valid state gives back the same learned rows. */
  lemma RestoredLearnedOfDoc(verbs: seq<Item>, st: State, r: State)
    requires DistinctKeys(verbs) && Valid(st, |verbs|) && Valid(r, |verbs|)
    requires forall i :: i in r.progress.learned <==> 0 <= i < |verbs| && KeyRestore.SavedLearned(ProgressDoc(verbs, st), VerbKey(verbs[i]))
    ensures forall i :: i in r.progress.learned <==> i in st.progress.learned
    ensures r.progress.score == st.progress.score
  {
    forall i | 0 <= i < |verbs| ensures KeyRestore.SavedLearned(ProgressDoc(verbs, st), VerbKey(verbs[i])) <==> i in st.progress.learned {
      LearnedRoundTrip(verbs, st, i);
    }
    assert forall i :: i in r.progress.learned <==> i in st.progress.learned;
    Mastery.SameElementsSameLength(r.progress.learned, st.progress.learned);
  }

  /** Storing a valid state and restoring it into the same dataset gives back the same learned rows,
      the same score and the same counters. */
  lemma SaveThenRestore(store: Store, verbs: seq<Item>, st: State, current: State)
    requires |verbs| > 0 && DistinctKeys(verbs) && Valid(st, |verbs|)
    ensures Persist(store, verbs, st, true, true).Ok?
    ensures var r := RestoreFromStore(verbs, current, Persist(store, verbs, st, true, true).value);
      && r.Ok?
      && (forall i :: i in r.value.progress.learned <==> i in st.progress.learned)
      && r.value.progress.score == st.progress.score
      && r.value.attempts == st.attempts
  {
    var stored := Persist(store, verbs, st, true, true).value;
    var pdoc, adoc := Utils.LoadProgress(stored), Utils.LoadAttempts(stored);
    assert pdoc == ProgressDoc(verbs, st) && adoc == AttemptsDoc(verbs, st);
    var r := Restore(verbs, current, pdoc, adoc);
    assert r.Ok?;
    RestoredLearnedOfDoc(verbs, st, r.value);
    RestoredAttemptsOfDoc(verbs, st);
  }

  /** When only the attempts write is refused, a reload gets the state's learned rows back but the
      counters of the attempts document stored before. */
  lemma RefusedAttemptsKeepsOldCounters(store: Store, verbs: seq<Item>, st: State, current: State)
    requires |verbs| > 0 && DistinctKeys(verbs) && Valid(st, |verbs|)
    requires Utils.LoadAttempts(store) != JNull
    ensures Persist(store, verbs, st, true, false).Ok?
    ensures var r := RestoreFromStore(verbs, current, Persist(store, verbs, st, true, false).value);
      && r.Ok?
      && (forall i :: i in r.value.progress.learned <==> i in st.progress.learned)
      && r.value.attempts == RestoredAttempts(verbs, Utils.LoadAttempts(store))
  {
    var stored := Persist(store, verbs, st, true, false).value;
    var pdoc, adoc := Utils.LoadProgress(stored), Utils.LoadAttempts(stored);
    assert pdoc == ProgressDoc(verbs, st) && adoc == Utils.LoadAttempts(store);
    var r := Restore(verbs, current, pdoc, adoc);
    assert r.Ok?;
    RestoredLearnedOfDoc(verbs, st, r.value);
  }

  // ---------------------------------------------------------------------------------------------
  // The round loop

  datatype Session = Session(verbs: seq<Item>, state: State, current: int, revealed: bool)

  /** `handleGuess` on the displayed row. */
  function SubmitGuess(s: Session, mode: Mode, guess: Guess): (r: Session)
    requires 0 <= s.current < |s.verbs|
    ensures r.state == HandleGuess(s.state, s.current, Grade(s.verbs[s.current], guess, mode))
    ensures r.revealed && r.current == s.current && r.verbs == s.verbs
    ensures Valid(s.state, |s.verbs|) ==> Valid(r.state, |s.verbs|)
  {
    s.(state := HandleGuess(s.state, s.current, Grade(s.verbs[s.current], guess, mode)), revealed := true)
  }

  /** `giveUp`: reveals the answer; progress and attempts are untouched. */
  function GiveUp(s: Session): (r: Session)
    ensures r.state == s.state && r.current == s.current && r.verbs == s.verbs && r.revealed
  {
    s.(revealed := true)
  }

  /** `nextVerb` on a finite supply of draws: `None` while `getRandomIndex` is still rejecting. */
  function NextVerb(s: Session, draws: seq<real>): (r: Option<Session>)
    requires AreDraws(draws)
    ensures r.None? <==> forall j :: 0 <= j < |draws| ==> Scale(draws[j], |s.verbs|) in s.state.progress.learned
    ensures r.Some? ==> r.value.current !in s.state.progress.learned && !r.value.revealed
    ensures r.Some? && |s.verbs| > 0 ==> 0 <= r.value.current < |s.verbs|
    ensures r.Some? ==> r.value.state == s.state && r.value.verbs == s.verbs
    ensures r.Some? ==> exists j :: 0 <= j < |draws| && Scale(draws[j], |s.verbs|) == r.value.current
  {
    match Utils.RejectionSample(|s.verbs|, s.state.progress.learned, draws)
    case Some(idx) => Some(s.(current := idx, revealed := false))
    case None => None
  }

  /** The Restart button: everything cleared, a row drawn with nothing excluded. */
  function Restart(s: Session, rnd: real): (r: Session)
    requires IsDraw(rnd)
    ensures r.state == Fresh && r.verbs == s.verbs
    ensures |s.verbs| > 0 ==> 0 <= r.current < |s.verbs|
  {
    s.(state := Fresh, current := Utils.RejectionSample(|s.verbs|, [], [rnd]).value)
  }

  /** The indices `0 .. n - 1`. */
  function IndexRange(n: nat): (r: set<int>)
    ensures forall i :: i in r <==> 0 <= i < n
    ensures |r| == n
  {
    if n == 0 then {} else IndexRange(n - 1) + {n - 1}
  }

  /** Once every row is learned, `nextVerb` never returns: all draws are rejected. */
  lemma NextVerbStallsWhenAllLearned(s: Session, draws: seq<real>)
    requires AreDraws(draws) && |s.verbs| > 0
    requires Valid(s.state, |s.verbs|) && |s.state.progress.learned| == |s.verbs|
    ensures NextVerb(s, draws) == None
  {
    var learned := s.state.progress.learned;
    var range := IndexRange(|s.verbs|);
    var learnedSet := set i | i in learned;
    Mastery.DistinctElementsCount(learned);
    assert learnedSet <= range;
    assert |range - learnedSet| == |range| - |learnedSet| == 0;
    assert range == learnedSet;
    assert forall i :: 0 <= i < |s.verbs| ==> i in learned by {
      forall i | 0 <= i < |s.verbs| ensures i in learned {
        assert i in range;
      }
    }
    Utils.SamplerStallsWhenAllExcluded(|s.verbs|, learned, draws);
  }

  /** The indices from `from` up to `n` that are not in `learned`, ascending. */
  function UnlearnedRowsFrom(n: nat, learned: seq<int>, from: nat): (r: seq<int>)
    requires from <= n
    ensures forall i :: i in r <==> from <= i < n && i !in learned
    ensures forall a, b :: 0 <= a < b < |r| ==> r[a] < r[b]
    decreases n - from
  {
    if from == n then []
    else
      var rest := UnlearnedRowsFrom(n, learned, from + 1);
      assert forall b :: 0 <= b < |rest| ==> rest[b] in rest;
      if from !in learned then [from] + rest else rest
  }

  /** `nextVerb` drawing from the explicit list of unlearned rows, as the key-based trainer does:
      it always returns, with row 0 when nothing is left. */
  function NextVerbFromCandidates(s: Session, rnd: real): (r: Session)
    requires IsDraw(rnd)
    ensures r.state == s.state && r.verbs == s.verbs && !r.revealed
    ensures (exists i :: 0 <= i < |s.verbs| && i !in s.state.progress.learned) ==>
      0 <= r.current < |s.verbs| && r.current !in s.state.progress.learned
    ensures (forall i :: 0 <= i < |s.verbs| ==> i in s.state.progress.learned) ==> r.current == 0
  {
    var candidates := UnlearnedRowsFrom(|s.verbs|, s.state.progress.learned, 0);
    if |candidates| > 0 then
      var i := candidates[Scale(rnd, |candidates|)];
      assert i in candidates;
      s.(current := i, revealed := false)
    else
      assert forall i :: 0 <= i < |s.verbs| ==> i in s.state.progress.learned by {
        forall i | 0 <= i < |s.verbs| ensures i in s.state.progress.learned {
          assert i !in candidates;
        }
      }
      s.(current := 0, revealed := false)
  }

  /** The candidate list changes nothing about which rows can come next: whenever an unlearned row
      is left, the row it picks is one the rejection sampler returns for some draws. */
  lemma CandidatesAgreeWithSampler(s: Session, rnd: real)
    requires IsDraw(rnd)
    requires exists i :: 0 <= i < |s.verbs| && i !in s.state.progress.learned
    ensures NextVerb(s, [SlotStart(NextVerbFromCandidates(s, rnd).current, |s.verbs|)]) == Some(NextVerbFromCandidates(s, rnd))
  {
    var r := NextVerbFromCandidates(s, rnd);
    Utils.SamplerCanReturnAnyFreeIndex(|s.verbs|, s.state.progress.learned, r.current);
  }

  /** `Array.isArray(progress.learned)` for the record read at start-up: only then can the save
      effect call `progress.learned.map`. */
  predicate LearnedIsArray(doc: Json) {
    Member(doc, "learned").Some? && Member(doc, "learned").value.JArr?
  }

  /** The first version's load. The state starts as `loadProgress()`, and `fetchAndParseCSV` is
      handed the same document and draws the starting row. In the commit that sets the rows the
      restore effect runs first and throws on a stored `null` attempts document; the save effect
      then runs on the start-up record and throws unless its `learned` is an array. An exception in
      either effect unmounts the app, so the loader's own error text is never what stays on screen
      for a non-empty dataset. */
  function Load(verbs: seq<Item>, store: Store, draws: seq<real>): (r: Loaded<Session>)
    requires AreDraws(draws)
    ensures r.ErrorScreen? <==> |verbs| == 0
    ensures r.Frozen? <==> |verbs| > 0 && StartIndex(|verbs|, Utils.LoadProgress(store), draws).StillDrawing?
    ensures r.Crashed? <==>
      && |verbs| > 0
      && !StartIndex(|verbs|, Utils.LoadProgress(store), draws).StillDrawing?
      && (!LearnedIsArray(Utils.LoadProgress(store)) || Utils.LoadAttempts(store) == JNull)
    ensures r.Shown? ==> Ok(r.session.state) == RestoreFromStore(verbs, Fresh, store) && !r.session.revealed
    ensures r.Shown? ==> r.session.verbs == verbs && 0 <= r.session.current < |verbs|
    ensures r.Shown? ==>
      Exclusion(Utils.LoadProgress(store), |verbs|).Some? &&
      r.session.current !in Exclusion(Utils.LoadProgress(store), |verbs|).value
    ensures r.Shown? ==> Valid(r.session.state, |verbs|)
  {
    if |verbs| == 0 then ErrorScreen
    else
      var doc := Utils.LoadProgress(store);
      var start := StartIndex(|verbs|, doc, draws);
      if start.StillDrawing? then Frozen
      else if !LearnedIsArray(doc) then Crashed
      else
        match RestoreFromStore(verbs, Fresh, store)
        case Err(_) => Crashed
        case Ok(st) => Shown(Session(verbs, st, start.idx, false))
  }

  /** A stored `learned` that is not an array never leaves the loader's error text on screen: the save
      effect's `progress.learned.map` unmounts the app, even when the loader itself has thrown. */
  lemma NonArrayLearnedCrashes(verbs: seq<Item>, store: Store, draws: seq<real>)
    requires AreDraws(draws) && |verbs| > 0
    requires !LearnedIsArray(Utils.LoadProgress(store))
    requires !StartIndex(|verbs|, Utils.LoadProgress(store), draws).StillDrawing?
    ensures Load(verbs, store, draws) == Crashed
  {
  }

  /** As in the key-based trainer, the stored `learned` list holds keys, so the starting row may be a
      learned one: every row is shown first for some draw. */
  lemma LoadCanShowLearnedRow(verbs: seq<Item>, store: Store, keys: seq<string>, i: nat)
    requires i < |verbs| && Utils.LoadAttempts(store) != JNull
    requires Member(Utils.LoadProgress(store), "learned") == Some(StringArray(keys))
    ensures Load(verbs, store, [SlotStart(i, |verbs|)]).Shown?
    ensures Load(verbs, store, [SlotStart(i, |verbs|)]).session.current == i
  {
    KeysExcludeNothing(Utils.LoadProgress(store), keys, |verbs|);
    AnyRowCanStart(|verbs|, Utils.LoadProgress(store), i);
  }
}
