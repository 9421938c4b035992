/** The per-round loop of the key-based trainer: restore on load, grade, give up, advance, restart
    and reset. The displayed item is `verbs[current]`; `revealed` is `showAnswer`. */
module Session {
  import opened Wrappers
  import opened Json
  import opened Items
  import opened Grading
  import opened Mastery
  import opened Random
  import opened Selection
  import opened Restore
  import opened Storage
  import opened ProgressStore
  import opened CsvLoader
  import Utils

  datatype Session = Session(verbs: seq<Item>, progress: Progress, current: nat, revealed: bool)

  /** What every step keeps: a valid progress record that only mentions keys of the loaded rows. */
  predicate Consistent(s: Session) {
    && Valid(s.progress)
    && (forall k :: k in s.progress.learned ==> k in KeySet(s.verbs))
    && s.progress.attempts.Keys <= KeySet(s.verbs)
  }

  /** The completion screen is shown when there are as many learned keys as rows. */
  predicate AllLearned(s: Session) {
    |s.progress.learned| == |s.verbs|
  }

  /** The restore callback of the fetch effect: the merged record and a random unlearned row (0 when
      none is left). The callback does not touch `showAnswer`, so `revealed` carries over. */
  function Restored(verbs: seq<Item>, saved: Json, rnd: real, revealed: bool): (s: Session)
    requires IsDraw(rnd)
    ensures s.verbs == verbs && s.progress == Merge(verbs, saved) && s.revealed == revealed
    ensures DistinctKeys(verbs) ==> Consistent(s)
    ensures (exists i :: 0 <= i < |verbs| && VerbKey(verbs[i]) !in s.progress.learned) ==>
      s.current < |verbs| && VerbKey(verbs[s.current]) !in s.progress.learned
  {
    var p := Merge(verbs, saved);
    var s := Session(verbs, p, Select(verbs, p.learned, rnd), revealed);
    assert (exists i :: 0 <= i < |verbs| && VerbKey(verbs[i]) !in p.learned) ==> |Unlearned(verbs, p.learned)| > 0 by {
      if i :| 0 <= i < |verbs| && VerbKey(verbs[i]) !in p.learned {
        assert i in Unlearned(verbs, p.learned);
      }
    }
    s
  }

  /** A whole load of `verbs`: `fetchAndParseCSV` gets `loaderDoc`, the file's snapshot read when the
      load began, and the callback reads `saved` when the rows arrive. After the callback the loader
      draws its own starting row from `loaderDoc.learned`, and that draw is the row shown. */
  function Load(verbs: seq<Item>, loaderDoc: Json, saved: Json, rnd: real, draws: seq<real>, revealed: bool)
    : (r: Loaded<Session>)
    requires IsDraw(rnd) && AreDraws(draws)
    ensures r.ErrorScreen? <==> |verbs| == 0 || Exclusion(loaderDoc, |verbs|).None?
    ensures r.Frozen? <==>
      && |verbs| > 0 && Exclusion(loaderDoc, |verbs|).Some?
      && forall j :: 0 <= j < |draws| ==> Scale(draws[j], |verbs|) in Exclusion(loaderDoc, |verbs|).value
    ensures !r.Crashed?
    ensures r.Shown? ==>
      r.session.verbs == verbs && r.session.progress == Merge(verbs, saved) && r.session.revealed == revealed
    ensures r.Shown? ==> r.session.current < |verbs| && r.session.current !in Exclusion(loaderDoc, |verbs|).value
    ensures r.Shown? ==> exists j :: 0 <= j < |draws| && Scale(draws[j], |verbs|) == r.session.current
    ensures r.Shown? && DistinctKeys(verbs) ==> Consistent(r.session)
  {
    if |verbs| == 0 then ErrorScreen
    else
      var s := Restored(verbs, saved, rnd, revealed);
      match StartIndex(|verbs|, loaderDoc, draws)
      case Threw => ErrorScreen
      case StillDrawing => Frozen
      case Start(i) => Shown(s.(current := i))
  }

  /** The loader's exclusion list holds indices but the stored `learned` list holds keys, so after a
      load any row may be on screen, a learned one included: the draw that lands in row `i`'s slot
      shows row `i`, whatever `saved` says about its key. */
  lemma LoadCanShowLearnedRow(verbs: seq<Item>, p: Progress, saved: Json, rnd: real, revealed: bool, i: nat)
    requires IsDraw(rnd) && i < |verbs|
    ensures Load(verbs, SnapshotDoc(p), saved, rnd, [SlotStart(i, |verbs|)], revealed) ==
      Shown(Session(verbs, Merge(verbs, saved), i, revealed))
  {
    KeysExcludeNothing(SnapshotDoc(p), p.learned, |verbs|);
    AnyRowCanStart(|verbs|, SnapshotDoc(p), i);
  }

  /** The store after a change of `csvFile`, and the snapshot the new load was handed. */
  datatype Switched = Switched(store: Store, loaderDoc: Json)

  /** The commit in which `csvFile` changes to `newFile` while `s` is on screen, as written: the fetch
      effect reads the new file's snapshot for the loader; the save effect of the same commit still
      sees `restored` and the rows and record of the old file, but already the new name, so it writes
      the old record under the new file's entry. */
  function SwitchFileAsWritten(store: Store, s: Session, restored: bool, newFile: string, writable: bool)
    : (r: Result<Switched, StorageError>)
    ensures r.Ok? ==> r.value.loaderDoc == LoadProgressForFile(store, newFile)
    ensures !restored || |s.verbs| == 0 ==> r == Ok(Switched(store, LoadProgressForFile(store, newFile)))
    ensures restored && |s.verbs| > 0 ==> (r.Ok? <==> writable)
    ensures restored && |s.verbs| > 0 && r.Ok? ==> LoadProgressForFile(r.value.store, newFile) == SnapshotDoc(s.progress)
  {
    var loaderDoc := LoadProgressForFile(store, newFile);
    match PersistProgress(store, newFile, s.progress, restored, |s.verbs|, writable)
    case Ok(st) => Ok(Switched(st, loaderDoc))
    case Err(e) => Err(e)
  }

  /** The switch with the save effect writing under the file whose record it holds: the new file's
      entry is left as it was, and the old file keeps its record. */
  function SwitchFile(store: Store, s: Session, restored: bool, oldFile: string, newFile: string, writable: bool)
    : (r: Result<Switched, StorageError>)
    requires oldFile != newFile
    ensures r.Ok? ==> r.value.loaderDoc == LoadProgressForFile(store, newFile)
    ensures r.Ok? ==> LoadProgressForFile(r.value.store, newFile) == LoadProgressForFile(store, newFile)
    ensures !restored || |s.verbs| == 0 ==> r == Ok(Switched(store, LoadProgressForFile(store, newFile)))
    ensures restored && |s.verbs| > 0 ==> (r.Ok? <==> writable)
    ensures restored && |s.verbs| > 0 && r.Ok? ==> LoadProgressForFile(r.value.store, oldFile) == SnapshotDoc(s.progress)
  {
    var loaderDoc := LoadProgressForFile(store, newFile);
    match PersistProgress(store, oldFile, s.progress, restored, |s.verbs|, writable)
    case Ok(st) =>
      SaveIsIsolated(store, oldFile, newFile, SnapshotDoc(s.progress));
      Ok(Switched(st, loaderDoc))
    case Err(e) => Err(e)
  }

  /** Nothing is restored from the record of a fresh session. */
  lemma MergeOfEmptySnapshot(verbs: seq<Item>)
    ensures Merge(verbs, SnapshotDoc(Empty)).learned == []
    ensures forall k :: k in Merge(verbs, SnapshotDoc(Empty)).attempts ==> Merge(verbs, SnapshotDoc(Empty)).attempts[k] == 0
  {
    var doc := SnapshotDoc(Empty);
    forall k ensures !LearnedOnRestore(doc, k) && SavedCount(doc, k) == 0 {
      assert Member(SavedAttempts(doc), k).None?;
    }
    NothingLearnedOnRestore(verbs, doc);
  }

  /** As written, switching away from a fresh session wipes the new file's progress: whatever its
      entry held, the load that follows restores nothing learned and every counter at 0. */
  lemma SwitchLosesNewFileProgress(store: Store, s: Session, newFile: string, newVerbs: seq<Item>)
    requires |s.verbs| > 0 && s.progress == Empty
    ensures SwitchFileAsWritten(store, s, true, newFile, true).Ok?
    ensures var saved := LoadProgressForFile(SwitchFileAsWritten(store, s, true, newFile, true).value.store, newFile);
      && Merge(newVerbs, saved).learned == []
      && forall k :: k in Merge(newVerbs, saved).attempts ==> Merge(newVerbs, saved).attempts[k] == 0
  {
    MergeOfEmptySnapshot(newVerbs);
  }

  /** With the save written under the old file, the load that follows a switch restores exactly what
      was stored for the new file. */
  lemma SwitchThenLoad(store: Store, s: Session, restored: bool, oldFile: string, newFile: string, writable: bool,
                       newVerbs: seq<Item>, rnd: real, draws: seq<real>)
    requires oldFile != newFile && IsDraw(rnd) && AreDraws(draws)
    requires SwitchFile(store, s, restored, oldFile, newFile, writable).Ok?
    ensures var sw := SwitchFile(store, s, restored, oldFile, newFile, writable).value;
      var r := Load(newVerbs, sw.loaderDoc, LoadProgressForFile(sw.store, newFile), rnd, draws, s.revealed);
      r.Shown? ==> r.session.progress == Merge(newVerbs, LoadProgressForFile(store, newFile))
  {
  }

  /** `handleGuess` on the displayed row: grade, update the record, reveal the answer. */
  function SubmitGuess(s: Session, mode: Mode, guess: Guess): (r: Session)
    requires s.current < |s.verbs|
    ensures r.verbs == s.verbs && r.current == s.current && r.revealed
    ensures r.progress == HandleGuess(s.progress, VerbKey(s.verbs[s.current]), Grade(s.verbs[s.current], guess, mode))
    ensures Consistent(s) ==> Consistent(r)
  {
    var key := VerbKey(s.verbs[s.current]);
    assert key in KeySet(s.verbs);
    s.(progress := HandleGuess(s.progress, key, Grade(s.verbs[s.current], guess, mode)), revealed := true)
  }

  /** `giveUp`: the answer is revealed and nothing is graded. */
  function GiveUp(s: Session): (r: Session)
    ensures r.progress == s.progress && r.current == s.current && r.verbs == s.verbs
    ensures r.revealed
  {
    s.(revealed := true)
  }

  /** `nextVerb`: hide the answer and show a random unlearned row, or row 0 when none is left. */
  function NextVerb(s: Session, rnd: real): (r: Session)
    requires IsDraw(rnd)
    ensures r.progress == s.progress && r.verbs == s.verbs && !r.revealed
    ensures (exists i :: 0 <= i < |s.verbs| && VerbKey(s.verbs[i]) !in s.progress.learned) ==>
      r.current < |s.verbs| && VerbKey(s.verbs[r.current]) !in s.progress.learned
    ensures (forall i :: 0 <= i < |s.verbs| ==> VerbKey(s.verbs[i]) in s.progress.learned) ==> r.current == 0
  {
    var learned := s.progress.learned;
    assert (exists i :: 0 <= i < |s.verbs| && VerbKey(s.verbs[i]) !in learned) ==> |Unlearned(s.verbs, learned)| > 0 by {
      if i :| 0 <= i < |s.verbs| && VerbKey(s.verbs[i]) !in learned {
        assert i in Unlearned(s.verbs, learned);
      }
    }
    s.(current := Select(s.verbs, learned, rnd), revealed := false)
  }

  /** The Restart button of the completion screen: empty record, a random row of the whole dataset. */
  function Restart(s: Session, rnd: real): (r: Session)
    requires IsDraw(rnd)
    ensures r.progress == Empty && r.verbs == s.verbs && r.revealed == s.revealed
    ensures |s.verbs| > 0 ==> r.current < |s.verbs|
    ensures Consistent(r)
  {
    s.(progress := Empty, current := if |s.verbs| > 0 then Scale(rnd, |s.verbs|) else 0)
  }

  /** "Reset All" in the learned list: empty record, and a row drawn by `getRandomIndex` with nothing
      excluded, which stops at its first draw. */
  function ResetAll(s: Session, rnd: real): (r: Session)
    requires IsDraw(rnd)
    ensures r.progress == Empty && r.verbs == s.verbs
    ensures |s.verbs| > 0 ==> r.current < |s.verbs|
    ensures Consistent(r)
  {
    var drawn := Utils.RejectionSample(|s.verbs|, [], [rnd]);
    s.(progress := Empty, current := drawn.value)
  }

  /** With nothing excluded the sampler stops at its first draw, so a reset picks the same row as a
      restart given the same draw. */
  lemma ResetMatchesRestart(s: Session, rnd: real)
    requires IsDraw(rnd)
    ensures ResetAll(s, rnd) == Restart(s, rnd)
  {
  }

  lemma SubsetOfSameSize<T>(a: set<T>, b: set<T>)
    requires a <= b && |a| == |b|
    ensures a == b
  {
    assert |b - a| == |b| - |a|;
  }

  /** Under the invariant the learned keys are among the dataset's keys and, with distinct keys,
      count as many as the learned list. */
  lemma LearnedKeys(s: Session)
    requires Consistent(s) && DistinctKeys(s.verbs)
    ensures (set k | k in s.progress.learned) <= KeySet(s.verbs)
    ensures |set k | k in s.progress.learned| == |s.progress.learned|
    ensures |KeySet(s.verbs)| == |s.verbs|
  {
    DistinctElementsCount(s.progress.learned);
    DistinctKeysCount(s.verbs);
  }

  /** Every row's key is learned exactly when the learned keys are all the dataset's keys. */
  lemma NothingToSelectMeansAllKeys(s: Session)
    requires Consistent(s)
    ensures |Unlearned(s.verbs, s.progress.learned)| == 0 <==> (set k | k in s.progress.learned) == KeySet(s.verbs)
  {
    var learnedSet := set k | k in s.progress.learned;
    var candidates := Unlearned(s.verbs, s.progress.learned);
    if |candidates| == 0 {
      forall k | k in KeySet(s.verbs) ensures k in learnedSet {
        var item :| item in s.verbs && VerbKey(item) == k;
        var i :| 0 <= i < |s.verbs| && s.verbs[i] == item;
        assert i !in candidates;
      }
    } else if learnedSet == KeySet(s.verbs) {
      var i := candidates[0];
      assert i in candidates;
      KeyOfRow(s.verbs, i);
      assert false;
    }
  }

  /** For a dataset with distinct keys, the completion screen appears exactly when no unlearned row is
      left to select. */
  lemma AllLearnedIffNothingToSelect(s: Session)
    requires Consistent(s) && DistinctKeys(s.verbs)
    ensures AllLearned(s) <==> |Unlearned(s.verbs, s.progress.learned)| == 0
  {
    LearnedKeys(s);
    NothingToSelectMeansAllKeys(s);
    var learnedSet := set k | k in s.progress.learned;
    if AllLearned(s) {
      SubsetOfSameSize(learnedSet, KeySet(s.verbs));
    }
  }

  /** A session loaded from distinct keys stays consistent through any sequence of steps. */
  datatype Step = Submit(mode: Mode, guess: Guess) | Reveal | Next(rnd: real) | RestartStep(rnd: real) | ResetStep(rnd: real)

  predicate StepAllowed(s: Session, step: Step) {
    match step
    case Submit(_, _) => s.current < |s.verbs|
    case Reveal => true
    case Next(rnd) => IsDraw(rnd)
    case RestartStep(rnd) => IsDraw(rnd)
    case ResetStep(rnd) => IsDraw(rnd)
  }

  function Apply(s: Session, step: Step): Session
    requires StepAllowed(s, step)
  {
    match step
    case Submit(mode, guess) => SubmitGuess(s, mode, guess)
    case Reveal => GiveUp(s)
    case Next(rnd) => NextVerb(s, rnd)
    case RestartStep(rnd) => Restart(s, rnd)
    case ResetStep(rnd) => ResetAll(s, rnd)
  }

  lemma StepKeepsConsistent(s: Session, step: Step)
    requires Consistent(s) && StepAllowed(s, step)
    ensures Consistent(Apply(s, step))
    ensures Apply(s, step).verbs == s.verbs
  {
  }
}
