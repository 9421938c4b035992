# Verb/preposition trainer: the progress engine in Dafny

This project models the adaptive progress engine of a German verb/preposition flash-card trainer
and proves properties of it. The trainer shows one item (a CSV row: verb, preposition, grammatical
case, example sentence) at a time. The user guesses the preposition and/or the case, depending on
the quiz mode. An item is *learned* after three correct answers in a row. Progress is kept per CSV
file in the browser's `localStorage`, keyed by each item's content rather than its row number, so
that it survives a reload or an edited dataset.

Two generations of the engine are modelled side by side:

- the **key-based trainer** (`src/VerbPrepositionTrainer.jsx`): item keys, grading, the mastery
  transition, the restore merge run on every (re)load of a file, per-file persistence, selection of
  the next unlearned item, restart, reset and the settings validators
  (modules `Items`, `JsText`, `Grading`, `Mastery`, `ProgressStore`, `Restore`, `Selection`,
  `Session`, `Settings`);
- the **index-based first version** (`src/App.jsx` with `src/utils.js`). It keeps progress by row
  index in memory and converts indices to keys when saving and back when restoring. A wrong answer
  does not reset its counter (modules `Legacy`, `Utils`).

Shared modelling choices:

- `Json` is the value `JSON.parse` produces, with JavaScript truthiness. It makes the `|| default`
  fallbacks exact.
- `Storage.Store` stands for `localStorage`: entry name to stored text. The text is either a JSON
  document or text `JSON.parse` rejects (`Garbled`). A missing entry reads as `null`. Every write
  takes a `writable` flag that says whether the host accepts it. A refused write throws.
- `Math.random()` is a parameter `rnd` with `0 <= rnd < 1`. `Math.floor(rnd * n)` is `Random.Scale`.
  The rejection loop of `getRandomIndex` runs over a finite sequence of draws. `None` means "still
  looping after these draws".
- `String.prototype.trim` uses the exact ECMAScript white-space and line-terminator set.
  `toLowerCase` is exact for ASCII and Latin-1.
- A CSV column missing from a row is `undefined`. It renders as the text `"undefined"` inside the item
  key and equals no string when grading.

Notable behaviours of the code:

- A missing `Preposition` or `Case` column never matches a guess (`Grading.AbsentFieldNeverMatches`).
  It is not treated as the empty string.
- When no unlearned item is left, the selector returns index 0 (`Selection.Select`). It does not
  signal a completed session.
- `saveProgressForFile` lets a refused write throw (`ProgressStore.SaveProgressForFile`).
- The restore merge pushes a key once per row. Two rows with the same key therefore count twice
  (`Restore.DuplicateRowsCountTwice`). "No duplicate learned keys" holds only for datasets with
  distinct keys (`Restore.Merge`).
- After the restore callback has picked an unlearned row, `fetchAndParseCSV` overrides the choice
  with `getRandomIndex(rows, progress.learned)`. That exclusion list holds item keys, never indices,
  so the row shown after a load may be a learned one (`Session.Load`, `Legacy.Load`; see Findings).
- Changing the CSV file overwrites the new file's stored progress with the old file's record before
  it is restored (`Session.SwitchFileAsWritten`; see Findings).

## Model

| member | source | states |
|---|---|---|
| Items.VerbKey | src/VerbPrepositionTrainer.jsx:144-146 | the key is as long as the three rendered fields plus the two separators |
| Items.KeyLayout | src/VerbPrepositionTrainer.jsx:144-146 | the key is the rendered verb, a separator, the rendered preposition, a separator and the rendered example, in that order |
| Items.KeyDeterminesFields | src/VerbPrepositionTrainer.jsx:144-146 | two items have the same key exactly when their verb, preposition and example agree, as long as verb and preposition contain no `\|` |
| Items.KeyCollisions | src/VerbPrepositionTrainer.jsx:144-146 | the case column is not part of the key, and an absent field collides with the literal text "undefined" |
| Items.KeySetIgnoresOrder | src/VerbPrepositionTrainer.jsx:144-146 | keys depend on content only: a reordered dataset has the same set of keys |
| Items.DistinctKeysCount | src/VerbPrepositionTrainer.jsx:144-146 | a dataset whose rows have distinct keys has as many keys as rows |
| JsText.TrimStart | src/VerbPrepositionTrainer.jsx:254 | the result is a suffix of the input, everything cut off is white space, and it does not start with white space |
| JsText.TrimEnd | src/VerbPrepositionTrainer.jsx:254 | the result is a prefix of the input, everything cut off is white space, and it does not end with white space |
| JsText.Trim | src/VerbPrepositionTrainer.jsx:254 | the trimmed string is a contiguous piece of the input with only white space cut away before and after it, and it has white space at neither end |
| JsText.LowerKeepsWhitespace | src/VerbPrepositionTrainer.jsx:254 | lower-casing maps white space to itself and nothing else to white space |
| JsText.TrimStartCommutesWithLower | src/VerbPrepositionTrainer.jsx:254 | trimming the start before or after lower-casing gives the same string |
| JsText.TrimEndCommutesWithLower | src/VerbPrepositionTrainer.jsx:254 | trimming the end before or after lower-casing gives the same string |
| JsText.LowerCommutesWithTrim | src/VerbPrepositionTrainer.jsx:250-257 | `trim` and `toLowerCase` commute |
| JsText.TrimStartOfPadded | src/VerbPrepositionTrainer.jsx:254 | leading white space added to a string disappears when the start is trimmed |
| JsText.TrimEndOfPadded | src/VerbPrepositionTrainer.jsx:254 | trailing white space added to a string disappears when the end is trimmed |
| JsText.TrimOfTrailingPadded | src/VerbPrepositionTrainer.jsx:254 | trailing white space does not change the fully trimmed string |
| JsText.TrimIgnoresPadding | src/VerbPrepositionTrainer.jsx:254 | white space around a string never changes its trim |
| JsText.TrimOfTrimmed | src/VerbPrepositionTrainer.jsx:254 | a string with no white space at either end is its own trim |
| JsText.NormalizeIdempotent | src/VerbPrepositionTrainer.jsx:250-257 | trimming and lower-casing twice is the same as doing it once |
| JsText.LowerTwice | src/VerbPrepositionTrainer.jsx:254 | lower-casing is idempotent |
| JsText.NormalizeIgnoresPadding | src/VerbPrepositionTrainer.jsx:254 | surrounding white space does not change a normalized answer |
| JsText.NormalizeIgnoresCase | src/VerbPrepositionTrainer.jsx:254 | two answers that agree up to letter case normalize to the same string |
| Grading.GradeByMode | src/VerbPrepositionTrainer.jsx:250-258 | mode `prep` judges only the preposition and mode `case` only the case, each present and equal after normalizing; mode `both` is the conjunction of the two |
| Grading.GradeIgnoresUnaskedField | src/VerbPrepositionTrainer.jsx:252-258 | the sub-answer a mode does not ask for can be anything |
| Grading.AbsentFieldNeverMatches | src/VerbPrepositionTrainer.jsx:250-257 | an item without a preposition fails every mode that checks it, and likewise for the case |
| Grading.MatchesInsensitive | src/VerbPrepositionTrainer.jsx:254 | padding and letter case of one sub-answer do not change whether it matches |
| Grading.GradeInsensitive | src/VerbPrepositionTrainer.jsx:250-257 | padding and letter case of the guess do not change the verdict in any mode |
| Grading.GradeOfNormalizedGuess | src/VerbPrepositionTrainer.jsx:250-257 | grading an already normalized guess gives the same verdict as grading the raw guess |
| Mastery.HandleGuess | src/VerbPrepositionTrainer.jsx:260-277 | the key's counter becomes previous + 1 (missing = 0) on a correct answer and 0 on a wrong one, and no other counter changes; the key is appended and the score rises by one only when the answer is correct, the new count is at least 3 and the key is not yet learned; the invariant (score = number learned, no duplicates, count at least 3 implies learned) is preserved |
| Mastery.StreakEffect | src/VerbPrepositionTrainer.jsx:261-270 | `n` correct answers in a row add `n` to the counter, and afterwards the key is learned exactly when it was learned before or the counter reached 3 |
| Mastery.ThreeInARow | src/VerbPrepositionTrainer.jsx:262-270 | an unlearned item at count 0 is learned after `n` correct answers in a row exactly when `n >= 3` |
| Mastery.AnswersKeepLearned | src/VerbPrepositionTrainer.jsx:263-270 | whatever the verdicts, the old learned list remains a prefix of the new one, and the invariant survives |
| Mastery.WrongAnswerKeepsLearned | src/VerbPrepositionTrainer.jsx:262-270 | a wrong answer on a learned item resets its counter to 0, keeps it learned and keeps the score |
| Mastery.WrongThenThreeRight | src/VerbPrepositionTrainer.jsx:260-277 | wrong, right, right leaves a fresh item unlearned; one more right learns it with score 1 and count 3 |
| Mastery.RunKeepsInvariant | src/VerbPrepositionTrainer.jsx:260-277 | over any sequence of graded answers the invariant holds, the learned list only grows at its end, and the score grows by exactly as much as the list |
| Storage.ParseItem | src/VerbPrepositionTrainer.jsx:119 | a missing entry parses to `null`, an unparsable one throws, and a stored document is returned as stored |
| Storage.SetItem | src/VerbPrepositionTrainer.jsx:125 | an accepted write stores the document under its name and changes no other entry; a refused write fails |
| Json.StringArray | src/VerbPrepositionTrainer.jsx:125 | the serialized array has one element per string and includes exactly the given strings |
| Json.NumberObject | src/VerbPrepositionTrainer.jsx:125 | the serialized object has exactly the record's keys, each holding its number |
| ProgressStore.ProgressKey | src/VerbPrepositionTrainer.jsx:114-116 | the entry name is `progress_` followed by the file name |
| ProgressStore.ProgressKeysAreSeparate | src/VerbPrepositionTrainer.jsx:114-116 | distinct files get distinct entries, and no file's entry is a settings entry or an entry of the index-based version |
| ProgressStore.LoadProgressForFile | src/VerbPrepositionTrainer.jsx:117-123 | the result is always truthy; a truthy parsed entry is returned as stored, and the result is the default snapshot exactly when the entry is missing, unparsable, falsy or itself the default |
| ProgressStore.LoadFallsBack | src/VerbPrepositionTrainer.jsx:117-123 | missing and unparsable entries read as `{score: 0, learned: [], attempts: {}}` |
| ProgressStore.SaveProgressForFile | src/VerbPrepositionTrainer.jsx:124-126 | an accepted save is read back as the saved document (the default if it is falsy); a refused save throws |
| ProgressStore.SaveIsIsolated | src/VerbPrepositionTrainer.jsx:124-126 | saving one file's progress changes neither what another file loads nor any other entry |
| ProgressStore.SnapshotDoc | src/VerbPrepositionTrainer.jsx:209-213 | the saved object has score = number of learned keys, exactly the learned keys, and exactly the counters |
| ProgressStore.PersistProgress | src/VerbPrepositionTrainer.jsx:207-215 | nothing is written before the restore or for an empty dataset; otherwise the snapshot is written and read back as is |
| Restore.MergeLearned | src/VerbPrepositionTrainer.jsx:173-184 | a key is in the new learned list exactly when a loaded row carries it and it was saved as learned or its saved count is at least 3; the list is no longer than the dataset |
| Restore.MergeAttempts | src/VerbPrepositionTrainer.jsx:172-178 | the new counters cover exactly the loaded keys, each with its saved count or 0 |
| Restore.Merge | src/VerbPrepositionTrainer.jsx:171-190 | score = number of learned keys; learned and counters as above, keys of other datasets dropped; with distinct keys the record satisfies the mastery invariant |
| Restore.NothingLearnedOnRestore | src/VerbPrepositionTrainer.jsx:176-184 | a snapshot under which no key counts as learned restores an empty learned list |
| Restore.MergeLearnedNoDuplicates | src/VerbPrepositionTrainer.jsx:176-184 | with distinct keys no key is pushed twice |
| Restore.MergeLearnedAppend | src/VerbPrepositionTrainer.jsx:176-184 | merging a concatenation of rows is merging each part in turn |
| Restore.MergeLearnedPermutation | src/VerbPrepositionTrainer.jsx:176-184 | reordering the rows permutes the learned list |
| Restore.RestoreIgnoresOrder | src/VerbPrepositionTrainer.jsx:171-190 | a reordered dataset restores to the same counters and score, with the learned list permuted |
| Restore.DuplicateRowsCountTwice | src/VerbPrepositionTrainer.jsx:176-190 | two rows with the same learned key push it twice and the score counts it twice |
| Restore.SaveThenRestore | src/VerbPrepositionTrainer.jsx:168-214 | saving a valid record and restoring it into the same dataset gives back the same learned keys and score, and every loaded key's counter (0 where none was kept) |
| Random.Scale | src/VerbPrepositionTrainer.jsx:290 | `Math.floor(rnd * n)` is an index of a non-empty range of `n`, and 0 for `n = 0` |
| Random.SlotStart | src/VerbPrepositionTrainer.jsx:290 | every index of a non-empty range is hit by some draw |
| Selection.UnlearnedFrom | src/VerbPrepositionTrainer.jsx:284-287 | the candidates from a row on are exactly the rows whose key is not learned, in ascending order |
| Selection.Unlearned | src/VerbPrepositionTrainer.jsx:284-287 | the candidate list holds exactly the unlearned rows, each once, in ascending order |
| Selection.Select | src/VerbPrepositionTrainer.jsx:284-292 | when some row is unlearned the chosen index is such a row; the candidate list is empty exactly when every key is learned, and then the index is 0 |
| Selection.NoCandidates | src/VerbPrepositionTrainer.jsx:288-292 | no candidates exactly when every row's key is learned |
| Selection.EveryCandidateReachable | src/VerbPrepositionTrainer.jsx:288-292 | every unlearned row is chosen for some draw |
| Selection.LastUnlearnedIsForced | src/VerbPrepositionTrainer.jsx:288-292 | when exactly one row is unlearned it is chosen whatever the draw |
| Session.Restored | src/VerbPrepositionTrainer.jsx:168-201 | the restore callback sets the merged record, leaves `showAnswer` as it was, shows an unlearned row when one exists, and with distinct keys gives a consistent session |
| Session.Load | src/csvLoader.js:25-35 | an empty dataset or a `learned` value without `includes` ends on the error screen, a draw sequence that is all excluded freezes the page, and otherwise the session has the merged record, the unchanged `showAnswer`, and the loader's drawn row: in range, not excluded, one of the draws; with distinct keys it is consistent |
| Session.LoadCanShowLearnedRow | src/csvLoader.js:33-34 | with the trainer's own snapshot handed to the loader, every row, a learned one included, is the row shown for some draw |
| Session.SwitchFileAsWritten | src/VerbPrepositionTrainer.jsx:206-215 | on a change of file after a restore, the loader gets the new file's stored snapshot, and the old record is written under the new file's entry (failing when the write is refused) |
| Session.SwitchFile | src/VerbPrepositionTrainer.jsx:206-215 | with the record written under the file it belongs to, the new file's entry and the loader's snapshot are the new file's own, and the old file keeps its record |
| Session.MergeOfEmptySnapshot | src/VerbPrepositionTrainer.jsx:171-190 | restoring the snapshot of an empty record learns nothing and sets every counter to 0 |
| Session.SwitchLosesNewFileProgress | src/VerbPrepositionTrainer.jsx:161-215 | as written, switching away from a fresh session makes the new file restore nothing learned and all counters 0, whatever its entry held |
| Session.SwitchThenLoad | src/VerbPrepositionTrainer.jsx:161-215 | with the corrected switch, the load that follows restores what was stored for the new file |
| Session.SubmitGuess | src/VerbPrepositionTrainer.jsx:247-278 | the record is updated with the graded answer for the shown row's key, the answer is revealed, and consistency is preserved |
| Session.GiveUp | src/VerbPrepositionTrainer.jsx:295-297 | giving up only reveals the answer |
| Session.NextVerb | src/VerbPrepositionTrainer.jsx:280-293 | the record is unchanged, the answer hidden, and the next row is unlearned when one exists and 0 otherwise |
| Session.Restart | src/VerbPrepositionTrainer.jsx:362-365 | the record is emptied and the shown row is any row of a non-empty dataset |
| Session.ResetAll | src/VerbPrepositionTrainer.jsx:579-584 | the record is emptied, the shown row is a row of a non-empty dataset, and the session stays consistent |
| Session.ResetMatchesRestart | src/VerbPrepositionTrainer.jsx:579-584 | with nothing excluded `getRandomIndex` stops at its first draw, so reset and restart agree on the same draw |
| Session.LearnedKeys | src/VerbPrepositionTrainer.jsx:354 | under the invariant the learned keys are dataset keys, as many as learned entries, and a dataset with distinct keys has one key per row |
| Session.NothingToSelectMeansAllKeys | src/VerbPrepositionTrainer.jsx:284-292 | no candidate is left exactly when the learned keys are all of the dataset's keys |
| Session.AllLearnedIffNothingToSelect | src/VerbPrepositionTrainer.jsx:354 | with distinct keys the completion screen (`learned.length === verbs.length`) appears exactly when no unlearned row is left to select |
| Session.StepKeepsConsistent | src/VerbPrepositionTrainer.jsx:247-297 | submit, give up, next, restart and reset all keep the session consistent and the dataset unchanged |
| Settings.InitialCsvFile | src/VerbPrepositionTrainer.jsx:108-112 | the file is always one of the listed files: the stored one when it is listed, the first otherwise |
| Settings.InitialMode | src/VerbPrepositionTrainer.jsx:129-132 | the mode is the stored one exactly when it names one of the three modes, `both` otherwise |
| Settings.InitialLevel | src/VerbPrepositionTrainer.jsx:134-137 | the level is 1 or 2, and 2 exactly when the stored text is `'2'` |
| Settings.SettingsRoundTrip | src/VerbPrepositionTrainer.jsx:108-137 | every mode, level and listed file the trainer stores is read back unchanged |
| Settings.SettingsFallBack | src/VerbPrepositionTrainer.jsx:108-137 | any other stored text falls back to the first file, mode `both` and level 1 |
| Utils.RejectionSample | src/utils.js:1-7 | a returned index is never excluded, lies in `[0, max)` for `max > 0` and is 0 for `max = 0`, and is one of the scaled draws; there is no result exactly when every draw was excluded |
| Utils.GetRandomIndex | src/utils.js:1-7 | the do-while loop computes the sampler's result and never returns an excluded index |
| Utils.SamplerStallsWhenAllExcluded | src/utils.js:3-5 | when the excluded indices cover the whole range, no sequence of draws ends the loop |
| Utils.SamplerCanReturnAnyFreeIndex | src/utils.js:4 | every index of the range that is not excluded is returned for some draw |
| Utils.SamplerOnEmptyRange | src/utils.js:4 | for `max = 0` the sampler returns 0, outside the empty range, whenever 0 is not excluded |
| Utils.LoadProgress | src/utils.js:9-15 | the result is truthy: the stored document when it is truthy, `{learned: [], score: 0}` when it is missing, unparsable or falsy |
| Utils.SaveProgress | src/utils.js:17-19 | a refused write fails; an accepted one is read back and leaves every other entry exactly as it was |
| Utils.LoadAttempts | src/utils.js:21-28 | `{}` when missing or unparsable, otherwise the stored document as it is |
| Utils.SaveAttempts | src/utils.js:30-34 | an accepted write is read back and leaves every other entry exactly as it was; a refused one is swallowed and leaves the store unchanged |
| Utils.WriteFailureHandling | src/utils.js:17-34 | on a refused write `saveProgress` fails while `saveAttempts` carries on |
| Utils.LoadAttemptsCanBeNull | src/utils.js:9-28 | a stored `null` reads back as `null` from the attempts entry but as the default from the progress entry |
| Legacy.HandleGuess | src/App.jsx:103-119 | a correct answer increments the row's counter and a wrong one leaves it; no other counter changes; the row is appended and the score rises only when the answer is correct, previous count + 1 is at least 3 and the row is not learned; validity for any dataset size containing the row is preserved |
| Legacy.AnswersAccumulate | src/App.jsx:104-116 | the counter adds up all correct answers, wrong ones in between included, and the row is learned exactly when it was before or the total reached 3 on a correct answer |
| Legacy.WrongAnswerDoesNotReset | src/App.jsx:104-106 | right, right, wrong, right learns the row here but not in the key-based trainer |
| Legacy.RestoredLearnedFrom | src/App.jsx:45-51 | the restored learned indices are exactly the rows whose key is in the saved learned list, in ascending order |
| Legacy.RestoredAttempts | src/App.jsx:42-44 | a row gets a counter exactly when a number is saved under its key, and it gets that number |
| Legacy.Restore | src/App.jsx:31-55 | nothing happens for an empty dataset; a stored `null` attempts document throws; otherwise the state is valid, its learned rows are those saved as learned, and its counters are the saved ones re-keyed to rows |
| Legacy.SavedLearnedKeys | src/App.jsx:60-65 | the saved keys are exactly the keys of the learned indices that are rows of the dataset |
| Legacy.Rekey | src/App.jsx:68-73 | every stored key belongs to a visited row, and every visited row with a counter has its key stored |
| Legacy.RekeyByRow | src/App.jsx:68-73 | with distinct keys a row's key is stored exactly when the row was visited and has a counter, and then with that counter |
| Legacy.RekeyLastWins | src/App.jsx:69-72 | when several rows share a key, the counter of the highest such row is the one stored |
| Legacy.SavedAttemptsMap | src/App.jsx:68-73 | the stored counters are keyed by item keys of the dataset, and with distinct keys every row's counter is stored under that row's key |
| Legacy.Persist | src/App.jsx:57-75 | nothing is written for an empty dataset; the effect fails exactly when the progress write is refused; an accepted progress write is read back; the attempts document is read back when its write is accepted and is left as it was when refused |
| Legacy.RefusedAttemptsKeepsOldCounters | src/App.jsx:57-75 | when only the attempts write is refused, a reload restores the state's learned rows together with the counters stored before |
| Legacy.LearnedRoundTrip | src/App.jsx:45-64 | with distinct keys a row's key is in the saved learned list exactly when the row is learned |
| Legacy.AttemptsRoundTrip | src/App.jsx:42-73 | with distinct keys a row's saved counter exists exactly when the row has one, and equals it |
| Legacy.RestoredAttemptsOfDoc | src/App.jsx:42-73 | restoring the saved attempts document gives back the state's counters |
| Legacy.RestoredLearnedOfDoc | src/App.jsx:45-64 | restoring the saved progress document gives back the learned rows and the score |
| Legacy.SaveThenRestore | src/App.jsx:31-75 | saving a valid state and restoring it into the same dataset gives back its learned rows, score and counters |
| Legacy.SubmitGuess | src/App.jsx:91-119 | the row shown is graded with the same mode rules and the state updated with the verdict; the answer is revealed and validity is kept |
| Legacy.GiveUp | src/App.jsx:128-131 | giving up only reveals the answer; progress and attempts are untouched |
| Legacy.NextVerb | src/App.jsx:122-126 | `nextVerb` returns exactly when some draw lands outside the learned rows; the returned row is such a draw, is not learned and lies in the dataset, the answer is hidden, and the rows and state are unchanged |
| Legacy.Restart | src/App.jsx:149-153 | score 0, no learned rows, no counters, and a row of the dataset is shown |
| Legacy.NextVerbStallsWhenAllLearned | src/App.jsx:122-126 | once every row is learned `nextVerb` never returns, whatever the draws |
| Legacy.UnlearnedRowsFrom | src/App.jsx:122-126 | the candidate rows from a row on are exactly those not learned, in ascending order |
| Legacy.NextVerbFromCandidates | src/App.jsx:122-126 | drawing from the unlearned rows always returns: the answer is hidden, the state unchanged, the row unlearned and in range when one exists and 0 when none is |
| Legacy.CandidatesAgreeWithSampler | src/App.jsx:122-126 | while an unlearned row is left, the row the candidate draw picks is one the rejection sampler also returns |
| Legacy.Load | src/App.jsx:27-75 | the error screen stays exactly when the dataset is empty; the page freezes exactly when every draw is excluded; otherwise the app crashes exactly when the start-up record's `learned` is not an array (the save effect's `map`) or the stored attempts document is `null` (the restore effect), and else shows the restored valid state with a starting row of the dataset that `learned` does not exclude |
| Legacy.NonArrayLearnedCrashes | src/App.jsx:57-65 | a stored `learned` that is not an array unmounts the app on the first load, even when the loader has already thrown |
| Legacy.LoadCanShowLearnedRow | src/App.jsx:27-29 | with stored keys in `learned`, every row is the starting row for some draw, learned or not |
| CsvLoader.Numbers | src/utils.js:5 | the numbers taken from an array are exactly its number elements |
| CsvLoader.IndicesIn | src/utils.js:5 | the indices taken from a string are exactly those below the dataset size whose decimal form occurs in it |
| CsvLoader.Exclusion | src/csvLoader.js:34 | `learned.includes(idx)` rejects the numbers of an array, the indices whose decimal form occurs in a string, and throws for every other value or a missing member |
| CsvLoader.StartIndex | src/csvLoader.js:33-34 | the loader's draw throws exactly when `learned` has no `includes`, keeps drawing exactly when every draw is excluded, and otherwise starts on a row of the dataset that is not excluded and is one of the draws |
| CsvLoader.KeysExcludeNothing | src/csvLoader.js:34 | a `learned` list of string keys excludes no index |
| CsvLoader.AnyRowCanStart | src/csvLoader.js:34 | with nothing excluded, every row is the starting row for some draw |

## Left out

- `src/csvLoader.js`: fetching, the check for an HTML page served instead of the file, and CSV parsing are network and library I/O. The parsed rows are an input of the model; what follows the parse (the empty-data error, the callback and the starting-row draw) is modelled in `CsvLoader`.
- `src/CaseAdjectiveTrainer.jsx` is a placeholder screen with no logic, and `vite.config.js` is build configuration.
- Rendering, styles, modals, the settings menu, hotkeys, auto-submit on level 1, input focus, the translation table and the per-language fallbacks are presentation only.
- `getPrepositionChoices` (src/VerbPrepositionTrainer.jsx:148-159) shuffles multiple-choice options with a random comparator. That randomness plays no part in progress.
- React effect scheduling, `setState` batching and the `isMounted` guard against a stale load are asynchronous UI timing. Each operation is modelled as one atomic step on the current state, except the load (callback, then the loader's own draw) and the commit that changes the file (fetch effect, then save effect).
- Legacy.Load: what the first save effect writes is not modelled, only whether it throws. It runs in the commit of the first load, after the restore effect has read storage, on the record read at start-up (src/App.jsx:14-15). For an array `learned` it writes the keys of the rows whose index is the string form of an element, and drops every other element, the stored item keys included. It writes the stored score as it is, and the counters of stored attempts whose names are row indices. The restored state is written over both documents on the next render. Storage writes during the load are taken to be accepted.
- The learned-list modal's own "is learned" test (src/VerbPrepositionTrainer.jsx:603) is display only.
- Random.Scale: probabilities are not modelled. Uniformity of selection is stated only as reachability: every candidate is picked for some draw (`Selection.EveryCandidateReachable`, `Utils.SamplerCanReturnAnyFreeIndex`).
- Utils.RejectionSample: the infinite loop is modelled as "no result after any finite sequence of draws", not as divergence.
- Restore.SavedCount: a saved counter that is not a number is read as 0. The trainer would carry it into the new record and compare it with 3 after coercion.
- Legacy.SavedCounter: a saved counter that is not a number is treated as absent. The first version would copy it as it is.
- Json: numbers are integers. Floating-point counters and scores are not modelled.
- JsText.ToLowerChar: lower-casing is exact for ASCII and Latin-1 letters only. Other Unicode case mappings are not modelled.
- Legacy.HandleGuess: the learned test reads the counter of the rendered state, as the updater on src/App.jsx:113 does. With one update per render this equals the counter updated on src/App.jsx:103-107, and that is the only case modelled.
- Settings.SettingsRoundTrip: the write of the mode (src/App.jsx:77-81) and of the level (src/VerbPrepositionTrainer.jsx:223-225) is represented by the stored text only. The effects themselves are not modelled.

## Findings

| source | as written | input that shows it | evidently intended | confidence | as-written member | corrected member |
|---|---|---|---|---|---|---|
| src/csvLoader.js:33-34 | after the restore callback has chosen an unlearned row, the loader sets the row again with `getRandomIndex(rows, progress.learned)`; the stored `learned` list holds item keys, so no index is excluded | a file whose stored progress has row 0's key learned, reloaded with the loader's draw 0.0: row 0 is shown although it is learned | the row shown after a load is the unlearned row the callback chose | not executed | Session.LoadCanShowLearnedRow | Session.Restored |
| src/VerbPrepositionTrainer.jsx:206-215 | in the commit that changes `csvFile` the save effect still sees `restored` and the old rows and record, but already the new file name, so it writes the old record under the new file's entry, which the restore callback then reads | on file A with nothing answered yet, switch to file B whose entry has learned keys: B is restored with nothing learned and every counter at 0 | the old record is written under the old file only, and B restores its own entry | not executed | Session.SwitchLosesNewFileProgress | Session.SwitchFile |
| src/App.jsx:122-126 | on the completion screen the Enter hotkey (src/App.jsx:83-89) still calls `nextVerb` while the answer is shown, and `getRandomIndex` then excludes every row and never returns | answer the last unlearned row correctly for the third time, then press Enter: the page freezes | `nextVerb` draws from the unlearned rows and returns row 0 when none is left, as the key-based trainer does | not executed | Legacy.NextVerbStallsWhenAllLearned | Legacy.NextVerbFromCandidates |
