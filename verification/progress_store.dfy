/** Per-file persistence of the key-based trainer: `getProgressKey`, `loadProgressForFile`,
    `saveProgressForFile` and the save effect that writes after every change. */
module ProgressStore {
  import opened Wrappers
  import opened Json
  import opened Storage
  import opened Mastery

  const Prefix: string := "progress_"

  /** The names of the entries the trainer keeps outside the per-file namespace. */
  const OtherEntries: set<string> := {"csvFile", "mode", "level", "progress", "attempts"}

  /** `getProgressKey`: the storage entry of one CSV file. */
  function ProgressKey(file: string): (name: string)
    ensures |name| == |Prefix| + |file| && name[..|Prefix|] == Prefix && name[|Prefix|..] == file
  {
    Prefix + file
  }

  /** The snapshot used when nothing usable is stored: `{score: 0, learned: [], attempts: {}}`. */
  const DefaultDoc: Json := JObj(map["score" := JNum(0), "learned" := JArr([]), "attempts" := JObj(map[])])

  /** `loadProgressForFile`: the parsed entry of `file` when it parses to a truthy value, the default
      snapshot otherwise (missing, unparsable, or a falsy document). */
  function LoadProgressForFile(store: Store, file: string): (r: Json)
    ensures Truthy(r)
    ensures r == DefaultDoc <==>
      match ParseItem(store, ProgressKey(file))
      case None => true
      case Some(v) => !Truthy(v) || v == DefaultDoc
    ensures ParseItem(store, ProgressKey(file)).Some? && Truthy(ParseItem(store, ProgressKey(file)).value) ==>
      r == ParseItem(store, ProgressKey(file)).value
  {
    match ParseItem(store, ProgressKey(file))
    case Some(v) => if Truthy(v) then v else DefaultDoc
    case None => DefaultDoc
  }

  /** `saveProgressForFile`: overwrites the entry of `file`; a refused write throws. */
  function SaveProgressForFile(store: Store, file: string, doc: Json, writable: bool): (r: Result<Store, StorageError>)
    ensures r.Ok? <==> writable
    ensures r.Ok? ==> LoadProgressForFile(r.value, file) == if Truthy(doc) then doc else DefaultDoc
  {
    SetItem(store, ProgressKey(file), doc, writable)
  }

  /** The object the save effect serializes: the score is recomputed as the number of learned keys. */
  function SnapshotDoc(p: Progress): (doc: Json)
    ensures Truthy(doc)
    ensures Member(doc, "score") == Some(JNum(|p.learned|))
    ensures Member(doc, "learned").Some? && forall k :: ArrayIncludesString(Member(doc, "learned").value, k) <==> k in p.learned
    ensures Member(doc, "attempts").Some? && Member(doc, "attempts").value.JObj?
    ensures forall k :: Member(Member(doc, "attempts").value, k).Some? <==> k in p.attempts
    ensures forall k :: k in p.attempts ==> Member(Member(doc, "attempts").value, k) == Some(JNum(p.attempts[k]))
  {
    JObj(map["score" := JNum(|p.learned|), "learned" := StringArray(p.learned), "attempts" := NumberObject(p.attempts)])
  }

  /** The save effect: once the file's progress has been restored and the dataset is not empty, every
      change of the progress record is written through. */
  function PersistProgress(store: Store, file: string, p: Progress, restored: bool, datasetSize: nat, writable: bool)
    : (r: Result<Store, StorageError>)
    ensures !restored || datasetSize == 0 ==> r == Ok(store)
    ensures restored && datasetSize > 0 ==> r.Ok? == writable
    ensures restored && datasetSize > 0 && r.Ok? ==> LoadProgressForFile(r.value, file) == SnapshotDoc(p)
  {
    if !restored || datasetSize == 0 then Ok(store)
    else SaveProgressForFile(store, file, SnapshotDoc(p), writable)
  }

  /** Missing and unparsable entries read as the default snapshot. */
  lemma LoadFallsBack(store: Store, file: string)
    ensures ProgressKey(file) !in store ==> LoadProgressForFile(store, file) == DefaultDoc
    ensures ProgressKey(file) in store && store[ProgressKey(file)] == Garbled ==> LoadProgressForFile(store, file) == DefaultDoc
  {
  }

  /** The per-file entries form their own namespace: distinct files use distinct entries, and no file's
      entry is one of the settings or the older single-dataset entries. */
  lemma ProgressKeysAreSeparate(f: string, g: string)
    ensures ProgressKey(f) == ProgressKey(g) <==> f == g
    ensures ProgressKey(f) !in OtherEntries
  {
    if ProgressKey(f) == ProgressKey(g) {
      assert f == ProgressKey(f)[|Prefix|..] == ProgressKey(g)[|Prefix|..] == g;
    }
    assert ProgressKey(f)[8] == '_';
  }

  /** Saving the progress of one file changes nothing another file reads, nor any other entry. */
  lemma SaveIsIsolated(store: Store, f: string, g: string, doc: Json)
    requires f != g
    ensures LoadProgressForFile(SaveProgressForFile(store, f, doc, true).value, g) == LoadProgressForFile(store, g)
    ensures forall name :: name in OtherEntries ==>
      ParseItem(SaveProgressForFile(store, f, doc, true).value, name) == ParseItem(store, name)
  {
    ProgressKeysAreSeparate(f, g);
  }
}
