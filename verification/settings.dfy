/** The stored settings of the key-based trainer and their defaults: the CSV file, the quiz mode and
    the level. Each reads the raw text `localStorage.getItem` returns (`None` when missing). */
module Settings {
  import opened Wrappers
  import opened Grading

  /** `CSV_FILES`: the datasets the trainer offers, the first being the default. */
  const CsvFiles: seq<string> := ["/AdjectifAndPreposition.csv", "/Top_50_Verbes_avec_exemples_traduits.csv"]

  /** The stored CSV file when it is one of the listed files, the first listed file otherwise. */
  function InitialCsvFile(stored: Option<string>): (file: string)
    ensures file in CsvFiles
    ensures stored.Some? && stored.value in CsvFiles ==> file == stored.value
    ensures !(stored.Some? && stored.value in CsvFiles) ==> file == CsvFiles[0]
  {
    match stored
    case Some(s) => if s != "" && s in CsvFiles then s else CsvFiles[0]
    case None => CsvFiles[0]
  }

  /** The text under which a mode is stored. */
  function ModeName(mode: Mode): string {
    match mode
    case PrepOnly => "prep"
    case CaseOnly => "case"
    case Both => "both"
  }

  /** The stored mode when it names one of the three modes, `'both'` otherwise. */
  function InitialMode(stored: Option<string>): (mode: Mode)
    ensures stored.Some? && stored.value in {"prep", "case", "both"} ==> ModeName(mode) == stored.value
    ensures !(stored.Some? && stored.value in {"prep", "case", "both"}) ==> mode == Both
  {
    match stored
    case Some(s) =>
      if s == "prep" then PrepOnly
      else if s == "case" then CaseOnly
      else Both
    case None => Both
  }

  /** The level: 2 (text input) only for the stored text `'2'`, 1 (multiple choice) otherwise. */
  function InitialLevel(stored: Option<string>): (level: int)
    ensures level == 1 || level == 2
    ensures level == 2 <==> stored == Some("2")
  {
    if stored == Some("2") then 2 else 1
  }

  /** The text `setItem('level', level)` stores for a numeric level. */
  function LevelText(level: int): string
    requires level == 1 || level == 2
  {
    if level == 2 then "2" else "1"
  }

  /** Every setting the trainer itself writes is read back unchanged. */
  lemma SettingsRoundTrip(mode: Mode, level: int, file: string)
    requires level == 1 || level == 2
    requires file in CsvFiles
    ensures InitialMode(Some(ModeName(mode))) == mode
    ensures InitialLevel(Some(LevelText(level))) == level
    ensures InitialCsvFile(Some(file)) == file
  {
  }

  /** Any other stored text falls back to the defaults. */
  lemma SettingsFallBack(text: string)
    requires text !in CsvFiles && text !in {"prep", "case", "both"} && text != "2"
    ensures InitialCsvFile(Some(text)) == CsvFiles[0]
    ensures InitialMode(Some(text)) == Both
    ensures InitialLevel(Some(text)) == 1
  {
  }
}
