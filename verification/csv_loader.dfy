/** The part of `fetchAndParseCSV` that runs once the rows are parsed: an empty dataset is an error,
    otherwise the rows are handed to the caller's callback and a starting row is drawn with
    `getRandomIndex(rows, progress.learned)`, where `progress` is the snapshot the caller passed in
    when the load began. Fetching and parsing themselves are I/O and not modelled. */
module CsvLoader {
  import opened Wrappers
  import opened Json
  import opened Random
  import Utils

  /** What the screen shows once a load has finished. */
  datatype Loaded<S> =
    | Shown(session: S)
    | ErrorScreen   // `setCsvError` was called: the error text replaces the trainer
    | Frozen        // `getRandomIndex` is still rejecting draws: the page never renders again
    | Crashed       // an exception escaped an effect: React unmounts the whole tree

  function Digit(d: nat): char
    requires d < 10
  {
    "0123456789"[d]
  }

  /** `String(n)`: the decimal digits of `n`, most significant first. */
  function Decimal(n: nat): (r: string)
    ensures |r| > 0
    ensures forall i :: 0 <= i < |r| ==> '0' <= r[i] <= '9'
    decreases n
  {
    if n < 10 then [Digit(n)] else Decimal(n / 10) + [Digit(n % 10)]
  }

  /** `s.includes(t)` for strings. */
  predicate Occurs(t: string, s: string) {
    exists i :: 0 <= i <= |s| && t <= s[i..]
  }

  /** The numbers held by an array, in order. */
  function Numbers(items: seq<Json>): (r: seq<int>)
    ensures forall n :: n in r <==> JNum(n) in items
    decreases |items|
  {
    if |items| == 0 then []
    else
      var rest := Numbers(items[1..]);
      assert forall v :: v in items <==> v == items[0] || v in items[1..];
      if items[0].JNum? then [items[0].n] + rest else rest
  }

  /** The indices below `n` whose decimal form occurs in `s`, ascending. */
  function IndicesIn(s: string, n: nat): (r: seq<int>)
    ensures forall i :: i in r <==> 0 <= i < n && Occurs(Decimal(i), s)
    decreases n
  {
    if n == 0 then []
    else
      var rest := IndicesIn(s, n - 1);
      if Occurs(Decimal(n - 1), s) then rest + [n - 1] else rest
  }

  /** The draws `progress.learned.includes(idx)` rejects, for a dataset of `n` rows. An array
      compares its elements with the index without coercion, so only numbers can match; a string
      looks for the index's decimal form as a substring; any other value, or no `learned` member at
      all, has no `includes` method and the call throws (`None`). */
  function Exclusion(doc: Json, n: nat): (r: Option<seq<int>>)
    ensures r.None? <==> !(Member(doc, "learned").Some? && (Member(doc, "learned").value.JArr? || Member(doc, "learned").value.JStr?))
    ensures Member(doc, "learned").Some? && Member(doc, "learned").value.JArr? ==>
      r.Some? && forall i :: i in r.value <==> JNum(i) in Member(doc, "learned").value.items
    ensures Member(doc, "learned").Some? && Member(doc, "learned").value.JStr? ==>
      r.Some? && forall i :: i in r.value <==> 0 <= i < n && Occurs(Decimal(i), Member(doc, "learned").value.s)
  {
    match Member(doc, "learned")
    case Some(JArr(items)) => Some(Numbers(items))
    case Some(JStr(s)) => Some(IndicesIn(s, n))
    case _ => None
  }

  /** How the draw of the starting row ends. */
  datatype Start = Start(idx: nat) | Threw | StillDrawing

  /** `setCurrentIdx(getRandomIndex(results.data.length, progress.learned))` for a non-empty dataset
      of `n` rows, fed with the draws `draws`. */
  function StartIndex(n: nat, doc: Json, draws: seq<real>): (r: Start)
    requires n > 0 && AreDraws(draws)
    ensures r.Threw? <==> Exclusion(doc, n).None?
    ensures r.StillDrawing? <==>
      Exclusion(doc, n).Some? && forall j :: 0 <= j < |draws| ==> Scale(draws[j], n) in Exclusion(doc, n).value
    ensures r.Start? ==> r.idx < n && r.idx !in Exclusion(doc, n).value
    ensures r.Start? ==> exists j :: 0 <= j < |draws| && Scale(draws[j], n) == r.idx
  {
    match Exclusion(doc, n)
    case None => Threw
    case Some(exclude) =>
      match Utils.RejectionSample(n, exclude, draws)
      case Some(i) => Start(i)
      case None => StillDrawing
  }

  /** A `learned` list of string keys, which is what both trainers store, excludes no index. */
  lemma KeysExcludeNothing(doc: Json, keys: seq<string>, n: nat)
    requires Member(doc, "learned") == Some(StringArray(keys))
    ensures Exclusion(doc, n) == Some([])
  {
    NoNumbers(StringArray(keys).items);
  }

  lemma NoNumbers(items: seq<Json>)
    requires forall i :: 0 <= i < |items| ==> !items[i].JNum?
    ensures Numbers(items) == []
  {
    if |items| > 0 {
      NoNumbers(items[1..]);
    }
  }

  /** With nothing excluded, every row of the dataset is the starting row for some draw. */
  lemma AnyRowCanStart(n: nat, doc: Json, i: nat)
    requires i < n && Exclusion(doc, n) == Some([])
    ensures StartIndex(n, doc, [SlotStart(i, n)]) == Start(i)
  {
    Utils.SamplerCanReturnAnyFreeIndex(n, [], i);
  }
}
