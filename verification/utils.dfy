/** The helpers of the first, single-dataset version: rejection sampling of a random index and the
    load/save functions of its two storage entries. */
module Utils {
  import opened Wrappers
  import opened Json
  import opened Storage
  import opened Random

  const ProgressEntry: string := "progress"
  const AttemptsEntry: string := "attempts"

  /** `{learned: [], score: 0}`. */
  const DefaultProgressDoc: Json := JObj(map["learned" := JArr([]), "score" := JNum(0)])

  /** `getRandomIndex(max, exclude)` fed with the draws `draws` of `Math.random()`: the first scaled
      draw that is not excluded, or `None` when every draw given was rejected, in which case the
      loop is still running. */
  function RejectionSample(max: nat, exclude: seq<int>, draws: seq<real>): (r: Option<int>)
    requires AreDraws(draws)
    ensures r.Some? ==> r.value !in exclude
    ensures r.Some? && max > 0 ==> 0 <= r.value < max
    ensures r.Some? && max == 0 ==> r.value == 0
    ensures r.None? <==> forall i :: 0 <= i < |draws| ==> Scale(draws[i], max) in exclude
    ensures r.Some? ==> exists i :: 0 <= i < |draws| && Scale(draws[i], max) == r.value
    decreases |draws|
  {
    if |draws| == 0 then None
    else
      var idx := Scale(draws[0], max);
      if idx in exclude then
        var r := RejectionSample(max, exclude, draws[1..]);
        assert forall i :: 1 <= i < |draws| ==> draws[i] == draws[1..][i - 1];
        r
      else
        Some(idx)
  }

  /** The do-while loop of `getRandomIndex`, run on a finite supply of draws. */
  method GetRandomIndex(max: nat, exclude: seq<int>, draws: seq<real>) returns (r: Option<int>)
    requires AreDraws(draws)
    ensures r == RejectionSample(max, exclude, draws)
    ensures r.Some? ==> r.value !in exclude
  {
    var k := 0;
    while k < |draws|
      invariant 0 <= k <= |draws|
      invariant forall i :: 0 <= i < k ==> Scale(draws[i], max) in exclude
      invariant RejectionSample(max, exclude, draws) == RejectionSample(max, exclude, draws[k..])
    {
      assert draws[k..][1..] == draws[k + 1..];
      var idx := Scale(draws[k], max);
      if idx !in exclude {
        return Some(idx);
      }
      k := k + 1;
    }
    return None;
  }

  /** When the excluded indices cover the whole range the sampler never returns, whatever the draws. */
  lemma SamplerStallsWhenAllExcluded(max: nat, exclude: seq<int>, draws: seq<real>)
    requires AreDraws(draws)
    requires forall i :: 0 <= i < max ==> i in exclude
    requires max == 0 ==> 0 in exclude
    ensures RejectionSample(max, exclude, draws) == None
  {
  }

  /** Every index of the range that is not excluded is returned for some draw, at the first draw. */
  lemma SamplerCanReturnAnyFreeIndex(max: nat, exclude: seq<int>, i: int)
    requires 0 <= i < max && i !in exclude
    ensures RejectionSample(max, exclude, [SlotStart(i, max)]) == Some(i)
  {
  }

  /** For `max = 0` the sampler returns 0, which is not an index of the empty range, whenever 0 is not
      excluded. */
  lemma SamplerOnEmptyRange(exclude: seq<int>, draws: seq<real>)
    requires AreDraws(draws) && |draws| > 0
    requires 0 !in exclude
    ensures RejectionSample(0, exclude, draws) == Some(0)
  {
  }

  /** `loadProgress`: the parsed `progress` entry when it is truthy, `{learned: [], score: 0}` otherwise. */
  function LoadProgress(store: Store): (r: Json)
    ensures Truthy(r)
    ensures ParseItem(store, ProgressEntry).None? ==> r == DefaultProgressDoc
    ensures ParseItem(store, ProgressEntry).Some? && !Truthy(ParseItem(store, ProgressEntry).value) ==>
      r == DefaultProgressDoc
    ensures ParseItem(store, ProgressEntry).Some? && Truthy(ParseItem(store, ProgressEntry).value) ==>
      r == ParseItem(store, ProgressEntry).value
  {
    match ParseItem(store, ProgressEntry)
    case Some(v) => if Truthy(v) then v else DefaultProgressDoc
    case None => DefaultProgressDoc
  }

  /** `saveProgress`: a refused write throws to the caller. */
  function SaveProgress(store: Store, doc: Json, writable: bool): (r: Result<Store, StorageError>)
    ensures r.Err? <==> !writable
    ensures r.Ok? && Truthy(doc) ==> LoadProgress(r.value) == doc
    ensures r.Ok? ==> forall e :: e != ProgressEntry ==> ParseItem(r.value, e) == ParseItem(store, e)
    ensures r.Ok? ==> forall e :: e != ProgressEntry ==> (e in r.value <==> e in store) && (e in store ==> r.value[e] == store[e])
  {
    SetItem(store, ProgressEntry, doc, writable)
  }

  /** `loadAttempts`: `{}` for a missing or unparsable entry, and otherwise the parsed document as it
      is, with no fallback for a falsy one (a stored `null` comes back as `null`). */
  function LoadAttempts(store: Store): (r: Json)
    ensures AttemptsEntry !in store ==> r == JObj(map[])
    ensures AttemptsEntry in store && store[AttemptsEntry].Garbled? ==> r == JObj(map[])
    ensures AttemptsEntry in store && store[AttemptsEntry].Doc? ==> r == store[AttemptsEntry].value
  {
    if AttemptsEntry !in store then JObj(map[])
    else match ParseItem(store, AttemptsEntry)
      case Some(v) => v
      case None => JObj(map[])
  }

  /** `saveAttempts`: a refused write is swallowed and the store keeps its previous contents. */
  function SaveAttempts(store: Store, doc: Json, writable: bool): (r: Store)
    ensures writable ==> LoadAttempts(r) == doc
    ensures !writable ==> r == store
    ensures forall e :: e != AttemptsEntry ==> ParseItem(r, e) == ParseItem(store, e)
    ensures forall e :: e != AttemptsEntry ==> (e in r <==> e in store) && (e in store ==> r[e] == store[e])
  {
    match SetItem(store, AttemptsEntry, doc, writable)
    case Ok(s) => s
    case Err(_) => store
  }

  /** The two savers differ on a refused write: `saveProgress` fails, `saveAttempts` carries on. */
  lemma WriteFailureHandling(store: Store, doc: Json)
    ensures SaveProgress(store, doc, false).Err?
    ensures SaveAttempts(store, doc, false) == store
  {
  }

  /** Unlike `loadProgress`, `loadAttempts` can return a falsy value. */
  lemma LoadAttemptsCanBeNull(store: Store)
    requires store == map[AttemptsEntry := Doc(JNull), ProgressEntry := Doc(JNull)]
    ensures LoadAttempts(store) == JNull
    ensures LoadProgress(store) == DefaultProgressDoc
  {
  }
}
