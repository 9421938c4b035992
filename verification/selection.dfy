/** Choosing the next item (`nextVerb` and the tail of the restore callback): a uniform draw from the
    explicit list of unlearned indices, or index 0 when that list is empty. */
module Selection {
  import opened Items
  import opened Random

  /** The indices from `from` on whose item key is not learned, in ascending order. */
  function UnlearnedFrom(verbs: seq<Item>, learned: seq<string>, from: nat): (r: seq<nat>)
    requires from <= |verbs|
    ensures forall i :: i in r <==> from <= i < |verbs| && VerbKey(verbs[i]) !in learned
    ensures forall a, b :: 0 <= a < b < |r| ==> r[a] < r[b]
    decreases |verbs| - from
  {
    if from == |verbs| then []
    else
      var rest := UnlearnedFrom(verbs, learned, from + 1);
      assert forall b :: 0 <= b < |rest| ==> rest[b] in rest;
      if VerbKey(verbs[from]) !in learned then [from] + rest else rest
  }

  /** `unlearnedIdxs`: every index whose key is not in `learned`, each once, in ascending order. */
  function Unlearned(verbs: seq<Item>, learned: seq<string>): (r: seq<nat>)
    ensures forall i :: i in r <==> 0 <= i < |verbs| && VerbKey(verbs[i]) !in learned
    ensures forall a, b :: 0 <= a < b < |r| ==> r[a] < r[b]
  {
    UnlearnedFrom(verbs, learned, 0)
  }

  /** The index the trainer shows next, for the draw `rnd`. */
  function Select(verbs: seq<Item>, learned: seq<string>, rnd: real): (i: nat)
    requires IsDraw(rnd)
    ensures |Unlearned(verbs, learned)| > 0 ==> i < |verbs| && VerbKey(verbs[i]) !in learned
    ensures |Unlearned(verbs, learned)| == 0 <==> forall j :: 0 <= j < |verbs| ==> VerbKey(verbs[j]) in learned
    ensures |Unlearned(verbs, learned)| == 0 ==> i == 0
  {
    var candidates := Unlearned(verbs, learned);
    NoCandidates(verbs, learned);
    if |candidates| > 0 then
      var i := candidates[Scale(rnd, |candidates|)];
      assert i in candidates;
      i
    else
      0
  }

  /** The candidate list is empty exactly when every row's key is learned. */
  lemma NoCandidates(verbs: seq<Item>, learned: seq<string>)
    ensures |Unlearned(verbs, learned)| == 0 <==> forall j :: 0 <= j < |verbs| ==> VerbKey(verbs[j]) in learned
  {
    var candidates := Unlearned(verbs, learned);
    if |candidates| == 0 {
      forall j | 0 <= j < |verbs| ensures VerbKey(verbs[j]) in learned {
        assert j !in candidates;
      }
    } else {
      assert candidates[0] in candidates;
    }
  }

  /** Every unlearned index is shown for some draw: the draw that lands in its slot of the candidate
      list (the slots have equal width, which is what makes the choice uniform). */
  lemma EveryCandidateReachable(verbs: seq<Item>, learned: seq<string>, i: nat)
    requires i < |verbs| && VerbKey(verbs[i]) !in learned
    ensures exists rnd: real :: IsDraw(rnd) && Select(verbs, learned, rnd) == i
  {
    var candidates := Unlearned(verbs, learned);
    assert i in candidates;
    var pos :| 0 <= pos < |candidates| && candidates[pos] == i;
    var rnd := SlotStart(pos, |candidates|);
    assert Select(verbs, learned, rnd) == i;
  }

  /** When a single item is left unlearned it is chosen whatever the draw. */
  lemma LastUnlearnedIsForced(verbs: seq<Item>, learned: seq<string>, i: nat, rnd: real)
    requires IsDraw(rnd)
    requires i < |verbs| && VerbKey(verbs[i]) !in learned
    requires forall j :: 0 <= j < |verbs| && j != i ==> VerbKey(verbs[j]) in learned
    ensures Select(verbs, learned, rnd) == i
  {
    var candidates := Unlearned(verbs, learned);
    assert i in candidates;
    if |candidates| > 1 {
      assert candidates[0] < candidates[1];
      assert candidates[0] in candidates && candidates[1] in candidates;
    }
  }
}
