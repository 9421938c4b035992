/** The restore merge the key-based trainer runs when a CSV file has been (re)loaded: the stored
    snapshot of that file is merged, key by key, with the freshly loaded rows. */
module Restore {
  import opened Wrappers
  import opened Json
  import opened Items
  import opened Mastery
  import opened ProgressStore

  /** `Array.isArray(savedProgress.learned) && savedProgress.learned.includes(key)`. */
  predicate SavedLearned(saved: Json, key: string) {
    var learned := Member(saved, "learned");
    learned.Some? && ArrayIncludesString(learned.value, key)
  }

  /** `savedProgress.attempts || {}`. */
  function SavedAttempts(saved: Json): (attempts: Json)
    ensures Truthy(attempts)
  {
    var attempts := Member(saved, "attempts");
    if attempts.Some? && Truthy(attempts.value) then attempts.value else JObj(map[])
  }

  /** `savedAttempts[key] !== undefined ? savedAttempts[key] : 0`, for a numeric counter. */
  function SavedCount(saved: Json, key: string): int {
    match Member(SavedAttempts(saved), key)
    case Some(JNum(n)) => n
    case _ => 0
  }

  /** `isLearnedByKey || isLearnedByAttempts`. */
  predicate LearnedOnRestore(saved: Json, key: string) {
    SavedLearned(saved, key) || SavedCount(saved, key) >= Threshold
  }

  /** `newLearned`: one entry per loaded row whose key is learned, in row order. */
  function MergeLearned(verbs: seq<Item>, saved: Json): (r: seq<string>)
    ensures forall k :: k in r <==> k in KeySet(verbs) && LearnedOnRestore(saved, k)
    ensures |r| <= |verbs|
    decreases |verbs|
  {
    if |verbs| == 0 then []
    else
      var key := VerbKey(verbs[0]);
      var rest := MergeLearned(verbs[1..], saved);
      assert KeySet(verbs) == {key} + KeySet(verbs[1..]) by {
        assert verbs == [verbs[0]] + verbs[1..];
      }
      (if LearnedOnRestore(saved, key) then [key] else []) + rest
  }

  /** `newAttempts`: every loaded key with its stored counter, 0 when none is stored. */
  function MergeAttempts(verbs: seq<Item>, saved: Json): (r: map<string, int>)
    ensures r.Keys == KeySet(verbs)
    ensures forall k :: k in r ==> r[k] == SavedCount(saved, k)
  {
    map k | k in KeySet(verbs) :: SavedCount(saved, k)
  }

  /** The progress record after loading `verbs` with the stored snapshot `saved`. Keys of the snapshot
      that no loaded row carries are dropped. */
  function Merge(verbs: seq<Item>, saved: Json): (r: Progress)
    ensures r.score == |r.learned| <= |verbs|
    ensures forall k :: k in r.learned <==> k in KeySet(verbs) && LearnedOnRestore(saved, k)
    ensures r.attempts.Keys == KeySet(verbs)
    ensures forall k :: k in r.attempts ==> r.attempts[k] == SavedCount(saved, k)
    ensures DistinctKeys(verbs) ==> Valid(r)
  {
    var learned := MergeLearned(verbs, saved);
    assert DistinctKeys(verbs) ==> NoDuplicates(learned) by {
      if DistinctKeys(verbs) {
        MergeLearnedNoDuplicates(verbs, saved);
      }
    }
    Progress(|learned|, learned, MergeAttempts(verbs, saved))
  }

  /** A snapshot under which no key counts as learned restores an empty learned list. */
  lemma NothingLearnedOnRestore(verbs: seq<Item>, saved: Json)
    requires forall k :: !LearnedOnRestore(saved, k)
    ensures MergeLearned(verbs, saved) == []
    decreases |verbs|
  {
    if |verbs| > 0 {
      NothingLearnedOnRestore(verbs[1..], saved);
    }
  }

  lemma {:induction false} MergeLearnedNoDuplicates(verbs: seq<Item>, saved: Json)
    requires DistinctKeys(verbs)
    ensures NoDuplicates(MergeLearned(verbs, saved))
    decreases |verbs|
  {
    if |verbs| > 0 {
      var tail := verbs[1..];
      assert DistinctKeys(tail) by {
        forall i, j | 0 <= i < j < |tail| ensures VerbKey(tail[i]) != VerbKey(tail[j]) {
          assert tail[i] == verbs[i + 1] && tail[j] == verbs[j + 1];
        }
      }
      MergeLearnedNoDuplicates(tail, saved);
    }
  }

  lemma {:induction false} MergeLearnedAppend(a: seq<Item>, b: seq<Item>, saved: Json)
    ensures MergeLearned(a + b, saved) == MergeLearned(a, saved) + MergeLearned(b, saved)
    decreases |a|
  {
    if |a| == 0 {
      assert a + b == b;
    } else {
      assert (a + b)[0] == a[0];
      assert (a + b)[1..] == a[1..] + b;
      MergeLearnedAppend(a[1..], b, saved);
    }
  }

  lemma {:induction false} MergeLearnedPermutation(a: seq<Item>, b: seq<Item>, saved: Json)
    requires multiset(a) == multiset(b)
    ensures multiset(MergeLearned(a, saved)) == multiset(MergeLearned(b, saved))
    decreases |a|
  {
    if |a| == 0 {
      assert |b| == |multiset(b)| == 0;
    } else {
      var x := a[0];
      assert x in multiset(b);
      var j :| 0 <= j < |b| && b[j] == x;
      var before, after := b[..j], b[j + 1..];
      assert b == before + [x] + after;
      RemoveOne(a, b, j);
      MergeLearnedPermutation(a[1..], before + after, saved);
      MergeLearnedAppend([x], a[1..], saved);
      assert [x] + a[1..] == a;
      MergeLearnedSplit(before, x, after, saved);
    }
  }

  lemma RemoveOne(a: seq<Item>, b: seq<Item>, j: int)
    requires |a| > 0 && 0 <= j < |b| && b[j] == a[0] && multiset(a) == multiset(b)
    ensures multiset(a[1..]) == multiset(b[..j] + b[j + 1..])
  {
    var x := a[0];
    assert a == [x] + a[1..];
    assert b == b[..j] + [x] + b[j + 1..];
    assert multiset(b) == multiset(b[..j]) + multiset{x} + multiset(b[j + 1..]);
    assert multiset(a) == multiset{x} + multiset(a[1..]);
    assert multiset(b[..j] + b[j + 1..]) == multiset(b[..j]) + multiset(b[j + 1..]);
    forall y ensures multiset(a[1..])[y] == multiset(b[..j] + b[j + 1..])[y] {
      assert multiset(a)[y] == multiset{x}[y] + multiset(a[1..])[y];
      assert multiset(b)[y] == multiset(b[..j])[y] + multiset{x}[y] + multiset(b[j + 1..])[y];
    }
  }

  lemma MergeLearnedSplit(before: seq<Item>, x: Item, after: seq<Item>, saved: Json)
    ensures multiset(MergeLearned(before + [x] + after, saved))
         == multiset(MergeLearned([x], saved)) + multiset(MergeLearned(before + after, saved))
  {
    MergeLearnedAppend(before + [x], after, saved);
    MergeLearnedAppend(before, [x], saved);
    MergeLearnedAppend(before, after, saved);
  }

  /** Reordering the rows of a dataset changes nothing in the restored progress but the order of the
      learned list. */
  lemma RestoreIgnoresOrder(verbs: seq<Item>, reordered: seq<Item>, saved: Json)
    requires multiset(verbs) == multiset(reordered)
    ensures Merge(verbs, saved).attempts == Merge(reordered, saved).attempts
    ensures multiset(Merge(verbs, saved).learned) == multiset(Merge(reordered, saved).learned)
    ensures Merge(verbs, saved).score == Merge(reordered, saved).score
  {
    KeySetIgnoresOrder(verbs, reordered);
    MergeLearnedPermutation(verbs, reordered, saved);
    assert |multiset(MergeLearned(verbs, saved))| == |multiset(MergeLearned(reordered, saved))|;
  }

  /** Two rows that share a key each push it: the learned list then repeats the key and the score
      counts it twice. */
  lemma DuplicateRowsCountTwice(item: Item, saved: Json)
    requires SavedLearned(saved, VerbKey(item))
    ensures Merge([item, item], saved).learned == [VerbKey(item), VerbKey(item)]
    ensures Merge([item, item], saved).score == 2
  {
    assert [item, item][1..] == [item];
    assert [item][1..] == [];
  }

  /** Saving a valid record and restoring it into the same dataset gives back the same learned keys,
      the same score and the same counters, keyed by the rows' keys. */
  lemma SaveThenRestore(store: Storage.Store, file: string, verbs: seq<Item>, p: Progress)
    requires |verbs| > 0 && DistinctKeys(verbs)
    requires Valid(p)
    requires forall k :: k in p.learned ==> k in KeySet(verbs)
    requires p.attempts.Keys <= KeySet(verbs)
    ensures
      var saved := PersistProgress(store, file, p, true, |verbs|, true);
      && saved.Ok?
      && var r := Merge(verbs, LoadProgressForFile(saved.value, file));
      && (forall k :: k in r.learned <==> k in p.learned)
      && r.score == p.score
      && r.attempts.Keys == KeySet(verbs)
      && forall k :: k in KeySet(verbs) ==> r.attempts[k] == Count(p.attempts, k)
  {
    var saved := PersistProgress(store, file, p, true, |verbs|, true);
    var doc := SnapshotDoc(p);
    assert LoadProgressForFile(saved.value, file) == doc;
    assert SavedAttempts(doc) == Member(doc, "attempts").value;
    forall k ensures SavedCount(doc, k) == Count(p.attempts, k) {
    }
    forall k ensures LearnedOnRestore(doc, k) <==> k in p.learned {
    }
    var r := Merge(verbs, doc);
    SameElementsSameLength(r.learned, p.learned);
  }
}
