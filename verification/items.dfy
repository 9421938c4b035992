/** Content items and their persistent identity. */
module Items {
  import opened Wrappers

  /** One CSV row as the trainer reads it. A column missing from the row is `undefined`. The
      translation and wrong-preposition columns play no part in the progress engine. */
  datatype Item = Item(
    verb: Option<string>,
    preposition: Option<string>,
    grammaticalCase: Option<string>,
    example: Option<string>)

  const Separator: char := '|'

  /** A template literal renders `undefined` as the text "undefined". */
  function Show(field: Option<string>): string {
    match field
    case Some(s) => s
    case None => "undefined"
  }

  /** `getVerbKey`: verb, preposition and example sentence joined by the separator. */
  function VerbKey(item: Item): (k: string)
    ensures |k| == |Show(item.verb)| + |Show(item.preposition)| + |Show(item.example)| + 2
  {
    Show(item.verb) + [Separator] + Show(item.preposition) + [Separator] + Show(item.example)
  }

  /** The layout of a key: the verb, a separator, the preposition, a separator, the example. Kept
      apart from `VerbKey` so that these facts are only in scope where a proof asks for them. */
  lemma KeyLayout(item: Item)
    ensures var k, v, p := VerbKey(item), |Show(item.verb)|, |Show(item.preposition)|;
      && k[..v] == Show(item.verb)
      && k[v] == Separator
      && k[v + 1..v + p + 1] == Show(item.preposition)
      && k[v + p + 1] == Separator
      && k[v + p + 2..] == Show(item.example)
  {
    var k, v, p := VerbKey(item), |Show(item.verb)|, |Show(item.preposition)|;
    var rest := [Separator] + Show(item.preposition) + [Separator] + Show(item.example);
    assert k == Show(item.verb) + rest;
    assert k[v..] == rest;
    assert rest[1..p + 1] == Show(item.preposition);
    assert rest[p + 2..] == Show(item.example);
  }

  /** The keys of every item of a dataset. */
  function KeySet(verbs: seq<Item>): set<string> {
    set item | item in verbs :: VerbKey(item)
  }

  /** The key of each row is among the dataset's keys. */
  lemma KeyOfRow(verbs: seq<Item>, i: int)
    requires 0 <= i < |verbs|
    ensures VerbKey(verbs[i]) in KeySet(verbs)
  {
    assert verbs[i] in verbs;
  }

  /** No two rows of the dataset share a key. */
  predicate DistinctKeys(verbs: seq<Item>) {
    forall i, j :: 0 <= i < j < |verbs| ==> VerbKey(verbs[i]) != VerbKey(verbs[j])
  }

  lemma {:induction false} SplitAtSeparator(x: string, r: string, y: string, t: string)
    requires Separator !in x && Separator !in y
    requires x + [Separator] + r == y + [Separator] + t
    ensures x == y && r == t
  {
    var u := x + [Separator] + r;
    if |x| < |y| {
      SeparatorFollows(x, r, y, t);
      assert false;
    } else if |y| < |x| {
      SeparatorFollows(y, t, x, r);
      assert false;
    } else {
      assert x == u[..|x|] == y;
      assert r == u[|x| + 1..] == t;
    }
  }

  /** Where the shorter prefix ends, the longer one holds the separator. */
  lemma SeparatorFollows(x: string, r: string, y: string, t: string)
    requires |x| < |y| && x + [Separator] + r == y + [Separator] + t
    ensures y[|x|] == Separator
  {
    assert (x + [Separator] + r)[|x|] == Separator;
  }

  /** The key identifies the three fields it is built from, provided the verb and the preposition
      do not contain the separator (the example sentence may). */
  lemma KeyDeterminesFields(a: Item, b: Item)
    requires Separator !in Show(a.verb) && Separator !in Show(a.preposition)
    requires Separator !in Show(b.verb) && Separator !in Show(b.preposition)
    ensures VerbKey(a) == VerbKey(b) <==>
      && Show(a.verb) == Show(b.verb)
      && Show(a.preposition) == Show(b.preposition)
      && Show(a.example) == Show(b.example)
  {
    if VerbKey(a) == VerbKey(b) {
      var ra := Show(a.preposition) + [Separator] + Show(a.example);
      var rb := Show(b.preposition) + [Separator] + Show(b.example);
      assert VerbKey(a) == Show(a.verb) + [Separator] + ra;
      assert VerbKey(b) == Show(b.verb) + [Separator] + rb;
      SplitAtSeparator(Show(a.verb), ra, Show(b.verb), rb);
      SplitAtSeparator(Show(a.preposition), Show(a.example), Show(b.preposition), Show(b.example));
    }
  }

  /** The known limits of the key: the case column is not part of it, and an absent field collides
      with the literal text "undefined". */
  lemma KeyCollisions(v: string, p: string, e: string, c1: string, c2: string)
    ensures VerbKey(Item(Some(v), Some(p), Some(c1), Some(e))) == VerbKey(Item(Some(v), Some(p), Some(c2), Some(e)))
    ensures VerbKey(Item(Some(v), None, Some(c1), Some(e))) == VerbKey(Item(Some(v), Some("undefined"), Some(c1), Some(e)))
  {
  }

  /** Keys depend only on which items a dataset holds, never on their positions, so a reordered
      dataset has the same keys. */
  lemma KeySetIgnoresOrder(verbs: seq<Item>, reordered: seq<Item>)
    requires multiset(verbs) == multiset(reordered)
    ensures KeySet(verbs) == KeySet(reordered)
  {
    assert forall item :: item in verbs <==> item in multiset(verbs);
    assert forall item :: item in reordered <==> item in multiset(reordered);
  }

  /** A dataset with distinct keys has exactly as many keys as rows. */
  lemma {:induction false} DistinctKeysCount(verbs: seq<Item>)
    requires DistinctKeys(verbs)
    ensures |KeySet(verbs)| == |verbs|
    decreases |verbs|
  {
    if |verbs| > 0 {
      var p := verbs[..|verbs| - 1];
      var last := verbs[|verbs| - 1];
      assert verbs == p + [last];
      DistinctKeysCount(p);
      assert KeySet(verbs) == KeySet(p) + {VerbKey(last)};
      assert VerbKey(last) !in KeySet(p);
    }
  }
}
