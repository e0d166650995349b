/** Embedding a list of texts in batches whose replies may come back in any order. T is a text, V a vector. */
module Embedding {
  import opened Sequences

  const BATCH_SIZE := 100

  /** One entry of an API reply. */
  datatype Item<V> = Item(index: nat, vector: V)

  datatype Result<V> = Ok(vectors: seq<V>) | CountMismatch(batch: nat)

  function NumBatches(n: nat): nat { (n + BATCH_SIZE - 1) / BATCH_SIZE }

  /** Consecutive slices of at most 100 elements. */
  function MakeBatches<T>(items: seq<T>): (r: seq<seq<T>>)
    ensures |r| == NumBatches(|items|)
  {
    seq(NumBatches(|items|), b requires 0 <= b < NumBatches(|items|) =>
      items[BATCH_SIZE * b..Min(BATCH_SIZE * b + BATCH_SIZE, |items|)])
  }

  // ---------------------------------------------------------------- putting one reply in order

  function Insert<V(!new)>(x: Item<V>, s: seq<Item<V>>): (r: seq<Item<V>>)
    ensures |r| == |s| + 1
    ensures forall y :: y in r <==> y == x || y in s
  {
    if s == [] then [x]
    else if x.index <= s[0].index then [x] + s
    else
      var rest := Insert(x, s[1..]);
      assert forall y :: y in [s[0]] + rest <==> y == s[0] || y in rest;
      assert s == [s[0]] + s[1..];
      [s[0]] + rest
  }

  /** sorted(items, key=index) */
  function SortByIndex<V(!new)>(items: seq<Item<V>>): (r: seq<Item<V>>)
    ensures |r| == |items|
    ensures forall y :: y in r <==> y in items
  {
    if items == [] then []
    else
      assert items == [items[0]] + items[1..];
      Insert(items[0], SortByIndex(items[1..]))
  }

  function Vectors<V>(items: seq<Item<V>>): seq<V> {
    seq(|items|, i requires 0 <= i < |items| => items[i].vector)
  }

  /** create_embeddings: the vectors of a reply by ascending index. */
  function Ordered<V(!new)>(reply: seq<Item<V>>): (r: seq<V>)
    ensures |r| == |reply|
  {
    Vectors(SortByIndex(reply))
  }

  predicate Distinct<V>(items: seq<Item<V>>) {
    forall i, j :: 0 <= i < j < |items| ==> items[i].index != items[j].index
  }

  predicate Increasing<V>(items: seq<Item<V>>) {
    forall i, j :: 0 <= i < j < |items| ==> items[i].index < items[j].index
  }

  lemma {:induction false} InsertIncreasing<V(!new)>(x: Item<V>, s: seq<Item<V>>)
    requires Increasing(s) && forall y :: y in s ==> y.index != x.index
    ensures Increasing(Insert(x, s))
  {
    if s != [] && x.index > s[0].index {
      InsertIncreasing(x, s[1..]);
      var rest := Insert(x, s[1..]);
      forall j | 0 <= j < |rest| ensures s[0].index < rest[j].index {
        assert rest[j] in rest;
      }
    }
  }

  lemma {:induction false} SortIncreasing<V(!new)>(items: seq<Item<V>>)
    requires Distinct(items)
    ensures Increasing(SortByIndex(items))
  {
    if items != [] {
      SortIncreasing(items[1..]);
      InsertIncreasing(items[0], SortByIndex(items[1..]));
    }
  }

  lemma {:induction false} IncreasingIsIdentity<V>(items: seq<Item<V>>, n: nat, i: nat)
    requires Increasing(items) && n == |items| && i <= n
    requires forall j :: 0 <= j < n ==> items[j].index < n
    ensures forall j :: 0 <= j < i ==> items[j].index >= j
    ensures forall j :: n - i <= j < n ==> items[j].index <= j
  {
    if i > 0 {
      IncreasingIsIdentity(items, n, i - 1);
      if i > 1 {
        assert items[i - 2].index < items[i - 1].index && items[n - i].index < items[n - i + 1].index;
      }
    }
  }

  /** No entry stands before one with a smaller index. */
  predicate Sorted<V>(items: seq<Item<V>>) {
    forall i, j :: 0 <= i < j < |items| ==> items[i].index <= items[j].index
  }

  /** The sort keeps every entry, also those with equal indices, and puts none before a smaller one. */
  lemma {:induction false} SortKeepsAll<V(!new)>(items: seq<Item<V>>)
    ensures multiset(SortByIndex(items)) == multiset(items) && Sorted(SortByIndex(items))
  {
    if items != [] {
      hide Insert, Sorted;
      SortKeepsAll(items[1..]);
      InsertKeepsAll(items[0], SortByIndex(items[1..]));
      assert items == [items[0]] + items[1..];
    }
  }

  lemma {:induction false} InsertKeepsAll<V(!new)>(x: Item<V>, s: seq<Item<V>>)
    requires Sorted(s)
    ensures multiset(Insert(x, s)) == multiset(s) + multiset{x} && Sorted(Insert(x, s))
  {
    hide Insert, Sorted;
    InsertIs(x, s);
    if s == [] || x.index <= s[0].index {
      SortedMore(x, s);
    } else {
      SortedTail(s);
      InsertKeepsAll(x, s[1..]);
      assert s == [s[0]] + s[1..];
      SortedMore(s[0], Insert(x, s[1..]));
    }
  }

  lemma InsertIs<V(!new)>(x: Item<V>, s: seq<Item<V>>)
    ensures Insert(x, s) == if s == [] || x.index <= s[0].index then [x] + s else [s[0]] + Insert(x, s[1..])
  {
  }

  lemma SortedTail<V>(s: seq<Item<V>>)
    requires s != [] && Sorted(s)
    ensures Sorted(s[1..]) && forall y :: y in s[1..] ==> s[0].index <= y.index
  {
  }

  lemma SortedMore<V>(x: Item<V>, s: seq<Item<V>>)
    requires Sorted(s) && (s == [] || x.index <= s[0].index || forall y :: y in s ==> x.index <= y.index)
    ensures Sorted([x] + s)
  {
    forall j | 0 <= j < |s| ensures x.index <= s[j].index {
      assert s[j] in s;
      assert j > 0 ==> s[0].index <= s[j].index;
    }
  }

  /** A complete answer to a batch: one entry per text, in whatever order. */
  ghost predicate Answers<T, V>(reply: seq<Item<V>>, batch: seq<T>, model: T -> V) {
    && |reply| == |batch|
    && Distinct(reply)
    && forall i :: 0 <= i < |reply| ==> reply[i].index < |batch| && reply[i].vector == model(batch[reply[i].index])
  }

  function Map<T, V>(f: T -> V, s: seq<T>): (r: seq<V>)
    ensures |r| == |s|
    ensures forall i :: 0 <= i < |r| ==> r[i] == f(s[i])
  {
    seq(|s|, i requires 0 <= i < |s| => f(s[i]))
  }

  /** Whatever order a complete answer came in, vector i belongs to text i after the sort. */
  lemma OrderedAnswers<T, V(!new)>(reply: seq<Item<V>>, batch: seq<T>, model: T -> V)
    requires Answers(reply, batch, model)
    ensures Ordered(reply) == Map(model, batch)
  {
    var sorted, n := SortByIndex(reply), |batch|;
    SortIncreasing(reply);
    forall j | 0 <= j < n ensures sorted[j].index < n && sorted[j].vector == model(batch[sorted[j].index]) {
      assert sorted[j] in reply;
    }
    IncreasingIsIdentity(sorted, n, n);
  }

  // ---------------------------------------------------------------- all batches

  /** The vectors of all replies, each reply in order, one after the other. */
  function OrderedAll<V(!new)>(replies: seq<seq<Item<V>>>): seq<V> {
    Concat(Map((r: seq<Item<V>>) => Ordered(r), replies))
  }

  lemma NextReply<V(!new)>(replies: seq<seq<Item<V>>>, b: nat)
    requires b < |replies|
    ensures OrderedAll(replies[..b + 1]) == OrderedAll(replies[..b]) + Ordered(replies[b])
  {
    var f := (r: seq<Item<V>>) => Ordered(r);
    hide Ordered, Concat;
    assert Map(f, replies[..b + 1]) == Map(f, replies[..b]) + [f(replies[b])];
    ConcatSnoc(Map(f, replies[..b]), f(replies[b]));
  }

  lemma NoReplies<V(!new)>(replies: seq<seq<Item<V>>>)
    requires replies == []
    ensures OrderedAll(replies) == []
  {
    hide Ordered;
  }

  lemma BatchLength<T>(items: seq<T>, b: nat)
    requires b < NumBatches(|items|)
    ensures |MakeBatches(items)[b]| == Min(BATCH_SIZE * b + BATCH_SIZE, |items|) - BATCH_SIZE * b
  {
  }

  /** The batches put together are the items; none is empty and all but the last have 100. */
  lemma BatchesOfAHundred<T>(items: seq<T>)
    ensures Concat(MakeBatches(items)) == items
    ensures forall b :: 0 <= b < |MakeBatches(items)| ==> 1 <= |MakeBatches(items)[b]| <= 100
    ensures forall b :: 0 <= b < |MakeBatches(items)| - 1 ==> |MakeBatches(items)[b]| == 100
  {
    var n := NumBatches(|items|);
    BatchesConcat(items, n);
    assert MakeBatches(items)[..n] == MakeBatches(items);
    assert items[..Min(BATCH_SIZE * n, |items|)] == items;
  }

  lemma {:induction false} BatchesConcat<T>(items: seq<T>, k: nat)
    requires k <= NumBatches(|items|)
    ensures Concat(MakeBatches(items)[..k]) == items[..Min(BATCH_SIZE * k, |items|)]
  {
    if k > 0 {
      BatchesConcat(items, k - 1);
      var batches := MakeBatches(items);
      assert batches[..k] == batches[..k - 1] + [batches[k - 1]];
      ConcatSnoc(batches[..k - 1], batches[k - 1]);
      hide MakeBatches, Concat;
      BatchIs(items, k - 1);
    }
  }

  lemma BatchIs<T>(items: seq<T>, b: nat)
    requires b < NumBatches(|items|)
    ensures BATCH_SIZE * b < |items|
    ensures items[..BATCH_SIZE * b] + MakeBatches(items)[b] == items[..Min(BATCH_SIZE * b + BATCH_SIZE, |items|)]
  {
  }

  /** The batches' vectors one after the other, normalised; a reply of the wrong length is an error. */
  method EmbedTexts<T, V(!new)>(texts: seq<T>, replies: seq<seq<Item<V>>>, normalise: V -> V)
    returns (result: Result<V>)
    requires |replies| == NumBatches(|texts|)
    ensures result.CountMismatch? <==>
            exists b :: 0 <= b < |replies| && |replies[b]| != |MakeBatches(texts)[b]|
    ensures result.Ok? ==> |result.vectors| == |texts|
    ensures result.Ok? ==> result.vectors == Map(normalise, OrderedAll(replies))
  {
    hide Ordered, OrderedAll, MakeBatches;
    var batches := MakeBatches(texts);
    var raw: seq<V> := [];
    NoReplies(replies[..0]);
    for b := 0 to |batches|
      invariant raw == OrderedAll(replies[..b])
      invariant |raw| == Min(BATCH_SIZE * b, |texts|)
      invariant forall c :: 0 <= c < b ==> |replies[c]| == |batches[c]|
    {
      var vectors := Ordered(replies[b]);
      if |vectors| != |batches[b]| {
        return CountMismatch(b);
      }
      BatchLength(texts, b);
      NextReply(replies, b);
      raw := raw + vectors;
    }
    assert replies[..|batches|] == replies;
    result := Ok(Map(normalise, raw));
  }

  lemma {:induction false} BatchesPrefix<T, V>(texts: seq<T>, model: T -> V, k: nat)
    requires k <= NumBatches(|texts|)
    ensures Concat(Map((b: seq<T>) => Map(model, b), MakeBatches(texts)[..k]))
         == Map(model, texts[..Min(BATCH_SIZE * k, |texts|)])
  {
    var f := (b: seq<T>) => Map(model, b);
    var batches := MakeBatches(texts);
    if k == 0 {
      assert Map(f, batches[..0]) == [];
    } else {
      BatchesPrefix(texts, model, k - 1);
      assert BATCH_SIZE * (k - 1) < |texts|;
      assert Map(f, batches[..k]) == Map(f, batches[..k - 1]) + [Map(model, batches[k - 1])];
      ConcatSnoc(Map(f, batches[..k - 1]), Map(model, batches[k - 1]));
    }
  }

  /** With a complete answer to every batch, row i gets the vector of its own text. */
  lemma EmbeddingsAlign<T, V(!new)>(texts: seq<T>, replies: seq<seq<Item<V>>>, model: T -> V)
    requires |replies| == NumBatches(|texts|)
    requires forall b :: 0 <= b < |replies| ==> Answers(replies[b], MakeBatches(texts)[b], model)
    ensures OrderedAll(replies) == Map(model, texts)
  {
    var f := (b: seq<T>) => Map(model, b);
    var g := (r: seq<Item<V>>) => Ordered(r);
    var batches := MakeBatches(texts);
    forall b | 0 <= b < |replies| ensures g(replies[b]) == f(batches[b]) {
      OrderedAnswers(replies[b], batches[b], model);
    }
    assert Map(g, replies) == Map(f, batches);
    BatchesPrefix(texts, model, |batches|);
    assert batches[..|batches|] == batches;
    assert texts[..Min(BATCH_SIZE * |batches|, |texts|)] == texts;
  }
}
