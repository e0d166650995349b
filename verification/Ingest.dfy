/** The body of an ingest job between its two commits: chunks, budget, quota, vectors, rows. */
module Ingest {
  import opened Sequences
  import opened Wrappers
  import opened Chunking
  import Embedding

  const MAX_TOKENS_PER_DOCUMENT := 500_000

  datatype Row<V> = Row(index: nat, tokens: seq<int>, tokenCount: nat, embedding: V)

  datatype Outcome<V> =
    | Rows(rows: seq<Row<V>>)
    | NoChunks
    | TooManyTokens
    | QuotaExceeded
    | EmbeddingFailed

  function Texts(chunks: seq<ChunkData>): (r: seq<seq<int>>)
    ensures |r| == |chunks|
    ensures forall i :: 0 <= i < |r| ==> r[i] == chunks[i].tokens
  {
    seq(|chunks|, i requires 0 <= i < |chunks| => chunks[i].tokens)
  }

  /** One row per window, in order, each with the vector of its own text. */
  ghost predicate RowsOf<V>(rows: seq<Row<V>>, s: seq<int>, vector: seq<int> -> V) {
    && |rows| == NumChunks(|s|)
    && forall i :: 0 <= i < |rows| ==> rows[i] == Row(i, Window(s, i), |Window(s, i)|, vector(Window(s, i)))
  }

  /** The tokens charged: every token once, and the overlap again for each chunk after the first. */
  function ChargedTotal(n: nat): nat {
    if n == 0 then 0 else n + CHUNK_OVERLAP * (NumChunks(n) - 1)
  }

  lemma Charged(s: seq<int>)
    ensures TotalTokens(Windows(s)) == ChargedTotal(|s|)
  {
    if s != [] {
      ChargedTokens(s);
    } else {
      assert Windows(s) == [];
    }
  }

  method TotalOf(chunks: seq<ChunkData>) returns (total: nat)
    ensures total == TotalTokens(chunks)
  {
    total := 0;
    assert chunks[..0] == [];
    for i := 0 to |chunks|
      invariant total == TotalTokens(chunks[..i])
    {
      assert chunks[..i + 1][..i] == chunks[..i];
      total := total + |chunks[i].tokens|;
    }
    assert chunks[..|chunks|] == chunks;
  }

  /** Complete answers to all batches of the windows' texts, in whatever order their entries came. */
  ghost predicate AllAnswered<V>(replies: seq<seq<Embedding.Item<V>>>, texts: seq<seq<int>>, model: seq<int> -> V)
    requires |replies| == Embedding.NumBatches(|texts|)
  {
    forall b :: 0 <= b < |replies| ==> Embedding.Answers(replies[b], Embedding.MakeBatches(texts)[b], model)
  }

  /** `replies` is None when the embedding API gave up. Each outcome has its exact condition; with complete
      replies the rows are those of the document's windows, each with its own vector. */
  method RunPipeline<V(!new)>(blocks: seq<Block>, quotaExceeded: bool, replies: Option<seq<seq<Embedding.Item<V>>>>,
                              normalise: V -> V, ghost model: seq<int> -> V)
    returns (outcome: Outcome<V>)
    requires replies.Some? ==> |replies.value| == Embedding.NumBatches(NumChunks(|TokenStream(blocks)|))
    ensures outcome == NoChunks <==> TokenStream(blocks) == []
    ensures outcome == TooManyTokens <==> ChargedTotal(|TokenStream(blocks)|) > 500_000
    ensures outcome == QuotaExceeded <==>
            TokenStream(blocks) != [] && ChargedTotal(|TokenStream(blocks)|) <= 500_000 && quotaExceeded
    ensures outcome.Rows? <==>
            && TokenStream(blocks) != [] && ChargedTotal(|TokenStream(blocks)|) <= 500_000
            && !quotaExceeded && replies.Some?
            && forall b :: 0 <= b < |replies.value| ==>
                 |replies.value[b]| == |Embedding.MakeBatches(Texts(Windows(TokenStream(blocks))))[b]|
    ensures outcome.Rows? ==> |outcome.rows| == NumChunks(|TokenStream(blocks)|) >= 1
    ensures outcome.Rows? && AllAnswered(replies.value, Texts(Windows(TokenStream(blocks))), model) ==>
              RowsOf(outcome.rows, TokenStream(blocks), (t: seq<int>) => normalise(model(t)))
  {
    ghost var s := TokenStream(blocks);
    var chunks := ChunkText(blocks);
    if chunks == [] {
      return NoChunks;
    }
    var total := TotalOf(chunks);
    Charged(s);
    if total > MAX_TOKENS_PER_DOCUMENT {
      return TooManyTokens;
    }
    if quotaExceeded {
      return QuotaExceeded;
    }
    if replies == None {
      return EmbeddingFailed;
    }
    var texts := Texts(chunks);
    var embedded := Embedding.EmbedTexts(texts, replies.value, normalise);
    if embedded.CountMismatch? || |embedded.vectors| != |chunks| {
      return EmbeddingFailed;
    }
    var vectors := embedded.vectors;
    if AllAnswered(replies.value, texts, model) {
      Embedding.EmbeddingsAlign(texts, replies.value, model);
    }
    outcome := Rows(seq(|chunks|, i requires 0 <= i < |chunks| =>
      Row(chunks[i].index, chunks[i].tokens, |chunks[i].tokens|, vectors[i])));
  }
}
