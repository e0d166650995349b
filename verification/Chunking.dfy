/** The sliding-window chunker over a stream of text blocks. A token is an int; the tokenizer's encoding of
    a block is given, and a chunk's text is the decoding of its tokens. */
module Chunking {
  import opened Sequences

  const CHUNK_SIZE := 512
  const CHUNK_OVERLAP := 64
  const CHUNK_STEP := CHUNK_SIZE - CHUNK_OVERLAP

  /** A block of extracted text: whether stripping leaves nothing, and its encoding. */
  datatype Block = Block(blank: bool, tokens: seq<int>)

  datatype ChunkData = ChunkData(index: nat, tokens: seq<int>)

  /** All tokens of the blocks that are not skipped. */
  function TokenStream(blocks: seq<Block>): seq<int> {
    if blocks == [] then []
    else
      var last := blocks[|blocks| - 1];
      TokenStream(blocks[..|blocks| - 1]) + if last.blank then [] else last.tokens
  }

  /** The blocks are read one after the other. */
  lemma {:induction false} TokenStreamAppend(a: seq<Block>, b: seq<Block>)
    ensures TokenStream(a + b) == TokenStream(a) + TokenStream(b)
  {
    if b == [] {
      assert a + b == a;
    } else {
      var m := |b| - 1;
      assert (a + b)[..|a + b| - 1] == a + b[..m];
      TokenStreamAppend(a, b[..m]);
    }
  }

  /** A block that is not blank gives all its tokens, a blank one none. */
  lemma TokenStreamOfOne(block: Block)
    ensures TokenStream([block]) == if block.blank then [] else block.tokens
  {
    assert [block][..0] == [];
  }

  /** The token lists of the blocks that are not blank, in order. */
  function Kept(blocks: seq<Block>): seq<seq<int>> {
    if blocks == [] then [] else (if blocks[0].blank then [] else [blocks[0].tokens]) + Kept(blocks[1..])
  }

  lemma {:induction false} TokenStreamIsKept(blocks: seq<Block>)
    ensures TokenStream(blocks) == Concat(Kept(blocks))
  {
    if blocks != [] {
      var first, rest := [blocks[0]], blocks[1..];
      TokenStreamIsKept(rest);
      TokenStreamAppend(first, rest);
      TokenStreamOfOne(blocks[0]);
      assert blocks == first + rest;
      ConcatAppend(if blocks[0].blank then [] else [blocks[0].tokens], Kept(rest));
      assert Concat([blocks[0].tokens]) == blocks[0].tokens + Concat([blocks[0].tokens][1..]);
    }
  }

  /** Without blank blocks nothing is left out. */
  lemma {:induction false} NothingLeftOut(blocks: seq<Block>)
    requires forall i :: 0 <= i < |blocks| ==> !blocks[i].blank
    ensures Kept(blocks) == seq(|blocks|, i requires 0 <= i < |blocks| => blocks[i].tokens)
  {
    if blocks != [] {
      NothingLeftOut(blocks[1..]);
    }
  }

  function NumChunks(n: nat): nat {
    if n == 0 then 0
    else if n <= CHUNK_SIZE then 1
    else (n - CHUNK_OVERLAP + CHUNK_STEP - 1) / CHUNK_STEP
  }

  /** Every chunk starts inside the stream, and every one but the last is full. */
  lemma Extent(n: nat, i: nat)
    requires i < NumChunks(n)
    ensures 448 * i < n
    ensures i + 1 < NumChunks(n) <==> 448 * i + 512 < n
  {
  }

  /** The i-th window of the stream. */
  function Window(s: seq<int>, i: nat): seq<int>
    requires i < NumChunks(|s|)
  {
    Extent(|s|, i);
    s[CHUNK_STEP * i..Min(CHUNK_STEP * i + CHUNK_SIZE, |s|)]
  }

  /** The windows at offsets 0, 448, 896, ... */
  function Windows(s: seq<int>): (r: seq<ChunkData>)
    ensures |r| == NumChunks(|s|)
    ensures forall i :: 0 <= i < |r| ==> r[i] == ChunkData(i, Window(s, i))
  {
    seq(NumChunks(|s|), i requires 0 <= i < NumChunks(|s|) => ChunkData(i, Window(s, i)))
  }

  /** The first k windows, all full. */
  predicate FullWindows(chunks: seq<ChunkData>, s: seq<int>) {
    && (chunks != [] ==> CHUNK_STEP * |chunks| + CHUNK_OVERLAP <= |s|)
    && forall i :: 0 <= i < |chunks| ==> chunks[i] == ChunkData(i, s[CHUNK_STEP * i..CHUNK_STEP * i + CHUNK_SIZE])
  }

  /** The buffer holds what the windows cut so far have not stepped over. */
  predicate Buffered(chunks: seq<ChunkData>, buffer: seq<int>, s: seq<int>) {
    FullWindows(chunks, s) && CHUNK_STEP * |chunks| <= |s| && buffer == s[CHUNK_STEP * |chunks|..]
  }

  lemma BufferMore(chunks: seq<ChunkData>, buffer: seq<int>, s: seq<int>, more: seq<int>)
    requires Buffered(chunks, buffer, s)
    ensures Buffered(chunks, buffer + more, s + more)
  {
    forall i | 0 <= i < |chunks|
      ensures (s + more)[CHUNK_STEP * i..CHUNK_STEP * i + CHUNK_SIZE] == s[CHUNK_STEP * i..CHUNK_STEP * i + CHUNK_SIZE]
    {
    }
  }

  lemma BufferCut(chunks: seq<ChunkData>, buffer: seq<int>, s: seq<int>)
    requires Buffered(chunks, buffer, s) && |buffer| >= CHUNK_SIZE
    ensures Buffered(chunks + [ChunkData(|chunks|, buffer[..CHUNK_SIZE])], buffer[CHUNK_STEP..], s)
  {
  }

  lemma NumChunksOf(k: nat, left: nat)
    requires left < CHUNK_SIZE && (k > 0 ==> left >= CHUNK_OVERLAP)
    ensures NumChunks(CHUNK_STEP * k + left) == if left > 0 && (k == 0 || left > CHUNK_OVERLAP) then k + 1 else k
  {
    if k > 0 {
      assert (CHUNK_STEP * k + left + 383) / CHUNK_STEP == k + (left + 383) / CHUNK_STEP;
    }
  }

  /** What is left in the buffer at the end is the last window, or has been emitted as overlap. */
  lemma BufferLeft(chunks: seq<ChunkData>, buffer: seq<int>, s: seq<int>)
    requires Buffered(chunks, buffer, s) && |buffer| < CHUNK_SIZE
    ensures Windows(s) == chunks + if buffer != [] && (chunks == [] || |buffer| > CHUNK_OVERLAP)
                                   then [ChunkData(|chunks|, buffer)] else []
  {
    var k := |chunks|;
    NumChunksOf(k, |buffer|);
    assert |s| == CHUNK_STEP * k + |buffer|;
    forall i | 0 <= i < k
      ensures Windows(s)[i] == chunks[i]
    {
    }
    if NumChunks(|s|) == k + 1 {
      Extent(|s|, k);
      assert Windows(s)[k] == ChunkData(k, buffer);
    }
  }

  /** The chunks depend only on the concatenated token stream and are exactly its windows. */
  method ChunkText(blocks: seq<Block>) returns (chunks: seq<ChunkData>)
    ensures chunks == ChunksOf(blocks)
  {
    chunks := [];
    var buffer: seq<int> := [];
    ghost var s: seq<int> := [];
    assert blocks[..0] == [];
    for b := 0 to |blocks|
      invariant s == TokenStream(blocks[..b])
      invariant Buffered(chunks, buffer, s) && |buffer| < CHUNK_SIZE
    {
      hide Buffered;
      var block := blocks[b];
      assert blocks[..b + 1][..b] == blocks[..b];
      if block.blank {
        assert s + [] == s;
        continue;
      }
      BufferMore(chunks, buffer, s, block.tokens);
      s := s + block.tokens;
      buffer := buffer + block.tokens;
      while |buffer| >= CHUNK_SIZE
        invariant Buffered(chunks, buffer, s)
        decreases |buffer|
      {
        BufferCut(chunks, buffer, s);
        chunks := chunks + [ChunkData(|chunks|, buffer[..CHUNK_SIZE])];
        buffer := buffer[CHUNK_STEP..];
      }
    }
    assert blocks[..|blocks|] == blocks;
    BufferLeft(chunks, buffer, s);
    if buffer != [] && (chunks == [] || |buffer| > CHUNK_OVERLAP) {
      chunks := chunks + [ChunkData(|chunks|, buffer)];
    }
  }

  /** The chunks of a document. */
  function ChunksOf(blocks: seq<Block>): seq<ChunkData> { Windows(TokenStream(blocks)) }

  /** Where the text was cut into blocks makes no difference: two documents whose blocks, blank ones aside, have
      the same tokens when put together have the same chunks. */
  lemma BlockBoundariesDoNotMatter(a: seq<Block>, b: seq<Block>)
    requires Concat(Kept(a)) == Concat(Kept(b))
    ensures ChunksOf(a) == ChunksOf(b)
  {
    TokenStreamIsKept(a);
    TokenStreamIsKept(b);
  }

  /** A document without blank blocks is cut into the windows of all its tokens. */
  lemma AllTokensAreChunked(blocks: seq<Block>)
    requires forall i :: 0 <= i < |blocks| ==> !blocks[i].blank
    ensures ChunksOf(blocks) == Windows(Concat(seq(|blocks|, i requires 0 <= i < |blocks| => blocks[i].tokens)))
  {
    TokenStreamIsKept(blocks);
    NothingLeftOut(blocks);
  }

  /** Blank blocks make no difference, wherever they are and whatever the tokenizer makes of them. */
  lemma BlankBlocksDoNotMatter(a: seq<Block>, tokens: seq<int>, b: seq<Block>)
    ensures ChunksOf(a + [Block(true, tokens)] + b) == ChunksOf(a + b)
  {
    TokenStreamAppend(a + [Block(true, tokens)], b);
    TokenStreamAppend(a, [Block(true, tokens)]);
    TokenStreamAppend(a, b);
    TokenStreamOfOne(Block(true, tokens));
    assert TokenStream(a) + [] == TokenStream(a);
  }

  // ---------------------------------------------------------------- what the windows are good for

  /** Each chunk has 1 to 512 tokens, and only the last may be shorter than 512. */
  lemma WindowSize(s: seq<int>, i: nat)
    requires i < NumChunks(|s|)
    ensures 1 <= |Window(s, i)| <= 512
    ensures i + 1 < NumChunks(|s|) ==> |Window(s, i)| == 512
  {
    Extent(|s|, i);
  }

  /** Neighbours share exactly 64 tokens: the end of one is the start of the next, which goes further. */
  lemma NeighboursOverlap(s: seq<int>, i: nat)
    requires i + 1 < NumChunks(|s|)
    ensures |Window(s, i)| == 512 && |Window(s, i + 1)| > 64
    ensures Window(s, i)[448..] == Window(s, i + 1)[..64]
  {
    Extent(|s|, i);
    hide NumChunks;
    var at := CHUNK_STEP * (i + 1);
    var end := Min(at + CHUNK_SIZE, |s|);
    assert Window(s, i) == s[CHUNK_STEP * i..CHUNK_STEP * i + CHUNK_SIZE] && Window(s, i + 1) == s[at..end];
    SliceSuffix(s, CHUNK_STEP * i, CHUNK_STEP * i + CHUNK_SIZE, CHUNK_STEP);
    SlicePrefix(s, at, end, CHUNK_OVERLAP);
  }

  /** The first chunk followed by what each later chunk adds. */
  function Rebuild(chunks: seq<ChunkData>): seq<int> {
    if chunks == [] then []
    else if |chunks| == 1 then chunks[0].tokens
    else
      var last := chunks[|chunks| - 1].tokens;
      Rebuild(chunks[..|chunks| - 1]) + if |last| <= CHUNK_OVERLAP then [] else last[CHUNK_OVERLAP..]
  }

  lemma RebuildFirst(s: seq<int>)
    requires s != []
    ensures Rebuild(Windows(s)[..1]) == Window(s, 0)
  {
    var front := Windows(s)[..1];
    assert front[0].tokens == Window(s, 0);
    hide Windows, Window;
  }

  lemma RebuildNext(s: seq<int>, k: nat)
    requires 0 < k < NumChunks(|s|) && |Window(s, k)| > CHUNK_OVERLAP
    ensures Rebuild(Windows(s)[..k + 1]) == Rebuild(Windows(s)[..k]) + Window(s, k)[CHUNK_OVERLAP..]
  {
    var front := Windows(s)[..k + 1];
    assert front[k].tokens == Window(s, k) && front[..k] == Windows(s)[..k];
    hide Windows, Window;
  }

  lemma {:induction false} RebuildPrefix(s: seq<int>, k: nat)
    requires 0 < k <= NumChunks(|s|)
    ensures CHUNK_STEP * (k - 1) <= |s|
    ensures Rebuild(Windows(s)[..k]) == s[..Min(CHUNK_STEP * (k - 1) + CHUNK_SIZE, |s|)]
  {
    hide Rebuild, NumChunks, Windows, Window;
    Extent(|s|, k - 1);
    WindowIs(s, k - 1);
    if k == 1 {
      RebuildFirst(s);
    } else {
      NeighboursOverlap(s, k - 2);
      Extent(|s|, k - 2);
      RebuildPrefix(s, k - 1);
      RebuildNext(s, k - 1);
      GrowPrefix(s, CHUNK_STEP * (k - 1), Min(CHUNK_STEP * (k - 1) + CHUNK_SIZE, |s|), CHUNK_OVERLAP);
    }
  }

  lemma WindowIs(s: seq<int>, i: nat)
    requires i < NumChunks(|s|)
    ensures CHUNK_STEP * i < |s|
    ensures Window(s, i) == s[CHUNK_STEP * i..Min(CHUNK_STEP * i + CHUNK_SIZE, |s|)]
  {
    Extent(|s|, i);
  }

  /** No token is lost, invented or moved: the stream can be put together from the chunks. */
  lemma ChunksRebuildTheStream(s: seq<int>)
    ensures Rebuild(Windows(s)) == s
  {
    var n := NumChunks(|s|);
    if n > 0 {
      RebuildPrefix(s, n);
      Extent(|s|, n - 1);
      assert Windows(s)[..n] == Windows(s);
    }
  }

  function TotalTokens(chunks: seq<ChunkData>): nat {
    if chunks == [] then 0 else TotalTokens(chunks[..|chunks| - 1]) + |chunks[|chunks| - 1].tokens|
  }

  lemma TotalNext(s: seq<int>, k: nat)
    requires k < NumChunks(|s|)
    ensures TotalTokens(Windows(s)[..k + 1]) == TotalTokens(Windows(s)[..k]) + |Window(s, k)|
  {
    var front := Windows(s)[..k + 1];
    assert front[k].tokens == Window(s, k) && front[..k] == Windows(s)[..k];
    hide Windows, Window;
  }

  lemma {:induction false} TotalOfPrefix(s: seq<int>, k: nat)
    requires 0 < k <= NumChunks(|s|)
    ensures TotalTokens(Windows(s)[..k]) == Min(CHUNK_STEP * (k - 1) + CHUNK_SIZE, |s|) + CHUNK_OVERLAP * (k - 1)
  {
    hide TotalTokens, Windows;
    TotalNext(s, k - 1);
    Extent(|s|, k - 1);
    if k == 1 {
      NoTokens(Windows(s)[..0]);
    } else {
      TotalOfPrefix(s, k - 1);
      Extent(|s|, k - 2);
    }
  }

  lemma NoTokens(chunks: seq<ChunkData>)
    requires chunks == []
    ensures TotalTokens(chunks) == 0
  {
  }

  /** What ingestion charges to the quota: every token once and 64 more for each chunk after the first. */
  lemma ChargedTokens(s: seq<int>)
    requires s != []
    ensures TotalTokens(Windows(s)) == |s| + 64 * (NumChunks(|s|) - 1)
  {
    var n := NumChunks(|s|);
    TotalOfPrefix(s, n);
    Extent(|s|, n - 1);
    assert Windows(s)[..n] == Windows(s);
  }
}
