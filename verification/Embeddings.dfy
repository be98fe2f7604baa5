/**
 Attaching embeddings to documents and chunks: texts are collected, embedded in batches that complete
 in any order, and mapped back by position.
 */
module Embeddings {
  import opened Options
  import opened Batching

  const EMBEDDING_BATCH_SIZE := 100

  datatype ChunkText = ChunkText(number: nat, content: string)

  datatype DocumentText = DocumentText(title: string, chunks: seq<ChunkText>)

  datatype EmbeddedChunk<E> = EmbeddedChunk(number: nat, content: string, embedding: E)

  datatype EmbeddedDocument<E> = EmbeddedDocument(title: string, titleEmbedding: E, chunks: seq<EmbeddedChunk<E>>)

  function Map<A, B>(f: A -> B, items: seq<A>): (r: seq<B>)
    ensures |r| == |items|
    ensures forall i :: 0 <= i < |items| ==> r[i] == f(items[i])
  {
    seq(|items|, i requires 0 <= i < |items| => f(items[i]))
  }

  lemma MapConcat<A, B>(f: A -> B, a: seq<A>, b: seq<A>)
    ensures Map(f, a + b) == Map(f, a) + Map(f, b)
  {
  }

  /** Every batch completes. */
  ghost predicate Completes(order: seq<nat>, batches: nat) {
    forall b: nat :: b < batches <==> b in order
  }

  /** Runs the batches in order of completion and joins their results in order of submission. */
  method EmbedBatches<E>(embed: string -> E, batches: seq<seq<string>>, order: seq<nat>) returns (embeddings: seq<E>)
    requires Completes(order, |batches|)
    ensures embeddings == Map(embed, Flatten(batches))
  {
    var slots := new Option<seq<E>>[|batches|](_ => None);
    for k := 0 to |order|
      invariant forall b: nat :: b < |batches| ==>
                                   slots[b] == if b in order[..k] then Some(Map(embed, batches[b])) else None
    {
      assert order[k] in order;
      assert order[..k + 1] == order[..k] + [order[k]];
      slots[order[k]] := Some(Map(embed, batches[order[k]]));
    }
    assert order[..|order|] == order;
    embeddings := [];
    for b := 0 to |batches|
      invariant forall c: nat :: c < |batches| ==> slots[c] == Some(Map(embed, batches[c]))
      invariant embeddings == Map(embed, Flatten(batches[..b]))
    {
      FlattenSnoc(batches[..b], batches[b]);
      MapConcat(embed, Flatten(batches[..b]), batches[b]);
      assert batches[..b + 1] == batches[..b] + [batches[b]];
      embeddings := embeddings + slots[b].value;
    }
    assert batches[..|batches|] == batches;
  }

  /** All chunk texts, document by document. */
  function ChunkTexts(documents: seq<DocumentText>): seq<string> {
    if documents == [] then []
    else
      var n := |documents| - 1;
      ChunkTexts(documents[..n]) + Map((c: ChunkText) => c.content, documents[n].chunks)
  }

  function Titles(documents: seq<DocumentText>): seq<string> {
    Map((d: DocumentText) => d.title, documents)
  }

  /** Where the texts of a document's chunks begin. */
  function Offset(documents: seq<DocumentText>, d: nat): nat
    requires d <= |documents|
  {
    |ChunkTexts(documents[..d])|
  }

  lemma OffsetNext(documents: seq<DocumentText>, d: nat)
    requires d < |documents|
    ensures Offset(documents, d + 1) == Offset(documents, d) + |documents[d].chunks|
  {
    assert documents[..d + 1][..d] == documents[..d];
  }

  /** The text at a document's offset plus a chunk's position is that chunk's. */
  lemma {:induction false} ChunkTextAt(documents: seq<DocumentText>, d: nat, c: nat)
    requires d < |documents| && c < |documents[d].chunks|
    ensures Offset(documents, d) + c < |ChunkTexts(documents)|
    ensures ChunkTexts(documents)[Offset(documents, d) + c] == documents[d].chunks[c].content
  {
    var n := |documents| - 1;
    if d < n {
      ChunkTextAt(documents[..n], d, c);
      assert documents[..n][..d] == documents[..d];
    }
  }

  /** Every title and every chunk carries the embedding of its own text, whatever the completion order. */
  ghost predicate Embedded<E(!new)>(embed: string -> E, d: DocumentText, r: EmbeddedDocument<E>) {
    && r.title == d.title && r.titleEmbedding == embed(d.title)
    && |r.chunks| == |d.chunks|
    && forall c :: 0 <= c < |d.chunks| ==>
                     r.chunks[c] == EmbeddedChunk(d.chunks[c].number, d.chunks[c].content, embed(d.chunks[c].content))
  }

  method CollectTexts(documents: seq<DocumentText>)
    returns (titles: seq<string>, titleIndices: seq<nat>, chunks: seq<string>)
    ensures titles == Titles(documents) && chunks == ChunkTexts(documents)
    ensures |titleIndices| == |documents| && forall i :: 0 <= i < |documents| ==> titleIndices[i] == i
  {
    titles, titleIndices, chunks := [], [], [];
    for d := 0 to |documents|
      invariant |titles| == |titleIndices| == d
      invariant forall i :: 0 <= i < d ==> titles[i] == documents[i].title && titleIndices[i] == i
      invariant chunks == ChunkTexts(documents[..d])
    {
      assert documents[..d + 1][..d] == documents[..d];
      titles := titles + [documents[d].title];
      titleIndices := titleIndices + [d];
      var mine: seq<string> := [];
      for c := 0 to |documents[d].chunks|
        invariant |mine| == c
        invariant forall k :: 0 <= k < c ==> mine[k] == documents[d].chunks[k].content
      {
        mine := mine + [documents[d].chunks[c].content];
      }
      assert mine == Map((c: ChunkText) => c.content, documents[d].chunks);
      chunks := chunks + mine;
    }
    assert documents[..|documents|] == documents;
  }

  /** Assigns each title embedding to the document it was collected from. */
  method PlaceTitles<E>(titleEmbeddings: seq<E>, titleIndices: seq<nat>) returns (placed: seq<Option<E>>)
    requires |titleIndices| == |titleEmbeddings|
    requires forall i :: 0 <= i < |titleIndices| ==> titleIndices[i] == i
    ensures |placed| == |titleEmbeddings|
    ensures forall d :: 0 <= d < |placed| ==> placed[d] == Some(titleEmbeddings[d])
  {
    placed := seq(|titleIndices|, _ => None);
    for i := 0 to |titleEmbeddings|
      invariant |placed| == |titleIndices|
      invariant forall d :: 0 <= d < i ==> placed[d] == Some(titleEmbeddings[d])
    {
      placed := placed[titleIndices[i] := Some(titleEmbeddings[i])];
    }
  }

  /** Pairs a document's chunks with the embeddings from `start` on. */
  method PairChunks<E>(chunks: seq<ChunkText>, embeddings: seq<E>, start: nat)
    returns (paired: seq<EmbeddedChunk<E>>, next: nat)
    requires start + |chunks| <= |embeddings|
    ensures |paired| == |chunks| && next == start + |chunks|
    ensures forall c :: 0 <= c < |chunks| ==>
                          paired[c] == EmbeddedChunk(chunks[c].number, chunks[c].content, embeddings[start + c])
  {
    paired, next := [], start;
    for c := 0 to |chunks|
      invariant |paired| == c && next == start + c
      invariant forall k :: 0 <= k < c ==>
                              paired[k] == EmbeddedChunk(chunks[k].number, chunks[k].content, embeddings[start + k])
    {
      paired := paired + [EmbeddedChunk(chunks[c].number, chunks[c].content, embeddings[next])];
      next := next + 1;
    }
  }

  /** A document's chunk texts are embedded at its offset. */
  lemma ChunksEmbeddedAt<E>(embed: string -> E, documents: seq<DocumentText>, d: nat)
    requires d < |documents|
    ensures Offset(documents, d) + |documents[d].chunks| <= |ChunkTexts(documents)|
    ensures forall c :: 0 <= c < |documents[d].chunks| ==>
                          Map(embed, ChunkTexts(documents))[Offset(documents, d) + c]
                          == embed(documents[d].chunks[c].content)
  {
    OffsetNext(documents, d);
    OffsetWithin(documents, d + 1);
    forall c | 0 <= c < |documents[d].chunks|
      ensures Offset(documents, d) + c < |ChunkTexts(documents)|
      ensures ChunkTexts(documents)[Offset(documents, d) + c] == documents[d].chunks[c].content
    {
      ChunkTextAt(documents, d, c);
    }
  }

  lemma {:induction false} OffsetWithin(documents: seq<DocumentText>, d: nat)
    requires d <= |documents|
    ensures Offset(documents, d) <= |ChunkTexts(documents)|
  {
    if d < |documents| {
      var n := |documents| - 1;
      OffsetWithin(documents[..n], d);
      assert documents[..n][..d] == documents[..d];
    } else {
      assert documents[..d] == documents;
    }
  }

  /** Pairs every document with its embeddings, in the order the texts were collected. */
  method MapBack<E(!new)>(embed: string -> E, documents: seq<DocumentText>, placed: seq<Option<E>>, embeddings: seq<E>)
    returns (result: seq<EmbeddedDocument<E>>)
    requires |placed| == |documents|
    requires forall d :: 0 <= d < |placed| ==> placed[d] == Some(embed(documents[d].title))
    requires embeddings == Map(embed, ChunkTexts(documents))
    ensures |result| == |documents|
    ensures forall d :: 0 <= d < |documents| ==> Embedded(embed, documents[d], result[d])
  {
    result := [];
    var next := 0;
    for d := 0 to |documents|
      invariant |result| == d && next == Offset(documents, d)
      invariant forall k :: 0 <= k < d ==> Embedded(embed, documents[k], result[k])
    {
      ChunksEmbeddedAt(embed, documents, d);
      OffsetNext(documents, d);
      var chunks;
      chunks, next := PairChunks(documents[d].chunks, embeddings, next);
      result := result + [EmbeddedDocument(documents[d].title, placed[d].value, chunks)];
    }
  }

  method CreateEmbeddings<E(!new)>(embed: string -> E, documents: seq<DocumentText>, titleOrder: seq<nat>,
                                   chunkOrder: seq<nat>)
    returns (result: seq<EmbeddedDocument<E>>)
    requires Completes(titleOrder, |Batches(Titles(documents), EMBEDDING_BATCH_SIZE)|)
    requires Completes(chunkOrder, |Batches(ChunkTexts(documents), EMBEDDING_BATCH_SIZE)|)
    ensures |result| == |documents|
    ensures forall d :: 0 <= d < |documents| ==> Embedded(embed, documents[d], result[d])
  {
    var titles, titleIndices, chunks := CollectTexts(documents);
    var titleEmbeddings := EmbedBatches(embed, Batches(titles, EMBEDDING_BATCH_SIZE), titleOrder);
    FlattenBatches(titles, EMBEDDING_BATCH_SIZE);
    var chunkEmbeddings := EmbedBatches(embed, Batches(chunks, EMBEDDING_BATCH_SIZE), chunkOrder);
    FlattenBatches(chunks, EMBEDDING_BATCH_SIZE);
    var placed := PlaceTitles(titleEmbeddings, titleIndices);
    result := MapBack(embed, documents, placed, chunkEmbeddings);
  }
}
