/**
  * `DocumentEmbedder.embed_documents`: every document is cut into chunks, the
  * chunks of all documents are laid out in three parallel lists (text,
  * metadata, id), each chunk is embedded, and the lists are handed to the
  * vector store in slices of at most 100 entries.
  *
  * The embedding model and the vector store are outside the model: the
  * model is a function from a chunk to its vector, and the store is the
  * sequence of `add` calls it has received.
  */
module Embedding {
  import opened Chunking
  import Crawler

  /** A vector as the embedding model returns it. */
  type Vector = seq<real>

  /** The metadata stored with a chunk: `{"url", "title", "chunk_index"}`. */
  datatype Metadata = Metadata(url: string, title: string, chunkIndex: nat)

  /** The id `doc_{docIndex}_chunk_{chunkIndex}`, kept as the pair it is printed from. */
  datatype ChunkId = ChunkId(docIndex: nat, chunkIndex: nat)

  /** The arguments of one `collection.add` call. */
  datatype Batch = Batch(documents: seq<string>, embeddings: seq<Vector>, metadatas: seq<Metadata>, ids: seq<ChunkId>)

  /** How many entries one `collection.add` call takes at most. */
  const BatchSize: int := 100

  // ---------------------------------------------------------------- the three lists

  /** `chunk_text(doc["content"])` with its default window and overlap. */
  function DocChunks(doc: Crawler.Document): seq<string>
  {
    Chunks(doc.content, ChunkSize, Overlap).value
  }

  /** The chunks of each document, document by document. */
  function ChunkLists(docs: seq<Crawler.Document>): (r: seq<seq<string>>)
    ensures |r| == |docs|
  {
    seq(|docs|, d requires 0 <= d < |docs| => DocChunks(docs[d]))
  }

  /** The metadata of the first `n` chunks of `doc`. */
  function DocMetadatas(doc: Crawler.Document, n: nat): seq<Metadata>
  {
    seq(n, c requires 0 <= c => Metadata(doc.url, doc.title, c))
  }

  /** The ids of the first `n` chunks of document number `d`. */
  function DocIds(d: nat, n: nat): seq<ChunkId>
  {
    seq(n, c requires 0 <= c => ChunkId(d, c))
  }

  /** `all_chunks`: the chunks of every document, document after document. */
  function AllChunks(lists: seq<seq<string>>): seq<string>
  {
    if lists == [] then [] else AllChunks(lists[..|lists| - 1]) + lists[|lists| - 1]
  }

  /** `all_metadatas`: one entry per chunk, numbering the chunks of each document from 0. */
  function AllMetadatas(docs: seq<Crawler.Document>, lists: seq<seq<string>>): (r: seq<Metadata>)
    requires |lists| == |docs|
    ensures |r| == |AllChunks(lists)|
  {
    if docs == [] then []
    else
      var d := |docs| - 1;
      AllMetadatas(docs[..d], lists[..d]) + DocMetadatas(docs[d], |lists[d]|)
  }

  /** `all_ids`: one id per chunk, from the document's position and the chunk's. */
  function AllIds(lists: seq<seq<string>>): (r: seq<ChunkId>)
    ensures |r| == |AllChunks(lists)|
  {
    if lists == [] then []
    else
      var d := |lists| - 1;
      AllIds(lists[..d]) + DocIds(d, |lists[d]|)
  }

  /** Where the chunks of document `d` begin in the three lists. */
  function Offset(lists: seq<seq<string>>, d: nat): nat
    requires d <= |lists|
  {
    |AllChunks(lists[..d])|
  }

  /** `encode(all_chunks)`, one vector per chunk. */
  function Encodings(encode: string -> Vector, chunks: seq<string>): (r: seq<Vector>)
    ensures |r| == |chunks|
    ensures forall k :: 0 <= k < |chunks| ==> r[k] == encode(chunks[k])
  {
    seq(|chunks|, k requires 0 <= k < |chunks| => encode(chunks[k]))
  }

  // ---------------------------------------------------------------- the batches

  /** The four lists agree in length. */
  predicate Parallel(chunks: seq<string>, vectors: seq<Vector>, metadatas: seq<Metadata>, ids: seq<ChunkId>)
  {
    |vectors| == |chunks| && |metadatas| == |chunks| && |ids| == |chunks|
  }

  /** Where the batch starting at `i` ends: `min(i + 100, n)`. */
  function BatchEnd(i: nat, n: nat): nat
  {
    if i + BatchSize <= n then i + BatchSize else n
  }

  /** The `collection.add` calls for the batches starting at `i`, `i + 100`, ... below the length. */
  function BatchesFrom(chunks: seq<string>, vectors: seq<Vector>, metadatas: seq<Metadata>, ids: seq<ChunkId>, i: nat): seq<Batch>
    requires Parallel(chunks, vectors, metadatas, ids)
    decreases |chunks| - i
  {
    if i >= |chunks| then []
    else
      var e := BatchEnd(i, |chunks|);
      [Batch(chunks[i..e], vectors[i..e], metadatas[i..e], ids[i..e])] +
      BatchesFrom(chunks, vectors, metadatas, ids, i + BatchSize)
  }

  /** Two batches, one after the other. */
  function Concat(a: Batch, b: Batch): Batch
  {
    Batch(a.documents + b.documents, a.embeddings + b.embeddings, a.metadatas + b.metadatas, a.ids + b.ids)
  }

  /** What a sequence of `add` calls stores altogether. */
  function Stored(batches: seq<Batch>): Batch
  {
    if batches == [] then Batch([], [], [], []) else Concat(batches[0], Stored(batches[1..]))
  }

  /** The embedder: the model, and the vector store as the `add` calls it received. */
  class DocumentEmbedder {
    /** `SentenceTransformer.encode`, applied chunk by chunk. */
    const encode: string -> Vector
    /** Every `collection.add` call so far, in order. */
    var added: seq<Batch>

    constructor (encode: string -> Vector)
      ensures this.encode == encode && added == []
    {
      this.encode := encode;
      added := [];
    }

    /** `embed_documents`: flatten, embed, and add in batches of 100. */
    method EmbedDocuments(documents: seq<Crawler.Document>)
      modifies this
      ensures var lists := ChunkLists(documents);
        added == old(added) + BatchesFrom(AllChunks(lists), Encodings(encode, AllChunks(lists)),
                                          AllMetadatas(documents, lists), AllIds(lists), 0)
    {
      var allChunks, allMetadatas, allIds := Flatten(documents);
      var embeddings := Encodings(encode, allChunks);
      AddBatches(allChunks, embeddings, allMetadatas, allIds);
    }

    /** The batch loop: one `add` per slice `[i, min(i + 100, n))`. */
    method AddBatches(chunks: seq<string>, vectors: seq<Vector>, metadatas: seq<Metadata>, ids: seq<ChunkId>)
      requires Parallel(chunks, vectors, metadatas, ids)
      modifies this
      ensures added == old(added) + BatchesFrom(chunks, vectors, metadatas, ids, 0)
    {
      var i: nat := 0;
      while i < |chunks|
        invariant added + BatchesFrom(chunks, vectors, metadatas, ids, i) == old(added) + BatchesFrom(chunks, vectors, metadatas, ids, 0)
        decreases |chunks| - i
      {
        var batchEnd := if i + BatchSize <= |chunks| then i + BatchSize else |chunks|;
        var batch := Batch(chunks[i..batchEnd], vectors[i..batchEnd], metadatas[i..batchEnd], ids[i..batchEnd]);
        assert BatchesFrom(chunks, vectors, metadatas, ids, i) == [batch] + BatchesFrom(chunks, vectors, metadatas, ids, i + BatchSize);
        added := added + [batch];
        i := i + BatchSize;
      }
    }
  }

  /** The outer chunking loop of `embed_documents`: the three parallel lists. */
  method Flatten(documents: seq<Crawler.Document>) returns (allChunks: seq<string>, allMetadatas: seq<Metadata>, allIds: seq<ChunkId>)
    ensures allChunks == AllChunks(ChunkLists(documents))
    ensures allMetadatas == AllMetadatas(documents, ChunkLists(documents))
    ensures allIds == AllIds(ChunkLists(documents))
  {
    ghost var lists := ChunkLists(documents);
    allChunks, allMetadatas, allIds := [], [], [];
    var d := 0;
    while d < |documents|
      invariant d <= |documents|
      invariant allChunks == AllChunks(lists[..d])
      invariant allMetadatas == AllMetadatas(documents[..d], lists[..d])
      invariant allIds == AllIds(lists[..d])
    {
      var doc := documents[d];
      var result := ChunkText(doc.content, ChunkSize, Overlap);
      assert result.value == lists[d];
      allChunks, allMetadatas, allIds := AppendChunks(d, doc, result.value, allChunks, allMetadatas, allIds);
      assert documents[..d + 1][..d] == documents[..d];
      assert lists[..d + 1][..d] == lists[..d];
      d := d + 1;
    }
    assert documents[..d] == documents;
    assert lists[..d] == lists;
  }

  /** The inner chunking loop: one entry in each list per chunk of document number `d`. */
  method AppendChunks(d: nat, doc: Crawler.Document, chunks: seq<string>,
                      allChunks: seq<string>, allMetadatas: seq<Metadata>, allIds: seq<ChunkId>)
    returns (allChunks': seq<string>, allMetadatas': seq<Metadata>, allIds': seq<ChunkId>)
    ensures allChunks' == allChunks + chunks
    ensures allMetadatas' == allMetadatas + DocMetadatas(doc, |chunks|)
    ensures allIds' == allIds + DocIds(d, |chunks|)
  {
    allChunks', allMetadatas', allIds' := allChunks, allMetadatas, allIds;
    var c := 0;
    while c < |chunks|
      invariant c <= |chunks|
      invariant allChunks' == allChunks + chunks[..c]
      invariant allMetadatas' == allMetadatas + DocMetadatas(doc, c)
      invariant allIds' == allIds + DocIds(d, c)
    {
      allChunks' := allChunks' + [chunks[c]];
      allMetadatas' := allMetadatas' + [Metadata(doc.url, doc.title, c)];
      allIds' := allIds' + [ChunkId(d, c)];
      c := c + 1;
    }
    assert chunks[..c] == chunks;
  }

  // ---------------------------------------------------------------- properties of the three lists

  /** The chunks of document `d` sit at its offset, in order, with their document's url and title and their own index. */
  lemma ChunkLocated(docs: seq<Crawler.Document>, lists: seq<seq<string>>, d: nat, c: nat)
    requires |lists| == |docs|
    requires d < |docs| && c < |lists[d]|
    ensures Offset(lists, d) + c < |AllChunks(lists)|
    ensures AllChunks(lists)[Offset(lists, d) + c] == lists[d][c]
    ensures AllMetadatas(docs, lists)[Offset(lists, d) + c] == Metadata(docs[d].url, docs[d].title, c)
    ensures AllIds(lists)[Offset(lists, d) + c] == ChunkId(d, c)
  {
    ChunkEntry(lists, d, c);
    MetadataEntry(docs, lists, d, c);
    IdEntry(lists, d, c);
  }

  lemma {:induction false} ChunkEntry(lists: seq<seq<string>>, d: nat, c: nat)
    requires d < |lists| && c < |lists[d]|
    ensures Offset(lists, d) + c < |AllChunks(lists)|
    ensures AllChunks(lists)[Offset(lists, d) + c] == lists[d][c]
    decreases |lists|
  {
    var last := |lists| - 1;
    if d == last {
      assert lists[..d] == lists[..last];
    } else {
      ChunkEntry(lists[..last], d, c);
      assert lists[..last][..d] == lists[..d];
    }
  }

  lemma {:induction false} MetadataEntry(docs: seq<Crawler.Document>, lists: seq<seq<string>>, d: nat, c: nat)
    requires |lists| == |docs|
    requires d < |docs| && c < |lists[d]|
    ensures Offset(lists, d) + c < |AllChunks(lists)|
    ensures AllMetadatas(docs, lists)[Offset(lists, d) + c] == Metadata(docs[d].url, docs[d].title, c)
    decreases |docs|
  {
    var last := |docs| - 1;
    ChunkEntry(lists, d, c);
    if d == last {
      assert lists[..d] == lists[..last];
    } else {
      MetadataEntry(docs[..last], lists[..last], d, c);
      assert lists[..last][..d] == lists[..d];
    }
  }

  lemma {:induction false} IdEntry(lists: seq<seq<string>>, d: nat, c: nat)
    requires d < |lists| && c < |lists[d]|
    ensures Offset(lists, d) + c < |AllChunks(lists)|
    ensures AllIds(lists)[Offset(lists, d) + c] == ChunkId(d, c)
    decreases |lists|
  {
    var last := |lists| - 1;
    ChunkEntry(lists, d, c);
    if d == last {
      assert lists[..d] == lists[..last];
    } else {
      IdEntry(lists[..last], d, c);
      assert lists[..last][..d] == lists[..d];
    }
  }

  /** Every entry of the lists belongs to some chunk `c` of some document `d`. */
  lemma {:induction false} EntryLocated(lists: seq<seq<string>>, p: nat) returns (d: nat, c: nat)
    requires p < |AllChunks(lists)|
    ensures d < |lists| && c < |lists[d]| && p == Offset(lists, d) + c
    decreases |lists|
  {
    var last := |lists| - 1;
    if p < |AllChunks(lists[..last])| {
      d, c := EntryLocated(lists[..last], p);
      assert lists[..last][..d] == lists[..d];
    } else {
      d, c := last, p - |AllChunks(lists[..last])|;
    }
  }

  /** No two entries share an id: `doc_{d}_chunk_{c}` names one chunk. */
  lemma {:induction false} IdsDistinct(lists: seq<seq<string>>)
    ensures Crawler.NoDup(AllIds(lists))
    ensures forall p :: 0 <= p < |AllIds(lists)| ==> AllIds(lists)[p].docIndex < |lists|
    decreases |lists|
  {
    if lists != [] {
      var last := |lists| - 1;
      IdsDistinct(lists[..last]);
      var ids := AllIds(lists);
      var n := |AllIds(lists[..last])|;
      forall p, q | 0 <= p < q < |ids|
        ensures ids[p] != ids[q]
      {
        if q >= n && p < n {
          assert ids[p] == AllIds(lists[..last])[p];
        }
      }
    }
  }

  // ---------------------------------------------------------------- properties of the batches

  /** Batch `k` is the slice `[100 k, min(100 k + 100, n))` of each list, with between 1 and 100 entries. */
  lemma {:induction false} BatchAt(chunks: seq<string>, vectors: seq<Vector>, metadatas: seq<Metadata>, ids: seq<ChunkId>,
                                   i: nat, k: nat, start: int)
    requires Parallel(chunks, vectors, metadatas, ids)
    requires k < |BatchesFrom(chunks, vectors, metadatas, ids, i)|
    requires start == i + k * BatchSize
    ensures 0 <= start < |chunks|
    ensures var e := BatchEnd(start, |chunks|);
      start < e <= start + BatchSize &&
      BatchesFrom(chunks, vectors, metadatas, ids, i)[k] == Batch(chunks[start..e], vectors[start..e], metadatas[start..e], ids[start..e])
    decreases k
  {
    if k > 0 {
      MulStep(i, k, BatchSize);
      BatchAt(chunks, vectors, metadatas, ids, i + BatchSize, k - 1, start);
    }
  }

  /** There are `ceil(n / 100)` batches. */
  lemma {:induction false} BatchCount(chunks: seq<string>, vectors: seq<Vector>, metadatas: seq<Metadata>, ids: seq<ChunkId>, i: nat)
    requires Parallel(chunks, vectors, metadatas, ids)
    ensures |BatchesFrom(chunks, vectors, metadatas, ids, i)| == if i >= |chunks| then 0 else (|chunks| - i + BatchSize - 1) / BatchSize
    decreases |chunks| - i
  {
    var n := |chunks|;
    if i < n {
      BatchCount(chunks, vectors, metadatas, ids, i + BatchSize);
      if i + BatchSize >= n {
        DivUnique(n - i + BatchSize - 1, BatchSize, 1, n - i - 1);
      } else {
        var q := (n - (i + BatchSize) + BatchSize - 1) / BatchSize;
        DivUnique(n - i + BatchSize - 1, BatchSize, q + 1, (n - (i + BatchSize) + BatchSize - 1) % BatchSize);
      }
    }
  }

  /** Together the batches store every entry of each list exactly once, in order. */
  lemma {:induction false} BatchesStoreAll(chunks: seq<string>, vectors: seq<Vector>, metadatas: seq<Metadata>, ids: seq<ChunkId>, i: nat)
    requires Parallel(chunks, vectors, metadatas, ids) && i <= |chunks|
    ensures Stored(BatchesFrom(chunks, vectors, metadatas, ids, i)) == Batch(chunks[i..], vectors[i..], metadatas[i..], ids[i..])
    decreases |chunks| - i
  {
    var batches := BatchesFrom(chunks, vectors, metadatas, ids, i);
    if i < |chunks| {
      var e := BatchEnd(i, |chunks|);
      if e < |chunks| {
        BatchesStoreAll(chunks, vectors, metadatas, ids, e);
      } else {
        assert BatchesFrom(chunks, vectors, metadatas, ids, i + BatchSize) == [];
      }
      assert batches[1..] == BatchesFrom(chunks, vectors, metadatas, ids, e);
      assert chunks[i..] == chunks[i..e] + chunks[e..];
      assert vectors[i..] == vectors[i..e] + vectors[e..];
      assert metadatas[i..] == metadatas[i..e] + metadatas[e..];
      assert ids[i..] == ids[i..e] + ids[e..];
    }
  }
}
