/**
 * The `embed` command of the ingestion script: every stored document body is
 * chunked with the defaults, the chunks are embedded in one batch, and one
 * point per (vector, chunk) pair is upserted with payload `{doc_id, text}`.
 *
 * The sentence embedder is the parameter `embedder` (chunks to vectors, of an
 * opaque vector type `V`), the n-th call of `uuid.uuid4()` in a run is
 * `uuidAt(n)`, and each `client.upsert` call is recorded as the batch of
 * points it receives, in call order.
 */
module Ingest {
  import opened Chunker

  /** A payload value: the document id or the chunk text (a chunk is its token ids). */
  datatype PayloadValue = DocIdValue(docId: int) | TextValue(chunk: Chunk)

  type Payload = map<string, PayloadValue>

  /** `models.PointStruct(id=..., vector=..., payload=...)`. */
  datatype Point<V> = Point(id: string, vector: V, payload: Payload)

  /** A row of `SELECT id, body FROM docs`, its body already tokenized. */
  datatype DocRow = DocRow(docId: int, bodyIds: seq<TokenId>)

  /** The payload dictionary built for one chunk. */
  function ChunkPayload(docId: int, chunk: Chunk): (p: Payload)
    ensures "doc_id" in p && p["doc_id"] == DocIdValue(docId)
    ensures "text" in p && p["text"] == TextValue(chunk)
    ensures forall key :: key in p ==> key == "doc_id" || key == "text"
  {
    map["doc_id" := DocIdValue(docId), "text" := TextValue(chunk)]
  }

  /**
   * The list comprehension over `zip(vectors, chunks)`: `zip` stops at the
   * shorter input, and the k-th point takes the k-th fresh id after `used`.
   */
  function BuildPoints<V>(docId: int, vectors: seq<V>, chunks: seq<Chunk>, uuidAt: nat -> string, used: nat)
    : (points: seq<Point<V>>)
    ensures |points| == Min(|vectors|, |chunks|)
    decreases |chunks|
  {
    if vectors == [] || chunks == [] then []
    else
      var point := Point(uuidAt(used), vectors[0], ChunkPayload(docId, chunks[0]));
      [point] + BuildPoints(docId, vectors[1..], chunks[1..], uuidAt, used + 1)
  }

  /**
   * Point `k` pairs the k-th vector with the k-th chunk, in order, under the
   * k-th fresh id; its payload is exactly `{doc_id, text}`.
   */
  lemma {:induction false} BuildPointsAt<V>(docId: int, vectors: seq<V>, chunks: seq<Chunk>, uuidAt: nat -> string, used: nat, k: nat)
    requires k < |BuildPoints(docId, vectors, chunks, uuidAt, used)|
    ensures var p := BuildPoints(docId, vectors, chunks, uuidAt, used)[k];
      && p.id == uuidAt(used + k)
      && p.vector == vectors[k]
      && p.payload == ChunkPayload(docId, chunks[k])
    decreases k
  {
    if k > 0 {
      BuildPointsAt(docId, vectors[1..], chunks[1..], uuidAt, used + 1, k - 1);
    }
  }

  /** `_chunk_text(tokenizer, body)` with the defaults; they never make the step zero. */
  function DefaultChunks(bodyIds: seq<TokenId>): seq<Chunk> {
    ChunkIds(bodyIds, DefaultMaxTokens, DefaultOverlap).value
  }

  /** Every point of `BuildPoints` as `BuildPointsAt` describes it. */
  lemma BuildPointsEvery<V>(docId: int, vectors: seq<V>, chunks: seq<Chunk>, uuidAt: nat -> string, used: nat)
    ensures var points := BuildPoints(docId, vectors, chunks, uuidAt, used);
      forall k :: 0 <= k < |points| ==>
        && points[k].id == uuidAt(used + k)
        && points[k].vector == vectors[k]
        && points[k].payload == ChunkPayload(docId, chunks[k])
  {
    var points := BuildPoints(docId, vectors, chunks, uuidAt, used);
    forall k | 0 <= k < |points|
      ensures points[k].id == uuidAt(used + k)
      ensures points[k].vector == vectors[k]
      ensures points[k].payload == ChunkPayload(docId, chunks[k])
    {
      BuildPointsAt(docId, vectors, chunks, uuidAt, used, k);
    }
  }

  /**
   * The points `embed` builds for one row, with `used` ids already drawn:
   * one per (vector, chunk) pair of the row's default chunks, the k-th under
   * the k-th fresh id and with the k-th chunk as its text.
   */
  function RowPoints<V>(row: DocRow, embedder: seq<Chunk> -> seq<V>, uuidAt: nat -> string, used: nat)
    : (points: seq<Point<V>>)
    ensures var chunks := DefaultChunks(row.bodyIds);
      && |points| == Min(|embedder(chunks)|, |chunks|)
      && forall k :: 0 <= k < |points| ==>
        && points[k].id == uuidAt(used + k)
        && points[k].vector == embedder(chunks)[k]
        && points[k].payload == ChunkPayload(row.docId, chunks[k])
  {
    var chunks := DefaultChunks(row.bodyIds);
    BuildPointsEvery(row.docId, embedder(chunks), chunks, uuidAt, used);
    BuildPoints(row.docId, embedder(chunks), chunks, uuidAt, used)
  }

  /**
   * The upsert batches of the loop over `rows` from row `from` on, with
   * `used` ids already drawn: one batch for every remaining row.
   */
  function EmbedBatches<V>(rows: seq<DocRow>, from: nat, embedder: seq<Chunk> -> seq<V>, uuidAt: nat -> string, used: nat)
    : (batches: seq<seq<Point<V>>>)
    requires from <= |rows|
    ensures |batches| == |rows| - from
    decreases |rows| - from
  {
    if from == |rows| then []
    else
      var points := RowPoints(rows[from], embedder, uuidAt, used);
      [points] + EmbedBatches(rows, from + 1, embedder, uuidAt, used + |points|)
  }

  /** The `for doc_id, body in rows` loop of `embed`: one upsert call per row, in row order. */
  method Embed<V>(rows: seq<DocRow>, embedder: seq<Chunk> -> seq<V>, uuidAt: nat -> string)
    returns (batches: seq<seq<Point<V>>>)
    ensures batches == EmbedBatches(rows, 0, embedder, uuidAt, 0)
  {
    batches := [];
    var used: nat := 0;
    for i := 0 to |rows|
      invariant batches + EmbedBatches(rows, i, embedder, uuidAt, used) == EmbedBatches(rows, 0, embedder, uuidAt, 0)
    {
      var row := rows[i];
      var chunked := ChunkText(row.bodyIds, DefaultMaxTokens, DefaultOverlap);
      var chunks := chunked.value;
      var points := BuildPoints(row.docId, embedder(chunks), chunks, uuidAt, used);
      EmbedStep(rows, i, embedder, uuidAt, used, batches, points);
      batches := batches + [points];
      used := used + |points|;
    }
  }

  /** One turn of the row loop: appending row `i`'s points moves the loop on by one row. */
  lemma EmbedStep<V>(rows: seq<DocRow>, i: nat, embedder: seq<Chunk> -> seq<V>, uuidAt: nat -> string, used: nat,
                     batches: seq<seq<Point<V>>>, points: seq<Point<V>>)
    requires i < |rows|
    requires points == BuildPoints(rows[i].docId, embedder(DefaultChunks(rows[i].bodyIds)), DefaultChunks(rows[i].bodyIds), uuidAt, used)
    ensures (batches + [points]) + EmbedBatches(rows, i + 1, embedder, uuidAt, used + |points|)
      == batches + EmbedBatches(rows, i, embedder, uuidAt, used)
  {
    assert points == RowPoints(rows[i], embedder, uuidAt, used);
    BatchesAssoc(batches, [points], EmbedBatches(rows, i + 1, embedder, uuidAt, used + |points|));
  }

  lemma BatchesAssoc<V>(x: seq<seq<Point<V>>>, y: seq<seq<Point<V>>>, z: seq<seq<Point<V>>>)
    ensures (x + y) + z == x + (y + z)
  {
  }

  /**
   * When the embedder returns one vector per chunk, a document yields one
   * point per chunk in chunk order, `ceil(n / 462)` of them for `n` tokens;
   * each payload holds the document id and exactly that chunk, and no url.
   */
  lemma OnePointPerChunk<V>(row: DocRow, embedder: seq<Chunk> -> seq<V>, uuidAt: nat -> string, used: nat)
    requires |embedder(DefaultChunks(row.bodyIds))| == |DefaultChunks(row.bodyIds)|
    ensures var chunks := DefaultChunks(row.bodyIds);
      var points := BuildPoints(row.docId, embedder(chunks), chunks, uuidAt, used);
      && |points| == |chunks| == CeilDiv(|row.bodyIds|, DefaultMaxTokens - DefaultOverlap)
      && forall k :: 0 <= k < |points| ==>
        && points[k].payload == ChunkPayload(row.docId, chunks[k])
        && "url" !in points[k].payload
  {
    ChunkCount(row.bodyIds, DefaultMaxTokens, DefaultOverlap);
    var chunks := DefaultChunks(row.bodyIds);
    var points := BuildPoints(row.docId, embedder(chunks), chunks, uuidAt, used);
    forall k | 0 <= k < |points|
      ensures points[k].payload == ChunkPayload(row.docId, chunks[k])
      ensures "url" !in points[k].payload
    {
      BuildPointsAt(row.docId, embedder(chunks), chunks, uuidAt, used, k);
    }
  }

  function Flatten<T>(batches: seq<seq<T>>): seq<T> {
    if batches == [] then [] else batches[0] + Flatten(batches[1..])
  }

  /**
   * Across a whole run the points carry the fresh ids in draw order: the m-th
   * point upserted from row `from` on has the id of the m-th `uuid4()` call
   * after `used`.
   */
  lemma {:induction false} EmbedIdsInDrawOrder<V>(rows: seq<DocRow>, from: nat, embedder: seq<Chunk> -> seq<V>, uuidAt: nat -> string, used: nat, m: nat)
    requires from <= |rows|
    requires m < |Flatten(EmbedBatches(rows, from, embedder, uuidAt, used))|
    ensures Flatten(EmbedBatches(rows, from, embedder, uuidAt, used))[m].id == uuidAt(used + m)
    decreases |rows| - from
  {
    var first := RowPoints(rows[from], embedder, uuidAt, used);
    var later := EmbedBatches(rows, from + 1, embedder, uuidAt, used + |first|);
    assert EmbedBatches(rows, from, embedder, uuidAt, used) == [first] + later;
    FlattenIndex(first, later, m);
    if m >= |first| {
      EmbedIdsInDrawOrder(rows, from + 1, embedder, uuidAt, used + |first|, m - |first|);
    }
  }

  /** Position `m` of a flattened run lies in its first batch or, shifted, in the rest. */
  lemma FlattenIndex<T>(first: seq<T>, later: seq<seq<T>>, m: nat)
    requires m < |Flatten([first] + later)|
    ensures Flatten([first] + later) == first + Flatten(later)
    ensures m < |first| ==> Flatten([first] + later)[m] == first[m]
    ensures m >= |first| ==> m - |first| < |Flatten(later)| && Flatten([first] + later)[m] == Flatten(later)[m - |first|]
  {
    assert ([first] + later)[0] == first;
    assert ([first] + later)[1..] == later;
  }

  /** Since `uuid4()` never repeats, no two points of a run share an id. */
  lemma EmbedIdsDistinct<V>(rows: seq<DocRow>, embedder: seq<Chunk> -> seq<V>, uuidAt: nat -> string)
    requires forall a: nat, b: nat :: a != b ==> uuidAt(a) != uuidAt(b)
    ensures var points := Flatten(EmbedBatches(rows, 0, embedder, uuidAt, 0));
      forall m, m' :: 0 <= m < m' < |points| ==> points[m].id != points[m'].id
  {
    var points := Flatten(EmbedBatches(rows, 0, embedder, uuidAt, 0));
    forall m, m' | 0 <= m < m' < |points| ensures points[m].id != points[m'].id {
      EmbedIdsInDrawOrder(rows, 0, embedder, uuidAt, 0, m);
      EmbedIdsInDrawOrder(rows, 0, embedder, uuidAt, 0, m');
    }
  }
}
