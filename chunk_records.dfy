/**
 * One record per chunk, as the two import handlers build them: `compute_chunks_information`
 * (Athena variant, the chunk's embedding reduced to a locality-sensitive hash) and
 * `compute_documents_information` (SQLite variant, the embedding of the cleaned chunk).
 * The embedding model, the hasher, `uuid4` and the clock are parameters.
 */
module ChunkRecords {
  import opened Wrappers
  import opened Chunker
  import opened Cleaning

  /** A dictionary value as the records and the SQLite store see it. */
  datatype Field = Null | Int(i: int) | Str(s: string) | Vector(v: seq<real>)

  /** One item of `compute_chunks_information`. */
  datatype ChunkItem = ChunkItem(
    uuid: string, timestamp: string, start: int, end: int, startUnique: int, endUnique: int,
    lsh: string, documentId: Option<string>, text: string)

  /** One item of `compute_documents_information`. */
  datatype DocumentItem = DocumentItem(
    timestamp: string, start: int, end: int, startUnique: int, endUnique: int,
    embedding: seq<real>, documentId: Option<string>, text: string)
  {
    /** The item as the dictionary handed to the store. */
    function AsDict(): (d: map<string, Field>)
      ensures d.Keys == {"timestamp", "start", "end", "start_unique", "end_unique", "embedding", "document_id", "text"}
      ensures d["text"] == Str(text) && d["timestamp"] == Str(timestamp) && d["embedding"] == Vector(embedding)
    {
      map[
        "timestamp" := Str(timestamp),
        "start" := Int(start),
        "end" := Int(end),
        "start_unique" := Int(startUnique),
        "end_unique" := Int(endUnique),
        "embedding" := Vector(embedding),
        "document_id" := if documentId.Some? then Str(documentId.value) else Null,
        "text" := Str(text)]
    }
  }

  /** The timestamp every item of one call carries: the argument, else the clock read once. */
  function StampOf(timestamp: Option<string>, now: string): (t: string)
    ensures timestamp.Some? ==> t == timestamp.value
    ensures timestamp.None? ==> t == now
  {
    if timestamp.Some? then timestamp.value else now
  }

  /**
   * One item per chunk, in chunk order, all stamped with `stamp`: `uuidAt(k)` is the `uuid4`
   * drawn for the `k`-th item and `lsh` hashes the chunk's embedding.
   */
  function ChunkItems(cs: seq<Chunk>, documentId: Option<string>, stamp: string, uuidAt: nat -> string,
                      lsh: string -> string): (items: seq<ChunkItem>)
    ensures |items| == |cs|
    ensures forall k :: 0 <= k < |items| ==>
      && items[k].uuid == uuidAt(k)
      && items[k].timestamp == stamp
      && items[k].start == cs[k].start && items[k].end == cs[k].end
      && items[k].startUnique == cs[k].uniqueStart && items[k].endUnique == cs[k].uniqueEnd
      && items[k].lsh == lsh(cs[k].text)
      && items[k].documentId == documentId
      && items[k].text == cs[k].text
  {
    seq(|cs|, k requires 0 <= k < |cs| =>
      ChunkItem(uuidAt(k), stamp, cs[k].start, cs[k].end, cs[k].uniqueStart, cs[k].uniqueEnd,
                lsh(cs[k].text), documentId, cs[k].text))
  }

  /** The items `compute_chunks_information` builds for a text, or the chunking error. */
  function ChunksInformation(text: string, size: nat, overlap: nat, documentId: Option<string>, stamp: string,
                             uuidAt: nat -> string, lsh: string -> string): Result<seq<ChunkItem>, ChunkError>
  {
    var chunks := TextChunks(text, size, overlap);
    if chunks.Failure? then Failure(chunks.error)
    else Success(ChunkItems(chunks.value, documentId, stamp, uuidAt, lsh))
  }

  /** The loop of `compute_chunks_information` over already computed chunks. */
  method BuildChunkItems(cs: seq<Chunk>, documentId: Option<string>, stamp: string, uuidAt: nat -> string,
                         lsh: string -> string) returns (items: seq<ChunkItem>)
    ensures items == ChunkItems(cs, documentId, stamp, uuidAt, lsh)
  {
    ghost var spec := ChunkItems(cs, documentId, stamp, uuidAt, lsh);
    items := [];
    for k := 0 to |cs|
      invariant items == spec[..k]
    {
      var c := cs[k];
      items := items + [ChunkItem(uuidAt(k), stamp, c.start, c.end, c.uniqueStart, c.uniqueEnd, lsh(c.text), documentId, c.text)];
      assert items == spec[..k + 1];
    }
    assert items == spec;
  }

  /**
   * `compute_chunks_information(text, document_id, timestamp)`: the timestamp is the argument,
   * else the clock `now` read once before the loop; the chunking error of a zero step propagates.
   */
  method ComputeChunksInformation(
    text: string, size: nat, overlap: nat, documentId: Option<string>, timestamp: Option<string>,
    now: string, uuidAt: nat -> string, lsh: string -> string)
    returns (r: Result<seq<ChunkItem>, ChunkError>)
    ensures r == ChunksInformation(text, size, overlap, documentId, StampOf(timestamp, now), uuidAt, lsh)
  {
    var stamp := if timestamp.None? then now else timestamp.value;
    var chunks := ComputeTextChunks(text, size, overlap);
    if chunks.Failure? {
      return Failure(chunks.error);
    }
    var items := BuildChunkItems(chunks.value, documentId, stamp, uuidAt, lsh);
    return Success(items);
  }

  /** One item per chunk, in chunk order, all stamped with `stamp`; `embed` sees the cleaned chunk. */
  function DocumentItems(cs: seq<Chunk>, documentId: Option<string>, stamp: string, embed: string -> seq<real>)
    : (items: seq<DocumentItem>)
    ensures |items| == |cs|
  {
    seq(|cs|, k requires 0 <= k < |cs| =>
      DocumentItem(stamp, cs[k].start, cs[k].end, cs[k].uniqueStart, cs[k].uniqueEnd,
                   embed(Clean(cs[k].text)), documentId, cs[k].text))
  }

  /** The items `compute_documents_information` builds for a text, all stamped with `stamp`. */
  function DocumentsInformation(text: string, documentId: Option<string>, stamp: string, embed: string -> seq<real>)
    : seq<DocumentItem>
  {
    DocumentItems(TextChunks(text, CHUNK_SIZE, CHUNK_OVERLAP_SIZE).value, documentId, stamp, embed)
  }

  /** The loop of `compute_documents_information` over already computed chunks. */
  method BuildDocumentItems(cs: seq<Chunk>, documentId: Option<string>, stamp: string, embed: string -> seq<real>)
    returns (items: seq<DocumentItem>)
    ensures items == DocumentItems(cs, documentId, stamp, embed)
  {
    ghost var spec := DocumentItems(cs, documentId, stamp, embed);
    items := [];
    for k := 0 to |cs|
      invariant items == spec[..k]
    {
      var c := cs[k];
      var cleaned := Clean(c.text);
      items := items + [DocumentItem(stamp, c.start, c.end, c.uniqueStart, c.uniqueEnd, embed(cleaned), documentId, c.text)];
      assert items == spec[..k + 1];
    }
    assert items == spec;
  }

  /**
   * `compute_documents_information(text, document_id, timestamp)` with the configured chunk size
   * and overlap: the embedding is taken of the cleaned chunk, the stored text is the raw chunk.
   */
  method ComputeDocumentsInformation(
    text: string, documentId: Option<string>, timestamp: Option<string>, now: string,
    embed: string -> seq<real>)
    returns (items: seq<DocumentItem>)
    ensures items == DocumentsInformation(text, documentId, StampOf(timestamp, now), embed)
  {
    var stamp := if timestamp.None? then now else timestamp.value;
    var chunks := ComputeTextChunks(text, CHUNK_SIZE, CHUNK_OVERLAP_SIZE);
    // The configured size and overlap differ, so chunking cannot fail.
    items := BuildDocumentItems(chunks.value, documentId, stamp, embed);
  }

  /**
   * The two variants record the same chunks alike: position, unique range, text, document id
   * and timestamp agree item by item. The SQLite item's embedding is that of its cleaned text,
   * while the Athena item's hash is that of its raw text.
   */
  lemma ItemsAgree(cs: seq<Chunk>, documentId: Option<string>, stamp: string, uuidAt: nat -> string,
                   lsh: string -> string, embed: string -> seq<real>)
    ensures var a, d := ChunkItems(cs, documentId, stamp, uuidAt, lsh), DocumentItems(cs, documentId, stamp, embed);
      && |a| == |d| == |cs|
      && forall k :: 0 <= k < |d| ==>
        && d[k].start == a[k].start && d[k].end == a[k].end
        && d[k].startUnique == a[k].startUnique && d[k].endUnique == a[k].endUnique
        && d[k].text == a[k].text == cs[k].text
        && d[k].documentId == a[k].documentId && d[k].timestamp == a[k].timestamp == stamp
        && d[k].embedding == embed(Clean(d[k].text))
        && a[k].lsh == lsh(a[k].text)
  {
  }
}
