/**
 * The SQLite chunk store of the SQLite variant: a `documents` table (`id INTEGER PRIMARY KEY
 * AUTOINCREMENT, text, timestamp`) and a `vss_documents` vector index whose row ids are the
 * document ids. Saving inserts one row into each table; a batch is one transaction. A query
 * takes the `top_n` nearest embeddings, joins their documents and keeps those within the
 * distance threshold. The distance function of the vector index is a parameter.
 */
module ChunkStore {
  import opened Wrappers
  import opened Sorting
  import opened ChunkRecords

  const TOP_N_DOCUMENTS: int := 10
  const MAX_DISTANCE_THRESHOLD: real := 999999999.0

  /** A row of `documents`. */
  datatype DocumentRow = DocumentRow(id: nat, text: Field, timestamp: Field)

  /** A row of `vss_documents`. */
  datatype VssRow = VssRow(rowid: nat, embedding: seq<real>)

  /** A row of the query result: the columns of `documents` (all NULL when the join misses) and the distance. */
  datatype ResultRow = ResultRow(id: Field, text: Field, timestamp: Field, distance: real)

  /**
   * Why a save raises: `pop("embedding")` on a dictionary without one (KeyError), a missing
   * `:text` binding, a `:text` or `:timestamp` value sqlite3 cannot bind (a list), or an
   * embedding the vector index refuses (not a vector of its dimension).
   */
  datatype SaveError = MissingEmbedding | MissingText | Unbindable | BadEmbedding

  /**
   * The named parameters of the `documents` insert can be bound: `:text` is supplied, and
   * neither it nor a timestamp of the dictionary's own is a list. The clock's timestamp is a
   * `datetime`, which sqlite3 adapts to text.
   */
  predicate Bindable(document: map<string, Field>) {
    && "text" in document
    && !document["text"].Vector?
    && ("timestamp" in document ==> !document["timestamp"].Vector?)
  }

  /** Whether `save_document_into_db` goes through for this dictionary. */
  predicate Saveable(document: map<string, Field>, dimension: nat) {
    && "embedding" in document
    && Bindable(document)
    && document["embedding"].Vector?
    && |document["embedding"].v| == dimension
  }

  /**
   * The error `save_document_into_db` raises first for a dictionary it cannot save: the `pop`,
   * then the binding of the `documents` insert, then the index insert.
   */
  function SaveErrorOf(document: map<string, Field>, dimension: nat): (e: SaveError)
    requires !Saveable(document, dimension)
    ensures e == MissingEmbedding <==> "embedding" !in document
    ensures e == MissingText <==> "embedding" in document && "text" !in document
    ensures e == Unbindable <==> "embedding" in document && "text" in document && !Bindable(document)
    ensures e == BadEmbedding <==> "embedding" in document && Bindable(document)
  {
    if "embedding" !in document then MissingEmbedding
    else if "text" !in document then MissingText
    else if !Bindable(document) then Unbindable
    else BadEmbedding
  }

  /** The timestamp that is stored: the dictionary's own, else the clock's reading. */
  function StampOr(document: map<string, Field>, now: string): Field {
    if "timestamp" in document then document["timestamp"] else Str(now)
  }

  /** The `documents` rows a batch appends, with consecutive ids after `lastId`. */
  function BatchRows(documents: seq<map<string, Field>>, lastId: nat, now: nat -> string): (rows: seq<DocumentRow>)
    requires forall i :: 0 <= i < |documents| ==> "text" in documents[i]
    ensures |rows| == |documents|
    ensures forall i :: 0 <= i < |rows| ==>
      rows[i] == DocumentRow(lastId + i + 1, documents[i]["text"], StampOr(documents[i], now(i)))
  {
    seq(|documents|, i requires 0 <= i < |documents| =>
      DocumentRow(lastId + i + 1, documents[i]["text"], StampOr(documents[i], now(i))))
  }

  /** The embedding a saveable dictionary carries. */
  function EmbeddingOf(document: map<string, Field>): seq<real> {
    if "embedding" in document && document["embedding"].Vector? then document["embedding"].v else []
  }

  /** The `vss_documents` rows a batch appends, keyed by the same ids. */
  function BatchVssRows(documents: seq<map<string, Field>>, lastId: nat): (rows: seq<VssRow>)
    ensures |rows| == |documents|
    ensures forall i :: 0 <= i < |rows| ==> rows[i] == VssRow(lastId + i + 1, EmbeddingOf(documents[i]))
  {
    seq(|documents|, i requires 0 <= i < |documents| => VssRow(lastId + i + 1, EmbeddingOf(documents[i])))
  }

  /** Saving one more dictionary of a batch appends its rows under the next id. */
  lemma BatchRowsSnoc(batch: seq<map<string, Field>>, i: nat, lastId: nat, now: nat -> string)
    requires i < |batch| && forall k :: 0 <= k <= i ==> "text" in batch[k]
    ensures BatchRows(batch[..i + 1], lastId, now)
      == BatchRows(batch[..i], lastId, now) + [DocumentRow(lastId + i + 1, batch[i]["text"], StampOr(batch[i], now(i)))]
    ensures BatchVssRows(batch[..i + 1], lastId) == BatchVssRows(batch[..i], lastId) + [VssRow(lastId + i + 1, EmbeddingOf(batch[i]))]
  {
    assert batch[..i + 1] == batch[..i] + [batch[i]];
  }

  /** The first dictionary of a batch that cannot be saved. */
  function FirstUnsaveable(documents: seq<map<string, Field>>, dimension: nat): (k: nat)
    requires exists i :: 0 <= i < |documents| && !Saveable(documents[i], dimension)
    ensures k < |documents| && !Saveable(documents[k], dimension)
    ensures forall i :: 0 <= i < k ==> Saveable(documents[i], dimension)
    decreases |documents|
  {
    if !Saveable(documents[0], dimension) then 0
    else
      var k := FirstUnsaveable(documents[1..], dimension);
      assert forall i :: 0 < i <= k ==> documents[i] == documents[1..][i - 1];
      k + 1
  }

  /** The first dictionary that cannot be saved is the one after a saveable prefix. */
  lemma FirstUnsaveableAt(documents: seq<map<string, Field>>, dimension: nat, i: nat)
    requires i < |documents| && !Saveable(documents[i], dimension)
    requires forall k :: 0 <= k < i ==> Saveable(documents[k], dimension)
    ensures exists k :: 0 <= k < |documents| && !Saveable(documents[k], dimension)
    ensures FirstUnsaveable(documents, dimension) == i
  {
    var first := FirstUnsaveable(documents, dimension);
    assert !(first < i) && !(i < first);
  }

  /** `SQLITE_VERSION_TUPLE < (3, 41, 0)`: Python's lexicographic tuple order. */
  function TupleLess(a: seq<int>, b: seq<int>): bool
    decreases |a|
  {
    if a == [] then b != []
    else if b == [] then false
    else if a[0] != b[0] then a[0] < b[0]
    else TupleLess(a[1..], b[1..])
  }

  /**
   * The tuple order decided by the first position where the tuples differ, a tuple that is a
   * proper prefix of the other being the smaller.
   */
  ghost predicate LexLess(a: seq<int>, b: seq<int>) {
    exists k :: 0 <= k <= |a| && k <= |b| && a[..k] == b[..k]
      && ((k < |a| && k < |b| && a[k] < b[k]) || (k == |a| && k < |b|))
  }

  lemma {:induction false} TupleLessIsLexicographic(a: seq<int>, b: seq<int>)
    ensures TupleLess(a, b) <==> LexLess(a, b)
    decreases |a|
  {
    if a == [] {
      if b != [] {
        assert a[..0] == b[..0];
      }
    } else if b == [] {
    } else if a[0] != b[0] {
      LexLessAtHead(a, b);
    } else {
      TupleLessIsLexicographic(a[1..], b[1..]);
      LexLessFromTail(a, b);
      LexLessToTail(a, b);
    }
  }

  /** Tuples that differ at the head are ordered by their heads. */
  lemma LexLessAtHead(a: seq<int>, b: seq<int>)
    requires a != [] && b != [] && a[0] != b[0]
    ensures LexLess(a, b) <==> a[0] < b[0]
  {
    assert a[..0] == b[..0];
    assert forall k :: 0 < k <= |a| && k <= |b| ==> a[..k][0] == a[0] && b[..k][0] == b[0];
  }

  lemma LexLessFromTail(a: seq<int>, b: seq<int>)
    requires a != [] && b != [] && a[0] == b[0]
    ensures LexLess(a[1..], b[1..]) ==> LexLess(a, b)
  {
    if LexLess(a[1..], b[1..]) {
      var k :| 0 <= k <= |a[1..]| && k <= |b[1..]| && a[1..][..k] == b[1..][..k]
        && ((k < |a[1..]| && k < |b[1..]| && a[1..][k] < b[1..][k]) || (k == |a[1..]| && k < |b[1..]|));
      assert a[..k + 1] == [a[0]] + a[1..][..k];
      assert b[..k + 1] == [b[0]] + b[1..][..k];
    }
  }

  lemma LexLessToTail(a: seq<int>, b: seq<int>)
    requires a != [] && b != [] && a[0] == b[0]
    ensures LexLess(a, b) ==> LexLess(a[1..], b[1..])
  {
    if LexLess(a, b) {
      var k :| 0 <= k <= |a| && k <= |b| && a[..k] == b[..k]
        && ((k < |a| && k < |b| && a[k] < b[k]) || (k == |a| && k < |b|));
      assert k > 0;
      assert a[1..][..k - 1] == a[..k][1..];
      assert b[1..][..k - 1] == b[..k][1..];
      if k < |a| {
        assert a[1..][k - 1] == a[k];
      }
      if k < |b| {
        assert b[1..][k - 1] == b[k];
      }
    }
  }

  /** Which releases take the path that checks for an empty index first. */
  lemma VersionDispatchExamples()
    ensures TupleLess([3, 40, 1], [3, 41, 0])
    ensures !TupleLess([3, 41, 0], [3, 41, 0])
    ensures !TupleLess([3, 45, 3], [3, 41, 0])
    ensures !TupleLess([4, 0], [3, 41, 0])
    ensures TupleLess([3, 41], [3, 41, 0])
  {
    assert [3, 40, 1][1..] == [40, 1];
    assert [3, 41, 0][1..] == [41, 0];
    assert [3, 41, 0][1..][1..] == [0];
    assert [3, 45, 3][1..] == [45, 3];
    assert [3, 41][1..] == [41];
  }

  /** SQL `LIMIT n`: a negative limit keeps every row. */
  function Limit<T>(s: seq<T>, n: int): (r: seq<T>)
    ensures n < 0 ==> r == s
    ensures n >= 0 ==> r == s[..if n < |s| then n else |s|]
  {
    if n < 0 then s else if n < |s| then s[..n] else s
  }

  function DistanceTo(query: seq<real>, distance: (seq<real>, seq<real>) -> real): VssRow -> real {
    (row: VssRow) => distance(query, row.embedding)
  }

  function RowDistance(row: ResultRow): real {
    row.distance
  }

  /** The `documents` row with the given id, if there is one. */
  function FindDocument(documents: seq<DocumentRow>, id: nat): (r: Option<DocumentRow>)
    ensures r.Some? ==> r.value in documents && r.value.id == id
    ensures r.None? ==> forall i :: 0 <= i < |documents| ==> documents[i].id != id
  {
    if documents == [] then None
    else if documents[0].id == id then Some(documents[0])
    else FindDocument(documents[1..], id)
  }

  /** `matched_documents m LEFT JOIN documents d ON m.rowid = d.rowid` for one matched row. */
  function JoinRow(documents: seq<DocumentRow>, m: VssRow, d: real): (r: ResultRow)
    ensures r.distance == d
  {
    match FindDocument(documents, m.rowid)
    case Some(doc) => ResultRow(Int(doc.id), doc.text, doc.timestamp, d)
    case None => ResultRow(Null, Null, Null, d)
  }

  /** The nearest `topN` index rows, in ascending distance. */
  function Matched(vss: seq<VssRow>, query: seq<real>, topN: int, distance: (seq<real>, seq<real>) -> real): seq<VssRow> {
    Limit(SortBy(vss, DistanceTo(query, distance)), topN)
  }

  function Joined(documents: seq<DocumentRow>, matched: seq<VssRow>, query: seq<real>,
                  distance: (seq<real>, seq<real>) -> real): (r: seq<ResultRow>)
    ensures |r| == |matched|
    ensures forall i :: 0 <= i < |r| ==> r[i] == JoinRow(documents, matched[i], distance(query, matched[i].embedding))
  {
    seq(|matched|, i requires 0 <= i < |matched| =>
      JoinRow(documents, matched[i], distance(query, matched[i].embedding)))
  }

  /** What the query template returns for the given tables. */
  function SearchRows(documents: seq<DocumentRow>, vss: seq<VssRow>, query: seq<real>, topN: int,
                      threshold: real, distance: (seq<real>, seq<real>) -> real): seq<ResultRow> {
    var joined := Joined(documents, Matched(vss, query, topN, distance), query, distance);
    SortBy(Filter(joined, KeyAtMost(RowDistance, threshold)), RowDistance)
  }

  /** `query_db`: the empty-index guard of the older releases, then the query template. */
  function QueryDb(documents: seq<DocumentRow>, vss: seq<VssRow>, query: seq<real>, topN: int, threshold: real,
                   version: seq<int>, distance: (seq<real>, seq<real>) -> real): seq<ResultRow> {
    if TupleLess(version, [3, 41, 0]) && |vss| == 0 then []
    else SearchRows(documents, vss, query, topN, threshold, distance)
  }

  /** The joined rows keep the ascending order of the nearest-neighbour search. */
  lemma JoinedSorted(documents: seq<DocumentRow>, vss: seq<VssRow>, query: seq<real>, topN: int,
                     distance: (seq<real>, seq<real>) -> real)
    ensures SortedBy(Joined(documents, Matched(vss, query, topN, distance), query, distance), RowDistance)
  {
    var sorted := SortBy(vss, DistanceTo(query, distance));
    var m := Matched(vss, query, topN, distance);
    var j := Joined(documents, m, query, distance);
    assert forall i :: 0 <= i < |m| ==> m[i] == sorted[i];
    forall a, b | 0 <= a < b < |j| ensures RowDistance(j[a]) <= RowDistance(j[b]) {
      assert DistanceTo(query, distance)(sorted[a]) <= DistanceTo(query, distance)(sorted[b]);
    }
  }

  /**
   * The query result: the matched rows within the threshold, in ascending distance, the final
   * `ORDER BY` changing nothing; at most `topN` rows when `topN` is not negative.
   */
  lemma SearchRowsShape(documents: seq<DocumentRow>, vss: seq<VssRow>, query: seq<real>, topN: int,
                        threshold: real, distance: (seq<real>, seq<real>) -> real)
    ensures var joined := Joined(documents, Matched(vss, query, topN, distance), query, distance);
      var r := SearchRows(documents, vss, query, topN, threshold, distance);
      && r == Filter(joined, KeyAtMost(RowDistance, threshold))
      && r == joined[..|r|]
      && SortedBy(r, RowDistance)
      && (forall i :: 0 <= i < |r| ==> r[i].distance <= threshold)
      && (topN >= 0 ==> |r| <= topN)
  {
    var m := Matched(vss, query, topN, distance);
    var joined := Joined(documents, m, query, distance);
    var r := SearchRows(documents, vss, query, topN, threshold, distance);
    assert r == SortBy(Filter(joined, KeyAtMost(RowDistance, threshold)), RowDistance);
    JoinedSorted(documents, vss, query, topN, distance);
    SortedCutShape(joined, RowDistance, threshold);
    WithinThreshold(r, threshold);
    assert |joined| == |m|;
  }

  lemma WithinThreshold(rows: seq<ResultRow>, threshold: real)
    requires forall i :: 0 <= i < |rows| ==> RowDistance(rows[i]) <= threshold
    ensures forall i :: 0 <= i < |rows| ==> rows[i].distance <= threshold
  {
  }

  /**
   * Raising the threshold never removes a row: the result for a lower threshold is the result
   * for a higher one cut at the lower threshold, and a prefix of it.
   */
  lemma ThresholdMonotone(documents: seq<DocumentRow>, vss: seq<VssRow>, query: seq<real>, topN: int,
                          low: real, high: real, distance: (seq<real>, seq<real>) -> real)
    requires low <= high
    ensures var rLow := SearchRows(documents, vss, query, topN, low, distance);
      var rHigh := SearchRows(documents, vss, query, topN, high, distance);
      && rLow == Filter(rHigh, KeyAtMost(RowDistance, low))
      && |rLow| <= |rHigh|
      && rLow == rHigh[..|rLow|]
  {
    var joined := Joined(documents, Matched(vss, query, topN, distance), query, distance);
    SearchRowsShape(documents, vss, query, topN, low, distance);
    SearchRowsShape(documents, vss, query, topN, high, distance);
    var rHigh := SearchRows(documents, vss, query, topN, high, distance);
    FilterFilter(joined, KeyAtMost(RowDistance, low), KeyAtMost(RowDistance, high));
    SortedFilterIsPrefix(rHigh, RowDistance, low);
  }

  /** The guard of the older releases only matters for an empty index, where both paths find nothing. */
  lemma EmptyIndexFindsNothing(documents: seq<DocumentRow>, query: seq<real>, topN: int, threshold: real,
                               version: seq<int>, distance: (seq<real>, seq<real>) -> real)
    ensures QueryDb(documents, [], query, topN, threshold, version, distance) == []
  {
    assert Matched([], query, topN, distance) == [];
    var joined := Joined(documents, [], query, distance);
    assert joined == [];
  }

  /** Every document has its index row under the same id, ids increase and stay within the counter. */
  ghost predicate ConsistentTables(documents: seq<DocumentRow>, vss: seq<VssRow>, lastId: nat, dimension: nat) {
    && |documents| == |vss|
    && (forall i :: 0 <= i < |documents| ==>
          documents[i].id == vss[i].rowid && |vss[i].embedding| == dimension && 0 < documents[i].id <= lastId)
    && (forall i, j :: 0 <= i < j < |documents| ==> documents[i].id < documents[j].id)
  }

  /** Appending the rows of a saveable batch under the ids after the counter keeps the tables consistent. */
  lemma BatchKeepsConsistent(documents: seq<DocumentRow>, vss: seq<VssRow>, lastId: nat, dimension: nat,
                             batch: seq<map<string, Field>>, now: nat -> string)
    requires ConsistentTables(documents, vss, lastId, dimension)
    requires forall i :: 0 <= i < |batch| ==> "text" in batch[i] && Saveable(batch[i], dimension)
    ensures ConsistentTables(documents + BatchRows(batch, lastId, now), vss + BatchVssRows(batch, lastId),
                             lastId + |batch|, dimension)
  {
    var d2, v2 := documents + BatchRows(batch, lastId, now), vss + BatchVssRows(batch, lastId);
    forall i | 0 <= i < |d2|
      ensures d2[i].id == v2[i].rowid && |v2[i].embedding| == dimension && 0 < d2[i].id <= lastId + |batch|
    {
      if i >= |documents| {
        assert d2[i].id == lastId + (i - |documents|) + 1;
      }
    }
    forall i, j | 0 <= i < j < |d2| ensures d2[i].id < d2[j].id {
      if j >= |documents| && i < |documents| {
        assert d2[i].id <= lastId;
      }
    }
  }

  /** The result row carries the id, text and timestamp of a stored document. */
  predicate StoredRow(documents: seq<DocumentRow>, row: ResultRow) {
    exists k :: 0 <= k < |documents| && row == ResultRow(Int(documents[k].id), documents[k].text, documents[k].timestamp, row.distance)
  }

  /**
   * On consistent tables the left join never misses: every row a query returns is a stored
   * document, its id, text and timestamp, never the all-NULL row of an index entry without one.
   */
  lemma ConsistentJoinFinds(documents: seq<DocumentRow>, vss: seq<VssRow>, lastId: nat, dimension: nat,
                            query: seq<real>, topN: int, threshold: real, version: seq<int>,
                            distance: (seq<real>, seq<real>) -> real)
    requires ConsistentTables(documents, vss, lastId, dimension)
    ensures var r := QueryDb(documents, vss, query, topN, threshold, version, distance);
      forall i :: 0 <= i < |r| ==> StoredRow(documents, r[i])
  {
    var m := Matched(vss, query, topN, distance);
    var joined := Joined(documents, m, query, distance);
    var r := QueryDb(documents, vss, query, topN, threshold, version, distance);
    forall i | 0 <= i < |r| ensures StoredRow(documents, r[i]) {
      var filtered := Filter(joined, KeyAtMost(RowDistance, threshold));
      assert r[i] in multiset(filtered);
      FilterSubset(joined, KeyAtMost(RowDistance, threshold), r[i]);
      var j :| 0 <= j < |joined| && joined[j] == r[i];
      var sorted := SortBy(vss, DistanceTo(query, distance));
      assert m[j] == sorted[j];
      assert m[j] in multiset(vss);
      var n :| 0 <= n < |vss| && vss[n] == m[j];
      assert documents[n].id == m[j].rowid;
      var found := FindDocument(documents, m[j].rowid);
      assert found.Some?;
      var k :| 0 <= k < |documents| && documents[k] == found.value;
    }
  }

  /** The store: the two tables and the `AUTOINCREMENT` counter of `documents`. */
  class Store {
    var documents: seq<DocumentRow>
    var vss: seq<VssRow>
    var lastId: nat
    const dimension: nat

    /** Every document has its index row under the same id, ids increase and stay within the counter. */
    ghost predicate Valid()
      reads this
    {
      ConsistentTables(documents, vss, lastId, dimension)
    }

    /** `initialize_db` on a new database file. */
    constructor(dimension: nat)
      ensures Valid()
      ensures this.dimension == dimension && documents == [] && vss == [] && lastId == 0
    {
      this.dimension := dimension;
      documents := [];
      vss := [];
      lastId := 0;
    }

    /**
     * `save_document_into_db`: works on a copy of the dictionary, defaults its timestamp, pops
     * the embedding, inserts the text and timestamp, then the embedding under the new id. A
     * failed index insert leaves the `documents` row in place; the enclosing transaction undoes it.
     */
    method SaveDocument(document: map<string, Field>, now: string) returns (r: Result<bool, SaveError>)
      modifies this
      ensures r.Success? <==> Saveable(document, dimension)
      ensures r.Success? ==> r.value
      ensures r.Failure? ==> r.error == SaveErrorOf(document, dimension)
      ensures !("embedding" in document && Bindable(document)) ==> unchanged(this)
      ensures "embedding" in document && Bindable(document) ==>
        && lastId == old(lastId) + 1
        && documents == old(documents) + [DocumentRow(lastId, document["text"], StampOr(document, now))]
        && vss == (if r.Success? then old(vss) + [VssRow(lastId, document["embedding"].v)] else old(vss))
    {
      var clone := document;
      if "timestamp" !in clone {
        clone := clone["timestamp" := Str(now)];
      }
      if "embedding" !in clone {
        return Failure(MissingEmbedding);
      }
      var embedding := clone["embedding"];
      clone := clone - {"embedding"};
      if "text" !in clone {
        return Failure(MissingText);
      }
      if clone["text"].Vector? || clone["timestamp"].Vector? {
        return Failure(Unbindable);
      }
      lastId := lastId + 1;
      var documentRowId := lastId;
      documents := documents + [DocumentRow(documentRowId, clone["text"], clone["timestamp"])];
      if !embedding.Vector? || |embedding.v| != dimension {
        return Failure(BadEmbedding);
      }
      vss := vss + [VssRow(documentRowId, embedding.v)];
      var vssRowId := documentRowId;
      return Success(documentRowId == vssRowId);
    }

    /**
     * `save_documents_to_db`: one transaction over the batch. Either every dictionary is saved
     * with consecutive ids, or the first failure rolls the whole batch back and is raised.
     */
    method SaveDocuments(batch: seq<map<string, Field>>, now: nat -> string) returns (r: Result<(), SaveError>)
      modifies this
      ensures r.Success? <==> forall i :: 0 <= i < |batch| ==> Saveable(batch[i], dimension)
      ensures r.Failure? ==> r.error == SaveErrorOf(batch[FirstUnsaveable(batch, dimension)], dimension)
      ensures r.Failure? ==> documents == old(documents) && vss == old(vss) && lastId == old(lastId)
      ensures r.Success? ==>
        && documents == old(documents) + BatchRows(batch, old(lastId), now)
        && vss == old(vss) + BatchVssRows(batch, old(lastId))
        && lastId == old(lastId) + |batch|
      ensures old(Valid()) ==> Valid()
    {
      var savedDocuments, savedVss, savedLastId := documents, vss, lastId;
      ghost var valid0 := Valid();
      for i := 0 to |batch|
        invariant forall k :: 0 <= k < i ==> Saveable(batch[k], dimension)
        invariant lastId == savedLastId + i
        invariant documents == savedDocuments + BatchRows(batch[..i], savedLastId, now)
        invariant vss == savedVss + BatchVssRows(batch[..i], savedLastId)
      {
        ghost var documents0, vss0 := documents, vss;
        var saved := SaveDocument(batch[i], now(i));
        if saved.Failure? {
          documents, vss, lastId := savedDocuments, savedVss, savedLastId;
          FirstUnsaveableAt(batch, dimension, i);
          return Failure(saved.error);
        }
        assert Saveable(batch[i], dimension);
        assert documents == documents0 + [DocumentRow(savedLastId + i + 1, batch[i]["text"], StampOr(batch[i], now(i)))];
        assert vss == vss0 + [VssRow(savedLastId + i + 1, EmbeddingOf(batch[i]))];
        BatchRowsSnoc(batch, i, savedLastId, now);
      }
      assert batch[..|batch|] == batch;
      if valid0 {
        BatchKeepsConsistent(savedDocuments, savedVss, savedLastId, dimension, batch, now);
      }
      return Success(());
    }

    /** `query_db` against the current tables. */
    method Query(query: seq<real>, topN: int, threshold: real, version: seq<int>,
                 distance: (seq<real>, seq<real>) -> real) returns (rows: seq<ResultRow>)
      ensures rows == QueryDb(documents, vss, query, topN, threshold, version, distance)
      ensures topN >= 0 ==> |rows| <= topN
      ensures forall i :: 0 <= i < |rows| ==> rows[i].distance <= threshold
      ensures SortedBy(rows, RowDistance)
      ensures Valid() ==> forall i :: 0 <= i < |rows| ==> StoredRow(documents, rows[i])
    {
      if TupleLess(version, [3, 41, 0]) {
        var count := |vss|;
        rows := [];
        if count > 0 {
          rows := SearchRows(documents, vss, query, topN, threshold, distance);
        }
      } else {
        rows := SearchRows(documents, vss, query, topN, threshold, distance);
      }
      SearchRowsShape(documents, vss, query, topN, threshold, distance);
      if Valid() {
        ConsistentJoinFinds(documents, vss, lastId, dimension, query, topN, threshold, version, distance);
      }
    }
  }
}
