/**
 * The import handler of the SQLite variant. An SQS batch arrives; each message's body is an
 * SQS envelope whose records carry S3 notifications; every S3 object named there is read,
 * turned into document items and saved into the store in one transaction. A message whose
 * nested processing raises is reported in `batchItemFailures`; the database file is uploaded
 * once after the batch. S3, the embedding model, URL unquoting, JSON parsing, the document
 * reader and the clock are parameters (`Services`); the clock is read once per S3 record that
 * gets as far as building its items, so every record carries its own reading.
 */
module SqliteImport {
  import opened Wrappers
  import opened Strings
  import opened ChunkRecords
  import opened ChunkStore
  import opened Prompt
  import opened S3Keys

  /**
   * One record of the SQS envelope: the S3 records of its parsed body, `None` when
   * `json.loads(sqs_record["body"])["Records"]` raises.
   */
  datatype SqsRecord = SqsRecord(s3Records: Option<seq<S3Record>>)

  /** A parsed message body: its SQS records, `None` when it has no `Records`. */
  datatype Body = Body(sqsRecords: Option<seq<SqsRecord>>)

  datatype Message = Message(messageId: string, body: string)

  /** An empty (falsy) event, a non-empty event without `Records`, or a batch of messages. */
  datatype Event = FalsyEvent | WithoutRecords | WithRecords(records: seq<Message>)

  /** The collaborators: `None` stands for a call that raises. */
  datatype Services = Services(
    unquote: string -> string,
    fetch: (string, string) -> Option<seq<bv8>>,
    decode: seq<bv8> -> Option<string>,
    pages: (seq<bv8>, Option<string>) -> Option<seq<string>>,
    embed: string -> seq<real>,
    parse: string -> Option<Body>,
    clock: nat -> nat -> string)      // `now()` as read for S3 record `p` reached by message `i`

  /** Why the handler itself raises. */
  datatype ImportError =
    | MissingRecords            // `event["Records"]` of a non-empty event
    | BodyNotJson               // `json.loads(record["body"])`, outside the `try`

  /** The database file as uploaded. */
  datatype Snapshot = Snapshot(documents: seq<DocumentRow>, vss: seq<VssRow>)

  /**
   * The items `process_single_s3_record` hands to the store, or `None` when reading the object or
   * extracting its text raises.
   */
  function RecordItems(s: Services, now: string, r: S3Record): Option<seq<DocumentItem>> {
    var key := s.unquote(r.rawKey);
    var blob := s.fetch(r.bucket, key);
    if blob.None? then None
    else
      var text := DocumentText(blob.value, Some(FileType(key)), s.decode, s.pages);
      if text.None? then None
      else Some(DocumentsInformation(text.value, Some(ObjectUri(r.bucket, key)), now, s.embed))
  }

  /**
   * Every item of a record carries that record's own clock reading and the object's URI as its
   * document id.
   */
  lemma RecordItemsStamped(s: Services, now: string, r: S3Record)
    ensures RecordItems(s, now, r).Some? ==>
      forall k :: 0 <= k < |RecordItems(s, now, r).value| ==>
        && RecordItems(s, now, r).value[k].timestamp == now
        && RecordItems(s, now, r).value[k].documentId == Some(ObjectUri(r.bucket, s.unquote(r.rawKey)))
  {
  }

  /** The items as the dictionaries `save_documents_to_db` receives. */
  function Dicts(items: seq<DocumentItem>): (ds: seq<map<string, Field>>)
    ensures |ds| == |items|
  {
    seq(|items|, i requires 0 <= i < |items| => items[i].AsDict())
  }

  /** Every embedding fits the vector index. */
  predicate Storable(items: seq<DocumentItem>, dimension: nat) {
    forall i :: 0 <= i < |items| ==> |items[i].embedding| == dimension
  }

  /** `process_single_s3_record` goes through. */
  predicate RecordOk(s: Services, now: string, dimension: nat, r: S3Record) {
    RecordItems(s, now, r).Some? && Storable(RecordItems(s, now, r).value, dimension)
  }

  /** The `documents` rows saved items become, with ids after `lastId`. */
  function Rows(items: seq<DocumentItem>, lastId: nat): (rows: seq<DocumentRow>)
    ensures |rows| == |items|
  {
    seq(|items|, i requires 0 <= i < |items| => DocumentRow(lastId + i + 1, Str(items[i].text), Str(items[i].timestamp)))
  }

  /** The `vss_documents` rows saved items become. */
  function IndexRows(items: seq<DocumentItem>, lastId: nat): (rows: seq<VssRow>)
    ensures |rows| == |items|
  {
    seq(|items|, i requires 0 <= i < |items| => VssRow(lastId + i + 1, items[i].embedding))
  }

  /** Saving the dictionaries of items stores their text and timestamp, and their embedding under the same id. */
  lemma SavedRows(items: seq<DocumentItem>, lastId: nat, now: nat -> string, dimension: nat)
    ensures (forall i :: 0 <= i < |items| ==> Saveable(Dicts(items)[i], dimension)) <==> Storable(items, dimension)
    ensures BatchRows(Dicts(items), lastId, now) == Rows(items, lastId)
    ensures BatchVssRows(Dicts(items), lastId) == IndexRows(items, lastId)
  {
    var ds := Dicts(items);
    forall i | 0 <= i < |items| ensures Saveable(ds[i], dimension) <==> |items[i].embedding| == dimension {
      assert ds[i] == items[i].AsDict();
    }
    DictRows(items, lastId, now);
    DictIndexRows(items, lastId);
  }

  lemma DictRows(items: seq<DocumentItem>, lastId: nat, now: nat -> string)
    ensures forall i :: 0 <= i < |items| ==> "text" in Dicts(items)[i]
    ensures BatchRows(Dicts(items), lastId, now) == Rows(items, lastId)
  {
    var ds := Dicts(items);
    var batch, rows := BatchRows(ds, lastId, now), Rows(items, lastId);
    forall i | 0 <= i < |items| ensures batch[i] == rows[i] {
      assert ds[i] == items[i].AsDict();
      assert "timestamp" in ds[i];
    }
  }

  lemma DictIndexRows(items: seq<DocumentItem>, lastId: nat)
    ensures BatchVssRows(Dicts(items), lastId) == IndexRows(items, lastId)
  {
    var ds := Dicts(items);
    var batch, rows := BatchVssRows(ds, lastId), IndexRows(items, lastId);
    forall i | 0 <= i < |items| ensures batch[i] == rows[i] {
      assert ds[i] == items[i].AsDict();
    }
  }

  /** Rows of consecutive batches are consecutive. */
  lemma RowsAppend(a: seq<DocumentItem>, b: seq<DocumentItem>, lastId: nat)
    ensures Rows(a + b, lastId) == Rows(a, lastId) + Rows(b, lastId + |a|)
    ensures IndexRows(a + b, lastId) == IndexRows(a, lastId) + IndexRows(b, lastId + |a|)
  {
  }

  /** The S3 records a message reaches: those of its SQS records up to the first that raises. */
  function Reached(sqs: seq<SqsRecord>): seq<S3Record>
    decreases |sqs|
  {
    if sqs == [] || sqs[0].s3Records.None? then []
    else sqs[0].s3Records.value + Reached(sqs[1..])
  }

  /** No SQS record of the envelope raises. */
  predicate Complete(sqs: seq<SqsRecord>) {
    forall j :: 0 <= j < |sqs| ==> sqs[j].s3Records.Some?
  }

  lemma {:induction false} ReachedAppend(a: seq<SqsRecord>, b: seq<SqsRecord>)
    requires Complete(a)
    ensures Reached(a + b) == Reached(a) + Reached(b)
    decreases |a|
  {
    if a == [] {
      assert a + b == b;
    } else {
      assert (a + b)[0] == a[0];
      assert (a + b)[1..] == a[1..] + b;
      ReachedAppend(a[1..], b);
    }
  }

  /** An S3 record together with the clock reading its import takes. */
  datatype Stamped = Stamped(record: S3Record, now: string)

  /** Record `i` of `rs`, read at `at(base + i)`. */
  function Stamp(at: nat -> string, base: nat, rs: seq<S3Record>): (ps: seq<Stamped>)
    ensures |ps| == |rs|
    ensures forall i :: 0 <= i < |rs| ==> ps[i].record == rs[i]
  {
    seq(|rs|, i requires 0 <= i < |rs| => Stamped(rs[i], at(base + i)))
  }

  lemma StampAt(at: nat -> string, base: nat, rs: seq<S3Record>, i: nat)
    requires i < |rs|
    ensures Stamp(at, base, rs)[i] == Stamped(rs[i], at(base + i))
  {
  }

  /** Stamping consecutive records continues where the first part stopped. */
  lemma StampAppend(at: nat -> string, base: nat, a: seq<S3Record>, b: seq<S3Record>)
    ensures Stamp(at, base, a + b) == Stamp(at, base, a) + Stamp(at, base + |a|, b)
  {
    var l, la, lb := Stamp(at, base, a + b), Stamp(at, base, a), Stamp(at, base + |a|, b);
    forall i | 0 <= i < |l| ensures l[i] == (la + lb)[i] {
      StampAt(at, base, a + b, i);
      if i < |a| {
        StampAt(at, base, a, i);
      } else {
        StampAt(at, base + |a|, b, i - |a|);
      }
    }
  }

  /** Every record goes through, each with its own clock reading. */
  predicate AllOk(s: Services, dimension: nat, ps: seq<Stamped>) {
    forall i :: 0 <= i < |ps| ==> RecordOk(s, ps[i].now, dimension, ps[i].record)
  }

  /** The number of leading records that go through. */
  function OkCount(s: Services, dimension: nat, ps: seq<Stamped>): (n: nat)
    ensures n <= |ps|
    ensures forall i :: 0 <= i < n ==> RecordOk(s, ps[i].now, dimension, ps[i].record)
    ensures n < |ps| ==> !RecordOk(s, ps[n].now, dimension, ps[n].record)
    decreases |ps|
  {
    if ps == [] || !RecordOk(s, ps[0].now, dimension, ps[0].record) then 0
    else 1 + OkCount(s, dimension, ps[1..])
  }

  /** The items of each record, for records that all go through. */
  function ItemLists(s: Services, dimension: nat, ps: seq<Stamped>): (lists: seq<seq<DocumentItem>>)
    requires AllOk(s, dimension, ps)
    ensures |lists| == |ps|
  {
    seq(|ps|, i requires 0 <= i < |ps| && AllOk(s, dimension, ps) => RecordItems(s, ps[i].now, ps[i].record).value)
  }

  /** `xss[0] + xss[1] + ...` */
  function Concat<T>(xss: seq<seq<T>>): seq<T>
    decreases |xss|
  {
    if xss == [] then [] else Concat(xss[..|xss| - 1]) + xss[|xss| - 1]
  }

  lemma {:induction false} ConcatAppend<T>(xss: seq<seq<T>>, yss: seq<seq<T>>)
    ensures Concat(xss + yss) == Concat(xss) + Concat(yss)
    decreases |yss|
  {
    if yss == [] {
      assert xss + yss == xss;
    } else {
      var init, last := yss[..|yss| - 1], yss[|yss| - 1];
      ConcatAppend(xss, init);
      assert (xss + yss)[..|xss + yss| - 1] == xss + init;
      assert (xss + yss)[|xss + yss| - 1] == last;
      assert Concat(xss + yss) == Concat(xss + init) + last;
      assert Concat(yss) == Concat(init) + last;
    }
  }

  /** The items of records that all go through, in order. */
  function ItemsOf(s: Services, dimension: nat, ps: seq<Stamped>): seq<DocumentItem>
    requires AllOk(s, dimension, ps)
  {
    Concat(ItemLists(s, dimension, ps))
  }

  lemma ItemsSnoc(s: Services, dimension: nat, ps: seq<Stamped>, p: Stamped)
    requires AllOk(s, dimension, ps)
    requires RecordOk(s, p.now, dimension, p.record)
    ensures AllOk(s, dimension, ps + [p])
    ensures ItemsOf(s, dimension, ps + [p]) == ItemsOf(s, dimension, ps) + RecordItems(s, p.now, p.record).value
  {
    AllOkAppend(s, dimension, ps, [p]);
    ItemListsAppend(s, dimension, ps, [p]);
    ConcatAppend(ItemLists(s, dimension, ps), ItemLists(s, dimension, [p]));
    assert ItemLists(s, dimension, [p]) == [RecordItems(s, p.now, p.record).value];
    assert Concat([RecordItems(s, p.now, p.record).value]) == RecordItems(s, p.now, p.record).value by {
      assert [RecordItems(s, p.now, p.record).value][..0] == [];
    }
  }

  /** Records that all go through, followed by more that all go through, all go through. */
  lemma AllOkAppend(s: Services, dimension: nat, a: seq<Stamped>, b: seq<Stamped>)
    requires AllOk(s, dimension, a) && AllOk(s, dimension, b)
    ensures AllOk(s, dimension, a + b)
  {
    forall i | 0 <= i < |a + b| ensures RecordOk(s, (a + b)[i].now, dimension, (a + b)[i].record) {
      if i < |a| {
        assert (a + b)[i] == a[i];
      } else {
        assert (a + b)[i] == b[i - |a|];
      }
    }
  }

  lemma ItemListsAppend(s: Services, dimension: nat, a: seq<Stamped>, b: seq<Stamped>)
    requires AllOk(s, dimension, a) && AllOk(s, dimension, b) && AllOk(s, dimension, a + b)
    ensures ItemLists(s, dimension, a + b) == ItemLists(s, dimension, a) + ItemLists(s, dimension, b)
  {
    var l, la, lb := ItemLists(s, dimension, a + b), ItemLists(s, dimension, a), ItemLists(s, dimension, b);
    forall i | 0 <= i < |l| ensures l[i] == (la + lb)[i] {
      if i < |a| {
        assert (a + b)[i] == a[i];
      } else {
        assert (a + b)[i] == b[i - |a|];
      }
    }
  }

  /** The records a message reaches, the `p`-th of them read at `at(p)`. */
  function ReachedStamped(at: nat -> string, body: Body): seq<Stamped>
    requires body.sqsRecords.Some?
  {
    Stamp(at, 0, Reached(body.sqsRecords.value))
  }

  /** The message's nested processing goes through without raising. */
  predicate MessageOk(s: Services, at: nat -> string, dimension: nat, body: Body) {
    && body.sqsRecords.Some?
    && Complete(body.sqsRecords.value)
    && OkCount(s, dimension, ReachedStamped(at, body)) == |Reached(body.sqsRecords.value)|
  }

  /** The items a message commits: those of the records saved before its first failure. */
  function MessageItems(s: Services, at: nat -> string, dimension: nat, body: Body): seq<DocumentItem> {
    if body.sqsRecords.None? then []
    else
      var ps := ReachedStamped(at, body);
      ItemsOf(s, dimension, ps[..OkCount(s, dimension, ps)])
  }

  /**
   * A failing message keeps what was saved before the failure: when its reached records are
   * `done` (all saved), then a record that fails, its committed items are exactly `done`'s.
   */
  lemma FailureKeepsEarlierRecords(s: Services, at: nat -> string, dimension: nat, body: Body, done: seq<Stamped>, bad: Stamped)
    requires body.sqsRecords.Some?
    requires AllOk(s, dimension, done)
    requires !RecordOk(s, bad.now, dimension, bad.record)
    requires |Reached(body.sqsRecords.value)| > |done|
    requires ReachedStamped(at, body)[..|done| + 1] == done + [bad]
    ensures !MessageOk(s, at, dimension, body)
    ensures MessageItems(s, at, dimension, body) == ItemsOf(s, dimension, done)
  {
    var ps := ReachedStamped(at, body);
    var n := OkCount(s, dimension, ps);
    assert forall i :: 0 <= i < |done| ==> ps[i] == done[i] by {
      assert forall i :: 0 <= i < |done| ==> ps[..|done| + 1][i] == ps[i];
    }
    assert ps[|done|] == bad by {
      assert ps[..|done| + 1][|done|] == ps[|done|];
    }
    assert n == |done|;
    assert ps[..n] == done;
  }

  /** Message `i` of the batch parses and its nested processing raises. */
  predicate MessageFails(s: Services, dimension: nat, i: nat, m: Message) {
    s.parse(m.body).Some? && !MessageOk(s, s.clock(i), dimension, s.parse(m.body).value)
  }

  /** The positions of the batch's messages whose nested processing raises, in increasing order. */
  function FailedIndices(s: Services, dimension: nat, ms: seq<Message>): (idx: seq<nat>)
    ensures forall k :: 0 <= k < |idx| ==> idx[k] < |ms| && MessageFails(s, dimension, idx[k], ms[idx[k]])
    ensures forall k, l :: 0 <= k < l < |idx| ==> idx[k] < idx[l]
    ensures forall i :: 0 <= i < |ms| && MessageFails(s, dimension, i, ms[i]) ==> i in idx
    decreases |ms|
  {
    if ms == [] then []
    else
      var init := ms[..|ms| - 1];
      assert forall i :: 0 <= i < |init| ==> init[i] == ms[i];
      FailedIndices(s, dimension, init) + if MessageFails(s, dimension, |init|, ms[|init|]) then [|init|] else []
  }

  /**
   * The batch's messages whose nested processing raises: exactly the messages at the failing
   * positions, in batch order.
   */
  function Failed(s: Services, dimension: nat, ms: seq<Message>): (failed: seq<Message>)
    ensures |failed| == |FailedIndices(s, dimension, ms)|
    ensures forall k :: 0 <= k < |failed| ==> failed[k] == ms[FailedIndices(s, dimension, ms)[k]]
    decreases |ms|
  {
    if ms == [] then []
    else
      var init, last := ms[..|ms| - 1], ms[|ms| - 1];
      assert forall i :: 0 <= i < |init| ==> init[i] == ms[i];
      Failed(s, dimension, init) + if MessageFails(s, dimension, |init|, last) then [last] else []
  }

  function MessageIds(ms: seq<Message>): (ids: seq<string>)
    ensures |ids| == |ms|
  {
    seq(|ms|, i requires 0 <= i < |ms| => ms[i].messageId)
  }

  /** Every message's body parses. */
  predicate Parsed(s: Services, ms: seq<Message>) {
    forall i :: 0 <= i < |ms| ==> s.parse(ms[i].body).Some?
  }

  /** The number of leading messages whose body parses. */
  function ParsedCount(s: Services, ms: seq<Message>): (n: nat)
    ensures n <= |ms|
    ensures Parsed(s, ms[..n])
    ensures n < |ms| ==> s.parse(ms[n].body).None?
    decreases |ms|
  {
    if ms == [] || s.parse(ms[0].body).None? then 0 else 1 + ParsedCount(s, ms[1..])
  }

  /** The first message whose body does not parse is where the parsed prefix ends. */
  lemma ParsedCountAt(s: Services, ms: seq<Message>, i: nat)
    requires i < |ms| && s.parse(ms[i].body).None?
    requires Parsed(s, ms[..i])
    ensures ParsedCount(s, ms) == i
  {
    var n := ParsedCount(s, ms);
    assert forall k :: 0 <= k < n ==> ms[..n][k] == ms[k];
    assert forall k :: 0 <= k < i ==> ms[..i][k] == ms[k];
  }

  /**
   * The items committed by messages whose bodies all parse, in order, message `i` reading the
   * clock `s.clock(i)`.
   */
  function BatchItems(s: Services, dimension: nat, ms: seq<Message>): seq<DocumentItem>
    requires Parsed(s, ms)
    decreases |ms|
  {
    if ms == [] then []
    else
      assert Parsed(s, ms[..|ms| - 1]) by {
        assert forall i :: 0 <= i < |ms| - 1 ==> ms[..|ms| - 1][i] == ms[i];
      }
      BatchItems(s, dimension, ms[..|ms| - 1])
        + MessageItems(s, s.clock(|ms| - 1), dimension, s.parse(ms[|ms| - 1].body).value)
  }

  lemma BatchItemsSnoc(s: Services, dimension: nat, ms: seq<Message>, m: Message)
    requires Parsed(s, ms)
    requires s.parse(m.body).Some?
    ensures Parsed(s, ms + [m])
    ensures BatchItems(s, dimension, ms + [m])
      == BatchItems(s, dimension, ms) + MessageItems(s, s.clock(|ms|), dimension, s.parse(m.body).value)
  {
    assert (ms + [m])[..|ms|] == ms;
  }

  /** One more parsed message adds its committed items, and itself to the failures when it fails. */
  lemma BatchStep(s: Services, dimension: nat, ms: seq<Message>, i: nat)
    requires i < |ms| && Parsed(s, ms[..i]) && s.parse(ms[i].body).Some?
    ensures Parsed(s, ms[..i + 1])
    ensures BatchItems(s, dimension, ms[..i + 1])
      == BatchItems(s, dimension, ms[..i]) + MessageItems(s, s.clock(i), dimension, s.parse(ms[i].body).value)
    ensures Failed(s, dimension, ms[..i + 1])
      == Failed(s, dimension, ms[..i])
         + if MessageOk(s, s.clock(i), dimension, s.parse(ms[i].body).value) then [] else [ms[i]]
  {
    assert ms[..i + 1] == ms[..i] + [ms[i]];
    assert ms[..i + 1][..i] == ms[..i];
    BatchItemsSnoc(s, dimension, ms[..i], ms[i]);
  }
  /**
   * `process_single_s3_record`: reads the object, extracts its text, builds its items with the
   * object's URI as document id and saves them in one transaction. On failure nothing of the
   * record stays in the store.
   */
  method ProcessS3Record(store: Store, s: Services, now: string, r: S3Record) returns (ok: bool)
    modifies store
    ensures ok <==> RecordOk(s, now, store.dimension, r)
    ensures ok ==>
      && store.documents == old(store.documents) + Rows(RecordItems(s, now, r).value, old(store.lastId))
      && store.vss == old(store.vss) + IndexRows(RecordItems(s, now, r).value, old(store.lastId))
      && store.lastId == old(store.lastId) + |RecordItems(s, now, r).value|
    ensures !ok ==> store.documents == old(store.documents) && store.vss == old(store.vss) && store.lastId == old(store.lastId)
    ensures old(store.Valid()) ==> store.Valid()
  {
    var key := s.unquote(r.rawKey);
    var filetype := LastSegment(key, '.');
    var uri := "s3://" + r.bucket + "/" + key;
    var content := s.fetch(r.bucket, key);
    if content.None? {
      return false;
    }
    var text := DocumentText(content.value, Some(filetype), s.decode, s.pages);
    if text.None? {
      return false;
    }
    var documents := ComputeDocumentsInformation(text.value, Some(uri), None, now, s.embed);
    var clock := (i: nat) => now;
    SavedRows(documents, store.lastId, clock, store.dimension);
    var saved := store.SaveDocuments(Dicts(documents), clock);
    ok := saved.Success?;
  }

  /** The store holds its former tables followed by the rows of `items`. */
  ghost predicate Extends(store: Store, documents0: seq<DocumentRow>, vss0: seq<VssRow>, lastId0: nat, items: seq<DocumentItem>)
    reads store
  {
    && store.documents == documents0 + Rows(items, lastId0)
    && store.vss == vss0 + IndexRows(items, lastId0)
    && store.lastId == lastId0 + |items|
  }

  /** Two consecutive saves extend the tables by the rows of both batches, in order. */
  lemma ExtendsTwice(
    documents0: seq<DocumentRow>, vss0: seq<VssRow>, lastId0: nat, first: seq<DocumentItem>,
    documents1: seq<DocumentRow>, vss1: seq<VssRow>, lastId1: nat, second: seq<DocumentItem>,
    documents2: seq<DocumentRow>, vss2: seq<VssRow>, lastId2: nat)
    requires documents1 == documents0 + Rows(first, lastId0) && vss1 == vss0 + IndexRows(first, lastId0)
    requires lastId1 == lastId0 + |first|
    requires documents2 == documents1 + Rows(second, lastId1) && vss2 == vss1 + IndexRows(second, lastId1)
    requires lastId2 == lastId1 + |second|
    ensures documents2 == documents0 + Rows(first + second, lastId0)
    ensures vss2 == vss0 + IndexRows(first + second, lastId0)
    ensures lastId2 == lastId0 + |first + second|
  {
    RowsAppend(first, second, lastId0);
  }

  /**
   * `for s3_record in s3_records: process_single_s3_record(s3_record)`, stopping at the first
   * record that raises; the records saved before it stay saved. Record `k` is imported with the
   * clock reading `at(base + k)`.
   */
  method ProcessS3Records(store: Store, s: Services, at: nat -> string, base: nat, rs: seq<S3Record>) returns (ok: bool)
    modifies store
    ensures ok <==> OkCount(s, store.dimension, Stamp(at, base, rs)) == |rs|
    ensures Extends(store, old(store.documents), old(store.vss), old(store.lastId),
      ItemsOf(s, store.dimension, Stamp(at, base, rs)[..OkCount(s, store.dimension, Stamp(at, base, rs))]))
    ensures old(store.Valid()) ==> store.Valid()
  {
    ghost var dimension := store.dimension;
    ghost var ps := Stamp(at, base, rs);
    ghost var documents0, vss0, lastId0 := store.documents, store.vss, store.lastId;
    ghost var valid0 := store.Valid();
    for k := 0 to |rs|
      invariant store.dimension == dimension
      invariant AllOk(s, dimension, ps[..k])
      invariant Extends(store, documents0, vss0, lastId0, ItemsOf(s, dimension, ps[..k]))
      invariant valid0 ==> store.Valid()
    {
      ghost var before := ItemsOf(s, dimension, ps[..k]);
      ghost var documents1, vss1, lastId1 := store.documents, store.vss, store.lastId;
      StampAt(at, base, rs, k);
      var recordOk := ProcessS3Record(store, s, at(base + k), rs[k]);
      if !recordOk {
        OkCountAt(s, dimension, ps, k);
        return false;
      }
      ghost var added := RecordItems(s, ps[k].now, ps[k].record).value;
      assert store.documents == documents1 + Rows(added, lastId1);
      assert store.vss == vss1 + IndexRows(added, lastId1);
      ExtendsTwice(documents0, vss0, lastId0, before, documents1, vss1, lastId1, added,
        store.documents, store.vss, store.lastId);
      OkStep(s, dimension, ps, k);
    }
    OkCountAll(s, dimension, ps);
    return true;
  }

  /** One more record that goes through adds its items. */
  lemma OkStep(s: Services, dimension: nat, ps: seq<Stamped>, k: nat)
    requires k < |ps| && AllOk(s, dimension, ps[..k]) && RecordOk(s, ps[k].now, dimension, ps[k].record)
    ensures AllOk(s, dimension, ps[..k + 1])
    ensures ItemsOf(s, dimension, ps[..k + 1]) == ItemsOf(s, dimension, ps[..k]) + RecordItems(s, ps[k].now, ps[k].record).value
  {
    assert ps[..k + 1] == ps[..k] + [ps[k]];
    ItemsSnoc(s, dimension, ps[..k], ps[k]);
  }

  /** The first record that fails is where the count of records going through stops. */
  lemma OkCountAt(s: Services, dimension: nat, ps: seq<Stamped>, k: nat)
    requires k < |ps| && AllOk(s, dimension, ps[..k]) && !RecordOk(s, ps[k].now, dimension, ps[k].record)
    ensures OkCount(s, dimension, ps) == k
  {
    var n := OkCount(s, dimension, ps);
    assert forall i :: 0 <= i < k ==> ps[..k][i] == ps[i];
  }

  /** When every record goes through, all of them are counted and their items are all committed. */
  lemma OkCountAll(s: Services, dimension: nat, ps: seq<Stamped>)
    requires AllOk(s, dimension, ps[..|ps|])
    ensures OkCount(s, dimension, ps) == |ps|
    ensures ps[..OkCount(s, dimension, ps)] == ps
  {
    assert ps[..|ps|] == ps;
  }

  lemma ItemsAppend(s: Services, dimension: nat, a: seq<Stamped>, b: seq<Stamped>)
    requires AllOk(s, dimension, a) && AllOk(s, dimension, b)
    ensures AllOk(s, dimension, a + b)
    ensures ItemsOf(s, dimension, a + b) == ItemsOf(s, dimension, a) + ItemsOf(s, dimension, b)
  {
    AllOkAppend(s, dimension, a, b);
    ItemListsAppend(s, dimension, a, b);
    ConcatAppend(ItemLists(s, dimension, a), ItemLists(s, dimension, b));
  }

  /** Reaching one more SQS record that does not raise reaches its S3 records next. */
  lemma ReachedStep(sqs: seq<SqsRecord>, j: nat)
    requires j < |sqs| && Complete(sqs[..j]) && sqs[j].s3Records.Some?
    ensures Complete(sqs[..j + 1])
    ensures Reached(sqs[..j + 1]) == Reached(sqs[..j]) + sqs[j].s3Records.value
  {
    ReachedAppend(sqs[..j], [sqs[j]]);
    assert sqs[..j + 1] == sqs[..j] + [sqs[j]];
    assert [sqs[j]][1..] == [];
  }

  /** An SQS record without S3 records ends the message, failed, after the records reached before it. */
  lemma MessageRaisesAt(s: Services, at: nat -> string, dimension: nat, body: Body, j: nat)
    requires body.sqsRecords.Some? && j < |body.sqsRecords.value|
    requires Complete(body.sqsRecords.value[..j]) && body.sqsRecords.value[j].s3Records.None?
    requires AllOk(s, dimension, Stamp(at, 0, Reached(body.sqsRecords.value[..j])))
    ensures !MessageOk(s, at, dimension, body)
    ensures MessageItems(s, at, dimension, body) == ItemsOf(s, dimension, Stamp(at, 0, Reached(body.sqsRecords.value[..j])))
  {
    var sqs := body.sqsRecords.value;
    var done := Stamp(at, 0, Reached(sqs[..j]));
    ReachedAppend(sqs[..j], sqs[j..]);
    assert sqs[..j] + sqs[j..] == sqs;
    assert ReachedStamped(at, body) == done;
    assert done[..OkCount(s, dimension, done)] == done;
  }

  /**
   * An S3 record that fails ends the message, failed, after the records reached before it and
   * those of its own SQS record before it.
   */
  lemma MessageFailsAt(s: Services, at: nat -> string, dimension: nat, body: Body, j: nat)
    requires body.sqsRecords.Some? && j < |body.sqsRecords.value|
    requires Complete(body.sqsRecords.value[..j]) && body.sqsRecords.value[j].s3Records.Some?
    requires AllOk(s, dimension, Stamp(at, 0, Reached(body.sqsRecords.value[..j])))
    requires var base := |Reached(body.sqsRecords.value[..j])|;
      var rs := body.sqsRecords.value[j].s3Records.value;
      OkCount(s, dimension, Stamp(at, base, rs)) < |rs|
    ensures var done := Reached(body.sqsRecords.value[..j]);
      var ps := Stamp(at, |done|, body.sqsRecords.value[j].s3Records.value);
      && !MessageOk(s, at, dimension, body)
      && MessageItems(s, at, dimension, body)
           == ItemsOf(s, dimension, Stamp(at, 0, done)) + ItemsOf(s, dimension, ps[..OkCount(s, dimension, ps)])
  {
    var sqs := body.sqsRecords.value;
    var done := Reached(sqs[..j]);
    var rs := sqs[j].s3Records.value;
    var before, ps := Stamp(at, 0, done), Stamp(at, |done|, rs);
    var c := OkCount(s, dimension, ps);
    StampedCut(at, body, j, c);
    assert AllOk(s, dimension, ps[..c]) by {
      assert forall i :: 0 <= i < c ==> ps[..c][i] == ps[i];
    }
    ItemsAppend(s, dimension, before, ps[..c]);
    FailureKeepsEarlierRecords(s, at, dimension, body, before + ps[..c], ps[c]);
  }

  /** The stamped records a message reaches, cut just after record `c` of SQS record `j`. */
  lemma StampedCut(at: nat -> string, body: Body, j: nat, c: nat)
    requires body.sqsRecords.Some? && j < |body.sqsRecords.value|
    requires Complete(body.sqsRecords.value[..j]) && body.sqsRecords.value[j].s3Records.Some?
    requires c < |body.sqsRecords.value[j].s3Records.value|
    ensures var done := Reached(body.sqsRecords.value[..j]);
      var ps := Stamp(at, |done|, body.sqsRecords.value[j].s3Records.value);
      var saved := Stamp(at, 0, done) + ps[..c];
      && |Reached(body.sqsRecords.value)| > |saved|
      && ReachedStamped(at, body)[..|saved| + 1] == saved + [ps[c]]
  {
    var sqs := body.sqsRecords.value;
    var done := Reached(sqs[..j]);
    var rs := sqs[j].s3Records.value;
    var tail := Reached(sqs[j + 1..]);
    var before, ps, after := Stamp(at, 0, done), Stamp(at, |done|, rs), Stamp(at, |done| + |rs|, tail);
    assert ReachedStamped(at, body) == before + (ps + after) by {
      ReachedAt(sqs, j);
      StampAppend(at, 0, done, rs + tail);
      StampAppend(at, |done|, rs, tail);
    }
    CutInside(before, ps, after, c);
  }

  /** The records an envelope reaches, split at a complete prefix of SQS records. */
  lemma ReachedAt(sqs: seq<SqsRecord>, j: nat)
    requires j < |sqs| && Complete(sqs[..j]) && sqs[j].s3Records.Some?
    ensures Reached(sqs) == Reached(sqs[..j]) + (sqs[j].s3Records.value + Reached(sqs[j + 1..]))
  {
    ReachedAppend(sqs[..j], sqs[j..]);
    assert sqs[..j] + sqs[j..] == sqs;
    assert sqs[j..][1..] == sqs[j + 1..];
  }

  lemma CutInside<T>(done: seq<T>, rs: seq<T>, tail: seq<T>, c: nat)
    requires c < |rs|
    ensures |done + (rs + tail)| > |done + rs[..c]|
    ensures (done + (rs + tail))[..|done + rs[..c]| + 1] == (done + rs[..c]) + [rs[c]]
  {
    assert (rs + tail)[..c + 1] == rs[..c] + [rs[c]];
    assert (done + (rs + tail))[..|done| + c + 1] == done + (rs + tail)[..c + 1];
  }

  /** An SQS record whose S3 records all go through adds their items after the earlier ones. */
  lemma MessageStep(s: Services, at: nat -> string, dimension: nat, sqs: seq<SqsRecord>, j: nat)
    requires j < |sqs| && Complete(sqs[..j]) && sqs[j].s3Records.Some?
    requires AllOk(s, dimension, Stamp(at, 0, Reached(sqs[..j])))
    requires var rs := sqs[j].s3Records.value;
      OkCount(s, dimension, Stamp(at, |Reached(sqs[..j])|, rs)) == |rs|
    ensures Complete(sqs[..j + 1])
    ensures |Reached(sqs[..j + 1])| == |Reached(sqs[..j])| + |sqs[j].s3Records.value|
    ensures AllOk(s, dimension, Stamp(at, 0, Reached(sqs[..j + 1])))
    ensures ItemsOf(s, dimension, Stamp(at, 0, Reached(sqs[..j + 1])))
      == ItemsOf(s, dimension, Stamp(at, 0, Reached(sqs[..j])))
         + ItemsOf(s, dimension, Stamp(at, |Reached(sqs[..j])|, sqs[j].s3Records.value))
  {
    var done, rs := Reached(sqs[..j]), sqs[j].s3Records.value;
    var before, ps := Stamp(at, 0, done), Stamp(at, |done|, rs);
    assert AllOk(s, dimension, ps) by {
      assert forall i :: 0 <= i < |ps| ==> RecordOk(s, ps[i].now, dimension, ps[i].record);
    }
    assert Stamp(at, 0, Reached(sqs[..j + 1])) == before + ps by {
      ReachedStep(sqs, j);
      StampAppend(at, 0, done, rs);
    }
    ReachedStep(sqs, j);
    ItemsAppend(s, dimension, before, ps);
  }

  /** A message whose reached records all go through commits all of them. */
  lemma MessageAllOk(s: Services, at: nat -> string, dimension: nat, body: Body)
    requires body.sqsRecords.Some?
    requires var sqs := body.sqsRecords.value;
      Complete(sqs[..|sqs|]) && AllOk(s, dimension, Stamp(at, 0, Reached(sqs[..|sqs|])))
    ensures MessageOk(s, at, dimension, body)
    ensures MessageItems(s, at, dimension, body) == ItemsOf(s, dimension, ReachedStamped(at, body))
  {
    var sqs := body.sqsRecords.value;
    assert sqs[..|sqs|] == sqs;
    var ps := ReachedStamped(at, body);
    OkCountAll(s, dimension, ps);
  }

  /**
   * The `try` block of one message: every S3 record of every SQS record of the envelope, in
   * order, until the first one that raises, the `p`-th record reached read at `at(p)`. Records
   * saved before a failure stay saved.
   */
  method ProcessMessage(store: Store, s: Services, at: nat -> string, body: Body) returns (ok: bool)
    modifies store
    ensures ok <==> MessageOk(s, at, store.dimension, body)
    ensures Extends(store, old(store.documents), old(store.vss), old(store.lastId),
      MessageItems(s, at, store.dimension, body))
    ensures old(store.Valid()) ==> store.Valid()
  {
    if body.sqsRecords.None? {
      return false;
    }
    var sqs := body.sqsRecords.value;
    ghost var dimension := store.dimension;
    ghost var documents0, vss0, lastId0 := store.documents, store.vss, store.lastId;
    ghost var valid0 := store.Valid();
    var reached := 0;
    assert sqs[..0] == [];
    assert ItemsOf(s, dimension, Stamp(at, 0, Reached(sqs[..0]))) == [];
    for j := 0 to |sqs|
      invariant store.dimension == dimension
      invariant Complete(sqs[..j])
      invariant reached == |Reached(sqs[..j])|
      invariant AllOk(s, dimension, Stamp(at, 0, Reached(sqs[..j])))
      invariant Extends(store, documents0, vss0, lastId0, ItemsOf(s, dimension, Stamp(at, 0, Reached(sqs[..j]))))
      invariant valid0 ==> store.Valid()
    {
      ghost var done := Stamp(at, 0, Reached(sqs[..j]));
      if sqs[j].s3Records.None? {
        MessageRaisesAt(s, at, dimension, body, j);
        return false;
      }
      var rs := sqs[j].s3Records.value;
      ghost var ps := Stamp(at, reached, rs);
      ghost var c := OkCount(s, dimension, ps);
      ghost var before := ItemsOf(s, dimension, done);
      ghost var documents1, vss1, lastId1 := store.documents, store.vss, store.lastId;
      var recordsOk := ProcessS3Records(store, s, at, reached, rs);
      ghost var added := ItemsOf(s, dimension, ps[..c]);
      ExtendsTwice(documents0, vss0, lastId0, before, documents1, vss1, lastId1, added,
        store.documents, store.vss, store.lastId);
      if !recordsOk {
        MessageFailsAt(s, at, dimension, body, j);
        return false;
      }
      assert ps[..c] == ps;
      MessageStep(s, at, dimension, sqs, j);
      reached := reached + |rs|;
    }
    assert sqs[..|sqs|] == sqs;
    MessageAllOk(s, at, dimension, body);
    return true;
  }

  /**
   * The loop of `lambda_handler` over the batch's messages: each body is parsed (a body that is
   * not JSON raises out of the handler) and its nested processing runs in a `try`, message `i`
   * reading the clock `s.clock(i)`; a message whose processing raises is collected in order.
   */
  method ProcessBatch(store: Store, s: Services, ms: seq<Message>)
    returns (parsed: bool, failures: seq<Message>)
    modifies store
    ensures parsed <==> ParsedCount(s, ms) == |ms|
    ensures Extends(store, old(store.documents), old(store.vss), old(store.lastId),
      BatchItems(s, store.dimension, ms[..ParsedCount(s, ms)]))
    ensures parsed ==> failures == Failed(s, store.dimension, ms)
    ensures old(store.Valid()) ==> store.Valid()
  {
    ghost var documents0, vss0, lastId0 := store.documents, store.vss, store.lastId;
    ghost var valid0 := store.Valid();
    failures := [];
    for i := 0 to |ms|
      invariant Parsed(s, ms[..i])
      invariant failures == Failed(s, store.dimension, ms[..i])
      invariant Extends(store, documents0, vss0, lastId0, BatchItems(s, store.dimension, ms[..i]))
      invariant valid0 ==> store.Valid()
    {
      var message := ms[i];
      var body := s.parse(message.body);
      if body.None? {
        ParsedCountAt(s, ms, i);
        return false, failures;
      }
      BatchStep(s, store.dimension, ms, i);
      ghost var before := BatchItems(s, store.dimension, ms[..i]);
      ghost var added := MessageItems(s, s.clock(i), store.dimension, body.value);
      ghost var documents1, vss1, lastId1 := store.documents, store.vss, store.lastId;
      var ok := ProcessMessage(store, s, s.clock(i), body.value);
      if !ok {
        failures := failures + [message];
      }
      assert store.documents == documents1 + Rows(added, lastId1);
      assert store.vss == vss1 + IndexRows(added, lastId1);
      ExtendsTwice(documents0, vss0, lastId0, before, documents1, vss1, lastId1, added,
        store.documents, store.vss, store.lastId);
    }
    assert ms[..|ms|] == ms;
    return true, failures;
  }

  /**
   * `lambda_handler(event, context)` with the database `store`. Returns the response or the
   * exception that escapes, and the database files uploaded.
   */
  method Handler(store: Store, s: Services, event: Event)
    returns (response: Result<map<string, seq<string>>, ImportError>, uploads: seq<Snapshot>)
    modifies store
    ensures event.FalsyEvent? ==>
      && response == Success(map["batch_item_failures" := []])
      && uploads == []
      && store.documents == old(store.documents) && store.vss == old(store.vss) && store.lastId == old(store.lastId)
    ensures event.WithoutRecords? ==>
      && response == Failure(MissingRecords)
      && uploads == []
      && store.documents == old(store.documents) && store.vss == old(store.vss) && store.lastId == old(store.lastId)
    ensures event.WithRecords? ==>
      var ms := event.records;
      var n := ParsedCount(s, ms);
      && Extends(store, old(store.documents), old(store.vss), old(store.lastId), BatchItems(s, store.dimension, ms[..n]))
      && (n < |ms| ==> response == Failure(BodyNotJson) && uploads == [])
      && (n == |ms| ==>
            && response == Success(map[
                 "batch_item_failures" := [],
                 "batchItemFailures" := MessageIds(Failed(s, store.dimension, ms))])
            && uploads == [Snapshot(store.documents, store.vss)])
    ensures old(store.Valid()) ==> store.Valid()
  {
    var batchResponse: map<string, seq<string>> := map["batch_item_failures" := []];
    uploads := [];
    if event.FalsyEvent? {
      return Success(batchResponse), uploads;
    }
    if event.WithoutRecords? {
      return Failure(MissingRecords), uploads;
    }
    var parsed, failures := ProcessBatch(store, s, event.records);
    if !parsed {
      return Failure(BodyNotJson), uploads;
    }
    batchResponse := batchResponse["batchItemFailures" := MessageIds(failures)];
    uploads := uploads + [Snapshot(store.documents, store.vss)];
    return Success(batchResponse), uploads;
  }
}
