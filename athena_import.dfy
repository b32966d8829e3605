/**
 * The import handler of the Athena variant. Every S3 notification record of the event is read,
 * its text split into chunk items, the items exported as one Parquet object and that object
 * put into the output bucket under a key derived from the document's URI. Nothing is caught:
 * the first record that raises ends the invocation, after the objects of the records before it
 * were put. S3 reads, URL unquoting, the document reader, the hasher, `uuid4`, the clock, SHA-1
 * and the Parquet export are parameters (`Services`).
 */
module AthenaImport {
  import opened Wrappers
  import opened Strings
  import opened Chunker
  import opened ChunkRecords
  import opened Prompt
  import opened S3Keys
  import opened Paths

  /** The event: its `Records`, `None` when the key is missing. */
  datatype Event = Event(records: Option<seq<S3Record>>)

  /** The collaborators; an `Option` result of `None` stands for a call that raises. */
  datatype Services = Services(
    unquote: string -> string,
    fetch: (string, string) -> Option<seq<bv8>>,
    decode: seq<bv8> -> Option<string>,
    pages: (seq<bv8>, Option<string>) -> Option<seq<string>>,
    lsh: string -> string,
    uuids: nat -> nat -> string,      // the `uuid4` drawn for chunk `k` of record `i`
    clock: nat -> string,             // `now()` as read while importing record `i`
    sha1: string -> string,           // `hashlib.sha1(uri.encode()).hexdigest()`
    parquet: seq<ChunkItem> -> seq<bv8>)

  /**
   * The chunking parameters of the configuration and `DOCUMENTS_OUTPUT_PREFIX`, `None` when the
   * environment does not set it.
   */
  datatype Config = Config(size: nat, overlap: nat, documentsPrefix: Option<string>)

  /** Why the handler raises. */
  datatype ImportError =
    | MissingRecords            // `event["Records"]`
    | ObjectUnreadable          // `get_object` or reading its body
    | TextUnreadable            // `get_document_text`
    | ChunkingFailed(e: ChunkError)
    | MissingPrefix             // `os.path.join(None, ...)` raises TypeError

  /** One `put_object` call: the output key and the object's bytes. */
  datatype Put = Put(key: string, body: seq<bv8>)

  /** `f"{basename(uri)}-{sha1(uri)}.parquet"` */
  function OutputName(uri: string, sha1: string -> string): string {
    Basename(uri) + "-" + sha1(uri) + ".parquet"
  }

  /** The output key, or `None` when the prefix is unset. */
  function OutputKey(prefix: Option<string>, uri: string, sha1: string -> string): Option<string> {
    if prefix.None? then None else Some(PathJoin(prefix.value, OutputName(uri, sha1)))
  }

  /** The output name never starts with a slash, so `os.path.join` keeps the prefix. */
  lemma OutputNameRelative(uri: string, sha1: string -> string)
    ensures !StartsWith(OutputName(uri, sha1), "/")
    ensures EndsWith(OutputName(uri, sha1), ".parquet")
  {
    var base := Basename(uri);
    var n := OutputName(uri, sha1);
    LastSegmentIsSuffix(uri, '/');
    if |base| > 0 {
      assert n[0] == base[0];
      assert base[0] in base;
    } else {
      assert n[0] == '-';
    }
    assert n == (base + "-" + sha1(uri)) + ".parquet";
    assert n[|n| - |".parquet"|..] == ".parquet";
  }

  /**
   * With a 40-character digest that differs for different URIs, different URIs get different
   * output keys; the same URI always gets the same key.
   */
  lemma OutputKeyInjective(prefix: string, u1: string, u2: string, sha1: string -> string)
    requires |sha1(u1)| == 40 && |sha1(u2)| == 40
    requires sha1(u1) == sha1(u2) ==> u1 == u2
    ensures OutputKey(Some(prefix), u1, sha1) == OutputKey(Some(prefix), u2, sha1) <==> u1 == u2
  {
    var n1, n2 := OutputName(u1, sha1), OutputName(u2, sha1);
    if OutputKey(Some(prefix), u1, sha1) == OutputKey(Some(prefix), u2, sha1) {
      OutputNameRelative(u1, sha1);
      OutputNameRelative(u2, sha1);
      PathJoinShape(prefix, n1);
      PathJoinShape(prefix, n2);
      assert |n1| == |n2|;
      var j := PathJoin(prefix, n1);
      assert n1 == j[|j| - |n1|..] == n2;
      var tail := 40 + |".parquet"|;
      assert n1[|n1| - tail..|n1| - |".parquet"|] == sha1(u1);
      assert n2[|n2| - tail..|n2| - |".parquet"|] == sha1(u2);
    }
  }

  /** The chunk items of record `i` of the event, or why reading or chunking it raises. */
  function RecordItems(s: Services, config: Config, i: nat, r: S3Record): Result<seq<ChunkItem>, ImportError> {
    var key := s.unquote(r.rawKey);
    var content := s.fetch(r.bucket, key);
    if content.None? then Failure(ObjectUnreadable)
    else
      var text := DocumentText(content.value, Some(FileType(key)), s.decode, s.pages);
      if text.None? then Failure(TextUnreadable)
      else
        var items := ChunksInformation(text.value, config.size, config.overlap, Some(ObjectUri(r.bucket, key)),
                                       s.clock(i), s.uuids(i), s.lsh);
        if items.Failure? then Failure(ChunkingFailed(items.error)) else Success(items.value)
  }

  /** Every item of a record carries the object's URI as its document id. */
  lemma RecordItemsDocumentId(s: Services, config: Config, i: nat, r: S3Record)
    ensures RecordItems(s, config, i, r).Success? ==>
      forall k :: 0 <= k < |RecordItems(s, config, i, r).value| ==>
        RecordItems(s, config, i, r).value[k].documentId == Some(ObjectUri(r.bucket, s.unquote(r.rawKey)))
  {
  }

  /** The `put_object` record `i` of the event issues, or why it raises first. */
  function RecordPut(s: Services, config: Config, i: nat, r: S3Record): Result<Put, ImportError> {
    var items := RecordItems(s, config, i, r);
    if items.Failure? then Failure(items.error)
    else
      var outputKey := OutputKey(config.documentsPrefix, ObjectUri(r.bucket, s.unquote(r.rawKey)), s.sha1);
      if outputKey.None? then Failure(MissingPrefix)
      else Success(Put(outputKey.value, s.parquet(items.value)))
  }

  /** The output key starts with the prefix and ends with the URI's digest and `.parquet`. */
  lemma OutputKeyShape(prefix: string, uri: string, sha1: string -> string)
    ensures StartsWith(PathJoin(prefix, OutputName(uri, sha1)), prefix)
    ensures EndsWith(PathJoin(prefix, OutputName(uri, sha1)), "-" + sha1(uri) + ".parquet")
  {
    OutputNameRelative(uri, sha1);
    OutputNameEnds(uri, sha1);
    PathJoinKeepsSuffix(prefix, OutputName(uri, sha1), "-" + sha1(uri) + ".parquet");
  }

  lemma OutputNameEnds(uri: string, sha1: string -> string)
    ensures EndsWith(OutputName(uri, sha1), "-" + sha1(uri) + ".parquet")
  {
    var t := "-" + sha1(uri) + ".parquet";
    assert OutputName(uri, sha1) == Basename(uri) + t;
    assert t[|t| - |t|..] == t;
    EndsWithAppended(Basename(uri), t, t);
  }

  /**
   * A record that goes through puts the Parquet export of its chunk items under a key that
   * starts with the prefix and ends with the URI's digest and `.parquet`; without a prefix no
   * record goes through.
   */
  lemma RecordPutShape(s: Services, config: Config, i: nat, r: S3Record)
    ensures config.documentsPrefix.None? ==> RecordPut(s, config, i, r).Failure?
    ensures RecordPut(s, config, i, r).Success? ==>
      var uri := ObjectUri(r.bucket, s.unquote(r.rawKey));
      var put := RecordPut(s, config, i, r).value;
      && RecordItems(s, config, i, r).Success?
      && put.body == s.parquet(RecordItems(s, config, i, r).value)
      && StartsWith(put.key, config.documentsPrefix.value)
      && EndsWith(put.key, "-" + s.sha1(uri) + ".parquet")
  {
    if config.documentsPrefix.Some? {
      OutputKeyShape(config.documentsPrefix.value, ObjectUri(r.bucket, s.unquote(r.rawKey)), s.sha1);
    }
  }

  /** What importing record `i` does, as a function of the record's position and the record. */
  function Importer(s: Services, config: Config): (f: (nat, S3Record) -> Result<Put, ImportError>)
    ensures forall i: nat, r :: f(i, r) == RecordPut(s, config, i, r)
  {
    (i: nat, r: S3Record) => RecordPut(s, config, i, r)
  }

  /** Every record of `rs` goes through. */
  predicate AllPut(f: (nat, S3Record) -> Result<Put, ImportError>, rs: seq<S3Record>) {
    forall i :: 0 <= i < |rs| ==> f(i, rs[i]).Success?
  }

  /** The puts of records that all go through, in record order. */
  function Puts(f: (nat, S3Record) -> Result<Put, ImportError>, rs: seq<S3Record>): (ps: seq<Put>)
    requires AllPut(f, rs)
    ensures |ps| == |rs|
    decreases |rs|
  {
    if rs == [] then []
    else
      var init := rs[..|rs| - 1];
      assert AllPut(f, init) by {
        assert forall i :: 0 <= i < |init| ==> init[i] == rs[i];
      }
      Puts(f, init) + [f(|rs| - 1, rs[|rs| - 1]).value]
  }

  /** One put per record, in record order: the `i`-th put is record `i`'s. */
  lemma {:induction false} PutsInOrder(f: (nat, S3Record) -> Result<Put, ImportError>, rs: seq<S3Record>, i: nat)
    requires AllPut(f, rs) && i < |rs|
    ensures Puts(f, rs)[i] == f(i, rs[i]).value
    decreases |rs|
  {
    var init := rs[..|rs| - 1];
    if i < |rs| - 1 {
      assert AllPut(f, init) by {
        assert forall k :: 0 <= k < |init| ==> init[k] == rs[k];
      }
      PutsInOrder(f, init, i);
      assert init[i] == rs[i];
    }
  }

  /** The number of leading records that go through. */
  function PutCount(f: (nat, S3Record) -> Result<Put, ImportError>, rs: seq<S3Record>): (n: nat)
    ensures n <= |rs|
    ensures AllPut(f, rs[..n])
    ensures n < |rs| ==> f(n, rs[n]).Failure?
  {
    PutCountFrom(f, rs, 0)
  }

  function PutCountFrom(f: (nat, S3Record) -> Result<Put, ImportError>, rs: seq<S3Record>, from: nat): (n: nat)
    requires from <= |rs| && AllPut(f, rs[..from])
    ensures from <= n <= |rs|
    ensures AllPut(f, rs[..n])
    ensures n < |rs| ==> f(n, rs[n]).Failure?
    decreases |rs| - from
  {
    if from == |rs| || f(from, rs[from]).Failure? then from
    else
      assert AllPut(f, rs[..from + 1]) by {
        assert forall i :: 0 <= i < from ==> rs[..from + 1][i] == rs[..from][i];
      }
      PutCountFrom(f, rs, from + 1)
  }

  /** The objects of the bucket after the puts `ps`, in order. */
  function Stored(objects: map<string, seq<bv8>>, ps: seq<Put>): map<string, seq<bv8>>
    decreases |ps|
  {
    if ps == [] then objects
    else
      var last := ps[|ps| - 1];
      Stored(objects, ps[..|ps| - 1])[last.key := last.body]
  }

  /** A key that no put names keeps its former object, or stays absent. */
  lemma {:induction false} StoredUntouched(objects: map<string, seq<bv8>>, ps: seq<Put>, key: string)
    requires forall j :: 0 <= j < |ps| ==> ps[j].key != key
    ensures key in Stored(objects, ps) <==> key in objects
    ensures key in objects ==> Stored(objects, ps)[key] == objects[key]
    decreases |ps|
  {
    if ps != [] {
      var init := ps[..|ps| - 1];
      assert forall j :: 0 <= j < |init| ==> init[j] == ps[j];
      StoredUntouched(objects, init, key);
    }
  }

  /** A key holds the body of the last put to it: a later put to the same key overwrites an earlier one. */
  lemma {:induction false} StoredLast(objects: map<string, seq<bv8>>, ps: seq<Put>, j: nat)
    requires j < |ps|
    requires forall k :: j < k < |ps| ==> ps[k].key != ps[j].key
    ensures ps[j].key in Stored(objects, ps) && Stored(objects, ps)[ps[j].key] == ps[j].body
    decreases |ps|
  {
    if j < |ps| - 1 {
      var init := ps[..|ps| - 1];
      assert forall k :: 0 <= k < |init| ==> init[k] == ps[k];
      StoredLast(objects, init, j);
    }
  }

  /** The output bucket: its objects and the `put_object` calls it received, in order. */
  class OutputBucket {
    var objects: map<string, seq<bv8>>
    var log: seq<Put>

    constructor (objects: map<string, seq<bv8>>)
      ensures this.objects == objects && log == []
    {
      this.objects := objects;
      log := [];
    }

    /** `put_object(Body=body, Key=key)`: the object is written, replacing any former one. */
    method PutObject(key: string, body: seq<bv8>)
      modifies this
      ensures objects == old(objects)[key := body]
      ensures log == old(log) + [Put(key, body)]
    {
      objects := objects[key := body];
      log := log + [Put(key, body)];
    }
  }

  /** The body of the `for record in records` loop: read, chunk, export and put one object. */
  method ImportRecord(out: OutputBucket, s: Services, config: Config, i: nat, r: S3Record)
    returns (result: Result<(), ImportError>)
    modifies out
    ensures var put := Importer(s, config)(i, r);
      && (result.Success? <==> put.Success?)
      && (result.Failure? ==> result.error == put.error && out.objects == old(out.objects) && out.log == old(out.log))
      && (result.Success? ==>
            out.objects == old(out.objects)[put.value.key := put.value.body] && out.log == old(out.log) + [put.value])
  {
    var key := s.unquote(r.rawKey);
    var filetype := FileType(key);
    var uri := ObjectUri(r.bucket, key);
    var content := s.fetch(r.bucket, key);
    if content.None? {
      return Failure(ObjectUnreadable);
    }
    var text := DocumentText(content.value, Some(filetype), s.decode, s.pages);
    if text.None? {
      return Failure(TextUnreadable);
    }
    var items := ComputeChunksInformation(text.value, config.size, config.overlap, Some(uri), None, s.clock(i), s.uuids(i), s.lsh);
    if items.Failure? {
      return Failure(ChunkingFailed(items.error));
    }
    var outputName := Basename(uri) + "-" + s.sha1(uri) + ".parquet";
    var buffer := s.parquet(items.value);
    if config.documentsPrefix.None? {
      return Failure(MissingPrefix);
    }
    var outputKey := PathJoin(config.documentsPrefix.value, outputName);
    out.PutObject(outputKey, buffer);
    return Success(());
  }

  /** One more record that goes through adds its put. */
  lemma PutStep(f: (nat, S3Record) -> Result<Put, ImportError>, rs: seq<S3Record>, i: nat)
    requires i < |rs| && AllPut(f, rs[..i]) && f(i, rs[i]).Success?
    ensures AllPut(f, rs[..i + 1])
    ensures Puts(f, rs[..i + 1]) == Puts(f, rs[..i]) + [f(i, rs[i]).value]
  {
    assert forall k :: 0 <= k < i ==> rs[..i + 1][k] == rs[..i][k];
    assert rs[..i + 1][..i] == rs[..i];
  }

  /** The first record that raises is where the count of records going through stops. */
  lemma PutCountAt(f: (nat, S3Record) -> Result<Put, ImportError>, rs: seq<S3Record>, i: nat)
    requires i < |rs| && AllPut(f, rs[..i]) && f(i, rs[i]).Failure?
    ensures PutCount(f, rs) == i
  {
    var n := PutCount(f, rs);
    assert forall k :: 0 <= k < n ==> rs[..n][k] == rs[k];
    assert forall k :: 0 <= k < i ==> rs[..i][k] == rs[k];
  }

  /** The puts extend the stored objects one at a time. */
  lemma StoredSnoc(objects: map<string, seq<bv8>>, ps: seq<Put>, p: Put)
    ensures Stored(objects, ps + [p]) == Stored(objects, ps)[p.key := p.body]
  {
    assert (ps + [p])[..|ps|] == ps;
  }

  /** After one more put, the log and the objects are those of one more record. */
  lemma PutsAdvance(
    f: (nat, S3Record) -> Result<Put, ImportError>, rs: seq<S3Record>, i: nat,
    objects0: map<string, seq<bv8>>, log0: seq<Put>,
    objects1: map<string, seq<bv8>>, log1: seq<Put>,
    objects2: map<string, seq<bv8>>, log2: seq<Put>)
    requires i < |rs| && AllPut(f, rs[..i]) && f(i, rs[i]).Success?
    requires log1 == log0 + Puts(f, rs[..i]) && objects1 == Stored(objects0, Puts(f, rs[..i]))
    requires log2 == log1 + [f(i, rs[i]).value]
    requires objects2 == objects1[f(i, rs[i]).value.key := f(i, rs[i]).value.body]
    ensures AllPut(f, rs[..i + 1])
    ensures log2 == log0 + Puts(f, rs[..i + 1]) && objects2 == Stored(objects0, Puts(f, rs[..i + 1]))
  {
    PutStep(f, rs, i);
    StoredSnoc(objects0, Puts(f, rs[..i]), f(i, rs[i]).value);
  }

  /**
   * `lambda_handler(event, context)` over the output bucket `out`. Records are imported in order,
   * one `put_object` each; the first record that raises ends the handler with its error, after
   * the puts of the records before it. A missing `Records` raises before any put.
   */
  method Handler(out: OutputBucket, s: Services, config: Config, event: Event)
    returns (result: Result<(), ImportError>)
    modifies out
    ensures event.records.None? ==>
      result == Failure(MissingRecords) && out.objects == old(out.objects) && out.log == old(out.log)
    ensures event.records.Some? ==>
      var rs, f := event.records.value, Importer(s, config);
      var n := PutCount(f, rs);
      && out.log == old(out.log) + Puts(f, rs[..n])
      && out.objects == Stored(old(out.objects), Puts(f, rs[..n]))
      && (n == |rs| <==> result.Success?)
      && (n < |rs| ==> result == Failure(f(n, rs[n]).error))
  {
    if event.records.None? {
      return Failure(MissingRecords);
    }
    var rs := event.records.value;
    ghost var f := Importer(s, config);
    ghost var objects0, log0 := out.objects, out.log;
    for i := 0 to |rs|
      invariant AllPut(f, rs[..i])
      invariant out.log == log0 + Puts(f, rs[..i])
      invariant out.objects == Stored(objects0, Puts(f, rs[..i]))
    {
      ghost var objects1, log1 := out.objects, out.log;
      var recordResult := ImportRecord(out, s, config, i, rs[i]);
      if recordResult.Failure? {
        PutCountAt(f, rs, i);
        return recordResult;
      }
      PutsAdvance(f, rs, i, objects0, log0, objects1, log1, out.objects, out.log);
    }
    assert rs[..|rs|] == rs;
    return Success(());
  }
}
