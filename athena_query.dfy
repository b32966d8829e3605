/**
 * The query handler of the Athena variant: the SQL statement that scores the stored chunks by
 * the Hamming distance of their locality-sensitive hashes, what that statement selects, the
 * joining of the selected texts, the fallback context and the request to the language model.
 * The hasher, the Athena engine and the model are parameters; the engine's answer is given by
 * the reference semantics `RankChunks`.
 */
module AthenaQuery {
  import opened Wrappers
  import opened Strings
  import opened Sorting
  import opened Formatting
  import opened ChunkRecords
  import opened Prompt

  /** `TOP_N_DOCUMENTS` and `QUERY_SCORE_THRESHOLD` when the environment does not set them. */
  const TOP_N_DOCUMENTS: int := 10
  const QUERY_SCORE_THRESHOLD: int := 60

  /** The context used when no chunk text was found. */
  const NO_INFORMATION: string := "not enough information available"

  // `ATHENA_DOCUMENTS_QUERY_TEMPLATE`, in pieces short enough to check one at a time.
  const SQL_1: seq<Plain> := "\nWITH "
  const SQL_2: seq<Plain> := "scored_documents AS "
  const SQL_3: seq<Plain> := "(\n    "
  const SQL_4: seq<Plain> := "SELECT\n        "
  const SQL_5: seq<Plain> := "\"uuid\", \"start\", "
  const SQL_6: seq<Plain> := "\"end\", "
  const SQL_7: seq<Plain> := "start_unique, "
  const SQL_8: seq<Plain> := "end_unique, lsh, "
  const SQL_9: seq<Plain> := "document_id, "
  const SQL_10: seq<Plain> := "\"text\",\n        "
  const SQL_11: seq<Plain> := "(length(lsh) - "
  const SQL_12: seq<Plain> := "hamming_distance(lsh"
  const SQL_13: seq<Plain> := ", '"
  const SQL_14: seq<Plain> := "')) * 100.0 / "
  const SQL_15: seq<Plain> := "length(lsh) "
  const SQL_16: seq<Plain> := "score\n    "
  const SQL_17: seq<Plain> := "FROM\n        "
  const SQL_18: seq<Plain> := "\"awsdatacatalog\".\""
  const SQL_19: seq<Plain> := "\"\n)\n\nSELECT * FROM "
  const SQL_20: seq<Plain> := "scored_documents\n"
  const SQL_21: seq<Plain> := "WHERE\n    score >= "
  const SQL_22: seq<Plain> := "\nORDER BY score "
  const SQL_23: seq<Plain> := "DESC\nLIMIT "

  const BEFORE_LSH: seq<Plain> := SQL_1 + SQL_2 + SQL_3 + SQL_4 + SQL_5 + SQL_6 + SQL_7 + SQL_8 + SQL_9 + SQL_10 + SQL_11 + SQL_12 + SQL_13
  const BEFORE_DATABASE: seq<Plain> := SQL_14 + SQL_15 + SQL_16 + SQL_17 + SQL_18
  const AFTER_DATABASE: seq<Plain> := "\".\""
  const BEFORE_THRESHOLD: seq<Plain> := SQL_19 + SQL_20 + SQL_21
  const BEFORE_LIMIT: seq<Plain> := SQL_22 + SQL_23
  const AFTER_LIMIT: seq<Plain> := "\n"

  const ATHENA_DOCUMENTS_QUERY_TEMPLATE: string :=
    BEFORE_LSH + ("{" + "query_lsh" + "}" + (BEFORE_DATABASE + ("{" + "athena_database" + "}" + STATEMENT_TAIL)))

  /** `str` of a value that may be `None`, as `format` renders an unset environment variable. */
  function PyStr(value: Option<string>): (r: string)
    ensures value.Some? ==> r == value.value
  {
    if value.Some? then value.value else "None"
  }

  /** `get_athena_documents_query(query_lsh, score_threshold, top_n_documents, athena_database, athena_table)` */
  function GetAthenaDocumentsQuery(
    queryLsh: string, scoreThreshold: int, topN: int, database: Option<string>, table: string)
    : Result<string, FormatError>
  {
    Format(ATHENA_DOCUMENTS_QUERY_TEMPLATE, map[
      "query_lsh" := queryLsh,
      "score_threshold" := IntToDecimal(scoreThreshold),
      "top_n_documents" := IntToDecimal(topN),
      "athena_table" := table,
      "athena_database" := PyStr(database)])
  }

  /** The statement with its five values in place. */
  function SqlText(queryLsh: string, threshold: string, topN: string, database: string, table: string): string {
    BEFORE_LSH + (queryLsh + (BEFORE_DATABASE + (database + (AFTER_DATABASE + (table +
      (BEFORE_THRESHOLD + (threshold + (BEFORE_LIMIT + (topN + AFTER_LIMIT)))))))))
  }

  /**
   * Formatting the statement never fails, and the hash, the threshold, the limit, the database
   * and the table are inserted verbatim, without quoting or escaping.
   */
  lemma AthenaQueryVerbatim(queryLsh: string, scoreThreshold: int, topN: int, database: Option<string>, table: string)
    ensures GetAthenaDocumentsQuery(queryLsh, scoreThreshold, topN, database, table)
      == Success(SqlText(queryLsh, IntToDecimal(scoreThreshold), IntToDecimal(topN), PyStr(database), table))
  {
    var args := map[
      "query_lsh" := queryLsh,
      "score_threshold" := IntToDecimal(scoreThreshold),
      "top_n_documents" := IntToDecimal(topN),
      "athena_table" := table,
      "athena_database" := PyStr(database)];
    assert args["query_lsh"] == queryLsh && args["athena_database"] == PyStr(database);
    assert args["athena_table"] == table && args["score_threshold"] == IntToDecimal(scoreThreshold);
    assert args["top_n_documents"] == IntToDecimal(topN);
    StatementTailFormats(args);
    FormatTwoFieldsThen(BEFORE_LSH, "query_lsh", BEFORE_DATABASE, "athena_database", STATEMENT_TAIL, args);
  }

  /** An unset `ATHENA_DATABASE` is formatted as the text `None`, exactly as a database of that name. */
  lemma UnsetDatabaseReadsNone(queryLsh: string, scoreThreshold: int, topN: int, table: string)
    ensures GetAthenaDocumentsQuery(queryLsh, scoreThreshold, topN, None, table)
      == GetAthenaDocumentsQuery(queryLsh, scoreThreshold, topN, Some("None"), table)
      == Success(SqlText(queryLsh, IntToDecimal(scoreThreshold), IntToDecimal(topN), "None", table))
  {
    AthenaQueryVerbatim(queryLsh, scoreThreshold, topN, None, table);
    AthenaQueryVerbatim(queryLsh, scoreThreshold, topN, Some("None"), table);
  }

  /** The template after the database name. */
  const STATEMENT_TAIL: string :=
    AFTER_DATABASE + ("{" + "athena_table" + "}" + (BEFORE_THRESHOLD + ("{" + "score_threshold" + "}" + (BEFORE_LIMIT + ("{" + "top_n_documents" + "}" + AFTER_LIMIT)))))

  /** The part of the statement after the database name. */
  lemma StatementTailFormats(args: map<string, string>)
    requires "athena_table" in args && "score_threshold" in args && "top_n_documents" in args
    ensures Format(STATEMENT_TAIL, args)
      == Success(AFTER_DATABASE + (args["athena_table"] + (BEFORE_THRESHOLD + (args["score_threshold"] + (BEFORE_LIMIT + (args["top_n_documents"] + AFTER_LIMIT))))))
  {
    FormatThreeFields(AFTER_DATABASE, "athena_table", BEFORE_THRESHOLD, "score_threshold", BEFORE_LIMIT, "top_n_documents", AFTER_LIMIT, args);
  }

  /** `hamming_distance(a, b)`: the number of positions at which two equally long codes differ. */
  function Hamming(a: string, b: string): (h: nat)
    requires |a| == |b|
    ensures h <= |a|
  {
    if a == [] then 0 else (if a[0] != b[0] then 1 else 0) + Hamming(a[1..], b[1..])
  }

  /** The distance is zero exactly for identical codes. */
  lemma {:induction false} HammingZeroIff(a: string, b: string)
    requires |a| == |b|
    ensures Hamming(a, b) == 0 <==> a == b
  {
    if a != [] {
      HammingZeroIff(a[1..], b[1..]);
      if a[0] == b[0] && a[1..] == b[1..] {
        assert a == [a[0]] + a[1..] && b == [b[0]] + b[1..];
      }
    }
  }

  lemma {:induction false} HammingSymmetric(a: string, b: string)
    requires |a| == |b|
    ensures Hamming(a, b) == Hamming(b, a)
  {
    if a != [] {
      HammingSymmetric(a[1..], b[1..]);
    }
  }

  /** `(length(lsh) - hamming_distance(lsh, q)) * 100.0 / length(lsh)`, with exact division. */
  function Score(len: nat, h: nat): real
    requires 0 < len && h <= len
  {
    (len - h) as real * 100.0 / len as real
  }

  /** Every score lies in [0, 100]; it is 100 exactly at distance 0 and 0 exactly at full distance. */
  lemma ScoreBounds(len: nat, h: nat)
    requires 0 < len && h <= len
    ensures 0.0 <= Score(len, h) <= 100.0
    ensures Score(len, h) == 100.0 <==> h == 0
    ensures Score(len, h) == 0.0 <==> h == len
  {
    var l := len as real;
    var s := Score(len, h);
    assert s * l == (len - h) as real * 100.0;
    assert (len - h) as real * 100.0 <= l * 100.0;
    if s == 100.0 {
      assert (len - h) as real * 100.0 == l * 100.0;
    }
  }

  /** Comparing the score with an integer threshold is the integer comparison `(L-h)*100 >= t*L`. */
  lemma ScoreAtLeastIff(len: nat, h: nat, threshold: int)
    requires 0 < len && h <= len
    ensures Score(len, h) >= threshold as real <==> (len - h) * 100 >= threshold * len
  {
    var l := len as real;
    var s := Score(len, h);
    var a, b := (len - h) * 100, threshold * len;
    assert s * l == a as real;
    assert b as real == threshold as real * l;
    ScaleByPositive(s, threshold as real, l);
    assert a >= b <==> a as real >= b as real;
  }

  /** Multiplying both sides by a positive number keeps the comparison. */
  lemma ScaleByPositive(x: real, y: real, l: real)
    requires l > 0.0
    ensures x >= y <==> x * l >= y * l
  {
    if x >= y {
      assert (x - y) * l >= 0.0;
    } else {
      assert (y - x) * l > 0.0;
    }
  }

  /** The errors the statement can raise. */
  datatype QueryError =
    | NegativeLimit   // `LIMIT -1` does not parse
    | LengthMismatch  // `hamming_distance` of codes of different lengths
    | DivisionByZero  // an empty code gives `length(lsh) = 0`

  /** One selected row: the stored chunk and its score. */
  datatype ScoredChunk = ScoredChunk(chunk: ChunkItem, score: real)

  predicate SameLength(table: seq<ChunkItem>, queryLsh: string) {
    forall i :: 0 <= i < |table| ==> |table[i].lsh| == |queryLsh|
  }

  /** The `scored_documents` view: every stored chunk with its score, in table order. */
  function Scored(table: seq<ChunkItem>, queryLsh: string): (r: seq<ScoredChunk>)
    requires SameLength(table, queryLsh) && |queryLsh| > 0
    ensures |r| == |table|
    ensures forall i :: 0 <= i < |r| ==>
      r[i] == ScoredChunk(table[i], Score(|queryLsh|, Hamming(table[i].lsh, queryLsh)))
  {
    seq(|table|, i requires 0 <= i < |table| =>
      ScoredChunk(table[i], Score(|queryLsh|, Hamming(table[i].lsh, queryLsh))))
  }

  /** `ORDER BY score DESC` as an ascending order on the negated score. */
  function NegScore(row: ScoredChunk): real {
    -row.score
  }

  /** The largest negated score a row may have and still pass `score >= threshold`. */
  function Cutoff(threshold: int): real {
    -(threshold as real)
  }

  /** `WHERE score >= threshold` */
  function Qualifies(threshold: int): ScoredChunk -> bool {
    KeyAtMost(NegScore, Cutoff(threshold))
  }

  /** The qualifying rows, best score first; rows of equal score keep their table order. */
  function Ranked(scored: seq<ScoredChunk>, threshold: int): seq<ScoredChunk> {
    SortBy(Filter(scored, Qualifies(threshold)), NegScore)
  }

  /**
   * What the statement returns for a table of stored chunks. The checks are in the engine's
   * order: the statement is parsed before any row is scored.
   */
  function RankChunks(table: seq<ChunkItem>, queryLsh: string, threshold: int, topN: int)
    : Result<seq<ScoredChunk>, QueryError>
  {
    if topN < 0 then Failure(NegativeLimit)
    else if !SameLength(table, queryLsh) then Failure(LengthMismatch)
    else if table == [] then Success([])
    else if |queryLsh| == 0 then Failure(DivisionByZero)
    else
      var sorted := Ranked(Scored(table, queryLsh), threshold);
      Success(sorted[..if topN < |sorted| then topN else |sorted|])
  }

  /** When the statement fails, and that an empty table yields no rows. */
  lemma RankChunksErrors(table: seq<ChunkItem>, queryLsh: string, threshold: int, topN: int)
    ensures RankChunks(table, queryLsh, threshold, topN).Failure? <==>
      topN < 0 || !SameLength(table, queryLsh) || (table != [] && |queryLsh| == 0)
    ensures topN >= 0 && table == [] ==> RankChunks(table, queryLsh, threshold, topN) == Success([])
  {
  }

  /** A ranked row is a stored chunk with its score, and that score reaches the threshold. */
  lemma RankedRow(table: seq<ChunkItem>, queryLsh: string, threshold: int, x: ScoredChunk)
    requires SameLength(table, queryLsh) && |queryLsh| > 0
    requires x in Ranked(Scored(table, queryLsh), threshold)
    ensures x.chunk in table
    ensures x.score == Score(|queryLsh|, Hamming(x.chunk.lsh, queryLsh))
    ensures x.score >= threshold as real
    ensures (|queryLsh| - Hamming(x.chunk.lsh, queryLsh)) * 100 >= threshold * |queryLsh|
  {
    var scored := Scored(table, queryLsh);
    var all := Filter(scored, Qualifies(threshold));
    assert x in multiset(Ranked(Scored(table, queryLsh), threshold));
    assert x in all;
    FilterSubset(scored, Qualifies(threshold), x);
    var k :| 0 <= k < |scored| && scored[k] == x;
    assert NegScore(x) <= Cutoff(threshold);
    ScoreAtLeastIff(|queryLsh|, Hamming(x.chunk.lsh, queryLsh), threshold);
  }

  /**
   * Every returned row is a stored chunk scoring at least the threshold (equivalently,
   * `(L-h)*100 >= t*L`); the rows come best score first; there are `min(topN, #qualifying)`
   * of them; and every qualifying row left out scores no higher than any returned row.
   */
  lemma RankChunksShape(table: seq<ChunkItem>, queryLsh: string, threshold: int, topN: int)
    requires RankChunks(table, queryLsh, threshold, topN).Success?
    requires table != []
    ensures var r := RankChunks(table, queryLsh, threshold, topN).value;
      var all := Filter(Scored(table, queryLsh), Qualifies(threshold));
      && (forall i :: 0 <= i < |r| ==>
            && r[i].chunk in table
            && r[i].score >= threshold as real
            && r[i].score == Score(|queryLsh|, Hamming(r[i].chunk.lsh, queryLsh))
            && (|queryLsh| - Hamming(r[i].chunk.lsh, queryLsh)) * 100 >= threshold * |queryLsh|)
      && (forall i, j :: 0 <= i < j < |r| ==> r[i].score >= r[j].score)
      && |r| == (if topN < |all| then topN else |all|)
      && exists rest: seq<ScoredChunk> ::
           && multiset(r) + multiset(rest) == multiset(all)
           && forall x, y :: x in rest && y in r ==> x.score <= y.score
  {
    var all := Filter(Scored(table, queryLsh), Qualifies(threshold));
    var sorted := Ranked(Scored(table, queryLsh), threshold);
    assert multiset(sorted) == multiset(all) && |sorted| == |all|;
    var n := if topN < |sorted| then topN else |sorted|;
    var r := sorted[..n];
    assert RankChunks(table, queryLsh, threshold, topN).value == r;
    RankedPrefixRows(table, queryLsh, threshold, n);
    RankedOrder(sorted, n);
    assert multiset(r) + multiset(sorted[n..]) == multiset(all);
  }

  lemma RankedPrefixRows(table: seq<ChunkItem>, queryLsh: string, threshold: int, n: nat)
    requires SameLength(table, queryLsh) && |queryLsh| > 0
    requires n <= |Ranked(Scored(table, queryLsh), threshold)|
    ensures var r := Ranked(Scored(table, queryLsh), threshold)[..n];
      forall i :: 0 <= i < |r| ==>
        && r[i].chunk in table
        && r[i].score >= threshold as real
        && r[i].score == Score(|queryLsh|, Hamming(r[i].chunk.lsh, queryLsh))
        && (|queryLsh| - Hamming(r[i].chunk.lsh, queryLsh)) * 100 >= threshold * |queryLsh|
  {
    var sorted := Ranked(Scored(table, queryLsh), threshold);
    forall i | 0 <= i < n
      ensures sorted[..n][i].chunk in table
      ensures sorted[..n][i].score >= threshold as real
      ensures sorted[..n][i].score == Score(|queryLsh|, Hamming(sorted[..n][i].chunk.lsh, queryLsh))
      ensures (|queryLsh| - Hamming(sorted[..n][i].chunk.lsh, queryLsh)) * 100 >= threshold * |queryLsh|
    {
      assert sorted[..n][i] == sorted[i];
      RankedRow(table, queryLsh, threshold, sorted[i]);
    }
  }

  /** The split of a best-first list after its first `n` rows. */
  lemma RankedOrder(sorted: seq<ScoredChunk>, n: nat)
    requires SortedBy(sorted, NegScore) && n <= |sorted|
    ensures forall i, j :: 0 <= i < j < n ==> sorted[..n][i].score >= sorted[..n][j].score
    ensures multiset(sorted[..n]) + multiset(sorted[n..]) == multiset(sorted)
    ensures forall x, y :: x in sorted[n..] && y in sorted[..n] ==> x.score <= y.score
  {
    assert sorted == sorted[..n] + sorted[n..];
    forall x, y | x in sorted[n..] && y in sorted[..n] ensures x.score <= y.score {
      var a :| 0 <= a < |sorted[n..]| && sorted[n..][a] == x;
      var b :| 0 <= b < n && sorted[..n][b] == y;
      assert sorted[n + a] == x && sorted[b] == y;
      assert NegScore(sorted[b]) <= NegScore(sorted[n + a]);
    }
  }

  /** A raised threshold returns a prefix of what the lower threshold returns. */
  lemma RankThresholdMonotone(table: seq<ChunkItem>, queryLsh: string, low: int, high: int, topN: int)
    requires low <= high
    requires RankChunks(table, queryLsh, low, topN).Success?
    ensures RankChunks(table, queryLsh, high, topN).Success?
    ensures var rLow, rHigh := RankChunks(table, queryLsh, low, topN).value, RankChunks(table, queryLsh, high, topN).value;
      |rHigh| <= |rLow| && rHigh == rLow[..|rHigh|]
  {
    if table != [] {
      RankedThresholdPrefix(Scored(table, queryLsh), low, high);
    }
  }

  /** Before the limit: the rows ranked at a higher threshold are a prefix of those at a lower one. */
  lemma RankedThresholdPrefix(scored: seq<ScoredChunk>, low: int, high: int)
    requires low <= high
    ensures |Ranked(scored, high)| <= |Ranked(scored, low)|
    ensures Ranked(scored, high) == Ranked(scored, low)[..|Ranked(scored, high)|]
  {
    SortedBoundPrefix(scored, NegScore, Cutoff(high), Cutoff(low));
  }

  /** A stored chunk whose code equals the query scores 100 and is returned at any threshold up to 100. */
  lemma IdenticalCodeScoresHundred(table: seq<ChunkItem>, queryLsh: string, i: nat)
    requires SameLength(table, queryLsh) && |queryLsh| > 0
    requires i < |table| && table[i].lsh == queryLsh
    ensures Scored(table, queryLsh)[i].score == 100.0
    ensures forall threshold: int :: threshold <= 100 ==> Qualifies(threshold)(Scored(table, queryLsh)[i])
  {
    HammingZeroIff(table[i].lsh, queryLsh);
    ScoreBounds(|queryLsh|, 0);
    var row := Scored(table, queryLsh)[i];
    forall threshold: int | threshold <= 100 ensures Qualifies(threshold)(row) {
      assert NegScore(row) <= Cutoff(threshold);
    }
  }

  /** `get_text_from_chunks`: the texts of the selected rows, one per line, in result order. */
  function TextFromChunks(rows: seq<ScoredChunk>): string {
    Join("\n", seq(|rows|, i requires 0 <= i < |rows| => rows[i].chunk.text))
  }

  /** When no text holds a line break, splitting the joined text at line breaks gives the texts back. */
  lemma TextFromChunksSplits(rows: seq<ScoredChunk>)
    requires |rows| >= 1
    requires forall i :: 0 <= i < |rows| ==> '\n' !in rows[i].chunk.text
    ensures Split(TextFromChunks(rows), '\n') == seq(|rows|, i requires 0 <= i < |rows| => rows[i].chunk.text)
  {
    assert ['\n'] == "\n";
    JoinSplit(seq(|rows|, i requires 0 <= i < |rows| => rows[i].chunk.text), '\n');
  }

  /** The context handed to the prompt: the joined texts, or the fallback sentence when they are empty. */
  function Context(rows: seq<ScoredChunk>): string {
    var text := TextFromChunks(rows);
    if text == "" then NO_INFORMATION else text
  }

  /** The fallback is used exactly when no row was selected or the only selected row has no text. */
  lemma ContextFallback(rows: seq<ScoredChunk>)
    ensures Context(rows) != ""
    ensures TextFromChunks(rows) == "" <==> rows == [] || (|rows| == 1 && rows[0].chunk.text == "")
    ensures TextFromChunks(rows) != "" ==> Context(rows) == TextFromChunks(rows)
  {
    var texts := seq(|rows|, i requires 0 <= i < |rows| => rows[i].chunk.text);
    JoinEmptyIff("\n", texts);
  }

  datatype HandlerError =
    | MissingQuery              // `event["query"]` raises KeyError
    | QueryFailed(e: QueryError)
    | PromptFailed(f: FormatError)
    | AnswerFailed              // the model's answer lacks `results` or an `outputText`

  /**
   * `lambda_handler(event, context)`. `lsh` is `compute_embedding_lsh`, `table` the stored chunks,
   * `llm` the model's `results` for a request, `maxTokens` the configured `MAX_TOKEN_OUTPUT`.
   * The statement is run with the default threshold and limit.
   */
  function Handler(
    event: map<string, string>, table: seq<ChunkItem>, lsh: string -> string, maxTokens: int,
    llm: LlmRequest -> Option<seq<map<string, string>>>)
    : Result<map<string, string>, HandlerError>
  {
    if "query" !in event then Failure(MissingQuery)
    else
      var query := event["query"];
      var rows := RankChunks(table, lsh(query), QUERY_SCORE_THRESHOLD, TOP_N_DOCUMENTS);
      if rows.Failure? then Failure(QueryFailed(rows.error))
      else Answer(Context(rows.value), query, maxTokens, llm)
  }

  /** The end of the handler: the prompt built from the context and the query, and the model's answer. */
  function Answer(context: string, query: string, maxTokens: int, llm: LlmRequest -> Option<seq<map<string, string>>>)
    : Result<map<string, string>, HandlerError>
  {
    var prompt := BuildLlmQuery(context, query);
    if prompt.Failure? then Failure(PromptFailed(prompt.error))
    else
      var answer := ResponseText(llm(LlmRequest(prompt.value, maxTokens)));
      if answer.None? then Failure(AnswerFailed)
      else Success(map["text" := answer.value])
  }

  /**
   * The model is asked once, with the prompt text at the given token limit; the answer is
   * `{"text": ...}` of its reply, or `AnswerFailed` when the reply has no usable outputs.
   */
  lemma AnswerAsks(context: string, query: string, maxTokens: int, llm: LlmRequest -> Option<seq<map<string, string>>>)
    ensures var reply := ResponseText(llm(LlmRequest(PromptText(context, query), maxTokens)));
      Answer(context, query, maxTokens, llm) == if reply.None? then Failure(AnswerFailed) else Success(map["text" := reply.value])
  {
    BuildLlmQueryLayout(context, query);
  }

  /**
   * The handler fails only on a missing query, a failing statement or an unusable answer; on
   * success the model was asked with the prompt holding the query and a non-empty context, at
   * the configured token limit, and the response is `{"text": answer}`.
   */
  lemma HandlerAsksWithPrompt(
    event: map<string, string>, table: seq<ChunkItem>, lsh: string -> string, maxTokens: int,
    llm: LlmRequest -> Option<seq<map<string, string>>>)
    ensures "query" !in event ==> Handler(event, table, lsh, maxTokens, llm) == Failure(MissingQuery)
    ensures "query" in event && RankChunks(table, lsh(event["query"]), QUERY_SCORE_THRESHOLD, TOP_N_DOCUMENTS).Failure? ==>
      Handler(event, table, lsh, maxTokens, llm)
        == Failure(QueryFailed(RankChunks(table, lsh(event["query"]), QUERY_SCORE_THRESHOLD, TOP_N_DOCUMENTS).error))
    ensures "query" in event && RankChunks(table, lsh(event["query"]), QUERY_SCORE_THRESHOLD, TOP_N_DOCUMENTS).Success? ==>
      var query := event["query"];
      var rows := RankChunks(table, lsh(query), QUERY_SCORE_THRESHOLD, TOP_N_DOCUMENTS).value;
      var reply := ResponseText(llm(LlmRequest(PromptText(Context(rows), query), maxTokens)));
      && Context(rows) != ""
      && Handler(event, table, lsh, maxTokens, llm)
           == if reply.None? then Failure(AnswerFailed) else Success(map["text" := reply.value])
  {
    if "query" in event && RankChunks(table, lsh(event["query"]), QUERY_SCORE_THRESHOLD, TOP_N_DOCUMENTS).Success? {
      var query := event["query"];
      var rows := RankChunks(table, lsh(query), QUERY_SCORE_THRESHOLD, TOP_N_DOCUMENTS).value;
      AnswerAsks(Context(rows), query, maxTokens, llm);
      ContextFallback(rows);
      assert Handler(event, table, lsh, maxTokens, llm) == Answer(Context(rows), query, maxTokens, llm);
    }
  }
}
