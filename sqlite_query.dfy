/**
 * The query handler of the SQLite variant: the nearest stored documents of the query's
 * embedding within a distance threshold, their texts joined and cleaned, the fallback context
 * and the request to the language model. The embedding model, the vector index's distance and
 * the language model are parameters; the database is the one `ChunkStore` describes.
 */
module SqliteQuery {
  import opened Wrappers
  import opened Strings
  import opened Sorting
  import opened Formatting
  import opened ChunkRecords
  import opened Cleaning
  import opened ChunkStore
  import opened Prompt

  /** `TOP_N_DOCUMENTS` and `MAX_DISTANCE_THRESHOLD` when the environment does not set them. */
  const TOP_N: int := 6
  const DISTANCE_THRESHOLD: int := 350

  /** `MAX_TOKEN_OUTPUT` of the configuration. */
  const MAX_TOKEN_OUTPUT: int := 1024

  /** The context used when the cleaned text is empty. */
  const NOT_ENOUGH: string := "Not enough information available."

  /** The `text` column of each result row, or `None` when one of them is not a string. */
  function RowTexts(rows: seq<ResultRow>): (r: Option<seq<string>>)
    ensures r.Some? <==> forall k :: 0 <= k < |rows| ==> rows[k].text.Str?
    ensures r.Some? ==> |r.value| == |rows| && forall k :: 0 <= k < |rows| ==> r.value[k] == rows[k].text.s
  {
    if rows == [] then Some([])
    else if !rows[0].text.Str? then None
    else
      var rest := RowTexts(rows[1..]);
      if rest.None? then None else Some([rows[0].text.s] + rest.value)
  }

  /**
   * `get_text_from_documents`: the texts one per line, cleaned of repeated blank lines. A row
   * whose text is NULL (a vector without its document) makes the join raise `TypeError`.
   */
  function TextFromDocuments(rows: seq<ResultRow>): Option<string> {
    var texts := RowTexts(rows);
    if texts.None? then None else Some(Clean(Join("\n", texts.value)))
  }

  /**
   * The documents text exists exactly when every text is a string; it is empty exactly when
   * there is no row or the only row's text is empty; it never holds three line breaks in a row;
   * and when the texts are non-empty and hold no line break, the cleaning changes nothing and
   * splitting at line breaks gives the texts back.
   */
  lemma TextFromDocumentsShape(rows: seq<ResultRow>)
    ensures TextFromDocuments(rows).Some? <==> forall k :: 0 <= k < |rows| ==> rows[k].text.Str?
    ensures TextFromDocuments(rows).Some? ==>
      && (TextFromDocuments(rows).value == "" <==> rows == [] || (|rows| == 1 && rows[0].text.s == ""))
      && NoTripleNewline(TextFromDocuments(rows).value)
    ensures TextFromDocuments(rows).Some? && |rows| >= 1
      && (forall k :: 0 <= k < |rows| ==> rows[k].text.s != "" && '\n' !in rows[k].text.s)
      ==> Split(TextFromDocuments(rows).value, '\n') == RowTexts(rows).value
  {
    var texts := RowTexts(rows);
    if texts.Some? {
      var joined := Join("\n", texts.value);
      JoinEmptyIff("\n", texts.value);
      CleanEmptyIff(joined);
      CleanNoTripleNewline(joined);
      if |rows| >= 1 && forall k :: 0 <= k < |rows| ==> rows[k].text.s != "" && '\n' !in rows[k].text.s {
        assert ['\n'] == "\n";
        JoinSplit(texts.value, '\n');
        JoinKeepsNoBreak(texts.value);
        CleanWithoutBreak(joined);
      }
    }
  }

  /** Non-empty texts without line breaks, joined by single line breaks, hold no blank line. */
  lemma {:induction false} JoinKeepsNoBreak(texts: seq<string>)
    requires forall k :: 0 <= k < |texts| ==> texts[k] != "" && '\n' !in texts[k]
    ensures !HasBreak(Join("\n", texts))
    decreases |texts|
  {
    if |texts| > 1 {
      var head := texts[0];
      var rest := Join("\n", texts[1..]);
      JoinKeepsNoBreak(texts[1..]);
      var s := head + "\n" + rest;
      assert Join("\n", texts) == s;
      assert rest[0] == texts[1][0] && rest[0] != '\n' by {
        assert texts[1] in texts;
      }
      forall i | 0 <= i < |s| - 1 ensures !(s[i] == '\n' && s[i + 1] == '\n') {
        if i < |head| {
          assert s[i] == head[i];
        } else {
          assert s[i + 1] == rest[i - |head|];
          if i > |head| {
            assert s[i] == rest[i - |head| - 1];
          }
        }
      }
    } else if |texts| == 1 {
      assert texts[0] in texts;
    }
  }

  /** The documents text, or the fallback sentence when it is empty; `None` on a non-string text. */
  function DocumentsContext(rows: seq<ResultRow>): Option<string> {
    var text := TextFromDocuments(rows);
    if text.None? then None
    else if text.value == "" then Some(NOT_ENOUGH)
    else text
  }

  /** The context is never empty and never holds three line breaks in a row; the fallback is used only for no text. */
  lemma DocumentsContextShape(rows: seq<ResultRow>)
    ensures DocumentsContext(rows).Some? <==> TextFromDocuments(rows).Some?
    ensures DocumentsContext(rows).Some? ==>
      && DocumentsContext(rows).value != ""
      && NoTripleNewline(DocumentsContext(rows).value)
      && (DocumentsContext(rows).value == NOT_ENOUGH <==>
            TextFromDocuments(rows).value == "" || TextFromDocuments(rows).value == NOT_ENOUGH)
  {
    TextFromDocumentsShape(rows);
    if DocumentsContext(rows).Some? && DocumentsContext(rows).value == NOT_ENOUGH {
      assert forall i :: 0 <= i < |NOT_ENOUGH| ==> NOT_ENOUGH[i] != '\n';
    }
  }

  datatype HandlerError =
    | MissingQuery              // `event["query"]` raises KeyError
    | NonTextDocument           // `"\n".join` meets a text that is not a string
    | PromptFailed(f: FormatError)
    | AnswerFailed              // the model's answer lacks `results` or an `outputText`

  /** The rows `query_db` returns for the query's embedding at the default limit and threshold. */
  function Matches(documents: seq<DocumentRow>, vss: seq<VssRow>, version: seq<int>, embedding: seq<real>,
                   distance: (seq<real>, seq<real>) -> real): seq<ResultRow> {
    QueryDb(documents, vss, embedding, TOP_N, DISTANCE_THRESHOLD as real, version, distance)
  }

  /**
   * `lambda_handler(event, context)` over the downloaded database (`documents`, `vss`, the
   * library's `version`). `embed` is `get_embedding`, `distance` the vector index's metric and
   * `llm` the model's `results` for a request.
   */
  function Handler(
    event: map<string, string>, documents: seq<DocumentRow>, vss: seq<VssRow>, version: seq<int>,
    embed: string -> seq<real>, distance: (seq<real>, seq<real>) -> real,
    llm: LlmRequest -> Option<seq<map<string, string>>>)
    : Result<map<string, string>, HandlerError>
  {
    if "query" !in event then Failure(MissingQuery)
    else
      var query := event["query"];
      var rows := Matches(documents, vss, version, embed(query), distance);
      var context := DocumentsContext(rows);
      if context.None? then Failure(NonTextDocument)
      else Answer(context.value, query, llm)
  }

  /** The end of the handler: the prompt built from the context and the query, and the model's answer. */
  function Answer(context: string, query: string, llm: LlmRequest -> Option<seq<map<string, string>>>)
    : Result<map<string, string>, HandlerError>
  {
    var prompt := BuildLlmQuery(context, query);
    if prompt.Failure? then Failure(PromptFailed(prompt.error))
    else
      var answer := ResponseText(llm(LlmRequest(prompt.value, MAX_TOKEN_OUTPUT)));
      if answer.None? then Failure(AnswerFailed)
      else Success(map["text" := answer.value])
  }

  /**
   * The model is asked once, with the prompt text at 1024 tokens; the answer is `{"text": ...}`
   * of its reply, or `AnswerFailed` when the reply has no usable outputs.
   */
  lemma AnswerAsks(context: string, query: string, llm: LlmRequest -> Option<seq<map<string, string>>>)
    ensures var reply := ResponseText(llm(LlmRequest(PromptText(context, query), MAX_TOKEN_OUTPUT)));
      Answer(context, query, llm) == if reply.None? then Failure(AnswerFailed) else Success(map["text" := reply.value])
  {
    BuildLlmQueryLayout(context, query);
  }

  /** At most six rows are matched, all within the distance threshold and nearest first. */
  lemma MatchesShape(documents: seq<DocumentRow>, vss: seq<VssRow>, version: seq<int>, embedding: seq<real>,
                     distance: (seq<real>, seq<real>) -> real)
    ensures var rows := Matches(documents, vss, version, embedding, distance);
      && |rows| <= TOP_N
      && (forall i :: 0 <= i < |rows| ==> rows[i].distance <= DISTANCE_THRESHOLD as real)
      && SortedBy(rows, RowDistance)
  {
    if !(TupleLess(version, [3, 41, 0]) && |vss| == 0) {
      SearchRowsShape(documents, vss, embedding, TOP_N, DISTANCE_THRESHOLD as real, distance);
    }
  }

  /**
   * The handler fails only on a missing query, a matched row without text, or an unusable
   * answer. On success the model was asked, at 1024 tokens, with the prompt holding the query
   * and the non-empty context, and the response is `{"text": answer}`.
   */
  lemma HandlerAsksWithPrompt(
    event: map<string, string>, documents: seq<DocumentRow>, vss: seq<VssRow>, version: seq<int>,
    embed: string -> seq<real>, distance: (seq<real>, seq<real>) -> real,
    llm: LlmRequest -> Option<seq<map<string, string>>>)
    ensures "query" !in event ==> Handler(event, documents, vss, version, embed, distance, llm) == Failure(MissingQuery)
    ensures "query" in event ==>
      var rows := Matches(documents, vss, version, embed(event["query"]), distance);
      var response := Handler(event, documents, vss, version, embed, distance, llm);
      (response.Failure? && response.error == NonTextDocument) <==> exists k :: 0 <= k < |rows| && !rows[k].text.Str?
    ensures "query" in event ==>
      var rows := Matches(documents, vss, version, embed(event["query"]), distance);
      var response := Handler(event, documents, vss, version, embed, distance, llm);
      DocumentsContext(rows).Some? ==>
        var reply := ResponseText(llm(LlmRequest(PromptText(DocumentsContext(rows).value, event["query"]), MAX_TOKEN_OUTPUT)));
        && DocumentsContext(rows).value != ""
        && response == if reply.None? then Failure(AnswerFailed) else Success(map["text" := reply.value])
  {
    if "query" in event {
      var query := event["query"];
      var rows := Matches(documents, vss, version, embed(query), distance);
      DocumentsContextShape(rows);
      TextFromDocumentsShape(rows);
      if DocumentsContext(rows).Some? {
        AnswerAsks(DocumentsContext(rows).value, query, llm);
      }
    }
  }
}
