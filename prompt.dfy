/**
 * The text plumbing both RAG variants share around the language model: the prompt template
 * and `build_llm_query`, the joining of the model's outputs in `get_llm_query_response_text`,
 * and the document text of `get_document_text` / `get_file_text`.
 */
module Prompt {
  import opened Wrappers
  import opened Strings
  import opened Formatting

  // The fixed text before the query, in pieces short enough to check one at a time.
  const PREAMBLE_1: seq<Plain> := "\nYou are a friendly "
  const PREAMBLE_2: seq<Plain> := "AI-Bot and answer "
  const PREAMBLE_3: seq<Plain> := "queries about any "
  const PREAMBLE_4: seq<Plain> := "topic within your "
  const PREAMBLE_5: seq<Plain> := "knowledge and "
  const PREAMBLE_6: seq<Plain> := "particularly within "
  const PREAMBLE_7: seq<Plain> := "your context.\nYour "
  const PREAMBLE_8: seq<Plain> := "answers are as "
  const PREAMBLE_9: seq<Plain> := "exact and brief as "
  const PREAMBLE_10: seq<Plain> := "possible.\nIn case "
  const PREAMBLE_11: seq<Plain> := "you are not able to "
  const PREAMBLE_12: seq<Plain> := "answer a query, you "
  const PREAMBLE_13: seq<Plain> := "clearly state that "
  const PREAMBLE_14: seq<Plain> := "you do not know the "
  const PREAMBLE_15: seq<Plain> := "answer.\n\nAnswer the "
  const PREAMBLE_16: seq<Plain> := "following query by "
  const PREAMBLE_17: seq<Plain> := "summarizing "
  const PREAMBLE_18: seq<Plain> := "information within "
  const PREAMBLE_19: seq<Plain> := "your context:\n"

  /** The fixed text before the query. */
  const PREAMBLE: seq<Plain> :=
    PREAMBLE_1 + PREAMBLE_2 + PREAMBLE_3 + PREAMBLE_4 + PREAMBLE_5 +
    PREAMBLE_6 + PREAMBLE_7 + PREAMBLE_8 + PREAMBLE_9 + PREAMBLE_10 +
    PREAMBLE_11 + PREAMBLE_12 + PREAMBLE_13 + PREAMBLE_14 + PREAMBLE_15 +
    PREAMBLE_16 + PREAMBLE_17 + PREAMBLE_18 + PREAMBLE_19

  /** The fixed text between the query and the documents. */
  const BETWEEN_1: seq<Plain> := "\n\nYou can use the "
  const BETWEEN_2: seq<Plain> := "following "
  const BETWEEN_3: seq<Plain> := "information to "
  const BETWEEN_4: seq<Plain> := "answer the query:\n"
  const BETWEEN: seq<Plain> := BETWEEN_1 + BETWEEN_2 + BETWEEN_3 + BETWEEN_4

  const TRAILER: seq<Plain> := "\n\n"

  /**
   * `LLM_RAG_QUERY_TEMPLATE`, identical in both query handlers: the fields `query` and
   * `documents`, each inside a pair of escaped braces (`{{{query}}}`).
   */
  const LLM_RAG_QUERY_TEMPLATE: string :=
    PREAMBLE + "{{{" + "query" + "}}}" + BETWEEN + "{{{" + "documents" + "}}}" + TRAILER

  /** `build_llm_query(documents, query)` */
  function BuildLlmQuery(documents: string, query: string): Result<string, FormatError> {
    Format(LLM_RAG_QUERY_TEMPLATE, map["documents" := documents, "query" := query])
  }

  /** The prompt as the text it is built from: the query, then the documents, each in literal braces. */
  function PromptText(documents: string, query: string): string {
    PREAMBLE + "{" + query + "}" + BETWEEN + "{" + documents + "}" + TRAILER
  }

  /**
   * Formatting never fails and inserts both arguments verbatim: the query after the preamble,
   * the documents after the fixed middle text, each wrapped in one pair of braces.
   */
  lemma BuildLlmQueryLayout(documents: string, query: string)
    ensures BuildLlmQuery(documents, query) == Success(PromptText(documents, query))
  {
    var args := map["documents" := documents, "query" := query];
    FormatTwoBracedFields(PREAMBLE, "query", BETWEEN, "documents", TRAILER, args);
    assert args["query"] == query && args["documents"] == documents;
  }

  /** The query and the documents can be read back from the prompt at fixed offsets. */
  lemma PromptReadsBack(documents: string, query: string)
    ensures var r, q0 := PromptText(documents, query), |PREAMBLE| + 1;
      && r[..|PREAMBLE|] == PREAMBLE
      && r[q0..q0 + |query|] == query
      && r[|r| - |TRAILER| - 1 - |documents|..|r| - |TRAILER| - 1] == documents
  {
    FieldsAtOffsets(PREAMBLE, query, BETWEEN, documents, TRAILER);
  }

  lemma FieldsAtOffsets(pre: string, first: string, mid: string, second: string, post: string)
    ensures var r, q0 := pre + "{" + first + "}" + mid + "{" + second + "}" + post, |pre| + 1;
      && r[..|pre|] == pre
      && r[q0..q0 + |first|] == first
      && r[|r| - |post| - 1 - |second|..|r| - |post| - 1] == second
  {
    var r, q0 := pre + "{" + first + "}" + mid + "{" + second + "}" + post, |pre| + 1;
    var dEnd := |r| - |post| - 1;
    assert r[q0..q0 + |first|] == first by {
      assert forall i :: 0 <= i < |first| ==> r[q0 + i] == first[i];
    }
    assert r[dEnd - |second|..dEnd] == second by {
      assert forall i :: 0 <= i < |second| ==> r[dEnd - |second| + i] == second[i];
    }
  }

  /** Different queries of one length, or different document texts, give different prompts. */
  lemma PromptInjective(d1: string, q1: string, d2: string, q2: string)
    requires |q1| == |q2|
    requires PromptText(d1, q1) == PromptText(d2, q2)
    ensures d1 == d2 && q1 == q2
  {
    PromptReadsBack(d1, q1);
    PromptReadsBack(d2, q2);
    assert |d1| == |d2|;
  }

  /** The body sent to the model: `{"inputText": ..., "textGenerationConfig": {"maxTokenCount": ...}}`. */
  datatype LlmRequest = LlmRequest(inputText: string, maxTokenCount: int)

  /**
   * The `outputText` of each item of the model's `results`, or `None` when an item has no such
   * key (the `KeyError` of `item["outputText"]`).
   */
  function OutputTexts(results: seq<map<string, string>>): (r: Option<seq<string>>)
    ensures r.Some? <==> forall k :: 0 <= k < |results| ==> "outputText" in results[k]
    ensures r.Some? ==>
      && |r.value| == |results|
      && forall k :: 0 <= k < |results| ==> r.value[k] == results[k]["outputText"]
  {
    if results == [] then Some([])
    else if "outputText" !in results[0] then None
    else
      var rest := OutputTexts(results[1..]);
      if rest.None? then None else Some([results[0]["outputText"]] + rest.value)
  }

  /**
   * `get_llm_query_response_text`: the output texts joined by single spaces. `results` is the
   * answer's `results` entry, `None` when the answer has none.
   */
  function ResponseText(results: Option<seq<map<string, string>>>): Option<string> {
    if results.None? then None
    else
      var outputs := OutputTexts(results.value);
      if outputs.None? then None else Some(Join(" ", outputs.value))
  }

  /**
   * The answer text fails exactly on a missing key; when no output contains a space, splitting
   * the answer at spaces gives back the outputs.
   */
  lemma ResponseTextSplits(results: Option<seq<map<string, string>>>)
    ensures ResponseText(results).Some? <==>
      results.Some? && forall k :: 0 <= k < |results.value| ==> "outputText" in results.value[k]
    ensures ResponseText(results).Some? && |results.value| >= 1
      && (forall k :: 0 <= k < |results.value| ==> ' ' !in results.value[k]["outputText"])
      ==> Split(ResponseText(results).value, ' ') == OutputTexts(results.value).value
  {
    if results.Some? && OutputTexts(results.value).Some? {
      var outputs := OutputTexts(results.value).value;
      if |outputs| >= 1 && forall k :: 0 <= k < |outputs| ==> ' ' !in outputs[k] {
        assert [' '] == " ";
        JoinSplit(outputs, ' ');
      }
    }
  }

  /** The answer is as long as the outputs plus one space between each two of them. */
  lemma ResponseTextLength(results: seq<map<string, string>>)
    requires |results| >= 1 && OutputTexts(results).Some?
    ensures |ResponseText(Some(results)).value| == TotalLength(OutputTexts(results).value) + |results| - 1
  {
    JoinLength(" ", OutputTexts(results).value);
  }

  /**
   * `get_document_text` / `get_file_text`. Text formats are decoded as they are; any other
   * format is opened as a document and its pages' texts are joined by a blank line. `decode`
   * and `pages` stand for `bytes.decode` and the PDF library, `None` when they raise.
   */
  function DocumentText(
    blob: seq<bv8>, filetype: Option<string>,
    decode: seq<bv8> -> Option<string>, pages: (seq<bv8>, Option<string>) -> Option<seq<string>>)
    : Option<string>
  {
    if filetype == Some("txt") || filetype == Some("md") then decode(blob)
    else
      var texts := pages(blob, filetype);
      if texts.None? then None else Some(Join("\n\n", texts.value))
  }

  /**
   * Text formats never reach the document reader; for other formats the text holds every
   * page and one blank line between each two pages, and a document without pages gives "".
   */
  lemma DocumentTextShape(
    blob: seq<bv8>, filetype: Option<string>,
    decode: seq<bv8> -> Option<string>, pages: (seq<bv8>, Option<string>) -> Option<seq<string>>)
    ensures filetype == Some("txt") || filetype == Some("md") ==> DocumentText(blob, filetype, decode, pages) == decode(blob)
    ensures !(filetype == Some("txt") || filetype == Some("md")) ==>
      (DocumentText(blob, filetype, decode, pages).Some? <==> pages(blob, filetype).Some?)
    ensures !(filetype == Some("txt") || filetype == Some("md")) && pages(blob, filetype) == Some([]) ==>
      DocumentText(blob, filetype, decode, pages) == Some("")
    ensures (!(filetype == Some("txt") || filetype == Some("md")) && pages(blob, filetype).Some?
             && |pages(blob, filetype).value| >= 1) ==>
      |DocumentText(blob, filetype, decode, pages).value|
        == TotalLength(pages(blob, filetype).value) + 2 * (|pages(blob, filetype).value| - 1)
  {
    if !(filetype == Some("txt") || filetype == Some("md")) && pages(blob, filetype).Some?
      && |pages(blob, filetype).value| >= 1 {
      JoinLength("\n\n", pages(blob, filetype).value);
    }
  }
}
