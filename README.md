# Serverless RAG, SPICE capacity and RL launcher cores in Dafny

This project models three small systems:

- **The two "low-cost serverless RAG" variants.** An import Lambda reads documents from S3 and cuts their text into overlapping chunks. It then stores one record per chunk:
  - the **Athena variant** stores a locality-sensitive hash of the chunk's embedding, as one Parquet object per document;
  - the **SQLite variant** stores the embedding of the cleaned chunk in a SQLite database with a vector index (`db.py`).

  A query Lambda ranks or searches the stored chunks and joins their texts into a context. It builds the prompt for the language model and returns the model's answer.
- **The QuickSight SPICE-capacity script.** It builds one size record per dataset summary and selects the top N datasets by consumed SPICE capacity.
- **The Ray/SageMaker launcher.** It rewrites `rl.training.*` hyperparameter keys, derives the worker count from the CPU count, and routes the trial's metadata files to the model or metadata directory.

The modules follow the programs:

| module | what it models |
|---|---|
| `Chunker`, `ChunkerProperties` | `compute_text_chunks`: the loop and its closed form. Also the chunk layout, the reconstruction from unique ranges, and when that reconstruction succeeds. |
| `Cleaning` | `get_cleaned_text`, the regular expression `(\n\n *)( *\n)*` as a greedy scanner |
| `ChunkRecords` | `compute_chunks_information` and `compute_documents_information` |
| `ChunkStore` | `db.py`: the `documents` and `vss_documents` tables as a class, the saves in one transaction, and the query with its version switch |
| `Formatting`, `Prompt` | `str.format` as the templates use it; the prompt template; the joined answer of the model; the document text |
| `AthenaQuery`, `SqliteQuery` | the two query handlers |
| `S3Keys`, `Paths` | file type, object URI and `os.path.join` as the import handlers use them |
| `AthenaImport`, `SqliteImport` | the two import handlers: the output bucket as a class; the SQS/S3 nesting and its partial failures |
| `SpiceCapacity` | `get_datasets_size_infos`, `get_top_spice_capacity_datasets`, `list_top_spice_capacity_datasets` |
| `RlLauncher` | `SageMakerRayLauncher`: the counts, the default configuration, the key rewriting and the metadata routing |
| `Strings`, `Sorting`, `Wrappers` | Python's `split`, `join`, slicing, `str(int)`/`int(str)`, list comprehensions and the stable `sorted` |

Services the code calls are parameters of the model:

- the embedding model, the locality-sensitive hasher and the language model;
- `uuid4`, the clock and SHA-1;
- the document decoder, the PDF page reader and the vector index's distance;
- QuickSight's `describe_data_set`, and the directory listing `glob` sees.

An imperative loop of the source is a `method` with loop invariants, proved equal to a specification function. The properties are lemmas about that function.

**Where the documentation and the code disagree.** The docstring of `compute_text_chunks` says the unique ranges "can be used to rebuild the initial text". The code as written makes that true only in some cases:

- for an even overlap, only when no chunk but the last reaches the end of the text;
- for an odd overlap, one character is lost at every chunk boundary;
- a redundant trailing chunk repeats the tail of the text.

The model follows the code. `ChunkerProperties.RebuildCharacterization` states exactly when the rebuild succeeds. `ChunkerProperties.ConfiguredReconstruction` states it for the configured 512/128: a text rebuilds unless its length exceeds 448 and falls in the first 64 characters of a 384-character period.

## Model

| member | source | states |
|---|---|---|
| Chunker.HalfOverlap | low-cost-serverless-rag/stacks/resources/python/src/common/helpers.py:156 | `(overlap + 1) // 2` is the overlap halved and rounded up: twice it is the overlap or one more |
| Chunker.ComputeTextChunks | low-cost-serverless-rag/stacks/resources/python/src/common/helpers.py:144-170 | The loop over `range(half, len(text), size - overlap)` builds exactly the closed-form chunk list `TextChunks`. A text shorter than the overlap gives one whole-text chunk. A zero step is the `range` error. |
| Chunker.RangeLengthBounds | low-cost-serverless-rag/stacks/resources/python/src/common/helpers.py:161 | A positive-step `range(lo, hi, step)` stops at its first element that reaches `hi` |
| Chunker.NextChunk | low-cost-serverless-rag/stacks/resources/python/src/common/helpers.py:162-169 | The chunk the loop body builds for `idx = half + k*step` is the `k`-th chunk of the closed form |
| ChunkerProperties.ChunkCountCases | low-cost-serverless-rag/stacks/resources/python/src/common/helpers.py:158-161 | The cases: one chunk below the overlap, an error for equal size and overlap, nothing for a negative step, nothing for a single character at overlap 1. Otherwise the chunk count is the first `k` with `half + k*step >= len`. |
| ChunkerProperties.ChunkLayout | low-cost-serverless-rag/stacks/resources/python/src/common/helpers.py:161-169 | Chunk `k` starts at `k*step` inside the text. Its end is `start + size`, not clamped. It holds `text[start:min(end, n)]`. Its unique range is `(0, size - 2*half)`, or the whole chunk once it reaches the end. |
| ChunkerProperties.EndsIncrease | low-cost-serverless-rag/stacks/resources/python/src/common/helpers.py:161-163 | Chunk ends strictly increase |
| ChunkerProperties.ChunkStep | low-cost-serverless-rag/stacks/resources/python/src/common/helpers.py:161-162 | Consecutive chunks start exactly one step apart |
| ChunkerProperties.LastChunkAbsorbsOverlap | low-cost-serverless-rag/stacks/resources/python/src/common/helpers.py:165-168 | The last chunk always reaches the end of the text, so its unique range is the whole chunk |
| ChunkerProperties.ChunksTile | low-cost-serverless-rag/stacks/resources/python/src/common/helpers.py:161-169 | The chunks of a text at least as long as the overlap form a tiling: shaped chunks one step apart, the first at 0, the last reaching the end |
| ChunkerProperties.EmptyWhenNoChunks | low-cost-serverless-rag/stacks/resources/python/src/common/helpers.py:158-161 | With an even overlap and a positive step, no chunk is produced only for the empty text |
| ChunkerProperties.RebuildExact | low-cost-serverless-rag/stacks/resources/python/src/common/helpers.py:147-169 | Even overlap, and no chunk but the last reaches the end: concatenating the unique parts gives the text back |
| ChunkerProperties.RebuildTooLong | low-cost-serverless-rag/stacks/resources/python/src/common/helpers.py:165-168 | Even overlap with a redundant trailing chunk: the rebuilt text is longer than the text |
| ChunkerProperties.RebuildLosesOnePerBoundary | low-cost-serverless-rag/stacks/resources/python/src/common/helpers.py:156-168 | Odd overlap without a redundant trailing chunk: the rebuilt text has `len(text) - (chunks - 1)` characters, one lost per chunk boundary |
| ChunkerProperties.RebuildCharacterization | low-cost-serverless-rag/stacks/resources/python/src/common/helpers.py:147-170 | When the unique parts rebuild the text. Below the overlap: always. Even overlap: if and only if there is no redundant trailing chunk. Odd overlap without one: if and only if there is a single chunk. |
| ChunkerProperties.OddOverlapLosesCharacter | low-cost-serverless-rag/stacks/resources/python/src/common/helpers.py:156-166 | Example on concrete inputs (general rule: `RebuildCharacterization`). `"abcd"` with size 3 and overlap 1 rebuilds to `"acd"` |
| ChunkerProperties.TrailingChunkRepeatsTail | low-cost-serverless-rag/stacks/resources/python/src/common/helpers.py:161-168 | Example on concrete inputs (general rule: `RebuildCharacterization`). With 512/128, a 500-character text rebuilds to the text plus its last 116 characters again |
| ChunkerProperties.ConfiguredRedundancy | low-cost-serverless-rag-sqlite/stacks/resources/python/src/common/config.py:20-23 | With the configured 512/128, a redundant trailing chunk appears if and only if the length exceeds 448 and `(len - 449) % 384 < 64` |
| ChunkerProperties.ConfiguredReconstruction | low-cost-serverless-rag/stacks/resources/python/src/common/helpers.py:147-152 | With the configured 512/128, the text is rebuilt if and only if it is not in that set of lengths |
| Cleaning.MatchLength | low-cost-serverless-rag-sqlite/stacks/resources/python/src/common/helpers.py:33 | A match at a blank line is at least the two newlines and stops before a newline |
| Cleaning.MatchIsLongest | low-cost-serverless-rag-sqlite/stacks/resources/python/src/common/helpers.py:33 | The scanner's match is in the language of `(\n\n *)( *\n)*`, and no longer prefix is (greedy matching) |
| Cleaning.CleanHead | low-cost-serverless-rag-sqlite/stacks/resources/python/src/common/helpers.py:29-33 | The first character survives cleaning |
| Cleaning.CleanShortens | low-cost-serverless-rag-sqlite/stacks/resources/python/src/common/helpers.py:29-33 | Cleaning never lengthens the text |
| Cleaning.CleanEmptyIff | low-cost-serverless-rag-sqlite/stacks/resources/python/src/common/helpers.py:29-33 | The cleaned text is empty if and only if the text is |
| Cleaning.CleanWithoutBreak | low-cost-serverless-rag-sqlite/stacks/resources/python/src/common/helpers.py:29-33 | A text without `"\n\n"` is unchanged |
| Cleaning.CleanKeepsLeadingBreak | low-cost-serverless-rag-sqlite/stacks/resources/python/src/common/helpers.py:29-33 | The cleaned text starts with a blank line if and only if the text does |
| Cleaning.CleanNoTripleNewline | low-cost-serverless-rag-sqlite/stacks/resources/python/src/common/helpers.py:31-33 | "Reduces consecutive new lines": no three newlines in a row remain |
| Cleaning.CleanNotIdempotent | low-cost-serverless-rag-sqlite/stacks/resources/python/src/common/helpers.py:33 | A second pass can still change the text: `"\n\n\n  x"` cleans to `"\n\n  x"`, which cleans to `"\n\nx"` |
| Cleaning.FirstMatch | low-cost-serverless-rag-sqlite/stacks/resources/python/src/common/helpers.py:33 | Example on concrete inputs (general rule: `MatchIsLongest`). In `"\n\n\n  x"` the match is the three newlines |
| Cleaning.SecondMatch | low-cost-serverless-rag-sqlite/stacks/resources/python/src/common/helpers.py:33 | Example on concrete inputs (general rule: `MatchIsLongest`). In `"\n\n  x"` the match takes the spaces |
| ChunkRecords.DocumentItem.AsDict | low-cost-serverless-rag-sqlite/stacks/resources/python/src/common/helpers.py:140-149 | The item dictionary has exactly the eight keys, carrying the text, the timestamp and the embedding |
| ChunkRecords.ChunkItems | low-cost-serverless-rag/stacks/resources/python/src/common/helpers.py:193-210 | One item per chunk in chunk order. Each copies the chunk's positions and text and gets the `k`-th uuid, the common timestamp, the document id, and the hash of its text's embedding. |
| ChunkRecords.BuildChunkItems | low-cost-serverless-rag/stacks/resources/python/src/common/helpers.py:194-209 | The loop builds exactly `ChunkItems` |
| ChunkRecords.ComputeChunksInformation | low-cost-serverless-rag/stacks/resources/python/src/common/helpers.py:173-210 | The result is the items of the text's chunks, stamped once; a chunking error propagates |
| ChunkRecords.BuildDocumentItems | low-cost-serverless-rag-sqlite/stacks/resources/python/src/common/helpers.py:135-150 | The loop builds exactly `DocumentItems` |
| ChunkRecords.ComputeDocumentsInformation | low-cost-serverless-rag-sqlite/stacks/resources/python/src/common/helpers.py:115-151 | The result is the items of the text's chunks at the configured size and overlap, stamped once |
| ChunkRecords.ItemsAgree | low-cost-serverless-rag-sqlite/stacks/resources/python/src/common/helpers.py:135-149 | Both variants record the same positions, texts, ids and timestamps. The SQLite embedding is of the cleaned text, the Athena hash of the raw text. |
| ChunkStore.Store.constructor | low-cost-serverless-rag-sqlite/stacks/resources/python/src/common/db.py:94-103 | `initialize_db`: empty tables, counter at 0, consistent |
| ChunkStore.Store.SaveDocument | low-cost-serverless-rag-sqlite/stacks/resources/python/src/common/db.py:183-201 | Fails, with the first error, if and only if the dictionary cannot be saved: no embedding, no `text`, a `text` or own `timestamp` sqlite3 cannot bind (a list), or an embedding that is not a vector of the index's dimension. Without an embedding, or with unbindable parameters, nothing changes. Otherwise the `documents` row gets the next id, with the clock's reading when the dictionary has no timestamp; the index row is added under the same id only when the embedding fits. The result is `True` on success. |
| ChunkStore.Store.SaveDocuments | low-cost-serverless-rag-sqlite/stacks/resources/python/src/common/db.py:204-217 | One transaction. Either every dictionary is saved under consecutive ids, or the first unsaveable one's error is raised (a list-valued `text` or `timestamp` among them) and all three fields are rolled back. Consistency is preserved. |
| ChunkStore.SaveErrorOf | low-cost-serverless-rag-sqlite/stacks/resources/python/src/common/db.py:190-199 | The error raised first: a missing `embedding` (the `pop`), then a missing `text` or an unbindable `text`/`timestamp` (binding the `documents` insert), then a refused embedding (the index insert) |
| ChunkStore.FirstUnsaveable | low-cost-serverless-rag-sqlite/stacks/resources/python/src/common/db.py:210-217 | The loop stops at the first dictionary that cannot be saved, after a saveable prefix |
| ChunkStore.BatchKeepsConsistent | low-cost-serverless-rag-sqlite/stacks/resources/python/src/common/db.py:15-31 | Appending a saveable batch under the ids after the counter keeps the tables consistent: autoincrement ids, and the index rowid equal to the document id |
| ChunkStore.TupleLessIsLexicographic | low-cost-serverless-rag-sqlite/stacks/resources/python/src/common/db.py:167 | Python's tuple `<` is lexicographic order with a proper prefix smaller |
| ChunkStore.VersionDispatchExamples | low-cost-serverless-rag-sqlite/stacks/resources/python/src/common/db.py:89-167 | Example on concrete inputs (general rule: `TupleLessIsLexicographic`). 3.40.1 and 3.41 take the older path; 3.41.0, 3.45.3 and 4.0 do not |
| ChunkStore.FindDocument | low-cost-serverless-rag-sqlite/stacks/resources/python/src/common/db.py:77 | The joined document row has the matched id, or no row has it |
| ChunkStore.JoinedSorted | low-cost-serverless-rag-sqlite/stacks/resources/python/src/common/db.py:62-77 | The joined rows keep the ascending distance order of the search |
| ChunkStore.SearchRowsShape | low-cost-serverless-rag-sqlite/stacks/resources/python/src/common/db.py:61-81 | The result is the matched rows within the threshold, a prefix of the matches, in ascending distance (the outer `ORDER BY` changes nothing), at most `top_n` of them |
| ChunkStore.ThresholdMonotone | low-cost-serverless-rag-sqlite/stacks/resources/python/src/common/db.py:78-80 | A lower threshold returns a prefix of a higher threshold's result, namely that result cut at the lower threshold |
| ChunkStore.EmptyIndexFindsNothing | low-cost-serverless-rag-sqlite/stacks/resources/python/src/common/db.py:130-139 | On an empty index, both version paths return no row |
| ChunkStore.Store.Query | low-cost-serverless-rag-sqlite/stacks/resources/python/src/common/db.py:161-180 | `query_db` returns `QueryDb` of the current tables: at most `top_n` rows, within the threshold, in ascending distance; on consistent tables every row is a stored document, never the all-NULL row of a missed join |
| ChunkStore.ConsistentJoinFinds | low-cost-serverless-rag-sqlite/stacks/resources/python/src/common/db.py:62-77 | When every index row has its document under the same id, the left join never misses: each returned row carries a stored document's id, text and timestamp |
| Formatting.FormatLiteral | low-cost-serverless-rag/stacks/resources/python/src/lambda_query/index.py:82-88 | `str.format` copies text without braces |
| Formatting.FormatEscapes | low-cost-serverless-rag/stacks/resources/python/src/lambda_query/index.py:97 | `{{` and `}}` give one brace each |
| Formatting.FormatField | low-cost-serverless-rag/stacks/resources/python/src/lambda_query/index.py:82-88 | A field is replaced by its argument verbatim |
| Formatting.FormatBracedField | low-cost-serverless-rag/stacks/resources/python/src/lambda_query/index.py:97 | `{{{name}}}` puts the argument between literal braces |
| Formatting.FormatTwoBracedFields | low-cost-serverless-rag/stacks/resources/python/src/lambda_query/index.py:91-106 | A template with two such fields formats to its text with both arguments inserted |
| Formatting.FormatThreeFields | low-cost-serverless-rag/stacks/resources/python/src/lambda_query/index.py:63-70 | Three fields, each between plain texts, are each replaced by their argument |
| Prompt.BuildLlmQueryLayout | low-cost-serverless-rag/stacks/resources/python/src/lambda_query/index.py:91-106 | `build_llm_query` never fails. It places the query and the documents verbatim, each in one pair of braces, after the fixed texts. |
| Prompt.PromptReadsBack | low-cost-serverless-rag-sqlite/stacks/resources/python/src/lambda_query/index.py:63-78 | The preamble, the query and the documents can be read back at fixed offsets |
| Prompt.PromptInjective | low-cost-serverless-rag/stacks/resources/python/src/lambda_query/index.py:91-106 | Equal prompts from equally long queries have the same query and the same documents |
| Prompt.OutputTexts | low-cost-serverless-rag/stacks/resources/python/src/common/helpers.py:132 | `item["outputText"]` of every result, or a `KeyError` when one lacks it |
| Prompt.ResponseTextSplits | low-cost-serverless-rag/stacks/resources/python/src/common/helpers.py:128-133 | The answer exists if and only if every result has `outputText`. Without spaces in the outputs, splitting the answer at spaces gives them back. |
| Prompt.ResponseTextLength | low-cost-serverless-rag/stacks/resources/python/src/common/helpers.py:132 | The answer is the outputs plus one space between each two |
| Prompt.DocumentTextShape | low-cost-serverless-rag/stacks/resources/python/src/common/helpers.py:34-43 | `txt` and `md` are decoded. Any other type is read page by page, pages joined by one blank line; no pages give `""`, and a failing reader fails. |
| AthenaQuery.AthenaQueryVerbatim | low-cost-serverless-rag/stacks/resources/python/src/lambda_query/index.py:57-88 | The statement always formats. The hash, threshold, limit, database and table are inserted verbatim, with no quoting or escaping. |
| AthenaQuery.UnsetDatabaseReadsNone | low-cost-serverless-rag/stacks/resources/python/src/lambda_query/index.py:48 | An unset `ATHENA_DATABASE` is formatted as the text `None`: the statement is the one for a database named `None` |
| AthenaQuery.Hamming | low-cost-serverless-rag/stacks/resources/python/src/lambda_query/index.py:61 | `hamming_distance` is at most the length |
| AthenaQuery.HammingZeroIff | low-cost-serverless-rag/stacks/resources/python/src/lambda_query/index.py:61 | The distance is 0 if and only if the codes are equal |
| AthenaQuery.HammingSymmetric | low-cost-serverless-rag/stacks/resources/python/src/lambda_query/index.py:61 | The distance is symmetric |
| AthenaQuery.ScoreBounds | low-cost-serverless-rag/stacks/resources/python/src/lambda_query/index.py:54-61 | The score lies in [0, 100]. It is 100 if and only if the distance is 0, and 0 if and only if the distance is the full length. |
| AthenaQuery.ScoreAtLeastIff | low-cost-serverless-rag/stacks/resources/python/src/lambda_query/index.py:61-68 | `score >= t` if and only if `(L - h)*100 >= t*L` |
| AthenaQuery.RankChunksErrors | low-cost-serverless-rag/stacks/resources/python/src/lambda_query/index.py:61-70 | The statement fails if and only if the limit is negative, a stored code differs in length from the query's, or the query code is empty with rows present. An empty table gives no row. |
| AthenaQuery.RankedRow | low-cost-serverless-rag/stacks/resources/python/src/lambda_query/index.py:66-68 | A ranked row is a stored chunk with its own score, and that score reaches the threshold |
| AthenaQuery.RankChunksShape | low-cost-serverless-rag/stacks/resources/python/src/lambda_query/index.py:57-71 | On a non-empty table, every row is a stored chunk scoring at least the threshold. Rows come best first; there are `min(top_n, qualifying)` of them. Every qualifying chunk left out scores no more than any row returned. |
| AthenaQuery.RankThresholdMonotone | low-cost-serverless-rag/stacks/resources/python/src/lambda_query/index.py:67-70 | Raising the threshold returns a prefix of the result |
| AthenaQuery.IdenticalCodeScoresHundred | low-cost-serverless-rag/stacks/resources/python/src/lambda_query/index.py:61-68 | A chunk whose code equals the query's scores 100 and qualifies at any threshold up to 100 |
| AthenaQuery.TextFromChunksSplits | low-cost-serverless-rag/stacks/resources/python/src/lambda_query/index.py:116-124 | With no line break in the texts, splitting the context at line breaks gives the texts back |
| AthenaQuery.ContextFallback | low-cost-serverless-rag/stacks/resources/python/src/lambda_query/index.py:146-149 | The context is never empty. The fallback is used if and only if no row, or one row with empty text, is returned. |
| AthenaQuery.AnswerAsks | low-cost-serverless-rag/stacks/resources/python/src/lambda_query/index.py:151-161 | The model is asked with the prompt text at the token limit. The response is `{"text": answer}`, or a failure when the answer is unusable. |
| AthenaQuery.HandlerAsksWithPrompt | low-cost-serverless-rag/stacks/resources/python/src/lambda_query/index.py:127-161 | A missing query is `KeyError`. A failing statement is its error. Otherwise the handler answers the prompt of the query and the non-empty context. |
| SqliteQuery.RowTexts | low-cost-serverless-rag-sqlite/stacks/resources/python/src/lambda_query/index.py:88 | Every row's `text`, or nothing when one is not a string |
| SqliteQuery.TextFromDocumentsShape | low-cost-serverless-rag-sqlite/stacks/resources/python/src/lambda_query/index.py:81-90 | The text exists if and only if all texts are strings. It is empty if and only if there is no row, or one empty one. It holds no triple newline. It splits back into the texts when they hold no line break. |
| SqliteQuery.JoinKeepsNoBreak | low-cost-serverless-rag-sqlite/stacks/resources/python/src/lambda_query/index.py:88 | Non-empty lines joined by single newlines hold no blank line |
| SqliteQuery.DocumentsContextShape | low-cost-serverless-rag-sqlite/stacks/resources/python/src/lambda_query/index.py:105-108 | The context is never empty and holds no triple newline; the fallback appears only for an empty text |
| SqliteQuery.MatchesShape | low-cost-serverless-rag-sqlite/stacks/resources/python/src/lambda_query/index.py:24-28 | With the defaults, at most 6 rows, all within distance 350, nearest first |
| SqliteQuery.AnswerAsks | low-cost-serverless-rag-sqlite/stacks/resources/python/src/lambda_query/index.py:110-119 | The model is asked with the prompt text at 1024 tokens. The response is `{"text": answer}`, or a failure. |
| SqliteQuery.HandlerAsksWithPrompt | low-cost-serverless-rag-sqlite/stacks/resources/python/src/lambda_query/index.py:93-119 | A missing query is `KeyError`. The handler fails on a non-text row if and only if one was matched. Otherwise it answers the prompt of the query and the non-empty context. |
| S3Keys.FileTypeShape | low-cost-serverless-rag-sqlite/stacks/resources/python/src/lambda_import/index.py:43 | The file type is a dot-free suffix of the key, and the whole key when it has no dot |
| S3Keys.ObjectUriInjective | low-cost-serverless-rag-sqlite/stacks/resources/python/src/lambda_import/index.py:45 | `s3://bucket/key` determines the bucket and the key |
| Paths.PathJoinShape | low-cost-serverless-rag/stacks/resources/python/src/lambda_import/index.py:55 | `os.path.join(prefix, name)` with a relative name puts the name under the prefix, one slash between |
| Paths.PathJoinKeepsSuffix | low-cost-serverless-rag/stacks/resources/python/src/lambda_import/index.py:55 | The join keeps the prefix in front and every suffix of the name at the end |
| Strings.Split | low-cost-serverless-rag-sqlite/stacks/resources/python/src/lambda_import/index.py:43 | `str.split(c)` gives at least one segment, none holding `c` |
| Strings.SplitJoin | ray2-training-sagemaker/src/train-rl-cartpole-ray.py:82 | Joining the segments with the separator gives the string back |
| Strings.JoinSplit | low-cost-serverless-rag/stacks/resources/python/src/common/helpers.py:132 | Splitting a join gives the parts back when none holds the separator |
| Strings.LastSegmentIsSuffix | low-cost-serverless-rag/stacks/resources/python/src/lambda_import/index.py:37 | `s.split(c)[-1]` is the whole string without `c`, else the text after the last `c` |
| Strings.JoinEmptyIff | low-cost-serverless-rag/stacks/resources/python/src/lambda_query/index.py:123 | A join is empty if and only if there are no parts or one empty part |
| Strings.JoinLength | low-cost-serverless-rag/stacks/resources/python/src/common/helpers.py:42 | A join is the parts plus one separator between each two |
| Strings.PySliceFrom | low-cost-serverless-rag/stacks/resources/python/src/common/helpers.py:164 | `text[i:j]` from inside the text stops at `j` or at the end |
| Strings.NatToDecimal | ray2-training-sagemaker/src/train-rl-cartpole-ray.py:23-24 | `str(n)` is digits without a leading zero |
| Strings.DecimalRoundTrip | ray2-training-sagemaker/src/train-rl-cartpole-ray.py:23-24 | The digits of `str(n)` read back as `n` |
| Strings.IntDecimalRoundTrip | ray2-training-sagemaker/src/train-rl-cartpole-ray.py:23-24 | `int(str(i)) == i` |
| Sorting.Filter | quicksight-regaining-spice-capacity/list_top_spice_capacity_datasets.py:108-110 | A comprehension keeps only elements passing the test |
| Sorting.FilterKeeps | quicksight-regaining-spice-capacity/list_top_spice_capacity_datasets.py:108-110 | Every passing element is kept |
| Sorting.FilterSubset | quicksight-regaining-spice-capacity/list_top_spice_capacity_datasets.py:108-110 | Only input elements are kept |
| Sorting.SortBy | quicksight-regaining-spice-capacity/list_top_spice_capacity_datasets.py:111-113 | `sorted` by a key gives a sorted permutation of the input |
| Sorting.SortIsStable | quicksight-regaining-spice-capacity/list_top_spice_capacity_datasets.py:111-113 | Elements with equal keys keep their input order |
| Sorting.SortFilterCommute | quicksight-regaining-spice-capacity/list_top_spice_capacity_datasets.py:108-113 | Filtering before or after the stable sort gives the same list |
| Sorting.SortSortedIdentity | low-cost-serverless-rag-sqlite/stacks/resources/python/src/common/db.py:80 | Sorting an already sorted list changes nothing |
| AthenaImport.OutputNameRelative | low-cost-serverless-rag/stacks/resources/python/src/lambda_import/index.py:45-47 | The output name never starts with a slash and ends with `.parquet` |
| AthenaImport.OutputKeyShape | low-cost-serverless-rag/stacks/resources/python/src/lambda_import/index.py:45-55 | The output key starts with the prefix and ends with `-<sha1 of the URI>.parquet` |
| AthenaImport.OutputKeyInjective | low-cost-serverless-rag/stacks/resources/python/src/lambda_import/index.py:45-55 | With a 40-character collision-free digest, different URIs get different keys |
| AthenaImport.RecordItemsDocumentId | low-cost-serverless-rag/stacks/resources/python/src/lambda_import/index.py:39-43 | Every item carries the object's URI as document id |
| AthenaImport.RecordPutShape | low-cost-serverless-rag/stacks/resources/python/src/lambda_import/index.py:35-56 | A record that goes through puts the Parquet export of its items under the prefixed digest key; without a prefix none goes through |
| AthenaImport.PutsInOrder | low-cost-serverless-rag/stacks/resources/python/src/lambda_import/index.py:34-56 | The `i`-th put is record `i`'s |
| AthenaImport.PutCount | low-cost-serverless-rag/stacks/resources/python/src/lambda_import/index.py:34 | The records before the count all go through; the one at the count raises |
| AthenaImport.StoredUntouched | low-cost-serverless-rag/stacks/resources/python/src/lambda_import/index.py:56 | A key no put names keeps its object or stays absent |
| AthenaImport.StoredLast | low-cost-serverless-rag/stacks/resources/python/src/lambda_import/index.py:56 | A key holds the body of the last put to it |
| AthenaImport.OutputBucket.PutObject | low-cost-serverless-rag/stacks/resources/python/src/lambda_import/index.py:56 | The object is written, replacing a former one, and the put is logged |
| AthenaImport.ImportRecord | low-cost-serverless-rag/stacks/resources/python/src/lambda_import/index.py:35-56 | One record: its put is applied if and only if it goes through; a failure changes nothing |
| AthenaImport.Handler | low-cost-serverless-rag/stacks/resources/python/src/lambda_import/index.py:29-56 | A missing `Records` key is `KeyError`. The records' puts are applied in order up to the first failure, whose error ends the handler. |
| SqliteImport.RecordItemsStamped | low-cost-serverless-rag-sqlite/stacks/resources/python/src/common/helpers.py:132-133 | Every item of one S3 record carries that record's own clock reading and the object's URI |
| SqliteImport.SavedRows | low-cost-serverless-rag-sqlite/stacks/resources/python/src/lambda_import/index.py:49-50 | The dictionaries of the items are saveable if and only if the items are. They become rows with the items' text and timestamp, and index rows with their embeddings under the same ids. |
| SqliteImport.OkCount | low-cost-serverless-rag-sqlite/stacks/resources/python/src/lambda_import/index.py:67-68 | The S3 records before the count go through, each with its own clock reading; the one at it fails |
| SqliteImport.ParsedCount | low-cost-serverless-rag-sqlite/stacks/resources/python/src/lambda_import/index.py:61-62 | The message bodies before the count parse; the one at it does not |
| SqliteImport.FailedIndices | low-cost-serverless-rag-sqlite/stacks/resources/python/src/lambda_import/index.py:61-70 | The positions listed are strictly increasing, and each one's message fails. Every failing message's position is listed. |
| SqliteImport.Failed | low-cost-serverless-rag-sqlite/stacks/resources/python/src/lambda_import/index.py:61-70 | The failures are exactly the messages at the failing positions, in batch order, so each failing message appears once and no other message appears |
| SqliteImport.FailureKeepsEarlierRecords | low-cost-serverless-rag-sqlite/stacks/resources/python/src/lambda_import/index.py:63-71 | A failing message keeps exactly the items of the records saved before its failure |
| SqliteImport.MessageRaisesAt | low-cost-serverless-rag-sqlite/stacks/resources/python/src/lambda_import/index.py:64-66 | An SQS record without `Records` fails the message after the records reached before it |
| SqliteImport.MessageFailsAt | low-cost-serverless-rag-sqlite/stacks/resources/python/src/lambda_import/index.py:65-69 | A failing S3 record fails the message after the records reached before it |
| SqliteImport.ProcessS3Record | low-cost-serverless-rag-sqlite/stacks/resources/python/src/lambda_import/index.py:40-50 | One object is saved in one transaction, or nothing of it stays. Consistency is kept. |
| SqliteImport.ProcessS3Records | low-cost-serverless-rag-sqlite/stacks/resources/python/src/lambda_import/index.py:67-68 | Records are saved in order up to the first failure, record `k` stamped with the clock reading `at(base + k)`; the earlier ones stay saved |
| SqliteImport.ProcessMessage | low-cost-serverless-rag-sqlite/stacks/resources/python/src/lambda_import/index.py:63-71 | The message succeeds if and only if every nested record does; the store holds exactly the items reached before a failure, the `p`-th reached record stamped with the reading `at(p)` |
| SqliteImport.ProcessBatch | low-cost-serverless-rag-sqlite/stacks/resources/python/src/lambda_import/index.py:61-73 | Messages are processed up to the first body that is not JSON, message `i` with its own clock readings. The failures are exactly the failing messages, in order. |
| SqliteImport.Handler | low-cost-serverless-rag-sqlite/stacks/resources/python/src/lambda_import/index.py:53-79 | An empty event does nothing. Missing `Records` is `KeyError`. Otherwise the store is extended by the items reached. A body that is not JSON raises out of the handler before the upload. If every body parses, the response lists the failed message ids and the database is uploaded once. |
| SqliteImport.ExtendsTwice | low-cost-serverless-rag-sqlite/stacks/resources/python/src/lambda_import/index.py:65-68 | Two consecutive saves extend the tables by both batches under consecutive ids |
| SpiceCapacity.SizeInfosCopy | quicksight-regaining-spice-capacity/list_top_spice_capacity_datasets.py:71-90 | Each record copies its summary's fields. A non-zero capacity comes from a successful description of a SPICE dataset, and such a description's capacity is taken. |
| SpiceCapacity.GetDatasetsSizeInfos | quicksight-regaining-spice-capacity/list_top_spice_capacity_datasets.py:59-91 | The loop builds exactly `SizeInfos` |
| SpiceCapacity.TopIsPrefix | quicksight-regaining-spice-capacity/list_top_spice_capacity_datasets.py:114 | `[:top_n]` is the first `top_n` ranked datasets, or all but the last `-top_n` for a negative value |
| SpiceCapacity.TopBoundsAndOrder | quicksight-regaining-spice-capacity/list_top_spice_capacity_datasets.py:94-114 | The result is a sub-multiset of the qualifying datasets, all at or above the minimum, by non-increasing capacity |
| SpiceCapacity.LeftOutNotLarger | quicksight-regaining-spice-capacity/list_top_spice_capacity_datasets.py:94-114 | A qualifying dataset left out holds no more capacity than any returned one |
| SpiceCapacity.TopIsStable | quicksight-regaining-spice-capacity/list_top_spice_capacity_datasets.py:111-113 | Among ties, the returned datasets are the first qualifying ones, in input order |
| SpiceCapacity.ListTopSpiceCapacityDatasets | quicksight-regaining-spice-capacity/list_top_spice_capacity_datasets.py:139-158 | The top datasets of the size records of the listed summaries |
| SpiceCapacity.ListedAreDescribedSpice | quicksight-regaining-spice-capacity/list_top_spice_capacity_datasets.py:82-114 | With a positive minimum, every listed dataset is a SPICE dataset whose description reported that capacity |
| RlLauncher.SetLookup | ray2-training-sagemaker/src/train-rl-cartpole-ray.py:84-88 | After `d[k] = v`, `k` holds `v` and every other key is unchanged |
| RlLauncher.SetKeys | ray2-training-sagemaker/src/train-rl-cartpole-ray.py:84-88 | Assignment keeps the key order, appending a new key at the end |
| RlLauncher.RewriteTrainingKeys | ray2-training-sagemaker/src/train-rl-cartpole-ray.py:79-93 | The loop and the `rl.` filter compute exactly `Rewritten` |
| RlLauncher.PrepFailureSticks | ray2-training-sagemaker/src/train-rl-cartpole-ray.py:80-88 | Once the loop raises, later entries change nothing |
| RlLauncher.StepCopies | ray2-training-sagemaker/src/train-rl-cartpole-ray.py:87-88 | A key without the prefix is copied |
| RlLauncher.StepThreeSegments | ray2-training-sagemaker/src/train-rl-cartpole-ray.py:85-86 | `rl.training<s>.<name>` sets `name`. The test is textual, so `rl.trainingX.lr` counts too. |
| RlLauncher.StepFourSegments | ray2-training-sagemaker/src/train-rl-cartpole-ray.py:83-84 | `rl.training<s>.<a>.<b>` sets `b` inside `a`. It raises `KeyError` if and only if `a` was not copied before, and `TypeError` when `a` is not a dictionary. |
| RlLauncher.StepDrops | ray2-training-sagemaker/src/train-rl-cartpole-ray.py:81-86 | A prefixed key with neither three nor four segments is dropped |
| RlLauncher.PrepKeysDistinct | ray2-training-sagemaker/src/train-rl-cartpole-ray.py:79-88 | The built dictionary never repeats a key |
| RlLauncher.PrepCopiesPlain | ray2-training-sagemaker/src/train-rl-cartpole-ray.py:79-88 | A dictionary without prefixed keys goes through unchanged |
| RlLauncher.WithoutRlLookup | ray2-training-sagemaker/src/train-rl-cartpole-ray.py:89-91 | No `rl.` key remains; every other key keeps its value |
| RlLauncher.RewriteKeepsPlain | ray2-training-sagemaker/src/train-rl-cartpole-ray.py:79-93 | A training dictionary without `rl.` keys comes out unchanged |
| RlLauncher.LauncherCounts | ray2-training-sagemaker/src/train-rl-cartpole-ray.py:22-25 | Defaults of 1 CPU and 0 GPUs. `str(n)` reads back as `n`. A non-integer raises `ValueError`. |
| RlLauncher.WorkersFromCpus | ray2-training-sagemaker/src/train-rl-cartpole-ray.py:31-53 | The trainer configuration has `num_workers = num_cpus - 1` and `num_gpus = num_gpus` |
| RlLauncher.DefaultTrainingUnchanged | ray2-training-sagemaker/src/train-rl-cartpole-ray.py:76-93 | The default configuration holds no `rl.` key, so `launch` hands it on unchanged |
| RlLauncher.LookupFirst | ray2-training-sagemaker/src/train-rl-cartpole-ray.py:84-88 | `d[k]` is the value at the first position holding `k` |
| RlLauncher.SaveExperimentMetadata | ray2-training-sagemaker/src/train-rl-cartpole-ray.py:55-66 | The copies are exactly the routes of the files the three globs select |
| RlLauncher.GlobFinds | ray2-training-sagemaker/src/train-rl-cartpole-ray.py:60 | `glob` of `*<suffix>` returns exactly the visible entries ending with the suffix |
| RlLauncher.SelectedExtensions | ray2-training-sagemaker/src/train-rl-cartpole-ray.py:56-60 | Only `.csv`, `.pkl` and `.json` files are selected, the CSV files first, and every visible one is |
| RlLauncher.SelectedIsGlobs | ray2-training-sagemaker/src/train-rl-cartpole-ray.py:56-60 | The selection is the three globs in turn |
| RlLauncher.RoutingRule | ray2-training-sagemaker/src/train-rl-cartpole-ray.py:62-66 | Each file is copied once, in order: to the model directory if and only if its path ends with `params.pkl` or `params.json`, else to the metadata directory |
| RlLauncher.ParamsSuffixExamples | ray2-training-sagemaker/src/train-rl-cartpole-ray.py:63 | Example on concrete inputs (general rule: `RoutingRule`). The test is textual: `myparams.json` counts, `params.csv` does not |

## Left out

- Floating point. The Athena score is an exact rational, and the engine's `100.0` arithmetic and rounding are not modelled. The threshold comparison is exact.
- The sort order of Athena and SQLite for equal scores or distances is not fixed by the engines. The model keeps ties in table order.
- Embeddings, the hasher and `LSHash`'s in-memory table: the model uses parameters.
- The language model, `uuid4`, SHA-1, the document decoder and the PDF reader: parameters. Their failures appear only as the `None` results the model allows.
- The clock: a parameter. The Athena import reads it once per S3 record (`clock(i)`). The SQLite import reads it once per S3 record that gets as far as building its items (`clock(i)(p)` for the `p`-th S3 record message `i` reaches). `save_document_into_db`'s own default timestamp is one value per saved dictionary.
- `print`, `log_time` and the timing output: output only, no effect on results.
- The Athena variant's `common/config.py` is not part of this model. Its chunk size, overlap and `MAX_TOKEN_OUTPUT` are parameters there.
- The SQLite query handler imports `query_db_documents`, which `db.py` does not define. The handler is modelled against `query_db`.
- SQLite's column affinity and `DATETIME` conversions: stored values are kept as given.
- The serialization of embeddings to JSON. An embedding of the wrong dimension is the `BadEmbedding` error of the index insert.
- The module-level database download and `initialize_db`'s extension loading: the store starts from the given tables.
- Percent-decoding of S3 keys (`unquote_plus`): a parameter. Malformed S3 event records are left out.
- Malformed SQS messages of the SQLite import are left out. A message without `body` raises `KeyError` outside the `try`. A message without `messageId` raises from inside the `except`. `Message` always has both fields.
- The query handlers' environment settings are constants fixed at their defaults. These are `TOP_N_DOCUMENTS` 10 and `QUERY_SCORE_THRESHOLD` 60 for Athena, and `TOP_N_DOCUMENTS` 6 and `MAX_DISTANCE_THRESHOLD` 350 for SQLite. The `ValueError` of `int()` on a non-integer value is not modelled. A negative `TOP_N_DOCUMENTS` is not modelled at the handler level; `RankChunks` and `QueryDb` take any limit, including a negative one.
- The SQLite import handler's `silenced_errors` list: it is only printed. `batchItemFailures` is modelled as the list of failed message ids.
- `OUTPUT_BUCKET` is assumed set, and `put_object` and the upload are assumed not to fail.
- The Parquet export and the `BytesIO` buffer: a parameter from the items to bytes.
- The nested dictionaries of the launcher's configuration are values. The aliasing between the rewritten configuration and the default one is not captured.
- `ray.init`, `run_experiments`, `register_env`, `gym`, `shutil.copytree` and the checkpoint export: left out, as calls into code outside the model.
- `shutil.copy` failures: copies are listed, not performed.
- `int()` of environment values accepts only an optional `-` and decimal digits. Whitespace, `+` and `_` forms are left out.
- `glob` magic characters inside `trial_path`. The listing order is a parameter, taken as the order `glob` returns.
- `delete_quicksight_dataset`, the pagination of `list_data_sets` and the error message printed when a description fails. A describe error, a falsy description and a description without capacity all leave the capacity at 0.
- ChunkerProperties.RebuildCharacterization: an odd overlap together with a redundant trailing chunk is not characterised.
- Chunk size and overlap are natural numbers. Negative arguments to `compute_text_chunks` are left out.
- AthenaQuery.RankChunksShape: requires a non-empty table. For an empty table, `AthenaQuery.RankChunksErrors` states the result.
