# Research-paper QA: chunking, context assembly and usage ledgers

A Dafny model of the logic around the foreign calls in isu-digital-lib. The repository answers
questions about research papers: text becomes chunks, chunks go into a vector store, retrieved
chunks become a context, and the context becomes a prompt. The model covers:

- **Chunking.** The word-window chunkers (`Ingest`, `VectorContextQa`, `ContextWindow`) share one
  definition of "window k" in `WordWindows`. `GreedyChunker` models the token-greedy chunker,
  which carries 200 words from one chunk into the next.
- **Context assembly.** `PaperContexts` groups retrieved chunks by paper and renders the
  `=== From <paper> ===` sections. `ContextWindow` trims a context to a budget 100 words at a
  time. `ContextQa` extracts key sections, truncates to a token limit with sentence snapping,
  and splits the budget per paper. The section lemmas take the header test as a parameter, so
  they hold for any marker list; the extraction itself uses the source's eight markers.
- **Record parsing and indexing.** `CsvExtraction` turns a catalogue row into its embedding text
  and metadata. `EmbedIndex` models the loop that keeps embeddings and the chunk mapping aligned.
- **Usage ledgers.** `CostTracking.CostTracker`, `Metrics.MetricsTracker`,
  `ModelInterface.BaseModelInterface` and `BaseAnalyzer.BasePaperAnalyzer` are classes whose
  methods append to or reset their lists and compute grouped aggregates.

The shared modules are:

- `Text`: Python's `str.split()`, `str.split(sep)`, `join`, `strip`, `upper`, `rfind`, and decimal rendering.
- `Grouping`: first-seen key order, filtering by key, sums, means, and the dict-of-lists grouping loop.
- `Wrappers`: `Option`, `Result`, and Python truthiness of an optional string.

The following are function-valued parameters:

- the tokenizer (`tokens`, `encode`, `decode`);
- the HTML-to-text conversion;
- the embedding call;
- the model call;
- the vector-store query;
- the clock.

Every loop the source runs is a Dafny `method` with a loop. Each method's `ensures` ties its result
or new state to a specification function, and lemmas state what the source promises about those
functions.

## Model

| member | source | states |
|---|---|---|
| WordWindows.WindowCountBound | demoV1/ingest.py:41-45 | window `k` exists exactly when its start `k*step` is below the word count, so there are ceil(n/step) windows |
| WordWindows.WindowShape | demoV1/ingest.py:41-43 | every window holds 1 to `size` consecutive words from its start; a short window runs to the end of the list |
| WordWindows.ShortWindowsTrail | demoV1/ingest.py:41-43 | only trailing windows can be short: after a short window every later one is short |
| WordWindows.WindowOverlap | demoV1/ingest.py:43-45 | when window `k` is full, its last `size-step` words are the first `size-step` words of window `k+1` |
| WordWindows.WindowsCover | demoV1/ingest.py:41-45 | with `step <= size` every word index lies in some window, at the offset its start implies |
| WordWindows.ChunkWords | demoV1/ingest.py:42-43 | splitting a chunk on whitespace returns exactly its word slice |
| WordWindows.BlankTextNoChunks | demoV1/ingest.py:38-41 | empty or whitespace-only text gives no chunks |
| WordWindows.TwelveHundredWords | demoV1/ingest.py:36-45 | with the defaults 500/100, 1200 words give windows at 0, 400 and 800, the last holding 400 words |
| Ingest.ChunkText | demoV1/ingest.py:36-46 | the while loop emits chunk `k` = `words[k*step : k*step+size]` joined by single spaces, for every start below the word count; text without words gives no chunks for any overlap, and text with words needs `overlap < chunk_size` for the loop to end |
| VectorContextQa.KeptWindows | src/analysis/vector_context_qa.py:51-54 | the range loop keeps every window, in order, when none is blank |
| VectorContextQa.ChunkText | src/analysis/vector_context_qa.py:45-56 | the range loop keeps every window (none is blank), gives nothing for a negative step, and fails with `ValueError` exactly when the step is zero |
| VectorContextQa.PaperChunkCount | src/analysis/vector_context_qa.py:51-55 | for `chunk_size > 100` the chunk count is ceil(words/(chunk_size-100)) |
| WordWindows.WindowCountCeil | src/analysis/vector_context_qa.py:51-55 | the window count times the step reaches the word count, and one window fewer falls short of it |
| VectorContextQa.ChunkIdInjective | src/analysis/vector_context_qa.py:72 | distinct (paper, chunk) pairs get distinct store ids |
| VectorContextQa.IdsZeroBasedTagsOneBased | src/analysis/vector_context_qa.py:72-74 | the store id numbers papers from 0, while the `paper_id` tag numbers them from 1 |
| VectorContextQa.EntryCount | src/analysis/vector_context_qa.py:64-77 | one store entry per chunk; `total_chunks` is the sum of per-paper chunk counts |
| VectorContextQa.EntryIdsFromPapers | src/analysis/vector_context_qa.py:65-72 | every entry's id is the id of a chunk of one of the papers |
| VectorContextQa.EntryIdsDistinct | src/analysis/vector_context_qa.py:65-77 | the ids of all added entries are pairwise distinct |
| VectorContextQa.AddPaper | src/analysis/vector_context_qa.py:69-77 | one `collection.add` per chunk appends that paper's entries in chunk order |
| VectorContextQa.IndexPapers | src/analysis/vector_context_qa.py:64-77 | the nested indexing loop adds every chunk of every paper in order with its id and tags, and counts them |
| VectorContextQa.AnswerQuestion | src/analysis/vector_context_qa.py:87-144 | no record when the query returns nothing; an error record with the message when the query or the model raises; otherwise `papers_referenced` is the group keys and `chunks_used` the number retrieved |
| VectorContextQa.RecordCount | src/analysis/vector_context_qa.py:87-144 | exactly one record per question whose query raised or returned something |
| VectorContextQa.RecordsAnswerRetrieved | src/analysis/vector_context_qa.py:82-144 | the records answer exactly the questions whose query raised or returned something, in order, each under its own category and text |
| VectorContextQa.AskAll | src/analysis/vector_context_qa.py:82-144 | the question loop collects the records of the questions in order, error records included |
| VectorContextQa.AnalyzeContext | src/analysis/vector_context_qa.py:58-144 | indexes all papers, then answers the six fixed questions; fails only through `chunk_text`'s zero step |
| PaperContexts.AssembleContext | src/analysis/vector_context_qa.py:97-109 | paper ids in first-appearance order, each group's chunks in retrieval order, and the combined context built from them |
| PaperContexts.HitInItsGroup | src/analysis/vector_context_qa.py:97-102 | every retrieved chunk is grouped under its own paper |
| PaperContexts.EveryHitRendered | src/analysis/vector_context_qa.py:105-109 | the combined context contains every retrieved chunk and the header of its paper |
| PaperContexts.GroupSizesSumToHits | src/analysis/vector_context_qa.py:97-102 | group sizes add up to the number of retrieved chunks |
| PaperContexts.SectionShape | src/analysis/vector_context_qa.py:107 | a section starts with `"\n=== From <id> ===\n"` and contains each of its chunks |
| ContextWindow.CappedWindows | scripts/openai_vectorized_context_window_script.py:39-43 | the range loop keeps, in order, exactly the windows within 2000 tokens |
| ContextWindow.CappedChunkText | scripts/openai_vectorized_context_window_script.py:33-45 | windows step by `chunk_size-100` and keep exactly those within 2000 tokens; a zero step fails with `ValueError` |
| ContextWindow.WithinCapMembers | scripts/openai_vectorized_context_window_script.py:41-43 | a window is kept if and only if its token count is at most 2000 |
| ContextWindow.WithinCapAppend | scripts/openai_vectorized_context_window_script.py:39-44 | skipping goes window by window, so kept windows stay in window order |
| ContextWindow.TrimToBudget | scripts/openai_vectorized_context_window_script.py:137-141 | the trim loop returns a context within the budget: unchanged when it fits, otherwise the trimmed words rejoined |
| ContextWindow.TrimWordsSmallestCut | scripts/openai_vectorized_context_window_script.py:138-141 | the kept words are `words[:n-100d]` for the smallest `d` whose join fits the budget |
| ContextWindow.TrimmedHasNoLineBreaks | scripts/openai_vectorized_context_window_script.py:138-141 | a trimmed context is rejoined with single spaces, so its newlines, header lines included, are gone |
| ContextWindow.TrimWordsPrefix | scripts/openai_vectorized_context_window_script.py:139-140 | trimming keeps a prefix of the words |
| ContextWindow.TrimmedWordPrefix | scripts/openai_vectorized_context_window_script.py:138-141 | splitting a trimmed context gives a word prefix of the original |
| ContextWindow.BudgetNonNegative | scripts/openai_interface.py:11-21 | every model's context length less 1000 is a non-negative budget (at least 3096) |
| ContextWindow.AnswerQuestion | scripts/openai_vectorized_context_window_script.py:112-176 | no record when the query returns nothing; an error record when the query or the model raises; otherwise the context is grouped, trimmed to `context_length - 1000` and the record lists the group keys |
| ContextWindow.RecordsAnswerRetrieved | scripts/openai_vectorized_context_window_script.py:109-176 | the records carry exactly the ids of the questions whose query raised or returned something, in question order |
| ContextWindow.AnalyzeContextWithVectors | scripts/openai_vectorized_context_window_script.py:109-176 | the question loop gives the records of the four questions in order, at most one each |
| ContextWindow.RecordsAtMostQuestions | scripts/openai_vectorized_context_window_script.py:109-176 | at most one record per question |
| ContextWindow.AskAll | scripts/openai_vectorized_context_window_script.py:109-176 | the question loop collects the records of the questions in order, error records included |
| GreedyChunker.ChunkText | scripts/vectorized_qa.py:26-48 | the word loop flushes before a word that would pass the budget, carries the last 200 words over, and emits the final non-empty chunk |
| GreedyChunker.FeedWords | scripts/vectorized_qa.py:33-43 | after the word loop, the flushed chunks and the current chunk are those of the word-by-word state function |
| GreedyChunker.FlushKeepsChain | scripts/vectorized_qa.py:35-43 | a flush that carries the last 200 words into the next chunk keeps the chunks chained and rebuilding the words |
| GreedyChunker.AppendKeepsChain | scripts/vectorized_qa.py:42-43 | adding a word to the current chunk keeps the chunks chained and rebuilding the words |
| GreedyChunker.BlankTextNoChunks | scripts/vectorized_qa.py:28-48 | empty or whitespace-only text gives no chunks |
| GreedyChunker.FeedAllInvariant | scripts/vectorized_qa.py:33-43 | after any words the chunks so far are chained by their carried words and rebuild exactly those words |
| GreedyChunker.RoundTrip | scripts/vectorized_qa.py:33-46 | the first chunk's words, then each later chunk's words minus its carried prefix, are `text.split()` |
| GreedyChunker.ChunkWordsRecovered | scripts/vectorized_qa.py:37-46 | splitting an emitted chunk gives back its word list |
| GreedyChunker.NoFlushWhenFits | scripts/vectorized_qa.py:34-43 | words whose token counts fit the budget are never flushed |
| GreedyChunker.FitsInOneChunk | scripts/vectorized_qa.py:33-46 | a text whose words fit the budget is one chunk holding all its words |
| GreedyChunker.DoneOnlyGrows | scripts/vectorized_qa.py:35-37 | emitted chunks are never changed later |
| GreedyChunker.FirstWordTooLarge | scripts/vectorized_qa.py:33-37 | when the first word alone is over the budget, the first chunk is the empty string |
| GreedyChunker.LastWordInLastChunk | scripts/vectorized_qa.py:45-46 | the final current chunk is emitted and ends with the text's last word |
| ContextQa.ExtractKeySections | scripts/openai_context_qa_script.py:49-79 | the line loop with its three state variables returns the kept sections, or the text itself when there are none |
| ContextQa.SectionLoop | scripts/openai_context_qa_script.py:57-74 | after the line loop, `is_important` holds exactly when a header was seen, `current_section` is the last section and `extracted_text` holds the earlier sections joined |
| ContextQa.LoopStep | scripts/openai_context_qa_script.py:62-74 | one line of the loop (a header closes the open section and opens a new one; another line joins the open section) keeps that correspondence, for any header test |
| ContextQa.FirstHeader | scripts/openai_context_qa_script.py:61-71 | the index of the first line that contains a marker |
| ContextQa.SectionsCover | scripts/openai_context_qa_script.py:61-73 | lines before the first header are dropped; from it on every line is kept in order |
| ContextQa.SectionsStartAtHeaders | scripts/openai_context_qa_script.py:65-73 | each section starts at a header line and holds no other header line |
| ContextQa.SectionsIffHeader | scripts/openai_context_qa_script.py:65-79 | there is a section exactly when some line is a header |
| ContextQa.NoHeaderUnchanged | scripts/openai_context_qa_script.py:79 | text with no header line is returned unchanged |
| ContextQa.HeaderGivesSections | scripts/openai_context_qa_script.py:68-79 | otherwise the output is the sections, lines joined by `"\n"`, sections by `"\n\n"` |
| ContextQa.SubstringHeaders | scripts/openai_context_qa_script.py:52-65 | detection is by case-insensitive substring: "Methodology overview" and "the results below" open sections |
| ContextQa.TrimTextSentenceSnap | scripts/openai_context_qa_script.py:37-47 | over the limit, the result is the decoded prefix, cut after its last '.' exactly when a '.' lies beyond 80% of `max_tokens` |
| ContextQa.TrimTextFits | scripts/openai_context_qa_script.py:34-35 | a text within the limit is returned unchanged |
| ContextQa.TokensPerPaper | scripts/openai_context_qa_script.py:25-113 | `tokens_per_paper` is `(context_length - 1000) // 3` |
| CsvExtraction.NonEmptyStrippedMembers | csv-extraction.py:35 | a keyword is kept if and only if it is a non-blank piece, stripped |
| CsvExtraction.KeywordsStripped | csv-extraction.py:35 | keywords are non-empty and have no surrounding whitespace |
| CsvExtraction.NonEmptyStrippedAppend | csv-extraction.py:35 | filtering goes piece by piece, so keywords keep the order of the pieces |
| CsvExtraction.SingleKeyword | csv-extraction.py:35 | a cell without `"||"` gives its stripped text as the only keyword, or none when blank |
| CsvExtraction.MissingAbstractIsEmpty | csv-extraction.py:15-17 | `strip_html` returns "" for a missing value |
| CsvExtraction.RecordErrors | csv-extraction.py:33-35 | the record fails exactly when the keyword cell is present and missing-valued; a missing column gives no keywords |
| CsvExtraction.RecordAgreement | csv-extraction.py:27-65 | the text is the template over the title, abstract and exactly the metadata's keywords; the year is stripped |
| EmbedIndex.BuildIndex | Documents/demoV1/embed_index.py:24-37 | the nested loop appends one embedding and one mapping entry per chunk; index row `k` is the embedding of `mapping[k]`'s chunk; stacking fails on no or ragged rows |
| EmbedIndex.DocEntries | Documents/demoV1/embed_index.py:29-32 | a document's entries carry its filename and its chunks, in order |
| EmbedIndex.Vstack | Documents/demoV1/embed_index.py:33-36 | stacking succeeds exactly on a non-empty list of equal-length rows, keeping the rows |
| EmbedIndex.EntriesAppend | Documents/demoV1/embed_index.py:27-32 | documents contribute their entries in document order |
| EmbedIndex.EntryCount | Documents/demoV1/embed_index.py:7-28 | the entry count is the sum of per-document chunk counts |
| EmbedIndex.EntryOrigin | Documents/demoV1/embed_index.py:32 | entry `k` holds a document's filename and one of its chunks |
| EmbedIndex.BuildSucceeds | Documents/demoV1/embed_index.py:33-36 | an index is built exactly when there is a chunk and all embeddings have one length |
| CostTracking.CalculateCost | src/evaluation/cost_tracking.py:57-66 | 0 for a model without rates; never negative for non-negative tokens |
| CostTracking.CostAdditive | src/evaluation/cost_tracking.py:63-66 | pricing is linear in the token counts |
| CostTracking.KnownRates | src/evaluation/cost_tracking.py:26-66 | worked rates from `MODEL_COSTS`, and 0 for an unknown model |
| CostTracking.CostTracker.constructor | src/evaluation/cost_tracking.py:42 | a new tracker has no records |
| CostTracking.CostTracker.AddUsageRecord | src/evaluation/cost_tracking.py:68-93 | appends exactly one record with total tokens = prompt + completion and the computed cost; earlier records unchanged |
| CostTracking.CostTracker.GetTotalCost | src/evaluation/cost_tracking.py:96-98 | 0 with no records, and equal to the per-model totals summed |
| CostTracking.CostTracker.GetCostBy | src/evaluation/cost_tracking.py:100-119 | the accumulation loop gives, for each field value present, the summed cost of its records |
| CostTracking.CostTracker.GetUsageSummary | src/evaluation/cost_tracking.py:121-135 | request count, errors at most requests, averages 0 with no records, average cost times count = total cost |
| CostTracking.CostTracker.Reset | src/evaluation/cost_tracking.py:163-165 | the record list is empty |
| CostTracking.CostTracker.SummaryTokens | src/evaluation/cost_tracking.py:77-125 | on records built by `add_usage_record`, the summary's `total_tokens` is the summed prompt tokens plus the summed completion tokens |
| CostTracking.TokensAddUp | src/evaluation/cost_tracking.py:77-125 | over records whose total is prompt plus completion, the summed totals are the summed prompts plus the summed completions |
| CostTracking.CostStep | src/evaluation/cost_tracking.py:103-104 | one loop step adds the record's cost to its key's entry |
| CostTracking.CostTable | src/evaluation/cost_tracking.py:102-105 | the `costs.get(k, 0) + cost` loop gives the summed cost per key, for exactly the keys present |
| CostTracking.CostByKeys | src/evaluation/cost_tracking.py:100-119 | the breakdown's keys are exactly the field values present |
| CostTracking.CostByTotal | src/evaluation/cost_tracking.py:96-119 | the breakdown's entries over its distinct keys add up to the total cost |
| CostTracking.AddRecordTotals | src/evaluation/cost_tracking.py:93-129 | adding a record adds its cost, its tokens and its error to the totals |
| CostTracking.EmptyErrorCounted | src/evaluation/cost_tracking.py:129 | `total_errors` tests `is not None`, so an empty error message counts |
| Metrics.TrueCount | src/evaluation/metrics.py:94-98 | the success count is at most the number of entries |
| Metrics.CountErrors | src/evaluation/metrics.py:152-157 | the loop counts, per message, the metrics with a truthy error |
| Metrics.CountErrorsByGroup | src/evaluation/metrics.py:159-168 | grouping by the field, then counting the errors of each group |
| Metrics.CountEachGroup | src/evaluation/metrics.py:163-168 | the dict comprehension gives each group exactly the error counts of its own metrics |
| Metrics.RatesByGroup | src/evaluation/metrics.py:88-96 | one rate per distinct field value: 100 times the successes over the size of that group |
| Metrics.MetricsTracker.constructor | src/evaluation/metrics.py:33 | a new tracker has no metrics |
| Metrics.MetricsTracker.AddMetric | src/evaluation/metrics.py:61-76 | appends exactly one metric carrying the given fields; nothing else changes |
| Metrics.MetricsTracker.GetSuccessRate | src/evaluation/metrics.py:82-99 | `{}` with no metrics, else the overall rate or one rate per group |
| Metrics.MetricsTracker.GetErrorDistribution | src/evaluation/metrics.py:147-170 | `{}` with no metrics, else the error counts overall or per group |
| Metrics.MetricsTracker.Reset | src/evaluation/metrics.py:235-237 | the metric list is empty |
| Metrics.TrueCountWhere | src/evaluation/metrics.py:94-98 | the summed booleans count the successful metrics |
| Metrics.GroupedSuccessRate | src/evaluation/metrics.py:87-96 | one key per distinct field value, each 100·successes/size within its group, between 0 and 100 |
| Metrics.RateBounds | src/evaluation/metrics.py:94-98 | a success rate lies between 0 and 100 |
| Metrics.OverallSuccessRate | src/evaluation/metrics.py:98-99 | the only key is "overall" and its rate is 100·successes/total |
| Metrics.ErrorCountsCoverErrored | src/evaluation/metrics.py:152-170 | keys are exactly the non-empty error messages, and the counts add up to the number of such metrics |
| Metrics.ErroredMembers | src/evaluation/metrics.py:154-156 | a message is counted if and only if some metric carries it as a non-empty error |
| Metrics.GroupedErrorDistribution | src/evaluation/metrics.py:159-168 | grouped distributions partition the metrics by the field before counting |
| ModelInterface.NoResponsesNoMetrics | src/models/base_model_interface.py:22-27 | with no responses every counter is zero |
| ModelInterface.MetricsAfterSnoc | src/models/base_model_interface.py:45-55 | one response adds one request, its tokens (0 if absent), one error iff the error is truthy, and the running average of the latencies |
| ModelInterface.ErrorsAtMostRequests | src/models/base_model_interface.py:47-50 | there are never more errors than requests |
| ModelInterface.BaseModelInterface.constructor | src/models/base_model_interface.py:19-27 | a new interface has all four counters at zero |
| ModelInterface.BaseModelInterface.UpdateMetrics | src/models/base_model_interface.py:45-55 | requests +1, tokens + `usage.get('total_tokens', 0)`, errors +1 iff truthy, average latency = mean of all latencies |
| ModelInterface.BaseModelInterface.GetMetrics | src/models/base_model_interface.py:57-59 | the counters describe exactly the responses counted so far |
| ModelInterface.BaseModelInterface.ResetMetrics | src/models/base_model_interface.py:61-68 | every counter is back at zero |
| BaseAnalyzer.BasePaperAnalyzer.constructor | src/analysis/base_analyzer.py:25 | a new analyzer has an empty result list |
| BaseAnalyzer.BasePaperAnalyzer.GetMetricsSummary | src/analysis/base_analyzer.py:84-124 | the summary: total analyses, top-level errors, and the per-model and per-interface tables |
| BaseAnalyzer.ModelTable | src/analysis/base_analyzer.py:94-109 | the per-model loop gives, for each model present, its count, truthy-error count and mean latency |
| BaseAnalyzer.InterfaceTable | src/analysis/base_analyzer.py:112-122 | the per-interface loop gives, for each interface present, its count and truthy-error count |
| BaseAnalyzer.ModelStatsSnoc | src/analysis/base_analyzer.py:102-109 | one more result steps its model's count and errors and folds its latency into the running average |
| BaseAnalyzer.ModelStep | src/analysis/base_analyzer.py:94-109 | one step of the per-model loop keeps the table equal to the statistics of the results so far |
| BaseAnalyzer.ModelEntry | src/analysis/base_analyzer.py:95-102 | the entry read back after the zero-insert is the statistics of the results so far for that model, zero when it is new |
| BaseAnalyzer.InterfaceStep | src/analysis/base_analyzer.py:112-122 | one step of the per-interface loop keeps the table equal to the statistics of the results so far |
| BaseAnalyzer.InterfaceEntry | src/analysis/base_analyzer.py:113-119 | the entry read back after the zero-insert is the statistics of the results so far for that interface, zero when it is new |
| BaseAnalyzer.CountsAddUp | src/analysis/base_analyzer.py:87-122 | per-model counts sum to `total_analyses`, and so do per-interface counts |
| BaseAnalyzer.SummaryModels | src/analysis/base_analyzer.py:95-100 | a model is a key of the summary exactly when some result names it |
| BaseAnalyzer.EmptyErrorCountsOnlyAtTop | src/analysis/base_analyzer.py:88-122 | an empty-string error counts at top level (`is not None`) but not per model or interface (truthiness) |
| BaseAnalyzer.ModelLatencyTotal | src/analysis/base_analyzer.py:94-109 | for any results, every model in the summary has at least one result, and its `avg_latency` times its `count` is the sum of its results' `metrics.get('latency', 0)` |
| Grouping.GroupBy | src/evaluation/metrics.py:88-91 | the dict-of-lists loop: keys in first-seen order, each holding its items' values in order |
| Grouping.PartitionCount | src/evaluation/metrics.py:160-163 | group sizes over the distinct keys add up to the number of items |
| Grouping.PartitionTotal | src/evaluation/cost_tracking.py:96-105 | group totals over the distinct keys add up to the overall total |
| Grouping.DedupFirstSeen | src/analysis/vector_context_qa.py:100-101 | distinct keys appear once each, in order of first appearance |
| Grouping.MeanSnoc | src/models/base_model_interface.py:52-55 | the running average `(avg*(n-1)+x)/n` is the mean of all `n` values |
| Text.Split | demoV1/ingest.py:38 | `str.split()` gives non-empty words without whitespace |
| Text.SplitJoin | demoV1/ingest.py:38-43 | splitting words joined by single spaces gives the words back |
| Text.SplitEmptyIffBlank | demoV1/ingest.py:38-41 | a text has no words exactly when it is blank |
| Text.Strip | csv-extraction.py:35-39 | the result is empty exactly for blank text and otherwise has no surrounding whitespace |
| Text.SplitOnJoin | csv-extraction.py:35 | the pieces of `split(sep)` joined by `sep` give the text back |
| Text.RFind | scripts/openai_context_qa_script.py:43 | the index of the last occurrence, or -1 |
| Text.NatToStringInjective | src/analysis/vector_context_qa.py:72-74 | distinct numbers render as distinct decimals |

## Left out

- File I/O, PDF and CSV loading, JSON save and load, pickle, logging and printing are I/O and foreign parsers. `load_records` is among them. It could load records that `add_usage_record` would not build.
- The vector stores (chromadb, faiss search) and the model clients are network services and foreign code. They enter the model only as the outcome of a query (the chunks it returns, or the exception it raises) and the reply a prompt gets. The retry, sleep and rate-limit paths of the clients are not modelled.
- The paper-loading loops of the scripts are not modelled: `for i in range(1, 4)` over files, and the store additions with their per-chunk exception handler. `ContextWindow.AnalyzeContextWithVectors` starts from the question loop.
- Timestamps come from the clock, so they are parameters (`AddUsageRecord`, `AddMetric`) or not modelled (the QA records).
- Floats are exact `real`s. Float rounding, and the float32 conversion of embeddings, are not modelled.
- `last_period > max_tokens * 0.8` is written as the exact comparison `5*last_period > 4*max_tokens`.
- faiss's `IndexFlatL2` is modelled by its dimension and its rows.
- Pandas cells are modelled as a string or a missing value only. Numeric cells, such as a year read as a float, are not modelled.
- `PerformanceMetric.metadata`, `ModelResponse.timestamp`/`metadata` and the `config` dict are not modelled. `AnalysisResult.metrics` is a map from names to reals.
- The aggregate getters group only by the three string fields. Python's `getattr` on another or an unknown attribute, and an empty-string `group_by`, are not modelled.
- Python dicts keep insertion order and Dafny maps have none. The key order is stated separately, through `GroupKeys`.
- `get_metrics` returns the live dict, so a caller can alias it. The model returns a value.
- Not modelled: the statistics mean, median and stdev in `get_average_response_time` and `get_token_usage_stats`, `get_vectorized_metrics`, and the performance analysis module. These are float statistics.
- `Text.Upper` maps ASCII letters only. Unicode case mapping is not modelled.
- The proportional truncation in the per-paper vector script is float ratio arithmetic.
- Ingest.ChunkText: requires `overlap < chunk_size` unless the text has no words, because on text with at least one word the source's loop never ends otherwise. The source's negative `chunk_size` slice semantics are not modelled.
- ContextWindow.TrimToBudget: requires that the empty string has no tokens and a non-negative budget, because the source's loop never ends otherwise.
- ContextQa.TrimTextSentenceSnap: stated only for `max_tokens >= 0`. The function itself follows Python's slicing for a negative budget.
