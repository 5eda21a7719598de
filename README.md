# Financial Document Analyzer — a verified model of its core

Financial Document Analyzer answers questions about financial filings (the
FinanceBench set) with retrieval-augmented generation. A PDF is partitioned
into elements, which are normalised and merged into chunks. The chunks are
enriched with model-written summaries and keywords, embedded, and upserted
into a vector collection. A question retrieves hits by vector search,
keyword (BM25) search, a hybrid of the two, or Reciprocal Rank Fusion of
both. An LLM judge reranks the hits, a chat model writes an answer that
cites them as `[i]`, and a second judge grades the answer against the
ground truth. Command-line tools run the ingestion stages over directories,
evaluate the whole question set with several Ollama hosts, and export the
graded answers as an HTML report.

This project models that core in Dafny, one module per source file, and
proves what the code promises about it. Models, chat calls, tokenizers,
the PDF partitioner, the index and the file system become parameters of the
modelled functions, so every property holds whatever those services return.

| module | file | models |
|---|---|---|
| `Chunking` | chunking.dfy | the token-budgeted chunker of src/ingestion/chunking.py |
| `StructuralChunks` | structural.dfy | the character-threshold chunker of src/graph/nodes/chunks.py |
| `Retrieve` | retrieve.dfy | hit conversion, Reciprocal Rank Fusion and mode dispatch of src/graph/nodes/retrieve.py |
| `Rerank` | rerank.dfy | candidate description and judge ordering of src/graph/nodes/rerank.py |
| `Generate` | generate.dfy | prompt context, sentinel, provider check and citation scan of src/graph/nodes/generate.py |
| `Evaluate` | evaluate.dfy | the verdict of src/services/evaluate.py |
| `Metadata` | metadata.dfy | keyword normalisation and `enrich_chunks` of src/ingestion/metadata.py |
| `Elements` | elements.dfy | `_norm_text`, the category mapping and the extractor loop of src/ingestion/elements.py, and `_norm_text` of src/graph/nodes/_elements.py |
| `NodeElements` | nodeelements.dfy | coordinate serialisation and the extractor of src/graph/nodes/elements.py |
| `Embeddings` | embeddings.dfy | embedding text, model cache and attach loop of src/ingestion/embeddings.py |
| `VectorStore` | vectorstore.dfy | property projection and the upsert loop of src/ingestion/vectorstore.py |
| `BatchEval` | batcheval.dfy | cli/batch_eval.py |
| `ExportEval` | export.dfy | cli/export_eval_html.py |
| `BatchIngest` | batchingest.dfy | cli/batch_ingest.py |
| `JsonlScan` | jsonlscan.dfy | the directory scan and `--output` guard shared by cli/ingest3_metadata.py, cli/ingest3_embed.py and cli/ingest4_embed.py |
| `Ingest3Metadata`, `Ingest3Embed`, `Ingest4Embed` | ingest3metadata.dfy, ingest3embed.dfy, ingest4embed.dfy | the output names and file choice of the three staged-ingestion commands, and the file loop of cli/ingest4_embed.py |
| `UploadNames` | uploadnames.dfy | `_safe_stem` and the destination of `_save_uploaded_to_local` in src/services/ingest.py |
| `GraphNode` | graphnode.dfy | `_format_ctx` and `sources` of graph/node.py |
| `ConfigLoader` | configloader.dfy | `get` of configs/config_loader.py |
| `UtilsConfig` | utilsconfig.dfy | `load_config`, `get_section` and `resolve_path` of src/utils/config.py |
| `Wrappers`, `Text`, `Paths`, `Sorting`, `Lists`, `Values`, `Chat` | | Option/Result, Python string operations, `pathlib`, Python's stable sort, order-preserving deduplication, `str()` of JSON scalars, and chat messages |

Where the code changes state step by step, the model does too. Such code
becomes a method with a loop, for example the chunkers, the fusion and
reranking loops, the upsert, the attach loop and the CLI loops. An
in-place update becomes an array (`GenerateEmbeddings`) or a class (the
model cache, the vector collection). Each such method is proved equal to a
specification function, and the properties the code promises are lemmas
about that function.

Where the specification of the system and the code disagree, the model
follows the code:
- In src/ingestion/chunking.py a title neither flushes the pending text nor
  is kept as a pending title. It only replaces the running section.
- A text chunk carries the section in force when it is flushed, not when it
  started.
- src/graph/nodes/generate.py and src/services/evaluate.py have no
  structured-output retry loop. A failing model call propagates.
- The evaluator has no fallback verdict of INCORRECT: a provider other
  than "ollama" raises.

## Model

| member | source | states |
|---|---|---|
| Chunking.Classify | src/ingestion/chunking.py:84-85 | an element's branch comes from its lower-cased type (noise, title, table, body, or skipped), and its text is the stripped `text` value with that value's token length |
| Chunking.ContentIndicesFacts | src/ingestion/chunking.py:87-141 | the indices that belong in some chunk increase, and they are exactly the tables and body elements read so far |
| Chunking.SectionBefore | src/ingestion/chunking.py:91-94 | the running section is the stripped text of the last title with non-empty text, so it is never the empty string |
| Chunking.Flush | src/ingestion/chunking.py:57-81 | `flush_text_chunk` leaves the state unchanged when the buffer is empty; otherwise it appends one text chunk with the next id, and the buffer, token count and section end up as the source leaves them |
| Chunking.FlushOk | src/ingestion/chunking.py:63-78 | the flushed chunk has the space-joined stripped texts, the first and last buffered pages, the buffered indices and the section in force at the flush, and the loop invariant still holds |
| Chunking.MergedSection | src/ingestion/chunking.py:75-141 | a merged chunk carries the section in force when it is flushed, at the first element after its last one that is not a title or a skipped element. That element is the end of the input, a noise element, a table, an oversized body element, or a body element that would take the chunk over `max_tokens`, so chunks are filled greedily |
| Chunking.StepNoise | src/ingestion/chunking.py:87-89 | a header, footer, page number or page break flushes the buffer and appears in no chunk. The new state is exactly the flushed state |
| Chunking.StepTitle | src/ingestion/chunking.py:91-94 | a title neither flushes nor emits. The new state is the old one with the section replaced by the title's text when that text is non-empty, and unchanged otherwise |
| Chunking.StepAlone | src/ingestion/chunking.py:96-133 | a table, or a body element over the budget, flushes the buffer and becomes a chunk of its own. The chunk has `source_elements` [idx], its page as both start and end, its full text, and HTML only when `table_as_html` is truthy. The new state is exactly the flushed state plus that chunk |
| Chunking.StepBody | src/ingestion/chunking.py:135-141 | a body element within the budget flushes first exactly when it would take the running token count over `max_tokens`, then joins the buffer and adds its tokens. So the buffer's token total never exceeds the budget, and a flush happens only when the next element does not fit |
| Chunking.Step | src/ingestion/chunking.py:83-141 | one loop pass computes exactly the next state of the specified fold, and keeps the invariant: chunk ids count from 1, the chunks followed by the buffer hold exactly the content elements read, every chunk is well formed and greedily closed, and the section is the last non-empty title |
| Chunking.MergeClassified | src/ingestion/chunking.py:49-145 | the loop returns exactly the specified chunk list. Chunk ids are 1, 2, 3, … in emission order. Concatenating every chunk's `source_elements` gives exactly the table and body indices in increasing order. Every chunk is well formed, and a text chunk is closed only when the next body element does not fit |
| Chunking.MergeElementsToChunks | src/ingestion/chunking.py:32-145 | the result is exactly the specified merge of the classified elements, with the budget, tokenizer length and body-type set as parameters, so the same promises hold |
| Chunking.ChunksNonEmpty | src/ingestion/chunking.py:105-138 | every chunk holds at least one element index |
| Chunking.FittingBodiesShareChunk | src/ingestion/chunking.py:135-141 | two body elements whose tokens together fit `max_tokens` end up in a single chunk with `source_elements` [0, 1] |
| Chunking.NoContentNoChunks | src/ingestion/chunking.py:61-143 | without a table or body element, including an empty element list, there is no chunk |
| Chunking.InSomeChunkIff | src/ingestion/chunking.py:87-141 | element j is in some chunk exactly when it is a table or a body element; noise, titles and unknown types appear in none |
| Chunking.TextTypeKind | src/ingestion/chunking.py:84-116 | an element typed "text" is body only when "text" is among the body types, and is skipped otherwise |
| Chunking.TextElementsDropped | src/ingestion/chunking.py:13-23 | with the body types as written, no element typed "text" lands in any chunk |
| Chunking.TextOnlyDocumentHasNoChunks | src/ingestion/chunking.py:13-23 | as written, a one-element document whose narrative element is typed "text" gives no chunk |
| Chunking.TextElementsKept | src/ingestion/chunking.py:116 | with "text" added to the body types, every element typed "text" lands in some chunk |
| StructuralChunks.BoundaryOk | src/graph/nodes/chunks.py:51-62 | a boundary element becomes its own chunk, with its type, stripped text, page as start and end, and `source_elements` [i] |
| StructuralChunks.StepBoundary | src/graph/nodes/chunks.py:34-63 | at a boundary, the pending run is first closed as a text chunk whose document comes from the boundary element; then the boundary's own chunk follows and nothing is left pending |
| StructuralChunks.StepText | src/graph/nodes/chunks.py:65-84 | a non-boundary element joins the pending run, and the run closes as a text chunk as soon as its summed raw text length reaches `min_chars` |
| StructuralChunks.TextChunkIsOk | src/graph/nodes/chunks.py:36-97 | a closed run is a text chunk over a contiguous range of non-boundary elements. Every proper prefix of the run is below `min_chars`. Its text is the space-join of the stripped truthy texts, and its pages are the first and last element's |
| StructuralChunks.Close | src/graph/nodes/chunks.py:35-84 | closing a run appends a chunk with the next id and extends the covered range up to the run's end |
| StructuralChunks.Merge | src/graph/nodes/chunks.py:7-100 | chunk ids are 1, 2, 3, … with no gap. Concatenating all `source_elements` gives exactly 0..len(elements)-1 in order, so no element is dropped or repeated. Every chunk is a boundary chunk or a text chunk as above |
| StructuralChunks.TextChunkNoBoundary | src/graph/nodes/chunks.py:34-49 | no text chunk holds a title or table element: pending text is emitted before a boundary's chunk |
| StructuralChunks.ChunkOfBoundary | src/graph/nodes/chunks.py:51-61 | any chunk that holds a boundary element is that element's own single-element chunk |
| StructuralChunks.BoundaryAlone | src/graph/nodes/chunks.py:34-62 | every element whose type is a boundary type forms a chunk of its own |
| StructuralChunks.NoElementsNoChunks | src/graph/nodes/chunks.py:25-87 | there are never more chunks than elements, and an empty element list gives an empty chunk list |
| Retrieve.HitFromObjKeepsProps | src/graph/nodes/retrieve.py:18-39 | a hit carries every stored property, `element_type` becomes its `type`, and an object whose properties are None gives a hit whose fields are all None |
| Retrieve.HitFromObj | src/graph/nodes/retrieve.py:27 | `o.properties or {}`: an object without properties gives None chunk id, document, type and text |
| Retrieve.AccumulateLeg | src/graph/nodes/retrieve.py:61-68 | one leg's loop succeeds exactly when no rank makes `rrf_k + rank` zero. It adds 1/(rrf_k + rank) to each key's score with ranks from 1, keeps each key's first hit, and records keys in first-seen order |
| Retrieve.RrfMerge | src/graph/nodes/retrieve.py:42-70 | the two accumulation loops, the stable sort by score and the cut at `merge_topk` give exactly the specified fused ranking of first hits |
| Retrieve.RrfMergedFails | src/graph/nodes/retrieve.py:63-67 | the merge fails (division by zero) exactly when some rank makes `rrf_k + rank` zero, and never when `rrf_k` ≥ 0 |
| Retrieve.ContributionPositive | src/graph/nodes/retrieve.py:61-68 | with `rrf_k` ≥ 0 a leg's contribution to a key is never negative, and it is positive when the key occurs in that leg |
| Retrieve.BothLegsScoreHigher | src/graph/nodes/retrieve.py:63-67 | with `rrf_k` ≥ 0, a key found by both legs scores strictly more than its contribution from either leg alone |
| Retrieve.RankingKeys | src/graph/nodes/retrieve.py:59-69 | the ranking holds every key of either leg exactly once |
| Retrieve.RrfMergedKeys | src/graph/nodes/retrieve.py:69-70 | the merged keys are the first `merge_topk` of the ranking, with no duplicate (source_doc, chunk_id). For `merge_topk` ≥ 0 there are min(merge_topk, number of distinct keys) of them |
| Retrieve.RrfMergedBounded | src/graph/nodes/retrieve.py:70 | a non-negative `merge_topk` bounds the number of merged hits, each key at most once |
| Retrieve.RrfMergedOrdered | src/graph/nodes/retrieve.py:69 | merged hits come in non-increasing fused-score order |
| Retrieve.RankingTiesInSeenOrder | src/graph/nodes/retrieve.py:59-69 | keys with equal scores keep their first-seen order: vector leg before keyword leg, then by rank |
| Retrieve.RrfMergedFirstHit | src/graph/nodes/retrieve.py:64-70 | the hit returned for a key is its first occurrence, so when the vector leg found the key, its copy wins |
| Retrieve.EffectiveTopk | src/graph/nodes/retrieve.py:94 | `topk or qsec.get("topk", 10)`: a missing or zero argument defers to the configuration, then to 10 |
| Retrieve.ModeOf | src/graph/nodes/retrieve.py:95 | the mode is the argument when it is non-empty, else the configured `retriever_mode` or "vector", lower-cased |
| Retrieve.PlanOf | src/graph/nodes/retrieve.py:94-101 | the vector, keyword and merge limits default to the effective `topk` |
| Retrieve.QueryVector | src/graph/nodes/retrieve.py:104-110 | a vector exists exactly for the vector, hybrid and fusion modes; a supplied vector is used as is, and otherwise the question is embedded |
| Retrieve.FilterOf | src/graph/nodes/retrieve.py:117-119 | a source filter is applied exactly when `source_doc` is a non-empty string |
| Retrieve.RetrieveModeCaseInsensitive | src/graph/nodes/retrieve.py:95 | two modes that lower-case alike give the same result |
| Retrieve.RetrieveUnsupportedMode | src/graph/nodes/retrieve.py:134-200 | ValueError is raised exactly for a mode outside vector, keyword, hybrid and fusion; the first three always return hits |
| Retrieve.RetrieveEmbedsOnlyWhenNeeded | src/graph/nodes/retrieve.py:104-110 | when a vector was supplied, or the mode needs none, the question embedder has no influence on the result |
| Retrieve.RetrieveLimitsPerMode | src/graph/nodes/retrieve.py:94-174 | vector and hybrid results depend on `topk` only, and keyword results on `keyword_topk` only, among the limits |
| Retrieve.RetrieveFusionBounded | src/graph/nodes/retrieve.py:175-198 | fusion returns at most `merge_topk` hits, one per (source_doc, chunk_id) |
| Rerank.TruncateTokens | src/graph/nodes/rerank.py:21-28 | "" for empty text or a budget ≤ 0; the text unchanged when it fits the budget; otherwise exactly the right-stripped decoding of the first `max_tokens` tokens followed by "..." |
| Rerank.CandidateContent | src/graph/nodes/rerank.py:31-65 | the `parts` loop builds exactly the " \| "-join of the labelled non-empty fields |
| Rerank.LabelledEmpty | src/graph/nodes/rerank.py:65 | a description is "" exactly when section title, keywords, summary, text and type are all empty |
| Rerank.LabelledOrder | src/graph/nodes/rerank.py:41-63 | with every field present, the description lists them in the order section_title, keywords, summary, excerpt, type |
| Rerank.LabelledSkipsEmpty | src/graph/nodes/rerank.py:43-62 | only the non-empty fields appear, each exactly once |
| Rerank.CandIds | src/graph/nodes/rerank.py:102-108 | candidate ids are the distinct 1-based positions within the window whose description is not empty |
| Rerank.CollectCandidates | src/graph/nodes/rerank.py:99-109 | the first loop gives the candidate ids, an id-to-hit map holding hit id-1 for every candidate, and the empty-description hits in order |
| Rerank.TakePicks | src/graph/nodes/rerank.py:124-131 | the second loop takes the judge's ids in order, skipping None, repeats and non-candidates; `seen` is the set of picks |
| Rerank.AppendUnpicked | src/graph/nodes/rerank.py:135-137 | the third loop appends the candidates the judge did not pick, in ascending id order |
| Rerank.ExtendRest | src/graph/nodes/rerank.py:138-141 | the skipped hits, then the hits beyond the window, follow the candidates |
| Rerank.JudgedOrder | src/graph/nodes/rerank.py:124-141 | after a reply the ordering succeeds exactly when some pick is usable, and then it is the specified ordering |
| Rerank.RerankHits | src/graph/nodes/rerank.py:68-144 | the whole function equals the value `Reranked`: the input unchanged without hits or question, and the original order cut to `topk` when there is no candidate, the judge failed or no id is usable |
| Rerank.PicksInJudgeOrder | src/graph/nodes/rerank.py:124-131 | the picks are exactly the candidate ids the judge returned, each once, in the order of their first mention |
| Rerank.OrderingPermutation | src/graph/nodes/rerank.py:135-141 | after a successful judge call the ordering lists every input position exactly once |
| Rerank.OrderingLayout | src/graph/nodes/rerank.py:131-141 | the picks come first in the judge's order, and every position beyond the window stays in place |
| Rerank.ArrangedPermutation | src/graph/nodes/rerank.py:91-144 | before the cut, the arrangement is always a rearrangement of the input hits |
| Rerank.ArrangedUnjudged | src/graph/nodes/rerank.py:133-134 | without a usable pick the arrangement is the input order |
| Rerank.ArrangedLayout | src/graph/nodes/rerank.py:131-141 | the judge's picks lead the arrangement and hits beyond the candidate window keep their places |
| Rerank.RerankedReorders | src/graph/nodes/rerank.py:85-144 | no hit appears more often than in the input. Without hits or question the input comes back. Otherwise the length is min(topk, len(hits)) as Python slices, and the result is a permutation when `topk` does not cut |
| Generate.PromptContext | src/graph/nodes/generate.py:33-44 | the context is no longer than the hits, and entry i is numbered i + 1 with stripped, non-empty text |
| Generate.PromptContextKeeps | src/graph/nodes/generate.py:33-44 | every hit with non-blank text is in the context, with its own doc id, pages and stripped text, as number 1 + the count of non-blank hits before it, so the kept hits keep their order |
| Generate.PromptContextOnto | src/graph/nodes/generate.py:33-44 | every context entry is numbered by its position and is a non-blank hit at its rank among the non-blank hits, so nothing else enters the context |
| Generate.ContextMatchesCitations | src/graph/nodes/generate.py:33-109 | the context numbers the hits 1..len(topk), as the citation scan does, exactly when no hit is blank; then entry i carries hit i's doc id, pages and stripped text |
| Generate.Citations | src/graph/nodes/generate.py:109 | citation indices are strictly ascending, hence unique, and lie within [1, len(topk)]; index i is cited exactly when "[i]" occurs in the answer |
| Generate.Generator | src/graph/nodes/generate.py:72-110 | empty hits give {"No Answer", [], 0} and nothing else does. A provider other than "ollama" raises NotImplementedError. Otherwise the answer is the model's reply to the [system, user] messages, `used` is len(topk) and `source` is the citation scan |
| Evaluate.FirstToken | src/services/evaluate.py:40 | `split()[0]` of a string that does not start with whitespace is its longest whitespace-free prefix |
| Evaluate.VerdictMeaning | src/services/evaluate.py:39-43 | the result is the stripped reply and the reasoning passes through. A blank or missing result gives "" and is_same false. is_same holds exactly when the result starts with "true" in any letter case, followed by whitespace or the end |
| Evaluate.QaEvaluate | src/services/evaluate.py:16-43 | a provider other than "ollama" raises NotImplementedError; otherwise the verdict is read off the model's reply to the single user message |
| Metadata.NormalizeKeywords | src/ingestion/metadata.py:32-45 | the loop, with its `seen` set and its break at the cap, returns exactly the specified keyword list |
| Metadata.KeywordStep | src/ingestion/metadata.py:35-42 | one iteration drops a blank or already-seen item and otherwise keeps it in its stripped spelling, recording its lower-cased key |
| Metadata.NormalizedKeywords | src/ingestion/metadata.py:35-44 | keywords are stripped and non-empty, no two are equal case-insensitively, and there are at most `max_keywords` of them (at most one when it is ≤ 0) |
| Metadata.DistinctiveMembers | src/ingestion/metadata.py:35-42 | an item is collected exactly when it is the first non-blank item with its lower-cased key, and then in that first spelling |
| Metadata.DistinctiveOrder | src/ingestion/metadata.py:34-42 | the collected keywords keep the order in which their keys first occur in the input |
| Metadata.NormalizedKeywordsMeaning | src/ingestion/metadata.py:32-45 | each output is the first spelling of its key, in first-occurrence order, and the list is cut only when it reached the cap |
| Metadata.NormalizeIdempotent | src/ingestion/metadata.py:29-45 | normalising an already-normalised list with the same cap returns it unchanged |
| Metadata.ChunkMessages | src/ingestion/metadata.py:65-78 | no messages exactly when the chunk's stripped text is blank; otherwise exactly a system message and a user message |
| Metadata.EnrichedRules | src/ingestion/metadata.py:107-127 | only `summary` and `keywords` ever change. A chunk with metadata is untouched unless overwrite is set, and so is one with blank text or a failed call. Otherwise the summary becomes the stripped reply summary ("" when absent) and the keywords the capped normalised reply keywords |
| Metadata.EnrichedAsWritten | src/ingestion/metadata.py:117 | with the chat call as written, which passes `think` to an adapter without that parameter, every chunk comes back unchanged, so a chunk without metadata never gains any |
| Metadata.EnrichChunks | src/ingestion/metadata.py:81-131 | a provider other than "ollama" raises before any chunk is touched. Otherwise each chunk is enriched in place and the same chunks are returned, one per input, in order |
| Elements.Collapse | src/ingestion/elements.py:19-35 | the regular-expression substitution never lengthens the text |
| Elements.CollapseShape | src/ingestion/elements.py:35 | after substitution the only whitespace is a single plain space, never two in a row |
| Elements.NormTextShape | src/ingestion/elements.py:21-35 | `_norm_text` output has no leading or trailing whitespace, and every internal run of whitespace is one space. It is "" exactly when the input is whitespace only. The same code is at src/graph/nodes/_elements.py:28-31 |
| Elements.NormTextIdempotent | src/ingestion/elements.py:32-35 | applying `_norm_text` twice equals applying it once. The same code is at src/graph/nodes/_elements.py:28-31 |
| Elements.NormTextKeepsText | src/graph/nodes/_elements.py:28-31 | normalisation only touches whitespace: the other characters are kept, in order. The same code is at src/ingestion/elements.py:32-35 |
| Elements.MapCategory | src/graph/nodes/elements.py:18-27 | the result is always "title", "table" or "text". The same code is at src/ingestion/elements.py:37-55, where "pagebreak" is never returned despite the docstring |
| Elements.MapCategoryMeaning | src/ingestion/elements.py:37-55 | "title" and "table" come exactly from categories that lower-case to them. The mapping is case-insensitive, and None or "" gives "text". The same code is at src/graph/nodes/elements.py:18-27 |
| Elements.Converted | src/ingestion/elements.py:94-131 | before sorting, every output element has non-blank text, `source_doc` equal to the argument, `doc_id` "<doc>_p<page>" when the page is known and "<doc>" otherwise, and type title, table or text |
| Elements.ConvertOne | src/ingestion/elements.py:95-131 | one iteration drops an element whose normalised or cleaned text is blank, and otherwise gives its record |
| Elements.ExtractElements | src/ingestion/elements.py:92-136 | the loop then the in-place sort give exactly the specified element list |
| Elements.ExtractedMeaning | src/ingestion/elements.py:133-134 | the output is a permutation of the converted elements and is sorted by page, None counting as 0. Within a page the original order is kept. Every element is well formed |
| NodeElements.KeptPointsAppend | src/graph/nodes/elements.py:54-68 | points are filtered one by one, in order |
| NodeElements.KeptPointsEmpty | src/graph/nodes/elements.py:54-71 | no point survives exactly when no point is a dictionary, or a two-element list or tuple, whose coordinates both convert |
| NodeElements.NormalizePoints | src/graph/nodes/elements.py:54-68 | the loop keeps exactly the converting points, in order |
| NodeElements.Serialized | src/graph/nodes/elements.py:30-75 | None when metadata, coordinates or points are missing or no point survives; otherwise the coordinates with only `points` replaced by the kept points |
| NodeElements.SerializeCoordinates | src/graph/nodes/elements.py:30-75 | the function with its loop gives exactly the specified serialisation |
| NodeElements.Nodes | src/graph/nodes/elements.py:111-141 | every output carries the given doc_id and caption None. Its text is not blank, and its type is title, table or text |
| NodeElements.NodesAppend | src/graph/nodes/elements.py:112-140 | elements are converted one by one, so the output order is the input order |
| NodeElements.NodesEmpty | src/graph/nodes/elements.py:127-129 | the output is empty exactly when every element's text is blank |
| NodeElements.ExtractNodeElements | src/graph/nodes/elements.py:103-141 | the function equals the conversion of the partition used: the first one, or the high-resolution one when no element of a non-empty first partition has coordinates and re-partitioning did not raise |
| Embeddings.TextForEmbeddingCases | src/ingestion/embeddings.py:26-39 | the embedded text is the section title, a newline and the text when both are non-empty, and otherwise whichever one is non-empty or "". A None title or text counts as empty |
| Embeddings.Texts | src/ingestion/embeddings.py:87 | one embedding text per chunk |
| Embeddings.AttachedMeaning | src/ingestion/embeddings.py:102-104 | when there are enough vectors, chunk i gets vector i, and nothing else about a chunk changes, so the embedded texts stay the same |
| Embeddings.AttachedIdempotent | src/ingestion/embeddings.py:103-104 | attaching the same vectors twice is the same as attaching them once |
| Embeddings.AttachedPrefix | src/ingestion/embeddings.py:103-104 | only the first len(chunks) vectors matter |
| Embeddings.AttachedStep | src/ingestion/embeddings.py:103-104 | each turn of the attach loop writes only chunk i |
| Embeddings.ModelCache.GetModel | src/ingestion/embeddings.py:42-54 | `_get_model` loads exactly when the cache does not hold this model name on this device, and otherwise returns the cached model unchanged. A successful load fills the cache and a failed one leaves it as it was |
| Embeddings.ConsecutiveLoads | src/ingestion/embeddings.py:42-54 | two calls in a row with the same name and device load at most once, and not at all when the model was already cached |
| Embeddings.Vectors | src/ingestion/embeddings.py:90-100 | one vector per encoded text, normalised only when asked |
| Embeddings.GenerateEmbeddings | src/ingestion/embeddings.py:57-113 | a null `batch_size` raises before anything else and a failed load raises leaving the chunks alone. Otherwise the chunks are updated in place with the normalised encoder vectors of their texts. The call fails with IndexError when there are no vectors or more vectors than chunks, and otherwise returns the updated chunks |
| VectorStore.PropsDefaults | src/ingestion/vectorstore.py:223-232 | an absent source document becomes "unknown". The identifiers and type become strings, "" when absent and "None" when null. An absent text becomes "", and the pages pass through |
| VectorStore.VectorOf | src/ingestion/vectorstore.py:238 | a non-empty `embedding` wins, and otherwise `vector` is used, None when absent |
| VectorStore.Collection.Insert | src/ingestion/vectorstore.py:248 | insert succeeds exactly when the key is new and the server accepts this request, and only then adds the object |
| VectorStore.Collection.Replace | src/ingestion/vectorstore.py:253 | replace succeeds exactly when the key exists and the server accepts this request, and only then overwrites the object |
| VectorStore.Failures | src/ingestion/vectorstore.py:255-256 | at most one failure per row |
| VectorStore.UpsertedStep | src/ingestion/vectorstore.py:236-257 | each row either overwrites or creates the object at its key, or counts as one failure when the server refuses that row's write |
| VectorStore.UpsertObjects | src/ingestion/vectorstore.py:234-261 | the upsert loop counts every row as either written or failed, and leaves the collection as the specified upsert of all rows in order |
| VectorStore.UpsertedUntouched | src/ingestion/vectorstore.py:236-257 | keys that no row writes keep what they held |
| VectorStore.UpsertedLast | src/ingestion/vectorstore.py:236-257 | a written key ends up holding the last row under it whose write was accepted; later refused rows with that key leave it in place |
| VectorStore.UpsertedKeys | src/ingestion/vectorstore.py:236-257 | the keys afterwards are the old keys plus the keys of the rows whose write was accepted |
| VectorStore.UpsertIdempotent | src/ingestion/vectorstore.py:234-235 | uploading the same rows again changes nothing, so the object count stays the same. This is the idempotence the upsert path is meant to give |
| VectorStore.LastWith | src/ingestion/vectorstore.py:236 | the position of the last row that writes a key, so every later row with that key is refused |
| VectorStore.SameTripleSameObject | src/ingestion/vectorstore.py:239-245 | rows agreeing on (source_doc, doc_id, chunk_id) target one object, which ends up holding the later row when its write is accepted |
| VectorStore.SameTripleSecondRefused | src/ingestion/vectorstore.py:246-257 | when the later of two rows with one key triple is refused on its own and the earlier is accepted, the object keeps the earlier row and one failure is counted |
| VectorStore.Settings | src/ingestion/vectorstore.py:212-217 | each key present in `vectordb.upload` overrides the argument of the same name, even with a null value, and an absent key keeps the argument |
| BatchEval.QuestionsStep | cli/batch_eval.py:77-83 | each line is skipped when blank. Otherwise it is parsed and yielded exactly when the allow-list is empty or names the row's document |
| BatchEval.IterQuestions | cli/batch_eval.py:62-84 | the generator yields exactly the specified rows, in line order |
| BatchEval.QuestionsMeaning | cli/batch_eval.py:72-83 | an allow-list of only blank names filters nothing. Otherwise every row yielded names an allowed document, and every row comes from a non-blank line |
| BatchEval.NormalizeHostsRules | cli/batch_eval.py:87-95 | a string gives itself when non-blank and nothing otherwise. A list gives its stripped non-blank items in order, and None or any other type gives nothing. Every host returned is non-blank |
| BatchEval.ResolveHosts | cli/batch_eval.py:98-105 | the batch hosts are used when they normalise to something, and otherwise the global `ollama.hosts` |
| BatchEval.RoundRobin | cli/batch_eval.py:246-261 | there is no host exactly when the host list is empty. The host depends only on the index, repeats with the period of the host list, and is always one of the hosts. Question i of the first round gets host i |
| BatchEval.Workers | cli/batch_eval.py:252 | the pool has at least one worker and never more workers than rows. A request between 1 and the row count is honoured |
| BatchEval.ProcessRow | cli/batch_eval.py:108-183 | the result carries its index and the row's base fields. It is an error exactly when the graph or the judge raised, and an error record has classification ERROR, empty answer, citations and hits, and the raised message. A success has no error field, and carries the graph's answer, citations and hits and the judge's classification and reasoning |
| BatchEval.EveryRowErrorsAsWritten | cli/batch_eval.py:153-158 | with the judge called as written, passing `host` to `qa_evaluate`, which takes no such parameter, every row becomes an error record with classification ERROR, empty answer and hits |
| BatchEval.ClassificationLostAsWritten | cli/batch_eval.py:159 | with a judge that returns `qa_evaluate`'s dictionary, which has no `classification` key, every successful row has no classification |
| BatchEval.Expected | cli/batch_eval.py:244-250 | one result per question, each carrying its own index |
| BatchEval.ExpectedOrdered | cli/batch_eval.py:271 | the sort key is a total preorder, and results indexed 0..n-1 are strictly sorted by it |
| BatchEval.ResortRestoresOrder | cli/batch_eval.py:265-271 | whatever order the workers finish in, sorting by index gives the results in question order |
| BatchEval.Errors | cli/batch_eval.py:249-268 | the error count never exceeds the number of results |
| BatchEval.ExpectedAt | cli/batch_eval.py:245-247 | question i is processed with its own row and the round-robin host for i |
| BatchEval.ErrorsStep | cli/batch_eval.py:249 | each result adds one to the error count exactly when it is an error |
| BatchEval.EvaluateRows | cli/batch_eval.py:240-274 | every question is processed once, and the error counter equals the number of error results. The records written are, in question order, each question's `_process_row` record with its round-robin host |
| BatchIngest.PdfPaths | cli/batch_ingest.py:48-51 | the walk keeps at most one PDF per entry |
| BatchIngest.PdfPathsStep | cli/batch_ingest.py:49-51 | each walked entry is appended exactly when it is a file with a ".pdf" suffix in any case |
| BatchIngest.PdfPathsMember | cli/batch_ingest.py:49-51 | a path is collected exactly when the walk yields it as a file and its suffix lower-cases to ".pdf" |
| BatchIngest.CollectPdfs | cli/batch_ingest.py:44-52 | a missing raw directory gives no PDFs. Otherwise the result is the sorted list of PDFs the walk yields |
| BatchIngest.CollectedPdfs | cli/batch_ingest.py:52 | the collected list is in path order and is a permutation of the PDFs walked. It holds exactly the walked files whose suffix is ".pdf" in any case |
| BatchIngest.StemsStep | cli/batch_ingest.py:63-67 | each PDF visited adds its stem to the stems seen |
| BatchIngest.StemsMember | cli/batch_ingest.py:63-67 | a stem is seen exactly when some PDF has it |
| BatchIngest.SortedNames | cli/batch_ingest.py:69 | `sorted(missing)` gives every missing name once, in string order |
| BatchIngest.MatchStems | cli/batch_ingest.py:61-67 | the loop keeps, in order, the PDFs whose stem was requested. The names still missing afterwards are the requested stems that no PDF has |
| BatchIngest.FilterDocs | cli/batch_ingest.py:55-71 | `_filter_docs` returns the selected PDFs. It warns once per requested stem that matched nothing, in sorted order |
| BatchIngest.SelectedAll | cli/batch_ingest.py:57-59 | without a non-blank requested name, every PDF is kept in order |
| BatchIngest.SelectedMatches | cli/batch_ingest.py:57-66 | with a request, exactly the PDFs whose stem equals (case-sensitively) the stem of a non-blank requested name are kept, in their order |
| BatchIngest.MissingMeaning | cli/batch_ingest.py:62-70 | a stem is reported missing exactly when a non-blank requested name has it and no PDF does |
| BatchIngest.StemOfPdfName | cli/batch_ingest.py:57 | requesting "X.pdf" selects the same documents as requesting "X" |
| JsonlScan.ScanMeaning | cli/ingest3_metadata.py:53-57 | the scan is in path order. It holds exactly the listed files that end with the wanted ending and whose suffix is ".jsonl" in any case. The same code is at cli/ingest4_embed.py:56-70 |
| JsonlScan.EndingGivesSuffix | cli/ingest3_embed.py:50 | when the ending itself ends in ".jsonl", a name with that ending has the ".jsonl" suffix, so the suffix test adds nothing |
| JsonlScan.GatherChunkFilesMeaning | cli/ingest3_metadata.py:47-62 | an explicit file is used alone. Otherwise the result is a non-empty sorted list of "_chunks.jsonl" files of the directory, and the errors are exactly a missing directory and an empty scan. The same code is at cli/ingest3_embed.py:42-56 |
| JsonlScan.CheckOutput | cli/ingest3_metadata.py:76-77 | `--output` without `--chunks` is exactly the error case. The same guard is at cli/ingest3_embed.py:61-62 and cli/ingest4_embed.py:80-81 |
| Ingest3Metadata.DefaultOutputPathMeaning | cli/ingest3_metadata.py:65-71 | the default output is a file directly inside the metadata directory, and its name always ends with "_metadata.jsonl" |
| Ingest3Metadata.MetadataFileNameCases | cli/ingest3_metadata.py:67-70 | "<doc>_chunks.jsonl" becomes "<doc>_metadata.jsonl" when that ending occurs only at the end, and any other name keeps its stem |
| Ingest3Embed.DefaultOutputOfChunkFile | cli/ingest3_embed.py:84 | "<doc>_chunks.jsonl" goes to "<doc>.jsonl" in the embeddings directory when "_chunks" occurs only there |
| Ingest3Embed.DefaultOutputOfBareName | cli/ingest3_embed.py:84 | a file named "_chunks" loses its whole name, so its default output is the embeddings directory itself |
| Ingest4Embed.GatherInputFilesPrecedence | cli/ingest4_embed.py:46-75 | an explicit file wins. Next come the metadata files, when metadata is on, its directory exists and it holds some. Otherwise the chunk files are gathered as in the chunk-only stage. A success is never empty |
| Ingest4Embed.OutputNameKept | cli/ingest4_embed.py:106-110 | a name with neither ending is kept, and a name with either ending still ends in ".jsonl" |
| Ingest4Embed.OutputNameOfDoc | cli/ingest4_embed.py:106-110 | "<doc>_metadata.jsonl" and "<doc>_chunks.jsonl" both go to "<doc>.jsonl" when the ending occurs only there |
| Ingest4Embed.EmbedFiles | cli/ingest4_embed.py:93-116 | the loop over the input files produces exactly the specified writes and ending |
| Ingest4Embed.WritesFailure | cli/ingest4_embed.py:94-95 | the loop fails exactly when some input file is missing |
| Ingest4Embed.WritesNonEmpty | cli/ingest4_embed.py:100-102 | a file without rows is never written |
| Ingest4Embed.WritesComplete | cli/ingest4_embed.py:93-116 | when no file is missing, each file with rows is written once, in order, to its output path with its row count, and files without rows are skipped |
| UploadNames.KeepSafe | src/services/ingest.py:24 | filtering never lengthens the stem |
| UploadNames.KeepSafeChars | src/services/ingest.py:24 | only letters, digits, "_", "-" and "." survive, in their order, and an all-safe stem is kept whole |
| UploadNames.SafeOfMeaning | src/services/ingest.py:24 | the safe form has at most 128 characters, all safe, taken in order from the stem. A stem of at most 128 safe characters is kept as it is |
| UploadNames.SafeStemMeaning | src/services/ingest.py:22-24 | `_safe_stem` gives at most 128 safe characters taken in order from the stem of the name |
| UploadNames.ForcePdfMeaning | src/services/ingest.py:31-39 | `with_suffix` fails exactly on an empty name. Otherwise the result ends in ".pdf" in some case, stays in the same directory, and a name already ending in ".pdf" is kept |
| UploadNames.SaveUploadWrites | src/services/ingest.py:26-42 | the file is saved at the forced-".pdf" safe destination. A stream is always written, and a local file is copied exactly when it is not already the destination |
| UploadNames.DestinationInside | src/services/ingest.py:30-39 | a safe stem other than "" and "." gives a file directly inside the raw directory |
| UploadNames.EmptyStemEscapes | src/services/ingest.py:30-32 | as written, "###.pdf" has an empty safe stem, so the upload is saved as "pdfs.pdf" beside the raw directory "data/pdfs" rather than inside it |
| UploadNames.SafeNamePlain | src/services/ingest.py:29 | the corrected name is never "", "." or contains "/", because the stem of the default upload name stands in for such a stem |
| UploadNames.SafeDestinationInside | src/services/ingest.py:26-42 | corrected: every upload lands directly inside the raw directory under a ".pdf" name |
| UploadNames.SafeDestinationAgrees | src/services/ingest.py:30-39 | the correction changes nothing for names that already landed inside |
| GraphNode.FormatContext | graph/node.py:14-22 | the loop of `_format_ctx` builds exactly the specified context |
| GraphNode.Blocks | graph/node.py:16-21 | one block per document |
| GraphNode.BlocksMeaning | graph/node.py:16-21 | block k is document k, numbered k + 1 |
| GraphNode.BlockShape | graph/node.py:18-20 | a block starts "[i] <source>". " p.<page>" is added only for a truthy page, so a missing, None, 0 or "" page adds nothing, and a missing source shows "?" |
| GraphNode.FormatCtxMeaning | graph/node.py:22 | only an empty document list gives "(no context)". Otherwise the text starts with block 1, and each further document adds the separator and its block at the end |
| GraphNode.Sources | graph/node.py:43-46 | one source entry per document |
| GraphNode.SourcesIds | graph/node.py:43-46 | entry k has id k + 1, so the ids strictly ascend. A missing or None source gives None, and a present page is kept |
| GraphNode.SourcesMatchBlocks | graph/node.py:16-46 | the id of entry k is the number of the document's block in the context, so a citation "[i]" names the entry with id i |
| ConfigLoader.GetLoop | configs/config_loader.py:26-43 | the loop of `get` walks exactly as the specified lookup |
| ConfigLoader.GetMeaning | configs/config_loader.py:38-43 | `get` gives the reached value whenever every key is present, even a None value, and the default otherwise. With no keys it gives the configuration itself |
| ConfigLoader.ReachAppend | configs/config_loader.py:38-43 | a key path is reached in two legs, the first keys and then the rest |
| ConfigLoader.GetComposes | configs/config_loader.py:38-43 | a lookup on k1..kn equals a lookup on the later keys from the value the first keys reach |
| UtilsConfig.LoadConfig | src/utils/config.py:24-29 | a missing file raises FileNotFoundError, and otherwise the parsed file is returned |
| UtilsConfig.SectionDefault | src/utils/config.py:44 | a falsy default becomes {} |
| UtilsConfig.GetSectionMeaning | src/utils/config.py:44 | a present section is returned as stored, even a falsy one. A missing one gives the default, or {} when the default is None or empty |
| UtilsConfig.ResolvePath | src/utils/config.py:58-62 | the loop of `resolve_path` gives exactly the specified walk |
| UtilsConfig.ResolveFromEmpty | src/utils/config.py:59-62 | once a key is missing, the walk holds {}, so the result is ValueError whatever keys follow |
| UtilsConfig.ResolveMeaning | src/utils/config.py:58-62 | `resolve_path` succeeds exactly when every key is present and the value reached is a string, and then returns that string. A missing key anywhere gives ValueError |
| ExportEval.UnescapeCons | cli/export_eval_html.py:33-34 | each character's entity decodes back to that character |
| ExportEval.EscapeRoundTrip | cli/export_eval_html.py:33-34 | escaping loses nothing, because unescaping the five entities gives the text back |
| ExportEval.EscapeClean | cli/export_eval_html.py:33-34 | escaped text holds no "<", ">", '"' or "'", so it cannot close markup or an attribute value |
| ExportEval.SlugClean | cli/export_eval_html.py:37-44 | a slug holds no space, "/", "#", ":" or upper-case letter, and slugging it again changes nothing |
| ExportEval.EvidenceLines | cli/export_eval_html.py:59-63 | one evidence line per row |
| ExportEval.RenderEvidence | cli/export_eval_html.py:56-68 | the loop builds exactly the specified evidence block, with lines numbered from 1 and "p?" for a missing page |
| ExportEval.RenderCitations | cli/export_eval_html.py:71-84 | the loop builds exactly the specified citation block, one item per row in order |
| ExportEval.HitPagesRules | cli/export_eval_html.py:94-101 | the label is "(pS-E)" when both pages are known and differ, and "(pS)" when only the start is known or both are equal. Without a start page it is "" |
| ExportEval.RenderHits | cli/export_eval_html.py:87-110 | the loop builds exactly the specified hit list, one item per hit in order |
| ExportEval.EvidenceNoneIffEmpty | cli/export_eval_html.py:57-58 | the evidence block is the "(none)" block exactly when there is no evidence |
| ExportEval.CitationsNoneIffEmpty | cli/export_eval_html.py:72-73 | the citation block is the "(none)" block exactly when there are no citations |
| ExportEval.HitsNoneIffEmpty | cli/export_eval_html.py:88-89 | the hit block is the "(none)" block exactly when there are no hits |
| ExportEval.EvidenceIndexStep | cli/export_eval_html.py:125-130 | each dataset line is skipped when blank, and otherwise sets its (document, question) key to its evidence, [] when missing |
| ExportEval.BuildEvidenceIndex | cli/export_eval_html.py:122-130 | the loop builds exactly the specified evidence index |
| ExportEval.EvidenceIndexLast | cli/export_eval_html.py:129-130 | the last dataset row for a document and question is the one that stays indexed |
| ExportEval.BackfillRules | cli/export_eval_html.py:141-145 | only the evidence changes, and only when the record had none and the dataset indexes its document and question. It then takes the dataset's evidence, and a record with its own evidence is kept as it is |
| ExportEval.LoadedStep | cli/export_eval_html.py:136-146 | each log line is skipped when blank, and otherwise is parsed, backfilled and appended |
| ExportEval.LoadRecords | cli/export_eval_html.py:134-146 | the loop reads exactly the specified records |
| ExportEval.LoadedMeaning | cli/export_eval_html.py:134-146 | there is one record per non-blank line, in order. Each record is its line's parse, with the evidence backfilled only under the backfill rule |
| ExportEval.GroupStep | cli/export_eval_html.py:149-151 | each record is appended to the group of its class, which defaults to "UNKNOWN" |
| ExportEval.GroupEmpty | cli/export_eval_html.py:148-151 | a class no record has gets an empty group |
| ExportEval.GroupRecords | cli/export_eval_html.py:148-151 | the groups are keyed by exactly the classes of the log, and each holds the records of its class in log order |
| ExportEval.ClassLeqOrder | cli/export_eval_html.py:188-193 | the order `sorted` uses on the classes is a total preorder |
| ExportEval.ReportSnoc | cli/export_eval_html.py:193-197 | one more record appears in exactly the one section of its class |
| ExportEval.ReportPermutation | cli/export_eval_html.py:193-197 | sections over distinct classes covering every record show each record exactly once |
| ExportEval.SectionOrderErr | cli/export_eval_html.py:188 | sorting the classes raises TypeError exactly when the log holds a null classification beside a string one |
| ExportEval.SectionOrderOk | cli/export_eval_html.py:148-197 | when sorting succeeds, the sections come in sorted order and hold each class of the log once. Every record is shown exactly once, and each section keeps the order of the log |
| ExportEval.QuestionLabelRules | cli/export_eval_html.py:201-203 | the question block is titled "Question [type]" exactly when the question type is a non-empty string, and "Question" otherwise |
| ExportEval.CardReasoningRules | cli/export_eval_html.py:208 | the card shows `reasoning` when it is non-empty, otherwise `eval_reasoning`, and shows "" exactly when neither is a non-empty string |
| ExportEval.CardEvidenceNone | cli/export_eval_html.py:211 | a card's evidence block is the "(none)" block exactly when the record has no evidence |
| ExportEval.CardCitationsNone | cli/export_eval_html.py:212 | a card's citation block is the "(none)" block exactly when the record has no citations |
| ExportEval.CardHitsNone | cli/export_eval_html.py:213 | a card's hit block is the "(none)" block exactly when the record has no hits |
| ExportEval.SectionLinesLength | cli/export_eval_html.py:195-214 | the sections hold one heading per class and one card per record shown |
| ExportEval.PageOneCardPerRecord | cli/export_eval_html.py:178-218 | when the classes sort, the page has one contents link and one heading per class and exactly one card per record |

## Left out

- File, JSON-lines and YAML input and output, logging, timing and directory creation. Listings and file contents are parameters, and a parsed line is the result of a `parse` parameter.
- External services are parameters, so nothing is assumed about them. These are the chat models and judges (Ollama), the tokenizer, the PDF partitioner and its cleaners, the sentence-transformer encoder, and the Weaviate queries. The Weaviate writes are modelled by `VectorStore.Collection`, under the assumption stated below.
- VectorStore.Collection: whether the server refuses a write is a fixed function of the key and the stored object, the same for `insert` and `replace`. A transient failure, one that hits one attempt and not an identical later one, is not modelled.
- Floating point: RRF scores and embedding vectors are reals. Nothing is claimed about rounding or ties that rounding would create, and the L2 normalisation is a parameter.
- Python's `str.isspace` is modelled by the whitespace set listed in text.dfy. `str.lower` and `str.isalnum` are modelled on ASCII only, so non-ASCII case mappings are not modelled. `_safe_stem` keeps non-ASCII letters and digits, which the model drops.
- `Path.resolve` and `expanduser` are taken as the identity, so paths are compared as given.
- Prompt rendering (Jinja templates) is a parameter. Only the shape of the message lists is modelled.
- The thread pool of cli/batch_eval.py is left out, because concurrency cannot be expressed in this model. The sequential branch is modelled, and the re-sort is proved to restore question order for any completion order.
- The Weaviate client, collection creation, reset and count, and the non-upsert batch path (src/ingestion/vectorstore.py:21-189 and 263-283) are left out as network wrappers. The collection is a map from key triples to stored objects.
- The version-5 UUID of the key triple is the triple itself, because the UUID is injective on it.
- `ingest_single_pdf` and `ingest_files` in src/services/ingest.py are I/O drivers and are not part of this model.
- `load_config` of configs/config_loader.py is YAML reading and is not part of this model. YAML floats are not part of the configuration value type.
- The `main` loops of cli/ingest3_metadata.py and cli/ingest3_embed.py are reading and writing only. Their file choice, output names and `--output` guard are modelled. The same loop in cli/ingest4_embed.py is modelled with its skip rule.
- The `metadata.enabled` setting of cli/ingest4_embed.py is a parameter of the file choice.
- The retriever and the model call of graph/node.py (`retrieve_node`, `generate_node`'s LLM) are left out. The context it sends and the `sources` it returns are modelled.
- The page head, style sheet and title (cli/export_eval_html.py:155-182) are fixed markup and are a parameter of the page. The total line, contents, section headings and cards are modelled.
- The vector-dimension warning of src/ingestion/embeddings.py:109-111 is left out, because it only logs.
- StructuralChunks.Merge: requires every element's text to be a string or absent. With a null text the source raises TypeError while measuring the length, and that crash is not modelled. A missing `page` key, on which the source raises KeyError, is read as None.
- Embeddings.Vectors: the normalisation is a parameter, so no property of the normalised vectors, such as unit length, is claimed.

## Findings

| source | as written | input that shows it | evidently intended | confidence | as-written member | corrected member |
|---|---|---|---|---|---|---|
| src/ingestion/chunking.py:13-23,116 | `BODY_TYPES` lists raw partitioner categories, but src/ingestion/elements.py:127 renames every body element to "text". Elements typed "text" are therefore skipped and land in no chunk | one element typed "text" with non-blank text: the chunk list is empty | "text" counts as a body type, so narrative text is chunked | high, not executed | Chunking.TextOnlyDocumentHasNoChunks | Chunking.TextElementsKept |
| src/services/ingest.py:30-32,37-39 | when `_safe_stem` is empty, `raw_dir / ""` is `raw_dir` itself, and `with_suffix(".pdf")` then names a sibling of the raw directory | uploading "###.pdf" into "data/pdfs" saves it as "data/pdfs.pdf" | every upload is saved inside the raw directory under a non-empty name | high, not executed | UploadNames.EmptyStemEscapes | UploadNames.SafeDestinationInside |
| src/ingestion/metadata.py:117 | `ollama_chat_structured` is called with `think=think`, but src/adapters/ollama.py:45 declares no such parameter, so the call raises TypeError, which the enrichment loop catches | any chunk without metadata: it comes back without summary or keywords | the chat call succeeds and the reply's summary and keywords are written | high, not executed | Metadata.EnrichedAsWritten | Metadata.EnrichedRules |
| src/graph/nodes/rerank.py:119 | the judge call passes `think=think`, which src/adapters/ollama.py:45 does not accept, so every rerank falls back | two hits and a non-empty question: the result is the first `topk` hits in retrieved order | hits are reordered by the judge's ranking | high, not executed | Rerank.RerankedAsWritten | Rerank.RerankedReorders |
| cli/batch_eval.py:153-158 | `qa_evaluate` is called with `host=host`, but src/services/evaluate.py:16 declares no `host` parameter, so the call raises TypeError | any question whose graph run succeeds: its record is an error with classification ERROR | the judge runs and its verdict is recorded | high, not executed | BatchEval.EveryRowErrorsAsWritten | BatchEval.ProcessRow |
| cli/batch_eval.py:159 | `eval_result.get("classification")` reads a key that src/services/evaluate.py:43 never returns | any successful question: its classification is None | the record carries the judge's classification | medium, not executed | BatchEval.ClassificationLostAsWritten | BatchEval.ProcessRow |
