# mini-rag-pipeline: a verified model of chunking and result assembly

mini-rag-pipeline is a small retrieval-augmented question-answering
pipeline. It reads a `.docx` document, splits it into paragraph chunks,
embeds them, stores them in a ChromaDB collection, indexes them with Annoy,
and answers a query from the retrieved chunks. It can either return those
chunks as they are or pass them to a text generator.

This project models the deterministic part of that pipeline in Dafny. It
proves the properties that part promises.

- `helpers.dfy` (module `Helpers`) holds pure functions:
  - `preprocess_text`: ASCII lower-casing, then `str.strip`.
  - `chunk_text`: `str.split('\n')`, then strip each piece and keep only the non-empty ones.
  - The newline join that `read_docx` returns.
  - Whitespace is the set of code points Python's `str.isspace` accepts.
  - Splitting follows Python exactly: `k` newlines always give `k + 1` pieces.
- `pipeline.dfy` (module `Pipeline`) holds the class `RAGPipeline`:
  - A field `collection` for the store and a field `retriever` for the index.
  - `ProcessAndStoreDocument` gives every chunk the positional string id `str(i)` and the single-entry record `{'text': chunk}`. It adds those records to the collection and replaces the retriever.
  - `Run` searches, and returns early when there are no hits. It then looks each hit up in the collection through `RelevantDocs`, a `while` loop that skips ids without a record, and assembles the `question` / `context` / `answer` record.
  - Every failure inside `Run` ends in the fixed apology record. A failed ingest returns `Raised`, because `process_and_store_document` lets the exception propagate to its caller.
  - `AskAfterIngest` uses the class the way a caller does: it builds a pipeline over an empty store, ingests one document and asks one question.

The collaborators are abstract inputs to the model:

| Collaborator | Modelled as |
|---|---|
| Nearest-neighbour search, including the query embedding | A function `nearest(index, preprocessedQuery, topK)` that returns ids or `Raised`. |
| Vector store | A map from id to metadata record. |
| Generator | A function from prompt and token budget to text or `Raised`. |

The predicate `HonestSearch` states what Annoy guarantees (`retriever.py:16-17`): an index built over `n` embeddings returns only items below `n`.

The main cross-file fact is `IngestedSearchResolves`. After ingesting a document into an empty store, every id the index returns resolves through its string id to exactly its own chunk, and nothing is skipped. `AskAfterIngest` states the same fact about the pipeline object itself. After `ProcessAndStoreDocument` and then `Run` without generation, the context and the answer are the chunks the search picked, in its order, joined by `" "` and by `"\n\n"`.

## Model

| member | source | states |
|---|---|---|
| Helpers.Strip | rag_pipeline/helpers.py:33 | `str.strip`: the result is empty exactly when the input is all whitespace; otherwise both of its ends are non-whitespace |
| Helpers.StripIdempotent | rag_pipeline/helpers.py:33 | stripping twice is stripping once |
| Helpers.IsSpace | rag_pipeline/helpers.py:33 | the characters `str.strip` removes: exactly the code points for which Python's `str.isspace` holds (tab to carriage return, the four separators 0x1C-0x1F, space, 0x85, 0xA0, the Unicode space separators, and the line and paragraph separators) |
| Helpers.StripSlice | rag_pipeline/helpers.py:33 | the result of `Strip` is a contiguous slice of the input, and everything before and after that slice is whitespace; together with `Strip`'s own contract this fixes the result as `str.strip` |
| Helpers.Lower | rag_pipeline/helpers.py:9 | `str.lower` restricted to ASCII: same length, each character lower-cased on its own |
| Helpers.PreprocessText | rag_pipeline/helpers.py:7-9 | a preprocessed query has no surrounding whitespace and no upper-case ASCII letter, and is no longer than the input |
| Helpers.PreprocessTextIdempotent | rag_pipeline/helpers.py:9 | preprocessing an already preprocessed query changes nothing |
| Helpers.Split | rag_pipeline/helpers.py:30 | `split('\n')` gives at least one piece, and no piece contains a newline |
| Helpers.SplitCount | rag_pipeline/helpers.py:30 | there is exactly one more piece than there are newlines |
| Helpers.JoinSplit | rag_pipeline/helpers.py:30 | joining the pieces with `'\n'` gives back the text |
| Helpers.SplitJoin | rag_pipeline/helpers.py:17 | splitting the `'\n'`-join of newline-free strings gives back those strings |
| Helpers.Join | rag_pipeline/helpers.py:17 | `sep.join(parts)`: the empty string for no parts, the single part for one, otherwise the parts with `sep` between each neighbouring pair; `JoinSplit` and `SplitJoin` tie it to `Split` |
| Helpers.SplitAppend | rag_pipeline/helpers.py:30 | splitting `a + '\n' + b` gives the pieces of `a` followed by the pieces of `b` |
| Helpers.KeepNonBlank | rag_pipeline/helpers.py:33 | the comprehension never yields more pieces than it is given, and every piece it yields is non-empty with non-whitespace ends |
| Helpers.IsChunkIff | rag_pipeline/helpers.py:33 | such a piece is exactly a non-empty string that is its own strip |
| Helpers.KeepNonBlankAppend | rag_pipeline/helpers.py:33 | the comprehension keeps order: on a concatenation it gives the results for each part, one after the other |
| Helpers.KeepNonBlankEmpty | rag_pipeline/helpers.py:33 | nothing is kept exactly when every piece is whitespace-only |
| Helpers.KeepNonBlankOfChunks | rag_pipeline/helpers.py:33 | pieces that are already stripped and non-empty are all kept, unchanged |
| Helpers.ChunkText | rag_pipeline/helpers.py:19-35 | every chunk is non-empty, has no surrounding whitespace and has no newline, and there are at most one more chunks than newlines |
| Helpers.ChunkTextAppend | rag_pipeline/helpers.py:30-33 | order is kept: the chunks of `a + '\n' + b` are the chunks of `a` followed by those of `b` |
| Helpers.ChunkTextOfLine | rag_pipeline/helpers.py:30-33 | a single line yields its stripped form, or nothing when it is blank |
| Helpers.ChunkTextEmpty | rag_pipeline/helpers.py:30-35 | there are no chunks exactly when the text is empty or whitespace-only, in both directions |
| Helpers.ChunkTextRejoin | rag_pipeline/helpers.py:30-35 | re-joining the chunks with `'\n'` and chunking again gives the same chunks |
| Helpers.ChunkTextBlankLineSeparated | rag_pipeline/helpers.py:30-33 | two stripped paragraphs separated by a blank line give exactly those two chunks |
| Helpers.ReadDocx | rag_pipeline/helpers.py:11-17 | the text `read_docx` returns, given the texts of the paragraphs: the texts joined with `'\n'` |
| Helpers.ChunkTextOfDocument | rag_pipeline/helpers.py:14-17 | the chunks of the paragraphs' `'\n'`-join (`ReadDocx`) are the chunks of each paragraph, in paragraph order |
| Helpers.ChunkTextOfParagraphs | rag_pipeline/helpers.py:14-17 | for paragraphs without line breaks, the chunks of their `'\n'`-join are exactly the stripped non-blank paragraphs, in order |
| Pipeline.NatToString | rag_pipeline/pipeline.py:35 | `str(i)`: a non-empty string of decimal digits that starts with '0' only for zero |
| Pipeline.StringToNatOfNatToString | rag_pipeline/pipeline.py:35 | parsing an id gives back the number it was made from |
| Pipeline.NatToStringInjective | rag_pipeline/pipeline.py:35 | two numbers get the same id exactly when they are equal |
| Pipeline.DocIds | rag_pipeline/pipeline.py:35 | there is one id per chunk, id `i` is `str(i)`, and no id repeats |
| Pipeline.IdStrings | rag_pipeline/pipeline.py:75 | each retrieved id is converted to a string, in order |
| Pipeline.TextOf | rag_pipeline/pipeline.py:83 | `metadata.get('text', '')`: the value under "text", or the empty string when the record has no such key |
| Pipeline.Metadatas | rag_pipeline/pipeline.py:36 | there is one record per chunk, and record `i` has the single key "text", which holds chunk `i` |
| Pipeline.AddRecords | rag_pipeline/pipeline.py:37 | adding records leaves the collection with its old ids plus the new ones, and every other record untouched |
| Pipeline.AddRecordsLookup | rag_pipeline/pipeline.py:35-37 | with distinct ids, each id afterwards holds its own record |
| Pipeline.Ingested | rag_pipeline/pipeline.py:35-37 | the collection one ingest of the chunks leaves in an empty store |
| Pipeline.LookupTexts | rag_pipeline/pipeline.py:78-86 | the loop yields at most one text per retrieved id |
| Pipeline.LookupTextsSnoc | rag_pipeline/pipeline.py:79-86 | one more loop step appends that id's text, or nothing when the id has no record |
| Pipeline.LookupTextsAppend | rag_pipeline/pipeline.py:79-84 | texts come out in the order the ids went in: for `a + b` they are the texts for `a`, then those for `b` |
| Pipeline.LookupTextsSkipsMissing | rag_pipeline/pipeline.py:81-86 | an id without a record is skipped, and nothing else changes |
| Pipeline.LookupTextsUntitled | rag_pipeline/pipeline.py:83 | a record without a "text" key contributes the empty string |
| Pipeline.LookupTextsAllPresent | rag_pipeline/pipeline.py:79-84 | when every id has a record, there is exactly one text per id, each the text of that id's record |
| Pipeline.FreshIngestResolves | rag_pipeline/pipeline.py:35-84 | after ingesting chunks into an empty store, looking up any items below the chunk count gives exactly those chunks, in retrieval order, with nothing skipped |
| Pipeline.HonestSearch | rag_pipeline/retriever.py:16-17 | a search returns only items below the index's item count |
| Pipeline.IngestedSearchResolves | rag_pipeline/pipeline.py:40-84 | for a search that only returns items Annoy was given, the retriever built on ingestion and the stored records agree: every hit resolves to its own chunk |
| Pipeline.Picked | rag_pipeline/pipeline.py:79-84 | the chunks at the given positions, one per position, in the given order |
| Pipeline.PickedIsLookup | rag_pipeline/pipeline.py:35-84 | after an ingest into an empty store, looking up items below the chunk count gives exactly `Picked` of them |
| Pipeline.Prompt | rag_pipeline/pipeline.py:95 | the generator's prompt, built from the original query and the context: `Question: <query>\nContext: <context>\nAnswer:` |
| Pipeline.Apology | rag_pipeline/pipeline.py:113-119 | the record every caught exception ends in: the original query, an empty context and the fixed apology |
| Pipeline.RAGPipeline.constructor | rag_pipeline/pipeline.py:11-16 | the pipeline holds the given generator, store and retriever |
| Pipeline.RAGPipeline.Search | rag_pipeline/pipeline.py:58-64 | the retrieval of `run`: an exception when there is no retriever (`None.retrieve`), otherwise the search applied to the preprocessed query and `top_k` |
| Pipeline.RAGPipeline.RelevantDocs | rag_pipeline/pipeline.py:78-86 | the `for` loop over the retrieved ids gives exactly `LookupTexts` of the collection: each present id's text, in order, with absent ids skipped |
| Pipeline.RAGPipeline.ProcessAndStoreDocument | rag_pipeline/pipeline.py:18-43 | returns the positional ids, adds one `{'text': chunk}` record per chunk, and sets the retriever to an index over those chunks; a document with no chunk raises and leaves the state as it was |
| Pipeline.RAGPipeline.Run | rag_pipeline/pipeline.py:45-119 | the question is always the original query. A missing retriever or a failed search gives the apology record, and no hits give the no-information record. Otherwise the context is the texts `RelevantDocs` looked up, joined by `" "`. The answer is either those texts joined by `"\n\n"` or the generator's output on `Question: <query>\nContext: <context>\nAnswer:` with 150 new tokens; a failed generation gives the apology |
| Pipeline.AskAfterIngest | rag_pipeline/pipeline.py:18-111 | a new pipeline over an empty store, one ingest, then one query without generation. A chunkless document raises to the caller, and a failed search gives the apology. No hits give the no-information record. Otherwise the context is the picked chunks joined by `" "` and the answer is the same chunks joined by `"\n\n"`, for any search that keeps to Annoy's item ids |

## Left out

- Reading `.docx` files (`helpers.py:13-16`) is left out: it is file I/O in python-docx. `ReadDocx` takes the paragraph texts and joins them with `'\n'`.
- `compute_embeddings` and SentenceTransformer (`helpers.py:37-44`, `pipeline.py:16`, `pipeline.py:32`, `pipeline.py:61`) are left out: they are a foreign ML model with float vectors. The query embedding is folded into the `nearest` parameter of `Run`.
- Annoy's angular nearest-neighbour search (`retriever.py`) is left out: it is foreign float code. Only its id scheme is kept, as the predicate `HonestSearch`. Annoy returns at most `top_k` items, so the context holds at most `top_k` chunks; that bound is a property of the search and is not stated here.
- ChromaDB (`storage.py`) is a plain map. In the model, `add` overwrites a repeated id. ChromaDB's own handling of ids that already exist when a second document is ingested is not modelled, so the id-consistency lemmas are stated for a store that was empty before the ingest. Records from an earlier document that the new one does not overwrite stay in the collection (`AddRecords` keeps every other record).
- The generator (`generator.py`) is left out: torch, tokenisation and beam search. It is an uninterpreted function from prompt and token budget to text or an exception.
- The `print` warnings (`pipeline.py:67`, `pipeline.py:86`, `pipeline.py:90-91`, `pipeline.py:114`) have no effect on the result and are not modelled. This includes the check at line 90 for a blank context.
- Helpers.PreprocessText: lower-cases ASCII letters only. Python's full Unicode `str.lower`, which can also change the length of a string, is not modelled.
- Helpers.PreprocessTextIdempotent: holds for every input in the model. With Python's full Unicode lower-casing it is only promised for ASCII input.
- Metadata values are strings in the model. ChromaDB also allows numbers and booleans, but the pipeline only ever stores strings.
- The model keeps the store inside the pipeline object. Aliasing of one `ChromaDBStorage` object between several pipelines is not modelled.
- An empty or whitespace-only document raises in `ProcessAndStoreDocument`. This is because neither an empty `collection.add` nor `embeddings.shape[1]` on an empty array succeeds. The model states only that some exception happens, and that neither the collection nor the retriever changes.
- Every record in the modelled collection has a metadata map. ChromaDB can also hold a record stored without metadata, for instance in a collection reused through `get_or_create_collection` (`storage.py:12`). It hands that record back as `None`, so `metadata.get` at `pipeline.py:83` raises and `run` returns the apology. The model does not capture that path.
- Retrieved ids are non-negative integers, as Annoy item ids are, so `str` is modelled on `nat` only.
- `test.py` is left out: it is a driver script that checks files and prints.
- The default argument values (`top_k = 5`, `generate_response = True`, the embedding model name) are left out: the model's callers always pass them.

A search that returns no ids gives the no-information record (`pipeline.py:66-72`). A missing retriever raises at `self.retriever.retrieve` and gives the apology (`pipeline.py:113-119`). `Run` states both.
