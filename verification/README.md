# Incremental PDF indexing and answer assembly, modelled in Dafny

This project models the core of a small retrieval-augmented question-answering
system over a directory of PDFs. It has three parts:

- **The index store** (`VectorStoreManager`). A vector collection holds the
  stored chunks. A ledger, persisted as a JSON file, maps each PDF's basename
  to the MD5 digest of the contents last indexed under that name.
  - `is_file_indexed` compares the ledger entry with the file's current digest.
  - `mark_file_indexed` records the digest.
  - `add_documents` appends chunks to the collection in batches of `batch_size`,
    and only after every batch went in does it mark the source file.
  - `delete_collection` drops the collection and empties the ledger.
  - `list_indexed_files` returns the ledger's names.
- **One indexing run** (`index_documents`). It lists the PDFs and keeps those
  the ledger does not show as current, or all of them when forced. It extracts
  each file's chunks and adds the non-empty ones with batch size 100, then
  reports the counters it prints.
- **Answering a question** (`RAGRetriever.retrieve_and_generate`). It
  retrieves `TOP_K_RESULTS` = 1 chunk. With no chunk, it returns a fixed
  answer. Otherwise it builds the context from tagged chunks joined by a blank
  line, fills the prompt template, and returns the model's stripped reply
  together with the deduplicated sources (`'unknown'` when a chunk has no
  `source_file`).

Everything outside the core is a parameter of the model. The file system is a
map from path to bytes. The digest, the basename and the PDF chunker are
functions held in an `Env`. A failing collection is an oracle naming the
1-based batch number that raises. The similarity search and the language model
are functions passed to `RetrieveAndGenerate`. Raised exceptions become the
`Err` case of a `Result`. The collection's identifiers are modelled as a
counter that is never reset, which makes every minted identifier fresh.

Modules, one per file:

| file | module | models |
|---|---|---|
| types.dfy | `Types` | paths, bytes, chunks (`Doc`), errors, `Result`/`Option`, the environment |
| seqs.dfy | `Seqs` | concatenation, `str.join`, subsequences, de-duplication |
| text.dfy | `Text` | Python's whitespace set and argument-less `str.strip()` |
| batching.dfy | `Batching` | `range(0, n, batch_size)` with its slices and progress counters |
| ledger.dfy | `ChangeDetection` | `_file_hash`, `is_file_indexed`, `mark_file_indexed` |
| vector_store.dfy | `VectorStore` | the store, `add_documents`, `delete_collection`, `list_indexed_files` |
| indexing.dfy | `Indexing` | `index_documents` |
| retriever.dfy | `Retriever` | `retrieve_and_generate` |

In the indexing code nothing catches an exception. A file that vanished
before hashing, a chunker failure and a collection failure all end the run.
Files handled before that keep their chunks and ledger entries.
`ProcessFiles` and `IndexDocuments` model this abort, and `RunAbort` states
what an aborted run leaves behind.

## Model

| member | source | states |
|---|---|---|
| ChangeDetection.FileHash | src/vector_store.py:34-40 | hashing succeeds exactly when the file exists (otherwise a file-not-found error), and the digest depends only on the file's bytes |
| ChangeDetection.IsFileIndexed | src/vector_store.py:42-50 | true exactly when the ledger holds the file's current digest under its basename; an unknown basename answers false without touching the file; an error exactly when the basename is known but the file is missing |
| ChangeDetection.MarkFileIndexed | src/vector_store.py:52-56 | succeeds exactly when the file exists; adds or overwrites only the file's basename, with its current digest; all other entries are unchanged |
| ChangeDetection.MarkThenIndexed | src/vector_store.py:42-56 | after marking an existing file, it is indexed; another path with the same basename is indexed exactly when its contents have the same digest |
| ChangeDetection.MarkKeepsOthers | src/vector_store.py:42-56 | marking an existing file leaves the verdict for every path with a different basename unchanged |
| ChangeDetection.ChangedContentsNotIndexed | src/vector_store.py:34-50 | once the contents of a marked existing file change to bytes with another digest, it is no longer indexed |
| Batching.Batches | src/vector_store.py:86-87 | for a positive batch size, the batches, concatenated, give back the chunks in order |
| Batching.BatchSizes | src/vector_store.py:86-87 | for a positive batch size, every batch is non-empty and holds at most batch_size chunks; all but the last are full |
| Batching.BatchesCount | src/vector_store.py:89 | for a positive batch size, the number of batches equals `(n - 1) // batch_size + 1`, the total the loop prints |
| Batching.BatchesPrefix | src/vector_store.py:86-87 | for a positive batch size and m at most the number of batches, the first m batches together are the first min(m * batch_size, n) chunks |
| Batching.BatchSlice | src/vector_store.py:86-87 | for a positive batch size and an existing batch k, batch k is `chunks[i:i + batch_size]` where i is where the earlier batches end, and only the last batch reaches the end |
| Batching.PlanShape | src/vector_store.py:86-90 | for a positive batch size, the iterations are contiguous slices starting at 0, each beginning where the previous one ended; 1 <= batch_num <= total_batches = number of iterations |
| Batching.PlanBatches | src/vector_store.py:86-90 | for a positive batch size, the loop with its offset, slice and counters performs exactly the iterations of the declarative plan |
| VectorStore.AppendBatches | src/vector_store.py:85-93 | the batches before a failing one stay stored and the error propagates; with no failure all chunks are appended in order and the returned ids are those of the new entries; the ledger is untouched |
| VectorStore.AddDocuments | src/vector_store.py:71-101 | opens the store; a zero batch size raises; the only other errors are a failing batch and a truthy source file that is gone when marked; the collection grows only by a prefix of the chunks, in order, with the id counter advanced by as many; a failing batch keeps the earlier batches and leaves the ledger unchanged; on success the ids name the new entries, and a truthy source file is marked current, with no other ledger change |
| VectorStore.BatchSizeInvariance | src/vector_store.py:71-101 | with no failure, any two positive batch sizes leave the same store and return the same ids |
| VectorStore.SecondOfThreeBatchesFails | src/vector_store.py:86-93 | when the second of three batches fails, exactly the first batch is stored, the ledger is unchanged, and the error names batch 2 |
| VectorStore.AddKeepsValid | src/vector_store.py:92-93 | on a store whose ids are already increasing and below the next id, adding documents keeps ids strictly increasing along the collection and below the next id to mint |
| VectorStore.DeleteCollection | src/vector_store.py:117-126 | the ledger is emptied in every case; the collection is dropped only when its handle was opened |
| VectorStore.ListIndexedFiles | src/vector_store.py:128-130 | lists every ledger name exactly once and nothing else |
| VectorStore.DeleteForgetsAll | src/vector_store.py:117-126 | after deletion no file is indexed, and deletion keeps the store's id invariant |
| VectorStore.ListAfterDelete | src/vector_store.py:115-130 | after deleting a store whose collection handle was opened, the listing of indexed files is empty and the collection count is 0 |
| Indexing.Unindexed | main.py:31 | succeeds exactly when every file's check does; keeps the files that are not current, in listing order; the only error is a listed file that the ledger knows but that is gone |
| Indexing.UnindexedMultiplicity | main.py:31 | a path that is not current is kept as many times as it is listed, and a current one not at all; with the listing order kept, this fixes the filter's result |
| Indexing.SelectionSpec | main.py:29-46 | a forced run selects every file; an unforced run succeeds exactly when every check does and then selects, in listing order and as often as they are listed, exactly the files that are not current; an error comes only from an unforced run, for a listed file the ledger knows that is gone |
| Indexing.ProcessFiles | main.py:48-61 | the files' chunks are appended file after file and counted; only basenames of files with chunks change in the ledger; when no two listed paths share a basename and none is empty, on success every file with chunks is current; an error stops at some file j, after the earlier files' chunks and a prefix of file j's chunks were stored, and (under the same two conditions) the earlier files with chunks were marked current |
| Indexing.ExtractAbort | main.py:54 | a chunker failure on the first file stops the run with nothing stored and the ledger unchanged |
| Indexing.AddAbort | main.py:56-57 | a raising `add_documents` on the first file stops the run with a prefix of its chunks stored and the ledger unchanged |
| Indexing.AbortStep | main.py:50-61 | a run that stops at file j of the remaining files stops at file j + 1 once the first file's chunks and ledger entry come before it |
| Indexing.FailedFileKeepsVerdict | main.py:50-61 | when no two listed paths share a basename and no earlier listed file is the same path, the file a run stopped at keeps its ledger entry and its verdict |
| Indexing.SkipStep | main.py:56-61 | a first file without chunks is skipped with no effect on the store or the count |
| Indexing.AddStep | main.py:56-58 | a first file whose chunks were added is counted and marked, and the remaining files follow it |
| Indexing.IndexDocuments | main.py:13-67 | an empty listing is reported as such; an unforced run with nothing to do changes nothing but opening the store, and means every file is current; otherwise it processes exactly the selected files |
| Indexing.RunSelection | main.py:29-46 | forced runs process every file and report no skip count; unforced runs process the non-current files in listing order and report the rest as skipped |
| Indexing.RunCounters | main.py:49-67 | new chunks is the number of chunks of the processed files; they are appended in order with fresh ids; the totals are the collection and ledger sizes |
| Indexing.OthersKeepVerdict | main.py:48-61 | when no two listed paths share a basename and the ledger changed only under the basenames of processed files with chunks, a listed file that was not processed, or had no chunks, keeps its verdict |
| Indexing.RunLedgerEffect | main.py:48-61 | when no two listed paths share a basename, after a completed run a file without chunks keeps its previous verdict, and, when no listed path is empty either, every listed file with chunks is current |
| Indexing.ProcessNothing | main.py:54-61 | files that yield no chunks leave the store unchanged and count zero |
| Indexing.OutOfDateAfterRun | main.py:29-61 | when no two listed paths share a basename and none is empty, a listed file still out of date after a completed run was extracted and yielded no chunks |
| Indexing.RunAbort | main.py:19-61 | a run that raises had files to list; a failing check leaves only the opened store behind; otherwise the run stopped inside the selected files, as stated for `ProcessFiles` |
| Indexing.SecondRunAddsNothing | main.py:29-61 | right after a completed run, an unforced run over the unchanged files completes, adds no chunk and leaves the store as it was |
| Text.Strip | src/retriever.py:74 | what `strip()` removes at either end is whitespace only, and what it keeps neither starts nor ends with whitespace |
| Text.StripUnique | src/retriever.py:74 | any cut into leading whitespace, a trimmed middle and trailing whitespace has `strip()` as its middle |
| Text.StripKeepsTrimmed | src/retriever.py:74 | a string with no whitespace at either end is unchanged |
| Text.StripIdempotent | src/retriever.py:74 | stripping twice is stripping once |
| Text.StripKeepsInner | src/retriever.py:74 | a stretch that starts and ends with a non-whitespace character survives stripping, contiguous and unchanged |
| Text.StripKeepsBetween | src/retriever.py:74 | anything lying between two non-whitespace characters survives stripping, contiguous and unchanged |
| Retriever.Context | src/retriever.py:52-55 | no chunks give an empty context; otherwise it opens with the first chunk's tag and closes with the last one's |
| Retriever.ContextTags | src/retriever.py:52-55 | for at least one chunk, the context holds each chunk's `[Source: ...]` tag and text verbatim, in retrieval order, the first at the start and the last at the end |
| Retriever.ContextSeparators | src/retriever.py:52-55 | between neighbouring tags stands exactly one blank line |
| Retriever.BuildPrompt | src/retriever.py:58-65 | the prompt is as long as the template text, the context and the query together |
| Retriever.PromptRoundTrip | src/retriever.py:58-65 | the template text, the context and the query sit in template order, so context and query can be recovered from the prompt |
| Retriever.PromptDeterminesQuery | src/retriever.py:58-65 | over the same context, different queries give different prompts |
| Retriever.Sources | src/retriever.py:71 | each chunk's source, with 'unknown' for a chunk without one, appears exactly once, and nothing else appears |
| Retriever.RetrieveAndGenerate | src/retriever.py:28-76 | no chunk gives the fixed answer, no sources and no model call; otherwise the model gets the prompt built from the retrieved chunks, the answer is its stripped reply and the sources list the chunks' sources |
| Retriever.SingleChunkReply | config/settings.py:32 | with a search that honours k = 1, a reply cites at most one source, and the prompt's context is the single chunk's tag |
| Retriever.OneChunkScenario | src/retriever.py:41-76 | one chunk of report.pdf: the prompt carries its tag, the sources are ["report.pdf"], and the padded reply comes back trimmed |
| Retriever.StrippedPromptKeepsContext | src/retriever.py:58-74 | for every context and query, the context survives stripping of the whole prompt, contiguous and unchanged |
| Retriever.EchoKeepsTag | src/retriever.py:41-76 | for every chunk, with a model that echoes its prompt, the answer still holds the chunk's `[Source: ...]` line and text verbatim, and the sources name the chunk's file |
| Retriever.EchoScenario | src/retriever.py:41-76 | with the echo model and a chunk of report.pdf, the answer holds `[Source: report.pdf]` followed by the chunk's text, and the sources are ["report.pdf"] |

## Left out

- File I/O and JSON persistence of the ledger (`_load_index_log`, `_save_index_log`). The ledger is a value that every operation takes and returns; a failing write is not modelled.
- The MD5 algorithm behind `_file_hash`: the digest is a function parameter.
- The Chroma engine, the embedding model and vLLM. Storage is an append-only sequence of entries, and the search and the model are function parameters. Ranking and what `similarity_search` returns are not modelled. `get_collection_count` is the length of the stored sequence.
- Exceptions raised by the search or the language model: the model's functions are total, so such errors do not appear.
- Chunking itself (`extract_and_chunk_pdf`, the chunk size and overlap): an extractor function returns the chunks or signals failure.
- The CLI, the chat UI, the query loop and every `print`; the counters `index_documents` prints are returned in its report.
- Concurrency between runs, and cancellation.
- The order of `list(set(...))` in the sources. The model uses first-occurrence order; the contracts fix only membership and the absence of duplicates.
- VectorStore.ListIndexedFiles: states the names as a set without repeats, not Python's insertion order of dict keys.
- Using the collection handle after `delete_collection`: the model keeps the handle open and empty.
- Metadata values other than strings: `Doc.metadata` maps strings to strings.
- The directory listing (`glob`) and its order: the listing is an input sequence.
- Indexing.IndexDocuments: its own contract covers the listing, the selection and completed runs. What a run that raises leaves behind is stated by `Indexing.RunAbort`, a separate lemma about the same function.
- Indexing.ProcessFiles: promises that files with chunks end up current only when no two processed paths share a basename and none is empty. Two paths with one basename write the same ledger entry, so only the later one is current. An empty path fails `if source_file:` and is never marked.
- Indexing.RunLedgerEffect: has the same two conditions as `Indexing.ProcessFiles`, for the same reasons.
- Indexing.SecondRunAddsNothing: assumes every listed path exists, names are non-empty, and no two listed paths share a basename. A glob of one directory gives all three. Without them, two paths with one basename would keep overwriting each other's ledger entry.
