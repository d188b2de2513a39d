# NoteScanner backend pipeline in Dafny

NoteScanner keeps a user's study notes in folders, one folder per subject. Its
backend turns uploaded images and PDFs into text files, indexes those texts in a
vector store, and answers questions about a subject by retrieval-augmented
generation. This project models that pipeline and proves properties of it.

- **Extraction** (`extract_text`): classify every regular file of a subject
  folder by its case-insensitive extension. Run OCR on images and read the page
  texts of PDFs. Save each text beside its original as `<root>.txt` and report
  one record per saved file.
- **Ingestion** (`ingest_folder`): load the non-blank `.txt` files, split them
  into chunks (size 500, overlap 50), drop and recreate the subject's collection,
  then store chunk `k` under id `{subject}_{k}`, fifty chunks per call.
- **Upload** (`upload_note`): derive the subject from the upload path, extract,
  and ingest only when extraction reported processed files.
- **Query** (`query_notes` in `api.py`, `query_folder` in `query_api.py`): check
  the collection, retrieve four hits, build the fixed prompt from the hits'
  texts joined by blank lines, and ask the language model. Every failure becomes
  an error response.
- **Embedding helper** (`chunk_and_embed`): append chunks to one shared
  collection under the ids `doc_{c}`, `doc_{c+1}`, … where `c` is the
  collection's size before the call.

Modules:

| module | file | contents |
|---|---|---|
| `Options` | `options.dfy` | `Option` |
| `Text` | `text.dfy` | Python's `str(n)`, `sep.join`, `strip`, `endswith` and ASCII `lower` |
| `VectorIndex` | `vector_index.dfy` | the vector store as a class `Store` over `map<string, seq<Entry>>` |
| `Collaborators` | `collaborators.dfy` | directory listings, and the external capabilities as function-valued parameters |
| `Extraction` | `extraction.dfy` | `extract_text` |
| `Ingestion` | `ingestion.dfy` | `ingest_folder` |
| `Retrieval` | `retrieval.dfy` | `query_notes` / `query_folder` |
| `Upload` | `upload.dfy` | `upload_note` |
| `Embeddings` | `embeddings.dfy` | `chunk_and_embed` |

How the model is built:

- Each operation with a loop is a method. It is proved equal to a specification
  function or stated record by record (`LoadAll` for the loading loop, `ChunksOf`
  for chunking, `IndexEntries` for the batched insertion, `Ingest` for the whole of
  `ingest_folder`, `RecordsOf` and `TextsOf` through `Extract` for extraction,
  `Concat` for the PDF page loop, the record-by-record zip for the conversion of
  query results), and lemmas state what those functions promise.
- The filesystem is an input. A folder is `Option<seq<DirEntry>>`, where `None`
  means the folder does not exist, and a file's bytes are given in its entry.
- The embedding model, splitter, UTF-8 text reader (text mode, so it also translates
  `\r\n` and `\r` to `\n`), OCR engine, PDF reader,
  text-file writer, language model and distance are fields of `Capabilities`. A
  `None` or `false` from one of them stands for that call raising.

The upload listings are separate parameters: one as extraction sees the folder,
one as ingestion sees it after extraction wrote its text files. Both list the
subject folder, the first segment of the upload path. Neither listing is
recursive, so a file uploaded into a nested folder such as `bio/week1` lies in a
sub-directory that both stages skip.

## Model

| member | source | states |
|---|---|---|
| Text.NatToStringInjective | backend/ingest_api.py:74 | different chunk numbers give different decimal renderings, so numbered ids cannot collide |
| Text.StripEmptyIffBlank | backend/ingest_api.py:28 | `text.strip()` is empty exactly when every character is Python whitespace |
| Text.JoinPartAt | backend/api.py:167 | in a `sep.join(parts)`, part `i` appears intact at its offset (the earlier parts plus one separator each) |
| Text.JoinSeparatorAt | backend/api.py:167 | between part `i` and part `i+1` of a join there is exactly one separator |
| VectorIndex.Nearest | backend/api.py:141-144 | a query for `k` results returns `min(k, n)` hits, with equally long document, id and distance lists, each hit a stored entry's id and text |
| VectorIndex.Store.DeleteCollection | backend/ingest_api.py:53-58 | deleting drops the named collection, a missing one is tolerated, and nothing else changes |
| VectorIndex.Store.CreateCollection | backend/ingest_api.py:60-61 | creation adds an empty collection under a free name and is refused for a taken one |
| VectorIndex.Store.GetOrCreateCollection | backend/embeddings.py:14 | afterwards the collection exists, and an existing one keeps its entries |
| VectorIndex.Store.Add | backend/ingest_api.py:77-81 | the entries are appended, in order, to the named collection only; adding to a missing collection, or adding no entries, fails and changes nothing |
| VectorIndex.Store.Count | backend/ingest_api.py:85 | the count is the number of entries in the collection |
| VectorIndex.Store.Query | backend/api.py:141-144 | the result is `Nearest` over the collection, with at most `k` hits and no more than are stored |
| Collaborators.Encode | backend/ingest_api.py:73 | `model.encode` returns one embedding per input text |
| Ingestion.ErrorMessageInjective | backend/ingest_api.py:16-37 | the two error strings differ, so the error read back identifies the failure |
| Ingestion.ReadEntry | backend/ingest_api.py:23-34 | a name yields text only if it ends in `.txt`, reads as UTF-8 text and is not blank; a read failure skips the file |
| Ingestion.LoadTexts | backend/ingest_api.py:20-34 | the loading loop returns exactly the texts and names `LoadAll` loads, in listing order |
| Ingestion.LoadAllAppend | backend/ingest_api.py:22-34 | loading goes file by file: loading two listings one after the other gives the two loads concatenated |
| Ingestion.SkippedEntryIsolated | backend/ingest_api.py:25-34 | a file that fails to load, is blank or is not `.txt` is skipped and every other file still loads |
| Ingestion.LoadedAreNonBlankTexts | backend/ingest_api.py:22-30 | every loaded file comes from the listing, has a `.txt` name and a non-blank text |
| Ingestion.ChunkTexts | backend/ingest_api.py:42-45 | the chunks are the splitter's chunks of each text, text after text |
| Ingestion.ChunksOfAppend | backend/ingest_api.py:43-45 | chunks never cross texts: the chunks of two runs of texts concatenate |
| Ingestion.ChunkIdInjective | backend/ingest_api.py:74 | two chunk positions of one subject never share an id |
| Ingestion.IndexEntriesUnique | backend/ingest_api.py:71-81 | the entries a subject's chunks are stored as have pairwise distinct ids |
| Ingestion.BatchBoundaryInvisible | backend/ingest_api.py:71-81 | storing chunks `[0, i)` and then `[i, j)` numbered from `i` gives the same entries as storing `[0, j)` at once |
| Ingestion.AddInBatches | backend/ingest_api.py:67-82 | the empty collection ends up holding chunk `k` under `{subject}_{k}` for every `k`, `total_added` equals the chunk count, the batches hold 1 to 50 chunks and cover all chunks in order, and no other collection changes |
| Ingestion.Ingest | backend/ingest_api.py:13-93 | a missing folder gives the folder error and a folder that loads no text the no-text error; a result is ingested exactly when some text loads; failures leave the store unchanged; on success the message names the subject and the chunk count, `chunks_created == final_count ==` number of chunks, `files_processed` lists the loaded names, ids are unique and numbered by position, and only the subject's collection changes |
| Ingestion.IngestFolder | backend/ingest_api.py:13-93 | the response and the store afterwards are exactly what `Ingest` describes, and the batches sent to the store hold 1 to 50 chunks each and together are all the chunks in order |
| Extraction.LastDot | backend/extract_api.py:42 | finds the last `.` of a name, or proves there is none |
| Extraction.TextFileNameReplacesExtension | backend/extract_api.py:42 | `stem + ext`, where `ext` is a dot with no further dot and `stem` is not dots only, is saved as `stem + ".txt"` |
| Extraction.ClassifyIgnoresCase | backend/extract_api.py:25-29 | classification by extension ignores case |
| Extraction.TextFilesUnsupported | backend/extract_api.py:25-39 | a `.txt` file, such as one extraction saved, is skipped and never extracted again |
| Extraction.ReadPdf | backend/extract_api.py:31-36 | the PDF text is the page texts concatenated in page order |
| Extraction.ProcessFile | backend/extract_api.py:22-56 | one file is skipped (directory or unsupported), fails (OCR or PDF read raised), is extracted but not saved (write raised) or is saved with its record, as `ProcessEntry` says |
| Extraction.SavedOutcome | backend/extract_api.py:41-51 | a saved file is a supported regular file, and its record holds its name, its `.txt` name and its text's length |
| Extraction.Extract | backend/extract_api.py:13-62 | a missing folder gives the error result and an existing one never does; the message counts the processed files |
| Extraction.ExtractText | backend/extract_api.py:13-62 | the extraction loop's result is exactly `Extract`: records in listing order and every extracted text by name |
| Extraction.RecordsOfAppend | backend/extract_api.py:21-56 | files are processed independently: the records of two listings concatenate |
| Extraction.FailureIsolated | backend/extract_api.py:54-56 | a file that fails or is skipped leaves no record, and the records of the files before and after it are unchanged |
| Extraction.TextsOfOnlyListed | backend/extract_api.py:28-36 | `extracted_texts` holds only names from the listing |
| Extraction.RecordsFaithful | backend/extract_api.py:47-51 | with distinct names, each record names a supported regular file of the folder and its `.txt` name, that file's text is in `extracted_texts`, and `text_length` is that text's length |
| Retrieval.ConvertResults | backend/api.py:146-152 | one record per returned document in result order, pairing document `i` with id `i` and distance `i`; the conversion fails exactly when the id or distance lists are too short |
| Retrieval.QueryNotes | backend/api.py:106-204 | a missing or empty collection gives its error with an empty answer and no sources, and the model is not called; a missing key gives its error and keeps the (at most 4) retrieved sources; otherwise the model gets the prompt built from them, and its answer comes back with them, or its failure gives a processing error with no sources; the query is always echoed; the store is not changed |
| Retrieval.ErrorMessageInjective | backend/api.py:116-204 | the four error strings determine the error: its kind, and the subject or failure detail it quotes |
| Retrieval.RetrievedAreStored | backend/query_api.py:46-57 | from `n` stored entries, `min(4, n)` sources come back aligned, each the text and id of a stored entry |
| Retrieval.ContextLayout | backend/query_api.py:72 | the context holds every retrieved text, in order, at its offset, with exactly `"\n\n"` between neighbours and nothing after the last text |
| Retrieval.PromptLayout | backend/query_api.py:81-88 | the prompt is the instruction, `"\n\nContext:\n"`, the context, `"\n\nQuestion: "`, the query, and `"\n\nAnswer:"` at the very end |
| Upload.SubjectOf | backend/api.py:57 | the subject is a prefix of the path with no `/`, and is either the whole path or followed by a `/` |
| Upload.SubjectOfUnique | backend/api.py:57 | only one prefix has those properties: the subject is the part before the first `/` |
| Upload.UploadNote | backend/api.py:39-79 | a missing folder gives its error and runs no stage; otherwise extraction runs for the subject, and ingestion of the subject runs, changing the store as `Ingest` says, exactly when extraction processed some file; the messages name the uploaded file |
| Embeddings.OpenSharedCollection | backend/embeddings.py:11-14 | loading the module leaves the shared collection in the store, keeping its entries if it existed and empty otherwise; nothing else changes |
| Embeddings.ChunkAndEmbed | backend/embeddings.py:16-32 | the shared collection grows by one entry per chunk with ids `doc_{c+i}`, where `c` is its earlier size; no other collection changes; the returned pairs zip chunks with embeddings; a missing shared collection, or a text that splits into no chunks (whose empty `add` is refused), raises and changes nothing |
| Embeddings.DocIdInjective | backend/embeddings.py:23 | different counters give different `doc_` ids |
| Embeddings.NewIdsDistinct | backend/embeddings.py:23 | the ids one call assigns are pairwise distinct |
| Embeddings.NumberedIsUnique | backend/embeddings.py:21-23 | a collection whose entry `i` has id `doc_i` has no repeated id |
| Embeddings.AppendKeepsNumbering | backend/embeddings.py:22-30 | appending at the current count keeps a collection numbered from zero, so its ids stay unique |
| Embeddings.PairsMatchChunks | backend/embeddings.py:19-32 | the result has one pair per chunk, chunk `i` with its own embedding |

## Left out

- `VectorIndex.Nearest`: it returns the first `min(k, n)` entries in stored order. Which entries the store ranks nearest, and the floating-point distances, are not modelled, so the model proves nothing about relevance.
- Duplicate ids on `add` (the store's own behaviour) are not modelled. Ingestion always adds to a fresh collection and is proved to produce unique ids (`Ingestion.IndexEntriesUnique`). `Embeddings.ChunkAndEmbed` appends to a collection that is not fresh. For it, `Embeddings.AppendKeepsNumbering` is the argument: the shared collection stays numbered from zero, so its ids stay unique, as long as only `chunk_and_embed` appends to it. Nothing in this code deletes from it.
- The text splitter's algorithm and the embedding model are opaque capabilities. Only their configuration (500, 50) and their per-text use are modelled.
- `Collaborators.Encode`: `model.encode` is taken to embed each text independently of the batch it is in (entry `k` is `embed(chunk k)`). The real model pads inputs within a batch, so its floating-point output can depend on the batch. `Ingestion.BatchBoundaryInvisible` and `Ingestion.AddInBatches` are exact for ids and documents, but for embeddings they hold only under this assumption.
- `VectorIndex.Store` is an in-memory map: persistence, the client objects and `os.makedirs` of the storage directory are not modelled.
- Writing the uploaded file to disk in `upload_note` is not modelled. The folder listings after the write are inputs.
- `Ingestion.IngestFolder`: an exception after the read loop is not modelled. No call after that loop is inside a `try`, so any such exception propagates. Its effect on the store depends on where it happens:
  - before the drop: the splitter, `os.makedirs` and the store client (ingest_api.py:45, 50, 51). The old collection stays as it was;
  - `create_collection` (ingest_api.py:61) raising after the drop at line 55: the subject's collection is missing;
  - loading the embedding model (ingest_api.py:65): the collection is empty;
  - `encode` or `add` (ingest_api.py:73, 77): the collection holds the batches stored before the failing one;
  - `count` (ingest_api.py:85): the collection holds every batch.

  The model's capabilities are total, and its store calls do not fail on this path, so it describes only a normal return.
- `Ingestion.IngestFolder`, `Extraction.ExtractText`: a subject path that exists but is not a directory (for example a file uploaded with an empty path), and any other failure of `os.listdir` (ingest_api.py:22, extract_api.py:21), are not modelled. `os.path.exists` lets such a path through, and the listing then raises out of both functions. A listing is `Option<seq<DirEntry>>`, which has no value for this case.
- `Ingestion.Ingest`: for the same reasons it describes only a normal return of `ingest_folder`. The store after an exception is not modelled.
- `Ingestion.AddInBatches`: a failing `encode` or `add` in the middle of the loop, which leaves the earlier batches stored, is not modelled.
- `Upload.UploadNote`: the `except` branch (api.py:75-79) is not modelled. Every failure listed above reaches it. Some reach it with the store unchanged: the imports (api.py:53-54), a failing `extract_text` outside its per-file `try` (such as `os.listdir`, extract_api.py:21), and ingestion failures before the drop. Ingestion failures after the drop reach it with the subject's collection missing, empty, partly filled or full, as listed above.
- `Upload.UploadNote`: the response's `path` field (the saved file's path, api.py:66, 73) and the 400 status of the missing-folder error (api.py:44) are not modelled, because saving the file and the HTTP layer are outside the model.
- `Extraction.ExtractText`: `extracted_texts` is a `map`, so the listing order in which the source's dict was filled (extract_api.py:28, 36) is not kept. The records in `processed_files` do keep listing order.
- `Retrieval.QueryNotes`: the outer `except` is modelled only for a failing language-model call. Failures of the store client, the embedding model or the query are not modelled.
- The concurrency between concurrent ingestions of one subject (delete then create) and between `chunk_and_embed` calls reading the same count is not modelled. The model is sequential.
- `str.lower()` is modelled on ASCII letters only. Other scripts' case mappings are not modelled, and the extensions compared are ASCII.
- Log output (`print`) is left out.
- `create_folder` and `list_tree` (api.py:32-37, 81-104) only touch the filesystem and are not part of this model.
- `redis_store.py`, `ocr_extract.py`, `ingest_notes.py`, `rag_query.py` and the frontend are not part of this model.
- The language model's choice of model name, the API key value passed to it, and the `hasattr(response, 'content')` fallback are folded into the `complete` capability.
