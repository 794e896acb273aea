# Hybrid query engine backend — a Dafny model

This project models the in-memory core of a backend that answers questions
over a relational database and a corpus of uploaded documents. It covers:

- **`DocumentProcessor`** (module `Documents`, chunking in `Chunking`):
  - splitting a document into trimmed, non-blank lines and packing them into
    chunks of at most 2000 characters, unless a single line is longer
    (`dynamic_chunking`);
  - growing the corpus batch by batch, with entry ids equal to positions, one
    report per file and one progress callback per file (`process_documents`);
  - attaching either token sets or the vector-index flag to every entry;
  - the token-overlap branch of `search`: positive overlaps only, stable sort
    by decreasing overlap, at most `top_k` hits.
- **`QueryEngine`** (module `Queries`):
  - the first-match lexical classifier (`_classify`);
  - the choice of canned statement in `_execute_structured`: a count, an
    average grouped by department, or a ten-row sample, with its table and
    columns;
  - `process_query` as a state machine over a result cache and a history
    list, and `get_history`.
- **`IngestionJobManager`** (module `Jobs`): a dictionary of job records
  with `create_job`, `update_progress` and `get_status`, plus a replay model
  of any sequence of calls.
- **`SchemaDiscovery`** (module `Schemas`):
  - the catalog that `analyze_database` builds from what the inspector
    reports, and its table-role inference;
  - the tokenisation and candidate assembly of
    `map_natural_language_to_schema`.

Supporting modules:

- `Wrappers` holds `Option` and `Result`.
- `Text` writes out the Python string primitives the code relies on:
  `isspace`, ASCII `lower`, `strip`, both forms of `split`, `'\n'.join`,
  substring `in` and `basename`.
- `Dicts` models a Python `dict` with insertion order, as a list of pairs
  with distinct keys.

Behaviours of the code that a reader might not expect, all of which the
model follows:

- **"show" makes a question hybrid.** `'show'` is in the list at
  `backend/query_engine.py:21`, which is checked before the structured
  terms. So "show me resumes mentioning Python" is *hybrid*, not
  *document* (`Queries.ShowResumeIsHybrid`).
- **The history is never trimmed.** The history list grows without bound,
  and only `get_history` cuts it to the last 100 entries (`Queries.Recent`).
- **`finished_at` is stamped again on every later update.** The test is
  `processed >= total` (`backend/utils.py:17-19`), so an update after a
  job has finished overwrites `finished_at` (`Jobs.Advance`).
- **A table named `departments` gets no role.** Matching is by substring,
  and `departments` does not contain `dept` (`Schemas.DepartmentsHasNoRole`).
- **Any failure replaces the whole answer.** When the structured half
  fails, the whole answer becomes `{error}` and any document hits are not
  returned (`Queries.QueryEngine.ProcessQuery`).
- **The first chunk can be empty.** The accumulator starts as `''`, so when
  the first non-blank line has 2000 characters or more, the empty
  accumulator is closed as a chunk `''` (`Chunking.OnlyFirstChunkEmpty`).
- **Search switches mode on the index, not on the query.** Once any batch
  has built the vector index, every search asks for nearest neighbours, and
  token sets are no longer consulted (`Documents.DocumentProcessor.Search`).

## Model

| member | source | states |
|---|---|---|
| Chunking.DynamicChunking | backend/document_processor.py:41-53 | The loop returns exactly `ChunkText(content)`, whatever `doc_type` is. Each line is appended while `len(cur) + len(p) < 2000`; otherwise the accumulator is closed and restarted with the line. |
| Chunking.ChunksPartitionLines | backend/document_processor.py:42-52 | The chunks are groups of the trimmed non-blank lines joined by `'\n'`. The groups concatenate back to exactly those lines, in order. |
| Chunking.GroupBound | backend/document_processor.py:46-50 | A group of two or more lines joins to at most 2000 characters. A longer group is one line of the input. |
| Chunking.ChunkBound | backend/document_processor.py:46-50 | Every chunk built from two or more lines has length at most 2000. |
| Chunking.LongChunkIsOneLine | backend/document_processor.py:46-50 | A chunk longer than 2000 characters is a single input line. |
| Chunking.OnlyFirstChunkEmpty | backend/document_processor.py:44-49 | A chunk is `''` exactly when it is the first one and the first non-blank line has 2000 or more characters. |
| Chunking.NoLinesNoChunks | backend/document_processor.py:42-52 | There are no chunks exactly when the document has no non-blank line. |
| Chunking.BlankDocument | backend/document_processor.py:42 | A document made only of whitespace gives no chunks. |
| Chunking.ChunksRejoin | backend/document_processor.py:42-52 | The non-empty chunks joined by `'\n'` equal the trimmed non-blank lines joined by `'\n'`, with nothing lost or repeated. |
| Documents.LastDot | backend/document_processor.py:60 | Finds the last `.` of a name, or reports that there is none (the search `splitext` makes). |
| Documents.Attach | backend/document_processor.py:69-79 | After a vector batch an entry is marked embedded and keeps its tokens. After a token batch its tokens are `set(text.lower().split())`. Id, path, text and source never change. |
| Documents.Ingest | backend/document_processor.py:56-67 | The corpus grows by one entry per chunk, file by file then chunk by chunk, with ids continuing from the old length. `new_texts` holds the new chunk texts. `created` holds one report per file. The callback fires once per file when one is given. |
| Documents.IngestFile | backend/document_processor.py:61-64 | One file's chunks become entries in chunk order, numbered on from the corpus size, and their texts join `new_texts`. |
| Documents.ReportsAt | backend/document_processor.py:65 | Report `i` is `{path: paths[i], chunks: number of chunks of file i}`. |
| Documents.PiecesCount | backend/document_processor.py:61-65 | The corpus grows by exactly the sum of the reported chunk counts. |
| Documents.BatchKeeps | backend/document_processor.py:62-63 | Earlier entries keep their id, path, text and source. The new entries carry their file's path and chunk text, in order. |
| Documents.BatchConsistent | backend/document_processor.py:62-79 | The corpus invariant survives a batch: ids equal positions; sources are basenames; stored tokens are the text's token set; the vector index exists exactly when the model loaded and the corpus is non-empty; in vector mode every entry is embedded, otherwise every entry has tokens. |
| Documents.AttachAll | backend/document_processor.py:75-79 | Every entry of the corpus gets `Attach` for the batch's mode. |
| Documents.DocumentProcessor.constructor | backend/document_processor.py:10-20 | A new processor has an empty corpus and no vector index. |
| Documents.DocumentProcessor.ProcessDocuments | backend/document_processor.py:55-80 | Keeps the corpus invariant and returns one report per path. Fires `len(paths)` callbacks when a callback is given. Grows the corpus by exactly the new chunks and attaches the batch mode to every entry. The index is built once a batch with new chunks runs with the model loaded, and a later empty batch does not unbuild it. |
| Documents.Overlapping | backend/document_processor.py:91-96 | `scored` is in corpus order. It holds exactly the entries with a positive overlap, each with its overlap. An entry without tokens scores 0. |
| Documents.SortByScore | backend/document_processor.py:97 | The array ends sorted by decreasing overlap, with ties in corpus order as a stable sort leaves them. It is a permutation of its input. |
| Documents.SortedRanks | backend/document_processor.py:97 | The sorted list is the ranking `RankedBy`: every positive entry, nothing else, best first. |
| Documents.RankingUnique | backend/document_processor.py:97 | Only one ranking exists for a corpus and a query. |
| Documents.HitsOf | backend/document_processor.py:98 | The result list has `min(top_k, number ranked)` entries. |
| Documents.TokenHits | backend/document_processor.py:95-98 | At most `top_k` hits, all with positive scores and non-increasing. When fewer than `top_k` come back, every entry with a positive overlap is among them. |
| Documents.NoTokensNoHits | backend/document_processor.py:94 | A corpus without token sets gives no hits, which covers the empty corpus. |
| Documents.TokenSearch | backend/document_processor.py:91-98 | The hits are the first `top_k` of the unique ranking, as `{score, text, source}`. |
| Documents.SearchDeterministic | backend/document_processor.py:82-99 | A search has exactly one answer. |
| Documents.DocumentProcessor.Search | backend/document_processor.py:82-99 | With the vector index built, asks for `min(top_k, len(docs))` neighbours. Otherwise returns the token hits. |
| Jobs.NewJob | backend/utils.py:11 | A new record has the given total, `processed = 0`, status `running`, a start time and no finish time. |
| Jobs.Advance | backend/utils.py:16-19 | The counter grows by `processed`. Reaching the total marks the job finished at `now` (again, if it already was). Below the total, status and finish time stay. |
| Jobs.AdvanceSound | backend/utils.py:17-19 | A job has a finish time exactly when it is finished, and an advance never takes that back. |
| Jobs.AdvanceMonotone | backend/utils.py:16-18 | With a non-negative step the counter does not decrease. A finished job has reached its total. |
| Jobs.Apply | backend/utils.py:9-19 | A create stores a fresh record. An update of an unknown id changes nothing. An update of a known id advances only that job. |
| Jobs.ReplaySound | backend/utils.py:11-19 | After any sequence of calls, every job's finish time agrees with its status. |
| Jobs.FinishedStays | backend/utils.py:11-18 | Once finished, a job stays present and finished under any later calls, because only a create writes `running` and created ids are fresh. |
| Jobs.ReplayMonotone | backend/utils.py:16-18 | Under non-negative updates a job's counter never decreases, and a finished job has reached its total. |
| Jobs.AfterUnitUpdates | backend/utils.py:14-19 | After `n` default updates a running job has processed `n` more. It is finished exactly when `n > 0` and that reaches the total. |
| Jobs.FinishTime | backend/utils.py:19 | The update that completes a run of unit updates stamps the finish time. |
| Jobs.FiveOfFive | backend/utils.py:9-19 | `create_job(5)` then five unit updates: five processed, finished, stamped with the last update's time. |
| Jobs.EmptyJobRunning | backend/utils.py:11-17 | `create_job(0)` stays `running`, although its counter already reaches its total. |
| Jobs.IngestionJobManager.constructor | backend/utils.py:6-7 | The tracker starts with no jobs. |
| Jobs.IngestionJobManager.CreateJob | backend/utils.py:9-12 | Returns an id not present before, stores the new record and leaves other jobs unchanged. |
| Jobs.IngestionJobManager.UpdateProgress | backend/utils.py:14-19 | Is the `Apply` of an update. An unknown id is a no-op. The set of ids is unchanged and the other jobs are untouched. |
| Jobs.IngestionJobManager.GetStatus | backend/utils.py:21-22 | The stored record for a known id, nothing otherwise, without changing anything. |
| Dicts.Put | backend/schema_discovery.py:14-17 | Assigning a key: it now maps to the value and other keys keep theirs. A present key keeps its place; a new key goes last. Keys stay distinct. |
| Schemas.InferRole | backend/schema_discovery.py:21-25 | `employees` exactly when the lower-cased name contains `emp`, `staff`, `person` or `personnel`. `departments` exactly when it contains none of those but contains `dept` or `division`. No role otherwise. |
| Schemas.EmployeesWin | backend/schema_discovery.py:22-25 | `emp_dept` carries a department mark but is an employees table. |
| Schemas.InferRoleIgnoresCase | backend/schema_discovery.py:21 | The role depends only on the lower-cased name. |
| Schemas.DepartmentsHasNoRole | backend/schema_discovery.py:24 | A table named `departments` gets no role. |
| Schemas.TablesLookup | backend/schema_discovery.py:11-17 | Each table maps to the inspector's last report of it: columns (names and types, in order) and foreign keys. |
| Schemas.TablesKeys | backend/schema_discovery.py:11-14 | The catalog's tables are exactly the names the inspector reported. |
| Schemas.StoreTables | backend/schema_discovery.py:11-17 | The table loop builds `TablesOf`. |
| Schemas.InferredExact | backend/schema_discovery.py:19-25 | Every inferred entry is a catalog table with the role its name suggests. Every table with a role is inferred. |
| Schemas.InferredLookup | backend/schema_discovery.py:19-26 | `inferred.get(t)` is the role of `t` for a catalog table, and nothing for any other name. So every key of `inferred` is a key of `tables`. |
| Schemas.InferRoles | backend/schema_discovery.py:19-25 | The inference loop builds `Inferred`. |
| Schemas.AnalyzeDatabase | backend/schema_discovery.py:9-29 | The catalog holds the tables the inspector got through. Without a failure it holds `inferred` and no error. After a failure it holds the error message and no `inferred`. |
| Text.StripByCut | backend/schema_discovery.py:32 | `strip(chars)` returns a slice of its input, and every character it removes is in the set and lies before or after that slice. |
| Schemas.Tokens | backend/schema_discovery.py:32 | Token `k` is word `k` of the lower-cased query with only spaces, commas, dots and question marks cut from its two ends, and what is left neither starts nor ends with one of them. |
| Schemas.QuestionMarkToken | backend/schema_discovery.py:32 | The emptiness test comes before the strip, so the query `?` gives the empty token. |
| Schemas.AllColumnsHas | backend/schema_discovery.py:33-36 | `(t, c)` is in `all_columns` exactly when table `t` has a column named `c`. |
| Schemas.CollectColumns | backend/schema_discovery.py:33-36 | The loops list `(table, column)` pairs, tables in catalog order, then columns in table order. |
| Schemas.ColNames | backend/schema_discovery.py:37 | `col_names[i]` is the column of `all_columns[i]`. |
| Schemas.IndexOf | backend/schema_discovery.py:42 | `index` gives the first position holding the name. |
| Schemas.CandidateFor | backend/schema_discovery.py:40-43 | A token has a candidate exactly when it has a close match. |
| Schemas.CandidateMeaning | backend/schema_discovery.py:40-43 | The candidate names the first close match, and the table of that name's first occurrence in `all_columns`. |
| Schemas.CandidatesLookup | backend/schema_discovery.py:38-43 | A key of `candidates` is a token with a close match, mapped to its candidate. Tokens without a match and non-tokens are absent. |
| Schemas.MapTerms | backend/schema_discovery.py:31-44 | The loops build exactly `Candidates(Tokens(query), all_columns)`. |
| Queries.Classify | backend/query_engine.py:18-26 | `document` exactly when there is a document term and no line-21 term. `structured` exactly when there is no document term and a line-24 term. `hybrid` in the two remaining cases. |
| Queries.EmptyIsHybrid | backend/query_engine.py:18-26 | The empty question is hybrid. |
| Queries.ClassifyIgnoresCase | backend/query_engine.py:19 | Classification depends only on the lower-cased question. |
| Queries.MentionsBoth | backend/query_engine.py:20-22 | Any document term together with any line-21 term gives hybrid. |
| Queries.OnlyStructured | backend/query_engine.py:24-25 | A line-24 term without any document term gives structured. |
| Queries.HowManyIsStructured | backend/query_engine.py:19-25 | "how many" followed by text without the letters u, c, d, k or i is structured. "how many employees are there" is one such question. |
| Queries.ShowResumeIsHybrid | backend/query_engine.py:20-22 | Any question "show …resume…" is hybrid, including "show me resumes mentioning Python". |
| Queries.ListSkillIsHybrid | backend/query_engine.py:20-22 | Any question "list …skill…" is hybrid, including "list employees with Java skills". |
| Queries.FirstEmployees | backend/query_engine.py:61-63 | The first `inferred` entry whose role is employees, or none. |
| Queries.FirstMarked | backend/query_engine.py:73-79 | The first `(table, column)` whose lower-cased column contains a mark, or none. |
| Queries.ShapeTables | backend/query_engine.py:58-93 | Every chosen statement names a catalog table. An average reads a salary-like column of its own table and groups by the first department-like column of the catalog. Only an empty catalog fails. |
| Queries.FindTable | backend/query_engine.py:60-65 | The loop with `break` gives the first employees table unless its name is empty, else the first catalog table, else the `IndexError`. |
| Queries.ScanColumns | backend/query_engine.py:72-79 | The nested loops find the first salary-like and the first department-like column, each with its table. |
| Queries.SelectShape | backend/query_engine.py:55-93 | "how many" or "count" gives a count. "average" plus a pay term, with both columns found, gives the grouped average. Otherwise a ten-row sample. Exactly `ShapeFor`. |
| Queries.CountOf | backend/query_engine.py:67-68 | No row, or an empty first row, counts 0. An integer `cnt` in the first row is the count, and any non-zero count comes from it. A missing `cnt` is the `KeyError`, a text `cnt` an error. |
| Queries.StructuredShape | backend/query_engine.py:54-93 | A count answers the single row `{count: n}`. An average or a sample answers the database's rows for the chosen statement. With a connection, only an empty catalog fails before the database is asked. |
| Queries.ExecuteStructured | backend/query_engine.py:54-93 | Refuses with the connection error, the table error or the statement's error, or answers the rows. Exactly `StructuredAnswer`. |
| Queries.AsHit | backend/query_engine.py:34-35 | The stored envelope with only `cache_hit` set to true. |
| Queries.Recent | backend/query_engine.py:29 | The last `min(100, len(history))` entries, in insertion order. |
| Queries.RecentSnoc | backend/query_engine.py:29-49 | After one more query the window gains it at the end and drops its oldest entry once full. |
| Queries.QueryEngine.constructor | backend/query_engine.py:9-16 | Starts with an empty cache and an empty history. |
| Queries.QueryEngine.GetHistory | backend/query_engine.py:28-29 | Returns `Recent(history)`: the last `min(100, len(history))` queries, oldest first. |
| Queries.QueryEngine.ProcessQuery | backend/query_engine.py:31-52 | **Hit:** the stored envelope flagged as a hit; no classification, retrieval or history. **Miss with a failing structured half:** only the error; cache and history unchanged. **Other misses:** an envelope of the question's type. `structured` is present for structured or hybrid questions. `documents` is present for document or hybrid questions when a processor exists, holding the top-5 search answer. It is cached under the exact question and adds one history entry. Every cached envelope answers its key. |
| Queries.AskTwice | backend/query_engine.py:33-50 | Asking a question again, after it was answered, returns the same envelope flagged as a cache hit, and only the first call can add history. |

## Left out

- **Text extraction** (`pdfplumber`, `python-docx`, `pandas`, file reads) is
  the function parameter `extract`. A failed extraction is the empty string.
- **Embeddings and the cosine nearest-neighbour index** reduce to the flags
  `embedded` and `nnBuilt`. A vector search is reduced to the number of
  neighbours it asks for; scores and texts of vector hits are not modelled.
- **Failures of the embedding model, the filesystem or `os.makedirs`** are
  not modelled.
- **The `meta` dictionary of an entry** is flattened into its `source`
  field.
- **`TTLCache` expiry** (300 seconds) and **eviction at 1000 entries** are
  left out. The cache is an unbounded map, so a question the model answers
  from the cache may have expired in the running system.
- **Clocks and ids:**
  - `time.time()` becomes parameters: `now` for job times, `elapsed` for
    the already rounded duration of a query.
  - `uuid4()` becomes the caller-supplied `freshId`, required to be unused.
- **SQL** is not built as text. Statements are the `Shape` datatype. The
  database, including a refused connection, is the `Database` parameter, and
  rows are dictionaries of abstract cells.
- **Connection failures in `analyze_database`:** `create_engine` and
  `inspect` run before the `try` (`backend/schema_discovery.py:7-8`). A
  malformed URL or an unreachable database therefore raises out of the
  function instead of giving a catalog with an error. That path is not
  modelled: `Schemas.AnalyzeDatabase` starts from an inspector that exists.
- **The inspector** is the `Listing` input: the tables it reported before
  any exception, and that exception's message.
- **`get_close_matches`** is the parameter `closeMatches`. It is only
  required to return names drawn from the list it is given.
- **`process_query` computes the term mapping and passes it to
  `_execute_structured`, which never reads it.** `get_close_matches` cannot
  fail on strings, so `ProcessQuery` does not make that call; it would not
  change any outcome.
- **Python's `int()` on text:**
  - Queries.CountOf: a text cell in `cnt` is always an error, whereas
    Python's `int` also accepts numeric text.
- **Failures of the document search** inside `process_query` are not
  modelled; `Search` always answers.
- **The cached envelope is shared, not copied.** The source returns the very
  object it caches, so a caller that mutates the answer mutates the cache.
  The model stores values, and this aliasing is not captured.
- **Case and whitespace:** `str.lower` is modelled on ASCII letters only.
  `isspace` is written out for the Unicode whitespace characters.
- **Concurrency:** the tracker and the cache have no locking in the source,
  and the model is sequential.
- **The HTTP layer** (`backend/main.py`: routes, uploads, background tasks,
  singletons) is not part of this model.
