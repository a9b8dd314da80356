# A model of the CodeQuest ingestion and query engines

CodeQuest indexes StackOverflow questions for semantic search. Each row is
turned into one text, `Title: …\nBody: …\nAccepted Answer: …`. The text is
embedded and stored in a vector index under the SHA-256 of the text. A query
is answered by embedding the query text and running a k-nearest-neighbour
search. This project models, in Dafny, the request handlers that do this and
the bookkeeping of the store they write to:

- **The paging ingestion engine** (`IngestionHandler.handle` in
  `src/ingestion/handler.py`). It fetches `batch_size` rows at a moving
  offset. It skips rows whose text is already indexed. It embeds the other
  rows, skipping those whose embedding call fails with a service error. It
  flushes each page's successes in one bulk write, and it repeats until
  `number_of_records` documents are indexed.
- **The single-fetch ingestion engine of the Lambda deployment**
  (`lambda_functions/ingestion/handler.py`). It makes one fetch, has no
  dedup, and makes exactly one save.
- **Three query handlers.**
  - The OpenSearch handler (`src/query/handler.py`) answers 400, 500, 404
    or 200.
  - The Elasticsearch handler (`lambda_functions/query/handler.py`) never
    answers 404.
  - The Lambda module entry point (`lambda_functions/query/app.py`)
    repeats the Elasticsearch handler.
- **The store side of the embedding service** (`src/common/embeddings.py`):
  - document identity by digest;
  - ensure-index-then-act;
  - the dedup lookup;
  - the bulk save and the k-NN query.

Collaborators are parameters of the model, as follows:

- **The row source** is a function of `(limit, offset)`. The Lambda engine's
  is a function of the row count.
- **The embedding model** is a function of the call's position in the run
  and the text. The position lets an intermittently failing model be
  expressed. For queries, it is a function of the text.
- **Each search** is a function returning its result or the exception it
  raised.
- **The store** is a class, `EmbeddingService`. It holds an index flag and a
  map from id to `(text, embedding)`, which its methods update in place.
  `hash` is an arbitrary deterministic function standing for SHA-256, and
  nothing assumes it is free of collisions.

Each handler returns, next to its response, a structured log of the calls it
made in order: fetches, lookups, embedding calls, flushes and searches.

Modules:

| file | module | what it holds |
|---|---|---|
| `common.dfy` | `Common` | `Option`, `Result`, collaborator exceptions, raw search hits |
| `rows.dfy` | `Rows` | rows and the combined text |
| `embeddings.dfy` | `Embeddings` | ids, bulk actions, the store class |
| `ingest_trace.dfy` | `IngestTrace` | the call log of an ingestion run |
| `ingestion.dfy` | `Ingestion` | the paging engine |
| `lambda_ingestion.dfy` | `LambdaIngestion` | the single-fetch engine |
| `query_common.dfy` | `QueryCommon` | query text, responses, hit mapping |
| `opensearch_query.dfy` | `OpenSearchQuery` | the OpenSearch query handler |
| `elastic_query.dfy` | `ElasticQuery` | the Elasticsearch query handler |
| `query_app.dfy` | `QueryApp` | the Lambda query entry point |

Some behaviour of the code, stated in the model as it is written:

- **The paging loop need not end.** It runs while fewer than
  `number_of_records` documents have been indexed. A row source that runs
  dry, or a batch size of 0, keeps it going forever. The model bounds the
  number of pages with a `fuel` parameter and reports `OutOfFuel` when the
  bound is reached.
- **Dedup works across pages, not within one.** The lookup runs before the
  page's flush. Two rows with the same text on one page are both embedded and
  both counted. They are both written, under one id, and the later write
  wins (`Embeddings.BulkLastWins`). `results` then exceeds the number of new
  documents.
- **Different rows can share a text.** A title or body containing
  `"\nBody: "` can give two different rows the same combined text
  (`Rows.CombinedTextCollision`). The second is then skipped when it comes
  on a later page than the first one's flush; on the same page both are
  embedded and counted.
  Single-line titles and bodies make the text injective
  (`Rows.CombinedTextInjective`).
- **The row source's arguments disagree.** `src/ingestion/handler.py:51`
  calls the row source with `(limit, offset)`, while
  `src/ingestion/retrievers.py` declares one argument. The code of the
  handler is followed here.

## Model

| member | source | states |
|---|---|---|
| Rows.CombinedTextLayout | src/ingestion/handler.py:58 | the text is `Title: `, the title, `"\nBody: "`, the body, `"\nAccepted Answer: "` and the accepted answer, each in full and in this order, and nothing else |
| Rows.Texts | src/ingestion/handler.py:52-58 | one combined text per row, in row order |
| Rows.ParseCombinedText | src/ingestion/handler.py:58 | the combined text of a row with single-line title and body reads back to the same three fields |
| Rows.CombinedTextInjective | lambda_functions/ingestion/handler.py:30 | for rows with single-line titles and bodies, equal combined texts (hence equal ids) iff equal rows |
| Rows.ShiftBodyTag | src/ingestion/handler.py:58 | moving `"\nBody: "` from the end of the title to the front of the body does not change the combined text |
| Rows.CombinedTextCollision | src/ingestion/handler.py:58 | two distinct rows whose multi-line fields give the same combined text |
| Embeddings.ApplyBulk | src/common/embeddings.py:119 | a bulk write removes no id and leaves every action's id present |
| Embeddings.HitList | src/common/embeddings.py:94-95 | the response's `hits.hits` when both levels are present; `KeyError('hits')` when either is missing; the search's own exception unchanged |
| Embeddings.Actions | src/common/embeddings.py:109-116 | exactly one action per pair, in input order, with `_id` the digest of the text and the text and vector unchanged |
| Embeddings.BulkKeys | src/common/embeddings.py:119 | a bulk write adds exactly its actions' ids and removes none |
| Embeddings.BulkUntouched | src/common/embeddings.py:119 | a document whose id no action names is left as it was |
| Embeddings.BulkLastWins | src/common/embeddings.py:113-119 | under a repeated id the last action's document is what remains |
| Embeddings.BulkAppend | src/common/embeddings.py:119 | two bulk writes leave the store as one write of both batches in order |
| Embeddings.SavedTextsAreIndexed | src/common/embeddings.py:98-113 | after a save, each saved text's digest is a key of the store, because the save and the lookup derive the id the same way |
| Embeddings.BatchIds | src/common/embeddings.py:109-116 | the ids of a batch's actions are exactly the digests of its texts |
| Embeddings.EmbeddingService.constructor | src/common/embeddings.py:16-29 | a service over a given index name, digest and initial store, with nothing sent yet |
| Embeddings.EmbeddingService.CheckIfIndexed | src/common/embeddings.py:98-100 | true iff the store holds a document under `hash(content)`; a missing index holds none |
| Embeddings.EmbeddingService.CreateIfNotExists | src/common/embeddings.py:31-44 | afterwards the index exists; one create request is sent iff it was absent, so a second call sends nothing |
| Embeddings.EmbeddingService.SaveToOpenSearch | src/common/embeddings.py:103-120 | ensure-index, one bulk write of the batch's actions, then a refresh; the store becomes the old store with the batch applied, its keys grow by exactly the batch's digests, and every saved text is then reported indexed |
| Embeddings.EmbeddingService.QueryOpenSearch | src/common/embeddings.py:70-95 | ensure-index, then one k-NN request with the vector unchanged and the given `k`; the result is the response's `hits.hits`, or a `KeyError` for a missing level |
| IngestTrace.FromOracleAppend | src/ingestion/handler.py:64-68 | logs of successive embedding calls join into one log consistent with the model |
| IngestTrace.SuccessesAtMost | src/ingestion/handler.py:69-70 | a page never yields more documents than it has rows |
| IngestTrace.FlushedAreSuccesses | src/ingestion/handler.py:77-80 | when each page flushed exactly its own successes, the flushed batches concatenated are the successes of the run in fetch order |
| Ingestion.NumberOfRecords | src/ingestion/handler.py:39 | `number_of_records`, 1000 when absent |
| Ingestion.RecordsOffset | src/ingestion/handler.py:40 | `records_offset`, 0 when absent |
| Ingestion.BatchSize | src/ingestion/handler.py:41 | `batch_size`, 100 when absent |
| Ingestion.KnownIdsSnoc | src/ingestion/handler.py:77-80 | one more page adds exactly its flushed texts' digests to the ids the lookup finds |
| Ingestion.PrefixFactsSnoc | src/ingestion/handler.py:46-62 | a page fetched while short, whose skips follow the store, keeps both facts for the longer run |
| Ingestion.RowStep | src/ingestion/handler.py:61-73 | one more row appends its success and its embedding call, if any, to the page's logs |
| Ingestion.ProcessPage | src/ingestion/handler.py:52-73 | the row loop: a row is skipped iff its text is indexed; the others are embedded as consecutive calls of the run; successes join the buffer in row order and are counted; a service error skips the row; any other exception stops the loop there and is returned |
| Ingestion.IngestPage | src/ingestion/handler.py:51-80 | one page: fetch at `(limit, offset)`, the row loop; skips are decided against the store as it was before the page; one flush of exactly the page's successes iff there are any and no exception escaped; the store becomes the old one with that batch applied, and its request log gains exactly that one save's requests, or nothing |
| Ingestion.RunOpsSnoc | src/ingestion/handler.py:77-80 | the requests of a run one page longer are those of the run followed by that page's |
| Ingestion.OpsAfterPage | src/ingestion/handler.py:77-80 | a log holding a run's requests, extended by one page's save, holds the longer run's requests |
| Ingestion.StoreAfterPage | src/ingestion/handler.py:77-80 | one more page's flush keeps the store's documents, index flag and request log equal to those of the run with every flush applied |
| Ingestion.BatchActions | src/common/embeddings.py:109-116 | one action list per batch, in order, each the batch's actions |
| Ingestion.PageBulks | src/ingestion/handler.py:77-80 | a page's requests hold one bulk write, of its batch's actions, when it flushed, and none otherwise |
| Ingestion.RunBulks | src/ingestion/handler.py:77-80 | the bulk writes of a run are one per flushing page, of that page's batch, in page order |
| Ingestion.CompleteBatches | src/ingestion/handler.py:77-80 | under the flush rule the batches written are the pages' non-empty success lists in order: no empty batch, and one per page when every page embedded something |
| Ingestion.RunSaves | src/ingestion/handler.py:77-80 | under the flush rule a run sends one non-empty bulk write per page that embedded something, holding that page's successes; one per page when every page embedded something |
| Ingestion.TraceStep | src/ingestion/handler.py:46-80 | the run's offsets, fetch condition, embedding log and dedup facts extend to one more page |
| Ingestion.StoreStep | src/ingestion/handler.py:77-80 | successive flushes leave the store as one bulk write of everything flushed |
| Ingestion.CompleteStep | src/ingestion/handler.py:46-80 | a fully processed page extends the run's facts; when the row source gives at most `limit` rows for `limit`, it adds at most `limit` documents |
| Ingestion.AbortedRunIntro | src/ingestion/handler.py:64-80 | a page cut short by an escaping exception, after complete pages, makes an aborted run |
| Ingestion.AbortConclusions | src/ingestion/handler.py:46-80 | an aborted run's offsets, fetch condition, embedding log and skips are those of the whole trace; the pages before the last are complete, the flushes are their successes, and the last page is cut short without a flush |
| Ingestion.StoreKeys | src/ingestion/handler.py:61-79 | after the run's flushes the store's keys are the initial ids plus the digests of everything flushed, which is the set the lookup skips against |
| Ingestion.NextStep | src/ingestion/handler.py:46-80 | one iteration of the outer loop extends a run by one page: complete and still consistent, or aborted; the store gains exactly that page's flush and its request log exactly that page's save |
| Ingestion.RunPages | src/ingestion/handler.py:43-80 | the outer loop from `records_offset` with page size `batch_size`: no page when `number_of_records <= 0`; a run that stops without an exception is complete and has indexed at least `number_of_records` documents unless the page budget ran out; otherwise the run is aborted; the store ends as the initial store with every flush applied, and its request log gains exactly the pages' saves in order |
| Ingestion.FlushedBefore | src/ingestion/handler.py:77-80 | what page k flushed is among what the pages before any later page flushed |
| Ingestion.FlushedTextsAreSkipped | src/ingestion/handler.py:61-79 | a row whose text an earlier page flushed is skipped, so it is not embedded, counted or saved again |
| Ingestion.Handle | src/ingestion/handler.py:29-87 | no page when `number_of_records <= 0` and result 0; page k is fetched at `(batch_size, offset + k*batch_size)` whatever it held; pages are fetched only while fewer than `number_of_records` documents are indexed; the skips follow the ids stored before the run or flushed since; the flushes concatenated are the successes in fetch order; a completed run answers 200 with `results` = their count, at least `number_of_records`, and under `number_of_records + batch_size` when the row source gives at most `batch_size` rows per page; an escaping exception ends the run after its page without a flush; the store ends as the old store with all flushes applied, the index exists iff it did or something was flushed, and the store's request log gains exactly one save per flushing page, in order (`RunSaves` counts them) |
| LambdaIngestion.NumberOfRecords | lambda_functions/ingestion/handler.py:23 | `number_of_records`, 100 when absent |
| LambdaIngestion.DocumentsAtMost | lambda_functions/ingestion/handler.py:31-43 | `results` is at most the number of rows fetched |
| LambdaIngestion.DocumentsAllEmbedded | lambda_functions/ingestion/handler.py:31-35 | when every embedding succeeds there is one document per row, `{embedding, combined_text}` in row order |
| LambdaIngestion.DocumentsFromCalls | lambda_functions/ingestion/handler.py:31-35 | every saved document is a successful embedding call's text and vector |
| LambdaIngestion.CallStep | lambda_functions/ingestion/handler.py:31-35 | one more embedding call extends the call log consistently with the model and appends its document, if any |
| LambdaIngestion.Handle | lambda_functions/ingestion/handler.py:19-43 | exactly one fetch, of `number_of_records` rows; call k embeds row k's combined text, without dedup; a service error skips the row; otherwise every row is handled and one save of the documents is made even when there are none, answering 200 with their count; any other exception stops the run with no save |
| QueryCommon.QueryText | src/query/handler.py:16-18 | there is a query text iff `queryStringParameters` is present and has a non-empty `query` |
| QueryCommon.MapHit | src/query/handler.py:53-56 | a hit maps iff it has `_score` and `_source`; the result carries the score and the field's text, `""` when absent; `KeyError('_score')` is raised before `KeyError('_source')` |
| QueryCommon.MapHits | src/query/handler.py:52-57 | the hits map successfully iff each has `_score` and `_source`; then one result per hit, in order, with the hit's score and the field's text or `""` |
| QueryCommon.MapHitsSnoc | lambda_functions/query/handler.py:43-49 | mapping one more hit extends the results or stops at its error |
| QueryCommon.MapHitsFirstFailure | src/query/handler.py:52-66 | a failed mapping reports the `KeyError` of the first hit that lacks a key |
| QueryCommon.MapHitsFailureSticks | lambda_functions/query/handler.py:43-49 | once a prefix of the hits fails, the whole mapping fails with that error |
| QueryCommon.MapHitsFieldIndependent | lambda_functions/query/handler.py:47 | whether the mapping fails, with which error, and how many results it gives do not depend on the text field read |
| OpenSearchQuery.Handle | src/query/handler.py:12-66 | 400 "No query text provided in event." iff there is no query, with no call; an embedding exception gives 500 "Embedding generation failed: …" with no search; the embedding is searched unchanged with the default `k`; 404 "No matches found" iff the search found no hits; 200 iff hits were found and all could be mapped, with the mapped hits as results; a search or mapping exception gives 500 "Opensearch query failed: …" |
| ElasticQuery.ResponseHits | lambda_functions/query/handler.py:42-43 | the hits iterated are `results["hits"]["hits"]` when the response is truthy and has both levels; any hit comes from such a response |
| ElasticQuery.Respond | lambda_functions/query/handler.py:12-60 | never 404; the 400 and embedding cases as in the OpenSearch handler; the embedding is passed unchanged as the query vector; 200 iff the search returned and its hits, if any, all mapped, with results read from `combined_text`; a falsy response or a missing or empty hit list gives 200 with no results; a search or mapping exception gives 500 "Elasticsearch query failed: …" |
| ElasticQuery.CollectHits | lambda_functions/query/handler.py:41-49 | the append loop builds exactly the mapped hits reading `combined_text`, or stops at the first hit's `KeyError` |
| ElasticQuery.Handle | lambda_functions/query/handler.py:12-60 | the handler's early returns give exactly the answer and calls described by `Respond` |
| ElasticQuery.CompareWithOpenSearch | lambda_functions/query/handler.py:41-53 | on searches finding the same hits, the two handlers differ only on an empty hit list, where one answers 404 and the other 200 with no results; otherwise the statuses agree, with the same number and scores of results |
| QueryApp.QueryLambdaHandler | lambda_functions/query/app.py:30-86 | the same answer and calls as the Elasticsearch handler, so never 404 |

## Left out

- Store, row source and bulk-helper exceptions are not modelled. These
  include an exception from `exists`, `create`, `bulk` or `refresh`, or
  from the row source. Only embedding calls and searches fail in the model.
- The index's settings and mapping body, and the embedding dimension
  (`src/common/embeddings.py:34-43`), are not modelled. They affect only how
  the store is configured.
- Logging is not modelled, nor is the final log line, which always reports
  0 documents. Neither affects behaviour.
- Refresh visibility is not modelled. A bulk write is taken to be visible to
  the dedup lookup once the save returns. The model records the refresh
  request in the store's request log, `ops`.
- Ingestion.Handle: a run that does not end is modelled only up to `fuel`
  pages, and reported as `OutOfFuel`. Nothing is said about the pages after
  the bound.
- Event fields are modelled as already-parsed optional integers. The
  `int()` parsing of strings, and its `ValueError`, are not modelled.
- `generate_embedding` (a Bedrock call plus JSON decoding) is not modelled;
  it is an embedding parameter. SHA-256 is not modelled either; it is the
  store's `hash`.
- The row source's SQL (`get_dataframe`) is not modelled; it is the pager
  parameter.
- The Elasticsearch writer `save_to_elasticsearch` and searcher
  `query_elasticsearch` are not modelled. Both are thin client wrappers.
  The model records the save's argument and the search's vector and `k`,
  and takes the search's response as a parameter.
- OpenSearchQuery.Handle: the search parameter stands for
  `query_opensearch` as a whole. The relation between that search and the
  store's contents is stated on `Embeddings.EmbeddingService.QueryOpenSearch`,
  not in the handler.
- A summarising query variant (`k=5`, prompt blocks, markdown extraction)
  appears in `test/query/test_handler.py:51-78`. No handler implements it,
  so it is not modelled.
- The tests that expect other behaviour than the handlers beside them are
  not modelled: `src/query/test_handler.py` and `test/ingestion/test_retriever.py`.
  The handlers' code is modelled.
- Entry-point setup is not modelled: client construction, secrets and
  `sys.exit` (`lambda_functions/query/app.py:11-27` and the `app.py` and
  `init_service.py` files). It is process start-up I/O.
- Scores and embedding components are `real`s, passed through unchanged.
  No floating-point arithmetic is done on them.
- A `query` parameter that is not a string, and a `_source` that is not an
  object, are not modelled. The model's parameters and sources are maps
  from strings to strings.
