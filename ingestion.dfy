/** The paging ingestion engine: fetch a page of rows at a moving offset,
    skip rows whose text is already indexed, embed the others (skipping
    rows whose embedding call fails with a service error), flush the page's
    successes in one bulk write, and go on until enough documents have been
    indexed. */
module Ingestion {
  import opened Common
  import opened Rows
  import opened Embeddings
  import opened IngestTrace

  /** The event's three optional fields, already parsed as integers. */
  datatype IngestEvent = IngestEvent(numberOfRecords: Option<int>, recordsOffset: Option<int>, batchSize: Option<int>)

  const DefaultNumberOfRecords: int := 1000
  const DefaultRecordsOffset: int := 0
  const DefaultBatchSize: int := 100

  function GetOr(field: Option<int>, default: int): int
  {
    match field
    case Some(v) => v
    case None => default
  }

  /** `number_of_records`, 1000 when absent. */
  function NumberOfRecords(event: IngestEvent): (n: int)
    ensures event.numberOfRecords.None? ==> n == 1000
    ensures event.numberOfRecords.Some? ==> n == event.numberOfRecords.value
  {
    GetOr(event.numberOfRecords, DefaultNumberOfRecords)
  }

  /** `records_offset`, 0 when absent. */
  function RecordsOffset(event: IngestEvent): (n: int)
    ensures event.recordsOffset.None? ==> n == 0
    ensures event.recordsOffset.Some? ==> n == event.recordsOffset.value
  {
    GetOr(event.recordsOffset, DefaultRecordsOffset)
  }

  /** `batch_size`, 100 when absent. */
  function BatchSize(event: IngestEvent): (n: int)
    ensures event.batchSize.None? ==> n == 100
    ensures event.batchSize.Some? ==> n == event.batchSize.value
  {
    GetOr(event.batchSize, DefaultBatchSize)
  }

  /** The ids the dedup lookup finds once `pages` have run: the ids the store
      started with and the ids of every text flushed since. */
  ghost function KnownIds(initial: set<DocId>, hash: string -> DocId, pages: seq<PageTrace>): set<DocId>
  {
    initial + set d | d in AllFlushed(pages) :: DocumentId(hash, d.0)
  }

  /** Page k was fetched with `(limit, start + k * limit)`: the offset moves by
      the limit per page whatever the page held or how its rows fared. */
  ghost predicate OffsetsFollow(pages: seq<PageTrace>, limit: int, start: int)
  {
    forall k :: 0 <= k < |pages| ==> pages[k].limit == limit && pages[k].offset == start + k * limit
  }

  /** Every page handled all the rows the pager gave for its `(limit, offset)`. */
  ghost predicate PagesComplete(pages: seq<PageTrace>, pager: (int, int) -> seq<Row>)
  {
    forall k :: 0 <= k < |pages| ==> CompletePage(pages[k], pager(pages[k].limit, pages[k].offset))
  }

  /** A page is fetched only while fewer than `target` documents are indexed. */
  ghost predicate FetchedWhileShort(pages: seq<PageTrace>, target: int)
  {
    forall k :: 0 <= k < |pages| ==> |AllSuccesses(pages[..k])| < target
  }

  /** A row is skipped exactly when its id was in the store before the run or
      was flushed by an earlier page. */
  ghost predicate DedupAgainst(pages: seq<PageTrace>, hash: string -> DocId, initial: set<DocId>)
  {
    forall k, i :: 0 <= k < |pages| && 0 <= i < |pages[k].rows| ==>
      (pages[k].rows[i].AlreadyIndexed? <==>
       DocumentId(hash, pages[k].rows[i].text) in KnownIds(initial, hash, pages[..k]))
  }

  /** No page fetched with `limit` holds more than `limit` rows. */
  ghost predicate PagesAtMost(pager: (int, int) -> seq<Row>, limit: int)
  {
    forall offset :: |pager(limit, offset)| <= limit
  }

  lemma IdsAppend(hash: string -> DocId, xs: seq<(string, Vec)>, ys: seq<(string, Vec)>)
    ensures (set d | d in xs + ys :: DocumentId(hash, d.0))
         == (set d | d in xs :: DocumentId(hash, d.0)) + (set d | d in ys :: DocumentId(hash, d.0))
  {
  }

  lemma KnownIdsSnoc(initial: set<DocId>, hash: string -> DocId, pages: seq<PageTrace>, p: PageTrace)
    ensures KnownIds(initial, hash, pages + [p])
         == KnownIds(initial, hash, pages) + set d | d in PageFlushed(p) :: DocumentId(hash, d.0)
  {
    ConcatSnoc(pages, p, PageFlushed);
    IdsAppend(hash, AllFlushed(pages), PageFlushed(p));
  }

  /** Appending a page keeps the facts stated over the prefixes of the trace. */
  lemma PrefixFactsSnoc(pages: seq<PageTrace>, p: PageTrace, target: int,
                        hash: string -> DocId, initial: set<DocId>)
    requires FetchedWhileShort(pages, target) && |AllSuccesses(pages)| < target
    requires DedupAgainst(pages, hash, initial)
    requires forall i :: 0 <= i < |p.rows| ==>
               (p.rows[i].AlreadyIndexed? <==> DocumentId(hash, p.rows[i].text) in KnownIds(initial, hash, pages))
    ensures FetchedWhileShort(pages + [p], target)
    ensures DedupAgainst(pages + [p], hash, initial)
  {
    var next := pages + [p];
    assert forall k :: 0 <= k <= |pages| ==> next[..k] == pages[..k];
    assert next[..|pages|] == pages;
  }

  /** What appending one row's fate does to the derived logs. */
  lemma RowStep(calls: seq<RowCall>, call: RowCall, embed: (nat, string) -> EmbedResult, embedBase: nat)
    requires FromOracle(EmbedLog(calls), embed, embedBase)
    requires call.Embedding? ==> call.result == embed(embedBase + |EmbedLog(calls)|, call.text)
    ensures Successes(calls + [call]) == Successes(calls) + SuccessOf(call)
    ensures EmbedLog(calls + [call]) == EmbedLog(calls) + EmbedOf(call)
    ensures FromOracle(EmbedLog(calls + [call]), embed, embedBase)
  {
    ConcatSnoc(calls, call, SuccessOf);
    ConcatSnoc(calls, call, EmbedOf);
    FromOracleAppend(EmbedLog(calls), EmbedOf(call), embed, embedBase);
  }

  /** Row `r` was handled as `c`: under its combined text, skipped exactly
      when that text is indexed. */
  ghost predicate RowMatches(svc: EmbeddingService, c: RowCall, r: Row)
    reads svc
  {
    c.text == CombinedText(r) && (c.AlreadyIndexed? <==> svc.CheckIfIndexed(c.text))
  }

  /** One more handled row, in order and not fatal, keeps the row loop's facts. */
  lemma RowsSnoc(svc: EmbeddingService, calls: seq<RowCall>, rows: seq<Row>, call: RowCall)
    requires |calls| < |rows|
    requires forall j :: 0 <= j < |calls| ==> RowMatches(svc, calls[j], rows[j])
    requires RowMatches(svc, call, rows[|calls|])
    requires NoFatal(calls) && !(call.Embedding? && Fatal(call.result))
    ensures forall j :: 0 <= j < |calls| + 1 ==> RowMatches(svc, (calls + [call])[j], rows[j])
    ensures NoFatal(calls + [call])
  {
  }

  /** The row loop of one page (the inner `for`). It only reads the store:
      each row's text is looked up, and a new text is embedded as call number
      `embedBase + n` of the run. A service error skips the row; any other
      failure stops the loop and is handed back. */
  method ProcessPage(svc: EmbeddingService, rows: seq<Row>, embed: (nat, string) -> EmbedResult,
                     embedBase: nat, buffer: seq<(string, Vec)>, total: int)
    returns (calls: seq<RowCall>, buffer': seq<(string, Vec)>, total': int, failure: Option<Error>)
    ensures buffer' == buffer + Successes(calls)
    ensures total' == total + |Successes(calls)|
    ensures FromOracle(EmbedLog(calls), embed, embedBase)
    ensures forall i :: 0 <= i < |calls| ==> (calls[i].AlreadyIndexed? <==> svc.CheckIfIndexed(calls[i].text))
    ensures failure.None? ==> RowTexts(calls) == Texts(rows) && NoFatal(calls)
    ensures failure.Some? ==> AbortedRows(calls, rows, failure.value)
  {
    calls, buffer', total', failure := [], buffer, total, None;
    var i := 0;
    while i < |rows|
      invariant 0 <= i <= |rows| && |calls| == i
      invariant forall j :: 0 <= j < i ==> RowMatches(svc, calls[j], rows[j])
      invariant NoFatal(calls)
      invariant buffer' == buffer + Successes(calls)
      invariant total' == total + |Successes(calls)|
      invariant FromOracle(EmbedLog(calls), embed, embedBase)
    {
      var combinedText := CombinedText(rows[i]);
      var call: RowCall;
      if svc.CheckIfIndexed(combinedText) {
        call := AlreadyIndexed(combinedText);
      } else {
        var result := embed(embedBase + |EmbedLog(calls)|, combinedText);
        call := Embedding(combinedText, result);
      }
      RowStep(calls, call, embed, embedBase);
      if call.Embedding? && Fatal(call.result) {
        var before := calls;
        calls := calls + [call];
        failure := Some(call.result.error);
        assert calls[..|calls| - 1] == before;
        assert RowTexts(calls) == Texts(rows[..|calls|]);
        return;
      }
      RowsSnoc(svc, calls, rows, call);
      calls := calls + [call];
      if call.Embedding? && call.result.Embedded? {
        buffer' := buffer' + [(combinedText, call.result.vector)];
        total' := total' + 1;
      }
      i := i + 1;
    }
    assert RowTexts(calls) == Texts(rows);
  }

  /** The requests one page sends to the store: nothing when it flushed
      nothing, and one `save_to_opensearch` of its batch otherwise. */
  function PageOps(index: string, hash: string -> DocId, existed: bool, page: PageTrace): seq<StoreOp>
  {
    match page.flushed
    case None => []
    case Some(batch) => SaveOps(index, hash, existed, batch)
  }

  /** The requests a run of `pages` sends to a store whose index existed iff
      `existed`: each page's, in order, the index existing before a page iff
      it did at the start or some earlier page flushed. */
  function RunOps(index: string, hash: string -> DocId, existed: bool, pages: seq<PageTrace>): seq<StoreOp>
    decreases |pages|
  {
    if pages == [] then []
    else
      var prev := pages[..|pages| - 1];
      RunOps(index, hash, existed, prev) + PageOps(index, hash, existed || AllFlushed(prev) != [], pages[|pages| - 1])
  }

  lemma RunOpsSnoc(index: string, hash: string -> DocId, existed: bool, pages: seq<PageTrace>, page: PageTrace)
    ensures RunOps(index, hash, existed, pages + [page])
         == RunOps(index, hash, existed, pages) + PageOps(index, hash, existed || AllFlushed(pages) != [], page)
  {
    assert (pages + [page])[..|pages|] == pages;
  }

  /** The actions of a request, if it is a bulk write. */
  function BulkOf(op: StoreOp): seq<seq<Action>>
  {
    if op.BulkWrite? then [op.actions] else []
  }

  /** The bulk writes among `ops`, in order. */
  function Bulks(ops: seq<StoreOp>): seq<seq<Action>>
  {
    Concat(ops, BulkOf)
  }

  function BatchOf(p: PageTrace): seq<seq<(string, Vec)>>
  {
    match p.flushed
    case Some(batch) => [batch]
    case None => []
  }

  /** The batches the pages flushed, one per flushing page, in order. */
  function FlushedBatches(pages: seq<PageTrace>): seq<seq<(string, Vec)>>
  {
    Concat(pages, BatchOf)
  }

  /** The bulk actions of each batch, in order. */
  function BatchActions(index: string, hash: string -> DocId, batches: seq<seq<(string, Vec)>>): (r: seq<seq<Action>>)
    ensures |r| == |batches|
    ensures forall i :: 0 <= i < |batches| ==> r[i] == Actions(index, hash, batches[i])
  {
    if batches == [] then []
    else BatchActions(index, hash, batches[..|batches| - 1]) + [Actions(index, hash, batches[|batches| - 1])]
  }

  lemma BatchActionsSnoc(index: string, hash: string -> DocId, batches: seq<seq<(string, Vec)>>, more: seq<seq<(string, Vec)>>)
    requires |more| <= 1
    ensures BatchActions(index, hash, batches + more)
         == BatchActions(index, hash, batches) + BatchActions(index, hash, more)
  {
    if more == [] {
      assert batches + more == batches;
    } else {
      assert (batches + more)[..|batches|] == batches;
      assert more[..0] == [];
    }
  }

  /** A page's requests hold one bulk write, of its batch, when it flushed,
      and none otherwise. */
  lemma {:induction false} PageBulks(index: string, hash: string -> DocId, existed: bool, page: PageTrace)
    ensures Bulks(PageOps(index, hash, existed, page)) == BatchActions(index, hash, BatchOf(page))
  {
    if page.flushed.Some? {
      var batch := page.flushed.value;
      var pre: seq<StoreOp> := if existed then [] else [CreateIndex(index)];
      assert Bulks(pre) == [] by {
        if !existed {
          ConcatSnoc([], CreateIndex(index), BulkOf);
          assert [] + [CreateIndex(index)] == pre;
        }
      }
      assert PageOps(index, hash, existed, page) == (pre + [BulkWrite(Actions(index, hash, batch))]) + [RefreshIndex(index)];
      ConcatSnoc(pre + [BulkWrite(Actions(index, hash, batch))], RefreshIndex(index), BulkOf);
      ConcatSnoc(pre, BulkWrite(Actions(index, hash, batch)), BulkOf);
      assert [batch][..0] == [];
    }
  }

  /** The bulk writes of a run: one per page that flushed, of that page's
      batch, in page order; no other request writes. */
  lemma {:induction false} RunBulks(index: string, hash: string -> DocId, existed: bool, pages: seq<PageTrace>)
    ensures Bulks(RunOps(index, hash, existed, pages)) == BatchActions(index, hash, FlushedBatches(pages))
    decreases |pages|
  {
    if pages != [] {
      var prev, last := pages[..|pages| - 1], pages[|pages| - 1];
      assert pages == prev + [last];
      RunBulks(index, hash, existed, prev);
      RunOpsSnoc(index, hash, existed, prev, last);
      var e := existed || AllFlushed(prev) != [];
      ConcatAppend(RunOps(index, hash, existed, prev), PageOps(index, hash, e, last), BulkOf);
      ConcatSnoc(prev, last, BatchOf);
      PageBulks(index, hash, e, last);
      BatchActionsSnoc(index, hash, FlushedBatches(prev), BatchOf(last));
    }
  }

  function NonEmptyBatch(p: PageTrace): seq<seq<(string, Vec)>>
  {
    if PageSuccesses(p) == [] then [] else [PageSuccesses(p)]
  }

  /** When every page flushed by the flush rule, the batches written are the
      pages' non-empty success lists, in order: no empty batch is written,
      and a run whose every page embedded something writes once per page. */
  lemma {:induction false} CompleteBatches(pages: seq<PageTrace>)
    requires forall k :: 0 <= k < |pages| ==> pages[k].flushed == FlushOf(Successes(pages[k].rows))
    ensures FlushedBatches(pages) == Concat(pages, NonEmptyBatch)
    ensures forall i :: 0 <= i < |FlushedBatches(pages)| ==> FlushedBatches(pages)[i] != []
    ensures (forall k :: 0 <= k < |pages| ==> PageSuccesses(pages[k]) != []) ==> |FlushedBatches(pages)| == |pages|
    decreases |pages|
  {
    if pages != [] {
      var prev, last := pages[..|pages| - 1], pages[|pages| - 1];
      assert pages == prev + [last];
      CompleteBatches(prev);
      ConcatSnoc(prev, last, BatchOf);
      ConcatSnoc(prev, last, NonEmptyBatch);
      assert BatchOf(last) == NonEmptyBatch(last);
    }
  }

  /** A run whose pages all followed the flush rule writes one bulk request
      per page that embedded something, holding that page's successes, and
      no empty one; when every page embedded something, one per page. */
  lemma RunSaves(index: string, hash: string -> DocId, existed: bool, pages: seq<PageTrace>)
    requires forall k :: 0 <= k < |pages| ==> pages[k].flushed == FlushOf(Successes(pages[k].rows))
    ensures Bulks(RunOps(index, hash, existed, pages)) == BatchActions(index, hash, Concat(pages, NonEmptyBatch))
    ensures forall i :: 0 <= i < |Bulks(RunOps(index, hash, existed, pages))| ==>
              Bulks(RunOps(index, hash, existed, pages))[i] != []
    ensures (forall k :: 0 <= k < |pages| ==> PageSuccesses(pages[k]) != []) ==>
              |Bulks(RunOps(index, hash, existed, pages))| == |pages|
  {
    RunBulks(index, hash, existed, pages);
    CompleteBatches(pages);
  }

  /** One pass of the outer loop's body: fetch the page at `(limit, offset)`,
      run the row loop over it, and flush its successes when there are any.
      `es_documents` is empty whenever a page starts (it is emptied after each
      flush and only a flush can follow a page), so here it is local to the page. */
  method IngestPage(svc: EmbeddingService, pager: (int, int) -> seq<Row>, limit: int, offset: int,
                    embed: (nat, string) -> EmbedResult, embedBase: nat, total: int)
    returns (page: PageTrace, total': int, failure: Option<Error>)
    requires svc.Valid()
    modifies svc`indexExists, svc`docs, svc`ops
    ensures svc.Valid()
    ensures PageFetched(page, limit, offset, embed, embedBase, svc.hash, old(svc.docs).Keys)
    ensures total' == total + |Successes(page.rows)|
    ensures failure.None? ==> CompletePage(page, pager(limit, offset))
    ensures failure.Some? ==> AbortedRows(page.rows, pager(limit, offset), failure.value) && page.flushed.None?
    ensures svc.docs == ApplyBulk(old(svc.docs), Actions(svc.indexName, svc.hash, PageFlushed(page)))
    ensures svc.indexExists == (old(svc.indexExists) || PageFlushed(page) != [])
    ensures svc.ops == old(svc.ops) + PageOps(svc.indexName, svc.hash, old(svc.indexExists), page)
  {
    var data := pager(limit, offset);
    var rowCalls, buffer;
    rowCalls, buffer, total', failure := ProcessPage(svc, data, embed, embedBase, [], total);
    assert buffer == Successes(rowCalls);
    var flushed: Option<seq<(string, Vec)>> := None;
    if failure.None? && buffer != [] {
      svc.SaveToOpenSearch(buffer);
      flushed := Some(buffer);
      buffer := [];
    }
    page := PageTrace(limit, offset, rowCalls, flushed);
  }

  /** The pure facts the outer loop keeps, carried over one more page. */
  lemma TraceStep(pages: seq<PageTrace>, page: PageTrace, target: int, limit: int, start: int,
                  embed: (nat, string) -> EmbedResult, hash: string -> DocId, initial: set<DocId>)
    requires OffsetsFollow(pages, limit, start) && page.limit == limit && page.offset == start + |pages| * limit
    requires FetchedWhileShort(pages, target) && |AllSuccesses(pages)| < target
    requires FromOracle(AllEmbeds(pages), embed, 0) && FromOracle(EmbedLog(page.rows), embed, |AllEmbeds(pages)|)
    requires DedupAgainst(pages, hash, initial)
    requires forall i :: 0 <= i < |page.rows| ==>
               (page.rows[i].AlreadyIndexed? <==> DocumentId(hash, page.rows[i].text) in KnownIds(initial, hash, pages))
    ensures OffsetsFollow(pages + [page], limit, start)
    ensures FetchedWhileShort(pages + [page], target)
    ensures FromOracle(AllEmbeds(pages + [page]), embed, 0)
    ensures DedupAgainst(pages + [page], hash, initial)
    ensures AllSuccesses(pages + [page]) == AllSuccesses(pages) + Successes(page.rows)
    ensures AllFlushed(pages + [page]) == AllFlushed(pages) + PageFlushed(page)
    ensures KnownIds(initial, hash, pages + [page])
         == KnownIds(initial, hash, pages) + set d | d in PageFlushed(page) :: DocumentId(hash, d.0)
  {
    ConcatSnoc(pages, page, PageFlushed);
    ConcatSnoc(pages, page, PageSuccesses);
    ConcatSnoc(pages, page, PageEmbeds);
    FromOracleAppend(AllEmbeds(pages), EmbedLog(page.rows), embed, 0);
    PrefixFactsSnoc(pages, page, target, hash, initial);
    KnownIdsSnoc(initial, hash, pages, page);
  }

  lemma NextOffset(start: int, n: nat, limit: int)
    ensures start + n * limit + limit == start + (n + 1) * limit
  {
  }

  /** The store after one more page is the store after one bulk write of
      everything flushed so far. */
  lemma StoreStep(docs0: map<DocId, Doc>, docs1: map<DocId, Doc>, docs2: map<DocId, Doc>,
                  index: string, hash: string -> DocId, flushed: seq<(string, Vec)>, batch: seq<(string, Vec)>)
    requires docs1 == ApplyBulk(docs0, Actions(index, hash, flushed))
    requires docs2 == ApplyBulk(docs1, Actions(index, hash, batch))
    ensures docs2 == ApplyBulk(docs0, Actions(index, hash, flushed + batch))
  {
    BulkAppend(docs0, Actions(index, hash, flushed), Actions(index, hash, batch));
    ActionsAppend(index, hash, flushed, batch);
  }

  /** The store after `pages`, from documents `docs0`, index flag `exists0`
      and request log `ops0`: every flush applied, the index there iff it was
      or something was flushed, and the pages' requests logged. */
  ghost predicate StoreState(docs: map<DocId, Doc>, indexExists: bool, ops: seq<StoreOp>,
                             index: string, hash: string -> DocId,
                             docs0: map<DocId, Doc>, exists0: bool, ops0: seq<StoreOp>, pages: seq<PageTrace>)
  {
    && docs == ApplyBulk(docs0, Actions(index, hash, AllFlushed(pages)))
    && indexExists == (exists0 || AllFlushed(pages) != [])
    && ops == ops0 + RunOps(index, hash, exists0, pages)
  }

  /** One more page's flush, as `IngestPage` states it, extends the store's state. */
  lemma {:induction false} StoreAfterPage(docs1: map<DocId, Doc>, exists1: bool, ops1: seq<StoreOp>,
                       docs2: map<DocId, Doc>, exists2: bool, ops2: seq<StoreOp>,
                       index: string, hash: string -> DocId,
                       docs0: map<DocId, Doc>, exists0: bool, ops0: seq<StoreOp>, pages: seq<PageTrace>, page: PageTrace)
    requires StoreState(docs1, exists1, ops1, index, hash, docs0, exists0, ops0, pages)
    requires docs2 == ApplyBulk(docs1, Actions(index, hash, PageFlushed(page)))
    requires exists2 == (exists1 || PageFlushed(page) != [])
    requires ops2 == ops1 + PageOps(index, hash, exists1, page)
    ensures StoreState(docs2, exists2, ops2, index, hash, docs0, exists0, ops0, pages + [page])
  {
    ConcatSnoc(pages, page, PageFlushed);
    StoreStep(docs0, docs1, docs2, index, hash, AllFlushed(pages), PageFlushed(page));
    OpsAfterPage(index, hash, exists0, ops0, ops1, ops2, pages, page);
  }

  lemma {:induction false} OpsAfterPage(index: string, hash: string -> DocId, exists0: bool,
                                        ops0: seq<StoreOp>, ops1: seq<StoreOp>, ops2: seq<StoreOp>,
                                        pages: seq<PageTrace>, page: PageTrace)
    requires ops1 == ops0 + RunOps(index, hash, exists0, pages)
    requires ops2 == ops1 + PageOps(index, hash, exists0 || AllFlushed(pages) != [], page)
    ensures ops2 == ops0 + RunOps(index, hash, exists0, pages + [page])
  {
    RunOpsSnoc(index, hash, exists0, pages, page);
    var r, q := RunOps(index, hash, exists0, pages), PageOps(index, hash, exists0 || AllFlushed(pages) != [], page);
    assert (ops0 + r) + q == ops0 + (r + q);
  }

  /** The keys of the store after the run's flushes: the ids it started
      with and the ids of everything flushed. */
  lemma StoreKeys(docs0: map<DocId, Doc>, index: string, hash: string -> DocId, pages: seq<PageTrace>)
    ensures ApplyBulk(docs0, Actions(index, hash, AllFlushed(pages))).Keys == KnownIds(docs0.Keys, hash, pages)
  {
    BulkKeys(docs0, Actions(index, hash, AllFlushed(pages)));
    BatchIds(index, hash, AllFlushed(pages));
  }

  /** What the outer loop keeps about the pages handled so far, all of them complete. */
  ghost predicate RunFacts(pages: seq<PageTrace>, pager: (int, int) -> seq<Row>, target: int, limit: int,
                           start: int, embed: (nat, string) -> EmbedResult, hash: string -> DocId,
                           initial: set<DocId>)
  {
    && OffsetsFollow(pages, limit, start)
    && PagesComplete(pages, pager)
    && FetchedWhileShort(pages, target)
    && FromOracle(AllEmbeds(pages), embed, 0)
    && DedupAgainst(pages, hash, initial)
    && AllFlushed(pages) == AllSuccesses(pages)
  }

  /** A page fetched at `(limit, offset)` whose embedding calls are calls
      `embedBase`, `embedBase + 1`, ... of the run, and whose rows were
      skipped exactly when their ids were among `known`. */
  ghost predicate PageFetched(page: PageTrace, limit: int, offset: int, embed: (nat, string) -> EmbedResult,
                              embedBase: nat, hash: string -> DocId, known: set<DocId>)
  {
    && page.limit == limit && page.offset == offset
    && FromOracle(EmbedLog(page.rows), embed, embedBase)
    && forall i :: 0 <= i < |page.rows| ==>
         (page.rows[i].AlreadyIndexed? <==> DocumentId(hash, page.rows[i].text) in known)
  }

  /** What is known of a page the outer loop has just handled at the next offset. */
  ghost predicate NextPage(pages: seq<PageTrace>, page: PageTrace, limit: int, start: int,
                           embed: (nat, string) -> EmbedResult, hash: string -> DocId, initial: set<DocId>)
  {
    PageFetched(page, limit, start + |pages| * limit, embed, |AllEmbeds(pages)|, hash, KnownIds(initial, hash, pages))
  }

  /** A complete page extends the loop's facts. */
  lemma CompleteStep(pages: seq<PageTrace>, page: PageTrace, pager: (int, int) -> seq<Row>, target: int,
                     limit: int, start: int, embed: (nat, string) -> EmbedResult, hash: string -> DocId,
                     initial: set<DocId>)
    requires RunFacts(pages, pager, target, limit, start, embed, hash, initial) && |AllSuccesses(pages)| < target
    requires NextPage(pages, page, limit, start, embed, hash, initial)
    requires CompletePage(page, pager(limit, page.offset))
    ensures RunFacts(pages + [page], pager, target, limit, start, embed, hash, initial)
    ensures AllSuccesses(pages + [page]) == AllSuccesses(pages) + Successes(page.rows)
    ensures PagesAtMost(pager, limit) ==> |Successes(page.rows)| <= limit
  {
    TraceStep(pages, page, target, limit, start, embed, hash, initial);
    var next := pages + [page];
    forall k | 0 <= k < |next|
      ensures CompletePage(next[k], pager(next[k].limit, next[k].offset))
    {
      if k < |pages| {
        assert next[k] == pages[k];
      }
    }
    assert PageFlushed(page) == PageSuccesses(page);
    SuccessesAtMost(page.rows);
    assert |page.rows| == |pager(limit, page.offset)| by {
      assert |RowTexts(page.rows)| == |Texts(pager(limit, page.offset))|;
    }
  }

  /** A run ended by an exception escaping from the row loop of its last
      page: the pages before it are complete, and the last one is cut short
      and not flushed. */
  ghost predicate AbortedRun(pages: seq<PageTrace>, pager: (int, int) -> seq<Row>, target: int, limit: int,
                             start: int, embed: (nat, string) -> EmbedResult, hash: string -> DocId,
                             initial: set<DocId>, e: Error)
  {
    && |pages| > 0
    && var prev, last := pages[..|pages| - 1], pages[|pages| - 1];
       && RunFacts(prev, pager, target, limit, start, embed, hash, initial)
       && |AllSuccesses(prev)| < target
       && NextPage(prev, last, limit, start, embed, hash, initial)
       && AbortedRows(last.rows, pager(limit, last.offset), e)
       && last.flushed.None?
  }

  lemma AbortedRunIntro(pages: seq<PageTrace>, page: PageTrace, pager: (int, int) -> seq<Row>, target: int,
                        limit: int, start: int, embed: (nat, string) -> EmbedResult, hash: string -> DocId,
                        initial: set<DocId>, e: Error)
    requires RunFacts(pages, pager, target, limit, start, embed, hash, initial) && |AllSuccesses(pages)| < target
    requires NextPage(pages, page, limit, start, embed, hash, initial)
    requires AbortedRows(page.rows, pager(limit, page.offset), e) && page.flushed.None?
    ensures AbortedRun(pages + [page], pager, target, limit, start, embed, hash, initial, e)
  {
    assert (pages + [page])[..|pages|] == pages;
  }

  /** What an aborted run's trace says. */
  lemma AbortConclusions(pages: seq<PageTrace>, pager: (int, int) -> seq<Row>, target: int, limit: int,
                         start: int, embed: (nat, string) -> EmbedResult, hash: string -> DocId,
                         initial: set<DocId>, e: Error)
    requires AbortedRun(pages, pager, target, limit, start, embed, hash, initial, e)
    ensures OffsetsFollow(pages, limit, start)
    ensures FetchedWhileShort(pages, target)
    ensures FromOracle(AllEmbeds(pages), embed, 0)
    ensures DedupAgainst(pages, hash, initial)
    ensures PagesComplete(pages[..|pages| - 1], pager)
    ensures AllFlushed(pages) == AllSuccesses(pages[..|pages| - 1])
    ensures var last := pages[|pages| - 1];
            AbortedRows(last.rows, pager(last.limit, last.offset), e) && last.flushed.None?
  {
    var prev, last := pages[..|pages| - 1], pages[|pages| - 1];
    assert pages == prev + [last];
    TraceStep(prev, last, target, limit, start, embed, hash, initial);
    assert AllFlushed(prev) + [] == AllFlushed(prev);
  }

  /** Everything page `k` flushed is among what the pages before page `m` flushed. */
  lemma FlushedBefore(pages: seq<PageTrace>, k: nat, m: nat)
    requires k < m <= |pages|
    ensures forall d :: d in PageFlushed(pages[k]) ==> d in AllFlushed(pages[..m])
  {
    assert pages[..m] == pages[..k] + ([pages[k]] + pages[k + 1..m]);
    ConcatAppend(pages[..k], [pages[k]] + pages[k + 1..m], PageFlushed);
    ConcatAppend([pages[k]], pages[k + 1..m], PageFlushed);
    assert Concat([pages[k]], PageFlushed) == PageFlushed(pages[k]) by {
      ConcatSnoc([], pages[k], PageFlushed);
      assert [] + [pages[k]] == [pages[k]];
    }
  }

  /** Dedup across pages: a row whose text an earlier page flushed is skipped,
      so it is not embedded, counted or saved a second time. */
  lemma FlushedTextsAreSkipped(pages: seq<PageTrace>, hash: string -> DocId, initial: set<DocId>,
                               k: nat, m: nat, j: nat, v: Vec)
    requires DedupAgainst(pages, hash, initial)
    requires k < m < |pages| && j < |pages[m].rows|
    requires (pages[m].rows[j].text, v) in PageFlushed(pages[k])
    ensures pages[m].rows[j].AlreadyIndexed?
  {
    FlushedBefore(pages, k, m);
    var d := (pages[m].rows[j].text, v);
    assert d in AllFlushed(pages[..m]);
    assert DocumentId(hash, d.0) in KnownIds(initial, hash, pages[..m]);
  }

  /** One iteration of the outer `while` loop, on a run whose store started
      as `docs0`. */
  method NextStep(svc: EmbeddingService, pager: (int, int) -> seq<Row>, embed: (nat, string) -> EmbedResult,
                  target: int, limit: int, start: int, ghost docs0: map<DocId, Doc>, ghost exists0: bool,
                  ghost ops0: seq<StoreOp>, pages: seq<PageTrace>, offset: int, total: int)
    returns (pages': seq<PageTrace>, total': int, failure: Option<Error>)
    requires svc.Valid()
    requires RunFacts(pages, pager, target, limit, start, embed, svc.hash, docs0.Keys)
    requires offset == start + |pages| * limit && total == |AllSuccesses(pages)| && total < target
    requires StoreState(svc.docs, svc.indexExists, svc.ops, svc.indexName, svc.hash, docs0, exists0, ops0, pages)
    modifies svc`indexExists, svc`docs, svc`ops
    ensures svc.Valid()
    ensures |pages'| == |pages| + 1
    ensures failure.None? ==>
              && RunFacts(pages', pager, target, limit, start, embed, svc.hash, docs0.Keys)
              && total' == |AllSuccesses(pages')|
              && (PagesAtMost(pager, limit) ==> total' < target + limit)
              && offset + limit == start + |pages'| * limit
    ensures failure.Some? ==> AbortedRun(pages', pager, target, limit, start, embed, svc.hash, docs0.Keys, failure.value)
    ensures StoreState(svc.docs, svc.indexExists, svc.ops, svc.indexName, svc.hash, docs0, exists0, ops0, pages')
  {
    ghost var initial := docs0.Keys;
    ghost var docsBefore, existsBefore, opsBefore := svc.docs, svc.indexExists, svc.ops;
    StoreKeys(docs0, svc.indexName, svc.hash, pages);
    var page;
    page, total', failure := IngestPage(svc, pager, limit, offset, embed, |AllEmbeds(pages)|, total);
    assert NextPage(pages, page, limit, start, embed, svc.hash, initial);
    StoreAfterPage(docsBefore, existsBefore, opsBefore, svc.docs, svc.indexExists, svc.ops,
                   svc.indexName, svc.hash, docs0, exists0, ops0, pages, page);
    pages' := pages + [page];
    if failure.Some? {
      AbortedRunIntro(pages, page, pager, target, limit, start, embed, svc.hash, initial, failure.value);
    } else {
      CompleteStep(pages, page, pager, target, limit, start, embed, svc.hash, initial);
      NextOffset(start, |pages|, limit);
    }
  }

  /** The outer `while` loop, from offset `start` with page size `limit`,
      for at most `fuel` pages. */
  method RunPages(svc: EmbeddingService, pager: (int, int) -> seq<Row>, embed: (nat, string) -> EmbedResult,
                  target: int, limit: int, start: int, fuel: nat)
    returns (pages: seq<PageTrace>, total: int, failure: Option<Error>)
    requires svc.Valid()
    modifies svc`indexExists, svc`docs, svc`ops
    ensures svc.Valid()
    ensures |pages| <= fuel
    ensures target <= 0 ==> pages == [] && failure.None? && total == 0
    ensures failure.None? ==>
              && RunFacts(pages, pager, target, limit, start, embed, svc.hash, old(svc.docs).Keys)
              && total == |AllSuccesses(pages)|
              && (total < target ==> |pages| == fuel)
              && (PagesAtMost(pager, limit) && pages != [] ==> total < target + limit)
    ensures failure.Some? ==> AbortedRun(pages, pager, target, limit, start, embed, svc.hash, old(svc.docs).Keys, failure.value)
    ensures svc.docs == ApplyBulk(old(svc.docs), Actions(svc.indexName, svc.hash, AllFlushed(pages)))
    ensures svc.docs.Keys == KnownIds(old(svc.docs).Keys, svc.hash, pages)
    ensures svc.indexExists == (old(svc.indexExists) || AllFlushed(pages) != [])
    ensures svc.ops == old(svc.ops) + RunOps(svc.indexName, svc.hash, old(svc.indexExists), pages)
  {
    var offset := start;
    total := 0;
    pages := [];
    failure := None;
    while total < target && |pages| < fuel
      invariant |pages| <= fuel && failure.None?
      invariant svc.Valid()
      invariant offset == start + |pages| * limit
      invariant RunFacts(pages, pager, target, limit, start, embed, svc.hash, old(svc.docs).Keys)
      invariant pages != [] ==> target > 0
      invariant total == |AllSuccesses(pages)|
      invariant StoreState(svc.docs, svc.indexExists, svc.ops, svc.indexName, svc.hash,
                           old(svc.docs), old(svc.indexExists), old(svc.ops), pages)
      invariant PagesAtMost(pager, limit) && pages != [] ==> total < target + limit
      decreases fuel - |pages|
    {
      pages, total, failure := NextStep(svc, pager, embed, target, limit, start, old(svc.docs), old(svc.indexExists),
                                        old(svc.ops), pages, offset, total);
      if failure.Some? {
        StoreKeys(old(svc.docs), svc.indexName, svc.hash, pages);
        return;
      }
      offset := offset + limit;
    }
    StoreKeys(old(svc.docs), svc.indexName, svc.hash, pages);
  }

  /** `IngestionHandler.handle` of the paging engine. The source's loop runs
      while fewer than `number_of_records` documents are indexed and need not
      end (an empty source, a zero batch size); `fuel` bounds the number of
      pages the model fetches, and `OutOfFuel` reports a run cut off there. */
  method Handle(event: IngestEvent, pager: (int, int) -> seq<Row>, embed: (nat, string) -> EmbedResult,
                svc: EmbeddingService, fuel: nat)
    returns (outcome: Outcome, pages: seq<PageTrace>)
    requires svc.Valid()
    modifies svc`indexExists, svc`docs, svc`ops
    ensures svc.Valid()
    ensures NumberOfRecords(event) <= 0 ==> pages == [] && outcome == Completed(IngestResponse(200, 0))
    ensures |pages| <= fuel
    ensures OffsetsFollow(pages, BatchSize(event), RecordsOffset(event))
    ensures FetchedWhileShort(pages, NumberOfRecords(event))
    ensures FromOracle(AllEmbeds(pages), embed, 0)
    ensures DedupAgainst(pages, svc.hash, old(svc.docs).Keys)
    ensures !outcome.Failed? ==> PagesComplete(pages, pager) && AllFlushed(pages) == AllSuccesses(pages)
    ensures outcome.Failed? ==>
              && |pages| > 0
              && PagesComplete(pages[..|pages| - 1], pager)
              && AllFlushed(pages) == AllSuccesses(pages[..|pages| - 1])
              && var last := pages[|pages| - 1];
                 AbortedRows(last.rows, pager(last.limit, last.offset), outcome.error) && last.flushed.None?
    ensures outcome.Completed? ==>
              && outcome.response == IngestResponse(200, |AllSuccesses(pages)|)
              && |AllSuccesses(pages)| >= NumberOfRecords(event)
    ensures outcome.Completed? && PagesAtMost(pager, BatchSize(event)) && NumberOfRecords(event) > 0 ==>
              |AllSuccesses(pages)| < NumberOfRecords(event) + BatchSize(event)
    ensures outcome.OutOfFuel? ==> |pages| == fuel && |AllSuccesses(pages)| < NumberOfRecords(event)
    ensures svc.docs == ApplyBulk(old(svc.docs), Actions(svc.indexName, svc.hash, AllFlushed(pages)))
    ensures svc.docs.Keys == KnownIds(old(svc.docs).Keys, svc.hash, pages)
    ensures svc.indexExists == (old(svc.indexExists) || AllFlushed(pages) != [])
    ensures svc.ops == old(svc.ops) + RunOps(svc.indexName, svc.hash, old(svc.indexExists), pages)
  {
    var target := NumberOfRecords(event);
    var offset := RecordsOffset(event);
    var batchSize := BatchSize(event);
    var total, failure;
    pages, total, failure := RunPages(svc, pager, embed, target, batchSize, offset, fuel);
    if failure.Some? {
      AbortConclusions(pages, pager, target, batchSize, offset, embed, svc.hash, old(svc.docs).Keys, failure.value);
      outcome := Failed(failure.value);
    } else if total < target {
      outcome := OutOfFuel;
    } else {
      outcome := Completed(IngestResponse(200, total));
    }
  }
}
