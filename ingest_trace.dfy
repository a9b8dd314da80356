/** The call log of an ingestion run, kept as structured values: one entry
    per fetched page, holding what happened to each of its rows and what was
    flushed after it. The order of the calls the engine makes is the order
    of this structure: fetch, then per row a dedup lookup and (if the row is
    new) one embedding call, then at most one flush. */
module IngestTrace {
  import opened Common
  import opened Rows

  /** The concatenation of `pick(x)` over `xs`, in order. */
  function Concat<A, T>(xs: seq<A>, pick: A -> seq<T>): seq<T>
  {
    if xs == [] then [] else Concat(xs[..|xs| - 1], pick) + pick(xs[|xs| - 1])
  }

  lemma ConcatSnoc<A, T>(xs: seq<A>, x: A, pick: A -> seq<T>)
    ensures Concat(xs + [x], pick) == Concat(xs, pick) + pick(x)
  {
    assert (xs + [x])[..|xs|] == xs;
  }

  lemma {:induction false} ConcatAppend<A, T>(xs: seq<A>, ys: seq<A>, pick: A -> seq<T>)
    ensures Concat(xs + ys, pick) == Concat(xs, pick) + Concat(ys, pick)
    decreases |ys|
  {
    if ys == [] {
      assert xs + ys == xs;
    } else {
      var init, last := ys[..|ys| - 1], ys[|ys| - 1];
      assert (xs + ys)[..|xs + ys| - 1] == xs + init;
      assert (xs + ys)[|xs + ys| - 1] == last;
      ConcatAppend(xs, init, pick);
    }
  }

  /** What happened to one row: the dedup lookup found its text, or it did
      not and the text was sent to the embedding model with this result. */
  datatype RowCall = AlreadyIndexed(text: string) | Embedding(text: string, result: EmbedResult)

  /** An embedding failure the engine does not recover from. */
  predicate Fatal(r: EmbedResult)
  {
    r.Raised? && r.error.OtherError?
  }

  function RowTexts(calls: seq<RowCall>): (ts: seq<string>)
  {
    seq(|calls|, i requires 0 <= i < |calls| => calls[i].text)
  }

  function SuccessOf(c: RowCall): seq<(string, Vec)>
  {
    if c.Embedding? && c.result.Embedded? then [(c.text, c.result.vector)] else []
  }

  function EmbedOf(c: RowCall): seq<(string, EmbedResult)>
  {
    if c.Embedding? then [(c.text, c.result)] else []
  }

  /** The `(text, embedding)` pairs of the rows that were embedded, in row order. */
  function Successes(calls: seq<RowCall>): seq<(string, Vec)>
  {
    Concat(calls, SuccessOf)
  }

  /** The embedding calls, in the order they were made. */
  function EmbedLog(calls: seq<RowCall>): seq<(string, EmbedResult)>
  {
    Concat(calls, EmbedOf)
  }

  ghost predicate NoFatal(calls: seq<RowCall>)
  {
    forall i :: 0 <= i < |calls| && calls[i].Embedding? ==> !Fatal(calls[i].result)
  }

  /** Every answer in `log` is what the embedding model gives for that text
      as call number `base + k` of the run. */
  ghost predicate FromOracle(log: seq<(string, EmbedResult)>, embed: (nat, string) -> EmbedResult, base: nat)
  {
    forall k :: 0 <= k < |log| ==> log[k].1 == embed(base + k, log[k].0)
  }

  lemma FromOracleAppend(log: seq<(string, EmbedResult)>, more: seq<(string, EmbedResult)>,
                         embed: (nat, string) -> EmbedResult, base: nat)
    requires FromOracle(log, embed, base) && FromOracle(more, embed, base + |log|)
    ensures FromOracle(log + more, embed, base)
  {
    forall k | 0 <= k < |log + more|
      ensures (log + more)[k].1 == embed(base + k, (log + more)[k].0)
    {
      if k >= |log| {
        assert (log + more)[k] == more[k - |log|];
      }
    }
  }

  /** A page's row loop that stopped at an unrecoverable embedding failure:
      the rows up to and including the failing one were handled in order. */
  ghost predicate AbortedRows(calls: seq<RowCall>, rows: seq<Row>, e: Error)
  {
    && 0 < |calls| <= |rows|
    && RowTexts(calls) == Texts(rows[..|calls|])
    && NoFatal(calls[..|calls| - 1])
    && calls[|calls| - 1].Embedding?
    && calls[|calls| - 1].result == Raised(e)
    && e.OtherError?
  }

  lemma {:induction false} SuccessesAtMost(calls: seq<RowCall>)
    ensures |Successes(calls)| <= |calls|
    decreases |calls|
  {
    if calls != [] {
      var init := calls[..|calls| - 1];
      assert calls == init + [calls[|calls| - 1]];
      ConcatSnoc(init, calls[|calls| - 1], SuccessOf);
      SuccessesAtMost(init);
    }
  }

  /** One fetched page: the `(limit, offset)` it was fetched with, its rows'
      fates, and the batch flushed after it, if any. */
  datatype PageTrace = PageTrace(limit: int, offset: int, rows: seq<RowCall>, flushed: Option<seq<(string, Vec)>>)

  /** The flush rule: a batch is written iff it is non-empty. */
  function FlushOf(batch: seq<(string, Vec)>): Option<seq<(string, Vec)>>
  {
    if batch == [] then None else Some(batch)
  }

  /** A page whose row loop ran to the end over `rows`, followed by the flush
      of exactly that page's successes when there were any. */
  ghost predicate CompletePage(p: PageTrace, rows: seq<Row>)
  {
    && RowTexts(p.rows) == Texts(rows)
    && NoFatal(p.rows)
    && p.flushed == FlushOf(Successes(p.rows))
  }

  function PageSuccesses(p: PageTrace): seq<(string, Vec)>
  {
    Successes(p.rows)
  }

  function PageEmbeds(p: PageTrace): seq<(string, EmbedResult)>
  {
    EmbedLog(p.rows)
  }

  function PageFlushed(p: PageTrace): seq<(string, Vec)>
  {
    match p.flushed
    case Some(batch) => batch
    case None => []
  }

  /** Every success of the run, in fetch order. */
  function AllSuccesses(pages: seq<PageTrace>): seq<(string, Vec)>
  {
    Concat(pages, PageSuccesses)
  }

  /** Every embedding call of the run, in order. */
  function AllEmbeds(pages: seq<PageTrace>): seq<(string, EmbedResult)>
  {
    Concat(pages, PageEmbeds)
  }

  /** The flushed batches, concatenated in order. */
  function AllFlushed(pages: seq<PageTrace>): seq<(string, Vec)>
  {
    Concat(pages, PageFlushed)
  }

  /** When every page flushed exactly its own successes, the concatenated
      flushes are exactly the successes of the run in fetch order. */
  lemma {:induction false} FlushedAreSuccesses(pages: seq<PageTrace>)
    requires forall k :: 0 <= k < |pages| ==> pages[k].flushed == FlushOf(Successes(pages[k].rows))
    ensures AllFlushed(pages) == AllSuccesses(pages)
    decreases |pages|
  {
    if pages != [] {
      var init, last := pages[..|pages| - 1], pages[|pages| - 1];
      assert pages == init + [last];
      ConcatSnoc(init, last, PageFlushed);
      ConcatSnoc(init, last, PageSuccesses);
      FlushedAreSuccesses(init);
    }
  }

  /** The outcome an ingestion run reports. */
  datatype IngestResponse = IngestResponse(statusCode: int, results: int)

  /** How a run ends: with its response, with the exception that escaped,
      or (in this model only) by having used up its page budget. */
  datatype Outcome = Completed(response: IngestResponse) | Failed(error: Error) | OutOfFuel
}
