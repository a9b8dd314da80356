/** The single-fetch ingestion engine of the Lambda deployment: fetch
    `number_of_records` rows once, embed every row (no dedup), skip rows
    whose embedding call fails with a service error, and save what was
    embedded in one call to the Elasticsearch writer, even when that is
    nothing. */
module LambdaIngestion {
  import opened Common
  import opened Rows
  import opened IngestTrace

  /** The event's one optional field, already parsed as an integer. */
  datatype LambdaEvent = LambdaEvent(numberOfRecords: Option<int>)

  const DefaultNumberOfRecords: int := 100

  function NumberOfRecords(event: LambdaEvent): (n: int)
    ensures event.numberOfRecords.None? ==> n == 100
    ensures event.numberOfRecords.Some? ==> n == event.numberOfRecords.value
  {
    match event.numberOfRecords
    case Some(v) => v
    case None => DefaultNumberOfRecords
  }

  /** `{"embedding": ..., "combined_text": ...}`. */
  datatype EsDocument = EsDocument(embedding: Vec, combinedText: string)

  /** The run's calls: the one fetch size, the embedding calls in order (text
      and answer), and the list handed to the writer, if the run got there. */
  datatype LambdaTrace = LambdaTrace(fetched: int, embeds: seq<(string, EmbedResult)>, saved: Option<seq<EsDocument>>)

  function DocOf(call: (string, EmbedResult)): seq<EsDocument>
  {
    if call.1.Embedded? then [EsDocument(call.1.vector, call.0)] else []
  }

  /** The documents built from a run of embedding calls: one per success, in order. */
  function Documents(calls: seq<(string, EmbedResult)>): seq<EsDocument>
  {
    Concat(calls, DocOf)
  }

  /** No document is made without a successful embedding call. */
  lemma {:induction false} DocumentsAtMost(calls: seq<(string, EmbedResult)>)
    ensures |Documents(calls)| <= |calls|
    decreases |calls|
  {
    if calls != [] {
      var init := calls[..|calls| - 1];
      assert calls == init + [calls[|calls| - 1]];
      ConcatSnoc(init, calls[|calls| - 1], DocOf);
      DocumentsAtMost(init);
    }
  }

  /** When every call succeeds, the documents are the calls themselves,
      pointwise and in order. */
  lemma {:induction false} DocumentsAllEmbedded(calls: seq<(string, EmbedResult)>)
    requires forall k :: 0 <= k < |calls| ==> calls[k].1.Embedded?
    ensures |Documents(calls)| == |calls|
    ensures forall k :: 0 <= k < |calls| ==> Documents(calls)[k] == EsDocument(calls[k].1.vector, calls[k].0)
    decreases |calls|
  {
    if calls != [] {
      var init := calls[..|calls| - 1];
      assert calls == init + [calls[|calls| - 1]];
      ConcatSnoc(init, calls[|calls| - 1], DocOf);
      DocumentsAllEmbedded(init);
    }
  }

  /** Every saved document comes from a successful call on its own text. */
  lemma {:induction false} DocumentsFromCalls(calls: seq<(string, EmbedResult)>)
    ensures forall d :: d in Documents(calls) ==>
              exists k :: 0 <= k < |calls| && calls[k] == (d.combinedText, Embedded(d.embedding))
    decreases |calls|
  {
    if calls != [] {
      var init, last := calls[..|calls| - 1], calls[|calls| - 1];
      assert calls == init + [last];
      ConcatSnoc(init, last, DocOf);
      DocumentsFromCalls(init);
      forall d | d in Documents(calls)
        ensures exists k :: 0 <= k < |calls| && calls[k] == (d.combinedText, Embedded(d.embedding))
      {
        if d in Documents(init) {
          var k :| 0 <= k < |init| && init[k] == (d.combinedText, Embedded(d.embedding));
          assert calls[k] == init[k];
        } else {
          assert calls[|calls| - 1] == (d.combinedText, Embedded(d.embedding));
        }
      }
    }
  }

  /** No answer in `calls` is an unrecoverable failure. */
  ghost predicate Recovered(calls: seq<(string, EmbedResult)>)
  {
    forall k :: 0 <= k < |calls| ==> !Fatal(calls[k].1)
  }

  /** What one more embedding call does to the log and the documents. */
  lemma CallStep(calls: seq<(string, EmbedResult)>, call: (string, EmbedResult), embed: (nat, string) -> EmbedResult)
    requires FromOracle(calls, embed, 0) && call.1 == embed(|calls|, call.0)
    ensures FromOracle(calls + [call], embed, 0)
    ensures Documents(calls + [call]) == Documents(calls) + DocOf(call)
  {
    FromOracleAppend(calls, [call], embed, 0);
    ConcatSnoc(calls, call, DocOf);
  }

  /** `IngestionHandler.handle` of the Lambda deployment. Call `k` of the
      embedding model is the one for row `k`. The result is the response, or
      the exception that escaped the row loop. */
  method Handle(event: LambdaEvent, pager: int -> seq<Row>, embed: (nat, string) -> EmbedResult)
    returns (outcome: Result<IngestResponse, Error>, trace: LambdaTrace)
    ensures trace.fetched == NumberOfRecords(event)
    ensures |trace.embeds| <= |pager(trace.fetched)|
    ensures forall k :: 0 <= k < |trace.embeds| ==> trace.embeds[k].0 == CombinedText(pager(trace.fetched)[k])
    ensures FromOracle(trace.embeds, embed, 0)
    ensures outcome.Success? ==>
              && |trace.embeds| == |pager(trace.fetched)|
              && Recovered(trace.embeds)
              && trace.saved == Some(Documents(trace.embeds))
              && outcome.value == IngestResponse(200, |Documents(trace.embeds)|)
    ensures outcome.Failure? ==>
              && |trace.embeds| > 0
              && Recovered(trace.embeds[..|trace.embeds| - 1])
              && trace.embeds[|trace.embeds| - 1].1 == Raised(outcome.error)
              && outcome.error.OtherError?
              && trace.saved.None?
  {
    var numberOfRecords := NumberOfRecords(event);
    var data := pager(numberOfRecords);
    var esDocuments: seq<EsDocument> := [];
    var embeds: seq<(string, EmbedResult)> := [];
    var i := 0;
    while i < |data|
      invariant 0 <= i <= |data| && |embeds| == i
      invariant forall k :: 0 <= k < i ==> embeds[k].0 == CombinedText(data[k])
      invariant FromOracle(embeds, embed, 0)
      invariant Recovered(embeds)
      invariant esDocuments == Documents(embeds)
    {
      var combinedText := CombinedText(data[i]);
      var result := embed(i, combinedText);
      CallStep(embeds, (combinedText, result), embed);
      var before := embeds;
      embeds := embeds + [(combinedText, result)];
      if Fatal(result) {
        assert embeds[..|embeds| - 1] == before;
        return Failure(result.error), LambdaTrace(numberOfRecords, embeds, None);
      }
      if result.Embedded? {
        esDocuments := esDocuments + [EsDocument(result.vector, combinedText)];
      }
      i := i + 1;
    }
    trace := LambdaTrace(numberOfRecords, embeds, Some(esDocuments));
    outcome := Success(IngestResponse(200, |esDocuments|));
  }
}
