/** `QueryHandler.handle` of the OpenSearch deployment: validate the query,
    embed it, run a k-NN search with the default `k`, answer 404 when
    nothing matches, and otherwise map each hit to its score and `text`. */
module OpenSearchQuery {
  import opened Common
  import opened Embeddings
  import opened QueryCommon

  const SearchFailedPrefix: string := "Opensearch query failed: "

  /** `embed` stands for `generate_embedding`; `search` for `query_opensearch`
      called with the default `k`, giving the hit list or the exception it
      raised. */
  function Handle(event: QueryEvent, embed: string -> EmbedResult, search: Vec -> Result<seq<RawHit>, Error>)
    : (h: Handled)
    ensures h.response.statusCode in {200, 400, 404, 500}
    // 400: no query text, and no call at all
    ensures h.response.statusCode == 400 <==> QueryText(event).None?
    ensures QueryText(event).None? ==> h == Handled(Response(400, ErrorBody(NoQueryMessage)), [])
    // the query text is embedded first, unchanged
    ensures QueryText(event).Some? ==> |h.calls| > 0 && h.calls[0] == EmbedCall(QueryText(event).value)
    // a failed embedding: 500, and no search
    ensures QueryText(event).Some? && embed(QueryText(event).value).Raised? ==>
              h == Handled(Response(500, ErrorBody(EmbeddingFailedPrefix + embed(QueryText(event).value).error.message)),
                           [EmbedCall(QueryText(event).value)])
    // the embedding is what is searched for, with the default k
    ensures QueryVector(event, embed).Some? ==>
              h.calls == [EmbedCall(QueryText(event).value), OpenSearchCall(QueryVector(event, embed).value, DefaultK)]
    // 404: the search found nothing
    ensures h.response.statusCode == 404 <==>
              QueryVector(event, embed).Some? && search(QueryVector(event, embed).value) == Success([])
    ensures h.response.statusCode == 404 ==> h.response.body == ErrorBody(NoMatchesMessage)
    // 200: some hits, all of which could be mapped; the results are the mapped hits
    ensures h.response.statusCode == 200 <==>
              && QueryVector(event, embed).Some?
              && var found := search(QueryVector(event, embed).value);
                 found.Success? && found.value != [] && MapHits(found.value, "text").Success?
    ensures h.response.statusCode == 200 ==>
              h.response.body == ResultsBody(MapHits(search(QueryVector(event, embed).value).value, "text").value)
    // 500 after the search: the search's exception or the mapping's
    ensures QueryVector(event, embed).Some? && search(QueryVector(event, embed).value).Failure? ==>
              h.response == Response(500, ErrorBody(SearchFailedPrefix + search(QueryVector(event, embed).value).error.message))
    ensures QueryVector(event, embed).Some? && search(QueryVector(event, embed).value).Success?
            && MapHits(search(QueryVector(event, embed).value).value, "text").Failure? ==>
              h.response
              == Response(500, ErrorBody(SearchFailedPrefix + MapHits(search(QueryVector(event, embed).value).value, "text").error))
  {
    match QueryText(event)
    case None => Handled(Response(400, ErrorBody(NoQueryMessage)), [])
    case Some(queryText) =>
      var embedCall := EmbedCall(queryText);
      match embed(queryText)
      case Raised(e) => Handled(Response(500, ErrorBody(EmbeddingFailedPrefix + e.message)), [embedCall])
      case Embedded(embedding) =>
        var calls := [embedCall, OpenSearchCall(embedding, DefaultK)];
        match search(embedding)
        case Failure(e) => Handled(Response(500, ErrorBody(SearchFailedPrefix + e.message)), calls)
        case Success(hits) =>
          if hits == [] then Handled(Response(404, ErrorBody(NoMatchesMessage)), calls)
          else
            match MapHits(hits, "text")
            case Failure(m) => Handled(Response(500, ErrorBody(SearchFailedPrefix + m)), calls)
            case Success(results) => Handled(Response(200, ResultsBody(results)), calls)
  }
}
