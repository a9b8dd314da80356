/** `QueryHandler.handle` of the Elasticsearch deployment: like the
    OpenSearch handler up to the search, but the search gives the whole
    response, which may be empty or lack its hit list; then the answer is
    200 with no results, never 404. The hit list is built by a loop that
    reads `combined_text`. */
module ElasticQuery {
  import opened Common
  import opened Embeddings
  import opened QueryCommon
  import OpenSearchQuery

  const SearchFailedPrefix: string := "Elasticsearch query failed: "

  /** The field each result's text is read from. */
  const TextField: string := "combined_text"

  /** `results["hits"]["hits"]` when the response is truthy and has both
      levels, and no hits otherwise. */
  function ResponseHits(found: Option<SearchBody>): (hits: seq<RawHit>)
    ensures found.Some? && found.value.hits.Some? && found.value.hits.value.hits.Some? ==>
              hits == found.value.hits.value.hits.value
    ensures hits != [] ==> found == Some(SearchBody(Some(HitsSection(Some(hits)))))
  {
    match found
    case Some(SearchBody(Some(HitsSection(Some(hits))))) => hits
    case _ => []
  }

  /** The handler's answer. `search` stands for `query_elasticsearch` with the
      default `k`, giving the response (`None` for a falsy one) or the
      exception it raised. */
  function Respond(event: QueryEvent, embed: string -> EmbedResult, search: Vec -> Result<Option<SearchBody>, Error>)
    : (h: Handled)
    // never 404
    ensures h.response.statusCode in {200, 400, 500}
    ensures h.response.statusCode == 400 <==> QueryText(event).None?
    ensures QueryText(event).None? ==> h == Handled(Response(400, ErrorBody(NoQueryMessage)), [])
    ensures QueryText(event).Some? ==> |h.calls| > 0 && h.calls[0] == EmbedCall(QueryText(event).value)
    ensures QueryText(event).Some? && embed(QueryText(event).value).Raised? ==>
              h == Handled(Response(500, ErrorBody(EmbeddingFailedPrefix + embed(QueryText(event).value).error.message)),
                           [EmbedCall(QueryText(event).value)])
    // the embedding is passed unchanged as the query vector
    ensures QueryVector(event, embed).Some? ==>
              h.calls == [EmbedCall(QueryText(event).value), ElasticsearchCall(QueryVector(event, embed).value, DefaultK)]
    ensures h.response.statusCode == 200 <==>
              && QueryVector(event, embed).Some?
              && var found := search(QueryVector(event, embed).value);
                 found.Success? && MapHits(ResponseHits(found.value), TextField).Success?
    ensures h.response.statusCode == 200 ==>
              h.response.body == ResultsBody(MapHits(ResponseHits(search(QueryVector(event, embed).value).value), TextField).value)
    // a falsy response, a missing hit list or an empty one: 200 with no results
    ensures QueryVector(event, embed).Some? && search(QueryVector(event, embed).value).Success?
            && ResponseHits(search(QueryVector(event, embed).value).value) == [] ==>
              h.response == Response(200, ResultsBody([]))
    ensures QueryVector(event, embed).Some? && search(QueryVector(event, embed).value).Failure? ==>
              h.response == Response(500, ErrorBody(SearchFailedPrefix + search(QueryVector(event, embed).value).error.message))
    ensures QueryVector(event, embed).Some? && search(QueryVector(event, embed).value).Success?
            && MapHits(ResponseHits(search(QueryVector(event, embed).value).value), TextField).Failure? ==>
              h.response
              == Response(500, ErrorBody(SearchFailedPrefix
                                         + MapHits(ResponseHits(search(QueryVector(event, embed).value).value), TextField).error))
  {
    match QueryText(event)
    case None => Handled(Response(400, ErrorBody(NoQueryMessage)), [])
    case Some(queryText) =>
      match embed(queryText)
      case Raised(e) => Handled(Response(500, ErrorBody(EmbeddingFailedPrefix + e.message)), [EmbedCall(queryText)])
      case Embedded(embedding) =>
        var calls := [EmbedCall(queryText), ElasticsearchCall(embedding, DefaultK)];
        match search(embedding)
        case Failure(e) => Handled(Response(500, ErrorBody(SearchFailedPrefix + e.message)), calls)
        case Success(found) =>
          match MapHits(ResponseHits(found), TextField)
          case Failure(m) => Handled(Response(500, ErrorBody(SearchFailedPrefix + m)), calls)
          case Success(results) => Handled(Response(200, ResultsBody(results)), calls)
  }

  /** The `for hit in ...: hits.append(...)` loop: each hit's `_score`, then
      its `_source`, is read; a missing key stops the loop with its `KeyError`. */
  method CollectHits(raws: seq<RawHit>) returns (r: Result<seq<Hit>, string>)
    ensures r == MapHits(raws, TextField)
  {
    var hits: seq<Hit> := [];
    var i := 0;
    while i < |raws|
      invariant 0 <= i <= |raws|
      invariant MapHits(raws[..i], TextField) == Success(hits)
    {
      var hit := raws[i];
      assert raws[..i + 1] == raws[..i] + [hit];
      MapHitsSnoc(raws[..i], hit, TextField);
      if hit.score.None? {
        MapHitsFailureSticks(raws[..i + 1], raws[i + 1..], TextField);
        assert raws[..i + 1] + raws[i + 1..] == raws;
        return Failure(KeyErrorMessage("_score"));
      }
      if hit.source.None? {
        MapHitsFailureSticks(raws[..i + 1], raws[i + 1..], TextField);
        assert raws[..i + 1] + raws[i + 1..] == raws;
        return Failure(KeyErrorMessage("_source"));
      }
      var source := hit.source.value;
      var text := if TextField in source then source[TextField] else "";
      hits := hits + [Hit(hit.score.value, text)];
      i := i + 1;
    }
    assert raws[..i] == raws;
    r := Success(hits);
  }

  /** `QueryHandler.handle`, with its early returns. */
  method Handle(event: QueryEvent, embed: string -> EmbedResult, search: Vec -> Result<Option<SearchBody>, Error>)
    returns (h: Handled)
    ensures h == Respond(event, embed, search)
  {
    var params := match event.queryStringParameters
      case Some(p) => p
      case None => map[];
    if "query" !in params || params["query"] == "" {
      return Handled(Response(400, ErrorBody(NoQueryMessage)), []);
    }
    var queryText := params["query"];
    var embedded := embed(queryText);
    if embedded.Raised? {
      return Handled(Response(500, ErrorBody(EmbeddingFailedPrefix + embedded.error.message)), [EmbedCall(queryText)]);
    }
    var embedding := embedded.vector;
    var calls := [EmbedCall(queryText), ElasticsearchCall(embedding, DefaultK)];
    var results := search(embedding);
    if results.Failure? {
      return Handled(Response(500, ErrorBody(SearchFailedPrefix + results.error.message)), calls);
    }
    var hits := CollectHits(ResponseHits(results.value));
    match hits
    case Failure(m) =>
      h := Handled(Response(500, ErrorBody(SearchFailedPrefix + m)), calls);
    case Success(mapped) =>
      h := Handled(Response(200, ResultsBody(mapped)), calls);
  }

  /** The Elasticsearch response that carries an OpenSearch hit list. */
  function AsResponse(found: Result<seq<RawHit>, Error>): Result<Option<SearchBody>, Error>
  {
    match found
    case Success(hits) => Success(Some(SearchBody(Some(HitsSection(Some(hits))))))
    case Failure(e) => Failure(e)
  }

  /** Given searches that find the same hits, the two handlers differ only
      on an empty hit list, where one answers 404 and the other 200 with no
      results; otherwise they agree on the status and, on success, on the
      number and scores of the results (the text field and the search
      error's prefix differ). */
  lemma CompareWithOpenSearch(event: QueryEvent, embed: string -> EmbedResult,
                              osSearch: Vec -> Result<seq<RawHit>, Error>,
                              esSearch: Vec -> Result<Option<SearchBody>, Error>)
    requires forall v :: esSearch(v) == AsResponse(osSearch(v))
    ensures var os := OpenSearchQuery.Handle(event, embed, osSearch).response;
            var es := Respond(event, embed, esSearch).response;
            && (os.statusCode == 404 <==> es == Response(200, ResultsBody([])))
            && (os.statusCode != 404 ==> os.statusCode == es.statusCode)
            && (os.statusCode == 400 ==> os == es)
            && (os.statusCode == 200 ==>
                  && |os.body.results| == |es.body.results|
                  && forall i :: 0 <= i < |os.body.results| ==> os.body.results[i].score == es.body.results[i].score)
  {
    if QueryVector(event, embed).Some? {
      var v := QueryVector(event, embed).value;
      if osSearch(v).Success? {
        var hits := osSearch(v).value;
        assert ResponseHits(esSearch(v).value) == hits;
        MapHitsFieldIndependent(hits, "text", TextField);
        if hits != [] && MapHits(hits, TextField).Success? {
          assert MapHits(hits, TextField).value != [];
        }
      }
    }
  }
}
