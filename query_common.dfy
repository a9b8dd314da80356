/** What the three query handlers share: the request's query text, the
    response shape with its fixed messages, the mapping of raw search hits
    to results, and the call log of a request. */
module QueryCommon {
  import opened Common

  /** The request: its `queryStringParameters`, absent or `None` as `None`. */
  datatype QueryEvent = QueryEvent(queryStringParameters: Option<map<string, string>>)

  /** The query text, or `None` when there is none to search for: no
      parameters, no `query` parameter, or an empty one. */
  function QueryText(event: QueryEvent): (q: Option<string>)
    ensures q.Some? <==>
              && event.queryStringParameters.Some?
              && "query" in event.queryStringParameters.value
              && event.queryStringParameters.value["query"] != ""
    ensures q.Some? ==> q.value == event.queryStringParameters.value["query"] && q.value != ""
  {
    var params := match event.queryStringParameters
      case Some(p) => p
      case None => map[];
    if "query" in params && params["query"] != "" then Some(params["query"]) else None
  }

  /** The query's embedding, when there is a query and embedding it succeeded. */
  function QueryVector(event: QueryEvent, embed: string -> EmbedResult): Option<Vec>
  {
    match QueryText(event)
    case None => None
    case Some(t) => if embed(t).Embedded? then Some(embed(t).vector) else None
  }

  /** One result: the hit's score and the chosen text field of its source. */
  datatype Hit = Hit(score: real, text: string)

  datatype Body = ErrorBody(error: string) | ResultsBody(results: seq<Hit>)

  datatype Response = Response(statusCode: int, body: Body)

  const NoQueryMessage: string := "No query text provided in event."
  const EmbeddingFailedPrefix: string := "Embedding generation failed: "
  const NoMatchesMessage: string := "No matches found"

  /** The collaborator calls a request makes, in order. */
  datatype QueryCall =
    | EmbedCall(text: string)
    | OpenSearchCall(vector: Vec, k: nat)
    | ElasticsearchCall(vector: Vec, k: nat)

  /** A handled request: the response and the calls made on the way. */
  datatype Handled = Handled(response: Response, calls: seq<QueryCall>)

  /** `{"score": hit["_score"], "text": hit["_source"].get(field, "")}`: the
      score is read first, so a hit missing both keys fails on `_score`. */
  function MapHit(raw: RawHit, field: string): (r: Result<Hit, string>)
    ensures r.Success? <==> WellFormed(raw)
    ensures r.Success? ==> r.value.score == raw.score.value
    ensures r.Success? ==> r.value.text == if field in raw.source.value then raw.source.value[field] else ""
    ensures raw.score.None? ==> r == Failure(KeyErrorMessage("_score"))
    ensures raw.score.Some? && raw.source.None? ==> r == Failure(KeyErrorMessage("_source"))
  {
    match (raw.score, raw.source)
    case (None, _) => Failure(KeyErrorMessage("_score"))
    case (Some(_), None) => Failure(KeyErrorMessage("_source"))
    case (Some(s), Some(src)) => Success(Hit(s, if field in src then src[field] else ""))
  }

  /** Whether a hit has both keys the mapping reads. */
  predicate WellFormed(raw: RawHit)
  {
    raw.score.Some? && raw.source.Some?
  }

  /** The hits mapped in order; the first hit that cannot be mapped stops
      the mapping with its error. A result carries its hit's score and the
      field's text, `""` when the source lacks the field. */
  function MapHits(raws: seq<RawHit>, field: string): (r: Result<seq<Hit>, string>)
    ensures r.Success? <==> forall i :: 0 <= i < |raws| ==> WellFormed(raws[i])
    ensures r.Success? ==> |r.value| == |raws|
    ensures r.Success? ==> forall i :: 0 <= i < |raws| ==>
              && r.value[i].score == raws[i].score.value
              && r.value[i].text == (if field in raws[i].source.value then raws[i].source.value[field] else "")
    decreases |raws|
  {
    if raws == [] then Success([])
    else
      var init, last := raws[..|raws| - 1], raws[|raws| - 1];
      assert forall i :: 0 <= i < |init| ==> init[i] == raws[i];
      match MapHits(init, field)
      case Failure(e) => Failure(e)
      case Success(hits) =>
        match MapHit(last, field)
        case Failure(e) => Failure(e)
        case Success(h) => Success(hits + [h])
  }

  /** A failed mapping reports the error of the FIRST hit that cannot be mapped. */
  lemma {:induction false} MapHitsFirstFailure(raws: seq<RawHit>, field: string)
    requires MapHits(raws, field).Failure?
    ensures exists i :: && 0 <= i < |raws| && !WellFormed(raws[i])
                        && (forall j :: 0 <= j < i ==> WellFormed(raws[j]))
                        && MapHits(raws, field).error == MapHit(raws[i], field).error
    decreases |raws|
  {
    var init, last := raws[..|raws| - 1], raws[|raws| - 1];
    assert forall j :: 0 <= j < |init| ==> init[j] == raws[j];
    if MapHits(init, field).Failure? {
      MapHitsFirstFailure(init, field);
      var i :| && 0 <= i < |init| && !WellFormed(init[i])
               && (forall j :: 0 <= j < i ==> WellFormed(init[j]))
               && MapHits(init, field).error == MapHit(init[i], field).error;
      assert raws[i] == init[i];
    } else {
      assert !WellFormed(raws[|raws| - 1]);
    }
  }

  /** Mapping one more hit. */
  lemma MapHitsSnoc(xs: seq<RawHit>, x: RawHit, field: string)
    ensures MapHits(xs + [x], field)
         == match MapHits(xs, field)
            case Failure(e) => Failure(e)
            case Success(hits) =>
              match MapHit(x, field)
              case Failure(e) => Failure(e)
              case Success(h) => Success(hits + [h])
  {
    assert (xs + [x])[..|xs|] == xs;
  }

  /** Once a prefix of the hits fails to map, so do the hits, with the same error. */
  lemma {:induction false} MapHitsFailureSticks(xs: seq<RawHit>, ys: seq<RawHit>, field: string)
    requires MapHits(xs, field).Failure?
    ensures MapHits(xs + ys, field) == MapHits(xs, field)
    decreases |ys|
  {
    if ys == [] {
      assert xs + ys == xs;
    } else {
      var init := ys[..|ys| - 1];
      assert (xs + ys)[..|xs + ys| - 1] == xs + init;
      MapHitsFailureSticks(xs, init, field);
    }
  }

  /** A hit list maps successfully, and to what, whatever field is read:
      only the field's values differ. */
  lemma MapHitsFieldIndependent(raws: seq<RawHit>, f1: string, f2: string)
    ensures MapHits(raws, f1).Success? <==> MapHits(raws, f2).Success?
    ensures MapHits(raws, f1).Failure? ==> MapHits(raws, f1).error == MapHits(raws, f2).error
    ensures MapHits(raws, f1).Success? ==> |MapHits(raws, f1).value| == |MapHits(raws, f2).value|
  {
    if MapHits(raws, f1).Failure? {
      MapHitsFirstFailure(raws, f1);
      MapHitsFirstFailure(raws, f2);
      var i :| && 0 <= i < |raws| && !WellFormed(raws[i]) && (forall j :: 0 <= j < i ==> WellFormed(raws[j]))
               && MapHits(raws, f1).error == MapHit(raws[i], f1).error;
      var k :| && 0 <= k < |raws| && !WellFormed(raws[k]) && (forall j :: 0 <= j < k ==> WellFormed(raws[j]))
               && MapHits(raws, f2).error == MapHit(raws[k], f2).error;
      assert i == k;
    }
  }
}
