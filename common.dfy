/** Values shared by the ingestion and query engines: optional values, results,
    the exceptions the collaborators raise, and embedding vectors. */
module Common {

  datatype Option<+T> = None | Some(value: T)

  datatype Result<+T, +E> = Success(value: T) | Failure(error: E)

  /** An embedding vector. Its components are never computed on by the core:
      they are passed from the embedding model to the store unchanged. */
  type Vec = seq<real>

  /** An exception raised by a collaborator. `message` stands for `str(e)`.
      `ClientError` is botocore's service-error class, the only one the
      ingestion engines recover from; every other class is `OtherError`. */
  datatype Error = ClientError(message: string) | OtherError(message: string)

  /** What one call of `generate_embedding(text)` gives back. */
  datatype EmbedResult = Embedded(vector: Vec) | Raised(error: Error)

  /** One entry of a search response's hit list: `_score` and `_source`,
      either of which may be missing. Only the source's text fields are kept. */
  datatype RawHit = RawHit(score: Option<real>, source: Option<map<string, string>>)

  /** The inner `hits` object of a search response, with its `hits` list if present. */
  datatype HitsSection = HitsSection(hits: Option<seq<RawHit>>)

  /** A search response body, with its outer `hits` object if present. */
  datatype SearchBody = SearchBody(hits: Option<HitsSection>)

  /** Python's `str(KeyError(key))`: the key in single quotes. */
  function KeyErrorMessage(key: string): string
  {
    "'" + key + "'"
  }
}
