/** `query_lambda_handler`, the module-level entry point of the Lambda query
    deployment. Its body repeats `QueryHandler.handle` of the Elasticsearch
    deployment step for step, with the module's service in place of the
    handler's; here the service's two calls are the parameters, and the
    body is that handler's. */
module QueryApp {
  import opened Common
  import opened QueryCommon
  import ElasticQuery

  method QueryLambdaHandler(event: QueryEvent, embed: string -> EmbedResult,
                            search: Vec -> Result<Option<SearchBody>, Error>)
    returns (h: Handled)
    ensures h == ElasticQuery.Respond(event, embed, search)
    ensures h.response.statusCode != 404
  {
    h := ElasticQuery.Handle(event, embed, search);
  }
}
