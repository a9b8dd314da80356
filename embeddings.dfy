/** The OpenSearch side of the embedding service: document identity, the
    ensure-index step, the dedup lookup, the bulk save and the k-NN query.
    The store is an object whose index flag and documents the service
    updates in place; the hash and the search engine are parameters. */
module Embeddings {
  import opened Common

  /** A document id: the hex digest of the document's text. */
  type DocId = string

  /** What the store keeps under an id. */
  datatype Doc = Doc(text: string, embedding: Vec)

  /** One bulk action: `{_index, _id, embedding, text}`. */
  datatype Action = Action(index: string, id: DocId, embedding: Vec, text: string)

  /** The `knn` clause of a search body: the query vector and `k`. */
  datatype KnnQuery = KnnQuery(vector: Vec, k: nat)

  /** The requests the service sends to the store, in order. */
  datatype StoreOp =
    | CreateIndex(index: string)
    | BulkWrite(actions: seq<Action>)
    | RefreshIndex(index: string)
    | KnnSearch(index: string, query: KnnQuery)

  /** The default `k` of `query_opensearch`, which is also the default `k`
      of `query_elasticsearch` in the Lambda deployment. */
  const DefaultK: nat := 1

  /** The id of a text: its digest, and nothing else. */
  function DocumentId(hash: string -> DocId, text: string): DocId
  {
    hash(text)
  }

  /** The bulk actions for a batch of `(text, vector)` pairs. */
  function Actions(index: string, hash: string -> DocId, documents: seq<(string, Vec)>): (actions: seq<Action>)
    ensures |actions| == |documents|
    ensures forall i :: 0 <= i < |documents| ==>
              actions[i] == Action(index, DocumentId(hash, documents[i].0), documents[i].1, documents[i].0)
  {
    seq(|documents|, i requires 0 <= i < |documents| =>
      Action(index, DocumentId(hash, documents[i].0), documents[i].1, documents[i].0))
  }

  /** The store after a bulk write: each action, in order, puts its document
      under its id, replacing what was there. */
  function ApplyBulk(docs: map<DocId, Doc>, actions: seq<Action>): (r: map<DocId, Doc>)
    ensures docs.Keys <= r.Keys
    ensures forall i :: 0 <= i < |actions| ==> actions[i].id in r
    decreases |actions|
  {
    if actions == [] then docs
    else ApplyBulk(docs[actions[0].id := Doc(actions[0].text, actions[0].embedding)], actions[1..])
  }

  function ActionIds(actions: seq<Action>): set<DocId>
  {
    set a | a in actions :: a.id
  }

  /** A bulk write adds exactly the ids of its actions and removes nothing. */
  lemma {:induction false} BulkKeys(docs: map<DocId, Doc>, actions: seq<Action>)
    ensures ApplyBulk(docs, actions).Keys == docs.Keys + ActionIds(actions)
    decreases |actions|
  {
    if actions != [] {
      var a := actions[0];
      BulkKeys(docs[a.id := Doc(a.text, a.embedding)], actions[1..]);
      assert actions == [a] + actions[1..];
      assert ActionIds(actions) == {a.id} + ActionIds(actions[1..]);
    }
  }

  /** A bulk write leaves every document whose id no action names as it was. */
  lemma {:induction false} BulkUntouched(docs: map<DocId, Doc>, actions: seq<Action>, id: DocId)
    requires id in docs && id !in ActionIds(actions)
    ensures id in ApplyBulk(docs, actions) && ApplyBulk(docs, actions)[id] == docs[id]
    decreases |actions|
  {
    if actions != [] {
      var a := actions[0];
      assert a in actions;
      assert ActionIds(actions[1..]) <= ActionIds(actions);
      BulkUntouched(docs[a.id := Doc(a.text, a.embedding)], actions[1..], id);
    }
  }

  /** Under an id the store ends up with the document of the LAST action for that id. */
  lemma {:induction false} BulkLastWins(docs: map<DocId, Doc>, actions: seq<Action>, i: nat)
    requires i < |actions|
    requires forall j :: i < j < |actions| ==> actions[j].id != actions[i].id
    ensures actions[i].id in ApplyBulk(docs, actions)
    ensures ApplyBulk(docs, actions)[actions[i].id] == Doc(actions[i].text, actions[i].embedding)
    decreases |actions|
  {
    var a := actions[0];
    var next := docs[a.id := Doc(a.text, a.embedding)];
    if i == 0 {
      var id := a.id;
      assert id !in ActionIds(actions[1..]) by {
        forall b | b in actions[1..] ensures b.id != id {
          var j :| 0 <= j < |actions[1..]| && actions[1..][j] == b;
          assert actions[j + 1] == b;
        }
      }
      BulkUntouched(next, actions[1..], id);
    } else {
      BulkLastWins(next, actions[1..], i - 1);
    }
  }

  /** Two bulk writes in a row leave the store as one bulk write of both. */
  lemma {:induction false} BulkAppend(docs: map<DocId, Doc>, first: seq<Action>, second: seq<Action>)
    ensures ApplyBulk(docs, first + second) == ApplyBulk(ApplyBulk(docs, first), second)
    decreases |first|
  {
    if first != [] {
      var a := first[0];
      assert (first + second)[0] == a;
      assert (first + second)[1..] == first[1..] + second;
      BulkAppend(docs[a.id := Doc(a.text, a.embedding)], first[1..], second);
    } else {
      assert first + second == second;
    }
  }

  lemma ActionsAppend(index: string, hash: string -> DocId, xs: seq<(string, Vec)>, ys: seq<(string, Vec)>)
    ensures Actions(index, hash, xs + ys) == Actions(index, hash, xs) + Actions(index, hash, ys)
  {
  }

  /** After a batch is saved, every text of the batch is found by the dedup
      lookup, because the save and the lookup derive the id the same way. */
  lemma SavedTextsAreIndexed(docs: map<DocId, Doc>, index: string, hash: string -> DocId,
                             documents: seq<(string, Vec)>)
    ensures forall i :: 0 <= i < |documents| ==>
              DocumentId(hash, documents[i].0) in ApplyBulk(docs, Actions(index, hash, documents))
  {
    var actions := Actions(index, hash, documents);
    BulkKeys(docs, actions);
    forall i | 0 <= i < |documents|
      ensures DocumentId(hash, documents[i].0) in ApplyBulk(docs, actions)
    {
      assert actions[i] in actions;
    }
  }

  /** The ids a batch adds to the store: the digests of its texts. */
  lemma BatchIds(index: string, hash: string -> DocId, documents: seq<(string, Vec)>)
    ensures ActionIds(Actions(index, hash, documents)) == set d | d in documents :: DocumentId(hash, d.0)
  {
    var actions := Actions(index, hash, documents);
    forall id | id in ActionIds(actions)
      ensures id in set d | d in documents :: DocumentId(hash, d.0)
    {
      var a :| a in actions && a.id == id;
      var i :| 0 <= i < |actions| && actions[i] == a;
      assert documents[i] in documents;
    }
    forall id | id in set d | d in documents :: DocumentId(hash, d.0)
      ensures id in ActionIds(actions)
    {
      var d :| d in documents && DocumentId(hash, d.0) == id;
      var i :| 0 <= i < |documents| && documents[i] == d;
      assert actions[i] in actions;
    }
  }

  /** The response shape `query_opensearch` reads: `results["hits"]["hits"]`,
      a `KeyError` when either level is missing. */
  function HitList(response: Result<SearchBody, Error>): (r: Result<seq<RawHit>, Error>)
    ensures r.Success? <==> response.Success? && response.value.hits.Some? && response.value.hits.value.hits.Some?
    ensures r.Success? ==> r.value == response.value.hits.value.hits.value
    ensures response.Failure? ==> r == Failure(response.error)
    ensures response.Success? && r.Failure? ==> r.error == OtherError(KeyErrorMessage("hits"))
  {
    match response
    case Failure(e) => Failure(e)
    case Success(SearchBody(None)) => Failure(OtherError(KeyErrorMessage("hits")))
    case Success(SearchBody(Some(HitsSection(None)))) => Failure(OtherError(KeyErrorMessage("hits")))
    case Success(SearchBody(Some(HitsSection(Some(hits))))) => Success(hits)
  }

  /** The requests one `save_to_opensearch` call sends: the create request
      when the index was absent, then one bulk write of the batch's actions,
      then a refresh. */
  function SaveOps(index: string, hash: string -> DocId, existed: bool, documents: seq<(string, Vec)>): seq<StoreOp>
  {
    (if existed then [] else [CreateIndex(index)]) + [BulkWrite(Actions(index, hash, documents)), RefreshIndex(index)]
  }

  /** The store as the service sees it. `hash` stands for SHA-256 of the
      UTF-8 text, in hex; it is deterministic, and nothing here assumes it
      is free of collisions. */
  class EmbeddingService {
    const indexName: string
    const hash: string -> DocId
    var indexExists: bool
    var docs: map<DocId, Doc>
    /** Every create, bulk, refresh and search request sent to the store,
        oldest first (the existence probes are not logged). */
    ghost var ops: seq<StoreOp>

    /** A missing index holds no documents. */
    ghost predicate Valid()
      reads this
    {
      !indexExists ==> docs == map[]
    }

    constructor (indexName: string, hash: string -> DocId, indexExists: bool, docs: map<DocId, Doc>)
      requires !indexExists ==> docs == map[]
      ensures Valid()
      ensures this.indexName == indexName && this.hash == hash
      ensures this.indexExists == indexExists && this.docs == docs && ops == []
    {
      this.indexName := indexName;
      this.hash := hash;
      this.indexExists := indexExists;
      this.docs := docs;
      ops := [];
    }

    /** `check_if_indexed`: does the store hold a document under the text's id?
        A missing index holds none. */
    function CheckIfIndexed(content: string): (b: bool)
      reads this
      ensures b ==> DocumentId(hash, content) in docs
      ensures Valid() ==> (b <==> DocumentId(hash, content) in docs)
    {
      indexExists && DocumentId(hash, content) in docs
    }

    /** `_create_if_not_exit`: creates the index only when it is absent, so a
        second call sends nothing. */
    method CreateIfNotExists()
      requires Valid()
      modifies this`indexExists, this`ops
      ensures Valid() && indexExists
      ensures old(indexExists) ==> ops == old(ops)
      ensures !old(indexExists) ==> ops == old(ops) + [CreateIndex(indexName)]
    {
      if !indexExists {
        ops := ops + [CreateIndex(indexName)];
        indexExists := true;
      }
    }

    /** `save_to_opensearch`: ensures the index, writes one action per pair in
        order, then refreshes. Afterwards every saved text is indexed. */
    method SaveToOpenSearch(documents: seq<(string, Vec)>)
      requires Valid()
      modifies this`indexExists, this`docs, this`ops
      ensures Valid() && indexExists
      ensures docs == ApplyBulk(old(docs), Actions(indexName, hash, documents))
      ensures docs.Keys == old(docs).Keys + set d | d in documents :: DocumentId(hash, d.0)
      ensures ops == old(ops) + SaveOps(indexName, hash, old(indexExists), documents)
      ensures forall i :: 0 <= i < |documents| ==> CheckIfIndexed(documents[i].0)
    {
      CreateIfNotExists();
      var actions := Actions(indexName, hash, documents);
      ops := ops + [BulkWrite(actions)];
      docs := ApplyBulk(docs, actions);
      ops := ops + [RefreshIndex(indexName)];
      SavedTextsAreIndexed(old(docs), indexName, hash, documents);
      BulkKeys(old(docs), actions);
      BatchIds(indexName, hash, documents);
    }

    /** `query_opensearch`: ensures the index, sends a k-NN query with the
        vector unchanged and the given `k`, and returns only the hit list.
        `engine` is the store's search, a function of what it is asked and
        what it holds. */
    method QueryOpenSearch(query: Vec, k: nat,
                           engine: (string, KnnQuery, map<DocId, Doc>) -> Result<SearchBody, Error>)
      returns (r: Result<seq<RawHit>, Error>)
      requires Valid()
      modifies this`indexExists, this`ops
      ensures Valid() && indexExists
      ensures ops == old(ops) + (if old(indexExists) then [] else [CreateIndex(indexName)])
                     + [KnnSearch(indexName, KnnQuery(query, k))]
      ensures r == HitList(engine(indexName, KnnQuery(query, k), docs))
    {
      CreateIfNotExists();
      var searchQuery := KnnQuery(query, k);
      ops := ops + [KnnSearch(indexName, searchQuery)];
      var results := engine(indexName, searchQuery, docs);
      r := HitList(results);
    }
  }
}
