/**
 * `POST /search`: embed the query text, ask the collection for its `limit` nearest entries and
 * turn the answer into one result per returned id, in order; any failure becomes an HTTP 500.
 */
module SearchRoute {
  import opened Wrappers
  import opened Stores
  import opened ApiSchemas

  type Embedding = seq<real>

  /** `collection.query(query_embeddings=..., n_results=...)` on the named collection. */
  datatype QueryRequest = QueryRequest(collectionName: string, queryEmbeddings: seq<Embedding>, nResults: int)

  /** What Chroma answers: one list per query embedding under each key. */
  datatype QueryResult = QueryResult(ids: seq<seq<string>>, distances: seq<seq<real>>, metadatas: seq<seq<Metadata>>)

  const SearchErrorPrefix: string := "Error during search: "

  function Min(a: int, b: int): int
  {
    if a < b then a else b
  }

  /** The first `n` rounds of the formatting loop over `zip(ids, distances)`; round `i` also
      reads `metadatas[0][i]`, which raises when it is missing. */
  function FormatFirst(ids: seq<string>, distances: seq<real>, metadatas: seq<seq<Metadata>>, n: nat)
    : Result<seq<SearchResult>, Exception>
    requires n <= |ids| && n <= |distances|
  {
    if n == 0 then Success([])
    else
      var prev :- FormatFirst(ids, distances, metadatas, n - 1);
      if |metadatas| == 0 || |metadatas[0]| <= n - 1 then Failure(IndexError)
      else Success(prev + [SearchResult(ids[n - 1], metadatas[0][n - 1], distances[n - 1])])
  }

  /** The whole formatting step: `results["ids"][0]` and `results["distances"][0]` must exist. */
  function Format(r: QueryResult): Result<seq<SearchResult>, Exception>
  {
    if |r.ids| == 0 || |r.distances| == 0 then Failure(IndexError)
    else FormatFirst(r.ids[0], r.distances[0], r.metadatas, Min(|r.ids[0]|, |r.distances[0]|))
  }

  lemma {:induction false} FormatFirstShape(ids: seq<string>, distances: seq<real>, metadatas: seq<seq<Metadata>>, n: nat)
    requires n <= |ids| && n <= |distances|
    ensures FormatFirst(ids, distances, metadatas, n).Success? <==> n == 0 || (|metadatas| > 0 && n <= |metadatas[0]|)
    ensures FormatFirst(ids, distances, metadatas, n).Success? ==>
              var f := FormatFirst(ids, distances, metadatas, n).value;
              |f| == n && forall i :: 0 <= i < n ==> f[i] == SearchResult(ids[i], metadatas[0][i], distances[i])
    decreases n
  {
    if n > 0 {
      FormatFirstShape(ids, distances, metadatas, n - 1);
    }
  }

  /** Formatting succeeds exactly when both lists are there and no metadata entry a round needs
      is missing; then there is one result per pair of the zip, the `i`-th holding the `i`-th id,
      its metadata, and its raw distance as the score. */
  lemma {:induction false} FormatShape(r: QueryResult)
    ensures Format(r).Success? <==>
              && |r.ids| > 0 && |r.distances| > 0
              && var n := Min(|r.ids[0]|, |r.distances[0]|);
                 n == 0 || (|r.metadatas| > 0 && n <= |r.metadatas[0]|)
    ensures Format(r).Success? ==>
              var f := Format(r).value;
              && |f| == Min(|r.ids[0]|, |r.distances[0]|)
              && forall i :: 0 <= i < |f| ==> f[i] == SearchResult(r.ids[0][i], r.metadatas[0][i], r.distances[0][i])
  {
    if |r.ids| > 0 && |r.distances| > 0 {
      FormatFirstShape(r.ids[0], r.distances[0], r.metadatas, Min(|r.ids[0]|, |r.distances[0]|));
    }
  }

  lemma {:induction false} FormatFailureSticks(ids: seq<string>, distances: seq<real>, metadatas: seq<seq<Metadata>>, k: nat, n: nat)
    requires k <= n <= |ids| && n <= |distances|
    requires FormatFirst(ids, distances, metadatas, k).Failure?
    ensures FormatFirst(ids, distances, metadatas, n) == FormatFirst(ids, distances, metadatas, k)
    decreases n
  {
    if k < n {
      FormatFailureSticks(ids, distances, metadatas, k, n - 1);
    }
  }

  /** The loop of the route, appending one formatted result per pair. */
  method FormatResults(results: QueryResult) returns (r: Result<seq<SearchResult>, Exception>)
    ensures r == Format(results)
  {
    if |results.ids| == 0 || |results.distances| == 0 {
      return Failure(IndexError);
    }
    var ids, distances := results.ids[0], results.distances[0];
    var pairs := Zip(ids, distances);
    var formatted: seq<SearchResult> := [];
    for i := 0 to |pairs|
      invariant FormatFirst(ids, distances, results.metadatas, i) == Success(formatted)
    {
      var (id, distance) := pairs[i];
      if |results.metadatas| == 0 || i >= |results.metadatas[0]| {
        FormatFailureSticks(ids, distances, results.metadatas, i + 1, |pairs|);
        return Failure(IndexError);
      }
      formatted := formatted + [SearchResult(id, results.metadatas[0][i], distance)];
    }
    return Success(formatted);
  }

  /** Everything the route does up to the response, on the services it calls: `open` is
      `get_collection`, `embed` the embedding model, `query` the collection's nearest-neighbour
      search. */
  function Answer(q: SearchQuery, open: string -> Result<(), Exception>, embed: string -> Result<Embedding, Exception>,
                  query: QueryRequest -> Result<QueryResult, Exception>): Result<seq<SearchResult>, Exception>
  {
    var _ :- open(q.collectionName);
    var e :- embed(q.query);
    var results :- query(QueryRequest(q.collectionName, [e], q.limit));
    Format(results)
  }

  /** The route: the results, or the HTTP error every exception is turned into. */
  function Search(q: SearchQuery, open: string -> Result<(), Exception>, embed: string -> Result<Embedding, Exception>,
                  query: QueryRequest -> Result<QueryResult, Exception>): Result<seq<SearchResult>, HttpError>
  {
    var a := Answer(q, open, embed, query);
    if a.Failure? then Failure(HttpError(InternalServerError, SearchErrorPrefix + Describe(a.error))) else Success(a.value)
  }

  /** `search(query)`, step by step. */
  method HandleSearch(q: SearchQuery, open: string -> Result<(), Exception>, embed: string -> Result<Embedding, Exception>,
                     query: QueryRequest -> Result<QueryResult, Exception>)
    returns (r: Result<seq<SearchResult>, HttpError>)
    ensures r == Search(q, open, embed, query)
  {
    var collection := open(q.collectionName);
    if collection.Failure? {
      return Failure(HttpError(InternalServerError, SearchErrorPrefix + Describe(collection.error)));
    }
    var e := embed(q.query);
    if e.Failure? {
      return Failure(HttpError(InternalServerError, SearchErrorPrefix + Describe(e.error)));
    }
    var results := query(QueryRequest(q.collectionName, [e.value], q.limit));
    if results.Failure? {
      return Failure(HttpError(InternalServerError, SearchErrorPrefix + Describe(results.error)));
    }
    var formatted := FormatResults(results.value);
    if formatted.Failure? {
      return Failure(HttpError(InternalServerError, SearchErrorPrefix + Describe(formatted.error)));
    }
    return Success(formatted.value);
  }

  /** Every failure is reported as a 500 whose detail is the prefix and then the exception's text. */
  lemma {:induction false} SearchErrorsAre500(q: SearchQuery, open: string -> Result<(), Exception>, embed: string -> Result<Embedding, Exception>,
                           query: QueryRequest -> Result<QueryResult, Exception>)
    ensures Search(q, open, embed, query).Failure? <==> Answer(q, open, embed, query).Failure?
    ensures Search(q, open, embed, query).Failure? ==>
              var err := Search(q, open, embed, query).error;
              && err.statusCode == 500
              && |SearchErrorPrefix| <= |err.detail|
              && err.detail[..|SearchErrorPrefix|] == SearchErrorPrefix
              && err.detail[|SearchErrorPrefix|..] == Describe(Answer(q, open, embed, query).error)
  {
  }

  /** The answer depends on the database only through its reply to one request: the query's own
      embedding, asking for `limit` results from the named collection. */
  lemma {:induction false} SearchAsksForLimit(q: SearchQuery, open: string -> Result<(), Exception>, embed: string -> Result<Embedding, Exception>,
                           query1: QueryRequest -> Result<QueryResult, Exception>,
                           query2: QueryRequest -> Result<QueryResult, Exception>)
    requires open(q.collectionName).Success? && embed(q.query).Success?
    requires query1(QueryRequest(q.collectionName, [embed(q.query).value], q.limit))
             == query2(QueryRequest(q.collectionName, [embed(q.query).value], q.limit))
    ensures Search(q, open, embed, query1) == Search(q, open, embed, query2)
  {
  }
}
