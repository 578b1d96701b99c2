/** The Jina passage reranker: each query's passages are sent to the Jina rerank
    service, and the answer's ranking (a list of passage indices with relevance
    scores) is read back as the reordered contents and ids with the service's
    scores. The service and the environment are parameters. */
module JinaReranker {
  import opened Wrappers
  import opened PySeq

  const JinaApiUrl: string := "https://api.jina.ai/v1/rerank"
  const DefaultModel: string := "jina-reranker-v1-base-en"

  const NoApiKey: string :=
    "API key is not provided.You can set it as an argument or as an environment variable 'JINAAI_API_KEY'"

  /** The API key: the given one, or else `JINAAI_API_KEY` from the environment; ValueError
      when neither is there. */
  function ApiKey(apiKey: Option<string>, env: map<string, string>): (r: Result<string>)
    ensures apiKey.Some? ==> r == Ok(apiKey.value)
    ensures apiKey.None? ==> (r.Ok? <==> "JINAAI_API_KEY" in env)
    ensures apiKey.None? && "JINAAI_API_KEY" in env ==> r == Ok(env["JINAAI_API_KEY"])
    ensures r.Err? ==> r.error == ValueError(NoApiKey)
  {
    if apiKey.Some? then Ok(apiKey.value)
    else if "JINAAI_API_KEY" in env then Ok(env["JINAAI_API_KEY"])
    else Err(ValueError(NoApiKey))
  }

  /** The request posted for one query: its URL, the `Authorization` header, and the JSON body. */
  datatype Request = Request(url: string, authorization: string, query: string, documents: seq<string>,
                             model: string, topN: int)

  /** One entry of the ranking: a passage index and its relevance score. */
  datatype Ranked = Ranked(index: int, relevanceScore: real)

  /** The decoded JSON answer; a key the answer lacks is None. */
  datatype Response = Response(results: Option<seq<Ranked>>, detail: Option<string>)

  type Service = Request -> Response

  /** The reranked passages of one query. */
  datatype Reranked = Reranked(contents: seq<string>, ids: seq<string>, scores: seq<real>)

  function RerankRequest(query: string, contents: seq<string>, topK: int, apiKey: string, model: string): Request {
    Request(JinaApiUrl, "Bearer " + apiKey, query, contents, model, topK)
  }

  function Indices(results: seq<Ranked>): (r: seq<int>)
    ensures |r| == |results| && forall i :: 0 <= i < |r| ==> r[i] == results[i].index
  {
    seq(|results|, i requires 0 <= i < |results| => results[i].index)
  }

  function Scores(results: seq<Ranked>): (r: seq<real>)
    ensures |r| == |results| && forall i :: 0 <= i < |r| ==> r[i] == results[i].relevanceScore
  {
    seq(|results|, i requires 0 <= i < |results| => results[i].relevanceScore)
  }

  /** Reading the ranking: RuntimeError (or KeyError without a `detail`) when the answer has
      no `results`; otherwise the ids, then the contents, picked by each entry's index (with
      Python's negative indices), IndexError for the first index out of range. */
  function ReadRanking(resp: Response, contents: seq<string>, ids: seq<string>): (r: Result<Reranked>)
    ensures resp.results.None? ==>
              r == if resp.detail.Some? then Err(RuntimeError("Invalid response from Jina API: " + resp.detail.value))
                   else Err(KeyError("detail"))
    ensures resp.results.Some? ==>
              (r.Ok? <==> forall i :: 0 <= i < |resp.results.value| ==>
                            ValidIndex(resp.results.value[i].index, |ids|) && ValidIndex(resp.results.value[i].index, |contents|))
    ensures r.Err? && resp.results.Some? ==> r.error.IndexError?
    ensures r.Ok? ==> var results := resp.results.value;
              |r.value.contents| == |r.value.ids| == |r.value.scores| == |results|
              && forall i :: 0 <= i < |results| ==>
                   r.value.scores[i] == results[i].relevanceScore
                   && r.value.ids[i] == ids[Norm(results[i].index, |ids|)]
                   && r.value.contents[i] == contents[Norm(results[i].index, |contents|)]
  {
    if resp.results.None? then
      if resp.detail.Some? then Err(RuntimeError("Invalid response from Jina API: " + resp.detail.value))
      else Err(KeyError("detail"))
    else
      var results := resp.results.value;
      var indices := Indices(results);
      var scoreResult := Scores(results);
      var idResult := MapResults(indices, x => PyAt(ids, x));
      var contentResult := MapResults(indices, x => PyAt(contents, x));
      if idResult.Err? then Err(idResult.error)
      else if contentResult.Err? then Err(contentResult.error)
      else Ok(Reranked(contentResult.value, idResult.value, scoreResult))
  }

  /** `jina_reranker_pure`: post one query's passages and read the ranking. */
  function JinaRerankerPure(query: string, contents: seq<string>, scores: seq<real>, ids: seq<string>,
                            topK: int, apiKey: string, model: string, service: Service): (r: Result<Reranked>)
    ensures r.Ok? ==> |r.value.contents| == |r.value.ids| == |r.value.scores|
  {
    ReadRanking(service(RerankRequest(query, contents, topK, apiKey, model)), contents, ids)
  }

  /** Ids and contents stay paired: when they were paired position by position, every
      reranked content comes with the id of the same passage, and with that passage's score
      from the service. */
  lemma RerankKeepsPairs(query: string, contents: seq<string>, scores: seq<real>, ids: seq<string>,
                         topK: int, apiKey: string, model: string, service: Service, i: nat)
    requires |contents| == |ids|
    requires JinaRerankerPure(query, contents, scores, ids, topK, apiKey, model, service).Ok?
    requires i < |JinaRerankerPure(query, contents, scores, ids, topK, apiKey, model, service).value.contents|
    ensures var out := JinaRerankerPure(query, contents, scores, ids, topK, apiKey, model, service).value;
            var resp := service(RerankRequest(query, contents, topK, apiKey, model));
            exists k :: 0 <= k < |contents| && out.contents[i] == contents[k] && out.ids[i] == ids[k]
                        && resp.results.Some? && out.scores[i] == resp.results.value[i].relevanceScore
  {
    var resp := service(RerankRequest(query, contents, topK, apiKey, model));
    var k := Norm(resp.results.value[i].index, |contents|);
    assert k == Norm(resp.results.value[i].index, |ids|);
  }

  /** The scores given with the passages play no part: the service's scores replace them. */
  lemma InputScoresIgnored(query: string, contents: seq<string>, scores1: seq<real>, scores2: seq<real>,
                           ids: seq<string>, topK: int, apiKey: string, model: string, service: Service)
    ensures JinaRerankerPure(query, contents, scores1, ids, topK, apiKey, model, service)
            == JinaRerankerPure(query, contents, scores2, ids, topK, apiKey, model, service)
  {
  }

  /** One query's task: the query with its passages, their scores and their ids. */
  datatype Task = Task(query: string, contents: seq<string>, scores: seq<real>, ids: seq<string>)

  /** `zip(queries, contents_list, scores_list, ids_list)`: stops at the shortest list. */
  function Tasks(queries: seq<string>, contentsList: seq<seq<string>>, scoresList: seq<seq<real>>,
                 idsList: seq<seq<string>>): (r: seq<Task>)
    ensures |r| == Min(Min(Min(|queries|, |contentsList|), |scoresList|), |idsList|)
    ensures forall i :: 0 <= i < |r| ==> r[i] == Task(queries[i], contentsList[i], scoresList[i], idsList[i])
  {
    var z := Zip(Zip(Zip(queries, contentsList), scoresList), idsList);
    seq(|z|, i requires 0 <= i < |z| => Task(z[i].0.0.0, z[i].0.0.1, z[i].0.1, z[i].1))
  }

  /** `jina_reranker(...)`: the API key first, then one reranking per task in query order (the
      first failure wins), then the per-query lists unpacked (ValueError when there were no
      tasks). */
  function JinaRerank(queries: seq<string>, contentsList: seq<seq<string>>, scoresList: seq<seq<real>>,
                      idsList: seq<seq<string>>, topK: int, apiKey: Option<string>, env: map<string, string>,
                      model: string, service: Service): (r: Result<(seq<seq<string>>, seq<seq<string>>, seq<seq<real>>)>)
    ensures ApiKey(apiKey, env).Err? ==> r == Err(ApiKey(apiKey, env).error)
    ensures r.Ok? ==> var tasks := Tasks(queries, contentsList, scoresList, idsList);
              |tasks| > 0 && |r.value.0| == |r.value.1| == |r.value.2| == |tasks|
              && forall i :: 0 <= i < |tasks| ==>
                   var one := JinaRerankerPure(tasks[i].query, tasks[i].contents, tasks[i].scores, tasks[i].ids,
                                               topK, ApiKey(apiKey, env).value, model, service);
                   one.Ok? && one.value == Reranked(r.value.0[i], r.value.1[i], r.value.2[i])
  {
    var key :- ApiKey(apiKey, env);
    var tasks := Tasks(queries, contentsList, scoresList, idsList);
    var results :- MapResults(tasks, (t: Task) => JinaRerankerPure(t.query, t.contents, t.scores, t.ids, topK, key, model, service));
    if results == [] then Err(ValueError("not enough values to unpack (expected 3, got 0)"))
    else Ok((seq(|results|, i requires 0 <= i < |results| => results[i].contents),
             seq(|results|, i requires 0 <= i < |results| => results[i].ids),
             seq(|results|, i requires 0 <= i < |results| => results[i].scores)))
  }

  /** Each query's three output lists have one entry per entry of that query's ranking. */
  lemma RerankedListsAligned(queries: seq<string>, contentsList: seq<seq<string>>, scoresList: seq<seq<real>>,
                             idsList: seq<seq<string>>, topK: int, apiKey: Option<string>, env: map<string, string>,
                             model: string, service: Service, i: nat)
    requires JinaRerank(queries, contentsList, scoresList, idsList, topK, apiKey, env, model, service).Ok?
    requires i < |JinaRerank(queries, contentsList, scoresList, idsList, topK, apiKey, env, model, service).value.0|
    ensures var out := JinaRerank(queries, contentsList, scoresList, idsList, topK, apiKey, env, model, service).value;
            var resp := service(RerankRequest(queries[i], contentsList[i], topK, ApiKey(apiKey, env).value, model));
            resp.results.Some? && |out.0[i]| == |out.1[i]| == |out.2[i]| == |resp.results.value|
  {
    var out := JinaRerank(queries, contentsList, scoresList, idsList, topK, apiKey, env, model, service).value;
    var tasks := Tasks(queries, contentsList, scoresList, idsList);
    var key := ApiKey(apiKey, env).value;
    assert tasks[i] == Task(queries[i], contentsList[i], scoresList[i], idsList[i]);
    var resp := service(RerankRequest(queries[i], contentsList[i], topK, key, model));
    var one := JinaRerankerPure(queries[i], contentsList[i], scoresList[i], idsList[i], topK, key, model, service);
    assert one.Ok? && one.value == Reranked(out.0[i], out.1[i], out.2[i]);
    assert one == ReadRanking(resp, contentsList[i], idsList[i]);
  }
}
