/** The two request functions of src/lib/api/video.ts: the API-key guard, the query parameters
    each one assembles, the endpoint it targets and the pass-through of the transport's answer. */
module VideoApi {
  import opened Wrappers
  import opened Text
  import opened VideoTypes

  /** The two environment variables the guard reads. */
  datatype Env = Env(nodeEnv: Option<string>, apiKey: Option<string>)

  const MissingKeyMessage: string :=
    "YouTube API key is not configured. Please set NEXT_PUBLIC_YOUTUBE_API_KEY in your environment variables."

  /** The error the guard throws: a plain Error, with a message and no HTTP status. */
  const MissingKey := Failure(Some(MissingKeyMessage), None, None)

  /** `checkApiKey`: nothing is checked under `NODE_ENV == "test"`; otherwise a missing or empty
      key is a configuration error. */
  function CheckApiKey(env: Env): (r: Result<(), Failure>)
    ensures r.Err? <==> env.nodeEnv != Some("test") && !Truthy(env.apiKey)
    ensures r.Err? ==> r.error == MissingKey
  {
    if env.nodeEnv == Some("test") then Ok(())
    else if !Truthy(env.apiKey) then Err(MissingKey)
    else Ok(())
  }

  /** The query string of a request. */
  datatype Params = Params(part: string, chart: string, maxResults: nat, q: Option<string>, videoType: string)

  /** `defaultParams`. */
  datatype DefaultParams = DefaultParams(part: string, chart: string, maxResults: nat)

  const Defaults := DefaultParams("snippet", "mostPopular", 25)

  const FullPart := "id, statistics, snippet, contentDetails"

  /** The `type = "video"` default of both accessors. */
  function TypeOrDefault(t: Option<string>): string
  {
    if t.Some? then t.value else "video"
  }

  /** The `params` of `getVideo`: statistics and content details only when there is no search
      text. */
  function VideoParams(q: Option<string>, t: Option<string>): Params
  {
    Params(if Truthy(q) then "snippet" else FullPart, "mostPopular", 25, q, TypeOrDefault(t))
  }

  /** The `params` of `searchVideos`: the defaults spread, then `q`, `type` and `part` written
      over them. */
  function SearchParams(q: Option<string>, t: Option<string>): Params
  {
    Params("snippet", Defaults.chart, Defaults.maxResults, q, TypeOrDefault(t))
  }

  datatype Request = Request(endpoint: string, params: Params)

  /** What the transport hands back on success; it is returned to the caller as is. */
  datatype Response = Response(status: int, data: VideosResponse)

  /** The HTTP client: it answers each request by a fixed rule and keeps the requests it was
      asked to send, in order. */
  class ApiClient {
    const answer: Request -> Result<Response, Failure>
    var sent: seq<Request>

    constructor(answer: Request -> Result<Response, Failure>)
      ensures this.answer == answer && sent == []
    {
      this.answer := answer;
      sent := [];
    }

    /** `apiClient.get(endpoint, { params })`. */
    method Get(req: Request) returns (r: Result<Response, Failure>)
      modifies this
      ensures sent == old(sent) + [req]
      ensures r == answer(req)
    {
      sent := sent + [req];
      r := answer(req);
    }
  }

  /** `getVideo`: the guard first, then one request to `/videos`; the transport's answer, success
      or error, is returned unchanged. */
  method GetVideo(env: Env, client: ApiClient, q: Option<string>, t: Option<string>)
    returns (r: Result<Response, Failure>)
    modifies client
    ensures CheckApiKey(env).Err? ==> r == Err(MissingKey) && client.sent == old(client.sent)
    ensures CheckApiKey(env).Ok? ==>
      var req := Request("/videos", VideoParams(q, t));
      client.sent == old(client.sent) + [req] && r == client.answer(req)
  {
    var guard := CheckApiKey(env);
    if guard.Err? {
      return Err(guard.error);
    }
    r := client.Get(Request("/videos", VideoParams(q, t)));
  }

  /** `searchVideos`: the guard first, then one request to `/search`; the transport's answer is
      returned unchanged. */
  method SearchVideos(env: Env, client: ApiClient, q: Option<string>, t: Option<string>)
    returns (r: Result<Response, Failure>)
    modifies client
    ensures CheckApiKey(env).Err? ==> r == Err(MissingKey) && client.sent == old(client.sent)
    ensures CheckApiKey(env).Ok? ==>
      var req := Request("/search", SearchParams(q, t));
      client.sent == old(client.sent) + [req] && r == client.answer(req)
  {
    var guard := CheckApiKey(env);
    if guard.Err? {
      return Err(guard.error);
    }
    r := client.Get(Request("/search", SearchParams(q, t)));
  }

  // ---------------------------------------------------------------- properties

  /** Under the test environment the guard always passes; elsewhere it passes exactly when a
      non-empty key is set. */
  lemma GuardCases(key: Option<string>, nodeEnv: Option<string>)
    ensures CheckApiKey(Env(Some("test"), key)).Ok?
    ensures nodeEnv != Some("test") ==> (CheckApiKey(Env(nodeEnv, key)).Ok? <==> Truthy(key))
  {
  }

  /** `getVideo` asks for snippets only when there is search text, and for ids, statistics,
      snippets and content details otherwise; the chart, page size, text and type are fixed or
      passed through either way. */
  lemma VideoParamsShape(q: Option<string>, t: Option<string>)
    ensures VideoParams(q, t).part == "snippet" <==> Truthy(q)
    ensures !Truthy(q) ==> VideoParams(q, t).part == "id, statistics, snippet, contentDetails"
    ensures VideoParams(q, t).chart == "mostPopular" && VideoParams(q, t).maxResults == 25
    ensures VideoParams(q, t).q == q
    ensures t.None? ==> VideoParams(q, t).videoType == "video"
    ensures t.Some? ==> VideoParams(q, t).videoType == t.value
  {
  }

  /** With search text the two accessors send the same parameters and differ only in the
      endpoint; without it they differ only in `part`. */
  lemma AccessorsAgree(q: Option<string>, t: Option<string>)
    ensures Truthy(q) ==> VideoParams(q, t) == SearchParams(q, t)
    ensures !Truthy(q) ==> VideoParams(q, t) == SearchParams(q, t).(part := FullPart)
    ensures Request("/videos", VideoParams(q, t)) != Request("/search", SearchParams(q, t))
  {
    assert "/videos"[1] != "/search"[1];
  }

  /** `searchVideos` keeps the defaults' chart and page size and always asks for snippets. */
  lemma SearchParamsShape(q: Option<string>, t: Option<string>)
    ensures SearchParams(q, t).part == Defaults.part == "snippet"
    ensures SearchParams(q, t).chart == "mostPopular" && SearchParams(q, t).maxResults == 25
    ensures SearchParams(q, t).q == q && SearchParams(q, t).videoType == TypeOrDefault(t)
  {
  }
}
