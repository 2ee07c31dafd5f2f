/** The React Query hooks of src/lib/queries/video.ts: their retry predicate, retry delay, cache
    keys, the seeding of `useVideos` with initial data and the fields both hooks hand back. */
module VideoQueries {
  import opened Wrappers
  import opened VideoTypes
  import VideoApi

  /** The `retry` option of both hooks: never after a 403 or a 400, read from the error itself or
      from its HTTP response; otherwise while fewer than two failures came before. */
  function Retry(failureCount: nat, error: Option<Failure>): bool
  {
    if HasStatus(error, 403) then false
    else if HasStatus(error, 400) then false
    else failureCount < 2
  }

  function Pow2(n: nat): (r: nat)
    ensures r >= 1
  {
    if n == 0 then 1 else 2 * Pow2(n - 1)
  }

  function Min(a: nat, b: nat): nat
  {
    if a <= b then a else b
  }

  const MaxDelay: nat := 30000

  /** The `retryDelay` option of both hooks: `min(1000 * 2 ** attemptIndex, 30000)` ms. */
  function RetryDelay(attemptIndex: nat): (ms: nat)
  {
    Min(1000 * Pow2(attemptIndex), MaxDelay)
  }

  /** The waits before each retry of a query whose every attempt fails with `error`, when the
      library asks the predicate with the number of failures before the current one, starting
      at `failureCount`. */
  function RetryWaits(error: Option<Failure>, failureCount: nat): seq<nat>
    decreases if failureCount < 2 then 2 - failureCount else 0
  {
    if Retry(failureCount, error) then [RetryDelay(failureCount)] + RetryWaits(error, failureCount + 1)
    else []
  }

  /** A query cache key: `["videos", kind, q]`. */
  datatype QueryKey = QueryKey(scope: string, kind: string, q: Option<string>)

  function ItemsKey(q: Option<string>): QueryKey
  {
    QueryKey("videos", "items", q)
  }

  function SearchKey(q: Option<string>): QueryKey
  {
    QueryKey("videos", "search", q)
  }

  /** The query function each hook registers: the request it makes, with `type` left to its
      default. */
  function ItemsRequest(q: Option<string>): VideoApi.Request
  {
    VideoApi.Request("/videos", VideoApi.VideoParams(q, None))
  }

  function SearchRequest(q: Option<string>): VideoApi.Request
  {
    VideoApi.Request("/search", VideoApi.SearchParams(q, None))
  }

  /** The fields of a query's state that the hooks pass on. */
  datatype QueryState<D> = QueryState(data: Option<D>, isLoading: bool, isError: bool, error: Option<Failure>, isSuccess: bool)

  /** What both hooks return: `{ videos: data, isLoading, isError, error, isSuccess }`. */
  datatype HookResult<D> = HookResult(videos: Option<D>, isLoading: bool, isError: bool, error: Option<Failure>, isSuccess: bool)

  function Project<D>(s: QueryState<D>): HookResult<D>
  {
    HookResult(s.data, s.isLoading, s.isError, s.error, s.isSuccess)
  }

  /** A query's state before its first fetch settles: with initial data it already holds that
      data and has succeeded, without it is loading. */
  function BeforeFetch<D>(initialData: Option<D>): QueryState<D>
  {
    if initialData.Some? then QueryState(initialData, false, false, None, true)
    else QueryState(None, true, false, None, false)
  }

  /** `useVideos` before its first fetch: seeded with `initialVideos`. */
  function UseVideosBeforeFetch<D>(initialVideos: Option<D>): HookResult<D>
  {
    Project(BeforeFetch(initialVideos))
  }

  /** `useSearchVideos` before its first fetch: it passes no initial data. */
  function UseSearchVideosBeforeFetch<D>(): HookResult<D>
  {
    Project(BeforeFetch(None))
  }

  // ---------------------------------------------------------------- properties

  /** 403 and 400 errors, whether the status is on the error or on its response, are never
      retried; any other error is retried exactly while fewer than two failures came before. */
  lemma RetryPolicy(failureCount: nat, error: Option<Failure>)
    ensures HasStatus(error, 403) || HasStatus(error, 400) ==> !Retry(failureCount, error)
    ensures !HasStatus(error, 403) && !HasStatus(error, 400) ==> (Retry(failureCount, error) <==> failureCount < 2)
    ensures Retry(failureCount, error) ==> failureCount < 2
  {
  }

  /** A persistent error is retried at most twice: after waits of one and two seconds for an
      ordinary error, and not at all for a 403 or a 400. */
  lemma RetryWaitsOf(error: Option<Failure>)
    ensures HasStatus(error, 403) || HasStatus(error, 400) ==> RetryWaits(error, 0) == []
    ensures !HasStatus(error, 403) && !HasStatus(error, 400) ==> RetryWaits(error, 0) == [1000, 2000]
    ensures |RetryWaits(error, 0)| <= 2
  {
    if !HasStatus(error, 403) && !HasStatus(error, 400) {
      assert RetryWaits(error, 2) == [];
      assert RetryDelay(1) == 2000;
    }
  }

  /** Every retry wait is at most thirty seconds. */
  lemma RetryDelayCapped(attemptIndex: nat)
    ensures RetryDelay(attemptIndex) <= MaxDelay
    ensures RetryDelay(0) == 1000
  {
  }

  /** From the sixth attempt on, the wait is the cap. */
  lemma {:induction false} RetryDelayReachesCap(attemptIndex: nat)
    requires attemptIndex >= 5
    ensures RetryDelay(attemptIndex) == MaxDelay
  {
    Pow2Grows(5, attemptIndex);
    assert Pow2(5) == 32;
  }

  /** Powers of two do not decrease. */
  lemma {:induction false} Pow2Grows(i: nat, j: nat)
    requires i <= j
    ensures Pow2(i) <= Pow2(j)
  {
    if i < j {
      Pow2Grows(i, j - 1);
    }
  }

  /** Waits never shrink from one attempt to a later one. */
  lemma RetryDelayMonotone(i: nat, j: nat)
    requires i <= j
    ensures RetryDelay(i) <= RetryDelay(j)
  {
    Pow2Grows(i, j);
  }

  /** The two hooks never share a cache entry, and each keeps one entry per search text. */
  lemma KeysDistinct(q: Option<string>, q': Option<string>)
    ensures ItemsKey(q) != SearchKey(q')
    ensures ItemsKey(q) == ItemsKey(q') <==> q == q'
    ensures SearchKey(q) == SearchKey(q') <==> q == q'
  {
    assert "items"[0] != "search"[0];
  }

  /** Both hooks request videos of the default type, from their own endpoint. */
  lemma HookRequests(q: Option<string>)
    ensures ItemsRequest(q).params.videoType == "video" && SearchRequest(q).params.videoType == "video"
    ensures ItemsRequest(q).endpoint == "/videos" && SearchRequest(q).endpoint == "/search"
  {
  }

  /** Before any fetch, `useVideos` hands back its initial data as `videos` (and reports success
      when there is some), while `useSearchVideos` has nothing and is loading. */
  lemma InitialDataOnlyForItems<D>(initialVideos: Option<D>)
    ensures UseVideosBeforeFetch(initialVideos).videos == initialVideos
    ensures initialVideos.Some? ==> UseVideosBeforeFetch(initialVideos).isSuccess && !UseVideosBeforeFetch(initialVideos).isLoading
    ensures UseSearchVideosBeforeFetch<D>().videos.None? && UseSearchVideosBeforeFetch<D>().isLoading
  {
  }
}
