/** The records the upstream video API returns (src/types/video.ts) and the error shape that the
    query and display layers inspect. */
module VideoTypes {
  import opened Wrappers

  /** `string | VideoId`: a listing returns a plain id, a search returns an object whose
      `videoId` may be missing. */
  datatype VideoId = Str(s: string) | Obj(kind: string, videoId: Option<string>)

  datatype Snippet = Snippet(
    categoryId: string,
    channelId: string,
    channelTitle: string,
    title: string,
    publishedAt: string)

  datatype ContentDetails = ContentDetails(duration: string)

  datatype Statistics = Statistics(
    viewCount: nat,
    likeCount: nat,
    commentCount: nat,
    favoriteCount: nat)

  datatype VideoPreview = VideoPreview(
    kind: string,
    etag: string,
    id: VideoId,
    snippet: Snippet,
    contentDetails: Option<ContentDetails>,
    statistics: Option<Statistics>)

  datatype PageInfo = PageInfo(totalResults: nat, resultsPerPage: nat)

  datatype VideosResponse = VideosResponse(
    kind: string,
    etag: string,
    items: seq<VideoPreview>,
    nextPageToken: string,
    pageInfo: PageInfo)

  /** `error.response`: the HTTP status and `data.error.message` of a failed call. */
  datatype ErrorResponse = ErrorResponse(status: Option<int>, errorMessage: Option<string>)

  /** A thrown error as the retry predicate and the error display read it:
      `{ message?, status?, response? }`. */
  datatype Failure = Failure(message: Option<string>, status: Option<int>, response: Option<ErrorResponse>)

  /** `err?.status === code || err?.response?.status === code`. */
  predicate HasStatus(err: Option<Failure>, code: int)
  {
    err.Some? &&
    (err.value.status == Some(code) ||
     (err.value.response.Some? && err.value.response.value.status == Some(code)))
  }
}
