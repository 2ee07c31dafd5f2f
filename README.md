# A verified model of a YouTube-browsing front end

This project is a Dafny model of the logic inside a Next.js front end that browses YouTube
videos. Its modules follow the program's own files:

- `Utils` (`utils.dfy`): the normalisation helpers of `src/lib/utils/utils.ts`:
  - the category table;
  - ISO 8601 durations parsed to seconds, and seconds shown as `"1h 2m 3s"`;
  - view counts shown as `"999"`, `"5.5K"` or `"1.0M"`;
  - elapsed days shown as a relative label;
  - the two shapes of a video id.
- `Videos` (`store.dfy`): the zustand video store of `src/stores/videos.ts`, and its selectors.
  - The store is a class `VideoStore` whose fields the actions overwrite.
  - Each action is specified by a pure transition on a `StoreState` snapshot.
  - The lemmas about the store are stated on those transitions: idempotence, frames, and the
    round trip of channel ids.
- `VideoApi` (`api.dfy`): the API-key guard and the request parameters of `getVideo` and
  `searchVideos`.
  - The HTTP client is a class `ApiClient` that records the requests it is sent and answers each
    one by a fixed rule.
- `VideoQueries` (`queries.dfy`): the React Query options shared by `useVideos` and
  `useSearchVideos`:
  - the retry predicate;
  - the retry delay;
  - the cache keys;
  - the seeding with initial data.
- `ErrorDisplay` (`error_display.dfy`): how the error panel classifies an error, which message it
  picks and which hint blocks it shows.
- `VideoCard` (`video_card.dfy`): the strings a video card derives from its video: relative time,
  link, duration badge and views.
- `EmbedPlayer` (`iframe_player.dfy`):
  - the watch-URL to embed-URL rewrite of the iframe player;
  - its three flags (`isLoaded`, `hasError`, `showPlayButton`), held in a class `Player` that its
    three handlers update.
- Supporting modules:
  - `Wrappers`: `Option` and `Result`.
  - `Text`: decimal printing and parsing, `join`, `split`, `indexOf`.
  - `VideoTypes`: the records of `src/types/video.ts` and the error shape read by the query and
    display layers.

How the model reads the source:

- `undefined` and `null` are both `None`.
- A thrown error is the `Err` side of a `Result`.
- Integers are unbounded naturals.

Observations the model makes precise:

- **Where the store reads its items.** The store reads `video.items` for filtering, channel ids
  and `useVideoById`. For the "all" view of `useFilteredVideos` and for `getVideoById` it reads
  `video.data.items`.
  - So selecting "all" after storing a bare listing shows nothing (`Videos.AllWithoutData`).
  - Selecting "all" never fails: it copies `video.items` even when that is missing, and the selector then shows the stored response's items (`Videos.AllFromResponse`). Only filtering by another category throws when `video.items` is missing.
  - `getVideoById` never finds an item whose id is an object (`Videos.ByIdShapes`).
- **The console hint.** It appears exactly when neither status block does. A 403 alone therefore
  shows neither the 400 block nor the console hint.
- **Two relative-time helpers.** The card's relative time and the shared `formatUploadDate` differ
  only at one day ("1 day ago" against "Yesterday").

## Model

| member | source | states |
|---|---|---|
| Text.ParseNatToString | src/lib/utils/utils.ts:41-43 | `parseInt` of the digits that printing a count produces gives the count back |
| Text.IndexOfFirst | src/lib/utils/utils.ts:31 | the result is the first position where the pattern occurs; none exactly when it occurs nowhere |
| Text.FirstFieldPrefix | src/components/VideoList/IframeVideoPlayer.tsx:60 | `split(sep)[0]` is a prefix free of `sep`, and is followed by `sep` unless it is the whole text |
| Text.SecondFieldFree | src/components/VideoList/IframeVideoPlayer.tsx:60 | `split(sep)[1]` contains no `sep` |
| Text.SplitJoin | src/stores/videos.ts:83-85 | splitting text joined with a separator that no piece contains gives back the pieces, in order |
| Utils.GetCategories | src/lib/utils/utils.ts:4-26 | 18 single-entry maps; the first is `{1: "Film & Animation"}` and the third is `{10: "Music"}` |
| Utils.YTDurationWithoutPattern | src/lib/utils/utils.ts:29-33 | absent or empty input, or text without `PT`, counts as 0 seconds |
| Utils.IsoDurationSeconds | src/lib/utils/utils.ts:31-45 | `PT[hH][mM][sS]` is h·3600 + m·60 + s seconds, each absent component counting 0 |
| Utils.DurationExampleFull | src/lib/utils/__tests__/utils.test.ts:31-32 | `"PT1H2M3S"` is 3723 seconds |
| Utils.DurationExampleNoHours | src/lib/utils/__tests__/utils.test.ts:35-36 | `"PT15M30S"` is 930 seconds |
| Utils.DurationExampleHoursOnly | src/lib/utils/__tests__/utils.test.ts:55-56 | `"PT10H"` is 36000 seconds |
| Utils.Hms | src/lib/utils/utils.ts:61-64 | the minutes and seconds shown are below 60, and h·3600 + m·60 + s is the parsed total |
| Utils.DurationLabelIso | src/lib/utils/utils.ts:66-76 | the label splits at single spaces into exactly the units above zero, each a number and a lower-case `h`, `m` or `s`, in that order, plus the seconds when no other unit shows; read as ISO 8601 it has exactly those components |
| Utils.FormatDurationReparses | src/lib/utils/utils.ts:59-77 | reading a duration label back as ISO 8601 gives the seconds it was made from |
| Utils.FormatDurationNonEmpty | src/lib/utils/utils.ts:60-75 | a duration label is never empty, and an empty or absent duration is `"0s"` |
| Utils.DurationLabelExampleFull | src/lib/utils/__tests__/utils.test.ts:93-94 | `"PT1H2M3S"` is shown as `"1h 2m 3s"` |
| Utils.DurationLabelExampleNoMinutes | src/lib/utils/__tests__/utils.test.ts:113-114 | `"PT1H3S"` is shown as `"1h 3s"`; the zero minutes are skipped |
| Utils.DurationLabelExampleZero | src/lib/utils/__tests__/utils.test.ts:118-119 | `"PT0S"` is shown as `"0s"` |
| Utils.FormatViewsValue | src/lib/utils/utils.ts:48-57 | the label is all digits below 1000, ends in `K` exactly for 1000 to 999999 views and in `M` exactly from 1000000 on; it reads back as the count: exactly below 1000, to the nearest hundred in thousands, to the nearest hundred thousand in millions |
| Utils.FormatViewsExact | src/lib/utils/utils.ts:51-56 | a count that is round at the precision of its range is shown without loss |
| Utils.ViewsExampleSmall | src/lib/utils/__tests__/utils.test.ts:67 | 999 views are `"999"` |
| Utils.ViewsExampleThousand | src/lib/utils/__tests__/utils.test.ts:71 | 1000 views are `"1.0K"` |
| Utils.ViewsExampleThousands | src/lib/utils/__tests__/utils.test.ts:72 | 5500 views are `"5.5K"` |
| Utils.ViewsExampleRoundsUp | src/lib/utils/__tests__/utils.test.ts:73 | 999999 views are `"1000.0K"`; the thousands branch never moves to millions |
| Utils.ViewsExampleMillions | src/lib/utils/__tests__/utils.test.ts:78 | 2500000 views are `"2.5M"` |
| Utils.ElapsedDays | src/lib/utils/utils.ts:82-83 | the whole days between two instants, in either direction: the largest d with d days ≤ the gap |
| Utils.UploadDateReadsBack | src/lib/utils/utils.ts:84-91 | "Today" under a day, "Yesterday" at one day; from two days on, the label is a number n followed directly by the words of its unit, with n·span ≤ days < (n+1)·span and days below 7, weeks below 30, months below 365, years after |
| Utils.UploadDateExampleWeek | src/lib/utils/__tests__/utils.test.ts:163-165 | seven days are `"1 weeks ago"` |
| Utils.UploadDateExampleYears | src/lib/utils/__tests__/utils.test.ts:158-160 | 730 days are `"2 years ago"` |
| Utils.GetVideoIdResolves | src/lib/utils/utils.ts:94-99 | a plain id and an object with that `videoId` resolve to the same id; an object without one, or no id, resolves to none |
| Videos.FilterByCategory | src/stores/videos.ts:73-75 | an item is kept exactly when it is in the list and has the category; the result is no longer than the list |
| Videos.FilterAppend | src/stores/videos.ts:73-75 | filtering keeps order: it distributes over concatenation |
| Videos.FilterTwice | src/stores/videos.ts:73-75 | filtering twice by the same category is filtering once |
| Videos.ChannelsOf | src/stores/videos.ts:83-84 | one channel per item, position by position, duplicates kept |
| Videos.FindIndex | src/stores/videos.ts:121 | `find` returns the first item satisfying the test, and none only when no item does |
| Videos.GetVideoById | src/stores/videos.ts:59-61 | a found item is the first of `video.data.items` with exactly that plain id; none means no item there has it |
| Videos.UseVideoById | src/stores/videos.ts:116-123 | a TypeError exactly when `video.items` is missing; otherwise the first item of `video.items` whose id resolves to the query, or none when no item's does |
| Videos.VideoStore.constructor | src/stores/videos.ts:53-56 | the initial state: an empty listing, "all" selected, no channel ids |
| Videos.VideoStore.SetVideos | src/stores/videos.ts:58 | `video` is replaced and every other field is kept |
| Videos.VideoStore.SetSelectedCategoryId | src/stores/videos.ts:62-63 | only `selectedCategoryId` changes |
| Videos.VideoStore.SetVideosByCategory | src/stores/videos.ts:64-80 | the new state is the category transition of the old one, or the state is untouched and a TypeError is returned when a category other than "all" is filtered with `video.items` missing |
| Videos.VideoStore.GetChannelId | src/stores/videos.ts:81-87 | the new state holds the comma-joined channels of `video.items`, or is untouched when they are missing |
| Videos.VideoStore.ClearFilters | src/stores/videos.ts:88-93 | the new state is the cleared one |
| Videos.SettersFrame | src/stores/videos.ts:58-63 | `setVideos` and `setSelectedCategoryId` each write their own field and nothing else |
| Videos.ByCategoryEffect | src/stores/videos.ts:64-80 | it fails iff the category is not "all" and `video.items` is missing; otherwise it selects the category, leaves the other fields alone and stores `video.items` as it is for "all" (missing included), else exactly the items of the category |
| Videos.ByCategoryIdempotent | src/stores/videos.ts:64-80 | a second call with the same category changes nothing; the only failure is the TypeError |
| Videos.AllFromResponse | src/stores/videos.ts:66-71 | "all" after storing only a response succeeds, selects "all", and the selector shows the response's items |
| Videos.ChannelIdsReadBack | src/stores/videos.ts:81-87 | the stored channel ids split on commas give each item's channel, in order, when no channel id has a comma |
| Videos.ClearFiltersEffect | src/stores/videos.ts:88-93 | "all" is selected, the channel ids are empty and `filteredVideos` is cleared; `video` and the category filter are kept |
| Videos.FilteredVideosSource | src/stores/videos.ts:104-110 | with no selection, "" or "all", the selector shows `video.data.items`; otherwise it shows the stored category filter |
| Videos.AllWithoutData | src/stores/videos.ts:66-72 | "all" after storing a bare listing keeps the items in the filter, but the selector shows nothing |
| Videos.SelectCategoryShows | src/stores/videos.ts:73-79 | after storing a listing and choosing a category, the selector shows exactly its items, in order |
| Videos.ByIdShapes | src/stores/videos.ts:116-123 | `useVideoById` finds both id shapes; `getVideoById` never finds an object id |
| Videos.FixtureByCategory | src/stores/__tests__/videos.test.ts:160-174 | the two-item fixture filtered by "10" shows its one item of category "10" |
| Videos.FixtureChannelIds | src/stores/__tests__/videos.test.ts:191-204 | the fixture's channel ids are `"channel1,channel2"` |
| Videos.FixtureById | src/stores/__tests__/videos.test.ts:227-251 | the fixture's first item is found by its id; an unknown id finds nothing |
| VideoApi.CheckApiKey | src/lib/api/video.ts:18-29 | a configuration error exactly when not under test and the key is missing or empty |
| VideoApi.GuardCases | src/lib/api/video.ts:18-29 | under test the guard always passes; elsewhere it passes exactly when a non-empty key is set |
| VideoApi.VideoParamsShape | src/lib/api/video.ts:31-46 | part is `"snippet"` iff there is search text, else the full part list; chart and page size are fixed; `q` is passed through; `type` defaults to `"video"` |
| VideoApi.SearchParamsShape | src/lib/api/video.ts:78-83 | the search always asks for snippets of the most popular chart, 25 per page, with `q` and the type passed through |
| VideoApi.AccessorsAgree | src/lib/api/video.ts:37-46 | with search text both accessors send the same parameters; without it they differ only in `part`; their requests never coincide |
| VideoApi.ApiClient.Get | src/lib/api/video.ts:49-51 | the request is recorded after those already sent, and the transport's answer is returned |
| VideoApi.GetVideo | src/lib/api/video.ts:31-67 | when the guard fails, nothing is sent and the configuration error is returned; otherwise exactly one `/videos` request is sent and its answer, success or error, is returned unchanged |
| VideoApi.SearchVideos | src/lib/api/video.ts:69-104 | the same for one `/search` request |
| VideoQueries.RetryPolicy | src/lib/queries/video.ts:10-22 | no retry after a 403 or a 400, on the error or on its response; any other error is retried exactly while fewer than two failures came before |
| VideoQueries.RetryWaitsOf | src/lib/queries/video.ts:10-23 | a persistent ordinary error is retried twice, after 1000 and 2000 ms; a 403 or 400 is not retried |
| VideoQueries.RetryDelayCapped | src/lib/queries/video.ts:23 | the delay starts at 1000 ms and never exceeds 30000 ms |
| VideoQueries.RetryDelayReachesCap | src/lib/queries/video.ts:23 | from attempt index 5 on, the delay is the 30000 ms cap |
| VideoQueries.RetryDelayMonotone | src/lib/queries/video.ts:23 | the delay never shrinks from one attempt to a later one |
| VideoQueries.KeysDistinct | src/lib/queries/video.ts:7-31 | the two hooks never share a cache key, and each has one key per search text |
| VideoQueries.HookRequests | src/lib/queries/video.ts:8-32 | `useVideos` asks `/videos` and `useSearchVideos` asks `/search`, both for the default type |
| VideoQueries.InitialDataOnlyForItems | src/lib/queries/video.ts:5-9 | before a fetch, `useVideos` returns its initial videos, with success when there are some; `useSearchVideos` has nothing and is loading |
| ErrorDisplay.ErrorMessage | src/components/ErrorDisplay.tsx:27 | never empty; the error's own message when it is non-empty; otherwise the API's message when that is non-empty; otherwise the unknown-error text |
| ErrorDisplay.MessageFallback | src/components/ErrorDisplay.tsx:27 | for any statuses (a 403 from the API included), the error's message wins over the API's, the API's over the fallback, and missing or empty messages are skipped |
| ErrorDisplay.HintsChosen | src/components/ErrorDisplay.tsx:51-115 | the 403 block iff a 403, the 400 block iff a 400, the console hint iff neither; so the hint appears exactly when no status block does, and one or two blocks show |
| ErrorDisplay.BothBlocks | src/components/ErrorDisplay.tsx:25-26 | an error that is 403 itself and 400 in its response shows both status blocks, in that order |
| ErrorDisplay.NoError | src/components/ErrorDisplay.tsx:24-27 | a missing error is neither 403 nor 400, reads as unknown and gets the console hint alone |
| ErrorDisplay.DefaultTitleShown | src/components/ErrorDisplay.tsx:23 | without a title the panel reads `"Error Loading Videos"` |
| ErrorDisplay.HintMatchesRetry | src/components/ErrorDisplay.tsx:25-26 | the console hint shows exactly for the errors the query hooks would retry after a first failure |
| VideoCard.TimeAgoMatchesUploadDate | src/components/VideoList/VideoCard.tsx:56-68 | the card's label equals `formatUploadDate` for every age but one day, where it says `"1 day ago"`; both say "Today" under a day |
| VideoCard.TimeAgoSymmetric | src/components/VideoList/VideoCard.tsx:57-60 | an upload time in the future reads like one as far in the past |
| VideoCard.TimeAgoReadsBack | src/components/VideoList/VideoCard.tsx:62-67 | "Today" under a day, "1 day ago" at one day; from two days on, the label is a number followed directly by its unit's words, and they bracket the age as in `formatUploadDate` |
| VideoCard.CardHrefShapes | src/components/VideoList/VideoCard.tsx:104 | both id shapes of a video link to `/video/<id>`; an object without an id links to `/video/undefined` |
| VideoCard.DurationBadgeReadsBack | src/components/VideoList/VideoCard.tsx:133-148 | the badge shows exactly for a non-empty duration, and is the duration's seconds in digits followed directly by `" ddd"` |
| VideoCard.DurationBadgeExample | src/components/VideoList/__tests__/VideoCard.test.tsx:112-114 | `"PT5M30S"` shows `"330 ddd"` |
| VideoCard.ViewsTextExamples | src/components/VideoList/__tests__/VideoCard.test.tsx:96-98 | no statistics show `"0"`; a million views show `"1.0M"` |
| VideoCard.ViewsTextReadsBack | src/components/VideoList/VideoCard.tsx:218 | the views line always reads back as a count, exactly below a thousand, with a missing count as 0 |
| EmbedPlayer.EmptySource | src/components/VideoList/IframeVideoPlayer.tsx:56-57 | an empty source gives an empty embed URL and no iframe |
| EmbedPlayer.NonWatchUrlKept | src/components/VideoList/IframeVideoPlayer.tsx:59-69 | a URL that is not a watch URL is used as it is |
| EmbedPlayer.WatchUrlEmbed | src/components/VideoList/IframeVideoPlayer.tsx:59-67 | a watch URL becomes the embed base, then the text after its first `v=` up to the next `&`, `v=` or the end, then the parameter string |
| EmbedPlayer.IdCutUnique | src/components/VideoList/IframeVideoPlayer.tsx:60 | the id cut from the text after `v=` is determined: at most one prefix free of `&` and `v=` ends at an `&`, a `v=` or the end |
| EmbedPlayer.CanonicalWatchUrl | src/components/VideoList/IframeVideoPlayer.tsx:56-70 | `https://www.youtube.com/watch?v=<id>` becomes `https://www.youtube.com/embed/<id>` plus the parameters |
| EmbedPlayer.ParamStringEmpty | src/components/VideoList/IframeVideoPlayer.tsx:61-65 | the parameter string is empty exactly for the default options, and otherwise starts with `?` |
| EmbedPlayer.ParamStringAll | src/components/VideoList/IframeVideoPlayer.tsx:61-65 | all three parameters come in the order autoplay, mute, controls |
| EmbedPlayer.ParamStringSkipsMute | src/components/VideoList/IframeVideoPlayer.tsx:61-65 | a parameter that is off leaves no trace between the others |
| EmbedPlayer.Player.constructor | src/components/VideoList/IframeVideoPlayer.tsx:47-49 | not loaded, no error, the play button shown iff autoplay is off |
| EmbedPlayer.Player.OnLoad | src/components/VideoList/IframeVideoPlayer.tsx:72-77 | loaded, play button hidden, error flag kept |
| EmbedPlayer.Player.OnError | src/components/VideoList/IframeVideoPlayer.tsx:79-83 | only the error flag is set |
| EmbedPlayer.Player.OnPlayClick | src/components/VideoList/IframeVideoPlayer.tsx:85-87 | only the play button is hidden |
| EmbedPlayer.RunFlags | src/components/VideoList/IframeVideoPlayer.tsx:72-87 | after any events: an error iff one came (nothing clears it), loaded iff a load came, the play button iff it was up and neither a load nor a click came |
| EmbedPlayer.RunConsistent | src/components/VideoList/IframeVideoPlayer.tsx:72-87 | a loaded player never shows its play button, whatever the events |
| EmbedPlayer.FromStart | src/components/VideoList/IframeVideoPlayer.tsx:47-87 | from a fresh player, the play button stays up exactly while autoplay is off and neither a load nor a click has come |
| EmbedPlayer.Visibility | src/components/VideoList/IframeVideoPlayer.tsx:121-213 | the error panel replaces the overlay and the iframe; once loaded, the overlay and the play button are gone |

## Left out

- HTTP transport: `src/lib/api/apiClient.ts` (axios set-up) and `src/lib/api/channel.ts` are not part of this model.
  - The client is an abstract rule from request to answer.
  - Logging in the `catch` blocks is left out; the error is passed on unchanged.
- React Query itself is a library and is not part of this model: caching, deduplication, scheduling of retries, refetching.
  - The hook states modelled are only those before the first fetch.
  - The retry schedule assumes the library calls the predicate with the failures so far, starting at 0.
- Persistence: the `persist` wrapper and `localStorage` (src/stores/videos.ts:96-100) are browser storage I/O.
- Clocks and date parsing: `new Date(...)` and `Date.now()`.
  - `formatUploadDate` takes the elapsed whole days.
  - The card's relative time takes the two instants in milliseconds.
- Utils.FormatViewsValue: does not model doubles.
  - `toFixed(1)` is modelled on exact integers, with ties rounded up.
  - Doubles can round a tie at `.x5` either way, so the count a label reads back as is proved equal to the views only for round counts, and the exact labels only for the values the repository's test suite expects.
- YTDurationToSeconds: integers are unbounded. Digit groups too long for a double's precision, which `parseInt` would round, are not modelled.
- Statistics counts are naturals. The API sends `viewCount` as a string, which JavaScript coerces; that coercion is not modelled.
- Rendering is not modelled: JSX layout, styling, the dev-only details block of the error panel (src/components/ErrorDisplay.tsx:117-134), the card's hover timers (src/components/VideoList/VideoCard.tsx:70-85), and the `onLoad`/`onError` callbacks the player forwards.
  - Which blocks show is modelled as a list of hints; the four 403 causes are constants.
- The stored `video` keeps only `items` and `data`. Its `kind`, `etag`, `nextPageToken` and `pageInfo` are never read by the store and are dropped.
- `null` and `undefined` are both `None`. The `TypeVideo` union is a string.
- Default parameters: JavaScript applies `type = "video"` (src/lib/api/video.ts:33, :71) and the panel's default `title` (src/components/ErrorDisplay.tsx:23) only for `undefined`. The model applies them to `None`, which also stands for `null`; no caller passes `null`.
- Utils.GetCategories: the table is stated by its size, its shape and the two entries its test suite checks; that its keys are distinct is not stated.
- `console.log` calls in `useVideoById` are not modelled.
