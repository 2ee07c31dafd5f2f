/** The client-side video store (src/stores/videos.ts): one mutable record, overwritten field by
    field by its actions, and the selectors that read it. */
module Videos {
  import opened Wrappers
  import opened Text
  import opened VideoTypes
  import Utils

  /** What `setVideos` stores. Callers pass either the listing itself (its `items`) or an axios
      response (its `data`), and sometimes both; the selectors read whichever they expect. */
  datatype StoredVideo = StoredVideo(items: Option<seq<VideoPreview>>, data: Option<VideosResponse>)

  /** The initial `video`: an empty listing. */
  const InitialVideo := StoredVideo(Some([]), None)

  /** Reading `video.items` of a stored value that has none throws a TypeError. */
  datatype StoreError = ItemsUndefined

  /** A snapshot of the store's fields. `filteredVideos` only ever holds nothing: `clearFilters`
      is the one action that writes it, and nothing reads it. */
  datatype StoreState = StoreState(
    video: StoredVideo,
    filteredVideosByCategory: Option<seq<VideoPreview>>,
    filteredVideos: Option<seq<VideoPreview>>,
    selectedCategoryId: Option<string>,
    channelIds: string)

  const Initial := StoreState(InitialVideo, None, None, Some("all"), "")

  // ---------------------------------------------------------------- transitions

  /** `setVideos`: replaces `video` wholesale. */
  function WithVideos(s: StoreState, v: StoredVideo): StoreState
  {
    s.(video := v)
  }

  /** `setSelectedCategoryId`. */
  function WithSelectedCategory(s: StoreState, categoryId: string): StoreState
  {
    s.(selectedCategoryId := Some(categoryId))
  }

  /** The items of the given category, in their original order. */
  function FilterByCategory(items: seq<VideoPreview>, categoryId: string): (r: seq<VideoPreview>)
    ensures |r| <= |items|
    ensures forall x :: x in r <==> x in items && x.snippet.categoryId == categoryId
  {
    if items == [] then []
    else
      var rest := FilterByCategory(items[1..], categoryId);
      if items[0].snippet.categoryId == categoryId then [items[0]] + rest else rest
  }

  /** `setVideosByCategory`: for "all", `video.items` as it is (missing included); else the items
      of that category. The category becomes the selected one. Filtering a missing
      `video.items` fails before anything is written. */
  function ByCategory(s: StoreState, categoryId: string): Result<StoreState, StoreError>
  {
    if categoryId == "all" then
      Ok(s.(filteredVideosByCategory := s.video.items, selectedCategoryId := Some(categoryId)))
    else
      match s.video.items
      case None => Err(ItemsUndefined)
      case Some(items) =>
        Ok(s.(filteredVideosByCategory := Some(FilterByCategory(items, categoryId)), selectedCategoryId := Some(categoryId)))
  }

  /** The channel of each item, in order, duplicates kept. */
  function ChannelsOf(items: seq<VideoPreview>): (r: seq<string>)
    ensures |r| == |items|
    ensures forall i | 0 <= i < |items| :: r[i] == items[i].snippet.channelId
  {
    if items == [] then [] else [items[0].snippet.channelId] + ChannelsOf(items[1..])
  }

  /** `getChannelId`: the comma-joined channel ids of `video.items`. */
  function WithChannelIds(s: StoreState): Result<StoreState, StoreError>
  {
    match s.video.items
    case None => Err(ItemsUndefined)
    case Some(items) => Ok(s.(channelIds := Join(ChannelsOf(items), ",")))
  }

  /** `clearFilters`. */
  function FiltersCleared(s: StoreState): StoreState
  {
    s.(filteredVideos := None, selectedCategoryId := Some("all"), channelIds := "")
  }

  // ---------------------------------------------------------------- selectors

  /** The first position in `items` whose item satisfies `p`. */
  function FindIndex(items: seq<VideoPreview>, p: VideoPreview -> bool): (r: Option<nat>)
    ensures r.Some? ==> r.value < |items| && p(items[r.value])
    ensures r.Some? ==> forall j | 0 <= j < r.value :: !p(items[j])
    ensures r.None? ==> forall j | 0 <= j < |items| :: !p(items[j])
  {
    if items == [] then None
    else if p(items[0]) then Some(0)
    else
      var rest := FindIndex(items[1..], p);
      assert forall j | 1 <= j < |items| :: items[j] == items[1..][j - 1];
      if rest.Some? then Some(rest.value + 1) else None
  }

  /** `items.find(p)`. */
  function Find(items: seq<VideoPreview>, p: VideoPreview -> bool): Option<VideoPreview>
  {
    match FindIndex(items, p)
    case None => None
    case Some(i) => Some(items[i])
  }

  /** `getVideoById`: the first item of `video.data.items` whose id is strictly equal to `id`. An
      object id is never strictly equal to a string, so only plain ids can match. */
  function GetVideoById(s: StoreState, id: string): (r: Option<VideoPreview>)
    ensures r.Some? ==> s.video.data.Some? && r.value in s.video.data.value.items && r.value.id == Str(id)
    ensures r.None? && s.video.data.Some? ==> forall x | x in s.video.data.value.items :: x.id != Str(id)
    ensures r.Some? ==> var items := s.video.data.value.items;
      exists i | 0 <= i < |items| :: items[i] == r.value && forall j | 0 <= j < i :: items[j].id != Str(id)
  {
    match s.video.data
    case None => None
    case Some(data) =>
      var r := Find(data.items, (item: VideoPreview) => item.id == Str(id));
      assert forall x | x in data.items :: exists j | 0 <= j < |data.items| :: data.items[j] == x;
      r
  }

  /** `useFilteredVideos`: the whole `video.data.items` when no category (or "all") is selected,
      else the stored category filter. */
  function UseFilteredVideos(s: StoreState): Option<seq<VideoPreview>>
  {
    if s.selectedCategoryId.None? || s.selectedCategoryId.value == "" || s.selectedCategoryId.value == "all" then
      match s.video.data
      case None => None
      case Some(data) => Some(data.items)
    else s.filteredVideosByCategory
  }

  /** The item ids `useVideoById` compares: both id shapes reduced by `getVideoId`. */
  function IdMatches(q: string): VideoPreview -> bool
  {
    (item: VideoPreview) => Utils.GetVideoId(Some(item.id)) == Some(q)
  }

  /** `useVideoById`: the first item of `video.items` whose id resolves to `q`; a TypeError when
      `video.items` is missing. */
  function UseVideoById(s: StoreState, q: string): (r: Result<Option<VideoPreview>, StoreError>)
    ensures r.Err? <==> s.video.items.None?
    ensures r.Ok? && r.value.Some? ==>
      r.value.value in s.video.items.value && Utils.GetVideoId(Some(r.value.value.id)) == Some(q)
    ensures r.Ok? && r.value.None? ==>
      forall x | x in s.video.items.value :: Utils.GetVideoId(Some(x.id)) != Some(q)
    ensures r.Ok? && r.value.Some? ==> var items := s.video.items.value;
      exists i | 0 <= i < |items| :: items[i] == r.value.value &&
        forall j | 0 <= j < i :: Utils.GetVideoId(Some(items[j].id)) != Some(q)
  {
    match s.video.items
    case None => Err(ItemsUndefined)
    case Some(items) =>
      var found := Find(items, IdMatches(q));
      assert forall x | x in items :: exists j | 0 <= j < |items| :: items[j] == x;
      Ok(found)
  }

  // ---------------------------------------------------------------- the store

  /** The zustand store: its fields are overwritten by the actions below. */
  class VideoStore {
    var video: StoredVideo
    var filteredVideosByCategory: Option<seq<VideoPreview>>
    var filteredVideos: Option<seq<VideoPreview>>
    var selectedCategoryId: Option<string>
    var channelIds: string

    function State(): StoreState
      reads this
    {
      StoreState(video, filteredVideosByCategory, filteredVideos, selectedCategoryId, channelIds)
    }

    constructor()
      ensures State() == Initial
    {
      video := InitialVideo;
      filteredVideosByCategory := None;
      filteredVideos := None;
      selectedCategoryId := Some("all");
      channelIds := "";
    }

    method SetVideos(v: StoredVideo)
      modifies this
      ensures State() == WithVideos(old(State()), v)
    {
      video := v;
    }

    method SetSelectedCategoryId(categoryId: string)
      modifies this
      ensures State() == WithSelectedCategory(old(State()), categoryId)
    {
      selectedCategoryId := Some(categoryId);
    }

    method SetVideosByCategory(categoryId: string) returns (r: Result<(), StoreError>)
      modifies this
      ensures r.Err? <==> ByCategory(old(State()), categoryId).Err?
      ensures r.Ok? ==> State() == ByCategory(old(State()), categoryId).value
      ensures r.Err? ==> State() == old(State())
    {
      if categoryId == "all" {
        filteredVideosByCategory := video.items;
        selectedCategoryId := Some(categoryId);
        return Ok(());
      }
      if video.items.None? {
        return Err(ItemsUndefined);
      }
      filteredVideosByCategory := Some(FilterByCategory(video.items.value, categoryId));
      selectedCategoryId := Some(categoryId);
      return Ok(());
    }

    method GetChannelId() returns (r: Result<(), StoreError>)
      modifies this
      ensures r.Err? <==> WithChannelIds(old(State())).Err?
      ensures r.Ok? ==> State() == WithChannelIds(old(State())).value
      ensures r.Err? ==> State() == old(State())
    {
      if video.items.None? {
        return Err(ItemsUndefined);
      }
      channelIds := Join(ChannelsOf(video.items.value), ",");
      return Ok(());
    }

    method ClearFilters()
      modifies this
      ensures State() == FiltersCleared(old(State()))
    {
      filteredVideos := None;
      selectedCategoryId := Some("all");
      channelIds := "";
    }
  }

  // ---------------------------------------------------------------- properties

  /** `setVideos` and `setSelectedCategoryId` write their own field and nothing else. */
  lemma SettersFrame(s: StoreState, v: StoredVideo, categoryId: string)
    ensures var t := WithVideos(s, v);
      t.video == v && t.filteredVideosByCategory == s.filteredVideosByCategory &&
      t.filteredVideos == s.filteredVideos && t.selectedCategoryId == s.selectedCategoryId &&
      t.channelIds == s.channelIds
    ensures var t := WithSelectedCategory(s, categoryId);
      t.selectedCategoryId == Some(categoryId) && t.video == s.video &&
      t.filteredVideosByCategory == s.filteredVideosByCategory &&
      t.filteredVideos == s.filteredVideos && t.channelIds == s.channelIds
  {
  }

  /** Filtering keeps order: it distributes over concatenation. */
  lemma {:induction false} FilterAppend(a: seq<VideoPreview>, b: seq<VideoPreview>, categoryId: string)
    ensures FilterByCategory(a + b, categoryId) == FilterByCategory(a, categoryId) + FilterByCategory(b, categoryId)
  {
    if a == [] {
      assert a + b == b;
    } else {
      assert (a + b)[0] == a[0] && (a + b)[1..] == a[1..] + b;
      FilterAppend(a[1..], b, categoryId);
      if a[0].snippet.categoryId == categoryId {
        assert [a[0]] + (FilterByCategory(a[1..], categoryId) + FilterByCategory(b, categoryId))
            == ([a[0]] + FilterByCategory(a[1..], categoryId)) + FilterByCategory(b, categoryId);
      }
    }
  }

  /** Filtering a list whose items all have the category keeps it whole. */
  lemma {:induction false} FilterAllMatch(items: seq<VideoPreview>, categoryId: string)
    requires forall x | x in items :: x.snippet.categoryId == categoryId
    ensures FilterByCategory(items, categoryId) == items
  {
    if items != [] {
      FilterAllMatch(items[1..], categoryId);
    }
  }

  /** A category filter applied twice is the filter applied once. */
  lemma FilterTwice(items: seq<VideoPreview>, categoryId: string)
    ensures FilterByCategory(FilterByCategory(items, categoryId), categoryId) == FilterByCategory(items, categoryId)
  {
    FilterAllMatch(FilterByCategory(items, categoryId), categoryId);
  }

  /** `setVideosByCategory(c)` fails exactly when `c` is not "all" and `video.items` is missing.
      Otherwise it selects `c`, leaves `video`, `filteredVideos` and `channelIds` alone and
      stores `video.items` itself for "all" (even when missing), or the items of `c`. */
  lemma ByCategoryEffect(s: StoreState, categoryId: string)
    ensures ByCategory(s, categoryId).Err? <==> categoryId != "all" && s.video.items.None?
    ensures ByCategory(s, categoryId).Ok? ==>
      var t := ByCategory(s, categoryId).value;
      && t.selectedCategoryId == Some(categoryId)
      && t.video == s.video && t.filteredVideos == s.filteredVideos && t.channelIds == s.channelIds
      && (categoryId == "all" ==> t.filteredVideosByCategory == s.video.items)
      && (categoryId != "all" ==>
            && t.filteredVideosByCategory.Some?
            && forall x :: x in t.filteredVideosByCategory.value <==>
                 x in s.video.items.value && x.snippet.categoryId == categoryId)
  {
  }

  /** `setVideosByCategory` reads only `video.items`, so a second call with the same category
      changes nothing; a call that fails leaves the store as it was, so it fails again. */
  lemma ByCategoryIdempotent(s: StoreState, categoryId: string)
    ensures ByCategory(s, categoryId).Ok? ==>
      ByCategory(ByCategory(s, categoryId).value, categoryId) == ByCategory(s, categoryId)
    ensures ByCategory(s, categoryId).Err? ==> ByCategory(s, categoryId) == Err(ItemsUndefined)
  {
  }

  /** Selecting "all" after storing only a response (its `data`, no `items`) succeeds, selects
      "all", and the selector then shows the response's items. */
  lemma AllFromResponse(s: StoreState, data: VideosResponse)
    ensures var t := ByCategory(WithVideos(s, StoredVideo(None, Some(data))), "all");
      && t.Ok? && t.value.selectedCategoryId == Some("all")
      && t.value.filteredVideosByCategory.None?
      && UseFilteredVideos(t.value) == Some(data.items)
  {
  }

  /** `getChannelId` stores text that splits on commas back into the channel of each item, in
      order, when no channel id contains a comma and there is at least one item. */
  lemma ChannelIdsReadBack(s: StoreState)
    requires s.video.items.Some? && |s.video.items.value| >= 1
    requires forall x | x in s.video.items.value :: ',' !in x.snippet.channelId
    ensures WithChannelIds(s).Ok?
    ensures Split(WithChannelIds(s).value.channelIds, ',') == ChannelsOf(s.video.items.value)
  {
    var items := s.video.items.value;
    assert forall i | 0 <= i < |items| :: items[i] in items;
    SplitJoin(ChannelsOf(items), ',');
  }

  /** `clearFilters` resets the selection and the channel ids and leaves `video` and the
      category filter as they were. */
  lemma ClearFiltersEffect(s: StoreState)
    ensures var t := FiltersCleared(s);
      t.selectedCategoryId == Some("all") && t.channelIds == "" && t.filteredVideos.None? &&
      t.video == s.video && t.filteredVideosByCategory == s.filteredVideosByCategory
    ensures UseFilteredVideos(FiltersCleared(s)) == UseFilteredVideos(WithSelectedCategory(s, "all"))
  {
  }

  /** With no category selected, or "all", the selector shows `video.data.items`, whatever the
      stored filter holds; with any other category it shows the stored filter. */
  lemma FilteredVideosSource(s: StoreState)
    ensures s.selectedCategoryId.Some? && s.selectedCategoryId.value !in {"", "all"} ==>
      UseFilteredVideos(s) == s.filteredVideosByCategory
    ensures (s.selectedCategoryId.None? || s.selectedCategoryId.value in {"", "all"}) ==>
      (UseFilteredVideos(s).Some? <==> s.video.data.Some?) &&
      (s.video.data.Some? ==> UseFilteredVideos(s).value == s.video.data.value.items)
  {
  }

  /** Selecting "all" after storing a bare listing (items without `data`) shows nothing: the
      action filters `video.items` but the selector reads `video.data.items`. */
  lemma AllWithoutData(s: StoreState, items: seq<VideoPreview>)
    ensures var t := ByCategory(WithVideos(s, StoredVideo(Some(items), None)), "all");
      t.Ok? && t.value.filteredVideosByCategory == Some(items) && UseFilteredVideos(t.value).None?
  {
  }

  /** After storing a listing and choosing a category other than "all", the selector shows
      exactly that category's items of the listing, in order. */
  lemma SelectCategoryShows(s: StoreState, items: seq<VideoPreview>, categoryId: string)
    requires categoryId != "" && categoryId != "all"
    ensures var t := ByCategory(WithVideos(s, StoredVideo(Some(items), None)), categoryId);
      t.Ok? && UseFilteredVideos(t.value) == Some(FilterByCategory(items, categoryId))
  {
  }

  /** Both id shapes are found by `useVideoById`; `getVideoById` finds only plain ids. */
  lemma ByIdShapes(x: VideoPreview, q: string)
    ensures x.id == Str(q) ==> UseVideoById(StoreState(StoredVideo(Some([x]), None), None, None, None, ""), q) == Ok(Some(x))
    ensures x.id == Obj("youtube#video", Some(q)) ==>
      UseVideoById(StoreState(StoredVideo(Some([x]), None), None, None, None, ""), q) == Ok(Some(x))
    ensures x.id.Obj? ==>
      GetVideoById(StoreState(StoredVideo(None, Some(VideosResponse("", "", [x], "", PageInfo(0, 0)))), None, None, None, ""), q).None?
  {
  }

  /** A listing item with the given id, channel and category and nothing else. */
  function FixtureItem(id: string, channelId: string, categoryId: string): VideoPreview
  {
    VideoPreview("youtube#video", "", Str(id), Snippet(categoryId, channelId, "", "", ""), None, None)
  }

  /** Two items of categories "10" and "20", stored as a bare listing. */
  function Fixture(): StoreState
  {
    WithVideos(Initial, StoredVideo(Some([FixtureItem("video1", "channel1", "10"),
                                          FixtureItem("video2", "channel2", "20")]), None))
  }

  /** Filtering the fixture by "10" shows its one item of that category. */
  lemma FixtureByCategory()
    ensures ByCategory(Fixture(), "10").Ok?
    ensures UseFilteredVideos(ByCategory(Fixture(), "10").value) == Some([FixtureItem("video1", "channel1", "10")])
  {
    var items := Fixture().video.items.value;
    assert "20" != "10" by { assert "20"[0] != "10"[0]; }
    assert FilterByCategory(items[1..][1..], "10") == [];
    assert FilterByCategory(items[1..], "10") == [];
    assert FilterByCategory(items, "10") == [items[0]];
  }

  /** The fixture's channel ids are "channel1,channel2". */
  lemma FixtureChannelIds()
    ensures WithChannelIds(Fixture()).Ok?
    ensures WithChannelIds(Fixture()).value.channelIds == "channel1,channel2"
  {
    var items := Fixture().video.items.value;
    assert ChannelsOf(items) == ["channel1", "channel2"];
  }

  /** The fixture's first item is found by its id, and an unknown id finds nothing. */
  lemma FixtureById()
    ensures UseVideoById(Fixture(), "video1") == Ok(Some(FixtureItem("video1", "channel1", "10")))
    ensures UseVideoById(Fixture(), "nonexistent") == Ok(None)
  {
  }
}
