/** The text a video card (src/components/VideoList/VideoCard.tsx) derives from its video: the
    relative upload time, the link target, the duration badge and the views line. */
module VideoCard {
  import opened Wrappers
  import opened Text
  import opened VideoTypes
  import opened Utils

  /** `formatTimeAgo` for an age in whole days: like `formatUploadDate`, except that one day
      reads "1 day ago". */
  function FormatTimeAgo(days: nat): string
  {
    if days == 0 then "Today"
    else if days == 1 then "1 day ago"
    else if days < 7 then NatToString(days) + " days ago"
    else if days < 30 then NatToString(days / 7) + " weeks ago"
    else if days < 365 then NatToString(days / 30) + " months ago"
    else NatToString(days / 365) + " years ago"
  }

  /** The label of a card for an upload at `uploadMs`, seen at `nowMs`. */
  function TimeAgo(nowMs: int, uploadMs: int): string
  {
    FormatTimeAgo(ElapsedDays(nowMs, uploadMs))
  }

  /** `/video/${getVideoId(id)}`: a missing id is printed as "undefined". */
  function CardHref(id: VideoId): string
  {
    "/video/" + (match GetVideoId(Some(id)) case Some(v) => v case None => "undefined")
  }

  /** The duration badge: shown only for a non-empty duration, with the duration's seconds
      followed by " ddd". */
  function DurationBadge(contentDetails: Option<ContentDetails>): Option<string>
  {
    if contentDetails.None? || contentDetails.value.duration == "" then None
    else Some(BadgeText(YTDurationToSeconds(Some(contentDetails.value.duration))))
  }

  function BadgeText(seconds: nat): string
  {
    NatToString(seconds) + " ddd"
  }

  /** The views line: `formatViews(viewCount || 0)`. */
  function ViewsText(statistics: Option<Statistics>): string
  {
    FormatViews(if statistics.Some? then statistics.value.viewCount else 0)
  }

  // ---------------------------------------------------------------- properties

  /** The card's label and the shared helper's agree on every age but one day. */
  lemma TimeAgoMatchesUploadDate(days: nat)
    ensures days != 1 ==> FormatTimeAgo(days) == FormatUploadDate(days)
    ensures FormatTimeAgo(0) == FormatUploadDate(0) == "Today"
    ensures FormatTimeAgo(1) == "1 day ago" && FormatUploadDate(1) == "Yesterday"
  {
  }

  /** The age is measured in either direction: an upload time in the future reads like one as
      far in the past. */
  lemma TimeAgoSymmetric(nowMs: int, uploadMs: int)
    ensures TimeAgo(nowMs, uploadMs) == TimeAgo(uploadMs, nowMs)
  {
    assert Abs(nowMs - uploadMs) == Abs(uploadMs - nowMs);
  }

  /** The card's label is "Today" under a day and "1 day ago" at one day; from two days on it
      states the age in whole days, weeks, months (of 30 days) or years (of 365 days), rounded
      down, in the unit its range calls for. */
  lemma TimeAgoReadsBack(days: nat)
    ensures days == 0 ==> FormatTimeAgo(days) == "Today"
    ensures days == 1 ==> FormatTimeAgo(days) == "1 day ago"
    ensures days >= 2 ==> StatesAge(FormatTimeAgo(days), days)
  {
    if days >= 2 {
      TimeAgoIsUploadDate(days);
      UploadDateReadsBack(days);
    }
  }

  /** Past the first day, the card's label is the shared helper's. */
  lemma TimeAgoIsUploadDate(days: nat)
    requires days >= 2
    ensures FormatTimeAgo(days) == FormatUploadDate(days)
  {
  }

  /** Both id shapes of one video link to the same page; an object without an id links to
      "/video/undefined". */
  lemma CardHrefShapes(x: string, kind: string)
    ensures CardHref(Str(x)) == CardHref(Obj(kind, Some(x))) == "/video/" + x
    ensures CardHref(Obj(kind, None)) == "/video/undefined"
  {
  }

  /** The badge is shown exactly when the duration is non-empty, and its leading number is the
      duration in seconds. */
  lemma DurationBadgeReadsBack(contentDetails: Option<ContentDetails>)
    ensures DurationBadge(contentDetails).Some? <==> contentDetails.Some? && contentDetails.value.duration != ""
    ensures DurationBadge(contentDetails).Some? ==>
      var shown := DurationBadge(contentDetails).value;
      && HasSuffix(shown, " ddd")
      && 1 <= DigitRun(shown) && |shown| == DigitRun(shown) + |" ddd"|
      && AgoCount(shown) == YTDurationToSeconds(Some(contentDetails.value.duration))
  {
    if contentDetails.Some? && contentDetails.value.duration != "" {
      var n := YTDurationToSeconds(Some(contentDetails.value.duration));
      var d := NatToString(n);
      var shown := BadgeText(n);
      DigitRunOf(d, " ddd");
      assert shown[..|d|] == d;
      ParseNatToString(n);
      assert shown[|shown| - 4..] == " ddd";
    }
  }

  /** A five and a half minute video shows "330 ddd". */
  lemma DurationBadgeExample()
    ensures DurationBadge(Some(ContentDetails("PT5M30S"))) == Some("330 ddd")
  {
    BadgeOf("PT5M30S");
    BadgeSeconds();
    Badge330();
  }

  lemma BadgeOf(d: string)
    requires d != ""
    ensures DurationBadge(Some(ContentDetails(d))) == Some(BadgeText(YTDurationToSeconds(Some(d))))
  {
  }

  /** "PT5M30S" is 330 seconds. */
  lemma BadgeSeconds()
    ensures YTDurationToSeconds(Some("PT5M30S")) == 330
  {
    assert "PT5M30S" == IsoDuration(None, Some(5), Some(30));
    IsoDurationSeconds(None, Some(5), Some(30));
  }

  lemma Badge330()
    ensures BadgeText(330) == "330 ddd"
  {
    assert NatToString(33) == "33";
  }

  /** Without statistics the views line is "0"; a million views read "1.0M". */
  lemma ViewsTextExamples(stats: Statistics)
    ensures ViewsText(None) == "0"
    ensures stats.viewCount == 1000000 ==> ViewsText(Some(stats)) == "1.0M"
  {
  }

  /** The views line reads back as the view count, rounded as `formatViews` rounds. */
  lemma ViewsTextReadsBack(statistics: Option<Statistics>)
    ensures var views := if statistics.Some? then statistics.value.viewCount else 0;
      ViewsValue(ViewsText(statistics)).Some? &&
      (views < 1000 ==> ViewsValue(ViewsText(statistics)).value == views)
  {
    FormatViewsValue(if statistics.Some? then statistics.value.viewCount else 0);
  }
}
