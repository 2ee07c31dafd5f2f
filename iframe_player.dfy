/** The embedded player of src/components/VideoList/IframeVideoPlayer.tsx: the rewrite of a watch
    URL into an embed URL, and the three flags its event handlers update. */
module EmbedPlayer {
  import opened Wrappers
  import opened Text

  const WatchMarker := "youtube.com/watch?v="
  const EmbedBase := "https://www.youtube.com/embed/"

  /** The query parameters `formatVideoUrl` appends, in order, each only when its option asks. */
  function PlayerParams(autoplay: bool, muted: bool, controls: bool): seq<string>
  {
    (if autoplay then ["autoplay=1"] else []) +
    (if muted then ["mute=1"] else []) +
    (if !controls then ["controls=0"] else [])
  }

  /** `?` and the parameters joined by `&`, or nothing when there are none. */
  function ParamString(autoplay: bool, muted: bool, controls: bool): string
  {
    var params := PlayerParams(autoplay, muted, controls);
    if |params| == 0 then "" else "?" + Join(params, "&")
  }

  /** `formatVideoUrl`: an empty source stays empty; a watch URL becomes an embed URL for the
      text after its first `v=`, cut at the next `&` or `v=`; any other URL is kept. */
  function FormatVideoUrl(url: string, autoplay: bool, muted: bool, controls: bool): string
  {
    if url == "" then ""
    else if Contains(url, WatchMarker) then
      assert Contains(url, "v=") by {
        MarkerHoldsV(url);
      }
      EmbedBase + FirstField(SecondField(url, "v="), "&") + ParamString(autoplay, muted, controls)
    else url
  }

  // ---------------------------------------------------------------- player state

  /** The three `useState` flags of the player. */
  datatype Flags = Flags(isLoaded: bool, hasError: bool, showPlayButton: bool)

  datatype Event = Load | Error | PlayClick

  function InitialFlags(autoplay: bool): Flags
  {
    Flags(false, false, !autoplay)
  }

  /** The handlers: loading shows the video and hides the play button, an error marks the
      player broken, a click on the play button hides it. */
  function Step(f: Flags, e: Event): Flags
  {
    match e
    case Load => f.(isLoaded := true, showPlayButton := false)
    case Error => f.(hasError := true)
    case PlayClick => f.(showPlayButton := false)
  }

  /** The flags after handling `events` in order. */
  function Run(f: Flags, events: seq<Event>): Flags
    decreases |events|
  {
    if events == [] then f else Run(Step(f, events[0]), events[1..])
  }

  /** A loaded player never shows its play button. */
  predicate Consistent(f: Flags)
  {
    f.isLoaded ==> !f.showPlayButton
  }

  /** The loading overlay (with the play button inside it). */
  predicate OverlayVisible(f: Flags)
  {
    !f.isLoaded && !f.hasError
  }

  predicate PlayButtonVisible(f: Flags)
  {
    OverlayVisible(f) && f.showPlayButton
  }

  predicate IframeMounted(embedUrl: string, f: Flags)
  {
    embedUrl != "" && !f.hasError
  }

  predicate ErrorPanelVisible(f: Flags)
  {
    f.hasError
  }

  /** The player's flags, updated in place by its handlers. */
  class Player {
    const autoplay: bool
    var isLoaded: bool
    var hasError: bool
    var showPlayButton: bool

    function State(): Flags
      reads this
    {
      Flags(isLoaded, hasError, showPlayButton)
    }

    constructor(autoplay: bool)
      ensures this.autoplay == autoplay
      ensures State() == InitialFlags(autoplay) && Consistent(State())
    {
      this.autoplay := autoplay;
      isLoaded := false;
      hasError := false;
      showPlayButton := !autoplay;
    }

    /** `handleIframeLoad`. */
    method OnLoad()
      modifies this
      ensures State() == Step(old(State()), Load)
      ensures Consistent(State())
    {
      isLoaded := true;
      showPlayButton := false;
    }

    /** `handleIframeError`. */
    method OnError()
      modifies this
      ensures State() == Step(old(State()), Error)
      ensures old(Consistent(State())) ==> Consistent(State())
    {
      hasError := true;
    }

    /** `handlePlayClick`. */
    method OnPlayClick()
      modifies this
      ensures State() == Step(old(State()), PlayClick)
      ensures old(Consistent(State())) ==> Consistent(State())
    {
      showPlayButton := false;
    }
  }

  // ---------------------------------------------------------------- properties

  /** Every handler keeps a loaded player's play button hidden. */
  lemma {:induction false} RunConsistent(f: Flags, events: seq<Event>)
    requires Consistent(f)
    ensures Consistent(Run(f, events))
    decreases |events|
  {
    if events != [] {
      RunConsistent(Step(f, events[0]), events[1..]);
    }
  }

  /** After any events: the player has an error iff it had one or an error event came; it is
      loaded iff it was or a load came; the play button shows iff it did and neither a load nor
      a click came. Nothing ever clears an error. */
  lemma {:induction false} RunFlags(f: Flags, events: seq<Event>)
    ensures Run(f, events).hasError <==> f.hasError || Error in events
    ensures Run(f, events).isLoaded <==> f.isLoaded || Load in events
    ensures Run(f, events).showPlayButton <==> f.showPlayButton && Load !in events && PlayClick !in events
    decreases |events|
  {
    if events != [] {
      RunFlags(Step(f, events[0]), events[1..]);
      assert events == [events[0]] + events[1..];
      assert forall e :: e in events <==> e == events[0] || e in events[1..];
    }
  }

  /** From a fresh player: the play button is up at first exactly when autoplay is off, and
      stays up until the video loads or the button is clicked. */
  lemma FromStart(autoplay: bool, events: seq<Event>)
    ensures var f := Run(InitialFlags(autoplay), events);
      && (f.hasError <==> Error in events)
      && (f.isLoaded <==> Load in events)
      && (f.showPlayButton <==> !autoplay && Load !in events && PlayClick !in events)
      && Consistent(f)
  {
    RunFlags(InitialFlags(autoplay), events);
    RunConsistent(InitialFlags(autoplay), events);
  }

  /** Which parts are on screen: the error panel replaces both the overlay and the iframe, and
      the overlay leaves once the video loads. */
  lemma Visibility(embedUrl: string, f: Flags)
    ensures ErrorPanelVisible(f) ==> !OverlayVisible(f) && !IframeMounted(embedUrl, f)
    ensures !ErrorPanelVisible(f) && embedUrl != "" ==> IframeMounted(embedUrl, f)
    ensures f.isLoaded ==> !OverlayVisible(f) && !PlayButtonVisible(f)
  {
  }

  /** An empty source gives an empty embed URL and no iframe. */
  lemma EmptySource(autoplay: bool, muted: bool, controls: bool, f: Flags)
    ensures FormatVideoUrl("", autoplay, muted, controls) == ""
    ensures !IframeMounted(FormatVideoUrl("", autoplay, muted, controls), f)
  {
  }

  /** A URL that is not a watch URL is used as it is. */
  lemma NonWatchUrlKept(url: string, autoplay: bool, muted: bool, controls: bool)
    requires !Contains(url, WatchMarker)
    ensures FormatVideoUrl(url, autoplay, muted, controls) == url
  {
  }

  /** The parameter string is empty exactly for the default options (autoplay off, sound on,
      controls shown), and otherwise starts with `?`. */
  lemma ParamStringEmpty(autoplay: bool, muted: bool, controls: bool)
    ensures ParamString(autoplay, muted, controls) == "" <==> !autoplay && !muted && controls
    ensures ParamString(autoplay, muted, controls) != "" ==> ParamString(autoplay, muted, controls)[0] == '?'
  {
  }

  /** All three parameters, in the order autoplay, mute, controls. */
  lemma ParamStringAll()
    ensures ParamString(true, true, false) == "?autoplay=1" + "&mute=1" + "&controls=0"
  {
    assert PlayerParams(true, true, false) == ["autoplay=1", "mute=1", "controls=0"];
    JoinThree("autoplay=1", "mute=1", "controls=0", "&");
    Regroup("?", "autoplay=1", "&", "mute=1", "controls=0");
    assert "?" + "autoplay=1" == "?autoplay=1";
    assert "&" + "mute=1" == "&mute=1";
    assert "&" + "controls=0" == "&controls=0";
  }

  /** A query string glued part by part reads as each parameter with its leading separator. */
  lemma Regroup(q: string, a: string, sep: string, b: string, c: string)
    ensures q + (a + sep + (b + sep + c)) == (q + a) + (sep + b) + (sep + c)
  {
  }

  /** Autoplay and hidden controls, without the mute parameter between them. */
  lemma ParamStringSkipsMute()
    ensures ParamString(true, false, false) == "?autoplay=1&controls=0"
  {
    assert PlayerParams(true, false, false) == ["autoplay=1", "controls=0"];
  }

  /** `id` is the video id `tail` starts with: a prefix of it free of `&` and `v=`, followed by
      the end of the text, an `&` or a `v=`. */
  predicate IdCut(tail: string, id: string)
  {
    && |id| <= |tail| && id == tail[..|id|]
    && !Contains(id, "&") && !Contains(id, "v=")
    && (|id| == |tail| || OccursAt(tail, "&", |id|) || OccursAt(tail, "v=", |id|))
  }

  /** A text starts with at most one such id: the cut is the first `&` or `v=`. */
  lemma IdCutUnique(tail: string, a: string, b: string)
    requires IdCut(tail, a) && IdCut(tail, b)
    ensures a == b
  {
    if |a| <= |b| {
      IdCutLength(tail, a, b);
    } else {
      IdCutLength(tail, b, a);
    }
  }

  /** Of two ids cut from one text, the shorter is as long as the longer. */
  lemma IdCutLength(tail: string, a: string, b: string)
    requires IdCut(tail, a) && IdCut(tail, b) && |a| <= |b|
    ensures |a| == |b|
  {
    if |a| < |b| {
      assert b[..|a|] == a;
      if OccursAt(tail, "&", |a|) {
        assert b[|a|..|a| + 1] == tail[|a|..|a| + 1];
        OccursContains(b, "&", |a|);
      } else if |a| + 2 <= |b| {
        assert b[|a|..|a| + 2] == tail[|a|..|a| + 2];
        OccursContains(b, "v=", |a|);
      } else {
        VAfter(tail, |a|);
        assert false;
      }
    }
  }

  /** Right after a `v=` comes its `=`, which starts neither an `&` nor a `v=`. */
  lemma VAfter(tail: string, k: nat)
    requires OccursAt(tail, "v=", k)
    ensures !OccursAt(tail, "&", k + 1) && !OccursAt(tail, "v=", k + 1) && k + 1 < |tail|
  {
    assert tail[k + 1] == tail[k..k + 2][1];
  }

  /** A watch URL is rewritten to the embed base, then the video id that follows its first
      `v=` (cut at the next `&` or `v=`), then the parameters. */
  lemma WatchUrlEmbed(url: string, autoplay: bool, muted: bool, controls: bool)
    requires Contains(url, WatchMarker)
    ensures Contains(url, "v=")
    ensures var tail := url[IndexOf(url, "v=").value + 2..];
      exists id :: IdCut(tail, id) &&
        FormatVideoUrl(url, autoplay, muted, controls) == EmbedBase + id + ParamString(autoplay, muted, controls)
  {
    MarkerHoldsV(url);
    var tail := url[IndexOf(url, "v=").value + 2..];
    var second := SecondField(url, "v=");
    var id := FirstField(second, "&");
    FirstFieldPrefix(tail, "v=");
    FirstFieldPrefix(second, "&");
    FirstFieldKeeps(second, "&", "v=");
    assert second == FirstField(tail, "v=");
    CutOfFields(tail, second, id);
    assert FormatVideoUrl(url, autoplay, muted, controls) == EmbedBase + id + ParamString(autoplay, muted, controls);
  }

  /** The `&`-field of the `v=`-field of a text is the id it starts with. */
  lemma CutOfFields(tail: string, second: string, id: string)
    requires |second| <= |tail| && second == tail[..|second|] && !Contains(second, "v=")
    requires |second| < |tail| ==> OccursAt(tail, "v=", |second|)
    requires |id| <= |second| && id == second[..|id|] && !Contains(id, "&") && !Contains(id, "v=")
    requires |id| < |second| ==> OccursAt(second, "&", |id|)
    ensures IdCut(tail, id)
  {
    assert id == tail[..|id|];
    if |id| < |second| {
      assert tail[|id|..|id| + 1] == second[|id|..|id| + 1];
      assert OccursAt(tail, "&", |id|);
    }
  }

  /** A text holding the watch marker holds `v=`, at the marker's end. */
  lemma MarkerHoldsV(url: string)
    requires Contains(url, WatchMarker)
    ensures Contains(url, "v=")
  {
    var i := IndexOf(url, WatchMarker).value;
    IndexOfFirst(url, WatchMarker);
    assert url[i + 18..i + 20] == url[i..i + 20][18..20];
    OccursContains(url, "v=", i + 18);
  }

  /** The first field of a text without `pat` has no `pat` either. */
  lemma FirstFieldKeeps(s: string, sep: string, pat: string)
    requires |sep| > 0 && !Contains(s, pat)
    ensures !Contains(FirstField(s, sep), pat)
  {
    var r := FirstField(s, sep);
    FirstFieldPrefix(s, sep);
    NotContains(s, pat);
    forall j: nat ensures !OccursAt(r, pat, j) {
      if j + |pat| <= |r| {
        assert r[j..j + |pat|] == s[j..j + |pat|];
        assert !OccursAt(s, pat, j);
      }
    }
    NoOccurrence(r, pat);
  }

  /** The canonical watch URL of a video id is rewritten to the embed URL of the same id. */
  lemma CanonicalWatchUrl(id: string, autoplay: bool, muted: bool, controls: bool)
    requires !Contains(id, "&") && !Contains(id, "v=")
    ensures FormatVideoUrl("https://www.youtube.com/watch?v=" + id, autoplay, muted, controls)
         == EmbedBase + id + ParamString(autoplay, muted, controls)
  {
    var host, p := "https://www.", "https://www.youtube.com/watch?";
    WatchUrlSplits(id);
    SliceMiddle(host, WatchMarker, id);
    WatchPrefixFree();
    FirstOccurrenceAfter(p, "v=", id);
    WatchUrlRewrite(p, id, |host|, autoplay, muted, controls);
  }

  /** The canonical watch URL read as prefix, `v=` and id, and as host, marker and id. */
  lemma WatchUrlSplits(id: string)
    ensures "https://www.youtube.com/watch?v=" + id == "https://www.youtube.com/watch?" + "v=" + id
    ensures "https://www.youtube.com/watch?v=" + id == "https://www." + WatchMarker + id
  {
    assert "https://www.youtube.com/watch?v=" == "https://www.youtube.com/watch?" + "v=";
    assert "https://www.youtube.com/watch?v=" == "https://www." + WatchMarker;
  }

  /** No `=` comes before the `v=` of the canonical watch URL. */
  lemma WatchPrefixFree()
    ensures '=' !in "https://www.youtube.com/watch?"
  {
  }

  /** A URL that holds the watch marker and whose first `v=` is followed by the id alone is
      rewritten to the embed URL of that id. */
  lemma WatchUrlRewrite(p: string, id: string, k: nat, autoplay: bool, muted: bool, controls: bool)
    requires OccursAt(p + "v=" + id, WatchMarker, k) && IndexOf(p + "v=" + id, "v=") == Some(|p|)
    requires !Contains(id, "&") && !Contains(id, "v=")
    ensures FormatVideoUrl(p + "v=" + id, autoplay, muted, controls) == EmbedBase + id + ParamString(autoplay, muted, controls)
  {
    var url := p + "v=" + id;
    OccursContains(url, WatchMarker, k);
    assert url[|p| + 2..] == id;
    SecondFieldAt(url, "v=", |p|, id);
    FirstFieldWithout(id, "&");
  }

  /** The middle part of a concatenation sits right after the first part. */
  lemma SliceMiddle(a: string, w: string, b: string)
    ensures OccursAt(a + w + b, w, |a|)
  {
    assert (a + w + b)[|a|..|a| + |w|] == w;
  }

  /** `v=` first occurs right after a prefix that has no `=` in it. */
  lemma FirstOccurrenceAfter(p: string, pat: string, rest: string)
    requires pat == "v="
    requires '=' !in p
    ensures IndexOf(p + pat + rest, pat) == Some(|p|)
  {
    var s := p + pat + rest;
    assert OccursAt(s, pat, |p|) by {
      assert s[|p|..|p| + 2] == pat;
    }
    OccursContains(s, pat, |p|);
    IndexOfFirst(s, pat);
    forall j: nat | j < |p| ensures !OccursAt(s, pat, j) {
      assert s[j..j + 2][1] == s[j + 1];
      if j + 1 < |p| {
        assert s[j + 1] == p[j + 1] && p[j + 1] in p;
      } else {
        assert s[j + 1] == pat[0];
      }
    }
  }
}
