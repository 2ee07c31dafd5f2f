/** The normalisation helpers of src/lib/utils/utils.ts: category table, ISO 8601 durations,
    view counts, relative upload dates and the two identifier shapes. */
module Utils {
  import opened Wrappers
  import opened Text
  import opened VideoTypes

  // ---------------------------------------------------------------- categories

  /** The category ids and names, in the order the table lists them. */
  const CategoryTable: seq<(nat, string)> := [
    (1, "Film & Animation"), (2, "Autos & Vehicles"), (10, "Music"), (15, "Pets & Animals"),
    (17, "Sports"), (18, "Short Movies"), (19, "Travel & Events"), (20, "Gaming"),
    (21, "Videoblogging"), (22, "People & Blogs"), (23, "Comedy"), (24, "Entertainment"),
    (25, "News & Politics"), (26, "Howto & Style"), (27, "Education"),
    (28, "Science & Technology"), (29, "Nonprofits & Activism"), (30, "Movies") ]

  /** `getCategories`: the fixed table of video categories, one single-entry map per category. */
  function GetCategories(): (r: seq<map<nat, string>>)
    ensures |r| == 18
    ensures r[0] == map[1 := "Film & Animation"] && r[2] == map[10 := "Music"]
    ensures forall i | 0 <= i < |r| :: |r[i]| == 1 && r[i] == map[CategoryTable[i].0 := CategoryTable[i].1]
  {
    seq(|CategoryTable|, i requires 0 <= i < |CategoryTable| => map[CategoryTable[i].0 := CategoryTable[i].1])
  }

  // ---------------------------------------------------------------- durations

  /** One optional group `(\d+U)?` of the duration pattern, tried at the start of `s`: the value
      of its digits and the text after the unit letter, or no value and `s` itself. A greedy
      `\d+` never needs to backtrack here, since a unit letter is not a digit. */
  function MatchUnit(s: string, unit: char): (Option<nat>, string)
  {
    var k := DigitRun(s);
    if 0 < k < |s| && s[k] == unit then (Some(ParseNat(s[..k])), s[k + 1..]) else (None, s)
  }

  /** `YTDurationToSeconds`: the first match of `PT(\d+H)?(\d+M)?(\d+S)?` anywhere in the text,
      with absent groups counting zero; absent or empty input, or no `PT`, gives 0. */
  function YTDurationToSeconds(duration: Option<string>): nat
  {
    if duration.None? || duration.value == "" then 0
    else match IndexOf(duration.value, "PT")
      case None => 0
      case Some(i) => GroupSeconds(duration.value[i + 2..])
  }

  /** The three optional groups matched, in order, right after `PT`, and their total in seconds. */
  function GroupSeconds(rest: string): nat
  {
    var (h, afterH) := MatchUnit(rest, 'H');
    var (m, afterM) := MatchUnit(afterH, 'M');
    var (s, _) := MatchUnit(afterM, 'S');
    OrZero(h) * 3600 + OrZero(m) * 60 + OrZero(s)
  }

  /** One component of an ISO 8601 duration: its digits and unit letter, or nothing. */
  function UnitText(v: Option<nat>, unit: char): string
  {
    if v.Some? then NatToString(v.value) + [unit] else ""
  }

  /** The duration text `PT[<h>H][<m>M][<s>S]` with the given components present. */
  function IsoDuration(h: Option<nat>, m: Option<nat>, s: Option<nat>): string
  {
    "PT" + IsoUnits(h, m, s)
  }

  /** The components of a duration text after `PT`, in h, m, s order. */
  function IsoUnits(h: Option<nat>, m: Option<nat>, s: Option<nat>): string
  {
    UnitText(h, 'H') + (UnitText(m, 'M') + UnitText(s, 'S'))
  }

  lemma MatchUnitHit(v: nat, unit: char, t: string)
    requires !IsDigit(unit)
    ensures MatchUnit(NatToString(v) + [unit] + t, unit) == (Some(v), t)
  {
    var d := NatToString(v);
    var s := d + [unit] + t;
    assert s == d + ([unit] + t);
    DigitRunOf(d, [unit] + t);
    assert s[..|d|] == d && s[|d| + 1..] == t;
    ParseNatToString(v);
  }

  lemma MatchUnitMiss(v: nat, other: char, t: string, unit: char)
    requires !IsDigit(other) && other != unit
    ensures MatchUnit(NatToString(v) + [other] + t, unit) == (None, NatToString(v) + [other] + t)
  {
    var d := NatToString(v);
    assert d + [other] + t == d + ([other] + t);
    DigitRunOf(d, [other] + t);
  }

  /** A text that is empty or starts with a group of another unit holds no group of `unit`. */
  lemma MatchUnitAbsent(rest: string, unit: char, v: Option<nat>, other: char, t: string)
    requires !IsDigit(other) && other != unit
    requires rest == UnitText(v, other) + t
    requires v.None? ==> t == ""
    ensures MatchUnit(rest, unit) == (None, rest)
  {
    if v.Some? {
      assert rest == NatToString(v.value) + [other] + t;
      MatchUnitMiss(v.value, other, t, unit);
    }
  }

  /** The hour group takes exactly the hour component, whichever components follow. */
  lemma MatchHours(h: Option<nat>, m: Option<nat>, s: Option<nat>)
    ensures MatchUnit(IsoUnits(h, m, s), 'H')
         == (h, UnitText(m, 'M') + UnitText(s, 'S'))
  {
    if h.Some? {
      HoursGroup(h.value, UnitText(m, 'M') + UnitText(s, 'S'));
    } else {
      assert IsoUnits(h, m, s) == UnitText(m, 'M') + UnitText(s, 'S');
      NoHours(m, s);
    }
  }

  /** An hour group at the front is taken, leaving the rest. */
  lemma HoursGroup(v: nat, rest: string)
    ensures MatchUnit(UnitText(Some(v), 'H') + rest, 'H') == (Some(v), rest)
  {
    assert UnitText(Some(v), 'H') + rest == NatToString(v) + ['H'] + rest;
    MatchUnitHit(v, 'H', rest);
  }

  /** Without an hour component the text holds no hour group. */
  lemma NoHours(m: Option<nat>, s: Option<nat>)
    ensures MatchUnit(UnitText(m, 'M') + UnitText(s, 'S'), 'H') == (None, UnitText(m, 'M') + UnitText(s, 'S'))
  {
    var rest := UnitText(m, 'M') + UnitText(s, 'S');
    if m.Some? {
      MatchUnitAbsent(rest, 'H', m, 'M', UnitText(s, 'S'));
    } else {
      assert rest == UnitText(s, 'S') + "";
      MatchUnitAbsent(rest, 'H', s, 'S', "");
    }
  }

  lemma MatchMinutes(m: Option<nat>, s: Option<nat>)
    ensures MatchUnit(UnitText(m, 'M') + UnitText(s, 'S'), 'M') == (m, UnitText(s, 'S'))
  {
    if m.Some? {
      MatchUnitHit(m.value, 'M', UnitText(s, 'S'));
    } else {
      assert UnitText(m, 'M') + UnitText(s, 'S') == UnitText(s, 'S');
      if s.Some? {
        assert UnitText(s, 'S') == NatToString(s.value) + ['S'] + "";
        MatchUnitMiss(s.value, 'S', "", 'M');
      }
    }
  }

  lemma MatchSeconds(s: Option<nat>)
    ensures MatchUnit(UnitText(s, 'S'), 'S') == (s, "")
  {
    if s.Some? {
      assert UnitText(s, 'S') == NatToString(s.value) + ['S'] + "";
      MatchUnitHit(s.value, 'S', "");
    }
  }

  /** Every well-formed duration text parses to its components' total, with each absent
      component contributing nothing. */
  lemma {:induction false} IsoDurationSeconds(h: Option<nat>, m: Option<nat>, s: Option<nat>)
    ensures YTDurationToSeconds(Some(IsoDuration(h, m, s))) == OrZero(h) * 3600 + OrZero(m) * 60 + OrZero(s)
  {
    PrefixFound("PT", IsoUnits(h, m, s));
    GroupSecondsOf(h, m, s);
  }

  /** The groups after `PT` take exactly the components written there. */
  lemma GroupSecondsOf(h: Option<nat>, m: Option<nat>, s: Option<nat>)
    ensures GroupSeconds(IsoUnits(h, m, s))
         == OrZero(h) * 3600 + OrZero(m) * 60 + OrZero(s)
  {
    MatchHours(h, m, s);
    MatchMinutes(m, s);
    MatchSeconds(s);
  }

  /** A text that starts with `pat` finds it first at position 0. */
  lemma PrefixFound(pat: string, rest: string)
    requires |pat| > 0
    ensures IndexOf(pat + rest, pat) == Some(0)
    ensures (pat + rest)[|pat|..] == rest
  {
    assert (pat + rest)[..|pat|] == pat;
  }

  /** Empty or absent input, and text without `PT`, count as no duration at all. */
  lemma YTDurationWithoutPattern(duration: Option<string>)
    requires duration.None? || duration.value == "" || !Contains(duration.value, "PT")
    ensures YTDurationToSeconds(duration) == 0
  {
  }

  /** Hours, minutes below 60 and seconds below 60 that add up to `seconds`. */
  function Hms(seconds: nat): (r: (nat, nat, nat))
    ensures r.1 < 60 && r.2 < 60
    ensures r.0 * 3600 + r.1 * 60 + r.2 == seconds
  {
    var hours := seconds / 3600;
    var minutes := (seconds % 3600) / 60;
    var remaining := seconds % 60;
    assert seconds % 3600 == minutes * 60 + remaining;
    (hours, minutes, remaining)
  }

  /** `formatDuration`: the non-zero units of the parsed duration in h, m, s order, joined by
      spaces, with the seconds shown whenever nothing else is. */
  function FormatDuration(duration: Option<string>): string
  {
    if duration.None? || duration.value == "" then "0s"
    else
      var (hours, minutes, remaining) := Hms(YTDurationToSeconds(duration));
      DurationLabel(hours, minutes, remaining)
  }

  /** The `parts` list of formatDuration, joined by single spaces. */
  function DurationLabel(hours: nat, minutes: nat, remaining: nat): string
  {
    Join(DurationParts(hours, minutes, remaining), " ")
  }

  /** `parts`: each unit that is above zero, in h, m, s order, and the seconds when it would
      otherwise be empty. */
  function DurationParts(hours: nat, minutes: nat, remaining: nat): seq<string>
  {
    var withHours := if hours > 0 then [NatToString(hours) + "h"] else [];
    var withMinutes := withHours + (if minutes > 0 then [NatToString(minutes) + "m"] else []);
    withMinutes + (if remaining > 0 || |withMinutes| == 0 then [NatToString(remaining) + "s"] else [])
  }

  /** A label read as an ISO 8601 duration: `"1h 2m 3s"` becomes `"PT1H2M3S"`. */
  function LabelToIso(shown: string): string
  {
    "PT" + IsoLetters(shown)
  }

  /** Drops spaces and upper-cases the unit letters h, m and s. */
  function IsoLetters(shown: string): string
  {
    if shown == [] then []
    else
      var c := shown[0];
      (if c == ' ' then [] else if c == 'h' then ['H'] else if c == 'm' then ['M'] else if c == 's' then ['S'] else [c])
      + IsoLetters(shown[1..])
  }

  lemma {:induction false} IsoLettersAppend(a: string, b: string)
    ensures IsoLetters(a + b) == IsoLetters(a) + IsoLetters(b)
  {
    if a == [] {
      assert a + b == b;
    } else {
      assert (a + b)[0] == a[0] && (a + b)[1..] == a[1..] + b;
      IsoLettersAppend(a[1..], b);
    }
  }

  lemma {:induction false} IsoLettersDigits(d: string)
    requires AllDigits(d)
    ensures IsoLetters(d) == d
  {
    if d != [] {
      IsoLettersDigits(d[1..]);
    }
  }

  lemma IsoLettersUnit(v: nat, lower: char, upper: char)
    requires (lower, upper) in {('h', 'H'), ('m', 'M'), ('s', 'S')}
    ensures IsoLetters(NatToString(v) + [lower]) == NatToString(v) + [upper]
  {
    IsoLettersAppend(NatToString(v), [lower]);
    IsoLettersDigits(NatToString(v));
  }

  /** The letters of each part, run together. */
  function ConcatIso(parts: seq<string>): string
  {
    if parts == [] then "" else IsoLetters(parts[0]) + ConcatIso(parts[1..])
  }

  lemma {:induction false} ConcatIsoAppend(a: seq<string>, b: seq<string>)
    ensures ConcatIso(a + b) == ConcatIso(a) + ConcatIso(b)
  {
    if a == [] {
      assert a + b == b;
    } else {
      assert (a + b)[0] == a[0] && (a + b)[1..] == a[1..] + b;
      ConcatIsoAppend(a[1..], b);
    }
  }

  /** Spaces between parts disappear when read as ISO 8601. */
  lemma {:induction false} IsoLettersJoin(parts: seq<string>)
    ensures IsoLetters(Join(parts, " ")) == ConcatIso(parts)
  {
    if |parts| == 1 {
      assert ConcatIso(parts) == IsoLetters(parts[0]) + ConcatIso([]);
    } else if |parts| >= 2 {
      var rest := Join(parts[1..], " ");
      IsoLettersAppend(parts[0] + " ", rest);
      IsoLettersAppend(parts[0], " ");
      IsoLettersJoin(parts[1..]);
    }
  }

  /** One unit part, `[<v><lower>]` or nothing, read as ISO 8601. */
  lemma UnitPartIso(show: bool, v: nat, lower: char, upper: char)
    requires (lower, upper) in {('h', 'H'), ('m', 'M'), ('s', 'S')}
    ensures ConcatIso(if show then [NatToString(v) + [lower]] else [])
         == UnitText(if show then Some(v) else None, upper)
  {
    if show {
      IsoLettersUnit(v, lower, upper);
      assert ConcatIso([NatToString(v) + [lower]]) == IsoLetters(NatToString(v) + [lower]) + ConcatIso([]);
    }
  }

  /** Which of h, m, s a duration label shows. */
  function ShownUnits(hours: nat, minutes: nat, remaining: nat): (Option<nat>, Option<nat>, Option<nat>)
  {
    (if hours > 0 then Some(hours) else None,
     if minutes > 0 then Some(minutes) else None,
     if remaining > 0 || (hours == 0 && minutes == 0) then Some(remaining) else None)
  }

  /** The parts of h, m, s, with their letters upper-cased, are the shown ISO components. */
  lemma DurationPartsIso(hours: nat, minutes: nat, remaining: nat)
    ensures var (oh, om, os) := ShownUnits(hours, minutes, remaining);
      ConcatIso(DurationParts(hours, minutes, remaining)) == IsoUnits(oh, om, os)
  {
    var ph := if hours > 0 then [NatToString(hours) + "h"] else [];
    var pm := if minutes > 0 then [NatToString(minutes) + "m"] else [];
    var showS := remaining > 0 || |ph + pm| == 0;
    var ps := if showS then [NatToString(remaining) + "s"] else [];
    assert DurationParts(hours, minutes, remaining) == ph + (pm + ps);
    ConcatIsoAppend(ph, pm + ps);
    ConcatIsoAppend(pm, ps);
    UnitPartIso(hours > 0, hours, 'h', 'H');
    UnitPartIso(minutes > 0, minutes, 'm', 'M');
    UnitPartIso(showS, remaining, 's', 'S');
  }

  /** One shown unit as a label part: the number and the lower-case unit letter. */
  function UnitPart(v: Option<nat>, unit: char): seq<string>
  {
    if v.Some? then [NatToString(v.value) + [unit]] else []
  }

  /** The label of h, m, s splits at single spaces into the shown units, each a number and a
      lower-case letter, in h, m, s order; read as ISO 8601 it has exactly those components. */
  lemma DurationLabelIso(hours: nat, minutes: nat, remaining: nat)
    ensures var (oh, om, os) := ShownUnits(hours, minutes, remaining);
      Split(DurationLabel(hours, minutes, remaining), ' ') == UnitPart(oh, 'h') + UnitPart(om, 'm') + UnitPart(os, 's')
    ensures var (oh, om, os) := ShownUnits(hours, minutes, remaining);
      LabelToIso(DurationLabel(hours, minutes, remaining)) == IsoDuration(oh, om, os)
  {
    var (oh, om, os) := ShownUnits(hours, minutes, remaining);
    DurationLabelSplits(hours, minutes, remaining);
    IsoLettersJoin(DurationParts(hours, minutes, remaining));
    DurationPartsIso(hours, minutes, remaining);
  }

  /** The parts are the shown units, none holding a space, so the label splits back into them. */
  lemma DurationLabelSplits(hours: nat, minutes: nat, remaining: nat)
    ensures var (oh, om, os) := ShownUnits(hours, minutes, remaining);
      Split(DurationLabel(hours, minutes, remaining), ' ') == UnitPart(oh, 'h') + UnitPart(om, 'm') + UnitPart(os, 's')
  {
    var (oh, om, os) := ShownUnits(hours, minutes, remaining);
    var ph, pm, ps := UnitPart(oh, 'h'), UnitPart(om, 'm'), UnitPart(os, 's');
    var parts := DurationParts(hours, minutes, remaining);
    assert parts == ph + pm + ps;
    UnitPartSpaceless(oh, 'h');
    UnitPartSpaceless(om, 'm');
    UnitPartSpaceless(os, 's');
    assert forall i | 0 <= i < |parts| :: parts[i] in ph || parts[i] in pm || parts[i] in ps;
    SplitJoin(parts, ' ');
  }

  /** A unit part holds no space. */
  lemma UnitPartSpaceless(v: Option<nat>, unit: char)
    requires unit != ' '
    ensures forall p | p in UnitPart(v, unit) :: ' ' !in p
  {
    if v.Some? {
      var d := NatToString(v.value);
      assert forall k | 0 <= k < |d| :: IsDigit(d[k]);
      assert ' ' !in d + [unit];
    }
  }

  /** Reading a duration label back as ISO 8601 recovers the seconds it was made from. */
  lemma FormatDurationReparses(duration: string)
    ensures YTDurationToSeconds(Some(LabelToIso(FormatDuration(Some(duration)))))
         == YTDurationToSeconds(Some(duration))
  {
    if duration == "" {
      assert LabelToIso("0s") == IsoDuration(None, None, Some(0));
      IsoDurationSeconds(None, None, Some(0));
    } else {
      var (hours, minutes, remaining) := Hms(YTDurationToSeconds(Some(duration)));
      var (oh, om, os) := ShownUnits(hours, minutes, remaining);
      DurationLabelIso(hours, minutes, remaining);
      IsoDurationSeconds(oh, om, os);
    }
  }

  /** A duration label is never empty. */
  lemma FormatDurationNonEmpty(duration: Option<string>)
    ensures |FormatDuration(duration)| > 0
    ensures duration.None? || duration == Some("") ==> FormatDuration(duration) == "0s"
  {
    if duration.Some? && duration.value != "" {
      var (hours, minutes, remaining) := Hms(YTDurationToSeconds(duration));
      var parts := DurationParts(hours, minutes, remaining);
      assert |parts| > 0 && |parts[0]| > 0;
      if |parts| > 1 {
        assert Join(parts, " ") == parts[0] + " " + Join(parts[1..], " ");
      }
    }
  }

  /** `"PT1H2M3S"` is 3723 seconds. */
  lemma DurationExampleFull()
    ensures YTDurationToSeconds(Some("PT1H2M3S")) == 3723
  {
    assert "PT1H2M3S" == IsoDuration(Some(1), Some(2), Some(3));
    IsoDurationSeconds(Some(1), Some(2), Some(3));
  }

  /** `"PT15M30S"` is 930 seconds: an absent hours group counts as zero. */
  lemma DurationExampleNoHours()
    ensures YTDurationToSeconds(Some("PT15M30S")) == 930
  {
    assert "PT15M30S" == IsoDuration(None, Some(15), Some(30));
    IsoDurationSeconds(None, Some(15), Some(30));
  }

  /** `"PT10H"` is 36000 seconds: absent minutes and seconds count as zero. */
  lemma DurationExampleHoursOnly()
    ensures YTDurationToSeconds(Some("PT10H")) == 36000
  {
    assert "PT10H" == IsoDuration(Some(10), None, None);
    IsoDurationSeconds(Some(10), None, None);
  }

  /** `"PT1H2M3S"` is shown as `"1h 2m 3s"`. */
  lemma DurationLabelExampleFull()
    ensures FormatDuration(Some("PT1H2M3S")) == "1h 2m 3s"
  {
    DurationExampleFull();
    LabelOfSeconds(3723, 1, 2, 3);
    LabelFull();
  }

  /** `"PT1H3S"` is shown as `"1h 3s"`: a zero minutes part is skipped. */
  lemma DurationLabelExampleNoMinutes()
    ensures FormatDuration(Some("PT1H3S")) == "1h 3s"
  {
    assert "PT1H3S" == IsoDuration(Some(1), None, Some(3));
    IsoDurationSeconds(Some(1), None, Some(3));
    LabelOfSeconds(3603, 1, 0, 3);
    LabelNoMinutes();
  }

  /** The split into hours, minutes and seconds is unique. */
  lemma LabelOfSeconds(seconds: nat, h: nat, m: nat, r: nat)
    requires m < 60 && r < 60 && seconds == h * 3600 + m * 60 + r
    ensures Hms(seconds) == (h, m, r)
  {
    DivUnique(seconds, 3600, h, m * 60 + r);
    DivUnique(m * 60 + r, 60, m, r);
    DivUnique(seconds, 60, h * 60 + m, r);
  }

  /** Quotient and remainder are the only ones of their kind. */
  lemma DivUnique(x: nat, d: nat, q: nat, r: nat)
    requires 0 <= r < d && x == q * d + r
    ensures x / d == q && x % d == r
  {
    StepApart(x / d, q, d);
    StepApart(q, x / d, d);
  }

  /** Three non-zero units are all shown. */
  lemma LabelFull()
    ensures DurationLabel(1, 2, 3) == "1h 2m 3s"
  {
    assert NatToString(1) + "h" == "1h" && NatToString(2) + "m" == "2m" && NatToString(3) + "s" == "3s";
    assert DurationParts(1, 2, 3) == ["1h", "2m", "3s"];
  }

  /** A zero minutes part is left out of the label. */
  lemma LabelNoMinutes()
    ensures DurationLabel(1, 0, 3) == "1h 3s"
  {
    assert NatToString(1) + "h" == "1h" && NatToString(3) + "s" == "3s";
    assert DurationParts(1, 0, 3) == ["1h", "3s"];
  }

  /** `"PT0S"` is shown as `"0s"`: with no other part, zero seconds are kept. */
  lemma DurationLabelExampleZero()
    ensures FormatDuration(Some("PT0S")) == "0s"
  {
    DurationExampleZero();
    LabelZero();
    assert Hms(0) == (0, 0, 0);
  }

  /** `"PT0S"` is 0 seconds. */
  lemma DurationExampleZero()
    ensures YTDurationToSeconds(Some("PT0S")) == 0
  {
    assert "PT0S" == IsoDuration(None, None, Some(0));
    IsoDurationSeconds(None, None, Some(0));
  }

  /** Zero hours, minutes and seconds are shown as `"0s"`. */
  lemma LabelZero()
    ensures DurationLabel(0, 0, 0) == "0s"
  {
    assert NatToString(0) + "s" == "0s";
    assert DurationParts(0, 0, 0) == ["0s"];
  }

  // ---------------------------------------------------------------- view counts

  /** `(views / scale).toFixed(1)`, on exact integers: the quotient in tenths, ties rounded up. */
  function Fixed1(views: nat, scale: nat): string
    requires scale > 0
  {
    var tenths := (views * 10 + scale / 2) / scale;
    NatToString(tenths / 10) + "." + NatToString(tenths % 10)
  }

  /** `formatViews`: "0", the plain count below a thousand, else thousands or millions to one
      decimal place with a `K` or `M` suffix. */
  function FormatViews(views: nat): string
  {
    if views == 0 then "0"
    else if views >= 1000000 then Fixed1(views, 1000000) + "M"
    else if views >= 1000 then Fixed1(views, 1000) + "K"
    else NatToString(views)
  }

  /** The count a view label stands for: `"5.5K"` is 5500, `"999"` is 999; None if the text is
      not a view label. */
  function ViewsValue(shown: string): Option<nat>
  {
    if |shown| >= 1 && (shown[|shown| - 1] == 'K' || shown[|shown| - 1] == 'M') then
      var scale := if shown[|shown| - 1] == 'K' then 100 else 100000;
      match DecimalTenths(shown[..|shown| - 1])
      case Some(tenths) => Some(tenths * scale)
      case None => None
    else if |shown| > 0 && AllDigits(shown) then Some(ParseNat(shown))
    else None
  }

  /** A view-label suffix and the count one tenth of it stands for. */
  predicate ViewSuffix(suffix: char, unit: nat)
  {
    (suffix == 'K' && unit == 100) || (suffix == 'M' && unit == 100000)
  }

  /** The number of tenths `<whole>.<digit>` stands for; None if the text is not a run of digits,
      a point and one digit. */
  function DecimalTenths(number: string): Option<nat>
  {
    if |number| >= 3 && number[|number| - 2] == '.' && AllDigits(number[..|number| - 2]) && IsDigit(number[|number| - 1]) then
      Some(ParseNat(number[..|number| - 2]) * 10 + DigitValue(number[|number| - 1]))
    else None
  }

  /** Rounding to tenths of `scale` lands within half a tenth of the count. */
  lemma RoundedBounds(views: nat, scale: nat, unit: nat)
    requires (scale, unit) in {(1000, 100), (1000000, 100000)}
    ensures var shown := (views * 10 + scale / 2) / scale * unit;
      shown % unit == 0 && views < shown + unit / 2 && shown <= views + unit / 2
  {
    var t := (views * 10 + scale / 2) / scale;
    DivBracket(views * 10 + scale / 2, scale);
    MultipleOf(t, unit);
    if scale == 1000 {
      assert t * 1000 == t * 100 * 10;
    } else {
      assert t * 1000000 == t * 100000 * 10;
    }
  }

  /** A multiple of `unit` leaves no remainder. */
  lemma MultipleOf(t: nat, unit: nat)
    requires unit > 0
    ensures (t * unit) % unit == 0
  {
    DivUnique(t * unit, unit, t, 0);
  }

  /** A one-decimal label for `tenths` of a unit reads back as that many tenths. */
  lemma Fixed1Value(views: nat, scale: nat, suffix: char, unit: nat)
    requires scale > 0 && ViewSuffix(suffix, unit)
    ensures ViewsValue(Fixed1(views, scale) + [suffix]) == Some((views * 10 + scale / 2) / scale * unit)
  {
    var tenths := (views * 10 + scale / 2) / scale;
    var a, b := tenths / 10, tenths % 10;
    assert a * 10 + b == tenths;
    assert Fixed1(views, scale) == NatToString(a) + "." + NatToString(b);
    DecimalValue(a, b, suffix, unit);
  }

  /** `<a>.<b>` followed by a suffix reads back as a + b/10 of the suffix's scale. */
  lemma DecimalValue(a: nat, b: nat, suffix: char, unit: nat)
    requires b < 10 && ViewSuffix(suffix, unit)
    ensures ViewsValue(NatToString(a) + "." + NatToString(b) + [suffix]) == Some((a * 10 + b) * unit)
  {
    assert NatToString(b) == [DigitChar(b)];
    PrintedTenths(a, b);
    SuffixedValue(NatToString(a) + "." + [DigitChar(b)], suffix, a * 10 + b, unit);
  }

  /** `<a>.<b>` as printed stands for a * 10 + b tenths. */
  lemma PrintedTenths(a: nat, b: nat)
    requires b < 10
    ensures DecimalTenths(NatToString(a) + "." + [DigitChar(b)]) == Some(a * 10 + b)
  {
    ParseNatToString(a);
    DecimalTenthsOf(NatToString(a), DigitChar(b));
  }

  /** A `K` or `M` label reads back as its tenths times a hundred or a hundred thousand. */
  lemma SuffixedValue(number: string, suffix: char, tenths: nat, unit: nat)
    requires DecimalTenths(number) == Some(tenths)
    requires ViewSuffix(suffix, unit)
    ensures ViewsValue(number + [suffix]) == Some(tenths * unit)
  {
    var shown := number + [suffix];
    assert shown[..|shown| - 1] == number && shown[|shown| - 1] == suffix;
  }

  /** `<whole>.<digit>` stands for ten times the whole part plus the digit, in tenths. */
  lemma DecimalTenthsOf(whole: string, digit: char)
    requires 0 < |whole| && AllDigits(whole) && IsDigit(digit)
    ensures DecimalTenths(whole + "." + [digit]) == Some(ParseNat(whole) * 10 + DigitValue(digit))
  {
    TwoAfter(whole, ".", digit);
    DecimalTenthsAt(whole + "." + [digit], whole, digit);
  }

  /** A text made of digits, a point and one more digit stands for that many tenths. */
  lemma DecimalTenthsAt(number: string, whole: string, digit: char)
    requires 0 < |whole| && AllDigits(whole) && IsDigit(digit)
    requires |number| == |whole| + 2 && number[..|number| - 2] == whole
    requires number[|number| - 2] == '.' && number[|number| - 1] == digit
    ensures DecimalTenths(number) == Some(ParseNat(whole) * 10 + DigitValue(digit))
  {
  }

  /** A text followed by a one-character text and a character: its prefix and the two
      characters by position. */
  lemma TwoAfter(w: string, p: string, d: char)
    requires |p| == 1
    ensures var n := w + p + [d];
      |n| == |w| + 2 && n[..|n| - 2] == w && n[|n| - 2] == p[0] && n[|n| - 1] == d
  {
    var n := w + p + [d];
    assert n[..|n| - 2] == w;
  }

  /** A view label in thousands or millions reads back as a multiple of `unit` within half a
      `unit` of the count. */
  lemma ScaledViewsValue(views: nat, scale: nat, suffix: char, unit: nat)
    requires ViewSuffix(suffix, unit) && scale == 10 * unit
    ensures ViewsValue(Fixed1(views, scale) + [suffix]).Some?
    ensures var shown := ViewsValue(Fixed1(views, scale) + [suffix]).value;
      shown % unit == 0 && views < shown + unit / 2 && shown <= views + unit / 2
  {
    Fixed1Value(views, scale, suffix, unit);
    RoundedBounds(views, scale, unit);
  }

  /** A view label is the plain count in digits below a thousand, ends in `K` from a thousand
      to below a million and in `M` from a million on, and reads back as the count rounded to
      the precision it shows: exactly below a thousand, to the nearest hundred in thousands, to
      the nearest hundred thousand in millions (ties rounded up). */
  lemma FormatViewsValue(views: nat)
    ensures var text := FormatViews(views);
      && |text| >= 1
      && (views < 1000 ==> AllDigits(text))
      && (text[|text| - 1] == 'K' <==> 1000 <= views < 1000000)
      && (text[|text| - 1] == 'M' <==> 1000000 <= views)
    ensures ViewsValue(FormatViews(views)).Some?
    ensures var shown := ViewsValue(FormatViews(views)).value;
      && (views < 1000 ==> shown == views)
      && (1000 <= views < 1000000 ==> shown % 100 == 0 && views < shown + 50 && shown <= views + 50)
      && (1000000 <= views ==> shown % 100000 == 0 && views < shown + 50000 && shown <= views + 50000)
  {
    if views >= 1000000 {
      assert FormatViews(views) == Fixed1(views, 1000000) + ['M'];
      ScaledViewsValue(views, 1000000, 'M', 100000);
    } else if views >= 1000 {
      assert FormatViews(views) == Fixed1(views, 1000) + ['K'];
      ScaledViewsValue(views, 1000, 'K', 100);
    } else if views > 0 {
      SmallViewsValue(views);
    } else {
      assert FormatViews(views) == "0" == NatToString(0);
      ParseNatToString(0);
    }
  }

  /** Below a thousand the label is the plain count and reads back exactly. */
  lemma SmallViewsValue(views: nat)
    requires 0 < views < 1000
    ensures ViewsValue(FormatViews(views)) == Some(views)
  {
    var shown := NatToString(views);
    assert FormatViews(views) == shown;
    assert IsDigit(shown[|shown| - 1]);
    ParseNatToString(views);
  }

  /** A round count is shown without loss. */
  lemma FormatViewsExact(views: nat)
    requires views < 1000 || (views < 1000000 && views % 100 == 0) || views % 100000 == 0
    ensures ViewsValue(FormatViews(views)) == Some(views)
  {
    FormatViewsValue(views);
    RoundedIsExact(views, ViewsValue(FormatViews(views)).value);
  }

  /** A round count and its rounding to the precision of its range are the same. */
  lemma RoundedIsExact(views: nat, shown: nat)
    requires views < 1000 || (views < 1000000 && views % 100 == 0) || views % 100000 == 0
    requires views < 1000 ==> shown == views
    requires 1000 <= views < 1000000 ==> shown % 100 == 0 && views < shown + 50 && shown <= views + 50
    requires 1000000 <= views ==> shown % 100000 == 0 && views < shown + 50000 && shown <= views + 50000
    ensures shown == views
  {
    if 1000000 <= views {
      SameMultiple(shown, views, 100000);
    } else if 1000 <= views {
      SameMultiple(shown, views, 100);
    }
  }

  /** Two multiples of `u` less than `u` apart are equal. */
  lemma SameMultiple(a: nat, b: nat, u: nat)
    requires u > 0 && a % u == 0 && b % u == 0 && a < b + u && b < a + u
    ensures a == b
  {
    var q, r := a / u, b / u;
    assert a == q * u && b == r * u;
    StepApart(q, r, u);
    StepApart(r, q, u);
  }

  /** Consecutive multiples of `u` are at least `u` apart. */
  lemma StepApart(q: nat, r: nat, u: nat)
    ensures q < r ==> (q + 1) * u <= r * u
  {
    if q < r {
      assert r * u == (q + 1) * u + (r - q - 1) * u;
    }
  }

  /** 999 views are shown as `"999"`. */
  lemma ViewsExampleSmall()
    ensures FormatViews(999) == "999"
  {
  }

  /** 1000 views are shown as `"1.0K"`. */
  lemma ViewsExampleThousand()
    ensures FormatViews(1000) == "1.0K"
  {
  }

  /** 5500 views are shown as `"5.5K"`. */
  lemma ViewsExampleThousands()
    ensures FormatViews(5500) == "5.5K"
  {
  }

  /** 2500000 views are shown as `"2.5M"`. */
  lemma ViewsExampleMillions()
    ensures FormatViews(2500000) == "2.5M"
  {
  }

  /** 999999 views round up to `"1000.0K"`: the thousands branch never switches to millions. */
  lemma ViewsExampleRoundsUp()
    ensures FormatViews(999999) == "1000.0K"
  {
  }

  // ---------------------------------------------------------------- relative dates

  const MsPerDay: nat := 1000 * 60 * 60 * 24

  /** `Math.floor(Math.abs(now - date) / (1000 * 60 * 60 * 24))`: whole days between two instants,
      in either direction. */
  function ElapsedDays(nowMs: int, dateMs: int): (days: nat)
    ensures days * MsPerDay <= Abs(nowMs - dateMs) < (days + 1) * MsPerDay
  {
    Abs(nowMs - dateMs) / MsPerDay
  }

  function Abs(x: int): nat
  {
    if x < 0 then -x else x
  }

  /** `formatUploadDate` for an age in whole days. */
  function FormatUploadDate(days: nat): string
  {
    if days == 0 then "Today"
    else if days == 1 then "Yesterday"
    else if days < 7 then NatToString(days) + " days ago"
    else if days < 30 then NatToString(days / 7) + " weeks ago"
    else if days < 365 then NatToString(days / 30) + " months ago"
    else NatToString(days / 365) + " years ago"
  }

  predicate HasSuffix(s: string, suffix: string)
  {
    |suffix| <= |s| && s[|s| - |suffix|..] == suffix
  }

  /** The number a relative label starts with. */
  function AgoCount(shown: string): nat
  {
    ParseNat(shown[..DigitRun(shown)])
  }

  /** The days in the unit a relative label names, 0 if it names none. */
  function AgoSpan(shown: string): nat
  {
    if HasSuffix(shown, " days ago") then 1
    else if HasSuffix(shown, " weeks ago") then 7
    else if HasSuffix(shown, " months ago") then 30
    else if HasSuffix(shown, " years ago") then 365
    else 0
  }

  /** `<n><unit> ago` reads back as `n` and the unit. */
  lemma AgoReadsBack(n: nat, unit: string, span: nat)
    requires (unit, span) in {(" days ago", 1), (" weeks ago", 7), (" months ago", 30), (" years ago", 365)}
    ensures AgoCount(NatToString(n) + unit) == n && AgoSpan(NatToString(n) + unit) == span
  {
    var d := NatToString(n);
    CountBeforeUnit(n, unit);
    SuffixOf(d, unit);
    if span == 7 {
      NotSuffixShort(d, unit, " days ago");
    } else if span == 30 {
      NotSuffixShort(d, unit, " days ago");
      NotSuffixShort(d, unit, " weeks ago");
    } else if span == 365 {
      NotSuffixShort(d, unit, " days ago");
      NotSuffixShort(d, unit, " weeks ago");
      NotSuffixLong(d, unit, " months ago");
    }
  }

  /** The number in front of a unit that starts with a non-digit is read whole. */
  lemma CountBeforeUnit(n: nat, unit: string)
    requires |unit| > 0 && !IsDigit(unit[0])
    ensures AgoCount(NatToString(n) + unit) == n
    ensures DigitRun(NatToString(n) + unit) == |NatToString(n)|
  {
    var d := NatToString(n);
    DigitRunOf(d, unit);
    assert (d + unit)[..|d|] == d;
    ParseNatToString(n);
  }

  lemma SuffixOf(d: string, u: string)
    ensures HasSuffix(d + u, u)
  {
    assert (d + u)[|d + u| - |u|..] == u;
  }

  /** A text ending in `u` does not end in a `v` no longer than `u` that `u` does not end in. */
  lemma NotSuffixShort(d: string, u: string, v: string)
    requires |v| <= |u| && u[|u| - |v|..] != v
    ensures !HasSuffix(d + u, v)
  {
    assert (d + u)[|d + u| - |v|..] == u[|u| - |v|..];
  }

  /** A number followed by `u` does not end in a `v` one longer than `u` that starts with a
      non-digit. */
  lemma NotSuffixLong(d: string, u: string, v: string)
    requires |d| >= 1 && AllDigits(d) && |v| == |u| + 1 && !IsDigit(v[0])
    ensures !HasSuffix(d + u, v)
  {
    assert (d + u)[|d + u| - |v|..][0] == d[|d| - 1];
  }

  /** The days in the unit a label uses for an age of `days`, from two days on: days below a
      week, weeks below 30 days, months below a year, years after. */
  function AgeUnit(days: nat): nat
  {
    if days < 7 then 1 else if days < 30 then 7 else if days < 365 then 30 else 365
  }

  /** The words that follow the number for a unit of `span` days. */
  function AgoWords(span: nat): string
  {
    if span == 1 then " days ago" else if span == 7 then " weeks ago"
    else if span == 30 then " months ago" else " years ago"
  }

  /** `shown` states the age `days`: it is a number followed directly by the words of the unit
      the age's range calls for, and that number of units is the age rounded down. */
  predicate StatesAge(shown: string, days: nat)
  {
    var n, span := AgoCount(shown), AgoSpan(shown);
    && span == AgeUnit(days)
    && 1 <= DigitRun(shown) && |shown| == DigitRun(shown) + |AgoWords(span)|
    && n * span <= days < (n + 1) * span
  }

  /** An age under a day is "Today" and one day is "Yesterday"; from two days on, the label
      states the age in whole units, rounded down. */
  lemma UploadDateReadsBack(days: nat)
    ensures days == 0 ==> FormatUploadDate(days) == "Today"
    ensures days == 1 ==> FormatUploadDate(days) == "Yesterday"
    ensures days >= 2 ==> StatesAge(FormatUploadDate(days), days)
  {
    if days >= 2 {
      UploadDateLabel(days);
    }
  }

  lemma UploadDateLabel(days: nat)
    requires days >= 2
    ensures StatesAge(FormatUploadDate(days), days)
  {
    var span := AgeUnit(days);
    var unit := if days < 7 then " days ago" else if days < 30 then " weeks ago"
      else if days < 365 then " months ago" else " years ago";
    assert FormatUploadDate(days) == NatToString(days / span) + unit;
    LabelStatesAge(days, unit, span);
  }

  /** The count of whole units followed by the unit's name states the age. */
  lemma LabelStatesAge(days: nat, unit: string, span: nat)
    requires (unit, span) in {(" days ago", 1), (" weeks ago", 7), (" months ago", 30), (" years ago", 365)}
    requires span == AgeUnit(days)
    ensures StatesAge(NatToString(days / span) + unit, days)
  {
    AgoReadsBack(days / span, unit, span);
    CountBeforeUnit(days / span, unit);
    assert unit == AgoWords(span);
    DivBracket(days, span);
  }

  /** Whole units of `span` in `days`, rounded down, bracket `days`. */
  lemma DivBracket(days: nat, span: nat)
    requires span > 0
    ensures (days / span) * span <= days < (days / span + 1) * span
  {
  }

  /** Seven days are shown as `"1 weeks ago"`: the unit is never made singular. */
  lemma UploadDateExampleWeek()
    ensures FormatUploadDate(7) == "1 weeks ago"
  {
  }

  /** 730 days are shown as `"2 years ago"`. */
  lemma UploadDateExampleYears()
    ensures FormatUploadDate(730) == "2 years ago"
  {
  }

  // ---------------------------------------------------------------- identifiers

  /** `getVideoId`: a plain id is itself, an object gives its `videoId`, no id gives none. */
  function GetVideoId(id: Option<VideoId>): Option<string>
  {
    match id
    case None => None
    case Some(Str(s)) => Some(s)
    case Some(Obj(_, videoId)) => videoId
  }

  /** Both shapes of one video resolve to the same id; an object without `videoId` and a
      missing id resolve to none. */
  lemma GetVideoIdResolves(x: string, kind: string)
    ensures GetVideoId(Some(Str(x))) == GetVideoId(Some(Obj(kind, Some(x)))) == Some(x)
    ensures GetVideoId(Some(Obj(kind, None))) == GetVideoId(None) == None
  {
  }
}
