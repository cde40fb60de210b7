/** The logic of `app/components/TrackList.tsx`: which buckets are expanded,
    the colour of a Camelot badge, the bucket identifiers, the sections of
    the list (buckets grouped by band label) and the totals shown for them. */
module TrackList {

  import opened Strings
  import opened Collections
  import opened Types
  import opened Camelot
  import opened Bpm
  import opened Organizer

  // ---------------------------------------------------------------------------
  // Expanded buckets

  /** `toggleGroup(groupId)` on the set of expanded bucket identifiers. */
  function ToggleGroup(expanded: set<string>, id: string): (r: set<string>)
    ensures id in r <==> id !in expanded
    ensures r - {id} == expanded - {id}
  {
    if id in expanded then expanded - {id} else expanded + {id}
  }

  /** Toggling twice restores the expanded set. */
  lemma ToggleTwice(expanded: set<string>, id: string)
    ensures ToggleGroup(ToggleGroup(expanded, id), id) == expanded
  {
    var once := ToggleGroup(expanded, id);
    var twice := ToggleGroup(once, id);
    assert twice - {id} == expanded - {id};
    assert forall x :: x in twice <==> x in expanded by {
      assert id in twice <==> id in expanded;
    }
  }

  // ---------------------------------------------------------------------------
  // Bucket identifiers

  /** A number as a template literal prints it. */
  function IntToString(i: int): string {
    if i < 0 then "-" + NatToString(-i) else NatToString(i)
  }

  /** `${group.bpm}-${group.camelot}`. */
  function GroupId(g: OrganizedPlaylist): string {
    IntToString(g.bpm) + "-" + g.camelot
  }

  /** Different buckets with non-negative bounds get different identifiers:
      the bound's digits stop at the first hyphen. */
  lemma GroupIdInjective(a: OrganizedPlaylist, b: OrganizedPlaylist)
    requires a.bpm >= 0 && b.bpm >= 0
    requires GroupId(a) == GroupId(b)
    ensures a.bpm == b.bpm && a.camelot == b.camelot
  {
    var da, db := NatToString(a.bpm), NatToString(b.bpm);
    DigitsBeforeHyphen(da, a.camelot);
    DigitsBeforeHyphen(db, b.camelot);
    assert da == db;
    assert GroupId(a)[|da| + 1..] == a.camelot;
    assert GroupId(b)[|db| + 1..] == b.camelot;
  }

  lemma {:induction false} DigitsBeforeHyphen(d: string, rest: string)
    requires AllDigits(d)
    ensures BeforeFirst(d + "-" + rest, '-') == d
  {
    if |d| > 0 {
      assert (d + "-" + rest)[1..] == d[1..] + "-" + rest;
      DigitsBeforeHyphen(d[1..], rest);
      assert d == [d[0]] + d[1..];
    } else {
      assert (d + "-" + rest)[0] == '-';
    }
  }

  // ---------------------------------------------------------------------------
  // Badge colours

  /** The badge colours, keyed by the 24 codes of the conventional wheel. */
  const Colors: map<string, string> := map[
    "1A" := "bg-red-500", "2A" := "bg-orange-500", "3A" := "bg-yellow-500",
    "4A" := "bg-green-500", "5A" := "bg-blue-500", "6A" := "bg-indigo-500",
    "7A" := "bg-purple-500", "8A" := "bg-pink-500", "9A" := "bg-red-600",
    "10A" := "bg-orange-600", "11A" := "bg-yellow-600", "12A" := "bg-green-600",
    "1B" := "bg-red-400", "2B" := "bg-orange-400", "3B" := "bg-yellow-400",
    "4B" := "bg-green-400", "5B" := "bg-blue-400", "6B" := "bg-indigo-400",
    "7B" := "bg-purple-400", "8B" := "bg-pink-400", "9B" := "bg-red-500",
    "10B" := "bg-orange-500", "11B" := "bg-yellow-500", "12B" := "bg-green-500"
  ]

  const Gray := "bg-gray-500"

  /** `getCamelotColor(camelot)`: the badge colour, gray for anything that
      is not one of the 24 keys. */
  function CamelotColor(code: string): (color: string)
    ensures color == Gray <==> code !in Colors
  {
    if code in Colors then Colors[code] else Gray
  }

  /** The keys of the colour table are exactly the wheel codes. */
  lemma ColorKeysAreWheelCodes(code: string)
    ensures code in Colors <==> IsWheelCode(code)
  {
    WheelNumerals();
    if IsWheelCode(code) {
      var n :| 1 <= n <= 12 && (code == NatToString(n) + "A" || code == NatToString(n) + "B");
      if n <= 3 {
        WheelCodeColored1To3(n, code);
      } else if n <= 6 {
        WheelCodeColored4To6(n, code);
      } else if n <= 9 {
        WheelCodeColored7To9(n, code);
      } else {
        WheelCodeColored10To12(n, code);
      }
    }
    if code in Colors {
      ColoredIsWheelCode(code);
    }
  }

  lemma WheelCodeColored1To3(n: int, code: string)
    requires 1 <= n <= 3 && (code == NatToString(n) + "A" || code == NatToString(n) + "B")
    ensures code in Colors
  {
    WheelNumerals();
    if n == 1 {
      assert code == "1A" || code == "1B";
    } else if n == 2 {
      assert code == "2A" || code == "2B";
    } else {
      assert code == "3A" || code == "3B";
    }
  }

  lemma WheelCodeColored4To6(n: int, code: string)
    requires 4 <= n <= 6 && (code == NatToString(n) + "A" || code == NatToString(n) + "B")
    ensures code in Colors
  {
    WheelNumerals();
    if n == 4 {
      assert code == "4A" || code == "4B";
    } else if n == 5 {
      assert code == "5A" || code == "5B";
    } else {
      assert code == "6A" || code == "6B";
    }
  }

  lemma WheelCodeColored7To9(n: int, code: string)
    requires 7 <= n <= 9 && (code == NatToString(n) + "A" || code == NatToString(n) + "B")
    ensures code in Colors
  {
    WheelNumerals();
    if n == 7 {
      assert code == "7A" || code == "7B";
    } else if n == 8 {
      assert code == "8A" || code == "8B";
    } else {
      assert code == "9A" || code == "9B";
    }
  }

  lemma WheelCodeColored10To12(n: int, code: string)
    requires 10 <= n <= 12 && (code == NatToString(n) + "A" || code == NatToString(n) + "B")
    ensures code in Colors
  {
    WheelNumerals();
    if n == 10 {
      assert code == "10A" || code == "10B";
    } else if n == 11 {
      assert code == "11A" || code == "11B";
    } else {
      assert code == "12A" || code == "12B";
    }
  }

  lemma ColoredIsWheelCode(code: string)
    requires code in Colors
    ensures IsWheelCode(code)
  {
    WheelNumerals();
    var n := if code in {"1A", "1B"} then 1 else if code in {"2A", "2B"} then 2
      else if code in {"3A", "3B"} then 3 else if code in {"4A", "4B"} then 4
      else if code in {"5A", "5B"} then 5 else if code in {"6A", "6B"} then 6
      else if code in {"7A", "7B"} then 7 else if code in {"8A", "8B"} then 8
      else if code in {"9A", "9B"} then 9 else if code in {"10A", "10B"} then 10
      else if code in {"11A", "11B"} then 11 else 12;
    assert code == NatToString(n) + "A" || code == NatToString(n) + "B";
  }

  /** A bucket of the organizer gets a gray badge exactly when its code is
      the `Unknown` fallback (a key outside 0..11). */
  lemma BucketColor(tracks: seq<Track>, g: OrganizedPlaylist)
    requires g in OrganizePlaylist(tracks)
    ensures CamelotColor(g.camelot) == Gray <==> g.camelot == Unknown
  {
    OrganizeBucketContents(tracks);
    var t := g.tracks[0];
    OrganizeBucketsAgree(tracks, g, t);
    CamelotClassification(t.key.GetOr(0), t.mode.GetOr(0));
    ColorKeysAreWheelCodes(g.camelot);
  }

  // ---------------------------------------------------------------------------
  // Sections and totals

  /** The section a bucket is listed under. */
  function LabelOf(g: OrganizedPlaylist): string {
    GetBpmRangeDisplay(g.bpm)
  }

  /** The `bpmGroups` reduce: buckets grouped by label, in first-seen order. */
  function Sections(gs: seq<OrganizedPlaylist>): Dict<string, seq<OrganizedPlaylist>> {
    GroupBy(gs, LabelOf)
  }

  /** Every bucket lands in the section of its own label, the sections
      keep the buckets' relative order, none is empty, and together they
      hold each bucket exactly once. */
  lemma SectionsPartition(gs: seq<OrganizedPlaylist>)
    ensures var s := Sections(gs);
      && (forall g :: g in gs ==> LabelOf(g) in s.values && g in s.values[LabelOf(g)])
      && (forall l :: l in s.values ==>
           && s.values[l] == Select(gs, LabelOf, l) && |s.values[l]| > 0
           && Subsequence(s.values[l], gs))
      && multiset(ConcatValues(s.order, s.values)) == multiset(gs)
  {
    var s := Sections(gs);
    forall g | g in gs
      ensures LabelOf(g) in s.values && g in s.values[LabelOf(g)]
    {
      assert LabelOf(g) in KeySet(gs, LabelOf);
      SelectContains(gs, LabelOf, g);
    }
    forall l | l in s.values
      ensures Subsequence(s.values[l], gs)
    {
      SelectSubsequence(gs, LabelOf, l);
    }
    GroupByPartition(gs, LabelOf);
  }

  /** `Object.entries(bpmGroups)` lists the sections in the order their
      labels first occur among the buckets, and only labels that occur. */
  lemma SectionsInOrder(gs: seq<OrganizedPlaylist>)
    ensures SeenInOrder(gs, LabelOf, Sections(gs).order)
  {
  }

  function TrackCount(g: OrganizedPlaylist): nat {
    |g.tracks|
  }

  /** `tracksInRange.reduce((total, group) => total + group.tracks.length, 0)`. */
  function TotalTracks(gs: seq<OrganizedPlaylist>): nat {
    SumOf(gs, TrackCount)
  }

  function DurationOf(t: Track): nat {
    t.durationMs
  }

  /** `group.tracks.reduce((sum, track) => sum + track.duration_ms, 0)`. */
  function TotalDuration(g: OrganizedPlaylist): nat {
    SumOf(g.tracks, DurationOf)
  }

  /** The per-section totals of a list of labels. */
  function SectionTotals(labels: seq<string>, m: map<string, seq<OrganizedPlaylist>>): nat
    requires forall l :: l in labels ==> l in m
  {
    if |labels| == 0 then 0 else TotalTracks(m[labels[0]]) + SectionTotals(labels[1..], m)
  }

  lemma {:induction false} SectionTotalsConcat(labels: seq<string>, m: map<string, seq<OrganizedPlaylist>>)
    requires forall l :: l in labels ==> l in m
    ensures SectionTotals(labels, m) == TotalTracks(ConcatValues(labels, m))
  {
    if |labels| > 0 {
      SectionTotalsConcat(labels[1..], m);
      SumOfAppend(m[labels[0]], ConcatValues(labels[1..], m), TrackCount);
    }
  }

  lemma {:induction false} TotalTracksIsFlattenLength(gs: seq<OrganizedPlaylist>)
    ensures TotalTracks(gs) == |Flatten(gs)|
  {
    if |gs| > 0 {
      TotalTracksIsFlattenLength(gs[1..]);
    }
  }

  /** The section totals add up to the number of tracks in all buckets: the
      sections split the buckets without loss or repetition. */
  lemma SectionTotalsAddUp(gs: seq<OrganizedPlaylist>)
    ensures var s := Sections(gs);
      SectionTotals(s.order, s.values) == |Flatten(gs)|
  {
    var s := Sections(gs);
    SectionTotalsConcat(s.order, s.values);
    GroupByPartition(gs, LabelOf);
    SumOfPermutation(ConcatValues(s.order, s.values), gs, TrackCount);
    TotalTracksIsFlattenLength(gs);
  }

  /** For the organizer's output, the section totals add up to the number of
      analysed tracks of the input. */
  lemma SectionTotalsOfOrganized(tracks: seq<Track>)
    ensures var s := Sections(OrganizePlaylist(tracks));
      SectionTotals(s.order, s.values) == |ValidTracks(tracks)|
  {
    SectionTotalsAddUp(OrganizePlaylist(tracks));
    OrganizePartition(tracks);
  }

  /** A bucket's duration is the total duration of the analysed input
      tracks with its key: sorting the bucket does not change the sum. */
  lemma BucketDuration(tracks: seq<Track>, g: OrganizedPlaylist)
    requires g in OrganizePlaylist(tracks)
    ensures TotalDuration(g) == SumOf(Select(ValidTracks(tracks), GroupKey, KeyOf(g)), DurationOf)
  {
    OrganizeBucketContents(tracks);
    SumOfPermutation(g.tracks, Select(ValidTracks(tracks), GroupKey, KeyOf(g)), DurationOf);
  }

  /** The bucket durations of a list add up to the duration of all its
      tracks. */
  lemma {:induction false} DurationsAddUp(gs: seq<OrganizedPlaylist>)
    ensures SumOf(gs, TotalDuration) == SumOf(Flatten(gs), DurationOf)
  {
    if |gs| > 0 {
      DurationsAddUp(gs[1..]);
      SumOfAppend(gs[0].tracks, Flatten(gs[1..]), DurationOf);
    }
  }

  /** Over the organizer's output, the bucket durations add up to the
      duration of the analysed input tracks. */
  lemma DurationsOfOrganized(tracks: seq<Track>)
    ensures SumOf(OrganizePlaylist(tracks), TotalDuration) == SumOf(ValidTracks(tracks), DurationOf)
  {
    DurationsAddUp(OrganizePlaylist(tracks));
    OrganizePartition(tracks);
    SumOfPermutation(Flatten(OrganizePlaylist(tracks)), ValidTracks(tracks), DurationOf);
  }

  /** Every track listed in a section has a tempo in that section's band. */
  lemma SectionLabelsMatchTempos(tracks: seq<Track>, section: string, g: OrganizedPlaylist, t: Track)
    requires section in Sections(OrganizePlaylist(tracks)).values
    requires g in Sections(OrganizePlaylist(tracks)).values[section] && t in g.tracks
    ensures GetBpmRangeDisplay(TempoOf(t)) == section
  {
    var r := OrganizePlaylist(tracks);
    assert g in r;
    OrganizeBucketsAgree(tracks, g, t);
  }
}
