/** The helpers of `app/page.tsx` that build the organizer's input from an
    audio analysis: key names to pitch classes, the fallback record of a
    failed analysis, the merge of analysis results onto the playlist's
    tracks, the simulated analysis's own Camelot lookup, and the URI list
    handed to the export. */
module Page {

  import opened Wrappers
  import opened Strings
  import opened Collections
  import opened Types
  import opened Camelot
  import opened Bpm
  import opened Organizer
  import opened SpotifyApi

  // ---------------------------------------------------------------------------
  // Key names

  /** The first position of `name` in `names`, if any. */
  function IndexOf(names: seq<string>, name: string): (r: Option<nat>)
    ensures r.None? <==> name !in names
    ensures r.Some? ==>
      r.value < |names| && names[r.value] == name && forall j :: 0 <= j < r.value ==> names[j] != name
  {
    if |names| == 0 then None
    else if names[0] == name then Some(0)
    else
      match IndexOf(names[1..], name)
      case None => None
      case Some(i) => Some(i + 1)
  }

  /** `convertKeyToNumber(key)`: the position of the name among
      `C, C#, ..., B`, and 0 for any other name (the lookup is `undefined`
      and `undefined || 0` is 0; so is `0 || 0` for `C`). */
  function ConvertKeyToNumber(name: string): (n: int)
    ensures 0 <= n < 12
  {
    match IndexOf(KeyNames, name)
    case Some(i) => i
    case None => 0
  }

  /** The names map to their positions, and a name that is not one of them
      maps to 0. */
  lemma ConvertKeyToNumberSpec(name: string)
    ensures forall i :: 0 <= i < 12 ==> ConvertKeyToNumber(KeyNames[i]) == i
    ensures name !in KeyNames ==> ConvertKeyToNumber(name) == 0
    ensures name in KeyNames ==> KeyNames[ConvertKeyToNumber(name)] == name
  {
    forall i | 0 <= i < 12
      ensures ConvertKeyToNumber(KeyNames[i]) == i
    {
      var r := IndexOf(KeyNames, KeyNames[i]);
      assert r.Some?;
      assert forall j, k :: 0 <= j < k < 12 ==> KeyNames[j] != KeyNames[k];
    }
  }

  // ---------------------------------------------------------------------------
  // Analysis results

  datatype Mode = Major | Minor

  /** `AudioAnalysisResult`. */
  datatype AnalysisResult = AnalysisResult(
    trackId: string, bpm: int, key: string, mode: Mode, camelot: string, confidence: real)

  /** The record pushed when analysing a track throws. */
  function FallbackAnalysis(trackId: string): (a: AnalysisResult)
    ensures a.trackId == trackId
  {
    AnalysisResult(trackId, 120, "C", Major, "8B", 0.5)
  }

  /** The fallback record is consistent with the organizer: its key and mode,
      merged onto a track, give the code the record claims, and its tempo
      lies in the band starting at 120. */
  lemma FallbackAgreesWithOrganizer(trackId: string)
    ensures var a := FallbackAnalysis(trackId);
      && GetCamelotNotation(ConvertKeyToNumber(a.key), ModeNumber(Some(a))) == a.camelot
      && BandLowerBound(a.bpm) == 120
  {
    assert ConvertKeyToNumber("C") == 0 by {
      assert KeyNames[0] == "C";
      assert IndexOf(KeyNames, "C") == Some(0);
    }
    CamelotExamples();
    BandQuotient(120, 6);
  }

  /** `results.find(r => r.trackId === track.id)`. */
  function FindAnalysis(results: seq<AnalysisResult>, trackId: string): (r: Option<AnalysisResult>)
    ensures r.None? <==> forall a :: a in results ==> a.trackId != trackId
    ensures r.Some? ==> r.value in results && r.value.trackId == trackId
  {
    if |results| == 0 then None
    else if results[0].trackId == trackId then Some(results[0])
    else
      assert forall a :: a in results <==> a == results[0] || a in results[1..];
      FindAnalysis(results[1..], trackId)
  }

  /** The record found is the first one for the id. */
  lemma {:induction false} FindAnalysisIsFirst(results: seq<AnalysisResult>, trackId: string)
    ensures var r := FindAnalysis(results, trackId);
      r.Some? ==> exists i :: (0 <= i < |results| && results[i] == r.value &&
                               forall j :: 0 <= j < i ==> results[j].trackId != trackId)
  {
    if |results| > 0 && results[0].trackId != trackId {
      var r := FindAnalysis(results, trackId);
      FindAnalysisIsFirst(results[1..], trackId);
      if r.Some? {
        var i :| 0 <= i < |results[1..]| && results[1..][i] == r.value
          && forall j :: 0 <= j < i ==> results[1..][j].trackId != trackId;
        assert results[i + 1] == r.value;
      }
    } else if |results| > 0 {
      assert results[0] == FindAnalysis(results, trackId).value;
    }
  }

  /** `analysis?.bpm || 120`: a missing analysis or a zero BPM gives 120. */
  function MergedTempo(a: Option<AnalysisResult>): int {
    if a.Some? && a.value.bpm != 0 then a.value.bpm else 120
  }

  /** `convertKeyToNumber(analysis?.key || 'C')`: a missing analysis or an
      empty key name reads as `C`. */
  function MergedKey(a: Option<AnalysisResult>): int {
    ConvertKeyToNumber(if a.Some? && a.value.key != "" then a.value.key else "C")
  }

  /** `analysis?.mode === 'minor' ? 0 : 1`. */
  function ModeNumber(a: Option<AnalysisResult>): int {
    if a.Some? && a.value.mode == Minor then 0 else 1
  }

  /** One element of `tracksWithAnalysis`. */
  function WithAnalysis(t: Track, results: seq<AnalysisResult>): Track {
    var a := FindAnalysis(results, t.id);
    t.(tempo := Some(MergedTempo(a)), key := Some(MergedKey(a)), mode := Some(ModeNumber(a)))
  }

  /** `tracksWithAnalysis`: every track with the tempo, key and mode of its
      analysis. */
  function TracksWithAnalysis(tracks: seq<Track>, results: seq<AnalysisResult>): (merged: seq<Track>)
    ensures |merged| == |tracks|
  {
    seq(|tracks|, i requires 0 <= i < |tracks| => WithAnalysis(tracks[i], results))
  }

  /** What the merge puts on each track: the analysis BPM unless there is no
      analysis for the id or its BPM is 0 (then 120); the pitch class of the
      analysis key, so that a known key name reads back as itself, and 0
      (the pitch class of `C`) without an analysis or for an empty or unknown
      name; always in 0..11; mode 0 exactly for
      a minor analysis. Every other field is the track's own. */
  lemma TracksWithAnalysisSpec(tracks: seq<Track>, results: seq<AnalysisResult>, i: int)
    requires 0 <= i < |tracks|
    ensures var t, m, a := tracks[i], TracksWithAnalysis(tracks, results)[i], FindAnalysis(results, tracks[i].id);
      && m.id == t.id && m.uri == t.uri && m.name == t.name && m.artists == t.artists
      && m.album == t.album && m.durationMs == t.durationMs
      && IsAnalyzed(m)
      && (m.tempo == Some(120) <==> a.None? || a.value.bpm == 0 || a.value.bpm == 120)
      && (a.Some? && a.value.bpm != 0 ==> m.tempo == Some(a.value.bpm))
      && 0 <= m.key.value < 12
      && (a.None? ==> m.key == Some(0))
      && (a.Some? && a.value.key in KeyNames ==> KeyNames[m.key.value] == a.value.key)
      && (a.Some? && a.value.key !in KeyNames ==> m.key == Some(0))
      && (m.mode == Some(0) <==> a.Some? && a.value.mode == Minor)
      && (m.mode == Some(1) <==> !(a.Some? && a.value.mode == Minor))
  {
    MergedKeySpec(FindAnalysis(results, tracks[i].id));
  }

  /** The merged key: a known key name reads back as itself; no analysis,
      an empty name or an unknown one gives 0, the pitch class of `C`. */
  lemma MergedKeySpec(a: Option<AnalysisResult>)
    ensures 0 <= MergedKey(a) < 12
    ensures a.Some? && a.value.key in KeyNames ==> KeyNames[MergedKey(a)] == a.value.key
    ensures a.None? || a.value.key !in KeyNames ==> MergedKey(a) == 0
  {
    ConvertKeyToNumberSpec("C");
    assert KeyNames[0] == "C";
    if a.Some? {
      ConvertKeyToNumberSpec(a.value.key);
    }
  }

  /** Every merged track has tempo, key and mode, so the organizer's filter
      keeps all of them: its buckets hold exactly the merged tracks. */
  lemma OrganizerKeepsMergedTracks(tracks: seq<Track>, results: seq<AnalysisResult>)
    ensures var merged := TracksWithAnalysis(tracks, results);
      && ValidTracks(merged) == merged
      && multiset(Flatten(OrganizePlaylist(merged))) == multiset(merged)
  {
    var merged := TracksWithAnalysis(tracks, results);
    forall i | 0 <= i < |merged|
      ensures IsAnalyzed(merged[i])
    {
      TracksWithAnalysisSpec(tracks, results, i);
    }
    SelectAllTrue(merged);
    OrganizePartition(merged);
  }

  lemma {:induction false} SelectAllTrue(ts: seq<Track>)
    requires forall i :: 0 <= i < |ts| ==> IsAnalyzed(ts[i])
    ensures ValidTracks(ts) == ts
  {
    if |ts| > 0 {
      SelectAllTrue(ts[1..]);
      assert ts == [ts[0]] + ts[1..];
    }
  }

  /** Since merged keys are pitch classes, no bucket the organizer forms
      from merged tracks has the `Unknown` code. */
  lemma MergedBucketsHaveWheelCodes(tracks: seq<Track>, results: seq<AnalysisResult>, g: OrganizedPlaylist)
    requires g in OrganizePlaylist(TracksWithAnalysis(tracks, results))
    ensures g.camelot != Unknown && IsWheelCode(g.camelot)
  {
    var merged := TracksWithAnalysis(tracks, results);
    var t := FirstTrack(merged, g);
    OrganizeBucketsAgree(merged, g, t);
    MergedKeyInRange(tracks, results, t);
    CamelotClassification(t.key.value, t.mode.value);
  }

  /** A bucket's first track. */
  lemma FirstTrack(merged: seq<Track>, g: OrganizedPlaylist) returns (t: Track)
    requires g in OrganizePlaylist(merged)
    ensures t in g.tracks
  {
    OrganizeBucketContents(merged);
    t := g.tracks[0];
  }

  /** Every merged track has a pitch class for its key. */
  lemma MergedKeyInRange(tracks: seq<Track>, results: seq<AnalysisResult>, t: Track)
    requires t in TracksWithAnalysis(tracks, results)
    ensures t.key.Some? && 0 <= t.key.value < 12 && t.mode.Some?
  {
    var merged := TracksWithAnalysis(tracks, results);
    var i :| 0 <= i < |merged| && merged[i] == t;
    TracksWithAnalysisSpec(tracks, results, i);
  }

  // ---------------------------------------------------------------------------
  // The simulated analysis's Camelot lookup

  /** The `camelotMap` of the simulated analysis (major keys only). */
  const SimulatedCamelotMap: map<string, string> := map[
    "C" := "8B", "C#" := "3B", "D" := "10B", "D#" := "5B", "E" := "12B", "F" := "7B",
    "F#" := "2B", "G" := "9B", "G#" := "4B", "A" := "11B", "A#" := "6B", "B" := "1B"
  ]

  /** `camelotMap[key] || '8B'`. */
  function SimulatedCamelot(keyName: string): (code: string)
    ensures keyName !in SimulatedCamelotMap ==> code == "8B"
  {
    if keyName in SimulatedCamelotMap then SimulatedCamelotMap[keyName] else "8B"
  }

  /** The simulated lookup is the conventional wheel: the major key of pitch
      class `i` sits at its wheel position, in the `B` ring. */
  lemma SimulatedIsConventional(i: int)
    requires 0 <= i < 12
    ensures SimulatedCamelot(KeyNames[i]) == NatToString(ConventionalWheelNumber(i, true)) + "B"
  {
    WheelNumerals();
    if i < 6 {
      SimulatedIsConventionalLow(i);
    } else {
      SimulatedIsConventionalHigh(i);
    }
  }

  lemma SimulatedIsConventionalLow(i: int)
    requires 0 <= i < 6
    ensures SimulatedCamelot(KeyNames[i]) == NatToString(ConventionalWheelNumber(i, true)) + "B"
  {
    WheelNumerals();
    var n := ConventionalWheelNumber(i, true);
    if i == 0 { assert n == 8; }
    else if i == 1 { assert n == 3; }
    else if i == 2 { assert n == 10; }
    else if i == 3 { assert n == 5; }
    else if i == 4 { assert n == 12; }
    else { assert n == 7; }
  }

  lemma SimulatedIsConventionalHigh(i: int)
    requires 6 <= i < 12
    ensures SimulatedCamelot(KeyNames[i]) == NatToString(ConventionalWheelNumber(i, true)) + "B"
  {
    WheelNumerals();
    var n := ConventionalWheelNumber(i, true);
    if i == 6 { assert n == 2; }
    else if i == 7 { assert n == 9; }
    else if i == 8 { assert n == 4; }
    else if i == 9 { assert n == 11; }
    else if i == 10 { assert n == 6; }
    else { assert n == 1; }
  }

  /** The two tables of the application agree on a major key exactly when
      its conventional wheel position is even: the organizer folds the odd
      positions onto their even neighbours. */
  lemma TablesAgreeIffEven(i: int)
    requires 0 <= i < 12
    ensures SimulatedCamelot(KeyNames[i]) == GetCamelotNotation(i, 1)
        <==> ConventionalWheelNumber(i, true) % 2 == 0
  {
    var n := ConventionalWheelNumber(i, true);
    SimulatedIsConventional(i);
    CamelotNotationIsFoldedWheel(i, 1);
    if n % 2 != 0 && SimulatedCamelot(KeyNames[i]) == GetCamelotNotation(i, 1) {
      NumeralCodeInjective(n, EvenStep(n), "B");
    }
  }

  /** A numeral followed by a fixed suffix determines its number. */
  lemma NumeralCodeInjective(a: nat, b: nat, suffix: string)
    requires NatToString(a) + suffix == NatToString(b) + suffix
    ensures a == b
  {
    var sa, sb := NatToString(a), NatToString(b);
    assert |sa| == |sb|;
    assert sa == (sa + suffix)[..|sa|];
    assert sb == (sb + suffix)[..|sb|];
  }

  /** For example, G major: the simulated analysis says 9B, the organizer
      files the same key under 8B. */
  lemma GMajorDisagrees()
    ensures SimulatedCamelot("G") == "9B" && GetCamelotNotation(7, 1) == "8B"
  {
    assert KeyNames[7] == "G";
  }

  // ---------------------------------------------------------------------------
  // The export

  /** `organizedPlaylist.flatMap(group => group.tracks.map(track => track.uri))`. */
  function ExportUris(gs: seq<OrganizedPlaylist>): (uris: seq<string>)
    ensures |uris| == |Flatten(gs)|
    ensures forall i :: 0 <= i < |uris| ==> uris[i] == Flatten(gs)[i].uri
  {
    if |gs| == 0 then []
    else
      var head := seq(|gs[0].tracks|, i requires 0 <= i < |gs[0].tracks| => gs[0].tracks[i].uri);
      head + ExportUris(gs[1..])
  }

  /** A track's URI. */
  function UriOf(t: Track): string {
    t.uri
  }

  /** The export sends the URIs of the bucket tracks in bucket order: each
      analysed track's URI as often as the track is analysed, and no other,
      in `ceil(n / 100)` requests that carry them all. */
  lemma ExportOfOrganized(tracks: seq<Track>)
    ensures var uris := ExportUris(OrganizePlaylist(tracks));
      && uris == Map(Flatten(OrganizePlaylist(tracks)), UriOf)
      && multiset(uris) == multiset(Map(ValidTracks(tracks), UriOf))
      && |uris| == |ValidTracks(tracks)|
      && |Batches(uris)| == BatchCount(|ValidTracks(tracks)|)
      && ConcatUris(Batches(uris)) == uris
  {
    var gs := OrganizePlaylist(tracks);
    var uris := ExportUris(gs);
    assert uris == Map(Flatten(gs), UriOf);
    OrganizePartition(tracks);
    MapPermutation(Flatten(gs), ValidTracks(tracks), UriOf);
    BatchesConcat(uris);
  }
}
