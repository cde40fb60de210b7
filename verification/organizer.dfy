/** `organizePlaylist` of `app/utils/playlistOrganizer.ts`: keep the tracks
    that carry tempo, key and mode; bucket them by tempo band, then by Camelot
    code within each band; sort every bucket by tempo; and order the buckets
    by band and then by code. */
module Organizer {

  import opened Wrappers
  import opened Strings
  import opened Collections
  import opened Sorting
  import opened Types
  import opened Camelot
  import opened Bpm

  // ---------------------------------------------------------------------------
  // Per-track keys

  /** The filter of the organizer: tempo, key and mode are all present. */
  predicate IsAnalyzed(t: Track) {
    t.tempo.Some? && t.key.Some? && t.mode.Some?
  }

  function ValidTracks(tracks: seq<Track>): seq<Track> {
    Select(tracks, IsAnalyzed, true)
  }

  /** `a.tempo || 0`, and the rounded tempo of an analysed track. */
  function TempoOf(t: Track): int {
    t.tempo.GetOr(0)
  }

  function RangeOf(t: Track): string {
    GetBpmRange(TempoOf(t))
  }

  function CodeOf(t: Track): string {
    GetCamelotNotation(t.key.GetOr(0), t.mode.GetOr(0))
  }

  /** The bucket a track belongs to: its band's lower bound and its code. */
  function GroupKey(t: Track): (int, string) {
    (BandLowerBound(TempoOf(t)), CodeOf(t))
  }

  function KeyOf(g: OrganizedPlaylist): (int, string) {
    (g.bpm, g.camelot)
  }

  function Keys(gs: seq<OrganizedPlaylist>): (ks: seq<(int, string)>)
    ensures |ks| == |gs| && forall i :: 0 <= i < |gs| ==> ks[i] == KeyOf(gs[i])
  {
    seq(|gs|, i requires 0 <= i < |gs| => KeyOf(gs[i]))
  }

  /** All tracks of a list of buckets, in order. */
  function Flatten(gs: seq<OrganizedPlaylist>): seq<Track> {
    if |gs| == 0 then [] else gs[0].tracks + Flatten(gs[1..])
  }

  // ---------------------------------------------------------------------------
  // Ordering the buckets

  /** The final comparator: lower bound first, then code. */
  predicate Before(a: OrganizedPlaylist, b: OrganizedPlaylist) {
    a.bpm < b.bpm || (a.bpm == b.bpm && StrLt(a.camelot, b.camelot))
  }

  /** No bucket is preceded by one that the comparator puts after it. */
  predicate GroupsOrdered(gs: seq<OrganizedPlaylist>) {
    forall i, j :: 0 <= i < j < |gs| ==> !Before(gs[j], gs[i])
  }

  lemma NotBeforeTransitive(a: OrganizedPlaylist, b: OrganizedPlaylist, c: OrganizedPlaylist)
    requires !Before(b, a) && !Before(c, b)
    ensures !Before(c, a)
  {
    if a.bpm == b.bpm == c.bpm {
      StrLtTotal(a.camelot, b.camelot);
      StrLtTotal(b.camelot, c.camelot);
      if StrLt(c.camelot, a.camelot) {
        if StrLt(a.camelot, b.camelot) {
          StrLtTransitive(c.camelot, a.camelot, b.camelot);
        }
        if StrLt(b.camelot, c.camelot) {
          StrLtAsymmetric(b.camelot, c.camelot);
        }
      }
    }
  }

  lemma BeforeAsymmetric(a: OrganizedPlaylist, b: OrganizedPlaylist)
    requires Before(a, b)
    ensures !Before(b, a)
  {
    if a.bpm == b.bpm {
      StrLtAsymmetric(a.camelot, b.camelot);
    }
  }

  /** Inserts `g` in front of the first bucket the comparator does not put
      before it. */
  function InsertGroup(g: OrganizedPlaylist, gs: seq<OrganizedPlaylist>): (r: seq<OrganizedPlaylist>)
    requires GroupsOrdered(gs)
    ensures GroupsOrdered(r)
    ensures multiset(r) == multiset(gs) + multiset{g}
  {
    if |gs| == 0 || !Before(gs[0], g) then
      InsertFront(g, gs);
      [g] + gs
    else
      var rest := InsertGroup(g, gs[1..]);
      InsertAfterHead(g, gs, rest);
      [gs[0]] + rest
  }

  lemma InsertFront(g: OrganizedPlaylist, gs: seq<OrganizedPlaylist>)
    requires GroupsOrdered(gs)
    requires |gs| == 0 || !Before(gs[0], g)
    ensures GroupsOrdered([g] + gs)
  {
    forall j | 0 <= j < |gs|
      ensures !Before(gs[j], g)
    {
      if j > 0 {
        NotBeforeTransitive(g, gs[0], gs[j]);
      }
    }
  }

  lemma InsertAfterHead(g: OrganizedPlaylist, gs: seq<OrganizedPlaylist>, rest: seq<OrganizedPlaylist>)
    requires |gs| > 0 && Before(gs[0], g) && GroupsOrdered(gs)
    requires GroupsOrdered(rest) && multiset(rest) == multiset(gs[1..]) + multiset{g}
    ensures GroupsOrdered([gs[0]] + rest)
    ensures multiset([gs[0]] + rest) == multiset(gs) + multiset{g}
  {
    assert gs == [gs[0]] + gs[1..];
    BeforeAsymmetric(gs[0], g);
    forall j | 0 <= j < |rest|
      ensures !Before(rest[j], gs[0])
    {
      assert rest[j] in multiset(gs[1..]) + multiset{g};
    }
  }

  /** `organized.sort(...)` with the bound-then-code comparator. */
  function SortGroups(gs: seq<OrganizedPlaylist>): (r: seq<OrganizedPlaylist>)
    ensures GroupsOrdered(r)
    ensures multiset(r) == multiset(gs)
  {
    if |gs| == 0 then []
    else
      assert gs == [gs[0]] + gs[1..];
      InsertGroup(gs[0], SortGroups(gs[1..]))
  }

  /** Ordered buckets with pairwise different keys are strictly increasing
      under the comparator. */
  lemma OrderedDistinctIsStrict(gs: seq<OrganizedPlaylist>)
    requires GroupsOrdered(gs) && Distinct(Keys(gs))
    ensures forall i, j :: 0 <= i < j < |gs| ==> Before(gs[i], gs[j])
  {
    forall i, j | 0 <= i < j < |gs|
      ensures Before(gs[i], gs[j])
    {
      assert KeyOf(gs[i]) != KeyOf(gs[j]);
      StrLtTotal(gs[i].camelot, gs[j].camelot);
    }
  }

  // ---------------------------------------------------------------------------
  // Building the buckets

  /** One band's buckets, one per code in insertion order, each sorted by
      tempo. */
  function CamelotGroups(bpm: int, codes: seq<string>, m: map<string, seq<Track>>): (gs: seq<OrganizedPlaylist>)
    requires forall c :: c in codes ==> c in m
    ensures |gs| == |codes|
    ensures forall i :: 0 <= i < |gs| ==> gs[i] == OrganizedPlaylist(bpm, codes[i], StableSortBy(m[codes[i]], TempoOf))
  {
    seq(|codes|, i requires 0 <= i < |codes| => OrganizedPlaylist(bpm, codes[i], StableSortBy(m[codes[i]], TempoOf)))
  }

  /** The tracks of one band, grouped by code. */
  function BandGroups(range: string, inRange: seq<Track>): seq<OrganizedPlaylist>
    requires IsBpmRange(range)
  {
    var byCode := GroupBy(inRange, CodeOf);
    CamelotGroups(RangeBound(range), byCode.order, byCode.values)
  }

  function RangeGroups(ranges: seq<string>, m: map<string, seq<Track>>): seq<OrganizedPlaylist>
    requires forall r :: r in ranges ==> r in m && IsBpmRange(r)
  {
    if |ranges| == 0 then [] else BandGroups(ranges[0], m[ranges[0]]) + RangeGroups(ranges[1..], m)
  }

  lemma RangeKeys(valid: seq<Track>)
    ensures forall r :: r in KeySet(valid, RangeOf) ==> IsBpmRange(r)
  {
  }

  /** `organizePlaylist(tracks)`. */
  function OrganizePlaylist(tracks: seq<Track>): seq<OrganizedPlaylist> {
    var valid := ValidTracks(tracks);
    if |valid| == 0 then []
    else
      var byRange := GroupBy(valid, RangeOf);
      RangeKeys(valid);
      SortGroups(RangeGroups(byRange.order, byRange.values))
  }

  // ---------------------------------------------------------------------------
  // What the buckets hold

  /** A bucket holds exactly the analysed tracks that carry its key, stably
      sorted by tempo, and at least one of them. */
  predicate HoldsItsTracks(g: OrganizedPlaylist, valid: seq<Track>) {
    g.tracks == StableSortBy(Select(valid, GroupKey, KeyOf(g)), TempoOf) && |g.tracks| > 0
  }

  /** Selecting a band and then a code is selecting the pair. */
  lemma BandThenCode(valid: seq<Track>, range: string, code: string)
    requires IsBpmRange(range)
    ensures Select(Select(valid, RangeOf, range), CodeOf, code) == Select(valid, GroupKey, (RangeBound(range), code))
  {
    forall x | x in valid
      ensures GroupKey(x) == (RangeBound(range), code) <==> RangeOf(x) == range && CodeOf(x) == code
    {
      RangeBoundIsBandLowerBound(TempoOf(x));
      RangeBoundOneToOne(RangeOf(x), range);
    }
    SelectSelect(valid, RangeOf, range, CodeOf, code, GroupKey, (RangeBound(range), code));
  }

  /** The buckets of one band: each holds its tracks, each track of the band
      has a bucket, and no key repeats. */
  lemma BandGroupsSpec(valid: seq<Track>, range: string)
    requires IsBpmRange(range)
    ensures var gs := BandGroups(range, Select(valid, RangeOf, range));
      && (forall g :: g in gs ==> g.bpm == RangeBound(range) && HoldsItsTracks(g, valid))
      && (forall t :: t in valid && RangeOf(t) == range ==> GroupKey(t) in Keys(gs))
      && Distinct(Keys(gs))
  {
    BandGroupsHold(valid, range);
    BandGroupsCover(valid, range);
  }

  lemma BandGroupsHold(valid: seq<Track>, range: string)
    requires IsBpmRange(range)
    ensures var gs := BandGroups(range, Select(valid, RangeOf, range));
      forall g :: g in gs ==> g.bpm == RangeBound(range) && HoldsItsTracks(g, valid)
  {
    var inRange := Select(valid, RangeOf, range);
    var byCode := GroupBy(inRange, CodeOf);
    var gs := BandGroups(range, inRange);
    forall g | g in gs
      ensures g.bpm == RangeBound(range) && HoldsItsTracks(g, valid)
    {
      var i :| 0 <= i < |gs| && gs[i] == g;
      var c := byCode.order[i];
      BandThenCode(valid, range, c);
      StableSortLength(byCode.values[c], TempoOf);
    }
  }

  lemma BandGroupsCover(valid: seq<Track>, range: string)
    requires IsBpmRange(range)
    ensures var gs := BandGroups(range, Select(valid, RangeOf, range));
      forall t :: t in valid && RangeOf(t) == range ==> GroupKey(t) in Keys(gs)
  {
    forall t | t in valid && RangeOf(t) == range
      ensures GroupKey(t) in Keys(BandGroups(range, Select(valid, RangeOf, range)))
    {
      BandGroupCovers(valid, range, t);
    }
  }

  lemma BandGroupCovers(valid: seq<Track>, range: string, t: Track)
    requires IsBpmRange(range) && t in valid && RangeOf(t) == range
    ensures GroupKey(t) in Keys(BandGroups(range, Select(valid, RangeOf, range)))
  {
    var inRange := Select(valid, RangeOf, range);
    var byCode := GroupBy(inRange, CodeOf);
    assert CodeOf(t) in byCode.order by {
      SelectContains(valid, RangeOf, t);
      assert CodeOf(t) in KeySet(inRange, CodeOf);
    }
    var i :| 0 <= i < |byCode.order| && byCode.order[i] == CodeOf(t);
    var gs := CamelotGroups(RangeBound(range), byCode.order, byCode.values);
    assert KeyOf(gs[i]) == GroupKey(t) by {
      RangeBoundIsBandLowerBound(TempoOf(t));
    }
    assert Keys(gs)[i] == GroupKey(t);
  }

  lemma BandGroupsDistinct(valid: seq<Track>, range: string)
    requires IsBpmRange(range)
    ensures Distinct(Keys(BandGroups(range, Select(valid, RangeOf, range))))
  {
    var inRange := Select(valid, RangeOf, range);
    var byCode := GroupBy(inRange, CodeOf);
    var gs := CamelotGroups(RangeBound(range), byCode.order, byCode.values);
    forall i, j | 0 <= i < j < |gs|
      ensures Keys(gs)[i] != Keys(gs)[j]
    {
      assert gs[i].camelot == byCode.order[i] && gs[j].camelot == byCode.order[j];
    }
  }

  /** The bounds parsed out of a list of range strings. */
  ghost function BoundsOf(ranges: seq<string>): set<int> {
    set r | r in ranges && IsBpmRange(r) :: RangeBound(r)
  }

  /** The buckets of several distinct bands, concatenated: each holds its
      tracks, each track of those bands has a bucket, and no key repeats. */
  lemma RangeGroupsSpec(valid: seq<Track>, ranges: seq<string>, m: map<string, seq<Track>>)
    requires Distinct(ranges)
    requires forall r :: r in ranges ==> r in m && IsBpmRange(r) && m[r] == Select(valid, RangeOf, r)
    ensures var gs := RangeGroups(ranges, m);
      && (forall g :: g in gs ==> HoldsItsTracks(g, valid) && g.bpm in BoundsOf(ranges))
      && (forall t :: t in valid && RangeOf(t) in ranges ==> GroupKey(t) in Keys(gs))
      && Distinct(Keys(gs))
  {
    RangeGroupsHold(valid, ranges, m);
    RangeGroupsCover(valid, ranges, m);
    RangeGroupsDistinct(valid, ranges, m);
  }

  lemma RangeGroupsHold(valid: seq<Track>, ranges: seq<string>, m: map<string, seq<Track>>)
    requires forall r :: r in ranges ==> r in m && IsBpmRange(r) && m[r] == Select(valid, RangeOf, r)
    ensures forall g :: g in RangeGroups(ranges, m) ==> HoldsItsTracks(g, valid) && g.bpm in BoundsOf(ranges)
  {
    forall g | g in RangeGroups(ranges, m)
      ensures HoldsItsTracks(g, valid) && g.bpm in BoundsOf(ranges)
    {
      RangeGroupsHoldOne(valid, ranges, m, g);
    }
  }

  lemma {:induction false} RangeGroupsHoldOne(valid: seq<Track>, ranges: seq<string>, m: map<string, seq<Track>>, g: OrganizedPlaylist)
    requires forall r :: r in ranges ==> r in m && IsBpmRange(r) && m[r] == Select(valid, RangeOf, r)
    requires g in RangeGroups(ranges, m)
    ensures HoldsItsTracks(g, valid) && g.bpm in BoundsOf(ranges)
  {
    var r0, rest := ranges[0], ranges[1..];
    var a, b := BandGroups(r0, m[r0]), RangeGroups(rest, m);
    assert RangeGroups(ranges, m) == a + b;
    if g in a {
      BandGroupsHold(valid, r0);
      assert g.bpm == RangeBound(r0);
    } else {
      RangeGroupsHoldOne(valid, rest, m, g);
      var r :| r in rest && IsBpmRange(r) && RangeBound(r) == g.bpm;
      assert r in ranges;
    }
  }

  lemma RangeGroupsCover(valid: seq<Track>, ranges: seq<string>, m: map<string, seq<Track>>)
    requires forall r :: r in ranges ==> r in m && IsBpmRange(r) && m[r] == Select(valid, RangeOf, r)
    ensures forall t :: t in valid && RangeOf(t) in ranges ==> GroupKey(t) in Keys(RangeGroups(ranges, m))
  {
    forall t | t in valid && RangeOf(t) in ranges
      ensures GroupKey(t) in Keys(RangeGroups(ranges, m))
    {
      RangeGroupsCoverOne(valid, ranges, m, t);
    }
  }

  lemma {:induction false} RangeGroupsCoverOne(valid: seq<Track>, ranges: seq<string>, m: map<string, seq<Track>>, t: Track)
    requires forall r :: r in ranges ==> r in m && IsBpmRange(r) && m[r] == Select(valid, RangeOf, r)
    requires t in valid && RangeOf(t) in ranges
    ensures GroupKey(t) in Keys(RangeGroups(ranges, m))
  {
    var r0, rest := ranges[0], ranges[1..];
    var a, b := BandGroups(r0, m[r0]), RangeGroups(rest, m);
    assert RangeGroups(ranges, m) == a + b;
    KeysConcat(a, b);
    if RangeOf(t) == r0 {
      BandGroupCovers(valid, r0, t);
      assert GroupKey(t) in Keys(a);
    } else {
      InTail(ranges, RangeOf(t));
      RangeGroupsCoverOne(valid, rest, m, t);
      assert GroupKey(t) in Keys(b);
    }
  }

  lemma {:induction false} RangeGroupsDistinct(valid: seq<Track>, ranges: seq<string>, m: map<string, seq<Track>>)
    requires Distinct(ranges)
    requires forall r :: r in ranges ==> r in m && IsBpmRange(r) && m[r] == Select(valid, RangeOf, r)
    ensures Distinct(Keys(RangeGroups(ranges, m)))
  {
    if |ranges| > 0 {
      var r0, rest := ranges[0], ranges[1..];
      DistinctTail(ranges);
      RangeGroupsDistinct(valid, rest, m);
      RangeGroupsHold(valid, rest, m);
      BandGroupsHold(valid, r0);
      BandGroupsDistinct(valid, r0);
      var a, b := BandGroups(r0, m[r0]), RangeGroups(rest, m);
      assert RangeGroups(ranges, m) == a + b;
      BandsApart(valid, ranges, m);
      KeysConcat(a, b);
      DistinctConcat(Keys(a), Keys(b));
    }
  }

  lemma KeysConcat(a: seq<OrganizedPlaylist>, b: seq<OrganizedPlaylist>)
    ensures Keys(a + b) == Keys(a) + Keys(b)
  {
  }

  /** The first band's buckets share no key with the later bands' buckets,
      because their bounds differ. */
  lemma BandsApart(valid: seq<Track>, ranges: seq<string>, m: map<string, seq<Track>>)
    requires |ranges| > 0 && Distinct(ranges)
    requires forall r :: r in ranges ==> r in m && IsBpmRange(r) && m[r] == Select(valid, RangeOf, r)
    requires forall g :: g in RangeGroups(ranges[1..], m) ==> g.bpm in BoundsOf(ranges[1..])
    requires forall g :: g in BandGroups(ranges[0], m[ranges[0]]) ==> g.bpm == RangeBound(ranges[0])
    ensures forall k :: k in Keys(BandGroups(ranges[0], m[ranges[0]])) ==> k !in Keys(RangeGroups(ranges[1..], m))
  {
    var a, b := BandGroups(ranges[0], m[ranges[0]]), RangeGroups(ranges[1..], m);
    DistinctTail(ranges);
    forall k | k in Keys(a)
      ensures k !in Keys(b)
    {
      var i :| 0 <= i < |a| && Keys(a)[i] == k;
      if k in Keys(b) {
        var j :| 0 <= j < |b| && Keys(b)[j] == k;
        assert b[j] in b;
        var r :| r in ranges[1..] && IsBpmRange(r) && RangeBound(r) == b[j].bpm;
        assert a[i] in a;
        RangeBoundOneToOne(r, ranges[0]);
      }
    }
  }

  // ---------------------------------------------------------------------------
  // The result of `organizePlaylist`

  /** The buckets before the final sort, with what the grouping guarantees
      about them. */
  lemma Unsorted(tracks: seq<Track>) returns (u: seq<OrganizedPlaylist>)
    requires |ValidTracks(tracks)| > 0
    ensures OrganizePlaylist(tracks) == SortGroups(u)
    ensures forall g :: g in u ==> HoldsItsTracks(g, ValidTracks(tracks))
    ensures forall t :: t in ValidTracks(tracks) ==> GroupKey(t) in Keys(u)
    ensures Distinct(Keys(u))
  {
    var valid := ValidTracks(tracks);
    var byRange := GroupBy(valid, RangeOf);
    RangeKeys(valid);
    u := RangeGroups(byRange.order, byRange.values);
    RangeGroupsSpec(valid, byRange.order, byRange.values);
    forall t | t in valid
      ensures RangeOf(t) in byRange.order
    {
      assert RangeOf(t) in KeySet(valid, RangeOf);
    }
  }

  /** Sorting moves buckets without changing them, so keys stay unique: a key
      fixes the whole bucket, and the buckets were pairwise different. */
  lemma SortKeepsKeysDistinct(u: seq<OrganizedPlaylist>, r: seq<OrganizedPlaylist>, valid: seq<Track>)
    requires multiset(u) == multiset(r)
    requires forall g :: g in u ==> HoldsItsTracks(g, valid)
    requires Distinct(Keys(u))
    ensures Distinct(Keys(r))
  {
    forall i, j | 0 <= i < j < |u|
      ensures u[i] != u[j]
    {
      assert Keys(u)[i] != Keys(u)[j];
    }
    DistinctPermutation(u, r);
    forall i, j | 0 <= i < j < |r|
      ensures Keys(r)[i] != Keys(r)[j]
    {
      assert r[i] in multiset(u) && r[j] in multiset(u);
    }
  }

  /** Every bucket of the result holds exactly the analysed tracks with its
      band and code, sorted by tempo with ties in input order, and none is
      empty. */
  lemma OrganizeBucketContents(tracks: seq<Track>)
    ensures forall g :: g in OrganizePlaylist(tracks) ==> HoldsItsTracks(g, ValidTracks(tracks))
  {
    if |ValidTracks(tracks)| > 0 {
      var u := Unsorted(tracks);
      forall g | g in OrganizePlaylist(tracks)
        ensures HoldsItsTracks(g, ValidTracks(tracks))
      {
        assert g in multiset(SortGroups(u));
      }
    }
  }

  /** Every analysed track has a bucket for its band and code. */
  lemma OrganizeCoversEveryTrack(tracks: seq<Track>)
    ensures forall t :: t in ValidTracks(tracks) ==> GroupKey(t) in Keys(OrganizePlaylist(tracks))
  {
    if |ValidTracks(tracks)| > 0 {
      var u := Unsorted(tracks);
      KeysPermutation(u, SortGroups(u));
    }
  }

  lemma KeysPermutation(u: seq<OrganizedPlaylist>, r: seq<OrganizedPlaylist>)
    requires multiset(u) == multiset(r)
    ensures forall k :: k in Keys(u) ==> k in Keys(r)
  {
    forall k | k in Keys(u)
      ensures k in Keys(r)
    {
      var i :| 0 <= i < |u| && Keys(u)[i] == k;
      assert u[i] in multiset(r);
      var j :| 0 <= j < |r| && r[j] == u[i];
      assert Keys(r)[j] == k;
    }
  }

  /** The buckets come out strictly increasing by bound and then by code, so
      no two share a band and a code. */
  lemma OrganizeStrictlyOrdered(tracks: seq<Track>)
    ensures var r := OrganizePlaylist(tracks);
      forall i, j :: 0 <= i < j < |r| ==> Before(r[i], r[j])
  {
    if |ValidTracks(tracks)| > 0 {
      var u := Unsorted(tracks);
      var r := SortGroups(u);
      SortKeepsKeysDistinct(u, r, ValidTracks(tracks));
      OrderedDistinctIsStrict(r);
    }
  }

  /** Codes are compared as text, not by wheel number: within a band, a
      `10A` bucket comes before a `2A` bucket. */
  lemma CodesCompareAsText(tracks: seq<Track>, i: int, j: int)
    requires 0 <= i < |OrganizePlaylist(tracks)| && 0 <= j < |OrganizePlaylist(tracks)|
    requires OrganizePlaylist(tracks)[i].bpm == OrganizePlaylist(tracks)[j].bpm
    requires OrganizePlaylist(tracks)[i].camelot == "10A" && OrganizePlaylist(tracks)[j].camelot == "2A"
    ensures i < j
  {
    OrganizeStrictlyOrdered(tracks);
    TextOrderInBand(OrganizePlaylist(tracks), i, j);
  }

  lemma TextOrderInBand(r: seq<OrganizedPlaylist>, i: int, j: int)
    requires forall i, j :: 0 <= i < j < |r| ==> Before(r[i], r[j])
    requires 0 <= i < |r| && 0 <= j < |r| && r[i].bpm == r[j].bpm
    requires r[i].camelot == "10A" && r[j].camelot == "2A"
    ensures i < j
  {
    assert StrLt("10A", "2A");
    BeforeAsymmetric(r[i], r[j]);
  }

  lemma BeforeIrreflexive(g: OrganizedPlaylist)
    ensures !Before(g, g)
  {
    StrLtIrreflexive(g.camelot);
  }

  lemma StrictKeysDistinct(r: seq<OrganizedPlaylist>)
    requires forall i, j :: 0 <= i < j < |r| ==> Before(r[i], r[j])
    ensures Distinct(Keys(r))
  {
    forall i, j | 0 <= i < j < |r|
      ensures Keys(r)[i] != Keys(r)[j]
    {
      if r[i].bpm == r[j].bpm && r[i].camelot == r[j].camelot {
        StrLtIrreflexive(r[i].camelot);
      }
    }
  }

  /** A track of a bucket carries the bucket's key. */
  lemma TrackInBucket(g: OrganizedPlaylist, valid: seq<Track>, t: Track)
    requires HoldsItsTracks(g, valid) && t in g.tracks
    ensures t in valid && GroupKey(t) == KeyOf(g)
  {
    assert t in multiset(g.tracks);
  }

  /** The tracks of buckets that hold their tracks are, up to order, the
      selections for the buckets' keys. */
  lemma {:induction false} FlattenIsSelects(gs: seq<OrganizedPlaylist>, valid: seq<Track>)
    requires forall g :: g in gs ==> HoldsItsTracks(g, valid)
    ensures multiset(Flatten(gs)) == multiset(ConcatSelect(valid, GroupKey, Keys(gs)))
  {
    if |gs| > 0 {
      FlattenIsSelects(gs[1..], valid);
      assert Keys(gs)[1..] == Keys(gs[1..]);
      assert gs[0] in gs;
    }
  }

  /** Partition: the buckets together hold every analysed track exactly once
      (the multiset of their tracks is that of the filtered input). */
  lemma OrganizePartition(tracks: seq<Track>)
    ensures multiset(Flatten(OrganizePlaylist(tracks))) == multiset(ValidTracks(tracks))
    ensures |Flatten(OrganizePlaylist(tracks))| == |ValidTracks(tracks)|
  {
    var r, valid := OrganizePlaylist(tracks), ValidTracks(tracks);
    OrganizeBucketContents(tracks);
    OrganizeCoversEveryTrack(tracks);
    OrganizeStrictlyOrdered(tracks);
    StrictKeysDistinct(r);
    FlattenIsSelects(r, valid);
    SelectPartition(valid, GroupKey, Keys(r));
    assert |multiset(Flatten(r))| == |multiset(valid)|;
  }

  /** A track appears in the result exactly when it is in the input and has
      tempo, key and mode. */
  lemma OrganizeMembership(tracks: seq<Track>, t: Track)
    ensures t in Flatten(OrganizePlaylist(tracks)) <==> t in tracks && IsAnalyzed(t)
  {
    OrganizePartition(tracks);
    assert t in Flatten(OrganizePlaylist(tracks)) <==> t in multiset(ValidTracks(tracks));
    if t in tracks && IsAnalyzed(t) {
      SelectContains(tracks, IsAnalyzed, t);
    }
  }

  /** The result is empty exactly when no track has tempo, key and mode. */
  lemma OrganizeEmpty(tracks: seq<Track>)
    ensures OrganizePlaylist(tracks) == [] <==> forall t :: t in tracks ==> !IsAnalyzed(t)
  {
    var valid := ValidTracks(tracks);
    if t :| t in tracks && IsAnalyzed(t) {
      SelectContains(tracks, IsAnalyzed, t);
      OrganizeCoversEveryTrack(tracks);
      assert GroupKey(t) in Keys(OrganizePlaylist(tracks));
    } else {
      SelectNone(tracks, IsAnalyzed, true);
    }
  }

  /** Within a bucket every track has the bucket's bound and code, the bound
      is one of the seven band starts and lies in the same band as the
      track's tempo (so the band label shown for the bucket is the track's),
      and the tracks ascend by tempo. */
  lemma OrganizeBucketsAgree(tracks: seq<Track>, g: OrganizedPlaylist, t: Track)
    requires g in OrganizePlaylist(tracks) && t in g.tracks
    ensures t in tracks && IsAnalyzed(t)
    ensures g.bpm == BandLowerBound(TempoOf(t)) && g.camelot == CodeOf(t)
    ensures g.bpm in {60, 80, 100, 120, 140, 160, 180}
    ensures GetBpmRange(g.bpm) == GetBpmRange(TempoOf(t))
    ensures GetBpmRangeDisplay(g.bpm) == GetBpmRangeDisplay(TempoOf(t))
    ensures SortedBy(g.tracks, TempoOf)
  {
    OrganizeBucketContents(tracks);
    TrackInBucket(g, ValidTracks(tracks), t);
    BandLowerBoundValues(TempoOf(t));
    RangeOfLowerBound(TempoOf(t));
    DisplayOfLowerBound(TempoOf(t));
  }

  /** A strictly ordered list of buckets, each holding its tracks and
      together covering every analysed track, is the result: those three
      properties determine `organizePlaylist` completely. */
  lemma OrganizeCharacterised(tracks: seq<Track>, other: seq<OrganizedPlaylist>)
    requires forall g :: g in other ==> HoldsItsTracks(g, ValidTracks(tracks))
    requires forall t :: t in ValidTracks(tracks) ==> GroupKey(t) in Keys(other)
    requires forall i, j :: 0 <= i < j < |other| ==> Before(other[i], other[j])
    ensures other == OrganizePlaylist(tracks)
  {
    var r, valid := OrganizePlaylist(tracks), ValidTracks(tracks);
    OrganizeBucketContents(tracks);
    OrganizeCoversEveryTrack(tracks);
    OrganizeStrictlyOrdered(tracks);
    SameBuckets(r, other, valid);
    SameBuckets(other, r, valid);
    StrictSameElements(r, other);
  }

  /** A key fixes the bucket, so two covering lists of buckets that hold
      their tracks have the same buckets. */
  lemma SameBuckets(a: seq<OrganizedPlaylist>, b: seq<OrganizedPlaylist>, valid: seq<Track>)
    requires forall g :: g in a ==> HoldsItsTracks(g, valid)
    requires forall g :: g in b ==> HoldsItsTracks(g, valid)
    requires forall t :: t in valid ==> GroupKey(t) in Keys(b)
    ensures forall g :: g in a ==> g in b
  {
    forall g | g in a
      ensures g in b
    {
      TrackInBucket(g, valid, g.tracks[0]);
      var j :| 0 <= j < |b| && Keys(b)[j] == KeyOf(g);
      assert b[j] in b;
    }
  }

  /** Two strictly ordered lists with the same elements are equal. */
  lemma {:induction false} StrictSameElements(a: seq<OrganizedPlaylist>, b: seq<OrganizedPlaylist>)
    requires forall i, j :: 0 <= i < j < |a| ==> Before(a[i], a[j])
    requires forall i, j :: 0 <= i < j < |b| ==> Before(b[i], b[j])
    requires forall g :: g in a <==> g in b
    ensures a == b
    decreases |a|
  {
    assert |a| > 0 ==> a[0] in b;
    assert |b| > 0 ==> b[0] in a;
    if |a| > 0 {
      HeadsMatch(a, b);
      forall g
        ensures g in a[1..] <==> g in b[1..]
      {
        TailMembership(a, g);
        TailMembership(b, g);
      }
      StrictSameElements(a[1..], b[1..]);
      assert a == [a[0]] + a[1..] && b == [b[0]] + b[1..];
    }
  }

  lemma HeadsMatch(a: seq<OrganizedPlaylist>, b: seq<OrganizedPlaylist>)
    requires |a| > 0 && |b| > 0
    requires forall i, j :: 0 <= i < j < |a| ==> Before(a[i], a[j])
    requires forall i, j :: 0 <= i < j < |b| ==> Before(b[i], b[j])
    requires forall g :: g in a <==> g in b
    ensures a[0] == b[0]
  {
    assert a[0] in b && b[0] in a;
    var i :| 0 <= i < |a| && a[i] == b[0];
    var j :| 0 <= j < |b| && b[j] == a[0];
    if i > 0 && j > 0 {
      BeforeAsymmetric(a[0], a[i]);
    }
  }

  lemma TailMembership(a: seq<OrganizedPlaylist>, g: OrganizedPlaylist)
    requires |a| > 0
    requires forall i, j :: 0 <= i < j < |a| ==> Before(a[i], a[j])
    ensures g in a[1..] <==> g in a && g != a[0]
  {
    if g in a[1..] {
      var i :| 0 <= i < |a| - 1 && a[1..][i] == g;
      assert Before(a[0], a[i + 1]);
      BeforeIrreflexive(a[0]);
    }
    if g in a && g != a[0] {
      var i :| 0 <= i < |a| && a[i] == g;
      assert a[1..][i - 1] == g;
    }
  }
}
