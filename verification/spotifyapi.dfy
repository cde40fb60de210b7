/** The pure parts of `app/utils/spotifyApi.ts`: splitting an export into
    requests of at most 100 URIs and stopping at the first rejected request,
    the verdict of a playlist check, and the index-aligned merge of audio
    features onto playlist tracks. Every HTTP exchange is an oracle: a
    function from the request to the response the server gives. */
module SpotifyApi {

  import opened Wrappers
  import opened Types

  // ---------------------------------------------------------------------------
  // Export batching (`addTracksToPlaylist`)

  /** The most URIs one request may carry. */
  const BatchSize: nat := 100

  /** One request: its 1-based number and the URIs it carries. */
  datatype Batch = Batch(number: nat, uris: seq<string>)

  /** What one POST produced: a server answer with its `ok` flag, status code
      and body text, or a rejected `fetch` (the network failed, no answer). */
  datatype Response = Answered(ok: bool, status: int, text: string) | Rejected

  /** A request the server accepted. */
  predicate Accepted(r: Response) {
    r.Answered? && r.ok
  }

  /** The outcome of an export: every batch was accepted; the numbered batch
      was refused with the given status and text (the error thrown at the
      end of the loop body); or the `fetch` of the numbered batch rejected,
      and its error propagates out of the loop. */
  datatype AddOutcome =
    | AllAdded
    | BatchFailed(number: nat, status: int, text: string)
    | NetworkFailed(number: nat)

  function Min(a: int, b: int): int {
    if a < b then a else b
  }

  /** The number of loop iterations: `ceil(n / 100)`. */
  function BatchCount(n: nat): nat {
    (n + BatchSize - 1) / BatchSize
  }

  /** The batches the loop forms: `trackUris.slice(i, i + 100)` for
      `i = 0, 100, ...` below the length, numbered `i / 100 + 1`. */
  function Batches(uris: seq<string>): (bs: seq<Batch>)
    ensures |bs| == BatchCount(|uris|)
  {
    seq(BatchCount(|uris|), k requires 0 <= k < BatchCount(|uris|) =>
      Batch(k + 1, uris[k * BatchSize..Min(k * BatchSize + BatchSize, |uris|)]))
  }

  /** The URIs of a list of batches, in order. */
  function ConcatUris(bs: seq<Batch>): seq<string> {
    if |bs| == 0 then [] else bs[0].uris + ConcatUris(bs[1..])
  }

  lemma ConcatUrisSnoc(bs: seq<Batch>, b: Batch)
    ensures ConcatUris(bs + [b]) == ConcatUris(bs) + b.uris
  {
    if |bs| > 0 {
      assert (bs + [b])[1..] == bs[1..] + [b];
      ConcatUrisSnoc(bs[1..], b);
    }
  }

  /** The first `k` batches carry the first `min(100 k, n)` URIs. */
  lemma {:induction false} BatchesPrefix(uris: seq<string>, k: nat)
    requires k <= BatchCount(|uris|)
    ensures ConcatUris(Batches(uris)[..k]) == uris[..Min(k * BatchSize, |uris|)]
  {
    if k > 0 {
      BatchesPrefix(uris, k - 1);
      var bs := Batches(uris);
      assert bs[..k] == bs[..k - 1] + [bs[k - 1]];
      ConcatUrisSnoc(bs[..k - 1], bs[k - 1]);
      assert (k - 1) * BatchSize < |uris|;
      assert Min((k - 1) * BatchSize, |uris|) == (k - 1) * BatchSize;
      assert uris[..Min(k * BatchSize, |uris|)]
          == uris[..(k - 1) * BatchSize] + uris[(k - 1) * BatchSize..Min(k * BatchSize, |uris|)];
    }
  }

  /** Concatenating the batches in order gives back exactly the URIs: nothing
      is lost, repeated or reordered. */
  lemma BatchesConcat(uris: seq<string>)
    ensures ConcatUris(Batches(uris)) == uris
  {
    var bs := Batches(uris);
    BatchesPrefix(uris, |bs|);
    assert bs[..|bs|] == bs;
  }

  /** Every batch holds between 1 and 100 URIs, all but the last exactly
      100; batches are numbered 1, 2, ... in order; and there are
      `ceil(n / 100)` of them, none for an empty export. */
  lemma BatchesShape(uris: seq<string>)
    ensures var bs := Batches(uris);
      && |bs| == BatchCount(|uris|)
      && (|uris| == 0 <==> |bs| == 0)
      && (forall k :: 0 <= k < |bs| ==> 1 <= |bs[k].uris| <= BatchSize && bs[k].number == k + 1)
      && (forall k :: 0 <= k < |bs| - 1 ==> |bs[k].uris| == BatchSize)
  {
    var bs := Batches(uris);
    forall k | 0 <= k < |bs|
      ensures 1 <= |bs[k].uris| <= BatchSize
      ensures k < |bs| - 1 ==> |bs[k].uris| == BatchSize
    {
      assert k * BatchSize < |uris|;
      if k < |bs| - 1 {
        assert (k + 1) * BatchSize < |uris|;
      }
    }
  }

  /** `addTracksToPlaylist(playlistId, trackUris)` against a server whose
      answer to each request is `respond(batch)`. Returns the outcome and the
      requests sent, in order. */
  method AddTracksToPlaylist(uris: seq<string>, respond: Batch -> Response)
    returns (outcome: AddOutcome, sent: seq<Batch>)
    ensures sent <= Batches(uris)
    ensures ConcatUris(sent) == uris[..Min(|sent| * BatchSize, |uris|)]
    ensures outcome.AllAdded? <==> sent == Batches(uris) && forall b :: b in sent ==> Accepted(respond(b))
    ensures !outcome.AllAdded? ==>
      && |sent| > 0
      && outcome.number == |sent|
      && !Accepted(respond(sent[|sent| - 1]))
      && forall j :: 0 <= j < |sent| - 1 ==> Accepted(respond(sent[j]))
    ensures outcome.BatchFailed? <==> !outcome.AllAdded? && respond(sent[|sent| - 1]).Answered?
    ensures outcome.BatchFailed? ==>
      && outcome.status == respond(sent[|sent| - 1]).status
      && outcome.text == respond(sent[|sent| - 1]).text
  {
    var bs := Batches(uris);
    var i := 0;
    sent := [];
    while i < |uris|
      invariant i % BatchSize == 0 && i / BatchSize <= |bs|
      invariant i < |uris| || i / BatchSize == |bs|
      invariant sent == bs[..i / BatchSize]
      invariant forall b :: b in sent ==> Accepted(respond(b))
      decreases |uris| - i
    {
      var batch := Batch(i / BatchSize + 1, uris[i..Min(i + BatchSize, |uris|)]);
      assert batch == bs[i / BatchSize];
      assert bs[..i / BatchSize + 1] == sent + [batch];
      sent := sent + [batch];
      var response := respond(batch);
      match response
      case Rejected =>
        outcome := NetworkFailed(batch.number);
        BatchesPrefix(uris, |sent|);
        return;
      case Answered(ok, status, text) =>
        if !ok {
          outcome := BatchFailed(batch.number, status, text);
          BatchesPrefix(uris, |sent|);
          return;
        }
      i := i + BatchSize;
    }
    assert bs[..|bs|] == bs;
    BatchesPrefix(uris, |sent|);
    outcome := AllAdded;
  }

  // ---------------------------------------------------------------------------
  // `verifyPlaylistExists`

  /** What a `fetch` of the playlist produced: a network error (the promise
      rejected), or a response with its `ok` flag and whether its body parses
      to a non-null JSON value (the log line reads `playlist.name`, which
      throws for `null`). */
  datatype FetchResult = NetworkError | Http(ok: bool, status: int, bodyIsObject: bool)

  /** `verifyPlaylistExists`: true for an ok response whose body parses to a
      non-null value; a non-ok status, a rejected fetch, an unparsable body
      (the `json()` call throws inside the `try`) and a `null` body (reading
      `playlist.name` throws inside the `try`) all give false. */
  function VerifyPlaylistExists(f: FetchResult): (found: bool)
    ensures found <==> f.Http? && f.ok && f.bodyIsObject
  {
    match f
    case NetworkError => false
    case Http(ok, _, bodyIsObject) => if ok then bodyIsObject else false
  }

  // ---------------------------------------------------------------------------
  // `getPlaylistTracksWithFeatures`

  /** The audio features Spotify reports for one track. */
  datatype AudioFeatures = AudioFeatures(tempo: int, key: int, mode: int)

  /** `items.map(item => item.track).filter(track => track !== null)`. */
  function NonNullTracks(items: seq<Option<Track>>): (ts: seq<Track>)
    ensures |ts| <= |items|
    ensures forall t :: t in ts <==> Some(t) in items
  {
    if |items| == 0 then []
    else
      var rest := NonNullTracks(items[1..]);
      assert forall o :: o in items <==> o == items[0] || o in items[1..];
      match items[0]
      case None => rest
      case Some(t) => [t] + rest
  }

  /** Each present track is kept exactly as often as it is present. */
  lemma {:induction false} NonNullTracksCount(items: seq<Option<Track>>, t: Track)
    ensures multiset(NonNullTracks(items))[t] == multiset(items)[Some(t)]
  {
    if |items| > 0 {
      var head := if items[0].Some? then [items[0].value] else [];
      assert items == [items[0]] + items[1..];
      assert NonNullTracks(items) == head + NonNullTracks(items[1..]);
      NonNullTracksCount(items[1..], t);
      CountStep(items[0], head, NonNullTracks(items[1..]), items[1..], t);
    }
  }

  /** Prepending one item, kept when present, adds its count on both sides. */
  lemma CountStep(o: Option<Track>, head: seq<Track>, rest: seq<Track>, tail: seq<Option<Track>>, t: Track)
    requires head == if o.Some? then [o.value] else []
    requires multiset(rest)[t] == multiset(tail)[Some(t)]
    ensures multiset(head + rest)[t] == multiset([o] + tail)[Some(t)]
  {
    assert multiset([o] + tail) == multiset{o} + multiset(tail);
    assert multiset(head + rest) == multiset(head) + multiset(rest);
  }

  /** The filter keeps the order of the items: filtering a concatenation
      concatenates the filtered parts, so a present track comes before every
      track present later in the list. */
  lemma {:induction false} NonNullTracksAppend(a: seq<Option<Track>>, b: seq<Option<Track>>)
    ensures NonNullTracks(a + b) == NonNullTracks(a) + NonNullTracks(b)
  {
    if |a| > 0 {
      var head := if a[0].Some? then [a[0].value] else [];
      assert (a + b)[0] == a[0];
      assert (a + b)[1..] == a[1..] + b;
      assert NonNullTracks(a + b) == head + NonNullTracks(a[1..] + b);
      assert NonNullTracks(a) == head + NonNullTracks(a[1..]);
      NonNullTracksAppend(a[1..], b);
    } else {
      assert a + b == b;
    }
  }

  /** One item: a present track is kept, a null one dropped. */
  lemma NonNullTracksOne(o: Option<Track>)
    ensures NonNullTracks([o]) == if o.Some? then [o.value] else []
  {
    assert [o][1..] == [];
  }

  /** The number of present tracks. */
  function CountPresent(items: seq<Option<Track>>): nat {
    if |items| == 0 then 0 else (if items[0].Some? then 1 else 0) + CountPresent(items[1..])
  }

  lemma {:induction false} NonNullCount(items: seq<Option<Track>>)
    ensures |NonNullTracks(items)| == CountPresent(items)
  {
    if |items| > 0 {
      NonNullCount(items[1..]);
    }
  }

  /** `features[index]`, undefined (here `None`) past the end or when the
      service returned `null` for that track. */
  function FeatureAt(features: seq<Option<AudioFeatures>>, i: nat): Option<AudioFeatures> {
    if i < |features| then features[i] else None
  }

  /** `{...track, tempo: f?.tempo, key: f?.key, mode: f?.mode}`. */
  function WithFeatures(t: Track, f: Option<AudioFeatures>): Track {
    match f
    case Some(a) => t.(tempo := Some(a.tempo), key := Some(a.key), mode := Some(a.mode))
    case None => t.(tempo := None, key := None, mode := None)
  }

  /** The merge at the end of `getPlaylistTracksWithFeatures`: the `i`-th
      present track with the `i`-th feature record. */
  function MergeFeatures(items: seq<Option<Track>>, features: seq<Option<AudioFeatures>>): (merged: seq<Track>)
    ensures |merged| == |NonNullTracks(items)|
  {
    var ts := NonNullTracks(items);
    seq(|ts|, i requires 0 <= i < |ts| => WithFeatures(ts[i], FeatureAt(features, i)))
  }

  /** The merge keeps one track per present item, in order, with only tempo,
      key and mode replaced: taken from the aligned feature record, absent
      when there is none. */
  lemma MergeFeaturesSpec(items: seq<Option<Track>>, features: seq<Option<AudioFeatures>>)
    ensures var merged, ts := MergeFeatures(items, features), NonNullTracks(items);
      && |merged| == CountPresent(items)
      && (forall i :: 0 <= i < |merged| ==>
           && merged[i].id == ts[i].id && merged[i].uri == ts[i].uri && merged[i].name == ts[i].name
           && merged[i].artists == ts[i].artists && merged[i].album == ts[i].album
           && merged[i].durationMs == ts[i].durationMs)
      && (forall i :: 0 <= i < |merged| ==>
           if i < |features| && features[i].Some? then
             && merged[i].tempo == Some(features[i].value.tempo)
             && merged[i].key == Some(features[i].value.key)
             && merged[i].mode == Some(features[i].value.mode)
           else
             merged[i].tempo.None? && merged[i].key.None? && merged[i].mode.None?)
  {
    NonNullCount(items);
  }

  /** How a request of `getPlaylistTracksWithFeatures` ends: with the tracks,
      or with the error it throws. */
  datatype Fetched = Fetched(tracks: seq<Track>) | Thrown(message: string)

  /** The identifiers sent to the audio-features endpoint, in track order. */
  function TrackIds(ts: seq<Track>): (ids: seq<string>)
    ensures |ids| == |ts|
    ensures forall i :: 0 <= i < |ts| ==> ids[i] == ts[i].id
  {
    seq(|ts|, i requires 0 <= i < |ts| => ts[i].id)
  }

  /** `getPlaylistTracksWithFeatures(accessToken, playlistId)`. The
      playlist-tracks response is `items` (`None` when it is not ok); the
      features response for a list of ids is `featuresFor(ids)` (`None` when
      it is not ok). */
  function GetPlaylistTracksWithFeatures(
    items: Option<seq<Option<Track>>>,
    featuresFor: seq<string> -> Option<seq<Option<AudioFeatures>>>): (r: Fetched)
    ensures items.None? ==> r == Thrown("Failed to fetch playlist tracks")
    ensures items.Some? && featuresFor(TrackIds(NonNullTracks(items.value))).None? ==>
      r == Thrown("Failed to fetch audio features")
    ensures r.Fetched? <==> items.Some? && featuresFor(TrackIds(NonNullTracks(items.value))).Some?
    ensures r.Fetched? ==>
      r.tracks == MergeFeatures(items.value, featuresFor(TrackIds(NonNullTracks(items.value))).value)
  {
    match items
    case None => Thrown("Failed to fetch playlist tracks")
    case Some(its) =>
      var ts := NonNullTracks(its);
      match featuresFor(TrackIds(ts))
      case None => Thrown("Failed to fetch audio features")
      case Some(features) => Fetched(MergeFeatures(its, features))
  }
}
