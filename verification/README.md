# Playlist Organizer, modelled in Dafny

A model of the logic of Playlist-Organizer, a web app that reorders a Spotify
playlist for DJ mixing. The model covers the following parts:

- **The organizer** (`app/utils/playlistOrganizer.ts`). It keeps the tracks that carry a tempo, key and mode. It bands each tempo into a BPM range, classifies (key, mode) into a Camelot-style code through its own 24-name table, buckets the tracks by (band, code), sorts each bucket stably by tempo, and orders the buckets by band and then by code as text.
- **The track list** (`app/components/TrackList.tsx`): expand/collapse toggling, duration text, badge colours, the sections (buckets grouped by band label) and the totals shown for them.
- **The playlist search filter** (`app/components/PlaylistSelector.tsx`).
- **The Spotify helpers** (`app/utils/spotifyApi.ts`): the export loop that sends URIs in batches of 100 and stops at the first failed batch, the playlist check, and the index-aligned merge of audio features onto tracks.
- **The helpers of `app/page.tsx`** that build the organizer's input: the key-name lookup, the fallback analysis record, the merge of analyses onto tracks, the simulated analysis's Camelot lookup, and the list of URIs exported.

Every operation is a pure function over immutable datatypes, or one loop method (the export). The network is a parameter:

- a function from request to response for the batch POSTs;
- a function from track ids to an optional feature list;
- a `FetchResult` value for the playlist check.

JavaScript objects used as dictionaries become `Dict(order, values)`, which keeps the insertion order that `Object.entries` reports for non-numeric keys. The grouping idiom `if (!g[k]) g[k] = []; g[k].push(x)` is the fold `GroupBy`.

Facts about the organizer's table that the proofs establish:

- The table is not the conventional Camelot wheel. `Camelot.CamelotNotationIsFoldedWheel` proves it is the conventional wheel with every odd position folded onto the even one before it, so only even numbers occur (G major is `8B`).
- The second table, used in `app/page.tsx`'s simulated analysis, is the conventional wheel itself. The two agree exactly on the pitch classes whose conventional number is even.
- The rest of the model uses the organizer's table as written.

Modules:

| file | module | models |
|---|---|---|
| wrappers.dfy | Wrappers | optional values (`?` fields, `undefined`, `null`) |
| types.dfy | Types | the records of `app/types.ts` |
| strings.dfy | Strings | `toString`, `parseInt`, `split(..)[0]`, `padStart`, `toLowerCase`, `includes`, `trim`, `localeCompare` on codes |
| collections.dfy | Collections | filtering, insertion-ordered grouping, partitions, sums |
| sorting.dfy | Sorting | the stable tempo sort and its uniqueness |
| bpm.dfy | Bpm | `getBpmRange`, the parsed group bound, `getBpmRangeDisplay` |
| camelot.dfy | Camelot | `camelotWheel`, `getCamelotNotation` |
| organizer.dfy | Organizer | `organizePlaylist` |
| duration.dfy | Duration | `formatDuration` (both copies) |
| tracklist.dfy | TrackList | `toggleGroup`, `getCamelotColor`, group ids, sections, totals |
| playlistselector.dfy | PlaylistSelector | the search filter effect |
| spotifyapi.dfy | SpotifyApi | `addTracksToPlaylist`, `verifyPlaylistExists`, `getPlaylistTracksWithFeatures` |
| page.dfy | Page | `convertKeyToNumber`, fallback record, `tracksWithAnalysis`, simulated lookup, export URIs |

Facts about the code that the model follows as written:

- The table pairs keys a fifth apart (C with G, D with A), not enharmonic spellings.
- Only the 12 even-numbered codes can come out of the table.
- Tempos below 60 get the band bound 60, the bound of `60-79`.
- Every mode other than 1 reads as minor.

## Model

| member | source | states |
|---|---|---|
| Organizer.OrganizeMembership | app/utils/playlistOrganizer.ts:31-35 | a track appears in the output exactly when it is in the input and has tempo, key and mode; a track missing any of them never appears |
| Organizer.OrganizeEmpty | app/utils/playlistOrganizer.ts:37-39 | the output is empty exactly when no input track is analysed |
| Organizer.OrganizePartition | app/utils/playlistOrganizer.ts:42-78 | the buckets together hold each analysed track exactly as often as the input does; their sizes add up to the number of analysed tracks |
| Organizer.OrganizeBucketContents | app/utils/playlistOrganizer.ts:44-78 | every bucket holds exactly the analysed tracks with its (bound, code) key, stably sorted by tempo, and is not empty |
| Organizer.OrganizeCoversEveryTrack | app/utils/playlistOrganizer.ts:44-78 | every analysed track's (bound, code) key is the key of some bucket |
| Organizer.OrganizeBucketsAgree | app/utils/playlistOrganizer.ts:44-78 | a bucket's tracks come from the input, carry its band bound and code, and are sorted by tempo; the bound is one of 60..180 in steps of 20, and has the same range and label as each member's tempo |
| Organizer.OrganizeStrictlyOrdered | app/utils/playlistOrganizer.ts:82-87 | buckets are strictly ordered by bound, then by code as text, so no (bound, code) pair repeats |
| Organizer.CodesCompareAsText | app/utils/playlistOrganizer.ts:86 | within a band, a `10A` bucket comes before a `2A` bucket |
| Organizer.OrganizeCharacterised | app/utils/playlistOrganizer.ts:29-88 | any bucket list that holds the right tracks per key, covers every analysed track and is strictly ordered is exactly the organizer's output |
| Organizer.SortGroups | app/utils/playlistOrganizer.ts:82-87 | the final sort returns a permutation of the buckets in which no bucket follows one the comparator puts after it |
| Organizer.InsertGroup | app/utils/playlistOrganizer.ts:82-87 | inserting a bucket into an ordered list keeps it ordered and adds exactly that bucket |
| Organizer.BandGroupsSpec | app/utils/playlistOrganizer.ts:57-78 | the buckets of one band carry the band's parsed bound, hold their tracks, cover the band's tracks and have distinct codes |
| Organizer.RangeGroupsSpec | app/utils/playlistOrganizer.ts:57-79 | the buckets of several distinct bands hold their tracks, cover those bands' tracks and have distinct keys |
| Organizer.BandThenCode | app/utils/playlistOrganizer.ts:44-67 | grouping by band and then by code selects the same tracks, in the same order, as grouping by the (bound, code) pair |
| Sorting.StableSortBy | app/utils/playlistOrganizer.ts:71 | the result is sorted by tempo, is a permutation of the input, and keeps the input order among tracks of equal tempo |
| Sorting.InsertBy | app/utils/playlistOrganizer.ts:71 | inserting into a sorted list keeps it sorted, adds exactly the element and places it after nothing of equal key that came later |
| Sorting.StableSortUnique | app/utils/playlistOrganizer.ts:71 | any sorted list with the same tracks in the same order per tempo is the stable sort's result |
| Sorting.SortedSameSelects | app/utils/playlistOrganizer.ts:71 | two sorted lists with the same tracks per tempo value, in the same order, are equal |
| Collections.GroupBy | app/utils/playlistOrganizer.ts:42-52 | the grouping holds one entry for each key that occurs and no other, listed in the order the keys first occur; each entry is the elements of that key in input order and is not empty |
| Collections.GroupByPartition | app/utils/playlistOrganizer.ts:57-67 | the groups, concatenated in insertion order, are a permutation of the input |
| Collections.Place | app/utils/playlistOrganizer.ts:48-51 | one grouping step appends the element to its key's entry; a new key gets an entry placed after all existing keys; the other entries are left alone |
| Bpm.RangeBoundIsBandLowerBound | app/utils/playlistOrganizer.ts:91-99 | the number parsed out of a tempo's range string is that tempo's band lower bound: 60 below 80, 180 from 180, else the tempo rounded down to a multiple of 20 |
| Bpm.RangeBoundOneToOne | app/utils/playlistOrganizer.ts:74 | different range strings parse to different bounds, so grouping by range and by bound agree |
| Bpm.BandLowerBoundValues | app/utils/playlistOrganizer.ts:91-99 | a band bound is one of 60, 80, ..., 180 and not above the tempo unless the tempo is below 60 |
| Bpm.DisplayMatchesRange | app/utils/playlistOrganizer.ts:91-110 | two tempos get the same label exactly when they get the same range string |
| Bpm.DisplayOfLowerBound | app/utils/playlistOrganizer.ts:102-110 | the label of a band's bound is the label of every tempo in the band |
| Bpm.RangeOfLowerBound | app/utils/playlistOrganizer.ts:91-99 | a band's bound falls in the band itself |
| Bpm.BandExamples | app/utils/playlistOrganizer.ts:91-110 | 75 is in the 60 band, labelled Downtempo; 100 opens the House band; 180 is already Extreme |
| Camelot.CamelotClassification | app/utils/playlistOrganizer.ts:20-26 | for a key in 0..11 the code is a wheel code with an even number, never `Unknown`, ending in `B` exactly for mode 1; any other key gives `Unknown`, which is no wheel code |
| Camelot.CamelotNotationIsFoldedWheel | app/utils/playlistOrganizer.ts:4-17 | the table equals the conventional wheel position of the key with odd positions folded onto the even one before |
| Camelot.CamelotExamples | app/utils/playlistOrganizer.ts:4-26 | (0,1) gives `8B`, (9,0) gives `8A`, (6,1) gives `2B` |
| Strings.ParseInt | app/utils/playlistOrganizer.ts:74 | the parse fails exactly when the text does not start with a digit |
| Strings.BeforeFirst | app/utils/playlistOrganizer.ts:74 | the result is a prefix of the text that contains no separator, and it is followed by the separator unless it is the whole text |
| Strings.StrLtTransitive | app/utils/playlistOrganizer.ts:86 | the text order on codes is transitive |
| Strings.StrLtTotal | app/utils/playlistOrganizer.ts:86 | any two different codes are ordered one way or the other |
| Strings.StrLtAsymmetric | app/utils/playlistOrganizer.ts:86 | no two codes are ordered both ways |
| Duration.FormatDurationReadsBack | app/components/TrackList.tsx:25-29 | the text reads back as minutes, a colon and exactly two digits of seconds below 60, which together give the whole seconds of the duration |
| Duration.TwoDigitSeconds | app/components/TrackList.tsx:28 | a second count below 60 pads to two digits that denote it |
| Duration.DurationExamples | app/components/PlaylistSelector.tsx:58-62 | 59999 ms is `0:59`, 61000 ms is `1:01`, an hour is `60:00` |
| Strings.PadStart | app/components/TrackList.tsx:28 | the padded text has the requested width, ends with the original text and is filled in front |
| Strings.NatToString | app/components/TrackList.tsx:28 | the numeral is all digits, denotes the number, has no leading zero and is one digit exactly below 10 |
| TrackList.ToggleGroup | app/components/TrackList.tsx:15-23 | the id is in the result exactly when it was not in the set; every other id is unchanged |
| TrackList.ToggleTwice | app/components/TrackList.tsx:15-23 | toggling the same id twice restores the set |
| TrackList.GroupIdInjective | app/components/TrackList.tsx:84 | buckets with non-negative bounds and the same id have the same bound and code |
| TrackList.CamelotColor | app/components/TrackList.tsx:31-59 | the colour is gray exactly for a code outside the table |
| TrackList.ColorKeysAreWheelCodes | app/components/TrackList.tsx:31-59 | the colour table's codes are exactly the 24 wheel codes 1A..12B |
| TrackList.BucketColor | app/components/TrackList.tsx:31-59 | an organized bucket gets gray exactly when its code is `Unknown` |
| TrackList.SectionsPartition | app/components/TrackList.tsx:62-69 | each bucket lands in the section of its own label; sections keep the buckets' relative order, are not empty, and together hold each bucket once |
| TrackList.SectionsInOrder | app/components/TrackList.tsx:62-73 | the sections are listed in the order their labels first occur among the buckets, and only labels that occur are listed |
| TrackList.SectionLabelsMatchTempos | app/components/TrackList.tsx:62-69 | every track shown under a section has a tempo whose label is that section |
| TrackList.SectionTotalsAddUp | app/components/TrackList.tsx:78 | the sections' track totals add up to the number of tracks in all buckets |
| TrackList.SectionTotalsOfOrganized | app/components/TrackList.tsx:78 | for the organizer's output they add up to the number of analysed input tracks |
| TrackList.BucketDuration | app/components/TrackList.tsx:86 | a bucket's duration is the total duration of the analysed input tracks with its key |
| TrackList.DurationsAddUp | app/components/TrackList.tsx:86 | the bucket durations add up to the duration of all tracks in the buckets |
| TrackList.DurationsOfOrganized | app/components/TrackList.tsx:86 | over the organizer's output they add up to the duration of the analysed input tracks |
| PlaylistSelector.FilterPlaylists | app/components/PlaylistSelector.tsx:30-40 | the shown list is an order-preserving subsequence of the playlists |
| PlaylistSelector.FilterSpec | app/components/PlaylistSelector.tsx:30-40 | a blank term shows every playlist; any other term keeps each matching playlist as often as it occurs and no other |
| PlaylistSelector.FilterMembership | app/components/PlaylistSelector.tsx:34-37 | for a non-blank term a playlist is shown exactly when it is listed and its name, or its non-empty description, contains the term ignoring case |
| PlaylistSelector.FilterIgnoresCase | app/components/PlaylistSelector.tsx:35-36 | two terms that lower-case alike show the same list |
| PlaylistSelector.UntrimmedTermExample | app/components/PlaylistSelector.tsx:31-36 | the term is matched untrimmed: ` rock` finds no `Rock` playlist, `rock` and `ROCK` do |
| Strings.TrimEmptyIffBlank | app/components/PlaylistSelector.tsx:31 | trimming gives the empty text exactly for white space only |
| Strings.Contains | app/components/PlaylistSelector.tsx:35-36 | the term is contained exactly when it occurs at some position |
| Strings.Lower | app/components/PlaylistSelector.tsx:35-36 | lower-casing keeps the length and lower-cases each letter |
| SpotifyApi.BatchesConcat | app/utils/spotifyApi.ts:46-49 | the batches, concatenated in order, are exactly the URIs |
| SpotifyApi.BatchesShape | app/utils/spotifyApi.ts:46-50 | every batch holds 1 to 100 URIs and is numbered by its position from 1; all but the last hold 100; there are no batches exactly for no URIs |
| SpotifyApi.AddTracksToPlaylist | app/utils/spotifyApi.ts:39-75 | the batches sent are a prefix of the batches, carrying the URIs up to the stop point; success means all were sent and accepted; otherwise every batch before the last one sent was accepted and the last was not: a refused batch reports its number, status and text, a rejected fetch its number |
| SpotifyApi.VerifyPlaylistExists | app/utils/spotifyApi.ts:78-101 | the check answers yes exactly when the request completed with an ok status and a body that parses to a non-null value |
| SpotifyApi.NonNullTracks | app/utils/spotifyApi.ts:136 | a track is kept exactly when it is a present item, and the kept list is no longer than the items |
| SpotifyApi.NonNullTracksCount | app/utils/spotifyApi.ts:136 | each present track is kept exactly as many times as it is present |
| SpotifyApi.NonNullTracksOne | app/utils/spotifyApi.ts:136 | one item: a present track is kept and a null one dropped, so with NonNullTracksAppend the filter is fixed on every input |
| SpotifyApi.NonNullTracksAppend | app/utils/spotifyApi.ts:136 | filtering a concatenation concatenates the filtered parts, so the kept tracks keep the order of the items |
| SpotifyApi.NonNullCount | app/utils/spotifyApi.ts:136 | their number is the number of present items |
| SpotifyApi.MergeFeaturesSpec | app/utils/spotifyApi.ts:136-162 | the merge has one track per present item, keeps each track's other fields, and takes tempo, key and mode from the feature record at the same index, or none when that record is null or past the end of the list |
| SpotifyApi.GetPlaylistTracksWithFeatures | app/utils/spotifyApi.ts:120-163 | a failed track fetch and a failed feature fetch throw their messages; tracks come back exactly when both fetches succeed, and they are the merge |
| Page.ConvertKeyToNumberSpec | app/page.tsx:38-44 | the i-th pitch-class name gives i; any other name gives 0; a known name is the name at its result |
| Page.FallbackAgreesWithOrganizer | app/page.tsx:193-200 | the fallback's code `8B` is what the organizer computes for its key and mode, and its 120 BPM falls in the 120 band |
| Page.FindAnalysis | app/page.tsx:209 | the lookup finds nothing exactly when no analysis has the track's id, and otherwise finds one with that id |
| Page.FindAnalysisIsFirst | app/page.tsx:209 | the analysis found is the first one with the track's id |
| Page.TracksWithAnalysisSpec | app/page.tsx:208-216 | each merged track keeps its other fields and is analysed; its tempo is the analysis BPM, or 120 when there is no analysis or its BPM is 0; its key is the pitch class of the analysis key name, 0 without analysis or for an empty or unknown name; its mode is 0 exactly for a minor analysis, else 1 |
| Page.MergedKeySpec | app/page.tsx:213 | the merged key is in 0..11; a known key name reads back as itself through the pitch-class names; no analysis or an empty or unknown name gives 0 |
| Page.OrganizerKeepsMergedTracks | app/page.tsx:208-218 | the organizer's filter keeps every merged track, and its buckets hold exactly the merged tracks |
| Page.MergedBucketsHaveWheelCodes | app/page.tsx:208-218 | no bucket built from merged tracks has the `Unknown` code |
| Page.SimulatedIsConventional | app/page.tsx:247-250 | the simulated table is the conventional wheel position of each major key |
| Page.TablesAgreeIffEven | app/page.tsx:247-250 | the simulated table and the organizer's table agree on a major key exactly when its conventional number is even |
| Page.GMajorDisagrees | app/page.tsx:247-250 | G major is `9B` in the simulated table and `8B` in the organizer's |
| Page.ExportOfOrganized | app/page.tsx:300-304 | exporting the organizer's output sends the bucket tracks' URIs in bucket order, which are the analysed tracks' URIs with the same multiplicities, in ceil(n/100) batches that concatenate back to the list |

## Left out

- OAuth and proxy routes (`app/api/...`, `app/utils/spotifyAuth.ts`) and the plain fetch wrappers `createSpotifyPlaylist` and `getUserPlaylists`: they are request plumbing with no logic beyond a status check.
- React state, effects, JSX, the Web Playback SDK, `setTimeout` delays and progress percentages in `app/page.tsx`: they are presentation and async sequencing.
- The random part of the simulated analysis (`Math.random` BPM, key and mode): randomness is not modelled. Only its Camelot table lookup is.
- Console logging: it has no effect on results.
- Organizer.TempoOf: tempos are integers, so `Math.round` is the identity. Floating-point tempos are not modelled.
- A track's `tempo` of 0 reads as 0 in the sort, as `a.tempo || 0` does. NaN tempos are not modelled.
- Strings.StrLt: `localeCompare` is modelled as character-code order. That order agrees with it on the digit-and-letter codes and `Unknown`, the only texts compared.
- Strings.Lower: only ASCII letters are lower-cased. Unicode case mapping is not modelled.
- Strings.ParseInt: only the cases the organizer meets are modelled: leading digits, or none. Signs, white space and radix prefixes are not.
- TrackList.CamelotColor: names inherited from the object prototype (such as `toString`) would give a truthy function in JavaScript rather than gray. The model treats them as codes outside the table; the organizer only passes codes it produced itself.
- Page.ConvertKeyToNumber: names inherited from the object prototype (such as `toString`) would look up a function in JavaScript. The model treats them as unknown names.
- Page.FallbackAnalysis: the confidence is a real number and nothing reads it.
- SpotifyApi.VerifyPlaylistExists: reading the response body is abstracted to a flag saying whether it parses to a non-null JSON value, since `json()` throws for an unparsable body and the log line's `playlist.name` throws for `null`.
- SpotifyApi.AddTracksToPlaylist: the thrown error carries the batch number, status and text as fields of the outcome. It does not build the message string. A failure while reading a refused response's body text is not modelled: the body text is part of the answer.
- SpotifyApi.GetPlaylistTracksWithFeatures: the response bodies are abstracted. An item whose `track` field is missing (`undefined`) is treated like a `null` one and dropped, whereas the source keeps `undefined`. The error thrown when `items` or `audio_features` is absent from an ok response is not modelled.
- Collections.GroupBy: keys that look like array indices, which `Object.entries` lists first, never occur here, so plain insertion order is modelled.
