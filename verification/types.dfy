/** The records of `app/types.ts` that the organizer and its callers pass
    around. Optional fields (`tempo?`, `key?`, `mode?`) are `Option`s. */
module Types {

  import opened Wrappers

  datatype Artist = Artist(id: string, name: string)

  datatype Image = Image(url: string, width: int, height: int)

  datatype Album = Album(id: string, name: string, images: seq<Image>)

  /** A playlist track. `tempo` is in beats per minute, `key` is the pitch
      class (0 = C, 1 = C#, ...), `mode` is 1 for major and 0 for minor;
      all three are absent until audio analysis has supplied them. */
  datatype Track = Track(
    id: string,
    uri: string,
    name: string,
    artists: seq<Artist>,
    album: Album,
    durationMs: nat,
    tempo: Option<int>,
    key: Option<int>,
    mode: Option<int>)

  /** One output group of the organizer: the lower bound of its tempo band,
      its Camelot code and its tracks. */
  datatype OrganizedPlaylist = OrganizedPlaylist(bpm: int, camelot: string, tracks: seq<Track>)

  /** A playlist as listed for the current user. */
  datatype Playlist = Playlist(
    id: string,
    name: string,
    description: string,
    images: seq<Image>,
    total: nat)
}
