/** Record shapes and enumerations (shared/schema.ts), together with the vocal
    options the server accepts (server/lib/suno.ts `VoiceOptions`). Text columns
    whose values come from outside (genre, playlist type) stay `string`; the
    song status column is the enumeration its writers use. */
module Schema {
  import opened Wrappers

  // ---- Enumerations ----

  datatype Genre = Soul | Blues | HipHop | Reggae | Pop | Acoustic {
    function Name(): string {
      match this
      case Soul => "soul"
      case Blues => "blues"
      case HipHop => "hip-hop"
      case Reggae => "reggae"
      case Pop => "pop"
      case Acoustic => "acoustic"
    }
  }

  /** `GENRES`, in declaration order. */
  const GENRES: seq<string> := ["soul", "blues", "hip-hop", "reggae", "pop", "acoustic"]

  /** The genre named `s`, if any. */
  function ParseGenre(s: string): (r: Option<Genre>)
    ensures r.Some? ==> r.value.Name() == s
    ensures r.None? <==> s !in GENRES
  {
    if s == "soul" then Some(Soul)
    else if s == "blues" then Some(Blues)
    else if s == "hip-hop" then Some(HipHop)
    else if s == "reggae" then Some(Reggae)
    else if s == "pop" then Some(Pop)
    else if s == "acoustic" then Some(Acoustic)
    else None
  }

  /** `GENRES` lists six distinct names, and they are exactly the names of the genres. */
  lemma GenresEnumerated()
    ensures |GENRES| == 6
    ensures forall i, j :: 0 <= i < j < |GENRES| ==> GENRES[i] != GENRES[j]
    ensures forall g: Genre :: g.Name() in GENRES
    ensures forall s :: s in GENRES ==> ParseGenre(s).Some?
  {
  }

  /** Parsing a genre's name gives back the genre. */
  lemma ParseGenreName(g: Genre)
    ensures ParseGenre(g.Name()) == Some(g)
  {
  }

  datatype PlaylistType = Morning | Daytime | Bedtime | Custom {
    function Name(): string {
      match this
      case Morning => "morning"
      case Daytime => "daytime"
      case Bedtime => "bedtime"
      case Custom => "custom"
    }
  }

  /** `PLAYLIST_TYPES`, in declaration order. */
  const PLAYLIST_TYPES: seq<string> := ["morning", "daytime", "bedtime", "custom"]

  function ParsePlaylistType(s: string): (r: Option<PlaylistType>)
    ensures r.Some? ==> r.value.Name() == s
    ensures r.None? <==> s !in PLAYLIST_TYPES
  {
    if s == "morning" then Some(Morning)
    else if s == "daytime" then Some(Daytime)
    else if s == "bedtime" then Some(Bedtime)
    else if s == "custom" then Some(Custom)
    else None
  }

  lemma PlaylistTypesEnumerated()
    ensures |PLAYLIST_TYPES| == 4
    ensures forall i, j :: 0 <= i < j < |PLAYLIST_TYPES| ==> PLAYLIST_TYPES[i] != PLAYLIST_TYPES[j]
    ensures forall p: PlaylistType :: p.Name() in PLAYLIST_TYPES
    ensures forall p: PlaylistType :: ParsePlaylistType(p.Name()) == Some(p)
  {
  }

  datatype Gender = Male | Female {
    function Name(): string {
      match this
      case Male => "male"
      case Female => "female"
    }
  }

  function ParseGender(s: string): (r: Option<Gender>)
    ensures r.Some? ==> r.value.Name() == s
    ensures r.None? <==> s != "male" && s != "female"
  {
    if s == "male" then Some(Male) else if s == "female" then Some(Female) else None
  }

  datatype VocalStyle = Warm | Powerful | Soft | Energetic | Soulful | Gritty {
    function Name(): string {
      match this
      case Warm => "warm"
      case Powerful => "powerful"
      case Soft => "soft"
      case Energetic => "energetic"
      case Soulful => "soulful"
      case Gritty => "gritty"
    }
  }

  const VOCAL_STYLES: seq<string> := ["warm", "powerful", "soft", "energetic", "soulful", "gritty"]

  function ParseVocalStyle(s: string): (r: Option<VocalStyle>)
    ensures r.Some? ==> r.value.Name() == s
    ensures r.None? <==> s !in VOCAL_STYLES
  {
    if s == "warm" then Some(Warm)
    else if s == "powerful" then Some(Powerful)
    else if s == "soft" then Some(Soft)
    else if s == "energetic" then Some(Energetic)
    else if s == "soulful" then Some(Soulful)
    else if s == "gritty" then Some(Gritty)
    else None
  }

  /** Every option name parses back to its option. */
  lemma VoiceNamesRoundTrip()
    ensures forall g: Gender :: ParseGender(g.Name()) == Some(g)
    ensures forall v: VocalStyle :: ParseVocalStyle(v.Name()) == Some(v)
  {
  }

  /** The documented values of the song `status` column. */
  datatype SongStatus = Pending | Generating | Completed | Error {
    function Name(): string {
      match this
      case Pending => "pending"
      case Generating => "generating"
      case Completed => "completed"
      case Error => "error"
    }
  }

  /** The column default. */
  const DefaultStatus: SongStatus := Pending

  // ---- Records ----

  /** A row of `mantras`. The owner column is written by the storage layer only. */
  datatype Mantra = Mantra(id: string, owner: Option<string>, text: string, createdAt: int)

  /** A row of `songs`. `title`, `genre` and `lyrics` are required; `mantraId`,
      `audioUrl` and `playlistType` are nullable. */
  datatype Song = Song(
    id: string,
    owner: Option<string>,
    mantraId: Option<string>,
    title: string,
    genre: string,
    lyrics: string,
    audioUrl: Option<string>,
    status: SongStatus,
    playlistType: Option<string>,
    vocalGender: Option<Gender>,
    vocalStyle: Option<VocalStyle>,
    useExactLyrics: bool,
    createdAt: int)

  /** A row of `playlists`. */
  datatype Playlist = Playlist(id: string, name: string, kind: string, description: Option<string>, createdAt: int)

  /** The insert shape of a mantra (`InsertMantra`): everything but id and creation time. */
  datatype MantraInsert = MantraInsert(text: string, owner: Option<string>)

  /** The insert shape of a song (`InsertSong`); an absent status takes the column default. */
  datatype SongInsert = SongInsert(
    owner: Option<string>,
    mantraId: Option<string>,
    title: string,
    genre: string,
    lyrics: string,
    audioUrl: Option<string>,
    status: Option<SongStatus>,
    playlistType: Option<string>,
    vocalGender: Option<Gender>,
    vocalStyle: Option<VocalStyle>,
    useExactLyrics: bool)

  datatype PlaylistInsert = PlaylistInsert(name: string, kind: string, description: Option<string>)

  /** The row an insert produces, with the generated id and creation time. */
  function SongRow(ins: SongInsert, id: string, now: int): (s: Song)
    ensures s.id == id && s.createdAt == now
    ensures s.status == ins.status.GetOr(DefaultStatus)
    ensures ins.status.None? ==> s.status == Pending
    ensures s.title == ins.title && s.genre == ins.genre && s.lyrics == ins.lyrics
    ensures s.owner == ins.owner && s.mantraId == ins.mantraId && s.audioUrl == ins.audioUrl
    ensures s.playlistType == ins.playlistType && s.useExactLyrics == ins.useExactLyrics
    ensures s.vocalGender == ins.vocalGender && s.vocalStyle == ins.vocalStyle
  {
    Song(id, ins.owner, ins.mantraId, ins.title, ins.genre, ins.lyrics, ins.audioUrl,
         ins.status.GetOr(DefaultStatus), ins.playlistType, ins.vocalGender, ins.vocalStyle,
         ins.useExactLyrics, now)
  }
}
