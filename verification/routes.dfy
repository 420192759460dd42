/** The HTTP routes (server/routes.ts). They query the database directly, without an
    owner: inserted rows carry no owner and lookups match on id alone. Request bodies
    are JSON objects whose fields are modelled one by one; the services the
    generation route calls are represented by their replies. */
module Routes {
  import opened Wrappers
  import opened Seqs
  import opened Schema
  import opened Storage
  import OpenAi
  import Suno

  /** One field of a JSON request body; `Absent` is a missing key and `Other`
      anything that is neither a string nor a boolean (numbers, null, objects). */
  datatype Json = Absent | Str(s: string) | Bool(b: bool) | Other

  datatype Body =
    | SongJson(song: Song)
    | SongsJson(songs: seq<Song>)
    | PlaylistJson(playlist: Playlist)
    | PlaylistsJson(playlists: seq<Playlist>)
    | Received
    | ErrorJson(message: string)
    | Undefined

  datatype Response = Response(status: int, body: Body)

  const InvalidRequest: Response := Response(400, ErrorJson("Invalid request data"))

  // ---- Validation of the generation request ----

  /** The fields of `/api/songs/generate` (routes.ts:53-60). */
  datatype GenerateBody = GenerateBody(
    text: Json, genre: Json, playlistType: Json, vocalGender: Json, vocalStyle: Json, useExactLyrics: Json)

  /** A generation request that passed validation. */
  datatype GenerateInput = GenerateInput(
    text: string,
    genre: Genre,
    playlistType: Option<PlaylistType>,
    vocalGender: Option<Gender>,
    vocalStyle: Option<VocalStyle>,
    useExactLyrics: Option<bool>)

  /** The playlist types a generation request may name: every type but "custom". */
  const GENERATE_PLAYLIST_TYPES: seq<string> := ["morning", "daytime", "bedtime"]

  /** An optional enumeration field: missing, or a string among the allowed names. */
  predicate OptionalAmong(j: Json, names: seq<string>) {
    j.Absent? || (j.Str? && j.s in names)
  }

  /** The schema of routes.ts:53-60, field by field. */
  predicate ValidGenerateBody(b: GenerateBody) {
    && b.text.Str? && |b.text.s| >= 1
    && b.genre.Str? && b.genre.s in GENRES
    && OptionalAmong(b.playlistType, GENERATE_PLAYLIST_TYPES)
    && OptionalAmong(b.vocalGender, ["male", "female"])
    && OptionalAmong(b.vocalStyle, VOCAL_STYLES)
    && (b.useExactLyrics.Absent? || b.useExactLyrics.Bool?)
  }

  function ParseOptional<T>(j: Json, parse: string -> Option<T>): Option<Option<T>> {
    match j
    case Absent => Some(None)
    case Str(s) => if parse(s).Some? then Some(parse(s)) else None
    case _ => None
  }

  function ParseGeneratePlaylist(s: string): Option<PlaylistType> {
    if s == "custom" then None else ParsePlaylistType(s)
  }

  /** `bodySchema.parse`: a parsed request exactly when the body is valid, carrying
      the body's values. */
  function ParseGenerate(b: GenerateBody): (r: Option<GenerateInput>)
    ensures r.Some? <==> ValidGenerateBody(b)
    ensures r.Some? ==> r.value.text == b.text.s && r.value.genre.Name() == b.genre.s
    ensures r.Some? && r.value.playlistType.Some? ==> b.playlistType == Str(r.value.playlistType.value.Name())
    ensures r.Some? && r.value.playlistType.Some? ==> r.value.playlistType.value != Custom
    ensures r.Some? ==> EncodeGenerate(r.value) == b
  {
    if !b.text.Str? || |b.text.s| < 1 || !b.genre.Str? then None
    else
      var genre := ParseGenre(b.genre.s);
      var playlist := ParseOptional(b.playlistType, ParseGeneratePlaylist);
      var gender := ParseOptional(b.vocalGender, ParseGender);
      var style := ParseOptional(b.vocalStyle, ParseVocalStyle);
      var exact := match b.useExactLyrics
        case Absent => Some(None)
        case Bool(x) => Some(Some(x))
        case _ => None;
      if genre.None? || playlist.None? || gender.None? || style.None? || exact.None? then None
      else Some(GenerateInput(b.text.s, genre.value, playlist.value, gender.value, style.value, exact.value))
  }

  /** The body a client would send for a request. */
  function EncodeGenerate(g: GenerateInput): GenerateBody {
    GenerateBody(
      Str(g.text),
      Str(g.genre.Name()),
      EncodePlaylistType(g.playlistType),
      EncodeGender(g.vocalGender),
      EncodeStyle(g.vocalStyle),
      match g.useExactLyrics case Some(x) => Bool(x) case None => Absent)
  }

  function EncodePlaylistType(x: Option<PlaylistType>): Json {
    match x case Some(p) => Str(p.Name()) case None => Absent
  }

  function EncodeGender(x: Option<Gender>): Json {
    match x case Some(v) => Str(v.Name()) case None => Absent
  }

  function EncodeStyle(x: Option<VocalStyle>): Json {
    match x case Some(v) => Str(v.Name()) case None => Absent
  }

  lemma ParseEncodePlaylistType(x: Option<PlaylistType>)
    requires x != Some(Custom)
    ensures ParseOptional(EncodePlaylistType(x), ParseGeneratePlaylist) == Some(x)
  {
    PlaylistTypesEnumerated();
  }

  lemma ParseEncodeVoice(x: Option<Gender>, y: Option<VocalStyle>)
    ensures ParseOptional(EncodeGender(x), ParseGender) == Some(x)
    ensures ParseOptional(EncodeStyle(y), ParseVocalStyle) == Some(y)
  {
    VoiceNamesRoundTrip();
  }

  /** Every request with non-empty text and a non-custom playlist type survives
      encoding and validation unchanged. */
  lemma ParseEncodeGenerate(g: GenerateInput)
    requires |g.text| >= 1
    requires g.playlistType != Some(Custom)
    ensures ParseGenerate(EncodeGenerate(g)) == Some(g)
  {
    ParseGenreName(g.genre);
    ParseEncodePlaylistType(g.playlistType);
    ParseEncodeVoice(g.vocalGender, g.vocalStyle);
  }

  // ---- The generation workflow ----

  /** How the awaited `generateMusic` call settled: a value, or a rejection with the
      thrown value's message when it was an `Error`. */
  datatype MusicOutcome = Resolved(result: Suno.MusicResult) | Rejected(message: Option<string>)

  /** Everything the generation route receives from outside besides the body: the
      ids and time the database assigns, and the services' replies. */
  datatype GenerateEnv = GenerateEnv(
    mantraId: string,
    songId: string,
    now: int,
    titleReply: OpenAi.ChatReply,
    lyricsReply: OpenAi.ChatReply,
    music: MusicOutcome)

  /** `db.insert(mantras).values({ text })`: the row has no owner. */
  function InsertMantra(db: Db, text: string, id: string, now: int): (r: (Db, Mantra))
    ensures r.1 == Mantra(id, None, text, now)
    ensures r.0 == db.(mantras := db.mantras + [r.1])
  {
    var m := Mantra(id, None, text, now);
    (db.(mantras := db.mantras + [m]), m)
  }

  /** The insert of routes.ts:76-86: status "generating", no owner, no track yet,
      exact lyrics off unless requested. */
  function NewSong(g: GenerateInput, mantraId: string, title: string, lyrics: string): (r: SongInsert)
    ensures r.status == Some(Generating) && r.owner.None? && r.audioUrl.None?
    ensures r.mantraId == Some(mantraId) && r.title == title && r.lyrics == lyrics
    ensures r.genre == g.genre.Name()
    ensures r.useExactLyrics <==> g.useExactLyrics == Some(true)
    ensures r.playlistType.Some? <==> g.playlistType.Some?
    ensures g.playlistType.Some? ==> r.playlistType == Some(g.playlistType.value.Name())
    ensures r.vocalGender == g.vocalGender && r.vocalStyle == g.vocalStyle
  {
    SongInsert(
      None, Some(mantraId), title, g.genre.Name(), lyrics, None, Some(Generating),
      match g.playlistType case Some(p) => Some(p.Name()) case None => None,
      g.vocalGender, g.vocalStyle, g.useExactLyrics.GetOr(false))
  }

  /** `db.update(songs).set(...).where(eq(songs.id, id)).returning()`: every row with
      the id is patched and the first patched row is returned. */
  function UpdateById(db: Db, id: string, p: SongPatch): (r: (Db, Option<Song>))
    ensures r.0.mantras == db.mantras && r.0.playlists == db.playlists
    ensures |r.0.songs| == |db.songs|
    ensures forall i :: 0 <= i < |db.songs| ==>
              r.0.songs[i] == if db.songs[i].id == id then ApplyPatch(db.songs[i], p) else db.songs[i]
    ensures r.1.None? <==> forall i :: 0 <= i < |db.songs| ==> db.songs[i].id != id
  {
    var songs := UpdateWhere(db.songs, IdIs(id), Patcher(p));
    (db.(songs := songs), FirstWhere(songs, IdIs(id)))
  }

  /** The row filter `eq(songs.id, id)`. */
  function IdIs(id: string): Song -> bool {
    (s: Song) => s.id == id
  }

  function MusicPatch(m: Suno.MusicResult): SongPatch {
    NoChange.(audioUrl := Some(Some(m.audioUrl)), status := Some(m.status))
  }

  const ErrorPatch: SongPatch := NoChange.(status := Some(Error))

  const MusicFailedMessage: string := "Music generation failed. Please try again."

  /** Steps 5 of routes.ts:88-121: store the music result, or mark the song failed. */
  function FinishGeneration(db: Db, songId: string, music: MusicOutcome): (r: (Db, Response))
  {
    match music
    case Resolved(m) =>
      var (db1, updated) := UpdateById(db, songId, MusicPatch(m));
      (db1, Response(200, if updated.Some? then SongJson(updated.value) else Undefined))
    case Rejected(message) =>
      var (db1, _) := UpdateById(db, songId, ErrorPatch);
      (db1, Response(500, ErrorJson(message.GetOr(MusicFailedMessage))))
  }

  /** `POST /api/songs/generate` (routes.ts:51-130). */
  function GenerateSong(db: Db, b: GenerateBody, env: GenerateEnv): (r: (Db, Response))
  {
    match ParseGenerate(b)
    case None => (db, InvalidRequest)
    case Some(g) =>
      var (db1, mantra) := InsertMantra(db, g.text, env.mantraId, env.now);
      var title := OpenAi.GenerateSongTitle(g.text, env.titleReply);
      var lyrics := OpenAi.GenerateLyrics(g.text, g.useExactLyrics.GetOr(false), env.lyricsReply);
      if lyrics.Failure? then (db1, Response(500, ErrorJson("Failed to generate song")))
      else
        var ins := NewSong(g, mantra.id, title, lyrics.value);
        var row := SongRow(ins, env.songId, env.now);
        var db2 := db1.(songs := db1.songs + [row]);
        FinishGeneration(db2, row.id, env.music)
  }

  /** The song row the workflow inserts. */
  function InsertedSong(g: GenerateInput, env: GenerateEnv, lyrics: string): Song {
    SongRow(NewSong(g, env.mantraId, OpenAi.GenerateSongTitle(g.text, env.titleReply), lyrics), env.songId, env.now)
  }

  /** An invalid body is answered 400 and writes nothing. */
  lemma InvalidRequestWritesNothing(db: Db, b: GenerateBody, env: GenerateEnv)
    requires !ValidGenerateBody(b)
    ensures GenerateSong(db, b, env) == (db, InvalidRequest)
  {
  }

  /** A lyrics failure is answered 500 after the mantra was stored, and no song exists. */
  lemma LyricsFailureKeepsMantra(db: Db, b: GenerateBody, env: GenerateEnv)
    requires ValidGenerateBody(b)
    requires var g := ParseGenerate(b).value;
             OpenAi.GenerateLyrics(g.text, g.useExactLyrics.GetOr(false), env.lyricsReply).Failure?
    ensures var (db1, resp) := GenerateSong(db, b, env);
            && resp == Response(500, ErrorJson("Failed to generate song"))
            && db1.songs == db.songs && db1.playlists == db.playlists
            && db1.mantras == db.mantras + [Mantra(env.mantraId, None, b.text.s, env.now)]
  {
  }

  /** Exact-lyrics requests never fail before the song is stored. */
  lemma ExactRequestsReachMusic(db: Db, b: GenerateBody, env: GenerateEnv)
    requires ValidGenerateBody(b) && b.useExactLyrics == Bool(true)
    ensures OpenAi.GenerateLyrics(b.text.s, true, env.lyricsReply).Success?
    ensures ParseGenerate(b).value.useExactLyrics == Some(true)
  {
  }

  /** The database state the workflow reaches once lyrics succeed: mantra and song
      stored, the song still "generating". */
  function Staged(db: Db, g: GenerateInput, env: GenerateEnv, lyrics: string): Db {
    Db(db.mantras + [Mantra(env.mantraId, None, g.text, env.now)],
       db.songs + [InsertedSong(g, env, lyrics)],
       db.playlists)
  }

  /** After successful lyrics the route stores mantra and song, then settles the music. */
  lemma WorkflowOrder(db: Db, b: GenerateBody, env: GenerateEnv, lyrics: string)
    requires ValidGenerateBody(b)
    requires var g := ParseGenerate(b).value;
             OpenAi.GenerateLyrics(g.text, g.useExactLyrics.GetOr(false), env.lyricsReply) == Success(lyrics)
    ensures var g := ParseGenerate(b).value;
            GenerateSong(db, b, env) == FinishGeneration(Staged(db, g, env, lyrics), env.songId, env.music)
  {
  }

  /** Updating by the id of a row just appended, whose id no earlier row carries,
      patches that row alone and returns it. */
  lemma UpdateFreshRow(db: Db, row: Song, p: SongPatch)
    requires forall i :: 0 <= i < |db.songs| ==> db.songs[i].id != row.id
    ensures UpdateById(db.(songs := db.songs + [row]), row.id, p) ==
            (db.(songs := db.songs + [ApplyPatch(row, p)]), Some(ApplyPatch(row, p)))
  {
    FreshRowPatched(db, row, p);
    var after := db.songs + [ApplyPatch(row, p)];
    FirstIsLast(after, row.id);
  }

  /** The table after updating a freshly appended row: that row patched, the rest kept. */
  lemma FreshRowPatched(db: Db, row: Song, p: SongPatch)
    requires forall i :: 0 <= i < |db.songs| ==> db.songs[i].id != row.id
    ensures UpdateById(db.(songs := db.songs + [row]), row.id, p).0 ==
            db.(songs := db.songs + [ApplyPatch(row, p)])
  {
    var before := db.songs + [row];
    var after := db.songs + [ApplyPatch(row, p)];
    var db2 := UpdateById(db.(songs := before), row.id, p).0;
    forall i | 0 <= i < |after|
      ensures db2.songs[i] == after[i]
    {
      if i < |db.songs| {
        assert before[i] == db.songs[i];
      } else {
        assert before[i] == row;
      }
    }
    assert db2.songs == after;
  }

  /** When the music call resolves, the new song — and only it — receives the track
      and status, and the updated song is the response. */
  lemma MusicResolvedStoresResult(db: Db, row: Song, m: Suno.MusicResult)
    requires forall i :: 0 <= i < |db.songs| ==> db.songs[i].id != row.id
    ensures var stored := row.(audioUrl := Some(m.audioUrl), status := m.status);
            FinishGeneration(db.(songs := db.songs + [row]), row.id, Resolved(m)) ==
            (db.(songs := db.songs + [stored]), Response(200, SongJson(stored)))
  {
    UpdateFreshRow(db, row, MusicPatch(m));
  }

  /** When the music call rejects, the new song is marked "error", its track stays as
      it was, and the response is 500 with the error's message. */
  lemma MusicRejectedMarksError(db: Db, row: Song, message: Option<string>)
    requires forall i :: 0 <= i < |db.songs| ==> db.songs[i].id != row.id
    ensures FinishGeneration(db.(songs := db.songs + [row]), row.id, Rejected(message)) ==
            (db.(songs := db.songs + [row.(status := Error)]), Response(500, ErrorJson(message.GetOr(MusicFailedMessage))))
  {
    UpdateFreshRow(db, row, ErrorPatch);
  }

  /** With a fresh id, the first row carrying it is the one appended last. */
  lemma FirstIsLast(s: seq<Song>, id: string)
    requires |s| > 0 && s[|s| - 1].id == id
    requires forall i :: 0 <= i < |s| - 1 ==> s[i].id != id
    ensures FirstWhere(s, IdIs(id)) == Some(s[|s| - 1])
  {
  }

  /** `generateMusic` as implemented always resolves, so once lyrics succeed the
      route answers 200 with the new song "completed" or still "generating": its
      error branch is never taken. The song id is fresh, as the database's random
      uuid default makes it. */
  lemma MusicNeverRejects(db: Db, b: GenerateBody, env: GenerateEnv, suno: Suno.SunoEnv, lyrics: string)
    requires ValidGenerateBody(b)
    requires var g := ParseGenerate(b).value;
             OpenAi.GenerateLyrics(g.text, g.useExactLyrics.GetOr(false), env.lyricsReply) == Success(lyrics)
    requires forall i :: 0 <= i < |db.songs| ==> db.songs[i].id != env.songId
    requires |suno.polls| >= Suno.MaxAttempts && env.music == Resolved(Suno.MusicFor(suno))
    ensures var (db1, resp) := GenerateSong(db, b, env);
            && resp.status == 200 && resp.body.SongJson? && resp.body.song.id == env.songId
            && (resp.body.song.status == Completed || resp.body.song.status == Generating)
            && db1.songs == db.songs + [resp.body.song]
  {
    var g := ParseGenerate(b).value;
    WorkflowOrder(db, b, env, lyrics);
    Suno.MusicResultShape(suno);
    var m := Suno.MusicFor(suno);
    var row := InsertedSong(g, env, lyrics);
    var pre := db.(mantras := db.mantras + [Mantra(env.mantraId, None, g.text, env.now)]);
    assert Staged(db, g, env, lyrics) == pre.(songs := pre.songs + [row]);
    MusicResolvedStoresResult(pre, row, m);
  }

  /** The generation route keeps the database valid, whatever the services reply,
      given fresh ids for the new mantra and song and a clock that has not run back. */
  lemma GenerateSongPreservesValid(db: Db, b: GenerateBody, env: GenerateEnv)
    requires Valid(db) && NotBefore(db, env.now)
    requires forall i :: 0 <= i < |db.mantras| ==> db.mantras[i].id != env.mantraId
    requires forall i :: 0 <= i < |db.songs| ==> db.songs[i].id != env.songId
    ensures Valid(GenerateSong(db, b, env).0)
  {
    if ValidGenerateBody(b) {
      var g := ParseGenerate(b).value;
      var m := Mantra(env.mantraId, None, g.text, env.now);
      var pre := db.(mantras := db.mantras + [m]);
      AppendMantraValid(db, m);
      var lyrics := OpenAi.GenerateLyrics(g.text, g.useExactLyrics.GetOr(false), env.lyricsReply);
      if lyrics.Success? {
        WorkflowOrder(db, b, env, lyrics.value);
        var row := InsertedSong(g, env, lyrics.value);
        assert Staged(db, g, env, lyrics.value) == pre.(songs := pre.songs + [row]);
        match env.music
        case Resolved(result) =>
          MusicResolvedStoresResult(pre, row, result);
          AppendSongValid(pre, row.(audioUrl := Some(result.audioUrl), status := result.status));
        case Rejected(message) =>
          MusicRejectedMarksError(pre, row, message);
          AppendSongValid(pre, row.(status := Error));
      }
    }
  }

  // ---- Read routes ----

  /** `POST /api/suno/callback` acknowledges and changes nothing. */
  function Callback(db: Db): (r: (Db, Response))
    ensures r.0 == db && r.1.status == 200
  {
    (db, Response(200, Received))
  }

  /** `GET /api/songs`: every song in creation order (the table order). */
  function AllSongs(db: Db): (r: Response)
    ensures r.status == 200 && r.body.SongsJson?
    ensures Valid(db) ==> SortedBy(r.body.songs, (s: Song) => s.createdAt)
    ensures multiset(r.body.songs) == multiset(db.songs)
  {
    Response(200, SongsJson(db.songs))
  }

  /** `GET /api/playlists/:type/songs`: exactly the songs of that playlist type, of
      every owner. */
  function PlaylistSongs(db: Db, kind: string): (r: seq<Song>)
    ensures forall i :: 0 <= i < |r| ==> r[i] in db.songs && r[i].playlistType == Some(kind)
    ensures forall i :: 0 <= i < |db.songs| && db.songs[i].playlistType == Some(kind) ==> db.songs[i] in r
    ensures forall s :: multiset(r)[s] == if s.playlistType == Some(kind) then multiset(db.songs)[s] else 0
  {
    FilterMultiset(db.songs, (s: Song) => s.playlistType == Some(kind));
    Filter(db.songs, (s: Song) => s.playlistType == Some(kind))
  }

  lemma PlaylistSongsChronological(db: Db, kind: string)
    requires Valid(db)
    ensures SortedBy(PlaylistSongs(db, kind), (s: Song) => s.createdAt)
  {
    FilterSorted(db.songs, (s: Song) => s.playlistType == Some(kind), (s: Song) => s.createdAt);
  }

  /** `GET /api/songs/:id`: 404 exactly when no song has the id. */
  function SongById(db: Db, id: string): (r: Response)
    ensures r.status == 404 <==> forall i :: 0 <= i < |db.songs| ==> db.songs[i].id != id
    ensures r.status != 404 ==> r.status == 200 && r.body.SongJson? && r.body.song in db.songs && r.body.song.id == id
    ensures r.status == 404 ==> r.body == ErrorJson("Song not found")
  {
    match FirstWhere(db.songs, IdIs(id))
    case None => Response(404, ErrorJson("Song not found"))
    case Some(s) => Response(200, SongJson(s))
  }

  /** `GET /api/playlists`. */
  function AllPlaylists(db: Db): (r: Response)
    ensures r.status == 200 && r.body.PlaylistsJson?
    ensures Valid(db) ==> SortedBy(r.body.playlists, (p: Playlist) => p.createdAt)
    ensures multiset(r.body.playlists) == multiset(db.playlists)
  {
    Response(200, PlaylistsJson(db.playlists))
  }

  // ---- Playlist creation ----

  datatype PlaylistBody = PlaylistBody(name: Json, kind: Json, description: Json)

  predicate ValidPlaylistBody(b: PlaylistBody) {
    && b.name.Str? && |b.name.s| >= 1
    && b.kind.Str? && b.kind.s in PLAYLIST_TYPES
    && (b.description.Absent? || b.description.Str?)
  }

  /** `POST /api/playlists` (routes.ts:162-182): 400 and no write for an invalid
      body, otherwise the stored playlist. */
  function CreatePlaylistRoute(db: Db, b: PlaylistBody, id: string, now: int): (r: (Db, Response))
    ensures !ValidPlaylistBody(b) <==> r == (db, InvalidRequest)
    ensures ValidPlaylistBody(b) ==>
              && r.0.songs == db.songs && r.0.mantras == db.mantras
              && r.0.playlists == db.playlists + [Playlist(id, b.name.s, b.kind.s, if b.description.Str? then Some(b.description.s) else None, now)]
              && r.1 == Response(200, PlaylistJson(r.0.playlists[|db.playlists|]))
  {
    if !ValidPlaylistBody(b) then (db, InvalidRequest)
    else
      var ins := PlaylistInsert(b.name.s, b.kind.s, if b.description.Str? then Some(b.description.s) else None);
      var (db1, p) := Storage.CreatePlaylist(db, ins, id, now);
      (db1, Response(200, PlaylistJson(p)))
  }

  /** Creating a playlist keeps the database valid, given a fresh id and a clock that
      has not run back. */
  lemma CreatePlaylistRoutePreservesValid(db: Db, b: PlaylistBody, id: string, now: int)
    requires Valid(db) && NotBefore(db, now)
    requires forall i :: 0 <= i < |db.playlists| ==> db.playlists[i].id != id
    ensures Valid(CreatePlaylistRoute(db, b, id, now).0)
  {
    if ValidPlaylistBody(b) {
      AppendPlaylistValid(db, Playlist(id, b.name.s, b.kind.s, if b.description.Str? then Some(b.description.s) else None, now));
    }
  }
}
