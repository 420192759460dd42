/** The owner-scoped storage layer (server/storage.ts) over an in-memory database:
    each table is a sequence of rows in insertion order. Generated ids and creation
    times are supplied by the caller, standing in for `gen_random_uuid()` and
    `defaultNow()`. User accounts are not part of this model. */
module Storage {
  import opened Wrappers
  import opened Seqs
  import opened Schema

  datatype Db = Db(mantras: seq<Mantra>, songs: seq<Song>, playlists: seq<Playlist>)

  const EmptyDb: Db := Db([], [], [])

  // ---- Table invariants ----

  ghost predicate UniqueIds(db: Db) {
    && UniqueBy(db.mantras, (m: Mantra) => m.id)
    && UniqueBy(db.songs, (s: Song) => s.id)
    && UniqueBy(db.playlists, (p: Playlist) => p.id)
  }

  /** Rows are kept in creation order, so `ORDER BY created_at` is the table order. */
  ghost predicate Chronological(db: Db) {
    && SortedBy(db.mantras, (m: Mantra) => m.createdAt)
    && SortedBy(db.songs, (s: Song) => s.createdAt)
    && SortedBy(db.playlists, (p: Playlist) => p.createdAt)
  }

  predicate HasMantra(db: Db, id: string) {
    exists i :: 0 <= i < |db.mantras| && db.mantras[i].id == id
  }

  /** `songs.mantra_id` references `mantras.id`. */
  ghost predicate MantraRefsResolve(db: Db) {
    forall i :: 0 <= i < |db.songs| && db.songs[i].mantraId.Some? ==> HasMantra(db, db.songs[i].mantraId.value)
  }

  ghost predicate Valid(db: Db) {
    UniqueIds(db) && Chronological(db) && MantraRefsResolve(db)
  }

  /** `now` is no earlier than any creation time already recorded. */
  ghost predicate NotBefore(db: Db, now: int) {
    && (forall i :: 0 <= i < |db.mantras| ==> db.mantras[i].createdAt <= now)
    && (forall i :: 0 <= i < |db.songs| ==> db.songs[i].createdAt <= now)
    && (forall i :: 0 <= i < |db.playlists| ==> db.playlists[i].createdAt <= now)
  }

  // ---- Mantras ----

  /** `createMantra`: the row is owned by `userId`, whatever owner the insert named. */
  function CreateMantra(db: Db, ins: MantraInsert, userId: string, id: string, now: int): (r: (Db, Mantra))
    ensures r.1 == Mantra(id, Some(userId), ins.text, now)
    ensures r.0 == db.(mantras := db.mantras + [r.1])
  {
    var m := Mantra(id, Some(userId), ins.text, now);
    (db.(mantras := db.mantras + [m]), m)
  }

  /** `getMantra` looks a mantra up by id alone: it is not owner-scoped. */
  function GetMantra(db: Db, id: string): (r: Option<Mantra>)
    ensures r.None? <==> !HasMantra(db, id)
    ensures r.Some? ==> r.value in db.mantras && r.value.id == id
  {
    FirstWhere(db.mantras, (m: Mantra) => m.id == id)
  }

  /** `getAllMantras`: exactly the user's mantras, in creation order. */
  function GetAllMantras(db: Db, userId: string): (r: seq<Mantra>)
    ensures forall i :: 0 <= i < |r| ==> r[i] in db.mantras && r[i].owner == Some(userId)
    ensures forall i :: 0 <= i < |db.mantras| && db.mantras[i].owner == Some(userId) ==> db.mantras[i] in r
    ensures forall m :: multiset(r)[m] == if m.owner == Some(userId) then multiset(db.mantras)[m] else 0
  {
    FilterMultiset(db.mantras, (m: Mantra) => m.owner == Some(userId));
    Filter(db.mantras, (m: Mantra) => m.owner == Some(userId))
  }

  // ---- Songs ----

  /** The `WHERE id = ? AND user_id = ?` of the song operations. */
  function SongKey(id: string, userId: string): Song -> bool {
    (s: Song) => s.id == id && s.owner == Some(userId)
  }

  function OwnedBy(userId: string): Song -> bool {
    (s: Song) => s.owner == Some(userId)
  }

  predicate HasSong(db: Db, id: string, userId: string) {
    exists i :: 0 <= i < |db.songs| && db.songs[i].id == id && db.songs[i].owner == Some(userId)
  }

  /** `createSong`: the row is owned by `userId`, overriding the insert's owner. */
  function CreateSong(db: Db, ins: SongInsert, userId: string, id: string, now: int): (r: (Db, Song))
    ensures r.1.owner == Some(userId) && r.1.id == id && r.1.createdAt == now
    ensures r.1 == SongRow(ins.(owner := Some(userId)), id, now)
    ensures r.0 == db.(songs := db.songs + [r.1])
  {
    var s := SongRow(ins.(owner := Some(userId)), id, now);
    (db.(songs := db.songs + [s]), s)
  }

  /** `getSong`: a song comes back exactly when a row has that id and that owner. */
  function GetSong(db: Db, id: string, userId: string): (r: Option<Song>)
    ensures r.None? <==> !HasSong(db, id, userId)
    ensures r.Some? ==> r.value in db.songs && r.value.id == id && r.value.owner == Some(userId)
  {
    FirstWhere(db.songs, SongKey(id, userId))
  }

  /** `getAllSongs`: exactly the user's songs. */
  function GetAllSongs(db: Db, userId: string): (r: seq<Song>)
    ensures forall i :: 0 <= i < |r| ==> r[i] in db.songs && r[i].owner == Some(userId)
    ensures forall i :: 0 <= i < |db.songs| && db.songs[i].owner == Some(userId) ==> db.songs[i] in r
    ensures forall s :: multiset(r)[s] == if s.owner == Some(userId) then multiset(db.songs)[s] else 0
  {
    FilterMultiset(db.songs, OwnedBy(userId));
    Filter(db.songs, OwnedBy(userId))
  }

  /** `getSongsByPlaylistType`: only the user's songs of that playlist type, and all of them. */
  function GetSongsByPlaylistType(db: Db, userId: string, kind: string): (r: seq<Song>)
    ensures forall i :: 0 <= i < |r| ==> r[i] in db.songs && r[i].owner == Some(userId) && r[i].playlistType == Some(kind)
    ensures forall i :: 0 <= i < |db.songs| && db.songs[i].owner == Some(userId) && db.songs[i].playlistType == Some(kind)
              ==> db.songs[i] in r
    ensures forall s :: multiset(r)[s] ==
              if s.owner == Some(userId) && s.playlistType == Some(kind) then multiset(db.songs)[s] else 0
  {
    FilterMultiset(db.songs, (s: Song) => s.owner == Some(userId) && s.playlistType == Some(kind));
    Filter(db.songs, (s: Song) => s.owner == Some(userId) && s.playlistType == Some(kind))
  }

  /** Both listings come back in creation order on a valid database. */
  lemma ListingsChronological(db: Db, userId: string, kind: string)
    requires Valid(db)
    ensures SortedBy(GetAllSongs(db, userId), (s: Song) => s.createdAt)
    ensures SortedBy(GetSongsByPlaylistType(db, userId, kind), (s: Song) => s.createdAt)
    ensures SortedBy(GetAllMantras(db, userId), (m: Mantra) => m.createdAt)
  {
    FilterSorted(db.songs, OwnedBy(userId), (s: Song) => s.createdAt);
    FilterSorted(db.songs, (s: Song) => s.owner == Some(userId) && s.playlistType == Some(kind), (s: Song) => s.createdAt);
    FilterSorted(db.mantras, (m: Mantra) => m.owner == Some(userId), (m: Mantra) => m.createdAt);
  }

  /** The columns a `Partial<Song>` update may set; an absent field is left as it is. */
  datatype SongPatch = SongPatch(
    mantraId: Option<Option<string>>,
    title: Option<string>,
    genre: Option<string>,
    lyrics: Option<string>,
    audioUrl: Option<Option<string>>,
    status: Option<SongStatus>,
    playlistType: Option<Option<string>>,
    vocalGender: Option<Option<Gender>>,
    vocalStyle: Option<Option<VocalStyle>>,
    useExactLyrics: Option<bool>)

  const NoChange: SongPatch := SongPatch(None, None, None, None, None, None, None, None, None, None)

  /** `SET` of the given columns only. */
  function ApplyPatch(s: Song, p: SongPatch): (r: Song)
    ensures r.id == s.id && r.owner == s.owner && r.createdAt == s.createdAt
    ensures p == NoChange ==> r == s
  {
    s.(mantraId := p.mantraId.GetOr(s.mantraId),
       title := p.title.GetOr(s.title),
       genre := p.genre.GetOr(s.genre),
       lyrics := p.lyrics.GetOr(s.lyrics),
       audioUrl := p.audioUrl.GetOr(s.audioUrl),
       status := p.status.GetOr(s.status),
       playlistType := p.playlistType.GetOr(s.playlistType),
       vocalGender := p.vocalGender.GetOr(s.vocalGender),
       vocalStyle := p.vocalStyle.GetOr(s.vocalStyle),
       useExactLyrics := p.useExactLyrics.GetOr(s.useExactLyrics))
  }

  /** Column by column: a column the patch gives is written, every other column is kept. */
  lemma ApplyPatchColumns(s: Song, p: SongPatch)
    ensures var r := ApplyPatch(s, p);
            && (p.audioUrl.Some? ==> r.audioUrl == p.audioUrl.value)
            && (p.audioUrl.None? ==> r.audioUrl == s.audioUrl)
            && (p.status.Some? ==> r.status == p.status.value)
            && (p.status.None? ==> r.status == s.status)
            && (p.mantraId.Some? ==> r.mantraId == p.mantraId.value)
            && (p.mantraId.None? ==> r.mantraId == s.mantraId)
            && (p.title.Some? ==> r.title == p.title.value)
            && (p.title.None? ==> r.title == s.title)
            && (p.genre.Some? ==> r.genre == p.genre.value)
            && (p.genre.None? ==> r.genre == s.genre)
            && (p.lyrics.Some? ==> r.lyrics == p.lyrics.value)
            && (p.lyrics.None? ==> r.lyrics == s.lyrics)
            && (p.playlistType.Some? ==> r.playlistType == p.playlistType.value)
            && (p.playlistType.None? ==> r.playlistType == s.playlistType)
            && (p.vocalGender.Some? ==> r.vocalGender == p.vocalGender.value)
            && (p.vocalGender.None? ==> r.vocalGender == s.vocalGender)
            && (p.vocalStyle.Some? ==> r.vocalStyle == p.vocalStyle.value)
            && (p.vocalStyle.None? ==> r.vocalStyle == s.vocalStyle)
            && (p.useExactLyrics.Some? ==> r.useExactLyrics == p.useExactLyrics.value)
            && (p.useExactLyrics.None? ==> r.useExactLyrics == s.useExactLyrics)
  {
  }

  /** Applying the same patch a second time changes nothing more. */
  lemma ApplyPatchIdempotent(s: Song, p: SongPatch)
    ensures ApplyPatch(ApplyPatch(s, p), p) == ApplyPatch(s, p)
  {
  }

  function Patcher(p: SongPatch): Song -> Song {
    (s: Song) => ApplyPatch(s, p)
  }

  /** `updateSong`: the matching rows are patched, every other row and table is left
      as it was, and the first patched row comes back — none when nothing matched. */
  function UpdateSong(db: Db, id: string, userId: string, p: SongPatch): (r: (Db, Option<Song>))
    ensures r.0.mantras == db.mantras && r.0.playlists == db.playlists
    ensures |r.0.songs| == |db.songs|
    ensures forall i :: 0 <= i < |db.songs| && !SongKey(id, userId)(db.songs[i]) ==> r.0.songs[i] == db.songs[i]
    ensures forall i :: 0 <= i < |db.songs| && SongKey(id, userId)(db.songs[i]) ==> r.0.songs[i] == ApplyPatch(db.songs[i], p)
    ensures r.1.None? <==> !HasSong(db, id, userId)
    ensures r.1.Some? ==> r.1.value in r.0.songs && r.1.value.id == id && r.1.value.owner == Some(userId)
  {
    var songs := UpdateWhere(db.songs, SongKey(id, userId), Patcher(p));
    (db.(songs := songs), FirstWhere(songs, SongKey(id, userId)))
  }

  /** `deleteSong`: reports whether a matching row existed, removes every matching
      row and keeps every other one in order. */
  function DeleteSong(db: Db, id: string, userId: string): (r: (Db, bool))
    ensures r.1 <==> HasSong(db, id, userId)
    ensures r.0.mantras == db.mantras && r.0.playlists == db.playlists
    ensures !HasSong(r.0, id, userId)
    ensures forall i :: 0 <= i < |db.songs| && !SongKey(id, userId)(db.songs[i]) ==> db.songs[i] in r.0.songs
    ensures forall i :: 0 <= i < |r.0.songs| ==> r.0.songs[i] in db.songs
    ensures forall s :: multiset(r.0.songs)[s] == if SongKey(id, userId)(s) then 0 else multiset(db.songs)[s]
    ensures !r.1 ==> r.0 == db
  {
    var kept := Filter(db.songs, Not(SongKey(id, userId)));
    DeleteSongRows(db, id, userId);
    (db.(songs := kept), |kept| != |db.songs|)
  }

  /** What filtering out the deleted key leaves of the song table. */
  lemma DeleteSongRows(db: Db, id: string, userId: string)
    ensures var kept := Filter(db.songs, Not(SongKey(id, userId)));
            && (|kept| != |db.songs| <==> HasSong(db, id, userId))
            && (|kept| == |db.songs| ==> kept == db.songs)
            && !HasSong(db.(songs := kept), id, userId)
            && (forall i :: 0 <= i < |db.songs| && !SongKey(id, userId)(db.songs[i]) ==> db.songs[i] in kept)
            && (forall i :: 0 <= i < |kept| ==> kept[i] in db.songs)
            && (forall s :: multiset(kept)[s] == if SongKey(id, userId)(s) then 0 else multiset(db.songs)[s])
  {
    var key := SongKey(id, userId);
    var kept := Filter(db.songs, Not(key));
    FilterMultiset(db.songs, Not(key));
    FilterKeepsOthers(db.songs, key);
    if |kept| == |db.songs| {
      FilterSameLength(db.songs, Not(key));
    }
    forall i | 0 <= i < |db.songs| && !key(db.songs[i])
      ensures db.songs[i] in kept
    {
      assert Not(key)(db.songs[i]);
    }
  }

  /** Deletion keeps the order of the remaining rows: deleting from two stretches of
      the table one after the other is deleting from each. */
  lemma DeleteKeepsOrder(db: Db, a: seq<Song>, b: seq<Song>, id: string, userId: string)
    ensures DeleteSong(db.(songs := a + b), id, userId).0.songs ==
            DeleteSong(db.(songs := a), id, userId).0.songs + DeleteSong(db.(songs := b), id, userId).0.songs
  {
    FilterAppend(a, b, Not(SongKey(id, userId)));
  }

  /** One user's updates never change what another user sees. */
  lemma UpdateIsolation(db: Db, id: string, u: string, v: string, p: SongPatch)
    requires u != v
    ensures GetAllSongs(UpdateSong(db, id, u, p).0, v) == GetAllSongs(db, v)
    ensures GetSong(UpdateSong(db, id, u, p).0, id, v) == GetSong(db, id, v)
  {
    FilterUpdateOthers(db.songs, SongKey(id, u), Patcher(p), OwnedBy(v));
    FirstUnaffected(db.songs, SongKey(id, u), Patcher(p), SongKey(id, v));
  }

  /** One user's deletions never change what another user sees. */
  lemma DeleteIsolation(db: Db, id: string, u: string, v: string)
    requires u != v
    ensures GetAllSongs(DeleteSong(db, id, u).0, v) == GetAllSongs(db, v)
    ensures GetSong(DeleteSong(db, id, u).0, id, v) == GetSong(db, id, v)
  {
    FilterRemoveOthers(db.songs, SongKey(id, u), OwnedBy(v));
    FirstUnaffected(db.songs, SongKey(id, u), (s: Song) => s, SongKey(id, v));
  }

  /** Patching or removing one key's rows does not change the first row of a
      disjoint key. */
  lemma {:induction false} FirstUnaffected(s: seq<Song>, p: Song -> bool, f: Song -> Song, q: Song -> bool)
    requires forall x :: p(x) ==> !q(x) && !q(f(x))
    ensures FirstWhere(UpdateWhere(s, p, f), q) == FirstWhere(s, q)
    ensures FirstWhere(Filter(s, Not(p)), q) == FirstWhere(s, q)
  {
    FirstUnaffectedByUpdate(s, p, f, q);
    FirstUnaffectedByRemoval(s, p, q);
  }

  lemma {:induction false} FirstUnaffectedByUpdate(s: seq<Song>, p: Song -> bool, f: Song -> Song, q: Song -> bool)
    requires forall x :: p(x) ==> !q(x) && !q(f(x))
    ensures FirstWhere(UpdateWhere(s, p, f), q) == FirstWhere(s, q)
  {
    if |s| > 0 {
      FirstUnaffectedByUpdate(s[1..], p, f, q);
      var head := if p(s[0]) then f(s[0]) else s[0];
      assert UpdateWhere(s, p, f) == [head] + UpdateWhere(s[1..], p, f);
      assert s == [s[0]] + s[1..];
      FirstWhereCons(s[0], s[1..], q);
      FirstWhereCons(head, UpdateWhere(s[1..], p, f), q);
      assert q(head) == q(s[0]);
    }
  }

  lemma {:induction false} FirstUnaffectedByRemoval(s: seq<Song>, p: Song -> bool, q: Song -> bool)
    requires forall x :: p(x) ==> !q(x)
    ensures FirstWhere(Filter(s, Not(p)), q) == FirstWhere(s, q)
  {
    if |s| > 0 {
      FirstUnaffectedByRemoval(s[1..], p, q);
      var t := Filter(s[1..], Not(p));
      assert s == [s[0]] + s[1..];
      FirstWhereCons(s[0], s[1..], q);
      if p(s[0]) {
        assert Filter(s, Not(p)) == t;
      } else {
        assert Filter(s, Not(p)) == [s[0]] + t;
        FirstWhereCons(s[0], t, q);
      }
    }
  }

  // ---- Playlists ----

  function CreatePlaylist(db: Db, ins: PlaylistInsert, id: string, now: int): (r: (Db, Playlist))
    ensures r.1 == Playlist(id, ins.name, ins.kind, ins.description, now)
    ensures r.0 == db.(playlists := db.playlists + [r.1])
  {
    var p := Playlist(id, ins.name, ins.kind, ins.description, now);
    (db.(playlists := db.playlists + [p]), p)
  }

  function GetPlaylist(db: Db, id: string): (r: Option<Playlist>)
    ensures r.None? <==> forall i :: 0 <= i < |db.playlists| ==> db.playlists[i].id != id
    ensures r.Some? ==> r.value in db.playlists && r.value.id == id
  {
    FirstWhere(db.playlists, (p: Playlist) => p.id == id)
  }

  /** `getAllPlaylists`: every playlist, in creation order on a valid database. */
  function GetAllPlaylists(db: Db): (r: seq<Playlist>)
    ensures Valid(db) ==> SortedBy(r, (p: Playlist) => p.createdAt)
    ensures multiset(r) == multiset(db.playlists)
  {
    db.playlists
  }

  // ---- Invariant preservation ----

  /** Creating rows keeps the database valid given fresh ids, a clock that does not
      run backwards and a song whose mantra exists. */
  lemma CreatePreservesValid(db: Db, mi: MantraInsert, si: SongInsert, pi: PlaylistInsert, u: string, id: string, now: int)
    requires Valid(db) && NotBefore(db, now)
    ensures (forall i :: 0 <= i < |db.mantras| ==> db.mantras[i].id != id) ==>
              Valid(CreateMantra(db, mi, u, id, now).0)
    ensures (forall i :: 0 <= i < |db.songs| ==> db.songs[i].id != id) &&
            (si.mantraId.Some? ==> HasMantra(db, si.mantraId.value)) ==>
              Valid(CreateSong(db, si, u, id, now).0)
    ensures (forall i :: 0 <= i < |db.playlists| ==> db.playlists[i].id != id) ==>
              Valid(CreatePlaylist(db, pi, id, now).0)
  {
    var m := CreateMantra(db, mi, u, id, now).0;
    assert forall k :: HasMantra(db, k) ==> HasMantra(m, k) by {
      forall k | HasMantra(db, k) ensures HasMantra(m, k) {
        var i :| 0 <= i < |db.mantras| && db.mantras[i].id == k;
        assert m.mantras[i] == db.mantras[i];
      }
    }
  }

  /** Appending a mantra with a fresh id and a creation time no earlier than any
      recorded keeps the database valid, and every mantra reference still resolves. */
  lemma AppendMantraValid(db: Db, m: Mantra)
    requires Valid(db) && NotBefore(db, m.createdAt)
    requires forall i :: 0 <= i < |db.mantras| ==> db.mantras[i].id != m.id
    ensures var db1 := db.(mantras := db.mantras + [m]);
            && Valid(db1) && NotBefore(db1, m.createdAt) && HasMantra(db1, m.id)
            && forall k :: HasMantra(db, k) ==> HasMantra(db1, k)
  {
    var db1 := db.(mantras := db.mantras + [m]);
    assert db1.mantras[|db.mantras|] == m;
    forall k | HasMantra(db, k) ensures HasMantra(db1, k) {
      var i :| 0 <= i < |db.mantras| && db.mantras[i].id == k;
      assert db1.mantras[i] == db.mantras[i];
    }
  }

  /** Appending a song with a fresh id, a creation time no earlier than any recorded
      and a resolvable mantra keeps the database valid. */
  lemma AppendSongValid(db: Db, s: Song)
    requires Valid(db) && NotBefore(db, s.createdAt)
    requires forall i :: 0 <= i < |db.songs| ==> db.songs[i].id != s.id
    requires s.mantraId.Some? ==> HasMantra(db, s.mantraId.value)
    ensures Valid(db.(songs := db.songs + [s]))
  {
    var db1 := db.(songs := db.songs + [s]);
    assert db1.songs[|db.songs|] == s;
    assert forall i :: 0 <= i < |db.songs| ==> db1.songs[i] == db.songs[i];
  }

  /** Appending a playlist with a fresh id and a creation time no earlier than any
      recorded keeps the database valid. */
  lemma AppendPlaylistValid(db: Db, p: Playlist)
    requires Valid(db) && NotBefore(db, p.createdAt)
    requires forall i :: 0 <= i < |db.playlists| ==> db.playlists[i].id != p.id
    ensures Valid(db.(playlists := db.playlists + [p]))
  {
    var db1 := db.(playlists := db.playlists + [p]);
    assert db1.playlists[|db.playlists|] == p;
    assert forall i :: 0 <= i < |db.playlists| ==> db1.playlists[i] == db.playlists[i];
  }

  /** Updating keeps the database valid when the patch does not point a song at a
      missing mantra; deleting always does. */
  lemma UpdateDeletePreserveValid(db: Db, id: string, u: string, p: SongPatch)
    requires Valid(db)
    ensures (p.mantraId.None? || p.mantraId.value.None? || HasMantra(db, p.mantraId.value.value)) ==>
              Valid(UpdateSong(db, id, u, p).0)
    ensures Valid(DeleteSong(db, id, u).0)
  {
    if p.mantraId.None? || p.mantraId.value.None? || HasMantra(db, p.mantraId.value.value) {
      UpdatePreservesValid(db, id, u, p);
    }
    DeletePreservesValid(db, id, u);
  }

  lemma UpdatePreservesValid(db: Db, id: string, u: string, p: SongPatch)
    requires Valid(db)
    requires p.mantraId.None? || p.mantraId.value.None? || HasMantra(db, p.mantraId.value.value)
    ensures Valid(UpdateSong(db, id, u, p).0)
  {
    var db1 := UpdateSong(db, id, u, p).0;
    forall i | 0 <= i < |db.songs|
      ensures db1.songs[i].id == db.songs[i].id && db1.songs[i].createdAt == db.songs[i].createdAt
      ensures db1.songs[i].mantraId.Some? ==> HasMantra(db, db1.songs[i].mantraId.value)
    {
      if SongKey(id, u)(db.songs[i]) {
        PatchedMantraResolves(db, db.songs[i], p);
      }
    }
    assert UniqueBy(db1.songs, (x: Song) => x.id);
    assert SortedBy(db1.songs, (x: Song) => x.createdAt);
  }

  /** A patched row refers to a mantra when the row and the patch both did. */
  lemma PatchedMantraResolves(db: Db, s: Song, p: SongPatch)
    requires s.mantraId.Some? ==> HasMantra(db, s.mantraId.value)
    requires p.mantraId.None? || p.mantraId.value.None? || HasMantra(db, p.mantraId.value.value)
    ensures ApplyPatch(s, p).mantraId.Some? ==> HasMantra(db, ApplyPatch(s, p).mantraId.value)
  {
  }

  lemma DeletePreservesValid(db: Db, id: string, u: string)
    requires Valid(db)
    ensures Valid(DeleteSong(db, id, u).0)
  {
    var key := SongKey(id, u);
    var kept := Filter(db.songs, Not(key));
    assert DeleteSong(db, id, u).0 == db.(songs := kept);
    FilterSorted(db.songs, Not(key), (s: Song) => s.createdAt);
    FilterUnique(db.songs, Not(key));
  }

  /** Filtering keeps ids distinct. */
  lemma {:induction false} FilterUnique(s: seq<Song>, p: Song -> bool)
    requires UniqueBy(s, (x: Song) => x.id)
    ensures UniqueBy(Filter(s, p), (x: Song) => x.id)
  {
    if |s| > 0 {
      FilterUnique(s[1..], p);
      var rest := Filter(s[1..], p);
      if p(s[0]) {
        forall j | 0 <= j < |rest|
          ensures s[0].id != rest[j].id
        {
          assert rest[j] in s[1..];
        }
      }
    }
  }
}
