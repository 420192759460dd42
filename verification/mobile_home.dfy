/** The mobile home screen (mobile/src/screens/home.tsx): the song list split by
    status, the three stat counts, and the "Recent Songs" section: the first five
    ready songs in list order. The fetched list is an input; `None` stands for a list
    that has not arrived. */
module MobileHome {
  import opened Wrappers
  import opened Seqs
  import opened Schema

  /** The mobile screens call a song ready on its status alone. */
  predicate IsReady(s: Song) {
    s.status == Completed
  }

  predicate IsGenerating(s: Song) {
    s.status == Generating
  }

  /** `songs?.data?.filter(...) || []`. */
  function Select(songs: Option<seq<Song>>, p: Song -> bool): (r: seq<Song>)
    ensures forall i :: 0 <= i < |r| ==> p(r[i])
    ensures songs.Some? ==> forall i :: 0 <= i < |songs.value| && p(songs.value[i]) ==> songs.value[i] in r
    ensures songs.None? ==> r == []
    ensures songs.Some? ==> forall s :: multiset(r)[s] == if p(s) then multiset(songs.value)[s] else 0
  {
    if songs.Some? then
      FilterMultiset(songs.value, p);
      Filter(songs.value, p)
    else []
  }

  /** Each section keeps the fetched order: selecting distributes over concatenation,
      and a single song is selected exactly when it matches. */
  lemma SelectAppend(a: seq<Song>, b: seq<Song>, x: Song, p: Song -> bool)
    ensures Select(Some(a + b), p) == Select(Some(a), p) + Select(Some(b), p)
    ensures Select(Some([x]), p) == if p(x) then [x] else []
  {
    FilterAppend(a, b, p);
    assert [x][1..] == [];
  }

  function ReadySongs(songs: Option<seq<Song>>): seq<Song> {
    Select(songs, IsReady)
  }

  function GeneratingSongs(songs: Option<seq<Song>>): seq<Song> {
    Select(songs, IsGenerating)
  }

  /** The "Total Songs" count: the list's length, 0 before it arrives. */
  function Total(songs: Option<seq<Song>>): nat {
    if songs.Some? then |songs.value| else 0
  }

  /** No song is both ready and generating, so the two counts together never exceed
      the total. */
  lemma StatsBounded(songs: Option<seq<Song>>)
    ensures forall s :: s in ReadySongs(songs) ==> s !in GeneratingSongs(songs)
    ensures |ReadySongs(songs)| + |GeneratingSongs(songs)| <= Total(songs)
  {
    if songs.Some? {
      CountDisjoint(songs.value, IsReady, IsGenerating);
    }
  }

  /** `readySongs.slice(0, 5)`: the first five ready songs, or all of them when fewer.
      The server lists songs oldest first (server/routes.ts:26), so despite the
      section's title these are the five oldest ready songs. */
  function RecentSongs(ready: seq<Song>): (r: seq<Song>)
    ensures r <= ready
    ensures |r| == if |ready| < 5 then |ready| else 5
  {
    ready[..if |ready| < 5 then |ready| else 5]
  }

  /** Whether the "No songs yet" text is shown: the list has loaded and holds no
      ready song. */
  predicate ShowsNoSongs(isLoading: bool, songs: Option<seq<Song>>) {
    !isLoading && |ReadySongs(songs)| == 0
  }

  /** Once loaded, the text replaces the recent list exactly when no fetched song is
      completed, whatever else the list holds; otherwise at least one song is listed. */
  lemma NoSongsText(songs: seq<Song>)
    ensures ShowsNoSongs(false, Some(songs)) <==> forall i :: 0 <= i < |songs| ==> !IsReady(songs[i])
    ensures !ShowsNoSongs(false, Some(songs)) ==> |RecentSongs(ReadySongs(Some(songs)))| >= 1
  {
    if |ReadySongs(Some(songs))| > 0 {
      assert ReadySongs(Some(songs))[0] in songs;
    }
  }
}
