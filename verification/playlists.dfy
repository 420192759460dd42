/** The web playlist page (client/src/pages/playlists.tsx): the per-type header, the
    selected song and linear next/previous navigation over the playlist's songs,
    which stops at both ends. The fetched song list is an input; `None` stands for a
    list that has not arrived. */
module PlaylistsPage {
  import opened Wrappers
  import opened Seqs
  import opened Text
  import opened Schema
  import LibraryPage

  /** The header of a playlist page. */
  datatype PlaylistConfig = PlaylistConfig(title: string, description: string)

  /** `playlistConfig[type]`: a header for the three times of day and nothing for any
      other route parameter, which sends the page back to "/". */
  function Config(kind: string): (r: Option<PlaylistConfig>)
    ensures r.Some? <==> kind in ["morning", "daytime", "bedtime"]
  {
    if kind == "morning" then
      Some(PlaylistConfig("Morning Motivation", "Start your day with energizing mantras that set a positive tone"))
    else if kind == "daytime" then
      Some(PlaylistConfig("Daytime Energy", "Stay inspired and focused throughout your active hours"))
    else if kind == "bedtime" then
      Some(PlaylistConfig("Bedtime Calm", "Wind down with peaceful mantras for reflection and rest"))
    else None
  }

  /** The pages with a header are exactly the playlist types other than "custom", and
      no two of them share a title. */
  lemma ConfigCoversTimesOfDay(kind: string)
    ensures Config(kind).Some? <==> ParsePlaylistType(kind).Some? && ParsePlaylistType(kind).value != Custom
    ensures forall a, b :: Config(a).Some? && Config(b).Some? && a != b ==>
              Config(a).value.title != Config(b).value.title
  {
    forall a, b | Config(a).Some? && Config(b).Some? && a != b
      ensures Config(a).value.title != Config(b).value.title
    {
      TitleNamesKind(a);
      TitleNamesKind(b);
    }
  }

  /** The route parameter a header title belongs to, if any. */
  function TitleKind(title: string): Option<string> {
    if title == "Morning Motivation" then Some("morning")
    else if title == "Daytime Energy" then Some("daytime")
    else if title == "Bedtime Calm" then Some("bedtime")
    else None
  }

  /** A header's title identifies the page it heads. */
  lemma TitleNamesKind(kind: string)
    ensures Config(kind).Some? ==> TitleKind(Config(kind).value.title) == Some(kind)
  {
    if kind == "morning" {
    } else if kind == "daytime" {
    } else if kind == "bedtime" {
    }
  }

  /** Where the selected song sits in the fetched list: -1 with no selection, no list,
      or an id the list does not hold. */
  function CurrentIndex(selected: Option<Song>, songs: Option<seq<Song>>): (i: int)
    ensures songs.Some? ==> -1 <= i < |songs.value|
    ensures songs.None? || selected.None? ==> i == -1
    ensures i >= 0 ==> songs.Some? && selected.Some? && songs.value[i].id == selected.value.id
    ensures songs.Some? && selected.Some? && i == -1 ==>
              forall k :: 0 <= k < |songs.value| ==> songs.value[k].id != selected.value.id
  {
    if selected.None? || songs.None? then -1
    else FindIndex(songs.value, LibraryPage.HasId(selected.value.id))
  }

  /** `handleNext`: the following song while there is one. Without a selection or a
      list nothing changes; at the last song nothing changes; a selection the list
      does not hold moves to the list's first song. */
  function Next(selected: Option<Song>, songs: Option<seq<Song>>): (r: Option<Song>)
    ensures selected.None? || songs.None? ==> r == selected
    ensures selected.Some? && songs.Some? && CurrentIndex(selected, songs) + 1 < |songs.value| ==>
              r == Some(songs.value[CurrentIndex(selected, songs) + 1])
    ensures songs.Some? && CurrentIndex(selected, songs) + 1 >= |songs.value| ==> r == selected
  {
    if selected.None? || songs.None? then selected
    else
      var s := songs.value;
      var i := FindIndex(s, LibraryPage.HasId(selected.value.id));
      if i < |s| - 1 then Some(s[i + 1]) else selected
  }

  /** `handlePrevious`: the preceding song while there is one; otherwise nothing changes. */
  function Previous(selected: Option<Song>, songs: Option<seq<Song>>): (r: Option<Song>)
    ensures CurrentIndex(selected, songs) > 0 ==> r == Some(songs.value[CurrentIndex(selected, songs) - 1])
    ensures CurrentIndex(selected, songs) <= 0 ==> r == selected
  {
    if selected.None? || songs.None? then selected
    else
      var s := songs.value;
      var i := FindIndex(s, LibraryPage.HasId(selected.value.id));
      if i > 0 then Some(s[i - 1]) else selected
  }

  /** `hasNext`: the selection is in the list and is not its last song. */
  function HasNext(selected: Option<Song>, songs: Option<seq<Song>>): bool {
    var n := if songs.Some? then |songs.value| else 0;
    CurrentIndex(selected, songs) >= 0 && CurrentIndex(selected, songs) < n - 1
  }

  /** `hasPrevious`: the selection is in the list after its first song. */
  function HasPrevious(selected: Option<Song>, songs: Option<seq<Song>>): bool {
    CurrentIndex(selected, songs) > 0
  }

  /** Navigation never wraps: at the last song Next is disabled and does nothing, and
      at the first song Previous is disabled and does nothing. */
  lemma NoWrapAtEnds(selected: Option<Song>, songs: seq<Song>)
    ensures CurrentIndex(selected, Some(songs)) == |songs| - 1 ==>
              !HasNext(selected, Some(songs)) && Next(selected, Some(songs)) == selected
    ensures CurrentIndex(selected, Some(songs)) == 0 ==>
              !HasPrevious(selected, Some(songs)) && Previous(selected, Some(songs)) == selected
  {
  }

  /** An enabled Next moves to the following song, and with unique ids Previous
      brings back the song the selection stood for. */
  lemma NextThenPrevious(selected: Option<Song>, songs: seq<Song>)
    requires LibraryPage.UniqueIds(songs)
    requires HasNext(selected, Some(songs))
    ensures var i := CurrentIndex(selected, Some(songs));
            && Next(selected, Some(songs)) == Some(songs[i + 1])
            && CurrentIndex(Next(selected, Some(songs)), Some(songs)) == i + 1
            && Previous(Next(selected, Some(songs)), Some(songs)) == Some(songs[i])
  {
    var i := CurrentIndex(selected, Some(songs));
    var next := Next(selected, Some(songs));
    assert next == Some(songs[i + 1]);
    assert CurrentIndex(next, Some(songs)) == i + 1;
  }

  /** A selection the list does not hold has both buttons disabled; the handler
      itself would jump to the first song, a step the disabled button keeps out of
      reach. */
  lemma NextFromOutside(selected: Song, songs: seq<Song>)
    requires |songs| >= 1
    requires forall k :: 0 <= k < |songs| ==> songs[k].id != selected.id
    ensures !HasNext(Some(selected), Some(songs)) && !HasPrevious(Some(selected), Some(songs))
    ensures Next(Some(selected), Some(songs)) == Some(songs[0])
    ensures Previous(Some(selected), Some(songs)) == Some(selected)
  {
  }

  /** The number of fetched songs, 0 while the list has not arrived. */
  function SongCount(songs: Option<seq<Song>>): nat {
    if songs.Some? then |songs.value| else 0
  }

  /** The count line under the title: the number, a space, and "song" or "songs". */
  function CountLabel(songs: Option<seq<Song>>): (r: string)
    ensures NatToString(SongCount(songs)) + " song" <= r
    ensures r[|r| - 1] == 's' <==> SongCount(songs) != 1
    ensures |r| == |NatToString(SongCount(songs))| + if SongCount(songs) == 1 then 5 else 6
  {
    var noun := if songs.Some? && |songs.value| == 1 then "song" else "songs";
    NatToString(SongCount(songs)) + " " + noun
  }
}
