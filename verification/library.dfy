/** The web library page (client/src/pages/library.tsx): the queue of ready songs, the
    selected song, play-all (library loop) mode, and wrap-around next/previous
    navigation. The fetched song list is an input; `None` stands for a list that has
    not arrived. */
module LibraryPage {
  import opened Wrappers
  import opened Seqs
  import opened Schema

  /** A playable song: completed, with a non-empty audio URL. */
  predicate Ready(s: Song) {
    s.status == Completed && s.audioUrl.Some? && s.audioUrl.value != []
  }

  /** `readySongs`: the ready songs of the fetched list, in list order; none while the
      list has not arrived. */
  function ReadySongs(songs: Option<seq<Song>>): (r: seq<Song>)
    ensures forall i :: 0 <= i < |r| ==> Ready(r[i])
    ensures songs.Some? ==> forall i :: 0 <= i < |songs.value| && Ready(songs.value[i]) ==> songs.value[i] in r
    ensures songs.None? ==> r == []
  {
    match songs
    case None => []
    case Some(s) => Filter(s, Ready)
  }

  /** The queue keeps the fetched order and each song's multiplicity: it distributes
      over concatenation, and a single song is queued exactly when it is ready. */
  lemma ReadySongsAppend(a: seq<Song>, b: seq<Song>, x: Song)
    ensures ReadySongs(Some(a + b)) == ReadySongs(Some(a)) + ReadySongs(Some(b))
    ensures ReadySongs(Some([x])) == if Ready(x) then [x] else []
  {
    FilterAppend(a, b, Ready);
    assert [x][1..] == [];
  }

  /** There is something to play exactly when some fetched song is ready. */
  lemma ReadyNonEmpty(songs: seq<Song>)
    ensures |ReadySongs(Some(songs))| > 0 <==> exists i :: 0 <= i < |songs| && Ready(songs[i])
  {
    if |ReadySongs(Some(songs))| > 0 {
      var r := ReadySongs(Some(songs));
      assert r[0] in songs;
    }
  }

  /** The matcher `s => s.id === selectedSong.id`. */
  function HasId(id: string): Song -> bool {
    (s: Song) => s.id == id
  }

  /** No two songs of the list share an id. */
  predicate UniqueIds(songs: seq<Song>) {
    forall i, j :: 0 <= i < j < |songs| ==> songs[i].id != songs[j].id
  }

  /** The page state: the selected song, play-all mode, and the counter that forces a
      fresh player when the queue wraps. */
  datatype Library = Library(selected: Option<Song>, playAll: bool, wrapCounter: nat)

  const InitialLibrary: Library := Library(None, false, 0)

  /** `currentIndex`: where the selected song's id sits among the ready songs, -1 when
      nothing is selected or the id is not among them. */
  function CurrentIndex(lib: Library, ready: seq<Song>): (i: int)
    ensures -1 <= i < |ready|
    ensures i >= 0 ==> lib.selected.Some? && ready[i].id == lib.selected.value.id
    ensures i >= 0 ==> forall k :: 0 <= k < i ==> ready[k].id != lib.selected.value.id
    ensures i == -1 <==> lib.selected.None? || forall k :: 0 <= k < |ready| ==> ready[k].id != lib.selected.value.id
  {
    if lib.selected.None? then -1 else FindIndex(ready, HasId(lib.selected.value.id))
  }

  /** With unique ids, a song of the list is found at its own position. */
  lemma IndexOfMember(lib: Library, ready: seq<Song>, j: int)
    requires UniqueIds(ready)
    requires 0 <= j < |ready| && lib.selected == Some(ready[j])
    ensures CurrentIndex(lib, ready) == j
  {
  }

  /** `handlePlaySong`: selects the song and leaves play-all mode. */
  function PlaySong(lib: Library, song: Song): (r: Library)
    ensures r.selected == Some(song) && !r.playAll && r.wrapCounter == lib.wrapCounter
  {
    lib.(selected := Some(song), playAll := false)
  }

  /** `handlePlayAll`: starts the first ready song in play-all mode; without ready
      songs nothing changes. */
  function PlayAll(lib: Library, ready: seq<Song>): (r: Library)
    ensures |ready| > 0 ==> r.selected == Some(ready[0]) && r.playAll && r.wrapCounter == lib.wrapCounter
    ensures |ready| == 0 ==> r == lib
  {
    if |ready| > 0 then lib.(selected := Some(ready[0]), playAll := true) else lib
  }

  /** `handleNext`: the song after the selected one, wrapping from the last to the
      first and counting the wrap; a selection that is not among the ready songs, or
      none at all, changes nothing. */
  function Next(lib: Library, ready: seq<Song>): (r: Library)
    ensures CurrentIndex(lib, ready) == -1 ==> r == lib
    ensures var i := CurrentIndex(lib, ready);
            i >= 0 ==> r == lib.(selected := Some(ready[(i + 1) % |ready|]),
                                 wrapCounter := lib.wrapCounter + if i == |ready| - 1 then 1 else 0)
  {
    if lib.selected.None? || |ready| == 0 then lib
    else
      var i := FindIndex(ready, HasId(lib.selected.value.id));
      if i >= 0 then
        ModStep(i, |ready|);
        if i < |ready| - 1 then lib.(selected := Some(ready[i + 1]))
        else lib.(selected := Some(ready[0]), wrapCounter := lib.wrapCounter + 1)
      else lib
  }

  /** `handlePrevious`: the song before the selected one, wrapping from the first to
      the last and counting the wrap. */
  function Previous(lib: Library, ready: seq<Song>): (r: Library)
    ensures CurrentIndex(lib, ready) == -1 ==> r == lib
    ensures var i := CurrentIndex(lib, ready);
            i >= 0 ==> r == lib.(selected := Some(ready[(i - 1 + |ready|) % |ready|]),
                                 wrapCounter := lib.wrapCounter + if i == 0 then 1 else 0)
  {
    if lib.selected.None? || |ready| == 0 then lib
    else
      var i := FindIndex(ready, HasId(lib.selected.value.id));
      if i >= 0 then
        ModStep(i, |ready|);
        if i > 0 then lib.(selected := Some(ready[i - 1]))
        else lib.(selected := Some(ready[|ready| - 1]), wrapCounter := lib.wrapCounter + 1)
      else lib
  }

  /** One step forward or back on a ring of `n` positions. */
  lemma ModStep(i: int, n: int)
    requires 0 <= i < n
    ensures (i + 1) % n == if i == n - 1 then 0 else i + 1
    ensures (i - 1 + n) % n == if i == 0 then n - 1 else i - 1
  {
    if i == n - 1 {
      assert (i + 1) % n == n % n == 0;
    }
    if i > 0 {
      assert (i - 1 + n) % n == (i - 1) % n;
    }
  }

  /** With unique ids, stepping forward and then back returns to the ready song the
      selection stood for, with the play-all mode unchanged. */
  lemma NextThenPrevious(lib: Library, ready: seq<Song>)
    requires UniqueIds(ready)
    requires CurrentIndex(lib, ready) >= 0
    ensures Previous(Next(lib, ready), ready).selected == Some(ready[CurrentIndex(lib, ready)])
    ensures Previous(Next(lib, ready), ready).playAll == lib.playAll
  {
    var i := CurrentIndex(lib, ready);
    var n := |ready|;
    ModStep(i, n);
    var j := if i == n - 1 then 0 else i + 1;
    var fwd := Next(lib, ready);
    assert fwd.selected == Some(ready[j]);
    IndexOfMember(fwd, ready, j);
    ModStep(j, n);
    assert Previous(fwd, ready).selected == Some(ready[i]);
  }

  /** Stepping back and then forward returns to the same ready song too. */
  lemma PreviousThenNext(lib: Library, ready: seq<Song>)
    requires UniqueIds(ready)
    requires CurrentIndex(lib, ready) >= 0
    ensures Next(Previous(lib, ready), ready).selected == Some(ready[CurrentIndex(lib, ready)])
  {
    var i := CurrentIndex(lib, ready);
    var n := |ready|;
    ModStep(i, n);
    var k := if i == 0 then n - 1 else i - 1;
    var back := Previous(lib, ready);
    assert back.selected == Some(ready[k]);
    IndexOfMember(back, ready, k);
    ModStep(k, n);
    assert Next(back, ready).selected == Some(ready[i]);
  }

  /** `hasNext`: in play-all mode any queue of two or more songs, otherwise a song
      after the selected one. */
  function HasNext(lib: Library, ready: seq<Song>): bool {
    if lib.playAll then |ready| > 1 else 0 <= CurrentIndex(lib, ready) < |ready| - 1
  }

  /** `hasPrevious`: in play-all mode any queue of two or more songs, otherwise a song
      before the selected one. */
  function HasPrevious(lib: Library, ready: seq<Song>): bool {
    if lib.playAll then |ready| > 1 else CurrentIndex(lib, ready) > 0
  }

  /** Outside play-all mode the buttons are enabled exactly when the step moves
      without wrapping. */
  lemma ButtonsMatchSteps(lib: Library, ready: seq<Song>)
    requires !lib.playAll
    ensures HasNext(lib, ready) <==>
              CurrentIndex(lib, ready) >= 0 && Next(lib, ready).wrapCounter == lib.wrapCounter
    ensures HasPrevious(lib, ready) <==>
              CurrentIndex(lib, ready) >= 0 && Previous(lib, ready).wrapCounter == lib.wrapCounter
  {
  }

  /** In play-all mode an enabled step always moves to a different song when the
      selection is in the queue; a selection outside the queue leaves both enabled
      buttons without effect. */
  lemma PlayAllSteps(lib: Library, ready: seq<Song>)
    requires lib.playAll && UniqueIds(ready)
    ensures HasNext(lib, ready) && CurrentIndex(lib, ready) >= 0 ==>
              Next(lib, ready).selected.value.id != lib.selected.value.id
    ensures HasPrevious(lib, ready) && CurrentIndex(lib, ready) >= 0 ==>
              Previous(lib, ready).selected.value.id != lib.selected.value.id
    ensures HasNext(lib, ready) && CurrentIndex(lib, ready) == -1 ==>
              Next(lib, ready) == lib && Previous(lib, ready) == lib
  {
    var i := CurrentIndex(lib, ready);
    if i >= 0 {
      ModStep(i, |ready|);
    }
  }

  /** The player's loop modes. */
  datatype LoopMode = Off | SongLoop | LibraryLoop

  /** `handleLoopModeChange`: play-all mode follows whether the library loops. */
  function LoopModeChange(lib: Library, mode: LoopMode): (r: Library)
    ensures r.playAll <==> mode == LibraryLoop
    ensures r.selected == lib.selected && r.wrapCounter == lib.wrapCounter
  {
    lib.(playAll := mode == LibraryLoop)
  }

  /** The "Play All" button is shown for any non-empty fetched list, ready or not. */
  predicate PlayAllShown(songs: Option<seq<Song>>) {
    songs.Some? && |songs.value| > 0
  }

  /** The button can be shown while pressing it does nothing: a list with no ready song. */
  lemma PlayAllShownWithoutEffect(lib: Library, songs: seq<Song>)
    requires |songs| > 0 && forall i :: 0 <= i < |songs| ==> !Ready(songs[i])
    ensures PlayAllShown(Some(songs)) && PlayAll(lib, ReadySongs(Some(songs))) == lib
  {
    ReadyNonEmpty(songs);
  }
}
