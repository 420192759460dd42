/** The mobile library screen (mobile/src/screens/library.tsx): ready and generating
    sections split by status, the empty state, the detail modal that only ready
    cards open, and deletion behind a confirmation dialog. */
module MobileLibrary {
  import opened Wrappers
  import opened Seqs
  import opened Schema
  import opened MobileHome

  /** While the list loads a spinner replaces the screen; afterwards the empty state
      is shown when neither section has a song. */
  predicate ShowsEmptyState(isLoading: bool, songs: Option<seq<Song>>) {
    !isLoading && |ReadySongs(songs)| == 0 && |GeneratingSongs(songs)| == 0
  }

  /** The empty state never shows while loading. Once loaded, it appears exactly when
      no fetched song is completed or generating, so a library holding only pending or
      failed songs looks empty. */
  lemma EmptyStateRule(songs: seq<Song>)
    ensures !ShowsEmptyState(true, Some(songs))
    ensures ShowsEmptyState(false, Some(songs)) <==>
              forall i :: 0 <= i < |songs| ==> songs[i].status == Pending || songs[i].status == Error
  {
    if |ReadySongs(Some(songs))| > 0 {
      assert ReadySongs(Some(songs))[0] in songs;
    }
    if |GeneratingSongs(Some(songs))| > 0 {
      assert GeneratingSongs(Some(songs))[0] in songs;
    }
  }

  /** The screen state: the song shown in the modal and whether the modal is open. */
  datatype Screen = Screen(selected: Option<Song>, showModal: bool)

  const InitialScreen: Screen := Screen(None, false)

  /** A press on a card. Ready cards open the modal on their song; generating cards
      have no press handler. */
  function PressCard(sc: Screen, song: Song): (r: Screen)
    ensures IsReady(song) ==> r == Screen(Some(song), true)
    ensures !IsReady(song) ==> r == sc
  {
    if IsReady(song) then Screen(Some(song), true) else sc
  }

  /** The modal shows a ready song whenever it is open. */
  predicate ModalShowsReady(sc: Screen) {
    sc.showModal ==> sc.selected.Some? && IsReady(sc.selected.value)
  }

  /** Card presses and closing keep the modal on ready songs only. */
  lemma PressKeepsModalReady(sc: Screen, song: Song)
    requires ModalShowsReady(sc)
    ensures ModalShowsReady(PressCard(sc, song))
    ensures ModalShowsReady(CloseModal(sc))
  {
  }

  /** The close button, and a successful deletion, hide the modal. */
  function CloseModal(sc: Screen): (r: Screen)
    ensures !r.showModal && r.selected == sc.selected
  {
    sc.(showModal := false)
  }

  /** The buttons of the delete confirmation dialog. */
  datatype Choice = Cancel | Delete

  /** `handleDelete`: the id sent to the server once the dialog is answered; Cancel
      sends nothing. */
  function ConfirmDelete(id: string, choice: Choice): (r: Option<string>)
    ensures r.Some? <==> choice == Delete
    ensures r.Some? ==> r.value == id
  {
    match choice
    case Cancel => None
    case Delete => Some(id)
  }

  /** The modal's "Play Song" button is shown only for a non-empty audio URL. */
  predicate ShowsPlay(song: Song) {
    song.audioUrl.Some? && song.audioUrl.value != []
  }

  /** A ready song can still lack audio: the status alone decides readiness here, so
      the modal may open without a play button. */
  lemma ReadyWithoutAudio(song: Song)
    requires song.status == Completed && song.audioUrl == None
    ensures PressCard(InitialScreen, song).showModal && !ShowsPlay(song)
  {
  }
}
