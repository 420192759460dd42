/** The web create page (client/src/pages/create.tsx): the song form, its ordered
    validation, the request it sends to `/api/songs/generate`, the genre change
    that picks a rhythm, and the single-choice playlist buttons. Toasts are
    represented by their titles. */
module CreatePage {
  import opened Wrappers
  import opened Text
  import opened Schema
  import opened VoiceSelector
  import Routes

  /** The form. Rhythms are plain text: their option table (`RHYTHM_OPTIONS`) is not
      part of this model. `pending` is the request's in-flight flag. */
  datatype CreateForm = CreateForm(
    text: string,
    genre: Option<Genre>,
    rhythm: Option<string>,
    playlist: Option<PlaylistType>,
    voice: Voice,
    useExactLyrics: bool,
    pending: bool)

  const InitialForm: CreateForm := CreateForm("", None, None, None, Voice(None, None), false, false)

  /** The request body the page posts; absent options are left out of the JSON. */
  datatype Payload = Payload(
    text: string,
    genre: Genre,
    rhythm: string,
    playlistType: Option<PlaylistType>,
    vocalGender: Option<Gender>,
    vocalStyle: Option<VocalStyle>,
    useExactLyrics: bool)

  /** What pressing "Generate" does: a destructive toast, a request, or nothing while
      the button is disabled. */
  datatype GenerateOutcome = Rejected(title: string) | Sent(payload: Payload) | Ignored

  /** A rhythm value is falsy when missing or empty. */
  predicate HasRhythm(rhythm: Option<string>) {
    rhythm.Some? && rhythm.value != []
  }

  /** `handleGenerate`: the text is checked first, then the genre, then the rhythm; the
      request carries the text as typed, untrimmed. */
  function HandleGenerate(form: CreateForm): (r: GenerateOutcome)
    ensures r.Sent? <==> !IsBlank(form.text) && form.genre.Some? && HasRhythm(form.rhythm)
    ensures IsBlank(form.text) ==> r == Rejected("Mantra Required")
    ensures !IsBlank(form.text) && form.genre.None? ==> r == Rejected("Genre Required")
    ensures !IsBlank(form.text) && form.genre.Some? && !HasRhythm(form.rhythm) ==> r == Rejected("Rhythm Required")
    ensures r.Sent? ==> && r.payload.text == form.text
                        && Some(r.payload.genre) == form.genre
                        && Some(r.payload.rhythm) == form.rhythm
                        && r.payload.playlistType == form.playlist
                        && r.payload.vocalGender == form.voice.gender
                        && r.payload.vocalStyle == form.voice.style
                        && r.payload.useExactLyrics == form.useExactLyrics
  {
    if Trim(form.text) == [] then Rejected("Mantra Required")
    else if form.genre.None? then Rejected("Genre Required")
    else if !HasRhythm(form.rhythm) then Rejected("Rhythm Required")
    else Sent(Payload(form.text, form.genre.value, form.rhythm.value, form.playlist,
                      form.voice.gender, form.voice.style, form.useExactLyrics))
  }

  /** The button is disabled while a request is in flight. */
  function PressGenerate(form: CreateForm): (r: GenerateOutcome)
    ensures form.pending ==> r == Ignored
    ensures !form.pending ==> r == HandleGenerate(form)
  {
    if form.pending then Ignored else HandleGenerate(form)
  }

  /** The JSON the server receives. It drops `rhythm`, which its schema does not
      list, and always carries the exact-lyrics flag. */
  function RequestBody(p: Payload): Routes.GenerateBody {
    Routes.EncodeGenerate(RequestInput(p))
  }

  /** The validated request the body stands for. */
  function RequestInput(p: Payload): Routes.GenerateInput {
    Routes.GenerateInput(p.text, p.genre, p.playlistType, p.vocalGender, p.vocalStyle, Some(p.useExactLyrics))
  }

  /** Every request the page sends passes the server's validation unchanged: the text
      is non-blank and so non-empty, and the playlist buttons only offer the three
      times of day. */
  lemma SentRequestsValidate(form: CreateForm)
    requires form.playlist != Some(Custom)
    ensures HandleGenerate(form).Sent? ==>
              Routes.ParseGenerate(RequestBody(HandleGenerate(form).payload)) ==
              Some(RequestInput(HandleGenerate(form).payload))
  {
    if HandleGenerate(form).Sent? {
      var p := HandleGenerate(form).payload;
      assert |p.text| >= 1;
      Routes.ParseEncodeGenerate(RequestInput(p));
    }
  }

  /** `handleGenerate`'s checks on the genre and rhythm can be satisfied by a genre
      change alone: a chosen genre brings its first rhythm along. `firstRhythm` stands
      for the first entry of the genre's rhythm options. */
  function GenreChange(form: CreateForm, genre: Option<Genre>, firstRhythm: Genre -> string): (r: CreateForm)
    ensures r.genre == genre
    ensures genre.None? ==> r.rhythm.None?
    ensures genre.Some? ==> r.rhythm == Some(firstRhythm(genre.value))
    ensures r == form.(genre := r.genre, rhythm := r.rhythm)
  {
    match genre
    case Some(g) => form.(genre := genre, rhythm := Some(firstRhythm(g)))
    case None => form.(genre := None, rhythm := None)
  }

  /** After choosing a genre whose first rhythm is non-empty, a non-blank text is all
      the form needs; clearing the genre brings back "Genre Required". */
  lemma GenreChangeValidation(form: CreateForm, genre: Option<Genre>, firstRhythm: Genre -> string)
    requires !IsBlank(form.text)
    ensures genre.Some? && firstRhythm(genre.value) != [] ==>
              HandleGenerate(GenreChange(form, genre, firstRhythm)).Sent?
    ensures genre.None? ==> HandleGenerate(GenreChange(form, genre, firstRhythm)) == Rejected("Genre Required")
  {
  }

  /** A click on one of the three playlist buttons. */
  function ClickPlaylist(form: CreateForm, p: PlaylistType): (r: CreateForm)
    requires p != Custom
    ensures r.playlist == Toggle(form.playlist, p)
    ensures r == form.(playlist := r.playlist)
  {
    form.(playlist := Toggle(form.playlist, p))
  }

  /** Clicks keep at most one playlist chosen and never choose "custom"; the chosen one
      is the last one clicked unless that click cleared it. */
  lemma PlaylistClicks(form: CreateForm, p: PlaylistType)
    requires p != Custom && form.playlist != Some(Custom)
    ensures ClickPlaylist(form, p).playlist != Some(Custom)
    ensures ClickPlaylist(form, p).playlist.Some? <==> form.playlist != Some(p)
    ensures ClickPlaylist(form, p).playlist.Some? ==> ClickPlaylist(form, p).playlist == Some(p)
  {
  }
}
