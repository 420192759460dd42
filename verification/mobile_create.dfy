/** The mobile create screen (mobile/src/screens/create.tsx): the mantra, genre and
    tempo form, its blank-text check, the two calls it chains (create the mantra,
    then request a song for the returned mantra id), the reset after success, and
    the capitalised option labels. Replies of the two calls are inputs. */
module MobileCreate {
  import opened Wrappers
  import opened Text
  import Schema

  /** The screen's own genre and tempo lists. */
  const GENRES: seq<string> := ["soul", "blues", "hip-hop", "reggae", "pop", "acoustic"]
  const RHYTHMS: seq<string> := ["slow", "moderate", "fast"]

  /** The form: mantra text and the picked genre and tempo. */
  datatype Form = Form(mantra: string, genre: string, rhythm: string)

  /** The state the screen starts in and returns to after a successful request. */
  const InitialForm: Form := Form("", "soul", "moderate")

  /** The screen lists the same genres as the shared schema, and its defaults are
      among its own options. */
  lemma DefaultsOffered()
    ensures GENRES == Schema.GENRES
    ensures InitialForm.genre in GENRES && InitialForm.rhythm in RHYTHMS
  {
  }

  /** The calls the screen makes to the server. */
  datatype Call = CreateMantra(text: string) | GenerateSong(mantraId: string, genre: string, rhythm: string)

  /** The end of one press of "Generate": the calls made in order, the alert shown
      (title and text), and the form afterwards. */
  datatype Run = Run(calls: seq<Call>, alert: Option<(string, string)>, form: Form)

  /** `handleGenerate` and the mutation behind it. A blank mantra alerts and calls
      nothing. Otherwise the mantra is created first; only a created mantra's id is
      passed on to the song request. Success resets the form; a failure alerts with
      the error's message, or a fixed text when it has none, and keeps the form.
      `mantraReply` is the created mantra's id or the error message of that call,
      `songReply` the error message of the song call, if it failed. */
  function Generate(form: Form, mantraReply: Result<string, string>, songReply: Option<string>): (r: Run)
    ensures IsBlank(form.mantra) ==> r == Run([], Some(("Error", "Please enter a mantra")), form)
    ensures !IsBlank(form.mantra) ==> |r.calls| >= 1 && r.calls[0] == CreateMantra(form.mantra)
    ensures |r.calls| == 2 <==> !IsBlank(form.mantra) && mantraReply.Success?
    ensures |r.calls| == 2 ==> r.calls[1] == GenerateSong(mantraReply.value, form.genre, form.rhythm)
    ensures |r.calls| == 2 && songReply.None? ==> r.form == InitialForm
    ensures !(|r.calls| == 2 && songReply.None?) ==> r.form == form
    ensures |r.calls| <= 2
    ensures r.alert.Some?
  {
    if Trim(form.mantra) == [] then Run([], Some(("Error", "Please enter a mantra")), form)
    else
      match mantraReply
      case Failure(message) => Run([CreateMantra(form.mantra)], Some(("Error", ErrorText(message))), form)
      case Success(id) =>
        var calls := [CreateMantra(form.mantra), GenerateSong(id, form.genre, form.rhythm)];
        match songReply
        case None =>
          Run(calls, Some(("Success", "Song generation started! Check your library for updates.")), InitialForm)
        case Some(message) => Run(calls, Some(("Error", ErrorText(message))), form)
  }

  const GenerateFailed: string := "Failed to generate song"

  /** `error.message || 'Failed to generate song'`. */
  function ErrorText(message: string): (r: string)
    ensures r != []
    ensures message != [] ==> r == message
    ensures message == [] ==> r == GenerateFailed
  {
    OrElse(message, GenerateFailed)
  }

  /** A song is only ever requested for a mantra the server has just created, and
      only as the second call. */
  lemma SongFollowsMantra(form: Form, mantraReply: Result<string, string>, songReply: Option<string>)
    ensures var calls := Generate(form, mantraReply, songReply).calls;
            forall i :: 0 <= i < |calls| && calls[i].GenerateSong? ==>
              i == 1 && mantraReply == Success(calls[i].mantraId)
  {
    var calls := Generate(form, mantraReply, songReply).calls;
    forall i | 0 <= i < |calls| && calls[i].GenerateSong?
      ensures i == 1 && mantraReply == Success(calls[i].mantraId)
    {
      assert i != 0;
      assert |calls| == 2;
    }
  }

  /** A successful run always leaves a blank mantra, so the same text is not sent twice. */
  lemma SuccessClearsMantra(form: Form, mantraId: string)
    requires !IsBlank(form.mantra)
    ensures IsBlank(Generate(form, Success(mantraId), None).form.mantra)
  {
    assert Generate(form, Success(mantraId), None).form == InitialForm;
  }

  /** The option label: the first character upper-cased, the rest as is. */
  function Label(value: string): (r: string)
    ensures |r| == |value|
    ensures |value| > 0 ==> r[1..] == value[1..] && r[0] == ToUpperAscii(value[0])
  {
    if value == [] then [] else [ToUpperAscii(value[0])] + value[1..]
  }

  /** Every genre and tempo label starts with a capital letter and otherwise repeats
      its value. */
  lemma LabelsCapitalised()
    ensures forall g :: g in GENRES ==> 'A' <= Label(g)[0] <= 'Z' && Label(g)[1..] == g[1..]
    ensures forall t :: t in RHYTHMS ==> 'A' <= Label(t)[0] <= 'Z' && Label(t)[1..] == t[1..]
  {
  }
}
