# Mantra Melody in Dafny

Mantra Melody turns a written mantra into a song. A web client and a mobile client post the mantra to a server. The server does four things in order:

1. It stores the mantra.
2. It asks a chat-completion service for a title and, unless the user asked for their exact words, for lyrics.
3. It stores a song in state "generating".
4. It asks a music service for a track, polling it up to thirty times.

The clients list the finished songs, play them with a karaoke lyric view, and walk through them as a library or as a time-of-day playlist.

This project models that logic as pure Dafny functions over immutable data and proves what it promises. The modules follow the source files:

- `OpenAi` (server/lib/openai.ts): exact-lyrics layout, reply trimming and title cleaning and fallback.
- `Suno` (server/lib/suno.ts): style tags, the bounded poll loop and the status mapping.
- `Routes`, `Storage`, `Schema` (server/routes.ts, server/storage.ts, shared/schema.ts): request validation, the generation workflow, and the owner-scoped tables.
- `LyricsDisplay`, `AudioPlayer`, `VoiceSelector` (client components): line splitting and highlighting, the `M:SS` clock, play/seek/volume state, and the toggle buttons.
- `LibraryPage`, `PlaylistsPage`, `CreatePage`, `SignupPage` (client pages): wrap-around and linear queue navigation, ordered form validation, and request shaping.
- `MobileHome`, `MobileLibrary`, `MobileCreate`, `MobileLanding` (mobile screens): status partitions, the modal and delete gating, the mantra-then-song call chain, and the sign-in form.
- `Wrappers`, `Seqs`, `Text`, `JsNumber` are shared helpers:
  - `Option` and `Result`.
  - Filtering and searching sequences.
  - JavaScript's `trim`, `split`, `join` and number-to-string, with the ECMAScript whitespace set.
  - JavaScript numbers (`NaN`, infinities, the truncating `%`).

Outside calls never run in the model:

- The chat-completion service, the music service and the database clock and id generator are inputs. Each is represented by the reply it produced, by the error it threw, or by the value it assigned.
- A database table is a sequence of rows in insertion order.
- A React component's state is a datatype, and each event handler is a function from one state to the next.

## Model

| member | source | states |
|---|---|---|
| LyricsDisplay.Lines | client/src/components/lyrics-display.tsx:20-23 | every displayed line is a trimmed raw line, is non-empty and has no whitespace at either end; every raw line that is not blank is displayed |
| LyricsDisplay.LinesAppend | client/src/components/lyrics-display.tsx:20-23 | the lines of two texts joined by a newline are the first text's lines followed by the second's, so no line is lost, duplicated or reordered |
| LyricsDisplay.LinesOfOneLine | client/src/components/lyrics-display.tsx:20-23 | a text without a newline yields no line when blank and otherwise exactly its trimmed self |
| LyricsDisplay.EmptyStateIffBlank | client/src/components/lyrics-display.tsx:54-62 | the "No lyrics available" placeholder is shown exactly when the lyrics consist of whitespace only |
| LyricsDisplay.NextHighlight | client/src/components/lyrics-display.tsx:26-38 | a falsy or zero duration, or no lines, leaves the highlighted index unchanged; otherwise it is at most the last line, and an infinite duration keeps the first line highlighted |
| LyricsDisplay.HighlightInRange | client/src/components/lyrics-display.tsx:34-36 | for a positive duration, a non-negative position and at least one line, the highlighted index is a valid line index |
| LyricsDisplay.HighlightMonotone | client/src/components/lyrics-display.tsx:34-36 | a later playback position never highlights an earlier line |
| LyricsDisplay.HighlightIsSlice | client/src/components/lyrics-display.tsx:30-36 | line k is highlighted exactly while position plus the 2-second lead lies in the k-th equal slice of the track, and the last line covers everything from its slice start on |
| LyricsDisplay.HighlightAtEnd | client/src/components/lyrics-display.tsx:30-36 | once position plus lead reaches the duration, the last line is highlighted |
| LyricsDisplay.HighlightFirstLine | client/src/components/lyrics-display.tsx:30-36 | with two or more lines the first line is highlighted exactly while position plus lead is under duration/lines; a single line is always highlighted |
| LyricsDisplay.StyleOf | client/src/components/lyrics-display.tsx:90-98 | the style chain gives the highlighted line, the next two "upcoming" lines, earlier lines "past" and all later lines "future", each for exactly its index range |
| LyricsDisplay.StyleMatchesPosition | client/src/components/lyrics-display.tsx:74-98 | the style a line gets agrees with its past / highlighted / future position; every line after the highlighted one is upcoming or future |
| LyricsDisplay.Styles | client/src/components/lyrics-display.tsx:73-98 | one style per displayed line, the one its index calls for |
| LyricsDisplay.ExactlyOneHighlighted | client/src/components/lyrics-display.tsx:73-98 | when the highlighted index is a line, exactly one line is styled as highlighted |
| LyricsDisplay.ScrollTarget | client/src/components/lyrics-display.tsx:41-51 | auto-scroll happens only while playing and with lyrics on screen, and targets the newly highlighted line, which exists |
| LyricsDisplay.ScrollsWhilePlaying | client/src/components/lyrics-display.tsx:26-51 | while playing non-blank lyrics with a positive duration, every update scrolls to the new highlighted line |
| OpenAi.ExactLyricsUnchanged | server/lib/openai.ts:18-22 | no sentence segment has content exactly when the mantra is only whitespace and `.`/`!`/`?`, and such a mantra is returned unchanged |
| OpenAi.ExactLyricsLayout | server/lib/openai.ts:16-27 | otherwise the result is the fixed Verse/Chorus/Verse/Chorus layout around one verse, which is non-empty, trimmed, free of sentence punctuation, and keeps every other non-whitespace character of the mantra in order |
| OpenAi.VerseAvoidsPunctuation | server/lib/openai.ts:18-25 | the verse contains no `.`, `!` or `?` |
| OpenAi.VerseKeepsContent | server/lib/openai.ts:18-25 | apart from whitespace, the verse holds exactly the mantra's non-punctuation characters in source order |
| OpenAi.TransformLyrics | server/lib/openai.ts:48-60 | a reply succeeds exactly when its text is not blank and then yields the trimmed text; blank replies and thrown errors fail with the "Failed to generate song lyrics: " prefix and the right message |
| OpenAi.GenerateLyrics | server/lib/openai.ts:16-60 | exact mode gives the formatted mantra, and transform mode gives the reply handling |
| OpenAi.ExactModeIgnoresReply | server/lib/openai.ts:16-27 | exact mode returns before any model call: every reply gives the same, successful result |
| OpenAi.CleanTitle | server/lib/openai.ts:82-83 | a cleaned title contains no quote character |
| OpenAi.CleanTitleKeepsWords | server/lib/openai.ts:82-83 | cleaning drops only whitespace and quotes; the remaining characters are the reply's, in order |
| OpenAi.FallbackTitlePrefix | server/lib/openai.ts:85-99 | the fallback title is a prefix of the mantra; it is the whole mantra when the mantra has at most four space-separated words, and otherwise splitting it on spaces gives exactly the mantra's first four words |
| OpenAi.GenerateSongTitle | server/lib/openai.ts:63-101 | never fails: a non-empty cleaned reply is used, and an empty one or a thrown error gives the fallback |
| Suno.VocalDescription | server/lib/suno.ts:56-63 | the description is empty exactly when neither gender nor style is given |
| Suno.VocalDescriptionShape | server/lib/suno.ts:56-63 | style and gender give "<style> <gender> voice", gender alone "<gender> voice", and style alone "<style> vocals" |
| Suno.VocalDescriptionInjective | server/lib/suno.ts:56-63 | different voice choices give different descriptions |
| Suno.StyleTags | server/lib/suno.ts:66-68 | tags start with the genre, equal it exactly when there is no voice option, and otherwise add ", " and the description |
| Suno.RequestTitle | server/lib/suno.ts:82 | an absent or empty title is sent as "Mantra Song", and any other title unchanged |
| Suno.VerdictOf | server/lib/suno.ts:114-136 | a poll finishes exactly on code 200 with a first track that is "complete" with a URL, and it finishes with that track's URL; it aborts exactly on an exception or an "error" track; anything else waits |
| Suno.RunPolls | server/lib/suno.ts:102-146 | at most thirty polls; every poll before the deciding one said wait; a timeout means thirty waits |
| Suno.RunPollsFirstDecisive | server/lib/suno.ts:102-139 | polling stops right after the first reply that does not say wait |
| Suno.PollUntilDecided | server/lib/suno.ts:102-139 | the loop, with one attempt per iteration on every path, computes the same outcome and fetch count as the recursive definition and never exceeds thirty fetches |
| Suno.GenerateMusic | server/lib/suno.ts:38-156 | without a key no request is made; the request carries the built tags and title; the result is the one the replies determine; when the last poll made reported a complete track, the result is that track's URL, marked completed; "generating" only after thirty fetches |
| Suno.MusicResultShape | server/lib/suno.ts:38-156 | the result is "completed" with a non-empty URL or "generating" with an empty one, the latter only after an accepted request and thirty waiting polls |
| Suno.FirstCompletedTrackWins | server/lib/suno.ts:122-130 | when the first deciding poll reports a complete track, the stored result is that poll's first track's `audio_url`, marked completed |
| Suno.DecidingTrackStored | server/lib/suno.ts:122-130 | a run that finished stores, as completed, the first track's `audio_url` of the poll that decided it |
| Suno.CheckSongStatus | server/lib/suno.ts:158-190 | "complete" is renamed "completed", other statuses pass through, the URL reported is the first track's `audio_url` and an empty one becomes absent, and any non-200 reply, empty data or exception reports "error" |
| Schema.ParseGenre | shared/schema.ts:62-63 | a string names a genre exactly when it is in `GENRES`, and then names that genre |
| Schema.GenresEnumerated | shared/schema.ts:62-63 | `GENRES` is six distinct names, exactly the genres' names |
| Schema.ParseGenreName | shared/schema.ts:62-63 | parsing a genre's name gives back the genre |
| Schema.ParsePlaylistType | shared/schema.ts:66-67 | a string names a playlist type exactly when it is in `PLAYLIST_TYPES` |
| Schema.PlaylistTypesEnumerated | shared/schema.ts:66-67 | `PLAYLIST_TYPES` is the four distinct names morning, daytime, bedtime, custom, each parsing back to its type |
| Schema.SongRow | shared/schema.ts:14-23 | an inserted song keeps every given column and takes status "pending" when none is given |
| Storage.CreateMantra | server/storage.ts:83-89 | the new mantra is owned by the given user whatever the insert said, and is appended with nothing else changed |
| Storage.GetMantra | server/storage.ts:91-94 | a mantra comes back exactly when one has the id, whoever owns it |
| Storage.GetAllMantras | server/storage.ts:96-102 | exactly the user's mantras, each row exactly as often as it occurs in the table |
| Storage.CreateSong | server/storage.ts:105-111 | the new song is owned by the given user, overriding the insert, and is appended with nothing else changed |
| Storage.GetSong | server/storage.ts:113-119 | a song comes back exactly when a row has that id and that owner |
| Storage.GetAllSongs | server/storage.ts:121-127 | exactly the user's songs, each row exactly as often as it occurs in the table |
| Storage.GetSongsByPlaylistType | server/storage.ts:129-135 | exactly the user's songs of that playlist type, each row exactly as often as it occurs in the table |
| Storage.ListingsChronological | server/storage.ts:96-135 | the three listings come back in creation order on a valid database |
| Storage.ApplyPatch | server/storage.ts:137-144 | an update keeps id, owner and creation time, and an empty patch changes nothing |
| Storage.ApplyPatchColumns | server/storage.ts:137-144 | column by column, each column the patch gives is written and each column it omits is kept |
| Storage.ApplyPatchIdempotent | server/storage.ts:137-144 | applying the same patch again changes nothing more |
| Storage.UpdateSong | server/storage.ts:137-144 | rows matching id and owner are patched, every other row and table is unchanged, and nothing is returned exactly when no row matched |
| Storage.DeleteSong | server/storage.ts:146-152 | reports true exactly when a matching row existed, removes every matching row, keeps every other row as often as it occurred, and changes nothing when none matched |
| Storage.DeleteKeepsOrder | server/storage.ts:146-152 | deletion keeps the remaining rows in their order: deleting from two stretches of the table is deleting from each and joining the results |
| Storage.UpdateIsolation | server/storage.ts:137-144 | one user's update never changes another user's listing or lookups |
| Storage.DeleteIsolation | server/storage.ts:146-152 | one user's deletion never changes another user's listing or lookups |
| Storage.CreatePlaylist | server/storage.ts:155-161 | the playlist is appended with the given fields |
| Storage.GetPlaylist | server/storage.ts:163-166 | a playlist comes back exactly when one has the id |
| Storage.GetAllPlaylists | server/storage.ts:168-173 | every playlist, in creation order on a valid database |
| Storage.CreatePreservesValid | server/storage.ts:83-161 | creation keeps ids unique, tables in creation order and song-to-mantra references resolvable, given fresh ids, a clock that does not run back and an existing mantra |
| Storage.UpdateDeletePreserveValid | server/storage.ts:137-152 | updates that point at existing mantras, and all deletions, keep the database valid |
| Storage.AppendMantraValid | server/storage.ts:83-89 | appending a mantra with a fresh id and a creation time no earlier than any recorded keeps the database valid, and the mantra and every earlier one can be found |
| Storage.AppendSongValid | server/storage.ts:105-111 | appending a song with a fresh id, a creation time no earlier than any recorded and a resolvable mantra keeps the database valid |
| Storage.AppendPlaylistValid | server/storage.ts:155-161 | appending a playlist with a fresh id and a creation time no earlier than any recorded keeps the database valid |
| Routes.ParseGenerate | server/routes.ts:53-62 | a body is accepted exactly when text is a non-empty string, genre is one of the six, and the optional playlist (not custom), gender, style and exact-lyrics flag are valid; the parsed request encodes back to exactly the body, so every field, present or absent, is carried over |
| Routes.ParseEncodeGenerate | server/routes.ts:53-62 | every request with non-empty text and a non-custom playlist survives encoding and validation unchanged |
| Routes.InvalidRequestWritesNothing | server/routes.ts:122-125 | an invalid body is answered 400 and writes nothing |
| Routes.NewSong | server/routes.ts:76-86 | the new song is "generating", has no owner and no track, points at the new mantra, stores the requested genre, playlist type name (or none), vocal gender and style, and has exact lyrics only when requested true |
| Routes.LyricsFailureKeepsMantra | server/routes.ts:64-128 | a lyrics failure is answered 500 "Failed to generate song"; the mantra stays stored and no song is written |
| Routes.ExactRequestsReachMusic | server/routes.ts:73 | a request for exact lyrics never fails at the lyrics step |
| Routes.WorkflowOrder | server/routes.ts:64-95 | once lyrics succeed, the mantra and then the "generating" song are stored before the music result is applied |
| Routes.UpdateById | server/routes.ts:98-105 | every row with the id is patched and no other row changes; nothing is returned exactly when no row has the id |
| Routes.MusicResolvedStoresResult | server/routes.ts:97-107 | on a music result only the new song receives the URL and status, and the updated song is the response |
| Routes.MusicRejectedMarksError | server/routes.ts:108-121 | on a music error only the new song turns "error", its URL kept, and the response is 500 with the message |
| Routes.MusicNeverRejects | server/routes.ts:51-130 | with the music service as implemented, a request whose lyrics succeed is answered 200 with the new song, which is "completed" or "generating", never "error", and appended as the only new song row |
| Routes.Callback | server/routes.ts:12-21 | the callback acknowledges with 200 and changes nothing |
| Routes.AllSongs | server/routes.ts:24-32 | all songs in creation order |
| Routes.PlaylistSongs | server/routes.ts:35-48 | exactly the songs of that playlist type, of every owner, each row exactly as often as it occurs in the table |
| Routes.PlaylistSongsChronological | server/routes.ts:38-42 | the playlist songs come back in creation order |
| Routes.SongById | server/routes.ts:133-148 | 404 "Song not found" exactly when no song has the id, otherwise 200 with a song carrying it |
| Routes.AllPlaylists | server/routes.ts:151-159 | all playlists in creation order |
| Routes.CreatePlaylistRoute | server/routes.ts:162-182 | an invalid body is 400 with nothing written; a valid one appends the playlist and returns it |
| Routes.CreatePlaylistRoutePreservesValid | server/routes.ts:162-182 | creating a playlist keeps the database valid, given a fresh id and a clock that does not run back |
| Routes.GenerateSongPreservesValid | server/routes.ts:51-130 | the whole generation request, on every path, keeps the database valid, given fresh mantra and song ids and a clock that does not run back |
| LibraryPage.ReadySongs | client/src/pages/library.tsx:26 | the queue holds exactly the completed songs with a non-empty URL, and nothing before the list arrives |
| LibraryPage.ReadySongsAppend | client/src/pages/library.tsx:26 | the queue keeps the fetched order and multiplicity: it distributes over concatenation, and one song is queued exactly when ready |
| LibraryPage.ReadyNonEmpty | client/src/pages/library.tsx:26 | the queue is non-empty exactly when some fetched song is ready |
| LibraryPage.CurrentIndex | client/src/pages/library.tsx:73 | the first queue position holding the selected id, or -1 exactly when there is no selection or the id is absent |
| LibraryPage.PlaySong | client/src/pages/library.tsx:20-23 | manual play selects the song and leaves play-all mode |
| LibraryPage.PlayAll | client/src/pages/library.tsx:28-34 | play-all starts the first ready song in play-all mode, and does nothing without ready songs |
| LibraryPage.Next | client/src/pages/library.tsx:36-50 | from queue position i of n it moves to (i+1) mod n and counts a wrap exactly when i = n-1; a selection outside the queue changes nothing |
| LibraryPage.Previous | client/src/pages/library.tsx:52-66 | from position i it moves to (i-1+n) mod n and counts a wrap exactly when i = 0 |
| LibraryPage.NextThenPrevious | client/src/pages/library.tsx:36-66 | with unique ids, next then previous returns to the same song in the same mode |
| LibraryPage.PreviousThenNext | client/src/pages/library.tsx:36-66 | with unique ids, previous then next returns to the same song |
| LibraryPage.ButtonsMatchSteps | client/src/pages/library.tsx:73-82 | outside play-all mode a button is enabled exactly when its step moves without wrapping |
| LibraryPage.PlayAllSteps | client/src/pages/library.tsx:36-82 | in play-all mode an enabled step always changes the song, and a selection outside the queue leaves the buttons without effect |
| LibraryPage.LoopModeChange | client/src/pages/library.tsx:68-71 | play-all mode is on exactly when the loop mode is "library" |
| LibraryPage.PlayAllShownWithoutEffect | client/src/pages/library.tsx:124-127 | the "Play All" button shows for any non-empty list, so with no ready song it is shown and does nothing |
| PlaylistsPage.Config | client/src/pages/playlists.tsx:13-78 | a header exists exactly for morning, daytime and bedtime |
| PlaylistsPage.ConfigCoversTimesOfDay | client/src/pages/playlists.tsx:13-35 | the pages with a header are exactly the non-custom playlist types, with distinct titles |
| PlaylistsPage.CurrentIndex | client/src/pages/playlists.tsx:71 | the selected id's position, or -1 with no selection, no list or an absent id |
| PlaylistsPage.Next | client/src/pages/playlists.tsx:55-61 | moves to the following song while there is one; at the last song nothing changes; an absent selection moves to the first song |
| PlaylistsPage.Previous | client/src/pages/playlists.tsx:63-69 | moves to the preceding song when the position is above 0, otherwise nothing changes |
| PlaylistsPage.NoWrapAtEnds | client/src/pages/playlists.tsx:55-73 | at the last song Next is disabled and inert, and at the first song Previous is |
| PlaylistsPage.NextThenPrevious | client/src/pages/playlists.tsx:55-73 | an enabled Next moves one place on, and with unique ids Previous brings back the song |
| PlaylistsPage.NextFromOutside | client/src/pages/playlists.tsx:57-73 | a selection not in the list disables both buttons, though the Next handler itself would jump to the first song |
| PlaylistsPage.CountLabel | client/src/pages/playlists.tsx:129 | the label is the count and "song", with a plural "s" exactly when the count is not 1; a missing list counts 0 |
| AudioPlayer.FormatTime | client/src/components/audio-player.tsx:73-78 | a non-finite time shows "0:00" |
| AudioPlayer.FormatTimeClock | client/src/components/audio-player.tsx:73-78 | a non-negative time shows as minutes, a colon and two-digit seconds below 60, and 60 x minutes + seconds is the whole seconds |
| AudioPlayer.FormatTimeRoundTrip | client/src/components/audio-player.tsx:73-78 | reading the display of a non-negative time back gives its whole seconds |
| AudioPlayer.ParseClock | client/src/components/audio-player.tsx:75-77 | any minutes and seconds below 60, written as the formatter writes them, read back as their total |
| AudioPlayer.FormatNegativeTime | client/src/components/audio-player.tsx:75-77 | every time in the minute before zero shows minute "-1" next to its own negative whole seconds (-30 s shows "-1:-30"), and that display does not read back as a time |
| AudioPlayer.TogglePlay | client/src/components/audio-player.tsx:55-64 | flips the play flag alone, and does nothing without an audio element |
| AudioPlayer.ToggleTwice | client/src/components/audio-player.tsx:55-64 | two toggles restore the state |
| AudioPlayer.Ended | client/src/components/audio-player.tsx:36 | the end of the track stops playing and changes nothing else |
| AudioPlayer.Seek | client/src/components/audio-player.tsx:66-71 | seeking sets the position to the slider value when there is an audio element |
| AudioPlayer.SliderMax | client/src/components/audio-player.tsx:102 | the slider maximum is the duration when truthy and 100 otherwise, never falsy |
| AudioPlayer.SetVolume | client/src/components/audio-player.tsx:154-158 | a slider value in [0, 100] gives a volume in [0, 1], and the slider shows it back |
| AudioPlayer.VolumeRoundTrip | client/src/components/audio-player.tsx:27-158 | full volume shows as 100, and setting the shown value keeps the volume |
| AudioPlayer.Buttons | client/src/components/audio-player.tsx:21-144 | a skip button is enabled exactly when its flag is passed as true, a missing flag counting as false |
| CreatePage.HandleGenerate | client/src/pages/create.tsx:74-111 | text is checked first, then genre, then rhythm; a request is sent exactly when all pass, carrying the text untrimmed and the chosen options |
| CreatePage.PressGenerate | client/src/pages/create.tsx:267-268 | the button does nothing while a request is pending |
| CreatePage.SentRequestsValidate | client/src/pages/create.tsx:102-110 | every request the page sends passes the server's validation unchanged |
| CreatePage.GenreChange | client/src/pages/create.tsx:30-40 | a chosen genre brings its first rhythm, and clearing the genre clears the rhythm |
| CreatePage.GenreChangeValidation | client/src/pages/create.tsx:30-100 | after choosing a genre with a non-empty first rhythm a non-blank text suffices, and clearing the genre brings back "Genre Required" |
| CreatePage.ClickPlaylist | client/src/pages/create.tsx:230-256 | a playlist click toggles that playlist and changes nothing else |
| CreatePage.PlaylistClicks | client/src/pages/create.tsx:230-256 | at most one playlist is chosen, never "custom", and it is the last one clicked unless that click cleared it |
| VoiceSelector.OptionsEnumerated | client/src/components/voice-selector.tsx:19-31 | the buttons offer male and female and the six styles, each once, in the server's order |
| VoiceSelector.Toggle | client/src/components/voice-selector.tsx:47-49 | clicking the chosen option clears it, and clicking any other chooses it |
| VoiceSelector.ToggleTwice | client/src/components/voice-selector.tsx:47-49 | two clicks on one option restore an empty or equal selection |
| VoiceSelector.ClickGender | client/src/components/voice-selector.tsx:47-49 | a gender click toggles the gender and keeps the style |
| VoiceSelector.ClickStyle | client/src/components/voice-selector.tsx:68-70 | a style click toggles the style and keeps the gender |
| VoiceSelector.ClicksCommute | client/src/components/voice-selector.tsx:41-77 | gender and style clicks commute |
| SignupPage.HandleSubmit | client/src/pages/signup.tsx:41-52 | a request is sent exactly when the password has 8 or more characters; username and password pass through and an empty email is left out |
| SignupPage.ValidInputsAreSent | client/src/pages/signup.tsx:41-93 | a form meeting the inputs' declared constraints is always sent |
| SignupPage.FailureText | client/src/pages/signup.tsx:32-38 | the failure toast shows the error message, or the sign-up failure text when the message is empty |
| MobileHome.Select | mobile/src/screens/home.tsx:22-23 | the ready and generating lists hold exactly the fetched songs with that status, each as often as it was fetched, and nothing before the list arrives |
| MobileHome.SelectAppend | mobile/src/screens/home.tsx:22-23 | selection keeps the fetched order: selecting from two stretches of the list is selecting from each and joining the results |
| MobileHome.StatsBounded | mobile/src/screens/home.tsx:22-53 | no song is both ready and generating, and the two counts together never exceed the total |
| MobileHome.RecentSongs | mobile/src/screens/home.tsx:63 | the "Recent Songs" list is the first min(5, n) ready songs in list order, which the server orders oldest first, so these are the oldest ready songs |
| MobileHome.NoSongsText | mobile/src/screens/home.tsx:57-76 | once loaded, "No songs yet" shows exactly when no song is completed, and otherwise at least one song is listed |
| MobileLibrary.EmptyStateRule | mobile/src/screens/library.tsx:43-104 | while loading only the spinner shows, never the empty state; once loaded the empty state shows exactly when every song is pending or failed |
| MobileLibrary.PressCard | mobile/src/screens/library.tsx:60-98 | a ready card opens the modal on its song, and a generating card does nothing |
| MobileLibrary.PressKeepsModalReady | mobile/src/screens/library.tsx:60-122 | the open modal always shows a ready song |
| MobileLibrary.CloseModal | mobile/src/screens/library.tsx:32-122 | closing hides the modal and keeps the selection |
| MobileLibrary.ConfirmDelete | mobile/src/screens/library.tsx:36-41 | a deletion is requested for the song exactly when "Delete" is chosen |
| MobileLibrary.ReadyWithoutAudio | mobile/src/screens/library.tsx:51-158 | a completed song without audio opens the modal without a play button |
| MobileCreate.DefaultsOffered | mobile/src/screens/create.tsx:16-22 | the genre list is the schema's, and the defaults are among the options |
| MobileCreate.Generate | mobile/src/screens/create.tsx:25-50 | a blank mantra alerts and calls nothing; otherwise the mantra is created first, and a song is requested only for the returned id; success resets the form and a failure keeps it; at most two calls are made |
| MobileCreate.ErrorText | mobile/src/screens/create.tsx:39-41 | the error alert shows the message, or "Failed to generate song" when the message is empty |
| MobileCreate.SongFollowsMantra | mobile/src/screens/create.tsx:25-37 | a song is requested only as the second call, and only for the mantra just created |
| MobileCreate.SuccessClearsMantra | mobile/src/screens/create.tsx:25-37 | a successful run leaves a blank mantra, so the same text is not sent twice |
| MobileCreate.Label | mobile/src/screens/create.tsx:91 | the label keeps the value's length, upper-cases its first character and keeps the rest |
| MobileCreate.LabelsCapitalised | mobile/src/screens/create.tsx:16-91 | every genre and tempo label starts with a capital letter |
| MobileLanding.Submit | mobile/src/screens/landing.tsx:22-40 | an empty field alerts and calls nothing; otherwise the mode picks login or signup on the typed credentials, loading is on during the call and off after, and only a failure alerts, with the error's message or "Authentication failed" when the message is empty |
| MobileLanding.LoadingCleared | mobile/src/screens/landing.tsx:28-39 | every press leaves a screen that was not loading not loading |
| MobileLanding.ToggleMode | mobile/src/screens/landing.tsx:94 | the mode link flips sign-in and sign-up and changes nothing else |
| MobileLanding.ToggleSwitchesCall | mobile/src/screens/landing.tsx:30-94 | after a toggle the same credentials go to the other call, and two toggles restore the mode |
| Text.Trim | client/src/components/lyrics-display.tsx:22 | `trim` removes exactly the leading and trailing whitespace: the result is a slice with no whitespace at either end, empty exactly for blank text |
| Text.TrimKeepsContent | client/src/components/lyrics-display.tsx:22 | trimming loses only whitespace |
| Text.JoinSplit | server/lib/openai.ts:87-88 | joining the pieces of a split on the same character restores the text |
| Text.SplitJoin | server/lib/openai.ts:87-88 | splitting words rejoined on a character none of them holds gives the words back |
| Text.ParseNatToString | client/src/components/audio-player.tsx:77 | a number's decimal digits read back as the number |
| JsNumber.RemSixty | client/src/components/audio-player.tsx:76 | JavaScript's `%` by 60 leaves a remainder with the sign of the dividend, below 60 in size, which added to 60 x the truncated quotient gives the number back |

## Left out

- User accounts are not part of this model: `getUser`, `getUserByUsername`, `createUser` and `verifyUserPassword` hash passwords with bcrypt, and the password hash cannot be modelled meaningfully.
- The HTTP requests, the chat-completion and music-service calls, and the database driver are not modelled as calls. Their replies, thrown errors, generated ids and timestamps are inputs. Database failures, and the 500 answers they cause on the read routes, are not modelled.
- Creation times are assumed not to run back. The validity lemmas (Storage.AppendMantraValid, Routes.GenerateSongPreservesValid and the others) require that each new row's creation time is no earlier than any recorded one. `defaultNow()` does not guarantee this when requests run concurrently. Fresh ids stand for the database's `gen_random_uuid()` default.
- Routes.GenerateSong stamps the new mantra and the new song with one time, `now`. The source inserts them in two statements, so each row gets its own `defaultNow()` and the song's time can be later than the mantra's. The model does not separate the two times.
- Schema.SongStatus is a closed type with the four documented values. The `status` column of shared/schema.ts:21 is free text, and the comment there lists those values. A row holding any other status string is not modelled.
- The two-second waits between polls are not modelled. Polling is counted in attempts.
- Rendering, toasts, navigation, query caching and refetching are out of scope. Scroll animation is kept only as whether a scroll happens. The audio element's own playback is not modelled; its presence is a flag.
- Lengths count Dafny characters. JavaScript counts UTF-16 code units, so `length` checks can differ for characters outside the Basic Multilingual Plane.
- Playback times are exact reals. JavaScript's floating-point rounding in `duration / lines.length` and in `seconds % 60` is not modelled.
- Suno.MusicResultShape: a poll timeout leaves the song "generating" with an empty URL, because that is what server/lib/suno.ts:141-146 returns. A timeout is never reported as an error.
- The `owner`, `vocalGender`, `vocalStyle` and `useExactLyrics` columns of Schema.Mantra and Schema.Song do not appear in shared/schema.ts:7-24. They come from the code that writes them: the owner from the `userId` of server/storage.ts:83-133, and the three others from the insert of server/routes.ts:76-86. The model therefore describes the database those two files assume, not the table declarations alone.
- The rhythm option table (`RHYTHM_OPTIONS`) is not part of this model, nor is the rhythm selector. CreatePage.GenreChange therefore takes the first rhythm of each genre as a parameter.
- The genre selector is not part of this model. It is a static map with an always-select click.
- CreatePage.RequestBody drops the `rhythm` field the page posts: the server's schema does not list it, and zod strips unknown keys.
- mobile/src/api/client.ts is not part of this model. MobileCreate.Generate records the calls the screen makes and their order, not their HTTP payloads.
- Patches are not checked in one case. Storage.ApplyPatch takes the columns of a `Partial<Song>` other than id, owner and creation time. An update that rewrites those three columns is not modelled.
- Request bodies are JSON objects modelled field by field. A body that is not an object at all is not modelled.
- SignupPage.InputsValid states the username and password constraints the input elements declare. The browser enforces them before the handler runs, and the model only relates them to the handler's own check.
- MobileCreate.Label upper-cases ASCII letters only. JavaScript's `toUpperCase` also maps other letters, but every option label here is ASCII.
- PlaylistsPage.Config treats every route parameter other than the three times of day as missing. The source looks the parameter up on a plain object, so inherited names such as "constructor" would also find a (useless) value.
- The audio player's loop-mode control is not part of this model. The library page's response to loop-mode changes is modelled in LibraryPage.LoopModeChange.
- The sign-up page's HTTP call and the mobile session context are not part of this model. They depend entirely on the network and on secure storage.
