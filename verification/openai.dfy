/** Lyric and title shaping around the chat-completion service (server/lib/openai.ts).
    The service itself is not modelled: each call is represented by the reply it
    produced (the text of the first choice, `""` when absent) or by the error it
    threw. */
module OpenAi {
  import opened Text
  import opened Wrappers

  /** What one chat-completion call produced. `Threw(None)` is a thrown value that is
      not an `Error` and so carries no message. */
  datatype ChatReply = Replied(content: string) | Threw(message: Option<string>)

  // ---- Exact-lyrics mode ----

  /** The characters exact mode splits sentences on (`/[.!?]/`). */
  const SentenceEnds: set<char> := {'.', '!', '?'}

  /** The sentence segments of the mantra that hold something other than whitespace. */
  function Segments(mantra: string): seq<string> {
    NonBlank(Split(mantra, SentenceEnds))
  }

  /** The verse text: the kept segments joined by newlines, trimmed as a whole
      (the segments themselves are not trimmed one by one). */
  function Verse(mantra: string): string {
    Trim(Join(Segments(mantra), "\n"))
  }

  /** The fixed verse/chorus/verse/chorus layout, every part holding the same text. */
  function SongLayout(v: string): string {
    "[Verse]\n" + v + "\n\n[Chorus]\n" + v + "\n\n[Verse]\n" + v + "\n\n[Chorus]\n" + v
  }

  /** Exact mode (openai.ts:16-27): no model call; the mantra itself when it has no
      segment with content, otherwise the mantra's words laid out as a song. */
  function ExactLyrics(mantra: string): (r: string)
  {
    if |Segments(mantra)| == 0 then mantra else SongLayout(Verse(mantra))
  }

  /** A mantra has no segment with content exactly when it consists only of whitespace
      and sentence punctuation; such a mantra comes back unchanged. */
  lemma ExactLyricsUnchanged(mantra: string)
    ensures |Segments(mantra)| == 0 <==> forall i :: 0 <= i < |mantra| ==> mantra[i] in Whitespace + SentenceEnds
    ensures |Segments(mantra)| == 0 ==> ExactLyrics(mantra) == mantra
  {
    var parts := Split(mantra, SentenceEnds);
    SplitRemoveChars(mantra, SentenceEnds, Whitespace);
    RemoveCharsEmpty(mantra, Whitespace + SentenceEnds);
    DropBlankPieces(parts, Whitespace);
    NonBlankEmpty(parts);
  }

  /** No non-blank piece is left exactly when the pieces' content is empty. */
  lemma {:induction false} NonBlankEmpty(parts: seq<string>)
    ensures NonBlank(parts) == [] <==> ConcatRemoving(parts, Whitespace) == []
  {
    if |parts| > 0 {
      NonBlankEmpty(parts[1..]);
      RemoveCharsEmpty(parts[0], Whitespace);
    }
  }

  /** Otherwise the result is the fixed four-part layout around one verse that is
      non-empty, trimmed, free of sentence punctuation, and holds every other
      non-whitespace character of the mantra in its original order. */
  lemma ExactLyricsLayout(mantra: string)
    requires |Segments(mantra)| > 0
    ensures var v := Verse(mantra);
            && ExactLyrics(mantra) == SongLayout(v)
            && v != [] && v[0] !in Whitespace && v[|v| - 1] !in Whitespace
            && NoneOf(v, SentenceEnds)
            && RemoveChars(v, Whitespace) == RemoveChars(mantra, Whitespace + SentenceEnds)
  {
    VerseAvoidsPunctuation(mantra);
    VerseKeepsContent(mantra);
    // Non-empty: the mantra has a character that is neither whitespace nor punctuation.
    ExactLyricsUnchanged(mantra);
    RemoveCharsEmpty(mantra, Whitespace + SentenceEnds);
  }

  /** No sentence punctuation survives into the verse: every segment avoids it, and
      so does the newline that joins them. */
  lemma VerseAvoidsPunctuation(mantra: string)
    ensures NoneOf(Verse(mantra), SentenceEnds)
  {
    var kept := Segments(mantra);
    JoinNoneOf(kept, "\n", SentenceEnds);
    TrimNoneOf(Join(kept, "\n"), SentenceEnds);
  }

  /** Apart from whitespace the verse holds exactly the mantra's characters other than
      sentence punctuation, in order. */
  lemma VerseKeepsContent(mantra: string)
    ensures RemoveChars(Verse(mantra), Whitespace) == RemoveChars(mantra, Whitespace + SentenceEnds)
  {
    var parts := Split(mantra, SentenceEnds);
    var kept := Segments(mantra);
    var joined := Join(kept, "\n");
    TrimKeepsContent(joined, Whitespace);
    JoinRemoveChars(kept, "\n", Whitespace);
    DropBlankPieces(parts, Whitespace);
    SplitRemoveChars(mantra, SentenceEnds, Whitespace);
    assert Whitespace + SentenceEnds == SentenceEnds + Whitespace;
  }

  // ---- Transform mode ----

  const LyricsErrorPrefix: string := "Failed to generate song lyrics: "
  const EmptyLyricsMessage: string := "OpenAI returned empty lyrics"

  /** Transform mode's handling of the model reply (openai.ts:48-60): blank lyrics are
      an error, other lyrics are returned trimmed, and every error is rethrown with
      a fixed prefix. */
  function TransformLyrics(reply: ChatReply): (r: Result<string, string>)
    ensures r.Success? <==> reply.Replied? && !IsBlank(reply.content)
    ensures r.Success? ==> r.value == Trim(reply.content) && r.value != []
    ensures r.Failure? ==> LyricsErrorPrefix <= r.error
    ensures reply.Replied? && IsBlank(reply.content) ==>
              r == Failure(LyricsErrorPrefix + EmptyLyricsMessage)
    ensures reply.Threw? ==> r == Failure(LyricsErrorPrefix + reply.message.GetOr("Unknown error"))
  {
    match reply
    case Replied(content) =>
      if content == [] || |Trim(content)| == 0 then Failure(LyricsErrorPrefix + EmptyLyricsMessage)
      else Success(Trim(content))
    case Threw(message) => Failure(LyricsErrorPrefix + message.GetOr("Unknown error"))
  }

  /** `generateLyrics`: exact mode never consults the model reply. */
  function GenerateLyrics(mantra: string, useExactLyrics: bool, reply: ChatReply): (r: Result<string, string>)
    ensures useExactLyrics ==> r == Success(ExactLyrics(mantra))
    ensures !useExactLyrics ==> r == TransformLyrics(reply)
  {
    if useExactLyrics then Success(ExactLyrics(mantra)) else TransformLyrics(reply)
  }

  /** Exact mode is a total function of the mantra: every reply gives the same result. */
  lemma ExactModeIgnoresReply(mantra: string, r1: ChatReply, r2: ChatReply)
    ensures GenerateLyrics(mantra, true, r1) == GenerateLyrics(mantra, true, r2)
    ensures GenerateLyrics(mantra, true, r1).Success?
  {
  }

  // ---- Titles ----

  const QuoteChars: set<char> := {'\'', '"'}

  /** The model's title trimmed, then stripped of every quote character. */
  function CleanTitle(content: string): (r: string)
    ensures NoneOf(r, QuoteChars)
  {
    RemoveChars(Trim(content), QuoteChars)
  }

  /** Cleaning loses only whitespace and quotes: the remaining characters are the
      reply's, in order. */
  lemma CleanTitleKeepsWords(content: string)
    ensures RemoveChars(CleanTitle(content), Whitespace + QuoteChars) ==
            RemoveChars(content, Whitespace + QuoteChars)
  {
    RemoveCharsSubset(Trim(content), QuoteChars, Whitespace + QuoteChars);
    TrimKeepsContent(content, Whitespace + QuoteChars);
  }

  /** Removing a subset first changes nothing. */
  lemma {:induction false} RemoveCharsSubset(s: string, a: set<char>, b: set<char>)
    requires a <= b
    ensures RemoveChars(RemoveChars(s, a), b) == RemoveChars(s, b)
  {
    if |s| > 0 {
      RemoveCharsSubset(s[1..], a, b);
      var head := if s[0] in a then [] else [s[0]];
      RemoveCharsAppend(head, RemoveChars(s[1..], a), b);
      assert RemoveChars(head, b) == if s[0] in b then [] else [s[0]] by {
        if head != [] {
          assert head[1..] == [];
        }
      }
    }
  }

  /** The first four space-separated words of the mantra, rejoined with spaces. */
  function FallbackTitle(mantra: string): string {
    var words := Split(mantra, {' '});
    Join(words[..if |words| < 4 then |words| else 4], " ")
  }

  /** The fallback title is a prefix of the mantra: the whole mantra when it has at
      most three spaces, and otherwise exactly its first four space-separated words. */
  lemma FallbackTitlePrefix(mantra: string)
    ensures FallbackTitle(mantra) <= mantra
    ensures |Split(mantra, {' '})| <= 4 ==> FallbackTitle(mantra) == mantra
    ensures |Split(mantra, {' '})| > 4 ==> Split(FallbackTitle(mantra), {' '}) == Split(mantra, {' '})[..4]
  {
    var words := Split(mantra, {' '});
    var k := if |words| < 4 then |words| else 4;
    JoinSplitPrefix(mantra, ' ', k);
    JoinSplit(mantra, ' ');
    if |words| <= 4 {
      assert words[..k] == words;
    } else {
      SplitJoin(words[..4], ' ');
    }
  }

  /** `generateSongTitle` (openai.ts:63-101): never fails; a usable model title is
      used cleaned, and an empty one or a failed call falls back to the mantra's
      first words. */
  function GenerateSongTitle(mantra: string, reply: ChatReply): (r: string)
    ensures r == FallbackTitle(mantra) || (r != [] && NoneOf(r, QuoteChars))
    ensures reply.Threw? ==> r == FallbackTitle(mantra)
    ensures reply.Replied? && CleanTitle(reply.content) != [] ==> r == CleanTitle(reply.content)
    ensures reply.Replied? && CleanTitle(reply.content) == [] ==> r == FallbackTitle(mantra)
  {
    match reply
    case Replied(content) =>
      var clean := CleanTitle(content);
      if clean == [] then FallbackTitle(mantra) else clean
    case Threw(_) => FallbackTitle(mantra)
  }
}
