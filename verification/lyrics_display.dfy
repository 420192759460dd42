/** The karaoke lyric view (client/src/components/lyrics-display.tsx): lyrics are
    split into trimmed, non-blank lines; the playback position picks one line
    to highlight, assuming every line takes an equal slice of the track and
    showing each line a fixed two seconds early; every line is then styled by
    its position relative to the highlighted one. */
module LyricsDisplay {
  import opened Text
  import opened Seqs
  import opened JsNumber
  import opened Wrappers

  /** Lines are shown this many seconds before they are sung. */
  const LeadTimeSeconds: real := 2.0

  predicate NonEmpty(line: string) {
    |line| > 0
  }

  /** The raw newline-separated lines of the lyrics. */
  function RawLines(lyrics: string): seq<string> {
    Split(lyrics, {'\n'})
  }

  /** The displayed lines: every raw line trimmed, blank ones dropped, order kept. */
  function Lines(lyrics: string): (r: seq<string>)
    ensures forall i :: 0 <= i < |r| ==> r[i] in Map(RawLines(lyrics), Trim)
    ensures forall i :: 0 <= i < |r| ==>
              |r[i]| > 0 && r[i][0] !in Whitespace && r[i][|r[i]| - 1] !in Whitespace
    ensures forall k :: 0 <= k < |RawLines(lyrics)| && !IsBlank(RawLines(lyrics)[k]) ==>
              Trim(RawLines(lyrics)[k]) in r
  {
    var raw := RawLines(lyrics);
    var trimmed := Map(raw, Trim);
    var r := Filter(trimmed, NonEmpty);
    forall k | 0 <= k < |raw| && !IsBlank(raw[k])
      ensures Trim(raw[k]) in r
    {
      assert trimmed[k] == Trim(raw[k]);
      assert NonEmpty(trimmed[k]);
    }
    forall i | 0 <= i < |r|
      ensures |r[i]| > 0 && r[i][0] !in Whitespace && r[i][|r[i]| - 1] !in Whitespace
    {
      assert NonEmpty(r[i]);
      assert r[i] in trimmed;
      var k :| 0 <= k < |raw| && trimmed[k] == r[i];
    }
    r
  }

  /** Lines of two texts joined by a newline are the lines of the first followed by
      the lines of the second: no line is lost, duplicated or reordered. */
  lemma LinesAppend(a: string, b: string)
    ensures Lines(a + "\n" + b) == Lines(a) + Lines(b)
  {
    SplitAppend(a, '\n', b, {'\n'});
    MapAppend(RawLines(a), RawLines(b), Trim);
    FilterAppend(Map(RawLines(a), Trim), Map(RawLines(b), Trim), NonEmpty);
  }

  /** A text with no newline is a single line, shown trimmed when it is not blank. */
  lemma {:induction false} LinesOfOneLine(line: string)
    requires '\n' !in line
    ensures Lines(line) == if IsBlank(line) then [] else [Trim(line)]
  {
    SplitNoSep(line, {'\n'});
    assert RawLines(line) == [line];
    assert Map([line], Trim) == [Trim(line)];
  }

  /** The "No lyrics available" placeholder replaces the view (lyrics-display.tsx:54). */
  predicate ShowsEmptyState(lyrics: string) {
    lyrics == [] || |Lines(lyrics)| == 0
  }

  /** The placeholder appears exactly when the lyrics are nothing but whitespace. */
  lemma EmptyStateIffBlank(lyrics: string)
    ensures ShowsEmptyState(lyrics) <==> IsBlank(lyrics)
  {
    BlankIffRawLinesBlank(lyrics);
    NoLinesIffRawLinesBlank(lyrics);
  }

  /** The whole text is blank exactly when every raw line is. */
  lemma BlankIffRawLinesBlank(lyrics: string)
    ensures IsBlank(lyrics) <==> forall k :: 0 <= k < |RawLines(lyrics)| ==> IsBlank(RawLines(lyrics)[k])
  {
    SplitRemoveChars(lyrics, {'\n'}, Whitespace);
    NewlineIsWhitespace();
    RemoveCharsEmpty(lyrics, Whitespace);
    AllPiecesBlank(RawLines(lyrics));
  }

  lemma NewlineIsWhitespace()
    ensures Whitespace + {'\n'} == Whitespace
  {
  }

  /** No line is displayed exactly when every raw line is blank. */
  lemma NoLinesIffRawLinesBlank(lyrics: string)
    ensures Lines(lyrics) == [] <==> forall k :: 0 <= k < |RawLines(lyrics)| ==> IsBlank(RawLines(lyrics)[k])
  {
    var raw := RawLines(lyrics);
    var lines := Lines(lyrics);
    if lines != [] {
      var l := lines[0];
      assert |l| > 0 && l in Map(raw, Trim);
      var k :| 0 <= k < |raw| && Map(raw, Trim)[k] == l;
      assert Trim(raw[k]) == l;
      assert !IsBlank(raw[k]);
    }
  }

  /** The concatenated non-whitespace content of some pieces is empty exactly when each piece is blank. */
  lemma {:induction false} AllPiecesBlank(parts: seq<string>)
    ensures ConcatRemoving(parts, Whitespace) == [] <==> forall k :: 0 <= k < |parts| ==> IsBlank(parts[k])
  {
    if |parts| > 0 {
      AllPiecesBlank(parts[1..]);
      RemoveCharsEmpty(parts[0], Whitespace);
      assert forall k :: 1 <= k < |parts| ==> parts[k] == parts[1..][k - 1];
    }
  }

  /** The effect is skipped for a falsy or zero duration (`0`, `NaN`) or when there are no lines. */
  predicate SkipsUpdate(lineCount: nat, duration: Num) {
    !duration.Truthy() || duration == Fin(0.0) || lineCount == 0
  }

  /** `Math.floor(adjustedTime / timePerLine)`, clamped from above by the last line. */
  function SliceIndex(lineCount: nat, duration: real, currentTime: real): int
    requires lineCount >= 1 && duration != 0.0
  {
    var timePerLine := duration / lineCount as real;
    Min(((currentTime + LeadTimeSeconds) / timePerLine).Floor, lineCount - 1)
  }

  /** One run of the highlighting effect: the highlighted index after a time update
      (lyrics-display.tsx:26-38). An infinite duration makes every slice infinitely
      long, so the first line stays highlighted. */
  function NextHighlight(prev: int, lineCount: nat, duration: Num, currentTime: real): (r: int)
    ensures SkipsUpdate(lineCount, duration) ==> r == prev
    ensures !SkipsUpdate(lineCount, duration) ==> r <= lineCount - 1
    ensures duration.PosInf? || duration.NegInf? ==> lineCount == 0 || r == 0
  {
    if SkipsUpdate(lineCount, duration) then prev
    else match duration
      case Fin(d) => SliceIndex(lineCount, d, currentTime)
      case _ => 0
  }

  /** The highlighted index lies on a line whenever the position and duration are sensible. */
  lemma HighlightInRange(prev: int, lineCount: nat, d: real, t: real)
    requires lineCount >= 1 && d > 0.0 && t >= 0.0
    ensures 0 <= NextHighlight(prev, lineCount, Fin(d), t) < lineCount
  {
    var w := d / lineCount as real;
    var q := (t + LeadTimeSeconds) / w;
    assert q > 0.0 by { DivPositive(t + LeadTimeSeconds, w); }
  }

  lemma DivPositive(x: real, w: real)
    requires x > 0.0 && w > 0.0
    ensures x / w > 0.0
  {
  }

  lemma DivMonotone(x: real, y: real, w: real)
    requires x <= y && w > 0.0
    ensures x / w <= y / w
  {
  }

  lemma MulMonotone(a: real, b: real, w: real)
    requires a <= b && w > 0.0
    ensures a * w <= b * w
  {
  }

  /** Later positions never highlight an earlier line. */
  lemma HighlightMonotone(prev: int, lineCount: nat, d: real, t1: real, t2: real)
    requires lineCount >= 1 && d > 0.0 && t1 <= t2
    ensures NextHighlight(prev, lineCount, Fin(d), t1) <= NextHighlight(prev, lineCount, Fin(d), t2)
  {
    var w := d / lineCount as real;
    DivMonotone(t1 + LeadTimeSeconds, t2 + LeadTimeSeconds, w);
  }

  /** The highlighted line is the slice of the track containing position + lead time:
      line `k` below the last covers `[k*w, (k+1)*w)` with `w = duration / lines`,
      and the last line covers everything from `(lines-1)*w` on. */
  lemma HighlightIsSlice(prev: int, lineCount: nat, d: real, t: real)
    requires lineCount >= 1 && d > 0.0 && t >= 0.0
    ensures var k := NextHighlight(prev, lineCount, Fin(d), t);
            var w := d / lineCount as real;
            var at := t + LeadTimeSeconds;
            (k == lineCount - 1 && ((lineCount - 1) as real) * w <= at) ||
            (0 <= k < lineCount - 1 && (k as real) * w <= at < ((k + 1) as real) * w)
  {
    var w := d / lineCount as real;
    var at := t + LeadTimeSeconds;
    var f := (at / w).Floor;
    HighlightInRange(prev, lineCount, d, t);
    SliceOf(at, w, f);
    if f >= lineCount - 1 {
      MulMonotone((lineCount - 1) as real, f as real, w);
    }
  }

  /** `f = floor(at / w)` places `at` in the slice `[f*w, (f+1)*w)`. */
  lemma SliceOf(at: real, w: real, f: int)
    requires w > 0.0
    requires f == (at / w).Floor
    ensures (f as real) * w <= at < ((f + 1) as real) * w
  {
    var q := at / w;
    assert q * w == at;
    var lo := f as real;
    var hi := (f + 1) as real;
    assert lo <= q < hi;
    MulMonotone(lo, q, w);
    assert lo * w <= at;
    MulMonotoneStrict(q, hi, w);
    assert at < hi * w;
  }

  lemma MulMonotoneStrict(a: real, b: real, w: real)
    requires a < b && w > 0.0
    ensures a * w < b * w
  {
  }

  /** Once position + lead time reaches the end of the track, the last line is highlighted. */
  lemma HighlightAtEnd(prev: int, lineCount: nat, d: real, t: real)
    requires lineCount >= 1 && d > 0.0 && t >= 0.0
    requires t + LeadTimeSeconds >= d
    ensures NextHighlight(prev, lineCount, Fin(d), t) == lineCount - 1
  {
    var w := d / lineCount as real;
    var q := (t + LeadTimeSeconds) / w;
    assert d / w == lineCount as real;
    DivMonotone(d, t + LeadTimeSeconds, w);
  }

  /** With two or more lines the first line is highlighted exactly while position +
      lead time is inside the first slice; a single line is always highlighted. */
  lemma HighlightFirstLine(prev: int, lineCount: nat, d: real, t: real)
    requires lineCount >= 1 && d > 0.0 && t >= 0.0
    ensures lineCount == 1 ==> NextHighlight(prev, lineCount, Fin(d), t) == 0
    ensures lineCount >= 2 ==>
              (NextHighlight(prev, lineCount, Fin(d), t) == 0 <==> t + LeadTimeSeconds < d / lineCount as real)
  {
    HighlightIsSlice(prev, lineCount, d, t);
    HighlightInRange(prev, lineCount, d, t);
    var w := d / lineCount as real;
    var at := t + LeadTimeSeconds;
    var k := NextHighlight(prev, lineCount, Fin(d), t);
    if lineCount >= 2 {
      if k == 0 {
        assert at < (1 as real) * w;
      } else {
        assert (k as real) * w <= at;
        MulMonotone(1.0, k as real, w);
        assert w <= at;
      }
    }
  }

  /** The five presentation classes of a line (lyrics-display.tsx:90-98). */
  datatype LineStyle = Highlighted | UpcomingSoon | UpcomingNext | Past | Future

  /** Position of line `index` against the highlighted line `h`: the three flags
      `isPast`, `isHighlighted`, `isFuture` partition every index. */
  datatype LinePosition = Before | At | After

  function PositionOf(index: int, h: int): (p: LinePosition)
    ensures p == Before <==> index < h
    ensures p == At <==> index == h
    ensures p == After <==> index > h
  {
    if index < h then Before else if index == h then At else After
  }

  /** The conditional chain choosing a line's style: highlighted first, then the next
      two lines, then past, and everything else is future. */
  function StyleOf(index: int, h: int): (s: LineStyle)
    ensures s == Highlighted <==> index == h
    ensures s == UpcomingSoon <==> index == h + 1
    ensures s == UpcomingNext <==> index == h + 2
    ensures s == Past <==> index < h
    ensures s == Future <==> index > h + 2
  {
    var isHighlighted := index == h;
    var isPast := index < h;
    var isUpcomingSoon := index == h + 1;
    var isUpcomingNext := index == h + 2;
    if isHighlighted then Highlighted
    else if isUpcomingSoon then UpcomingSoon
    else if isUpcomingNext then UpcomingNext
    else if isPast then Past
    else Future
  }

  /** The style chain agrees with the position flags: a past line is styled past, the
      highlighted line highlighted, and every line after it (the source computes
      `isFuture` without reading it) one of the two upcoming styles or future. */
  lemma StyleMatchesPosition(index: int, h: int)
    ensures StyleOf(index, h) == Past <==> PositionOf(index, h) == Before
    ensures StyleOf(index, h) == Highlighted <==> PositionOf(index, h) == At
    ensures PositionOf(index, h) == After <==> StyleOf(index, h) in {UpcomingSoon, UpcomingNext, Future}
  {
  }

  /** The styles of all displayed lines: exactly one line is highlighted when `h` is a line. */
  function Styles(lineCount: nat, h: int): (r: seq<LineStyle>)
    ensures |r| == lineCount
    ensures forall i :: 0 <= i < lineCount ==> r[i] == StyleOf(i, h)
  {
    seq(lineCount, i => StyleOf(i, h))
  }

  lemma ExactlyOneHighlighted(lineCount: nat, h: int)
    requires 0 <= h < lineCount
    ensures Count(Styles(lineCount, h), (s: LineStyle) => s == Highlighted) == 1
  {
    var r := Styles(lineCount, h);
    var p := (s: LineStyle) => s == Highlighted;
    assert r == r[..h] + [r[h]] + r[h + 1..];
    FilterAppend(r[..h] + [r[h]], r[h + 1..], p);
    FilterAppend(r[..h], [r[h]], p);
    FilterAll(r[..h], (s: LineStyle) => !p(s));
    FilterAll(r[h + 1..], (s: LineStyle) => !p(s));
    NoneKept(r[..h], p);
    NoneKept(r[h + 1..], p);
  }

  lemma {:induction false} NoneKept<T>(s: seq<T>, p: T -> bool)
    requires forall i :: 0 <= i < |s| ==> !p(s[i])
    ensures Filter(s, p) == []
  {
    if |s| > 0 {
      NoneKept(s[1..], p);
    }
  }

  /** The effect's auto-scroll: it targets the new highlighted line only when the effect
      runs while playing, the scroll container is on screen (the lyrics are not in the
      empty state), and a line with that index exists (lyrics-display.tsx:41-51). */
  function ScrollTarget(lyrics: string, prev: int, duration: Num, currentTime: real, isPlaying: bool): (r: Option<int>)
    ensures r.Some? ==> isPlaying && !ShowsEmptyState(lyrics)
    ensures r.Some? ==> 0 <= r.value < |Lines(lyrics)|
    ensures r.Some? ==> r.value == NextHighlight(prev, |Lines(lyrics)|, duration, currentTime)
    ensures !isPlaying ==> r == None
  {
    var n := |Lines(lyrics)|;
    var idx := NextHighlight(prev, n, duration, currentTime);
    if SkipsUpdate(n, duration) || !isPlaying || ShowsEmptyState(lyrics) || !(0 <= idx < n) then None
    else Some(idx)
  }

  /** While playing with a valid duration and position, each update scrolls to the new line. */
  lemma ScrollsWhilePlaying(lyrics: string, prev: int, d: real, t: real)
    requires !IsBlank(lyrics) && d > 0.0 && t >= 0.0
    ensures ScrollTarget(lyrics, prev, Fin(d), t, true) == Some(NextHighlight(prev, |Lines(lyrics)|, Fin(d), t))
  {
    EmptyStateIffBlank(lyrics);
    var n := |Lines(lyrics)|;
    assert n >= 1;
    assert !SkipsUpdate(n, Fin(d));
    HighlightInRange(prev, n, d, t);
  }
}
