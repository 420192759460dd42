/** The audio player component (client/src/components/audio-player.tsx): the play
    flag, position, duration and volume it keeps, the time format it shows, and
    which skip buttons are enabled. The audio element is represented only by whether
    it exists; its own playback is not modelled. */
module AudioPlayer {
  import opened Wrappers
  import opened Text
  import opened JsNumber

  datatype Player = Player(isPlaying: bool, currentTime: real, duration: Num, volume: real)

  /** Paused at the start, duration unknown (0), full volume. */
  const InitialPlayer: Player := Player(false, 0.0, Fin(0.0), 1.0)

  // ---- Time display ----

  /** `formatTime`: "0:00" for a non-finite value, otherwise whole minutes, a colon
      and whole seconds padded to two characters. Minutes round down and seconds use
      the truncating remainder, as the JavaScript operators do. */
  function FormatTime(seconds: Num): (r: string)
    ensures !seconds.IsFinite() ==> r == "0:00"
  {
    match seconds
    case Fin(s) =>
      var mins := (s / 60.0).Floor;
      var secs := Rem(s, 60.0).Floor;
      IntToString(mins) + ":" + PadStart2(IntToString(secs))
    case _ => "0:00"
  }

  /** For a non-negative time the display is "M:SS" with two-digit seconds below 60,
      and the minutes and seconds add back up to the whole seconds. */
  lemma FormatTimeClock(s: real)
    requires s >= 0.0
    ensures var m := (s / 60.0).Floor;
            var ss := Rem(s, 60.0).Floor;
            && 0 <= m && 0 <= ss < 60
            && 60 * m + ss == s.Floor
            && FormatTime(Fin(s)) == NatToString(m) + ":" + PadStart2(NatToString(ss))
            && |PadStart2(NatToString(ss))| == 2
  {
    var m := (s / 60.0).Floor;
    MinutesOf(s);
    var rem := s - 60.0 * m as real;
    assert Rem(s, 60.0) == rem;
    FloorShift(s, 60 * m);
    var ss := rem.Floor;
    assert 0 <= ss < 60;
    assert FormatTime(Fin(s)) == IntToString(m) + ":" + PadStart2(IntToString(ss));
  }

  /** Whole minutes of a non-negative time: the largest multiple of 60 not above it. */
  lemma MinutesOf(s: real)
    requires s >= 0.0
    ensures var m := (s / 60.0).Floor;
            && 0 <= m && Trunc(s / 60.0) == m
            && 60.0 * m as real <= s < 60.0 * m as real + 60.0
  {
    var q := s / 60.0;
    assert s == 60.0 * q;
  }

  /** Shifting by a whole number shifts the floor by the same amount. */
  lemma FloorShift(x: real, k: int)
    ensures (x - k as real).Floor == x.Floor - k
  {
  }

  /** Reads an "M:SS" display back as whole seconds. */
  function ParseTime(text: string): Option<int> {
    ClockValue(Split(text, {':'}))
  }

  /** The seconds two colon-separated pieces stand for: a digit string of minutes
      and exactly two digits of seconds. */
  function ClockValue(parts: seq<string>): Option<int> {
    if && |parts| == 2 && |parts[1]| == 2
       && (forall i :: 0 <= i < |parts[0]| ==> IsDigit(parts[0][i]))
       && (forall i :: 0 <= i < |parts[1]| ==> IsDigit(parts[1][i]))
    then Some(60 * ParseDigits(parts[0]) + ParseDigits(parts[1]))
    else None
  }

  /** The display of a non-negative time reads back as its whole seconds. */
  lemma FormatTimeRoundTrip(s: real)
    requires s >= 0.0
    ensures ParseTime(FormatTime(Fin(s))) == Some(s.Floor)
  {
    FormatTimeClock(s);
    ParseClock((s / 60.0).Floor, Rem(s, 60.0).Floor);
  }

  /** Minutes and two-digit seconds read back as their total. */
  lemma ParseClock(m: nat, ss: nat)
    requires ss < 60
    ensures ParseTime(NatToString(m) + ":" + PadStart2(NatToString(ss))) == Some(60 * m + ss)
  {
    PaddedDigits(ss);
    ParsePadded(ss);
    ParseNatToString(m);
    var a := NatToString(m);
    var b := PadStart2(NatToString(ss));
    SplitClock(a, b);
    ParseDigitPair(a, b, m, ss);
  }

  /** A digit string worth `m` and two digits worth `ss` stand for `60 * m + ss`. */
  lemma ParseDigitPair(a: string, b: string, m: nat, ss: nat)
    requires forall i :: 0 <= i < |a| ==> IsDigit(a[i])
    requires |b| == 2 && forall i :: 0 <= i < |b| ==> IsDigit(b[i])
    requires ParseDigits(a) == m && ParseDigits(b) == ss
    ensures ClockValue([a, b]) == Some(60 * m + ss)
  {
    assert [a, b][0] == a && [a, b][1] == b;
  }

  /** Two digit strings around a colon split into exactly those two pieces. */
  lemma SplitClock(a: string, b: string)
    requires forall i :: 0 <= i < |a| ==> IsDigit(a[i])
    requires forall i :: 0 <= i < |b| ==> IsDigit(b[i])
    ensures Split(a + ":" + b, {':'}) == [a, b]
  {
    assert a + ":" + b == a + [':'] + b;
    SplitAppend(a, ':', b, {':'});
    SplitNoSep(a, {':'});
    SplitNoSep(b, {':'});
  }

  /** Seconds below 60 show as two digits. */
  lemma PaddedDigits(ss: nat)
    requires ss < 60
    ensures var b := PadStart2(NatToString(ss));
            |b| == 2 && (forall i :: 0 <= i < |b| ==> IsDigit(b[i]))
  {
  }

  /** Zero-padding keeps the digits' value. */
  lemma ParsePadded(ss: nat)
    requires ss < 60
    ensures ParseDigits(PadStart2(NatToString(ss))) == ss
  {
    if ss < 10 {
      var b := ['0', DigitChar(ss)];
      assert b[..1] == ['0'];
      assert ParseDigits(['0']) == 0;
      assert NatToString(ss) == [DigitChar(ss)];
    } else {
      assert PadStart2(NatToString(ss)) == NatToString(ss);
      ParseNatToString(ss);
    }
  }

  /** A time in the minute before zero shows minute "-1" next to its own negative
      whole seconds (minutes round down while seconds truncate toward zero), and such
      a display does not read back as a time. */
  lemma FormatNegativeTime(s: real)
    requires -60.0 < s < 0.0
    ensures FormatTime(Fin(s)) == "-1:" + PadStart2(IntToString(s.Floor))
    ensures ParseTime(FormatTime(Fin(s))) == None
  {
    var q := s / 60.0;
    assert -1.0 < q < 0.0 by {
      assert s == 60.0 * q;
    }
    assert q.Floor == -1 && Trunc(q) == 0;
    assert Rem(s, 60.0) == s;
    assert IntToString(-1) == "-1";
    var t := FormatTime(Fin(s));
    assert t == "-1:" + PadStart2(IntToString(s.Floor));
    SignedNotClock(t);
  }

  /** A display starting with a minus sign does not read back as a time. */
  lemma SignedNotClock(t: string)
    requires |t| > 0 && t[0] == '-'
    ensures ParseTime(t) == None
  {
    var parts := Split(t, {':'});
    assert parts[0] == [t[0]] + Split(t[1..], {':'})[0];
    assert !IsDigit(parts[0][0]);
  }

  // ---- Playback state ----

  /** `togglePlay`: flips the play flag, and does nothing without an audio element. */
  function TogglePlay(p: Player, hasAudio: bool): (r: Player)
    ensures !hasAudio ==> r == p
    ensures hasAudio ==> r.isPlaying != p.isPlaying && r == p.(isPlaying := r.isPlaying)
  {
    if !hasAudio then p else p.(isPlaying := !p.isPlaying)
  }

  /** Two toggles restore the state. */
  lemma ToggleTwice(p: Player, hasAudio: bool)
    ensures TogglePlay(TogglePlay(p, hasAudio), hasAudio) == p
  {
  }

  /** The "ended" event stops playing and changes nothing else. */
  function Ended(p: Player): (r: Player)
    ensures !r.isPlaying && r == p.(isPlaying := false)
  {
    p.(isPlaying := false)
  }

  /** `handleSeek`: the position becomes the slider value when there is an audio element. */
  function Seek(p: Player, hasAudio: bool, value: real): (r: Player)
    ensures hasAudio ==> r.currentTime == value && r == p.(currentTime := value)
    ensures !hasAudio ==> r == p
  {
    if hasAudio then p.(currentTime := value) else p
  }

  /** `max={duration || 100}`: an unknown (zero or NaN) duration gives a 100-unit
      slider, so the maximum is never falsy. */
  function SliderMax(duration: Num): (r: Num)
    ensures r.Truthy()
    ensures duration.Truthy() ==> r == duration
    ensures !duration.Truthy() ==> r == Fin(100.0)
  {
    if duration.Truthy() then duration else Fin(100.0)
  }

  /** The volume slider shows the volume in percent. */
  function VolumeSlider(volume: real): real {
    volume * 100.0
  }

  /** Moving the volume slider sets the volume to a hundredth of its value. */
  function SetVolume(p: Player, slider: real): (r: Player)
    ensures r == p.(volume := r.volume)
    ensures 0.0 <= slider <= 100.0 ==> 0.0 <= r.volume <= 1.0
    ensures VolumeSlider(r.volume) == slider
  {
    p.(volume := slider / 100.0)
  }

  /** The initial volume shows as a full slider, and setting a shown value keeps it. */
  lemma VolumeRoundTrip(p: Player)
    ensures VolumeSlider(InitialPlayer.volume) == 100.0
    ensures SetVolume(p, VolumeSlider(p.volume)).volume == p.volume
  {
  }

  /** Whether each skip button is disabled. */
  datatype SkipButtons = SkipButtons(previousDisabled: bool, nextDisabled: bool)

  /** A button is enabled exactly when its flag was passed as true; a missing flag
      counts as false. */
  function Buttons(hasNext: Option<bool>, hasPrevious: Option<bool>): (r: SkipButtons)
    ensures !r.nextDisabled <==> hasNext == Some(true)
    ensures !r.previousDisabled <==> hasPrevious == Some(true)
  {
    SkipButtons(!hasPrevious.GetOr(false), !hasNext.GetOr(false))
  }
}
