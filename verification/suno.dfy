/** Music generation against the Suno service (server/lib/suno.ts). The HTTP calls,
    the API key and the two-second waits are not modelled; each call is represented
    by the reply it produced, and the environment supplies them in order. */
module Suno {
  import opened Wrappers
  import opened Schema

  /** The stand-in track returned whenever real generation is unavailable or fails. */
  const DemoAudioUrl: string := "https://www.soundhelix.com/examples/mp3/SoundHelix-Song-1.mp3"

  /** Status polls made before giving up. */
  const MaxAttempts: nat := 30

  const DefaultTitle: string := "Mantra Song"

  /** The vocal options the server forwards. */
  datatype VoiceOptions = VoiceOptions(gender: Option<Gender>, style: Option<VocalStyle>)

  /** The body of the generation request. */
  datatype GenerateRequest = GenerateRequest(lyrics: string, tags: string, title: string, makeInstrumental: bool)

  /** The reply to the generation request: a non-2xx response, a parsed body, or an
      exception (network failure, unparsable body). */
  datatype SubmitReply = SubmitNotOk | SubmitBody(code: int, taskId: string) | SubmitThrew

  /** One entry of a status reply's `data` array. */
  datatype Track = Track(audioUrl: string, status: string)

  /** The reply to one status poll. */
  datatype PollReply = PollNotOk | PollBody(code: int, tracks: seq<Track>) | PollThrew

  /** What the service handed the server for one `generateMusic` call. */
  datatype SunoEnv = SunoEnv(apiKeyConfigured: bool, submit: SubmitReply, polls: seq<PollReply>)

  /** The value `generateMusic` resolves to. */
  datatype MusicResult = MusicResult(audioUrl: string, status: SongStatus)

  const DemoResult: MusicResult := MusicResult(DemoAudioUrl, Completed)

  /** The service accepted the generation request, so polling starts. */
  predicate Accepted(env: SunoEnv) {
    env.apiKeyConfigured && env.submit.SubmitBody? && env.submit.code == 200
  }

  // ---- Request construction ----

  /** The spoken description of the chosen voice; empty when neither option is set. */
  function VocalDescription(v: VoiceOptions): (r: string)
    ensures r == [] <==> v.gender.None? && v.style.None?
  {
    match (v.gender, v.style)
    case (Some(g), Some(s)) => s.Name() + " " + g.Name() + " voice"
    case (Some(g), None) => g.Name() + " voice"
    case (None, Some(s)) => s.Name() + " vocals"
    case (None, None) => ""
  }

  /** The description names the style first when there is one and ends with the
      gender and "voice" when there is one; a style alone is sung as "vocals". */
  lemma VocalDescriptionShape(v: VoiceOptions)
    ensures var r := VocalDescription(v);
            && (v.style.Some? ==> v.style.value.Name() + " " <= r)
            && (v.gender.Some? ==> var tail := v.gender.value.Name() + " voice";
                  |tail| <= |r| && r[|r| - |tail|..] == tail)
            && (v.gender.None? && v.style.Some? ==> r == v.style.value.Name() + " vocals")
  {
  }

  /** The request's style tags: the genre, followed by the voice description when
      there is one. */
  function StyleTags(genre: string, v: VoiceOptions): (r: string)
    ensures genre <= r
    ensures r == genre <==> v.gender.None? && v.style.None?
    ensures r != genre ==> r == genre + ", " + VocalDescription(v)
  {
    var d := VocalDescription(v);
    if d != [] then genre + ", " + d else genre
  }

  /** `title || "Mantra Song"`: an absent or empty title is replaced. */
  function RequestTitle(title: Option<string>): (r: string)
    ensures r != []
    ensures title.Some? && title.value != [] ==> r == title.value
  {
    match title
    case Some(t) => if t == [] then DefaultTitle else t
    case None => DefaultTitle
  }

  function BuildRequest(lyrics: string, genre: string, v: VoiceOptions, title: Option<string>): GenerateRequest {
    GenerateRequest(lyrics, StyleTags(genre, v), RequestTitle(title), false)
  }

  /** Distinct voice choices give distinct descriptions, so the request tells the
      service exactly which voice was chosen. */
  lemma VocalDescriptionInjective(a: VoiceOptions, b: VoiceOptions)
    requires VocalDescription(a) == VocalDescription(b)
    ensures a == b
  {
    var d := VocalDescription(a);
    if d != [] {
      // The last letter tells "voice" (a gender was given) from "vocals" (style only).
      assert a.gender.Some? <==> d[|d| - 1] == 'e';
      assert b.gender.Some? <==> d[|d| - 1] == 'e';
      // The first letter names the style when there is one, otherwise the gender.
      if a.style.Some? {
        assert d[0] == a.style.value.Name()[0];
      } else {
        assert d[0] == a.gender.value.Name()[0];
      }
      if b.style.Some? {
        assert d[0] == b.style.value.Name()[0];
      } else {
        assert d[0] == b.gender.value.Name()[0];
      }
    }
  }

  // ---- Polling ----

  /** How the polling loop treats one reply: stop with a track, abort into the
      fallback (reported failure or exception), or wait for the next poll. */
  datatype Verdict = Done(url: string) | Abort | Wait

  function VerdictOf(reply: PollReply): (r: Verdict)
    ensures r.Done? ==> r.url != []
    ensures r.Done? ==> reply.PollBody? && |reply.tracks| > 0 && r.url == reply.tracks[0].audioUrl
    ensures r.Done? <==> reply.PollBody? && reply.code == 200 && |reply.tracks| > 0
                         && reply.tracks[0].status == "complete" && reply.tracks[0].audioUrl != []
    ensures r.Abort? <==> reply.PollThrew? ||
                          (reply.PollBody? && reply.code == 200 && |reply.tracks| > 0
                           && reply.tracks[0].status != "complete" && reply.tracks[0].status == "error")
  {
    match reply
    case PollNotOk => Wait
    case PollThrew => Abort
    case PollBody(code, tracks) =>
      if code == 200 && |tracks| > 0 then
        var t := tracks[0];
        if t.status == "complete" && t.audioUrl != [] then Done(t.audioUrl)
        else if t.status == "error" then Abort
        else Wait
      else Wait
  }

  datatype PollOutcome = Finished(url: string) | Crashed | TimedOut

  /** The result of polling from attempt `from` on, and how many polls were made in
      total: the first reply that is not `Wait` decides, and thirty waits time out. */
  datatype PollRun = PollRun(outcome: PollOutcome, fetches: nat)

  function RunPolls(polls: seq<PollReply>, from: nat): (r: PollRun)
    requires from <= MaxAttempts <= |polls|
    ensures from <= r.fetches <= MaxAttempts
    ensures forall i :: from <= i < r.fetches - 1 ==> VerdictOf(polls[i]).Wait?
    ensures r.outcome.TimedOut? ==> r.fetches == MaxAttempts
    ensures r.outcome.TimedOut? ==> forall i :: from <= i < MaxAttempts ==> VerdictOf(polls[i]).Wait?
    ensures r.outcome.Finished? ==> r.fetches > from && VerdictOf(polls[r.fetches - 1]) == Done(r.outcome.url)
    ensures r.outcome.Crashed? ==> r.fetches > from && VerdictOf(polls[r.fetches - 1]).Abort?
    decreases MaxAttempts - from
  {
    if from == MaxAttempts then PollRun(TimedOut, MaxAttempts)
    else
      match VerdictOf(polls[from])
      case Done(url) => PollRun(Finished(url), from + 1)
      case Abort => PollRun(Crashed, from + 1)
      case Wait => RunPolls(polls, from + 1)
  }

  /** `generateMusic`'s result as a function of what the service replied
      (suno.ts:38-156). */
  function MusicFor(env: SunoEnv): (r: MusicResult)
    requires |env.polls| >= MaxAttempts
  {
    if !Accepted(env) then DemoResult
    else match RunPolls(env.polls, 0).outcome
      case Finished(url) => MusicResult(url, Completed)
      case Crashed => DemoResult
      case TimedOut => MusicResult("", Generating)
  }

  /** `generateMusic` never fails: it resolves to a completed song with a track, or
      to a song still generating without one — and the latter only after thirty
      polls that all said to wait. */
  lemma MusicResultShape(env: SunoEnv)
    requires |env.polls| >= MaxAttempts
    ensures var r := MusicFor(env);
            && (r.status == Completed || r.status == Generating)
            && (r.status == Completed <==> r.audioUrl != [])
            && (r.status == Generating ==>
                  Accepted(env) && forall i :: 0 <= i < MaxAttempts ==> VerdictOf(env.polls[i]).Wait?)
  {
  }

  /** A run that finished stores the first track of the poll that decided it. */
  lemma DecidingTrackStored(env: SunoEnv)
    requires |env.polls| >= MaxAttempts && Accepted(env)
    ensures var run := RunPolls(env.polls, 0);
            run.outcome.Finished? ==>
              && env.polls[run.fetches - 1].PollBody? && |env.polls[run.fetches - 1].tracks| > 0
              && MusicFor(env) == MusicResult(env.polls[run.fetches - 1].tracks[0].audioUrl, Completed)
  {
  }

  /** A track reported complete by the first deciding poll is the one stored. */
  lemma FirstCompletedTrackWins(env: SunoEnv, k: nat)
    requires |env.polls| >= MaxAttempts && k < MaxAttempts
    requires Accepted(env)
    requires forall i :: 0 <= i < k ==> VerdictOf(env.polls[i]).Wait?
    requires VerdictOf(env.polls[k]).Done?
    ensures MusicFor(env) == MusicResult(VerdictOf(env.polls[k]).url, Completed)
    ensures env.polls[k].PollBody? && |env.polls[k].tracks| > 0
    ensures MusicFor(env) == MusicResult(env.polls[k].tracks[0].audioUrl, Completed)
  {
    RunPollsFirstDecisive(env.polls, 0, k);
  }

  /** The run stops at the first reply that does not say to wait. */
  lemma {:induction false} RunPollsFirstDecisive(polls: seq<PollReply>, from: nat, k: nat)
    requires from <= k < MaxAttempts <= |polls|
    requires forall i :: from <= i < k ==> VerdictOf(polls[i]).Wait?
    requires !VerdictOf(polls[k]).Wait?
    ensures RunPolls(polls, from).fetches == k + 1
    decreases k - from
  {
    if from < k {
      RunPollsFirstDecisive(polls, from + 1, k);
    }
  }

  /** What one call made: the request sent (none without a key) and the polls fetched. */
  datatype Trace = Trace(request: Option<GenerateRequest>, fetches: nat)

  /** The polling loop as the service code runs it (suno.ts:44-156). */
  method GenerateMusic(env: SunoEnv, lyrics: string, genre: string, voice: VoiceOptions, title: Option<string>)
    returns (result: MusicResult, trace: Trace)
    requires |env.polls| >= MaxAttempts
    ensures result == MusicFor(env)
    ensures trace.fetches <= MaxAttempts
    ensures !env.apiKeyConfigured <==> trace.request.None?
    ensures trace.request.Some? ==> trace.request.value == BuildRequest(lyrics, genre, voice, title)
    ensures result.status == Generating ==> trace.fetches == MaxAttempts
    ensures Accepted(env) ==> trace.fetches == RunPolls(env.polls, 0).fetches
    ensures Accepted(env) && trace.fetches > 0 && VerdictOf(env.polls[trace.fetches - 1]).Done? ==>
              result == MusicResult(env.polls[trace.fetches - 1].tracks[0].audioUrl, Completed)
  {
    if !env.apiKeyConfigured {
      return DemoResult, Trace(None, 0);
    }
    var request := BuildRequest(lyrics, genre, voice, title);
    if !env.submit.SubmitBody? || env.submit.code != 200 {
      return DemoResult, Trace(Some(request), 0);
    }
    var outcome, fetches := PollUntilDecided(env.polls);
    match outcome
    case Finished(url) =>
      DecidingTrackStored(env);
      return MusicResult(url, Completed), Trace(Some(request), fetches);
    case Crashed => return DemoResult, Trace(Some(request), fetches);
    case TimedOut => return MusicResult("", Generating), Trace(Some(request), fetches);
  }

  /** The polling loop (suno.ts:102-139): a poll per attempt, stopping at the first
      reply that settles the outcome. */
  method PollUntilDecided(polls: seq<PollReply>) returns (outcome: PollOutcome, fetches: nat)
    requires |polls| >= MaxAttempts
    ensures PollRun(outcome, fetches) == RunPolls(polls, 0)
    ensures fetches <= MaxAttempts
    ensures outcome.TimedOut? ==> fetches == MaxAttempts
  {
    var attempts := 0;
    var decided: Option<PollOutcome> := None;
    ghost var run := RunPolls(polls, 0);
    while attempts < MaxAttempts && decided.None?
      invariant 0 <= attempts <= MaxAttempts
      invariant decided.None? ==> RunPolls(polls, attempts) == run
      invariant decided.Some? ==> run == PollRun(decided.value, attempts)
      decreases MaxAttempts - attempts
    {
      decided := PollOnce(polls, attempts);
      attempts := attempts + 1;
    }
    if decided.Some? {
      outcome, fetches := decided.value, attempts;
    } else {
      RunPollsEnd(polls);
      outcome, fetches := TimedOut, MaxAttempts;
    }
  }

  /** With no attempts left, polling has timed out. */
  lemma RunPollsEnd(polls: seq<PollReply>)
    requires MaxAttempts <= |polls|
    ensures RunPolls(polls, MaxAttempts) == PollRun(TimedOut, MaxAttempts)
  {
  }

  /** One attempt: a settling reply decides the run at this attempt, a reply that
      says to wait leaves it to the next one. */
  method PollOnce(polls: seq<PollReply>, from: nat) returns (decided: Option<PollOutcome>)
    requires from < MaxAttempts <= |polls|
    ensures decided.Some? ==> RunPolls(polls, from) == PollRun(decided.value, from + 1)
    ensures decided.None? ==> RunPolls(polls, from) == RunPolls(polls, from + 1)
  {
    match VerdictOf(polls[from])
    case Done(url) => decided := Some(Finished(url));
    case Abort => decided := Some(Crashed);
    case Wait => decided := None;
  }

  // ---- Status check ----

  /** The value `checkSongStatus` resolves to. */
  datatype StatusReport = StatusReport(audioUrl: Option<string>, status: string)

  /** `checkSongStatus` (suno.ts:158-190): never fails; anything but a successful
      reply with a track reports "error", and the service's "complete" is renamed to
      the stored "completed". */
  function CheckSongStatus(apiKeyConfigured: bool, reply: PollReply): (r: StatusReport)
    ensures !apiKeyConfigured ==> r == StatusReport(Some(DemoAudioUrl), "completed")
    ensures r.audioUrl.Some? ==> r.audioUrl.value != []
    ensures apiKeyConfigured && !(reply.PollBody? && reply.code == 200 && |reply.tracks| > 0) ==>
              r == StatusReport(None, "error")
    ensures apiKeyConfigured && reply.PollBody? && reply.code == 200 && |reply.tracks| > 0 ==>
              && (r.status == "completed" <==> reply.tracks[0].status in {"complete", "completed"})
              && (reply.tracks[0].status != "complete" ==> r.status == reply.tracks[0].status)
              && (r.audioUrl.Some? <==> reply.tracks[0].audioUrl != [])
              && (r.audioUrl.Some? ==> r.audioUrl.value == reply.tracks[0].audioUrl)
  {
    if !apiKeyConfigured then StatusReport(Some(DemoAudioUrl), "completed")
    else match reply
      case PollBody(code, tracks) =>
        if code == 200 && |tracks| > 0 then
          var t := tracks[0];
          StatusReport(if t.audioUrl == [] then None else Some(t.audioUrl),
                       if t.status == "complete" then "completed" else t.status)
        else StatusReport(None, "error")
      case _ => StatusReport(None, "error")
  }
}
