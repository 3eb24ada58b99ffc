/**
The speech segmenter: a three-state machine that turns per-frame voice flags into
VoiceStart and VoiceEnd events, with an optional end-of-turn predictor.

`Step` is what one call of `feed` does.  `Offline` is an independent, whole-recording
definition of the same segmentation: it looks ahead for the end of each segment instead
of keeping a state.  The main result is that the two agree on every recording.
*/
module Segmenter {
  import opened Common

  type Sample = x: int | -0x8000 <= x < 0x8000

  /** Nanoseconds. */
  type Duration = nat

  function FromMillis(ms: u32): Duration { ms * 1_000_000 }

  function SaturatingSub(a: Duration, b: Duration): Duration { if a < b then 0 else a - b }

  datatype EarlyCut = EarlyCut(prediction: bool, probability: real)

  /** A predictor closure may keep state of its own; its n-th call is therefore a function of n and the audio. */
  type Oracle = (nat, seq<Sample>) -> Option<EarlyCut>

  datatype State = Idle | Speaking | TrailingSilence(silenceStart: Duration, etdIncomplete: bool)

  datatype Event =
    | VoiceStart(timestamp: Duration)
    | VoiceEnd(timestamp: Duration, audio: seq<Sample>, duration: Duration,
               transcript: Option<string>, endOfTurn: Option<bool>, turnProbability: Option<real>)

  datatype Config = Config(minSpeechMs: u32, silenceTimeoutMs: u32, extendedSilenceTimeoutMs: u32,
                           predict: Option<Oracle>)

  datatype Seg = Seg(state: State, audio: seq<Sample>, voiceStart: Duration, asked: nat)

  datatype Frame = Frame(voice: bool, samples: seq<Sample>, at: Duration)

  const INITIAL := Seg(Idle, [], 0, 0)

  // ---------------------------------------------------------------- one call

  function Verdict(c: Config, asked: nat, audio: seq<Sample>): Option<EarlyCut> {
    match c.predict
    case None => None
    case Some(predict) => predict(asked, audio)
  }

  function Asked(c: Config, asked: nat): nat {
    if c.predict.Some? then asked + 1 else asked
  }

  function TimeoutOf(c: Config, incomplete: bool): Duration {
    FromMillis(if incomplete then c.extendedSilenceTimeoutMs else c.silenceTimeoutMs)
  }

  /** The VoiceEnd of a finished segment, or nothing when the segment is too short. */
  function EndEvents(c: Config, voiceStart: Duration, audio: seq<Sample>, at: Duration,
                     endOfTurn: bool, probability: Option<real>): (events: seq<Event>)
    ensures |events| <= 1
  {
    var duration := SaturatingSub(at, voiceStart);
    if duration >= FromMillis(c.minSpeechMs)
    then [VoiceEnd(at, audio, duration, None, Some(endOfTurn), probability)]
    else []
  }

  function Step(c: Config, s: Seg, f: Frame): (r: (Seg, seq<Event>))
    ensures |r.1| <= 1
  {
    match s.state
    case Idle =>
      if f.voice then (Seg(Speaking, f.samples, f.at, s.asked), [VoiceStart(f.at)]) else (s, [])
    case Speaking =>
      var audio := s.audio + f.samples;
      if f.voice then (s.(audio := audio), [])
      else
        var verdict := Verdict(c, s.asked, audio);
        var asked := Asked(c, s.asked);
        if verdict.Some? && verdict.value.prediction then
          (Seg(Idle, [], s.voiceStart, asked),
           EndEvents(c, s.voiceStart, audio, f.at, true, Some(verdict.value.probability)))
        else
          (Seg(TrailingSilence(f.at, verdict.Some?), audio, s.voiceStart, asked), [])
    case TrailingSilence(silenceStart, incomplete) =>
      var audio := s.audio + f.samples;
      if f.voice then (s.(state := Speaking, audio := audio), [])
      else if SaturatingSub(f.at, silenceStart) >= TimeoutOf(c, incomplete) then
        (Seg(Idle, [], s.voiceStart, s.asked),
         EndEvents(c, s.voiceStart, audio, f.at, !incomplete, None))
      else (s.(audio := audio), [])
  }

  /** The clock `at` is `ms` milliseconds or more after `since`; a clock that runs backwards counts as standing still. */
  predicate Lasted(since: Duration, at: Duration, ms: u32) { ms == 0 || at >= since + ms * 1_000_000 }

  /**
  MAIN: exactly when an unvoiced frame ends a silence: by the extended timeout after an incomplete
  prediction, by the normal one otherwise; and exactly when that yields a VoiceEnd, and which.
  */
  lemma SilenceEndsExactly(c: Config, s: Seg, f: Frame)
    requires s.state.TrailingSilence? && !f.voice
    ensures
      var (next, events) := Step(c, s, f);
      var (since, incomplete) := (s.state.silenceStart, s.state.etdIncomplete);
      var over := Lasted(since, f.at, if incomplete then c.extendedSilenceTimeoutMs else c.silenceTimeoutMs);
      && (over <==> next.state == Idle)
      && next == (if over then s.(state := Idle, audio := []) else s.(audio := s.audio + f.samples))
      && (events != [] <==> over && Lasted(s.voiceStart, f.at, c.minSpeechMs))
      && (events != [] ==>
            events == [VoiceEnd(f.at, s.audio + f.samples, if f.at < s.voiceStart then 0 else f.at - s.voiceStart,
                                None, Some(!incomplete), None)])
  {
  }

  function DefaultExtended(silenceTimeoutMs: u32): u32 { silenceTimeoutMs * 3 % TWO_TO_THE_32 }

  /** Exactly when the default extended timeout really is an extension, given the 32-bit product. */
  lemma DefaultExtendedIsLonger(t: u32)
    ensures DefaultExtended(t) >= t <==> 3 * t < TWO_TO_THE_32 || (2 * t >= TWO_TO_THE_32 && 3 * t < 2 * TWO_TO_THE_32)
  {
    if 3 * t < TWO_TO_THE_32 {
      assert DefaultExtended(t) == 3 * t;
    } else if 3 * t < 2 * TWO_TO_THE_32 {
      assert DefaultExtended(t) == 3 * t - TWO_TO_THE_32;
    } else {
      assert DefaultExtended(t) == 3 * t - 2 * TWO_TO_THE_32;
    }
  }

  // ---------------------------------------------------------------- the class

  /** The predictor callback: an FnMut whose answers come from outside the program. */
  class EtdPredictor {
    const answer: Oracle
    var calls: nat

    constructor (answer: Oracle)
      ensures this.answer == answer && calls == 0
    {
      this.answer := answer;
      calls := 0;
    }

    method Predict(audio: seq<Sample>) returns (r: Option<EarlyCut>)
      modifies this
      ensures r == answer(old(calls), audio) && calls == old(calls) + 1
    {
      r := answer(calls, audio);
      calls := calls + 1;
    }
  }

  class VadSegmenter {
    var state: State
    var minSpeechMs: u32
    var silenceTimeoutMs: u32
    var extendedSilenceTimeoutMs: u32
    var audioBuffer: seq<Sample>
    var voiceStart: Duration
    var etdPredict: EtdPredictor?

    ghost function Settings(): Config
      reads this
    {
      Config(minSpeechMs, silenceTimeoutMs, extendedSilenceTimeoutMs,
             if etdPredict == null then None else Some(etdPredict.answer))
    }

    ghost function Value(): Seg
      reads this, etdPredict
    {
      Seg(state, audioBuffer, voiceStart, if etdPredict == null then 0 else etdPredict.calls)
    }

    /** The product wraps around at 32 bits, as release builds of the crate do. */
    constructor (minSpeechMs: u32, silenceTimeoutMs: u32)
      ensures Value() == INITIAL
      ensures Settings() == Config(minSpeechMs, silenceTimeoutMs, DefaultExtended(silenceTimeoutMs), None)
    {
      state := Idle;
      this.minSpeechMs := minSpeechMs;
      this.silenceTimeoutMs := silenceTimeoutMs;
      extendedSilenceTimeoutMs := DefaultExtended(silenceTimeoutMs);
      audioBuffer := [];
      voiceStart := 0;
      etdPredict := null;
    }

    method SetExtendedSilenceTimeoutMs(ms: u32)
      modifies this`extendedSilenceTimeoutMs
      ensures Settings() == old(Settings()).(extendedSilenceTimeoutMs := ms)
      ensures Value() == old(Value())
    {
      extendedSilenceTimeoutMs := ms;
    }

    method SetEtdPredict(predict: EtdPredictor)
      modifies this`etdPredict
      ensures Settings() == old(Settings()).(predict := Some(predict.answer))
      ensures Value() == old(Value()).(asked := predict.calls)
    {
      etdPredict := predict;
    }

    function IsSpeaking(): (r: bool)
      reads this
      ensures r <==> state != Idle
    {
      state.Speaking? || state.TrailingSilence?
    }

    function AccumulatedAudio(): seq<Sample>
      reads this
    {
      audioBuffer
    }

    method Feed(isVoice: bool, samples: seq<Sample>, timestamp: Duration) returns (events: seq<Event>)
      modifies this`state, this`audioBuffer, this`voiceStart, etdPredict
      ensures Settings() == old(Settings())
      ensures (Value(), events) == Step(old(Settings()), old(Value()), Frame(isVoice, samples, timestamp))
    {
      events := [];
      match state
      case Idle =>
        if isVoice {
          voiceStart := timestamp;
          audioBuffer := samples;
          state := Speaking;
          events := [VoiceStart(timestamp)];
        }
      case Speaking =>
        audioBuffer := audioBuffer + samples;
        if !isVoice {
          var etdIncomplete := false;
          if etdPredict != null {
            var etdResult := etdPredict.Predict(audioBuffer);
            if etdResult.Some? {
              if etdResult.value.prediction {
                var speechDur := SaturatingSub(timestamp, voiceStart);
                if speechDur >= FromMillis(minSpeechMs) {
                  events := [VoiceEnd(timestamp, audioBuffer, speechDur, None, Some(true),
                                               Some(etdResult.value.probability))];
                  audioBuffer := [];
                } else {
                  audioBuffer := [];
                }
                state := Idle;
                return;
              } else {
                etdIncomplete := true;
              }
            }
          }
          state := TrailingSilence(timestamp, etdIncomplete);
        }
      case TrailingSilence(silenceStart, etdIncomplete) =>
        audioBuffer := audioBuffer + samples;
        if isVoice {
          state := Speaking;
        } else {
          var silenceDur := SaturatingSub(timestamp, silenceStart);
          var timeoutMs := if etdIncomplete then extendedSilenceTimeoutMs else silenceTimeoutMs;
          if silenceDur >= FromMillis(timeoutMs) {
            var speechDur := SaturatingSub(timestamp, voiceStart);
            if speechDur >= FromMillis(minSpeechMs) {
              events := [VoiceEnd(timestamp, audioBuffer, speechDur, None, Some(!etdIncomplete), None)];
              audioBuffer := [];
            } else {
              audioBuffer := [];
            }
            state := Idle;
          }
        }
    }
  }

  // ---------------------------------------------------------------- a whole recording, online

  /** An event together with the number of the frame whose `feed` returned it. */
  datatype Emitted = Emitted(frame: nat, event: Event)

  function Tag(frame: nat, events: seq<Event>): seq<Emitted>
    requires |events| <= 1
  {
    if events == [] then [] else [Emitted(frame, events[0])]
  }

  /** Feed frames i, i+1, ... to a segmenter in state `s`. */
  function Run(c: Config, s: Seg, fs: seq<Frame>, i: nat): (Seg, seq<Emitted>)
    requires i <= |fs|
    decreases |fs| - i
  {
    if i == |fs| then (s, [])
    else
      var (next, events) := Step(c, s, fs[i]);
      var (last, later) := Run(c, next, fs, i + 1);
      (last, Tag(i, events) + later)
  }

  // ---------------------------------------------------------------- a whole recording, offline

  /** The samples of frames j..k. */
  function Audio(fs: seq<Frame>, j: nat, k: nat): seq<Sample>
    requires j <= k <= |fs|
  {
    if j == k then [] else Audio(fs, j, k - 1) + fs[k - 1].samples
  }

  /** The first frame at or after `i` whose voice flag is `voice`, or |fs|. */
  function Next(fs: seq<Frame>, voice: bool, i: nat): (k: nat)
    requires i <= |fs|
    ensures i <= k <= |fs|
    ensures k < |fs| ==> fs[k].voice == voice
    decreases |fs| - i
  {
    if i == |fs| || fs[i].voice == voice then i else Next(fs, voice, i + 1)
  }

  lemma {:induction false} NextSkips(fs: seq<Frame>, voice: bool, i: nat)
    requires i <= |fs|
    ensures forall m :: i <= m < Next(fs, voice, i) ==> fs[m].voice != voice
    decreases |fs| - i
  {
    if i < |fs| && fs[i].voice != voice {
      NextSkips(fs, voice, i + 1);
    }
  }

  function Elapsed(fs: seq<Frame>, onset: nat, k: nat): Duration
    requires onset < |fs| && k < |fs|
  {
    SaturatingSub(fs[k].at, fs[onset].at)
  }

  /** The first frame in i..end by which the silence begun at `onset` has lasted `timeout`, or `end`. */
  function FirstDue(fs: seq<Frame>, onset: nat, timeout: Duration, i: nat, end: nat): (k: nat)
    requires onset < |fs| && i <= end <= |fs|
    ensures i <= k <= end
    ensures k < end ==> Elapsed(fs, onset, k) >= timeout
    decreases end - i
  {
    if i == end || Elapsed(fs, onset, i) >= timeout then i else FirstDue(fs, onset, timeout, i + 1, end)
  }

  lemma {:induction false} FirstDueIsFirst(fs: seq<Frame>, onset: nat, timeout: Duration, i: nat, end: nat)
    requires onset < |fs| && i <= end <= |fs|
    ensures forall m :: i <= m < FirstDue(fs, onset, timeout, i, end) ==> Elapsed(fs, onset, m) < timeout
    decreases end - i
  {
    if i < end && Elapsed(fs, onset, i) < timeout {
      FirstDueIsFirst(fs, onset, timeout, i + 1, end);
    }
  }

  /** What a predictor says on its n-th call, about the segment from frame `start` to the onset of silence. */
  type Listener = (nat, nat, nat) -> Option<EarlyCut>

  predicate Complete(verdict: Option<EarlyCut>) { verdict.Some? && verdict.value.prediction }

  /** A boundary of a segment: where it began, or how it finished after the silence that began at `onset`. */
  datatype Mark =
    | Begun(at: nat)
    | Finished(start: nat, onset: nat, at: nat, verdict: Option<EarlyCut>)

  predicate Placed(m: Mark, n: nat) {
    m.at < n && (m.Finished? ==> m.start < m.onset <= m.at)
  }

  /** Where a machine that remembers frame numbers instead of samples can be. */
  datatype Phase =
    | Quiet
    | Talking(start: nat)
    | Waiting(start: nat, onset: nat, verdict: Option<EarlyCut>)

  predicate Within(p: Phase, i: nat) {
    match p
    case Quiet => true
    case Talking(start) => start < i
    case Waiting(start, onset, verdict) => start < onset < i && !Complete(verdict)
  }

  /** What becomes of a silence.  `asked` counts predictor calls. */
  datatype Ending =
    | Open(phase: Phase, asked: nat)
    | Resumed(at: nat, asked: nat)
    | Closed(onset: nat, at: nat, verdict: Option<EarlyCut>, asked: nat)

  function Pause(c: Config, v: Listener, fs: seq<Frame>, j: nat, onset: nat, asked: nat): (e: Ending)
    requires j < onset < |fs|
    ensures e.Closed? ==> e.onset == onset <= e.at < |fs|
    ensures e.Resumed? ==> onset < e.at < |fs| && fs[e.at].voice
    ensures e.Open? ==> e.phase != Quiet && e.phase.start == j && Within(e.phase, |fs|)
  {
    var verdict := v(asked, j, onset);
    if Complete(verdict) then Closed(onset, onset, verdict, Asked(c, asked))
    else
      var resume := Next(fs, true, onset + 1);
      var due := FirstDue(fs, onset, TimeoutOf(c, verdict.Some?), onset + 1, resume);
      if due < resume then Closed(onset, due, verdict, Asked(c, asked))
      else if resume < |fs| then Resumed(resume, Asked(c, asked))
      else Open(Waiting(j, onset, verdict), Asked(c, asked))
  }

  /** Look ahead from frame `i` for the end of the segment that began at frame `j`. */
  function FindEnd(c: Config, v: Listener, fs: seq<Frame>, j: nat, i: nat, asked: nat): (e: Ending)
    requires j < i <= |fs|
    ensures e.Closed? ==> i <= e.onset <= e.at < |fs|
    ensures !e.Resumed?
    ensures e.Open? ==> e.phase != Quiet && e.phase.start == j && Within(e.phase, |fs|)
    decreases |fs| - i
  {
    var onset := Next(fs, false, i);
    if onset == |fs| then Open(Talking(j), asked)
    else
      match Pause(c, v, fs, j, onset, asked)
      case Resumed(at, asked') => FindEnd(c, v, fs, j, at + 1, asked')
      case e => e
  }

  /** A finished segment counts only if it is long enough. */
  function Kept(c: Config, fs: seq<Frame>, j: nat, onset: nat, k: nat, verdict: Option<EarlyCut>): (r: seq<Mark>)
    requires j < onset <= k < |fs|
    ensures |r| <= 1
  {
    if Elapsed(fs, j, k) >= FromMillis(c.minSpeechMs) then [Finished(j, onset, k, verdict)] else []
  }

  /** The marks of a segment that began at frame `j` and goes on as `e` says, with `later` after its end. */
  function Sequel(c: Config, fs: seq<Frame>, j: nat, e: Ending, later: seq<Mark>): seq<Mark>
    requires e.Closed? ==> j < e.onset <= e.at < |fs|
  {
    if e.Closed? then [Begun(j)] + (Kept(c, fs, j, e.onset, e.at, e.verdict) + later) else [Begun(j)]
  }

  /** The first segment from frame `i` on: where it begins, and its ending. */
  function FirstEnding(c: Config, v: Listener, fs: seq<Frame>, i: nat, asked: nat): (e: Ending)
    requires i <= |fs|
    ensures e.Closed? ==> Next(fs, true, i) < e.onset <= e.at < |fs|
  {
    var j := Next(fs, true, i);
    if j == |fs| then Open(Quiet, asked) else FindEnd(c, v, fs, j, j + 1, asked)
  }

  /** The boundaries of all segments in frames i.., given that none is open at `i`. */
  function Offline(c: Config, v: Listener, fs: seq<Frame>, i: nat, asked: nat): seq<Mark>
    requires i <= |fs|
    decreases |fs| - i
  {
    var (j, e) := (Next(fs, true, i), FirstEnding(c, v, fs, i, asked));
    if j == |fs| then [] else Sequel(c, fs, j, e, if e.Closed? then Offline(c, v, fs, e.at + 1, e.asked) else [])
  }

  // ---------------------------------------------------------------- the machine on frame numbers

  datatype Track = Track(phase: Phase, asked: nat)

  /** `Step`, with the frames since the start named instead of their samples copied. */
  function TrackStep(c: Config, v: Listener, t: Track, fs: seq<Frame>, i: nat): (r: (Track, seq<Mark>))
    requires i < |fs| && Within(t.phase, i)
    ensures Within(r.0.phase, i + 1) && |r.1| <= 1
  {
    match t.phase
    case Quiet => if fs[i].voice then (Track(Talking(i), t.asked), [Begun(i)]) else (t, [])
    case Talking(j) =>
      if fs[i].voice then (t, [])
      else
        var verdict := v(t.asked, j, i);
        if Complete(verdict) then (Track(Quiet, Asked(c, t.asked)), Kept(c, fs, j, i, i, verdict))
        else (Track(Waiting(j, i, verdict), Asked(c, t.asked)), [])
    case Waiting(j, onset, verdict) =>
      if fs[i].voice then (t.(phase := Talking(j)), [])
      else if Elapsed(fs, onset, i) >= TimeoutOf(c, verdict.Some?) then
        (t.(phase := Quiet), Kept(c, fs, j, onset, i, verdict))
      else (t, [])
  }

  function TrackRun(c: Config, v: Listener, t: Track, fs: seq<Frame>, i: nat): (r: (Track, seq<Mark>))
    requires i <= |fs| && Within(t.phase, i)
    ensures Within(r.0.phase, |fs|)
    decreases |fs| - i
  {
    if i == |fs| then (t, [])
    else
      var (next, marks) := TrackStep(c, v, t, fs, i);
      var (last, later) := TrackRun(c, v, next, fs, i + 1);
      (last, marks + later)
  }

  // ---------------------------------------------------------------- machine on frame numbers = offline

  /** Over frames that change nothing but time, a run can be taken up later. */
  lemma {:induction false} Uneventful(c: Config, v: Listener, t: Track, fs: seq<Frame>, i: nat, k: nat)
    requires i <= k <= |fs| && Within(t.phase, i)
    requires t.phase.Talking? ==> forall m :: i <= m < k ==> fs[m].voice
    requires !t.phase.Talking? ==> forall m :: i <= m < k ==> !fs[m].voice
    requires t.phase.Waiting? ==>
      forall m :: i <= m < k ==> Elapsed(fs, t.phase.onset, m) < TimeoutOf(c, t.phase.verdict.Some?)
    ensures TrackRun(c, v, t, fs, i) == TrackRun(c, v, t, fs, k)
    decreases k - i
  {
    if i < k {
      assert t.phase.Waiting? ==> Elapsed(fs, t.phase.onset, i) < TimeoutOf(c, t.phase.verdict.Some?);
      Uneventful(c, v, t, fs, i + 1, k);
      var later := TrackRun(c, v, t, fs, i + 1).1;
      assert [] + later == later;
    }
  }

  predicate Possible(fs: seq<Frame>, j: nat, e: Ending) {
    j < |fs| &&
    match e
    case Open(phase, _) => Within(phase, |fs|)
    case Resumed(at, _) => j < at < |fs|
    case Closed(onset, at, _, _) => j < onset <= at < |fs|
  }

  /** The rest of a run whose current segment began at frame `j` and goes on as `e` says. */
  function Foreseen(c: Config, v: Listener, fs: seq<Frame>, j: nat, e: Ending): (Track, seq<Mark>)
    requires Possible(fs, j, e)
  {
    match e
    case Open(phase, asked) => (Track(phase, asked), [])
    case Resumed(at, asked) => TrackRun(c, v, Track(Talking(j), asked), fs, at + 1)
    case Closed(onset, at, verdict, asked) =>
      var (last, later) := TrackRun(c, v, Track(Quiet, asked), fs, at + 1);
      (last, Kept(c, fs, j, onset, at, verdict) + later)
  }

  /** At frame `i`, with the segment that began at frame `j` open, the machine goes on as `e` says. */
  ghost predicate GoesOn(c: Config, v: Listener, asked: nat, fs: seq<Frame>, j: nat, i: nat, e: Ending)
    requires j < i <= |fs| && Possible(fs, j, e)
  {
    TrackRun(c, v, Track(Talking(j), asked), fs, i) == Foreseen(c, v, fs, j, e)
  }

  /** From the first silent frame on, the machine does what `Pause` says. */
  lemma {:induction false} PauseRun(c: Config, v: Listener, asked: nat, fs: seq<Frame>, j: nat, onset: nat)
    requires j < onset < |fs| && !fs[onset].voice
    ensures GoesOn(c, v, asked, fs, j, onset, Pause(c, v, fs, j, onset, asked))
  {
    var verdict := v(asked, j, onset);
    if !Complete(verdict) {
      var t := Track(Waiting(j, onset, verdict), Asked(c, asked));
      var resume := Next(fs, true, onset + 1);
      var due := FirstDue(fs, onset, TimeoutOf(c, verdict.Some?), onset + 1, resume);
      var later := TrackRun(c, v, t, fs, onset + 1);
      assert [] + later.1 == later.1;
      NextSkips(fs, true, onset + 1);
      FirstDueIsFirst(fs, onset, TimeoutOf(c, verdict.Some?), onset + 1, resume);
      Uneventful(c, v, t, fs, onset + 1, due);
      if due == resume < |fs| {
        var resumed := TrackRun(c, v, t.(phase := Talking(j)), fs, resume + 1);
        assert [] + resumed.1 == resumed.1;
      }
    }
  }

  /** Voiced frames change nothing. */
  lemma TalksUntil(c: Config, v: Listener, asked: nat, fs: seq<Frame>, j: nat, i: nat, onset: nat, e: Ending)
    requires j < i <= |fs| && onset == Next(fs, false, i) && Possible(fs, j, e)
    requires GoesOn(c, v, asked, fs, j, onset, e)
    ensures GoesOn(c, v, asked, fs, j, i, e)
  {
    NextSkips(fs, false, i);
    Uneventful(c, v, Track(Talking(j), asked), fs, i, onset);
  }

  lemma TalksToTheEnd(c: Config, v: Listener, asked: nat, fs: seq<Frame>, j: nat)
    requires j < |fs|
    ensures GoesOn(c, v, asked, fs, j, |fs|, Open(Talking(j), asked))
  {
  }

  /** A silence that the voice breaks is taken up where the voice resumes. */
  lemma TalksAgain(c: Config, v: Listener, asked: nat, fs: seq<Frame>, j: nat, onset: nat, at: nat, asked': nat, e: Ending)
    requires j < onset <= |fs| && j < at < |fs| && Possible(fs, j, e)
    requires GoesOn(c, v, asked, fs, j, onset, Resumed(at, asked')) && GoesOn(c, v, asked', fs, j, at + 1, e)
    ensures GoesOn(c, v, asked, fs, j, onset, e)
  {
  }

  /** A segment open since frame `j` plays out exactly as `FindEnd` foresees. */
  lemma {:induction false} SegmentRun(c: Config, v: Listener, asked: nat, fs: seq<Frame>, j: nat, i: nat)
    requires j < i <= |fs|
    ensures GoesOn(c, v, asked, fs, j, i, FindEnd(c, v, fs, j, i, asked))
    decreases |fs| - i
  {
    var onset := Next(fs, false, i);
    var end := FindEnd(c, v, fs, j, i, asked);
    if onset < |fs| {
      PauseRun(c, v, asked, fs, j, onset);
      var e := Pause(c, v, fs, j, onset, asked);
      if e.Resumed? {
        SegmentRun(c, v, e.asked, fs, j, e.at + 1);
        TalksAgain(c, v, asked, fs, j, onset, e.at, e.asked, end);
      }
    } else {
      TalksToTheEnd(c, v, asked, fs, j);
    }
    TalksUntil(c, v, asked, fs, j, i, onset, end);
  }

  lemma {:induction false} BeginsSegment(c: Config, v: Listener, asked: nat, fs: seq<Frame>, j: nat, e: Ending)
    requires j < |fs| && fs[j].voice && Possible(fs, j, e) && GoesOn(c, v, asked, fs, j, j + 1, e)
    ensures
      var (last, later) := Foreseen(c, v, fs, j, e);
      TrackRun(c, v, Track(Quiet, asked), fs, j) == (last, [Begun(j)] + later)
  {
  }

  /** With no segment open, nothing happens until a voiced frame begins one. */
  lemma {:induction false} QuietUntil(c: Config, v: Listener, asked: nat, fs: seq<Frame>, i: nat, j: nat)
    requires i <= |fs| && j == Next(fs, true, i)
    ensures TrackRun(c, v, Track(Quiet, asked), fs, i) == TrackRun(c, v, Track(Quiet, asked), fs, j)
  {
    NextSkips(fs, true, i);
    Uneventful(c, v, Track(Quiet, asked), fs, i, j);
  }

  lemma {:induction false} QuietRun(c: Config, v: Listener, asked: nat, fs: seq<Frame>, i: nat)
    requires i <= |fs|
    ensures
      var j := Next(fs, true, i);
      var t := Track(Quiet, asked);
      TrackRun(c, v, t, fs, i) ==
      if j == |fs| then (t, [])
      else
        var (last, later) := Foreseen(c, v, fs, j, FindEnd(c, v, fs, j, j + 1, asked));
        (last, [Begun(j)] + later)
  {
    var j := Next(fs, true, i);
    QuietUntil(c, v, asked, fs, i, j);
    if j < |fs| {
      SegmentRun(c, v, asked, fs, j, j + 1);
      BeginsSegment(c, v, asked, fs, j, FindEnd(c, v, fs, j, j + 1, asked));
    }
  }

  lemma {:induction false} ForeseenMarks(c: Config, v: Listener, fs: seq<Frame>, j: nat, e: Ending, later: seq<Mark>)
    requires Possible(fs, j, e) && !e.Resumed?
    requires later == if e.Closed? then TrackRun(c, v, Track(Quiet, e.asked), fs, e.at + 1).1 else []
    ensures [Begun(j)] + Foreseen(c, v, fs, j, e).1 == Sequel(c, fs, j, e, later)
  {
    assert [Begun(j)] + [] == [Begun(j)];
  }

  /** `QuietRun`, in the shape of `Offline`. */
  lemma {:induction false} QuietMarks(c: Config, v: Listener, asked: nat, fs: seq<Frame>, i: nat, e: Ending, later: seq<Mark>)
    requires i <= |fs| && e == FirstEnding(c, v, fs, i, asked)
    requires later == if e.Closed? then TrackRun(c, v, Track(Quiet, e.asked), fs, e.at + 1).1 else []
    ensures TrackRun(c, v, Track(Quiet, asked), fs, i).1 ==
            if Next(fs, true, i) == |fs| then [] else Sequel(c, fs, Next(fs, true, i), e, later)
  {
    QuietRun(c, v, asked, fs, i);
    if Next(fs, true, i) < |fs| {
      ForeseenMarks(c, v, fs, Next(fs, true, i), e, later);
    }
  }

  lemma {:induction false} OfflineFirst(c: Config, v: Listener, asked: nat, fs: seq<Frame>, i: nat, e: Ending, later: seq<Mark>)
    requires i <= |fs| && e == FirstEnding(c, v, fs, i, asked)
    requires later == if e.Closed? then Offline(c, v, fs, e.at + 1, e.asked) else []
    ensures Offline(c, v, fs, i, asked) ==
            if Next(fs, true, i) == |fs| then [] else Sequel(c, fs, Next(fs, true, i), e, later)
  {
  }

  ghost predicate SameMarks(c: Config, v: Listener, asked: nat, fs: seq<Frame>, i: nat)
    requires i <= |fs|
  {
    TrackRun(c, v, Track(Quiet, asked), fs, i).1 == Offline(c, v, fs, i, asked)
  }

  lemma {:induction false} SameMarksFirst(c: Config, v: Listener, asked: nat, fs: seq<Frame>, i: nat, e: Ending, later: seq<Mark>)
    requires i <= |fs| && e == FirstEnding(c, v, fs, i, asked)
    requires later == if e.Closed? then TrackRun(c, v, Track(Quiet, e.asked), fs, e.at + 1).1 else []
    requires later == if e.Closed? then Offline(c, v, fs, e.at + 1, e.asked) else []
    ensures SameMarks(c, v, asked, fs, i)
  {
    QuietMarks(c, v, asked, fs, i, e, later);
    OfflineFirst(c, v, asked, fs, i, e, later);
  }

  lemma {:induction false} TrackIsOffline(c: Config, v: Listener, asked: nat, fs: seq<Frame>, i: nat)
    requires i <= |fs|
    ensures SameMarks(c, v, asked, fs, i)
    decreases |fs| - i
  {
    var e := FirstEnding(c, v, fs, i, asked);
    if e.Closed? {
      TrackIsOffline(c, v, e.asked, fs, e.at + 1);
      SameMarksFirst(c, v, asked, fs, i, e, Offline(c, v, fs, e.at + 1, e.asked));
    } else {
      SameMarksFirst(c, v, asked, fs, i, e, []);
    }
  }

  // ---------------------------------------------------------------- online = offline

  /** The predictor of `c` listening to the recording `fs`. */
  function Hear(c: Config, fs: seq<Frame>): Listener {
    (asked: nat, j: nat, onset: nat) =>
      if j <= onset < |fs| then Verdict(c, asked, Audio(fs, j, onset + 1)) else None
  }

  function EventOf(fs: seq<Frame>, m: Mark): Event
    requires Placed(m, |fs|)
  {
    match m
    case Begun(at) => VoiceStart(fs[at].at)
    case Finished(start, _, at, verdict) =>
      VoiceEnd(fs[at].at, Audio(fs, start, at + 1), Elapsed(fs, start, at), None,
               Some(Complete(verdict) || verdict.None?),
               if Complete(verdict) then Some(verdict.value.probability) else None)
  }

  ghost predicate AllPlaced(ms: seq<Mark>, n: nat) { forall m <- ms :: Placed(m, n) }

  /** The events that a list of marks stands for. */
  ghost function Render(fs: seq<Frame>, ms: seq<Mark>): (es: seq<Emitted>)
    requires AllPlaced(ms, |fs|)
    ensures |es| == |ms|
    ensures forall p :: 0 <= p < |ms| ==> es[p] == Emitted(ms[p].at, EventOf(fs, ms[p]))
  {
    seq(|ms|, p requires 0 <= p < |ms| => Emitted(ms[p].at, EventOf(fs, ms[p])))
  }

  /** Segmenter state `s` is what track `t` describes after the first `i` frames. */
  ghost predicate Stands(fs: seq<Frame>, s: Seg, t: Track, i: nat)
    requires i <= |fs| && Within(t.phase, i)
  {
    && s.asked == t.asked
    && match t.phase
       case Quiet => s.state == Idle && s.audio == []
       case Talking(j) => s.state == Speaking && s.audio == Audio(fs, j, i) && s.voiceStart == fs[j].at
       case Waiting(j, onset, verdict) =>
         && s.state == TrailingSilence(fs[onset].at, verdict.Some?)
         && s.audio == Audio(fs, j, i) && s.voiceStart == fs[j].at
  }

  lemma RenderAppend(fs: seq<Frame>, earlier: seq<Mark>, later: seq<Mark>)
    requires AllPlaced(earlier, |fs|) && AllPlaced(later, |fs|)
    ensures AllPlaced(earlier + later, |fs|)
    ensures Render(fs, earlier + later) == Render(fs, earlier) + Render(fs, later)
  {
  }

  lemma StepFollowsTrack(c: Config, s: Seg, t: Track, fs: seq<Frame>, i: nat)
    requires i < |fs| && Within(t.phase, i) && Stands(fs, s, t, i)
    ensures
      var (next, events) := Step(c, s, fs[i]);
      var (track, marks) := TrackStep(c, Hear(c, fs), t, fs, i);
      && Stands(fs, next, track, i + 1)
      && AllPlaced(marks, |fs|) && Tag(i, events) == Render(fs, marks)
  {
    match t.phase
    case Quiet =>
      assert Audio(fs, i, i + 1) == fs[i].samples by { assert Audio(fs, i, i) == []; }
    case Talking(j) =>
      assert Audio(fs, j, i + 1) == s.audio + fs[i].samples;
    case Waiting(j, _, _) =>
      assert Audio(fs, j, i + 1) == s.audio + fs[i].samples;
  }

  lemma {:induction false} RunFollowsTrack(c: Config, s: Seg, t: Track, fs: seq<Frame>, i: nat)
    requires i <= |fs| && Within(t.phase, i) && Stands(fs, s, t, i)
    ensures
      var (last, es) := Run(c, s, fs, i);
      var (track, marks) := TrackRun(c, Hear(c, fs), t, fs, i);
      && Stands(fs, last, track, |fs|)
      && AllPlaced(marks, |fs|) && es == Render(fs, marks)
    decreases |fs| - i
  {
    if i < |fs| {
      var next := Step(c, s, fs[i]).0;
      var (track, marks) := TrackStep(c, Hear(c, fs), t, fs, i);
      StepFollowsTrack(c, s, t, fs, i);
      RunFollowsTrack(c, next, track, fs, i + 1);
      var later := TrackRun(c, Hear(c, fs), track, fs, i + 1).1;
      RenderAppend(fs, marks, later);
    }
  }

  /** MAIN: on every recording the segmenter emits exactly the offline segmentation. */
  lemma OnlineIsOffline(c: Config, fs: seq<Frame>)
    ensures
      var marks := Offline(c, Hear(c, fs), fs, 0, 0);
      AllPlaced(marks, |fs|) && Run(c, INITIAL, fs, 0).1 == Render(fs, marks)
  {
    RunFollowsTrack(c, INITIAL, Track(Quiet, 0), fs, 0);
    TrackIsOffline(c, Hear(c, fs), 0, fs, 0);
  }

  ghost predicate Latest(marks: seq<Mark>, phase: Phase) {
    phase != Quiet ==> marks != [] && marks[|marks| - 1] == Begun(phase.start)
  }

  lemma LatestOfLater(earlier: seq<Mark>, later: seq<Mark>, phase: Phase)
    requires Latest(later, phase)
    ensures Latest(earlier + later, phase)
  {
  }

  ghost predicate RunsTo(c: Config, v: Listener, asked: nat, fs: seq<Frame>, i: nat, last: Track, marks: seq<Mark>)
    requires i <= |fs|
  {
    TrackRun(c, v, Track(Quiet, asked), fs, i) == (last, marks)
  }

  lemma ForeseenSplit(c: Config, v: Listener, fs: seq<Frame>, j: nat, e: Ending, last: Track, own: seq<Mark>)
    returns (later: seq<Mark>)
    requires Possible(fs, j, e) && !e.Resumed? && Foreseen(c, v, fs, j, e) == (last, own)
    ensures e.Open? ==> last.phase == e.phase && own == []
    ensures e.Closed? ==>
      RunsTo(c, v, e.asked, fs, e.at + 1, last, later) && own == Kept(c, fs, j, e.onset, e.at, e.verdict) + later
  {
    later := if e.Closed? then TrackRun(c, v, Track(Quiet, e.asked), fs, e.at + 1).1 else [];
  }

  /** A quiet run, taken apart at the end of its first segment. */
  lemma {:induction false} QuietSplit(c: Config, v: Listener, asked: nat, fs: seq<Frame>, i: nat, last: Track, marks: seq<Mark>)
    returns (j: nat, e: Ending, later: seq<Mark>)
    requires i <= |fs| && RunsTo(c, v, asked, fs, i, last, marks)
    ensures j == Next(fs, true, i) && (j == |fs| ==> last.phase == Quiet)
    ensures j < |fs| ==> e == FindEnd(c, v, fs, j, j + 1, asked)
    ensures j < |fs| && !e.Closed? ==> last.phase != Quiet && last.phase.start == j && marks == [Begun(j)]
    ensures j < |fs| && e.Closed? ==>
      RunsTo(c, v, e.asked, fs, e.at + 1, last, later) && marks == [Begun(j)] + (Kept(c, fs, j, e.onset, e.at, e.verdict) + later)
  {
    QuietRun(c, v, asked, fs, i);
    j, e, later := Next(fs, true, i), Open(Quiet, asked), [];
    if j < |fs| {
      e := FindEnd(c, v, fs, j, j + 1, asked);
      later := ForeseenSplit(c, v, fs, j, e, last, Foreseen(c, v, fs, j, e).1);
    }
  }

  lemma {:induction false} LatestMark(c: Config, v: Listener, asked: nat, fs: seq<Frame>, i: nat, last: Track, marks: seq<Mark>)
    requires i <= |fs| && RunsTo(c, v, asked, fs, i, last, marks)
    ensures Latest(marks, last.phase)
    decreases |fs| - i
  {
    var j, e, later := QuietSplit(c, v, asked, fs, i, last, marks);
    if j < |fs| && e.Closed? {
      LatestMark(c, v, e.asked, fs, e.at + 1, last, later);
      var own := Kept(c, fs, j, e.onset, e.at, e.verdict);
      LatestOfLater(own, later, last.phase);
      LatestOfLater([Begun(j)], own + later, last.phase);
    }
  }

  /** MAIN: between calls the buffer is empty in Idle, and otherwise holds exactly what came since the latest VoiceStart. */
  lemma BufferHoldsTheOpenSegment(c: Config, fs: seq<Frame>)
    ensures
      var (last, es) := Run(c, INITIAL, fs, 0);
      if last.state == Idle then last.audio == []
      else
        && es != []
        && var latest := es[|es| - 1];
           && latest.event.VoiceStart? && latest.frame < |fs|
           && last.audio == Audio(fs, latest.frame, |fs|) && last.voiceStart == fs[latest.frame].at
  {
    RunFollowsTrack(c, INITIAL, Track(Quiet, 0), fs, 0);
    var (last, marks) := TrackRun(c, Hear(c, fs), Track(Quiet, 0), fs, 0);
    LatestMark(c, Hear(c, fs), 0, fs, 0, last, marks);
  }

  // ---------------------------------------------------------------- after every prefix

  /** The machine on frame numbers after the first `i` frames. */
  function TrackAt(c: Config, v: Listener, fs: seq<Frame>, i: nat): (t: Track)
    requires i <= |fs|
    ensures Within(t.phase, i)
  {
    if i == 0 then Track(Quiet, 0) else TrackStep(c, v, TrackAt(c, v, fs, i - 1), fs, i - 1).0
  }

  /** The segmenter after the first `i` frames. */
  function StateAt(c: Config, fs: seq<Frame>, i: nat): Seg
    requires i <= |fs|
  {
    if i == 0 then INITIAL else Step(c, StateAt(c, fs, i - 1), fs[i - 1]).0
  }

  /** The segmenter is what the machine on frame numbers describes. */
  ghost predicate StandsAt(c: Config, fs: seq<Frame>, i: nat, s: Seg, t: Track)
    requires i <= |fs|
  {
    s == StateAt(c, fs, i) && t == TrackAt(c, Hear(c, fs), fs, i) && Within(t.phase, i) && Stands(fs, s, t, i)
  }

  lemma StandsNext(c: Config, fs: seq<Frame>, i: nat, s: Seg, t: Track)
    requires i < |fs| && StandsAt(c, fs, i, s, t)
    ensures StandsAt(c, fs, i + 1, Step(c, s, fs[i]).0, TrackStep(c, Hear(c, fs), t, fs, i).0)
  {
    StepFollowsTrack(c, s, t, fs, i);
  }

  lemma {:induction false} StateAtIsTrackAt(c: Config, fs: seq<Frame>, i: nat) returns (s: Seg, t: Track)
    requires i <= |fs|
    ensures StandsAt(c, fs, i, s, t)
  {
    if i == 0 {
      s, t := INITIAL, Track(Quiet, 0);
    } else {
      s, t := StateAtIsTrackAt(c, fs, i - 1);
      StandsNext(c, fs, i - 1, s, t);
      s, t := Step(c, s, fs[i - 1]).0, TrackStep(c, Hear(c, fs), t, fs, i - 1).0;
    }
  }

  // ---------------------------------------------------------------- two segmenters on one recording

  function Starts(es: seq<Emitted>): set<nat> { set e <- es | e.event.VoiceStart? :: e.frame }

  function Ends(es: seq<Emitted>): nat {
    if es == [] then 0 else (if es[0].event.VoiceEnd? then 1 else 0) + Ends(es[1..])
  }

  function Begins(ms: seq<Mark>): set<nat> { set m <- ms | m.Begun? :: m.at }

  function Finishes(ms: seq<Mark>): nat {
    if ms == [] then 0 else (if ms[0].Finished? then 1 else 0) + Finishes(ms[1..])
  }

  lemma {:induction false} RenderCounts(fs: seq<Frame>, ms: seq<Mark>)
    requires AllPlaced(ms, |fs|)
    ensures Starts(Render(fs, ms)) == Begins(ms) && Ends(Render(fs, ms)) == Finishes(ms)
  {
    var es := Render(fs, ms);
    assert forall p :: 0 <= p < |ms| ==> es[p].event.VoiceStart? == ms[p].Begun? && es[p].frame == ms[p].at;
    forall e <- es | e.event.VoiceStart?
      ensures e.frame in Begins(ms)
    {
      var p :| 0 <= p < |es| && es[p] == e;
      assert ms[p] in ms;
    }
    forall m <- ms | m.Begun?
      ensures m.at in Starts(es)
    {
      var p :| 0 <= p < |ms| && ms[p] == m;
      assert es[p] in es;
    }
    if ms != [] {
      RenderCounts(fs, ms[1..]);
      assert es[1..] == Render(fs, ms[1..]);
    }
  }

  lemma {:induction false} CountAppend(earlier: seq<Mark>, later: seq<Mark>)
    ensures Finishes(earlier + later) == Finishes(earlier) + Finishes(later)
    ensures Begins(earlier + later) == Begins(earlier) + Begins(later)
  {
    if earlier == [] {
      assert earlier + later == later;
    } else {
      CountAppend(earlier[1..], later);
      assert earlier + later == [earlier[0]] + (earlier[1..] + later);
    }
  }

  function Active(p: Phase): nat { if p == Quiet then 0 else 1 }

  /** `c` waits at most `limit` after an onset. */
  ghost predicate Eager(c: Config, limit: Duration) {
    forall asked, audio {:trigger Verdict(c, asked, audio)} ::
      TimeoutOf(c, Verdict(c, asked, audio).Some?) <= limit
  }

  /** `c` never cuts early, and waits at least `limit` after an onset. */
  ghost predicate Patient(c: Config, limit: Duration) {
    forall asked, audio {:trigger Verdict(c, asked, audio)} ::
      !Complete(Verdict(c, asked, audio)) && TimeoutOf(c, Verdict(c, asked, audio).Some?) >= limit
  }

  /** Time never runs backwards. */
  ghost predicate Monotone(fs: seq<Frame>) {
    forall a, b :: 0 <= a < b < |fs| ==> fs[a].at <= fs[b].at
  }

  /** No segment of this recording can be too short for `c`. */
  ghost predicate KeepsAll(c: Config, fs: seq<Frame>) {
    c.minSpeechMs == 0 || (Patient(c, FromMillis(c.minSpeechMs)) && Monotone(fs))
  }

  /** How the eager phase `p1` relates to the patient phase `p2`, at the same frame. */
  ghost predicate Related(c1: Config, c2: Config, fs: seq<Frame>, limit: Duration, p1: Phase, p2: Phase) {
    match p2
    case Quiet => p1 == Quiet
    case Talking(_) => p1.Talking?
    case Waiting(_, onset, verdict) =>
      && TimeoutOf(c2, verdict.Some?) >= limit
      && (p1 == Quiet
          || (&& p1.Waiting? && p1.onset == onset && TimeoutOf(c1, p1.verdict.Some?) <= limit
              && (KeepsAll(c1, fs) && c1.minSpeechMs > 0 ==>
                    TimeoutOf(c1, p1.verdict.Some?) >= FromMillis(c1.minSpeechMs))))
  }

  lemma RelatedStep(c1: Config, c2: Config, limit: Duration, t1: Track, t2: Track, fs: seq<Frame>, i: nat)
    requires i < |fs| && Within(t1.phase, i) && Within(t2.phase, i)
    requires Eager(c1, limit) && Patient(c2, limit) && Related(c1, c2, fs, limit, t1.phase, t2.phase)
    ensures
      var (next1, marks1) := TrackStep(c1, Hear(c1, fs), t1, fs, i);
      var (next2, marks2) := TrackStep(c2, Hear(c2, fs), t2, fs, i);
      && Related(c1, c2, fs, limit, next1.phase, next2.phase)
      && Begins(marks2) <= Begins(marks1)
  {
    if t1.phase.Talking? && t2.phase.Talking? && !fs[i].voice {
      var a1, a2 := Audio(fs, t1.phase.start, i + 1), Audio(fs, t2.phase.start, i + 1);
      var v1, v2 := Verdict(c1, t1.asked, a1), Verdict(c2, t2.asked, a2);
      assert Hear(c1, fs)(t1.asked, t1.phase.start, i) == v1;
      assert Hear(c2, fs)(t2.asked, t2.phase.start, i) == v2;
      assert TimeoutOf(c1, v1.Some?) <= limit <= TimeoutOf(c2, v2.Some?);
    }
  }

  lemma KeptStep(c: Config, limit: Duration, t: Track, fs: seq<Frame>, i: nat)
    requires i < |fs| && Within(t.phase, i) && KeepsAll(c, fs)
    requires t.phase.Waiting? && c.minSpeechMs > 0 ==> TimeoutOf(c, t.phase.verdict.Some?) >= FromMillis(c.minSpeechMs)
    ensures
      var (next, marks) := TrackStep(c, Hear(c, fs), t, fs, i);
      t.phase != Quiet && next.phase == Quiet ==> Finishes(marks) == 1
  {
    if t.phase.Talking? {
      var audio := Audio(fs, t.phase.start, i + 1);
      assert Hear(c, fs)(t.asked, t.phase.start, i) == Verdict(c, t.asked, audio);
    }
  }

  /** Bookkeeping for one step of both machines. */
  lemma BalancedStep(c1: Config, c2: Config, limit: Duration, t1: Track, t2: Track, fs: seq<Frame>, i: nat)
    requires i < |fs| && Within(t1.phase, i) && Within(t2.phase, i) && KeepsAll(c1, fs)
    requires Eager(c1, limit) && Patient(c2, limit) && Related(c1, c2, fs, limit, t1.phase, t2.phase)
    ensures
      var (next1, marks1) := TrackStep(c1, Hear(c1, fs), t1, fs, i);
      var (next2, marks2) := TrackStep(c2, Hear(c2, fs), t2, fs, i);
      Finishes(marks1) + Active(next1.phase) + Active(t2.phase)
      >= Finishes(marks2) + Active(next2.phase) + Active(t1.phase)
  {
    RelatedStep(c1, c2, limit, t1, t2, fs, i);
    KeptStep(c1, limit, t1, fs, i);
  }

  lemma {:induction false} RelatedRuns(c1: Config, c2: Config, limit: Duration, t1: Track, t2: Track, fs: seq<Frame>, i: nat)
    requires i <= |fs| && Within(t1.phase, i) && Within(t2.phase, i)
    requires Eager(c1, limit) && Patient(c2, limit) && Related(c1, c2, fs, limit, t1.phase, t2.phase)
    ensures
      var (last1, marks1) := TrackRun(c1, Hear(c1, fs), t1, fs, i);
      var (last2, marks2) := TrackRun(c2, Hear(c2, fs), t2, fs, i);
      Related(c1, c2, fs, limit, last1.phase, last2.phase) && Begins(marks2) <= Begins(marks1)
    decreases |fs| - i
  {
    if i < |fs| {
      var (next1, marks1) := TrackStep(c1, Hear(c1, fs), t1, fs, i);
      var (next2, marks2) := TrackStep(c2, Hear(c2, fs), t2, fs, i);
      RelatedStep(c1, c2, limit, t1, t2, fs, i);
      RelatedRuns(c1, c2, limit, next1, next2, fs, i + 1);
      CountAppend(marks1, TrackRun(c1, Hear(c1, fs), next1, fs, i + 1).1);
      CountAppend(marks2, TrackRun(c2, Hear(c2, fs), next2, fs, i + 1).1);
    }
  }

  lemma {:induction false} BalancedRuns(c1: Config, c2: Config, limit: Duration, t1: Track, t2: Track, fs: seq<Frame>, i: nat)
    requires i <= |fs| && Within(t1.phase, i) && Within(t2.phase, i) && KeepsAll(c1, fs)
    requires Eager(c1, limit) && Patient(c2, limit) && Related(c1, c2, fs, limit, t1.phase, t2.phase)
    ensures
      var (last1, marks1) := TrackRun(c1, Hear(c1, fs), t1, fs, i);
      var (last2, marks2) := TrackRun(c2, Hear(c2, fs), t2, fs, i);
      Finishes(marks1) + Active(last1.phase) + Active(t2.phase)
      >= Finishes(marks2) + Active(last2.phase) + Active(t1.phase)
    decreases |fs| - i
  {
    if i < |fs| {
      var (next1, marks1) := TrackStep(c1, Hear(c1, fs), t1, fs, i);
      var (next2, marks2) := TrackStep(c2, Hear(c2, fs), t2, fs, i);
      RelatedStep(c1, c2, limit, t1, t2, fs, i);
      BalancedStep(c1, c2, limit, t1, t2, fs, i);
      BalancedRuns(c1, c2, limit, next1, next2, fs, i + 1);
      CountAppend(marks1, TrackRun(c1, Hear(c1, fs), next1, fs, i + 1).1);
      CountAppend(marks2, TrackRun(c2, Hear(c2, fs), next2, fs, i + 1).1);
    }
  }

  /**
  MAIN: waiting longer only merges.  On one recording, wherever the patient segmenter is idle the
  eager one is too, so every VoiceStart of the patient run is one of the eager run; and when nothing
  is too short to keep, the eager run has emitted at least as many VoiceEnds.
  */
  lemma WaitingLongerMerges(c1: Config, c2: Config, limit: Duration, fs: seq<Frame>)
    requires Eager(c1, limit) && Patient(c2, limit)
    ensures
      var (last1, es1) := Run(c1, INITIAL, fs, 0);
      var (last2, es2) := Run(c2, INITIAL, fs, 0);
      && (last2.state == Idle ==> last1.state == Idle)
      && Starts(es2) <= Starts(es1)
      && (KeepsAll(c1, fs) ==> Ends(es1) >= Ends(es2))
  {
    var t := Track(Quiet, 0);
    RunFollowsTrack(c1, INITIAL, t, fs, 0);
    RunFollowsTrack(c2, INITIAL, t, fs, 0);
    RelatedRuns(c1, c2, limit, t, t, fs, 0);
    if KeepsAll(c1, fs) {
      BalancedRuns(c1, c2, limit, t, t, fs, 0);
    }
    RenderCounts(fs, TrackRun(c1, Hear(c1, fs), t, fs, 0).1);
    RenderCounts(fs, TrackRun(c2, Hear(c2, fs), t, fs, 0).1);
  }

  /** A predictor that always says "incomplete" makes the extended timeout the only one. */
  lemma IncompletePredictorMerges(plain: Config, merging: Config, fs: seq<Frame>)
    requires plain.predict == None && merging.predict.Some?
    requires forall n: nat, a: seq<Sample> ::
      merging.predict.value(n, a).Some? && !merging.predict.value(n, a).value.prediction
    requires merging.extendedSilenceTimeoutMs >= plain.silenceTimeoutMs
    ensures
      var (last1, es1) := Run(plain, INITIAL, fs, 0);
      var (last2, es2) := Run(merging, INITIAL, fs, 0);
      && (last2.state == Idle ==> last1.state == Idle)
      && Starts(es2) <= Starts(es1)
      && (plain.minSpeechMs == 0 ==> Ends(es1) >= Ends(es2))
  {
    WaitingLongerMerges(plain, merging, TimeoutOf(plain, false), fs);
  }

  /** What an always-incomplete predictor makes of an event: the same, but not the end of a turn. */
  function NotEndOfTurn(e: Emitted): Emitted {
    match e.event
    case VoiceStart(_) => e
    case VoiceEnd(_, _, _, _, _, _) => e.(event := e.event.(endOfTurn := Some(false)))
  }

  /** The two segmenters differ in what they think of the silence they are in. */
  predicate AlikeBut(s1: Seg, s2: Seg) {
    && s1.audio == s2.audio && s1.voiceStart == s2.voiceStart
    && match s1.state
       case TrailingSilence(since, incomplete) => !incomplete && s2.state == TrailingSilence(since, true)
       case _ => s1.state == s2.state
  }

  predicate AlwaysIncomplete(c: Config, asked: nat, audio: seq<Sample>) {
    var v := Verdict(c, asked, audio);
    v.Some? && !v.value.prediction
  }

  lemma AlikeStep(plain: Config, patient: Config, s1: Seg, s2: Seg, f: Frame)
    requires plain.predict == None && forall n: nat, a: seq<Sample> :: AlwaysIncomplete(patient, n, a)
    requires patient.extendedSilenceTimeoutMs == plain.silenceTimeoutMs && patient.minSpeechMs == plain.minSpeechMs
    requires AlikeBut(s1, s2)
    ensures
      var ((t1, es1), (t2, es2)) := (Step(plain, s1, f), Step(patient, s2, f));
      && AlikeBut(t1, t2) && |es1| == |es2|
      && (es1 != [] ==> Emitted(0, es2[0]) == NotEndOfTurn(Emitted(0, es1[0])))
  {
    assert AlwaysIncomplete(patient, s2.asked, s2.audio + f.samples);
  }

  function AllNotEndOfTurn(es: seq<Emitted>): seq<Emitted> {
    if es == [] then [] else [NotEndOfTurn(es[0])] + AllNotEndOfTurn(es[1..])
  }

  lemma AlikeRunFirst(es1: seq<Event>, es2: seq<Event>, i: nat, later1: seq<Emitted>, later2: seq<Emitted>)
    requires |es1| == |es2| <= 1 && later2 == AllNotEndOfTurn(later1)
    requires es1 != [] ==> Emitted(0, es2[0]) == NotEndOfTurn(Emitted(0, es1[0]))
    ensures Tag(i, es2) + later2 == AllNotEndOfTurn(Tag(i, es1) + later1)
  {
    if es1 == [] {
      assert Tag(i, es1) + later1 == later1 && Tag(i, es2) + later2 == later2;
    } else {
      assert (Tag(i, es1) + later1)[1..] == later1;
    }
  }

  lemma {:induction false} AlikeRun(plain: Config, patient: Config, s1: Seg, s2: Seg, fs: seq<Frame>, i: nat)
    requires plain.predict == None && forall n: nat, a: seq<Sample> :: AlwaysIncomplete(patient, n, a)
    requires patient.extendedSilenceTimeoutMs == plain.silenceTimeoutMs && patient.minSpeechMs == plain.minSpeechMs
    requires i <= |fs| && AlikeBut(s1, s2)
    ensures Run(patient, s2, fs, i).1 == AllNotEndOfTurn(Run(plain, s1, fs, i).1)
    decreases |fs| - i
  {
    if i < |fs| {
      AlikeStep(plain, patient, s1, s2, fs[i]);
      var ((t1, es1), (t2, es2)) := (Step(plain, s1, fs[i]), Step(patient, s2, fs[i]));
      AlikeRun(plain, patient, t1, t2, fs, i + 1);
      AlikeRunFirst(es1, es2, i, Run(plain, t1, fs, i + 1).1, Run(patient, t2, fs, i + 1).1);
    }
  }

  /**
  MAIN: with a predictor that always says "incomplete", the extended timeout takes the place of the
  normal one and nothing else changes: same frames, same audio, same times, never an end of turn.
  */
  lemma ExtendedReplacesNormal(plain: Config, patient: Config, fs: seq<Frame>)
    requires plain.predict == None && forall n: nat, a: seq<Sample> :: AlwaysIncomplete(patient, n, a)
    requires patient.extendedSilenceTimeoutMs == plain.silenceTimeoutMs && patient.minSpeechMs == plain.minSpeechMs
    ensures Run(patient, INITIAL, fs, 0).1 == AllNotEndOfTurn(Run(plain, INITIAL, fs, 0).1)
  {
    AlikeRun(plain, patient, INITIAL, INITIAL, fs, 0);
  }

  function Plain(minSpeechMs: u32, timeoutMs: u32): Config {
    Config(minSpeechMs, timeoutMs, DefaultExtended(timeoutMs), None)
  }

  function EndCount(minSpeechMs: u32, timeoutMs: u32, fs: seq<Frame>): nat {
    Ends(Run(Plain(minSpeechMs, timeoutMs), INITIAL, fs, 0).1)
  }

  lemma QuietStep(c: Config, s: Seg, fs: seq<Frame>, i: nat, next: Seg)
    requires i < |fs| && Step(c, s, fs[i]) == (next, [])
    ensures Run(c, s, fs, i) == Run(c, next, fs, i + 1)
  {
    var later := Run(c, next, fs, i + 1).1;
    assert Tag(i, []) + later == later;
  }

  /** What happens after `voice` at 0 and silence from 0 on, when the third frame comes at `mid` and the fourth at `late`. */
  lemma OneUtterance(minSpeechMs: u32, timeoutMs: u32, mid: Duration, late: Duration, fs: seq<Frame>)
    requires mid <= late
    requires fs == [Frame(true, [], 0), Frame(false, [], 0), Frame(false, [], mid), Frame(false, [], late)]
    requires mid >= FromMillis(timeoutMs) || late >= FromMillis(timeoutMs)
    ensures
      var end := if mid >= FromMillis(timeoutMs) then mid else late;
      EndCount(minSpeechMs, timeoutMs, fs) == if end >= FromMillis(minSpeechMs) then 1 else 0
  {
    var c := Plain(minSpeechMs, timeoutMs);
    var speaking := Seg(Speaking, [], 0, 0);
    var waiting := Seg(TrailingSilence(0, false), [], 0, 0);
    var idle := Seg(Idle, [], 0, 0);
    var due := mid >= FromMillis(timeoutMs);
    var at2 := if due then EndEvents(c, 0, [], mid, true, None) else [];
    var at3 := if due then [] else EndEvents(c, 0, [], late, true, None);
    var silence: seq<Sample> := [];
    assert silence + silence == silence;
    assert Step(c, waiting, fs[2]) == (if due then idle else waiting, at2);
    assert Step(c, if due then idle else waiting, fs[3]) == (idle, at3);
    assert Run(c, idle, fs, 4) == (idle, []);
    assert Run(c, if due then idle else waiting, fs, 3) == (idle, Tag(3, at3) + []);
    assert Run(c, waiting, fs, 2) == (idle, Tag(2, at2) + (Tag(3, at3) + []));
    QuietStep(c, speaking, fs, 1, waiting);
    assert Step(c, INITIAL, fs[0]) == (speaking, [VoiceStart(0)]);
    var tail := Tag(2, at2) + (Tag(3, at3) + []);
    assert Run(c, INITIAL, fs, 0).1 == [Emitted(0, VoiceStart(0))] + tail;
    assert ([Emitted(0, VoiceStart(0))] + tail)[1..] == tail;
    assert tail == if due then Tag(2, at2) else Tag(3, at3);
    assert |tail| <= 1 && (tail != [] ==> tail[1..] == [] && tail[0].event.VoiceEnd?);
    assert Ends(tail) == |tail|;
  }

  /**
  MAIN: exactly when a shorter timeout can be relied on for at least as many VoiceEnds on every
  recording whose clock does not run backwards.  Otherwise a pause can end a segment that is
  still too short to keep and that the longer timeout would have let grow.
  */
  lemma ShorterTimeoutEndsMoreOften(minSpeechMs: u32, t1: u32, t2: u32)
    requires t1 <= t2
    ensures (forall fs | Monotone(fs) :: EndCount(minSpeechMs, t1, fs) >= EndCount(minSpeechMs, t2, fs))
            <==> minSpeechMs <= t1 || t1 == t2
  {
    var c1, c2 := Plain(minSpeechMs, t1), Plain(minSpeechMs, t2);
    if minSpeechMs <= t1 {
      forall fs | Monotone(fs)
        ensures EndCount(minSpeechMs, t1, fs) >= EndCount(minSpeechMs, t2, fs)
      {
        WaitingLongerMerges(c1, c2, TimeoutOf(c1, false), fs);
      }
    } else if t1 < t2 {
      var mid := FromMillis(t1);
      var late := if minSpeechMs < t2 then FromMillis(t2) else FromMillis(minSpeechMs);
      var fs := [Frame(true, [], 0), Frame(false, [], 0), Frame(false, [], mid), Frame(false, [], late)];
      OneUtterance(minSpeechMs, t1, mid, late, fs);
      OneUtterance(minSpeechMs, t2, mid, late, fs);
      assert Monotone(fs) && EndCount(minSpeechMs, t1, fs) < EndCount(minSpeechMs, t2, fs);
    }
  }
}
