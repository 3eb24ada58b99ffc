/**
Every way to use a segmenter: frames, with its two setters called at any time between them.

After any calls the state is a record of the latest ones (`Describes`), and every event is the right
one for the settings in force when each frame was heard (`EveryEventIsSound`).
*/
module SegmenterCalls {
  import opened Common
  import opened Segmenter

  /** `SetPredictor` installs a predictor that has answered `asked` calls before. */
  datatype Call = Heard(f: Frame) | SetExtended(ms: u32) | SetPredictor(predict: Oracle, asked: nat)

  /** The settings and the state of a segmenter. */
  datatype Live = Live(c: Config, s: Seg)

  function Do(l: Live, call: Call): (r: (Live, seq<Event>))
    ensures |r.1| <= 1
  {
    match call
    case Heard(f) => var (next, events) := Step(l.c, l.s, f); (Live(l.c, next), events)
    case SetExtended(ms) => (Live(l.c.(extendedSilenceTimeoutMs := ms), l.s), [])
    case SetPredictor(predict, asked) => (Live(l.c.(predict := Some(predict)), l.s.(asked := asked)), [])
  }

  /** Any call, on the object. */
  method MakeCall(v: VadSegmenter, call: Call, predictor: EtdPredictor) returns (events: seq<Event>)
    requires call.SetPredictor? ==> predictor.answer == call.predict && predictor.calls == call.asked
    modifies v, v.etdPredict
    ensures (Live(v.Settings(), v.Value()), events) == Do(Live(old(v.Settings()), old(v.Value())), call)
  {
    events := [];
    match call
    case Heard(f) => events := v.Feed(f.voice, f.samples, f.at);
    case SetExtended(ms) => v.SetExtendedSilenceTimeoutMs(ms);
    case SetPredictor(_, _) => v.SetEtdPredict(predictor);
  }

  /** A segmenter created with settings `c`, before call `n`. */
  function LiveAt(c: Config, calls: seq<Call>, n: nat): Live
    requires n <= |calls|
  {
    if n == 0 then Live(c, INITIAL) else Do(LiveAt(c, calls, n - 1), calls[n - 1]).0
  }

  /** What call `n` returns. */
  function EventsAt(c: Config, calls: seq<Call>, n: nat): seq<Event>
    requires n < |calls|
  {
    Do(LiveAt(c, calls, n), calls[n]).1
  }

  // ---------------------------------------------------------------- what the calls say, without any state

  /** The samples of calls j..k. */
  function AudioOf(calls: seq<Call>, j: nat, k: nat): seq<Sample>
    requires j <= k <= |calls|
  {
    if j == k then []
    else if calls[k - 1].Heard? then AudioOf(calls, j, k - 1) + calls[k - 1].f.samples
    else AudioOf(calls, j, k - 1)
  }

  /** Whether the last frame before call `n` was voiced. */
  predicate VoicedBefore(calls: seq<Call>, n: nat)
    requires n <= |calls|
  {
    n > 0 && if calls[n - 1].Heard? then calls[n - 1].f.voice else VoicedBefore(calls, n - 1)
  }

  /** The settings in force at call `n`. */
  function SettingsAt(c: Config, calls: seq<Call>, n: nat): Config
    requires n <= |calls|
  {
    if n == 0 then c
    else
      match calls[n - 1]
      case Heard(_) => SettingsAt(c, calls, n - 1)
      case SetExtended(ms) => SettingsAt(c, calls, n - 1).(extendedSilenceTimeoutMs := ms)
      case SetPredictor(predict, _) => SettingsAt(c, calls, n - 1).(predict := Some(predict))
  }

  predicate IsFrame(calls: seq<Call>, n: nat, voice: bool) { n < |calls| && calls[n].Heard? && calls[n].f.voice == voice }

  /** The predictor's answer at the silence onset, to the very call that the segmenter makes there. */
  function VerdictAt(c: Config, calls: seq<Call>, start: nat, onset: nat): Option<EarlyCut>
    requires start <= onset < |calls|
  {
    Verdict(SettingsAt(c, calls, onset), LiveAt(c, calls, onset).s.asked, AudioOf(calls, start, onset + 1))
  }

  /** The segment begins at `start`, and no event follows before call `n`. */
  ghost predicate OpenSince(c: Config, calls: seq<Call>, start: nat, n: nat) {
    && start < n <= |calls| && IsFrame(calls, start, true)
    && EventsAt(c, calls, start) == [VoiceStart(calls[start].f.at)]
    && forall m :: start < m < n ==> EventsAt(c, calls, m) == []
  }

  /** Call `m` is no frame, or an unvoiced one by which the silence has not lasted the timeout then in force. */
  predicate NotDue(c: Config, calls: seq<Call>, onset: nat, incomplete: bool, m: nat)
    requires onset < |calls| && calls[onset].Heard? && m < |calls|
  {
    calls[m].Heard? ==>
      !calls[m].f.voice && SaturatingSub(calls[m].f.at, calls[onset].f.at) < TimeoutOf(SettingsAt(c, calls, m), incomplete)
  }

  /** A silence begins at `onset`, is not cut early, and is not over before call `n`. */
  ghost predicate SilentSince(c: Config, calls: seq<Call>, start: nat, onset: nat, n: nat) {
    && start < onset < n <= |calls| && IsFrame(calls, onset, false) && VoicedBefore(calls, onset)
    && !Complete(VerdictAt(c, calls, start, onset))
    && forall m :: onset < m < n ==> NotDue(c, calls, onset, VerdictAt(c, calls, start, onset).Some?, m)
  }

  // ---------------------------------------------------------------- the state is a record of the calls

  datatype Place = Out | In(start: nat) | Pausing(start: nat, onset: nat)

  /** What is stored of a segment that begins at `start`. */
  ghost predicate Stores(calls: seq<Call>, start: nat, n: nat, s: Seg)
    requires start < n <= |calls| && calls[start].Heard?
  {
    s.audio == AudioOf(calls, start, n) && s.voiceStart == calls[start].f.at
  }

  /** The state before call `n`, told from the calls. */
  ghost predicate Describes(c: Config, calls: seq<Call>, n: nat, p: Place)
    requires n <= |calls|
  {
    var s := LiveAt(c, calls, n).s;
    match p
    case Out => s.state == Idle && s.audio == []
    case In(start) =>
      OpenSince(c, calls, start, n) && Stores(calls, start, n, s) && s.state == Speaking && VoicedBefore(calls, n)
    case Pausing(start, onset) =>
      && OpenSince(c, calls, start, n) && Stores(calls, start, n, s) && SilentSince(c, calls, start, onset, n)
      && s.state == TrailingSilence(calls[onset].f.at, VerdictAt(c, calls, start, onset).Some?)
  }

  lemma {:induction false} SettingsAreLive(c: Config, calls: seq<Call>, n: nat)
    requires n <= |calls|
    ensures LiveAt(c, calls, n).c == SettingsAt(c, calls, n)
  {
    if n > 0 {
      SettingsAreLive(c, calls, n - 1);
    }
  }

  /** Call `n` takes state `l` to state `next` and returns `events`. */
  ghost predicate Makes(c: Config, calls: seq<Call>, n: nat, l: Live, next: Live, events: seq<Event>)
    requires n < |calls|
  {
    && l == LiveAt(c, calls, n) && l.c == SettingsAt(c, calls, n)
    && next == LiveAt(c, calls, n + 1) && events == EventsAt(c, calls, n) && (next, events) == Do(l, calls[n])
  }

  lemma CallMakes(c: Config, calls: seq<Call>, n: nat) returns (l: Live, next: Live, events: seq<Event>)
    requires n < |calls|
    ensures Makes(c, calls, n, l, next, events)
  {
    SettingsAreLive(c, calls, n);
    l, next, events := LiveAt(c, calls, n), LiveAt(c, calls, n + 1), EventsAt(c, calls, n);
  }

  lemma SetterDescribes(c: Config, calls: seq<Call>, n: nat, p: Place, l: Live, next: Live, events: seq<Event>)
    requires n < |calls| && !calls[n].Heard? && Makes(c, calls, n, l, next, events) && Describes(c, calls, n, p)
    ensures Describes(c, calls, n + 1, p)
  {
  }

  lemma IdleDescribes(c: Config, calls: seq<Call>, n: nat, l: Live, next: Live, events: seq<Event>)
    requires n < |calls| && calls[n].Heard? && Makes(c, calls, n, l, next, events) && Describes(c, calls, n, Out)
    ensures Describes(c, calls, n + 1, if calls[n].f.voice then In(n) else Out)
  {
    assert AudioOf(calls, n, n + 1) == [] + calls[n].f.samples == calls[n].f.samples;
  }

  lemma SpeakingDescribes(c: Config, calls: seq<Call>, n: nat, start: nat, l: Live, next: Live, events: seq<Event>)
    requires n < |calls| && calls[n].Heard? && Makes(c, calls, n, l, next, events) && Describes(c, calls, n, In(start))
    ensures Describes(c, calls, n + 1,
      if calls[n].f.voice then In(start) else if Complete(VerdictAt(c, calls, start, n)) then Out else Pausing(start, n))
  {
    assert l.s.audio + calls[n].f.samples == AudioOf(calls, start, n + 1);
  }

  lemma PausingDescribes(c: Config, calls: seq<Call>, n: nat, start: nat, onset: nat, l: Live, next: Live, events: seq<Event>)
    requires n < |calls| && calls[n].Heard? && Makes(c, calls, n, l, next, events) && Describes(c, calls, n, Pausing(start, onset))
    ensures Describes(c, calls, n + 1,
      if calls[n].f.voice then In(start)
      else if NotDue(c, calls, onset, VerdictAt(c, calls, start, onset).Some?, n) then Pausing(start, onset) else Out)
  {
    assert l.s.audio + calls[n].f.samples == AudioOf(calls, start, n + 1);
  }

  predicate Proper(calls: seq<Call>, n: nat, p: Place)
    requires n <= |calls|
  {
    match p
    case Out => true
    case In(start) => start < n && calls[start].Heard?
    case Pausing(start, onset) => start < onset < n && calls[start].Heard? && calls[onset].Heard?
  }

  function NextPlace(c: Config, calls: seq<Call>, n: nat, p: Place): (next: Place)
    requires n < |calls| && Proper(calls, n, p)
    ensures Proper(calls, n + 1, next)
  {
    if !calls[n].Heard? then p
    else
      match p
      case Out => if calls[n].f.voice then In(n) else Out
      case In(start) =>
        if calls[n].f.voice then p else if Complete(VerdictAt(c, calls, start, n)) then Out else Pausing(start, n)
      case Pausing(start, onset) =>
        if calls[n].f.voice then In(start)
        else if NotDue(c, calls, onset, VerdictAt(c, calls, start, onset).Some?, n) then p else Out
  }

  /** Where the calls have led to before call `n`. */
  function PlaceAt(c: Config, calls: seq<Call>, n: nat): (p: Place)
    requires n <= |calls|
    ensures Proper(calls, n, p)
  {
    if n == 0 then Out else NextPlace(c, calls, n - 1, PlaceAt(c, calls, n - 1))
  }

  lemma NextDescribes(c: Config, calls: seq<Call>, n: nat, p: Place)
    requires n < |calls| && Proper(calls, n, p) && Describes(c, calls, n, p)
    ensures Describes(c, calls, n + 1, NextPlace(c, calls, n, p))
  {
    var l, next, events := CallMakes(c, calls, n);
    if !calls[n].Heard? {
      SetterDescribes(c, calls, n, p, l, next, events);
    } else {
      match p
      case Out => IdleDescribes(c, calls, n, l, next, events);
      case In(start) => SpeakingDescribes(c, calls, n, start, l, next, events);
      case Pausing(start, onset) => PausingDescribes(c, calls, n, start, onset, l, next, events);
    }
  }

  /** MAIN: after any calls, settings changed at any time, state and buffer are what the calls say. */
  lemma {:induction false} StateTellsTheCalls(c: Config, calls: seq<Call>, n: nat)
    requires n <= |calls|
    ensures Describes(c, calls, n, PlaceAt(c, calls, n))
  {
    if n > 0 {
      StateTellsTheCalls(c, calls, n - 1);
      NextDescribes(c, calls, n - 1, PlaceAt(c, calls, n - 1));
    }
  }

  /** How often the installed predictor has been asked: once at the onset of each silence in a segment. */
  function AskedBefore(c: Config, calls: seq<Call>, n: nat): nat
    requires n <= |calls|
  {
    if n == 0 then 0
    else
      match calls[n - 1]
      case SetPredictor(_, asked) => asked
      case SetExtended(_) => AskedBefore(c, calls, n - 1)
      case Heard(f) =>
        AskedBefore(c, calls, n - 1) +
        if SettingsAt(c, calls, n - 1).predict.Some? && PlaceAt(c, calls, n - 1).In? && !f.voice then 1 else 0
  }

  /** MAIN: the predictor is asked exactly once per silence, and no more. */
  lemma {:induction false} AskedOncePerSilence(c: Config, calls: seq<Call>, n: nat)
    requires n <= |calls|
    ensures LiveAt(c, calls, n).s.asked == AskedBefore(c, calls, n)
  {
    if n > 0 {
      AskedOncePerSilence(c, calls, n - 1);
      StateTellsTheCalls(c, calls, n - 1);
      SettingsAreLive(c, calls, n - 1);
    }
  }

  // ---------------------------------------------------------------- every event

  /** `ev` rightly ends, at call `k`, the segment that begins at `start` and whose last silence begins at `onset`. */
  ghost predicate Exact(c: Config, calls: seq<Call>, start: nat, onset: nat, k: nat, ev: Event) {
    && OpenSince(c, calls, start, k) && start < onset <= k < |calls|
    && IsFrame(calls, onset, false) && VoicedBefore(calls, onset) && IsFrame(calls, k, false)
    && ev.VoiceEnd? && ev.timestamp == calls[k].f.at && ev.audio == AudioOf(calls, start, k + 1) && ev.transcript == None
    && ev.duration == SaturatingSub(calls[k].f.at, calls[start].f.at) && ev.duration >= FromMillis(c.minSpeechMs)
    && var verdict := VerdictAt(c, calls, start, onset);
       match ev.turnProbability
       case Some(p) => k == onset && verdict == Some(EarlyCut(true, p)) && ev.endOfTurn == Some(true)
       case None =>
         && !Complete(verdict) && onset < k && ev.endOfTurn == Some(verdict.None?)
         && !NotDue(c, calls, onset, verdict.Some?, k)
         && forall m :: onset < m < k ==> NotDue(c, calls, onset, verdict.Some?, m)
  }

  lemma {:induction false} MinimumStays(c: Config, calls: seq<Call>, n: nat)
    requires n <= |calls|
    ensures SettingsAt(c, calls, n).minSpeechMs == c.minSpeechMs
  {
    if n > 0 {
      MinimumStays(c, calls, n - 1);
    }
  }

  lemma SpeakingEndIsExact(c: Config, calls: seq<Call>, k: nat, start: nat, l: Live, next: Live, events: seq<Event>)
    requires k < |calls| && Makes(c, calls, k, l, next, events) && Describes(c, calls, k, In(start)) && events != []
    requires l.c.minSpeechMs == c.minSpeechMs
    ensures Exact(c, calls, start, k, k, events[0])
  {
    assert calls[k].Heard? && l.s.audio + calls[k].f.samples == AudioOf(calls, start, k + 1);
  }

  lemma PausingEndIsExact(c: Config, calls: seq<Call>, k: nat, start: nat, onset: nat, l: Live, next: Live, events: seq<Event>)
    requires k < |calls| && Makes(c, calls, k, l, next, events) && Describes(c, calls, k, Pausing(start, onset)) && events != []
    requires l.c.minSpeechMs == c.minSpeechMs
    ensures Exact(c, calls, start, onset, k, events[0])
  {
    assert calls[k].Heard? && l.s.audio + calls[k].f.samples == AudioOf(calls, start, k + 1);
  }

  /**
  MAIN: whatever the calls, every VoiceStart comes from a voiced frame outside a segment; every VoiceEnd
  follows its own VoiceStart with nothing in between and is exact, by the settings in force at each frame.
  */
  lemma EveryEventIsSound(c: Config, calls: seq<Call>, k: nat) returns (start: nat, onset: nat)
    requires k < |calls| && EventsAt(c, calls, k) != []
    ensures
      var ev := EventsAt(c, calls, k)[0];
      match ev
      case VoiceStart(t) => IsFrame(calls, k, true) && t == calls[k].f.at && PlaceAt(c, calls, k).Out?
      case VoiceEnd(_, _, _, _, _, _) => Exact(c, calls, start, onset, k, ev)
  {
    start, onset := 0, 0;
    StateTellsTheCalls(c, calls, k);
    MinimumStays(c, calls, k);
    var l, next, events := CallMakes(c, calls, k);
    match PlaceAt(c, calls, k)
    case Out =>
    case In(j) =>
      SpeakingEndIsExact(c, calls, k, j, l, next, events);
      start, onset := j, k;
    case Pausing(j, i) =>
      PausingEndIsExact(c, calls, k, j, i, l, next, events);
      start, onset := j, i;
  }

  predicate LongEnough(c: Config, calls: seq<Call>, start: nat, k: nat)
    requires start < |calls| && k < |calls| && calls[start].Heard? && calls[k].Heard?
  {
    SaturatingSub(calls[k].f.at, calls[start].f.at) >= FromMillis(c.minSpeechMs)
  }

  /** Call `k` is a frame that begins a segment, or ends one that has lasted long enough. */
  predicate EventDue(c: Config, calls: seq<Call>, k: nat, p: Place)
    requires k < |calls| && Proper(calls, k, p)
  {
    calls[k].Heard? &&
    match p
    case Out => calls[k].f.voice
    case In(start) => !calls[k].f.voice && Complete(VerdictAt(c, calls, start, k)) && LongEnough(c, calls, start, k)
    case Pausing(start, onset) =>
      && !calls[k].f.voice && !NotDue(c, calls, onset, VerdictAt(c, calls, start, onset).Some?, k)
      && LongEnough(c, calls, start, k)
  }

  /** MAIN: nothing is missed: a call returns an event exactly when one is due. */
  lemma EventsExactlyWhenDue(c: Config, calls: seq<Call>, k: nat)
    requires k < |calls|
    ensures EventsAt(c, calls, k) != [] <==> EventDue(c, calls, k, PlaceAt(c, calls, k))
  {
    StateTellsTheCalls(c, calls, k);
    MinimumStays(c, calls, k);
    var l, next, events := CallMakes(c, calls, k);
    match PlaceAt(c, calls, k)
    case Out =>
    case In(start) => assert calls[k].Heard? ==> l.s.audio + calls[k].f.samples == AudioOf(calls, start, k + 1);
    case Pausing(start, onset) =>
  }
}
