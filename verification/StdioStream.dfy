/**
The plugin's stdout and stderr on their way to the host: two reader tasks, one merged queue, a
forwarding task, the stream of the RPC, and the host's two writers.

The tasks run concurrently; a run is any sequence of enabled steps.
*/
module StdioStream {
  import opened Common

  datatype Channel = Invalid | Stdout | Stderr

  /** The channels a reader can have. */
  type Source = c: Channel | c != Invalid witness Stdout

  datatype Msg = Msg(channel: Source, data: seq<byte>)

  /** One value per source. */
  datatype Both<T> = Both(stdout: T, stderr: T)

  function At<T>(b: Both<T>, c: Source): T { if c == Stdout then b.stdout else b.stderr }

  function Put<T>(b: Both<T>, c: Source, v: T): Both<T> {
    if c == Stdout then b.(stdout := v) else b.(stderr := v)
  }

  const CHUNK := 1024
  const CAPACITY := 128

  // ---------------------------------------------------------------- the system

  datatype Reader = Reading | Sending(chunk: seq<byte>) | Done

  datatype Forwarder = Unstarted | Receiving | Holding(msg: Msg) | Ended

  /**
  The host ignores failed writes.  `Failed`: after the first `at` bytes a write failed, `lost` bytes are
  gone, and nothing was written since.  `Holed`: a byte was written after that.
  */
  datatype Fault = Clean | Failed(at: nat, lost: nat) | Holed(at: nat, lost: nat)

  /** A message of `size` bytes, of which `k` reached the writer, after `written` bytes. */
  function AfterWrite(fault: Fault, written: nat, size: nat, k: nat): Fault
    requires k <= size
  {
    match fault
    case Clean => if k == size then Clean else Failed(written + k, size - k)
    case Failed(at, lost) => if k > 0 then Holed(at, lost) else Failed(at, lost + size)
    case Holed(_, _) => fault
  }

  /** One `stream_stdio` call and the host behind it. */
  datatype Call = Call(queue: seq<Msg>, senderOpen: bool, listening: bool, written: Both<seq<byte>>, faults: Both<Fault>)

  const NOTHING: Both<seq<byte>> := Both([], [])

  datatype System = System(
    read: Both<seq<byte>>,
    unread: Both<seq<byte>>,
    readers: Both<Reader>,
    merged: seq<Msg>,
    mergedOpen: bool,
    forwarder: Forwarder,
    calls: seq<Call>)

  function Start(input: Both<seq<byte>>): System {
    System(NOTHING, input, Both(Reading, Reading), [], true, Unstarted, [])
  }

  datatype Step =
    | Read(c: Source, n: nat)
    | EndOfInput(c: Source)
    | ReadError(c: Source)
    | Send(c: Source)
    | SendFails(c: Source)
    | StreamStdio
    | Receive
    | InputClosed
    | Forward
    | ForwardFails
    | Deliver(i: nat)
    | WriteFails(i: nat, k: nat)
    | HangUp(i: nat)

  predicate Enabled(s: System, step: Step) {
    match step
    case Read(c, n) => At(s.readers, c).Reading? && 1 <= n <= CHUNK && n <= |At(s.unread, c)|
    case EndOfInput(c) => At(s.readers, c).Reading? && At(s.unread, c) == []
    case ReadError(c) => At(s.readers, c).Reading?
    case Send(c) => At(s.readers, c).Sending? && s.mergedOpen && |s.merged| < CAPACITY
    case SendFails(c) => At(s.readers, c).Sending? && !s.mergedOpen
    case StreamStdio => true
    case Receive => s.forwarder.Receiving? && s.merged != []
    case InputClosed => s.forwarder.Receiving? && s.calls != [] && s.merged == [] && s.readers == Both(Done, Done)
    case Forward => s.forwarder.Holding? && s.calls != [] && s.calls[0].listening && |s.calls[0].queue| < CAPACITY
    case ForwardFails => s.forwarder.Holding? && s.calls != [] && !s.calls[0].listening
    case Deliver(i) => i < |s.calls| && s.calls[i].listening && s.calls[i].queue != []
    case WriteFails(i, k) => i < |s.calls| && s.calls[i].listening && s.calls[i].queue != [] && k < |s.calls[i].queue[0].data|
    case HangUp(i) => i < |s.calls| && s.calls[i].listening
  }

  /** The first call moves the merged receiver into its forwarder; a later one finds a receiver without a sender. */
  function NewCall(s: System): System {
    if s.forwarder.Unstarted? then
      s.(forwarder := Receiving, calls := s.calls + [Call([], true, true, NOTHING, Both(Clean, Clean))])
    else s.(calls := s.calls + [Call([], false, true, NOTHING, Both(Clean, Clean))])
  }

  /** The host takes the next message and the first `k` bytes of it reach the writer. */
  function Written(call: Call, k: nat): Call
    requires call.queue != [] && k <= |call.queue[0].data|
  {
    var m := call.queue[0];
    var before := At(call.written, m.channel);
    call.(queue := call.queue[1..],
          written := Put(call.written, m.channel, before + m.data[..k]),
          faults := Put(call.faults, m.channel, AfterWrite(At(call.faults, m.channel), |before|, |m.data|, k)))
  }

  function Next(s: System, step: Step): System
    requires Enabled(s, step)
  {
    match step
    case Read(c, n) =>
      var chunk := At(s.unread, c)[..n];
      s.(read := Put(s.read, c, At(s.read, c) + chunk), unread := Put(s.unread, c, At(s.unread, c)[n..]),
         readers := Put(s.readers, c, Sending(chunk)))
    case EndOfInput(c) => s.(readers := Put(s.readers, c, Done))
    case ReadError(c) => s.(readers := Put(s.readers, c, Done))
    case Send(c) =>
      s.(merged := s.merged + [Msg(c, At(s.readers, c).chunk)], readers := Put(s.readers, c, Reading))
    case SendFails(c) => s.(readers := Put(s.readers, c, Done))
    case StreamStdio => NewCall(s)
    case Receive => s.(forwarder := Holding(s.merged[0]), merged := s.merged[1..])
    case InputClosed =>
      s.(forwarder := Ended, mergedOpen := false, calls := s.calls[0 := s.calls[0].(senderOpen := false)])
    case Forward =>
      var call := s.calls[0];
      s.(forwarder := Receiving, calls := s.calls[0 := call.(queue := call.queue + [s.forwarder.msg])])
    case ForwardFails =>
      s.(forwarder := Ended, mergedOpen := false, merged := [], calls := s.calls[0 := s.calls[0].(senderOpen := false)])
    case Deliver(i) => s.(calls := s.calls[i := Written(s.calls[i], |s.calls[i].queue[0].data|)])
    case WriteFails(i, k) => s.(calls := s.calls[i := Written(s.calls[i], k)])
    case HangUp(i) => s.(calls := s.calls[i := s.calls[i].(listening := false, queue := [])])
  }

  /** Steps that are not enabled do nothing. */
  function Run(s: System, steps: seq<Step>): System
    decreases |steps|
  {
    if steps == [] then s
    else
      var before, last := Run(s, steps[..|steps| - 1]), steps[|steps| - 1];
      if Enabled(before, last) then Next(before, last) else before
  }

  // ---------------------------------------------------------------- what is on its way

  /** The bytes of one channel among the messages. */
  function Bytes(msgs: seq<Msg>, c: Source): seq<byte> {
    if msgs == [] then [] else (if msgs[0].channel == c then msgs[0].data else []) + Bytes(msgs[1..], c)
  }

  lemma {:induction false} BytesOfConcat(a: seq<Msg>, b: seq<Msg>, c: Source)
    ensures Bytes(a + b, c) == Bytes(a, c) + Bytes(b, c)
  {
    if a == [] {
      assert a + b == b;
    } else {
      assert (a + b)[1..] == a[1..] + b && (a + b)[0] == a[0];
      BytesOfConcat(a[1..], b, c);
    }
  }

  function InHand(f: Forwarder): seq<Msg> { if f.Holding? then [f.msg] else [] }

  function InStream(s: System): seq<Msg> { if s.calls == [] then [] else s.calls[0].queue }

  /** Everything between the readers and the first host, oldest first. */
  function InFlight(s: System): seq<Msg> { InStream(s) + InHand(s.forwarder) + s.merged }

  function Pending(r: Reader): seq<byte> { if r.Sending? then r.chunk else [] }

  function WrittenBytes(s: System, c: Source): seq<byte> { if s.calls == [] then [] else At(s.calls[0].written, c) }

  function FaultOf(s: System, c: Source): Fault { if s.calls == [] then Clean else At(s.calls[0].faults, c) }

  predicate Listening(s: System) { s.calls == [] || s.calls[0].listening }

  /** What is on its way, in the order in which it was read. */
  function Rest(s: System, c: Source): seq<byte> { Bytes(InFlight(s), c) + Pending(At(s.readers, c)) }

  /**
  How what was written relates to what was read.  Without a fault bytes are conserved: written and on
  their way make up what was read.  After one there is a gap, and a byte written beyond it is out of place.
  */
  ghost predicate Flows(written: seq<byte>, rest: seq<byte>, read: seq<byte>, listening: bool, fault: Fault) {
    match fault
    case Clean => written <= read && (listening ==> written + rest == read)
    case Failed(at, lost) =>
      lost >= 1 && at + lost <= |read| && written == read[..at] && (listening ==> rest == read[at + lost..])
    case Holed(at, lost) =>
      lost >= 1 && at < |written| && at + lost < |read| && written[..at] == read[..at] && written[at] == read[at + lost]
  }

  ghost predicate FlowInv(s: System, c: Source) {
    Flows(WrittenBytes(s, c), Rest(s, c), At(s.read, c), Listening(s), FaultOf(s, c))
  }

  ghost predicate ControlInv(s: System) {
    && (s.forwarder.Unstarted? <==> s.calls == [])
    && (s.mergedOpen <==> !s.forwarder.Ended?)
    && (s.forwarder.Ended? ==> s.merged == [])
    && (s.forwarder.Ended? && Listening(s) ==> s.readers == Both(Done, Done))
    && (s.calls != [] ==> (s.calls[0].senderOpen <==> !s.forwarder.Ended?))
    && (s.calls != [] && !s.calls[0].listening ==> s.calls[0].queue == [])
    && |s.merged| <= CAPACITY && |InStream(s)| <= CAPACITY
  }

  /** Calls after the first get an empty stream. */
  ghost predicate LaterCallsEmpty(s: System) {
    forall i :: 1 <= i < |s.calls| ==> s.calls[i].queue == [] && s.calls[i].written == NOTHING && !s.calls[i].senderOpen
  }

  ghost predicate Inv(s: System) { FlowInv(s, Stdout) && FlowInv(s, Stderr) && ControlInv(s) && LaterCallsEmpty(s) }

  lemma StepKeepsControl(s: System, step: Step)
    requires ControlInv(s) && LaterCallsEmpty(s) && Enabled(s, step)
    ensures ControlInv(Next(s, step)) && LaterCallsEmpty(Next(s, step))
  {
  }

  lemma MoreRead(written: seq<byte>, rest: seq<byte>, read: seq<byte>, listening: bool, fault: Fault, chunk: seq<byte>)
    requires Flows(written, rest, read, listening, fault)
    ensures Flows(written, rest + chunk, read + chunk, listening, fault)
  {
    assert written + (rest + chunk) == (written + rest) + chunk;
    if fault.Failed? {
      assert (read + chunk)[fault.at + fault.lost..] == read[fault.at + fault.lost..] + chunk;
      assert (read + chunk)[..fault.at] == read[..fault.at];
    } else if fault.Holed? {
      assert (read + chunk)[..fault.at] == read[..fault.at];
    }
  }

  /** The next `data` reaches the host, and `k` bytes of it the writer. */
  lemma WriteCleanly(written: seq<byte>, data: seq<byte>, rest: seq<byte>, read: seq<byte>, k: nat)
    requires k <= |data| && Flows(written, data + rest, read, true, Clean)
    ensures Flows(written + data[..k], rest, read, true, AfterWrite(Clean, |written|, |data|, k))
  {
    assert written + (data + rest) == (written + data) + rest;
    assert data == data[..k] + data[k..];
    if k < |data| {
      assert read[..|written| + k] == written + data[..k];
      assert read[|written| + |data|..] == rest;
    }
  }

  lemma WriteBeyondGap(written: seq<byte>, data: seq<byte>, rest: seq<byte>, read: seq<byte>, k: nat, at: nat, lost: nat)
    requires 0 < k <= |data| && Flows(written, data + rest, read, true, Failed(at, lost))
    ensures Flows(written + data[..k], rest, read, true, Holed(at, lost))
  {
    assert read[at + lost..][0] == (data + rest)[0] == data[0];
    assert (written + data[..k])[at] == data[0];
    assert (written + data[..k])[..at] == written;
  }

  lemma WidenGap(written: seq<byte>, data: seq<byte>, rest: seq<byte>, read: seq<byte>, at: nat, lost: nat)
    requires Flows(written, data + rest, read, true, Failed(at, lost))
    ensures Flows(written, rest, read, true, Failed(at, lost + |data|))
  {
    assert read[at + lost..] == data + rest;
    assert read[at + lost + |data|..] == (data + rest)[|data|..] == rest;
  }

  lemma WriteSome(written: seq<byte>, data: seq<byte>, rest: seq<byte>, read: seq<byte>, k: nat, fault: Fault)
    requires k <= |data| && Flows(written, data + rest, read, true, fault)
    ensures Flows(written + data[..k], rest, read, true, AfterWrite(fault, |written|, |data|, k))
  {
    match fault
    case Clean => WriteCleanly(written, data, rest, read, k);
    case Failed(at, lost) =>
      if k > 0 {
        WriteBeyondGap(written, data, rest, read, k, at, lost);
      } else {
        assert written + data[..0] == written;
        WidenGap(written, data, rest, read, at, lost);
      }
    case Holed(at, _) => assert (written + data[..k])[..at] == written[..at];
  }

  /** A step that writes nothing, fails nothing and reads nothing of channel `c`, and loses nothing of it while the host listens. */
  lemma QuietStepKeepsFlow(s: System, t: System, c: Source)
    requires FlowInv(s, c)
    requires WrittenBytes(t, c) == WrittenBytes(s, c) && At(t.read, c) == At(s.read, c) && FaultOf(t, c) == FaultOf(s, c)
    requires Listening(t) ==> Listening(s) && Rest(t, c) == Rest(s, c)
    ensures FlowInv(t, c)
  {
  }

  lemma MoveLast(a: seq<byte>, b: seq<byte>)
    ensures (a + []) + b == a + b && (a + b) + [] == a + b && a + [] == a
  {
  }

  lemma ReadKeepsFlow(s: System, c: Source, step: Step)
    requires FlowInv(s, c) && step.Read? && Enabled(s, step)
    ensures FlowInv(Next(s, step), c)
  {
    var t := Next(s, step);
    assert InFlight(t) == InFlight(s);
    if step.c == c {
      var chunk := At(t.readers, c).chunk;
      MoreRead(WrittenBytes(s, c), Rest(s, c), At(s.read, c), Listening(s), FaultOf(s, c), chunk);
      assert Pending(At(s.readers, c)) == [];
      MoveLast(Bytes(InFlight(s), c), chunk);
    }
  }

  lemma BytesOfOne(m: Msg, c: Source)
    ensures Bytes([m], c) == if m.channel == c then m.data else []
  {
    assert [m][1..] == [];
  }

  lemma SendKeepsFlow(s: System, c: Source, step: Step)
    requires FlowInv(s, c) && step.Send? && Enabled(s, step)
    ensures FlowInv(Next(s, step), c)
  {
    var t := Next(s, step);
    var m := Msg(step.c, At(s.readers, step.c).chunk);
    assert InFlight(t) == InFlight(s) + [m];
    BytesOfConcat(InFlight(s), [m], c);
    BytesOfOne(m, c);
    MoveLast(Bytes(InFlight(s), c), Pending(At(s.readers, c)));
    assert Rest(t, c) == Rest(s, c);
    QuietStepKeepsFlow(s, t, c);
  }

  /** The host takes the first message off the stream. */
  lemma TakenOff(s: System, t: System, c: Source, m: Msg)
    requires InFlight(s) == [m] + InFlight(t) && t.readers == s.readers
    ensures Rest(s, c) == (if m.channel == c then m.data else []) + Rest(t, c)
  {
    assert InFlight(s)[0] == m && InFlight(s)[1..] == InFlight(t);
    var d := if m.channel == c then m.data else [];
    assert (d + Bytes(InFlight(t), c)) + Pending(At(s.readers, c)) == d + (Bytes(InFlight(t), c) + Pending(At(s.readers, c)));
  }

  /** Both ways of taking a message: wholly written, or only `k` bytes of it. */
  lemma WriteKeepsFlow(s: System, t: System, c: Source, k: nat)
    requires FlowInv(s, c) && s.calls != [] && s.calls[0].listening && s.calls[0].queue != [] && k <= |s.calls[0].queue[0].data|
    requires t == s.(calls := s.calls[0 := Written(s.calls[0], k)])
    ensures FlowInv(t, c)
  {
    var m := s.calls[0].queue[0];
    assert InFlight(s) == [m] + InFlight(t);
    TakenOff(s, t, c, m);
    if m.channel == c {
      WriteSome(WrittenBytes(s, c), m.data, Rest(t, c), At(s.read, c), k, FaultOf(s, c));
    } else {
      assert [] + Rest(t, c) == Rest(t, c);
      QuietStepKeepsFlow(s, t, c);
    }
  }

  lemma OtherStepsKeepRest(s: System, c: Source, step: Step)
    requires ControlInv(s) && Enabled(s, step) && Listening(Next(s, step))
    requires !step.Read? && !step.Send? && !step.Deliver? && !step.WriteFails?
    ensures Listening(s) && Rest(Next(s, step), c) == Rest(s, c)
  {
    assert InFlight(Next(s, step)) == InFlight(s);
  }

  lemma OtherStepsKeepFlow(s: System, c: Source, step: Step)
    requires FlowInv(s, c) && ControlInv(s) && LaterCallsEmpty(s) && Enabled(s, step)
    requires !step.Read? && !step.Send? && !step.Deliver? && !step.WriteFails?
    ensures FlowInv(Next(s, step), c)
  {
    var t := Next(s, step);
    if Listening(t) {
      OtherStepsKeepRest(s, c, step);
    }
    QuietStepKeepsFlow(s, t, c);
  }

  lemma StepKeepsFlow(s: System, c: Source, step: Step)
    requires FlowInv(s, c) && ControlInv(s) && LaterCallsEmpty(s) && Enabled(s, step)
    ensures FlowInv(Next(s, step), c)
  {
    match step {
      case Read(_, _) => ReadKeepsFlow(s, c, step);
      case Send(_) => SendKeepsFlow(s, c, step);
      case Deliver(_) => WriteKeepsFlow(s, Next(s, step), c, |s.calls[0].queue[0].data|);
      case WriteFails(_, k) => WriteKeepsFlow(s, Next(s, step), c, k);
      case _ => OtherStepsKeepFlow(s, c, step);
    }
  }

  lemma StepKeepsInv(s: System, step: Step)
    requires Inv(s) && Enabled(s, step)
    ensures Inv(Next(s, step))
  {
    StepKeepsControl(s, step);
    StepKeepsFlow(s, Stdout, step);
    StepKeepsFlow(s, Stderr, step);
  }

  lemma {:induction false} RunKeepsInv(s: System, steps: seq<Step>)
    requires Inv(s)
    ensures Inv(Run(s, steps))
    decreases |steps|
  {
    if steps != [] {
      var before, last := Run(s, steps[..|steps| - 1]), steps[|steps| - 1];
      RunKeepsInv(s, steps[..|steps| - 1]);
      if Enabled(before, last) {
        StepKeepsInv(before, last);
      }
    }
  }

  lemma StartInv(input: Both<seq<byte>>)
    ensures Inv(Start(input))
  {
    assert InFlight(Start(input)) == [];
  }

  lemma {:induction false} ReadingTakesFromInput(input: Both<seq<byte>>, steps: seq<Step>, c: Source)
    ensures At(Run(Start(input), steps).read, c) + At(Run(Start(input), steps).unread, c) == At(input, c)
    decreases |steps|
  {
    if steps != [] {
      ReadingTakesFromInput(input, steps[..|steps| - 1], c);
      var before, last := Run(Start(input), steps[..|steps| - 1]), steps[|steps| - 1];
      if Enabled(before, last) && last.Read? && last.c == c {
        var r, u := At(before.read, c), At(before.unread, c);
        assert r + u[..last.n] + u[last.n..] == r + u;
      }
    }
  }

  predicate PrefixWritten(input: Both<seq<byte>>, steps: seq<Step>, c: Source) {
    WrittenBytes(Run(Start(input), steps), c) <= At(input, c)
  }

  lemma WrittenOfRead(t: System, c: Source, read: seq<byte>)
    requires FlowInv(t, c) && !FaultOf(t, c).Holed? && read == At(t.read, c)
    ensures WrittenBytes(t, c) <= read
  {
  }

  lemma {:induction false} RunFlows(input: Both<seq<byte>>, steps: seq<Step>, c: Source)
    ensures FlowInv(Run(Start(input), steps), c)
  {
    StartInv(input);
    RunKeepsInv(Start(input), steps);
  }

  /** MAIN: in every interleaving, what the first host writes is a prefix of what that very stream of the plugin printed, unless it wrote on after a failed write. */
  lemma {:induction false} WrittenIsAPrefix(input: Both<seq<byte>>, steps: seq<Step>, c: Source)
    requires !FaultOf(Run(Start(input), steps), c).Holed?
    ensures PrefixWritten(input, steps, c)
  {
    var t := Run(Start(input), steps);
    RunFlows(input, steps, c);
    WrittenOfRead(t, c, At(t.read, c));
    ReadingTakesFromInput(input, steps, c);
  }

  /** MAIN: only the first call ever receives anything. */
  lemma {:induction false} OnlyTheFirstCallReceives(input: Both<seq<byte>>, steps: seq<Step>, i: nat)
    requires 1 <= i < |Run(Start(input), steps).calls|
    ensures Run(Start(input), steps).calls[i].written == NOTHING
    ensures Run(Start(input), steps).calls[i].queue == [] && !Run(Start(input), steps).calls[i].senderOpen
  {
    StartInv(input);
    RunKeepsInv(Start(input), steps);
  }

  /** In every run a read takes up to 1024 bytes, and no queue ever holds more than 128 messages: exactly a full one makes its sender wait. */
  lemma QueuesAreBounded(s: System, c: Source, n: nat)
    requires Inv(s)
    ensures |s.merged| <= 128 && |InStream(s)| <= 128
    ensures At(s.readers, c).Reading? ==> (Enabled(s, Read(c, n)) <==> 1 <= n <= 1024 && n <= |At(s.unread, c)|)
    ensures At(s.readers, c).Sending? && s.mergedOpen ==> (Enabled(s, Send(c)) <==> |s.merged| < 128)
    ensures s.forwarder.Holding? && Listening(s) ==> (Enabled(s, Forward) <==> |InStream(s)| < 128)
  {
  }

  function Connects(steps: seq<Step>): nat {
    if steps == [] then 0 else Connects(steps[..|steps| - 1]) + if steps[|steps| - 1] == StreamStdio then 1 else 0
  }

  /** Every `stream_stdio` call opens a stream. */
  lemma {:induction false} CallsAreCounted(s: System, steps: seq<Step>)
    ensures |Run(s, steps).calls| == |s.calls| + Connects(steps)
    decreases |steps|
  {
    if steps != [] {
      CallsAreCounted(s, steps[..|steps| - 1]);
    }
  }

  lemma StoppedStep(s: System, step: Step, c: Source)
    requires Enabled(s, step)
    ensures At(s.readers, c).Done? ==> At(Next(s, step).readers, c).Done? && At(Next(s, step).read, c) == At(s.read, c)
    ensures step == ReadError(c) || step == EndOfInput(c) || step == SendFails(c) ==> At(Next(s, step).readers, c).Done?
  {
  }

  /** A reader that has met an error, the end of its input or a closed queue reads nothing more. */
  lemma {:induction false} StoppedReadsNothing(s: System, steps: seq<Step>, c: Source)
    requires At(s.readers, c).Done?
    ensures At(Run(s, steps).readers, c).Done? && At(Run(s, steps).read, c) == At(s.read, c)
    decreases |steps|
  {
    if steps != [] {
      var most, last := steps[..|steps| - 1], steps[|steps| - 1];
      StoppedReadsNothing(s, most, c);
      if Enabled(Run(s, most), last) {
        StoppedStep(Run(s, most), last, c);
      }
    }
  }

  predicate HungUp(s: System, i: nat) { i < |s.calls| && !s.calls[i].listening }

  lemma HungUpStep(s: System, step: Step, i: nat)
    requires Enabled(s, step)
    ensures HungUp(s, i) ==> HungUp(Next(s, step), i) && Next(s, step).calls[i].written == s.calls[i].written
    ensures step == HangUp(i) ==> HungUp(Next(s, step), i)
  {
  }

  /** A host that has hung up writes nothing more. */
  lemma {:induction false} HungUpWritesNothing(s: System, steps: seq<Step>, i: nat)
    requires HungUp(s, i)
    ensures HungUp(Run(s, steps), i) && Run(s, steps).calls[i].written == s.calls[i].written
    decreases |steps|
  {
    if steps != [] {
      var most, last := steps[..|steps| - 1], steps[|steps| - 1];
      HungUpWritesNothing(s, most, i);
      if Enabled(Run(s, most), last) {
        HungUpStep(Run(s, most), last, i);
      }
    }
  }

  // ---------------------------------------------------------------- a schedule does not depend on the bytes

  predicate AlikeMsg(a: Msg, b: Msg) { a.channel == b.channel && |a.data| == |b.data| }

  ghost predicate AlikeMsgs(a: seq<Msg>, b: seq<Msg>) {
    |a| == |b| && forall i :: 0 <= i < |a| ==> AlikeMsg(a[i], b[i])
  }

  predicate AlikeBytes(a: Both<seq<byte>>, b: Both<seq<byte>>) { |a.stdout| == |b.stdout| && |a.stderr| == |b.stderr| }

  predicate AlikeReader(a: Reader, b: Reader) {
    match a
    case Reading => b == Reading
    case Sending(chunk) => b.Sending? && |chunk| == |b.chunk|
    case Done => b == Done
  }

  predicate AlikeForwarder(a: Forwarder, b: Forwarder) {
    if a.Holding? then b.Holding? && AlikeMsg(a.msg, b.msg) else a == b
  }

  ghost predicate AlikeCall(a: Call, b: Call) {
    && AlikeMsgs(a.queue, b.queue) && a.senderOpen == b.senderOpen && a.listening == b.listening
    && AlikeBytes(a.written, b.written) && a.faults == b.faults
  }

  /** The same system, but for the values of the bytes. */
  ghost predicate Alike(s: System, t: System) {
    && AlikeBytes(s.read, t.read) && AlikeBytes(s.unread, t.unread)
    && AlikeReader(s.readers.stdout, t.readers.stdout) && AlikeReader(s.readers.stderr, t.readers.stderr)
    && AlikeMsgs(s.merged, t.merged) && s.mergedOpen == t.mergedOpen && AlikeForwarder(s.forwarder, t.forwarder)
    && |s.calls| == |t.calls| && forall i :: 0 <= i < |s.calls| ==> AlikeCall(s.calls[i], t.calls[i])
  }

  lemma AlikeWritten(a: Call, b: Call, k: nat)
    requires AlikeCall(a, b) && a.queue != [] && k <= |a.queue[0].data|
    ensures b.queue != [] && k <= |b.queue[0].data| && AlikeCall(Written(a, k), Written(b, k))
  {
    assert AlikeMsg(a.queue[0], b.queue[0]);
  }

  lemma AlikeEnabled(s: System, t: System, step: Step)
    requires Alike(s, t)
    ensures Enabled(s, step) <==> Enabled(t, step)
  {
    match step {
      case Deliver(i) => if i < |s.calls| { assert AlikeCall(s.calls[i], t.calls[i]); }
      case WriteFails(i, _) =>
        if i < |s.calls| && s.calls[i].queue != [] {
          assert AlikeCall(s.calls[i], t.calls[i]);
          assert AlikeMsg(s.calls[i].queue[0], t.calls[i].queue[0]);
        }
      case HangUp(i) => if i < |s.calls| { assert AlikeCall(s.calls[i], t.calls[i]); }
      case Forward => if s.calls != [] { assert AlikeCall(s.calls[0], t.calls[0]); }
      case ForwardFails => if s.calls != [] { assert AlikeCall(s.calls[0], t.calls[0]); }
      case _ =>
    }
  }

  lemma AlikeUpdate(s: System, t: System, s': System, t': System, i: nat, a: Call, b: Call)
    requires Alike(s, t) && i < |s.calls| && AlikeCall(a, b)
    requires s' == s.(calls := s.calls[i := a]) && t' == t.(calls := t.calls[i := b])
    ensures Alike(s', t')
  {
  }

  lemma AlikeHostStep(s: System, t: System, step: Step)
    requires Alike(s, t) && Enabled(s, step) && Enabled(t, step) && (step.Deliver? || step.WriteFails? || step.HangUp?)
    ensures Alike(Next(s, step), Next(t, step))
  {
    var (s', t') := (Next(s, step), Next(t, step));
    assert AlikeCall(s.calls[step.i], t.calls[step.i]);
    if !step.HangUp? {
      assert AlikeMsg(s.calls[step.i].queue[0], t.calls[step.i].queue[0]);
      AlikeWritten(s.calls[step.i], t.calls[step.i], if step.Deliver? then |s.calls[step.i].queue[0].data| else step.k);
    }
    AlikeUpdate(s, t, s', t', step.i, s'.calls[step.i], t'.calls[step.i]);
  }

  lemma AlikeForwarderStep(s: System, t: System, step: Step)
    requires Alike(s, t) && Enabled(s, step) && Enabled(t, step) && (step.Receive? || step.Forward? || step.InputClosed? || step.ForwardFails?)
    ensures Alike(Next(s, step), Next(t, step))
  {
    if step.Receive? {
      assert AlikeMsg(s.merged[0], t.merged[0]);
    } else if s.calls != [] {
      assert AlikeCall(s.calls[0], t.calls[0]);
    }
  }

  lemma AlikeReadStep(s: System, t: System, step: Step)
    requires Alike(s, t) && Enabled(s, step) && Enabled(t, step) && (step.Read? || step.EndOfInput? || step.ReadError?)
    ensures Alike(Next(s, step), Next(t, step))
  {
  }

  lemma AlikeSendStep(s: System, t: System, step: Step)
    requires Alike(s, t) && Enabled(s, step) && Enabled(t, step) && (step.Send? || step.SendFails? || step.StreamStdio?)
    ensures Alike(Next(s, step), Next(t, step))
  {
  }

  lemma AlikeNext(s: System, t: System, step: Step)
    requires Alike(s, t) && Enabled(s, step) && Enabled(t, step)
    ensures Alike(Next(s, step), Next(t, step))
  {
    if step.Deliver? || step.WriteFails? || step.HangUp? {
      AlikeHostStep(s, t, step);
    } else if step.Receive? || step.Forward? || step.InputClosed? || step.ForwardFails? {
      AlikeForwarderStep(s, t, step);
    } else if step.Read? || step.EndOfInput? || step.ReadError? {
      AlikeReadStep(s, t, step);
    } else {
      AlikeSendStep(s, t, step);
    }
  }

  lemma {:induction false} AlikeRuns(s: System, t: System, steps: seq<Step>)
    requires Alike(s, t)
    ensures Alike(Run(s, steps), Run(t, steps))
    decreases |steps|
  {
    if steps != [] {
      var most, last := steps[..|steps| - 1], steps[|steps| - 1];
      AlikeRuns(s, t, most);
      AlikeEnabled(Run(s, most), Run(t, most), last);
      if Enabled(Run(s, most), last) {
        AlikeNext(Run(s, most), Run(t, most), last);
      }
    }
  }

  /** All zeros, but for a one at the given place. */
  function Marked(n: nat, at: nat): (r: seq<byte>)
    ensures |r| == n
  {
    seq(n, i => if i == at then 1 else 0)
  }

  /** The byte beyond the gap is not the one that belongs there. */
  lemma OutOfPlace(written: seq<byte>, rest: seq<byte>, read: seq<byte>, listening: bool, at: nat, lost: nat, input: seq<byte>)
    requires Flows(written, rest, read, listening, Holed(at, lost))
    requires read <= input && input == Marked(|input|, at)
    ensures !(written <= input)
  {
    assert written[at] == read[at + lost] == input[at + lost] == 0;
    assert input[at] == 1;
  }

  lemma {:induction false} SameFaults(input: Both<seq<byte>>, other: Both<seq<byte>>, steps: seq<Step>, c: Source)
    requires AlikeBytes(input, other)
    ensures FaultOf(Run(Start(input), steps), c) == FaultOf(Run(Start(other), steps), c)
  {
    AlikeRuns(Start(input), Start(other), steps);
    var s, t := Run(Start(input), steps), Run(Start(other), steps);
    assert s.calls != [] ==> AlikeCall(s.calls[0], t.calls[0]);
  }

  lemma {:induction false} HoledRunIsOutOfPlace(input: Both<seq<byte>>, steps: seq<Step>, c: Source, fault: Fault)
    requires fault == FaultOf(Run(Start(input), steps), c) && fault.Holed?
    requires At(input, c) == Marked(|At(input, c)|, fault.at)
    ensures !PrefixWritten(input, steps, c)
  {
    StartInv(input);
    RunKeepsInv(Start(input), steps);
    ReadingTakesFromInput(input, steps, c);
    var t := Run(Start(input), steps);
    assert FlowInv(t, c);
    OutOfPlace(WrittenBytes(t, c), Rest(t, c), At(t.read, c), Listening(t), fault.at, fault.lost, At(input, c));
  }

  /** A schedule that writes on after a failed write shows the hole on some input of the same lengths. */
  lemma HoleShows(input: Both<seq<byte>>, steps: seq<Step>, c: Source) returns (other: Both<seq<byte>>)
    requires FaultOf(Run(Start(input), steps), c).Holed?
    ensures AlikeBytes(input, other) && !PrefixWritten(other, steps, c)
  {
    var fault := FaultOf(Run(Start(input), steps), c);
    other := Put(input, c, Marked(|At(input, c)|, fault.at));
    SameFaults(input, other, steps, c);
    HoledRunIsOutOfPlace(other, steps, c, fault);
  }

  /** MAIN: exactly which schedules keep the prefix whatever the plugin prints: those in which nothing is written after a failed write. */
  lemma {:induction false} PrefixExactlyWithoutHoles(input: Both<seq<byte>>, steps: seq<Step>, c: Source)
    ensures (forall other | AlikeBytes(input, other) :: PrefixWritten(other, steps, c)) <==>
            !FaultOf(Run(Start(input), steps), c).Holed?
  {
    if FaultOf(Run(Start(input), steps), c).Holed? {
      var other := HoleShows(input, steps, c);
    } else {
      forall other | AlikeBytes(input, other) ensures PrefixWritten(other, steps, c) {
        SameFaults(input, other, steps, c);
        WrittenIsAPrefix(other, steps, c);
      }
    }
  }

  // ---------------------------------------------------------------- such a run, from the start

  lemma Extend(start: System, steps: seq<Step>, s: System, step: Step)
    requires Run(start, steps) == s && Enabled(s, step)
    ensures Run(start, steps + [step]) == Next(s, step)
  {
    assert (steps + [step])[..|steps|] == steps;
  }

  /** Between two chunks: what was read and written of stdout, and what is in the first host's stream. */
  function Between(read: seq<byte>, unread: seq<byte>, queue: seq<Msg>, written: seq<byte>, fault: Fault): System {
    System(Both(read, []), Both(unread, []), Both(Reading, Reading), [], true, Receiving,
           [Call(queue, true, true, Both(written, []), Both(fault, Clean))])
  }

  /** One byte travels from the plugin to the first host's stream. */
  lemma Ship(start: System, steps: seq<Step>, read: seq<byte>, x: byte, rest: seq<byte>, written: seq<byte>, fault: Fault)
    returns (more: seq<Step>)
    requires Run(start, steps) == Between(read, [x] + rest, [], written, fault)
    ensures Run(start, more) == Between(read + [x], rest, [Msg(Stdout, [x])], written, fault)
  {
    var s := Run(start, steps);
    assert ([x] + rest)[..1] == [x] && ([x] + rest)[1..] == rest;
    Extend(start, steps, s, Read(Stdout, 1));
    s, more := Next(s, Read(Stdout, 1)), steps + [Read(Stdout, 1)];
    Extend(start, more, s, Send(Stdout));
    s, more := Next(s, Send(Stdout)), more + [Send(Stdout)];
    assert s.merged == [Msg(Stdout, [x])] && s.merged[1..] == [];
    Extend(start, more, s, Receive);
    s, more := Next(s, Receive), more + [Receive];
    Extend(start, more, s, Forward);
    s, more := Next(s, Forward), more + [Forward];
    assert s.calls[0].queue == [Msg(Stdout, [x])];
  }

  /** The first host takes the byte in its stream, and writes it or fails to. */
  lemma Take(start: System, steps: seq<Step>, read: seq<byte>, x: byte, rest: seq<byte>, written: seq<byte>, fault: Fault, fails: bool)
    returns (more: seq<Step>)
    requires Run(start, steps) == Between(read, rest, [Msg(Stdout, [x])], written, fault)
    ensures Run(start, more) ==
      Between(read, rest, [], if fails then written else written + [x], AfterWrite(fault, |written|, 1, if fails then 0 else 1))
  {
    var s, step := Run(start, steps), if fails then WriteFails(0, 0) else Deliver(0);
    Extend(start, steps, s, step);
    more := steps + [step];
    assert [Msg(Stdout, [x])][1..] == [] && [x][..0] == [] && [x][..1] == [x] && written + [] == written;
  }

  lemma Connect(a: byte, b: byte) returns (steps: seq<Step>)
    ensures Run(Start(Both([a, b], [])), steps) == Between([], [a] + [b], [], [], Clean)
  {
    var start := Start(Both([a, b], []));
    Extend(start, [], start, StreamStdio);
    steps := [] + [StreamStdio];
    assert [a, b] == [a] + [b];
  }

  ghost predicate Reaches(a: byte, b: byte, steps: seq<Step>, s: System) { Run(Start(Both([a, b], [])), steps) == s }

  lemma LoseFirst(a: byte, b: byte) returns (steps: seq<Step>)
    ensures Reaches(a, b, steps, Between([a], [b], [], [], Failed(0, 1)))
  {
    var start := Start(Both([a, b], []));
    steps := Connect(a, b);
    steps := Ship(start, steps, [], a, [b], [], Clean);
    assert [] + [a] == [a];
    steps := Take(start, steps, [a], a, [b], [], Clean, true);
  }

  lemma KeepSecond(a: byte, b: byte, lost: seq<Step>) returns (steps: seq<Step>)
    requires Reaches(a, b, lost, Between([a], [b], [], [], Failed(0, 1)))
    ensures Reaches(a, b, steps, Between([a, b], [], [], [b], Holed(0, 1)))
  {
    var start := Start(Both([a, b], []));
    assert [b] + [] == [b];
    steps := Ship(start, lost, [a], b, [], [], Failed(0, 1));
    assert [a] + [b] == [a, b];
    steps := Take(start, steps, [a, b], b, [], [], Failed(0, 1), false);
    assert [] + [b] == [b];
  }

  /** The first byte is lost in a failed write and the second one written: the host has what the plugin did not begin with. */
  lemma FailedWriteLeavesAHole(a: byte, b: byte) returns (steps: seq<Step>)
    requires a != b
    ensures
      var s := Run(Start(Both([a, b], [])), steps);
      WrittenBytes(s, Stdout) == [b] && FaultOf(s, Stdout) == Holed(0, 1) && !PrefixWritten(Both([a, b], []), steps, Stdout)
  {
    steps := LoseFirst(a, b);
    steps := KeepSecond(a, b, steps);
    assert [b][0] != [a, b][0];
  }

  // ---------------------------------------------------------------- draining

  /** Steps the tasks take by themselves; the others are the environment's. */
  predicate Internal(step: Step) {
    step.Read? || step.EndOfInput? || step.Send? || step.SendFails? || step.Receive? || step.InputClosed? ||
    step.Forward? || step.ForwardFails? || step.Deliver?
  }

  function ReaderWork(r: Reader): nat {
    match r case Reading => 1 case Sending(_) => 5 case Done => 0
  }

  function ForwarderWork(f: Forwarder): nat {
    match f case Unstarted => 1 case Receiving => 1 case Holding(_) => 3 case Ended => 0
  }

  /** Messages still queued for any host. */
  function Queued(calls: seq<Call>, n: nat): nat
    requires n <= |calls|
  {
    if n == 0 then 0 else Queued(calls, n - 1) + |calls[n - 1].queue|
  }

  /** A bound on the internal steps still to come. */
  function Work(s: System): nat {
    5 * |s.unread.stdout| + 5 * |s.unread.stderr| + ReaderWork(s.readers.stdout) + ReaderWork(s.readers.stderr) +
    3 * |s.merged| + ForwarderWork(s.forwarder) + Queued(s.calls, |s.calls|)
  }

  lemma {:induction false} QueuedChange(calls: seq<Call>, n: nat, i: nat, call: Call)
    requires n <= |calls| && i < |calls|
    ensures Queued(calls[i := call], n) == Queued(calls, n) + if i < n then |call.queue| - |calls[i].queue| else 0
  {
    if n > 0 {
      QueuedChange(calls, n - 1, i, call);
    }
  }

  lemma ReaderStepsDecreaseWork(s: System, step: Step)
    requires Inv(s) && Enabled(s, step) && (step.Read? || step.EndOfInput? || step.Send? || step.SendFails?)
    ensures Work(Next(s, step)) < Work(s)
  {
    assert Next(s, step).calls == s.calls;
  }

  lemma ReceiveDecreasesWork(s: System)
    requires Enabled(s, Receive)
    ensures Work(Next(s, Receive)) < Work(s)
  {
    assert Next(s, Receive).calls == s.calls;
  }

  lemma ForwarderStepsDecreaseWork(s: System, step: Step)
    requires Inv(s) && Enabled(s, step) && (step.InputClosed? || step.Forward? || step.ForwardFails?)
    ensures Work(Next(s, step)) < Work(s)
  {
    QueuedChange(s.calls, |s.calls|, 0, Next(s, step).calls[0]);
  }

  /** MAIN: every internal step uses up work, whatever the schedule. */
  lemma InternalStepsDecreaseWork(s: System, step: Step)
    requires Inv(s) && Enabled(s, step) && Internal(step)
    ensures Work(Next(s, step)) < Work(s)
  {
    if step.Deliver? {
      QueuedChange(s.calls, |s.calls|, step.i, Next(s, step).calls[step.i]);
    } else if step.Read? || step.EndOfInput? || step.Send? || step.SendFails? {
      ReaderStepsDecreaseWork(s, step);
    } else if step.Receive? {
      ReceiveDecreasesWork(s);
    } else {
      ForwarderStepsDecreaseWork(s, step);
    }
  }

  /** The step a patient scheduler would take next. */
  function Schedule(s: System): Step {
    if InStream(s) != [] then Deliver(0)
    else if s.forwarder.Holding? then Forward
    else if s.merged != [] then Receive
    else if s.readers.stdout.Sending? then Send(Stdout)
    else if s.readers.stderr.Sending? then Send(Stderr)
    else if s.readers.stdout.Reading? then if s.unread.stdout == [] then EndOfInput(Stdout) else Read(Stdout, 1)
    else if s.readers.stderr.Reading? then if s.unread.stderr == [] then EndOfInput(Stderr) else Read(Stderr, 1)
    else InputClosed
  }

  predicate Drained(s: System) { s.calls != [] && s.forwarder.Ended? && InStream(s) == [] }

  /** MAIN: no deadlock: while the first host listens, some task can always move until everything is drained. */
  lemma NoDeadlock(s: System)
    requires Inv(s) && s.calls != [] && s.calls[0].listening && !Drained(s)
    ensures Internal(Schedule(s)) && Enabled(s, Schedule(s))
  {
  }

  /** No read error, no hang-up, no failed write. */
  predicate Calm(step: Step) { !step.ReadError? && !step.HangUp? && !step.WriteFails? }

  ghost predicate CalmInv(s: System) {
    && Listening(s) && FaultOf(s, Stdout) == Clean && FaultOf(s, Stderr) == Clean
    && (s.readers.stdout.Done? ==> s.unread.stdout == [])
    && (s.readers.stderr.Done? ==> s.unread.stderr == [])
  }

  lemma CalmStep(s: System, step: Step)
    requires Inv(s) && CalmInv(s) && Enabled(s, step) && Calm(step)
    ensures CalmInv(Next(s, step))
  {
  }

  lemma {:induction false} CalmRun(input: Both<seq<byte>>, steps: seq<Step>)
    requires forall i :: 0 <= i < |steps| ==> Calm(steps[i])
    ensures Inv(Run(Start(input), steps)) && CalmInv(Run(Start(input), steps))
    decreases |steps|
  {
    StartInv(input);
    RunKeepsInv(Start(input), steps);
    if steps != [] {
      var most := steps[..|steps| - 1];
      CalmRun(input, most);
      if Enabled(Run(Start(input), most), steps[|steps| - 1]) {
        CalmStep(Run(Start(input), most), steps[|steps| - 1]);
      }
    }
  }

  ghost predicate Stuck(s: System) { forall step :: Internal(step) ==> !Enabled(s, step) }

  lemma DrainedIsComplete(s: System, c: Source)
    requires Inv(s) && CalmInv(s) && Drained(s)
    ensures At(s.unread, c) == [] && At(s.calls[0].written, c) == At(s.read, c)
  {
    assert InFlight(s) == [];
    assert FlowInv(s, c);
  }

  /** MAIN: a calm run in which no task can move any more has brought every byte of both streams to the first host, and closed its stream. */
  lemma {:induction false} MaximalRunDeliversEverything(input: Both<seq<byte>>, steps: seq<Step>)
    requires forall i :: 0 <= i < |steps| ==> Calm(steps[i])
    requires Run(Start(input), steps).calls != [] && Stuck(Run(Start(input), steps))
    ensures Run(Start(input), steps).calls[0].written == input && !Run(Start(input), steps).calls[0].senderOpen
  {
    var s := Run(Start(input), steps);
    CalmRun(input, steps);
    if !Drained(s) {
      NoDeadlock(s);
    }
    DrainedIsComplete(s, Stdout);
    DrainedIsComplete(s, Stderr);
    ReadingTakesFromInput(input, steps, Stdout);
    ReadingTakesFromInput(input, steps, Stderr);
    assert s.read.stdout + [] == s.read.stdout && s.read.stderr + [] == s.read.stderr;
  }

  // ---------------------------------------------------------------- the tasks themselves

  /** The bytes of the first `n` chunks. */
  function Joined(msgs: seq<Msg>, n: nat): seq<byte>
    requires n <= |msgs|
  {
    if n == 0 then [] else Joined(msgs, n - 1) + msgs[n - 1].data
  }

  lemma {:induction false} JoinedPrefix(a: seq<Msg>, b: seq<Msg>, n: nat)
    requires n <= |a| && a <= b
    ensures Joined(a, n) == Joined(b, n)
  {
    if n > 0 {
      JoinedPrefix(a, b, n - 1);
    }
  }

  /** The bytes that the first `n` reads can yield together. */
  function Total(sizes: seq<nat>, n: nat): nat
    requires n <= |sizes|
  {
    if n == 0 then 0 else Total(sizes, n - 1) + sizes[n - 1]
  }

  /** How far the first `n` reads get in an input of that length. */
  function Reach(sizes: seq<nat>, length: nat, n: nat): (at: nat)
    requires n <= |sizes|
    ensures at <= length
  {
    MinNat(Total(sizes, n), length)
  }

  /** The reads, from the i-th on, that yield something: up to the first that fails or finds the input at its end. */
  function Yielding(sizes: seq<nat>, length: nat, i: nat): (n: nat)
    requires i <= |sizes|
    ensures i <= n <= |sizes|
    decreases |sizes| - i
  {
    if i == |sizes| || sizes[i] == 0 || Total(sizes, i) >= length then i else Yielding(sizes, length, i + 1)
  }

  lemma {:induction false} YieldingOn(sizes: seq<nat>, length: nat, i: nat, k: nat)
    requires i <= k <= |sizes| && k <= Yielding(sizes, length, i)
    ensures Yielding(sizes, length, i) == Yielding(sizes, length, k)
    decreases k - i
  {
    if i < k {
      YieldingOn(sizes, length, i + 1, k);
    }
  }

  /** The i-th message is what the i-th read yields. */
  ghost predicate SentByRead(input: seq<byte>, sizes: seq<nat>, channel: Source, sent: seq<Msg>, i: nat)
    requires i < |sent| <= |sizes|
  {
    var (from, to) := (Reach(sizes, |input|, i), Reach(sizes, |input|, i + 1));
    from < to <= from + sizes[i] && sent[i] == Msg(channel, input[from..to])
  }

  lemma ReachNext(sizes: seq<nat>, length: nat, i: nat, n: nat)
    requires i < |sizes| && n == MinNat(sizes[i], length - Reach(sizes, length, i))
    ensures Reach(sizes, length, i + 1) == Reach(sizes, length, i) + n
    ensures n == 0 <==> sizes[i] == 0 || Total(sizes, i) >= length
  {
  }

  /** The first `n` reads have been sent, each as one message. */
  ghost predicate SentSoFar(input: seq<byte>, sizes: seq<nat>, channel: Source, sent: seq<Msg>, n: nat) {
    && |sent| == n <= |sizes|
    && (forall i :: 0 <= i < n ==> SentByRead(input, sizes, channel, sent, i))
    && Joined(sent, n) == input[..Reach(sizes, |input|, n)]
  }

  lemma SentOneMore(input: seq<byte>, sizes: seq<nat>, channel: Source, sent: seq<Msg>, data: seq<byte>, later: seq<Msg>)
    requires SentSoFar(input, sizes, channel, sent, |sent|) && |sent| < |sizes| && later == sent + [Msg(channel, data)]
    requires
      var (from, to) := (Reach(sizes, |input|, |sent|), Reach(sizes, |input|, |sent| + 1));
      from < to && data == input[from..to]
    ensures SentSoFar(input, sizes, channel, later, |later|)
  {
    JoinedPrefix(sent, later, |sent|);
    forall i | 0 <= i < |later| ensures SentByRead(input, sizes, channel, later, i) {
      assert i < |sent| ==> SentByRead(input, sizes, channel, sent, i);
    }
    var (from, to) := (Reach(sizes, |input|, |sent|), Reach(sizes, |input|, |sent| + 1));
    assert input[..from] + input[from..to] == input[..to];
  }

  lemma NothingSent(input: seq<byte>, sizes: seq<nat>, channel: Source)
    ensures SentSoFar(input, sizes, channel, [], 0)
  {
  }

  /**
  `read_into_channel`: the same buffer is filled again and again, and only the part just filled is sent.
  `sizes` says how many bytes each read yields, until the input ends or a read fails; `room` how many
  messages the channel takes before its receiver is gone.  The task goes on exactly until the first read
  that yields nothing or the first message that the channel does not take.
  */
  method ReadIntoChannel(input: seq<byte>, sizes: seq<nat>, room: nat, channel: Source) returns (sent: seq<Msg>, taken: nat)
    requires forall i :: 0 <= i < |sizes| ==> sizes[i] <= CHUNK
    ensures |sent| == MinNat(room, Yielding(sizes, |input|, 0))
    ensures SentSoFar(input, sizes, channel, sent, |sent|)
    ensures taken == Reach(sizes, |input|, MinNat(room + 1, Yielding(sizes, |input|, 0)))
  {
    var buf := new byte[CHUNK](_ => 0);
    sent, taken := [], 0;
    NothingSent(input, sizes, channel);
    for round := 0 to |sizes|
      invariant |sent| == round <= room && round <= Yielding(sizes, |input|, 0) && taken == Reach(sizes, |input|, round)
      invariant SentSoFar(input, sizes, channel, sent, |sent|)
    {
      YieldingOn(sizes, |input|, 0, round);
      var n := MinNat(sizes[round], |input| - taken);
      for i := 0 to n
        invariant buf[..i] == input[taken..taken + i]
      {
        buf[i] := input[taken + i];
      }
      ReachNext(sizes, |input|, round, n);
      if n == 0 {
        break;
      }
      ghost var before := sent;
      taken := taken + n;
      if |sent| == room {
        break;
      }
      sent := sent + [Msg(channel, buf[..n])];
      SentOneMore(input, sizes, channel, before, buf[..n], sent);
    }
  }

  /** When the reads suffice and none fails, all of the input is reached. */
  lemma {:induction false} YieldingReachesAll(sizes: seq<nat>, length: nat, i: nat)
    requires i <= |sizes| && Total(sizes, |sizes|) >= length && forall k :: i <= k < |sizes| ==> sizes[k] > 0
    ensures Reach(sizes, length, Yielding(sizes, length, i)) == length
    decreases |sizes| - i
  {
    if i < |sizes| && Total(sizes, i) < length {
      YieldingReachesAll(sizes, length, i + 1);
    }
  }

  /** MAIN: if no read fails before the end of the input and there is room for all reads, all of the input is sent, in order. */
  lemma AllIsSent(input: seq<byte>, sizes: seq<nat>, channel: Source, room: nat, sent: seq<Msg>)
    requires Total(sizes, |sizes|) >= |input| && forall k :: 0 <= k < |sizes| ==> sizes[k] > 0
    requires SentSoFar(input, sizes, channel, sent, MinNat(room, Yielding(sizes, |input|, 0))) && room >= Yielding(sizes, |input|, 0)
    ensures Joined(sent, |sent|) == input
  {
    YieldingReachesAll(sizes, |input|, 0);
    assert input[..|input|] == input;
  }

  /** The wire carries the channel as a number; unknown numbers read as 0. */
  datatype StdioData = StdioData(channel: int, data: seq<byte>)

  function ToI32(c: Channel): int {
    match c case Invalid => 0 case Stdout => 1 case Stderr => 2
  }

  function FromI32(n: int): Channel { if n == 1 then Stdout else if n == 2 then Stderr else Invalid }

  /** The two numbers in use, and nothing else, stand for a channel of output. */
  lemma NumbersOnTheWire(n: int, c: Channel)
    ensures FromI32(n) == Stdout <==> n == 1
    ensures FromI32(n) == Stderr <==> n == 2
    ensures FromI32(ToI32(c)) == c
  {
  }

  function Encoded(msgs: seq<Msg>): (r: seq<StdioData>)
    ensures |r| == |msgs|
  {
    seq(|msgs|, i requires 0 <= i < |msgs| => StdioData(ToI32(msgs[i].channel), msgs[i].data))
  }

  /** What the messages carry for one channel. */
  function Carried(stream: seq<StdioData>, n: nat, c: Source): seq<byte>
    requires n <= |stream|
  {
    if n == 0 then [] else Carried(stream, n - 1, c) + if FromI32(stream[n - 1].channel) == c then stream[n - 1].data else []
  }

  /** What is encoded for a channel comes back for that channel. */
  lemma {:induction false} CarriedIsBytes(msgs: seq<Msg>, n: nat, c: Source)
    requires n <= |msgs|
    ensures Carried(Encoded(msgs), n, c) == Bytes(msgs[..n], c)
  {
    if n > 0 {
      CarriedIsBytes(msgs, n - 1, c);
      assert msgs[..n] == msgs[..n - 1] + [msgs[n - 1]];
      BytesOfConcat(msgs[..n - 1], [msgs[n - 1]], c);
      BytesOfOne(msgs[n - 1], c);
    }
  }

  class GRPCStdioClient {
    var stdout: seq<byte>
    var stderr: seq<byte>

    constructor ()
      ensures stdout == [] && stderr == []
    {
      stdout, stderr := [], [];
    }

    /** `process_stream`, with writers that do not fail. */
    method ProcessStream(stream: seq<StdioData>)
      modifies this
      ensures stdout == old(stdout) + Carried(stream, |stream|, Stdout)
      ensures stderr == old(stderr) + Carried(stream, |stream|, Stderr)
    {
      for i := 0 to |stream|
        invariant stdout == old(stdout) + Carried(stream, i, Stdout)
        invariant stderr == old(stderr) + Carried(stream, i, Stderr)
      {
        var channel := FromI32(stream[i].channel);
        match channel {
          case Stdout => stdout := stdout + stream[i].data;
          case Stderr => stderr := stderr + stream[i].data;
          case Invalid =>
        }
      }
    }
  }

  datatype Receiver = Real | Dummy

  class GRPCStdioServer {
    var mergedRx: Receiver

    constructor ()
      ensures mergedRx == Real
    {
      mergedRx := Real;
    }

    /** `stream_stdio` hands out whatever receiver is there and leaves a dummy. */
    method TakeReceiver() returns (realRx: Receiver)
      modifies this
      ensures realRx == old(mergedRx) && mergedRx == Dummy
    {
      realRx := mergedRx;
      mergedRx := Dummy;
    }
  }
}
