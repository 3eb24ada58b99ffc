/**
The connection brokers: tables of one-shot senders, keyed by id, and the dial/ACK handshake that
routes an inbound stream to the receiver waiting under its id.

Each action is one atomic step between two suspension points, so any interleaving of the
asynchronous calls is a sequence of actions; time-outs and transport failures are actions too.
A disabled action changes nothing.
*/
module Brokers {
  import opened Common

  /** The receiving end of a one-shot channel, as its owner sees it. */
  datatype Receiver = Waiting | Got(stream: nat) | TimedOut | Cancelled

  /** One call of `accept` (or `register_pending`); its index is its token. */
  datatype Registration = Registration(id: u32, receiver: Receiver)

  /**
  An inbound stream in the hands of its handler: id not yet looked up; sender taken out of the
  table; ACK written; handed to the sender; or refused because nobody was registered.
  */
  datatype Phase = Opened | Routed(token: nat) | Acked(token: nat) | Handed(token: nat) | Refused

  datatype Dialer = Dialing | Connected | Failed

  /** One call of `dial`, at both ends. */
  datatype Stream = Stream(id: u32, phase: Phase, dialer: Dialer)

  datatype Broker = Broker(nextId: u32, pending: map<u32, nat>, regs: seq<Registration>, streams: seq<Stream>)

  const NEW_BROKER := Broker(1, map[], [], [])

  datatype Action =
    | TakeId
    | Accept(id: u32)
    | Dial(id: u32)
    | Route(stream: nat)
    | Ack(stream: nat)
    | Hand(stream: nat)
    | TimeOut(token: nat)
    | FinishDial(stream: nat)
    | BreakDial(stream: nat)
    | Close

  /** Dropping a sender wakes a receiver that is still waiting. */
  function Dropped(r: Registration): Registration {
    if r.receiver == Waiting then r.(receiver := Cancelled) else r
  }

  predicate InTable(b: Broker, t: nat) {
    t < |b.regs| && b.regs[t].id in b.pending && b.pending[b.regs[t].id] == t
  }

  function SetPhase(b: Broker, s: nat, phase: Phase): Broker
    requires s < |b.streams|
  {
    b.(streams := b.streams[s := b.streams[s].(phase := phase)])
  }

  function DoAccept(b: Broker, id: u32): Broker {
    var regs :=
      if id in b.pending && b.pending[id] < |b.regs|
      then b.regs[b.pending[id] := Dropped(b.regs[b.pending[id]])] else b.regs;
    b.(regs := regs + [Registration(id, Waiting)], pending := b.pending[id := |b.regs|])
  }

  function DoRoute(b: Broker, s: nat): Broker
    requires s < |b.streams|
  {
    var id := b.streams[s].id;
    if id in b.pending then SetPhase(b, s, Routed(b.pending[id])).(pending := b.pending - {id})
    else SetPhase(b, s, Refused)
  }

  function DoHand(b: Broker, s: nat): Broker
    requires s < |b.streams| && b.streams[s].phase.Acked?
  {
    var t := b.streams[s].phase.token;
    var handed := SetPhase(b, s, Handed(t));
    if t < |b.regs| && b.regs[t].receiver == Waiting
    then handed.(regs := b.regs[t := b.regs[t].(receiver := Got(s))]) else handed
  }

  function DoClose(b: Broker): Broker {
    b.(pending := map[],
       regs := seq(|b.regs|, t requires 0 <= t < |b.regs| => if InTable(b, t) then Dropped(b.regs[t]) else b.regs[t]))
  }

  /** The dialer reads the ACK, which is its own id, or the end of a refused stream. */
  function DoFinishDial(b: Broker, s: nat): Broker
    requires s < |b.streams|
  {
    var st := b.streams[s];
    if st.dialer != Dialing then b
    else if st.phase.Acked? || st.phase.Handed? then b.(streams := b.streams[s := st.(dialer := Connected)])
    else if st.phase == Refused then b.(streams := b.streams[s := st.(dialer := Failed)])
    else b
  }

  function Do(b: Broker, a: Action): Broker {
    match a
    case TakeId => b.(nextId := (b.nextId + 1) % TWO_TO_THE_32)
    case Accept(id) => DoAccept(b, id)
    case Dial(id) => b.(streams := b.streams + [Stream(id, Opened, Dialing)])
    case Route(s) => if s < |b.streams| && b.streams[s].phase == Opened then DoRoute(b, s) else b
    case Ack(s) =>
      if s < |b.streams| && b.streams[s].phase.Routed? then SetPhase(b, s, Acked(b.streams[s].phase.token)) else b
    case Hand(s) => if s < |b.streams| && b.streams[s].phase.Acked? then DoHand(b, s) else b
    case TimeOut(t) =>
      if t < |b.regs| && b.regs[t].receiver == Waiting
      then b.(regs := b.regs[t := b.regs[t].(receiver := TimedOut)]) else b
    case FinishDial(s) => if s < |b.streams| then DoFinishDial(b, s) else b
    case BreakDial(s) =>
      if s < |b.streams| && b.streams[s].dialer == Dialing
      then b.(streams := b.streams[s := b.streams[s].(dialer := Failed)]) else b
    case Close => DoClose(b)
  }

  function Run(b: Broker, acts: seq<Action>): Broker
    decreases |acts|
  {
    if acts == [] then b else Run(Do(b, acts[0]), acts[1..])
  }

  // ---------------------------------------------------------------- what every step keeps

  /** The handler of a stream holds, or has used, the sender of registration `t`. */
  predicate Holds(p: Phase, t: nat) { (p.Routed? || p.Acked? || p.Handed?) && p.token == t }

  predicate InHand(p: Phase, t: nat) { (p.Routed? || p.Acked?) && p.token == t }

  /** Whatever lies in the table is a registration of that id that has not been resolved by its sender. */
  ghost predicate TableInv(b: Broker) {
    forall id <- b.pending ::
      && b.pending[id] < |b.regs| && b.regs[b.pending[id]].id == id
      && (b.regs[b.pending[id]].receiver == Waiting || b.regs[b.pending[id]].receiver == TimedOut)
  }

  /** A sender is in one place at most, and a handler only holds one of its own stream's id. */
  ghost predicate StreamInv(b: Broker, s: nat)
    requires s < |b.streams|
  {
    var st := b.streams[s];
    && (st.phase.Routed? || st.phase.Acked? || st.phase.Handed? ==>
          var t := st.phase.token;
          && t < |b.regs| && b.regs[t].id == st.id && !InTable(b, t)
          && match b.regs[t].receiver
             case Waiting => !st.phase.Handed?
             case TimedOut => true
             case Got(from) => st.phase.Handed? && from == s
             case Cancelled => false)
    && (st.dialer == Connected ==> st.phase.Acked? || st.phase.Handed?)
  }

  ghost predicate Exclusive(b: Broker) {
    forall s, s' | 0 <= s < s' < |b.streams| ::
      b.streams[s].phase.Opened? || b.streams[s].phase.Refused?
      || !Holds(b.streams[s'].phase, b.streams[s].phase.token)
  }

  /** A receiver that got a stream got it from that stream's handler; one still waiting can still be served. */
  ghost predicate ReceiverInv(b: Broker, t: nat)
    requires t < |b.regs|
  {
    match b.regs[t].receiver
    case Got(s) => s < |b.streams| && b.streams[s].phase == Handed(t)
    case Waiting => InTable(b, t) || exists s :: 0 <= s < |b.streams| && InHand(b.streams[s].phase, t)
    case _ => true
  }

  ghost predicate Inv(b: Broker) {
    && TableInv(b) && Exclusive(b)
    && (forall s :: 0 <= s < |b.streams| ==> StreamInv(b, s))
    && (forall t :: 0 <= t < |b.regs| ==> ReceiverInv(b, t))
  }

  lemma AcceptKeepsInv(b: Broker, id: u32)
    requires Inv(b)
    ensures Inv(DoAccept(b, id))
  {
    var n := DoAccept(b, id);
    forall t | 0 <= t < |n.regs|
      ensures ReceiverInv(n, t)
    {
      if t < |b.regs| {
        assert ReceiverInv(b, t);
        if n.regs[t].receiver == Waiting && !InTable(b, t) {
          var s :| 0 <= s < |b.streams| && InHand(b.streams[s].phase, t);
          assert InHand(n.streams[s].phase, t);
        }
      }
    }
    forall s | 0 <= s < |n.streams|
      ensures StreamInv(n, s)
    {
      assert StreamInv(b, s);
    }
    assert TableInv(n);
    assert Exclusive(n);
  }

  lemma InTableIsFree(b: Broker, t: nat)
    requires Inv(b) && InTable(b, t)
    ensures forall s :: 0 <= s < |b.streams| ==> !Holds(b.streams[s].phase, t)
  {
    forall s | 0 <= s < |b.streams|
      ensures !Holds(b.streams[s].phase, t)
    {
      assert StreamInv(b, s);
    }
  }

  lemma RouteKeepsInv(b: Broker, s: nat)
    requires Inv(b) && s < |b.streams| && b.streams[s].phase == Opened
    ensures Inv(DoRoute(b, s))
  {
    var n := DoRoute(b, s);
    var id := b.streams[s].id;
    assert StreamInv(b, s);
    if id in b.pending {
      InTableIsFree(b, b.pending[id]);
    }
    forall t | 0 <= t < |n.regs|
      ensures ReceiverInv(n, t)
    {
      assert ReceiverInv(b, t);
      if InTable(b, t) && b.regs[t].id == id {
        assert InHand(n.streams[s].phase, t);
      } else if b.regs[t].receiver == Waiting && !InTable(b, t) {
        var s' :| 0 <= s' < |b.streams| && InHand(b.streams[s'].phase, t);
        assert InHand(n.streams[s'].phase, t);
      }
    }
    forall s' | 0 <= s' < |n.streams|
      ensures StreamInv(n, s')
    {
      assert StreamInv(b, s');
    }
  }

  /** A step of one stream's handler or dialer that leaves the senders where they are. */
  lemma StreamStepKeepsInv(b: Broker, s: nat, st: Stream)
    requires Inv(b) && s < |b.streams| && st.id == b.streams[s].id
    requires
      || (b.streams[s].phase.Routed? && st == b.streams[s].(phase := Acked(b.streams[s].phase.token)))
      || (st == b.streams[s].(dialer := Failed) && b.streams[s].dialer == Dialing)
      || (st == b.streams[s].(dialer := Connected) && (st.phase.Acked? || st.phase.Handed?))
    ensures Inv(b.(streams := b.streams[s := st]))
  {
    var n := b.(streams := b.streams[s := st]);
    assert StreamInv(b, s);
    forall t | 0 <= t < |n.regs|
      ensures ReceiverInv(n, t)
    {
      assert ReceiverInv(b, t);
      if b.regs[t].receiver == Waiting && !InTable(b, t) {
        var s' :| 0 <= s' < |b.streams| && InHand(b.streams[s'].phase, t);
        assert InHand(n.streams[s'].phase, t);
      }
    }
    forall s' | 0 <= s' < |n.streams|
      ensures StreamInv(n, s')
    {
      assert StreamInv(b, s');
    }
  }

  lemma HandKeepsInv(b: Broker, s: nat)
    requires Inv(b) && s < |b.streams| && b.streams[s].phase.Acked?
    ensures Inv(DoHand(b, s))
  {
    var n := DoHand(b, s);
    var mine := b.streams[s].phase.token;
    assert StreamInv(b, s);
    forall t | 0 <= t < |n.regs|
      ensures ReceiverInv(n, t)
    {
      assert ReceiverInv(b, t);
      if t != mine && b.regs[t].receiver == Waiting && !InTable(b, t) {
        var s' :| 0 <= s' < |b.streams| && InHand(b.streams[s'].phase, t);
        assert InHand(n.streams[s'].phase, t);
      }
    }
    forall s' | 0 <= s' < |n.streams|
      ensures StreamInv(n, s')
    {
      assert StreamInv(b, s');
      assert s' != s ==> !Holds(b.streams[s'].phase, mine);
    }
  }

  lemma TimeOutKeepsInv(b: Broker, t: nat)
    requires Inv(b) && t < |b.regs| && b.regs[t].receiver == Waiting
    ensures Inv(b.(regs := b.regs[t := b.regs[t].(receiver := TimedOut)]))
  {
    var n := b.(regs := b.regs[t := b.regs[t].(receiver := TimedOut)]);
    forall t' | 0 <= t' < |n.regs|
      ensures ReceiverInv(n, t')
    {
      assert ReceiverInv(b, t');
      if t' != t && b.regs[t'].receiver == Waiting && !InTable(b, t') {
        var s :| 0 <= s < |b.streams| && InHand(b.streams[s].phase, t');
        assert InHand(n.streams[s].phase, t');
      }
    }
    forall s | 0 <= s < |n.streams|
      ensures StreamInv(n, s)
    {
      assert StreamInv(b, s);
    }
  }

  lemma DialKeepsInv(b: Broker, id: u32)
    requires Inv(b)
    ensures Inv(b.(streams := b.streams + [Stream(id, Opened, Dialing)]))
  {
    var n := b.(streams := b.streams + [Stream(id, Opened, Dialing)]);
    forall t | 0 <= t < |n.regs|
      ensures ReceiverInv(n, t)
    {
      assert ReceiverInv(b, t);
      if b.regs[t].receiver == Waiting && !InTable(b, t) {
        var s :| 0 <= s < |b.streams| && InHand(b.streams[s].phase, t);
        assert InHand(n.streams[s].phase, t);
      }
    }
    forall s | 0 <= s < |n.streams|
      ensures StreamInv(n, s)
    {
      if s < |b.streams| {
        assert StreamInv(b, s);
      }
    }
  }

  /**
  MAIN: closing empties the table and cancels every receiver still waiting on it.  The receivers
  that go on waiting are exactly those whose sender a handler has already taken out.
  */
  lemma CloseCancelsTheTable(b: Broker)
    requires Inv(b)
    ensures
      var n := DoClose(b);
      && Inv(n) && n.pending == map[] && |n.regs| == |b.regs| && n.streams == b.streams
      && forall t :: 0 <= t < |b.regs| ==>
           && (b.regs[t].receiver == Waiting && InTable(b, t) ==> n.regs[t].receiver == Cancelled)
           && (b.regs[t].receiver != Waiting || !InTable(b, t) ==> n.regs[t] == b.regs[t])
           && (n.regs[t].receiver == Waiting ==> exists s :: 0 <= s < |b.streams| && InHand(b.streams[s].phase, t))
  {
    var n := DoClose(b);
    forall t | 0 <= t < |n.regs|
      ensures ReceiverInv(n, t)
      ensures n.regs[t].receiver == Waiting ==> exists s :: 0 <= s < |b.streams| && InHand(b.streams[s].phase, t)
    {
      assert ReceiverInv(b, t);
    }
    forall s | 0 <= s < |n.streams|
      ensures StreamInv(n, s)
    {
      assert StreamInv(b, s);
    }
  }

  lemma SameTables(b: Broker, n: Broker)
    requires Inv(b) && n == b.(nextId := n.nextId)
    ensures Inv(n)
  {
    forall t | 0 <= t < |n.regs|
      ensures ReceiverInv(n, t)
    {
      assert ReceiverInv(b, t);
    }
    forall s | 0 <= s < |n.streams|
      ensures StreamInv(n, s)
    {
      assert StreamInv(b, s);
    }
  }

  lemma StepKeepsInv(b: Broker, a: Action)
    requires Inv(b)
    ensures Inv(Do(b, a))
  {
    match a {
      case TakeId => SameTables(b, Do(b, a));
      case Accept(id) => AcceptKeepsInv(b, id);
      case Dial(id) => DialKeepsInv(b, id);
      case Route(s) =>
        if s < |b.streams| && b.streams[s].phase == Opened {
          RouteKeepsInv(b, s);
        }
      case Ack(s) =>
        if s < |b.streams| && b.streams[s].phase.Routed? {
          StreamStepKeepsInv(b, s, b.streams[s].(phase := Acked(b.streams[s].phase.token)));
        }
      case Hand(s) =>
        if s < |b.streams| && b.streams[s].phase.Acked? {
          HandKeepsInv(b, s);
        }
      case TimeOut(t) =>
        if t < |b.regs| && b.regs[t].receiver == Waiting {
          TimeOutKeepsInv(b, t);
        }
      case FinishDial(s) =>
        if s < |b.streams| && b.streams[s].dialer == Dialing {
          if b.streams[s].phase.Acked? || b.streams[s].phase.Handed? {
            StreamStepKeepsInv(b, s, b.streams[s].(dialer := Connected));
          } else if b.streams[s].phase == Refused {
            StreamStepKeepsInv(b, s, b.streams[s].(dialer := Failed));
          }
        }
      case BreakDial(s) =>
        if s < |b.streams| && b.streams[s].dialer == Dialing {
          StreamStepKeepsInv(b, s, b.streams[s].(dialer := Failed));
        }
      case Close => CloseCancelsTheTable(b);
    }
  }

  // ---------------------------------------------------------------- whole runs

  /** MAIN: the invariant holds after every interleaving. */
  lemma {:induction false} RunKeepsInv(b: Broker, acts: seq<Action>)
    requires Inv(b)
    ensures Inv(Run(b, acts))
    decreases |acts|
  {
    if acts != [] {
      StepKeepsInv(b, acts[0]);
      RunKeepsInv(Do(b, acts[0]), acts[1..]);
    }
  }

  lemma NewBrokerInv()
    ensures Inv(NEW_BROKER)
  {
  }

  lemma StepSettlesOnce(b: Broker, a: Action, t: nat)
    requires Inv(b) && t < |b.regs|
    ensures
      var n := Do(b, a);
      t < |n.regs| && n.regs[t].id == b.regs[t].id && (b.regs[t].receiver != Waiting ==> n.regs[t] == b.regs[t])
  {
  }

  /** MAIN: a registration is resolved at most once; whatever comes after, its outcome stands. */
  lemma {:induction false} SettledOnce(b: Broker, acts: seq<Action>, t: nat)
    requires Inv(b) && t < |b.regs|
    ensures
      var n := Run(b, acts);
      t < |n.regs| && n.regs[t].id == b.regs[t].id && (b.regs[t].receiver != Waiting ==> n.regs[t] == b.regs[t])
    decreases |acts|
  {
    if acts != [] {
      StepKeepsInv(b, acts[0]);
      StepSettlesOnce(b, acts[0], t);
      SettledOnce(Do(b, acts[0]), acts[1..], t);
    }
  }

  /** MAIN: a receiver only ever gets a stream that carries its own id, and no stream is got twice. */
  lemma OwnStreamOnly(b: Broker, t: nat, t': nat)
    requires Inv(b) && t < |b.regs| && t' < |b.regs| && b.regs[t].receiver.Got?
    ensures
      var s := b.regs[t].receiver.stream;
      && s < |b.streams| && b.streams[s].id == b.regs[t].id
      && (b.regs[t'].receiver == Got(s) ==> t == t')
  {
    assert ReceiverInv(b, t) && ReceiverInv(b, t');
    assert StreamInv(b, b.regs[t].receiver.stream);
  }

  function Connections(b: Broker, id: u32): set<nat> {
    set s: nat | s < |b.streams| && b.streams[s].id == id && b.streams[s].dialer == Connected
  }

  function Registrations(b: Broker, id: u32): set<nat> {
    set t: nat | t < |b.regs| && b.regs[t].id == id
  }

  /** A finite set is no larger than one it can be mapped into without collisions. */
  lemma {:induction false} NoLarger(a: set<nat>, f: map<nat, nat>, b: set<nat>)
    requires forall x <- a :: x in f && f[x] in b
    requires forall x, y :: x in a && y in a && x != y ==> f[x] != f[y]
    ensures |a| <= |b|
    decreases a
  {
    if a != {} {
      var x :| x in a;
      NoLarger(a - {x}, f, b - {f[x]});
    }
  }

  /** MAIN: each registration yields at most one successful dial, so an id has no more of the latter than of the former. */
  lemma NoMoreConnectionsThanRegistrations(b: Broker, id: u32)
    requires Inv(b)
    ensures |Connections(b, id)| <= |Registrations(b, id)|
  {
    var f := map s <- Connections(b, id) ::
      if b.streams[s].phase.Acked? || b.streams[s].phase.Handed? then b.streams[s].phase.token else 0;
    forall s <- Connections(b, id)
      ensures f[s] in Registrations(b, id)
    {
      assert StreamInv(b, s);
    }
    forall s, s' | s in Connections(b, id) && s' in Connections(b, id) && s != s'
      ensures f[s] != f[s']
    {
      assert StreamInv(b, s) && StreamInv(b, s');
      assert Holds(b.streams[s].phase, f[s]) && Holds(b.streams[s'].phase, f[s']);
    }
    NoLarger(Connections(b, id), f, Registrations(b, id));
  }

  /** MAIN: when a handler is done, its stream was received unless the receiver had timed out: the ACK, already written, does not tell. */
  lemma HandedUnlessTimedOut(b: Broker, s: nat)
    requires Inv(b) && s < |b.streams| && b.streams[s].phase.Handed?
    ensures
      var t := b.streams[s].phase.token;
      && t < |b.regs| && b.regs[t].id == b.streams[s].id
      && (b.regs[t].receiver == Got(s) <==> b.regs[t].receiver != TimedOut)
  {
    assert StreamInv(b, s);
  }

  /** A time-out leaves its table entry behind: a later dial connects although nobody receives the stream. */
  lemma StaleEntryIsDialed(id: u32)
    ensures
      var registered := Do(Do(NEW_BROKER, Accept(id)), TimeOut(0));
      var dialed := Do(Do(Do(registered, Dial(id)), Route(0)), Ack(0));
      var b := Do(Do(dialed, FinishDial(0)), Hand(0));
      |b.regs| == 1 && |b.streams| == 1 && b.streams[0].dialer == Connected && b.regs[0].receiver == TimedOut
  {
    var b2 := Broker(1, map[id := 0], [Registration(id, TimedOut)], []);
    var b5 := b2.(pending := map[], streams := [Stream(id, Acked(0), Dialing)]);
    assert Do(Do(NEW_BROKER, Accept(id)), TimeOut(0)) == b2;
    assert Do(Do(Do(b2, Dial(id)), Route(0)), Ack(0)) == b5 by {
      assert map[id := 0] - {id} == map[];
    }
  }

  // ---------------------------------------------------------------- the handshake, whatever runs in between

  /** The handler of stream s holds the sender of registration t, whose receiver still waits. */
  predicate Held(b: Broker, s: nat, t: nat) {
    s < |b.streams| && t < |b.regs| && InHand(b.streams[s].phase, t) && b.regs[t].receiver == Waiting
  }

  predicate Received(b: Broker, s: nat, t: nat) {
    s < |b.streams| && t < |b.regs| && b.streams[s].phase == Handed(t) && b.regs[t].receiver == Got(s)
  }

  predicate HeldAcked(b: Broker, s: nat, t: nat) { Held(b, s, t) && b.streams[s].phase.Acked? }

  lemma HeldStep(b: Broker, a: Action, s: nat, t: nat)
    requires Inv(b) && a != TimeOut(t) && (Held(b, s, t) || Received(b, s, t))
    ensures Held(Do(b, a), s, t) || Received(Do(b, a), s, t)
    ensures HeldAcked(b, s, t) || Received(b, s, t) ==> HeldAcked(Do(b, a), s, t) || Received(Do(b, a), s, t)
  {
    assert StreamInv(b, s);
    match a
    case Accept(id) => assert id in b.pending && b.pending[id] == t ==> InTable(b, t);
    case Hand(s') =>
      if s' < |b.streams| && s' != s && Held(b, s, t) {
        assert !Holds(b.streams[s'].phase, t) by {
          var (x, y) := if s < s' then (s, s') else (s', s);
          assert b.streams[x].phase.Opened? || b.streams[x].phase.Refused? || !Holds(b.streams[y].phase, b.streams[x].phase.token);
        }
      }
    case _ =>
  }

  /** MAIN: once the handler has the sender, then in every interleaving without the receiver's time-out it keeps it until the stream is received. */
  lemma {:induction false} HeldUntilReceived(b: Broker, acts: seq<Action>, s: nat, t: nat)
    requires Inv(b) && TimeOut(t) !in acts && (Held(b, s, t) || Received(b, s, t))
    ensures Inv(Run(b, acts)) && (Held(Run(b, acts), s, t) || Received(Run(b, acts), s, t))
    ensures HeldAcked(b, s, t) || Received(b, s, t) ==> HeldAcked(Run(b, acts), s, t) || Received(Run(b, acts), s, t)
    decreases |acts|
  {
    if acts != [] {
      assert acts[0] in acts && forall a <- acts[1..] :: a in acts;
      StepKeepsInv(b, acts[0]);
      HeldStep(b, acts[0], s, t);
      HeldUntilReceived(Do(b, acts[0]), acts[1..], s, t);
    }
  }

  predicate WaitsInTable(b: Broker, t: nat) { InTable(b, t) && b.regs[t].receiver == Waiting }

  /** What would take the registration out of the table: its time-out, closing, a newer registration or a stream of its id. */
  predicate Disturbs(b: Broker, a: Action, t: nat)
    requires t < |b.regs|
  {
    || a == TimeOut(t) || a == Close || a == Accept(b.regs[t].id)
    || (a.Route? && a.stream < |b.streams| && b.streams[a.stream].id == b.regs[t].id)
  }

  ghost predicate Undisturbed(b: Broker, acts: seq<Action>, t: nat)
    requires t < |b.regs|
    decreases |acts|
  {
    acts == [] || (!Disturbs(b, acts[0], t) && t < |Do(b, acts[0]).regs| && Undisturbed(Do(b, acts[0]), acts[1..], t))
  }

  lemma TableStep(b: Broker, a: Action, t: nat)
    requires Inv(b) && WaitsInTable(b, t) && !Disturbs(b, a, t)
    ensures WaitsInTable(Do(b, a), t) && Do(b, a).regs[t].id == b.regs[t].id
  {
    match a
    case Accept(id) => assert id in b.pending ==> b.regs[b.pending[id]].id == id;
    case Hand(s) =>
      if s < |b.streams| && b.streams[s].phase.Acked? {
        assert StreamInv(b, s);
      }
    case _ =>
  }

  lemma {:induction false} StaysInTable(b: Broker, acts: seq<Action>, t: nat)
    requires Inv(b) && WaitsInTable(b, t) && Undisturbed(b, acts, t)
    ensures
      var n := Run(b, acts);
      Inv(n) && WaitsInTable(n, t) && n.regs[t].id == b.regs[t].id
    decreases |acts|
  {
    if acts != [] {
      StepKeepsInv(b, acts[0]);
      TableStep(b, acts[0], t);
      StaysInTable(Do(b, acts[0]), acts[1..], t);
    }
  }

  lemma {:induction false} RunSplit(b: Broker, first: seq<Action>, rest: seq<Action>)
    ensures Run(b, first + rest) == Run(Run(b, first), rest)
    decreases |first|
  {
    if first == [] {
      assert first + rest == rest;
    } else {
      assert (first + rest)[0] == first[0] && (first + rest)[1..] == first[1..] + rest;
      RunSplit(Do(b, first[0]), first[1..], rest);
    }
  }

  lemma RunThrough(b: Broker, first: seq<Action>, a: Action, rest: seq<Action>)
    ensures Run(b, first + ([a] + rest)) == Run(Do(Run(b, first), a), rest)
  {
    RunSplit(b, first, [a] + rest);
    assert ([a] + rest)[1..] == rest;
  }

  lemma StaysReceived(b: Broker, acts: seq<Action>, s: nat, t: nat)
    requires Inv(b) && Received(b, s, t) && (Held(Run(b, acts), s, t) || Received(Run(b, acts), s, t))
    ensures Received(Run(b, acts), s, t)
  {
    SettledOnce(b, acts, t);
  }

  lemma HandedIsReceived(b: Broker, s: nat, t: nat)
    requires HeldAcked(b, s, t) || Received(b, s, t)
    ensures Received(Do(b, Hand(s)), s, t)
  {
  }

  lemma HandingDelivers(b: Broker, t: nat, s: nat, handing: seq<Action>, after: seq<Action>)
    requires Inv(b) && (HeldAcked(b, s, t) || Received(b, s, t)) && TimeOut(t) !in handing && TimeOut(t) !in after
    ensures Received(Run(b, handing + ([Hand(s)] + after)), s, t)
  {
    HeldUntilReceived(b, handing, s, t);
    RunThrough(b, handing, Hand(s), after);
    var before := Run(b, handing);
    HandedIsReceived(before, s, t);
    StepKeepsInv(before, Hand(s));
    HeldUntilReceived(Do(before, Hand(s)), after, s, t);
    StaysReceived(Do(before, Hand(s)), after, s, t);
  }

  lemma AckedIsHeld(b: Broker, s: nat, t: nat)
    requires Held(b, s, t) || Received(b, s, t)
    ensures HeldAcked(Do(b, Ack(s)), s, t) || Received(Do(b, Ack(s)), s, t)
  {
  }

  lemma HandlerFinishes(b: Broker, t: nat, s: nat, acking: seq<Action>, handing: seq<Action>, after: seq<Action>)
    requires Inv(b) && Held(b, s, t)
    requires TimeOut(t) !in acking && TimeOut(t) !in handing && TimeOut(t) !in after
    ensures Received(Run(b, acking + ([Ack(s)] + (handing + ([Hand(s)] + after)))), s, t)
  {
    HeldUntilReceived(b, acking, s, t);
    var before := Run(b, acking);
    AckedIsHeld(before, s, t);
    StepKeepsInv(before, Ack(s));
    RunThrough(b, acking, Ack(s), handing + ([Hand(s)] + after));
    HandingDelivers(Do(before, Ack(s)), t, s, handing, after);
  }

  /**
  MAIN: the handshake delivers.  A waiting registration that nothing disturbs until a stream of its id
  is looked up gets that stream, however the three steps of the handler are interleaved with anything
  else but the receiver's own time-out: closing, other registrations of the id and a dial given up included.
  */
  lemma {:induction false} HandshakeDelivers(b: Broker, t: nat, s: nat, waiting: seq<Action>, acking: seq<Action>, handing: seq<Action>, after: seq<Action>)
    requires Inv(b) && WaitsInTable(b, t) && Undisturbed(b, waiting, t)
    requires
      var m := Run(b, waiting);
      s < |m.streams| && m.streams[s].id == b.regs[t].id && m.streams[s].phase == Opened
    requires TimeOut(t) !in acking && TimeOut(t) !in handing && TimeOut(t) !in after
    ensures Received(Run(b, waiting + ([Route(s)] + (acking + ([Ack(s)] + (handing + ([Hand(s)] + after)))))), s, t)
  {
    StaysInTable(b, waiting, t);
    var m := Run(b, waiting);
    StepKeepsInv(m, Route(s));
    RunThrough(b, waiting, Route(s), acking + ([Ack(s)] + (handing + ([Hand(s)] + after))));
    HandlerFinishes(Do(m, Route(s)), t, s, acking, handing, after);
  }

  /** The ACK has been written, and the dialer still waits for it or has read it. */
  predicate Acknowledged(b: Broker, s: nat) {
    && s < |b.streams| && (b.streams[s].phase.Acked? || b.streams[s].phase.Handed?)
    && (b.streams[s].dialer == Dialing || b.streams[s].dialer == Connected)
  }

  lemma AcknowledgedStep(b: Broker, a: Action, s: nat)
    requires Acknowledged(b, s) && a != BreakDial(s)
    ensures Acknowledged(Do(b, a), s)
    ensures a == FinishDial(s) || b.streams[s].dialer == Connected ==> Do(b, a).streams[s].dialer == Connected
  {
  }

  /** MAIN: once the ACK is written, the dial succeeds in every interleaving in which the dialer reads it before giving up. */
  lemma {:induction false} DialSucceeds(b: Broker, acts: seq<Action>, s: nat)
    requires Acknowledged(b, s) && BreakDial(s) !in acts
    ensures Acknowledged(Run(b, acts), s)
    ensures FinishDial(s) in acts || b.streams[s].dialer == Connected ==> Run(b, acts).streams[s].dialer == Connected
    decreases |acts|
  {
    if acts != [] {
      assert acts[0] in acts && forall a <- acts :: a == acts[0] || a in acts[1..];
      AcknowledgedStep(b, acts[0], s);
      DialSucceeds(Do(b, acts[0]), acts[1..], s);
    }
  }

  // ---------------------------------------------------------------- dials that fail

  /** The stream was dropped because nobody was registered, and its dial has not succeeded. */
  predicate Unwanted(b: Broker, s: nat, id: u32) {
    s < |b.streams| && b.streams[s].id == id && b.streams[s].phase == Refused && b.streams[s].dialer != Connected
  }

  lemma UnwantedStep(b: Broker, a: Action, s: nat, id: u32)
    requires Unwanted(b, s, id)
    ensures Unwanted(Do(b, a), s, id)
    ensures a == FinishDial(s) || b.streams[s].dialer == Failed ==> Do(b, a).streams[s].dialer == Failed
  {
  }

  lemma {:induction false} UnwantedForGood(b: Broker, acts: seq<Action>, s: nat, id: u32)
    requires Unwanted(b, s, id)
    ensures Unwanted(Run(b, acts), s, id)
    ensures FinishDial(s) in acts || b.streams[s].dialer == Failed ==> Run(b, acts).streams[s].dialer == Failed
    decreases |acts|
  {
    if acts != [] {
      assert acts[0] in acts && forall a <- acts :: a == acts[0] || a in acts[1..];
      UnwantedStep(b, acts[0], s, id);
      UnwantedForGood(Do(b, acts[0]), acts[1..], s, id);
    }
  }

  /**
  MAIN: a stream that is looked up while its id is not registered is lost for good: whatever follows,
  a registration of the id included, no receiver gets it, its dial never succeeds, and it has failed
  once the dialer has read the end of the stream.
  */
  lemma UnregisteredIsRefused(b: Broker, s: nat, after: seq<Action>)
    requires Inv(b) && s < |b.streams| && b.streams[s].phase == Opened && b.streams[s].id !in b.pending
    ensures
      var n := Run(Do(b, Route(s)), after);
      && Inv(n) && s < |n.streams| && n.streams[s].id == b.streams[s].id
      && (forall t :: 0 <= t < |n.regs| ==> n.regs[t].receiver != Got(s))
      && n.streams[s].dialer != Connected
      && (FinishDial(s) in after ==> n.streams[s].dialer == Failed)
  {
    var refused := Do(b, Route(s));
    assert StreamInv(b, s);
    StepKeepsInv(b, Route(s));
    RunKeepsInv(refused, after);
    UnwantedForGood(refused, after, s, b.streams[s].id);
    var n := Run(refused, after);
    forall t | 0 <= t < |n.regs| ensures n.regs[t].receiver != Got(s) {
      assert ReceiverInv(n, t);
    }
  }

  lemma DialStepSettles(b: Broker, a: Action, s: nat)
    requires s < |b.streams|
    ensures s < |Do(b, a).streams|
    ensures b.streams[s].dialer != Dialing ==> Do(b, a).streams[s].dialer == b.streams[s].dialer
    ensures a == BreakDial(s) && b.streams[s].dialer == Dialing ==> Do(b, a).streams[s].dialer == Failed
  {
  }

  /** A dial has one outcome for good, and giving up is one. */
  lemma {:induction false} DialSettlesOnce(b: Broker, acts: seq<Action>, s: nat)
    requires s < |b.streams|
    ensures s < |Run(b, acts).streams|
    ensures b.streams[s].dialer != Dialing ==> Run(b, acts).streams[s].dialer == b.streams[s].dialer
    ensures BreakDial(s) in acts ==> Run(b, acts).streams[s].dialer != Dialing
    decreases |acts|
  {
    if acts != [] {
      assert forall a <- acts :: a == acts[0] || a in acts[1..];
      DialStepSettles(b, acts[0], s);
      DialSettlesOnce(Do(b, acts[0]), acts[1..], s);
    }
  }

  /** A dial that has failed was refused or given up. */
  predicate Undecided(b: Broker, s: nat) {
    s < |b.streams| && (b.streams[s].dialer == Failed ==> b.streams[s].phase == Refused)
  }

  lemma UndecidedStep(b: Broker, a: Action, s: nat)
    requires Undecided(b, s) && a != BreakDial(s)
    ensures Undecided(Do(b, a), s)
  {
  }

  /** MAIN: a dial fails only because nobody was registered when its stream was looked up, or because it is given up. */
  lemma {:induction false} DialFailsForAReason(b: Broker, acts: seq<Action>, s: nat)
    requires Undecided(b, s) && BreakDial(s) !in acts
    ensures Undecided(Run(b, acts), s)
    decreases |acts|
  {
    if acts != [] {
      assert acts[0] in acts && forall a <- acts[1..] :: a in acts;
      UndecidedStep(b, acts[0], s);
      DialFailsForAReason(Do(b, acts[0]), acts[1..], s);
    }
  }

  /** What can cancel a waiting receiver: closing, or another registration of its id. */
  predicate Cancels(b: Broker, a: Action, t: nat)
    requires t < |b.regs|
  {
    InTable(b, t) && (a == Close || a == Accept(b.regs[t].id))
  }

  /** MAIN: exactly when one step resolves a waiting receiver, and how. */
  lemma WhoIsResolved(b: Broker, a: Action, t: nat)
    requires Inv(b) && t < |b.regs| && b.regs[t].receiver == Waiting
    ensures
      var n := Do(b, a);
      && t < |n.regs| && n.regs[t].id == b.regs[t].id
      && (n.regs[t].receiver == Cancelled <==> Cancels(b, a, t))
      && (n.regs[t].receiver == TimedOut <==> a == TimeOut(t))
      && (n.regs[t].receiver.Got? <==> a.Hand? && HeldAcked(b, a.stream, t))
  {
    assert ReceiverInv(b, t);
    match a
    case Accept(id) => assert id in b.pending ==> b.regs[b.pending[id]].id == id;
    case _ =>
  }

  // ---------------------------------------------------------------- from a new broker

  /** MAIN: after every interleaving, from a new broker on: who gets what, and how many can connect. */
  lemma EveryRun(acts: seq<Action>, t: nat, t': nat, id: u32)
    ensures
      var b := Run(NEW_BROKER, acts);
      && Inv(b)
      && |Connections(b, id)| <= |Registrations(b, id)|
      && (t < |b.regs| && t' < |b.regs| && b.regs[t].receiver.Got? ==>
            var s := b.regs[t].receiver.stream;
            s < |b.streams| && b.streams[s].id == b.regs[t].id && (b.regs[t'].receiver == Got(s) ==> t == t'))
  {
    NewBrokerInv();
    RunKeepsInv(NEW_BROKER, acts);
    var b := Run(NEW_BROKER, acts);
    NoMoreConnectionsThanRegistrations(b, id);
    if t < |b.regs| && t' < |b.regs| && b.regs[t].receiver.Got? {
      OwnStreamOnly(b, t, t');
    }
  }

  // ---------------------------------------------------------------- ids

  /** The n-th id handed out, counting from zero: the counter is a 32-bit atomic that wraps around. */
  function IdOf(n: nat): u32 { (1 + n) % TWO_TO_THE_32 }

  /** How many of the actions call `next_id`. */
  function Calls(acts: seq<Action>): nat {
    if acts == [] then 0 else (if acts[0] == TakeId then 1 else 0) + Calls(acts[1..])
  }

  lemma CounterStep(b: Broker, a: Action, n: nat)
    requires b.nextId == IdOf(n)
    ensures Do(b, a).nextId == IdOf(if a == TakeId then n + 1 else n)
  {
  }

  lemma {:induction false} CounterCounts(b: Broker, acts: seq<Action>, n: nat)
    requires b.nextId == IdOf(n)
    ensures Run(b, acts).nextId == IdOf(n + Calls(acts))
    decreases |acts|
  {
    if acts != [] {
      CounterStep(b, acts[0], n);
      CounterCounts(Do(b, acts[0]), acts[1..], if acts[0] == TakeId then n + 1 else n);
    }
  }

  lemma SameIdExactly(m: nat, n: nat)
    requires m <= n
    ensures IdOf(m) == IdOf(n) <==> (n - m) % TWO_TO_THE_32 == 0
  {
    var q, r := (n - m) / TWO_TO_THE_32, (n - m) % TWO_TO_THE_32;
    var p := (1 + m) / TWO_TO_THE_32;
    assert 1 + n == (p + q) * TWO_TO_THE_32 + IdOf(m) + r;
  }

  lemma {:induction false} CallsOfConcat(x: seq<Action>, y: seq<Action>)
    ensures Calls(x + y) == Calls(x) + Calls(y)
  {
    if x == [] {
      assert x + y == y;
    } else {
      assert (x + y)[0] == x[0] && (x + y)[1..] == x[1..] + y;
      CallsOfConcat(x[1..], y);
    }
  }

  /** MAIN: in every run, two calls of `next_id` return the same id exactly when a multiple of 2^32 calls lies between them, the first included. */
  lemma IdsRepeat(earlier: seq<Action>, between: seq<Action>)
    ensures
      var (first, second) := (Run(NEW_BROKER, earlier).nextId, Run(NEW_BROKER, earlier + ([TakeId] + between)).nextId);
      first == second <==> (1 + Calls(between)) % TWO_TO_THE_32 == 0
  {
    CounterCounts(NEW_BROKER, earlier, 0);
    CounterCounts(NEW_BROKER, earlier + ([TakeId] + between), 0);
    CallsOfConcat(earlier, [TakeId] + between);
    assert ([TakeId] + between)[1..] == between;
    SameIdExactly(Calls(earlier), Calls(earlier + ([TakeId] + between)));
  }

  // ---------------------------------------------------------------- the class

  datatype DeliverError = NoPendingAccept(id: u32) | ReceiverDropped(id: u32)

  class ConnectionBroker {
    var nextId: u32
    var pending: map<u32, nat>
    /** The one-shot channels made so far. */
    var regs: seq<Registration>
    var streams: seq<Stream>

    ghost function Value(): Broker
      reads this
    {
      Broker(nextId, pending, regs, streams)
    }

    constructor ()
      ensures Value() == NEW_BROKER && Inv(Value())
    {
      nextId, pending, regs, streams := 1, map[], [], [];
    }

    method NextId() returns (id: u32)
      modifies this`nextId
      ensures id == old(nextId) && Value() == Do(old(Value()), TakeId)
    {
      id := nextId;
      nextId := (nextId + 1) % TWO_TO_THE_32;
    }

    /** Make a channel and put its sender in the table; a sender it replaces is dropped. */
    method RegisterPending(id: u32) returns (token: nat)
      requires Inv(Value())
      modifies this`pending, this`regs
      ensures Inv(Value()) && Value() == Do(old(Value()), Accept(id))
      ensures token == |old(regs)| && InTable(Value(), token) && regs[token] == Registration(id, Waiting)
    {
      AcceptKeepsInv(Value(), id);
      token := |regs|;
      if id in pending {
        DropSender(pending[id]);
      }
      regs := regs + [Registration(id, Waiting)];
      pending := pending[id := token];
    }

    method DropSender(token: nat)
      requires token < |regs|
      modifies this`regs
      ensures regs == old(regs)[token := Dropped(old(regs)[token])]
    {
      if regs[token].receiver == Waiting {
        regs := regs[token := regs[token].(receiver := Cancelled)];
      }
    }

    /** The five seconds are over. */
    method TimeOutReceiver(token: nat)
      requires Inv(Value()) && token < |regs|
      modifies this`regs
      ensures Inv(Value()) && Value() == Do(old(Value()), TimeOut(token))
    {
      StepKeepsInv(Value(), TimeOut(token));
      if regs[token].receiver == Waiting {
        regs := regs[token := regs[token].(receiver := TimedOut)];
      }
    }

    method OpenStream(id: u32) returns (s: nat)
      requires Inv(Value())
      modifies this`streams
      ensures Inv(Value()) && Value() == Do(old(Value()), Dial(id)) && s == |old(streams)|
    {
      StepKeepsInv(Value(), Dial(id));
      s := |streams|;
      streams := streams + [Stream(id, Opened, Dialing)];
    }

    /** The handler has read the id: take the sender out of the table. */
    method TakeSender(s: nat) returns (token: Option<nat>)
      requires Inv(Value()) && s < |streams| && streams[s].phase == Opened
      modifies this`pending, this`streams
      ensures Inv(Value()) && Value() == Do(old(Value()), Route(s))
      ensures token == if streams[s].phase.Routed? then Some(streams[s].phase.token) else None
    {
      StepKeepsInv(Value(), Route(s));
      var id := streams[s].id;
      if id in pending {
        token := Some(pending[id]);
        pending := pending - {id};
        streams := streams[s := streams[s].(phase := Routed(token.value))];
      } else {
        token := None;
        streams := streams[s := streams[s].(phase := Refused)];
      }
    }

    method WriteAck(s: nat)
      requires Inv(Value()) && s < |streams| && streams[s].phase.Routed?
      modifies this`streams
      ensures Inv(Value()) && Value() == Do(old(Value()), Ack(s))
    {
      StepKeepsInv(Value(), Ack(s));
      streams := streams[s := streams[s].(phase := Acked(streams[s].phase.token))];
    }

    /** Send through the one-shot channel; false when its receiver is gone. */
    method SendStream(s: nat) returns (received: bool)
      requires Inv(Value()) && s < |streams| && streams[s].phase.Acked?
      modifies this`regs, this`streams
      ensures Inv(Value()) && Value() == Do(old(Value()), Hand(s))
      ensures
        var t := old(streams)[s].phase.token;
        received <==> t < |old(regs)| && old(regs)[t].receiver == Waiting
    {
      StepKeepsInv(Value(), Hand(s));
      assert StreamInv(Value(), s);
      var token := streams[s].phase.token;
      received := regs[token].receiver == Waiting;
      if received {
        regs := regs[token := regs[token].(receiver := Got(s))];
      }
      streams := streams[s := streams[s].(phase := Handed(token))];
    }

    /** The mux handler of one inbound stream, when nothing runs in between. */
    method HandleInboundStream(s: nat)
      requires Inv(Value()) && s < |streams| && streams[s].phase == Opened
      modifies this`pending, this`regs, this`streams
      ensures Inv(Value()) && Value() == Do(Do(Do(old(Value()), Route(s)), Ack(s)), Hand(s))
    {
      var token := TakeSender(s);
      if token.Some? {
        WriteAck(s);
        var _ := SendStream(s);
      }
    }

    /** The gRPC broker's way: connection info arrives instead of a stream, and there is no ACK to wait for. */
    method Deliver(id: u32) returns (r: Result<(), DeliverError>)
      requires Inv(Value())
      modifies this`pending, this`regs, this`streams
      ensures Inv(Value())
      ensures id !in old(pending) ==> r == Err(NoPendingAccept(id)) && regs == old(regs) && pending == old(pending)
      ensures id in old(pending) ==>
        var t := old(pending)[id];
        && pending == old(pending) - {id}
        && (old(regs)[t].receiver == Waiting ==> r == Ok(()) && regs == old(regs)[t := Registration(id, Got(|old(streams)|))])
        && (old(regs)[t].receiver != Waiting ==> r == Err(ReceiverDropped(id)) && regs == old(regs))
    {
      var s := OpenStream(id);
      var token := TakeSender(s);
      if token.None? {
        return Err(NoPendingAccept(id));
      }
      WriteAck(s);
      var received := SendStream(s);
      r := if received then Ok(()) else Err(ReceiverDropped(id));
    }

    method CloseBroker()
      requires Inv(Value())
      modifies this`pending, this`regs
      ensures Inv(Value()) && Value() == Do(old(Value()), Close) && pending == map[]
    {
      CloseCancelsTheTable(Value());
      ghost var start := Value();
      var ids := pending.Keys;
      ghost var dropped: set<nat> := {};
      while ids != {}
        invariant ids <= pending.Keys && pending == start.pending && |regs| == |start.regs|
        invariant nextId == start.nextId && streams == start.streams
        invariant forall t :: 0 <= t < |regs| ==>
          regs[t] == if InTable(start, t) && start.regs[t].id !in ids then Dropped(start.regs[t]) else start.regs[t]
        decreases |ids|
      {
        var id :| id in ids;
        DropSender(pending[id]);
        ids := ids - {id};
      }
      pending := map[];
      assert regs == DoClose(start).regs;
    }
  }
}
