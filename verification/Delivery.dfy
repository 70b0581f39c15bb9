/**
 Ordered and reliable delivery of messages over a lossless session: the sender's
 out_queue and out_sent lists, sequence numbers, acks, requeueing on a fault and
 the reconnect handshake, with a receiver that follows the sequence rule.
 */
module Delivery {

  datatype Option<T> = None | Some(value: T)

  datatype ConState = Open | PreOpen | Standby | Closed

  /** A message on a list; no is its sequence number once needsSeq is false. */
  datatype Msg = Msg(payload: nat, needsSeq: bool, no: nat)

  /** The sending half of a connection. */
  datatype Sender = Sender(queue: seq<Msg>, sent: seq<Msg>, outSeq: nat, state: ConState)

  /** A message on the wire. */
  datatype Frame = Frame(no: nat, payload: nat)

  // ------------------------------------------------- the sender's operations

  /** A closed connection drops the message. */
  function QueueMsg(s: Sender, payload: nat): Sender
  {
    if s.state == Closed then s else
    s.(queue := s.queue + [Msg(payload, true, 0)], state := if s.state == Standby then PreOpen else s.state)
  }

  /** The message at the head of the queue, with the number it goes out under. */
  function Numbered(s: Sender): Msg
    requires s.queue != []
  {
    var m := s.queue[0];
    if m.needsSeq then Msg(m.payload, false, s.outSeq + 1) else m
  }

  function TakeOut(s: Sender): Sender
    requires s.queue != []
  {
    s.(queue := s.queue[1..], sent := s.sent + [Numbered(s)],
       outSeq := if s.queue[0].needsSeq then s.outSeq + 1 else s.outSeq)
  }

  /** What remains of a list once its numbered head messages up to n are dropped. */
  function DropUpTo(ms: seq<Msg>, n: nat): seq<Msg>
  {
    if ms == [] || ms[0].needsSeq || ms[0].no > n then ms else DropUpTo(ms[1..], n)
  }

  /** A fault on a lossless session: with nothing to say, not even a keepalive, the connection waits. */
  function FaultState(s: Sender, keepalive: bool): Sender
  {
    var queue := s.sent + s.queue;
    Sender(queue, [], s.outSeq, if queue == [] && !keepalive then Standby else PreOpen)
  }

  class Connection {
    const lossy: bool
    var keepalivePending: bool
    var outQueue: seq<Msg>
    var outSent: seq<Msg>
    var outSeq: nat
    var state: ConState

    function View(): Sender
      reads this
    {
      Sender(outQueue, outSent, outSeq, state)
    }

    constructor (lossy: bool)
      ensures View() == Sender([], [], 0, PreOpen) && this.lossy == lossy && !keepalivePending
    {
      this.lossy, keepalivePending := lossy, false;
      outQueue, outSent, outSeq, state := [], [], 0, PreOpen;
    }

    /** ceph_con_send */
    method Send(payload: nat)
      modifies this`outQueue, this`state
      ensures View() == QueueMsg(old(View()), payload)
      ensures old(state) == Closed ==> View() == old(View())
    {
      if state == Closed {
        return;
      }
      outQueue := outQueue + [Msg(payload, true, 0)];
      if state == Standby {
        state := PreOpen;
      }
    }

    /** ceph_con_get_out_msg */
    method GetOutMsg() returns (m: Msg)
      requires outQueue != []
      modifies this
      ensures m == Numbered(old(View())) && View() == TakeOut(old(View()))
    {
      m := outQueue[0];
      outQueue := outQueue[1..];
      if m.needsSeq {
        outSeq := outSeq + 1;
        m := Msg(m.payload, false, outSeq);
      }
      outSent := outSent + [m];
    }

    /** ceph_con_discard_sent; messages on out_sent are always numbered. */
    method DiscardSent(ack: nat)
      requires forall i :: 0 <= i < |outSent| ==> !outSent[i].needsSeq
      modifies this
      ensures View() == old(View()).(sent := DropUpTo(old(outSent), ack))
    {
      while outSent != []
        invariant forall i :: 0 <= i < |outSent| ==> !outSent[i].needsSeq
        invariant outQueue == old(outQueue) && outSeq == old(outSeq) && state == old(state)
        invariant DropUpTo(outSent, ack) == DropUpTo(old(outSent), ack)
        decreases |outSent|
      {
        if outSent[0].no > ack {
          break;
        }
        outSent := outSent[1..];
      }
    }

    /** ceph_con_discard_requeued */
    method DiscardRequeued(n: nat)
      modifies this
      ensures View() == old(View()).(queue := DropUpTo(old(outQueue), n))
    {
      while outQueue != []
        invariant outSent == old(outSent) && outSeq == old(outSeq) && state == old(state)
        invariant DropUpTo(outQueue, n) == DropUpTo(old(outQueue), n)
        decreases |outQueue|
      {
        if outQueue[0].needsSeq || outQueue[0].no > n {
          break;
        }
        outQueue := outQueue[1..];
      }
    }

    /** con_fault: a lossy session closes, another requeues what was not acknowledged. */
    method Fault()
      modifies this`outQueue, this`outSent, this`state
      ensures View() == if lossy then old(View()).(state := Closed) else FaultState(old(View()), keepalivePending)
    {
      if lossy {
        state := Closed;
        return;
      }
      outQueue := outSent + outQueue;
      outSent := [];
      state := if outQueue == [] && !keepalivePending then Standby else PreOpen;
    }
  }

  // -------------------------------------------------------------- the system

  /** The receive rule: V1 leaves its counter alone on an old message, V2 bumps it on every skip. */
  datatype Rule = V1 | V2

  datatype Receiver = Receiver(inSeq: nat, dispatched: seq<nat>, broken: bool)

  /** The sequence number check on a message that has arrived. */
  function Receive(r: Receiver, f: Frame, rule: Rule): Receiver
  {
    if f.no < r.inSeq + 1 then
      (if rule == V2 then r.(inSeq := r.inSeq + 1) else r)
    else if f.no > r.inSeq + 1 then r.(broken := true)
    else r.(inSeq := r.inSeq + 1, dispatched := r.dispatched + [f.payload])
  }

  /**
   Both ends and what is in flight: frames on the wire, acks on their way back and the
   peer's answer to a reconnect. queued is every payload ever handed to Send.
   */
  datatype Sys = Sys(s: Sender, r: Receiver, wire: seq<Frame>, acks: seq<nat>, reply: Option<nat>, queued: seq<nat>)

  datatype Action =
    | Send(payload: nat)
    | Transmit
    | Arrive
    | SendAck
    | TakeAck
    | Break(keepalive: bool)
    | Accept
    | Resume(discard: bool)

  function Init(): Sys
  {
    Sys(Sender([], [], 0, PreOpen), Receiver(0, [], false), [], [], None, [])
  }

  /**
   One step; an action that is not enabled leaves the system alone. After a fault the peer
   may go on reading the old wire until it accepts the new connection.
   */
  function Next(y: Sys, a: Action, rule: Rule): Sys
  {
    match a
    case Send(p) => y.(s := QueueMsg(y.s, p), queued := y.queued + [p])
    case Transmit =>
      if y.s.state == Open && y.s.queue != [] then
        y.(s := TakeOut(y.s), wire := y.wire + [Frame(Numbered(y.s).no, y.s.queue[0].payload)])
      else y
    case Arrive =>
      if y.wire != [] then y.(r := Receive(y.r, y.wire[0], rule), wire := y.wire[1..]) else y
    case SendAck => if y.s.state == Open then y.(acks := y.acks + [y.r.inSeq]) else y
    case TakeAck =>
      if y.s.state == Open && y.acks != [] then
        y.(s := y.s.(sent := DropUpTo(y.s.sent, y.acks[0])), acks := y.acks[1..])
      else y
    case Break(keepalive) => y.(s := FaultState(y.s, keepalive), acks := [], reply := None)
    case Accept =>
      if y.s.state == PreOpen then y.(wire := [], reply := Some(y.r.inSeq)) else y
    case Resume(discard) =>
      if y.s.state == PreOpen && y.reply.Some? then
        y.(s := y.s.(state := Open, queue := if discard then DropUpTo(y.s.queue, y.reply.value) else y.s.queue),
           reply := None)
      else y
  }

  function Run(y: Sys, steps: seq<Action>, rule: Rule): Sys
    decreases |steps|
  {
    if steps == [] then y else Run(Next(y, steps[0], rule), steps[1..], rule)
  }

  // ----------------------------------------------------------- the invariant

  function Pending(y: Sys): seq<Msg>
  {
    y.s.sent + y.s.queue
  }

  /** How many messages the sender has forgotten. */
  function Forgotten(y: Sys): int
  {
    |y.queued| - |Pending(y)|
  }

  /** Message j still held is message base + j + 1; the numbers given out are those up to outSeq. */
  ghost predicate InOrder(ms: seq<Msg>, base: int, outSeq: nat, queued: seq<nat>)
  {
    && 0 <= base <= outSeq && base + |ms| == |queued|
    && forall j :: 0 <= j < |ms| ==>
         && ms[j].payload == queued[base + j]
         && ms[j].needsSeq == (base + j >= outSeq)
         && (!ms[j].needsSeq ==> ms[j].no == base + j + 1)
  }

  /** Consecutive frames, each carrying the payload of its number. */
  ghost predicate WireInOrder(wire: seq<Frame>, queued: seq<nat>)
  {
    forall j :: 0 <= j < |wire| ==>
      && wire[j].no == wire[0].no + j && 1 <= wire[j].no <= |queued|
      && wire[j].payload == queued[wire[j].no - 1]
  }

  /**
   What every step keeps. exact is the stronger form in which the wire always continues
   right where the receiver is, so that nothing old is ever received.
   */
  ghost predicate Inv(y: Sys, exact: bool)
  {
    && InOrder(Pending(y), Forgotten(y), y.s.outSeq, y.queued)
    && Forgotten(y) + |y.s.sent| <= y.s.outSeq <= |y.queued|
    && Forgotten(y) <= y.r.inSeq <= y.s.outSeq
    && y.r.dispatched == y.queued[..y.r.inSeq] && !y.r.broken
    && (forall j :: 0 <= j < |y.acks| ==> y.acks[j] <= y.r.inSeq)
    && (y.reply.Some? ==> y.wire == [] && y.reply.value == y.r.inSeq && y.s.state == PreOpen)
    && y.s.state != Closed
    && (y.s.state != Open ==> y.s.sent == [] && y.acks == [])
    && (y.s.state == Standby ==> y.s.queue == [])
    && WireInOrder(y.wire, y.queued)
    && (y.wire != [] ==>
          && y.wire[0].no <= y.r.inSeq + 1 && (exact ==> y.wire[0].no == y.r.inSeq + 1)
          && y.wire[|y.wire| - 1].no <= y.s.outSeq
          && (y.s.state == Open ==> y.wire[|y.wire| - 1].no == Forgotten(y) + |y.s.sent|))
    && (y.wire == [] && y.s.state == Open ==>
          && Forgotten(y) + |y.s.sent| <= y.r.inSeq
          && (exact ==> Forgotten(y) + |y.s.sent| == y.r.inSeq))
  }

  // ------------------------------------------------------ steps keep it true

  ghost predicate Consecutive(ms: seq<Msg>, base: int)
  {
    forall j :: 0 <= j < |ms| && !ms[j].needsSeq ==> ms[j].no == base + j + 1
  }

  /** Dropping the numbered messages up to n drops a prefix, and none above n. */
  lemma {:induction false} DropIsSuffix(ms: seq<Msg>, base: int, n: nat) returns (k: nat)
    requires Consecutive(ms, base)
    ensures k <= |ms| && DropUpTo(ms, n) == ms[k..]
    ensures k > 0 ==> base + k <= n && !ms[k - 1].needsSeq
    ensures k < |ms| ==> ms[k].needsSeq || base + k + 1 > n
  {
    if ms == [] || ms[0].needsSeq || ms[0].no > n {
      k := 0;
    } else {
      var k' := DropIsSuffix(ms[1..], base + 1, n);
      k := k' + 1;
      assert ms[1..][k'..] == ms[k..];
      if k' > 0 { assert ms[1..][k' - 1] == ms[k - 1]; }
      if k < |ms| { assert ms[1..][k'] == ms[k]; }
    }
  }

  lemma InOrderDrop(ms: seq<Msg>, base: int, outSeq: nat, queued: seq<nat>, k: nat)
    requires InOrder(ms, base, outSeq, queued) && k <= |ms| && base + k <= outSeq
    ensures InOrder(ms[k..], base + k, outSeq, queued)
  {
    var rest := ms[k..];
    forall j | 0 <= j < |rest|
      ensures
        && rest[j].payload == queued[base + k + j]
        && rest[j].needsSeq == (base + k + j >= outSeq)
        && (!rest[j].needsSeq ==> rest[j].no == base + k + j + 1)
    {
      assert rest[j] == ms[k + j];
    }
  }

  /** Dropping up to a number that was given out drops exactly the messages up to it. */
  lemma DropExact(ms: seq<Msg>, base: int, outSeq: nat, queued: seq<nat>, n: nat)
    requires InOrder(ms, base, outSeq, queued) && base <= n <= outSeq && n <= |queued|
    ensures DropUpTo(ms, n) == ms[n - base..]
  {
    var k := DropIsSuffix(ms, base, n);
    if k < |ms| { assert ms[k].needsSeq || base + k + 1 > n; }
  }

  lemma SendKeeps(y: Sys, p: nat, rule: Rule, exact: bool)
    requires Inv(y, exact)
    ensures Inv(Next(y, Send(p), rule), exact)
  {
    var y' := Next(y, Send(p), rule);
    assert Pending(y') == Pending(y) + [Msg(p, true, 0)];
    assert y'.queued[..y.r.inSeq] == y.queued[..y.r.inSeq];
  }

  lemma TransmitKeeps(y: Sys, rule: Rule, exact: bool)
    requires Inv(y, exact)
    ensures Inv(Next(y, Transmit, rule), exact)
  {
    if y.s.state == Open && y.s.queue != [] {
      var y' := Next(y, Transmit, rule);
      var k := |y.s.sent|;
      assert Pending(y)[k] == y.s.queue[0];
      assert Pending(y') == Pending(y)[k := Numbered(y.s)];
    }
  }

  lemma ArriveKeeps(y: Sys, rule: Rule, exact: bool)
    requires Inv(y, exact) && (rule == V2 ==> exact)
    ensures Inv(Next(y, Arrive, rule), exact)
  {
    if y.wire != [] {
      var y' := Next(y, Arrive, rule);
      if |y.wire| > 1 { assert y.wire[1].no == y.wire[0].no + 1; }
      if y.wire[0].no == y.r.inSeq + 1 {
        assert y.queued[..y.r.inSeq + 1] == y.queued[..y.r.inSeq] + [y.queued[y.r.inSeq]];
      }
    }
  }

  lemma TakeAckKeeps(y: Sys, rule: Rule, exact: bool)
    requires Inv(y, exact)
    ensures Inv(Next(y, TakeAck, rule), exact)
  {
    if y.s.state == Open && y.acks != [] {
      var y' := Next(y, TakeAck, rule);
      forall j | 0 <= j < |y.s.sent|
        ensures y.s.sent[j] == Pending(y)[j]
      {
      }
      var k := DropIsSuffix(y.s.sent, Forgotten(y), y.acks[0]);
      assert Pending(y') == Pending(y)[k..];
      InOrderDrop(Pending(y), Forgotten(y), y.s.outSeq, y.queued, k);
    }
  }

  lemma SendAckKeeps(y: Sys, rule: Rule, exact: bool)
    requires Inv(y, exact)
    ensures Inv(Next(y, SendAck, rule), exact)
  {
    assert Pending(Next(y, SendAck, rule)) == Pending(y);
  }

  lemma AcceptKeeps(y: Sys, rule: Rule, exact: bool)
    requires Inv(y, exact)
    ensures Inv(Next(y, Accept, rule), exact)
  {
    assert Pending(Next(y, Accept, rule)) == Pending(y);
  }

  lemma BreakKeeps(y: Sys, keepalive: bool, rule: Rule, exact: bool)
    requires Inv(y, exact)
    ensures Inv(Next(y, Break(keepalive), rule), exact)
  {
    assert Pending(Next(y, Break(keepalive), rule)) == Pending(y);
  }

  lemma ResumeKeeps(y: Sys, discard: bool, rule: Rule, exact: bool)
    requires Inv(y, exact) && (exact ==> discard || Forgotten(y) == y.r.inSeq)
    ensures Inv(Next(y, Resume(discard), rule), exact)
  {
    hide DropUpTo;
    if y.s.state == PreOpen && y.reply.Some? {
      assert Pending(y) == y.s.queue && y.reply.value == y.r.inSeq;
      assert Forgotten(y) <= y.r.inSeq <= y.s.outSeq && InOrder(Pending(y), Forgotten(y), y.s.outSeq, y.queued);
      var k := if discard then y.r.inSeq - Forgotten(y) else 0;
      hide InOrder, Inv, Pending, Forgotten;
      DropExact(Pending(y), Forgotten(y), y.s.outSeq, y.queued, y.r.inSeq);
      InOrderDrop(Pending(y), Forgotten(y), y.s.outSeq, y.queued, k);
      assert !discard ==> y.s.queue[0..] == y.s.queue;
      OpenKeeps(y, Next(y, Resume(discard), rule), k, exact);
    }
  }

  lemma OpenKeeps(y: Sys, y': Sys, k: nat, exact: bool)
    requires Inv(y, exact) && y.reply.Some? && Pending(y) == y.s.queue && k <= |y.s.queue|
    requires Forgotten(y) + k <= y.r.inSeq && (exact ==> Forgotten(y) + k == y.r.inSeq)
    requires y' == y.(s := y.s.(state := Open, queue := y.s.queue[k..]), reply := None)
    requires InOrder(y.s.queue[k..], Forgotten(y) + k, y.s.outSeq, y.queued)
    ensures Inv(y', exact)
  {
    hide DropUpTo;
    assert Pending(y') == y.s.queue[k..];
  }

  /** Reconnects that let the sender drop what the peer already has. */
  ghost predicate AlwaysDiscards(steps: seq<Action>)
  {
    forall i :: 0 <= i < |steps| && steps[i].Resume? ==> steps[i].discard
  }

  lemma StepKeeps(y: Sys, a: Action, rule: Rule, exact: bool)
    requires Inv(y, exact) && (rule == V2 ==> exact)
    requires exact && a.Resume? ==> a.discard
    ensures Inv(Next(y, a, rule), exact)
  {
    hide Inv, Next;
    match a
    case Send(p) => SendKeeps(y, p, rule, exact);
    case Transmit => TransmitKeeps(y, rule, exact);
    case Arrive => ArriveKeeps(y, rule, exact);
    case SendAck => SendAckKeeps(y, rule, exact);
    case TakeAck => TakeAckKeeps(y, rule, exact);
    case Break(keepalive) => BreakKeeps(y, keepalive, rule, exact);
    case Accept => AcceptKeeps(y, rule, exact);
    case Resume(discard) => ResumeKeeps(y, discard, rule, exact);
  }

  lemma {:induction false} RunKeeps(y: Sys, steps: seq<Action>, rule: Rule, exact: bool)
    requires Inv(y, exact) && (rule == V2 ==> exact) && (exact ==> AlwaysDiscards(steps))
    ensures Inv(Run(y, steps, rule), exact)
    decreases |steps|
  {
    if steps != [] {
      StepKeeps(y, steps[0], rule, exact);
      RunKeeps(Next(y, steps[0], rule), steps[1..], rule, exact);
    }
  }

  /**
   Every run: what was dispatched is a prefix of what was queued, in order and once each,
   the receiver never sees a gap, and the sender has forgotten only dispatched messages.
   */
  lemma DeliveredInOrderOnce(steps: seq<Action>, rule: Rule)
    requires rule == V2 ==> AlwaysDiscards(steps)
    ensures
      var y := Run(Init(), steps, rule);
      && y.r.dispatched <= y.queued && !y.r.broken
      && 0 <= Forgotten(y) <= |y.r.dispatched|
      && (forall j :: 0 <= j < |Pending(y)| ==> Pending(y)[j].payload == y.queued[Forgotten(y) + j])
  {
    InitHolds(rule == V2);
    hide Run, Next;
    RunKeeps(Init(), steps, rule, rule == V2);
  }

  lemma InitHolds(exact: bool)
    ensures Inv(Init(), exact)
  {
  }

  // ------------------------------------------------------ when V2 goes wrong

  /** Under V2 a resent message makes the receiver swallow the next new one. */
  lemma V2LosesAMessage()
    ensures
      var y := Run(Init(), [Send(7), Send(8), Accept, Resume(true), Transmit, Arrive, Break(false),
                            Accept, Resume(false), Transmit, Transmit, Arrive, Arrive, SendAck, TakeAck], V2);
      y.queued == [7, 8] && y.r.dispatched == [7] && Pending(y) == [] && y.wire == []
  {
    FirstHalf();
    SecondHalf();
    RunAppend(Init(), [Send(7), Send(8), Accept, Resume(true), Transmit, Arrive, Break(false)],
              [Accept, Resume(false), Transmit, Transmit, Arrive, Arrive, SendAck, TakeAck], V2);
    hide Run;
  }

  /** The system once message 7 has arrived and the connection has failed. */
  function Halfway(): Sys
  {
    Sys(Sender([Msg(7, false, 1), Msg(8, true, 0)], [], 1, PreOpen), Receiver(1, [7], false), [], [], None, [7, 8])
  }

  lemma SecondHalf()
    ensures Run(Halfway(), [Accept, Resume(false), Transmit, Transmit, Arrive, Arrive, SendAck, TakeAck], V2)
         == Sys(Sender([], [], 2, Open), Receiver(3, [7], false), [], [], None, [7, 8])
  {
    hide Run, DropUpTo;
    var steps := [Accept, Resume(false), Transmit, Transmit, Arrive, Arrive, SendAck, TakeAck];
    var one, two := Msg(7, false, 1), Msg(8, false, 2);
    var y0 := Halfway();
    var y1 := y0.(s := y0.s.(state := Open));
    var y2 := Sys(Sender([], [one, two], 2, Open), y0.r, [Frame(1, 7), Frame(2, 8)], [], None, [7, 8]);
    var y3 := y2.(wire := [], r := Receiver(3, [7], false));
    assert steps[0..] == steps && steps[8..] == [];
    RunFrom(y0, steps, 0, V2);
    RunFrom(y1, steps, 2, V2);
    assert Next(Next(y1, Transmit, V2), Transmit, V2) == y2;
    RunFrom(y2, steps, 4, V2);
    assert Next(Next(y2, Arrive, V2), Arrive, V2) == y3;
    BothDropped();
    RunFrom(y3, steps, 6, V2);
    RunNone(Next(Next(y3, SendAck, V2), TakeAck, V2), V2);
  }

  lemma BothDropped()
    ensures DropUpTo([Msg(7, false, 1), Msg(8, false, 2)], 3) == []
  {
    var one, two := Msg(7, false, 1), Msg(8, false, 2);
    assert [one, two][1..] == [two] && [two][1..] == [];
    assert DropUpTo([two], 3) == [];
  }

  lemma FirstHalf()
    ensures Run(Init(), [Send(7), Send(8), Accept, Resume(true), Transmit, Arrive, Break(false)], V2) == Halfway()
  {
    hide Run;
    var steps := [Send(7), Send(8), Accept, Resume(true), Transmit, Arrive, Break(false)];
    var y0 := Next(Next(Init(), Send(7), V2), Send(8), V2);
    var y1 := Next(Next(y0, Accept, V2), Resume(true), V2);
    assert y1 == y0.(s := y0.s.(state := Open));
    var y2 := Next(Next(y1, Transmit, V2), Arrive, V2);
    assert steps[0..] == steps && steps[6..] == [Break(false)];
    RunFrom(Init(), steps, 0, V2);
    RunFrom(y0, steps, 2, V2);
    RunFrom(y1, steps, 4, V2);
    RunOne(y2, Break(false), V2);
  }

  lemma RunNone(y: Sys, rule: Rule)
    ensures Run(y, [], rule) == y
  {
  }

  lemma RunOne(y: Sys, a: Action, rule: Rule)
    ensures Run(y, [a], rule) == Next(y, a, rule)
  {
    assert [a][1..] == [];
  }

  /** Two steps of a run, from position i on. */
  lemma RunFrom(y: Sys, steps: seq<Action>, i: nat, rule: Rule)
    requires i + 2 <= |steps|
    ensures Run(y, steps[i..], rule) == Run(Next(Next(y, steps[i], rule), steps[i + 1], rule), steps[i + 2..], rule)
  {
    assert steps[i..][1..] == steps[i + 1..] && steps[i + 1..][1..] == steps[i + 2..];
  }

  lemma {:induction false} RunAppend(y: Sys, a: seq<Action>, b: seq<Action>, rule: Rule)
    ensures Run(y, a + b, rule) == Run(Run(y, a, rule), b, rule)
    decreases |a|
  {
    if a == [] {
      assert a + b == b;
    } else {
      assert (a + b)[0] == a[0] && (a + b)[1..] == a[1..] + b;
      RunAppend(Next(y, a[0], rule), a[1..], b, rule);
    }
  }

  /**
   Exactly when V2 is safe across a reconnect that drops nothing: when the sender holds no
   message the peer already has. Otherwise two steps are enough to lose count.
   */
  lemma V2ResumeExact(y: Sys)
    requires Inv(y, true) && y.reply.Some?
    ensures Inv(Next(y, Resume(false), V2), true) <==> Forgotten(y) == y.r.inSeq
    ensures Forgotten(y) < y.r.inSeq ==>
      var z := Run(Next(y, Resume(false), V2), [Transmit, Arrive], V2);
      z.r.dispatched == y.r.dispatched && z.r.inSeq == |z.r.dispatched| + 1
  {
    var y1 := Next(y, Resume(false), V2);
    assert Pending(y) == y.s.queue && Pending(y1) == y.s.queue;
    if Forgotten(y) == y.r.inSeq {
      ResumeKeeps(y, false, V2, true);
    } else {
      assert y.s.queue[0] == Pending(y)[0];
      var steps := [Transmit, Arrive];
      assert steps[0..] == steps && steps[2..] == [];
      RunFrom(y1, steps, 0, V2);
      RunNone(Next(Next(y1, Transmit, V2), Arrive, V2), V2);
    }
  }

  // ------------------------------------------------------- everything arrives

  /** From any reachable state, a stretch without faults delivers all that was queued. */
  lemma EverythingCanArrive(y: Sys) returns (steps: seq<Action>)
    requires Inv(y, false)
    ensures Run(y, steps, V1).r.dispatched == Run(y, steps, V1).queued == y.queued
    ensures forall a :: a in steps ==> !a.Break? && !a.Send?
  {
    if y.s.state == Open {
      steps := Drain(y);
    } else if y.s.state == Standby {
      assert Pending(y) == [];
      steps := [];
    } else {
      var y1 := Next(y, Accept, V1);
      var y2 := Next(y1, Resume(true), V1);
      StepKeeps(y, Accept, V1, false);
      StepKeeps(y1, Resume(true), V1, false);
      hide DropUpTo, Run;
      var rest := Drain(y2);
      steps := [Accept, Resume(true)] + rest;
      RunAppend(y, [Accept, Resume(true)], rest, V1);
      assert [Accept, Resume(true)][0..] == [Accept, Resume(true)] && [Accept, Resume(true)][2..] == [];
      RunFrom(y, [Accept, Resume(true)], 0, V1);
      RunNone(y2, V1);
    }
  }

  lemma {:induction false} Drain(y: Sys) returns (steps: seq<Action>)
    requires Inv(y, false) && y.s.state == Open
    ensures Run(y, steps, V1).r.dispatched == Run(y, steps, V1).queued == y.queued
    ensures forall a :: a in steps ==> a == Transmit || a == Arrive
    decreases |y.wire| + 2 * |y.s.queue|
  {
    if y.wire == [] && y.s.queue == [] {
      assert Pending(y) == y.s.sent;
      steps := [];
    } else {
      var a := if y.wire != [] then Arrive else Transmit;
      StepKeeps(y, a, V1, false);
      var rest := Drain(Next(y, a, V1));
      hide Inv;
      steps := [a] + rest;
      assert steps[1..] == rest;
    }
  }
}
