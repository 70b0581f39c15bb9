/**
 The writer of msgr2 message frames in plain (crc) mode, and the revocation of the
 message being written at any byte of its frame.
 */
module PlainWriter {
  import opened Wire

  /** An outgoing message; data is cut into the pieces its cursor hands out. */
  datatype Message = Message(front: seq<bv8>, middle: seq<bv8>, pieces: seq<seq<bv8>>) {

    ghost predicate Valid() {
      forall i :: 0 <= i < |pieces| ==> pieces[i] != []
    }

    function Data(): seq<bv8> {
      Join(pieces)
    }

    predicate Empty() {
      front == [] && middle == [] && pieces == []
    }
  }

  function Join(pieces: seq<seq<bv8>>): seq<bv8>
  {
    if pieces == [] then [] else pieces[0] + Join(pieces[1..])
  }

  lemma JoinNonEmpty(pieces: seq<seq<bv8>>)
    requires forall i :: 0 <= i < |pieces| ==> pieces[i] != []
    ensures Join(pieces) == [] <==> pieces == []
  {
  }

  datatype OutState = QueueData | QueueDataCont | QueueZeros | FinishMessage | GetNext

  // ------------------------------------------------------- what a frame is

  function MiddleCrc(middle: seq<bv8>, hasData: bool): bv32
  {
    if middle == [] && !hasData then 0 else Crc(SEED, middle)
  }

  function DataCrc(data: seq<bv8>): bv32
  {
    if data == [] then 0 else Crc(SEED, data)
  }

  function Status(aborted: bool): bv8
  {
    if aborted then 0x1 else 0xe
  }

  /** An epilogue: the late status, then the three checksums; swapped is the front checksum big-endian. */
  function Epilogue(o: Outcome): (s: seq<bv8>)
    ensures |s| == EPILOGUE_PLAIN_LEN
  {
    var crc := Crc(SEED, o.front);
    [Status(o.aborted)] + (if o.swapped then Be32(crc) else Le32(crc))
    + Le32(MiddleCrc(o.middle, o.data != [])) + Le32(DataCrc(o.data))
  }

  /** The bytes of a message frame with the given segments; an empty message has no tail. */
  function FrameBytes(head: seq<bv8>, o: Outcome): seq<bv8>
  {
    if o.front == [] && o.middle == [] && o.data == [] then head
    else Body(head, o) + Epilogue(o)
  }

  /** Bytes of a segment as they went out: a prefix of it, then zeros. */
  ghost predicate ZeroFilled(out: seq<bv8>, segment: seq<bv8>)
  {
    exists k: nat :: k <= |segment| && out == segment[..k] + Zeros(|segment| - k)
  }

  lemma NotZeroed(segment: seq<bv8>)
    ensures ZeroFilled(segment, segment)
  {
    assert segment == segment[..|segment|] + Zeros(|segment| - |segment|);
  }

  /** What a peer gets: the whole message, or a revoked one of the same length. */
  ghost predicate Sent(m: Message, o: Outcome)
  {
    && ZeroFilled(o.front, m.front) && ZeroFilled(o.middle, m.middle) && ZeroFilled(o.data, m.Data())
    && (!o.aborted ==> o == Whole(m))
  }

  /** Everything before the epilogue. */
  function Body(head: seq<bv8>, o: Outcome): seq<bv8>
  {
    head + o.front + o.middle + o.data
  }

  // ------------------------------------------------------------ the writer

  const HEAD_LEN := PREAMBLE_LEN + HEADER2_LEN + CRC_LEN

  /** The segments a frame ends up with, and how its epilogue reads. */
  datatype Outcome = Outcome(front: seq<bv8>, middle: seq<bv8>, data: seq<bv8>, aborted: bool, swapped: bool)

  /**
   The fields of a connection that a message frame uses: live is false once the message is
   revoked, iter is what is queued for the socket, next counts the data pieces queued so
   far and wire is what the socket has taken of this frame.
   */
  datatype Writer = Writer(bigEndian: bool, head: seq<bv8>, msg: Message, live: bool, state: OutState,
                           iter: seq<bv8>, outZero: nat, frontCrc: bv32, middleCrc: bv32, dataCrc: bv32,
                           next: nat, wire: seq<bv8>)

  function CpuToLe(be: bool, x: bv32): bv32
  {
    if be then Swap(x) else x
  }

  function InMemory(be: bool, x: bv32): (s: seq<bv8>)
    ensures |s| == 4
  {
    if be then Be32(x) else Le32(x)
  }

  lemma EmittedOnce(be: bool, x: bv32)
    ensures InMemory(be, CpuToLe(be, x)) == Le32(x)
  {
    SwapBytes(x);
  }

  lemma EmittedTwice(be: bool, x: bv32)
    ensures InMemory(be, CpuToLe(be, CpuToLe(be, x))) == if be then Be32(x) else Le32(x)
  {
    SwapTwice(x);
  }

  /** The bytes of an epilogue encoded in place from the three checksum fields. */
  function Encoded(be: bool, front: bv32, middle: bv32, data: bv32, abort: bool): (s: seq<bv8>)
    ensures |s| == EPILOGUE_PLAIN_LEN
  {
    [Status(abort)] + InMemory(be, CpuToLe(be, front)) + InMemory(be, CpuToLe(be, middle)) + InMemory(be, CpuToLe(be, data))
  }

  function Emitted(w: Writer, abort: bool): (s: seq<bv8>)
    ensures |s| == EPILOGUE_PLAIN_LEN
  {
    Encoded(w.bigEndian, w.frontCrc, w.middleCrc, w.dataCrc, abort)
  }

  /** The same frame, with the same bytes of it sent. */
  predicate SameFrame(w: Writer, r: Writer)
  {
    r.wire == w.wire && r.head == w.head && r.msg == w.msg && r.bigEndian == w.bigEndian
  }

  /** prepare_epilogue_plain */
  function QueueEpilogue(w: Writer, abort: bool): (r: Writer)
    ensures SameFrame(w, r)
  {
    w.(frontCrc := CpuToLe(w.bigEndian, w.frontCrc), middleCrc := CpuToLe(w.bigEndian, w.middleCrc),
       dataCrc := CpuToLe(w.bigEndian, w.dataCrc), iter := w.iter + Emitted(w, abort), state := FinishMessage)
  }

  /** prepare_message_plain */
  function Start(be: bool, head: seq<bv8>, m: Message): Writer
  {
    var w := Writer(be, head, m, true, QueueData, head + m.front + m.middle, 0,
                    if m.front == [] then SEED else Crc(SEED, m.front),
                    if m.middle != [] then Crc(SEED, m.middle) else if m.pieces != [] then SEED else 0, 0, 0, []);
    if m.Empty() then w.(state := FinishMessage)
    else if m.pieces != [] then w
    else QueueEpilogue(w, false)
  }

  /** The socket takes k of the queued bytes. */
  function Take(w: Writer, k: nat): Writer
    requires k <= |w.iter|
  {
    w.(wire := w.wire + w.iter[..k], iter := w.iter[k..])
  }

  /** queue_zeros */
  function QueueMoreZeros(w: Writer): (r: Writer)
    ensures SameFrame(w, r)
  {
    if w.outZero > 0 then
      var n := if w.outZero <= PAGE_SIZE then w.outZero else PAGE_SIZE;
      w.(iter := Zeros(n), outZero := w.outZero - n, state := QueueZeros)
    else QueueEpilogue(w.(iter := []), true)
  }

  /** populate_out_iter, for the states of one message */
  function Populate(w: Writer): (r: Writer)
    ensures SameFrame(w, r)
  {
    match w.state
    case QueueData =>
      if w.msg.pieces == [] then w else
      w.(dataCrc := SEED, next := 1, iter := w.msg.pieces[0], state := QueueDataCont)
    case QueueDataCont =>
      if !(0 < w.next <= |w.msg.pieces|) then w else
      var w' := w.(dataCrc := Crc(w.dataCrc, w.msg.pieces[w.next - 1]));
      if w.next < |w.msg.pieces| then w'.(iter := w.msg.pieces[w.next], next := w.next + 1)
      else QueueEpilogue(w', false)
    case QueueZeros => QueueMoreZeros(w)
    case FinishMessage => w.(live := false, state := GetNext)
    case GetNext => w
  }

  // ----------------------------------------------------------- the invariant

  function Whole(m: Message): Outcome
  {
    Outcome(m.front, m.middle, m.Data(), false, false)
  }

  ghost predicate GoodCrcs(w: Writer)
  {
    w.frontCrc == Crc(SEED, w.msg.front) && w.middleCrc == MiddleCrc(w.msg.middle, w.msg.pieces != [])
  }

  /** Where a message that has not been revoked stands. */
  ghost predicate Sending(w: Writer)
  {
    match w.state
    case QueueData =>
      && w.msg.pieces != [] && GoodCrcs(w)
      && w.wire + w.iter == w.head + w.msg.front + w.msg.middle
    case QueueDataCont =>
      && 0 < w.next <= |w.msg.pieces| && GoodCrcs(w)
      && w.dataCrc == Crc(SEED, Join(w.msg.pieces[..w.next - 1])) && |w.iter| <= |w.msg.pieces[w.next - 1]|
      && w.wire + w.iter == w.head + w.msg.front + w.msg.middle + Join(w.msg.pieces[..w.next])
    case FinishMessage =>
      && w.wire + w.iter == FrameBytes(w.head, Whole(w.msg))
      && (!w.msg.Empty() ==>
            && w.frontCrc == CpuToLe(w.bigEndian, Crc(SEED, w.msg.front))
            && w.middleCrc == CpuToLe(w.bigEndian, MiddleCrc(w.msg.middle, w.msg.pieces != []))
            && w.dataCrc == CpuToLe(w.bigEndian, DataCrc(w.msg.Data()))
            && (w.msg.pieces != [] ==> |w.iter| <= EPILOGUE_PLAIN_LEN))
    case _ => false
  }

  /** Where a revoked message, or a finished one, stands. */
  ghost predicate Closing(w: Writer, o: Outcome)
  {
    match w.state
    case QueueZeros =>
      && !(o.front == [] && o.middle == [] && o.data == [])
      && w.wire + w.iter + Zeros(w.outZero) == Body(w.head, o)
      && Emitted(w, true) == Epilogue(o)
    case FinishMessage => w.wire + w.iter == FrameBytes(w.head, o)
    case GetNext => w.iter == [] && w.wire == FrameBytes(w.head, o)
    case _ => false
  }

  /** Every byte sent so far and every byte still to come make up the frame of outcome o. */
  ghost predicate Valid(w: Writer, o: Outcome)
  {
    && |w.head| == HEAD_LEN && w.msg.Valid() && Sent(w.msg, o)
    && (w.live ==> Sending(w) && o == Whole(w.msg))
    && (!w.live ==> Closing(w, o))
    && (w.state != QueueZeros ==> w.outZero == 0)
  }

  lemma JoinNone()
    ensures Join([]) == []
  {
  }

  lemma CrcNothing()
    ensures Crc(SEED, []) == SEED
  {
  }

  /** An epilogue encoded from the right checksums reads as it should. */
  lemma EmittedIs(w: Writer, abort: bool, o: Outcome)
    requires o.aborted == abort && !o.swapped
    requires w.frontCrc == Crc(SEED, o.front) && w.middleCrc == MiddleCrc(o.middle, o.data != [])
    requires w.dataCrc == DataCrc(o.data)
    ensures Emitted(w, abort) == Epilogue(o)
  {
    hide Crc, Le32, Be32, Swap;
    EmittedOnce(w.bigEndian, w.frontCrc);
    EmittedOnce(w.bigEndian, w.middleCrc);
    EmittedOnce(w.bigEndian, w.dataCrc);
  }

  lemma WholeIsSent(m: Message)
    ensures Sent(m, Whole(m))
  {
    NotZeroed(m.front);
    NotZeroed(m.middle);
    NotZeroed(m.Data());
  }

  lemma StartValid(be: bool, head: seq<bv8>, m: Message)
    requires |head| == HEAD_LEN && m.Valid()
    ensures Valid(Start(be, head, m), Whole(m)) && Start(be, head, m).iter != []
  {
    hide Crc, Le32, Be32, Swap, InMemory, Encoded;
    CrcNothing();
    WholeIsSent(m);
    JoinNonEmpty(m.pieces);
    var w := Start(be, head, m);
    if !m.Empty() && m.pieces == [] {
      var w0 := w.(frontCrc := Crc(SEED, m.front), middleCrc := MiddleCrc(m.middle, false), dataCrc := 0);
      EmittedIs(w0, false, Whole(m));
      assert Body(head, Whole(m)) == head + m.front + m.middle;
    }
  }

  lemma TakeValid(w: Writer, o: Outcome, k: nat)
    requires Valid(w, o) && k <= |w.iter| && w.state != GetNext
    ensures Valid(Take(w, k), o)
  {
    hide Crc, Epilogue, FrameBytes, Encoded;
    var w' := Take(w, k);
    assert w'.wire + w'.iter == w.wire + w.iter;
  }

  lemma {:induction false} JoinAppend(a: seq<seq<bv8>>, b: seq<seq<bv8>>)
    ensures Join(a + b) == Join(a) + Join(b)
  {
    if a == [] {
      assert a + b == b;
    } else {
      assert (a + b)[0] == a[0] && (a + b)[1..] == a[1..] + b;
      JoinAppend(a[1..], b);
    }
  }

  lemma JoinTake(pieces: seq<seq<bv8>>, k: nat)
    requires k < |pieces|
    ensures Join(pieces[..k + 1]) == Join(pieces[..k]) + pieces[k]
    ensures Join(pieces) == Join(pieces[..k]) + pieces[k] + Join(pieces[k + 1..])
  {
    assert pieces[..k + 1] == pieces[..k] + [pieces[k]];
    JoinAppend(pieces[..k], [pieces[k]]);
    assert Join([pieces[k]]) == pieces[k] by { assert [pieces[k]][1..] == []; }
    assert pieces == pieces[..k + 1] + pieces[k + 1..];
    JoinAppend(pieces[..k + 1], pieces[k + 1..]);
  }

  lemma ZerosValid(w: Writer, o: Outcome)
    requires Valid(w, o) && !w.live && w.state == QueueZeros && w.iter == []
    ensures Valid(QueueMoreZeros(w), o) && QueueMoreZeros(w).iter != []
  {
    hide Crc, Epilogue, Encoded;
    var w' := QueueMoreZeros(w);
    if w.outZero > 0 {
      var n := if w.outZero <= PAGE_SIZE then w.outZero else PAGE_SIZE;
      ZerosAppend(n, w.outZero - n);
      assert w.wire + [] + Zeros(w.outZero) == w.wire + Zeros(n) + Zeros(w.outZero - n);
    } else {
      assert w.wire + [] + Zeros(0) == w.wire;
    }
  }

  lemma PopulateData(w: Writer)
    requires Valid(w, Whole(w.msg)) && w.live && w.iter == [] && w.state == QueueDataCont
    ensures Valid(Populate(w), Whole(w.msg)) && Populate(w).iter != []
  {
    hide Crc, Epilogue, Encoded, Join;
    var m, k := w.msg, w.next - 1;
    JoinTake(m.pieces, k);
    CrcAppend(SEED, Join(m.pieces[..k]), m.pieces[k]);
    JoinNonEmpty(m.pieces);
    assert w.wire + [] == w.wire;
    if w.next < |m.pieces| {
      JoinTake(m.pieces, w.next);
    } else {
      assert m.pieces[..w.next] == m.pieces;
      EmittedIs(w.(dataCrc := Crc(w.dataCrc, m.pieces[k])), false, Whole(m));
    }
  }

  /** Queueing what comes next keeps the frame on course, and is never empty before its end. */
  lemma PopulateValid(w: Writer, o: Outcome)
    requires Valid(w, o) && w.iter == []
    ensures Valid(Populate(w), o)
    ensures Populate(w).state != GetNext ==> Populate(w).iter != [] && Populate(w).live == w.live
  {
    hide Crc, Epilogue, Encoded, Join;
    var m := w.msg;
    match w.state {
      case QueueData =>
        JoinTake(m.pieces, 0);
        JoinNone();
        assert m.pieces[..0] == [] && w.wire + [] == w.wire;
        CrcNothing();
      case QueueDataCont => PopulateData(w);
      case QueueZeros => ZerosValid(w, o);
      case FinishMessage => assert w.wire + [] == w.wire;
      case GetNext =>
    }
  }

  // -------------------------------------------------------------- revoking

  function Shorten(s: seq<bv8>, n: nat): (r: seq<bv8>)
    ensures |r| == if n <= |s| then |s| - n else 0
  {
    if n <= |s| then s[..|s| - n] else []
  }

  /** The checksum of a segment whose last resid bytes are sent as zeros. */
  function ZeroedCrc(segment: seq<bv8>, resid: nat): bv32
    requires resid <= |segment|
  {
    var sent := |segment| - resid;
    if sent > 0 then Crc(Crc(SEED, segment[..sent]), Zeros(resid)) else Crc(SEED, Zeros(resid))
  }

  /** prepare_zero_front */
  function ZeroFront(w: Writer, resid: nat): (r: Writer)
    ensures SameFrame(w, r)
    requires resid <= |w.msg.front|
  {
    w.(frontCrc := ZeroedCrc(w.msg.front, resid), iter := Shorten(w.iter, resid), outZero := w.outZero + resid)
  }

  /** prepare_zero_middle */
  function ZeroMiddle(w: Writer, resid: nat): (r: Writer)
    ensures SameFrame(w, r)
    requires resid <= |w.msg.middle|
  {
    w.(middleCrc := ZeroedCrc(w.msg.middle, resid), iter := Shorten(w.iter, resid), outZero := w.outZero + resid)
  }

  function ZeroWholeMiddle(w: Writer): (r: Writer)
    ensures SameFrame(w, r)
  {
    if w.msg.middle != [] then ZeroMiddle(w, |w.msg.middle|) else w
  }

  function ZeroFrontAndMiddle(w: Writer): (r: Writer)
    ensures SameFrame(w, r)
  {
    ZeroWholeMiddle(if w.msg.front != [] then ZeroFront(w, |w.msg.front|) else w)
  }

  /** prepare_zero_data */
  function ZeroData(w: Writer): (r: Writer)
    ensures SameFrame(w, r)
  {
    var n := |w.msg.Data()|;
    w.(dataCrc := Crc(SEED, Zeros(n)), outZero := w.outZero + n)
  }

  /** revoke_at_queue_data */
  function RevokeAtQueueData(w: Writer): (r: Writer)
    ensures SameFrame(w, r)
  {
    var f, m, resid := |w.msg.front|, |w.msg.middle|, |w.iter|;
    if resid > f + m then ZeroData(ZeroFrontAndMiddle(w)).(state := QueueZeros)
    else if resid > m then QueueMoreZeros(ZeroData(ZeroWholeMiddle(ZeroFront(w, resid - m))))
    else QueueMoreZeros(ZeroData(ZeroMiddle(w, resid)))
  }

  /** revoke_at_queue_data_cont */
  function RevokeAtDataCont(w: Writer): (r: Writer)
    ensures SameFrame(w, r)
    requires 0 < w.next <= |w.msg.pieces|
  {
    var piece := w.msg.pieces[w.next - 1];
    var sent := if |w.iter| <= |piece| then |piece| - |w.iter| else 0;
    var crc := if sent > 0 then Crc(w.dataCrc, piece[..sent]) else w.dataCrc;
    var resid := (|piece| - sent) + |Join(w.msg.pieces[w.next..])|;
    QueueMoreZeros(w.(dataCrc := Crc(crc, Zeros(resid)), iter := [], outZero := w.outZero + resid))
  }

  /** revoke_at_finish_message */
  function RevokeAtFinish(w: Writer): (r: Writer)
    ensures SameFrame(w, r)
  {
    var f, m, resid := |w.msg.front|, |w.msg.middle|, |w.iter|;
    if w.msg.Empty() then w
    else if resid > f + m + EPILOGUE_PLAIN_LEN then
      var w' := ZeroFrontAndMiddle(w);
      w'.(iter := Shorten(w'.iter, EPILOGUE_PLAIN_LEN), state := QueueZeros)
    else if resid > m + EPILOGUE_PLAIN_LEN then
      var w' := ZeroWholeMiddle(ZeroFront(w, resid - m - EPILOGUE_PLAIN_LEN));
      QueueMoreZeros(w'.(iter := Shorten(w'.iter, EPILOGUE_PLAIN_LEN)))
    else if resid > EPILOGUE_PLAIN_LEN then
      var w' := ZeroMiddle(w, resid - EPILOGUE_PLAIN_LEN);
      QueueMoreZeros(w'.(iter := Shorten(w'.iter, EPILOGUE_PLAIN_LEN)))
    else w
  }

  /** ceph_con_v2_revoke in plain mode, and the release of the message that follows it */
  function Revoke(w: Writer): (r: Writer)
    ensures SameFrame(w, r)
  {
    (match w.state
     case QueueData => RevokeAtQueueData(w)
     case QueueDataCont => if 0 < w.next <= |w.msg.pieces| then RevokeAtDataCont(w) else w
     case FinishMessage => RevokeAtFinish(w)
     case _ => w).(live := false)
  }

  // ----------------------------------------------- what a revoked frame is

  /** The first k bytes of a segment, the rest zeroed. */
  function ZeroFrom(segment: seq<bv8>, k: int): (s: seq<bv8>)
    ensures |s| == |segment|
  {
    if k <= 0 then Zeros(|segment|) else if k >= |segment| then segment else segment[..k] + Zeros(|segment| - k)
  }

  lemma ZeroFromIsZeroFilled(segment: seq<bv8>, k: int)
    ensures ZeroFilled(ZeroFrom(segment, k), segment)
  {
    var j := if k <= 0 then 0 else if k >= |segment| then |segment| else k;
    assert ZeroFrom(segment, k) == segment[..j] + Zeros(|segment| - j);
  }

  /** Revoking comes too late once only the epilogue, or the head of an empty message, is left. */
  predicate TooLate(w: Writer)
  {
    w.state == FinishMessage && (w.msg.Empty() || |w.iter| <= EPILOGUE_PLAIN_LEN)
  }

  /** The middle of a message without data is being sent: its front checksum is encoded already. */
  predicate SendingLastMiddle(w: Writer)
  {
    w.state == FinishMessage && !w.msg.Empty() && EPILOGUE_PLAIN_LEN < |w.iter| <= |w.msg.middle| + EPILOGUE_PLAIN_LEN
  }

  /** The message as cut off after n bytes of its segments. */
  function CutOff(m: Message, n: int, swapped: bool): Outcome
  {
    Outcome(ZeroFrom(m.front, n), ZeroFrom(m.middle, n - |m.front|), ZeroFrom(m.Data(), n - |m.front| - |m.middle|),
            true, swapped)
  }

  function RevokedOutcome(w: Writer): Outcome
  {
    if TooLate(w) then Whole(w.msg)
    else CutOff(w.msg, |w.wire| - HEAD_LEN, w.bigEndian && SendingLastMiddle(w))
  }

  /** Zeros after a prefix of the body make the body of the message cut off there. */
  lemma CutOffBody(head: seq<bv8>, m: Message, wire: seq<bv8>, swapped: bool)
    requires head <= wire <= Body(head, Whole(m))
    ensures wire + Zeros(|Body(head, Whole(m))| - |wire|) == Body(head, CutOff(m, |wire| - |head|, swapped))
  {
    var n, f, md := |wire| - |head|, |m.front|, |m.middle|;
    var body := Body(head, Whole(m));
    var left, right := wire + Zeros(|body| - |wire|), Body(head, CutOff(m, n, swapped));
    forall i | 0 <= i < |left|
      ensures left[i] == right[i]
    {
      if i < |wire| { assert wire[i] == body[i]; }
    }
  }

  lemma ZeroedCrcIs(segment: seq<bv8>, resid: nat)
    requires resid <= |segment|
    ensures ZeroedCrc(segment, resid) == Crc(SEED, ZeroFrom(segment, |segment| - resid))
  {
    hide Crc;
    var sent := |segment| - resid;
    CrcAppend(SEED, segment[..sent], Zeros(resid));
    if resid == 0 { assert segment[..sent] + Zeros(0) == segment; }
  }

  lemma CutOffSent(m: Message, n: int, swapped: bool)
    ensures Sent(m, CutOff(m, n, swapped))
  {
    ZeroFromIsZeroFilled(m.front, n);
    ZeroFromIsZeroFilled(m.middle, n - |m.front|);
    ZeroFromIsZeroFilled(m.Data(), n - |m.front| - |m.middle|);
  }

  /** Once the zeros left and the checksums are right, zeros and an aborted epilogue finish the frame. */
  lemma ToZeros(z: Writer, o: Outcome)
    requires |z.head| == HEAD_LEN && z.msg.Valid() && Sent(z.msg, o)
    requires !(o.front == [] && o.middle == [] && o.data == [])
    requires z.wire + z.iter + Zeros(z.outZero) == Body(z.head, o) && Emitted(z, true) == Epilogue(o)
    ensures Valid(z.(state := QueueZeros, live := false), o)
    ensures z.iter == [] ==>
              Valid(QueueMoreZeros(z).(live := false), o) && QueueMoreZeros(z).iter != []
  {
    hide Crc, Epilogue, Encoded, Sent, Body, FrameBytes, Sending;
    if z.iter == [] { ZerosValid(z.(state := QueueZeros, live := false), o); }
  }

  lemma RevokeHead(w: Writer, z: Writer, o: Outcome)
    requires |w.head| == HEAD_LEN && w.msg.Valid() && !w.msg.Empty() && o == CutOff(w.msg, |w.wire| - HEAD_LEN, false)
    requires z.head == w.head && z.msg == w.msg && z.wire == w.wire && z.bigEndian == w.bigEndian
    requires w.head <= w.wire + w.iter && |w.wire| <= |w.head|
    requires |z.iter| == |w.head| - |w.wire| && z.iter <= w.iter
    requires z.outZero == |w.msg.front| + |w.msg.middle| + |w.msg.Data()|
    requires z.frontCrc == Crc(SEED, Zeros(|w.msg.front|))
    requires z.middleCrc == MiddleCrc(Zeros(|w.msg.middle|), w.msg.pieces != [])
    requires z.dataCrc == DataCrc(Zeros(|w.msg.Data()|))
    ensures Valid(z.(state := QueueZeros, live := false), o)
  {
    hide Crc, Encoded, Epilogue, DataCrc, MiddleCrc, Join;
    JoinNonEmpty(w.msg.pieces);
    CutOffSent(w.msg, |w.wire| - HEAD_LEN, false);
    assert z.wire + z.iter == w.head;
    CutOffBody(w.head, w.msg, w.head, false);
    EmittedIs(z, true, o);
    ToZeros(z, o);
  }

  lemma RevokeTail(w: Writer, z: Writer, o: Outcome)
    requires |w.head| == HEAD_LEN && w.msg.Valid() && !w.msg.Empty()
    requires o.aborted && o == CutOff(w.msg, |w.wire| - HEAD_LEN, o.swapped)
    requires z.head == w.head && z.msg == w.msg && z.wire == w.wire && z.iter == []
    requires w.head <= w.wire <= Body(w.head, Whole(w.msg))
    requires z.outZero == |Body(w.head, Whole(w.msg))| - |w.wire|
    requires Emitted(z, true) == Epilogue(o)
    ensures Valid(QueueMoreZeros(z).(live := false), o) && QueueMoreZeros(z).iter != []
  {
    hide Crc, Encoded, Epilogue, Join;
    JoinNonEmpty(w.msg.pieces);
    CutOffSent(w.msg, |w.wire| - HEAD_LEN, o.swapped);
    CutOffBody(w.head, w.msg, w.wire, o.swapped);
    assert z.wire + [] + Zeros(z.outZero) == w.wire + Zeros(z.outZero);
    ToZeros(z, o);
  }

  lemma ShortenTwice(s: seq<bv8>, a: nat, b: nat)
    requires a + b <= |s|
    ensures Shorten(Shorten(s, a), b) == s[..|s| - a - b]
  {
  }

  /** The checksums after prepare_zero_front and prepare_zero_middle on whole segments. */
  lemma ZeroedFields(w: Writer)
    requires w.msg.front == [] ==> w.frontCrc == SEED
    requires w.msg.middle == [] ==> w.middleCrc == if w.msg.pieces != [] then SEED else 0
    ensures
      var z := ZeroFrontAndMiddle(w);
      && z.frontCrc == Crc(SEED, Zeros(|w.msg.front|))
      && z.middleCrc == MiddleCrc(Zeros(|w.msg.middle|), w.msg.pieces != [])
      && z.outZero == w.outZero + |w.msg.front| + |w.msg.middle|
      && z.iter == Shorten(Shorten(w.iter, |w.msg.front|), |w.msg.middle|)
      && z.(frontCrc := w.frontCrc, middleCrc := w.middleCrc, outZero := w.outZero, iter := w.iter) == w
  {
    hide Crc, ZeroedCrc;
    CrcNothing();
    ZeroedCrcIs(w.msg.front, |w.msg.front|);
    ZeroedCrcIs(w.msg.middle, |w.msg.middle|);
    assert Zeros(0) == [];
  }

  lemma RevokeQueueDataHead(w: Writer)
    requires Valid(w, Whole(w.msg)) && w.live && w.state == QueueData
    requires |w.iter| > |w.msg.front| + |w.msg.middle|
    ensures Valid(Revoke(w), RevokedOutcome(w)) && Revoke(w).iter != []
  {
    hide Crc, Encoded, Epilogue, Join, ZeroFrontAndMiddle;
    CrcNothing();
    var f, m := |w.msg.front|, |w.msg.middle|;
    ZeroedFields(w);
    ShortenTwice(w.iter, f, m);
    JoinNonEmpty(w.msg.pieces);
    var z := ZeroData(ZeroFrontAndMiddle(w));
    assert z.iter == w.iter[..|w.iter| - f - m];
    assert w.wire + w.iter == w.head + w.msg.front + w.msg.middle;
    assert |w.wire| + |w.iter| == |w.head| + f + m;
    assert w.head <= w.wire + w.iter;
    RevokeHead(w, z, RevokedOutcome(w));
  }

  /** Cutting a body of head, front and middle by the bytes left of it. */
  lemma LeftOver(w: Writer, tail: nat)
    requires |w.head| == HEAD_LEN && tail <= |w.iter| <= |w.msg.front| + |w.msg.middle| + tail
    requires |w.wire| + |w.iter| == |w.head| + |w.msg.front| + |w.msg.middle| + tail
    requires w.head + w.msg.front + w.msg.middle <= w.wire + w.iter
    ensures w.head <= w.wire <= Body(w.head, Whole(w.msg))
  {
    hide Join;
    var b := w.head + w.msg.front + w.msg.middle;
    assert w.wire <= w.wire + w.iter;
    assert w.wire <= b && b <= Body(w.head, Whole(w.msg)) && w.head <= b;
  }

  /** The checksum fields of a message cut off in its front or in its middle. */
  lemma TailFields(w: Writer, n: nat)
    requires n <= |w.msg.front| + |w.msg.middle|
    requires w.msg.middle == [] ==> w.middleCrc == MiddleCrc([], w.msg.pieces != [])
    ensures
      var f, m := |w.msg.front|, |w.msg.middle|;
      var z := TailZeroed(w, n);
      var o := CutOff(w.msg, n, false);
      && z.frontCrc == (if n < f then Crc(SEED, o.front) else w.frontCrc)
      && (m > 0 || n < f ==> z.middleCrc == MiddleCrc(o.middle, w.msg.pieces != []))
      && z.outZero == w.outZero + f + m - n && z.dataCrc == w.dataCrc
  {
    hide Crc, ZeroedCrc, Join;
    var f, m := |w.msg.front|, |w.msg.middle|;
    if n < f {
      ZeroedCrcIs(w.msg.front, f - n);
      if m > 0 { ZeroedCrcIs(w.msg.middle, m); }
    } else {
      ZeroedCrcIs(w.msg.middle, m - (n - f));
    }
  }

  /** A message being cut off in its front or in its middle, n bytes after its head. */
  function TailZeroed(w: Writer, n: nat): (r: Writer)
    requires n <= |w.msg.front| + |w.msg.middle|
    ensures SameFrame(w, r)
  {
    var f, m := |w.msg.front|, |w.msg.middle|;
    if n < f then ZeroWholeMiddle(ZeroFront(w, f - n)) else ZeroMiddle(w, m - (n - f))
  }

  lemma QueueDataTailIs(w: Writer)
    requires w.state == QueueData && |w.iter| <= |w.msg.front| + |w.msg.middle|
    ensures
      var z := ZeroData(TailZeroed(w, |w.msg.front| + |w.msg.middle| - |w.iter|));
      Revoke(w) == QueueMoreZeros(z).(live := false) && z.iter == []
  {
    hide Crc, ZeroedCrc, Join, QueueMoreZeros;
  }

  lemma ZeroDataCrc(w: Writer)
    requires w.msg.Data() != []
    ensures ZeroData(w).dataCrc == DataCrc(Zeros(|w.msg.Data()|))
  {
    hide Crc, Join;
  }

  lemma BodyLength(head: seq<bv8>, o: Outcome)
    ensures |Body(head, o)| == |head| + |o.front| + |o.middle| + |o.data|
  {
  }

  lemma QueueDataTailEmitted(w: Writer, n: nat)
    requires n < |w.msg.front| + |w.msg.middle| && GoodCrcs(w) && w.outZero == 0 && w.msg.Data() != []
    ensures
      var z := ZeroData(TailZeroed(w, n));
      && Emitted(z, true) == Epilogue(CutOff(w.msg, n, false))
      && z.outZero == |w.msg.front| + |w.msg.middle| + |w.msg.Data()| - n
  {
    hide Crc, Encoded, Epilogue, Join, ZeroedCrc, TailZeroed, MiddleCrc, DataCrc;
    var z0 := TailZeroed(w, n);
    var o := CutOff(w.msg, n, false);
    TailFields(w, n);
    assert o.data == Zeros(|w.msg.Data()|) && (n >= |w.msg.front| ==> o.front == w.msg.front);
    ZeroDataCrc(z0);
    DataNeedsPieces(w.msg);
    EmittedIs(ZeroData(z0), true, o);
  }

  lemma DataNeedsPieces(m: Message)
    ensures m.Data() != [] ==> m.pieces != []
  {
  }

  /** What is known while the head, the front and the middle go out. */
  lemma QueueDataFacts(w: Writer)
    requires Valid(w, Whole(w.msg)) && w.live && w.state == QueueData
    ensures w.wire + w.iter == w.head + w.msg.front + w.msg.middle && |w.head| == HEAD_LEN && w.outZero == 0
    ensures GoodCrcs(w) && w.msg.Valid() && w.msg.Data() != []
  {
    hide Crc, Encoded, Epilogue;
    JoinNonEmpty(w.msg.pieces);
  }

  lemma RevokeQueueDataTail(w: Writer)
    requires Valid(w, Whole(w.msg)) && w.live && w.state == QueueData && w.iter != []
    requires |w.iter| <= |w.msg.front| + |w.msg.middle|
    ensures Valid(Revoke(w), RevokedOutcome(w)) && Revoke(w).iter != []
  {
    hide Crc, Encoded, Epilogue, Join, ZeroedCrc, Valid, Sending, Revoke, QueueMoreZeros, TailZeroed, MiddleCrc, DataCrc,
      Body, Sent, CutOff, GoodCrcs, Emitted, ZeroData;
    QueueDataFacts(w);
    var f, m := |w.msg.front|, |w.msg.middle|;
    assert |w.wire + w.iter| == |w.head| + f + m;
    var n := |w.wire| - HEAD_LEN;
    LeftOver(w, 0);
    QueueDataTailIs(w);
    QueueDataTailEmitted(w, n);
    BodyLength(w.head, Whole(w.msg));
    CutOffAborted(w.msg, n, false);
    RevokeTail(w, ZeroData(TailZeroed(w, n)), CutOff(w.msg, n, false));
  }

  lemma CutOffAborted(m: Message, n: int, swapped: bool)
    ensures CutOff(m, n, swapped).aborted && CutOff(m, n, swapped).swapped == swapped
  {
  }

  lemma RevokeDataContValid(w: Writer)
    requires Valid(w, Whole(w.msg)) && w.live && w.state == QueueDataCont && w.iter != []
    ensures Valid(Revoke(w), RevokedOutcome(w)) && Revoke(w).iter != []
  {
    hide Crc, Encoded, Epilogue, Join;
    var f, m, k := |w.msg.front|, |w.msg.middle|, w.next - 1;
    var piece := w.msg.pieces[k];
    var sent := |piece| - |w.iter|;
    var before := Join(w.msg.pieces[..k]);
    JoinTake(w.msg.pieces, k);
    JoinNonEmpty(w.msg.pieces);
    var rest := |w.iter| + |Join(w.msg.pieces[w.next..])|;
    var crc := if sent > 0 then Crc(w.dataCrc, piece[..sent]) else w.dataCrc;
    var z := w.(dataCrc := Crc(crc, Zeros(rest)), iter := [], outZero := w.outZero + rest);
    assert Revoke(w) == QueueMoreZeros(z).(live := false) && w.outZero == 0 && GoodCrcs(w);
    assert w.dataCrc == Crc(SEED, before) && w.msg.Valid() && |w.head| == HEAD_LEN;
    assert w.wire + w.iter == w.head + w.msg.front + w.msg.middle + (before + piece);
    hide Valid, Sending, Revoke, RevokeAtDataCont, QueueMoreZeros;
    var o := RevokedOutcome(w);
    DataContCrc(before, piece, sent, rest);
    DataContPrefix(w, before, piece, sent);
    DataContOutcome(w.head, w.msg, w.wire, before, piece, sent, rest);
    hide RevokedOutcome, CutOff, ZeroFrom;
    EmittedIs(z, true, o);
    RevokeTail(w, z, o);
  }

  lemma DataContOutcome(head: seq<bv8>, m: Message, wire: seq<bv8>, before: seq<bv8>, piece: seq<bv8>, sent: nat, rest: nat)
    requires |head| == HEAD_LEN && sent <= |piece| && wire == head + m.front + m.middle + before + piece[..sent]
    requires before + piece <= m.Data() && |m.Data()| == |before| + sent + rest
    ensures
      var o := CutOff(m, |wire| - HEAD_LEN, false);
      o.data == before + piece[..sent] + Zeros(rest) && o.front == m.front && o.middle == m.middle
  {
    hide Join;
    assert m.Data()[..|before| + sent] == before + piece[..sent];
  }

  lemma DataContCrc(before: seq<bv8>, piece: seq<bv8>, sent: nat, rest: nat)
    requires sent <= |piece|
    ensures
      var crc := if sent > 0 then Crc(Crc(SEED, before), piece[..sent]) else Crc(SEED, before);
      Crc(crc, Zeros(rest)) == Crc(SEED, before + piece[..sent] + Zeros(rest))
  {
    hide Crc;
    CrcAppend(SEED, before, piece[..sent]);
    CrcAppend(SEED, before + piece[..sent], Zeros(rest));
    assert sent == 0 ==> before + piece[..sent] == before;
  }

  lemma DataContPrefix(w: Writer, before: seq<bv8>, piece: seq<bv8>, sent: nat)
    requires w.wire + w.iter == w.head + w.msg.front + w.msg.middle + (before + piece)
    requires sent + |w.iter| == |piece| && before + piece <= w.msg.Data()
    ensures w.wire == w.head + w.msg.front + w.msg.middle + before + piece[..sent]
    ensures w.head <= w.wire <= Body(w.head, Whole(w.msg))
  {
    hide Join;
    var b := w.head + w.msg.front + w.msg.middle;
    assert w.wire + w.iter == b + before + piece[..sent] + piece[sent..];
    CutPrefix(w.wire, w.iter, b + before + piece[..sent] + piece[sent..]);
    assert w.wire == (b + before + piece[..sent]);
    assert before + piece[..sent] <= before + piece;
    assert b + (before + piece[..sent]) <= b + w.msg.Data();
    assert w.wire == b + (before + piece[..sent]) && b + w.msg.Data() == Body(w.head, Whole(w.msg));
  }

  lemma CutPrefix(done: seq<bv8>, left: seq<bv8>, whole: seq<bv8>)
    requires done + left == whole
    ensures done == whole[..|whole| - |left|] && left == whole[|whole| - |left|..]
  {
  }

  lemma SwapInvariant(be: bool)
    ensures CpuToLe(be, SEED) == SEED && CpuToLe(be, 0) == 0
  {
    assert Swap(0xffff_ffff) == 0xffff_ffff && Swap(0) == 0;
  }

  /** A front checksum that is encoded a second time. */
  lemma EmittedSwapped(w: Writer, o: Outcome)
    requires o.aborted && o.swapped == w.bigEndian
    requires w.frontCrc == CpuToLe(w.bigEndian, Crc(SEED, o.front))
    requires w.middleCrc == MiddleCrc(o.middle, o.data != []) && w.dataCrc == DataCrc(o.data)
    ensures Emitted(w, true) == Epilogue(o)
  {
    hide Crc, Le32, Be32, Swap, CpuToLe, InMemory;
    EmittedTwice(w.bigEndian, Crc(SEED, o.front));
    EmittedOnce(w.bigEndian, w.middleCrc);
    EmittedOnce(w.bigEndian, w.dataCrc);
  }

  /** With bytes before the epilogue still queued, the message has no data and the queue is known. */
  lemma FinishQueue(w: Writer)
    requires Valid(w, Whole(w.msg)) && w.live && w.state == FinishMessage && !TooLate(w)
    ensures w.msg.pieces == [] && w.msg.Data() == []
    ensures |w.wire| + |w.iter| == |w.head| + |w.msg.front| + |w.msg.middle| + EPILOGUE_PLAIN_LEN
    ensures w.head + w.msg.front + w.msg.middle <= w.wire + w.iter
    ensures |Body(w.head, Whole(w.msg))| == |w.head| + |w.msg.front| + |w.msg.middle|
    ensures w.frontCrc == CpuToLe(w.bigEndian, Crc(SEED, w.msg.front)) && w.dataCrc == 0
    ensures w.msg.front == [] ==> w.frontCrc == SEED
    ensures w.msg.middle == [] ==> w.middleCrc == 0
  {
    hide Crc, Epilogue, CpuToLe;
    CrcNothing();
    SwapInvariant(w.bigEndian);
    JoinNone();
    var b := w.head + w.msg.front + w.msg.middle;
    assert Body(w.head, Whole(w.msg)) == b;
    assert w.wire + w.iter == b + Epilogue(Whole(w.msg));
  }

  lemma RevokeFinishHead(w: Writer)
    requires Valid(w, Whole(w.msg)) && w.live && w.state == FinishMessage && !TooLate(w)
    requires |w.iter| > |w.msg.front| + |w.msg.middle| + EPILOGUE_PLAIN_LEN
    ensures Valid(Revoke(w), RevokedOutcome(w)) && Revoke(w).iter != []
  {
    hide Crc, Encoded, Epilogue, Join, ZeroFrontAndMiddle, CpuToLe;
    FinishQueue(w);
    var f, m := |w.msg.front|, |w.msg.middle|;
    ZeroedFields(w);
    ShortenTwice(w.iter, f, m);
    var z0 := ZeroFrontAndMiddle(w);
    var z := z0.(iter := Shorten(z0.iter, EPILOGUE_PLAIN_LEN));
    assert z.iter == w.iter[..|w.iter| - f - m - EPILOGUE_PLAIN_LEN];
    assert w.head <= w.head + w.msg.front + w.msg.middle <= w.wire + w.iter;
    RevokeHead(w, z, RevokedOutcome(w));
  }

  /** What revoke_at_finish_message leaves once the head is out, before it queues zeros. */
  function FinishTail(w: Writer): (r: Writer)
    requires EPILOGUE_PLAIN_LEN < |w.iter| <= |w.msg.front| + |w.msg.middle| + EPILOGUE_PLAIN_LEN
    ensures SameFrame(w, r)
  {
    var z := TailZeroed(w, |w.msg.front| + |w.msg.middle| + EPILOGUE_PLAIN_LEN - |w.iter|);
    z.(iter := Shorten(z.iter, EPILOGUE_PLAIN_LEN))
  }

  lemma FinishTailEmpty(w: Writer)
    requires EPILOGUE_PLAIN_LEN < |w.iter| <= |w.msg.front| + |w.msg.middle| + EPILOGUE_PLAIN_LEN
    ensures FinishTail(w).iter == []
  {
    hide Crc, ZeroedCrc, Join, Shorten;
    assert |FinishTail(w).iter| == 0;
  }

  lemma FinishTailIs(w: Writer)
    requires w.state == FinishMessage && !TooLate(w)
    requires |w.iter| <= |w.msg.front| + |w.msg.middle| + EPILOGUE_PLAIN_LEN
    ensures Revoke(w) == QueueMoreZeros(FinishTail(w)).(live := false)
  {
    hide Crc, ZeroedCrc, Join, QueueMoreZeros, Shorten, Encoded;
  }

  lemma RevokeFinishTail(w: Writer)
    requires Valid(w, Whole(w.msg)) && w.live && w.state == FinishMessage && !TooLate(w)
    requires |w.iter| <= |w.msg.front| + |w.msg.middle| + EPILOGUE_PLAIN_LEN
    ensures Valid(Revoke(w), RevokedOutcome(w)) && Revoke(w).iter != []
  {
    hide Crc, Encoded, Epilogue, Join, ZeroedCrc, CpuToLe;
    FinishQueue(w);
    var f, m := |w.msg.front|, |w.msg.middle|;
    var n := |w.wire| - HEAD_LEN;
    LeftOver(w, EPILOGUE_PLAIN_LEN);
    TailFields(w, n);
    assert n == f + m + EPILOGUE_PLAIN_LEN - |w.iter|;
    var z := FinishTail(w);
    FinishTailEmpty(w);
    FinishTailIs(w);
    assert w.msg.Valid() && |w.head| == HEAD_LEN && w.outZero == 0;
    hide Valid, Sending, Revoke, QueueMoreZeros, TailZeroed, MiddleCrc, DataCrc;
    var o := RevokedOutcome(w);
    if n < f {
      EmittedIs(z, true, o);
    } else {
      EmittedSwapped(z, o);
    }
    RevokeTail(w, z, o);
  }

  /**
   Revoking at any byte of the frame: the bytes sent and still to be sent make up a frame
   of the same length, cut off where the socket had got to, with checksums to match.
   */
  lemma RevokeValid(w: Writer)
    requires Valid(w, Whole(w.msg)) && w.live && w.iter != []
    ensures Valid(Revoke(w), RevokedOutcome(w)) && Revoke(w).iter != [] && Revoke(w).wire == w.wire
  {
    assert w.state == QueueData || w.state == QueueDataCont || w.state == FinishMessage;
    if TooLate(w) { RevokeTooLate(w); }
    hide Valid, Revoke, RevokedOutcome;
    match w.state {
      case QueueData =>
        if |w.iter| > |w.msg.front| + |w.msg.middle| { RevokeQueueDataHead(w); } else { RevokeQueueDataTail(w); }
      case QueueDataCont => RevokeDataContValid(w);
      case FinishMessage =>
        if !TooLate(w) {
          if |w.iter| > |w.msg.front| + |w.msg.middle| + EPILOGUE_PLAIN_LEN { RevokeFinishHead(w); } else { RevokeFinishTail(w); }
        }
    }
  }

  lemma RevokeTooLate(w: Writer)
    requires Valid(w, Whole(w.msg)) && w.live && w.iter != [] && TooLate(w)
    ensures Valid(Revoke(w), RevokedOutcome(w)) && Revoke(w).iter != []
  {
    hide Crc, Encoded, Epilogue, Join;
  }

  // ------------------------------------------------------------ whole frames

  datatype Step = TakeBytes(k: nat) | QueueNext | RevokeMsg

  /** One step of a frame; a step that is not enabled changes nothing. */
  function Exec(w: Writer, s: Step): Writer
  {
    match s
    case TakeBytes(k) => if k <= |w.iter| && w.state != GetNext then Take(w, k) else w
    case QueueNext => if w.iter == [] then Populate(w) else w
    case RevokeMsg => if w.live && w.iter != [] then Revoke(w) else w
  }

  function ExecAll(w: Writer, steps: seq<Step>): Writer
    decreases |steps|
  {
    if steps == [] then w else ExecAll(Exec(w, steps[0]), steps[1..])
  }

  /** The outcome of a frame only changes, if at all, when its message is revoked. */
  lemma ExecValid(w: Writer, s: Step, o: Outcome) returns (o': Outcome)
    requires Valid(w, o) && (o.swapped ==> w.bigEndian)
    ensures Valid(Exec(w, s), o') && (o'.swapped ==> w.bigEndian)
    ensures Exec(w, s).head == w.head && Exec(w, s).msg == w.msg && Exec(w, s).bigEndian == w.bigEndian
  {
    hide Valid, Populate, Revoke;
    o' := o;
    match s
    case TakeBytes(k) => if k <= |w.iter| && w.state != GetNext { TakeValid(w, o, k); }
    case QueueNext => if w.iter == [] { PopulateValid(w, o); }
    case RevokeMsg =>
      if w.live && w.iter != [] {
        LiveOutcome(w, o);
        RevokeValid(w);
        o' := RevokedOutcome(w);
      }
  }

  lemma LiveOutcome(w: Writer, o: Outcome)
    requires Valid(w, o) && w.live
    ensures o == Whole(w.msg)
  {
  }

  /**
   Any interleaving of partial sends, queueing and a revocation: the message frame that comes
   out is the whole message, or the part that had been sent followed by zeros and an aborted
   epilogue with the checksums of just those bytes.
   */
  lemma {:induction false} FrameComesOut(w: Writer, steps: seq<Step>, o: Outcome) returns (o': Outcome)
    requires Valid(w, o) && (o.swapped ==> w.bigEndian)
    ensures Valid(ExecAll(w, steps), o') && (o'.swapped ==> w.bigEndian) && Sent(w.msg, o')
    ensures ExecAll(w, steps).state == GetNext ==> ExecAll(w, steps).wire == FrameBytes(w.head, o')
    decreases |steps|
  {
    hide Crc, Encoded, Epilogue, Join, Exec;
    if steps == [] {
      o' := o;
    } else {
      var o1 := ExecValid(w, steps[0], o);
      o' := FrameComesOut(Exec(w, steps[0]), steps[1..], o1);
    }
  }

  /** The bytes not yet queued. */
  function Unqueued(w: Writer): int
  {
    match w.state
    case QueueData => |w.msg.Data()| + EPILOGUE_PLAIN_LEN
    case QueueDataCont => (if w.next <= |w.msg.pieces| then |Join(w.msg.pieces[w.next..])| else 0) + EPILOGUE_PLAIN_LEN
    case QueueZeros => w.outZero + EPILOGUE_PLAIN_LEN
    case FinishMessage => 0
    case GetNext => 0
  }

  /** What has been sent is a prefix of the frame of the outcome. */
  lemma WirePrefix(w: Writer, o: Outcome)
    requires Valid(w, o)
    ensures w.wire <= FrameBytes(w.head, o)
  {
    hide Crc, Encoded, Epilogue, Join;
    JoinNonEmpty(w.msg.pieces);
    if w.state == QueueDataCont {
      JoinFront(w.msg.pieces, w.next);
      var sent := w.head + w.msg.front + w.msg.middle + Join(w.msg.pieces[..w.next]);
      assert w.wire <= w.wire + w.iter == sent <= Body(w.head, o);
    } else if w.state == QueueData {
      assert w.wire <= w.wire + w.iter == w.head + w.msg.front + w.msg.middle <= Body(w.head, o);
    } else if w.state == QueueZeros {
      assert w.wire <= w.wire + (w.iter + Zeros(w.outZero)) == Body(w.head, o);
    } else {
      assert w.wire <= w.wire + w.iter;
    }
  }

  lemma JoinFront(pieces: seq<seq<bv8>>, k: nat)
    requires k <= |pieces|
    ensures Join(pieces[..k]) <= Join(pieces)
  {
    assert pieces == pieces[..k] + pieces[k..];
    JoinAppend(pieces[..k], pieces[k..]);
  }

  function TailLength(front: nat, middle: nat, data: nat): nat
  {
    if front == 0 && middle == 0 && data == 0 then 0 else front + middle + data + EPILOGUE_PLAIN_LEN
  }

  /** Bytes sent, queued and still to be queued always add up to the length of the frame. */
  lemma Conserved(w: Writer, o: Outcome)
    requires Valid(w, o)
    ensures |w.wire| + |w.iter| + Unqueued(w)
         == HEAD_LEN + TailLength(|w.msg.front|, |w.msg.middle|, |w.msg.Data()|)
         == |FrameBytes(w.head, o)|
  {
    hide Crc, Encoded, Epilogue, Join;
    var m := w.msg;
    JoinNonEmpty(m.pieces);
    assert |o.front| == |m.front| && |o.middle| == |m.middle| && |o.data| == |m.Data()|;
    assert |w.wire + w.iter| == |w.wire| + |w.iter|;
    if w.state == QueueDataCont {
      JoinTake(m.pieces, w.next - 1);
      assert |w.wire + w.iter| == |w.head| + |m.front| + |m.middle| + |Join(m.pieces[..w.next])|;
    }
  }

  // ----------------------------------------------- the double byte swap

  /** A frame with a swapped front checksum is the right frame only if the checksum reads the same both ways. */
  lemma SwappedExactly(head: seq<bv8>, o: Outcome)
    requires o.swapped && o.middle != []
    ensures FrameBytes(head, o) == FrameBytes(head, o.(swapped := false))
            <==> Le32(Crc(SEED, o.front)) == Be32(Crc(SEED, o.front))
  {
    hide Crc, Le32, Be32;
    var e, e' := Epilogue(o), Epilogue(o.(swapped := false));
    assert Body(head, o) == Body(head, o.(swapped := false));
    if FrameBytes(head, o) == FrameBytes(head, o.(swapped := false)) {
      assert (Body(head, o) + e)[|Body(head, o)|..] == e;
      assert (Body(head, o) + e')[|Body(head, o)|..] == e';
      assert e[1..5] == Be32(Crc(SEED, o.front)) && e'[1..5] == Le32(Crc(SEED, o.front));
    }
  }

  /**
   What a revocation leads to is the frame that was meant, cut off at the byte reached, unless
   the machine is big-endian, the middle of a message without data is going out, and the
   checksum of the front reads differently backwards; then, and only then, it is not.
   */
  lemma RevokedFrameExactly(w: Writer)
    requires Valid(w, Whole(w.msg)) && w.live && w.iter != []
    ensures
      var o, crc := RevokedOutcome(w), Crc(SEED, w.msg.front);
      && Valid(Revoke(w), o)
      && (FrameBytes(w.head, o) == FrameBytes(w.head, o.(swapped := false))
          <==> !(w.bigEndian && SendingLastMiddle(w) && Le32(crc) != Be32(crc)))
  {
    RevokeValid(w);
    var o := RevokedOutcome(w);
    hide Revoke, Crc, Le32, Be32, Encoded, Join, FrameBytes, Epilogue;
    if w.bigEndian && SendingLastMiddle(w) {
      FinishQueue(w);
      assert |w.wire| - HEAD_LEN >= |w.msg.front| by { assert |w.head| == HEAD_LEN; }
      assert o.front == w.msg.front && |o.middle| == |w.msg.middle|;
      hide Valid;
      SwappedExactly(w.head, o);
    } else {
      assert o.(swapped := false) == o;
    }
  }

  /** It matters already for a front of one zero byte. */
  lemma SwapMatters()
    ensures Le32(Crc(SEED, [0])) != Be32(Crc(SEED, [0]))
  {
    assert Crc(SEED, [0]) == CrcByte(SEED, 0) by { assert [0 as bv8][..0] == []; }
    assert CrcByte(SEED, 0) == 0xad82_acae;
    assert Byte0(0xad82_acae) == 0xae && Byte3(0xad82_acae) == 0xad;
  }

  // ------------------------------------------------------- the connection

  /** The writer as the connection holds it: fields updated in place by each step. */
  class PlainConnection {
    const bigEndian: bool
    const head: seq<bv8>
    const msg: Message
    var live: bool
    var state: OutState
    var iter: seq<bv8>
    var outZero: nat
    var frontCrc: bv32
    var middleCrc: bv32
    var dataCrc: bv32
    var next: nat
    var wire: seq<bv8>

    ghost function View(): Writer
      reads this
    {
      Writer(bigEndian, head, msg, live, state, iter, outZero, frontCrc, middleCrc, dataCrc, next, wire)
    }

    /** prepare_message_plain */
    constructor (be: bool, hd: seq<bv8>, m: Message)
      ensures View() == Start(be, hd, m)
    {
      hide Crc, Encoded;
      bigEndian, head, msg, live, state := be, hd, m, true, QueueData;
      iter, outZero, next, wire := hd + m.front + m.middle, 0, 0, [];
      frontCrc := if m.front == [] then SEED else Crc(SEED, m.front);
      middleCrc := if m.middle != [] then Crc(SEED, m.middle) else if m.pieces != [] then SEED else 0;
      dataCrc := 0;
      new;
      if m.Empty() {
        state := FinishMessage;
      } else if m.pieces == [] {
        AddEpilogue(false);
      }
    }

    /** prepare_epilogue_plain */
    method AddEpilogue(abort: bool)
      modifies this`iter, this`state, this`frontCrc, this`middleCrc, this`dataCrc
      ensures View() == QueueEpilogue(old(View()), abort)
    {
      hide Crc, Be32, Le32, Swap;
      frontCrc := CpuToLe(bigEndian, frontCrc);
      middleCrc := CpuToLe(bigEndian, middleCrc);
      dataCrc := CpuToLe(bigEndian, dataCrc);
      var epilogue := [Status(abort)] + InMemory(bigEndian, frontCrc) + InMemory(bigEndian, middleCrc) + InMemory(bigEndian, dataCrc);
      iter := iter + epilogue;
      state := FinishMessage;
    }

    /** The socket accepts k bytes. */
    method SendBytes(k: nat)
      requires k <= |iter|
      modifies this`iter, this`wire
      ensures View() == Take(old(View()), k)
    {
      wire := wire + iter[..k];
      iter := iter[k..];
    }

    /** queue_zeros */
    method AddZeros()
      modifies this`iter, this`state, this`outZero, this`frontCrc, this`middleCrc, this`dataCrc
      ensures View() == QueueMoreZeros(old(View()))
    {
      hide Crc, Encoded;
      if outZero > 0 {
        var n := if outZero <= PAGE_SIZE then outZero else PAGE_SIZE;
        iter := Zeros(n);
        outZero := outZero - n;
        state := QueueZeros;
        return;
      }
      iter := [];
      AddEpilogue(true);
    }

    /** populate_out_iter */
    method PopulateOut()
      requires state == QueueData ==> msg.pieces != []
      requires state == QueueDataCont ==> 0 < next <= |msg.pieces|
      modifies this
      ensures View() == Populate(old(View()))
    {
      hide Crc, Encoded;
      match state {
        case QueueData =>
          dataCrc := SEED;
          next := 1;
          iter := msg.pieces[0];
          state := QueueDataCont;
        case QueueDataCont =>
          dataCrc := Crc(dataCrc, msg.pieces[next - 1]);
          if next < |msg.pieces| {
            iter := msg.pieces[next];
            next := next + 1;
          } else {
            AddEpilogue(false);
          }
        case QueueZeros => AddZeros();
        case FinishMessage =>
          live := false;
          state := GetNext;
        case GetNext =>
      }
    }

    /** The checksum of a segment whose last resid bytes become zeros. */
    method ZeroedChecksum(segment: seq<bv8>, resid: nat) returns (crc: bv32)
      requires resid <= |segment|
      ensures crc == ZeroedCrc(segment, resid)
    {
      hide Crc;
      var sent := |segment| - resid;
      if sent > 0 {
        crc := Crc(SEED, segment[..sent]);
        crc := CrcZeros(crc, resid);
      } else {
        crc := CrcZeros(SEED, resid);
      }
    }

    /** prepare_zero_front */
    method PrepareZeroFront(resid: nat)
      requires resid <= |msg.front|
      modifies this`frontCrc, this`iter, this`outZero
      ensures View() == ZeroFront(old(View()), resid)
    {
      hide ZeroedCrc;
      frontCrc := ZeroedChecksum(msg.front, resid);
      iter := Shorten(iter, resid);
      outZero := outZero + resid;
    }

    /** prepare_zero_middle */
    method PrepareZeroMiddle(resid: nat)
      requires resid <= |msg.middle|
      modifies this`middleCrc, this`iter, this`outZero
      ensures View() == ZeroMiddle(old(View()), resid)
    {
      hide ZeroedCrc;
      middleCrc := ZeroedChecksum(msg.middle, resid);
      iter := Shorten(iter, resid);
      outZero := outZero + resid;
    }

    /** prepare_zero_data */
    method PrepareZeroData()
      modifies this`dataCrc, this`outZero
      ensures View() == ZeroData(old(View()))
    {
      hide Crc, Join;
      dataCrc := CrcZeros(SEED, |msg.Data()|);
      outZero := outZero + |msg.Data()|;
    }

    /** revoke_at_queue_data */
    method RevokeQueueData()
      modifies this
      ensures View() == RevokeAtQueueData(old(View()))
    {
      hide Crc, Encoded, ZeroedCrc, Join, QueueMoreZeros;
      var resid, boundary := |iter|, |msg.front| + |msg.middle|;
      if resid > boundary {
        if msg.front != [] { PrepareZeroFront(|msg.front|); }
        if msg.middle != [] { PrepareZeroMiddle(|msg.middle|); }
        PrepareZeroData();
        state := QueueZeros;
        return;
      }
      boundary := |msg.middle|;
      if resid > boundary {
        PrepareZeroFront(resid - boundary);
        if msg.middle != [] { PrepareZeroMiddle(|msg.middle|); }
        PrepareZeroData();
        AddZeros();
        return;
      }
      PrepareZeroMiddle(resid);
      PrepareZeroData();
      AddZeros();
    }

    /** revoke_at_queue_data_cont */
    method RevokeDataCont()
      requires 0 < next <= |msg.pieces| && |iter| <= |msg.pieces[next - 1]|
      modifies this
      ensures View() == RevokeAtDataCont(old(View()))
    {
      hide Crc, Encoded, Join, QueueMoreZeros;
      var piece := msg.pieces[next - 1];
      var resid := |iter|;
      var sent := |piece| - resid;
      if sent > 0 {
        dataCrc := Crc(dataCrc, piece[..sent]);
      }
      var totalResid := resid + |Join(msg.pieces[next..])|;
      dataCrc := CrcZeros(dataCrc, totalResid);
      iter := [];
      outZero := outZero + totalResid;
      AddZeros();
    }

    /** revoke_at_finish_message */
    method RevokeFinish()
      modifies this
      ensures View() == RevokeAtFinish(old(View()))
    {
      hide Crc, Encoded, ZeroedCrc, Join, QueueMoreZeros;
      var resid := |iter|;
      if msg.Empty() {
        return;
      }
      var boundary := |msg.front| + |msg.middle| + EPILOGUE_PLAIN_LEN;
      if resid > boundary {
        if msg.front != [] { PrepareZeroFront(|msg.front|); }
        if msg.middle != [] { PrepareZeroMiddle(|msg.middle|); }
        iter := Shorten(iter, EPILOGUE_PLAIN_LEN);
        state := QueueZeros;
        return;
      }
      boundary := |msg.middle| + EPILOGUE_PLAIN_LEN;
      if resid > boundary {
        PrepareZeroFront(resid - boundary);
        if msg.middle != [] { PrepareZeroMiddle(|msg.middle|); }
        iter := Shorten(iter, EPILOGUE_PLAIN_LEN);
        AddZeros();
        return;
      }
      boundary := EPILOGUE_PLAIN_LEN;
      if resid > boundary {
        PrepareZeroMiddle(resid - boundary);
        iter := Shorten(iter, EPILOGUE_PLAIN_LEN);
        AddZeros();
      }
    }

    /** ceph_con_v2_revoke and the release of the message */
    method RevokeMessage()
      requires state == QueueDataCont ==> 0 < next <= |msg.pieces| && |iter| <= |msg.pieces[next - 1]|
      modifies this
      ensures View() == Revoke(old(View()))
    {
      hide RevokeAtQueueData, RevokeAtDataCont, RevokeAtFinish;
      match state {
        case QueueData => RevokeQueueData();
        case QueueDataCont => RevokeDataCont();
        case FinishMessage => RevokeFinish();
        case QueueZeros =>
        case GetNext =>
      }
      live := false;
    }

    method Do(s: Step)
      requires state == QueueData ==> msg.pieces != []
      requires state == QueueDataCont ==> 0 < next <= |msg.pieces| && |iter| <= |msg.pieces[next - 1]|
      modifies this
      ensures View() == Exec(old(View()), s)
    {
      hide Populate, Revoke, Take;
      match s {
        case TakeBytes(k) => if k <= |iter| && state != GetNext { SendBytes(k); }
        case QueueNext => if iter == [] { PopulateOut(); }
        case RevokeMsg => if live && iter != [] { RevokeMessage(); }
      }
    }
  }

  lemma StepReady(w: Writer, o: Outcome)
    requires Valid(w, o)
    ensures w.state == QueueData ==> w.msg.pieces != []
    ensures w.state == QueueDataCont ==> 0 < w.next <= |w.msg.pieces| && |w.iter| <= |w.msg.pieces[w.next - 1]|
  {
  }

  lemma ValidSent(w: Writer, o: Outcome)
    requires Valid(w, o)
    ensures Sent(w.msg, o) && (w.state == GetNext ==> w.wire == FrameBytes(w.head, o)) && w.wire <= FrameBytes(w.head, o)
    ensures |FrameBytes(w.head, o)| == HEAD_LEN + TailLength(|w.msg.front|, |w.msg.middle|, |w.msg.Data()|)
  {
    Conserved(w, o);
    WirePrefix(w, o);
    hide FrameBytes, Sent, Join, Sending;
  }

  /** Drives one frame through any schedule and returns what reached the socket. */
  method TransmitFrame(be: bool, head: seq<bv8>, m: Message, schedule: seq<Step>)
    returns (finished: bool, bytes: seq<bv8>, ghost o: Outcome)
    requires |head| == HEAD_LEN && m.Valid()
    ensures Sent(m, o) && (o.swapped ==> be)
    ensures finished ==> bytes == FrameBytes(head, o)
    ensures bytes <= FrameBytes(head, o) && |FrameBytes(head, o)| == HEAD_LEN + TailLength(|m.front|, |m.middle|, |m.Data()|)
  {
    var c := new PlainConnection(be, head, m);
    StartValid(be, head, m);
    o := Whole(m);
    for i := 0 to |schedule|
      invariant Valid(c.View(), o) && (o.swapped ==> be)
      invariant c.head == head && c.msg == m && c.bigEndian == be
    {
      StepReady(c.View(), o);
      hide Valid, Exec, Sent, FrameBytes, Join;
      o := ExecValid(c.View(), schedule[i], o);
      c.Do(schedule[i]);
    }
    finished, bytes := c.state == GetNext, c.wire;
    hide Valid, FrameBytes, Sent, Join;
    ValidSent(c.View(), o);
  }
}
