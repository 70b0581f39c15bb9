/**
 The reader of msgr2 frames, in plain and in secure mode: a state machine that asks the
 socket for bytes, handles what it asked for, skips messages in page-sized chunks, and can
 have the message it is reading revoked at any byte.
 */
module Reader {
  import opened Wire
  import opened Frames

  datatype InState =
    | HandlePreamble | HandleControl | HandleControlRemainder | ReadData | ReadDataCont | ReadEncPage
    | HandleEpilogue | FinishSkip | Failed(error: Error)

  /** What the reader hands to the rest of the client. */
  datatype Event =
    | GotControl(tag: bv8, body: seq<bv8>)
    | Dispatched(header: seq<bv8>, front: seq<bv8>, middle: seq<bv8>, data: seq<bv8>)
    | Skipped

  /** What the environment decides: whether a message gets a buffer, and the size of the next data piece. */
  datatype Env = Env(keep: bool, piece: nat)

  /**
   The reading half of a connection: want bytes are still to be read into buf, in whatever
   pieces the socket has them; reading is set while a message has a buffer (in_msg), encHeld
   while there is a vector of pages for an encrypted tail (in_enc_pages); leaks counts the
   vectors that were replaced without having been released.
   */
  datatype Reader = Reader(
    secure: bool, aead: Aead, nonce: nat, inSeq: nat, state: InState, want: nat, buf: seq<bv8>,
    desc: Desc, ctrl: seq<bv8>, reading: bool, front: seq<bv8>, middle: seq<bv8>, data: seq<bv8>, dataCrc: bv32,
    encPages: seq<bv8>, encResid: nat, encHeld: bool, leaks: nat, skipResid: nat, events: seq<Event>)
  {
    function TailSize(): nat {
      TailLen(desc.lens[1], desc.lens[2], desc.lens[3], secure)
    }
  }

  function Min(a: nat, b: nat): nat
  {
    if a <= b then a else b
  }

  function Fail(r: Reader, e: Error): Reader
  {
    r.(state := Failed(e), buf := [], want := 0)
  }

  /** Ask the socket for n bytes. */
  function Ask(r: Reader, n: nat, s: InState): Reader
  {
    r.(buf := [], want := n, state := s)
  }

  /** The part of a length-checked AEAD the reader uses. */
  function Open(a: Aead, nonce: nat, c: seq<bv8>): (r: Option<seq<bv8>>)
    ensures r.Some? ==> |r.value| + GCM_TAG_LEN == |c|
  {
    match a.open(nonce, c)
    case None => None
    case Some(p) => if |p| + GCM_TAG_LEN == |c| then Some(p) else None
  }

  function PreambleSize(secure: bool): nat
  {
    if secure then PREAMBLE_SECURE_LEN else PREAMBLE_LEN
  }

  /** prepare_read_preamble */
  function AskPreamble(r: Reader): Reader
  {
    Ask(r, PreambleSize(r.secure), HandlePreamble)
  }

  // ------------------------------------------------------------------ skipping

  /** arm_skip_chunk */
  function ArmSkipChunk(r: Reader): Reader
  {
    var n := Min(r.skipResid, PAGE_SIZE);
    Ask(r, n, FinishSkip).(skipResid := r.skipResid - n)
  }

  /** set_in_skip, and the state it is always followed by */
  function SetSkip(r: Reader, len: nat): Reader
  {
    ArmSkipChunk(r.(skipResid := len))
  }

  /** __finish_skip */
  function EndSkip(r: Reader): Reader
  {
    AskPreamble(r.(inSeq := r.inSeq + 1, events := r.events + [Skipped]))
  }

  /** finish_skip */
  function ContinueSkip(r: Reader): Reader
  {
    if r.skipResid > 0 then ArmSkipChunk(r)
    else EndSkip(if r.secure then r.(nonce := Bump(r.nonce)) else r)
  }

  /** prepare_skip_message */
  function SkipMessage(r: Reader): Reader
  {
    if r.TailSize() == 0 then EndSkip(r) else SetSkip(r, r.TailSize())
  }

  // ------------------------------------------------------------- message tails

  /** process_message, when the connection is still open */
  function Dispatch(r: Reader): Reader
  {
    AskPreamble(r.(reading := false, inSeq := r.inSeq + 1,
                   events := r.events + [Dispatched(r.ctrl, r.front, r.middle, r.data)]))
  }

  /** The next piece of the message's data that the cursor points to. */
  function PieceSize(r: Reader, env: Env): nat
    requires |r.data| <= r.desc.lens[3]
  {
    if 0 < env.piece <= r.desc.lens[3] - |r.data| then env.piece else r.desc.lens[3] - |r.data|
  }

  /** prepare_read_data */
  function AskData(r: Reader, env: Env): Reader
  {
    var r' := r.(dataCrc := SEED, data := []);
    Ask(r', PieceSize(r', env), ReadDataCont)
  }

  /** prepare_read_data_cont */
  function AskMoreData(r: Reader, env: Env): Reader
    requires |r.data| + |r.buf| <= r.desc.lens[3]
  {
    var r' := r.(dataCrc := Crc(r.dataCrc, r.buf), data := r.data + r.buf);
    if |r'.data| < r.desc.lens[3] then Ask(r', PieceSize(r', env), ReadDataCont)
    else Ask(r', EPILOGUE_PLAIN_LEN, HandleEpilogue)
  }

  /** prepare_read_tail_plain */
  function AskTailPlain(r: Reader, env: Env): Reader
  {
    var n := r.desc.lens[1] + r.desc.lens[2];
    if n == 0 then AskData(r, env)
    else if r.desc.lens[3] > 0 then Ask(r, n, ReadData)
    else Ask(r, n + EPILOGUE_PLAIN_LEN, HandleEpilogue)
  }

  /** prepare_read_enc_page */
  function AskEncPage(r: Reader): Reader
  {
    var n := Min(r.encResid, PAGE_SIZE);
    Ask(r, n, if r.encResid > n then ReadEncPage else HandleEpilogue).(encResid := r.encResid - n)
  }

  /** prepare_read_tail_secure */
  function AskTailSecure(r: Reader): Reader
  {
    AskEncPage(r.(encPages := [], encResid := r.TailSize(), leaks := if r.encHeld then r.leaks + 1 else r.leaks, encHeld := true))
  }

  // ------------------------------------------------------------------- control

  /** A 64-bit number read as a signed one. */
  function Signed(n: nat): int
  {
    if n < 0x8000_0000_0000_0000 then n else n - 0x1_0000_0000_0000_0000
  }

  /** The sequence number at the start of a message header. */
  function SeqOf(header: seq<bv8>): nat
  {
    FromLe(if |header| >= 8 then header[..8] else header)
  }

  /** __handle_control for a message that gets a buffer */
  function StartMessage(r: Reader, env: Env): Reader
  {
    var r' := r.(reading := true, front := [], middle := [], data := []);
    if r.TailSize() == 0 then Dispatch(r')
    else if r.secure then AskTailSecure(r')
    else AskTailPlain(r', env)
  }

  /** __handle_control: control frames are passed on, messages are checked for order. */
  function ControlRead(r: Reader, env: Env): Reader
  {
    if r.desc.tag != TAG_MESSAGE then
      if KnownTag(r.desc.tag) then AskPreamble(r.(events := r.events + [GotControl(r.desc.tag, r.ctrl)]))
      else Fail(r, Invalid)
    else
      var ahead := Signed(SeqOf(r.ctrl)) - Signed(r.inSeq);
      if ahead > 1 then Fail(r, BadSequence)
      else if ahead < 1 || !env.keep then SkipMessage(r)
      else StartMessage(r, env)
  }

  /** handle_preamble, plain */
  function PreamblePlain(r: Reader): Reader
    requires |r.buf| == PREAMBLE_LEN
  {
    match DecodePreamble(r.buf)
    case Err(e) => Fail(r, e)
    case Ok(d) => Ask(r.(desc := d), d.lens[0] + CRC_LEN, HandleControl)
  }

  /** What follows a decoded preamble and the inline part of the control segment. */
  function InlineRead(r: Reader, d: Desc, body: seq<bv8>, env: Env): Reader
    requires |body| == PREAMBLE_INLINE_LEN
  {
    if d.lens[0] > PREAMBLE_INLINE_LEN then
      Ask(r.(desc := d, ctrl := body), PaddedLen(d.lens[0] - PREAMBLE_INLINE_LEN) + GCM_TAG_LEN, HandleControlRemainder)
    else ControlRead(r.(desc := d, ctrl := body[..d.lens[0]]), env)
  }

  /** handle_preamble, secure */
  function PreambleSecure(r: Reader, env: Env): Reader
    requires |r.buf| == PREAMBLE_SECURE_LEN
  {
    match Open(r.aead, r.nonce, r.buf)
    case None => Fail(r, BadMessage)
    case Some(p) =>
      match DecodePreamble(p[..PREAMBLE_LEN])
      case Err(e) => Fail(r.(nonce := Bump(r.nonce)), e)
      case Ok(d) =>
        InlineRead(r.(nonce := Bump(r.nonce)), d, p[PREAMBLE_LEN..], env)
  }

  /** handle_control */
  function ControlPlain(r: Reader, env: Env): Reader
    requires |r.buf| == r.desc.lens[0] + CRC_LEN
  {
    var n := r.desc.lens[0];
    if Crc(SEED, r.buf[..n]) != FromLe32(r.buf[n..]) then Fail(r, BadMessage)
    else ControlRead(r.(ctrl := r.buf[..n]), env)
  }

  /** handle_control_remainder */
  function ControlRemainder(r: Reader, env: Env): Reader
    requires r.desc.lens[0] > PREAMBLE_INLINE_LEN
    requires |r.buf| == PaddedLen(r.desc.lens[0] - PREAMBLE_INLINE_LEN) + GCM_TAG_LEN
  {
    match Open(r.aead, r.nonce, r.buf)
    case None => Fail(r, BadMessage)
    case Some(p) =>
      ControlRead(r.(nonce := Bump(r.nonce), ctrl := r.ctrl + p[..r.desc.lens[0] - PREAMBLE_INLINE_LEN]), env)
  }

  // ----------------------------------------------------------------- epilogues

  predicate Complete(status: bv8)
  {
    status & 0xf == 0xe
  }

  /** verify_epilogue_crcs; dataCrc is ignored for a message without data. */
  predicate GoodChecksums(r: Reader, e: seq<bv8>)
    requires |e| == EPILOGUE_PLAIN_LEN
  {
    && (if r.front == [] then SEED else Crc(SEED, r.front)) == FromLe32(e[1..5])
    && (if r.middle != [] then Crc(SEED, r.middle) else if r.desc.lens[3] > 0 then SEED else 0) == FromLe32(e[5..9])
    && (if r.desc.lens[3] > 0 then r.dataCrc else 0) == FromLe32(e[9..13])
  }

  /** handle_epilogue, plain: a message without data is read together with its epilogue */
  function EpiloguePlain(r: Reader): Reader
    requires |r.buf| == (if r.desc.lens[3] > 0 then 0 else r.desc.lens[1] + r.desc.lens[2]) + EPILOGUE_PLAIN_LEN
  {
    var f, m := r.desc.lens[1], r.desc.lens[2];
    var r' := if r.desc.lens[3] > 0 then r else r.(front := r.buf[..f], middle := r.buf[f..f + m]);
    var e := r.buf[|r.buf| - EPILOGUE_PLAIN_LEN..];
    if !Complete(e[0]) then Fail(r', Invalid)
    else if !GoodChecksums(r', e) then Fail(r', BadMessage)
    else Dispatch(r')
  }

  /** The tail of a message has been read in full. */
  predicate TailRead(r: Reader)
  {
    r.secure && r.TailSize() > 0 && |r.encPages| + |r.buf| == r.TailSize()
  }

  /** Each segment is cut out of the decrypted tail at its padded place. */
  function ScatterInto(r: Reader, p: seq<bv8>): Reader
    requires TailRead(r) && Open(r.aead, r.nonce, r.encPages + r.buf) == Some(p)
  {
    var f, m, d := r.desc.lens[1], r.desc.lens[2], r.desc.lens[3];
    var second, third := PaddedLen(f), PaddedLen(f) + PaddedLen(m);
    r.(front := p[..f], middle := p[second..second + m], data := p[third..third + d])
  }

  /** decrypt_tail: the segments are filled, and the pages of the tail released. */
  function Scatter(r: Reader): Reader
    requires TailRead(r) && Open(r.aead, r.nonce, r.encPages + r.buf).Some?
  {
    ScatterInto(r, Open(r.aead, r.nonce, r.encPages + r.buf).value).(nonce := Bump(r.nonce), encPages := [], encHeld := false)
  }

  lemma PlacesFit(r: Reader, p: seq<bv8>)
    requires TailRead(r) && Open(r.aead, r.nonce, r.encPages + r.buf) == Some(p)
    ensures r.desc.lens[1] <= |p| && PaddedLen(r.desc.lens[1]) + r.desc.lens[2] <= |p|
    ensures PaddedLen(r.desc.lens[1]) + PaddedLen(r.desc.lens[2]) + r.desc.lens[3] <= |p|
  {
    hide PaddedLen, Open;
  }

  function LateStatus(r: Reader): bv8
    requires TailRead(r) && Open(r.aead, r.nonce, r.encPages + r.buf).Some?
  {
    var p := Open(r.aead, r.nonce, r.encPages + r.buf).value;
    p[|p| - GCM_BLOCK_LEN]
  }

  /** handle_epilogue, secure */
  function EpilogueSecure(r: Reader): Reader
    requires TailRead(r)
  {
    if Open(r.aead, r.nonce, r.encPages + r.buf).None? then Fail(r, BadMessage)
    else if !Complete(LateStatus(r)) then Fail(Scatter(r), Invalid)
    else Dispatch(Scatter(r))
  }

  // ------------------------------------------------------------ the whole step

  /** What holds of the reader whatever the peer sends. */
  ghost predicate Shape(r: Reader)
  {
    var asked := |r.buf| + r.want;
    var lens := r.desc.lens;
    && WithinBounds(lens)
    && (!r.state.Failed? ==> (r.reading <==> r.state in {ReadData, ReadDataCont, ReadEncPage, HandleEpilogue}))
    && match r.state
       case HandlePreamble => asked == PreambleSize(r.secure)
       case HandleControl => !r.secure && asked == lens[0] + CRC_LEN
       case HandleControlRemainder =>
         r.secure && lens[0] > PREAMBLE_INLINE_LEN && asked == PaddedLen(lens[0] - PREAMBLE_INLINE_LEN) + GCM_TAG_LEN
       case ReadData => !r.secure && asked == lens[1] + lens[2] && asked > 0 && lens[3] > 0
       case ReadDataCont => !r.secure && 0 < asked && |r.data| + asked <= lens[3]
       case ReadEncPage =>
         r.secure && |r.encPages| + asked + r.encResid == r.TailSize() && 0 < asked && 0 < r.encResid
       case HandleEpilogue =>
         if r.secure then |r.encPages| + asked == r.TailSize() && 0 < asked && r.encResid == 0
         else asked == (if lens[3] > 0 then 0 else lens[1] + lens[2]) + EPILOGUE_PLAIN_LEN
       case FinishSkip => 0 < asked <= PAGE_SIZE
       case Failed(_) => r.want == 0
  }

  /** The reader waits for the socket, or has given up. */
  ghost predicate Ready(r: Reader)
  {
    Shape(r) && r.buf == [] && (!r.state.Failed? ==> r.want > 0)
  }

  /** populate_in_iter */
  function Populate(r: Reader, env: Env): Reader
    requires Shape(r) && r.want == 0
  {
    match r.state
    case HandlePreamble => if r.secure then PreambleSecure(r, env) else PreamblePlain(r)
    case HandleControl => ControlPlain(r, env)
    case HandleControlRemainder => ControlRemainder(r, env)
    case ReadData => AskData(r.(front := r.buf[..r.desc.lens[1]], middle := r.buf[r.desc.lens[1]..]), env)
    case ReadDataCont => AskMoreData(r, env)
    case ReadEncPage => AskEncPage(r.(encPages := r.encPages + r.buf))
    case HandleEpilogue => if r.secure then EpilogueSecure(r) else EpiloguePlain(r)
    case FinishSkip => ContinueSkip(r)
    case Failed(_) => r
  }

  /** The bytes of the current message that have not been asked for yet. */
  function Unasked(r: Reader): nat
  {
    match r.state
    case ReadData => r.desc.lens[3] + EPILOGUE_PLAIN_LEN
    case ReadDataCont =>
      (if |r.data| + |r.buf| + r.want <= r.desc.lens[3] then r.desc.lens[3] - |r.data| - |r.buf| - r.want else 0) + EPILOGUE_PLAIN_LEN
    case ReadEncPage => r.encResid
    case FinishSkip => r.skipResid
    case _ => 0
  }

  /** ceph_con_v2_revoke_incoming, and the release of the message that follows it */
  function Revoke(r: Reader): Reader
    requires r.reading
  {
    SetSkip(r.(reading := false), r.want + Unasked(r))
  }

  /** The socket delivers some of the bytes asked for. */
  function Feed(r: Reader, bytes: seq<bv8>): Reader
    requires |bytes| <= r.want
  {
    r.(buf := r.buf + bytes, want := r.want - |bytes|)
  }

  // ------------------------------------------------- for every stream of bytes

  lemma ControlReady(r: Reader, env: Env)
    requires WithinBounds(r.desc.lens) && !r.reading
    ensures Ready(ControlRead(r, env))
  {
    hide KnownTag, SeqOf, Signed, Crc, StartMessage, PaddedLen;
    StartReady(r, env);
  }

  lemma StartReady(r: Reader, env: Env)
    requires WithinBounds(r.desc.lens) && !r.reading
    ensures Ready(StartMessage(r, env))
  {
    hide Crc, PaddedLen;
  }

  lemma DispatchReady(r: Reader)
    requires WithinBounds(r.desc.lens)
    ensures Ready(Dispatch(r))
  {
  }

  lemma PreambleReady(r: Reader, env: Env)
    requires Shape(r) && r.want == 0 && r.state == HandlePreamble
    ensures r.secure ==> Ready(PreambleSecure(r, env))
    ensures !r.secure ==> Ready(PreamblePlain(r))
  {
    hide ControlRead, Crc, PaddedLen;
    if r.secure {
      var o := Open(r.aead, r.nonce, r.buf);
      if o.Some? && DecodePreamble(o.value[..PREAMBLE_LEN]).Ok? {
        hide DecodePreamble;
        var d := DecodePreamble(o.value[..PREAMBLE_LEN]).value;
        if d.lens[0] <= PREAMBLE_INLINE_LEN {
          ControlReady(r.(nonce := Bump(r.nonce), desc := d, ctrl := o.value[PREAMBLE_LEN..][..d.lens[0]]), env);
        }
      }
    }
  }

  lemma RemainderReady(r: Reader, env: Env)
    requires Shape(r) && r.want == 0 && r.state == HandleControlRemainder
    ensures Ready(ControlRemainder(r, env))
  {
    hide ControlRead, PaddedLen;
    var o := Open(r.aead, r.nonce, r.buf);
    if o.Some? {
      ControlReady(r.(nonce := Bump(r.nonce), ctrl := r.ctrl + o.value[..r.desc.lens[0] - PREAMBLE_INLINE_LEN]), env);
    }
  }

  lemma ControlPlainReady(r: Reader, env: Env)
    requires Shape(r) && r.want == 0 && r.state == HandleControl
    ensures Ready(ControlPlain(r, env))
  {
    hide ControlRead, Crc, FromLe32;
    ControlReady(r.(ctrl := r.buf[..r.desc.lens[0]]), env);
  }

  lemma EpilogueReady(r: Reader)
    requires Shape(r) && r.want == 0 && r.state == HandleEpilogue
    ensures r.secure ==> Ready(EpilogueSecure(r))
    ensures !r.secure ==> Ready(EpiloguePlain(r))
  {
    hide GoodChecksums, Crc, PaddedLen;
  }

  /** Whatever bytes arrive, the reader goes on to ask for at least one byte, or gives up. */
  lemma PopulateReady(r: Reader, env: Env)
    requires Shape(r) && r.want == 0 && !r.state.Failed?
    ensures Ready(Populate(r, env))
  {
    hide PreambleSecure, PreamblePlain, ControlPlain, ControlRemainder, EpilogueSecure, EpiloguePlain, Crc, PaddedLen;
    match r.state {
      case HandlePreamble => PreambleReady(r, env);
      case HandleControl => ControlPlainReady(r, env);
      case HandleControlRemainder => RemainderReady(r, env);
      case HandleEpilogue => EpilogueReady(r);
      case _ =>
    }
  }

  lemma RevokeReady(r: Reader)
    requires Shape(r) && r.reading && r.want > 0
    ensures Ready(Revoke(r)) && Revoke(r).want + Revoke(r).skipResid == r.want + Unasked(r)
  {
  }

  // ------------------------------------------------------------ the connection

  /** The reading half of a connection as its fields, updated in place. */
  class InConnection {
    const secure: bool
    const aead: Aead
    var nonce: nat
    var inSeq: nat
    var state: InState
    var want: nat
    var buf: seq<bv8>
    var desc: Desc
    var ctrl: seq<bv8>
    var reading: bool
    var front: seq<bv8>
    var middle: seq<bv8>
    var data: seq<bv8>
    var dataCrc: bv32
    var encPages: seq<bv8>
    var encResid: nat
    var encHeld: bool
    var leaks: nat
    var skipResid: nat
    var events: seq<Event>

    ghost function View(): Reader
      reads this
    {
      Reader(secure, aead, nonce, inSeq, state, want, buf, desc, ctrl, reading, front, middle, data, dataCrc,
             encPages, encResid, encHeld, leaks, skipResid, events)
    }

    /** A connection that has just become secure, or that uses checksums alone. */
    constructor (secure: bool, aead: Aead, nonce: nat, inSeq: nat)
      ensures Shape(View()) && AtStart(View()) && events == [] && !encHeld && leaks == 0
      ensures this.secure == secure && this.aead == aead && this.nonce == nonce && this.inSeq == inSeq
    {
      this.secure, this.aead, this.nonce, this.inSeq := secure, aead, nonce, inSeq;
      state, want, buf := HandlePreamble, PreambleSize(secure), [];
      desc, ctrl, reading := Desc(0, [0, 0, 0, 0]), [], false;
      front, middle, data, dataCrc, encPages, encResid, skipResid, events := [], [], [], 0, [], 0, 0, [];
      encHeld, leaks := false, 0;
    }

    method AskFor(n: nat, s: InState)
      modifies this`buf, this`want, this`state
      ensures View() == Ask(old(View()), n, s)
    {
      buf, want, state := [], n, s;
    }

    method GiveUp(e: Error)
      modifies this`buf, this`want, this`state
      ensures View() == Fail(old(View()), e)
    {
      state, buf, want := Failed(e), [], 0;
    }

    /** prepare_read_preamble */
    method PrepareReadPreamble()
      modifies this`buf, this`want, this`state
      ensures View() == AskPreamble(old(View()))
    {
      AskFor(if secure then PREAMBLE_SECURE_LEN else PREAMBLE_LEN, HandlePreamble);
    }

    /** arm_skip_chunk */
    method ArmChunk()
      modifies this`buf, this`want, this`state, this`skipResid
      ensures View() == ArmSkipChunk(old(View()))
    {
      var n := Min(skipResid, PAGE_SIZE);
      AskFor(n, FinishSkip);
      skipResid := skipResid - n;
    }

    /** set_in_skip */
    method SetInSkip(len: nat)
      modifies this`buf, this`want, this`state, this`skipResid
      ensures View() == SetSkip(old(View()), len)
    {
      skipResid := len;
      ArmChunk();
    }

    /** __finish_skip */
    method CompleteSkip()
      modifies this`buf, this`want, this`state, this`inSeq, this`events
      ensures View() == EndSkip(old(View()))
    {
      inSeq := inSeq + 1;
      events := events + [Skipped];
      PrepareReadPreamble();
    }

    /** finish_skip */
    method FinishSkipping()
      modifies this`buf, this`want, this`state, this`inSeq, this`events, this`skipResid, this`nonce
      ensures View() == ContinueSkip(old(View()))
    {
      if skipResid > 0 {
        ArmChunk();
        return;
      }
      if secure {
        nonce := Bump(nonce);
      }
      CompleteSkip();
    }

    /** prepare_skip_message */
    method PrepareSkipMessage()
      modifies this`buf, this`want, this`state, this`inSeq, this`events, this`skipResid
      ensures View() == SkipMessage(old(View()))
    {
      hide TailLen;
      var tail := TailLen(desc.lens[1], desc.lens[2], desc.lens[3], secure);
      if tail == 0 {
        CompleteSkip();
      } else {
        SetInSkip(tail);
      }
    }

    /** process_message */
    method ProcessMessage()
      modifies this`buf, this`want, this`state, this`inSeq, this`events, this`reading
      ensures View() == Dispatch(old(View()))
    {
      reading := false;
      inSeq := inSeq + 1;
      events := events + [Dispatched(ctrl, front, middle, data)];
      PrepareReadPreamble();
    }

    /** The length of the piece the data cursor is at. */
    method NextPiece(env: Env) returns (n: nat)
      requires |data| <= desc.lens[3]
      ensures n == PieceSize(View(), env)
    {
      n := desc.lens[3] - |data|;
      if 0 < env.piece <= n {
        n := env.piece;
      }
    }

    /** prepare_read_data */
    method PrepareReadData(env: Env)
      modifies this`buf, this`want, this`state, this`data, this`dataCrc
      ensures View() == AskData(old(View()), env)
    {
      dataCrc := SEED;
      data := [];
      var n := NextPiece(env);
      AskFor(n, ReadDataCont);
    }

    /** prepare_read_data_cont */
    method PrepareReadDataCont(env: Env)
      requires |data| + |buf| <= desc.lens[3]
      modifies this`buf, this`want, this`state, this`data, this`dataCrc
      ensures View() == AskMoreData(old(View()), env)
    {
      hide Crc;
      dataCrc := Crc(dataCrc, buf);
      data := data + buf;
      if |data| < desc.lens[3] {
        var n := NextPiece(env);
        AskFor(n, ReadDataCont);
        return;
      }
      AskFor(EPILOGUE_PLAIN_LEN, HandleEpilogue);
    }

    /** prepare_read_tail_plain */
    method PrepareReadTailPlain(env: Env)
      modifies this`buf, this`want, this`state, this`data, this`dataCrc
      ensures View() == AskTailPlain(old(View()), env)
    {
      var n := desc.lens[1] + desc.lens[2];
      if n == 0 {
        PrepareReadData(env);
        return;
      }
      if desc.lens[3] > 0 {
        AskFor(n, ReadData);
      } else {
        AskFor(n + EPILOGUE_PLAIN_LEN, HandleEpilogue);
      }
    }

    /** prepare_read_enc_page */
    method PrepareReadEncPage()
      modifies this`buf, this`want, this`state, this`encResid
      ensures View() == AskEncPage(old(View()))
    {
      var n := Min(encResid, PAGE_SIZE);
      encResid := encResid - n;
      AskFor(n, if encResid > 0 then ReadEncPage else HandleEpilogue);
    }

    /** prepare_read_tail_secure */
    method PrepareReadTailSecure()
      modifies this`buf, this`want, this`state, this`encResid, this`encPages, this`encHeld, this`leaks
      ensures View() == AskTailSecure(old(View()))
    {
      hide TailLen;
      if encHeld {
        leaks := leaks + 1;
      }
      encHeld := true;
      encPages := [];
      encResid := TailLen(desc.lens[1], desc.lens[2], desc.lens[3], secure);
      PrepareReadEncPage();
    }

    /** The part of __handle_control for a message with a buffer. */
    method BeginMessage(env: Env)
      modifies this
      ensures View() == StartMessage(old(View()), env)
    {
      hide AskTailPlain, AskTailSecure, Dispatch, TailLen;
      reading := true;
      front, middle, data := [], [], [];
      if TailLen(desc.lens[1], desc.lens[2], desc.lens[3], secure) == 0 {
        ProcessMessage();
      } else if secure {
        PrepareReadTailSecure();
      } else {
        PrepareReadTailPlain(env);
      }
    }

    /** __handle_control */
    method ActOnControl(env: Env)
      modifies this
      ensures View() == ControlRead(old(View()), env)
    {
      hide KnownTag, Signed, SeqOf, Fail, AskPreamble, SkipMessage, StartMessage;
      if desc.tag != TAG_MESSAGE {
        if KnownTag(desc.tag) {
          events := events + [GotControl(desc.tag, ctrl)];
          PrepareReadPreamble();
        } else {
          GiveUp(Invalid);
        }
        return;
      }
      var ahead := Signed(SeqOf(ctrl)) - Signed(inSeq);
      if ahead > 1 {
        GiveUp(BadSequence);
        return;
      }
      if ahead < 1 || !env.keep {
        PrepareSkipMessage();
        return;
      }
      BeginMessage(env);
    }

    /** handle_preamble, plain */
    method HandlePlainPreamble()
      requires |buf| == PREAMBLE_LEN
      modifies this
      ensures View() == PreamblePlain(old(View()))
    {
      hide Fail, DecodePreamble;
      var decoded := DecodePreamble(buf);
      if decoded.Err? {
        GiveUp(decoded.error);
        return;
      }
      desc := decoded.value;
      AskFor(desc.lens[0] + CRC_LEN, HandleControl);
    }

    /** handle_preamble, secure */
    method HandleSecurePreamble(env: Env)
      requires |buf| == PREAMBLE_SECURE_LEN
      modifies this
      ensures View() == PreambleSecure(old(View()), env)
    {
      hide InlineRead, Fail, Open, Bump;
      var plain := Open(aead, nonce, buf);
      if plain.None? {
        GiveUp(BadMessage);
        return;
      }
      nonce := Bump(nonce);
      var p := plain.value;
      var decoded := DecodePreamble(p[..PREAMBLE_LEN]);
      hide DecodePreamble;
      if decoded.Err? {
        GiveUp(decoded.error);
        return;
      }
      ActOnInline(decoded.value, p[PREAMBLE_LEN..], env);
    }

    /** The part of handle_preamble after the preamble has been decoded, secure. */
    method ActOnInline(d: Desc, body: seq<bv8>, env: Env)
      requires |body| == PREAMBLE_INLINE_LEN
      modifies this
      ensures View() == InlineRead(old(View()), d, body, env)
    {
      hide ControlRead, PaddedLen;
      desc := d;
      ctrl := body;
      if desc.lens[0] > PREAMBLE_INLINE_LEN {
        AskFor(PaddedLen(desc.lens[0] - PREAMBLE_INLINE_LEN) + GCM_TAG_LEN, HandleControlRemainder);
      } else {
        ctrl := ctrl[..desc.lens[0]];
        ActOnControl(env);
      }
    }

    /** handle_control */
    method HandlePlainControl(env: Env)
      requires |buf| == desc.lens[0] + CRC_LEN
      modifies this
      ensures View() == ControlPlain(old(View()), env)
    {
      hide ControlRead, Crc, FromLe32;
      var n := desc.lens[0];
      if Crc(SEED, buf[..n]) != FromLe32(buf[n..]) {
        GiveUp(BadMessage);
        return;
      }
      ctrl := buf[..n];
      ActOnControl(env);
    }

    /** handle_control_remainder */
    method HandleRemainder(env: Env)
      requires desc.lens[0] > PREAMBLE_INLINE_LEN
      requires |buf| == PaddedLen(desc.lens[0] - PREAMBLE_INLINE_LEN) + GCM_TAG_LEN
      modifies this
      ensures View() == ControlRemainder(old(View()), env)
    {
      hide ControlRead;
      var plain := Open(aead, nonce, buf);
      if plain.None? {
        GiveUp(BadMessage);
        return;
      }
      nonce := Bump(nonce);
      ctrl := ctrl + plain.value[..desc.lens[0] - PREAMBLE_INLINE_LEN];
      ActOnControl(env);
    }

    /** verify_epilogue_crcs */
    method VerifyChecksums(e: seq<bv8>) returns (good: bool)
      requires |e| == EPILOGUE_PLAIN_LEN
      ensures good == GoodChecksums(View(), e)
    {
      hide Crc, FromLe32;
      var frontCrc := if front == [] then SEED else Crc(SEED, front);
      var middleCrc := if middle != [] then Crc(SEED, middle) else if desc.lens[3] > 0 then SEED else 0;
      var dataSum := if desc.lens[3] > 0 then dataCrc else 0;
      if frontCrc != FromLe32(e[1..5]) {
        return false;
      }
      if middleCrc != FromLe32(e[5..9]) {
        return false;
      }
      good := dataSum == FromLe32(e[9..13]);
    }

    /** handle_epilogue, plain */
    method HandlePlainEpilogue()
      requires |buf| == (if desc.lens[3] > 0 then 0 else desc.lens[1] + desc.lens[2]) + EPILOGUE_PLAIN_LEN
      modifies this
      ensures View() == EpiloguePlain(old(View()))
    {
      hide Crc, FromLe32, GoodChecksums, Dispatch, Complete, Fail;
      var e := buf[|buf| - EPILOGUE_PLAIN_LEN..];
      if desc.lens[3] == 0 {
        front := buf[..desc.lens[1]];
        middle := buf[desc.lens[1]..desc.lens[1] + desc.lens[2]];
      }
      if !Complete(e[0]) {
        GiveUp(Invalid);
        return;
      }
      var good := VerifyChecksums(e);
      if !good {
        GiveUp(BadMessage);
        return;
      }
      ProcessMessage();
    }

    /** decrypt_tail: the segments are scattered to their buffers, the epilogue is handed back. */
    method DecryptTail() returns (status: Option<bv8>)
      requires secure && TailLen(desc.lens[1], desc.lens[2], desc.lens[3], secure) == |encPages| + |buf| > 0
      modifies this
      ensures old(Open(aead, nonce, encPages + buf)).None? ==> status == None && View() == old(View())
      ensures old(Open(aead, nonce, encPages + buf)).Some? ==>
                && status == Some(old(LateStatus(View()))) && View() == old(Scatter(View()))
    {
      var plain := Open(aead, nonce, encPages + buf);
      if plain.None? {
        return None;
      }
      hide PaddedLen, Open, Bump, ScatterInto;
      status := Some(plain.value[|plain.value| - GCM_BLOCK_LEN]);
      ScatterParts(plain.value);
      ReleaseEncPages();
    }

    /** The pieces of a decrypted tail, each at its padded place. */
    method ScatterParts(p: seq<bv8>)
      requires TailRead(View()) && Open(aead, nonce, encPages + buf) == Some(p)
      modifies this`front, this`middle, this`data
      ensures View() == old(ScatterInto(View(), p))
    {
      PlacesFit(View(), p);
      hide PaddedLen, Open, TailLen, TailRead;
      var second := PaddedLen(desc.lens[1]);
      var third := second + PaddedLen(desc.lens[2]);
      front := p[..desc.lens[1]];
      middle := p[second..second + desc.lens[2]];
      data := p[third..third + desc.lens[3]];
    }

    /** The pages of the encrypted tail are released. */
    method ReleaseEncPages()
      modifies this`nonce, this`encPages, this`encHeld
      ensures View() == old(View()).(nonce := Bump(old(nonce)), encPages := [], encHeld := false)
    {
      hide Bump;
      nonce := Bump(nonce);
      encPages := [];
      encHeld := false;
    }

    /** handle_epilogue, secure */
    method HandleSecureEpilogue()
      requires secure && TailLen(desc.lens[1], desc.lens[2], desc.lens[3], secure) == |encPages| + |buf| > 0
      modifies this
      ensures View() == EpilogueSecure(old(View()))
    {
      hide Dispatch, Complete, Fail, PaddedLen, Open, Scatter, LateStatus;
      var status := DecryptTail();
      if status.None? {
        GiveUp(BadMessage);
      } else if !Complete(status.value) {
        GiveUp(Invalid);
      } else {
        ProcessMessage();
      }
    }

    /** populate_in_iter */
    method PopulateIn(env: Env)
      requires Shape(View()) && want == 0
      modifies this
      ensures View() == Populate(old(View()), env)
    {
      hide PreambleSecure, PreamblePlain, ControlPlain, ControlRemainder, EpilogueSecure, EpiloguePlain, Crc, PaddedLen,
        AskData, AskMoreData, AskEncPage, ContinueSkip;
      match state {
        case HandlePreamble => if secure { HandleSecurePreamble(env); } else { HandlePlainPreamble(); }
        case HandleControl => HandlePlainControl(env);
        case HandleControlRemainder => HandleRemainder(env);
        case ReadData =>
          front, middle := buf[..desc.lens[1]], buf[desc.lens[1]..];
          PrepareReadData(env);
        case ReadDataCont => PrepareReadDataCont(env);
        case ReadEncPage =>
          encPages := encPages + buf;
          PrepareReadEncPage();
        case HandleEpilogue => if secure { HandleSecureEpilogue(); } else { HandlePlainEpilogue(); }
        case FinishSkip => FinishSkipping();
        case Failed(_) =>
      }
    }

    /** ceph_con_v2_revoke_incoming */
    method RevokeMessage()
      requires Shape(View()) && reading && want > 0
      modifies this
      ensures View() == Revoke(old(View()))
    {
      hide PaddedLen;
      var left := want;
      match state {
        case ReadData => left := left + desc.lens[3] + EPILOGUE_PLAIN_LEN;
        case ReadDataCont => left := desc.lens[3] - (|data| + |buf|) + EPILOGUE_PLAIN_LEN;
        case ReadEncPage => left := left + encResid;
        case HandleEpilogue =>
        case _ => assert false;
      }
      SetInSkip(left);
      reading := false;
    }

    /** Bytes arrive. */
    method Receive(bytes: seq<bv8>)
      requires |bytes| <= want
      modifies this`buf, this`want
      ensures View() == Feed(old(View()), bytes)
    {
      buf := buf + bytes;
      want := want - |bytes|;
    }
  }

  /** Nothing of a frame has been read. */
  ghost predicate AtStart(r: Reader)
  {
    r.state == HandlePreamble && r.buf == [] && r.want == PreambleSize(r.secure)
  }
}
