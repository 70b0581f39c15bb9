/**
 Reading back what a peer wrote: for every sequence of frames, every way the socket cuts
 the stream, every decision to skip and every revocation, the reader stays in step with the
 sender, in bytes and in nonces.
 */
module FrameReading {
  import opened Wire
  import opened Frames
  import opened Reader
  import PlainWriter

  // ------------------------------------------------- where in a frame we are

  function TailOf(r: Reader, n0: nat, f: Frame): seq<bv8>
  {
    Tail(r.secure, r.aead, n0, f)
  }

  function Epilogue(f: Frame): seq<bv8>
    requires f.Message?
  {
    PlainEpilogue(f.front, f.middle, f.data)
  }

  /** The bytes the reader has asked for, of the frame f that began with nonce n0. */
  function Chunk(r: Reader, n0: nat, f: Frame): seq<bv8>
    requires WithinBounds(f.Describe().lens)
  {
    var asked := |r.buf| + r.want;
    match r.state
    case HandlePreamble => if r.secure then SecureFirst(r.aead, n0, f) else EncodePreamble(f.Describe())
    case HandleControl => f.Ctrl() + Le32(Crc(SEED, f.Ctrl()))
    case HandleControlRemainder => SecureRemainder(r.aead, Bump(n0), f)
    case ReadData => if f.Message? then f.front + f.middle else []
    case ReadDataCont => if f.Message? then Piece(f.data, |r.data|, asked) else []
    case ReadEncPage => Piece(TailOf(r, n0, f), |r.encPages|, asked)
    case HandleEpilogue =>
      if r.secure then Piece(TailOf(r, n0, f), |r.encPages|, asked)
      else if !f.Message? then [] else if f.data != [] then Epilogue(f) else f.front + f.middle + Epilogue(f)
    case _ => []
  }

  function Piece(s: seq<bv8>, from: nat, n: nat): seq<bv8>
  {
    if from + n <= |s| then s[from..from + n] else []
  }

  function Beyond(s: seq<bv8>, from: nat): seq<bv8>
  {
    if from <= |s| then s[from..] else []
  }

  /** The bytes of the frame after those. */
  function After(r: Reader, n0: nat, f: Frame): seq<bv8>
    requires WithinBounds(f.Describe().lens)
  {
    var asked := |r.buf| + r.want;
    match r.state
    case HandlePreamble =>
      (if r.secure then SecureRemainder(r.aead, Bump(n0), f) else f.Ctrl() + Le32(Crc(SEED, f.Ctrl()))) + TailOf(r, n0, f)
    case HandleControl => TailOf(r, n0, f)
    case HandleControlRemainder => TailOf(r, n0, f)
    case ReadData => if f.Message? then f.data + Epilogue(f) else []
    case ReadDataCont => if f.Message? then Beyond(f.data, |r.data| + asked) + Epilogue(f) else []
    case ReadEncPage => Beyond(TailOf(r, n0, f), |r.encPages| + asked)
    case _ => []
  }

  /** The fields of a reader inside frame f. */
  ghost predicate Fields(r: Reader, n0: nat, f: Frame)
  {
    && Shape(r) && !r.state.Failed?
    && r.nonce == (if r.state == HandlePreamble || !r.secure then n0
                   else if r.state == HandleControlRemainder then Bump(n0) else AfterHead(true, n0, f))
    && (r.state != HandlePreamble ==> r.desc == f.Describe())
    && (r.reading ==> f.HasTail() && r.ctrl == f.header)
    && match r.state
       case HandleControlRemainder => Big(f) && r.ctrl == f.Ctrl()[..PREAMBLE_INLINE_LEN]
       case ReadDataCont =>
         && r.front == f.front && r.middle == f.middle && r.data <= f.data
         && |r.data| + |r.buf| + r.want <= |f.data| && r.dataCrc == Crc(SEED, r.data)
       case ReadEncPage => r.encPages <= TailOf(r, n0, f)
       case HandleEpilogue =>
         if r.secure then r.encPages <= TailOf(r, n0, f)
         else r.data == f.data && (f.data != [] ==> r.front == f.front && r.middle == f.middle && r.dataCrc == Crc(SEED, f.data))
       case FinishSkip => f.HasTail()
       case _ => true
  }

  /** The reader is inside frame f, with rest of it still to come from the socket. */
  ghost predicate InFrame(r: Reader, n0: nat, f: Frame, rest: seq<bv8>)
  {
    && f.Valid() && r.aead.Lawful() && WithinBounds(f.Describe().lens) && Fields(r, n0, f)
    && if r.state == FinishSkip then |rest| == r.want + r.skipResid
       else |r.buf| + r.want == |Chunk(r, n0, f)| && r.buf + rest == Chunk(r, n0, f) + After(r, n0, f)
  }

  /** Between two frames. */
  ghost predicate Boundary(r: Reader, nonce: nat)
  {
    Shape(r) && r.aead.Lawful() && r.state == HandlePreamble && r.buf == [] && r.want == PreambleSize(r.secure) && r.nonce == nonce
  }

  lemma Enter(r: Reader, f: Frame)
    requires Boundary(r, r.nonce) && f.Valid()
    ensures WithinBounds(f.Describe().lens)
    ensures InFrame(r, r.nonce, f, EncodeFrame(r.secure, r.aead, r.nonce, f))
  {
    hide Crc, EncodePreamble, Tail, Le32;
    ValidWithinBounds(f);
    var all := EncodeFrame(r.secure, r.aead, r.nonce, f);
    assert [] + all == Chunk(r, r.nonce, f) + After(r, r.nonce, f);
  }

  /** Bytes arrive in any portions; the reader never asks for bytes beyond the frame. */
  lemma FeedInFrame(r: Reader, n0: nat, f: Frame, rest: seq<bv8>, k: nat)
    requires InFrame(r, n0, f, rest) && k <= r.want
    ensures r.want <= |rest| && InFrame(Feed(r, rest[..k]), n0, f, rest[k..])
  {
    hide Chunk, After, Fields;
    assert |r.buf + rest| == |r.buf| + |rest|;
    var r' := Feed(r, rest[..k]);
    assert |r'.buf| + r'.want == |r.buf| + r.want && r'.buf + rest[k..] == r.buf + rest by {
      assert rest == rest[..k] + rest[k..];
    }
    SameChunk(r, r', n0, f);
  }

  lemma SameChunk(r: Reader, r': Reader, n0: nat, f: Frame)
    requires r' == r.(buf := r'.buf, want := r'.want) && |r'.buf| + r'.want == |r.buf| + r.want
    requires Fields(r, n0, f) && WithinBounds(f.Describe().lens)
    ensures Fields(r', n0, f) && Chunk(r', n0, f) == Chunk(r, n0, f) && After(r', n0, f) == After(r, n0, f)
  {
    hide Crc, Tail, EncodePreamble, Le32, SecureFirst, SecureRemainder, PaddedLen;
  }

  // --------------------------------------------------------- one step of reading

  /** What the client gets out of a whole frame. */
  function EventOf(f: Frame): Event
  {
    match f
    case Control(tag, body) => GotControl(tag, body)
    case Message(header, front, middle, data) => Dispatched(header, front, middle, data)
  }

  predicate Matches(e: Event, f: Frame)
  {
    e == EventOf(f) || (e == Skipped && f.Message?)
  }

  function Ahead(f: Frame, inSeq: nat): int
  {
    if f.Message? then Signed(SeqOf(f.header)) - Signed(inSeq) else 1
  }

  ghost predicate SameLink(r: Reader, r': Reader)
  {
    r'.secure == r.secure && r'.aead == r.aead
  }

  /** Still inside the frame. */
  ghost predicate GoesOn(r: Reader, r': Reader, n0: nat, f: Frame, rest: seq<bv8>)
  {
    SameLink(r, r') && InFrame(r', n0, f, rest) && r'.want > 0 && r'.buf == [] && r'.events == r.events && r'.inSeq == r.inSeq
  }

  /** The frame has been read to its last byte. */
  ghost predicate Ends(r: Reader, r': Reader, n0: nat, f: Frame, e: Event, rest: seq<bv8>)
  {
    && SameLink(r, r') && rest == [] && Boundary(r', AfterFrame(r.secure, n0, f))
    && r'.events == r.events + [e] && r'.inSeq == r.inSeq + if f.Message? then 1 else 0
  }

  /** One step, taken with all the bytes that were asked for. */
  ghost predicate Steps(r: Reader, r': Reader, n0: nat, f: Frame, skipping: bool, rest: seq<bv8>)
  {
    || (GoesOn(r, r', n0, f, rest) && (r'.state == FinishSkip <==> skipping))
    || (Ends(r, r', n0, f, EventOf(f), rest) && !skipping)
    || (Ends(r, r', n0, f, Skipped, rest) && skipping && f.Message?)
  }

  lemma SkipSteps(r: Reader, n0: nat, f: Frame, rest: seq<bv8>)
    requires f.Valid() && f.Message? && r.aead.Lawful() && WithinBounds(f.Describe().lens)
    requires r.desc == f.Describe() && !r.reading && r.nonce == AfterHead(r.secure, n0, f) && rest == TailOf(r, n0, f)
    ensures Steps(r, SkipMessage(r), n0, f, true, rest)
  {
    hide Crc, Tail, EncodePreamble, Le32, SecureFirst, SecureRemainder, PaddedLen, Bump;
    TailLength(r.secure, r.aead, n0, f);
    assert |rest| == r.TailSize() && (f.HasTail() <==> r.TailSize() > 0);
    var r' := SkipMessage(r);
    if f.HasTail() {
      assert Fields(r', n0, f);
      assert GoesOn(r, r', n0, f, rest);
    } else {
      assert Ends(r, r', n0, f, Skipped, rest);
    }
  }

  /** Asking for the first piece of data. */
  lemma AskDataIn(r: Reader, n0: nat, f: Frame, env: Env, rest: seq<bv8>)
    requires f.Valid() && f.Message? && r.aead.Lawful() && WithinBounds(f.Describe().lens) && f.data != []
    requires r.desc == f.Describe() && !r.secure && r.reading && r.ctrl == f.header && r.nonce == n0
    requires r.front == f.front && r.middle == f.middle && rest == f.data + Epilogue(f)
    ensures GoesOn(r, AskData(r, env), n0, f, rest) && AskData(r, env).state == ReadDataCont
  {
    hide Tail, EncodePreamble, Le32, SecureFirst, SecureRemainder, PaddedLen, PlainEpilogue, CrcByte;
    var r' := AskData(r, env);
    assert r'.dataCrc == Crc(SEED, []);
    assert [] + rest == Chunk(r', n0, f) + After(r', n0, f);
  }

  lemma PlainTailIn(r: Reader, n0: nat, f: Frame, env: Env, rest: seq<bv8>)
    requires f.Valid() && f.HasTail() && r.aead.Lawful() && WithinBounds(f.Describe().lens)
    requires r.desc == f.Describe() && !r.secure && r.reading && r.ctrl == f.header && r.nonce == n0
    requires r.front == r.middle == r.data == [] && rest == TailOf(r, n0, f)
    ensures GoesOn(r, AskTailPlain(r, env), n0, f, rest) && AskTailPlain(r, env).state != FinishSkip
  {
    hide Crc, EncodePreamble, Le32, SecureFirst, SecureRemainder, PaddedLen, PlainEpilogue;
    assert rest == f.front + f.middle + f.data + Epilogue(f);
    if |f.front| + |f.middle| == 0 {
      assert f.front + f.middle + f.data == f.data;
      AskDataIn(r, n0, f, env, rest);
    } else {
      var r' := AskTailPlain(r, env);
      assert [] + rest == Chunk(r', n0, f) + After(r', n0, f);
    }
  }

  lemma EncPageIn(r: Reader, n0: nat, f: Frame, rest: seq<bv8>)
    requires f.Valid() && f.HasTail() && r.aead.Lawful() && WithinBounds(f.Describe().lens)
    requires r.desc == f.Describe() && r.secure && r.reading && r.ctrl == f.header && r.nonce == AfterHead(true, n0, f)
    requires r.encPages <= TailOf(r, n0, f) && rest == TailOf(r, n0, f)[|r.encPages|..] && |rest| == r.encResid > 0
    ensures GoesOn(r, AskEncPage(r), n0, f, rest) && AskEncPage(r).state != FinishSkip
  {
    hide Crc, Tail, EncodePreamble, Le32, SecureFirst, SecureRemainder, PaddedLen, AfterHead;
    TailLength(r.secure, r.aead, n0, f);
    var r' := AskEncPage(r);
    var t := TailOf(r, n0, f);
    assert [] + rest == Chunk(r', n0, f) + After(r', n0, f);
  }

  lemma StartMessageIn(r: Reader, n0: nat, f: Frame, env: Env, rest: seq<bv8>)
    requires f.Valid() && f.Message? && r.aead.Lawful() && WithinBounds(f.Describe().lens)
    requires r.desc == f.Describe() && !r.reading && r.ctrl == f.header
    requires r.nonce == AfterHead(r.secure, n0, f) && rest == TailOf(r, n0, f)
    ensures Steps(r, StartMessage(r, env), n0, f, false, rest)
  {
    hide Crc, EncodePreamble, Le32, SecureFirst, SecureRemainder, PaddedLen, AskEncPage, AskTailPlain;
    TailLength(r.secure, r.aead, n0, f);
    var r' := r.(reading := true, front := [], middle := [], data := []);
    if f.HasTail() {
      hide Tail;
      if r.secure {
        EncPageIn(r'.(encPages := [], encResid := r.TailSize(), leaks := if r.encHeld then r.leaks + 1 else r.leaks, encHeld := true), n0, f, rest);
      } else {
        PlainTailIn(r', n0, f, env, rest);
      }
    }
  }

  /** Acting on the control part of a frame. */
  lemma ControlIn(r: Reader, n0: nat, f: Frame, env: Env, rest: seq<bv8>)
    requires f.Valid() && r.aead.Lawful() && WithinBounds(f.Describe().lens) && Ahead(f, r.inSeq) <= 1
    requires r.desc == f.Describe() && !r.reading && r.ctrl == f.Ctrl()
    requires r.nonce == AfterHead(r.secure, n0, f) && rest == TailOf(r, n0, f)
    ensures Steps(r, ControlRead(r, env), n0, f, f.Message? && (Ahead(f, r.inSeq) < 1 || !env.keep), rest)
  {
    if f.Control? {
      hide Signed, SeqOf, AfterHead;
    } else {
      hide Steps, StartMessage, SkipMessage, Signed, SeqOf, TailOf, AfterHead;
      if Ahead(f, r.inSeq) < 1 || !env.keep {
        SkipSteps(r, n0, f, rest);
      } else {
        StartMessageIn(r, n0, f, env, rest);
      }
    }
  }

  /** Once everything asked for is there, it is the chunk, and the rest of the frame is what follows. */
  lemma Arrived(r: Reader, n0: nat, f: Frame, rest: seq<bv8>)
    requires InFrame(r, n0, f, rest) && r.want == 0 && r.state != FinishSkip
    ensures r.buf == Chunk(r, n0, f) && rest == After(r, n0, f)
  {
    hide Chunk, After, Fields;
    var c, t := Chunk(r, n0, f), After(r, n0, f);
    assert (r.buf + rest)[..|r.buf|] == r.buf && (c + t)[..|c|] == c;
    assert (r.buf + rest)[|r.buf|..] == rest && (c + t)[|c|..] == t;
  }

  ghost predicate Skips(r: Reader, f: Frame, env: Env)
  {
    || r.state == FinishSkip
    || (f.Message? && !r.reading && (Ahead(f, r.inSeq) < 1 || !env.keep) && HeaderComplete(r, f))
  }

  /** The step that ends with the control part of the frame in hand. */
  predicate HeaderComplete(r: Reader, f: Frame)
  {
    match r.state
    case HandlePreamble => r.secure && !Big(f)
    case HandleControl => true
    case HandleControlRemainder => true
    case _ => false
  }

  lemma PreamblePlainIn(r: Reader, n0: nat, f: Frame, env: Env, rest: seq<bv8>)
    requires InFrame(r, n0, f, rest) && r.want == 0 && r.state == HandlePreamble && !r.secure
    ensures Steps(r, Populate(r, env), n0, f, false, rest)
  {
    hide Crc, EncodePreamble, DecodePreamble, Le32, Tail, PaddedLen;
    Arrived(r, n0, f, rest);
    ValidWithinBounds(f);
    PreambleRoundTrip(f.Describe());
    var r' := Populate(r, env);
    assert r'.state == HandleControl && r'.desc == f.Describe();
    assert [] + rest == Chunk(r', n0, f) + After(r', n0, f);
    assert GoesOn(r, r', n0, f, rest);
  }

  lemma ControlPlainIn(r: Reader, n0: nat, f: Frame, env: Env, rest: seq<bv8>)
    requires InFrame(r, n0, f, rest) && r.want == 0 && r.state == HandleControl && Ahead(f, r.inSeq) <= 1
    ensures Steps(r, Populate(r, env), n0, f, Skips(r, f, env), rest)
  {
    hide Crc, EncodePreamble, DecodePreamble, Le32, Tail, PaddedLen, FromLe32, Ahead, ControlRead, Steps, Bump;
    Arrived(r, n0, f, rest);
    var n := |f.Ctrl()|;
    ChecksumRoundTrip(Crc(SEED, f.Ctrl()));
    assert r.buf[..n] == f.Ctrl() && r.buf[n..] == Le32(Crc(SEED, f.Ctrl()));
    var r1 := r.(ctrl := r.buf[..n]);
    assert Populate(r, env) == ControlRead(r1, env);
    assert rest == TailOf(r1, n0, f) && r1.desc == f.Describe() && !r1.reading && !r1.secure && r1.nonce == n0;
    hide InFrame, Fields, Chunk, After, Populate, Shape, TailOf;
    ControlIn(r1, n0, f, env, rest);
    StepsFrom(r, r1, ControlRead(r1, env), n0, f, Skips(r, f, env), rest);
  }

  lemma GoingOn(r: Reader, r': Reader, n0: nat, f: Frame, rest: seq<bv8>)
    requires GoesOn(r, r', n0, f, rest) && r'.state != FinishSkip
    ensures Steps(r, r', n0, f, false, rest)
  {
    hide InFrame, Boundary;
  }

  /** Steps only looks at what a step keeps. */
  lemma StepsFrom(r: Reader, r1: Reader, r': Reader, n0: nat, f: Frame, skipping: bool, rest: seq<bv8>)
    requires Steps(r1, r', n0, f, skipping, rest) && SameLink(r, r1) && r1.events == r.events && r1.inSeq == r.inSeq
    ensures Steps(r, r', n0, f, skipping, rest)
  {
    hide InFrame, Boundary, EventOf;
  }

  /** What AEAD decryption gives back for bytes sealed with the same nonce. */
  lemma Opened(a: Aead, nonce: nat, p: seq<bv8>)
    requires a.Lawful()
    ensures Open(a, nonce, a.seal(nonce, p)) == Some(p)
  {
  }

  /** What a sealed preamble and inline part decode to. */
  lemma InlineDecodes(r: Reader, n0: nat, f: Frame, env: Env)
    requires f.Valid() && WithinBounds(f.Describe().lens) && r.aead.Lawful() && r.nonce == n0
    requires |r.buf| == PREAMBLE_SECURE_LEN && r.buf == r.aead.seal(n0, Inline(f))
    ensures
      var r1 := r.(nonce := Bump(n0), desc := f.Describe());
      PreambleSecure(r, env)
      == if Big(f) then
           Ask(r1.(ctrl := f.Ctrl()[..PREAMBLE_INLINE_LEN]), PaddedLen(|f.Ctrl()| - PREAMBLE_INLINE_LEN) + GCM_TAG_LEN, HandleControlRemainder)
         else ControlRead(r1.(ctrl := f.Ctrl()), env)
  {
    hide Crc, EncodePreamble, DecodePreamble, Le32, PaddedLen, ControlRead, Open, Bump, Inline;
    ValidWithinBounds(f);
    Opened(r.aead, n0, Inline(f));
    PreambleRoundTrip(f.Describe());
    InlineParts(f);
  }

  lemma InlineParts(f: Frame)
    requires WithinBounds(f.Describe().lens)
    ensures
      var p := Inline(f);
      && p[..PREAMBLE_LEN] == EncodePreamble(f.Describe())
      && (Big(f) ==> p[PREAMBLE_LEN..] == f.Ctrl()[..PREAMBLE_INLINE_LEN])
      && (!Big(f) ==> p[PREAMBLE_LEN..][..|f.Ctrl()|] == f.Ctrl())
  {
    hide EncodePreamble;
  }

  lemma PreambleSecureIn(r: Reader, n0: nat, f: Frame, env: Env, rest: seq<bv8>)
    requires InFrame(r, n0, f, rest) && r.want == 0 && r.state == HandlePreamble && r.secure && Ahead(f, r.inSeq) <= 1
    ensures Steps(r, Populate(r, env), n0, f, Skips(r, f, env), rest)
  {
    hide Crc, EncodePreamble, DecodePreamble, Le32, Tail, PaddedLen, Ahead, ControlRead, Open, Steps;
    Arrived(r, n0, f, rest);
    ValidWithinBounds(f);
    var p := Inline(f);
    Opened(r.aead, n0, p);
    assert r.buf == r.aead.seal(n0, p) && rest == SecureRemainder(r.aead, Bump(n0), f) + TailOf(r, n0, f);
    assert Populate(r, env) == PreambleSecure(r, env) && !r.reading;
    hide InFrame, Fields, Chunk, After, Populate, Shape, TailOf, SecureRemainder, Bump;
    InlineDecodes(r, n0, f, env);
    hide PreambleSecure;
    var r1 := r.(nonce := Bump(n0), desc := f.Describe());
    if Big(f) {
      var r2 := r1.(ctrl := f.Ctrl()[..PREAMBLE_INLINE_LEN]);
      BigControl(r, r2, n0, f, rest);
      GoingOn(r, PreambleSecure(r, env), n0, f, rest);
    } else {
      NoRemainder(r.aead, Bump(n0), f, TailOf(r, n0, f));
      ControlIn(r1.(ctrl := f.Ctrl()), n0, f, env, rest);
      StepsFrom(r, r1.(ctrl := f.Ctrl()), PreambleSecure(r, env), n0, f, Skips(r, f, env), rest);
    }
  }

  lemma NoRemainder(a: Aead, nonce: nat, f: Frame, tail: seq<bv8>)
    requires !Big(f)
    ensures SecureRemainder(a, nonce, f) + tail == tail
  {
  }

  lemma BigControl(r: Reader, r1: Reader, n0: nat, f: Frame, rest: seq<bv8>)
    requires f.Valid() && Big(f) && r.aead.Lawful() && r.secure && !r.reading
    requires r1 == r.(nonce := Bump(n0), desc := f.Describe(), ctrl := f.Ctrl()[..PREAMBLE_INLINE_LEN])
    requires rest == SecureRemainder(r.aead, Bump(n0), f) + TailOf(r, n0, f)
    ensures
      var r' := Ask(r1, PaddedLen(|f.Ctrl()| - PREAMBLE_INLINE_LEN) + GCM_TAG_LEN, HandleControlRemainder);
      GoesOn(r, r', n0, f, rest)
  {
    hide Crc, EncodePreamble, Le32, Tail, PaddedLen;
    ValidWithinBounds(f);
    var r' := Ask(r1, PaddedLen(|f.Ctrl()| - PREAMBLE_INLINE_LEN) + GCM_TAG_LEN, HandleControlRemainder);
    assert [] + rest == Chunk(r', n0, f) + After(r', n0, f);
  }

  lemma RemainderIn(r: Reader, n0: nat, f: Frame, env: Env, rest: seq<bv8>)
    requires InFrame(r, n0, f, rest) && r.want == 0 && r.state == HandleControlRemainder && Ahead(f, r.inSeq) <= 1
    ensures Steps(r, Populate(r, env), n0, f, Skips(r, f, env), rest)
  {
    Arrived(r, n0, f, rest);
    hide Crc, EncodePreamble, DecodePreamble, Le32, Tail, PaddedLen, Ahead, ControlRead, InFrame, Open, Steps;
    var c := f.Ctrl();
    Opened(r.aead, Bump(n0), Padded(c[PREAMBLE_INLINE_LEN..]));
    assert c[..PREAMBLE_INLINE_LEN] + c[PREAMBLE_INLINE_LEN..] == c;
    var r1 := r.(nonce := Bump(r.nonce), ctrl := c);
    ControlIn(r1, n0, f, env, rest);
    assert Populate(r, env) == ControlRead(r1, env);
    StepsFrom(r, r1, ControlRead(r1, env), n0, f, Skips(r, f, env), rest);
  }

  lemma ReadDataIn(r: Reader, n0: nat, f: Frame, env: Env, rest: seq<bv8>)
    requires InFrame(r, n0, f, rest) && r.want == 0 && r.state == ReadData
    ensures Steps(r, Populate(r, env), n0, f, false, rest)
  {
    hide Crc, EncodePreamble, Le32, Tail, PaddedLen, AskData, Steps, PlainEpilogue;
    Arrived(r, n0, f, rest);
    var r1 := r.(front := r.buf[..r.desc.lens[1]], middle := r.buf[r.desc.lens[1]..]);
    assert r1.front == f.front && r1.middle == f.middle;
    AskDataIn(r1, n0, f, env, rest);
    assert Populate(r, env) == AskData(r1, env);
    hide InFrame, Fields, Chunk, After, Populate, Shape;
    GoingOn(r1, AskData(r1, env), n0, f, rest);
    StepsFrom(r, r1, AskData(r1, env), n0, f, false, rest);
  }

  lemma MorePieces(data: seq<bv8>, got: nat, n: nat, m: nat, epilogue: seq<bv8>)
    requires got + n + m <= |data|
    ensures data[..got] + Piece(data, got, n) == data[..got + n] && |Piece(data, got + n, m)| == m
    ensures Beyond(data, got + n) + epilogue == Piece(data, got + n, m) + (Beyond(data, got + n + m) + epilogue)
  {
    assert data[got + n..] == data[got + n..got + n + m] + data[got + n + m..];
  }

  lemma DataContIn(r: Reader, n0: nat, f: Frame, env: Env, rest: seq<bv8>)
    requires InFrame(r, n0, f, rest) && r.want == 0 && r.state == ReadDataCont
    ensures Steps(r, Populate(r, env), n0, f, false, rest)
  {
    hide Crc, EncodePreamble, Le32, Tail, PaddedLen, Steps, PlainEpilogue, Piece, Beyond;
    Arrived(r, n0, f, rest);
    CrcAppend(SEED, r.data, r.buf);
    var r', got := Populate(r, env), |r.data|;
    assert r'.data == r.data + r.buf == f.data[..got + |r.buf|] by {
      assert r.data == f.data[..got];
      MorePieces(f.data, got, |r.buf|, 0, []);
    }
    if |r'.data| < |f.data| {
      MorePieces(f.data, got, |r.buf|, r'.want, Epilogue(f));
      assert [] + rest == Chunk(r', n0, f) + After(r', n0, f);
    } else {
      assert r'.data == f.data;
      BeyondAll(f.data, got + |r.buf|, Epilogue(f));
      assert [] + rest == Chunk(r', n0, f) + After(r', n0, f);
    }
    GoingOn(r, r', n0, f, rest);
  }

  lemma BeyondAll(data: seq<bv8>, n: nat, epilogue: seq<bv8>)
    requires n == |data|
    ensures Beyond(data, n) + epilogue == epilogue
  {
  }

  lemma NextEncPageIn(r: Reader, n0: nat, f: Frame, env: Env, rest: seq<bv8>)
    requires InFrame(r, n0, f, rest) && r.want == 0 && r.state == ReadEncPage
    ensures Steps(r, Populate(r, env), n0, f, false, rest)
  {
    hide Crc, EncodePreamble, Le32, Tail, PaddedLen, Steps, PlainEpilogue, AskEncPage, AfterHead;
    Arrived(r, n0, f, rest);
    TailLength(r.secure, r.aead, n0, f);
    var r1 := r.(encPages := r.encPages + r.buf);
    var t := TailOf(r, n0, f);
    assert r.encPages == t[..|r.encPages|] && r1.encPages == t[..|r1.encPages|];
    EncPageIn(r1, n0, f, rest);
    assert Populate(r, env) == AskEncPage(r1);
    hide InFrame, Fields, Chunk, After, Populate, Shape;
    GoingOn(r1, AskEncPage(r1), n0, f, rest);
    StepsFrom(r, r1, AskEncPage(r1), n0, f, false, rest);
  }

  /** A message read in full is dispatched. */
  lemma DispatchEnds(r: Reader, r1: Reader, n0: nat, f: Frame)
    requires f.Valid() && f.HasTail() && r1.aead.Lawful() && WithinBounds(r1.desc.lens) && SameLink(r, r1)
    requires r1.events == r.events && r1.inSeq == r.inSeq && r1.nonce == AfterFrame(r.secure, n0, f)
    requires r1.ctrl == f.header && r1.front == f.front && r1.middle == f.middle && r1.data == f.data
    ensures Steps(r, Dispatch(r1), n0, f, false, [])
  {
    hide AfterFrame;
    assert Ends(r, Dispatch(r1), n0, f, EventOf(f), []);
  }

  /** The checksum conventions of the writer are those of the reader. */
  lemma EpilogueGood(r: Reader, f: Frame)
    requires f.HasTail() && r.desc == f.Describe() && r.front == f.front && r.middle == f.middle
    requires f.data != [] ==> r.dataCrc == Crc(SEED, f.data)
    ensures Complete(Epilogue(f)[0]) && GoodChecksums(r, Epilogue(f))
  {
    hide Le32, FromLe32, CrcByte;
    var e := Epilogue(f);
    ChecksumRoundTrip(Crc(SEED, f.front));
    ChecksumRoundTrip(SegmentCrc(f.middle, f.data != []));
    ChecksumRoundTrip(SegmentCrc(f.data, false));
    EpilogueParts([0xe], Le32(Crc(SEED, f.front)), Le32(SegmentCrc(f.middle, f.data != [])), Le32(SegmentCrc(f.data, false)));
    assert 0xe as bv8 & 0xf == 0xe;
  }

  lemma EpilogueParts(s: seq<bv8>, a: seq<bv8>, b: seq<bv8>, c: seq<bv8>)
    requires |s| == 1 && |a| == |b| == |c| == 4
    ensures (s + a + b + c)[1..5] == a && (s + a + b + c)[5..9] == b && (s + a + b + c)[9..13] == c
  {
  }

  lemma EpiloguePlainIn(r: Reader, n0: nat, f: Frame, env: Env, rest: seq<bv8>)
    requires InFrame(r, n0, f, rest) && r.want == 0 && r.state == HandleEpilogue && !r.secure
    ensures Steps(r, Populate(r, env), n0, f, false, rest)
  {
    hide Crc, EncodePreamble, Le32, FromLe32, Tail, PaddedLen, Steps, PlainEpilogue, Dispatch, GoodChecksums, Complete;
    Arrived(r, n0, f, rest);
    var r1 := if f.data != [] then r else r.(front := f.front, middle := f.middle);
    EpilogueGood(r1, f);
    if f.data == [] {
      assert r.buf[..|f.front|] == f.front && r.buf[|f.front|..|f.front| + |f.middle|] == f.middle;
      assert r.buf[|r.buf| - EPILOGUE_PLAIN_LEN..] == Epilogue(f);
    } else {
      assert r.buf[0..] == r.buf;
    }
    assert Populate(r, env) == Dispatch(r1);
    DispatchEnds(r, r1, n0, f);
  }

  /** Cutting the decrypted tail at the padded boundaries gives back the segments. */
  lemma TailTextParts(f: Frame)
    requires f.Message?
    ensures
      var p, second, third := TailText(f), PaddedLen(|f.front|), PaddedLen(|f.front|) + PaddedLen(|f.middle|);
      && |p| == third + PaddedLen(|f.data|) + GCM_BLOCK_LEN
      && p[..|f.front|] == f.front && p[second..second + |f.middle|] == f.middle
      && p[third..third + |f.data|] == f.data && p[|p| - GCM_BLOCK_LEN] == 0xe
  {
    hide PaddedLen;
  }

  lemma EpilogueSecureIn(r: Reader, n0: nat, f: Frame, env: Env, rest: seq<bv8>)
    requires InFrame(r, n0, f, rest) && r.want == 0 && r.state == HandleEpilogue && r.secure
    ensures Steps(r, Populate(r, env), n0, f, false, rest)
  {
    hide Crc, EncodePreamble, Le32, FromLe32, Tail, PaddedLen, Steps, PlainEpilogue, Dispatch, Open, AfterHead, TailText;
    Arrived(r, n0, f, rest);
    TailLength(r.secure, r.aead, n0, f);
    var t, nonce := TailOf(r, n0, f), AfterHead(true, n0, f);
    assert r.encPages + r.buf == t;
    assert t == r.aead.seal(nonce, TailText(f)) by { SealedTail(r.aead, n0, f); }
    Opened(r.aead, nonce, TailText(f));
    TailTextParts(f);
    assert 0xe as bv8 & 0xf == 0xe;
    var r1 := r.(nonce := Bump(nonce), front := f.front, middle := f.middle, data := f.data, encPages := [], encHeld := false);
    assert Populate(r, env) == EpilogueSecure(r) == Dispatch(r1);
    DispatchEnds(r, r1, n0, f);
  }

  lemma SealedTail(a: Aead, n0: nat, f: Frame)
    requires f.HasTail()
    ensures Tail(true, a, n0, f) == a.seal(AfterHead(true, n0, f), TailText(f))
  {
  }

  /** Each page-sized chunk of a skip is as long as what is asked for; the last one ends the frame. */
  lemma SkipIn(r: Reader, n0: nat, f: Frame, env: Env, rest: seq<bv8>)
    requires InFrame(r, n0, f, rest) && r.want == 0 && r.state == FinishSkip
    ensures Steps(r, Populate(r, env), n0, f, true, rest)
  {
    hide Crc, EncodePreamble, Le32, Tail, PaddedLen, PlainEpilogue, Bump;
    var r' := Populate(r, env);
    if r.skipResid > 0 {
      assert GoesOn(r, r', n0, f, rest);
    } else {
      assert Ends(r, r', n0, f, Skipped, rest);
    }
  }

  /** One step of the reader inside a frame of its peer. */
  lemma PopulateIn(r: Reader, n0: nat, f: Frame, env: Env, rest: seq<bv8>)
    requires InFrame(r, n0, f, rest) && r.want == 0 && Ahead(f, r.inSeq) <= 1
    ensures Shape(r) && Steps(r, Populate(r, env), n0, f, Skips(r, f, env), rest)
  {
    assert Shape(r) && !r.state.Failed? && (r.reading <==> r.state in {ReadData, ReadDataCont, ReadEncPage, HandleEpilogue});
    assert r.state == HandlePreamble && !r.secure ==> !Skips(r, f, env);
    hide InFrame, Shape, Populate, Steps;
    match r.state {
      case HandlePreamble => if r.secure { PreambleSecureIn(r, n0, f, env, rest); } else { PreamblePlainIn(r, n0, f, env, rest); }
      case HandleControl => ControlPlainIn(r, n0, f, env, rest);
      case HandleControlRemainder => RemainderIn(r, n0, f, env, rest);
      case ReadData => ReadDataIn(r, n0, f, env, rest);
      case ReadDataCont => DataContIn(r, n0, f, env, rest);
      case ReadEncPage => NextEncPageIn(r, n0, f, env, rest);
      case HandleEpilogue => if r.secure { EpilogueSecureIn(r, n0, f, env, rest); } else { EpiloguePlainIn(r, n0, f, env, rest); }
      case FinishSkip => SkipIn(r, n0, f, env, rest);
    }
  }

  /** Revoking the message being read, at any byte: exactly the rest of its frame is skipped. */
  lemma RevokeIn(r: Reader, n0: nat, f: Frame, rest: seq<bv8>)
    requires InFrame(r, n0, f, rest) && r.reading && r.want > 0
    ensures GoesOn(r, Revoke(r), n0, f, rest) && Revoke(r).state == FinishSkip
    ensures Revoke(r).want + Revoke(r).skipResid == |rest|
  {
    hide Crc, EncodePreamble, Le32, PlainEpilogue, PaddedLen, Tail, Bump;
    TailLength(r.secure, r.aead, n0, f);
    assert |r.buf| + |rest| == |Chunk(r, n0, f)| + |After(r, n0, f)| by {
      assert |r.buf + rest| == |Chunk(r, n0, f) + After(r, n0, f)|;
    }
    assert |rest| == r.want + |After(r, n0, f)|;
    assert |After(r, n0, f)| == Unasked(r);
  }

  // ------------------------------------------------------------- whole streams

  /** The stream a sender makes of frames, taking its nonces in order. */
  ghost function EncodeAll(secure: bool, a: Aead, nonce: nat, frames: seq<Frame>): seq<bv8>
    requires AllValid(frames)
    decreases |frames|
  {
    if frames == [] then [] else
    assert WithinBounds(frames[0].Describe().lens) by { ValidWithinBounds(frames[0]); }
    EncodeFrame(secure, a, nonce, frames[0]) + EncodeAll(secure, a, AfterFrame(secure, nonce, frames[0]), frames[1..])
  }

  ghost predicate AllValid(frames: seq<Frame>)
  {
    forall i :: 0 <= i < |frames| ==> frames[i].Valid()
  }

  /** The sender's nonce after some frames. */
  function NonceAfter(secure: bool, nonce: nat, frames: seq<Frame>): nat
    decreases |frames|
  {
    if frames == [] then nonce else NonceAfter(secure, AfterFrame(secure, nonce, frames[0]), frames[1..])
  }

  /** Message frames carry consecutive sequence numbers, the first of them following inSeq. */
  ghost predicate Consecutive(frames: seq<Frame>, inSeq: nat)
    decreases |frames|
  {
    if frames == [] then inSeq < 0x8000_0000_0000_0000
    else if frames[0].Message? then
      SeqOf(frames[0].header) == inSeq + 1 < 0x8000_0000_0000_0000 && Consecutive(frames[1..], inSeq + 1)
    else inSeq < 0x8000_0000_0000_0000 && Consecutive(frames[1..], inSeq)
  }

  /** A reader and the bytes on their way to it. */
  datatype Link = Link(r: Reader, stream: seq<bv8>)

  datatype Step = Deliver(k: nat) | Process(env: Env) | RevokeIncoming

  /** One step; the message being read can only be revoked while the reader waits for the socket. */
  ghost function Exec(l: Link, s: Step): Link
  {
    match s
    case Deliver(k) => if k <= l.r.want && k <= |l.stream| then Link(Feed(l.r, l.stream[..k]), l.stream[k..]) else l
    case Process(env) => if Shape(l.r) && l.r.want == 0 then l.(r := Populate(l.r, env)) else l
    case RevokeIncoming => if l.r.reading && l.r.want > 0 then l.(r := Revoke(l.r)) else l
  }

  ghost function ExecAll(l: Link, steps: seq<Step>): Link
    decreases |steps|
  {
    if steps == [] then l else ExecAll(Exec(l, steps[0]), steps[1..])
  }

  /** The reader is in the first of the frames still to be read, which began with nonce n0. */
  ghost predicate On(l: Link, n0: nat, todo: seq<Frame>, rest: seq<bv8>)
  {
    && AllValid(todo) && Consecutive(todo, l.r.inSeq)
    && if todo == [] then Boundary(l.r, n0) && rest == [] && l.stream == []
       else
         && InFrame(l.r, n0, todo[0], rest)
         && l.stream == rest + EncodeAll(l.r.secure, l.r.aead, AfterFrame(l.r.secure, n0, todo[0]), todo[1..])
  }

  lemma ConsecutiveAhead(frames: seq<Frame>, inSeq: nat)
    requires Consecutive(frames, inSeq) && frames != []
    ensures Ahead(frames[0], inSeq) == 1
    ensures Consecutive(frames[1..], inSeq + if frames[0].Message? then 1 else 0)
  {
    hide SeqOf;
  }

  /** At a frame boundary the reader is on whatever comes next. */
  lemma OnNext(r: Reader, nonce: nat, todo: seq<Frame>) returns (rest: seq<bv8>)
    requires Boundary(r, nonce) && AllValid(todo) && Consecutive(todo, r.inSeq)
    ensures On(Link(r, EncodeAll(r.secure, r.aead, nonce, todo)), nonce, todo, rest)
  {
    rest := [];
    if todo != [] {
      hide Consecutive, Boundary, InFrame, EncodeFrame;
      Enter(r, todo[0]) by { BoundaryNonce(r, nonce); }
      BoundaryNonce(r, nonce);
      rest := EncodeFrame(r.secure, r.aead, nonce, todo[0]);
    }
  }

  lemma BoundaryNonce(r: Reader, nonce: nat)
    requires Boundary(r, nonce)
    ensures r.nonce == nonce && Boundary(r, r.nonce)
  {
  }

  /** Steps of a polite environment: no message is skipped or revoked. */
  predicate Keeps(s: Step)
  {
    match s
    case Process(env) => env.keep
    case RevokeIncoming => false
    case Deliver(_) => true
  }

  /** After a step, ended frames have given their event. */
  ghost predicate Progress(l: Link, l': Link, n0: nat, n1: nat, todo: seq<Frame>, todo': seq<Frame>, kept: bool)
  {
    && SameLink(l.r, l'.r)
    && if todo' == todo then l'.r.events == l.r.events && n1 == n0
       else todo != [] && todo' == todo[1..] && n1 == AfterFrame(l.r.secure, n0, todo[0]) && Gained(l, l', todo[0], kept)
  }

  ghost predicate Gained(l: Link, l': Link, f: Frame, kept: bool)
  {
    || l'.r.events == l.r.events + [EventOf(f)]
    || (!kept && f.Message? && l'.r.events == l.r.events + [Skipped])
  }

  lemma ProcessOn(l: Link, n0: nat, todo: seq<Frame>, rest: seq<bv8>, env: Env)
    returns (n1: nat, todo': seq<Frame>, rest': seq<bv8>)
    requires On(l, n0, todo, rest) && Shape(l.r) && l.r.want == 0
    ensures
      var l' := l.(r := Populate(l.r, env));
      var kept := env.keep && l.r.state != FinishSkip;
      On(l', n1, todo', rest') && Progress(l, l', n0, n1, todo, todo', kept) && (kept ==> l'.r.state != FinishSkip)
  {
    n1, todo', rest' := n0, todo, rest;
    if todo != [] {
      hide InFrame, Shape, Populate, Boundary;
      ConsecutiveAhead(todo, l.r.inSeq);
      PopulateIn(l.r, n0, todo[0], env, rest);
      var r' := Populate(l.r, env);
      if !GoesOn(l.r, r', n0, todo[0], rest) {
        n1, todo' := AfterFrame(l.r.secure, n0, todo[0]), todo[1..];
        assert rest == [] && rest + EncodeAll(r'.secure, r'.aead, n1, todo') == EncodeAll(r'.secure, r'.aead, n1, todo');
        BoundaryNonce(r', n1);
        BoundaryState(r', n1);
        rest' := OnNext(r', n1, todo');
      }
    }
  }

  lemma BoundaryState(r: Reader, nonce: nat)
    requires Boundary(r, nonce)
    ensures r.state == HandlePreamble
  {
  }

  lemma DeliverNothing(l: Link, n0: nat, rest: seq<bv8>, k: nat)
    requires On(l, n0, [], rest) && k <= l.r.want && k <= |l.stream|
    ensures Exec(l, Deliver(k)) == l
  {
    assert k == 0 && l.stream == [];
    hide On;
    assert l.stream[..0] == [] && l.stream[0..] == [] && l.r.buf + [] == l.r.buf;
  }

  lemma DeliverOn(l: Link, n0: nat, todo: seq<Frame>, rest: seq<bv8>, k: nat) returns (rest': seq<bv8>)
    requires On(l, n0, todo, rest) && k <= l.r.want && k <= |l.stream| && todo != []
    ensures On(Exec(l, Deliver(k)), n0, todo, rest') && Progress(l, Exec(l, Deliver(k)), n0, n0, todo, todo, true)
  {
    hide InFrame, Consecutive, EncodeAll;
    FeedInFrame(l.r, n0, todo[0], rest, k);
    rest' := rest[k..];
    assert l.stream[..k] == rest[..k];
    var more := EncodeAll(l.r.secure, l.r.aead, AfterFrame(l.r.secure, n0, todo[0]), todo[1..]);
    assert l.stream[k..] == rest[k..] + more;
  }

  lemma ExecOn(l: Link, n0: nat, todo: seq<Frame>, rest: seq<bv8>, s: Step)
    returns (n1: nat, todo': seq<Frame>, rest': seq<bv8>)
    requires On(l, n0, todo, rest)
    ensures On(Exec(l, s), n1, todo', rest')
    ensures Progress(l, Exec(l, s), n0, n1, todo, todo', Keeps(s) && l.r.state != FinishSkip)
    ensures Keeps(s) && l.r.state != FinishSkip ==> Exec(l, s).r.state != FinishSkip
  {
    n1, todo', rest' := n0, todo, rest;
    match s
    case Deliver(k) =>
      hide On;
      if k <= l.r.want && k <= |l.stream| {
        if todo == [] { DeliverNothing(l, n0, rest, k); } else { rest' := DeliverOn(l, n0, todo, rest, k); }
      }
    case Process(env) =>
      hide On;
      if Shape(l.r) && l.r.want == 0 { n1, todo', rest' := ProcessOn(l, n0, todo, rest, env); }
    case RevokeIncoming =>
      if l.r.reading && l.r.want > 0 {
        RevokeOn(l, n0, todo, rest);
      }
  }

  lemma RevokeOn(l: Link, n0: nat, todo: seq<Frame>, rest: seq<bv8>)
    requires On(l, n0, todo, rest) && l.r.reading && l.r.want > 0
    ensures On(l.(r := Revoke(l.r)), n0, todo, rest) && Progress(l, l.(r := Revoke(l.r)), n0, n0, todo, todo, false)
  {
    assert todo != [];
    hide InFrame, Revoke, EncodeAll, Consecutive;
    RevokeIn(l.r, n0, todo[0], rest);
  }

  /** The events of the frames that have been read, in order, one for each. */
  ghost predicate Reported(events: seq<Event>, frames: seq<Frame>, kept: bool)
  {
    && |events| == |frames|
    && forall i :: 0 <= i < |frames| ==> Matches(events[i], frames[i]) && (kept ==> events[i] == EventOf(frames[i]))
  }

  predicate AllKeep(steps: seq<Step>)
  {
    forall i :: 0 <= i < |steps| ==> Keeps(steps[i])
  }

  /** What is left of the frames after some of them, and what the reader has reported of those. */
  ghost predicate HasRead(l: Link, l': Link, n0: nat, n1: nat, todo: seq<Frame>, done: nat, kept: bool)
  {
    && done <= |todo| && SameLink(l.r, l'.r)
    && l.r.events <= l'.r.events && Reported(l'.r.events[|l.r.events|..], todo[..done], kept)
    && n1 == NonceAfter(l.r.secure, n0, todo[..done])
  }

  lemma HasReadMore(l: Link, l1: Link, l2: Link, n0: nat, n1: nat, n2: nat, todo: seq<Frame>, todo1: seq<Frame>, d: nat, kept: bool)
    requires Progress(l, l1, n0, n1, todo, todo1, kept) && HasRead(l1, l2, n1, n2, todo1, d, kept)
    ensures d <= |todo1| && HasRead(l, l2, n0, n2, todo, |todo| - |todo1| + d, kept)
  {
    hide AfterFrame;
    if todo1 != todo {
      assert todo[..d + 1][1..] == todo1[..d] && todo[..d + 1][0] == todo[0];
      var e := l1.r.events[|l.r.events|];
      assert l2.r.events[|l.r.events|..] == [e] + l2.r.events[|l1.r.events|..];
      assert todo[..d + 1] == [todo[0]] + todo1[..d];
    }
  }

  /** Whatever the schedule, the reader stays on the frames it was sent. */
  lemma {:induction false} RunOn(l: Link, n0: nat, todo: seq<Frame>, rest: seq<bv8>, steps: seq<Step>)
    returns (n1: nat, done: nat, rest': seq<bv8>)
    requires On(l, n0, todo, rest)
    ensures done <= |todo| && On(ExecAll(l, steps), n1, todo[done..], rest')
    ensures HasRead(l, ExecAll(l, steps), n0, n1, todo, done, AllKeep(steps) && l.r.state != FinishSkip)
    decreases |steps|
  {
    hide On, Exec;
    if steps == [] {
      n1, done, rest' := n0, 0, rest;
      assert todo[0..] == todo;
    } else {
      var l1 := Exec(l, steps[0]);
      var m, todo1, rest1 := ExecOn(l, n0, todo, rest, steps[0]);
      var d;
      n1, d, rest' := RunOn(l1, m, todo1, rest1, steps[1..]);
      var kept := AllKeep(steps) && l.r.state != FinishSkip;
      KeptTail(steps);
      WeakerReads(l1, ExecAll(l1, steps[1..]), m, n1, todo1, d, AllKeep(steps[1..]) && l1.r.state != FinishSkip, kept);
      WeakerProgress(l, l1, n0, m, todo, todo1, Keeps(steps[0]) && l.r.state != FinishSkip, kept);
      HasReadMore(l, l1, ExecAll(l, steps), n0, m, n1, todo, todo1, d, kept);
      done := |todo| - |todo1| + d;
      assert todo1 == todo || todo1 == todo[1..];
    }
  }

  lemma KeptTail(steps: seq<Step>)
    requires steps != []
    ensures AllKeep(steps) ==> Keeps(steps[0]) && AllKeep(steps[1..])
  {
  }

  lemma WeakerReads(l: Link, l': Link, n0: nat, n1: nat, todo: seq<Frame>, done: nat, kept: bool, weaker: bool)
    requires HasRead(l, l', n0, n1, todo, done, kept) && (weaker ==> kept)
    ensures HasRead(l, l', n0, n1, todo, done, weaker)
  {
  }

  lemma WeakerProgress(l: Link, l': Link, n0: nat, n1: nat, todo: seq<Frame>, todo': seq<Frame>, kept: bool, weaker: bool)
    requires Progress(l, l', n0, n1, todo, todo', kept) && (weaker ==> kept)
    ensures Progress(l, l', n0, n1, todo, todo', weaker)
  {
  }

  // ------------------------------------------------------------ the main results

  predicate AtRest(r: Reader)
  {
    r.state == HandlePreamble && r.buf == []
  }

  lemma OnFacts(l: Link, n0: nat, todo: seq<Frame>, rest: seq<bv8>)
    requires On(l, n0, todo, rest)
    ensures !l.r.state.Failed? && (l.r.state == HandlePreamble ==> l.r.nonce == n0)
    ensures Shape(l.r) && (l.r.state != FinishSkip ==> l.r.want <= |l.stream| || todo == [])
    ensures l.stream == [] && AtRest(l.r) ==> todo == []
  {
    if todo != [] {
      hide EncodeAll, Consecutive, Crc, Tail;
      FeedInFrame(l.r, n0, todo[0], rest, 0);
      assert |rest| <= |l.stream|;
    }
  }

  /**
   The round trip: frames written one after another, cut anywhere by the socket, come out of
   the reader in order and once each, messages that were skipped or revoked being replaced by
   a mark; the reader never fails, both ends agree on the nonce of every frame, and when the
   stream is used up the reader stands at the end of the last frame.
   */
  lemma ReadsWhatWasWritten(r: Reader, frames: seq<Frame>, steps: seq<Step>) returns (done: nat)
    requires Boundary(r, r.nonce) && AllValid(frames) && Consecutive(frames, r.inSeq)
    ensures
      var l := ExecAll(Link(r, EncodeAll(r.secure, r.aead, r.nonce, frames)), steps);
      && done <= |frames| && !l.r.state.Failed?
      && r.events <= l.r.events && Reported(l.r.events[|r.events|..], frames[..done], AllKeep(steps))
      && (l.r.state == HandlePreamble ==> l.r.nonce == NonceAfter(r.secure, r.nonce, frames[..done]))
      && (l.stream == [] && AtRest(l.r) ==> done == |frames|)
  {
    BoundaryState(r, r.nonce);
    var l := Link(r, EncodeAll(r.secure, r.aead, r.nonce, frames));
    hide On, Boundary, Consecutive, EncodeAll;
    var rest := OnNext(r, r.nonce, frames);
    var n1, rest';
    n1, done, rest' := RunOn(l, r.nonce, frames, rest, steps);
    OnFacts(ExecAll(l, steps), n1, frames[done..], rest');
  }

  lemma ExecAppend(l: Link, a: seq<Step>, s: Step)
    ensures ExecAll(l, a + [s]) == Exec(ExecAll(l, a), s)
    decreases |a|
  {
    hide Exec;
    if a == [] {
      assert ([] + [s])[1..] == [];
    } else {
      assert (a + [s])[0] == a[0] && (a + [s])[1..] == a[1..] + [s];
      ExecAppend(Exec(l, a[0]), a[1..], s);
    }
  }

  lemma NotStuck(l: Link, n0: nat, todo: seq<Frame>, rest: seq<bv8>)
    requires On(l, n0, todo, rest) && todo != []
    ensures Shape(l.r) && l.r.want <= |l.stream|
    ensures l.r.want == 0 ==> Populate(l.r, Env(true, 0)).want > 0
  {
    hide EncodeAll, Consecutive, Crc, Tail, Chunk, After;
    FeedInFrame(l.r, n0, todo[0], rest, 0);
    assert |rest| <= |l.stream|;
    if l.r.want == 0 {
      hide Populate, Fields;
      PopulateReady(l.r, Env(true, 0));
      ConsecutiveAhead(todo, l.r.inSeq);
      PopulateIn(l.r, n0, todo[0], Env(true, 0), rest);
      StillGoing(l.r, Populate(l.r, Env(true, 0)), n0, todo[0], Skips(l.r, todo[0], Env(true, 0)), rest);
    }
  }

  lemma StillGoing(r: Reader, r': Reader, n0: nat, f: Frame, skipping: bool, rest: seq<bv8>)
    requires Steps(r, r', n0, f, skipping, rest)
    ensures r'.want > 0
  {
    hide InFrame;
  }

  function NextStep(r: Reader): Step
  {
    if r.want == 0 then Process(Env(true, 0)) else Deliver(r.want)
  }

  lemma Advances(l: Link, n0: nat, todo: seq<Frame>, rest: seq<bv8>)
    requires On(l, n0, todo, rest) && todo != []
    ensures var l' := Exec(l, NextStep(l.r));
      |l'.stream| < |l.stream| || (|l'.stream| == |l.stream| && l.r.want == 0 && l'.r.want > 0)
  {
    NotStuck(l, n0, todo, rest);
    hide On, Populate, Shape;
  }

  /** Reading never gets stuck: some schedule reads every frame. */
  lemma {:induction false} Finishes(l: Link, n0: nat, todo: seq<Frame>, rest: seq<bv8>) returns (steps: seq<Step>)
    requires On(l, n0, todo, rest)
    ensures ExecAll(l, steps).stream == [] && AtRest(ExecAll(l, steps).r) && AllKeep(steps)
    decreases |l.stream|, if l.r.want == 0 then 1 else 0
  {
    if todo == [] {
      steps := [];
    } else {
      Advances(l, n0, todo, rest);
      hide On, Exec, AtRest;
      var s := NextStep(l.r);
      var n1, todo1, rest1 := ExecOn(l, n0, todo, rest, s);
      var more := Finishes(Exec(l, s), n1, todo1, rest1);
      steps := [s] + more;
      assert steps[1..] == more;
    }
  }

  // ----------------------------------------------------------------- skipping

  /** Delivers bytes to a skipping reader as fast as it asks, re-arming it whenever it has none left to wait for. */
  ghost function Drain(r: Reader, bytes: seq<bv8>): Reader
    requires Shape(r) && r.state == FinishSkip && r.want > 0 && |bytes| == r.want + r.skipResid
    decreases |bytes|
  {
    var r' := ContinueSkip(Feed(r, bytes[..r.want]));
    if |bytes| == r.want then r' else Drain(r', bytes[r.want..])
  }

  /** A skip of len bytes as one discard. */
  function OneShot(r: Reader, len: nat, bytes: seq<bv8>): Reader
    requires |bytes| == len
  {
    ContinueSkip(Feed(Ask(r, len, FinishSkip).(skipResid := 0), bytes))
  }

  /** The page-sized chunks of a skip come to the same as one discard of the whole length. */
  lemma {:induction false} SkipRefinesDiscard(r: Reader, len: nat, bytes: seq<bv8>)
    requires WithinBounds(r.desc.lens) && !r.reading && |bytes| == len > 0
    ensures Ready(SetSkip(r, len)) && Drain(SetSkip(r, len), bytes) == OneShot(r, len, bytes)
    decreases len
  {
    var s := SetSkip(r, len);
    if len > PAGE_SIZE {
      var r' := Feed(s, bytes[..s.want]);
      SkipRefinesDiscard(r', len - PAGE_SIZE, bytes[PAGE_SIZE..]);
      assert ContinueSkip(r') == SetSkip(r', len - PAGE_SIZE);
    }
  }

  // --------------------------------------------------- the two ends together

  /** The writer of plain messages sends just this frame when its message is not revoked. */
  lemma WriterSendsFrame(a: Aead, nonce: nat, f: Frame, m: PlainWriter.Message)
    requires f.Valid() && f.Message? && m.Valid()
    requires m.front == f.front && m.middle == f.middle && m.Data() == f.data
    ensures WithinBounds(f.Describe().lens)
    ensures PlainWriter.FrameBytes(PlainHead(f), PlainWriter.Whole(m)) == EncodeFrame(false, a, nonce, f)
  {
    hide Crc, Le32, Be32, EncodePreamble, PlainWriter.Join;
    ValidWithinBounds(f);
    var o := PlainWriter.Whole(m);
    if f.HasTail() {
      assert PlainWriter.Epilogue(o) == PlainEpilogue(f.front, f.middle, f.data) by { EpiloguesAgree(f, o); }
      assert PlainWriter.Body(PlainHead(f), o) == PlainHead(f) + f.front + f.middle + f.data;
    }
  }

  lemma EpiloguesAgree(f: Frame, o: PlainWriter.Outcome)
    requires f.Message? && o == PlainWriter.Outcome(f.front, f.middle, f.data, false, false)
    ensures PlainWriter.Epilogue(o) == PlainEpilogue(f.front, f.middle, f.data)
  {
    hide CrcByte, Le32, Be32;
  }

  /** How far a reader has got, for some witness of where it stands. */
  ghost predicate Reading(start: Link, l: Link, frames: seq<Frame>, done: nat, kept: bool)
  {
    exists n1, rest :: ReadingAt(start, l, frames, done, kept, n1, rest)
  }

  ghost predicate ReadingAt(start: Link, l: Link, frames: seq<Frame>, done: nat, kept: bool, n1: nat, rest: seq<bv8>)
  {
    && done <= |frames| && On(l, n1, frames[done..], rest) && HasRead(start, l, start.r.nonce, n1, frames, done, kept)
    && (kept ==> l.r.state != FinishSkip)
  }

  lemma ReadingStarts(start: Link, frames: seq<Frame>)
    requires Boundary(start.r, start.r.nonce) && AllValid(frames) && Consecutive(frames, start.r.inSeq)
    requires start.stream == EncodeAll(start.r.secure, start.r.aead, start.r.nonce, frames)
    ensures Reading(start, start, frames, 0, true)
  {
    BoundaryState(start.r, start.r.nonce);
    hide On, Consecutive, EncodeAll, Boundary;
    var rest := OnNext(start.r, start.r.nonce, frames);
    NothingRead(start, frames);
    hide HasRead;
    assert frames[0..] == frames && Link(start.r, start.stream) == start;
    assert ReadingAt(start, start, frames, 0, true, start.r.nonce, rest);
  }

  lemma NothingRead(start: Link, frames: seq<Frame>)
    ensures HasRead(start, start, start.r.nonce, start.r.nonce, frames, 0, true)
  {
    assert frames[..0] == [] && start.r.events[|start.r.events|..] == [];
  }

  lemma ReadingSteps(start: Link, l: Link, frames: seq<Frame>, done: nat, schedule: seq<Step>, i: nat) returns (done': nat)
    requires i < |schedule| && Reading(start, l, frames, done, AllKeep(schedule[..i]))
    ensures Reading(start, Exec(l, schedule[i]), frames, done', AllKeep(schedule[..i + 1]))
  {
    var n1, rest :| ReadingAt(start, l, frames, done, AllKeep(schedule[..i]), n1, rest);
    hide On, Exec, HasRead, AllKeep, Keeps, Progress;
    AllKeepMore(schedule, i);
    var n2, todo, rest2 := ExecOn(l, n1, frames[done..], rest, schedule[i]);
    var kept := AllKeep(schedule[..i + 1]);
    WeakerProgress(l, Exec(l, schedule[i]), n1, n2, frames[done..], todo, Keeps(schedule[i]) && l.r.state != FinishSkip, kept);
    done' := MoreRead(start, l, Exec(l, schedule[i]), start.r.nonce, n1, n2, frames, done, todo, AllKeep(schedule[..i]), kept);
    assert ReadingAt(start, Exec(l, schedule[i]), frames, done', kept, n2, rest2);
  }

  lemma ReadingFacts(start: Link, l: Link, frames: seq<Frame>, done: nat, kept: bool)
    requires Reading(start, l, frames, done, kept)
    ensures Shape(l.r) && done <= |frames| && start.r.events <= l.r.events
    ensures Reported(l.r.events[|start.r.events|..], frames[..done], kept)
    ensures AtRest(l.r) && l.stream == [] ==> done == |frames|
  {
    var n1, rest :| ReadingAt(start, l, frames, done, kept, n1, rest);
    hide On;
    OnFacts(l, n1, frames[done..], rest);
  }

  /** Reads a stream of frames on any schedule. */
  method ReadStream(secure: bool, a: Aead, nonce: nat, inSeq: nat, frames: seq<Frame>, bytes: seq<bv8>, schedule: seq<Step>)
    returns (events: seq<Event>, ended: bool, left: seq<bv8>)
    requires a.Lawful() && AllValid(frames) && Consecutive(frames, inSeq) && bytes == EncodeAll(secure, a, nonce, frames)
    ensures |events| <= |frames| && Reported(events, frames[..|events|], AllKeep(schedule))
    ensures ended && left == [] ==> |events| == |frames|
  {
    hide Reading, Exec, AllKeep, Consecutive, EncodeAll, Reported, Shape, AllValid;
    var c := new InConnection(secure, a, nonce, inSeq);
    ghost var start := Link(c.View(), bytes);
    ghost var l := start;
    left := bytes;
    ghost var done: nat := 0;
    StartsAtRest(start.r);
    hide AtStart, Boundary;
    ReadingStarts(start, frames);
    assert AllKeep(schedule[..0]) by { NothingSkipped(schedule); }
    for i := 0 to |schedule|
      invariant l == Link(c.View(), left)
      invariant Reading(start, l, frames, done, AllKeep(schedule[..i]))
    {
      ReadingFacts(start, l, frames, done, AllKeep(schedule[..i]));
      done := ReadingSteps(start, l, frames, done, schedule, i);
      l := Exec(l, schedule[i]);
      left := Do(c, left, schedule[i]);
    }
    assert schedule[..|schedule|] == schedule;
    ReadingFacts(start, l, frames, done, AllKeep(schedule));
    events, ended := c.events, c.state == HandlePreamble && c.buf == [];
    assert l.r.events[0..] == l.r.events;
    ReportedLength(events, frames[..done], AllKeep(schedule));
  }

  lemma ReportedLength(events: seq<Event>, frames: seq<Frame>, kept: bool)
    requires Reported(events, frames, kept)
    ensures |events| == |frames|
  {
  }

  lemma StartsAtRest(r: Reader)
    requires Shape(r) && AtStart(r) && r.aead.Lawful()
    ensures Boundary(r, r.nonce)
  {
  }

  lemma NothingSkipped(schedule: seq<Step>)
    ensures AllKeep(schedule[..0])
  {
  }

  lemma AllKeepMore(schedule: seq<Step>, i: nat)
    requires i < |schedule|
    ensures AllKeep(schedule[..i + 1]) <==> AllKeep(schedule[..i]) && Keeps(schedule[i])
  {
    assert schedule[..i + 1] == schedule[..i] + [schedule[i]];
  }

  lemma NonceAfterMore(secure: bool, nonce: nat, frames: seq<Frame>, f: Frame)
    ensures NonceAfter(secure, nonce, frames + [f]) == AfterFrame(secure, NonceAfter(secure, nonce, frames), f)
    decreases |frames|
  {
    hide AfterFrame;
    if frames == [] {
      assert ([] + [f])[1..] == [];
    } else {
      assert (frames + [f])[1..] == frames[1..] + [f];
      NonceAfterMore(secure, AfterFrame(secure, nonce, frames[0]), frames[1..], f);
    }
  }

  lemma MoreRead(start: Link, l: Link, l': Link, n0: nat, n1: nat, n2: nat, frames: seq<Frame>, done: nat, todo: seq<Frame>,
                 kept: bool, kept': bool) returns (done': nat)
    requires HasRead(start, l, n0, n1, frames, done, kept) && Progress(l, l', n1, n2, frames[done..], todo, kept')
    requires kept' ==> kept
    ensures done' <= |frames| && todo == frames[done'..] && HasRead(start, l', n0, n2, frames, done', kept')
  {
    hide AfterFrame;
    if todo == frames[done..] {
      done' := done;
    } else {
      done' := done + 1;
      assert frames[..done'] == frames[..done] + [frames[done]];
      NonceAfterMore(start.r.secure, n0, frames[..done], frames[done]);
      var before := |start.r.events|;
      assert l'.r.events[before..] == l.r.events[before..] + [l'.r.events[|l.r.events|]];
    }
  }

  /** One step of a connection. */
  method Do(c: InConnection, stream: seq<bv8>, s: Step) returns (left: seq<bv8>)
    requires Shape(c.View())
    modifies c
    ensures Link(c.View(), left) == Exec(old(Link(c.View(), stream)), s)
  {
    hide Populate, Revoke;
    left := stream;
    match s {
      case Deliver(k) =>
        if k <= c.want && k <= |stream| {
          c.Receive(stream[..k]);
          left := stream[k..];
        }
      case Process(env) => if c.want == 0 { c.PopulateIn(env); }
      case RevokeIncoming => if c.reading && c.want > 0 { c.RevokeMessage(); }
    }
  }

  // ------------------------------------------------------------------- nonces

  const NONCES := 0x1_0000_0000_0000_0000

  /** The nonces a secure sender uses for one frame, in order. */
  function NoncesOf(nonce: nat, f: Frame): seq<nat>
  {
    [nonce] + (if Big(f) then [Bump(nonce)] else []) + (if f.HasTail() then [AfterHead(true, nonce, f)] else [])
  }

  function NoncesUsed(nonce: nat, frames: seq<Frame>): seq<nat>
    decreases |frames|
  {
    if frames == [] then [] else NoncesOf(nonce, frames[0]) + NoncesUsed(AfterFrame(true, nonce, frames[0]), frames[1..])
  }

  /** The k-th nonce from a start. */
  function NthNonce(nonce: nat, k: nat): nat
  {
    (nonce + k) % NONCES
  }

  lemma BumpNth(nonce: nat, k: nat)
    ensures Bump(NthNonce(nonce, k)) == NthNonce(nonce, k + 1)
    ensures nonce < NONCES ==> NthNonce(nonce, 0) == nonce
  {
  }

  lemma NthNth(nonce: nat, j: nat, k: nat)
    ensures NthNonce(NthNonce(nonce, j), k) == NthNonce(nonce, j + k)
  {
  }

  lemma NoncesOfFrame(nonce: nat, f: Frame)
    requires nonce < NONCES
    ensures forall i :: 0 <= i < |NoncesOf(nonce, f)| ==> NoncesOf(nonce, f)[i] == NthNonce(nonce, i)
    ensures AfterFrame(true, nonce, f) == NthNonce(nonce, |NoncesOf(nonce, f)|) < NONCES
  {
    BumpNth(nonce, 0);
    BumpNth(nonce, 1);
    BumpNth(nonce, 2);
    hide NthNonce, Bump;
  }

  /** A sender takes its nonces one after another, and ends where the reader does. */
  lemma {:induction false} NoncesInOrder(nonce: nat, frames: seq<Frame>)
    requires nonce < NONCES
    ensures forall i :: 0 <= i < |NoncesUsed(nonce, frames)| ==> NoncesUsed(nonce, frames)[i] == NthNonce(nonce, i)
    ensures NonceAfter(true, nonce, frames) == NthNonce(nonce, |NoncesUsed(nonce, frames)|)
    decreases |frames|
  {
    if frames == [] {
      BumpNth(nonce, 0);
    } else {
      var own, next := NoncesOf(nonce, frames[0]), AfterFrame(true, nonce, frames[0]);
      NoncesOfFrame(nonce, frames[0]);
      NoncesInOrder(next, frames[1..]);
      hide NthNonce, NoncesOf;
      var more := NoncesUsed(next, frames[1..]);
      NthNth(nonce, |own|, |more|);
      forall i | 0 <= i < |own| + |more|
        ensures (own + more)[i] == NthNonce(nonce, i)
      {
        if i >= |own| { NthNth(nonce, |own|, i - |own|); }
      }
    }
  }

  lemma NthDiffer(nonce: nat, i: nat, d: nat)
    ensures 0 < d < NONCES ==> NthNonce(nonce, i) != NthNonce(nonce, i + d)
    ensures NthNonce(nonce, NONCES) == NthNonce(nonce, 0)
  {
  }

  /** No nonce is used twice in a session, exactly while it uses no more than 2^64 of them. */
  lemma NoncesDistinct(nonce: nat, frames: seq<Frame>)
    requires nonce < NONCES
    ensures
      var used := NoncesUsed(nonce, frames);
      (forall i, j :: 0 <= i < j < |used| ==> used[i] != used[j]) <==> |used| <= NONCES
  {
    NoncesInOrder(nonce, frames);
    var used := NoncesUsed(nonce, frames);
    hide NoncesUsed, NthNonce;
    if |used| > NONCES {
      NthDiffer(nonce, 0, 0);
      assert used[0] == used[NONCES];
    } else {
      forall i, j | 0 <= i < j < |used|
        ensures used[i] != used[j]
      {
        NthDiffer(nonce, i, j - i);
      }
    }
  }
}
