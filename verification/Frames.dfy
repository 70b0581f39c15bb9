/** msgr2 frames: descriptors, preambles, and the bytes of a frame in plain and in secure mode. */
module Frames {
  import opened Wire

  datatype Option<T> = None | Some(value: T)

  datatype Error = BadMessage | Invalid | BadSequence

  datatype Result<T> = Ok(value: T) | Err(error: Error)

  const TAG_MESSAGE: bv8 := 17
  const MAX_CONTROL := 16 * 1024 * 1024
  const MAX_FRONT := 16 * 1024 * 1024
  const MAX_MIDDLE := 16 * 1024 * 1024
  const MAX_DATA := 64 * 1024 * 1024
  const MAX_SEGMENTS := 4

  // ---------------------------------------------------------------- integers

  /** The byte of value n. */
  function ByteOf(n: nat): bv8
    requires n < 256
  {
    if n == 0 then 0 else ByteOf(n - 1) + 1
  }

  lemma NextByte(x: bv8)
    requires x != 255
    ensures (x + 1) as nat == x as nat + 1
  {
  }

  lemma {:induction false} ByteOfNat(n: nat)
    requires n < 256
    ensures ByteOf(n) as nat == n
  {
    if n > 0 {
      ByteOfNat(n - 1);
      NextByte(ByteOf(n - 1));
    }
  }

  /** A length, least significant byte first. */
  function LeLen(n: nat): (s: seq<bv8>)
    requires n < 0x1_0000_0000
    ensures |s| == 4
  {
    [ByteOf(n % 256), ByteOf(n / 256 % 256), ByteOf(n / 65536 % 256), ByteOf(n / 16777216)]
  }

  /** A little-endian number of any width. */
  function FromLe(s: seq<bv8>): nat
  {
    if s == [] then 0 else s[0] as nat + 256 * FromLe(s[1..])
  }

  lemma FromLe4(a: bv8, b: bv8, c: bv8, d: bv8)
    ensures FromLe([a, b, c, d]) == a as nat + 256 * (b as nat) + 65536 * (c as nat) + 16777216 * (d as nat)
  {
    assert FromLe([d]) == d as nat by { assert [d][1..] == []; }
    assert FromLe([c, d]) == c as nat + 256 * FromLe([d]) by { assert [c, d][1..] == [d]; }
    assert FromLe([b, c, d]) == b as nat + 256 * FromLe([c, d]) by { assert [b, c, d][1..] == [c, d]; }
    assert [a, b, c, d][1..] == [b, c, d];
  }

  lemma Digits(n: nat)
    requires n < 0x1_0000_0000
    ensures n == n % 256 + 256 * (n / 256 % 256) + 65536 * (n / 65536 % 256) + 16777216 * (n / 16777216)
    ensures n / 16777216 < 256
  {
    assert n / 256 == 256 * (n / 256 / 256) + n / 256 % 256 && n / 256 / 256 == n / 65536;
    assert n / 65536 == 256 * (n / 65536 / 256) + n / 65536 % 256 && n / 65536 / 256 == n / 16777216;
  }

  lemma LengthRoundTrip(n: nat)
    requires n < 0x1_0000_0000
    ensures FromLe(LeLen(n)) == n
  {
    hide FromLe;
    Digits(n);
    BytesRoundTrip(n % 256, n / 256 % 256, n / 65536 % 256, n / 16777216);
  }

  lemma BytesRoundTrip(a: nat, b: nat, c: nat, d: nat)
    requires a < 256 && b < 256 && c < 256 && d < 256
    ensures FromLe([ByteOf(a), ByteOf(b), ByteOf(c), ByteOf(d)]) == a + 256 * b + 65536 * c + 16777216 * d
  {
    hide FromLe, ByteOf;
    ByteOfNat(a);
    ByteOfNat(b);
    ByteOfNat(c);
    ByteOfNat(d);
    FromLe4(ByteOf(a), ByteOf(b), ByteOf(c), ByteOf(d));
  }

  /** get_unaligned_le32 on a checksum */
  function FromLe32(s: seq<bv8>): bv32
    requires |s| == 4
  {
    (s[0] as bv32) | ((s[1] as bv32) << 8) | ((s[2] as bv32) << 16) | ((s[3] as bv32) << 24)
  }

  lemma ChecksumRoundTrip(x: bv32)
    ensures FromLe32(Le32(x)) == x
  {
  }

  // -------------------------------------------------------------- descriptors

  /** The lengths of the control, front, middle and data segments. */
  type Lengths = s: seq<nat> | |s| == MAX_SEGMENTS witness [0, 0, 0, 0]

  predicate WithinBounds(lens: Lengths)
  {
    lens[0] <= MAX_CONTROL && lens[1] <= MAX_FRONT && lens[2] <= MAX_MIDDLE && lens[3] <= MAX_DATA
  }

  datatype Desc = Desc(tag: bv8, lens: Lengths)

  /** Trailing empty segments are dropped, unless there is just one segment. */
  ghost predicate IsSegmentCount(lens: seq<nat>, cnt: nat)
  {
    && 1 <= cnt <= |lens|
    && (forall i :: cnt <= i < |lens| ==> lens[i] == 0)
    && (cnt > 1 ==> lens[cnt - 1] != 0)
  }

  /** calc_segment_count */
  function SegmentCount(lens: Lengths): (cnt: nat)
    ensures IsSegmentCount(lens, cnt)
  {
    if lens[3] != 0 then 4 else if lens[2] != 0 then 3 else if lens[1] != 0 then 2 else 1
  }

  method CalcSegmentCount(lens: seq<nat>) returns (cnt: nat)
    requires |lens| > 0
    ensures IsSegmentCount(lens, cnt)
  {
    var i := |lens| - 1;
    while i >= 0
      invariant -1 <= i < |lens|
      invariant forall j :: i < j < |lens| ==> lens[j] == 0
    {
      if lens[i] != 0 {
        return i + 1;
      }
      i := i - 1;
    }
    return 1;
  }

  // ---------------------------------------------------------------- preambles

  const COVERED := PREAMBLE_LEN - CRC_LEN

  /** The alignment of segment i, as two bytes: a pointer's for the first three, a page for data. */
  function Align(i: nat): (s: seq<bv8>)
    ensures |s| == 2
  {
    if i < 3 then [8, 0] else [0, 16]
  }

  function SegmentEntries(lens: Lengths, cnt: nat): (s: seq<bv8>)
    requires cnt <= MAX_SEGMENTS && WithinBounds(lens)
    ensures |s| == 6 * cnt
  {
    if cnt == 0 then [] else SegmentEntries(lens, cnt - 1) + LeLen(lens[cnt - 1]) + Align(cnt - 1)
  }

  /** What the preamble checksum covers. */
  function PreambleBody(d: Desc): (s: seq<bv8>)
    requires WithinBounds(d.lens)
    ensures |s| == COVERED
  {
    var cnt := SegmentCount(d.lens);
    [d.tag, ByteOf(cnt)] + SegmentEntries(d.lens, cnt) + Zeros(COVERED - 2 - 6 * cnt)
  }

  /** init_frame_desc and encode_preamble */
  function EncodePreamble(d: Desc): (s: seq<bv8>)
    requires WithinBounds(d.lens)
    ensures |s| == PREAMBLE_LEN
  {
    PreambleBody(d) + Le32(Crc(0, PreambleBody(d)))
  }

  /** The length decoded for segment i of a preamble with cnt segments; unused ones are zero. */
  function DecodedLength(p: seq<bv8>, cnt: nat, i: nat): nat
    requires |p| == PREAMBLE_LEN && i < MAX_SEGMENTS
  {
    if i < cnt then FromLe(p[2 + 6 * i..6 + 6 * i]) else 0
  }

  /** decode_preamble */
  function DecodePreamble(p: seq<bv8>): (r: Result<Desc>)
    requires |p| == PREAMBLE_LEN
    ensures r.Ok? ==> WithinBounds(r.value.lens)
  {
    if Crc(0, p[..COVERED]) != FromLe32(p[COVERED..]) then Err(BadMessage) else
    var cnt := p[1] as nat;
    if cnt < 1 || cnt > MAX_SEGMENTS then Err(Invalid) else
    var lens: Lengths := [DecodedLength(p, cnt, 0), DecodedLength(p, cnt, 1), DecodedLength(p, cnt, 2), DecodedLength(p, cnt, 3)];
    if !WithinBounds(lens) then Err(Invalid) else
    if lens[cnt - 1] == 0 then Err(Invalid) else
    Ok(Desc(p[0], lens))
  }

  lemma EntryAt(lens: Lengths, cnt: nat, i: nat)
    requires i < cnt <= MAX_SEGMENTS && WithinBounds(lens)
    ensures SegmentEntries(lens, cnt)[6 * i..6 * i + 4] == LeLen(lens[i])
  {
    hide LeLen;
    if i < cnt - 1 {
      EntryAt(lens, cnt - 1, i);
      var shorter := SegmentEntries(lens, cnt - 1);
      assert SegmentEntries(lens, cnt)[..|shorter|] == shorter;
      assert SegmentEntries(lens, cnt)[6 * i..6 * i + 4] == shorter[6 * i..6 * i + 4];
    }
  }

  lemma DecodedLengthIs(d: Desc, i: nat)
    requires WithinBounds(d.lens) && i < MAX_SEGMENTS
    ensures DecodedLength(EncodePreamble(d), SegmentCount(d.lens), i) == d.lens[i]
  {
    hide Crc, Le32, LeLen, FromLe;
    var cnt := SegmentCount(d.lens);
    if i < cnt {
      var p := EncodePreamble(d);
      EntryAt(d.lens, cnt, i);
      LengthRoundTrip(d.lens[i]);
      var entries := SegmentEntries(d.lens, cnt);
      assert p[2..2 + |entries|] == entries;
      assert p[2 + 6 * i..6 + 6 * i] == entries[6 * i..6 * i + 4];
    }
  }

  /** A preamble decodes to the descriptor it was made from, exactly when some segment is not empty. */
  lemma PreambleRoundTrip(d: Desc)
    requires WithinBounds(d.lens)
    ensures DecodePreamble(EncodePreamble(d)) == if d.lens == [0, 0, 0, 0] then Err(Invalid) else Ok(d)
  {
    hide Crc, Le32, LeLen, FromLe, FromLe32, SegmentEntries, DecodedLength;
    var p, cnt := EncodePreamble(d), SegmentCount(d.lens);
    assert p[..COVERED] == PreambleBody(d) && p[COVERED..] == Le32(Crc(0, PreambleBody(d)));
    ChecksumRoundTrip(Crc(0, PreambleBody(d)));
    ByteOfNat(cnt);
    assert p[0] == d.tag && p[1] == ByteOf(cnt);
    DecodedLengthIs(d, 0);
    DecodedLengthIs(d, 1);
    DecodedLengthIs(d, 2);
    DecodedLengthIs(d, 3);
    var lens := [DecodedLength(p, cnt, 0), DecodedLength(p, cnt, 1), DecodedLength(p, cnt, 2), DecodedLength(p, cnt, 3)];
    assert lens == d.lens;
    assert d.lens == [0, 0, 0, 0] <==> d.lens[cnt - 1] == 0;
  }

  // --------------------------------------------------------------------- AEAD

  /** An AEAD under the session key: seal adds a tag, open undoes seal or refuses. */
  datatype Aead = Aead(seal: (nat, seq<bv8>) -> seq<bv8>, open: (nat, seq<bv8>) -> Option<seq<bv8>>) {
    ghost predicate Lawful() {
      forall n: nat, p: seq<bv8> {:trigger seal(n, p)} ::
        |seal(n, p)| == |p| + GCM_TAG_LEN && open(n, seal(n, p)) == Some(p)
    }
  }

  /** gcm_inc_nonce: the counter part of a nonce has 64 bits. */
  function Bump(nonce: nat): nat
  {
    (nonce + 1) % 0x1_0000_0000_0000_0000
  }

  /** padded_len */
  function PaddedLen(n: nat): (r: nat)
    ensures r % GCM_BLOCK_LEN == 0 && n <= r < n + GCM_BLOCK_LEN
  {
    (n + GCM_BLOCK_LEN - 1) / GCM_BLOCK_LEN * GCM_BLOCK_LEN
  }

  function Padded(s: seq<bv8>): (r: seq<bv8>)
    ensures |r| == PaddedLen(|s|) && r[..|s|] == s
  {
    s + Zeros(PaddedLen(|s|) - |s|)
  }

  // ------------------------------------------------------------------- frames

  datatype Frame =
    | Control(tag: bv8, body: seq<bv8>)
    | Message(header: seq<bv8>, front: seq<bv8>, middle: seq<bv8>, data: seq<bv8>)
  {
    ghost predicate Valid() {
      match this
      case Control(tag, body) => KnownTag(tag) && 0 < |body| <= MAX_CONTROL
      case Message(header, front, middle, data) =>
        |header| == HEADER2_LEN && |front| <= MAX_FRONT && |middle| <= MAX_MIDDLE && |data| <= MAX_DATA
    }

    function Ctrl(): seq<bv8> {
      if Control? then body else header
    }

    function Describe(): (d: Desc)
      ensures d.lens[0] == |Ctrl()|
    {
      match this
      case Control(tag, body) => Desc(tag, [|body|, 0, 0, 0])
      case Message(header, front, middle, data) => Desc(TAG_MESSAGE, [|header|, |front|, |middle|, |data|])
    }

    predicate HasTail() {
      Message? && !(front == [] && middle == [] && data == [])
    }
  }

  /** The control frames a client accepts. */
  predicate KnownTag(tag: bv8)
  {
    tag in [1, 3, 4, 6, 7, 9, 10, 12, 13, 14, 15, 19, 20]
  }

  // -------------------------------------------------------------- plain frames

  /** prepare_head_plain */
  function PlainHead(f: Frame): (s: seq<bv8>)
    requires WithinBounds(f.Describe().lens)
    ensures |s| == PREAMBLE_LEN + |f.Ctrl()| + CRC_LEN
  {
    EncodePreamble(f.Describe()) + f.Ctrl() + Le32(Crc(SEED, f.Ctrl()))
  }

  /** The checksum of a segment that may be empty: all ones if used, zero if it is trailing. */
  function SegmentCrc(s: seq<bv8>, used: bool): bv32
  {
    if s == [] && !used then 0 else Crc(SEED, s)
  }

  function PlainEpilogue(front: seq<bv8>, middle: seq<bv8>, data: seq<bv8>): (s: seq<bv8>)
    ensures |s| == EPILOGUE_PLAIN_LEN
  {
    [0xe] + Le32(Crc(SEED, front)) + Le32(SegmentCrc(middle, data != [])) + Le32(SegmentCrc(data, false))
  }

  function PlainTail(f: Frame): seq<bv8>
  {
    if f.HasTail() then f.front + f.middle + f.data + PlainEpilogue(f.front, f.middle, f.data) else []
  }

  // ------------------------------------------------------------- secure frames

  /** The encrypted first part of a head: the preamble and up to 48 bytes of control. */
  function Inline(f: Frame): (s: seq<bv8>)
    requires WithinBounds(f.Describe().lens)
    ensures |s| == PREAMBLE_LEN + PREAMBLE_INLINE_LEN
  {
    EncodePreamble(f.Describe())
    + if |f.Ctrl()| <= PREAMBLE_INLINE_LEN then f.Ctrl() + Zeros(PREAMBLE_INLINE_LEN - |f.Ctrl()|)
      else f.Ctrl()[..PREAMBLE_INLINE_LEN]
  }

  predicate Big(f: Frame)
  {
    |f.Ctrl()| > PREAMBLE_INLINE_LEN
  }

  /** prepare_head_secure_small and the first half of prepare_head_secure_big */
  function SecureFirst(a: Aead, nonce: nat, f: Frame): seq<bv8>
    requires WithinBounds(f.Describe().lens)
  {
    a.seal(nonce, Inline(f))
  }

  /** The second half of prepare_head_secure_big */
  function SecureRemainder(a: Aead, nonce: nat, f: Frame): seq<bv8>
  {
    if Big(f) then a.seal(nonce, Padded(f.Ctrl()[PREAMBLE_INLINE_LEN..])) else []
  }

  /** encode_epilogue_secure */
  function SecureEpilogue(): (s: seq<bv8>)
    ensures |s| == GCM_BLOCK_LEN
  {
    [0xe] + Zeros(GCM_BLOCK_LEN - 1)
  }

  function TailText(f: Frame): seq<bv8>
    requires f.Message?
  {
    Padded(f.front) + Padded(f.middle) + Padded(f.data) + SecureEpilogue()
  }

  /** prepare_message_secure */
  function SecureTail(a: Aead, nonce: nat, f: Frame): seq<bv8>
  {
    if f.HasTail() then a.seal(nonce, TailText(f)) else []
  }

  // -------------------------------------------------------------- whole frames

  /** The nonce after the head of a frame. */
  function AfterHead(secure: bool, nonce: nat, f: Frame): nat
  {
    if !secure then nonce else if Big(f) then Bump(Bump(nonce)) else Bump(nonce)
  }

  /** The nonce after a whole frame. */
  function AfterFrame(secure: bool, nonce: nat, f: Frame): nat
  {
    if secure && f.HasTail() then Bump(AfterHead(secure, nonce, f)) else AfterHead(secure, nonce, f)
  }

  function Head(secure: bool, a: Aead, nonce: nat, f: Frame): seq<bv8>
    requires WithinBounds(f.Describe().lens)
  {
    if secure then SecureFirst(a, nonce, f) + SecureRemainder(a, Bump(nonce), f) else PlainHead(f)
  }

  function Tail(secure: bool, a: Aead, nonce: nat, f: Frame): seq<bv8>
  {
    if secure then SecureTail(a, AfterHead(true, nonce, f), f) else PlainTail(f)
  }

  function EncodeFrame(secure: bool, a: Aead, nonce: nat, f: Frame): seq<bv8>
    requires WithinBounds(f.Describe().lens)
  {
    Head(secure, a, nonce, f) + Tail(secure, a, nonce, f)
  }

  /** head_onwire_len */
  function HeadLen(ctrl: nat, secure: bool): nat
  {
    if secure then
      PREAMBLE_SECURE_LEN + if ctrl > PREAMBLE_INLINE_LEN then PaddedLen(ctrl - PREAMBLE_INLINE_LEN) + GCM_TAG_LEN else 0
    else
      PREAMBLE_LEN + if ctrl > 0 then ctrl + CRC_LEN else 0
  }

  /** __tail_onwire_len */
  function TailLen(front: nat, middle: nat, data: nat, secure: bool): nat
  {
    if front == 0 && middle == 0 && data == 0 then 0
    else if !secure then front + middle + data + EPILOGUE_PLAIN_LEN
    else PaddedLen(front) + PaddedLen(middle) + PaddedLen(data) + EPILOGUE_SECURE_LEN
  }

  lemma ValidWithinBounds(f: Frame)
    requires f.Valid()
    ensures WithinBounds(f.Describe().lens) && f.Describe().lens != [0, 0, 0, 0]
  {
    assert f.Describe().lens[0] == |f.Ctrl()| != 0;
  }

  lemma TailLength(secure: bool, a: Aead, nonce: nat, f: Frame)
    requires a.Lawful()
    ensures f.Message? ==> |Tail(secure, a, nonce, f)| == TailLen(|f.front|, |f.middle|, |f.data|, secure)
    ensures f.Control? ==> Tail(secure, a, nonce, f) == []
  {
    hide Crc, Le32;
    if f.HasTail() && secure {
      assert |TailText(f)| == PaddedLen(|f.front|) + PaddedLen(|f.middle|) + PaddedLen(|f.data|) + GCM_BLOCK_LEN;
    }
  }

  /** Frames have the lengths that the length functions promise. */
  lemma FrameLength(secure: bool, a: Aead, nonce: nat, f: Frame)
    requires a.Lawful() && f.Valid()
    ensures WithinBounds(f.Describe().lens)
    ensures |Head(secure, a, nonce, f)| == HeadLen(|f.Ctrl()|, secure)
    ensures f.Message? ==>
              |EncodeFrame(secure, a, nonce, f)| == HeadLen(HEADER2_LEN, secure) + TailLen(|f.front|, |f.middle|, |f.data|, secure)
    ensures f.Control? ==> |EncodeFrame(secure, a, nonce, f)| == HeadLen(|f.body|, secure)
  {
    hide Crc, Le32;
    ValidWithinBounds(f);
    TailLength(secure, a, nonce, f);
  }
}
