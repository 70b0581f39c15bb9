/** Constants, checksums and integer encodings of the msgr2 wire format. */
module Wire {

  const CRC_LEN := 4
  const GCM_BLOCK_LEN := 16
  const GCM_TAG_LEN := 16
  const PREAMBLE_LEN := 32
  const PREAMBLE_INLINE_LEN := 48
  const PREAMBLE_SECURE_LEN := 96
  const EPILOGUE_PLAIN_LEN := 13
  const EPILOGUE_SECURE_LEN := 32
  const HEADER2_LEN := 41
  const PAGE_SIZE := 4096

  const SEED: bv32 := 0xffff_ffff

  // ------------------------------------------------------------- checksums

  /** One bit of a reflected CRC-32C division. */
  function CrcBit(c: bv32): bv32
  {
    if c & 1 == 1 then (c >> 1) ^ 0x82f6_3b78 else c >> 1
  }

  function CrcByte(c: bv32, b: bv8): bv32
  {
    CrcBit(CrcBit(CrcBit(CrcBit(CrcBit(CrcBit(CrcBit(CrcBit(c ^ (b as bv32)))))))))
  }

  /** crc32c(c, s): the checksum c carried on over the bytes of s. */
  function Crc(c: bv32, s: seq<bv8>): bv32
  {
    if s == [] then c else CrcByte(Crc(c, s[..|s| - 1]), s[|s| - 1])
  }

  /** A checksum may be taken in pieces. */
  lemma {:induction false} CrcAppend(c: bv32, s: seq<bv8>, t: seq<bv8>)
    ensures Crc(Crc(c, s), t) == Crc(c, s + t)
  {
    if t == [] {
      assert s + t == s;
    } else {
      CrcAppend(c, s, t[..|t| - 1]);
      assert (s + t)[..|s + t| - 1] == s + t[..|t| - 1];
      hide CrcByte;
    }
  }

  function Zeros(n: nat): (s: seq<bv8>)
    ensures |s| == n && forall i :: 0 <= i < n ==> s[i] == 0
  {
    seq(n, _ => 0)
  }

  lemma ZerosAppend(a: nat, b: nat)
    ensures Zeros(a) + Zeros(b) == Zeros(a + b)
  {
  }

  /** crc32c_zeros: a page of zeros at a time. */
  method CrcZeros(crc: bv32, len: nat) returns (r: bv32)
    ensures r == Crc(crc, Zeros(len))
  {
    hide CrcByte;
    r := crc;
    var left: nat := len;
    assert Zeros(0) == [];
    while left > 0
      invariant left <= len && r == Crc(crc, Zeros(len - left))
    {
      var n := if left <= PAGE_SIZE then left else PAGE_SIZE;
      CrcAppend(crc, Zeros(len - left), Zeros(n));
      ZerosAppend(len - left, n);
      r := Crc(r, Zeros(n));
      left := left - n;
    }
  }

  // -------------------------------------------------------------- integers

  function Byte0(x: bv32): bv8 { (x & 0xff) as bv8 }
  function Byte1(x: bv32): bv8 { ((x >> 8) & 0xff) as bv8 }
  function Byte2(x: bv32): bv8 { ((x >> 16) & 0xff) as bv8 }
  function Byte3(x: bv32): bv8 { (x >> 24) as bv8 }

  /** A 32-bit number, least significant byte first. */
  function Le32(x: bv32): (s: seq<bv8>)
    ensures |s| == 4
  {
    [Byte0(x), Byte1(x), Byte2(x), Byte3(x)]
  }

  /** A 32-bit number, most significant byte first. */
  function Be32(x: bv32): (s: seq<bv8>)
    ensures |s| == 4
  {
    [Byte3(x), Byte2(x), Byte1(x), Byte0(x)]
  }

  function Swap(x: bv32): bv32
  {
    (x << 24) | ((x & 0xff00) << 8) | ((x >> 8) & 0xff00) | (x >> 24)
  }

  lemma SwapTwice(x: bv32)
    ensures Swap(Swap(x)) == x
  {
  }

  lemma SwapOuter(x: bv32)
    ensures Byte3(Swap(x)) == Byte0(x) && Byte0(Swap(x)) == Byte3(x)
  {
  }

  lemma SwapInner(x: bv32)
    ensures Byte2(Swap(x)) == Byte1(x) && Byte1(Swap(x)) == Byte2(x)
  {
  }

  lemma SwapBytes(x: bv32)
    ensures Be32(Swap(x)) == Le32(x)
  {
    hide Swap, Byte0, Byte1, Byte2, Byte3;
    SwapOuter(x);
    SwapInner(x);
  }
}
