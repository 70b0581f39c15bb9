/**
 The n-fold operation of section 5.1 of RFC 3961, as computed in place by
 rfc3961_nfold, and its specification as a one's-complement sum of the n-byte
 blocks of the input repeated with a 13-bit right rotation per repetition.
 */
module NFold {
  import opened Arithmetic

  type byte = x: int | 0 <= x < 256

  // ---------------------------------------------------------------- numbers

  function Pow256(e: nat): (r: nat)
    ensures r >= 1
  {
    if e == 0 then 1 else 256 * Pow256(e - 1)
  }

  /** The number a byte string denotes, most significant byte first. */
  function BigEndian(s: seq<byte>): nat
  {
    if |s| == 0 then 0 else 256 * BigEndian(s[..|s| - 1]) + s[|s| - 1]
  }

  lemma {:induction false} BigEndianBound(s: seq<byte>)
    ensures BigEndian(s) < Pow256(|s|)
  {
    if |s| > 0 {
      BigEndianBound(s[..|s| - 1]);
    }
  }

  /** A number below 256^n has only one n-byte representation. */
  lemma {:induction false} BigEndianInjective(s: seq<byte>, t: seq<byte>)
    requires |s| == |t| && BigEndian(s) == BigEndian(t)
    ensures s == t
  {
    if |s| > 0 {
      var e := |s| - 1;
      BigEndianInjective(s[..e], t[..e]);
      assert s == s[..e] + [s[e]] && t == t[..e] + [t[e]];
    }
  }

  lemma {:induction false} BigEndianZeros(s: seq<byte>)
    requires forall i :: 0 <= i < |s| ==> s[i] == 0
    ensures BigEndian(s) == 0
  {
    if |s| > 0 {
      BigEndianZeros(s[..|s| - 1]);
    }
  }

  /** Dropping the digit in front of position t. */
  lemma {:induction false} BigEndianSuffix(s: seq<byte>, t: nat)
    requires t < |s|
    ensures BigEndian(s[t..]) == s[t] * Pow256(|s| - t - 1) + BigEndian(s[t + 1..])
  {
    if t + 1 < |s| {
      var e := |s| - 1;
      BigEndianSuffix(s[..e], t);
      assert s[t..][..|s[t..]| - 1] == s[..e][t..];
      assert s[t + 1..][..|s[t + 1..]| - 1] == s[..e][t + 1..];
      MulAssoc(256, s[t], Pow256(|s| - t - 2));
    }
  }

  // -------------------------------------------------- least common multiple

  function Gcd(a: nat, b: nat): (g: nat)
    ensures a + b > 0 ==> g > 0
    decreases b
  {
    if b == 0 then a else Gcd(b, a % b)
  }

  lemma {:induction false} GcdDivides(a: nat, b: nat) returns (x: nat, y: nat)
    ensures a == Gcd(a, b) * x && b == Gcd(a, b) * y
    decreases b
  {
    if b == 0 {
      x, y := 1, 0;
    } else {
      var y', r' := GcdDivides(b, a % b);
      var g, q := Gcd(b, a % b), a / b;
      DivBounds(a, b);
      MulAssoc(g, y', q);
      MulDistrib(g, y' * q, r');
      x, y := y' * q + r', y';
    }
  }

  lemma {:induction false} Bezout(a: nat, b: nat) returns (s: int, t: int)
    ensures Gcd(a, b) == s * a + t * b
    decreases b
  {
    if b == 0 {
      s, t := 1, 0;
    } else {
      var s', t' := Bezout(b, a % b);
      var q := a / b;
      s, t := t', s' - t' * q;
      MulDistrib(t', a, b * q);
      MulAssoc(t', q, b);
      MulDistrib(b, s', t' * q);
    }
  }

  /** lcm() of the kernel: zero when either argument is zero. */
  function Lcm(a: nat, b: nat): nat
  {
    if a > 0 && b > 0 then (a / Gcd(a, b)) * b else 0
  }

  lemma LcmFactors(a: nat, b: nat) returns (x: nat, y: nat)
    requires a > 0 && b > 0
    ensures x > 0 && y > 0
    ensures a == Gcd(a, b) * x && b == Gcd(a, b) * y
    ensures Lcm(a, b) == x * b == a * y
  {
    var g := Gcd(a, b);
    x, y := GcdDivides(a, b);
    DivModUnique(a, g, x, 0);
    MulAssoc(x, g, y);
  }

  /** Lcm is a positive common multiple, and every common multiple is a multiple of it. */
  lemma LcmIsLeastCommonMultiple(a: nat, b: nat, p: int, q: int)
    requires a > 0 && b > 0
    ensures Lcm(a, b) > 0 && Lcm(a, b) % a == 0 && Lcm(a, b) % b == 0
    ensures a * p == b * q ==> (a * p) % Lcm(a, b) == 0
  {
    var g := Gcd(a, b);
    var x, y := LcmFactors(a, b);
    var lcm := Lcm(a, b);
    MulPositive(a, y);
    DivModUnique(lcm, a, y, 0);
    DivModUnique(lcm, b, x, 0);
    if a * p == b * q {
      // x * q == lcm * (s*q + t*p) / b, so every common multiple is lcm times an integer
      var s, t := Bezout(a, b);
      CommonMultiple(g, x, y, s, t, p, q);
      MulAssoc(a, y, s * q + t * p);
      DivModUnique(a * p, lcm, s * q + t * p, 0);
    }
  }

  lemma CommonMultiple(g: int, x: int, y: int, s: int, t: int, p: int, q: int)
    requires g > 0 && g == s * (g * x) + t * (g * y) && (g * x) * p == (g * y) * q
    ensures (g * x) * p == (g * x) * (y * (s * q + t * p))
  {
    // divide both hypotheses by g
    assert g * (s * x + t * y - 1) == 0 by {
      MulAssoc(s, g, x);
      MulAssoc(t, g, y);
      MulDistrib(g, s * x, t * y);
      MulDistrib(g, s * x + t * y, 1);
    }
    SmallMultiple(g, s * x + t * y - 1);
    assert g * (x * p - y * q) == 0 by {
      MulAssoc(g, x, p);
      MulAssoc(g, y, q);
      MulDistrib(g, x * p, y * q);
    }
    SmallMultiple(g, x * p - y * q);
    Unimodular(x, y, s, t, p, q);
  }

  lemma Unimodular(x: int, y: int, s: int, t: int, p: int, q: int)
    requires s * x + t * y == 1 && x * p == y * q
    ensures p == y * (s * q + t * p)
  {
    calc {
      p;
      (s * x + t * y) * p;
      { MulDistrib(p, s * x, t * y); }
      s * x * p + t * y * p;
      { MulAssoc(s, x, p); MulAssoc(s, y, q); }
      y * (s * q) + t * y * p;
      { MulAssoc(t, y, p); }
      y * (s * q) + y * (t * p);
      { MulDistrib(y, s * q, t * p); }
      y * (s * q + t * p);
    }
  }

  // ---------------------------------------------------- the specification

  /** A right shift of a number by e bits. */
  function Shr(x: nat, e: nat): nat
  {
    if e == 0 then x else Shr(x, e - 1) / 2
  }

  /** Bit e of a number, e counted from its least significant bit. */
  function BitOf(x: nat, e: nat): int
  {
    Shr(x, e) % 2
  }

  /** Bit p of a byte string, p counted from the most significant bit of s[0]. */
  function Bit(s: seq<byte>, p: nat): int
    requires p < 8 * |s|
  {
    BitOf(s[p / 8], 7 - p % 8)
  }

  /** Bit p of s after s has been rotated right by r bits. */
  function RotatedBit(s: seq<byte>, r: nat, p: nat): (b: int)
    requires p < 8 * |s|
    ensures 0 <= b <= 1
  {
    Bit(s, (p - r) % (8 * |s|))
  }

  /** The byte with bits b0, most significant, to b7. */
  function Assemble(b0: int, b1: int, b2: int, b3: int, b4: int, b5: int, b6: int, b7: int): int
  {
    128 * b0 + 64 * b1 + 32 * b2 + 16 * b3 + 8 * b4 + 4 * b5 + 2 * b6 + b7
  }

  /** Byte j of s rotated right by r bits. */
  function RotatedByte(s: seq<byte>, r: nat, j: nat): byte
    requires j < |s|
  {
    Assemble(RotatedBit(s, r, 8 * j), RotatedBit(s, r, 8 * j + 1),
             RotatedBit(s, r, 8 * j + 2), RotatedBit(s, r, 8 * j + 3),
             RotatedBit(s, r, 8 * j + 4), RotatedBit(s, r, 8 * j + 5),
             RotatedBit(s, r, 8 * j + 6), RotatedBit(s, r, 8 * j + 7))
  }

  /** Byte i of the input repeated for ever, repetition c rotated right by 13c bits. */
  function StreamByte(s: seq<byte>, i: nat): byte
    requires |s| > 0
  {
    RotatedByte(s, 13 * (i / |s|), i % |s|)
  }

  function Stream(s: seq<byte>, len: nat): (st: seq<byte>)
    requires |s| > 0
    ensures |st| == len
    ensures forall i :: 0 <= i < len ==> st[i] == StreamByte(s, i)
  {
    seq<byte>(len, i requires 0 <= i < len => StreamByte(s, i))
  }

  /** The consecutive n-byte blocks of a byte string, as numbers. */
  function Blocks(st: seq<byte>, n: nat): seq<nat>
    requires n > 0
  {
    if |st| < n then [] else [BigEndian(st[..n])] + Blocks(st[n..], n)
  }

  /** One's-complement addition of two n-byte numbers: the carry comes back in. */
  function OnesAdd(a: nat, b: nat, n: nat): nat
  {
    if a + b >= Pow256(n) then a + b - Pow256(n) + 1 else a + b
  }

  function OnesSum(xs: seq<nat>, n: nat): nat
  {
    if |xs| == 0 then 0 else OnesAdd(xs[0], OnesSum(xs[1..], n), n)
  }

  /** Section 5.1 of RFC 3961: n-fold of s, as a number of n bytes. */
  function NFoldValue(s: seq<byte>, n: nat): nat
  {
    if |s| == 0 || n == 0 then 0
    else OnesSum(Blocks(Stream(s, Lcm(|s|, n)), n), n)
  }

  function Sum(xs: seq<nat>): nat
  {
    if |xs| == 0 then 0 else xs[0] + Sum(xs[1..])
  }

  ghost predicate AllBelow(xs: seq<nat>, m: nat)
  {
    forall i :: 0 <= i < |xs| ==> xs[i] < m
  }

  lemma {:induction false} OnesSumBound(xs: seq<nat>, n: nat)
    requires AllBelow(xs, Pow256(n))
    ensures OnesSum(xs, n) < Pow256(n)
  {
    if |xs| > 0 {
      OnesSumBound(xs[1..], n);
    }
  }

  /**
   The one's-complement sum is the ordinary sum modulo 256^n - 1, with the
   all-ones word standing for every non-zero multiple: the closed form of n-fold.
   */
  lemma {:induction false} OnesSumClosedForm(xs: seq<nat>, n: nat)
    requires n > 0 && AllBelow(xs, Pow256(n))
    ensures OnesSum(xs, n) == if Sum(xs) == 0 then 0 else (Sum(xs) - 1) % (Pow256(n) - 1) + 1
  {
    var m := Pow256(n) - 1;
    assert m >= 255;
    if |xs| > 0 {
      var rest := xs[1..];
      OnesSumClosedForm(rest, n);
      OnesSumBound(rest, n);
      var a, b, s := xs[0], OnesSum(rest, n), Sum(rest);
      if s == 0 {
        if a > 0 { DivModUnique(a - 1, m, 0, a - 1); }
      } else {
        var q := (s - 1) / m;
        DivBounds(s - 1, m);
        if a + b >= Pow256(n) {
          MulDistrib(m, q, 1);
          DivModUnique(a + s - 1, m, q + 1, a + b - 1 - m);
        } else {
          DivModUnique(a + s - 1, m, q, a + b - 1);
        }
      }
    }
  }

  lemma {:induction false} BlocksBelow(st: seq<byte>, n: nat)
    requires n > 0
    ensures AllBelow(Blocks(st, n), Pow256(n))
  {
    if |st| >= n {
      BlocksBelow(st[n..], n);
      BigEndianBound(st[..n]);
    }
  }

  /** n-fold is the sum of the blocks modulo 256^n - 1, never zero unless all blocks are. */
  lemma NFoldClosedForm(s: seq<byte>, n: nat)
    requires |s| > 0 && n > 0
    ensures
      var total := Sum(Blocks(Stream(s, Lcm(|s|, n)), n));
      NFoldValue(s, n) == if total == 0 then 0 else (total - 1) % (Pow256(n) - 1) + 1
  {
    hide Stream, Blocks, OnesSum, Sum;
    var st := Stream(s, Lcm(|s|, n));
    BlocksBelow(st, n);
    OnesSumClosedForm(Blocks(st, n), n);
  }

  // ------------------------------------------------------- the byte picked

  /** The index of the most significant bit, counted from the right, of stream byte i. */
  function MsBit(k: nat, i: nat): (m: nat)
    requires k > 0
    ensures m < 8 * k
  {
    ((8 * k - 1) + (8 * k + 13) * (i / k) + 8 * (k - i % k)) % (8 * k)
  }

  /** The byte that holds bit m, counted from the right, and the one after it. */
  function HighByte(s: seq<byte>, m: nat): byte
    requires m < 8 * |s|
  {
    s[(|s| - 1 - m / 8) % |s|]
  }

  function LowByte(s: seq<byte>, m: nat): byte
    requires m < 8 * |s|
  {
    s[(|s| - m / 8) % |s|]
  }

  /** Two adjacent input bytes, shifted so that bit m leads and masked to eight bits. */
  function PulledByte(s: seq<byte>, m: nat): byte
    requires m < 8 * |s|
  {
    var hi: int, lo: int := HighByte(s, m), LowByte(s, m);
    Shr(256 * hi + lo, m % 8 + 1) % 256
  }

  lemma {:induction false} ShrShr(x: nat, a: nat, b: nat)
    ensures Shr(Shr(x, a), b) == Shr(x, a + b)
  {
    if b > 0 { ShrShr(x, a, b - 1); }
  }

  /** The low byte of a number, assembled from its bits. */
  lemma LowEightBits(x: nat)
    ensures x % 256 == Assemble(BitOf(x, 7), BitOf(x, 6), BitOf(x, 5), BitOf(x, 4),
                                BitOf(x, 3), BitOf(x, 2), BitOf(x, 1), BitOf(x, 0))
  {
    Halve(x, 0); Halve(x, 1); Halve(x, 2); Halve(x, 3);
    Halve(x, 4); Halve(x, 5); Halve(x, 6); Halve(x, 7);
    DivModUnique(x, 256, Shr(x, 8), x - 256 * Shr(x, 8));
  }

  lemma Halve(x: nat, e: nat)
    ensures Shr(x, e) == 2 * Shr(x, e + 1) + BitOf(x, e)
  {
  }

  function Pow2(e: nat): nat
  {
    if e == 0 then 1 else 2 * Pow2(e - 1)
  }

  /** The bits of 2^e * hi + lo, for lo below 2^e. */
  lemma {:induction false} Concatenated(hi: nat, lo: nat, e: nat, i: nat)
    requires lo < Pow2(e)
    ensures BitOf(Pow2(e) * hi + lo, i) == if i < e then BitOf(lo, i) else BitOf(hi, i - e)
    decreases e
  {
    if e > 0 {
      var x := Pow2(e) * hi + lo;
      var t := Pow2(e - 1) * hi;
      MulAssoc(2, Pow2(e - 1), hi);
      assert x == 2 * t + lo && x / 2 == t + lo / 2;
      if i > 0 {
        Concatenated(hi, lo / 2, e - 1, i - 1);
        ShrShr(x, 1, i - 1);
        ShrShr(lo, 1, i - 1);
      }
    }
  }

  /** Bit i of a two-byte word is a bit of its low byte or, from 8 on, of its high byte. */
  lemma WordBit(hi: byte, lo: byte, i: nat)
    ensures BitOf(256 * hi + lo, i) == if i < 8 then BitOf(lo, i) else BitOf(hi, i - 8)
  {
    assert Pow2(4) == 16;
    Concatenated(hi, lo, 8, i);
  }

  /** Bit u of the window that starts at bit e of hi and runs into lo. */
  function WindowBit(hi: byte, lo: byte, e: nat, u: nat): int
    requires e < 8 && u < 8
  {
    if u <= e then BitOf(hi, e - u) else BitOf(lo, 8 + e - u)
  }

  lemma Window(hi: byte, lo: byte, e: nat)
    requires e < 8
    ensures Shr(256 * hi + lo, e + 1) % 256
         == Assemble(WindowBit(hi, lo, e, 0), WindowBit(hi, lo, e, 1), WindowBit(hi, lo, e, 2),
                     WindowBit(hi, lo, e, 3), WindowBit(hi, lo, e, 4), WindowBit(hi, lo, e, 5),
                     WindowBit(hi, lo, e, 6), WindowBit(hi, lo, e, 7))
  {
    var w := 256 * hi + lo;
    LowEightBits(Shr(w, e + 1));
    forall u | 0 <= u < 8
      ensures BitOf(Shr(w, e + 1), 7 - u) == WindowBit(hi, lo, e, u)
    {
      ShrShr(w, e + 1, 7 - u);
      WordBit(hi, lo, e + 8 - u);
    }
  }

  /** Counted from the right, the window starts where the rotated byte starts. */
  lemma WindowStart(k: nat, i: nat, u: int)
    requires k > 0
    ensures (8 * (i % k) + u - 13 * (i / k)) % (8 * k) == (8 * k - 1 - MsBit(k, i) + u) % (8 * k)
  {
    var w, c, j, m := 8 * k, i / k, i % k, MsBit(k, i);
    var y := 13 * c - 8 * j - 1;
    MulDistrib(c, w, 13);
    MulDistrib(w, 2, c);
    DivModShift(y, w, 2 + c);
    assert (w - 1) + (w + 13) * c + 8 * (k - j) == y + w * (2 + c);
    DivBounds(y, w);
    MulDistrib(w, -1, y / w);
    DivModShift(w - 1 - m + u, w, -1 - y / w);
  }

  /** Bit p of the string, u bits right of the bit that is m-th from the right. */
  lemma WindowIndex(k: nat, m: nat, u: nat)
    requires k > 0 && m < 8 * k && u < 8
    ensures
      var p := (8 * k - 1 - m + u) % (8 * k);
      if u <= m % 8 then p / 8 == (k - 1 - m / 8) % k && 7 - p % 8 == m % 8 - u
      else p / 8 == (k - m / 8) % k && 7 - p % 8 == 8 + m % 8 - u
  {
    var q, e := m / 8, m % 8;
    var p := 8 * k - 1 - m + u;
    if u <= e {
      DivModUnique(k - 1 - q, k, 0, k - 1 - q);
      DivModUnique(p, 8 * k, 0, p);
    } else if q == 0 {
      DivModUnique(k, k, 1, 0);
      DivModUnique(p, 8 * k, 1, p - 8 * k);
    } else {
      DivModUnique(k - q, k, 0, k - q);
      DivModUnique(p, 8 * k, 0, p);
    }
  }

  /** The bit the specification wants at offset u is the bit the window holds there. */
  lemma WindowHoldsRotatedBit(s: seq<byte>, i: nat, u: nat)
    requires |s| > 0 && u < 8
    ensures
      var m := MsBit(|s|, i);
      RotatedBit(s, 13 * (i / |s|), 8 * (i % |s|) + u)
      == WindowBit(HighByte(s, m), LowByte(s, m), m % 8, u)
  {
    WindowStart(|s|, i, u);
    WindowBitIsBit(s, MsBit(|s|, i), u);
  }

  lemma WindowBitIsBit(s: seq<byte>, m: nat, u: nat)
    requires m < 8 * |s| && u < 8
    ensures Bit(s, (8 * |s| - 1 - m + u) % (8 * |s|)) == WindowBit(HighByte(s, m), LowByte(s, m), m % 8, u)
  {
    WindowIndex(|s|, m, u);
  }

  /** The byte the loop pulls out of the input is byte i of the rotated stream. */
  lemma PulledByteIsStreamByte(s: seq<byte>, i: nat)
    requires |s| > 0
    ensures PulledByte(s, MsBit(|s|, i)) == StreamByte(s, i)
  {
    hide MsBit, RotatedBit, WindowBit, HighByte, LowByte, Shr;
    var m := MsBit(|s|, i);
    Window(HighByte(s, m), LowByte(s, m), m % 8);
    WindowHoldsRotatedBit(s, i, 0); WindowHoldsRotatedBit(s, i, 1);
    WindowHoldsRotatedBit(s, i, 2); WindowHoldsRotatedBit(s, i, 3);
    WindowHoldsRotatedBit(s, i, 4); WindowHoldsRotatedBit(s, i, 5);
    WindowHoldsRotatedBit(s, i, 6); WindowHoldsRotatedBit(s, i, 7);
  }

  // ------------------------------------------------------------- the loop

  /** What a carry bit is worth when it leaves digit e. */
  function Carried(carry: nat, e: nat): nat
  {
    if carry == 0 then 0 else Pow256(e)
  }

  /** One digit of a block addition, from the right, with the carry written out. */
  lemma AddDigit(prev: seq<byte>, blk: seq<byte>, cur: seq<byte>, next: seq<byte>,
                 cin: nat, carry: nat, carry': nat, t: nat)
    requires carry <= 1 && carry' <= 1
    requires |prev| == |blk| == |cur| == |next| && t < |prev|
    requires cur[t] == prev[t]
    requires next == cur[t := next[t]]
    requires BigEndian(cur[t + 1..]) + Carried(carry, |prev| - t - 1)
          == BigEndian(prev[t + 1..]) + BigEndian(blk[t + 1..]) + cin
    requires next[t] + 256 * carry' == prev[t] + blk[t] + carry
    ensures BigEndian(next[t..]) + Carried(carry', |prev| - t)
         == BigEndian(prev[t..]) + BigEndian(blk[t..]) + cin
  {
    hide BigEndian;
    BigEndianSuffix(prev, t);
    BigEndianSuffix(blk, t);
    BigEndianSuffix(next, t);
    assert next[t + 1..] == cur[t + 1..];
    var p := Pow256(|prev| - t - 1);
    DigitSum(p, next[t], carry', prev[t], blk[t], carry);
    assert Pow256(|prev| - t) == 256 * p;
  }

  lemma DigitSum(p: nat, d: int, carry': int, a: int, b: int, carry: int)
    requires d + 256 * carry' == a + b + carry
    ensures d * p + carry' * (256 * p) == a * p + b * p + carry * p
  {
    MulDistrib(p, a, b);
    MulDistrib(p, a + b, carry);
    MulAssoc(carry', 256, p);
    MulDistrib(p, d, 256 * carry');
  }

  /** A finished block leaves digits plus carry equal to the one's-complement sum so far. */
  lemma BlockDone(st: seq<byte>, n: nat, prev: nat, cin: nat, out: nat, carry: nat)
    requires 0 < n <= |st| && carry <= 1 && out < Pow256(n)
    requires prev + cin == OnesSum(Blocks(st[n..], n), n)
    requires out + Carried(carry, n) == prev + BigEndian(st[..n]) + cin
    ensures out + carry == OnesSum(Blocks(st, n), n) < Pow256(n)
  {
    var rest := Blocks(st[n..], n);
    BlocksBelow(st, n);
    OnesSumBound(Blocks(st, n), n);
    assert ([BigEndian(st[..n])] + rest)[1..] == rest;
  }

  /** Where the loop stands: digits t.. of block c done, over the digits prev and the carry cin. */
  datatype Mark = Mark(c: int, lo: int, t: nat, prev: seq<byte>, cin: nat)

  ghost predicate Reached(st: seq<byte>, n: nat, out: seq<byte>, carry: nat, i: int, m: Mark)
  {
    && |out| == |m.prev| == n && 0 < m.t <= n && carry <= 1
    && -1 <= m.c && m.lo == n * m.c && m.lo + n <= |st| && i == m.lo + m.t
    && out[..m.t] == m.prev[..m.t]
    && BigEndian(m.prev) + m.cin == OnesSum(Blocks(st[m.lo + n..], n), n) < Pow256(n)
    && BigEndian(out[m.t..]) + Carried(carry, n - m.t)
       == BigEndian(m.prev[m.t..]) + m.cin + (if m.c < 0 then 0 else BigEndian(st[m.lo + m.t..m.lo + n]))
    && (m.c < 0 ==> m.t == n)
  }

  /** Between two blocks: the digits and the carry are the sum of the blocks after c. */
  lemma Boundary(st: seq<byte>, n: nat, out: seq<byte>, carry: nat, c: int, i: int)
    requires 0 < n == |out| && -1 <= c && carry <= 1 && i == n * c + n <= |st|
    requires BigEndian(out) + carry == OnesSum(Blocks(st[i..], n), n) < Pow256(n)
    ensures Reached(st, n, out, carry, i, Mark(c, n * c, n, out, carry))
  {
    hide OnesSum, Blocks;
    assert Pow256(0) == 1 && out[n..] == [];
    if c >= 0 { assert st[i..i] == []; }
  }

  lemma Start(st: seq<byte>, n: nat, x: nat, out: seq<byte>) returns (m: Mark)
    requires 0 < n == |out| && x > 0 && BigEndian(out) == 0 && |st| == n * x
    ensures Reached(st, n, out, 0, |st|, m)
  {
    MulDistrib(n, x, 1);
    m := Mark(x - 1, n * (x - 1), n, out, 0);
    Boundary(st, n, out, 0, x - 1, |st|);
  }

  lemma StepIndex(n: nat, m: Mark, i: nat)
    requires 0 < m.t <= n && -1 <= m.c && (m.c < 0 ==> m.t == n) && m.lo == n * m.c && i + 1 == m.lo + m.t
    ensures m.c >= 0 && m.lo >= 0 && i / n == m.c && i % n == m.t - 1
  {
    if m.c >= 0 { MulMono(0, m.c, n); }
    DivModUnique(i, n, m.c, m.t - 1);
  }

  /** One turn of the main loop adds one digit. */
  lemma StepDigit(st: seq<byte>, n: nat, out: seq<byte>, carry: nat, i: nat, m: Mark,
                  out': seq<byte>, carry': nat)
    requires Reached(st, n, out, carry, i + 1, m) && i % n == m.t - 1
    requires |out'| == n && out' == out[m.t - 1 := out'[m.t - 1]] && carry' <= 1 && m.lo >= 0
    requires out'[m.t - 1] + 256 * carry' == carry + st[i] + out[m.t - 1]
    ensures BigEndian(out'[m.t - 1..]) + Carried(carry', n - m.t + 1)
         == BigEndian(m.prev[m.t - 1..]) + BigEndian(st[i..m.lo + n]) + m.cin
  {
    var t := m.t - 1;
    var blk := st[m.lo..m.lo + n];
    assert blk[m.t..] == st[m.lo + m.t..m.lo + n] && blk[t..] == st[i..m.lo + n];
    assert out[..m.t][t] == m.prev[..m.t][t];
    AddDigit(m.prev, blk, out, out', m.cin, carry, carry', t);
  }

  lemma StepAcross(st: seq<byte>, n: nat, out: seq<byte>, carry: nat, m: Mark) returns (m': Mark)
    requires |out| == |m.prev| == n > 0 && m.c >= 0 && carry <= 1
    requires m.lo == n * m.c >= 0 && m.lo + n <= |st|
    requires BigEndian(m.prev) + m.cin == OnesSum(Blocks(st[m.lo + n..], n), n)
    requires BigEndian(out) + Carried(carry, n) == BigEndian(m.prev) + BigEndian(st[m.lo..m.lo + n]) + m.cin
    ensures Reached(st, n, out, carry, m.lo, m')
  {
    BigEndianBound(out);
    assert st[m.lo..][n..] == st[m.lo + n..] && st[m.lo..][..n] == st[m.lo..m.lo + n];
    BlockDone(st[m.lo..], n, BigEndian(m.prev), m.cin, BigEndian(out), carry);
    MulDistrib(n, m.c, 1);
    Boundary(st, n, out, carry, m.c - 1, m.lo);
    m' := Mark(m.c - 1, n * (m.c - 1), n, out, carry);
  }

  lemma Step(st: seq<byte>, n: nat, out: seq<byte>, carry: nat, i: nat, m: Mark,
             out': seq<byte>, carry': nat) returns (m': Mark)
    requires Reached(st, n, out, carry, i + 1, m)
    requires |out'| == n && out' == out[i % n := out'[i % n]] && carry' <= 1
    requires out'[i % n] + 256 * carry' == carry + st[i] + out[i % n]
    ensures Reached(st, n, out', carry', i, m')
  {
    hide OnesSum, Blocks, BigEndian, Pow256;
    StepIndex(n, m, i);
    StepDigit(st, n, out, carry, i, m, out', carry');
    var t := m.t - 1;
    if t > 0 {
      assert out'[..t] == out[..m.t][..t] && m.prev[..t] == m.prev[..m.t][..t];
      m' := m.(t := t);
    } else {
      assert out'[0..] == out' && m.prev[0..] == m.prev;
      m' := StepAcross(st, n, out', carry', m);
    }
  }

  /** At the end of the main loop only the last carry is missing from the result. */
  lemma Finish(st: seq<byte>, n: nat, out: seq<byte>, carry: nat, m: Mark)
    requires Reached(st, n, out, carry, 0, m)
    ensures BigEndian(out) + carry == OnesSum(Blocks(st, n), n) < Pow256(n)
  {
    if m.c >= 0 { MulMono(0, m.c, n); }
    hide OnesSum, Blocks;
    assert out[..n] == out && m.prev[..n] == m.prev && st[m.lo + n..] == st;
    assert Pow256(0) == 1;
  }

  /** The byte of the input that position i of the repeated, rotated input needs. */
  method Pull(source: array<byte>, i: nat) returns (b: byte)
    requires source.Length > 0
    ensures b == StreamByte(source[..], i)
  {
    var msbit := MsBit(source.Length, i);
    PulledByteIsStreamByte(source[..], i);
    b := PulledByte(source[..], msbit);
  }

  /** rfc3961_nfold: fold source into result, in place, byte by byte from the right. */
  method Fold(source: array<byte>, result: array<byte>)
    requires source != result
    modifies result
    ensures BigEndian(result[..]) == NFoldValue(source[..], result.Length)
  {
    var k, n := source.Length, result.Length;
    ghost var s := source[..];
    var lcm := Lcm(k, n);
    for j := 0 to n
      invariant source[..] == s
      invariant forall t :: 0 <= t < j ==> result[t] == 0
    {
      result[j] := 0;
    }
    BigEndianZeros(result[..]);
    if k > 0 && n > 0 {
      ghost var st := Stream(s, lcm);
      ghost var x, _ := LcmFactors(k, n);
      ghost var mark := Start(st, n, x, result[..]);
      var carry := SumBlocks(source, result, lcm, st, mark);
      if carry != 0 {
        carry := AddCarry(result, carry);
      }
    }
  }

  /** The main loop: all lcm positions, the carry of one block entering the next. */
  method SumBlocks(source: array<byte>, result: array<byte>, lcm: nat, ghost st: seq<byte>, ghost start: Mark)
    returns (carry: nat)
    requires source != result && source.Length > 0 && result.Length > 0
    requires st == Stream(source[..], lcm)
    requires Reached(st, result.Length, result[..], 0, lcm, start)
    modifies result
    ensures carry <= 1
    ensures BigEndian(result[..]) + carry == OnesSum(Blocks(st, result.Length), result.Length) < Pow256(result.Length)
  {
    var n := result.Length;
    ghost var s := source[..];
    ghost var mark := start;
    carry := 0;
    var i: int := lcm;
    while i > 0
      invariant 0 <= i <= lcm && source[..] == s && Reached(st, n, result[..], carry, i, mark)
    {
      i := i - 1;
      var pulled: int := Pull(source, i);
      var sum: nat := carry + pulled + result[i % n];
      ghost var before := result[..];
      var digit: byte := sum % 256;
      result[i % n] := digit;
      assert result[..] == before[i % n := digit];
      mark := Step(st, n, before, carry, i, mark, result[..], sum / 256);
      carry := sum / 256;
    }
    Finish(st, n, result[..], carry, mark);
  }

  /** The final pass: add the leftover carry back in; it is fully absorbed. */
  method AddCarry(result: array<byte>, carry: nat) returns (left: nat)
    requires carry <= 1 && BigEndian(result[..]) + carry < Pow256(result.Length)
    modifies result
    ensures BigEndian(result[..]) == BigEndian(old(result[..])) + carry
    ensures left == 0
  {
    var n := result.Length;
    ghost var was := result[..];
    ghost var zeros := seq<byte>(n, t => 0);
    left := carry;
    var i := n;
    assert was[n..] == [] && result[n..] == [];
    BigEndianZeros(zeros[n..]);
    while i > 0
      invariant 0 <= i <= n && left <= 1 && result[..i] == was[..i]
      invariant BigEndian(result[..][i..]) + Carried(left, n - i) == BigEndian(was[i..]) + carry
    {
      i := i - 1;
      var sum := left + result[i];
      ghost var before := result[..];
      BigEndianZeros(zeros[i..]);
      BigEndianZeros(zeros[i + 1..]);
      result[i] := sum % 256;
      AddDigit(was, zeros, before, result[..], carry, left, sum / 256, i);
      left := sum / 256;
    }
    assert result[..][0..] == result[..] && was[0..] == was;
    BigEndianBound(result[..]);
  }
}
