/** Base64 of section 4 of RFC 4648, with a newline after every 64 characters, into caller-sized buffers. */
module Armor {

  datatype Option<T> = None | Some(value: T)

  type Byte = x: int | 0 <= x < 256

  const UPPER := "ABCDEFGHIJKLMNOPQRSTUVWXYZ"
  const LOWER := "abcdefghijklmnopqrstuvwxyz"
  const OTHER := "0123456789+/"
  const PEM_KEY := UPPER + LOWER + OTHER

  /** encode_bits */
  function EncodeBits(c: int): char
    requires 0 <= c < 64
  {
    PEM_KEY[c]
  }

  /** decode_bits; a padding character counts as zero bits */
  function DecodeBits(c: char): (r: int)
    ensures r < 64
  {
    if 'A' <= c <= 'Z' then c as int - 'A' as int
    else if 'a' <= c <= 'z' then c as int - 'a' as int + 26
    else if '0' <= c <= '9' then c as int - '0' as int + 52
    else if c == '+' then 62
    else if c == '/' then 63
    else if c == '=' then 0
    else -22
  }

  lemma DecodeEncode(c: int)
    requires 0 <= c < 64
    ensures DecodeBits(EncodeBits(c)) == c && EncodeBits(c) != '=' && EncodeBits(c) != '\n'
  {
    if c < 26 {
      UpperAt(c);
    } else if c < 52 {
      LowerAt(c - 26);
    } else {
      OtherAt(c - 52);
    }
  }

  lemma UpperAt(c: int)
    requires 0 <= c < 26
    ensures UPPER[c] as int == 'A' as int + c
  {
  }

  lemma LowerAt(c: int)
    requires 0 <= c < 26
    ensures LOWER[c] as int == 'a' as int + c
  {
  }

  lemma OtherAt(c: int)
    requires 0 <= c < 12
    ensures if c < 10 then OTHER[c] as int == '0' as int + c else OTHER[c] == if c == 10 then '+' else '/'
  {
  }

  // ---------------------------------------------------------------- as sequences

  /** The characters of up to three bytes. */
  function Group(s: seq<Byte>): (g: seq<char>)
    requires s != []
    ensures |g| == 4
  {
    var a := s[0];
    if |s| == 1 then [EncodeBits(a / 4), EncodeBits(a % 4 * 16), '=', '=']
    else
      var b := s[1];
      if |s| == 2 then [EncodeBits(a / 4), EncodeBits(a % 4 * 16 + b / 16), EncodeBits(b % 16 * 4), '=']
      else
        var c := s[2];
        [EncodeBits(a / 4), EncodeBits(a % 4 * 16 + b / 16), EncodeBits(b % 16 * 4 + c / 64), EncodeBits(c % 64)]
  }

  function Min(a: nat, b: nat): nat
  {
    if a <= b then a else b
  }

  /** The text of s, begun in a line that has line characters already. */
  function Encode(s: seq<Byte>, line: nat): seq<char>
  {
    if s == [] then []
    else if line + 4 == 64 then Group(s) + ['\n'] + Encode(s[Min(3, |s|)..], 0)
    else Group(s) + Encode(s[Min(3, |s|)..], line + 4)
  }

  predicate GoodGroup(t: seq<char>)
    requires |t| >= 4
  {
    DecodeBits(t[0]) >= 0 && DecodeBits(t[1]) >= 0 && DecodeBits(t[2]) >= 0 && DecodeBits(t[3]) >= 0
  }

  /** The bytes a group of four characters stands for. */
  function Bytes(t: seq<char>): (r: seq<Byte>)
    requires |t| >= 4 && GoodGroup(t)
    ensures 1 <= |r| <= 3
  {
    var a, b, c, d := DecodeBits(t[0]), DecodeBits(t[1]), DecodeBits(t[2]), DecodeBits(t[3]);
    [a * 4 + b / 16]
    + if t[2] == '=' then [] else [b % 16 * 16 + c / 4] + if t[3] == '=' then [] else [c % 4 * 64 + d]
  }

  /** What a text stands for, if anything; what follows padding is not looked at. */
  function Decode(t: seq<char>): Option<seq<Byte>>
  {
    if t == [] then Some([])
    else if t[0] == '\n' then Decode(t[1..])
    else if |t| < 4 || !GoodGroup(t) then None
    else if t[2] == '=' || t[3] == '=' then Some(Bytes(t))
    else
      match Decode(t[4..])
      case None => None
      case Some(more) => Some(Bytes(t) + more)
  }

  lemma GroupDecodes(s: seq<Byte>)
    requires s != []
    ensures GoodGroup(Group(s)) && Bytes(Group(s)) == s[..Min(3, |s|)]
    ensures Group(s)[0] != '\n' && (Group(s)[2] == '=' || Group(s)[3] == '=' <==> |s| < 3)
  {
    hide EncodeBits, DecodeBits;
    DecodePadding();
    var a, b, c := s[0], if |s| > 1 then s[1] else 0, if |s| > 2 then s[2] else 0;
    Repacked(a, b, c);
    var w, x, y, z := a / 4, a % 4 * 16 + b / 16, b % 16 * 4 + c / 64, c % 64;
    assert 0 / 16 == 0 && 0 / 64 == 0;
    DecodeEncode(w);
    DecodeEncode(x);
    DecodeEncode(y);
    DecodeEncode(z);
    assert Group(s) == [EncodeBits(w), EncodeBits(x), if |s| > 1 then EncodeBits(y) else '=', if |s| > 2 then EncodeBits(z) else '='];
    hide Group;
    assert s[..Min(3, |s|)] == [a] + if |s| == 1 then [] else [b] + if |s| == 2 then [] else [c];
  }

  /** Three bytes as four numbers of six bits, and back. */
  lemma Repacked(a: Byte, b: Byte, c: Byte)
    ensures
      var w, x, y, z := a / 4, a % 4 * 16 + b / 16, b % 16 * 4 + c / 64, c % 64;
      && 0 <= w < 64 && 0 <= x < 64 && 0 <= y < 64 && 0 <= z < 64
      && w * 4 + x / 16 == a && x % 16 * 16 + y / 4 == b && y % 4 * 64 + z == c
  {
  }

  lemma DecodePadding()
    ensures DecodeBits('=') == 0
  {
  }

  /** A group in front of more text. */
  lemma DecodeGroup(g: seq<char>, t: seq<char>)
    requires |g| == 4 && g[0] != '\n' && GoodGroup(g)
    ensures g[2] == '=' || g[3] == '=' ==> Decode(g + t) == Some(Bytes(g))
    ensures !(g[2] == '=' || g[3] == '=') && Decode(t).Some? ==> Decode(g + t) == Some(Bytes(g) + Decode(t).value)
  {
    hide DecodeBits;
    assert (g + t)[4..] == t;
    assert (g + t)[0] == g[0] && (g + t)[1] == g[1] && (g + t)[2] == g[2] && (g + t)[3] == g[3];
  }

  /** Every byte string comes back. */
  lemma {:induction false} RoundTrip(s: seq<Byte>, line: nat)
    ensures Decode(Encode(s, line)) == Some(s)
    decreases |s|
  {
    if s != [] {
      hide Encode, Decode, Group, Bytes, DecodeBits, GoodGroup;
      var n, next := Min(3, |s|), if line + 4 == 64 then 0 else line + 4;
      var more := Encode(s[n..], next);
      GroupDecodes(s);
      RoundTrip(s[n..], next);
      EncodeStep(s, line);
      ThreeParts(Group(s), NewLine(line), more);
      SkipNewLine(line, more);
      DecodeGroup(Group(s), NewLine(line) + more);
      CutAt(s, n);
    } else {
      NothingToEncode(line);
    }
  }

  lemma ThreeParts(a: seq<char>, b: seq<char>, c: seq<char>)
    ensures a + b + c == a + (b + c)
  {
  }

  lemma CutAt(s: seq<Byte>, n: nat)
    requires n <= |s|
    ensures s == s[..n] + s[n..] && (n == |s| ==> s[..n] == s)
  {
  }

  lemma SkipNewLine(line: nat, more: seq<char>)
    ensures Decode(NewLine(line) + more) == Decode(more)
  {
    hide DecodeBits;
    assert [] + more == more && (['\n'] + more)[1..] == more;
  }

  /** How long the text gets: four characters for every three bytes begun, one newline for every sixteen groups. */
  lemma {:induction false} EncodeLength(s: seq<Byte>, line: nat)
    requires line < 64 && line % 4 == 0
    ensures
      var groups := (|s| + 2) / 3;
      |Encode(s, line)| == 4 * groups + (line / 4 + groups) / 16
    decreases |s|
  {
    if s != [] {
      var n := Min(3, |s|);
      var next := if line + 4 == 64 then 0 else line + 4;
      hide Encode, Group;
      EncodeLength(s[n..], next);
      EncodeStep(s, line);
      GroupCount(|s|, line);
    }
  }

  lemma GroupCount(n: nat, line: nat)
    requires n > 0 && line < 64 && line % 4 == 0
    ensures
      var groups, next := (n - Min(3, n) + 2) / 3, if line + 4 == 64 then 0 else line + 4;
      && (n + 2) / 3 == groups + 1
      && (line / 4 + groups + 1) / 16 == (next / 4 + groups) / 16 + if line + 4 == 64 then 1 else 0
  {
  }

  lemma EncodeStep(s: seq<Byte>, line: nat)
    requires s != []
    ensures Encode(s, line) == Group(s) + NewLine(line) + Encode(s[Min(3, |s|)..], if line + 4 == 64 then 0 else line + 4)
    ensures |Encode(s, line)| >= 4 + |NewLine(line)|
  {
    hide Group;
    assert Group(s) + [] == Group(s);
  }

  function NewLine(line: nat): seq<char>
  {
    if line + 4 == 64 then ['\n'] else []
  }

  // ------------------------------------------------------------------ into buffers

  /** Characters written to a buffer. */
  method Put(dst: array<char>, at: nat, text: seq<char>)
    requires at + |text| <= dst.Length
    modifies dst
    ensures dst[..at + |text|] == old(dst[..at]) + text
    ensures forall i :: at + |text| <= i < dst.Length ==> dst[i] == old(dst[i])
  {
    for k := 0 to |text|
      invariant dst[..at + k] == old(dst[..at]) + text[..k]
      invariant forall i :: at + k <= i < dst.Length ==> dst[i] == old(dst[i])
    {
      dst[at + k] := text[k];
    }
    assert text[..|text|] == text;
  }

  /** ceph_armor */
  method CephArmor(dst: array<char>, src: seq<Byte>) returns (olen: nat)
    requires |Encode(src, 0)| <= dst.Length
    modifies dst
    ensures olen == |Encode(src, 0)| && dst[..olen] == Encode(src, 0)
    ensures forall i :: olen <= i < dst.Length ==> dst[i] == old(dst[i])
  {
    hide Group, Encode;
    olen := 0;
    var line, p := 0, 0;
    assert src[0..] == src;
    ghost var out: seq<char> := [];
    assert out + Encode(src, 0) == Encode(src, 0);
    while p < |src|
      invariant p <= |src| && line < 64 && line % 4 == 0 && olen == |out| <= dst.Length && dst[..olen] == out
      invariant out + Encode(src[p..], line) == Encode(src, 0)
      invariant forall i :: olen <= i < dst.Length ==> dst[i] == old(dst[i])
      decreases |src| - p
    {
      ghost var rest := src[p..];
      var n := Min(3, |src| - p);
      var group := Group(src[p..p + n]);
      assert rest[..Min(3, |rest|)] == src[p..p + n] && rest[Min(3, |rest|)..] == src[p + n..];
      GroupOfThree(rest);
      EncodeStep(rest, line);
      var next := if line + 4 == 64 then 0 else line + 4;
      assert |out + Encode(rest, line)| == |out| + |Encode(rest, line)|;
      Put(dst, olen, group);
      olen := olen + 4;
      line := line + 4;
      if line == 64 {
        Put(dst, olen, ['\n']);
        olen := olen + 1;
        line := 0;
      }
      ghost var more := Encode(src[p + n..], next);
      Regroup(out, group, NewLine(if next == 0 then 60 else next - 4), more);
      out := dst[..olen];
      p := p + n;
    }
    assert src[p..] == [];
    NothingToEncode(line);
    assert out + [] == out;
  }

  lemma NothingToEncode(line: nat)
    ensures Encode([], line) == []
  {
  }

  /** A group looks at three bytes at most. */
  lemma GroupOfThree(s: seq<Byte>)
    requires s != []
    ensures Group(s) == Group(s[..Min(3, |s|)])
  {
    hide EncodeBits;
  }

  lemma Regroup(a: seq<char>, b: seq<char>, c: seq<char>, d: seq<char>)
    ensures a + (b + c + d) == a + b + c + d && a + b + [] == a + b
  {
  }

  /** The bytes a call may write: those of whole groups of four characters. */
  lemma {:induction false} NeverTooLong(t: seq<char>)
    ensures Decode(t).Some? ==> |Decode(t).value| <= |t| * 3 / 4
    decreases |t|
  {
    hide DecodeBits;
    if t != [] {
      if t[0] == '\n' {
        NeverTooLong(t[1..]);
      } else if |t| >= 4 {
        NeverTooLong(t[4..]);
      }
    }
  }

  /**
   ceph_unarmor, into a buffer of three quarters of the text's length: that is enough for any
   text, good or bad.
   */
  method CephUnarmor(dst: array<Byte>, src: seq<char>) returns (olen: int)
    requires dst.Length >= |src| * 3 / 4
    modifies dst
    ensures olen >= 0 <==> Decode(src).Some?
    ensures olen >= 0 ==> olen == |Decode(src).value| <= dst.Length && dst[..olen] == Decode(src).value
  {
    hide DecodeBits, Decode, Bytes;
    olen := 0;
    var p := 0;
    assert src[0..] == src;
    assert Decode(src).Some? ==> [] + Decode(src).value == Decode(src).value;
    while p < |src|
      invariant 0 <= p <= |src| && 0 <= olen && olen * 4 <= p * 3
      invariant Decode(src) == After(dst[..olen], Decode(src[p..]))
      decreases |src| - p
    {
      ghost var rest, out := src[p..], dst[..olen];
      DecodeStep(rest);
      if src[p] == '\n' {
        assert rest[1..] == src[p + 1..];
        p := p + 1;
        continue;
      }
      if p + 4 > |src| {
        return -22;
      }
      assert rest[4..] == src[p + 4..];
      var a, b, c, d := DecodeBits(src[p]), DecodeBits(src[p + 1]), DecodeBits(src[p + 2]), DecodeBits(src[p + 3]);
      if a < 0 || b < 0 || c < 0 || d < 0 {
        return -22;
      }
      assert olen + 3 <= dst.Length;
      BytesOf(rest);
      dst[olen] := a * 4 + b / 16;
      assert dst[..olen + 1] == out + [a * 4 + b / 16];
      if src[p + 2] == '=' {
        return olen + 1;
      }
      dst[olen + 1] := b % 16 * 16 + c / 4;
      assert dst[..olen + 2] == out + [a * 4 + b / 16, b % 16 * 16 + c / 4];
      if src[p + 3] == '=' {
        return olen + 2;
      }
      dst[olen + 2] := c % 4 * 64 + d;
      assert dst[..olen + 3] == out + [a * 4 + b / 16, b % 16 * 16 + c / 4, c % 4 * 64 + d];
      olen := olen + 3;
      p := p + 4;
      AfterTwice(out, Bytes(rest), Decode(src[p..]));
    }
    assert src[p..] == [];
    DecodeNothing();
    assert dst[..olen] + [] == dst[..olen];
  }

  lemma DecodeNothing()
    ensures Decode([]) == Some([])
  {
  }

  /** The cases of a text, one step of it unfolded. */
  lemma DecodeStep(t: seq<char>)
    requires t != []
    ensures t[0] == '\n' ==> Decode(t) == Decode(t[1..])
    ensures t[0] != '\n' && (|t| < 4 || !GoodGroup(t)) ==> Decode(t) == None
    ensures t[0] != '\n' && |t| >= 4 && GoodGroup(t) ==>
              Decode(t) == if t[2] == '=' || t[3] == '=' then Some(Bytes(t)) else After(Bytes(t), Decode(t[4..]))
  {
    hide DecodeBits, Bytes;
  }

  /** The bytes of a group, written out. */
  lemma BytesOf(t: seq<char>)
    requires |t| >= 4 && GoodGroup(t)
    ensures
      var a, b, c, d := DecodeBits(t[0]), DecodeBits(t[1]), DecodeBits(t[2]), DecodeBits(t[3]);
      Bytes(t) == if t[2] == '=' then [a * 4 + b / 16]
                  else if t[3] == '=' then [a * 4 + b / 16, b % 16 * 16 + c / 4]
                  else [a * 4 + b / 16, b % 16 * 16 + c / 4, c % 4 * 64 + d]
  {
    hide DecodeBits;
  }

  /** Bytes in front of what the rest stands for. */
  function After(front: seq<Byte>, more: Option<seq<Byte>>): Option<seq<Byte>>
  {
    match more
    case None => None
    case Some(bytes) => Some(front + bytes)
  }

  lemma AfterTwice(a: seq<Byte>, b: seq<Byte>, more: Option<seq<Byte>>)
    ensures After(a, After(b, more)) == After(a + b, more)
  {
    if more.Some? { assert a + (b + more.value) == a + b + more.value; }
  }
}
