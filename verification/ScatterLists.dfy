/**
 Scatterlists for encrypting and decrypting a message tail: the pass that counts entries
 and the pass that fills them.
 */
module ScatterLists {
  import opened Wire
  import opened DataCursor
  import Frames

  /** The pieces a cursor hands out when every piece is taken whole. */
  ghost function Entries(items: seq<Item>, c: Cursor): seq<seq<bv8>>
    decreases c.total, |items| - c.item
  {
    if c.total == 0 || c.item >= |items| || c.resid > c.total then []
    else if c.resid == 0 then
      if c.item + 1 < |items| then Entries(items, AtItem(items, c.item + 1, c.total)) else []
    else
      var segs := items[c.item].Segs();
      if c.index >= |segs| || c.off >= |segs[c.index]| then []
      else
        var n := PieceLen(items, c);
        [segs[c.index][c.off..c.off + n]] + Entries(items, Stepped(items, c, n))
  }

  lemma SameEntries(items: seq<Item>, a: Cursor, b: Cursor)
    requires SamePlace(a, b)
    ensures Entries(items, a) == Entries(items, b)
  {
  }

  lemma NoMoreEntries(items: seq<Item>, c: Cursor)
    requires c.total == 0
    ensures Entries(items, c) == []
  {
  }

  /** A cursor at a piece: that piece comes first, the rest after it. */
  lemma FirstEntry(items: seq<Item>, c: Cursor)
    requires InItem(items, c) && c.resid > 0
    ensures c.item < |items| && c.index < |items[c.item].Segs()| && c.resid <= c.total && c.off < |items[c.item].Segs()[c.index]|
    ensures
      var n := PieceLen(items, c);
      && n <= |Remaining(items, c)| && n <= c.resid
      && Entries(items, c) == [Remaining(items, c)[..n]] + Entries(items, Stepped(items, c, n))
  {
    hide Payload, WholeLists, Flat, Remaining, Entries, Stepped;
    PieceIsNext(items, c);
    UnfoldEntries(items, c);
  }

  lemma UnfoldEntries(items: seq<Item>, c: Cursor)
    requires c.item < |items| && c.index < |items[c.item].Segs()| && 0 < c.resid <= c.total && c.off < |items[c.item].Segs()[c.index]|
    ensures
      var n := PieceLen(items, c);
      Entries(items, c) == [items[c.item].Segs()[c.index][c.off..c.off + n]] + Entries(items, Stepped(items, c, n))
  {
  }

  lemma EmptyItem(items: seq<Item>, c: Cursor)
    requires InItem(items, c) && c.resid == 0 && c.total > 0
    ensures c.item + 1 < |items| && Entries(items, c) == Entries(items, AtItem(items, c.item + 1, c.total))
  {
    hide InItem, Remaining, AtItem;
    NextItemIs(items, c);
  }

  /** get_bvec_at as the two passes use it */
  method NextEntry(c: DataIter) returns (piece: seq<bv8>)
    requires c.Valid() && c.total > 0
    modifies c
    ensures c.Valid() && c.total == old(c.total) - |piece| && 0 < |piece|
    ensures |piece| <= |old(Remaining(c.items, c.View()))| && piece == old(Remaining(c.items, c.View()))[..|piece|]
    ensures Remaining(c.items, c.View()) == old(Remaining(c.items, c.View()))[|piece|..]
    ensures old(Entries(c.items, c.View())) == [piece] + Entries(c.items, c.View())
  {
    hide InItem, PieceLen, Remaining, Entries;
    while c.resid == 0
      invariant c.Valid() && c.total == old(c.total) && Remaining(c.items, c.View()) == old(Remaining(c.items, c.View()))
      invariant Entries(c.items, c.View()) == old(Entries(c.items, c.View()))
      decreases |c.items| - c.item
    {
      EmptyItem(c.items, c.View());
      NothingBut(Remaining(c.items, c.View()));
      c.Advance(0);
    }
    piece := c.Next();
    ghost var at := c.View();
    FirstEntry(c.items, at);
    c.Advance(|piece|);
    SameEntries(c.items, c.View(), Stepped(c.items, at, |piece|));
  }

  predicate NeedPadding(len: nat)
  {
    len % GCM_BLOCK_LEN != 0
  }

  /** The entry that pads a segment, if it needs one. */
  function Padding(len: nat): (s: seq<seq<bv8>>)
    ensures |s| == if NeedPadding(len) then 1 else 0
  {
    if NeedPadding(len) then [Zeros(Frames.PaddedLen(len) - len)] else []
  }

  lemma FlatMore(a: seq<seq<bv8>>, x: seq<bv8>)
    ensures Flat(a + [x]) == Flat(a) + x
  {
    assert (a + [x])[..|a|] == a;
  }

  lemma {:induction false} FlatAppend(a: seq<seq<bv8>>, b: seq<seq<bv8>>)
    ensures Flat(a + b) == Flat(a) + Flat(b)
  {
    if b == [] {
      assert a + b == a;
    } else {
      var init := b[..|b| - 1];
      FlatAppend(a, init);
      FlatMore(a + init, b[|b| - 1]);
      assert a + init + [b[|b| - 1]] == a + b;
    }
  }

  /** A segment and its padding entry are the padded segment. */
  lemma WithPadding(entries: seq<seq<bv8>>, s: seq<bv8>)
    requires Flat(entries) == s
    ensures Flat(entries + Padding(|s|)) == Frames.Padded(s)
  {
    if NeedPadding(|s|) {
      FlatMore(entries, Padding(|s|)[0]);
    } else {
      assert entries + [] == entries && Frames.PaddedLen(|s|) == |s|;
      assert s + Zeros(0) == s;
    }
  }

  /** calc_sg_cnt_cursor */
  method CountData(its: seq<Item>, length: nat) returns (n: nat)
    requires AllValid(its) && 0 < length <= |Payload(its)| && WholeLists(its, length)
    ensures n == |Entries(its, AtItem(its, 0, length))| + if NeedPadding(length) then 1 else 0
  {
    hide InItem, Entries, Payload, Remaining, WholeLists;
    var c := new DataIter(its, length);
    n := if NeedPadding(length) then 1 else 0;
    while c.total > 0
      invariant c.Valid() && c.items == its
      invariant n + |Entries(its, c.View())| == |Entries(its, AtItem(its, 0, length))| + if NeedPadding(length) then 1 else 0
      decreases c.total
    {
      var piece := NextEntry(c);
      n := n + 1;
    }
    NoMoreEntries(its, c.View());
  }

  /** init_sgs_cursor */
  method FillData(its: seq<Item>, length: nat) returns (sgs: seq<seq<bv8>>)
    requires AllValid(its) && 0 < length <= |Payload(its)| && WholeLists(its, length)
    ensures sgs == Entries(its, AtItem(its, 0, length)) + Padding(length)
    ensures Flat(sgs) == Frames.Padded(Payload(its)[..length])
  {
    hide InItem, Entries, Payload, Remaining, WholeLists, AtItem, AllValid, Frames.Padded, NeedPadding;
    var c := new DataIter(its, length);
    ghost var all := Payload(its)[..length];
    ghost var rest, more := all, Entries(its, AtItem(its, 0, length));
    sgs := [];
    assert Flat([]) + all == all && [] + more == more;
    while c.total > 0
      invariant c.Valid() && c.items == its && c.total == |rest|
      invariant Remaining(its, c.View()) == rest && Flat(sgs) + rest == all
      invariant Entries(its, c.View()) == more && sgs + more == Entries(its, AtItem(its, 0, length))
      decreases c.total
    {
      var piece := NextEntry(c);
      FlatMore(sgs, piece);
      Portion(Flat(sgs), rest, |piece|);
      assert sgs + [piece] + more[1..] == sgs + more;
      sgs := sgs + [piece];
      rest, more := rest[|piece|..], more[1..];
    }
    NoMoreEntries(its, c.View());
    assert sgs + [] == sgs && Flat(sgs) + [] == Flat(sgs);
    WithPadding(sgs, all);
    sgs := sgs + Padding(length);
  }

  // -------------------------------------------------------------------- buffers

  /** calc_sg_cnt: a buffer is one entry, or one for each page if it is virtually mapped. */
  function CountBuffer(len: nat, mapped: bool): nat
  {
    if len == 0 then 0
    else (if NeedPadding(len) then 1 else 0) + if mapped then (len + PAGE_SIZE - 1) / PAGE_SIZE else 1
  }

  /** init_sgs */
  method FillBuffer(buf: seq<bv8>, mapped: bool) returns (sgs: seq<seq<bv8>>)
    ensures |sgs| == CountBuffer(|buf|, mapped) && Flat(sgs) == Frames.Padded(buf)
  {
    if buf == [] {
      assert Frames.Padded([]) == [] + Zeros(0);
      return [];
    }
    hide Frames.Padded, NeedPadding;
    if mapped {
      sgs := [];
      var p := 0;
      while p < |buf|
        invariant 0 <= p <= |buf| && Flat(sgs) == buf[..p]
        invariant |sgs| == (p + PAGE_SIZE - 1) / PAGE_SIZE && (p < |buf| ==> p % PAGE_SIZE == 0)
        decreases |buf| - p
      {
        var len := if |buf| - p <= PAGE_SIZE then |buf| - p else PAGE_SIZE;
        FlatMore(sgs, buf[p..p + len]);
        sgs := sgs + [buf[p..p + len]];
        assert buf[..p] + buf[p..p + len] == buf[..p + len];
        p := p + len;
      }
      assert buf[..p] == buf;
    } else {
      sgs := [buf];
      FlatMore([], buf);
      assert [] + [buf] == [buf];
    }
    WithPadding(sgs, buf);
    sgs := sgs + Padding(|buf|);
  }

  lemma OnePageMore(dpos: nat, done: nat, len: nat)
    requires done > 0 ==> (dpos + done) % PAGE_SIZE == 0
    requires 0 < len <= PAGE_SIZE - (dpos + done) % PAGE_SIZE
    ensures PagesFor(dpos, done + len) == (if done == 0 then 0 else PagesFor(dpos, done)) + 1
  {
    var q, r := (dpos + done) / PAGE_SIZE, (dpos + done) % PAGE_SIZE;
    assert dpos + done + len + PAGE_SIZE - 1 == (q + 1) * PAGE_SIZE + (r + len - 1);
    assert (dpos + done + len + PAGE_SIZE - 1) / PAGE_SIZE == q + 1;
  }

  /** init_sgs_pages: the bytes from dpos on, cut at page boundaries */
  method FillPages(bytes: seq<bv8>, dpos: nat) returns (sgs: seq<seq<bv8>>)
    requires bytes != []
    ensures |sgs| == PagesFor(dpos, |bytes|) + if NeedPadding(|bytes|) then 1 else 0
    ensures Flat(sgs) == Frames.Padded(bytes)
  {
    hide Frames.Padded, NeedPadding;
    var off, done := dpos % PAGE_SIZE, 0;
    sgs := [];
    while done < |bytes|
      invariant 0 <= done <= |bytes| && Flat(sgs) == bytes[..done]
      invariant done < |bytes| ==> off < PAGE_SIZE && (dpos + done) % PAGE_SIZE == off && (done > 0 ==> off == 0)
      invariant |sgs| == if done == 0 then 0 else PagesFor(dpos, done)
      decreases |bytes| - done
    {
      var len := if |bytes| - done <= PAGE_SIZE - off then |bytes| - done else PAGE_SIZE - off;
      FlatMore(sgs, bytes[done..done + len]);
      sgs := sgs + [bytes[done..done + len]];
      assert bytes[..done] + bytes[done..done + len] == bytes[..done + len];
      OnePageMore(dpos, done, len);
      off := 0;
      done := done + len;
    }
    assert bytes[..done] == bytes;
    WithPadding(sgs, bytes);
    sgs := sgs + Padding(|bytes|);
  }

  /** setup_message_sgs: as many entries as were counted, with one left for the epilogue. */
  method SetupMessage(front: seq<bv8>, middle: seq<bv8>, its: seq<Item>, dlen: nat, frontMapped: bool, middleMapped: bool)
    returns (count: nat, sgs: seq<seq<bv8>>)
    requires AllValid(its) && dlen <= |Payload(its)| && WholeLists(its, dlen)
    requires front != [] || middle != [] || dlen > 0
    ensures count == |sgs| + 1
    ensures Flat(sgs) == Frames.Padded(front) + Frames.Padded(middle) + Frames.Padded(Payload(its)[..dlen])
  {
    hide InItem, Entries, Payload, WholeLists, AtItem, AllValid, NeedPadding, Flat, CountBuffer;
    count := 1 + CountBuffer(|front|, frontMapped) + CountBuffer(|middle|, middleMapped);
    if dlen > 0 {
      var n := CountData(its, dlen);
      count := count + n;
    }
    var a := FillBuffer(front, frontMapped);
    var b := FillBuffer(middle, middleMapped);
    var d: seq<seq<bv8>> := [];
    if dlen > 0 {
      d := FillData(its, dlen);
    } else {
      assert Frames.Padded(Payload(its)[..0]) == [] by { assert Payload(its)[..0] == [] && [] + Zeros(0) == []; }
      FlatNone();
    }
    FlatAppend(a, b);
    FlatAppend(a + b, d);
    sgs := a + b + d;
  }

  lemma FlatNone()
    ensures Flat([]) == []
  {
  }
}
