/**
 Message data: items that hold bytes in pages, page lists and bio vectors, and the cursor
 that walks over them a piece at a time.
 */
module DataCursor {
  import opened Wire

  // ------------------------------------------------------------------- segments

  /** The bytes of a list of segments. */
  function Flat(segs: seq<seq<bv8>>): seq<bv8>
  {
    if segs == [] then [] else Flat(segs[..|segs| - 1]) + segs[|segs| - 1]
  }

  /** Where segment i begins. */
  function Start(segs: seq<seq<bv8>>, i: nat): nat
    requires i <= |segs|
  {
    |Flat(segs[..i])|
  }

  lemma StartNext(segs: seq<seq<bv8>>, i: nat)
    requires i < |segs|
    ensures Start(segs, i + 1) == Start(segs, i) + |segs[i]| && Start(segs, 0) == 0
  {
    assert segs[..i + 1][..i] == segs[..i];
  }

  lemma {:induction false} SegmentAt(segs: seq<seq<bv8>>, i: nat)
    requires i < |segs|
    ensures Start(segs, i) + |segs[i]| <= |Flat(segs)|
    ensures Flat(segs)[Start(segs, i)..Start(segs, i) + |segs[i]|] == segs[i]
  {
    var init := segs[..|segs| - 1];
    if i < |segs| - 1 {
      SegmentAt(init, i);
      assert init[..i] == segs[..i];
      assert Flat(segs)[..|Flat(init)|] == Flat(init);
    } else {
      assert segs[..i] == init;
    }
  }

  /** Part of a segment, as part of the whole. */
  lemma PieceAt(segs: seq<seq<bv8>>, i: nat, off: nat, n: nat)
    requires i < |segs| && off + n <= |segs[i]|
    ensures Start(segs, i) + off + n <= |Flat(segs)|
    ensures Flat(segs)[Start(segs, i) + off..Start(segs, i) + off + n] == segs[i][off..off + n]
  {
    SegmentAt(segs, i);
    hide Flat;
    SliceOfSlice(Flat(segs), Start(segs, i), Start(segs, i) + |segs[i]|, off, off + n);
  }

  lemma SliceOfSlice(s: seq<bv8>, a: nat, b: nat, x: nat, y: nat)
    requires a <= b <= |s| && x <= y <= b - a
    ensures s[a..b][x..y] == s[a + x..a + y]
  {
    var l, r := s[a..b][x..y], s[a + x..a + y];
    forall i | 0 <= i < |l|
      ensures l[i] == r[i]
    {
      assert l[i] == s[a..b][x + i];
    }
  }

  /** Segments that are all whole pages. */
  ghost predicate Paged(segs: seq<seq<bv8>>)
  {
    forall i :: 0 <= i < |segs| ==> |segs[i]| == PAGE_SIZE
  }

  lemma {:induction false} PagedStart(segs: seq<seq<bv8>>, i: nat)
    requires Paged(segs) && i <= |segs|
    ensures Start(segs, i) == i * PAGE_SIZE
  {
    if i == 0 {
      assert segs[..0] == [];
    } else {
      PagedStart(segs, i - 1);
      StartNext(segs, i - 1);
    }
  }

  // ----------------------------------------------------------------------- items

  /** calc_pages_for */
  function PagesFor(off: nat, len: nat): nat
  {
    (off + len + PAGE_SIZE - 1) / PAGE_SIZE - off / PAGE_SIZE
  }

  /** A data item: length bytes from an offset in pages, a page list, or bio vectors after skip bytes. */
  datatype Item =
    | Pages(pages: seq<seq<bv8>>, alignment: nat, length: nat)
    | PageList(pages: seq<seq<bv8>>, length: nat)
    | Bvecs(vecs: seq<seq<bv8>>, skip: nat, size: nat)
  {
    function Segs(): seq<seq<bv8>> {
      if Bvecs? then vecs else pages
    }

    /** The offset of the first byte in the first segment. */
    function Base(): nat {
      match this
      case Pages(_, alignment, _) => alignment % PAGE_SIZE
      case PageList(_, _) => 0
      case Bvecs(_, skip, _) => skip
    }

    function Len(): nat {
      if Bvecs? then size else length
    }

    ghost predicate Valid() {
      match this
      case Pages(pages, alignment, length) => Paged(pages) && 0 < length && |pages| == PagesFor(alignment, length) <= 65535
      case PageList(pages, length) => Paged(pages) && pages != [] && length <= |pages| * PAGE_SIZE
      case Bvecs(vecs, skip, size) =>
        && (forall i :: 0 <= i < |vecs| ==> 0 < |vecs[i]| <= PAGE_SIZE) && vecs != [] && skip < |vecs[0]|
        && skip + size <= |Flat(vecs)|
    }

    function Content(): seq<bv8>
      requires Base() + Len() <= |Flat(Segs())|
    {
      Flat(Segs())[Base()..Base() + Len()]
    }
  }

  lemma Fits(item: Item)
    requires item.Valid()
    ensures item.Base() + item.Len() <= |Flat(item.Segs())| && item.Segs() != [] && item.Base() < |item.Segs()[0]|
  {
    if !item.Bvecs? {
      PagedStart(item.pages, |item.pages|);
      assert item.pages[..|item.pages|] == item.pages;
    }
  }

  ghost predicate AllValid(items: seq<Item>)
  {
    forall i :: 0 <= i < |items| ==> items[i].Valid()
  }

  /** The bytes of all items. */
  ghost function Payload(items: seq<Item>): seq<bv8>
    requires AllValid(items)
  {
    if items == [] then [] else
    assert items[0].Base() + items[0].Len() <= |Flat(items[0].Segs())| by { Fits(items[0]); }
    items[0].Content() + Payload(items[1..])
  }

  /** A page list is never cut off in the middle: its cursor insists on its full length. */
  ghost predicate WholeLists(items: seq<Item>, total: nat)
  {
    total == 0 || items == [] ||
    var n := items[0].Len();
    (items[0].PageList? ==> n <= total) && WholeLists(items[1..], if n <= total then total - n else 0)
  }

  // ---------------------------------------------------------------------- cursor

  /** item is the current item; index and off are the place in its segments. */
  datatype Cursor = Cursor(item: nat, total: nat, resid: nat, index: nat, off: nat)

  /** The place of the cursor in its item's bytes. */
  ghost function At(items: seq<Item>, c: Cursor): nat
    requires c.item < |items| && c.index <= |items[c.item].Segs()|
  {
    Start(items[c.item].Segs(), c.index) + c.off
  }

  /** The cursor stands inside its item, with resid bytes of it to go. */
  ghost predicate InItem(items: seq<Item>, c: Cursor)
  {
    && AllValid(items) && c.item < |items| && c.resid <= c.total
    && var it := items[c.item];
    && (c.resid > 0 ==> c.index < |it.Segs()| && c.off < |it.Segs()[c.index]|
                        && it.Base() <= At(items, c) && At(items, c) + c.resid <= it.Base() + it.Len())
    && (it.PageList? && c.resid > 0 ==> At(items, c) + c.resid == it.length)
    && c.total - c.resid <= |Payload(items[c.item + 1..])|
    && WholeLists(items[c.item + 1..], c.total - c.resid)
  }

  /** The bytes still to be handed out. */
  ghost function Remaining(items: seq<Item>, c: Cursor): seq<bv8>
    requires InItem(items, c)
  {
    CurrentBytes(items, c) + Payload(items[c.item + 1..])[..c.total - c.resid]
  }

  ghost function CurrentBytes(items: seq<Item>, c: Cursor): seq<bv8>
    requires InItem(items, c)
  {
    if c.resid == 0 then [] else
    assert At(items, c) + c.resid <= |Flat(items[c.item].Segs())| by { Fits(items[c.item]); }
    Flat(items[c.item].Segs())[At(items, c)..At(items, c) + c.resid]
  }

  /** __ceph_msg_data_cursor_init */
  function AtItem(items: seq<Item>, item: nat, total: nat): Cursor
    requires item < |items|
  {
    var n := items[item].Len();
    Cursor(item, total, if total <= n then total else n, 0, items[item].Base())
  }

  lemma AtItemIs(items: seq<Item>, item: nat, total: nat)
    requires AllValid(items) && item < |items| && total <= |Payload(items[item..])| && WholeLists(items[item..], total) && total > 0
    ensures
      var c := AtItem(items, item, total);
      InItem(items, c) && Remaining(items, c) == Payload(items[item..])[..total]
  {
    var it, c, rest := items[item], AtItem(items, item, total), items[item + 1..];
    assert items[item..][0] == it && items[item..][1..] == rest;
    Fits(it);
    assert it.Segs()[..0] == [];
    assert Start(it.Segs(), 0) == 0;
    assert Payload(items[item..]) == it.Content() + Payload(rest);
    hide Flat, Payload;
    SliceOfSlice(Flat(it.Segs()), it.Base(), it.Base() + it.Len(), 0, c.resid);
    assert CurrentBytes(items, c) == it.Content()[..c.resid];
    assert Payload(items[item..])[..total] == it.Content()[..c.resid] + Payload(rest)[..total - c.resid];
  }

  /** The length of the piece at the cursor. */
  function PieceLen(items: seq<Item>, c: Cursor): nat
    requires c.item < |items| && c.index < |items[c.item].Segs()| && c.off <= |items[c.item].Segs()[c.index]|
  {
    var left := |items[c.item].Segs()[c.index]| - c.off;
    if c.resid <= left then c.resid else left
  }

  /** The piece at the cursor is what comes next. */
  lemma PieceIsNext(items: seq<Item>, c: Cursor)
    requires InItem(items, c) && c.resid > 0
    ensures
      var n := PieceLen(items, c);
      && 0 < n <= c.resid && n <= |Remaining(items, c)| == c.total
      && items[c.item].Segs()[c.index][c.off..c.off + n] == Remaining(items, c)[..n]
  {
    var segs, n := items[c.item].Segs(), PieceLen(items, c);
    Fits(items[c.item]);
    PieceAt(segs, c.index, c.off, n);
    hide Flat, Payload;
    SliceOfSlice(Flat(segs), At(items, c), At(items, c) + c.resid, 0, n);
    assert Remaining(items, c)[..n] == CurrentBytes(items, c)[..n];
  }

  /** The cursor after n bytes, before it moves on to another item. */
  ghost predicate Moved(items: seq<Item>, c: Cursor, c': Cursor, n: nat)
    requires c.item < |items|
  {
    && n <= c.resid <= c.total && c'.item == c.item && c'.total == c.total - n && c'.resid == c.resid - n
    && (c'.resid > 0 ==>
          && c.index <= |items[c.item].Segs()| && c'.index < |items[c.item].Segs()| && c'.off < |items[c.item].Segs()[c'.index]|
          && At(items, c') == At(items, c) + n)
  }

  lemma MovedIs(items: seq<Item>, c: Cursor, c': Cursor, n: nat)
    requires InItem(items, c) && Moved(items, c, c', n)
    ensures InItem(items, c') && |Remaining(items, c)| == c.total && Remaining(items, c') == Remaining(items, c)[n..]
  {
    Fits(items[c.item]);
    hide Flat, Payload, WholeLists;
    var more := Payload(items[c.item + 1..])[..c.total - c.resid];
    assert |CurrentBytes(items, c)| == c.resid;
    if c'.resid > 0 {
      SliceOfSlice(Flat(items[c.item].Segs()), At(items, c), At(items, c) + c.resid, n, c.resid);
    }
    hide At;
    assert CurrentBytes(items, c') == CurrentBytes(items, c)[n..];
    hide InItem;
    Tail(CurrentBytes(items, c), more, n);
  }

  lemma Tail(a: seq<bv8>, b: seq<bv8>, n: nat)
    requires n <= |a|
    ensures (a + b)[n..] == a[n..] + b
  {
  }

  /** An item that is used up gives way to the next one. */
  lemma NextItemIs(items: seq<Item>, c: Cursor)
    requires InItem(items, c) && c.resid == 0 && c.total > 0
    ensures c.item + 1 < |items| && items[c.item + 1].Valid() && InItem(items, AtItem(items, c.item + 1, c.total))
    ensures Remaining(items, AtItem(items, c.item + 1, c.total)) == Remaining(items, c)
  {
    var rest := items[c.item + 1..];
    assert rest != [] by { PayloadNone(); }
    AtItemIs(items, c.item + 1, c.total);
    hide InItem, Payload, AtItem;
    assert Remaining(items, c) == Payload(rest)[..c.total] by { NothingHere(items, c); }
  }

  lemma PayloadNone()
    ensures Payload([]) == []
  {
  }

  lemma NothingHere(items: seq<Item>, c: Cursor)
    requires InItem(items, c) && c.resid == 0
    ensures c.total <= |Payload(items[c.item + 1..])| && Remaining(items, c) == Payload(items[c.item + 1..])[..c.total]
  {
    hide Payload;
  }

  // --------------------------------------------------- the cursor as it is kept

  /** A step within a segment, or over its end into the next one. */
  lemma StepIs(items: seq<Item>, c: Cursor, c': Cursor, n: nat)
    requires InItem(items, c) && c.resid > 0 && n <= PieceLen(items, c)
    requires c'.item == c.item && c'.total == c.total - n && c'.resid == c.resid - n
    requires
      var len := |items[c.item].Segs()[c.index]|;
      c'.resid > 0 ==> if c.off + n < len then c'.index == c.index && c'.off == c.off + n else c'.index == c.index + 1 && c'.off == 0
    ensures Moved(items, c, c', n)
  {
    if c'.resid > 0 && c.off + n == |items[c.item].Segs()[c.index]| {
      var it := items[c.item];
      StartNext(it.Segs(), c.index);
      Fits(it);
      MoreSegments(it, c.index + 1, At(items, c) + n);
    }
  }

  /** Before the end of an item's bytes there is another segment, and it is not empty. */
  lemma MoreSegments(it: Item, i: nat, at: nat)
    requires it.Valid() && i <= |it.Segs()| && at == Start(it.Segs(), i) && at < |Flat(it.Segs())|
    ensures i < |it.Segs()| && 0 < |it.Segs()[i]|
  {
    assert it.Segs()[..|it.Segs()|] == it.Segs();
  }

  /** The cursor after n bytes of the piece at it, moved on to the next item if this one is used up. */
  function Stepped(items: seq<Item>, c: Cursor, n: nat): Cursor
    requires c.item < |items| && c.index < |items[c.item].Segs()| && n <= c.resid <= c.total
  {
    var len := |items[c.item].Segs()[c.index]|;
    if c.resid > n then
      if c.off + n < len then Cursor(c.item, c.total - n, c.resid - n, c.index, c.off + n)
      else Cursor(c.item, c.total - n, c.resid - n, c.index + 1, 0)
    else if c.total > n && c.item + 1 < |items| then AtItem(items, c.item + 1, c.total - n)
    else Cursor(c.item, c.total - n, 0, 0, 0)
  }

  /** The same place, as far as it matters. */
  predicate SamePlace(a: Cursor, b: Cursor)
  {
    a.total == b.total && (a.total > 0 ==> a.item == b.item && a.resid == b.resid && (a.resid > 0 ==> a == b))
  }

  class DataIter {
    const items: seq<Item>
    var item: nat
    var total: nat
    var resid: nat
    var pageIndex: nat
    var pageOffset: nat
    var pageCount: nat
    var listPage: nat
    var listOffset: nat
    var vecIndex: nat
    var vecDone: nat

    /** The place of the cursor, whichever fields hold it. */
    ghost function View(): Cursor
      reads this
      requires item < |items|
    {
      match items[item]
      case Pages(_, _, _) => Cursor(item, total, resid, pageIndex, pageOffset)
      case PageList(_, _) => Cursor(item, total, resid, listPage, listOffset % PAGE_SIZE)
      case Bvecs(_, _, _) => Cursor(item, total, resid, vecIndex, vecDone)
    }

    ghost predicate Valid()
      reads this
    {
      && item < |items| && InItem(items, View())
      && (items[item].Pages? ==> pageCount == |items[item].pages|)
      && (items[item].PageList? && resid > 0 ==> listOffset / PAGE_SIZE == listPage)
    }

    /** ceph_msg_data_cursor_init: the first length bytes of the items */
    constructor (its: seq<Item>, length: nat)
      requires AllValid(its) && 0 < length <= |Payload(its)| && WholeLists(its, length)
      ensures items == its && total == length && Valid() && Remaining(items, View()) == Payload(its)[..length]
      ensures View() == AtItem(its, 0, length)
    {
      items := its;
      item, total, resid := 0, length, 0;
      pageIndex, pageOffset, pageCount, listPage, listOffset, vecIndex, vecDone := 0, 0, 0, 0, 0, 0, 0;
      new;
      assert its != [] by { PayloadNone(); }
      assert its[0..] == its;
      AtItemIs(its, 0, length);
      hide InItem, Payload, WholeLists;
      SetUp();
    }

    /** __ceph_msg_data_cursor_init */
    method SetUp()
      requires item < |items| && items[item].Valid() && total > 0
      modifies this`resid, this`pageIndex, this`pageOffset, this`pageCount, this`listPage, this`listOffset, this`vecIndex, this`vecDone
      ensures View() == AtItem(items, item, total)
      ensures items[item].Pages? ==> pageCount == |items[item].pages|
      ensures items[item].PageList? ==> listOffset == 0 && listPage == 0
    {
      match items[item] {
        case PageList(pages, length) =>
          assert pages != [];
          resid := if total <= length then total else length;
          listPage := 0;
          listOffset := 0;
        case Pages(pages, alignment, length) =>
          assert length > 0;
          resid := if total <= length then total else length;
          pageCount := PagesFor(alignment, length);
          assert pageCount <= 65535;
          pageOffset := alignment % PAGE_SIZE;
          pageIndex := 0;
        case Bvecs(vecs, skip, size) =>
          resid := if total <= size then total else size;
          vecIndex := 0;
          vecDone := skip;
      }
    }

    /** ceph_msg_data_next: the piece at the cursor, which stays where it is */
    method Next() returns (piece: seq<bv8>)
      requires Valid() && resid > 0
      ensures 0 < |piece| <= resid && |piece| == PieceLen(items, View())
      ensures |piece| <= |Remaining(items, View())| && piece == Remaining(items, View())[..|piece|]
    {
      PieceIsNext(items, View());
      ghost var c := View();
      match items[item] {
        case PageList(pages, length) =>
          PagedStart(pages, c.index);
          assert listOffset + resid == length;
          var off := listOffset % PAGE_SIZE;
          var n := if resid <= PAGE_SIZE - off then resid else PAGE_SIZE - off;
          piece := pages[listPage][off..off + n];
        case Pages(pages, _, _) =>
          assert pageIndex < pageCount && pageOffset < PAGE_SIZE;
          var n := if resid <= PAGE_SIZE - pageOffset then resid else PAGE_SIZE - pageOffset;
          piece := pages[pageIndex][pageOffset..pageOffset + n];
        case Bvecs(vecs, _, _) =>
          var left := |vecs[vecIndex]| - vecDone;
          piece := vecs[vecIndex][vecDone..vecDone + if resid <= left then resid else left];
      }
      assert |piece| <= PAGE_SIZE;
    }

    /** ceph_msg_data_pages_advance */
    method PagesAdvance(bytes: nat)
      requires Valid() && items[item].Pages? && 0 < resid && bytes <= PieceLen(items, View()) && bytes <= total
      modifies this
      ensures item == old(item) && total == old(total) && Moved(items, old(View()), View().(total := total - bytes), bytes)
      ensures resid > 0 ==> View().(total := total - bytes) == Stepped(items, old(View()), bytes)
      ensures pageCount == old(pageCount)
    {
      ghost var c := View();
      ghost var len := |items[item].Segs()[pageIndex]|;
      assert len == PAGE_SIZE && pageOffset + bytes <= PAGE_SIZE && pageOffset < PAGE_SIZE && pageIndex < pageCount;
      hide InItem;
      resid := resid - bytes;
      pageOffset := (pageOffset + bytes) % PAGE_SIZE;
      if bytes != 0 && pageOffset == 0 && resid != 0 {
        pageIndex := pageIndex + 1;
      }
      StepIs(items, c, View().(total := total - bytes), bytes);
    }

    /** ceph_msg_data_pagelist_advance */
    method ListAdvance(bytes: nat)
      requires Valid() && items[item].PageList? && 0 < resid && bytes <= PieceLen(items, View()) && bytes <= total
      modifies this
      ensures item == old(item) && total == old(total) && Moved(items, old(View()), View().(total := total - bytes), bytes)
      ensures resid > 0 ==> View().(total := total - bytes) == Stepped(items, old(View()), bytes)
      ensures resid > 0 ==> listOffset / PAGE_SIZE == listPage
    {
      ghost var c := View();
      var off := listOffset % PAGE_SIZE;
      PagedStart(items[item].pages, listPage);
      assert |items[item].Segs()[listPage]| == PAGE_SIZE && off + bytes <= PAGE_SIZE && listOffset + resid == items[item].length;
      assert listOffset == listPage * PAGE_SIZE + off;
      hide InItem;
      resid := resid - bytes;
      listOffset := listOffset + bytes;
      if bytes != 0 && listOffset % PAGE_SIZE == 0 && resid != 0 {
        listPage := listPage + 1;
      }
      StepIs(items, c, View().(total := total - bytes), bytes);
    }

    /** ceph_msg_data_bvecs_advance */
    method VecsAdvance(bytes: nat)
      requires Valid() && items[item].Bvecs? && 0 < resid && bytes <= PieceLen(items, View()) && bytes <= total
      modifies this
      ensures item == old(item) && total == old(total) && Moved(items, old(View()), View().(total := total - bytes), bytes)
      ensures resid > 0 ==> View().(total := total - bytes) == Stepped(items, old(View()), bytes)
    {
      ghost var c := View();
      assert bytes <= |items[item].vecs[vecIndex]| - vecDone;
      resid := resid - bytes;
      vecDone := vecDone + bytes;
      if vecDone == |items[item].vecs[vecIndex]| {
        vecIndex := vecIndex + 1;
        vecDone := 0;
      }
      hide InItem;
      StepIs(items, c, View().(total := total - bytes), bytes);
    }

    /** The part of ceph_msg_data_advance that stays in the item. */
    method AdvanceWithin(bytes: nat)
      requires Valid() && 0 < resid && bytes <= PieceLen(items, View()) && bytes <= resid <= total
      modifies this
      ensures Valid() && item == old(item) && total == old(total) - bytes && resid == old(resid) - bytes
      ensures resid > 0 ==> View() == Stepped(items, old(View()), bytes)
      ensures bytes <= |old(Remaining(items, View()))| && Remaining(items, View()) == old(Remaining(items, View()))[bytes..]
    {
      hide InItem, PieceLen;
      ghost var c := View();
      match items[item] {
        case PageList(_, _) => ListAdvance(bytes);
        case Pages(_, _, _) => PagesAdvance(bytes);
        case Bvecs(_, _, _) => VecsAdvance(bytes);
      }
      hide Moved;
      total := total - bytes;
      MovedIs(items, c, View(), bytes);
    }

    /** The part of ceph_msg_data_advance that moves on. */
    method NextItem()
      requires Valid() && resid == 0 && total > 0
      modifies this
      ensures Valid() && item == old(item) + 1 && total == old(total) && View() == AtItem(items, item, total)
      ensures Remaining(items, View()) == old(Remaining(items, View()))
    {
      hide InItem, Remaining;
      ghost var c := View();
      NextItemIs(items, c);
      ghost var next := AtItem(items, c.item + 1, c.total);
      item := item + 1;
      SetUp();
      assert View() == next;
    }

    /** ceph_msg_data_advance: on by part of the piece, and to the next item at the end of this one */
    method Advance(bytes: nat)
      requires Valid() && bytes <= resid && (resid > 0 ==> bytes <= PieceLen(items, View()))
      modifies this
      ensures Valid() && total == old(total) - bytes
      ensures bytes <= |old(Remaining(items, View()))| && Remaining(items, View()) == old(Remaining(items, View()))[bytes..]
      ensures old(resid) == 0 && old(total) > 0 ==> item == old(item) + 1 && View() == AtItem(items, item, total)
      ensures old(resid) > 0 ==> SamePlace(View(), Stepped(items, old(View()), bytes))
    {
      assert resid <= total;
      hide InItem, PieceLen, Remaining;
      if resid > 0 {
        AdvanceWithin(bytes);
      } else {
        assert Remaining(items, View())[0..] == Remaining(items, View());
      }
      if resid == 0 && total > 0 {
        NextItem();
      }
    }

    /** get_bvec_at: the next piece, past items without bytes */
    method GetPiece() returns (piece: seq<bv8>)
      requires Valid() && total > 0
      modifies this
      ensures Valid() && total == old(total) && Remaining(items, View()) == old(Remaining(items, View()))
      ensures 0 < |piece| <= resid && |piece| == PieceLen(items, View())
      ensures |piece| <= |Remaining(items, View())| && piece == Remaining(items, View())[..|piece|]
    {
      hide InItem, PieceLen, Remaining;
      while resid == 0
        invariant Valid() && total == old(total) && Remaining(items, View()) == old(Remaining(items, View()))
        decreases |items| - item
      {
        hide View;
        NothingBut(Remaining(items, View()));
        Advance(0);
      }
      piece := Next();
    }
  }

  lemma NothingBut(s: seq<bv8>)
    ensures s[0..] == s
  {
  }

  /** Takes no more than k bytes, all from one piece. */
  method TakePortion(c: DataIter, k: nat) returns (got: seq<bv8>)
    requires c.Valid() && c.total > 0
    modifies c
    ensures c.Valid() && c.total == old(c.total) - |got| && |got| <= k
    ensures |got| <= |old(Remaining(c.items, c.View()))| && got == old(Remaining(c.items, c.View()))[..|got|]
    ensures Remaining(c.items, c.View()) == old(Remaining(c.items, c.View()))[|got|..]
  {
    hide InItem, PieceLen, Remaining, Stepped;
    var piece := c.GetPiece();
    var n := if k <= |piece| then k else |piece|;
    ghost var before := Remaining(c.items, c.View());
    c.Advance(n);
    got := piece[..n];
    assert before[..|piece|][..n] == before[..n];
  }

  /** Takes the first length bytes of the items in portions of any size. */
  method TakeInPortions(its: seq<Item>, length: nat, portions: seq<nat>) returns (out: seq<bv8>, left: nat)
    requires AllValid(its) && 0 < length <= |Payload(its)| && WholeLists(its, length)
    ensures |out| + left == length && out == Payload(its)[..|out|]
  {
    hide InItem, Remaining, Payload, WholeLists, AtItem, AllValid;
    var c := new DataIter(its, length);
    ghost var all := Payload(its)[..length];
    ghost var rest := all;
    out := [];
    for i := 0 to |portions|
      invariant c.Valid() && c.items == its && |out| + c.total == length
      invariant Remaining(its, c.View()) == rest && out + rest == all
    {
      if c.total > 0 {
        var got := TakePortion(c, portions[i]);
        Portion(out, rest, |got|);
        out, rest := out + got, rest[|got|..];
      }
    }
    left := c.total;
    assert all[..|out|] == Payload(its)[..|out|];
  }

  lemma Portion(out: seq<bv8>, rest: seq<bv8>, n: nat)
    requires n <= |rest|
    ensures out + rest[..n] + rest[n..] == out + rest
  {
    assert rest[..n] + rest[n..] == rest;
  }

  /** A page list can be walked exactly when it is asked for in full: otherwise the first step is a bug. */
  lemma PageListInFull(items: seq<Item>, item: nat, total: nat)
    requires item < |items| && items[item].PageList? && items[item].Valid() && total > 0 && items[item].length > 0
    ensures
      var c := AtItem(items, item, total);
      c.index * PAGE_SIZE + c.off + c.resid == items[item].length <==> items[item].length <= total
  {
  }
}
