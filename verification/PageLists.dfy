/** Page lists: bytes appended to a list of pages, with room at the end of the last one and pages in reserve. */
module PageLists {
  import opened Wire
  import opened DataCursor

  /** Bytes written into a page. */
  function Written(page: seq<bv8>, off: nat, bytes: seq<bv8>): (p: seq<bv8>)
    requires off + |bytes| <= |page|
    ensures |p| == |page|
  {
    page[..off] + bytes + page[off + |bytes|..]
  }

  /** Writing at the end of what a list holds appends to it. */
  lemma WriteAppends(pages: seq<seq<bv8>>, length: nat, bytes: seq<bv8>)
    requires Paged(pages) && pages != [] && length + |bytes| <= |pages| * PAGE_SIZE && (|pages| - 1) * PAGE_SIZE <= length
    ensures
      var last := |pages| - 1;
      var off := length - last * PAGE_SIZE;
      var pages' := pages[last := Written(pages[last], off, bytes)];
      && Paged(pages') && |Flat(pages)| == |Flat(pages')| == |pages| * PAGE_SIZE
      && Flat(pages')[..length + |bytes|] == Flat(pages)[..length] + bytes
  {
    var last := |pages| - 1;
    var off := length - last * PAGE_SIZE;
    var page := Written(pages[last], off, bytes);
    var pages' := pages[last := page];
    PagedStart(pages, last);
    var init := pages[..last];
    assert pages'[..last] == init;
    assert Flat(pages) == Flat(init) + pages[last] && Flat(pages') == Flat(init) + page;
    hide Flat;
    assert (Flat(init) + page)[..length + |bytes|] == Flat(init) + page[..off + |bytes|];
    assert page[..off + |bytes|] == pages[last][..off] + bytes;
    assert (Flat(init) + pages[last])[..length] == Flat(init) + pages[last][..off];
  }

  class PageBuffer {
    var pages: seq<seq<bv8>>
    var length: nat
    var room: nat
    var free: nat

    ghost predicate Valid()
      reads this
    {
      Paged(pages) && length + room == |pages| * PAGE_SIZE && room <= PAGE_SIZE
    }

    /** What has been appended so far. */
    ghost function Content(): seq<bv8>
      reads this
      requires Valid()
    {
      assert |Flat(pages)| == |pages| * PAGE_SIZE by { PagedStart(pages, |pages|); assert pages[..|pages|] == pages; }
      Flat(pages)[..length]
    }

    constructor ()
      ensures Valid() && Content() == [] && room == 0 && free == 0
    {
      pages, length, room, free := [], 0, 0, 0;
    }

    /** ceph_pagelist_addpage: a page from the reserve, or a new one if there is memory */
    method AddPage(memory: bool) returns (ok: bool)
      requires Valid() && room == 0
      modifies this
      ensures Valid() && length == old(length) && Content() == old(Content())
      ensures ok <==> memory || old(free) > 0
      ensures ok ==> room == PAGE_SIZE && free == if old(free) > 0 then old(free) - 1 else 0
      ensures !ok ==> room == 0 && free == old(free)
    {
      if free == 0 {
        if !memory {
          return false;
        }
      } else {
        free := free - 1;
      }
      PagedStart(pages, |pages|);
      assert pages[..|pages|] == pages;
      ghost var before := Flat(pages);
      room := room + PAGE_SIZE;
      assert (pages + [Zeros(PAGE_SIZE)])[..|pages|] == pages;
      pages := pages + [Zeros(PAGE_SIZE)];
      assert Flat(pages) == before + Zeros(PAGE_SIZE);
      assert Flat(pages)[..length] == before[..length];
      return true;
    }

    /** memcpy to the tail, and the bookkeeping after it */
    method Put(bytes: seq<bv8>)
      requires Valid() && |bytes| <= room
      modifies this`pages, this`length, this`room
      ensures Valid() && room == old(room) - |bytes| && Content() == old(Content()) + bytes
    {
      if bytes == [] {
        assert Content() + [] == Content();
        return;
      }
      var last := |pages| - 1;
      WriteAppends(pages, length, bytes);
      var off := length % PAGE_SIZE;
      assert off == length - last * PAGE_SIZE;
      pages := pages[last := Written(pages[last], off, bytes)];
      length := length + |bytes|;
      room := room - |bytes|;
    }

    /** ceph_pagelist_append; memory says whether a new page can be had */
    method Append(buf: seq<bv8>, memory: bool) returns (ok: bool)
      requires Valid()
      modifies this
      ensures Valid() && old(Content()) <= Content() <= old(Content()) + buf
      ensures ok ==> Content() == old(Content()) + buf
      ensures memory || |buf| <= old(room + free * PAGE_SIZE) ==> ok
    {
      ghost var start := Content();
      var rest := buf;
      ghost var n := 0;
      while room < |rest|
        invariant Valid() && n <= |buf| && rest == buf[n..] && Content() == start + buf[..n]
        invariant room + free * PAGE_SIZE + n >= old(room + free * PAGE_SIZE)
        decreases |rest| + PAGE_SIZE - room
      {
        var bit := room;
        ghost var before := Content();
        Put(rest[..bit]);
        assert before + rest[..bit] == start + buf[..n + bit];
        assert rest[bit..] == buf[n + bit..];
        rest := rest[bit..];
        n := n + bit;
        ok := AddPage(memory);
        if !ok {
          assert start + buf[..n] <= start + buf by { assert start + buf == start + buf[..n] + buf[n..]; }
          return;
        }
      }
      Put(rest);
      assert start + buf[..n] + rest == start + buf;
      ok := true;
    }

    /** ceph_pagelist_reserve: enough pages that appending space bytes cannot fail; gives says how many pages can be had */
    method Reserve(space: nat, gives: nat) returns (ok: bool)
      requires Valid()
      modifies this`free
      ensures Valid() && Content() == old(Content())
      ensures ok ==> space <= room + free * PAGE_SIZE
      ensures free >= old(free)
    {
      if space <= room {
        return true;
      }
      var need := (space - room + PAGE_SIZE - 1) / PAGE_SIZE;
      var got := 0;
      while need > free
        invariant free >= old(free)
        decreases need - free
      {
        if got >= gives {
          return false;
        }
        got := got + 1;
        free := free + 1;
      }
      assert need * PAGE_SIZE >= space - room;
      assert free * PAGE_SIZE >= need * PAGE_SIZE;
      return true;
    }
  }

  /** A page list that holds something can be sent as a data item, and shows what was appended. */
  lemma SentAsAppended(pages: seq<seq<bv8>>, length: nat)
    requires Paged(pages) && pages != [] && length <= |pages| * PAGE_SIZE
    ensures
      var item := PageList(pages, length);
      && item.Valid() && length <= |Flat(pages)| && AllValid([item]) && Payload([item]) == Flat(pages)[..length]
      && WholeLists([item], length)
  {
    var item := PageList(pages, length);
    Fits(item);
    assert [item][1..] == [];
    PayloadNone();
    assert item.Content() + [] == item.Content();
  }
}
