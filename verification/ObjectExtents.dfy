/**
 The sorted list of object extents a file extent maps to: ceph_file_to_extents,
 which builds it by merging stripe units, and ceph_iterate_extents, which walks it.
 */
module ObjectExtents {
  import opened Arithmetic
  import opened StripeMap

  datatype Extent = Extent(objno: nat, off: nat, len: nat)

  ghost predicate Holds(e: Extent, o: nat, x: nat)
  {
    e.objno == o && e.off <= x < e.off + e.len
  }

  /** Byte x of object o is in some extent of the list. */
  ghost predicate Covered(xs: seq<Extent>, o: nat, x: nat)
  {
    exists e :: e in xs && Holds(e, o, x)
  }

  /** a comes before b, with a gap between them when they share an object. */
  predicate Before(a: Extent, b: Extent)
  {
    a.objno < b.objno || (a.objno == b.objno && a.off + a.len < b.off)
  }

  ghost predicate Sorted(xs: seq<Extent>)
  {
    forall i, j :: 0 <= i < j < |xs| ==> Before(xs[i], xs[j])
  }

  ghost predicate Within(ranges: seq<FileExtent>, f: nat)
  {
    exists r :: r in ranges && r.off <= f < r.off + r.len
  }

  /** The list is sorted, without empty extents, and covers exactly the image of the ranges. */
  ghost predicate Maps(l: Layout, xs: seq<Extent>, ranges: seq<FileExtent>)
    requires l.Valid()
  {
    && Sorted(xs)
    && (forall e :: e in xs ==> e.len > 0)
    && (forall o: nat, x: nat :: Covered(xs, o, x) <==> x < l.objectSize && Within(ranges, FileByte(l, o, x)))
  }

  // ------------------------------------------------------- adding one unit

  /** What is already there for the object of cur lies below its byte of that object. */
  lemma CoveredBelow(l: Layout, xs: seq<Extent>, ranges: seq<FileExtent>, cur: nat, e: Extent)
    requires l.Valid() && Maps(l, xs, ranges) && e in xs && e.objno == Locate(l, cur).objno
    requires forall f: nat :: Within(ranges, f) ==> f < cur
    ensures e.off + e.len <= Locate(l, cur).off
  {
    var p := Locate(l, cur);
    var last := e.off + e.len - 1;
    assert Holds(e, e.objno, last) && Covered(xs, e.objno, last);
    FileByteOfLocate(l, cur);
    if p.off < last { FileByteMonotone(l, p.objno, p.off, last); }
  }

  /** The object bytes of a unit are exactly the places of its file bytes. */
  lemma UnitImage(l: Layout, cur: nat, len: nat, o: nat, x: nat)
    requires l.Valid()
    ensures
      var p, n := Locate(l, cur), UnitLength(l, cur, len);
      (o == p.objno && p.off <= x < p.off + n)
      <==> (x < l.objectSize && cur <= FileByte(l, o, x) < cur + n)
  {
    var p, n := Locate(l, cur), UnitLength(l, cur, len);
    if o == p.objno && p.off <= x < p.off + n {
      LocateWithinUnit(l, cur, len, x - p.off);
      FileByteOfLocate(l, cur + (x - p.off));
      LocateParts(l, cur + (x - p.off));
    }
    if x < l.objectSize && cur <= FileByte(l, o, x) < cur + n {
      LocateOfFileByte(l, o, x);
      LocateWithinUnit(l, cur, len, FileByte(l, o, x) - cur);
    }
  }

  function InsertAt(xs: seq<Extent>, k: nat, e: Extent): seq<Extent>
    requires k <= |xs|
  {
    xs[..k] + [e] + xs[k..]
  }

  lemma InsertSorted(xs: seq<Extent>, k: nat, e: Extent)
    requires k <= |xs| && Sorted(xs)
    requires forall i :: 0 <= i < k ==> Before(xs[i], e)
    requires forall i :: k <= i < |xs| ==> Before(e, xs[i])
    ensures Sorted(InsertAt(xs, k, e))
    ensures forall d :: d in InsertAt(xs, k, e) <==> d == e || d in xs
  {
    var ys := InsertAt(xs, k, e);
    forall i | 0 <= i < |ys|
      ensures ys[i] == if i < k then xs[i] else if i == k then e else xs[i - 1]
    {
    }
    forall d | d in xs
      ensures d in ys
    {
      var i :| 0 <= i < |xs| && xs[i] == d;
      assert ys[if i < k then i else i + 1] == d;
    }
    assert ys[k] == e;
  }

  lemma GrowSorted(xs: seq<Extent>, k: nat, n: nat)
    requires k < |xs| && Sorted(xs)
    requires forall i :: k < i < |xs| ==> xs[k].objno < xs[i].objno
    ensures Sorted(xs[k := xs[k].(len := xs[k].len + n)])
  {
  }

  /** Growing extent k by n bytes covers those bytes more and nothing else. */
  lemma GrowCovered(xs: seq<Extent>, k: nat, n: nat, o: nat, x: nat)
    requires k < |xs|
    ensures
      var e := xs[k];
      Covered(xs[k := e.(len := e.len + n)], o, x)
      <==> Covered(xs, o, x) || (o == e.objno && e.off + e.len <= x < e.off + e.len + n)
  {
    var e := xs[k];
    var e' := e.(len := e.len + n);
    var ys := xs[k := e'];
    assert ys[k] == e';
    if Covered(xs, o, x) {
      var d :| d in xs && Holds(d, o, x);
      var i :| 0 <= i < |xs| && xs[i] == d;
      assert ys[i] in ys && Holds(ys[i], o, x);
    }
    if Covered(ys, o, x) {
      var d :| d in ys && Holds(d, o, x);
      if d != e' {
        var i :| 0 <= i < |ys| && ys[i] == d;
        assert xs[i] in xs;
      } else if x < e.off + e.len {
        assert Holds(e, o, x) && e in xs;
      }
    }
    if o == e.objno && e.off + e.len <= x < e.off + e.len + n {
      assert e' in ys && Holds(e', o, x);
    }
  }

  lemma InsertCovered(xs: seq<Extent>, ys: seq<Extent>, e: Extent, o: nat, x: nat)
    requires forall d :: d in ys <==> d == e || d in xs
    ensures Covered(ys, o, x) <==> Covered(xs, o, x) || Holds(e, o, x)
  {
    if Covered(xs, o, x) {
      var d :| d in xs && Holds(d, o, x);
      assert d in ys;
    }
    if Holds(e, o, x) { assert e in ys; }
  }

  /** The ranges mapped when a call that began at off has reached cur. */
  function Ranges(done: seq<FileExtent>, off: nat, cur: nat): seq<FileExtent>
    requires off <= cur
  {
    done + [FileExtent(off, cur - off)]
  }

  lemma RangesGrow(done: seq<FileExtent>, off: nat, cur: nat, n: nat, f: nat)
    requires off <= cur
    ensures Within(Ranges(done, off, cur + n), f) <==> Within(Ranges(done, off, cur), f) || cur <= f < cur + n
    ensures Within(Ranges(done, off, cur), f) <==> Within(done, f) || off <= f < cur
  {
    RangesWithin(done, off, cur, f);
    RangesWithin(done, off, cur + n, f);
  }

  lemma RangesWithin(done: seq<FileExtent>, off: nat, cur: nat, f: nat)
    requires off <= cur
    ensures Within(Ranges(done, off, cur), f) <==> Within(done, f) || off <= f < cur
  {
    var rs := Ranges(done, off, cur);
    assert rs[|done|] == FileExtent(off, cur - off);
    if Within(done, f) {
      var r :| r in done && r.off <= f < r.off + r.len;
      assert r in rs;
    }
  }

  /** A list that covers one more unit maps the ranges up to the end of that unit. */
  lemma MapsMore(l: Layout, xs: seq<Extent>, ys: seq<Extent>, done: seq<FileExtent>, off: nat, cur: nat, len: nat)
    requires l.Valid() && off <= cur && Maps(l, xs, Ranges(done, off, cur))
    requires Sorted(ys) && forall e :: e in ys ==> e.len > 0
    requires
      var p, n := Locate(l, cur), UnitLength(l, cur, len);
      forall o: nat, x: nat :: Covered(ys, o, x) <==> Covered(xs, o, x) || (o == p.objno && p.off <= x < p.off + n)
    ensures Maps(l, ys, Ranges(done, off, cur + UnitLength(l, cur, len)))
  {
    var n := UnitLength(l, cur, len);
    forall o: nat, x: nat
      ensures Covered(ys, o, x) <==> x < l.objectSize && Within(Ranges(done, off, cur + n), FileByte(l, o, x))
    {
      UnitImage(l, cur, len, o, x);
      RangesGrow(done, off, cur, n, FileByte(l, o, x));
    }
  }

  /** The unit at cur, joined to an extent that ends where the unit begins. */
  lemma MergeUnit(l: Layout, xs: seq<Extent>, done: seq<FileExtent>, off: nat, cur: nat, len: nat, k: nat)
    requires l.Valid() && off <= cur && Maps(l, xs, Ranges(done, off, cur)) && k < |xs|
    requires xs[k].objno == Locate(l, cur).objno && xs[k].off + xs[k].len == Locate(l, cur).off
    requires forall i :: k < i < |xs| ==> xs[k].objno < xs[i].objno
    ensures
      var n := UnitLength(l, cur, len);
      Maps(l, xs[k := xs[k].(len := xs[k].len + n)], Ranges(done, off, cur + n))
  {
    var n := UnitLength(l, cur, len);
    var ys := xs[k := xs[k].(len := xs[k].len + n)];
    GrowSorted(xs, k, n);
    forall o: nat, x: nat
      ensures Covered(ys, o, x)
              <==> Covered(xs, o, x) || (o == xs[k].objno && xs[k].off + xs[k].len <= x < xs[k].off + xs[k].len + n)
    {
      GrowCovered(xs, k, n, o, x);
    }
    MapsMore(l, xs, ys, done, off, cur, len);
  }

  /** The unit at cur, as a new extent at position k. */
  lemma InsertUnit(l: Layout, xs: seq<Extent>, done: seq<FileExtent>, off: nat, cur: nat, len: nat, k: nat)
    requires l.Valid() && off <= cur && Maps(l, xs, Ranges(done, off, cur)) && k <= |xs| && len > 0
    requires forall f: nat :: Within(done, f) ==> f < off
    requires k > 0 ==> xs[k - 1].objno <= Locate(l, cur).objno
    requires forall i :: k <= i < |xs| ==> xs[i].objno > Locate(l, cur).objno
    requires k > 0 && xs[k - 1].objno == Locate(l, cur).objno ==>
               xs[k - 1].off + xs[k - 1].len != Locate(l, cur).off
    ensures
      var p, n := Locate(l, cur), UnitLength(l, cur, len);
      Maps(l, InsertAt(xs, k, Extent(p.objno, p.off, n)), Ranges(done, off, cur + n))
  {
    var p, n := Locate(l, cur), UnitLength(l, cur, len);
    var e := Extent(p.objno, p.off, n);
    forall f: nat | Within(Ranges(done, off, cur), f)
      ensures f < cur
    {
      RangesWithin(done, off, cur, f);
    }
    forall i | 0 <= i < k
      ensures Before(xs[i], e)
    {
      if xs[k - 1].objno == p.objno {
        CoveredBelow(l, xs, Ranges(done, off, cur), cur, xs[k - 1]);
      }
      if i < k - 1 { assert Before(xs[i], xs[k - 1]); }
    }
    InsertSorted(xs, k, e);
    forall o: nat, x: nat
      ensures Covered(InsertAt(xs, k, e), o, x) <==> Covered(xs, o, x) || Holds(e, o, x)
    {
      InsertCovered(xs, InsertAt(xs, k, e), e, o, x);
    }
    MapsMore(l, xs, InsertAt(xs, k, e), done, off, cur, len);
  }

  // -------------------------------------------------------------- the list

  class ExtentList {
    var extents: seq<Extent>

    constructor ()
      ensures extents == []
    {
      extents := [];
    }

    /** lookup_last: the last extent of objno, or the place where one would go. */
    method LookupLast(objno: nat) returns (found: bool, pos: nat)
      ensures found ==> pos < |extents| && extents[pos].objno == objno
      ensures found ==> forall i :: pos < i < |extents| ==> extents[i].objno > objno
      ensures !found ==> pos <= |extents| && (pos > 0 ==> extents[pos - 1].objno < objno)
      ensures !found ==> forall i :: pos <= i < |extents| ==> extents[i].objno > objno
    {
      pos := |extents|;
      while pos > 0
        invariant pos <= |extents|
        invariant forall i :: pos <= i < |extents| ==> extents[i].objno > objno
      {
        if extents[pos - 1].objno == objno {
          return true, pos - 1;
        }
        if extents[pos - 1].objno < objno {
          break;
        }
        pos := pos - 1;
      }
      found := false;
    }

    /** The pass over the finished list that guards against unsorted callers. */
    method IsSorted() returns (ok: bool)
      ensures ok <==> Sorted(extents)
    {
      var i := 1;
      while i < |extents|
        invariant 1 <= i && (i <= |extents| || |extents| == 0)
        invariant forall a, b :: 0 <= a < b < i && b < |extents| ==> Before(extents[a], extents[b])
      {
        if !Before(extents[i - 1], extents[i]) {
          return false;
        }
        forall a | 0 <= a < i
          ensures Before(extents[a], extents[i])
        {
          if a < i - 1 { assert Before(extents[a], extents[i - 1]); }
        }
        i := i + 1;
      }
      ok := true;
    }

    /** One turn of the mapping loop: the stripe unit of cur joins the list, if memory allows. */
    method AddUnit(l: Layout, cur: nat, len: nat, canAlloc: bool, ghost done: seq<FileExtent>, ghost off: nat)
      returns (xlen: nat, added: bool, ok: bool)
      requires l.Valid() && len > 0 && off <= cur
      modifies this
      ensures xlen == UnitLength(l, cur, len)
      ensures !ok ==> extents == old(extents) && !canAlloc
      ensures added ==> canAlloc && |extents| == |old(extents)| + 1
      ensures ok && !added ==> |extents| == |old(extents)|
      ensures (forall f: nat :: Within(done, f) ==> f < off) && Maps(l, old(extents), Ranges(done, off, cur)) && ok ==>
                Maps(l, extents, Ranges(done, off, cur + xlen))
    {
      var p := Locate(l, cur);
      xlen := UnitLength(l, cur, len);
      var found, pos := LookupLast(p.objno);
      added, ok := false, true;
      ghost var before := extents;
      ghost var mapped := (forall f: nat :: Within(done, f) ==> f < off) && Maps(l, extents, Ranges(done, off, cur));
      if found && extents[pos].off + extents[pos].len == p.off {
        var e := extents[pos];
        extents := extents[pos := e.(len := e.len + xlen)];
        if mapped { MergeUnit(l, before, done, off, cur, len, pos); }
      } else if !canAlloc {
        ok := false;
      } else {
        added := true;
        var k := if found then pos + 1 else pos;
        extents := InsertAt(extents, k, Extent(p.objno, p.off, xlen));
        if mapped { InsertUnit(l, before, done, off, cur, len, k); }
      }
    }

    /**
     ceph_file_to_extents, with room for budget new extents. The ranges mapped before this
     call are done. When they all lie below off, and the list maps them, the list ends up
     mapping them and what was reached of the new range, and is never found unsorted.
     */
    method FileToExtents(l: Layout, off: nat, len: nat, budget: nat, ghost done: seq<FileExtent>)
      returns (err: Errno, ghost reached: nat)
      requires l.Valid()
      modifies this
      ensures off <= reached <= off + len && (err != ENOMEM ==> reached == off + len)
      ensures err == ENOMEM ==> |extents| == |old(extents)| + budget && reached < off + len
      ensures err == EINVAL <==> reached == off + len && !Sorted(extents)
      ensures (forall f: nat :: Within(done, f) ==> f < off) && Maps(l, old(extents), done) ==>
                err != EINVAL && Maps(l, extents, Ranges(done, off, reached))
    {
      var cur, left, allocs: nat := off, len, 0;
      ghost var mapped := (forall f: nat :: Within(done, f) ==> f < off) && Maps(l, extents, done);
      if mapped { StartsMapped(l, extents, done, off); }
      while left > 0
        invariant cur + left == off + len && off <= cur && allocs <= budget
        invariant |extents| == |old(extents)| + allocs
        invariant mapped ==> Maps(l, extents, Ranges(done, off, cur))
        decreases left
      {
        var xlen, added, ok := AddUnit(l, cur, left, allocs < budget, done, off);
        if !ok {
          return ENOMEM, cur;
        }
        if added { allocs := allocs + 1; }
        cur := cur + xlen;
        left := left - xlen;
      }
      var sorted := IsSorted();
      err := if sorted then Ok else EINVAL;
      reached := cur;
    }
  }

  lemma StartsMapped(l: Layout, xs: seq<Extent>, done: seq<FileExtent>, off: nat)
    requires l.Valid() && Maps(l, xs, done)
    ensures Maps(l, xs, Ranges(done, off, off))
  {
    forall o: nat, x: nat
      ensures Covered(xs, o, x) <==> x < l.objectSize && Within(Ranges(done, off, off), FileByte(l, o, x))
    {
      RangesWithin(done, off, off, FileByte(l, o, x));
    }
  }

  // ------------------------------------------------- one extent per object

  ghost predicate HasObject(xs: seq<Extent>, o: nat)
  {
    exists e :: e in xs && e.objno == o
  }

  ghost predicate TouchedBy(l: Layout, off: nat, len: nat, o: nat)
    requires l.Valid()
  {
    exists f: nat :: off <= f < off + len && Locate(l, f).objno == o
  }

  /**
   A list that maps a single file range has one extent for each object the range touches,
   and none for the others.
   */
  lemma OneExtentPerObject(l: Layout, xs: seq<Extent>, off: nat, len: nat)
    requires l.Valid() && Maps(l, xs, [FileExtent(off, len)])
    ensures forall i, j :: 0 <= i < j < |xs| ==> xs[i].objno < xs[j].objno
    ensures forall o: nat :: HasObject(xs, o) <==> TouchedBy(l, off, len, o)
  {
    var ranges := [FileExtent(off, len)];
    forall i, j | 0 <= i < j < |xs|
      ensures xs[i].objno < xs[j].objno
    {
      var a, b := xs[i], xs[j];
      assert Before(a, b);
      if a.objno == b.objno {
        assert Holds(a, a.objno, a.off + a.len - 1) && Holds(b, a.objno, b.off);
        EndsFree(xs, i);
        NoHoles(l, xs, off, len, a.objno, a.off + a.len - 1, a.off + a.len, b.off);
      }
    }
    forall o: nat
      ensures HasObject(xs, o) <==> TouchedBy(l, off, len, o)
    {
      if TouchedBy(l, off, len, o) {
        var f: nat :| off <= f < off + len && Locate(l, f).objno == o;
        FileByteOfLocate(l, f);
        LocateParts(l, f);
        assert FileExtent(off, len) in ranges && Within(ranges, f);
        assert Covered(xs, o, Locate(l, f).off);
      }
      if HasObject(xs, o) {
        var e :| e in xs && e.objno == o;
        assert Holds(e, o, e.off) && Covered(xs, o, e.off);
        LocateOfFileByte(l, o, e.off);
        assert Within(ranges, FileByte(l, o, e.off));
      }
    }
  }

  /** The byte right after an extent is in no extent. */
  lemma EndsFree(xs: seq<Extent>, i: nat)
    requires Sorted(xs) && i < |xs|
    ensures !Covered(xs, xs[i].objno, xs[i].off + xs[i].len)
  {
    forall e | e in xs
      ensures !Holds(e, xs[i].objno, xs[i].off + xs[i].len)
    {
      var k :| 0 <= k < |xs| && xs[k] == e;
      if k < i {
        assert Before(xs[k], xs[i]);
      } else if k > i {
        assert Before(xs[i], xs[k]);
      }
    }
  }

  /** Within one mapped range the covered bytes of an object have no holes. */
  lemma NoHoles(l: Layout, xs: seq<Extent>, off: nat, len: nat, o: nat, x: nat, y: nat, z: nat)
    requires l.Valid() && Maps(l, xs, [FileExtent(off, len)]) && x < y < z
    requires Covered(xs, o, x) && Covered(xs, o, z)
    ensures Covered(xs, o, y)
  {
    var ranges := [FileExtent(off, len)];
    FileByteMonotone(l, o, x, y);
    FileByteMonotone(l, o, y, z);
    assert FileExtent(off, len) in ranges;
    assert Within(ranges, FileByte(l, o, y));
  }

  // ------------------------------------------------------ walking the list

  ghost predicate Contains(e: Extent, o: nat, x: nat, n: nat)
  {
    e.objno == o && e.off <= x && x + n <= e.off + e.len
  }

  /** In a list with gaps between its extents, a covered run lies inside a single one. */
  lemma {:induction false} CoveredRun(xs: seq<Extent>, o: nat, x: nat, n: nat) returns (k: nat)
    requires Sorted(xs) && n > 0
    requires forall y :: x <= y < x + n ==> Covered(xs, o, y)
    ensures k < |xs| && Contains(xs[k], o, x, n)
    decreases n
  {
    assert Covered(xs, o, x + n - 1);
    var e :| e in xs && Holds(e, o, x + n - 1);
    k :| 0 <= k < |xs| && xs[k] == e;
    if n > 1 {
      var j := CoveredRun(xs, o, x, n - 1);
      var y: nat := x + n - 2;
      if j != k { Separate(xs, j, k, o, y); }
    }
  }

  lemma Separate(xs: seq<Extent>, j: nat, k: nat, o: nat, y: nat)
    requires Sorted(xs) && j < |xs| && k < |xs| && j != k && Holds(xs[j], o, y)
    ensures !Holds(xs[k], o, y + 1)
  {
    if j < k {
      assert Before(xs[j], xs[k]);
    } else {
      assert Before(xs[k], xs[j]);
    }
  }

  /** lookup_containing */
  method LookupContaining(xs: seq<Extent>, o: nat, x: nat, n: nat) returns (found: bool, k: nat)
    ensures found ==> k < |xs| && Contains(xs[k], o, x, n)
    ensures Sorted(xs) && !found ==> forall e :: e in xs ==> !Contains(e, o, x, n)
  {
    k := 0;
    while k < |xs|
      invariant k <= |xs|
      invariant forall i :: 0 <= i < k ==> !Contains(xs[i], o, x, n)
    {
      if xs[k].objno == o && xs[k].off <= x && xs[k].off + xs[k].len >= x + n {
        return true, k;
      }
      if xs[k].objno > o {
        assert Sorted(xs) ==> forall i :: k < i < |xs| ==> Before(xs[k], xs[i]);
        break;
      }
      k := k + 1;
    }
    found := false;
  }

  ghost predicate AllCovered(l: Layout, xs: seq<Extent>, off: nat, end: nat)
    requires l.Valid()
  {
    forall f: nat :: off <= f < end ==> Covered(xs, Locate(l, f).objno, Locate(l, f).off)
  }

  lemma UnitCovered(l: Layout, xs: seq<Extent>, cur: nat, len: nat)
    requires l.Valid() && Sorted(xs) && len > 0 && AllCovered(l, xs, cur, cur + UnitLength(l, cur, len))
    ensures exists e :: e in xs && Contains(e, Locate(l, cur).objno, Locate(l, cur).off, UnitLength(l, cur, len))
  {
    var p, n := Locate(l, cur), UnitLength(l, cur, len);
    forall y | p.off <= y < p.off + n
      ensures Covered(xs, p.objno, y)
    {
      LocateWithinUnit(l, cur, len, y - p.off);
      assert Covered(xs, Locate(l, cur + (y - p.off)).objno, Locate(l, cur + (y - p.off)).off);
    }
    var k := CoveredRun(xs, p.objno, p.off, n);
    assert xs[k] in xs;
  }

  lemma ContainedCovers(l: Layout, xs: seq<Extent>, cur: nat, len: nat, k: nat)
    requires l.Valid() && k < |xs|
    requires Contains(xs[k], Locate(l, cur).objno, Locate(l, cur).off, UnitLength(l, cur, len))
    ensures AllCovered(l, xs, cur, cur + UnitLength(l, cur, len))
  {
    forall f: nat | cur <= f < cur + UnitLength(l, cur, len)
      ensures Covered(xs, Locate(l, f).objno, Locate(l, f).off)
    {
      LocateWithinUnit(l, cur, len, f - cur);
      assert xs[k] in xs && Holds(xs[k], Locate(l, f).objno, Locate(l, f).off);
    }
  }

  /**
   ceph_iterate_extents: on a sorted list it succeeds exactly when every byte of the
   range is covered. The lengths handed to the callback add up to what was walked.
   */
  method IterateExtents(l: Layout, xs: seq<Extent>, off: nat, len: nat)
    returns (err: Errno, walked: nat)
    requires l.Valid()
    ensures err == Ok ==> walked == len && AllCovered(l, xs, off, off + len)
    ensures Sorted(xs) ==> (err == Ok <==> AllCovered(l, xs, off, off + len))
    ensures err == Ok || err == EINVAL
  {
    var cur: nat, left: nat := off, len;
    walked := 0;
    while left > 0
      invariant cur + left == off + len && walked == cur - off
      invariant AllCovered(l, xs, off, cur)
      decreases left
    {
      var p := Locate(l, cur);
      var xlen := UnitLength(l, cur, left);
      var found, k := LookupContaining(xs, p.objno, p.off, xlen);
      if !found {
        if Sorted(xs) && AllCovered(l, xs, off, off + len) {
          UnitCovered(l, xs, cur, left);
        }
        return EINVAL, walked;
      }
      ContainedCovers(l, xs, cur, left, k);
      walked := walked + xlen;
      cur := cur + xlen;
      left := left - xlen;
    }
    err := Ok;
  }

  /** Any part of the mapped ranges can be walked afterwards. */
  lemma MappedIsCovered(l: Layout, xs: seq<Extent>, ranges: seq<FileExtent>, off: nat, len: nat)
    requires l.Valid() && Maps(l, xs, ranges)
    requires forall f: nat :: off <= f < off + len ==> Within(ranges, f)
    ensures AllCovered(l, xs, off, off + len)
  {
    forall f: nat | off <= f < off + len
      ensures Covered(xs, Locate(l, f).objno, Locate(l, f).off)
    {
      FileByteOfLocate(l, f);
      LocateParts(l, f);
    }
  }
}
