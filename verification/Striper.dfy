/**
 File striping: the map from file bytes to object bytes of ceph_calc_file_object_mapping,
 its inverse, and the number of objects a file of a given size occupies.
 */
module StripeMap {
  import opened Arithmetic

  /** A file layout: stripe unit, stripe count and object size, in bytes. */
  datatype Layout = Layout(su: nat, sc: nat, objectSize: nat) {

    /** The object size is a positive multiple of the stripe unit. */
    ghost predicate Valid() {
      su > 0 && sc > 0 && objectSize > 0 && objectSize % su == 0
    }

    /** Stripe units per object. */
    function Spo(): nat
      requires su > 0
    {
      objectSize / su
    }

    lemma SpoPositive()
      requires Valid()
      ensures Spo() > 0 && su * Spo() == objectSize
    {
      DivBounds(objectSize, su);
    }
  }

  /** A byte of an object. */
  datatype Place = Place(objno: nat, off: nat)

  /** Where file byte off lives. */
  function Locate(l: Layout, off: nat): Place
    requires l.Valid()
  {
    l.SpoPositive();
    var blockno, blockoff := off / l.su, off % l.su;
    var stripeno, stripepos := blockno / l.sc, blockno % l.sc;
    DivBounds(off, l.su); DivBounds(blockno, l.sc); DivBounds(stripeno, l.Spo());
    var objsetno, objsetpos := stripeno / l.Spo(), stripeno % l.Spo();
    Place(objsetno * l.sc + stripepos, objsetpos * l.su + blockoff)
  }

  /** The number of bytes of a run of len bytes at off that stay in its stripe unit. */
  function UnitLength(l: Layout, off: nat, len: nat): (n: nat)
    requires l.Valid()
    ensures n <= len && (len > 0 ==> n > 0)
  {
    if len <= l.su - off % l.su then len else l.su - off % l.su
  }

  /** The file offset of byte blockoff of the stripe unit that holds byte off of object objno. */
  function ReverseOffset(l: Layout, objno: nat, off: nat, blockoff: nat): nat
    requires l.Valid()
  {
    DivBounds(objno, l.sc); DivBounds(off, l.su);
    var objsetno, stripepos := objno / l.sc, objno % l.sc;
    var stripeno := off / l.su + objsetno * l.Spo();
    var blockno := stripeno * l.sc + stripepos;
    blockno * l.su + blockoff
  }

  /** The file byte that lives at byte off of object objno. */
  function FileByte(l: Layout, objno: nat, off: nat): nat
    requires l.Valid()
  {
    ReverseOffset(l, objno, off, off % l.su)
  }

  // ---------------------------------------------------------- the bijection

  lemma LocateParts(l: Layout, off: nat)
    requires l.Valid()
    ensures
      var b := off / l.su;
      var p := Locate(l, off);
      && p.objno / l.sc == b / l.sc / l.Spo() && p.objno % l.sc == b % l.sc
      && p.off / l.su == b / l.sc % l.Spo() && p.off % l.su == off % l.su
      && p.off < l.objectSize
  {
    l.SpoPositive();
    var b := off / l.su;
    DivBounds(off, l.su); DivBounds(b, l.sc); DivBounds(b / l.sc, l.Spo());
    var p := Locate(l, off);
    var pos := b / l.sc % l.Spo();
    DivModUnique(p.objno, l.sc, b / l.sc / l.Spo(), b % l.sc);
    DivModUnique(p.off, l.su, pos, off % l.su);
    MulMono(pos + 1, l.Spo(), l.su);
    MulDistrib(l.su, pos, 1);
  }

  lemma FileByteParts(l: Layout, objno: nat, off: nat)
    requires l.Valid()
    ensures
      var f := FileByte(l, objno, off);
      && f % l.su == off % l.su && f / l.su % l.sc == objno % l.sc
      && f / l.su / l.sc == off / l.su + (objno / l.sc) * l.Spo()
  {
    DivBounds(objno, l.sc); DivBounds(off, l.su);
    var stripeno := off / l.su + (objno / l.sc) * l.Spo();
    var blockno := stripeno * l.sc + objno % l.sc;
    DivModUnique(blockno, l.sc, stripeno, objno % l.sc);
    DivModUnique(FileByte(l, objno, off), l.su, blockno, off % l.su);
  }

  /** Inverting the forward map gives back the file byte. */
  lemma FileByteOfLocate(l: Layout, f: nat)
    requires l.Valid()
    ensures FileByte(l, Locate(l, f).objno, Locate(l, f).off) == f
  {
    l.SpoPositive();
    LocateParts(l, f);
    DivBounds(f, l.su); DivBounds(f / l.su, l.sc); DivBounds(f / l.su / l.sc, l.Spo());
  }

  /** The forward map sends the file byte of an object byte back there exactly inside the object. */
  lemma LocateOfFileByte(l: Layout, objno: nat, off: nat)
    requires l.Valid()
    ensures Locate(l, FileByte(l, objno, off)) == Place(objno, off) <==> off < l.objectSize
  {
    l.SpoPositive();
    LocateParts(l, FileByte(l, objno, off));
    if off < l.objectSize {
      FileByteParts(l, objno, off);
      DivBounds(off, l.su); DivBounds(objno, l.sc);
      var q := off / l.su;
      if q >= l.Spo() { MulMono(l.Spo(), q, l.su); }
      DivModUnique(q + (objno / l.sc) * l.Spo(), l.Spo(), objno / l.sc, q);
    }
  }

  /** Along an object, file bytes only increase. */
  lemma FileByteMonotone(l: Layout, objno: nat, off1: nat, off2: nat)
    requires l.Valid() && off1 < off2
    ensures FileByte(l, objno, off1) < FileByte(l, objno, off2)
  {
    DivBounds(off1, l.su); DivBounds(off2, l.su); DivBounds(objno, l.sc);
    DivMono(off1, off2, l.su);
    var c := (objno / l.sc) * l.Spo();
    var s1, s2 := off1 / l.su + c, off2 / l.su + c;
    if s1 < s2 {
      MulMono(s1 + 1, s2, l.sc);
      MulDistrib(l.sc, s1, 1);
      var b1, b2 := s1 * l.sc + objno % l.sc, s2 * l.sc + objno % l.sc;
      MulMono(b1 + 1, b2, l.su);
      MulDistrib(l.su, b1, 1);
    }
  }

  /** A run inside one stripe unit lies in one object, in order. */
  lemma LocateWithinUnit(l: Layout, off: nat, len: nat, d: nat)
    requires l.Valid() && d < UnitLength(l, off, len)
    ensures Locate(l, off + d) == Place(Locate(l, off).objno, Locate(l, off).off + d)
  {
    DivBounds(off, l.su);
    DivModUnique(off + d, l.su, off / l.su, off % l.su + d);
  }

  // ----------------------------------------------------- counting objects

  function CeilDiv(a: nat, d: nat): int
    requires d > 0
  {
    (a + d - 1) / d
  }

  lemma CeilDivExact(a: nat, d: nat, x: nat)
    requires d > 0
    ensures x * d < a <==> x < CeilDiv(a, d)
  {
    var c := CeilDiv(a, d);
    DivBounds(a + d - 1, d);
    if x < c {
      MulMono(x + 1, c, d);
    } else {
      MulMono(c, x, d);
    }
    MulDistrib(d, x, 1);
  }

  /** ceph_get_num_objects */
  function NumObjects(l: Layout, size: nat): int
    requires l.Valid()
  {
    MulPositive(l.sc, l.objectSize);
    var period := l.sc * l.objectSize;
    var remainder := size % period;
    var missing := if 0 < remainder < l.sc * l.su then l.sc - CeilDiv(remainder, l.su) else 0;
    CeilDiv(size, period) * l.sc - missing
  }

  /** The first byte of an object in the file. */
  lemma FirstByte(l: Layout, o: nat)
    requires l.Valid()
    ensures FileByte(l, o, 0) == (o / l.sc) * (l.sc * l.objectSize) + (o % l.sc) * l.su
    ensures (o % l.sc) * l.su < l.sc * l.su <= l.sc * l.objectSize
  {
    l.SpoPositive();
    DivBounds(o, l.sc);
    DivModUnique(0, l.su, 0, 0);
    var a, b, p := o / l.sc, o % l.sc, l.Spo();
    calc {
      FileByte(l, o, 0);
      (a * p * l.sc + b) * l.su;
      { MulDistrib(l.su, a * p * l.sc, b); }
      a * p * l.sc * l.su + b * l.su;
      { MulAssoc(a * p, l.sc, l.su); MulAssoc(a, p, l.sc * l.su); }
      a * (p * (l.sc * l.su)) + b * l.su;
      { MulAssoc(p, l.sc, l.su); }
      a * (l.sc * (p * l.su)) + b * l.su;
    }
    MulMono(b + 1, l.sc, l.su);
    MulDistrib(l.su, b, 1);
    MulMono(1, p, l.su);
    MulMono(l.su, l.objectSize, l.sc);
  }

  /** Comparing two-digit numbers whose low digits stay within the base d. */
  lemma LexLess(d: nat, a: int, x: nat, p: int, y: nat)
    requires x < d && y <= d
    ensures a * d + x < p * d + y <==> a < p || (a == p && x < y)
  {
    if a < p {
      MulMono(a + 1, p, d);
      MulDistrib(d, a, 1);
    } else if a > p {
      MulMono(p + 1, a, d);
      MulDistrib(d, p, 1);
    }
  }

  /** Objects of the last, partial period of a file with r bytes in it. */
  function PartialObjects(l: Layout, r: nat): int
    requires l.Valid()
  {
    if r == 0 then 0 else if r < l.sc * l.su then CeilDiv(r, l.su) else l.sc
  }

  lemma NumObjectsParts(l: Layout, size: nat)
    requires l.Valid() && l.sc * l.objectSize > 0
    ensures
      var period := l.sc * l.objectSize;
      var m := PartialObjects(l, size % period);
      NumObjects(l, size) == (size / period) * l.sc + m && 0 <= m <= l.sc
  {
    var period := l.sc * l.objectSize;
    var p, r := size / period, size % period;
    DivBounds(size, period);
    MulDistrib(period, p, 1);
    MulDistrib(l.sc, p, 1);
    if r == 0 {
      DivModUnique(size + period - 1, period, p, period - 1);
    } else {
      DivModUnique(size + period - 1, period, p + 1, r - 1);
      CeilDivExact(r, l.su, 0);
      CeilDivExact(r, l.su, l.sc);
    }
  }

  lemma PartialExact(l: Layout, r: nat, b: nat)
    requires l.Valid() && b < l.sc
    ensures b * l.su < r <==> b < PartialObjects(l, r)
  {
    CeilDivExact(r, l.su, b);
    MulMono(b + 1, l.sc, l.su);
    MulDistrib(l.su, b, 1);
  }

  /** Object o begins below size exactly when it is among the counted ones. */
  lemma NumObjectsBegins(l: Layout, size: nat, o: nat)
    requires l.Valid()
    ensures FileByte(l, o, 0) < size <==> o < NumObjects(l, size)
  {
    MulPositive(l.sc, l.objectSize);
    var period := l.sc * l.objectSize;
    var p, r, a, b := size / period, size % period, o / l.sc, o % l.sc;
    DivBounds(o, l.sc);
    DivBounds(size, period);
    FirstByte(l, o);
    NumObjectsParts(l, size);
    PartialExact(l, r, b);
    LexLess(period, a, b * l.su, p, r);
    LexLess(l.sc, a, b, p, PartialObjects(l, r));
  }

  /** The objects that bytes 0, ..., size - 1 of a file live in. */
  ghost function Touched(l: Layout, size: nat): set<nat>
    requires l.Valid()
  {
    set f: nat | 0 <= f < size :: Locate(l, f).objno
  }

  /** The set of the first n natural numbers. */
  ghost function FirstNats(n: nat): (r: set<nat>)
    ensures |r| == n
    ensures forall o: nat :: o in r <==> o < n
  {
    if n == 0 then {} else
      var rest := FirstNats(n - 1);
      assert n - 1 !in rest;
      rest + {n - 1}
  }

  /** ceph_get_num_objects counts the objects of a file, and they are numbered from zero. */
  lemma NumObjectsExact(l: Layout, size: nat)
    requires l.Valid()
    ensures NumObjects(l, size) >= 0
    ensures Touched(l, size) == FirstNats(NumObjects(l, size))
    ensures |Touched(l, size)| == NumObjects(l, size)
  {
    var n := NumObjects(l, size);
    MulPositive(l.sc, l.objectSize);
    NumObjectsParts(l, size);
    DivBounds(size, l.sc * l.objectSize);
    MulMono(0, size / (l.sc * l.objectSize), l.sc);
    forall o: nat
      ensures o in Touched(l, size) <==> o < n
    {
      NumObjectsBegins(l, size, o);
      if o < n {
        LocateOfFileByte(l, o, 0);
        assert Locate(l, FileByte(l, o, 0)).objno == o;
      }
      if o in Touched(l, size) {
        var f: nat :| 0 <= f < size && Locate(l, f).objno == o;
        FileByteOfLocate(l, f);
        if Locate(l, f).off > 0 { FileByteMonotone(l, o, 0, Locate(l, f).off); }
      }
    }
    assert Touched(l, size) == FirstNats(n);
  }

  // ------------------------------------------- object extent to file extents

  datatype FileExtent = FileExtent(off: nat, len: nat)

  datatype Errno = Ok | ENOMEM | EINVAL

  function Total(fes: seq<FileExtent>): nat
  {
    if |fes| == 0 then 0 else Total(fes[..|fes| - 1]) + fes[|fes| - 1].len
  }

  ghost predicate Hits(l: Layout, objno: nat, start: nat, fe: FileExtent, e: nat)
    requires l.Valid()
  {
    fe.off + e == FileByte(l, objno, start + e)
  }

  /** A file extent that lists, in order, the file bytes of an object from byte start on. */
  ghost predicate Lists(l: Layout, objno: nat, start: nat, fe: FileExtent)
    requires l.Valid()
  {
    fe.len > 0 && forall e :: 0 <= e < fe.len ==> Hits(l, objno, start, fe, e)
  }

  /** The extents list, one after the other and increasing, the bytes of an object from start on. */
  ghost predicate ListsFrom(l: Layout, objno: nat, start: nat, fes: seq<FileExtent>)
    requires l.Valid()
  {
    && (forall j :: 0 <= j < |fes| ==> ListsPiece(l, objno, start, fes, j))
    && Increasing(fes)
  }

  ghost predicate ListsPiece(l: Layout, objno: nat, start: nat, fes: seq<FileExtent>, j: nat)
    requires l.Valid() && j < |fes|
  {
    Lists(l, objno, start + Total(fes[..j]), fes[j])
  }

  ghost predicate Increasing(fes: seq<FileExtent>)
  {
    forall i, j :: 0 <= i < j < |fes| ==> fes[i].off + fes[i].len <= fes[j].off
  }

  lemma IncreasingAppend(fes: seq<FileExtent>, fe: FileExtent)
    requires Increasing(fes)
    requires |fes| > 0 ==> fes[|fes| - 1].off + fes[|fes| - 1].len <= fe.off
    ensures Increasing(fes + [fe])
  {
    forall i | 0 <= i < |fes|
      ensures fes[i].off + fes[i].len <= fe.off
    {
      if i < |fes| - 1 { assert fes[i].off + fes[i].len <= fes[|fes| - 1].off; }
    }
  }

  lemma FileByteWithinUnit(l: Layout, objno: nat, off: nat, e: nat)
    requires l.Valid() && off % l.su + e < l.su
    ensures FileByte(l, objno, off + e) == FileByte(l, objno, off) + e
  {
    DivBounds(off, l.su);
    DivModUnique(off + e, l.su, off / l.su, off % l.su + e);
  }

  lemma ListsAppend(l: Layout, objno: nat, start: nat, fes: seq<FileExtent>, fe: FileExtent)
    requires l.Valid() && ListsFrom(l, objno, start, fes)
    requires fe.len > 0 && fe.off == FileByte(l, objno, start + Total(fes))
    requires (start + Total(fes)) % l.su + fe.len <= l.su
    ensures ListsFrom(l, objno, start, fes + [fe])
    ensures Total(fes + [fe]) == Total(fes) + fe.len
  {
    var all, n, at := fes + [fe], |fes|, start + Total(fes);
    assert all[..n] == fes;
    forall e | 0 <= e < fe.len
      ensures Hits(l, objno, at, fe, e)
    {
      FileByteWithinUnit(l, objno, at, e);
    }
    forall j | 0 <= j < |all|
      ensures ListsPiece(l, objno, start, all, j)
    {
      if j < n { assert all[..j] == fes[..j] && ListsPiece(l, objno, start, fes, j); }
    }
    if n > 0 {
      assert ListsPiece(l, objno, start, fes, n - 1);
      EndsBelow(l, objno, start + Total(fes[..n - 1]), fes[n - 1], at);
    }
    IncreasingAppend(fes, fe);
  }

  lemma EndsBelow(l: Layout, objno: nat, start: nat, fe: FileExtent, next: nat)
    requires l.Valid() && Lists(l, objno, start, fe) && next == start + fe.len
    ensures fe.off + fe.len <= FileByte(l, objno, next)
  {
    assert Hits(l, objno, start, fe, fe.len - 1);
    FileByteMonotone(l, objno, next - 1, next);
  }

  /** Moving past the end of a stripe unit, or of the extent, uses up one of the counted pieces. */
  lemma PieceCount(l: Layout, off: nat, len: nat, x: nat)
    requires l.Valid() && 0 < x <= len && off % l.su + x <= l.su
    requires x < len ==> off % l.su + x == l.su
    ensures CeilDiv(off + len, l.su) - off / l.su
         == 1 + (if x == len then 0 else CeilDiv(off + len, l.su) - (off + x) / l.su)
    ensures CeilDiv(off + len, l.su) - off / l.su >= 1
    ensures x < len ==> (off + x) % l.su == 0
  {
    var q := off / l.su;
    DivBounds(off, l.su);
    MulDistrib(l.su, q, 1);
    if x < len {
      DivModUnique(off + x, l.su, q + 1, 0);
      DivMono(off + x, off + len + l.su - 1, l.su);
    } else {
      DivModUnique(off + len + l.su - 1, l.su, q + 1, off % l.su + len - 1);
    }
  }

  /**
   ceph_extent_to_file: the file extents of an object extent, into an array of the
   precomputed size, which they fill exactly.
   */
  method ExtentToFile(l: Layout, objno: nat, objoff: nat, objlen: nat, canAlloc: bool)
    returns (err: Errno, fes: seq<FileExtent>)
    requires l.Valid()
    ensures err == if objlen > 0 && !canAlloc then ENOMEM else Ok
    ensures err == Ok ==> ListsFrom(l, objno, objoff, fes) && Total(fes) == objlen
    ensures err == Ok ==> |fes| == if objlen == 0 then 0 else CeilDiv(objoff + objlen, l.su) - objoff / l.su
  {
    if objlen == 0 {
      return Ok, [];
    }
    var num := CeilDiv(objoff + objlen, l.su) - objoff / l.su;
    if !canAlloc {
      return ENOMEM, [];
    }
    DivMono(objoff, objoff + objlen + l.su - 1, l.su);
    var a := new FileExtent[num];
    var off: nat, left: nat, blockoff, i := objoff, objlen, objoff % l.su, 0;
    assert a[..0] == [];
    while left > 0
      invariant 0 <= i <= num && num - i == if left == 0 then 0 else CeilDiv(objoff + objlen, l.su) - off / l.su
      invariant off == objoff + Total(a[..i]) && off + left == objoff + objlen
      invariant left > 0 ==> blockoff == off % l.su
      invariant ListsFrom(l, objno, objoff, a[..i])
      decreases left
    {
      var fileOff := ReverseOffset(l, objno, off, blockoff);
      var len := if left <= l.su - blockoff then left else l.su - blockoff;
      PieceCount(l, off, left, len);
      ListsAppend(l, objno, objoff, a[..i], FileExtent(fileOff, len));
      ghost var before := a[..i];
      a[i] := FileExtent(fileOff, len);
      assert a[..i + 1] == before + [FileExtent(fileOff, len)];
      blockoff := 0;
      off := off + len;
      left := left - len;
      i := i + 1;
    }
    fes := a[..];
    assert a[..i] == a[..];
    err := Ok;
  }
}
