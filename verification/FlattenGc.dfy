/**
 Deleting with flatten in the background: the calls the driver and any number of garbage
 collectors make, in any interleaving, with workers dying at any point.
 */
module FlattenGc {
  import opened RbdStore

  // --------------------------------------------------------------------- names

  const TRASH_PREFIX := "xcp-trash-"
  const CLONE_SNAP_PREFIX := "xcp-clonebase-"

  predicate IsTrash(name: string)
  {
    TRASH_PREFIX <= name
  }

  predicate IsCloneBase(name: string)
  {
    CLONE_SNAP_PREFIX <= name
  }

  predicate IsHex(c: char)
  {
    '0' <= c <= '9' || 'a' <= c <= 'f' || 'A' <= c <= 'F'
  }

  /** UUID_RE: 8-4-4-4-12 hexadecimal digits; the pattern's end also matches before a final newline. */
  predicate IsUuid(name: string)
  {
    && (|name| == 36 || (|name| == 37 && name[36] == '\n'))
    && forall i :: 0 <= i < 36 ==> if i == 8 || i == 13 || i == 18 || i == 23 then name[i] == '-' else IsHex(name[i])
  }

  /** Trash and clone-base names are never taken for a VDI. */
  lemma HiddenNames(name: string)
    requires IsTrash(name) || IsCloneBase(name)
    ensures !IsUuid(name)
  {
    assert name[0] == 'x';
  }

  // ------------------------------------------------------ how calls change images

  ghost predicate SameSnap(image: string, a: Snapshot, b: Snapshot, c: Call)
  {
    && (b.layer.parent == a.layer.parent || b.layer.parent == None)
    && (b.name == a.name || (c.SnapRename? && image == c.image && a.name == c.snap && b.name == c.to))
  }

  ghost predicate NewSnap(a: Image, b: Snapshot, c: Call)
  {
    c.SnapCreate? && b.name == c.snap && b.layer.parent == a.head.parent && a.name == c.image
  }

  /** An image before and after a call. */
  ghost predicate Grows(a: Image, b: Image, next: nat, c: Call)
  {
    && (b.head.parent == a.head.parent || b.head.parent == None)
    && (b.name == a.name || (c.ImageRename? && a.name == c.image && b.name == c.to))
    && forall k :: k in b.snaps ==>
         if k in a.snaps then SameSnap(a.name, a.snaps[k], b.snaps[k], c) else k == next && NewSnap(a, b.snaps[k], c)
  }

  /** An image that a call has made. */
  ghost predicate Born(s: Store, b: Image, c: Call)
  {
    && b.snaps == map[]
    && ((c.Create? && b.name == c.image && b.head.parent == None) || (c.Clone? && b.name == c.dst && ClonedFrom(s, b, c)))
  }

  ghost predicate ClonedFrom(s: Store, b: Image, c: Call)
    requires c.Clone?
  {
    b.head.parent.Some? &&
    var Ref(i, k) := b.head.parent.value;
    i in s.images && k in s.images[i].snaps && s.images[i].name == c.image && s.images[i].snaps[k].name == c.snap
  }

  ghost predicate Evolves(s: Store, s': Store, c: Call)
  {
    && s.next <= s'.next
    && forall j :: j in s'.images ==>
         if j in s.images then Grows(s.images[j], s'.images[j], s.next, c)
         else j == s.next && Born(s, s'.images[j], c)
  }

  lemma Unchanged(a: Image, next: nat, c: Call)
    ensures Grows(a, a, next, c)
  {
  }

  lemma SnapCallGrows(s: Store, c: Call, id: nat, snap: string)
    requires Wf(s) && id in s.images && SnapOf(c) == Some(snap) && snap in s.images[id].snapDir && !c.Clone?
    requires s.images[id].name == c.image
    requires s.images[id].snapDir[snap] in s.images[id].snaps && ApplySnap(s, id, snap, c).Done?
    requires s.images[id].snaps[s.images[id].snapDir[snap]].name == snap
    ensures
      var s' := ApplySnap(s, id, snap, c).store;
      s'.images == s.images[id := s'.images[id]] && Grows(s.images[id], s'.images[id], s.next, c)
  {
    hide Wf, Children;
  }

  lemma ImageCallGrows(s: Store, c: Call, id: nat)
    requires id in s.images && s.images[id].name == c.image && SnapOf(c) == None && !c.Create? && !c.Remove?
    requires s.next !in s.images[id].snaps
    requires ApplyImage(s, id, c).Done?
    ensures
      var s' := ApplyImage(s, id, c).store;
      s'.images == s.images[id := s'.images[id]] && Grows(s.images[id], s'.images[id], s.next, c) && s.next <= s'.next
  {
    hide View;
  }

  lemma OneGrows(s: Store, s': Store, c: Call, id: nat)
    requires s.next <= s'.next && id in s.images && id in s'.images && s'.images == s.images[id := s'.images[id]]
    requires Grows(s.images[id], s'.images[id], s.next, c)
    ensures Evolves(s, s', c)
  {
    forall j | j in s'.images
      ensures j in s.images && Grows(s.images[j], s'.images[j], s.next, c)
    {
      if j != id { Unchanged(s.images[j], s.next, c); }
    }
  }

  lemma BornEvolves(s: Store, c: Call, b: Image)
    requires Born(s, b, c)
    ensures Evolves(s, AddImage(s, b), c) || s.next in s.images
  {
    var s' := AddImage(s, b);
    if s.next !in s.images {
      forall j | j in s'.images && j in s.images
        ensures Grows(s.images[j], s'.images[j], s.next, c)
      {
        Unchanged(s.images[j], s.next, c);
      }
      hide Grows;
    }
  }

  lemma RemoveEvolves(s: Store, c: Call, id: nat)
    requires id in s.images
    ensures Evolves(s, Store(s.images - {id}, s.dir - {s.images[id].name}, s.next), c)
  {
    var s' := Store(s.images - {id}, s.dir - {s.images[id].name}, s.next);
    forall j | j in s'.images
      ensures Grows(s.images[j], s'.images[j], s.next, c)
    {
      Unchanged(s.images[j], s.next, c);
    }
    hide Grows;
  }

  lemma CallEvolves(s: Store, c: Call)
    requires Wf(s) && Apply(s, c).Done?
    ensures Evolves(s, Apply(s, c).store, c)
  {
    NextIsNew(s);
    if c.Create? {
      BornEvolves(s, c, Image(c.image, c.deep, Layer(map[], None), map[], map[]));
    } else {
      Found(s, c.image);
      var id := s.dir[c.image];
      if c.Clone? {
        var k := s.images[id].snapDir[c.snap];
        hide Wf;
        BornEvolves(s, c, Image(c.dst, c.deep, Layer(map[], Some(Ref(id, k))), map[], map[]));
      } else if c.Remove? {
        RemoveEvolves(s, c, id);
      } else {
        assert s.next !in s.images[id].snaps;
        hide Wf, Evolves, ApplySnap, ApplyImage;
        match SnapOf(c)
        case None => ImageCallGrows(s, c, id); OneGrows(s, ApplyImage(s, id, c).store, c, id);
        case Some(snap) =>
          SnapCallGrows(s, c, id, snap);
          SnapCallNext(s, c, id, snap);
          OneGrows(s, ApplySnap(s, id, snap, c).store, c, id);
      }
    }
  }

  lemma SnapCallNext(s: Store, c: Call, id: nat, snap: string)
    requires id in s.images && snap in s.images[id].snapDir && s.images[id].snapDir[snap] in s.images[id].snaps
    requires ApplySnap(s, id, snap, c).Done?
    ensures id in ApplySnap(s, id, snap, c).store.images && s.next <= ApplySnap(s, id, snap, c).store.next
  {
    hide Children;
  }

  // --------------------------------------------------------------- the discipline

  datatype Job = SnapJob(image: string, snap: string) | ImageJob(image: string)

  /**
   The calls that are ever made: new names are fresh, trash names are only given by renaming
   what is not trash, nothing new hangs off a trashed object, and only an image that is
   wholly freed by it is flattened.
   */
  ghost predicate Permitted(s: Store, used: set<string>, c: Call)
  {
    match c
    case Create(image, _) => image !in used && !IsTrash(image)
    case Write(_, _, _) => true
    case SnapCreate(image, snap) => !IsTrash(image) && snap !in used && !IsTrash(snap)
    case Protect(image, snap) => !IsTrash(image) && !IsTrash(snap)
    case Unprotect(_, _) => true
    case SnapRemove(_, _) => true
    case Clone(image, snap, dst, _) => !IsTrash(image) && !IsTrash(snap) && dst !in used && !IsTrash(dst)
    case Flatten(image) => image in s.dir && s.dir[image] in s.images ==> Frees(s.images[s.dir[image]])
    case ImageRename(image, to) => !IsTrash(image) && IsTrash(to) && to !in used
    case SnapRename(image, snap, to) => !IsTrash(image) && !IsTrash(snap) && IsTrash(to) && to !in used
    case Remove(_) => true
  }

  /** Flattening the image leaves no snapshot of it with a parent. */
  predicate Frees(img: Image)
  {
    img.deep || img.snaps == map[]
  }

  function NewNames(c: Call): set<string>
  {
    match c
    case Create(image, _) => {image}
    case SnapCreate(_, snap) => {snap}
    case Clone(_, _, dst, _) => {dst}
    case ImageRename(_, to) => {to}
    case SnapRename(_, _, to) => {to}
    case _ => {}
  }

  ghost predicate NamesUsed(s: Store, used: set<string>)
  {
    forall id :: id in s.images ==> s.images[id].name in used && forall k :: k in s.images[id].snaps ==> s.images[id].snaps[k].name in used
  }

  ghost predicate StoreInv(s: Store, used: set<string>)
  {
    Wf(s) && FlatHeads(s) && NamesUsed(s, used)
  }

  lemma FlatKept(s: Store, c: Call)
    requires Wf(s) && Apply(s, c).Done? && FlatHeads(s)
    requires c.Flatten? ==> Frees(s.images[s.dir[c.image]])
    ensures FlatHeads(Apply(s, c).store)
  {
    var s' := Apply(s, c).store;
    if c.Create? || c.Clone? || c.Remove? {
      CallEvolves(s, c);
      FlatKeptElsewhere(s, c);
    } else {
      Found(s, c.image);
      FlatKeptHere(s, c, s.dir[c.image]);
    }
  }

  lemma FlatKeptElsewhere(s: Store, c: Call)
    requires Wf(s) && Apply(s, c).Done? && FlatHeads(s) && (c.Create? || c.Clone? || c.Remove?)
    ensures FlatHeads(Apply(s, c).store)
  {
    NextIsNew(s);
    hide Children, GoodImage, GoodDir;
  }

  /** An image that is freed by flattening refers to nothing afterwards. */
  lemma FlattenedFree(images: Images, id: nat)
    requires id in images && Frees(images[id])
    ensures
      var b := Flattened(images, id);
      b.head.parent == None && forall k :: k in b.snaps ==> b.snaps[k].layer.parent == None
  {
    hide View;
  }

  lemma FlatKeptHere(s: Store, c: Call, id: nat)
    requires Wf(s) && Apply(s, c).Done? && FlatHeads(s) && !(c.Create? || c.Clone? || c.Remove?)
    requires c.image in s.dir && id == s.dir[c.image] && id in s.images && s.next !in s.images[id].snaps
    requires c.Flatten? ==> Frees(s.images[id])
    ensures FlatHeads(Apply(s, c).store)
  {
    var s' := Apply(s, c).store;
    CallEvolves(s, c);
    OnlyThisImage(s, c, id);
    hide Apply, Wf;
    var a, b := s.images[id], s'.images[id];
    assert FlatImage(a) && Grows(a, b, s.next, c);
    hide Evolves;
    if c.Flatten? {
      FlattenedFree(s.images, id);
    }
    hide Flattened;
    assert FlatImage(b);
  }

  lemma OnlyThisImage(s: Store, c: Call, id: nat)
    requires Wf(s) && Apply(s, c).Done? && !(c.Create? || c.Clone? || c.Remove?)
    requires c.image in s.dir && id == s.dir[c.image] && id in s.images
    ensures
      var s' := Apply(s, c).store;
      && id in s'.images
      && (s'.images[id].head.parent == s.images[id].head.parent || c.Flatten?)
      && (c.Flatten? ==> s'.images[id] == Flattened(s.images, id))
      && forall j :: j in s'.images && j != id ==> j in s.images && s'.images[j] == s.images[j]
  {
    hide Children, GoodImage, GoodDir, View, Flattened;
  }

  lemma NamesKept(s: Store, s': Store, used: set<string>, c: Call)
    requires NamesUsed(s, used) && Evolves(s, s', c)
    ensures NamesUsed(s', used + NewNames(c))
  {
    hide ClonedFrom;
  }

  lemma StoreInvKept(s: Store, used: set<string>, c: Call)
    requires StoreInv(s, used) && Permitted(s, used, c) && Apply(s, c).Done?
    ensures StoreInv(Apply(s, c).store, used + NewNames(c))
    ensures Kept(s.images, Apply(s, c).store.images, Written(s, c)) && Evolves(s, Apply(s, c).store, c)
  {
    CallKeeps(s, c);
    CallEvolves(s, c);
    assert c.Flatten? ==> Frees(s.images[s.dir[c.image]]) by { if c.Flatten? { Found(s, c.image); } }
    FlatKept(s, c);
    hide Wf, FlatHeads, NamesUsed, Evolves, Kept, Apply;
    NamesKept(s, Apply(s, c).store, used, c);
  }
}
