/** The driver's own operations on disks: create, snapshot, clone and delete, as sequences of backend calls. */
module Driver {
  import opened RbdStore
  import opened FlattenGc
  import opened GcWorkers
  import GcJob

  datatype Outcome = Ok | InUse | Failed

  /** What remains in b of the images and snapshots of a shows the same, and nothing that was gone is back. */
  ghost predicate Same(a: Store, b: Store)
  {
    Wf(a) && SeenTheSame(a.images, b.images, {}) && NoReturn(a, b)
  }

  lemma SameSelf(s: Store)
    requires Wf(s)
    ensures Same(s, s)
  {
    GcJob.SameImages(s.images);
  }

  lemma SameNext(a: Store, b: Store, c: Call)
    requires Same(a, b) && Wf(b) && Apply(b, c).Done? && !c.Write?
    ensures Same(a, Apply(b, c).store)
  {
    CallKeeps(b, c);
    CallEvolves(b, c);
    hide Apply, Wf, SeenTheSame, Evolves, Kept, NoReturn;
    NeverBack(b, Apply(b, c).store, c);
    GcJob.NoOneElse(a, b, Apply(b, c).store);
  }

  /** A backend call within an operation that started in store a. */
  method Ask(be: GcJob.Pool, c: Call, ghost a: Store, ghost used: set<string>) returns (r: Reply, ghost used': set<string>)
    requires StoreInv(be.store, used) && Permitted(be.store, used, c) && Same(a, be.store) && !c.Write?
    modifies be
    ensures Wf(old(be.store)) && Wf(be.store) && StoreInv(be.store, used') && Same(a, be.store)
    ensures r == Apply(old(be.store), c) || (be.flaky && r == Refused)
    ensures be.store == (if r.Done? then r.store else old(be.store)) && used' == if r.Done? then used + NewNames(c) else used
    ensures be.refused == if r.Refused? then old(be.refused) + [c] else old(be.refused)
  {
    ghost var s := be.store;
    InvIsWf(s, used);
    hide Apply, Permitted, StoreInv, Same, Wf;
    r := be.Ask(c);
    used' := used;
    if r.Done? {
      StoreInvKept(s, used, c);
      SameNext(a, s, c);
      used' := used + NewNames(c);
    }
    InvIsWf(be.store, used');
  }

  lemma InvIsWf(s: Store, used: set<string>)
    requires StoreInv(s, used)
    ensures Wf(s)
  {
  }

  // ------------------------------------------------------------------- snapshots

  /** Image and snapshot exist under these names. */
  predicate Has(s: Store, image: string, snap: string)
  {
    && image in s.dir && s.dir[image] in s.images && snap in s.images[s.dir[image]].snapDir
    && s.images[s.dir[image]].snapDir[snap] in s.images[s.dir[image]].snaps
  }

  function SnapAt(s: Store, image: string, snap: string): Snapshot
    requires Has(s, image, snap)
  {
    s.images[s.dir[image]].snaps[s.images[s.dir[image]].snapDir[snap]]
  }

  /** What a disk shows, and what a snapshot shows. */
  function Shows(s: Store, image: string): map<nat, int>
    requires image in s.dir && s.dir[image] in s.images
  {
    View(s.images, s.dir[image], s.images[s.dir[image]].head)
  }

  function SnapShows(s: Store, image: string, snap: string): map<nat, int>
    requires Has(s, image, snap)
  {
    View(s.images, s.dir[image], SnapAt(s, image, snap).layer)
  }

  // ------------------------------------------------ the stores that operations lead to

  /** The number of an image, and of a snapshot. */
  function IdOf(s: Store, image: string): nat
    requires image in s.dir
  {
    s.dir[image]
  }

  function KeyOf(s: Store, image: string, snap: string): nat
    requires Has(s, image, snap)
  {
    s.images[s.dir[image]].snapDir[snap]
  }

  /** s without the snapshot; nothing else is different. */
  function Dropped(s: Store, image: string, snap: string): Store
  {
    if Has(s, image, snap) then WithImage(s, s.dir[image], DropSnap(s.images[s.dir[image]], KeyOf(s, image, snap))) else s
  }

  /** s with the protection of the snapshot set or cleared. */
  function Reguarded(s: Store, image: string, snap: string, guarded: bool): Store
  {
    if Has(s, image, snap) then WithImage(s, s.dir[image], SetGuard(s.images[s.dir[image]], KeyOf(s, image, snap), guarded)) else s
  }

  /** s with a new snapshot of the image, not protected yet. */
  function HalfTaken(s: Store, image: string, snap: string): Store
    requires image in s.dir && s.dir[image] in s.images
  {
    WithImage(s, s.dir[image], AddSnap(s.images[s.dir[image]], s.next, snap)).(next := s.next + 1)
  }

  /** s with a new, protected snapshot of the image. */
  function SnapTaken(s: Store, image: string, snap: string): Store
    requires image in s.dir && s.dir[image] in s.images
  {
    Reguarded(HalfTaken(s, image, snap), image, snap, true)
  }

  /** s with a new image on top of the snapshot. */
  function CloneTaken(s: Store, image: string, snap: string, dst: string, deep: bool): Store
    requires Has(s, image, snap)
  {
    AddImage(s, Image(dst, deep, Layer(map[], Some(Ref(s.dir[image], KeyOf(s, image, snap)))), map[], map[]))
  }

  /** s with another name for the snapshot. */
  function SnapRenamed(s: Store, image: string, snap: string, to: string): Store
    requires Has(s, image, snap)
  {
    WithImage(s, s.dir[image], RenameSnap(s.images[s.dir[image]], KeyOf(s, image, snap), to))
  }

  /** s without the image. */
  function DiskRemoved(s: Store, image: string): Store
    requires image in s.dir && s.dir[image] in s.images
  {
    Store(s.images - {s.dir[image]}, s.dir - {image}, s.next)
  }

  /** The same objects, numbers given out aside. */
  ghost predicate Unchanged(a: Store, b: Store)
  {
    b.images == a.images && b.dir == a.dir
  }

  lemma HasName(s: Store, image: string, snap: string)
    requires Wf(s)
    ensures image in s.dir ==> s.dir[image] in s.images && s.images[s.dir[image]].name == image
    ensures image in s.dir && snap in s.images[s.dir[image]].snapDir ==> Has(s, image, snap)
    ensures Has(s, image, snap) ==> SnapAt(s, image, snap).name == snap && KeyOf(s, image, snap) < s.next && s.dir[image] < s.next
    ensures image in s.dir ==> s.next !in s.images[s.dir[image]].snaps && s.next !in s.images
  {
    NextIsNew(s);
    if image in s.dir { Found(s, image); }
    hide Wf;
  }

  /** The replies of the two calls that take a snapshot away. */
  lemma UnprotectReply(s: Store, image: string, snap: string)
    requires Wf(s)
    ensures !Has(s, image, snap) ==> Apply(s, Unprotect(image, snap)) == NotFound
    ensures Has(s, image, snap) ==>
              Apply(s, Unprotect(image, snap)) == if Children(s.images, Ref(s.dir[image], KeyOf(s, image, snap))) != {} then Refused
                                                  else Done(Reguarded(s, image, snap, false))
  {
    HasName(s, image, snap);
    hide Wf, Children;
  }

  lemma SnapRemoveReply(s: Store, image: string, snap: string)
    requires Wf(s)
    ensures !Has(s, image, snap) ==> Apply(s, SnapRemove(image, snap)) == NotFound
    ensures Has(s, image, snap) ==>
              Apply(s, SnapRemove(image, snap))
              == if SnapAt(s, image, snap).guarded || Children(s.images, Ref(s.dir[image], KeyOf(s, image, snap))) != {} then Refused
                 else Done(Dropped(s, image, snap))
  {
    HasName(s, image, snap);
    hide Wf, Children;
  }

  lemma SnapCreateReply(s: Store, image: string, snap: string)
    requires Wf(s)
    ensures image !in s.dir ==> Apply(s, SnapCreate(image, snap)) == NotFound
    ensures image in s.dir ==>
              && s.dir[image] in s.images
              && Apply(s, SnapCreate(image, snap)) == if Has(s, image, snap) then Refused else Done(HalfTaken(s, image, snap))
  {
    HasName(s, image, snap);
    hide Wf;
  }

  lemma ProtectReply(s: Store, image: string, snap: string)
    requires Wf(s)
    ensures Apply(s, Protect(image, snap)) == if Has(s, image, snap) then Done(Reguarded(s, image, snap, true)) else NotFound
  {
    HasName(s, image, snap);
    hide Wf;
  }

  lemma CloneReply(s: Store, image: string, snap: string, dst: string, deep: bool)
    requires Wf(s)
    ensures !Has(s, image, snap) ==> Apply(s, Clone(image, snap, dst, deep)) == NotFound
    ensures Has(s, image, snap) ==>
              Apply(s, Clone(image, snap, dst, deep))
              == if !SnapAt(s, image, snap).guarded || dst in s.dir then Refused else Done(CloneTaken(s, image, snap, dst, deep))
  {
    HasName(s, image, snap);
    hide Wf;
  }

  lemma SnapRenameReply(s: Store, image: string, snap: string, to: string)
    requires Wf(s) && Has(s, image, snap)
    ensures Apply(s, SnapRename(image, snap, to))
         == if to in s.images[s.dir[image]].snapDir then Refused else Done(SnapRenamed(s, image, snap, to))
  {
    HasName(s, image, snap);
    hide Wf;
  }

  /** Taking off the protection first makes no difference to what is left. */
  lemma DropReguarded(s: Store, image: string, snap: string, guarded: bool)
    ensures Has(Reguarded(s, image, snap, guarded), image, snap) <==> Has(s, image, snap)
    ensures Dropped(Reguarded(s, image, snap, guarded), image, snap) == Dropped(s, image, snap)
    ensures Has(s, image, snap) ==> SnapAt(Reguarded(s, image, snap, guarded), image, snap) == SnapAt(s, image, snap).(guarded := guarded)
  {
    if Has(s, image, snap) {
      var id, k := s.dir[image], KeyOf(s, image, snap);
      var img := s.images[id];
      assert SetGuard(img, k, guarded).snaps - {k} == img.snaps - {k};
      assert s.images[id := SetGuard(img, k, guarded)][id := DropSnap(img, k)] == s.images[id := DropSnap(img, k)];
    }
  }

  /** A half-made snapshot: it is there, with the blocks of the disk, and dropping it leaves what there was. */
  lemma HalfTakenHas(s: Store, image: string, snap: string)
    requires Wf(s) && image in s.dir && s.dir[image] in s.images && !Has(s, image, snap)
    ensures
      var h := HalfTaken(s, image, snap);
      && Has(h, image, snap) && SnapAt(h, image, snap).layer == s.images[s.dir[image]].head && !SnapAt(h, image, snap).guarded
      && Unchanged(s, Dropped(h, image, snap)) && Reguarded(h, image, snap, false) == h
      && Reguarded(SnapTaken(s, image, snap), image, snap, false) == h
  {
    HasName(s, image, snap);
    var id := s.dir[image];
    var img := s.images[id];
    hide Wf;
    assert HalfTaken(s, image, snap).images[id] == AddSnap(img, s.next, snap);
    AddThenDrop(img, s.next, snap);
    assert s.images[id := AddSnap(img, s.next, snap)][id := img] == s.images;
    GuardTwice(s.images[id := AddSnap(img, s.next, snap)], id, s.next);
  }

  lemma AddThenDrop(img: Image, k: nat, snap: string)
    requires k !in img.snaps && snap !in img.snapDir
    ensures DropSnap(AddSnap(img, k, snap), k) == img
    ensures k in AddSnap(img, k, snap).snaps && AddSnap(img, k, snap).snaps[k].layer == img.head && !AddSnap(img, k, snap).snaps[k].guarded
  {
    assert AddSnap(img, k, snap).snaps - {k} == img.snaps;
    assert AddSnap(img, k, snap).snapDir - {snap} == img.snapDir;
  }

  lemma GuardTwice(images: Images, id: nat, k: nat)
    requires id in images && k in images[id].snaps && !images[id].snaps[k].guarded
    ensures images[id := SetGuard(images[id], k, false)] == images
    ensures images[id := SetGuard(images[id], k, true)][id := SetGuard(SetGuard(images[id], k, true), k, false)] == images
  {
    assert SetGuard(images[id], k, false) == images[id];
    assert SetGuard(SetGuard(images[id], k, true), k, false) == images[id];
  }

  // ----------------------------------------------------------- what else is there

  /** The same image, but for snapshots of the given names. */
  ghost predicate SameBut(x: Image, y: Image, names: set<string>)
  {
    && y.name == x.name && y.deep == x.deep && y.head == x.head
    && (forall k :: k in x.snaps && x.snaps[k].name !in names ==> k in y.snaps && y.snaps[k] == x.snaps[k])
    && (forall k :: k in y.snaps && y.snaps[k].name !in names ==> k in x.snaps && x.snaps[k] == y.snaps[k])
  }

  ghost predicate SameImage(x: Image, y: Image, image: string, names: set<string>)
  {
    if x.name == image then SameBut(x, y, names) else y == x
  }

  /**
   From a to b nothing is different but snapshots of one image with the given names, and
   images with the new names: every other image and snapshot is there in both, the same.
   */
  ghost predicate Only(a: Store, b: Store, image: string, names: set<string>, added: set<string>)
  {
    && (forall n :: n !in added ==> (n in a.dir <==> n in b.dir) && (n in a.dir ==> b.dir[n] == a.dir[n]))
    && (forall j :: j in a.images ==> j in b.images && SameImage(a.images[j], b.images[j], image, names))
    && (forall j :: j in b.images && j !in a.images ==> b.images[j].name in added)
  }

  lemma OnlySelf(s: Store, image: string, names: set<string>, added: set<string>)
    ensures Only(s, s, image, names, added)
  {
  }

  /** Changing snapshots of one image. */
  lemma OnlySnaps(s: Store, id: nat, img: Image, image: string, names: set<string>, next: nat)
    requires id in s.images && s.images[id].name == image && SameBut(s.images[id], img, names)
    ensures Only(s, WithImage(s, id, img).(next := next), image, names, {}) && Only(s, WithImage(s, id, img), image, names, {})
  {
    hide SameBut;
    assert forall j :: j in s.images && j != id ==> s.images[id := img][j] == s.images[j];
    SameButSelf(s.images, names);
  }

  lemma SameButSelf(images: Images, names: set<string>)
    ensures forall j :: j in images ==> SameBut(images[j], images[j], names)
  {
  }

  lemma AddSame(img: Image, k: nat, snap: string)
    requires k !in img.snaps
    ensures SameBut(img, AddSnap(img, k, snap), {snap})
    ensures forall g :: SameBut(img, SetGuard(AddSnap(img, k, snap), k, g), {snap})
  {
  }

  lemma ChangeSame(img: Image, k: nat, to: string, guarded: bool)
    requires k in img.snaps
    ensures
      var snap := img.snaps[k].name;
      && SameBut(img, DropSnap(img, k), {snap}) && SameBut(img, SetGuard(img, k, guarded), {snap})
      && SameBut(img, RenameSnap(img, k, to), {snap, to})
  {
  }

  /** The stores that operations lead to differ from the first one in what they name, and in nothing else. */
  lemma NothingElse(s: Store, image: string, snap: string, to: string, guarded: bool)
    requires Wf(s)
    ensures Only(s, Dropped(s, image, snap), image, {snap}, {}) && Only(s, Reguarded(s, image, snap, guarded), image, {snap}, {})
    ensures Has(s, image, snap) ==> Only(s, SnapRenamed(s, image, snap, to), image, {snap, to}, {})
  {
    HasName(s, image, snap);
    OnlySelf(s, image, {snap}, {});
    if Has(s, image, snap) {
      var id, k := s.dir[image], KeyOf(s, image, snap);
      var img := s.images[id];
      ChangeSame(img, k, to, guarded);
      hide Wf, Only, SameBut, DropSnap, SetGuard, RenameSnap;
      OnlySnaps(s, id, DropSnap(img, k), image, {snap}, s.next);
      OnlySnaps(s, id, SetGuard(img, k, guarded), image, {snap}, s.next);
      OnlySnaps(s, id, RenameSnap(img, k, to), image, {snap, to}, s.next);
    }
  }

  lemma HalfTakenOnly(s: Store, image: string, snap: string)
    requires Wf(s) && image in s.dir && s.dir[image] in s.images
    ensures Only(s, HalfTaken(s, image, snap), image, {snap}, {})
  {
    HasName(s, image, snap);
    hide Wf, Only, SameBut;
    AddSame(s.images[s.dir[image]], s.next, snap);
    OnlySnaps(s, s.dir[image], AddSnap(s.images[s.dir[image]], s.next, snap), image, {snap}, s.next + 1);
  }

  lemma SnapTakenOnly(s: Store, image: string, snap: string)
    requires Wf(s) && image in s.dir && s.dir[image] in s.images && !Has(s, image, snap)
    ensures Only(s, SnapTaken(s, image, snap), image, {snap}, {})
  {
    HasName(s, image, snap);
    HalfTakenHas(s, image, snap);
    var id := s.dir[image];
    hide Wf, Only, SameBut;
    var img := SetGuard(AddSnap(s.images[id], s.next, snap), s.next, true);
    AddSame(s.images[id], s.next, snap);
    OnlySnaps(s, id, img, image, {snap}, s.next + 1);
    assert s.images[id := AddSnap(s.images[id], s.next, snap)][id := img] == s.images[id := img];
  }

  /** A new image on top of a store that differs from a in one snapshot. */
  lemma CloneOnly(a: Store, s: Store, image: string, snap: string, names: set<string>, dst: string, deep: bool)
    requires Has(s, image, snap) && s.next !in s.images && Only(a, s, image, names, {})
    ensures Only(a, CloneTaken(s, image, snap, dst, deep), image, names, {dst})
  {
    hide SameBut;
  }

  // ---------------------------------------------------------- taking snapshots away

  /** Something reads through the snapshot. */
  function SnapHasChildren(s: Store, image: string, snap: string): bool
  {
    Has(s, image, snap) && Children(s.images, Ref(s.dir[image], KeyOf(s, image, snap))) != {}
  }

  /** Of the two calls that take a snapshot away the second was refused, and perhaps the first. */
  ghost predicate NotPurged(a: Store, b: Store, image: string, snap: string, before: seq<Call>, after: seq<Call>)
  {
    && (b == a || b == Reguarded(a, image, snap, false))
    && |before| < |after| && after[|after| - 1] == SnapRemove(image, snap)
  }

  /**
   _purge_snap_quiet and _remove_snap: unprotect, whatever comes of it, then remove. The
   snapshot is gone, or its removal was refused and at most its protection is; without faults
   it is gone unless something reads through it.
   */
  method PurgeSnap(be: GcJob.Pool, image: string, snap: string, ghost a: Store, ghost used: set<string>) returns (ok: bool)
    requires StoreInv(be.store, used) && Same(a, be.store)
    modifies be
    ensures StoreInv(be.store, used) && Same(a, be.store)
    ensures ok ==> be.store == Dropped(old(be.store), image, snap)
    ensures !ok ==> NotPurged(old(be.store), be.store, image, snap, old(be.refused), be.refused)
    ensures !be.flaky && !SnapHasChildren(old(be.store), image, snap) ==> ok
    ensures Only(old(be.store), be.store, image, {snap}, {}) && old(be.refused) <= be.refused
  {
    ghost var s := be.store;
    InvIsWf(s, used);
    MayTakeAway(s, used, image, snap);
    UnprotectReply(s, image, snap);
    DropReguarded(s, image, snap, false);
    NothingElse(s, image, snap, snap, false);
    hide StoreInv, Same, Apply, Wf, Has, Dropped, Reguarded, Permitted, Children, Only, NewNames;
    OnlySelf(s, image, {snap}, {});
    var r;
    ghost var used1;
    r, used1 := Ask(be, Unprotect(image, snap), a, used);
    assert used + {} == used;
    ghost var middle := be.store;
    MayTakeAway(middle, used, image, snap);
    SnapRemoveReply(middle, image, snap);
    if middle != s { ReguardedChildren(s, image, snap); }
    r, used1 := Ask(be, SnapRemove(image, snap), a, used);
    ok := !r.Refused?;
    GoneIsDropped(s, image, snap);
  }

  lemma MayTakeAway(s: Store, used: set<string>, image: string, snap: string)
    ensures Permitted(s, used, Unprotect(image, snap)) && Permitted(s, used, SnapRemove(image, snap)) && Permitted(s, used, Remove(image))
    ensures NewNames(Unprotect(image, snap)) == NewNames(SnapRemove(image, snap)) == NewNames(Remove(image)) == {}
  {
  }

  lemma GoneIsDropped(s: Store, image: string, snap: string)
    ensures !Has(s, image, snap) ==> Dropped(s, image, snap) == s
  {
  }

  /** Protection has nothing to do with who reads through a snapshot. */
  lemma ReguardedChildren(s: Store, image: string, snap: string)
    ensures SnapHasChildren(Reguarded(s, image, snap, false), image, snap) <==> SnapHasChildren(s, image, snap)
    ensures Has(s, image, snap) ==>
              && Has(Reguarded(s, image, snap, false), image, snap)
              && KeyOf(Reguarded(s, image, snap, false), image, snap) == KeyOf(s, image, snap)
              && Reguarded(s, image, snap, false).dir == s.dir
  {
    if Has(s, image, snap) {
      ChildrenGuarded(s.images, s.dir[image], KeyOf(s, image, snap), Ref(s.dir[image], KeyOf(s, image, snap)));
    }
    hide Children;
  }

  // -------------------------------------------------------------- taking snapshots

  /** A protected snapshot that shows what the disk showed when it was taken. */
  ghost predicate Taken(a: Store, s: Store, image: string, snap: string)
  {
    && image in a.dir && a.dir[image] in a.images && Has(s, image, snap) && SnapAt(s, image, snap).guarded
    && SnapShows(s, image, snap) == Shows(a, image) == Shows(s, image)
  }

  lemma SameLayerView(s: Store, image: string, snap: string)
    requires Has(s, image, snap) && SnapAt(s, image, snap).layer == s.images[s.dir[image]].head
    ensures SnapShows(s, image, snap) == Shows(s, image)
  {
  }

  /** Protecting a snapshot changes nothing that is shown. */
  lemma GuardShows(s: Store, image: string, snap: string)
    requires Wf(s) && Has(s, image, snap)
    ensures
      var s' := Reguarded(s, image, snap, true);
      && Wf(s') && Has(s', image, snap) && SnapAt(s', image, snap) == SnapAt(s, image, snap).(guarded := true)
      && s'.dir == s.dir && s'.images[s.dir[image]].head == s.images[s.dir[image]].head && Shows(s', image) == Shows(s, image)
  {
    hide Wf, Apply, View;
    ProtectReply(s, image, snap);
    CallKeeps(s, Protect(image, snap));
    DropReguarded(s, image, snap, true);
  }

  /** A snapshot that is taken shows what the disk shows. */
  lemma TakenShows(a: Store, image: string, snap: string)
    requires Wf(a) && image in a.dir && a.dir[image] in a.images && !Has(a, image, snap)
    ensures Wf(HalfTaken(a, image, snap)) && Taken(a, SnapTaken(a, image, snap), image, snap)
  {
    hide Wf, Apply, View, Reguarded;
    SnapCreateReply(a, image, snap);
    CallKeeps(a, SnapCreate(image, snap));
    HalfTakenHas(a, image, snap);
    var h := HalfTaken(a, image, snap);
    GuardShows(h, image, snap);
    SameLayerView(SnapTaken(a, image, snap), image, snap);
  }

  lemma MayTake(s: Store, used: set<string>, image: string, snap: string)
    requires !IsTrash(image) && !IsTrash(snap)
    ensures snap !in used ==> Permitted(s, used, SnapCreate(image, snap))
    ensures Permitted(s, used, Protect(image, snap)) && NewNames(SnapCreate(image, snap)) == {snap} && NewNames(Protect(image, snap)) == {}
  {
  }

  /** A name that was never given is no image's and no snapshot's. */
  lemma NewNameFree(s: Store, used: set<string>, image: string, name: string)
    requires StoreInv(s, used) && name !in used
    ensures name !in s.dir && !Has(s, image, name)
  {
    HasName(s, image, name);
    if name in s.dir { Found(s, name); }
    hide Wf, FlatHeads;
  }

  /** snap_create and snap_set_protected: both take effect, or the first does or neither. */
  method CreateAndProtect(be: GcJob.Pool, image: string, snap: string, ghost a: Store, ghost used: set<string>)
    returns (ok: bool, ghost used': set<string>)
    requires be.store == a && StoreInv(a, used) && Same(a, a) && !IsTrash(image) && !IsTrash(snap) && snap !in used
    modifies be
    ensures StoreInv(be.store, used') && Same(a, be.store) && old(be.refused) <= be.refused
    ensures used' == used + {snap} || (used' == used && be.store == a && !ok)
    ensures ok ==> image in a.dir && a.dir[image] in a.images && be.store == SnapTaken(a, image, snap)
    ensures !ok ==> be.store == a || (image in a.dir && a.dir[image] in a.images && be.store == HalfTaken(a, image, snap))
    ensures !be.flaky ==> (ok <==> image in a.dir) && (!ok ==> be.store == a)
  {
    NewNameFree(a, used, image, snap);
    InvIsWf(a, used);
    SnapCreateReply(a, image, snap);
    MayTake(a, used, image, snap);
    hide StoreInv, Same, Apply, Wf, IsTrash, Permitted, NewNames, Has, Reguarded, HalfTaken;
    var r;
    r, used' := Ask(be, SnapCreate(image, snap), a, used);
    ok := r.Done?;
    if ok {
      ghost var half := be.store;
      HalfTakenHas(a, image, snap);
      ok := ProtectTaken(be, image, snap, a, used');
    }
  }

  /** The second of the two calls. */
  method ProtectTaken(be: GcJob.Pool, image: string, snap: string, ghost a: Store, ghost used: set<string>) returns (ok: bool)
    requires StoreInv(be.store, used) && Same(a, be.store) && !IsTrash(image) && !IsTrash(snap) && Has(be.store, image, snap)
    modifies be
    ensures StoreInv(be.store, used) && Same(a, be.store) && old(be.refused) <= be.refused
    ensures be.store == if ok then Reguarded(old(be.store), image, snap, true) else old(be.store)
    ensures !be.flaky ==> ok
  {
    InvIsWf(be.store, used);
    ProtectReply(be.store, image, snap);
    MayTake(be.store, used, image, snap);
    assert used + {} == used;
    hide StoreInv, Same, Apply, Wf, IsTrash, Permitted, NewNames, Has, Reguarded;
    var r;
    ghost var used';
    r, used' := Ask(be, Protect(image, snap), a, used);
    ok := r.Done?;
  }

  /**
   After a snapshot failed: nothing is left of it, or it is there half made and its removal was
   the last call refused.
   */
  ghost predicate RolledBack(a: Store, b: Store, image: string, snap: string, before: seq<Call>, after: seq<Call>)
  {
    || Unchanged(a, b)
    || (image in a.dir && a.dir[image] in a.images && b == HalfTaken(a, image, snap)
        && |before| < |after| && after[|after| - 1] == SnapRemove(image, snap))
  }

  /** Rolling back a half-made or a whole snapshot. */
  lemma PurgedHalf(a: Store, m: Store, b: Store, image: string, snap: string, ok: bool, r0: seq<Call>, r1: seq<Call>, r2: seq<Call>)
    requires Wf(a) && !Has(a, image, snap) && |r0| <= |r1|
    requires m == a || (image in a.dir && a.dir[image] in a.images && (m == HalfTaken(a, image, snap) || m == SnapTaken(a, image, snap)))
    requires ok ==> b == Dropped(m, image, snap)
    requires !ok ==> NotPurged(m, b, image, snap, r1, r2)
    ensures RolledBack(a, b, image, snap, r0, r2) || (b == m == SnapTaken(a, image, snap) && !ok)
  {
    GoneIsDropped(a, image, snap);
    if m != a {
      HalfTakenHas(a, image, snap);
      DropReguarded(HalfTaken(a, image, snap), image, snap, true);
    }
    hide Wf, Has, Dropped, Unchanged, HalfTaken;
    assert m == a ==> Reguarded(a, image, snap, false) == a by { NotThere(a, image, snap); }
  }

  lemma NotThere(s: Store, image: string, snap: string)
    ensures !Has(s, image, snap) ==> Reguarded(s, image, snap, false) == s
  {
  }

  lemma OnlyTwice(a: Store, m: Store, b: Store, image: string, names: set<string>)
    requires Only(a, m, image, names, {}) && Only(m, b, image, names, {})
    ensures Only(a, b, image, names, {})
  {
    forall j | j in a.images
      ensures j in b.images && SameImage(a.images[j], b.images[j], image, names)
    {
      assert SameImage(a.images[j], m.images[j], image, names) && SameImage(m.images[j], b.images[j], image, names);
    }
  }

  /** The rollback of a snapshot that did not get as far as it should. */
  method RollBack(be: GcJob.Pool, image: string, snap: string, ghost a: Store, ghost used: set<string>, ghost r0: seq<Call>)
    requires StoreInv(be.store, used) && Same(a, be.store) && Wf(a) && !Has(a, image, snap) && r0 <= be.refused
    requires be.store == a || (image in a.dir && a.dir[image] in a.images && be.store == HalfTaken(a, image, snap))
    modifies be
    ensures StoreInv(be.store, used) && Same(a, be.store) && old(be.refused) <= be.refused
    ensures RolledBack(a, be.store, image, snap, r0, be.refused) && Only(a, be.store, image, {snap}, {})
    ensures !be.flaky && old(be.store) == a ==> Unchanged(a, be.store)
  {
    OnlySelf(a, image, {snap}, {});
    GoneIsDropped(a, image, snap);
    assert !SnapHasChildren(a, image, snap);
    ghost var m, r1 := be.store, be.refused;
    if m != a {
      HalfTakenOnly(a, image, snap);
      NotWhole(a, image, snap);
    }
    hide StoreInv, Same, Apply, Wf, Has, HalfTaken, Reguarded, NotPurged, RolledBack, Only, Dropped, SnapHasChildren;
    var gone := PurgeSnap(be, image, snap, a, used);
    PurgedHalf(a, m, be.store, image, snap, gone, r0, r1, be.refused);
    OnlyTwice(a, m, be.store, image, {snap});
  }

  lemma NotWhole(a: Store, image: string, snap: string)
    requires Wf(a) && image in a.dir && a.dir[image] in a.images && !Has(a, image, snap)
    ensures HalfTaken(a, image, snap) != SnapTaken(a, image, snap) && a != SnapTaken(a, image, snap)
  {
    HalfTakenHas(a, image, snap);
    DropReguarded(HalfTaken(a, image, snap), image, snap, true);
  }

  /** A snapshot that is protected, or rolled back if it is half made. */
  method TakeSnapshot(be: GcJob.Pool, image: string, snap: string, ghost a: Store, ghost used: set<string>)
    returns (ok: bool, ghost used': set<string>)
    requires be.store == a && StoreInv(a, used) && !IsTrash(image) && !IsTrash(snap) && snap !in used
    modifies be
    ensures StoreInv(be.store, used') && used' <= used + {snap} && Same(a, be.store) && old(be.refused) <= be.refused
    ensures ok ==> image in a.dir && a.dir[image] in a.images && be.store == SnapTaken(a, image, snap) && Taken(a, be.store, image, snap)
    ensures !ok ==> RolledBack(a, be.store, image, snap, old(be.refused), be.refused)
    ensures !be.flaky ==> (ok <==> image in a.dir) && (!ok ==> Unchanged(a, be.store))
    ensures Only(a, be.store, image, {snap}, {})
  {
    InvIsWf(a, used);
    SameSelf(a);
    NewNameFree(a, used, image, snap);
    hide StoreInv, Same, Apply, Wf, Taken, IsTrash, Has, HalfTaken, SnapTaken, RolledBack, Only, Unchanged;
    ok, used' := CreateAndProtect(be, image, snap, a, used);
    if ok {
      TakenShows(a, image, snap);
      SnapTakenOnly(a, image, snap);
    } else {
      RollBack(be, image, snap, a, used', old(be.refused));
    }
  }

  /**
   CephRBDVDI.snapshot: afterwards the snapshot shows what the disk shows; a half-made one is
   rolled back, or its removal was refused; nothing else is different.
   */
  method Snapshot(be: GcJob.Pool, image: string, uuid: string, ghost used: set<string>) returns (outcome: Outcome, ghost used': set<string>)
    requires StoreInv(be.store, used) && !IsTrash(image) && !IsTrash(uuid) && uuid !in used
    modifies be
    ensures StoreInv(be.store, used') && Same(old(be.store), be.store) && Only(old(be.store), be.store, image, {uuid}, {})
    ensures outcome == Ok ==> Taken(old(be.store), be.store, image, uuid)
    ensures outcome == Failed ==> RolledBack(old(be.store), be.store, image, uuid, old(be.refused), be.refused)
    ensures outcome == Ok || outcome == Failed
    ensures !be.flaky ==> (outcome == Ok <==> image in old(be.store.dir))
  {
    hide StoreInv, Same, Taken, IsTrash, Only, RolledBack, SnapTaken;
    var ok;
    ok, used' := TakeSnapshot(be, image, uuid, be.store, used);
    outcome := if ok then Ok else Failed;
  }

  // ---------------------------------------------------------------------- clones

  lemma NotTrash(name: string)
    requires IsCloneBase(name)
    ensures !IsTrash(name)
  {
    assert name[4] == 'c' && TRASH_PREFIX[4] == 't';
  }

  lemma MayClone(s: Store, used: set<string>, image: string, snap: string, dst: string, deep: bool)
    requires !IsTrash(image) && !IsTrash(snap) && !IsTrash(dst) && dst !in used
    ensures Permitted(s, used, Clone(image, snap, dst, deep)) && NewNames(Clone(image, snap, dst, deep)) == {dst}
  {
  }

  /** A new image shows what the snapshot it was made from shows. */
  lemma CloneShows(s: Store, image: string, snap: string, dst: string, deep: bool)
    requires Wf(s) && Has(s, image, snap) && SnapAt(s, image, snap).guarded && dst !in s.dir
    ensures
      var s' := CloneTaken(s, image, snap, dst, deep);
      && s'.dir[dst] == s.next && s.next in s'.images && s.next !in s.images && Shows(s', dst) == SnapShows(s, image, snap)
  {
    CloneReply(s, image, snap, dst, deep);
    CallKeeps(s, Clone(image, snap, dst, deep));
    HasName(s, image, snap);
    hide Wf, Apply;
    var id, k := s.dir[image], KeyOf(s, image, snap);
    var s' := CloneTaken(s, image, snap, dst, deep);
    assert s'.images[id] == s.images[id];
    hide Has, KeyOf, View;
    OnTop(s'.images, s.next, Ref(id, k));
  }

  /** An image with no blocks of its own shows what is behind it. */
  lemma OnTop(images: Images, n: nat, r: Ref)
    requires r.image < n && r.image in images && r.snap in images[r.image].snaps
    ensures View(images, n, Layer(map[], Some(r))) == View(images, r.image, images[r.image].snaps[r.snap].layer)
  {
    var behind := View(images, r.image, images[r.image].snaps[r.snap].layer);
    assert behind + map[] == behind;
  }

  /** A disk of the given name shows these blocks. */
  predicate ShowsAs(s: Store, image: string, blocks: map<nat, int>)
  {
    image in s.dir && s.dir[image] in s.images && Shows(s, image) == blocks
  }

  /** CephRBDVDI.clone of a snapshot: the new disk shows what the snapshot shows and all else is as it was, or nothing is different */
  method CloneSnapshot(be: GcJob.Pool, image: string, snap: string, dst: string, deep: bool, ghost a: Store, ghost used: set<string>)
    returns (outcome: Outcome, ghost used': set<string>)
    requires StoreInv(be.store, used) && Same(a, be.store)
    requires !IsTrash(image) && !IsTrash(snap) && !IsTrash(dst) && dst !in used
    modifies be
    ensures StoreInv(be.store, used') && Same(a, be.store) && old(be.refused) <= be.refused
    ensures outcome == Ok ==> old(Has(be.store, image, snap)) && dst !in old(be.store.dir)
                              && be.store == CloneTaken(old(be.store), image, snap, dst, deep)
                              && ShowsAs(be.store, dst, old(SnapShows(be.store, image, snap)))
    ensures outcome != Ok ==> outcome == Failed && be.store == old(be.store) && used' == used
    ensures !be.flaky ==> (outcome == Ok <==> old(Has(be.store, image, snap) && SnapAt(be.store, image, snap).guarded))
  {
    ghost var s := be.store;
    InvIsWf(s, used);
    NewNameFree(s, used, image, dst);
    CloneReply(s, image, snap, dst, deep);
    MayClone(s, used, image, snap, dst, deep);
    hide StoreInv, Same, Apply, Wf, IsTrash, Permitted, NewNames, CloneTaken, Has;
    var r;
    r, used' := Ask(be, Clone(image, snap, dst, deep), a, used);
    outcome := if r.Done? then Ok else Failed;
    if r.Done? { CloneShows(s, image, snap, dst, deep); }
  }

  /** After a clone failed: its own snapshot is gone, or it is left, protected or not, and its removal was the last call refused. */
  ghost predicate CloneRolledBack(a: Store, b: Store, image: string, base: string, before: seq<Call>, after: seq<Call>)
  {
    || RolledBack(a, b, image, base, before, after)
    || (image in a.dir && a.dir[image] in a.images && b == SnapTaken(a, image, base)
        && |before| < |after| && after[|after| - 1] == SnapRemove(image, base))
  }

  /** The rollback of a clone that was refused. */
  method RollBackBase(be: GcJob.Pool, image: string, base: string, ghost a: Store, ghost used: set<string>, ghost r0: seq<Call>)
    requires StoreInv(be.store, used) && Same(a, be.store) && Wf(a) && !Has(a, image, base) && r0 <= be.refused
    requires image in a.dir && a.dir[image] in a.images && be.store == SnapTaken(a, image, base)
    modifies be
    ensures StoreInv(be.store, used) && Same(a, be.store)
    ensures CloneRolledBack(a, be.store, image, base, r0, be.refused) && Only(a, be.store, image, {base}, {})
  {
    ghost var m, r1 := be.store, be.refused;
    SnapTakenOnly(a, image, base);
    hide StoreInv, Same, Apply, Wf, Has, HalfTaken, SnapTaken, RolledBack, Only, Dropped;
    var gone := PurgeSnap(be, image, base, a, used);
    PurgedHalf(a, m, be.store, image, base, gone, r0, r1, be.refused);
    OnlyTwice(a, m, be.store, image, {base});
  }

  lemma Taken2Has(a: Store, s: Store, image: string, snap: string)
    requires Taken(a, s, image, snap)
    ensures image in a.dir && a.dir[image] in a.images && Has(s, image, snap) && SnapAt(s, image, snap).guarded
    ensures SnapShows(s, image, snap) == Shows(a, image)
  {
  }

  /** The new disk shows what the disk showed; apart from it and the disk's own snapshot nothing is different. */
  ghost predicate DiskCloned(a: Store, b: Store, image: string, base: string, dst: string)
  {
    image in a.dir && a.dir[image] in a.images && ShowsAs(b, dst, Shows(a, image)) && Only(a, b, image, {base}, {dst})
  }

  /** The disk's own snapshot is taken back, or its removal was refused; nothing else is different. */
  ghost predicate NotCloned(a: Store, b: Store, image: string, base: string, before: seq<Call>, after: seq<Call>)
  {
    Only(a, b, image, {base}, {}) && CloneRolledBack(a, b, image, base, before, after)
  }

  /** Cloning the disk's own new snapshot, or taking it back. */
  method CloneBase(be: GcJob.Pool, image: string, base: string, dst: string, deep: bool, ghost a: Store, ghost used: set<string>, ghost r0: seq<Call>)
    returns (outcome: Outcome, ghost used': set<string>)
    requires StoreInv(be.store, used) && Same(a, be.store) && Wf(a) && !Has(a, image, base) && r0 <= be.refused
    requires !IsTrash(image) && !IsTrash(base) && !IsTrash(dst) && dst !in used
    requires image in a.dir && a.dir[image] in a.images && be.store == SnapTaken(a, image, base) && Taken(a, be.store, image, base)
    requires Only(a, be.store, image, {base}, {})
    modifies be
    ensures StoreInv(be.store, used') && Same(a, be.store)
    ensures if outcome == Ok then DiskCloned(a, be.store, image, base, dst)
            else outcome == Failed && NotCloned(a, be.store, image, base, r0, be.refused)
    ensures !be.flaky ==> outcome == Ok
  {
    ghost var m := be.store;
    Taken2Has(a, m, image, base);
    hide StoreInv, Same, IsTrash, Taken, Only, SnapTaken, RolledBack, CloneRolledBack, Shows, SnapShows, CloneTaken, Wf, Has;
    InvIsWf(m, used);
    HasName(m, image, base);
    outcome, used' := CloneSnapshot(be, image, base, dst, deep, a, used);
    if outcome == Ok {
      CloneOnly(a, m, image, base, {base}, dst, deep);
    } else {
      RollBackBase(be, image, base, a, used', r0);
    }
  }

  /**
   CephRBDVDI.clone of a live disk, through a snapshot of its own that is never shown as a VDI:
   the new disk shows what the disk showed; a clone that fails takes that snapshot back, or its
   removal was refused; nothing else is different.
   */
  method CloneDisk(be: GcJob.Pool, image: string, base: string, dst: string, deep: bool, ghost a: Store, ghost used: set<string>)
    returns (outcome: Outcome, ghost used': set<string>)
    requires be.store == a && StoreInv(a, used) && !IsTrash(image) && !IsTrash(dst) && dst !in used
    requires IsCloneBase(base) && base !in used && base != dst
    modifies be
    ensures StoreInv(be.store, used') && Same(a, be.store)
    ensures if outcome == Ok then DiskCloned(a, be.store, image, base, dst)
            else outcome == Failed && NotCloned(a, be.store, image, base, old(be.refused), be.refused)
    ensures !be.flaky ==> (outcome == Ok <==> image in a.dir)
  {
    ghost var r0 := be.refused;
    hide StoreInv, Same, Wf, IsTrash, IsCloneBase, Taken, Only, SnapTaken, RolledBack, NotCloned, DiskCloned, Has;
    CloneReady(a, used, image, base);
    var ok;
    ok, used' := TakeSnapshot(be, image, base, a, used);
    assert dst !in used';
    outcome := Failed;
    if ok {
      outcome, used' := CloneBase(be, image, base, dst, deep, a, used', r0);
    } else {
      RolledBackToo(a, be.store, image, base, r0, be.refused);
    }
  }

  lemma CloneReady(a: Store, used: set<string>, image: string, base: string)
    requires StoreInv(a, used) && IsCloneBase(base) && base !in used
    ensures Wf(a) && !IsTrash(base) && !Has(a, image, base)
  {
    NotTrash(base);
    InvIsWf(a, used);
    NewNameFree(a, used, image, base);
  }

  lemma RolledBackToo(a: Store, b: Store, image: string, base: string, before: seq<Call>, after: seq<Call>)
    requires RolledBack(a, b, image, base, before, after) && Only(a, b, image, {base}, {})
    ensures NotCloned(a, b, image, base, before, after)
  {
    hide RolledBack, Only;
  }

  // -------------------------------------------------------------------- deleting

  lemma NameUsed(s: Store, used: set<string>, image: string)
    requires StoreInv(s, used) && image in s.dir
    ensures image in used
  {
    Found(s, image);
  }

  lemma MayRename(s: Store, used: set<string>, image: string, snap: string, trash: string)
    requires !IsTrash(image) && IsTrash(trash) && trash !in used
    ensures !IsTrash(snap) ==> Permitted(s, used, SnapRename(image, snap, trash))
    ensures Permitted(s, used, ImageRename(image, trash))
    ensures NewNames(SnapRename(image, snap, trash)) == NewNames(ImageRename(image, trash)) == {trash}
  {
  }

  /** A snapshot under its new name. */
  lemma RenamedSnap(s: Store, image: string, snap: string, trash: string)
    requires Has(s, image, snap) && SnapAt(s, image, snap).name == snap && snap != trash
    ensures
      var s' := SnapRenamed(s, image, snap, trash);
      !Has(s', image, snap) && Has(s', image, trash) && SnapAt(s', image, trash) == SnapAt(s, image, snap).(name := trash)
  {
  }

  lemma DroppedGone(s: Store, image: string, snap: string)
    requires Has(s, image, snap) ==> SnapAt(s, image, snap).name == snap
    ensures !Has(Dropped(s, image, snap), image, snap)
  {
  }

  /**
   CephRBDVDI.delete of a snapshot: removed at once, or trashed with a job exactly if something
   still reads through it. Nothing else is different; a failure leaves the snapshot, at most
   without its protection.
   */
  method DeleteSnapshot(be: GcJob.Pool, image: string, snap: string, trash: string, ghost used: set<string>)
    returns (outcome: Outcome, job: Option<Job>, ghost used': set<string>)
    requires StoreInv(be.store, used) && !IsTrash(image) && !IsTrash(snap) && IsTrash(trash) && trash !in used
    modifies be
    ensures StoreInv(be.store, used') && Same(old(be.store), be.store)
    ensures job.Some? <==> outcome == Ok && old(SnapHasChildren(be.store, image, snap))
    ensures job.Some? ==> job.value == SnapJob(image, trash) && JobOk(job.value, used') && be.store == SnapRenamed(old(be.store), image, snap, trash)
                          && Has(be.store, image, trash) && SnapAt(be.store, image, trash) == old(SnapAt(be.store, image, snap)).(name := trash)
    ensures outcome == Ok ==> !Has(be.store, image, snap)
    ensures outcome == Ok && job.None? ==> be.store == Dropped(old(be.store), image, snap)
    ensures outcome != Ok ==> outcome == Failed && (be.store == old(be.store) || be.store == Reguarded(old(be.store), image, snap, false))
    ensures Only(old(be.store), be.store, image, {snap, trash}, {})
    ensures !be.flaky ==> outcome == Ok
  {
    ghost var a := be.store;
    InvIsWf(a, used);
    SameSelf(a);
    HasName(a, image, snap);
    job, used' := None, used;
    OnlySelf(a, image, {snap, trash}, {});
    if SnapHasChildren(be.store, image, snap) {
      NameUsed(a, used, image);
      NewNameFree(a, used, image, trash);
      SnapRenameReply(a, image, snap, trash);
      MayRename(a, used, image, snap, trash);
      RenamedSnap(a, image, snap, trash);
      NothingElse(a, image, snap, trash, false);
      hide StoreInv, Same, Apply, Wf, Children, Permitted, NewNames, SnapRenamed, Only;
      var r;
      r, used' := Ask(be, SnapRename(image, snap, trash), a, used);
      outcome := if r.Done? then Ok else Failed;
      job := if r.Done? then Some(SnapJob(image, trash)) else None;
      return;
    }
    DroppedGone(a, image, snap);
    hide StoreInv, Same, Wf, SnapHasChildren, Has, Dropped, Reguarded, Only;
    var ok := PurgeSnap(be, image, snap, a, used);
    outcome := if ok then Ok else Failed;
    OnlyMore(a, be.store, image, {snap}, {snap, trash});
  }

  lemma OnlyMore(a: Store, b: Store, image: string, names: set<string>, more: set<string>)
    requires Only(a, b, image, names, {}) && names <= more
    ensures Only(a, b, image, more, {})
  {
  }

  /** The disk has snapshots that are VDIs themselves. */
  ghost predicate HasVdiSnaps(s: Store, image: string)
  {
    exists snap: string :: Has(s, image, snap) && IsUuid(snap)
  }

  function SnapNameSet(s: Store, image: string): set<string>
  {
    if image in s.dir && s.dir[image] in s.images then s.images[s.dir[image]].snapDir.Keys else {}
  }

  lemma SnapNameSetIs(s: Store, image: string, snap: string)
    requires Wf(s)
    ensures snap in SnapNameSet(s, image) <==> Has(s, image, snap)
  {
    HasName(s, image, snap);
    hide Wf;
  }

  /** The names of a disk's snapshots that are VDIs, and of those that something reads through. */
  function VdiSnaps(s: Store, image: string): set<string>
  {
    set snap | snap in SnapNameSet(s, image) && IsUuid(snap)
  }

  function PinnedSnaps(s: Store, image: string): set<string>
  {
    set snap | snap in SnapNameSet(s, image) && SnapHasChildren(s, image, snap)
  }

  ghost predicate IsPinned(s: Store, image: string)
  {
    exists snap: string :: SnapHasChildren(s, image, snap)
  }

  lemma VdiSnapsAre(s: Store, image: string)
    requires Wf(s)
    ensures VdiSnaps(s, image) != {} <==> HasVdiSnaps(s, image)
  {
    forall snap: string ensures snap in VdiSnaps(s, image) <==> Has(s, image, snap) && IsUuid(snap) { SnapNameSetIs(s, image, snap); }
    hide Wf, SnapNameSet, Has, IsUuid, VdiSnaps;
  }

  lemma PinnedSnapsAre(s: Store, image: string)
    requires Wf(s)
    ensures PinnedSnaps(s, image) != {} <==> IsPinned(s, image)
    ensures IsPinned(s, image) ==> image in s.dir
  {
    forall snap: string ensures snap in PinnedSnaps(s, image) <==> SnapHasChildren(s, image, snap) { SnapNameSetIs(s, image, snap); }
    hide Wf, SnapNameSet, PinnedSnaps, Children;
  }

  /** The disk is renamed out of sight; its job will free what hangs off it. */
  method TrashDisk(be: GcJob.Pool, image: string, trash: string, ghost used: set<string>) returns (ok: bool, ghost used': set<string>)
    requires StoreInv(be.store, used) && !IsTrash(image) && IsTrash(trash) && trash !in used && image in be.store.dir
    modifies be
    ensures StoreInv(be.store, used') && Same(old(be.store), be.store)
    ensures old(be.store.dir)[image] in old(be.store.images)
    ensures ok ==> be.store == RenamedStore(old(be.store), image, trash) && image !in be.store.dir && trash in used'
    ensures !ok ==> be.store == old(be.store)
    ensures !be.flaky ==> ok
  {
    ghost var a := be.store;
    InvIsWf(a, used);
    SameSelf(a);
    NewNameFree(a, used, image, trash);
    RenameReply(a, image, trash);
    MayRename(a, used, image, image, trash);
    hide StoreInv, Same, Wf, Apply, Permitted, NewNames, IsTrash;
    var r;
    r, used' := Ask(be, ImageRename(image, trash), a, used);
    ok := r.Done?;
  }

  // ------------------------------------------------------- removing a whole disk

  /** From a to b nothing is different but that the image has lost some snapshots, and others perhaps their protection. */
  ghost predicate FewerSnaps(a: Store, b: Store, image: string)
  {
    && b.dir == a.dir && b.next == a.next && b.images.Keys == a.images.Keys
    && (forall j :: j in a.images && a.images[j].name != image ==> b.images[j] == a.images[j])
    && (forall j :: j in a.images && a.images[j].name == image ==> LostSnaps(a.images[j], b.images[j]))
  }

  ghost predicate LostSnaps(x: Image, y: Image)
  {
    && y.name == x.name && y.deep == x.deep && y.head == x.head
    && forall k :: k in y.snaps ==> k in x.snaps && y.snaps[k].name == x.snaps[k].name && y.snaps[k].layer == x.snaps[k].layer
  }

  lemma FewerSelf(s: Store, image: string)
    ensures FewerSnaps(s, s, image)
  {
  }

  lemma FewerMore(a: Store, m: Store, image: string, snap: string)
    requires Wf(m) && FewerSnaps(a, m, image)
    ensures FewerSnaps(a, Dropped(m, image, snap), image) && FewerSnaps(a, Reguarded(m, image, snap, false), image)
  {
    HasName(m, image, snap);
    hide Wf;
    if Has(m, image, snap) {
      var id, k := m.dir[image], KeyOf(m, image, snap);
      LostMore(a.images[id], m.images[id], k);
      hide LostSnaps, DropSnap, SetGuard;
      FewerWith(a, m, image, id, DropSnap(m.images[id], k));
      FewerWith(a, m, image, id, SetGuard(m.images[id], k, false));
    }
  }

  lemma FewerWith(a: Store, m: Store, image: string, id: nat, img: Image)
    requires FewerSnaps(a, m, image) && id in m.images && a.images[id].name == image && LostSnaps(a.images[id], img)
    ensures FewerSnaps(a, WithImage(m, id, img), image)
  {
    hide LostSnaps;
    assert m.images[id := img].Keys == m.images.Keys;
  }

  lemma LostMore(x: Image, y: Image, k: nat)
    requires LostSnaps(x, y) && k in y.snaps
    ensures LostSnaps(x, DropSnap(y, k)) && LostSnaps(x, SetGuard(y, k, false))
  {
  }

  /** No new children come of losing snapshots. */
  lemma FewerChildren(a: Store, b: Store, image: string, snap: string)
    requires Wf(a) && Wf(b) && FewerSnaps(a, b, image) && !IsPinned(a, image)
    ensures !SnapHasChildren(b, image, snap)
  {
    HasName(a, image, snap);
    HasName(b, image, snap);
    if Has(b, image, snap) {
      var id, k := b.dir[image], KeyOf(b, image, snap);
      var name := a.images[id].snaps[k].name;
      assert name == snap;
      KeyIs(a, image, k);
      assert !SnapHasChildren(a, image, snap);
      hide Wf, IsPinned;
      forall j | j in b.images ensures RefersTo(b.images[j], Ref(id, k)) ==> RefersTo(a.images[j], Ref(id, k)) {
        LostRefers(a.images[j], b.images[j], Ref(id, k));
      }
    }
  }

  lemma KeyIs(s: Store, image: string, k: nat)
    requires Wf(s) && image in s.dir && s.dir[image] in s.images && k in s.images[s.dir[image]].snaps
    ensures var snap := s.images[s.dir[image]].snaps[k].name;
      Has(s, image, snap) && KeyOf(s, image, snap) == k
  {
    Found(s, image);
    hide Wf;
  }

  lemma LostRefers(x: Image, y: Image, r: Ref)
    requires y == x || LostSnaps(x, y)
    ensures RefersTo(y, r) ==> RefersTo(x, r)
  {
  }

  /** Dropping a snapshot leaves the others' names. */
  lemma NamesLeft(m: Store, image: string, snap: string, todo: set<string>)
    requires Wf(m) && SnapNameSet(m, image) <= todo
    ensures SnapNameSet(Dropped(m, image, snap), image) <= todo - {snap}
  {
    HasName(m, image, snap);
    hide Wf;
  }

  /** The loop of delete over a disk's own snapshots. */
  method RemoveSnaps(be: GcJob.Pool, image: string, snaps: set<string>, ghost a: Store, ghost used: set<string>) returns (ok: bool)
    requires StoreInv(be.store, used) && Same(a, be.store) && be.store == a && Wf(a) && snaps == SnapNameSet(a, image)
    modifies be
    ensures StoreInv(be.store, used) && Same(a, be.store) && FewerSnaps(a, be.store, image)
    ensures ok ==> SnapNameSet(be.store, image) == {}
    ensures !be.flaky && !IsPinned(a, image) ==> ok
  {
    FewerSelf(a, image);
    hide StoreInv, Same, Has, Wf, FewerSnaps, SnapNameSet, IsPinned, Dropped, Reguarded, Only, SnapHasChildren, NotPurged;
    var todo := snaps;
    while todo != {}
      invariant StoreInv(be.store, used) && Same(a, be.store) && FewerSnaps(a, be.store, image) && SnapNameSet(be.store, image) <= todo
      decreases |todo|
    {
      ghost var m := be.store;
      InvIsWf(m, used);
      var snap :| snap in todo;
      FewerMore(a, m, image, snap);
      NamesLeft(m, image, snap, todo);
      if !IsPinned(a, image) { FewerChildren(a, m, image, snap); }
      ghost var before := be.refused;
      ok := PurgeSnap(be, image, snap, a, used);
      if !ok {
        NotPurgedIs(m, be.store, image, snap, before, be.refused);
        return;
      }
      todo := todo - {snap};
    }
    return true;
  }

  lemma NotPurgedIs(m: Store, b: Store, image: string, snap: string, before: seq<Call>, after: seq<Call>)
    requires NotPurged(m, b, image, snap, before, after)
    ensures b == m || b == Reguarded(m, image, snap, false)
  {
  }

  /** Removing an image whose snapshots are gone. */
  lemma RemoveReply(a: Store, m: Store, image: string)
    requires Wf(a) && Wf(m) && FewerSnaps(a, m, image) && SnapNameSet(m, image) == {}
    ensures image !in a.dir ==> Apply(m, Remove(image)) == NotFound && m == a
    ensures image in a.dir ==> a.dir[image] in a.images && Apply(m, Remove(image)) == Done(DiskRemoved(a, image))
  {
    SameElsewhere(a, m, image);
    hide Wf, FewerSnaps;
    HasName(a, image, "");
    if image in a.dir {
      NoSnapsLeft(m, image);
    }
  }

  lemma SameElsewhere(a: Store, m: Store, image: string)
    requires Wf(a) && FewerSnaps(a, m, image)
    ensures m.dir == a.dir && m.next == a.next && m.images.Keys == a.images.Keys
    ensures if image in a.dir then m.images - {a.dir[image]} == a.images - {a.dir[image]} else m.images == a.images
  {
    forall j | j in a.images && (image in a.dir ==> j != a.dir[image])
      ensures m.images[j] == a.images[j]
    {
      OtherName(a, image, j);
    }
    hide Wf;
  }

  lemma OtherName(s: Store, image: string, j: nat)
    requires Wf(s) && j in s.images && (image in s.dir ==> j != s.dir[image])
    ensures s.images[j].name != image
  {
  }

  lemma NoSnapsLeft(s: Store, image: string)
    requires Wf(s) && image in s.dir && SnapNameSet(s, image) == {}
    ensures s.dir[image] in s.images && s.images[s.dir[image]].snaps == map[]
  {
    Found(s, image);
    NamesThere(s.images[s.dir[image]]);
    hide Wf, NamesMatch;
  }

  lemma NamesThere(img: Image)
    requires NamesMatch(img)
    ensures img.snapDir.Keys == {} ==> img.snaps == map[]
  {
    if img.snaps != map[] {
      var k :| k in img.snaps;
      assert img.snaps[k].name in img.snapDir.Keys;
    }
  }

  /** The disk's own snapshots and then the disk itself are removed. */
  method RemoveDisk(be: GcJob.Pool, image: string, ghost used: set<string>) returns (ok: bool)
    requires StoreInv(be.store, used)
    modifies be
    ensures StoreInv(be.store, used) && Same(old(be.store), be.store)
    ensures ok ==> if image in old(be.store.dir) then old(be.store.dir)[image] in old(be.store.images) && be.store == DiskRemoved(old(be.store), image)
                   else be.store == old(be.store)
    ensures !ok ==> FewerSnaps(old(be.store), be.store, image)
    ensures !be.flaky && !old(IsPinned(be.store, image)) ==> ok
  {
    ghost var a := be.store;
    InvIsWf(a, used);
    SameSelf(a);
    hide StoreInv, Same, Wf, Apply, FewerSnaps, IsPinned, SnapNameSet, Permitted, NewNames;
    ok := RemoveSnaps(be, image, SnapNameSet(be.store, image), a, used);
    if !ok {
      return;
    }
    ghost var m := be.store;
    InvIsWf(m, used);
    RemoveReply(a, m, image);
    MayTakeAway(m, used, image, image);
    assert used + {} == used;
    var r;
    ghost var used';
    r, used' := Ask(be, Remove(image), a, used);
    ok := !r.Refused?;
  }

  /**
   CephRBDVDI.delete of a disk: refused exactly while it has snapshots that are VDIs; otherwise
   the disk is gone, or trashed with a job exactly if something still reads through one of its
   own snapshots, and nothing else is different. A failure leaves the disk, at most without
   some of its own snapshots and their protection.
   */
  method DeleteDisk(be: GcJob.Pool, image: string, trash: string, ghost used: set<string>)
    returns (outcome: Outcome, job: Option<Job>, ghost used': set<string>)
    requires StoreInv(be.store, used) && !IsTrash(image) && IsTrash(trash) && trash !in used
    modifies be
    ensures StoreInv(be.store, used') && Same(old(be.store), be.store)
    ensures outcome == InUse <==> old(HasVdiSnaps(be.store, image))
    ensures outcome == InUse ==> be.store == old(be.store)
    ensures outcome == Ok ==> image !in be.store.dir
    ensures job.Some? <==> outcome == Ok && old(IsPinned(be.store, image))
    ensures job.Some? ==> image in old(be.store.dir) && old(be.store.dir)[image] in old(be.store.images)
                          && job.value == ImageJob(trash) && JobOk(job.value, used') && be.store == RenamedStore(old(be.store), image, trash)
    ensures outcome == Ok && job.None? ==>
              if image in old(be.store.dir) then old(be.store.dir)[image] in old(be.store.images) && be.store == DiskRemoved(old(be.store), image)
              else be.store == old(be.store)
    ensures outcome == Failed ==> FewerSnaps(old(be.store), be.store, image)
    ensures !be.flaky ==> outcome != Failed
  {
    InvIsWf(be.store, used);
    SameSelf(be.store);
    VdiSnapsAre(be.store, image);
    PinnedSnapsAre(be.store, image);
    FewerSelf(be.store, image);
    hide StoreInv, Same, Wf, VdiSnaps, HasVdiSnaps, PinnedSnaps, IsPinned, IsTrash, FewerSnaps;
    if VdiSnaps(be.store, image) != {} {
      return InUse, None, used;
    }
    var ok;
    if PinnedSnaps(be.store, image) != {} {
      ok, used' := TrashDisk(be, image, trash, used);
      return if ok then Ok else Failed, if ok then Some(ImageJob(trash)) else None, used';
    }
    ok := RemoveDisk(be, image, used);
    return if ok then Ok else Failed, None, used;
  }
}
