/**
 The block-image store behind the storage repository: copy-on-write images with
 snapshots, as the management calls of the backend see it.
 */
module RbdStore {

  datatype Option<T> = None | Some(value: T)

  /** A snapshot, by the numbers of its image and of itself; renaming changes neither. */
  datatype Ref = Ref(image: nat, snap: nat)

  /** Blocks written here, and the snapshot that shows through where there are none. */
  datatype Layer = Layer(own: map<nat, int>, parent: Option<Ref>)

  datatype Snapshot = Snapshot(name: string, layer: Layer, guarded: bool)

  /** deep is the deep-flatten feature. */
  datatype Image = Image(name: string, deep: bool, head: Layer, snaps: map<nat, Snapshot>, snapDir: map<string, nat>)

  type Images = map<nat, Image>

  datatype Store = Store(images: Images, dir: map<string, nat>, next: nat)

  // ------------------------------------------------------------------- reading

  /** The blocks seen through a layer of image id; a parent always has a smaller number. */
  function View(images: Images, id: nat, l: Layer): map<nat, int>
    decreases id
  {
    match l.parent
    case None => l.own
    case Some(Ref(i, k)) =>
      if i < id && i in images && k in images[i].snaps then View(images, i, images[i].snaps[k].layer) + l.own else l.own
  }

  // ------------------------------------------------------------ well-formedness

  /** The parent of a layer is there, older, and protected. */
  ghost predicate GoodLayer(images: Images, id: nat, l: Layer)
  {
    l.parent.Some? ==>
      var Ref(i, k) := l.parent.value;
      i < id && i in images && k in images[i].snaps && images[i].snaps[k].guarded
  }

  ghost predicate GoodImage(images: Images, id: nat, next: nat)
    requires id in images
  {
    var img := images[id];
    && id < next && GoodLayer(images, id, img.head)
    && (forall k :: k in img.snaps ==> k < next && GoodLayer(images, id, img.snaps[k].layer))
    && (forall k :: k in img.snaps ==> img.snaps[k].name in img.snapDir && img.snapDir[img.snaps[k].name] == k)
    && (forall n :: n in img.snapDir ==> img.snapDir[n] in img.snaps && img.snaps[img.snapDir[n]].name == n)
  }

  ghost predicate GoodDir(images: Images, dir: map<string, nat>)
  {
    && (forall id :: id in images ==> images[id].name in dir && dir[images[id].name] == id)
    && (forall n :: n in dir ==> dir[n] in images && images[dir[n]].name == n)
  }

  ghost predicate Wf(s: Store)
  {
    GoodDir(s.images, s.dir) && forall id :: id in s.images ==> GoodImage(s.images, id, s.next)
  }

  /** Every snapshot of an image was taken while its head had the parent it was cloned from, or none. */
  ghost predicate FlatImage(img: Image)
  {
    forall k :: k in img.snaps ==> img.snaps[k].layer.parent == None || img.snaps[k].layer.parent == img.head.parent
  }

  /** An image with a flat head has no snapshot that still has a parent. */
  ghost predicate FlatHeads(s: Store)
  {
    forall id :: id in s.images ==> FlatImage(s.images[id])
  }

  /** Some layer of the image reads through the snapshot. */
  predicate RefersTo(img: Image, r: Ref)
  {
    img.head.parent == Some(r) || exists k :: k in img.snaps && img.snaps[k].layer.parent == Some(r)
  }

  function Children(images: Images, r: Ref): (ids: set<nat>)
    ensures forall id :: id in ids ==> id in images
  {
    set id | id in images && RefersTo(images[id], r)
  }

  // ------------------------------------------------------------------- calls

  datatype Call =
    | Create(image: string, deep: bool)
    | Write(image: string, block: nat, value: int)
    | SnapCreate(image: string, snap: string)
    | Protect(image: string, snap: string)
    | Unprotect(image: string, snap: string)
    | SnapRemove(image: string, snap: string)
    | Clone(image: string, snap: string, dst: string, deep: bool)
    | Flatten(image: string)
    | ImageRename(image: string, to: string)
    | SnapRename(image: string, snap: string, to: string)
    | Remove(image: string)

  /** A call takes effect, or fails and changes nothing. */
  datatype Reply = Done(store: Store) | NotFound | Refused

  /** The image with its head's blocks all its own, and its snapshots' too if it can flatten deeply. */
  function Flattened(images: Images, id: nat): Image
    requires id in images
  {
    var img := images[id];
    var head := Layer(View(images, id, img.head), None);
    if img.deep then img.(head := head, snaps := map k | k in img.snaps :: FlatSnapshot(images, id, img.snaps[k]))
    else img.(head := head)
  }

  function FlatSnapshot(images: Images, id: nat, sn: Snapshot): Snapshot
  {
    sn.(layer := Layer(View(images, id, sn.layer), None))
  }

  function WithImage(s: Store, id: nat, img: Image): Store
  {
    s.(images := s.images[id := img])
  }

  function SetGuard(img: Image, k: nat, guarded: bool): Image
    requires k in img.snaps
  {
    img.(snaps := img.snaps[k := img.snaps[k].(guarded := guarded)])
  }

  function DropSnap(img: Image, k: nat): Image
    requires k in img.snaps
  {
    img.(snaps := img.snaps - {k}, snapDir := img.snapDir - {img.snaps[k].name})
  }

  function RenameSnap(img: Image, k: nat, to: string): Image
    requires k in img.snaps
  {
    img.(snaps := img.snaps[k := img.snaps[k].(name := to)], snapDir := (img.snapDir - {img.snaps[k].name})[to := k])
  }

  function AddSnap(img: Image, k: nat, snap: string): Image
  {
    img.(snaps := img.snaps[k := Snapshot(snap, img.head, false)], snapDir := img.snapDir[snap := k])
  }

  function AddImage(s: Store, img: Image): Store
  {
    Store(s.images[s.next := img], s.dir[img.name := s.next], s.next + 1)
  }

  function ApplySnap(s: Store, id: nat, snap: string, c: Call): Reply
    requires id in s.images && snap in s.images[id].snapDir && s.images[id].snapDir[snap] in s.images[id].snaps
  {
    var img := s.images[id];
    var k := img.snapDir[snap];
    match c
    case Protect(_, _) => Done(WithImage(s, id, SetGuard(img, k, true)))
    case Unprotect(_, _) =>
      if Children(s.images, Ref(id, k)) != {} then Refused
      else Done(WithImage(s, id, SetGuard(img, k, false)))
    case SnapRemove(_, _) =>
      if img.snaps[k].guarded || Children(s.images, Ref(id, k)) != {} then Refused
      else Done(WithImage(s, id, DropSnap(img, k)))
    case Clone(_, _, dst, deep) =>
      if !img.snaps[k].guarded || dst in s.dir then Refused
      else Done(AddImage(s, Image(dst, deep, Layer(map[], Some(Ref(id, k))), map[], map[])))
    case SnapRename(_, _, to) =>
      if to in img.snapDir then Refused
      else Done(WithImage(s, id, RenameSnap(img, k, to)))
    case _ => Refused
  }

  function ApplyImage(s: Store, id: nat, c: Call): Reply
    requires id in s.images
  {
    var img := s.images[id];
    match c
    case Write(_, block, value) =>
      Done(WithImage(s, id, img.(head := img.head.(own := img.head.own[block := value]))))
    case SnapCreate(_, snap) =>
      if snap in img.snapDir then Refused
      else Done(WithImage(s, id, AddSnap(img, s.next, snap)).(next := s.next + 1))
    case Flatten(_) => if img.head.parent.None? then Refused else Done(WithImage(s, id, Flattened(s.images, id)))
    case ImageRename(image, to) =>
      if to in s.dir then Refused
      else Done(Store(s.images[id := img.(name := to)], (s.dir - {image})[to := id], s.next))
    case Remove(image) =>
      if img.snaps != map[] then Refused else Done(Store(s.images - {id}, s.dir - {image}, s.next))
    case _ => Refused
  }

  function SnapOf(c: Call): Option<string>
  {
    match c
    case Protect(_, snap) => Some(snap)
    case Unprotect(_, snap) => Some(snap)
    case SnapRemove(_, snap) => Some(snap)
    case Clone(_, snap, _, _) => Some(snap)
    case SnapRename(_, snap, _) => Some(snap)
    case _ => None
  }

  /** One call of the backend: names are looked up, then the librbd rules decide. */
  function Apply(s: Store, c: Call): Reply
    requires Wf(s)
  {
    if c.Create? then
      if c.image in s.dir then Refused
      else Done(AddImage(s, Image(c.image, c.deep, Layer(map[], None), map[], map[])))
    else if c.image !in s.dir then NotFound
    else
      var id := s.dir[c.image];
      match SnapOf(c)
      case None => ApplyImage(s, id, c)
      case Some(snap) => if snap !in s.images[id].snapDir then NotFound else ApplySnap(s, id, snap, c)
  }

  // -------------------------------------------------------- meaning is kept

  /** The layers of images, and the layers behind them, mean the same in images'. */
  ghost predicate SameBehind(images: Images, images': Images)
  {
    forall i, k :: i in images && k in images[i].snaps && Children(images, Ref(i, k)) != {} ==>
      && i in images' && k in images'[i].snaps
      && (images'[i].snaps[k].layer == images[i].snaps[k].layer
          || images'[i].snaps[k].layer == Layer(View(images, i, images[i].snaps[k].layer), None))
  }

  ghost predicate LayerOf(images: Images, id: nat, l: Layer)
  {
    id in images && (l == images[id].head || exists k :: k in images[id].snaps && images[id].snaps[k].layer == l)
  }

  lemma ParentThere(s: Store, id: nat, l: Layer)
    requires Wf(s) && LayerOf(s.images, id, l) && l.parent.Some?
    ensures
      var Ref(i, k) := l.parent.value;
      && i < id && i in s.images && k in s.images[i].snaps && s.images[i].snaps[k].guarded
      && Children(s.images, l.parent.value) != {} && LayerOf(s.images, i, s.images[i].snaps[k].layer)
  {
    assert GoodImage(s.images, id, s.next) && GoodLayer(s.images, id, l);
    hide Wf, GoodImage;
    assert RefersTo(s.images[id], l.parent.value);
    assert id in Children(s.images, l.parent.value);
  }

  lemma {:induction false} SameView(s: Store, images': Images, id: nat, l: Layer)
    requires Wf(s) && SameBehind(s.images, images') && LayerOf(s.images, id, l)
    ensures View(images', id, l) == View(s.images, id, l)
    decreases id
  {
    if l.parent.Some? {
      var Ref(i, k) := l.parent.value;
      ParentThere(s, id, l);
      hide Wf, LayerOf, Children;
      var behind := s.images[i].snaps[k].layer;
      if images'[i].snaps[k].layer == behind {
        SameView(s, images', i, behind);
      }
    }
  }

  /** A layer, or its flattened form. */
  ghost predicate SameLayer(images: Images, id: nat, l: Layer, l': Layer)
  {
    l' == l || l' == Layer(View(images, id, l), None)
  }

  ghost predicate SameLayers(images: Images, images': Images, written: Option<nat>)
  {
    forall id :: id in images && id in images' ==>
      && (written != Some(id) ==> SameLayer(images, id, images[id].head, images'[id].head))
      && forall k :: k in images[id].snaps && k in images'[id].snaps ==>
           SameLayer(images, id, images[id].snaps[k].layer, images'[id].snaps[k].layer)
  }

  /** What every remaining image and snapshot shows is unchanged, but for the head that was written. */
  ghost predicate Kept(images: Images, images': Images, written: Option<nat>)
  {
    forall id :: id in images && id in images' ==>
      && (written != Some(id) ==> View(images', id, images'[id].head) == View(images, id, images[id].head))
      && forall k :: k in images[id].snaps && k in images'[id].snaps ==>
           View(images', id, images'[id].snaps[k].layer) == View(images, id, images[id].snaps[k].layer)
  }

  lemma LayerKept(s: Store, images': Images, id: nat, l: Layer, l': Layer)
    requires Wf(s) && SameBehind(s.images, images') && LayerOf(s.images, id, l) && SameLayer(s.images, id, l, l')
    ensures View(images', id, l') == View(s.images, id, l)
  {
    hide Wf, LayerOf, SameBehind;
    SameView(s, images', id, l);
  }

  lemma KeptBy(s: Store, images': Images, written: Option<nat>)
    requires Wf(s) && SameBehind(s.images, images') && SameLayers(s.images, images', written)
    ensures Kept(s.images, images', written)
  {
    hide Wf, SameBehind, View, SameLayer;
    forall id | id in s.images && id in images'
      ensures written != Some(id) ==> View(images', id, images'[id].head) == View(s.images, id, s.images[id].head)
      ensures forall k :: k in s.images[id].snaps && k in images'[id].snaps ==>
                View(images', id, images'[id].snaps[k].layer) == View(s.images, id, s.images[id].snaps[k].layer)
    {
      if written != Some(id) { LayerKept(s, images', id, s.images[id].head, images'[id].head); }
      forall k | k in s.images[id].snaps && k in images'[id].snaps
        ensures View(images', id, images'[id].snaps[k].layer) == View(s.images, id, s.images[id].snaps[k].layer)
      {
        LayerKept(s, images', id, s.images[id].snaps[k].layer, images'[id].snaps[k].layer);
      }
    }
  }

  // ------------------------------------------------- changing a single image

  /** Snapshots that something reads through stay, and stay protected. */
  ghost predicate ParentsStay(s: Store, id: nat, img: Image)
    requires id in s.images
  {
    forall k :: k in s.images[id].snaps && Children(s.images, Ref(id, k)) != {} ==>
      k in img.snaps && (s.images[id].snaps[k].guarded ==> img.snaps[k].guarded)
  }

  /** Snapshots that stay mean the same. */
  ghost predicate SnapsSame(s: Store, id: nat, img: Image)
    requires id in s.images
  {
    forall k :: k in s.images[id].snaps && k in img.snaps ==>
      SameLayer(s.images, id, s.images[id].snaps[k].layer, img.snaps[k].layer)
  }

  lemma SnapsEqual(s: Store, id: nat, img: Image)
    requires id in s.images
    requires forall k :: k in s.images[id].snaps && k in img.snaps ==> img.snaps[k].layer == s.images[id].snaps[k].layer
    ensures SnapsSame(s, id, img)
  {
    hide View;
  }

  ghost predicate NamesMatch(img: Image)
  {
    && (forall k :: k in img.snaps ==> img.snaps[k].name in img.snapDir && img.snapDir[img.snaps[k].name] == k)
    && (forall n :: n in img.snapDir ==> img.snapDir[n] in img.snaps && img.snaps[img.snapDir[n]].name == n)
  }

  /** The layers of img have parents that the layers of image id have already. */
  ghost predicate OldParents(s: Store, id: nat, img: Image, next: nat)
  {
    && ParentOf(s, id, img.head)
    && forall k :: k in img.snaps ==> k < next && ParentOf(s, id, img.snaps[k].layer)
  }

  ghost predicate ParentOf(s: Store, id: nat, l: Layer)
  {
    l.parent.Some? ==> exists l0 :: LayerOf(s.images, id, l0) && l0.parent == l.parent
  }

  lemma GoodLayerStays(s: Store, id: nat, img: Image, j: nat, l: Layer)
    requires Wf(s) && id in s.images && ParentsStay(s, id, img) && ParentOf(s, j, l)
    ensures GoodLayer(s.images[id := img], j, l)
  {
    if l.parent.Some? {
      var l0 :| LayerOf(s.images, j, l0) && l0.parent == l.parent;
      ParentThere(s, j, l0);
      hide Wf, LayerOf, Children;
      var Ref(i, k) := l.parent.value;
      assert k in s.images[i].snaps && Children(s.images, Ref(i, k)) != {};
    }
  }

  lemma OwnParents(s: Store, id: nat)
    requires Wf(s) && id in s.images
    ensures OldParents(s, id, s.images[id], s.next) && NamesMatch(s.images[id])
  {
    assert GoodImage(s.images, id, s.next);
    hide Wf;
    assert LayerOf(s.images, id, s.images[id].head);
    forall k | k in s.images[id].snaps
      ensures ParentOf(s, id, s.images[id].snaps[k].layer)
    {
      assert LayerOf(s.images, id, s.images[id].snaps[k].layer);
    }
  }

  lemma ImageStaysGood(s: Store, id: nat, img: Image, j: nat, img': Image, next: nat)
    requires Wf(s) && id in s.images && j in s.images && ParentsStay(s, id, img) && next >= s.next && j < next
    requires img' == s.images[id := img][j] && NamesMatch(img') && OldParents(s, j, img', next)
    ensures GoodImage(s.images[id := img], j, next)
  {
    hide Wf, ParentsStay, ParentOf, GoodLayer;
    GoodLayerStays(s, id, img, j, img'.head);
    forall k | k in img'.snaps
      ensures GoodLayer(s.images[id := img], j, img'.snaps[k].layer)
    {
      GoodLayerStays(s, id, img, j, img'.snaps[k].layer);
    }
  }

  lemma UpdateBehind(s: Store, id: nat, img: Image)
    requires id in s.images && ParentsStay(s, id, img) && SnapsSame(s, id, img)
    ensures SameBehind(s.images, s.images[id := img])
  {
    hide View, Children;
  }

  /** Replacing an image by one that keeps its children's parents. */
  lemma UpdateWf(s: Store, id: nat, img: Image, dir: map<string, nat>, next: nat)
    requires Wf(s) && id in s.images && GoodDir(s.images[id := img], dir) && next >= s.next
    requires ParentsStay(s, id, img) && NamesMatch(img) && OldParents(s, id, img, next) && SnapsSame(s, id, img)
    ensures Wf(Store(s.images[id := img], dir, next)) && SameBehind(s.images, s.images[id := img])
  {
    var images' := s.images[id := img];
    UpdateBehind(s, id, img);
    hide SameBehind;
    forall j | j in images'
      ensures GoodImage(images', j, next)
    {
      OwnParents(s, j);
      assert GoodImage(s.images, j, s.next);
      hide Wf, ParentsStay, GoodDir, SnapsSame;
      ImageStaysGood(s, id, img, j, images'[j], next);
    }
  }

  /** The head that a call writes to. */
  function Written(s: Store, c: Call): Option<nat>
  {
    if c.Write? && c.image in s.dir then Some(s.dir[c.image]) else None
  }

  /** What a call that took effect leaves behind. */
  ghost predicate KeepsAll(s: Store, c: Call, s': Store)
  {
    Wf(s') && s'.next >= s.next && SameBehind(s.images, s'.images) && SameLayers(s.images, s'.images, Written(s, c))
  }

  /** A change to one image, seen from outside. */
  lemma OneImage(s: Store, c: Call, id: nat, img: Image, dir: map<string, nat>, next: nat)
    requires Wf(s) && id in s.images && GoodDir(s.images[id := img], dir) && next >= s.next
    requires ParentsStay(s, id, img) && NamesMatch(img) && OldParents(s, id, img, next)
    requires Written(s, c) != Some(id) ==> SameLayer(s.images, id, s.images[id].head, img.head)
    requires SnapsSame(s, id, img)
    ensures KeepsAll(s, c, Store(s.images[id := img], dir, next))
  {
    UpdateWf(s, id, img, dir, next);
    hide Wf, SameBehind, View, ParentsStay, NamesMatch, OldParents, GoodDir;
  }

  lemma SameNameDir(s: Store, id: nat, img: Image)
    requires Wf(s) && id in s.images && img.name == s.images[id].name
    ensures GoodDir(s.images[id := img], s.dir)
  {
  }

  /** What a name that is found stands for. */
  lemma Found(s: Store, image: string)
    requires Wf(s) && image in s.dir
    ensures var id := s.dir[image];
      && id in s.images && s.images[id].name == image && OldParents(s, id, s.images[id], s.next)
      && NamesMatch(s.images[id]) && id < s.next
  {
    assert GoodImage(s.images, s.dir[image], s.next);
    OwnParents(s, s.dir[image]);
  }

  /** An image of the store, as far as a change to it alone must know. */
  ghost predicate Sound(s: Store, id: nat)
  {
    id in s.images && NamesMatch(s.images[id]) && OldParents(s, id, s.images[id], s.next)
  }

  ghost predicate GoodUpdate(s: Store, id: nat, img: Image, next: nat)
    requires id in s.images
  {
    NamesMatch(img) && OldParents(s, id, img, next) && ParentsStay(s, id, img) && SnapsSame(s, id, img)
  }

  lemma GuardUpdate(s: Store, id: nat, k: nat, guarded: bool)
    requires Sound(s, id) && k in s.images[id].snaps
    requires guarded || Children(s.images, Ref(id, k)) == {}
    ensures GoodUpdate(s, id, SetGuard(s.images[id], k, guarded), s.next)
  {
    hide ParentOf, Children, SnapsSame;
    SnapsEqual(s, id, SetGuard(s.images[id], k, guarded));
  }

  lemma RenameNames(img: Image, k: nat, to: string)
    requires NamesMatch(img) && k in img.snaps && to !in img.snapDir
    ensures NamesMatch(RenameSnap(img, k, to))
  {
  }

  lemma RenameUpdate(s: Store, id: nat, k: nat, to: string)
    requires Sound(s, id) && k in s.images[id].snaps && to !in s.images[id].snapDir
    ensures GoodUpdate(s, id, RenameSnap(s.images[id], k, to), s.next)
  {
    RenameNames(s.images[id], k, to);
    hide ParentOf, Children, SnapsSame, NamesMatch;
    SnapsEqual(s, id, RenameSnap(s.images[id], k, to));
  }

  lemma DropUpdate(s: Store, id: nat, k: nat)
    requires Sound(s, id) && k in s.images[id].snaps && Children(s.images, Ref(id, k)) == {}
    ensures GoodUpdate(s, id, DropSnap(s.images[id], k), s.next)
  {
    hide ParentOf, Children, SnapsSame;
    SnapsEqual(s, id, DropSnap(s.images[id], k));
  }

  lemma AddName(img: Image, k: nat, snap: string)
    requires NamesMatch(img) && k !in img.snaps && snap !in img.snapDir
    ensures NamesMatch(AddSnap(img, k, snap))
  {
  }

  lemma AddUpdate(s: Store, id: nat, snap: string)
    requires Sound(s, id) && snap !in s.images[id].snapDir
    ensures GoodUpdate(s, id, AddSnap(s.images[id], s.next, snap), s.next + 1)
  {
    var img' := AddSnap(s.images[id], s.next, snap);
    assert s.next !in s.images[id].snaps;
    AddName(s.images[id], s.next, snap);
    hide ParentOf, Children, SnapsSame, NamesMatch;
    SnapsEqual(s, id, img');
  }

  lemma HeadUpdate(s: Store, id: nat, head: Layer)
    requires Sound(s, id) && head.parent == s.images[id].head.parent
    ensures GoodUpdate(s, id, s.images[id].(head := head), s.next)
  {
    hide Children, SnapsSame, LayerOf;
    SnapsEqual(s, id, s.images[id].(head := head));
  }

  lemma NameUpdate(s: Store, id: nat, to: string)
    requires Sound(s, id)
    ensures GoodUpdate(s, id, s.images[id].(name := to), s.next)
  {
    hide ParentOf, Children, SnapsSame;
    SnapsEqual(s, id, s.images[id].(name := to));
  }

  /** Replacing an image that keeps its name. */
  lemma Replaced(s: Store, c: Call, id: nat, img: Image, next: nat)
    requires Wf(s) && id in s.images && img.name == s.images[id].name && next >= s.next && GoodUpdate(s, id, img, next)
    requires Written(s, c) != Some(id) ==> SameLayer(s.images, id, s.images[id].head, img.head)
    ensures KeepsAll(s, c, WithImage(s, id, img).(next := next))
  {
    SameNameDir(s, id, img);
    hide Wf, View, KeepsAll, NamesMatch, OldParents, ParentsStay, SnapsSame, GoodDir, SameLayer;
    OneImage(s, c, id, img, s.dir, next);
  }

  lemma IsSound(s: Store, id: nat)
    requires Wf(s) && id in s.images
    ensures Sound(s, id)
  {
    OwnParents(s, id);
  }

  lemma FlattenUpdate(s: Store, id: nat)
    requires Sound(s, id)
    ensures GoodUpdate(s, id, Flattened(s.images, id), s.next)
    ensures SameLayer(s.images, id, s.images[id].head, Flattened(s.images, id).head)
  {
    hide View, Children, LayerOf;
  }

  lemma FlattenKeeps(s: Store, c: Call, id: nat)
    requires Wf(s) && id in s.images && !c.Write?
    ensures KeepsAll(s, c, WithImage(s, id, Flattened(s.images, id)))
  {
    hide Wf, View, KeepsAll, GoodUpdate, SameLayer, Sound;
    IsSound(s, id);
    FlattenUpdate(s, id);
    Replaced(s, c, id, Flattened(s.images, id), s.next);
  }

  lemma SnapCreateKeeps(s: Store, c: Call, id: nat, snap: string)
    requires Wf(s) && id in s.images && snap !in s.images[id].snapDir && !c.Write?
    ensures KeepsAll(s, c, WithImage(s, id, AddSnap(s.images[id], s.next, snap)).(next := s.next + 1))
  {
    hide Wf, View, KeepsAll, GoodUpdate, Sound;
    IsSound(s, id);
    AddUpdate(s, id, snap);
    Replaced(s, c, id, AddSnap(s.images[id], s.next, snap), s.next + 1);
  }

  lemma HeadKeeps(s: Store, c: Call, id: nat, head: Layer)
    requires Wf(s) && id in s.images && Written(s, c) == Some(id) && head.parent == s.images[id].head.parent
    ensures KeepsAll(s, c, WithImage(s, id, s.images[id].(head := head)))
  {
    hide Wf, View, KeepsAll, GoodUpdate, Sound, SameLayer;
    IsSound(s, id);
    HeadUpdate(s, id, head);
    Replaced(s, c, id, s.images[id].(head := head), s.next);
  }

  lemma RenameKeeps(s: Store, c: Call, id: nat, to: string)
    requires Wf(s) && id in s.images && to !in s.dir && !c.Write?
    ensures KeepsAll(s, c, Store(s.images[id := s.images[id].(name := to)], (s.dir - {s.images[id].name})[to := id], s.next))
  {
    var img' := s.images[id].(name := to);
    var dir := (s.dir - {s.images[id].name})[to := id];
    assert GoodDir(s.images[id := img'], dir);
    IsSound(s, id);
    NameUpdate(s, id, to);
    hide Wf, View, KeepsAll, NamesMatch, OldParents, ParentsStay, SnapsSame, GoodDir;
    OneImage(s, c, id, img', dir, s.next);
  }

  /** Images that stay as they are mean the same, if what they read through stays. */
  lemma SameOld(images: Images, images': Images, written: Option<nat>)
    requires forall id :: id in images && id in images' ==> images'[id] == images[id]
    requires forall id :: id in images && id !in images' ==> images[id].snaps == map[]
    ensures SameBehind(images, images') && SameLayers(images, images', written)
  {
    hide View, Children;
  }

  lemma StaysGood(s: Store, images': Images, id: nat, next: nat)
    requires Wf(s) && id in s.images && id in images' && images'[id] == s.images[id] && next >= s.next
    requires forall j :: j in s.images && j in images' ==> images'[j] == s.images[j]
    requires forall j :: j in s.images && j !in images' ==> s.images[j].snaps == map[]
    ensures GoodImage(images', id, next)
  {
    assert GoodImage(s.images, id, s.next);
    hide Wf;
    assert forall k :: k in s.images[id].snaps ==> GoodLayer(s.images, id, s.images[id].snaps[k].layer);
  }

  lemma NextIsNew(s: Store)
    requires Wf(s)
    ensures s.next !in s.images
  {
    assert forall id :: id in s.images ==> GoodImage(s.images, id, s.next);
    hide Wf, GoodDir;
  }

  /** A new image; it may only refer to a protected snapshot that is there. */
  lemma AddKeeps(s: Store, c: Call, img: Image)
    requires Wf(s) && img.name !in s.dir && img.snaps == map[] && img.snapDir == map[] && !c.Write?
    requires GoodLayer(s.images, s.next, img.head)
    ensures KeepsAll(s, c, AddImage(s, img))
  {
    var images' := s.images[s.next := img];
    hide GoodDir, View, Children, SameBehind, SameLayers, Wf;
    NextIsNew(s);
    AddDir(s, img);
    SameOld(s.images, images', Written(s, c));
    assert GoodImage(images', s.next, s.next + 1);
    hide GoodImage;
    assert Wf(AddImage(s, img)) by { AllGood(s, img); }
  }

  lemma AddDir(s: Store, img: Image)
    requires Wf(s) && img.name !in s.dir && s.next !in s.images
    ensures GoodDir(s.images[s.next := img], s.dir[img.name := s.next])
  {
    assert GoodDir(s.images, s.dir);
    hide Wf;
  }

  lemma AllGood(s: Store, img: Image)
    requires Wf(s) && s.next !in s.images && GoodImage(s.images[s.next := img], s.next, s.next + 1)
    requires GoodDir(s.images[s.next := img], s.dir[img.name := s.next])
    ensures Wf(AddImage(s, img))
  {
    var images' := s.images[s.next := img];
    hide GoodDir, GoodImage;
    forall id | id in images'
      ensures GoodImage(images', id, s.next + 1)
    {
      if id in s.images { StaysGood(s, images', id, s.next + 1); }
    }
  }

  lemma RemoveKeeps(s: Store, c: Call, id: nat)
    requires Wf(s) && id in s.images && s.images[id].snaps == map[] && !c.Write?
    ensures KeepsAll(s, c, Store(s.images - {id}, s.dir - {s.images[id].name}, s.next))
  {
    var images' := s.images - {id};
    assert GoodDir(images', s.dir - {s.images[id].name});
    SameOld(s.images, images', Written(s, c));
    hide GoodDir, View, Children, SameBehind, SameLayers, GoodImage;
    forall j | j in images'
      ensures GoodImage(images', j, s.next)
    {
      StaysGood(s, images', j, s.next);
    }
  }

  lemma SnapCallKeeps(s: Store, c: Call, id: nat, snap: string)
    requires Wf(s) && id in s.images && snap in s.images[id].snapDir && s.images[id].snapDir[snap] in s.images[id].snaps
    requires s.images[id].snaps[s.images[id].snapDir[snap]].name == snap && ApplySnap(s, id, snap, c).Done?
    ensures KeepsAll(s, c, ApplySnap(s, id, snap, c).store)
  {
    var k := s.images[id].snapDir[snap];
    hide KeepsAll, Wf, Children, AddImage, GoodUpdate, Sound, View;
    IsSound(s, id);
    if c.Protect? || c.Unprotect? {
      GuardUpdate(s, id, k, c.Protect?);
      Replaced(s, c, id, SetGuard(s.images[id], k, c.Protect?), s.next);
    } else if c.SnapRename? {
      RenameUpdate(s, id, k, c.to);
      Replaced(s, c, id, RenameSnap(s.images[id], k, c.to), s.next);
    } else if c.SnapRemove? {
      DropUpdate(s, id, k);
      Replaced(s, c, id, DropSnap(s.images[id], k), s.next);
    } else {
      CloneKeeps(s, c, id, k);
    }
  }

  lemma CloneKeeps(s: Store, c: Call, id: nat, k: nat)
    requires Wf(s) && c.Clone? && c.dst !in s.dir && id in s.images && k in s.images[id].snaps && s.images[id].snaps[k].guarded
    ensures KeepsAll(s, c, AddImage(s, Image(c.dst, c.deep, Layer(map[], Some(Ref(id, k))), map[], map[])))
  {
    assert GoodImage(s.images, id, s.next);
    AddKeeps(s, c, Image(c.dst, c.deep, Layer(map[], Some(Ref(id, k))), map[], map[]));
  }

  lemma ImageCallKeeps(s: Store, c: Call, id: nat)
    requires Wf(s) && c.image in s.dir && s.dir[c.image] == id && id in s.images && s.images[id].name == c.image
    requires ApplyImage(s, id, c).Done?
    ensures KeepsAll(s, c, ApplyImage(s, id, c).store)
  {
    hide KeepsAll, Wf, Children, GoodUpdate, Sound, View, Flattened, AddSnap, GoodDir;
    match c {
      case Write(_, block, value) =>
        HeadKeeps(s, c, id, s.images[id].head.(own := s.images[id].head.own[block := value]));
      case SnapCreate(_, snap) =>
        SnapCreateKeeps(s, c, id, snap);
      case Flatten(_) =>
        FlattenKeeps(s, c, id);
      case ImageRename(_, to) => RenameKeeps(s, c, id, to);
      case Remove(_) => RemoveKeeps(s, c, id);
      case _ =>
    }
  }

  lemma EachCallKeeps(s: Store, c: Call)
    requires Wf(s) && Apply(s, c).Done?
    ensures KeepsAll(s, c, Apply(s, c).store)
  {
    if c.Create? {
      AddKeeps(s, c, Image(c.image, c.deep, Layer(map[], None), map[], map[]));
    } else {
      Found(s, c.image);
      hide Wf, KeepsAll, ApplyImage, ApplySnap;
      var id := s.dir[c.image];
      match SnapOf(c)
      case None => ImageCallKeeps(s, c, id);
      case Some(snap) => SnapCallKeeps(s, c, id, snap);
    }
  }

  /** No call of the backend changes what a remaining image or snapshot shows, a write excepted. */
  lemma CallKeeps(s: Store, c: Call)
    requires Wf(s) && Apply(s, c).Done?
    ensures
      var s' := Apply(s, c).store;
      Wf(s') && s'.next >= s.next && Kept(s.images, s'.images, Written(s, c))
  {
    EachCallKeeps(s, c);
    hide Wf, Apply, SameBehind, SameLayers, Kept;
    KeptBy(s, Apply(s, c).store.images, Written(s, c));
  }
}
