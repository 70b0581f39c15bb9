/**
 Re-running a garbage-collection job: from whatever point workers have died at, finishing
 the job reaches one and the same store.
 */
module GcRerun {
  import opened RbdStore
  import opened FlattenGc
  import opened GcWorkers

  /** The image is a clone of one of the targets. */
  predicate ClonesAny(img: Image, targets: set<Ref>)
  {
    img.head.parent.Some? && img.head.parent.value in targets
  }

  /** All clones of the targets flattened. */
  function FlatAll(images: Images, targets: set<Ref>): Images
  {
    map id | id in images :: if ClonesAny(images[id], targets) then Flattened(images, id) else images[id]
  }

  /** The job's object taken out, once the clones of its snapshots are flat. */
  function Finish(s: Store, flat: Images, job: Job): Store
    requires flat.Keys == s.images.Keys
  {
    if job.image !in s.dir || s.dir[job.image] !in s.images then s else
    var id := s.dir[job.image];
    match job
    case SnapJob(_, snap) =>
      if snap in s.images[id].snapDir && s.images[id].snapDir[snap] in flat[id].snaps
      then Store(flat[id := DropSnap(flat[id], s.images[id].snapDir[snap])], s.dir, s.next) else s
    case ImageJob(image) => Store(flat - {id}, s.dir - {image}, s.next)
  }

  /** Where a job leads to. */
  function Goal(s: Store, job: Job): Store
  {
    Finish(s, FlatAll(s.images, Targets(s, job)), job)
  }

  // ------------------------------------------------------------- facts about views

  lemma SameFlattened(s: Store, images': Images, j: nat)
    requires Wf(s) && SameBehind(s.images, images') && j in s.images && j in images' && images'[j] == s.images[j]
    ensures Flattened(images', j) == Flattened(s.images, j)
  {
    var img := s.images[j];
    assert LayerOf(s.images, j, img.head);
    SameView(s, images', j, img.head);
    hide View, Wf, SameBehind;
    forall k | k in img.snaps
      ensures FlatSnapshot(images', j, img.snaps[k]) == FlatSnapshot(s.images, j, img.snaps[k])
    {
      assert LayerOf(s.images, j, img.snaps[k].layer);
      SameView(s, images', j, img.snaps[k].layer);
    }
    assert (map k | k in img.snaps :: FlatSnapshot(images', j, img.snaps[k])) == (map k | k in img.snaps :: FlatSnapshot(s.images, j, img.snaps[k]));
  }

  /** Flattening the clones comes to the same in two stores that differ in one image, up to that image. */
  lemma SameFlatAll(s: Store, images': Images, id: nat, targets: set<Ref>, targets': set<Ref>, j: nat)
    requires Wf(s) && SameBehind(s.images, images') && j in s.images && j in images' && images'[j] == s.images[j]
    requires ClonesAny(s.images[j], targets) == ClonesAny(s.images[j], targets')
    ensures FlatAll(images', targets')[j] == FlatAll(s.images, targets)[j]
  {
    hide Wf, SameBehind, Flattened;
    SameFlattened(s, images', j);
  }

  // ------------------------------------------------------------ the worker's calls

  lemma FlattenSameTargets(s: Store, c: nat, job: Job)
    requires c in s.images
    ensures Targets(WithImage(s, c, Flattened(s.images, c)), job) == Targets(s, job)
  {
    hide View;
  }

  lemma FlattenSameFlatAll(s: Store, c: nat, t: set<Ref>)
    requires Wf(s) && c in s.images && ClonesAny(s.images[c], t)
    ensures FlatAll(s.images[c := Flattened(s.images, c)], t) == FlatAll(s.images, t)
  {
    hide Wf, SameBehind, View, KeepsAll;
    var s1 := WithImage(s, c, Flattened(s.images, c));
    FlattenKeeps(s, Flatten(s.images[c].name), c);
    KeepsBehind(s, Flatten(s.images[c].name), s1);
    forall j | j in s.images
      ensures FlatAll(s1.images, t)[j] == FlatAll(s.images, t)[j]
    {
      if j != c { SameFlatAll(s, s1.images, c, t, t, j); }
    }
  }

  /** Flattening one clone of a target leads to the same end. */
  lemma FlattenGoal(s: Store, job: Job, c: nat)
    requires Wf(s) && c in s.images && ClonesAny(s.images[c], Targets(s, job))
    ensures Goal(WithImage(s, c, Flattened(s.images, c)), job) == Goal(s, job)
  {
    var s1 := WithImage(s, c, Flattened(s.images, c));
    var t := Targets(s, job);
    hide Wf, SameBehind, View, Targets, KeepsAll;
    FlattenSameTargets(s, c, job);
    FlattenSameFlatAll(s, c, t);
    TargetsThere(s, job, s.images[c].head.parent.value);
    FlatAllSnaps(s.images, t, s.dir[job.image]);
    hide FlatAll, ClonesAny;
    FinishFlattened(s, FlatAll(s.images, t), job, c);
  }

  lemma TargetsThere(s: Store, job: Job, r: Ref)
    requires Wf(s) && r in Targets(s, job)
    ensures job.image in s.dir && s.dir[job.image] == r.image && r.image in s.images && r.snap in s.images[r.image].snaps
    ensures job.SnapJob? ==> job.snap in s.images[r.image].snapDir && s.images[r.image].snapDir[job.snap] == r.snap
  {
    assert GoodImage(s.images, r.image, s.next);
  }

  lemma FlatAllSnaps(images: Images, t: set<Ref>, id: nat)
    requires id in images
    ensures FlatAll(images, t)[id].snaps.Keys == images[id].snaps.Keys
  {
    hide View;
  }

  lemma FinishFlattened(s: Store, flat: Images, job: Job, c: nat)
    requires c in s.images && flat.Keys == s.images.Keys && job.image in s.dir && s.dir[job.image] in s.images
    requires
      var id := s.dir[job.image];
      job.SnapJob? ==> job.snap in s.images[id].snapDir && s.images[id].snapDir[job.snap] in flat[id].snaps
    ensures Finish(WithImage(s, c, Flattened(s.images, c)), flat, job) == Finish(s, flat, job)
  {
    FlattenedNames(s.images, c);
    hide Flattened, DropSnap;
  }

  lemma KeepsBehind(s: Store, c: Call, s': Store)
    requires KeepsAll(s, c, s')
    ensures SameBehind(s.images, s'.images)
  {
  }

  lemma FlattenedNames(images: Images, c: nat)
    requires c in images
    ensures Flattened(images, c).snapDir == images[c].snapDir
  {
  }

  /** An image is not a clone of its own snapshots. */
  lemma NotOwnClone(s: Store, job: Job, id: nat)
    requires Wf(s) && job.image in s.dir && id == s.dir[job.image]
    ensures id in s.images && !ClonesAny(s.images[id], Targets(s, job))
  {
    Found(s, job.image);
    assert GoodImage(s.images, id, s.next) && GoodLayer(s.images, id, s.images[id].head);
  }

  /** The clones flattened, but for the job's own image. */
  lemma SameElsewhere(s: Store, job: Job, id: nat, img: Image, t': set<Ref>)
    requires Wf(s) && id in s.images && SameBehind(s.images, s.images[id := img])
    requires forall j :: j in s.images && j != id ==> ClonesAny(s.images[j], Targets(s, job)) == ClonesAny(s.images[j], t')
    requires !ClonesAny(s.images[id], Targets(s, job)) && !ClonesAny(img, t')
    ensures FlatAll(s.images[id := img], t') == FlatAll(s.images, Targets(s, job))[id := img]
    ensures FlatAll(s.images, Targets(s, job))[id] == s.images[id]
  {
    var images', t := s.images[id := img], Targets(s, job);
    hide Wf, SameBehind, Targets, Flattened, ClonesAny;
    forall j | j in s.images && j != id
      ensures FlatAll(images', t')[j] == FlatAll(s.images, t)[j]
    {
      SameFlatAll(s, images', id, t, t', j);
    }
  }

  lemma GuardSameTargets(s: Store, job: Job, id: nat, k: nat)
    requires id in s.images && k in s.images[id].snaps
    ensures Targets(WithImage(s, id, SetGuard(s.images[id], k, false)), job) == Targets(s, job)
  {
  }

  lemma DropGuarded(img: Image, k: nat)
    requires k in img.snaps
    ensures DropSnap(SetGuard(img, k, false), k) == DropSnap(img, k)
  {
    assert (img.snaps[k := img.snaps[k].(guarded := false)]) - {k} == img.snaps - {k};
  }

  /** Taking the protection off a target that nothing reads through leads to the same end. */
  lemma UnprotectGoal(s: Store, job: Job, snap: string)
    requires Wf(s) && Apply(s, Unprotect(job.image, snap)).Done? && (job.SnapJob? ==> snap == job.snap)
    ensures Goal(Apply(s, Unprotect(job.image, snap)).store, job) == Goal(s, job)
  {
    var c := Unprotect(job.image, snap);
    Found(s, job.image);
    var id := s.dir[job.image];
    var k := s.images[id].snapDir[snap];
    var img := SetGuard(s.images[id], k, false);
    assert Apply(s, c) == Done(WithImage(s, id, img));
    hide Apply, Wf, Goal, SetGuard;
    EachCallKeeps(s, c);
    KeepsBehind(s, c, WithImage(s, id, img));
    hide KeepsAll, SameBehind;
    GuardGoal(s, job, id, k);
  }

  lemma GuardGoal(s: Store, job: Job, id: nat, k: nat)
    requires Wf(s) && job.image in s.dir && id == s.dir[job.image] && id in s.images && k in s.images[id].snaps
    requires job.SnapJob? ==> job.snap in s.images[id].snapDir && s.images[id].snapDir[job.snap] == k
    requires SameBehind(s.images, s.images[id := SetGuard(s.images[id], k, false)])
    ensures Goal(WithImage(s, id, SetGuard(s.images[id], k, false)), job) == Goal(s, job)
  {
    hide Wf, SameBehind;
    NotOwnClone(s, job, id);
    GuardSameTargets(s, job, id, k);
    var img, t := SetGuard(s.images[id], k, false), Targets(s, job);
    assert !ClonesAny(img, t);
    hide Targets, ClonesAny, SetGuard;
    SameElsewhere(s, job, id, img, t);
    FinishGuarded(s, FlatAll(s.images, t), job, id, k);
  }

  lemma FinishGuarded(s: Store, flat: Images, job: Job, id: nat, k: nat)
    requires job.image in s.dir && id == s.dir[job.image] && id in s.images && k in s.images[id].snaps
    requires flat.Keys == s.images.Keys && flat[id] == s.images[id]
    requires job.SnapJob? ==> job.snap in s.images[id].snapDir && s.images[id].snapDir[job.snap] == k
    ensures
      var img := SetGuard(s.images[id], k, false);
      Finish(WithImage(s, id, img), flat[id := img], job) == Finish(s, flat, job)
  {
    var img := SetGuard(s.images[id], k, false);
    DropGuarded(s.images[id], k);
    assert flat[id := img] - {id} == flat - {id};
    assert flat[id := img][id := DropSnap(img, k)] == flat[id := DropSnap(img, k)];
  }

  // ------------------------------------------------------------- removing targets

  lemma DropTargets(s: Store, job: Job, id: nat, k: nat)
    requires Wf(s) && job.image in s.dir && id == s.dir[job.image] && id in s.images && k in s.images[id].snaps
    requires job.SnapJob? ==> s.images[id].snaps[k].name == job.snap
    ensures Targets(WithImage(s, id, DropSnap(s.images[id], k)), job) == Targets(s, job) - {Ref(id, k)}
    ensures job.SnapJob? ==> Targets(s, job) == {Ref(id, k)}
  {
    assert GoodImage(s.images, id, s.next);
    hide GoodLayer;
  }

  lemma NoClones(images: Images, r: Ref, j: nat)
    requires Children(images, r) == {} && j in images
    ensures images[j].head.parent != Some(r)
  {
    assert j !in Children(images, r);
  }

  lemma FlatNone(images: Images, t: set<Ref>)
    requires forall j :: j in images ==> !ClonesAny(images[j], t)
    ensures FlatAll(images, t) == images
  {
    hide ClonesAny, Flattened;
  }

  /** Removing a target that nothing reads through leads to the same end. */
  lemma SnapRemoveGoal(s: Store, job: Job, snap: string)
    requires Wf(s) && Apply(s, SnapRemove(job.image, snap)).Done? && (job.SnapJob? ==> snap == job.snap)
    ensures Goal(Apply(s, SnapRemove(job.image, snap)).store, job) == Goal(s, job)
  {
    var c := SnapRemove(job.image, snap);
    Found(s, job.image);
    var id := s.dir[job.image];
    var k := s.images[id].snapDir[snap];
    var img := DropSnap(s.images[id], k);
    assert Apply(s, c) == Done(WithImage(s, id, img)) && Children(s.images, Ref(id, k)) == {};
    hide Apply, Wf, Children, Goal, DropSnap;
    EachCallKeeps(s, c);
    KeepsBehind(s, c, WithImage(s, id, img));
    hide KeepsAll, SameBehind;
    if job.SnapJob? { SnapRemoveDone(s, job, id, k); } else { ImageSnapRemoved(s, job, id, k); }
  }

  lemma ImageSnapRemoved(s: Store, job: Job, id: nat, k: nat)
    requires Wf(s) && job.ImageJob? && job.image in s.dir && id == s.dir[job.image] && id in s.images && k in s.images[id].snaps
    requires Children(s.images, Ref(id, k)) == {} && SameBehind(s.images, s.images[id := DropSnap(s.images[id], k)])
    ensures Goal(WithImage(s, id, DropSnap(s.images[id], k)), job) == Goal(s, job)
  {
    var img, t := DropSnap(s.images[id], k), Targets(s, job);
    hide Wf, SameBehind, Children;
    NotOwnClone(s, job, id);
    DropTargets(s, job, id, k);
    hide Targets;
    assert !ClonesAny(img, t - {Ref(id, k)});
    forall j | j in s.images && j != id
      ensures ClonesAny(s.images[j], t) == ClonesAny(s.images[j], t - {Ref(id, k)})
    {
      NoClones(s.images, Ref(id, k), j);
    }
    hide ClonesAny, DropSnap;
    SameElsewhere(s, job, id, img, t - {Ref(id, k)});
    assert FlatAll(s.images, t)[id := img] - {id} == FlatAll(s.images, t) - {id};
  }

  lemma SnapRemoveDone(s: Store, job: Job, id: nat, k: nat)
    requires Wf(s) && job.SnapJob? && job.image in s.dir && id == s.dir[job.image] && id in s.images
    requires job.snap in s.images[id].snapDir && k == s.images[id].snapDir[job.snap] && k in s.images[id].snaps
    requires s.images[id].snaps[k].name == job.snap && Children(s.images, Ref(id, k)) == {}
    ensures Goal(WithImage(s, id, DropSnap(s.images[id], k)), job) == Goal(s, job)
  {
    hide Wf, Children;
    DropTargets(s, job, id, k);
    var t := Targets(s, job);
    hide Targets;
    forall j | j in s.images
      ensures !ClonesAny(s.images[j], t)
    {
      NoClones(s.images, Ref(id, k), j);
    }
    FlatNone(s.images, t);
  }

  lemma RemoveGoal(s: Store, job: Job)
    requires Wf(s) && job.ImageJob? && Apply(s, Remove(job.image)).Done?
    ensures Goal(Apply(s, Remove(job.image)).store, job) == Goal(s, job)
  {
    Found(s, job.image);
    var id := s.dir[job.image];
    assert Targets(s, job) == {};
    FlatNone(s.images, {});
  }

  // -------------------------------------------------- runs of one job's workers

  /** Whatever a worker has listed and is not flat is a clone of a snapshot the job is about. */
  ghost predicate PendingOk(s: Store, job: Job, pending: set<string>)
  {
    forall n :: n in pending && n in s.dir && s.dir[n] in s.images && s.images[s.dir[n]].head.parent.Some? ==>
      ClonesAny(s.images[s.dir[n]], Targets(s, job))
  }

  ghost predicate OnTrack(s: Store, job: Job, w: Worker)
  {
    && w.job == job
    && match w.phase
       case Resolving(pending) => PendingOk(s, job, pending)
       case Purging(todo) => job.SnapJob? ==> forall n :: n in todo ==> n == job.snap
       case Unguarded(snap, todo) => job.SnapJob? ==> snap == job.snap && forall n :: n in todo ==> n == job.snap
       case Removing => job.ImageJob?
       case _ => true
  }

  lemma PendingFlatten(s: Store, job: Job, pending: set<string>, c: nat)
    requires c in s.images && PendingOk(s, job, pending)
    ensures PendingOk(WithImage(s, c, Flattened(s.images, c)), job, pending)
  {
    FlattenSameTargets(s, c, job);
    FlatHead(s.images, c);
    hide Targets, Flattened;
  }

  lemma FlatHead(images: Images, c: nat)
    requires c in images
    ensures Flattened(images, c).head.parent == None
  {
  }

  lemma PendingGuard(s: Store, job: Job, pending: set<string>, id: nat, k: nat)
    requires id in s.images && k in s.images[id].snaps && PendingOk(s, job, pending)
    ensures PendingOk(WithImage(s, id, SetGuard(s.images[id], k, false)), job, pending)
  {
    GuardSameTargets(s, job, id, k);
    hide Targets;
  }

  lemma PendingDrop(s: Store, job: Job, pending: set<string>, id: nat, k: nat)
    requires Wf(s) && job.image in s.dir && id == s.dir[job.image] && id in s.images && k in s.images[id].snaps
    requires job.SnapJob? ==> s.images[id].snaps[k].name == job.snap
    requires Children(s.images, Ref(id, k)) == {} && PendingOk(s, job, pending)
    ensures PendingOk(WithImage(s, id, DropSnap(s.images[id], k)), job, pending)
  {
    hide Wf, Children;
    DropTargets(s, job, id, k);
    forall j | j in s.images
      ensures s.images[j].head.parent != Some(Ref(id, k))
    {
      NoClones(s.images, Ref(id, k), j);
    }
    hide Targets;
  }

  lemma PendingRemove(s: Store, job: Job, pending: set<string>, id: nat)
    requires job.image in s.dir && id == s.dir[job.image] && id in s.images && s.images[id].snaps == map[] && PendingOk(s, job, pending)
    ensures PendingOk(Store(s.images - {id}, s.dir - {job.image}, s.next), job, pending)
  {
    assert Targets(s, job) == {};
    assert Targets(Store(s.images - {id}, s.dir - {job.image}, s.next), job) == {};
  }

  /** The calls a worker makes for its job. */
  ghost predicate JobCall(s: Store, job: Job, c: Call)
    requires Wf(s)
  {
    match c
    case Flatten(n) => n in s.dir && s.dir[n] in s.images && ClonesAny(s.images[s.dir[n]], Targets(s, job)) && Frees(s.images[s.dir[n]])
    case Unprotect(image, snap) => image == job.image && (job.SnapJob? ==> snap == job.snap)
    case SnapRemove(image, snap) => image == job.image && (job.SnapJob? ==> snap == job.snap)
    case Remove(image) => image == job.image && job.ImageJob?
    case _ => false
  }

  lemma CallGoal(s: Store, job: Job, c: Call)
    requires Wf(s) && JobCall(s, job, c) && Apply(s, c).Done?
    ensures Goal(Apply(s, c).store, job) == Goal(s, job)
  {
    if c.Flatten? {
      Found(s, c.image);
      hide Wf, Goal, Targets, ClonesAny, Flattened;
      FlattenGoal(s, job, s.dir[c.image]);
    } else {
      hide Wf, Goal, Apply;
      match c
      case Unprotect(_, snap) => UnprotectGoal(s, job, snap);
      case SnapRemove(_, snap) => SnapRemoveGoal(s, job, snap);
      case Remove(_) => RemoveGoal(s, job);
    }
  }

  lemma CallPending(s: Store, job: Job, c: Call, pending: set<string>)
    requires Wf(s) && JobCall(s, job, c) && Apply(s, c).Done? && PendingOk(s, job, pending)
    ensures PendingOk(Apply(s, c).store, job, pending)
  {
    Found(s, c.image);
    hide Wf, PendingOk, Targets, ClonesAny, Flattened, DropSnap, SetGuard, Children;
    var id := s.dir[c.image];
    match c
    case Flatten(_) => PendingFlatten(s, job, pending, id);
    case Unprotect(_, snap) => PendingGuard(s, job, pending, id, s.images[id].snapDir[snap]);
    case SnapRemove(_, snap) => PendingDrop(s, job, pending, id, s.images[id].snapDir[snap]);
    case Remove(_) => PendingRemove(s, job, pending, id);
  }

  /** The workers of one job, alone with the store; goal is where that job leads to. */
  ghost predicate Alone(sys: Sys, job: Job, goal: Store)
  {
    && SysInv(sys) && Goal(sys.store, job) == goal
    && (forall f :: f in sys.spool ==> sys.spool[f] == job)
    && forall i :: i in sys.workers ==> OnTrack(sys.store, job, sys.workers[i])
  }

  lemma JobCallPermitted(s: Store, used: set<string>, job: Job, c: Call)
    requires Wf(s) && JobCall(s, job, c)
    ensures Permitted(s, used, c)
  {
  }

  lemma TrackStays(s: Store, job: Job, w: Worker, c: Call)
    requires Wf(s) && JobCall(s, job, c) && Apply(s, c).Done? && OnTrack(s, job, w)
    ensures OnTrack(Apply(s, c).store, job, Noticed(s, w, c))
  {
    assert !c.ImageRename?;
    hide Wf, Apply, JobCall, PendingOk;
    if w.phase.Resolving? { CallPending(s, job, c, w.phase.pending); }
  }

  lemma CalledAlone(sys: Sys, job: Job, goal: Store, c: Call)
    requires Alone(sys, job, goal) && Wf(sys.store) && JobCall(sys.store, job, c)
    ensures Alone(Called(sys, c), job, goal)
  {
    hide SysInv, Wf, Goal, Kept, NoReturn, Apply, JobCall, Permitted, PendingOk, OnTrack, Noticed;
    if Apply(sys.store, c).Done? {
      JobCallPermitted(sys.store, sys.used, job, c);
      CalledKeeps(sys, c);
      CalledParts(sys, c);
      CallGoal(sys.store, job, c);
      hide Called;
      forall i | i in sys.workers
        ensures OnTrack(Called(sys, c).store, job, Called(sys, c).workers[i])
      {
        TrackStays(sys.store, job, sys.workers[i], c);
      }
    }
  }

  lemma MovedAlone(sys: Sys, job: Job, goal: Store, i: nat, w: Worker)
    requires Alone(sys, job, goal) && OnTrack(sys.store, job, w) && SysInv(Moved(sys, i, w))
    ensures Alone(Moved(sys, i, w), job, goal)
  {
    hide SysInv, Goal, OnTrack;
  }

  lemma StartTrack(s: Store, job: Job, w: Worker)
    requires Wf(s) && FlatHeads(s) && w.job == job
    ensures OnTrack(s, job, Started(s, w))
  {
    var t := Targets(s, job);
    hide Targets;
    forall n | n in ChildNames(s, t) && n in s.dir && s.dir[n] in s.images && s.images[s.dir[n]].head.parent.Some?
      ensures ClonesAny(s.images[s.dir[n]], t)
    {
      ChildClones(s, t, n);
    }
  }

  lemma ChildClones(s: Store, t: set<Ref>, n: string)
    requires Wf(s) && FlatHeads(s) && n in ChildNames(s, t) && n in s.dir && s.dir[n] in s.images && s.images[s.dir[n]].head.parent.Some?
    ensures ClonesAny(s.images[s.dir[n]], t)
  {
    var r, id :| r in t && id in Children(s.images, r) && s.images[id].name == n;
    assert GoodDir(s.images, s.dir) && FlatImage(s.images[id]);
    hide Wf, FlatHeads, ChildNames;
  }

  lemma CallAndMove(sys: Sys, job: Job, goal: Store, c: Call, i: nat, w: Worker)
    requires Alone(sys, job, goal) && Wf(sys.store) && JobCall(sys.store, job, c)
    requires SysInv(Moved(Called(sys, c), i, w)) && OnTrack(Called(sys, c).store, job, w)
    ensures Alone(Moved(Called(sys, c), i, w), job, goal)
  {
    hide Alone, Wf, JobCall, SysInv, OnTrack, Called;
    CalledAlone(sys, job, goal, c);
    MovedAlone(Called(sys, c), job, goal, i, w);
  }

  lemma TrackOf(sys: Sys, job: Job, goal: Store, i: nat)
    requires Alone(sys, job, goal) && i in sys.workers
    ensures OnTrack(sys.store, job, sys.workers[i]) && sys.workers[i].job == job && FlatHeads(sys.store)
  {
  }

  lemma WorkKeeps(sys: Sys, job: Job, goal: Store, i: nat, pick: string, fail: bool)
    requires Alone(sys, job, goal) && i in sys.workers && Wf(sys.store)
    ensures SysInv(WorkStep(sys, i, pick, fail))
  {
    hide WorkStep, SysInv;
    WorkSafe(sys, i, pick, fail);
  }

  /** Every step of a worker of the job leads to the same end. */
  lemma WorkAlone(sys: Sys, job: Job, goal: Store, i: nat, pick: string, fail: bool)
    requires Alone(sys, job, goal) && i in sys.workers && Wf(sys.store)
    ensures Alone(WorkStep(sys, i, pick, fail), job, goal)
  {
    var w, s := sys.workers[i], sys.store;
    var sys' := WorkStep(sys, i, pick, fail);
    assert SysInv(sys') by { WorkKeeps(sys, job, goal, i, pick, fail); }
    TrackOf(sys, job, goal, i);
    hide Alone, SysInv, Wf, Apply, Targets, ChildNames, SnapNames, Called, FlatHeads, PendingOk, LookAt, Started;
    match w.phase {
      case Starting => StartTrack(s, job, w); MovedAlone(sys, job, goal, i, sys'.workers[i]);
      case Resolving(pending) =>
        if pick in pending {
          LookAlone(sys, job, goal, i, pick, fail);
        } else if pending == {} {
          MovedAlone(sys, job, goal, i, sys'.workers[i]);
        }
      case Purging(_) => PurgingAlone(sys, job, goal, i, pick, fail);
      case Unguarded(_, _) => UnguardedAlone(sys, job, goal, i, pick, fail);
      case Removing => RemovingAlone(sys, job, goal, i, pick, fail);
      case Unlinking => UnlinkAlone(sys, job, goal, i);
      case Stopped =>
    }
  }

  lemma PurgingAlone(sys: Sys, job: Job, goal: Store, i: nat, pick: string, fail: bool)
    requires Alone(sys, job, goal) && i in sys.workers && Wf(sys.store) && SysInv(WorkStep(sys, i, pick, fail))
    requires sys.workers[i].phase.Purging?
    ensures Alone(WorkStep(sys, i, pick, fail), job, goal)
  {
    var w, sys' := sys.workers[i], WorkStep(sys, i, pick, fail);
    var todo := w.phase.todo;
    TrackOf(sys, job, goal, i);
    hide Alone, SysInv, Wf, Called, FlatHeads;
    if pick in todo && fail {
      MovedAlone(sys, job, goal, i, w.(phase := Unguarded(pick, todo - {pick})));
    } else if pick in todo {
      CallAndMove(sys, job, goal, Unprotect(job.image, pick), i, w.(phase := Unguarded(pick, todo - {pick})));
    } else if todo == {} {
      MovedAlone(sys, job, goal, i, sys'.workers[i]);
    }
  }

  lemma UnguardedAlone(sys: Sys, job: Job, goal: Store, i: nat, pick: string, fail: bool)
    requires Alone(sys, job, goal) && i in sys.workers && Wf(sys.store) && SysInv(WorkStep(sys, i, pick, fail))
    requires sys.workers[i].phase.Unguarded?
    ensures Alone(WorkStep(sys, i, pick, fail), job, goal)
  {
    var w := sys.workers[i];
    var c := SnapRemove(job.image, w.phase.snap);
    TrackOf(sys, job, goal, i);
    UnguardedTrack(sys.store, sys.store, job, w);
    UnguardedTrack(sys.store, Called(sys, c).store, job, w);
    hide Alone, SysInv, Wf, Called, FlatHeads, Apply, OnTrack;
    if fail || Apply(sys.store, c).Refused? {
      MovedAlone(sys, job, goal, i, w.(phase := Stopped));
    } else {
      CallAndMove(sys, job, goal, c, i, w.(phase := Purging(w.phase.todo)));
    }
  }

  lemma UnguardedTrack(s: Store, s': Store, job: Job, w: Worker)
    requires OnTrack(s, job, w) && w.phase.Unguarded?
    ensures job.SnapJob? ==> w.phase.snap == job.snap
    ensures OnTrack(s', job, w.(phase := Purging(w.phase.todo))) && OnTrack(s', job, w.(phase := Stopped))
  {
    hide PendingOk;
  }

  lemma RemovingAlone(sys: Sys, job: Job, goal: Store, i: nat, pick: string, fail: bool)
    requires Alone(sys, job, goal) && i in sys.workers && Wf(sys.store) && SysInv(WorkStep(sys, i, pick, fail))
    requires sys.workers[i].phase.Removing?
    ensures Alone(WorkStep(sys, i, pick, fail), job, goal)
  {
    var w, c := sys.workers[i], Remove(job.image);
    TrackOf(sys, job, goal, i);
    RemovingTrack(sys.store, sys.store, job, w);
    RemovingTrack(sys.store, Called(sys, c).store, job, w);
    hide Alone, SysInv, Wf, Called, FlatHeads, Apply, OnTrack;
    if fail || Apply(sys.store, c).Refused? {
      MovedAlone(sys, job, goal, i, w.(phase := Stopped));
    } else {
      CallAndMove(sys, job, goal, c, i, w.(phase := Unlinking));
    }
  }

  lemma RemovingTrack(s: Store, s': Store, job: Job, w: Worker)
    requires OnTrack(s, job, w) && w.phase.Removing?
    ensures job.ImageJob? && OnTrack(s', job, w.(phase := Unlinking)) && OnTrack(s', job, w.(phase := Stopped))
  {
    hide PendingOk;
  }

  lemma UnlinkAlone(sys: Sys, job: Job, goal: Store, i: nat)
    requires Alone(sys, job, goal) && i in sys.workers && sys.workers[i].phase.Unlinking?
    requires SysInv(Moved(sys, i, sys.workers[i].(phase := Stopped)).(spool := sys.spool - {sys.workers[i].file}))
    ensures Alone(Moved(sys, i, sys.workers[i].(phase := Stopped)).(spool := sys.spool - {sys.workers[i].file}), job, goal)
  {
    assert OnTrack(sys.store, job, sys.workers[i].(phase := Stopped));
    hide SysInv, Goal, OnTrack;
  }

  lemma LookAlone(sys: Sys, job: Job, goal: Store, i: nat, pick: string, fail: bool)
    requires Alone(sys, job, goal) && i in sys.workers && Wf(sys.store) && sys.workers[i].phase.Resolving?
    requires pick in sys.workers[i].phase.pending && SysInv(LookAt(sys, i, pick, fail))
    ensures Alone(LookAt(sys, i, pick, fail), job, goal)
  {
    var w, s := sys.workers[i], sys.store;
    var pending := w.phase.pending;
    TrackOf(sys, job, goal, i);
    assert PendingOk(s, job, pending);
    FewerPending(s, job, pending, pick);
    assert pick in s.dir ==> s.dir[pick] in s.images by { if pick in s.dir { Found(s, pick); } }
    hide Alone, SysInv, Wf, Apply, FlatHeads, Called, Targets;
    if !fail && pick in s.dir && s.images[s.dir[pick]].head.parent.Some? && Frees(s.images[s.dir[pick]]) {
      LookFlatten(sys, job, goal, i, pick, w.(phase := Resolving(pending - {pick})), pending - {pick});
    } else {
      hide PendingOk;
      MovedAlone(sys, job, goal, i, LookAt(sys, i, pick, fail).workers[i]);
    }
  }

  lemma LookFlatten(sys: Sys, job: Job, goal: Store, i: nat, pick: string, w: Worker, rest: set<string>)
    requires Wf(sys.store) && Alone(sys, job, goal) && w.job == job && w.phase == Resolving(rest)
    requires pick in sys.store.dir && sys.store.dir[pick] in sys.store.images && PendingOk(sys.store, job, rest)
    requires ClonesAny(sys.store.images[sys.store.dir[pick]], Targets(sys.store, job)) && Frees(sys.store.images[sys.store.dir[pick]])
    requires SysInv(Moved(Called(sys, Flatten(pick)), i, w))
    ensures Alone(Moved(Called(sys, Flatten(pick)), i, w), job, goal)
  {
    var s := sys.store;
    hide Alone, SysInv, Wf, Apply, Targets, ClonesAny, Frees, PendingOk;
    assert JobCall(s, job, Flatten(pick));
    hide JobCall;
    if Apply(s, Flatten(pick)).Done? { CallPending(s, job, Flatten(pick), rest); }
    CallAndMove(sys, job, goal, Flatten(pick), i, w);
  }

  lemma FewerPending(s: Store, job: Job, pending: set<string>, pick: string)
    requires PendingOk(s, job, pending)
    ensures PendingOk(s, job, pending - {pick})
  {
    hide Targets, ClonesAny;
  }

  // --------------------------------------------------------------- the main result

  /** Starting, stepping and dying of workers. */
  predicate WorkerEvent(e: Event)
  {
    e.Launch? || e.Work? || e.Die?
  }

  lemma LaunchAlone(sys: Sys, job: Job, goal: Store, e: Event)
    requires Alone(sys, job, goal) && Wf(sys.store) && (e.Launch? || e.Die?)
    ensures Alone(Next(sys, e), job, goal)
  {
    assert SysInv(Next(sys, e)) by { NextSafe(sys, e); }
    hide SysInv, Goal, Wf, PendingOk;
  }

  lemma EventAlone(sys: Sys, job: Job, goal: Store, e: Event)
    requires Alone(sys, job, goal) && Wf(sys.store) && WorkerEvent(e)
    ensures Alone(Next(sys, e), job, goal)
  {
    hide Alone, Wf, WorkStep;
    if e.Work? {
      if e.worker in sys.workers { WorkAlone(sys, job, goal, e.worker, e.pick, e.fail); }
    } else {
      LaunchAlone(sys, job, goal, e);
    }
  }

  lemma {:induction false} RunAlone(sys: Sys, job: Job, goal: Store, es: seq<Event>)
    requires Alone(sys, job, goal) && forall j :: 0 <= j < |es| ==> WorkerEvent(es[j])
    ensures SysInv(sys) && Alone(Run(sys, es), job, goal)
    decreases |es|
  {
    if es != [] {
      InvWf(sys);
      EventAlone(sys, job, goal, es[0]);
      hide Alone, SysInv, Next;
      RunAlone(Next(sys, es[0]), job, goal, es[1..]);
    }
  }

  lemma AbsentGoal(s: Store, job: Job)
    requires Wf(s) && Absent(s, job)
    ensures Goal(s, job) == s
  {
    assert GoodDir(s.images, s.dir);
    if job.image in s.dir {
      var id := s.dir[job.image];
      assert GoodImage(s.images, id, s.next);
      assert job.SnapJob? && forall k :: k in s.images[id].snaps ==> !IsTarget(s, job, Ref(id, k));
      hide GoodDir, GoodImage, Wf, Absent;
    }
  }

  lemma UnlinkingAbsent(sys: Sys, job: Job, goal: Store, i: nat)
    requires Alone(sys, job, goal) && i in sys.workers && sys.workers[i].phase.Unlinking?
    ensures Absent(sys.store, job) && Wf(sys.store) && Goal(sys.store, job) == goal
  {
    hide SysInv, Goal, Wf;
    InvWf(sys);
    WorkerAbsent(sys, i);
  }

  lemma WorkerAbsent(sys: Sys, i: nat)
    requires SysInv(sys) && i in sys.workers && sys.workers[i].phase.Unlinking?
    ensures Absent(sys.store, sys.workers[i].job)
  {
    assert WorkerInv(sys.store, sys.used, sys.workers[i]);
    hide Absent, SysInv;
  }

  /**
   Let the workers of a job start, step, fail and die as they may: whenever one of them
   finishes the job, the store is the one the job led to from the very start, however far
   each of them had got.
   */
  lemma SameEnd(sys: Sys, job: Job, es: seq<Event>, i: nat)
    requires Alone(sys, job, Goal(sys.store, job)) && forall j :: 0 <= j < |es| ==> WorkerEvent(es[j])
    requires SysInv(sys) && i in Run(sys, es).workers && Run(sys, es).workers[i].phase.Unlinking?
    ensures Run(sys, es).store == Goal(sys.store, job) && Absent(Run(sys, es).store, job)
  {
    hide Alone, Run, Goal, Absent;
    RunAlone(sys, job, Goal(sys.store, job), es);
    UnlinkingAbsent(Run(sys, es), job, Goal(sys.store, job), i);
    AbsentGoal(Run(sys, es).store, job);
  }
}
