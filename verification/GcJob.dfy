/**
 A worker's job from start to end with no one else at the store, and the scan that finds
 the VDIs and makes sure every trashed object has a job.
 */
module GcJob {
  import opened RbdStore
  import opened FlattenGc
  import opened GcWorkers
  import opened GcRerun

  const FLATTEN_RETRIES := 4

  /** The backend: if it is flaky, a call may also fail for reasons of its own; refused lists the calls it has refused. */
  class Pool {
    const flaky: bool
    var store: Store
    ghost var refused: seq<Call>

    constructor (s: Store, flaky: bool)
      ensures store == s && this.flaky == flaky && refused == []
    {
      store := s;
      this.flaky := flaky;
      refused := [];
    }

    /** One call; without effect if it fails. */
    method Ask(c: Call) returns (r: Reply)
      requires Wf(store)
      modifies this
      ensures r == Apply(old(store), c) || (flaky && r == Refused)
      ensures store == if r.Done? then r.store else old(store)
      ensures refused == if r.Refused? then old(refused) + [c] else old(refused)
    {
      var fault: bool := *;
      r := if flaky && fault then Refused else Apply(store, c);
      if r.Done? {
        store := r.store;
      }
      if r.Refused? {
        refused := refused + [c];
      }
    }
  }

  /** The system that has one worker on one job and nothing else. */
  ghost function Single(s: Store, used: set<string>, w: Worker): Sys
  {
    Sys(s, used, map[0 := w.job], {0}, map[0 := w])
  }

  /** What a job run has kept so far: where it leads to, and what is seen through the store. */
  ghost predicate InRun(start: Store, s: Store, used: set<string>, w: Worker)
  {
    && Alone(Single(s, used, w), w.job, Goal(start, w.job)) && Wf(s)
    && SeenTheSame(start.images, s.images, {}) && NoReturn(start, s)
  }

  lemma SameImages(images: Images)
    ensures SeenTheSame(images, images, {})
  {
  }

  lemma RunStarts(s: Store, used: set<string>, job: Job)
    requires StoreInv(s, used) && JobOk(job, used)
    ensures InRun(s, s, used, NewWorker(0, job))
  {
    hide SysInv, JobOk, Goal, SeenTheSame, NoReturn;
    SingleStarts(s, used, job);
    SameImages(s.images);
    SameNumbers(s);
  }

  lemma SingleStarts(s: Store, used: set<string>, job: Job)
    requires StoreInv(s, used) && JobOk(job, used)
    ensures SysInv(Single(s, used, NewWorker(0, job)))
  {
    hide StoreInv, JobOk;
    assert WorkerInv(s, used, NewWorker(0, job));
    hide WorkerInv;
  }

  /** One step of the single worker. */
  lemma RunSteps(start: Store, s: Store, used: set<string>, w: Worker, pick: string, fail: bool, s': Store, w': Worker)
    requires Wf(start) && InRun(start, s, used, w) && w'.job == w.job
    requires WorkStep(Single(s, used, w), 0, pick, fail) == Single(s', used, w')
    ensures InRun(start, s', used, w')
  {
    var sys := Single(s, used, w);
    hide Wf, WorkStep, Goal, SeenTheSame, NoReturn, SysInv, Kept;
    WorkAlone(sys, w.job, Goal(start, w.job), 0, pick, fail);
    WorkSafe(sys, 0, pick, fail);
    assert Wf(s') by { InvWf(Single(s', used, w')); }
    NoOneElse(start, s, s');
  }

  lemma NoOneElse(a: Store, b: Store, c: Store)
    requires Wf(a) && SeenTheSame(a.images, b.images, {}) && NoReturn(a, b) && NoReturn(b, c) && Kept(b.images, c.images, None)
    ensures SeenTheSame(a.images, c.images, {}) && NoReturn(a, c)
  {
    hide View;
    assert forall id :: id in a.images ==> GoodImage(a.images, id, a.next);
    forall id | id in a.images && id in c.images
      ensures id in b.images && forall k :: k in a.images[id].snaps && k in c.images[id].snaps ==> k in b.images[id].snaps
    {
    }
    hide Wf;
  }

  // ----------------------------------------------------------------- the worker

  /** _flatten_one: a few tries; a child that is gone needs no flattening. */
  method FlattenOne(be: Pool, child: string) returns (ok: bool)
    requires Wf(be.store) && child in be.store.dir
    modifies be
    ensures ok ==> Apply(old(be.store), Flatten(child)).Done? && be.store == Apply(old(be.store), Flatten(child)).store
    ensures !ok ==> be.store == old(be.store)
    ensures !be.flaky && Apply(old(be.store), Flatten(child)).Done? ==> ok
  {
    hide Wf;
    ok := false;
    var attempt := 0;
    while attempt < FLATTEN_RETRIES && !ok
      invariant ok ==> Apply(old(be.store), Flatten(child)).Done? && be.store == Apply(old(be.store), Flatten(child)).store
      invariant !ok ==> be.store == old(be.store)
      invariant attempt > 0 && !be.flaky && Apply(old(be.store), Flatten(child)).Done? ==> ok
    {
      var r := be.Ask(Flatten(child));
      FlattenFinds(old(be.store), child);
      ok := r.Done? || r.NotFound?;
      attempt := attempt + 1;
    }
  }

  lemma FlattenFinds(s: Store, child: string)
    requires Wf(s) && child in s.dir
    ensures Apply(s, Flatten(child)) != NotFound
  {
  }

  /** How one child of a target comes out: gone or flat already, deferred, or flattened. */
  datatype Outcome = Gone | Flat | Pinned | Flattens

  function OutcomeOf(s: Store, child: string): Outcome
  {
    if child !in s.dir || s.dir[child] !in s.images then Outcome.Gone
    else if s.images[s.dir[child]].head.parent.None? then Flat
    else if Frees(s.images[s.dir[child]]) then Flattens
    else Pinned
  }

  /** What _resolve_children does with one child. */
  method ResolveChild(be: Pool, child: string, ghost start: Store, ghost used: set<string>, ghost w: Worker) returns (resolved: bool)
    requires Wf(start) && InRun(start, be.store, used, w) && w.phase.Resolving? && child in w.phase.pending
    modifies be
    ensures
      InRun(start, be.store, used, w.(phase := Resolving(w.phase.pending - {child}), clean := w.clean && resolved))
    ensures Wf(old(be.store))
    ensures if resolved && OutcomeOf(old(be.store), child) == Flattens then Apply(old(be.store), Flatten(child)) == Done(be.store)
            else be.store == old(be.store)
    ensures resolved ==> OutcomeOf(old(be.store), child) != Pinned
    ensures !be.flaky ==> (resolved <==> OutcomeOf(old(be.store), child) != Pinned)
  {
    ghost var w' := w.(phase := Resolving(w.phase.pending - {child}));
    RunWf(start, be.store, used, w);
    hide InRun, Wf;
    ChildSteps(start, be.store, used, w, child);
    var unreadable: bool := *;
    if be.flaky && unreadable {
      return false;
    }
    if child !in be.store.dir {
      return true;
    }
    var img := be.store.images[be.store.dir[child]];
    if img.head.parent.None? {
      return true;
    }
    if !Frees(img) {
      return false;
    }
    FlattenDone(be.store, child);
    resolved := FlattenOne(be, child);
  }

  lemma FlattenDone(s: Store, child: string)
    requires Wf(s) && child in s.dir && s.dir[child] in s.images && s.images[s.dir[child]].head.parent.Some?
    ensures Apply(s, Flatten(child)) == Done(WithImage(s, s.dir[child], Flattened(s.images, s.dir[child])))
  {
    hide Wf, Flattened;
  }

  function Seen(w: Worker, child: string): Worker
    requires w.phase.Resolving?
  {
    w.(phase := Resolving(w.phase.pending - {child}))
  }

  lemma LookFails(s: Store, used: set<string>, w: Worker, child: string)
    requires Wf(s) && w.phase.Resolving? && child in w.phase.pending
    ensures WorkStep(Single(s, used, w), 0, child, true) == Single(s, used, Seen(w, child).(clean := false))
  {
    hide Wf;
  }

  lemma LookFinds(s: Store, used: set<string>, w: Worker, child: string)
    requires Wf(s) && w.phase.Resolving? && child in w.phase.pending
    requires child !in s.dir || s.images[s.dir[child]].head.parent.None?
    ensures WorkStep(Single(s, used, w), 0, child, false) == Single(s, used, Seen(w, child))
  {
    hide Wf;
  }

  /** A call that gives no new name, by the single worker. */
  lemma SingleCall(s: Store, used: set<string>, w: Worker, c: Call)
    requires Wf(s) && Apply(s, c).Done? && NewNames(c) == {} && !c.ImageRename?
    ensures Called(Single(s, used, w), c) == Single(Apply(s, c).store, used, w)
  {
    hide Wf, Apply;
    assert used + {} == used;
    var sys := Single(s, used, w);
    assert (map i | i in sys.workers :: Noticed(sys.store, sys.workers[i], c)) == map[0 := w];
  }

  lemma LookFlattens(s: Store, used: set<string>, w: Worker, child: string)
    requires Wf(s) && w.phase.Resolving? && child in w.phase.pending && child in s.dir
    requires s.images[s.dir[child]].head.parent.Some? && Frees(s.images[s.dir[child]]) && Apply(s, Flatten(child)).Done?
    ensures WorkStep(Single(s, used, w), 0, child, false) == Single(Apply(s, Flatten(child)).store, used, Seen(w, child))
  {
    hide Wf, Apply;
    SingleCall(s, used, w, Flatten(child));
    hide Called;
  }

  /** The steps a worker can take on one child. */
  lemma ChildSteps(start: Store, s: Store, used: set<string>, w: Worker, child: string)
    requires Wf(start) && InRun(start, s, used, w) && w.phase.Resolving? && child in w.phase.pending
    ensures Wf(s) && (child in s.dir ==> s.dir[child] in s.images) && InRun(start, s, used, Seen(w, child).(clean := false))
    ensures child !in s.dir || s.images[s.dir[child]].head.parent.None? ==> InRun(start, s, used, Seen(w, child))
    ensures child in s.dir && s.images[s.dir[child]].head.parent.Some? && Frees(s.images[s.dir[child]]) && Apply(s, Flatten(child)).Done? ==>
              InRun(start, Apply(s, Flatten(child)).store, used, Seen(w, child))
  {
    assert Wf(s);
    if child in s.dir { Found(s, child); }
    hide InRun, Wf, Frees, WorkStep, Single, Apply;
    LookFails(s, used, w, child);
    RunSteps(start, s, used, w, child, true, s, Seen(w, child).(clean := false));
    if child !in s.dir || s.images[s.dir[child]].head.parent.None? {
      LookFinds(s, used, w, child);
      RunSteps(start, s, used, w, child, false, s, Seen(w, child));
    } else if Frees(s.images[s.dir[child]]) && Apply(s, Flatten(child)).Done? {
      LookFlattens(s, used, w, child);
      RunSteps(start, s, used, w, child, false, Apply(s, Flatten(child)).store, Seen(w, child));
    }
  }

  lemma MovedSingle(s: Store, used: set<string>, w: Worker, w': Worker)
    requires w'.job == w.job
    ensures Moved(Single(s, used, w), 0, w') == Single(s, used, w')
    ensures 0 in Single(s, used, w).workers && Single(s, used, w).workers[0] == w && Single(s, used, w).store == s
  {
    assert map[0 := w][0 := w'] == map[0 := w'];
  }

  /** A step that only moves the worker on. */
  lemma PlainStep(start: Store, s: Store, used: set<string>, w: Worker, pick: string, fail: bool, w': Worker)
    requires Wf(start) && InRun(start, s, used, w) && w'.job == w.job && Wf(s)
    requires WorkStep(Single(s, used, w), 0, pick, fail) == Moved(Single(s, used, w), 0, w')
    ensures InRun(start, s, used, w')
  {
    hide InRun, Wf, WorkStep, Moved, Single;
    MovedSingle(s, used, w, w');
    RunSteps(start, s, used, w, pick, fail, s, w');
  }

  /** A step that makes a call and moves the worker on. */
  lemma CallStep(start: Store, s: Store, used: set<string>, w: Worker, pick: string, fail: bool, c: Call, w': Worker)
    requires Wf(start) && InRun(start, s, used, w) && w'.job == w.job && Wf(s) && NewNames(c) == {} && !c.ImageRename?
    requires WorkStep(Single(s, used, w), 0, pick, fail) == Moved(Called(Single(s, used, w), c), 0, w')
    ensures Apply(s, c).Done? ==> InRun(start, Apply(s, c).store, used, w')
    ensures !Apply(s, c).Done? ==> InRun(start, s, used, w')
  {
    hide InRun, Wf, WorkStep, Moved, Apply;
    if Apply(s, c).Done? {
      SingleCall(s, used, w, c);
      hide Called, Single;
      MovedSingle(Apply(s, c).store, used, w, w');
      RunSteps(start, s, used, w, pick, fail, Apply(s, c).store, w');
    } else {
      assert Called(Single(s, used, w), c) == Single(s, used, w);
      hide Called, Single;
      PlainStep(start, s, used, w, pick, fail, w');
    }
  }

  /** The steps before, between and after the loops of a job. */
  lemma StartStep(start: Store, s: Store, used: set<string>, w: Worker)
    requires Wf(start) && InRun(start, s, used, w) && w.phase == Starting && Wf(s)
    ensures InRun(start, s, used, Started(s, w))
  {
    hide InRun, Wf, Targets, ChildNames;
    PlainStep(start, s, used, w, "", false, Started(s, w));
  }

  lemma PurgeStep(start: Store, s: Store, used: set<string>, w: Worker, todo: set<string>)
    requires Wf(start) && InRun(start, s, used, w) && w.phase == Resolving({}) && w.clean && Wf(s)
    requires todo == if w.job.SnapJob? then {w.job.snap} else SnapNames(s, w.job.image)
    ensures InRun(start, s, used, w.(phase := Purging(todo)))
  {
    hide InRun, Wf, SnapNames, LookAt;
    PlainStep(start, s, used, w, "", false, w.(phase := Purging(todo)));
  }

  lemma UnprotectStep(start: Store, s: Store, used: set<string>, w: Worker, snap: string)
    requires Wf(start) && InRun(start, s, used, w) && w.phase.Purging? && snap in w.phase.todo && Wf(s)
    ensures
      var w' := w.(phase := Unguarded(snap, w.phase.todo - {snap}));
      && InRun(start, s, used, w')
      && (Apply(s, Unprotect(w.job.image, snap)).Done? ==> InRun(start, Apply(s, Unprotect(w.job.image, snap)).store, used, w'))
  {
    var w', c := w.(phase := Unguarded(snap, w.phase.todo - {snap})), Unprotect(w.job.image, snap);
    hide InRun, Wf, Apply, Called;
    PlainStep(start, s, used, w, snap, true, w');
    CallStep(start, s, used, w, snap, false, c, w');
  }

  lemma SnapRemoveStep(start: Store, s: Store, used: set<string>, w: Worker)
    requires Wf(start) && InRun(start, s, used, w) && w.phase.Unguarded? && Wf(s)
    ensures
      var r := Apply(s, SnapRemove(w.job.image, w.phase.snap));
      && (r.NotFound? ==> InRun(start, s, used, w.(phase := Purging(w.phase.todo))))
      && (r.Done? ==> InRun(start, r.store, used, w.(phase := Purging(w.phase.todo))))
  {
    var w', c := w.(phase := Purging(w.phase.todo)), SnapRemove(w.job.image, w.phase.snap);
    hide InRun, Wf, Apply, Called;
    if !Apply(s, c).Refused? { CallStep(start, s, used, w, "", false, c, w'); }
  }

  lemma RemoveStep(start: Store, s: Store, used: set<string>, w: Worker)
    requires Wf(start) && InRun(start, s, used, w) && w.phase == Removing && Wf(s)
    ensures
      var r := Apply(s, Remove(w.job.image));
      && (r.NotFound? ==> InRun(start, s, used, w.(phase := Unlinking)))
      && (r.Done? ==> InRun(start, r.store, used, w.(phase := Unlinking)))
  {
    var w', c := w.(phase := Unlinking), Remove(w.job.image);
    hide InRun, Wf, Apply, Called;
    if !Apply(s, c).Refused? { CallStep(start, s, used, w, "", false, c, w'); }
  }

  lemma PurgedStep(start: Store, s: Store, used: set<string>, w: Worker)
    requires Wf(start) && InRun(start, s, used, w) && w.phase == Purging({}) && Wf(s)
    ensures InRun(start, s, used, w.(phase := if w.job.SnapJob? then Unlinking else Removing))
  {
    hide InRun, Wf, Called;
    PlainStep(start, s, used, w, "", false, w.(phase := if w.job.SnapJob? then Unlinking else Removing));
  }

  lemma RunWf(start: Store, s: Store, used: set<string>, w: Worker)
    requires InRun(start, s, used, w)
    ensures Wf(s)
  {
  }

  /** _purge_snap: failing to unprotect is passed over, a snapshot that is gone is as good as removed. */
  method PurgeSnap(be: Pool, snap: string, ghost start: Store, ghost used: set<string>, job: Job, ghost w: Worker) returns (ok: bool)
    requires Wf(start) && InRun(start, be.store, used, w) && w.phase.Purging? && snap in w.phase.todo && w.job == job
    modifies be
    ensures ok ==> InRun(start, be.store, used, w.(phase := Purging(w.phase.todo - {snap})))
    ensures InRun(start, be.store, used, w.(phase := Unguarded(snap, w.phase.todo - {snap}))) || ok
    ensures Wf(old(be.store)) && Purged(old(be.store), be.store, job.image, snap, ok)
    ensures !be.flaky ==> (ok <==> !Apply(old(be.store), Unprotect(job.image, snap)).Refused?)
  {
    hide InRun, Wf, Apply;
    ghost var w' := w.(phase := Unguarded(snap, w.phase.todo - {snap}));
    RunWf(start, be.store, used, w);
    UnprotectStep(start, be.store, used, w, snap);
    PurgeReply(be.store, job.image, snap);
    var r := be.Ask(Unprotect(job.image, snap));
    RunWf(start, be.store, used, w');
    SnapRemoveStep(start, be.store, used, w');
    PurgeReply(be.store, job.image, snap);
    if !Apply(be.store, SnapRemove(job.image, snap)).Refused? { GoneNow(be.store, job.image, snap); }
    hide GcWorkers.Gone;
    r := be.Ask(SnapRemove(job.image, snap));
    ok := !r.Refused?;
  }

  /** A purge leaves no snapshot of the name, or takes at most its protection. */
  ghost predicate Purged(a: Store, b: Store, image: string, snap: string, ok: bool)
    requires Wf(a)
  {
    var free := Apply(a, Unprotect(image, snap));
    var mid := if free.Done? then free.store else a;
    if ok then
      && GcWorkers.Gone(b, image, snap)
      && (b == After(a, SnapRemove(image, snap)) || (Wf(mid) && b == After(mid, SnapRemove(image, snap))))
    else b == a || b == mid
  }

  /** With no one else at the store, nothing is missed, and no purge is refused. */
  lemma NotRefused(start: Store, s: Store, used: set<string>, w: Worker, snap: string)
    requires InRun(start, s, used, w) && w.phase.Purging? && snap in w.phase.todo && w.missed == {}
    ensures Wf(s) && !Apply(s, Unprotect(w.job.image, snap)).Refused?
  {
    var sys := Single(s, used, w);
    assert SysInv(sys) && sys.workers[0] == w && OnTrack(s, w.job, w) && Wf(s);
    hide SysInv, Goal, SeenTheSame, NoReturn, Wf, Apply;
    PurgeGoesThrough(sys, 0, snap);
  }

  lemma RemoveNotRefused(start: Store, s: Store, used: set<string>, w: Worker)
    requires InRun(start, s, used, w) && w.phase == Removing
    ensures Wf(s) && !Apply(s, Remove(w.job.image)).Refused?
  {
    var sys := Single(s, used, w);
    assert SysInv(sys) && sys.workers[0] == w && Wf(s);
    hide SysInv, Goal, SeenTheSame, NoReturn, Wf, Apply;
    RemoveGoesThrough(sys, 0);
  }

  // ------------------------------------------------------------------- progress

  /** No clone of the job's snapshots keeps snapshots that flattening it would leave behind. */
  ghost predicate AllFree(s: Store, job: Job)
  {
    forall n :: n in ChildNames(s, Targets(s, job)) && n in s.dir && s.dir[n] in s.images ==> Frees(s.images[s.dir[n]])
  }

  /** s is start with some of the clones flattened, but for those still pending. */
  ghost predicate FlattenedSome(start: Store, s: Store, pending: set<string>)
  {
    && s.dir == start.dir && s.images.Keys == start.images.Keys
    && (forall n :: n in pending ==> n in s.dir && s.dir[n] in s.images && s.images[s.dir[n]].head.parent.Some?)
    && forall id :: id in s.images ==> (Frees(s.images[id]) <==> Frees(start.images[id]))
  }

  /** So far all the clones looked at could be flattened. */
  ghost predicate FreeSoFar(s: Store, names: set<string>)
  {
    forall n :: n in names && n in s.dir && s.dir[n] in s.images ==> Frees(s.images[s.dir[n]])
  }

  lemma ListedClones(s: Store, job: Job)
    requires Wf(s) && FlatHeads(s)
    ensures FlattenedSome(s, s, ChildNames(s, Targets(s, job)))
  {
    var t := Targets(s, job);
    hide Targets;
    forall n | n in ChildNames(s, t)
      ensures n in s.dir && s.dir[n] in s.images && s.images[s.dir[n]].head.parent.Some?
    {
      ListedClone(s, t, n);
    }
  }

  lemma ListedClone(s: Store, t: set<Ref>, n: string)
    requires Wf(s) && FlatHeads(s) && n in ChildNames(s, t)
    ensures n in s.dir && s.dir[n] in s.images && s.images[s.dir[n]].head.parent.Some?
  {
    var r, id :| r in t && id in Children(s.images, r) && s.images[id].name == n;
    assert GoodDir(s.images, s.dir) && FlatImage(s.images[id]);
    hide Wf, FlatHeads, ChildNames;
  }

  lemma ChildDone(start: Store, s: Store, s': Store, pending: set<string>, child: string)
    requires FlattenedSome(start, s, pending) && child in pending && Wf(s)
    requires s' == s || Apply(s, Flatten(child)) == Done(s')
    ensures FlattenedSome(start, s', pending - {child})
    ensures child in start.dir && start.dir[child] in start.images
    ensures OutcomeOf(s, child) == if Frees(start.images[start.dir[child]]) then Flattens else Pinned
  {
    hide FlattenedSome, Wf, Apply, Frees, Flattened, OutcomeOf;
    ChildOutcome(start, s, pending, child);
    if s' != s {
      FlattenDone(s, child);
      OneName(s, child);
      ChildFlattened(start, s, pending, child);
    } else {
      FewerToLookAt(start, s, pending, child);
    }
  }

  lemma FewerToLookAt(start: Store, s: Store, pending: set<string>, child: string)
    requires FlattenedSome(start, s, pending)
    ensures FlattenedSome(start, s, pending - {child})
  {
    hide Frees;
  }

  lemma ChildOutcome(start: Store, s: Store, pending: set<string>, child: string)
    requires FlattenedSome(start, s, pending) && child in pending
    ensures child in s.dir && s.dir[child] in s.images && s.images[s.dir[child]].head.parent.Some?
    ensures child in start.dir && start.dir[child] in start.images
    ensures OutcomeOf(s, child) == if Frees(start.images[start.dir[child]]) then Flattens else Pinned
  {
    hide Frees;
  }

  lemma ChildFlattened(start: Store, s: Store, pending: set<string>, child: string)
    requires FlattenedSome(start, s, pending) && child in pending && child in s.dir && s.dir[child] in s.images
    requires forall m :: m in s.dir && m != child ==> s.dir[m] != s.dir[child]
    ensures FlattenedSome(start, WithImage(s, s.dir[child], Flattened(s.images, s.dir[child])), pending - {child})
  {
    FlattenedFrees(s.images, s.dir[child]);
    hide Flattened, Frees;
    assert s.images[s.dir[child] := Flattened(s.images, s.dir[child])].Keys == s.images.Keys;
  }

  lemma OneName(s: Store, n: string)
    requires Wf(s) && n in s.dir
    ensures forall m :: m in s.dir && m != n ==> s.dir[m] != s.dir[n]
  {
    assert GoodDir(s.images, s.dir);
    hide GoodImage;
  }

  lemma FlattenedFrees(images: Images, id: nat)
    requires id in images
    ensures Frees(Flattened(images, id)) <==> Frees(images[id])
  {
    var img := Flattened(images, id);
    assert img.snaps.Keys == images[id].snaps.Keys;
    hide View;
    assert img.snaps == map[] <==> images[id].snaps == map[] by {
      if images[id].snaps != map[] { var k :| k in images[id].snaps; assert k in img.snaps; }
      if img.snaps != map[] { var k :| k in img.snaps; assert k in images[id].snaps; }
    }
  }

  /** The loop of run over the snapshots to purge. */
  method PurgeAll(be: Pool, snaps: set<string>, ghost start: Store, ghost used: set<string>, job: Job, ghost w0: Worker)
    returns (ok: bool, ghost w: Worker)
    requires Wf(start) && InRun(start, be.store, used, w0) && w0.phase == Purging(snaps) && w0.job == job && w0.missed == {}
    modifies be
    ensures InRun(start, be.store, used, w) && w.job == job
    ensures ok ==> w.phase == Purging({})
    ensures !ok ==> w.phase != Unlinking
    ensures !be.flaky ==> ok
  {
    hide InRun, Wf;
    var todo := snaps;
    w := w0;
    while todo != {}
      invariant InRun(start, be.store, used, w) && w.phase == Purging(todo) && w.job == job && w.missed == {}
      decreases |todo|
    {
      var snap :| snap in todo;
      NotRefused(start, be.store, used, w, snap);
      var purged := PurgeSnap(be, snap, start, used, job, w);
      if !purged {
        w := w.(phase := Unguarded(snap, todo - {snap}));
        return false, w;
      }
      todo := todo - {snap};
      w := w.(phase := Purging(todo));
    }
    return true, w;
  }

  lemma RunFacts(start: Store, s: Store, used: set<string>, w: Worker)
    requires InRun(start, s, used, w)
    ensures Wf(s) && StoreInv(s, used) && Goal(s, w.job) == Goal(start, w.job) && SeenTheSame(start.images, s.images, {})
    ensures w.phase == Unlinking ==> s == Goal(start, w.job) && Absent(s, w.job)
  {
    assert 0 in Single(s, used, w).workers;
    if w.phase == Unlinking {
      UnlinkingAbsent(Single(s, used, w), w.job, Goal(start, w.job), 0);
      AbsentGoal(s, w.job);
    }
    hide Goal, Wf, SeenTheSame, StoreInv, Absent, NoReturn;
  }

  lemma OneMore(s: Store, names: set<string>, pending: set<string>, child: string)
    requires pending <= names && child in pending
    ensures FreeSoFar(s, names - (pending - {child})) <==>
              FreeSoFar(s, names - pending) && (child in s.dir && s.dir[child] in s.images ==> Frees(s.images[s.dir[child]]))
  {
  }

  lemma AllLooked(s: Store, job: Job, names: set<string>)
    requires names == ChildNames(s, Targets(s, job))
    ensures FreeSoFar(s, names - {}) <==> AllFree(s, job)
  {
    hide Targets, ChildNames;
  }

  /** Where the loop over the clones stands. */
  ghost predicate Looking(start: Store, s: Store, used: set<string>, w: Worker, names: set<string>, pending: set<string>, flaky: bool)
  {
    && InRun(start, s, used, w) && w.phase == Resolving(pending) && w.missed == {}
    && pending <= names && FlattenedSome(start, s, pending)
    && (!flaky ==> (w.clean <==> FreeSoFar(start, names - pending)))
  }

  /** Nothing has been done for the job yet. */
  ghost predicate AtStart(s: Store, used: set<string>, job: Job)
  {
    Wf(s) && FlatHeads(s) && InRun(s, s, used, NewWorker(0, job))
  }

  /** All clones have been looked at: unless calls fail of themselves, ok says whether each can be flattened free. */
  ghost predicate Resolved(start: Store, s: Store, used: set<string>, w: Worker, job: Job, ok: bool, flaky: bool)
  {
    && InRun(start, s, used, w) && w.phase == Resolving({}) && w.job == job && w.missed == {} && w.clean == ok
    && (!flaky ==> (ok <==> AllFree(start, job)))
  }

  lemma LookingStarts(s: Store, used: set<string>, job: Job, flaky: bool)
    requires AtStart(s, used, job)
    ensures Wf(s)
    ensures
      var names := ChildNames(s, Targets(s, job));
      Looking(s, s, used, Started(s, NewWorker(0, job)), names, names, flaky)
  {
    ListedClones(s, job);
    hide InRun, Wf, FlatHeads, FlattenedSome, Targets, ChildNames;
    StartStep(s, s, used, NewWorker(0, job));
    var names := ChildNames(s, Targets(s, job));
    assert names - names == {};
  }

  lemma LookingMore(start: Store, s: Store, s': Store, used: set<string>, w: Worker, names: set<string>, pending: set<string>,
                    child: string, resolved: bool, flaky: bool)
    requires Looking(start, s, used, w, names, pending, flaky) && child in pending && Wf(s)
    requires s' == s || Apply(s, Flatten(child)) == Done(s')
    requires InRun(start, s', used, w.(phase := Resolving(pending - {child}), clean := w.clean && resolved))
    requires !flaky ==> (resolved <==> OutcomeOf(s, child) != Pinned)
    ensures
      Looking(start, s', used, w.(phase := Resolving(pending - {child}), clean := w.clean && resolved), names, pending - {child}, flaky)
  {
    hide InRun, Wf, FlattenedSome, FreeSoFar, OutcomeOf, Apply, Frees;
    ChildDone(start, s, s', pending, child);
    OneMore(start, names, pending, child);
    PinnedNot(start, child, OutcomeOf(s, child));
  }

  lemma LookingFacts(start: Store, s: Store, used: set<string>, w: Worker, names: set<string>, pending: set<string>, flaky: bool)
    requires Looking(start, s, used, w, names, pending, flaky)
    ensures InRun(start, s, used, w) && w.phase == Resolving(pending) && w.missed == {} && Wf(s)
  {
    hide FlattenedSome, FreeSoFar;
    RunWf(start, s, used, w);
    hide InRun;
  }

  lemma LookingEnds(start: Store, s: Store, used: set<string>, w: Worker, job: Job, flaky: bool)
    requires Looking(start, s, used, w, ChildNames(start, Targets(start, job)), {}, flaky) && w.job == job
    ensures Resolved(start, s, used, w, job, w.clean, flaky)
  {
    AllLooked(start, job, ChildNames(start, Targets(start, job)));
    hide InRun, FlattenedSome, FreeSoFar, AllFree, Targets, ChildNames;
  }

  /** The body of the loop. */
  method ResolveNext(be: Pool, child: string, ghost start: Store, ghost used: set<string>, ghost w: Worker, ghost names: set<string>,
                     ghost pending: set<string>) returns (resolved: bool)
    requires Wf(start) && Looking(start, be.store, used, w, names, pending, be.flaky) && child in pending
    modifies be
    ensures Looking(start, be.store, used, w.(phase := Resolving(pending - {child}), clean := w.clean && resolved), names,
                    pending - {child}, be.flaky)
  {
    ghost var before := be.store;
    hide Looking, InRun, Wf, OutcomeOf, Apply;
    LookingFacts(start, before, used, w, names, pending, be.flaky);
    resolved := ResolveChild(be, child, start, used, w);
    LookingMore(start, before, be.store, used, w, names, pending, child, resolved, be.flaky);
  }

  /** _resolve_children: every clone of the targets is looked at; ok while none failed or was deferred. */
  method ResolveAll(be: Pool, job: Job, ghost start: Store, ghost used: set<string>) returns (ok: bool, ghost w: Worker)
    requires be.store == start && AtStart(start, used, job)
    modifies be
    ensures Resolved(start, be.store, used, w, job, ok, be.flaky)
  {
    hide AtStart, Resolved, Looking, InRun, Wf, FlatHeads, AllFree, Targets, ChildNames, Apply, Started;
    LookingStarts(start, used, job, be.flaky);
    StartedFields(start, job);
    w := Started(start, NewWorker(0, job));
    var pending := ChildNames(be.store, Targets(be.store, job));
    ghost var names := pending;
    ok := true;
    while pending != {}
      invariant Looking(start, be.store, used, w, names, pending, be.flaky) && w.job == job && w.clean == ok
      decreases |pending|
    {
      var child :| child in pending;
      var resolved := ResolveNext(be, child, start, used, w, names, pending);
      ok := ok && resolved;
      pending := pending - {child};
      w := w.(phase := Resolving(pending), clean := ok);
    }
    LookingEnds(start, be.store, used, w, job, be.flaky);
  }

  lemma PinnedNot(s: Store, child: string, o: Outcome)
    requires child in s.dir && s.dir[child] in s.images && (o == if Frees(s.images[s.dir[child]]) then Flattens else Pinned)
    ensures o != Pinned <==> (child in s.dir && s.dir[child] in s.images ==> Frees(s.images[s.dir[child]]))
  {
  }

  lemma StartedFields(s: Store, job: Job)
    ensures
      var w := Started(s, NewWorker(0, job));
      w.phase == Resolving(ChildNames(s, Targets(s, job))) && w.job == job && w.clean && w.missed == {} && NewWorker(0, job).phase == Starting
      && NewWorker(0, job).job == job
  {
  }

  /**
   run: flattens the clones, purges, removes. When it finishes, the job's object is gone and
   the store is where the job led to; when it gives up, the job still leads there. If no call
   fails of itself, it finishes exactly when every clone can be flattened free.
   */
  method RunJob(be: Pool, job: Job, ghost used: set<string>) returns (finished: bool)
    requires StoreInv(be.store, used) && JobOk(job, used)
    modifies be
    ensures finished ==> be.store == Goal(old(be.store), job) && Absent(be.store, job)
    ensures StoreInv(be.store, used) && Goal(be.store, job) == Goal(old(be.store), job)
    ensures SeenTheSame(old(be.store).images, be.store.images, {})
    ensures !be.flaky ==> (finished <==> AllFree(old(be.store), job))
  {
    ghost var start := be.store;
    ghost var w := NewWorker(0, job);
    RunStarts(start, used, job);
    assert Wf(start) && FlatHeads(start);
    hide InRun, Wf, FlatHeads, AllFree, StoreInv, Goal, Absent, SeenTheSame, Targets, ChildNames, SnapNames;
    RunFacts(start, be.store, used, w);
    var unreachable: bool := *;
    if be.flaky && unreachable {
      return false;
    }
    var ok;
    ok, w := ResolveAll(be, job, start, used);
    assert Resolved(start, be.store, used, w, job, ok, be.flaky);
    RunFacts(start, be.store, used, w);
    if !ok {
      return false;
    }
    var unreadable: bool := *;
    if job.ImageJob? && be.flaky && unreadable {
      return false;
    }
    var todo := if job.SnapJob? then {job.snap} else SnapNames(be.store, job.image);
    PurgeStep(start, be.store, used, w, todo);
    w := w.(phase := Purging(todo));
    ok, w := PurgeAll(be, todo, start, used, job, w);
    RunFacts(start, be.store, used, w);
    if !ok {
      return false;
    }
    RunWf(start, be.store, used, w);
    PurgedStep(start, be.store, used, w);
    w := w.(phase := if job.SnapJob? then Unlinking else Removing);
    if job.ImageJob? {
      RunFacts(start, be.store, used, w);
      RemoveStep(start, be.store, used, w);
      RemoveNotRefused(start, be.store, used, w);
      hide Apply;
      var r := be.Ask(Remove(job.image));
      if r.Refused? {
        return false;
      }
      w := w.(phase := Unlinking);
    }
    RunFacts(start, be.store, used, w);
    finished := true;
  }
}
