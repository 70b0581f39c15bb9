/**
 The garbage collector as a set of workers that share the store with the driver: each
 backend call is one step, checking a child and flattening it is one step, and a worker may
 stop for good between any two steps.
 */
module GcWorkers {
  import opened RbdStore
  import opened FlattenGc

  datatype Phase =
    | Starting
    | Resolving(pending: set<string>)
    | Purging(todo: set<string>)
    | Unguarded(snap: string, todo: set<string>)
    | Removing
    | Unlinking
    | Stopped

  /**
   One worker on the job in a spool file. base is the image, and targets are the snapshots, that
   it found at its start; clean is kept while no child failed or was deferred; missed are the
   images that were given another name while they were listed and not looked at yet.
   */
  datatype Worker =
    Worker(file: nat, job: Job, phase: Phase, base: Option<nat>, targets: set<Ref>, clean: bool, missed: set<nat>)

  function NewWorker(file: nat, job: Job): Worker
  {
    Worker(file, job, Starting, None, {}, true, {})
  }

  /** used holds every name ever given, files the name of every spool file ever written. */
  datatype Sys = Sys(store: Store, used: set<string>, spool: map<nat, Job>, files: set<nat>, workers: map<nat, Worker>)

  // ------------------------------------------------------------ what a job is about

  function ImageRefs(s: Store, id: nat): set<Ref>
    requires id in s.images
  {
    set k | k in s.images[id].snaps :: Ref(id, k)
  }

  /** The snapshots that a job's names stand for at the moment. */
  ghost predicate IsTarget(s: Store, job: Job, r: Ref)
  {
    && r.image in s.images && r.snap in s.images[r.image].snaps && s.images[r.image].name == job.image
    && (job.SnapJob? ==> s.images[r.image].snaps[r.snap].name == job.snap)
  }

  /** Nothing bears the name of the job's object. */
  ghost predicate Absent(s: Store, job: Job)
  {
    match job
    case SnapJob(_, _) => forall r :: !IsTarget(s, job, r)
    case ImageJob(image) => forall id :: id in s.images ==> s.images[id].name != image
  }

  ghost predicate JobOk(job: Job, used: set<string>)
  {
    job.image in used && (job.SnapJob? ==> job.snap in used && IsTrash(job.snap)) && (job.ImageJob? ==> IsTrash(job.image))
  }

  /** A trashed snapshot, or a snapshot of a trashed image, or one that is gone. */
  ghost predicate Doomed(s: Store, r: Ref)
  {
    && r.image < s.next && r.snap < s.next
    && (r.image in s.images && r.snap in s.images[r.image].snaps ==>
          IsTrash(s.images[r.image].name) || IsTrash(s.images[r.image].snaps[r.snap].name))
  }

  /** No image but those missed reads through any target. */
  ghost predicate Free(s: Store, targets: set<Ref>, missed: set<nat>)
  {
    forall r :: r in targets ==> Children(s.images, r) <= missed
  }

  /** Every image that reads through a target is among the names to be looked at, or was missed. */
  ghost predicate Listed(s: Store, targets: set<Ref>, pending: set<string>, missed: set<nat>)
  {
    forall r, id :: r in targets && id in Children(s.images, r) ==> s.images[id].name in pending || id in missed
  }

  /** Every snapshot the job is about now is a target, and its name is still to be purged. */
  ghost predicate Covered(s: Store, w: Worker, todo: set<string>)
  {
    forall r :: IsTarget(s, w.job, r) ==> r in w.targets && s.images[r.image].snaps[r.snap].name in todo
  }

  ghost predicate Known(s: Store, w: Worker)
  {
    forall r :: IsTarget(s, w.job, r) ==> r in w.targets
  }

  ghost predicate WorkerInv(s: Store, used: set<string>, w: Worker)
  {
    && JobOk(w.job, used)
    && (forall r :: r in w.targets ==> Doomed(s, r))
    && match w.phase
       case Starting => true
       case Resolving(pending) => Known(s, w) && (w.clean ==> Listed(s, w.targets, pending, w.missed))
       case Purging(todo) => Covered(s, w, todo) && Free(s, w.targets, w.missed)
       case Unguarded(snap, todo) => Covered(s, w, todo + {snap}) && Free(s, w.targets, w.missed)
       case Removing => w.job.ImageJob? && Covered(s, w, {}) && Free(s, w.targets, w.missed)
       case Unlinking => Absent(s, w.job)
       case Stopped => true
  }

  // ----------------------------------------------- what others may do to a worker

  /** A doomed snapshot stays doomed. */
  lemma DoomedStays(s: Store, s': Store, used: set<string>, c: Call, r: Ref)
    requires Wf(s) && Evolves(s, s', c) && Permitted(s, used, c) && Doomed(s, r)
    ensures Doomed(s', r)
  {
    hide Wf, ClonedFrom;
    if r.image in s'.images && r.snap in s'.images[r.image].snaps {
      assert r.image in s.images && Grows(s.images[r.image], s'.images[r.image], s.next, c);
    }
  }

  lemma BornElsewhere(s: Store, used: set<string>, b: Image, c: Call, r: Ref)
    requires Born(s, b, c) && Permitted(s, used, c) && Doomed(s, r)
    ensures !RefersTo(b, r)
  {
    hide IsTrash;
  }

  /** Nothing new ever reads through a doomed snapshot. */
  lemma NoNewChildren(s: Store, s': Store, used: set<string>, c: Call, r: Ref, id: nat)
    requires Wf(s) && Evolves(s, s', c) && Permitted(s, used, c) && Doomed(s, r)
    requires id in Children(s'.images, r)
    ensures id in Children(s.images, r)
  {
    hide Wf, IsTrash;
    if id !in s.images {
      BornElsewhere(s, used, s'.images[id], c, r);
    } else {
      var a, b := s.images[id], s'.images[id];
      assert Grows(a, b, s.next, c);
      if b.head.parent != Some(r) {
        var k :| k in b.snaps && b.snaps[k].layer.parent == Some(r);
        assert k in a.snaps ==> SameSnap(a.name, a.snaps[k], b.snaps[k], c);
      }
      assert RefersTo(a, r);
    }
  }

  /** What a job is about never grows: its names are not given again. */
  lemma NoNewTarget(s: Store, s': Store, used: set<string>, c: Call, job: Job, r: Ref)
    requires Wf(s) && Evolves(s, s', c) && Permitted(s, used, c) && JobOk(job, used) && IsTarget(s', job, r)
    ensures IsTarget(s, job, r)
    ensures s'.images[r.image].snaps[r.snap].name == s.images[r.image].snaps[r.snap].name
  {
    hide Wf, ClonedFrom, IsTrash;
  }

  lemma StaysAbsent(s: Store, s': Store, used: set<string>, c: Call, job: Job)
    requires Wf(s) && Evolves(s, s', c) && Permitted(s, used, c) && JobOk(job, used) && Absent(s, job)
    ensures Absent(s', job)
  {
    hide Wf, ClonedFrom, IsTrash;
    if job.SnapJob? {
      forall r | IsTarget(s', job, r)
        ensures IsTarget(s, job, r)
      {
        NoNewTarget(s, s', used, c, job, r);
      }
    }
  }

  /** The worker as it stands after someone's call. */
  function Noticed(s: Store, w: Worker, c: Call): Worker
  {
    if c.ImageRename? && w.phase.Resolving? && c.image in w.phase.pending && c.image in s.dir
    then w.(missed := w.missed + {s.dir[c.image]}) else w
  }

  lemma CoveredStays(s: Store, s': Store, used: set<string>, c: Call, w: Worker, todo: set<string>)
    requires Wf(s) && Evolves(s, s', c) && Permitted(s, used, c) && JobOk(w.job, used) && Covered(s, w, todo)
    ensures Covered(s', w, todo)
  {
    hide Wf, Evolves, Permitted, JobOk;
    forall r | IsTarget(s', w.job, r)
      ensures r in w.targets && s'.images[r.image].snaps[r.snap].name in todo
    {
      NoNewTarget(s, s', used, c, w.job, r);
    }
  }

  lemma KnownStays(s: Store, s': Store, used: set<string>, c: Call, w: Worker)
    requires Wf(s) && Evolves(s, s', c) && Permitted(s, used, c) && JobOk(w.job, used) && Known(s, w)
    ensures Known(s', w)
  {
    hide Wf, Evolves, Permitted, JobOk;
    forall r | IsTarget(s', w.job, r)
      ensures r in w.targets
    {
      NoNewTarget(s, s', used, c, w.job, r);
    }
  }

  lemma FreeStays(s: Store, s': Store, used: set<string>, c: Call, targets: set<Ref>, missed: set<nat>)
    requires Wf(s) && Evolves(s, s', c) && Permitted(s, used, c) && Free(s, targets, missed)
    requires forall r :: r in targets ==> Doomed(s, r)
    ensures Free(s', targets, missed)
  {
    hide Wf, Evolves, Permitted, Doomed, Children;
    forall r, id | r in targets && id in Children(s'.images, r)
      ensures id in Children(s.images, r)
    {
      NoNewChildren(s, s', used, c, r, id);
    }
  }

  lemma ListedStays(s: Store, s': Store, used: set<string>, c: Call, w: Worker)
    requires Wf(s) && Evolves(s, s', c) && Permitted(s, used, c) && w.phase.Resolving?
    requires Listed(s, w.targets, w.phase.pending, w.missed)
    requires forall r :: r in w.targets ==> Doomed(s, r)
    ensures Listed(s', w.targets, w.phase.pending, Noticed(s, w, c).missed)
  {
    assert GoodDir(s.images, s.dir);
    hide Wf, Permitted, Doomed;
    forall r, id | r in w.targets && id in Children(s'.images, r)
      ensures s'.images[id].name in w.phase.pending || id in Noticed(s, w, c).missed
    {
      NoNewChildren(s, s', used, c, r, id);
      assert Grows(s.images[id], s'.images[id], s.next, c);
    }
  }

  /** Whatever call is made by anyone, every worker's knowledge stays true. */
  lemma OthersKeep(s: Store, s': Store, used: set<string>, used': set<string>, c: Call, w: Worker)
    requires Wf(s) && Evolves(s, s', c) && Permitted(s, used, c) && WorkerInv(s, used, w) && used <= used'
    ensures WorkerInv(s', used', Noticed(s, w, c))
  {
    hide Wf, Evolves, Permitted, Doomed, Covered, Known, Free, Listed, Absent;
    forall r | r in w.targets
      ensures Doomed(s', r)
    {
      DoomedStays(s, s', used, c, r);
    }
    if w.phase.Resolving? { KnownStays(s, s', used, c, w); KnownNoticed(s', w, Noticed(s, w, c)); }
    if w.phase.Resolving? && w.clean { ListedStays(s, s', used, c, w); }
    if w.phase.Purging? || w.phase.Unguarded? || w.phase.Removing? { FreeStays(s, s', used, c, w.targets, w.missed); }
    match w.phase
    case Purging(todo) => CoveredStays(s, s', used, c, w, todo);
    case Unguarded(snap, todo) => CoveredStays(s, s', used, c, w, todo + {snap});
    case Removing => CoveredStays(s, s', used, c, w, {});
    case Unlinking => StaysAbsent(s, s', used, c, w.job);
    case _ =>
  }

  lemma KnownNoticed(s: Store, w: Worker, w': Worker)
    requires Known(s, w) && w'.job == w.job && w'.targets == w.targets
    ensures Known(s, w')
  {
  }

  // ------------------------------------------------------------------- the steps

  /** The targets an image_info call finds for a job. */
  function Targets(s: Store, job: Job): set<Ref>
  {
    if job.image !in s.dir || s.dir[job.image] !in s.images then {} else
    var id := s.dir[job.image];
    set k | k in s.images[id].snaps && (job.SnapJob? ==> s.images[id].snaps[k].name == job.snap) :: Ref(id, k)
  }

  function ChildNames(s: Store, targets: set<Ref>): set<string>
  {
    set r, id | r in targets && id in Children(s.images, r) && id in s.images :: s.images[id].name
  }

  function SnapNames(s: Store, image: string): set<string>
  {
    if image !in s.dir || s.dir[image] !in s.images then {} else
    set k | k in s.images[s.dir[image]].snaps :: s.images[s.dir[image]].snaps[k].name
  }

  /** The worker once it has looked for its job's object and listed the clones. */
  function Started(s: Store, w: Worker): Worker
  {
    var targets := Targets(s, w.job);
    w.(base := if w.job.image in s.dir then Some(s.dir[w.job.image]) else None, targets := targets,
       missed := {}, phase := Resolving(ChildNames(s, targets)))
  }

  datatype Event =
    | Driver(call: Call)
    | Spool(file: nat, job: Job)
    | Launch(worker: nat, file: nat)
    | Work(worker: nat, pick: string, fail: bool)
    | Die(worker: nat)

  /** A call by anyone: it takes effect in the store, and every worker's list may become stale. */
  ghost function Called(sys: Sys, c: Call): Sys
    requires Wf(sys.store)
  {
    match Apply(sys.store, c)
    case Done(s') =>
      sys.(store := s', used := sys.used + NewNames(c), workers := map i | i in sys.workers :: Noticed(sys.store, sys.workers[i], c))
    case _ => sys
  }

  function Moved(sys: Sys, i: nat, w: Worker): Sys
  {
    sys.(workers := sys.workers[i := w])
  }

  /** One child of a target: gone, flat already, flattened now, or left for later. */
  ghost function LookAt(sys: Sys, i: nat, pick: string, fail: bool): Sys
    requires Wf(sys.store) && i in sys.workers && sys.workers[i].phase.Resolving?
  {
    var w := sys.workers[i];
    var w' := w.(phase := Resolving(w.phase.pending - {pick}));
    var s := sys.store;
    if fail then Moved(sys, i, w'.(clean := false))
    else if pick !in s.dir || s.images[s.dir[pick]].head.parent.None? then Moved(sys, i, w')
    else if Frees(s.images[s.dir[pick]]) then Moved(Called(sys, Flatten(pick)), i, w')
    else Moved(sys, i, w'.(clean := false))
  }

  /** The next step of a worker. */
  ghost function WorkStep(sys: Sys, i: nat, pick: string, fail: bool): Sys
    requires Wf(sys.store) && i in sys.workers
  {
    var w, s := sys.workers[i], sys.store;
    var job := w.job;
    match w.phase
    case Starting =>
      if fail then Moved(sys, i, w.(phase := Stopped))
      else Moved(sys, i, Started(s, w))
    case Resolving(pending) =>
      if pick in pending then LookAt(sys, i, pick, fail)
      else if pending != {} then sys
      else if !w.clean || fail then Moved(sys, i, w.(phase := Stopped))
      else Moved(sys, i, w.(phase := Purging(if job.SnapJob? then {job.snap} else SnapNames(s, job.image))))
    case Purging(todo) =>
      if pick in todo then
        Moved(if fail then sys else Called(sys, Unprotect(job.image, pick)), i, w.(phase := Unguarded(pick, todo - {pick})))
      else if todo != {} then sys
      else Moved(sys, i, w.(phase := if job.SnapJob? then Unlinking else Removing))
    case Unguarded(snap, todo) =>
      if fail || Apply(s, SnapRemove(job.image, snap)).Refused? then Moved(sys, i, w.(phase := Stopped))
      else Moved(Called(sys, SnapRemove(job.image, snap)), i, w.(phase := Purging(todo)))
    case Removing =>
      if fail || Apply(s, Remove(job.image)).Refused? then Moved(sys, i, w.(phase := Stopped))
      else Moved(Called(sys, Remove(job.image)), i, w.(phase := Unlinking))
    case Unlinking => Moved(sys, i, w.(phase := Stopped)).(spool := sys.spool - {w.file})
    case Stopped => sys
  }

  ghost function Next(sys: Sys, e: Event): Sys
    requires Wf(sys.store)
  {
    match e
    case Driver(c) => if Permitted(sys.store, sys.used, c) then Called(sys, c) else sys
    case Spool(file, job) =>
      if file !in sys.files && JobOk(job, sys.used) then sys.(spool := sys.spool[file := job], files := sys.files + {file}) else sys
    case Launch(i, file) =>
      if i !in sys.workers && file in sys.spool
      then Moved(sys, i, NewWorker(file, sys.spool[file])) else sys
    case Work(i, pick, fail) => if i in sys.workers then WorkStep(sys, i, pick, fail) else sys
    case Die(i) => sys.(workers := sys.workers - {i})
  }

  ghost predicate FileOk(sys: Sys, w: Worker)
  {
    w.file in sys.files && (w.file in sys.spool ==> sys.spool[w.file] == w.job)
  }

  ghost predicate SysInv(sys: Sys)
  {
    && StoreInv(sys.store, sys.used)
    && (forall f :: f in sys.spool ==> f in sys.files && JobOk(sys.spool[f], sys.used))
    && forall i :: i in sys.workers ==> WorkerInv(sys.store, sys.used, sys.workers[i]) && FileOk(sys, sys.workers[i])
  }

  // ------------------------------------------------------- every step keeps it

  /** The head a step of the system may write to. */
  function WrittenBy(sys: Sys, e: Event): Option<nat>
  {
    if e.Driver? then Written(sys.store, e.call) else None
  }

  /** Numbers are not given again: what is not there does not come back. */
  ghost predicate NoReturn(a: Store, b: Store)
  {
    && a.next <= b.next
    && forall id :: id in b.images && id < a.next ==>
         id in a.images && forall k :: k in b.images[id].snaps && k < a.next ==> k in a.images[id].snaps
  }

  lemma NeverBack(s: Store, s': Store, c: Call)
    requires Evolves(s, s', c)
    ensures NoReturn(s, s')
  {
    hide ClonedFrom;
  }

  lemma NothingChanged(images: Images, written: Option<nat>)
    ensures Kept(images, images, written)
  {
  }

  lemma CalledWorker(sys: Sys, c: Call, i: nat)
    requires SysInv(sys) && Permitted(sys.store, sys.used, c) && i in sys.workers && Apply(sys.store, c).Done?
    requires Evolves(sys.store, Apply(sys.store, c).store, c)
    ensures
      var s' := Apply(sys.store, c).store;
      WorkerInv(s', sys.used + NewNames(c), Noticed(sys.store, sys.workers[i], c))
  {
    assert WorkerInv(sys.store, sys.used, sys.workers[i]) && Wf(sys.store);
    hide SysInv, Apply, Evolves, Permitted, WorkerInv, Wf, StoreInv;
    OthersKeep(sys.store, Apply(sys.store, c).store, sys.used, sys.used + NewNames(c), c, sys.workers[i]);
  }

  lemma CalledKeeps(sys: Sys, c: Call)
    requires SysInv(sys) && Permitted(sys.store, sys.used, c)
    ensures SysInv(Called(sys, c)) && Kept(sys.store.images, Called(sys, c).store.images, Written(sys.store, c))
    ensures Called(sys, c).spool == sys.spool && Called(sys, c).files == sys.files
    ensures NoReturn(sys.store, Called(sys, c).store)
  {
    if Apply(sys.store, c).Done? {
      StoreInvKept(sys.store, sys.used, c);
      NeverBack(sys.store, Apply(sys.store, c).store, c);
      hide NoReturn;
      hide Kept, Apply, Evolves, WorkerInv, StoreInv, Permitted, Noticed, Wf;
      CalledParts(sys, c);
      hide Called;
      SpoolStays(sys, Called(sys, c));
      forall i | i in sys.workers
        ensures WorkerInv(Called(sys, c).store, Called(sys, c).used, Called(sys, c).workers[i])
        ensures FileOk(Called(sys, c), Called(sys, c).workers[i])
      {
        CalledWorker(sys, c, i);
        NoticedFile(sys.store, sys.workers[i], c);
      }
    } else {
      hide Kept;
      NothingChanged(sys.store.images, Written(sys.store, c));
    }
  }

  lemma CalledParts(sys: Sys, c: Call)
    requires Wf(sys.store) && Apply(sys.store, c).Done?
    ensures
      var sys' := Called(sys, c);
      && sys'.store == Apply(sys.store, c).store && sys'.used == sys.used + NewNames(c) && sys'.spool == sys.spool
      && sys'.files == sys.files && sys'.workers.Keys == sys.workers.Keys
      && forall i :: i in sys.workers ==> sys'.workers[i] == Noticed(sys.store, sys.workers[i], c)
  {
    hide Apply, Noticed, NewNames, Wf;
  }

  lemma SpoolStays(sys: Sys, sys': Sys)
    requires SysInv(sys) && sys'.spool == sys.spool && sys'.files == sys.files && sys.used <= sys'.used
    ensures forall f :: f in sys'.spool ==> f in sys'.files && JobOk(sys'.spool[f], sys'.used)
  {
    hide StoreInv, WorkerInv;
  }

  lemma NoticedFile(s: Store, w: Worker, c: Call)
    ensures Noticed(s, w, c).file == w.file && Noticed(s, w, c).job == w.job
  {
  }

  lemma MovedKeeps(sys: Sys, i: nat, w: Worker)
    requires SysInv(sys) && WorkerInv(sys.store, sys.used, w) && FileOk(sys, w)
    ensures SysInv(Moved(sys, i, w))
  {
    hide WorkerInv, StoreInv, JobOk;
  }

  lemma StartKeeps(s: Store, used: set<string>, w: Worker)
    requires Wf(s) && WorkerInv(s, used, w) && w.phase.Starting?
    ensures WorkerInv(s, used, Started(s, w))
  {
    var targets := Targets(s, w.job);
    forall r | r in targets
      ensures Doomed(s, r)
    {
      assert GoodImage(s.images, r.image, s.next);
    }
    hide GoodImage, Children, Doomed, IsTrash;
    assert Listed(s, targets, ChildNames(s, targets), w.missed);
    assert forall r :: IsTarget(s, w.job, r) ==> r in targets;
  }

  /** A child that is gone, or that has a flat head, reads through no snapshot. */
  lemma NotAChild(s: Store, pick: string, r: Ref, id: nat)
    requires Wf(s) && FlatHeads(s) && id in Children(s.images, r)
    requires pick in s.dir ==> s.dir[pick] in s.images && s.images[s.dir[pick]].head.parent.None?
    ensures s.images[id].name != pick
  {
    assert FlatImage(s.images[id]) && GoodDir(s.images, s.dir);
  }

  lemma LookedAt(s: Store, used: set<string>, w: Worker, pick: string)
    requires StoreInv(s, used) && WorkerInv(s, used, w) && w.phase.Resolving?
    requires pick in s.dir ==> s.dir[pick] in s.images && s.images[s.dir[pick]].head.parent.None?
    ensures WorkerInv(s, used, w.(phase := Resolving(w.phase.pending - {pick})))
  {
    hide Wf, FlatHeads, Children, Doomed, NamesUsed;
    if w.clean {
      forall r, id | r in w.targets && id in Children(s.images, r)
        ensures s.images[id].name in w.phase.pending - {pick} || id in w.missed
      {
        NotAChild(s, pick, r, id);
      }
    }
  }

  lemma FlattenedNow(s: Store, pick: string)
    requires Wf(s) && Apply(s, Flatten(pick)).Done? && pick in s.dir
    ensures
      var s' := Apply(s, Flatten(pick)).store;
      pick in s'.dir && s'.dir[pick] in s'.images && s'.images[s'.dir[pick]].head.parent.None?
  {
    hide View;
    Found(s, pick);
  }

  lemma LookAtKeeps(sys: Sys, i: nat, pick: string, fail: bool)
    requires SysInv(sys) && i in sys.workers && sys.workers[i].phase.Resolving?
    ensures SysInv(LookAt(sys, i, pick, fail)) && Kept(sys.store.images, LookAt(sys, i, pick, fail).store.images, None)
    ensures LookAt(sys, i, pick, fail).spool == sys.spool && NoReturn(sys.store, LookAt(sys, i, pick, fail).store)
  {
    var w, s := sys.workers[i], sys.store;
    var w' := w.(phase := Resolving(w.phase.pending - {pick}));
    hide Wf, Kept, FlatHeads, NamesUsed, Called, Apply, WorkerInv, NoReturn, StoreInv;
    NotClean(s, sys.used, w, pick);
    NothingChanged(s.images, None);
    SameNumbers(s);
    if fail || (pick in s.dir && s.images[s.dir[pick]].head.parent.Some? && !Frees(s.images[s.dir[pick]])) {
      MovedKeeps(sys, i, w'.(clean := false));
    } else if pick !in s.dir || s.images[s.dir[pick]].head.parent.None? {
      assert pick in s.dir ==> s.dir[pick] in s.images by { if pick in s.dir { Found(s, pick); } }
      LookedAt(s, sys.used, w, pick);
      MovedKeeps(sys, i, w');
    } else {
      FlattenKeepsSys(sys, i, pick);
    }
  }

  lemma SameNumbers(s: Store)
    ensures NoReturn(s, s)
  {
  }

  lemma NotClean(s: Store, used: set<string>, w: Worker, pick: string)
    requires WorkerInv(s, used, w) && w.phase.Resolving?
    ensures WorkerInv(s, used, w.(phase := Resolving(w.phase.pending - {pick}), clean := false))
  {
    hide Listed, Known, Doomed;
    KnownAs(s, w, w.(phase := Resolving(w.phase.pending - {pick}), clean := false));
  }

  lemma KnownAs(s: Store, w: Worker, w': Worker)
    requires Known(s, w) && w'.job == w.job && w'.targets == w.targets
    ensures Known(s, w')
  {
  }

  lemma FlattenKeepsSys(sys: Sys, i: nat, pick: string)
    requires SysInv(sys) && i in sys.workers && sys.workers[i].phase.Resolving? && pick in sys.store.dir
    requires sys.store.images[sys.store.dir[pick]].head.parent.Some? && Frees(sys.store.images[sys.store.dir[pick]])
    ensures
      var w := sys.workers[i];
      var sys' := Moved(Called(sys, Flatten(pick)), i, w.(phase := Resolving(w.phase.pending - {pick})));
      SysInv(sys') && Kept(sys.store.images, sys'.store.images, None) && sys'.spool == sys.spool && NoReturn(sys.store, sys'.store)
  {
    var w, c := sys.workers[i], Flatten(pick);
    Found(sys.store, pick);
    assert Apply(sys.store, c).Done?;
    CalledKeeps(sys, c);
    FlattenedNow(sys.store, pick);
    var sys1 := Called(sys, c);
    assert sys1.workers[i] == w && sys1.store == Apply(sys.store, c).store;
    hide WorkerInv, Wf, Kept, FlatHeads, NamesUsed, Apply, Called, Permitted;
    LookedAt(sys1.store, sys1.used, w, pick);
    MovedKeeps(sys1, i, w.(phase := Resolving(w.phase.pending - {pick})));
  }

  lemma PurgeStarts(s: Store, used: set<string>, w: Worker)
    requires Wf(s) && WorkerInv(s, used, w) && w.phase == Resolving({}) && w.clean
    ensures WorkerInv(s, used, w.(phase := Purging(if w.job.SnapJob? then {w.job.snap} else SnapNames(s, w.job.image))))
  {
    assert GoodDir(s.images, s.dir);
    hide Wf, Doomed, GoodDir, Children;
    var w' := w.(phase := Purging(if w.job.SnapJob? then {w.job.snap} else SnapNames(s, w.job.image)));
    assert Covered(s, w', w'.phase.todo) by {
      forall r | IsTarget(s, w'.job, r)
        ensures s.images[r.image].snaps[r.snap].name in w'.phase.todo
      {
        if w.job.ImageJob? { NamedHere(s, w.job.image, r); }
      }
    }
    NoneListed(s, w.targets, w.missed);
  }

  lemma NoneListed(s: Store, targets: set<Ref>, missed: set<nat>)
    requires Listed(s, targets, {}, missed)
    ensures Free(s, targets, missed)
  {
    hide Children;
  }

  lemma NamedHere(s: Store, image: string, r: Ref)
    requires GoodDir(s.images, s.dir) && r.image in s.images && r.snap in s.images[r.image].snaps && s.images[r.image].name == image
    ensures s.images[r.image].snaps[r.snap].name in SnapNames(s, image)
  {
  }

  lemma UnprotectKeeps(sys: Sys, i: nat, pick: string)
    requires SysInv(sys) && i in sys.workers && sys.workers[i].phase.Purging? && pick in sys.workers[i].phase.todo
    ensures
      var w := sys.workers[i];
      var sys' := Moved(Called(sys, Unprotect(w.job.image, pick)), i, w.(phase := Unguarded(pick, w.phase.todo - {pick})));
      SysInv(sys') && Kept(sys.store.images, sys'.store.images, None) && sys'.spool == sys.spool && NoReturn(sys.store, sys'.store)
  {
    var w := sys.workers[i];
    var c := Unprotect(w.job.image, pick);
    CalledKeeps(sys, c);
    var sys1 := Called(sys, c);
    assert sys1.workers[i] == w;
    assert w.phase.todo - {pick} + {pick} == w.phase.todo;
    assert WorkerInv(sys1.store, sys1.used, w.(phase := Unguarded(pick, w.phase.todo - {pick})));
    hide WorkerInv, Kept, StoreInv, Apply, Called;
    MovedKeeps(sys1, i, w.(phase := Unguarded(pick, w.phase.todo - {pick})));
  }

  lemma UnprotectFails(sys: Sys, i: nat, pick: string)
    requires SysInv(sys) && i in sys.workers && sys.workers[i].phase.Purging? && pick in sys.workers[i].phase.todo
    ensures SysInv(Moved(sys, i, sys.workers[i].(phase := Unguarded(pick, sys.workers[i].phase.todo - {pick}))))
  {
    var w := sys.workers[i];
    assert w.phase.todo - {pick} + {pick} == w.phase.todo;
    hide Doomed, Free;
    assert WorkerInv(sys.store, sys.used, w.(phase := Unguarded(pick, w.phase.todo - {pick})));
    hide WorkerInv, StoreInv;
    MovedKeeps(sys, i, w.(phase := Unguarded(pick, w.phase.todo - {pick})));
  }

  /** After a removal that was not refused, no snapshot of that image has the name. */
  lemma SnapGone(s: Store, image: string, snap: string, r: Ref)
    requires Wf(s) && !Apply(s, SnapRemove(image, snap)).Refused?
    ensures
      var s' := if Apply(s, SnapRemove(image, snap)).Done? then Apply(s, SnapRemove(image, snap)).store else s;
      r.image in s'.images && r.snap in s'.images[r.image].snaps && s'.images[r.image].name == image ==>
        s'.images[r.image].snaps[r.snap].name != snap
  {
    assert r.image in s.images ==> GoodImage(s.images, r.image, s.next);
    assert GoodDir(s.images, s.dir);
    hide GoodLayer, Children;
  }

  lemma CoveredLess(s: Store, w: Worker, snap: string, todo: set<string>)
    requires Covered(s, w, todo + {snap})
    requires forall r :: IsTarget(s, w.job, r) ==> s.images[r.image].snaps[r.snap].name != snap
    ensures Covered(s, w, todo)
  {
  }

  lemma SnapRemoveKeepsSys(sys: Sys, i: nat)
    requires SysInv(sys) && i in sys.workers && sys.workers[i].phase.Unguarded?
    requires !Apply(sys.store, SnapRemove(sys.workers[i].job.image, sys.workers[i].phase.snap)).Refused?
    ensures
      var w := sys.workers[i];
      var sys' := Moved(Called(sys, SnapRemove(w.job.image, w.phase.snap)), i, w.(phase := Purging(w.phase.todo)));
      SysInv(sys') && Kept(sys.store.images, sys'.store.images, None) && sys'.spool == sys.spool && NoReturn(sys.store, sys'.store)
  {
    var w := sys.workers[i];
    var c := SnapRemove(w.job.image, w.phase.snap);
    CalledKeeps(sys, c);
    var sys1 := Called(sys, c);
    var w' := w.(phase := Purging(w.phase.todo));
    assert sys1.workers[i] == w && WorkerInv(sys1.store, sys1.used, w);
    assert sys1.store == if Apply(sys.store, c).Done? then Apply(sys.store, c).store else sys.store;
    assert Wf(sys.store);
    forall r | IsTarget(sys1.store, w.job, r)
      ensures sys1.store.images[r.image].snaps[r.snap].name != w.phase.snap
    {
      hide Apply, SysInv, WorkerInv, Wf, Called, Kept;
      SnapGone(sys.store, w.job.image, w.phase.snap, r);
    }
    CoveredLess(sys1.store, w, w.phase.snap, w.phase.todo);
    CoveredAs(sys1.store, w, w', w.phase.todo);
    hide Covered, Free, Doomed, Apply, Called, Kept, StoreInv;
    assert WorkerInv(sys1.store, sys1.used, w');
    hide WorkerInv;
    MovedKeeps(sys1, i, w');
  }

  lemma CoveredAs(s: Store, w: Worker, w': Worker, todo: set<string>)
    requires Covered(s, w, todo) && w'.job == w.job && w'.targets == w.targets
    ensures Covered(s, w', todo)
  {
  }

  lemma ImageGone(s: Store, image: string, id: nat)
    requires Wf(s) && !Apply(s, Remove(image)).Refused?
    ensures
      var s' := if Apply(s, Remove(image)).Done? then Apply(s, Remove(image)).store else s;
      id in s'.images ==> s'.images[id].name != image
  {
    assert GoodDir(s.images, s.dir);
  }

  lemma RemoveKeepsSys(sys: Sys, i: nat)
    requires SysInv(sys) && i in sys.workers && sys.workers[i].phase.Removing?
    requires !Apply(sys.store, Remove(sys.workers[i].job.image)).Refused?
    ensures
      var w := sys.workers[i];
      var sys' := Moved(Called(sys, Remove(w.job.image)), i, w.(phase := Unlinking));
      SysInv(sys') && Kept(sys.store.images, sys'.store.images, None) && sys'.spool == sys.spool && NoReturn(sys.store, sys'.store)
  {
    var w := sys.workers[i];
    var c := Remove(w.job.image);
    CalledKeeps(sys, c);
    var sys1 := Called(sys, c);
    assert sys1.workers[i] == w && WorkerInv(sys1.store, sys1.used, w);
    assert sys1.store == if Apply(sys.store, c).Done? then Apply(sys.store, c).store else sys.store;
    assert Wf(sys.store);
    forall id | id in sys1.store.images
      ensures sys1.store.images[id].name != w.job.image
    {
      hide Apply, SysInv, WorkerInv, Wf, Called, Kept;
      ImageGone(sys.store, w.job.image, id);
    }
    hide Covered, Free, Doomed, Apply, Called, Kept, StoreInv;
    assert WorkerInv(sys1.store, sys1.used, w.(phase := Unlinking));
    hide WorkerInv;
    MovedKeeps(sys1, i, w.(phase := Unlinking));
  }

  lemma StopKeeps(sys: Sys, i: nat)
    requires SysInv(sys) && i in sys.workers
    ensures SysInv(Moved(sys, i, sys.workers[i].(phase := Stopped)))
  {
    var w := sys.workers[i].(phase := Stopped);
    assert WorkerInv(sys.store, sys.used, w) by { hide Doomed; }
    hide WorkerInv, StoreInv;
    MovedKeeps(sys, i, w);
  }

  /** A spool file disappears only when its job's object does not exist any more. */
  ghost predicate OnlyFinished(sys: Sys, sys': Sys)
  {
    forall f :: f in sys.spool && f !in sys'.spool ==> Absent(sys.store, sys.spool[f])
  }

  lemma UnlinkKeeps(sys: Sys, i: nat)
    requires SysInv(sys) && i in sys.workers && sys.workers[i].phase.Unlinking?
    ensures
      var w := sys.workers[i];
      var sys' := Moved(sys, i, w.(phase := Stopped)).(spool := sys.spool - {w.file});
      SysInv(sys') && OnlyFinished(sys, sys')
  {
    var w := sys.workers[i];
    assert Absent(sys.store, w.job) && FileOk(sys, w);
    hide Absent, Doomed, Covered, Free, Known, Listed;
    StopKeeps(sys, i);
    hide WorkerInv, StoreInv, JobOk;
  }

  lemma PurgeEnds(sys: Sys, i: nat)
    requires SysInv(sys) && i in sys.workers && sys.workers[i].phase == Purging({})
    ensures
      var w := sys.workers[i];
      SysInv(Moved(sys, i, w.(phase := if w.job.SnapJob? then Unlinking else Removing)))
  {
    var w := sys.workers[i];
    var w' := w.(phase := if w.job.SnapJob? then Unlinking else Removing);
    hide Doomed, Free;
    assert WorkerInv(sys.store, sys.used, w');
    hide WorkerInv, StoreInv;
    MovedKeeps(sys, i, w');
  }

  /** What each step of the system keeps. */
  ghost predicate Safe(sys: Sys, sys': Sys, written: Option<nat>)
  {
    SysInv(sys') && Kept(sys.store.images, sys'.store.images, written) && NoReturn(sys.store, sys'.store) && OnlyFinished(sys, sys')
  }

  lemma SameSpool(sys: Sys, sys': Sys)
    requires forall f :: f in sys.spool ==> f in sys'.spool
    ensures OnlyFinished(sys, sys')
  {
  }

  lemma SameStoreSafe(sys: Sys, sys': Sys, written: Option<nat>)
    requires SysInv(sys') && sys'.store == sys.store && OnlyFinished(sys, sys')
    ensures Safe(sys, sys', written)
  {
    hide SysInv, OnlyFinished;
    NothingChanged(sys.store.images, written);
  }

  lemma WorkSafe(sys: Sys, i: nat, pick: string, fail: bool)
    requires SysInv(sys) && i in sys.workers
    ensures Safe(sys, WorkStep(sys, i, pick, fail), None)
  {
    var w := sys.workers[i];
    var sys' := WorkStep(sys, i, pick, fail);
    assert WorkerInv(sys.store, sys.used, w) && FileOk(sys, w) && Wf(sys.store) && StoreInv(sys.store, sys.used);
    NothingChanged(sys.store.images, None);
    StopKeeps(sys, i);
    hide SysInv, WorkerInv, Wf, StoreInv, Kept, Apply, Called, LookAt, Absent, Targets, ChildNames, SnapNames;
    match w.phase {
      case Starting =>
        if !fail {
          StartKeeps(sys.store, sys.used, w);
          MovedKeeps(sys, i, Started(sys.store, w));
        }
      case Resolving(pending) =>
        if pick in pending {
          LookAtKeeps(sys, i, pick, fail);
        } else if pending == {} && w.clean && !fail {
          PurgeStarts(sys.store, sys.used, w);
          MovedKeeps(sys, i, w.(phase := Purging(if w.job.SnapJob? then {w.job.snap} else SnapNames(sys.store, w.job.image))));
        }
      case Purging(todo) =>
        if pick in todo {
          if fail { UnprotectFails(sys, i, pick); } else { UnprotectKeeps(sys, i, pick); }
        } else if todo == {} {
          PurgeEnds(sys, i);
        }
      case Unguarded(snap, todo) =>
        if !fail && !Apply(sys.store, SnapRemove(w.job.image, snap)).Refused? { SnapRemoveKeepsSys(sys, i); }
      case Removing => if !fail && !Apply(sys.store, Remove(w.job.image)).Refused? { RemoveKeepsSys(sys, i); }
      case Unlinking => UnlinkKeeps(sys, i);
      case Stopped =>
    }
  }

  /** Every step, by the driver or by a worker, keeps the invariant and what is seen through the store. */
  lemma NextSafe(sys: Sys, e: Event)
    requires SysInv(sys)
    ensures Safe(sys, Next(sys, e), WrittenBy(sys, e))
  {
    assert Wf(sys.store);
    match e
    case Driver(c) =>
      if Permitted(sys.store, sys.used, c) {
        CalledKeeps(sys, c);
        hide SysInv, Kept, Apply, Permitted, Called, Wf, NoReturn;
      } else {
        SameStoreSafe(sys, sys, WrittenBy(sys, e));
      }
    case Spool(_, _) => SpoolSafe(sys, e);
    case Launch(_, _) => LaunchSafe(sys, e);
    case Work(i, pick, fail) =>
      hide Safe, SysInv, WorkStep, Wf;
      if i in sys.workers { WorkSafe(sys, i, pick, fail); } else { SameStoreSafe(sys, sys, None); }
    case Die(i) =>
      hide WorkerInv, StoreInv, JobOk;
      SameStoreSafe(sys, Next(sys, e), None);
  }

  lemma SpoolSafe(sys: Sys, e: Event)
    requires SysInv(sys) && e.Spool?
    ensures Safe(sys, Next(sys, e), None)
  {
    assert Wf(sys.store);
    hide WorkerInv, StoreInv, JobOk;
    SameStoreSafe(sys, Next(sys, e), None);
  }

  lemma LaunchSafe(sys: Sys, e: Event)
    requires SysInv(sys) && e.Launch?
    ensures Safe(sys, Next(sys, e), None)
  {
    assert Wf(sys.store);
    hide StoreInv, JobOk, Doomed;
    if e.worker !in sys.workers && e.file in sys.spool {
      MovedKeeps(sys, e.worker, NewWorker(e.file, sys.spool[e.file]));
    }
    hide WorkerInv;
    SameStoreSafe(sys, Next(sys, e), None);
  }

  // ----------------------------------------------------------------- whole runs

  lemma InvWf(sys: Sys)
    requires SysInv(sys)
    ensures Wf(sys.store)
  {
  }

  ghost function Run(sys: Sys, es: seq<Event>): Sys
    requires SysInv(sys)
    decreases |es|
  {
    if es == [] then sys else
    assert Wf(sys.store) by { InvWf(sys); }
    assert SysInv(Next(sys, es[0])) by { NextSafe(sys, es[0]); }
    Run(Next(sys, es[0]), es[1..])
  }

  /** The images that a run writes to. */
  ghost function WrittenIn(sys: Sys, es: seq<Event>): set<nat>
    requires SysInv(sys)
    decreases |es|
  {
    if es == [] then {} else
    assert Wf(sys.store) by { InvWf(sys); }
    assert SysInv(Next(sys, es[0])) by { NextSafe(sys, es[0]); }
    (if WrittenBy(sys, es[0]).Some? then {WrittenBy(sys, es[0]).value} else {}) + WrittenIn(Next(sys, es[0]), es[1..])
  }

  /** What is seen through every snapshot, and through every image that is not written to, is the same. */
  ghost predicate SeenTheSame(a: Images, b: Images, written: set<nat>)
  {
    forall id :: id in a && id in b ==>
      && (id !in written ==> View(b, id, b[id].head) == View(a, id, a[id].head))
      && forall k :: k in a[id].snaps && k in b[id].snaps ==> View(b, id, b[id].snaps[k].layer) == View(a, id, a[id].snaps[k].layer)
  }

  lemma SeenThrough(a: Store, b: Store, c: Store, first: Option<nat>, more: set<nat>)
    requires Wf(a) && Kept(a.images, b.images, first) && NoReturn(a, b) && NoReturn(b, c) && SeenTheSame(b.images, c.images, more)
    ensures SeenTheSame(a.images, c.images, (if first.Some? then {first.value} else {}) + more) && NoReturn(a, c)
  {
    forall id | id in a.images && id in c.images
      ensures id in b.images && forall k :: k in a.images[id].snaps && k in c.images[id].snaps ==> k in b.images[id].snaps
    {
      assert GoodImage(a.images, id, a.next);
    }
    assert forall id :: id in a.images ==> id < a.next by {
      forall id | id in a.images
        ensures id < a.next
      {
        assert GoodImage(a.images, id, a.next);
      }
    }
    hide View, Wf;
  }

  /**
   Over any run of driver calls, workers and crashes, what is seen through every remaining
   snapshot, and every remaining image that nobody writes to, stays the same.
   */
  lemma {:induction false} RunKeeps(sys: Sys, es: seq<Event>)
    requires SysInv(sys)
    ensures SysInv(Run(sys, es)) && NoReturn(sys.store, Run(sys, es).store)
    ensures SeenTheSame(sys.store.images, Run(sys, es).store.images, WrittenIn(sys, es))
    decreases |es|
  {
    InvWf(sys);
    if es != [] {
      var sys1 := Next(sys, es[0]);
      NextSafe(sys, es[0]);
      hide SysInv, Wf, Kept, NoReturn, SeenTheSame, Next, OnlyFinished;
      RunKeeps(sys1, es[1..]);
      SeenThrough(sys.store, sys1.store, Run(sys, es).store, WrittenBy(sys, es[0]), WrittenIn(sys1, es[1..]));
    }
  }

  // ------------------------------------------------------ the worker and the backend

  lemma TargetOf(s: Store, w: Worker, todo: set<string>, snap: string)
    requires Wf(s) && Covered(s, w, todo) && w.job.image in s.dir && snap in s.images[s.dir[w.job.image]].snapDir
    requires w.job.SnapJob? ==> snap == w.job.snap
    ensures
      var id := s.dir[w.job.image];
      Ref(id, s.images[id].snapDir[snap]) in w.targets
  {
    var id := s.dir[w.job.image];
    Found(s, w.job.image);
    assert IsTarget(s, w.job, Ref(id, s.images[id].snapDir[snap]));
  }

  /** Unless it missed a child, a worker only purges what nothing reads through, and is not refused. */
  lemma PurgeGoesThrough(sys: Sys, i: nat, pick: string)
    requires SysInv(sys) && i in sys.workers && sys.workers[i].phase.Purging? && sys.workers[i].missed == {}
    requires sys.workers[i].job.SnapJob? ==> pick == sys.workers[i].job.snap
    ensures
      var image := sys.workers[i].job.image;
      var r := Apply(sys.store, Unprotect(image, pick));
      && !r.Refused?
      && (r.Done? ==> Wf(r.store) && Apply(r.store, SnapRemove(image, pick)).Done?)
      && (r.NotFound? ==> Apply(sys.store, SnapRemove(image, pick)).NotFound?)
  {
    var w, s := sys.workers[i], sys.store;
    InvWf(sys);
    assert WorkerInv(s, sys.used, w);
    assert Covered(s, w, w.phase.todo) && Free(s, w.targets, {});
    hide SysInv, WorkerInv, Covered;
    if w.job.image in s.dir && pick in s.images[s.dir[w.job.image]].snapDir {
      TargetOf(s, w, w.phase.todo, pick);
      CallKeeps(s, Unprotect(w.job.image, pick));
      hide Free, Kept;
      UnprotectThenRemove(s, w.job.image, pick);
    }
  }

  lemma UnprotectThenRemove(s: Store, image: string, snap: string)
    requires Wf(s) && image in s.dir && snap in s.images[s.dir[image]].snapDir
    requires Children(s.images, Ref(s.dir[image], s.images[s.dir[image]].snapDir[snap])) == {}
    ensures
      var r := Apply(s, Unprotect(image, snap));
      r.Done? && (Wf(r.store) ==> Apply(r.store, SnapRemove(image, snap)).Done?)
  {
    Found(s, image);
    hide Wf, Children;
    var id := s.dir[image];
    var k := s.images[id].snapDir[snap];
    assert Apply(s, Unprotect(image, snap)) == Done(WithImage(s, id, SetGuard(s.images[id], k, false)));
    ChildrenGuarded(s.images, id, k, Ref(id, k));
    if Wf(WithImage(s, id, SetGuard(s.images[id], k, false))) {
      RemovesUnguarded(WithImage(s, id, SetGuard(s.images[id], k, false)), image, snap, id, k);
    }
  }

  lemma RemovesUnguarded(s: Store, image: string, snap: string, id: nat, k: nat)
    requires Wf(s) && image in s.dir && s.dir[image] == id && id in s.images && snap in s.images[id].snapDir
    requires s.images[id].snapDir[snap] == k && k in s.images[id].snaps && !s.images[id].snaps[k].guarded
    requires Children(s.images, Ref(id, k)) == {}
    ensures Apply(s, SnapRemove(image, snap)).Done?
  {
    hide Wf, Children;
  }

  lemma ChildrenGuarded(images: Images, id: nat, k: nat, r: Ref)
    requires id in images && k in images[id].snaps
    ensures Children(images[id := SetGuard(images[id], k, false)], r) == Children(images, r)
  {
    SetGuardRefers(images[id], k, r);
    hide RefersTo;
  }

  lemma SetGuardRefers(img: Image, k: nat, r: Ref)
    requires k in img.snaps
    ensures RefersTo(SetGuard(img, k, false), r) <==> RefersTo(img, r)
  {
    var img' := SetGuard(img, k, false);
    assert forall j :: j in img.snaps <==> j in img'.snaps;
    assert forall j :: j in img.snaps ==> img'.snaps[j].layer == img.snaps[j].layer;
  }

  /** No image of the name has a snapshot of the name. */
  predicate Gone(s: Store, image: string, snap: string)
  {
    forall id :: id in s.images && s.images[id].name == image ==> forall k :: k in s.images[id].snaps ==> s.images[id].snaps[k].name != snap
  }

  /** The store after a call. */
  ghost function After(s: Store, c: Call): Store
    requires Wf(s)
  {
    if Apply(s, c).Done? then Apply(s, c).store else s
  }

  lemma GoneNow(s: Store, image: string, snap: string)
    requires Wf(s) && !Apply(s, SnapRemove(image, snap)).Refused?
    ensures Gone(After(s, SnapRemove(image, snap)), image, snap)
  {
    var s' := After(s, SnapRemove(image, snap));
    forall id, k | id in s'.images && s'.images[id].name == image && k in s'.images[id].snaps
      ensures s'.images[id].snaps[k].name != snap
    {
      SnapGone(s, image, snap, Ref(id, k));
    }
    hide Apply, Wf;
  }

  /** How the two calls of a purge go together. */
  lemma PurgeReply(s: Store, image: string, snap: string)
    requires Wf(s)
    ensures
      var r := Apply(s, Unprotect(image, snap));
      && (r.Refused? ==> Apply(s, SnapRemove(image, snap)).Refused?)
      && (r.NotFound? ==> Apply(s, SnapRemove(image, snap)).NotFound?)
      && (r.Done? ==> Wf(r.store) && Apply(r.store, SnapRemove(image, snap)).Done?)
  {
    if image in s.dir && snap in s.images[s.dir[image]].snapDir {
      Found(s, image);
      if Children(s.images, Ref(s.dir[image], s.images[s.dir[image]].snapDir[snap])) == {} {
        CallKeeps(s, Unprotect(image, snap));
        hide Kept;
        UnprotectThenRemove(s, image, snap);
      }
    }
    hide Wf, Children;
  }

  /** When all its snapshots are purged, the trashed image itself is not refused. */
  lemma RemoveGoesThrough(sys: Sys, i: nat)
    requires SysInv(sys) && i in sys.workers && sys.workers[i].phase.Removing?
    ensures !Apply(sys.store, Remove(sys.workers[i].job.image)).Refused?
  {
    var w, s := sys.workers[i], sys.store;
    InvWf(sys);
    assert WorkerInv(s, sys.used, w);
    assert Covered(s, w, {}) && w.job.ImageJob?;
    hide SysInv, WorkerInv;
    if w.job.image in s.dir {
      Found(s, w.job.image);
      var id := s.dir[w.job.image];
      assert forall k :: k in s.images[id].snaps ==> IsTarget(s, w.job, Ref(id, k));
      hide Wf, IsTarget;
      assert s.images[id].snaps.Keys == {};
    }
  }

  /** The last child a worker has listed is deleted, so renamed, before the worker looks at it. */
  ghost predicate AboutToMiss(sys: Sys, i: nat, n: string, to: string, r: Ref)
  {
    && SysInv(sys) && Wf(sys.store) && i in sys.workers
    && var w := sys.workers[i];
    && w.phase == Resolving({n}) && w.clean && w.job.SnapJob? && IsTarget(sys.store, w.job, r)
    && n in sys.store.dir && sys.store.dir[n] in Children(sys.store.images, r) && n != w.job.image
    && Permitted(sys.store, sys.used, ImageRename(n, to)) && to !in sys.store.dir
  }

  lemma RenamedRefers(s: Store, n: string, to: string, r: Ref)
    requires n in s.dir && s.dir[n] in s.images && RefersTo(s.images[s.dir[n]], r)
    ensures s.dir[n] in Children(s.images[s.dir[n] := s.images[s.dir[n]].(name := to)], r)
  {
    var img := s.images[s.dir[n]].(name := to);
    assert RefersTo(img, r);
  }

  lemma NextWf(sys: Sys, e: Event)
    requires SysInv(sys) && Wf(sys.store)
    ensures Wf(Next(sys, e).store)
  {
    hide Next, Wf;
    NextSafe(sys, e);
    InvWf(Next(sys, e));
  }

  lemma AfterRename(sys: Sys, i: nat, n: string, to: string, r: Ref)
    requires AboutToMiss(sys, i, n, to, r)
    ensures
      var s' := Next(sys, Driver(ImageRename(n, to)));
      && Wf(s'.store) && n !in s'.store.dir && sys.store.dir[n] in Children(s'.store.images, r) && i in s'.workers
      && s'.workers[i] == sys.workers[i].(missed := sys.workers[i].missed + {sys.store.dir[n]}) && IsTarget(s'.store, sys.workers[i].job, r)
  {
    var w, c, s := sys.workers[i], ImageRename(n, to), sys.store;
    assert Next(sys, Driver(c)) == Called(sys, c);
    hide SysInv, Permitted, Safe, Wf, Apply, Children, IsTarget, Called;
    NextWf(sys, Driver(c));
    RenameReply(s, n, to);
    hide Next;
    CalledParts(sys, c);
    RenamedTarget(s, n, to, w.job, r);
    ChildRefers(s.images, r, s.dir[n]);
    RenamedRefers(s, n, to, r);
  }

  function RenamedStore(s: Store, n: string, to: string): Store
    requires n in s.dir && s.dir[n] in s.images
  {
    Store(s.images[s.dir[n] := s.images[s.dir[n]].(name := to)], (s.dir - {n})[to := s.dir[n]], s.next)
  }

  lemma RenameReply(s: Store, n: string, to: string)
    requires Wf(s) && n in s.dir && to !in s.dir
    ensures s.dir[n] in s.images && s.images[s.dir[n]].name == n
    ensures Apply(s, ImageRename(n, to)) == Done(RenamedStore(s, n, to)) && n !in RenamedStore(s, n, to).dir
  {
    Found(s, n);
    hide Wf;
  }

  lemma RenamedTarget(s: Store, n: string, to: string, job: Job, r: Ref)
    requires n in s.dir && s.dir[n] in s.images && s.images[s.dir[n]].name == n && n != job.image && IsTarget(s, job, r)
    ensures IsTarget(RenamedStore(s, n, to), job, r)
  {
  }

  lemma ChildRefers(images: Images, r: Ref, id: nat)
    requires id in Children(images, r)
    ensures id in images && RefersTo(images[id], r)
  {
  }

  lemma LooksGone(sys: Sys, i: nat, n: string)
    requires Wf(sys.store) && i in sys.workers && n !in sys.store.dir
    requires sys.workers[i].phase == Resolving({n}) && sys.workers[i].clean && sys.workers[i].job.SnapJob?
    ensures
      var looked := Next(sys, Work(i, n, false));
      && Wf(looked.store)
      && Next(looked, Work(i, n, false)) == Moved(sys, i, sys.workers[i].(phase := Purging({sys.workers[i].job.snap})))
  {
    hide Wf, Apply;
    assert {n} - {n} == {};
    var looked := Next(sys, Work(i, n, false));
    assert looked == Moved(sys, i, sys.workers[i].(phase := Resolving({})));
    MovedTwice(sys, i, sys.workers[i].(phase := Resolving({})), sys.workers[i].(phase := Purging({sys.workers[i].job.snap})));
  }

  lemma MovedTwice(sys: Sys, i: nat, w: Worker, w': Worker)
    ensures Moved(Moved(sys, i, w), i, w') == Moved(sys, i, w')
  {
  }

  /**
   Checking children by the names listed at the start takes a child that was renamed since for
   one that is gone: the worker goes on to the purge although the child still reads through
   the target. The backend then refuses, the worker stops, and the job stays for a retry.
   */
  lemma RenamedChildIsMissed(sys: Sys, i: nat, n: string, to: string, r: Ref, snap: string)
    requires AboutToMiss(sys, i, n, to, r) && sys.workers[i].job == SnapJob(sys.workers[i].job.image, snap)
    ensures
      var w, renamed := sys.workers[i], Next(sys, Driver(ImageRename(n, to)));
      && Wf(renamed.store)
      && var looked := Next(renamed, Work(i, n, false));
      && Wf(looked.store)
      && Next(looked, Work(i, n, false)) == Moved(renamed, i, w.(phase := Purging({snap}), missed := w.missed + {sys.store.dir[n]}))
      && sys.store.dir[n] in Children(renamed.store.images, r) && IsTarget(renamed.store, w.job, r)
  {
    AfterRename(sys, i, n, to, r);
    var w, renamed := sys.workers[i], Next(sys, Driver(ImageRename(n, to)));
    assert renamed.workers[i].phase == Resolving({n}) && renamed.workers[i].clean && renamed.workers[i].job == SnapJob(w.job.image, snap);
    hide SysInv, Wf, Permitted, Children, IsTarget, Next, AboutToMiss, Moved;
    LooksGone(renamed, i, n);
  }

  /**
   A job names its snapshot by image and name. Once the image is trashed itself, no object
   bears that name, so the job counts as finished although the snapshot is still there, now
   as part of an image that has a job of its own.
   */
  lemma TrashedBaseHidesSnapshot(s: Store, image: string, to: string, snap: string, k: nat)
    requires Wf(s) && image in s.dir && to !in s.dir && k in s.images[s.dir[image]].snaps && s.images[s.dir[image]].snaps[k].name == snap
    ensures s.dir[image] in s.images && Absent(RenamedStore(s, image, to), SnapJob(image, snap))
    ensures k in RenamedStore(s, image, to).images[s.dir[image]].snaps && !Absent(RenamedStore(s, image, to), ImageJob(to))
  {
    Found(s, image);
    var s' := RenamedStore(s, image, to);
    assert GoodDir(s.images, s.dir);
    forall id | id in s'.images
      ensures s'.images[id].name != image
    {
      if id != s.dir[image] { assert s.dir[s.images[id].name] == id; }
    }
    assert s'.images[s.dir[image]].name == to;
  }

  /** An empty pool, an empty spool and no workers. */
  lemma EmptyStart()
    ensures SysInv(Sys(Store(map[], map[], 0), {}, map[], {}, map[]))
  {
  }
}
