/**
 What workers do to the very objects their jobs were spooled for: when a job file goes, what
 has become of its targets; and when exactly a purge is refused.
 */
module GcTargets {
  import opened RbdStore
  import opened FlattenGc
  import opened GcWorkers

  predicate InStore(s: Store, r: Ref)
  {
    r.image in s.images && r.snap in s.images[r.image].snaps
  }

  /** The image a worker started from bears its job's name, or was trashed since. */
  predicate BaseNamed(s: Store, w: Worker)
  {
    w.base.Some? && w.base.value in s.images ==>
      var name := s.images[w.base.value].name;
      name == w.job.image || (w.job.SnapJob? && IsTrash(name))
  }

  ghost predicate TargetsNamed(s: Store, w: Worker)
  {
    forall r :: r in w.targets ==>
      && w.base == Some(r.image) && r.snap < s.next
      && (InStore(s, r) && w.job.SnapJob? ==> s.images[r.image].snaps[r.snap].name == w.job.snap)
  }

  /** What a worker has missed was trashed. */
  ghost predicate MissedTrashed(s: Store, w: Worker)
  {
    forall id :: id in w.missed ==> id < s.next && (id in s.images ==> IsTrash(s.images[id].name))
  }

  /** A job on a snapshot purges nothing else. */
  predicate OwnName(w: Worker)
  {
    w.job.SnapJob? ==>
      match w.phase
      case Purging(todo) => todo <= {w.job.snap}
      case Unguarded(snap, todo) => snap == w.job.snap && todo <= {w.job.snap}
      case Removing => false
      case _ => true
  }

  ghost predicate Aimed(s: Store, w: Worker)
  {
    && OwnName(w)
    && (w.base.Some? ==> w.base.value < s.next)
    && BaseNamed(s, w) && TargetsNamed(s, w) && MissedTrashed(s, w)
  }

  ghost predicate AllAimed(sys: Sys)
  {
    forall i :: i in sys.workers ==> Aimed(sys.store, sys.workers[i])
  }

  // ------------------------------------------------------------- every step

  lemma BaseStays(s: Store, s': Store, used: set<string>, c: Call, w: Worker)
    requires Evolves(s, s', c) && Permitted(s, used, c) && JobOk(w.job, used) && BaseNamed(s, w)
    requires w.base.Some? ==> w.base.value < s.next
    ensures BaseNamed(s', w)
  {
    hide ClonedFrom, IsTrash;
    if w.base.Some? && w.base.value in s'.images {
      assert Grows(s.images[w.base.value], s'.images[w.base.value], s.next, c);
    }
  }

  lemma TargetsStay(s: Store, s': Store, used: set<string>, c: Call, w: Worker)
    requires Evolves(s, s', c) && Permitted(s, used, c) && JobOk(w.job, used) && TargetsNamed(s, w)
    requires w.base.Some? ==> w.base.value < s.next
    ensures TargetsNamed(s', w)
  {
    hide ClonedFrom, IsTrash;
    forall r | r in w.targets && InStore(s', r)
      ensures InStore(s, r)
      ensures w.job.SnapJob? ==> s'.images[r.image].snaps[r.snap].name == w.job.snap
    {
      assert Grows(s.images[r.image], s'.images[r.image], s.next, c);
    }
  }

  lemma MissedStays(s: Store, used: set<string>, c: Call, w: Worker)
    requires Wf(s) && Apply(s, c).Done? && Evolves(s, Apply(s, c).store, c) && Permitted(s, used, c) && MissedTrashed(s, w)
    ensures MissedTrashed(Apply(s, c).store, Noticed(s, w, c))
  {
    var s' := Apply(s, c).store;
    NextIsNew(s);
    if c.ImageRename? && c.image in s.dir {
      assert c.to !in s.dir;
      RenameReply(s, c.image, c.to);
      BelowNext(s, s.dir[c.image]);
    }
    hide Wf, Apply, ClonedFrom, IsTrash;
    forall id | id in w.missed && id in s'.images
      ensures id in s.images && (IsTrash(s'.images[id].name) || s'.images[id].name == s.images[id].name)
    {
      assert Grows(s.images[id], s'.images[id], s.next, c);
    }
  }

  lemma BelowNext(s: Store, id: nat)
    requires Wf(s) && id in s.images
    ensures id < s.next
  {
    assert GoodImage(s.images, id, s.next);
    hide Wf;
  }

  lemma AimedStays(s: Store, used: set<string>, c: Call, w: Worker)
    requires Wf(s) && Apply(s, c).Done? && Permitted(s, used, c) && JobOk(w.job, used) && Aimed(s, w)
    ensures Aimed(Apply(s, c).store, Noticed(s, w, c))
  {
    CallEvolves(s, c);
    hide Wf, Apply, JobOk, Permitted;
    BaseStays(s, Apply(s, c).store, used, c, w);
    TargetsStay(s, Apply(s, c).store, used, c, w);
    MissedStays(s, used, c, w);
    hide MissedTrashed;
    OnlyMissed(s, Apply(s, c).store, w, c);
  }

  lemma OnlyMissed(s: Store, s': Store, w: Worker, c: Call)
    ensures TargetsNamed(s', w) ==> TargetsNamed(s', Noticed(s, w, c))
    ensures BaseNamed(s', w) ==> BaseNamed(s', Noticed(s, w, c))
    ensures Noticed(s, w, c).base == w.base && (OwnName(w) ==> OwnName(Noticed(s, w, c)))
  {
  }

  lemma JobOf(sys: Sys, i: nat)
    requires SysInv(sys) && i in sys.workers
    ensures JobOk(sys.workers[i].job, sys.used)
  {
    assert WorkerInv(sys.store, sys.used, sys.workers[i]);
    hide SysInv, JobOk;
  }

  lemma CalledAimed(sys: Sys, c: Call)
    requires SysInv(sys) && Wf(sys.store) && AllAimed(sys) && Permitted(sys.store, sys.used, c)
    ensures AllAimed(Called(sys, c))
  {
    hide SysInv, Wf, Permitted, Apply, JobOk, Aimed;
    if Apply(sys.store, c).Done? {
      CalledParts(sys, c);
      forall i | i in sys.workers
        ensures Aimed(Called(sys, c).store, Called(sys, c).workers[i])
      {
        JobOf(sys, i);
        AimedStays(sys.store, sys.used, c, sys.workers[i]);
      }
      hide Called;
      assert Called(sys, c).workers.Keys == sys.workers.Keys;
    }
  }

  ghost predicate SameAim(w: Worker, w': Worker)
  {
    w'.job == w.job && w'.base == w.base && w'.targets == w.targets && w'.missed == w.missed
  }

  lemma MovedAimed(sys: Sys, i: nat, w: Worker)
    requires AllAimed(sys) && Aimed(sys.store, w)
    ensures AllAimed(Moved(sys, i, w))
  {
    hide Aimed;
  }

  lemma MovedOn(sys: Sys, i: nat, w: Worker)
    requires AllAimed(sys) && i in sys.workers && SameAim(sys.workers[i], w) && OwnName(w)
    ensures AllAimed(Moved(sys, i, w))
  {
    assert Aimed(sys.store, sys.workers[i]);
    hide AllAimed, IsTrash;
    assert Aimed(sys.store, w);
    MovedAimed(sys, i, w);
  }

  lemma CalledAndMoved(sys: Sys, c: Call, i: nat, w: Worker)
    requires SysInv(sys) && Wf(sys.store) && AllAimed(sys) && Permitted(sys.store, sys.used, c) && !c.ImageRename?
    requires i in sys.workers && SameAim(sys.workers[i], w) && OwnName(w)
    ensures AllAimed(Moved(Called(sys, c), i, w))
  {
    hide SysInv, Wf, Permitted, Apply, AllAimed, Moved, SameAim;
    CalledAimed(sys, c);
    if Apply(sys.store, c).Done? { CalledParts(sys, c); }
    MovedOn(Called(sys, c), i, w);
  }

  lemma StartedAimed(s: Store, w: Worker)
    requires Wf(s)
    ensures Aimed(s, Started(s, w))
  {
    if w.job.image in s.dir {
      Found(s, w.job.image);
      var id := s.dir[w.job.image];
      assert GoodImage(s.images, id, s.next);
      assert id < s.next && forall k :: k in s.images[id].snaps ==> k < s.next;
    }
    hide Wf, GoodImage, IsTrash, ChildNames;
  }

  lemma LookAimed(sys: Sys, i: nat, pick: string, fail: bool)
    requires SysInv(sys) && Wf(sys.store) && AllAimed(sys) && i in sys.workers && sys.workers[i].phase.Resolving?
    ensures AllAimed(LookAt(sys, i, pick, fail))
  {
    var w, s := sys.workers[i], sys.store;
    var w' := w.(phase := Resolving(w.phase.pending - {pick}));
    assert pick in s.dir ==> s.dir[pick] in s.images by { if pick in s.dir { Found(s, pick); } }
    hide SysInv, Wf, AllAimed, Called, Moved;
    MovedOn(sys, i, w');
    MovedOn(sys, i, w'.(clean := false));
    if pick in s.dir && Frees(s.images[s.dir[pick]]) { CalledAndMoved(sys, Flatten(pick), i, w'); }
  }

  lemma OwnNames(sys: Sys, i: nat)
    requires AllAimed(sys) && i in sys.workers
    ensures OwnName(sys.workers[i]) && Aimed(sys.store, sys.workers[i])
  {
    assert Aimed(sys.store, sys.workers[i]);
  }

  lemma WorkAimed(sys: Sys, i: nat, pick: string, fail: bool)
    requires SysInv(sys) && Wf(sys.store) && AllAimed(sys) && i in sys.workers
    ensures AllAimed(WorkStep(sys, i, pick, fail))
  {
    var w, s := sys.workers[i], sys.store;
    var job := w.job;
    OwnNames(sys, i);
    hide SysInv, Wf, AllAimed, Called, Moved, LookAt, Started, Apply, SnapNames;
    MovedOn(sys, i, w.(phase := Stopped));
    match w.phase {
      case Starting => StartedAimed(s, w); MovedAimed(sys, i, Started(s, w));
      case Resolving(pending) =>
        if pick in pending { LookAimed(sys, i, pick, fail); }
        MovedOn(sys, i, w.(phase := Purging(if job.SnapJob? then {job.snap} else SnapNames(s, job.image))));
      case Purging(todo) =>
        if pick in todo {
          MovedOn(sys, i, w.(phase := Unguarded(pick, todo - {pick})));
          CalledAndMoved(sys, Unprotect(job.image, pick), i, w.(phase := Unguarded(pick, todo - {pick})));
        }
        MovedOn(sys, i, w.(phase := if job.SnapJob? then Unlinking else Removing));
      case Unguarded(snap, todo) => CalledAndMoved(sys, SnapRemove(job.image, snap), i, w.(phase := Purging(todo)));
      case Removing => CalledAndMoved(sys, Remove(job.image), i, w.(phase := Unlinking));
      case Unlinking => UnlinkAimed(sys, i);
      case Stopped =>
    }
  }

  lemma UnlinkAimed(sys: Sys, i: nat)
    requires AllAimed(sys) && i in sys.workers
    ensures AllAimed(Moved(sys, i, sys.workers[i].(phase := Stopped)).(spool := sys.spool - {sys.workers[i].file}))
  {
    MovedOn(sys, i, sys.workers[i].(phase := Stopped));
    hide Aimed;
  }

  /** Every step keeps what workers know of their targets. */
  lemma NextAimed(sys: Sys, e: Event)
    requires SysInv(sys) && Wf(sys.store) && AllAimed(sys)
    ensures AllAimed(Next(sys, e))
  {
    hide SysInv, Wf, Called, WorkStep, Aimed, Permitted, JobOk;
    match e
    case Driver(c) => if Permitted(sys.store, sys.used, c) { CalledAimed(sys, c); }
    case Work(i, pick, fail) => if i in sys.workers { WorkAimed(sys, i, pick, fail); }
    case Launch(i, file) =>
      if i !in sys.workers && file in sys.spool {
        NewAimed(sys.store, file, sys.spool[file]);
        MovedAimed(sys, i, NewWorker(file, sys.spool[file]));
      }
    case _ =>
  }

  lemma NewAimed(s: Store, file: nat, job: Job)
    ensures Aimed(s, NewWorker(file, job))
  {
  }

  lemma {:induction false} RunAimed(sys: Sys, es: seq<Event>)
    requires SysInv(sys) && AllAimed(sys)
    ensures SysInv(Run(sys, es)) && AllAimed(Run(sys, es))
    decreases |es|
  {
    if es != [] {
      InvWf(sys);
      NextSafe(sys, es[0]);
      NextAimed(sys, es[0]);
      hide SysInv, AllAimed, Next, Kept, NoReturn, OnlyFinished;
      RunAimed(Next(sys, es[0]), es[1..]);
    }
  }

  // ------------------------------------------------------- when a job file goes

  /** The image of a job on a snapshot was trashed, the snapshot being still in it under the job's name. */
  predicate Hidden(s: Store, job: Job, r: Ref)
  {
    && InStore(s, r) && job.SnapJob?
    && s.images[r.image].name != job.image && IsTrash(s.images[r.image].name) && s.images[r.image].snaps[r.snap].name == job.snap
  }

  /**
   When a worker is about to remove its job's file: of a trashed image the very image it
   started from is gone, with all its snapshots; a trashed snapshot it started from is gone
   unless it is hidden in an image that was trashed meanwhile.
   */
  lemma FinishedTargets(sys: Sys, i: nat)
    requires SysInv(sys) && AllAimed(sys) && i in sys.workers && sys.workers[i].phase.Unlinking?
    ensures
      var w, s := sys.workers[i], sys.store;
      && (w.job.ImageJob? && w.base.Some? ==> w.base.value !in s.images)
      && forall r :: r in w.targets ==> (InStore(s, r) <==> Hidden(s, w.job, r))
  {
    var w, s := sys.workers[i], sys.store;
    UnlinkingJob(sys, i);
    assert Aimed(s, w);
    hide SysInv, AllAimed, IsTrash;
    if w.job.SnapJob? {
      forall r | r in w.targets && InStore(s, r)
        ensures Hidden(s, w.job, r)
      {
        assert !IsTarget(s, w.job, r);
      }
    }
  }

  lemma UnlinkingJob(sys: Sys, i: nat)
    requires SysInv(sys) && i in sys.workers && sys.workers[i].phase.Unlinking?
    ensures Absent(sys.store, sys.workers[i].job)
  {
    assert WorkerInv(sys.store, sys.used, sys.workers[i]);
    hide SysInv, Absent;
  }

  /** The removal of a trashed snapshot misses it exactly if its image bears another name by then. */
  lemma RemovalMisses(sys: Sys, i: nat, r: Ref)
    requires SysInv(sys) && Wf(sys.store) && AllAimed(sys) && i in sys.workers && sys.workers[i].phase.Unguarded?
    requires sys.workers[i].job.SnapJob? && r in sys.workers[i].targets && InStore(sys.store, r)
    requires !Apply(sys.store, SnapRemove(sys.workers[i].job.image, sys.workers[i].job.snap)).Refused?
    ensures
      var sys' := Next(sys, Work(i, "", false));
      InStore(sys'.store, r) <==> sys.store.images[r.image].name != sys.workers[i].job.image
  {
    var w, s := sys.workers[i], sys.store;
    OwnNames(sys, i);
    hide SysInv, AllAimed, Wf, Apply;
    assert w.phase.snap == w.job.snap && s.images[r.image].snaps[r.snap].name == w.job.snap;
    RemovesByName(s, w.job.image, w.job.snap, r);
    hide Aimed;
  }

  lemma RemovesByName(s: Store, image: string, snap: string, r: Ref)
    requires Wf(s) && InStore(s, r) && s.images[r.image].snaps[r.snap].name == snap && !Apply(s, SnapRemove(image, snap)).Refused?
    ensures
      var a := Apply(s, SnapRemove(image, snap));
      InStore(if a.Done? then a.store else s, r) <==> s.images[r.image].name != image
  {
    assert GoodImage(s.images, r.image, s.next) && GoodDir(s.images, s.dir);
    hide Children, GoodLayer;
  }

  // ------------------------------------------------------- when a purge is refused

  /** The images missed by the worker that still read through the snapshot it is about to purge. */
  ghost function Strays(s: Store, w: Worker, snap: string): set<nat>
  {
    set id | id in w.missed && exists r :: IsTarget(s, w.job, r) && s.images[r.image].snaps[r.snap].name == snap && id in Children(s.images, r)
  }

  lemma TargetNamed(s: Store, w: Worker, snap: string, r: Ref)
    requires Wf(s) && IsTarget(s, w.job, r) && s.images[r.image].snaps[r.snap].name == snap
    ensures w.job.image in s.dir && s.dir[w.job.image] == r.image
    ensures snap in s.images[r.image].snapDir && s.images[r.image].snapDir[snap] == r.snap
  {
    assert GoodImage(s.images, r.image, s.next) && GoodDir(s.images, s.dir);
    hide GoodLayer;
  }

  lemma PurgeReplies(s: Store, w: Worker, todo: set<string>, snap: string)
    requires Wf(s) && Covered(s, w, todo) && Free(s, w.targets, w.missed) && (w.job.SnapJob? ==> snap == w.job.snap)
    ensures
      var r := Apply(s, Unprotect(w.job.image, snap));
      if Strays(s, w, snap) != {} then r.Refused? && Apply(s, SnapRemove(w.job.image, snap)).Refused?
      else !r.Refused? && (r.Done? ==> Wf(r.store) && Apply(r.store, SnapRemove(w.job.image, snap)).Done?)
           && (r.NotFound? ==> Apply(s, SnapRemove(w.job.image, snap)).NotFound?)
  {
    hide Covered, Free;
    if Strays(s, w, snap) != {} {
      var id :| id in Strays(s, w, snap);
      var r :| IsTarget(s, w.job, r) && s.images[r.image].snaps[r.snap].name == snap && id in Children(s.images, r);
      TargetNamed(s, w, snap, r);
      hide Wf, Children;
    } else if w.job.image in s.dir && snap in s.images[s.dir[w.job.image]].snapDir {
      TargetOf(s, w, todo, snap);
      var r := Ref(s.dir[w.job.image], s.images[s.dir[w.job.image]].snapDir[snap]);
      Found(s, w.job.image);
      OnlyStrays(s, w, snap, r);
      CallKeeps(s, Unprotect(w.job.image, snap));
      hide Kept, Strays;
      UnprotectThenRemove(s, w.job.image, snap);
    }
  }

  /** Every image that reads through a target of the name is a stray. */
  lemma OnlyStrays(s: Store, w: Worker, snap: string, r: Ref)
    requires Wf(s) && Free(s, w.targets, w.missed) && r in w.targets
    requires r.image in s.images && s.images[r.image].name == w.job.image && (w.job.SnapJob? ==> snap == w.job.snap)
    requires snap in s.images[r.image].snapDir && s.images[r.image].snapDir[snap] == r.snap
    ensures Children(s.images, r) <= Strays(s, w, snap)
  {
    assert GoodImage(s.images, r.image, s.next);
    hide Wf, GoodLayer;
    assert IsTarget(s, w.job, r) && Children(s.images, r) <= w.missed;
  }

  lemma UnprotectStep(sys: Sys, i: nat, pick: string)
    requires Wf(sys.store) && i in sys.workers && sys.workers[i].phase.Purging? && pick in sys.workers[i].phase.todo
    ensures
      var w := sys.workers[i];
      Next(sys, Work(i, pick, false))
      == Moved(Called(sys, Unprotect(w.job.image, pick)), i, w.(phase := Unguarded(pick, w.phase.todo - {pick})))
  {
    hide Called, Wf;
  }

  lemma RemoveStep(sys: Sys, i: nat, pick: string)
    requires Wf(sys.store) && i in sys.workers && sys.workers[i].phase.Unguarded?
    ensures
      var w := sys.workers[i];
      var c := SnapRemove(w.job.image, w.phase.snap);
      Next(sys, Work(i, pick, false))
      == if Apply(sys.store, c).Refused? then Moved(sys, i, w.(phase := Stopped))
         else Moved(Called(sys, c), i, w.(phase := Purging(w.phase.todo)))
  {
    hide Called, Wf, Apply;
  }

  lemma PurgingFacts(sys: Sys, i: nat)
    requires SysInv(sys) && i in sys.workers && sys.workers[i].phase.Purging?
    ensures
      var w := sys.workers[i];
      Covered(sys.store, w, w.phase.todo) && Free(sys.store, w.targets, w.missed)
  {
    assert WorkerInv(sys.store, sys.used, sys.workers[i]);
    hide Covered, Free, SysInv, Doomed;
  }

  /**
   The purge of a snapshot, when no call fails of itself, is refused exactly if an image that
   was trashed while the worker had it still to look at reads through the snapshot; then
   nothing has changed and the worker stops, else no snapshot of that name is left.
   */
  lemma RefusedExactly(sys: Sys, i: nat, pick: string)
    requires SysInv(sys) && Wf(sys.store) && AllAimed(sys) && i in sys.workers
    requires sys.workers[i].phase.Purging? && pick in sys.workers[i].phase.todo
    ensures
      var w := sys.workers[i];
      var sys1 := Next(sys, Work(i, pick, false));
      && Wf(sys1.store)
      && var sys2 := Next(sys1, Work(i, pick, false));
      && i in sys2.workers
      && (sys2.workers[i].phase == Stopped <==> Strays(sys.store, w, pick) != {})
      && (sys2.workers[i].phase == Stopped ==> sys2.store == sys.store && sys2.spool == sys.spool)
      && (sys2.workers[i].phase != Stopped ==>
            sys2.workers[i].phase == Purging(w.phase.todo - {pick}) && Gone(sys2.store, w.job.image, pick))
    ensures forall id :: id in Strays(sys.store, sys.workers[i], pick) && id in sys.store.images ==> IsTrash(sys.store.images[id].name)
  {
    var w, s := sys.workers[i], sys.store;
    var c, d := Unprotect(w.job.image, pick), SnapRemove(w.job.image, pick);
    OwnNames(sys, i);
    assert forall id :: id in Strays(s, w, pick) ==> id in w.missed;
    PurgingFacts(sys, i);
    hide SysInv, AllAimed, Wf, Covered, Free, Strays, Apply, Called, IsTrash;
    PurgeReplies(s, w, w.phase.todo, pick);
    UnprotectStep(sys, i, pick);
    var sys1 := Next(sys, Work(i, pick, false));
    CalledStore(sys, c);
    RemoveStep(sys1, i, pick);
    CalledStore(sys1, d);
    hide Aimed, Next;
    if !Apply(sys1.store, d).Refused? { GoneNow(sys1.store, w.job.image, pick); }
  }

  lemma CalledStore(sys: Sys, c: Call)
    requires Wf(sys.store)
    ensures
      var sys' := Called(sys, c);
      && Wf(sys'.store) && sys'.store == After(sys.store, c) && sys'.spool == sys.spool && sys'.workers.Keys == sys.workers.Keys
      && (!Apply(sys.store, c).Done? ==> sys' == sys)
  {
    if Apply(sys.store, c).Done? { CallKeeps(sys.store, c); }
    hide Apply, Wf, Noticed, Kept;
  }
}
