/**
 Two runs from an empty pool: one that ends with a purge refused because of a clone trashed
 at the wrong moment, one that removes a job's file while the snapshot lives on.
 */
module GcRuns {
  import opened RbdStore
  import opened FlattenGc
  import opened GcWorkers
  import opened GcTargets
  import opened GcJob

  /** A disk, its clone and a snapshot, the name the snapshot is trashed under, and one to trash a disk under. */
  datatype Names = Names(base: string, clone: string, snap: string, trash: string, other: string)
  {
    predicate Valid() {
      && !IsTrash(base) && !IsTrash(clone) && !IsTrash(snap) && IsTrash(trash) && IsTrash(other)
      && trash != other && base != clone && snap != base && snap != clone
    }

    function Used(): set<string> {
      {base, snap, clone, trash}
    }
  }

  lemma SomeNames() returns (n: Names)
    ensures n.Valid()
  {
    n := Names("a", "b", "s", TRASH_PREFIX + "s", TRASH_PREFIX + "x");
    assert n.trash[10] != n.other[10] && n.base[0] != n.clone[0] && n.snap[0] != n.base[0] && n.snap[0] != n.clone[0];
  }

  const EMPTY := Layer(map[], None)
  const CLONED := Layer(map[], Some(Ref(0, 1)))
  const NEW := Sys(Store(map[], map[], 0), {}, map[], {}, map[])

  // ------------------------------------------------------------ up to the listing

  function BaseImage(n: Names, name: string, snap: string, guarded: bool): Image
  {
    Image(name, true, EMPTY, map[1 := Snapshot(snap, EMPTY, guarded)], map[snap := 1])
  }

  /** The disk with its snapshot, and the clone. */
  function Cloned(n: Names, snap: string): Store
  {
    Store(map[0 := BaseImage(n, n.base, snap, true), 2 := Image(n.clone, true, CLONED, map[], map[])],
          map[n.base := 0, n.clone := 2], 3)
  }

  function Prepare(n: Names): seq<Event>
  {
    [Driver(Create(n.base, true)), Driver(SnapCreate(n.base, n.snap)), Driver(Protect(n.base, n.snap)),
     Driver(Clone(n.base, n.snap, n.clone, true)), Driver(SnapRename(n.base, n.snap, n.trash))]
  }

  ghost predicate Reaches(es: seq<Event>, sys: Sys)
  {
    SysInv(NEW) && SysInv(sys) && Wf(sys.store) && AllAimed(sys) && Run(NEW, es) == sys
  }

  lemma ReachesNew()
    ensures Reaches([], NEW)
  {
    EmptyStart();
  }

  lemma {:induction false} RunAppend(sys: Sys, es: seq<Event>, e: Event)
    requires SysInv(sys)
    ensures SysInv(Run(sys, es)) && Wf(Run(sys, es).store) && Run(sys, es + [e]) == Next(Run(sys, es), e)
    decreases |es|
  {
    InvWf(sys);
    if es == [] {
      NextSafe(sys, e);
      assert [] + [e] == [e] && [e][1..] == [];
    } else {
      NextSafe(sys, es[0]);
      hide SysInv, Next, Kept, NoReturn, OnlyFinished;
      assert (es + [e])[0] == es[0] && (es + [e])[1..] == es[1..] + [e];
      RunAppend(Next(sys, es[0]), es[1..], e);
    }
  }

  lemma ReachesMore(es: seq<Event>, sys: Sys, e: Event)
    requires Reaches(es, sys)
    ensures Reaches(es + [e], Next(sys, e))
  {
    hide SysInv, Next, Run, AllAimed, Wf, Kept, NoReturn, OnlyFinished;
    RunAppend(NEW, es, e);
    NextSafe(sys, e);
    InvWf(Next(sys, e));
    NextAimed(sys, e);
  }

  /** A call of the driver in a system without workers. */
  lemma DriverCall(es: seq<Event>, s: Store, used: set<string>, c: Call, es': seq<Event>, s': Store, used': set<string>)
    requires Reaches(es, Sys(s, used, map[], {}, map[])) && Permitted(s, used, c) && Apply(s, c) == Done(s')
    requires es' == es + [Driver(c)] && used' == used + NewNames(c)
    ensures Reaches(es', Sys(s', used', map[], {}, map[])) && Wf(s')
  {
    var sys := Sys(s, used, map[], {}, map[]);
    ReachesMore(es, sys, Driver(c));
    WfOf(es', Next(sys, Driver(c)));
    CalledParts(sys, c);
    hide Reaches, Apply, Noticed, Wf;
    assert Next(sys, Driver(c)) == Called(sys, c) by { hide Called; }
    hide Called, Permitted, Next;
    assert Called(sys, c).workers == map[];
  }

  lemma Calls(n: Names)
    requires n.Valid() && Wf(NEW.store)
    ensures
      var s1 := Store(map[0 := Image(n.base, true, EMPTY, map[], map[])], map[n.base := 0], 1);
      Permitted(NEW.store, {}, Create(n.base, true)) && Apply(NEW.store, Create(n.base, true)) == Done(s1)
  {
  }

  lemma Call2(n: Names, s1: Store)
    requires n.Valid() && Wf(s1) && s1 == Store(map[0 := Image(n.base, true, EMPTY, map[], map[])], map[n.base := 0], 1)
    ensures Permitted(s1, {n.base}, SnapCreate(n.base, n.snap))
    ensures Apply(s1, SnapCreate(n.base, n.snap)) == Done(Store(map[0 := BaseImage(n, n.base, n.snap, false)], map[n.base := 0], 2))
  {
    hide Wf;
  }

  lemma Call3(n: Names, s2: Store)
    requires n.Valid() && Wf(s2) && s2 == Store(map[0 := BaseImage(n, n.base, n.snap, false)], map[n.base := 0], 2)
    ensures Permitted(s2, {n.base, n.snap}, Protect(n.base, n.snap))
    ensures Apply(s2, Protect(n.base, n.snap)) == Done(Store(map[0 := BaseImage(n, n.base, n.snap, true)], map[n.base := 0], 2))
  {
    hide Wf;
    assert SetGuard(s2.images[0], 1, true) == BaseImage(n, n.base, n.snap, true);
    assert s2.images[0 := BaseImage(n, n.base, n.snap, true)] == map[0 := BaseImage(n, n.base, n.snap, true)];
  }

  lemma Call4(n: Names, s3: Store)
    requires n.Valid() && Wf(s3) && s3 == Store(map[0 := BaseImage(n, n.base, n.snap, true)], map[n.base := 0], 2)
    ensures Permitted(s3, {n.base, n.snap}, Clone(n.base, n.snap, n.clone, true))
    ensures Apply(s3, Clone(n.base, n.snap, n.clone, true)) == Done(Cloned(n, n.snap))
  {
    hide Wf;
  }

  lemma Call5(n: Names, s4: Store)
    requires n.Valid() && Wf(s4) && s4 == Cloned(n, n.snap)
    ensures Permitted(s4, {n.base, n.snap, n.clone}, SnapRename(n.base, n.snap, n.trash))
    ensures Apply(s4, SnapRename(n.base, n.snap, n.trash)) == Done(Cloned(n, n.trash))
  {
    hide Wf;
    assert (map[n.snap := 1] - {n.snap})[n.trash := 1] == map[n.trash := 1];
    assert RenameSnap(s4.images[0], 1, n.trash) == BaseImage(n, n.base, n.trash, true);
    assert s4.images[0 := BaseImage(n, n.base, n.trash, true)] == Cloned(n, n.trash).images;
  }

  function JobOf(n: Names): Job
  {
    SnapJob(n.base, n.trash)
  }

  /** The worker once it has listed the clone. */
  function Lister(n: Names): Worker
  {
    Worker(0, JobOf(n), Resolving({n.clone}), Some(0), {Ref(0, 1)}, true, {})
  }

  function Listing(n: Names): seq<Event>
  {
    Prepare(n) + [Spool(0, JobOf(n)), Launch(0, 0), Work(0, "", false)]
  }

  lemma Prepared(n: Names)
    requires n.Valid()
    ensures Reaches(Prepare(n), Sys(Cloned(n, n.trash), n.Used(), map[], {}, map[]))
  {
    hide Reaches, Apply, Permitted, Names.Valid;
    ReachesNew();
    WfOf([], NEW);
    Calls(n);
    var s1 := Store(map[0 := Image(n.base, true, EMPTY, map[], map[])], map[n.base := 0], 1);
    var s2 := Store(map[0 := BaseImage(n, n.base, n.snap, false)], map[n.base := 0], 2);
    var s3 := Store(map[0 := BaseImage(n, n.base, n.snap, true)], map[n.base := 0], 2);
    var c1, c2, c3 := Create(n.base, true), SnapCreate(n.base, n.snap), Protect(n.base, n.snap);
    var c4, c5 := Clone(n.base, n.snap, n.clone, true), SnapRename(n.base, n.snap, n.trash);
    DriverCall([], NEW.store, {}, c1, [Driver(c1)], s1, {n.base});
    Call2(n, s1);
    DriverCall([Driver(c1)], s1, {n.base}, c2, [Driver(c1), Driver(c2)], s2, {n.base, n.snap});
    Call3(n, s2);
    DriverCall([Driver(c1), Driver(c2)], s2, {n.base, n.snap}, c3, [Driver(c1), Driver(c2), Driver(c3)], s3, {n.base, n.snap});
    Call4(n, s3);
    var es4 := [Driver(c1), Driver(c2), Driver(c3), Driver(c4)];
    DriverCall([Driver(c1), Driver(c2), Driver(c3)], s3, {n.base, n.snap}, c4, es4, Cloned(n, n.snap), {n.base, n.snap, n.clone});
    Call5(n, Cloned(n, n.snap));
    DriverCall(es4, Cloned(n, n.snap), {n.base, n.snap, n.clone}, c5, Prepare(n), Cloned(n, n.trash), n.Used());
  }

  lemma WfOf(es: seq<Event>, sys: Sys)
    requires Reaches(es, sys)
    ensures Wf(sys.store) && SysInv(sys)
  {
  }

  lemma Listed(n: Names)
    requires n.Valid()
    ensures Reaches(Listing(n), Single(Cloned(n, n.trash), n.Used(), Lister(n)))
  {
    hide Names.Valid, Cloned, Prepare, Reaches, SysInv, Wf, Run, JobOk, Next, Lister;
    var s, used, job := Cloned(n, n.trash), n.Used(), JobOf(n);
    var sys5 := Sys(s, used, map[], {}, map[]);
    Prepared(n);
    WfOf(Prepare(n), sys5);
    TrashKnown(n);
    ReachesMore(Prepare(n), sys5, Spool(0, job));
    Spooled(s, used, job);
    var sys6 := Sys(s, used, map[0 := job], {0}, map[]);
    ReachesMore(Prepare(n) + [Spool(0, job)], sys6, Launch(0, 0));
    var sys7 := Single(s, used, NewWorker(0, job));
    ReachesMore(Prepare(n) + [Spool(0, job)] + [Launch(0, 0)], sys7, Work(0, "", false));
    StartFinds(n);
    assert Prepare(n) + [Spool(0, job)] + [Launch(0, 0)] + [Work(0, "", false)] == Listing(n);
  }

  lemma TrashKnown(n: Names)
    requires n.Valid()
    ensures JobOk(JobOf(n), n.Used())
  {
  }

  /** A job is spooled, a worker launched, and it starts. */
  lemma Spooled(s: Store, used: set<string>, job: Job)
    requires Wf(s) && JobOk(job, used)
    ensures Next(Sys(s, used, map[], {}, map[]), Spool(0, job)) == Sys(s, used, map[0 := job], {0}, map[])
    ensures Next(Sys(s, used, map[0 := job], {0}, map[]), Launch(0, 0)) == Single(s, used, NewWorker(0, job))
    ensures Next(Single(s, used, NewWorker(0, job)), Work(0, "", false)) == Single(s, used, Started(s, NewWorker(0, job)))
  {
    hide Wf, JobOk, Targets, ChildNames;
    assert map[][0 := job] == map[0 := job];
  }

  /** The disk's snapshot is the one target, the clone its one child. */
  lemma StartFinds(n: Names)
    requires n.Valid()
    ensures Started(Cloned(n, n.trash), NewWorker(0, JobOf(n))) == Lister(n)
  {
    var s := Cloned(n, n.trash);
    hide IsTrash;
    assert Targets(s, JobOf(n)) == {Ref(0, 1)};
    assert Children(s.images, Ref(0, 1)) == {2};
    ListsClone(s, n.clone);
  }

  lemma ListsClone(s: Store, name: string)
    requires Children(s.images, Ref(0, 1)) == {2} && 2 in s.images && s.images[2].name == name
    ensures ChildNames(s, {Ref(0, 1)}) == {name}
  {
    hide Children;
    assert 2 in Children(s.images, Ref(0, 1));
  }

  // -------------------------------------------------- a clone trashed too soon

  function MissedRun(n: Names): seq<Event>
  {
    Listing(n) + [Driver(ImageRename(n.clone, n.other)), Work(0, n.clone, false), Work(0, n.clone, false),
                  Work(0, n.trash, false), Work(0, n.trash, false)]
  }

  /** Three steps more. */
  lemma ReachesThree(es: seq<Event>, sys: Sys, a: Event, b: Event, c: Event)
    requires Reaches(es, sys)
    ensures Wf(sys.store) && Wf(Next(sys, a).store) && Wf(Next(Next(sys, a), b).store)
    ensures Reaches(es + [a, b, c], Next(Next(Next(sys, a), b), c))
  {
    hide Reaches, Next, Wf;
    WfOf(es, sys);
    ReachesMore(es, sys, a);
    var sys1 := Next(sys, a);
    WfOf(es + [a], sys1);
    ReachesMore(es + [a], sys1, b);
    var sys2 := Next(sys1, b);
    WfOf(es + [a] + [b], sys2);
    ReachesMore(es + [a] + [b], sys2, c);
    assert es + [a] + [b] + [c] == es + [a, b, c];
  }

  lemma ReadsThrough(n: Names)
    ensures 2 in Children(Cloned(n, n.trash).images, Ref(0, 1)) && IsTarget(Cloned(n, n.trash), JobOf(n), Ref(0, 1))
  {
    assert Cloned(n, n.trash).images[2].head.parent == Some(Ref(0, 1));
  }

  lemma MayTrash(n: Names)
    requires n.Valid()
    ensures Permitted(Cloned(n, n.trash), n.Used(), ImageRename(n.clone, n.other)) && n.other !in Cloned(n, n.trash).dir
  {
  }

  lemma AboutTo(n: Names)
    requires n.Valid() && SysInv(Single(Cloned(n, n.trash), n.Used(), Lister(n))) && Wf(Cloned(n, n.trash))
    ensures AboutToMiss(Single(Cloned(n, n.trash), n.Used(), Lister(n)), 0, n.clone, n.other, Ref(0, 1))
  {
    ReadsThrough(n);
    MayTrash(n);
    hide SysInv, Wf, IsTrash, Children, Permitted, IsTarget;
  }

  /** The state before a clone is missed is reached. */
  lemma AboutToMissReached(n: Names)
    requires n.Valid()
    ensures SysInv(NEW) && AboutToMiss(Run(NEW, Listing(n)), 0, n.clone, n.other, Ref(0, 1))
  {
    hide Names.Valid, Cloned, Single, Lister, Listing, AboutToMiss, SysInv, Wf, Run, AllAimed;
    ListedInv(n);
    AboutTo(n);
  }

  lemma ListedInv(n: Names)
    requires n.Valid()
    ensures
      var sys := Single(Cloned(n, n.trash), n.Used(), Lister(n));
      Reaches(Listing(n), sys) && SysInv(NEW) && SysInv(sys) && Wf(Cloned(n, n.trash)) && Run(NEW, Listing(n)) == sys
  {
    hide Names.Valid, Cloned, Single, Lister, Listing;
    Listed(n);
    hide SysInv, Wf, Run, AllAimed;
    SingleStore(Cloned(n, n.trash), n.Used(), Lister(n));
  }

  lemma SingleStore(s: Store, used: set<string>, w: Worker)
    ensures Single(s, used, w).store == s
  {
  }

  /** The run ends with the worker stopped, the job still in the spool, and the clone still reading through the snapshot. */
  lemma MissedRunEnds(n: Names)
    requires n.Valid()
    ensures SysInv(NEW)
    ensures
      var sys := Run(NEW, MissedRun(n));
      && 0 in sys.workers && sys.workers[0].phase == Stopped && sys.spool == map[0 := JobOf(n)]
      && 2 in Children(sys.store.images, Ref(0, 1)) && IsTarget(sys.store, JobOf(n), Ref(0, 1))
  {
    hide Names.Valid, Reaches, Cloned, Single, Lister, Listing, AboutToMiss, SysInv, Wf, Run, Children, IsTarget, Next;
    ListedInv(n);
    AboutTo(n);
    var sys8 := Single(Cloned(n, n.trash), n.Used(), Lister(n));
    var r, look, purge := Driver(ImageRename(n.clone, n.other)), Work(0, n.clone, false), Work(0, n.trash, false);
    ReachesThree(Listing(n), sys8, r, look, look);
    MissedLooks(n, sys8);
    MissedPurge(Listing(n) + [r, look, look], Next(Next(Next(sys8, r), look), look), n);
    assert Listing(n) + [r, look, look] + [purge] + [purge] == MissedRun(n);
  }

  /** The clone is trashed, and taken for gone. */
  lemma MissedLooks(n: Names, sys: Sys)
    requires sys == Single(Cloned(n, n.trash), n.Used(), Lister(n)) && AboutToMiss(sys, 0, n.clone, n.other, Ref(0, 1))
    ensures
      var r, look := Driver(ImageRename(n.clone, n.other)), Work(0, n.clone, false);
      Wf(sys.store) && Wf(Next(sys, r).store) && Wf(Next(Next(sys, r), look).store) && Missed(Next(Next(Next(sys, r), look), look), n)
  {
    var r, look := Driver(ImageRename(n.clone, n.other)), Work(0, n.clone, false);
    SpoolSame(sys, ImageRename(n.clone, n.other));
    assert sys.store.dir[n.clone] == 2 && sys.workers[0] == Lister(n) && sys.spool == map[0 := JobOf(n)];
    hide AboutToMiss, SysInv, Wf, Next, Children, IsTarget, Cloned, Single;
    RenamedChildIsMissed(sys, 0, n.clone, n.other, Ref(0, 1), n.trash);
    hide Moved;
    MovedFields(Next(sys, r), Lister(n).(phase := Purging({n.trash}), missed := {} + {2}));
  }

  lemma MovedFields(sys: Sys, w: Worker)
    ensures
      var sys' := Moved(sys, 0, w);
      sys'.store == sys.store && sys'.spool == sys.spool && 0 in sys'.workers && sys'.workers[0] == w
  {
  }

  lemma SpoolSame(sys: Sys, c: Call)
    requires Wf(sys.store)
    ensures Next(sys, Driver(c)).spool == sys.spool
  {
    hide Wf, Apply, Permitted, Noticed;
  }

  /** The worker goes on to purge a snapshot that the clone it missed still reads through. */
  ghost predicate Missed(sys: Sys, n: Names)
  {
    && 0 in sys.workers && sys.workers[0].phase == Purging({n.trash}) && sys.workers[0].job == JobOf(n) && 2 in sys.workers[0].missed
    && sys.spool == map[0 := JobOf(n)] && 2 in Children(sys.store.images, Ref(0, 1)) && IsTarget(sys.store, JobOf(n), Ref(0, 1))
  }

  /** The purge that follows. */
  lemma MissedPurge(es: seq<Event>, sys: Sys, n: Names)
    requires Reaches(es, sys) && Missed(sys, n)
    ensures SysInv(NEW)
    ensures
      var sys' := Run(NEW, es + [Work(0, n.trash, false)] + [Work(0, n.trash, false)]);
      0 in sys'.workers && sys'.workers[0].phase == Stopped && sys'.spool == sys.spool && sys'.store == sys.store
  {
    var purge := Work(0, n.trash, false);
    WfOf(es, sys);
    AimedOf(es, sys);
    StrayIs(sys.store, sys.workers[0], n.trash, Ref(0, 1), 2);
    hide Reaches, SysInv, AllAimed, Wf, Next, Children, IsTarget, Strays, IsTrash;
    RefusedExactly(sys, 0, n.trash);
    var sys1 := Next(sys, purge);
    ReachesMore(es, sys, purge);
    ReachesMore(es + [purge], sys1, purge);
    ReachedRun(es + [purge] + [purge], Next(sys1, purge));
  }

  lemma ReachedRun(es: seq<Event>, sys: Sys)
    requires Reaches(es, sys)
    ensures SysInv(NEW) && Run(NEW, es) == sys
  {
  }

  lemma AimedOf(es: seq<Event>, sys: Sys)
    requires Reaches(es, sys)
    ensures AllAimed(sys)
  {
  }

  lemma StrayIs(s: Store, w: Worker, snap: string, r: Ref, id: nat)
    requires IsTarget(s, w.job, r) && w.job.SnapJob? && w.job.snap == snap && id in w.missed && id in Children(s.images, r)
    ensures id in Strays(s, w, snap)
  {
  }

  // -------------------------------------------- a snapshot that outlives its job

  function HiddenRun(n: Names): seq<Event>
  {
    Listing(n) + [Driver(Remove(n.clone)), Driver(ImageRename(n.base, n.other)), Work(0, n.clone, false), Work(0, "", false),
                  Work(0, n.trash, false), Work(0, "", false), Work(0, "", false), Work(0, "", false)]
  }

  /** The disk trashed with its snapshot, and the clone gone. */
  function Trashed(n: Names): Store
  {
    Store(map[0 := BaseImage(n, n.other, n.trash, true)], map[n.other := 0], 3)
  }

  lemma WithoutClone(n: Names)
    requires n.Valid() && Wf(Cloned(n, n.trash))
    ensures Apply(Cloned(n, n.trash), Remove(n.clone)) == Done(Store(map[0 := BaseImage(n, n.base, n.trash, true)], map[n.base := 0], 3))
  {
    hide Wf;
    var s := Cloned(n, n.trash);
    assert s.images - {2} == map[0 := BaseImage(n, n.base, n.trash, true)] && s.dir - {n.clone} == map[n.base := 0];
  }

  lemma BaseTrashed(n: Names, s: Store)
    requires n.Valid() && Wf(s) && s == Store(map[0 := BaseImage(n, n.base, n.trash, true)], map[n.base := 0], 3)
    ensures Permitted(s, n.Used(), ImageRename(n.base, n.other)) && Apply(s, ImageRename(n.base, n.other)) == Done(Trashed(n))
  {
    assert n.other !in n.Used();
    hide Wf, IsTrash;
    assert (map[n.base := 0] - {n.base})[n.other := 0] == map[n.other := 0];
    assert s.images[0 := s.images[0].(name := n.other)] == Trashed(n).images;
  }

  /** A call of the driver while the worker stands at w, which does not miss anything by it. */
  lemma CallBeside(es: seq<Event>, s: Store, used: set<string>, w: Worker, c: Call, s': Store, used': set<string>)
    requires Reaches(es, Single(s, used, w)) && Wf(s) && Permitted(s, used, c) && Apply(s, c) == Done(s') && used' == used + NewNames(c)
    requires Noticed(s, w, c) == w
    ensures Reaches(es + [Driver(c)], Single(s', used', w)) && Wf(s')
  {
    var sys := Single(s, used, w);
    ReachesMore(es, sys, Driver(c));
    WfOf(es + [Driver(c)], Next(sys, Driver(c)));
    CalledParts(sys, c);
    hide Reaches, Apply, Noticed, Wf;
    assert Next(sys, Driver(c)) == Called(sys, c) by { hide Called; }
    hide Called, Permitted, Next;
    assert Called(sys, c).workers == map[0 := w];
  }

  lemma TrashingSeen(n: Names)
    requires n.Valid()
    ensures Reaches(Listing(n) + [Driver(Remove(n.clone))] + [Driver(ImageRename(n.base, n.other))],
                    Single(Trashed(n), n.Used() + {n.other}, Lister(n)))
    ensures Wf(Trashed(n))
  {
    hide Reaches, Listing, Cloned, Single, Names.Valid, SysInv, Wf, Run, AllAimed, Apply, IsTrash;
    ListedInv(n);
    WithoutClone(n);
    assert n.Used() + NewNames(Remove(n.clone)) == n.Used();
    var s1 := Store(map[0 := BaseImage(n, n.base, n.trash, true)], map[n.base := 0], 3);
    CallBeside(Listing(n), Cloned(n, n.trash), n.Used(), Lister(n), Remove(n.clone), s1, n.Used());
    BaseTrashed(n, s1);
    NotMissed(n, s1);
    hide Trashed, Lister, Noticed;
    CallBeside(Listing(n) + [Driver(Remove(n.clone))], s1, n.Used(), Lister(n), ImageRename(n.base, n.other), Trashed(n), n.Used() + {n.other});
  }

  lemma NotMissed(n: Names, s: Store)
    requires n.Valid()
    ensures Noticed(s, Lister(n), ImageRename(n.base, n.other)) == Lister(n)
  {
  }

  /** A step of the worker that only moves it on. */
  lemma StepAt(es: seq<Event>, s: Store, used: set<string>, w: Worker, pick: string, w': Worker)
    requires Reaches(es, Single(s, used, w)) && Wf(s) && w'.job == w.job
    requires WorkStep(Single(s, used, w), 0, pick, false) == Moved(Single(s, used, w), 0, w')
    ensures Reaches(es + [Work(0, pick, false)], Single(s, used, w'))
  {
    hide Reaches, Wf, WorkStep;
    ReachesMore(es, Single(s, used, w), Work(0, pick, false));
    MovedSingle(s, used, w, w');
  }

  /** Whatever is asked of the old name is not found. */
  lemma NothingNamed(n: Names, used: set<string>, w: Worker, c: Call)
    requires n.Valid() && Wf(Trashed(n)) && c.image == n.base && !c.Create?
    ensures Apply(Trashed(n), c) == NotFound && Called(Single(Trashed(n), used, w), c) == Single(Trashed(n), used, w)
  {
    hide Wf;
  }

  /** The worker ends and its file goes; the snapshot is still there, in an image that was trashed. */
  lemma HiddenRunEnds(n: Names)
    requires n.Valid()
    ensures SysInv(NEW)
    ensures
      var sys := Run(NEW, HiddenRun(n));
      && 0 in sys.workers && sys.workers[0].phase == Stopped && sys.spool == map[]
      && Hidden(sys.store, JobOf(n), Ref(0, 1)) && sys.workers[0].targets == {Ref(0, 1)}
  {
    hide Reaches, Single, Names.Valid, SysInv, Wf, Run, Trashed, Listing, WorkStep, Moved, IsTarget, Hidden;
    TrashingSeen(n);
    var s, used, w := Trashed(n), n.Used() + {n.other}, Lister(n);
    var es := Listing(n) + [Driver(Remove(n.clone))] + [Driver(ImageRename(n.base, n.other))];
    var w1, w2 := w.(phase := Resolving({})), w.(phase := Purging({n.trash}));
    LooksOn(n, used);
    StepAt(es, s, used, w, n.clone, w1);
    StepAt(es + [Work(0, n.clone, false)], s, used, w1, "", w2);
    HiddenPurge(n, es + [Work(0, n.clone, false)] + [Work(0, "", false)], used, w2);
    var idle := Work(0, "", false);
    assert es + [Work(0, n.clone, false)] + [idle] + [Work(0, n.trash, false)] + [idle] + [idle] + [idle] == HiddenRun(n);
  }

  /** The clone is taken for gone, and the purge begins. */
  lemma LooksOn(n: Names, used: set<string>)
    requires n.Valid() && Wf(Trashed(n))
    ensures
      var s, w := Trashed(n), Lister(n);
      var w1 := w.(phase := Resolving({}));
      && WorkStep(Single(s, used, w), 0, n.clone, false) == Moved(Single(s, used, w), 0, w1)
      && WorkStep(Single(s, used, w1), 0, "", false) == Moved(Single(s, used, w1), 0, w.(phase := Purging({n.trash})))
  {
    assert n.clone !in Trashed(n).dir by { assert n.clone != n.other; }
    assert {n.clone} - {n.clone} == {};
    hide Wf, Names.Valid, Trashed;
  }

  lemma HiddenPurge(n: Names, es: seq<Event>, used: set<string>, w: Worker)
    requires n.Valid() && Reaches(es, Single(Trashed(n), used, w)) && Wf(Trashed(n)) && w == Lister(n).(phase := Purging({n.trash}))
    ensures SysInv(NEW)
    ensures
      var work := Work(0, "", false);
      var sys := Run(NEW, es + [Work(0, n.trash, false)] + [work] + [work] + [work]);
      && 0 in sys.workers && sys.workers[0].phase == Stopped && sys.spool == map[]
      && Hidden(sys.store, JobOf(n), Ref(0, 1)) && sys.workers[0].targets == {Ref(0, 1)}
  {
    var s, work := Trashed(n), Work(0, "", false);
    var w1 := w.(phase := Unguarded(n.trash, {}));
    NothingNamed(n, used, w, Unprotect(n.base, n.trash));
    NothingNamed(n, used, w1, SnapRemove(n.base, n.trash));
    assert Hidden(s, JobOf(n), Ref(0, 1));
    hide Reaches, Single, Wf, IsTrash, Apply, Called, Hidden, Trashed;
    assert {n.trash} - {n.trash} == {};
    StepAt(es, s, used, w, n.trash, w1);
    var es1 := es + [Work(0, n.trash, false)];
    var w2 := w.(phase := Purging({}));
    StepAt(es1, s, used, w1, "", w2);
    var w3 := w.(phase := Unlinking);
    StepAt(es1 + [work], s, used, w2, "", w3);
    UnlinkAt(es1 + [work] + [work], s, used, w3);
  }

  lemma UnlinkAt(es: seq<Event>, s: Store, used: set<string>, w: Worker)
    requires Reaches(es, Single(s, used, w)) && Wf(s) && w.phase == Unlinking && w.file == 0
    ensures SysInv(NEW)
    ensures
      var sys := Run(NEW, es + [Work(0, "", false)]);
      && 0 in sys.workers && sys.workers[0] == w.(phase := Stopped) && sys.spool == map[] && sys.store == s
  {
    var sys := Single(s, used, w);
    ReachesMore(es, sys, Work(0, "", false));
    ReachedRun(es + [Work(0, "", false)], Next(sys, Work(0, "", false)));
    hide Reaches, Wf, Run;
    assert map[0 := w.job] - {0} == map[];
  }
}
