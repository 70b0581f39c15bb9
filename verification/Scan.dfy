/** SR.scan: which objects of the pool are VDIs, and which trashed ones still need a job. */
module Scan {
  import opened RbdStore
  import opened FlattenGc

  /** An image as the backend lists it. */
  datatype Listing = Listing(name: string, snaps: seq<string>)

  datatype Vdi = ImageVdi(image: string) | SnapVdi(image: string, snap: string)

  /** A file of the job spool: its content, if it can be read, and whether its worker looks dead. */
  datatype SpoolFile = SpoolFile(content: Option<Job>, stale: bool)

  /** _sweep_gc_jobs: the jobs that are spooled, and the files whose worker is started again. */
  method SweepJobs(files: seq<SpoolFile>) returns (targets: set<Job>, relaunched: seq<nat>)
    ensures forall j :: j in targets <==> exists i :: 0 <= i < |files| && files[i].content == Some(j)
    ensures forall i :: 0 <= i < |files| ==> (i in relaunched <==> files[i].content.Some? && files[i].stale)
    ensures forall k :: 0 <= k < |relaunched| ==> relaunched[k] < |files|
    ensures forall a, b :: 0 <= a < b < |relaunched| ==> relaunched[a] < relaunched[b]
  {
    targets, relaunched := {}, [];
    for i := 0 to |files|
      invariant forall j :: j in targets <==> exists k :: 0 <= k < i && files[k].content == Some(j)
      invariant forall k :: 0 <= k < |files| ==> (k in relaunched <==> k < i && files[k].content.Some? && files[k].stale)
      invariant forall k :: 0 <= k < |relaunched| ==> relaunched[k] < i
      invariant forall a, b :: 0 <= a < b < |relaunched| ==> relaunched[a] < relaunched[b]
    {
      match files[i].content {
        case None =>
        case Some(job) =>
          targets := targets + {job};
          if files[i].stale {
            relaunched := relaunched + [i];
          }
      }
    }
  }

  // --------------------------------------------------------------- what is asked for

  /** The trashed objects among the first m images, and the first n snapshots of the next one. */
  ghost predicate NeedsJob(images: seq<Listing>, m: nat, n: nat, j: Job)
  {
    match j
    case ImageJob(name) => exists i :: 0 <= i < |images| && i < m && images[i].name == name && IsTrash(name)
    case SnapJob(image, snap) =>
      exists i, k :: 0 <= i < |images| && 0 <= k < |images[i].snaps| && (i < m || (i == m && k < n))
                     && images[i].name == image && images[i].snaps[k] == snap && Live(image) && IsTrash(snap)
  }

  /** A live image is shown as a VDI. */
  predicate Live(name: string)
  {
    !IsTrash(name) && IsUuid(name)
  }

  /** The VDIs of the first m images, the next image itself if it is counted, and its first n snapshots. */
  ghost predicate Shown(images: seq<Listing>, m: nat, heads: nat, n: nat, uuid: string)
  {
    || (exists i :: 0 <= i < |images| && i < heads && images[i].name == uuid && Live(uuid))
    || (exists i, k :: 0 <= i < |images| && 0 <= k < |images[i].snaps| && (i < m || (i == m && k < n))
                       && Live(images[i].name) && images[i].snaps[k] == uuid && Live(uuid))
  }

  ghost predicate Stands(images: seq<Listing>, uuid: string, v: Vdi)
  {
    match v
    case ImageVdi(image) => image == uuid && exists i :: 0 <= i < |images| && images[i].name == image
    case SnapVdi(image, snap) =>
      snap == uuid && exists i, k :: 0 <= i < |images| && 0 <= k < |images[i].snaps| && images[i].name == image && images[i].snaps[k] == snap
  }

  ghost predicate Queued(images: seq<Listing>, m: nat, n: nat, spooled: set<Job>, covered: set<Job>, queued: seq<Job>)
  {
    && (forall j :: j in covered <==> j in spooled || j in queued)
    && (forall j :: NeedsJob(images, m, n, j) ==> j in covered)
    && (forall j :: j in queued ==> NeedsJob(images, m, n, j) && j !in spooled)
    && (forall a, b :: 0 <= a < b < |queued| ==> queued[a] != queued[b])
  }

  lemma OneMoreJob(images: seq<Listing>, m: nat, n: nat, m': nat, n': nat, spooled: set<Job>, covered: set<Job>, queued: seq<Job>, j: Job)
    requires Queued(images, m, n, spooled, covered, queued)
    requires forall x :: NeedsJob(images, m', n', x) <==> NeedsJob(images, m, n, x) || x == j
    ensures j in covered ==> Queued(images, m', n', spooled, covered, queued)
    ensures j !in covered ==> Queued(images, m', n', spooled, covered + {j}, queued + [j])
  {
    hide NeedsJob;
  }

  lemma NoMoreJob(images: seq<Listing>, m: nat, n: nat, m': nat, n': nat, spooled: set<Job>, covered: set<Job>, queued: seq<Job>)
    requires Queued(images, m, n, spooled, covered, queued)
    requires forall x :: NeedsJob(images, m', n', x) <==> NeedsJob(images, m, n, x)
    ensures Queued(images, m', n', spooled, covered, queued)
  {
    hide NeedsJob;
  }

  ghost predicate Showing(images: seq<Listing>, m: nat, heads: nat, n: nat, vdis: map<string, Vdi>)
  {
    && (forall u :: u in vdis <==> Shown(images, m, heads, n, u))
    && (forall u :: u in vdis ==> Stands(images, u, vdis[u]))
  }

  lemma OneMoreVdi(images: seq<Listing>, m: nat, heads: nat, n: nat, m': nat, heads': nat, n': nat, vdis: map<string, Vdi>, uuid: string, v: Vdi)
    requires Showing(images, m, heads, n, vdis) && Stands(images, uuid, v)
    requires forall u :: Shown(images, m', heads', n', u) <==> Shown(images, m, heads, n, u) || u == uuid
    ensures Showing(images, m', heads', n', vdis[uuid := v])
  {
    hide Shown, Stands;
  }

  // ----------------------------------------------------- going on in the listing

  lemma NextSnapJobs(images: seq<Listing>, m: nat, n: nat, x: Job)
    requires m < |images| && n < |images[m].snaps|
    ensures NeedsJob(images, m, n + 1, x) <==>
            NeedsJob(images, m, n, x) || (x == SnapJob(images[m].name, images[m].snaps[n]) && Live(images[m].name) && IsTrash(images[m].snaps[n]))
  {
    hide IsTrash, Live;
  }

  lemma NextImageJobs(images: seq<Listing>, m: nat, x: Job)
    requires m < |images|
    ensures NeedsJob(images, m + 1, 0, x) <==>
            NeedsJob(images, m, |images[m].snaps|, x) || (x == ImageJob(images[m].name) && IsTrash(images[m].name))
    ensures !Live(images[m].name) ==> (NeedsJob(images, m, |images[m].snaps|, x) <==> NeedsJob(images, m, 0, x))
  {
    hide IsTrash, Live;
  }

  lemma NextSnapShown(images: seq<Listing>, m: nat, n: nat, u: string)
    requires m < |images| && n < |images[m].snaps|
    ensures Shown(images, m, m + 1, n + 1, u) <==>
            Shown(images, m, m + 1, n, u) || (u == images[m].snaps[n] && Live(images[m].name) && Live(u))
  {
    hide Live;
  }

  lemma NextImageShown(images: seq<Listing>, m: nat, u: string)
    requires m < |images|
    ensures Shown(images, m, m + 1, 0, u) <==> Shown(images, m, m, 0, u) || (u == images[m].name && Live(u))
    ensures Shown(images, m + 1, m + 1, 0, u) <==> Shown(images, m, m + 1, |images[m].snaps|, u)
    ensures !Live(images[m].name) ==> (Shown(images, m, m + 1, |images[m].snaps|, u) <==> Shown(images, m, m + 1, 0, u))
  {
    hide Live;
  }

  /** The snapshots of one live image. */
  method ScanSnaps(images: seq<Listing>, m: nat, spooled: set<Job>, covered0: set<Job>, queued0: seq<Job>, vdis0: map<string, Vdi>)
    returns (covered: set<Job>, queued: seq<Job>, vdis: map<string, Vdi>)
    requires m < |images| && Live(images[m].name)
    requires Queued(images, m, 0, spooled, covered0, queued0) && Showing(images, m, m + 1, 0, vdis0)
    ensures Queued(images, m, |images[m].snaps|, spooled, covered, queued)
    ensures Showing(images, m, m + 1, |images[m].snaps|, vdis)
  {
    hide Queued, Showing, NeedsJob, Shown, IsTrash, IsUuid;
    covered, queued, vdis := covered0, queued0, vdis0;
    var name := images[m].name;
    for n := 0 to |images[m].snaps|
      invariant Queued(images, m, n, spooled, covered, queued) && Showing(images, m, m + 1, n, vdis)
    {
      var snap := images[m].snaps[n];
      forall x ensures NeedsJob(images, m, n + 1, x) <==> NeedsJob(images, m, n, x) || (x == SnapJob(name, snap) && IsTrash(snap)) {
        NextSnapJobs(images, m, n, x);
      }
      var heads, next := m + 1, n + 1;
      forall u ensures Shown(images, m, heads, next, u) <==> Shown(images, m, heads, n, u) || (u == snap && Live(snap)) {
        NextSnapShown(images, m, n, u);
      }
      assert Live(snap) <==> !IsTrash(snap) && IsUuid(snap);
      hide Live;
      if IsTrash(snap) {
        OneMoreJob(images, m, n, m, n + 1, spooled, covered, queued, SnapJob(name, snap));
        SameVdis(images, m, m + 1, n, m, m + 1, n + 1, vdis);
        if SnapJob(name, snap) !in covered {
          queued := queued + [SnapJob(name, snap)];
          covered := covered + {SnapJob(name, snap)};
        }
      } else {
        NoMoreJob(images, m, n, m, n + 1, spooled, covered, queued);
        if IsUuid(snap) {
          OneMoreVdi(images, m, m + 1, n, m, m + 1, n + 1, vdis, snap, SnapVdi(name, snap));
          vdis := vdis[snap := SnapVdi(name, snap)];
        } else {
          SameVdis(images, m, m + 1, n, m, m + 1, n + 1, vdis);
        }
      }
    }
  }

  lemma SameVdis(images: seq<Listing>, m: nat, heads: nat, n: nat, m': nat, heads': nat, n': nat, vdis: map<string, Vdi>)
    requires Showing(images, m, heads, n, vdis)
    requires forall u :: Shown(images, m', heads', n', u) <==> Shown(images, m, heads, n, u)
    ensures Showing(images, m', heads', n', vdis)
  {
    hide Shown, Stands;
  }

  /**
   scan: after it, every trashed image and every trashed snapshot of a live image has a job,
   no job is queued twice or without need, and the VDIs are the live images and their live
   snapshots, nothing else.
   */
  method ScanAll(images: seq<Listing>, spooled: set<Job>) returns (vdis: map<string, Vdi>, queued: seq<Job>)
    ensures forall j :: NeedsJob(images, |images|, 0, j) ==> j in spooled || j in queued
    ensures forall j :: j in queued ==> NeedsJob(images, |images|, 0, j) && j !in spooled
    ensures forall a, b :: 0 <= a < b < |queued| ==> queued[a] != queued[b]
    ensures forall u :: u in vdis <==> Shown(images, |images|, |images|, 0, u)
    ensures forall u :: u in vdis ==> Stands(images, u, vdis[u]) && !IsTrash(u) && !(CLONE_SNAP_PREFIX <= u)
  {
    vdis, queued := map[], [];
    var covered := spooled;
    for m := 0 to |images|
      invariant Queued(images, m, 0, spooled, covered, queued) && Showing(images, m, m, 0, vdis)
    {
      hide Queued, Showing, NeedsJob, Shown, IsTrash, IsUuid;
      var name := images[m].name;
      var all := |images[m].snaps|;
      forall x ensures NeedsJob(images, m + 1, 0, x) <==> NeedsJob(images, m, all, x) || (x == ImageJob(name) && IsTrash(name))
               ensures !Live(name) ==> (NeedsJob(images, m, all, x) <==> NeedsJob(images, m, 0, x)) {
        NextImageJobs(images, m, x);
      }
      forall u ensures Shown(images, m, m + 1, 0, u) <==> Shown(images, m, m, 0, u) || (u == name && Live(u))
               ensures Shown(images, m + 1, m + 1, 0, u) <==> Shown(images, m, m + 1, all, u)
               ensures !Live(name) ==> (Shown(images, m, m + 1, all, u) <==> Shown(images, m, m + 1, 0, u)) {
        NextImageShown(images, m, u);
      }
      if Live(name) {
        OneMoreVdi(images, m, m, 0, m, m + 1, 0, vdis, name, ImageVdi(name));
        vdis := vdis[name := ImageVdi(name)];
        covered, queued, vdis := ScanSnaps(images, m, spooled, covered, queued, vdis);
        NoMoreJob(images, m, all, m + 1, 0, spooled, covered, queued);
        SameVdis(images, m, m + 1, all, m + 1, m + 1, 0, vdis);
      } else {
        SameVdis(images, m, m, 0, m + 1, m + 1, 0, vdis);
        if IsTrash(name) {
          OneMoreJob(images, m, 0, m + 1, 0, spooled, covered, queued, ImageJob(name));
          if ImageJob(name) !in covered {
            queued := queued + [ImageJob(name)];
            covered := covered + {ImageJob(name)};
          }
        } else {
          NoMoreJob(images, m, 0, m + 1, 0, spooled, covered, queued);
        }
      }
    }
    forall u | u in vdis
      ensures !IsTrash(u) && !(CLONE_SNAP_PREFIX <= u)
    {
      if CLONE_SNAP_PREFIX <= u { HiddenNames(u); }
    }
  }

  /** The listing shows every image of the store with all its snapshots. */
  ghost predicate Lists(images: seq<Listing>, s: Store)
  {
    forall id :: id in s.images ==> exists i :: 0 <= i < |images| && ListsImage(images[i], s.images[id])
  }

  ghost predicate ListsImage(l: Listing, img: Image)
  {
    l.name == img.name && forall k :: k in img.snaps ==> img.snaps[k].name in l.snaps
  }

  /** What a scan leaves behind, said of the store. */
  lemma EveryTrashHasJob(images: seq<Listing>, s: Store, jobs: set<Job>)
    requires Lists(images, s) && forall j :: NeedsJob(images, |images|, 0, j) ==> j in jobs
    ensures forall id :: id in s.images && IsTrash(s.images[id].name) ==> ImageJob(s.images[id].name) in jobs
    ensures forall id, k :: id in s.images && Live(s.images[id].name) && k in s.images[id].snaps && IsTrash(s.images[id].snaps[k].name) ==>
              SnapJob(s.images[id].name, s.images[id].snaps[k].name) in jobs
  {
    hide IsTrash, Live;
    forall id | id in s.images && IsTrash(s.images[id].name)
      ensures NeedsJob(images, |images|, 0, ImageJob(s.images[id].name))
    {
      var i :| 0 <= i < |images| && ListsImage(images[i], s.images[id]);
    }
    forall id, k | id in s.images && Live(s.images[id].name) && k in s.images[id].snaps && IsTrash(s.images[id].snaps[k].name)
      ensures NeedsJob(images, |images|, 0, SnapJob(s.images[id].name, s.images[id].snaps[k].name))
    {
      var i :| 0 <= i < |images| && ListsImage(images[i], s.images[id]);
      var j :| 0 <= j < |images[i].snaps| && images[i].snaps[j] == s.images[id].snaps[k].name;
    }
  }
}
