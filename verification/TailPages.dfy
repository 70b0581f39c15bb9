/**
 The pages of encrypted tails, over whole runs of the reader and for any bytes at all from
 the socket: which are released, and which are lost after a revocation.
 */
module TailPages {
  import opened Wire
  import opened Frames
  import opened Reader
  import opened FrameReading

  /** A message is revoked inside its encrypted tail. */
  predicate Revokes(r: Reader, s: Step)
  {
    s.RevokeIncoming? && r.secure && r.reading && r.want > 0
  }

  /** The encrypted tail of a message that has a buffer is begun. */
  ghost predicate Begins(l: Link, s: Step)
  {
    l.r.secure && !l.r.reading && Exec(l, s).r.reading
  }

  // -------------------------------------------------------------- a single step

  /** There are pages exactly while a tail is read, and from a revocation to the next tail. */
  ghost predicate PagesOk(r: Reader, orphaned: bool)
  {
    && Shape(r)
    && (orphaned ==> r.secure && r.encHeld && !r.reading)
    && (!r.state.Failed? ==> (r.encHeld <==> (r.secure && r.reading) || orphaned))
  }

  /** What a step that handles bytes does to the pages. */
  ghost predicate PageStep(r: Reader, r': Reader)
  {
    var begins := r.secure && !r.reading && r'.reading;
    && r'.secure == r.secure
    && r'.leaks == r.leaks + (if begins && r.encHeld then 1 else 0)
    && (begins ==> r'.encHeld && !r'.state.Failed?)
    && (!begins && !(r.secure && r.reading) ==> r'.encHeld == r.encHeld)
    && (r.secure && r.reading && !r'.state.Failed? ==> (r'.encHeld <==> r'.reading && r.encHeld))
  }

  lemma ControlPages(r: Reader, env: Env)
    requires !r.reading && !r.state.Failed?
    ensures PageStep(r, ControlRead(r, env))
  {
    hide Signed, SeqOf, TailLen, PaddedLen, KnownTag, Crc;
  }

  lemma SamePages(r: Reader, r1: Reader, r': Reader)
    requires PageStep(r1, r')
    requires r1.secure == r.secure && r1.leaks == r.leaks && r1.encHeld == r.encHeld && r1.reading == r.reading
    ensures PageStep(r, r')
  {
  }

  lemma PreamblePages(r: Reader, env: Env)
    requires Shape(r) && r.want == 0 && r.state == HandlePreamble && r.secure
    ensures PageStep(r, PreambleSecure(r, env))
  {
    hide ControlRead, Crc, PaddedLen, DecodePreamble;
    var o := Open(r.aead, r.nonce, r.buf);
    if o.Some? && DecodePreamble(o.value[..PREAMBLE_LEN]).Ok? {
      var d := DecodePreamble(o.value[..PREAMBLE_LEN]).value;
      if d.lens[0] <= PREAMBLE_INLINE_LEN {
        var r1 := r.(nonce := Bump(r.nonce), desc := d, ctrl := o.value[PREAMBLE_LEN..][..d.lens[0]]);
        ControlPages(r1, env);
        SamePages(r, r1, ControlRead(r1, env));
      }
    }
  }

  lemma RemainderPages(r: Reader, env: Env)
    requires Shape(r) && r.want == 0 && r.state == HandleControlRemainder
    ensures PageStep(r, ControlRemainder(r, env))
  {
    hide ControlRead, PaddedLen;
    var o := Open(r.aead, r.nonce, r.buf);
    if o.Some? {
      var r1 := r.(nonce := Bump(r.nonce), ctrl := r.ctrl + o.value[..r.desc.lens[0] - PREAMBLE_INLINE_LEN]);
      ControlPages(r1, env);
      SamePages(r, r1, ControlRead(r1, env));
    }
  }

  lemma ControlPlainPages(r: Reader, env: Env)
    requires Shape(r) && r.want == 0 && r.state == HandleControl
    ensures PageStep(r, ControlPlain(r, env))
  {
    hide ControlRead, Crc, FromLe32;
    var r1 := r.(ctrl := r.buf[..r.desc.lens[0]]);
    ControlPages(r1, env);
    SamePages(r, r1, ControlRead(r1, env));
  }

  lemma EpiloguePages(r: Reader)
    requires Shape(r) && r.want == 0 && r.state == HandleEpilogue
    ensures r.secure ==> PageStep(r, EpilogueSecure(r))
    ensures !r.secure ==> PageStep(r, EpiloguePlain(r))
  {
    hide GoodChecksums, Crc, PaddedLen, TailLen, Complete;
  }

  /** Handling what has arrived: only the start of a tail replaces pages, and only its end releases them. */
  lemma PopulatePages(r: Reader, env: Env)
    requires Shape(r) && r.want == 0
    ensures PageStep(r, Populate(r, env))
  {
    hide PreambleSecure, PreamblePlain, ControlPlain, ControlRemainder, EpilogueSecure, EpiloguePlain, Crc, PaddedLen, PageStep;
    match r.state {
      case HandlePreamble =>
        if r.secure { PreamblePages(r, env); } else { PlainPreamblePages(r); }
      case HandleControl => ControlPlainPages(r, env);
      case HandleControlRemainder => RemainderPages(r, env);
      case HandleEpilogue => EpiloguePages(r);
      case _ => OtherPages(r, env);
    }
  }

  lemma PlainPreamblePages(r: Reader)
    requires Shape(r) && r.want == 0 && r.state == HandlePreamble && !r.secure
    ensures PageStep(r, PreamblePlain(r))
  {
    hide DecodePreamble;
  }

  lemma OtherPages(r: Reader, env: Env)
    requires Shape(r) && r.want == 0 && r.state !in {HandlePreamble, HandleControl, HandleControlRemainder, HandleEpilogue}
    ensures PageStep(r, Populate(r, env))
  {
    hide Crc, PaddedLen, TailLen;
  }

  /** One step of a run, of any kind and on any bytes. */
  lemma ExecPages(l: Link, s: Step, orphaned: bool)
    requires PagesOk(l.r, orphaned)
    ensures PagesOk(Exec(l, s).r, Revokes(l.r, s) || (orphaned && !Begins(l, s)))
    ensures Exec(l, s).r.leaks == l.r.leaks + (if Begins(l, s) && orphaned then 1 else 0)
    ensures !(Revokes(l.r, s) && Begins(l, s))
  {
    hide PaddedLen, TailLen;
    match s {
      case Process(env) =>
        if l.r.want == 0 {
          PopulatePages(l.r, env);
          if l.r.state.Failed? { FailedStays(l.r, env); }
          hide Populate, Shape;
          if !l.r.state.Failed? { PopulateReady(l.r, env); }
        }
      case _ =>
    }
  }

  lemma FailedStays(r: Reader, env: Env)
    requires Shape(r) && r.want == 0 && r.state.Failed?
    ensures Populate(r, env) == r
  {
  }

  // ----------------------------------------------------------------- whole runs

  /** Step i of a run. */
  ghost predicate RevokedAt(l: Link, steps: seq<Step>, i: nat)
  {
    i < |steps| && Revokes(ExecAll(l, steps[..i]).r, steps[i])
  }

  ghost predicate BegunAt(l: Link, steps: seq<Step>, i: nat)
  {
    i < |steps| && Begins(ExecAll(l, steps[..i]), steps[i])
  }

  /** Within the first n steps a tail was revoked, and none has been begun since. */
  ghost predicate Orphaned(l: Link, steps: seq<Step>, n: nat)
  {
    exists i :: 0 <= i < n && RevokedAt(l, steps, i) && forall j :: i < j < n ==> !BegunAt(l, steps, j)
  }

  /** Within the first n steps a tail was begun after one that was revoked. */
  ghost predicate Replaced(l: Link, steps: seq<Step>, n: nat)
  {
    exists i, j :: 0 <= i < j < n && RevokedAt(l, steps, i) && BegunAt(l, steps, j)
  }

  ghost function Revocations(l: Link, steps: seq<Step>, n: nat): nat
  {
    if n == 0 then 0 else Revocations(l, steps, n - 1) + if RevokedAt(l, steps, n - 1) then 1 else 0
  }

  /** A connection that holds no pages yet. */
  ghost predicate Clean(r: Reader)
  {
    Shape(r) && !r.state.Failed? && !r.reading && !r.encHeld
  }

  lemma OrphanedMore(l: Link, steps: seq<Step>, n: nat)
    requires !(RevokedAt(l, steps, n) && BegunAt(l, steps, n))
    ensures Orphaned(l, steps, n + 1) <==> RevokedAt(l, steps, n) || (Orphaned(l, steps, n) && !BegunAt(l, steps, n))
  {
    hide RevokedAt, BegunAt;
    if Orphaned(l, steps, n) && !BegunAt(l, steps, n) {
      var i :| 0 <= i < n && RevokedAt(l, steps, i) && forall j :: i < j < n ==> !BegunAt(l, steps, j);
      assert forall j :: i < j < n + 1 ==> !BegunAt(l, steps, j);
    }
  }

  lemma ReplacedMore(l: Link, steps: seq<Step>, n: nat)
    ensures Replaced(l, steps, n + 1) <==> Replaced(l, steps, n) || (Orphaned(l, steps, n) && BegunAt(l, steps, n))
  {
    hide RevokedAt, BegunAt;
    if Replaced(l, steps, n + 1) && !Replaced(l, steps, n) {
      var i, j :| 0 <= i < j < n + 1 && RevokedAt(l, steps, i) && BegunAt(l, steps, j);
      assert j == n;
      assert forall k :: i < k < n ==> !BegunAt(l, steps, k);
    }
  }

  lemma RunStep(l: Link, steps: seq<Step>, n: nat)
    requires n < |steps|
    ensures ExecAll(l, steps[..n + 1]) == Exec(ExecAll(l, steps[..n]), steps[n])
  {
    hide Exec;
    assert steps[..n + 1] == steps[..n] + [steps[n]];
    ExecAppend(l, steps[..n], steps[n]);
  }

  /** What one step of a run makes of the pages. */
  lemma PagesAt(l: Link, steps: seq<Step>, n: nat)
    requires n < |steps| && PagesOk(ExecAll(l, steps[..n]).r, Orphaned(l, steps, n))
    ensures PagesOk(ExecAll(l, steps[..n + 1]).r, Orphaned(l, steps, n + 1)) && !(RevokedAt(l, steps, n) && Orphaned(l, steps, n))
    ensures Orphaned(l, steps, n + 1) <==> RevokedAt(l, steps, n) || (Orphaned(l, steps, n) && !BegunAt(l, steps, n))
    ensures ExecAll(l, steps[..n + 1]).r.leaks
            == ExecAll(l, steps[..n]).r.leaks + if BegunAt(l, steps, n) && Orphaned(l, steps, n) then 1 else 0
  {
    RunStep(l, steps, n);
    NoneLostTwice(l, steps, n);
    hide PagesOk, Exec, ExecAll, Begins, Revokes, Orphaned;
    ExecPages(ExecAll(l, steps[..n]), steps[n], Orphaned(l, steps, n));
    OrphanedMore(l, steps, n);
  }

  /**
   At every point of every run, on any bytes: the vectors lost so far are as many as the
   revocations inside an encrypted tail, less the last one if no tail has been begun since;
   each step loses one exactly if it begins a tail while a revoked one is not replaced yet.
   */
  lemma {:induction false} PagesCounted(l: Link, steps: seq<Step>, n: nat)
    requires Clean(l.r) && n <= |steps|
    ensures
      var r := ExecAll(l, steps[..n]).r;
      && PagesOk(r, Orphaned(l, steps, n))
      && r.leaks + (if Orphaned(l, steps, n) then 1 else 0) == l.r.leaks + Revocations(l, steps, n)
    ensures n < |steps| ==>
              ExecAll(l, steps[..n + 1]).r.leaks
              == ExecAll(l, steps[..n]).r.leaks + if BegunAt(l, steps, n) && Orphaned(l, steps, n) then 1 else 0
  {
    if n == 0 {
      assert steps[..0] == [];
    } else {
      PagesCounted(l, steps, n - 1);
      hide PagesOk, ExecAll, BegunAt, RevokedAt, Orphaned, Clean;
      PagesAt(l, steps, n - 1);
    }
    hide PagesOk, ExecAll, BegunAt, RevokedAt, Orphaned, Clean;
    if n < |steps| { PagesAt(l, steps, n); }
  }

  lemma NoneLostTwice(l: Link, steps: seq<Step>, n: nat)
    requires n < |steps| && PagesOk(ExecAll(l, steps[..n]).r, Orphaned(l, steps, n))
    ensures !(Orphaned(l, steps, n) && RevokedAt(l, steps, n))
  {
    hide Orphaned, Shape;
  }

  /** No pages are lost, exactly in the runs where no tail is begun after one that was revoked. */
  lemma {:induction false} NothingLostExactly(l: Link, steps: seq<Step>, n: nat)
    requires Clean(l.r) && n <= |steps|
    ensures ExecAll(l, steps[..n]).r.leaks >= l.r.leaks
    ensures ExecAll(l, steps[..n]).r.leaks == l.r.leaks <==> !Replaced(l, steps, n)
  {
    if n == 0 {
      assert steps[..0] == [];
    } else {
      NothingLostExactly(l, steps, n - 1);
      PagesCounted(l, steps, n - 1);
      hide Clean, PagesOk, BegunAt, RevokedAt, Orphaned, Replaced;
      ReplacedMore(l, steps, n - 1);
    }
  }

  /** In plain mode, and without a revocation, no pages are lost. */
  lemma NoneWithoutRevoking(l: Link, steps: seq<Step>)
    requires Clean(l.r) && (!l.r.secure || forall i :: 0 <= i < |steps| ==> !steps[i].RevokeIncoming?)
    ensures ExecAll(l, steps).r.leaks == l.r.leaks
  {
    assert steps[..|steps|] == steps;
    NothingLostExactly(l, steps, |steps|);
    forall i: nat | i < |steps|
      ensures !RevokedAt(l, steps, i)
    {
      SameMode(l, steps, i);
    }
    hide RevokedAt, BegunAt, Clean;
  }

  lemma {:induction false} SameMode(l: Link, steps: seq<Step>, n: nat)
    requires Clean(l.r) && n <= |steps|
    ensures ExecAll(l, steps[..n]).r.secure == l.r.secure
  {
    if n > 0 {
      SameMode(l, steps, n - 1);
      RunStep(l, steps, n - 1);
      PagesCounted(l, steps, n - 1);
      hide Orphaned, Exec;
      ExecMode(ExecAll(l, steps[..n - 1]), steps[n - 1], Orphaned(l, steps, n - 1));
    } else {
      assert steps[..0] == [];
    }
  }

  lemma ExecMode(l: Link, s: Step, orphaned: bool)
    requires PagesOk(l.r, orphaned)
    ensures Exec(l, s).r.secure == l.r.secure
  {
    hide Populate, Shape;
    if s.Process? && Shape(l.r) && l.r.want == 0 { PopulatePages(l.r, s.env); }
  }

  // ------------------------------------------------------- a run that loses pages

  /** Steps one after another. */
  lemma {:induction false} ExecConcat(l: Link, a: seq<Step>, b: seq<Step>)
    ensures ExecAll(l, a + b) == ExecAll(ExecAll(l, a), b)
    decreases |a|
  {
    hide Exec;
    if a == [] {
      assert [] + b == b;
    } else {
      assert (a + b)[0] == a[0] && (a + b)[1..] == a[1..] + b;
      ExecConcat(Exec(l, a[0]), a[1..], b);
    }
  }

  /** Handling what has arrived of a frame with a tail, before the tail: the frame goes on. */
  lemma BeforeTail(r: Reader, n0: nat, f: Frame, rest: seq<bv8>)
    requires InFrame(r, n0, f, rest) && r.want == 0 && f.HasTail() && !r.reading && r.state != FinishSkip && Ahead(f, r.inSeq) == 1
    ensures Shape(r) && GoesOn(r, Populate(r, Env(true, 0)), n0, f, rest) && Populate(r, Env(true, 0)).state != FinishSkip
  {
    Arrived(r, n0, f, rest);
    TailThere(r, n0, f);
    NoSkip(r, f);
    hide InFrame, After, Populate, Skips;
    PopulateIn(r, n0, f, Env(true, 0), rest);
  }

  lemma NoSkip(r: Reader, f: Frame)
    requires r.state != FinishSkip && Ahead(f, r.inSeq) == 1
    ensures !Skips(r, f, Env(true, 0))
  {
  }

  lemma TailThere(r: Reader, n0: nat, f: Frame)
    requires Fields(r, n0, f) && WithinBounds(f.Describe().lens) && f.HasTail() && r.aead.Lawful() && !r.reading && r.state != FinishSkip
    ensures After(r, n0, f) != []
  {
    TailLength(r.secure, r.aead, n0, f);
    hide Tail, Crc, Le32, PaddedLen, SecureRemainder;
  }

  /** Reads on until the tail of the frame is begun. */
  lemma {:induction false} ApproachTail(l: Link, n0: nat, todo: seq<Frame>, rest: seq<bv8>, orphaned: bool) returns (steps: seq<Step>, rest': seq<bv8>)
    requires On(l, n0, todo, rest) && todo != [] && todo[0].HasTail() && l.r.secure && l.r.state != FinishSkip
    requires PagesOk(l.r, orphaned) && !l.r.reading
    ensures
      var l' := ExecAll(l, steps);
      && On(l', n0, todo, rest') && l'.r.reading && l'.r.want > 0 && PagesOk(l'.r, false) && l'.r.secure
      && l'.r.leaks == l.r.leaks + if orphaned then 1 else 0
    decreases |l.stream|, if l.r.want == 0 then 1 else 0
  {
    var l1, s, rest1 := ApproachStep(l, n0, todo, rest);
    ExecPages(l, s, orphaned);
    ExecMode(l, s, orphaned);
    hide On, PagesOk, Exec;
    if l1.r.reading {
      steps, rest' := [s], rest1;
      assert ExecAll(l, [s]) == l1 by { assert [s][1..] == []; }
    } else {
      var more;
      more, rest' := ApproachTail(l1, n0, todo, rest1, orphaned);
      steps := [s] + more;
      assert steps[1..] == more;
    }
  }

  lemma ApproachStep(l: Link, n0: nat, todo: seq<Frame>, rest: seq<bv8>) returns (l1: Link, s: Step, rest1: seq<bv8>)
    requires On(l, n0, todo, rest) && todo != [] && todo[0].HasTail() && l.r.state != FinishSkip && !l.r.reading
    ensures l1 == Exec(l, s) && On(l1, n0, todo, rest1) && l1.r.state != FinishSkip && !s.RevokeIncoming?
    ensures l1.r.reading ==> l1.r.want > 0
    ensures |l1.stream| < |l.stream| || (|l1.stream| == |l.stream| && l.r.want == 0 && l1.r.want > 0)
  {
    s := NextStep(l.r);
    l1 := Exec(l, s);
    NotStuck(l, n0, todo, rest);
    hide InFrame, Populate, Shape, Consecutive, EncodeAll;
    if l.r.want == 0 {
      ConsecutiveAhead(todo, l.r.inSeq);
      BeforeTail(l.r, n0, todo[0], rest);
      rest1 := rest;
    } else {
      rest1 := DeliverOn(l, n0, todo, rest, l.r.want);
    }
  }

  /** Goes through a skip to the next frame. */
  lemma {:induction false} SkipOut(l: Link, n0: nat, todo: seq<Frame>, rest: seq<bv8>) returns (steps: seq<Step>, n1: nat, rest': seq<bv8>)
    requires On(l, n0, todo, rest) && todo != [] && l.r.secure && l.r.state == FinishSkip && PagesOk(l.r, true)
    ensures
      var l' := ExecAll(l, steps);
      && On(l', n1, todo[1..], rest') && l'.r.state == HandlePreamble && l'.r.secure
      && PagesOk(l'.r, true) && l'.r.leaks == l.r.leaks
    decreases |l.stream|, if l.r.want == 0 then 1 else 0
  {
    var l1, s, ended, m, rest1 := SkipStep(l, n0, todo, rest);
    ExecPages(l, s, true);
    ExecMode(l, s, true);
    assert !l.r.reading && !l1.r.reading by { hide On, Exec; }
    hide On, PagesOk, Exec;
    if ended {
      steps, n1, rest' := [s], m, rest1;
      assert ExecAll(l, [s]) == l1 by { assert [s][1..] == []; }
    } else {
      var more;
      more, n1, rest' := SkipOut(l1, n0, todo, rest1);
      steps := [s] + more;
      assert steps[1..] == more;
    }
  }

  lemma SkipStep(l: Link, n0: nat, todo: seq<Frame>, rest: seq<bv8>) returns (l1: Link, s: Step, ended: bool, n1: nat, rest1: seq<bv8>)
    requires On(l, n0, todo, rest) && todo != [] && l.r.state == FinishSkip
    ensures l1 == Exec(l, s) && !s.RevokeIncoming? && Shape(l1.r) && !l1.r.state.Failed?
    ensures if ended then On(l1, n1, todo[1..], rest1) && l1.r.state == HandlePreamble
            else On(l1, n0, todo, rest1) && l1.r.state == FinishSkip
    ensures |l1.stream| < |l.stream| || (|l1.stream| == |l.stream| && l.r.want == 0 && l1.r.want > 0)
  {
    s, n1 := NextStep(l.r), n0;
    l1 := Exec(l, s);
    ended := l1.r.state != FinishSkip;
    NotStuck(l, n0, todo, rest);
    hide InFrame, Populate, Shape, Consecutive, EncodeAll, Boundary;
    if l.r.want == 0 {
      rest1 := rest;
      SkipHandled(l.r, n0, todo[0], rest);
      if ended {
        n1 := AfterFrame(l.r.secure, n0, todo[0]);
        ConsecutiveAhead(todo, l.r.inSeq);
        assert l1.stream == EncodeAll(l1.r.secure, l1.r.aead, n1, todo[1..]);
        rest1 := OnNext(l1.r, n1, todo[1..]);
      }
    } else {
      rest1 := DeliverOn(l, n0, todo, rest, l.r.want);
    }
  }

  /** Handling what has arrived of a skip: it goes on, or the frame has ended. */
  lemma SkipHandled(r: Reader, n0: nat, f: Frame, rest: seq<bv8>)
    requires InFrame(r, n0, f, rest) && r.want == 0 && r.state == FinishSkip
    ensures Shape(r) && f.Message?
    ensures
      var r' := Populate(r, Env(true, 0));
      if r'.state == FinishSkip then GoesOn(r, r', n0, f, rest) && Shape(r')
      else Ends(r, r', n0, f, Skipped, rest) && r'.state == HandlePreamble && Shape(r')
  {
    SkipIn(r, n0, f, Env(true, 0), rest);
    hide Chunk, After, Tail, Populate, PaddedLen, Crc;
  }

  lemma OrphanedIsOut(r: Reader)
    requires PagesOk(r, true)
    ensures !r.reading
  {
  }

  lemma CleanStart(r: Reader)
    requires Boundary(r, r.nonce) && !r.encHeld
    ensures Clean(r) && PagesOk(r, false)
  {
  }

  lemma RevokeStep(l: Link, n0: nat, todo: seq<Frame>, rest: seq<bv8>)
    requires On(l, n0, todo, rest) && l.r.reading && l.r.want > 0 && l.r.secure && PagesOk(l.r, false)
    ensures
      var l' := Exec(l, RevokeIncoming);
      && On(l', n0, todo, rest) && l'.r.state == FinishSkip && l'.r.secure && PagesOk(l'.r, true) && l'.r.leaks == l.r.leaks
  {
    ExecPages(l, RevokeIncoming, false);
    ExecMode(l, RevokeIncoming, false);
    assert Exec(l, RevokeIncoming).r.state == FinishSkip;
    hide PagesOk, InFrame, Revoke;
    RevokeOn(l, n0, todo, rest);
  }

  /**
   There is a run that reads on to the first of two tails, revokes it, and reads on to the
   second, for any two messages: the pages of the first are lost.
   */
  lemma RevokedTailIsLost(r: Reader, f: Frame, g: Frame) returns (steps: seq<Step>)
    requires Boundary(r, r.nonce) && r.secure && !r.encHeld
    requires f.Valid() && g.Valid() && f.HasTail() && g.HasTail() && Consecutive([f, g], r.inSeq)
    ensures
      var l := ExecAll(Link(r, EncodeAll(true, r.aead, r.nonce, [f, g])), steps);
      l.r.leaks == r.leaks + 1 && l.r.reading && !l.r.state.Failed?
  {
    var frames := [f, g];
    var l := Link(r, EncodeAll(true, r.aead, r.nonce, frames));
    CleanStart(r);
    BoundaryState(r, r.nonce);
    hide On, Boundary, Consecutive, EncodeAll, PagesOk, Exec;
    var rest := OnNext(r, r.nonce, frames);
    var a, rest1 := ApproachTail(l, r.nonce, frames, rest, false);
    var l1 := ExecAll(l, a);
    RevokeStep(l1, r.nonce, frames, rest1);
    var l2 := Exec(l1, RevokeIncoming);
    var b, n2, rest2 := SkipOut(l2, r.nonce, frames, rest1);
    var l3 := ExecAll(l2, b);
    assert frames[1..] == [g];
    assert PagesOk(l3.r, true);
    OrphanedIsOut(l3.r);
    var c, rest3 := ApproachTail(l3, n2, [g], rest2, true);
    OnFacts(ExecAll(l3, c), n2, [g], rest3);
    steps := a + [RevokeIncoming] + b + c;
    ExecConcat(l, a + [RevokeIncoming] + b, c);
    ExecConcat(l, a + [RevokeIncoming], b);
    ExecAppend(l, a, RevokeIncoming);
  }

  /** Sealing adds a tag of zeros, opening drops it. */
  const TAG_ONLY := Aead((n: nat, p: seq<bv8>) => p + seq(GCM_TAG_LEN, _ => 0),
                         (n: nat, c: seq<bv8>) => if |c| < GCM_TAG_LEN then None else Some(c[..|c| - GCM_TAG_LEN]))

  lemma TagOnlyLawful()
    ensures TAG_ONLY.Lawful()
  {
    forall n: nat, p: seq<bv8>
      ensures |TAG_ONLY.seal(n, p)| == |p| + GCM_TAG_LEN && TAG_ONLY.open(n, TAG_ONLY.seal(n, p)) == Some(p)
    {
      assert TAG_ONLY.seal(n, p)[..|p|] == p;
    }
  }

  /** A message with one byte of front. */
  function Numbered(n: bv8): Frame
  {
    Message([n] + seq(HEADER2_LEN - 1, _ => 0), [1], [], [])
  }

  lemma {:induction false} FromLeZeros(n: nat)
    ensures FromLe(seq(n, _ => 0)) == 0
  {
    if n > 0 {
      assert seq(n, _ => 0)[1..] == seq(n - 1, _ => 0 as bv8);
      FromLeZeros(n - 1);
    }
  }

  lemma NumberedSeq(n: bv8)
    ensures SeqOf(Numbered(n).header) == n as nat && Numbered(n).Valid() && Numbered(n).HasTail()
  {
    var s := Numbered(n).header[..8];
    assert s[1..] == seq(7, _ => 0 as bv8);
    FromLeZeros(7);
  }

  /** The reader of a connection that has just become secure. */
  const START := Reader(true, TAG_ONLY, 0, 0, HandlePreamble, PREAMBLE_SECURE_LEN, [], Desc(0, [0, 0, 0, 0]), [], false,
                        [], [], [], 0, [], 0, false, 0, 0, [])

  lemma StartIsBoundary()
    ensures Boundary(START, 0)
  {
    TagOnlyLawful();
  }

  lemma TwoNumbered()
    ensures AllValid([Numbered(1), Numbered(2)]) && Consecutive([Numbered(1), Numbered(2)], 0)
  {
    NumberedSeq(1);
    NumberedSeq(2);
    hide SeqOf, Numbered;
    assert [Numbered(1), Numbered(2)][1..] == [Numbered(2)] && [Numbered(2)][1..] == [];
  }

  /** A run of a secure connection from its start that loses the pages of a tail. */
  lemma PagesCanBeLost() returns (steps: seq<Step>)
    ensures AllValid([Numbered(1), Numbered(2)]) && START.leaks == 0
    ensures ExecAll(Link(START, EncodeAll(true, TAG_ONLY, 0, [Numbered(1), Numbered(2)])), steps).r.leaks == 1
  {
    StartIsBoundary();
    TwoNumbered();
    NumberedSeq(1);
    NumberedSeq(2);
    hide SeqOf, Numbered, Boundary, Consecutive, EncodeAll, ExecAll;
    steps := RevokedTailIsLost(START, Numbered(1), Numbered(2));
  }
}
