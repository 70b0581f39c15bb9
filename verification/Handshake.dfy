/**
 The msgr2 connection state machine: banner, hello, authentication and the two ways of
 starting a session, with callers opening and closing the connection at any time the mutex
 is free, also in the middle of a step that has dropped it.
 */
module Handshake {

  datatype State =
    | Closed | PreOpen | BannerPrefix | BannerPayload | Hello | Auth | AuthSignature
    | SessionConnect | SessionReconnect | Open | Standby

  datatype Milestone = GotBanner | GotHello | GotAuth | GotSignature

  /** The step, if any, that has dropped the mutex for a callback. */
  datatype Dropped = Nothing | InHello | InAuthMore | InAuthDone | InReset

  /** A frame that starts a session, with the session fields it was built from. */
  datatype Frame =
    | ClientIdent(serverCookie: nat, connectSeq: nat, peerGlobalSeq: nat)
    | Reconnect(clientCookie: nat, serverCookie: nat, connectSeq: nat, peerGlobalSeq: nat)

  const U64 := 0x1_0000_0000_0000_0000

  /**
   A connection: passed holds what has happened since it was last about to open; closed is
   set while the last call was ceph_con_close, or there was none yet; failed is set from an
   error to the fault handling that follows it under the same mutex; built lists the frames.
   */
  datatype Con = Con(
    state: State, clientCookie: nat, serverCookie: nat, connectSeq: nat, peerGlobalSeq: nat, globalSeq: nat,
    lossy: bool, dropped: Dropped, closed: bool, failed: bool, passed: set<Milestone>, built: seq<Frame>)

  datatype Event =
    // callers
    | OpenCall
    | CloseCall
    | SendCall
    // the worker
    | Connect(globalSeq: nat)
    | GotPrefix
    | GotPayload(featuresFit: bool)
    | HelloFrame(rightPeer: bool)
    | HelloBack(ok: bool)
    | AuthMoreFrame
    | AuthMoreBack(ok: bool)
    | AuthDoneFrame
    | AuthDoneBack(ok: bool)
    | SignatureFrame(matches: bool, cookie: nat, memory: bool)
    | ServerIdentFrame(rightPeer: bool, globalSeq: nat, lossy: bool, cookie: nat)
    | ReconnectOkFrame
    | RetryFrame(connectSeq: nat, memory: bool)
    | RetryGlobalFrame(globalSeq: nat, memory: bool)
    | ResetFrame(full: bool)
    | ResetBack(cookie: nat, memory: bool)
    | Fault(idle: bool)

  /** A step that returns an error. */
  function Failing(c: Con): Con
  {
    c.(failed := true)
  }

  /** ceph_con_v2_reset_session */
  function ResetSession(c: Con): Con
  {
    c.(clientCookie := 0, serverCookie := 0, globalSeq := 0, connectSeq := 0, peerGlobalSeq := 0)
  }

  /** ceph_con_init */
  function Init(): Con
  {
    Con(Closed, 0, 0, 0, 0, 0, false, Nothing, true, false, {}, [])
  }

  /** ceph_con_open */
  function DoOpen(c: Con): Con
  {
    c.(state := PreOpen, closed := false, passed := {})
  }

  /** ceph_con_close */
  function DoClose(c: Con): Con
  {
    ResetSession(c.(state := Closed, lossy := false, closed := true))
  }

  /** clear_standby, in ceph_con_send and ceph_con_keepalive */
  function Wake(c: Con): Con
  {
    if c.state == Standby then c.(state := PreOpen, passed := {}) else c
  }

  /** The start of ceph_con_v2_try_write */
  function StartConnect(c: Con, globalSeq: nat): Con
  {
    c.(globalSeq := globalSeq, connectSeq := if c.serverCookie != 0 then (c.connectSeq + 1) % U64 else c.connectSeq,
       state := BannerPrefix)
  }

  /** prepare_client_ident; cookie is random, and drawn again while it is zero. */
  function BuildIdent(c: Con, cookie: nat, memory: bool): Con
  {
    var c' := c.(clientCookie := if c.clientCookie == 0 then cookie else c.clientCookie,
                 built := c.built + [ClientIdent(c.serverCookie, c.connectSeq, c.peerGlobalSeq)]);
    if memory then c'.(state := SessionConnect) else Failing(c')
  }

  /** prepare_session_reconnect */
  function BuildReconnect(c: Con, memory: bool): Con
  {
    var c' := c.(built := c.built + [Reconnect(c.clientCookie, c.serverCookie, c.connectSeq, c.peerGlobalSeq)]);
    if memory then c'.(state := SessionReconnect) else Failing(c')
  }

  /** process_auth_signature */
  function Signed(c: Con, matches: bool, cookie: nat, memory: bool): Con
  {
    if !matches then Failing(c) else
    var c' := c.(passed := c.passed + {GotSignature});
    if c.serverCookie == 0 then BuildIdent(c', cookie, memory) else BuildReconnect(c', memory)
  }

  /** process_server_ident */
  function Identified(c: Con, globalSeq: nat, lossy: bool, cookie: nat): Con
  {
    c.(peerGlobalSeq := globalSeq, serverCookie := cookie, lossy := c.lossy || lossy, state := Open)
  }

  /** con_fault: a lossy connection is closed, an idle one waits, any other tries again. */
  function Faulted(c: Con, idle: bool): Con
  {
    var c' := c.(failed := false);
    if c.lossy then c'.(state := Closed)
    else if idle then c'.(state := Standby)
    else c'.(state := PreOpen, passed := {})
  }

  /** Whether a step of the worker can take place. */
  predicate Enabled(c: Con, e: Event)
  {
    (c.failed ==> e.Fault?) &&
    match e
    case OpenCall => true
    case CloseCall => true
    case SendCall => true
    case Connect(_) => c.dropped == Nothing && c.state == PreOpen
    case GotPrefix => c.dropped == Nothing && c.state == BannerPrefix
    case GotPayload(_) => c.dropped == Nothing && c.state == BannerPayload
    case HelloFrame(_) => c.dropped == Nothing && c.state == Hello
    case HelloBack(_) => c.dropped == InHello
    case AuthMoreFrame => c.dropped == Nothing && c.state == Auth
    case AuthMoreBack(_) => c.dropped == InAuthMore
    case AuthDoneFrame => c.dropped == Nothing && c.state == Auth
    case AuthDoneBack(_) => c.dropped == InAuthDone
    case SignatureFrame(_, cookie, _) => c.dropped == Nothing && c.state == AuthSignature && cookie != 0
    case ServerIdentFrame(_, _, _, _) => c.dropped == Nothing && c.state == SessionConnect
    case ReconnectOkFrame => c.dropped == Nothing && c.state == SessionReconnect
    case RetryFrame(_, _) => c.dropped == Nothing && c.state == SessionReconnect
    case RetryGlobalFrame(_, _) => c.dropped == Nothing && c.state == SessionReconnect
    case ResetFrame(_) => c.dropped == Nothing && c.state == SessionReconnect
    case ResetBack(cookie, _) => c.dropped == InReset && cookie != 0
    case Fault(_) => c.dropped == Nothing && c.state != Standby && c.state != Closed
  }

  /** A step; one that is not enabled changes nothing. */
  function Next(c: Con, e: Event): Con
  {
    if !Enabled(c, e) then c else
    match e
    case OpenCall => DoOpen(c)
    case CloseCall => DoClose(c)
    case SendCall => Wake(c)
    case Connect(globalSeq) => StartConnect(c, globalSeq)
    case GotPrefix => c.(state := BannerPayload)
    case GotPayload(fit) => if fit then c.(state := Hello, passed := c.passed + {GotBanner}) else Failing(c)
    case HelloFrame(right) => if right then c.(dropped := InHello) else Failing(c)
    case HelloBack(ok) =>
      var c' := c.(dropped := Nothing);
      if c.state != Hello then c' else if !ok then Failing(c') else c'.(state := Auth, passed := c.passed + {GotHello})
    case AuthMoreFrame => c.(dropped := InAuthMore)
    case AuthMoreBack(ok) =>
      var c' := c.(dropped := Nothing);
      if c.state == Auth && !ok then Failing(c') else c'
    case AuthDoneFrame => c.(dropped := InAuthDone)
    case AuthDoneBack(ok) =>
      var c' := c.(dropped := Nothing);
      if c.state != Auth then c' else if !ok then Failing(c') else c'.(state := AuthSignature, passed := c.passed + {GotAuth})
    case SignatureFrame(matches, cookie, memory) => Signed(c, matches, cookie, memory)
    case ServerIdentFrame(right, globalSeq, lossy, cookie) => if right then Identified(c, globalSeq, lossy, cookie) else Failing(c)
    case ReconnectOkFrame => c.(state := Open)
    case RetryFrame(connectSeq, memory) => BuildReconnect(c.(connectSeq := (connectSeq + 1) % U64), memory)
    case RetryGlobalFrame(globalSeq, memory) => BuildReconnect(c.(globalSeq := globalSeq), memory)
    case ResetFrame(full) => if full then ResetSession(c).(dropped := InReset) else Failing(c)
    case ResetBack(cookie, memory) =>
      var c' := c.(dropped := Nothing);
      if c.state != SessionReconnect then c' else BuildIdent(c', cookie, memory)
    case Fault(idle) => Faulted(c, idle)
  }

  function Run(c: Con, es: seq<Event>): Con
    decreases |es|
  {
    if es == [] then c else Run(Next(c, es[0]), es[1..])
  }

  // ----------------------------------------------------------------- open is earned

  /** What must have happened since the connection was last about to open. */
  predicate Earned(c: Con)
  {
    && (c.state in {Hello, Auth, AuthSignature, SessionConnect, SessionReconnect, Open} ==> GotBanner in c.passed)
    && (c.state in {Auth, AuthSignature, SessionConnect, SessionReconnect, Open} ==> GotHello in c.passed)
    && (c.state in {AuthSignature, SessionConnect, SessionReconnect, Open} ==> GotAuth in c.passed)
    && (c.state in {SessionConnect, SessionReconnect, Open} ==> GotSignature in c.passed)
  }

  lemma NextEarned(c: Con, e: Event)
    requires Earned(c)
    ensures Earned(Next(c, e))
  {
  }

  /** Whatever callers and peers do, a connection that is open has passed every stage since it last started. */
  lemma {:induction false} OpenIsEarned(c: Con, es: seq<Event>)
    requires Earned(c)
    ensures Earned(Run(c, es))
    ensures Run(c, es).state == Open ==> {GotBanner, GotHello, GotAuth, GotSignature} <= Run(c, es).passed
    decreases |es|
  {
    if es != [] {
      NextEarned(c, es[0]);
      hide Next, Earned;
      OpenIsEarned(Next(c, es[0]), es[1..]);
    }
  }

  // ------------------------------------------------------------- session fields

  predicate NoSession(c: Con)
  {
    c.serverCookie == 0 && c.connectSeq == 0 && c.peerGlobalSeq == 0
  }

  /** A session to come back to. */
  predicate HasSession(c: Con)
  {
    c.clientCookie != 0 && c.serverCookie != 0 && c.peerGlobalSeq != 0
  }

  /** Where the session fields stand in each state. */
  predicate Coherent(c: Con)
  {
    && (c.closed ==> c.state == Closed && NoSession(c) && !c.lossy)
    && (c.failed ==> c.dropped == Nothing && !c.lossy && c.state != Closed && c.state != Standby && (NoSession(c) || HasSession(c)))
    && (!c.failed ==> match c.state
       case Closed => c.closed || c.lossy
       case PreOpen => !c.lossy && (NoSession(c) || HasSession(c))
       case Standby => !c.lossy && (NoSession(c) || HasSession(c))
       case SessionConnect => !c.lossy && NoSession(c) && c.clientCookie != 0
       case SessionReconnect =>
         !c.lossy && if c.dropped == InReset then NoSession(c) else HasSession(c) && c.connectSeq != 0
       case Open => if c.lossy then c.serverCookie == 0 else HasSession(c)
       case _ => !c.lossy && (NoSession(c) || (HasSession(c) && c.connectSeq != 0)))
  }

  predicate GoodFrame(f: Frame)
  {
    match f
    case ClientIdent(server, connectSeq, peer) => server == 0 && connectSeq == 0 && peer == 0
    case Reconnect(client, server, connectSeq, peer) => client != 0 && server != 0 && connectSeq != 0 && peer != 0
  }

  predicate AllGood(c: Con)
  {
    forall i :: 0 <= i < |c.built| ==> GoodFrame(c.built[i])
  }

  /**
   Callers do not open a connection that is lossy, which closing it ends; the peer sends a global_seq that is not zero, and a cookie
   that is not zero exactly on a lossless session; connect_seq does not wrap around.
   */
  predicate Proper(c: Con, e: Event)
  {
    match e
    case OpenCall => !c.lossy
    case ServerIdentFrame(_, globalSeq, lossy, cookie) => globalSeq != 0 && (cookie != 0 <==> !lossy)
    case RetryFrame(connectSeq, _) => connectSeq < U64 - 1
    case Connect(_) => c.connectSeq < U64 - 1
    case _ => true
  }

  predicate ProperRun(c: Con, es: seq<Event>)
    decreases |es|
  {
    es == [] || (Proper(c, es[0]) && ProperRun(Next(c, es[0]), es[1..]))
  }

  lemma NextCoherent(c: Con, e: Event)
    requires Coherent(c) && Proper(c, e)
    ensures Coherent(Next(c, e))
  {
  }

  lemma NextBuilds(c: Con, e: Event)
    requires Coherent(c) && Proper(c, e) && AllGood(c)
    ensures AllGood(Next(c, e))
  {
  }

  /** Frames that start a session are only ever built from the fields they are meant for. */
  lemma {:induction false} SessionFramesAreRight(c: Con, es: seq<Event>)
    requires Coherent(c) && AllGood(c) && ProperRun(c, es)
    ensures Coherent(Run(c, es)) && AllGood(Run(c, es))
    decreases |es|
  {
    if es != [] {
      NextCoherent(c, es[0]);
      NextBuilds(c, es[0]);
      hide Next, Coherent, AllGood;
      SessionFramesAreRight(Next(c, es[0]), es[1..]);
    }
  }

  // ------------------------------------------------------- the conditions are exact

  /** A retry is answered with a good frame exactly when the number it asks for does not wrap to zero. */
  lemma RetryExactly(c: Con, connectSeq: nat, memory: bool)
    requires Coherent(c) && AllGood(c) && Enabled(c, RetryFrame(connectSeq, memory)) && connectSeq < U64
    ensures AllGood(Next(c, RetryFrame(connectSeq, memory))) <==> connectSeq != U64 - 1
  {
    var c' := Next(c, RetryFrame(connectSeq, memory));
    assert c'.built[|c.built|] == Reconnect(c.clientCookie, c.serverCookie, (connectSeq + 1) % U64, c.peerGlobalSeq);
    assert forall i :: 0 <= i < |c.built| ==> c'.built[i] == c.built[i];
  }

  /** Coming back to a session is coherent exactly when connect_seq does not wrap. */
  lemma ConnectExactly(c: Con, globalSeq: nat)
    requires Coherent(c) && Enabled(c, Connect(globalSeq)) && c.connectSeq < U64
    ensures Coherent(Next(c, Connect(globalSeq))) <==> NoSession(c) || c.connectSeq != U64 - 1
  {
  }

  /** A connection may be opened exactly if it is not lossy, as after closing it or before any session. */
  lemma OpenExactly(c: Con)
    requires Coherent(c) && Enabled(c, OpenCall)
    ensures Coherent(Next(c, OpenCall)) <==> !c.lossy
  {
  }

  /** What a peer must send to identify itself. */
  lemma IdentExactly(c: Con, globalSeq: nat, lossy: bool, cookie: nat)
    requires Coherent(c) && Enabled(c, ServerIdentFrame(true, globalSeq, lossy, cookie))
    ensures Coherent(Next(c, ServerIdentFrame(true, globalSeq, lossy, cookie)))
            <==> if lossy then cookie == 0 else cookie != 0 && globalSeq != 0
  {
  }

  lemma RunOne(c: Con, e: Event, es: seq<Event>)
    ensures Run(c, [e] + es) == Run(Next(c, e), es)
  {
    assert ([e] + es)[1..] == es;
  }

  /** From about to open to a matching signature. */
  function Attempt(cookie: nat): seq<Event>
  {
    [Connect(1)] + ([GotPrefix] + ([GotPayload(true)] + ([HelloFrame(true)] + ([HelloBack(true)]
    + ([AuthDoneFrame] + ([AuthDoneBack(true)] + [SignatureFrame(true, cookie, true)]))))))
  }

  lemma AttemptRuns(c: Con, cookie: nat, es: seq<Event>)
    requires c.state == PreOpen && c.dropped == Nothing && !c.failed && c.serverCookie == 0 && cookie != 0
    ensures Run(c, Attempt(cookie) + es)
         == Run(BuildIdent(c.(globalSeq := 1, passed := c.passed + {GotBanner} + {GotHello} + {GotAuth} + {GotSignature}), cookie, true), es)
  {
    hide Run, Attempt, Rest, Next;
    AttemptSplit(cookie, es);
    BannerRuns(c, [HelloFrame(true)] + ([HelloBack(true)] + Rest(cookie, es)));
    var c3 := c.(globalSeq := 1, state := Hello, passed := c.passed + {GotBanner});
    HelloRuns(c3, Rest(cookie, es));
    AuthRuns(c3.(state := Auth, passed := c3.passed + {GotHello}), cookie, es);
  }

  lemma HelloRuns(c: Con, es: seq<Event>)
    requires c.state == Hello && c.dropped == Nothing && !c.failed
    ensures Run(c, [HelloFrame(true)] + ([HelloBack(true)] + es)) == Run(c.(state := Auth, passed := c.passed + {GotHello}), es)
  {
    hide Run;
    RunOne(c, HelloFrame(true), [HelloBack(true)] + es);
    RunOne(c.(dropped := InHello), HelloBack(true), es);
  }

  /** The events of an attempt after the hello exchange. */
  function Rest(cookie: nat, es: seq<Event>): seq<Event>
  {
    [AuthDoneFrame] + ([AuthDoneBack(true)] + ([SignatureFrame(true, cookie, true)] + es))
  }

  lemma AttemptSplit(cookie: nat, es: seq<Event>)
    ensures Attempt(cookie) + es
         == [Connect(1)] + ([GotPrefix] + ([GotPayload(true)] + ([HelloFrame(true)] + ([HelloBack(true)] + Rest(cookie, es)))))
  {
  }

  lemma BannerRuns(c: Con, es: seq<Event>)
    requires c.state == PreOpen && c.dropped == Nothing && !c.failed && c.serverCookie == 0
    ensures Run(c, [Connect(1)] + ([GotPrefix] + ([GotPayload(true)] + es)))
         == Run(c.(globalSeq := 1, state := Hello, passed := c.passed + {GotBanner}), es)
  {
    hide Run;
    RunOne(c, Connect(1), [GotPrefix] + ([GotPayload(true)] + es));
    var c1 := c.(globalSeq := 1, state := BannerPrefix);
    RunOne(c1, GotPrefix, [GotPayload(true)] + es);
    RunOne(c1.(state := BannerPayload), GotPayload(true), es);
  }

  lemma AuthRuns(c: Con, cookie: nat, es: seq<Event>)
    requires c.state == Auth && c.dropped == Nothing && !c.failed && c.serverCookie == 0 && cookie != 0
    ensures Run(c, Rest(cookie, es)) == Run(BuildIdent(c.(state := AuthSignature, passed := c.passed + {GotAuth} + {GotSignature}), cookie, true), es)
  {
    var sign := [SignatureFrame(true, cookie, true)] + es;
    assert Rest(cookie, es) == [AuthDoneFrame] + ([AuthDoneBack(true)] + sign);
    hide Run, Rest, Next;
    AuthDoneRuns(c, sign);
    SignatureRuns(c.(state := AuthSignature, passed := c.passed + {GotAuth}), cookie, es);
  }

  lemma AuthDoneRuns(c: Con, es: seq<Event>)
    requires c.state == Auth && c.dropped == Nothing && !c.failed
    ensures Run(c, [AuthDoneFrame] + ([AuthDoneBack(true)] + es)) == Run(c.(state := AuthSignature, passed := c.passed + {GotAuth}), es)
  {
    hide Run;
    RunOne(c, AuthDoneFrame, [AuthDoneBack(true)] + es);
    RunOne(c.(dropped := InAuthDone), AuthDoneBack(true), es);
  }

  lemma SignatureRuns(c: Con, cookie: nat, es: seq<Event>)
    requires c.state == AuthSignature && c.dropped == Nothing && !c.failed && c.serverCookie == 0 && cookie != 0
    ensures Run(c, [SignatureFrame(true, cookie, true)] + es) == Run(BuildIdent(c.(passed := c.passed + {GotSignature}), cookie, true), es)
  {
    hide Run;
    RunOne(c, SignatureFrame(true, cookie, true), es);
  }

  /** A lossy connection that faults and is opened again without being closed sends what is left of its session. */
  lemma ReopenWithoutClose(peer: nat)
    requires peer != 0
    ensures
      var es := [OpenCall] + (Attempt(7) + ([ServerIdentFrame(true, peer, true, 0)] + ([Fault(true)] + ([OpenCall] + (Attempt(7) + [])))));
      !AllGood(Run(Init(), es))
  {
    var t5 := Attempt(7) + [];
    var t4 := [OpenCall] + t5;
    var t3 := [Fault(true)] + t4;
    var t2 := [ServerIdentFrame(true, peer, true, 0)] + t3;
    var c0 := Init();
    RunOne(c0, OpenCall, Attempt(7) + t2);
    var c1 := DoOpen(c0);
    AttemptRuns(c1, 7, t2);
    var c2 := BuildIdent(c1.(globalSeq := 1, passed := c1.passed + {GotBanner} + {GotHello} + {GotAuth} + {GotSignature}), 7, true);
    RunOne(c2, ServerIdentFrame(true, peer, true, 0), t3);
    var c3 := Identified(c2, peer, true, 0);
    RunOne(c3, Fault(true), t4);
    var c4 := Faulted(c3, true);
    RunOne(c4, OpenCall, t5);
    var c5 := DoOpen(c4);
    AttemptRuns(c5, 7, []);
    hide Run;
    var c6 := BuildIdent(c5.(globalSeq := 1, passed := c5.passed + {GotBanner} + {GotHello} + {GotAuth} + {GotSignature}), 7, true);
    assert c6.built[1] == ClientIdent(0, 0, peer);
    RunNone(c6);
  }

  /**
   Opening a connection without a session cookie and authenticating builds the right frame
   exactly if nothing else of a session is left, which closing makes sure of.
   */
  lemma ReopenExactly(c: Con, cookie: nat)
    requires c.dropped == Nothing && !c.failed && c.serverCookie == 0 && AllGood(c) && cookie != 0
    ensures AllGood(Run(c, [OpenCall] + (Attempt(cookie) + []))) <==> NoSession(c)
    ensures NoSession(DoClose(c))
  {
    RunOne(c, OpenCall, Attempt(cookie) + []);
    AttemptRuns(DoOpen(c), cookie, []);
    hide Run;
    var c' := BuildIdent(DoOpen(c).(globalSeq := 1, passed := DoOpen(c).passed + {GotBanner} + {GotHello} + {GotAuth} + {GotSignature}), cookie, true);
    RunNone(c');
    assert c'.built[|c.built|] == ClientIdent(0, c.connectSeq, c.peerGlobalSeq);
    assert forall i :: 0 <= i < |c.built| ==> c'.built[i] == c.built[i];
  }

  lemma RunNone(c: Con)
    ensures Run(c, []) == c
  {
  }

  // -------------------------------------------------------------- the global counter

  const U32 := 0x1_0000_0000

  /** ceph_get_global_seq, called with a 64-bit number that is cut to 32 bits */
  function NextGlobalSeq(current: nat, gt: nat): nat
  {
    var cut := gt % U32;
    ((if current < cut then cut else current) + 1) % U32
  }

  /** The number is new, and above the one a peer asks to exceed, exactly while 32 bits are enough. */
  lemma GlobalSeqExactly(current: nat, gt: nat)
    requires current < U32 && gt < U64
    ensures NextGlobalSeq(current, gt) > current && NextGlobalSeq(current, gt) > gt <==> current < U32 - 1 && gt < U32 - 1
  {
  }

  // ---------------------------------------------------------------- the connection

  /** A connection as its fields, updated in place. */
  class Connection {
    var state: State
    var clientCookie: nat
    var serverCookie: nat
    var connectSeq: nat
    var peerGlobalSeq: nat
    var globalSeq: nat
    var lossy: bool
    var dropped: Dropped
    var closed: bool
    var failed: bool
    var passed: set<Milestone>
    var built: seq<Frame>

    ghost function View(): Con
      reads this
    {
      Con(state, clientCookie, serverCookie, connectSeq, peerGlobalSeq, globalSeq, lossy, dropped, closed, failed, passed, built)
    }

    /** ceph_con_init */
    constructor ()
      ensures View() == Init() && Coherent(View()) && AllGood(View()) && Earned(View())
    {
      state, clientCookie, serverCookie, connectSeq, peerGlobalSeq, globalSeq := Closed, 0, 0, 0, 0, 0;
      lossy, dropped, closed, failed, passed, built := false, Nothing, true, false, {}, [];
    }

    method ClearSession()
      modifies this
      ensures View() == ResetSession(old(View()))
    {
      clientCookie, serverCookie, globalSeq, connectSeq, peerGlobalSeq := 0, 0, 0, 0, 0;
    }

    method CloseCon()
      modifies this
      ensures View() == DoClose(old(View()))
    {
      state := Closed;
      lossy := false;
      closed := true;
      ClearSession();
    }

    method StartConnecting(seqNo: nat)
      modifies this
      ensures View() == StartConnect(old(View()), seqNo)
    {
      globalSeq := seqNo;
      if serverCookie != 0 {
        connectSeq := (connectSeq + 1) % U64;
      }
      state := BannerPrefix;
    }

    method PrepareClientIdent(cookie: nat, memory: bool)
      modifies this
      ensures View() == BuildIdent(old(View()), cookie, memory)
    {
      built := built + [ClientIdent(serverCookie, connectSeq, peerGlobalSeq)];
      if clientCookie == 0 {
        clientCookie := cookie;
      }
      if memory {
        state := SessionConnect;
      } else {
        failed := true;
      }
    }

    method PrepareSessionReconnect(memory: bool)
      modifies this
      ensures View() == BuildReconnect(old(View()), memory)
    {
      built := built + [Reconnect(clientCookie, serverCookie, connectSeq, peerGlobalSeq)];
      if memory {
        state := SessionReconnect;
      } else {
        failed := true;
      }
    }

    method ProcessAuthSignature(matches: bool, cookie: nat, memory: bool)
      modifies this
      ensures View() == Signed(old(View()), matches, cookie, memory)
    {
      if !matches {
        failed := true;
        return;
      }
      passed := passed + {GotSignature};
      if serverCookie == 0 {
        PrepareClientIdent(cookie, memory);
      } else {
        PrepareSessionReconnect(memory);
      }
    }

    method ProcessServerIdent(seqNo: nat, flag: bool, cookie: nat)
      modifies this
      ensures View() == Identified(old(View()), seqNo, flag, cookie)
    {
      peerGlobalSeq := seqNo;
      serverCookie := cookie;
      if flag {
        lossy := true;
      }
      state := Open;
    }

    method FaultCon(idle: bool)
      modifies this
      ensures View() == Faulted(old(View()), idle)
    {
      failed := false;
      if lossy {
        state := Closed;
        return;
      }
      if idle {
        state := Standby;
      } else {
        state := PreOpen;
        passed := {};
      }
    }

    /** What follows a callback: nothing, if the state has changed meanwhile. */
    method BackFrom(expected: State, ok: bool, next: State, reached: Milestone)
      modifies this
      ensures
        var c := old(View()).(dropped := Nothing);
        View() == if c.state != expected then c else if !ok then Failing(c)
                  else c.(state := next, passed := c.passed + {reached})
    {
      dropped := Nothing;
      if state != expected {
        return;
      }
      if !ok {
        failed := true;
        return;
      }
      state := next;
      passed := passed + {reached};
    }

    /** One event, as the worker and the callers handle it. */
    method Handle(e: Event)
      modifies this
      ensures View() == Next(old(View()), e)
    {
      hide BuildIdent, BuildReconnect, Signed, Identified, Faulted, StartConnect, DoClose;
      var enabled := Enabled(Con(state, clientCookie, serverCookie, connectSeq, peerGlobalSeq, globalSeq, lossy, dropped, closed, failed, passed, built), e);
      if !enabled {
        return;
      }
      match e {
        case OpenCall =>
          state := PreOpen;
          closed := false;
          passed := {};
        case CloseCall => CloseCon();
        case SendCall =>
          if state == Standby {
            state := PreOpen;
            passed := {};
          }
        case Connect(seqNo) => StartConnecting(seqNo);
        case GotPrefix => state := BannerPayload;
        case GotPayload(fit) =>
          if fit {
            state := Hello;
            passed := passed + {GotBanner};
          } else {
            failed := true;
          }
        case HelloFrame(right) => if right { dropped := InHello; } else { failed := true; }
        case HelloBack(ok) => BackFrom(Hello, ok, Auth, GotHello);
        case AuthMoreFrame => dropped := InAuthMore;
        case AuthMoreBack(ok) =>
          dropped := Nothing;
          if state == Auth && !ok { failed := true; }
        case AuthDoneFrame => dropped := InAuthDone;
        case AuthDoneBack(ok) => BackFrom(Auth, ok, AuthSignature, GotAuth);
        case SignatureFrame(matches, cookie, memory) => ProcessAuthSignature(matches, cookie, memory);
        case ServerIdentFrame(right, seqNo, flag, cookie) =>
          if right { ProcessServerIdent(seqNo, flag, cookie); } else { failed := true; }
        case ReconnectOkFrame => state := Open;
        case RetryFrame(seqNo, memory) =>
          connectSeq := (seqNo + 1) % U64;
          PrepareSessionReconnect(memory);
        case RetryGlobalFrame(seqNo, memory) =>
          globalSeq := seqNo;
          PrepareSessionReconnect(memory);
        case ResetFrame(full) =>
          if full {
            ClearSession();
            dropped := InReset;
          } else {
            failed := true;
          }
        case ResetBack(cookie, memory) =>
          dropped := Nothing;
          if state == SessionReconnect { PrepareClientIdent(cookie, memory); }
        case Fault(idle) => FaultCon(idle);
      }
    }
  }
}
