/**
 Requests, lingering requests and OSD sessions: who is linked to which session, how many
 are homeless, and which sessions are idle.
 */
module OsdLinks {

  const HOMELESS := -1

  /** The trees of a session, and its reference count. */
  datatype Session = Session(requests: set<nat>, lingers: set<nat>, refs: int)

  type Sessions = map<int, Session>

  /** Where each linked request or linger points back to. */
  type Links = map<nat, int>

  // ---------------------------------------------------------------- the invariant

  /** Every linked item is in the tree of the session it points to, and in no other. */
  ghost predicate Linked(sessions: Sessions, reqOf: Links, lingerOf: Links)
  {
    && (forall t :: t in reqOf ==> reqOf[t] in sessions && t in sessions[reqOf[t]].requests)
    && (forall t :: t in lingerOf ==> lingerOf[t] in sessions && t in sessions[lingerOf[t]].lingers)
    && (forall o, t :: o in sessions && t in sessions[o].requests ==> t in reqOf && reqOf[t] == o)
    && (forall o, t :: o in sessions && t in sessions[o].lingers ==> t in lingerOf && lingerOf[t] == o)
  }

  predicate Idle(s: Session)
  {
    s.requests == {} && s.lingers == {}
  }

  /** An idle session in the list of idle sessions, once. */
  ghost predicate GoodLru(sessions: Sessions, lru: seq<int>)
  {
    && (forall i :: 0 <= i < |lru| ==> lru[i] in sessions && lru[i] != HOMELESS && Idle(sessions[lru[i]]))
    && (forall i, j :: 0 <= i < j < |lru| ==> lru[i] != lru[j])
  }

  /** A session is held once for itself and once for each item. */
  ghost predicate GoodRefs(sessions: Sessions)
  {
    forall o :: o in sessions ==> sessions[o].refs == 1 + |sessions[o].requests| + |sessions[o].lingers|
  }

  ghost predicate Inv(sessions: Sessions, reqOf: Links, lingerOf: Links, lru: seq<int>, numHomeless: int)
  {
    && HOMELESS in sessions && Linked(sessions, reqOf, lingerOf) && GoodLru(sessions, lru) && GoodRefs(sessions)
    && numHomeless == |sessions[HOMELESS].requests| + |sessions[HOMELESS].lingers|
  }

  /** The list without an entry. */
  function Without(lru: seq<int>, o: int): (r: seq<int>)
    ensures o !in r && forall x :: x in r ==> x in lru
  {
    if lru == [] then [] else
    var rest := Without(lru[..|lru| - 1], o);
    if lru[|lru| - 1] == o then rest else rest + [lru[|lru| - 1]]
  }

  lemma {:induction false} WithoutKeeps(lru: seq<int>, o: int)
    requires forall i, j :: 0 <= i < j < |lru| ==> lru[i] != lru[j]
    ensures forall i, j :: 0 <= i < j < |Without(lru, o)| ==> Without(lru, o)[i] != Without(lru, o)[j]
    ensures forall x :: x in lru && x != o ==> x in Without(lru, o)
    ensures o !in lru ==> Without(lru, o) == lru
  {
    if lru != [] {
      var init := lru[..|lru| - 1];
      WithoutKeeps(init, o);
      var last := lru[|lru| - 1];
      assert forall x :: x in lru ==> x in init || x == last;
      assert last !in init by { assert forall k :: 0 <= k < |init| ==> init[k] == lru[k]; }
      assert last !in Without(init, o);
      if o !in lru { assert lru == init + [last]; }
    }
  }

  lemma LruWithout(sessions: Sessions, lru: seq<int>, o: int)
    requires GoodLru(sessions, lru)
    ensures GoodLru(sessions, Without(lru, o))
  {
    WithoutKeeps(lru, o);
    var r := Without(lru, o);
    forall i | 0 <= i < |r|
      ensures r[i] in sessions && r[i] != HOMELESS && Idle(sessions[r[i]])
    {
      assert r[i] in r;
    }
  }

  // ------------------------------------------------------------------ the client

  class OsdClient {
    var sessions: Sessions
    var reqOf: Links
    var lingerOf: Links
    var lru: seq<int>
    var numHomeless: int

    ghost predicate Valid()
      reads this
    {
      Inv(sessions, reqOf, lingerOf, lru, numHomeless)
    }

    constructor ()
      ensures Valid() && reqOf == map[] && lingerOf == map[] && sessions.Keys == {HOMELESS}
    {
      sessions := map[HOMELESS := Session({}, {}, 1)];
      reqOf, lingerOf, lru, numHomeless := map[], map[], [], 0;
    }

    /** create_osd and insert_osd */
    method CreateOsd(o: int)
      requires Valid() && o !in sessions
      modifies this`sessions
      ensures Valid() && sessions == old(sessions)[o := Session({}, {}, 1)]
    {
      sessions := sessions[o := Session({}, {}, 1)];
      assert GoodLru(sessions, lru);
    }

    /** __move_osd_to_lru: the session must not be listed yet */
    method MoveToLru(o: int)
      requires GoodLru(sessions, lru) && o in sessions && o != HOMELESS && Idle(sessions[o]) && o !in lru
      modifies this`lru
      ensures GoodLru(sessions, lru) && lru == old(lru) + [o]
    {
      assert o !in lru;
      lru := lru + [o];
    }

    /** __remove_osd_from_lru */
    method RemoveFromLru(o: int)
      requires GoodLru(sessions, lru)
      modifies this`lru
      ensures GoodLru(sessions, lru) && o !in lru && lru == Without(old(lru), o)
    {
      LruWithout(sessions, lru, o);
      lru := Without(lru, o);
    }

    /** link_request */
    method LinkRequest(o: int, tid: nat)
      requires Valid() && o in sessions && tid !in reqOf
      modifies this
      ensures Valid() && reqOf == old(reqOf)[tid := o] && lingerOf == old(lingerOf)
      ensures sessions == old(sessions)[o := old(sessions[o]).(requests := old(sessions[o].requests) + {tid}, refs := old(sessions[o].refs) + 1)]
      ensures lru == if o != HOMELESS then Without(old(lru), o) else old(lru)
    {
      if o != HOMELESS {
        RemoveFromLru(o);
      } else {
        numHomeless := numHomeless + 1;
      }
      NotListed(sessions, lru, o);
      var s := sessions[o];
      assert tid !in s.requests;
      var s' := s.(refs := s.refs + 1, requests := s.requests + {tid});
      LruOthers(sessions, lru, o, s');
      LinkOne(sessions, reqOf, lingerOf, o, tid);
      hide Linked, GoodLru;
      sessions := sessions[o := s'];
      reqOf := reqOf[tid := o];
    }

    /** unlink_request */
    method UnlinkRequest(o: int, tid: nat)
      requires Valid() && tid in reqOf && reqOf[tid] == o
      modifies this
      ensures Valid() && reqOf == old(reqOf) - {tid} && lingerOf == old(lingerOf)
      ensures sessions == old(sessions)[o := old(sessions[o]).(requests := old(sessions[o].requests) - {tid}, refs := old(sessions[o].refs) - 1)]
      ensures sessions[o].refs > 0
      ensures lru == if o != HOMELESS && Idle(sessions[o]) then old(lru) + [o] else old(lru)
      ensures numHomeless == if o == HOMELESS then old(numHomeless) - 1 else old(numHomeless)
    {
      var s := sessions[o];
      NotListed(sessions, lru, o);
      LruOthers(sessions, lru, o, s.(requests := s.requests - {tid}, refs := s.refs - 1));
      reqOf := reqOf - {tid};
      sessions := sessions[o := s.(requests := s.requests - {tid}, refs := s.refs - 1)];
      if o != HOMELESS {
        MaybeMoveToLru(o);
      } else {
        numHomeless := numHomeless - 1;
      }
    }

    /** maybe_move_osd_to_lru */
    method MaybeMoveToLru(o: int)
      requires GoodLru(sessions, lru) && o in sessions && o != HOMELESS && o !in lru
      modifies this`lru
      ensures GoodLru(sessions, lru) && lru == if Idle(sessions[o]) then old(lru) + [o] else old(lru)
    {
      if sessions[o].requests == {} && sessions[o].lingers == {} {
        MoveToLru(o);
      }
    }

    /** link_linger */
    method LinkLinger(o: int, id: nat)
      requires Valid() && o in sessions && id !in lingerOf
      modifies this
      ensures Valid() && lingerOf == old(lingerOf)[id := o] && reqOf == old(reqOf)
      ensures sessions == old(sessions)[o := old(sessions[o]).(lingers := old(sessions[o].lingers) + {id}, refs := old(sessions[o].refs) + 1)]
      ensures lru == if o != HOMELESS then Without(old(lru), o) else old(lru)
    {
      if o != HOMELESS {
        RemoveFromLru(o);
      } else {
        numHomeless := numHomeless + 1;
      }
      NotListed(sessions, lru, o);
      var s := sessions[o];
      assert id !in s.lingers;
      var s' := s.(refs := s.refs + 1, lingers := s.lingers + {id});
      LruOthers(sessions, lru, o, s');
      LingerOne(sessions, reqOf, lingerOf, o, id);
      hide Linked, GoodLru;
      sessions := sessions[o := s'];
      lingerOf := lingerOf[id := o];
    }

    /** unlink_linger */
    method UnlinkLinger(o: int, id: nat)
      requires Valid() && id in lingerOf && lingerOf[id] == o
      modifies this
      ensures Valid() && lingerOf == old(lingerOf) - {id} && reqOf == old(reqOf)
      ensures sessions == old(sessions)[o := old(sessions[o]).(lingers := old(sessions[o].lingers) - {id}, refs := old(sessions[o].refs) - 1)]
      ensures sessions[o].refs > 0
      ensures lru == if o != HOMELESS && Idle(sessions[o]) then old(lru) + [o] else old(lru)
      ensures numHomeless == if o == HOMELESS then old(numHomeless) - 1 else old(numHomeless)
    {
      var s := sessions[o];
      NotListed(sessions, lru, o);
      LruOthers(sessions, lru, o, s.(lingers := s.lingers - {id}, refs := s.refs - 1));
      lingerOf := lingerOf - {id};
      sessions := sessions[o := s.(lingers := s.lingers - {id}, refs := s.refs - 1)];
      if o != HOMELESS {
        MaybeMoveToLru(o);
      } else {
        numHomeless := numHomeless - 1;
      }
    }

    /** finish_request */
    method FinishRequest(tid: nat)
      requires Valid()
      modifies this
      ensures Valid() && reqOf == old(reqOf) - {tid} && lingerOf == old(lingerOf) && sessions.Keys == old(sessions.Keys)
    {
      if tid in reqOf {
        UnlinkRequest(reqOf[tid], tid);
      } else {
        assert reqOf - {tid} == reqOf;
      }
    }

    /** The first loop of close_osd: every request of the session becomes homeless. */
    method RehomeRequests(o: int)
      requires Valid() && o in sessions && o != HOMELESS
      modifies this
      ensures Valid() && o in sessions && sessions[o].requests == {} && sessions.Keys == old(sessions.Keys)
      ensures reqOf == Rehomed(old(reqOf), o) && lingerOf == old(lingerOf)
      ensures sessions[o].lingers == old(sessions[o].lingers)
    {
      hide Inv;
      assert HOMELESS in sessions by { Has(sessions, reqOf, lingerOf, lru, numHomeless); }
      while sessions[o].requests != {}
        invariant Valid() && o in sessions && HOMELESS in sessions && sessions.Keys == old(sessions.Keys)
        invariant Rehomed(reqOf, o) == Rehomed(old(reqOf), o) && lingerOf == old(lingerOf)
        invariant sessions[o].lingers == old(sessions[o].lingers)
        decreases sessions[o].requests
      {
        var tid :| tid in sessions[o].requests;
        PointsBack(sessions, reqOf, lingerOf, lru, numHomeless, o, tid);
        ghost var links := reqOf;
        UnlinkRequest(o, tid);
        LinkRequest(HOMELESS, tid);
        OneRehomed(links, o, tid);
      }
      AllRehomed(sessions, reqOf, lingerOf, lru, numHomeless, o);
    }

    /** The second loop of close_osd: every linger of the session becomes homeless. */
    method RehomeLingers(o: int)
      requires Valid() && o in sessions && o != HOMELESS
      modifies this
      ensures Valid() && o in sessions && sessions[o].lingers == {} && sessions.Keys == old(sessions.Keys)
      ensures lingerOf == Rehomed(old(lingerOf), o) && reqOf == old(reqOf)
      ensures sessions[o].requests == old(sessions[o].requests)
    {
      hide Inv;
      assert HOMELESS in sessions by { Has(sessions, reqOf, lingerOf, lru, numHomeless); }
      while sessions[o].lingers != {}
        invariant Valid() && o in sessions && HOMELESS in sessions && sessions.Keys == old(sessions.Keys)
        invariant Rehomed(lingerOf, o) == Rehomed(old(lingerOf), o) && reqOf == old(reqOf)
        invariant sessions[o].requests == old(sessions[o].requests)
        decreases sessions[o].lingers
      {
        var id :| id in sessions[o].lingers;
        LingerPointsBack(sessions, reqOf, lingerOf, lru, numHomeless, o, id);
        ghost var links := lingerOf;
        UnlinkLinger(o, id);
        LinkLinger(HOMELESS, id);
        OneRehomed(links, o, id);
      }
      AllLingersRehomed(sessions, reqOf, lingerOf, lru, numHomeless, o);
    }

    /** close_osd: what the session still holds goes to the homeless one, and the last reference to it is dropped */
    method CloseOsd(o: int) returns (refs: int)
      requires Valid() && o in sessions && o != HOMELESS
      modifies this
      ensures Valid() && sessions.Keys == old(sessions.Keys) - {o} && o !in lru && refs == 0
      ensures reqOf == Rehomed(old(reqOf), o) && lingerOf == Rehomed(old(lingerOf), o)
    {
      hide Inv;
      RehomeRequests(o);
      RehomeLingers(o);
      Has(sessions, reqOf, lingerOf, lru, numHomeless);
      assert GoodLru(sessions, lru) && sessions[o].refs == 1 by { IdleRefs(sessions, reqOf, lingerOf, lru, numHomeless, o); }
      ghost var before := lru;
      RemoveFromLru(o);
      refs := sessions[o].refs - 1;
      Dropped(sessions, reqOf, lingerOf, before, lru, numHomeless, o);
      sessions := sessions - {o};
    }

  }

  /** A session with items is not in the list of idle ones. */
  lemma NotListed(sessions: Sessions, lru: seq<int>, o: int)
    requires GoodLru(sessions, lru)
    ensures o == HOMELESS || (o in sessions && !Idle(sessions[o])) ==> o !in lru
  {
  }

  /** A change to a session that is not listed leaves the list good. */
  lemma LruOthers(sessions: Sessions, lru: seq<int>, o: int, s: Session)
    requires GoodLru(sessions, lru) && o !in lru
    ensures GoodLru(sessions[o := s], lru)
  {
  }

  lemma LinkOne(sessions: Sessions, reqOf: Links, lingerOf: Links, o: int, tid: nat)
    requires Linked(sessions, reqOf, lingerOf) && o in sessions && tid !in reqOf
    ensures
      var s := sessions[o];
      Linked(sessions[o := s.(refs := s.refs + 1, requests := s.requests + {tid})], reqOf[tid := o], lingerOf)
  {
  }

  lemma LingerOne(sessions: Sessions, reqOf: Links, lingerOf: Links, o: int, id: nat)
    requires Linked(sessions, reqOf, lingerOf) && o in sessions && id !in lingerOf
    ensures
      var s := sessions[o];
      Linked(sessions[o := s.(refs := s.refs + 1, lingers := s.lingers + {id})], reqOf, lingerOf[id := o])
  {
  }

  /** The links of a session moved to the homeless one. */
  function Rehomed(links: Links, o: int): Links
  {
    map t | t in links :: if links[t] == o then HOMELESS else links[t]
  }

  lemma OneRehomed(links: Links, o: int, t: nat)
    requires t in links && links[t] == o && o != HOMELESS
    ensures Rehomed((links - {t})[t := HOMELESS], o) == Rehomed(links, o)
  {
  }

  lemma Has(sessions: Sessions, reqOf: Links, lingerOf: Links, lru: seq<int>, numHomeless: int)
    requires Inv(sessions, reqOf, lingerOf, lru, numHomeless)
    ensures HOMELESS in sessions
  {
  }

  lemma PointsBack(sessions: Sessions, reqOf: Links, lingerOf: Links, lru: seq<int>, numHomeless: int, o: int, tid: nat)
    requires Inv(sessions, reqOf, lingerOf, lru, numHomeless) && o in sessions && tid in sessions[o].requests
    ensures tid in reqOf && reqOf[tid] == o
  {
  }

  lemma AllRehomed(sessions: Sessions, reqOf: Links, lingerOf: Links, lru: seq<int>, numHomeless: int, o: int)
    requires Inv(sessions, reqOf, lingerOf, lru, numHomeless) && o in sessions && sessions[o].requests == {}
    ensures Rehomed(reqOf, o) == reqOf
  {
  }

  lemma LingerPointsBack(sessions: Sessions, reqOf: Links, lingerOf: Links, lru: seq<int>, numHomeless: int, o: int, id: nat)
    requires Inv(sessions, reqOf, lingerOf, lru, numHomeless) && o in sessions && id in sessions[o].lingers
    ensures id in lingerOf && lingerOf[id] == o
  {
  }

  lemma AllLingersRehomed(sessions: Sessions, reqOf: Links, lingerOf: Links, lru: seq<int>, numHomeless: int, o: int)
    requires Inv(sessions, reqOf, lingerOf, lru, numHomeless) && o in sessions && sessions[o].lingers == {}
    ensures Rehomed(lingerOf, o) == lingerOf
  {
  }

  lemma IdleRefs(sessions: Sessions, reqOf: Links, lingerOf: Links, lru: seq<int>, numHomeless: int, o: int)
    requires Inv(sessions, reqOf, lingerOf, lru, numHomeless) && o in sessions && Idle(sessions[o])
    ensures GoodLru(sessions, lru) && sessions[o].refs == 1
  {
  }

  /** An idle session that is not listed can go. */
  lemma Dropped(sessions: Sessions, reqOf: Links, lingerOf: Links, before: seq<int>, lru: seq<int>, numHomeless: int, o: int)
    requires Inv(sessions, reqOf, lingerOf, before, numHomeless) && GoodLru(sessions, lru)
    requires o in sessions && o != HOMELESS && Idle(sessions[o]) && o !in lru
    ensures Inv(sessions - {o}, reqOf, lingerOf, lru, numHomeless)
  {
    forall i | 0 <= i < |lru|
      ensures lru[i] != o
    {
      assert lru[i] in lru;
    }
  }
}
