/** A cleanup of the registry in its two passes - find the expired handles, and later remove
    them - with other requests served in between, when the lock is free. */
module Cleanup {
  import opened Forest

  /** What may happen between the passes; send states and time stamps may change at will. */
  datatype Request =
    | Register(handle: Handle, res: Resource, now: int)
    | RegisterChild(handle: Handle, owner: Handle, res: Resource, now: int)
    | KeepStates(states: map<Handle, SendState>)
    | Delete(handle: Handle)
    | Touch(stamps: map<Handle, int>)

  /** The handles a generator gives out are new. */
  ghost predicate Possible(v: View, req: Request) {
    match req
    case Register(handle, _, _) => handle !in v.resources
    case RegisterChild(handle, owner, _, _) => Fresh(v, handle, owner)
    case _ => true
  }

  /** What the registry's methods do. */
  ghost function Served(v: View, rank: map<Handle, nat>, req: Request): View
    requires Ranked(v.parent, rank)
  {
    match req
    case Register(handle, res, now) => WithRoot(v, handle, res, now)
    case RegisterChild(handle, owner, res, now) => WithChild(v, handle, owner, res, now)
    case KeepStates(states) => v.(states := states)
    case Delete(handle) => if handle in v.resources then Minus(v, Owned(v, v.parent, rank, handle)) else v
    case Touch(stamps) => v.(lastSeen := stamps)
  }

  function RankAfter(rank: map<Handle, nat>, req: Request): map<Handle, nat> {
    if req.RegisterChild? then RankWith(rank, req.handle, req.owner) else rank
  }

  lemma {:induction false} ServedLinked(v: View, rank: map<Handle, nat>, req: Request)
    requires Linked(v, v.parent, rank, {}) && Possible(v, req)
    ensures var w := Served(v, rank, req); Linked(w, w.parent, RankAfter(rank, req), {})
  {
    match req {
      case Register(handle, res, now) => RootLinked(v, rank, handle, res, now);
      case RegisterChild(handle, owner, res, now) =>
        ChildLinked(v, rank, handle, owner, res, now);
      case KeepStates(_) =>
      case Delete(handle) =>
        if handle in v.resources {
          OwnedClosed(v, v.parent, rank, handle);
          LinkedMinus(v, v.parent, rank, {}, Owned(v, v.parent, rank, handle));
          Relink(Minus(v, Owned(v, v.parent, rank, handle)), v.parent, rank);
        }
      case Touch(_) =>
    }
  }

  /** These requests lead from v to w, and x is there all the time. */
  ghost predicate Leads(v: View, rank: map<Handle, nat>, reqs: seq<Request>, w: View, rank': map<Handle, nat>, x: Handle)
    requires Linked(v, v.parent, rank, {})
    decreases |reqs|
  {
    && x in v.resources
    && if reqs == [] then w == v && rank' == rank
       else
         && Possible(v, reqs[0])
         && (ServedLinked(v, rank, reqs[0]);
             Leads(Served(v, rank, reqs[0]), RankAfter(rank, reqs[0]), reqs[1..], w, rank', x))
  }

  // ------------------------------------------------------- owners stay as they are

  /** Every owner of x, near or far, is there and has the owner it had. */
  ghost predicate SameWay(up: map<Handle, Handle>, rank: map<Handle, nat>, v: View, x: Handle)
    requires Ranked(up, rank)
  {
    forall a :: Under(up, rank, x, a) ==> SameOwner(up, v, a)
  }

  ghost predicate SameOwner(up: map<Handle, Handle>, v: View, a: Handle) {
    a in v.resources && (a in up <==> a in v.parent) && (a in up ==> v.parent[a] == up[a])
  }

  /** As long as x is there with a root that is there, so is all its ownership. */
  lemma {:induction false} WayThere(v: View, rank: map<Handle, nat>, x: Handle)
    requires Linked(v, v.parent, rank, {}) && x in v.resources && Root(v.parent, rank, x) in v.resources
    ensures SameWay(v.parent, rank, v, x)
  {
    hide Linked;
    LinkedRanked(v, rank);
    forall a | Under(v.parent, rank, x, a) ensures SameOwner(v.parent, v, a) {
      if a in v.parent { AboveKept(v, v.parent, rank, {}, x, a); } else { SameRoot(v.parent, rank, x, a); }
    }
  }

  lemma {:induction false} LinkedRanked(v: View, rank: map<Handle, nat>)
    requires Linked(v, v.parent, rank, {})
    ensures Ranked(v.parent, rank)
  {
  }

  /** With the same way up, the owners are the same. */
  lemma {:induction false} SameUnder(up: map<Handle, Handle>, rank: map<Handle, nat>, v: View, rank': map<Handle, nat>,
                                     x: Handle, a: Handle)
    requires Ranked(up, rank) && Ranked(v.parent, rank') && SameWay(up, rank, v, x)
    ensures Under(v.parent, rank', x, a) <==> Under(up, rank, x, a)
    decreases if x in rank then rank[x] else 0
  {
    assert SameOwner(up, v, x) by { assert Under(up, rank, x, x); }
    if x != a && x in up {
      forall b | Under(up, rank, up[x], b) ensures SameOwner(up, v, b) { assert Under(up, rank, x, b); }
      SameUnder(up, rank, v, rank', up[x], a);
    }
  }

  /** A request that leaves x there leaves its ownership as it is. */
  lemma {:induction false} ServedSameWay(up: map<Handle, Handle>, rank: map<Handle, nat>, v: View, rank': map<Handle, nat>,
                                         req: Request, x: Handle)
    requires Ranked(up, rank) && Linked(v, v.parent, rank', {}) && SameWay(up, rank, v, x) && Possible(v, req)
    requires Ranked(v.parent, rank') && x in Served(v, rank', req).resources
    ensures SameWay(up, rank, Served(v, rank', req), x)
  {
    hide Linked;
    var w := Served(v, rank', req);
    forall a | Under(up, rank, x, a) ensures SameOwner(up, w, a) {
      assert SameOwner(up, v, a);
      if req.Delete? && req.handle in v.resources {
        SameUnder(up, rank, v, rank', x, a);
        if Under(v.parent, rank', a, req.handle) { UnderTransitive(v.parent, rank', x, a, req.handle); }
      }
    }
  }

  lemma {:induction false} LeadsSameWay(up: map<Handle, Handle>, rank: map<Handle, nat>, v: View, rank0: map<Handle, nat>,
                                        reqs: seq<Request>, w: View, rank': map<Handle, nat>, x: Handle)
    requires Ranked(up, rank) && Linked(v, v.parent, rank0, {}) && SameWay(up, rank, v, x) && Leads(v, rank0, reqs, w, rank', x)
    ensures Linked(w, w.parent, rank', {}) && x in w.resources && SameWay(up, rank, w, x)
    decreases |reqs|
  {
    hide Linked, SameWay, Served, Possible;
    LinkedRanked(v, rank0);
    if reqs != [] {
      ServedLinked(v, rank0, reqs[0]);
      var next, more := Served(v, rank0, reqs[0]), RankAfter(rank0, reqs[0]);
      LeadsThere(next, more, reqs[1..], w, rank', x);
      ServedSameWay(up, rank, v, rank0, reqs[0], x);
      LeadsSameWay(up, rank, next, more, reqs[1..], w, rank', x);
    }
  }

  lemma {:induction false} LeadsThere(v: View, rank: map<Handle, nat>, reqs: seq<Request>, w: View, rank': map<Handle, nat>, x: Handle)
    requires Linked(v, v.parent, rank, {}) && Leads(v, rank, reqs, w, rank', x)
    ensures x in v.resources
  {
  }

  // ------------------------------------------------------------------- a cleanup

  /** What the first pass of a cleanup puts on its list: no handle whose root is there and
      live. */
  ghost predicate Dead(v: View, rank: map<Handle, nat>, live: set<Handle>, reap: seq<Handle>)
    requires Ranked(v.parent, rank)
  {
    forall h :: h in reap ==> !(Root(v.parent, rank, h) in v.resources && Root(v.parent, rank, h) in live)
  }

  /** What the second pass leaves. */
  ghost function Reaped(v: View, rank: map<Handle, nat>, reap: seq<Handle>): View
    requires Ranked(v.parent, rank)
  {
    Minus(v, OwnedByAny(v, v.parent, rank, Present(v, reap)))
  }

  lemma {:induction false} PresentMember(v: View, reap: seq<Handle>, h: Handle)
    ensures h in Present(v, reap) <==> h in reap && h in v.resources
  {
    if reap != [] {
      var n := |reap| - 1;
      PresentMember(v, reap[..n], h);
      assert reap == reap[..n] + [reap[n]];
    }
  }

  /** A cleanup spares the living and takes all it listed: whatever is registered, deleted or
      touched between its passes, a handle whose root was there and live when the first pass
      looked, and which nothing else deleted, is still there after the second; and no handle
      on the list is. */
  lemma {:induction false} SparesLive(v: View, rank: map<Handle, nat>, live: set<Handle>, reap: seq<Handle>,
                                      reqs: seq<Request>, w: View, rank': map<Handle, nat>, x: Handle)
    requires Linked(v, v.parent, rank, {}) && Dead(v, rank, live, reap)
    requires Root(v.parent, rank, x) in v.resources && Root(v.parent, rank, x) in live
    requires Leads(v, rank, reqs, w, rank', x)
    ensures Linked(w, w.parent, rank', {}) && x in Reaped(w, rank', reap).resources
    ensures forall h :: h in reap ==> h !in Reaped(w, rank', reap).resources
  {
    hide Linked, Present, SameWay;
    LinkedRanked(v, rank);
    LeadsThere(v, rank, reqs, w, rank', x);
    WayThere(v, rank, x);
    LeadsSameWay(v.parent, rank, v, rank, reqs, w, rank', x);
    LinkedRanked(w, rank');
    NotOnList(v, rank, live, reap, w, rank', x);
    forall h | h in reap ensures h !in Reaped(w, rank', reap).resources {
      PresentMember(w, reap, h);
      if h in w.resources { ListedGoes(w, rank', Present(w, reap), h); }
    }
  }

  lemma {:induction false} ListedGoes(w: View, rank: map<Handle, nat>, list: seq<Handle>, h: Handle)
    requires Ranked(w.parent, rank) && h in list && h in w.resources
    ensures h in OwnedByAny(w, w.parent, rank, list)
  {
    assert Under(w.parent, rank, h, h);
  }

  lemma {:induction false} NotOnList(v: View, rank: map<Handle, nat>, live: set<Handle>, reap: seq<Handle>,
                                     w: View, rank': map<Handle, nat>, x: Handle)
    requires Ranked(v.parent, rank) && Ranked(w.parent, rank') && Dead(v, rank, live, reap) && SameWay(v.parent, rank, w, x)
    requires Root(v.parent, rank, x) in v.resources && Root(v.parent, rank, x) in live
    ensures !UnderAny(w.parent, rank', x, Present(w, reap))
  {
    hide Present, SameWay, Ranked;
    var list := Present(w, reap);
    if UnderAny(w.parent, rank', x, list) {
      var j :| 0 <= j < |list| && Under(w.parent, rank', x, list[j]);
      SameUnder(v.parent, rank, w, rank', x, list[j]);
      SameRoot(v.parent, rank, x, list[j]);
      PresentMember(w, reap, list[j]);
    }
  }
}
