/** The ownership forest behind the registry: which handle owns which, as values. */
module Forest {
  import Sets

  type Handle = string

  /** A resource; some can be closed. */
  datatype Resource = Resource(id: nat, closable: bool)

  /** A send state, named by an identity of its own. */
  datatype SendState = SendState(id: nat)

  /** The five maps of the registry. */
  datatype View = View(
    resources: map<Handle, Resource>, parent: map<Handle, Handle>, children: map<Handle, seq<Handle>>,
    states: map<Handle, SendState>, lastSeen: map<Handle, int>)

  /** Owners are older than what they own, so ownership has no cycle. */
  ghost predicate Ranked(up: map<Handle, Handle>, rank: map<Handle, nat>) {
    forall x :: x in up ==> x in rank && up[x] in rank && rank[up[x]] < rank[x]
  }

  /** x is h or is owned by it, directly or not. */
  ghost predicate Under(up: map<Handle, Handle>, rank: map<Handle, nat>, x: Handle, h: Handle)
    requires Ranked(up, rank)
    decreases if x in rank then rank[x] else 0
  {
    x == h || (x in up && Under(up, rank, up[x], h))
  }

  lemma {:induction false} UnderTransitive(up: map<Handle, Handle>, rank: map<Handle, nat>, x: Handle, y: Handle, z: Handle)
    requires Ranked(up, rank) && Under(up, rank, x, y) && Under(up, rank, y, z)
    ensures Under(up, rank, x, z)
    decreases if x in rank then rank[x] else 0
  {
    if x != y { UnderTransitive(up, rank, up[x], y, z); }
  }

  lemma {:induction false} UnderRank(up: map<Handle, Handle>, rank: map<Handle, nat>, x: Handle, y: Handle)
    requires Ranked(up, rank) && Under(up, rank, x, y) && x != y
    ensures x in rank && y in rank && rank[y] < rank[x]
    decreases if x in rank then rank[x] else 0
  {
    if up[x] != y { UnderRank(up, rank, up[x], y); }
  }

  /** The last step of the way down: something owned by h is h or below a child of h. */
  lemma {:induction false} StepDown(up: map<Handle, Handle>, rank: map<Handle, nat>, x: Handle, h: Handle) returns (k: Handle)
    requires Ranked(up, rank) && Under(up, rank, x, h) && x != h
    ensures k in up && up[k] == h && Under(up, rank, x, k)
    decreases if x in rank then rank[x] else 0
  {
    if up[x] == h { k := x; } else { k := StepDown(up, rank, up[x], h); }
  }

  /** Siblings own nothing of each other. */
  lemma {:induction false} SiblingsApart(up: map<Handle, Handle>, rank: map<Handle, nat>, k: Handle, l: Handle)
    requires Ranked(up, rank) && k in up && l in up && up[k] == up[l] && k != l
    ensures !Under(up, rank, k, l)
  {
    if Under(up, rank, k, l) {
      assert Under(up, rank, up[k], l);
      if up[k] != l { UnderRank(up, rank, up[k], l); }
    }
  }

  ghost predicate Distinct<T(!new)>(s: seq<T>) {
    forall i, j :: 0 <= i < j < |s| ==> s[i] != s[j]
  }

  function Without(s: seq<Handle>, gone: set<Handle>): seq<Handle> {
    if s == [] then []
    else (if s[0] in gone then [] else [s[0]]) + Without(s[1..], gone)
  }

  lemma {:induction false} WithoutMember(s: seq<Handle>, gone: set<Handle>, x: Handle)
    ensures x in Without(s, gone) <==> x in s && x !in gone
  {
    if s != [] { WithoutMember(s[1..], gone, x); }
  }

  lemma {:induction false} WithoutDistinct(s: seq<Handle>, gone: set<Handle>)
    requires Distinct(s)
    ensures Distinct(Without(s, gone))
  {
    if s != [] {
      WithoutDistinct(s[1..], gone);
      WithoutMember(s[1..], gone, s[0]);
    }
  }

  lemma {:induction false} WithoutNothing(s: seq<Handle>, gone: set<Handle>)
    requires forall x :: x in s ==> x !in gone
    ensures Without(s, gone) == s
  {
    if s != [] { WithoutNothing(s[1..], gone); }
  }

  /** Cutting one element out of a list is what in-place removal by index does. */
  lemma {:induction false} WithoutOne(s: seq<Handle>, gone: set<Handle>, i: nat)
    requires Distinct(s) && i < |s| && s[i] in gone
    requires forall x :: x in s && x != s[i] ==> x !in gone
    ensures Without(s, gone) == s[..i] + s[i + 1..]
  {
    if i == 0 {
      WithoutNothing(s[1..], gone);
    } else {
      WithoutOne(s[1..], gone, i - 1);
      assert s[..i] + s[i + 1..] == [s[0]] + (s[1..][..i - 1] + s[1..][i..]);
    }
  }

  lemma {:induction false} WithoutTwice(s: seq<Handle>, a: set<Handle>, b: set<Handle>)
    ensures Without(Without(s, a), b) == Without(s, a + b)
  {
    if s != [] {
      WithoutTwice(s[1..], a, b);
      var rest := Without(s[1..], a);
      if s[0] in a {
        assert Without(s, a) == rest;
      } else {
        assert Without(s, a) == [s[0]] + rest && ([s[0]] + rest)[1..] == rest;
      }
    }
  }

  /** The registry with a set of handles gone from every map and every list. */
  function Minus(v: View, gone: set<Handle>): View {
    View(v.resources - gone, v.parent - gone,
         map p | p in v.children && p !in gone :: Without(v.children[p], gone),
         v.states - gone, v.lastSeen - gone)
  }

  lemma {:induction false} MinusTwice(v: View, a: set<Handle>, b: set<Handle>)
    ensures Minus(Minus(v, a), b) == Minus(v, a + b)
  {
    var l, r := Minus(Minus(v, a), b), Minus(v, a + b);
    forall p | p in v.children { WithoutTwice(v.children[p], a, b); }
    assert l.children == r.children;
    assert l.resources == r.resources && l.parent == r.parent;
    assert l.states == r.states && l.lastSeen == r.lastSeen;
  }

  lemma {:induction false} MinusNothing(v: View)
    ensures Minus(v, {}) == v
  {
    forall p | p in v.children { WithoutNothing(v.children[p], {}); }
    assert Minus(v, {}).children == v.children;
  }

  /** Links agree both ways - except that the handles in `open`, whose children are
      being collected, have already lost their list. up is the ownership when the
      collection began. */
  ghost predicate Linked(v: View, up: map<Handle, Handle>, rank: map<Handle, nat>, open: set<Handle>) {
    && Ranked(up, rank)
    && (forall x :: x in v.parent <==> x in up && x in v.resources)
    && (forall x :: x in v.parent ==> v.parent[x] == up[x])
    && (forall p :: p in v.children ==> Distinct(v.children[p]))
    && (forall p, x :: p in v.children && x in v.children[p] ==> x in v.parent && v.parent[x] == p)
    && (forall x :: x in v.parent && v.parent[x] !in open ==>
          v.parent[x] in v.children && x in v.children[v.parent[x]])
    && (forall x :: x in v.parent && up[x] in up ==> up[x] in v.resources)
    && (forall p :: p in open ==> p !in v.children)
  }

  /** The handles of v that h owns, itself included. */
  ghost function Owned(v: View, up: map<Handle, Handle>, rank: map<Handle, nat>, h: Handle): set<Handle>
    requires Ranked(up, rank)
  {
    set x | x in v.resources && Under(up, rank, x, h)
  }

  ghost predicate Closed(v: View, up: map<Handle, Handle>, rank: map<Handle, nat>, gone: set<Handle>)
    requires Ranked(up, rank)
  {
    forall x, d :: x in v.resources && d in gone && Under(up, rank, x, d) ==> x in gone
  }

  /** What stays keeps its owner. */
  lemma {:induction false} ParentStays(v: View, up: map<Handle, Handle>, rank: map<Handle, nat>, open: set<Handle>, gone: set<Handle>, x: Handle)
    requires Linked(v, up, rank, open) && Closed(v, up, rank, gone) && x in v.parent && x !in gone
    ensures x in up && up[x] !in gone
  {
    assert Under(up, rank, up[x], up[x]);
    assert Under(up, rank, x, up[x]);
  }

  lemma {:induction false} KeptListed(v: View, up: map<Handle, Handle>, rank: map<Handle, nat>, open: set<Handle>, gone: set<Handle>)
    requires Linked(v, up, rank, open) && Closed(v, up, rank, gone)
    ensures var w := Minus(v, gone);
            && (forall p :: p in w.children ==> Distinct(w.children[p]))
            && (forall p, x :: p in w.children && x in w.children[p] ==> x in w.parent && w.parent[x] == p)
            && (forall x :: x in w.parent && w.parent[x] !in open ==> w.parent[x] in w.children && x in w.children[w.parent[x]])
  {
    var w := Minus(v, gone);
    forall p, x | p in w.children && x in w.children[p] ensures x in w.parent && w.parent[x] == p {
      WithoutMember(v.children[p], gone, x);
    }
    forall p | p in w.children ensures Distinct(w.children[p]) { WithoutDistinct(v.children[p], gone); }
    forall x | x in w.parent && w.parent[x] !in open ensures w.parent[x] in w.children && x in w.children[w.parent[x]] {
      ParentStays(v, up, rank, open, gone, x);
      WithoutMember(v.children[v.parent[x]], gone, x);
    }
  }

  lemma {:induction false} LinkedMinus(v: View, up: map<Handle, Handle>, rank: map<Handle, nat>, open: set<Handle>, gone: set<Handle>)
    requires Linked(v, up, rank, open) && Closed(v, up, rank, gone)
    ensures Linked(Minus(v, gone), up, rank, open)
  {
    var w := Minus(v, gone);
    KeptListed(v, up, rank, open, gone);
    forall x | x in w.parent ensures up[x] !in gone { ParentStays(v, up, rank, open, gone, x); }
  }

  /** What h owns is h and what its listed children own. */
  lemma {:induction false} OwnedSplit(v: View, up: map<Handle, Handle>, rank: map<Handle, nat>, open: set<Handle>, h: Handle, x: Handle)
    requires Linked(v, up, rank, open) && h in v.resources && h !in open
    requires x in Owned(v, up, rank, h) && x != h
    ensures h in v.children && exists i :: 0 <= i < |v.children[h]| && Under(up, rank, x, v.children[h][i])
  {
    var k := StepDown(up, rank, x, h);
    AboveKept(v, up, rank, open, x, k);
    assert v.parent[k] == h;
    assert k in v.children[h];
  }

  /** Whatever owned node lies above a present one is present. */
  lemma {:induction false} AboveKept(v: View, up: map<Handle, Handle>, rank: map<Handle, nat>, open: set<Handle>, x: Handle, k: Handle)
    requires Linked(v, up, rank, open) && x in v.resources && k in up && Under(up, rank, x, k)
    ensures k in v.resources
    decreases if x in rank then rank[x] else 0
  {
    if x != k {
      if up[x] in up {
        AboveKept(v, up, rank, open, up[x], k);
      }
    }
  }

  lemma {:induction false} OwnedClosed(v: View, up: map<Handle, Handle>, rank: map<Handle, nat>, h: Handle)
    requires Ranked(up, rank)
    ensures Closed(v, up, rank, Owned(v, up, rank, h))
  {
    forall x, d | x in v.resources && d in Owned(v, up, rank, h) && Under(up, rank, x, d)
      ensures x in Owned(v, up, rank, h)
    {
      UnderTransitive(up, rank, x, d, h);
    }
  }

  // ----------------------------------------------------------- what is collected

  /** Something taken from a handle. */
  datatype Taken<T> = Taken(handle: Handle, item: T)

  /** These were taken once from each of these handles, owned before owner. */
  ghost predicate PostOrder<T(!new)>(taken: seq<Taken<T>>, from: set<Handle>, up: map<Handle, Handle>, rank: map<Handle, nat>)
    requires Ranked(up, rank)
  {
    && (forall h :: h in from <==> exists i :: 0 <= i < |taken| && taken[i].handle == h)
    && (forall i, j :: 0 <= i < j < |taken| ==> !Under(up, rank, taken[j].handle, taken[i].handle))
  }

  lemma {:induction false} PostOrderAppend<T(!new)>(a: seq<Taken<T>>, b: seq<Taken<T>>, from: set<Handle>, more: set<Handle>,
                                 up: map<Handle, Handle>, rank: map<Handle, nat>)
    requires Ranked(up, rank) && PostOrder(a, from, up, rank) && PostOrder(b, more, up, rank)
    requires forall x, y :: x in from && y in more ==> !Under(up, rank, y, x)
    ensures PostOrder(a + b, from + more, up, rank)
  {
    var c := a + b;
    forall i | 0 <= i < |c| ensures c[i].handle in from + more {
      if i < |a| { assert c[i] == a[i]; } else { assert c[i] == b[i - |a|]; }
    }
    forall h | h in from + more ensures exists i :: 0 <= i < |c| && c[i].handle == h {
      if h in from {
        var i :| 0 <= i < |a| && a[i].handle == h;
        assert c[i].handle == h;
      } else {
        var i :| 0 <= i < |b| && b[i].handle == h;
        assert c[|a| + i].handle == h;
      }
    }
    forall i, j | 0 <= i < j < |c| ensures !Under(up, rank, c[j].handle, c[i].handle) {
      if i < |a| <= j {
        assert a[i].handle in from && b[j - |a|].handle in more;
      } else if j < |a| {
        assert c[i] == a[i] && c[j] == a[j];
      } else {
        assert c[i] == b[i - |a|] && c[j] == b[j - |a|];
      }
    }
  }

  /** after is before plus one item from each handle of gone that has one in source,
      owned before owner. */
  ghost predicate Gathered<T(!new)>(before: seq<Taken<T>>, after: seq<Taken<T>>, source: map<Handle, T>,
                                    gone: set<Handle>, up: map<Handle, Handle>, rank: map<Handle, nat>)
    requires Ranked(up, rank)
  {
    && before <= after
    && PostOrder(after[|before|..], (set x | x in gone && x in source), up, rank)
    && (forall i :: |before| <= i < |after| ==> after[i].handle in source && after[i].item == source[after[i].handle])
  }

  lemma {:induction false} GatheredNone<T(!new)>(before: seq<Taken<T>>, source: map<Handle, T>, gone: set<Handle>,
                              up: map<Handle, Handle>, rank: map<Handle, nat>)
    requires Ranked(up, rank) && forall x :: x in gone ==> x !in source
    ensures Gathered(before, before, source, gone, up, rank)
  {
  }

  lemma {:induction false} GatheredOne<T(!new)>(before: seq<Taken<T>>, source: map<Handle, T>, h: Handle,
                             up: map<Handle, Handle>, rank: map<Handle, nat>)
    requires Ranked(up, rank) && h in source
    ensures Gathered(before, before + [Taken(h, source[h])], source, {h}, up, rank)
  {
    var new_ := (before + [Taken(h, source[h])])[|before|..];
    assert new_ == [Taken(h, source[h])];
    assert new_[0].handle == h;
  }

  lemma {:induction false} GatheredMore<T(!new)>(a: seq<Taken<T>>, b: seq<Taken<T>>, c: seq<Taken<T>>, source: map<Handle, T>,
                              gone: set<Handle>, more: set<Handle>, up: map<Handle, Handle>, rank: map<Handle, nat>)
    requires Ranked(up, rank) && gone !! more
    requires Gathered(a, b, source, gone, up, rank) && Gathered(b, c, source - gone, more, up, rank)
    requires forall x, y :: x in gone && y in more ==> !Under(up, rank, y, x)
    ensures Gathered(a, c, source, gone + more, up, rank)
  {
    var f := set x | x in gone && x in source;
    var m := set x | x in more && x in source - gone;
    PostOrderAppend(b[|a|..], c[|b|..], f, m, up, rank);
    assert c[|a|..] == b[|a|..] + c[|b|..];
    assert f + m == set x | x in gone + more && x in source;
    forall i | |a| <= i < |c|
      ensures c[i].handle in source && c[i].item == source[c[i].handle]
    {
      if i < |b| { assert c[i] == b[i]; }
    }
  }

  function Closable(resources: map<Handle, Resource>): map<Handle, Resource> {
    map x | x in resources && resources[x].closable :: resources[x]
  }

  /** What has to be shut down when these handles go: closers and send states. */
  datatype Harvest = Harvest(closers: seq<Taken<Resource>>, states: seq<Taken<SendState>>)

  /** after is before plus exactly the closers and send states of gone. */
  ghost predicate Harvested(before: Harvest, after: Harvest, v: View, gone: set<Handle>,
                            up: map<Handle, Handle>, rank: map<Handle, nat>)
    requires Ranked(up, rank)
  {
    && Gathered(before.closers, after.closers, Closable(v.resources), gone, up, rank)
    && Gathered(before.states, after.states, v.states, gone, up, rank)
  }

  lemma {:induction false} HarvestedNone(h: Harvest, v: View, up: map<Handle, Handle>, rank: map<Handle, nat>)
    requires Ranked(up, rank)
    ensures Harvested(h, h, v, {}, up, rank)
  {
    GatheredNone(h.closers, Closable(v.resources), {}, up, rank);
    GatheredNone(h.states, v.states, {}, up, rank);
  }

  lemma {:induction false} HarvestedMore(a: Harvest, b: Harvest, c: Harvest, v: View, w: View, gone: set<Handle>, more: set<Handle>,
                      up: map<Handle, Handle>, rank: map<Handle, nat>)
    requires Ranked(up, rank) && gone !! more
    requires w.resources == v.resources - gone && w.states == v.states - gone
    requires Harvested(a, b, v, gone, up, rank) && Harvested(b, c, w, more, up, rank)
    requires forall x, y :: x in gone && y in more ==> !Under(up, rank, y, x)
    ensures Harvested(a, c, v, gone + more, up, rank)
  {
    assert Closable(w.resources) == Closable(v.resources) - gone;
    hide Gathered, Closable;
    GatheredMore(a.closers, b.closers, c.closers, Closable(v.resources), gone, more, up, rank);
    GatheredMore(a.states, b.states, c.states, v.states, gone, more, up, rank);
  }

  // -------------------------------------------------- one level of the cascade

  ghost predicate UnderAny(up: map<Handle, Handle>, rank: map<Handle, nat>, x: Handle, list: seq<Handle>)
    requires Ranked(up, rank)
  {
    exists j :: 0 <= j < |list| && Under(up, rank, x, list[j])
  }

  ghost function OwnedByAny(v: View, up: map<Handle, Handle>, rank: map<Handle, nat>, list: seq<Handle>): set<Handle>
    requires Ranked(up, rank)
  {
    set x | x in v.resources && UnderAny(up, rank, x, list)
  }

  /** h's list is taken out of the map before its children are collected. */
  function Detach(v: View, h: Handle): View { v.(children := v.children - {h}) }

  lemma {:induction false} DetachLinked(v: View, up: map<Handle, Handle>, rank: map<Handle, nat>, open: set<Handle>, h: Handle)
    requires Linked(v, up, rank, open)
    ensures Linked(Detach(v, h), up, rank, open + {h})
  {
  }

  lemma {:induction false} AnyClosed(v: View, up: map<Handle, Handle>, rank: map<Handle, nat>, list: seq<Handle>)
    requires Ranked(up, rank)
    ensures Closed(v, up, rank, OwnedByAny(v, up, rank, list))
  {
    var gone := OwnedByAny(v, up, rank, list);
    forall x, d | x in v.resources && d in gone && Under(up, rank, x, d) ensures x in gone {
      var j :| 0 <= j < |list| && Under(up, rank, d, list[j]);
      UnderTransitive(up, rank, x, d, list[j]);
    }
  }

  /** Collecting the next child of the list. */
  lemma {:induction false} NextChild(v: View, up: map<Handle, Handle>, rank: map<Handle, nat>, open: set<Handle>, h: Handle, list: seq<Handle>, i: nat)
    requires Linked(v, up, rank, open) && h in v.children && list == v.children[h] && i < |list|
    ensures var gone := OwnedByAny(v, up, rank, list[..i]); var w := Minus(Detach(v, h), gone);
            var more := Owned(w, up, rank, list[i]);
            && list[i] in w.resources && list[i] != h
            && gone + more == OwnedByAny(v, up, rank, list[..i + 1]) && gone !! more
            && Minus(w, more) == Minus(Detach(v, h), gone + more)
            && forall x, y :: x in gone && y in more ==> !Under(up, rank, y, x)
  {
    var gone := OwnedByAny(v, up, rank, list[..i]);
    var w := Minus(Detach(v, h), gone);
    var more := Owned(w, up, rank, list[i]);
    var k := list[i];
    assert k in v.children[h];
    if UnderAny(up, rank, k, list[..i]) {
      var j :| 0 <= j < i && Under(up, rank, k, list[j]);
      assert list[j] in v.children[h];
      SiblingsApart(up, rank, k, list[j]);
    }
    AnySplit(v, up, rank, list, i);
    AnyClosed(v, up, rank, list[..i]);
    MinusTwice(Detach(v, h), gone, more);
    assert gone + more == OwnedByAny(v, up, rank, list[..i + 1]);
  }

  lemma {:induction false} AnySplit(v: View, up: map<Handle, Handle>, rank: map<Handle, nat>, list: seq<Handle>, i: nat)
    requires Ranked(up, rank) && i < |list|
    ensures forall x :: UnderAny(up, rank, x, list[..i + 1]) <==>
                        UnderAny(up, rank, x, list[..i]) || Under(up, rank, x, list[i])
  {
    forall x
      ensures UnderAny(up, rank, x, list[..i + 1]) <==>
              UnderAny(up, rank, x, list[..i]) || Under(up, rank, x, list[i])
    {
      if UnderAny(up, rank, x, list[..i]) {
        var j :| 0 <= j < i && Under(up, rank, x, list[..i][j]);
        assert list[..i + 1][j] == list[j];
      }
      if Under(up, rank, x, list[i]) { assert list[..i + 1][i] == list[i]; }
    }
  }

  /** The handles whose children are being collected all own h. */
  ghost predicate OnStack(up: map<Handle, Handle>, rank: map<Handle, nat>, open: set<Handle>, h: Handle)
    requires Ranked(up, rank)
  {
    forall o :: o in open ==> o != h && Under(up, rank, h, o)
  }

  lemma {:induction false} NotOpen(v: View, up: map<Handle, Handle>, rank: map<Handle, nat>, open: set<Handle>, h: Handle)
    requires Linked(v, up, rank, open) && OnStack(up, rank, open, h)
    ensures Ranked(up, rank) && h !in open
  {
  }

  lemma {:induction false} ChildOnStack(v: View, up: map<Handle, Handle>, rank: map<Handle, nat>, open: set<Handle>, h: Handle, k: Handle)
    requires Ranked(up, rank) && k in up && up[k] == h && OnStack(up, rank, open, h)
    ensures OnStack(up, rank, open + {h}, k)
  {
    forall o | o in open + {h} ensures o != k && Under(up, rank, k, o) {
      if o != h { UnderRank(up, rank, h, o); } else { assert Under(up, rank, h, h); }
    }
  }

  function Unlinked(kids: map<Handle, seq<Handle>>, h: Handle, owner: Handle): map<Handle, seq<Handle>> {
    map p | p in kids :: if p == owner then Without(kids[p], {h}) else kids[p]
  }

  lemma {:induction false} UnlinkedAt(kids: map<Handle, seq<Handle>>, h: Handle, owner: Handle, i: nat)
    requires owner in kids && Distinct(kids[owner]) && i <= |kids[owner]|
    requires i < |kids[owner]| ==> kids[owner][i] == h
    requires i == |kids[owner]| ==> h !in kids[owner]
    ensures i < |kids[owner]| ==> Unlinked(kids, h, owner) == kids[owner := kids[owner][..i] + kids[owner][i + 1..]]
    ensures i == |kids[owner]| ==> Unlinked(kids, h, owner) == kids
  {
    if i < |kids[owner]| { WithoutOne(kids[owner], {h}, i); } else { WithoutNothing(kids[owner], {h}); }
  }

  lemma {:induction false} UnlinkedNowhere(kids: map<Handle, seq<Handle>>, h: Handle, owner: Handle)
    requires owner !in kids
    ensures Unlinked(kids, h, owner) == kids
  {
  }

  /** Unlinking h from its owner and dropping its entries takes it out of every map and list. */
  lemma {:induction false} SelfGone(v: View, h: Handle)
    requires h !in v.children && h !in v.states
    requires forall p :: p in v.children && h in v.children[p] ==> h in v.parent && v.parent[h] == p
    ensures var kids := if h in v.parent then Unlinked(v.children, h, v.parent[h]) else v.children;
            View(v.resources - {h}, v.parent - {h}, kids, v.states, v.lastSeen - {h}) == Minus(v, {h})
  {
    var kids := if h in v.parent then Unlinked(v.children, h, v.parent[h]) else v.children;
    forall p | p in kids ensures kids[p] == Without(v.children[p], {h}) {
      if h !in v.children[p] { WithoutNothing(v.children[p], {h}); }
    }
    assert kids == Minus(v, {h}).children;
    assert v.states - {h} == v.states;
  }

  lemma {:induction false} FewerKeys<A, B>(a: map<Handle, A>, b: map<Handle, B>, h: Handle)
    requires h in b && a.Keys <= b.Keys - {h}
    ensures |a| < |b|
  {
    Sets.SubsetCount(a.Keys, b.Keys - {h});
    assert |b.Keys - {h}| == |b.Keys| - 1;
  }

  /** What the children of h own is below h, and not above it. */
  lemma {:induction false} BelowSelf(v: View, up: map<Handle, Handle>, rank: map<Handle, nat>, open: set<Handle>, h: Handle, list: seq<Handle>, x: Handle)
    requires Linked(v, up, rank, open) && h in v.children && list == v.children[h] && UnderAny(up, rank, x, list)
    ensures Under(up, rank, x, h) && x != h && !Under(up, rank, h, x)
  {
    var j :| 0 <= j < |list| && Under(up, rank, x, list[j]);
    assert list[j] in v.children[h] && list[j] in up && up[list[j]] == h;
    hide Linked;
    assert Under(up, rank, h, h);
    assert Under(up, rank, list[j], h);
    UnderTransitive(up, rank, x, list[j], h);
    UnderRank(up, rank, list[j], h);
    if x != list[j] { UnderRank(up, rank, x, list[j]); }
    if Under(up, rank, h, x) { UnderRank(up, rank, h, x); }
  }

  /** Once all children are gone, the rest is the handle itself. */
  lemma {:induction false} LastSelf(v: View, up: map<Handle, Handle>, rank: map<Handle, nat>, open: set<Handle>, h: Handle, list: seq<Handle>)
    requires Linked(v, up, rank, open) && h in v.resources && h !in open
    requires if h in v.children then list == v.children[h] else list == []
    ensures var gone := OwnedByAny(v, up, rank, list);
            && h !in gone && gone + {h} == Owned(v, up, rank, h)
            && Minus(Minus(Detach(v, h), gone), {h}) == Minus(v, Owned(v, up, rank, h))
            && forall x, y :: x in gone && y in {h} ==> !Under(up, rank, y, x)
  {
    assert Ranked(up, rank);
    hide Linked, Minus, Detach;
    var gone := OwnedByAny(v, up, rank, list);
    forall x | x in gone ensures Under(up, rank, x, h) && x != h && !Under(up, rank, h, x) {
      BelowSelf(v, up, rank, open, h, list, x);
    }
    forall x | x in Owned(v, up, rank, h) && x != h ensures x in gone {
      OwnedSplit(v, up, rank, open, h, x);
    }
    assert gone + {h} == Owned(v, up, rank, h);
    MinusTwice(Detach(v, h), gone, {h});
    MinusDetach(v, h, gone + {h});
  }

  lemma {:induction false} MinusDetach(v: View, h: Handle, gone: set<Handle>)
    requires h in gone
    ensures Minus(Detach(v, h), gone) == Minus(v, gone)
  {
    assert Minus(Detach(v, h), gone).children == Minus(v, gone).children;
  }

  /** Between operations the current ownership can serve as the reference. */
  lemma {:induction false} Relink(v: View, up: map<Handle, Handle>, rank: map<Handle, nat>)
    requires Linked(v, up, rank, {})
    ensures Linked(v, v.parent, rank, {})
  {
  }

  // ------------------------------------------------------------- registering

  /** A new child: the handle is new to every map, the owner need not be known. */
  ghost predicate Fresh(v: View, h: Handle, owner: Handle) {
    && h != owner && h !in v.resources && h !in v.parent && h !in v.children
    && (forall x :: x in v.parent ==> v.parent[x] != h)
  }

  function RankWith(rank: map<Handle, nat>, h: Handle, owner: Handle): map<Handle, nat> {
    if owner in rank then rank[h := rank[owner] + 1] else rank[owner := 0][h := 1]
  }

  function Appended(kids: map<Handle, seq<Handle>>, owner: Handle, h: Handle): map<Handle, seq<Handle>> {
    kids[owner := (if owner in kids then kids[owner] else []) + [h]]
  }

  function WithChild(v: View, h: Handle, owner: Handle, res: Resource, now: int): View {
    v.(resources := v.resources[h := res], parent := v.parent[h := owner],
       children := Appended(v.children, owner, h),
       lastSeen := v.lastSeen[h := now])
  }

  /** A new root. */
  function WithRoot(v: View, h: Handle, res: Resource, now: int): View {
    v.(resources := v.resources[h := res], lastSeen := v.lastSeen[h := now])
  }

  lemma {:induction false} RootLinked(v: View, rank: map<Handle, nat>, h: Handle, res: Resource, now: int)
    requires Linked(v, v.parent, rank, {}) && h !in v.resources
    ensures Linked(WithRoot(v, h, res, now), v.parent, rank, {})
  {
  }

  lemma {:induction false} RankedWith(up: map<Handle, Handle>, rank: map<Handle, nat>, h: Handle, owner: Handle)
    requires Ranked(up, rank) && h != owner && h !in up && forall x :: x in up ==> up[x] != h
    ensures Ranked(up[h := owner], RankWith(rank, h, owner))
  {
  }

  lemma {:induction false} ChildLinked(v: View, rank: map<Handle, nat>, h: Handle, owner: Handle, res: Resource, now: int)
    requires Linked(v, v.parent, rank, {}) && Fresh(v, h, owner)
    ensures Linked(WithChild(v, h, owner, res, now), v.parent[h := owner], RankWith(rank, h, owner), {})
  {
    RankedWith(v.parent, rank, h, owner);
    ChildListed(v, rank, h, owner, res, now);
    hide Ranked, RankWith, Distinct;
    var w := WithChild(v, h, owner, res, now);
    assert w.parent == v.parent[h := owner] && w.resources.Keys == v.resources.Keys + {h};
  }

  lemma {:induction false} ChildListed(v: View, rank: map<Handle, nat>, h: Handle, owner: Handle, res: Resource, now: int)
    requires Linked(v, v.parent, rank, {}) && Fresh(v, h, owner)
    ensures var w := WithChild(v, h, owner, res, now);
            && (forall p :: p in w.children ==> Distinct(w.children[p]))
            && (forall p, x :: p in w.children && x in w.children[p] ==> x in w.parent && w.parent[x] == p)
            && (forall x :: x in w.parent ==> w.parent[x] in w.children && x in w.children[w.parent[x]])
  {
    hide Ranked;
    var w := WithChild(v, h, owner, res, now);
    var list := if owner in v.children then v.children[owner] else [];
    assert h !in list && Distinct(list);
    AppendDistinct(list, h);
    assert w.children[owner] == list + [h];
  }

  lemma {:induction false} AppendDistinct(list: seq<Handle>, h: Handle)
    requires Distinct(list) && h !in list
    ensures Distinct(list + [h])
    ensures forall x :: x in list + [h] <==> x in list || x == h
  {
  }

  // ---------------------------------------------------------------- cleaning up

  /** Where a chain of owners ends. */
  ghost function Root(up: map<Handle, Handle>, rank: map<Handle, nat>, x: Handle): Handle
    requires Ranked(up, rank)
    decreases if x in rank then rank[x] else 0
  {
    if x in up then Root(up, rank, up[x]) else x
  }

  lemma {:induction false} SameRoot(up: map<Handle, Handle>, rank: map<Handle, nat>, x: Handle, h: Handle)
    requires Ranked(up, rank) && Under(up, rank, x, h)
    ensures Root(up, rank, x) == Root(up, rank, h)
    decreases if x in rank then rank[x] else 0
  {
    if x != h { SameRoot(up, rank, up[x], h); }
  }

  /** Those of the handles that are there. */
  function Present(v: View, reap: seq<Handle>): (r: seq<Handle>)
    ensures forall i :: 0 <= i < |r| ==> r[i] in v.resources
  {
    if reap == [] then []
    else
      var rest, h := Present(v, reap[..|reap| - 1]), reap[|reap| - 1];
      if h in v.resources then rest + [h] else rest
  }

  /** One more handle to reap; a handle already gone owns nothing any more. */
  lemma {:induction false} NextReaped(v: View, up: map<Handle, Handle>, rank: map<Handle, nat>, reap: seq<Handle>, i: nat)
    requires Linked(v, up, rank, {}) && i < |reap| && reap[i] in v.resources
    ensures var gone := OwnedByAny(v, up, rank, reap[..i]); var w := Minus(v, gone);
            var more := if reap[i] in w.resources then Owned(w, up, rank, reap[i]) else {};
            && gone + more == OwnedByAny(v, up, rank, reap[..i + 1]) && gone !! more
            && Minus(w, more) == Minus(v, gone + more)
            && Linked(w, up, rank, {})
            && forall x, y :: x in gone && y in more ==> !Under(up, rank, y, x)
  {
    var gone := OwnedByAny(v, up, rank, reap[..i]);
    var w := Minus(v, gone);
    var more := if reap[i] in w.resources then Owned(w, up, rank, reap[i]) else {};
    AnySplit(v, up, rank, reap, i);
    AnyClosed(v, up, rank, reap[..i]);
    LinkedMinus(v, up, rank, {}, gone);
    MinusTwice(v, gone, more);
    forall x | x in v.resources && Under(up, rank, x, reap[i]) ensures x in gone + more {}
    assert gone + more == OwnedByAny(v, up, rank, reap[..i + 1]);
  }

  /** a lies on the way from x up to h. */
  ghost predicate Passed(up: map<Handle, Handle>, rank: map<Handle, nat>, x: Handle, h: Handle, a: Handle)
    requires Ranked(up, rank)
  {
    Under(up, rank, x, a) && (a == h || !Under(up, rank, h, a))
  }

  lemma {:induction false} PassedStep(up: map<Handle, Handle>, rank: map<Handle, nat>, x: Handle, h: Handle)
    requires Ranked(up, rank) && Under(up, rank, x, h) && h in up
    ensures Under(up, rank, x, up[h])
    ensures forall a :: Passed(up, rank, x, up[h], a) <==> Passed(up, rank, x, h, a) || a == up[h]
  {
    assert Under(up, rank, up[h], up[h]);
    assert Under(up, rank, h, up[h]);
    UnderTransitive(up, rank, x, h, up[h]);
    if Under(up, rank, up[h], h) { UnderRank(up, rank, up[h], h); }
  }

  const SECOND: int := 1_000_000_000

  /** touchStamp: a stamp up to a second old is left alone. */
  function Touched(stamp: int, now: int): (r: int)
    ensures now - r <= 1_000_000_000 && (r == stamp || r == now)
    ensures now - stamp <= 1_000_000_000 ==> r == stamp
  {
    if now - stamp > SECOND then now else stamp
  }
}
