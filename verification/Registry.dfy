/** The handle registry and its cascade delete. Child lists are slices: a header in the
    map over a backing array that removals shift in place. */
module Registry {
  import opened Forest
  import C = Cleanup
  import Sets

  const EMPTY := View(map[], map[], map[], map[], map[])

  lemma {:induction false} SetTwice(m: map<Handle, seq<Handle>>, k: Handle, x: seq<Handle>, y: seq<Handle>)
    ensures m[k := x][k := y] == m[k := y]
  {
  }

  lemma {:induction false} EmptyLinked()
    ensures Linked(EMPTY, map[], map[], {})
  {
  }

  datatype Slice = Slice(buf: array<Handle>, len: nat)

  ghost function BuffersOf(c: map<Handle, Slice>): set<array<Handle>> {
    set p | p in c :: c[p].buf
  }

  ghost predicate SlicesOf(c: map<Handle, Slice>) {
    && (forall p :: p in c ==> c[p].len <= c[p].buf.Length)
    && (forall p, q :: p in c && q in c && p != q ==> c[p].buf != c[q].buf)
  }

  /** A shorter slice over the same array, or one over an array of its own. */
  lemma {:induction false} Resliced(c: map<Handle, Slice>, owner: Handle, x: Slice)
    requires SlicesOf(c) && x.len <= x.buf.Length
    requires x.buf !in BuffersOf(c) || (owner in c && c[owner].buf == x.buf)
    ensures SlicesOf(c[owner := x])
    ensures owner in c && c[owner].buf == x.buf ==> BuffersOf(c[owner := x]) == BuffersOf(c)
    ensures BuffersOf(c[owner := x]) <= BuffersOf(c) + {x.buf}
  {
    var d := c[owner := x];
    forall p | p in c ensures c[p].buf in BuffersOf(c) {}
    if owner in c && c[owner].buf == x.buf {
      assert forall p :: p in d ==> p in c && d[p].buf == c[p].buf;
      assert forall p :: p in c ==> p in d && d[p].buf == c[p].buf;
    }
  }

  class Registry {
    var resources: map<Handle, Resource>
    var parent: map<Handle, Handle>
    var children: map<Handle, Slice>
    var dcSendStates: map<Handle, SendState>
    var lastSeen: map<Handle, int>

    ghost function Buffers(): set<array<Handle>>
      reads this`children
    {
      BuffersOf(children)
    }

    /** Slices lie inside their arrays and no two share one. */
    ghost predicate Slices()
      reads this`children
    {
      SlicesOf(children)
    }

    ghost function Kids(): map<Handle, seq<Handle>>
      requires Slices()
      reads this`children, Buffers()
    {
      map p | p in children :: children[p].buf[..children[p].len]
    }

    ghost function Value(): View
      requires Slices()
      reads this, Buffers()
    {
      View(resources, parent, Kids(), dcSendStates, lastSeen)
    }

    /** Between operations every link agrees both ways. */
    ghost predicate Valid(rank: map<Handle, nat>)
      reads this, Buffers()
    {
      Slices() && Linked(Value(), parent, rank, {})
    }

    /** With `EmptyLinked`, a new registry is Valid. */
    constructor ()
      ensures Slices() && Buffers() == {} && Value() == EMPTY
    {
      resources, parent, children, dcSendStates, lastSeen := map[], map[], map[], map[], map[];
      new;
      assert Kids() == map[];
    }

    // ------------------------------------------------------------ child lists

    /** append(kids[:i], kids[i+1:]...): everything behind i moves down one place. */
    static method ShiftLeft(buf: array<Handle>, i: nat, len: nat)
      requires i < len <= buf.Length
      modifies buf
      ensures buf[..len - 1] == old(buf[..i]) + old(buf[i + 1..len])
    {
      var j := i;
      while j + 1 < len
        invariant i <= j < len
        invariant forall k :: 0 <= k < i ==> buf[k] == old(buf[k])
        invariant forall k :: i <= k < j ==> buf[k] == old(buf[k + 1])
        invariant forall k :: j < k < len ==> buf[k] == old(buf[k])
      {
        buf[j] := buf[j + 1];
        j := j + 1;
      }
      ghost var want := old(buf[..i]) + old(buf[i + 1..len]);
      forall k | 0 <= k < len - 1 ensures buf[k] == want[k] {
        if k < i {
          assert buf[k] == old(buf[k]) == old(buf[..i])[k];
        } else {
          assert buf[k] == old(buf[k + 1]) == old(buf[i + 1..len])[k - i];
        }
      }
    }

    /** The shift, seen from the map: only this list changes, up to its last place. */
    method ShiftKids(owner: Handle, i: nat)
      requires Slices() && owner in children && i < children[owner].len
      modifies children[owner].buf
      ensures owner in Kids() && |Kids()[owner]| == children[owner].len
      ensures Kids()[owner][..children[owner].len - 1] == old(Kids())[owner][..i] + old(Kids())[owner][i + 1..]
      ensures Kids() == old(Kids())[owner := Kids()[owner]]
    {
      ghost var list := Kids()[owner];
      ShiftLeft(children[owner].buf, i, children[owner].len);
      assert Kids()[owner][..children[owner].len - 1] == list[..i] + list[i + 1..];
    }

    method Shorten(owner: Handle)
      requires Slices() && owner in children && 0 < children[owner].len
      modifies this`children
      ensures Slices() && Buffers() == old(Buffers()) && children.Keys == old(children).Keys
      ensures Kids() == old(Kids())[owner := old(Kids())[owner][..old(children)[owner].len - 1]]
    {
      hide SlicesOf, BuffersOf;
      KidsAt(owner);
      var slice := children[owner];
      Resliced(children, owner, Slice(slice.buf, slice.len - 1));
      ghost var list := Kids()[owner];
      children := children[owner := Slice(slice.buf, slice.len - 1)];
      assert slice.buf[..slice.len - 1] == list[..slice.len - 1];
      assert Kids() == old(Kids())[owner := list[..slice.len - 1]];
    }

    method RemoveAt(owner: Handle, i: nat)
      requires Slices() && owner in children && i < children[owner].len
      modifies this`children, children[owner].buf
      ensures Slices() && Buffers() == old(Buffers()) && children.Keys == old(children).Keys
      ensures Kids() == old(Kids())[owner := old(Kids())[owner][..i] + old(Kids())[owner][i + 1..]]
    {
      ghost var before := Kids();
      hide SlicesOf, BuffersOf, Kids;
      ShiftKids(owner, i);
      ghost var list := Kids()[owner];
      Shorten(owner);
      SetTwice(before, owner, list, list[..|list| - 1]);
    }

    static method FindKid(slice: Slice, handle: Handle) returns (i: nat)
      requires slice.len <= slice.buf.Length
      ensures i <= slice.len
      ensures i < slice.len ==> slice.buf[i] == handle
      ensures i == slice.len ==> handle !in slice.buf[..slice.len]
    {
      i := 0;
      while i < slice.len
        invariant 0 <= i <= slice.len
        invariant forall j :: 0 <= j < i ==> slice.buf[j] != handle
      {
        if slice.buf[i] == handle {
          return;
        }
        i := i + 1;
      }
    }

    /** Takes handle out of its owner's list, shifting the rest left in place. */
    method Unlink(handle: Handle, owner: Handle)
      requires Slices()
      requires owner in children ==> Distinct(Kids()[owner])
      modifies this`children, Buffers()
      ensures Slices() && Buffers() == old(Buffers()) && children.Keys == old(children).Keys
      ensures Kids() == Unlinked(old(Kids()), handle, owner)
    {
      hide Unlinked, Distinct;
      if owner in children {
        var i := FindKid(children[owner], handle);
        UnlinkedAt(Kids(), handle, owner, i);
        if i < children[owner].len {
          RemoveAt(owner, i);
        }
      } else {
        UnlinkedNowhere(Kids(), handle, owner);
      }
    }

    // ---------------------------------------------------------- one handle's entries

    /** The handle's own send state and closer. */
    method TakeSelf(handle: Handle, acc: Harvest, ghost up: map<Handle, Handle>, ghost rank: map<Handle, nat>)
      returns (acc': Harvest)
      requires Slices() && Ranked(up, rank) && handle in resources
      modifies this`dcSendStates
      ensures dcSendStates == old(dcSendStates) - {handle}
      ensures Slices() && Value() == old(Value()).(states := old(dcSendStates) - {handle})
      ensures Harvested(acc, acc', old(Value()), {handle}, up, rank)
    {
      hide Gathered;
      var closers, states := acc.closers, acc.states;
      if handle in dcSendStates {
        GatheredOne(states, dcSendStates, handle, up, rank);
        states := states + [Taken(handle, dcSendStates[handle])];
        dcSendStates := dcSendStates - {handle};
      } else {
        GatheredNone(states, dcSendStates, {handle}, up, rank);
      }
      if resources[handle].closable {
        GatheredOne(closers, Closable(resources), handle, up, rank);
        closers := closers + [Taken(handle, resources[handle])];
      } else {
        GatheredNone(closers, Closable(resources), {handle}, up, rank);
      }
      acc' := Harvest(closers, states);
    }

    method DropEntries(handle: Handle)
      requires Slices()
      modifies this`resources, this`parent, this`lastSeen
      ensures Slices() && Kids() == old(Kids())
      ensures resources == old(resources) - {handle} && lastSeen == old(lastSeen) - {handle}
      ensures parent == old(parent) - {handle}
    {
      parent := parent - {handle};
      resources := resources - {handle};
      lastSeen := lastSeen - {handle};
    }

    /** The rest of the handle's entries, once its children are gone. */
    method RemoveSelf(handle: Handle)
      requires Slices() && handle in resources && handle !in children && handle !in dcSendStates
      requires forall p :: p in children ==> Distinct(Kids()[p])
      requires forall p :: p in children && handle in Kids()[p] ==> handle in parent && parent[handle] == p
      modifies this, Buffers()
      ensures Slices() && Buffers() == old(Buffers()) && children.Keys == old(children).Keys
      ensures Value() == Minus(old(Value()), {handle})
    {
      ghost var v := Value();
      SelfGone(v, handle);
      hide Distinct, Unlinked, Minus;
      ghost var kids := if handle in v.parent then Unlinked(v.children, handle, v.parent[handle]) else v.children;
      if handle in parent {
        Unlink(handle, parent[handle]);
      }
      assert Kids() == kids;
      DropEntries(handle);
    }

    // ------------------------------------------------------------- the cascade

    /** Walks a child list that is no longer in the map, so that what the recursion
        removes from live lists never shifts it. v is the registry before it was
        taken out. */
    method CollectList(slice: Slice, handle: Handle, acc: Harvest, ghost v: View,
                       ghost up: map<Handle, Handle>, ghost rank: map<Handle, nat>, ghost open: set<Handle>)
      returns (acc': Harvest)
      requires Linked(v, up, rank, open) && OnStack(up, rank, open, handle) && handle in v.children
      requires slice.len <= slice.buf.Length && slice.buf[..slice.len] == v.children[handle]
      requires Slices() && slice.buf !in Buffers() && Value() == Detach(v, handle)
      modifies this, Buffers()
      ensures Slices() && Buffers() <= old(Buffers()) && children.Keys <= old(children).Keys
      ensures Linked(Value(), up, rank, open + {handle})
      ensures var gone := OwnedByAny(v, up, rank, v.children[handle]);
              Value() == Minus(Detach(v, handle), gone) && Harvested(acc, acc', v, gone, up, rank)
      decreases |children|, 2
    {
      acc' := acc;
      ghost var list := v.children[handle];
      DetachLinked(v, up, rank, open, handle);
      StartChildren(v, up, rank, handle);
      HarvestedNone(acc, v, up, rank);
      assert list[..0] == [];
      assert Walked(v, Value(), up, rank, open, handle, 0, acc, acc');
      hide Linked, Walked, Minus, Harvested, OwnedByAny, Owned, Detach, OnStack, Slices, Kids;
      var i := 0;
      while i < slice.len
        invariant 0 <= i <= slice.len == |list| && slice.len <= slice.buf.Length
        invariant slice.buf[..slice.len] == list && slice.buf !in Buffers()
        invariant Slices() && Buffers() <= old(Buffers()) && children.Keys <= old(children).Keys
        invariant Walked(v, Value(), up, rank, open, handle, i, acc, acc')
      {
        ListedChild(v, Value(), up, rank, open, handle, i, acc, acc');
        Sets.SubsetCount(children.Keys, old(children).Keys);
        ghost var w, before := Value(), acc';
        acc' := Collect(slice.buf[i], acc', up, rank, open + {handle});
        MoreChildren(v, w, up, rank, open, handle, i, acc, before, acc');
        i := i + 1;
      }
      WalkedAll(v, Value(), up, rank, open, handle, acc, acc');
    }

    method TakeList(handle: Handle) returns (slice: Slice)
      requires Slices() && handle in children
      modifies this`children
      ensures Slices() && Buffers() <= old(Buffers()) && children.Keys <= old(children).Keys && |children| < |old(children)|
      ensures Value() == Detach(old(Value()), handle) && slice.buf !in Buffers() && slice.buf in old(Buffers())
      ensures slice.len <= slice.buf.Length && slice.buf[..slice.len] == old(Kids())[handle]
    {
      slice := children[handle];
      FewerKeys(children - {handle}, children, handle);
      children := children - {handle};
      assert Kids() == old(Kids()) - {handle};
    }

    /** Takes the child list out of the map, then walks it. */
    method CollectChildren(handle: Handle, acc: Harvest,
                           ghost up: map<Handle, Handle>, ghost rank: map<Handle, nat>, ghost open: set<Handle>)
      returns (acc': Harvest)
      requires Slices() && Linked(Value(), up, rank, open) && OnStack(up, rank, open, handle)
      requires handle in resources && handle in children
      modifies this, Buffers()
      ensures Slices() && Buffers() <= old(Buffers()) && children.Keys <= old(children).Keys
      ensures Linked(Value(), up, rank, open + {handle})
      ensures var v := old(Value()); var gone := OwnedByAny(v, up, rank, v.children[handle]);
              Value() == Minus(Detach(v, handle), gone) && Harvested(acc, acc', v, gone, up, rank)
      decreases |children|, 0
    {
      hide Linked, Minus, Harvested, OwnedByAny, OnStack, SlicesOf, BuffersOf, Detach;
      ghost var v := Value();
      var slice := TakeList(handle);
      acc' := CollectList(slice, handle, acc, v, up, rank, open);
    }

    /** Detaches handle, and recursively its children, from all five maps, adding what
        has to be shut down to the accumulators. */
    method Collect(handle: Handle, acc: Harvest,
                   ghost up: map<Handle, Handle>, ghost rank: map<Handle, nat>, ghost open: set<Handle>)
      returns (acc': Harvest)
      requires Slices() && Linked(Value(), up, rank, open) && OnStack(up, rank, open, handle)
      modifies this, Buffers()
      ensures Slices() && Buffers() <= old(Buffers()) && children.Keys <= old(children).Keys
      ensures Linked(Value(), up, rank, open)
      ensures handle !in old(resources) ==> Value() == old(Value()) && acc' == acc
      ensures handle in old(resources) ==>
                var v := old(Value()); var gone := Owned(v, up, rank, handle);
                Value() == Minus(v, gone) && Harvested(acc, acc', v, gone, up, rank)
      decreases |children|, 1
    {
      hide Linked, Minus, Harvested, OwnedByAny, Owned, Detach, OnStack, SlicesOf, BuffersOf;
      acc' := acc;
      if handle !in resources {
        return;
      }
      ghost var v := Value();
      ghost var list: seq<Handle> := if handle in children then Kids()[handle] else [];
      NotOpen(v, up, rank, open, handle);
      LastSelf(v, up, rank, open, handle, list);
      StartChildren(v, up, rank, handle);
      HarvestedNone(acc, v, up, rank);
      ghost var gone, o := OwnedByAny(v, up, rank, list), open;
      if handle in children {
        acc' := CollectChildren(handle, acc', up, rank, open);
        o := open + {handle};
      }
      ghost var w, before := Value(), acc';
      SelfReady(v, w, up, rank, o, gone, handle);
      acc' := TakeSelf(handle, acc', up, rank);
      RemoveSelf(handle);
      WithSelf(v, w, up, rank, open, handle, list, acc, before, acc');
    }

    // ------------------------------------------------------------ the operations

    /** Removes a handle with everything it owns; what has to be shut down comes back
        once each, owned before owner. */
    method Delete(handle: Handle, ghost rank: map<Handle, nat>) returns (ok: bool, acc: Harvest)
      requires Valid(rank)
      modifies this, Buffers()
      ensures Valid(rank)
      ensures ok <==> handle in old(resources)
      ensures !ok ==> Value() == old(Value()) && acc == Harvest([], [])
      ensures ok ==>
                var v := old(Value()); var gone := Owned(v, v.parent, rank, handle);
                Value() == Minus(v, gone) && Harvested(Harvest([], []), acc, v, gone, v.parent, rank)
      ensures Value() == C.Served(old(Value()), rank, C.Delete(handle))
    {
      hide Linked, Harvested, Minus, Owned, SlicesOf, BuffersOf;
      C.LinkedRanked(Value(), rank);
      acc := Harvest([], []);
      if handle !in resources {
        return false, acc;
      }
      ghost var up := parent;
      acc := Collect(handle, acc, up, rank, {});
      Relink(Value(), up, rank);
      return true, acc;
    }

    /** The write-locked pass of a cleanup: reaps handle after handle, some of which may be
        gone by then. */
    method Reap(reap: seq<Handle>, ghost rank: map<Handle, nat>) returns (acc: Harvest)
      requires Valid(rank)
      modifies this, Buffers()
      ensures Valid(rank)
      ensures var v := old(Value()); var gone := OwnedByAny(v, v.parent, rank, Present(v, reap));
              Value() == Minus(v, gone) && Harvested(Harvest([], []), acc, v, gone, v.parent, rank)
      ensures Value() == C.Reaped(old(Value()), rank, reap)
    {
      hide Linked, Harvested, Minus, Owned, OwnedByAny, Present, Reaped, OnStack, SlicesOf, BuffersOf;
      acc := Harvest([], []);
      ghost var v, up := Value(), parent;
      ReapNone(v, up, rank, reap);
      var i := 0;
      while i < |reap|
        invariant 0 <= i <= |reap| && Slices() && Buffers() <= old(Buffers())
        invariant Reaped(v, Value(), up, rank, reap[..i], acc)
      {
        acc := ReapOne(reap, i, acc, v, up, rank);
        i := i + 1;
      }
      assert reap[..i] == reap;
      ReapReady(v, Value(), up, rank, reap, acc);
      Relink(Value(), up, rank);
    }

    method ReapOne(reap: seq<Handle>, i: nat, acc: Harvest, ghost v: View, ghost up: map<Handle, Handle>, ghost rank: map<Handle, nat>)
      returns (acc': Harvest)
      requires i < |reap| && Slices() && Reaped(v, Value(), up, rank, reap[..i], acc)
      modifies this, Buffers()
      ensures Slices() && Buffers() <= old(Buffers()) && Reaped(v, Value(), up, rank, reap[..i + 1], acc')
    {
      hide Linked, Harvested, Minus, Owned, OwnedByAny, Present, Reaped, OnStack, SlicesOf, BuffersOf;
      ghost var w := Value();
      ReapReady(v, w, up, rank, reap[..i], acc);
      acc' := Collect(reap[i], acc, up, rank, {});
      ReapMore(v, w, Value(), up, rank, reap, i, acc, acc');
    }

    /** Register, with the handle the generator chose. */
    method Register(handle: Handle, res: Resource, now: int, ghost rank: map<Handle, nat>)
      requires Valid(rank) && handle !in resources
      modifies this`resources, this`lastSeen
      ensures C.Possible(old(Value()), C.Register(handle, res, now))
      ensures Valid(rank) && Value() == C.Served(old(Value()), rank, C.Register(handle, res, now))
      ensures resources == old(resources)[handle := res] && lastSeen == old(lastSeen)[handle := now]
    {
      hide Linked, SlicesOf, BuffersOf;
      RootLinked(Value(), rank, handle, res, now);
      resources := resources[handle := res];
      lastSeen := lastSeen[handle := now];
      assert Kids() == old(Kids());
    }

    /** A channel has at most one send state: a second one is refused. */
    method RegisterDCSendState(handle: Handle, state: SendState, ghost rank: map<Handle, nat>) returns (ok: bool)
      requires Valid(rank)
      modifies this`dcSendStates
      ensures ok <==> handle !in old(dcSendStates)
      ensures dcSendStates == if ok then old(dcSendStates)[handle := state] else old(dcSendStates)
      ensures Valid(rank) && Value() == C.Served(old(Value()), rank, C.KeepStates(dcSendStates))
    {
      hide Linked, SlicesOf, BuffersOf;
      StatesFree(Value(), parent, rank, dcSendStates[handle := state]);
      if handle in dcSendStates { return false; }
      dcSendStates := dcSendStates[handle := state];
      assert Kids() == old(Kids());
      return true;
    }

    method StoreEntries(handle: Handle, res: Resource, owner: Handle, now: int)
      requires Slices()
      modifies this`resources, this`parent, this`lastSeen
      ensures Slices() && Kids() == old(Kids())
      ensures resources == old(resources)[handle := res] && parent == old(parent)[handle := owner]
      ensures lastSeen == old(lastSeen)[handle := now]
    {
      resources := resources[handle := res];
      parent := parent[handle := owner];
      lastSeen := lastSeen[handle := now];
    }

    /** append on the owner's slice, into a new backing array. */
    method Append(owner: Handle, handle: Handle)
      requires Slices()
      modifies this`children
      ensures Slices() && fresh(Buffers() - old(Buffers()))
      ensures Kids() == Appended(old(Kids()), owner, handle)
    {
      hide BuffersOf, SlicesOf;
      var a := Grown(owner, handle);
      Store(owner, a);
    }

    /** The owner's list with one more entry, in an array of its own. */
    method Grown(owner: Handle, handle: Handle) returns (a: array<Handle>)
      requires Slices()
      ensures fresh(a) && a !in Buffers()
      ensures a[..a.Length] == (if owner in Kids() then Kids()[owner] else []) + [handle]
    {
      if owner in children {
        KidsAt(owner);
        hide SlicesOf;
        a := Copy(children[owner], handle);
      } else {
        hide SlicesOf;
        a := new Handle[1];
        a[0] := handle;
      }
      assert a[..a.Length] == a[..];
    }

    lemma {:induction false} KidsAt(owner: Handle)
      requires Slices() && owner in children
      ensures children[owner].len <= children[owner].buf.Length
      ensures Kids()[owner] == children[owner].buf[..children[owner].len]
    {
    }

    method Store(owner: Handle, a: array<Handle>)
      requires Slices() && a !in Buffers()
      modifies this`children
      ensures Slices() && Buffers() <= old(Buffers()) + {a}
      ensures Kids() == old(Kids())[owner := a[..a.Length]]
    {
      Resliced(children, owner, Slice(a, a.Length));
      hide SlicesOf, BuffersOf;
      children := children[owner := Slice(a, a.Length)];
      assert Kids() == old(Kids())[owner := a[..a.Length]];
    }

    static method Copy(slice: Slice, handle: Handle) returns (a: array<Handle>)
      requires slice.len <= slice.buf.Length
      ensures fresh(a) && a[..] == slice.buf[..slice.len] + [handle]
    {
      a := new Handle[slice.len + 1];
      var i := 0;
      while i < slice.len
        invariant 0 <= i <= slice.len
        invariant forall j :: 0 <= j < i ==> a[j] == slice.buf[j]
      {
        a[i] := slice.buf[i];
        i := i + 1;
      }
      a[slice.len] := handle;
    }

    /** RegisterChild, with the handle the generator chose. */
    method RegisterChild(handle: Handle, res: Resource, owner: Handle, now: int, ghost rank: map<Handle, nat>)
      requires Valid(rank) && handle != owner && handle !in resources && handle !in parent && handle !in children
      requires forall x :: x in parent ==> parent[x] != handle
      modifies this
      ensures Valid(RankWith(rank, handle, owner))
      ensures C.Possible(old(Value()), C.RegisterChild(handle, owner, res, now))
      ensures Value() == C.Served(old(Value()), rank, C.RegisterChild(handle, owner, res, now))
      ensures resources == old(resources)[handle := res] && lastSeen == old(lastSeen)[handle := now]
      ensures parent == old(parent)[handle := owner]
      ensures owner in Kids() && Kids()[owner] == (if owner in old(Kids()) then old(Kids())[owner] else []) + [handle]
    {
      hide Linked, RankWith, SlicesOf, BuffersOf;
      ChildLinked(Value(), rank, handle, owner, res, now);
      StoreEntries(handle, res, owner, now);
      Append(owner, handle);
    }

    /** Follows the owners to the end of the chain. */
    method RootOf(handle: Handle, ghost rank: map<Handle, nat>) returns (h: Handle)
      requires Ranked(parent, rank)
      ensures h == Root(parent, rank, handle)
    {
      h := handle;
      while h in parent
        invariant Root(parent, rank, h) == Root(parent, rank, handle)
        decreases if h in rank then rank[h] else 0
      {
        h := parent[h];
      }
    }

    /** Refreshes a handle and all its owners, and nothing else: none of their stamps is then
        more than a second old. */
    method Touch(handle: Handle, now: int, ghost rank: map<Handle, nat>)
      requires Ranked(parent, rank)
      modifies this`lastSeen
      ensures lastSeen.Keys == old(lastSeen).Keys
      ensures forall a :: a in lastSeen ==>
                lastSeen[a] == if handle in old(lastSeen) && Under(parent, rank, handle, a)
                               then Touched(old(lastSeen)[a], now) else old(lastSeen)[a]
      ensures forall a :: handle in lastSeen && a in lastSeen && Under(parent, rank, handle, a) ==> now - lastSeen[a] <= 1_000_000_000
    {
      if handle in lastSeen {
        var h := handle;
        lastSeen := lastSeen[h := Touched(lastSeen[h], now)];
        while h in parent
          invariant lastSeen.Keys == old(lastSeen).Keys
          invariant Under(parent, rank, handle, h)
          invariant forall a :: a in lastSeen ==>
            lastSeen[a] == if Passed(parent, rank, handle, h, a)
                           then Touched(old(lastSeen)[a], now) else old(lastSeen)[a]
          decreases if h in rank then rank[h] else 0
        {
          PassedStep(parent, rank, handle, h);
          h := parent[h];
          if h in lastSeen {
            lastSeen := lastSeen[h := Touched(lastSeen[h], now)];
          }
        }
      }
    }

    /** The read-locked pass: which expired handles to reap and which to spare. */
    method Expired(now: int, maxAge: int, live: set<Handle>, ghost rank: map<Handle, nat>)
      returns (reap: seq<Handle>, spared: seq<Handle>)
      requires Ranked(parent, rank)
      ensures forall h :: h in reap <==>
                h in lastSeen && now - lastSeen[h] > maxAge &&
                !(Root(parent, rank, h) in resources && Root(parent, rank, h) in live)
      ensures forall h :: h in spared <==>
                h in lastSeen && now - lastSeen[h] > maxAge &&
                Root(parent, rank, h) in resources && Root(parent, rank, h) in live
      ensures Slices() ==> C.Dead(Value(), rank, live, reap)
    {
      reap, spared := [], [];
      var todo := lastSeen.Keys;
      while todo != {}
        invariant todo <= lastSeen.Keys
        invariant forall h :: h in reap <==>
                    h in lastSeen.Keys - todo && now - lastSeen[h] > maxAge &&
                    !(Root(parent, rank, h) in resources && Root(parent, rank, h) in live)
        invariant forall h :: h in spared <==>
                    h in lastSeen.Keys - todo && now - lastSeen[h] > maxAge &&
                    Root(parent, rank, h) in resources && Root(parent, rank, h) in live
        decreases todo
      {
        var h :| h in todo;
        todo := todo - {h};
        if now - lastSeen[h] > maxAge {
          var root := RootOf(h, rank);
          if root in resources && root in live {
            spared := spared + [h];
          } else {
            reap := reap + [h];
          }
        }
      }
    }
  }

  // ---------------------------------------------------------------- the joints

  lemma {:induction false} StatesFree(v: View, up: map<Handle, Handle>, rank: map<Handle, nat>, states: map<Handle, SendState>)
    requires Linked(v, up, rank, {})
    ensures Linked(v.(states := states), up, rank, {})
  {
  }

  /** A pass has got through these handles. */
  ghost predicate Reaped(v: View, w: View, up: map<Handle, Handle>, rank: map<Handle, nat>, done: seq<Handle>, acc: Harvest) {
    && Linked(v, up, rank, {}) && Linked(w, up, rank, {})
    && var gone := OwnedByAny(v, up, rank, Present(v, done));
       w == Minus(v, gone) && Harvested(Harvest([], []), acc, v, gone, up, rank)
  }

  lemma {:induction false} ReapNone(v: View, up: map<Handle, Handle>, rank: map<Handle, nat>, reap: seq<Handle>)
    requires Linked(v, up, rank, {})
    ensures Reaped(v, v, up, rank, reap[..0], Harvest([], []))
  {
    MinusNothing(v);
    HarvestedNone(Harvest([], []), v, up, rank);
    assert reap[..0] == [] && OwnedByAny(v, up, rank, []) == {};
  }

  lemma {:induction false} ReapReady(v: View, w: View, up: map<Handle, Handle>, rank: map<Handle, nat>, done: seq<Handle>, acc: Harvest)
    requires Reaped(v, w, up, rank, done, acc)
    ensures Ranked(up, rank) && Linked(w, up, rank, {})
    ensures forall h :: OnStack(up, rank, {}, h)
    ensures var gone := OwnedByAny(v, up, rank, Present(v, done));
            w == Minus(v, gone) && Harvested(Harvest([], []), acc, v, gone, up, rank)
  {
  }

  /** One more handle reaped. */
  lemma {:induction false} ReapMore(v: View, w: View, x: View, up: map<Handle, Handle>, rank: map<Handle, nat>, reap: seq<Handle>, i: nat,
                                    a: Harvest, b: Harvest)
    requires i < |reap| && Reaped(v, w, up, rank, reap[..i], a) && Ranked(up, rank) && Linked(x, up, rank, {})
    requires reap[i] !in w.resources ==> x == w && b == a
    requires reap[i] in w.resources ==>
               var gone := Owned(w, up, rank, reap[i]);
               x == Minus(w, gone) && Harvested(a, b, w, gone, up, rank)
    ensures Reaped(v, x, up, rank, reap[..i + 1], b)
  {
    hide Linked, Minus, OwnedByAny, Owned, Harvested;
    var h, p := reap[i], Present(v, reap[..i]);
    var gone, list := OwnedByAny(v, up, rank, p), p + [h];
    assert reap[..i + 1][..i] == reap[..i];
    ReapedKeys(v, w, up, rank, reap[..i], a);
    assert list[..|p|] == p && list[..|p| + 1] == list;
    if h in v.resources {
      NextReaped(v, up, rank, list, |p|);
      hide Present;
      if h in w.resources {
        HarvestedMore(Harvest([], []), a, b, v, w, gone, Owned(w, up, rank, h), up, rank);
      } else {
        assert gone + {} == gone;
      }
    }
  }

  lemma {:induction false} ReapedKeys(v: View, w: View, up: map<Handle, Handle>, rank: map<Handle, nat>, done: seq<Handle>, acc: Harvest)
    requires Reaped(v, w, up, rank, done, acc) && Ranked(up, rank)
    ensures var gone := OwnedByAny(v, up, rank, Present(v, done));
            w.resources == v.resources - gone && w.states == v.states - gone
  {
  }

  /** What removing the handle itself relies on. */
  lemma {:induction false} SelfReady(v: View, w: View, up: map<Handle, Handle>, rank: map<Handle, nat>, open: set<Handle>, gone: set<Handle>, h: Handle)
    requires Linked(w, up, rank, open) && w == Minus(Detach(v, h), gone) && h in v.resources && h !in gone
    ensures h in w.resources && h !in w.children
    ensures w.resources == v.resources - gone && w.states == v.states - gone
    ensures forall p :: p in w.children ==> Distinct(w.children[p])
    ensures forall p :: p in w.children && h in w.children[p] ==> h in w.parent && w.parent[h] == p
    ensures Minus(w.(states := w.states - {h}), {h}) == Minus(w, {h})
  {
    assert w.states - {h} - {h} == w.states - {h};
  }

  /** The first i children of h are gone with all they own, and harvested. */
  ghost predicate Walked(v: View, w: View, up: map<Handle, Handle>, rank: map<Handle, nat>, open: set<Handle>, h: Handle, i: nat,
                         a: Harvest, b: Harvest)
  {
    && Ranked(up, rank) && h in v.children && i <= |v.children[h]|
    && var gone := OwnedByAny(v, up, rank, v.children[h][..i]);
       && w == Minus(Detach(v, h), gone)
       && Linked(w, up, rank, open + {h})
       && Harvested(a, b, v, gone, up, rank)
  }

  lemma {:induction false} WalkedAll(v: View, w: View, up: map<Handle, Handle>, rank: map<Handle, nat>, open: set<Handle>, h: Handle, a: Harvest, b: Harvest)
    requires h in v.children && Walked(v, w, up, rank, open, h, |v.children[h]|, a, b)
    ensures var gone := OwnedByAny(v, up, rank, v.children[h]);
            w == Minus(Detach(v, h), gone) && Linked(w, up, rank, open + {h}) && Harvested(a, b, v, gone, up, rank)
  {
    assert v.children[h][..|v.children[h]|] == v.children[h];
  }

  lemma {:induction false} ListedChild(v: View, w: View, up: map<Handle, Handle>, rank: map<Handle, nat>, open: set<Handle>, h: Handle, i: nat, a: Harvest, b: Harvest)
    requires Linked(v, up, rank, open) && OnStack(up, rank, open, h) && h in v.children && i < |v.children[h]|
    requires Walked(v, w, up, rank, open, h, i, a, b)
    ensures OnStack(up, rank, open + {h}, v.children[h][i]) && Linked(w, up, rank, open + {h})
  {
    assert v.children[h][i] in v.children[h];
    ChildOnStack(v, up, rank, open, h, v.children[h][i]);
  }

  /** Nothing collected yet. */
  lemma {:induction false} StartChildren(v: View, up: map<Handle, Handle>, rank: map<Handle, nat>, h: Handle)
    requires Ranked(up, rank)
    ensures OwnedByAny(v, up, rank, []) == {}
    ensures Minus(Detach(v, h), {}) == Detach(v, h) && (h !in v.children ==> Detach(v, h) == v)
  {
    MinusNothing(Detach(v, h));
    if h !in v.children { assert v.children - {h} == v.children; }
  }

  /** One more child collected. */
  lemma {:induction false} MoreChildren(v: View, w: View, up: map<Handle, Handle>, rank: map<Handle, nat>, open: set<Handle>, h: Handle, i: nat,
                     a: Harvest, b: Harvest, c: Harvest)
    requires Linked(v, up, rank, open) && h in v.children && i < |v.children[h]|
    requires Walked(v, w, up, rank, open, h, i, a, b)
    requires var k := v.children[h][i];
             k in w.resources ==>
               && Harvested(b, c, w, Owned(w, up, rank, k), up, rank)
               && Linked(Minus(w, Owned(w, up, rank, k)), up, rank, open + {h})
    ensures var k := v.children[h][i];
            k in w.resources && Walked(v, Minus(w, Owned(w, up, rank, k)), up, rank, open, h, i + 1, a, c)
  {
    var list := v.children[h];
    NextChild(v, up, rank, open, h, list, i);
    var gone := OwnedByAny(v, up, rank, list[..i]);
    assert Ranked(up, rank) && w.resources == v.resources - gone && w.states == v.states - gone;
    hide Harvested, OwnedByAny, Owned, Linked, Minus;
    HarvestedMore(a, b, c, v, w, gone, Owned(w, up, rank, list[i]), up, rank);
  }

  /** The children and then the handle. */
  lemma {:induction false} WithSelf(v: View, w: View, up: map<Handle, Handle>, rank: map<Handle, nat>, open: set<Handle>, h: Handle, list: seq<Handle>,
                 a: Harvest, b: Harvest, c: Harvest)
    requires Linked(v, up, rank, open) && h in v.resources && h !in open
    requires if h in v.children then list == v.children[h] else list == []
    requires var gone := OwnedByAny(v, up, rank, list);
             && w == Minus(Detach(v, h), gone)
             && Harvested(a, b, v, gone, up, rank) && Harvested(b, c, w, {h}, up, rank)
    ensures var all := Owned(v, up, rank, h);
            && Harvested(a, c, v, all, up, rank)
            && Minus(w, {h}) == Minus(v, all) && Linked(Minus(v, all), up, rank, open)
  {
    var gone := OwnedByAny(v, up, rank, list);
    assert Ranked(up, rank) && w.resources == v.resources - gone && w.states == v.states - gone;
    hide Harvested, OwnedByAny, Owned, Linked, Minus;
    LastSelf(v, up, rank, open, h, list);
    OwnedClosed(v, up, rank, h);
    LinkedMinus(v, up, rank, open, Owned(v, up, rank, h));
    HarvestedMore(a, b, c, v, w, gone, {h}, up, rank);
  }
}
