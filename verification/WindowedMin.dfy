/** Minimum over a sliding time window, kept in a monotonic deque.

    The reference is the set of every sample ever pushed: the answer must be the
    least of those still inside the window. Times and durations are integers. */
module WindowedMin {
  datatype Entry = Entry(t: int, v: int)

  /** A sample no older than the cutoff. */
  ghost predicate Recent(all: set<Entry>, cutoff: int, e: Entry) {
    e in all && e.t >= cutoff
  }

  /** r is the least value of the samples no older than cutoff, or 0 without any. */
  ghost predicate IsMin(all: set<Entry>, cutoff: int, r: int) {
    if exists e :: Recent(all, cutoff, e)
    then (exists e :: Recent(all, cutoff, e) && e.v == r) &&
         (forall e :: Recent(all, cutoff, e) ==> r <= e.v)
    else r == 0
  }

  /** Times do not decrease, values strictly increase. */
  ghost predicate Monotonic(deque: seq<Entry>) {
    forall i, j :: 0 <= i < j < |deque| ==> deque[i].t <= deque[j].t && deque[i].v < deque[j].v
  }

  /** Some entry of the deque stands in for this sample: as recent and as small. */
  ghost predicate Dominated(deque: seq<Entry>, e: Entry) {
    exists k :: 0 <= k < |deque| && deque[k].t >= e.t && deque[k].v <= e.v
  }

  ghost predicate Represents(deque: seq<Entry>, all: set<Entry>, cutoff: int) {
    forall e :: Recent(all, cutoff, e) ==> Dominated(deque, e)
  }

  ghost predicate Drawn(deque: seq<Entry>, all: set<Entry>) {
    forall k :: 0 <= k < |deque| ==> deque[k] in all
  }

  ghost predicate NotAfter(deque: seq<Entry>, t: int) {
    forall k :: 0 <= k < |deque| ==> deque[k].t <= t
  }

  ghost predicate NotBefore(deque: seq<Entry>, t: int) {
    forall k :: 0 <= k < |deque| ==> deque[k].t >= t
  }

  /** Dropping everything before a later cutoff keeps the later window represented. */
  lemma {:induction false} PruneRepresents(deque: seq<Entry>, all: set<Entry>, c: int, c': int, n: nat)
    requires Represents(deque, all, c) && c <= c' && n <= |deque|
    requires forall k :: 0 <= k < n ==> deque[k].t < c'
    ensures Represents(deque[n..], all, c')
  {
    forall e | Recent(all, c', e) ensures Dominated(deque[n..], e) {
      assert Recent(all, c, e);
      var k :| 0 <= k < |deque| && deque[k].t >= e.t && deque[k].v <= e.v;
      assert deque[n..][k - n] == deque[k];
    }
  }

  /** Larger entries at the back are dominated by the new sample. */
  lemma {:induction false} PushRepresents(deque: seq<Entry>, all: set<Entry>, c: int, x: Entry, n: nat)
    requires Represents(deque, all, c) && n <= |deque| && NotAfter(deque, x.t)
    requires forall k :: n <= k < |deque| ==> deque[k].v >= x.v
    ensures Represents(deque[..n] + [x], all + {x}, c)
  {
    var d' := deque[..n] + [x];
    assert d'[n] == x;
    forall e | Recent(all + {x}, c, e) ensures Dominated(d', e) {
      if e != x {
        assert Recent(all, c, e);
        var k :| 0 <= k < |deque| && deque[k].t >= e.t && deque[k].v <= e.v;
        if k < n { assert d'[k] == deque[k]; }
      }
    }
  }

  lemma {:induction false} FrontIsMin(deque: seq<Entry>, all: set<Entry>, c: int)
    requires Monotonic(deque) && Drawn(deque, all) && Represents(deque, all, c) && NotBefore(deque, c)
    ensures IsMin(all, c, if deque == [] then 0 else deque[0].v)
  {
    if deque != [] {
      assert Recent(all, c, deque[0]);
      forall e | Recent(all, c, e) ensures deque[0].v <= e.v {
        var k :| 0 <= k < |deque| && deque[k].t >= e.t && deque[k].v <= e.v;
      }
    }
  }

  class WindowedMin {
    const window: int
    var deque: seq<Entry>
    /** Every sample pushed, and the time of the last call. */
    ghost var all: set<Entry>
    ghost var last: int

    ghost predicate Valid()
      reads this
    {
      && window > 0
      && Monotonic(deque) && Drawn(deque, all) && NotAfter(deque, last)
      && Represents(deque, all, last - window)
    }

    /** A window of zero or less means thirty seconds. */
    constructor (w: int, ghost start: int)
      ensures Valid() && window == (if w <= 0 then 30_000_000_000 else w)
      ensures all == {} && deque == [] && last == start
    {
      window := if w <= 0 then 30_000_000_000 else w;
      deque, all, last := [], {}, start;
    }

    method Prune(now: int)
      requires Valid() && now >= last
      modifies this`deque, this`last
      ensures Valid() && last == now && NotBefore(deque, now - window)
    {
      hide Represents, Dominated;
      if |deque| == 0 {
        PruneRepresents(deque, all, last - window, now - window, 0);
        last := now;
        return;
      }
      var cutoff := now - window;
      // sort.Search for the first entry not before the cutoff.
      var i, j := 0, |deque|;
      while i < j
        invariant 0 <= i <= j <= |deque|
        invariant forall k :: 0 <= k < i ==> deque[k].t < cutoff
        invariant forall k :: j <= k < |deque| ==> deque[k].t >= cutoff
      {
        var h := (i + j) / 2;
        if deque[h].t < cutoff { i := h + 1; } else { j := h; }
      }
      PruneRepresents(deque, all, last - window, cutoff, i);
      last := now;
      if i > 0 {
        deque := deque[i..];
      }
    }

    method Push(now: int, v: int)
      requires Valid() && now >= last
      modifies this
      ensures Valid() && last == now && all == old(all) + {Entry(now, v)}
    {
      Prune(now);
      hide Represents, Dominated;
      ghost var before := deque;
      var i := |deque|;
      while i > 0 && deque[i - 1].v >= v
        invariant 0 <= i <= |before| && deque == before[..i]
        invariant forall k :: i <= k < |before| ==> before[k].v >= v
        modifies this`deque
      {
        deque := deque[..i - 1];
        i := i - 1;
      }
      PushRepresents(before, all, now - window, Entry(now, v), i);
      deque := deque + [Entry(now, v)];
      all := all + {Entry(now, v)};
    }

    method Min(now: int) returns (r: int)
      requires Valid() && now >= last
      modifies this`deque, this`last
      ensures Valid() && last == now
      ensures IsMin(all, now - window, r)
    {
      Prune(now);
      hide Represents, Dominated, IsMin;
      FrontIsMin(deque, all, now - window);
      if |deque| == 0 {
        return 0;
      }
      return deque[0].v;
    }
  }
}
