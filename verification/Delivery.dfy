/** In-order delivery on one stream, as both reassembly queues do it, with the sequence
    numbers unwrapped: messages are numbered from 0 on, and fragments by their place in
    their message. `sizes` gives the number of fragments of each message.

    live: the messages the queue holds something of. got: the fragments that came. next:
    the message expected next. out: the messages delivered. skipped: those given up. */
module Delivery {
  import opened Sets

  datatype State = State(live: seq<nat>, got: map<nat, set<nat>>, next: nat, out: seq<nat>, skipped: set<nat>)

  datatype Op = Arrive(k: nat, i: nat) | Deliver | Skip(m: nat)

  const INIT := State([], map[], 0, [], {})

  function Got(st: State, k: nat): set<nat> { if k in st.got then st.got[k] else {} }

  /** Every fragment of message k is there. */
  predicate Full(sizes: seq<nat>, st: State, k: nat) {
    k < |sizes| && forall i :: 0 <= i < sizes[k] ==> i in Got(st, k)
  }

  /** Where message k goes. */
  function Insert(live: seq<nat>, k: nat): seq<nat> {
    if live == [] then [k]
    else
      var n := |live| - 1;
      if k < live[n] then Insert(live[..n], k) + [live[n]] else live + [k]
  }

  /** What giving up everything up to m leaves: later messages, and whole ones. */
  function Kept(sizes: seq<nat>, st: State, live: seq<nat>, m: nat): seq<nat> {
    if live == [] then []
    else
      var n := |live| - 1;
      var rest := Kept(sizes, st, live[..n], m);
      if live[n] > m || Full(sizes, st, live[n]) then rest + [live[n]] else rest
  }

  predicate CanDeliver(sizes: seq<nat>, st: State) {
    st.live != [] && st.live[0] <= st.next && Full(sizes, st, st.live[0])
  }

  predicate Enabled(sizes: seq<nat>, st: State, op: Op) {
    match op
    case Arrive(k, i) => k < |sizes| && i < sizes[k]
    case Deliver => CanDeliver(sizes, st)
    case Skip(m) => true
  }

  function Step(sizes: seq<nat>, st: State, op: Op): State
    requires Enabled(sizes, st, op)
  {
    match op
    case Arrive(k, i) =>
      if k < st.next then st
      else st.(got := st.got[k := Got(st, k) + {i}], live := if k in st.live then st.live else Insert(st.live, k))
    case Deliver =>
      var k := st.live[0];
      st.(live := st.live[1..], out := st.out + [k], next := if k == st.next then k + 1 else st.next)
    case Skip(m) =>
      st.(live := Kept(sizes, st, st.live, m), next := if st.next <= m then m + 1 else st.next,
          skipped := st.skipped + set k | st.next <= k <= m && !Full(sizes, st, k))
  }

  // ------------------------------------------------------------- the invariant

  ghost predicate Before(xs: seq<nat>, ys: seq<nat>) { forall x, y :: x in xs && y in ys ==> x < y }

  /** Everything delivered is before everything held, and was whole; below next nothing is
      held but whole messages; and nothing below next is lost: it was delivered, or is held,
      or was given up before it was whole. */
  ghost predicate Settled(sizes: seq<nat>, st: State) {
    && Ascending(st.live) && Ascending(st.out) && Before(st.out, st.live)
    && (forall k :: k in st.out ==> k < st.next && Full(sizes, st, k))
    && (forall k :: k in st.live ==> k < |sizes| && (k < st.next ==> Full(sizes, st, k)))
    && (forall k :: k in st.skipped ==> k < st.next && !Full(sizes, st, k))
    && (forall k: nat :: k < st.next ==> k in st.out || k in st.live || k in st.skipped)
  }

  /** A message that was not passed yet is held exactly if something of it came. */
  ghost predicate Gathered(sizes: seq<nat>, st: State) {
    && (forall k: nat :: k >= st.next && Got(st, k) != {} ==> k in st.live)
    && (forall k :: k in st.live ==> Got(st, k) != {})
    && (forall k: nat, i: nat :: i in Got(st, k) ==> k < |sizes| && i < sizes[k])
  }

  ghost predicate Inv(sizes: seq<nat>, st: State) {
    (forall k :: 0 <= k < |sizes| ==> sizes[k] > 0) && Settled(sizes, st) && Gathered(sizes, st)
  }

  /** The place of message k among these. */
  function Place(live: seq<nat>, k: nat): (p: nat)
    ensures p <= |live|
  {
    if live == [] then 0
    else
      var n := |live| - 1;
      if k < live[n] then Place(live[..n], k) else |live|
  }

  lemma {:induction false} InsertIsPlace(live: seq<nat>, k: nat)
    ensures var p := Place(live, k); Insert(live, k) == live[..p] + [k] + live[p..]
  {
    if live != [] {
      var n := |live| - 1;
      var p := Place(live[..n], k);
      if k < live[n] {
        InsertIsPlace(live[..n], k);
        assert live[..n][..p] == live[..p] && live[..n][p..] + [live[n]] == live[p..];
      }
    }
  }

  lemma {:induction false} InsertMember(live: seq<nat>, k: nat)
    ensures forall x :: x in Insert(live, k) <==> x in live || x == k
  {
    if live != [] {
      var n := |live| - 1;
      InsertMember(live[..n], k);
      assert live == live[..n] + [live[n]];
    }
  }

  lemma {:induction false} InsertAscends(live: seq<nat>, k: nat)
    requires Ascending(live) && k !in live
    ensures Ascending(Insert(live, k))
  {
    if live != [] {
      var n := |live| - 1;
      if k < live[n] {
        InsertAscends(live[..n], k);
        InsertMember(live[..n], k);
        var r := Insert(live[..n], k);
        forall i | 0 <= i < |r| ensures r[i] < live[n] { assert r[i] in r; }
      } else {
        forall i | 0 <= i < |live| ensures live[i] < k { assert live[i] <= live[n] && live[n] in live; }
      }
    }
  }

  lemma {:induction false} KeptMember(sizes: seq<nat>, st: State, live: seq<nat>, m: nat)
    requires Ascending(live)
    ensures forall x :: x in Kept(sizes, st, live, m) <==> x in live && (x > m || Full(sizes, st, x))
    ensures Ascending(Kept(sizes, st, live, m))
  {
    hide Full;
    if live != [] {
      var n := |live| - 1;
      KeptMember(sizes, st, live[..n], m);
      assert live == live[..n] + [live[n]];
      var r := Kept(sizes, st, live[..n], m);
      forall i | 0 <= i < |r| ensures r[i] < live[n] { assert r[i] in r; }
    }
  }

  lemma {:induction false} ArriveInv(sizes: seq<nat>, st: State, k: nat, i: nat)
    requires Inv(sizes, st) && Enabled(sizes, st, Arrive(k, i))
    ensures Inv(sizes, Step(sizes, st, Arrive(k, i)))
  {
    InsertMember(st.live, k);
    if k >= st.next {
      ArriveSettled(sizes, st, k, i);
      hide Settled;
      var st' := Step(sizes, st, Arrive(k, i));
      assert forall x: nat :: Got(st', x) == if x == k then Got(st, x) + {i} else Got(st, x);
    }
  }

  lemma {:induction false} ArriveSettled(sizes: seq<nat>, st: State, k: nat, i: nat)
    requires Settled(sizes, st) && Enabled(sizes, st, Arrive(k, i)) && k >= st.next
    ensures Settled(sizes, Step(sizes, st, Arrive(k, i)))
  {
    var st' := Step(sizes, st, Arrive(k, i));
    InsertMember(st.live, k);
    if k !in st.live { InsertAscends(st.live, k); }
    forall x: nat | x < st.next ensures Full(sizes, st', x) <==> Full(sizes, st, x) { assert Got(st', x) == Got(st, x); }
    hide Full, Ascending, Insert;
  }

  lemma {:induction false} DeliverShape(out: seq<nat>, live: seq<nat>)
    requires Ascending(live) && Ascending(out) && Before(out, live) && live != []
    ensures Ascending(live[1..]) && Ascending(out + [live[0]]) && Before(out + [live[0]], live[1..])
    ensures forall x :: x in live <==> x == live[0] || x in live[1..]
  {
    assert live == [live[0]] + live[1..] && live[0] in live;
    forall j | 0 <= j < |out| ensures out[j] < live[0] { assert out[j] in out; }
    var rest := live[1..];
    forall x, y | x in out + [live[0]] && y in rest ensures x < y {
      var j :| 0 <= j < |rest| && rest[j] == y;
      assert live[j + 1] == y;
    }
  }

  lemma {:induction false} SameFull(sizes: seq<nat>, st: State, st': State)
    requires st'.got == st.got
    ensures forall x: nat :: Got(st', x) == Got(st, x) && (Full(sizes, st', x) <==> Full(sizes, st, x))
  {
  }

  lemma {:induction false} DeliverInv(sizes: seq<nat>, st: State)
    requires Inv(sizes, st) && CanDeliver(sizes, st)
    ensures Inv(sizes, Step(sizes, st, Deliver))
  {
    hide Ascending, Before, Full;
    DeliverShape(st.out, st.live);
    SameFull(sizes, st, Step(sizes, st, Deliver));
  }

  lemma {:induction false} SkipInv(sizes: seq<nat>, st: State, m: nat)
    requires Inv(sizes, st)
    ensures Inv(sizes, Step(sizes, st, Skip(m)))
  {
    var st' := Step(sizes, st, Skip(m));
    KeptMember(sizes, st, st.live, m);
    SameFull(sizes, st, st');
    forall x: nat | x >= st.next && Full(sizes, st, x) ensures x in st.live { FullIsLive(sizes, st, x); }
    hide Full, Ascending, Kept;
  }

  /** A whole message that was not passed yet is held. */
  lemma {:induction false} FullIsLive(sizes: seq<nat>, st: State, x: nat)
    requires Inv(sizes, st) && Full(sizes, st, x) && x >= st.next
    ensures x in st.live
  {
    assert 0 in Got(st, x);
  }

  // -------------------------------------------------------------------- runs

  ghost predicate Runs(sizes: seq<nat>, st: State, ops: seq<Op>, st': State)
    decreases |ops|
  {
    if ops == [] then st == st'
    else
      var n := |ops| - 1;
      exists mid :: Runs(sizes, st, ops[..n], mid) && Enabled(sizes, mid, ops[n]) && st' == Step(sizes, mid, ops[n])
  }

  lemma {:induction false} StepInv(sizes: seq<nat>, st: State, op: Op)
    requires Inv(sizes, st) && Enabled(sizes, st, op)
    ensures Inv(sizes, Step(sizes, st, op))
  {
    hide Inv;
    match op
    case Arrive(k, i) => ArriveInv(sizes, st, k, i);
    case Deliver => DeliverInv(sizes, st);
    case Skip(m) => SkipInv(sizes, st, m);
  }

  lemma {:induction false} RunInv(sizes: seq<nat>, st: State, ops: seq<Op>, st': State)
    requires Inv(sizes, st) && Runs(sizes, st, ops, st')
    ensures Inv(sizes, st')
    decreases |ops|
  {
    hide Inv;
    if ops != [] {
      var n := |ops| - 1;
      var mid :| Runs(sizes, st, ops[..n], mid) && Enabled(sizes, mid, ops[n]) && st' == Step(sizes, mid, ops[n]);
      RunInv(sizes, st, ops[..n], mid);
      StepInv(sizes, mid, ops[n]);
    }
  }

  lemma {:induction false} InitInv(sizes: seq<nat>)
    requires forall k :: 0 <= k < |sizes| ==> sizes[k] > 0
    ensures Inv(sizes, INIT)
  {
  }

  /** Whatever the order of arrival: messages are delivered in order, each whole and each
      once, and every message below next was delivered, is held whole, or was given up. */
  lemma {:induction false} InOrder(sizes: seq<nat>, ops: seq<Op>, st: State)
    requires (forall k :: 0 <= k < |sizes| ==> sizes[k] > 0) && Runs(sizes, INIT, ops, st)
    ensures Ascending(st.out) && forall k :: k in st.out ==> Full(sizes, st, k)
    ensures forall k: nat :: k < st.next ==> k in st.out || (k in st.live && Full(sizes, st, k)) || k in st.skipped
    ensures forall k :: k in st.skipped ==> k !in st.out && k !in st.live
  {
    InitInv(sizes);
    RunInv(sizes, INIT, ops, st);
  }

  /** A reader is never kept waiting for a message that is there: whenever the message
      expected next is whole, something can be delivered. */
  lemma {:induction false} NextReady(sizes: seq<nat>, st: State)
    requires Inv(sizes, st) && Full(sizes, st, st.next)
    ensures CanDeliver(sizes, st)
  {
    FullIsLive(sizes, st, st.next);
    var j :| 0 <= j < |st.live| && st.live[j] == st.next;
    assert st.live[0] in st.live && st.live[0] <= st.live[j];
  }

  lemma {:induction false} NothingSkipped(sizes: seq<nat>, st: State, ops: seq<Op>, st': State)
    requires Runs(sizes, st, ops, st') && (forall j :: 0 <= j < |ops| ==> !ops[j].Skip?)
    requires st.skipped == {} && (forall k :: k in st.live ==> k >= st.next)
    requires Inv(sizes, st)
    ensures st'.skipped == {} && forall k :: k in st'.live ==> k >= st'.next
    decreases |ops|
  {
    if ops != [] {
      var n := |ops| - 1;
      var mid :| Runs(sizes, st, ops[..n], mid) && Enabled(sizes, mid, ops[n]) && st' == Step(sizes, mid, ops[n]);
      NothingSkipped(sizes, st, ops[..n], mid);
      RunInv(sizes, st, ops[..n], mid);
      hide Full;
      if ops[n].Arrive? { InsertMember(mid.live, ops[n].k); }
      if ops[n].Deliver? { DeliverShape(mid.out, mid.live); assert mid.live[0] in mid.live; FirstLeast(mid.live); }
    }
  }

  lemma {:induction false} FirstLeast(live: seq<nat>)
    requires Ascending(live) && live != []
    ensures forall x :: x in live[1..] ==> x > live[0]
  {
    var rest := live[1..];
    forall x | x in rest ensures x > live[0] {
      var j :| 0 <= j < |rest| && rest[j] == x;
      assert live[j + 1] == x;
    }
  }

  /** On a reliable stream, where nothing is given up, exactly the messages 0, 1, 2, ... up
      to next have been delivered. */
  lemma {:induction false} Reliable(sizes: seq<nat>, ops: seq<Op>, st: State)
    requires (forall k :: 0 <= k < |sizes| ==> sizes[k] > 0) && Runs(sizes, INIT, ops, st)
    requires forall j :: 0 <= j < |ops| ==> !ops[j].Skip?
    ensures |st.out| == st.next && forall j :: 0 <= j < |st.out| ==> st.out[j] == j
  {
    InitInv(sizes);
    RunInv(sizes, INIT, ops, st);
    NothingSkipped(sizes, INIT, ops, st);
    hide Full;
    AllBelow(st.out, st.next);
  }

  lemma {:induction false} FirstIn(xs: seq<nat>)
    ensures xs != [] ==> xs[0] in xs
  {
  }

  /** An ascending list of exactly the numbers below n. */
  lemma {:induction false} AllBelow(xs: seq<nat>, n: nat)
    requires Ascending(xs) && (forall x :: x in xs ==> x < n) && (forall x: nat :: x < n ==> x in xs)
    ensures |xs| == n && forall j :: 0 <= j < |xs| ==> xs[j] == j
    decreases n
  {
    FirstIn(xs);
    if n > 0 {
      var l := |xs| - 1;
      assert n - 1 in xs;
      assert xs[l] == n - 1 by {
        var j :| 0 <= j < |xs| && xs[j] == n - 1;
        assert xs[l] in xs && xs[j] <= xs[l];
      }
      var init := xs[..l];
      forall x | x in init ensures x < n - 1 { var j :| 0 <= j < l && init[j] == x; assert xs[j] < xs[l]; }
      forall x: nat | x < n - 1 ensures x in init {
        assert x in xs;
        var j :| 0 <= j < |xs| && xs[j] == x;
        assert j != l && init[j] == x;
      }
      AllBelow(init, n - 1);
    }
  }
}
