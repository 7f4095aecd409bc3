/** What a whole run of the receive queue guarantees, whatever the peer sends: first for
    the set of TSNs, then for the ring of words. */
module WindowRuns {
  import opened Serial
  import opened ReceiveWindow
  import opened ReceiveQueue

  datatype Op = Push(tsn: uint32) | Pop(force: bool) | Advance(cum: uint32)

  /** The window with what was seen of the run so far: the TSNs that push answered
      true for in order, the TSNs the cumulative point was told to pass although
      they had not arrived, and how far it has moved. */
  datatype Trace = Trace(window: Window, accepted: seq<uint32>, skipped: set<uint32>, moved: nat)

  ghost function Step(tr: Trace, op: Op): Trace {
    var v := tr.window;
    match op
    case Push(t) =>
      tr.(window := v.Push(t), accepted := if v.Accepts(t) then tr.accepted + [t] else tr.accepted)
    case Pop(force) => Move(tr, v.Pop(force))
    case Advance(c) => Move(tr, v.Advance(c))
  }

  ghost function Move(tr: Trace, v': Window): Trace {
    var v := tr.window;
    var passed := set t: uint32 | 1 <= Dist(v.cum, t) <= Dist(v.cum, v'.cum) && t !in v.recv;
    Trace(v', tr.accepted, tr.skipped + passed, tr.moved + Dist(v.cum, v'.cum))
  }

  ghost function Run(w: Window, ops: seq<Op>): Trace {
    if ops == [] then Trace(w, [], {}, 0) else Step(Run(w, ops[..|ops| - 1]), ops[|ops| - 1])
  }

  ghost predicate Distinct(s: seq<uint32>) {
    forall i, j :: 0 <= i < j < |s| ==> s[i] != s[j]
  }

  /** The window holds exactly the accepted TSNs it has not passed, nothing was
      accepted twice, and every TSN passed was accepted or skipped. */
  ghost predicate Exact(c0: uint32, tr: Trace) {
    var v, m := tr.window, tr.moved;
    && v.Valid() && m + v.size < TWO32 && v.cum == Add(c0, m)
    && Distinct(tr.accepted)
    && (forall t :: t in v.recv <==> t in tr.accepted && Dist(c0, t) > m)
    && (forall t :: t in tr.accepted ==> 1 <= Dist(c0, t) <= m + v.size)
    && (forall t: uint32 :: 1 <= Dist(c0, t) <= m ==> t in tr.accepted || t in tr.skipped)
  }

  lemma {:induction false} PushExact(c0: uint32, tr: Trace, t: uint32)
    requires Exact(c0, tr)
    ensures Exact(c0, Step(tr, Push(t)))
  {
    var v := tr.window;
    if v.Accepts(t) {
      assert Dist(c0, t) == tr.moved + Dist(v.cum, t);
      forall u: uint32 ensures u in tr.accepted + [t] <==> u in tr.accepted || u == t {}
    }
  }

  /** Moving by k passes the next k TSNs. */
  lemma {:induction false} MoveExact(c0: uint32, tr: Trace, c: uint32)
    requires Exact(c0, tr)
    requires tr.moved + Dist(tr.window.cum, c) + tr.window.size < TWO32
    ensures Exact(c0, Move(tr, Past(tr.window, c)))
  {
    var v, m := tr.window, tr.moved;
    var k := Dist(v.cum, c);
    assert forall t: uint32 :: Dist(c0, t) > m ==> Dist(v.cum, t) == Dist(c0, t) - m;
    forall t: uint32 | 1 <= Dist(c0, t) <= m + k
      ensures t in tr.accepted || t in Move(tr, Past(v, c)).skipped
    {
      if Dist(c0, t) > m { assert 1 <= Dist(v.cum, t) <= k; }
    }
    forall t | t in Past(v, c).recv ensures Past(v, c).Covers(t) { assert v.Covers(t); }
  }

  ghost function Past(v: Window, c: uint32): Window {
    v.(cum := c, recv := set t | t in v.recv && Dist(v.cum, t) > Dist(v.cum, c))
  }

  lemma {:induction false} PopIsMove(v: Window, force: bool)
    requires v.Valid()
    ensures v.Pop(force) == Past(v, v.Pop(force).cum)
  {
    forall u | u in v.recv ensures u != Add(v.cum, 1) <==> Dist(v.cum, u) > 1 { assert v.Covers(u); }
    assert v.Pop(force).recv == Past(v, v.Pop(force).cum).recv;
  }

  lemma {:induction false} AdvanceIsMove(v: Window, c: uint32)
    requires v.Valid()
    ensures v.Advance(c) == Past(v, v.Advance(c).cum)
  {
    assert forall u :: u in v.recv ==> v.Covers(u);
    assert v.Advance(c).recv == Past(v, v.Advance(c).cum).recv;
  }

  lemma {:induction false} StepExact(c0: uint32, tr: Trace, op: Op)
    requires Exact(c0, tr)
    requires Step(tr, op).moved + tr.window.size < TWO32
    ensures Exact(c0, Step(tr, op))
  {
    var v := tr.window;
    assert v.Valid();
    hide Exact, Past;
    match op {
      case Push(t) => PushExact(c0, tr, t);
      case Pop(force) =>
        PopIsMove(v, force);
        MoveExact(c0, tr, v.Pop(force).cum);
      case Advance(c) =>
        AdvanceIsMove(v, c);
        MoveExact(c0, tr, v.Advance(c).cum);
    }
  }

  /** Every run from an empty window is exact, until the window has gone all the way
      round the 32-bit space. */
  lemma {:induction false} RunExact(w: Window, ops: seq<Op>)
    requires w.Valid() && w.recv == {}
    requires Run(w, ops).moved + w.size < TWO32
    ensures Exact(w.cum, Run(w, ops)) && Run(w, ops).window.size == w.size
  {
    if ops != [] {
      hide Exact;
      RunExact(w, ops[..|ops| - 1]);
      StepExact(w.cum, Run(w, ops[..|ops| - 1]), ops[|ops| - 1]);
    }
  }

  /** After any such run a push is answered true for exactly the TSNs of the window that were
      not accepted before. */
  lemma {:induction false} AcceptsIff(w: Window, ops: seq<Op>, t: uint32)
    requires w.Valid() && w.recv == {} && Run(w, ops).moved + w.size < TWO32
    ensures var tr := Run(w, ops);
            Run(w, ops + [Push(t)]).accepted ==
            if 0 < Dist(tr.window.cum, t) <= w.size && t !in tr.accepted then tr.accepted + [t] else tr.accepted
  {
    RunExact(w, ops);
    assert (ops + [Push(t)])[..|ops|] == ops;
    var tr := Run(w, ops);
    if 0 < Dist(tr.window.cum, t) <= w.size { assert Dist(w.cum, t) == tr.moved + Dist(tr.window.cum, t); }
  }

  lemma {:induction false} NothingSkipped(w: Window, ops: seq<Op>)
    requires forall i :: 0 <= i < |ops| ==> ops[i] != Pop(true) && !ops[i].Advance?
    ensures Run(w, ops).skipped == {}
  {
    if ops != [] { NothingSkipped(w, ops[..|ops| - 1]); }
  }

  // ------------------------------------------------------------------ the ring

  /** The ring with the TSNs that push answered true for, in order. */
  datatype RingTrace = RingTrace(ring: Ring, accepted: seq<uint32>)

  function RingStep(tr: RingTrace, op: Op): RingTrace {
    var r := tr.ring;
    if !r.Shape() then tr
    else
      match op
      case Push(t) => RingTrace(r.Push(t), if r.Takes(t) then tr.accepted + [t] else tr.accepted)
      case Pop(force) => tr.(ring := r.Pop(force))
      case Advance(c) => tr.(ring := r.Advance(c))
  }

  function RingRun(cum: uint32, len: nat, ops: seq<Op>): RingTrace {
    if ops == [] then RingTrace(Fresh(cum, len), [])
    else RingStep(RingRun(cum, len, ops[..|ops| - 1]), ops[|ops| - 1])
  }

  /** All along the run no two TSNs of the window share a bit. */
  ghost predicate AlwaysOk(cum: uint32, len: nat, ops: seq<Op>)
    requires len > 0
    decreases |ops|
  {
    WindowOk(RingRun(cum, len, ops).ring.cum, len) && (ops == [] || AlwaysOk(cum, len, ops[..|ops| - 1]))
  }

  lemma {:induction false} RingStepRefines(r: RingTrace, tr: Trace, op: Op)
    requires Represents(r.ring, tr.window) && r.accepted == tr.accepted
    requires WindowOk(RingStep(r, op).ring.cum, |r.ring.words|)
    ensures Represents(RingStep(r, op).ring, Step(tr, op).window)
    ensures RingStep(r, op).accepted == Step(tr, op).accepted
    ensures |RingStep(r, op).ring.words| == |r.ring.words|
  {
    RepresentsShape(r.ring, tr.window);
    match op
    case Push(t) => PushRefines(r.ring, tr.window, t);
    case Pop(force) =>
      HasRefines(r.ring, tr.window, Add(tr.window.cum, 1));
      PopRefines(r.ring, tr.window, force);
    case Advance(c) => AdvanceRefines(r.ring, tr.window, c);
  }

  /** Every run of the ring does what the run on the set does, as long as no two TSNs of
      the window share a bit. */
  lemma {:induction false} RingRunRefines(cum: uint32, len: nat, ops: seq<Op>)
    requires 0 < 64 * len <= 0xFFFF && AlwaysOk(cum, len, ops)
    ensures var tr := Run(Window(cum, {}, 64 * len), ops);
            && Represents(RingRun(cum, len, ops).ring, tr.window)
            && RingRun(cum, len, ops).accepted == tr.accepted
            && |RingRun(cum, len, ops).ring.words| == len
  {
    if ops == [] {
      EmptyRepresents(cum, len);
    } else {
      RingRunRefines(cum, len, ops[..|ops| - 1]);
      hide Represents, WindowOk, RingStep, Step;
      RingStepRefines(RingRun(cum, len, ops[..|ops| - 1]), Run(Window(cum, {}, 64 * len), ops[..|ops| - 1]), ops[|ops| - 1]);
    }
  }

  /** Over every such run hasChunk answers for exactly the accepted TSNs that have not been
      passed, chunkSize counts them, and nothing is accepted twice. */
  lemma {:induction false} RingExact(cum: uint32, len: nat, ops: seq<Op>)
    requires 0 < 64 * len <= 0xFFFF && AlwaysOk(cum, len, ops)
    requires Run(Window(cum, {}, 64 * len), ops).moved + 64 * len < TWO32
    ensures var r, moved := RingRun(cum, len, ops), Run(Window(cum, {}, 64 * len), ops).moved;
            && r.ring.Shape() && Distinct(r.accepted) && r.ring.cum == Add(cum, moved)
            && (forall t: uint32 :: r.ring.Has(t) <==> t in r.accepted && Dist(cum, t) > moved)
            && r.ring.count == |set t | t in r.accepted && Dist(cum, t) > moved|
  {
    var w := Window(cum, {}, 64 * len);
    RingRunRefines(cum, len, ops);
    RunExact(w, ops);
    var r, tr := RingRun(cum, len, ops), Run(w, ops);
    RepresentsShape(r.ring, tr.window);
    forall t: uint32 ensures r.ring.Has(t) <==> t in tr.window.recv { HasRefines(r.ring, tr.window, t); }
    assert tr.window.recv == set t | t in r.accepted && Dist(cum, t) > tr.moved;
    hide Represents, Ring.Has, Ring.Shape;
  }

  /** Section 3.3.4 of RFC 9260: without forced moves a cumulative acknowledgement covers
      only TSNs that arrived. */
  lemma {:induction false} CumulativeMeansReceived(cum: uint32, len: nat, ops: seq<Op>, t: uint32)
    requires 0 < 64 * len <= 0xFFFF && AlwaysOk(cum, len, ops)
    requires Run(Window(cum, {}, 64 * len), ops).moved + 64 * len < TWO32
    requires forall i :: 0 <= i < |ops| ==> ops[i] != Pop(true) && !ops[i].Advance?
    requires 1 <= Dist(cum, t) <= Dist(cum, RingRun(cum, len, ops).ring.cum)
    ensures t in RingRun(cum, len, ops).accepted
  {
    var w := Window(cum, {}, 64 * len);
    RingRunRefines(cum, len, ops);
    RunExact(w, ops);
    NothingSkipped(w, ops);
  }

  /** It does not hold of the default ring across 2^32: one arrival, one pop, and the
      cumulative TSN covers a TSN that never came. */
  lemma {:induction false} CumulativeLies()
    ensures var ops := [Push(4095), Pop(false)];
            var r := RingRun(TWO32 - 2, 132, ops);
            r.ring.cum == TWO32 - 1 && r.accepted == [4095]
  {
    var cum: uint32, u: uint32, t: uint32 := TWO32 - 2, 4095, TWO32 - 1;
    assert SameSlot(132, t, u);
    PushedReads(cum, 132, t, u);
    var ops := [Push(4095), Pop(false)];
    assert ops[..1] == [Push(4095)] && ops[..1][..0] == [];
    assert RingRun(cum, 132, []) == RingTrace(Fresh(cum, 132), []);
    PushShape(Fresh(cum, 132), u);
  }
}
