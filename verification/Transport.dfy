/** A sender and a receiver over a network that loses, duplicates and reorders.

    TSNs are written as unbounded integers so that "the same TSN" has a meaning over a
    whole run; only `Wire` of them is ever compared by either side. The network is the
    set of packets ever sent: delivering one leaves it there, and losing one is never
    delivering it. What the 32-bit comparisons need of the network is a packet lifetime:
    a packet that arrives is less than half the TSN space away from the arrival's state.
    The receiver decides by its ring of words. `window` is what the ring should stand for;
    no step looks at it. */
module Transport {
  import opened Serial
  import opened GapBlocks
  import opened ReceiveWindow
  import opened ReceiveQueue
  import S = Sack

  datatype Packet = Data(tsn: int) | Forward(tsn: int) | Ack(tsn: int, gaps: seq<S.Gap>)

  /** The sender's ack point, the last TSN it popped, its next TSN, what it marked and
      gave up; the receiver's ring with the true value of its cumulative TSN, the set the
      ring should stand for, and all it accepted; the network. */
  datatype State = State(
    start: int, cumAck: int, front: int, next: int, acked: set<int>, abandoned: set<int>,
    ring: Ring, window: Window, cum: int, received: set<int>,
    packets: set<Packet>)

  datatype Action =
    | Send
    | Resend(t: int)
    | Abandon(t: int)
    | SendForward(t: int)
    | ArriveData(t: int, room: bool)
    | ArriveForward(t: int)
    | Pop
    | SendAck(gaps: seq<S.Gap>, maxBlocks: nat)
    | ArriveAck(t: int, gaps: seq<S.Gap>, marks: set<int>)

  /** The chunks at the offsets a SACK with this cumulative TSN names. */
  ghost predicate NamedBy(t: int, gaps: seq<S.Gap>, x: int) {
    exists k :: 0 <= k < |gaps| && gaps[k].start <= x - t <= gaps[k].end
  }

  ghost predicate Encodes(gaps: seq<S.Gap>, blocks: seq<GapBlock>) {
    |gaps| == |blocks| && forall k :: 0 <= k < |gaps| ==> gaps[k].start == blocks[k].start && gaps[k].end == blocks[k].end
  }

  /** handleSack accepts: see Sack.Sender.Acceptable. */
  predicate Acceptable(s: State, t: int, gaps: seq<S.Gap>) {
    s.cumAck < s.next && S.NamesSent(s.next - 1 - s.cumAck, Wire(s.cumAck), Wire(t), gaps)
  }

  ghost predicate Init(s: State) {
    && s.cumAck == s.front == s.cum == s.start && s.next == s.start + 1
    && s.acked == {} && s.abandoned == {} && s.received == {} && s.packets == {}
    && 0 < 64 * |s.ring.words| <= 0xFFFF && s.ring == Fresh(Wire(s.cum), |s.ring.words|)
    && s.window == Window(Wire(s.cum), {}, 64 * |s.ring.words|)
  }

  /** No two TSNs of the receive window share a bit of the ring. */
  predicate RingOk(s: State) { |s.ring.words| > 0 && WindowOk(s.ring.cum, |s.ring.words|) }

  lemma {:induction false} RingOkIff(s: State)
    requires 0 < 64 * |s.ring.words| <= 0xFFFF
    ensures var w := s.ring.AsRead();
            RingOk(s) <==> forall t, u :: w.Covers(t) && w.Covers(u) && SameSlot(|s.ring.words|, t, u) ==> t == u
    ensures 0x400_0000 % |s.ring.words| == 0 ==> RingOk(s)
  {
    SlotsDistinctIff(s.ring.AsRead(), |s.ring.words|);
  }

  ghost predicate Step(s: State, a: Action, s': State) {
    match a
    case Send =>
      && s.next - s.cumAck < HALF32
      && s' == s.(next := s.next + 1, packets := s.packets + {Data(s.next)})
    case Resend(t) => s.front < t < s.next && s' == s.(packets := s.packets + {Data(t)})
    case Abandon(t) => s.front < t < s.next && s' == s.(abandoned := s.abandoned + {t})
    case SendForward(t) =>
      && s.cumAck <= t < s.next && (forall x :: s.cumAck < x <= t ==> x in s.abandoned)
      && s' == s.(packets := s.packets + {Forward(t)})
    case ArriveData(t, room) =>
      && Data(t) in s.packets && Near(t, s.cum) && s.ring.Shape()
      && s' == if room && s.ring.Takes(Wire(t))
               then s.(ring := s.ring.Push(Wire(t)), window := s.window.Push(Wire(t)), received := s.received + {t})
               else s
    case ArriveForward(t) =>
      && Forward(t) in s.packets && Near(t, s.cum) && s.ring.Shape()
      && s' == if Lte32(Wire(t), s.ring.cum) then s
               else s.(ring := s.ring.Advance(Wire(t)), window := s.window.Advance(Wire(t)), cum := t)
    case Pop =>
      && s.ring.Shape()
      && s' == if s.ring.Has(Add(s.ring.cum, 1))
               then s.(ring := s.ring.Pop(false), window := s.window.Pop(false), cum := s.cum + 1)
               else s
    case SendAck(gaps, maxBlocks) =>
      && s.ring.Shape() && Encodes(gaps, s.ring.Gaps(maxBlocks))
      && s' == s.(packets := s.packets + {Ack(s.cum, gaps)})
    case ArriveAck(t, gaps, marks) =>
      && Ack(t, gaps) in s.packets && Near(t, s.cumAck)
      && (forall x :: x in marks ==> NamedBy(t, gaps, x))
      && if Gt32(Wire(s.cumAck), Wire(t)) then s' == s
         else if s.front != s.cumAck then
           // the queue no longer starts at the ack point: a SACK that moves it fails at
           // once, one that does not can still mark chunks in flight
           && (forall x :: x in marks ==> s.front < x)
           && s' == if Wire(t) == Wire(s.cumAck) then s.(acked := s.acked + marks) else s
         else if Acceptable(s, t, gaps) then
           && (forall k, x :: 0 <= k < |gaps| && gaps[k].start <= x - t <= gaps[k].end ==> x in marks)
           && s' == s.(cumAck := t, front := t, acked := s.acked + marks)
         else
           // an error: some chunks are popped and marked, the ack point stays
           s' == s.(front := t, acked := s.acked + marks)
  }

  // ------------------------------------------------------------ the invariant

  /** Received by the peer, or given up by the sender. */
  ghost predicate Settled(s: State, x: int) { x in s.received || x in s.abandoned }

  ghost predicate SettledTo(s: State, t: int) { forall x :: s.start < x <= t ==> Settled(s, x) }

  /** What a packet in the network says is true, now and later. */
  ghost predicate Truthful(s: State, p: Packet) {
    match p
    case Data(t) => s.start < t < s.next
    case Forward(t) => s.start <= t < s.next && SettledTo(s, t)
    case Ack(t, gaps) =>
      && s.start <= t <= s.cum
      && (forall k :: 0 <= k < |gaps| ==> 1 <= gaps[k].start <= gaps[k].end < 0xFFFF)
      && (forall x :: NamedBy(t, gaps, x) ==> x in s.received)
  }

  /** What the window holds was received, at its offset from the true cumulative TSN. */
  ghost predicate AtOffsets(w: Window, cum: int, received: set<int>) {
    forall u :: u in w.recv ==> cum + Dist(w.cum, u) in received
  }

  ghost predicate ReceiverOk(s: State) {
    && Represents(s.ring, s.window) && s.ring.cum == Wire(s.cum)
    && AtOffsets(s.window, s.cum, s.received)
    && (forall x :: x in s.received ==> s.start < x < s.next)
    && s.start <= s.cum < s.next && SettledTo(s, s.cum)
  }

  ghost predicate SenderOk(s: State) {
    && s.start <= s.cumAck <= s.front <= s.cum
    && s.next - s.cumAck <= HALF32
    && (forall x :: x in s.acked ==> x in s.received)
  }

  ghost predicate Inv(s: State) {
    ReceiverOk(s) && SenderOk(s) && forall p :: p in s.packets ==> Truthful(s, p)
  }

  // ------------------------------------------------------------ every step

  /** Knowledge only grows. */
  ghost predicate Grows(s: State, s': State) {
    && s'.start == s.start && s.next <= s'.next && s.cum <= s'.cum && s.cumAck <= s'.cumAck
    && s.received <= s'.received && s.abandoned <= s'.abandoned && |s'.ring.words| == |s.ring.words|
  }

  lemma {:induction false} SettledGrows(s: State, s': State, t: int)
    requires Grows(s, s') && SettledTo(s, t)
    ensures SettledTo(s', t)
  {
    forall x | s.start < x <= t ensures Settled(s', x) { assert Settled(s, x); }
  }

  lemma {:induction false} TruthfulGrows(s: State, s': State, p: Packet)
    requires Grows(s, s') && Truthful(s, p)
    ensures Truthful(s', p)
  {
    match p
    case Data(t) =>
    case Forward(t) => SettledGrows(s, s', t);
    case Ack(t, gaps) =>
  }

  lemma {:induction false} ReceiverKept(s: State, s': State)
    requires ReceiverOk(s) && Grows(s, s')
    requires s'.ring == s.ring && s'.window == s.window && s'.cum == s.cum && s'.received == s.received
    ensures ReceiverOk(s')
  {
    SettledGrows(s, s', s.cum);
  }

  /** A step that adds at most one packet keeps the invariant if that packet is true. */
  lemma {:induction false} PacketsKept(s: State, s': State, p: Packet)
    requires Inv(s) && Grows(s, s') && s'.packets <= s.packets + {p}
    requires p in s'.packets ==> Truthful(s', p)
    requires ReceiverOk(s') && SenderOk(s')
    ensures Inv(s')
  {
    hide Truthful, Grows, ReceiverOk, SenderOk;
    forall q | q in s'.packets ensures Truthful(s', q) {
      if q != p { TruthfulGrows(s, s', q); }
    }
  }

  lemma {:induction false} SenderSteps(s: State, a: Action, s': State)
    requires Inv(s) && Step(s, a, s') && (a.Send? || a.Resend? || a.Abandon? || a.SendForward?)
    ensures Inv(s') && Grows(s, s')
  {
    var p := match a
      case Send => Data(s.next)
      case Resend(t) => Data(t)
      case SendForward(t) => Forward(t)
      case _ => Data(0);
    ReceiverKept(s, s');
    if a.SendForward? {
      forall x | s.start < x <= a.t ensures Settled(s', x) {
        if x <= s.cum { assert Settled(s, x); } else { assert s.cumAck < x; }
      }
    }
    if !a.Abandon? || p in s'.packets { assert p in s.packets ==> Truthful(s, p); TruthfulIn(s, s', p); }
    PacketsKept(s, s', p);
  }

  lemma {:induction false} TruthfulIn(s: State, s': State, p: Packet)
    requires Grows(s, s') && (p in s.packets ==> Truthful(s, p))
    ensures p in s.packets ==> Truthful(s', p)
  {
    if p in s.packets { TruthfulGrows(s, s', p); }
  }

  /** A TSN that the window covers is above the true cumulative TSN, by its offset. */
  lemma {:induction false} ArrivalOffset(s: State, t: int)
    requires ReceiverOk(s) && Near(t, s.cum) && s.window.Covers(Wire(t))
    ensures t == s.cum + Dist(s.window.cum, Wire(t))
  {
    RepresentsCum(s.ring, s.window);
    hide Represents, Wire;
    if t >= s.cum { WireDist(s.cum, t); } else { WireDist(t, s.cum); }
  }

  lemma {:induction false} DataArrives(s: State, t: int, room: bool, s': State)
    requires Inv(s) && Step(s, ArriveData(t, room), s')
    ensures Inv(s') && Grows(s, s')
  {
    PushRefines(s.ring, s.window, Wire(t));
    hide Wire, Represents, Ring.Push, Ring.Takes, Ring.Shape, ReceiverOk;
    if room && s.ring.Takes(Wire(t)) {
      assert Truthful(s, Data(t));
      Received(s, t, s');
      PushLength(s.ring, Wire(t));
      TruthfulGrows(s, s', Data(t));
      PacketsKept(s, s', Data(t));
    }
  }

  lemma {:induction false} Received(s: State, t: int, s': State)
    requires ReceiverOk(s) && Near(t, s.cum) && s.start < t < s.next
    requires s.ring.Shape() && s.window.Accepts(Wire(t)) && Represents(s.ring.Push(Wire(t)), s.window.Push(Wire(t)))
    requires s' == s.(ring := s.ring.Push(Wire(t)), window := s.window.Push(Wire(t)), received := s.received + {t})
    ensures ReceiverOk(s')
  {
    hide Wire, Represents, Ring.Push, Ring.Shape, AtOffsets, Window.Push;
    ArrivalOffset(s, t);
    PushLength(s.ring, Wire(t));
    ReceivedAt(s.window, s.cum, s.received, Wire(t), t);
    forall x | s.start < x <= s.cum ensures Settled(s', x) { assert Settled(s, x); }
  }

  lemma {:induction false} ReceivedAt(w: Window, cum: int, received: set<int>, u: uint32, t: int)
    requires AtOffsets(w, cum, received) && w.Accepts(u) && t == cum + Dist(w.cum, u)
    ensures AtOffsets(w.Push(u), cum, received + {t})
  {
    hide Dist;
  }

  lemma {:induction false} PushLength(r: Ring, t: uint32)
    requires r.Shape()
    ensures |r.Push(t).words| == |r.words| && r.Push(t).cum == r.cum
  {
  }

  lemma {:induction false} DistShift(x: uint32, y: uint32, u: uint32)
    requires Dist(x, y) < Dist(x, u)
    ensures Dist(y, u) == Dist(x, u) - Dist(x, y)
  {
  }

  /** Moving the window to c: what it keeps is still at the right offset. */
  lemma {:induction false} Moved(s: State, c: int, r: Ring, w: Window)
    requires ReceiverOk(s) && s.cum <= c < s.next && c - s.cum < HALF32
    requires Represents(r, w) && r.cum == Wire(c)
    requires forall u :: u in w.recv ==> u in s.window.recv && Dist(s.window.cum, u) > Dist(s.window.cum, Wire(c))
    requires SettledTo(s, c)
    ensures ReceiverOk(s.(ring := r, window := w, cum := c))
  {
    hide Wire, Represents, Dist, AtOffsets;
    RepresentsCum(r, w);
    RepresentsCum(s.ring, s.window);
    WireDist(s.cum, c);
    var s' := s.(ring := r, window := w, cum := c);
    MovedAt(s.window, s.cum, s.received, w, c);
    forall x | s.start < x <= c ensures Settled(s', x) { assert Settled(s, x); }
  }

  lemma {:induction false} RepresentsCum(r: Ring, w: Window)
    requires Represents(r, w)
    ensures r.cum == w.cum && w.Valid()
  {
  }

  lemma {:induction false} MovedAt(w: Window, cum: int, received: set<int>, w': Window, c: int)
    requires AtOffsets(w, cum, received) && Dist(w.cum, w'.cum) == c - cum
    requires forall u :: u in w'.recv ==> u in w.recv && Dist(w.cum, u) > Dist(w.cum, w'.cum)
    ensures AtOffsets(w', c, received)
  {
    hide Dist;
    forall u | u in w'.recv ensures c + Dist(w'.cum, u) in received {
      DistShift(w.cum, w'.cum, u);
      assert cum + Dist(w.cum, u) in received;
    }
  }

  lemma {:induction false} PopArrived(s: State, s': State)
    requires Inv(s) && Step(s, Pop, s') && RingOk(s')
    ensures Inv(s') && Grows(s, s')
  {
    var u := Add(s.window.cum, 1);
    assert s.ring.cum == s.window.cum && s.window.Valid();
    HasRefines(s.ring, s.window, u);
    if s.ring.Has(u) { PopLength(s.ring); }
    WireAdd(s.cum, 1);
    hide Wire, Represents, Ring.Has, Ring.Pop, Ring.Shape;
    if s.ring.Has(u) {
      PopRefines(s.ring, s.window, false);
      PoppedNext(s, u);
      PoppedKeeps(s.window);
      Moved(s, s.cum + 1, s'.ring, s'.window);
      PacketsKept(s, s', Data(0));
    }
  }

  lemma {:induction false} PopLength(r: Ring)
    requires r.Shape() && r.Has(Add(r.cum, 1))
    ensures |r.Pop(false).words| == |r.words| && r.Pop(false).cum == Add(r.cum, 1)
  {
  }

  lemma {:induction false} PoppedNext(s: State, u: uint32)
    requires ReceiverOk(s) && u == Add(s.window.cum, 1) && u in s.window.recv
    ensures s.cum + 1 in s.received && SettledTo(s, s.cum + 1)
  {
    hide Represents, Wire;
    assert s.cum + Dist(s.window.cum, u) in s.received;
    forall x | s.start < x <= s.cum + 1 ensures Settled(s, x) {
      if x <= s.cum { assert SettledTo(s, s.cum); }
    }
  }

  lemma {:induction false} PoppedKeeps(w: Window)
    requires w.Valid() && Add(w.cum, 1) in w.recv
    ensures forall v :: v in w.Pop(false).recv ==> v in w.recv && Dist(w.cum, v) > Dist(w.cum, Add(w.cum, 1))
  {
    forall v | v in w.Pop(false).recv ensures Dist(w.cum, v) > Dist(w.cum, Add(w.cum, 1)) { assert w.Covers(v); }
  }

  lemma {:induction false} ForwardArrives(s: State, t: int, s': State)
    requires Inv(s) && Step(s, ArriveForward(t), s') && RingOk(s')
    ensures Inv(s') && Grows(s, s')
  {
    WireOrder(t, s.cum);
    WireOrder(s.cum, t);
    assert Truthful(s, Forward(t));
    if t > s.cum {
      WireDist(s.cum, t);
      AdvancedTo(s.ring, s.window, Wire(t));
      AdvanceRefines(s.ring, s.window, Wire(t));
      hide Wire, Represents, Ring.Advance, Ring.Shape;
      Moved(s, t, s'.ring, s'.window);
      TruthfulGrows(s, s', Forward(t));
      PacketsKept(s, s', Forward(t));
    }
  }

  lemma {:induction false} AdvancedTo(r: Ring, w: Window, c: uint32)
    requires r.Shape() && r.cum == w.cum && Lt32(r.cum, c)
    ensures r.Advance(c).cum == c == w.Advance(c).cum && |r.Advance(c).words| == |r.words|
    ensures forall u :: u in w.Advance(c).recv ==> u in w.recv && Dist(w.cum, u) > Dist(w.cum, c)
  {
  }

  /** A truncated list of gap blocks still names only received TSNs. */
  lemma {:induction false} GapsReceived(s: State, gaps: seq<S.Gap>, maxBlocks: nat)
    requires ReceiverOk(s) && s.ring.Shape() && Encodes(gaps, s.ring.Gaps(maxBlocks))
    ensures forall k :: 0 <= k < |gaps| ==> 1 <= gaps[k].start <= gaps[k].end < 0xFFFF
    ensures forall x :: NamedBy(s.cum, gaps, x) ==> x in s.received
  {
    var w := s.window;
    var top := Dist(w.cum, s.ring.tail);
    GapsRefine(s.ring, w, maxBlocks);
    RunsExact(w.Offsets(), 1, top);
    TopBound(s.ring, w);
    hide Runs, Wire, Window.Offsets, SettledTo, Represents, Ring.Gaps, Ring.Shape, First;
    FirstOf(Runs(w.Offsets(), 1, top), maxBlocks);
    BlocksReceived(s, gaps, First(Runs(w.Offsets(), 1, top), maxBlocks), Runs(w.Offsets(), 1, top), top);
  }

  lemma {:induction false} TopBound(r: Ring, w: Window)
    requires Represents(r, w)
    ensures Dist(w.cum, r.tail) <= w.size < 0xFFFF
  {
    if w.recv != {} { assert w.Covers(r.tail); }
  }

  lemma {:induction false} FirstOf(all: seq<GapBlock>, maxBlocks: int)
    ensures First(all, maxBlocks) <= all
  {
  }

  lemma {:induction false} BlocksReceived(s: State, gaps: seq<S.Gap>, blocks: seq<GapBlock>, runs: seq<GapBlock>, top: nat)
    requires ReceiverOk(s) && Encodes(gaps, blocks) && blocks <= runs && top < 0xFFFF
    requires Exact(runs, s.window.Offsets(), 1, top)
    ensures forall k :: 0 <= k < |gaps| ==> 1 <= gaps[k].start <= gaps[k].end < 0xFFFF
    ensures forall x :: NamedBy(s.cum, gaps, x) ==> x in s.received
  {
    hide Wire, SettledTo, Represents, Window.Offsets;
    forall k | 0 <= k < |gaps| ensures gaps[k].start == runs[k].start && gaps[k].end == runs[k].end {
      assert blocks[k] == runs[k];
    }
    forall x | NamedBy(s.cum, gaps, x) ensures x in s.received {
      var k :| 0 <= k < |gaps| && gaps[k].start <= x - s.cum <= gaps[k].end;
      assert Covered(runs, x - s.cum);
      OffsetsMember(s.window, x - s.cum);
    }
  }

  lemma {:induction false} AckSent(s: State, gaps: seq<S.Gap>, maxBlocks: nat, s': State)
    requires Inv(s) && Step(s, SendAck(gaps, maxBlocks), s')
    ensures Inv(s') && Grows(s, s')
  {
    GapsReceived(s, gaps, maxBlocks);
    ReceiverKept(s, s');
    assert Truthful(s', Ack(s.cum, gaps));
    PacketsKept(s, s', Ack(s.cum, gaps));
  }

  lemma {:induction false} AckArrives(s: State, t: int, gaps: seq<S.Gap>, marks: set<int>, s': State)
    requires Inv(s) && Step(s, ArriveAck(t, gaps, marks), s')
    ensures Inv(s') && Grows(s, s')
  {
    hide Wire, Acceptable;
    WireOrder(s.cumAck, t);
    assert Truthful(s, Ack(t, gaps));
    ReceiverKept(s, s');
    TruthfulGrows(s, s', Ack(t, gaps));
    PacketsKept(s, s', Ack(t, gaps));
  }

  lemma {:induction false} StepKeeps(s: State, a: Action, s': State)
    requires Inv(s) && Step(s, a, s') && RingOk(s')
    ensures Inv(s') && Grows(s, s')
  {
    hide Inv, Grows, RingOk;
    match a
    case ArriveData(t, room) => DataArrives(s, t, room, s');
    case ArriveForward(t) => ForwardArrives(s, t, s');
    case Pop => PopArrived(s, s');
    case SendAck(gaps, maxBlocks) => AckSent(s, gaps, maxBlocks, s');
    case ArriveAck(t, gaps, marks) => AckArrives(s, t, gaps, marks, s');
    case _ => SenderSteps(s, a, s');
  }

  // -------------------------------------------------------------- whole runs

  ghost predicate StepAt(states: seq<State>, acts: seq<Action>, i: nat)
    requires |states| == |acts| + 1 && i < |acts|
  {
    Step(states[i], acts[i], states[i + 1])
  }

  /** The states a run goes through. */
  ghost predicate Run(states: seq<State>, acts: seq<Action>) {
    |states| == |acts| + 1 && forall i :: 0 <= i < |acts| ==> StepAt(states, acts, i)
  }

  /** A run in which no two TSNs of the receive window ever share a bit of the ring. */
  ghost predicate OkRun(states: seq<State>, acts: seq<Action>) {
    Run(states, acts) && Init(states[0]) && forall i :: 0 <= i < |states| ==> RingOk(states[i])
  }

  lemma {:induction false} InitInv(s: State)
    requires Init(s) && RingOk(s)
    ensures Inv(s)
  {
    EmptyRepresents(Wire(s.cum), |s.ring.words|);
  }

  lemma {:induction false} RunKeeps(states: seq<State>, acts: seq<Action>, n: nat)
    requires OkRun(states, acts) && n < |states|
    ensures Inv(states[n]) && states[n].start == states[0].start
  {
    if n > 0 {
      RunKeeps(states, acts, n - 1);
      assert StepAt(states, acts, n - 1);
      hide Inv, RingOk, Step;
      StepKeeps(states[n - 1], acts[n - 1], states[n]);
    } else {
      InitInv(states[0]);
    }
  }

  /** No false acks: whatever the network does, every chunk the sender has popped or
      marked was received by the peer or given up by the sender. */
  lemma {:induction false} NoFalseAcks(states: seq<State>, acts: seq<Action>, n: nat, x: int)
    requires OkRun(states, acts) && n < |states|
    requires states[0].start < x <= states[n].front || x in states[n].acked
    ensures x in states[n].received || x in states[n].abandoned
  {
    RunKeeps(states, acts, n);
    if x !in states[n].acked { assert Settled(states[n], x); }
  }

  /** Neither cumulative point ever moves back, and the sender's never passes the receiver's. */
  lemma {:induction false} AckPointsMonotone(states: seq<State>, acts: seq<Action>, m: nat, n: nat)
    requires OkRun(states, acts) && m <= n < |states|
    ensures states[m].cumAck <= states[n].cumAck <= states[n].cum
    ensures states[m].cum <= states[n].cum
    decreases n - m
  {
    hide Inv;
    RunKeeps(states, acts, n);
    AckedWithin(states[n]);
    if m < n {
      AckPointsMonotone(states, acts, m, n - 1);
      RunGrows(states, acts, n - 1);
    }
  }

  lemma {:induction false} RunGrows(states: seq<State>, acts: seq<Action>, n: nat)
    requires OkRun(states, acts) && n < |acts|
    ensures Grows(states[n], states[n + 1])
  {
    hide Inv, Step, RingOk, Grows;
    RunKeeps(states, acts, n);
    assert StepAt(states, acts, n);
    StepKeeps(states[n], acts[n], states[n + 1]);
  }

  lemma {:induction false} AckedWithin(s: State)
    requires Inv(s)
    ensures s.cumAck <= s.cum
  {
  }

  /** A SACK that arrives and is not stale covers only sent TSNs. It is refused if and
      only if one of its gap blocks reaches across 2^32 from its cumulative TSN. */
  lemma {:induction false} RefusedIff(states: seq<State>, acts: seq<Action>, n: nat, t: int, gaps: seq<S.Gap>)
    requires OkRun(states, acts) && n < |states|
    requires Ack(t, gaps) in states[n].packets && Near(t, states[n].cumAck)
    requires !Gt32(Wire(states[n].cumAck), Wire(t)) && states[n].front == states[n].cumAck
    ensures Acceptable(states[n], t, gaps) <==>
            forall k :: 0 <= k < |gaps| ==> Add(Wire(t), 1) + (gaps[k].end - 1) < TWO32
  {
    RunKeeps(states, acts, n);
    var s := states[n];
    assert Truthful(s, Ack(t, gaps));
    WireOrder(s.cumAck, t);
    WireDist(s.cumAck, t);
    forall k | 0 <= k < |gaps| ensures gaps[k].end <= s.next - 1 - t { assert NamedBy(t, gaps, t + gaps[k].end); }
  }

  /** What a refusal costs: once the queue has been popped past the ack point, the ack point
      never moves again, whatever arrives. */
  lemma {:induction false} RefusalIsFinal(states: seq<State>, acts: seq<Action>, m: nat, n: nat)
    requires Run(states, acts) && m <= n < |states| && states[m].front != states[m].cumAck
    ensures states[n].cumAck == states[m].cumAck && states[n].front == states[m].front
    decreases n - m
  {
    if m < n {
      RefusalIsFinal(states, acts, m, n - 1);
      assert StepAt(states, acts, n - 1);
      hide Ring.Push, Ring.Takes, Ring.Advance, Ring.Pop, Ring.Has, Ring.Gaps, Ring.Shape, Wire, Encodes;
    }
  }

  // ------------------------------------------------- what can still be reached

  /** What a SACK that is not stale does. As long as nothing was refused before: accepted, it
      moves the ack point and marks all it names; refused, it pops and marks in part. After
      that one for the same ack point can still mark, and no other does anything. */
  lemma {:induction false} SackTaken(s: State, t: int, gaps: seq<S.Gap>, marks: set<int>, s': State)
    requires Step(s, ArriveAck(t, gaps, marks), s') && !Gt32(Wire(s.cumAck), Wire(t))
    ensures s.front == s.cumAck ==> s'.front == t && s'.acked == s.acked + marks
    ensures s.front == s.cumAck && Acceptable(s, t, gaps) ==> s'.cumAck == t && forall x :: NamedBy(t, gaps, x) <==> x in marks
    ensures s.front == s.cumAck && !Acceptable(s, t, gaps) ==> s'.cumAck == s.cumAck
    ensures s.front != s.cumAck ==> s' == if t == s.cumAck then s.(acked := s.acked + marks) else s
  {
    if Wire(t) == Wire(s.cumAck) { WireInjective(t, s.cumAck); }
    hide Wire, Acceptable, Gt32;
  }

  /** The ring is such that no two TSNs of any window share a bit, and nothing was refused
      after popping. */
  ghost predicate Sound(s: State) { Inv(s) && 0x400_0000 % |s.ring.words| == 0 && s.front == s.cumAck }

  lemma {:induction false} SoundStep(s: State, a: Action, s': State)
    requires Inv(s) && |s.ring.words| > 0 && 0x400_0000 % |s.ring.words| == 0 && Step(s, a, s')
    requires |s'.ring.words| == |s.ring.words|
    ensures Inv(s')
  {
    hide Inv, Step;
    StepKeeps(s, a, s');
  }

  /** The next TSN is sent again, arrives and is passed. */
  lemma {:induction false} NextArrives(states: seq<State>, acts: seq<Action>) returns (states': seq<State>, acts': seq<Action>)
    requires Run(states, acts) && Sound(states[|acts|]) && states[|acts|].cum + 1 < states[|acts|].next
    ensures Run(states', acts') && states'[0] == states[0] && Sound(states'[|acts'|])
    ensures var s, s' := states[|acts|], states'[|acts'|];
            && s'.cum == s.cum + 1 && s'.cumAck == s.cumAck && s'.next == s.next
            && s'.start == s.start && s'.abandoned == s.abandoned
  {
    var s := states[|acts|];
    var x := s.cum + 1;
    var s1 := s.(packets := s.packets + {Data(x)});
    RepresentsShape(s.ring, s.window);
    NextCovered(s, x);
    PushLength(s.ring, Wire(x));
    SoundStep(s, Resend(x), s1);
    states', acts' := Extend(states, acts, Resend(x), s1);
    var s2 := if s1.ring.Takes(Wire(x))
              then s1.(ring := s1.ring.Push(Wire(x)), window := s1.window.Push(Wire(x)), received := s1.received + {x})
              else s1;
    SoundStep(s1, ArriveData(x, true), s2);
    states', acts' := Extend(states', acts', ArriveData(x, true), s2);
    NextHeld(s1, x, s2);
    PopLength(s2.ring);
    var s3 := s2.(ring := s2.ring.Pop(false), window := s2.window.Pop(false), cum := s2.cum + 1);
    SoundStep(s2, Pop, s3);
    states', acts' := Extend(states', acts', Pop, s3);
  }

  lemma {:induction false} NextCovered(s: State, x: int)
    requires Inv(s) && x == s.cum + 1
    ensures |s.ring.words| > 0 && s.window.Covers(Wire(x)) && Wire(x) == Add(s.ring.cum, 1) && s.ring.cum == s.window.cum
    ensures Near(x, s.cum) && s.front < x
  {
    WireAdd(s.cum, 1);
  }

  lemma {:induction false} NextHeld(s: State, x: int, s': State)
    requires Inv(s) && Inv(s') && x == s.cum + 1 && s.ring.Shape()
    requires s' == if s.ring.Takes(Wire(x))
                   then s.(ring := s.ring.Push(Wire(x)), window := s.window.Push(Wire(x)), received := s.received + {x})
                   else s
    ensures s'.ring.Shape() && s'.ring.Has(Add(s'.ring.cum, 1))
  {
    NextCovered(s, x);
    NextCovered(s', x);
    PushRefines(s.ring, s.window, Wire(x));
    RepresentsShape(s'.ring, s'.window);
    HasRefines(s'.ring, s'.window, Wire(x));
  }

  /** The receiver acknowledges what it has passed, and the sender takes it. */
  lemma {:induction false} AckedUp(states: seq<State>, acts: seq<Action>) returns (states': seq<State>, acts': seq<Action>)
    requires Run(states, acts) && Sound(states[|acts|])
    ensures Run(states', acts') && states'[0] == states[0]
    ensures var s, s' := states[|acts|], states'[|acts'|];
            s'.cumAck == s'.front == s.cum && s'.next == s.next && s'.received == s.received && s'.abandoned == s.abandoned
  {
    var s := states[|acts|];
    var t := s.cum;
    RepresentsShape(s.ring, s.window);
    var s1 := s.(packets := s.packets + {Ack(t, [])});
    WireOrder(s.cumAck, t);
    WireDist(s.cumAck, t);
    hide Wire, Gt32, Dist, Ring.Shape, Ring.AllGaps;
    states', acts' := Extend(states, acts, SendAck([], 0), s1);
    states', acts' := Extend(states', acts', ArriveAck(t, [], {}), s1.(cumAck := t, front := t, acked := s1.acked + {}));
  }

  /** The transport never gets stuck: from any state there is a way on in which everything
      sent so far is received and acknowledged. */
  lemma {:induction false} CatchesUp(s: State) returns (states: seq<State>, acts: seq<Action>)
    requires Sound(s)
    ensures Run(states, acts) && states[0] == s && states[|acts|].cumAck == s.next - 1
    ensures forall x :: s.cum < x < s.next ==> x in states[|acts|].received || x in states[|acts|].abandoned
    ensures states[|acts|].abandoned == s.abandoned
  {
    states, acts := [s], [];
    while states[|acts|].cum < s.next - 1
      invariant Run(states, acts) && states[0] == s && Sound(states[|acts|])
      invariant var last := states[|acts|];
                last.next == s.next && last.start == s.start && last.abandoned == s.abandoned && last.cum < s.next
      decreases s.next - states[|acts|].cum
    {
      hide Sound, Run;
      states, acts := NextArrives(states, acts);
    }
    SettledBelow(states[|acts|], s);
    states, acts := AckedUp(states, acts);
  }

  /** And only a refusal after popping is in the way. */
  lemma {:induction false} CatchesUpIff(s: State)
    requires Inv(s) && 0x400_0000 % |s.ring.words| == 0
    ensures s.front == s.cumAck <==>
            exists states: seq<State>, acts: seq<Action> :: Run(states, acts) && states[0] == s && states[|acts|].cumAck == s.next - 1
  {
    if s.front == s.cumAck {
      var states, acts := CatchesUp(s);
    } else if states: seq<State>, acts: seq<Action> :| Run(states, acts) && states[0] == s && states[|acts|].cumAck == s.next - 1 {
      RefusalIsFinal(states, acts, 0, |acts|);
    }
  }

  /** The sender may also give everything up that it has sent: the receiver is told to pass
      it, and nothing more need arrive. */
  lemma {:induction false} GivesUp(s: State) returns (states: seq<State>, acts: seq<Action>)
    requires Sound(s)
    ensures Run(states, acts) && states[0] == s && states[|acts|].cumAck == s.next - 1
    ensures states[|acts|].received == s.received
    ensures forall x :: s.cumAck < x < s.next ==> x in states[|acts|].abandoned
  {
    states, acts := [s], [];
    var k := s.cumAck + 1;
    while k < s.next
      invariant s.cumAck < k <= s.next && Run(states, acts) && states[0] == s && Sound(states[|acts|])
      invariant states[|acts|] == s.(abandoned := states[|acts|].abandoned)
      invariant forall x :: s.cumAck < x < k ==> x in states[|acts|].abandoned
    {
      var last := states[|acts|];
      var s' := last.(abandoned := last.abandoned + {k});
      SoundStep(last, Abandon(k), s');
      states, acts := Extend(states, acts, Abandon(k), s');
      k := k + 1;
    }
    states, acts := Forwarded(states, acts, s.next - 1);
    states, acts := AckedUp(states, acts);
  }

  lemma {:induction false} Forwarded(states: seq<State>, acts: seq<Action>, t: int) returns (states': seq<State>, acts': seq<Action>)
    requires Run(states, acts) && Sound(states[|acts|])
    requires var s := states[|acts|]; t == s.next - 1 && forall x :: s.cumAck < x <= t ==> x in s.abandoned
    ensures Run(states', acts') && states'[0] == states[0] && Sound(states'[|acts'|])
    ensures var s, s' := states[|acts|], states'[|acts'|];
            s'.cum == t && s'.next == s.next && s'.received == s.received && s'.abandoned == s.abandoned
  {
    var s := states[|acts|];
    var s1 := s.(packets := s.packets + {Forward(t)});
    SoundStep(s, SendForward(t), s1);
    states', acts' := Extend(states, acts, SendForward(t), s1);
    RepresentsShape(s.ring, s.window);
    WireOrder(t, s.cum);
    WireOrder(s.cum, t);
    if s.cum < t { AdvancedTo(s.ring, s.window, Wire(t)); }
    var s2 := if t <= s.cum then s1 else s1.(ring := s1.ring.Advance(Wire(t)), window := s1.window.Advance(Wire(t)), cum := t);
    SoundStep(s1, ArriveForward(t), s2);
    states', acts' := Extend(states', acts', ArriveForward(t), s2);
  }

  lemma {:induction false} SettledBelow(s': State, s: State)
    requires Inv(s') && s'.cum == s.next - 1 && s'.start <= s.cum
    ensures forall x :: s.cum < x < s.next ==> x in s'.received || x in s'.abandoned
  {
    forall x | s.cum < x < s.next ensures x in s'.received || x in s'.abandoned { assert Settled(s', x); }
  }

  // ------------------------------------------- where two TSNs share a bit

  /** A run of n sends from s. */
  lemma {:induction false} SendMany(s: State, n: nat) returns (states: seq<State>, acts: seq<Action>)
    requires s.next - s.cumAck + n <= HALF32
    ensures Run(states, acts) && |acts| == n && states[0] == s
    ensures states[n] == s.(next := s.next + n, packets := states[n].packets)
    ensures n > 0 ==> Data(s.next + n - 1) in states[n].packets
  {
    if n == 0 {
      states, acts := [s], [];
    } else {
      states, acts := SendMany(s, n - 1);
      var last := states[n - 1];
      var next := last.(next := last.next + 1, packets := last.packets + {Data(last.next)});
      states, acts := Extend(states, acts, Send, next);
    }
  }

  lemma {:induction false} Extend(states: seq<State>, acts: seq<Action>, a: Action, s': State)
    returns (states': seq<State>, acts': seq<Action>)
    requires Run(states, acts) && Step(states[|acts|], a, s')
    ensures Run(states', acts') && |acts'| == |acts| + 1
    ensures states'[0] == states[0] && states'[|acts'|] == s' && states'[|acts|] == states[|acts|]
  {
    states', acts' := states + [s'], acts + [a];
    forall i | 0 <= i < |acts'| ensures StepAt(states', acts', i) {
      if i < |acts| { assert StepAt(states, acts, i); }
    }
  }

  /** The start of a connection whose first TSN is 2^32 - 1, with the default ring. */
  function AtWrap(): State {
    var c := TWO32 - 2;
    State(c, c, c, c + 1, {}, {}, Fresh(c, 132), Window(c, {}, 64 * 132), c, {}, {})
  }

  /** A false ack: of the 4097 TSNs sent only the last arrives. Its bit is that of the first,
      so the receiver passes the first and acknowledges it, and the sender pops it. */
  lemma {:induction false} FalseAck() returns (states: seq<State>, acts: seq<Action>)
    ensures Run(states, acts) && Init(states[0]) && |states[0].ring.words| == 132
    ensures var s := states[|acts|]; var x := states[0].start + 1;
            x <= s.cumAck && x !in s.received && x !in s.abandoned
  {
    var s0 := AtWrap();
    var x, u := TWO32 - 1, TWO32 + 4095;
    WireSmall(TWO32 - 2);
    WireSmall(TWO32 - 1);
    WireWrapped(4095);
    assert SameSlot(132, TWO32 - 1, 4095);
    PushedReads(TWO32 - 2, 132, TWO32 - 1, 4095);
    states, acts := SendMany(s0, 4097);
    var s1 := states[4097];
    hide Wire, Ring.Has, Ring.Takes, Ring.Push, Ring.Pop;
    var s2 := s1.(ring := s1.ring.Push(4095), window := s1.window.Push(4095), received := {u});
    assert s1.received + {u} == {u};
    states, acts := Extend(states, acts, ArriveData(u, true), s2);
    PushShape(s1.ring, 4095);
    PushLength(s1.ring, 4095);
    var s3 := s2.(ring := s2.ring.Pop(false), window := s2.window.Pop(false), cum := x);
    states, acts := Extend(states, acts, Pop, s3);
    PopShape(s2.ring, false);
    var s4 := s3.(packets := s3.packets + {Ack(x, [])});
    NothingCounted(s3.ring, 0);
    states, acts := Extend(states, acts, SendAck([], 0), s4);
    var s5 := s4.(cumAck := x, front := x, acked := s4.acked + {});
    AckTaken(s4, x);
    states, acts := Extend(states, acts, ArriveAck(x, [], {}), s5);
  }

  lemma {:induction false} AckTaken(s: State, t: int)
    requires s.cumAck == TWO32 - 2 && t == TWO32 - 1 && s.next >= TWO32
    ensures Acceptable(s, t, []) && !Gt32(Wire(s.cumAck), Wire(t))
  {
    WireSmall(TWO32 - 2);
    WireSmall(TWO32 - 1);
  }

  lemma {:induction false} WireSmall(x: int)
    requires 0 <= x < TWO32
    ensures Wire(x) == x
  {
  }

  lemma {:induction false} WireWrapped(x: int)
    requires 0 <= x < TWO32
    ensures Wire(TWO32 + x) == x
  {
    ModUnique(TWO32 + x, TWO32, 1, x);
  }
}
