/** The per-DataChannel send protocol: many dc:send calls, one sender goroutine, one
    close with its drain, and the condition variable the sender waits on while the
    native buffer is above the low-water mark.

    One step of the system is one atomic action of the Go program: a channel
    operation, a read under the lock, a wait, a broadcast, a response. Every
    interleaving of these actions is a run. */
module DcSend {
  /** A dc:send call, from its select to its return. Its item is its own index. */
  datatype Producer = Start | Enqueued | Reclaiming | Holding(item: nat) | Finished

  /** The sender goroutine. `SeenHigh` and `SeenOpen` hold the condition's lock. */
  datatype Sender =
    | Idle | Sending(item: nat)
    | Checking(item: nat) | SeenHigh(item: nat) | SeenOpen(item: nat) | Parked(item: nat)
    | Answering(item: nat) | Exited

  /** The one execution of closeState that closeOnce lets through. */
  datatype Closer = Open | Signalling | Draining | DrainHolding(item: nat) | Closed

  /** Where an item is. */
  datatype Place = Unsent | InQueue | WithSender | WithCloser | With(producer: nat) | Answered

  datatype State = State(
    pc: seq<Producer>, queue: seq<nat>, cap: nat, sender: Sender, closer: Closer,
    buffered: nat, threshold: nat, dcThreshold: nat,
    setters: multiset<nat>,  // setBufferedAmountLowThreshold calls between their two updates
    low: nat,                // OnBufferedAmountLow callbacks fired and not yet run
    log: seq<nat>,           // responses, in order
    enqueued: seq<nat>, popped: seq<nat>, taken: seq<nat>,
    place: seq<Place>)
  {
    predicate Done() { closer != Open }

    predicate LockFree() { !sender.SeenHigh? && !sender.SeenOpen? }

    predicate HasItem() { !sender.Idle? && !sender.Exited? }

    /** cond.Broadcast */
    function Woken(): Sender { if sender.Parked? then Checking(sender.item) else sender }
  }

  datatype ProducerAct = Enqueue | Reject | CheckPass | CheckDone | Reclaim | ReclaimMiss | Respond

  datatype SenderAct =
    | Take | Exit | SendOk(n: nat, awaitDrain: bool) | SendFail
    | SeeLow | SeeHigh | SeeClosed | SeeOpen | Park | Answer

  datatype CloserAct = Close | Broadcast | Drain | DrainAnswer | DrainEnd

  datatype BufferAct = Release(n: nat) | SignalLow | SetDc(t: nat) | SetState(t: nat)

  datatype Action = P(p: nat, pa: ProducerAct) | S(sa: SenderAct) | C(ca: CloserAct) | B(ba: BufferAct)

  /** The moves of the network and of other clients; all others are the protocol's own. */
  predicate External(a: Action) {
    a == C(Close) || (a.B? && (a.ba.Release? || a.ba.SetDc?))
  }

  predicate EnabledP(s: State, p: nat, a: ProducerAct) {
    && p < |s.pc|
    && match a
       case Enqueue => s.pc[p].Start? && |s.queue| < s.cap
       case Reject => s.pc[p].Start? && s.Done()
       case CheckPass => s.pc[p].Enqueued? && !s.Done()
       case CheckDone => s.pc[p].Enqueued? && s.Done()
       case Reclaim => s.pc[p].Reclaiming? && s.queue != []
       case ReclaimMiss => s.pc[p].Reclaiming? && s.queue == []
       case Respond => s.pc[p].Holding?
  }

  predicate EnabledS(s: State, a: SenderAct) {
    match a
    case Take => s.sender.Idle? && s.queue != []
    case Exit => s.sender.Idle? && s.Done()
    case SendOk(n, w) => s.sender.Sending?
    case SendFail => s.sender.Sending?
    case SeeLow => s.sender.Checking? && s.buffered <= s.threshold
    case SeeHigh => s.sender.Checking? && s.buffered > s.threshold
    case SeeClosed => s.sender.SeenHigh? && s.Done()
    case SeeOpen => s.sender.SeenHigh? && !s.Done()
    case Park => s.sender.SeenOpen?
    case Answer => s.sender.Answering?
  }

  predicate EnabledC(s: State, a: CloserAct) {
    match a
    case Close => s.closer.Open?
    case Broadcast => s.closer.Signalling? && s.LockFree()
    case Drain => s.closer.Draining? && s.queue != []
    case DrainAnswer => s.closer.DrainHolding?
    case DrainEnd => s.closer.Draining? && s.queue == []
  }

  predicate EnabledB(s: State, a: BufferAct) {
    match a
    case Release(n) => n <= s.buffered
    case SignalLow => s.low > 0 && s.LockFree()
    case SetDc(t) => true
    case SetState(t) => t in s.setters && s.LockFree()
  }

  predicate Enabled(s: State, a: Action) {
    match a
    case P(p, pa) => EnabledP(s, p, pa)
    case S(sa) => EnabledS(s, sa)
    case C(ca) => EnabledC(s, ca)
    case B(ba) => EnabledB(s, ba)
  }

  predicate Shape(s: State) {
    && |s.place| == |s.pc|
    && (forall k :: 0 <= k < |s.queue| ==> s.queue[k] < |s.pc|)
    && (s.HasItem() ==> s.sender.item < |s.pc|)
    && (s.closer.DrainHolding? ==> s.closer.item < |s.pc|)
    && (forall p :: 0 <= p < |s.pc| && s.pc[p].Holding? ==> s.pc[p].item < |s.pc|)
  }

  function Pop(s: State, to: Place): State
    requires Shape(s) && s.queue != []
  {
    s.(queue := s.queue[1..], popped := s.popped + [s.queue[0]], place := s.place[s.queue[0] := to])
  }

  function Reply(s: State, item: nat): State
    requires item < |s.place|
  {
    s.(log := s.log + [item], place := s.place[item := Answered])
  }

  function ApplyP(s: State, p: nat, a: ProducerAct): State
    requires Shape(s) && EnabledP(s, p, a)
  {
    match a
    case Enqueue =>
      s.(pc := s.pc[p := Enqueued], queue := s.queue + [p], enqueued := s.enqueued + [p],
         place := s.place[p := InQueue])
    case Reject => Reply(s, p).(pc := s.pc[p := Finished])
    case CheckPass => s.(pc := s.pc[p := Finished])
    case CheckDone => s.(pc := s.pc[p := Reclaiming])
    case Reclaim => Pop(s, With(p)).(pc := s.pc[p := Holding(s.queue[0])])
    case ReclaimMiss => s.(pc := s.pc[p := Finished])
    case Respond => Reply(s, s.pc[p].item).(pc := s.pc[p := Finished])
  }

  function ApplyS(s: State, a: SenderAct): State
    requires Shape(s) && EnabledS(s, a)
  {
    match a
    case Take => Pop(s, WithSender).(sender := Sending(s.queue[0]), taken := s.taken + [s.queue[0]])
    case Exit => s.(sender := Exited)
    case SendOk(n, awaitDrain) =>
      var item := s.sender.item;
      s.(buffered := s.buffered + n, sender := if awaitDrain then Checking(item) else Answering(item))
    case SendFail => s.(sender := Answering(s.sender.item))
    case SeeLow => s.(sender := Answering(s.sender.item))
    case SeeHigh => s.(sender := SeenHigh(s.sender.item))
    case SeeClosed => s.(sender := Answering(s.sender.item))
    case SeeOpen => s.(sender := SeenOpen(s.sender.item))
    case Park => s.(sender := Parked(s.sender.item))
    case Answer => Reply(s, s.sender.item).(sender := Idle)
  }

  function ApplyC(s: State, a: CloserAct): State
    requires Shape(s) && EnabledC(s, a)
  {
    match a
    case Close => s.(closer := Signalling)
    case Broadcast => s.(closer := Draining, sender := s.Woken())
    case Drain => Pop(s, WithCloser).(closer := DrainHolding(s.queue[0]))
    case DrainAnswer => Reply(s, s.closer.item).(closer := Draining)
    case DrainEnd => s.(closer := Closed)
  }

  function ApplyB(s: State, a: BufferAct): State
    requires EnabledB(s, a)
  {
    match a
    case Release(n) =>
      s.(buffered := s.buffered - n,
         low := if s.buffered > s.dcThreshold >= s.buffered - n then s.low + 1 else s.low)
    case SignalLow => s.(low := s.low - 1, sender := s.Woken())
    case SetDc(t) => s.(dcThreshold := t, setters := s.setters + multiset{t})
    case SetState(t) =>
      s.(threshold := t, setters := s.setters - multiset{t}, sender := s.Woken())
  }

  function Apply(s: State, a: Action): State
    requires Shape(s) && Enabled(s, a)
  {
    match a
    case P(p, pa) => ApplyP(s, p, pa)
    case S(sa) => ApplyS(s, sa)
    case C(ca) => ApplyC(s, ca)
    case B(ba) => ApplyB(s, ba)
  }

  predicate Init(s: State) {
    && s.cap >= 1 && s.sender.Idle? && s.closer.Open? && s.queue == []
    && s.log == [] && s.enqueued == [] && s.popped == [] && s.taken == []
    && s.buffered == 0 && s.threshold == s.dcThreshold && s.setters == multiset{} && s.low == 0
    && |s.place| == |s.pc|
    && forall p :: 0 <= p < |s.pc| ==> s.pc[p].Start? && s.place[p].Unsent?
  }

  // ------------------------------------------------- one place for each item

  ghost predicate Distinct(q: seq<nat>) { forall i, j :: 0 <= i < j < |q| ==> q[i] != q[j] }

  /** Whatever item i's place says is so. */
  ghost predicate ItemAt(s: State, i: nat)
    requires |s.place| == |s.pc| && i < |s.place|
  {
    && (s.place[i].Unsent? <==> s.pc[i].Start?)
    && (s.place[i].InQueue? <==> i in s.queue)
    && (s.place[i].Answered? <==> i in s.log)
    && (s.place[i].WithSender? ==> s.HasItem() && s.sender.item == i)
    && (s.place[i].WithCloser? ==> s.closer == DrainHolding(i))
    && (s.place[i].With? ==> s.place[i].producer < |s.pc| && s.pc[s.place[i].producer] == Holding(i))
  }

  /** A producer with an item in hand is where that item is. */
  ghost predicate HandAt(s: State, p: nat)
    requires |s.place| == |s.pc| && p < |s.pc|
  {
    s.pc[p].Holding? ==> s.pc[p].item < |s.pc| && s.place[s.pc[p].item] == With(p)
  }

  /** Every list and every hand that holds items agrees with `place`. */
  ghost predicate Placed(s: State) {
    && Shape(s)
    && Distinct(s.queue) && Distinct(s.log)
    && (forall i :: 0 <= i < |s.place| ==> ItemAt(s, i))
    && (forall i :: i in s.log ==> i < |s.pc|)
    && (s.HasItem() ==> s.place[s.sender.item].WithSender?)
    && (s.closer.DrainHolding? ==> s.place[s.closer.item].WithCloser?)
    && (forall p :: 0 <= p < |s.pc| ==> HandAt(s, p))
  }

  lemma {:induction false} PopFacts(s: State)
    requires Placed(s) && s.queue != []
    ensures Distinct(s.queue[1..]) && s.queue[0] !in s.queue[1..]
    ensures forall i: nat :: i in s.queue <==> i == s.queue[0] || i in s.queue[1..]
    ensures s.queue[0] < |s.place| && s.place[s.queue[0]].InQueue?
  {
    assert s.queue == [s.queue[0]] + s.queue[1..];
    assert ItemAt(s, s.queue[0]);
  }

  lemma {:induction false} LogFacts(s: State, item: nat)
    requires Placed(s) && item < |s.place| && !s.place[item].Answered?
    ensures Distinct(s.log + [item])
    ensures forall i: nat :: i in s.log + [item] <==> i in s.log || i == item
  {
    assert ItemAt(s, item);
  }

  lemma {:induction false} PlacedEnqueue(s: State, p: nat)
    requires Placed(s) && EnabledP(s, p, Enqueue)
    ensures Placed(ApplyP(s, p, Enqueue))
  {
    var s' := ApplyP(s, p, Enqueue);
    assert ItemAt(s, p);
    hide Distinct;
    EnqueueFacts(s.queue, p);
    forall i | 0 <= i < |s'.place| ensures ItemAt(s', i) { assert ItemAt(s, i); }
    forall q | 0 <= q < |s'.pc| ensures HandAt(s', q) { assert HandAt(s, q); }
  }

  lemma {:induction false} EnqueueFacts(queue: seq<nat>, p: nat)
    requires Distinct(queue) && p !in queue
    ensures Distinct(queue + [p]) && forall i: nat :: i in queue + [p] <==> i in queue || i == p
  {
  }

  lemma {:induction false} PlacedReject(s: State, p: nat)
    requires Placed(s) && EnabledP(s, p, Reject)
    ensures Placed(ApplyP(s, p, Reject))
  {
    var s' := ApplyP(s, p, Reject);
    assert ItemAt(s, p);
    hide Distinct;
    LogFacts(s, p);
    forall i | 0 <= i < |s'.place| ensures ItemAt(s', i) { assert ItemAt(s, i); }
    forall q | 0 <= q < |s'.pc| ensures HandAt(s', q) { assert HandAt(s, q); }
  }

  lemma {:induction false} PlacedReclaim(s: State, p: nat)
    requires Placed(s) && EnabledP(s, p, Reclaim)
    ensures Placed(ApplyP(s, p, Reclaim))
  {
    hide Distinct;
    var s' := ApplyP(s, p, Reclaim);
    PopFacts(s);
    forall i | 0 <= i < |s'.place| ensures ItemAt(s', i) { assert ItemAt(s, i); }
    forall q | 0 <= q < |s'.pc| ensures HandAt(s', q) { assert HandAt(s, q); }
  }

  lemma {:induction false} PlacedRespond(s: State, p: nat)
    requires Placed(s) && EnabledP(s, p, Respond)
    ensures Placed(ApplyP(s, p, Respond))
  {
    hide Distinct;
    var s' := ApplyP(s, p, Respond);
    assert HandAt(s, p);
    LogFacts(s, s.pc[p].item);
    assert ItemAt(s, s.pc[p].item);
    forall i | 0 <= i < |s'.place| ensures ItemAt(s', i) { assert ItemAt(s, i); }
    forall q | 0 <= q < |s'.pc| ensures HandAt(s', q) { assert HandAt(s, q); }
  }

  /** A producer that only moves on. */
  lemma {:induction false} PlacedMove(s: State, p: nat, to: Producer)
    requires Placed(s) && p < |s.pc| && !s.pc[p].Start? && !s.pc[p].Holding? && !to.Start? && !to.Holding?
    ensures Placed(s.(pc := s.pc[p := to]))
  {
    hide Distinct;
    var s' := s.(pc := s.pc[p := to]);
    forall i | 0 <= i < |s'.place| ensures ItemAt(s', i) { assert ItemAt(s, i); }
    forall q | 0 <= q < |s'.pc| ensures HandAt(s', q) { assert HandAt(s, q); }
  }

  lemma {:induction false} PlacedP(s: State, p: nat, a: ProducerAct)
    requires Placed(s) && EnabledP(s, p, a)
    ensures Placed(ApplyP(s, p, a))
  {
    PlacedShape(s);
    hide Placed, Shape;
    match a
    case Enqueue => PlacedEnqueue(s, p);
    case Reject => PlacedReject(s, p);
    case Reclaim => PlacedReclaim(s, p);
    case Respond => PlacedRespond(s, p);
    case CheckPass => PlacedMove(s, p, Finished);
    case CheckDone => PlacedMove(s, p, Reclaiming);
    case ReclaimMiss => PlacedMove(s, p, Finished);
  }

  lemma {:induction false} PlacedShape(s: State)
    requires Placed(s)
    ensures Shape(s)
  {
  }

  lemma {:induction false} PlacedTake(s: State)
    requires Placed(s) && EnabledS(s, Take)
    ensures Placed(ApplyS(s, Take))
  {
    hide Distinct;
    var s' := ApplyS(s, Take);
    PopFacts(s);
    forall i | 0 <= i < |s'.place| ensures ItemAt(s', i) { assert ItemAt(s, i); }
    forall q | 0 <= q < |s'.pc| ensures HandAt(s', q) { assert HandAt(s, q); }
  }

  lemma {:induction false} PlacedAnswer(s: State)
    requires Placed(s) && EnabledS(s, Answer)
    ensures Placed(ApplyS(s, Answer))
  {
    hide Distinct;
    var s' := ApplyS(s, Answer);
    LogFacts(s, s.sender.item);
    assert ItemAt(s, s.sender.item);
    forall i | 0 <= i < |s'.place| ensures ItemAt(s', i) { assert ItemAt(s, i); }
    forall q | 0 <= q < |s'.pc| ensures HandAt(s', q) { assert HandAt(s, q); }
  }

  lemma {:induction false} PlacedDrain(s: State)
    requires Placed(s) && EnabledC(s, Drain)
    ensures Placed(ApplyC(s, Drain))
  {
    hide Distinct;
    var s' := ApplyC(s, Drain);
    PopFacts(s);
    forall i | 0 <= i < |s'.place| ensures ItemAt(s', i) { assert ItemAt(s, i); }
    forall q | 0 <= q < |s'.pc| ensures HandAt(s', q) { assert HandAt(s, q); }
  }

  lemma {:induction false} PlacedDrainAnswer(s: State)
    requires Placed(s) && EnabledC(s, DrainAnswer)
    ensures Placed(ApplyC(s, DrainAnswer))
  {
    hide Distinct;
    var s' := ApplyC(s, DrainAnswer);
    LogFacts(s, s.closer.item);
    assert ItemAt(s, s.closer.item);
    forall i | 0 <= i < |s'.place| ensures ItemAt(s', i) { assert ItemAt(s, i); }
    forall q | 0 <= q < |s'.pc| ensures HandAt(s', q) { assert HandAt(s, q); }
  }

  /** Steps that move no item: the sender keeps what it has, the closer too. */
  lemma {:induction false} PlacedStill(s: State, s': State)
    requires Placed(s) && s'.pc == s.pc && s'.queue == s.queue && s'.log == s.log && s'.place == s.place
    requires s'.HasItem() == s.HasItem() && (s.HasItem() ==> s'.sender.item == s.sender.item)
    requires s'.closer.DrainHolding? == s.closer.DrainHolding? && (s.closer.DrainHolding? ==> s'.closer == s.closer)
    ensures Placed(s')
  {
    hide Distinct;
    forall i | 0 <= i < |s'.place| ensures ItemAt(s', i) { assert ItemAt(s, i); }
    forall q | 0 <= q < |s'.pc| ensures HandAt(s', q) { assert HandAt(s, q); }
  }

  lemma {:induction false} PlacedS(s: State, a: SenderAct)
    requires Placed(s) && EnabledS(s, a)
    ensures Placed(ApplyS(s, a))
  {
    PlacedShape(s);
    hide Placed, Shape;
    if a.Take? { PlacedTake(s); } else if a.Answer? { PlacedAnswer(s); } else { PlacedStill(s, ApplyS(s, a)); }
  }

  lemma {:induction false} PlacedC(s: State, a: CloserAct)
    requires Placed(s) && EnabledC(s, a)
    ensures Placed(ApplyC(s, a))
  {
    PlacedShape(s);
    hide Placed, Shape;
    if a.Drain? { PlacedDrain(s); } else if a.DrainAnswer? { PlacedDrainAnswer(s); } else { PlacedStill(s, ApplyC(s, a)); }
  }

  lemma {:induction false} PlacedB(s: State, a: BufferAct)
    requires Placed(s) && EnabledB(s, a)
    ensures Placed(ApplyB(s, a))
  {
    hide Placed;
    PlacedStill(s, ApplyB(s, a));
  }

  // --------------------------------------------------------- after the drain

  /** Producers between their enqueue and the end of their re-check. */
  ghost function Rechecking(pc: seq<Producer>): set<nat> {
    set p | 0 <= p < |pc| && (pc[p].Enqueued? || pc[p].Reclaiming?)
  }

  /** Once the drain has ended, each item still queued has a producer yet to re-check. */
  ghost predicate Covered(s: State) {
    s.closer.Closed? ==> |s.queue| <= |Rechecking(s.pc)|
  }

  lemma {:induction false} RecheckingUpdate(pc: seq<Producer>, p: nat, to: Producer)
    requires p < |pc|
    ensures var r, r' := Rechecking(pc), Rechecking(pc[p := to]);
            && r' == (if to.Enqueued? || to.Reclaiming? then r + {p} else r - {p})
            && |r'| == |r - {p}| + (if to.Enqueued? || to.Reclaiming? then 1 else 0)
            && |r| == |r - {p}| + (if p in r then 1 else 0)
  {
    var r, r' := Rechecking(pc), Rechecking(pc[p := to]);
    assert r' - {p} == r - {p};
    if p in r { assert r == (r - {p}) + {p}; } else { assert r == r - {p}; }
    if p in r' { assert r' == (r - {p}) + {p}; } else { assert r' == r - {p}; }
  }

  lemma {:induction false} CoveredP(s: State, p: nat, a: ProducerAct)
    requires Shape(s) && Covered(s) && EnabledP(s, p, a)
    ensures Covered(ApplyP(s, p, a))
  {
    RecheckingUpdate(s.pc, p, ApplyP(s, p, a).pc[p]);
  }

  // --------------------------------------------------------------- waiting

  /** A sender that has found the channel open and waits, or is about to, will still
      hear a close: its broadcast has not happened. */
  ghost predicate CloseHeard(s: State) {
    s.Done() && (s.sender.SeenOpen? || s.sender.Parked?) ==> s.closer.Signalling?
  }

  /** The two copies of the threshold differ only inside a set call. */
  ghost predicate Synced(s: State) {
    s.setters == multiset{s.dcThreshold} || (s.setters == multiset{} && s.dcThreshold == s.threshold)
  }

  /** A sender that has found the buffer high and waits, or is about to, while the
      buffer is already low again, will be woken: a callback or a set call is on its way. */
  ghost predicate DrainHeard(s: State) {
    (s.sender.SeenHigh? || s.sender.SeenOpen? || s.sender.Parked?) && s.buffered <= s.threshold ==>
      s.low > 0 || s.setters != multiset{}
  }

  lemma {:induction false} DrainHeardStep(s: State, a: Action)
    requires Shape(s) && Synced(s) && DrainHeard(s) && Enabled(s, a)
    requires a.B? && a.ba.SetDc? ==> s.setters == multiset{}
    ensures Synced(Apply(s, a)) && DrainHeard(Apply(s, a))
  {
    if a.B? {
      DrainHeardB(s, a.ba);
    } else if a.S? {
      DrainHeardS(s, a.sa);
    } else if a.C? {
      DrainHeardC(s, a.ca);
    }
  }

  lemma {:induction false} DrainHeardC(s: State, a: CloserAct)
    requires Shape(s) && Synced(s) && DrainHeard(s) && EnabledC(s, a)
    ensures Synced(ApplyC(s, a)) && DrainHeard(ApplyC(s, a))
  {
  }

  lemma {:induction false} DrainHeardS(s: State, a: SenderAct)
    requires Shape(s) && Synced(s) && DrainHeard(s) && EnabledS(s, a)
    ensures Synced(ApplyS(s, a)) && DrainHeard(ApplyS(s, a))
  {
  }

  lemma {:induction false} DrainHeardB(s: State, a: BufferAct)
    requires Synced(s) && DrainHeard(s) && EnabledB(s, a)
    requires a.SetDc? ==> s.setters == multiset{}
    ensures Synced(ApplyB(s, a)) && DrainHeard(ApplyB(s, a))
  {
  }

  // ----------------------------------------------------------------- order

  /** a is b with some elements left out. */
  ghost predicate Subsequence(a: seq<nat>, b: seq<nat>)
    decreases |b|
  {
    a == [] ||
    (b != [] &&
     (if a[|a| - 1] == b[|b| - 1] then Subsequence(a[..|a| - 1], b[..|b| - 1])
      else Subsequence(a, b[..|b| - 1])))
  }

  /** Items leave in the order they came, and the sender sends them in that order. */
  ghost predicate Fifo(s: State) {
    && s.enqueued == s.popped + s.queue
    && Subsequence(s.taken, s.popped)
    && (!s.Done() ==> s.taken == s.popped && forall p :: 0 <= p < |s.pc| ==> !s.pc[p].Reclaiming?)
    && TakenPlaced(s.taken, s.place)
  }

  /** What the sender took is with it or has been answered. */
  ghost predicate TakenPlaced(taken: seq<nat>, place: seq<Place>) {
    forall i :: i in taken ==> i < |place| && (place[i].WithSender? || place[i].Answered?)
  }

  lemma {:induction false} TakenUpdate(taken: seq<nat>, place: seq<Place>, x: nat, to: Place)
    requires TakenPlaced(taken, place) && x < |place|
    requires to.WithSender? || to.Answered? || !(place[x].WithSender? || place[x].Answered?)
    ensures TakenPlaced(taken, place[x := to])
    ensures !(place[x].WithSender? || place[x].Answered?) ==> x !in taken
  {
  }

  lemma {:induction false} PlacedFacts(s: State)
    requires Placed(s)
    ensures Shape(s)
    ensures s.queue != [] ==> s.place[s.queue[0]].InQueue?
    ensures forall p :: 0 <= p < |s.pc| && s.pc[p].Start? ==> s.place[p].Unsent?
  {
    if s.queue != [] { PopFacts(s); }
    forall p | 0 <= p < |s.pc| && s.pc[p].Start? ensures s.place[p].Unsent? { assert ItemAt(s, p); }
  }

  lemma {:induction false} SubsequenceBoth(a: seq<nat>, b: seq<nat>, x: nat)
    requires Subsequence(a, b)
    ensures Subsequence(a + [x], b + [x])
  {
    assert (a + [x])[..|a|] == a && (b + [x])[..|b|] == b;
  }

  lemma {:induction false} SubsequenceSkip(a: seq<nat>, b: seq<nat>, x: nat)
    requires Subsequence(a, b) && x !in a
    ensures Subsequence(a, b + [x])
  {
    assert (b + [x])[..|b|] == b;
  }

  lemma {:induction false} FifoP(s: State, p: nat, a: ProducerAct)
    requires Placed(s) && Fifo(s) && EnabledP(s, p, a)
    ensures Fifo(ApplyP(s, p, a))
  {
    hide Placed, Subsequence, TakenPlaced;
    PlacedFacts(s);
    match a {
      case Enqueue =>
        assert s.enqueued + [p] == s.popped + (s.queue + [p]);
        TakenUpdate(s.taken, s.place, p, InQueue);
      case Reject => TakenUpdate(s.taken, s.place, p, Answered);
      case Reclaim =>
        FifoPop(s);
        TakenUpdate(s.taken, s.place, s.queue[0], With(p));
      case Respond => TakenUpdate(s.taken, s.place, s.pc[p].item, Answered);
      case _ =>
    }
  }

  lemma {:induction false} FifoS(s: State, a: SenderAct)
    requires Placed(s) && Fifo(s) && EnabledS(s, a)
    ensures Fifo(ApplyS(s, a))
  {
    hide Placed, Subsequence, TakenPlaced;
    PlacedFacts(s);
    if a.Take? {
      FifoPop(s);
      TakenUpdate(s.taken, s.place, s.queue[0], WithSender);
      TakenMore(s.taken, s.place[s.queue[0] := WithSender], s.queue[0]);
    } else if a.Answer? {
      TakenUpdate(s.taken, s.place, s.sender.item, Answered);
    }
  }

  lemma {:induction false} TakenMore(taken: seq<nat>, place: seq<Place>, x: nat)
    requires TakenPlaced(taken, place) && x < |place| && place[x].WithSender?
    ensures TakenPlaced(taken + [x], place)
  {
  }

  lemma {:induction false} FifoC(s: State, a: CloserAct)
    requires Placed(s) && Fifo(s) && EnabledC(s, a)
    ensures Fifo(ApplyC(s, a))
  {
    hide Placed, Subsequence, TakenPlaced;
    PlacedFacts(s);
    if a.Drain? {
      FifoPop(s);
      TakenUpdate(s.taken, s.place, s.queue[0], WithCloser);
    } else if a.DrainAnswer? {
      TakenUpdate(s.taken, s.place, s.closer.item, Answered);
    }
  }

  lemma {:induction false} FifoPop(s: State)
    requires Placed(s) && Fifo(s) && s.queue != []
    ensures s.enqueued == (s.popped + [s.queue[0]]) + s.queue[1..]
    ensures Subsequence(s.taken + [s.queue[0]], s.popped + [s.queue[0]])
    ensures Subsequence(s.taken, s.popped + [s.queue[0]])
  {
    hide Placed, Subsequence, TakenPlaced;
    PlacedFacts(s);
    var h := s.queue[0];
    assert s.queue == [h] + s.queue[1..];
    TakenUpdate(s.taken, s.place, h, InQueue);
    SubsequenceBoth(s.taken, s.popped, h);
    SubsequenceSkip(s.taken, s.popped, h);
  }

  // --------------------------------------------------------------- all runs

  ghost predicate Inv(s: State) {
    Placed(s) && Covered(s) && CloseHeard(s) && Fifo(s)
  }

  lemma {:induction false} InvInit(s: State)
    requires Init(s)
    ensures Inv(s) && Synced(s) && DrainHeard(s)
  {
  }

  lemma {:induction false} InvStep(s: State, a: Action)
    requires Inv(s) && Enabled(s, a)
    ensures Inv(Apply(s, a))
  {
    match a
    case P(p, pa) => InvP(s, p, pa);
    case S(sa) => InvS(s, sa);
    case C(ca) => InvC(s, ca);
    case B(ba) => PlacedB(s, ba);
  }

  lemma {:induction false} InvP(s: State, p: nat, a: ProducerAct)
    requires Inv(s) && EnabledP(s, p, a)
    ensures Inv(ApplyP(s, p, a))
  {
    PlacedP(s, p, a);
    CoveredP(s, p, a);
    FifoP(s, p, a);
  }

  lemma {:induction false} InvS(s: State, a: SenderAct)
    requires Inv(s) && EnabledS(s, a)
    ensures Inv(ApplyS(s, a))
  {
    PlacedS(s, a);
    FifoS(s, a);
  }

  lemma {:induction false} InvC(s: State, a: CloserAct)
    requires Inv(s) && EnabledC(s, a)
    ensures Inv(ApplyC(s, a))
  {
    PlacedC(s, a);
    FifoC(s, a);
  }

  /** The actions of a run, each taken where it is enabled. */
  ghost predicate Runs(s: State, acts: seq<Action>, s': State)
    decreases |acts|
  {
    if acts == [] then s == s'
    else Shape(s) && Enabled(s, acts[0]) && Runs(Apply(s, acts[0]), acts[1..], s')
  }

  /** No two set calls overlap. */
  ghost predicate SetsApart(s: State, acts: seq<Action>)
    decreases |acts|
  {
    acts == [] ||
    ((acts[0].B? && acts[0].ba.SetDc? ==> s.setters == multiset{}) &&
     (Shape(s) && Enabled(s, acts[0]) ==> SetsApart(Apply(s, acts[0]), acts[1..])))
  }

  lemma {:induction false} RunInv(s: State, acts: seq<Action>, s': State)
    requires Inv(s) && Runs(s, acts, s')
    ensures Inv(s')
    ensures Synced(s) && DrainHeard(s) && SetsApart(s, acts) ==> Synced(s') && DrainHeard(s')
    decreases |acts|
  {
    if acts != [] {
      assert Shape(s);
      InvStep(s, acts[0]);
      if Synced(s) && DrainHeard(s) && SetsApart(s, acts) { DrainHeardStep(s, acts[0]); }
      hide Inv, Synced, DrainHeard, Shape, Enabled, Apply;
      RunInv(Apply(s, acts[0]), acts[1..], s');
    }
  }

  /** Any number of calls can start, on a queue of any capacity. */
  lemma {:induction false} Starts(calls: nat, cap: nat, threshold: nat)
    requires cap >= 1
    ensures Init(State(seq(calls, _ => Start), [], cap, Idle, Open, 0, threshold, threshold, multiset{}, 0,
                       [], [], [], [], seq(calls, _ => Unsent)))
  {
  }

  /** The queue never holds more than its capacity. */
  lemma {:induction false} QueueBounded(s: State, acts: seq<Action>, s': State)
    requires |s.queue| <= s.cap && Runs(s, acts, s')
    ensures |s'.queue| <= s'.cap == s.cap
    decreases |acts|
  {
    if acts != [] { QueueBounded(Apply(s, acts[0]), acts[1..], s'); }
  }

  /** A close is for good. */
  lemma {:induction false} CloseLasts(s: State, acts: seq<Action>, s': State)
    requires Runs(s, acts, s') && (s.Done() || C(Close) in acts)
    ensures s'.Done()
    decreases |acts|
  {
    if acts != [] { CloseLasts(Apply(s, acts[0]), acts[1..], s'); }
  }

  /** Only a call that asks for it waits for the buffer: the others are answered as soon as
      the item has been handed over. */
  lemma {:induction false} WaitsOnRequest(s: State, n: nat, awaitDrain: bool)
    requires Shape(s) && Enabled(s, S(SendOk(n, awaitDrain)))
    ensures var s' := Apply(s, S(SendOk(n, awaitDrain)));
            s'.buffered == s.buffered + n && (Enabled(s', S(Answer)) <==> !awaitDrain)
  {
  }

  /** Safety, over every run: no item is answered twice, only submitted items are
      answered, and the sender sends in enqueue order. */
  lemma {:induction false} AtMostOneResponse(s: State, acts: seq<Action>, s': State)
    requires Init(s) && Runs(s, acts, s')
    ensures Distinct(s'.log)
    ensures forall i :: i in s'.log ==> i < |s'.pc| && !s'.pc[i].Start?
    ensures s'.popped <= s'.enqueued && Subsequence(s'.taken, s'.popped)
  {
    InvInit(s);
    RunInv(s, acts, s');
    forall i | i in s'.log ensures i < |s'.pc| && !s'.pc[i].Start? { assert ItemAt(s', i); }
  }

  /** Every call has returned and every item has its response. */
  ghost predicate AllAnswered(s: State) {
    && s.queue == [] && Distinct(s.log)
    && (forall p :: 0 <= p < |s.pc| ==> s.pc[p].Finished?)
    && (forall i :: 0 <= i < |s.pc| <==> i in s.log)
  }

  /** Nothing is left to do but by the network or another client. */
  ghost predicate Quiet(s: State) {
    forall a :: Enabled(s, a) ==> External(a)
  }

  lemma {:induction false} QuietProducers(s: State)
    requires Quiet(s) && s.cap >= 1 && (s.Done() || s.queue == [])
    ensures forall p :: 0 <= p < |s.pc| ==> s.pc[p].Finished?
  {
    forall p | 0 <= p < |s.pc| ensures s.pc[p].Finished? {
      assert !Enabled(s, P(p, Enqueue)) && !Enabled(s, P(p, Reject)) && !Enabled(s, P(p, CheckPass));
      assert !Enabled(s, P(p, CheckDone)) && !Enabled(s, P(p, Reclaim));
      assert !Enabled(s, P(p, ReclaimMiss)) && !Enabled(s, P(p, Respond));
    }
  }

  lemma {:induction false} QuietSender(s: State)
    requires Quiet(s) && CloseHeard(s)
    ensures s.Done() ==> s.sender.Exited? && s.closer.Closed?
    ensures !s.Done() && !s.sender.Parked? ==> s.sender.Exited? || (s.sender.Idle? && s.queue == [])
  {
    assert !Enabled(s, S(Take)) && !Enabled(s, S(Exit)) && !Enabled(s, S(SendFail)) && !Enabled(s, S(SeeLow));
    assert !Enabled(s, S(SeeHigh)) && !Enabled(s, S(SeeClosed)) && !Enabled(s, S(SeeOpen));
    assert !Enabled(s, S(Park)) && !Enabled(s, S(Answer));
    assert !Enabled(s, C(Broadcast)) && !Enabled(s, C(Drain)) && !Enabled(s, C(DrainAnswer)) && !Enabled(s, C(DrainEnd));
  }

  lemma {:induction false} QuietAnswered(s: State)
    requires Placed(s) && s.queue == [] && !s.HasItem() && !s.closer.DrainHolding?
    requires forall p :: 0 <= p < |s.pc| ==> s.pc[p].Finished?
    ensures AllAnswered(s)
  {
    forall i | 0 <= i < |s.pc| ensures i in s.log {
      assert ItemAt(s, i);
    }
  }

  /** The exit of the sender needs a close. */
  ghost predicate ExitAfterClose(s: State) { s.sender.Exited? ==> s.Done() }

  lemma {:induction false} ExitStep(s: State, a: Action)
    requires ExitAfterClose(s) && s.cap >= 1 && Shape(s) && Enabled(s, a)
    ensures ExitAfterClose(Apply(s, a)) && Apply(s, a).cap >= 1
  {
  }

  lemma {:induction false} ExitRun(s: State, acts: seq<Action>, s': State)
    requires ExitAfterClose(s) && s.cap >= 1 && Runs(s, acts, s')
    ensures ExitAfterClose(s') && s'.cap >= 1
    decreases |acts|
  {
    hide ExitAfterClose, Shape, Enabled, Apply;
    if acts != [] {
      ExitStep(s, acts[0]);
      ExitRun(Apply(s, acts[0]), acts[1..], s');
    }
  }

  /** After a close, whatever the interleaving, the protocol can only come to rest
      with every item answered exactly once and the goroutine gone. */
  lemma {:induction false} ClosedAnswersAll(s: State, acts: seq<Action>, s': State)
    requires Init(s) && Runs(s, acts, s') && Quiet(s') && s'.Done()
    ensures AllAnswered(s') && s'.sender.Exited?
  {
    InvInit(s);
    RunInv(s, acts, s');
    ExitRun(s, acts, s');
    QuietSender(s');
    QuietProducers(s');
    assert Rechecking(s'.pc) == {};
    QuietAnswered(s');
  }

  /** Before a close, if set calls do not overlap, it rests only when every item is
      answered or when the buffer really is above the mark. */
  lemma {:induction false} OpenAnswersOrWaits(s: State, acts: seq<Action>, s': State)
    requires Init(s) && Runs(s, acts, s') && SetsApart(s, acts) && Quiet(s') && !s'.Done()
    ensures AllAnswered(s') || (s'.sender.Parked? && s'.buffered > s'.threshold)
  {
    InvInit(s);
    RunInv(s, acts, s');
    ExitRun(s, acts, s');
    QuietSender(s');
    if s'.sender.Parked? {
      assert !Enabled(s', B(SignalLow)) && !Enabled(s', B(SetState(s'.dcThreshold)));
    } else {
      QuietProducers(s');
      QuietAnswered(s');
    }
  }

  // ------------------------------------------------------------ termination

  function ProducerRank(p: Producer): nat {
    match p
    case Start => 20
    case Enqueued => 3
    case Reclaiming => 2
    case Holding(_) => 1
    case Finished => 0
  }

  function ProducersRank(pc: seq<Producer>): nat {
    if pc == [] then 0 else ProducerRank(pc[0]) + ProducersRank(pc[1..])
  }

  function SenderRank(x: Sender): nat {
    match x
    case Idle => 1
    case Sending(_) => 10
    case Checking(_) => 6
    case SeenHigh(_) => 5
    case SeenOpen(_) => 4
    case Parked(_) => 3
    case Answering(_) => 2
    case Exited => 0
  }

  function CloserRank(c: Closer): nat {
    match c
    case Open => 0
    case Signalling => 10
    case Draining => 2
    case DrainHolding(_) => 3
    case Closed => 0
  }

  /** Work left in the protocol itself. */
  function Rank(s: State): nat {
    ProducersRank(s.pc) + 10 * |s.queue| + SenderRank(s.sender) + CloserRank(s.closer)
    + 4 * s.low + 4 * |s.setters|
  }

  lemma {:induction false} ProducersRankUpdate(pc: seq<Producer>, p: nat, to: Producer)
    requires p < |pc|
    ensures ProducersRank(pc[p := to]) == ProducersRank(pc) - ProducerRank(pc[p]) + ProducerRank(to)
    decreases |pc|
  {
    if p == 0 {
      assert pc[0 := to][1..] == pc[1..];
    } else {
      assert pc[p := to][1..] == pc[1..][p - 1 := to];
      ProducersRankUpdate(pc[1..], p - 1, to);
    }
  }

  lemma {:induction false} RankStep(s: State, a: Action)
    requires Shape(s) && Enabled(s, a) && !External(a)
    ensures Rank(Apply(s, a)) < Rank(s)
  {
    hide Rank;
    match a
    case P(p, pa) => RankP(s, p, pa);
    case S(sa) => RankS(s, sa);
    case C(ca) => RankC(s, ca);
    case B(ba) => RankB(s, ba);
  }

  lemma {:induction false} RankB(s: State, a: BufferAct)
    requires EnabledB(s, a) && !a.Release? && !a.SetDc?
    ensures Rank(ApplyB(s, a)) < Rank(s)
  {
    hide ProducersRank;
  }

  lemma {:induction false} RankP(s: State, p: nat, a: ProducerAct)
    requires Shape(s) && EnabledP(s, p, a)
    ensures Rank(ApplyP(s, p, a)) < Rank(s)
  {
    hide ProducersRank;
    ProducersRankUpdate(s.pc, p, ApplyP(s, p, a).pc[p]);
  }

  lemma {:induction false} RankS(s: State, a: SenderAct)
    requires Shape(s) && EnabledS(s, a)
    ensures Rank(ApplyS(s, a)) < Rank(s)
  {
  }

  lemma {:induction false} RankC(s: State, a: CloserAct)
    requires Shape(s) && EnabledC(s, a) && !a.Close?
    ensures Rank(ApplyC(s, a)) < Rank(s)
  {
  }

  /** The protocol's own steps always run out: a stretch without outside moves is no
      longer than the work left where it starts. */
  lemma {:induction false} OwnStepsRunOut(s: State, acts: seq<Action>, s': State)
    requires Runs(s, acts, s')
    requires forall i :: 0 <= i < |acts| ==> !External(acts[i])
    ensures |acts| + Rank(s') <= Rank(s)
    decreases |acts|
  {
    if acts != [] {
      RankStep(s, acts[0]);
      OwnStepsRunOut(Apply(s, acts[0]), acts[1..], s');
    }
  }

  // ------------------------------------------------------ overlapping set calls

  /** A sender that waits although the buffer is low, with nothing on its way to wake it. */
  ghost predicate Stranded(s: State) {
    s.sender.Parked? && s.buffered <= s.threshold && s.low == 0 && s.setters == multiset{} && !s.Done()
  }

  /** No set call and no close among the actions. */
  ghost predicate Undisturbed(acts: seq<Action>) {
    forall i :: 0 <= i < |acts| ==> acts[i] != C(Close) && !(acts[i].B? && acts[i].ba.SetDc?)
  }

  ghost predicate CanStrand(s: State) {
    exists acts: seq<Action>, s': State :: Undisturbed(acts) && Runs(s, acts, s') && Stranded(s')
  }

  /** A parked sender above both marks can come to be stranded exactly when the two
      copies of the threshold differ. */
  lemma {:induction false} StrandedIff(s: State)
    requires Inv(s) && s.sender.Parked? && s.low == 0 && s.setters == multiset{} && !s.Done()
    requires s.buffered > s.threshold && s.buffered > s.dcThreshold
    ensures CanStrand(s) <==> s.threshold != s.dcThreshold
  {
    assert Shape(s);
    if s.dcThreshold < s.threshold {
      StrandAtOnce(s);
    } else if s.threshold < s.dcThreshold {
      StrandAfterRecheck(s);
    } else if CanStrand(s) {
      var acts: seq<Action>, s': State :| Undisturbed(acts) && Runs(s, acts, s') && Stranded(s');
      UndisturbedApart(s, acts);
      RunInv(s, acts, s');
      assert false;
    }
  }

  lemma {:induction false} UndisturbedApart(s: State, acts: seq<Action>)
    requires Undisturbed(acts)
    ensures SetsApart(s, acts)
    decreases |acts|
  {
    if acts != [] && Shape(s) && Enabled(s, acts[0]) { UndisturbedApart(Apply(s, acts[0]), acts[1..]); }
  }

  lemma {:induction false} RunOne(s: State, a: Action, acts: seq<Action>, s': State)
    requires Shape(s) && Enabled(s, a) && Runs(Apply(s, a), acts, s')
    ensures Runs(s, [a] + acts, s')
  {
    assert ([a] + acts)[1..] == acts;
  }

  lemma {:induction false} StrandAtOnce(s: State)
    requires Shape(s) && s.sender.Parked? && s.low == 0 && s.setters == multiset{} && !s.Done()
    requires s.dcThreshold < s.threshold < s.buffered
    ensures CanStrand(s)
  {
    var a := B(Release(s.buffered - s.threshold));
    RunOne(s, a, [], Apply(s, a));
    StrandedBy(s, [a] + [], Apply(s, a));
  }

  /** A woken sender that finds the buffer still high parks again. */
  lemma {:induction false} RecheckParks(s: State, acts: seq<Action>, s': State)
    requires Shape(s) && s.sender.Checking? && s.buffered > s.threshold && !s.Done()
    requires Runs(s.(sender := Parked(s.sender.item)), acts, s')
    ensures Runs(s, [S(SeeHigh)] + ([S(SeeOpen)] + ([S(Park)] + acts)), s')
  {
    var s1 := s.(sender := SeenHigh(s.sender.item));
    var s2 := s.(sender := SeenOpen(s.sender.item));
    RunOne(s2, S(Park), acts, s');
    RunOne(s1, S(SeeOpen), [S(Park)] + acts, s');
    RunOne(s, S(SeeHigh), [S(SeeOpen)] + ([S(Park)] + acts), s');
  }

  lemma {:induction false} ReleaseStep(s: State, n: nat)
    requires Shape(s) && n <= s.buffered
    ensures Enabled(s, B(Release(n))) && Shape(Apply(s, B(Release(n))))
    ensures Apply(s, B(Release(n))) ==
              s.(buffered := s.buffered - n, low := if s.buffered > s.dcThreshold >= s.buffered - n then s.low + 1 else s.low)
  {
  }

  lemma {:induction false} SignalStep(s: State)
    requires Shape(s) && s.low > 0 && s.sender.Parked?
    ensures Enabled(s, B(SignalLow)) && Shape(Apply(s, B(SignalLow)))
    ensures Apply(s, B(SignalLow)) == s.(low := s.low - 1, sender := Checking(s.sender.item))
  {
  }

  /** A woken sender that parks again just above the mark is stranded by the next release. */
  lemma {:induction false} StrandTail(s: State, acts: seq<Action>, s': State)
    requires Shape(s) && s.sender.Checking? && !s.Done() && s.threshold < s.buffered <= s.dcThreshold
    requires acts == [S(SeeHigh)] + ([S(SeeOpen)] + ([S(Park)] + ([B(Release(s.buffered - s.threshold))] + [])))
    requires s' == s.(buffered := s.threshold, sender := Parked(s.sender.item))
    ensures Runs(s, acts, s')
  {
    hide Runs, Apply;
    var parked := s.(sender := Parked(s.sender.item));
    ReleaseStep(parked, s.buffered - s.threshold);
    RunsNone(s');
    RunOne(parked, B(Release(s.buffered - s.threshold)), [], s');
    RecheckParks(s, [B(Release(s.buffered - s.threshold))] + [], s');
  }

  lemma {:induction false} RunsNone(s: State)
    ensures Runs(s, [], s)
  {
  }

  lemma {:induction false} StrandAfterRecheck(s: State)
    requires Shape(s) && s.sender.Parked? && s.low == 0 && s.setters == multiset{} && !s.Done()
    requires s.threshold < s.dcThreshold < s.buffered
    ensures CanStrand(s)
  {
    hide Runs, CanStrand, Apply, Enabled, Shape;
    var first, last := B(Release(s.buffered - s.dcThreshold)), B(Release(s.dcThreshold - s.threshold));
    var s1 := s.(buffered := s.dcThreshold, low := 1);
    var s2 := s1.(low := 0, sender := Checking(s.sender.item));
    var s3 := s2.(buffered := s.threshold, sender := s.sender);
    var acts := [S(SeeHigh)] + ([S(SeeOpen)] + ([S(Park)] + ([last] + [])));
    ReleaseStep(s, s.buffered - s.dcThreshold);
    SignalStep(s1);
    StrandTail(s2, acts, s3);
    RunOne(s1, B(SignalLow), acts, s3);
    RunOne(s, first, [B(SignalLow)] + acts, s3);
    StrandedBy(s, [first] + ([B(SignalLow)] + acts), s3);
  }

  lemma {:induction false} StrandedBy(s: State, acts: seq<Action>, s': State)
    requires Undisturbed(acts) && Runs(s, acts, s') && Stranded(s')
    ensures CanStrand(s)
  {
  }

  /** Two overlapping set calls can leave the two copies different: each call updates
      the channel's own mark first and the state's mark later. */
  lemma {:induction false} Diverged(s: State, t: nat, u: nat) returns (acts: seq<Action>, s': State)
    requires Init(s)
    ensures Runs(s, acts, s') && s' == s.(threshold := t, dcThreshold := u)
  {
    hide Runs, Apply, Enabled, Shape;
    InitShape(s);
    var s1 := s.(dcThreshold := t, setters := s.setters + multiset{t});
    var s2 := s1.(dcThreshold := u, setters := s1.setters + multiset{u});
    var s3 := s2.(threshold := u, setters := s2.setters - multiset{u});
    s' := s3.(threshold := t, setters := s3.setters - multiset{t});
    assert s'.setters == s.setters;
    SetDcStep(s, t);
    SetDcStep(s1, u);
    SetStateStep(s2, u);
    SetStateStep(s3, t);
    RunsNone(s');
    RunOne(s3, B(SetState(t)), [], s');
    RunOne(s2, B(SetState(u)), [B(SetState(t))] + [], s');
    RunOne(s1, B(SetDc(u)), [B(SetState(u))] + ([B(SetState(t))] + []), s');
    acts := [B(SetDc(t))] + ([B(SetDc(u))] + ([B(SetState(u))] + ([B(SetState(t))] + [])));
    RunOne(s, B(SetDc(t)), [B(SetDc(u))] + ([B(SetState(u))] + ([B(SetState(t))] + [])), s');
  }

  lemma {:induction false} InitShape(s: State)
    requires Init(s)
    ensures Shape(s)
  {
  }

  lemma {:induction false} SetDcStep(s: State, t: nat)
    requires Shape(s)
    ensures Enabled(s, B(SetDc(t))) && Shape(Apply(s, B(SetDc(t))))
    ensures Apply(s, B(SetDc(t))) == s.(dcThreshold := t, setters := s.setters + multiset{t})
  {
  }

  lemma {:induction false} SetStateStep(s: State, t: nat)
    requires Shape(s) && t in s.setters && s.sender.Idle?
    ensures Enabled(s, B(SetState(t))) && Shape(Apply(s, B(SetState(t))))
    ensures Apply(s, B(SetState(t))) == s.(threshold := t, setters := s.setters - multiset{t})
  {
  }

  lemma {:induction false} RunsThen(s: State, acts: seq<Action>, mid: State, more: seq<Action>, s': State)
    requires Runs(s, acts, mid) && Runs(mid, more, s')
    ensures Runs(s, acts + more, s')
    decreases |acts|
  {
    hide Shape, Enabled, Apply;
    if acts == [] {
      assert [] + more == more;
    } else {
      RunsThen(Apply(s, acts[0]), acts[1..], mid, more, s');
      assert (acts + more)[1..] == acts[1..] + more;
    }
  }

  /** One call's item is taken and sent, and the sender parks above both marks. */
  lemma {:induction false} SendParks(s: State, n: nat) returns (acts: seq<Action>, s': State)
    requires Shape(s) && s.cap >= 1 && s.queue == [] && s.sender.Idle? && !s.Done() && |s.pc| > 0 && s.pc[0].Start?
    requires s.buffered + n > s.threshold
    ensures Runs(s, acts, s') && Shape(s') && s'.sender.Parked? && !s'.Done() && s'.buffered == s.buffered + n
    ensures s'.low == s.low && s'.setters == s.setters && s'.threshold == s.threshold && s'.dcThreshold == s.dcThreshold
  {
    var s1 := Apply(s, P(0, Enqueue));
    var s2 := Apply(s1, S(Take));
    var s3 := Apply(s2, S(SendOk(n, true)));
    s' := s3.(sender := Parked(s3.sender.item));
    RecheckParks(s3, [], s');
    var tail := [S(SeeHigh)] + ([S(SeeOpen)] + ([S(Park)] + []));
    RunOne(s2, S(SendOk(n, true)), tail, s');
    RunOne(s1, S(Take), [S(SendOk(n, true))] + tail, s');
    acts := [P(0, Enqueue)] + ([S(Take)] + ([S(SendOk(n, true))] + tail));
    RunOne(s, P(0, Enqueue), [S(Take)] + ([S(SendOk(n, true))] + tail), s');
  }

  /** So two overlapping set calls with different marks can strand a sender: from the
      start there is a run to a state in which it waits below the mark with nothing on its
      way to wake it. */
  lemma {:induction false} OverlappingSetsStrand(s: State, t: nat, u: nat)
    requires Init(s) && t != u && |s.pc| > 0
    ensures exists acts: seq<Action>, s': State :: Runs(s, acts, s') && Stranded(s')
  {
    hide Runs, Stranded;
    var sets, a := Diverged(s, t, u);
    var sends, b := SendParks(a, t + u + 1);
    RunsThen(s, sets, a, sends, b);
    if u < t { StrandAtOnce(b); } else { StrandAfterRecheck(b); }
    var rest: seq<Action>, c: State :| Undisturbed(rest) && Runs(b, rest, c) && Stranded(c);
    RunsThen(s, sets + sends, b, rest, c);
  }
}
