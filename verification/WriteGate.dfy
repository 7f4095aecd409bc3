/** The blocking-write gate: writers wait for the previous message to leave the pending
    queue, on a notification channel with room for one token that closing replaces.

    A step is what one goroutine does between taking and releasing the association
    lock, or one channel receive. */
module WriteGate {
  /** `Waiting(e)` blocks on the channel of epoch e; `Woken` has received and is about
      to take the lock. */
  datatype Writer = Fresh | Waiting(epoch: nat) | Woken | Sent | Failed

  datatype State = State(
    established: bool, writePending: bool, token: bool, epoch: nat,
    writers: seq<Writer>, sizes: seq<nat>,  // data chunks of each writer's message
    pending: nat, markers: nat,             // data chunks and stream-reset markers queued
    owner: nat)                             // whose message is queued

  /** `Flush(k, m)` is the sending loop: markers need no window, so a loop that has sent all
      the data has also taken all the markers. `Probe(m)` is a loop that sent no data,
      followed by the one chunk a closed window lets through. */
  datatype Op =
    | Try(w: nat) | Receive(w: nat) | Cancel(w: nat)
    | Reset | Flush(k: nat, m: nat) | Probe(m: nat) | Leave | CloseAll

  predicate Shape(s: State) { |s.sizes| == |s.writers| }

  predicate Enabled(s: State, op: Op) {
    match op
    case Try(w) => w < |s.writers| && (s.writers[w].Fresh? || s.writers[w].Woken?)
    case Receive(w) =>
      w < |s.writers| && s.writers[w].Waiting? && (s.writers[w].epoch < s.epoch || s.token)
    case Cancel(w) => w < |s.writers| && s.writers[w].Waiting?
    case Reset => s.established
    case Flush(k, m) => k <= s.pending && m <= s.markers && (k == s.pending ==> m == s.markers)
    case Probe(m) => s.pending > 0 && m <= s.markers
    case Leave => true
    case CloseAll => true
  }

  /** notifyBlockWritable, when data left and nothing is queued any more. */
  predicate Notifies(s: State, k: nat, m: nat) { k > 0 && k == s.pending && m == s.markers }

  function Send(s: State, k: nat, m: nat): State
    requires k <= s.pending && m <= s.markers
  {
    var n := Notifies(s, k, m);
    s.(pending := s.pending - k, markers := s.markers - m, writePending := s.writePending && !n, token := s.token || n)
  }

  function Apply(s: State, op: Op): State
    requires Shape(s) && Enabled(s, op)
  {
    match op
    case Try(w) =>
      if !s.established then s.(writers := s.writers[w := Failed])
      else if s.writePending then s.(writers := s.writers[w := Waiting(s.epoch)])
      else s.(writers := s.writers[w := Sent], writePending := true,
              pending := s.pending + s.sizes[w], owner := w)
    case Receive(w) =>
      s.(writers := s.writers[w := Woken], token := s.token && s.writers[w].epoch < s.epoch)
    case Cancel(w) => s.(writers := s.writers[w := Failed])
    case Reset => s.(markers := s.markers + 1)
    case Flush(k, m) => Send(s, k, m)
    case Probe(m) => Send(s, 1, m)
    case Leave => s.(established := false)
    case CloseAll => s.(established := false, writePending := false, token := false, epoch := s.epoch + 1)
  }

  predicate Init(s: State) {
    && s.established && !s.writePending && !s.token && s.epoch == 0 && s.pending == 0 && s.markers == 0
    && Shape(s) && forall w :: 0 <= w < |s.writers| ==> s.writers[w].Fresh?
  }

  ghost predicate Reaches(s: State, ops: seq<Op>, s': State)
    decreases |ops|
  {
    if ops == [] then s == s'
    else Shape(s) && Enabled(s, ops[0]) && Reaches(Apply(s, ops[0]), ops[1..], s')
  }

  predicate NonEmpty(s: State) { forall w :: 0 <= w < |s.sizes| ==> s.sizes[w] > 0 }

  ghost predicate SomeWoken(s: State) {
    exists w :: 0 <= w < |s.writers| && s.writers[w].Woken?
  }

  /** While established: the gate is shut exactly while one writer's chunks are queued,
      and an open gate that someone waits at has a token or a writer already on the way. */
  ghost predicate Inv(s: State) {
    && Shape(s) && NonEmpty(s)
    && (forall w :: 0 <= w < |s.writers| && s.writers[w].Waiting? ==> s.writers[w].epoch <= s.epoch)
    && (s.established ==>
          && s.epoch == 0
          && (s.writePending <==> s.pending > 0)
          && (s.pending > 0 ==> s.owner < |s.writers| && s.writers[s.owner].Sent? && s.pending <= s.sizes[s.owner])
          && (!s.writePending && !s.token && !SomeWoken(s) ==>
                forall w :: 0 <= w < |s.writers| ==> !s.writers[w].Waiting?))
  }

  /** A window probe takes the last data and leaves a stream-reset marker behind. */
  predicate Strands(s: State, op: Op) { op.Probe? && s.pending == 1 && op.m < s.markers }

  /** Every step keeps the invariant, except exactly such a probe. */
  lemma {:induction false} InvStepIff(s: State, op: Op)
    requires Inv(s) && s.established && Enabled(s, op)
    ensures Inv(Apply(s, op)) <==> !Strands(s, op)
  {
    if op.Try? || op.Receive? || op.Cancel? {
      InvWriter(s, op);
    }
  }

  lemma {:induction false} InvStep(s: State, op: Op)
    requires Inv(s) && Enabled(s, op) && !Strands(s, op)
    ensures Inv(Apply(s, op))
  {
    if s.established {
      InvStepIff(s, op);
    } else if op.Try? || op.Receive? || op.Cancel? {
      InvWriter(s, op);
    }
  }

  lemma {:induction false} InvWriter(s: State, op: Op)
    requires Inv(s) && Enabled(s, op) && (op.Try? || op.Receive? || op.Cancel?)
    ensures Inv(Apply(s, op))
  {
    var s' := Apply(s, op);
    if op.Receive? { assert s'.writers[op.w].Woken?; }
    if op.Cancel? && SomeWoken(s) {
      var v :| 0 <= v < |s.writers| && s.writers[v].Woken?;
      assert s'.writers[v].Woken?;
    }
  }

  ghost predicate NoneStrands(s: State, ops: seq<Op>)
    decreases |ops|
  {
    ops != [] && Shape(s) && Enabled(s, ops[0]) ==> !Strands(s, ops[0]) && NoneStrands(Apply(s, ops[0]), ops[1..])
  }

  lemma {:induction false} RunInv(s: State, ops: seq<Op>, s': State)
    requires Inv(s) && Reaches(s, ops, s') && NoneStrands(s, ops)
    ensures Inv(s')
    decreases |ops|
  {
    if ops != [] {
      InvStep(s, ops[0]);
      RunInv(Apply(s, ops[0]), ops[1..], s');
    }
  }

  /** One message at a time, over every run with non-empty messages in which no probe
      strands a marker: whatever data is queued belongs to a single writer. */
  lemma {:induction false} OneMessageQueued(s: State, ops: seq<Op>, s': State)
    requires Init(s) && NonEmpty(s) && Reaches(s, ops, s') && NoneStrands(s, ops) && s'.established
    ensures s'.writePending <==> s'.pending > 0
    ensures s'.pending > 0 ==>
              s'.owner < |s'.writers| == |s'.sizes| && s'.writers[s'.owner].Sent? && s'.pending <= s'.sizes[s'.owner]
  {
    RunInv(s, ops, s');
  }

  /** No step is left to the writers themselves. */
  ghost predicate Quiet(s: State) {
    forall w :: 0 <= w < |s.writers| ==> !Enabled(s, Try(w)) && !Enabled(s, Receive(w))
  }

  /** No wakeup is lost: at an open gate with a waiter there is a token or somebody on the
      way, and when the queue has drained and the writers have nothing to do, nobody waits. */
  lemma {:induction false} NoLostWakeup(s: State, ops: seq<Op>, s': State)
    requires Init(s) && NonEmpty(s) && Reaches(s, ops, s') && NoneStrands(s, ops) && s'.established
    ensures !s'.writePending && (exists w :: 0 <= w < |s'.writers| && s'.writers[w].Waiting?) ==>
              s'.token || SomeWoken(s')
    ensures s'.pending == 0 && Quiet(s') ==>
              forall w :: 0 <= w < |s'.writers| ==> s'.writers[w].Sent? || s'.writers[w].Failed?
  {
    RunInv(s, ops, s');
    if s'.pending == 0 && Quiet(s') { QuietDone(s'); }
  }

  lemma {:induction false} QuietDone(s: State)
    requires Inv(s) && s.established && s.pending == 0 && Quiet(s)
    ensures forall w :: 0 <= w < |s.writers| ==> s.writers[w].Sent? || s.writers[w].Failed?
  {
    forall v | 0 <= v < |s.writers| ensures !s.writers[v].Woken? { assert !Enabled(s, Try(v)); }
    forall w | 0 <= w < |s.writers| ensures s.writers[w].Sent? || s.writers[w].Failed? {
      assert !Enabled(s, Try(w)) && !Enabled(s, Receive(w));
    }
  }

  /** Epochs only ever lag: whoever waits holds the current channel or a closed one. */
  ghost predicate EpochsLag(s: State) {
    forall w :: 0 <= w < |s.writers| && s.writers[w].Waiting? ==> s.writers[w].epoch <= s.epoch
  }

  lemma {:induction false} RunLag(s: State, ops: seq<Op>, s': State)
    requires EpochsLag(s) && Reaches(s, ops, s')
    ensures EpochsLag(s')
    decreases |ops|
  {
    if ops != [] { RunLag(Apply(s, ops[0]), ops[1..], s'); }
  }

  /** Closing wakes every waiter, in every run - resets and empty messages included. */
  lemma {:induction false} CloseWakesAll(s: State, ops: seq<Op>, s': State)
    requires Init(s) && Reaches(s, ops, s') && Shape(s')
    ensures var c := Apply(s', CloseAll);
            forall w :: 0 <= w < |c.writers| && c.writers[w].Waiting? ==> Enabled(c, Receive(w))
  {
    RunLag(s, ops, s');
  }

  // ------------------------------------------------------------- what a run moves

  /** Any messages can be waiting to be written. */
  lemma {:induction false} Starts(sizes: seq<nat>)
    ensures var s := State(true, false, false, 0, seq(|sizes|, _ => Fresh), sizes, 0, 0, 0);
            Init(s) && (NonEmpty(s) <==> 0 !in sizes)
  {
  }

  /** Data chunks and reset markers put into the queue and taken out, notifications that found
      no token, and writers woken by a token. */
  datatype Flow = Flow(dataIn: nat, dataOut: nat, markersIn: nat, markersOut: nat, notified: nat, woken: nat)

  function Plus(a: Flow, b: Flow): Flow {
    Flow(a.dataIn + b.dataIn, a.dataOut + b.dataOut, a.markersIn + b.markersIn, a.markersOut + b.markersOut,
         a.notified + b.notified, a.woken + b.woken)
  }

  ghost function StepFlow(s: State, op: Op): Flow
    requires Shape(s) && Enabled(s, op)
  {
    var none := Flow(0, 0, 0, 0, 0, 0);
    match op
    case Try(w) => if s.established && !s.writePending then none.(dataIn := s.sizes[w]) else none
    case Receive(w) => if s.writers[w].epoch == s.epoch then none.(woken := 1) else none
    case Reset => none.(markersIn := 1)
    case Flush(k, m) => none.(dataOut := k, markersOut := m, notified := if 0 < k == s.pending && m == s.markers && !s.token then 1 else 0)
    case Probe(m) => none.(dataOut := 1, markersOut := m, notified := if s.pending == 1 && m == s.markers && !s.token then 1 else 0)
    case _ => none
  }

  ghost function FlowOf(s: State, ops: seq<Op>): Flow
    decreases |ops|
  {
    if ops == [] || !Shape(s) || !Enabled(s, ops[0]) then Flow(0, 0, 0, 0, 0, 0)
    else Plus(StepFlow(s, ops[0]), FlowOf(Apply(s, ops[0]), ops[1..]))
  }

  /** What goes in and does not come out is there. */
  ghost predicate Balances(s: State, f: Flow, s': State) {
    s.pending + f.dataIn == s'.pending + f.dataOut && s.markers + f.markersIn == s'.markers + f.markersOut
  }

  ghost predicate TokensBalance(s: State, f: Flow, s': State) {
    f.notified + (if s.token then 1 else 0) == f.woken + if s'.token then 1 else 0
  }

  lemma {:induction false} StepBalances(s: State, op: Op)
    requires EpochsLag(s) && Shape(s) && Enabled(s, op)
    ensures var s' := Apply(s, op);
            EpochsLag(s') && Balances(s, StepFlow(s, op), s') && (!op.CloseAll? ==> TokensBalance(s, StepFlow(s, op), s'))
  {
  }

  /** Nothing is lost and nothing made up, in every run: what was queued and has not been sent
      is still queued. Until the gate is closed, a token wakes one writer: writers are woken as
      often as there were notifications that found no token, less the token still there. */
  lemma {:induction false} Conserved(s: State, ops: seq<Op>, s': State)
    requires EpochsLag(s) && Reaches(s, ops, s')
    ensures Balances(s, FlowOf(s, ops), s')
    ensures (forall i :: 0 <= i < |ops| ==> !ops[i].CloseAll?) ==> TokensBalance(s, FlowOf(s, ops), s')
    decreases |ops|
  {
    hide Enabled, Apply, StepFlow, EpochsLag;
    if ops != [] {
      StepBalances(s, ops[0]);
      Conserved(Apply(s, ops[0]), ops[1..], s');
    }
  }

  /** A writer that has sent or failed does nothing more, so each message is queued once. */
  lemma {:induction false} Settled(s: State, ops: seq<Op>, s': State, w: nat)
    requires Reaches(s, ops, s') && w < |s.writers| && (s.writers[w].Sent? || s.writers[w].Failed?)
    ensures w < |s'.writers| && s'.writers[w] == s.writers[w]
    decreases |ops|
  {
    if ops != [] { Settled(Apply(s, ops[0]), ops[1..], s', w); }
  }

  // ------------------------------------------------ where the two conditions come from

  /** Can the write loop reopen the gate? */
  ghost predicate CanReopen(s: State) {
    exists ops: seq<Op>, s': State :: OnlySends(ops) && Reaches(s, ops, s') && !s'.writePending
  }

  ghost predicate OnlySends(ops: seq<Op>) { forall i :: 0 <= i < |ops| ==> ops[i].Flush? || ops[i].Probe? }

  /** A shut gate can be reopened by sending exactly when data is queued behind it. */
  lemma {:induction false} ReopensIff(s: State)
    requires Shape(s) && s.writePending
    ensures CanReopen(s) <==> s.pending > 0
  {
    if s.pending > 0 {
      var op := Flush(s.pending, s.markers);
      assert [op][1..] == [] && Reaches(Apply(s, op), [], Apply(s, op));
      assert OnlySends([op]) && Reaches(s, [op], Apply(s, op));
    } else if CanReopen(s) {
      var ops: seq<Op>, s': State :| OnlySends(ops) && Reaches(s, ops, s') && !s'.writePending;
      StaysShut(s, ops, s');
    }
  }

  lemma {:induction false} StaysShut(s: State, ops: seq<Op>, s': State)
    requires s.writePending && s.pending == 0 && OnlySends(ops) && Reaches(s, ops, s')
    ensures s'.writePending
    decreases |ops|
  {
    if ops != [] { StaysShut(Apply(s, ops[0]), ops[1..], s'); }
  }

  /** So an empty message shuts the gate for good. */
  lemma {:induction false} EmptyMessageShuts(s: State, w: nat)
    requires Init(s) && w < |s.writers| && s.sizes[w] == 0
    ensures !CanReopen(Apply(s, Try(w)))
  {
    ReopensIff(Apply(s, Try(w)));
  }

  /** And so does a probe that strands a marker: on a closed window, a stream is reset behind
      a writer's last chunk and the probe sends that chunk alone. */
  lemma {:induction false} MarkerShuts(s: State, w: nat)
    requires Init(s) && w < |s.writers| && s.sizes[w] == 1
    ensures exists s' :: Reaches(s, [Try(w), Reset, Probe(0)], s') && !CanReopen(s')
  {
    var s1 := Apply(s, Try(w));
    var s2 := Apply(s1, Reset);
    var s3 := Apply(s2, Probe(0));
    assert [Probe(0)][1..] == [] && Reaches(s3, [], s3);
    assert Reaches(s2, [Probe(0)], s3);
    assert [Reset, Probe(0)][1..] == [Probe(0)];
    assert Reaches(s1, [Reset, Probe(0)], s3);
    assert [Try(w), Reset, Probe(0)][1..] == [Reset, Probe(0)];
    assert Reaches(s, [Try(w), Reset, Probe(0)], s3);
    ReopensIff(s3);
  }

  /** From any state in which the gate works, that is the only way to shut it for good. */
  lemma {:induction false} ShutsIff(s: State, op: Op)
    requires Inv(s) && s.established && Enabled(s, op) && Apply(s, op).established
    requires Apply(s, op).writePending
    ensures !CanReopen(Apply(s, op)) <==> Strands(s, op)
  {
    InvStepIff(s, op);
    ReopensIff(Apply(s, op));
  }
}
