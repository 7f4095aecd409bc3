/** The round-robin scheduler (section 3.2 of RFC 8260): backlogged streams take turns, one
    chunk a turn. */
module RoundRobin {
  import opened Options
  import opened PolicyErrors
  import opened Serial

  datatype Chunk = Chunk(id: nat, stream: uint16)

  datatype State = State(queues: map<uint16, seq<Chunk>>, order: seq<uint16>)

  ghost predicate Once(order: seq<uint16>) { forall i, j :: 0 <= i < j < |order| ==> order[i] != order[j] }

  /** The order lists every backlogged stream once, and no other. */
  ghost predicate Ok(st: State) {
    && Once(st.order)
    && (forall s: uint16 :: s in st.order <==> s in st.queues)
    && (forall s | s in st.queues :: st.queues[s] != [])
  }

  function Queue(st: State, s: uint16): seq<Chunk> { if s in st.queues then st.queues[s] else [] }

  function Push(st: State, c: Chunk): State {
    State(st.queues[c.stream := Queue(st, c.stream) + [c]],
          if Queue(st, c.stream) == [] then st.order + [c.stream] else st.order)
  }

  function Serve(st: State): State
    requires st.order != []
  {
    var s, q := st.order[0], Queue(st, st.order[0]);
    if |q| > 1 then State(st.queues[s := q[1..]], st.order[1..] + [s]) else State(st.queues - {s}, st.order[1..])
  }

  lemma {:induction false} PushOk(st: State, c: Chunk)
    requires Ok(st)
    ensures Ok(Push(st, c))
  {
    var st' := Push(st, c);
    forall s: uint16 ensures s in st'.order <==> s in st'.queues {}
  }

  lemma {:induction false} ServeOk(st: State)
    requires Ok(st) && st.order != []
    ensures Ok(Serve(st))
  {
    hide Once;
    Rotated(st.order);
  }

  /** Taking the first away, or putting it at the end. */
  lemma {:induction false} Rotated(order: seq<uint16>)
    requires order != [] && Once(order)
    ensures Once(order[1..]) && Once(order[1..] + [order[0]])
    ensures forall t: uint16 :: t in order[1..] <==> t in order && t != order[0]
    ensures forall t: uint16 :: t in order[1..] + [order[0]] <==> t in order
  {
    var s, rest := order[0], order[1..];
    assert order == [s] + rest;
    forall i | 0 <= i < |rest| ensures rest[i] != s { assert rest[i] == order[i + 1]; }
  }

  lemma {:induction false} Listed(st: State)
    requires Ok(st) && st.order != []
    ensures st.order[0] in st.queues && st.queues[st.order[0]] != []
  {
    assert st.order[0] in st.order;
  }

  // ---------------------------------------------------------------- fairness

  datatype Op = Enqueue(c: Chunk) | Dequeue

  ghost predicate Step(st: State, op: Op, st': State) {
    match op
    case Enqueue(c) => st' == Push(st, c)
    case Dequeue => st.order != [] && st' == Serve(st)
  }

  ghost predicate StepAt(states: seq<State>, ops: seq<Op>, i: nat)
    requires |states| == |ops| + 1 && i < |ops|
  {
    Step(states[i], ops[i], states[i + 1])
  }

  ghost predicate Run(states: seq<State>, ops: seq<Op>) {
    |states| == |ops| + 1 && forall i :: 0 <= i < |ops| ==> StepAt(states, ops, i)
  }

  lemma {:induction false} RunOk(states: seq<State>, ops: seq<Op>, n: nat)
    requires Run(states, ops) && Ok(states[0]) && n < |states|
    ensures Ok(states[n])
  {
    if n > 0 {
      RunOk(states, ops, n - 1);
      assert StepAt(states, ops, n - 1);
      hide Ok;
      match ops[n - 1]
      case Enqueue(c) => PushOk(states[n - 1], c);
      case Dequeue => ServeOk(states[n - 1]);
    }
  }

  /** Turns stream s has had in the operations m to n. */
  ghost function Turns(states: seq<State>, ops: seq<Op>, s: uint16, m: nat, n: nat): nat
    requires |states| == |ops| + 1 && m <= n <= |ops|
    decreases n - m
  {
    if m == n then 0
    else
      Turns(states, ops, s, m, n - 1) +
      if ops[n - 1].Dequeue? && states[n - 1].order != [] && states[n - 1].order[0] == s then 1 else 0
  }

  ghost predicate Before(order: seq<uint16>, a: uint16, b: uint16) {
    exists i, j :: 0 <= i < j < |order| && order[i] == a && order[j] == b
  }

  ghost predicate Backlogged(states: seq<State>, s: uint16, m: nat, n: nat)
    requires n < |states|
  {
    forall k :: m <= k <= n ==> s in states[k].queues
  }

  /** Of two backlogged streams exactly one is before the other. */
  lemma {:induction false} OneBefore(st: State, a: uint16, b: uint16)
    requires Ok(st) && a in st.queues && b in st.queues && a != b
    ensures Before(st.order, a, b) <==> !Before(st.order, b, a)
  {
    var i :| 0 <= i < |st.order| && st.order[i] == a;
    var j :| 0 <= j < |st.order| && st.order[j] == b;
    if i < j { assert Before(st.order, a, b); } else { assert Before(st.order, b, a); }
  }

  /** A step keeps who is before whom, except that a stream served goes behind. */
  lemma {:induction false} BeforeStep(st: State, op: Op, st': State, a: uint16, b: uint16)
    requires Ok(st) && Step(st, op, st') && a != b
    requires a in st.queues && b in st.queues && a in st'.queues && b in st'.queues
    requires Before(st.order, a, b)
    ensures if op.Dequeue? && st.order[0] == a then Before(st'.order, b, a) else Before(st'.order, a, b)
    ensures op.Dequeue? ==> st.order[0] != b
  {
    var i, j :| 0 <= i < j < |st.order| && st.order[i] == a && st.order[j] == b;
    match op
    case Enqueue(c) => assert st'.order[i] == a && st'.order[j] == b;
    case Dequeue =>
      assert st'.order[j - 1] == b;
      if i == 0 { assert st'.order[|st'.order| - 1] == a; } else { assert st'.order[i - 1] == a; }
  }

  /** Two streams that stay backlogged take turns strictly: while a is before b they have had
      the same number since a was before b, and while it is behind, it has had one more. */
  lemma {:induction false} Alternate(states: seq<State>, ops: seq<Op>, a: uint16, b: uint16, m: nat, n: nat)
    requires Run(states, ops) && Ok(states[0]) && m <= n <= |ops| && a != b
    requires Backlogged(states, a, m, n) && Backlogged(states, b, m, n) && Before(states[m].order, a, b)
    ensures Turns(states, ops, a, m, n) ==
            Turns(states, ops, b, m, n) + if Before(states[n].order, a, b) then 0 else 1
    decreases n - m
  {
    if m < n {
      Alternate(states, ops, a, b, m, n - 1);
      RunOk(states, ops, n - 1);
      RunOk(states, ops, n);
      assert StepAt(states, ops, n - 1);
      var st, st' := states[n - 1], states[n];
      OneBefore(st, a, b);
      OneBefore(st', a, b);
      hide Ok, Before, Run;
      if Before(st.order, a, b) {
        BeforeStep(st, ops[n - 1], st', a, b);
      } else {
        BeforeStep(st, ops[n - 1], st', b, a);
      }
    }
  }

  /** Fairness: over any interval in which two streams are backlogged throughout, the turns
      they have had differ by at most one. */
  lemma {:induction false} Fairness(states: seq<State>, ops: seq<Op>, a: uint16, b: uint16, m: nat, n: nat)
    requires Run(states, ops) && Ok(states[0]) && m <= n <= |ops|
    requires Backlogged(states, a, m, n) && Backlogged(states, b, m, n)
    ensures -1 <= Turns(states, ops, a, m, n) - Turns(states, ops, b, m, n) <= 1
  {
    if a != b {
      RunOk(states, ops, m);
      OneBefore(states[m], a, b);
      hide Ok, Before, Run;
      if Before(states[m].order, a, b) {
        Alternate(states, ops, a, b, m, n);
      } else {
        Alternate(states, ops, b, a, m, n);
      }
    }
  }

  // ----------------------------------------------------------------- the policy

  class RoundRobin {
    var streamQueues: map<uint16, seq<Chunk>>
    var streamOrder: seq<uint16>
    var streamSelected: bool
    var selectedStream: uint16

    ghost function View(): State
      reads this
    {
      State(streamQueues, streamOrder)
    }

    /** A remembered choice is the stream whose turn it is. */
    ghost predicate Valid()
      reads this
    {
      Ok(View()) && (streamSelected ==> streamOrder != [] && selectedStream == streamOrder[0])
    }

    constructor ()
      ensures Valid() && !streamSelected && View() == State(map[], [])
    {
      streamQueues, streamOrder, streamSelected, selectedStream := map[], [], false, 0;
    }

    /** Also between a Peek and its Pop, a push does not disturb the turn. */
    method PushChunk(c: Chunk)
      requires Valid()
      modifies this`streamQueues, this`streamOrder
      ensures Valid() && Step(old(View()), Enqueue(c), View())
    {
      PushOk(View(), c);
      hide Ok;
      var wasEmpty := c.stream !in streamQueues || |streamQueues[c.stream]| == 0;
      var queue := if c.stream in streamQueues then streamQueues[c.stream] else [];
      streamQueues := streamQueues[c.stream := queue + [c]];
      if wasEmpty { streamOrder := streamOrder + [c.stream]; }
    }

    method Peek() returns (c: Option<Chunk>)
      requires Valid()
      modifies this`streamSelected, this`selectedStream
      ensures Valid() && (streamSelected <==> streamOrder != [])
      ensures c == if streamOrder == [] then None else Some(Queue(View(), streamOrder[0])[0])
    {
      if streamSelected { return Some(streamQueues[selectedStream][0]); }
      if |streamOrder| == 0 { return None; }
      streamSelected, selectedStream := true, streamOrder[0];
      return Some(streamQueues[selectedStream][0]);
    }

    /** Popping what Peek returned is the turn of the first stream, and never fails. */
    method Pop(c: Chunk) returns (err: Error)
      requires Valid()
      modifies this
      ensures !old(streamSelected) ==> err == UnexpectedState && View() == old(View())
      ensures old(streamSelected) ==> (err == NoError <==> c == Queue(old(View()), old(streamOrder)[0])[0]) && err != UnexpectedState
      ensures err == NoError ==> Valid() && !streamSelected && Step(old(View()), Dequeue, View())
    {
      if !streamSelected { return UnexpectedState; }
      ServeOk(View());
      Listed(View());
      hide Ok;
      var s := selectedStream;
      var queue := streamQueues[s];
      var rest := queue[1..];
      streamQueues := streamQueues[s := rest];
      if queue[0] != c { return UnexpectedChunk; }
      streamOrder := streamOrder[1..];
      if |rest| > 0 {
        streamOrder := streamOrder + [s];
      } else {
        streamQueues := streamQueues - {s};
      }
      assert |queue| == 1 ==> streamQueues == old(streamQueues) - {s};
      streamSelected, selectedStream := false, 0;
      return NoError;
    }
  }
}
