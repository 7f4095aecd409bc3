/** Weighted fair queueing over streams (section 3.6 of RFC 8260), with the float64 tags
    as reals.

    A chunk's tag is its virtual finish time. `State` is the scheduler as a value: per
    stream the queued chunks with their tags, the last tag given to each stream, and the
    virtual time.

    Peek remembers its choice until Pop, and chunks may be pushed in between. A push on an
    idle stream can then put a tag ahead of the chosen one's, which leaves that stream
    behind the virtual time: by how much is the `lag` of the invariant. */
module Wfq {
  import opened Options
  import opened Serial

  datatype Item = Item(id: nat, len: nat, tag: real)

  datatype State = State(queues: map<uint16, seq<Item>>, finish: map<uint16, real>, v: real)

  function Queue(st: State, s: uint16): seq<Item> { if s in st.queues then st.queues[s] else [] }

  function Finish(st: State, s: uint16): real { if s in st.finish then st.finish[s] else 0.0 }

  /** A stream without a weight has weight 1; configured weights are not zero. */
  function Weight(weights: map<uint16, uint16>, s: uint16): (w: real)
    ensures w >= 1.0
  {
    if s in weights && weights[s] != 0 then weights[s] as real else 1.0
  }

  function Max(a: real, b: real): (r: real)
    ensures a <= r && b <= r && (r == a || r == b)
  {
    if a < b then b else a
  }

  function Cost(len: nat, w: real): (c: real)
    requires w >= 1.0
    ensures c >= 0.0
  {
    len as real / w
  }

  function Push(st: State, s: uint16, id: nat, len: nat, w: real): State
    requires w >= 1.0
  {
    var tag := Max(st.v, Finish(st, s)) + Cost(len, w);
    State(st.queues[s := Queue(st, s) + [Item(id, len, tag)]], st.finish[s := tag], st.v)
  }

  /** Serving the head of stream s. */
  function Serve(st: State, s: uint16): State
    requires Queue(st, s) != []
  {
    var q := Queue(st, s);
    State(if |q| == 1 then st.queues - {s} else st.queues[s := q[1..]], st.finish, Max(st.v, q[0].tag))
  }

  /** Stream s has the least head tag, and the least id among those that have it. */
  predicate Least(st: State, s: uint16) {
    && Queue(st, s) != []
    && forall t: uint16 | t in st.queues && st.queues[t] != [] :: Beats(st.queues[t][0].tag, t, Queue(st, s)[0].tag, s)
  }

  /** (b, s) comes no later than (a, t). */
  predicate Beats(a: real, t: uint16, b: real, s: uint16) { b < a || (b == a && s <= t) }

  /** There is at most one such stream: the order of the map does not matter. */
  lemma {:induction false} LeastUnique(st: State, s: uint16, t: uint16)
    requires Least(st, s) && Least(st, t)
    ensures s == t
  {
    assert Beats(st.queues[t][0].tag, t, Queue(st, s)[0].tag, s);
    assert Beats(st.queues[s][0].tag, s, Queue(st, t)[0].tag, t);
  }

  // ------------------------------------------------------------ the invariant

  /** The start tag of an item. */
  function Start(it: Item, w: real): real
    requires w >= 1.0
  {
    it.tag - Cost(it.len, w)
  }

  /** Item i starts where the item before it finishes, or up to the virtual time if that
      had already gone past. */
  ghost predicate Chained(q: seq<Item>, i: nat, v: real, w: real)
    requires 1 <= i < |q| && w >= 1.0
  {
    q[i - 1].tag <= Start(q[i], w) <= Max(q[i - 1].tag, v)
  }

  /** One stream: tags ascend, the head has started by v and finishes no more than lag
      before it, and an idle stream has finished by v. */
  ghost predicate StreamOk(q: seq<Item>, finish: real, v: real, w: real, lag: real)
    requires w >= 1.0
  {
    if q == [] then finish <= v
    else
      && finish == q[|q| - 1].tag
      && Start(q[0], w) <= v <= q[0].tag + lag
      && (forall i, j :: 0 <= i < j < |q| ==> q[i].tag <= q[j].tag)
      && (forall i :: 1 <= i < |q| ==> Chained(q, i, v, w))
  }

  ghost predicate Ok(st: State, weights: map<uint16, uint16>, lag: real) {
    st.v >= 0.0 && forall s: uint16 :: StreamOk(Queue(st, s), Finish(st, s), st.v, Weight(weights, s), lag)
  }

  lemma {:induction false} PushOk(st: State, weights: map<uint16, uint16>, lag: real, s: uint16, id: nat, len: nat)
    requires Ok(st, weights, lag) && lag >= 0.0
    ensures Ok(Push(st, s, id, len, Weight(weights, s)), weights, lag)
  {
    hide StreamOk, Weight, Cost;
    var st' := Push(st, s, id, len, Weight(weights, s));
    forall t: uint16 ensures StreamOk(Queue(st', t), Finish(st', t), st'.v, Weight(weights, t), lag) {
      assert StreamOk(Queue(st, t), Finish(st, t), st.v, Weight(weights, t), lag);
      if t == s { GrownOk(Queue(st, s), Finish(st, s), st.v, Weight(weights, s), lag, id, len); }
    }
  }

  lemma {:induction false} GrownOk(q: seq<Item>, finish: real, v: real, w: real, lag: real, id: nat, len: nat)
    requires w >= 1.0 && lag >= 0.0 && StreamOk(q, finish, v, w, lag)
    ensures var tag := Max(v, finish) + Cost(len, w);
            StreamOk(q + [Item(id, len, tag)], tag, v, w, lag)
  {
    var q' := q + [Item(id, len, Max(v, finish) + Cost(len, w))];
    forall i | 1 <= i < |q'| ensures Chained(q', i, v, w) {
      if i < |q| { assert Chained(q, i, v, w); }
    }
  }

  lemma {:induction false} ServedOk(q: seq<Item>, finish: real, v: real, w: real, lag: real)
    requires w >= 1.0 && lag >= 0.0 && StreamOk(q, finish, v, w, lag) && q != []
    ensures StreamOk(q[1..], finish, Max(v, q[0].tag), w, lag)
  {
    if |q| > 1 {
      assert Chained(q, 1, v, w);
      forall i | 1 <= i < |q[1..]| ensures Chained(q[1..], i, Max(v, q[0].tag), w) { assert Chained(q, i + 1, v, w); }
    }
  }

  /** No backlogged stream is left more than lag behind by serving s. */
  ghost predicate InReach(st: State, s: uint16, lag: real)
    requires Queue(st, s) != []
  {
    forall t: uint16 | t in st.queues && st.queues[t] != [] :: st.queues[t][0].tag + lag >= Queue(st, s)[0].tag
  }

  /** Serving any stream, chosen now or earlier, keeps the order of tags if and only if no
      head is more than lag ahead of the one served. */
  lemma {:induction false} ServeOkIff(st: State, weights: map<uint16, uint16>, lag: real, s: uint16)
    requires Ok(st, weights, lag) && lag >= 0.0 && Queue(st, s) != []
    ensures Ok(Serve(st, s), weights, lag) <==> InReach(st, s, lag)
  {
    var st' := Serve(st, s);
    assert StreamOk(Queue(st, s), Finish(st, s), st.v, Weight(weights, s), lag);
    forall t: uint16
      ensures StreamOk(Queue(st', t), Finish(st', t), st'.v, Weight(weights, t), lag) <==>
              (t in st.queues && st.queues[t] != [] ==> st.queues[t][0].tag + lag >= Queue(st, s)[0].tag)
    {
      assert StreamOk(Queue(st, t), Finish(st, t), st.v, Weight(weights, t), lag);
      if t == s {
        ServedOk(Queue(st, t), Finish(st, t), st.v, Weight(weights, t), lag);
      } else {
        LaterOk(Queue(st, t), Finish(st, t), st.v, st'.v, Weight(weights, t), lag);
      }
    }
    if !InReach(st, s, lag) {
      var t: uint16 :| t in st.queues && st.queues[t] != [] && st.queues[t][0].tag + lag < Queue(st, s)[0].tag;
      assert !StreamOk(Queue(st', t), Finish(st', t), st'.v, Weight(weights, t), lag);
    }
  }

  lemma {:induction false} LaterOk(q: seq<Item>, finish: real, v: real, v': real, w: real, lag: real)
    requires w >= 1.0 && StreamOk(q, finish, v, w, lag) && v <= v'
    ensures StreamOk(q, finish, v', w, lag) <==> q == [] || v' <= q[0].tag + lag
  {
    forall i | 1 <= i < |q| ensures Chained(q, i, v', w) { assert Chained(q, i, v, w); }
  }

  /** In particular the least head may be served: no queued tag falls behind. */
  lemma {:induction false} ServeOk(st: State, weights: map<uint16, uint16>, s: uint16)
    requires Ok(st, weights, 0.0) && Least(st, s)
    ensures Ok(Serve(st, s), weights, 0.0)
  {
    forall t: uint16 | t in st.queues && st.queues[t] != [] ensures st.queues[t][0].tag >= Queue(st, s)[0].tag {
      assert Beats(st.queues[t][0].tag, t, Queue(st, s)[0].tag, s);
    }
    ServeOkIff(st, weights, 0.0, s);
  }

  /** Every queued tag is at least the virtual time less the lag, and a backlogged stream's
      head started no later than the virtual time and no earlier than its own cost and the
      lag before it. */
  lemma {:induction false} Tags(st: State, weights: map<uint16, uint16>, lag: real, s: uint16, i: nat)
    requires Ok(st, weights, lag) && i < |Queue(st, s)|
    ensures Queue(st, s)[i].tag + lag >= st.v
    ensures var h, w := Queue(st, s)[0], Weight(weights, s);
            st.v - Cost(h.len, w) - lag <= Start(h, w) <= st.v
  {
    assert StreamOk(Queue(st, s), Finish(st, s), st.v, Weight(weights, s), lag);
  }

  // -------------------------------------------------- pushes after the choice

  datatype Arrival = Arrival(s: uint16, id: nat, len: nat)

  function Pushed(st: State, weights: map<uint16, uint16>, arrivals: seq<Arrival>): State
    decreases |arrivals|
  {
    if arrivals == [] then st
    else
      var a := arrivals[|arrivals| - 1];
      Push(Pushed(st, weights, arrivals[..|arrivals| - 1]), a.s, a.id, a.len, Weight(weights, a.s))
  }

  /** Arrival k is the first on a stream that was idle. */
  predicate Wakes(st: State, arrivals: seq<Arrival>, k: nat)
    requires k < |arrivals|
  {
    Queue(st, arrivals[k].s) == [] && forall j | 0 <= j < k :: arrivals[j].s != arrivals[k].s
  }

  predicate Arrives(arrivals: seq<Arrival>, t: uint16) { exists k :: 0 <= k < |arrivals| && arrivals[k].s == t }

  /** What pushes do to a stream's head: nothing if it has one, else the first arrival is it. */
  lemma {:induction false} PushedHead(st: State, weights: map<uint16, uint16>, arrivals: seq<Arrival>, t: uint16)
    ensures var b := Pushed(st, weights, arrivals);
            && b.v == st.v
            && (!Arrives(arrivals, t) ==> Queue(b, t) == Queue(st, t) && Finish(b, t) == Finish(st, t))
            && (Queue(st, t) != [] ==> Queue(b, t) != [] && Queue(b, t)[0] == Queue(st, t)[0])
    decreases |arrivals|
  {
    hide Weight, Cost;
    if arrivals != [] {
      var n := |arrivals| - 1;
      PushedHead(st, weights, arrivals[..n], t);
      assert arrivals[n].s == t ==> Arrives(arrivals, t);
      if Arrives(arrivals[..n], t) { assert Arrives(arrivals, t); }
    }
  }

  lemma {:induction false} IdleFinish(st: State, weights: map<uint16, uint16>, t: uint16)
    requires Ok(st, weights, 0.0)
    ensures Queue(st, t) == [] ==> Finish(st, t) <= st.v
  {
    assert StreamOk(Queue(st, t), Finish(st, t), st.v, Weight(weights, t), 0.0);
  }

  lemma {:induction false} WokenHead(st: State, weights: map<uint16, uint16>, arrivals: seq<Arrival>, k: nat)
    requires Ok(st, weights, 0.0) && k < |arrivals| && Wakes(st, arrivals, k)
    ensures var b, a := Pushed(st, weights, arrivals), arrivals[k];
            Queue(b, a.s) != [] && Queue(b, a.s)[0].tag == st.v + Cost(a.len, Weight(weights, a.s))
    decreases |arrivals|
  {
    hide Ok, Weight, Cost;
    var n, t := |arrivals| - 1, arrivals[k].s;
    var init := arrivals[..n];
    IdleFinish(st, weights, t);
    if k < n {
      assert Wakes(st, init, k);
      WokenHead(st, weights, init, k);
    } else {
      assert !Arrives(init, t);
      PushedHead(st, weights, init, t);
    }
  }

  lemma {:induction false} PushedOk(st: State, weights: map<uint16, uint16>, arrivals: seq<Arrival>)
    requires Ok(st, weights, 0.0)
    ensures Ok(Pushed(st, weights, arrivals), weights, 0.0)
    decreases |arrivals|
  {
    if arrivals != [] {
      var a, init := arrivals[|arrivals| - 1], arrivals[..|arrivals| - 1];
      PushedOk(st, weights, init);
      PushOk(Pushed(st, weights, init), weights, 0.0, a.s, a.id, a.len);
    }
  }

  lemma {:induction false} FirstArrival(st: State, arrivals: seq<Arrival>, t: uint16) returns (k: nat)
    requires Queue(st, t) == [] && Arrives(arrivals, t)
    ensures k < |arrivals| && arrivals[k].s == t && Wakes(st, arrivals, k)
  {
    k := 0;
    while arrivals[k].s != t
      invariant k < |arrivals|
      invariant forall j | 0 <= j < k :: arrivals[j].s != t
      decreases |arrivals| - k
    {
      k := k + 1;
    }
  }

  /** When pushes between Peek and Pop break the order of tags: if and only if one of them
      wakes an idle stream with a chunk that would finish before the chosen one. */
  lemma {:induction false} StaleIff(st: State, weights: map<uint16, uint16>, s: uint16, arrivals: seq<Arrival>)
    requires Ok(st, weights, 0.0) && Least(st, s)
    ensures var b := Pushed(st, weights, arrivals);
            && Queue(b, s) != [] && Queue(b, s)[0] == Queue(st, s)[0]
            && (Ok(Serve(b, s), weights, 0.0) <==>
                forall k | 0 <= k < |arrivals| && Wakes(st, arrivals, k) ::
                  st.v + Cost(arrivals[k].len, Weight(weights, arrivals[k].s)) >= Queue(st, s)[0].tag)
  {
    hide Ok, Push, Cost, Weight;
    var b, T := Pushed(st, weights, arrivals), Queue(st, s)[0].tag;
    PushedHead(st, weights, arrivals, s);
    PushedOk(st, weights, arrivals);
    ServeOkIff(b, weights, 0.0, s);
    forall k | 0 <= k < |arrivals| && Wakes(st, arrivals, k)
      ensures Queue(b, arrivals[k].s) != []
      ensures Queue(b, arrivals[k].s)[0].tag == st.v + Cost(arrivals[k].len, Weight(weights, arrivals[k].s))
    {
      WokenHead(st, weights, arrivals, k);
    }
    if forall k | 0 <= k < |arrivals| && Wakes(st, arrivals, k) ::
         st.v + Cost(arrivals[k].len, Weight(weights, arrivals[k].s)) >= T
    {
      forall t: uint16 | t in b.queues && b.queues[t] != [] ensures b.queues[t][0].tag >= T {
        PushedHead(st, weights, arrivals, t);
        if Queue(st, t) != [] {
          assert Beats(st.queues[t][0].tag, t, T, s);
        } else {
          var k := FirstArrival(st, arrivals, t);
        }
      }
    }
  }

  /** Such a push: with stream 1's chunk of 100 chosen, a chunk of 1 on stream 2 is left
      behind the virtual time. */
  lemma {:induction false} StaleChoice()
    ensures var none, st := map[], State(map[1 := [Item(0, 100, 100.0)]], map[1 := 100.0], 0.0);
            && Ok(st, none, 0.0) && Least(st, 1)
            && var b := Pushed(st, none, [Arrival(2, 1, 1)]);
            && Queue(b, 1) != []
            && var c := Serve(b, 1);
            !Ok(c, none, 0.0) && Queue(c, 2) != [] && Queue(c, 2)[0].tag == 1.0 && c.v == 100.0
  {
    var none: map<uint16, uint16> := map[];
    var st := State(map[1 := [Item(0, 100, 100.0)]], map[1 := 100.0], 0.0);
    assert Ok(st, none, 0.0);
    var arrivals := [Arrival(2, 1, 1)];
    assert arrivals[..0] == [] && Pushed(st, none, []) == st;
    assert Wakes(st, arrivals, 0);
    assert Cost(1, 1.0) == 1.0;
    StaleIff(st, none, 1, arrivals);
  }

  // -------------------------------------------------------------------- runs

  /** The scheduler with the choice it remembers. */
  datatype Config = Config(st: State, chosen: Option<uint16>)

  datatype Op = Enqueue(s: uint16, id: nat, len: nat) | Choose(s: uint16) | Dequeue(s: uint16)

  ghost predicate Step(c: Config, op: Op, c': Config, weights: map<uint16, uint16>) {
    match op
    case Enqueue(s, id, len) => c' == c.(st := Push(c.st, s, id, len, Weight(weights, s)))
    case Choose(s) => c.chosen.None? && Least(c.st, s) && c' == c.(chosen := Some(s))
    case Dequeue(s) => c.chosen == Some(s) && Queue(c.st, s) != [] && c' == Config(Serve(c.st, s), None)
  }

  /** The chosen chunk's tag; the virtual time when it is served. */
  function Due(c: Config): real {
    if c.chosen.Some? && Queue(c.st, c.chosen.value) != []
    then Max(c.st.v, Queue(c.st, c.chosen.value)[0].tag) else c.st.v
  }

  /** While a choice is remembered, either nothing has been pushed ahead of it, or its chunk
      costs at most the lag. With lag 0: no push has woken a stream ahead of the choice. */
  ghost predicate Timely(c: Config, weights: map<uint16, uint16>, lag: real) {
    c.chosen.Some? && Queue(c.st, c.chosen.value) != [] ==>
      var s := c.chosen.value;
      InReach(c.st, s, 0.0) || Cost(Queue(c.st, s)[0].len, Weight(weights, s)) <= lag
  }

  ghost predicate Run(cs: seq<Config>, ops: seq<Op>, weights: map<uint16, uint16>, lag: real) {
    && |cs| == |ops| + 1 && lag >= 0.0
    && Ok(cs[0].st, weights, lag) && cs[0].chosen.None?
    && (forall i :: 0 <= i < |ops| ==> StepAt(cs, ops, weights, i))
    && (forall i :: 0 <= i < |cs| ==> Timely(cs[i], weights, lag))
  }

  ghost predicate StepAt(cs: seq<Config>, ops: seq<Op>, weights: map<uint16, uint16>, i: nat)
    requires |cs| == |ops| + 1 && i < |ops|
  {
    Step(cs[i], ops[i], cs[i + 1], weights)
  }

  /** The head of a backlogged stream is no earlier than the chosen one, or than the
      virtual time at which it was chosen. */
  ghost predicate ChoiceOk(c: Config) {
    c.chosen.Some? ==>
      && Queue(c.st, c.chosen.value) != []
      && forall t: uint16 | t in c.st.queues && c.st.queues[t] != [] ::
           c.st.queues[t][0].tag >= Queue(c.st, c.chosen.value)[0].tag || c.st.queues[t][0].tag >= c.st.v
  }

  ghost predicate Inv(c: Config, weights: map<uint16, uint16>, lag: real) { Ok(c.st, weights, lag) && ChoiceOk(c) }

  /** No head is more than lag before the time at which the choice is served. */
  lemma {:induction false} WithinLag(c: Config, weights: map<uint16, uint16>, lag: real, t: uint16)
    requires Inv(c, weights, lag) && Timely(c, weights, lag) && lag >= 0.0 && Queue(c.st, t) != []
    ensures Queue(c.st, t)[0].tag + lag >= Due(c)
  {
    assert StreamOk(Queue(c.st, t), Finish(c.st, t), c.st.v, Weight(weights, t), lag);
    if c.chosen.Some? {
      var s := c.chosen.value;
      assert StreamOk(Queue(c.st, s), Finish(c.st, s), c.st.v, Weight(weights, s), lag);
    }
  }

  lemma {:induction false} DequeueOk(c: Config, weights: map<uint16, uint16>, lag: real)
    requires Inv(c, weights, lag) && Timely(c, weights, lag) && lag >= 0.0 && c.chosen.Some?
    ensures Queue(c.st, c.chosen.value) != [] && Ok(Serve(c.st, c.chosen.value), weights, lag)
  {
    hide Ok;
    forall t: uint16 | t in c.st.queues && c.st.queues[t] != []
      ensures c.st.queues[t][0].tag + lag >= Queue(c.st, c.chosen.value)[0].tag
    {
      WithinLag(c, weights, lag, t);
    }
    ServeOkIff(c.st, weights, lag, c.chosen.value);
  }

  lemma {:induction false} StepInv(c: Config, op: Op, c': Config, weights: map<uint16, uint16>, lag: real)
    requires Inv(c, weights, lag) && Timely(c, weights, lag) && lag >= 0.0 && Step(c, op, c', weights)
    ensures Inv(c', weights, lag)
  {
    hide Ok;
    match op {
      case Enqueue(s, id, len) => PushOk(c.st, weights, lag, s, id, len);
      case Choose(s) =>
        forall t: uint16 | t in c.st.queues && c.st.queues[t] != []
          ensures c.st.queues[t][0].tag >= Queue(c.st, s)[0].tag
        {
          assert Beats(c.st.queues[t][0].tag, t, Queue(c.st, s)[0].tag, s);
        }
      case Dequeue(s) => DequeueOk(c, weights, lag);
    }
  }

  lemma {:induction false} RunOk(cs: seq<Config>, ops: seq<Op>, weights: map<uint16, uint16>, lag: real, n: nat)
    requires Run(cs, ops, weights, lag) && n < |cs|
    ensures Inv(cs[n], weights, lag)
  {
    if n > 0 {
      RunOk(cs, ops, weights, lag, n - 1);
      assert StepAt(cs, ops, weights, n - 1);
      hide Inv, Timely;
      StepInv(cs[n - 1], ops[n - 1], cs[n], weights, lag);
    }
  }

  // ---------------------------------------------------------------- fairness

  /** Bytes of stream s served by one step. */
  ghost function Given(c: Config, op: Op, s: uint16): nat {
    if op == Dequeue(s) && Queue(c.st, s) != [] then Queue(c.st, s)[0].len else 0
  }

  /** Bytes of stream s served by the operations m to n. */
  ghost function Served(cs: seq<Config>, ops: seq<Op>, s: uint16, m: nat, n: nat): nat
    requires |cs| == |ops| + 1 && m <= n <= |ops|
    decreases n - m
  {
    if m == n then 0 else Served(cs, ops, s, m, n - 1) + Given(cs[n - 1], ops[n - 1], s)
  }

  ghost predicate Backlogged(cs: seq<Config>, s: uint16, m: nat, n: nat)
    requires n < |cs|
  {
    forall k :: m <= k <= n ==> Queue(cs[k].st, s) != []
  }

  lemma {:induction false} CostAdd(a: nat, b: nat, w: real)
    requires w >= 1.0
    ensures Cost(a + b, w) == Cost(a, w) + Cost(b, w)
  {
  }

  lemma {:induction false} CostMono(a: nat, b: nat, w: real)
    requires a <= b && w >= 1.0
    ensures Cost(a, w) <= Cost(b, w)
  {
    CostAdd(a, b - a, w);
  }

  /** The start tag of the head of s. */
  ghost function HeadStart(c: Config, weights: map<uint16, uint16>, s: uint16): real
    requires Queue(c.st, s) != []
  {
    Start(Queue(c.st, s)[0], Weight(weights, s))
  }

  /** How far the head of s is before the time at which the choice is served. */
  ghost function Behind(c: Config, s: uint16): real
    requires Queue(c.st, s) != []
  {
    Max(0.0, Due(c) - Queue(c.st, s)[0].tag)
  }

  lemma {:induction false} DequeueMoves(c: Config, c': Config, weights: map<uint16, uint16>, lag: real, s: uint16)
    requires Inv(c, weights, lag) && Step(c, Dequeue(s), c', weights) && Queue(c'.st, s) != []
    ensures var cost := Cost(Queue(c.st, s)[0].len, Weight(weights, s));
            && HeadStart(c', weights, s) >= HeadStart(c, weights, s) + cost
            && HeadStart(c', weights, s) + Behind(c', s) <= HeadStart(c, weights, s) + cost + Behind(c, s)
  {
    var q, w := Queue(c.st, s), Weight(weights, s);
    assert StreamOk(q, Finish(c.st, s), c.st.v, w, lag);
    assert Queue(c'.st, s) == q[1..];
    assert Chained(q, 1, c.st.v, w);
  }

  lemma {:induction false} HeadStays(c: Config, op: Op, c': Config, weights: map<uint16, uint16>, lag: real, s: uint16)
    requires Inv(c, weights, lag) && Step(c, op, c', weights) && op != Dequeue(s)
    requires Queue(c.st, s) != [] && Queue(c'.st, s) != []
    ensures Queue(c'.st, s)[0] == Queue(c.st, s)[0] && Behind(c', s) <= Behind(c, s)
  {
    hide Ok;
    if op.Choose? { assert Beats(c.st.queues[s][0].tag, s, Queue(c.st, op.s)[0].tag, op.s); }
  }

  lemma {:induction false} HeadStep(c: Config, op: Op, c': Config, weights: map<uint16, uint16>, lag: real, s: uint16)
    requires Inv(c, weights, lag) && Step(c, op, c', weights) && Queue(c.st, s) != [] && Queue(c'.st, s) != []
    ensures var cost := Cost(Given(c, op, s), Weight(weights, s));
            && HeadStart(c', weights, s) >= HeadStart(c, weights, s) + cost
            && HeadStart(c', weights, s) + Behind(c', s) <= HeadStart(c, weights, s) + cost + Behind(c, s)
  {
    hide Inv, Behind;
    if op == Dequeue(s) {
      DequeueMoves(c, c', weights, lag, s);
    } else {
      HeadStays(c, op, c', weights, lag, s);
    }
  }

  /** While a stream is backlogged, its head's start tag moves by what is served, and by no
      more than the head catches up. */
  lemma {:induction false} HeadMoves(cs: seq<Config>, ops: seq<Op>, weights: map<uint16, uint16>, lag: real, s: uint16, m: nat, n: nat)
    requires Run(cs, ops, weights, lag) && m <= n <= |ops| && Backlogged(cs, s, m, n)
    ensures var cost := Cost(Served(cs, ops, s, m, n), Weight(weights, s));
            && HeadStart(cs[n], weights, s) >= HeadStart(cs[m], weights, s) + cost
            && HeadStart(cs[n], weights, s) + Behind(cs[n], s) <= HeadStart(cs[m], weights, s) + cost + Behind(cs[m], s)
    decreases n - m
  {
    hide Inv, Step, Timely, HeadStart, Cost, Weight, Behind, Given;
    if m == n {
      NoCost(Weight(weights, s));
    } else {
      HeadMoves(cs, ops, weights, lag, s, m, n - 1);
      RunOk(cs, ops, weights, lag, n - 1);
      assert StepAt(cs, ops, weights, n - 1);
      HeadStep(cs[n - 1], ops[n - 1], cs[n], weights, lag, s);
      CostAdd(Served(cs, ops, s, m, n - 1), Given(cs[n - 1], ops[n - 1], s), Weight(weights, s));
    }
  }

  lemma {:induction false} NoCost(w: real)
    requires w >= 1.0
    ensures Cost(0, w) == 0.0
  {
  }

  /** Where the head of a backlogged stream lies. */
  lemma {:induction false} HeadBounds(c: Config, weights: map<uint16, uint16>, lag: real, s: uint16, max: nat)
    requires Inv(c, weights, lag) && Timely(c, weights, lag) && lag >= 0.0
    requires Queue(c.st, s) != [] && Queue(c.st, s)[0].len <= max
    ensures var w := Weight(weights, s);
            && HeadStart(c, weights, s) <= c.st.v && 0.0 <= Behind(c, s) <= lag
            && HeadStart(c, weights, s) + Cost(max, w) + Behind(c, s) >= c.st.v
  {
    hide Ok, Cost, Weight;
    Tags(c.st, weights, lag, s, 0);
    WithinLag(c, weights, lag, s);
    CostMono(Queue(c.st, s)[0].len, max, Weight(weights, s));
  }

  /** Each stream alone keeps up with the virtual time to within one chunk and the lag. */
  lemma {:induction false} OneStream(cs: seq<Config>, ops: seq<Op>, weights: map<uint16, uint16>, lag: real, s: uint16, m: nat, n: nat, max: nat)
    requires Run(cs, ops, weights, lag) && m <= n <= |ops| && Backlogged(cs, s, m, n)
    requires Queue(cs[m].st, s)[0].len <= max && Queue(cs[n].st, s)[0].len <= max
    ensures var w := Weight(weights, s);
            var served, passed := Cost(Served(cs, ops, s, m, n), w), cs[n].st.v - cs[m].st.v;
            passed - Cost(max, w) - lag <= served <= passed + Cost(max, w) + lag
  {
    hide Inv, Timely, Cost, Weight, Served, HeadStart, Behind;
    HeadMoves(cs, ops, weights, lag, s, m, n);
    RunOk(cs, ops, weights, lag, m);
    RunOk(cs, ops, weights, lag, n);
    HeadBounds(cs[m], weights, lag, s, max);
    HeadBounds(cs[n], weights, lag, s, max);
  }

  /** The fairness bound: over any interval in which two streams are backlogged throughout,
      what they are served, each divided by the weight configured for it or by 1, differs by at most one chunk each -
      and twice the lag, which is the cost of the largest chunk that was chosen before an
      idle stream woke ahead of it. */
  lemma {:induction false} Fairness(cs: seq<Config>, ops: seq<Op>, weights: map<uint16, uint16>, lag: real,
                 i: uint16, j: uint16, m: nat, n: nat, maxI: nat, maxJ: nat)
    requires Run(cs, ops, weights, lag) && m <= n <= |ops|
    requires Backlogged(cs, i, m, n) && Backlogged(cs, j, m, n)
    requires Queue(cs[m].st, i)[0].len <= maxI && Queue(cs[n].st, i)[0].len <= maxI
    requires Queue(cs[m].st, j)[0].len <= maxJ && Queue(cs[n].st, j)[0].len <= maxJ
    ensures var wi := if i in weights && weights[i] != 0 then weights[i] as real else 1.0;
            var wj := if j in weights && weights[j] != 0 then weights[j] as real else 1.0;
            var d := Served(cs, ops, i, m, n) as real / wi - Served(cs, ops, j, m, n) as real / wj;
            var most := maxI as real / wi + maxJ as real / wj + 2.0 * lag;
            -most <= d <= most
  {
    hide Run, Served;
    OneStream(cs, ops, weights, lag, i, m, n, maxI);
    OneStream(cs, ops, weights, lag, j, m, n, maxJ);
  }
}
