/** What a stream is to deliver, by messages and over whole runs: the reference both
    reassembly queues are held against. Ordered messages are delivered in turn; unordered
    ones as they become whole, and before any ordered one. */
module Exchange {
  import opened Options
  import opened Sets
  import opened Serial
  import opened Fragments
  import opened Mailing
  import D = Delivery

  /** What the peer sent on the stream, ordered and unordered messages numbered apart, and
      the number of the first TSN of each unordered one. With interleaving messages are told
      apart by identifier, without it by TSN. */
  datatype Peer = Peer(interleaving: bool, mail: seq<Mail>, loose: seq<Mail>, at: seq<int>)

  /** Every message has a fragment. */
  ghost predicate Sane(p: Peer) {
    && (forall k :: 0 <= k < |p.mail| ==> p.mail[k].fs != [])
    && (forall k :: 0 <= k < |p.loose| ==> p.loose[k].fs != [])
  }

  // --------------------------------------------------------- unordered messages

  /** got: the fragments held of incomplete messages. seen: all that ever came. done: the
      messages that became whole, in that order, of which the first `read` have been read.
      lost: those given up, in part or in all, before they were whole. */
  datatype Loose = Loose(got: map<nat, set<nat>>, seen: map<nat, set<nat>>, done: seq<nat>, read: nat, lost: set<nat>)

  function Had(m: map<nat, set<nat>>, k: nat): set<nat> { if k in m then m[k] else {} }

  ghost function Arrive(loose: seq<Mail>, u: Loose, k: nat, i: nat): Loose
    requires k < |loose|
  {
    var d, seen := Had(u.got, k) + {i}, u.seen[k := Had(u.seen, k) + {i}];
    if All(d, |loose[k].fs|) then u.(got := u.got - {k}, seen := seen, done := u.done + [k])
    else u.(got := u.got[k := d], seen := seen)
  }

  /** Giving up to n passes fragment i of message k: by identifier the whole message, by TSN
      the single fragment. */
  predicate Passes(p: Peer, n: int, k: nat, i: nat) {
    if p.interleaving then k <= n else k < |p.at| && p.at[k] + i <= n
  }

  function Left(p: Peer, n: int, k: nat, places: set<nat>): set<nat> {
    set i | i in places && !Passes(p, n, k, i)
  }

  function Drop(p: Peer, u: Loose, n: int): Loose {
    u.(got := map k | k in u.got && Left(p, n, k, u.got[k]) != {} :: Left(p, n, k, u.got[k]),
       lost := u.lost + set k | k in u.got && Left(p, n, k, u.got[k]) != u.got[k])
  }

  ghost predicate LooseOk(loose: seq<Mail>, u: Loose) {
    && u.read <= |u.done|
    && (forall k :: k in u.got ==> k < |loose| && u.got[k] != {} && !All(u.got[k], |loose[k].fs|))
    && (forall k: nat, i: nat :: i in Had(u.got, k) ==> i in Had(u.seen, k))
    && (forall k :: k in u.done ==> k < |loose| && All(Had(u.seen, k), |loose[k].fs|) && k !in u.got)
    && (forall i, j :: 0 <= i < j < |u.done| ==> u.done[i] != u.done[j])
    && (forall k: nat, i: nat :: i in Had(u.seen, k) ==> k in u.done || k in u.lost || i in Had(u.got, k))
  }

  lemma {:induction false} NotDone(loose: seq<Mail>, u: Loose, k: nat, i: nat)
    requires LooseOk(loose, u) && k < |loose| && i < |loose[k].fs| && i !in Had(u.seen, k)
    ensures k !in u.done && i !in Had(u.got, k)
  {
    assert !All(Had(u.seen, k), |loose[k].fs|) by { assert i !in Had(u.seen, k); }
  }

  lemma {:induction false} ArriveOk(loose: seq<Mail>, u: Loose, k: nat, i: nat)
    requires LooseOk(loose, u) && k < |loose| && i < |loose[k].fs| && i !in Had(u.seen, k)
    ensures LooseOk(loose, Arrive(loose, u, k, i))
  {
    NotDone(loose, u, k, i);
    ArriveAt(loose, u, k, i);
    hide All, Had;
  }

  lemma {:induction false} ArriveAt(loose: seq<Mail>, u: Loose, k: nat, i: nat)
    requires k < |loose|
    ensures var u', d := Arrive(loose, u, k, i), Had(u.got, k) + {i};
            var whole := All(d, |loose[k].fs|);
            && (forall l: nat :: Had(u'.seen, l) == if l == k then Had(u.seen, k) + {i} else Had(u.seen, l))
            && (forall l: nat :: Had(u'.got, l) == if l == k then (if whole then {} else d) else Had(u.got, l))
            && (forall l: nat :: l in u'.got <==> if l == k then !whole else l in u.got)
            && (forall l: nat :: l in u'.done <==> l in u.done || (whole && l == k))
  {
    hide All;
  }

  lemma {:induction false} DropAt(p: Peer, u: Loose, n: int, k: nat)
    ensures var u' := Drop(p, u, n);
            && Had(u'.got, k) == Left(p, n, k, Had(u.got, k))
            && (k in u'.got ==> k in u.got && u'.got[k] == Left(p, n, k, u.got[k]) && u'.got[k] != {})
  {
  }

  lemma {:induction false} DropOk(p: Peer, u: Loose, n: int)
    requires LooseOk(p.loose, u)
    ensures LooseOk(p.loose, Drop(p, u, n))
  {
    var u' := Drop(p, u, n);
    forall k | k in u'.got
      ensures k < |p.loose| && u'.got[k] != {} && !All(u'.got[k], |p.loose[k].fs|)
    {
      LeftPart(p, n, k, u.got[k], |p.loose[k].fs|);
    }
    forall k: nat, i: nat
      ensures i in Had(u'.got, k) ==> i in Had(u.seen, k)
      ensures i in Had(u.seen, k) ==> k in u.done || k in u'.lost || i in Had(u'.got, k)
    {
      DropAt(p, u, n, k);
    }
  }

  lemma {:induction false} LeftPart(p: Peer, n: int, k: nat, places: set<nat>, size: nat)
    requires !All(places, size)
    ensures !All(Left(p, n, k, places), size)
  {
    var x: nat :| x < size && x !in places;
    assert x !in Left(p, n, k, places);
  }

  lemma {:induction false} ReadOk(loose: seq<Mail>, u: Loose)
    requires LooseOk(loose, u) && u.read < |u.done|
    ensures LooseOk(loose, u.(read := u.read + 1))
  {
    hide All, Had;
  }

  /** Every message of which all fragments came, and of which nothing was given up, is whole. */
  lemma {:induction false} AllDone(loose: seq<Mail>, u: Loose, k: nat)
    requires LooseOk(loose, u) && k < |loose| && loose[k].fs != [] && All(Had(u.seen, k), |loose[k].fs|) && k !in u.lost
    ensures k in u.done
  {
    var n: nat, held := |loose[k].fs|, Had(u.got, k);
    assert 0 in Had(u.seen, k);
    forall x | 0 <= x < n ensures k in u.done || x in held { assert x in Had(u.seen, k); }
    assert k in u.done || All(held, n);
  }

  // -------------------------------------------------------------------- events

  datatype Event = Chunk(k: nat, i: nat) | LooseChunk(k: nat, i: nat) | Read | GiveUp(m: nat) | GiveUpLoose(n: int)

  /** A delivery: ordered message k, or unordered message k. */
  datatype Tag = InTurn(k: nat) | OutOfTurn(k: nat)

  datatype Model = Model(o: D.State, u: Loose, log: seq<Tag>)

  const START := Model(D.INIT, Loose(map[], map[], [], 0, {}), [])

  /** Each chunk comes once, as the receive window lets it. */
  ghost predicate Eligible(p: Peer, m: Model, ev: Event) {
    match ev
    case Chunk(k, i) => k < |p.mail| && i < |p.mail[k].fs| && (k >= m.o.next ==> i !in D.Got(m.o, k))
    case LooseChunk(k, i) => k < |p.loose| && i < |p.loose[k].fs| && i !in Had(m.u.seen, k)
    case _ => true
  }

  /** Less than half the space of the numbers that are compared on the wire. */
  ghost predicate Close(p: Peer, a: int, b: int) { if p.interleaving then Near(a, b) else Near16(a, b) }

  /** Message x is close to everything the queue knows of. */
  ghost predicate CloseTo(p: Peer, st: D.State, x: nat) {
    Close(p, st.next, x) && forall j :: 0 <= j < |st.live| ==> Close(p, st.live[j], x)
  }

  /** The same for unordered messages: by identifier against those held or unread, by TSN
      against the fragments held. */
  ghost predicate LooseNear(p: Peer, u: Loose, k: nat, i: nat) {
    if p.interleaving then
      && (forall l :: l in u.got ==> Near(l, k))
      && (forall j :: u.read <= j < |u.done| ==> Near(u.done[j], k))
    else
      k < |p.at| && forall l, j :: l in u.got && j in u.got[l] && l < |p.at| ==> Near(p.at[l] + j, p.at[k] + i)
  }

  /** An unordered chunk that has not come before, near everything it is compared with. */
  ghost predicate Fits(p: Peer, u: Loose, k: nat, i: nat) {
    k < |p.loose| && i < |p.loose[k].fs| && i !in Had(u.seen, k) && LooseNear(p, u, k, i)
  }

  ghost predicate DropNear(p: Peer, u: Loose, n: int) {
    if p.interleaving then forall l :: l in u.got ==> Near(l, n)
    else forall l, j :: l in u.got && j in u.got[l] && l < |p.at| ==> Near(p.at[l] + j, n)
  }

  /** What is compared at one time is less than half its number space apart: then the wire
      values decide as the true numbers would. */
  ghost predicate Fair(p: Peer, m: Model, ev: Event) {
    && Eligible(p, m, ev)
    && match ev
       case Chunk(k, i) => CloseTo(p, m.o, k)
       case LooseChunk(k, i) => LooseNear(p, m.u, k, i)
       case Read => CloseTo(p, m.o, m.o.next)
       case GiveUp(n) => CloseTo(p, m.o, n)
       case GiveUpLoose(n) => DropNear(p, m.u, n)
  }

  /** Whatever is first to come is fair. */
  lemma {:induction false} FirstFair(p: Peer, k: nat, i: nat, n: int)
    requires |p.at| == |p.loose|
    ensures 0 < |p.mail| && i < |p.mail[0].fs| ==> Fair(p, START, Chunk(0, i))
    ensures k < |p.loose| && i < |p.loose[k].fs| ==> Fair(p, START, LooseChunk(k, i))
    ensures Fair(p, START, Read) && Fair(p, START, GiveUp(0)) && Fair(p, START, GiveUpLoose(n))
  {
  }

  /** What is to happen. */
  ghost function Next(p: Peer, m: Model, ev: Event): Model
    requires Eligible(p, m, ev)
  {
    var sizes := Sizes(p.mail);
    match ev
    case Chunk(k, i) => m.(o := D.Step(sizes, m.o, D.Arrive(k, i)))
    case LooseChunk(k, i) => m.(u := Arrive(p.loose, m.u, k, i))
    case Read =>
      if m.u.read < |m.u.done| then m.(u := m.u.(read := m.u.read + 1), log := m.log + [OutOfTurn(m.u.done[m.u.read])])
      else if D.CanDeliver(sizes, m.o) then m.(o := D.Step(sizes, m.o, D.Deliver), log := m.log + [InTurn(m.o.live[0])])
      else m
    case GiveUp(n) => m.(o := D.Step(sizes, m.o, D.Skip(n)))
    case GiveUpLoose(n) => m.(u := Drop(p, m.u, n))
  }

  /** The bytes and payload type of a delivery. */
  ghost function Contents(p: Peer, t: Tag): (seq<byte>, uint32) {
    var mail := if t.InTurn? then p.mail else p.loose;
    if t.k < |mail| then (mail[t.k].raw, mail[t.k].ppi) else ([], 0)
  }

  /** The messages delivered, ordered or not. */
  function Turns(log: seq<Tag>, ordered: bool): seq<nat> {
    if log == [] then []
    else
      var rest, t := Turns(log[..|log| - 1], ordered), log[|log| - 1];
      if t.InTurn? == ordered then rest + [t.k] else rest
  }

  lemma {:induction false} LogNext(log: seq<Tag>, t: Tag, ordered: bool)
    ensures Turns(log + [t], ordered) == if t.InTurn? == ordered then Turns(log, ordered) + [t.k] else Turns(log, ordered)
  {
    assert (log + [t])[..|log|] == log;
  }

  // ------------------------------------------------------------- the invariant

  ghost predicate ModelOk(p: Peer, m: Model) {
    && D.Inv(Sizes(p.mail), m.o) && LooseOk(p.loose, m.u)
    && Turns(m.log, true) == m.o.out && m.u.read <= |m.u.done| && Turns(m.log, false) == m.u.done[..m.u.read]
  }

  lemma {:induction false} StartOk(p: Peer)
    requires Sane(p)
    ensures ModelOk(p, START)
  {
    D.InitInv(Sizes(p.mail));
    hide D.Inv;
  }

  lemma {:induction false} OutSame(p: Peer, m: Model, op: D.Op)
    requires D.Enabled(Sizes(p.mail), m.o, op) && !op.Deliver?
    ensures D.Step(Sizes(p.mail), m.o, op).out == m.o.out
  {
  }

  lemma {:induction false} DoneGrows(loose: seq<Mail>, u: Loose, k: nat, i: nat)
    requires k < |loose|
    ensures var u' := Arrive(loose, u, k, i);
            u'.read == u.read && |u.done| <= |u'.done| && u'.done[..|u.done|] == u.done && u'.lost == u.lost
  {
    hide All;
  }

  lemma {:induction false} DoneSame(p: Peer, u: Loose, n: int)
    ensures Drop(p, u, n).done == u.done && Drop(p, u, n).read == u.read
  {
  }

  lemma {:induction false} ReadStepOk(p: Peer, m: Model)
    requires ModelOk(p, m)
    ensures ModelOk(p, Next(p, m, Read))
  {
    hide D.Inv, LooseOk, D.CanDeliver, D.Full, Turns;
    if m.u.read < |m.u.done| {
      var t := OutOfTurn(m.u.done[m.u.read]);
      ReadOk(p.loose, m.u);
      LogNext(m.log, t, true);
      LogNext(m.log, t, false);
      assert m.u.done[..m.u.read + 1] == m.u.done[..m.u.read] + [m.u.done[m.u.read]];
    } else if D.CanDeliver(Sizes(p.mail), m.o) {
      D.DeliverInv(Sizes(p.mail), m.o);
      DeliverOut(p, m);
      LogNext(m.log, InTurn(m.o.live[0]), true);
      LogNext(m.log, InTurn(m.o.live[0]), false);
    }
  }

  lemma {:induction false} DeliverOut(p: Peer, m: Model)
    requires D.CanDeliver(Sizes(p.mail), m.o)
    ensures m.o.live != [] && D.Step(Sizes(p.mail), m.o, D.Deliver).out == m.o.out + [m.o.live[0]]
  {
  }

  lemma {:induction false} StepOk(p: Peer, m: Model, ev: Event)
    requires ModelOk(p, m) && Eligible(p, m, ev)
    ensures ModelOk(p, Next(p, m, ev))
  {
    hide D.Inv, LooseOk, D.Step, D.CanDeliver, Arrive, Drop, Turns;
    match ev {
      case Chunk(k, i) =>
        D.ArriveInv(Sizes(p.mail), m.o, k, i);
        OutSame(p, m, D.Arrive(k, i));
      case LooseChunk(k, i) =>
        ArriveOk(p.loose, m.u, k, i);
        DoneGrows(p.loose, m.u, k, i);
      case Read => ReadStepOk(p, m);
      case GiveUp(n) =>
        D.SkipInv(Sizes(p.mail), m.o, n);
        OutSame(p, m, D.Skip(n));
      case GiveUpLoose(n) =>
        DropOk(p, m.u, n);
        DoneSame(p, m.u, n);
    }
  }

  /** What the invariant says of the deliveries: ordered messages in the order in which they
      were sent, every message once, and only when all its fragments have come. */
  lemma {:induction false} Orderly(p: Peer, m: Model)
    requires ModelOk(p, m)
    ensures Ascending(Turns(m.log, true)) && forall k :: k in Turns(m.log, true) ==> D.Full(Sizes(p.mail), m.o, k)
    ensures forall i, j :: 0 <= i < j < |Turns(m.log, false)| ==> Turns(m.log, false)[i] != Turns(m.log, false)[j]
    ensures forall k :: k in Turns(m.log, false) ==> k < |p.loose| && All(Had(m.u.seen, k), |p.loose[k].fs|)
  {
    hide D.Full, All, Had, Turns;
    forall k | k in Turns(m.log, false) ensures k in m.u.done {}
  }

  // ---------------------------------------------------------------------- runs

  /** The model after these events. */
  ghost function After(p: Peer, evs: seq<Event>): Model {
    if evs == [] then START
    else
      var m, ev := After(p, evs[..|evs| - 1]), evs[|evs| - 1];
      if Eligible(p, m, ev) then Next(p, m, ev) else m
  }

  ghost predicate FairRun(p: Peer, evs: seq<Event>) {
    evs != [] ==> FairRun(p, evs[..|evs| - 1]) && Fair(p, After(p, evs[..|evs| - 1]), evs[|evs| - 1])
  }

  /** What a queue hands out in one step is what the model delivers. */
  ghost predicate SameOut(p: Peer, m: Model, m': Model, out: seq<(seq<byte>, uint32)>) {
    if out == [] then m'.log == m.log
    else |out| == 1 && |m'.log| == |m.log| + 1 && m'.log[..|m.log|] == m.log && out[0] == Contents(p, m'.log[|m.log|])
  }

  /** All that was handed out is all that the model delivered. */
  ghost predicate ReadsAs(p: Peer, m: Model, out: seq<(seq<byte>, uint32)>) {
    |out| == |m.log| && forall j :: 0 <= j < |out| ==> out[j] == Contents(p, m.log[j])
  }

  lemma {:induction false} NothingRead(p: Peer)
    ensures ReadsAs(p, START, [])
  {
  }

  lemma {:induction false} ReadMore(p: Peer, m: Model, m': Model, all: seq<(seq<byte>, uint32)>, out: seq<(seq<byte>, uint32)>)
    requires ReadsAs(p, m, all) && SameOut(p, m, m', out)
    ensures ReadsAs(p, m', all + out)
  {
    hide Contents;
    if out != [] { assert m'.log == m.log + [m'.log[|m.log|]]; }
  }

  /** Nothing is given up. */
  ghost predicate KeepsAll(evs: seq<Event>) {
    forall j :: 0 <= j < |evs| ==> !evs[j].GiveUp? && !evs[j].GiveUpLoose?
  }

  /** An event is at most one step of delivery by number. */
  lemma {:induction false} EventStep(p: Peer, m: Model, ev: Event) returns (op: Option<D.Op>)
    requires Eligible(p, m, ev) && !ev.GiveUp? && !ev.GiveUpLoose?
    ensures var m' := Next(p, m, ev);
            && m'.u.lost == m.u.lost
            && (op.None? ==> m'.o == m.o)
            && (op.Some? ==> !op.value.Skip? && D.Enabled(Sizes(p.mail), m.o, op.value)
                             && m'.o == D.Step(Sizes(p.mail), m.o, op.value))
  {
    hide D.Step, Arrive, D.Full;
    op := None;
    if ev.Chunk? {
      op := Some(D.Arrive(ev.k, ev.i));
    } else if ev.LooseChunk? {
      DoneGrows(p.loose, m.u, ev.k, ev.i);
    } else if ev.Read? && m.u.read >= |m.u.done| && D.CanDeliver(Sizes(p.mail), m.o) {
      op := Some(D.Deliver);
    }
  }

  lemma {:induction false} NothingGivenUp(p: Peer, evs: seq<Event>) returns (ops: seq<D.Op>)
    requires FairRun(p, evs) && KeepsAll(evs)
    ensures D.Runs(Sizes(p.mail), D.INIT, ops, After(p, evs).o) && NoSkips(ops)
    ensures After(p, evs).u.lost == {}
    decreases |evs|
  {
    hide Eligible, Next, D.Step, D.Enabled, CloseTo, LooseNear, DropNear;
    ops := [];
    if evs != [] {
      var n := |evs| - 1;
      ops := NothingGivenUp(p, evs[..n]);
      var m := After(p, evs[..n]);
      var op := EventStep(p, m, evs[n]);
      if op.Some? {
        OneMore(Sizes(p.mail), ops, m.o, op.value);
        ops := ops + [op.value];
      }
    }
  }

  /** On a reliable stream the ordered messages delivered are exactly the first ones sent, in
      order; and when nothing is left to deliver, the next one is still incomplete and every
      unordered message that came in full has been delivered. */
  lemma {:induction false} ReliableModel(p: Peer, evs: seq<Event>)
    requires Sane(p) && FairRun(p, evs) && KeepsAll(evs) && ModelOk(p, After(p, evs))
    ensures var m := After(p, evs);
            forall j :: 0 <= j < |Turns(m.log, true)| ==> Turns(m.log, true)[j] == j
    ensures var m := After(p, evs);
            m.u.read == |m.u.done| && !D.CanDeliver(Sizes(p.mail), m.o) ==>
              && !D.Full(Sizes(p.mail), m.o, |Turns(m.log, true)|)
              && forall k :: 0 <= k < |p.loose| && All(Had(m.u.seen, k), |p.loose[k].fs|) ==> k in Turns(m.log, false)
  {
    hide FairRun, After, D.Runs, D.Full, D.Inv, LooseOk, All, Had, D.CanDeliver, Turns;
    var ops := NothingGivenUp(p, evs);
    var m := After(p, evs);
    D.Reliable(Sizes(p.mail), ops, m.o);
    if m.u.read == |m.u.done| && !D.CanDeliver(Sizes(p.mail), m.o) {
      if D.Full(Sizes(p.mail), m.o, m.o.next) { D.NextReady(Sizes(p.mail), m.o); }
      assert m.u.done[..m.u.read] == m.u.done;
      forall k | 0 <= k < |p.loose| && All(Had(m.u.seen, k), |p.loose[k].fs|) ensures k in m.u.done {
        AllDone(p.loose, m.u, k);
      }
    }
  }
}
