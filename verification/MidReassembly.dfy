/** What a reassembly queue with interleaving delivers, over whole runs: by message number
    it is in-order delivery, although fragments of many messages come mixed. */
module MidReassembly {
  import opened Serial
  import opened Sets
  import opened Fragments
  import opened ChunkSets
  import opened Mailing
  import opened Exchange
  import opened MidPool
  import D = Delivery
  import M = MidQueue

  ghost predicate HoldsMid(held: seq<seq<Fragment>>, live: seq<nat>, st: D.State, mail: seq<Mail>) {
    && |held| == |live|
    && forall j :: 0 <= j < |live| ==> live[j] < |mail| && held[j] == Pick(mail[live[j]].fs, D.Got(st, live[j]))
  }

  /** The queue stands for this state of delivery. */
  ghost predicate StandsMid(q: M.Queue, st: D.State, mail: seq<Mail>) {
    q.numbers == st.live && q.next == st.next && HoldsMid(q.held, st.live, st, mail)
  }

  lemma {:induction false} GotAfter(mail: seq<Mail>, st: D.State, k: nat, i: nat)
    requires k < |mail| && i < |mail[k].fs| && k >= st.next
    ensures var st' := D.Step(Sizes(mail), st, D.Arrive(k, i));
            forall l: nat :: D.Got(st', l) == if l == k then D.Got(st, k) + {i} else D.Got(st, l)
  {
  }

  lemma {:induction false} PlaceBetween(live: seq<nat>, k: nat, p: nat)
    requires Ascending(live) && k !in live && p <= |live| && M.Between(live, p, k)
    ensures p == D.Place(live, k)
  {
    if live != [] {
      var n := |live| - 1;
      if p <= n { PlaceBetween(live[..n], k, p); }
    }
  }

  /** A chunk that arrives, in whatever order and among chunks of whatever other messages,
      is an arrival by number; the answer is whether its message is now whole. */
  lemma {:induction false} PushRefinesMid(q: M.Queue, st: D.State, mail: seq<Mail>, k: nat, i: nat,
                                          q': M.Queue, complete: bool, p: nat)
    requires AllPostedMid(mail) && D.Inv(Sizes(mail), st) && StandsMid(q, st, mail)
    requires k < |mail| && i < |mail[k].fs| && (k >= st.next ==> i !in D.Got(st, k))
    requires M.Pushes(q, k, mail[k].fs[i], q', complete, p)
    ensures var st' := D.Step(Sizes(mail), st, D.Arrive(k, i));
            StandsMid(q', st', mail) && (complete <==> k >= st.next && D.Full(Sizes(mail), st', k))
  {
    hide AllPostedMid, D.Inv, Pick, Insert, Complete, M.Takes, Whole, Ascending, D.Insert, D.Place, M.Between, D.Got, All,
      HoldsMid, D.Full;
    if k >= st.next {
      LiveFacts(mail, st, k);
      TakesOne(mail[k].fs, D.Got(st, k), i);
      FullAfter(mail, st, k, i);
      if k in st.live {
        HeldAt(q, st, mail, p, k);
        MoreMid(q, st, mail, k, i, p);
      } else {
        PlaceBetween(st.live, k, p);
        D.InsertIsPlace(st.live, k);
        FirstMid(mail[k].fs, i);
        NewMid(q, st, mail, k, i, p);
      }
    }
  }

  lemma {:induction false} LiveFacts(mail: seq<Mail>, st: D.State, k: nat)
    requires AllPostedMid(mail) && D.Inv(Sizes(mail), st) && k < |mail| && k >= st.next
    ensures Whole(mail[k].fs, 0, true)
    ensures Ascending(st.live) && (k !in st.live ==> D.Got(st, k) == {})
  {
    assert PostedMid(mail[k], k);
    PostedMidWhole(mail[k], k);
  }

  lemma {:induction false} FullAfter(mail: seq<Mail>, st: D.State, k: nat, i: nat)
    requires k < |mail| && i < |mail[k].fs| && k >= st.next
    ensures D.Full(Sizes(mail), D.Step(Sizes(mail), st, D.Arrive(k, i)), k) <==> All(D.Got(st, k) + {i}, |mail[k].fs|)
  {
    GotAfter(mail, st, k, i);
  }

  lemma {:induction false} HeldAt(q: M.Queue, st: D.State, mail: seq<Mail>, p: nat, k: nat)
    requires HoldsMid(q.held, st.live, st, mail) && p < |st.live| && st.live[p] == k
    ensures p < |q.held| && k < |mail| && q.held[p] == Pick(mail[k].fs, D.Got(st, k))
  {
  }

  lemma {:induction false} FirstMid(fs: seq<Fragment>, i: nat)
    requires i < |fs| && Insert(Pick(fs, {}), fs[i], true) == Pick(fs, {} + {i})
    ensures Pick(fs, {} + {i}) == [fs[i]]
  {
    PickNothing(fs);
  }

  lemma {:induction false} MoreMid(q: M.Queue, st: D.State, mail: seq<Mail>, k: nat, i: nat, p: nat)
    requires D.Inv(Sizes(mail), st) && HoldsMid(q.held, st.live, st, mail) && k >= st.next && k < |mail| && i < |mail[k].fs|
    requires p < |st.live| && st.live[p] == k
    ensures var st' := D.Step(Sizes(mail), st, D.Arrive(k, i));
            HoldsMid(q.held[p := Pick(mail[k].fs, D.Got(st, k) + {i})], st'.live, st', mail)
  {
    hide D.Inv, Pick;
    GotAfter(mail, st, k, i);
    forall j | 0 <= j < |st.live| && st.live[j] == k ensures j == p { LiveOnce(st, mail, j, p); }
  }

  lemma {:induction false} NewMid(q: M.Queue, st: D.State, mail: seq<Mail>, k: nat, i: nat, p: nat)
    requires HoldsMid(q.held, st.live, st, mail) && k >= st.next && k < |mail| && i < |mail[k].fs|
    requires k !in st.live && p <= |st.live| && D.Insert(st.live, k) == st.live[..p] + [k] + st.live[p..]
    ensures var st' := D.Step(Sizes(mail), st, D.Arrive(k, i));
            HoldsMid(q.held[..p] + [Pick(mail[k].fs, D.Got(st, k) + {i})] + q.held[p..], st'.live, st', mail)
  {
    hide Pick, D.Insert;
    GotAfter(mail, st, k, i);
  }

  lemma {:induction false} HeldReads(mail: seq<Mail>, st: D.State, k: nat)
    requires AllPostedMid(mail) && k < |mail|
    ensures var cs := Pick(mail[k].fs, D.Got(st, k));
            && (Complete(cs, true) <==> D.Full(Sizes(mail), st, k))
            && (D.Full(Sizes(mail), st, k) ==> Joined(cs) == mail[k].raw && forall ppi :: M.PpiOk(cs, ppi) ==> ppi == mail[k].ppi)
  {
    assert PostedMid(mail[k], k);
    hide AllPostedMid, PostedMid, Pick, Complete, Whole, M.PpiOk;
    PostedMidWhole(mail[k], k);
    M.WholeFirst(mail[k].fs);
    CompleteIff(mail[k].fs, D.Got(st, k), 0, true);
  }

  /** A read is a delivery by number: what comes out is the message, byte for byte, and the
      only payload type its set can have is the message's. */
  lemma {:induction false} ReadRefinesMid(q: M.Queue, st: D.State, mail: seq<Mail>)
    requires AllPostedMid(mail) && StandsMid(q, st, mail)
    ensures M.Deliverable(q) <==> D.CanDeliver(Sizes(mail), st)
    ensures M.Deliverable(q) ==>
              && st.live[0] < |mail| && Joined(q.held[0]) == mail[st.live[0]].raw
              && (forall ppi :: M.PpiOk(q.held[0], ppi) ==> ppi == mail[st.live[0]].ppi)
              && StandsMid(M.Delivered(q), D.Step(Sizes(mail), st, D.Deliver), mail)
  {
    hide AllPostedMid, Pick, Complete, D.Full, Joined, M.PpiOk;
    if st.live != [] {
      HeldReads(mail, st, st.live[0]);
      if D.CanDeliver(Sizes(mail), st) { RestMid(q.held, st, mail); }
    }
  }

  lemma {:induction false} RestMid(held: seq<seq<Fragment>>, st: D.State, mail: seq<Mail>)
    requires HoldsMid(held, st.live, st, mail) && D.CanDeliver(Sizes(mail), st)
    ensures var st' := D.Step(Sizes(mail), st, D.Deliver); held != [] && HoldsMid(held[1..], st'.live, st', mail)
  {
    hide Pick;
    D.SameFull(Sizes(mail), st, D.Step(Sizes(mail), st, D.Deliver));
  }

  lemma {:induction false} KeptMid(live: seq<nat>, held: seq<seq<Fragment>>, st: D.State, mail: seq<Mail>, m: nat)
    requires AllPostedMid(mail) && HoldsMid(held, live, st, mail)
    ensures var kept := M.Kept(live, held, m);
            kept.0 == D.Kept(Sizes(mail), st, live, m) && HoldsMid(kept.1, D.Kept(Sizes(mail), st, live, m), st, mail)
    decreases |live|
  {
    hide AllPostedMid, Pick, Complete, D.Full;
    if live != [] {
      var n := |live| - 1;
      KeptMid(live[..n], held[..n], st, mail, m);
      HeldReads(mail, st, live[n]);
    }
  }

  /** An I-FORWARD-TSN up to message m gives up everything up to m that is not whole. */
  lemma {:induction false} ForwardRefinesMid(q: M.Queue, st: D.State, mail: seq<Mail>, m: nat)
    requires AllPostedMid(mail) && StandsMid(q, st, mail)
    ensures StandsMid(M.Forwarded(q, m), D.Step(Sizes(mail), st, D.Skip(m)), mail)
  {
    hide AllPostedMid, Pick, Complete, D.Full, D.Kept, M.Kept;
    KeptMid(st.live, q.held, st, mail, m);
    D.SameFull(Sizes(mail), st, D.Step(Sizes(mail), st, D.Skip(m)));
  }

  // -------------------------------------------------------------- whole runs

  /** What the peer sent; ordered and unordered messages are numbered apart. */
  ghost predicate Honest(p: Peer) { p.interleaving && AllPostedMid(p.mail) && AllPostedMid(p.loose) }

  /** The queue, both halves. */
  datatype Queue = Queue(o: M.Queue, u: M.Pool)

  const EMPTY := Queue(M.Queue([], [], 0), M.Pool(map[], []))

  /** What the queue does, short of its entry limit. */
  ghost predicate Handles(p: Peer, q: Queue, ev: Event, q': Queue, out: seq<(seq<byte>, uint32)>) {
    && |q.o.numbers| == |q.o.held|
    && match ev
       case Chunk(k, i) =>
         && k < |p.mail| && i < |p.mail[k].fs| && out == [] && q'.u == q.u
         && exists complete, at: nat :: M.Pushes(q.o, k, p.mail[k].fs[i], q'.o, complete, at)
       case LooseChunk(k, i) =>
         && k < |p.loose| && i < |p.loose[k].fs| && out == [] && !M.LimitHit(q.u, p.loose[k].fs[i])
         && q' == q.(u := M.PushTo(q.u, p.loose[k].fs[i]).0)
       case Read =>
         if q.u.ready != [] then
           q' == q.(u := q.u.(ready := q.u.ready[1..])) && out == [(Joined(q.u.ready[0].chunks), q.u.ready[0].ppi)]
         else if M.Deliverable(q.o) then
           q' == q.(o := M.Delivered(q.o)) && |out| == 1 && out[0].0 == Joined(q.o.held[0]) && M.PpiOk(q.o.held[0], out[0].1)
         else q' == q && out == []
       case GiveUp(n) => q' == q.(o := M.Forwarded(q.o, n)) && out == []
       case GiveUpLoose(n) => q' == q.(u := q.u.(open := M.OpenAfter(q.u.open, Wire(n)))) && out == []
  }

  /** Whatever happens, short of the entry limit, the queue does something. */
  lemma {:induction false} Progress(p: Peer, q: Queue, ev: Event) returns (q': Queue, out: seq<(seq<byte>, uint32)>)
    requires |q.o.numbers| == |q.o.held| && Ascending(q.o.numbers)
    requires ev.Chunk? ==> ev.k < |p.mail| && ev.i < |p.mail[ev.k].fs|
    requires ev.LooseChunk? ==> ev.k < |p.loose| && ev.i < |p.loose[ev.k].fs| && !M.LimitHit(q.u, p.loose[ev.k].fs[ev.i])
    ensures Handles(p, q, ev, q', out)
  {
    hide M.PushTo, M.LimitHit, Joined, Complete, Wire, M.Kept;
    q', out := q, [];
    match ev {
      case Chunk(k, i) => var o := Taken(q.o, k, p.mail[k].fs[i]); q' := q.(o := o);
      case LooseChunk(k, i) => q' := q.(u := M.PushTo(q.u, p.loose[k].fs[i]).0);
      case Read =>
        if q.u.ready != [] {
          q', out := q.(u := q.u.(ready := q.u.ready[1..])), [(Joined(q.u.ready[0].chunks), q.u.ready[0].ppi)];
        } else if M.Deliverable(q.o) {
          var ppi := SomePpi(q.o.held[0]);
          q', out := q.(o := M.Delivered(q.o)), [(Joined(q.o.held[0]), ppi)];
        }
      case GiveUp(n) => q' := q.(o := M.Forwarded(q.o, n));
      case GiveUpLoose(n) => q' := q.(u := q.u.(open := M.OpenAfter(q.u.open, Wire(n))));
    }
  }

  lemma {:induction false} SomePpi(cs: seq<Fragment>) returns (ppi: uint32)
    ensures M.PpiOk(cs, ppi)
  {
    ppi := 0;
    if x :| M.OnlyFirst(cs, x) { ppi := x.ppi; }
  }

  lemma {:induction false} Taken(o: M.Queue, k: nat, c: Fragment) returns (o': M.Queue)
    requires |o.numbers| == |o.held| && Ascending(o.numbers)
    ensures exists complete, at: nat :: M.Pushes(o, k, c, o', complete, at)
  {
    hide M.Takes, Complete, Insert;
    if k < o.next {
      o' := o;
      assert M.Pushes(o, k, c, o', false, 0);
    } else if k in o.numbers {
      var at: nat :| at < |o.numbers| && o.numbers[at] == k;
      o' := if M.Takes(o.held[at], c) then o.(held := o.held[at := Insert(o.held[at], c, true)]) else o;
      assert M.Pushes(o, k, c, o', M.Takes(o.held[at], c) && Complete(Insert(o.held[at], c, true), true), at);
    } else {
      var at: nat := 0;
      while at < |o.numbers| && o.numbers[at] < k
        invariant at <= |o.numbers| && forall i :: 0 <= i < at ==> o.numbers[i] < k
      {
        at := at + 1;
      }
      o' := o.(numbers := o.numbers[..at] + [k] + o.numbers[at..], held := o.held[..at] + [[c]] + o.held[at..]);
      assert M.Pushes(o, k, c, o', Complete([c], true), at);
    }
  }

  ghost predicate Refines(p: Peer, m: Model, q: Queue) { StandsMid(q.o, m.o, p.mail) && StandsFor(q.u, m.u, p.loose) }

  /** In a fair run whatever the queue compares is less than half the identifier space apart,
      so that the wire values decide as the numbers do: the condition under which the queue's
      methods are proved to do what `Handles` says. */
  lemma {:induction false} NumbersNear(p: Peer, m: Model, q: Queue, x: nat)
    requires Honest(p) && Refines(p, m, q) && CloseTo(p, m.o, x)
    ensures Near(x, q.o.next) && M.AllNear(q.o.numbers, x)
  {
    hide StandsFor, HoldsMid;
    forall j | 0 <= j < |q.o.numbers| ensures Near(q.o.numbers[j], x) { assert Close(p, m.o.live[j], x); }
  }

  lemma {:induction false} ReadLoose(p: Peer, m: Model, q: Queue)
    requires Honest(p) && ModelOk(p, m) && Refines(p, m, q) && q.u.ready != []
    ensures m.u.read < |m.u.done| && Refines(p, Next(p, m, Read), q.(u := q.u.(ready := q.u.ready[1..])))
    ensures SameOut(p, m, Next(p, m, Read), [(Joined(q.u.ready[0].chunks), q.u.ready[0].ppi)])
  {
    hide AllPostedMid, D.Inv, StandsMid, StandsFor, Joined, LooseOk, D.CanDeliver, D.Step, Turns;
    ReadyLeft(q.u, m.u, p.loose);
    ReadRefinesPool(q.u, m.u, p.loose);
  }

  lemma {:induction false} ReadyLeft(pool: M.Pool, u: Loose, loose: seq<Mail>)
    requires StandsFor(pool, u, loose)
    ensures u.read <= |u.done| && |pool.ready| == |u.done| - u.read
  {
  }

  lemma {:induction false} ReadInTurn(p: Peer, m: Model, q: Queue)
    requires Honest(p) && ModelOk(p, m) && Refines(p, m, q) && q.u.ready == []
    ensures m.u.read == |m.u.done| && (M.Deliverable(q.o) <==> D.CanDeliver(Sizes(p.mail), m.o))
    ensures M.Deliverable(q.o) ==>
              && Refines(p, Next(p, m, Read), q.(o := M.Delivered(q.o)))
              && forall ppi :: M.PpiOk(q.o.held[0], ppi) ==> SameOut(p, m, Next(p, m, Read), [(Joined(q.o.held[0]), ppi)])
  {
    hide AllPostedMid, D.Inv, StandsOpen, M.PoolOk, LooseOk, Joined, D.Full, Complete, M.PpiOk, HoldsMid, Turns;
    ReadRefinesMid(q.o, m.o, p.mail);
  }

  /** One event: the queue goes on standing for the model, and delivers what the model
      delivers. */
  lemma {:induction false} StepRefines(p: Peer, m: Model, q: Queue, ev: Event, q': Queue, out: seq<(seq<byte>, uint32)>)
    requires Honest(p) && ModelOk(p, m) && Refines(p, m, q) && Fair(p, m, ev) && Handles(p, q, ev, q', out)
    ensures Refines(p, Next(p, m, ev), q') && SameOut(p, m, Next(p, m, ev), out)
  {
    hide AllPostedMid, D.Inv, StandsMid, StandsFor, LooseOk, Joined, M.PpiOk, M.Pushes, M.PushTo, M.LimitHit, D.Full, Complete,
      LooseNear, DropNear, CloseTo, Had, Arrive, Drop, D.Step, M.Forwarded, Turns, Contents, Wire;
    match ev {
      case Chunk(k, i) =>
        var complete, at: nat :| M.Pushes(q.o, k, p.mail[k].fs[i], q'.o, complete, at);
        PushRefinesMid(q.o, m.o, p.mail, k, i, q'.o, complete, at);
      case LooseChunk(k, i) =>
        PushRefinesPool(q.u, m.u, p, k, i);
      case Read =>
        if q.u.ready != [] {
          ReadLoose(p, m, q);
        } else {
          ReadInTurn(p, m, q);
          if M.Deliverable(q.o) { assert out == [(Joined(q.o.held[0]), out[0].1)]; }
        }
      case GiveUp(n) => ForwardRefinesMid(q.o, m.o, p.mail, n);
      case GiveUpLoose(n) => DropRefinesPool(q.u, m.u, p, n);
    }
  }

  /** A run of the queue from empty: these events leave it at q, with this read from it. */
  ghost predicate QueueRun(p: Peer, evs: seq<Event>, q: Queue, out: seq<(seq<byte>, uint32)>)
    decreases |evs|
  {
    if evs == [] then q == EMPTY && out == []
    else exists q0, o0, o :: RunStep(p, evs, q0, o0, q, o) && out == o0 + o
  }

  ghost predicate RunStep(p: Peer, evs: seq<Event>, q0: Queue, o0: seq<(seq<byte>, uint32)>, q: Queue, o: seq<(seq<byte>, uint32)>)
    requires evs != []
    decreases |evs|, 0
  {
    QueueRun(p, evs[..|evs| - 1], q0, o0) && Handles(p, q0, evs[|evs| - 1], q, o)
  }

  lemma {:induction false} HonestSane(p: Peer)
    requires Honest(p)
    ensures Sane(p)
  {
    forall k | 0 <= k < |p.mail| ensures p.mail[k].fs != [] { assert PostedMid(p.mail[k], k); }
    forall k | 0 <= k < |p.loose| ensures p.loose[k].fs != [] { assert PostedMid(p.loose[k], k); }
  }

  lemma {:induction false} StartRefines(p: Peer)
    requires Honest(p)
    ensures ModelOk(p, START) && Refines(p, START, EMPTY)
  {
    HonestSane(p);
    StartOk(p);
    hide AllPostedMid, ModelOk;
  }

  /** Every run: the queue stands for the model, and what was read is what the model says. */
  lemma {:induction false} RunRefines(p: Peer, evs: seq<Event>, q: Queue, out: seq<(seq<byte>, uint32)>)
    requires Honest(p) && FairRun(p, evs) && QueueRun(p, evs, q, out)
    ensures var m := After(p, evs); ModelOk(p, m) && Refines(p, m, q) && ReadsAs(p, m, out)
    decreases |evs|
  {
    hide ModelOk, Refines, Honest, Next, Handles, ReadsAs, SameOut, CloseTo, LooseNear, DropNear, Eligible;
    if evs == [] {
      StartRefines(p);
      NothingRead(p);
    } else {
      var n := |evs| - 1;
      var q0, o0, o :| RunStep(p, evs, q0, o0, q, o) && out == o0 + o;
      RunRefines(p, evs[..n], q0, o0);
      var m := After(p, evs[..n]);
      StepRefines(p, m, q0, evs[n], q, o);
      StepOk(p, m, evs[n]);
      ReadMore(p, m, Next(p, m, evs[n]), o0, o);
    }
  }

  /** The round trip with interleaving: whatever the order in which chunks of whatever
      messages arrive, what is read are messages that were sent, byte for byte and with
      their payload types. Ordered ones are read in the order in which they were sent;
      every one is read once, and only when all its fragments have come. */
  lemma {:induction false} RoundTripMid(p: Peer, evs: seq<Event>, q: Queue, out: seq<(seq<byte>, uint32)>)
    requires Honest(p) && FairRun(p, evs) && QueueRun(p, evs, q, out)
    ensures var m := After(p, evs);
            && |out| == |m.log| && (forall j :: 0 <= j < |out| ==> out[j] == Contents(p, m.log[j]))
            && Ascending(Turns(m.log, true))
            && (forall k :: k in Turns(m.log, true) ==> D.Full(Sizes(p.mail), m.o, k))
            && (forall i, j :: 0 <= i < j < |Turns(m.log, false)| ==> Turns(m.log, false)[i] != Turns(m.log, false)[j])
            && (forall k :: k in Turns(m.log, false) ==> k < |p.loose| && All(Had(m.u.seen, k), |p.loose[k].fs|))
  {
    hide ModelOk, Refines, Honest, FairRun, QueueRun, Turns, D.Full, All, Had, Contents;
    RunRefines(p, evs, q, out);
    Orderly(p, After(p, evs));
  }

  /** On a reliable stream the ordered messages read are exactly the first ones sent, in
      order; and when there is nothing to read, the next one is still incomplete and every
      unordered message that came in full has been read. */
  lemma {:induction false} ReliableMid(p: Peer, evs: seq<Event>, q: Queue, out: seq<(seq<byte>, uint32)>)
    requires Honest(p) && FairRun(p, evs) && QueueRun(p, evs, q, out) && KeepsAll(evs)
    ensures var m := After(p, evs);
            forall j :: 0 <= j < |Turns(m.log, true)| ==> Turns(m.log, true)[j] == j
    ensures var m := After(p, evs);
            q.u.ready == [] && !M.Deliverable(q.o) ==>
              && !D.Full(Sizes(p.mail), m.o, |Turns(m.log, true)|)
              && forall k :: 0 <= k < |p.loose| && All(Had(m.u.seen, k), |p.loose[k].fs|) ==> k in Turns(m.log, false)
  {
    hide ModelOk, Refines, Honest, FairRun, QueueRun, Turns, D.Full, All, Had, KeepsAll, Sane, After, M.Deliverable;
    RunRefines(p, evs, q, out);
    HonestSane(p);
    ReliableModel(p, evs);
    var m := After(p, evs);
    if q.u.ready == [] && !M.Deliverable(q.o) { ReadInTurn(p, m, q); }
  }
}
