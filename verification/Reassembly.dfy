/** What a reassembly queue without interleaving delivers, over whole runs: by message number
    it is in-order delivery for ordered chunks and delivery of whole messages for unordered
    ones. */
module Reassembly {
  import opened Options
  import opened Serial
  import opened Sets
  import opened Fragments
  import opened ChunkSets
  import opened Unordered
  import opened DataQueue
  import opened Mailing
  import opened Exchange
  import opened LinePool
  import D = Delivery

  // ------------------------------------------------------------- what was sent

  /** Message k as the peer sends it: what packetize makes of it, under consecutive TSNs and
      with the SSN k modulo 2^16. */
  ghost predicate Posted(m: Mail, k: nat) {
    && Message(m.fs, m.raw, m.ppi) && m.raw != [] && |m.fs| < HALF32 && m.fs[0].ssn == Wire16(k)
    && forall i :: 0 <= i < |m.fs| ==> m.fs[i].tsn == Add(m.fs[0].tsn, i)
  }

  lemma {:induction false} PacketizedIsInTurn(cut: seq<Fragment>, fs: seq<Fragment>, raw: seq<byte>, ppi: uint32, base: uint32, k: nat)
    requires Message(cut, raw, ppi) && raw != [] && cut != [] && |fs| == |cut| < HALF32 && cut[0].ssn == Wire16(k)
    requires forall i :: 0 <= i < |fs| ==> fs[i] == cut[i].(tsn := Add(base, i))
    ensures Posted(Mail(fs, raw, ppi), k)
  {
    hide Message;
    TsnsGiven(cut, fs, raw, ppi);
  }

  ghost predicate AllPosted(mail: seq<Mail>) { forall k :: 0 <= k < |mail| ==> Posted(mail[k], k) }

  lemma {:induction false} PostedWhole(m: Mail, k: nat)
    requires Posted(m, k)
    ensures Whole(m.fs, m.fs[0].tsn, false) && Joined(m.fs) == m.raw
  {
    MessageIsWhole(m.fs, m.raw, m.ppi, m.fs[0].tsn);
  }

  lemma {:induction false} PostedFragment(m: Mail, k: nat, i: nat)
    requires Posted(m, k) && i < |m.fs|
    ensures m.fs[i].ssn == Wire16(k) && m.fs[i].ppi == m.ppi && (|m.fs| > 1 ==> Fragmented(m.fs[i]))
  {
    assert Piece(m.fs, i, m.ppi);
  }

  // ---------------------------------------------------------- the ordered half

  /** The set of message k: the fragments of it that came, in order. */
  function SetOf(mail: seq<Mail>, st: D.State, k: nat): ChunkSet
    requires k < |mail|
  {
    ChunkSet(Wire16(k), mail[k].ppi, Pick(mail[k].fs, D.Got(st, k)))
  }

  ghost predicate Holds(sets: seq<ChunkSet>, live: seq<nat>, st: D.State, mail: seq<Mail>) {
    && |sets| == |live|
    && forall j :: 0 <= j < |live| ==> live[j] < |mail| && sets[j] == SetOf(mail, st, live[j])
  }

  /** The queue's ordered half stands for this state of delivery. */
  ghost predicate Stands(q: Queue, st: D.State, mail: seq<Mail>) {
    q.nextSSN == Wire16(st.next) && Holds(q.ordered, st.live, st, mail)
  }

  /** Message x is less than half the SSN space from everything the queue knows of. */
  ghost predicate CloseSsn(st: D.State, x: nat) {
    Near16(st.next, x) && forall j :: 0 <= j < |st.live| ==> Near16(st.live[j], x)
  }

  lemma {:induction false} PickOne(fs: seq<Fragment>, base: uint32, d: set<nat>, i: nat)
    requires Whole(fs, base, false) && i < |fs| && i !in d
    ensures Insert(Pick(fs, d), fs[i], false) == Pick(fs, d + {i}) && !HasTsn(Pick(fs, d), fs[i].tsn)
    ensures Complete(Pick(fs, d + {i}), false) <==> All(d + {i}, |fs|)
  {
    hide Insert, Complete, Whole, Pick, HasTsn, Comes;
    WholeComes(fs, base, d, i, false);
    InsertPick(fs, d, i, false);
    CompleteIff(fs, d + {i}, base, false);
    PickNew(fs, base, d, i);
  }

  lemma {:induction false} PickNew(fs: seq<Fragment>, base: uint32, d: set<nat>, i: nat)
    requires Whole(fs, base, false) && i < |fs| && i !in d
    ensures !HasTsn(Pick(fs, d), fs[i].tsn)
  {
    hide Places;
    var p := Places(d, |fs|);
    forall j | 0 <= j < |p| ensures Pick(fs, d)[j].tsn != fs[i].tsn {
      assert Key(fs[p[j]], false) == Add(base, p[j]) && Key(fs[i], false) == Add(base, i);
    }
  }

  lemma {:induction false} PickSome(fs: seq<Fragment>, d: set<nat>, i: nat)
    requires i in d && i < |fs|
    ensures Pick(fs, d) != [] && Pick(fs, d)[0] in fs
  {
    PlacesSome(d, |fs|, i);
    var p := Places(d, |fs|);
    assert Pick(fs, d)[0] == fs[p[0]];
  }

  lemma {:induction false} PlacesSome(d: set<nat>, k: nat, i: nat)
    requires i in d && i < k
    ensures Places(d, k) != []
    decreases k
  {
    if i < k - 1 { PlacesSome(d, k - 1, i); }
  }

  /** A chunk of message k finds the set of message k. */
  lemma {:induction false} FindLive(sets: seq<ChunkSet>, st: D.State, mail: seq<Mail>, k: nat, i: nat, p: nat)
    requires AllPosted(mail) && D.Inv(Sizes(mail), st) && Holds(sets, st.live, st, mail) && CloseSsn(st, k)
    requires p < |st.live| && st.live[p] == k && i < |mail[k].fs| && i !in D.Got(st, k)
    ensures Find(sets, mail[k].fs[i], 0) == p
  {
    var c := mail[k].fs[i];
    assert k in st.live;
    assert D.Got(st, k) != {};
    var o :| o in D.Got(st, k);
    assert o < Sizes(mail)[k] && o != i;
    assert Posted(mail[k], k);
    hide D.Inv, Posted, AllPosted, Find, Pick, Wire16, Near16, Fragmented;
    PostedFragment(mail[k], k, i);
    PickSome(mail[k].fs, D.Got(st, k), o);
    var first := sets[p].chunks[0];
    var f :| 0 <= f < |mail[k].fs| && mail[k].fs[f] == first;
    PostedFragment(mail[k], k, f);
    assert Matches(sets[p], c);
    forall j | 0 <= j < |sets| && Matches(sets[j], c) ensures j == p {
      Wire16Order(st.live[j], k);
      LiveOnce(st, mail, j, p);
    }
  }

  /** A chunk of a message that nothing has come of finds no set. */
  lemma {:induction false} FindNone(sets: seq<ChunkSet>, st: D.State, mail: seq<Mail>, k: nat, c: Fragment)
    requires Holds(sets, st.live, st, mail) && CloseSsn(st, k) && k !in st.live && c.ssn == Wire16(k)
    ensures Find(sets, c, 0) == |sets|
  {
    hide Wire16, Pick, Near16, Find, Fragmented;
    forall j | 0 <= j < |sets| ensures !Matches(sets[j], c) { Wire16Order(st.live[j], k); }
  }

  /** The serial place of a new set is its place by number. */
  lemma {:induction false} PlaceSame(sets: seq<ChunkSet>, live: seq<nat>, k: nat)
    requires |sets| == |live| && forall j :: 0 <= j < |live| ==> sets[j].ssn == Wire16(live[j]) && Near16(live[j], k)
    ensures InsertAt(sets, Wire16(k)) == D.Place(live, k)
  {
    hide Wire16, Near16;
    if sets != [] {
      var n := |sets| - 1;
      Wire16Order(k, live[n]) by { assert Near16(live[n], k); Near16Sym(live[n], k); }
      if k < live[n] { PlaceSame(sets[..n], live[..n], k); }
    }
  }

  lemma {:induction false} Near16Sym(a: int, b: int)
    ensures Near16(a, b) <==> Near16(b, a)
  {
  }

  lemma {:induction false} SetOfOther(mail: seq<Mail>, st: D.State, k: nat, i: nat, l: nat)
    requires l < |mail| && k < |mail| && i < |mail[k].fs| && k >= st.next
    ensures var st' := D.Step(Sizes(mail), st, D.Arrive(k, i));
            SetOf(mail, st', l) == if l == k then SetOf(mail, st, k).(chunks := Pick(mail[k].fs, D.Got(st, k) + {i}))
                                   else SetOf(mail, st, l)
  {
    var st' := D.Step(Sizes(mail), st, D.Arrive(k, i));
    assert D.Got(st', l) == if l == k then D.Got(st, k) + {i} else D.Got(st, l);
  }

  /** More of a message that is held. */
  lemma {:induction false} PushMore(sets: seq<ChunkSet>, st: D.State, mail: seq<Mail>, k: nat, i: nat, p: nat)
    requires AllPosted(mail) && D.Inv(Sizes(mail), st) && Holds(sets, st.live, st, mail) && CloseSsn(st, k)
    requires p < |st.live| && st.live[p] == k && k >= st.next && i < |mail[k].fs| && i !in D.Got(st, k)
    ensures var r, d := PushSets(sets, mail[k].fs[i]), D.Got(st, k) + {i};
            && r.0 == sets[p := sets[p].(chunks := Pick(mail[k].fs, d))]
            && (r.1 <==> All(d, |mail[k].fs|))
  {
    assert Posted(mail[k], k);
    hide D.Inv, AllPosted, Posted, Pick, Insert, Complete, HasTsn, Find, CloseSsn, Whole, All;
    FindLive(sets, st, mail, k, i, p);
    PostedWhole(mail[k], k);
    PickOne(mail[k].fs, mail[k].fs[0].tsn, D.Got(st, k), i);
  }

  lemma {:induction false} PushNew(sets: seq<ChunkSet>, c: Fragment)
    requires Find(sets, c, 0) == |sets|
    ensures var p := InsertAt(sets, c.ssn);
            && PushSets(sets, c).0 == sets[..p] + [ChunkSet(c.ssn, c.ppi, Insert([], c, false))] + sets[p..]
            && PushSets(sets, c).1 == Complete(Insert([], c, false), false)
  {
    hide Find, InsertAt, Insert, Complete;
    var p, empty := InsertAt(sets, c.ssn), ChunkSet(c.ssn, c.ppi, []);
    var more := sets[..p] + [empty] + sets[p..];
    assert more[p] == empty;
    assert more[p := ChunkSet(c.ssn, c.ppi, Insert([], c, false))] == sets[..p] + [ChunkSet(c.ssn, c.ppi, Insert([], c, false))] + sets[p..];
  }

  /** The first of a message. */
  lemma {:induction false} PushFirst(sets: seq<ChunkSet>, st: D.State, mail: seq<Mail>, k: nat, i: nat)
    requires AllPosted(mail) && Holds(sets, st.live, st, mail) && CloseSsn(st, k)
    requires k !in st.live && k < |mail| && i < |mail[k].fs|
    ensures var r, p := PushSets(sets, mail[k].fs[i]), D.Place(st.live, k);
            && p <= |sets| && r.0 == sets[..p] + [ChunkSet(Wire16(k), mail[k].ppi, Pick(mail[k].fs, {} + {i}))] + sets[p..]
            && (r.1 <==> All({} + {i}, |mail[k].fs|))
  {
    assert Posted(mail[k], k);
    hide AllPosted, Posted, Pick, Insert, Complete, PushSets, Find, Whole, Wire16, Near16, InsertAt, All;
    PostedFragment(mail[k], k, i);
    FindNone(sets, st, mail, k, mail[k].fs[i]);
    PlaceSame(sets, st.live, k);
    PostedWhole(mail[k], k);
    PickOne(mail[k].fs, mail[k].fs[0].tsn, {}, i);
    PickNothing(mail[k].fs);
    PushNew(sets, mail[k].fs[i]);
  }

  /** An ordered chunk that arrives, in whatever order, is an arrival by number; and the
      answer is whether its message is now whole. */
  lemma {:induction false} PushRefines(q: Queue, st: D.State, mail: seq<Mail>, k: nat, i: nat)
    requires AllPosted(mail) && D.Inv(Sizes(mail), st) && Stands(q, st, mail) && CloseSsn(st, k)
    requires k < |mail| && i < |mail[k].fs| && (k >= st.next ==> i !in D.Got(st, k))
    ensures var r, st' := PushOrderedTo(q, mail[k].fs[i]), D.Step(Sizes(mail), st, D.Arrive(k, i));
            && Stands(r.0, st', mail) && r.0 == q.(ordered := r.0.ordered)
            && (r.1 <==> k >= st.next && D.Full(Sizes(mail), st', k))
  {
    var st' := D.Step(Sizes(mail), st, D.Arrive(k, i));
    assert Posted(mail[k], k);
    Near16Sym(st.next, k);
    Wire16Order(k, st.next);
    PostedFragment(mail[k], k, i);
    if k >= st.next {
      assert D.Got(st', k) == D.Got(st, k) + {i};
      PushHeld(q.ordered, st, mail, k, i);
    }
  }

  lemma {:induction false} PushHeld(sets: seq<ChunkSet>, st: D.State, mail: seq<Mail>, k: nat, i: nat)
    requires AllPosted(mail) && D.Inv(Sizes(mail), st) && Holds(sets, st.live, st, mail) && CloseSsn(st, k)
    requires k < |mail| && i < |mail[k].fs| && k >= st.next && i !in D.Got(st, k)
    ensures var r, st' := PushSets(sets, mail[k].fs[i]), D.Step(Sizes(mail), st, D.Arrive(k, i));
            Holds(r.0, st'.live, st', mail) && (r.1 <==> All(D.Got(st, k) + {i}, |mail[k].fs|))
  {
    assert k !in st.live ==> D.Got(st, k) == {};
    hide D.Inv, AllPosted, PushSets, CloseSsn, Wire16, D.Place, D.Insert, SetOf, All;
    if k in st.live {
      var p :| 0 <= p < |st.live| && st.live[p] == k;
      PushMore(sets, st, mail, k, i, p);
      HoldsMore(sets, st, mail, k, i, p);
    } else {
      PushFirst(sets, st, mail, k, i);
      D.InsertIsPlace(st.live, k);
      HoldsNew(sets, st, mail, k, i, D.Place(st.live, k));
    }
  }

  lemma {:induction false} HoldsMore(sets: seq<ChunkSet>, st: D.State, mail: seq<Mail>, k: nat, i: nat, p: nat)
    requires D.Inv(Sizes(mail), st) && Holds(sets, st.live, st, mail)
    requires k < |mail| && i < |mail[k].fs| && k >= st.next && p < |st.live| && st.live[p] == k
    ensures var st' := D.Step(Sizes(mail), st, D.Arrive(k, i));
            Holds(sets[p := sets[p].(chunks := Pick(mail[k].fs, D.Got(st, k) + {i}))], st'.live, st', mail)
  {
    hide D.Inv, Pick;
    forall j | 0 <= j < |st.live| ensures st.live[j] == k ==> j == p {
      if st.live[j] == k { LiveOnce(st, mail, j, p); }
      SetOfOther(mail, st, k, i, st.live[j]);
    }
  }

  lemma {:induction false} HoldsNew(sets: seq<ChunkSet>, st: D.State, mail: seq<Mail>, k: nat, i: nat, p: nat)
    requires Holds(sets, st.live, st, mail) && k !in st.live && p <= |st.live|
    requires k < |mail| && i < |mail[k].fs| && k >= st.next
    requires D.Insert(st.live, k) == st.live[..p] + [k] + st.live[p..]
    ensures var st' := D.Step(Sizes(mail), st, D.Arrive(k, i));
            Holds(sets[..p] + [ChunkSet(Wire16(k), mail[k].ppi, Pick(mail[k].fs, D.Got(st, k) + {i}))] + sets[p..], st'.live, st', mail)
  {
    hide D.Insert, Pick, Wire16;
    forall j | 0 <= j < |st.live| ensures st.live[j] != k {
      SetOfOther(mail, st, k, i, st.live[j]);
    }
    SetOfOther(mail, st, k, i, k);
  }

  /** A set is complete exactly if its message is whole, and then it reads as the message. */
  lemma {:induction false} SetReads(mail: seq<Mail>, st: D.State, k: nat)
    requires AllPosted(mail) && k < |mail|
    ensures Complete(SetOf(mail, st, k).chunks, false) <==> D.Full(Sizes(mail), st, k)
    ensures D.Full(Sizes(mail), st, k) ==> Joined(SetOf(mail, st, k).chunks) == mail[k].raw
  {
    assert Posted(mail[k], k);
    hide AllPosted, Posted, Pick, Complete, Whole;
    PostedWhole(mail[k], k);
    CompleteIff(mail[k].fs, D.Got(st, k), mail[k].fs[0].tsn, false);
  }

  lemma {:induction false} NextSsn(k: nat)
    ensures Next16(Wire16(k)) == Wire16(k + 1)
  {
    Wire16Dist(k, k + 1);
  }

  /** Reading from the ordered half is delivering by number: what comes out is the message,
      byte for byte, with its payload type. */
  lemma {:induction false} ReadRefines(q: Queue, st: D.State, mail: seq<Mail>)
    requires AllPosted(mail) && Stands(q, st, mail) && CloseSsn(st, st.next) && q.unordered == []
    ensures Head(q).Some? <==> D.CanDeliver(Sizes(mail), st)
    ensures D.CanDeliver(Sizes(mail), st) ==>
              && st.live[0] < |mail|
              && Joined(Head(q).value.chunks) == mail[st.live[0]].raw && Head(q).value.ppi == mail[st.live[0]].ppi
              && Stands(ReadFrom(q), D.Step(Sizes(mail), st, D.Deliver), mail)
  {
    hide AllPosted, Pick, Complete, D.Full, Wire16, Near16, Lte16, Next16, Joined;
    if st.live != [] {
      var k := st.live[0];
      SetReads(mail, st, k);
      Wire16Order(k, st.next) by { assert Near16(st.live[0], st.next); }
      NextSsn(st.next);
      if D.CanDeliver(Sizes(mail), st) { HoldsRest(q.ordered, st, mail); }
    }
  }

  lemma {:induction false} HoldsRest(sets: seq<ChunkSet>, st: D.State, mail: seq<Mail>)
    requires Holds(sets, st.live, st, mail) && D.CanDeliver(Sizes(mail), st)
    ensures var st' := D.Step(Sizes(mail), st, D.Deliver); sets != [] && Holds(sets[1..], st'.live, st', mail)
  {
    hide Pick;
    var st' := D.Step(Sizes(mail), st, D.Deliver);
    forall j | 0 <= j < |st'.live| ensures SetOf(mail, st', st'.live[j]) == SetOf(mail, st, st.live[j + 1]) {
      assert D.Got(st', st'.live[j]) == D.Got(st, st.live[j + 1]);
    }
  }

  lemma {:induction false} KeptHolds(sets: seq<ChunkSet>, live: seq<nat>, st: D.State, mail: seq<Mail>, m: nat)
    requires AllPosted(mail) && Holds(sets, live, st, mail)
    requires forall j :: 0 <= j < |live| ==> Near16(live[j], m)
    ensures Holds(Kept(sets, Wire16(m)), D.Kept(Sizes(mail), st, live, m), st, mail)
    decreases |live|
  {
    hide AllPosted, Pick, Complete, D.Full, Wire16, Near16, Lte16;
    if live != [] {
      var n := |live| - 1;
      KeptHolds(sets[..n], live[..n], st, mail, m);
      SetReads(mail, st, live[n]);
      Wire16Order(live[n], m);
    }
  }

  /** A FORWARD-TSN up to the SSN of message m gives up, by number, everything up to m that
      is not whole. */
  lemma {:induction false} ForwardRefines(q: Queue, st: D.State, mail: seq<Mail>, m: nat)
    requires AllPosted(mail) && Stands(q, st, mail) && CloseSsn(st, m)
    ensures Stands(ForwardOrdered(q, Wire16(m)), D.Step(Sizes(mail), st, D.Skip(m)), mail)
  {
    hide AllPosted, SetOf, Complete, D.Full, Wire16, Lte16, Next16, Kept, D.Kept;
    KeptHolds(q.ordered, st.live, st, mail, m);
    Wire16Order(st.next, m);
    NextSsn(m);
    var st' := D.Step(Sizes(mail), st, D.Skip(m));
    HoldsSame(Kept(q.ordered, Wire16(m)), st'.live, st, st', mail);
  }

  lemma {:induction false} HoldsSame(sets: seq<ChunkSet>, live: seq<nat>, st: D.State, st': D.State, mail: seq<Mail>)
    requires Holds(sets, live, st, mail) && st'.got == st.got
    ensures Holds(sets, live, st', mail)
  {
    hide Pick;
    forall j | 0 <= j < |live| ensures SetOf(mail, st', live[j]) == SetOf(mail, st, live[j]) {
      assert D.Got(st', live[j]) == D.Got(st, live[j]);
    }
  }

  // -------------------------------------------------------------- whole runs

  /** What the peer sent: ordered messages under the SSNs 0, 1, 2, ..., and unordered ones. */
  ghost predicate Honest(p: Peer) { !p.interleaving && AllPosted(p.mail) && AllLoose(p.loose, p.at) }

  /** What the queue does. */
  ghost predicate Handles(p: Peer, q: Queue, ev: Event, q': Queue, out: seq<(seq<byte>, uint32)>) {
    match ev
    case Chunk(k, i) =>
      k < |p.mail| && i < |p.mail[k].fs| && q' == PushOrderedTo(q, p.mail[k].fs[i]).0 && out == []
    case LooseChunk(k, i) =>
      && k < |p.loose| && i < |p.loose[k].fs| && out == []
      && exists complete, start, n :: PushesUnordered(q, p.loose[k].fs[i], q', complete, start, n)
    case Read =>
      if Head(q).Some? then q' == ReadFrom(q) && out == [(Joined(Head(q).value.chunks), Head(q).value.ppi)]
      else q' == q && out == []
    case GiveUp(n) => q' == ForwardOrdered(q, Wire16(n)) && out == []
    case GiveUpLoose(n) =>
      out == [] && exists k: nat :: Forwarded(q.loose, Wire(n), k) && q' == q.(loose := q.loose[k..])
  }

  /** Whatever happens, the queue does something. */
  lemma {:induction false} Progress(p: Peer, q: Queue, ev: Event) returns (q': Queue, out: seq<(seq<byte>, uint32)>)
    requires ev.Chunk? ==> ev.k < |p.mail| && ev.i < |p.mail[ev.k].fs|
    requires ev.LooseChunk? ==> ev.k < |p.loose| && ev.i < |p.loose[ev.k].fs|
    ensures Handles(p, q, ev, q', out)
  {
    hide Segment, Lte32, Gt32, Wire, Insert, Joined, Complete;
    q', out := q, [];
    match ev {
      case Chunk(k, i) => q' := PushOrderedTo(q, p.mail[k].fs[i]).0;
      case LooseChunk(k, i) => q' := Taken(q, p.loose[k].fs[i]);
      case Read => if Head(q).Some? { q', out := ReadFrom(q), [(Joined(Head(q).value.chunks), Head(q).value.ppi)]; }
      case GiveUp(n) => q' := ForwardOrdered(q, Wire16(n));
      case GiveUpLoose(n) =>
        var k := FirstAfter(q.loose, Wire(n));
        q' := q.(loose := q.loose[k..]);
    }
  }

  lemma {:induction false} Taken(q: Queue, c: Fragment) returns (q': Queue)
    ensures exists complete, start, n :: PushesUnordered(q, c, q', complete, start, n)
  {
    hide Insert;
    var cs := Insert(q.loose, c, false);
    if s: nat, e: nat :| Segment(cs, s, e) {
      var n := e - s;
      q' := q.(unordered := q.unordered + [ChunkSet(0, cs[s].ppi, cs[s..s + n])], loose := cs[..s] + cs[s + n..]);
      assert PushesUnordered(q, c, q', true, s, n);
    } else {
      q' := q.(loose := cs);
      assert PushesUnordered(q, c, q', false, 0, 0);
    }
  }

  lemma {:induction false} FirstAfter(loose: seq<Fragment>, cum: uint32) returns (k: nat)
    ensures Forwarded(loose, cum, k)
  {
    k := 0;
    while k < |loose| && !Gt32(loose[k].tsn, cum)
      invariant k <= |loose| && forall i :: 0 <= i < k ==> Lte32(loose[i].tsn, cum)
    {
      Compare(loose[k].tsn, cum);
      k := k + 1;
    }
  }

  ghost predicate Refines(p: Peer, m: Model, q: Queue) { Stands(q, m.o, p.mail) && StandsLoose(q, m.u, p) }

  lemma {:induction false} CloseIs(p: Peer, st: D.State, x: nat)
    requires Honest(p) && CloseTo(p, st, x)
    ensures CloseSsn(st, x)
  {
    hide Near16;
    forall j | 0 <= j < |st.live| ensures Near16(st.live[j], x) { assert Close(p, st.live[j], x); }
  }

  lemma {:induction false} ReadUnordered(p: Peer, m: Model, q: Queue)
    requires Honest(p) && ModelOk(p, m) && Refines(p, m, q) && q.unordered != []
    ensures Head(q).Some? && m.u.read < |m.u.done|
    ensures Refines(p, Next(p, m, Read), ReadFrom(q))
    ensures SameOut(p, m, Next(p, m, Read), [(Joined(Head(q).value.chunks), Head(q).value.ppi)])
  {
    hide AllPosted, AllLoose, D.Inv, LooseOk, Joined, Holds, StandsLoose, Turns;
    ReadyLeft(q, m.u, p);
    ReadRefinesLine(q, m.u, p);
  }

  lemma {:induction false} ReadyLeft(q: Queue, u: Loose, p: Peer)
    requires StandsLoose(q, u, p)
    ensures u.read <= |u.done| && |q.unordered| == |u.done| - u.read
  {
  }

  lemma {:induction false} ReadOrdered(p: Peer, m: Model, q: Queue)
    requires Honest(p) && ModelOk(p, m) && Refines(p, m, q) && q.unordered == [] && Fair(p, m, Read)
    ensures m.u.read == |m.u.done| && (Head(q).Some? <==> D.CanDeliver(Sizes(p.mail), m.o))
    ensures Head(q).Some? ==> Refines(p, Next(p, m, Read), ReadFrom(q))
    ensures Head(q).Some? ==> SameOut(p, m, Next(p, m, Read), [(Joined(Head(q).value.chunks), Head(q).value.ppi)])
  {
    hide AllPosted, AllLoose, D.Inv, LooseOk, Joined, Holds, StandsHeld, Turns, Head, D.Full, CloseTo;
    CloseIs(p, m.o, m.o.next);
    ReadRefines(q, m.o, p.mail);
    if Head(q).Some? { HeadOrdered(q); }
  }

  lemma {:induction false} HeadOrdered(q: Queue)
    requires q.unordered == [] && Head(q).Some?
    ensures ReadFrom(q) == q.(ordered := ReadFrom(q).ordered, nextSSN := ReadFrom(q).nextSSN)
  {
  }

  lemma {:induction false} HeadUnordered(q: Queue)
    ensures q.unordered != [] ==> Head(q) == Some(q.unordered[0])
  {
  }

  lemma {:induction false} ForwardSame(q: Queue, last: uint16)
    ensures ForwardOrdered(q, last).unordered == q.unordered && ForwardOrdered(q, last).loose == q.loose
  {
  }

  /** One event: the queue goes on standing for the model, and delivers what the model
      delivers. */
  lemma {:induction false} StepRefines(p: Peer, m: Model, q: Queue, ev: Event, q': Queue, out: seq<(seq<byte>, uint32)>)
    requires Honest(p) && ModelOk(p, m) && Refines(p, m, q) && Fair(p, m, ev) && Handles(p, q, ev, q', out)
    ensures Refines(p, Next(p, m, ev), q') && SameOut(p, m, Next(p, m, ev), out)
  {
    hide AllPosted, AllLoose, D.Inv, LooseOk, Joined, Holds, StandsHeld, StandsReady, Turns, Head, D.Full, CloseTo, LooseNear, DropNear,
      PushOrderedTo, PushesUnordered, Lte32, Gt32, ForwardOrdered, ReadFrom, Arrive, Drop, D.Step, D.CanDeliver, Contents, Wire, Wire16, Had;
    match ev {
      case Chunk(k, i) =>
        CloseIs(p, m.o, k);
        PushRefines(q, m.o, p.mail, k, i);
      case LooseChunk(k, i) =>
        var complete, start, n :| PushesUnordered(q, p.loose[k].fs[i], q', complete, start, n);
        PushRefinesLine(q, m.u, p, k, i, q', complete, start, n);
      case Read =>
        if q.unordered != [] {
          ReadUnordered(p, m, q);
        } else {
          ReadOrdered(p, m, q);
        }
      case GiveUp(n) =>
        CloseIs(p, m.o, n);
        ForwardRefines(q, m.o, p.mail, n);
        ForwardSame(q, Wire16(n));
      case GiveUpLoose(n) =>
        var k: nat :| Forwarded(q.loose, Wire(n), k) && q' == q.(loose := q.loose[k..]);
        DropRefinesLine(q, m.u, p, n, k);
    }
  }

  /** A run of the queue from empty: these events leave it at q, with this read from it. */
  ghost predicate QueueRun(p: Peer, evs: seq<Event>, q: Queue, out: seq<(seq<byte>, uint32)>)
    decreases |evs|
  {
    if evs == [] then q == EMPTY && out == []
    else exists q0, o0, o :: RunStep(p, evs, q0, o0, q, o) && out == o0 + o
  }

  ghost predicate RunStep(p: Peer, evs: seq<Event>, q0: Queue, o0: seq<(seq<byte>, uint32)>, q: Queue, o: seq<(seq<byte>, uint32)>)
    requires evs != []
    decreases |evs|, 0
  {
    QueueRun(p, evs[..|evs| - 1], q0, o0) && Handles(p, q0, evs[|evs| - 1], q, o)
  }

  lemma {:induction false} HonestSane(p: Peer)
    requires Honest(p)
    ensures Sane(p)
  {
    hide Message;
    forall k | 0 <= k < |p.mail| ensures p.mail[k].fs != [] {
      assert Posted(p.mail[k], k);
      PostedWhole(p.mail[k], k);
    }
    forall k | 0 <= k < |p.loose| ensures p.loose[k].fs != [] { PostedSome(p.loose[k], p.at[k]); }
  }

  lemma {:induction false} StartRefines(p: Peer)
    requires Honest(p)
    ensures ModelOk(p, START) && Refines(p, START, EMPTY)
  {
    HonestSane(p);
    StartOk(p);
    StandsStart(p);
    hide ModelOk, StandsLoose;
  }

  /** Every run: whatever the order in which chunks of whatever messages arrive, and
      whenever it is read, the queue delivers what the model delivers. */
  lemma {:induction false} RunRefines(p: Peer, evs: seq<Event>, q: Queue, out: seq<(seq<byte>, uint32)>)
    requires Honest(p) && FairRun(p, evs) && QueueRun(p, evs, q, out)
    ensures var m := After(p, evs); ModelOk(p, m) && Refines(p, m, q) && ReadsAs(p, m, out)
    decreases |evs|
  {
    hide ModelOk, Refines, Honest, Next, Handles, ReadsAs, SameOut, CloseTo, LooseNear, DropNear, Eligible;
    if evs == [] {
      StartRefines(p);
      NothingRead(p);
    } else {
      var n := |evs| - 1;
      var q0, o0, o :| RunStep(p, evs, q0, o0, q, o) && out == o0 + o;
      RunRefines(p, evs[..n], q0, o0);
      var m := After(p, evs[..n]);
      StepRefines(p, m, q0, evs[n], q, o);
      StepOk(p, m, evs[n]);
      ReadMore(p, m, Next(p, m, evs[n]), o0, o);
    }
  }

  /** The round trip: what is read are messages that were sent, byte for byte and with their
      payload types. Ordered ones are read in the order in which they were sent; every one,
      ordered or not, is read once, and only when all its fragments have come. */
  lemma {:induction false} RoundTrip(p: Peer, evs: seq<Event>, q: Queue, out: seq<(seq<byte>, uint32)>)
    requires Honest(p) && FairRun(p, evs) && QueueRun(p, evs, q, out)
    ensures var m := After(p, evs);
            && |out| == |m.log| && (forall j :: 0 <= j < |out| ==> out[j] == Contents(p, m.log[j]))
            && Ascending(Turns(m.log, true))
            && (forall k :: k in Turns(m.log, true) ==> D.Full(Sizes(p.mail), m.o, k))
            && (forall i, j :: 0 <= i < j < |Turns(m.log, false)| ==> Turns(m.log, false)[i] != Turns(m.log, false)[j])
            && (forall k :: k in Turns(m.log, false) ==> k < |p.loose| && All(Had(m.u.seen, k), |p.loose[k].fs|))
  {
    hide ModelOk, Refines, Honest, FairRun, QueueRun, Turns, D.Full, All, Had, Contents;
    RunRefines(p, evs, q, out);
    Orderly(p, After(p, evs));
  }

  /** On a reliable stream: the ordered messages read are exactly the first ones sent, in
      order; and when there is nothing to read, everything has been read that came in full -
      every unordered message, and every ordered one that came with all before it. */
  lemma {:induction false} ReliableRoundTrip(p: Peer, evs: seq<Event>, q: Queue, out: seq<(seq<byte>, uint32)>)
    requires Honest(p) && FairRun(p, evs) && QueueRun(p, evs, q, out) && KeepsAll(evs)
    ensures var m := After(p, evs);
            forall j :: 0 <= j < |Turns(m.log, true)| ==> Turns(m.log, true)[j] == j
    ensures var m := After(p, evs);
            Head(q).None? && Fair(p, m, Read) ==>
              && !D.Full(Sizes(p.mail), m.o, |Turns(m.log, true)|)
              && forall k :: 0 <= k < |p.loose| && All(Had(m.u.seen, k), |p.loose[k].fs|) ==> k in Turns(m.log, false)
  {
    hide ModelOk, Refines, Honest, FairRun, QueueRun, Turns, D.Full, All, Had, Fair, KeepsAll, Sane, Head, After;
    RunRefines(p, evs, q, out);
    HonestSane(p);
    ReliableModel(p, evs);
    var m := After(p, evs);
    if Head(q).None? && Fair(p, m, Read) {
      HeadUnordered(q);
      ReadOrdered(p, m, q);
    }
  }
}
