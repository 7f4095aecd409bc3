/** The reassembly queue of a stream with interleaving: I-DATA messages by message
    identifier (section 2.1 of RFC 8260). The sets are objects, reachable both from a
    list sorted by identifier and from a map.

    Message identifiers wrap at 2^32. `numbers` gives every listed set its place in the
    unbounded run of messages, and `next` and `last` do the same for the next identifier
    expected and the last one delivered; only `Wire` of them is compared. */
module MidQueue {
  import opened Options
  import opened Serial
  import opened Fragments
  import opened ChunkSets
  import opened Sets

  /** The one chunk of a set that carries the beginning of the message. */
  ghost predicate OnlyFirst(cs: seq<Fragment>, x: Fragment) {
    x in cs && x.first && forall i :: 0 <= i < |cs| && cs[i].first ==> cs[i] == x
  }

  /** Only a message's first fragment carries its payload type on the wire. */
  ghost predicate PpiOk(cs: seq<Fragment>, ppi: uint32) { forall x :: OnlyFirst(cs, x) ==> ppi == x.ppi }

  lemma {:induction false} PpiInsert(cs: seq<Fragment>, c: Fragment, ppi: uint32)
    requires PpiOk(cs, ppi)
    ensures PpiOk(Insert(cs, c, true), if c.first then c.ppi else ppi)
  {
    var r := Insert(cs, c, true);
    assert forall y :: y in r <==> y in multiset(r);
    forall x | OnlyFirst(r, x) ensures (if c.first then c.ppi else ppi) == x.ppi {
      if c.first {
        assert c in r;
      } else {
        assert x in multiset(cs);
        forall i | 0 <= i < |cs| && cs[i].first ensures cs[i] == x { assert cs[i] in multiset(r); assert cs[i] in r; }
        assert OnlyFirst(cs, x);
      }
    }
  }

  class ChunkSetMID {
    const mid: uint32
    var ppi: uint32
    var chunks: seq<Fragment>

    constructor (mid: uint32, ppi: uint32)
      ensures this.mid == mid && this.ppi == ppi && chunks == []
    {
      this.mid, this.ppi, chunks := mid, ppi, [];
    }

    /** A complete set takes no more, and a fragment number is taken once. */
    method PushAndCheck(c: Fragment) returns (complete: bool, accepted: bool)
      modifies this
      ensures accepted <==> !old(Complete(chunks, true)) && forall i :: 0 <= i < |old(chunks)| ==> old(chunks)[i].fsn != c.fsn
      ensures chunks == if accepted then Insert(old(chunks), c, true) else old(chunks)
      ensures complete <==> accepted && Complete(chunks, true)
      ensures old(PpiOk(chunks, ppi)) ==> PpiOk(chunks, ppi)
      ensures accepted && c.first ==> ppi == c.ppi
    {
      var full := IsComplete(chunks, true);
      if full { return false, false; }
      for i := 0 to |chunks|
        modifies {}
        invariant forall j :: 0 <= j < i ==> chunks[j].fsn != c.fsn
      {
        if chunks[i].fsn == c.fsn { return false, false; }
      }
      if PpiOk(chunks, ppi) { PpiInsert(chunks, c, ppi); }
      chunks := Insert(chunks, c, true);
      if c.first { ppi := c.ppi; }
      complete := IsComplete(chunks, true);
      accepted := true;
    }
  }

  const MAX_ENTRIES := 1024

  /** The queue has nothing incomplete below next, and nothing at or below last. */
  ghost predicate Live(numbers: seq<int>, held: seq<seq<Fragment>>, next: int, last: int) {
    && |numbers| == |held| && last < next && Ascending(numbers)
    && (forall k :: 0 <= k < |numbers| ==> last < numbers[k])
    && (forall k :: 0 <= k < |numbers| && numbers[k] < next ==> Complete(held[k], true))
  }

  /** Place k is where x goes. */
  ghost predicate Between(numbers: seq<int>, k: nat, x: int) {
    && (forall i :: 0 <= i < k && i < |numbers| ==> numbers[i] < x)
    && (forall i :: k <= i < |numbers| ==> numbers[i] > x)
  }

  /** List and map hold the same sets, each once and under its identifier. */
  ghost predicate Agree(list: seq<ChunkSetMID>, sets: map<uint32, ChunkSetMID>, numbers: seq<int>) {
    && |list| == |numbers|
    && (forall k :: 0 <= k < |list| ==>
          && list[k].mid == Wire(numbers[k]) && list[k].mid in sets && sets[list[k].mid] == list[k])
    && (forall i, j :: 0 <= i < j < |list| ==> list[i] != list[j])
    && (forall m :: m in sets ==> sets[m] in list && sets[m].mid == m)
  }

  /** The queue by message number. */
  datatype Queue = Queue(numbers: seq<int>, held: seq<seq<Fragment>>, next: int)

  /** A chunk of message x: behind next it is ignored; its set, at place k, takes it or not;
      a message that is new gets a set in its place. */
  ghost predicate Pushes(q: Queue, x: int, c: Fragment, q': Queue, complete: bool, k: nat) {
    && |q.numbers| == |q.held|
    && if x < q.next then q' == q && !complete
       else if x in q.numbers then
         && k < |q.numbers| && q.numbers[k] == x
         && q' == (if Takes(q.held[k], c) then q.(held := q.held[k := Insert(q.held[k], c, true)]) else q)
         && complete == (Takes(q.held[k], c) && Complete(Insert(q.held[k], c, true), true))
       else
         && k <= |q.numbers| && Between(q.numbers, k, x) && complete == Complete([c], true)
         && q' == q.(numbers := q.numbers[..k] + [x] + q.numbers[k..], held := q.held[..k] + [[c]] + q.held[k..])
  }

  /** The first message is whole and not beyond the next one expected. */
  predicate Deliverable(q: Queue) {
    q.held != [] && q.numbers != [] && Complete(q.held[0], true) && q.numbers[0] <= q.next
  }

  function Delivered(q: Queue): Queue
    requires Deliverable(q)
  {
    Queue(q.numbers[1..], q.held[1..], if q.numbers[0] == q.next then q.next + 1 else q.next)
  }

  ghost function Forwarded(q: Queue, y: int): Queue
    requires |q.numbers| == |q.held|
  {
    var kept := Kept(q.numbers, q.held, y);
    Queue(kept.0, kept.1, if q.next <= y then y + 1 else q.next)
  }

  // -------------------------------------------------------------- unordered

  /** A set of chunks of an unordered message. It is in the map or in the list, never in
      both, so it is kept as a value. */
  datatype MidSet = MidSet(mid: uint32, ppi: uint32, chunks: seq<Fragment>)

  /** Unordered messages: the incomplete ones by identifier, and the whole ones in the order
      in which they became whole. */
  datatype Pool = Pool(open: map<uint32, MidSet>, ready: seq<MidSet>)

  /** A whole message with this identifier has not been read yet. */
  predicate Queued(ready: seq<MidSet>, mid: uint32) { exists j :: 0 <= j < |ready| && ready[j].mid == mid }

  function SetFor(p: Pool, c: Fragment): MidSet {
    if c.mid in p.open then p.open[c.mid] else MidSet(c.mid, c.ppi, [])
  }

  function With(s: MidSet, c: Fragment): MidSet {
    s.(chunks := Insert(s.chunks, c, true), ppi := if c.first then c.ppi else s.ppi)
  }

  ghost predicate LimitHit(p: Pool, c: Fragment) {
    !Queued(p.ready, c.mid) && c.mid !in p.open && |p.open| + |p.ready| >= MAX_ENTRIES
  }

  /** A chunk of an unordered message: ignored while a whole message has its identifier, or
      if its set does not take it; the last one missing moves its set to the list. */
  ghost function PushTo(p: Pool, c: Fragment): (Pool, bool) {
    var s := SetFor(p, c);
    var s' := With(s, c);
    if Queued(p.ready, c.mid) || LimitHit(p, c) || !Takes(s.chunks, c) then (p, false)
    else if Complete(s'.chunks, true) then (Pool(p.open - {c.mid}, p.ready + [s']), true)
    else (Pool(p.open[c.mid := s'], p.ready), false)
  }

  function OpenTo(open: map<uint32, MidSet>, k: nat): nat
    requires k <= TWO32
  {
    if k == 0 then 0 else OpenTo(open, k - 1) + if k - 1 in open then |Joined(open[k - 1].chunks)| else 0
  }

  /** The chunks of each set. */
  function Chunks(ready: seq<MidSet>): seq<seq<Fragment>> {
    seq(|ready|, i requires 0 <= i < |ready| => ready[i].chunks)
  }

  function PoolBytes(p: Pool): nat { OpenTo(p.open, TWO32) + Stored(Chunks(p.ready)) }

  lemma {:induction false} OpenSet(open: map<uint32, MidSet>, m: uint32, s: MidSet, k: nat)
    requires k <= TWO32
    ensures OpenTo(open[m := s], k) + (if m < k && m in open then |Joined(open[m].chunks)| else 0) ==
            OpenTo(open, k) + if m < k then |Joined(s.chunks)| else 0
  {
    if k > 0 { OpenSet(open, m, s, k - 1); }
  }

  lemma {:induction false} OpenDrop(open: map<uint32, MidSet>, m: uint32, k: nat)
    requires k <= TWO32 && m in open
    ensures OpenTo(open - {m}, k) + (if m < k then |Joined(open[m].chunks)| else 0) == OpenTo(open, k)
  {
    if k > 0 { OpenDrop(open, m, k - 1); }
  }

  lemma {:induction false} ReadyFirst(ready: seq<MidSet>)
    requires ready != []
    ensures Stored(Chunks(ready)) == |Joined(ready[0].chunks)| + Stored(Chunks(ready[1..]))
  {
    StoredFirst(Chunks(ready));
    assert Chunks(ready)[1..] == Chunks(ready[1..]);
  }

  ghost predicate PoolOk(p: Pool) {
    && (forall m :: m in p.open ==> p.open[m].mid == m && PpiOk(p.open[m].chunks, p.open[m].ppi))
    && (forall j :: 0 <= j < |p.ready| ==> PpiOk(p.ready[j].chunks, p.ready[j].ppi))
  }

  /** A push keeps each set under its identifier with a possible payload type, and counts
      exactly the bytes that were taken. */
  lemma {:induction false} PushToKeeps(p: Pool, c: Fragment)
    requires PoolOk(p)
    ensures PoolOk(PushTo(p, c).0)
    ensures PoolBytes(PushTo(p, c).0) == PoolBytes(p) + if PushTo(p, c).0 == p then 0 else |c.data|
    ensures PushTo(p, c).0 == p <==> Queued(p.ready, c.mid) || LimitHit(p, c) || !Takes(SetFor(p, c).chunks, c)
  {
    hide PpiOk, Insert, Complete, Joined, OpenTo, Chunks, Stored, Takes, Queued;
    var s := SetFor(p, c);
    var s' := With(s, c);
    if c.mid !in p.open { NothingPpi(c.ppi); }
    PpiInsert(s.chunks, c, s.ppi);
    InsertGrows(s.chunks, c);
    PutBytes(p, c);
    MoveBytes(p, c);
    assert c.mid in p.open ==> p.open[c.mid := s'][c.mid] != p.open[c.mid];
    assert |p.ready + [s']| != |p.ready|;
  }

  lemma {:induction false} PutBytes(p: Pool, c: Fragment)
    ensures PoolBytes(Pool(p.open[c.mid := With(SetFor(p, c), c)], p.ready)) == PoolBytes(p) + |c.data|
  {
    hide Insert, Joined, OpenTo, Chunks, Stored;
    var s := SetFor(p, c);
    InsertBytes(s.chunks, c, true);
    OpenSet(p.open, c.mid, With(s, c), TWO32);
    NothingJoined();
  }

  lemma {:induction false} MoveBytes(p: Pool, c: Fragment)
    ensures PoolBytes(Pool(p.open - {c.mid}, p.ready + [With(SetFor(p, c), c)])) == PoolBytes(p) + |c.data|
  {
    hide Insert, Joined, OpenTo, Chunks, Stored;
    var s := SetFor(p, c);
    InsertBytes(s.chunks, c, true);
    ReadyNext(p.ready, With(s, c));
    NothingJoined();
    if c.mid in p.open { OpenDrop(p.open, c.mid, TWO32); } else { assert p.open - {c.mid} == p.open; }
  }

  lemma {:induction false} NotPushed(p: Pool, c: Fragment)
    requires Queued(p.ready, c.mid) || (c.mid !in p.open && |p.open| + |p.ready| >= MAX_ENTRIES)
    ensures PushTo(p, c) == (p, false) && (LimitHit(p, c) <==> !Queued(p.ready, c.mid))
  {
  }

  lemma {:induction false} Pushed(p: Pool, c: Fragment)
    requires !Queued(p.ready, c.mid) && (c.mid in p.open || |p.open| + |p.ready| < MAX_ENTRIES)
    ensures !LimitHit(p, c)
    ensures var s := With(SetFor(p, c), c);
            PushTo(p, c) ==
            if !Takes(SetFor(p, c).chunks, c) then (p, false)
            else if Complete(s.chunks, true) then (Pool(p.open - {c.mid}, p.ready + [s]), true)
            else (Pool(p.open[c.mid := s], p.ready), false)
  {
  }

  lemma {:induction false} InsertGrows(cs: seq<Fragment>, c: Fragment)
    ensures |Insert(cs, c, true)| == |cs| + 1
  {
  }

  lemma {:induction false} ReadyNext(ready: seq<MidSet>, s: MidSet)
    ensures Stored(Chunks(ready + [s])) == Stored(Chunks(ready)) + |Joined(s.chunks)|
  {
    assert Chunks(ready + [s]) == Chunks(ready) + [s.chunks];
    StoredAppend(Chunks(ready), [s.chunks]);
    StoredOne(s.chunks);
  }

  lemma {:induction false} NothingPpi(ppi: uint32)
    ensures PpiOk([], ppi)
  {
  }

  lemma {:induction false} NothingJoined()
    ensures |Joined([])| == 0
  {
  }

  lemma {:induction false} EmptyPool(k: nat)
    requires k <= TWO32
    ensures OpenTo(map[], k) == 0
  {
    if k > 0 { EmptyPool(k - 1); }
  }

  /** What an I-FORWARD-TSN leaves of the incomplete unordered messages. */
  function OpenAfter(open: map<uint32, MidSet>, lastMID: uint32): map<uint32, MidSet> {
    map m | m in open && !Lte32(m, lastMID) :: open[m]
  }

  class MidQueue {
    var nextMID: uint32
    var orderedMID: seq<ChunkSetMID>
    var orderedMIDMap: map<uint32, ChunkSetMID>
    var unorderedMID: seq<MidSet>
    var unorderedMIDMap: map<uint32, MidSet>
    var nBytes: nat

    ghost var numbers: seq<int>
    ghost var held: seq<seq<Fragment>>
    ghost var next: int
    ghost var last: int

    ghost function Value(): Queue
      reads this
    {
      Queue(numbers, held, next)
    }

    ghost function Loose(): Pool
      reads this
    {
      Pool(unorderedMIDMap, unorderedMID)
    }

    ghost predicate Mirrored()
      reads this`orderedMID, this`numbers, this`held, orderedMID
    {
      && |orderedMID| == |numbers| == |held|
      && forall k :: 0 <= k < |held| ==> orderedMID[k].chunks == held[k] && PpiOk(held[k], orderedMID[k].ppi)
    }

    ghost predicate OrderedOk()
      reads this`nextMID, this`orderedMID, this`orderedMIDMap, this`numbers, this`held, this`next, this`last, orderedMID
    {
      && Agree(orderedMID, orderedMIDMap, numbers) && Mirrored() && nextMID == Wire(next)
      && Live(numbers, held, next, last)
    }

    ghost predicate Valid()
      reads this, orderedMID
    {
      && OrderedOk()
      && PoolOk(Loose()) && nBytes == Stored(held) + PoolBytes(Loose())
    }

    lemma {:induction false} Lengths()
      requires Valid()
      ensures |orderedMID| == |numbers| == |held|
    {
    }

    constructor ()
      ensures Valid() && orderedMID == [] && nextMID == 0 && next == 0 && last == -1 && Loose() == Pool(map[], [])
    {
      nextMID, orderedMID, orderedMIDMap, nBytes := 0, [], map[], 0;
      unorderedMIDMap, unorderedMID := map[], [];
      EmptyPool(TWO32);
      numbers, held, next, last := [], [], 0, -1;
    }

    /** sort.Search in insertChunkSetByMID. */
    method Search(mid: uint32, ghost x: int) returns (k: nat)
      requires Valid() && mid == Wire(x) && AllNear(numbers, x)
      ensures k <= |orderedMID|
      ensures forall i :: 0 <= i < k ==> numbers[i] < x
      ensures forall i :: k <= i < |numbers| ==> numbers[i] >= x
    {
      hide Wire, Live, Stored;
      var lo, hi := 0, |orderedMID|;
      while lo < hi
        invariant 0 <= lo <= hi <= |orderedMID|
        invariant forall i :: 0 <= i < lo ==> numbers[i] < x
        invariant forall i :: hi <= i < |numbers| ==> numbers[i] >= x
      {
        var m := (lo + hi) / 2;
        WireOrder(numbers[m], x);
        AscendingAt(numbers, held, next, last, m);
        if !Lt32(orderedMID[m].mid, mid) { hi := m; } else { lo := m + 1; }
      }
      k := lo;
    }

    /** A set for a new identifier, in its place in the list and in the map. */
    method AddSet(k: nat, mid: uint32, ppi: uint32, ghost x: int)
      requires Valid() && mid == Wire(x) && next <= x && mid !in orderedMIDMap
      requires k <= |orderedMID| && Between(numbers, k, x)
      modifies this`orderedMID, this`orderedMIDMap, this`numbers, this`held
      ensures Valid() && k <= |old(orderedMID)| == |old(numbers)| == |old(held)|
      ensures |orderedMID| == |old(orderedMID)| + 1 && fresh(orderedMID[k])
      ensures orderedMID == old(orderedMID)[..k] + [orderedMID[k]] + old(orderedMID)[k..]
      ensures numbers == old(numbers)[..k] + [x] + old(numbers)[k..]
      ensures held == old(held)[..k] + [[]] + old(held)[k..]
    {
      hide Wire, Stored, Complete, Live, Agree, Between;
      var cset := new ChunkSetMID(mid, ppi);
      LiveInsert(numbers, held, next, last, k, x);
      AgreeInsert(orderedMID, orderedMIDMap, numbers, k, cset, x);
      orderedMID := orderedMID[..k] + [cset] + orderedMID[k..];
      orderedMIDMap := orderedMIDMap[mid := cset];
      numbers := numbers[..k] + [x] + numbers[k..];
      held := held[..k] + [[]] + held[k..];
    }

    /** A fragment goes into the set at place k. */
    method PushInto(cset: ChunkSetMID, c: Fragment, ghost k: nat) returns (complete: bool, accepted: bool)
      requires Valid() && k < |orderedMID| && cset == orderedMID[k] && next <= numbers[k]
      modifies cset, this`held, this`nBytes
      ensures Valid() && |orderedMID| == |numbers| == |old(held)|
      ensures accepted <==> Takes(old(held)[k], c)
      ensures held == if accepted then old(held)[k := Insert(old(held)[k], c, true)] else old(held)
      ensures complete <==> accepted && Complete(Insert(old(held)[k], c, true), true)
    {
      hide Stored, Complete, Insert, Wire, Live, Agree, PpiOk;
      ghost var before := held;
      OneEach(orderedMID, orderedMIDMap, numbers, k);
      complete, accepted := cset.PushAndCheck(c);
      if accepted {
        nBytes := nBytes + |c.data|;
        held := held[k := Insert(held[k], c, true)];
        StoredInsert(before, k, c);
        LiveUpdate(numbers, before, next, last, k, held[k]);
      }
    }

    /** An ordered I-DATA chunk of the message with number x. Behind the next identifier it
        is ignored; a new identifier beyond the limit is an error; otherwise its set, and
        no other, gains it, and the answer is whether that set is now a whole message. */
    method PushOrdered(c: Fragment, ghost x: int) returns (complete: bool, limit: bool, ghost k: nat)
      requires Valid() && c.mid == Wire(x) && Near(x, next) && AllNear(numbers, x)
      modifies this`orderedMID, this`orderedMIDMap, this`numbers, this`held, this`nBytes, orderedMID
      ensures Valid()
      ensures limit <==> next <= x && x !in old(numbers) && |old(orderedMIDMap)| >= MAX_ENTRIES
      ensures limit ==> !complete && Value() == old(Value())
      ensures !limit ==> Pushes(old(Value()), x, c, Value(), complete, k)
    {
      hide Wire, Stored, Complete, Live, Insert, Takes, Agree, AllNear, Mirrored;
      Lengths();
      WireOrder(x, next);
      k := 0;
      if Lt32(c.mid, nextMID) { return false, false, k; }
      FindNumber(orderedMID, orderedMIDMap, numbers, x);
      var accepted: bool;
      if c.mid in orderedMIDMap {
        var cset := orderedMIDMap[c.mid];
        k :| 0 <= k < |orderedMID| && orderedMID[k] == cset;
        complete, accepted := PushInto(cset, c, k);
        return complete, false, k;
      }
      if |orderedMIDMap| >= MAX_ENTRIES { return false, true, k; }
      complete, k := PushNew(c, x);
      return complete, false, k;
    }

    /** The first chunk of a message. */
    method PushNew(c: Fragment, ghost x: int) returns (complete: bool, ghost k: nat)
      requires Valid() && c.mid == Wire(x) && next <= x && c.mid !in orderedMIDMap && AllNear(numbers, x)
      modifies this`orderedMID, this`orderedMIDMap, this`numbers, this`held, this`nBytes
      ensures Valid() && k < |numbers| && numbers[k] == x && complete == Complete([c], true)
      ensures k <= |old(numbers)| == |old(held)| && Between(old(numbers), k, x)
      ensures numbers == old(numbers)[..k] + [x] + old(numbers)[k..] && held == old(held)[..k] + [[c]] + old(held)[k..]
    {
      hide Wire, Stored, Complete, Live, Insert, Takes, Agree, AllNear;
      var i := Search(c.mid, x);
      k := i;
      NewNumber(orderedMID, orderedMIDMap, numbers, x);
      AddSet(i, c.mid, c.ppi, x);
      EmptyTakes(c);
      var accepted: bool;
      complete, accepted := PushInto(orderedMID[i], c, i);
    }

    method IsReadable() returns (r: bool)
      requires Valid() && AllNear(numbers, next)
      ensures r <==> Top().Some?
    {
      hide Wire, Stored, Joined, Complete, Live, Agree, PpiOk, AllNear, OpenTo, Chunks, Lt32, Gt32;
      if |unorderedMID| > 0 { return true; }
      if |orderedMID| > 0 {
        FirstOrder(orderedMID, orderedMIDMap, numbers, next);
        Compare(orderedMID[0].mid, nextMID);
        var complete := IsComplete(orderedMID[0].chunks, true);
        if complete && Lte32(orderedMID[0].mid, nextMID) { return true; }
      }
      return false;
    }

    /** The chunks of what a read would deliver: a whole unordered message first. */
    ghost function Top(): Option<seq<Fragment>>
      reads this
    {
      if unorderedMID != [] then Some(unorderedMID[0].chunks)
      else if Deliverable(Value()) then Some(held[0])
      else None
    }

    /** Delivers a whole unordered message, or else the least ordered message listed, if it is
        complete and not beyond the next identifier; the number of an ordered message is
        greater than that of every one delivered before. A buffer that is too short gets the
        length that was needed, and nothing changes. */
    method Read(buf: array<byte>) returns (n: nat, ppi: uint32, err: ReadError)
      requires Valid() && AllNear(numbers, next)
      modifies this`nextMID, this`orderedMID, this`orderedMIDMap, this`nBytes, this`numbers, this`held, this`next, this`last,
               this`unorderedMID, buf
      ensures Valid()
      ensures err == TryAgain <==> old(Top()).None?
      ensures err == TryAgain ==> n == 0
      ensures err != TryAgain ==> n == |Joined(old(Top()).value)| && (err == ShortBuffer <==> n > buf.Length)
      ensures err != NoError ==> Value() == old(Value()) && Loose() == old(Loose()) && last == old(last) && nBytes == old(nBytes) && ppi == 0
      ensures err == NoError ==>
                && buf[..n] == Joined(old(Top()).value) && buf[n..] == old(buf[n..]) && PpiOk(old(Top()).value, ppi)
                && nBytes == old(nBytes) - n
                && if old(unorderedMID) != [] then
                     && ppi == old(unorderedMID)[0].ppi && Value() == old(Value()) && last == old(last)
                     && Loose() == old(Loose()).(ready := old(unorderedMID)[1..])
                   else
                     && Value() == Delivered(old(Value())) && Loose() == old(Loose())
                     && old(last) < last == old(numbers)[0] <= old(next)
    {
      hide Wire, Stored, Joined, Complete, Live, Agree, PpiOk, Lt32, Gt32, AllNear, OpenTo, Chunks;
      n, ppi, err := 0, 0, TryAgain;
      var short: bool;
      if |unorderedMID| > 0 {
        var set_ := unorderedMID[0];
        n, short := CopyOut(set_.chunks, buf);
        if short { return n, 0, ShortBuffer; }
        ReadyFirst(unorderedMID);
        unorderedMID := unorderedMID[1..];
        nBytes := SubtractNumBytes(nBytes, n);
        return n, set_.ppi, NoError;
      }
      if |orderedMID| == 0 { return; }
      var set_ := orderedMID[0];
      FirstOrder(orderedMID, orderedMIDMap, numbers, next);
      var complete := IsComplete(set_.chunks, true);
      if !complete { return; }
      if Gt32(set_.mid, nextMID) { return; }
      n, short := CopyOut(set_.chunks, buf);
      if short { return n, 0, ShortBuffer; }
      DropFirst(n);
      return n, set_.ppi, NoError;
    }

    /** An unordered I-DATA chunk. */
    method PushUnordered(c: Fragment) returns (complete: bool, limit: bool)
      requires Valid()
      modifies this`unorderedMID, this`unorderedMIDMap, this`nBytes
      ensures Valid() && Loose() == PushTo(old(Loose()), c).0 && complete == PushTo(old(Loose()), c).1
      ensures limit <==> LimitHit(old(Loose()), c)
      ensures nBytes == old(nBytes) + if Loose() == old(Loose()) then 0 else |c.data|
    {
      hide OrderedOk, Stored, PoolOk, PoolBytes, PushTo, LimitHit, Queued;
      complete, limit := false, false;
      var queued := HasQueued(c.mid);
      if queued {
        NotPushed(Loose(), c);
        return;
      }
      if c.mid !in unorderedMIDMap && |unorderedMIDMap| + |unorderedMID| >= MAX_ENTRIES {
        NotPushed(Loose(), c);
        return false, true;
      }
      complete := PushInPool(c);
    }

    /** Into the set of its message, which is moved to the list when it is whole. */
    method PushInPool(c: Fragment) returns (complete: bool)
      requires Valid() && !Queued(unorderedMID, c.mid)
      requires c.mid in unorderedMIDMap || |unorderedMIDMap| + |unorderedMID| < MAX_ENTRIES
      modifies this`unorderedMID, this`unorderedMIDMap, this`nBytes
      ensures Valid() && !LimitHit(old(Loose()), c)
      ensures Loose() == PushTo(old(Loose()), c).0 && complete == PushTo(old(Loose()), c).1
      ensures nBytes == old(nBytes) + if Loose() == old(Loose()) then 0 else |c.data|
    {
      hide OrderedOk, Stored, PoolOk, PoolBytes, PushTo, LimitHit, Takes, Complete, With, Queued, Insert;
      PushToKeeps(Loose(), c);
      Pushed(Loose(), c);
      var s := if c.mid in unorderedMIDMap then unorderedMIDMap[c.mid] else MidSet(c.mid, c.ppi, []);
      var taken: bool;
      s, complete, taken := AddTo(s, c);
      if !taken { return; }
      nBytes := nBytes + |c.data|;
      if complete {
        unorderedMIDMap := unorderedMIDMap - {c.mid};
        unorderedMID := unorderedMID + [s];
      } else {
        unorderedMIDMap := unorderedMIDMap[c.mid := s];
      }
    }

    /** pushAndCheck. */
    static method AddTo(s: MidSet, c: Fragment) returns (s': MidSet, complete: bool, taken: bool)
      ensures taken == Takes(s.chunks, c) && s' == (if taken then With(s, c) else s)
      ensures complete == (taken && Complete(s'.chunks, true))
    {
      s', complete := s, false;
      taken := CanTake(s.chunks, c);
      if taken {
        s' := s.(chunks := Insert(s.chunks, c, true), ppi := if c.first then c.ppi else s.ppi);
        complete := IsComplete(s'.chunks, true);
      }
    }

    method HasQueued(mid: uint32) returns (r: bool)
      ensures r == Queued(unorderedMID, mid)
    {
      for j := 0 to |unorderedMID|
        invariant forall i :: 0 <= i < j ==> unorderedMID[i].mid != mid
      {
        if unorderedMID[j].mid == mid { return true; }
      }
      return false;
    }

    /** pushAndCheck's two refusals. */
    static method CanTake(cs: seq<Fragment>, c: Fragment) returns (r: bool)
      ensures r == Takes(cs, c)
    {
      var full := IsComplete(cs, true);
      if full { return false; }
      for i := 0 to |cs|
        invariant forall j :: 0 <= j < i ==> cs[j].fsn != c.fsn
      {
        if cs[i].fsn == c.fsn { return false; }
      }
      return true;
    }

    /** forwardTSNForUnorderedMID: drops exactly the incomplete messages up to the
        identifier, whatever order the map is walked in. */
    method ForwardTSNUnordered(lastMID: uint32)
      requires Valid()
      modifies this`unorderedMIDMap, this`nBytes
      ensures Valid() && Loose() == old(Loose()).(open := OpenAfter(old(unorderedMIDMap), lastMID))
    {
      hide OrderedOk, Stored, Joined, PpiOk, OpenTo, Chunks, Lte32;
      ghost var was := unorderedMIDMap;
      var todo := unorderedMIDMap.Keys;
      while todo != {}
        modifies this`unorderedMIDMap, this`nBytes
        invariant Valid() && todo <= unorderedMIDMap.Keys
        invariant unorderedMIDMap == map m | m in was && (m in todo || !Lte32(m, lastMID)) :: was[m]
      {
        var m :| m in todo;
        if Lte32(m, lastMID) {
          OpenDrop(unorderedMIDMap, m, TWO32);
          nBytes := DropChunks(nBytes, unorderedMIDMap[m].chunks);
          unorderedMIDMap := unorderedMIDMap - {m};
        }
        todo := todo - {m};
      }
    }

    /** The first set has been read: it leaves the list and the map. */
    method DropFirst(n: nat)
      requires Valid() && orderedMID != [] && AllNear(numbers, next)
      requires held != [] && numbers != [] && numbers[0] <= next && n == |Joined(held[0])|
      modifies this`nextMID, this`orderedMID, this`orderedMIDMap, this`nBytes, this`numbers, this`held, this`next, this`last
      ensures Valid() && nBytes == old(nBytes) - n
      ensures Value() == Queue(old(numbers)[1..], old(held)[1..], if old(numbers)[0] == old(next) then old(next) + 1 else old(next))
      ensures old(last) < last == old(numbers)[0]
    {
      hide Wire, Stored, Joined, Complete, Live, Agree, PpiOk, AllNear;
      var set_ := orderedMID[0];
      FirstOrder(orderedMID, orderedMIDMap, numbers, next);
      AgreeFirst(orderedMID, orderedMIDMap, numbers);
      LiveFirst(numbers, held, next, last);
      StoredFirst(held);
      WireAdd(next, 1);
      orderedMID := orderedMID[1..];
      orderedMIDMap := orderedMIDMap - {set_.mid};
      if set_.mid == nextMID {
        nextMID := Add(nextMID, 1);
        next := next + 1;
      }
      last, numbers, held := numbers[0], numbers[1..], held[1..];
      nBytes := SubtractNumBytes(nBytes, n);
    }

    /** forwardTSNForOrderedMID up to number y: drops exactly the incomplete sets up to y,
        and moves the next identifier past y. */
    method ForwardTSN(lastMID: uint32, ghost y: int)
      requires Valid() && lastMID == Wire(y) && Near(y, next) && AllNear(numbers, y)
      modifies this`nextMID, this`orderedMID, this`orderedMIDMap, this`nBytes, this`numbers, this`held, this`next
      ensures Valid()
      ensures |old(numbers)| == |old(held)| && Value() == Forwarded(old(Value()), y)
    {
      hide Wire, Stored, Complete, Live, Agree, Kept, PpiOk;
      LiveKept(numbers, held, next, last, y);
      WireOrder(next, y);
      WireAdd(y, 1);
      orderedMID := Filter(lastMID, y);
      ghost var kept := Kept(numbers, held, y);
      numbers, held := kept.0, kept.1;
      if Lte32(nextMID, lastMID) {
        nextMID := Add(lastMID, 1);
        next := y + 1;
      }
    }

    /** The filtering loop, deleting from the map as it goes. */
    method Filter(lastMID: uint32, ghost y: int) returns (keep: seq<ChunkSetMID>)
      requires Valid() && lastMID == Wire(y) && AllNear(numbers, y)
      modifies this`orderedMIDMap, this`nBytes
      ensures var kept := Kept(numbers, held, y);
              && Agree(keep, orderedMIDMap, kept.0) && nBytes == Stored(kept.1) + PoolBytes(Loose())
              && |keep| == |kept.0| == |kept.1|
              && forall j :: 0 <= j < |keep| ==> keep[j].chunks == kept.1[j] && PpiOk(kept.1[j], keep[j].ppi)
    {
      hide Wire, Stored, Complete, Live, Agree, Kept, Joined, Filtered, PpiOk, PoolBytes, PoolOk;
      keep := [];
      ghost var loose := PoolBytes(Loose());
      ghost var kn, kh := [], [];
      FilterStart(orderedMID, orderedMIDMap, numbers, held, y);
      for i := 0 to |orderedMID|
        modifies this`orderedMIDMap, this`nBytes
        invariant nBytes >= loose && Filtered(orderedMID, orderedMIDMap, numbers, held, y, i, keep, kn, kh, nBytes - loose)
        invariant |keep| == |kh| && forall j :: 0 <= j < |keep| ==> keep[j].chunks == kh[j] && PpiOk(kh[j], keep[j].ppi)
      {
        var set_ := orderedMID[i];
        FilterStep(orderedMID, orderedMIDMap, numbers, held, y, i, keep, kn, kh, nBytes - loose);
        WireOrder(numbers[i], y);
        var complete := IsComplete(set_.chunks, true);
        if Lte32(set_.mid, lastMID) && !complete {
          nBytes := DropChunks(nBytes, set_.chunks);
          orderedMIDMap := orderedMIDMap - {set_.mid};
          continue;
        }
        keep, kn, kh := keep + [set_], kn + [numbers[i]], kh + [held[i]];
      }
      FilterEnd(orderedMID, orderedMIDMap, numbers, held, y, keep, kn, kh, nBytes - loose);
    }
  }

  /** Where the filtering loop stands at place i: what was kept and what is still to come
      agree with the map and with the byte count. */
  ghost predicate Filtered(
    list: seq<ChunkSetMID>, sets: map<uint32, ChunkSetMID>, numbers: seq<int>, held: seq<seq<Fragment>>, y: int,
    i: nat, keep: seq<ChunkSetMID>, kn: seq<int>, kh: seq<seq<Fragment>>, bytes: nat)
  {
    && i <= |list| == |numbers| == |held| && |keep| == |kn| == |kh|
    && (kn, kh) == Kept(numbers[..i], held[..i], y)
    && Agree(keep + list[i..], sets, kn + numbers[i..])
    && bytes == Stored(kh) + Stored(held[i..])
  }

  lemma {:induction false} FilterStart(
    list: seq<ChunkSetMID>, sets: map<uint32, ChunkSetMID>, numbers: seq<int>, held: seq<seq<Fragment>>, y: int)
    requires Agree(list, sets, numbers) && |list| == |numbers| == |held|
    ensures Filtered(list, sets, numbers, held, y, 0, [], [], [], Stored(held))
  {
    hide Agree, Kept, Stored;
    KeptNext(numbers, held, y, 0);
    StoredOne([]);
    assert [] + list[0..] == list && [] + numbers[0..] == numbers && held[0..] == held;
  }

  lemma {:induction false} FilterStep(
    list: seq<ChunkSetMID>, sets: map<uint32, ChunkSetMID>, numbers: seq<int>, held: seq<seq<Fragment>>, y: int,
    i: nat, keep: seq<ChunkSetMID>, kn: seq<int>, kh: seq<seq<Fragment>>, bytes: nat)
    requires Filtered(list, sets, numbers, held, y, i, keep, kn, kh, bytes) && i < |list|
    ensures |list| == |numbers| == |held| && list[i].mid == Wire(numbers[i]) && |Joined(held[i])| <= bytes
    ensures if numbers[i] > y || Complete(held[i], true)
            then Filtered(list, sets, numbers, held, y, i + 1, keep + [list[i]], kn + [numbers[i]], kh + [held[i]], bytes)
            else Filtered(list, sets - {list[i].mid}, numbers, held, y, i + 1, keep, kn, kh, bytes - |Joined(held[i])|)
  {
    hide Agree, Kept, Stored, Complete, Wire, Joined;
    KeptNext(numbers, held, y, i);
    AgreeAt(keep + list[i..], sets, kn + numbers[i..], i, |keep|, list, numbers);
    StoredFirst(held[i..]);
    assert held[i..][1..] == held[i + 1..];
    StoredAppend(kh, [held[i]]);
    StoredOne(held[i]);
    assert keep + list[i..] == keep + [list[i]] + list[i + 1..];
    assert kn + numbers[i..] == kn + [numbers[i]] + numbers[i + 1..];
    assert (keep + list[i..])[..|keep|] == keep && (kn + numbers[i..])[..|kn|] == kn;
  }

  lemma {:induction false} FilterEnd(
    list: seq<ChunkSetMID>, sets: map<uint32, ChunkSetMID>, numbers: seq<int>, held: seq<seq<Fragment>>, y: int,
    keep: seq<ChunkSetMID>, kn: seq<int>, kh: seq<seq<Fragment>>, bytes: nat)
    requires Filtered(list, sets, numbers, held, y, |list|, keep, kn, kh, bytes)
    ensures |numbers| == |held| && (kn, kh) == Kept(numbers, held, y) && Agree(keep, sets, kn)
    ensures bytes == Stored(kh) && |keep| == |kn|
  {
    hide Agree, Kept, Stored;
    var n := |list|;
    assert keep + list[n..] == keep && kn + numbers[n..] == kn;
    assert numbers[..n] == numbers && held[..n] == held && held[n..] == [];
    StoredOne([]);
  }

  /** The numbers and chunks that stay: beyond y, or complete. */
  ghost function Kept(numbers: seq<int>, held: seq<seq<Fragment>>, y: int): (r: (seq<int>, seq<seq<Fragment>>))
    requires |numbers| == |held|
    ensures |r.0| == |r.1|
  {
    if numbers == [] then ([], [])
    else
      var n := |numbers| - 1;
      var before := Kept(numbers[..n], held[..n], y);
      if numbers[n] > y || Complete(held[n], true) then (before.0 + [numbers[n]], before.1 + [held[n]]) else before
  }

  lemma {:induction false} KeptNext(numbers: seq<int>, held: seq<seq<Fragment>>, y: int, i: nat)
    requires |numbers| == |held| && i <= |numbers|
    ensures Kept(numbers[..0], held[..0], y) == ([], [])
    ensures i < |numbers| ==>
              var before := Kept(numbers[..i], held[..i], y);
              Kept(numbers[..i + 1], held[..i + 1], y) ==
              if numbers[i] > y || Complete(held[i], true) then (before.0 + [numbers[i]], before.1 + [held[i]]) else before
  {
    if i < |numbers| { assert numbers[..i + 1][..i] == numbers[..i] && held[..i + 1][..i] == held[..i]; }
  }

  /** What stays is live once the next number has passed y: nothing incomplete is left below it. */
  lemma {:induction false} LiveKept(numbers: seq<int>, held: seq<seq<Fragment>>, next: int, last: int, y: int)
    requires Live(numbers, held, next, last)
    ensures var k := Kept(numbers, held, y);
            && Live(k.0, k.1, if next <= y then y + 1 else next, last)
            && forall i :: 0 <= i < |k.0| ==> k.0[i] in numbers
    decreases |numbers|
  {
    hide Complete;
    if numbers != [] {
      var n := |numbers| - 1;
      LiveKept(numbers[..n], held[..n], next, last, y);
      var b := Kept(numbers[..n], held[..n], y);
      KeptBelow(b.0, numbers);
      if numbers[n] > y || Complete(held[n], true) {
        LiveAppend(b.0, b.1, if next <= y then y + 1 else next, last, numbers[n], held[n]);
      }
    }
  }

  lemma {:induction false} KeptBelow(b: seq<int>, numbers: seq<int>)
    requires numbers != [] && Ascending(numbers) && forall i :: 0 <= i < |b| ==> b[i] in numbers[..|numbers| - 1]
    ensures forall i :: 0 <= i < |b| ==> b[i] in numbers && b[i] < numbers[|numbers| - 1]
  {
    var n := |numbers| - 1;
    forall i | 0 <= i < |b| ensures b[i] in numbers && b[i] < numbers[n] {
      var below := numbers[..n];
      assert b[i] in below;
      var j :| 0 <= j < |below| && below[j] == b[i];
      assert numbers[j] == b[i];
    }
  }

  lemma {:induction false} LiveAppend(
    numbers: seq<int>, held: seq<seq<Fragment>>, next: int, last: int, x: int, cs: seq<Fragment>)
    requires Live(numbers, held, next, last) && last < x && (x < next ==> Complete(cs, true))
    requires forall i :: 0 <= i < |numbers| ==> numbers[i] < x
    ensures Live(numbers + [x], held + [cs], next, last)
  {
    hide Complete;
  }

  /** The set under the loop's hand, and what removing it leaves. */
  lemma {:induction false} AgreeAt(list: seq<ChunkSetMID>, sets: map<uint32, ChunkSetMID>, numbers: seq<int>,
                                   i: nat, k: nat, all: seq<ChunkSetMID>, allNumbers: seq<int>)
    requires Agree(list, sets, numbers) && k < |list| == |numbers| && i < |all| == |allNumbers|
    requires list[k..] == all[i..] && numbers[k..] == allNumbers[i..]
    ensures all[i].mid == Wire(allNumbers[i])
    ensures Agree(list[..k] + all[i + 1..], sets - {all[i].mid}, numbers[..k] + allNumbers[i + 1..])
  {
    hide Wire;
    assert list[k] == list[k..][0] == all[i] && numbers[k] == numbers[k..][0] == allNumbers[i];
    assert list[k + 1..] == list[k..][1..] == all[i + 1..] && numbers[k + 1..] == numbers[k..][1..] == allNumbers[i + 1..];
    AgreeRemove(list, sets, numbers, k);
  }

  lemma {:induction false} FirstOrder(list: seq<ChunkSetMID>, sets: map<uint32, ChunkSetMID>, numbers: seq<int>, next: int)
    requires Agree(list, sets, numbers) && list != [] && AllNear(numbers, next)
    ensures numbers != [] && (Gt32(list[0].mid, Wire(next)) <==> numbers[0] > next)
    ensures list[0].mid == Wire(next) <==> numbers[0] == next
  {
    assert list[0].mid == Wire(numbers[0]) && Near(numbers[0], next);
    hide Agree, Wire, AllNear;
    WireOrder(numbers[0], next);
    if Wire(numbers[0]) == Wire(next) { WireInjective(numbers[0], next); }
  }

  /** Taking the first set out of list and map. */
  lemma {:induction false} AgreeFirst(list: seq<ChunkSetMID>, sets: map<uint32, ChunkSetMID>, numbers: seq<int>)
    requires Agree(list, sets, numbers) && list != []
    ensures Agree(list[1..], sets - {list[0].mid}, numbers[1..])
    ensures numbers != [] && list[0].mid == Wire(numbers[0])
  {
    hide Agree, Wire;
    AgreeHead(list, sets, numbers);
    AgreeRemove(list, sets, numbers, 0);
    assert list[..0] + list[1..] == list[1..] && numbers[..0] + numbers[1..] == numbers[1..];
  }

  lemma {:induction false} AgreeHead(list: seq<ChunkSetMID>, sets: map<uint32, ChunkSetMID>, numbers: seq<int>)
    requires Agree(list, sets, numbers) && list != []
    ensures |numbers| == |list| && list[0].mid == Wire(numbers[0])
  {
  }

  lemma {:induction false} AgreeRemove(list: seq<ChunkSetMID>, sets: map<uint32, ChunkSetMID>, numbers: seq<int>, k: nat)
    requires Agree(list, sets, numbers) && k < |list|
    ensures Agree(list[..k] + list[k + 1..], sets - {list[k].mid}, numbers[..k] + numbers[k + 1..])
  {
    RemovedMap(list, sets, numbers, k);
    RemovedLinks(list, sets, numbers, k);
    hide Wire;
  }

  lemma {:induction false} RemovedLinks(list: seq<ChunkSetMID>, sets: map<uint32, ChunkSetMID>, numbers: seq<int>, k: nat)
    requires Agree(list, sets, numbers) && k < |list|
    ensures var r, s, n := list[..k] + list[k + 1..], sets - {list[k].mid}, numbers[..k] + numbers[k + 1..];
            && (forall i :: 0 <= i < |r| ==> r[i].mid == Wire(n[i]) && r[i].mid in s && s[r[i].mid] == r[i])
            && (forall i, j :: 0 <= i < j < |r| ==> r[i] != r[j])
  {
    hide Wire;
    var r, s, n := list[..k] + list[k + 1..], sets - {list[k].mid}, numbers[..k] + numbers[k + 1..];
    forall i | 0 <= i < |r| ensures r[i].mid == Wire(n[i]) && r[i].mid in s && s[r[i].mid] == r[i] {
      var j := if i < k then i else i + 1;
      assert r[i] == list[j] && n[i] == numbers[j];
    }
  }

  lemma {:induction false} RemovedMap(list: seq<ChunkSetMID>, sets: map<uint32, ChunkSetMID>, numbers: seq<int>, k: nat)
    requires Agree(list, sets, numbers) && k < |list|
    ensures var r, s := list[..k] + list[k + 1..], sets - {list[k].mid}; forall m :: m in s ==> s[m] in r
  {
    hide Wire;
    var r, s := list[..k] + list[k + 1..], sets - {list[k].mid};
    forall m | m in s ensures s[m] in r {
      var i :| 0 <= i < |list| && list[i] == sets[m];
      assert r[if i < k then i else i - 1] == list[i];
    }
  }

  lemma {:induction false} LiveFirst(numbers: seq<int>, held: seq<seq<Fragment>>, next: int, last: int)
    requires Live(numbers, held, next, last) && numbers != [] && numbers[0] <= next
    ensures last < numbers[0]
    ensures Live(numbers[1..], held[1..], if numbers[0] == next then next + 1 else next, numbers[0])
  {
    hide Complete;
  }

  ghost predicate AllNear(numbers: seq<int>, x: int) { forall i :: 0 <= i < |numbers| ==> Near(numbers[i], x) }

  /** A set takes a fragment if it is not complete and does not have its number yet. */
  ghost predicate Takes(cs: seq<Fragment>, c: Fragment) {
    !Complete(cs, true) && forall i :: 0 <= i < |cs| ==> cs[i].fsn != c.fsn
  }

  lemma {:induction false} EmptyTakes(c: Fragment)
    ensures Takes([], c) && Insert([], c, true) == [c]
  {
  }

  /** An identifier is in the map exactly if its number is listed. */
  lemma {:induction false} FindNumber(list: seq<ChunkSetMID>, sets: map<uint32, ChunkSetMID>, numbers: seq<int>, x: int)
    requires Agree(list, sets, numbers) && AllNear(numbers, x)
    ensures |list| == |numbers| && (Wire(x) in sets <==> x in numbers)
    ensures Wire(x) in sets ==> sets[Wire(x)] in list
    ensures forall k :: 0 <= k < |list| && Wire(x) in sets && list[k] == sets[Wire(x)] ==> numbers[k] == x
  {
    hide Wire;
    forall k | 0 <= k < |list| && Wire(x) in sets && list[k] == sets[Wire(x)] ensures numbers[k] == x {
      WireInjective(numbers[k], x);
    }
    if x in numbers { var k :| 0 <= k < |numbers| && numbers[k] == x; assert list[k].mid in sets; }
  }

  lemma {:induction false} OneEach(list: seq<ChunkSetMID>, sets: map<uint32, ChunkSetMID>, numbers: seq<int>, k: nat)
    requires Agree(list, sets, numbers) && k < |list|
    ensures forall i :: 0 <= i < |list| && i != k ==> list[i] != list[k]
  {
  }

  lemma {:induction false} LiveUpdate(
    numbers: seq<int>, held: seq<seq<Fragment>>, next: int, last: int, k: nat, cs: seq<Fragment>)
    requires Live(numbers, held, next, last) && k < |held| && next <= numbers[k]
    ensures Live(numbers, held[k := cs], next, last)
  {
    hide Complete;
  }

  lemma {:induction false} NewNumber(list: seq<ChunkSetMID>, sets: map<uint32, ChunkSetMID>, numbers: seq<int>, x: int)
    requires Agree(list, sets, numbers) && Wire(x) !in sets
    ensures forall i :: 0 <= i < |numbers| ==> numbers[i] != x
  {
    forall i | 0 <= i < |numbers| ensures numbers[i] != x { assert list[i].mid in sets; }
  }

  lemma {:induction false} AgreeInsert(
    list: seq<ChunkSetMID>, sets: map<uint32, ChunkSetMID>, numbers: seq<int>, k: nat, cset: ChunkSetMID, x: int)
    requires Agree(list, sets, numbers) && k <= |list| && cset.mid == Wire(x) && cset.mid !in sets && cset !in list
    ensures Agree(list[..k] + [cset] + list[k..], sets[cset.mid := cset], numbers[..k] + [x] + numbers[k..])
  {
    InsertedLinks(list, sets, numbers, k, cset, x);
    hide Wire;
    var r := list[..k] + [cset] + list[k..];
    assert r[k] == cset;
    forall m | m in sets ensures sets[m] in r {
      var i :| 0 <= i < |list| && list[i] == sets[m];
      assert r[if i < k then i else i + 1] == list[i];
    }
  }

  lemma {:induction false} InsertedLinks(
    list: seq<ChunkSetMID>, sets: map<uint32, ChunkSetMID>, numbers: seq<int>, k: nat, cset: ChunkSetMID, x: int)
    requires Agree(list, sets, numbers) && k <= |list| && cset.mid == Wire(x) && cset.mid !in sets && cset !in list
    ensures var r, t, n := list[..k] + [cset] + list[k..], sets[cset.mid := cset], numbers[..k] + [x] + numbers[k..];
            && |r| == |n|
            && (forall i :: 0 <= i < |r| ==> r[i].mid == Wire(n[i]) && r[i].mid in t && t[r[i].mid] == r[i])
            && (forall i, j :: 0 <= i < j < |r| ==> r[i] != r[j])
  {
    hide Wire;
    var r, t, n := list[..k] + [cset] + list[k..], sets[cset.mid := cset], numbers[..k] + [x] + numbers[k..];
    forall i | 0 <= i < |r|
      ensures r[i].mid == Wire(n[i]) && r[i].mid in t && t[r[i].mid] == r[i]
      ensures i != k ==> r[i] in list
    {
      var j := if i <= k then i else i - 1;
      if i != k { assert r[i] == list[j] && n[i] == numbers[j]; }
    }
    forall i, j | 0 <= i < j < |r| ensures r[i] != r[j] {
      if i != k && j != k {
        var a, b := if i < k then i else i - 1, if j < k then j else j - 1;
        assert r[i] == list[a] && r[j] == list[b];
      }
    }
  }

  lemma {:induction false} StoredInsert(held: seq<seq<Fragment>>, k: nat, c: Fragment)
    requires k < |held|
    ensures Stored(held[k := Insert(held[k], c, true)]) == Stored(held) + |c.data|
  {
    StoredUpdate(held, k, Insert(held[k], c, true));
    InsertBytes(held[k], c, true);
  }

  lemma {:induction false} LiveInsert(numbers: seq<int>, held: seq<seq<Fragment>>, next: int, last: int, k: nat, x: int)
    requires Live(numbers, held, next, last) && k <= |numbers| && next <= x && Between(numbers, k, x)
    ensures Live(numbers[..k] + [x] + numbers[k..], held[..k] + [[]] + held[k..], next, last)
    ensures Stored(held[..k] + [[]] + held[k..]) == Stored(held)
  {
    hide Complete;
    var n, h := numbers[..k] + [x] + numbers[k..], held[..k] + [[]] + held[k..];
    forall i | 0 <= i < |n| && n[i] < next ensures Complete(h[i], true) {
      assert i != k;
    }
    StoredEmpty(held, k);
  }

  lemma {:induction false} AscendingAt(numbers: seq<int>, held: seq<seq<Fragment>>, next: int, last: int, m: nat)
    requires Live(numbers, held, next, last) && m < |numbers|
    ensures forall i :: 0 <= i < m ==> numbers[i] < numbers[m]
    ensures forall i :: m < i < |numbers| ==> numbers[m] < numbers[i]
  {
  }

  lemma {:induction false} WholeFirst(fs: seq<Fragment>)
    requires Whole(fs, 0, true)
    ensures forall p :: PpiOk(fs, p) ==> p == fs[0].ppi
  {
    assert fs[0] in fs && OnlyFirst(fs, fs[0]);
  }

  lemma {:induction false} TakesPick(fs: seq<Fragment>, d: set<nat>, i: nat)
    requires Whole(fs, 0, true) && i < |fs| && i !in d
    ensures Takes(Pick(fs, d), fs[i])
  {
    CompleteIff(fs, d, 0, true);
    hide Complete;
    var p := Places(d, |fs|);
    forall j | 0 <= j < |p| ensures Pick(fs, d)[j].fsn != fs[i].fsn {
      assert Key(fs[p[j]], true) == Add(0, p[j]) && Key(fs[i], true) == Add(0, i);
    }
  }
}
