/** The reassembly queue of a stream without interleaving. */
module DataQueue {
  import opened Options
  import opened Serial
  import opened Fragments
  import opened ChunkSets
  import opened Unordered

  datatype ChunkSet = ChunkSet(ssn: uint16, ppi: uint32, chunks: seq<Fragment>)

  function Fragmented(c: Fragment): bool { !c.first || !c.last }

  /** The chunks of each set. */
  function Held(sets: seq<ChunkSet>): seq<seq<Fragment>> {
    seq(|sets|, i requires 0 <= i < |sets| => sets[i].chunks)
  }

  // ------------------------------------------------------------- ordered sets

  /** Where sorting by SSN leaves a new last set. */
  function InsertAt(sets: seq<ChunkSet>, ssn: uint16): (k: nat)
    ensures k <= |sets|
  {
    if sets == [] then 0
    else
      var n := |sets| - 1;
      if Lt16(ssn, sets[n].ssn) then InsertAt(sets[..n], ssn) else n + 1
  }

  function InsertSet(sets: seq<ChunkSet>, s: ChunkSet): seq<ChunkSet> {
    var k := InsertAt(sets, s.ssn);
    sets[..k] + [s] + sets[k..]
  }

  /** The fragments of an SSN are gathered in one set, apart from a whole message that
      happens to have the same SSN. */
  predicate Matches(s: ChunkSet, c: Fragment) {
    Fragmented(c) && s.ssn == c.ssn && s.chunks != [] && Fragmented(s.chunks[0])
  }

  /** A whole message in one chunk gets a set of its own; a fragment joins the first set of
      its SSN that does not hold such a message. */
  lemma {:induction false} SetChosen(sets: seq<ChunkSet>, c: Fragment)
    requires NonEmpty(sets)
    ensures c.first && c.last ==> |PushSets(sets, c).0| == |sets| + 1
    ensures !(c.first && c.last) ==>
              forall k :: 0 <= k < |sets| && sets[k].ssn == c.ssn && !(sets[k].chunks[0].first && sets[k].chunks[0].last) ==>
                Find(sets, c, 0) <= k && |PushSets(sets, c).0| == |sets|
  {
    hide Insert, Complete, HasTsn, InsertAt;
  }

  /** The first set from place i on that a chunk belongs to, or the end of the list. */
  function Find(sets: seq<ChunkSet>, c: Fragment, i: nat): (k: nat)
    requires i <= |sets|
    ensures i <= k <= |sets| && (k < |sets| ==> Matches(sets[k], c))
    ensures forall j :: i <= j < k ==> !Matches(sets[j], c)
    decreases |sets| - i
  {
    if i == |sets| || Matches(sets[i], c) then i else Find(sets, c, i + 1)
  }

  predicate HasTsn(cs: seq<Fragment>, tsn: uint32) { exists i :: 0 <= i < |cs| && cs[i].tsn == tsn }

  /** chunkSet.push on the set at place k. */
  function PushAt(sets: seq<ChunkSet>, k: nat, c: Fragment): (seq<ChunkSet>, bool)
    requires k < |sets|
  {
    var cs := sets[k].chunks;
    if HasTsn(cs, c.tsn) then (sets, false)
    else
      var r := Insert(cs, c, false);
      (sets[k := sets[k].(chunks := r)], Complete(r, false))
  }

  /** An ordered chunk among these sets: into its set, or into a new one put in its place. */
  function PushSets(sets: seq<ChunkSet>, c: Fragment): (seq<ChunkSet>, bool) {
    var k := Find(sets, c, 0);
    if k < |sets| then PushAt(sets, k, c)
    else PushAt(InsertSet(sets, ChunkSet(c.ssn, c.ppi, [])), InsertAt(sets, c.ssn), c)
  }

  /** The chunk's TSN is already in its set. */
  predicate Repeats(sets: seq<ChunkSet>, c: Fragment) {
    var k := Find(sets, c, 0);
    k < |sets| && HasTsn(sets[k].chunks, c.tsn)
  }

  ghost predicate NonEmpty(sets: seq<ChunkSet>) { forall i :: 0 <= i < |sets| ==> sets[i].chunks != [] }

  lemma {:induction false} PushAtKeeps(sets: seq<ChunkSet>, k: nat, c: Fragment)
    requires k < |sets|
    ensures var r := PushAt(sets, k, c).0;
            && |r| == |sets| && (forall i :: 0 <= i < |r| && i != k ==> r[i] == sets[i]) && r[k].chunks != []
            && Stored(Held(r)) == Stored(Held(sets)) + if HasTsn(sets[k].chunks, c.tsn) then 0 else |c.data|
  {
    var cs := sets[k].chunks;
    if !HasTsn(cs, c.tsn) {
      InsertBytes(cs, c, false);
      StoredUpdate(Held(sets), k, Insert(cs, c, false));
      assert Held(PushAt(sets, k, c).0) == Held(sets)[k := Insert(cs, c, false)];
    }
  }

  lemma {:induction false} HeldWithEmpty(sets: seq<ChunkSet>, k: nat, s: ChunkSet)
    requires k <= |sets| && s.chunks == []
    ensures Stored(Held(sets[..k] + [s] + sets[k..])) == Stored(Held(sets))
  {
    StoredEmpty(Held(sets), k);
    assert Held(sets[..k] + [s] + sets[k..]) == Held(sets)[..k] + [[]] + Held(sets)[k..];
  }

  lemma {:induction false} HeldNext(sets: seq<ChunkSet>, s: ChunkSet)
    ensures Stored(Held(sets + [s])) == Stored(Held(sets)) + |Joined(s.chunks)|
  {
    assert Held(sets + [s]) == Held(sets) + [s.chunks];
    StoredAppend(Held(sets), [s.chunks]);
    StoredOne(s.chunks);
  }

  lemma {:induction false} HeldFirst(sets: seq<ChunkSet>)
    requires sets != []
    ensures Stored(Held(sets)) == |Joined(sets[0].chunks)| + Stored(Held(sets[1..]))
  {
    StoredFirst(Held(sets));
    assert Held(sets)[1..] == Held(sets[1..]);
  }

  /** What a push keeps and what it counts: a repeated TSN changes nothing, any other adds
      exactly its bytes. */
  lemma {:induction false} PushKeeps(sets: seq<ChunkSet>, c: Fragment)
    requires NonEmpty(sets)
    ensures NonEmpty(PushSets(sets, c).0)
    ensures Stored(Held(PushSets(sets, c).0)) == Stored(Held(sets)) + if Repeats(sets, c) then 0 else |c.data|
    ensures Repeats(sets, c) ==> PushSets(sets, c) == (sets, false)
  {
    hide Stored, Held, Insert, Complete, InsertAt, Find;
    var k := Find(sets, c, 0);
    if k < |sets| {
      PushAtKeeps(sets, k, c);
    } else {
      var at, s := InsertAt(sets, c.ssn), ChunkSet(c.ssn, c.ppi, []);
      var more := sets[..at] + [s] + sets[at..];
      HeldWithEmpty(sets, at, s);
      PushAtKeeps(more, at, c);
      assert more[at] == s && forall i :: 0 <= i < |more| && i != at ==> more[i].chunks != [];
    }
  }

  // ------------------------------------------------------------------ the queue

  /** The queue as a value; `loose` are the unordered chunks not yet part of a whole message. */
  datatype Queue = Queue(nextSSN: uint16, ordered: seq<ChunkSet>, unordered: seq<ChunkSet>, loose: seq<Fragment>)

  const EMPTY := Queue(0, [], [], [])

  function PushOrderedTo(q: Queue, c: Fragment): (Queue, bool) {
    if Lt16(c.ssn, q.nextSSN) then (q, false)
    else var r := PushSets(q.ordered, c); (q.(ordered := r.0), r.1)
  }

  /** An unordered chunk is put in its place, and then a whole message is cut out, if there
      is one. */
  ghost predicate PushesUnordered(q: Queue, c: Fragment, q': Queue, complete: bool, start: nat, n: nat) {
    var cs := Insert(q.loose, c, false);
    if complete then
      && Segment(cs, start, start + n)
      && q' == q.(unordered := q.unordered + [ChunkSet(0, cs[start].ppi, cs[start..start + n])],
                  loose := cs[..start] + cs[start + n..])
    else
      (forall i: nat, e: nat :: !Segment(cs, i, e)) && q' == q.(loose := cs)
  }

  /** What a read would deliver: unordered messages first. */
  function Head(q: Queue): Option<ChunkSet> {
    if q.unordered != [] then Some(q.unordered[0])
    else if q.ordered != [] && Complete(q.ordered[0].chunks, false) && Lte16(q.ordered[0].ssn, q.nextSSN)
    then Some(q.ordered[0])
    else None
  }

  function ReadFrom(q: Queue): Queue
    requires Head(q).Some?
  {
    if q.unordered != [] then q.(unordered := q.unordered[1..])
    else q.(ordered := q.ordered[1..], nextSSN := if q.ordered[0].ssn == q.nextSSN then Next16(q.nextSSN) else q.nextSSN)
  }

  function ForwardOrdered(q: Queue, last: uint16): Queue {
    q.(ordered := Kept(q.ordered, last), nextSSN := if Lte16(q.nextSSN, last) then Next16(last) else q.nextSSN)
  }

  class ReassemblyQueue {
    const si: uint16
    var nextSSN: uint16
    var ordered: seq<ChunkSet>
    var unordered: seq<ChunkSet>
    var unorderedChunks: seq<Fragment>
    var nBytes: nat

    ghost function Value(): Queue
      reads this
    {
      Queue(nextSSN, ordered, unordered, unorderedChunks)
    }

    ghost function Bytes(): nat
      reads this
    {
      Stored(Held(ordered)) + Stored(Held(unordered)) + |Joined(unorderedChunks)|
    }

    /** The byte count is right. */
    ghost predicate Counted()
      reads this
    {
      nBytes == Bytes()
    }

    ghost predicate Valid()
      reads this
    {
      NonEmpty(ordered)
    }

    constructor (si: uint16)
      ensures Valid() && Counted() && this.si == si && Value() == EMPTY
    {
      this.si := si;
      nextSSN, ordered, unordered, unorderedChunks, nBytes := 0, [], [], [], 0;
    }

    /** A chunk of another stream is ignored. */
    method Push(c: Fragment) returns (complete: bool, ghost start: nat, ghost n: nat)
      requires Valid()
      modifies this`ordered, this`unordered, this`unorderedChunks, this`nBytes
      ensures Valid()
      ensures c.stream != si ==> !complete && Value() == old(Value()) && nBytes == old(nBytes)
      ensures c.stream == si && c.unordered ==> PushesUnordered(old(Value()), c, Value(), complete, start, n)
      ensures c.stream == si && !c.unordered ==> (Value(), complete) == PushOrderedTo(old(Value()), c)
      ensures old(Counted()) ==>
                (Counted() <==> c.stream != si || c.unordered || Lt16(c.ssn, nextSSN) || !Repeats(old(ordered), c) || c.data == [])
    {
      hide PushesUnordered, PushOrderedTo, NonEmpty, Repeats, Lt16, Stored, Held, Joined;
      complete, start, n := false, 0, 0;
      if c.stream != si { return; }
      if c.unordered {
        complete, start, n := PushUnordered(c);
      } else {
        complete := PushOrdered(c);
      }
    }

    /** chunkSet.push: a TSN that is there already changes nothing. */
    method PushToSet(cs: seq<Fragment>, c: Fragment) returns (r: seq<Fragment>, complete: bool)
      ensures r == if HasTsn(cs, c.tsn) then cs else Insert(cs, c, false)
      ensures complete == (!HasTsn(cs, c.tsn) && Complete(r, false))
    {
      for i := 0 to |cs|
        invariant forall j :: 0 <= j < i ==> cs[j].tsn != c.tsn
      {
        if cs[i].tsn == c.tsn { return cs, false; }
      }
      r := Insert(cs, c, false);
      complete := IsComplete(r, false);
    }

    method FindSet(c: Fragment) returns (k: nat)
      requires Valid()
      ensures k == Find(ordered, c, 0)
    {
      k := 0;
      if Fragmented(c) {
        while k < |ordered|
          invariant k <= |ordered| && Find(ordered, c, 0) == Find(ordered, c, k)
        {
          if ordered[k].ssn == c.ssn && Fragmented(ordered[k].chunks[0]) { return; }
          k := k + 1;
        }
      } else {
        k := |ordered|;
      }
    }

    /** An ordered chunk. Behind the next SSN it is ignored. Otherwise its set gains it in
        serial order, and the answer is whether that set is now whole. The bytes are counted
        before the TSN is looked for, so the count stays right exactly when the chunk is
        ignored, or its TSN is new, or it is empty. */
    method PushOrdered(c: Fragment) returns (complete: bool)
      requires Valid()
      modifies this`ordered, this`nBytes
      ensures Valid() && (Value(), complete) == PushOrderedTo(old(Value()), c)
      ensures nBytes == old(nBytes) + if Lt16(c.ssn, nextSSN) then 0 else |c.data|
      ensures !Lt16(c.ssn, nextSSN) && Repeats(old(ordered), c) ==> ordered == old(ordered) && !complete
      ensures old(Counted()) ==> (Counted() <==> Lt16(c.ssn, nextSSN) || !Repeats(old(ordered), c) || c.data == [])
    {
      hide Lt16, Stored, Held, Joined, Insert, Complete, InsertAt, NonEmpty, HasTsn;
      if Lt16(c.ssn, nextSSN) { return false; }
      PushKeeps(ordered, c);
      var k := FindSet(c);
      if k == |ordered| {
        k := InsertAt(ordered, c.ssn);
        ordered := InsertSet(ordered, ChunkSet(c.ssn, c.ppi, []));
      }
      nBytes := nBytes + |c.data|;
      var r: seq<Fragment>;
      r, complete := PushToSet(ordered[k].chunks, c);
      assert ordered[k := ordered[k]] == ordered;
      ordered := ordered[k := ordered[k].(chunks := r)];
      assert (ordered, complete) == PushSets(old(ordered), c);
    }

    /** An unordered chunk: insert it, then cut out a whole message if there is one. */
    method PushUnordered(c: Fragment) returns (complete: bool, ghost start: nat, ghost n: nat)
      modifies this`unordered, this`unorderedChunks, this`nBytes
      ensures PushesUnordered(old(Value()), c, Value(), complete, start, n)
      ensures nBytes == old(nBytes) + |c.data| && (old(Counted()) ==> Counted())
    {
      hide Segment, Stored, Held, Joined, Insert;
      InsertBytes(unorderedChunks, c, false);
      unorderedChunks := Insert(unorderedChunks, c, false);
      nBytes := nBytes + |c.data|;
      var found, s, k := FindComplete(unorderedChunks);
      complete, start, n := found, s, k;
      if found {
        SegmentInside(unorderedChunks, s, s + k);
        var chunks := unorderedChunks[s..s + k];
        CutBytes(unorderedChunks, s, s + k);
        var set_ := ChunkSet(0, chunks[0].ppi, chunks);
        HeldNext(unordered, set_);
        unorderedChunks := unorderedChunks[..s] + unorderedChunks[s + k..];
        unordered := unordered + [set_];
      }
    }

    method IsReadable() returns (r: bool)
      ensures r <==> Head(Value()).Some?
    {
      if |unordered| > 0 { return true; }
      if |ordered| > 0 {
        var complete := IsComplete(ordered[0].chunks, false);
        if complete && Lte16(ordered[0].ssn, nextSSN) { return true; }
      }
      return false;
    }

    /** Delivers the bytes and payload type of the head set and removes it, or says why not
        and changes nothing but the buffer; a buffer that is too short gets the length that
        was needed. */
    method Read(buf: array<byte>) returns (n: nat, ppi: uint32, err: ReadError)
      requires Valid()
      modifies this`ordered, this`unordered, this`nextSSN, this`nBytes, buf
      ensures Valid() && (old(Counted()) ==> Counted())
      ensures err == TryAgain <==> Head(old(Value())).None?
      ensures err == TryAgain ==> n == 0 && ppi == 0
      ensures err != TryAgain ==>
                n == |Joined(Head(old(Value())).value.chunks)| && (err == ShortBuffer <==> n > buf.Length)
      ensures err != NoError ==> Value() == old(Value()) && nBytes == old(nBytes) && ppi == 0
      ensures err == NoError ==>
                var s := Head(old(Value())).value;
                && buf[..n] == Joined(s.chunks) && buf[n..] == old(buf[n..]) && ppi == s.ppi
                && Value() == ReadFrom(old(Value())) && nBytes == SubtractNumBytes(old(nBytes), n)
    {
      hide Joined, Stored, Held, Complete;
      n, ppi, err := 0, 0, TryAgain;
      var isUnordered := |unordered| > 0;
      if !isUnordered {
        if |ordered| == 0 { return; }
        var complete := IsComplete(ordered[0].chunks, false);
        if !complete { return; }
        Compare16(ordered[0].ssn, nextSSN);
        if Gt16(ordered[0].ssn, nextSSN) { return; }
      }
      var s := if isUnordered then unordered[0] else ordered[0];
      var short: bool;
      n, short := CopyOut(s.chunks, buf);
      if short { return n, 0, ShortBuffer; }
      if isUnordered {
        HeldFirst(unordered);
        unordered := unordered[1..];
      } else {
        HeldFirst(ordered);
        ordered := ordered[1..];
        if s.ssn == nextSSN { nextSSN := Next16(nextSSN); }
      }
      nBytes := SubtractNumBytes(nBytes, n);
      return n, s.ppi, NoError;
    }

    /** Drops the incomplete sets up to lastSSN and nothing else. */
    method ForwardTSNForOrdered(lastSSN: uint16)
      requires Valid()
      modifies this`ordered, this`nextSSN, this`nBytes
      ensures Valid() && Value() == ForwardOrdered(old(Value()), lastSSN)
      ensures old(Counted()) ==> Counted()
    {
      hide Joined, Stored, Complete, Lte16, Kept;
      var keep: seq<ChunkSet> := [];
      ghost var was := nBytes;
      KeptNext(ordered, lastSSN, 0);
      KeptNonEmpty(ordered, lastSSN);
      assert Held(ordered[..0]) == [];
      for i := 0 to |ordered|
        modifies this`nBytes
        invariant keep == Kept(ordered[..i], lastSSN)
        invariant Stored(Held(keep)) <= Stored(Held(ordered[..i]))
        invariant nBytes == SubtractNumBytes(was, Stored(Held(ordered[..i])) - Stored(Held(keep)))
      {
        var s := ordered[i];
        KeptNext(ordered, lastSSN, i);
        assert ordered[..i + 1] == ordered[..i] + [s];
        HeldNext(ordered[..i], s);
        HeldNext(keep, s);
        var complete := IsComplete(s.chunks, false);
        if Lte16(s.ssn, lastSSN) && !complete {
          nBytes := DropChunks(nBytes, s.chunks);
          continue;
        }
        keep := keep + [s];
      }
      assert ordered[..|ordered|] == ordered;
      ordered := keep;
      if Lte16(nextSSN, lastSSN) { nextSSN := Next16(lastSSN); }
    }

    /** Drops the loose chunks up to the new cumulative TSN. */
    method ForwardTSNForUnordered(cum: uint32) returns (ghost k: nat)
      modifies this`unorderedChunks, this`nBytes
      ensures Forwarded(old(unorderedChunks), cum, k) && unorderedChunks == old(unorderedChunks)[k..]
      ensures old(Counted()) ==> Counted()
    {
      hide Joined, Stored, Held, Gt32, Lte32, Dist;
      var lastIdx := -1;
      for i := 0 to |unorderedChunks|
        modifies {}
        invariant lastIdx == i - 1
        invariant forall j :: 0 <= j < i ==> Lte32(unorderedChunks[j].tsn, cum)
      {
        Compare(unorderedChunks[i].tsn, cum);
        if Gt32(unorderedChunks[i].tsn, cum) { break; }
        lastIdx := i;
      }
      k := lastIdx + 1;
      assert unorderedChunks[..lastIdx + 1] + unorderedChunks[lastIdx + 1..] == unorderedChunks;
      JoinedAppend(unorderedChunks[..lastIdx + 1], unorderedChunks[lastIdx + 1..]);
      if lastIdx >= 0 {
        nBytes := DropChunks(nBytes, unorderedChunks[..lastIdx + 1]);
        unorderedChunks := unorderedChunks[lastIdx + 1..];
      }
    }
  }

  lemma {:induction false} CutBytes(cs: seq<Fragment>, i: nat, e: nat)
    requires i <= e <= |cs|
    ensures |Joined(cs)| == |Joined(cs[..i] + cs[e..])| + |Joined(cs[i..e])|
  {
    assert cs == cs[..i] + cs[i..e] + cs[e..];
    JoinedAppend(cs[..i] + cs[i..e], cs[e..]);
    JoinedAppend(cs[..i], cs[i..e]);
    JoinedAppend(cs[..i], cs[e..]);
  }

  lemma {:induction false} KeptNonEmpty(sets: seq<ChunkSet>, last: uint16)
    requires NonEmpty(sets)
    ensures NonEmpty(Kept(sets, last))
  {
    var kept := Kept(sets, last);
    forall i | 0 <= i < |kept| ensures kept[i].chunks != [] {
      assert kept[i] in kept;
      KeptIff(sets, last, kept[i]);
    }
  }

  /** A chunk that comes twice is counted twice: with its set still waiting for the rest, a
      byte that is held once is counted as two. */
  lemma {:induction false} CountDrifts()
    ensures var c := Fragment(1, 0, 0, 0, 0, false, false, true, false, 7, [0]);
            && PushOrderedTo(EMPTY, c).0 == EMPTY.(ordered := [ChunkSet(0, 7, [c])])
            && Repeats([ChunkSet(0, 7, [c])], c)
            && PushOrderedTo(PushOrderedTo(EMPTY, c).0, c).0 == PushOrderedTo(EMPTY, c).0
            && Stored(Held([ChunkSet(0, 7, [c])])) == 1 < |c.data| + |c.data|
  {
    var c := Fragment(1, 0, 0, 0, 0, false, false, true, false, 7, [0]);
    var s := ChunkSet(0, 7, [c]);
    assert Find([], c, 0) == 0 && InsertAt([], 0) == 0;
    assert InsertSet([], ChunkSet(0, 7, [])) == [ChunkSet(0, 7, [])];
    assert Insert([], c, false) == [c];
    assert PushSets([], c).0 == [s];
    assert Matches(s, c) && Find([s], c, 0) == 0;
    assert s.chunks[0].tsn == c.tsn;
    PushKeeps([s], c);
    assert Held([s]) == [[c]];
    StoredOne([c]);
    JoinedOne(c);
  }

  /** What FORWARD-TSN keeps. */
  function Kept(sets: seq<ChunkSet>, last: uint16): seq<ChunkSet> {
    if sets == [] then []
    else
      var s := sets[|sets| - 1];
      var before := Kept(sets[..|sets| - 1], last);
      if Lte16(s.ssn, last) && !Complete(s.chunks, false) then before else before + [s]
  }

  lemma {:induction false} KeptNext(sets: seq<ChunkSet>, last: uint16, i: nat)
    requires i <= |sets|
    ensures Kept(sets[..0], last) == []
    ensures i < |sets| ==>
              Kept(sets[..i + 1], last) ==
              if Lte16(sets[i].ssn, last) && !Complete(sets[i].chunks, false) then Kept(sets[..i], last)
              else Kept(sets[..i], last) + [sets[i]]
  {
    if i < |sets| { assert sets[..i + 1][..i] == sets[..i]; }
  }

  /** No incomplete set up to last survives, everything else does, in the same order. */
  lemma {:induction false} KeptIff(sets: seq<ChunkSet>, last: uint16, s: ChunkSet)
    ensures s in Kept(sets, last) <==> s in sets && (Complete(s.chunks, false) || !Lte16(s.ssn, last))
  {
    if sets != [] {
      var n := |sets| - 1;
      assert sets == sets[..n] + [sets[n]];
      hide Complete, Lte16;
      KeptIff(sets[..n], last, s);
    }
  }
}
