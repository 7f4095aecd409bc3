/** Sets of fragments kept in serial order, and when one is a whole message.

    A chunk set sorts by TSN, a chunk set of an I-DATA message by fragment sequence
    number; `byFsn` says which. The code appends and sorts; `Insert` puts the chunk
    where sorting leaves it. */
module ChunkSets {
  import opened Serial
  import opened Fragments

  function Key(c: Fragment, byFsn: bool): uint32 { if byFsn then c.fsn else c.tsn }

  function Insert(cs: seq<Fragment>, c: Fragment, byFsn: bool): (r: seq<Fragment>)
    ensures |r| == |cs| + 1 && multiset(r) == multiset(cs) + multiset{c}
  {
    if cs == [] then [c]
    else
      var n := |cs| - 1;
      assert cs == cs[..n] + [cs[n]];
      if Lt32(Key(c, byFsn), Key(cs[n], byFsn)) then Insert(cs[..n], c, byFsn) + [cs[n]] else cs + [c]
  }

  /** Keys ascend, seen from a base less than half the space below them. */
  ghost predicate Sorted(cs: seq<Fragment>, base: uint32, byFsn: bool) {
    && (forall i :: 0 <= i < |cs| ==> Dist(base, Key(cs[i], byFsn)) < HALF32)
    && forall i, j :: 0 <= i < j < |cs| ==> Dist(base, Key(cs[i], byFsn)) < Dist(base, Key(cs[j], byFsn))
  }

  lemma {:induction false} SerialIsOffset(base: uint32, a: uint32, b: uint32)
    requires Dist(base, a) < HALF32 && Dist(base, b) < HALF32
    ensures Lt32(a, b) <==> Dist(base, a) < Dist(base, b)
    ensures a == b <==> Dist(base, a) == Dist(base, b)
  {
  }

  /** Inserting a chunk with a new key is sorting. */
  lemma {:induction false} InsertSorts(cs: seq<Fragment>, c: Fragment, base: uint32, byFsn: bool)
    requires Sorted(cs, base, byFsn) && Dist(base, Key(c, byFsn)) < HALF32
    requires forall i :: 0 <= i < |cs| ==> Key(cs[i], byFsn) != Key(c, byFsn)
    ensures Sorted(Insert(cs, c, byFsn), base, byFsn)
  {
    hide Dist, Lt32, Key;
    if cs != [] {
      var n := |cs| - 1;
      SerialIsOffset(base, Key(c, byFsn), Key(cs[n], byFsn));
      if Lt32(Key(c, byFsn), Key(cs[n], byFsn)) {
        InsertSorts(cs[..n], c, base, byFsn);
        InsertBelow(cs, c, base, byFsn);
      }
    }
  }

  lemma {:induction false} InsertBelow(cs: seq<Fragment>, c: Fragment, base: uint32, byFsn: bool)
    requires cs != [] && Sorted(cs, base, byFsn)
    requires Dist(base, Key(c, byFsn)) < Dist(base, Key(cs[|cs| - 1], byFsn))
    ensures var r := Insert(cs[..|cs| - 1], c, byFsn);
            forall i :: 0 <= i < |r| ==> Dist(base, Key(r[i], byFsn)) < Dist(base, Key(cs[|cs| - 1], byFsn))
  {
    hide Dist, Lt32, Key;
    var n := |cs| - 1;
    var r := Insert(cs[..n], c, byFsn);
    forall i | 0 <= i < |r| ensures Dist(base, Key(r[i], byFsn)) < Dist(base, Key(cs[n], byFsn)) {
      assert r[i] in multiset(cs[..n]) + multiset{c};
    }
  }

  /** Insertion moves no bytes but those of the new chunk. */
  lemma {:induction false} InsertBytes(cs: seq<Fragment>, c: Fragment, byFsn: bool)
    ensures |Joined(Insert(cs, c, byFsn))| == |Joined(cs)| + |c.data|
  {
    JoinedOne(c);
    if cs != [] {
      var n := |cs| - 1;
      if Lt32(Key(c, byFsn), Key(cs[n], byFsn)) {
        InsertBytes(cs[..n], c, byFsn);
        JoinedAppend(Insert(cs[..n], c, byFsn), [cs[n]]);
        JoinedOne(cs[n]);
      } else {
        JoinedAppend(cs, [c]);
      }
    }
  }

  /** isComplete of both kinds of set. */
  predicate Complete(cs: seq<Fragment>, byFsn: bool) {
    && cs != [] && cs[0].first && cs[|cs| - 1].last && (byFsn ==> cs[0].fsn == 0)
    && forall i :: 1 <= i < |cs| ==> Follows(cs, i, byFsn)
  }

  predicate Follows(cs: seq<Fragment>, i: nat, byFsn: bool)
    requires 1 <= i < |cs|
  {
    Key(cs[i], byFsn) == Add(Key(cs[i - 1], byFsn), 1)
  }

  method IsComplete(cs: seq<Fragment>, byFsn: bool) returns (r: bool)
    ensures r == Complete(cs, byFsn)
  {
    if |cs| == 0 { return false; }
    if !cs[0].first { return false; }
    if !cs[|cs| - 1].last { return false; }
    if byFsn && cs[0].fsn != 0 { return false; }
    var prev: uint32 := Key(cs[0], byFsn);
    for i := 0 to |cs|
      invariant forall j :: 1 <= j < i ==> Follows(cs, j, byFsn)
      invariant i > 0 ==> prev == Key(cs[i - 1], byFsn)
    {
      if i > 0 && Key(cs[i], byFsn) != Add(prev, 1) {
        assert !Follows(cs, i, byFsn);
        return false;
      }
      prev := Key(cs[i], byFsn);
    }
    return true;
  }

  datatype ReadError = NoError | TryAgain | ShortBuffer

  /** The copying loop of read. */
  method CopyOut(cs: seq<Fragment>, buf: array<byte>) returns (n: nat, short: bool)
    modifies buf
    ensures n == |Joined(cs)| && (short <==> n > buf.Length)
    ensures !short ==> buf[..n] == Joined(cs) && buf[n..] == old(buf[n..])
  {
    n, short := 0, false;
    assert cs[..0] == [];
    for i := 0 to |cs|
      invariant n == |Joined(cs[..i])| && (short <==> n > buf.Length)
      invariant !short ==> buf[..n] == Joined(cs[..i]) && buf[n..] == old(buf[n..])
    {
      var data := cs[i].data;
      assert cs[..i + 1][..i] == cs[..i];
      if buf.Length - n < |data| {
        short := true;
      } else {
        CopyInto(buf, n, data);
      }
      n := n + |data|;
    }
    assert cs[..|cs|] == cs;
  }

  method CopyInto(buf: array<byte>, at: nat, data: seq<byte>)
    requires at + |data| <= buf.Length
    modifies buf
    ensures buf[..at + |data|] == old(buf[..at]) + data
    ensures buf[at + |data|..] == old(buf[at + |data|..])
  {
    for j := 0 to |data|
      invariant buf[..at] == old(buf[..at]) && buf[at..at + j] == data[..j]
      invariant buf[at + j..] == old(buf[at + j..])
    {
      buf[at + j] := data[j];
      assert buf[at..at + j + 1] == buf[at..at + j] + [data[j]];
    }
    assert buf[..at + |data|] == buf[..at] + buf[at..at + |data|];
  }

  /** subtractNumBytes saturates at zero. */
  function SubtractNumBytes(nBytes: nat, n: nat): nat { if nBytes >= n then nBytes - n else 0 }

  /** Gives back the bytes of chunks one by one, and so all of them at once. */
  method DropChunks(nBytes: nat, cs: seq<Fragment>) returns (r: nat)
    ensures r == SubtractNumBytes(nBytes, |Joined(cs)|)
  {
    r := nBytes;
    assert cs[..0] == [];
    for i := 0 to |cs|
      invariant r == SubtractNumBytes(nBytes, |Joined(cs[..i])|)
    {
      assert cs[..i + 1][..i] == cs[..i];
      r := SubtractNumBytes(r, |cs[i].data|);
    }
    assert cs[..|cs|] == cs;
  }

  // ------------------------------------------------------------- bytes held

  /** The bytes of several sets. */
  function Stored(held: seq<seq<Fragment>>): nat {
    if held == [] then 0 else Stored(held[..|held| - 1]) + |Joined(held[|held| - 1])|
  }

  lemma {:induction false} StoredAppend(a: seq<seq<Fragment>>, b: seq<seq<Fragment>>)
    ensures Stored(a + b) == Stored(a) + Stored(b)
  {
    if b == [] {
      assert a + b == a;
    } else {
      assert (a + b)[..|a + b| - 1] == a + b[..|b| - 1];
      StoredAppend(a, b[..|b| - 1]);
    }
  }

  lemma {:induction false} StoredOne(cs: seq<Fragment>)
    ensures Stored([cs]) == |Joined(cs)| && Stored([]) == 0
  {
    assert [cs][..0] == [];
  }

  lemma {:induction false} StoredUpdate(held: seq<seq<Fragment>>, k: nat, cs: seq<Fragment>)
    requires k < |held|
    ensures Stored(held[k := cs]) == Stored(held) - |Joined(held[k])| + |Joined(cs)|
  {
    var a, b := held[..k], held[k + 1..];
    assert held == a + [held[k]] + b && held[k := cs] == a + [cs] + b;
    StoredAppend(a + [held[k]], b);
    StoredAppend(a, [held[k]]);
    StoredAppend(a + [cs], b);
    StoredAppend(a, [cs]);
    StoredOne(cs);
    StoredOne(held[k]);
  }

  lemma {:induction false} StoredFirst(held: seq<seq<Fragment>>)
    requires held != []
    ensures Stored(held) == |Joined(held[0])| + Stored(held[1..])
  {
    assert held == [held[0]] + held[1..];
    StoredAppend([held[0]], held[1..]);
    StoredOne(held[0]);
  }

  lemma {:induction false} StoredEmpty(held: seq<seq<Fragment>>, k: nat)
    requires k <= |held|
    ensures Stored(held[..k] + [[]] + held[k..]) == Stored(held)
  {
    assert held == held[..k] + held[k..];
    StoredAppend(held[..k], held[k..]);
    StoredAppend(held[..k] + [[]], held[k..]);
    StoredAppend(held[..k], [[]]);
    StoredOne([]);
  }

  // ------------------------------------------------------- parts of a message

  /** The places of d below k, ascending. */
  function Places(d: set<nat>, k: nat): (r: seq<nat>)
    ensures forall j :: 0 <= j < |r| ==> r[j] < k && r[j] in d
    ensures forall i, j :: 0 <= i < j < |r| ==> r[i] < r[j]
  {
    if k == 0 then [] else if k - 1 in d then Places(d, k - 1) + [k - 1] else Places(d, k - 1)
  }

  /** The fragments at these places. */
  function At(fs: seq<Fragment>, places: seq<nat>): seq<Fragment>
    requires forall j :: 0 <= j < |places| ==> places[j] < |fs|
  {
    seq(|places|, j requires 0 <= j < |places| => fs[places[j]])
  }

  function Pick(fs: seq<Fragment>, d: set<nat>): seq<Fragment> { At(fs, Places(d, |fs|)) }

  /** The serial order of a fragment that arrives, against those that are there, is the order
      of their places. */
  ghost predicate Comes(fs: seq<Fragment>, d: set<nat>, i: nat, byFsn: bool)
    requires i < |fs|
  {
    forall j :: j in d && j < |fs| ==> (Lt32(Key(fs[i], byFsn), Key(fs[j], byFsn)) <==> i < j)
  }

  /** Such a fragment takes its own place, whatever arrived before it. */
  lemma {:induction false} InsertPick(fs: seq<Fragment>, d: set<nat>, i: nat, byFsn: bool)
    requires i < |fs| && i !in d && Comes(fs, d, i, byFsn)
    ensures Insert(Pick(fs, d), fs[i], byFsn) == Pick(fs, d + {i})
  {
    InsertPlace(fs, d, i, |fs|, byFsn);
  }

  lemma {:induction false} InsertPlace(fs: seq<Fragment>, d: set<nat>, i: nat, k: nat, byFsn: bool)
    requires i < k <= |fs| && i !in d && Comes(fs, d, i, byFsn)
    ensures Insert(At(fs, Places(d, k)), fs[i], byFsn) == At(fs, Places(d + {i}, k))
    decreases k
  {
    hide Lt32, Key, At, Insert;
    if k - 1 == i {
      InsertHere(fs, d, i, byFsn);
    } else {
      InsertPlace(fs, d, i, k - 1, byFsn);
      if k - 1 in d {
        var p, q := Places(d, k - 1), Places(d + {i}, k - 1);
        AtNext(fs, p, k - 1);
        AtNext(fs, q, k - 1);
        InsertBefore(At(fs, p), fs[k - 1], fs[i], byFsn);
      }
    }
  }

  /** All the others are before it. */
  lemma {:induction false} InsertHere(fs: seq<Fragment>, d: set<nat>, i: nat, byFsn: bool)
    requires i < |fs| && i !in d && Comes(fs, d, i, byFsn)
    ensures Insert(At(fs, Places(d, i + 1)), fs[i], byFsn) == At(fs, Places(d + {i}, i + 1))
  {
    hide Lt32, Key, At, Insert;
    var p := Places(d, i);
    PlacesSame(d, d + {i}, i);
    AtNext(fs, p, i);
    if p == [] {
      AtNone(fs);
    } else {
      assert p[|p| - 1] in d;
      AtLast(fs, p);
    }
    InsertLast(At(fs, p), fs[i], byFsn);
  }

  lemma {:induction false} InsertLast(cs: seq<Fragment>, c: Fragment, byFsn: bool)
    requires cs != [] ==> !Lt32(Key(c, byFsn), Key(cs[|cs| - 1], byFsn))
    ensures Insert(cs, c, byFsn) == cs + [c]
  {
  }

  lemma {:induction false} InsertBefore(cs: seq<Fragment>, x: Fragment, c: Fragment, byFsn: bool)
    requires Lt32(Key(c, byFsn), Key(x, byFsn))
    ensures Insert(cs + [x], c, byFsn) == Insert(cs, c, byFsn) + [x]
  {
    assert (cs + [x])[..|cs|] == cs;
  }

  lemma {:induction false} AtNext(fs: seq<Fragment>, p: seq<nat>, i: nat)
    requires i < |fs| && forall j :: 0 <= j < |p| ==> p[j] < |fs|
    ensures At(fs, p + [i]) == At(fs, p) + [fs[i]]
    ensures (At(fs, p) + [fs[i]])[..|At(fs, p)|] == At(fs, p)
  {
  }

  lemma {:induction false} AtLast(fs: seq<Fragment>, p: seq<nat>)
    requires p != [] && forall j :: 0 <= j < |p| ==> p[j] < |fs|
    ensures At(fs, p) != [] && At(fs, p)[|At(fs, p)| - 1] == fs[p[|p| - 1]]
  {
  }

  lemma {:induction false} AtNone(fs: seq<Fragment>)
    ensures At(fs, []) == []
  {
  }

  lemma {:induction false} PlacesSame(d: set<nat>, e: set<nat>, k: nat)
    requires forall x :: x < k ==> (x in d <==> x in e)
    ensures Places(d, k) == Places(e, k)
  {
    if k > 0 { PlacesSame(d, e, k - 1); }
  }

  lemma {:induction false} PlacesAll(d: set<nat>, k: nat)
    requires forall x :: 0 <= x < k ==> x in d
    ensures |Places(d, k)| == k && forall j :: 0 <= j < k ==> Places(d, k)[j] == j
  {
    if k > 0 { PlacesAll(d, k - 1); }
  }

  /** All the fragments of one message, numbered along the line without a gap. */
  ghost predicate Whole(fs: seq<Fragment>, base: uint32, byFsn: bool) {
    && 0 < |fs| < HALF32 && (byFsn ==> base == 0)
    && forall i :: 0 <= i < |fs| ==>
         Key(fs[i], byFsn) == Add(base, i) && fs[i].first == (i == 0) && fs[i].last == (i == |fs| - 1)
  }

  lemma {:induction false} WholeComes(fs: seq<Fragment>, base: uint32, d: set<nat>, i: nat, byFsn: bool)
    requires Whole(fs, base, byFsn) && i < |fs|
    ensures Comes(fs, d, i, byFsn)
  {
    forall j | j in d && j < |fs| ensures Lt32(Key(fs[i], byFsn), Key(fs[j], byFsn)) <==> i < j {
      assert Key(fs[i], byFsn) == Add(base, i) && Key(fs[j], byFsn) == Add(base, j);
      OffsetOrder(base, i, j);
    }
  }

  /** A set is complete if and only if every fragment of the message is there. */
  lemma {:induction false} CompleteIff(fs: seq<Fragment>, d: set<nat>, base: uint32, byFsn: bool)
    requires Whole(fs, base, byFsn)
    ensures Complete(Pick(fs, d), byFsn) <==> forall x :: 0 <= x < |fs| ==> x in d
    ensures (forall x :: 0 <= x < |fs| ==> x in d) ==> Pick(fs, d) == fs
  {
    hide Follows, Key, Add;
    if forall x :: 0 <= x < |fs| ==> x in d {
      PlacesAll(d, |fs|);
      assert Pick(fs, d) == fs;
      hide Places, At;
      WholeFollows(fs, base, byFsn);
    } else if Complete(Pick(fs, d), byFsn) {
      var p := Places(d, |fs|);
      ConsecutivePlaces(fs, d, base, byFsn, |p| - 1);
      PlaceOfEach(p, d, fs);
    }
  }

  lemma {:induction false} WholeFollows(fs: seq<Fragment>, base: uint32, byFsn: bool)
    requires Whole(fs, base, byFsn)
    ensures Complete(fs, byFsn)
  {
    forall i | 1 <= i < |fs| ensures Follows(fs, i, byFsn) {
      assert Key(fs[i], byFsn) == Add(base, i) && Key(fs[i - 1], byFsn) == Add(base, i - 1);
    }
  }

  lemma {:induction false} ConsecutivePlaces(fs: seq<Fragment>, d: set<nat>, base: uint32, byFsn: bool, j: nat)
    requires Whole(fs, base, byFsn) && Complete(Pick(fs, d), byFsn) && j < |Places(d, |fs|)|
    ensures forall i :: 0 <= i <= j ==> Places(d, |fs|)[i] == i
  {
    var p, cs := Places(d, |fs|), Pick(fs, d);
    assert cs[j] == fs[p[j]];
    if j > 0 {
      ConsecutivePlaces(fs, d, base, byFsn, j - 1);
      assert cs[j - 1] == fs[p[j - 1]] && Follows(cs, j, byFsn);
    }
  }

  lemma {:induction false} PlaceOfEach(p: seq<nat>, d: set<nat>, fs: seq<Fragment>)
    requires p == Places(d, |fs|) && p != [] && fs != []
    requires forall i :: 0 <= i < |p| ==> p[i] == i
    requires p[|p| - 1] == |fs| - 1
    ensures forall x :: 0 <= x < |fs| ==> x in d
  {
    forall x | 0 <= x < |fs| ensures x in d { assert p[x] in d; }
  }

  lemma {:induction false} NoPlaces(k: nat)
    ensures Places({}, k) == []
  {
    if k > 0 { NoPlaces(k - 1); }
  }

  /** The chunks of packetize, sent under consecutive TSNs, are a whole message in either
      numbering. */
  lemma {:induction false} MessageIsWhole(fs: seq<Fragment>, raw: seq<byte>, ppi: uint32, base: uint32)
    requires Message(fs, raw, ppi) && raw != [] && |fs| < HALF32
    requires forall i :: 0 <= i < |fs| ==> fs[i].tsn == Add(base, i)
    ensures Whole(fs, base, false) && Whole(fs, 0, true)
  {
    forall i | 0 <= i < |fs|
      ensures fs[i].fsn == i && fs[i].first == (i == 0) && fs[i].last == (i == |fs| - 1)
    {
      assert Piece(fs, i, ppi);
    }
  }
}
