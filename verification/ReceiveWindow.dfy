/** The receive window: a ring of 64-bit words indexed by TSN.

    `Window` is what the window is for - a cumulative TSN and the plain set of
    TSNs received above it. The lemmas say when the ring's bits can stand for that set,
    and that each change of the bits is then the same change of the set. */
module ReceiveWindow {
  import opened Serial
  import opened Bits

  // ------------------------------------------------------------ the set view

  datatype Window = Window(cum: uint32, recv: set<uint32>, size: uint32) {
    predicate Covers(t: uint32) { 1 <= Dist(cum, t) <= size }

    ghost predicate Valid() {
      && 0 < size <= 0xFFFF
      && forall t: uint32 :: t in recv ==> Covers(t)
    }

    /** Push accepts exactly the new TSNs in (cum, cum + size]. */
    predicate Accepts(t: uint32) { Covers(t) && t !in recv }

    /** The TSNs push records as duplicates. */
    predicate Duplicate(t: uint32) {
      t in recv || Dist(cum, t) == 0 || Dist(cum, t) > size + HALF32
    }

    function Push(t: uint32): Window {
      if Accepts(t) then this.(recv := recv + {t}) else this
    }

    function Pop(force: bool): Window {
      var t := Add(cum, 1);
      if t in recv then this.(cum := t, recv := recv - {t})
      else if force then this.(cum := t)
      else this
    }

    /** Move the cumulative TSN forward, forgetting what it now covers. */
    function Advance(c: uint32): Window {
      if Lt32(cum, c)
      then this.(cum := c, recv := set t | t in recv && Dist(cum, t) > Dist(cum, c))
      else this
    }

    /** The received TSNs as offsets from the cumulative TSN. */
    ghost function Offsets(): set<nat> {
      set t | t in recv :: Dist(cum, t) as nat
    }

    /** The highest TSN received, or the cumulative TSN when there is none. */
    ghost predicate IsTail(t: uint32) {
      if recv == {} then t == cum
      else t in recv && forall u :: u in recv ==> Dist(cum, u) <= Dist(cum, t)
    }
  }

  lemma {:induction false} OffsetsMember(w: Window, d: nat)
    requires d < TWO32
    ensures d in w.Offsets() <==> Add(w.cum, d) in w.recv
  {
    if Add(w.cum, d) in w.recv { assert Dist(w.cum, Add(w.cum, d)) == d; }
  }

  // ---------------------------------------------------------------- the ring

  /** The ring's bit for a TSN: word (tsn / 64) mod len, bit tsn mod 64. */
  predicate At(words: seq<uint64>, t: uint32)
    requires |words| > 0
  {
    Bit(words[(t / 64) % |words|], t % 64)
  }

  function WithBit(words: seq<uint64>, t: uint32): seq<uint64>
    requires |words| > 0
  {
    var i := (t / 64) % |words|;
    words[i := SetBit(words[i], t % 64)]
  }

  function WithoutBit(words: seq<uint64>, t: uint32): seq<uint64>
    requires |words| > 0
  {
    var i := (t / 64) % |words|;
    words[i := ClearBit(words[i], t % 64)]
  }

  predicate SameSlot(len: nat, t: uint32, u: uint32)
    requires len > 0
  {
    (t / 64) % len == (u / 64) % len && t % 64 == u % 64
  }

  /** When no two TSNs of the window share a slot: the ring length divides 2^26,
      or the window does not hold TSNs from both ends of the 32-bit space. */
  predicate WindowOk(cum: uint32, len: nat)
    requires len > 0
  {
    0x400_0000 % len == 0 || cum + 64 * len < TWO32 || cum == TWO32 - 1
  }

  lemma {:induction false} SlotIsResidue(t: uint32, len: nat)
    requires len > 0
    ensures t % (64 * len) == 64 * ((t / 64) % len) + t % 64
  {
    var q := t / 64;
    var a, b := q / len, q % len;
    assert t == 64 * (len * a + b) + t % 64;
    assert 64 * (len * a) == (64 * len) * a;
    ModUnique(t, 64 * len, a, 64 * b + t % 64);
  }

  lemma {:induction false} SameSlotIff(len: nat, t: uint32, u: uint32)
    requires len > 0
    ensures SameSlot(len, t, u) <==> t % (64 * len) == u % (64 * len)
  {
    SlotIsResidue(t, len);
    SlotIsResidue(u, len);
  }

  lemma {:induction false} EqualResidues(x: int, y: int, m: int)
    requires m > 0 && x % m == y % m && -m < x - y < m
    ensures x == y
  {
    var d := x / m - y / m;
    MulDistributes(m, x / m, y / m);
    MulSmall(m, d);
  }

  lemma {:induction false} AlignedWrap(t: int, len: nat)
    requires len > 0 && 0x400_0000 % len == 0
    ensures (t + TWO32) % (64 * len) == t % (64 * len)
  {
    var k := 0x400_0000 / len;
    assert TWO32 == 64 * (len * k) == (64 * len) * k;
    ModShift(t, k, 64 * len);
  }

  lemma {:induction false} NoSharing(w: Window, len: nat, t: uint32, u: uint32)
    requires len > 0 && w.size == 64 * len && WindowOk(w.cum, len)
    requires w.Covers(t) && w.Covers(u) && SameSlot(len, t, u)
    ensures t == u
  {
    hide SameSlot;
    if t < u - w.size {
      WrappedOnce(len, t, u);
    } else if u < t - w.size {
      WrappedOnce(len, u, t);
    } else {
      SharedOnce(len, t, u);
    }
  }

  lemma {:induction false} SharedOnce(len: nat, t: uint32, u: uint32)
    requires len > 0 && SameSlot(len, t, u) && -64 * len < t - u < 64 * len
    ensures t == u
  {
    hide SameSlot;
    SameSlotIff(len, t, u);
    EqualResidues(t, u, 64 * len);
  }

  /** In a ring that divides the circle, a TSN after the wrap shares no slot with one of the
      same window before it. */
  lemma {:induction false} WrappedOnce(len: nat, t: uint32, u: uint32)
    requires len > 0 && 0x400_0000 % len == 0 && -64 * len < t + TWO32 - u < 64 * len
    ensures !SameSlot(len, t, u) && !SameSlot(len, u, t)
  {
    hide SameSlot;
    SameSlotIff(len, t, u);
    SameSlotIff(len, u, t);
    AlignedWrap(t, len);
    if SameSlot(len, t, u) || SameSlot(len, u, t) { EqualResidues(t + TWO32, u, 64 * len); }
  }

  /** The exact condition: slots are pairwise distinct over the window if and only
      if `WindowOk`; otherwise two TSNs of the window share a bit. */
  lemma {:induction false} SlotsDistinctIff(w: Window, len: nat)
    requires len > 0 && w.size == 64 * len
    ensures WindowOk(w.cum, len) <==>
            forall t, u :: w.Covers(t) && w.Covers(u) && SameSlot(len, t, u) ==> t == u
  {
    if WindowOk(w.cum, len) {
      forall t, u | w.Covers(t) && w.Covers(u) && SameSlot(len, t, u) ensures t == u {
        NoSharing(w, len, t, u);
      }
    } else {
      var t, u := Collision(w, len);
    }
  }

  lemma {:induction false} Collision(w: Window, len: nat) returns (t: uint32, u: uint32)
    requires len > 0 && w.size == 64 * len && !WindowOk(w.cum, len)
    ensures w.Covers(t) && w.Covers(u) && SameSlot(len, t, u) && Dist(w.cum, t) < Dist(w.cum, u)
  {
    hide SameSlot;
    var m := 64 * len;
    NotAligned(len);
    t, u := CollidingPair(TWO32 - 1 - w.cum, m);
    SameSlotIff(len, t, u);
  }

  /** k TSNs lie before the wrap, m - k after it; 2^32 is no multiple of m. */
  lemma {:induction false} CollidingPair(k: nat, m: nat) returns (t: uint32, u: uint32)
    requires 0 < k < m < TWO32 && TWO32 % m != 0
    ensures TWO32 - k <= t && u < m - k && t % m == u % m
  {
    var r := TWO32 % m;
    Residue(m);
    if r <= k {
      t, u := TWO32 - r, 0;
      ResidueOf(m, r, t, 0);
    } else {
      t, u := TWO32 - k, r - k;
      ResidueOf(m, r, t, u);
    }
  }

  lemma {:induction false} Residue(m: nat)
    requires 0 < m
    ensures 0 <= TWO32 % m < m && TWO32 == m * (TWO32 / m) + TWO32 % m
  {
  }

  /** A number that lies r - u below 2^32 has the residue u. */
  lemma {:induction false} ResidueOf(m: nat, r: nat, t: nat, u: nat)
    requires 0 < m && r == TWO32 % m && u <= r && t == TWO32 - (r - u)
    ensures t % m == u % m
  {
    Residue(m);
    ModUnique(t, m, TWO32 / m, u);
    ModUnique(u, m, 0, u);
  }

  lemma {:induction false} NotAligned(len: nat)
    requires len > 0 && 0x400_0000 % len != 0
    ensures TWO32 % (64 * len) != 0
  {
    var q := TWO32 / (64 * len);
    if TWO32 % (64 * len) == 0 {
      assert 0x400_0000 == len * q by { assert 64 * (len * q) == (64 * len) * q; }
      ModUnique(0x400_0000, len, q, 0);
    }
  }

  /** getMaxTSNOffset, with the code's constants; the product wraps at 32 bits. */
  function GetMaxTSNOffset(maxReceiveBufferSize: uint32): (r: uint32)
    ensures 2000 <= r <= 40000
    ensures r > 2000 ==> 500 * r <= (4 * maxReceiveBufferSize) % TWO32
    ensures r < 40000 ==> (4 * maxReceiveBufferSize) % TWO32 < 500 * (r + 1)
  {
    var v := ((maxReceiveBufferSize * 4) % TWO32) / 500;
    if v < 2000 then 2000 else if v > 40000 then 40000 else v
  }

  /** Words allocated by newReceivePayloadQueue. */
  function RingLength(maxTSNOffset: uint32): nat { (maxTSNOffset + 63) / 64 }

  /** The ring agrees with the set on every TSN of the window. */
  ghost predicate Agrees(words: seq<uint64>, w: Window)
    requires |words| > 0
  {
    forall t: uint32 :: w.Covers(t) ==> (At(words, t) <==> t in w.recv)
  }

  lemma {:induction false} SetAgrees(words: seq<uint64>, w: Window, t: uint32)
    requires |words| > 0 && w.size == 64 * |words| && WindowOk(w.cum, |words|)
    requires Agrees(words, w) && w.Accepts(t)
    ensures Agrees(WithBit(words, t), w.Push(t))
  {
    forall u: uint32 | w.Covers(u)
      ensures At(WithBit(words, t), u) <==> u in w.recv + {t}
    {
      SetBitAt(words[(t / 64) % |words|], t % 64, u % 64);
      if SameSlot(|words|, t, u) { NoSharing(w, |words|, t, u); }
    }
  }

  /** Stepping the window by one: the slot that enters is the slot that left. */
  lemma {:induction false} StepCovers(w: Window, u: uint32)
    requires w.Valid()
    ensures var w' := Window(Add(w.cum, 1), {}, w.size);
            w'.Covers(u) <==> (w.Covers(u) && u != Add(w.cum, 1)) || u == Add(w.cum, 1 + w.size)
  {
  }

  /** A TSN that enters when the window moves by a takes a slot that has left. */
  lemma {:induction false} EnteringSlot(cum: uint32, len: nat, a: nat, j: nat)
    requires len > 0 && 64 * len <= 0xFFFF && 1 <= j <= a < 64 * len
    requires WindowOk(cum, len) && WindowOk(Add(cum, a), len)
    ensures SameSlot(len, Add(cum, j), Add(cum, j + 64 * len))
  {
    var t, u := Add(cum, j), Add(cum, j + 64 * len);
    SameSlotIff(len, t, u);
    ModShift(t, 1, 64 * len);
    if u != t + 64 * len { AlignedWrap(u, len); }
  }

  lemma {:induction false} PopAgrees(words: seq<uint64>, w: Window, words': seq<uint64>)
    requires |words| > 0 && w.Valid() && w.size == 64 * |words|
    requires WindowOk(w.cum, |words|) && WindowOk(Add(w.cum, 1), |words|)
    requires Agrees(words, w)
    requires var t := Add(w.cum, 1); words' == if t in w.recv then WithoutBit(words, t) else words
    ensures Agrees(words', w.Pop(true)) && w.Pop(true).Valid()
  {
    var t, len := Add(w.cum, 1), |words|;
    var w' := w.Pop(true);
    var last := Add(w.cum, 1 + w.size);
    EnteringSlot(w.cum, len, 1, 1);
    assert w.Covers(t);
    assert last !in w.recv by { StepCovers(w, last); }
    forall u: uint32 | w'.Covers(u)
      ensures At(words', u) <==> u in w'.recv
    {
      StepCovers(w, u);
      ClearBitAt(words[(t / 64) % len], t % 64, u % 64);
      if u != last && SameSlot(len, t, u) { NoSharing(w, len, t, u); }
    }
    forall u: uint32 | u in w'.recv
      ensures w'.Covers(u)
    {
      StepCovers(w, u);
    }
  }

  lemma {:induction false} PopTail(w: Window, tail: uint32)
    requires w.Valid() && w.IsTail(tail)
    ensures w.Pop(true).recv != {} ==> w.Pop(true).IsTail(tail)
    ensures w.recv != {} && w.Pop(true).recv == {} ==> tail == Add(w.cum, 1)
  {
    var t, w' := Add(w.cum, 1), w.Pop(true);
    forall u | u in w'.recv ensures Dist(w'.cum, u) == Dist(w.cum, u) - 1 {
      assert w.Covers(u);
    }
    if w.recv != {} && w'.recv == {} {
      assert tail in w.recv && tail !in w'.recv;
    } else if w'.recv != {} {
      var u :| u in w'.recv;
      assert Dist(w.cum, u) <= Dist(w.cum, tail);
    }
  }

  lemma {:induction false} AdvanceAgrees(words: seq<uint64>, w: Window, c: uint32)
    requires |words| > 0 && w.Valid() && w.size == 64 * |words|
    requires WindowOk(w.cum, |words|) && WindowOk(c, |words|)
    requires Agrees(words, w) && Dist(w.cum, c) < w.size
    requires forall t :: t in w.recv ==> Dist(w.cum, t) > Dist(w.cum, c)
    ensures Agrees(words, w.(cum := c)) && w.(cum := c).Valid()
    ensures forall t :: t in w.recv ==> Dist(c, t) == Dist(w.cum, t) - Dist(w.cum, c)
  {
    var a, w' := Dist(w.cum, c), w.(cum := c);
    forall u: uint32 | w'.Covers(u) ensures At(words, u) <==> u in w.recv { EnteringAgrees(words, w, c, u); }
    forall t | t in w.recv
      ensures Dist(c, t) == Dist(w.cum, t) - a && w'.Covers(t)
    {
      assert w.Covers(t);
    }
  }

  lemma {:induction false} SameBit(words: seq<uint64>, t: uint32, u: uint32)
    requires |words| > 0 && SameSlot(|words|, t, u)
    ensures At(words, t) == At(words, u)
  {
  }

  lemma {:induction false} EnteringAgrees(words: seq<uint64>, w: Window, c: uint32, u: uint32)
    requires |words| > 0 && w.Valid() && w.size == 64 * |words|
    requires WindowOk(w.cum, |words|) && WindowOk(c, |words|)
    requires Agrees(words, w) && Dist(w.cum, c) < w.size && w.(cum := c).Covers(u)
    requires forall t :: t in w.recv ==> Dist(w.cum, t) > Dist(w.cum, c)
    ensures At(words, u) <==> u in w.recv
  {
    hide At, SameSlot, WindowOk;
    var a, x := Dist(w.cum, c), Dist(w.cum, u);
    assert a < x <= a + w.size;
    if x > w.size {
      EnteringSlot(w.cum, |words|, a, x - w.size);
      SameBit(words, Add(w.cum, x - w.size), u);
      var t := Add(w.cum, x - w.size);
      assert Dist(w.cum, t) == x - w.size;
      assert w.Covers(t) && t !in w.recv;
      assert u == Add(w.cum, x);
    }
  }

  // --------------------------------------------- clearing a range of the ring

  /** What is left without the TSNs at the offsets lo..hi-1. */
  ghost function Drop(recv: set<uint32>, cum: uint32, lo: nat, hi: nat): set<uint32> {
    set t | t in recv && !(lo <= Dist(cum, t) < hi)
  }

  lemma {:induction false} DropDrop(recv: set<uint32>, cum: uint32, lo: nat, mid: nat, hi: nat)
    requires lo <= mid <= hi
    ensures Drop(Drop(recv, cum, lo, mid), cum, mid, hi) == Drop(recv, cum, lo, hi)
    ensures Drop(recv, cum, lo, lo) == recv
  {
  }

  /** The two ways to advance: past the tail, or short of it. */
  lemma {:induction false} AdvanceCase(w: Window, tail: uint32, c: uint32)
    requires w.Valid() && w.IsTail(tail) && Lt32(w.cum, c)
    ensures (w.recv == {} || Lte32(tail, c)) ==> w.Advance(c) == w.(cum := c, recv := {})
    ensures !(w.recv == {} || Lte32(tail, c)) ==>
              && 1 == Dist(w.cum, Add(w.cum, 1)) <= Dist(w.cum, c) < w.size
              && Drop(w.recv, w.cum, 1, Dist(w.cum, c) + 1) == w.Advance(c).recv
              && w.Advance(c).IsTail(tail)
              && (forall t :: t in w.Advance(c).recv ==> Dist(w.cum, t) > Dist(w.cum, c))
  {
    if w.recv != {} {
      assert w.Covers(tail);
      if Lte32(tail, c) {
        forall t | t in w.recv ensures Dist(w.cum, t) <= Dist(w.cum, c) { assert w.Covers(t); }
        assert w.Advance(c).recv == {};
      } else {
        assert forall t :: t in w.recv ==> w.Covers(t);
        AdvanceTail(w, tail, c);
      }
    }
  }

  lemma {:induction false} AdvanceTail(w: Window, tail: uint32, c: uint32)
    requires w.Valid() && tail in w.recv && w.IsTail(tail) && Lt32(w.cum, c) && !Lte32(tail, c)
    ensures w.Advance(c).IsTail(tail)
  {
    var w' := w.Advance(c);
    assert w.Covers(tail);
    assert tail in w'.recv;
    forall t | t in w'.recv ensures Dist(c, t) <= Dist(c, tail) { assert w.Covers(t); }
  }

  /** Clearing the bit of one TSN removes that TSN from the set and no other. */
  lemma {:induction false} ClearAgrees(words: seq<uint64>, w: Window, t: uint32)
    requires |words| > 0 && w.size == 64 * |words| && WindowOk(w.cum, |words|)
    requires Agrees(words, w) && w.Covers(t)
    ensures Agrees(WithoutBit(words, t), w.(recv := w.recv - {t}))
  {
    forall u: uint32 | w.Covers(u)
      ensures At(WithoutBit(words, t), u) <==> u in w.recv - {t}
    {
      ClearBitAt(words[(t / 64) % |words|], t % 64, u % 64);
      if SameSlot(|words|, t, u) { NoSharing(w, |words|, t, u); }
    }
  }

  lemma {:induction false} DropOne(recv: set<uint32>, cum: uint32, d: uint32, n: nat)
    requires d + n < TWO32
    ensures var t := Add(cum, d + n); var less := Drop(recv, cum, d, d + n);
            Drop(recv, cum, d, d + n + 1) == less - {t} && (t in less <==> t in recv)
  {
  }

  /** Push's two guards sort every TSN into refused, duplicate and new. */
  lemma {:induction false} PushCase(w: Window, t: uint32)
    requires w.Valid()
    ensures Gt32(t, Add(w.cum, w.size)) ==> !w.Accepts(t) && !w.Duplicate(t)
    ensures !Gt32(t, Add(w.cum, w.size)) && (Lte32(t, w.cum) || t in w.recv) ==> w.Duplicate(t) && !w.Accepts(t)
    ensures !Gt32(t, Add(w.cum, w.size)) && !(Lte32(t, w.cum) || t in w.recv) ==> w.Accepts(t) && !w.Duplicate(t)
  {
    if t in w.recv { assert w.Covers(t); }
  }

  lemma {:induction false} PushTail(w: Window, t: uint32, tail: uint32)
    requires w.Valid() && w.IsTail(tail) && w.Accepts(t)
    ensures w.Push(t).IsTail(if Gt32(t, tail) then t else tail) && w.Push(t).Valid()
  {
    if w.recv != {} { assert w.Covers(tail); }
    assert Gt32(t, tail) <==> Dist(w.cum, t) > Dist(w.cum, tail);
  }
}
