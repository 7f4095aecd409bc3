/** The receive queue as the code keeps it: a ring of 64-bit words, a count and a tail.

    `Ring` is that state as a value, with each operation written as the code writes it,
    whether or not the ring can stand for a set of TSNs. The class updates the words in
    place and is proved to do what `Ring` does. The last part says what this means: where
    no two TSNs of the window share a bit, every operation is the operation on the set. */
module ReceiveQueue {
  import opened Serial
  import opened Bits
  import opened GapBlocks
  import opened ReceiveWindow

  /** The first maxBlocks of a list of blocks. */
  function First(all: seq<GapBlock>, maxBlocks: int): seq<GapBlock> {
    if maxBlocks <= 0 then [] else if maxBlocks < |all| then all[..maxBlocks] else all
  }

  datatype Ring = Ring(words: seq<uint64>, cum: uint32, tail: uint32, count: int) {
    /** The tail is nowhere beyond the window. */
    predicate Shape() { 0 < 64 * |words| <= 0xFFFF && Dist(cum, tail) <= 64 * |words| }

    predicate Has(t: uint32)
      requires |words| > 0
    {
      count != 0 && !Lte32(t, cum) && !Gt32(t, tail) && At(words, t)
    }

    predicate Beyond(t: uint32)
      requires 64 * |words| <= 0xFFFF
    {
      Gt32(t, Add(cum, 64 * |words|))
    }

    predicate Takes(t: uint32)
      requires Shape()
    {
      !Beyond(t) && !Lte32(t, cum) && !Has(t)
    }

    /** Recorded as a duplicate. */
    predicate Repeats(t: uint32)
      requires Shape()
    {
      !Beyond(t) && (Lte32(t, cum) || Has(t))
    }

    function Push(t: uint32): Ring
      requires Shape()
    {
      if Takes(t) then Ring(WithBit(words, t), cum, if Gt32(t, tail) then t else tail, count + 1) else this
    }

    function Pop(force: bool): Ring
      requires Shape()
    {
      var t := Add(cum, 1);
      if Has(t) then Ring(WithoutBit(words, t), t, tail, count - 1)
      else if force then Ring(words, t, if count == 0 then t else tail, count)
      else this
    }

    function Advance(c: uint32): Ring
      requires Shape()
    {
      if !Lt32(cum, c) then this
      else if count == 0 || Lte32(tail, c) then Ring(Zeros(|words|), c, c, 0)
      else
        var r := Cleared(words, Add(cum, 1), Dist(cum, c));
        Ring(r.0, c, if count == r.1 then c else tail, count - r.1)
    }

    /** The window the bits read as. */
    ghost function AsRead(): Window
      requires 0 < 64 * |words| <= 0xFFFF
    {
      Window(cum, set t: uint32 | 1 <= Dist(cum, t) <= 64 * |words| && At(words, t), 64 * |words|)
    }

    /** The maximal runs of set bits up to the tail. */
    ghost function AllGaps(): seq<GapBlock>
      requires Shape()
    {
      if count == 0 then [] else Runs(AsRead().Offsets(), 1, Dist(cum, tail))
    }

    /** At most maxBlocks of them. */
    ghost function Gaps(maxBlocks: int): seq<GapBlock>
      requires Shape()
    {
      First(AllGaps(), maxBlocks)
    }
  }

  function Zeros(n: nat): seq<uint64> { seq(n, _ => 0) }

  /** The words without the bits of n TSNs from t on, and how many of those were set. */
  function Cleared(words: seq<uint64>, t: uint32, n: nat): (r: (seq<uint64>, nat))
    requires |words| > 0 && n < TWO32
    ensures |r.0| == |words|
  {
    if n == 0 then (words, 0)
    else
      var r, u := Cleared(words, t, n - 1), Add(t, n - 1);
      (WithoutBit(r.0, u), r.1 + if At(r.0, u) then 1 else 0)
  }

  lemma {:induction false} AsReadAgrees(r: Ring)
    requires 0 < 64 * |r.words| <= 0xFFFF
    ensures Agrees(r.words, r.AsRead()) && r.AsRead().Valid()
    ensures r.AsRead().cum == r.cum && r.AsRead().size == 64 * |r.words|
  {
  }

  lemma {:induction false} PushShape(r: Ring, t: uint32)
    requires r.Shape()
    ensures r.Push(t).Shape()
  {
    Compare(t, r.cum);
    Compare(t, Add(r.cum, 64 * |r.words|));
  }

  /** A pop keeps the shape unless it is forced and the ring has counted more than it
      holds and stands at its tail. */
  lemma {:induction false} PopShape(r: Ring, force: bool)
    requires r.Shape()
    ensures r.Pop(force).Shape() <==> !(force && r.count != 0 && r.tail == r.cum)
  {
    var t := Add(r.cum, 1);
    Compare(t, r.cum);
    Compare(t, r.tail);
    hide At, WithoutBit;
  }

  lemma {:induction false} AdvanceShape(r: Ring, c: uint32)
    requires r.Shape()
    ensures r.Advance(c).Shape()
  {
    Compare(r.cum, c);
    Compare(r.tail, c);
    hide Lt32, Lte32;
  }

  lemma {:induction false} AddAdd(cum: uint32, d: uint32, n: nat)
    requires d + n < TWO32
    ensures Add(Add(cum, d), n) == Add(cum, d + n)
  {
  }

  /** TSNs of one aligned block share a word. */
  lemma {:induction false} SameWord(s: uint32, i: nat)
    requires s % 64 + i < 64
    ensures Add(s, i) == s + i
    ensures Add(s, i) / 64 == s / 64 && Add(s, i) % 64 == s % 64 + i
  {
  }

  lemma {:induction false} ClearedSplit(words: seq<uint64>, t: uint32, m: nat, n: nat)
    requires |words| > 0 && m + n < TWO32
    ensures var a := Cleared(words, t, m); var b := Cleared(a.0, Add(t, m), n);
            Cleared(words, t, m + n) == (b.0, a.1 + b.1)
    decreases n
  {
    hide WithoutBit, At, Add;
    if n > 0 {
      ClearedSplit(words, t, m, n - 1);
      AddAdd(t, m, n - 1);
    }
  }

  /** Clearing TSNs that share a word one by one is clearing them by one mask. */
  lemma {:induction false} ClearedWord(words: seq<uint64>, s: uint32, n: nat)
    requires |words| > 0 && s % 64 + n <= 64
    ensures var i := (s / 64) % |words|;
            && Cleared(words, s, n).0 == words[i := ClearMask(words[i], Mask(n, s % 64))]
            && Cleared(words, s, n).1 == CountRange(words[i], s % 64, s % 64 + n)
  {
    var i := (s / 64) % |words|;
    if n == 0 {
      ClearMaskNone(words[i], s % 64);
    } else {
      ClearedWord(words, s, n - 1);
      SameWord(s, n - 1);
      ClearMaskNext(words[i], n - 1, s % 64);
      var b := ClearMask(words[i], Mask(n - 1, s % 64));
      AndNotAt(words[i], Mask(n - 1, s % 64), s % 64 + n - 1);
      MaskAt(n - 1, s % 64, s % 64 + n - 1);
      hide ClearMask, Mask, Bit;
      assert words[i := b][i := ClearBit(b, s % 64 + n - 1)] == words[i := ClearBit(b, s % 64 + n - 1)];
    }
  }

  // ----------------------------------------------------- scanning for runs

  /** A stretch of clear bits holds no received offset, a stretch of set bits only
      received ones, as far as the window reaches. */
  lemma {:induction false} WordOffsets(words: seq<uint64>, w: Window, d: uint32, to: nat, value: bool)
    requires |words| > 0 && w.Valid() && Agrees(words, w) && 1 <= d
    requires Add(w.cum, d) % 64 <= to <= 64
    requires forall b: nat :: Add(w.cum, d) % 64 <= b < to ==>
               (Bit(words[(Add(w.cum, d) / 64) % |words|], b) <==> value)
    ensures forall x: nat :: d <= x < d + to - Add(w.cum, d) % 64 && x <= w.size ==>
              (x in w.Offsets() <==> value)
  {
    var off := Add(w.cum, d) % 64;
    forall x: nat | d <= x < d + to - off && x <= w.size
      ensures x in w.Offsets() <==> value
    {
      BitIsOffset(words, w, d, off + (x - d));
    }
  }

  lemma {:induction false} BitIsOffset(words: seq<uint64>, w: Window, d: uint32, b: nat)
    requires |words| > 0 && w.Valid() && Agrees(words, w) && 1 <= d
    requires Add(w.cum, d) % 64 <= b < 64 && d + b - Add(w.cum, d) % 64 <= w.size
    ensures Bit(words[(Add(w.cum, d) / 64) % |words|], b) <==>
            d + b - Add(w.cum, d) % 64 in w.Offsets()
  {
    var t := Add(w.cum, d);
    var i := b - t % 64;
    SameWord(t, i);
    var u := Add(t, i);
    assert u == Add(w.cum, d + i) && Dist(w.cum, u) == d + i;
    assert w.Covers(u);
    OffsetsMember(w, d + i);
    assert At(words, u) <==> u in w.recv;
  }

  /** Bits from..to-1 of a word all have this value; ok says that the next does not,
      otherwise the word ends there. */
  ghost predicate Uniform(word: uint64, from: nat, to: nat, ok: bool, value: bool) {
    && from <= to <= 64 && (!ok ==> to == 64)
    && (forall b: nat :: from <= b < to ==> (Bit(word, b) <==> value))
    && (ok ==> to < 64 && (Bit(word, to) <==> !value))
  }

  /** Where the scan stands: the blocks found, then the runs from d on - or, while the
      end is sought, the runs from the start of the current one. */
  ghost predicate Scanned(offs: set<nat>, top: nat, blocks: seq<GapBlock>, findEnd: bool, start: nat, d: nat) {
    && 1 <= d <= top
    && (findEnd ==>
          && 1 <= start <= d && (d == start ==> d in offs)
          && (forall i: nat :: start <= i < d ==> i in offs))
    && Runs(offs, 1, top) == blocks + Runs(offs, if findEnd then start else d, top)
  }

  /** One look at a word while seeking the start of a run. */
  lemma {:induction false} StartStep(words: seq<uint64>, w: Window, top: nat, blocks: seq<GapBlock>, d: uint32, to: nat, ok: bool)
    requires |words| > 0 && w.Valid() && Agrees(words, w) && top <= w.size
    requires Scanned(w.Offsets(), top, blocks, false, 0, d)
    requires Uniform(words[(Add(w.cum, d) / 64) % |words|], Add(w.cum, d) % 64, to, ok, false)
    ensures var d' := d + to - Add(w.cum, d) % 64;
            && d <= d' && (d' == d ==> ok && d in w.Offsets())
            && (d' <= top ==> Scanned(w.Offsets(), top, blocks, ok, if ok then d' else 0, d'))
            && (d' > top ==> Runs(w.Offsets(), 1, top) == blocks)
  {
    hide Agrees, Bit, Window.Offsets;
    var d' := d + to - Add(w.cum, d) % 64;
    WordOffsets(words, w, d, to, false);
    if d' <= top {
      if ok { BitIsOffset(words, w, d, to); }
      SkipEmpty(w.Offsets(), d, d', top);
    } else {
      SkipEmpty(w.Offsets(), d, top + 1, top);
    }
  }

  /** One look at a word while seeking the end of the run that began at start. */
  lemma {:induction false} EndStep(words: seq<uint64>, w: Window, top: nat, blocks: seq<GapBlock>, start: nat, d: uint32, to: nat, ok: bool)
    requires |words| > 0 && w.Valid() && Agrees(words, w) && top <= w.size
    requires Scanned(w.Offsets(), top, blocks, true, start, d)
    requires Uniform(words[(Add(w.cum, d) / 64) % |words|], Add(w.cum, d) % 64, to, ok, true)
    ensures var d' := d + to - Add(w.cum, d) % 64;
            && d <= d' && start < d' && (d' == d ==> ok && d !in w.Offsets())
            && (d' <= top && ok ==>
                  Scanned(w.Offsets(), top, blocks + [GapBlock(start, d' - 1)], false, 0, d'))
            && (d' <= top && !ok ==> Scanned(w.Offsets(), top, blocks, true, start, d'))
            && (d' > top ==> Runs(w.Offsets(), 1, top) == blocks + [GapBlock(start, top)])
  {
    hide Agrees, Bit, Window.Offsets, Scanned, Runs;
    ScannedAt(w.Offsets(), top, blocks, true, start, d);
    var d' := d + to - Add(w.cum, d) % 64;
    WordOffsets(words, w, d, to, true);
    if ok && d' <= top { BitIsOffset(words, w, d, to); }
    EndFound(w.Offsets(), top, blocks, start, d, d', ok);
  }

  lemma {:induction false} EndFound(offs: set<nat>, top: nat, blocks: seq<GapBlock>, start: nat, d: nat, d': nat, ok: bool)
    requires Scanned(offs, top, blocks, true, start, d) && d <= d' && (!ok ==> d < d')
    requires forall x: nat :: d <= x < d' && x <= top ==> x in offs
    requires ok && d' <= top ==> d' !in offs
    ensures start < d' && (d' == d ==> ok && d !in offs)
    ensures d' <= top && ok ==> Scanned(offs, top, blocks + [GapBlock(start, d' - 1)], false, 0, d')
    ensures d' <= top && !ok ==> Scanned(offs, top, blocks, true, start, d')
    ensures d' > top ==> Runs(offs, 1, top) == blocks + [GapBlock(start, top)]
  {
    if d' > top {
      TakeRun(offs, start, top, top);
    } else if ok {
      TakeRun(offs, start, d' - 1, top);
    }
  }

  /** The same step, by TSN. */
  lemma {:induction false} EndSought(r: Ring, tsn: uint32, top: nat, blocks: seq<GapBlock>, start: nat, to: nat, ok: bool)
    requires r.Shape() && top <= 64 * |r.words| && Scanned(r.AsRead().Offsets(), top, blocks, true, start, Dist(r.cum, tsn))
    requires tsn % 64 <= to <= 64 && Uniform(r.words[(tsn / 64) % |r.words|], tsn % 64, to, ok, true)
    ensures var d, d', offs := Dist(r.cum, tsn), Dist(r.cum, Add(tsn, to - tsn % 64)), r.AsRead().Offsets();
            && d <= d' <= top + 64 && start < d' && (d == d' ==> ok && d !in offs)
            && (d' <= top && ok ==> Scanned(offs, top, blocks + [GapBlock(start, d' - 1)], false, 0, d'))
            && (d' <= top && !ok ==> Scanned(offs, top, blocks, true, start, d'))
            && (d' > top ==> Runs(offs, 1, top) == blocks + [GapBlock(start, top)])
  {
    hide Agrees, Scanned, Runs, Window.Offsets, Ring.AsRead, Window.Valid, Uniform, Dist, Add;
    var d, w := Dist(r.cum, tsn), r.AsRead();
    AsReadAgrees(r);
    ScannedAt(w.Offsets(), top, blocks, true, start, d);
    TailAt(r.cum, tsn);
    EndStep(r.words, w, top, blocks, start, d, to, ok);
    TsnStep(r.cum, d, to - tsn % 64);
  }

  lemma {:induction false} TsnStep(cum: uint32, d: uint32, k: nat)
    requires d < HALF32 && k <= 64
    ensures Add(Add(cum, d), k) == Add(cum, d + k)
    ensures Dist(cum, Add(cum, d + k)) == d + k
  {
  }

  lemma {:induction false} TailAt(cum: uint32, tail: uint32)
    ensures Add(cum, Dist(cum, tail)) == tail
  {
  }

  /** Where a TSN a little above the window stands against the tail. */
  lemma {:induction false} TailOrder(cum: uint32, tsn: uint32, tail: uint32)
    requires Dist(cum, tail) <= 0xFFFF && 1 <= Dist(cum, tsn) <= 0xFFFF + 64
    ensures Lte32(tsn, tail) <==> Dist(cum, tsn) <= Dist(cum, tail)
    ensures Gt32(tsn, tail) <==> Dist(cum, tsn) > Dist(cum, tail)
    ensures Dist(cum, Dist(1, tsn)) == Dist(cum, tsn) - 1
  {
  }

  lemma {:induction false} FirstAll(blocks: seq<GapBlock>, maxBlocks: int)
    requires |blocks| <= maxBlocks
    ensures First(blocks, maxBlocks) == blocks
  {
  }

  lemma {:induction false} ScannedAt(offs: set<nat>, top: nat, blocks: seq<GapBlock>, findEnd: bool, start: nat, d: nat)
    requires Scanned(offs, top, blocks, findEnd, start, d)
    ensures 1 <= d <= top
  {
  }

  lemma {:induction false} ScanFull(offs: set<nat>, top: nat, blocks: seq<GapBlock>, d: nat, maxBlocks: int)
    requires Scanned(offs, top, blocks, false, 0, d) && |blocks| == maxBlocks
    ensures First(Runs(offs, 1, top), maxBlocks) == blocks
  {
  }

  // ------------------------------------------------------------- the queue

  class ReceivePayloadQueue {
    var tailTSN: uint32
    var chunkSize: int
    const tsnBitmask: array<uint64>
    var dupTSN: seq<uint32>
    const maxTSNOffset: uint32
    var cumulativeTSN: uint32

    ghost function Value(): Ring
      reads this, tsnBitmask
    {
      Ring(tsnBitmask[..], cumulativeTSN, tailTSN, chunkSize)
    }

    ghost predicate Valid()
      reads this, tsnBitmask
    {
      Value().Shape() && maxTSNOffset == 64 * tsnBitmask.Length
    }

    constructor (offset: uint32)
      requires 0 < offset <= 0xFFFF - 63
      ensures Valid() && fresh(tsnBitmask)
      ensures Value() == Ring(Zeros(RingLength(offset)), 0, 0, 0) && dupTSN == []
    {
      maxTSNOffset := ((offset + 63) / 64) * 64;
      tsnBitmask := new uint64[(offset + 63) / 64](_ => 0);
      tailTSN, chunkSize, cumulativeTSN, dupTSN := 0, 0, 0, [];
    }

    method Init(cum: uint32)
      requires Valid()
      modifies this, tsnBitmask
      ensures Valid()
      ensures Value() == Ring(Zeros(tsnBitmask.Length), cum, cum, 0) && dupTSN == []
    {
      cumulativeTSN, tailTSN, chunkSize := cum, cum, 0;
      ZeroWords();
      dupTSN := [];
    }

    method ZeroWords()
      modifies tsnBitmask
      ensures tsnBitmask[..] == Zeros(tsnBitmask.Length)
    {
      for i := 0 to tsnBitmask.Length
        invariant forall j :: 0 <= j < i ==> tsnBitmask[j] == 0
      {
        tsnBitmask[i] := 0;
      }
    }

    method HasChunk(t: uint32) returns (r: bool)
      requires Valid()
      ensures r <==> Value().Has(t)
    {
      if chunkSize == 0 || Lte32(t, cumulativeTSN) || Gt32(t, tailTSN) {
        return false;
      }
      var index, offset := (t / 64) % tsnBitmask.Length, t % 64;
      TestBit(tsnBitmask[index], offset);
      r := And(tsnBitmask[index], Shl(1, offset)) != 0;
    }

    method CanPush(t: uint32) returns (r: bool)
      requires Valid()
      ensures r <==> Value().Takes(t)
    {
      var ok := HasChunk(t);
      r := !(ok || Lte32(t, cumulativeTSN) || Gt32(t, Add(cumulativeTSN, maxTSNOffset)));
    }

    method Push(t: uint32) returns (r: bool)
      requires Valid()
      modifies this, tsnBitmask
      ensures Valid() && Value() == old(Value()).Push(t)
      ensures r <==> old(Value()).Takes(t)
      ensures dupTSN == if old(Value()).Repeats(t) then old(dupTSN) + [t] else old(dupTSN)
    {
      PushShape(Value(), t);
      hide SetBit, Lte32, Gt32;
      var has := HasChunk(t);
      if Gt32(t, Add(cumulativeTSN, maxTSNOffset)) {
        return false;
      }
      if Lte32(t, cumulativeTSN) || has {
        dupTSN := dupTSN + [t];
        return false;
      }
      var index, offset := (t / 64) % tsnBitmask.Length, t % 64;
      tsnBitmask[index] := SetBit(tsnBitmask[index], offset);
      chunkSize := chunkSize + 1;
      if Gt32(t, tailTSN) {
        tailTSN := t;
      }
      return true;
    }

    method Pop(force: bool) returns (r: bool)
      requires Valid()
      modifies this, tsnBitmask
      ensures Value() == old(Value()).Pop(force) && dupTSN == old(dupTSN)
      ensures r <==> old(Value()).Has(Add(old(cumulativeTSN), 1))
      ensures Valid() <==> !(force && old(chunkSize != 0 && tailTSN == cumulativeTSN))
    {
      PopShape(Value(), force);
      hide ClearBit, Lte32, Gt32;
      var t := Add(cumulativeTSN, 1);
      var has := HasChunk(t);
      if has {
        var index, offset := (t / 64) % tsnBitmask.Length, t % 64;
        tsnBitmask[index] := ClearBit(tsnBitmask[index], offset);
        chunkSize := chunkSize - 1;
        cumulativeTSN := Add(cumulativeTSN, 1);
        return true;
      }
      if force {
        cumulativeTSN := Add(cumulativeTSN, 1);
        if chunkSize == 0 {
          tailTSN := cumulativeTSN;
        }
      }
      return false;
    }

    /** Clears n TSNs that share a word, by one mask. */
    method ClearWord(start: uint32, n: nat)
      requires tsnBitmask.Length > 0 && n > 0 && start % 64 + n <= 64
      modifies this`chunkSize, tsnBitmask
      ensures (tsnBitmask[..], old(chunkSize) - chunkSize) == Cleared(old(tsnBitmask[..]), start, n)
    {
      hide Mask, ClearMask, And, OnesCount, Cleared;
      var offset := start % 64;
      var mask := Mask(n, offset);
      var index := (start / 64) % tsnBitmask.Length;
      var cleared := And(tsnBitmask[index], mask);
      ClearedWord(tsnBitmask[..], start, n);
      CountMasked(tsnBitmask[index], n, offset);
      tsnBitmask[index] := ClearMask(tsnBitmask[index], mask);
      chunkSize := chunkSize - OnesCount(cleared);
    }

    /** Word by word, what clearing every TSN of the range by itself does. */
    method ClearTSNRange(startTSN: uint32, endTSN: uint32)
      requires tsnBitmask.Length > 0 && Dist(startTSN, endTSN) + 1 < TWO32
      modifies this`chunkSize, tsnBitmask
      ensures (tsnBitmask[..], old(chunkSize) - chunkSize) ==
              Cleared(old(tsnBitmask[..]), startTSN, Dist(startTSN, endTSN) + 1)
    {
      hide Cleared, Add, Dist;
      ghost var words, total := tsnBitmask[..], Dist(startTSN, endTSN) + 1;
      var start, remaining := startTSN, Dist(startTSN, endTSN) + 1;
      ClearedNone(words, startTSN);
      while remaining > 0
        invariant 0 <= remaining <= total && start == Add(startTSN, total - remaining)
        invariant (tsnBitmask[..], old(chunkSize) - chunkSize) == Cleared(words, startTSN, total - remaining)
      {
        var offset := start % 64;
        var n := if remaining < 64 - offset then remaining else 64 - offset;
        ghost var m := total - remaining;
        ClearedSplit(words, startTSN, m, n);
        AddAdd(startTSN, m, n);
        ClearWord(start, n);
        start := Add(start, n);
        remaining := remaining - n;
      }
    }

    method AdvanceCumulativeTSN(c: uint32)
      requires Valid()
      modifies this, tsnBitmask
      ensures Valid() && Value() == old(Value()).Advance(c) && dupTSN == old(dupTSN)
    {
      AdvanceShape(Value(), c);
      if !Lt32(cumulativeTSN, c) {
        return;
      }
      if chunkSize == 0 || Lte32(tailTSN, c) {
        ZeroWords();
        chunkSize, cumulativeTSN, tailTSN := 0, c, c;
        return;
      }
      RangeLength(cumulativeTSN, c);
      hide Cleared;
      ClearTSNRange(Add(cumulativeTSN, 1), c);
      cumulativeTSN := c;
      if chunkSize == 0 {
        tailTSN := c;
      }
    }

    method PopDuplicates() returns (dups: seq<uint32>)
      requires Valid()
      modifies this`dupTSN
      ensures dups == old(dupTSN) && dupTSN == []
      ensures Valid() && Value() == old(Value())
    {
      dups, dupTSN := dupTSN, [];
    }

    /** Looks for the first set bit from tsn to the end of its word. */
    method SeekStart(tsn: uint32, ghost top: nat, ghost blocks: seq<GapBlock>) returns (next: uint32, ok: bool)
      requires Valid() && top <= maxTSNOffset
      requires Scanned(Value().AsRead().Offsets(), top, blocks, false, 0, Dist(cumulativeTSN, tsn))
      ensures var d, d', offs := Dist(cumulativeTSN, tsn), Dist(cumulativeTSN, next), Value().AsRead().Offsets();
              && d <= d' <= top + 64 && (d == d' ==> ok && d in offs)
              && (d' <= top ==> Scanned(offs, top, blocks, ok, if ok then d' else 0, d'))
              && (d' > top ==> Runs(offs, 1, top) == blocks)
    {
      hide Agrees, FirstNonZeroBit, Scanned, Window.Offsets, Ring.AsRead, Runs;
      var index, offset := (tsn / 64) % tsnBitmask.Length, tsn % 64;
      ghost var d, w := Dist(cumulativeTSN, tsn), Value().AsRead();
      AsReadAgrees(Value());
      ScannedAt(w.Offsets(), top, blocks, false, 0, d);
      TailAt(cumulativeTSN, tsn);
      var (bit, found) := FirstNonZeroBit(tsnBitmask[index], offset);
      StartStep(tsnBitmask[..], w, top, blocks, d, if found then bit else 64, found);
      TsnStep(cumulativeTSN, d, (if found then bit else 64) - offset);
      next, ok := if found then Add(tsn, bit - offset) else Add(tsn, 64 - offset), found;
    }

    /** Looks for the first clear bit from tsn to the end of its word. */
    method SeekEnd(tsn: uint32, ghost top: nat, ghost blocks: seq<GapBlock>, ghost start: nat) returns (next: uint32, ok: bool)
      requires Valid() && top <= maxTSNOffset
      requires Scanned(Value().AsRead().Offsets(), top, blocks, true, start, Dist(cumulativeTSN, tsn))
      ensures var d, d', offs := Dist(cumulativeTSN, tsn), Dist(cumulativeTSN, next), Value().AsRead().Offsets();
              && d <= d' <= top + 64 && start < d' && (d == d' ==> ok && d !in offs)
              && (d' <= top && ok ==> Scanned(offs, top, blocks + [GapBlock(start, d' - 1)], false, 0, d'))
              && (d' <= top && !ok ==> Scanned(offs, top, blocks, true, start, d'))
              && (d' > top ==> Runs(offs, 1, top) == blocks + [GapBlock(start, top)])
    {
      hide FirstZeroBit, Scanned, Runs, Window.Offsets, Ring.AsRead, Dist, Add;
      var index, offset := (tsn / 64) % tsnBitmask.Length, tsn % 64;
      var (bit, found) := FirstZeroBit(tsnBitmask[index], offset);
      EndSought(Value(), tsn, top, blocks, start, if found then bit else 64, found);
      next, ok := if found then Add(tsn, bit - offset) else Add(tsn, 64 - offset), found;
    }

    /** The first maxBlocks maximal runs of set bits, in order, up to the tail. */
    method GetGapAckBlocks(maxBlocks: int) returns (blocks: seq<GapBlock>)
      requires Valid()
      ensures blocks == Value().Gaps(maxBlocks)
    {
      hide Scanned, Runs, Window.Offsets, Add, Dist, Lte32, Gt32, First, Ring.AsRead, Ring.Has;
      blocks := [];
      if chunkSize == 0 || maxBlocks <= 0 {
        NothingCounted(Value(), maxBlocks);
        return;
      }
      ghost var offs, top := Value().AsRead().Offsets(), Dist(cumulativeTSN, tailTSN);
      ScanBegin(offs, cumulativeTSN, tailTSN);
      var tsn, endTSN := Add(cumulativeTSN, 1), tailTSN;
      TailOrder(cumulativeTSN, tsn, tailTSN);
      var findEnd := false;
      var start: nat := 0;
      while Lte32(tsn, endTSN) && |blocks| < maxBlocks
        invariant 1 <= Dist(cumulativeTSN, tsn) <= top + 64
        invariant Lte32(tsn, endTSN) <==> Dist(cumulativeTSN, tsn) <= top
        invariant |blocks| <= maxBlocks
        invariant Dist(cumulativeTSN, tsn) <= top ==>
                    && (findEnd ==> |blocks| < maxBlocks)
                    && Scanned(offs, top, blocks, findEnd, if findEnd then start else 0, Dist(cumulativeTSN, tsn))
        invariant Dist(cumulativeTSN, tsn) > top ==> Runs(offs, 1, top) == blocks
        decreases top + 64 - Dist(cumulativeTSN, tsn), if findEnd == (Dist(cumulativeTSN, tsn) in offs) then 0 else 1
      {
        if !findEnd {
          tsn, findEnd := SeekStart(tsn, top, blocks);
          TailOrder(cumulativeTSN, tsn, tailTSN);
          if findEnd {
            start := Dist(cumulativeTSN, tsn) % TWO16;
          }
        } else {
          var found;
          tsn, found := SeekEnd(tsn, top, blocks, start);
          TailOrder(cumulativeTSN, tsn, tailTSN);
          if found {
            var end := Dist(cumulativeTSN, Dist(1, tsn)) % TWO16;
            if Lte32(tsn, endTSN) {
              blocks := blocks + [GapBlock(start, end)];
            }
            findEnd := false;
          }
          if Gt32(tsn, endTSN) {
            blocks := blocks + [GapBlock(start, Dist(cumulativeTSN, endTSN) % TWO16)];
            FirstAll(blocks, maxBlocks);
            return;
          }
        }
      }
      if Dist(cumulativeTSN, tsn) <= top {
        ScanFull(offs, top, blocks, Dist(cumulativeTSN, tsn), maxBlocks);
      } else {
        FirstAll(blocks, maxBlocks);
      }
    }

    /** createSelectiveAckChunk: all the gap blocks and all the duplicates, or the first of
        them as far as one entry more would not fit the MTU or the 16-bit chunk length, gap
        blocks first; and the room left in the receive buffer. */
    method CreateSack(mtu: uint32, maxReceiveBufferSize: uint32, queued: map<uint16, uint32>) returns (sack: Sack)
      requires Valid()
      modifies this`dupTSN
      ensures Valid() && Value() == old(Value()) && dupTSN == []
      ensures sack.cum == cumulativeTSN && sack.gaps <= Value().AllGaps() && sack.dups <= old(dupTSN)
      ensures sack.gaps == Value().AllGaps() || sack.Full(mtu)
      ensures sack.dups == old(dupTSN) || sack.Full(mtu)
      ensures mtu >= 28 ==> sack.WireLength() <= mtu
      ensures sack.WireLength() - 12 <= 0xFFFF
      ensures Room(maxReceiveBufferSize, QueuedTo(queued, TWO16), sack.rwnd)
    {
      hide Runs, Window.Offsets, Dist;
      var rwnd := GetMyReceiverWindowCredit(maxReceiveBufferSize, queued);
      var maxEntries := MaxEntries(mtu);
      var gaps := GetGapAckBlocks(maxEntries);
      FirstPart(Value().AllGaps(), maxEntries);
      var duplicates := PopDuplicates();
      var room := maxEntries - |gaps|;
      sack := Sack(cumulativeTSN, rwnd, gaps, duplicates[..if |duplicates| < room then |duplicates| else room]);
    }
  }

  /** Bytes waiting in the streams below k; the sum is kept in 32 bits. */
  function QueuedTo(queued: map<uint16, uint32>, k: nat): uint32
    requires k <= TWO16
  {
    if k == 0 then 0 else Add(QueuedTo(queued, k - 1), if k - 1 in queued then queued[k - 1] else 0)
  }

  /** The room left and the bytes waiting make up the buffer; a full one has no room. */
  ghost predicate Room(max: uint32, used: uint32, room: uint32) {
    if used < max then room + used == max else room == 0
  }

  /** The order in which the streams are added up does not matter. */
  method GetMyReceiverWindowCredit(max: uint32, queued: map<uint16, uint32>) returns (r: uint32)
    ensures Room(max, QueuedTo(queued, TWO16), r)
  {
    var sum: uint32, done: map<uint16, uint32>, todo := 0, map[], queued.Keys;
    QueuedNone(TWO16);
    while todo != {}
      invariant todo <= queued.Keys && done == queued - todo && sum == QueuedTo(done, TWO16)
    {
      var s :| s in todo;
      QueuedMore(done, s, queued[s], TWO16);
      sum := Add(sum, queued[s]);
      todo := todo - {s};
      done := done[s := queued[s]];
    }
    assert done == queued;
    r := if sum >= max then 0 else max - sum;
  }

  lemma {:induction false} QueuedNone(k: nat)
    requires k <= TWO16
    ensures QueuedTo(map[], k) == 0
  {
    if k > 0 { QueuedNone(k - 1); }
  }

  lemma {:induction false} QueuedMore(queued: map<uint16, uint32>, s: uint16, n: uint32, k: nat)
    requires k <= TWO16 && s !in queued
    ensures QueuedTo(queued[s := n], k) == if s < k then Add(QueuedTo(queued, k), n) else QueuedTo(queued, k)
  {
    if k > 0 { QueuedMore(queued, s, n, k - 1); }
  }

  lemma {:induction false} NothingCounted(r: Ring, maxBlocks: int)
    requires r.Shape() && (r.count == 0 || maxBlocks <= 0)
    ensures r.Gaps(maxBlocks) == []
  {
  }

  lemma {:induction false} ScanBegin(offs: set<nat>, cum: uint32, tail: uint32)
    requires Dist(cum, tail) <= 0xFFFF
    ensures Dist(cum, Add(cum, 1)) == 1
    ensures Dist(cum, tail) > 0 ==> Scanned(offs, Dist(cum, tail), [], false, 0, 1)
    ensures Dist(cum, tail) == 0 ==> Runs(offs, 1, Dist(cum, tail)) == []
  {
  }

  lemma {:induction false} ClearedNone(words: seq<uint64>, t: uint32)
    requires |words| > 0
    ensures Cleared(words, t, 0) == (words, 0) && Add(t, 0) == t
  {
  }

  lemma {:induction false} RangeLength(cum: uint32, c: uint32)
    requires Lt32(cum, c)
    ensures Dist(Add(cum, 1), c) + 1 == Dist(cum, c) < HALF32
  {
  }

  datatype Sack = Sack(cum: uint32, rwnd: uint32, gaps: seq<GapBlock>, dups: seq<uint32>) {
    /** Common header, chunk header, SACK header, then four bytes an entry. */
    function WireLength(): nat { 12 + 4 + 12 + 4 * (|gaps| + |dups|) }

    /** One entry more would not fit. */
    ghost predicate Full(mtu: uint32) { WireLength() + 4 > mtu || WireLength() + 4 - 12 > 0xFFFF }
  }

  /** Entries that fit the MTU and the 16-bit chunk length. */
  function MaxEntries(mtu: uint32): nat {
    if mtu > 28 then (if mtu - 28 < 65535 - 16 then mtu - 28 else 65535 - 16) / 4 else 0
  }

  lemma {:induction false} FirstPart(all: seq<GapBlock>, maxBlocks: nat)
    ensures First(all, maxBlocks) <= all && |First(all, maxBlocks)| <= maxBlocks
    ensures First(all, maxBlocks) == all || |First(all, maxBlocks)| == maxBlocks
  {
  }

  // ------------------------------------------------------- what the ring means

  /** The ring stands for the window: slots are distinct, bits are membership, the count is
      the cardinality and the tail the greatest TSN received. */
  ghost predicate Represents(r: Ring, w: Window) {
    && 0 < 64 * |r.words| == w.size && w.Valid() && WindowOk(w.cum, |r.words|)
    && r.cum == w.cum && Agrees(r.words, w) && r.count == |w.recv| && w.IsTail(r.tail)
  }

  lemma {:induction false} RepresentsShape(r: Ring, w: Window)
    requires Represents(r, w)
    ensures r.Shape()
  {
    if w.recv != {} { assert w.Covers(r.tail); }
  }

  lemma {:induction false} EmptyRepresents(cum: uint32, len: nat)
    requires 0 < 64 * len <= 0xFFFF && WindowOk(cum, len)
    ensures Represents(Ring(Zeros(len), cum, cum, 0), Window(cum, {}, 64 * len))
  {
    forall t: uint32 ensures !At(Zeros(len), t) { ZeroAt(t % 64); }
  }

  /** The guards of hasChunk hold no received TSN back. */
  lemma {:induction false} HasRefines(r: Ring, w: Window, t: uint32)
    requires Represents(r, w)
    ensures r.Has(t) <==> t in w.recv
  {
    Compare(t, w.cum);
    Compare(t, r.tail);
    if w.recv != {} { assert w.Covers(r.tail); }
    if t in w.recv { assert w.Covers(t); }
    if 1 <= Dist(w.cum, t) <= w.size { assert At(r.words, t) <==> t in w.recv; }
  }

  /** Push accepts exactly the new TSNs in (cum, cum + size], and adds exactly that TSN. */
  lemma {:induction false} PushRefines(r: Ring, w: Window, t: uint32)
    requires Represents(r, w)
    ensures r.Shape() && (r.Takes(t) <==> w.Accepts(t)) && (r.Repeats(t) <==> w.Duplicate(t))
    ensures Represents(r.Push(t), w.Push(t))
  {
    RepresentsShape(r, w);
    HasRefines(r, w, t);
    PushCase(w, t);
    if w.Accepts(t) {
      PushTail(w, t, r.tail);
      SetAgrees(r.words, w, t);
    }
    hide Agrees, WindowOk, Ring.Has, Window.IsTail, Gt32, Lte32, WithBit;
  }

  lemma {:induction false} PopRefines(r: Ring, w: Window, force: bool)
    requires Represents(r, w) && (w.Pop(force).cum != w.cum ==> WindowOk(Add(w.cum, 1), |r.words|))
    ensures r.Shape() && (r.Has(Add(r.cum, 1)) <==> Add(w.cum, 1) in w.recv)
    ensures Represents(r.Pop(force), w.Pop(force))
  {
    var t := Add(w.cum, 1);
    RepresentsShape(r, w);
    HasRefines(r, w, t);
    if t in w.recv || force {
      PopAgrees(r.words, w, if t in w.recv then WithoutBit(r.words, t) else r.words);
      PopTail(w, r.tail);
    }
  }

  lemma {:induction false} ClearedRefines(words: seq<uint64>, w: Window, n: nat)
    requires |words| > 0 && w.size == 64 * |words| && w.Valid() && WindowOk(w.cum, |words|)
    requires Agrees(words, w) && n <= w.size
    ensures var r, left := Cleared(words, Add(w.cum, 1), n), Drop(w.recv, w.cum, 1, n + 1);
            Agrees(r.0, w.(recv := left)) && r.1 == |w.recv| - |left|
  {
    hide Agrees, WindowOk, At, WithoutBit, Drop;
    if n == 0 {
      DropDrop(w.recv, w.cum, 1, 1, 1);
    } else {
      ClearedRefines(words, w, n - 1);
      var r, left, t := Cleared(words, Add(w.cum, 1), n - 1), Drop(w.recv, w.cum, 1, n), Add(w.cum, n);
      DropOne(w.recv, w.cum, 1, n - 1);
      AddAdd(w.cum, 1, n - 1);
      NextCleared(r.0, w.(recv := left), t, n);
    }
  }

  lemma {:induction false} NextCleared(words: seq<uint64>, w: Window, t: uint32, n: nat)
    requires |words| > 0 && w.size == 64 * |words| && WindowOk(w.cum, |words|) && Agrees(words, w)
    requires 1 <= n <= w.size <= 0xFFFF && t == Add(w.cum, n)
    ensures Agrees(WithoutBit(words, t), w.(recv := w.recv - {t})) && (At(words, t) <==> t in w.recv)
  {
    assert w.Covers(t);
    ClearAgrees(words, w, t);
  }

  lemma {:induction false} AdvanceRefines(r: Ring, w: Window, c: uint32)
    requires Represents(r, w) && (Lt32(w.cum, c) ==> WindowOk(c, |r.words|))
    ensures r.Shape() && Represents(r.Advance(c), w.Advance(c))
  {
    hide Agrees, At, Cleared, WindowOk, Drop, Window.IsTail, Zeros, Add;
    RepresentsShape(r, w);
    if Lt32(w.cum, c) {
      AdvanceCase(w, r.tail, c);
      if r.count == 0 || Lte32(r.tail, c) {
        EmptyRepresents(c, |r.words|);
      } else {
        var n := Dist(w.cum, c);
        ClearedRefines(r.words, w, n);
        AdvanceAgrees(Cleared(r.words, Add(w.cum, 1), n).0, w.(recv := w.Advance(c).recv), c);
        TailCounts(w.Advance(c), r.tail, c);
      }
    }
  }

  lemma {:induction false} TailCounts(w: Window, tail: uint32, c: uint32)
    requires w.IsTail(tail) && w.cum == c
    ensures |w.recv| == 0 ==> tail == c
  {
  }

  /** The gap blocks are the maximal runs of received TSNs. */
  lemma {:induction false} GapsRefine(r: Ring, w: Window, maxBlocks: int)
    requires Represents(r, w)
    ensures r.Shape() && r.Gaps(maxBlocks) == First(Runs(w.Offsets(), 1, Dist(w.cum, r.tail)), maxBlocks)
  {
    RepresentsShape(r, w);
    assert r.AsRead().recv == w.recv by {
      forall t: uint32 ensures t in r.AsRead().recv <==> t in w.recv { if t in w.recv { assert w.Covers(t); } }
    }
    assert r.AsRead() == w;
  }

  // --------------------------------------------------- where it means nothing

  function Fresh(cum: uint32, len: nat): Ring { Ring(Zeros(len), cum, cum, 0) }

  /** The exact condition: receiving one TSN makes no other read as received, for every
      pair of TSNs of the window, if and only if the window is one where slots are
      distinct. */
  lemma {:induction false} FaithfulIff(cum: uint32, len: nat)
    requires 0 < 64 * len <= 0xFFFF
    ensures WindowOk(cum, len) <==>
            forall t, u :: Window(cum, {}, 64 * len).Covers(t) && Window(cum, {}, 64 * len).Covers(u) ==>
              (Fresh(cum, len).Push(u).Has(t) <==> t == u)
  {
    var w := Window(cum, {}, 64 * len);
    if WindowOk(cum, len) {
      forall t, u | w.Covers(t) && w.Covers(u) ensures Fresh(cum, len).Push(u).Has(t) <==> t == u {
        EmptyRepresents(cum, len);
        PushRefines(Fresh(cum, len), w, u);
        HasRefines(Fresh(cum, len).Push(u), w.Push(u), t);
      }
    } else {
      var t, u := Alias(cum, len);
    }
  }

  /** Otherwise some TSN reads as received after only a later one has come. */
  lemma {:induction false} Alias(cum: uint32, len: nat) returns (t: uint32, u: uint32)
    requires 0 < 64 * len <= 0xFFFF && !WindowOk(cum, len)
    ensures var w := Window(cum, {}, 64 * len); w.Covers(t) && w.Covers(u) && Dist(cum, t) < Dist(cum, u)
    ensures Fresh(cum, len).Takes(u) && Fresh(cum, len).Push(u).Has(t)
    ensures Fresh(cum, len).Push(u).tail == u && Fresh(cum, len).Push(u).count == 1
  {
    hide Ring.Push, Ring.Has, Ring.Takes, SameSlot;
    t, u := Collision(Window(cum, {}, 64 * len), len);
    PushedReads(cum, len, t, u);
  }

  lemma {:induction false} PushedReads(cum: uint32, len: nat, t: uint32, u: uint32)
    requires 0 < 64 * len <= 0xFFFF && SameSlot(len, t, u)
    requires var w := Window(cum, {}, 64 * len); w.Covers(t) && w.Covers(u) && Dist(cum, t) < Dist(cum, u)
    ensures Fresh(cum, len).Takes(u) && Fresh(cum, len).Push(u).Has(t)
    ensures Fresh(cum, len).Push(u).tail == u && Fresh(cum, len).Push(u).count == 1
  {
    SetBitAt(0, u % 64, t % 64);
    Compare(u, cum);
    Compare(t, cum);
    Compare(t, u);
    Compare(u, Add(cum, 64 * len));
  }

  /** The default 1 MiB receive buffer gives 132 words, which does not divide 2^26: while
      the window reaches across 2^32 there are always two such TSNs. */
  lemma {:induction false} DefaultRingAliases(cum: uint32)
    requires TWO32 - 64 * 132 <= cum < TWO32 - 1
    ensures RingLength(GetMaxTSNOffset(1024 * 1024)) == 132
    ensures exists t: uint32, u: uint32 ::
              var r := Fresh(cum, 132).Push(u);
              1 <= Dist(cum, t) < Dist(cum, u) <= 64 * 132 && r.tail == u && r.count == 1 && r.Has(t)
  {
    hide Ring.Push, Ring.Has, Ring.Takes, Zeros;
    var t, u := Alias(cum, 132);
  }
}
