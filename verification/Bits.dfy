/** 64-bit words as the receive window uses them: testing, setting and masking
    bits, counting the bits set, finding the first one.

    A uint64 is an integer below 2^64. The bitwise operators are defined bit by
    bit and the shifts one position at a time, dropping what leaves the word; the
    lemmas give each operator's effect on `Bit`. */
module Bits {
  import Serial

  type uint64 = x: int | 0 <= x < 0x1_0000_0000_0000_0000

  function Pow2(n: nat): (p: nat)
    ensures p > 0
  {
    if n == 0 then 1 else 2 * Pow2(n - 1)
  }

  predicate Bit(w: nat, i: nat) {
    if i == 0 then w % 2 == 1 else Bit(w / 2, i - 1)
  }

  function Or(a: nat, b: nat): nat {
    if a == 0 then b
    else 2 * Or(a / 2, b / 2) + (if a % 2 == 1 || b % 2 == 1 then 1 else 0)
  }

  function And(a: nat, b: nat): nat {
    if a == 0 then 0
    else 2 * And(a / 2, b / 2) + (if a % 2 == 1 && b % 2 == 1 then 1 else 0)
  }

  function AndNot(a: nat, b: nat): nat {
    if a == 0 then 0
    else 2 * AndNot(a / 2, b / 2) + (if a % 2 == 1 && b % 2 == 0 then 1 else 0)
  }

  function Not(a: uint64): uint64 { 0xFFFF_FFFF_FFFF_FFFF - a }

  function Shl(w: nat, n: nat): uint64 {
    if n == 0 then w % 0x1_0000_0000_0000_0000
    else (2 * Shl(w, n - 1)) % 0x1_0000_0000_0000_0000
  }

  function Shr(w: nat, n: nat): nat {
    if n == 0 then w else Shr(w / 2, n - 1)
  }

  // Effect of each operator on a bit.

  lemma {:induction false} ZeroAt(i: nat)
    ensures !Bit(0, i)
  {
    if i > 0 { ZeroAt(i - 1); }
  }

  lemma {:induction false} OrAt(a: nat, b: nat, i: nat)
    ensures Bit(Or(a, b), i) <==> Bit(a, i) || Bit(b, i)
  {
    if a == 0 { ZeroAt(i); } else if i > 0 { OrAt(a / 2, b / 2, i - 1); }
  }

  lemma {:induction false} AndAt(a: nat, b: nat, i: nat)
    ensures Bit(And(a, b), i) <==> Bit(a, i) && Bit(b, i)
  {
    if a == 0 { ZeroAt(i); } else if i > 0 { AndAt(a / 2, b / 2, i - 1); }
  }

  lemma {:induction false} AndNotAt(a: nat, b: nat, i: nat)
    ensures Bit(AndNot(a, b), i) <==> Bit(a, i) && !Bit(b, i)
  {
    if a == 0 { ZeroAt(i); } else if i > 0 { AndNotAt(a / 2, b / 2, i - 1); }
  }

  lemma {:induction false} NotAtWidth(k: nat, a: nat, i: nat)
    requires i < k && a < Pow2(k)
    ensures Bit(Pow2(k) - 1 - a, i) <==> !Bit(a, i)
  {
    assert Pow2(k) == 2 * Pow2(k - 1);
    if i > 0 {
      assert (Pow2(k) - 1 - a) / 2 == Pow2(k - 1) - 1 - a / 2;
      NotAtWidth(k - 1, a / 2, i - 1);
    }
  }

  lemma {:induction false} Pow2Of64()
    ensures Pow2(64) == 0x1_0000_0000_0000_0000
    ensures Pow2(63) == 0x8000_0000_0000_0000
  {
    Pow2Of16();
    hide Pow2;
    Pow2Add(16, 16);
    Pow2Add(32, 32);
    Pow2Next(63);
  }

  lemma {:induction false} Pow2Of16()
    ensures Pow2(16) == 0x1_0000
  {
    assert Pow2(2) == 4;
    hide Pow2;
    Pow2Add(2, 2);
    Pow2Add(4, 4);
    Pow2Add(8, 8);
  }

  lemma {:induction false} Pow2Next(n: nat)
    ensures Pow2(n + 1) == 2 * Pow2(n)
  {
  }

  lemma {:induction false} Pow2Add(a: nat, b: nat)
    ensures Pow2(a + b) == Pow2(a) * Pow2(b)
  {
    if b > 0 { Pow2Add(a, b - 1); }
  }

  lemma {:induction false} NotAt(a: uint64, i: nat)
    requires i < 64
    ensures Bit(Not(a), i) <==> !Bit(a, i)
  {
    Pow2Of64();
    NotAtWidth(64, a, i);
  }

  lemma {:induction false} ModAt(w: nat, k: nat, i: nat)
    requires i < k
    ensures Bit(w % Pow2(k), i) <==> Bit(w, i)
  {
    var m := Pow2(k - 1);
    assert Pow2(k) == 2 * m;
    var q, r := w / (2 * m), w % (2 * m);
    assert w == 2 * (m * q) + r;
    assert w / 2 == m * q + r / 2;
    if i > 0 {
      assert (w / 2) % m == r / 2 by { Serial.ModUnique(w / 2, m, q, r / 2); }
      ModAt(w / 2, k - 1, i - 1);
    }
  }

  lemma {:induction false} ShlAt(w: nat, n: nat, i: nat)
    requires i < 64
    ensures Bit(Shl(w, n), i) <==> n <= i && Bit(w, i - n)
  {
    Pow2Of64();
    if n == 0 {
      ModAt(w, 64, i);
    } else {
      var v: nat := Shl(w, n - 1);
      ModAt(2 * v, 64, i);
      if i > 0 {
        assert (2 * v) / 2 == v;
        ShlAt(w, n - 1, i - 1);
      }
    }
  }

  lemma {:induction false} ShrAt(w: nat, n: nat, i: nat)
    ensures Bit(Shr(w, n), i) <==> Bit(w, n + i)
  {
    if n > 0 { ShrAt(w / 2, n - 1, i); }
  }

  lemma {:induction false} OneAt(i: nat)
    ensures Bit(1, i) <==> i == 0
  {
    if i > 0 { ZeroAt(i - 1); }
  }

  lemma {:induction false} LowAt(n: nat, i: nat)
    ensures Bit(Pow2(n) - 1, i) <==> i < n
  {
    if n == 0 {
      ZeroAt(i);
    } else if i > 0 {
      assert (Pow2(n) - 1) / 2 == Pow2(n - 1) - 1;
      LowAt(n - 1, i - 1);
    }
  }

  /** 1 << n as a value, for n inside the word. */
  lemma {:induction false} ShlOne(n: nat)
    requires n < 64
    ensures Shl(1, n) == Pow2(n) < 0x1_0000_0000_0000_0000
    ensures Pow2(n) <= Pow2(63)
  {
    hide Pow2;
    Pow2Of64();
    Pow2Monotone(n, 63);
    if n == 0 {
      Pow2Zero();
    } else {
      ShlOne(n - 1);
      Pow2Next(n - 1);
    }
  }

  lemma {:induction false} Pow2Zero()
    ensures Pow2(0) == 1
  {
  }

  lemma {:induction false} Pow2Monotone(a: nat, b: nat)
    requires a <= b
    ensures Pow2(a) <= Pow2(b)
  {
    if a < b { Pow2Monotone(a, b - 1); }
  }

  /** No bit is set at or above the width of a value. */
  lemma {:induction false} HighAt(w: nat, k: nat, i: nat)
    requires w < Pow2(k) && k <= i
    ensures !Bit(w, i)
  {
    if k == 0 { ZeroAt(i); } else { HighAt(w / 2, k - 1, i - 1); }
  }

  lemma {:induction false} Widths(a: nat, b: nat, k: nat)
    requires a < Pow2(k) && b < Pow2(k)
    ensures Or(a, b) < Pow2(k) && And(a, b) < Pow2(k) && AndNot(a, b) < Pow2(k)
  {
    if a != 0 { Widths(a / 2, b / 2, k - 1); }
  }

  // The word updates of the receive window.

  /** w |= 1 << i */
  function SetBit(w: uint64, i: nat): (r: uint64)
    requires i < 64
  {
    Pow2Of64();
    Widths(w, Shl(1, i), 64);
    Or(w, Shl(1, i))
  }

  /** w &^= 1 << i */
  function ClearBit(w: uint64, i: nat): (r: uint64)
    requires i < 64
  {
    Pow2Of64();
    Widths(w, Shl(1, i), 64);
    AndNot(w, Shl(1, i))
  }

  /** The mask of n bits from position off; all ones when n is 64. */
  function Mask(n: nat, off: nat): (r: uint64)
    requires off < 64 && n + off <= 64
  {
    ShlOne(if n < 64 then n else 0);
    if n < 64 then Shl(Shl(1, n) - 1, off) else 0xFFFF_FFFF_FFFF_FFFF
  }

  function ClearMask(w: uint64, m: uint64): (r: uint64)
  {
    Pow2Of64();
    Widths(w, m, 64);
    AndNot(w, m)
  }

  lemma {:induction false} SetBitAt(w: uint64, i: nat, j: nat)
    requires i < 64 && j < 64
    ensures Bit(SetBit(w, i), j) <==> i == j || Bit(w, j)
  {
    OrAt(w, Shl(1, i), j);
    ShlAt(1, i, j);
    if i <= j { OneAt(j - i); }
  }

  lemma {:induction false} ClearBitAt(w: uint64, i: nat, j: nat)
    requires i < 64 && j < 64
    ensures Bit(ClearBit(w, i), j) <==> i != j && Bit(w, j)
  {
    AndNotAt(w, Shl(1, i), j);
    ShlAt(1, i, j);
    if i <= j { OneAt(j - i); }
  }

  /** The test `w & (1 << i) != 0` reads bit i. */
  lemma {:induction false} TestBit(w: uint64, i: nat)
    requires i < 64
    ensures And(w, Shl(1, i)) != 0 <==> Bit(w, i)
  {
    var v := And(w, Shl(1, i));
    if Bit(w, i) {
      AndAt(w, Shl(1, i), i);
      ShlAt(1, i, i);
      ZeroAt(i);
    } else {
      Pow2Of64();
      Widths(w, Shl(1, i), 64);
      forall j: nat
        ensures !Bit(v, j)
      {
        AndAt(w, Shl(1, i), j);
        if j < 64 {
          ShlAt(1, i, j);
          if i <= j { OneAt(j - i); }
        } else {
          HighAt(v, 64, j);
        }
      }
      NoBitsIsZero(v);
    }
  }

  /** A number is its bits. */
  lemma {:induction false} SameBits(a: nat, b: nat)
    requires forall j: nat :: Bit(a, j) <==> Bit(b, j)
    ensures a == b
  {
    assert Bit(a, 0) <==> Bit(b, 0);
    if a == 0 {
      forall j: nat ensures !Bit(b, j) { ZeroAt(j); assert Bit(a, j) <==> Bit(b, j); }
      NoBitsIsZero(b);
    } else {
      forall j: nat ensures Bit(a / 2, j) <==> Bit(b / 2, j) { assert Bit(a, j + 1) <==> Bit(b, j + 1); }
      SameBits(a / 2, b / 2);
    }
  }

  lemma {:induction false} EqualWords(a: uint64, b: uint64)
    requires forall j: nat :: j < 64 ==> (Bit(a, j) <==> Bit(b, j))
    ensures a == b
  {
    Pow2Of64();
    forall j: nat ensures Bit(a, j) <==> Bit(b, j) {
      if j >= 64 { HighAt(a, 64, j); HighAt(b, 64, j); }
    }
    SameBits(a, b);
  }

  lemma {:induction false} NoBitsIsZero(w: nat)
    requires forall j: nat :: !Bit(w, j)
    ensures w == 0
  {
    if w != 0 {
      assert !Bit(w, 0);
      forall j: nat ensures !Bit(w / 2, j) { assert !Bit(w, j + 1); }
      NoBitsIsZero(w / 2);
    }
  }

  lemma {:induction false} MaskAt(n: nat, off: nat, i: nat)
    requires off < 64 && n + off <= 64 && i < 64
    ensures Bit(Mask(n, off), i) <==> off <= i < off + n
  {
    if n < 64 {
      ShlOne(n);
      ShlAt(Pow2(n) - 1, off, i);
      if off <= i { LowAt(n, i - off); }
    } else {
      Pow2Of64();
      LowAt(64, i);
    }
  }

  /** One more bit of a mask is one more bit cleared. */
  lemma {:induction false} ClearMaskNext(w: uint64, n: nat, off: nat)
    requires off < 64 && n + 1 + off <= 64
    ensures ClearMask(w, Mask(n + 1, off)) == ClearBit(ClearMask(w, Mask(n, off)), off + n)
  {
    var a, b := ClearMask(w, Mask(n + 1, off)), ClearMask(w, Mask(n, off));
    forall j: nat | j < 64 ensures Bit(a, j) <==> Bit(ClearBit(b, off + n), j) {
      AndNotAt(w, Mask(n + 1, off), j);
      AndNotAt(w, Mask(n, off), j);
      MaskAt(n + 1, off, j);
      MaskAt(n, off, j);
      ClearBitAt(b, off + n, j);
    }
    hide ClearMask, ClearBit, Mask;
    EqualWords(a, ClearBit(b, off + n));
  }

  lemma {:induction false} ClearMaskNone(w: uint64, off: nat)
    requires off < 64
    ensures ClearMask(w, Mask(0, off)) == w
  {
    forall j: nat | j < 64 ensures Bit(ClearMask(w, Mask(0, off)), j) <==> Bit(w, j) {
      AndNotAt(w, Mask(0, off), j);
      MaskAt(0, off, j);
    }
    hide ClearMask, Mask;
    EqualWords(ClearMask(w, Mask(0, off)), w);
  }

  // The two standard-library scans.

  /** bits.TrailingZeros64: the lowest bit set, or 64. */
  function TrailingZeros(w: nat): (r: nat)
    ensures r <= 64
    ensures forall i: nat :: i < r ==> !Bit(w, i)
    ensures r < 64 ==> Bit(w, r)
  {
    FirstFrom(w, 0)
  }

  function FirstFrom(w: nat, k: nat): (r: nat)
    requires k <= 64
    ensures k <= r <= 64
    ensures forall i: nat :: k <= i < r ==> !Bit(w, i)
    ensures r < 64 ==> Bit(w, r)
    decreases 64 - k
  {
    if k == 64 || Bit(w, k) then k else FirstFrom(w, k + 1)
  }

  /** bits.OnesCount64. */
  function OnesCount(w: nat): nat { CountRange(w, 0, 64) }

  /** How many of the bits lo..hi-1 are set. */
  function CountRange(w: nat, lo: nat, hi: nat): nat
    requires lo <= hi
    decreases hi - lo
  {
    if lo == hi then 0
    else CountRange(w, lo, hi - 1) + (if Bit(w, hi - 1) then 1 else 0)
  }

  lemma {:induction false} CountZero(w: nat, lo: nat, hi: nat)
    requires lo <= hi
    requires forall i: nat :: lo <= i < hi ==> !Bit(w, i)
    ensures CountRange(w, lo, hi) == 0
    decreases hi - lo
  {
    if lo < hi { CountZero(w, lo, hi - 1); }
  }

  lemma {:induction false} CountSame(w: nat, v: nat, lo: nat, hi: nat)
    requires lo <= hi
    requires forall i: nat :: lo <= i < hi ==> (Bit(w, i) <==> Bit(v, i))
    ensures CountRange(w, lo, hi) == CountRange(v, lo, hi)
    decreases hi - lo
  {
    if lo < hi { CountSame(w, v, lo, hi - 1); }
  }

  lemma {:induction false} CountSplit(w: nat, lo: nat, mid: nat, hi: nat)
    requires lo <= mid <= hi
    ensures CountRange(w, lo, hi) == CountRange(w, lo, mid) + CountRange(w, mid, hi)
    decreases hi - mid
  {
    if mid < hi { CountSplit(w, lo, mid, hi - 1); }
  }

  /** Counting the masked word counts exactly the masked range. */
  lemma {:induction false} CountMasked(w: uint64, n: nat, off: nat)
    requires off < 64 && n + off <= 64
    ensures OnesCount(And(w, Mask(n, off))) == CountRange(w, off, off + n)
  {
    var v := And(w, Mask(n, off));
    forall j: nat | j < 64
      ensures Bit(v, j) <==> Bit(w, j) && off <= j < off + n
    {
      AndAt(w, Mask(n, off), j);
      MaskAt(n, off, j);
    }
    CountSplit(v, 0, off, 64);
    CountSplit(v, off, off + n, 64);
    CountZero(v, 0, off);
    CountZero(v, off + n, 64);
    CountSame(v, w, off, off + n);
  }

  /** getFirstNonZeroBit: the first bit set at or after start. */
  function FirstNonZeroBit(w: uint64, start: nat): (r: (nat, bool))
    requires start < 64
    ensures r.1 ==> start <= r.0 < 64 && Bit(w, r.0)
    ensures r.1 ==> forall i: nat :: start <= i < r.0 ==> !Bit(w, i)
    ensures !r.1 ==> forall i: nat :: start <= i < 64 ==> !Bit(w, i)
  {
    var i := TrailingZeros(Shr(w, start));
    ShrScan(w, start, i);
    (i + start, i + start < 64)
  }

  lemma {:induction false} ShrScan(w: uint64, start: nat, t: nat)
    requires start < 64 && t == TrailingZeros(Shr(w, start))
    ensures forall i: nat :: start <= i < 64 && i < start + t ==> !Bit(w, i)
    ensures start + t < 64 ==> Bit(w, start + t)
  {
    ShrAt(w, start, t);
    forall i: nat | start <= i < 64 && i < start + t
      ensures !Bit(w, i)
    {
      ShrAt(w, start, i - start);
    }
  }

  /** getFirstZeroBit: the first bit clear at or after start. */
  function FirstZeroBit(w: uint64, start: nat): (r: (nat, bool))
    requires start < 64
    ensures r.1 ==> start <= r.0 < 64 && !Bit(w, r.0)
    ensures r.1 ==> forall i: nat :: start <= i < r.0 ==> Bit(w, i)
    ensures !r.1 ==> forall i: nat :: start <= i < 64 ==> Bit(w, i)
  {
    NotBits(w);
    FirstNonZeroBit(Not(w), start)
  }

  lemma {:induction false} NotBits(w: uint64)
    ensures forall i: nat :: i < 64 ==> (Bit(Not(w), i) <==> !Bit(w, i))
  {
    forall i: nat | i < 64 { NotAt(w, i); }
  }
}
