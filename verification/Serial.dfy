/** Serial number arithmetic (section 3.2 of RFC 1982) as the transport uses it:
    32-bit TSNs and message identifiers, 16-bit stream sequence numbers.

    The comparisons are written as the code writes them; `Dist` gives the
    forward distance on the circle, and the lemmas say what each comparison
    means in those terms. */
module Serial {
  const TWO32: int := 0x1_0000_0000
  const HALF32: int := 0x8000_0000
  const TWO16: int := 0x1_0000
  const HALF16: int := 0x8000

  type uint32 = x: int | 0 <= x < 0x1_0000_0000
  type uint16 = x: int | 0 <= x < 0x1_0000

  /** uint32 addition and subtraction, wrapping at 2^32. `Dist` reads as the steps
      forward from a to b on the circle. */
  function Add(a: uint32, n: uint32): uint32 { if a + n < TWO32 then a + n else a + n - TWO32 }

  function Dist(a: uint32, b: uint32): uint32 { if a <= b then b - a else b - a + TWO32 }

  predicate Lt32(a: uint32, b: uint32) {
    (a < b && b - a < HALF32) || (a > b && a - b > HALF32)
  }

  predicate Lte32(a: uint32, b: uint32) { a == b || Lt32(a, b) }

  predicate Gt32(a: uint32, b: uint32) {
    (a < b && b - a >= HALF32) || (a > b && a - b <= HALF32)
  }

  function Dist16(a: uint16, b: uint16): uint16 { if a <= b then b - a else b - a + TWO16 }

  predicate Lt16(a: uint16, b: uint16) {
    (a < b && b - a < HALF16) || (a > b && a - b > HALF16)
  }

  predicate Lte16(a: uint16, b: uint16) { a == b || Lt16(a, b) }

  predicate Gt16(a: uint16, b: uint16) {
    (a < b && b - a >= HALF16) || (a > b && a - b <= HALF16)
  }

  /** "Less" is a forward distance short of half the circle; "greater" is exactly
      the negation of "less or equal", so it also holds at distance one half,
      where RFC 1982 leaves the order undefined. */
  lemma {:induction false} Compare(a: uint32, b: uint32)
    ensures Lt32(a, b) <==> 0 < Dist(a, b) < HALF32
    ensures Lte32(a, b) <==> Dist(a, b) < HALF32
    ensures Gt32(a, b) <==> !Lte32(a, b)
    ensures Gt32(a, b) == Lt32(b, a) <==> Dist(a, b) != HALF32
  {
  }

  lemma {:induction false} Compare16(a: uint16, b: uint16)
    ensures Lt16(a, b) <==> 0 < Dist16(a, b) < HALF16
    ensures Lte16(a, b) <==> Dist16(a, b) < HALF16
    ensures Gt16(a, b) <==> !Lte16(a, b)
  {
  }

  /** Around any base, serial order on offsets less than half the circle apart is
      the integer order on the offsets. */
  lemma {:induction false} OffsetOrder(base: uint32, i: uint32, j: uint32)
    requires -HALF32 < j - i < HALF32
    ensures Lt32(Add(base, i), Add(base, j)) <==> i < j
    ensures Lte32(Add(base, i), Add(base, j)) <==> i <= j
    ensures Gt32(Add(base, i), Add(base, j)) <==> i > j
    ensures Add(base, i) == Add(base, j) <==> i == j
  {
  }

  lemma {:induction false} MulDistributes(m: int, a: int, b: int)
    ensures m * (a - b) == m * a - m * b
  {
  }

  lemma {:induction false} ModShift(x: int, k: int, m: int)
    requires m > 0
    ensures (m * k + x) % m == x % m
  {
    ModUnique(m * k + x, m, k + x / m, x % m);
  }

  /** Uniqueness of Euclidean division. */
  lemma {:induction false} ModUnique(x: int, m: int, k: int, r: int)
    requires 0 <= r < m
    requires x == m * k + r
    ensures x % m == r && x / m == k
  {
    var d := x / m - k;
    MulDistributes(m, x / m, k);
    assert m * d == r - x % m;
    MulSmall(m, d);
  }

  lemma {:induction false} MulSmall(m: int, d: int)
    requires -m < m * d < m
    ensures d == 0
  {
    if d >= 1 { MulDistributes(m, d, 1); }
  }

  // Over a whole run a counter is an unbounded integer; only `Wire` of it is ever sent.

  function Wire(x: int): uint32 { x % TWO32 }

  /** Less than half the space apart. */
  ghost predicate Near(a: int, b: int) { -HALF32 < a - b < HALF32 }

  lemma {:induction false} WireDist(a: int, b: int)
    requires 0 <= b - a < TWO32
    ensures Dist(Wire(a), Wire(b)) == b - a
  {
    var q, r := a / TWO32, a % TWO32;
    assert a == TWO32 * q + r;
    if r + (b - a) < TWO32 {
      ModUnique(b, TWO32, q, r + (b - a));
    } else {
      ModUnique(b, TWO32, q + 1, r + (b - a) - TWO32);
    }
  }

  lemma {:induction false} WireAdd(a: int, n: nat)
    requires n < TWO32
    ensures Wire(a + n) == Add(Wire(a), n)
  {
    WireDist(a, a + n);
  }

  /** Within half the space the wire comparisons are the true ones. */
  lemma {:induction false} WireOrder(a: int, b: int)
    requires Near(a, b)
    ensures Lte32(Wire(a), Wire(b)) <==> a <= b
    ensures Gt32(Wire(a), Wire(b)) <==> a > b
    ensures Lt32(Wire(a), Wire(b)) <==> a < b
  {
    if a <= b { WireDist(a, b); } else { WireDist(b, a); }
    Compare(Wire(a), Wire(b));
    Compare(Wire(b), Wire(a));
  }

  lemma {:induction false} WireInjective(a: int, b: int)
    requires Near(a, b) && Wire(a) == Wire(b)
    ensures a == b
  {
    if a <= b { WireDist(a, b); } else { WireDist(b, a); }
  }

  // The same for 16-bit sequence numbers.

  function Wire16(x: int): uint16 { x % TWO16 }

  ghost predicate Near16(a: int, b: int) { -HALF16 < a - b < HALF16 }

  lemma {:induction false} Wire16Dist(a: int, b: int)
    requires 0 <= b - a < TWO16
    ensures Dist16(Wire16(a), Wire16(b)) == b - a
  {
    var q, r := a / TWO16, a % TWO16;
    assert a == TWO16 * q + r;
    if r + (b - a) < TWO16 {
      ModUnique(b, TWO16, q, r + (b - a));
    } else {
      ModUnique(b, TWO16, q + 1, r + (b - a) - TWO16);
    }
  }

  lemma {:induction false} Wire16Order(a: int, b: int)
    requires Near16(a, b)
    ensures Lte16(Wire16(a), Wire16(b)) <==> a <= b
    ensures Lt16(Wire16(a), Wire16(b)) <==> a < b
    ensures Wire16(a) == Wire16(b) <==> a == b
  {
    if a <= b { Wire16Dist(a, b); } else { Wire16Dist(b, a); }
    Compare16(Wire16(a), Wire16(b));
    Compare16(Wire16(b), Wire16(a));
  }
}
