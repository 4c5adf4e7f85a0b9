/** Bytes and the machine integers of the generated codec: Go's `int`, `uint64` and
    `int32`, their conversions, and bitwise OR on natural numbers. */
module Bits {

  type Byte = b: int | 0 <= b < 256

  const TWO_31 := 0x8000_0000
  const TWO_32 := 0x1_0000_0000
  const TWO_63 := 0x8000_0000_0000_0000
  const TWO_64 := 0x1_0000_0000_0000_0000

  function Pow2(n: nat): (p: nat)
    ensures p >= 1
  {
    if n == 0 then 1 else 2 * Pow2(n - 1)
  }

  lemma Pow2Widths()
    ensures Pow2(7) == 128 && Pow2(31) == TWO_31 && Pow2(32) == TWO_32
    ensures Pow2(63) == TWO_63 && Pow2(64) == TWO_64 && Pow2(70) == 64 * TWO_64
  {
    assert Pow2(7) == 128;
    assert Pow2(15) == 0x8000;
    assert Pow2(23) == 0x80_0000;
    assert Pow2(31) == TWO_31;
    assert Pow2(39) == 0x80_0000_0000;
    assert Pow2(47) == 0x8000_0000_0000;
    assert Pow2(55) == 0x80_0000_0000_0000;
    assert Pow2(63) == TWO_63;
  }

  lemma {:induction false} Pow2Add(a: nat, b: nat)
    ensures Pow2(a + b) == Pow2(a) * Pow2(b)
  {
    if a == 0 {
    } else {
      Pow2Add(a - 1, b);
      assert Pow2(a + b) == 2 * Pow2(a - 1 + b);
    }
  }

  /** A 64-bit sum as Go computes it: out-of-range results wrap to the negative side. */
  function Wrap64(x: int): (r: int)
    ensures -TWO_63 <= r < TWO_63
    ensures -TWO_63 <= x < TWO_63 ==> r == x
    ensures TWO_63 <= x < TWO_64 ==> r == x - TWO_64 < 0
  {
    (x + TWO_63) % TWO_64 - TWO_63
  }

  /** `int(u)` and `int64(u)` of the 64-bit pattern `u`. */
  function ToInt64(u: nat): (i: int)
    requires u < TWO_64
    ensures -TWO_63 <= i < TWO_63
  {
    if u < TWO_63 then u else u - TWO_64
  }

  /** `uint64(i)`, which sign-extends a narrower `i`. */
  function FromInt64(i: int): (u: nat)
    requires -TWO_63 <= i < TWO_63
    ensures u < TWO_64 && ToInt64(u) == i
  {
    if i >= 0 then i else i + TWO_64
  }

  /** `int32` of the 32-bit pattern `u`. */
  function ToInt32(u: nat): (i: int)
    requires u < TWO_32
    ensures -TWO_31 <= i < TWO_31
  {
    if u < TWO_31 then u else u - TWO_32
  }

  /** Sign extension to 64 bits followed by truncation to 32 is the identity. */
  lemma Int32SurvivesSignExtension(i: int)
    requires -TWO_31 <= i < TWO_31
    ensures ToInt32(FromInt64(i) % TWO_32) == i
  {
    if i < 0 {
      assert FromInt64(i) == (TWO_32 - 1) * TWO_32 + (i + TWO_32);
    }
  }

  /** Bitwise OR, bit by bit. */
  function BitOr(x: nat, y: nat): nat {
    if x == 0 then y
    else if y == 0 then x
    else (if x % 2 == 1 || y % 2 == 1 then 1 else 0) + 2 * BitOr(x / 2, y / 2)
  }

  /** OR-ing a number below 2^k with a multiple of 2^k adds them. */
  lemma {:induction false} OrDisjoint(x: nat, y: nat, k: nat)
    requires x < Pow2(k)
    ensures BitOr(x, y * Pow2(k)) == x + y * Pow2(k)
  {
    if x == 0 || y == 0 {
    } else {
      var z := y * Pow2(k - 1);
      assert y * Pow2(k) == 2 * z;
      OrDisjoint(x / 2, y, k - 1);
      assert y * Pow2(k) > 0;
    }
  }

  lemma MulAtLeast(k: int, m: int)
    requires k >= 1 && m >= 0
    ensures k * m >= m
  {
    assert k * m == (k - 1) * m + m;
  }

  lemma QuotientUnique(m: int, q: int, r: int, q': int, r': int)
    requires 0 <= r < m && 0 <= r' < m && q * m + r == q' * m + r'
    ensures q == q'
  {
    if q > q' {
      MulAtLeast(q - q', m);
    } else if q < q' {
      MulAtLeast(q' - q, m);
    }
  }

  lemma ModUnique(a: int, m: int, q: int, r: int)
    requires 0 <= r < m && a == q * m + r
    ensures a % m == r
  {
    assert a == (a / m) * m + a % m;
    QuotientUnique(m, q, r, a / m, a % m);
  }

  lemma SplitProduct(x: nat, p: nat, q: nat)
    requires q > 0
    ensures x * p == (x / q) * (p * q) + (x % q) * p
    ensures (x % q) * p + p <= p * q
  {
    var lo, hi := x % q, x / q;
    assert x == hi * q + lo;
    assert x * p == (hi * q) * p + lo * p;
    assert (hi * q) * p == hi * (p * q);
    MulLessEqual(lo + 1, q, p);
    assert (lo + 1) * p == lo * p + p;
  }

  lemma MulLessEqual(a: nat, b: nat, c: nat)
    requires a <= b
    ensures a * c <= b * c
  {
    assert b * c == a * c + (b - a) * c;
  }

  /** One round of `v |= T(b & 0x7F) << shift` with T of width `w`: the accumulator keeps
      the true sum modulo 2^w, including when the shift pushes bits out of T. */
  lemma AccumulateStep(r: nat, x: nat, s: nat, w: nat)
    requires r < Pow2(s)
    ensures BitOr(r % Pow2(w), (x * Pow2(s)) % Pow2(w)) == (r + x * Pow2(s)) % Pow2(w)
  {
    if s >= w {
      AccumulateBeyond(r, x, s, w);
    } else {
      var p, m, q := Pow2(s), Pow2(w), Pow2(w - s);
      Pow2Add(s, w - s);
      SplitProduct(x, p, q);
      ModUnique(x * p, m, x / q, (x % q) * p);
      ModUnique(r, m, 0, r);
      ModUnique(r + x * p, m, x / q, r + (x % q) * p);
      OrDisjoint(r, x % q, s);
    }
  }

  lemma AccumulateBeyond(r: nat, x: nat, s: nat, w: nat)
    requires s >= w
    ensures (x * Pow2(s)) % Pow2(w) == 0
    ensures BitOr(r % Pow2(w), 0) == (r + x * Pow2(s)) % Pow2(w)
  {
    Pow2Add(w, s - w);
    hide Pow2;
    AddMultiple(0, x, Pow2(w), Pow2(s - w));
    AddMultiple(r, x, Pow2(w), Pow2(s - w));
  }

  lemma AddMultiple(r: nat, x: nat, m: nat, d: nat)
    requires m > 0
    ensures (r + x * (m * d)) % m == r % m
  {
    assert x * (m * d) == (x * d) * m;
    assert r == r / m * m + r % m;
    assert (r / m + x * d) * m == r / m * m + (x * d) * m;
    ModUnique(r + x * (m * d), m, r / m + x * d, r % m);
  }
}
