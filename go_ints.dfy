/**
 * Go's `int` on a 64-bit platform: two's-complement wrap-around on overflow,
 * and integer division that truncates toward zero.
 */
module GoInts {

  const Modulus: int := 0x1_0000_0000_0000_0000
  const MinInt64: int := -0x8000_0000_0000_0000
  const MaxInt64: int := 0x7FFF_FFFF_FFFF_FFFF

  newtype int64 = x: int | -0x8000_0000_0000_0000 <= x < 0x8000_0000_0000_0000

  /** The int64 that a mathematical result wraps to; a value in range is kept. */
  function Wrap64(v: int): (r: int64)
    ensures MinInt64 <= v <= MaxInt64 ==> r as int == v
  {
    ((v - MinInt64) % 0x1_0000_0000_0000_0000 + MinInt64) as int64
  }

  /** The wrapped value differs from the exact one by a whole number of 2^64 steps. */
  lemma WrapWitness(v: int)
    ensures v - Wrap64(v) as int == ((v - MinInt64) / 0x1_0000_0000_0000_0000) * 0x1_0000_0000_0000_0000
    ensures (v - Wrap64(v) as int) % Modulus == 0
  {
  }

  /** An in-range value that differs from v by a multiple of 2^64 is v's wrap:
      the representative is unique. */
  lemma WrapUnique(v: int, k: int, w: int)
    requires MinInt64 <= w <= MaxInt64
    requires v - w == k * 0x1_0000_0000_0000_0000
    ensures Wrap64(v) as int == w
  {
    WrapWitness(v);
  }

  /** Wrapping an intermediate sum does not change the wrapped total: a running
      sum that overflows ends where the exact sum wraps to. */
  lemma WrapAdd(a: int, b: int)
    ensures Wrap64(Wrap64(a) as int + b) == Wrap64(a + b)
  {
    var w := Wrap64(a) as int;
    WrapWitness(a);
    WrapWitness(w + b);
    var q := (a - MinInt64) / 0x1_0000_0000_0000_0000;
    var q2 := (w + b - MinInt64) / 0x1_0000_0000_0000_0000;
    WrapUnique(a + b, q + q2, Wrap64(w + b) as int);
  }

  /** Doubling commutes with wrapping. */
  lemma WrapDouble(v: int)
    ensures Wrap64(2 * (Wrap64(v) as int)) == Wrap64(2 * v)
  {
    var w := Wrap64(v) as int;
    WrapWitness(v);
    WrapWitness(2 * w);
    var q := (v - MinInt64) / 0x1_0000_0000_0000_0000;
    var q2 := (2 * w - MinInt64) / 0x1_0000_0000_0000_0000;
    WrapUnique(2 * v, 2 * q + q2, Wrap64(2 * w) as int);
  }

  /** An even number wraps to an even int64, because 2^64 is even. */
  lemma WrapEven(v: int)
    requires v % 2 == 0
    ensures (Wrap64(v) as int) % 2 == 0
  {
    WrapWitness(v);
    var q := (v - MinInt64) / 0x1_0000_0000_0000_0000;
    assert Wrap64(v) as int == 2 * (v / 2 - q * 0x8000_0000_0000_0000);
  }

  /** Go's `a / b` on integers: the quotient truncated toward zero (unlike
      Dafny's Euclidean `/`). */
  function Quot(a: int, b: int): int
    requires b != 0
  {
    if a >= 0 then
      (if b > 0 then a / b else -(a / -b))
    else
      (if b > 0 then -(-a / b) else -a / -b)
  }

  /** The defining property of Go's division: the remainder is smaller than the
      divisor in magnitude and takes the sign of the dividend. */
  lemma QuotRemainder(a: int, b: int)
    requires b != 0
    ensures var r := a - Quot(a, b) * b;
      (if b > 0 then -b < r < b else b < r < -b) && (r == 0 || (r > 0 <==> a > 0))
  {
    var q := Quot(a, b);
    if a >= 0 {
      if b > 0 {
        assert a == (a / b) * b + a % b;
      } else {
        assert a == (a / -b) * -b + a % -b;
        assert q * b == (a / -b) * -b;
      }
    } else {
      if b > 0 {
        assert -a == (-a / b) * b + (-a) % b;
        assert q * b == -((-a / b) * b);
      } else {
        assert -a == (-a / -b) * -b + (-a) % -b;
        assert q * b == -((-a / -b) * -b);
      }
    }
  }

  lemma MulMono(x: int, y: int, n: int)
    requires n >= 0 && x <= y
    ensures x * n <= y * n
  {}

  lemma DivAtLeast(a: int, n: int, lo: int)
    requires a >= 0 && n > 0 && n * lo <= a
    ensures lo <= a / n
  {
    var q := a / n;
    assert a < (q + 1) * n;
    if q + 1 <= lo { MulMono(q + 1, lo, n); }
  }

  lemma DivAtMost(a: int, n: int, hi: int)
    requires a >= 0 && n > 0 && a <= n * hi
    ensures a / n <= hi
  {
    var q := a / n;
    assert q * n <= a;
    if hi + 1 <= q { MulMono(hi + 1, q, n); }
  }

  /** Dividing by a positive n keeps a dividend in [n·lo, n·hi] within [lo, hi]. */
  lemma QuotBetween(a: int, n: int, lo: int, hi: int)
    requires n > 0 && n * lo <= a <= n * hi
    ensures lo <= Quot(a, n) <= hi
  {
    if a >= 0 {
      if lo > 0 { DivAtLeast(a, n, lo); }
      DivAtMost(a, n, hi);
    } else {
      DivAtLeast(-a, n, -hi);
      if -lo >= 0 { DivAtMost(-a, n, -lo); }
    }
  }

  /** A truncated quotient by a positive divisor lies between 0 and the dividend,
      so it never leaves the int64 range of the dividend. */
  lemma QuotBounds(a: int, n: int)
    requires n > 0
    ensures a >= 0 ==> 0 <= Quot(a, n) <= a
    ensures a < 0 ==> a <= Quot(a, n) <= 0
  {
    if a >= 0 {
      MulMono(1, n, a);
      DivAtLeast(a, n, 0);
      DivAtMost(a, n, a);
    } else {
      MulMono(1, n, -a);
      DivAtLeast(-a, n, 0);
      DivAtMost(-a, n, -a);
    }
  }
}
