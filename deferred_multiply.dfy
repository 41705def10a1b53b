/**
 * `multyply` from Errors/deffer.go: `return x * x` stores the product in the
 * named result `y`, and the deferred closure then doubles `y` before the
 * caller sees it. Both multiplications are on Go's 64-bit `int` and wrap.
 */
module DeferredMultiply {
  import opened GoInts

  /** What multyply(x) returns: 2·x·x reduced to an int64. */
  function DoubledSquare(x: int64): int64
  {
    Wrap64(2 * ((x as int) * (x as int)))
  }

  /** The function body followed by the deferred update of the named result. */
  method Multyply(x: int64) returns (y: int64)
    ensures y == DoubledSquare(x)
    ensures (y as int) % 2 == 0
    ensures 2 * ((x as int) * (x as int)) <= MaxInt64 ==> y as int == 2 * ((x as int) * (x as int)) && y >= 0
  {
    var xx := (x as int) * (x as int);
    y := Wrap64(xx);                 // return x * x
    y := Wrap64(2 * (y as int));     // deferred: y = y * 2
    WrapDouble(xx);
    WrapEven(2 * xx);
    SquareNonNegative(x as int);
  }

  lemma SquareNonNegative(a: int)
    ensures a * a >= 0
  {
    if a < 0 { MulMono(a, 0, -a); }
  }

  /** Negating the argument (with Go's wrap-around for the most negative int64)
      does not change the result. */
  lemma DoubledSquareOfNegation(x: int64)
    ensures DoubledSquare(Wrap64(-(x as int))) == DoubledSquare(x)
  {
    if x as int == MinInt64 {
      WrapUnique(-(x as int), 1, x as int);
    } else {
      var n := -(x as int);
      assert Wrap64(n) as int == n;
      assert n * n == (x as int) * (x as int);
    }
  }

  /** main: multyply(5) prints 50. */
  method Example() returns (y: int64)
    ensures y == 50
  {
    y := Multyply(5);
  }
}
