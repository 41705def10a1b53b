/**
 * The `int` instantiation of the accumulating average in Generics/medium.go:
 * `Avg` is a slice of values, `Add` appends through the pointer receiver and
 * returns it, and `Val` sums the slice (64-bit, wrapping) and divides by its
 * length with Go's truncating division.
 */
module RunningAverage {
  import opened GoInts

  /** The exact sum of the values, accumulated from the front. */
  function Sum(s: seq<int64>): int
  {
    if s == [] then 0 else Sum(s[..|s| - 1]) + s[|s| - 1] as int
  }

  /** The value Val reports for the values `s`. */
  function Mean(s: seq<int64>): (v: int64)
  {
    if |s| == 0 then 0
    else
      var total := Wrap64(Sum(s)) as int;
      var q := Quot(total, |s|);
      QuotBounds(total, |s|);
      q as int64
  }

  class Avg {
    var items: seq<int64>

    /** Avg[int]{}: the empty slice. */
    constructor ()
      ensures items == []
    {
      items := [];
    }

    /** Appends val and returns the same receiver, so calls chain. */
    method Add(val: int64) returns (self: Avg)
      modifies this
      ensures self == this
      ensures items == old(items) + [val]
    {
      items := items + [val];
      self := this;
    }

    /** Sums with wrap-around in a range loop, then divides by the length. */
    method Val() returns (v: int64)
      ensures v == Mean(items)
      ensures |items| == 0 ==> v == 0
    {
      if |items| == 0 {
        return 0;
      }
      var sum: int64 := 0;
      for i := 0 to |items|
        invariant sum == Wrap64(Sum(items[..i]))
      {
        assert items[..i + 1][..i] == items[..i];
        WrapAdd(Sum(items[..i]), items[i] as int);
        sum := Wrap64(sum as int + items[i] as int);
      }
      assert items[..|items|] == items;
      var q := Quot(sum as int, |items|);
      QuotBounds(sum as int, |items|);
      v := q as int64;
    }
  }

  /** When the exact sum fits in an int64, the average of values that all lie in
      [lo, hi] lies in [lo, hi] too. */
  lemma {:induction false} MeanBetween(s: seq<int64>, lo: int, hi: int)
    requires |s| > 0
    requires forall i :: 0 <= i < |s| ==> lo <= s[i] as int <= hi
    requires MinInt64 <= Sum(s) <= MaxInt64
    ensures lo <= Mean(s) as int <= hi
  {
    SumBetween(s, lo, hi);
    assert Wrap64(Sum(s)) as int == Sum(s);
    QuotBetween(Sum(s), |s|, lo, hi);
  }

  /** When the exact sum fits in an int64, the average is the sum divided by the
      count and truncated toward zero: what is left over is smaller than the
      count and has the sign of the sum (so -7/2 gives -3, not -4). */
  lemma MeanTruncates(s: seq<int64>)
    requires |s| > 0
    requires MinInt64 <= Sum(s) <= MaxInt64
    ensures var r := Sum(s) - (Mean(s) as int) * |s|;
      -|s| < r < |s| && (r == 0 || (r > 0 <==> Sum(s) > 0))
  {
    assert Wrap64(Sum(s)) as int == Sum(s);
    QuotRemainder(Sum(s), |s|);
  }

  /** The sum of n values in [lo, hi] lies in [n·lo, n·hi]. */
  lemma {:induction false} SumBetween(s: seq<int64>, lo: int, hi: int)
    requires forall i :: 0 <= i < |s| ==> lo <= s[i] as int <= hi
    ensures |s| * lo <= Sum(s) <= |s| * hi
  {
    if s != [] {
      SumBetween(s[..|s| - 1], lo, hi);
    }
  }

  /** main: adding 4, 3 and 2 through chained calls gives Val() == 3. */
  method Example() returns (items: seq<int64>, v: int64)
    ensures items == [4, 3, 2]
    ensures v == 3
  {
    var a := new Avg();
    var b := a.Add(4);
    b := b.Add(3);
    b := b.Add(2);
    v := a.Val();
    items := a.items;
    assert Sum([4, 3, 2]) == 9 by {
      assert [4, 3, 2][..2] == [4, 3];
      assert [4, 3][..1] == [4];
      assert [4 as int64][..0] == [];
    }
  }
}
