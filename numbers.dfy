/** Arithmetic on money amounts (SQLite REAL, modelled as exact reals). */
module Numbers {

  function Abs(x: real): (r: real)
    ensures r >= 0.0 && (r == x || r == -x)
  {
    if x < 0.0 then -x else x
  }

  predicate IsEven(n: int) {
    n % 2 == 0
  }

  /**
   * numpy's `round()` on a float: to the nearest integer, and on an exact
   * half to the even neighbour (banker's rounding).
   */
  function RoundHalfEven(x: real): (r: int)
    ensures -0.5 <= x - r as real <= 0.5
    ensures x - r as real == 0.5 || x - r as real == -0.5 ==> IsEven(r)
  {
    var f := x.Floor;
    var frac := x - f as real;
    if frac < 0.5 then f
    else if frac > 0.5 then f + 1
    else if IsEven(f) then f
    else f + 1
  }

  /** The two contracts of RoundHalfEven determine its result. */
  lemma RoundHalfEvenUnique(x: real, n: int)
    requires -0.5 <= x - n as real <= 0.5
    requires x - n as real == 0.5 || x - n as real == -0.5 ==> IsEven(n)
    ensures n == RoundHalfEven(x)
  {
    var r := RoundHalfEven(x);
    if n < r {
      assert false;
    } else if r < n {
      assert false;
    }
  }

  /** `sum(f(x) for x in s)`; SQL's `COALESCE(SUM(...), 0)` over the rows `s`. */
  function SumBy<T>(s: seq<T>, f: T -> real): real {
    if s == [] then 0.0 else f(s[0]) + SumBy(s[1..], f)
  }

  /** A sum over two concatenated row sets is the sum of the two sums. */
  lemma {:induction false} SumByAppend<T>(a: seq<T>, b: seq<T>, f: T -> real)
    ensures SumBy(a + b, f) == SumBy(a, f) + SumBy(b, f)
  {
    if a == [] {
      assert a + b == b;
    } else {
      assert (a + b)[1..] == a[1..] + b;
      SumByAppend(a[1..], b, f);
    }
  }
}
