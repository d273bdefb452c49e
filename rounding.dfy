/**
  * `Math.round` of a quotient of integers. JavaScript rounds halves towards +infinity, so
  * `Math.round(a / b)` for b > 0 is floor(a/b + 1/2) = (2a + b) div 2b, and Dafny's `/` on
  * a positive divisor is floor division.
  */
module Rounding {

  function RoundDiv(a: int, b: int): (r: int)
    requires b > 0
    ensures 2 * b * r - b <= 2 * a < 2 * b * r + b
  {
    (2 * a + b) / (2 * b)
  }

  /** Rounding a quotient that is at least `lo` gives at least `lo`. */
  lemma RoundDivAtLeast(a: int, b: int, lo: int)
    requires b > 0 && lo * b <= a
    ensures lo <= RoundDiv(a, b)
  {
    var r := RoundDiv(a, b);
    if r < lo {
      assert b * (r + 1) <= b * lo by { MulMonotone(b, r + 1, lo); }
      assert false;
    }
  }

  /** Rounding a quotient that is at most `hi` gives at most `hi`. */
  lemma RoundDivAtMost(a: int, b: int, hi: int)
    requires b > 0 && a <= hi * b
    ensures RoundDiv(a, b) <= hi
  {
    var r := RoundDiv(a, b);
    if r > hi {
      assert b * r >= b * (hi + 1) by { MulMonotone(b, hi + 1, r); }
      assert false;
    }
  }

  /** Rounding a quotient that lies in [lo, hi] gives a value in [lo, hi]. */
  lemma RoundDivRange(a: int, b: int, lo: int, hi: int)
    requires b > 0 && lo * b <= a <= hi * b
    ensures lo <= RoundDiv(a, b) <= hi
  {
    RoundDivAtLeast(a, b, lo);
    RoundDivAtMost(a, b, hi);
  }

  lemma MulMonotone(b: int, x: int, y: int)
    requires b > 0 && x <= y
    ensures b * x <= b * y
  {
  }

  function Min(a: int, b: int): (m: int)
    ensures m <= a && m <= b && (m == a || m == b)
  {
    if a < b then a else b
  }
}
