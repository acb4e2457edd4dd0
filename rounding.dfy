/** `Math.round(a / b)` for integers, computed exactly. */
module Rounding {

  /** The integer nearest to a / b, halves rounded up, as `Math.round`
      does. */
  function RoundDiv(a: int, b: int): (r: int)
    requires b > 0
    ensures -b <= 2 * (a - r * b) < b
  {
    var q := (2 * a + b) / (2 * b);
    assert 2 * a + b == (2 * b) * q + (2 * a + b) % (2 * b);
    q
  }

  /** No other integer is as close: the contract of RoundDiv fixes its
      result. */
  lemma RoundDivUnique(a: int, b: int, r: int)
    requires b > 0
    requires -b <= 2 * (a - r * b) < b
    ensures r == RoundDiv(a, b)
  {
    var q := RoundDiv(a, b);
    assert (q - r) * b == q * b - r * b;
    MulBounds(q - r, b);
  }

  lemma MulBounds(k: int, b: int)
    requires b > 0
    ensures k >= 1 ==> k * b >= b
    ensures k <= -1 ==> k * b <= -b
  {
  }

}
