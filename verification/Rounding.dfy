/** `lrint`/`lrintf` in the default rounding mode, over exact reals. */
module Rounding {

  /** The nearest integer; a tie goes to the even neighbour. */
  function Rint(x: real): (r: int)
    ensures -0.5 <= r as real - x <= 0.5
    ensures r as real - x == 0.5 || r as real - x == -0.5 ==> r % 2 == 0
  {
    var f := x.Floor;
    var frac := x - f as real;
    if frac < 0.5 || (frac == 0.5 && f % 2 == 0) then f else f + 1
  }

  /** Rounding never reorders, and an integer bound survives it. */
  lemma RintAtLeast(x: real, k: int)
    requires k as real <= x
    ensures k <= Rint(x)
  {
    var r := Rint(x);
    assert (k - r) as real <= 0.5;
  }
}
