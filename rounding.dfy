/** Rounding to two decimal places, as Python's `round(x, 2)` does: to the
    nearest hundredth, a tie going to the even hundredth. Stated on exact
    reals, not on binary floating point. */
module Rounding {

  /** The integer nearest to y; of two equally near, the even one. */
  function RoundHalfEven(y: real): (n: int)
    ensures y - 0.5 <= n as real <= y + 0.5
    ensures (n as real - y == 0.5 || y - n as real == 0.5) ==> n % 2 == 0
  {
    var f := y.Floor;
    var frac := y - f as real;
    if frac < 0.5 then f
    else if frac > 0.5 then f + 1
    else if f % 2 == 0 then f else f + 1
  }

  /** The rounding is to the nearest integer: any integer strictly within
      one half of y is the result. */
  lemma RoundHalfEvenNearest(y: real, m: int)
    requires y - 0.5 < m as real < y + 0.5
    ensures RoundHalfEven(y) == m
  {
    var n := RoundHalfEven(y);
    assert n as real - m as real < 1.0 && m as real - n as real < 1.0;
  }

  /** Rounding never reverses the order of two values. */
  lemma RoundHalfEvenMonotone(y: real, z: real)
    requires y <= z
    ensures RoundHalfEven(y) <= RoundHalfEven(z)
  {
    if y < z {
      var a, b := RoundHalfEven(y), RoundHalfEven(z);
      assert a as real - b as real < 1.0;
    }
  }

  /** `round(x, 2)`: x to the nearest hundredth, ties to even. */
  function Round2(x: real): (r: real)
    ensures x - 0.005 <= r <= x + 0.005
    ensures IsHundredths(r)
  {
    var n := RoundHalfEven(x * 100.0);
    assert (n as real / 100.0) * 100.0 == n as real;
    n as real / 100.0
  }

  /** r is a whole number of hundredths. */
  predicate IsHundredths(r: real)
  {
    (r * 100.0).Floor as real == r * 100.0
  }

  /** A value already in hundredths is left as it is. */
  lemma Round2Exact(x: real)
    requires IsHundredths(x)
    ensures Round2(x) == x
  {
    var m := (x * 100.0).Floor;
    RoundHalfEvenNearest(x * 100.0, m);
    assert Round2(x) == m as real / 100.0;
  }

  /** Rounding twice is rounding once. */
  lemma Round2Idempotent(x: real)
    ensures Round2(Round2(x)) == Round2(x)
  {
    Round2Exact(Round2(x));
  }

  /** Rounding to hundredths never reverses the order of two values. */
  lemma Round2Monotone(x: real, y: real)
    requires x <= y
    ensures Round2(x) <= Round2(y)
  {
    RoundHalfEvenMonotone(x * 100.0, y * 100.0);
  }
}
