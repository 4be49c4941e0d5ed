/** The JavaScript `Math` functions the clock relies on, over exact reals.
    Floating-point rounding is not modelled. */
module Numeric {

  /** `Math.max` of two numbers. */
  function Max(a: real, b: real): (m: real)
    ensures a <= m && b <= m
    ensures m == a || m == b
  {
    if a >= b then a else b
  }

  /** `Math.min` of two numbers. */
  function Min(a: real, b: real): (m: real)
    ensures m <= a && m <= b
    ensures m == a || m == b
  {
    if a <= b then a else b
  }

  /** `Math.ceil`: the least integer that is not below `x`. */
  function Ceil(x: real): (n: int)
    ensures n as real - 1.0 < x <= n as real
  {
    -((-x).Floor)
  }

  /** `Math.round`: the integer nearest to `x`, a half rounded up towards +infinity. */
  function Round(x: real): (n: int)
    ensures x - 0.5 < n as real <= x + 0.5
  {
    (x + 0.5).Floor
  }

  /** A remaining time that is not negative shows 0 exactly when it is 0, and shows 1 for
      anything in (0, 1]. */
  lemma CeilOfRemaining(t: real)
    requires t >= 0.0
    ensures Ceil(t) >= 0
    ensures Ceil(t) == 0 <==> t == 0.0
    ensures 0.0 < t <= 1.0 ==> Ceil(t) == 1
  {
  }

  /** Rounding an integer gives it back, and rounding never leaves an integer interval
      that holds the value being rounded. */
  lemma RoundWithin(x: real, lo: int, hi: int)
    requires lo as real <= x <= hi as real
    ensures lo <= Round(x) <= hi
    ensures x == lo as real ==> Round(x) == lo
  {
  }
}
