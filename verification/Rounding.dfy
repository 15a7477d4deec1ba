/**
 The two ways the programs turn a real level into an integer: `lrint`, `lrintf` and
 Python's `round` take ties to even, the C function `round` takes them away from zero.
*/
module Rounding {

  /** `lrint` and `lrintf` in the default rounding mode. */
  function RoundHalfEven(x: real): (r: int)
    ensures r as real - 0.5 <= x <= r as real + 0.5
    ensures x == r as real + 0.5 || x == r as real - 0.5 ==> r % 2 == 0
  {
    var n := x.Floor;
    var part := x - n as real;
    if part < 0.5 then n
    else if part > 0.5 then n + 1
    else if n % 2 == 0 then n
    else n + 1
  }

  /** The C library's `round`. */
  function RoundHalfAway(x: real): (r: int)
    ensures r as real - 0.5 <= x <= r as real + 0.5
    ensures x == r as real + 0.5 ==> r < 0
    ensures x == r as real - 0.5 ==> r > 0
  {
    if x >= 0.0 then (x + 0.5).Floor else -((0.5 - x).Floor)
  }

  lemma RoundHalfEvenMonotone(x: real, y: real)
    requires x <= y
    ensures RoundHalfEven(x) <= RoundHalfEven(y)
  {
  }

  lemma RoundHalfAwayMonotone(x: real, y: real)
    requires x <= y
    ensures RoundHalfAway(x) <= RoundHalfAway(y)
  {
  }

  /** Integers are fixed points of both roundings. */
  lemma RoundInteger(n: int)
    ensures RoundHalfEven(n as real) == n && RoundHalfAway(n as real) == n
  {
  }
}
