/** The two ways the project rounds decimals to whole units. */
module Rounding {

  /** Nearest integer, ties to the even one. */
  function HalfEven(x: real): (n: int)
    ensures -0.5 <= n as real - x <= 0.5
  {
    var below := x.Floor;
    var rest := x - below as real;
    if rest < 0.5 || (rest == 0.5 && below % 2 == 0) then below else below + 1
  }

  /** Nearest integer, ties away from zero. */
  function HalfUp(x: real): (n: int)
    ensures -0.5 <= n as real - x <= 0.5
  {
    if x >= 0.0 then (x + 0.5).Floor else -((0.5 - x).Floor)
  }

  /** The nearest integer, or of two as near the even one. */
  lemma HalfEvenIff(x: real, n: int)
    ensures HalfEven(x) == n
       <==> -0.5 < n as real - x < 0.5 || ((n as real - x == 0.5 || x - n as real == 0.5) && n % 2 == 0)
  {
    var k := x.Floor;
    if -0.5 <= n as real - x <= 0.5 { assert n == k || n == k + 1; }
  }

  /** The nearest integer, or of two as near the one farther from zero. */
  lemma HalfUpIff(x: real, n: int)
    ensures HalfUp(x) == n
       <==> -0.5 < n as real - x < 0.5 || (x >= 0.0 && n as real - x == 0.5) || (x <= 0.0 && x - n as real == 0.5)
  {
    if x >= 0.0 {
      assert HalfUp(x) == n <==> n as real <= x + 0.5 < n as real + 1.0;
    } else {
      assert HalfUp(x) == n <==> (-n) as real <= 0.5 - x < (-n) as real + 1.0;
    }
  }
}
