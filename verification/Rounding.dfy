/** Rounding to two decimal places, as the services do it for money and for percentages. */
module Rounding {

  // Rounding to the nearest integer, halves away from zero.
  function RoundHalfAway(x: real): int {
    if x >= 0.0 then (x + 0.5).Floor else -(-x + 0.5).Floor
  }

  function Cents(c: int): real {
    c as real / 100.0
  }

  // Rounds to two decimal places.
  function Round2(v: real): real {
    Cents(RoundHalfAway(v * 100.0))
  }

  lemma FloorOf(x: real, n: int)
    requires n as real <= x < n as real + 1.0
    ensures x.Floor == n
  {
  }

  lemma RoundWhole(n: int)
    ensures RoundHalfAway(n as real) == n
  {
  }

  lemma Round2Whole(c: int)
    ensures Round2(Cents(c)) == Cents(c)
  {
    RoundWhole(c);
    assert Cents(c) * 100.0 == c as real;
  }

  /** Rounding moves a value by half a hundredth at most. */
  lemma Round2Near(x: real)
    ensures -0.005 <= Round2(x) - x <= 0.005
  {
    var y := x * 100.0;
    assert -0.5 <= RoundHalfAway(y) as real - y <= 0.5;
  }

  lemma RoundMonotone(x: real, y: real)
    requires x <= y
    ensures RoundHalfAway(x) <= RoundHalfAway(y) && Round2(x) <= Round2(y)
  {
    RoundIntMonotone(x, y);
    RoundIntMonotone(x * 100.0, y * 100.0);
  }

  lemma RoundIntMonotone(x: real, y: real)
    requires x <= y
    ensures RoundHalfAway(x) <= RoundHalfAway(y)
  {
  }
}
