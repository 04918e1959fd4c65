/** Unit conversion shared by the stage model: the integer cast that turns a
    position scaled to motor steps into a step count. */
module Units {

  /** Truncation toward zero, the behaviour of an integer cast of a number.
      It agrees with `Floor` on non-negative inputs and rounds up on negative
      ones. */
  function Trunc(x: real): (r: int)
    ensures x >= 0.0 ==> 0 <= r && r as real <= x < r as real + 1.0
    ensures x < 0.0 ==> r <= 0 && r as real - 1.0 < x <= r as real
  {
    if x >= 0.0 then x.Floor else -((-x).Floor)
  }

  /** Truncation is symmetric about zero, which `Floor` is not. */
  lemma TruncOdd(x: real)
    ensures Trunc(-x) == -Trunc(x)
  {
  }

  /** Truncation is `Floor` except on negative non-integers, where it is one
      more. */
  lemma TruncVersusFloor(x: real)
    ensures x >= 0.0 || x == x.Floor as real ==> Trunc(x) == x.Floor
    ensures x < 0.0 && x != x.Floor as real ==> Trunc(x) == x.Floor + 1
  {
  }
}
