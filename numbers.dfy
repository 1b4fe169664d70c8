/** Python's numeric conversions that the chunk schedule and the time formatter share. */
module Numbers {

  /** Python's `int(x)` on a number: truncation toward zero. */
  function Trunc(x: real): (r: int)
    ensures x >= 0.0 ==> 0 <= r && r as real <= x < r as real + 1.0
    ensures x < 0.0 ==> r <= 0 && r as real - 1.0 < x <= r as real
  {
    if x < 0.0 then -((-x).Floor) else x.Floor
  }
}
