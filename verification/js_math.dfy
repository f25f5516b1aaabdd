/** JavaScript arithmetic that differs from Dafny's. */
module JsMath {
  /** JavaScript's `%` on integers: the remainder of division truncated toward zero. */
  function JsRem(a: int, b: int): (r: int)
    requires b > 0
    ensures a >= 0 ==> r == a % b
    ensures a < 0 ==> -b < r <= 0
  {
    if a >= 0 then a % b else -((-a) % b)
  }
}
