/** Small shared helpers: an optional value and the real-number
    operations the control layer uses (absolute value, maximum, and the
    truncation toward zero that Python's `int()` performs on a float). */
module Prelude {

  /** The conventional Some/None datatype, standing for Python's `None`. */
  datatype Option<+T> = None | Some(value: T)

  function Abs(x: real): (r: real)
    ensures r >= 0.0
    ensures r == x || r == -x
  {
    if x >= 0.0 then x else -x
  }

  function Max(x: real, y: real): (r: real)
    ensures r >= x && r >= y
    ensures r == x || r == y
  {
    if x >= y then x else y
  }

  /** Python's `int(x)` on a float: the integer part, rounded toward zero. */
  function Trunc(x: real): (n: int)
    ensures x >= 0.0 ==> 0 <= n && n as real <= x < n as real + 1.0
    ensures x < 0.0 ==> n <= 0 && n as real - 1.0 < x <= n as real
  {
    if x >= 0.0 then x.Floor else -((-x).Floor)
  }

  /** Truncation never moves a value away from zero, so the whole pixels
      it yields never exceed the fractional amount they come from. */
  lemma TruncShrinks(x: real)
    ensures Abs(Trunc(x) as real) <= Abs(x)
    ensures Abs(x - Trunc(x) as real) < 1.0
  {
  }
}
