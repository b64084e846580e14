/** Shared helpers: Python's `None` next to a present value, and Python's integer conversions of reals. */
module Common {

  /** A value that may be absent (Python `None`). */
  datatype Option<T> = None | Some(value: T)

  function Abs(x: real): (r: real)
    ensures r >= 0.0 && (r == x || r == -x)
  {
    if x < 0.0 then -x else x
  }

  /** Python 3 `int(x)`: truncation toward zero. */
  function Trunc(x: real): (i: int)
    ensures Abs(i as real) <= Abs(x) < Abs(i as real) + 1.0
    ensures i == 0 || (i < 0 <==> x < 0.0)
  {
    if x >= 0.0 then x.Floor else -((-x).Floor)
  }

  /** Python 3 `round(x)`: the nearest integer, a tie going to the even neighbour. */
  function RoundHalfEven(x: real): (r: int)
    ensures Abs(x - r as real) <= 0.5
    ensures Abs(x - r as real) == 0.5 ==> r % 2 == 0
  {
    var f := x.Floor;
    var frac := x - f as real;
    if frac < 0.5 then f
    else if frac > 0.5 then f + 1
    else if f % 2 == 0 then f
    else f + 1
  }

  /** The rounded value is a nearest integer: no integer is strictly closer. */
  lemma RoundHalfEvenIsNearest(x: real, k: int)
    ensures Abs(x - RoundHalfEven(x) as real) <= Abs(x - k as real)
  {
    var r := RoundHalfEven(x);
    if k > r {
      assert k as real >= r as real + 1.0;
      assert x - r as real <= 0.5;
      assert k as real - x >= 0.5;
    } else if k < r {
      assert k as real <= r as real - 1.0;
      assert r as real - x <= 0.5;
      assert x - k as real >= 0.5;
    }
  }
}
