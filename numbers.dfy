/** Python's numeric conversions on exact reals. */
module PyNum {

  /** Python's `int(x)` for a float: truncation toward zero. */
  function Trunc(x: real): (r: int)
    ensures x >= 0.0 ==> r as real <= x < r as real + 1.0
    ensures x < 0.0 ==> r as real - 1.0 < x <= r as real
  {
    if x >= 0.0 then x.Floor else -((-x).Floor)
  }

  /** Python's `math.ceil` (returning a float in Python 2, here its integer value). */
  function Ceil(x: real): (r: int)
    ensures x <= r as real < x + 1.0
  {
    if x.Floor as real == x then x.Floor else x.Floor + 1
  }

  /** Python's `float.is_integer()`. */
  predicate IsInteger(x: real)
  {
    x.Floor as real == x
  }

  function Abs(x: real): (r: real)
    ensures r >= 0.0 && (r == x || r == -x)
  {
    if x >= 0.0 then x else -x
  }

  function MinReal(a: real, b: real): real { if a <= b then a else b }

  function MaxReal(a: real, b: real): real { if a >= b then a else b }

  /** `int(x)` of a float with an integral value is that value. */
  lemma TruncOfInteger(x: real)
    requires IsInteger(x)
    ensures Trunc(x) as real == x
  {
    if x < 0.0 {
      var n := x.Floor;
      assert -x == (-n) as real;
      assert (-x).Floor == -n;
    }
  }
}
