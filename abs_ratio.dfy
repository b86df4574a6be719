/** Ratios between two rates (instrumentino/libs/abs_ratio.py). */
module AbsRatio {
  import opened Wrappers
  import opened PyNum

  /** The divisor `abs_ratio` will use is zero. */
  predicate DividesByZero(a: real, b: real)
  {
    if a > b then b == 0.0 else a == 0.0
  }

  /** The larger argument over the smaller: `a/b` if `a > b`, else `b/a`. */
  function AbsRatio(a: real, b: real): (r: Result<real>)
    ensures r.Err? <==> DividesByZero(a, b)
    ensures r.Err? ==> r.raised == ZeroDivisionError
    ensures r.Ok? && a > b ==> r.value * b == a
    ensures r.Ok? && a <= b ==> r.value * a == b
  {
    if a > b then (if b == 0.0 then Err(ZeroDivisionError) else Ok(a / b))
    else (if a == 0.0 then Err(ZeroDivisionError) else Ok(b / a))
  }

  /** `abs(a - b) < 0.00001`. */
  predicate FloatEquals(a: real, b: real)
  {
    Abs(a - b) < 0.00001
  }

  /** `is_harmony`: the ratio is within the tolerance of its truncation. */
  function IsHarmony(f1: real, f2: real): (r: Result<bool>)
    ensures r.Err? <==> DividesByZero(f1, f2)
    ensures r.Ok? ==> (r.value <==> FloatEquals(AbsRatio(f1, f2).value, Trunc(AbsRatio(f1, f2).value) as real))
  {
    match AbsRatio(f1 * 1.0, f2)
    case Err(e) => Err(e)
    case Ok(rat) => Ok(FloatEquals(rat, Trunc(rat) as real))
  }

  /** For positive arguments the ratio is at least 1. */
  lemma RatioAtLeastOne(a: real, b: real)
    requires a > 0.0 && b > 0.0
    ensures AbsRatio(a, b).Ok? && AbsRatio(a, b).value >= 1.0
  {
    var r := AbsRatio(a, b).value;
    if a > b {
      assert r * b == a;
      PositiveFactor(r, b);
    } else {
      assert r * a == b;
      PositiveFactor(r, a);
    }
  }

  lemma PositiveFactor(r: real, d: real)
    requires d > 0.0 && r * d >= d
    ensures r >= 1.0
  {
    assert (r - 1.0) * d == r * d - d;
  }

  /** The argument order does not matter. */
  lemma RatioSymmetric(a: real, b: real)
    ensures AbsRatio(a, b) == AbsRatio(b, a)
  {
  }

  lemma RatioOfEqual(a: real)
    requires a != 0.0
    ensures AbsRatio(a, a) == Ok(1.0)
  {
  }

  /** An integer ratio is a harmony. */
  lemma IntegerRatioIsHarmony(f1: real, f2: real)
    requires !DividesByZero(f1, f2) && IsInteger(AbsRatio(f1, f2).value)
    ensures IsHarmony(f1, f2) == Ok(true)
  {
    TruncOfInteger(AbsRatio(f1, f2).value);
  }

  /** The tolerance admits ratios that are not integers: 2.000001 against 1. */
  lemma NearIntegerRatioIsHarmony()
    ensures AbsRatio(2.000001, 1.0) == Ok(2.000001) && !IsInteger(2.000001)
    ensures IsHarmony(2.000001, 1.0) == Ok(true)
  {
    assert Trunc(2.000001) == 2;
  }

  /** A ratio well away from an integer is not a harmony: 7 against 10. */
  lemma FractionalRatioIsNotHarmony()
    ensures AbsRatio(7.0, 10.0) == Ok(10.0 / 7.0)
    ensures IsHarmony(7.0, 10.0) == Ok(false)
  {
    assert Trunc(10.0 / 7.0) == 1;
  }
}
