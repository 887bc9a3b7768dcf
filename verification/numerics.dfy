/** Floating-point constants and the two tolerance predicates of OsiFeatures.cpp.
    Doubles are modelled as exact reals, without rounding or range limits. */
module Numerics {

  /** The tolerance used by dbl_equal, intVal and Summary's zero test. */
  const Tol: real := 1e-16

  /** numeric_limits<double>::max(), i.e. (2 - 2^-52) * 2^1023. */
  const DblMax: real := 179769313486231570814527423731704356798070567525844996598917476803157260780028538760589558632766878171540458953514382464234321326889464182768467546703537516986049910576551282076245490090389328944075868508455133942304583236903222948165808559332123348274797826204144723168738177180919299881250404026184124858368.0

  /** numeric_limits<double>::min(), the smallest POSITIVE normal double, 2^-1022. */
  const DblMin: real := 1.0 / 44942328371557897693232629769725618340449424473557664318357520289433168951375240783177119330601884005280028469967848339414697442203604155623211857659868531094441973356216371319075554900311523529863270738021251442209537670585615720368478277635206809290837627671146574559986811484619929076208839082406056034304.0

  /** A double of the source, as an exact real. */
  type Double = real

  /** The value is one a finite double can hold in magnitude. */
  predicate Finite(x: real) { -DblMax <= x <= DblMax }

  function Abs(x: real): (r: real)
    ensures r >= 0.0 && (r == x || r == -x)
  {
    if x < 0.0 then -x else x
  }

  /** std::min(a, b): b when it is strictly smaller, otherwise a. */
  function Min(a: real, b: real): (r: real)
    ensures r <= a && r <= b && (r == a || r == b)
  {
    if b < a then b else a
  }

  /** std::max(a, b): b when it is strictly larger, otherwise a. */
  function Max(a: real, b: real): (r: real)
    ensures r >= a && r >= b && (r == a || r == b)
  {
    if a < b then b else a
  }

  /** Sign and size of a quotient of non-negative reals, for the ratio and
      percentage features. */
  lemma QuotientBounds(a: real, b: real)
    requires a >= 0.0 && b > 0.0
    ensures a / b >= 0.0 && (a / b == 0.0 <==> a == 0.0)
    ensures a >= b <==> a / b >= 1.0
    ensures a <= b <==> a / b <= 1.0
  {
    var q := a / b;
    assert q * b == a;
    if a > 0.0 {
      ProductSign(a, 1.0 / b);
      assert q == a * (1.0 / b);
    }
  }

  lemma ProductSign(x: real, y: real)
    requires x > 0.0 && y > 0.0
    ensures x * y > 0.0
  {
  }

  /** C's round(): the nearest integer, with halves rounded away from zero. */
  function RoundHalfAway(x: real): (r: int)
    ensures x >= 0.0 ==> x - 0.5 < r as real <= x + 0.5
    ensures x < 0.0 ==> x - 0.5 <= r as real < x + 0.5
  {
    if x >= 0.0 then (x + 0.5).Floor else -((-x + 0.5).Floor)
  }

  /** dbl_equal: the two values differ by at most the tolerance. The test is
      symmetric: it accepts exactly the closed band of half-width Tol around
      either argument. */
  function DblEqual(v1: real, v2: real): (b: bool)
    ensures b <==> v2 - Tol <= v1 <= v2 + Tol
    ensures b <==> v1 - Tol <= v2 <= v1 + Tol
  {
    Abs(v1 - v2) <= Tol
  }

  /** intVal as written: compares val with round(val + 0.5). What it
      accepts is a value lying at most the tolerance BELOW an integer,
      except the non-negative integers themselves, whose round(val + 0.5)
      is the next integer up. */
  function IntVal(val: real): (b: bool)
    ensures b <==>
      if val == val.Floor as real then val < 0.0 else val.Floor as real + 1.0 - val <= Tol
  {
    var fl := val.Floor;
    assert RoundHalfAway(val + 0.5) == if val + 0.5 < 0.0 && val == fl as real then fl else fl + 1 by {
      if val + 0.5 >= 0.0 {
        assert (val + 1.0).Floor == fl + 1;
      } else if val == fl as real {
        assert (-val).Floor == -fl;
      } else {
        assert (-val).Floor == -fl - 1;
      }
    }
    Abs(val - RoundHalfAway(val + 0.5) as real) <= Tol
  }

  /** 0, 1, 2, ... are NOT recognised as integral by intVal. */
  lemma NonNegativeIntegerIsNotIntVal(n: int)
    requires n >= 0
    ensures !IntVal(n as real)
  {
    assert (n as real).Floor == n;
  }

  /** -1, -2, ... are recognised as integral by intVal. */
  lemma NegativeIntegerIsIntVal(n: int)
    requires n < 0
    ensures IntVal(n as real)
  {
    assert (n as real).Floor == n;
  }
}
