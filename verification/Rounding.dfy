/** Rounding to a number of decimal places, in exact arithmetic. */
module Rounding {

  const UNITS: real := 100000000.0
  const HALF: real := 0.000000005

  /** To the nearest integer, ties to the even one. */
  function RoundEven(y: real): int {
    var down := y.Floor;
    var rest := y - down as real;
    if rest < 0.5 || (rest == 0.5 && down % 2 == 0) then down else down + 1
  }

  /** `round(x, 8)` */
  function Round8(x: real): real { RoundEven(x * UNITS) as real / UNITS }

  /** `round(x, 6)` */
  function Round6(x: real): real { RoundEven(x * 1000000.0) as real / 1000000.0 }

  lemma RoundEvenMonotone(y: real, z: real)
    requires y <= z
    ensures RoundEven(y) <= RoundEven(z)
  {
  }

  lemma Round8Monotone(x: real, y: real)
    requires x <= y
    ensures Round8(x) <= Round8(y)
  {
    RoundEvenMonotone(x * UNITS, y * UNITS);
  }

  lemma Round8Fixes(n: int)
    ensures Round8(n as real / UNITS) == n as real / UNITS
  {
  }

  /** `n` is the integer nearest to `y`, the even one of two. */
  predicate IsNearestInt(y: real, n: int) {
    && n as real - 0.5 <= y <= n as real + 0.5
    && (y == n as real - 0.5 || y == n as real + 0.5 ==> n % 2 == 0)
  }

  lemma RoundEvenIsNearest(y: real)
    ensures IsNearestInt(y, RoundEven(y))
  {
  }

  /** `r` is `n` of the units of which `units` make one, and no other number of them is nearer to `x`. */
  predicate IsUnitsOf(x: real, r: real, units: real, n: int)
    requires units > 0.0
  {
    r == n as real / units && IsNearestInt(x * units, n)
  }

  /** `x` to eight decimal places. */
  ghost predicate ToEightPlaces(x: real, r: real) { exists n: int :: IsUnitsOf(x, r, 100000000.0, n) }

  /** `x` to six decimal places. */
  ghost predicate ToSixPlaces(x: real, r: real) { exists n: int :: IsUnitsOf(x, r, 1000000.0, n) }

  lemma Round8IsNearest(x: real)
    ensures ToEightPlaces(x, Round8(x))
  {
    RoundEvenIsNearest(x * 100000000.0);
    assert IsUnitsOf(x, Round8(x), 100000000.0, RoundEven(x * UNITS));
  }

  lemma Round6IsNearest(x: real)
    ensures ToSixPlaces(x, Round6(x))
  {
    RoundEvenIsNearest(x * 1000000.0);
    assert IsUnitsOf(x, Round6(x), 1000000.0, RoundEven(x * 1000000.0));
  }
}
