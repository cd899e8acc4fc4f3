/**
 * The numeric kernel. The floating-point library functions the calculator
 * calls (sin, cos, acos, atan2, sqrt) are kept abstract: a `Trig` value is
 * any choice of total functions on reals, and every property proved of the
 * model holds for all of them. Only the arithmetic written out in the source
 * around those calls is modelled.
 */
module Kernel {

  datatype Trig = Trig(
    sin: real -> real,
    cos: real -> real,
    acos: real -> real,
    atan2: (real, real) -> real,
    sqrt: real -> real)

  /** M_PI, as written by PHP. */
  const Pi: real := 3.141592653589793

  /** PHP's deg2rad: degrees / 180 * pi. */
  function Deg2Rad(deg: real): real {
    deg / 180.0 * Pi
  }

  /** PHP's rad2deg: radians / pi * 180. */
  function Rad2Deg(rad: real): real {
    rad / Pi * 180.0
  }

  /** The function name `getAngle` is called with: `'sin'` or `'cos'`. */
  datatype AngleFn = SinFn | CosFn

  /** `getAngle`: sin (or cos) of both latitudes in radians, multiplied. */
  function GetAngle(t: Trig, firstLat: real, secondLat: real, angle: AngleFn): (r: real)
    ensures firstLat == secondLat ==> r >= 0.0
  {
    var f := if angle == SinFn then t.sin else t.cos;
    f(Deg2Rad(firstLat)) * f(Deg2Rad(secondLat))
  }

  /** `correctDistanceValue`: degrees of arc to statute miles, 60 nautical miles per degree, 1.1515 statute miles each. */
  function CorrectDistanceValue(degrees: real): (miles: real)
    ensures miles == degrees * 69.09
    ensures degrees >= 0.0 ==> miles >= 0.0
  {
    degrees * 60.0 * 1.1515
  }

  /**
   * The central angle in radians between latitudes whose sin and cos
   * products are given, for a longitude difference in degrees: `acos(sin +
   * cos * cos(deg2rad(dLong)))`. The argument of acos is not clamped.
   */
  function CentralAngle(t: Trig, sinTerm: real, cosTerm: real, dLong: real): real {
    t.acos(sinTerm + cosTerm * t.cos(Deg2Rad(dLong)))
  }
}
