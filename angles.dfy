/** Bearing of a line and the clockwise angle from one line to another
    (angle_process.py). */
module Angles {
  import opened Geometry

  /** Python truthiness of an optional angle: None and 0.0 are both falsy. */
  predicate Truthy(angle: Option<real>)
  {
    angle.Some? && angle.value != 0.0
  }

  /** calc_line_angle as written: a line of at most one point has no angle,
      and for longer lines the body falls through `pass`, so no line has one. */
  function LineAngle(line: Line): (angle: Option<real>)
    ensures angle.None?
  {
    if |line| <= 1 then None
    else None
  }

  /** The guarded difference calc_line2line_angle takes of the two angles:
      none when either is falsy, otherwise angle2 - angle1 with 360 added to
      a negative difference. */
  function AngleDifference(angle1: Option<real>, angle2: Option<real>): (angle: Option<real>)
    ensures angle.None? <==> (angle1.None? || angle2.None? || angle1.value == 0.0 || angle2.value == 0.0)
    ensures angle.Some? ==> angle.value - (angle2.value - angle1.value) in {0.0, 360.0}
    ensures angle.Some? ==> (angle.value == angle2.value - angle1.value <==> angle2.value - angle1.value >= 0.0)
  {
    if !(Truthy(angle1) && Truthy(angle2)) then None
    else
      var angle := angle2.value - angle1.value;
      if angle < 0.0 then Some(angle + 360.0) else Some(angle)
  }

  /** calc_line2line_angle: undefined unless both line angles are defined
      and non-zero, which with the line angle as written never happens. */
  function Line2LineAngle(line1: Line, line2: Line): (angle: Option<real>)
    ensures angle.None? <==> !(Truthy(LineAngle(line1)) && Truthy(LineAngle(line2)))
    ensures angle.None?
  {
    AngleDifference(LineAngle(line1), LineAngle(line2))
  }

  /** For two defined, non-zero angles clockwise from north (in [0, 360)),
      the difference is the clockwise turn from the first to the second: it
      lies in [0, 360) and differs from angle2 - angle1 by a multiple of 360. */
  lemma AngleDifferenceNormalized(a1: real, a2: real)
    requires 0.0 < a1 < 360.0 && 0.0 < a2 < 360.0
    ensures var angle := AngleDifference(Some(a1), Some(a2));
      angle.Some? && 0.0 <= angle.value < 360.0 &&
      (angle.value == a2 - a1 || angle.value == a2 - a1 + 360.0) &&
      (a2 >= a1 <==> angle.value == a2 - a1)
  {
  }

  /** The turn from a1 to a2 and the turn back add up to a full circle,
      unless the two angles are equal. */
  lemma AngleDifferenceOpposite(a1: real, a2: real)
    requires 0.0 < a1 < 360.0 && 0.0 < a2 < 360.0
    ensures var there := AngleDifference(Some(a1), Some(a2));
      var back := AngleDifference(Some(a2), Some(a1));
      there.Some? && back.Some? &&
      (a1 == a2 ==> there.value == 0.0 && back.value == 0.0) &&
      (a1 != a2 ==> there.value + back.value == 360.0)
  {
  }
}
