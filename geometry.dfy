/** Points on the sphere, the rounded point distance, point equality under a
    tolerance, linear interpolation between two points and the guarded part of
    the nearest-point-on-segment computation (distance_process.py).

    The spherical trigonometry (sin, cos, asin, the great-circle projection)
    is not modelled: a `Sphere` carries it as two uninterpreted functions. */
module Geometry {

  datatype Option<T> = None | Some(value: T)

  /** A point as (longitude, latitude) in degrees. */
  datatype Point = Point(lon: real, lat: real)

  /** A line is an ordered sequence of points. */
  type Line = seq<Point>

  /** Earth radius in metres. */
  const EarthRadius: real := 6378137.0

  /** The parts of the computation that are trigonometry, plus the
      configurable point tolerance.
      - centralAngle(p, q): the haversine central angle between p and q, in radians
      - project(point, s, e): the great-circle projection of `point` onto the
        segment s-e, used when none of the coincidence guards applies
      - samePointDistance: the SAME_POINT_DISTANCE tolerance, in metres */
  datatype Sphere = Sphere(
    centralAngle: (Point, Point) -> real,
    project: (Point, Point, Point) -> Point,
    samePointDistance: real)

  /** What the model assumes of the haversine term: it is non-negative,
      symmetric and zero between a point and itself. */
  ghost predicate ValidSphere(sphere: Sphere)
  {
    (forall p: Point, q: Point :: sphere.centralAngle(p, q) >= 0.0) &&
    (forall p: Point, q: Point :: sphere.centralAngle(p, q) == sphere.centralAngle(q, p)) &&
    (forall p: Point :: sphere.centralAngle(p, p) == 0.0)
  }

  /** The great-circle distance in metres before the "rounding" step. */
  function Haversine(sphere: Sphere, p: Point, q: Point): (m: real)
    requires ValidSphere(sphere)
    ensures m >= 0.0
  {
    sphere.centralAngle(p, q) * EarthRadius
  }

  /** calc_point_distance: the haversine distance followed by
      `(s * 10000 + 0.5) / 10000`. Nothing truncates after adding 0.5, so the
      result is the distance plus half a unit of the fourth decimal, and is
      strictly positive even for identical points. */
  function Distance(sphere: Sphere, p: Point, q: Point): (d: real)
    requires ValidSphere(sphere)
    ensures d == Haversine(sphere, p, q) + 0.00005
    ensures d >= 0.00005
  {
    (Haversine(sphere, p, q) * 10000.0 + 0.5) / 10000.0
  }

  lemma DistanceSymmetric(sphere: Sphere, p: Point, q: Point)
    requires ValidSphere(sphere)
    ensures Distance(sphere, p, q) == Distance(sphere, q, p)
  {
  }

  /** A point is not at distance zero from itself: it is at 0.00005 metres. */
  lemma DistanceToSelf(sphere: Sphere, p: Point)
    requires ValidSphere(sphere)
    ensures Distance(sphere, p, p) == 0.00005
  {
  }

  /** is_same_point: the rounded distance is within the tolerance. Since the
      rounding adds 0.00005, the haversine distance must stay 0.00005 below
      the tolerance, and no pair matches under a tolerance below 0.00005. */
  predicate IsSamePoint(sphere: Sphere, p: Point, q: Point): (same: bool)
    requires ValidSphere(sphere)
    ensures same <==> Haversine(sphere, p, q) <= sphere.samePointDistance - 0.00005
    ensures same ==> sphere.samePointDistance >= 0.00005
  {
    Distance(sphere, p, q) <= sphere.samePointDistance
  }

  lemma IsSamePointSymmetric(sphere: Sphere, p: Point, q: Point)
    requires ValidSphere(sphere)
    ensures IsSamePoint(sphere, p, q) == IsSamePoint(sphere, q, p)
  {
    DistanceSymmetric(sphere, p, q);
  }

  /** Because of the added 0.00005, a tolerance below 0.00005 makes every
      pair of points distinct, a point and itself included; from 0.00005 on,
      every point is the same as itself. */
  lemma IsSamePointReflexiveExactly(sphere: Sphere, p: Point)
    requires ValidSphere(sphere)
    ensures IsSamePoint(sphere, p, p) <==> sphere.samePointDistance >= 0.00005
  {
    DistanceToSelf(sphere, p);
  }

  lemma SmallToleranceSeparatesAll(sphere: Sphere, p: Point, q: Point)
    requires ValidSphere(sphere)
    requires sphere.samePointDistance < 0.00005
    ensures !IsSamePoint(sphere, p, q)
  {
  }

  /** Plain linear interpolation at parameter t, the reference definition. */
  function Lerp(s: Point, e: Point, t: real): Point
  {
    Point(s.lon + t * (e.lon - s.lon), s.lat + t * (e.lat - s.lat))
  }

  function Clamp01(t: real): (c: real)
    ensures 0.0 <= c <= 1.0
    ensures 0.0 <= t <= 1.0 ==> c == t
  {
    if t <= 0.0 then 0.0 else if t >= 1.0 then 1.0 else t
  }

  predicate Between(x: real, a: real, b: real)
  {
    (a <= x <= b) || (b <= x <= a)
  }

  /** calc_mid_point_by_percent: s at or below 0, e at or above 1, otherwise
      the linear interpolation of longitude and latitude. */
  function MidPointByPercent(s: Point, e: Point, percent: real): (m: Point)
    ensures percent <= 0.0 ==> m == s
    ensures percent >= 1.0 ==> m == e
    ensures Between(m.lon, s.lon, e.lon) && Between(m.lat, s.lat, e.lat)
  {
    if percent <= 0.0 then s
    else if percent >= 1.0 then e
    else
      var dLon := e.lon - s.lon;
      var dLat := e.lat - s.lat;
      InterpolationBetween(s.lon, e.lon, percent);
      InterpolationBetween(s.lat, e.lat, percent);
      Point(s.lon + percent * dLon, s.lat + percent * dLat)
  }

  lemma InterpolationBetween(a: real, b: real, t: real)
    requires 0.0 < t < 1.0
    ensures Between(a + t * (b - a), a, b)
  {
    var d := if a <= b then b - a else a - b;
    ProductNonNegative(t, d);
    ProductNonNegative(1.0 - t, d);
    assert (1.0 - t) * d == d - t * d;
    if a > b {
      assert t * (b - a) == -(t * d);
    }
  }

  lemma ProductNonNegative(x: real, y: real)
    requires x >= 0.0 && y >= 0.0
    ensures x * y >= 0.0
  {
  }

  lemma ProductPositive(x: real, y: real)
    requires x > 0.0 && y > 0.0
    ensures x * y > 0.0
  {
  }

  lemma SquareNonNegative(x: real)
    ensures x * x >= 0.0
  {
    if x < 0.0 {
      assert x * x == (-x) * (-x);
    }
  }

  /** MidPointByPercent is interpolation at the percent clamped to [0, 1]. */
  lemma MidPointIsClampedLerp(s: Point, e: Point, percent: real)
    ensures MidPointByPercent(s, e, percent) == Lerp(s, e, Clamp01(percent))
  {
  }

  /** calc_mid_point_by_length: the length from s is turned into a fraction
      of the (always positive) distance from s to e, and the point is the
      linear interpolation at that fraction clamped to [0, 1]. */
  function MidPointByLength(sphere: Sphere, s: Point, e: Point, length: real): (m: Point)
    requires ValidSphere(sphere)
    ensures m == Lerp(s, e, Clamp01(length / Distance(sphere, s, e)))
    ensures length <= 0.0 ==> m == s
    ensures length >= Distance(sphere, s, e) ==> m == e
  {
    var lineLength := Distance(sphere, s, e);
    var percent := length / lineLength;
    FractionBounds(length, lineLength);
    MidPointIsClampedLerp(s, e, percent);
    MidPointByPercent(s, e, percent)
  }

  lemma FractionBounds(x: real, d: real)
    requires d > 0.0
    ensures x <= 0.0 ==> x / d <= 0.0
    ensures x >= d ==> x / d >= 1.0
  {
  }

  /** The coincidence guards of calc_nearest_point_on_line_segment, in the
      source's order; past them the great-circle projection decides. */
  function NearestPointOnSegment(sphere: Sphere, point: Point, s: Point, e: Point): (r: Point)
    requires ValidSphere(sphere)
    ensures IsSamePoint(sphere, s, e) ==> r == s
    ensures IsSamePoint(sphere, point, s) ==> r == s
    ensures IsSamePoint(sphere, point, e) && !IsSamePoint(sphere, s, e) && !IsSamePoint(sphere, point, s) ==> r == e
    ensures !IsSamePoint(sphere, s, e) && !IsSamePoint(sphere, point, s) && !IsSamePoint(sphere, point, e) ==>
              r == sphere.project(point, s, e)
  {
    if IsSamePoint(sphere, s, e) then s
    else if IsSamePoint(sphere, point, s) then s
    else if IsSamePoint(sphere, point, e) then e
    else sphere.project(point, s, e)
  }
}
