/** Length of a line and nearest point of a line to a point
    (calc_line_length, calc_nearest_point_on_line and
    calc_point_to_line_distance in distance_process.py). */
module LineMeasure {
  import opened Geometry

  /** The sum of the point distances over consecutive pairs, written so that
      adding one more point adds one more segment at the end. */
  function PathLength(sphere: Sphere, line: Line): (len: real)
    requires ValidSphere(sphere)
    ensures |line| <= 1 ==> len == 0.0
    ensures |line| >= 2 ==> len >= 0.00005 * (|line| - 1) as real
    decreases |line|
  {
    if |line| <= 1 then 0.0
    else PathLength(sphere, line[..|line| - 1]) + Distance(sphere, line[|line| - 2], line[|line| - 1])
  }

  /** The length of the first segments: splitting a line at a shared vertex
      splits its length. */
  lemma {:induction false} PathLengthSplit(sphere: Sphere, line: Line, k: nat)
    requires ValidSphere(sphere)
    requires k < |line|
    ensures PathLength(sphere, line) == PathLength(sphere, line[..k + 1]) + PathLength(sphere, line[k..])
    decreases |line|
  {
    if k == |line| - 1 {
      assert line[..k + 1] == line;
      assert |line[k..]| == 1;
    } else {
      var init := line[..|line| - 1];
      PathLengthSplit(sphere, init, k);
      assert init[..k + 1] == line[..k + 1];
      var tail := line[k..];
      assert tail[..|tail| - 1] == init[k..];
      assert tail[|tail| - 2] == line[|line| - 2] && tail[|tail| - 1] == line[|line| - 1];
    }
  }

  /** calc_line_length: accumulate the point distance of each consecutive
      pair; 0 for a line of at most one point. */
  method LineLength(sphere: Sphere, line: Line) returns (length: real)
    requires ValidSphere(sphere)
    ensures length == PathLength(sphere, line)
    ensures |line| <= 1 ==> length == 0.0
    ensures |line| >= 2 ==> length > 0.0
  {
    length := 0.0;
    if |line| <= 1 {
      return;
    }
    for i := 0 to |line| - 1
      invariant length == PathLength(sphere, line[..i + 1])
    {
      assert line[..i + 2][..i + 1] == line[..i + 1];
      length := length + Distance(sphere, line[i], line[i + 1]);
    }
    assert line[..|line|] == line;
  }

  /** The point nearest_point_on_segment gives for each consecutive pair. */
  function SegmentCandidates(sphere: Sphere, point: Point, line: Line): (c: seq<Point>)
    requires ValidSphere(sphere)
    requires |line| >= 1
    ensures |c| == |line| - 1
  {
    seq(|line| - 1, i requires 0 <= i < |line| - 1 => NearestPointOnSegment(sphere, point, line[i], line[i + 1]))
  }

  /** The distance from `point` to each candidate. */
  function CandidateDistances(sphere: Sphere, point: Point, candidates: seq<Point>): (d: seq<real>)
    requires ValidSphere(sphere)
    ensures |d| == |candidates|
  {
    seq(|candidates|, i requires 0 <= i < |candidates| => Distance(sphere, point, candidates[i]))
  }

  /** The scan with a strict `<` keeps the first of the smallest values. */
  function FirstMinIndex(ds: seq<real>): (k: nat)
    requires |ds| >= 1
    ensures k < |ds|
    ensures forall j :: 0 <= j < |ds| ==> ds[k] <= ds[j]
    ensures forall j :: 0 <= j < k ==> ds[k] < ds[j]
    decreases |ds|
  {
    if |ds| == 1 then 0
    else
      var k := FirstMinIndex(ds[..|ds| - 1]);
      if ds[|ds| - 1] < ds[k] then |ds| - 1 else k
  }

  /** Extending the scanned prefix by one value moves the first minimum to
      that value exactly when it is strictly smaller. */
  lemma FirstMinIndexStep(ds: seq<real>, i: nat)
    requires 0 < i < |ds|
    ensures FirstMinIndex(ds[..i + 1]) ==
              if ds[i] < ds[FirstMinIndex(ds[..i])] then i else FirstMinIndex(ds[..i])
  {
    assert ds[..i + 1][..i] == ds[..i];
  }

  /** calc_nearest_point_on_line: none for an empty line, the only point of
      a one-point line, and otherwise the first segment candidate whose
      distance to `point` is smallest. The running minimum starts at +inf,
      modelled by `minPoint` still being None. */
  method NearestPointOnLine(sphere: Sphere, point: Point, line: Line) returns (r: Option<Point>)
    requires ValidSphere(sphere)
    ensures r.None? <==> |line| == 0
    ensures |line| == 1 ==> r == Some(line[0])
    ensures |line| >= 2 ==>
              var candidates := SegmentCandidates(sphere, point, line);
              r == Some(candidates[FirstMinIndex(CandidateDistances(sphere, point, candidates))])
  {
    var pointNum := |line|;
    if pointNum == 0 {
      return None;
    }
    if pointNum == 1 {
      return Some(line[0]);
    }
    ghost var candidates := SegmentCandidates(sphere, point, line);
    ghost var distances := CandidateDistances(sphere, point, candidates);
    ghost var best := 0;
    var minDistance := 0.0;
    var minPoint: Option<Point> := None;
    for i := 0 to pointNum - 1
      invariant i == 0 <==> minPoint.None?
      invariant i > 0 ==> best == FirstMinIndex(distances[..i])
      invariant i > 0 ==> minPoint == Some(candidates[best]) && minDistance == distances[best]
    {
      var sPoint := line[i];
      var ePoint := line[i + 1];
      var nearPoint := NearestPointOnSegment(sphere, point, sPoint, ePoint);
      var distance := Distance(sphere, point, nearPoint);
      assert nearPoint == candidates[i] && distance == distances[i];
      if i > 0 {
        FirstMinIndexStep(distances, i);
      }
      if minPoint.None? || distance < minDistance {
        minDistance := distance;
        minPoint := Some(nearPoint);
        best := i;
      }
    }
    assert distances[..pointNum - 1] == distances;
    r := minPoint;
  }

  /** calc_point_to_line_distance: none exactly for an empty line (a point
      is never falsy), otherwise the distance to the nearest point, which is
      no larger than the distance to any segment candidate. */
  method PointToLineDistance(sphere: Sphere, point: Point, line: Line) returns (r: Option<real>)
    requires ValidSphere(sphere)
    ensures r.None? <==> |line| == 0
    ensures |line| == 1 ==> r == Some(Distance(sphere, point, line[0]))
    ensures |line| >= 2 ==>
              var distances := CandidateDistances(sphere, point, SegmentCandidates(sphere, point, line));
              r == Some(distances[FirstMinIndex(distances)]) &&
              forall j :: 0 <= j < |distances| ==> r.value <= distances[j]
  {
    var nearestPoint := NearestPointOnLine(sphere, point, line);
    if nearestPoint.Some? {
      r := Some(Distance(sphere, point, nearestPoint.value));
    } else {
      r := None;
    }
  }
}
