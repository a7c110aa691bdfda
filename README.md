# geometry_calculator line primitives in Dafny

This project models the line-manipulation layer of the geometry calculator, a
Python tool that builds road-network topology from line features given as
sequences of (longitude, latitude) points. The model covers:

- the point distance and its "rounding";
- point equality under a tolerance;
- interpolation between two points;
- the coincidence guards of the nearest-point-on-segment computation;
- the length of a line;
- the nearest point of a line to a point, and the point-to-line distance;
- cutting a line into parts by length, and taking its start or end part by
  length or by percent;
- the bearing and line-to-line angle of `angle_process.py`;
- the layer name `create_miffile` derives from a file path.

The spherical trigonometry is not modelled. A `Sphere` value carries:

- the haversine central angle, as an uninterpreted function that is assumed
  non-negative, symmetric and zero between a point and itself;
- the great-circle projection used past the segment guards;
- the `SAME_POINT_DISTANCE` tolerance.

Coordinates are Dafny `real`s.

Modules, one per source concern:

- `Geometry` (geometry.dfy): points, `Distance`, `IsSamePoint`, midpoints,
  segment guards.
- `LineMeasure` (line_measure.dfy): line length, nearest point, point-to-line
  distance.
- `LineSplit` (line_split.dfy): split, start and end parts.
- `Vectors` (vectors.dfy): cross product, dot product, sum of squares.
- `Angles` (angles.dfy): line angle and angle difference.
- `LayerNames` (layer_name.dfy): the layer-name derivation.

The loops of the source are methods with loop invariants. Each is proved
equal to a specification function, and the functions' properties are proved
as lemmas. The one exception is the scan of `get_end_part_by_length`: it runs
over `range(len(line), 1)`, modelled as `PyRange`, and the model proves that
range empty past the guards, so the loop body is unreachable.

## Behaviour as written

The model follows the code. Where the code does something other than the
evident design intent, the model keeps what the code does:

- The distance adds 0.00005 and never truncates. It is therefore the haversine
  distance plus 0.00005, not a value rounded to four decimals. A point is
  0.00005 m from itself. A `SAME_POINT_DISTANCE` below 0.00005 makes no point
  equal to any point, itself included.
- The split and start-part scans call `calc_mid_point_by_length(pt2, pt1,
  length - part_length)` with a negative offset, so the breakpoint is always
  the segment's end vertex `pt2`. No point is ever interpolated.
- `part_length` is never reset after a cut. After the first cut every later
  segment is cut too: each is closed as a three-point part
  `[previous breakpoint, pt1, pt2]`.
- A line shorter than `length` comes back whole from the split. The start part
  of such a line drops the last point, because the scan only appends `pt1`.
- `get_end_part_by_length` loops over `range(len(line), 1)`, which is empty. It
  therefore always returns an empty list. As a result, `get_end_part_by_percent`
  is empty for every percent below 1. A start part at percent p and an end
  part at 1 - p, for p strictly between 0 and 1, rebuild the line only when
  the start part is already the whole line, that is when p times the line
  length falls inside the last segment.
- `calc_line_angle` returns None for one-point lines and falls through `pass`
  for all others, so it never yields an angle. `calc_line2line_angle` is then
  None for all inputs. Its guard `not (angle1 and angle2)` would also treat an
  angle of exactly 0 as missing.

## Model

| member | source | states |
|---|---|---|
| Geometry.Haversine | distance_process.py:137-138 | the great-circle distance in metres, central angle times the 6378137 m Earth radius, is non-negative |
| Geometry.Distance | distance_process.py:125-140 | the point distance is the haversine distance plus exactly 0.00005, hence at least 0.00005 for every pair of points |
| Geometry.DistanceSymmetric | distance_process.py:131-139 | the point distance is symmetric in its two points |
| Geometry.DistanceToSelf | distance_process.py:135-139 | a point is at distance 0.00005, not 0, from itself |
| Geometry.IsSamePoint | distance_process.py:116-122 | two points are the same exactly when their haversine distance is at most the tolerance minus 0.00005, and a match needs a tolerance of at least 0.00005 |
| Geometry.IsSamePointSymmetric | distance_process.py:116-122 | point equality under the tolerance is symmetric |
| Geometry.IsSamePointReflexiveExactly | distance_process.py:116-122 | a point equals itself exactly when the tolerance is at least 0.00005 |
| Geometry.SmallToleranceSeparatesAll | distance_process.py:116-122 | with a tolerance below 0.00005 no two points, identical ones included, are the same point |
| Geometry.MidPointByPercent | distance_process.py:356-376 | percent <= 0 gives the start point, percent >= 1 the end point, and every result lies between the endpoints in longitude and in latitude |
| Geometry.MidPointIsClampedLerp | distance_process.py:363-376 | the midpoint is linear interpolation at the percent clamped to [0, 1] |
| Geometry.InterpolationBetween | distance_process.py:372-375 | interpolation at a parameter strictly between 0 and 1 stays between the two coordinates |
| Geometry.MidPointByLength | distance_process.py:344-353 | the point is the linear interpolation from s to e at `length / distance`, clamped to [0, 1]: a non-positive length gives the start point and a length of at least the point distance gives the end point |
| Geometry.NearestPointOnSegment | distance_process.py:171-199 | returns s when s and e coincide or when the point coincides with s, returns e when only the point and e coincide, and otherwise the great-circle projection |
| LineMeasure.PathLength | distance_process.py:215-223 | the line length is 0 for at most one point and at least 0.00005 per segment otherwise |
| LineMeasure.PathLengthSplit | distance_process.py:215-223 | the length of a line is the sum of the lengths of its two pieces on either side of any vertex |
| LineMeasure.LineLength | distance_process.py:215-223 | the accumulation loop computes the sum of point distances over consecutive pairs: 0 for at most one point, positive otherwise |
| LineMeasure.FirstMinIndex | distance_process.py:155-164 | the strict-less-than scan keeps the first index of a smallest value: no value is smaller and every earlier value is larger |
| LineMeasure.NearestPointOnLine | distance_process.py:143-168 | returns None exactly for an empty line, the only point of a one-point line, and otherwise the first segment candidate at the smallest distance |
| LineMeasure.PointToLineDistance | distance_process.py:202-212 | returns None exactly for an empty line; otherwise the distance to the nearest point, which is no larger than the distance to any segment candidate |
| LineSplit.CumulativeIncreasing | distance_process.py:238-241 | the running part length strictly increases from one scan iteration to the next |
| LineSplit.FirstCut | distance_process.py:238-246 | the first scan iteration at which the running length reaches `length`: every earlier iteration is below it |
| LineSplit.NoCutIffShort | distance_process.py:238-246 | no cut happens exactly when the whole line is shorter than `length` |
| LineSplit.LaterSegmentsExceed | distance_process.py:241-247 | after the first cut every later iteration finds the running length strictly above `length`, because it is never reset |
| LineSplit.BreakpointIsSegmentEnd | distance_process.py:246-248 | the breakpoint computed from the negative offset is the segment's end vertex |
| LineSplit.ScanIsClosedForm | distance_process.py:238-254 | after i iterations the scan variables hold the closed form: the parts closed so far, the part being built, and the length of the first i segments |
| LineSplit.SplitLineByLength | distance_process.py:226-255 | the scan returns exactly the closed-form parts: the whole line if it is shorter than `length`, otherwise the head part, one three-point part per later segment and a final two-point part |
| LineSplit.SplitEmptyIffGuard | distance_process.py:232-233 | the split is empty if and only if the line has at most one point or `length` is not positive |
| LineSplit.SplitShortLineWhole | distance_process.py:238-255 | a line shorter than `length` is returned whole as the only part |
| LineSplit.SplitCount | distance_process.py:238-255 | there are never more parts than points; with a cut at iteration f there are exactly `len(line) - f` parts |
| LineSplit.SplitChains | distance_process.py:242-254 | every part is non-empty, the first starts at the line's first point, the last ends at its last point, and each part ends where the next begins |
| LineSplit.SplitUsesOnlyVertices | distance_process.py:247-250 | every point of every part is a vertex of the line |
| LineSplit.CutPartAt | distance_process.py:242-254 | after a cut at iteration f there are `len(line) - f` parts: the head part, the three-point middle parts, then the final part |
| LineSplit.GetStartPartByLength | distance_process.py:258-282 | the scan returns exactly the closed-form start part: empty on the guards, the points up to the first cut plus the segment's end when exceeded, all but the last point with no cut |
| LineSplit.StartPartIsPrefix | distance_process.py:264-282 | past the guards the start part is a non-empty prefix of the line beginning at its first point |
| LineSplit.StartPartWholeIff | distance_process.py:269-282 | the start part is the whole line if and only if `length` lies strictly between the length without the last segment and the full length |
| LineSplit.StartPartIsFirstSplitPart | distance_process.py:238-282 | with a cut the start part is the first part of the split; a line shorter than `length` splits into itself and loses its last point as a start part |
| LineSplit.CutWithinLine | distance_process.py:264-282 | a positive length no longer than the line always cuts, and the start part is then the first split part |
| LineSplit.GetEndPartByLength | distance_process.py:285-309 | always returns an empty list: past the guards the scan runs over `range(len(line), 1)`, which is proved empty for every line of two or more points, so its body is never reached |
| LineSplit.GetStartPartByPercent | distance_process.py:312-325 | empty for percent <= 0, the line for percent >= 1, otherwise the start part of percent times the line length |
| LineSplit.StartPartByPercentCuts | distance_process.py:318-325 | for a percent strictly between 0 and 1 the length used is inside (0, line length), the scan cuts, and the result is the first split part |
| LineSplit.GetEndPartByPercent | distance_process.py:328-341 | the line for percent >= 1 and empty for every smaller percent |
| LineSplit.PercentPartsRebuildLine | distance_process.py:312-341 | for p strictly between 0 and 1, the start part at p followed by the end part at 1 - p is the line if and only if p times the line length exceeds the length without the last segment |
| Vectors.DotProduct | distance_process.py:78-87 | the loop computes the dot product over the pairs zip forms, so the shorter vector decides the length |
| Vectors.SumOfSquares | distance_process.py:90-97 | the accumulated sum of squares is the dot product of the vector with itself and is non-negative |
| Vectors.DotSymmetric | distance_process.py:78-87 | the dot product does not depend on the order of its arguments |
| Vectors.Cross | distance_process.py:64-75 | the cross product's component-wise products with each argument sum to zero |
| Vectors.CrossOrthogonal | distance_process.py:64-75 | the cross product is orthogonal to both arguments under the dot product of calc_dot_product |
| Vectors.CrossAntisymmetric | distance_process.py:64-75 | swapping the arguments negates the cross product |
| Angles.LineAngle | angle_process.py:22-29 | no line has an angle: one-point lines return None and longer lines fall through `pass` |
| Angles.AngleDifference | angle_process.py:38-46 | None if and only if either angle is None or 0; otherwise angle2 - angle1 when that is non-negative, and angle2 - angle1 + 360 when it is negative |
| Angles.AngleDifferenceNormalized | angle_process.py:43-46 | for two non-zero angles in [0, 360), the result is in [0, 360) and equals angle2 - angle1 exactly when that is non-negative |
| Angles.AngleDifferenceOpposite | angle_process.py:43-46 | the turn from one angle to another and back adds up to 360, or to 0 when the angles are equal |
| Angles.Line2LineAngle | angle_process.py:32-46 | None exactly when either line angle is missing or zero; with the line angle as written, None for every pair of lines |
| LayerNames.RFind | file_operator.py:46-49 | rfind gives -1 exactly when the character is absent, otherwise an index holding it with none after |
| LayerNames.LayerName | file_operator.py:45-51 | empty when the path has no `.`; otherwise a separator-free text ending just before the last `.`, preceded by a separator or by the start of the path |
| LayerNames.LayerNameIsSubstring | file_operator.py:46-51 | the layer name is a contiguous piece of the path, no longer than it |
| LayerNames.LayerNameUnique | file_operator.py:46-51 | that characterisation determines the layer name: any text satisfying it is the layer name |
| LayerNames.DotInDirectory | file_operator.py:46-51 | a dot in a directory component is still the cut point: "a.b/c" with separator "/" gives "a" |
| LayerNames.DirectoryAndExtensionRemoved | file_operator.py:46-51 | "data/roads.mif" with separator "/" gives "roads" |

## Left out

- Spherical trigonometry is kept abstract, as fields of `Sphere`. This covers
  `rad` and `degree` in both files (they need π), `lonlat_to_xyz`,
  `xyz_to_lonlat`, the haversine body at distance_process.py:137,
  `is_same_direction`, and the projection at distance_process.py:185-199.
  The model assumes only that the central angle is non-negative, symmetric and
  zero between a point and itself.
- LineSplit.GetEndPartByLength: the statements inside the scan body
  (distance_process.py:297-308) are not written out. The model proves the
  loop over `range(len(line), 1)` never enters its body, so the body holds
  only that unreachability assertion.
- Vectors.SumOfSquares: models the accumulation of `calc_euclid_distance`
  only. The final `math.sqrt` is not modelled, because Dafny reals have no
  square root.
- Floating-point rounding, NaN and infinity are not modelled: coordinates and
  lengths are exact reals. This includes the exact `part_length == length`
  comparisons, which the model takes at face value.
- The `data_define` module is not part of this model. `INDEX_LON` and
  `INDEX_LAT` are taken to select the longitude and latitude fields of a
  point. `SAME_POINT_DISTANCE` is a field of `Sphere`. `ZERO_THRESHOLD` is
  used only by `is_same_direction`, which is abstract.
- The diagnostic `print` at distance_process.py:167 is left out. The None
  result it reports cannot arise for a line of two or more points, since every
  distance is finite.
- Copies and aliasing are not modelled: `copy.deepcopy` of a point, and the
  percent functions returning the very list object they were given. Points
  and lines are values here.
- Everything in file_operator.py other than the layer name at lines 45-51 is
  left out, because it only wraps the OGR library. This covers
  `create_feature`, `create_featuredefn`, `create_fieldDef_list`, the
  driver, data source and layer calls of `create_miffile`, `FileReader` and
  `FileWriter`.
- topo_process_framework.py is left out. `Node` and `Link` only hold fields,
  and `TopoFramework` is empty. The spatial index and the two node-inference
  strategies of the topology builder do not exist in that code.
