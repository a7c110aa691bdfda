/** Cutting a line by length or percent (split_line_by_length,
    get_start_part_by_length, get_end_part_by_length,
    get_start_part_by_percent and get_end_part_by_percent in
    distance_process.py).

    The scans keep a running `part_length` that is never reset, and hand
    calc_mid_point_by_length the negative offset `length - part_length` with
    the segment's end as its start point. Both are modelled as written: the
    "interpolated" breakpoint is always the end vertex of the segment, and
    once the running length reaches `length` every later segment is cut too. */
module LineSplit {
  import opened Geometry
  import opened LineMeasure

  /** part_length after iteration i of a scan: the length of the first i + 1
      segments. */
  function Cumulative(sphere: Sphere, line: Line, i: nat): real
    requires ValidSphere(sphere)
    requires i < |line| - 1
  {
    PathLength(sphere, line[..i + 2])
  }

  lemma CumulativeStep(sphere: Sphere, line: Line, i: nat)
    requires ValidSphere(sphere)
    requires i < |line| - 1
    ensures Cumulative(sphere, line, i) == PathLength(sphere, line[..i + 1]) + Distance(sphere, line[i], line[i + 1])
  {
    assert line[..i + 2][..i + 1] == line[..i + 1];
  }

  lemma CumulativeTotal(sphere: Sphere, line: Line)
    requires ValidSphere(sphere)
    requires |line| >= 2
    ensures Cumulative(sphere, line, |line| - 2) == PathLength(sphere, line)
  {
    assert line[..|line|] == line;
  }

  /** Every segment adds a positive distance, so the running length strictly
      increases from one iteration to the next. */
  lemma {:induction false} CumulativeIncreasing(sphere: Sphere, line: Line, i: nat, j: nat)
    requires ValidSphere(sphere)
    requires i < j < |line| - 1
    ensures Cumulative(sphere, line, i) < Cumulative(sphere, line, j)
    decreases j
  {
    CumulativeStep(sphere, line, j);
    assert PathLength(sphere, line[..j + 1]) == Cumulative(sphere, line, j - 1);
    if i < j - 1 {
      CumulativeIncreasing(sphere, line, i, j - 1);
    }
  }

  /** The first iteration, from `from` on, at which the running length
      reaches `length`; |line| - 1 when it never does. */
  function FirstCut(sphere: Sphere, line: Line, length: real, from: nat): (f: nat)
    requires ValidSphere(sphere)
    requires |line| >= 2 && from <= |line| - 1
    ensures from <= f <= |line| - 1
    ensures forall j :: from <= j < f ==> Cumulative(sphere, line, j) < length
    ensures f < |line| - 1 ==> Cumulative(sphere, line, f) >= length
    decreases |line| - 1 - from
  {
    if from == |line| - 1 then from
    else if Cumulative(sphere, line, from) >= length then from
    else FirstCut(sphere, line, length, from + 1)
  }

  /** No cut happens exactly when the whole line is shorter than `length`. */
  lemma NoCutIffShort(sphere: Sphere, line: Line, length: real)
    requires ValidSphere(sphere)
    requires |line| >= 2
    ensures FirstCut(sphere, line, length, 0) == |line| - 1 <==> PathLength(sphere, line) < length
  {
    var f := FirstCut(sphere, line, length, 0);
    CumulativeTotal(sphere, line);
    if f < |line| - 1 && f < |line| - 2 {
      CumulativeIncreasing(sphere, line, f, |line| - 2);
    }
  }

  /** Once the running length has reached `length`, every later iteration
      finds it strictly exceeded: part_length is never reset. */
  lemma LaterSegmentsExceed(sphere: Sphere, line: Line, length: real, j: nat)
    requires ValidSphere(sphere)
    requires |line| >= 2
    requires FirstCut(sphere, line, length, 0) < j < |line| - 1
    ensures Cumulative(sphere, line, j) > length
  {
    CumulativeIncreasing(sphere, line, FirstCut(sphere, line, length, 0), j);
  }

  /** The breakpoint calc_mid_point_by_length yields inside a scan is the
      segment's end vertex, since the offset passed is negative. */
  lemma BreakpointIsSegmentEnd(sphere: Sphere, line: Line, length: real, i: nat)
    requires ValidSphere(sphere)
    requires i < |line| - 1
    requires Cumulative(sphere, line, i) > length
    ensures MidPointByLength(sphere, line[i + 1], line[i], length - Cumulative(sphere, line, i)) == line[i + 1]
  {
  }

  // The shape of the parts once a first cut happened at iteration f;
  // `exact` says whether the running length hit `length` exactly there.

  /** The first point of the part opened by the cut at iteration i. */
  function Opener(line: Line, f: nat, exact: bool, i: nat): Point
    requires f <= i < |line| - 1
  {
    if i == f && exact then line[i] else line[i + 1]
  }

  /** The part closed at the first cut: the vertices up to the segment's
      start, plus its end vertex when the length was exceeded. */
  function HeadPart(line: Line, f: nat, exact: bool): Line
    requires f < |line| - 1
  {
    if exact then line[..f + 1] else line[..f + 2]
  }

  /** The part closed at a later iteration i. */
  function MiddlePart(line: Line, f: nat, exact: bool, i: nat): Line
    requires f < i < |line| - 1
  {
    [Opener(line, f, exact, i - 1), line[i], line[i + 1]]
  }

  /** The parts closed at iterations f + 1 .. i - 1. */
  function MiddleParts(line: Line, f: nat, exact: bool, i: nat): (parts: seq<Line>)
    requires f < i <= |line| - 1
    ensures |parts| == i - 1 - f
  {
    seq(i - 1 - f, k requires 0 <= k < i - 1 - f => MiddlePart(line, f, exact, f + 1 + k))
  }

  /** The part completed after the scan with the line's last point. */
  function LastPart(line: Line, f: nat, exact: bool): Line
    requires f < |line| - 1
  {
    [Opener(line, f, exact, |line| - 2), line[|line| - 1]]
  }

  function CutParts(line: Line, f: nat, exact: bool): seq<Line>
    requires f < |line| - 1
  {
    [HeadPart(line, f, exact)] + MiddleParts(line, f, exact, |line| - 1) + [LastPart(line, f, exact)]
  }

  /** What split_line_by_length returns. */
  function SplitParts(sphere: Sphere, line: Line, length: real): (parts: seq<Line>)
    requires ValidSphere(sphere)
  {
    if |line| <= 1 || length <= 0.0 then []
    else
      var f := FirstCut(sphere, line, length, 0);
      if f == |line| - 1 then [line]
      else CutParts(line, f, Cumulative(sphere, line, f) == length)
  }

  /** The parts closed after i iterations of the split scan. */
  function ClosedParts(line: Line, f: nat, exact: bool, i: nat): seq<Line>
    requires f <= |line| - 1 && i <= |line| - 1
  {
    if i <= f then [] else [HeadPart(line, f, exact)] + MiddleParts(line, f, exact, i)
  }

  /** The part being built after i iterations of the split scan. */
  function OpenPart(line: Line, f: nat, exact: bool, i: nat): Line
    requires f <= |line| - 1 && i <= |line| - 1
  {
    if i <= f then line[..i] else [Opener(line, f, exact, i - 1)]
  }

  /** An iteration before the first cut only appends the segment's start. */
  lemma ScanStepBeforeCut(line: Line, f: nat, exact: bool, i: nat)
    requires i < f <= |line| - 1
    ensures ClosedParts(line, f, exact, i + 1) == ClosedParts(line, f, exact, i)
    ensures OpenPart(line, f, exact, i + 1) == OpenPart(line, f, exact, i) + [line[i]]
  {
    assert line[..i + 1] == line[..i] + [line[i]];
  }

  /** An iteration where the running length equals `length` closes the part
      after the segment's start and reopens at that same start. */
  lemma ScanStepExact(line: Line, f: nat, i: nat)
    requires i == f < |line| - 1
    ensures ClosedParts(line, f, true, i + 1) ==
              ClosedParts(line, f, true, i) + [OpenPart(line, f, true, i) + [line[i]]]
    ensures OpenPart(line, f, true, i + 1) == [line[i]]
  {
    assert line[..i + 1] == line[..i] + [line[i]];
    assert MiddleParts(line, f, true, i + 1) == [];
  }

  /** An iteration where the running length exceeds `length` closes the part
      after the segment's end and reopens at that end. */
  lemma ScanStepExceed(line: Line, f: nat, exact: bool, i: nat)
    requires f <= i < |line| - 1
    requires i == f ==> !exact
    ensures ClosedParts(line, f, exact, i + 1) ==
              ClosedParts(line, f, exact, i) + [OpenPart(line, f, exact, i) + [line[i], line[i + 1]]]
    ensures OpenPart(line, f, exact, i + 1) == [line[i + 1]]
  {
    if i == f {
      assert line[..i + 2] == line[..i] + [line[i], line[i + 1]];
      assert MiddleParts(line, f, exact, i + 1) == [];
    } else {
      assert MiddleParts(line, f, exact, i + 1) == MiddleParts(line, f, exact, i) + [MiddlePart(line, f, exact, i)];
      assert MiddlePart(line, f, exact, i) == [Opener(line, f, exact, i - 1)] + [line[i], line[i + 1]];
    }
  }

  /** Iteration i of the scan, by the comparison of the running length c
      with `length`: equal closes the open part after the segment's start and
      reopens there, greater closes it after the segment's end and reopens
      there, smaller only appends the segment's start. */
  lemma ScanStep(sphere: Sphere, line: Line, length: real, f: nat, exact: bool, i: nat, c: real)
    requires ValidSphere(sphere)
    requires |line| >= 2 && i < |line| - 1
    requires f == FirstCut(sphere, line, length, 0)
    requires exact == (f < |line| - 1 && Cumulative(sphere, line, f) == length)
    requires c == Cumulative(sphere, line, i)
    ensures c == length ==>
              ClosedParts(line, f, exact, i + 1) == ClosedParts(line, f, exact, i) + [OpenPart(line, f, exact, i) + [line[i]]] &&
              OpenPart(line, f, exact, i + 1) == [line[i]]
    ensures c > length ==>
              ClosedParts(line, f, exact, i + 1) == ClosedParts(line, f, exact, i) + [OpenPart(line, f, exact, i) + [line[i], line[i + 1]]] &&
              OpenPart(line, f, exact, i + 1) == [line[i + 1]]
    ensures c < length ==>
              ClosedParts(line, f, exact, i + 1) == ClosedParts(line, f, exact, i) &&
              OpenPart(line, f, exact, i + 1) == OpenPart(line, f, exact, i) + [line[i]]
  {
    ScanCases(sphere, line, length, i);
    if c == length {
      ScanStepExact(line, f, i);
    } else if c > length {
      ScanStepExceed(line, f, exact, i);
    } else {
      ScanStepBeforeCut(line, f, exact, i);
    }
  }

  /** Where iteration i of the scan stands relative to the first cut: the
      running length equals `length` only at the cut, exceeds it from the cut
      on, and stays below it before. */
  lemma ScanCases(sphere: Sphere, line: Line, length: real, i: nat)
    requires ValidSphere(sphere)
    requires |line| >= 2 && i < |line| - 1
    ensures var f := FirstCut(sphere, line, length, 0);
      var c := Cumulative(sphere, line, i);
      (c == length ==> i == f) && (c > length ==> f <= i) && (c < length ==> i < f)
  {
    var f := FirstCut(sphere, line, length, 0);
    if i > f {
      LaterSegmentsExceed(sphere, line, length, i);
    }
  }

  /** The variables of the split scan after i iterations: the parts closed
      so far, the part being built and the running length. */
  datatype ScanState = ScanState(retLines: seq<Line>, partLine: Line, partLength: real)

  /** The split scan run for i iterations, one segment per iteration. */
  function Scan(sphere: Sphere, line: Line, length: real, i: nat): ScanState
    requires ValidSphere(sphere)
    requires i < |line|
    decreases i
  {
    if i == 0 then ScanState([], [], 0.0)
    else
      var st := Scan(sphere, line, length, i - 1);
      var pt1 := line[i - 1];
      var pt2 := line[i];
      var partLength := st.partLength + Distance(sphere, pt1, pt2);
      var partLine := st.partLine + [pt1];
      if partLength == length then
        ScanState(st.retLines + [partLine], [pt1], partLength)
      else if partLength > length then
        var midPt := MidPointByLength(sphere, pt2, pt1, length - partLength);
        ScanState(st.retLines + [partLine + [midPt]], [midPt], partLength)
      else
        ScanState(st.retLines, partLine, partLength)
  }

  /** One more iteration of the scan, by the comparison of the running length
      with `length`; an exceeded length closes the part at the segment's end
      vertex, because the offset given to calc_mid_point_by_length is then
      negative. */
  lemma ScanNext(sphere: Sphere, line: Line, length: real, k: nat)
    requires ValidSphere(sphere)
    requires k < |line| - 1
    ensures var st := Scan(sphere, line, length, k);
      var next := Scan(sphere, line, length, k + 1);
      var c := st.partLength + Distance(sphere, line[k], line[k + 1]);
      next.partLength == c &&
      (c == length ==> next.retLines == st.retLines + [st.partLine + [line[k]]] && next.partLine == [line[k]]) &&
      (c > length ==> next.retLines == st.retLines + [st.partLine + [line[k], line[k + 1]]] && next.partLine == [line[k + 1]]) &&
      (c < length ==> next.retLines == st.retLines && next.partLine == st.partLine + [line[k]])
  {
    var st := Scan(sphere, line, length, k);
    var c := st.partLength + Distance(sphere, line[k], line[k + 1]);
    if c > length {
      assert MidPointByLength(sphere, line[k + 1], line[k], length - c) == line[k + 1];
      assert st.partLine + [line[k]] + [line[k + 1]] == st.partLine + [line[k], line[k + 1]];
    }
  }

  /** After i iterations the scan holds the closed form of the parts. */
  lemma {:induction false} ScanIsClosedForm(sphere: Sphere, line: Line, length: real, f: nat, exact: bool, i: nat)
    requires ValidSphere(sphere)
    requires |line| >= 2 && i <= |line| - 1
    requires f == FirstCut(sphere, line, length, 0)
    requires exact == (f < |line| - 1 && Cumulative(sphere, line, f) == length)
    ensures Scan(sphere, line, length, i) ==
              ScanState(ClosedParts(line, f, exact, i), OpenPart(line, f, exact, i), PathLength(sphere, line[..i + 1]))
  {
    if i > 0 {
      var k := i - 1;
      ScanIsClosedForm(sphere, line, length, f, exact, k);
      CumulativeStep(sphere, line, k);
      ScanNext(sphere, line, length, k);
      ScanStep(sphere, line, length, f, exact, k, Cumulative(sphere, line, k));
    }
  }

  /** split_line_by_length. */
  method SplitLineByLength(sphere: Sphere, line: Line, length: real) returns (retLines: seq<Line>)
    requires ValidSphere(sphere)
    ensures retLines == SplitParts(sphere, line, length)
  {
    if |line| <= 1 || length <= 0.0 {
      return [];
    }
    var partLength := 0.0;
    var partLine: Line := [];
    retLines := [];
    for i := 0 to |line| - 1
      invariant ScanState(retLines, partLine, partLength) == Scan(sphere, line, length, i)
    {
      var pt1 := line[i];
      var pt2 := line[i + 1];
      partLength := partLength + Distance(sphere, pt1, pt2);
      partLine := partLine + [pt1];
      if partLength == length {
        retLines := retLines + [partLine];
        partLine := [pt1];
      } else if partLength > length {
        var midPt := MidPointByLength(sphere, pt2, pt1, length - partLength);
        partLine := partLine + [midPt];
        retLines := retLines + [partLine];
        partLine := [midPt];
      }
    }
    ghost var f := FirstCut(sphere, line, length, 0);
    ghost var exact := f < |line| - 1 && Cumulative(sphere, line, f) == length;
    ScanIsClosedForm(sphere, line, length, f, exact, |line| - 1);
    partLine := partLine + [line[|line| - 1]];
    retLines := retLines + [partLine];
    ScanFinish(sphere, line, length);
  }

  /** After the scan, the closed parts plus the open part completed with the
      line's last point are the split. */
  lemma ScanFinish(sphere: Sphere, line: Line, length: real)
    requires ValidSphere(sphere)
    requires |line| >= 2 && length > 0.0
    ensures var f := FirstCut(sphere, line, length, 0);
      var exact := f < |line| - 1 && Cumulative(sphere, line, f) == length;
      ClosedParts(line, f, exact, |line| - 1) + [OpenPart(line, f, exact, |line| - 1) + [line[|line| - 1]]]
        == SplitParts(sphere, line, length)
  {
    var f := FirstCut(sphere, line, length, 0);
    if f == |line| - 1 {
      assert line[..|line| - 1] + [line[|line| - 1]] == line;
    } else {
      var exact := Cumulative(sphere, line, f) == length;
      assert OpenPart(line, f, exact, |line| - 1) + [line[|line| - 1]] == LastPart(line, f, exact);
    }
  }

  /** split_line_by_length returns nothing for a line of at most one point
      or a non-positive length, and at least one part otherwise. */
  lemma SplitEmptyIffGuard(sphere: Sphere, line: Line, length: real)
    requires ValidSphere(sphere)
    ensures SplitParts(sphere, line, length) == [] <==> (|line| <= 1 || length <= 0.0)
  {
  }

  /** A line shorter than `length` comes back whole, as the only part. */
  lemma SplitShortLineWhole(sphere: Sphere, line: Line, length: real)
    requires ValidSphere(sphere)
    requires |line| >= 2 && length > 0.0
    requires PathLength(sphere, line) < length
    ensures SplitParts(sphere, line, length) == [line]
  {
    NoCutIffShort(sphere, line, length);
  }

  /** Once a cut happens at iteration f, there is one part per remaining
      iteration plus the final one, so never more parts than points. */
  lemma SplitCount(sphere: Sphere, line: Line, length: real)
    requires ValidSphere(sphere)
    ensures |SplitParts(sphere, line, length)| <= |line|
    ensures |line| >= 2 && length > 0.0 ==>
              |SplitParts(sphere, line, length)| == |line| - FirstCut(sphere, line, length, 0)
  {
  }

  /** Each of the cut parts is the head, a middle part or the last part. */
  lemma CutPartAt(line: Line, f: nat, exact: bool, k: nat)
    requires f < |line| - 1
    requires k < |CutParts(line, f, exact)|
    ensures |CutParts(line, f, exact)| == |line| - f
    ensures CutParts(line, f, exact)[k] ==
              if k == 0 then HeadPart(line, f, exact)
              else if k < |line| - 1 - f then MiddlePart(line, f, exact, f + k)
              else LastPart(line, f, exact)
  {
  }

  /** The parts chain together: the first starts at the line's first point,
      the last ends at its last point, and each part ends where the next one
      begins. */
  lemma SplitChains(sphere: Sphere, line: Line, length: real)
    requires ValidSphere(sphere)
    requires |line| >= 2 && length > 0.0
    ensures var parts := SplitParts(sphere, line, length);
      |parts| >= 1 &&
      (forall k :: 0 <= k < |parts| ==> |parts[k]| >= 1) &&
      parts[0][0] == line[0] &&
      parts[|parts| - 1][|parts[|parts| - 1]| - 1] == line[|line| - 1] &&
      forall k :: 0 <= k < |parts| - 1 ==> parts[k][|parts[k]| - 1] == parts[k + 1][0]
  {
    var f := FirstCut(sphere, line, length, 0);
    if f < |line| - 1 {
      CutPartsChain(line, f, Cumulative(sphere, line, f) == length);
    }
  }

  /** The chaining of SplitChains for the parts after a cut at iteration f. */
  lemma CutPartsChain(line: Line, f: nat, exact: bool)
    requires f < |line| - 1
    ensures var parts := CutParts(line, f, exact);
      |parts| >= 1 &&
      (forall k :: 0 <= k < |parts| ==> |parts[k]| >= 1) &&
      parts[0][0] == line[0] &&
      parts[|parts| - 1][|parts[|parts| - 1]| - 1] == line[|line| - 1] &&
      forall k :: 0 <= k < |parts| - 1 ==> parts[k][|parts[k]| - 1] == parts[k + 1][0]
  {
    var parts := CutParts(line, f, exact);
    forall k | 0 <= k < |parts|
      ensures |parts[k]| >= 1
      ensures k < |parts| - 1 ==> parts[k][|parts[k]| - 1] == Opener(line, f, exact, f + k)
      ensures k > 0 ==> parts[k][0] == Opener(line, f, exact, f + k - 1)
    {
      CutPartAt(line, f, exact, k);
    }
    CutPartAt(line, f, exact, 0);
    CutPartAt(line, f, exact, |parts| - 1);
  }

  /** No part holds a point that is not a vertex of the line: breakpoints
      are never interpolated. */
  lemma SplitUsesOnlyVertices(sphere: Sphere, line: Line, length: real)
    requires ValidSphere(sphere)
    ensures var parts := SplitParts(sphere, line, length);
      forall k, j :: 0 <= k < |parts| && 0 <= j < |parts[k]| ==> parts[k][j] in line
  {
    var parts := SplitParts(sphere, line, length);
    if |line| >= 2 && length > 0.0 {
      var f := FirstCut(sphere, line, length, 0);
      if f < |line| - 1 {
        var exact := Cumulative(sphere, line, f) == length;
        forall k, j | 0 <= k < |parts| && 0 <= j < |parts[k]|
          ensures parts[k][j] in line
        {
          CutPartAt(line, f, exact, k);
        }
      }
    }
  }

  /** What get_start_part_by_length returns: the vertices scanned up to the
      first cut, plus the segment's end when the length was exceeded; with no
      cut, every point but the last. */
  function StartPart(sphere: Sphere, line: Line, length: real): Line
    requires ValidSphere(sphere)
  {
    if |line| <= 1 || length <= 0.0 then []
    else
      var f := FirstCut(sphere, line, length, 0);
      if f == |line| - 1 then line[..|line| - 1]
      else HeadPart(line, f, Cumulative(sphere, line, f) == length)
  }

  /** get_start_part_by_length. */
  method GetStartPartByLength(sphere: Sphere, line: Line, length: real) returns (partLine: Line)
    requires ValidSphere(sphere)
    ensures partLine == StartPart(sphere, line, length)
  {
    if |line| <= 1 || length <= 0.0 {
      return [];
    }
    ghost var f := FirstCut(sphere, line, length, 0);
    var partLength := 0.0;
    partLine := [];
    for i := 0 to |line| - 1
      invariant i <= f
      invariant partLength == PathLength(sphere, line[..i + 1])
      invariant partLine == line[..i]
    {
      var pt1 := line[i];
      var pt2 := line[i + 1];
      CumulativeStep(sphere, line, i);
      partLength := partLength + Distance(sphere, pt1, pt2);
      partLine := partLine + [pt1];
      assert line[..i + 1] == line[..i] + [pt1];
      assert partLength == Cumulative(sphere, line, i);
      ScanCases(sphere, line, length, i);
      if partLength == length {
        assert i == f;
        break;
      } else if partLength > length {
        var midPt := MidPointByLength(sphere, pt2, pt1, length - partLength);
        assert midPt == pt2 && i == f;
        partLine := partLine + [midPt];
        assert line[..i + 2] == line[..i + 1] + [pt2];
        break;
      }
    }
  }

  /** Past the guards the start part is a non-empty prefix of the line that
      begins at its first point. */
  lemma StartPartIsPrefix(sphere: Sphere, line: Line, length: real)
    requires ValidSphere(sphere)
    requires |line| >= 2 && length > 0.0
    ensures var part := StartPart(sphere, line, length);
      1 <= |part| <= |line| && part == line[..|part|] && part[0] == line[0]
  {
  }

  /** The start part contains the line's last point only when the cut falls
      on the last segment and strictly exceeds `length` there. */
  lemma StartPartWholeIff(sphere: Sphere, line: Line, length: real)
    requires ValidSphere(sphere)
    requires |line| >= 2 && length > 0.0
    ensures StartPart(sphere, line, length) == line <==>
              PathLength(sphere, line[..|line| - 1]) < length < PathLength(sphere, line)
  {
    var n := |line|;
    var f := FirstCut(sphere, line, length, 0);
    if f == n - 2 && Cumulative(sphere, line, n - 2) != length {
      StartPartWholeWhenLastCut(sphere, line, length);
    } else {
      StartPartShortOtherwise(sphere, line, length);
    }
  }

  /** A cut on the last segment that exceeds `length` keeps the whole line,
      and puts `length` strictly inside the last segment. */
  lemma StartPartWholeWhenLastCut(sphere: Sphere, line: Line, length: real)
    requires ValidSphere(sphere)
    requires |line| >= 2 && length > 0.0
    requires FirstCut(sphere, line, length, 0) == |line| - 2
    requires Cumulative(sphere, line, |line| - 2) != length
    ensures StartPart(sphere, line, length) == line
    ensures PathLength(sphere, line[..|line| - 1]) < length < PathLength(sphere, line)
  {
    var n := |line|;
    var total := Cumulative(sphere, line, n - 2);
    CumulativeTotal(sphere, line);
    assert total > length;
    assert line[..n] == line;
    if n >= 3 {
      var before := Cumulative(sphere, line, n - 3);
      assert before < length;
      assert line[..n - 1] == line[..(n - 3) + 2];
    }
  }

  /** Any other outcome of the scan leaves a start part shorter than the
      line, and `length` outside the last segment. */
  lemma StartPartShortOtherwise(sphere: Sphere, line: Line, length: real)
    requires ValidSphere(sphere)
    requires |line| >= 2 && length > 0.0
    requires FirstCut(sphere, line, length, 0) != |line| - 2 ||
             Cumulative(sphere, line, |line| - 2) == length
    ensures |StartPart(sphere, line, length)| < |line|
    ensures !(PathLength(sphere, line[..|line| - 1]) < length < PathLength(sphere, line))
  {
    var n := |line|;
    var f := FirstCut(sphere, line, length, 0);
    var total := Cumulative(sphere, line, n - 2);
    CumulativeTotal(sphere, line);
    if f == n - 1 {
      NoCutIffShort(sphere, line, length);
    } else if f < n - 2 {
      assert n >= 3;
      var before := Cumulative(sphere, line, n - 3);
      assert line[..n - 1] == line[..(n - 3) + 2];
      if f < n - 3 {
        CumulativeIncreasing(sphere, line, f, n - 3);
      }
      assert before >= length;
    }
  }

  /** When a cut happens the start part is the first part of the split; with
      no cut it is that part without the line's last point. */
  lemma StartPartIsFirstSplitPart(sphere: Sphere, line: Line, length: real)
    requires ValidSphere(sphere)
    requires |line| >= 2 && length > 0.0
    ensures PathLength(sphere, line) >= length ==>
              StartPart(sphere, line, length) == SplitParts(sphere, line, length)[0]
    ensures PathLength(sphere, line) < length ==>
              SplitParts(sphere, line, length) == [line] && StartPart(sphere, line, length) == line[..|line| - 1]
  {
    NoCutIffShort(sphere, line, length);
  }

  /** Python's range(start, stop) with step 1: the integers from start up to
      but excluding stop, and nothing when stop <= start. */
  function PyRange(start: int, stop: int): (r: seq<int>)
    ensures |r| == if start < stop then stop - start else 0
    ensures forall k :: 0 <= k < |r| ==> r[k] == start + k
    decreases stop - start
  {
    if start >= stop then [] else [start] + PyRange(start + 1, stop)
  }

  /** get_end_part_by_length: past the guards its scan runs over
      `range(len(line), 1)`, which is empty for every line of two or more
      points, so the scan body (two points read backwards from index i, the
      running length, the append and the breaks) is never reached and
      nothing is ever appended. */
  method GetEndPartByLength(sphere: Sphere, line: Line, length: real) returns (partLine: Line)
    requires ValidSphere(sphere)
    ensures partLine == []
  {
    if |line| <= 1 || length <= 0.0 {
      return [];
    }
    partLine := [];
    var indices := PyRange(|line|, 1);
    for k := 0 to |indices|
      invariant partLine == []
    {
      assert false;
    }
  }

  /** get_start_part_by_percent: nothing at or below 0, the line itself at
      or above 1, otherwise the start part of `percent` of the line length. */
  method GetStartPartByPercent(sphere: Sphere, line: Line, percent: real) returns (part: Line)
    requires ValidSphere(sphere)
    ensures percent <= 0.0 ==> part == []
    ensures percent >= 1.0 ==> part == line
    ensures 0.0 < percent < 1.0 ==> part == StartPart(sphere, line, PathLength(sphere, line) * percent)
  {
    if percent <= 0.0 {
      return [];
    }
    if percent >= 1.0 {
      return line;
    }
    var lineLength := LineLength(sphere, line);
    var partLength := lineLength * percent;
    assert partLength == PathLength(sphere, line) * percent;
    part := GetStartPartByLength(sphere, line, partLength);
    assert part == StartPart(sphere, line, partLength);
  }

  /** A positive length no longer than the line always triggers a cut, and
      then the start part is the first part of the split. */
  lemma CutWithinLine(sphere: Sphere, line: Line, length: real)
    requires ValidSphere(sphere)
    requires |line| >= 2 && 0.0 < length <= PathLength(sphere, line)
    ensures FirstCut(sphere, line, length, 0) < |line| - 1
    ensures StartPart(sphere, line, length) == SplitParts(sphere, line, length)[0]
  {
    NoCutIffShort(sphere, line, length);
    StartPartIsFirstSplitPart(sphere, line, length);
  }

  /** With a percent strictly between 0 and 1 the scan always cuts, so the
      start part by percent is the first part of the split at that length. */
  lemma StartPartByPercentCuts(sphere: Sphere, line: Line, percent: real, total: real, length: real)
    requires ValidSphere(sphere)
    requires |line| >= 2 && 0.0 < percent < 1.0
    requires total == PathLength(sphere, line) && length == total * percent
    ensures 0.0 < length < total
    ensures FirstCut(sphere, line, length, 0) < |line| - 1
    ensures StartPart(sphere, line, length) == SplitParts(sphere, line, length)[0]
  {
    LengthInside(total, percent, length);
    CutWithinLine(sphere, line, length);
  }

  /** A fraction strictly between 0 and 1 of a positive total lies strictly
      between 0 and the total. */
  lemma LengthInside(total: real, percent: real, length: real)
    requires total > 0.0
    requires 0.0 < percent < 1.0
    requires length == total * percent
    ensures 0.0 < length < total
  {
    ProductPositive(total, percent);
    ProductPositive(total, 1.0 - percent);
    var rest := total * (1.0 - percent);
    assert rest == total - total * percent;
    assert rest > 0.0;
  }

  /** What get_end_part_by_percent returns: the line itself at or above 1 and
      nothing otherwise, because the end part by length is always empty. */
  function EndPartByPercent(line: Line, percent: real): (part: Line)
  {
    if percent >= 1.0 then line else []
  }

  /** get_end_part_by_percent. */
  method GetEndPartByPercent(sphere: Sphere, line: Line, percent: real) returns (part: Line)
    requires ValidSphere(sphere)
    ensures part == EndPartByPercent(line, percent)
  {
    if percent <= 0.0 {
      return [];
    }
    if percent >= 1.0 {
      return line;
    }
    var lineLength := LineLength(sphere, line);
    var partLength := lineLength * percent;
    part := GetEndPartByLength(sphere, line, partLength);
  }

  /** Splitting a line by percent p into a start part (at p) and an end part
      (at 1 - p): for p strictly between 0 and 1 the end part is empty, so the
      two parts rebuild the line exactly when the start part is already the
      whole line, that is when the cut falls inside the last segment. */
  lemma PercentPartsRebuildLine(sphere: Sphere, line: Line, percent: real, total: real, length: real)
    requires ValidSphere(sphere)
    requires |line| >= 2 && 0.0 < percent < 1.0
    requires total == PathLength(sphere, line) && length == total * percent
    ensures StartPart(sphere, line, length) + EndPartByPercent(line, 1.0 - percent) == line <==>
              PathLength(sphere, line[..|line| - 1]) < length
  {
    LengthInside(total, percent, length);
    StartPartWholeIff(sphere, line, length);
    var start := StartPart(sphere, line, length);
    assert start + [] == start;
  }
}
