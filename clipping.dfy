/**
 * The boundary clipper of `FortunesAlgorithm`: Cohen–Sutherland outcodes
 * for finite edges, the axis-aligned ray cases, and the stitching of an
 * edge with its neighbor half.
 */
module Clipping {
  import opened Wrappers
  import opened Geometry
  import opened Edges

  /** The clipping rectangle `[minX, maxX] × [minY, maxY]`. */
  datatype Box = Box(minX: real, minY: real, maxX: real, maxY: real)

  /** A Cohen–Sutherland outcode: a C# `int` used as a set of bits. */
  type OutCode = bv32

  const LeftBit: OutCode := 0x1
  const RightBit: OutCode := 0x2
  const BottomBit: OutCode := 0x4
  const TopBit: OutCode := 0x8

  /** The four sides of the rectangle, in the order the clip loop tries them. */
  datatype Side = Top | Bottom | Right | Left

  /**
   * The intersection arithmetic, which this model does not compute:
   * `crossing(s, e, side, box)` is the free coordinate where the segment
   * from `s` to `e` meets the line of `side`; `rayCandidates(start, rise,
   * run, slope, intercept, box)` is the list of boundary crossings of a
   * sloped ray that survive the in-bounds and direction filters.
   */
  datatype Intersections = Intersections(
    crossing: (Point, Point, Side, Box) -> real,
    rayCandidates: (Point, real, real, Option<real>, Option<real>, Box) -> seq<Point>)

  /** The outcome of clipping one half-edge on its own. */
  datatype Clipped = Rejected | Clipped(start: Point, end: Point)

  /**
   * A point's outcode. A coordinate equal (up to tolerance) to a bound gets
   * no bit on that axis. As written, the y bits are dropped when `y` is near
   * `minY` or when `x` (not `y`) is near `maxY`.
   */
  function ComputeOutCode(tol: Tolerance, x: real, y: real, box: Box): (code: OutCode)
    ensures code < 16
    ensures code & (LeftBit | RightBit) != LeftBit | RightBit
    ensures code & (BottomBit | TopBit) != BottomBit | TopBit
    ensures tol.approxEqual(x, box.minX) || tol.approxEqual(x, box.maxX) ==> code & (LeftBit | RightBit) == 0
    ensures tol.approxEqual(y, box.minY) || tol.approxEqual(x, box.maxY) ==> code & (BottomBit | TopBit) == 0
    ensures code & LeftBit != 0 ==> x < box.minX
    ensures code & RightBit != 0 ==> x > box.maxX
    ensures code & BottomBit != 0 ==> y < box.minY
    ensures code & TopBit != 0 ==> y > box.maxY
    ensures box.minX <= x <= box.maxX && box.minY <= y <= box.maxY ==> code == 0
  {
    var xBits: OutCode :=
      if tol.approxEqual(x, box.minX) || tol.approxEqual(x, box.maxX) then 0
      else if x < box.minX then LeftBit
      else if x > box.maxX then RightBit
      else 0;
    var yBits: OutCode :=
      if tol.approxEqual(y, box.minY) || tol.approxEqual(x, box.maxY) then 0
      else if y < box.minY then BottomBit
      else if y > box.maxY then TopBit
      else 0;
    xBits | yBits
  }

  /** The outcode of a point. */
  function CodeOf(tol: Tolerance, p: Point, box: Box): OutCode
  {
    ComputeOutCode(tol, p.x, p.y, box)
  }

  /** Off the boundary (beyond tolerance), a bit is set exactly when the point is beyond that side. */
  lemma OutCodeExact(tol: Tolerance, x: real, y: real, box: Box)
    requires !tol.approxEqual(x, box.minX) && !tol.approxEqual(x, box.maxX)
    requires !tol.approxEqual(y, box.minY) && !tol.approxEqual(x, box.maxY)
    requires box.minX <= box.maxX && box.minY <= box.maxY
    ensures ComputeOutCode(tol, x, y, box) & LeftBit != 0 <==> x < box.minX
    ensures ComputeOutCode(tol, x, y, box) & RightBit != 0 <==> x > box.maxX
    ensures ComputeOutCode(tol, x, y, box) & BottomBit != 0 <==> y < box.minY
    ensures ComputeOutCode(tol, x, y, box) & TopBit != 0 <==> y > box.maxY
  {
  }

  /**
   * The x-against-`maxY` test as written: in a square box, a point on the
   * right side's line but far above the box gets outcode 0, as if inside.
   */
  lemma OutCodeAboveBoxAsWritten(tol: Tolerance)
    requires Sound(tol)
    ensures ComputeOutCode(tol, 10.0, 20.0, Box(0.0, 0.0, 10.0, 10.0)) == 0
  {
    assert tol.approxEqual(10.0, 10.0);
  }

  /**
   * `Within`: `x` is approximately at least `a` and approximately at most
   * `b`; with a sound tolerance it holds on the whole exact range.
   */
  predicate Within(tol: Tolerance, x: real, a: real, b: real)
    ensures Sound(tol) && a <= x <= b ==> Within(tol, x, a, b)
  {
    tol.approxGe(x, a) && tol.approxLe(x, b)
  }

  /** One pass of the clip loop's tests. */
  datatype ClipStep = Accept | Reject | Refine(moveStart: bool, outcode: OutCode)

  /**
   * Accept when both outcodes are 0; reject when they share a bit (both
   * endpoints beyond the same side); otherwise move the start if it is
   * outside, else the end.
   */
  function ClipTest(start: OutCode, end: OutCode): (step: ClipStep)
    ensures step == Accept <==> start == 0 && end == 0
    ensures step == Reject <==> (start != 0 || end != 0) && start & end != 0
    ensures step.Refine? ==> step.outcode != 0 && start & end == 0
    ensures step.Refine? ==> (step.moveStart <==> start != 0)
    ensures step.Refine? ==> step.outcode == if start != 0 then start else end
  {
    if start | end == 0 then Accept
    else if start & end != 0 then Reject
    else
      var outcode := if start != 0 then start else end;
      Refine(outcode == start, outcode)
  }

  /** The boundary the loop moves to: top first, then bottom, right, left. */
  function BoundaryOf(outcode: OutCode): (side: Option<Side>)
    ensures side == Some(Top) <==> outcode & TopBit != 0
    ensures side == Some(Bottom) <==> outcode & TopBit == 0 && outcode & BottomBit != 0
    ensures side == Some(Right) <==> outcode & (TopBit | BottomBit) == 0 && outcode & RightBit != 0
    ensures side == Some(Left) <==> outcode & (TopBit | BottomBit | RightBit) == 0 && outcode & LeftBit != 0
    ensures side == None <==> outcode & 0xF == 0
  {
    if outcode & TopBit != 0 then Some(Top)
    else if outcode & BottomBit != 0 then Some(Bottom)
    else if outcode & RightBit != 0 then Some(Right)
    else if outcode & LeftBit != 0 then Some(Left)
    else None
  }

  /** A refinement step on real outcodes always has a side to move to. */
  lemma RefineHasSide(tol: Tolerance, s: Point, e: Point, box: Box)
    requires ClipTest(CodeOf(tol, s, box), CodeOf(tol, e, box)).Refine?
    ensures BoundaryOf(ClipTest(CodeOf(tol, s, box), CodeOf(tol, e, box)).outcode).Some?
  {
  }

  /**
   * The replacement endpoint: the crossing with the chosen side, whose fixed
   * coordinate is copied from the box; with no side, C#'s initial (-1, -1).
   */
  function BoundaryPoint(ix: Intersections, s: Point, e: Point, side: Option<Side>, box: Box): (p: Point)
    ensures side == Some(Top) ==> p.y == box.maxY
    ensures side == Some(Bottom) ==> p.y == box.minY
    ensures side == Some(Right) ==> p.x == box.maxX
    ensures side == Some(Left) ==> p.x == box.minX
  {
    match side
    case Some(Top) => Point(ix.crossing(s, e, Top, box), box.maxY)
    case Some(Bottom) => Point(ix.crossing(s, e, Bottom, box), box.minY)
    case Some(Right) => Point(box.maxX, ix.crossing(s, e, Right, box))
    case Some(Left) => Point(box.minX, ix.crossing(s, e, Left, box))
    case None => Point(-1.0, -1.0)
  }

  /** A horizontal ray (rise ≈ 0) from `start`, running toward +x when `run > 0`. */
  function ClipHorizontal(tol: Tolerance, box: Box, start: Point, run: real): (r: Clipped)
    ensures r.Clipped? <==>
      && Within(tol, start.y, box.minY, box.maxY)
      && !(run > 0.0 && start.x > box.maxX)
      && !(run < 0.0 && start.x < box.minX)
    ensures r.Clipped? ==> r.start.y == start.y && r.end.y == start.y
    ensures r.Clipped? ==> r.end.x == if run > 0.0 then box.maxX else box.minX
    ensures r.Clipped? && Within(tol, start.x, box.minX, box.maxX) ==> r.start == start
    ensures r.Clipped? && !Within(tol, start.x, box.minX, box.maxX) ==>
      r.start.x == if run > 0.0 then box.minX else box.maxX
  {
    if !Within(tol, start.y, box.minY, box.maxY) then Rejected
    else if run > 0.0 && start.x > box.maxX then Rejected
    else if run < 0.0 && start.x < box.minX then Rejected
    else if Within(tol, start.x, box.minX, box.maxX) then
      Clipped(start, Point(if run > 0.0 then box.maxX else box.minX, start.y))
    else if run > 0.0 then
      Clipped(Point(box.minX, start.y), Point(box.maxX, start.y))
    else
      Clipped(Point(box.maxX, start.y), Point(box.minX, start.y))
  }

  /**
   * A vertical ray (run ≈ 0) from `start`, running toward +y when `rise > 0`.
   * Unlike the horizontal case, the fixed coordinate is tested exactly.
   */
  function ClipVertical(tol: Tolerance, box: Box, start: Point, rise: real): (r: Clipped)
    ensures r.Clipped? <==>
      && box.minX <= start.x <= box.maxX
      && !(rise > 0.0 && start.y > box.maxY)
      && !(rise < 0.0 && start.y < box.minY)
    ensures r.Clipped? ==> r.start.x == start.x && r.end.x == start.x
    ensures r.Clipped? ==> r.end.y == if rise > 0.0 then box.maxY else box.minY
    ensures r.Clipped? && Within(tol, start.y, box.minY, box.maxY) ==> r.start == start
    ensures r.Clipped? && !Within(tol, start.y, box.minY, box.maxY) ==>
      r.start.y == if rise > 0.0 then box.minY else box.maxY
  {
    if start.x < box.minX || start.x > box.maxX then Rejected
    else if rise > 0.0 && start.y > box.maxY then Rejected
    else if rise < 0.0 && start.y < box.minY then Rejected
    else if Within(tol, start.y, box.minY, box.maxY) then
      Clipped(start, Point(start.x, if rise > 0.0 then box.maxY else box.minY))
    else if rise > 0.0 then
      Clipped(Point(start.x, box.minY), Point(start.x, box.maxY))
    else
      Clipped(Point(start.x, box.maxY), Point(start.x, box.minY))
  }

  /** Squared distance, as the candidate comparison computes it. */
  function SquaredDistance(p: Point, q: Point): real
  {
    (q.x - p.x) * (q.x - p.x) + (q.y - p.y) * (q.y - p.y)
  }

  /** The squared distance written with the coordinate differences `dx`, `dy`. */
  lemma SquaredDistanceOf(p: Point, q: Point, dx: real, dy: real)
    requires dx == q.x - p.x && dy == q.y - p.y
    ensures SquaredDistance(p, q) == dx * dx + dy * dy
  {
  }

  /**
   * The end of the sloped-ray case: two surviving candidates become the new
   * start (the nearer one) and end; a single one becomes the end; any other
   * number leaves the end null, so the ray is rejected.
   */
  function ChooseCandidates(start: Point, candidates: seq<Point>): (r: Clipped)
    ensures |candidates| == 2 ==>
      && r.Clipped?
      && ((r.start == candidates[0] && r.end == candidates[1]) || (r.start == candidates[1] && r.end == candidates[0]))
      && SquaredDistance(start, r.start) <= SquaredDistance(start, r.end)
    ensures |candidates| == 2 && SquaredDistance(start, candidates[0]) <= SquaredDistance(start, candidates[1]) ==>
      r == Clipped(candidates[0], candidates[1])
    ensures |candidates| == 1 ==> r == Clipped(start, candidates[0])
    ensures |candidates| != 1 && |candidates| != 2 ==> r == Rejected
  {
    if |candidates| == 2 then
      if SquaredDistance(start, candidates[0]) > SquaredDistance(start, candidates[1]) then
        Clipped(candidates[1], candidates[0])
      else
        Clipped(candidates[0], candidates[1])
    else if |candidates| == 1 then
      Clipped(start, candidates[0])
    else
      Rejected
  }

  /**
   * What `ClipRay` makes of a ray: horizontal first, then vertical, else
   * sloped. An accepted horizontal ray keeps its y, a vertical one its x,
   * and a sloped one ends on a candidate and starts on its own start or on
   * a candidate.
   */
  function RayOutcome(
    tol: Tolerance, ix: Intersections, box: Box,
    start: Point, rise: real, run: real, slope: Option<real>, intercept: Option<real>): (r: Clipped)
    ensures tol.approxEqual(rise, 0.0) && r.Clipped? ==> r.start.y == start.y && r.end.y == start.y
    ensures !tol.approxEqual(rise, 0.0) && tol.approxEqual(run, 0.0) && r.Clipped? ==>
      r.start.x == start.x && r.end.x == start.x
    ensures !tol.approxEqual(rise, 0.0) && !tol.approxEqual(run, 0.0) && r.Clipped? ==>
      var candidates := ix.rayCandidates(start, rise, run, slope, intercept, box);
      r.end in candidates && (r.start == start || r.start in candidates)
  {
    if tol.approxEqual(rise, 0.0) then ClipHorizontal(tol, box, start, run)
    else if tol.approxEqual(run, 0.0) then ClipVertical(tol, box, start, rise)
    else ChooseCandidates(start, ix.rayCandidates(start, rise, run, slope, intercept, box))
  }

  /** A box whose sides are in order. */
  predicate Proper(box: Box)
  {
    box.minX <= box.maxX && box.minY <= box.maxY
  }

  /** Both coordinates of `p` are `Within` the box. */
  predicate InsideUpToTolerance(tol: Tolerance, p: Point, box: Box)
  {
    Within(tol, p.x, box.minX, box.maxX) && Within(tol, p.y, box.minY, box.maxY)
  }

  /** An accepted axis-aligned ray lies in the box, up to tolerance. */
  lemma AxisRayInsideBox(tol: Tolerance, box: Box, start: Point, rise: real, run: real)
    requires Sound(tol) && Proper(box)
    ensures ClipHorizontal(tol, box, start, run).Clipped? ==>
      && InsideUpToTolerance(tol, ClipHorizontal(tol, box, start, run).start, box)
      && InsideUpToTolerance(tol, ClipHorizontal(tol, box, start, run).end, box)
    ensures ClipVertical(tol, box, start, rise).Clipped? ==>
      && InsideUpToTolerance(tol, ClipVertical(tol, box, start, rise).start, box)
      && InsideUpToTolerance(tol, ClipVertical(tol, box, start, rise).end, box)
  {
  }

  /** The fields of an edge other than its end points. */
  datatype Links = Links(
    left: Option<Site>, right: Option<Site>, neighbor: VEdge?,
    rise: real, run: real, slope: Option<real>, intercept: Option<real>)

  ghost function LinksOf(e: VEdge): Links
    reads e
  {
    Links(e.left, e.right, e.neighbor, e.slopeRise, e.slopeRun, e.slope, e.intercept)
  }

  /** Only the end points of an edge change while it is clipped. */
  twostate predicate KeepsLinks(e: VEdge)
    reads e
  {
    LinksOf(e) == old(LinksOf(e))
  }

  /**
   * Clips a ray (an edge with no end yet). The horizontal and vertical cases
   * compare and copy coordinates; the sloped case takes its candidates from
   * `ix`.
   */
  method ClipRay(edge: VEdge, tol: Tolerance, ix: Intersections, box: Box) returns (accept: bool)
    requires edge.start.Some? && edge.end.None?
    modifies edge
    ensures KeepsLinks(edge)
    ensures var r := RayOutcome(tol, ix, box, old(edge.start.value), old(edge.slopeRise),
                                old(edge.slopeRun), old(edge.slope), old(edge.intercept));
      && accept == r.Clipped?
      && (accept ==> edge.start == Some(r.start) && edge.end == Some(r.end))
      && (!accept ==> edge.start == old(edge.start) && edge.end == None)
  {
    var start := edge.start.value;
    if tol.approxEqual(edge.slopeRise, 0.0) {
      if !Within(tol, start.y, box.minY, box.maxY) {
        return false;
      }
      if edge.slopeRun > 0.0 && start.x > box.maxX {
        return false;
      }
      if edge.slopeRun < 0.0 && start.x < box.minX {
        return false;
      }
      if Within(tol, start.x, box.minX, box.maxX) {
        if edge.slopeRun > 0.0 {
          edge.end := Some(Point(box.maxX, start.y));
        } else {
          edge.end := Some(Point(box.minX, start.y));
        }
      } else {
        if edge.slopeRun > 0.0 {
          edge.start := Some(Point(box.minX, start.y));
          edge.end := Some(Point(box.maxX, start.y));
        } else {
          edge.start := Some(Point(box.maxX, start.y));
          edge.end := Some(Point(box.minX, start.y));
        }
      }
      return true;
    }
    if tol.approxEqual(edge.slopeRun, 0.0) {
      if start.x < box.minX || start.x > box.maxX {
        return false;
      }
      if edge.slopeRise > 0.0 && start.y > box.maxY {
        return false;
      }
      if edge.slopeRise < 0.0 && start.y < box.minY {
        return false;
      }
      if Within(tol, start.y, box.minY, box.maxY) {
        if edge.slopeRise > 0.0 {
          edge.end := Some(Point(start.x, box.maxY));
        } else {
          edge.end := Some(Point(start.x, box.minY));
        }
      } else {
        if edge.slopeRise > 0.0 {
          edge.start := Some(Point(start.x, box.minY));
          edge.end := Some(Point(start.x, box.maxY));
        } else {
          edge.start := Some(Point(start.x, box.maxY));
          edge.end := Some(Point(start.x, box.minY));
        }
      }
      return true;
    }

    var candidates := ix.rayCandidates(start, edge.slopeRise, edge.slopeRun, edge.slope, edge.intercept, box);
    assert RayOutcome(tol, ix, box, start, edge.slopeRise, edge.slopeRun, edge.slope, edge.intercept)
        == ChooseCandidates(start, candidates);
    if |candidates| == 2 {
      var dax := candidates[0].x - start.x;
      var day := candidates[0].y - start.y;
      var dbx := candidates[1].x - start.x;
      var dby := candidates[1].y - start.y;
      SquaredDistanceOf(start, candidates[0], dax, day);
      SquaredDistanceOf(start, candidates[1], dbx, dby);
      if dax * dax + day * day > dbx * dbx + dby * dby {
        edge.start := Some(candidates[1]);
        edge.end := Some(candidates[0]);
      } else {
        edge.start := Some(candidates[0]);
        edge.end := Some(candidates[1]);
      }
    }
    if |candidates| == 1 {
      edge.end := Some(candidates[0]);
    }
    return edge.end.Some?;
  }

  /** `p` lies on the line of one of the box's sides. */
  predicate OnSideLine(p: Point, box: Box)
  {
    p.x == box.minX || p.x == box.maxX || p.y == box.minY || p.y == box.maxY
  }

  /**
   * The outcome of the Cohen–Sutherland loop: the verdict, whether it ran
   * out of refinement steps, how many it took, and the final endpoints.
   */
  datatype SegmentResult = SegmentResult(accepted: bool, exhausted: bool, steps: nat, start: Point, end: Point)

  /**
   * The Cohen–Sutherland loop as a function of the two endpoints and a bound
   * `fuel` on the number of refinements; it runs out of steps only after
   * using all of them.
   */
  function SegmentOutcome(tol: Tolerance, ix: Intersections, box: Box, s: Point, e: Point, fuel: nat): (r: SegmentResult)
    decreases fuel
    ensures r.steps <= fuel && (r.exhausted ==> r.steps == fuel)
  {
    match ClipTest(CodeOf(tol, s, box), CodeOf(tol, e, box))
    case Accept => SegmentResult(true, false, 0, s, e)
    case Reject => SegmentResult(false, false, 0, s, e)
    case Refine(moveStart, outcode) =>
      if fuel == 0 then SegmentResult(false, true, 0, s, e)
      else
        var p := BoundaryPoint(ix, s, e, BoundaryOf(outcode), box);
        var r := if moveStart then SegmentOutcome(tol, ix, box, p, e, fuel - 1)
                 else SegmentOutcome(tol, ix, box, s, p, fuel - 1);
        r.(steps := r.steps + 1)
  }

  /** An accepted segment has both outcodes 0 and did not run out of steps. */
  lemma {:induction false} SegmentAcceptedInside(tol: Tolerance, ix: Intersections, box: Box, s: Point, e: Point, fuel: nat)
    decreases fuel
    ensures var r := SegmentOutcome(tol, ix, box, s, e, fuel);
      r.accepted ==> !r.exhausted && CodeOf(tol, r.start, box) == 0 && CodeOf(tol, r.end, box) == 0
  {
    match ClipTest(CodeOf(tol, s, box), CodeOf(tol, e, box))
    case Accept =>
    case Reject =>
    case Refine(moveStart, outcode) =>
      if fuel > 0 {
        var p := BoundaryPoint(ix, s, e, BoundaryOf(outcode), box);
        if moveStart {
          SegmentAcceptedInside(tol, ix, box, p, e, fuel - 1);
        } else {
          SegmentAcceptedInside(tol, ix, box, s, p, fuel - 1);
        }
      }
  }

  /** A rejected segment that did not run out of steps has outcodes sharing a bit. */
  lemma {:induction false} SegmentRejectedOutside(tol: Tolerance, ix: Intersections, box: Box, s: Point, e: Point, fuel: nat)
    decreases fuel
    ensures var r := SegmentOutcome(tol, ix, box, s, e, fuel);
      !r.accepted && !r.exhausted ==> CodeOf(tol, r.start, box) & CodeOf(tol, r.end, box) != 0
  {
    match ClipTest(CodeOf(tol, s, box), CodeOf(tol, e, box))
    case Accept =>
    case Reject =>
    case Refine(moveStart, outcode) =>
      if fuel > 0 {
        var p := BoundaryPoint(ix, s, e, BoundaryOf(outcode), box);
        if moveStart {
          SegmentRejectedOutside(tol, ix, box, p, e, fuel - 1);
        } else {
          SegmentRejectedOutside(tol, ix, box, s, p, fuel - 1);
        }
      }
  }

  /**
   * An endpoint the loop moved lies on a side line of the box, and with no
   * refinement step neither endpoint moved.
   */
  lemma {:induction false} SegmentOutcomeOnSides(tol: Tolerance, ix: Intersections, box: Box, s: Point, e: Point, fuel: nat)
    decreases fuel
    ensures var r := SegmentOutcome(tol, ix, box, s, e, fuel);
      && (r.start == s || OnSideLine(r.start, box))
      && (r.end == e || OnSideLine(r.end, box))
      && (r.steps == 0 ==> r.start == s && r.end == e)
  {
    match ClipTest(CodeOf(tol, s, box), CodeOf(tol, e, box))
    case Accept =>
    case Reject =>
    case Refine(moveStart, outcode) =>
      if fuel > 0 {
        RefineHasSide(tol, s, e, box);
        var p := BoundaryPoint(ix, s, e, BoundaryOf(outcode), box);
        if moveStart {
          SegmentOutcomeOnSides(tol, ix, box, p, e, fuel - 1);
        } else {
          SegmentOutcomeOnSides(tol, ix, box, s, p, fuel - 1);
        }
      }
  }

  /**
   * The loop's first tests: segments that are accepted or rejected at once
   * keep both endpoints and take no step.
   */
  lemma SegmentDecidedAtOnce(tol: Tolerance, ix: Intersections, box: Box, s: Point, e: Point, fuel: nat)
    ensures ClipTest(CodeOf(tol, s, box), CodeOf(tol, e, box)) == Accept ==>
      SegmentOutcome(tol, ix, box, s, e, fuel) == SegmentResult(true, false, 0, s, e)
    ensures ClipTest(CodeOf(tol, s, box), CodeOf(tol, e, box)) == Reject ==>
      SegmentOutcome(tol, ix, box, s, e, fuel) == SegmentResult(false, false, 0, s, e)
  {
  }

  /** Same verdict and endpoints (the step count aside). */
  predicate SameEnd(r: SegmentResult, q: SegmentResult)
  {
    r.accepted == q.accepted && r.exhausted == q.exhausted && r.start == q.start && r.end == q.end
  }

  /**
   * The Cohen–Sutherland loop on a finite edge. Each refinement replaces
   * the outside endpoint by its crossing with the first violated side and
   * recomputes its outcode; `fuel` bounds the number of refinements.
   */
  method ClipSegment(edge: VEdge, tol: Tolerance, ix: Intersections, box: Box, fuel: nat)
    returns (accept: bool, ghost exhausted: bool)
    requires edge.start.Some? && edge.end.Some?
    modifies edge
    ensures KeepsLinks(edge)
    ensures var r := SegmentOutcome(tol, ix, box, old(edge.start.value), old(edge.end.value), fuel);
      && accept == r.accepted && exhausted == r.exhausted
      && edge.start == Some(r.start) && edge.end == Some(r.end)
  {
    ghost var goal := SegmentOutcome(tol, ix, box, edge.start.value, edge.end.value, fuel);
    var start := ComputeOutCode(tol, edge.start.value.x, edge.start.value.y, box);
    var end := ComputeOutCode(tol, edge.end.value.x, edge.end.value.y, box);
    var rounds: nat := fuel;
    accept, exhausted := false, false;
    while true
      invariant edge.start.Some? && edge.end.Some?
      invariant start == CodeOf(tol, edge.start.value, box) && end == CodeOf(tol, edge.end.value, box)
      invariant KeepsLinks(edge)
      invariant SameEnd(SegmentOutcome(tol, ix, box, edge.start.value, edge.end.value, rounds), goal)
      invariant !accept && !exhausted
      decreases rounds
    {
      match ClipTest(start, end)
      case Accept =>
        accept := true;
        break;
      case Reject =>
        break;
      case Refine(moveStart, outcode) =>
        if rounds == 0 {
          exhausted := true;
          break;
        }
        rounds := rounds - 1;
        var p := BoundaryPoint(ix, edge.start.value, edge.end.value, BoundaryOf(outcode), box);
        if moveStart {
          edge.start := Some(p);
          start := ComputeOutCode(tol, p.x, p.y, box);
        } else {
          edge.end := Some(p);
          end := ComputeOutCode(tol, p.x, p.y, box);
        }
    }
  }

  /** The fields of one half-edge that its own clipping reads. */
  datatype HalfState = HalfState(
    start: Point, end: Option<Point>, rise: real, run: real, slope: Option<real>, intercept: Option<real>)

  /** The current `HalfState` of an edge that has a start. */
  ghost function Snapshot(e: VEdge): HalfState
    reads e
    requires e.start.Some?
  {
    HalfState(e.start.value, e.end, e.slopeRise, e.slopeRun, e.slope, e.intercept)
  }

  /** The verdict and endpoints one half gets on its own, before any stitching. */
  datatype HalfResult = HalfResult(accepted: bool, start: Point, end: Option<Point>)

  /**
   * One half clipped on its own: a ray (no end) by `ClipRay`, a segment by
   * the Cohen–Sutherland loop. A rejected ray keeps its start and has no end.
   */
  function HalfOutcome(tol: Tolerance, ix: Intersections, box: Box, fuel: nat, h: HalfState): (r: HalfResult)
    ensures r.accepted ==> r.end.Some?
    ensures h.end.None? ==> (r.accepted <==> RayOutcome(tol, ix, box, h.start, h.rise, h.run, h.slope, h.intercept).Clipped?)
    ensures h.end.None? && !r.accepted ==> r.start == h.start && r.end == None
    ensures h.end.Some? ==> r.end.Some? && (r.accepted ==> CodeOf(tol, r.start, box) == 0 && CodeOf(tol, r.end.value, box) == 0)
  {
    if h.end.None? then
      match RayOutcome(tol, ix, box, h.start, h.rise, h.run, h.slope, h.intercept)
      case Clipped(s, e) => HalfResult(true, s, Some(e))
      case Rejected => HalfResult(false, h.start, None)
    else
      var r := SegmentOutcome(tol, ix, box, h.start, h.end.value, fuel);
      SegmentAcceptedInside(tol, ix, box, h.start, h.end.value, fuel);
      HalfResult(r.accepted, r.start, Some(r.end))
  }

  /** An edge survives when its own half does or, recursively, its neighbor does. */
  function ChainVerdict(tol: Tolerance, ix: Intersections, box: Box, fuel: nat, states: seq<HalfState>): (v: bool)
    requires 0 < |states|
    decreases |states|
    ensures HalfOutcome(tol, ix, box, fuel, states[0]).accepted ==> v
    ensures |states| == 1 ==> (v <==> HalfOutcome(tol, ix, box, fuel, states[0]).accepted)
  {
    HalfOutcome(tol, ix, box, fuel, states[0]).accepted
    || (1 < |states| && ChainVerdict(tol, ix, box, fuel, states[1..]))
  }

  /**
   * The endpoints an edge is left with once its neighbor chain is clipped:
   * when the rest of the chain survives, the edge starts where its
   * neighbor (clipped and stitched in turn) ends, and a rejected half takes
   * the neighbor's start as its end; otherwise it keeps its own outcome.
   */
  function Stitched(tol: Tolerance, ix: Intersections, box: Box, fuel: nat, states: seq<HalfState>)
    : (r: (Option<Point>, Option<Point>))
    requires 0 < |states|
    decreases |states|
    ensures ChainVerdict(tol, ix, box, fuel, states) ==> r.0.Some? && r.1.Some?
    ensures 1 < |states| && ChainVerdict(tol, ix, box, fuel, states[1..]) ==>
      r.0 == Stitched(tol, ix, box, fuel, states[1..]).1
  {
    var h := HalfOutcome(tol, ix, box, fuel, states[0]);
    if 1 < |states| && ChainVerdict(tol, ix, box, fuel, states[1..]) then
      var n := Stitched(tol, ix, box, fuel, states[1..]);
      (n.1, if h.accepted then h.end else n.0)
    else
      (Some(h.start), h.end)
  }

  /**
   * `chain` lists `edge`, its neighbor, that neighbor's neighbor and so on,
   * ending in an edge with no neighbor: the neighbor links are acyclic.
   */
  ghost predicate NeighborChain(edge: VEdge, chain: seq<VEdge>)
    reads set e | e in chain
  {
    && 0 < |chain| && chain[0] == edge
    && (forall i :: 0 <= i < |chain| - 1 ==> chain[i].neighbor == chain[i + 1])
    && chain[|chain| - 1].neighbor == null
    && (forall i, j :: 0 <= i < j < |chain| ==> chain[i] != chain[j])
  }

  /** The current endpoints of every edge of `chain`, in order. */
  ghost function EndsOf(chain: seq<VEdge>): (r: seq<(Option<Point>, Option<Point>)>)
    reads set e | e in chain
    ensures |r| == |chain|
  {
    if chain == [] then [] else [(chain[0].start, chain[0].end)] + EndsOf(chain[1..])
  }

  /** Position `i` of `EndsOf(chain)` holds the endpoints of `chain[i]`. */
  lemma {:induction false} EndsOfAt(chain: seq<VEdge>)
    decreases |chain|
    ensures forall i :: 0 <= i < |chain| ==> EndsOf(chain)[i] == (chain[i].start, chain[i].end)
  {
    if chain != [] {
      EndsOfAt(chain[1..]);
      assert forall i :: 1 <= i < |chain| ==> chain[1..][i - 1] == chain[i];
    }
  }

  /** `ends[i]` is what `Stitched` gives the snapshots from `states[i]` on, for every `i`. */
  ghost predicate AllStitched(tol: Tolerance, ix: Intersections, box: Box, fuel: nat, ends: seq<(Option<Point>, Option<Point>)>, states: seq<HalfState>)
    requires |ends| == |states|
    decreases |ends|
  {
    0 < |ends| ==>
      && ends[0] == Stitched(tol, ix, box, fuel, states)
      && AllStitched(tol, ix, box, fuel, ends[1..], states[1..])
  }

  /** `AllStitched` says exactly that each position holds `Stitched` of the snapshots from there on. */
  lemma {:induction false} AllStitchedAt(
    tol: Tolerance, ix: Intersections, box: Box, fuel: nat, ends: seq<(Option<Point>, Option<Point>)>, states: seq<HalfState>)
    requires |ends| == |states|
    decreases |ends|
    ensures AllStitched(tol, ix, box, fuel, ends, states) <==>
      forall i :: 0 <= i < |ends| ==> ends[i] == Stitched(tol, ix, box, fuel, states[i..])
  {
    if 0 < |ends| {
      AllStitchedAt(tol, ix, box, fuel, ends[1..], states[1..]);
      forall i | 1 <= i < |ends|
        ensures ends[1..][i - 1] == ends[i] && states[1..][i - 1..] == states[i..]
      {
      }
      assert states[0..] == states;
    }
  }

  /**
   * The first part of `ClipEdge`: a ray goes to `ClipRay`, a segment to the
   * Cohen–Sutherland loop. The outcome is `HalfOutcome` of the entry state.
   */
  method ClipHalf(edge: VEdge, tol: Tolerance, ix: Intersections, box: Box, fuel: nat) returns (accept: bool)
    requires edge.start.Some?
    modifies edge
    ensures KeepsLinks(edge) && edge.start.Some?
    ensures var h := HalfOutcome(tol, ix, box, fuel, old(Snapshot(edge)));
      accept == h.accepted && edge.start == Some(h.start) && edge.end == h.end
  {
    if edge.end.None? {
      accept := ClipRay(edge, tol, ix, box);
    } else {
      ghost var exhausted;
      accept, exhausted := ClipSegment(edge, tol, ix, box, fuel);
    }
  }

  /**
   * The last part of `ClipEdge`: once the neighbor has been clipped, a
   * valid neighbor gives this edge its end as the start and, when this
   * half was rejected, its start as the end, and the edge is kept.
   */
  method Stitch(edge: VEdge, own: bool, valid: bool) returns (accept: bool)
    requires edge.neighbor != null && edge.neighbor != edge
    modifies edge
    ensures KeepsLinks(edge)
    ensures accept == (own || valid)
    ensures edge.start == (if valid then edge.neighbor.end else old(edge.start))
    ensures edge.end == (if valid && !own then edge.neighbor.start else old(edge.end))
  {
    accept := own;
    if accept && valid {
      edge.start := edge.neighbor.end;
    }
    if !accept && valid {
      edge.start := edge.neighbor.end;
      edge.end := edge.neighbor.start;
      accept := true;
    }
  }

  /**
   * Clips an edge, then its neighbor half. `own` is this half's verdict
   * and `neighborValid` the neighbor's, both determined by the halves'
   * states on entry (`states`). When the neighbor survives, this edge
   * starts at the neighbor's end; when only the neighbor survives, this
   * edge becomes the neighbor reversed and is kept; otherwise it keeps
   * what its own clipping left.
   */
  method ClipEdge(
    edge: VEdge, tol: Tolerance, ix: Intersections, box: Box, fuel: nat,
    ghost chain: seq<VEdge>, ghost states: seq<HalfState>)
    returns (accept: bool, ghost own: bool, ghost neighborValid: bool)
    requires NeighborChain(edge, chain)
    requires forall e <- chain :: e.start.Some?
    requires |states| == |chain| && forall i :: 0 <= i < |chain| ==> Snapshot(chain[i]) == states[i]
    modifies set e | e in chain
    decreases |chain|
    ensures forall e <- chain :: KeepsLinks(e) && e.start.Some?
    ensures own == HalfOutcome(tol, ix, box, fuel, states[0]).accepted
    ensures neighborValid == (1 < |chain| && ChainVerdict(tol, ix, box, fuel, states[1..]))
    ensures accept == (own || neighborValid) == ChainVerdict(tol, ix, box, fuel, states)
    ensures accept ==> edge.start.Some? && edge.end.Some?
    ensures !neighborValid ==>
      var h := HalfOutcome(tol, ix, box, fuel, states[0]);
      edge.start == Some(h.start) && edge.end == h.end
    ensures neighborValid ==> edge.neighbor != null && edge.start == edge.neighbor.end && edge.start.Some?
    ensures neighborValid && own ==> edge.end == HalfOutcome(tol, ix, box, fuel, states[0]).end
    ensures neighborValid && !own ==> edge.end == edge.neighbor.start
    ensures (edge.start, edge.end) == Stitched(tol, ix, box, fuel, states)
    ensures AllStitched(tol, ix, box, fuel, EndsOf(chain), states)
  {
    accept := ClipHalf(edge, tol, ix, box, fuel);
    own := accept;
    neighborValid := false;
    if edge.neighbor != null {
      assert forall j :: 1 <= j < |chain| ==> chain[j] != edge;
      var valid, neighborOwn, neighborsNeighbor :=
        ClipEdge(edge.neighbor, tol, ix, box, fuel, chain[1..], states[1..]);
      ghost var rest := EndsOf(chain[1..]);
      neighborValid := valid;
      accept := Stitch(edge, accept, valid);
      assert edge !in chain[1..];
      assert EndsOf(chain[1..]) == rest;
      forall e | e in chain
        ensures KeepsLinks(e) && e.start.Some?
      {
        if e != edge {
          assert e in chain[1..];
        }
      }
    }
  }
}
