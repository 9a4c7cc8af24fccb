/** A bisector half-edge (`VEdge`) and the direction data it caches. */
module Edges {
  import opened Wrappers
  import opened Geometry

  class VEdge {
    var start: Option<Point>
    var end: Option<Point>
    var left: Option<Site>
    var right: Option<Site>
    var slopeRise: real
    var slopeRun: real
    var slope: Option<real>
    var intercept: Option<real>
    var neighbor: VEdge?

    /** A fresh object from the pool: every reference null, every number zero. */
    constructor ()
      ensures start == None && end == None && left == None && right == None
      ensures slopeRise == 0.0 && slopeRun == 0.0 && slope == None && intercept == None
      ensures neighbor == null
    {
      start, end, left, right := None, None, None, None;
      slopeRise, slopeRun, slope, intercept := 0.0, 0.0, None, None;
      neighbor := null;
    }

    /**
     * Drops every reference before the object goes back to the pool; the
     * cached direction, slope and intercept stay behind.
     */
    method Recycle()
      modifies this
      ensures start == None && end == None && neighbor == null && left == None && right == None
      ensures slopeRise == old(slopeRise) && slopeRun == old(slopeRun)
      ensures slope == old(slope) && intercept == old(intercept)
    {
      start := None;
      end := None;
      neighbor := null;
      left := None;
      right := None;
    }

    /**
     * Starts the edge at `start` between `left` and `right`. A bounding-box
     * edge (a missing site) keeps whatever direction the object held before.
     * Otherwise the direction is the perpendicular of `left - right`, and
     * slope and intercept are cached unless the line is axis-aligned (up to
     * tolerance), in which case the intercept is cleared and the slope left
     * as it was.
     */
    method Init(start: Point, left: Option<Site>, right: Option<Site>, tol: Tolerance)
      requires tol.approxEqual(0.0, 0.0)
      modifies this
      ensures this.start == Some(start) && this.left == left && this.right == right
      ensures end == old(end) && neighbor == old(neighbor)
      ensures left.None? || right.None? ==>
        && slopeRise == old(slopeRise) && slopeRun == old(slopeRun)
        && slope == old(slope) && intercept == old(intercept)
      ensures left.Some? && right.Some? ==>
        && slopeRise == left.value.x - right.value.x
        && slopeRun == right.value.y - left.value.y
        && slopeRun * (left.value.x - right.value.x) + slopeRise * (left.value.y - right.value.y) == 0.0
      ensures left.Some? && right.Some? && (tol.approxEqual(slopeRise, 0.0) || tol.approxEqual(slopeRun, 0.0)) ==>
        intercept == None && slope == old(slope)
      ensures left.Some? && right.Some? && !tol.approxEqual(slopeRise, 0.0) && !tol.approxEqual(slopeRun, 0.0) ==>
        && slopeRun != 0.0
        && slope == Some(slopeRise / slopeRun)
        && intercept.Some?
        && start.y == slope.value * start.x + intercept.value
    {
      this.start := Some(start);
      this.left := left;
      this.right := right;

      if left.None? || right.None? {
        return;
      }

      slopeRise := left.value.x - right.value.x;
      slopeRun := -(left.value.y - right.value.y);
      intercept := None;

      if tol.approxEqual(slopeRise, 0.0) || tol.approxEqual(slopeRun, 0.0) {
        return;
      }
      var m := slopeRise / slopeRun;
      slope := Some(m);
      intercept := Some(start.y - m * start.x);
    }
  }
}
