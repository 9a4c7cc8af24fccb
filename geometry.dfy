/**
 * Plain records of the diagram: points, sites, and the tolerance
 * comparisons every geometric test goes through.
 */
module Geometry {

  /** An immutable (x, y) point (`VPoint`); coordinates are exact reals. */
  datatype Point = Point(x: real, y: real)

  /** An input site (`FortuneSite`): its coordinates and the caller's tag. */
  datatype Site = Site(x: real, y: real, tag: int)

  /**
   * The tolerance comparisons `ApproxEqual`, `ApproxGreaterThanOrEqualTo`
   * and `ApproxLessThanOrEqualTo`. Their definitions are not part of this
   * model, so they are carried as uninterpreted relations.
   */
  datatype Tolerance = Tolerance(
    approxEqual: (real, real) -> bool,
    approxGe: (real, real) -> bool,
    approxLe: (real, real) -> bool)

  /**
   * A tolerance is sound when each approximate relation accepts at least
   * what the exact relation accepts. Lemmas that need to know anything
   * about the tolerance assume exactly this.
   */
  ghost predicate Sound(tol: Tolerance)
  {
    && (forall a: real :: tol.approxEqual(a, a))
    && (forall a: real, b: real :: a >= b ==> tol.approxGe(a, b))
    && (forall a: real, b: real :: a <= b ==> tol.approxLe(a, b))
  }
}
