/**
 * Sweep events (`FortuneSiteEvent`, `FortuneCircleEvent`) and the order in
 * which the event queue releases them: ascending y, ties by ascending x.
 */
module Events {
  import opened Wrappers
  import opened Geometry

  /**
   * Handle of the beach-line node a circle event would remove
   * (`RBTreeNode<BeachSection>`); the beach line is not part of this model.
   */
  datatype ArcRef = ArcRef(id: nat)

  /** The value of a live event object, as the event queue holds it. */
  datatype FortuneEvent =
    | SiteEvent(site: Site)
    | CircleEvent(lowest: Point, yCenter: real, toDelete: ArcRef)
  {
    /** The x of the ordering key: the site, or the circle's lowest point. */
    function X(): real
    {
      match this
      case SiteEvent(s) => s.x
      case CircleEvent(l, _, _) => l.x
    }

    /** The y of the ordering key: the site, or the circle's lowest point. */
    function Y(): real
    {
      match this
      case SiteEvent(s) => s.y
      case CircleEvent(l, _, _) => l.y
    }
  }

  /** `double.CompareTo` on non-NaN values: -1, 0 or 1. */
  function CompareReals(a: real, b: real): (c: int)
    ensures c == -1 || c == 0 || c == 1
    ensures c < 0 <==> a < b
    ensures c == 0 <==> a == b
    ensures c > 0 <==> a > b
  {
    if a < b then -1 else if a > b then 1 else 0
  }

  /** Strict lexicographic order on (y, x) keys, stated independently of CompareTo. */
  predicate LexLess(a: FortuneEvent, b: FortuneEvent)
  {
    a.Y() < b.Y() || (a.Y() == b.Y() && a.X() < b.X())
  }

  /**
   * `CompareTo` of both event classes: compare y, and on a tie compare x.
   * Both classes use the same rule, so one function models both.
   */
  function CompareTo(a: FortuneEvent, b: FortuneEvent): (c: int)
    ensures c == -1 || c == 0 || c == 1
    ensures c < 0 <==> LexLess(a, b)
    ensures c > 0 <==> LexLess(b, a)
    ensures c == 0 <==> a.Y() == b.Y() && a.X() == b.X()
  {
    var c := CompareReals(a.Y(), b.Y());
    if c == 0 then CompareReals(a.X(), b.X()) else c
  }

  /** The heap's `LeftLessThanRight` test on two event values. */
  predicate Less(a: FortuneEvent, b: FortuneEvent)
  {
    CompareTo(a, b) < 0
  }

  /** Different y values decide the comparison alone. */
  lemma CompareToByY(a: FortuneEvent, b: FortuneEvent)
    requires a.Y() != b.Y()
    ensures CompareTo(a, b) == CompareReals(a.Y(), b.Y())
    ensures a.Y() < b.Y() ==> CompareTo(a, b) < 0
    ensures a.Y() > b.Y() ==> CompareTo(a, b) > 0
  {
  }

  /** On equal y the comparison is the comparison of x. */
  lemma CompareToTieOnX(a: FortuneEvent, b: FortuneEvent)
    requires a.Y() == b.Y()
    ensures CompareTo(a, b) == CompareReals(a.X(), b.X())
  {
  }

  /** Every event compares equal to itself. */
  lemma CompareToReflexive(a: FortuneEvent)
    ensures CompareTo(a, a) == 0
    ensures !Less(a, a)
  {
  }

  /** Swapping the arguments negates the result. */
  lemma CompareToAntisymmetric(a: FortuneEvent, b: FortuneEvent)
    ensures CompareTo(a, b) == -CompareTo(b, a)
    ensures Less(a, b) ==> !Less(b, a)
  {
  }

  /** `Less` is transitive, and so is its complement "not less". */
  lemma LessTransitive(a: FortuneEvent, b: FortuneEvent, c: FortuneEvent)
    ensures Less(a, b) && Less(b, c) ==> Less(a, c)
    ensures !Less(b, a) && !Less(c, b) ==> !Less(c, a)
  {
  }

  /** "Not less" is total: of two events one is never less than the other. */
  lemma NotLessTotal(a: FortuneEvent, b: FortuneEvent)
    ensures !Less(a, b) || !Less(b, a)
  {
  }

  /** A site event is keyed by its site's coordinates. */
  lemma SiteEventKey(s: Site)
    ensures SiteEvent(s).X() == s.x && SiteEvent(s).Y() == s.y
  {
  }

  /**
   * A circle event is keyed by its lowest point: neither the circle's
   * centre y nor the arc it removes takes part in the comparison.
   */
  lemma CircleEventKeyIsLowest(
    lowest: Point, yCenter1: real, yCenter2: real, arc1: ArcRef, arc2: ArcRef, other: FortuneEvent)
    ensures CircleEvent(lowest, yCenter1, arc1).X() == lowest.x
    ensures CircleEvent(lowest, yCenter1, arc1).Y() == lowest.y
    ensures CompareTo(CircleEvent(lowest, yCenter1, arc1), other)
         == CompareTo(CircleEvent(lowest, yCenter2, arc2), other)
  {
  }

  /** A site event and a circle event at the same point are tied. */
  lemma SiteAndCircleAtSamePointTie(s: Site, yCenter: real, arc: ArcRef)
    ensures CompareTo(SiteEvent(s), CircleEvent(Point(s.x, s.y), yCenter, arc)) == 0
  {
  }

  /** A pooled site-event object; `site` is `None` once recycled. */
  class FortuneSiteEvent {
    var site: Option<Site>

    /** A fresh object from the pool, not yet initialised. */
    constructor ()
      ensures site == None
    {
      site := None;
    }

    method Init(site: Site)
      modifies this
      ensures this.site == Some(site)
    {
      this.site := Some(site);
    }

    method Recycle()
      modifies this
      ensures site == None
    {
      site := None;
    }

    /** The event value of a live object, as the queue orders it. */
    function Event(): (e: FortuneEvent)
      reads this
      requires site.Some?
      ensures e.SiteEvent? && e.site == site.value
    {
      SiteEvent(site.value)
    }

    /** The `X` getter: the site's x. */
    function X(): (x: real)
      reads this
      requires site.Some?
      ensures x == site.value.x
    {
      Event().X()
    }

    /** The `Y` getter: the site's y. */
    function Y(): (y: real)
      reads this
      requires site.Some?
      ensures y == site.value.y
    {
      Event().Y()
    }
  }

  /** A pooled circle-event object; `lowest` and `toDelete` are `None` once recycled. */
  class FortuneCircleEvent {
    var lowest: Option<Point>
    var yCenter: real
    var toDelete: Option<ArcRef>

    /** A fresh object from the pool, not yet initialised. */
    constructor ()
      ensures lowest == None && yCenter == 0.0 && toDelete == None
    {
      lowest, yCenter, toDelete := None, 0.0, None;
    }

    method Init(lowest: Point, yCenter: real, toDelete: ArcRef)
      modifies this
      ensures this.lowest == Some(lowest)
      ensures this.yCenter == yCenter
      ensures this.toDelete == Some(toDelete)
    {
      this.lowest := Some(lowest);
      this.yCenter := yCenter;
      this.toDelete := Some(toDelete);
    }

    /** Drops the references but keeps the stale `yCenter`. */
    method Recycle()
      modifies this
      ensures lowest == None && toDelete == None
      ensures yCenter == old(yCenter)
    {
      lowest := None;
      toDelete := None;
    }

    /** The event value of a live object, as the queue orders it. */
    function Event(): (e: FortuneEvent)
      reads this
      requires lowest.Some? && toDelete.Some?
      ensures e.CircleEvent? && e.lowest == lowest.value
      ensures e.yCenter == yCenter && e.toDelete == toDelete.value
    {
      CircleEvent(lowest.value, yCenter, toDelete.value)
    }

    /** The `X` getter: the lowest point's x, not the centre. */
    function X(): (x: real)
      reads this
      requires lowest.Some?
      ensures x == lowest.value.x
      ensures toDelete.Some? ==> x == Event().X()
    {
      lowest.value.x
    }

    /** The `Y` getter: the lowest point's y, not `yCenter`. */
    function Y(): (y: real)
      reads this
      requires lowest.Some?
      ensures y == lowest.value.y
      ensures toDelete.Some? ==> y == Event().Y()
    {
      lowest.value.y
    }
  }
}
