# VoronoiLib core in Dafny

VoronoiLib computes a Voronoi diagram with Fortune's sweep. Site events and
circle events wait in a binary min-heap. The sweep pops them in (y, x)
order. At the end, every edge is clipped to the caller's bounding box.

This project models the parts of that pipeline that decide things:

- the event queue `MinHeap` (`Heap.MinHeap`): a class over a fixed-capacity
  array of slots and a `count`. Every method keeps the heap order of the live
  prefix. Each method's contract also states the multiset it leaves.
- the event order (`Events`): site and circle events compare their
  `(Y, X)` keys lexicographically. It also has the pooled event objects with
  their `Init`/`Recycle`.
- the edge object `VEdge` (`Edges`): `Init` derives the bisector
  direction and slope/intercept cache. `Recycle` drops the links.
- the boundary clipper (`Clipping`):
  - the Cohen–Sutherland outcode;
  - `Within`;
  - the accept/reject/refine decision of the clip loop;
  - the axis-aligned ray cases;
  - the choice between sloped-ray candidates;
  - the stitching of an edge with its neighbor half.

Modelling choices:

- Coordinates are `real`.
- C# `null` is `Option.None`. A fresh or cleared heap slot is `None`.
- The tolerance helpers `ApproxEqual`, `ApproxGreaterThanOrEqualTo` and
  `ApproxLessThanOrEqualTo` are three uninterpreted predicates in a
  `Tolerance` value.
  - Results that need them to extend the exact relations assume
    `Sound(tol)`. That predicate says `approxEqual` is reflexive and
    `approxGe`/`approxLe` hold whenever `>=`/`<=` do.
- The crossing coordinates come from an `Intersections` parameter:
  - the Cohen–Sutherland step's division;
  - the four `CalcX`/`CalcY` crossings of a sloped ray and their
    filters.

  The clipper reasons only about what it does with those values.
- The parent of slot `i` is `Parent(i)`: `(i - 1) / 2` with C#'s truncating
  division, so slot 0 is its own parent. This matters in `Remove` at
  index 0, which compares the slot with itself.

As written, `ComputeOutCode` drops the y bits when `x`, not `y`, is
approximately `maxY`. The model keeps this.
`Clipping.OutCodeAboveBoxAsWritten` exhibits one effect: in the box
`[0,10]²` the point `(10, 20)` gets outcode 0, as if it were inside.

## Model

| member | source | states |
|---|---|---|
| Events.CompareReals | VoronoiLib/Structures/FortuneSiteEvent.cs:21 | `double.CompareTo` on reals: -1, 0 or 1, negative exactly when less, zero exactly when equal |
| Events.CompareTo | VoronoiLib/Structures/FortuneSiteEvent.cs:19-23 | result in {-1, 0, 1}; negative exactly when `a` is lexicographically before `b` by (Y, X); positive exactly when after; zero exactly when both keys are equal |
| Events.CompareToByY | VoronoiLib/Structures/FortuneSiteEvent.cs:21 | when the Y values differ, the sign is decided by Y alone |
| Events.CompareToTieOnX | VoronoiLib/Structures/FortuneSiteEvent.cs:21-22 | on equal Y, the result is the comparison of X |
| Events.CompareToReflexive | VoronoiLib/Structures/FortuneSiteEvent.cs:19-23 | every event compares 0 to itself and is not less than itself |
| Events.CompareToAntisymmetric | VoronoiLib/Structures/FortuneCircleEvent.cs:22-26 | `a.CompareTo(b) == -b.CompareTo(a)`, for site and circle events alike |
| Events.LessTransitive | VoronoiLib/Structures/FortuneCircleEvent.cs:22-26 | "less" and "not less" are both transitive, so the order is a total preorder the heap can rely on |
| Events.NotLessTotal | VoronoiLib/Structures/FortuneSiteEvent.cs:19-23 | of two events, at least one is not less than the other |
| Events.SiteEventKey | VoronoiLib/Structures/FortuneSiteEvent.cs:5-6 | a site event's key is its site's (x, y) |
| Events.CircleEventKeyIsLowest | VoronoiLib/Structures/FortuneCircleEvent.cs:28-29 | a circle event's key is `Lowest`; neither `YCenter` nor `ToDelete` changes any comparison |
| Events.SiteAndCircleAtSamePointTie | VoronoiLib/Structures/FortuneCircleEvent.cs:22-29 | a site event and a circle event whose lowest point is that site compare 0 |
| Events.FortuneSiteEvent.constructor | VoronoiLib/Structures/FortuneSiteEvent.cs:7 | a pooled object starts with no site |
| Events.FortuneSiteEvent.Init | VoronoiLib/Structures/FortuneSiteEvent.cs:14-17 | stores the site |
| Events.FortuneSiteEvent.Recycle | VoronoiLib/Structures/FortuneSiteEvent.cs:9-13 | clears the site |
| Events.FortuneSiteEvent.Event | VoronoiLib/Structures/FortuneSiteEvent.cs:3-7 | a live object is the site event of its site |
| Events.FortuneSiteEvent.X | VoronoiLib/Structures/FortuneSiteEvent.cs:5 | the getter is the site's x |
| Events.FortuneSiteEvent.Y | VoronoiLib/Structures/FortuneSiteEvent.cs:6 | the getter is the site's y |
| Events.FortuneCircleEvent.constructor | VoronoiLib/Structures/FortuneCircleEvent.cs:5-7 | a pooled object starts with null `Lowest` and `ToDelete` |
| Events.FortuneCircleEvent.Init | VoronoiLib/Structures/FortuneCircleEvent.cs:15-20 | stores `Lowest`, `YCenter` and `ToDelete` unchanged |
| Events.FortuneCircleEvent.Recycle | VoronoiLib/Structures/FortuneCircleEvent.cs:9-13 | nulls `Lowest` and `ToDelete` and leaves `YCenter` as it was |
| Events.FortuneCircleEvent.Event | VoronoiLib/Structures/FortuneCircleEvent.cs:5-7 | a live object is the circle event of its three fields |
| Events.FortuneCircleEvent.X | VoronoiLib/Structures/FortuneCircleEvent.cs:28 | the getter is `Lowest.X`, and for a live object it is the x of the key `Event()` that the queue compares |
| Events.FortuneCircleEvent.Y | VoronoiLib/Structures/FortuneCircleEvent.cs:29 | the getter is `Lowest.Y`, not `YCenter`, and for a live object it is the y of the key `Event()` that the queue compares |
| Heap.Parent | VoronoiLib/Structures/MinHeap.cs:83 | `(i - 1) / 2` truncating: 0 for slot 0; otherwise a smaller slot whose child slot `i` is |
| Heap.RootIsMinimum | VoronoiLib/Structures/MinHeap.cs:90-123 | in a heap-ordered prefix no live event is less than slot 0 (by induction up the parent chain) |
| Heap.RootIsMinimumOfPrefix | VoronoiLib/Structures/MinHeap.cs:57-61 | slot 0 of a non-empty heap-ordered prefix is a minimum of it |
| Heap.SwapKeepsMultiset | VoronoiLib/Structures/MinHeap.cs:131-136 | swapping two live slots keeps the live multiset |
| Heap.SwapKeepsTail | VoronoiLib/Structures/MinHeap.cs:131-136 | swapping two live slots leaves the slots past `Count` alone |
| Heap.UpStep | VoronoiLib/Structures/MinHeap.cs:115-121 | one swap with the parent moves the hole one level up |
| Heap.UpHoleDone | VoronoiLib/Structures/MinHeap.cs:113-118 | the loop's two exits leave a heap-ordered prefix |
| Heap.DownStep | VoronoiLib/Structures/MinHeap.cs:94-105 | one swap with the smaller child moves the hole one level down |
| Heap.DownHoleDone | VoronoiLib/Structures/MinHeap.cs:102-103 | when no child is less, the prefix is heap-ordered |
| Heap.PopHole | VoronoiLib/Structures/MinHeap.cs:50-53 | moving the last live event to the root leaves a hole at the root |
| Heap.RemoveSwap | VoronoiLib/Structures/MinHeap.cs:81-82 | after `Count--` and the swap, the live multiset is the old one minus the removed event |
| Heap.RemoveKeepsRest | VoronoiLib/Structures/MinHeap.cs:81-82 | the swap keeps every other live event |
| Heap.RemoveUpHole | VoronoiLib/Structures/MinHeap.cs:83-84 | when the moved event is less than its parent, the prefix has a hole there for percolating up |
| Heap.RemoveDownHole | VoronoiLib/Structures/MinHeap.cs:83-86 | otherwise it has a hole there for percolating down |
| Heap.MinHeap.constructor | VoronoiLib/Structures/MinHeap.cs:8-10 | an object with null `Items`, capacity 0 and no events |
| Heap.MinHeap.Init | VoronoiLib/Structures/MinHeap.cs:12-23 | capacity clamped to at least 2; reallocates (all null) only when larger than the current capacity, so capacity never shrinks; `Count == 0` |
| Heap.MinHeap.Clear | VoronoiLib/Structures/MinHeap.cs:24-28 | every slot nulled and `Count == 0`, capacity and array kept |
| Heap.MinHeap.Insert | VoronoiLib/Structures/MinHeap.cs:30-38 | fails and changes nothing exactly when full; otherwise `Count` grows by one, the live multiset gains exactly `obj`, and heap order holds |
| Heap.MinHeap.Pop | VoronoiLib/Structures/MinHeap.cs:40-55 | on an empty heap, the exception (`None`) and nothing changes; otherwise a minimum of the old live events, one fewer event, the multiset minus that one, heap order kept (also the `Count == 1` shortcut) |
| Heap.MinHeap.Peek | VoronoiLib/Structures/MinHeap.cs:57-62 | the exception exactly when empty; otherwise a minimum of the live events; changes nothing |
| Heap.MinHeap.Remove | VoronoiLib/Structures/MinHeap.cs:66-88 | succeeds exactly when a live slot equals the item; failure changes nothing; success removes exactly one occurrence and keeps heap order |
| Heap.MinHeap.IndexOf | VoronoiLib/Structures/MinHeap.cs:68-76 | -1 exactly when no live slot holds the item; otherwise the first live slot that does |
| Heap.MinHeap.PercolateDown | VoronoiLib/Structures/MinHeap.cs:90-107 | from a down hole, restores heap order, permuting only the live prefix |
| Heap.MinHeap.PercolateUp | VoronoiLib/Structures/MinHeap.cs:109-123 | from an up hole, restores heap order, permuting only the live prefix |
| Heap.MinHeap.LeftLessThanRight | VoronoiLib/Structures/MinHeap.cs:126-129 | true exactly when the left slot's event is lexicographically before the right's |
| Heap.MinHeap.Swap | VoronoiLib/Structures/MinHeap.cs:131-136 | the array afterwards is the old one with the two slots exchanged |
| Edges.VEdge.constructor | VoronoiLib/Structures/VEdge.cs:5-14 | a pooled edge with every reference null |
| Edges.VEdge.Recycle | VoronoiLib/Structures/VEdge.cs:16-25 | nulls `Start`, `End`, `Neighbor`, `Left` and `Right`; the slope fields are left stale |
| Edges.VEdge.Init | VoronoiLib/Structures/VEdge.cs:27-46 | stores start and sites; never touches `End` or `Neighbor`; with a null site, keeps the stale slopes; otherwise the direction is perpendicular to `left - right`, `Intercept` is null on an axis-aligned direction with `Slope` kept, and else `Slope = rise/run` and the line passes through `Start` |
| Clipping.ComputeOutCode | VoronoiLib/FortunesAlgorithm.cs:139-154 | a code below 16 from bits 1, 2, 4, 8 only; never left and right, never bottom and top; no x bits near `minX`/`maxX`; no y bits near `minY` or (as written) when `x` is near `maxY`; each bit only beyond its side; 0 inside the box |
| Clipping.OutCodeExact | VoronoiLib/FortunesAlgorithm.cs:142-152 | away from the tolerance bands, each bit is set exactly when the point is beyond that side |
| Clipping.OutCodeAboveBoxAsWritten | VoronoiLib/FortunesAlgorithm.cs:148 | with the as-written x-against-`maxY` test, a point above a square box on its right side's line gets code 0 |
| Clipping.Within | VoronoiLib/FortunesAlgorithm.cs:265-268 | approximately at least `a` and approximately at most `b`; with a sound tolerance it holds whenever `a <= x <= b` |
| Clipping.ClipTest | VoronoiLib/FortunesAlgorithm.cs:79-88 | accept exactly when both codes are 0; reject exactly when they share a bit; otherwise refine the start if it is outside, else the end |
| Clipping.BoundaryOf | VoronoiLib/FortunesAlgorithm.cs:90-109 | the side to clip against: top, then bottom, right, left, by the code's bits; none for a code without them |
| Clipping.RefineHasSide | VoronoiLib/FortunesAlgorithm.cs:87-109 | a refine step on computed outcodes always has a side, so the (-1, -1) default is never used |
| Clipping.BoundaryPoint | VoronoiLib/FortunesAlgorithm.cs:87-109 | the new endpoint lies on the chosen side's line |
| Clipping.ClipHorizontal | VoronoiLib/FortunesAlgorithm.cs:159-183 | rejected exactly when `start.Y` is not `Within` the y range or the ray points away; otherwise both ends at `start.Y`, the end at `maxX` or `minX` by the run, and the start kept when `start.X` is `Within` |
| Clipping.ClipVertical | VoronoiLib/FortunesAlgorithm.cs:185-209 | the same on y, but the x range test is exact |
| Clipping.RayOutcome | VoronoiLib/FortunesAlgorithm.cs:155-264 | the horizontal case first, then the vertical, else the sloped one: an accepted horizontal ray keeps its y, a vertical one its x, and a sloped one ends on a candidate and starts at its start or on a candidate |
| Clipping.ChooseCandidates | VoronoiLib/FortunesAlgorithm.cs:240-263 | two candidates: nearer is the start, farther is the end, and on equal distances the first candidate stays the start; one: the end, start kept; otherwise rejected |
| Clipping.AxisRayInsideBox | VoronoiLib/FortunesAlgorithm.cs:159-209 | with a sound tolerance and a proper box, an accepted axis-aligned ray has both ends `Within` the box |
| Clipping.ClipRay | VoronoiLib/FortunesAlgorithm.cs:155-264 | the horizontal case first, then the vertical, else the candidate choice; on rejection the start is kept and the end stays null; links and slopes unchanged |
| Clipping.SegmentOutcome | VoronoiLib/FortunesAlgorithm.cs:74-119 | the loop as a recursion on the refinement budget: it takes at most `fuel` steps and runs out only after all of them |
| Clipping.SegmentAcceptedInside | VoronoiLib/FortunesAlgorithm.cs:79-82 | an accepted segment did not run out of steps and ends with both outcodes 0 |
| Clipping.SegmentRejectedOutside | VoronoiLib/FortunesAlgorithm.cs:83-85 | a segment rejected before the budget ran out ends with outcodes sharing a bit |
| Clipping.SegmentOutcomeOnSides | VoronoiLib/FortunesAlgorithm.cs:87-118 | each endpoint the loop moved lies on a side line of the box; with no step neither moved |
| Clipping.SegmentDecidedAtOnce | VoronoiLib/FortunesAlgorithm.cs:79-85 | an immediate accept or reject takes no step and keeps both endpoints |
| Clipping.ClipSegment | VoronoiLib/FortunesAlgorithm.cs:74-119 | verdict, exhaustion and final endpoints are exactly `SegmentOutcome` of the entry endpoints; the links and slopes are kept |
| Clipping.HalfOutcome | VoronoiLib/FortunesAlgorithm.cs:69-120 | a ray is accepted exactly when `RayOutcome` clips it, and a rejected ray keeps its start with no end; a segment keeps an end and is accepted only with both outcodes 0 |
| Clipping.ClipHalf | VoronoiLib/FortunesAlgorithm.cs:67-120 | the half's verdict and endpoints are `HalfOutcome` of its entry state; links kept |
| Clipping.ChainVerdict | VoronoiLib/FortunesAlgorithm.cs:122-137 | an edge survives when its own half is accepted, or its neighbor chain survives |
| Clipping.Stitched | VoronoiLib/FortunesAlgorithm.cs:122-137 | the endpoints after stitching: a surviving rest of the chain makes `Start` the neighbor's stitched `End`; a surviving chain always has both endpoints |
| Clipping.AllStitchedAt | VoronoiLib/FortunesAlgorithm.cs:122-137 | the recursive chain predicate holds exactly when each position holds `Stitched` of the snapshots from that edge on |
| Clipping.Stitch | VoronoiLib/FortunesAlgorithm.cs:122-135 | after the neighbor is clipped: a valid neighbor gives the edge its `End` as `Start` and, for a rejected half, its `Start` as `End`, and the edge is kept; otherwise the edge is unchanged; no link changes |
| Clipping.ClipEdge | VoronoiLib/FortunesAlgorithm.cs:65-138 | `own` is the half's own `HalfOutcome` verdict and `neighborValid` the neighbor's `ChainVerdict`, both on the entry states; the result is their disjunction; without a valid neighbor the edge keeps its own clipped endpoints; a valid neighbor makes `Start` the neighbor's `End`; an accepted own half keeps its own `End`; an invalid own half takes the neighbor's `Start` as its `End`; both endpoints equal `Stitched` of the entry states, and every edge `chain[i]` of the neighbor chain ends with the endpoints `Stitched` gives `states[i..]` (`AllStitched` over `EndsOf(chain)`) |

## Left out

- Object pooling (`SimpleObjectPool`, the `New*`/`Recycle*` helpers and `FortunesAlgorithm.Recycle`). These only reuse allocations. The classes' `Init`/`Recycle` are modelled; the pool is not.
- The beach line (`BeachLine`, `RBTreeNode`, `AddBeachSection`, `RemoveBeachSection`) is not part of this model. So the sweep loop of `Run` and its lazy deletion through the `deleted` set are left out, as is the outer loop that drops rejected edges.
- `FortuneSite` and `VPoint` are plain records here. The site's `Cell` and `Neighbors` lists belong to the beach line.
- The crossing coordinates and the sloped-ray candidates are inputs (`Intersections`), not computed. This covers `CalcX`/`CalcY`, the Cohen–Sutherland divisions, the `Within` and direction filters, and the reverse `RemoveAt` loop over the candidate list. This is floating-point geometry.
- ClipSegment: the Cohen–Sutherland loop is bounded by `fuel` refinement steps, because its termination depends on floating-point behaviour. When the fuel runs out after exactly `fuel` refinements, the half is rejected, a case C# does not have.
- ClipEdge: the neighbor chain must be acyclic and every half must have a start. The beach line sets the links, so these are preconditions, not proved.
- ClipRay: the `Debug.Assert`s that `Slope` and `Intercept` are set are not modelled. The candidates come from `Intersections`, which receives them as options.
- Tolerance: `ApproxEqual` and its relatives are uninterpreted. No epsilon is fixed.
- NaN and infinities in `double.CompareTo` are left out: coordinates are reals.
- Heap.MinHeap.Remove: `Equals` on event objects is reference equality in C#; here it is equality of event values.
- Heap.MinHeap.constructor: a null `Items` is an empty array. `Clear` on a heap that was never initialised throws in C#; here it does nothing.
- Heap.MinHeap: the heap is fixed to the event type and its order, not generic over `IComparable<T>`.
- `ToDelete` (a beach-line node) is only an identifier, `ArcRef`.
- Edges.VEdge.Init: requires `approxEqual(0, 0)`, so that a run that is not approximately 0 is nonzero and `Slope` is a real quotient. Dividing by an exact zero would give an infinity in C#, which reals cannot express.
