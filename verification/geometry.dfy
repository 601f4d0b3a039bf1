/** Points, the closest-vertex search and the closed polygon ring. */
module Geometry {
  import opened Outcomes

  /** A point in data coordinates. */
  datatype Point = Point(x: real, y: real)

  /** Squared Euclidean distance. The editor ranks vertices by the square root
      of this quantity; in exact arithmetic the root is monotone, so the
      ranking is the same. */
  function SqDist(p: Point, q: Point): (d: real)
    ensures d >= 0.0
    ensures p == q ==> d == 0.0
  {
    var dx := p.x - q.x;
    var dy := p.y - q.y;
    assert dx * dx >= 0.0 && dy * dy >= 0.0;
    dx * dx + dy * dy
  }

  /** `k` is the index a stable sort of the vertices by distance to `p` puts
      first: no vertex is closer, and every earlier vertex is strictly farther. */
  predicate IsClosest(p: Point, vs: seq<Point>, k: int)
  {
    && 0 <= k < |vs|
    && (forall j :: 0 <= j < |vs| ==> SqDist(p, vs[k]) <= SqDist(p, vs[j]))
    && (forall j :: 0 <= j < k ==> SqDist(p, vs[k]) < SqDist(p, vs[j]))
  }

  /** Linear scan for the closest vertex; a later vertex replaces the best so
      far only when it is strictly closer, so ties go to the lowest index. */
  function ClosestIndex(p: Point, vs: seq<Point>): (k: nat)
    requires |vs| > 0
    ensures IsClosest(p, vs, k)
    decreases |vs|
  {
    if |vs| == 1 then 0
    else
      var front := vs[..|vs| - 1];
      var k := ClosestIndex(p, front);
      assert forall j :: 0 <= j < |front| ==> front[j] == vs[j];
      if SqDist(p, vs[|vs| - 1]) < SqDist(p, vs[k]) then |vs| - 1 else k
  }

  /** The closest-vertex record: distance, index and position. */
  datatype Closest = Closest(distance: real, index: nat, vertex: Point)

  /** The closest vertex to `p`; an empty vertex list is an error. */
  function GetClosestVertex(p: Point, vs: seq<Point>): (r: Result<Closest>)
    ensures r.Err? <==> |vs| == 0
    ensures r.Err? ==> r.fault == EmptyVertexList
    ensures r.Ok? ==> IsClosest(p, vs, r.value.index)
                      && r.value.vertex == vs[r.value.index]
                      && r.value.distance == SqDist(p, r.value.vertex)
  {
    if |vs| == 0 then Err(EmptyVertexList)
    else
      var k := ClosestIndex(p, vs);
      Ok(Closest(SqDist(p, vs[k]), k, vs[k]))
  }

  /** The scan finds the index a stable sort by distance puts first, and no other. */
  lemma ClosestIndexIsFirstMinimum(p: Point, vs: seq<Point>, k: int)
    requires |vs| > 0
    ensures IsClosest(p, vs, k) <==> k == ClosestIndex(p, vs)
  {
  }

  /** A closed ring: the first and the last stored point are the same point. */
  predicate Ring(vs: seq<Point>)
  {
    |vs| > 0 && vs[0] == vs[|vs| - 1]
  }

  /** A closed polygon's path: unless its first and last points already agree,
      the first point is repeated at the end. */
  function Close(vs: seq<Point>): (r: seq<Point>)
    ensures |vs| <= |r| <= |vs| + 1
    ensures r[..|vs|] == vs
    ensures |r| == |vs| + 1 ==> |vs| > 0 && r[|vs|] == vs[0]
    ensures |vs| > 0 ==> Ring(r)
    ensures Ring(vs) ==> r == vs
  {
    if |vs| > 0 && vs[0] != vs[|vs| - 1] then vs + [vs[0]] else vs
  }

  /** Moves vertex `i` of a ring to `p`. Index 0 and index |vs|-1 hold the same
      point of the ring, so moving either one moves both. */
  function MoveVertex(vs: seq<Point>, i: nat, p: Point): (r: seq<Point>)
    requires i < |vs|
    ensures |r| == |vs|
    ensures i == 0 || i == |vs| - 1 ==>
              r[0] == p && r[|vs| - 1] == p
              && forall j :: 0 < j < |vs| - 1 ==> r[j] == vs[j]
    ensures 0 < i < |vs| - 1 ==>
              r[i] == p && forall j :: 0 <= j < |vs| && j != i ==> r[j] == vs[j]
    ensures Ring(vs) ==> Ring(r)
  {
    if i == 0 || i == |vs| - 1 then vs[0 := p][|vs| - 1 := p] else vs[i := p]
  }
}
