/**
 * Points in space and the nearest-point correspondence that the kd-tree
 * queries provide. The kd-tree itself is not modelled: a query's answer is
 * specified as an argmin over squared Euclidean distance and computed here by
 * brute force; which of several equally near points wins is not promised.
 */
module Geometry {
  import opened Wrappers

  datatype Vec3 = Vec3(x: real, y: real, z: real)

  function SqDist(a: Vec3, b: Vec3): real
  {
    (a.x - b.x) * (a.x - b.x) + (a.y - b.y) * (a.y - b.y) + (a.z - b.z) * (a.z - b.z)
  }

  /** Squared distance is never negative and is zero from a point to itself. */
  lemma SqDistNonNegative(a: Vec3, b: Vec3)
    ensures SqDist(a, b) >= 0.0
    ensures SqDist(a, a) == 0.0
  {
    var dx, dy, dz := a.x - b.x, a.y - b.y, a.z - b.z;
    assert dx * dx >= 0.0 && dy * dy >= 0.0 && dz * dz >= 0.0;
  }

  /** Index i names a source point no farther from q than any other source point. */
  predicate IsNearest(src: seq<Vec3>, q: Vec3, i: int)
  {
    0 <= i < |src| && forall j :: 0 <= j < |src| ==> SqDist(src[i], q) <= SqDist(src[j], q)
  }

  /** A nearest source point to q, found by scanning the whole source set. */
  function Closest(src: seq<Vec3>, q: Vec3): (i: nat)
    requires |src| > 0
    ensures IsNearest(src, q, i)
    decreases |src|
  {
    if |src| == 1 then 0
    else
      var k := Closest(src[..|src| - 1], q);
      if SqDist(src[|src| - 1], q) < SqDist(src[k], q) then |src| - 1 else k
  }

  /**
   * The correspondence step: for every target point, the index of a nearest
   * source point. A tree over no source points cannot answer and is an error.
   */
  function Correspond(src: seq<Vec3>, targets: seq<Vec3>): (r: Result<seq<nat>>)
    ensures r.Err? <==> |src| == 0
    ensures r.Ok? ==> |r.value| == |targets|
    ensures r.Ok? ==> forall i :: 0 <= i < |targets| ==> IsNearest(src, targets[i], r.value[i])
  {
    if |src| == 0 then Err(EmptyPointSet)
    else Ok(seq(|targets|, i requires 0 <= i < |targets| => Closest(src, targets[i])))
  }

  /** Matching a point set against itself pairs every point with a point at distance zero. */
  lemma CorrespondSelf(pts: seq<Vec3>, i: nat)
    requires |pts| > 0 && i < |pts|
    ensures Correspond(pts, pts).Ok?
    ensures SqDist(pts[Correspond(pts, pts).value[i]], pts[i]) == 0.0
  {
    var k := Correspond(pts, pts).value[i];
    assert SqDist(pts[k], pts[i]) <= SqDist(pts[i], pts[i]);
    SqDistNonNegative(pts[i], pts[i]);
    SqDistNonNegative(pts[k], pts[i]);
  }
}
