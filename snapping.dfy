/** Outlet snapping: `Basin.__init__` and `SimuBasin.__init__` replace the
    requested outlet by the stream vertex at the least Euclidean distance,
    taking the first one on ties (`np.argmin`). */
module Snapping {
  import opened Common

  /** Squared Euclidean distance; `sqrt` is monotone, so the argmin over it is
      the argmin over the distances the source computes. */
  function SqDist(p: Point, q: Point): real
  {
    (p.x - q.x) * (p.x - q.x) + (p.y - q.y) * (p.y - q.y)
  }

  /** `np.argmin` of the distances from `q` to every vertex, as a left fold
      that replaces the running best only on a strictly smaller distance. */
  function NearestVertex(pts: seq<Point>, q: Point): (k: nat)
    requires |pts| > 0
    ensures k < |pts|
    ensures forall j :: 0 <= j < |pts| ==> SqDist(pts[k], q) <= SqDist(pts[j], q)
    ensures forall j :: 0 <= j < k ==> SqDist(pts[k], q) < SqDist(pts[j], q)
    decreases |pts|
  {
    if |pts| == 1 then 0
    else
      var k := NearestVertex(pts[..|pts| - 1], q);
      if SqDist(pts[|pts| - 1], q) < SqDist(pts[k], q) then |pts| - 1 else k
  }

  /** The two properties of `NearestVertex` determine it: any index that is a
      minimum and strictly beats every earlier vertex is the one it returns. */
  lemma NearestVertexUnique(pts: seq<Point>, q: Point, k: nat)
    requires k < |pts|
    requires forall j :: 0 <= j < |pts| ==> SqDist(pts[k], q) <= SqDist(pts[j], q)
    requires forall j :: 0 <= j < k ==> SqDist(pts[k], q) < SqDist(pts[j], q)
    ensures NearestVertex(pts, q) == k
  {
  }

  /** The outlet the basin is traced from. `stream == None` keeps the requested
      point; an empty stream makes `np.argmin` raise, modelled as `None`. */
  function SnapOutlet(x: real, y: real, stream: Option<seq<Point>>): (r: Option<Point>)
    ensures stream.None? ==> r == Some(Point(x, y))
    ensures stream.Some? ==> (r.Some? <==> |stream.value| > 0)
    ensures stream.Some? && r.Some? ==>
      exists k :: 0 <= k < |stream.value| && r.value == stream.value[k]
        && (forall j :: 0 <= j < |stream.value| ==> SqDist(r.value, Point(x, y)) <= SqDist(stream.value[j], Point(x, y)))
        && (forall j :: 0 <= j < k ==> SqDist(r.value, Point(x, y)) < SqDist(stream.value[j], Point(x, y)))
  {
    match stream
    case None => Some(Point(x, y))
    case Some(pts) =>
      if |pts| == 0 then None
      else
        var k := NearestVertex(pts, Point(x, y));
        Some(pts[k])
  }

  /** Four vertices at distances 5, 3, 8 and 10 from the requested outlet:
      the vertex at distance 3 is chosen. */
  lemma SnapPicksDistanceThree()
    ensures NearestVertex([Point(5.0, 0.0), Point(3.0, 0.0), Point(8.0, 0.0), Point(10.0, 0.0)], Point(0.0, 0.0)) == 1
  {
    var pts := [Point(5.0, 0.0), Point(3.0, 0.0), Point(8.0, 0.0), Point(10.0, 0.0)];
    NearestVertexUnique(pts, Point(0.0, 0.0), 1);
  }

  /** A tie is resolved towards the lower index. */
  lemma SnapTieTakesFirst()
    ensures NearestVertex([Point(4.0, 0.0), Point(0.0, 4.0), Point(1.0, 0.0), Point(-1.0, 0.0)], Point(0.0, 0.0)) == 2
  {
    var pts := [Point(4.0, 0.0), Point(0.0, 4.0), Point(1.0, 0.0), Point(-1.0, 0.0)];
    NearestVertexUnique(pts, Point(0.0, 0.0), 2);
  }
}
