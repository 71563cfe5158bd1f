/** Corner padding of `SimuBasin.rain_interpolate_mit`: before the stations
    are triangulated, four synthetic stations are appended at the corners of
    the DEM, each copying the record of its nearest station among those
    present at that moment (including corners already appended). */
module RainPadding {
  import opened Common
  import opened Snapping

  /** The k-th corner visited by `zip([0,0,1,1],[0,1,1,0])`. */
  function Corner(g: Grid, k: nat): (p: Point)
    requires k < 4
    ensures p.x == g.xll || p.x == g.xll + g.ncols as real * g.dx
    ensures p.y == g.yll || p.y == g.yll + g.nrows as real * g.dx
  {
    var i := [0, 0, 1, 1][k];
    var j := [0, 1, 1, 0][k];
    Point(g.xll + g.ncols as real * g.dx * i as real, g.yll + g.nrows as real * g.dx * j as real)
  }

  /** The corners are lower-left, upper-left, upper-right and lower-right. */
  lemma CornersAreDemCorners(g: Grid)
    ensures Corner(g, 0) == Point(g.xll, g.yll)
    ensures Corner(g, 1) == Point(g.xll, g.yll + g.nrows as real * g.dx)
    ensures Corner(g, 2) == Point(g.xll + g.ncols as real * g.dx, g.yll + g.nrows as real * g.dx)
    ensures Corner(g, 3) == Point(g.xll + g.ncols as real * g.dx, g.yll)
  {
  }

  lemma PrefixOfSnoc<T>(s: seq<T>, x: T)
    ensures forall i :: 0 <= i <= |s| ==> (s + [x])[..i] == s[..i]
    ensures forall i :: 0 <= i < |s| ==> (s + [x])[i] == s[i]
  {
  }

  /** Grows the station coordinates `coord` and the per-station records `reg`
      by one corner station at a time. An empty station set makes the first
      `np.argmin` raise (`ok == false`). */
  method PadCorners(g: Grid, coord: seq<Point>, reg: seq<seq<real>>)
    returns (ok: bool, coord': seq<Point>, reg': seq<seq<real>>)
    requires |reg| == |coord|
    ensures ok <==> |coord| > 0
    ensures !ok ==> coord' == coord && reg' == reg
    ensures ok ==> |coord'| == |coord| + 4 && |reg'| == |reg| + 4
    ensures ok ==> coord'[..|coord|] == coord && reg'[..|reg|] == reg
    ensures ok ==> forall k :: 0 <= k < 4 ==> coord'[|coord| + k] == Corner(g, k)
    ensures ok ==> forall k :: 0 <= k < 4 ==>
      reg'[|coord| + k] == reg'[NearestVertex(coord'[..|coord| + k], Corner(g, k))]
  {
    coord', reg' := coord, reg;
    if |coord| == 0 {
      return false, coord', reg';
    }
    var n := |coord|;
    var k := 0;
    while k < 4
      invariant 0 <= k <= 4
      invariant |coord'| == n + k && |reg'| == n + k
      invariant coord'[..n] == coord && reg'[..n] == reg
      invariant forall m :: 0 <= m < k ==> coord'[n + m] == Corner(g, m)
      invariant forall m :: 0 <= m < k ==>
        reg'[n + m] == reg'[NearestVertex(coord'[..n + m], Corner(g, m))]
    {
      var corner := Corner(g, k);
      var pos := NearestVertex(coord', corner);
      assert coord'[..n + k] == coord';
      PrefixOfSnoc(coord', corner);
      PrefixOfSnoc(reg', reg'[pos]);
      coord' := coord' + [corner];
      reg' := reg' + [reg'[pos]];
      k := k + 1;
    }
    ok := true;
  }
}
