/**
 * The camera of RayTracing/TCamera.cpp: a rectangle of photomultiplier tubes
 * on the focal plane. It maps tube indices to positions and positions back
 * to (fractional) tube bins, tests whether a ray is blocked by the camera
 * body, and sorts a raw readout into one list of times per tube while
 * keeping the earliest and latest time it has seen.
 */
module Camera {
  import opened Common
  import opened RawRecords

  datatype CameraError = InvalidArgument

  class Camera {
    const height: real
    const numberTubesY: int
    const width: real
    const numberTubesX: int
    const pmtResponseTime: real
    const transparent: bool
    var minTime: real
    var maxTime: real

    /** The earliest and latest times start out of reach of any real time. */
    constructor (height: real, numberTubesY: int, width: real, numberTubesX: int, pmtResponseTime: real, transparent: bool)
      ensures this.height == height && this.numberTubesY == numberTubesY
      ensures this.width == width && this.numberTubesX == numberTubesX
      ensures this.pmtResponseTime == pmtResponseTime && this.transparent == transparent
      ensures minTime == 1e100 && maxTime == -1e100
    {
      this.transparent := transparent;
      this.height, this.numberTubesY := height, numberTubesY;
      this.width, this.numberTubesX := width, numberTubesX;
      this.pmtResponseTime := pmtResponseTime;
      minTime, maxTime := 1e100, -1e100;
    }

    // -------------------------------------------------------------------
    // Tube positions and bins

    /**
     * The x coordinate of tube column `xIndex`. Only indices past the last
     * column are refused, before any division; a negative index is not
     * checked.
     */
    function PMTX(xIndex: int): (r: Result<real, CameraError>)
      requires numberTubesX != 0 || xIndex >= numberTubesX
      ensures r.Err? <==> xIndex >= numberTubesX
    {
      if xIndex >= numberTubesX then Err(InvalidArgument)
      else Ok(xIndex as real * width / numberTubesX as real - width / 2.0)
    }

    /** The y coordinate of tube row `yIndex`; the same rule as PMTX. */
    function PMTY(yIndex: int): (r: Result<real, CameraError>)
      requires numberTubesY != 0 || yIndex >= numberTubesY
      ensures r.Err? <==> yIndex >= numberTubesY
    {
      if yIndex >= numberTubesY then Err(InvalidArgument)
      else Ok(yIndex as real * height / numberTubesY as real - height / 2.0)
    }

    /** The fractional tube column of an x coordinate. */
    function XBin(x: real): real
      requires width != 0.0
    {
      (x + width / 2.0) / width * numberTubesX as real
    }

    /** The fractional tube row of a y coordinate. */
    function YBin(y: real): real
      requires height != 0.0
    {
      (y + height / 2.0) / height * numberTubesY as real
    }

    /** Binning the position of a tube column gives back its index. */
    lemma PMTXRoundTrip(xIndex: int)
      requires width != 0.0 && numberTubesX != 0 && xIndex < numberTubesX
      ensures XBin(PMTX(xIndex).value) == xIndex as real
    {
      var n := numberTubesX as real;
      var x := PMTX(xIndex).value;
      assert x + width / 2.0 == xIndex as real * width / n;
      assert (xIndex as real * width / n) / width == xIndex as real / n;
    }

    /** Conversely, a position whose bin is a valid column index is that column's position. */
    lemma XBinRoundTrip(x: real, xIndex: int)
      requires width != 0.0 && numberTubesX != 0 && xIndex < numberTubesX
      requires XBin(x) == xIndex as real
      ensures PMTX(xIndex) == Ok(x)
    {
      var n := numberTubesX as real;
      var f := (x + width / 2.0) / width;
      assert f * n == xIndex as real;
      assert f == xIndex as real / n;
      assert x + width / 2.0 == f * width;
      assert xIndex as real * width / n == f * width;
    }

    lemma PMTYRoundTrip(yIndex: int)
      requires height != 0.0 && numberTubesY != 0 && yIndex < numberTubesY
      ensures YBin(PMTY(yIndex).value) == yIndex as real
    {
      var n := numberTubesY as real;
      var y := PMTY(yIndex).value;
      assert y + height / 2.0 == yIndex as real * height / n;
      assert (yIndex as real * height / n) / height == yIndex as real / n;
    }

    lemma YBinRoundTrip(y: real, yIndex: int)
      requires height != 0.0 && numberTubesY != 0 && yIndex < numberTubesY
      requires YBin(y) == yIndex as real
      ensures PMTY(yIndex) == Ok(y)
    {
      var n := numberTubesY as real;
      var f := (y + height / 2.0) / height;
      assert f * n == yIndex as real;
      assert f == yIndex as real / n;
      assert y + height / 2.0 == f * height;
      assert yIndex as real * height / n == f * height;
    }

    /** On a camera of positive size, the columns run from the left edge to just short of the right one. */
    lemma PMTXOnCamera(xIndex: int)
      requires width > 0.0 && numberTubesX > 0 && 0 <= xIndex < numberTubesX
      ensures -width / 2.0 <= PMTX(xIndex).value < width / 2.0
    {
      var n := numberTubesX as real;
      assert 0.0 <= xIndex as real / n < 1.0;
      assert xIndex as real * width / n == xIndex as real / n * width;
    }

    // -------------------------------------------------------------------
    // Collision with the camera body

    /**
     * Whether a ray crossing the focal plane at `position` is blocked by the
     * camera: never for a transparent camera, otherwise exactly when the
     * crossing lies on the camera's rectangle (edges included).
     */
    function CheckCollision(position: Vec3): bool {
      if transparent then false
      else if Abs(position.x) > width / 2.0 || Abs(position.y) > height / 2.0 then false
      else true
    }

    lemma TransparentNeverCollides(position: Vec3)
      requires transparent
      ensures !CheckCollision(position)
    {
    }

    /**
     * On an opaque camera of positive size, a ray is blocked exactly when its
     * crossing falls within the span of the tube bins, edges included.
     */
    lemma CollisionIsTubeArea(position: Vec3)
      requires !transparent && width > 0.0 && height > 0.0 && numberTubesX > 0 && numberTubesY > 0
      ensures CheckCollision(position) <==>
                0.0 <= XBin(position.x) <= numberTubesX as real && 0.0 <= YBin(position.y) <= numberTubesY as real
    {
      BinSpan(position.x, width, numberTubesX as real);
      BinSpan(position.y, height, numberTubesY as real);
    }

    // -------------------------------------------------------------------
    // Sorting a readout into tubes

    /** The tube column a hit is filed under: its bin truncated toward zero, as the C++ integer conversion does. */
    function XIndex(x: real): int
      requires width != 0.0
    {
      Trunc(XBin(x))
    }

    function YIndex(y: real): int
      requires height != 0.0
    {
      Trunc(YBin(y))
    }

    /**
     * Truncation toward zero maps a bin in (-1, 0) to column 0: a hit less
     * than one tube width beyond the camera's left edge is filed under the
     * first column although it lies off the camera.
     */
    lemma LeftSliverInFirstColumn(x: real)
      requires width > 0.0 && numberTubesX > 0 && -1.0 < XBin(x) < 0.0
      ensures XIndex(x) == 0 && x < -width / 2.0
    {
      var f := (x + width / 2.0) / width;
      assert XBin(x) == f * numberTubesX as real;
      assert x + width / 2.0 == f * width;
    }

    /** A hit is kept unless its column or row index is past the last tube. */
    predicate Kept(p: RawPoint)
      requires width != 0.0 && height != 0.0
    {
      XIndex(p.x) < numberTubesX && YIndex(p.y) < numberTubesY
    }

    /**
     * Only indices past the end are checked, so a kept hit with a negative
     * index would be filed outside the grid: callers must not supply one.
     */
    predicate NoNegativeIndex(data: seq<RawPoint>)
      requires width != 0.0 && height != 0.0
    {
      forall k :: 0 <= k < |data| && Kept(data[k]) ==> XIndex(data[k].x) >= 0 && YIndex(data[k].y) >= 0
    }

    /** The times of the hits filed under tube (x, y), in readout order. */
    function TubeTimes(data: seq<RawPoint>, x: int, y: int): seq<real>
      requires width != 0.0 && height != 0.0
    {
      if |data| == 0 then []
      else
        var p := data[|data| - 1];
        TubeTimes(data[..|data| - 1], x, y) + if Kept(p) && XIndex(p.x) == x && YIndex(p.y) == y then [p.t] else []
    }

    /** The times of all kept hits, in readout order. */
    function KeptTimes(data: seq<RawPoint>): (r: seq<real>)
      requires width != 0.0 && height != 0.0
      ensures |r| <= |data|
    {
      if |data| == 0 then []
      else
        var p := data[|data| - 1];
        KeptTimes(data[..|data| - 1]) + if Kept(p) then [p.t] else []
    }

    /**
     * Files every kept hit's time under its tube, in readout order, and
     * widens the earliest and latest times to cover the kept hits; dropped
     * hits touch neither.
     */
    method ParseData(data: seq<RawPoint>) returns (parsed: seq<seq<seq<real>>>)
      requires width != 0.0 && height != 0.0 && numberTubesX >= 0 && numberTubesY >= 0
      requires NoNegativeIndex(data)
      modifies this
      ensures Shaped(parsed, numberTubesX, numberTubesY)
      ensures forall x, y :: 0 <= x < numberTubesX && 0 <= y < numberTubesY ==> parsed[x][y] == TubeTimes(data, x, y)
      ensures GridTotal(parsed) == |KeptTimes(data)|
      ensures minTime == MinOf(old(minTime), KeptTimes(data))
      ensures maxTime == MaxOf(old(maxTime), KeptTimes(data))
    {
      parsed := EmptyGrid(numberTubesX, numberTubesY);
      for i := 0 to |data|
        invariant parsed == TubeGrid(data[..i])
        invariant minTime == MinOf(old(minTime), KeptTimes(data[..i]))
        invariant maxTime == MaxOf(old(maxTime), KeptTimes(data[..i]))
      {
        assert data[..i + 1] == data[..i] + [data[i]];
        assert data[..i + 1][..i] == data[..i];
        ParseStep(this, old(minTime), old(maxTime), data[..i], data[i]);
        parsed := FileHit(parsed, data[i]);
      }
      assert data[..|data|] == data;
      TubeGridContents(data);
    }

    /**
     * The body of the ParseData loop: a hit past the last column or row is
     * skipped; any other is appended to its tube's list and may move the
     * earliest or latest time.
     */
    method FileHit(parsed: seq<seq<seq<real>>>, p: RawPoint) returns (parsed': seq<seq<seq<real>>>)
      requires width != 0.0 && height != 0.0 && Shaped(parsed, numberTubesX, numberTubesY)
      requires Kept(p) ==> XIndex(p.x) >= 0 && YIndex(p.y) >= 0
      modifies this
      ensures parsed' == File(parsed, p)
      ensures maxTime == if Kept(p) && p.t > old(maxTime) then p.t else old(maxTime)
      ensures minTime == if Kept(p) && p.t < old(minTime) then p.t else old(minTime)
    {
      var xBin := XIndex(p.x);
      var yBin := YIndex(p.y);
      if xBin >= numberTubesX || yBin >= numberTubesY {
        return parsed;
      }
      parsed' := parsed[xBin := parsed[xBin][yBin := parsed[xBin][yBin] + [p.t]]];
      if p.t > maxTime {
        maxTime := p.t;
      }
      if p.t < minTime {
        minTime := p.t;
      }
    }

    /** Filing one hit: appended to its tube's list when kept, left out otherwise. */
    function File(g: seq<seq<seq<real>>>, p: RawPoint): (g': seq<seq<seq<real>>>)
      requires width != 0.0 && height != 0.0 && Shaped(g, numberTubesX, numberTubesY)
      requires Kept(p) ==> XIndex(p.x) >= 0 && YIndex(p.y) >= 0
      ensures Shaped(g', numberTubesX, numberTubesY)
    {
      if Kept(p) then g[XIndex(p.x) := g[XIndex(p.x)][YIndex(p.y) := g[XIndex(p.x)][YIndex(p.y)] + [p.t]]] else g
    }

    /** The grid after filing every hit of `data` in order, from empty lists. */
    function TubeGrid(data: seq<RawPoint>): (g: seq<seq<seq<real>>>)
      requires width != 0.0 && height != 0.0 && numberTubesX >= 0 && numberTubesY >= 0
      requires NoNegativeIndex(data)
      ensures Shaped(g, numberTubesX, numberTubesY)
    {
      if |data| == 0 then Blank(numberTubesX, numberTubesY)
      else File(TubeGrid(data[..|data| - 1]), data[|data| - 1])
    }

    /** Each list of the filed grid holds its tube's times, and the grid holds every kept time. */
    lemma {:induction false} TubeGridContents(data: seq<RawPoint>)
      requires width != 0.0 && height != 0.0 && numberTubesX >= 0 && numberTubesY >= 0
      requires NoNegativeIndex(data)
      ensures forall x, y :: 0 <= x < numberTubesX && 0 <= y < numberTubesY ==> TubeGrid(data)[x][y] == TubeTimes(data, x, y)
      ensures GridTotal(TubeGrid(data)) == |KeptTimes(data)|
      decreases |data|
    {
      if |data| == 0 {
        BlankContents(numberTubesX, numberTubesY);
      } else {
        var d, p := data[..|data| - 1], data[|data| - 1];
        assert data == d + [p];
        TubeGridContents(d);
        ParseStep(this, 0.0, 0.0, d, p);
        if Kept(p) {
          GridTotalAppend(TubeGrid(d), XIndex(p.x), YIndex(p.y), p.t);
        }
      }
    }
  }

  /** A grid of n columns of m lists each. */
  predicate Shaped(g: seq<seq<seq<real>>>, n: int, m: int) {
    |g| == n && forall x :: 0 <= x < n ==> |g[x]| == m
  }

  /** What one more hit does to the per-tube lists and to the kept times. */
  lemma ParseStep(camera: Camera, lo: real, hi: real, d: seq<RawPoint>, p: RawPoint)
    requires camera.width != 0.0 && camera.height != 0.0
    ensures camera.KeptTimes(d + [p]) == camera.KeptTimes(d) + if camera.Kept(p) then [p.t] else []
    ensures MaxOf(hi, camera.KeptTimes(d + [p])) ==
              if camera.Kept(p) && p.t > MaxOf(hi, camera.KeptTimes(d)) then p.t else MaxOf(hi, camera.KeptTimes(d))
    ensures MinOf(lo, camera.KeptTimes(d + [p])) ==
              if camera.Kept(p) && p.t < MinOf(lo, camera.KeptTimes(d)) then p.t else MinOf(lo, camera.KeptTimes(d))
    ensures forall x, y :: camera.TubeTimes(d + [p], x, y) ==
              camera.TubeTimes(d, x, y) + if camera.Kept(p) && camera.XIndex(p.x) == x && camera.YIndex(p.y) == y then [p.t] else []
  {
    assert (d + [p])[..|d|] == d;
    if camera.Kept(p) {
      ExtremesAppend(lo, hi, camera.KeptTimes(d), p.t);
    } else {
      assert camera.KeptTimes(d + [p]) == camera.KeptTimes(d);
    }
  }

  /** |x| <= d/2 exactly when the bin (x + d/2) / d * n lies in [0, n]. */
  lemma BinSpan(x: real, d: real, n: real)
    requires d > 0.0 && n > 0.0
    ensures Abs(x) <= d / 2.0 <==> 0.0 <= (x + d / 2.0) / d * n <= n
  {
    var f := (x + d / 2.0) / d;
    assert (x + d / 2.0) / d * n == f * n;
    assert 0.0 <= f * n <==> 0.0 <= f;
    assert f * n <= n <==> f <= 1.0;
    assert 0.0 <= f <==> -d / 2.0 <= x;
    assert f <= 1.0 <==> x <= d / 2.0;
  }

  // ---------------------------------------------------------------------
  // Grids of per-tube lists

  /** An n × m grid of empty lists. */
  function Blank(n: int, m: int): (g: seq<seq<seq<real>>>)
    requires n >= 0 && m >= 0
    ensures Shaped(g, n, m)
    decreases n
  {
    if n == 0 then [] else Blank(n - 1, m) + [BlankColumn(m)]
  }

  function BlankColumn(m: int): (c: seq<seq<real>>)
    requires m >= 0
    ensures |c| == m
    decreases m
  {
    if m == 0 then [] else BlankColumn(m - 1) + [[]]
  }

  /** Every list of a blank grid is empty, so it holds no times. */
  lemma {:induction false} BlankContents(n: int, m: int)
    requires n >= 0 && m >= 0
    ensures forall x, y :: 0 <= x < n && 0 <= y < m ==> Blank(n, m)[x][y] == []
    ensures GridTotal(Blank(n, m)) == 0
    decreases n
  {
    if n > 0 {
      var g := Blank(n, m);
      BlankContents(n - 1, m);
      BlankColumnContents(m);
      assert g == Blank(n - 1, m) + [BlankColumn(m)];
      assert g[..n - 1] == Blank(n - 1, m);
      assert g[n - 1] == BlankColumn(m);
      forall x, y | 0 <= x < n && 0 <= y < m
        ensures g[x][y] == []
      {
        if x < n - 1 {
          assert g[x] == Blank(n - 1, m)[x];
        }
      }
    }
  }

  lemma {:induction false} BlankColumnContents(m: int)
    requires m >= 0
    ensures forall y :: 0 <= y < m ==> BlankColumn(m)[y] == []
    ensures RowTotal(BlankColumn(m)) == 0
    decreases m
  {
    if m > 0 {
      BlankColumnContents(m - 1);
      assert BlankColumn(m)[..m - 1] == BlankColumn(m - 1);
    }
  }

  /** The grid of empty lists ParseData starts from, built column by column. */
  method EmptyGrid(n: int, m: int) returns (g: seq<seq<seq<real>>>)
    requires n >= 0 && m >= 0
    ensures g == Blank(n, m)
  {
    g := [];
    for i := 0 to n
      invariant g == Blank(i, m)
    {
      var column: seq<seq<real>> := [];
      for j := 0 to m
        invariant column == BlankColumn(j)
      {
        column := column + [[]];
      }
      g := g + [column];
    }
  }

  /** The number of times stored in a column of lists. */
  function RowTotal(row: seq<seq<real>>): nat {
    if |row| == 0 then 0 else RowTotal(row[..|row| - 1]) + |row[|row| - 1]|
  }

  /** The number of times stored in a grid of lists. */
  function GridTotal(g: seq<seq<seq<real>>>): nat {
    if |g| == 0 then 0 else GridTotal(g[..|g| - 1]) + RowTotal(g[|g| - 1])
  }

  lemma {:induction false} RowTotalAppend(row: seq<seq<real>>, y: int, t: real)
    requires 0 <= y < |row|
    ensures RowTotal(row[y := row[y] + [t]]) == RowTotal(row) + 1
    decreases |row|
  {
    var row' := row[y := row[y] + [t]];
    assert row'[..|row| - 1] == if y < |row| - 1 then row[..|row| - 1][y := row[y] + [t]] else row[..|row| - 1];
    if y < |row| - 1 {
      RowTotalAppend(row[..|row| - 1], y, t);
    }
  }

  /** Appending one time to one list of the grid stores exactly one more time. */
  lemma {:induction false} GridTotalAppend(g: seq<seq<seq<real>>>, x: int, y: int, t: real)
    requires 0 <= x < |g| && 0 <= y < |g[x]|
    ensures GridTotal(g[x := g[x][y := g[x][y] + [t]]]) == GridTotal(g) + 1
    decreases |g|
  {
    var g' := g[x := g[x][y := g[x][y] + [t]]];
    assert g'[..|g| - 1] == if x < |g| - 1 then g[..|g| - 1][x := g[x][y := g[x][y] + [t]]] else g[..|g| - 1];
    if x < |g| - 1 {
      GridTotalAppend(g[..|g| - 1], x, y, t);
    } else {
      RowTotalAppend(g[x], y, t);
    }
  }

  // ---------------------------------------------------------------------
  // Running extremes

  /** The running maximum of `ts` starting from `m`, updated with a strict `>` as each time arrives. */
  function MaxOf(m: real, ts: seq<real>): real {
    if |ts| == 0 then m
    else
      var a := MaxOf(m, ts[..|ts| - 1]);
      if ts[|ts| - 1] > a then ts[|ts| - 1] else a
  }

  /** The running minimum of `ts` starting from `m`, updated with a strict `<`. */
  function MinOf(m: real, ts: seq<real>): real {
    if |ts| == 0 then m
    else
      var a := MinOf(m, ts[..|ts| - 1]);
      if ts[|ts| - 1] < a then ts[|ts| - 1] else a
  }

  lemma ExtremesAppend(lo: real, hi: real, ts: seq<real>, t: real)
    ensures MaxOf(hi, ts + [t]) == if t > MaxOf(hi, ts) then t else MaxOf(hi, ts)
    ensures MinOf(lo, ts + [t]) == if t < MinOf(lo, ts) then t else MinOf(lo, ts)
  {
    assert (ts + [t])[..|ts|] == ts;
  }

  /** The running maximum bounds the start and every time, and is one of them. */
  lemma {:induction false} MaxOfBounds(m: real, ts: seq<real>)
    ensures m <= MaxOf(m, ts)
    ensures forall k :: 0 <= k < |ts| ==> ts[k] <= MaxOf(m, ts)
    ensures MaxOf(m, ts) == m || MaxOf(m, ts) in ts
    decreases |ts|
  {
    if |ts| > 0 {
      MaxOfBounds(m, ts[..|ts| - 1]);
    }
  }

  /** The running minimum bounds the start and every time from below, and is one of them. */
  lemma {:induction false} MinOfBounds(m: real, ts: seq<real>)
    ensures MinOf(m, ts) <= m
    ensures forall k :: 0 <= k < |ts| ==> MinOf(m, ts) <= ts[k]
    ensures MinOf(m, ts) == m || MinOf(m, ts) in ts
    decreases |ts|
  {
    if |ts| > 0 {
      MinOfBounds(m, ts[..|ts| - 1]);
    }
  }
}
