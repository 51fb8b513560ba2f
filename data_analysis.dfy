/**
 * The signal aggregation of cherenkov_library/data_analysis.cpp: the
 * "above" order on vectors, the angular profile of a detector readout and
 * the superimposed time profile of all its pixels.
 */
module DataAnalysis {
  import opened Common
  import opened DataContainers

  // =====================================================================
  // Above

  /** `other` is above `reference`: higher in z, or level in z and further along y; x plays no part. */
  function Above(reference: Vec3, other: Vec3): (r: bool)
    ensures r <==> other.z > reference.z || (other.z == reference.z && other.y > reference.y)
  {
    if other.z > reference.z then true
    else if other.z < reference.z then false
    else other.y > reference.y
  }

  lemma AboveIrreflexive(a: Vec3)
    ensures !Above(a, a)
  {
  }

  lemma AboveAsymmetric(a: Vec3, b: Vec3)
    ensures !(Above(a, b) && Above(b, a))
  {
  }

  lemma AboveTransitive(a: Vec3, b: Vec3, c: Vec3)
    requires Above(a, b) && Above(b, c)
    ensures Above(a, c)
  {
  }

  /** Two vectors that differ in z or in y are ordered one way or the other. */
  lemma AboveTotal(a: Vec3, b: Vec3)
    requires a.z != b.z || a.y != b.y
    ensures Above(a, b) || Above(b, a)
  {
  }

  // =====================================================================
  // CollapseToProfile

  /**
   * The signed angle of one pixel in the profile: the unsigned angle between
   * the pixel's projected direction and the projected shower axis, negated
   * when the pixel's projection is not above the axis.
   */
  function SignedAngle(axisProjection: Vec3, projection: Vec3, magnitude: real): real {
    if Above(axisProjection, projection) then magnitude else -magnitude
  }

  /**
   * One profile entry per valid pixel, in scan order: the pixel's signed
   * angle and its total count. The projection of each pixel's viewing
   * direction onto the shower-detector plane, and the unsigned angle it makes
   * with the projected axis, are floating-point geometry and come in as the
   * grids `projection` and `magnitude`, indexed like the pixels.
   */
  method CollapseToProfile(data: PhotonCount, axisProjection: Vec3, projection: seq<seq<Vec3>>, magnitude: seq<seq<real>>)
    returns (angles: seq<real>, counts: seq<real>)
    requires data.Valid() && OnGrid(data, projection) && OnGrid(data, magnitude)
    ensures |angles| == |counts| == |ScanOrder(data.validPixels)|
    ensures forall k :: 0 <= k < |counts| ==>
              var p := ScanOrder(data.validPixels)[k];
              && data.InGrid(p.0, p.1)
              && counts[k] == Sum(data.photonCounts[p.0][p.1]) as real
              && angles[k] == SignedAngle(axisProjection, projection[p.0][p.1], magnitude[p.0][p.1])
  {
    ghost var order := ScanOrder(data.validPixels);
    angles, counts := [], [];
    var iter := data.Iterator();
    var more := iter.Next();
    while more
      invariant iter.Valid() && iter.validPixels == data.validPixels
      invariant |angles| == |counts| <= |order|
      invariant more ==> |counts| < |order| && (iter.X(), iter.Y()) == order[|counts|] && iter.Remaining() == order[|counts| + 1..]
      invariant more ==> IsValidPixel(data.validPixels, (iter.X(), iter.Y()))
      invariant !more ==> |counts| == |order|
      invariant forall k :: 0 <= k < |counts| ==>
                  var p := order[k];
                  && data.InGrid(p.0, p.1)
                  && counts[k] == Sum(data.photonCounts[p.0][p.1]) as real
                  && angles[k] == SignedAngle(axisProjection, projection[p.0][p.1], magnitude[p.0][p.1])
      decreases |order| - |counts|
    {
      var angle, sum := ProfileEntry(data, iter, axisProjection, projection, magnitude);
      angles, counts := angles + [angle], counts + [sum as real];
      more := iter.Next();
    }
  }

  /** The loop body of CollapseToProfile: the signed angle and total count of the pixel the iterator is at. */
  method ProfileEntry(data: PhotonCount, iter: SignalIterator, axisProjection: Vec3, projection: seq<seq<Vec3>>, magnitude: seq<seq<real>>)
    returns (angle: real, sum: int)
    requires data.Valid() && OnGrid(data, projection) && OnGrid(data, magnitude)
    requires iter.validPixels == data.validPixels && IsValidPixel(data.validPixels, (iter.X(), iter.Y()))
    ensures data.InGrid(iter.X(), iter.Y())
    ensures sum == Sum(data.photonCounts[iter.X()][iter.Y()]) && sum >= 0
    ensures angle == SignedAngle(axisProjection, projection[iter.X()][iter.Y()], magnitude[iter.X()][iter.Y()])
  {
    var x, y := iter.X(), iter.Y();
    data.ValidPixelInGrid((x, y));
    angle := if Above(axisProjection, projection[x][y]) then magnitude[x][y] else -magnitude[x][y];
    sum := data.SumBins(iter);
  }

  /** A per-pixel grid shaped like the detector. */
  predicate OnGrid<T>(data: PhotonCount, g: seq<seq<T>>)
    reads data
  {
    |g| == data.nPmtAcross && forall x :: 0 <= x < |g| ==> |g[x]| == data.nPmtAcross
  }

  /** A pixel's signed angle is non-negative exactly when its projection is above the axis or lies along it. */
  lemma SignedAngleSign(axisProjection: Vec3, projection: Vec3, magnitude: real)
    requires magnitude >= 0.0
    ensures SignedAngle(axisProjection, projection, magnitude) >= 0.0 <==> Above(axisProjection, projection) || magnitude == 0.0
  {
  }

  // =====================================================================
  // SuperimposeTimes

  /** Every listed pixel indexes a series of `photonCounts`. */
  predicate PixelsIn(photonCounts: seq<seq<seq<int>>>, pixels: seq<Pixel>) {
    forall k :: 0 <= k < |pixels| ==> 0 <= pixels[k].0 < |photonCounts| && 0 <= pixels[k].1 < |photonCounts[pixels[k].0]|
  }

  /** Bin `i` summed over the series of the listed pixels. */
  function ColumnSum(photonCounts: seq<seq<seq<int>>>, pixels: seq<Pixel>, i: int): int
    requires PixelsIn(photonCounts, pixels)
  {
    if |pixels| == 0 then 0
    else
      var p := pixels[|pixels| - 1];
      var signal := photonCounts[p.0][p.1];
      ColumnSum(photonCounts, pixels[..|pixels| - 1], i) + if 0 <= i < |signal| then signal[i] else 0
  }

  /**
   * The time axis of the detector and, bin by bin, the counts of every
   * valid pixel added together.
   */
  method SuperimposeTimes(data: PhotonCount) returns (times: seq<real>, counts: seq<real>)
    requires data.Valid()
    ensures |times| == |counts| == data.NBins()
    ensures forall i :: 0 <= i < |times| ==> times[i] == data.Time(i)
    ensures forall i :: 0 <= i < |counts| ==> counts[i] == ColumnSum(data.photonCounts, ScanOrder(data.validPixels), i) as real
  {
    ghost var order := ScanOrder(data.validPixels);
    times, counts := [], [];
    for i := 0 to data.NBins()
      invariant |times| == |counts| == i
      invariant forall i' :: 0 <= i' < i ==> times[i'] == data.Time(i') && counts[i'] == 0.0
    {
      times, counts := times + [data.Time(i)], counts + [0.0];
    }

    var iter := data.Iterator();
    var more := iter.Next();
    ghost var done := 0;
    while more
      invariant iter.Valid() && iter.validPixels == data.validPixels
      invariant 0 <= done <= |order|
      invariant more ==> done < |order| && (iter.X(), iter.Y()) == order[done] && iter.Remaining() == order[done + 1..]
      invariant !more ==> done == |order|
      invariant |times| == |counts| == data.NBins()
      invariant forall i :: 0 <= i < |times| ==> times[i] == data.Time(i)
      invariant forall i :: 0 <= i < |counts| ==> counts[i] == ColumnSum(data.photonCounts, order[..done], i) as real
      decreases |order| - done
    {
      data.ValidPixelInGrid((iter.X(), iter.Y()));
      var signal := data.Signal(iter);
      assert order[..done + 1][..done] == order[..done];
      counts := AddSignal(counts, signal);
      done := done + 1;
      more := iter.Next();
    }
    assert order[..done] == order;
  }

  /** The inner loop of SuperimposeTimes: bin by bin, one pixel's series added to the running counts. */
  method AddSignal(counts: seq<real>, signal: seq<int>) returns (r: seq<real>)
    requires |signal| <= |counts|
    ensures |r| == |counts|
    ensures forall i :: 0 <= i < |r| ==> r[i] == counts[i] + (if i < |signal| then signal[i] else 0) as real
  {
    r := counts;
    for i := 0 to |signal|
      invariant |r| == |counts|
      invariant forall i' :: 0 <= i' < |r| ==> r[i'] == counts[i'] + (if i' < i then signal[i'] else 0) as real
    {
      r := r[i := r[i] + signal[i] as real];
    }
  }

  // ---------------------------------------------------------------------
  // Nothing is lost by superimposing: the bins of the superimposed profile
  // add up to the total count of all the pixels.

  /** The total counts of the listed pixels, added up. */
  function PixelsTotal(photonCounts: seq<seq<seq<int>>>, pixels: seq<Pixel>): int
    requires PixelsIn(photonCounts, pixels)
  {
    if |pixels| == 0 then 0
    else
      var p := pixels[|pixels| - 1];
      PixelsTotal(photonCounts, pixels[..|pixels| - 1]) + Sum(photonCounts[p.0][p.1])
  }

  /** The first `n` bins of the superimposed profile, added up. */
  function BinsTotal(photonCounts: seq<seq<seq<int>>>, pixels: seq<Pixel>, n: nat): int
    requires PixelsIn(photonCounts, pixels)
  {
    if n == 0 then 0 else BinsTotal(photonCounts, pixels, n - 1) + ColumnSum(photonCounts, pixels, n - 1)
  }

  lemma {:induction false} BinsTotalNoPixels(photonCounts: seq<seq<seq<int>>>, n: nat)
    ensures BinsTotal(photonCounts, [], n) == 0
  {
    if n > 0 {
      BinsTotalNoPixels(photonCounts, n - 1);
    }
  }

  /** The last pixel contributes the sum of its first `n` bins. */
  lemma {:induction false} BinsTotalLastPixel(photonCounts: seq<seq<seq<int>>>, pixels: seq<Pixel>, n: nat)
    requires PixelsIn(photonCounts, pixels) && |pixels| > 0
    requires n <= |photonCounts[pixels[|pixels| - 1].0][pixels[|pixels| - 1].1]|
    ensures BinsTotal(photonCounts, pixels, n) ==
            BinsTotal(photonCounts, pixels[..|pixels| - 1], n) + Sum(photonCounts[pixels[|pixels| - 1].0][pixels[|pixels| - 1].1][..n])
  {
    var p := pixels[|pixels| - 1];
    var signal := photonCounts[p.0][p.1];
    if n > 0 {
      BinsTotalLastPixel(photonCounts, pixels, n - 1);
      assert signal[..n][..n - 1] == signal[..n - 1];
    }
  }

  /** When every series has `n` bins, the `n` superimposed bins hold every count of every pixel. */
  lemma {:induction false} SuperimposeConserves(photonCounts: seq<seq<seq<int>>>, pixels: seq<Pixel>, n: nat)
    requires PixelsIn(photonCounts, pixels)
    requires forall k :: 0 <= k < |pixels| ==> |photonCounts[pixels[k].0][pixels[k].1]| == n
    ensures BinsTotal(photonCounts, pixels, n) == PixelsTotal(photonCounts, pixels)
    decreases |pixels|
  {
    if |pixels| == 0 {
      BinsTotalNoPixels(photonCounts, n);
    } else {
      var p := pixels[|pixels| - 1];
      BinsTotalLastPixel(photonCounts, pixels, n);
      assert photonCounts[p.0][p.1][..n] == photonCounts[p.0][p.1];
      SuperimposeConserves(photonCounts, pixels[..|pixels| - 1], n);
    }
  }

  /** For a detector readout: the superimposed time profile holds every photon of every valid pixel. */
  lemma ReadoutConserved(data: PhotonCount)
    requires data.Valid()
    ensures BinsTotal(data.photonCounts, ScanOrder(data.validPixels), data.nBins) == PixelsTotal(data.photonCounts, ScanOrder(data.validPixels))
  {
    var order := ScanOrder(data.validPixels);
    forall k | 0 <= k < |order|
      ensures data.InGrid(order[k].0, order[k].1)
    {
      data.ValidPixelInGrid(order[k]);
    }
    SuperimposeConserves(data.photonCounts, order, data.nBins);
  }
}
