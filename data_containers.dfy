/**
 * The binned signal store of cherenkov_library/data_containers.h, at index
 * level: PhotonCount, a square grid of pixels each holding one integer time
 * series and a valid flag, and SignalIterator, a restartable cursor over the
 * valid pixels. Pixel and time-bin indices are inputs here; mapping a photon's
 * direction and arrival time to those indices is floating-point geometry
 * that this model leaves out.
 */
module DataContainers {

  /** A pixel, written (x index, y index). */
  type Pixel = (int, int)

  // =====================================================================
  // Scan order over the valid mask

  /** Pixel `c` comes strictly after (x, y) when the mask is read x by x, and y by y within an x. */
  predicate ScanAfter(c: Pixel, x: int, y: int) {
    c.0 > x || (c.0 == x && c.1 > y)
  }

  /** Pixel `c` lies inside the (possibly ragged) mask `v` and is flagged valid. */
  predicate IsValidPixel(v: seq<seq<bool>>, c: Pixel) {
    0 <= c.0 < |v| && 0 <= c.1 < |v[c.0]| && v[c.0][c.1]
  }

  /** A cursor position: an x index up to |v|, and a y index from -1 ("before the row") up to the row's last. */
  predicate Position(v: seq<seq<bool>>, x: int, y: int) {
    0 <= x <= |v| && -1 <= y && (x < |v| ==> y < |v[x]|)
  }

  /** The valid pixels strictly after (x, y), in scan order. */
  function ValidAfter(v: seq<seq<bool>>, x: int, y: int): seq<Pixel>
    requires Position(v, x, y)
    decreases |v| - x, if x < |v| then |v[x]| - y else 0
  {
    if x == |v| then []
    else if y + 1 == |v[x]| then ValidAfter(v, x + 1, -1)
    else if v[x][y + 1] then [(x, y + 1)] + ValidAfter(v, x, y + 1)
    else ValidAfter(v, x, y + 1)
  }

  /** Every valid pixel of the mask, in scan order: what one traversal visits. */
  function ScanOrder(v: seq<seq<bool>>): (r: seq<Pixel>)
    ensures forall k :: 0 <= k < |r| ==> IsValidPixel(v, r[k])
  {
    ValidAfterAllValid(v, 0, -1);
    ValidAfter(v, 0, -1)
  }

  lemma ValidAfterAllValid(v: seq<seq<bool>>, x: int, y: int)
    requires Position(v, x, y)
    ensures forall k :: 0 <= k < |ValidAfter(v, x, y)| ==> IsValidPixel(v, ValidAfter(v, x, y)[k])
  {
    forall k | 0 <= k < |ValidAfter(v, x, y)|
      ensures IsValidPixel(v, ValidAfter(v, x, y)[k])
    {
      ValidAfterContents(v, x, y, ValidAfter(v, x, y)[k]);
    }
  }

  /** What lies after (x, y) is exactly the valid pixels after (x, y). */
  lemma {:induction false} ValidAfterContents(v: seq<seq<bool>>, x: int, y: int, c: Pixel)
    requires Position(v, x, y)
    ensures c in ValidAfter(v, x, y) <==> IsValidPixel(v, c) && ScanAfter(c, x, y)
    decreases |v| - x, if x < |v| then |v[x]| - y else 0
  {
    if x == |v| {
    } else if y + 1 == |v[x]| {
      ValidAfterContents(v, x + 1, -1, c);
    } else {
      ValidAfterContents(v, x, y + 1, c);
    }
  }

  /** What lies after (x, y) is in strictly increasing scan order, so no pixel is visited twice. */
  lemma {:induction false} ValidAfterIncreasing(v: seq<seq<bool>>, x: int, y: int)
    requires Position(v, x, y)
    ensures forall i, j :: 0 <= i < j < |ValidAfter(v, x, y)| ==>
              ScanAfter(ValidAfter(v, x, y)[j], ValidAfter(v, x, y)[i].0, ValidAfter(v, x, y)[i].1)
    decreases |v| - x, if x < |v| then |v[x]| - y else 0
  {
    if x == |v| {
    } else if y + 1 == |v[x]| {
      ValidAfterIncreasing(v, x + 1, -1);
    } else {
      ValidAfterIncreasing(v, x, y + 1);
      var r := ValidAfter(v, x, y);
      var rest := ValidAfter(v, x, y + 1);
      if v[x][y + 1] {
        forall i, j | 0 <= i < j < |r|
          ensures ScanAfter(r[j], r[i].0, r[i].1)
        {
          if i == 0 {
            ValidAfterContents(v, x, y + 1, r[j]);
            assert r[j] == rest[j - 1];
          } else {
            assert r[i] == rest[i - 1] && r[j] == rest[j - 1];
          }
        }
      }
    }
  }

  // =====================================================================
  // SignalIterator

  /**
   * A cursor over the valid pixels of a mask. It starts before the first
   * pixel, at (0, -1); Next moves it to the next valid pixel in scan order.
   */
  class SignalIterator {
    const validPixels: seq<seq<bool>>
    var xCurrent: int
    var yCurrent: int

    ghost predicate Valid()
      reads this
    {
      Position(validPixels, xCurrent, yCurrent)
    }

    /** The pixels the following calls of Next will visit, in order. */
    ghost function Remaining(): seq<Pixel>
      reads this
      requires Valid()
    {
      ValidAfter(validPixels, xCurrent, yCurrent)
    }

    constructor (validPixels: seq<seq<bool>>)
      ensures this.validPixels == validPixels
      ensures Valid() && Remaining() == ScanOrder(validPixels)
    {
      this.validPixels := validPixels;
      xCurrent, yCurrent := 0, -1;
    }

    function X(): int
      reads this
    {
      xCurrent
    }

    function Y(): int
      reads this
    {
      yCurrent
    }

    /**
     * Moves to the next valid pixel and returns true, or returns false when
     * no valid pixel is left; then the cursor stays at the end.
     */
    method Next() returns (more: bool)
      requires Valid()
      modifies this
      ensures Valid()
      ensures more <==> old(Remaining()) != []
      ensures more ==> (X(), Y()) == old(Remaining())[0] && Remaining() == old(Remaining())[1..]
      ensures more ==> IsValidPixel(validPixels, (X(), Y()))
      ensures !more ==> Remaining() == []
    {
      var x, y := xCurrent, yCurrent + 1;
      while x < |validPixels|
        invariant Position(validPixels, x, y - 1)
        invariant ValidAfter(validPixels, x, y - 1) == old(Remaining())
        decreases |validPixels| - x, if x < |validPixels| then |validPixels[x]| - y else 0
      {
        if y < |validPixels[x]| {
          if validPixels[x][y] {
            xCurrent, yCurrent := x, y;
            return true;
          }
          y := y + 1;
        } else {
          x, y := x + 1, 0;
        }
      }
      xCurrent, yCurrent := x, -1;
      return false;
    }

    /** Back to the starting state: the next traversal visits every valid pixel again. */
    method Reset()
      modifies this
      ensures Valid() && Remaining() == ScanOrder(validPixels)
    {
      xCurrent, yCurrent := 0, -1;
    }
  }

  // =====================================================================
  // Sums of counts

  function Sum(s: seq<int>): int {
    if |s| == 0 then 0 else Sum(s[..|s| - 1]) + s[|s| - 1]
  }

  /** Adding `d` to one bin adds `d` to the sum. */
  lemma {:induction false} SumAdd(s: seq<int>, t: int, d: int)
    requires 0 <= t < |s|
    ensures Sum(s[t := s[t] + d]) == Sum(s) + d
    decreases |s|
  {
    var last := |s| - 1;
    assert s[t := s[t] + d][..last] == if t < last then s[..last][t := s[t] + d] else s[..last];
    if t < last {
      SumAdd(s[..last], t, d);
    }
  }

  /** A series of non-negative counts has a non-negative sum. */
  lemma {:induction false} SumNonNegative(s: seq<int>)
    requires forall t :: 0 <= t < |s| ==> s[t] >= 0
    ensures Sum(s) >= 0
    decreases |s|
  {
    if |s| > 0 {
      SumNonNegative(s[..|s| - 1]);
    }
  }

  // =====================================================================
  // PhotonCount

  /** `n` copies of `x`. */
  function Repeat<T>(x: T, n: nat): (r: seq<T>)
    ensures |r| == n && forall i :: 0 <= i < n ==> r[i] == x
  {
    if n == 0 then [] else Repeat(x, n - 1) + [x]
  }

  /**
   * An `nPmtAcross` x `nPmtAcross` grid of pixels, each with a time series of
   * `nBins` photon counts, and the valid mask the constructor is given.
   */
  class PhotonCount {
    const nPmtAcross: nat
    const nBins: nat
    const startTime: real
    const timeBin: real
    const validPixels: seq<seq<bool>>
    var photonCounts: seq<seq<seq<int>>>

    /** The mask and the counts are square grids of the same size, every series has `nBins` bins, no count is negative. */
    ghost predicate Valid()
      reads this
    {
      && |validPixels| == nPmtAcross
      && (forall x :: 0 <= x < nPmtAcross ==> |validPixels[x]| == nPmtAcross)
      && |photonCounts| == nPmtAcross
      && (forall x :: 0 <= x < nPmtAcross ==> |photonCounts[x]| == nPmtAcross)
      && (forall x, y :: 0 <= x < nPmtAcross && 0 <= y < nPmtAcross ==> |photonCounts[x][y]| == nBins)
      && (forall x, y, t :: 0 <= x < nPmtAcross && 0 <= y < nPmtAcross && 0 <= t < nBins ==> photonCounts[x][y][t] >= 0)
    }

    predicate InGrid(x: int, y: int) {
      0 <= x < nPmtAcross && 0 <= y < nPmtAcross
    }

    constructor (nPmtAcross: nat, startTime: real, timeBin: real, nBins: nat, validPixels: seq<seq<bool>>)
      requires |validPixels| == nPmtAcross && forall x :: 0 <= x < nPmtAcross ==> |validPixels[x]| == nPmtAcross
      ensures Valid()
      ensures this.nPmtAcross == nPmtAcross && this.nBins == nBins && this.validPixels == validPixels
      ensures this.startTime == startTime && this.timeBin == timeBin
      ensures forall x, y, t :: InGrid(x, y) && 0 <= t < nBins ==> photonCounts[x][y][t] == 0
    {
      this.nPmtAcross, this.nBins := nPmtAcross, nBins;
      this.startTime, this.timeBin := startTime, timeBin;
      this.validPixels := validPixels;
      photonCounts := Repeat(Repeat(Repeat(0, nBins), nPmtAcross), nPmtAcross);
    }

    /** A valid pixel of the mask is a pixel of the grid. */
    lemma ValidPixelInGrid(p: Pixel)
      requires Valid() && IsValidPixel(validPixels, p)
      ensures InGrid(p.0, p.1)
    {
    }

    /** Whether a photon binned to pixel (x, y) and time bin `bin` is stored: both indices in range and the pixel valid. */
    predicate Accepts(x: int, y: int, bin: int) {
      InGrid(x, y) && 0 <= bin < nBins && x < |validPixels| && y < |validPixels[x]| && validPixels[x][y]
    }

    /** One more photon in bin `t` of pixel (x, y); every other cell is unchanged. */
    method Increment(x: int, y: int, t: int)
      requires Valid() && InGrid(x, y) && 0 <= t < nBins
      modifies this
      ensures Valid()
      ensures forall a, b :: InGrid(a, b) && (a, b) != (x, y) ==> photonCounts[a][b] == old(photonCounts[a][b])
      ensures forall t' :: 0 <= t' < nBins ==> photonCounts[x][y][t'] == old(photonCounts[x][y][t']) + if t' == t then 1 else 0
      ensures Sum(photonCounts[x][y]) == old(Sum(photonCounts[x][y])) + 1
    {
      SumAdd(photonCounts[x][y], t, 1);
      photonCounts := photonCounts[x := photonCounts[x][y := photonCounts[x][y][t := photonCounts[x][y][t] + 1]]];
    }

    /** Adds one photon at pixel (x, y), time bin `bin`; a photon outside the detector or on an invalid pixel is dropped. */
    method AddPhoton(x: int, y: int, bin: int)
      requires Valid()
      modifies this
      ensures Valid()
      ensures forall a, b, t :: InGrid(a, b) && 0 <= t < nBins ==>
                photonCounts[a][b][t] == old(photonCounts[a][b][t]) + if Accepts(x, y, bin) && (a, b, t) == (x, y, bin) then 1 else 0
      ensures Accepts(x, y, bin) ==> Sum(photonCounts[x][y]) == old(Sum(photonCounts[x][y])) + 1
    {
      if Accepts(x, y, bin) {
        Increment(x, y, bin);
      }
    }

    /**
     * Adds noise photons to the pixel the iterator is at. The random number
     * generator's choice of time bins is the input `bins`, one entry per noise
     * photon; only that pixel's series changes, and no count decreases.
     */
    method AddNoise(current: SignalIterator, bins: seq<int>)
      requires Valid() && InGrid(current.X(), current.Y())
      requires forall k :: 0 <= k < |bins| ==> 0 <= bins[k] < nBins
      modifies this
      ensures Valid()
      ensures forall a, b :: InGrid(a, b) && (a, b) != (current.X(), current.Y()) ==> photonCounts[a][b] == old(photonCounts[a][b])
      ensures forall t :: 0 <= t < nBins ==>
                photonCounts[current.X()][current.Y()][t] == old(photonCounts[current.X()][current.Y()][t]) + multiset(bins)[t]
      ensures Sum(photonCounts[current.X()][current.Y()]) == old(Sum(photonCounts[current.X()][current.Y()])) + |bins|
    {
      var x, y := current.X(), current.Y();
      for k := 0 to |bins|
        invariant Valid()
        invariant forall a, b :: InGrid(a, b) && (a, b) != (x, y) ==> photonCounts[a][b] == old(photonCounts[a][b])
        invariant forall t :: 0 <= t < nBins ==> photonCounts[x][y][t] == old(photonCounts[x][y][t]) + multiset(bins[..k])[t]
        invariant Sum(photonCounts[x][y]) == old(Sum(photonCounts[x][y])) + k
      {
        assert bins[..k + 1] == bins[..k] + [bins[k]];
        Increment(x, y, bins[k]);
      }
      assert bins[..|bins|] == bins;
    }

    /** The time series of the pixel the iterator is at. */
    function Signal(current: SignalIterator): seq<int>
      reads this, current
      requires Valid() && InGrid(current.X(), current.Y())
    {
      photonCounts[current.X()][current.Y()]
    }

    /** The total count of the pixel the iterator is at. */
    method SumBins(current: SignalIterator) returns (sum: int)
      requires Valid() && InGrid(current.X(), current.Y())
      ensures sum == Sum(Signal(current))
      ensures sum >= 0
    {
      var signal := photonCounts[current.X()][current.Y()];
      sum := 0;
      for t := 0 to |signal|
        invariant sum == Sum(signal[..t])
      {
        assert signal[..t + 1][..t] == signal[..t];
        sum := sum + signal[t];
      }
      assert signal[..|signal|] == signal;
      SumNonNegative(signal);
    }

    /** A fresh cursor, before the first valid pixel of this detector. */
    method Iterator() returns (iter: SignalIterator)
      ensures fresh(iter) && iter.validPixels == validPixels
      ensures iter.Valid() && iter.Remaining() == ScanOrder(validPixels)
    {
      iter := new SignalIterator(validPixels);
    }

    function NBins(): nat
      reads this
    {
      nBins
    }

    /** The time at the start of bin `i`. */
    function Time(i: int): real
      reads this
    {
      startTime + i as real * timeBin
    }
  }
}
