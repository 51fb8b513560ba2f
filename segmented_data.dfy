/**
 * The segmented time store of RayTracing/TSegmentedData.cpp: one list of
 * times per bin, appended to one time at a time, together with the running
 * earliest and latest time.
 */
module SegmentedData {

  class SegmentedData {
    var segments: seq<seq<real>>
    var minTime: real
    var maxTime: real

    /** Every stored time lies between the running earliest and latest time. */
    ghost predicate Bounded()
      reads this
    {
      forall b, k :: 0 <= b < |segments| && 0 <= k < |segments[b]| ==> minTime <= segments[b][k] <= maxTime
    }

    /**
     * `nBins` empty segments. The earliest and latest times are left
     * unset in the source, so they come in as parameters here.
     */
    constructor (nBins: int, minTime: real, maxTime: real)
      requires nBins >= 0
      ensures |segments| == nBins
      ensures forall b :: 0 <= b < nBins ==> segments[b] == []
      ensures this.minTime == minTime && this.maxTime == maxTime
      ensures Bounded()
    {
      var s: seq<seq<real>> := [];
      for i := 0 to nBins
        invariant |s| == i && forall b :: 0 <= b < i ==> s[b] == []
      {
        s := s + [[]];
      }
      segments := s;
      this.minTime, this.maxTime := minTime, maxTime;
    }

    /**
     * Appends `time` to the end of segment `bin`, leaving the other segments
     * alone, and widens the earliest and latest times to cover it. The bin is
     * not checked in the source.
     */
    method AddPoint(time: real, bin: int)
      requires 0 <= bin < |segments|
      modifies this
      ensures segments == old(segments)[bin := old(segments)[bin] + [time]]
      ensures maxTime == if time > old(maxTime) then time else old(maxTime)
      ensures minTime == if time < old(minTime) then time else old(minTime)
      ensures minTime <= time <= maxTime
      ensures minTime <= old(minTime) && old(maxTime) <= maxTime
      ensures old(Bounded()) ==> Bounded()
    {
      segments := segments[bin := segments[bin] + [time]];
      if time > maxTime {
        maxTime := time;
      }
      if time < minTime {
        minTime := time;
      }
    }

    /** The running earliest time: no stored time is earlier while the store is bounded. */
    function MinTime(): (r: real)
      reads this
      ensures Bounded() ==> forall b, k :: 0 <= b < |segments| && 0 <= k < |segments[b]| ==> r <= segments[b][k]
    {
      minTime
    }

    /** The running latest time: no stored time is later while the store is bounded. */
    function MaxTime(): (r: real)
      reads this
      ensures Bounded() ==> forall b, k :: 0 <= b < |segments| && 0 <= k < |segments[b]| ==> segments[b][k] <= r
    {
      maxTime
    }

    function NBins(): nat
      reads this
    {
      |segments|
    }

    /** The times of one bin, each between the running earliest and latest time while the store is bounded. */
    function Segment(bin: int): (r: seq<real>)
      reads this
      requires 0 <= bin < |segments|
      ensures Bounded() ==> forall k :: 0 <= k < |r| ==> minTime <= r[k] <= maxTime
    {
      segments[bin]
    }
  }
}
