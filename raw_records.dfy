/**
 * The raw readout of a detector: a list of hits, each a position on the
 * focal plane and a time. Both telescope models append to it and the camera
 * bins it. TRawData itself is not part of this model; only the operations
 * its callers use are given here, with the obvious list semantics.
 */
module RawRecords {

  /** One recorded hit: where it landed on the focal plane and when. */
  datatype RawPoint = RawPoint(x: real, y: real, t: real)

  class RawData {
    var points: seq<RawPoint>

    constructor ()
      ensures points == []
    {
      points := [];
    }

    function Size(): nat
      reads this
    {
      |points|
    }

    method PushBack(x: real, y: real, t: real)
      modifies this
      ensures points == old(points) + [RawPoint(x, y, t)]
    {
      points := points + [RawPoint(x, y, t)];
    }

    method Clear()
      modifies this
      ensures points == []
    {
      points := [];
    }
  }
}
