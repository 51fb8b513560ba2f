/**
 * The control logic of RayTracing/TTelescope.cpp: checking the constructor's
 * arguments, sampling a point of the mirror's aperture from the random
 * stream, the parabolic mirror's height, and the detect / skip / record
 * loops that turn a shower into raw hits. The rotations into and out of the
 * telescope frame and the propagation of rays are floating-point geometry:
 * their results come in as data.
 */
module Telescope {
  import opened Common
  import opened RawRecords
  import opened Camera

  // =====================================================================
  // Construction

  /** The two errors the constructor throws, one per checked argument. */
  datatype TelescopeError = InvalidMirrorShape | InvalidMirrorType

  /**
   * A telescope: mirror shape (0 circular aperture, 1 square aperture),
   * mirror type (0 spherical, 1 parabolic), radius of curvature, focal
   * length, the aperture's diameter, its orientation, its centre of
   * curvature and its camera.
   */
  datatype Telescope = Telescope(
    mirrorShape: int,
    mirrorType: int,
    radius: real,
    focalLength: real,
    crossDiameter: real,
    inclination: real,
    azimuth: real,
    centerOfCurvature: Vec3,
    camera: Camera)

  /**
   * The full constructor: the shape is checked first, then the type; a
   * valid telescope's aperture is the focal length over the f-number.
   */
  function NewTelescope(mirrorShape: int, mirrorType: int, radius: real, focalLength: real, fNumber: real,
                        inclination: real, azimuth: real, centerOfCurvature: Vec3, camera: Camera)
    : (r: Result<Telescope, TelescopeError>)
    requires fNumber != 0.0
    ensures r.Ok? <==> 0 <= mirrorShape <= 1 && 0 <= mirrorType <= 1
    ensures (mirrorShape < 0 || mirrorShape > 1) ==> r == Err(InvalidMirrorShape)
    ensures 0 <= mirrorShape <= 1 && (mirrorType < 0 || mirrorType > 1) ==> r == Err(InvalidMirrorType)
    ensures r.Ok? ==> r.value.crossDiameter * fNumber == focalLength
    ensures r.Ok? ==> r.value.mirrorShape == mirrorShape && r.value.mirrorType == mirrorType
    ensures r.Ok? ==> r.value.radius == radius && r.value.focalLength == focalLength
    ensures r.Ok? ==> r.value.camera == camera && r.value.centerOfCurvature == centerOfCurvature
    ensures r.Ok? ==> r.value.inclination == inclination && r.value.azimuth == azimuth
  {
    if mirrorShape < 0 || mirrorShape > 1 then Err(InvalidMirrorShape)
    else if mirrorType < 0 || mirrorType > 1 then Err(InvalidMirrorType)
    else Ok(Telescope(mirrorShape, mirrorType, radius, focalLength, focalLength / fNumber,
                      inclination, azimuth, centerOfCurvature, camera))
  }

  /** The short constructor: an upright telescope with its centre of curvature at the origin. */
  function NewUprightTelescope(mirrorShape: int, mirrorType: int, radius: real, focalLength: real, fNumber: real, camera: Camera)
    : (r: Result<Telescope, TelescopeError>)
    requires fNumber != 0.0
    ensures r.Ok? <==> 0 <= mirrorShape <= 1 && 0 <= mirrorType <= 1
    ensures r.Ok? ==> r.value.inclination == 0.0 && r.value.azimuth == 0.0 && r.value.centerOfCurvature == Origin
    ensures r.Ok? ==> r.value.crossDiameter * fNumber == focalLength
  {
    NewTelescope(mirrorShape, mirrorType, radius, focalLength, fNumber, 0.0, 0.0, Origin, camera)
  }

  // =====================================================================
  // Sampling the aperture

  /** A random draw in [0, 1] mapped onto the aperture's width: centred on 0 and scaled by the diameter. */
  function Scaled(draw: real, crossDiameter: real): real {
    (draw - 0.5) * crossDiameter
  }

  /** The disk acceptance test of the circular aperture. */
  predicate InDisk(x: real, y: real, crossDiameter: real) {
    x * x + y * y <= crossDiameter * crossDiameter / 4.0
  }

  /**
   * The rejection loop of the circular aperture: pairs of draws, taken in
   * order, until one pair lands in the disk. When the stream runs out
   * first (it never does for a real generator) there is no sample.
   */
  function DiskSample(draws: seq<real>, crossDiameter: real): (r: Option<(real, real)>)
    ensures r.Some? ==> InDisk(r.value.0, r.value.1, crossDiameter)
    decreases |draws|
  {
    if |draws| < 2 then None
    else
      var x, y := Scaled(draws[0], crossDiameter), Scaled(draws[1], crossDiameter);
      if InDisk(x, y, crossDiameter) then Some((x, y)) else DiskSample(draws[2..], crossDiameter)
  }

  /**
   * The sample the aperture takes from the stream `draws`: the rejection
   * loop for shape 0, exactly the first two draws for shape 1, and the
   * centre for any other shape (which the constructor rules out).
   */
  function ApertureSample(mirrorShape: int, crossDiameter: real, draws: seq<real>): Option<(real, real)> {
    if mirrorShape == 0 then DiskSample(draws, crossDiameter)
    else if mirrorShape == 1 then
      if |draws| < 2 then None else Some((Scaled(draws[0], crossDiameter), Scaled(draws[1], crossDiameter)))
    else Some((0.0, 0.0))
  }

  /** The random point of the aperture that GetMirrorImpact starts from, drawn from `draws`. */
  method SampleAperture(mirrorShape: int, crossDiameter: real, draws: seq<real>) returns (sample: Option<(real, real)>)
    ensures sample == ApertureSample(mirrorShape, crossDiameter, draws)
  {
    var xRandom, yRandom := 0.0, 0.0;
    if mirrorShape == 0 {
      var iterate := true;
      var i := 0;
      while iterate
        invariant 0 <= i <= |draws| && i % 2 == 0
        invariant iterate ==> DiskSample(draws[i..], crossDiameter) == DiskSample(draws, crossDiameter)
        invariant !iterate ==> Some((xRandom, yRandom)) == DiskSample(draws, crossDiameter)
        decreases |draws| - i, iterate
      {
        if |draws| - i < 2 {
          return None;
        }
        xRandom := Scaled(draws[i], crossDiameter);
        yRandom := Scaled(draws[i + 1], crossDiameter);
        assert draws[i..][2..] == draws[i + 2..];
        i := i + 2;
        if InDisk(xRandom, yRandom, crossDiameter) {
          iterate := false;
        }
      }
    } else if mirrorShape == 1 {
      if |draws| < 2 {
        return None;
      }
      xRandom := Scaled(draws[0], crossDiameter);
      yRandom := Scaled(draws[1], crossDiameter);
    }
    sample := Some((xRandom, yRandom));
  }

  /** Every draw lies in [0, 1]. */
  predicate UnitDraws(draws: seq<real>) {
    forall i :: 0 <= i < |draws| ==> 0.0 <= draws[i] <= 1.0
  }

  /** A draw in [0, 1] lands within half a diameter of the centre. */
  lemma ScaledBounds(draw: real, crossDiameter: real)
    requires 0.0 <= draw <= 1.0
    ensures Abs(Scaled(draw, crossDiameter)) <= Abs(crossDiameter) / 2.0
  {
    var u := draw - 0.5;
    AbsProduct(u, crossDiameter);
    MulBound(Abs(u), 0.5, Abs(crossDiameter));
  }

  /** A draw in [0, 1) with a positive diameter lands in [-D/2, D/2). */
  lemma ScaledHalfOpen(draw: real, crossDiameter: real)
    requires 0.0 <= draw < 1.0 && crossDiameter > 0.0
    ensures -crossDiameter / 2.0 <= Scaled(draw, crossDiameter) < crossDiameter / 2.0
  {
    var u := draw - 0.5;
    MulStrict(u, 0.5, crossDiameter);
    MulBound(-0.5, u, crossDiameter);
  }

  lemma AbsProduct(a: real, b: real)
    ensures Abs(a * b) == Abs(a) * Abs(b)
  {
    if a < 0.0 {
      if b < 0.0 {
        assert a * b == (-a) * (-b);
      } else {
        assert -(a * b) == (-a) * b;
      }
    } else if b < 0.0 {
      assert -(a * b) == a * (-b);
    }
  }

  lemma MulBound(a: real, b: real, c: real)
    requires a <= b && c >= 0.0
    ensures a * c <= b * c
  {
    assert (b - a) * c >= 0.0;
  }

  lemma MulStrict(a: real, b: real, c: real)
    requires a < b && c > 0.0
    ensures a * c < b * c
  {
    assert (b - a) * c > 0.0;
  }

  /** Both coordinates of any sample lie within half a diameter of the aperture's centre. */
  lemma {:induction false} SampleBounds(mirrorShape: int, crossDiameter: real, draws: seq<real>)
    requires UnitDraws(draws)
    ensures var s := ApertureSample(mirrorShape, crossDiameter, draws);
            s.Some? ==> Abs(s.value.0) <= Abs(crossDiameter) / 2.0 && Abs(s.value.1) <= Abs(crossDiameter) / 2.0
  {
    if mirrorShape == 0 {
      DiskSampleBounds(draws, crossDiameter);
    } else if mirrorShape == 1 && |draws| >= 2 {
      ScaledBounds(draws[0], crossDiameter);
      ScaledBounds(draws[1], crossDiameter);
    }
  }

  lemma {:induction false} DiskSampleBounds(draws: seq<real>, crossDiameter: real)
    requires UnitDraws(draws)
    ensures var s := DiskSample(draws, crossDiameter);
            s.Some? ==> Abs(s.value.0) <= Abs(crossDiameter) / 2.0 && Abs(s.value.1) <= Abs(crossDiameter) / 2.0
    decreases |draws|
  {
    if |draws| >= 2 {
      ScaledBounds(draws[0], crossDiameter);
      ScaledBounds(draws[1], crossDiameter);
      var rest := draws[2..];
      assert forall i :: 0 <= i < |rest| ==> rest[i] == draws[i + 2];
      DiskSampleBounds(rest, crossDiameter);
    }
  }

  /** Every draw lies in [0, 1). */
  predicate HalfOpenDraws(draws: seq<real>) {
    forall i :: 0 <= i < |draws| ==> 0.0 <= draws[i] < 1.0
  }

  /** With draws in [0, 1) and a positive diameter, both coordinates of any sample lie in [-D/2, D/2). */
  lemma {:induction false} SampleHalfOpen(mirrorShape: int, crossDiameter: real, draws: seq<real>)
    requires HalfOpenDraws(draws) && crossDiameter > 0.0
    ensures var s := ApertureSample(mirrorShape, crossDiameter, draws);
            s.Some? ==> && -crossDiameter / 2.0 <= s.value.0 < crossDiameter / 2.0
                        && -crossDiameter / 2.0 <= s.value.1 < crossDiameter / 2.0
  {
    if mirrorShape == 0 {
      DiskSampleHalfOpen(draws, crossDiameter);
    } else if mirrorShape == 1 && |draws| >= 2 {
      ScaledHalfOpen(draws[0], crossDiameter);
      ScaledHalfOpen(draws[1], crossDiameter);
    }
  }

  lemma {:induction false} DiskSampleHalfOpen(draws: seq<real>, crossDiameter: real)
    requires HalfOpenDraws(draws) && crossDiameter > 0.0
    ensures var s := DiskSample(draws, crossDiameter);
            s.Some? ==> && -crossDiameter / 2.0 <= s.value.0 < crossDiameter / 2.0
                        && -crossDiameter / 2.0 <= s.value.1 < crossDiameter / 2.0
    decreases |draws|
  {
    if |draws| >= 2 {
      ScaledHalfOpen(draws[0], crossDiameter);
      ScaledHalfOpen(draws[1], crossDiameter);
      var rest := draws[2..];
      assert forall i :: 0 <= i < |rest| ==> rest[i] == draws[i + 2];
      DiskSampleHalfOpen(rest, crossDiameter);
    }
  }

  /** The circular aperture only ever yields points of its disk. */
  lemma CircularSampleInDisk(crossDiameter: real, draws: seq<real>)
    ensures var s := ApertureSample(0, crossDiameter, draws);
            s.Some? ==> InDisk(s.value.0, s.value.1, crossDiameter)
  {
  }

  // =====================================================================
  // Mirror surface

  /** The height of the parabolic mirror at aperture point (x, y), relative to its centre of curvature. */
  function ParabolicHeight(radius: real, x: real, y: real): real
    requires radius != 0.0
  {
    -radius + (x * x / (2.0 * radius) + y * y / (2.0 * radius))
  }

  /**
   * The point lies on the paraboloid 2R (z + R) = x^2 + y^2, whose vertex is
   * at -R; on a mirror with a positive radius it never dips below the vertex.
   */
  lemma ParabolicSurface(radius: real, x: real, y: real)
    requires radius != 0.0
    ensures 2.0 * radius * (ParabolicHeight(radius, x, y) + radius) == x * x + y * y
    ensures ParabolicHeight(radius, 0.0, 0.0) == -radius
    ensures radius > 0.0 ==> ParabolicHeight(radius, x, y) >= -radius
  {
    var h := ParabolicHeight(radius, x, y);
    calc {
      2.0 * radius * (h + radius);
      2.0 * radius * (x * x / (2.0 * radius) + y * y / (2.0 * radius));
      2.0 * radius * (x * x / (2.0 * radius)) + 2.0 * radius * (y * y / (2.0 * radius));
      x * x + y * y;
    }
    if radius > 0.0 {
      assert x * x >= 0.0 && y * y >= 0.0;
      assert x * x / (2.0 * radius) >= 0.0 && y * y / (2.0 * radius) >= 0.0;
    }
  }

  // =====================================================================
  // Detection

  /**
   * One photon of a pass, as the optics leave it (frame changes included):
   * where its ray first crosses the focal plane, on its way to the mirror,
   * and where it lands on the focal plane after the reflection.
   */
  datatype PhotonPath = PhotonPath(crossing: Vec3, landing: Vec3)

  /**
   * The detection of one photon: none when the camera's collision test at
   * the first crossing is true, the landing point otherwise.
   */
  function RayDetection(camera: Camera, path: PhotonPath): (r: Option<Vec3>)
    ensures r.None? <==> !camera.transparent && Abs(path.crossing.x) <= camera.width / 2.0 && Abs(path.crossing.y) <= camera.height / 2.0
    ensures r.Some? ==> r.value == path.landing
  {
    if camera.CheckCollision(path.crossing) then None else Some(path.landing)
  }

  /** The hits one pass records at shower time `time`: one per photon not stopped by the camera, in order. */
  function Recorded(camera: Camera, paths: seq<PhotonPath>, time: real): seq<RawPoint> {
    if |paths| == 0 then []
    else
      var n := |paths| - 1;
      Recorded(camera, paths[..n], time) + match RayDetection(camera, paths[n])
                                           case None => []
                                           case Some(p) => [RawPoint(p.x, p.y, time)]
  }

  /**
   * What a pass records: at most one hit per photon, every hit stamped with
   * the shower's time, and a landing point is recorded exactly when some
   * photon that reaches it is not stopped by the camera.
   */
  lemma {:induction false} RecordedHits(camera: Camera, paths: seq<PhotonPath>, time: real)
    ensures |Recorded(camera, paths, time)| <= |paths|
    ensures forall h :: h in Recorded(camera, paths, time) ==> h.t == time
    ensures forall h :: h in Recorded(camera, paths, time) <==>
              exists k :: 0 <= k < |paths| && RayDetection(camera, paths[k]) == Some(Vec3(h.x, h.y, paths[k].landing.z)) && h.t == time
  {
    if |paths| > 0 {
      var n := |paths| - 1;
      var front := paths[..n];
      RecordedHits(camera, front, time);
      forall h
        ensures h in Recorded(camera, paths, time) <==>
                exists k :: 0 <= k < |paths| && RayDetection(camera, paths[k]) == Some(Vec3(h.x, h.y, paths[k].landing.z)) && h.t == time
      {
        if h in Recorded(camera, paths, time) {
          if h in Recorded(camera, front, time) {
            var k :| 0 <= k < |front| && RayDetection(camera, front[k]) == Some(Vec3(h.x, h.y, front[k].landing.z)) && h.t == time;
            assert paths[k] == front[k];
          } else {
            assert RayDetection(camera, paths[n]) == Some(Vec3(h.x, h.y, paths[n].landing.z));
          }
        }
        if exists k :: 0 <= k < |paths| && RayDetection(camera, paths[k]) == Some(Vec3(h.x, h.y, paths[k].landing.z)) && h.t == time {
          var k :| 0 <= k < |paths| && RayDetection(camera, paths[k]) == Some(Vec3(h.x, h.y, paths[k].landing.z)) && h.t == time;
          if k < n {
            assert front[k] == paths[k];
          }
        }
      }
    }
  }

  /** Through a transparent camera every photon is recorded. */
  lemma {:induction false} TransparentRecordsAll(camera: Camera, paths: seq<PhotonPath>, time: real)
    requires camera.transparent
    ensures |Recorded(camera, paths, time)| == |paths|
  {
    if |paths| > 0 {
      TransparentRecordsAll(camera, paths[..|paths| - 1], time);
    }
  }

  /** One pass over the shower's photons at shower time `time`, appending to `data`. */
  method ViewPointPrivate(telescope: Telescope, paths: seq<PhotonPath>, time: real, data: RawData)
    modifies data
    ensures data.points == old(data.points) + Recorded(telescope.camera, paths, time)
  {
    for i := 0 to |paths|
      invariant data.points == old(data.points) + Recorded(telescope.camera, paths[..i], time)
    {
      assert paths[..i + 1][..i] == paths[..i];
      var planeDetection := RayDetection(telescope.camera, paths[i]);
      if planeDetection.None? {
        continue;
      }
      var position := planeDetection.value;
      data.PushBack(position.x, position.y, time);
    }
    assert paths[..|paths|] == paths;
  }

  /** A pass of the shower: its time and its photons. */
  datatype Pass = Pass(time: real, paths: seq<PhotonPath>)

  /** The hits of consecutive passes, pass after pass. */
  function AllRecorded(camera: Camera, passes: seq<Pass>): seq<RawPoint> {
    if |passes| == 0 then []
    else
      var last := passes[|passes| - 1];
      AllRecorded(camera, passes[..|passes| - 1]) + Recorded(camera, last.paths, last.time)
  }

  /** Every hit of a view carries the time of one of its passes. */
  lemma {:induction false} AllRecordedTimes(camera: Camera, passes: seq<Pass>)
    ensures forall h :: h in AllRecorded(camera, passes) ==> exists k :: 0 <= k < |passes| && h.t == passes[k].time
  {
    if |passes| > 0 {
      var n := |passes| - 1;
      AllRecordedTimes(camera, passes[..n]);
      RecordedHits(camera, passes[n].paths, passes[n].time);
      forall h | h in AllRecorded(camera, passes)
        ensures exists k :: 0 <= k < |passes| && h.t == passes[k].time
      {
        if h in AllRecorded(camera, passes[..n]) {
          var k :| 0 <= k < n && h.t == passes[..n][k].time;
          assert passes[k] == passes[..n][k];
        } else {
          assert h.t == passes[n].time;
        }
      }
    }
  }

  /**
   * Clears `data`, then views the shower NumberOfSteps times, pass `i`
   * being `passes[i]` (the shower moved forward by `timeDelay` between
   * passes). A negative step count leaves `data` empty.
   */
  method ViewShower(telescope: Telescope, timeToPlane: real, timeDelay: real, passes: seq<Pass>, data: RawData)
    requires timeDelay != 0.0
    requires |passes| >= NumberOfSteps(timeToPlane, timeDelay)
    modifies data
    ensures data.points == AllRecorded(telescope.camera, passes[..Passes(NumberOfSteps(timeToPlane, timeDelay))])
  {
    data.Clear();
    var numberOfSteps := NumberOfSteps(timeToPlane, timeDelay);
    var i := 0;
    while i < numberOfSteps
      invariant 0 <= i <= Passes(numberOfSteps)
      invariant data.points == AllRecorded(telescope.camera, passes[..i])
    {
      assert passes[..i + 1][..i] == passes[..i];
      ViewPointPrivate(telescope, passes[i].paths, passes[i].time, data);
      i := i + 1;
    }
  }

  /** Clears `data`, then views the shower once. */
  method ViewPoint(telescope: Telescope, pass: Pass, data: RawData)
    modifies data
    ensures data.points == Recorded(telescope.camera, pass.paths, pass.time)
  {
    data.Clear();
    ViewPointPrivate(telescope, pass.paths, pass.time, data);
  }
}
