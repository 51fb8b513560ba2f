/**
 * The control logic of CherenkovSimulator/TObservatory.cpp: viewing a
 * shower photon by photon and step by step, and the two exhaustive grid
 * searches of the reconstruction (the shower-detector plane, then the impact
 * parameter and shower angle). The optics and the trigonometry are
 * floating-point geometry and come in as data; what is modelled is which
 * photons are recorded and which grid candidate each search keeps.
 */
module Observatory {
  import opened Common
  import opened RawRecords
  import opened SegmentedData

  /** TMath::Pi() as a double. */
  const Pi: real := 3.141592653589793

  /** Where both searches start their best value: any cost below it is an improvement. */
  const Unbeaten: real := 1e300

  // =====================================================================
  // Viewing a shower

  /**
   * One photon of the shower as the optics leave it: whether the camera
   * blocks its ray on the way to the mirror, and the hit (position on the
   * focal plane and the ray's time) it leaves otherwise. The camera this
   * program uses is CherenkovSimulator/TCamera.hpp, of which only the
   * declarations exist, so its collision test comes in as `blocked`.
   */
  datatype Photon = Photon(blocked: bool, hit: RawPoint)

  /** The hits of the photons the camera does not block, in order. */
  function Detected(photons: seq<Photon>): (r: seq<RawPoint>)
    ensures |r| <= |photons|
  {
    if |photons| == 0 then []
    else
      var p := photons[|photons| - 1];
      Detected(photons[..|photons| - 1]) + if p.blocked then [] else [p.hit]
  }

  /** A hit is recorded exactly when some unblocked photon leaves it. */
  lemma {:induction false} DetectedMembers(photons: seq<Photon>, h: RawPoint)
    ensures h in Detected(photons) <==> exists k :: 0 <= k < |photons| && !photons[k].blocked && photons[k].hit == h
    decreases |photons|
  {
    if |photons| > 0 {
      var front := photons[..|photons| - 1];
      DetectedMembers(front, h);
      if exists k :: 0 <= k < |front| && !front[k].blocked && front[k].hit == h {
        var k :| 0 <= k < |front| && !front[k].blocked && front[k].hit == h;
        assert photons[k] == front[k];
      }
      if exists k :: 0 <= k < |photons| && !photons[k].blocked && photons[k].hit == h {
        var k :| 0 <= k < |photons| && !photons[k].blocked && photons[k].hit == h;
        if k < |front| {
          assert front[k] == photons[k];
        }
      }
    }
  }

  /**
   * One pass over the shower's photons (as many as its intensity): a photon
   * the camera blocks is skipped, any other appends its hit to `rawData`.
   */
  method ViewPointPrivate(photons: seq<Photon>, rawData: RawData)
    modifies rawData
    ensures rawData.points == old(rawData.points) + Detected(photons)
  {
    for i := 0 to |photons|
      invariant rawData.points == old(rawData.points) + Detected(photons[..i])
    {
      assert photons[..i + 1][..i] == photons[..i];
      if photons[i].blocked {
        continue;
      }
      rawData.PushBack(photons[i].hit.x, photons[i].hit.y, photons[i].hit.t);
    }
    assert photons[..|photons|] == photons;
  }

  /** A fresh readout of one pass. */
  method ViewPoint(photons: seq<Photon>) returns (rawData: RawData)
    ensures fresh(rawData) && rawData.points == Detected(photons)
  {
    rawData := new RawData();
    ViewPointPrivate(photons, rawData);
  }

  /** The hits recorded over consecutive passes, pass after pass. */
  function AllDetected(steps: seq<seq<Photon>>): (r: seq<RawPoint>)
    ensures |r| <= TotalPhotons(steps)
  {
    if |steps| == 0 then [] else AllDetected(steps[..|steps| - 1]) + Detected(steps[|steps| - 1])
  }

  /** The shower's intensities added over the passes. */
  function TotalPhotons(steps: seq<seq<Photon>>): nat {
    if |steps| == 0 then 0 else TotalPhotons(steps[..|steps| - 1]) + |steps[|steps| - 1]|
  }

  /**
   * Views the whole shower into a fresh readout: NumberOfSteps passes, the
   * shower moved forward by `timeDelay` between them. Pass `i` sees the
   * photons `steps[i]`; a negative step count makes no pass.
   */
  method ViewShower(timeToPlane: real, timeDelay: real, steps: seq<seq<Photon>>) returns (rawData: RawData)
    requires timeDelay != 0.0
    requires |steps| >= NumberOfSteps(timeToPlane, timeDelay)
    ensures fresh(rawData)
    ensures rawData.points == AllDetected(steps[..Passes(NumberOfSteps(timeToPlane, timeDelay))])
  {
    rawData := new RawData();
    var numberOfSteps := NumberOfSteps(timeToPlane, timeDelay);
    var i := 0;
    while i < numberOfSteps
      invariant 0 <= i <= Passes(numberOfSteps)
      invariant fresh(rawData)
      invariant rawData.points == AllDetected(steps[..i])
    {
      assert steps[..i + 1][..i] == steps[..i];
      ViewPointPrivate(steps[i], rawData);
      i := i + 1;
    }
  }

  // =====================================================================
  // First strict minimum below a bound

  /**
   * What a search through `costs` that starts from `bound` and replaces its
   * candidate on a strict `<` ends with: nothing when no cost goes below the
   * bound, otherwise the first index of the least cost.
   */
  predicate FirstBelow(costs: seq<real>, bound: real, best: Option<int>) {
    match best
    case None => forall c :: 0 <= c < |costs| ==> costs[c] >= bound
    case Some(m) => FirstMinimum(costs, m) && costs[m] < bound
  }

  /** The search's outcome is determined by the costs. */
  lemma FirstBelowUnique(costs: seq<real>, bound: real, best: Option<int>, best': Option<int>)
    requires FirstBelow(costs, bound, best) && FirstBelow(costs, bound, best')
    ensures best == best'
  {
    if best.Some? && best'.Some? {
      FirstMinimumUnique(costs, best.value, best'.value);
    }
  }

  /** The search state after the first `n` candidates, with `bestCost` the value it compares against. */
  ghost predicate SearchedUpTo(costs: seq<real>, n: int, bound: real, best: Option<int>, bestCost: real) {
    && 0 <= n <= |costs|
    && match best
       case None => bestCost == bound && forall c :: 0 <= c < n ==> costs[c] >= bound
       case Some(m) =>
         && 0 <= m < n && bestCost == costs[m] < bound
         && (forall c :: 0 <= c < n ==> costs[m] <= costs[c])
         && (forall c :: 0 <= c < m ==> costs[m] < costs[c])
  }

  lemma SearchStart(costs: seq<real>, bound: real)
    ensures SearchedUpTo(costs, 0, bound, None, bound)
  {
  }

  /** Looking at candidate `n`: it becomes the best exactly when it is strictly cheaper. */
  lemma SearchStep(costs: seq<real>, n: int, bound: real, best: Option<int>, bestCost: real)
    requires SearchedUpTo(costs, n, bound, best, bestCost) && n < |costs|
    ensures costs[n] < bestCost ==> SearchedUpTo(costs, n + 1, bound, Some(n), costs[n])
    ensures costs[n] >= bestCost ==> SearchedUpTo(costs, n + 1, bound, best, bestCost)
  {
  }

  lemma SearchEnd(costs: seq<real>, bound: real, best: Option<int>, bestCost: real)
    requires SearchedUpTo(costs, |costs|, bound, best, bestCost)
    ensures FirstBelow(costs, bound, best)
  {
  }

  // =====================================================================
  // ApproximateShowerPlane

  /** How many values theta = 0, 1, 2, ... takes while theta <= Pi. */
  const ThetaCount: int := 4
  /** How many values phi = -Pi, -Pi + 1, ... takes while phi <= Pi. */
  const PhiCount: int := 7

  /**
   * A candidate normal: the zenith (0, 0, 1) rotated by `theta` about x and
   * then by `phi` about z. `Zenith` is the normal the search keeps when no
   * candidate beats its start value.
   */
  datatype Normal = Zenith | Rotated(theta: real, phi: real)

  /** A plane given by its normal and a point on it. */
  datatype Plane = Plane(normal: Normal, point: Vec3)

  /** Candidate `c` of the plane search, in loop order: theta outer, phi inner. */
  function PlaneCandidate(c: int): Normal {
    Rotated((c / PhiCount) as real, -Pi + (c % PhiCount) as real)
  }

  /**
   * `alignment[t][p][i]` is the dot product of candidate (theta t, phi p)
   * with the viewing direction of bin i: floating-point geometry, supplied.
   */
  predicate AlignmentShape(alignment: seq<seq<seq<real>>>, nBins: int) {
    && |alignment| == ThetaCount
    && (forall t :: 0 <= t < ThetaCount ==> |alignment[t]| == PhiCount)
    && (forall t, p :: 0 <= t < ThetaCount && 0 <= p < PhiCount ==> |alignment[t][p]| == nBins)
  }

  /** The plane score of one candidate: alignment with each bin's direction, weighted by the bin's number of times. */
  function WeightedCount(alignment: seq<real>, segments: seq<seq<real>>): real
    requires |alignment| == |segments|
  {
    if |segments| == 0 then 0.0
    else
      var n := |segments| - 1;
      WeightedCount(alignment[..n], segments[..n]) + alignment[n] * |segments[n]| as real
  }

  /** The scores of the first `n` plane candidates, in loop order. */
  function PlaneCosts(alignment: seq<seq<seq<real>>>, segments: seq<seq<real>>, n: nat): (r: seq<real>)
    requires AlignmentShape(alignment, |segments|) && n <= ThetaCount * PhiCount
    ensures |r| == n
    ensures forall c :: 0 <= c < n ==> r[c] == WeightedCount(alignment[c / PhiCount][c % PhiCount], segments)
  {
    if n == 0 then []
    else PlaneCosts(alignment, segments, n - 1) + [WeightedCount(alignment[(n - 1) / PhiCount][(n - 1) % PhiCount], segments)]
  }

  /**
   * The scan over candidate normals: keeps the first candidate with the
   * least score, or the zenith if no score goes below the start value, and
   * returns the plane through the origin with that normal.
   */
  method ApproximateShowerPlane(data: SegmentedData, alignment: seq<seq<seq<real>>>) returns (plane: Plane)
    requires AlignmentShape(alignment, |data.segments|)
    ensures plane.point == Origin
    ensures exists best :: FirstBelow(PlaneCosts(alignment, data.segments, ThetaCount * PhiCount), Unbeaten, best)
                           && plane.normal == KeptNormal(best)
  {
    ghost var costs := PlaneCosts(alignment, data.segments, ThetaCount * PhiCount);
    ghost var best: Option<int> := None;
    var bestNormal := Zenith;
    var bestSquare := Unbeaten;
    SearchStart(costs, Unbeaten);
    var t := 0;
    while t as real <= Pi
      invariant 0 <= t <= ThetaCount
      invariant SearchedUpTo(costs, t * PhiCount, Unbeaten, best, bestSquare)
      invariant bestNormal == KeptNormal(best)
      decreases ThetaCount - t
    {
      var p := 0;
      while -Pi + p as real <= Pi
        invariant 0 <= p <= PhiCount
        invariant SearchedUpTo(costs, t * PhiCount + p, Unbeaten, best, bestSquare)
        invariant bestNormal == KeptNormal(best)
        decreases PhiCount - p
      {
        best, bestSquare, bestNormal := PlaneStep(data.segments, alignment, t, p, costs, best, bestSquare, bestNormal);
        p := p + 1;
      }
      t := t + 1;
    }
    SearchEnd(costs, Unbeaten, best, bestSquare);
    plane := Plane(bestNormal, Origin);
  }

  /** The normal the plane search reports for the search outcome `best`: the candidate, or the zenith when none was kept. */
  function KeptNormal(best: Option<int>): Normal {
    if best.Some? then PlaneCandidate(best.value) else Zenith
  }

  /** The body of the plane search's inner loop: candidate (`t`, `p`) replaces the best one when its score is strictly less. */
  method PlaneStep(segments: seq<seq<real>>, alignment: seq<seq<seq<real>>>, t: int, p: int,
                   ghost costs: seq<real>, ghost best0: Option<int>, bestSquare0: real, bestNormal0: Normal)
    returns (ghost best: Option<int>, bestSquare: real, bestNormal: Normal)
    requires AlignmentShape(alignment, |segments|) && 0 <= t < ThetaCount && 0 <= p < PhiCount
    requires costs == PlaneCosts(alignment, segments, ThetaCount * PhiCount)
    requires SearchedUpTo(costs, t * PhiCount + p, Unbeaten, best0, bestSquare0)
    requires bestNormal0 == KeptNormal(best0)
    ensures SearchedUpTo(costs, t * PhiCount + p + 1, Unbeaten, best, bestSquare)
    ensures bestNormal == KeptNormal(best)
  {
    best, bestSquare, bestNormal := best0, bestSquare0, bestNormal0;
    var squareSum := PlaneScore(alignment[t][p], segments);
    ghost var c := t * PhiCount + p;
    FlatIndex(t, p, PhiCount);
    SearchStep(costs, c, Unbeaten, best, bestSquare);
    if squareSum < bestSquare {
      bestSquare := squareSum;
      bestNormal := Rotated(t as real, -Pi + p as real);
      best := Some(c);
    }
  }

  /** The inner loop of the plane search: one candidate's score, bin by bin. */
  method PlaneScore(alignment: seq<real>, segments: seq<seq<real>>) returns (squareSum: real)
    requires |alignment| == |segments|
    ensures squareSum == WeightedCount(alignment, segments)
  {
    squareSum := 0.0;
    for i := 0 to |segments|
      invariant squareSum == WeightedCount(alignment[..i], segments[..i])
    {
      assert alignment[..i + 1][..i] == alignment[..i];
      assert segments[..i + 1][..i] == segments[..i];
      squareSum := squareSum + alignment[i] * |segments[i]| as real;
    }
    assert alignment[..|segments|] == alignment && segments[..|segments|] == segments;
  }

  // =====================================================================
  // ReconstructShower

  /** How many values showerAngle = 0, 1, 2, ... takes while showerAngle < Pi. */
  const AngleCount: int := 4
  /** How many values impactParam = 0, 100, 200, ... takes while impactParam < 100000. */
  const ImpactCount: int := 1000

  /** The sum of a list of times (TUtility::SumArray). */
  function RealSum(s: seq<real>): real {
    if |s| == 0 then 0.0 else RealSum(s[..|s| - 1]) + s[|s| - 1]
  }

  /** The mean time of each bin; every bin must hold at least one time. */
  method Averages(segments: seq<seq<real>>) returns (averages: seq<real>)
    requires forall i :: 0 <= i < |segments| ==> |segments[i]| > 0
    ensures |averages| == |segments|
    ensures forall i :: 0 <= i < |segments| ==> averages[i] * |segments[i]| as real == RealSum(segments[i])
  {
    averages := [];
    for i := 0 to |segments|
      invariant |averages| == i
      invariant forall i' :: 0 <= i' < i ==> averages[i'] * |segments[i']| as real == RealSum(segments[i'])
    {
      averages := averages + [RealSum(segments[i]) / |segments[i]| as real];
    }
  }

  /** The distance of each bin's angle from `target`. */
  function Distances(angles: seq<real>, target: real): (r: seq<real>)
    ensures |r| == |angles|
    ensures forall i :: 0 <= i < |angles| ==> r[i] == Abs(angles[i] - target)
  {
    if |angles| == 0 then [] else Distances(angles[..|angles| - 1], target) + [Abs(angles[|angles| - 1] - target)]
  }

  /** The first index of a least value, as a left-to-right scan with `<` finds it. */
  function Nearest(d: seq<real>): (m: int)
    requires |d| > 0
    ensures FirstMinimum(d, m)
  {
    if |d| == 1 then 0
    else
      var m := Nearest(d[..|d| - 1]);
      if d[|d| - 1] < d[m] then |d| - 1 else m
  }

  /** The bin whose angle is nearest `target`, the first one on ties. */
  method NearestIndex(angles: seq<real>, target: real) returns (nearestIndex: int)
    requires |angles| > 0
    ensures nearestIndex == Nearest(Distances(angles, target))
  {
    ghost var d := Distances(angles, target);
    nearestIndex := 0;
    for i := 0 to |angles|
      invariant 0 <= nearestIndex < |angles|
      invariant i > 0 ==> FirstMinimum(d[..i], nearestIndex)
      invariant i == 0 ==> nearestIndex == 0
    {
      if Abs(angles[i] - target) < Abs(angles[nearestIndex] - target) {
        nearestIndex := i;
      }
    }
    assert d[..|angles|] == d;
    FirstMinimumUnique(d, nearestIndex, Nearest(d));
  }

  /**
   * The misfit of one candidate: for each bin, the time the candidate
   * predicts (the anchor time `t0` plus impact / light speed × the bin's
   * tangent term) minus the bin's mean time, squared and added up.
   */
  function SquareSum(t0: real, slope: real, tangents: seq<real>, averages: seq<real>): (r: real)
    requires |tangents| == |averages|
    ensures r >= 0.0
  {
    if |averages| == 0 then 0.0
    else
      var n := |averages| - 1;
      SquareSum(t0, slope, tangents[..n], averages[..n]) + SquaredDeviation(t0, slope, tangents[n], averages[n])
  }

  /** One bin's term of the misfit: (predicted time - mean time) squared. */
  function SquaredDeviation(t0: real, slope: real, tangent: real, average: real): (r: real)
    ensures r >= 0.0
  {
    var e := t0 + slope * tangent - average;
    e * e
  }

  /**
   * `tangents[a][i]` is tan((Pi - a - angles[i]) / 2), one row per shower
   * angle a = 0 .. 3: floating-point trigonometry, supplied.
   */
  predicate FitShape(averages: seq<real>, angles: seq<real>, tangents: seq<seq<real>>) {
    && |averages| == |angles| > 0
    && |tangents| == AngleCount
    && forall a :: 0 <= a < AngleCount ==> |tangents[a]| == |averages|
  }

  /** Candidate `c` of the fit, in loop order (impact outer, angle inner): its impact parameter and shower angle. */
  function FitCandidate(c: int): (real, real) {
    (100.0 * (c / AngleCount) as real, (c % AngleCount) as real)
  }

  /** The pair the fit reports for the search outcome `best`: the candidate's values, or (0, 0) when none was kept. */
  function Reported(best: Option<int>): (real, real) {
    if best.Some? then FitCandidate(best.value) else (0.0, 0.0)
  }

  /** Candidate `c` of the fit is impact parameter `100 k` with shower angle `a`. */
  lemma CandidateIndex(k: int, a: int, c: int)
    requires 0 <= k && 0 <= a < AngleCount && c == k * AngleCount + a
    ensures c / AngleCount == k && c % AngleCount == a
    ensures Reported(Some(c)) == (100.0 * k as real, a as real)
  {
    FlatIndex(k, a, AngleCount);
  }

  /** The angle at which a shower with shower angle `showerAngle` passes closest to the telescope. */
  function ImpactAngle(showerAngle: real): real {
    Pi / 2.0 - showerAngle
  }

  /**
   * The misfit of impact parameter `100 k` with shower angle `a`, anchored at
   * the bin whose angle is nearest the impact angle Pi/2 - a.
   */
  function FitCost(averages: seq<real>, angles: seq<real>, tangents: seq<seq<real>>, lightSpeed: real, k: int, a: int): real
    requires FitShape(averages, angles, tangents) && lightSpeed != 0.0 && 0 <= a < AngleCount
  {
    var t0 := averages[Nearest(Distances(angles, ImpactAngle(a as real)))];
    SquareSum(t0, 100.0 * k as real / lightSpeed, tangents[a], averages)
  }

  /** The misfits of the first `n` candidates, in loop order. */
  function FitCosts(averages: seq<real>, angles: seq<real>, tangents: seq<seq<real>>, lightSpeed: real, n: nat): (r: seq<real>)
    requires FitShape(averages, angles, tangents) && lightSpeed != 0.0
    ensures |r| == n
    ensures forall c :: 0 <= c < n ==> r[c] == FitCost(averages, angles, tangents, lightSpeed, c / AngleCount, c % AngleCount)
  {
    if n == 0 then []
    else FitCosts(averages, angles, tangents, lightSpeed, n - 1) + [FitCost(averages, angles, tangents, lightSpeed, (n - 1) / AngleCount, (n - 1) % AngleCount)]
  }

  /** The body of the fit's inner loop: the misfit of impact parameter `100 k` with shower angle `a`. */
  method CandidateCost(averages: seq<real>, angles: seq<real>, tangents: seq<seq<real>>, lightSpeed: real, k: int, a: int)
    returns (squareSum: real)
    requires FitShape(averages, angles, tangents) && lightSpeed != 0.0
    requires 0 <= k && 0 <= a < AngleCount
    ensures squareSum == FitCost(averages, angles, tangents, lightSpeed, k, a)
  {
    var impactParam, showerAngle := 100.0 * k as real, a as real;
    var impactAngle := ImpactAngle(showerAngle);
    var nearestIndex := NearestIndex(angles, impactAngle);
    var t0 := averages[nearestIndex];
    squareSum := Misfit(t0, impactParam / lightSpeed, tangents[a], averages);
  }

  /** The innermost loop of the fit: the squared deviations of the predicted times from the mean times, added up. */
  method Misfit(t0: real, slope: real, tangents: seq<real>, averages: seq<real>) returns (squareSum: real)
    requires |tangents| == |averages|
    ensures squareSum == SquareSum(t0, slope, tangents, averages)
  {
    squareSum := 0.0;
    for i := 0 to |averages|
      invariant squareSum == SquareSum(t0, slope, tangents[..i], averages[..i])
    {
      assert tangents[..i + 1][..i] == tangents[..i];
      assert averages[..i + 1][..i] == averages[..i];
      squareSum := squareSum + SquaredDeviation(t0, slope, tangents[i], averages[i]);
    }
    assert tangents[..|averages|] == tangents && averages[..|averages|] == averages;
  }

  /** Row `i`, column `j` of a grid with `n` columns is entry `i n + j` of its row-major flattening. */
  lemma FlatIndex(i: int, j: int, n: int)
    requires 0 <= i && 0 <= j < n
    ensures (i * n + j) / n == i && (i * n + j) % n == j
  {
    DivModUnique(i * n + j, n, i, j);
  }

  /** Euclidean division: `q` and `r` with `q n + r == x` and `0 <= r < n` are the quotient and remainder. */
  lemma DivModUnique(x: int, n: int, q: int, r: int)
    requires 0 <= r < n && x == q * n + r
    ensures x / n == q && x % n == r
  {
    var q', r' := x / n, x % n;
    assert (q - q') * n == r' - r;
    if q' < q {
      MulAtLeast(q - q', n);
    } else if q < q' {
      MulAtLeast(q' - q, n);
    }
  }

  lemma MulAtLeast(a: int, n: int)
    requires a >= 1 && n >= 0
    ensures a * n >= n
  {
  }

  /**
   * The exhaustive fit: every impact parameter 0, 100, ..., 99900 with every
   * shower angle 0 .. 3; keeps the first candidate with the least misfit, or
   * (0, 0) if no misfit goes below the start value.
   */
  method FitImpact(averages: seq<real>, angles: seq<real>, tangents: seq<seq<real>>, lightSpeed: real)
    returns (bestImpactParam: real, bestShowerAngle: real)
    requires FitShape(averages, angles, tangents) && lightSpeed != 0.0
    ensures exists best :: FirstBelow(FitCosts(averages, angles, tangents, lightSpeed, ImpactCount * AngleCount), Unbeaten, best)
                           && (bestImpactParam, bestShowerAngle) == Reported(best)
  {
    ghost var costs := FitCosts(averages, angles, tangents, lightSpeed, ImpactCount * AngleCount);
    ghost var best: Option<int> := None;
    bestImpactParam, bestShowerAngle := 0.0, 0.0;
    var bestSquare := Unbeaten;
    SearchStart(costs, Unbeaten);
    var k := 0;
    while 100.0 * k as real < 100000.0
      invariant 0 <= k <= ImpactCount
      invariant SearchedUpTo(costs, k * AngleCount, Unbeaten, best, bestSquare)
      invariant (bestImpactParam, bestShowerAngle) == Reported(best)
      decreases ImpactCount - k
    {
      best, bestSquare, bestImpactParam, bestShowerAngle :=
        FitRow(averages, angles, tangents, lightSpeed, k, costs, best, bestSquare, bestImpactParam, bestShowerAngle);
      k := k + 1;
    }
    SearchEnd(costs, Unbeaten, best, bestSquare);
  }

  /** One pass of the fit's outer loop: the four shower angles with impact parameter `100 k`, continuing the search. */
  method FitRow(averages: seq<real>, angles: seq<real>, tangents: seq<seq<real>>, lightSpeed: real, k: int,
                ghost costs: seq<real>, ghost best0: Option<int>, bestSquare0: real, bestImpactParam0: real, bestShowerAngle0: real)
    returns (ghost best: Option<int>, bestSquare: real, bestImpactParam: real, bestShowerAngle: real)
    requires FitShape(averages, angles, tangents) && lightSpeed != 0.0 && 0 <= k < ImpactCount
    requires costs == FitCosts(averages, angles, tangents, lightSpeed, ImpactCount * AngleCount)
    requires SearchedUpTo(costs, k * AngleCount, Unbeaten, best0, bestSquare0)
    requires (bestImpactParam0, bestShowerAngle0) == Reported(best0)
    ensures SearchedUpTo(costs, k * AngleCount + AngleCount, Unbeaten, best, bestSquare)
    ensures (bestImpactParam, bestShowerAngle) == Reported(best)
  {
    best, bestSquare, bestImpactParam, bestShowerAngle := best0, bestSquare0, bestImpactParam0, bestShowerAngle0;
    var a := 0;
    while a as real < Pi
      invariant 0 <= a <= AngleCount
      invariant SearchedUpTo(costs, k * AngleCount + a, Unbeaten, best, bestSquare)
      invariant (bestImpactParam, bestShowerAngle) == Reported(best)
      decreases AngleCount - a
    {
      best, bestSquare, bestImpactParam, bestShowerAngle :=
        FitStep(averages, angles, tangents, lightSpeed, k, a, costs, best, bestSquare, bestImpactParam, bestShowerAngle);
      a := a + 1;
    }
  }

  /** The body of the fit's inner loop: candidate (`100 k`, `a`) replaces the best one when its misfit is strictly less. */
  method FitStep(averages: seq<real>, angles: seq<real>, tangents: seq<seq<real>>, lightSpeed: real, k: int, a: int,
                 ghost costs: seq<real>, ghost best0: Option<int>, bestSquare0: real, bestImpactParam0: real, bestShowerAngle0: real)
    returns (ghost best: Option<int>, bestSquare: real, bestImpactParam: real, bestShowerAngle: real)
    requires FitShape(averages, angles, tangents) && lightSpeed != 0.0 && 0 <= k < ImpactCount && 0 <= a < AngleCount
    requires costs == FitCosts(averages, angles, tangents, lightSpeed, ImpactCount * AngleCount)
    requires SearchedUpTo(costs, k * AngleCount + a, Unbeaten, best0, bestSquare0)
    requires (bestImpactParam0, bestShowerAngle0) == Reported(best0)
    ensures SearchedUpTo(costs, k * AngleCount + a + 1, Unbeaten, best, bestSquare)
    ensures (bestImpactParam, bestShowerAngle) == Reported(best)
  {
    best, bestSquare, bestImpactParam, bestShowerAngle := best0, bestSquare0, bestImpactParam0, bestShowerAngle0;
    var squareSum := CandidateCost(averages, angles, tangents, lightSpeed, k, a);
    ghost var c := k * AngleCount + a;
    CandidateIndex(k, a, c);
    SearchStep(costs, c, Unbeaten, best, bestSquare);
    if squareSum < bestSquare {
      bestImpactParam, bestShowerAngle := 100.0 * k as real, a as real;
      bestSquare := squareSum;
      best := Some(c);
      assert Reported(best).0 == bestImpactParam && Reported(best).1 == bestShowerAngle;
    }
  }

  /** A ray: a time, a position and a direction. */
  datatype Ray = Ray(time: real, position: Vec3, direction: Vec3)

  /**
   * Runs the plane search and the fit on the bins of `data`, then returns
   * the zero ray: the fitted values are not used. `angles[i]` is the angle
   * between bin i's viewing direction and the plane's ground intersection.
   */
  method ReconstructShower(data: SegmentedData, alignment: seq<seq<seq<real>>>, angles: seq<real>, tangents: seq<seq<real>>, lightSpeed: real)
    returns (ray: Ray)
    requires AlignmentShape(alignment, |data.segments|)
    requires forall i :: 0 <= i < |data.segments| ==> |data.segments[i]| > 0
    requires |angles| == |data.segments| > 0 && lightSpeed != 0.0
    requires |tangents| == AngleCount && forall a :: 0 <= a < AngleCount ==> |tangents[a]| == |data.segments|
    ensures ray == Ray(0.0, Origin, Origin)
  {
    var showerPlane := ApproximateShowerPlane(data, alignment);
    var averages := Averages(data.segments);
    var bestImpactParam, bestShowerAngle := FitImpact(averages, angles, tangents, lightSpeed);
    ray := Ray(0.0, Origin, Origin);
  }
}
