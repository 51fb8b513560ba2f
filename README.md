# Cherenkov simulator: discrete core

This project models the discrete and selection logic of a C++/ROOT simulator
of the Cherenkov light of cosmic-ray air showers, and proves what that logic
promises. The modelled pieces are:

- **Reconstructor.** The flood-fill cluster counter, `LargestCluster` and
  `Visit`. Two loops of `FitSDPlane` also belong here: the one that builds the
  direction matrix and the one that picks the smallest eigenvalue.
- **PhotonCount and SignalIterator.** The pixel-by-time-bin photon store and
  its restartable cursor over the valid pixels.
- **Signal aggregation.** `Above`, `CollapseToProfile` and `SuperimposeTimes`.
- **TCamera.** Tube positions and bins, the collision test, and sorting a raw
  readout into one list of times per tube.
- **TSegmentedData.** A per-bin, append-only store of times.
- **TObservatory.** The shower-viewing loops and the two exhaustive grid
  searches of the reconstruction.
- **TTelescope.** Constructor checks, aperture sampling, the parabolic
  mirror height and the detect / skip / record loops.

Doubles are modelled as exact reals. Converting a double to `Int_t` is
modelled as unbounded truncation toward zero (`Common.Trunc`); that matches
C++ only while the value fits in 32 bits (see Camera.Camera.ParseData under
"## Left out").

Each module follows one source file:

| module | file |
|---|---|
| `Common` | shared definitions |
| `Connectivity` | 4-connected components (graph theory used by `Reconstructor`) |
| `Reconstructor` | `reconstructor.cpp` |
| `DataContainers` | `data_containers.h` |
| `DataAnalysis` | `data_analysis.cpp` |
| `RawRecords` | the raw readout that the camera and telescopes exchange |
| `Camera` | `RayTracing/TCamera.cpp` |
| `SegmentedData` | `RayTracing/TSegmentedData.cpp` |
| `Observatory` | `CherenkovSimulator/TObservatory.cpp` |
| `Telescope` | `RayTracing/TTelescope.cpp` |

Objects whose fields the source updates in place are classes with `modifies`
clauses: the flood-fill grid, `SignalIterator`, `PhotonCount`, `TCamera`'s
running minimum and maximum times, `TSegmentedData` and the raw readout.
Every search loop is proved against a specification function of the whole
candidate grid. `Observatory.FirstBelow` states what such a loop keeps: the
first strict minimum of the costs, or nothing when no cost goes below the
start value.

### The collision test

`TCamera::CheckCollision` (`RayTracing/TCamera.cpp:96-106`) returns `true`
when the crossing lies inside the camera rectangle, and `false` always for a
transparent camera. `TTelescope` treats `true` as "the ray hit the camera"
and skips that photon (`RayTracing/TTelescope.cpp:16-20`, `:42-52`). The
model states exactly this (`Camera.Camera.CollisionIsTubeArea`,
`Telescope.RayDetection`).

## Model

| member | source | states |
|---|---|---|
| Reconstructor.Visit | cherenkov_library/reconstructor.cpp:96-120 | zeroes exactly the 4-connected component of (i, j) among the nonzero cells and returns its size; that component is empty, and nothing changes, when (i, j) is outside the grid or already zero |
| Reconstructor.Flood | cherenkov_library/reconstructor.cpp:110-119 | the nonzero-cell branch of Visit: clears the seed's whole component and counts it |
| Reconstructor.VisitNeighbour | cherenkov_library/reconstructor.cpp:114-117 | one recursive call on a neighbour extends the flooded part and keeps the count equal to the number of cleared cells |
| Reconstructor.LargestCluster | cherenkov_library/reconstructor.cpp:76-94 | result is the size of a largest 4-connected group of nonzero cells, 0 when there are none, between 0 and the number of nonzero cells; the caller's grid is passed by value |
| Reconstructor.ClusterDone | cherenkov_library/reconstructor.cpp:78-93 | once every nonzero cell has been scanned, `largest` bounds every component and equals the size of one of them |
| Reconstructor.NonzeroAfterClear | cherenkov_library/reconstructor.cpp:112 | clearing a set of cells removes exactly those cells from the nonzero set |
| Reconstructor.ClearTwice | cherenkov_library/reconstructor.cpp:112-117 | clearing two sets one after the other is clearing their union |
| Reconstructor.DirectionMatrix | cherenkov_library/reconstructor.cpp:39-55 | entry [j][k] is the weighted sum of direction[j]·direction[k] over the valid pixels, and the matrix is symmetric |
| Reconstructor.WeightedSumSymmetric | cherenkov_library/reconstructor.cpp:45-53 | the weighted sums for (j, k) and (k, j) are equal |
| Reconstructor.MinEigenIndex | cherenkov_library/reconstructor.cpp:61-70 | returns the first index of a smallest eigenvalue |
| Connectivity.ComponentUnique | cherenkov_library/reconstructor.cpp:112-118 | a closed set of cells reachable from the seed is the seed's component: what Visit clears is determined by the seed |
| Connectivity.SameComponent | cherenkov_library/reconstructor.cpp:83-85 | any cell of a component yields the same component, so LargestCluster counts each group once |
| Connectivity.ComponentAfterRemoval | cherenkov_library/reconstructor.cpp:79-91 | removing whole components already counted leaves the component of an unvisited cell unchanged |
| Common.FirstMinimumUnique | cherenkov_library/reconstructor.cpp:63-70 | at most one index is a first minimum, so the strict `<` scans have a unique result |
| DataContainers.SignalIterator.constructor | cherenkov_library/data_containers.h:22-26 | the cursor starts before the first valid pixel; the pixels still to visit are all valid pixels in scan order |
| DataContainers.SignalIterator.Next | cherenkov_library/data_containers.h:38-42 | returns false exactly at the end of the collection; otherwise (X(), Y()) becomes the next valid pixel and is a pixel whose valid flag is set |
| DataContainers.SignalIterator.Reset | cherenkov_library/data_containers.h:44-47 | back to the starting state: the following traversal yields the same pixels in the same order |
| DataContainers.ScanOrder | cherenkov_library/data_containers.h:51-52 | every pixel a traversal visits is valid |
| DataContainers.ValidAfterContents | cherenkov_library/data_containers.h:38-42 | the pixels still to visit are exactly the valid pixels after the cursor |
| DataContainers.ValidAfterIncreasing | cherenkov_library/data_containers.h:38-42 | a traversal moves strictly forward in scan order, so it visits no pixel twice |
| DataContainers.PhotonCount.constructor | cherenkov_library/data_containers.h:66-72 | an n × n grid of pixels, each with an all-zero time series of nBins bins |
| DataContainers.PhotonCount.AddPhoton | cherenkov_library/data_containers.h:74-77 | increments exactly one (pixel, time-bin) cell when the photon lands on a valid pixel in range; no other cell changes |
| DataContainers.PhotonCount.Increment | cherenkov_library/data_containers.h:74-77 | one more photon in one cell, with the pixel's total up by one |
| DataContainers.PhotonCount.AddNoise | cherenkov_library/data_containers.h:79-84 | only the channel the iterator points at changes; each of its bins grows by the number of noise photons drawn into it, so no count decreases |
| DataContainers.PhotonCount.SumBins | cherenkov_library/data_containers.h:96-99 | returns the sum of all time bins of the referenced channel, which is non-negative |
| DataContainers.PhotonCount.ValidPixelInGrid | cherenkov_library/data_containers.h:108-112 | a valid pixel indexes a time series of the grid |
| DataContainers.PhotonCount.Iterator | cherenkov_library/data_containers.h:91-94 | a fresh cursor over this detector's valid pixels, at its starting state |
| DataContainers.SumAdd | cherenkov_library/data_containers.h:74-77 | adding d to one bin adds d to the series' total |
| DataContainers.SumNonNegative | cherenkov_library/data_containers.h:96-99 | a series of non-negative counts has a non-negative total |
| DataAnalysis.Above | cherenkov_library/data_analysis.cpp:13-34 | true iff other.Z > ref.Z, or the Z values are equal and other.Y > ref.Y; X is ignored |
| DataAnalysis.AboveIrreflexive | cherenkov_library/data_analysis.cpp:15-33 | Above(a, a) is false |
| DataAnalysis.AboveAsymmetric | cherenkov_library/data_analysis.cpp:15-33 | Above(a, b) and Above(b, a) never both hold |
| DataAnalysis.AboveTransitive | cherenkov_library/data_analysis.cpp:15-33 | Above is transitive: a strict order |
| DataAnalysis.AboveTotal | cherenkov_library/data_analysis.cpp:15-33 | two points that differ in Y or Z are ordered one way or the other |
| DataAnalysis.CollapseToProfile | cherenkov_library/data_analysis.cpp:36-61 | both outputs are cleared and then get one entry per valid pixel in traversal order, so they have equal length; each count is that pixel's SumBins and each angle is that pixel's signed angle |
| DataAnalysis.ProfileEntry | cherenkov_library/data_analysis.cpp:47-59 | one pixel's entry: the SumBins total and the angle signed by Above |
| DataAnalysis.SignedAngleSign | cherenkov_library/data_analysis.cpp:50-57 | the angle is non-negative iff Above holds (or the angle is 0) |
| DataAnalysis.SuperimposeTimes | cherenkov_library/data_analysis.cpp:63-84 | `times` and `counts` have NBins() entries with times[i] = Time(i), and counts[i] is the sum of signal[i] over all valid pixels |
| DataAnalysis.AddSignal | cherenkov_library/data_analysis.cpp:78-82 | adds one pixel's signal bin by bin to the running counts |
| DataAnalysis.SuperimposeConserves | cherenkov_library/data_analysis.cpp:74-83 | the superimposed counts add up to the total of all pixels' signals |
| DataAnalysis.ReadoutConserved | cherenkov_library/data_analysis.cpp:63-84 | for a detector, SuperimposeTimes loses and invents no photons |
| Camera.Camera.constructor | RayTracing/TCamera.cpp:42-51 | stores the dimensions, tube counts, response time and transparency; the running min/max times start at 1e100 / -1e100 |
| Camera.Camera.PMTX | RayTracing/TCamera.cpp:13-20 | throws exactly when xIndex >= fNumberTubesX; the returned position is pinned down by the round-trip lemmas below |
| Camera.Camera.PMTY | RayTracing/TCamera.cpp:22-29 | throws exactly when yIndex >= fNumberTubesY |
| Camera.Camera.PMTXRoundTrip | RayTracing/TCamera.cpp:13-33 | XBin(PMTX(i)) == i for every valid index |
| Camera.Camera.PMTYRoundTrip | RayTracing/TCamera.cpp:22-37 | YBin(PMTY(j)) == j for every valid index |
| Camera.Camera.XBinRoundTrip | RayTracing/TCamera.cpp:13-33 | a position whose bin is a valid index i is PMTX(i): the two maps are inverse |
| Camera.Camera.YBinRoundTrip | RayTracing/TCamera.cpp:22-37 | a position whose bin is a valid index j is PMTY(j) |
| Camera.Camera.PMTXOnCamera | RayTracing/TCamera.cpp:18 | every tube position lies in [−W/2, W/2) |
| Camera.Camera.TransparentNeverCollides | RayTracing/TCamera.cpp:96-99 | a transparent camera never collides |
| Camera.Camera.CollisionIsTubeArea | RayTracing/TCamera.cpp:96-106 | an opaque camera collides exactly when the crossing's bins lie in [0, N], i.e. \|x\| ≤ W/2 and \|y\| ≤ H/2 |
| Camera.Camera.LeftSliverInFirstColumn | RayTracing/TCamera.cpp:63-65 | a hit up to one tube width left of the camera truncates to column 0 and is filed there |
| Camera.Camera.KeptTimes | RayTracing/TCamera.cpp:61-70 | the kept times are at most as many as the raw points |
| Camera.Camera.ParseData | RayTracing/TCamera.cpp:53-79 | an nx × ny grid in which each list holds the times of the hits whose truncated bins name that tube, in input order; out-of-range hits are dropped; the number of stored times equals the number of kept hits; min/max times are updated by kept hits only |
| Camera.Camera.FileHit | RayTracing/TCamera.cpp:63-76 | one hit: dropped (nothing changes) or appended to its tube, with the min/max widened to its time |
| Camera.Camera.TubeGrid | RayTracing/TCamera.cpp:61-70 | the grid keeps its nx × ny shape whatever the readout |
| Camera.Camera.TubeGridContents | RayTracing/TCamera.cpp:61-70 | each tube's list is the times of its hits, and the grid's total is the number of kept hits |
| Camera.EmptyGrid | RayTracing/TCamera.cpp:54-60 | builds an nx × ny grid of empty lists |
| Camera.BlankContents | RayTracing/TCamera.cpp:54-60 | every list of the fresh grid is empty, so it holds no times |
| Camera.MaxOfBounds | RayTracing/TCamera.cpp:71-73 | the running maximum is at least its start and every kept time, and is one of them |
| Camera.MinOfBounds | RayTracing/TCamera.cpp:74-76 | the running minimum is at most its start and every kept time, and is one of them |
| Camera.ExtremesAppend | RayTracing/TCamera.cpp:71-76 | one more time moves the running extremes exactly as the two `if`s do |
| SegmentedData.SegmentedData.constructor | RayTracing/TSegmentedData.cpp:11-16 | nBins empty segments |
| SegmentedData.SegmentedData.AddPoint | RayTracing/TSegmentedData.cpp:18-26 | appends `time` at the end of segment `bin`, every other segment unchanged; afterwards min ≤ time ≤ max, the max never decreases, the min never increases, and every stored time stays between them |
| SegmentedData.SegmentedData.MinTime | RayTracing/TSegmentedData.cpp:28-30 | no stored time is earlier than the reported minimum |
| SegmentedData.SegmentedData.MaxTime | RayTracing/TSegmentedData.cpp:32-34 | no stored time is later than the reported maximum |
| SegmentedData.SegmentedData.Segment | RayTracing/TSegmentedData.cpp:36-38 | the times of a bin, each between the minimum and maximum |
| Observatory.Detected | CherenkovSimulator/TObservatory.cpp:35-50 | a pass records at most one hit per photon |
| Observatory.DetectedMembers | CherenkovSimulator/TObservatory.cpp:43-49 | a hit is recorded iff some photon whose collision check is false leaves it |
| Observatory.ViewPointPrivate | CherenkovSimulator/TObservatory.cpp:34-51 | appends to the readout the hits of the photons not blocked by the camera, in order |
| Observatory.ViewPoint | CherenkovSimulator/TObservatory.cpp:18-22 | a fresh readout holding one pass |
| Observatory.ViewShower | CherenkovSimulator/TObservatory.cpp:24-32 | a fresh readout of trunc(TimeToPlane/timeDelay + 2) passes, none if that is negative |
| Observatory.AllDetected | CherenkovSimulator/TObservatory.cpp:27-30 | the passes together record at most as many hits as they have photons |
| Common.AtLeastTwoSteps | CherenkovSimulator/TObservatory.cpp:26 | a shower ahead of the ground, stepped forward, is viewed at least twice |
| Observatory.FirstBelowUnique | CherenkovSimulator/TObservatory.cpp:66-69 | the outcome of a first-strict-minimum search is determined by the costs |
| Observatory.SearchStep | CherenkovSimulator/TObservatory.cpp:104-108 | a candidate replaces the kept one exactly when its cost is strictly less |
| Observatory.SearchEnd | CherenkovSimulator/TObservatory.cpp:90-110 | after all candidates the kept one is the first with the least cost, or none if no cost is below 1e300 |
| Observatory.PlaneCosts | CherenkovSimulator/TObservatory.cpp:57-65 | candidate 7·theta + phi step costs the sum over bins of the normal's alignment with the bin's direction times the bin's number of times (the value named squareSum is not squared) |
| Observatory.ApproximateShowerPlane | CherenkovSimulator/TObservatory.cpp:53-73 | the plane passes through the origin, and its normal is the first grid normal (theta = 0..3, phi = −π + 0..6) of least score, or the zenith if no score is below 1e300 |
| Observatory.PlaneStep | CherenkovSimulator/TObservatory.cpp:59-69 | one candidate normal continues the search |
| Observatory.PlaneScore | CherenkovSimulator/TObservatory.cpp:62-65 | a candidate's score, bin by bin |
| Observatory.Averages | CherenkovSimulator/TObservatory.cpp:79-83 | each bin's average times its size is its sum of times |
| Observatory.Distances | CherenkovSimulator/TObservatory.cpp:96 | the distance of each bin's angle from the impact angle |
| Observatory.Nearest | CherenkovSimulator/TObservatory.cpp:94-99 | a first index of the least value |
| Observatory.NearestIndex | CherenkovSimulator/TObservatory.cpp:93-99 | nearestIndex is the first index minimising \|angles[i] − impactAngle\|; it starts at 0, so nBins ≥ 1 |
| Observatory.SquareSum | CherenkovSimulator/TObservatory.cpp:101-103 | a candidate's misfit is a sum of squares, hence non-negative |
| Observatory.SquaredDeviation | CherenkovSimulator/TObservatory.cpp:102 | one bin's squared deviation is non-negative |
| Observatory.Misfit | CherenkovSimulator/TObservatory.cpp:101-103 | the inner loop computes the candidate's sum of squares |
| Observatory.CandidateCost | CherenkovSimulator/TObservatory.cpp:92-103 | the misfit of impact parameter 100k with shower angle a, anchored at the nearest bin |
| Observatory.FitCosts | CherenkovSimulator/TObservatory.cpp:90-103 | candidate 4k + a is impact parameter 100k with shower angle a, for k = 0..999, a = 0..3 |
| Observatory.CandidateIndex | CherenkovSimulator/TObservatory.cpp:90-106 | candidate 4k + a reports the pair (100k, a) |
| Observatory.FitImpact | CherenkovSimulator/TObservatory.cpp:84-110 | the reported pair is the first candidate of least misfit in loop order, or (0, 0) when no misfit is below 1e300 |
| Observatory.FitRow | CherenkovSimulator/TObservatory.cpp:91-109 | one impact parameter with the four shower angles continues the search |
| Observatory.FitStep | CherenkovSimulator/TObservatory.cpp:92-108 | one candidate continues the search and keeps the reported pair in step with it |
| Observatory.ReconstructShower | CherenkovSimulator/TObservatory.cpp:75-115 | runs both searches and returns the zero ray regardless of the fitted values |
| Telescope.NewTelescope | RayTracing/TTelescope.cpp:143-181 | throws for mirrorShape outside [0, 1] (checked first), then for mirrorType outside [0, 1]; otherwise stores the arguments, with aperture diameter focalLength / fNumber |
| Telescope.NewUprightTelescope | RayTracing/TTelescope.cpp:141 | the short constructor: same checks, no inclination or azimuth, centre of curvature at the origin |
| Telescope.SampleAperture | RayTracing/TTelescope.cpp:65-85 | consumes the random stream as GetMirrorImpact does: shape 0 redraws pairs until one lies in the disk of diameter D, shape 1 scales the first two draws into the square, and any other shape leaves the point at (0, 0) |
| Telescope.DiskSample | RayTracing/TTelescope.cpp:70-79 | the rejection loop exits only with x² + y² ≤ D²/4 |
| Telescope.CircularSampleInDisk | RayTracing/TTelescope.cpp:70-79 | a circular aperture yields only points of its disk |
| Telescope.SampleBounds | RayTracing/TTelescope.cpp:65-85 | with draws in [0, 1], every sampled x and y is within D/2 of the centre |
| Telescope.SampleHalfOpen | RayTracing/TTelescope.cpp:65-85 | with draws in [0, 1) and D > 0, every sampled x and y lies in [−D/2, D/2) |
| Telescope.ScaledBounds | RayTracing/TTelescope.cpp:73 | one draw in [0, 1] scales to within D/2 of the centre |
| Telescope.ScaledHalfOpen | RayTracing/TTelescope.cpp:73 | one draw in [0, 1) scales into [−D/2, D/2) |
| Telescope.ParabolicSurface | RayTracing/TTelescope.cpp:92-94 | the parabolic height −R + x²/(2R) + y²/(2R) satisfies 2R(z + R) = x² + y², is −R on the axis and not below −R for R > 0 |
| Telescope.RayDetection | RayTracing/TTelescope.cpp:32-63 | null exactly when the camera's collision test at the focal-plane crossing is true, i.e. the camera is opaque and the crossing is on its rectangle |
| Telescope.RecordedHits | RayTracing/TTelescope.cpp:13-29 | a pass records at most one hit per photon, none for null detections, each stamped with the shower's time |
| Telescope.TransparentRecordsAll | RayTracing/TTelescope.cpp:10-52 | through a transparent camera every photon is recorded |
| Telescope.ViewPointPrivate | RayTracing/TTelescope.cpp:10-30 | appends the pass's recorded hits to the readout |
| Telescope.AllRecordedTimes | RayTracing/TTelescope.cpp:189-195 | every hit of a view carries the time of one of its passes |
| Telescope.ViewShower | RayTracing/TTelescope.cpp:183-196 | clears the readout, then runs trunc(TimeToPlane/timeDelay + 2) passes |
| Telescope.ViewPoint | RayTracing/TTelescope.cpp:198-201 | clears the readout, then runs one pass |

## Left out

- Vector geometry is not modelled: rotations (`RotateIn`/`RotateOut`, `rotate_to_world`), ray propagation and reflection, `TPlane3`/`TRay`, `GetMirrorNormal`, the mirror axis (`fMirrorAxis`, computed with `RotateIn` in the constructor and returned by `GetAxis`), the spherical mirror height (a square root), and the focal-plane and ground-plane setup in the TTelescope constructor. Their results enter the model as data: the photon paths, the crossings and landings, the alignment and tangent tables, and `TimeToPlane`.
- The eigen decomposition in `FitSDPlane` (`TMatrixDSymEigen`) is a library call. Its eigenvalues are an input to `Reconstructor.MinEigenIndex`.
- Random draws are input sequences: noise time bins, aperture draws, and the photons of each pass.
- Telescope.SampleAperture: when the stream runs out before a pair is accepted it returns no sample, whereas the C++ loop waits for the generator, which never runs out.
- `TCamera::WriteDataToFile`, the histogram and plotting helpers (`GetValidMap`, `MakeProfileGraph`, `MakeSumMap`) and all file I/O are left out.
- Configuration, XML parsing and the utilities are left out.
- TRawData and TShower are not part of this model: neither their declarations nor their definitions are among the modelled files. `RawRecords.RawData` assumes plain list semantics for the readout (`PushBack` appends, `Clear` empties), and a shower enters as its passes. The CherenkovSimulator camera (`TCamera.hpp`) is not part of this model either. The collision test of the CherenkovSimulator camera enters `Observatory` as each photon's `blocked` flag.
- `data_containers.h` has declarations only. Index order (x, then y), the bin count fixed at construction, the start time of bin i taken as `startTime + i * timeBin` (`DataContainers.PhotonCount.Time`, on which `DataAnalysis.SuperimposeTimes` states its times), and the valid mask supplied by the caller are modelling choices. `Direction`, `ValidPixel` and the direction-to-pixel mapping in `AddPhoton` are floating point and left out; `AddPhoton` takes the pixel and bin directly.
- DataAnalysis.CollapseToProfile: `projection.Angle(axis_project)` and the projections onto the plane are geometry. Each pixel's projection and unsigned angle come in as grids; only the sign rule and the count are modelled.
- The TObservatory constructor and `TObservatory::ParseData` only copy fields or forward to the CherenkovSimulator camera, which is not part of this model.
- `TTelescope` getters (`GetFocalLength`, `GetRadius`, `GetCenterOfCurvature`, `GetCamera`) are field reads of `Telescope.Telescope`. `GetAxis` is left out with the vector geometry above.
- Camera.Camera.ParseData: requires every kept hit to have non-negative bin indices. The code tests only the upper bound, and a negative index would write outside the grid.
- Camera.Camera.ParseData: does not model 32-bit `Int_t` conversion. A bin of 2^31 or more is undefined behaviour when converted on lines 63-64 (on x86 it becomes INT_MIN, passes the upper-bound test and is used as an index). The model truncates without bound and drops such a hit.
- Reconstructor.Visit: requires non-empty rows, because `size() - 1` wraps on an empty row.
- Camera.Camera.PMTX: requires a nonzero tube count unless the index is refused anyway, and XBin a nonzero width. Dividing by zero gives an infinity or NaN in C++, which the real-number model cannot express. The same holds for PMTY and YBin.
- Telescope.NewTelescope: requires a nonzero f-number for the same reason.
- Observatory.ViewShower: requires a nonzero `timeDelay`. In C++ `TimeToPlane / timeDelay` would be an infinity, and its conversion to `Int_t` would be undefined. A finite quotient of 2^31 or more is equally undefined there, and the model truncates it without bound. The same holds for Telescope.ViewShower and Common.NumberOfSteps.
- Observatory.ReconstructShower: requires every bin to be non-empty, because the average on line 81 divides by its size. It also requires at least one bin, because `averages[nearestIndex]` is read at index 0.
- SegmentedData.SegmentedData.constructor: the source leaves the running minimum and maximum uninitialised, so the model takes their starting values as parameters.
- Observatory.ApproximateShowerPlane: the candidate normal (theta, phi) is kept as its two angles, not as the rotated vector.
- Observatory.FitImpact: the tan terms of the cost come in as `tangents`, and the angle of each bin to the ground intersection comes in as `angles`.
