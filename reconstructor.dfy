/**
 * The discrete parts of the reconstructor (cherenkov_library/reconstructor.cpp):
 * the flood fill that measures the largest 4-connected cluster of lit pixels,
 * and, from the shower-detector-plane fit, the weighted direction matrix and
 * the choice of the smallest eigenvalue.
 */
module Reconstructor {
  import opened Connectivity
  import opened Common

  // =====================================================================
  // Cluster counting

  /** The cells of a (possibly ragged) grid holding a nonzero value. */
  ghost function Nonzero(g: seq<seq<int>>): set<Cell> {
    set i, j {:trigger g[i][j]} | 0 <= i < |g| && 0 <= j < |g[i]| && g[i][j] != 0 :: (i, j)
  }

  /** Row `i` of a grid, `row`, with every cell of `z` set to zero. */
  ghost function ClearRow(row: seq<int>, i: int, z: set<Cell>): (r: seq<int>)
    ensures |r| == |row|
    ensures forall j {:trigger r[j]} :: 0 <= j < |row| ==> r[j] == if (i, j) in z then 0 else row[j]
    decreases |row|
  {
    if |row| == 0 then []
    else ClearRow(row[..|row| - 1], i, z) + [if (i, |row| - 1) in z then 0 else row[|row| - 1]]
  }

  /** `g` with every cell of `z` set to zero; the shape is kept. */
  ghost function Clear(g: seq<seq<int>>, z: set<Cell>): (r: seq<seq<int>>)
    ensures |r| == |g|
    ensures forall i {:trigger r[i]} :: 0 <= i < |g| ==> r[i] == ClearRow(g[i], i, z)
    decreases |g|
  {
    if |g| == 0 then []
    else Clear(g[..|g| - 1], z) + [ClearRow(g[|g| - 1], |g| - 1, z)]
  }

  /**
   * The bounds checks of Visit on (i, j) are sound. The row test compares an
   * int with `size() - 1` in unsigned arithmetic: on an empty grid it wraps and
   * `at(i)` throws, and on an empty row the column test wraps and `[j]` reads
   * outside the row. A negative index is always rejected.
   */
  ghost predicate SafeProbe(g: seq<seq<int>>, i: int, j: int) {
    i < 0 || (|g| > 0 && (i >= |g| || j < 0 || |g[i]| > 0))
  }

  /** Visit probes the rows above and below every nonzero cell; those probes are sound. */
  ghost predicate NeighboursSafe(g: seq<seq<int>>) {
    forall i, j :: 0 <= i < |g| && 0 <= j < |g[i]| && g[i][j] != 0 ==>
      SafeProbe(g, i + 1, j) && SafeProbe(g, i - 1, j)
  }

  /** The grid `Visit` works on through a pointer: it clears its cells in place. */
  class CellGrid {
    var cells: seq<seq<int>>

    constructor (cells: seq<seq<int>>)
      ensures this.cells == cells
    {
      this.cells := cells;
    }
  }

  /** Two grids of the same shape that agree cell by cell are equal. */
  lemma GridExtensionality(a: seq<seq<int>>, b: seq<seq<int>>)
    requires |a| == |b|
    requires forall i :: 0 <= i < |a| ==> |a[i]| == |b[i]|
    requires forall i, j :: 0 <= i < |a| && 0 <= j < |a[i]| ==> a[i][j] == b[i][j]
    ensures a == b
  {
    forall i | 0 <= i < |a|
      ensures a[i] == b[i]
    {
      assert forall j :: 0 <= j < |a[i]| ==> a[i][j] == b[i][j];
    }
  }

  lemma ClearNothing(g: seq<seq<int>>)
    ensures Clear(g, {}) == g
  {
    GridExtensionality(Clear(g, {}), g);
  }

  lemma ClearTwice(g: seq<seq<int>>, a: set<Cell>, b: set<Cell>)
    ensures Clear(Clear(g, a), b) == Clear(g, a + b)
  {
    GridExtensionality(Clear(Clear(g, a), b), Clear(g, a + b));
  }

  lemma ClearOne(g: seq<seq<int>>, i: int, j: int)
    requires 0 <= i < |g| && 0 <= j < |g[i]|
    ensures g[i := g[i][j := 0]] == Clear(g, {(i, j)})
  {
    GridExtensionality(g[i := g[i][j := 0]], Clear(g, {(i, j)}));
  }

  lemma NonzeroAfterClear(g: seq<seq<int>>, z: set<Cell>)
    ensures Nonzero(Clear(g, z)) == Nonzero(g) - z
  {
    var r := Clear(g, z);
    forall c | c in Nonzero(g) - z
      ensures c in Nonzero(r)
    {
      assert r[c.0][c.1] != 0;
    }
  }

  lemma SafetyAfterClear(g: seq<seq<int>>, z: set<Cell>)
    requires NeighboursSafe(g)
    ensures NeighboursSafe(Clear(g, z))
  {
  }

  /**
   * Visit(i, j) clears, in place, exactly the cells of the 4-connected
   * nonzero component holding (i, j) and returns how many there were; when
   * (i, j) is out of range or already zero it returns 0 and clears nothing.
   */
  method Visit(i: int, j: int, grid: CellGrid) returns (count: int)
    requires SafeProbe(grid.cells, i, j) && NeighboursSafe(grid.cells)
    modifies grid
    ensures grid.cells == Clear(old(grid.cells), Component(Nonzero(old(grid.cells)), (i, j)))
    ensures count == |Component(Nonzero(old(grid.cells)), (i, j))|
    decreases |Nonzero(grid.cells)|, 2
  {
    if i < 0 || i >= |grid.cells| {
      count := 0;
    } else if j < 0 || j >= |grid.cells[i]| {
      count := 0;
    } else if grid.cells[i][j] == 0 {
      count := 0;
    } else {
      count := Flood(i, j, grid);
      return;
    }
    ComponentOfMissingSeed(Nonzero(grid.cells), (i, j));
    ClearNothing(grid.cells);
  }

  /**
   * The nonzero branch of Visit: clear (i, j), count it, and add what the
   * visits of its four neighbours (down, up, right, left) count.
   */
  method Flood(i: int, j: int, grid: CellGrid) returns (count: int)
    requires 0 <= i < |grid.cells| && 0 <= j < |grid.cells[i]| && grid.cells[i][j] != 0
    requires NeighboursSafe(grid.cells)
    modifies grid
    ensures grid.cells == Clear(old(grid.cells), Component(Nonzero(old(grid.cells)), (i, j)))
    ensures count == |Component(Nonzero(old(grid.cells)), (i, j))|
    decreases |Nonzero(grid.cells)|, 1
  {
    ghost var g0 := grid.cells;
    grid.cells := grid.cells[i := grid.cells[i][j := 0]];
    count := 1;
    ClearOne(g0, i, j);
    FloodStart(Nonzero(g0), i, j);
    ghost var z: set<Cell> := {(i, j)};
    count, z := VisitNeighbour(g0, (i, j), z, count, i + 1, j, {(i - 1, j)} + ({(i, j + 1)} + ({(i, j - 1)} + {})), grid);
    count, z := VisitNeighbour(g0, (i, j), z, count, i - 1, j, {(i, j + 1)} + ({(i, j - 1)} + {}), grid);
    count, z := VisitNeighbour(g0, (i, j), z, count, i, j + 1, {(i, j - 1)} + {}, grid);
    count, z := VisitNeighbour(g0, (i, j), z, count, i, j - 1, {}, grid);
    FloodFinish(g0, i, j, z);
  }

  /**
   * One of the four recursive calls of Visit: the grid is `g0` with the flood
   * `z` from `seed` cleared, and visiting the neighbour (ni, nj) grows the
   * flood by the neighbour's component in what is left.
   */
  method VisitNeighbour(ghost g0: seq<seq<int>>, ghost seed: Cell, ghost z: set<Cell>, count: int,
                        ni: int, nj: int, ghost rest: set<Cell>, grid: CellGrid)
    returns (count': int, ghost z': set<Cell>)
    requires NeighboursSafe(g0)
    requires 0 <= seed.0 < |g0| && 0 <= seed.1 < |g0[seed.0]| && g0[seed.0][seed.1] != 0
    requires PartialFlood(Nonzero(g0), seed, z, {(ni, nj)} + rest)
    requires Adjacent(seed, (ni, nj)) && grid.cells == Clear(g0, z) && count == |z|
    modifies grid
    ensures PartialFlood(Nonzero(g0), seed, z', rest)
    ensures grid.cells == Clear(g0, z') && count' == |z'|
    decreases |Nonzero(g0)|, 0
  {
    NeighbourReady(g0, z, seed, (ni, nj));
    var n := Visit(ni, nj, grid);
    count' := count + n;
    FloodStep(Nonzero(g0), seed, z, (ni, nj), rest);
    z' := z + Component(Nonzero(g0) - z, (ni, nj));
    DisjointUnionCard(z, Component(Nonzero(g0) - z, (ni, nj)));
    ClearTwice(g0, z, Component(Nonzero(g0) - z, (ni, nj)));
  }

  /** Once no neighbour is pending, the cleared cells are the seed's component. */
  lemma FloodFinish(g0: seq<seq<int>>, i: int, j: int, z: set<Cell>)
    requires PartialFlood(Nonzero(g0), (i, j), z, {})
    ensures Clear(g0, z) == Clear(g0, Component(Nonzero(g0), (i, j)))
    ensures |z| == |Component(Nonzero(g0), (i, j))|
  {
    FloodEnd(Nonzero(g0), (i, j), z);
  }

  /** Before a neighbour is visited: what is left of g0 is still safe to probe, and smaller than g0. */
  lemma NeighbourReady(g0: seq<seq<int>>, z: set<Cell>, seed: Cell, nb: Cell)
    requires NeighboursSafe(g0) && seed in z && z <= Nonzero(g0) && Adjacent(seed, nb)
    requires 0 <= seed.0 < |g0| && 0 <= seed.1 < |g0[seed.0]| && g0[seed.0][seed.1] != 0
    ensures NeighboursSafe(Clear(g0, z)) && SafeProbe(Clear(g0, z), nb.0, nb.1)
    ensures Nonzero(Clear(g0, z)) == Nonzero(g0) - z
    ensures |Nonzero(Clear(g0, z))| < |Nonzero(g0)|
  {
    SafetyAfterClear(g0, z);
    NonzeroAfterClear(g0, z);
    ProperSubsetCard(Nonzero(g0) - z, Nonzero(g0), seed);
    assert SafeProbe(g0, seed.0 + 1, seed.1) && SafeProbe(g0, seed.0 - 1, seed.1);
  }

  /** A cell is nonzero exactly when it lies inside the grid and holds a nonzero value. */
  lemma NonzeroCell(g: seq<seq<int>>, c: Cell)
    ensures c in Nonzero(g) <==> 0 <= c.0 < |g| && 0 <= c.1 < |g[c.0]| && g[c.0][c.1] != 0
  {
    if 0 <= c.0 < |g| && 0 <= c.1 < |g[c.0]| && g[c.0][c.1] != 0 {
      assert g[c.0][c.1] != 0;
    }
  }

  /** Cell `c` comes before (i, j) in the row-major scan of LargestCluster. */
  predicate Scanned(c: Cell, i: int, j: int) {
    c.0 < i || (c.0 == i && c.1 < j)
  }

  /**
   * What the scan of LargestCluster keeps: the cells cleared so far, `v`, are
   * whole clusters of `g`, the working grid is `g` with them cleared, and
   * `largest` is the size of the largest of them (0 before the first).
   */
  ghost predicate ClusterScan(g: seq<seq<int>>, v: set<Cell>, largest: int, cells: seq<seq<int>>) {
    && v <= Nonzero(g) && Closed(v, Nonzero(g))
    && cells == Clear(g, v)
    && (forall c :: c in v ==> |Component(Nonzero(g), c)| <= largest)
    && (v == {} ==> largest == 0)
    && (v != {} ==> exists c :: c in v && largest == |Component(Nonzero(g), c)|)
  }

  /**
   * A cell still nonzero in the working grid is a cell of `g` outside the
   * cleared clusters, so its cluster in the working grid is its cluster in `g`.
   */
  lemma ClusterFresh(g: seq<seq<int>>, v: set<Cell>, largest: int, i: int, j: int)
    requires NeighboursSafe(g) && ClusterScan(g, v, largest, Clear(g, v))
    requires 0 <= i < |g| && 0 <= j < |g[i]| && Clear(g, v)[i][j] != 0
    ensures NeighboursSafe(Clear(g, v)) && SafeProbe(Clear(g, v), i, j)
    ensures (i, j) in Nonzero(g) && (i, j) !in v
    ensures Component(Nonzero(Clear(g, v)), (i, j)) == Component(Nonzero(g), (i, j))
  {
    SafetyAfterClear(g, v);
    NonzeroAfterClear(g, v);
    NonzeroCell(Clear(g, v), (i, j));
    ComponentAfterRemoval(Nonzero(g), v, (i, j));
  }

  /** Clearing the cluster of a fresh cell keeps the scan invariant, with `largest` raised to its size if need be. */
  lemma ClusterGrow(g: seq<seq<int>>, v: set<Cell>, largest: int, largest': int, i: int, j: int)
    requires ClusterScan(g, v, largest, Clear(g, v))
    requires (i, j) in Nonzero(g) && (i, j) !in v
    requires largest' == if |Component(Nonzero(g), (i, j))| > largest then |Component(Nonzero(g), (i, j))| else largest
    ensures ClusterScan(g, v + Component(Nonzero(g), (i, j)), largest', Clear(Clear(g, v), Component(Nonzero(g), (i, j))))
    ensures (i, j) in v + Component(Nonzero(g), (i, j))
  {
    var s := Nonzero(g);
    var c := Component(s, (i, j));
    SeedInComponent(s, (i, j));
    ComponentClosed(s, (i, j));
    ClosedUnion(s, v, c);
    ClearTwice(g, v, c);
    forall x | x in c
      ensures |Component(s, x)| <= largest'
    {
      SameComponent(s, (i, j), x);
    }
    if largest' != largest {
      assert (i, j) in v + c && largest' == |Component(s, (i, j))|;
    }
  }

  /** Once every nonzero cell is cleared, `largest` is the size of the largest cluster. */
  lemma ClusterDone(g: seq<seq<int>>, v: set<Cell>, largest: int)
    requires ClusterScan(g, v, largest, Clear(g, v))
    requires forall c :: c in Nonzero(g) ==> c in v
    ensures forall c :: c in Nonzero(g) ==> |Component(Nonzero(g), c)| <= largest
    ensures Nonzero(g) == {} ==> largest == 0
    ensures Nonzero(g) != {} ==> exists c :: c in Nonzero(g) && largest == |Component(Nonzero(g), c)|
    ensures 0 <= largest <= |Nonzero(g)|
  {
    assert v == Nonzero(g);
    if v != {} {
      var c :| c in v && largest == |Component(Nonzero(g), c)|;
      SubsetCard(Component(Nonzero(g), c), Nonzero(g));
    }
  }

  /** Once (i, j) is cleared, every nonzero cell up to and including it is cleared. */
  lemma ScanStep(s: set<Cell>, v: set<Cell>, v': set<Cell>, i: int, j: int)
    requires forall c {:trigger Scanned(c, i, j)} :: c in s && Scanned(c, i, j) ==> c in v
    requires v <= v' && ((i, j) in s ==> (i, j) in v')
    ensures forall c {:trigger Scanned(c, i, j + 1)} :: c in s && Scanned(c, i, j + 1) ==> c in v'
  {
    forall c | c in s && Scanned(c, i, j + 1)
      ensures c in v'
    {
      if !Scanned(c, i, j) {
        assert c == (i, j);
      }
    }
  }

  /**
   * LargestCluster scans a copy of the grid row by row and floods every cell
   * still nonzero; the result is the size of the largest 4-connected cluster
   * of nonzero cells, or 0 when there is none.
   */
  method LargestCluster(notCounted: seq<seq<int>>) returns (largest: int)
    requires NeighboursSafe(notCounted)
    ensures forall c :: c in Nonzero(notCounted) ==> |Component(Nonzero(notCounted), c)| <= largest
    ensures Nonzero(notCounted) == {} ==> largest == 0
    ensures Nonzero(notCounted) != {} ==>
              exists c :: c in Nonzero(notCounted) && largest == |Component(Nonzero(notCounted), c)|
    ensures 0 <= largest <= |Nonzero(notCounted)|
  {
    ghost var s := Nonzero(notCounted);
    var grid := new CellGrid(notCounted);
    ghost var v: set<Cell> := {};
    ClearNothing(notCounted);
    largest := 0;
    var i := 0;
    while i < |grid.cells|
      invariant 0 <= i <= |notCounted|
      invariant ClusterScan(notCounted, v, largest, grid.cells)
      invariant forall c {:trigger Scanned(c, i, 0)} :: c in s && Scanned(c, i, 0) ==> c in v
    {
      var j := 0;
      while j < |grid.cells[i]|
        invariant 0 <= j <= |notCounted[i]|
        invariant ClusterScan(notCounted, v, largest, grid.cells)
        invariant forall c {:trigger Scanned(c, i, j)} :: c in s && Scanned(c, i, j) ==> c in v
      {
        if grid.cells[i][j] != 0 {
          ClusterFresh(notCounted, v, largest, i, j);
          var size := Visit(i, j, grid);
          ghost var before := largest;
          if size > largest {
            largest := size;
          }
          ClusterGrow(notCounted, v, before, largest, i, j);
          ScanStep(s, v, v + Component(s, (i, j)), i, j);
          v := v + Component(s, (i, j));
        } else {
          NonzeroCell(Clear(notCounted, v), (i, j));
          NonzeroAfterClear(notCounted, v);
          ScanStep(s, v, v, i, j);
        }
        j := j + 1;
      }
      forall c | c in s && Scanned(c, i + 1, 0)
        ensures c in v
      {
        NonzeroCell(notCounted, c);
        assert Scanned(c, i, j);
      }
      i := i + 1;
    }
    forall c | c in s
      ensures c in v
    {
      NonzeroCell(notCounted, c);
      assert Scanned(c, i, 0);
    }
    ClusterDone(notCounted, v, largest);
  }

  // =====================================================================
  // Shower-detector-plane fit

  /**
   * Entry (j, k) of the matrix FitSDPlane builds: over the pixels the signal
   * iterator visits, in order, the sum of direction[j] * direction[k] times
   * the pixel's summed count. `dirs` and `weights` list those directions and
   * counts in iteration order.
   */
  function WeightedSum(dirs: seq<Vec3>, weights: seq<int>, j: nat, k: nat): real
    requires |dirs| == |weights| && j < 3 && k < 3
    decreases |dirs|
  {
    if |dirs| == 0 then 0.0
    else
      var last := |dirs| - 1;
      WeightedSum(dirs[..last], weights[..last], j, k) + Coord(dirs[last], j) * Coord(dirs[last], k) * weights[last] as real
  }

  /** The weighted sums do not depend on the order of the two coordinates. */
  lemma {:induction false} WeightedSumSymmetric(dirs: seq<Vec3>, weights: seq<int>, j: nat, k: nat)
    requires |dirs| == |weights| && j < 3 && k < 3
    ensures WeightedSum(dirs, weights, j, k) == WeightedSum(dirs, weights, k, j)
    decreases |dirs|
  {
    if |dirs| > 0 {
      var last := |dirs| - 1;
      WeightedSumSymmetric(dirs[..last], weights[..last], j, k);
    }
  }

  /**
   * The 3 x 3 matrix of FitSDPlane: every entry is accumulated over the
   * pixels in iteration order, and the matrix is symmetric.
   */
  method DirectionMatrix(dirs: seq<Vec3>, weights: seq<int>) returns (matrix: array2<real>)
    requires |dirs| == |weights|
    ensures fresh(matrix) && matrix.Length0 == 3 && matrix.Length1 == 3
    ensures forall j, k :: 0 <= j < 3 && 0 <= k < 3 ==> matrix[j, k] == WeightedSum(dirs, weights, j, k)
    ensures forall j, k :: 0 <= j < 3 && 0 <= k < 3 ==> matrix[j, k] == matrix[k, j]
  {
    matrix := new real[3, 3];
    for j := 0 to 3
      invariant forall j', k :: 0 <= j' < j && 0 <= k < 3 ==> matrix[j', k] == WeightedSum(dirs, weights, j', k)
    {
      for k := 0 to 3
        invariant forall j', k' :: 0 <= j' < j && 0 <= k' < 3 ==> matrix[j', k'] == WeightedSum(dirs, weights, j', k')
        invariant forall k' :: 0 <= k' < k ==> matrix[j, k'] == WeightedSum(dirs, weights, j, k')
      {
        var element := 0.0;
        var p := 0;
        while p < |dirs|
          invariant 0 <= p <= |dirs|
          invariant element == WeightedSum(dirs[..p], weights[..p], j, k)
        {
          assert dirs[..p + 1][..p] == dirs[..p] && weights[..p + 1][..p] == weights[..p];
          element := element + Coord(dirs[p], j) * Coord(dirs[p], k) * weights[p] as real;
          p := p + 1;
        }
        assert dirs[..p] == dirs && weights[..p] == weights;
        matrix[j, k] := element;
      }
    }
    forall j, k | 0 <= j < 3 && 0 <= k < 3
      ensures matrix[j, k] == matrix[k, j]
    {
      WeightedSumSymmetric(dirs, weights, j, k);
    }
  }

  /**
   * The eigenvalue scan of FitSDPlane: start from index 0 and move only on a
   * strictly smaller value, so the first smallest eigenvalue is chosen.
   */
  method MinEigenIndex(eigenValues: seq<real>) returns (minIndex: int)
    requires |eigenValues| > 0
    ensures FirstMinimum(eigenValues, minIndex)
  {
    var minVal := eigenValues[0];
    minIndex := 0;
    for i := 0 to |eigenValues|
      invariant 0 <= minIndex < |eigenValues| && minVal == eigenValues[minIndex]
      invariant forall i' :: 0 <= i' < i ==> minVal <= eigenValues[i']
      invariant forall i' :: 0 <= i' < minIndex ==> minVal < eigenValues[i']
    {
      if eigenValues[i] < minVal {
        minVal := eigenValues[i];
        minIndex := i;
      }
    }
  }
}
