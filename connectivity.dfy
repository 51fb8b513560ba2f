/**
 * Cells of a two-dimensional pixel grid and their 4-connectivity:
 * paths through a set of cells, the connected component of a seed cell,
 * and the facts about components that the flood fill of
 * cherenkov_library/reconstructor.cpp relies on.
 */
module Connectivity {

  /** A grid cell, written (row, column). */
  type Cell = (int, int)

  /** Up, down, left or right neighbours (no diagonals). */
  predicate Adjacent(a: Cell, b: Cell) {
    (a.0 == b.0 && (a.1 == b.1 + 1 || a.1 + 1 == b.1)) ||
    (a.1 == b.1 && (a.0 == b.0 + 1 || a.0 + 1 == b.0))
  }

  /** `p` is a non-empty walk of 4-adjacent steps that never leaves `s`. */
  ghost predicate IsPath(s: set<Cell>, p: seq<Cell>) {
    && |p| > 0
    && (forall k :: 0 <= k < |p| ==> p[k] in s)
    && (forall k :: 0 <= k < |p| - 1 ==> Adjacent(p[k], p[k + 1]))
  }

  ghost predicate Reachable(s: set<Cell>, a: Cell, b: Cell) {
    exists p {:trigger IsPath(s, p)} :: IsPath(s, p) && p[0] == a && p[|p| - 1] == b
  }

  /** The 4-connected component of `seed` within `s`; empty when `seed` is not in `s`. */
  ghost function Component(s: set<Cell>, seed: Cell): (c: set<Cell>)
    ensures c <= s
  {
    set x | x in s && Reachable(s, seed, x)
  }

  /** No cell of `s` outside `z` touches a cell of `z`. */
  ghost predicate Closed(z: set<Cell>, s: set<Cell>) {
    forall x, y {:trigger Adjacent(x, y)} :: x in z && y in s && Adjacent(x, y) ==> y in z
  }

  /**
   * A flood from `seed` that has so far collected `z`: every collected cell is
   * reachable from the seed, and the only cells of `s` that touch `z` without
   * being collected are among the `pending` neighbours still to be visited.
   */
  ghost predicate PartialFlood(s: set<Cell>, seed: Cell, z: set<Cell>, pending: set<Cell>) {
    && seed in z
    && z <= s
    && (forall x {:trigger Reachable(s, seed, x)} :: x in z ==> Reachable(s, seed, x))
    && (forall x, y {:trigger Adjacent(x, y)} :: x in z && y in s && Adjacent(x, y) && y !in z ==> y in pending)
  }

  // ---------------------------------------------------------------------
  // Cardinalities

  lemma SubsetCard(a: set<Cell>, b: set<Cell>)
    requires a <= b
    ensures |a| <= |b|
    ensures |b - a| == |b| - |a|
  {
    var d := b - a;
    assert b == a + d;
    DisjointUnionCard(a, d);
  }

  lemma ProperSubsetCard(a: set<Cell>, b: set<Cell>, x: Cell)
    requires a <= b && x in b && x !in a
    ensures |a| < |b|
  {
    SubsetCard(a, b);
    assert x in b - a;
  }

  lemma DisjointUnionCard(a: set<Cell>, b: set<Cell>)
    requires a !! b
    ensures |a + b| == |a| + |b|
  {
    assert a * b == {};
  }

  // ---------------------------------------------------------------------
  // Paths

  lemma SingletonPath(s: set<Cell>, c: Cell)
    requires c in s
    ensures Reachable(s, c, c)
  {
    assert IsPath(s, [c]);
  }

  lemma ExtendPath(s: set<Cell>, a: Cell, b: Cell, y: Cell)
    requires Reachable(s, a, b) && y in s && Adjacent(b, y)
    ensures Reachable(s, a, y)
  {
    var p :| IsPath(s, p) && p[0] == a && p[|p| - 1] == b;
    var q := p + [y];
    assert IsPath(s, q) && q[0] == a && q[|q| - 1] == y;
  }

  lemma PrependPath(s: set<Cell>, t: set<Cell>, a: Cell, b: Cell, x: Cell)
    requires t <= s && a in s && Adjacent(a, b) && Reachable(t, b, x)
    ensures Reachable(s, a, x)
  {
    var p :| IsPath(t, p) && p[0] == b && p[|p| - 1] == x;
    var q := [a] + p;
    assert IsPath(s, q) && q[0] == a && q[|q| - 1] == x;
  }

  lemma ReachableSymmetric(s: set<Cell>, a: Cell, b: Cell)
    requires Reachable(s, a, b)
    ensures Reachable(s, b, a)
  {
    var p :| IsPath(s, p) && p[0] == a && p[|p| - 1] == b;
    var q := seq(|p|, k requires 0 <= k < |p| => p[|p| - 1 - k]);
    forall k | 0 <= k < |q| - 1
      ensures Adjacent(q[k], q[k + 1])
    {
      var j := |p| - 2 - k;
      assert Adjacent(p[j], p[j + 1]);
    }
    assert IsPath(s, q) && q[0] == b && q[|q| - 1] == a;
  }

  lemma ReachableTransitive(s: set<Cell>, a: Cell, b: Cell, c: Cell)
    requires Reachable(s, a, b) && Reachable(s, b, c)
    ensures Reachable(s, a, c)
  {
    var p :| IsPath(s, p) && p[0] == a && p[|p| - 1] == b;
    var q :| IsPath(s, q) && q[0] == b && q[|q| - 1] == c;
    var r := p + q[1..];
    assert forall k :: |p| <= k < |r| ==> r[k] == q[k - |p| + 1];
    assert IsPath(s, r) && r[0] == a && r[|r| - 1] == c;
  }

  /** Walking backwards along a path: a closed set that holds the end holds the start. */
  lemma {:induction false} ClosedHoldsStart(s: set<Cell>, z: set<Cell>, p: seq<Cell>)
    requires IsPath(s, p) && Closed(z, s) && p[|p| - 1] in z
    ensures p[0] in z
    decreases |p|
  {
    if |p| > 1 {
      assert IsPath(s, p[1..]);
      ClosedHoldsStart(s, z, p[1..]);
      assert Adjacent(p[1], p[0]) by { assert Adjacent(p[0], p[1]); }
    }
  }

  /** Walking forwards along a path: a closed set that holds the start holds the end. */
  lemma {:induction false} ClosedHoldsEnd(s: set<Cell>, z: set<Cell>, p: seq<Cell>)
    requires IsPath(s, p) && Closed(z, s) && p[0] in z
    ensures p[|p| - 1] in z
    decreases |p|
  {
    if |p| > 1 {
      var q := p[..|p| - 1];
      assert IsPath(s, q);
      ClosedHoldsEnd(s, z, q);
      assert Adjacent(q[|q| - 1], p[|p| - 1]);
    }
  }

  // ---------------------------------------------------------------------
  // Components

  lemma ReachableInside(s: set<Cell>, a: Cell, b: Cell)
    ensures Reachable(s, a, b) ==> a in s && b in s
  {
    if Reachable(s, a, b) {
      var p :| IsPath(s, p) && p[0] == a && p[|p| - 1] == b;
      assert p[0] in s && p[|p| - 1] in s;
    }
  }

  lemma ComponentOfMissingSeed(s: set<Cell>, seed: Cell)
    requires seed !in s
    ensures Component(s, seed) == {}
  {
    forall x | x in s
      ensures !Reachable(s, seed, x)
    {
      ReachableInside(s, seed, x);
    }
  }

  lemma SeedInComponent(s: set<Cell>, seed: Cell)
    requires seed in s
    ensures seed in Component(s, seed)
  {
    SingletonPath(s, seed);
  }

  lemma ComponentClosed(s: set<Cell>, seed: Cell)
    ensures Closed(Component(s, seed), s)
  {
    forall x, y | x in Component(s, seed) && y in s && Adjacent(x, y)
      ensures y in Component(s, seed)
    {
      ExtendPath(s, seed, x, y);
    }
  }

  lemma ClosedUnion(s: set<Cell>, a: set<Cell>, b: set<Cell>)
    requires Closed(a, s) && Closed(b, s)
    ensures Closed(a + b, s)
  {
  }

  /** A closed set holding the seed holds the seed's whole component. */
  lemma ClosedContainsComponent(s: set<Cell>, z: set<Cell>, seed: Cell)
    requires seed in z && Closed(z, s)
    ensures Component(s, seed) <= z
  {
    forall x | x in Component(s, seed)
      ensures x in z
    {
      var p :| IsPath(s, p) && p[0] == seed && p[|p| - 1] == x;
      ClosedHoldsEnd(s, z, p);
    }
  }

  /**
   * The component is the only set that holds the seed, stays inside `s`, is
   * closed in `s` and holds only cells reachable from the seed.
   */
  lemma ComponentUnique(s: set<Cell>, seed: Cell, z: set<Cell>)
    requires seed in z && z <= s && Closed(z, s)
    requires forall x :: x in z ==> Reachable(s, seed, x)
    ensures z == Component(s, seed)
  {
    ClosedContainsComponent(s, z, seed);
  }

  /** Every cell of a component has that same component. */
  lemma SameComponent(s: set<Cell>, seed: Cell, x: Cell)
    requires x in Component(s, seed)
    ensures Component(s, x) == Component(s, seed)
  {
    ReachableSymmetric(s, seed, x);
    forall y | y in Component(s, x)
      ensures y in Component(s, seed)
    {
      ReachableTransitive(s, seed, x, y);
    }
    forall y | y in Component(s, seed)
      ensures y in Component(s, x)
    {
      ReachableTransitive(s, x, seed, y);
    }
  }

  /** Removing a closed part of `s` does not change the components of the cells left. */
  lemma ComponentAfterRemoval(s: set<Cell>, v: set<Cell>, seed: Cell)
    requires v <= s && Closed(v, s) && seed in s && seed !in v
    ensures Component(s - v, seed) == Component(s, seed)
  {
    forall x | x in Component(s, seed)
      ensures x in Component(s - v, seed)
    {
      var p :| IsPath(s, p) && p[0] == seed && p[|p| - 1] == x;
      forall k | 0 <= k < |p|
        ensures p[k] !in v
      {
        var q := p[..k + 1];
        assert IsPath(s, q);
        if p[k] in v {
          ClosedHoldsStart(s, v, q);
        }
      }
      assert IsPath(s - v, p);
    }
    forall x | x in Component(s - v, seed)
      ensures x in Component(s, seed)
    {
      var p :| IsPath(s - v, p) && p[0] == seed && p[|p| - 1] == x;
      assert IsPath(s, p);
    }
  }

  // ---------------------------------------------------------------------
  // The flood from a seed, one neighbour at a time

  /** The flood starts with the seed alone; its four neighbours are pending. */
  lemma FloodStart(s: set<Cell>, i: int, j: int)
    requires (i, j) in s
    ensures PartialFlood(s, (i, j), {(i, j)}, {(i + 1, j)} + ({(i - 1, j)} + ({(i, j + 1)} + ({(i, j - 1)} + {}))))
  {
    SingletonPath(s, (i, j));
  }

  /**
   * Flooding the pending neighbour `n` within what is left of `s` (the
   * component of `n` in `s - z`) extends the flood, and `n` is no longer pending.
   */
  lemma FloodStep(s: set<Cell>, seed: Cell, z: set<Cell>, n: Cell, rest: set<Cell>)
    requires PartialFlood(s, seed, z, {n} + rest) && Adjacent(seed, n)
    ensures PartialFlood(s, seed, z + Component(s - z, n), rest)
    ensures z !! Component(s - z, n)
  {
    var c := Component(s - z, n);
    var z' := z + c;
    forall x | x in c
      ensures Reachable(s, seed, x)
    {
      PrependPath(s, s - z, seed, n, x);
    }
    if n in s && n !in z {
      SeedInComponent(s - z, n);
    }
    ComponentClosed(s - z, n);
    forall x, y | x in z' && y in s && Adjacent(x, y) && y !in z'
      ensures y in rest
    {
      assert y in {n} + rest;
    }
  }

  /** With nothing left pending the flood is closed, so it is the whole component. */
  lemma FloodEnd(s: set<Cell>, seed: Cell, z: set<Cell>)
    requires PartialFlood(s, seed, z, {})
    ensures z == Component(s, seed)
  {
    ComponentUnique(s, seed, z);
  }
}
