/**
 * Definitions shared by the model: exact-real three-vectors standing for
 * ROOT's TVector3, the Option/Result wrappers used for the source's null
 * returns and exceptions, and the "first strict minimum" that every search
 * loop of the program keeps.
 */
module Common {

  /** A three-vector; the source's doubles are modelled as exact reals. */
  datatype Vec3 = Vec3(x: real, y: real, z: real)

  /** Component `k` (0, 1 or 2) of `v`, as TVector3's operator[] gives it. */
  function Coord(v: Vec3, k: nat): real
    requires k < 3
  {
    if k == 0 then v.x else if k == 1 then v.y else v.z
  }

  const Origin: Vec3 := Vec3(0.0, 0.0, 0.0)

  function Abs(r: real): real {
    if r < 0.0 then -r else r
  }

  /** Conversion of a double to an integer type in C++: truncation toward zero. */
  function Trunc(r: real): int {
    if r >= 0.0 then r.Floor else -((-r).Floor)
  }

  datatype Option<T> = None | Some(value: T)

  datatype Result<T, E> = Ok(value: T) | Err(error: E)

  /**
   * `m` indexes a smallest element of `vals`, and no earlier index holds one:
   * what a scan keeps when it replaces its candidate only on a strict `<`.
   */
  predicate FirstMinimum(vals: seq<real>, m: int) {
    && 0 <= m < |vals|
    && (forall i :: 0 <= i < |vals| ==> vals[m] <= vals[i])
    && (forall i :: 0 <= i < m ==> vals[m] < vals[i])
  }

  /** There is exactly one first minimum. */
  lemma FirstMinimumUnique(vals: seq<real>, m: int, m': int)
    requires FirstMinimum(vals, m) && FirstMinimum(vals, m')
    ensures m == m'
  {
    assert vals[m] <= vals[m'] && vals[m'] <= vals[m];
  }

  /**
   * How many passes a shower view makes: the C++ integer conversion of
   * time-to-ground / delay + 2.
   */
  function NumberOfSteps(timeToPlane: real, timeDelay: real): int
    requires timeDelay != 0.0
  {
    Trunc(timeToPlane / timeDelay + 2.0)
  }

  /** A shower still ahead of the ground plane, stepped forward in time, is seen at least twice. */
  lemma AtLeastTwoSteps(timeToPlane: real, timeDelay: real)
    requires timeDelay > 0.0 && timeToPlane >= 0.0
    ensures NumberOfSteps(timeToPlane, timeDelay) >= 2
  {
    assert timeToPlane / timeDelay >= 0.0;
  }

  /** The number of passes a loop `for (i = 0; i < n; i++)` makes. */
  function Passes(n: int): nat {
    if n > 0 then n else 0
  }
}
