/** Types shared by the loaders, the centroid and the energy model. */
module Common {

  datatype Option<+T> = None | Some(value: T)

  /** A value, or the exception the Python code raises instead of returning one. */
  datatype Result<+T> = Ok(value: T) | Err(failure: Failure)

  /** One constructor per place the modelled code can raise an exception. */
  datatype Failure =
    | MissingCountLine               // `lines[0]` on an empty file (IndexError)
    | NotAnInteger(text: string)     // `int(...)` on the atom-count line (ValueError)
    | NotANumber(text: string)       // `float(...)` on a coordinate field (ValueError)
    | BlankLine                      // `parts[0]` on a line with no fields (IndexError)
    | UnknownElement(symbol: string) // `ATOMIC_MASSES[element]` (KeyError)
    | ZeroTotalMass                  // `x_mass / total_mass` with no mass (ZeroDivisionError)
    | IndexOutOfRange(index: int)    // `coords[i]` outside the array (IndexError)
    | BadShape                       // `reshape(-1, 3)` or `np.array` of ragged rows (ValueError)

  /** A position in Angstrom. */
  datatype Vec3 = Vec3(x: real, y: real, z: real)

  function SqDist(p: Vec3, q: Vec3): real
  {
    (p.x - q.x) * (p.x - q.x) + (p.y - q.y) * (p.y - q.y) + (p.z - q.z) * (p.z - q.z)
  }

  /** Squaring is strictly increasing on the non-negative numbers. */
  lemma SquareLess(r: real, s: real)
    requires 0.0 <= r < s
    ensures r * r < s * s
  {
    var a, b := s - r, s + r;
    assert a * b > 0.0;
    assert a * b == s * s - r * r;
  }

  /** A non-negative square root is unique. */
  lemma RootUnique(r: real, s: real)
    requires 0.0 <= r && 0.0 <= s && r * r == s * s
    ensures r == s
  {
    if r < s {
      SquareLess(r, s);
    } else if s < r {
      SquareLess(s, r);
    }
  }

  /**
   * `dist` is the Euclidean norm of `p - q` (what `np.linalg.norm` computes):
   * the non-negative square root of the squared distance.
   */
  ghost predicate IsEuclidean(dist: (Vec3, Vec3) -> real)
  {
    forall p, q :: 0.0 <= dist(p, q) && dist(p, q) * dist(p, q) == SqDist(p, q)
  }

  /** The Euclidean distance from a point to itself is zero. */
  lemma DistSelf(dist: (Vec3, Vec3) -> real, p: Vec3)
    requires IsEuclidean(dist)
    ensures dist(p, p) == 0.0
  {
    assert dist(p, p) * dist(p, p) == SqDist(p, p) == 0.0 * 0.0;
    RootUnique(dist(p, p), 0.0);
  }

  /** Points whose squared distance is 1 are exactly 1 apart. */
  lemma DistUnit(dist: (Vec3, Vec3) -> real, p: Vec3, q: Vec3)
    requires IsEuclidean(dist)
    requires SqDist(p, q) == 1.0
    ensures dist(p, q) == 1.0
  {
    var r := dist(p, q);
    assert 0.0 <= r && r * r == 1.0 * 1.0;
    RootUnique(r, 1.0);
  }
}
