/**
 * energy_calc.py: the strict XYZ reader `read_xyz`, the harmonic bond energy,
 * the Lennard-Jones van der Waals energy and their sum.
 *
 * `np.linalg.norm(coords[i] - coords[j])` is the parameter `dist`; the lemmas
 * that need it to be the Euclidean distance say so with `IsEuclidean(dist)`.
 * Python's `int()` and `float()` are the parameters `parseInt` and `parse`.
 */
module EnergyCalc {
  import opened Common
  import opened XyzText

  /** `K_bond`: bond stiffness, kcal/(mol·Å²). */
  const KBond: real := 1.0
  /** `epsilon`: depth of the Lennard-Jones well, kcal/mol. */
  const Epsilon: real := 0.2
  /** `sigma`: Lennard-Jones radius, Å. */
  const Sigma: real := 3.5

  // ---------------------------------------------------------------------------
  // read_xyz
  // ---------------------------------------------------------------------------

  /** The two lists `read_xyz` builds: one element and one coordinate row per line. */
  datatype Table = Table(elements: seq<string>, rows: seq<seq<real>>)

  /** What `read_xyz` returns once both lists have become arrays. */
  datatype Molecule = Molecule(elements: seq<string>, coords: seq<Vec3>)

  function Min(a: int, b: int): int
  {
    if a <= b then a else b
  }

  /** `[float(x) for x in fields]`: every field converted, the first bad one raising. */
  function ParseFields(fields: seq<string>, parse: string -> Option<real>): (r: Result<seq<real>>)
    ensures r.Ok? <==> forall k :: 0 <= k < |fields| ==> parse(fields[k]).Some?
    ensures r.Ok? ==> |r.value| == |fields| && forall k :: 0 <= k < |fields| ==> parse(fields[k]) == Some(r.value[k])
    decreases |fields|
  {
    if fields == [] then Ok([])
    else
      var init, last := fields[..|fields| - 1], fields[|fields| - 1];
      assert forall k :: 0 <= k < |init| ==> init[k] == fields[k];
      match ParseFields(init, parse)
      case Err(f) => Err(f)
      case Ok(xs) =>
        match parse(last)
        case None => Err(NotANumber(last))
        case Some(x) => Ok(xs + [x])
  }

  /** The fields `parts[1:4]` of a split line: at most three, after the symbol. */
  function CoordinateFields(parts: seq<string>): (fs: seq<string>)
    requires parts != []
    ensures |fs| == Min(3, |parts| - 1) && fs == parts[1..|fs| + 1]
  {
    parts[1..Min(4, |parts|)]
  }

  /** One line after the header: `parts[0]` fails on a blank line. */
  function ReadEntry(line: string, parse: string -> Option<real>): Result<(string, seq<real>)>
  {
    var parts := Split(line);
    if parts == [] then Err(BlankLine)
    else
      match ParseFields(CoordinateFields(parts), parse)
      case Err(f) => Err(f)
      case Ok(row) => Ok((parts[0], row))
  }

  /** The loop over `lines[2:]`, stopping at the first exception. */
  function ReadBody(body: seq<string>, parse: string -> Option<real>): Result<Table>
    decreases |body|
  {
    if body == [] then Ok(Table([], []))
    else
      match ReadBody(body[..|body| - 1], parse)
      case Err(f) => Err(f)
      case Ok(t) =>
        match ReadEntry(body[|body| - 1], parse)
        case Err(f) => Err(f)
        case Ok(entry) => Ok(Table(t.elements + [entry.0], t.rows + [entry.1]))
  }

  /** Reading one more line that reads appends its entry to the table. */
  lemma ReadBodyExtend(body: seq<string>, i: nat, parse: string -> Option<real>, t: Table, e: (string, seq<real>))
    requires i < |body|
    requires ReadBody(body[..i], parse) == Ok(t) && ReadEntry(body[i], parse) == Ok(e)
    ensures ReadBody(body[..i + 1], parse) == Ok(Table(t.elements + [e.0], t.rows + [e.1]))
  {
    assert body[..i + 1][..i] == body[..i];
  }

  /** A line that does not read ends the body with its exception. */
  lemma ReadBodyFails(body: seq<string>, i: nat, parse: string -> Option<real>, f: Failure)
    requires i < |body|
    requires ReadBody(body[..i], parse).Ok? && ReadEntry(body[i], parse) == Err(f)
    ensures ReadBody(body, parse) == Err(f)
  {
    assert body[..i + 1][..i] == body[..i];
    assert ReadBody(body[..i + 1], parse) == Err(f);
    ReadBodyErrorSticks(body, i + 1, parse);
  }

  /** The two lists of `read_xyz`, or its exception; line 1 must be an integer. */
  function XyzTable(lines: seq<string>, parseInt: string -> Option<int>, parse: string -> Option<real>): Result<Table>
  {
    if lines == [] then Err(MissingCountLine)
    else if parseInt(Strip(lines[0])).None? then Err(NotAnInteger(Strip(lines[0])))
    else ReadBody(AfterHeader(lines), parse)
  }

  /** `np.array(coordinates)`: a table of points when every row has three numbers. */
  function ToPoints(rows: seq<seq<real>>): (r: Result<seq<Vec3>>)
    ensures r.Ok? <==> forall k :: 0 <= k < |rows| ==> |rows[k]| == 3
    ensures r.Ok? ==>
      |r.value| == |rows| && forall k :: 0 <= k < |rows| ==> r.value[k] == Vec3(rows[k][0], rows[k][1], rows[k][2])
    decreases |rows|
  {
    if rows == [] then Ok([])
    else
      var init, last := rows[..|rows| - 1], rows[|rows| - 1];
      assert forall k :: 0 <= k < |init| ==> init[k] == rows[k];
      match ToPoints(init)
      case Err(f) => Err(f)
      case Ok(ps) => if |last| == 3 then Ok(ps + [Vec3(last[0], last[1], last[2])]) else Err(BadShape)
  }

  /** What `read_xyz` returns for a file with these lines. */
  function XyzMolecule(lines: seq<string>, parseInt: string -> Option<int>, parse: string -> Option<real>): Result<Molecule>
  {
    match XyzTable(lines, parseInt, parse)
    case Err(f) => Err(f)
    case Ok(t) =>
      match ToPoints(t.rows)
      case Err(f) => Err(f)
      case Ok(ps) => Ok(Molecule(t.elements, ps))
  }

  /** An exception on some line is the exception of the whole body. */
  lemma {:induction false} ReadBodyErrorSticks(body: seq<string>, k: nat, parse: string -> Option<real>)
    requires k <= |body|
    requires ReadBody(body[..k], parse).Err?
    ensures ReadBody(body, parse) == ReadBody(body[..k], parse)
    decreases |body|
  {
    if k < |body| {
      var init := body[..|body| - 1];
      assert init[..k] == body[..k];
      ReadBodyErrorSticks(init, k, parse);
    } else {
      assert body[..k] == body;
    }
  }

  /** `read_xyz`: the count line is converted, then every later line read in order. */
  method ReadXyz(lines: seq<string>, parseInt: string -> Option<int>, parse: string -> Option<real>)
    returns (r: Result<Molecule>)
    ensures r == XyzMolecule(lines, parseInt, parse)
  {
    if lines == [] {
      return Err(MissingCountLine);
    }
    var atomCount := parseInt(Strip(lines[0]));
    if atomCount.None? {
      return Err(NotAnInteger(Strip(lines[0])));
    }
    var body := AfterHeader(lines);
    var atoms: seq<string> := [];
    var coordinates: seq<seq<real>> := [];
    var i := 0;
    while i < |body|
      invariant 0 <= i <= |body|
      invariant ReadBody(body[..i], parse) == Ok(Table(atoms, coordinates))
    {
      ghost var before := Table(atoms, coordinates);
      var parts := Split(body[i]);
      if parts == [] {
        ReadBodyFails(body, i, parse, BlankLine);
        return Err(BlankLine);
      }
      atoms := atoms + [parts[0]];
      var row := ParseFields(CoordinateFields(parts), parse);
      if row.Err? {
        ReadBodyFails(body, i, parse, row.failure);
        return Err(row.failure);
      }
      ReadBodyExtend(body, i, parse, before, (parts[0], row.value));
      coordinates := coordinates + [row.value];
      i := i + 1;
    }
    assert body[..i] == body;
    var points := ToPoints(coordinates);
    if points.Err? {
      return Err(points.failure);
    }
    return Ok(Molecule(atoms, points.value));
  }

  /**
   * The atom count on line 1 must be an integer but is otherwise ignored:
   * the result depends only on the lines after the header.
   */
  lemma CountIgnored(count: string, comment: string, body: seq<string>,
                     parseInt: string -> Option<int>, parse: string -> Option<real>)
    requires parseInt(Strip(count)).Some?
    ensures XyzTable([count, comment] + body, parseInt, parse) == ReadBody(body, parse)
  {
    var lines := [count, comment] + body;
    assert lines[0] == count;
    assert AfterHeader(lines) == body by {
      assert lines[2..] == body;
    }
  }

  /** The body reads without error exactly when every line does. */
  lemma ReadBodySucceeds(body: seq<string>, parse: string -> Option<real>)
    ensures ReadBody(body, parse).Ok? <==> forall k :: 0 <= k < |body| ==> ReadEntry(body[k], parse).Ok?
  {
    if ReadBody(body, parse).Ok? {
      ReadBodyOneEntryPerLine(body, parse);
    } else if forall k :: 0 <= k < |body| ==> ReadEntry(body[k], parse).Ok? {
      ReadBodyLinesRead(body, parse);
    }
  }

  /** When every line reads, so does the body. */
  lemma {:induction false} ReadBodyLinesRead(body: seq<string>, parse: string -> Option<real>)
    requires forall k :: 0 <= k < |body| ==> ReadEntry(body[k], parse).Ok?
    ensures ReadBody(body, parse).Ok?
    decreases |body|
  {
    if body != [] {
      var n := |body| - 1;
      var init := body[..n];
      assert forall k :: 0 <= k < n ==> init[k] == body[k];
      ReadBodyLinesRead(init, parse);
      ReadBodyStep(body, parse);
    }
  }

  /**
   * Every line after the header becomes exactly one entry, in order: its first
   * field is the element and fields 2-4 (as many as there are) its coordinates.
   */
  lemma {:induction false} ReadBodyOneEntryPerLine(body: seq<string>, parse: string -> Option<real>)
    requires ReadBody(body, parse).Ok?
    ensures var t := ReadBody(body, parse).value;
      |t.elements| == |body| && |t.rows| == |body|
      && forall k :: 0 <= k < |body| ==> ReadEntry(body[k], parse) == Ok((t.elements[k], t.rows[k]))
    decreases |body|
  {
    if body != [] {
      var n := |body| - 1;
      var init := body[..n];
      ReadBodyLast(body, parse);
      ReadBodyOneEntryPerLine(init, parse);
      assert forall k :: 0 <= k < n ==> init[k] == body[k];
    }
  }

  /** A body reads when the body without its last line does and that line does. */
  lemma ReadBodyStep(body: seq<string>, parse: string -> Option<real>)
    requires body != []
    ensures ReadBody(body, parse).Ok?
      <==> ReadBody(body[..|body| - 1], parse).Ok? && ReadEntry(body[|body| - 1], parse).Ok?
  {
  }

  /** A body that reads is the body without its last line, plus that line's entry. */
  lemma ReadBodyLast(body: seq<string>, parse: string -> Option<real>)
    requires body != [] && ReadBody(body, parse).Ok?
    ensures var init, last := body[..|body| - 1], body[|body| - 1];
      ReadBody(init, parse).Ok? && ReadEntry(last, parse).Ok?
      && var t, e := ReadBody(init, parse).value, ReadEntry(last, parse).value;
      ReadBody(body, parse).value == Table(t.elements + [e.0], t.rows + [e.1])
  {
  }

  /** A line with no fields after the header is an error, not skipped. */
  lemma BlankLineFails(line: string, parse: string -> Option<real>)
    requires AllSpace(line)
    ensures ReadEntry(line, parse) == Err(BlankLine)
  {
    SplitEmpty(line);
  }

  /** An entry's coordinates are the numbers in fields 2-4 of its line. */
  lemma ReadEntryFields(line: string, parse: string -> Option<real>)
    requires ReadEntry(line, parse).Ok?
    ensures var parts, e := Split(line), ReadEntry(line, parse).value;
      parts != [] && e.0 == parts[0] && |e.1| == Min(3, |parts| - 1)
      && forall k :: 0 <= k < |e.1| ==> parse(parts[k + 1]) == Some(e.1[k])
  {
  }

  // ---------------------------------------------------------------------------
  // bond_energy
  // ---------------------------------------------------------------------------

  /** `x ** 2`. */
  function Square(x: real): real
  {
    x * x
  }

  lemma ProductPositive(a: real, b: real, s: real)
    requires s == a * b && a > 0.0 && b > 0.0
    ensures s > 0.0
  {
  }

  lemma NonZeroSquare(d: real, s: real)
    requires s == d * d && d != 0.0
    ensures s > 0.0
  {
    if d > 0.0 {
      ProductPositive(d, d, s);
    } else {
      ProductPositive(-d, -d, s);
    }
  }

  /** A non-zero number has a positive square. */
  lemma SquarePositive(d: real)
    requires d != 0.0
    ensures Square(d) > 0.0
  {
    NonZeroSquare(d, Square(d));
  }

  /** `0.5 * K_bond * (r - r_eq) ** 2`. */
  function BondTerm(r: real, rEq: real): real
  {
    0.5 * KBond * Square(r - rEq)
  }

  /** A bond term is never negative, and is zero exactly at the rest length. */
  lemma BondTermZero(r: real, rEq: real)
    ensures BondTerm(r, rEq) >= 0.0
    ensures BondTerm(r, rEq) == 0.0 <==> r == rEq
  {
    if r != rEq {
      SquarePositive(r - rEq);
    }
  }

  /** numpy's `coords[i]` on n rows: -n..-1 count from the end, anything else outside is an error. */
  function Resolve(i: int, n: nat): (k: Option<nat>)
    ensures k.Some? <==> -(n as int) <= i < n
    ensures k.Some? ==> k.value < n && (if i < 0 then k.value == i + n else k.value == i)
  {
    if 0 <= i < n then Some(i)
    else if -(n as int) <= i < 0 then Some(i + n)
    else None
  }

  /** Both ends of a bond name rows of `coords`. */
  predicate BondResolves(coords: seq<Vec3>, bond: (int, int))
  {
    Resolve(bond.0, |coords|).Some? && Resolve(bond.1, |coords|).Some?
  }

  /** The bond's ends are exactly `rEq` apart. */
  predicate AtRest(coords: seq<Vec3>, bond: (int, int), rEq: real, dist: (Vec3, Vec3) -> real)
  {
    BondResolves(coords, bond)
    && dist(coords[Resolve(bond.0, |coords|).value], coords[Resolve(bond.1, |coords|).value]) == rEq
  }

  /** `bond_energy`: the bond terms summed over the bond list in order, or the IndexError. */
  function BondSum(coords: seq<Vec3>, bonds: seq<(int, int)>, rEq: real, dist: (Vec3, Vec3) -> real): Result<real>
    decreases |bonds|
  {
    if bonds == [] then Ok(0.0)
    else
      match BondSum(coords, bonds[..|bonds| - 1], rEq, dist)
      case Err(f) => Err(f)
      case Ok(e) =>
        var (i, j) := bonds[|bonds| - 1];
        match Resolve(i, |coords|)
        case None => Err(IndexOutOfRange(i))
        case Some(a) =>
          match Resolve(j, |coords|)
          case None => Err(IndexOutOfRange(j))
          case Some(b) => Ok(e + BondTerm(dist(coords[a], coords[b]), rEq))
  }

  lemma {:induction false} BondSumErrorSticks(coords: seq<Vec3>, bonds: seq<(int, int)>, k: nat,
                                              rEq: real, dist: (Vec3, Vec3) -> real)
    requires k <= |bonds|
    requires BondSum(coords, bonds[..k], rEq, dist).Err?
    ensures BondSum(coords, bonds, rEq, dist) == BondSum(coords, bonds[..k], rEq, dist)
    decreases |bonds|
  {
    if k < |bonds| {
      var init := bonds[..|bonds| - 1];
      assert init[..k] == bonds[..k];
      BondSumErrorSticks(coords, init, k, rEq, dist);
    } else {
      assert bonds[..k] == bonds;
    }
  }

  /** `bond_energy`: one accumulator over the bond list. */
  method BondEnergy(coords: seq<Vec3>, bonds: seq<(int, int)>, rEq: real, dist: (Vec3, Vec3) -> real)
    returns (r: Result<real>)
    ensures r == BondSum(coords, bonds, rEq, dist)
  {
    var e := 0.0;
    var k := 0;
    while k < |bonds|
      invariant 0 <= k <= |bonds|
      invariant BondSum(coords, bonds[..k], rEq, dist) == Ok(e)
    {
      assert bonds[..k + 1][..k] == bonds[..k];
      var (i, j) := bonds[k];
      var a := Resolve(i, |coords|);
      if a.None? {
        BondSumErrorSticks(coords, bonds, k + 1, rEq, dist);
        return Err(IndexOutOfRange(i));
      }
      var b := Resolve(j, |coords|);
      if b.None? {
        BondSumErrorSticks(coords, bonds, k + 1, rEq, dist);
        return Err(IndexOutOfRange(j));
      }
      var dr := dist(coords[a.value], coords[b.value]);
      e := e + 0.5 * KBond * Square(dr - rEq);
      k := k + 1;
    }
    assert bonds[..k] == bonds;
    return Ok(e);
  }

  /**
   * The bond energy is defined exactly when every bond's ends are rows of the
   * array; it is then never negative, and it is zero exactly when every bond
   * is at its rest length (so the empty bond list gives zero).
   */
  lemma {:induction false} BondSumProperties(coords: seq<Vec3>, bonds: seq<(int, int)>, rEq: real,
                                             dist: (Vec3, Vec3) -> real)
    ensures BondSum(coords, bonds, rEq, dist).Ok? <==> forall k :: 0 <= k < |bonds| ==> BondResolves(coords, bonds[k])
    ensures BondSum(coords, bonds, rEq, dist).Ok? ==> BondSum(coords, bonds, rEq, dist).value >= 0.0
    ensures BondSum(coords, bonds, rEq, dist) == Ok(0.0) <==>
      forall k :: 0 <= k < |bonds| ==> AtRest(coords, bonds[k], rEq, dist)
    decreases |bonds|
  {
    if bonds != [] {
      var n := |bonds| - 1;
      var init, last := bonds[..n], bonds[n];
      BondSumProperties(coords, init, rEq, dist);
      assert forall k :: 0 <= k < n ==> init[k] == bonds[k];
      if BondSum(coords, init, rEq, dist).Ok? && BondResolves(coords, last) {
        var a, b := Resolve(last.0, |coords|).value, Resolve(last.1, |coords|).value;
        BondTermZero(dist(coords[a], coords[b]), rEq);
      }
    }
  }

  /**
   * With Euclidean distances, bonds whose ends are at squared distance 1 are
   * all at rest for a rest length of 1 Å, so their energy is zero.
   */
  lemma UnitBondsAtRest(coords: seq<Vec3>, bonds: seq<(int, int)>, dist: (Vec3, Vec3) -> real)
    requires IsEuclidean(dist)
    requires forall k :: 0 <= k < |bonds| ==> 0 <= bonds[k].0 < |coords| && 0 <= bonds[k].1 < |coords|
    requires forall k :: 0 <= k < |bonds| ==> SqDist(coords[bonds[k].0], coords[bonds[k].1]) == 1.0
    ensures BondSum(coords, bonds, 1.0, dist) == Ok(0.0)
  {
    forall k | 0 <= k < |bonds|
      ensures AtRest(coords, bonds[k], 1.0, dist)
    {
      DistUnit(dist, coords[bonds[k].0], coords[bonds[k].1]);
    }
    BondSumProperties(coords, bonds, 1.0, dist);
  }

  /** Two carbons 1 Å apart bonded as (0, 1) with a rest length of 1 Å: no bond energy. */
  lemma UnitBondExample(dist: (Vec3, Vec3) -> real)
    requires IsEuclidean(dist)
    ensures BondSum([Vec3(0.0, 0.0, 0.0), Vec3(1.0, 0.0, 0.0), Vec3(0.5, 0.87, 0.0)], [(0, 1)], 1.0, dist) == Ok(0.0)
  {
    var coords := [Vec3(0.0, 0.0, 0.0), Vec3(1.0, 0.0, 0.0), Vec3(0.5, 0.87, 0.0)];
    assert SqDist(coords[0], coords[1]) == 1.0;
    UnitBondsAtRest(coords, [(0, 1)], dist);
  }

  // ---------------------------------------------------------------------------
  // vdw_energy
  // ---------------------------------------------------------------------------

  /** `b ** e` for a natural exponent. */
  function Pow(b: real, e: nat): real
  {
    if e == 0 then 1.0 else b * Pow(b, e - 1)
  }

  lemma {:induction false} PowAdd(b: real, m: nat, n: nat)
    ensures Pow(b, m + n) == Pow(b, m) * Pow(b, n)
  {
    if m > 0 {
      PowAdd(b, m - 1, n);
      assert Pow(b, m + n) == b * Pow(b, m - 1 + n);
    }
  }

  lemma {:induction false} PowOne(e: nat)
    ensures Pow(1.0, e) == 1.0
  {
    if e > 0 {
      PowOne(e - 1);
    }
  }

  /** `4 * epsilon * ((sigma / r) ** 12 - (sigma / r) ** 6)` at a non-zero distance. */
  function LennardJones(r: real): real
    requires r != 0.0
  {
    4.0 * Epsilon * (Pow(Sigma / r, 12) - Pow(Sigma / r, 6))
  }

  /** What one pair adds to `E_vdw`: nothing at distance 0, where the loop continues. */
  function PairTerm(r: real): real
  {
    if r == 0.0 then 0.0 else LennardJones(r)
  }

  /** The potential crosses zero at r = sigma. */
  lemma LennardJonesZeroAtSigma()
    ensures LennardJones(Sigma) == 0.0
  {
    assert Sigma / Sigma == 1.0;
    PowOne(12);
    PowOne(6);
  }

  lemma ShiftedSquare(u: real, s: real, t: real)
    requires s == (u - 0.5) * (u - 0.5) && t == u * u
    ensures s == t - u + 0.25
  {
  }

  /** 4ε(u² − u) = ε((2u − 1)² − 1): never below −ε, and equal to −ε only at u = 1/2. */
  lemma WellDepth(u: real)
    ensures 4.0 * Epsilon * (Square(u) - u) >= -Epsilon
    ensures 4.0 * Epsilon * (Square(u) - u) == -Epsilon <==> u == 0.5
  {
    ShiftedSquare(u, Square(u - 0.5), Square(u));
    if u != 0.5 {
      SquarePositive(u - 0.5);
    }
  }

  /**
   * The Lennard-Jones energy of one pair is at least −epsilon, reached only
   * where (sigma / r)⁶ = 1/2, and any pair at distance 0 adds nothing.
   */
  lemma PairTermBounds(r: real)
    ensures PairTerm(r) >= -Epsilon
    ensures r != 0.0 ==> (PairTerm(r) == -Epsilon <==> Pow(Sigma / r, 6) == 0.5)
  {
    if r != 0.0 {
      var u := Pow(Sigma / r, 6);
      PowAdd(Sigma / r, 6, 6);
      assert Pow(Sigma / r, 12) == Square(u);
      WellDepth(u);
    }
  }

  /** A coincident pair (distance 0 under the Euclidean norm) contributes nothing. */
  lemma CoincidentPairAddsNothing(dist: (Vec3, Vec3) -> real, p: Vec3)
    requires IsEuclidean(dist)
    ensures PairTerm(dist(p, p)) == 0.0
  {
    DistSelf(dist, p);
  }

  /** The pairs (i, lo), (i, lo + 1), ..., (i, hi - 1): one pass of the inner loop. */
  function Row(i: nat, lo: nat, hi: nat): (ps: seq<(nat, nat)>)
    requires lo <= hi
    ensures |ps| == hi - lo && forall k :: 0 <= k < |ps| ==> ps[k] == (i, lo + k)
  {
    seq(hi - lo, k requires 0 <= k < hi - lo => (i, lo + k))
  }

  /** The pairs the nested loops over n atoms visit before the outer index reaches i. */
  function PairsBefore(i: nat, n: nat): (ps: seq<(nat, nat)>)
    requires i <= n
    ensures forall k :: 0 <= k < |ps| ==> ps[k].0 < i && ps[k].0 < ps[k].1 < n
  {
    if i == 0 then [] else PairsBefore(i - 1, n) + Row(i - 1, i, n)
  }

  /** The pairs `vdw_energy` visits over n atoms, in loop order. */
  function VisitOrder(n: nat): seq<(nat, nat)>
  {
    PairsBefore(n, n)
  }

  /** (i, j) comes before (k, l) in lexicographic order. */
  predicate PairLess(p: (nat, nat), q: (nat, nat))
  {
    p.0 < q.0 || (p.0 == q.0 && p.1 < q.1)
  }

  /** Every pair i < j < n is visited: before outer index i, all pairs with a first index below i. */
  lemma {:induction false} PairsBeforeMembers(i: nat, n: nat, p: (nat, nat))
    requires i <= n
    ensures p in PairsBefore(i, n) <==> p.0 < i && p.0 < p.1 < n
  {
    if i > 0 {
      PairsBeforeMembers(i - 1, n, p);
      if p.0 == i - 1 && p.0 < p.1 < n {
        assert Row(i - 1, i, n)[p.1 - i] == p;
      }
    }
  }

  /** The visit order is strictly increasing, so no pair is visited twice. */
  lemma {:induction false} PairsBeforeSorted(i: nat, n: nat)
    requires i <= n
    ensures forall a, b :: 0 <= a < b < |PairsBefore(i, n)| ==> PairLess(PairsBefore(i, n)[a], PairsBefore(i, n)[b])
  {
    if i > 0 {
      PairsBeforeSorted(i - 1, n);
      var prev, row := PairsBefore(i - 1, n), Row(i - 1, i, n);
      var ps := prev + row;
      assert forall a :: 0 <= a < |prev| ==> ps[a] == prev[a];
      assert forall b :: |prev| <= b < |ps| ==> ps[b] == row[b - |prev|];
    }
  }

  /** 2·|PairsBefore(i, n)| = i·(2n − i − 1). */
  lemma {:induction false} PairsBeforeLength(i: nat, n: nat)
    requires i <= n
    ensures 2 * |PairsBefore(i, n)| == i * (2 * n - i - 1)
  {
    if i > 0 {
      PairsBeforeLength(i - 1, n);
      assert i * (2 * n - i - 1) == (i - 1) * (2 * n - (i - 1) - 1) + 2 * (n - i);
    }
  }

  /**
   * `vdw_energy` visits exactly the pairs i < j < n, each once, in increasing
   * lexicographic order: n(n − 1)/2 pairs.
   */
  lemma VisitOrderProperties(n: nat)
    ensures forall p :: p in VisitOrder(n) <==> p.0 < p.1 < n
    ensures forall a, b :: 0 <= a < b < |VisitOrder(n)| ==> PairLess(VisitOrder(n)[a], VisitOrder(n)[b])
    ensures |VisitOrder(n)| == n * (n - 1) / 2
  {
    forall p: (nat, nat)
      ensures p in VisitOrder(n) <==> p.0 < p.1 < n
    {
      PairsBeforeMembers(n, n, p);
    }
    PairsBeforeSorted(n, n);
    PairsBeforeLength(n, n);
  }

  /** Every pair names two rows. */
  predicate PairsIn(ps: seq<(nat, nat)>, n: nat)
  {
    forall k :: 0 <= k < |ps| ==> ps[k].0 < n && ps[k].1 < n
  }

  /** The pair terms summed over `ps` in order. */
  function PairSum(coords: seq<Vec3>, ps: seq<(nat, nat)>, dist: (Vec3, Vec3) -> real): real
    requires PairsIn(ps, |coords|)
    decreases |ps|
  {
    if ps == [] then 0.0
    else
      var p := ps[|ps| - 1];
      PairSum(coords, ps[..|ps| - 1], dist) + PairTerm(dist(coords[p.0], coords[p.1]))
  }

  /** The pairs visited once the outer index is i and the inner index j. */
  function Visited(i: nat, j: nat, n: nat): (ps: seq<(nat, nat)>)
    requires i < j <= n
    ensures PairsIn(ps, n)
  {
    PairsBefore(i, n) + Row(i, i + 1, j)
  }

  /** Visiting pair (i, j) adds its term to the sum. */
  lemma VisitPair(coords: seq<Vec3>, i: nat, j: nat, dist: (Vec3, Vec3) -> real)
    requires i < j < |coords|
    ensures PairSum(coords, Visited(i, j + 1, |coords|), dist)
      == PairSum(coords, Visited(i, j, |coords|), dist) + PairTerm(dist(coords[i], coords[j]))
  {
    var ps := Visited(i, j, |coords|);
    assert Visited(i, j + 1, |coords|) == ps + [(i, j)];
    assert (ps + [(i, j)])[..|ps|] == ps;
  }

  /** What `vdw_energy` returns. */
  function VdwSum(coords: seq<Vec3>, dist: (Vec3, Vec3) -> real): real
  {
    PairSum(coords, VisitOrder(|coords|), dist)
  }

  /** `vdw_energy`: nested loops over i < j, skipping coincident pairs. */
  method VdwEnergy(coords: seq<Vec3>, dist: (Vec3, Vec3) -> real) returns (e: real)
    ensures e == VdwSum(coords, dist)
  {
    var n := |coords|;
    e := 0.0;
    var i := 0;
    while i < n
      invariant 0 <= i <= n
      invariant e == PairSum(coords, PairsBefore(i, n), dist)
    {
      var j := i + 1;
      VisitedStart(i, n);
      while j < n
        invariant i + 1 <= j <= n
        invariant e == PairSum(coords, Visited(i, j, n), dist)
      {
        VisitPair(coords, i, j, dist);
        var r := dist(coords[i], coords[j]);
        if r != 0.0 {
          e := e + LennardJones(r);
        }
        j := j + 1;
      }
      VisitedDone(i, n);
      i := i + 1;
    }
  }

  /** Before the inner loop's first pass, the pairs visited are those of the earlier rows. */
  lemma VisitedStart(i: nat, n: nat)
    requires i < n
    ensures Visited(i, i + 1, n) == PairsBefore(i, n)
  {
    assert Row(i, i + 1, i + 1) == [];
  }

  /** After the inner loop, row i is complete. */
  lemma VisitedDone(i: nat, n: nat)
    requires i < n
    ensures Visited(i, n, n) == PairsBefore(i + 1, n)
  {
  }

  /** Fewer than two atoms have no pairs, so no van der Waals energy. */
  lemma VdwFewAtoms(coords: seq<Vec3>, dist: (Vec3, Vec3) -> real)
    requires |coords| < 2
    ensures VdwSum(coords, dist) == 0.0
  {
    assert VisitOrder(|coords|) == [] by {
      if |coords| == 1 {
        assert PairsBefore(1, 1) == PairsBefore(0, 1) + Row(0, 1, 1);
      }
    }
  }

  lemma {:induction false} PairSumLowerBound(coords: seq<Vec3>, ps: seq<(nat, nat)>, dist: (Vec3, Vec3) -> real)
    requires PairsIn(ps, |coords|)
    ensures PairSum(coords, ps, dist) >= -Epsilon * |ps| as real
    decreases |ps|
  {
    if ps != [] {
      var p := ps[|ps| - 1];
      PairSumLowerBound(coords, ps[..|ps| - 1], dist);
      PairTermBounds(dist(coords[p.0], coords[p.1]));
    }
  }

  /** The van der Waals energy of n atoms is at least −epsilon · n(n − 1)/2. */
  lemma VdwLowerBound(coords: seq<Vec3>, dist: (Vec3, Vec3) -> real)
    ensures VdwSum(coords, dist) >= -Epsilon * (|coords| * (|coords| - 1) / 2) as real
  {
    PairSumLowerBound(coords, VisitOrder(|coords|), dist);
    VisitOrderProperties(|coords|);
  }

  // ---------------------------------------------------------------------------
  // energy_with_coords and calculate_energy
  // ---------------------------------------------------------------------------

  /** `coords.flatten()`: x, y, z of each atom in turn. */
  function Flatten(ps: seq<Vec3>): (flat: seq<real>)
    ensures |flat| == 3 * |ps|
  {
    if ps == [] then [] else [ps[0].x, ps[0].y, ps[0].z] + Flatten(ps[1..])
  }

  /** `coords.reshape(-1, 3)`: consecutive triples, or an error when the length is not a multiple of 3. */
  function Reshape(flat: seq<real>): (r: Result<seq<Vec3>>)
    ensures r.Ok? <==> |flat| % 3 == 0
    ensures r.Ok? ==> 3 * |r.value| == |flat|
    decreases |flat|
  {
    if |flat| % 3 != 0 then Err(BadShape)
    else if flat == [] then Ok([])
    else
      match Reshape(flat[3..])
      case Err(f) => Err(f)
      case Ok(ps) => Ok([Vec3(flat[0], flat[1], flat[2])] + ps)
  }

  /** Reshaping undoes flattening. */
  lemma {:induction false} ReshapeFlatten(ps: seq<Vec3>)
    ensures Reshape(Flatten(ps)) == Ok(ps)
  {
    if ps != [] {
      ReshapeFlatten(ps[1..]);
      assert Flatten(ps)[3..] == Flatten(ps[1..]);
      assert ps == [ps[0]] + ps[1..];
    }
  }

  /** Flattening undoes a successful reshape. */
  lemma {:induction false} FlattenReshape(flat: seq<real>)
    requires |flat| % 3 == 0
    ensures Flatten(Reshape(flat).value) == flat
    decreases |flat|
  {
    if flat != [] {
      FlattenReshape(flat[3..]);
      var ps := Reshape(flat[3..]).value;
      assert ([Vec3(flat[0], flat[1], flat[2])] + ps)[1..] == ps;
      assert flat == [flat[0], flat[1], flat[2]] + flat[3..];
    }
  }

  /** `E_bond + E_vdw` for one coordinate array. */
  function TotalEnergy(coords: seq<Vec3>, bonds: seq<(int, int)>, rEq: real, dist: (Vec3, Vec3) -> real): Result<real>
  {
    match BondSum(coords, bonds, rEq, dist)
    case Err(f) => Err(f)
    case Ok(b) => Ok(b + VdwSum(coords, dist))
  }

  /** `E_bond + E_vdw`: the two energies of one coordinate array, bonds first. */
  method BondPlusVdw(coords: seq<Vec3>, bonds: seq<(int, int)>, rEq: real, dist: (Vec3, Vec3) -> real)
    returns (r: Result<real>)
    ensures r == TotalEnergy(coords, bonds, rEq, dist)
  {
    var eBond := BondEnergy(coords, bonds, rEq, dist);
    if eBond.Err? {
      return Err(eBond.failure);
    }
    var eVdw := VdwEnergy(coords, dist);
    return Ok(eBond.value + eVdw);
  }

  /** `energy_with_coords`: reshape the optimiser's flat vector, then add both energies. */
  method EnergyWithCoords(flat: seq<real>, bonds: seq<(int, int)>, rEq: real, dist: (Vec3, Vec3) -> real)
    returns (r: Result<real>)
    ensures |flat| % 3 != 0 ==> r == Err(BadShape)
    ensures |flat| % 3 == 0 ==> r == TotalEnergy(Reshape(flat).value, bonds, rEq, dist)
  {
    var coords := Reshape(flat);
    if coords.Err? {
      return Err(coords.failure);
    }
    r := BondPlusVdw(coords.value, bonds, rEq, dist);
  }

  /** What `calculate_energy` returns for a file with these lines. */
  function FileEnergy(lines: seq<string>, parseInt: string -> Option<int>, parse: string -> Option<real>,
                      bonds: seq<(int, int)>, rEq: real, dist: (Vec3, Vec3) -> real): Result<real>
  {
    match XyzMolecule(lines, parseInt, parse)
    case Err(f) => Err(f)
    case Ok(m) => TotalEnergy(m.coords, bonds, rEq, dist)
  }

  /** `calculate_energy`: read the file, then add both energies of its coordinates. */
  method CalculateEnergy(lines: seq<string>, parseInt: string -> Option<int>, parse: string -> Option<real>,
                         bonds: seq<(int, int)>, rEq: real, dist: (Vec3, Vec3) -> real)
    returns (r: Result<real>)
    ensures r == FileEnergy(lines, parseInt, parse, bonds, rEq, dist)
  {
    var molecule := ReadXyz(lines, parseInt, parse);
    if molecule.Err? {
      return Err(molecule.failure);
    }
    r := BondPlusVdw(molecule.value.coords, bonds, rEq, dist);
  }

  /**
   * The optimiser's objective and `calculate_energy` agree: on the flattened
   * coordinates, `energy_with_coords` is the bond plus van der Waals energy
   * of the same atoms.
   */
  lemma ObjectiveMatchesEnergy(coords: seq<Vec3>, bonds: seq<(int, int)>, rEq: real, dist: (Vec3, Vec3) -> real)
    ensures |Flatten(coords)| % 3 == 0
    ensures Reshape(Flatten(coords)) == Ok(coords)
    ensures TotalEnergy(Reshape(Flatten(coords)).value, bonds, rEq, dist) == TotalEnergy(coords, bonds, rEq, dist)
  {
    ReshapeFlatten(coords);
  }

  /** A lone atom with no bonds has no energy. */
  lemma LoneAtomEnergy(p: Vec3, rEq: real, dist: (Vec3, Vec3) -> real)
    ensures TotalEnergy([p], [], rEq, dist) == Ok(0.0)
  {
    VdwFewAtoms([p], dist);
  }
}
