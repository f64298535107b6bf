/**
 * center_of_mass.py: the atomic-mass table, the XYZ loader `load_xyz` and the
 * mass-weighted centre `calculate_center_of_mass`.
 *
 * The file is a sequence of lines (as `readlines()` returns them, line ends
 * included); Python's `float()` is the parameter `parse`, which answers `None`
 * where `float()` raises ValueError.
 */
module MassCenter {
  import opened Common
  import opened XyzText

  /** `ATOMIC_MASSES`: relative atomic mass (amu) of each element the program knows. */
  const AtomicMasses: map<string, real> :=
    map["H" := 1.008, "C" := 12.011, "S" := 32.06, "O" := 15.999,
        "Cl" := 35.45, "N" := 14.007, "P" := 30.974]

  /** Every mass in the table is positive. */
  lemma MassesPositive()
    ensures forall e :: e in AtomicMasses ==> AtomicMasses[e] > 0.0
  {
  }

  /** The record `{"element": ..., "x": ..., "y": ..., "z": ...}` that `load_xyz` appends. */
  datatype Atom = Atom(element: string, x: real, y: real, z: real)

  // ---------------------------------------------------------------------------
  // load_xyz
  // ---------------------------------------------------------------------------

  /** What one line after the header contributes to the atom list. */
  datatype LineOutcome = Skipped | Parsed(atom: Atom) | Rejected(failure: Failure)

  /** `fields` is the line of `a`: the symbol verbatim, then its three coordinates. */
  predicate Describes(fields: seq<string>, a: Atom, parse: string -> Option<real>)
  {
    |fields| == 4 && fields[0] == a.element
    && parse(fields[1]) == Some(a.x) && parse(fields[2]) == Some(a.y) && parse(fields[3]) == Some(a.z)
  }

  /** The last three of four fields are numbers. */
  predicate CoordinatesParse(fields: seq<string>, parse: string -> Option<real>)
    requires |fields| == 4
  {
    parse(fields[1]).Some? && parse(fields[2]).Some? && parse(fields[3]).Some?
  }

  /**
   * One pass of the loop body: a line that does not split into exactly four
   * fields is skipped; otherwise the three coordinates are converted in order
   * and the first that is not a number raises.
   */
  function ReadAtomLine(line: string, parse: string -> Option<real>): LineOutcome
  {
    var parts := Split(line);
    if |parts| != 4 then Skipped
    else if parse(parts[1]).None? then Rejected(NotANumber(parts[1]))
    else if parse(parts[2]).None? then Rejected(NotANumber(parts[2]))
    else if parse(parts[3]).None? then Rejected(NotANumber(parts[3]))
    else Parsed(Atom(parts[0], parse(parts[1]).value, parse(parts[2]).value, parse(parts[3]).value))
  }

  /**
   * A line is skipped exactly when it does not have four fields, and becomes
   * an atom exactly when its three coordinates are numbers; that atom is the
   * one the line describes.
   */
  lemma ReadAtomLineOutcome(line: string, parse: string -> Option<real>)
    ensures ReadAtomLine(line, parse).Skipped? <==> |Split(line)| != 4
    ensures ReadAtomLine(line, parse).Parsed? <==> |Split(line)| == 4 && CoordinatesParse(Split(line), parse)
    ensures ReadAtomLine(line, parse).Parsed? ==> Describes(Split(line), ReadAtomLine(line, parse).atom, parse)
  {
  }

  /** The atoms of the lines after the header, or the first exception met. */
  function ParseBody(body: seq<string>, parse: string -> Option<real>): Result<seq<Atom>>
    decreases |body|
  {
    if body == [] then Ok([])
    else
      match ParseBody(body[..|body| - 1], parse)
      case Err(f) => Err(f)
      case Ok(atoms) =>
        match ReadAtomLine(body[|body| - 1], parse)
        case Skipped => Ok(atoms)
        case Parsed(a) => Ok(atoms + [a])
        case Rejected(f) => Err(f)
  }

  /** What `load_xyz` returns for a file with these lines. */
  function LoadedAtoms(lines: seq<string>, parse: string -> Option<real>): Result<seq<Atom>>
  {
    ParseBody(AfterHeader(lines), parse)
  }

  /** The lines of `body` that split into exactly four fields, in file order. */
  function FourFieldLines(body: seq<string>): (kept: seq<string>)
    ensures forall k :: 0 <= k < |kept| ==> |Split(kept[k])| == 4
    decreases |body|
  {
    if body == [] then []
    else
      var rest := FourFieldLines(body[..|body| - 1]);
      if |Split(body[|body| - 1])| == 4 then rest + [body[|body| - 1]] else rest
  }

  /** A line is kept exactly when it is in the body and has four fields. */
  lemma {:induction false} FourFieldLinesMembers(body: seq<string>, line: string)
    ensures line in FourFieldLines(body) <==> line in body && |Split(line)| == 4
    decreases |body|
  {
    if body != [] {
      var init, last := body[..|body| - 1], body[|body| - 1];
      FourFieldLinesMembers(init, line);
      assert body == init + [last];
    }
  }

  /** An exception in a prefix of the body is the exception of the whole body. */
  lemma {:induction false} ParseBodyErrorSticks(body: seq<string>, k: nat, parse: string -> Option<real>)
    requires k <= |body|
    requires ParseBody(body[..k], parse).Err?
    ensures ParseBody(body, parse) == ParseBody(body[..k], parse)
    decreases |body|
  {
    if k < |body| {
      var init := body[..|body| - 1];
      assert init[..k] == body[..k];
      ParseBodyErrorSticks(init, k, parse);
    } else {
      assert body[..k] == body;
    }
  }

  /**
   * The loader keeps exactly the four-field lines, in file order, and turns
   * each into an atom with field 1 as the symbol and fields 2-4 as the
   * coordinates; it succeeds exactly when every coordinate of every kept line
   * is a number.
   */
  lemma {:induction false} ParseBodyKeepsFourFieldLines(body: seq<string>, parse: string -> Option<real>)
    ensures ParseBody(body, parse).Ok? <==>
      forall k :: 0 <= k < |FourFieldLines(body)| ==> CoordinatesParse(Split(FourFieldLines(body)[k]), parse)
    ensures ParseBody(body, parse).Ok? ==>
      var atoms := ParseBody(body, parse).value;
      |atoms| == |FourFieldLines(body)|
      && forall k :: 0 <= k < |atoms| ==> Describes(Split(FourFieldLines(body)[k]), atoms[k], parse)
    decreases |body|
  {
    if body != [] {
      var init, last := body[..|body| - 1], body[|body| - 1];
      ParseBodyKeepsFourFieldLines(init, parse);
      ReadAtomLineOutcome(last, parse);
      var kept := FourFieldLines(init);
      var all := FourFieldLines(body);
      if |Split(last)| == 4 {
        assert all == kept + [last];
        assert forall k :: 0 <= k < |kept| ==> all[k] == kept[k];
        assert all[|kept|] == last;
        match ParseBody(init, parse)
        case Err(_) =>
          var k :| 0 <= k < |kept| && !CoordinatesParse(Split(kept[k]), parse);
          assert !CoordinatesParse(Split(all[k]), parse);
        case Ok(atoms) =>
          if CoordinatesParse(Split(last), parse) {
            var a := ReadAtomLine(last, parse).atom;
            assert ParseBody(body, parse) == Ok(atoms + [a]);
            assert forall k :: 0 <= k < |atoms| ==> (atoms + [a])[k] == atoms[k];
          }
      } else {
        assert all == kept;
      }
    }
  }

  /** The first two lines never produce atoms, whatever they hold. */
  lemma HeaderIgnored(h1: string, h2: string, body: seq<string>, parse: string -> Option<real>)
    ensures LoadedAtoms([h1, h2] + body, parse) == ParseBody(body, parse)
  {
    assert ([h1, h2] + body)[2..] == body;
  }

  /** A file of at most two lines loads as no atoms. */
  lemma ShortFileHasNoAtoms(lines: seq<string>, parse: string -> Option<real>)
    requires |lines| <= 2
    ensures LoadedAtoms(lines, parse) == Ok([])
  {
  }

  /** One "\n"-terminated line per row of fields, each field separated by a space. */
  function AtomLines(rows: seq<seq<string>>): (lines: seq<string>)
    ensures |lines| == |rows|
  {
    seq(|rows|, k requires 0 <= k < |rows| => JoinFields(rows[k]) + "\n")
  }

  /** A line written from an atom's four fields reads back as that atom. */
  lemma ReadAtomLineOfRow(row: seq<string>, a: Atom, parse: string -> Option<real>)
    requires Describes(row, a, parse)
    requires forall j :: 0 <= j < |row| ==> IsWord(row[j])
    ensures ReadAtomLine(JoinFields(row) + "\n", parse) == Parsed(a)
  {
    SplitJoin(row, "\n");
  }

  /** Lines that all parse load as their atoms, in order. */
  lemma {:induction false} ParseBodyAllParsed(lines: seq<string>, atoms: seq<Atom>, parse: string -> Option<real>)
    requires |lines| == |atoms|
    requires forall k :: 0 <= k < |lines| ==> ReadAtomLine(lines[k], parse) == Parsed(atoms[k])
    ensures ParseBody(lines, parse) == Ok(atoms)
    decreases |lines|
  {
    if lines != [] {
      var n := |lines| - 1;
      ParseBodyAllParsed(lines[..n], atoms[..n], parse);
      assert atoms == atoms[..n] + [atoms[n]];
    }
  }

  /** The body lines written from rows of fields parse back as the described atoms. */
  lemma ParseBodyOfAtomLines(rows: seq<seq<string>>, atoms: seq<Atom>, parse: string -> Option<real>)
    requires |rows| == |atoms|
    requires forall k :: 0 <= k < |rows| ==> Describes(rows[k], atoms[k], parse)
    requires forall k, j :: 0 <= k < |rows| && 0 <= j < |rows[k]| ==> IsWord(rows[k][j])
    ensures ParseBody(AtomLines(rows), parse) == Ok(atoms)
  {
    var lines := AtomLines(rows);
    forall k | 0 <= k < |rows|
      ensures ReadAtomLine(lines[k], parse) == Parsed(atoms[k])
    {
      ReadAtomLineOfRow(rows[k], atoms[k], parse);
    }
    ParseBodyAllParsed(lines, atoms, parse);
  }

  /**
   * Round trip: a header followed by one well-formed line per atom (its
   * symbol and the texts of its coordinates) loads as exactly those atoms.
   */
  lemma LoadRoundTrip(h1: string, h2: string, rows: seq<seq<string>>,
                      atoms: seq<Atom>, parse: string -> Option<real>)
    requires |rows| == |atoms|
    requires forall k :: 0 <= k < |rows| ==> Describes(rows[k], atoms[k], parse)
    requires forall k, j :: 0 <= k < |rows| && 0 <= j < |rows[k]| ==> IsWord(rows[k][j])
    ensures LoadedAtoms([h1, h2] + AtomLines(rows), parse) == Ok(atoms)
  {
    HeaderIgnored(h1, h2, AtomLines(rows), parse);
    ParseBodyOfAtomLines(rows, atoms, parse);
  }

  /** One atom line per row of fields: its leading whitespace, then each field followed by its gap. */
  function PaddedLines(leads: seq<string>, rows: seq<seq<string>>, gaps: seq<seq<string>>): (lines: seq<string>)
    requires |leads| == |rows| == |gaps|
    requires forall k :: 0 <= k < |rows| ==> |gaps[k]| == |rows[k]|
    ensures |lines| == |rows|
  {
    seq(|rows|, k requires 0 <= k < |rows| => leads[k] + Interleave(rows[k], gaps[k]))
  }

  /**
   * Round trip for column-padded files: lines that start with any whitespace
   * and separate the four fields by whitespace runs of any length load as
   * exactly the atoms they describe.
   */
  lemma LoadPaddedRoundTrip(h1: string, h2: string, leads: seq<string>, rows: seq<seq<string>>,
                            gaps: seq<seq<string>>, atoms: seq<Atom>, parse: string -> Option<real>)
    requires |leads| == |rows| == |gaps| == |atoms|
    requires forall k :: 0 <= k < |rows| ==> Describes(rows[k], atoms[k], parse)
    requires forall k, j :: 0 <= k < |rows| && 0 <= j < |rows[k]| ==> IsWord(rows[k][j])
    requires forall k :: 0 <= k < |rows| ==> AllSpace(leads[k]) && |gaps[k]| == |rows[k]| && Gaps(gaps[k])
    ensures LoadedAtoms([h1, h2] + PaddedLines(leads, rows, gaps), parse) == Ok(atoms)
  {
    var lines := PaddedLines(leads, rows, gaps);
    forall k | 0 <= k < |rows|
      ensures ReadAtomLine(lines[k], parse) == Parsed(atoms[k])
    {
      SplitPadded(leads[k], rows[k], gaps[k]);
    }
    ParseBodyAllParsed(lines, atoms, parse);
    HeaderIgnored(h1, h2, lines, parse);
  }

  /** `load_xyz`, reading the lines after the header in order. */
  method LoadXyz(lines: seq<string>, parse: string -> Option<real>) returns (r: Result<seq<Atom>>)
    ensures r == LoadedAtoms(lines, parse)
  {
    var body := AfterHeader(lines);
    var atoms: seq<Atom> := [];
    var i := 0;
    while i < |body|
      invariant 0 <= i <= |body|
      invariant ParseBody(body[..i], parse) == Ok(atoms)
    {
      assert body[..i + 1][..i] == body[..i];
      var parts := Split(body[i]);
      if |parts| == 4 {
        var x := parse(parts[1]);
        if x.None? {
          ParseBodyErrorSticks(body, i + 1, parse);
          return Err(NotANumber(parts[1]));
        }
        var y := parse(parts[2]);
        if y.None? {
          ParseBodyErrorSticks(body, i + 1, parse);
          return Err(NotANumber(parts[2]));
        }
        var z := parse(parts[3]);
        if z.None? {
          ParseBodyErrorSticks(body, i + 1, parse);
          return Err(NotANumber(parts[3]));
        }
        atoms := atoms + [Atom(parts[0], x.value, y.value, z.value)];
      }
      i := i + 1;
    }
    assert body[..i] == body;
    return Ok(atoms);
  }

  // ---------------------------------------------------------------------------
  // calculate_center_of_mass
  // ---------------------------------------------------------------------------

  /** Every symbol is in the table. */
  predicate Known(atoms: seq<Atom>)
  {
    forall k :: 0 <= k < |atoms| ==> atoms[k].element in AtomicMasses
  }

  function MassOf(a: Atom): real
    requires a.element in AtomicMasses
  {
    AtomicMasses[a.element]
  }

  datatype Axis = X | Y | Z

  function Coord(a: Atom, axis: Axis): real
  {
    match axis
    case X => a.x
    case Y => a.y
    case Z => a.z
  }

  /** Σ mᵢ, accumulated from the first atom to the last. */
  function TotalMass(atoms: seq<Atom>): real
    requires Known(atoms)
    decreases |atoms|
  {
    if atoms == [] then 0.0
    else TotalMass(atoms[..|atoms| - 1]) + MassOf(atoms[|atoms| - 1])
  }

  /** Σ mᵢ·cᵢ for one coordinate c, accumulated from the first atom to the last. */
  function Moment(atoms: seq<Atom>, axis: Axis): real
    requires Known(atoms)
    decreases |atoms|
  {
    if atoms == [] then 0.0
    else Moment(atoms[..|atoms| - 1], axis) + Coord(atoms[|atoms| - 1], axis) * MassOf(atoms[|atoms| - 1])
  }

  /** The position of the first atom whose symbol is not in the table. */
  function FirstUnknown(atoms: seq<Atom>): (k: nat)
    requires !Known(atoms)
    ensures k < |atoms| && atoms[k].element !in AtomicMasses
    ensures Known(atoms[..k])
  {
    if atoms[0].element !in AtomicMasses then 0
    else
      var k := 1 + FirstUnknown(atoms[1..]);
      assert forall j :: 1 <= j < k ==> atoms[..k][j] == atoms[1..][..k - 1][j - 1];
      k
  }

  /** An unknown atom preceded only by known ones is the first unknown atom. */
  lemma FirstUnknownUnique(atoms: seq<Atom>, k: nat)
    requires k < |atoms| && atoms[k].element !in AtomicMasses
    requires Known(atoms[..k])
    ensures FirstUnknown(atoms) == k
  {
    var j := FirstUnknown(atoms);
    assert forall i :: 0 <= i < k ==> atoms[..k][i] == atoms[i];
    assert forall i :: 0 <= i < j ==> atoms[..j][i] == atoms[i];
  }

  /** What `calculate_center_of_mass` returns: Σmᵢpᵢ / Σmᵢ, or the exception it raises. */
  function Centroid(atoms: seq<Atom>): Result<Vec3>
  {
    if !Known(atoms) then Err(UnknownElement(atoms[FirstUnknown(atoms)].element))
    else if TotalMass(atoms) == 0.0 then Err(ZeroTotalMass)
    else
      var m := TotalMass(atoms);
      Ok(Vec3(Moment(atoms, X) / m, Moment(atoms, Y) / m, Moment(atoms, Z) / m))
  }

  /** The coordinate of a point along an axis. */
  function Component(p: Vec3, axis: Axis): real
  {
    match axis
    case X => p.x
    case Y => p.y
    case Z => p.z
  }

  /** `calculate_center_of_mass`: one pass accumulating the total mass and the three moments. */
  method CalculateCenterOfMass(atoms: seq<Atom>) returns (r: Result<Vec3>)
    ensures r == Centroid(atoms)
  {
    var totalMass, xMass, yMass, zMass := 0.0, 0.0, 0.0, 0.0;
    var i := 0;
    while i < |atoms|
      invariant 0 <= i <= |atoms|
      invariant Known(atoms[..i])
      invariant totalMass == TotalMass(atoms[..i])
      invariant xMass == Moment(atoms[..i], X)
      invariant yMass == Moment(atoms[..i], Y)
      invariant zMass == Moment(atoms[..i], Z)
    {
      var element := atoms[i].element;
      if element !in AtomicMasses {
        FirstUnknownUnique(atoms, i);
        return Err(UnknownElement(element));
      }
      var mass := AtomicMasses[element];
      AccumulateOne(atoms[..i], atoms[i]);
      assert atoms[..i] + [atoms[i]] == atoms[..i + 1];
      totalMass := totalMass + mass;
      xMass := xMass + atoms[i].x * mass;
      yMass := yMass + atoms[i].y * mass;
      zMass := zMass + atoms[i].z * mass;
      i := i + 1;
    }
    assert atoms[..i] == atoms;
    if totalMass == 0.0 {
      return Err(ZeroTotalMass);
    }
    return Ok(Vec3(xMass / totalMass, yMass / totalMass, zMass / totalMass));
  }

  /** Masses are positive, so any non-empty list of known atoms has positive total mass. */
  lemma {:induction false} TotalMassPositive(atoms: seq<Atom>)
    requires Known(atoms) && atoms != []
    ensures TotalMass(atoms) > 0.0
    decreases |atoms|
  {
    MassesPositive();
    var init := atoms[..|atoms| - 1];
    assert Known(init) by {
      assert forall k :: 0 <= k < |init| ==> init[k] == atoms[k];
    }
    if init != [] {
      TotalMassPositive(init);
    }
  }

  /**
   * The centre exists exactly for a non-empty list of known atoms: an unknown
   * symbol is a lookup error (there is no default mass) and an empty list
   * divides by a zero total mass.
   */
  lemma CentroidDefined(atoms: seq<Atom>)
    ensures Centroid(atoms).Ok? <==> Known(atoms) && atoms != []
    ensures atoms == [] ==> Centroid(atoms) == Err(ZeroTotalMass)
    ensures !Known(atoms) ==> Centroid(atoms).Err? && Centroid(atoms).failure.UnknownElement?
  {
    if Known(atoms) && atoms != [] {
      TotalMassPositive(atoms);
    }
  }

  /** The first atom with an unknown symbol names the lookup error, whatever follows it. */
  lemma CentroidUnknownElement(atoms: seq<Atom>, k: nat)
    requires k < |atoms| && atoms[k].element !in AtomicMasses
    requires Known(atoms[..k])
    ensures Centroid(atoms) == Err(UnknownElement(atoms[k].element))
  {
    FirstUnknownUnique(atoms, k);
  }

  /** A single atom's centre is its own position. */
  lemma CentroidOfOne(a: Atom)
    requires a.element in AtomicMasses
    ensures Centroid([a]) == Ok(Vec3(a.x, a.y, a.z))
  {
    MassesPositive();
    assert Known([a]);
    var m := MassOf(a);
    assert m > 0.0;
    assert [a][..0] == [];
    assert TotalMass([a]) == m;
    assert Moment([a], X) == a.x * m;
    assert Moment([a], Y) == a.y * m;
    assert Moment([a], Z) == a.z * m;
    DivCancel(a.x, m);
    DivCancel(a.y, m);
    DivCancel(a.z, m);
    assert Moment([a], X) / TotalMass([a]) == a.x;
    assert Centroid([a]).Ok?;
    assert Centroid([a]).value.x == a.x;
  }

  lemma DivCancel(c: real, m: real)
    requires m != 0.0
    ensures (c * m) / m == c
  {
  }

  /** lo·t <= s <= hi·t: a weighted sum `s` of total weight `t` whose values lie in [lo, hi]. */
  predicate Bracketed(lo: real, hi: real, t: real, s: real)
  {
    lo * t <= s <= hi * t
  }

  /** Scaling the inequality lo <= c <= hi by a positive mass. */
  lemma ScaleBounds(lo: real, c: real, hi: real, m: real)
    requires lo <= c <= hi && m > 0.0
    ensures Bracketed(lo, hi, m, c * m)
  {
    assert (c - lo) * m >= 0.0;
    assert (hi - c) * m >= 0.0;
  }

  /** Dividing lo·m <= s <= hi·m by a positive m. */
  lemma DivideBounds(lo: real, s: real, hi: real, m: real)
    requires Bracketed(lo, hi, m, s) && m > 0.0
    ensures lo <= s / m <= hi
  {
    var q := s / m;
    assert q * m == s;
  }

  /** Adding one atom's bracket to the running bracket. */
  lemma AddBounds(lo: real, hi: real, t: real, s: real, m: real, cm: real)
    requires Bracketed(lo, hi, t, s) && Bracketed(lo, hi, m, cm)
    ensures Bracketed(lo, hi, t + m, s + cm)
  {
  }

  /** A moment is bracketed by the extreme coordinates times the total mass. */
  lemma {:induction false} MomentBounds(atoms: seq<Atom>, axis: Axis, lo: real, hi: real)
    requires Known(atoms)
    requires forall k :: 0 <= k < |atoms| ==> lo <= Coord(atoms[k], axis) <= hi
    ensures Bracketed(lo, hi, TotalMass(atoms), Moment(atoms, axis))
    decreases |atoms|
  {
    if atoms != [] {
      var n := |atoms| - 1;
      var init := atoms[..n];
      assert forall k :: 0 <= k < n ==> init[k] == atoms[k];
      MomentBounds(init, axis, lo, hi);
      MassesPositive();
      var c, m := Coord(atoms[n], axis), MassOf(atoms[n]);
      assert lo <= c <= hi && m > 0.0;
      ScaleBounds(lo, c, hi, m);
      assert TotalMass(atoms) == TotalMass(init) + m;
      assert Moment(atoms, axis) == Moment(init, axis) + c * m;
      AddBounds(lo, hi, TotalMass(init), Moment(init, axis), m, c * m);
    }
  }

  /** Each coordinate of the centre lies between the least and the greatest of the atoms'. */
  lemma CentroidBounds(atoms: seq<Atom>, axis: Axis, lo: real, hi: real)
    requires Known(atoms) && atoms != []
    requires forall k :: 0 <= k < |atoms| ==> lo <= Coord(atoms[k], axis) <= hi
    ensures Centroid(atoms).Ok?
    ensures lo <= Component(Centroid(atoms).value, axis) <= hi
  {
    TotalMassPositive(atoms);
    MomentBounds(atoms, axis, lo, hi);
    DivideBounds(lo, Moment(atoms, axis), hi, TotalMass(atoms));
  }

  /**
   * Two carbons one Angstrom apart with a hydrogen above their midpoint: the
   * hydrogen sits at x = 0.5 too, so the centre's x is exactly 0.5.
   */
  lemma ThreeAtomExample()
    ensures Centroid([Atom("C", 0.0, 0.0, 0.0), Atom("C", 1.0, 0.0, 0.0), Atom("H", 0.5, 0.87, 0.0)])
         == Ok(Vec3(0.5, 0.87696 / 25.03, 0.0))
  {
    var a, b, c := Atom("C", 0.0, 0.0, 0.0), Atom("C", 1.0, 0.0, 0.0), Atom("H", 0.5, 0.87, 0.0);
    assert MassOf(a) == 12.011 && MassOf(b) == 12.011 && MassOf(c) == 1.008;
    SumsOfThree(a, b, c);
    CentroidOfKnown([a, b, c]);
  }

  /** The total mass and moments of three known atoms, written out. */
  lemma SumsOfThree(a: Atom, b: Atom, c: Atom)
    requires a.element in AtomicMasses && b.element in AtomicMasses && c.element in AtomicMasses
    ensures Known([a, b, c])
    ensures TotalMass([a, b, c]) == MassOf(a) + MassOf(b) + MassOf(c)
    ensures Moment([a, b, c], X) == a.x * MassOf(a) + b.x * MassOf(b) + c.x * MassOf(c)
    ensures Moment([a, b, c], Y) == a.y * MassOf(a) + b.y * MassOf(b) + c.y * MassOf(c)
    ensures Moment([a, b, c], Z) == a.z * MassOf(a) + b.z * MassOf(b) + c.z * MassOf(c)
  {
    AccumulateOne([], a);
    assert [] + [a] == [a];
    AccumulateOne([a], b);
    assert [a] + [b] == [a, b];
    AccumulateOne([a, b], c);
    assert [a, b] + [c] == [a, b, c];
  }

  /** For known atoms of non-zero total mass the centre is each moment over the total mass. */
  lemma CentroidOfKnown(atoms: seq<Atom>)
    requires Known(atoms) && TotalMass(atoms) != 0.0
    ensures Centroid(atoms) == Ok(Vec3(Moment(atoms, X) / TotalMass(atoms),
                                       Moment(atoms, Y) / TotalMass(atoms),
                                       Moment(atoms, Z) / TotalMass(atoms)))
  {
  }

  /** One more known atom adds its mass to the total and its weighted coordinates to the moments. */
  lemma AccumulateOne(atoms: seq<Atom>, a: Atom)
    requires Known(atoms) && a.element in AtomicMasses
    ensures Known(atoms + [a])
    ensures TotalMass(atoms + [a]) == TotalMass(atoms) + MassOf(a)
    ensures Moment(atoms + [a], X) == Moment(atoms, X) + a.x * MassOf(a)
    ensures Moment(atoms + [a], Y) == Moment(atoms, Y) + a.y * MassOf(a)
    ensures Moment(atoms + [a], Z) == Moment(atoms, Z) + a.z * MassOf(a)
  {
    var all := atoms + [a];
    assert all[..|atoms|] == atoms;
    assert forall k :: 0 <= k < |atoms| ==> all[k] == atoms[k];
  }
}
