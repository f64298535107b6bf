/**
 * main.py: its own copies of the mass table, `load_xyz` and
 * `calculate_center_of_mass`, and the per-frame update of the optimisation
 * counter and the atom list inside the `while running` loop.
 *
 * The copies of `load_xyz` and `calculate_center_of_mass` are the same code
 * as in center_of_mass.py; `LoadXyz` and `CalculateCenterOfMass` below are
 * proved to return what center_of_mass.py's versions return, and
 * `SameMassTable` shows that the table they use is the same one.
 */
module Viewer {
  import opened Common
  import opened XyzText
  import MassCenter

  /** main.py's own `ATOMIC_MASSES`. */
  const AtomicMasses: map<string, real> :=
    map["H" := 1.008, "C" := 12.011, "S" := 32.06, "O" := 15.999,
        "Cl" := 35.45, "N" := 14.007, "P" := 30.974]

  /** The viewer's table is the one center_of_mass.py uses, so its copies of the loader and the centre agree. */
  lemma SameMassTable()
    ensures AtomicMasses == MassCenter.AtomicMasses
    ensures forall e :: e in AtomicMasses ==> AtomicMasses[e] > 0.0
  {
    MassCenter.MassesPositive();
  }

  /** main.py's `load_xyz`: the same loop as center_of_mass.py's, with the same result. */
  method LoadXyz(lines: seq<string>, parse: string -> Option<real>) returns (r: Result<seq<MassCenter.Atom>>)
    ensures r == MassCenter.LoadedAtoms(lines, parse)
  {
    var body := AfterHeader(lines);
    var atoms: seq<MassCenter.Atom> := [];
    var i := 0;
    while i < |body|
      invariant 0 <= i <= |body|
      invariant MassCenter.ParseBody(body[..i], parse) == Ok(atoms)
    {
      assert body[..i + 1][..i] == body[..i];
      var parts := Split(body[i]);
      if |parts| == 4 {
        var x := parse(parts[1]);
        if x.None? {
          MassCenter.ParseBodyErrorSticks(body, i + 1, parse);
          return Err(NotANumber(parts[1]));
        }
        var y := parse(parts[2]);
        if y.None? {
          MassCenter.ParseBodyErrorSticks(body, i + 1, parse);
          return Err(NotANumber(parts[2]));
        }
        var z := parse(parts[3]);
        if z.None? {
          MassCenter.ParseBodyErrorSticks(body, i + 1, parse);
          return Err(NotANumber(parts[3]));
        }
        atoms := atoms + [MassCenter.Atom(parts[0], x.value, y.value, z.value)];
      }
      i := i + 1;
    }
    assert body[..i] == body;
    return Ok(atoms);
  }

  /**
   * main.py's `calculate_center_of_mass`, looking masses up in main.py's own
   * table: it returns exactly what center_of_mass.py's copy returns.
   */
  method CalculateCenterOfMass(atoms: seq<MassCenter.Atom>) returns (r: Result<Vec3>)
    ensures r == MassCenter.Centroid(atoms)
  {
    SameMassTable();
    var totalMass, xMass, yMass, zMass := 0.0, 0.0, 0.0, 0.0;
    var i := 0;
    while i < |atoms|
      invariant 0 <= i <= |atoms|
      invariant MassCenter.Known(atoms[..i])
      invariant totalMass == MassCenter.TotalMass(atoms[..i])
      invariant xMass == MassCenter.Moment(atoms[..i], MassCenter.X)
      invariant yMass == MassCenter.Moment(atoms[..i], MassCenter.Y)
      invariant zMass == MassCenter.Moment(atoms[..i], MassCenter.Z)
    {
      var element := atoms[i].element;
      if element !in AtomicMasses {
        MassCenter.FirstUnknownUnique(atoms, i);
        return Err(UnknownElement(element));
      }
      var mass := AtomicMasses[element];
      MassCenter.AccumulateOne(atoms[..i], atoms[i]);
      assert atoms[..i] + [atoms[i]] == atoms[..i + 1];
      totalMass := totalMass + mass;
      xMass := xMass + atoms[i].x * mass;
      yMass := yMass + atoms[i].y * mass;
      zMass := zMass + atoms[i].z * mass;
      i := i + 1;
    }
    assert atoms[..i] == atoms;
    if totalMass == 0.0 {
      return Err(ZeroTotalMass);
    }
    return Ok(Vec3(xMass / totalMass, yMass / totalMass, zMass / totalMass));
  }

  // ---------------------------------------------------------------------------
  // The optimisation counter
  // ---------------------------------------------------------------------------

  /** `frame_delay`: optimisation runs on every frame whose counter is a multiple of it. */
  const FrameDelay: nat := 1

  /** The counter bound at which a frame resets instead of stepping. */
  const StepLimit: int := 100

  /** The frame both has optimisation switched on and is due. */
  predicate Optimizes(enabled: bool, frameCounter: nat)
  {
    enabled && frameCounter % FrameDelay == 0
  }

  /** `optimization_steps` after one frame. */
  function NextSteps(enabled: bool, frameCounter: nat, steps: int): int
  {
    if Optimizes(enabled, frameCounter) then (if steps >= StepLimit then 0 else steps + 1)
    else steps
  }

  /**
   * With optimisation on, a due frame resets a counter of 100 or more to 0 and
   * otherwise adds one; with it off the counter is unchanged. Starting in
   * 0..100, the counter stays in 0..100.
   */
  lemma NextStepsInRange(enabled: bool, frameCounter: nat, steps: int)
    requires 0 <= steps <= StepLimit
    ensures 0 <= NextSteps(enabled, frameCounter, steps) <= StepLimit
    ensures !enabled ==> NextSteps(enabled, frameCounter, steps) == steps
    ensures enabled && steps < StepLimit ==> NextSteps(enabled, frameCounter, steps) == steps + 1
    ensures enabled && steps == StepLimit ==> NextSteps(enabled, frameCounter, steps) == 0
  {
  }

  /** The counter after k frames with optimisation on from the start, beginning at 0. */
  function StepsAfter(k: nat): int
  {
    if k == 0 then 0 else NextSteps(true, k - 1, StepsAfter(k - 1))
  }

  /** With optimisation on, the counter runs 0, 1, ..., 100, 0, 1, ...: after k frames it is k mod 101. */
  lemma {:induction false} StepsCycle(k: nat)
    ensures StepsAfter(k) == k % (StepLimit + 1)
  {
    if k > 0 {
      StepsCycle(k - 1);
      assert Optimizes(true, k - 1);
      if (k - 1) % 101 == 100 {
        assert k % 101 == 0;
      } else {
        assert k % 101 == (k - 1) % 101 + 1;
      }
    }
  }

  // ---------------------------------------------------------------------------
  // Atom records, updated in place
  // ---------------------------------------------------------------------------

  /** One atom dictionary of the running viewer; `minimize_energy` changes its coordinates in place. */
  class AtomRecord {
    var element: string
    var x: real
    var y: real
    var z: real

    constructor (a: MassCenter.Atom)
      ensures element == a.element && x == a.x && y == a.y && z == a.z
    {
      element, x, y, z := a.element, a.x, a.y, a.z;
    }
  }

  /** No record appears twice in the list. */
  predicate Distinct(records: seq<AtomRecord>)
  {
    forall i, j :: 0 <= i < j < |records| ==> records[i] != records[j]
  }

  /** The current coordinates of the records. */
  function Positions(records: seq<AtomRecord>): (ps: seq<Vec3>)
    reads records
    ensures |ps| == |records|
    ensures forall k :: 0 <= k < |records| ==> ps[k] == Vec3(records[k].x, records[k].y, records[k].z)
  {
    seq(|records|, k reads records requires 0 <= k < |records| => Vec3(records[k].x, records[k].y, records[k].z))
  }

  /** The records as values: what a deep copy would keep. */
  function Values(records: seq<AtomRecord>): (atoms: seq<MassCenter.Atom>)
    reads records
    ensures |atoms| == |records|
    ensures forall k :: 0 <= k < |records| ==>
      atoms[k] == MassCenter.Atom(records[k].element, records[k].x, records[k].y, records[k].z)
  {
    seq(|records|, k reads records requires 0 <= k < |records| =>
      MassCenter.Atom(records[k].element, records[k].x, records[k].y, records[k].z))
  }

  /** One `random.uniform(-0.02, 0.02)` draw per coordinate of each of n atoms. */
  predicate Jitter(offsets: seq<Vec3>, n: nat)
  {
    |offsets| == n
    && forall k :: 0 <= k < n ==>
      -0.02 <= offsets[k].x <= 0.02 && -0.02 <= offsets[k].y <= 0.02 && -0.02 <= offsets[k].z <= 0.02
  }

  /** Each point moved by its offset. */
  function Shifted(ps: seq<Vec3>, offsets: seq<Vec3>): (qs: seq<Vec3>)
    requires |ps| == |offsets|
    ensures |qs| == |ps|
  {
    seq(|ps|, k requires 0 <= k < |ps| => Vec3(ps[k].x + offsets[k].x, ps[k].y + offsets[k].y, ps[k].z + offsets[k].z))
  }

  /** Jitter moves no coordinate by more than 0.02. */
  lemma JitterIsSmall(ps: seq<Vec3>, offsets: seq<Vec3>)
    requires Jitter(offsets, |ps|)
    ensures forall k :: 0 <= k < |ps| ==>
      var p, q := ps[k], Shifted(ps, offsets)[k];
      -0.02 <= q.x - p.x <= 0.02 && -0.02 <= q.y - p.y <= 0.02 && -0.02 <= q.z - p.z <= 0.02
  {
  }

  /** `minimize_energy`: add a random offset to every coordinate of every atom, in place. */
  method MinimizeEnergy(records: seq<AtomRecord>, offsets: seq<Vec3>)
    requires Distinct(records) && Jitter(offsets, |records|)
    modifies records
    ensures Positions(records) == Shifted(old(Positions(records)), offsets)
    ensures forall k :: 0 <= k < |records| ==> records[k].element == old(records[k].element)
  {
    ghost var before := Positions(records);
    ghost var moved := Shifted(before, offsets);
    var k := 0;
    while k < |records|
      invariant 0 <= k <= |records|
      invariant forall i :: 0 <= i < k ==> Vec3(records[i].x, records[i].y, records[i].z) == moved[i]
      invariant forall i :: k <= i < |records| ==> Vec3(records[i].x, records[i].y, records[i].z) == before[i]
      invariant forall i :: 0 <= i < |records| ==> records[i].element == old(records[i].element)
    {
      var r := records[k];
      assert forall i :: 0 <= i < |records| && i != k ==> records[i] != r;
      r.x := r.x + offsets[k].x;
      r.y := r.y + offsets[k].y;
      r.z := r.z + offsets[k].z;
      k := k + 1;
    }
    assert forall i :: 0 <= i < |records| ==> Positions(records)[i] == moved[i];
  }

  /** Fresh records holding the given atoms, as `load_xyz`'s dictionaries or a deep copy. */
  method NewRecords(atoms: seq<MassCenter.Atom>) returns (records: seq<AtomRecord>)
    ensures Distinct(records) && Values(records) == atoms
    ensures forall k :: 0 <= k < |records| ==> fresh(records[k])
  {
    records := [];
    var k := 0;
    while k < |atoms|
      invariant 0 <= k <= |atoms|
      invariant |records| == k && Distinct(records)
      invariant forall i :: 0 <= i < k ==> fresh(records[i])
      invariant forall i :: 0 <= i < k ==>
        MassCenter.Atom(records[i].element, records[i].x, records[i].y, records[i].z) == atoms[i]
    {
      var r := new AtomRecord(atoms[k]);
      records := records + [r];
      k := k + 1;
    }
  }

  // ---------------------------------------------------------------------------
  // The viewer's state, as main.py updates it
  // ---------------------------------------------------------------------------

  /**
   * The globals the main loop updates. `initial_atoms = atoms.copy()` is a
   * shallow copy: a new list holding the same dictionaries, so it is a
   * sequence of the same records here.
   */
  class Session {
    var optimizeEnabled: bool
    var optimizationSteps: int
    var frameCounter: nat
    var atoms: seq<AtomRecord>
    var initialAtoms: seq<AtomRecord>

    /** The counter stays in 0..100; the saved list is empty or the very list on screen. */
    ghost predicate Valid()
      reads this
    {
      0 <= optimizationSteps <= StepLimit
      && Distinct(atoms)
      && (initialAtoms == [] || initialAtoms == atoms)
    }

    /** The state after `atoms = load_xyz(...)` and the initialisations at main.py:170-176. */
    constructor (loaded: seq<AtomRecord>)
      requires Distinct(loaded)
      ensures Valid()
      ensures atoms == loaded && initialAtoms == []
      ensures !optimizeEnabled && optimizationSteps == 0 && frameCounter == 0
    {
      optimizeEnabled := false;
      optimizationSteps := 0;
      frameCounter := 0;
      atoms := loaded;
      initialAtoms := [];
    }

    /** Releasing the O key toggles optimisation and nothing else. */
    method PressO()
      modifies this
      ensures optimizeEnabled == !old(optimizeEnabled)
      ensures optimizationSteps == old(optimizationSteps) && frameCounter == old(frameCounter)
      ensures atoms == old(atoms) && initialAtoms == old(initialAtoms)
    {
      optimizeEnabled := !optimizeEnabled;
    }

    /**
     * One pass of the main loop's model part. `offsets` stands in for the
     * random draws of `minimize_energy`. On a reset frame the list on screen
     * becomes the saved list, which holds the same records, so every atom
     * stays exactly where it was.
     */
    method Frame(offsets: seq<Vec3>)
      requires Valid() && Jitter(offsets, |atoms|)
      modifies this, atoms
      ensures Valid()
      ensures optimizeEnabled == old(optimizeEnabled) && frameCounter == old(frameCounter) + 1
      ensures optimizationSteps == NextSteps(old(optimizeEnabled), old(frameCounter), old(optimizationSteps))
      ensures
        var resets := Optimizes(old(optimizeEnabled), old(frameCounter)) && old(optimizationSteps) >= StepLimit;
        var steps := Optimizes(old(optimizeEnabled), old(frameCounter)) && old(optimizationSteps) < StepLimit;
        && atoms == (if resets then old(initialAtoms) else old(atoms))
        && Positions(atoms) == (if steps then Shifted(old(Positions(atoms)), offsets)
                                else if resets && old(initialAtoms) == [] then []
                                else old(Positions(atoms)))
      ensures initialAtoms == (if optimizationSteps == 0 && old(initialAtoms) == [] then atoms else old(initialAtoms))
      ensures forall r :: r in old(atoms) ==> r.element == old(r.element)
    {
      if optimizeEnabled {
        if frameCounter % FrameDelay == 0 {
          if optimizationSteps >= StepLimit {
            optimizationSteps := 0;
            atoms := initialAtoms;
          } else {
            MinimizeEnergy(atoms, offsets);
            optimizationSteps := optimizationSteps + 1;
          }
        }
      }
      if optimizationSteps == 0 && initialAtoms == [] {
        initialAtoms := atoms;
      }
      frameCounter := frameCounter + 1;
    }
  }

  /**
   * The reset restores nothing: one atom at the origin, saved on a first frame
   * with optimisation off, then 100 optimising frames each moving it +0.01 in
   * x; the 101st optimising frame resets the counter, yet the atom is still at
   * x = 1.0 rather than back at 0.0.
   */
  method ShallowResetKeepsCoordinates() returns (steps: int, x: real)
    ensures steps == 0 && x == 1.0
  {
    var r := new AtomRecord(MassCenter.Atom("C", 0.0, 0.0, 0.0));
    var s := new Session([r]);
    s.Frame([Vec3(0.0, 0.0, 0.0)]);
    s.PressO();
    var k := 0;
    while k < 100
      invariant 0 <= k <= 100
      invariant s.Valid() && s.optimizeEnabled
      invariant s.atoms == [r] && s.initialAtoms == [r]
      invariant s.optimizationSteps == k
      invariant r.x == 0.01 * k as real
      modifies s, r
    {
      ghost var before := Positions([r]);
      s.Frame([Vec3(0.01, 0.0, 0.0)]);
      assert Positions([r]) == Shifted(before, [Vec3(0.01, 0.0, 0.0)]);
      assert Positions([r])[0].x == r.x;
      k := k + 1;
    }
    s.Frame([Vec3(0.01, 0.0, 0.0)]);
    steps := s.optimizationSteps;
    x := s.atoms[0].x;
  }

  /**
   * The viewer with `initial_atoms` taken as a deep copy (`copy.deepcopy`):
   * the saved atoms are values that later jitter cannot touch, and a reset
   * puts fresh records holding them on screen.
   */
  class RestoringSession {
    var optimizeEnabled: bool
    var optimizationSteps: int
    var frameCounter: nat
    var atoms: seq<AtomRecord>
    var initialAtoms: seq<MassCenter.Atom>

    ghost predicate Valid()
      reads this
    {
      0 <= optimizationSteps <= StepLimit && Distinct(atoms)
    }

    constructor (loaded: seq<AtomRecord>)
      requires Distinct(loaded)
      ensures Valid()
      ensures atoms == loaded && initialAtoms == []
      ensures !optimizeEnabled && optimizationSteps == 0 && frameCounter == 0
    {
      optimizeEnabled := false;
      optimizationSteps := 0;
      frameCounter := 0;
      atoms := loaded;
      initialAtoms := [];
    }

    method PressO()
      modifies this
      ensures optimizeEnabled == !old(optimizeEnabled)
      ensures optimizationSteps == old(optimizationSteps) && frameCounter == old(frameCounter)
      ensures atoms == old(atoms) && initialAtoms == old(initialAtoms)
    {
      optimizeEnabled := !optimizeEnabled;
    }

    /** One frame: the optimisation step, then the save of the initial geometry. */
    method Frame(offsets: seq<Vec3>)
      requires Valid() && Jitter(offsets, |atoms|)
      modifies this, atoms
      ensures Valid()
      ensures optimizeEnabled == old(optimizeEnabled) && frameCounter == old(frameCounter) + 1
      ensures optimizationSteps == NextSteps(old(optimizeEnabled), old(frameCounter), old(optimizationSteps))
      ensures Optimizes(old(optimizeEnabled), old(frameCounter)) && old(optimizationSteps) >= StepLimit ==>
        Values(atoms) == old(initialAtoms)
      ensures Optimizes(old(optimizeEnabled), old(frameCounter)) && old(optimizationSteps) < StepLimit ==>
        atoms == old(atoms) && Positions(atoms) == Shifted(old(Positions(atoms)), offsets)
      ensures !Optimizes(old(optimizeEnabled), old(frameCounter)) ==>
        atoms == old(atoms) && Values(atoms) == old(Values(atoms))
      ensures initialAtoms == (if optimizationSteps == 0 && old(initialAtoms) == [] then Values(atoms) else old(initialAtoms))
      ensures forall r :: r in old(atoms) ==> r.element == old(r.element)
    {
      Step(offsets);
      if optimizationSteps == 0 && initialAtoms == [] {
        initialAtoms := Values(atoms);
      }
      frameCounter := frameCounter + 1;
    }

    /** The optimisation block of a frame; a reset puts the saved geometry back on screen. */
    method Step(offsets: seq<Vec3>)
      requires Valid() && Jitter(offsets, |atoms|)
      modifies this, atoms
      ensures Valid()
      ensures optimizeEnabled == old(optimizeEnabled) && frameCounter == old(frameCounter)
      ensures initialAtoms == old(initialAtoms)
      ensures optimizationSteps == NextSteps(old(optimizeEnabled), old(frameCounter), old(optimizationSteps))
      ensures Optimizes(old(optimizeEnabled), old(frameCounter)) && old(optimizationSteps) >= StepLimit ==>
        Values(atoms) == old(initialAtoms)
      ensures Optimizes(old(optimizeEnabled), old(frameCounter)) && old(optimizationSteps) < StepLimit ==>
        atoms == old(atoms) && Positions(atoms) == Shifted(old(Positions(atoms)), offsets)
      ensures !Optimizes(old(optimizeEnabled), old(frameCounter)) ==>
        atoms == old(atoms) && Values(atoms) == old(Values(atoms))
      ensures forall r :: r in old(atoms) ==> r.element == old(r.element)
    {
      if optimizeEnabled {
        if frameCounter % FrameDelay == 0 {
          if optimizationSteps >= StepLimit {
            optimizationSteps := 0;
            atoms := NewRecords(initialAtoms);
          } else {
            MinimizeEnergy(atoms, offsets);
            optimizationSteps := optimizationSteps + 1;
          }
        }
      }
    }
  }

  /** A hundred optimising frames on a one-atom restoring viewer: the saved atom is untouched. */
  method OptimizeHundredFrames(s: RestoringSession, r: AtomRecord)
    requires s.Valid() && s.optimizeEnabled && s.atoms == [r] && s.optimizationSteps == 0
    modifies s, r
    ensures s.Valid() && s.optimizeEnabled && s.atoms == [r] && s.optimizationSteps == StepLimit
    ensures s.initialAtoms == old(s.initialAtoms)
  {
    var k := 0;
    while k < 100
      invariant 0 <= k <= 100
      invariant s.Valid() && s.optimizeEnabled
      invariant s.atoms == [r] && s.initialAtoms == old(s.initialAtoms)
      invariant s.optimizationSteps == k
    {
      s.Frame([Vec3(0.01, 0.0, 0.0)]);
      k := k + 1;
    }
  }

  /** A one-atom restoring viewer at the origin, its atom saved on a first frame and O pressed. */
  method StartRestoring() returns (s: RestoringSession, r: AtomRecord)
    ensures fresh(s) && fresh(r)
    ensures s.Valid() && s.optimizeEnabled && s.atoms == [r] && s.optimizationSteps == 0
    ensures s.initialAtoms == [MassCenter.Atom("C", 0.0, 0.0, 0.0)]
  {
    r := new AtomRecord(MassCenter.Atom("C", 0.0, 0.0, 0.0));
    s := new RestoringSession([r]);
    s.Frame([Vec3(0.0, 0.0, 0.0)]);
    assert Values([r]) == [MassCenter.Atom("C", 0.0, 0.0, 0.0)];
    s.PressO();
  }

  /** The same run as `ShallowResetKeepsCoordinates`, with a deep copy: the reset puts the atom back at x = 0.0. */
  method DeepResetRestoresCoordinates() returns (steps: int, x: real)
    ensures steps == 0 && x == 0.0
  {
    var s, r := StartRestoring();
    OptimizeHundredFrames(s, r);
    s.Frame([Vec3(0.01, 0.0, 0.0)]);
    steps := s.optimizationSteps;
    x := s.atoms[0].x;
  }
}
