# Molecule loader, centre of mass and energy model — a Dafny model

This project models the numeric and text core of a small molecular viewer
and energy calculator written in Python:

- `center_of_mass.py`: the atomic-mass table `ATOMIC_MASSES`, the lenient
  XYZ loader `load_xyz` and the mass-weighted centre `calculate_center_of_mass`
  (module `MassCenter`, file `mass_center.dfy`);
- `energy_calc.py`: the strict XYZ reader `read_xyz`, the harmonic bond energy
  `bond_energy`, the Lennard-Jones 12-6 energy `vdw_energy`, and their sums
  `energy_with_coords` and `calculate_energy` (module `EnergyCalc`, file
  `energy_calc.dfy`);
- `main.py`: its own copies of the mass table, `load_xyz` and
  `calculate_center_of_mass`, and the per-frame update of the optimisation
  counter `optimization_steps` and the atom list (module `Viewer`, file
  `viewer.dfy`).

Shared pieces: `common.dfy` (module `Common`) holds the `Option` and
`Result` types, one `Failure` constructor per place the code can raise an
exception, the point type `Vec3`, and `IsEuclidean`, which states what
`np.linalg.norm(p - q)` is. `xyz_text.dfy` (module `XyzText`) models
Python's `str.split()`, `str.strip()` and the header drop `lines[2:]`.

Modelling choices:

- A file is the sequence of lines `readlines()` returns. Python's `float()`
  and `int()` are function parameters `parse` and `parseInt`. They answer
  `None` where Python raises `ValueError`.
- `np.linalg.norm(coords[i] - coords[j])` is a function parameter `dist`.
  Lemmas that need it to be the Euclidean distance require `IsEuclidean(dist)`:
  `dist` is non-negative and its square is the squared distance.
- All arithmetic is over `real`.
- An exception is an `Err` result. When several could occur, the model
  returns the first one in the code's evaluation order.
- The loops are methods. Each is proved equal to a prefix-recursive
  specification function (`ParseBody`, `TotalMass`/`Moment`, `ReadBody`,
  `BondSum`, `PairSum`), and the properties are lemmas about those functions.
- numpy's negative indices in `coords[i]` are modelled (`EnergyCalc.Resolve`):
  -n..-1 count from the end; anything else is an `IndexError`.
- The random offsets of `minimize_energy` are a parameter `offsets`. Each
  offset lies in [-0.02, 0.02].
- `initial_atoms = atoms.copy()` is a shallow copy. `Viewer.Session` keeps
  the same `AtomRecord` objects in both lists, so the aliasing is modelled.

Behaviour worth noting:

- A three-atom example (two carbons at x = 0 and x = 1, a hydrogen at
  x = 0.5) has total mass 25.03 and x-moment 12.515. Over exact reals its
  centre of mass has x exactly 12.515 / 25.03 = 0.5
  (`MassCenter.ThreeAtomExample`).
- Blank lines, and lines that do not split into exactly four fields, are
  skipped by `load_xyz` only. In `read_xyz` a blank line raises `IndexError`.
  In both readers a non-numeric coordinate raises `ValueError`. In `read_xyz`,
  rows of unequal length make `np.array` raise. The model
  also rejects rows that all have the same length other than 3 (see
  `EnergyCalc.ToPoints` under "Left out").

## Model

| member | source | states |
|---|---|---|
| `XyzText.Split` | center_of_mass.py:37 | `str.split()` returns at most as many fields as the line has characters |
| `XyzText.SplitFieldsAreWords` | center_of_mass.py:37 | every field `str.split()` returns is non-empty and free of whitespace |
| `XyzText.SplitEmpty` | center_of_mass.py:37 | a line splits into no fields exactly when it is all whitespace |
| `XyzText.SplitJoin` | center_of_mass.py:37 | words joined by single spaces, plus trailing whitespace such as the line end, split back into those words |
| `XyzText.Strip` | energy_calc.py:43 | `strip()` returns a slice `s[i..j]` of its input with only whitespace before i and after j, and no whitespace at either end of the result |
| `XyzText.SplitSpaceThen` | center_of_mass.py:37 | leading whitespace of any length yields no field |
| `XyzText.SplitWordSep` | center_of_mass.py:37 | a whitespace run of any non-empty length after a word is a single separator |
| `XyzText.SplitPadded` | center_of_mass.py:37 | a column-padded line (any leading whitespace, words separated by non-empty whitespace runs, any trailing whitespace) splits into exactly its words |
| `XyzText.AfterHeader` | center_of_mass.py:35 | `lines[2:]` is the file after its first two lines, and empty for a file of at most two lines |
| `MassCenter.MassesPositive` | center_of_mass.py:2-10 | every mass in `ATOMIC_MASSES` is positive |
| `MassCenter.ReadAtomLineOutcome` | center_of_mass.py:37-45 | a line is skipped iff it does not split into four fields; it becomes an atom iff its three coordinates parse; the atom is field 1 verbatim and fields 2-4 parsed |
| `MassCenter.FourFieldLinesMembers` | center_of_mass.py:36-38 | a line is kept iff it is in the body and splits into exactly four fields |
| `MassCenter.ParseBodyKeepsFourFieldLines` | center_of_mass.py:36-45 | loading succeeds iff every four-field line has numeric coordinates; the atoms are then one per four-field line, in file order, each described by its line |
| `MassCenter.ParseBodyErrorSticks` | center_of_mass.py:39-44 | a `float()` failure on some line is the result of the whole load, whatever follows |
| `MassCenter.HeaderIgnored` | center_of_mass.py:35 | the first two lines never produce atoms, whatever they hold |
| `MassCenter.ShortFileHasNoAtoms` | center_of_mass.py:35 | a file of at most two lines loads as no atoms |
| `MassCenter.ParseBodyOfAtomLines` | center_of_mass.py:36-45 | lines written from well-formed rows of fields parse back as the atoms they describe |
| `MassCenter.LoadRoundTrip` | center_of_mass.py:31-46 | a header followed by one well-formed line per atom loads as exactly those atoms, in order |
| `MassCenter.LoadPaddedRoundTrip` | center_of_mass.py:31-46 | a header followed by one column-padded line per atom (any indentation, any non-empty whitespace runs between fields) loads as exactly those atoms, in order |
| `MassCenter.LoadXyz` | center_of_mass.py:31-46 | the loop returns the specification `LoadedAtoms`: the atoms of the four-field lines after the header, or the first `float()` error |
| `MassCenter.FirstUnknown` | center_of_mass.py:17-19 | the first atom whose symbol is not in the table, all atoms before it being known |
| `MassCenter.CalculateCenterOfMass` | center_of_mass.py:13-28 | the accumulator loop returns `Centroid`: (Σmᵢxᵢ/Σmᵢ, Σmᵢyᵢ/Σmᵢ, Σmᵢzᵢ/Σmᵢ), the `KeyError` of the first unknown symbol, or division by zero |
| `MassCenter.AccumulateOne` | center_of_mass.py:20-23 | one more known atom adds its mass to the total and its weighted coordinates to the moments |
| `MassCenter.TotalMassPositive` | center_of_mass.py:17-20 | a non-empty list of known atoms has a positive total mass |
| `MassCenter.CentroidDefined` | center_of_mass.py:14-27 | the centre exists iff the list is non-empty and every symbol is known; the empty list fails with division by zero; an unknown symbol is a lookup error, with no default mass |
| `MassCenter.CentroidUnknownElement` | center_of_mass.py:19 | the first unknown symbol names the lookup error, whatever follows it |
| `MassCenter.CentroidOfOne` | center_of_mass.py:20-27 | the centre of one atom is that atom's position |
| `MassCenter.MomentBounds` | center_of_mass.py:17-23 | each moment lies between the least and greatest coordinate times the total mass |
| `MassCenter.CentroidBounds` | center_of_mass.py:20-27 | each coordinate of the centre lies between the least and greatest of the atoms' coordinates on that axis |
| `MassCenter.ThreeAtomExample` | center_of_mass.py:13-28 | the two-carbon, one-hydrogen example has its centre at x = 0.5, y = 0.87696/25.03, z = 0 |
| `EnergyCalc.ParseFields` | energy_calc.py:49 | `[float(x) for x in fields]` succeeds iff every field parses, and then holds each field's number in order |
| `EnergyCalc.CoordinateFields` | energy_calc.py:49 | `parts[1:4]` is the at most three fields after the symbol |
| `EnergyCalc.ToPoints` | energy_calc.py:50 | the coordinate rows become points iff every row has three numbers, row by row |
| `EnergyCalc.ReadBodyErrorSticks` | energy_calc.py:46-49 | an exception on some line is the result of the whole read, whatever follows |
| `EnergyCalc.ReadXyz` | energy_calc.py:40-50 | the loop returns the specification `XyzMolecule`: an error for a missing or non-integer count line, else one entry per line after the header, or the first line's error |
| `EnergyCalc.CountIgnored` | energy_calc.py:43 | line 1 must parse as an integer, but the result depends only on the lines after the header, never on that value |
| `EnergyCalc.ReadBodySucceeds` | energy_calc.py:46-49 | the body reads iff every line after the header reads |
| `EnergyCalc.ReadBodyOneEntryPerLine` | energy_calc.py:46-49 | every line after the header becomes exactly one entry, in order, with no field-count filter |
| `EnergyCalc.BlankLineFails` | energy_calc.py:47-48 | a blank line after the header is an `IndexError`, not skipped |
| `EnergyCalc.ReadEntryFields` | energy_calc.py:47-49 | an entry's element is field 1 and its coordinates are the numbers in fields 2-4, as many as exist |
| `EnergyCalc.Resolve` | energy_calc.py:57 | `coords[i]` on n rows names row i for 0 <= i < n and row i + n for -n <= i < 0, and is an `IndexError` otherwise |
| `EnergyCalc.BondTermZero` | energy_calc.py:58 | 0.5·K_bond·(r − r_eq)² is never negative and is zero iff r = r_eq |
| `EnergyCalc.BondEnergy` | energy_calc.py:54-59 | the accumulator loop returns the specification `BondSum`: the bond terms summed over the bond list in order, or the first `IndexError` |
| `EnergyCalc.BondSumProperties` | energy_calc.py:54-59 | the bond energy is defined iff every bond names two rows; it is then never negative; it is exactly 0 iff every bond is at r_eq, so the empty list gives 0 |
| `EnergyCalc.UnitBondsAtRest` | energy_calc.py:56-58 | with Euclidean distances and r_eq = 1, bonds whose ends are 1 Å apart have zero bond energy |
| `EnergyCalc.UnitBondExample` | energy_calc.py:54-59 | the two carbons 1 Å apart bonded as (0, 1) with r_eq = 1 have zero bond energy |
| `EnergyCalc.LennardJonesZeroAtSigma` | energy_calc.py:71 | 4ε((σ/r)¹² − (σ/r)⁶) is zero at r = σ |
| `EnergyCalc.PairTermBounds` | energy_calc.py:69-71 | a pair adds at least −ε, and adds exactly −ε iff (σ/r)⁶ = 1/2, that is r = 2^(1/6)·σ |
| `EnergyCalc.CoincidentPairAddsNothing` | energy_calc.py:68-70 | a pair at Euclidean distance 0 adds nothing and raises nothing |
| `EnergyCalc.VisitOrderProperties` | energy_calc.py:65-67 | the nested loops visit exactly the pairs i < j < n, each once, in increasing order: n(n − 1)/2 pairs |
| `EnergyCalc.VdwEnergy` | energy_calc.py:63-72 | the nested loops with `continue` return the specification `VdwSum`: the pair terms summed over all pairs i < j in visit order |
| `EnergyCalc.VdwFewAtoms` | energy_calc.py:65-67 | fewer than two atoms have no van der Waals energy |
| `EnergyCalc.VdwLowerBound` | energy_calc.py:63-72 | the van der Waals energy of n atoms is at least −ε·n(n − 1)/2 |
| `EnergyCalc.Flatten` | energy_calc.py:16 | `flatten()` gives three numbers per point |
| `EnergyCalc.Reshape` | energy_calc.py:7 | `reshape(-1, 3)` succeeds iff the length is a multiple of 3, giving a third as many points |
| `EnergyCalc.ReshapeFlatten` | energy_calc.py:7 | reshaping undoes flattening |
| `EnergyCalc.FlattenReshape` | energy_calc.py:7 | flattening undoes a successful reshape |
| `EnergyCalc.BondPlusVdw` | energy_calc.py:80-86 | `E_bond + E_vdw` of one coordinate array is `TotalEnergy`: the bond error if any, else the bond sum plus the van der Waals sum |
| `EnergyCalc.EnergyWithCoords` | energy_calc.py:6-10 | `energy_with_coords` is a shape error for a length not divisible by 3, else `TotalEnergy` of the reshaped points |
| `EnergyCalc.CalculateEnergy` | energy_calc.py:76-87 | `calculate_energy` is the reader's error, else `TotalEnergy` of the coordinates read |
| `EnergyCalc.ObjectiveMatchesEnergy` | energy_calc.py:6-10 | on flattened coordinates, the optimiser's objective equals the bond plus van der Waals energy of the same atoms |
| `EnergyCalc.LoneAtomEnergy` | energy_calc.py:76-87 | one atom with no bonds has total energy exactly 0 |
| `Viewer.SameMassTable` | main.py:38-46 | main.py's `ATOMIC_MASSES` is the table of center_of_mass.py, and all its masses are positive |
| `Viewer.LoadXyz` | main.py:54-69 | main.py's `load_xyz` returns exactly what center_of_mass.py's `load_xyz` returns |
| `Viewer.CalculateCenterOfMass` | main.py:73-88 | main.py's `calculate_center_of_mass`, with its own table, returns exactly what center_of_mass.py's returns |
| `Viewer.NextStepsInRange` | main.py:253-261 | with optimisation on, a due frame resets a count of 100 to 0 and otherwise adds 1; with it off the count is unchanged; a count in 0..100 stays in 0..100 |
| `Viewer.StepsCycle` | main.py:253-261 | from 0 with optimisation on, the count after k frames is k mod 101 |
| `Viewer.JitterIsSmall` | main.py:179-183 | `minimize_energy` moves no coordinate by more than 0.02 |
| `Viewer.MinimizeEnergy` | main.py:179-183 | every atom's coordinates move by their offsets, in place; elements are unchanged |
| `Viewer.NewRecords` | main.py:68 | fresh, distinct atom records holding the given atoms |
| `Viewer.Session.constructor` | main.py:170-176 | the loop starts with optimisation off, the count at 0, frame 0 and no saved atoms |
| `Viewer.Session.PressO` | main.py:219-221 | releasing O toggles `optimize_enabled` and leaves the count, the frame and the atoms untouched |
| `Viewer.Session.Frame` | main.py:253-266 | one frame: the count follows `NextSteps` and stays in 0..100; a stepping frame jitters the atoms in place; a resetting frame puts the saved list on screen, which holds the same records, so no coordinate changes; the list is saved while the count is 0 and nothing is saved; no record's element symbol changes |
| `Viewer.ShallowResetKeepsCoordinates` | main.py:253-264 | after 100 steps of +0.01 in x, the resetting frame sets the count to 0 but the atom stays at x = 1.0 |
| `Viewer.RestoringSession.Frame` | main.py:253-266 | the same frame with the saved atoms kept as values: a resetting frame puts records holding the saved atoms back on screen; no record's element symbol changes |
| `Viewer.DeepResetRestoresCoordinates` | main.py:253-264 | the same run with saved values: after the resetting frame the count is 0 and the atom is back at x = 0.0 |

## Left out

- `optimize_geometry` (energy_calc.py:14-29) is left out: it is one call to scipy's BFGS minimiser, a library routine this model cannot see. The objective it minimises is modelled (`EnergyCalc.EnergyWithCoords`).
- Opening and reading files: the model starts from the sequence of lines `readlines()` returns. Unreadable files are not modelled.
- `float()` and `int()` are parameters, not parsers. Their accepted syntax is not modelled.
- IEEE floating point: all arithmetic is over exact reals, so rounding, overflow and NaN are not modelled.
- `np.linalg.norm` is the parameter `dist`. Only lemmas that need it assume it is Euclidean (`Common.IsEuclidean`); there is no square root.
- `EnergyCalc.ToPoints`: `np.array(coordinates)` of rows that all have the same length other than 3 (for example every line with two coordinates) makes a narrower array in numpy. The model reports `BadShape` for any row that is not three numbers.
- The constant `K_theta` (energy_calc.py:34) is declared but never used, so it is not modelled.
- The module-level scripts and their printing (center_of_mass.py:50-57, energy_calc.py:90-98, main.py:133-136) are I/O and are left out, as is the `print(initial_atoms)` at main.py:257.
- The pygame window, event loop, drawing, legend, slider, checkbox, rotation, projection and depth sort (main.py:92-391, apart from the counter and atom updates) are presentation and trigonometry on floats, so they are left out.
- The temperature slider and its screen jitter (main.py:196-201, 298-300) are left out: they only move drawn circles, never atoms.
- `random.uniform` is replaced by the caller-supplied `offsets`. The model states only that each offset lies in [-0.02, 0.02], not how it is distributed.
- `frame_delay` is 1 (main.py:176), so every frame with optimisation on is due. `Viewer.FrameDelay` keeps the test, but no lemma explores other delays.

## Findings

| source | as written | input that shows it | evidently intended | confidence | as-written member | corrected member |
|---|---|---|---|---|---|---|
| main.py:258 | `atoms = initial_atoms.copy()` copies the list, not the atom dictionaries. `initial_atoms` was saved at main.py:264 as a shallow copy of the same dictionaries, and `minimize_energy` moves those dictionaries in place. So the reset restores nothing. | One carbon at the origin. Save it on a frame with optimisation off, press O, then run 100 frames that each move it +0.01 in x. On the resetting frame the count becomes 0, but the atom is still at x = 1.0. | The reset puts the atoms back where they were when saved (a deep copy, e.g. `copy.deepcopy`), so the atom returns to x = 0.0. | medium; not executed | `Viewer.ShallowResetKeepsCoordinates` | `Viewer.DeepResetRestoresCoordinates` |
