/**
 * Quantum-number validation with its ordered error messages, spectroscopic orbital names,
 * level energies and the metadata the grid builders return around their sampled arrays.
 */
module Orbitals {
  import opened Wrappers
  import opened Numerics
  import opened Strings
  import Constants

  /** A Python value passed as a quantum number: `isinstance(x, int)` holds for ints and for
      bools (`True` counts as 1), and fails for floats. */
  datatype PyNumber = PyInt(i: int) | PyBool(b: bool) | PyFloat(x: real) {
    predicate IsInt() {
      !PyFloat?
    }

    function AsInt(): int
      requires IsInt()
    {
      match this
      case PyInt(i) => i
      case PyBool(b) => if b then 1 else 0
    }
  }

  /** The `ValueError` messages of `validate_quantum_numbers`, in the order they are checked. */
  datatype OrbitalError =
    | NotIntegers
    | PrincipalTooSmall(n: int)
    | AngularNegative(l: int)
    | AngularNotBelowPrincipal(l: int, n: int)
    | MagneticTooLarge(m: int, l: int)

  /** `validate_quantum_numbers`: `True`, or the error of the first check that fails. */
  function ValidateQuantumNumbers(n: PyNumber, l: PyNumber, m: PyNumber): (r: Result<bool, OrbitalError>)
    ensures r.Ok? ==> r.value
    ensures r.Ok? <==> n.IsInt() && l.IsInt() && m.IsInt()
                       && Constants.ValidateQuantumNumberBounds(n.AsInt(), l.AsInt(), m.AsInt())
    ensures !(n.IsInt() && l.IsInt() && m.IsInt()) ==> r == Err(NotIntegers)
    ensures n.IsInt() && l.IsInt() && m.IsInt() ==>
      var (ni, li, mi) := (n.AsInt(), l.AsInt(), m.AsInt());
      (ni < 1 ==> r == Err(PrincipalTooSmall(ni)))
      && (ni >= 1 && li < 0 ==> r == Err(AngularNegative(li)))
      && (ni >= 1 && li >= 0 && li >= ni ==> r == Err(AngularNotBelowPrincipal(li, ni)))
      && (ni >= 1 && 0 <= li < ni && !(-li <= mi <= li) ==> r == Err(MagneticTooLarge(mi, li)))
  {
    if !(n.IsInt() && l.IsInt() && m.IsInt()) then Err(NotIntegers)
    else
      var (ni, li, mi) := (n.AsInt(), l.AsInt(), m.AsInt());
      if ni < 1 then Err(PrincipalTooSmall(ni))
      else if li < 0 then Err(AngularNegative(li))
      else if li >= ni then Err(AngularNotBelowPrincipal(li, ni))
      else if Abs(mi as real) > li as real then Err(MagneticTooLarge(mi, li))
      else Ok(true)
  }

  /** On integers the raising validator accepts exactly what the boolean bounds check accepts. */
  lemma ValidatorsAgree(n: int, l: int, m: int)
    ensures ValidateQuantumNumbers(PyInt(n), PyInt(l), PyInt(m)).Ok?
            <==> Constants.ValidateQuantumNumberBounds(n, l, m)
  {
  }

  lemma ValidationExamples()
    ensures ValidateQuantumNumbers(PyInt(1), PyInt(0), PyInt(0)) == Ok(true)
    ensures ValidateQuantumNumbers(PyInt(2), PyInt(1), PyInt(0)) == Ok(true)
    ensures ValidateQuantumNumbers(PyInt(3), PyInt(2), PyInt(-1)) == Ok(true)
    ensures ValidateQuantumNumbers(PyInt(0), PyInt(0), PyInt(0)) == Err(PrincipalTooSmall(0))
    ensures ValidateQuantumNumbers(PyInt(2), PyInt(2), PyInt(0)) == Err(AngularNotBelowPrincipal(2, 2))
    ensures ValidateQuantumNumbers(PyInt(2), PyInt(1), PyInt(2)) == Err(MagneticTooLarge(2, 1))
    ensures ValidateQuantumNumbers(PyFloat(1.0), PyInt(0), PyInt(0)) == Err(NotIntegers)
    ensures ValidateQuantumNumbers(PyBool(true), PyBool(false), PyInt(0)) == Ok(true)
  {
  }

  /** `ORBITAL_LETTERS.get(l, f'l={l}')`. */
  function OrbitalLetter(l: int): string {
    match l
    case 0 => "s"
    case 1 => "p"
    case 2 => "d"
    case 3 => "f"
    case 4 => "g"
    case 5 => "h"
    case 6 => "i"
    case _ => "l=" + IntToString(l)
  }

  /** The magnetic subscript of `get_orbital_name`: Cartesian labels for p and d orbitals
      (falling back to the number itself), `_m=<m>` above d when m is not 0, else nothing. */
  function MagneticSuffix(l: int, m: int): string {
    if l == 1 then
      "_" + (match m
             case -1 => "x"
             case 0 => "z"
             case 1 => "y"
             case _ => IntToString(m))
    else if l == 2 then
      "_" + (match m
             case -2 => "xy"
             case -1 => "yz"
             case 0 => "z²"
             case 1 => "xz"
             case 2 => "x²-y²"
             case _ => IntToString(m))
    else if l > 2 && m != 0 then "_m=" + IntToString(m)
    else ""
  }

  /** The letter followed by the magnetic subscript. */
  function NameTail(l: int, m: int): string {
    OrbitalLetter(l) + MagneticSuffix(l, m)
  }

  /** `get_orbital_name`: `str(n)`, then the letter, then the magnetic subscript. */
  function OrbitalName(n: int, l: int, m: int): (name: string)
    ensures IntToString(n) <= name
  {
    IntToString(n) + NameTail(l, m)
  }

  lemma SmallNumerals()
    ensures IntToString(1) == "1" && IntToString(2) == "2" && IntToString(3) == "3"
    ensures IntToString(4) == "4" && IntToString(5) == "5"
  {
  }

  /** The s and p names of the first two shells. */
  lemma OrbitalNameExamples()
    ensures OrbitalName(1, 0, 0) == "1s"
    ensures OrbitalName(2, 1, 0) == "2p_z"
    ensures OrbitalName(2, 1, -1) == "2p_x"
    ensures OrbitalName(2, 1, 1) == "2p_y"
    ensures OrbitalName(2, 1, 5) == "2p_5"
  {
    SmallNumerals();
  }

  /** The d names keep their subscripts; f and higher letters carry none for m = 0. */
  lemma OrbitalNameExamplesD()
    ensures OrbitalName(3, 2, 0) == "3d_z²"
    ensures OrbitalName(3, 2, 2) == "3d_x²-y²"
    ensures OrbitalName(3, 2, -2) == "3d_xy"
    ensures OrbitalName(4, 3, 0) == "4f"
  {
    SmallNumerals();
  }

  /** Above l = 6 the letter is spelled out, and the subscript names m for m != 0. */
  lemma OrbitalNameHighL(n: int, l: int, m: int)
    requires l > 6 && m != 0
    ensures OrbitalName(n, l, m) == IntToString(n) + "l=" + IntToString(l) + "_m=" + IntToString(m)
  {
  }

  /** What follows the digits of n never starts with a digit or a minus sign. */
  lemma NameTailStartsWithLetter(l: int, m: int)
    ensures NameTail(l, m) != [] && !IsNumeralChar(NameTail(l, m)[0])
  {
  }

  lemma SuffixStartsWithUnderscore(l: int, m: int)
    ensures var s := MagneticSuffix(l, m); s != [] ==> s[0] == '_'
  {
  }

  /** The Cartesian label of a p orbital for m in −1..1. */
  lemma PLabelsDistinct(m1: int, m2: int)
    requires -1 <= m1 <= 1 && -1 <= m2 <= 1
    requires MagneticSuffix(1, m1) == MagneticSuffix(1, m2)
    ensures m1 == m2
  {
    assert MagneticSuffix(1, m1)[1] == MagneticSuffix(1, m2)[1];
  }

  /** The Cartesian label of a d orbital for m in −2..2. */
  lemma DLabelsDistinct(m1: int, m2: int)
    requires -2 <= m1 <= 2 && -2 <= m2 <= 2
    requires MagneticSuffix(2, m1) == MagneticSuffix(2, m2)
    ensures m1 == m2
  {
    var s1, s2 := MagneticSuffix(2, m1), MagneticSuffix(2, m2);
    assert |s1| == |s2| && s1[1] == s2[1] && s1[2] == s2[2];
  }

  /** For a fixed l, the subscript tells allowed values of m apart. */
  lemma MagneticSuffixInjective(l: int, m1: int, m2: int)
    requires 0 <= l && -l <= m1 <= l && -l <= m2 <= l
    requires MagneticSuffix(l, m1) == MagneticSuffix(l, m2)
    ensures m1 == m2
  {
    if l == 1 {
      PLabelsDistinct(m1, m2);
    } else if l == 2 {
      DLabelsDistinct(m1, m2);
    } else if l > 2 && m1 != 0 && m2 != 0 {
      var s1, s2 := MagneticSuffix(l, m1), MagneticSuffix(l, m2);
      assert IntToString(m1) == s1[3..] == s2[3..] == IntToString(m2);
      IntToStringInjective(m1, m2);
    } else if l > 2 {
      assert |MagneticSuffix(l, m1)| == 0 <==> m1 == 0;
    }
  }

  /** The first character of the letter tells every l up to 6 apart from all others. */
  lemma LetterFirstChar(l1: int, l2: int)
    requires 0 <= l1 && 0 <= l2
    requires OrbitalLetter(l1)[0] == OrbitalLetter(l2)[0]
    ensures l1 == l2 || (l1 > 6 && l2 > 6)
  {
  }

  /** The letter and subscript together determine l and m. */
  lemma NameTailInjective(l1: int, m1: int, l2: int, m2: int)
    requires 0 <= l1 && -l1 <= m1 <= l1 && 0 <= l2 && -l2 <= m2 <= l2
    requires NameTail(l1, m1) == NameTail(l2, m2)
    ensures l1 == l2 && m1 == m2
  {
    var a1, a2 := OrbitalLetter(l1), OrbitalLetter(l2);
    var x1, x2 := MagneticSuffix(l1, m1), MagneticSuffix(l2, m2);
    assert a1[0] == (a1 + x1)[0] == (a2 + x2)[0] == a2[0];
    LetterFirstChar(l1, l2);
    if l1 > 6 && l2 > 6 {
      SpelledLetterTails(l1, m1, l2, m2);
    } else {
      SplitAfterFirst(a1, x1, a2, x2);
    }
    MagneticSuffixInjective(l1, m1, m2);
  }

  /** Past l = 6 the spelled-out letter `l=<l>` is followed by a subscript that is empty or
      starts with `_`, so the number and the subscript split apart. */
  lemma SpelledLetterTails(l1: int, m1: int, l2: int, m2: int)
    requires l1 > 6 && l2 > 6
    requires NameTail(l1, m1) == NameTail(l2, m2)
    ensures l1 == l2 && MagneticSuffix(l1, m1) == MagneticSuffix(l2, m2)
  {
    SpelledLetter(l1);
    SpelledLetter(l2);
    SuffixStartsWithUnderscore(l1, m1);
    SuffixStartsWithUnderscore(l2, m2);
    SplitSpelled(l1, MagneticSuffix(l1, m1), l2, MagneticSuffix(l2, m2));
  }

  lemma SpelledLetter(l: int)
    requires l > 6
    ensures OrbitalLetter(l) == "l=" + IntToString(l)
  {
  }

  lemma SplitSpelled(l1: int, x1: string, l2: int, x2: string)
    requires x1 != [] ==> x1[0] == '_'
    requires x2 != [] ==> x2[0] == '_'
    requires "l=" + IntToString(l1) + x1 == "l=" + IntToString(l2) + x2
    ensures l1 == l2 && x1 == x2
  {
    var t1, t2 := IntToString(l1) + x1, IntToString(l2) + x2;
    assert "l=" + IntToString(l1) + x1 == "l=" + t1;
    assert "l=" + IntToString(l2) + x2 == "l=" + t2;
    assert t1 == ("l=" + t1)[2..] == ("l=" + t2)[2..] == t2;
    SplitAfterInt(l1, x1, l2, x2);
  }

  lemma SplitAfterFirst(a1: string, x1: string, a2: string, x2: string)
    requires |a1| == 1 && |a2| == 1 && a1 + x1 == a2 + x2
    ensures x1 == x2
  {
    assert x1 == (a1 + x1)[1..] == (a2 + x2)[1..] == x2;
  }

  /** Distinct valid triples get distinct names. */
  lemma OrbitalNameInjective(n1: int, l1: int, m1: int, n2: int, l2: int, m2: int)
    requires Constants.ValidateQuantumNumberBounds(n1, l1, m1)
    requires Constants.ValidateQuantumNumberBounds(n2, l2, m2)
    requires OrbitalName(n1, l1, m1) == OrbitalName(n2, l2, m2)
    ensures n1 == n2 && l1 == l2 && m1 == m2
  {
    NameTailStartsWithLetter(l1, m1);
    NameTailStartsWithLetter(l2, m2);
    SplitAfterInt(n1, NameTail(l1, m1), n2, NameTail(l2, m2));
    NameTailInjective(l1, m1, l2, m2);
  }

  /** `calculate_orbital_energy`: −R/n², a division by zero at n = 0. */
  function CalculateOrbitalEnergy(n: int): (r: Result<real, Constants.ArithmeticError>)
    ensures r == Constants.EnergyLevelEv(n)
  {
    if n == 0 then Err(Constants.ZeroDivision) else Ok(Constants.LevelEnergy(n))
  }

  /** `calculate_energy_difference`: E(n2) − E(n1), evaluating E(n1) first. */
  function CalculateEnergyDifference(n1: int, n2: int): (r: Result<real, Constants.ArithmeticError>)
    ensures r.Ok? <==> n1 != 0 && n2 != 0
    ensures r.Ok? ==> r.value == Constants.LevelEnergy(n2) - Constants.LevelEnergy(n1)
    ensures r.Err? ==> r.error == Constants.ZeroDivision
  {
    var e1 := CalculateOrbitalEnergy(n1);
    if e1.Err? then Err(e1.error)
    else
      var e2 := CalculateOrbitalEnergy(n2);
      if e2.Err? then Err(e2.error) else Ok(e2.value - e1.value)
  }

  /** Going up in n costs energy: the difference is positive when 1 <= n1 < n2. */
  lemma EnergyDifferencePositive(n1: int, n2: int)
    requires 1 <= n1 < n2
    ensures CalculateEnergyDifference(n1, n2).Ok? && CalculateEnergyDifference(n1, n2).value > 0.0
  {
    Constants.LevelEnergyIncreasing(n1, n2);
  }

  /** Swapping the levels negates the difference; equal levels give zero. */
  lemma EnergyDifferenceAntisymmetric(n1: int, n2: int)
    requires n1 != 0 && n2 != 0
    ensures CalculateEnergyDifference(n1, n2).value == -CalculateEnergyDifference(n2, n1).value
    ensures n1 == n2 ==> CalculateEnergyDifference(n1, n2).value == 0.0
  {
  }

  const DEFAULT_GRID_POINTS: int := 100
  const SPATIAL_EXTENT: real := 30.0

  /** Failures of the grid builders: a rejected quantum number, NumPy refusing a negative
      sample count, or an unknown plane tag. */
  datatype GridError =
    | InvalidQuantumNumbers(cause: OrbitalError)
    | NegativeSampleCount(num: int)
    | InvalidPlane(plane: string)

  /** The metadata `generate_orbital_grid` returns next to its sampled arrays: the coordinate
      axis shared by x, y and z, the quantum numbers, the energy and the name. */
  datatype OrbitalGrid = OrbitalGrid(
    axis: seq<real>,
    quantumNumbers: (int, int, int),
    energy: real,
    orbitalName: string)

  /** `np.linspace(-extent, extent, num)`, which raises for a negative count. */
  function CoordinateAxis(extent: real, num: int): (r: Result<seq<real>, GridError>)
    ensures r.Err? <==> num < 0
    ensures r.Err? ==> r.error == NegativeSampleCount(num)
    ensures r.Ok? ==> |r.value| == num
    ensures r.Ok? && num >= 1 ==> r.value[0] == -extent
    ensures r.Ok? && num >= 2 ==> r.value[num - 1] == extent
    ensures r.Ok? && extent >= 0.0 ==> forall i :: 0 <= i < num ==> -extent <= r.value[i] <= extent
    ensures r.Ok? && num >= 2 ==>
      forall i :: 0 <= i < num - 1 ==> r.value[i + 1] - r.value[i] == (2.0 * extent) / (num - 1) as real
  {
    if num < 0 then Err(NegativeSampleCount(num)) else Ok(Linspace(-extent, extent, num))
  }

  /** `generate_orbital_grid` (metadata): validation first, then the defaults, then the axis. */
  function GenerateOrbitalGrid(n: int, l: int, m: int, gridPoints: Option<int>, spatialExtent: Option<real>)
    : (r: Result<OrbitalGrid, GridError>)
    ensures ValidateQuantumNumbers(PyInt(n), PyInt(l), PyInt(m)).Err? ==>
      r == Err(InvalidQuantumNumbers(ValidateQuantumNumbers(PyInt(n), PyInt(l), PyInt(m)).error))
    ensures r.Ok? <==> Constants.ValidateQuantumNumberBounds(n, l, m) && gridPoints.GetOr(DEFAULT_GRID_POINTS) >= 0
    ensures r.Ok? ==> r.value.quantumNumbers == (n, l, m)
    ensures r.Ok? ==> r.value.energy == Constants.LevelEnergy(n)
    ensures r.Ok? ==> r.value.orbitalName == OrbitalName(n, l, m)
    ensures r.Ok? ==> r.value.axis == Linspace(-spatialExtent.GetOr(SPATIAL_EXTENT), spatialExtent.GetOr(SPATIAL_EXTENT),
                                               gridPoints.GetOr(DEFAULT_GRID_POINTS))
  {
    var valid := ValidateQuantumNumbers(PyInt(n), PyInt(l), PyInt(m));
    if valid.Err? then Err(InvalidQuantumNumbers(valid.error))
    else
      var points := gridPoints.GetOr(DEFAULT_GRID_POINTS);
      var extent := spatialExtent.GetOr(SPATIAL_EXTENT);
      var axis := CoordinateAxis(extent, points);
      if axis.Err? then Err(axis.error)
      else Ok(OrbitalGrid(axis.value, (n, l, m), CalculateOrbitalEnergy(n).value, OrbitalName(n, l, m)))
  }

  /** With no arguments the grid has 100 samples per axis spanning [−30, 30]. */
  lemma OrbitalGridDefaults(n: int, l: int, m: int)
    requires Constants.ValidateQuantumNumberBounds(n, l, m)
    ensures var g := GenerateOrbitalGrid(n, l, m, None, None);
      g.Ok? && |g.value.axis| == 100 && g.value.axis[0] == -30.0 && g.value.axis[99] == 30.0
  {
  }

  /** The three coordinate arrays of `generate_cross_section`, each `num` × `num`. */
  datatype CrossSection = CrossSection(
    x: seq<seq<real>>,
    y: seq<seq<real>>,
    z: seq<seq<real>>,
    plane: string,
    quantumNumbers: (int, int, int))

  /** `np.meshgrid(a, b)` (default 'xy' indexing): the first array varies along rows. */
  function MeshColumns(a: seq<real>): (g: seq<seq<real>>)
    ensures |g| == |a| && forall i :: 0 <= i < |g| ==> g[i] == a
  {
    seq(|a|, i requires 0 <= i < |a| => a)
  }

  function MeshRows(a: seq<real>): (g: seq<seq<real>>)
    ensures |g| == |a| && forall i :: 0 <= i < |g| ==> |g[i]| == |a| && forall j :: 0 <= j < |a| ==> g[i][j] == a[i]
  {
    seq(|a|, i requires 0 <= i < |a| => seq(|a|, j requires 0 <= j < |a| => a[i]))
  }

  /** `np.zeros_like` of a `num` × `num` array. */
  function Zeros(num: nat): (g: seq<seq<real>>)
    ensures |g| == num && forall i :: 0 <= i < num ==> |g[i]| == num && forall j :: 0 <= j < num ==> g[i][j] == 0.0
  {
    seq(num, i requires 0 <= i < num => seq(num, j requires 0 <= j < num => 0.0))
  }

  predicate IsPlane(plane: string) {
    plane == "xy" || plane == "xz" || plane == "yz"
  }

  /** `generate_cross_section` (coordinates): validation, then the axis, then the plane tag. */
  function GenerateCrossSection(n: int, l: int, m: int, plane: string,
                                gridPoints: Option<int>, spatialExtent: Option<real>)
    : (r: Result<CrossSection, GridError>)
    ensures ValidateQuantumNumbers(PyInt(n), PyInt(l), PyInt(m)).Err? ==>
      r == Err(InvalidQuantumNumbers(ValidateQuantumNumbers(PyInt(n), PyInt(l), PyInt(m)).error))
    ensures r.Ok? <==> Constants.ValidateQuantumNumberBounds(n, l, m)
                       && gridPoints.GetOr(DEFAULT_GRID_POINTS) >= 0 && IsPlane(plane)
    ensures (Constants.ValidateQuantumNumberBounds(n, l, m) && gridPoints.GetOr(DEFAULT_GRID_POINTS) >= 0
             && !IsPlane(plane)) ==> r == Err(InvalidPlane(plane))
    ensures r.Ok? ==> r.value.plane == plane && r.value.quantumNumbers == (n, l, m)
    ensures r.Ok? ==>
      var a := CoordinateAxis(spatialExtent.GetOr(SPATIAL_EXTENT), gridPoints.GetOr(DEFAULT_GRID_POINTS)).value;
      && (plane == "xy" ==> r.value.x == MeshColumns(a) && r.value.y == MeshRows(a))
      && (plane == "xz" ==> r.value.x == MeshColumns(a) && r.value.z == MeshRows(a))
      && (plane == "yz" ==> r.value.y == MeshColumns(a) && r.value.z == MeshRows(a))
    ensures r.Ok? && plane == "xy" ==> r.value.z == Zeros(gridPoints.GetOr(DEFAULT_GRID_POINTS))
    ensures r.Ok? && plane == "xz" ==> r.value.y == Zeros(gridPoints.GetOr(DEFAULT_GRID_POINTS))
    ensures r.Ok? && plane == "yz" ==> r.value.x == Zeros(gridPoints.GetOr(DEFAULT_GRID_POINTS))
  {
    var valid := ValidateQuantumNumbers(PyInt(n), PyInt(l), PyInt(m));
    if valid.Err? then Err(InvalidQuantumNumbers(valid.error))
    else
      var points := gridPoints.GetOr(DEFAULT_GRID_POINTS);
      var extent := spatialExtent.GetOr(SPATIAL_EXTENT);
      var axis := CoordinateAxis(extent, points);
      if axis.Err? then Err(axis.error)
      else
        var coord := axis.value;
        if plane == "xy" then
          Ok(CrossSection(MeshColumns(coord), MeshRows(coord), Zeros(points), plane, (n, l, m)))
        else if plane == "xz" then
          Ok(CrossSection(MeshColumns(coord), Zeros(points), MeshRows(coord), plane, (n, l, m)))
        else if plane == "yz" then
          Ok(CrossSection(Zeros(points), MeshColumns(coord), MeshRows(coord), plane, (n, l, m)))
        else Err(InvalidPlane(plane))
  }
}
