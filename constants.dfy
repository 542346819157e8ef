/**
 * Physical constants, the unit-conversion dispatch between atomic and SI units, the bounds
 * check on quantum numbers and the closed-form hydrogen level energy.
 */
module Constants {
  import opened Wrappers
  import opened Numerics

  const HBAR: real := 1.054571817e-34
  const BOHR_RADIUS: real := 5.29177210903e-11
  const HARTREE_ENERGY: real := 4.3597447222071e-18
  const RYDBERG_ENERGY: real := 13.605693122994
  const HARTREE_TO_EV: real := 27.211386245988
  const ATOMIC_TIME_UNIT: real := 2.4188843265857e-17
  const N_MIN: int := 1
  const L_MIN: int := 0

  /** The `ValueError` raised for a quantity tag outside the conversion table. */
  datatype ConversionError = UnknownQuantity(quantity: string)

  /** The tags both conversion tables accept. */
  predicate IsQuantity(quantity: string) {
    quantity == "length" || quantity == "energy" || quantity == "time"
  }

  /** The atomic unit of each quantity, in SI units. */
  function AtomicUnit(quantity: string): (f: real)
    requires IsQuantity(quantity)
    ensures f > 0.0
  {
    match quantity
    case "length" => BOHR_RADIUS
    case "energy" => HARTREE_ENERGY
    case _ => ATOMIC_TIME_UNIT
  }

  /** `atomic_units_to_si`: multiplies by the table factor, or raises for an unknown tag. */
  function AtomicUnitsToSI(value: real, quantity: string): (r: Result<real, ConversionError>)
    ensures r.Ok? <==> IsQuantity(quantity)
    ensures !IsQuantity(quantity) ==> r == Err(UnknownQuantity(quantity))
    ensures quantity == "length" ==> r == Ok(Times(value, BOHR_RADIUS))
    ensures quantity == "energy" ==> r == Ok(Times(value, HARTREE_ENERGY))
    ensures quantity == "time" ==> r == Ok(Times(value, ATOMIC_TIME_UNIT))
  {
    if !IsQuantity(quantity) then Err(UnknownQuantity(quantity))
    else Ok(Times(value, AtomicUnit(quantity)))
  }

  /** `si_to_atomic_units`: multiplies by the reciprocal of the same factor. */
  function SIToAtomicUnits(value: real, quantity: string): (r: Result<real, ConversionError>)
    ensures r.Ok? <==> IsQuantity(quantity)
    ensures !IsQuantity(quantity) ==> r == Err(UnknownQuantity(quantity))
  {
    if !IsQuantity(quantity) then Err(UnknownQuantity(quantity))
    else Ok(Times(value, 1.0 / AtomicUnit(quantity)))
  }

  lemma ScaleThenUnscale(v: real, f: real)
    requires f > 0.0
    ensures Times(Times(v, f), 1.0 / f) == v
    ensures Times(Times(v, 1.0 / f), f) == v
  {
  }

  /** Atomic units to SI and back returns the value; an unknown tag fails both ways alike. */
  lemma AtomicToSIRoundTrip(v: real, quantity: string)
    ensures AtomicUnitsToSI(v, quantity).Ok? ==>
      SIToAtomicUnits(AtomicUnitsToSI(v, quantity).value, quantity) == Ok(v)
    ensures AtomicUnitsToSI(v, quantity).Err? <==> SIToAtomicUnits(v, quantity).Err?
  {
    if IsQuantity(quantity) {
      ScaleThenUnscale(v, AtomicUnit(quantity));
    }
  }

  /** SI to atomic units and back returns the value. */
  lemma SIToAtomicRoundTrip(v: real, quantity: string)
    ensures SIToAtomicUnits(v, quantity).Ok? ==>
      AtomicUnitsToSI(SIToAtomicUnits(v, quantity).value, quantity) == Ok(v)
  {
    if IsQuantity(quantity) {
      ScaleThenUnscale(v, AtomicUnit(quantity));
    }
  }

  /** `energy_ev_to_hartree`: the energy in Hartree that is `e` electron-volts; the sign is
      kept. */
  function EnergyEvToHartree(e: real): (h: real)
    ensures Times(h, HARTREE_TO_EV) == e
    ensures h < 0.0 <==> e < 0.0
  {
    e / HARTREE_TO_EV
  }

  /** `energy_hartree_to_ev`: the energy in electron-volts that is `e` Hartree; the sign is
      kept. */
  function EnergyHartreeToEv(e: real): (v: real)
    ensures v / HARTREE_TO_EV == e
    ensures v < 0.0 <==> e < 0.0
  {
    Times(e, HARTREE_TO_EV)
  }

  lemma EnergyRoundTrip(e: real)
    ensures EnergyHartreeToEv(EnergyEvToHartree(e)) == e
    ensures EnergyEvToHartree(EnergyHartreeToEv(e)) == e
  {
  }

  /** `validate_quantum_number_bounds`: the physical bounds as a boolean, never raising. */
  function ValidateQuantumNumberBounds(n: int, l: int, m: int): (ok: bool)
    ensures ok <==> 1 <= n && 0 <= l < n && -l <= m <= l
  {
    if n < N_MIN then false
    else if l < L_MIN || l >= n then false
    else if Abs(m as real) > l as real then false
    else true
  }

  /** The `ZeroDivisionError` Python raises when a level energy is asked for at n = 0. */
  datatype ArithmeticError = ZeroDivision

  /** The Rydberg formula −R/n², defined for every n except 0. */
  function LevelEnergy(n: int): (e: real)
    requires n != 0
    ensures e < 0.0
  {
    NonZeroSquarePositive(n);
    -RYDBERG_ENERGY / (n * n) as real
  }

  lemma NonZeroSquarePositive(n: int)
    requires n != 0
    ensures n * n > 0
  {
    if n > 0 {
      assert n * n >= n;
    } else {
      assert n * n == (-n) * (-n) >= -n;
    }
  }

  /** `get_energy_level_ev`. */
  function EnergyLevelEv(n: int): (r: Result<real, ArithmeticError>)
    ensures r.Err? <==> n == 0
    ensures r.Ok? ==> r.value == LevelEnergy(n) && r.value < 0.0
  {
    if n == 0 then Err(ZeroDivision) else Ok(LevelEnergy(n))
  }

  lemma GroundAndFirstExcited()
    ensures LevelEnergy(1) == -RYDBERG_ENERGY
    ensures LevelEnergy(2) == -RYDBERG_ENERGY / 4.0
  {
  }

  /** Levels rise towards zero: E(a) < E(b) whenever 1 <= a < b. */
  lemma LevelEnergyIncreasing(a: int, b: int)
    requires 1 <= a < b
    ensures LevelEnergy(a) < LevelEnergy(b)
  {
    SquaresIncrease(a, b);
    DivideByLarger(RYDBERG_ENERGY, (a * a) as real, (b * b) as real);
  }

  lemma SquaresIncrease(a: int, b: int)
    requires 1 <= a < b
    ensures a * a < b * b
  {
    assert a * a <= a * b;
    assert a * b < b * b;
  }

  lemma DivideByLarger(x: real, p: real, q: real)
    requires x > 0.0 && 0.0 < p < q
    ensures x / q < x / p
  {
    var u, w := x / q, x / p;
    assert Times(u, q) == x && Times(w, p) == x;
    if u >= w {
      TimesStrictMonotone(w, p, q);
      TimesMonotone(q, w, u);
    }
  }

  /** `get_orbital_angular_momentum`: ħ·sqrt(l(l+1)); the root's argument is never negative. */
  function OrbitalAngularMomentum(l: int, sqrt: real -> real): (r: real)
    requires IsSqrt(sqrt)
    ensures r >= 0.0
    ensures r == 0.0 <==> l == 0 || l == -1
  {
    ConsecutiveProduct(l);
    var s := sqrt((l * (l + 1)) as real);
    SqrtZeroIff(sqrt, (l * (l + 1)) as real);
    TimesPositiveOrZero(HBAR, s);
    Times(HBAR, s)
  }

  /** l(l+1) is never negative for an integer l, and is zero only at 0 and −1. */
  lemma ConsecutiveProduct(l: int)
    ensures l * (l + 1) >= 0
    ensures l * (l + 1) == 0 <==> l == 0 || l == -1
  {
    if l > 0 {
      ProductPositive(l, l + 1);
    } else if l < -1 {
      ProductPositive(-l, -l - 1);
      assert l * (l + 1) == (-l) * (-l - 1);
    }
  }

  lemma ProductPositive(a: int, b: int)
    requires a > 0 && b > 0
    ensures a * b > 0
  {
  }

  lemma TimesPositiveOrZero(x: real, y: real)
    requires x > 0.0 && y >= 0.0
    ensures Times(x, y) >= 0.0
    ensures Times(x, y) == 0.0 <==> y == 0.0
  {
    if y > 0.0 {
      TimesPositive(x, y);
    } else {
      assert Times(x, y) == Times(y, x);
      TimesZero(y, x);
    }
  }
}
