/**
 * The hydrogen wave function ψ = R·Y around its special functions: the quantum-number
 * guards, the zero-radius remap, the densities built from ψ, the closed form for ⟨r⟩ and
 * the sampled most probable radius. R and Y themselves are SciPy calls and stay abstract.
 */
module Schrodinger {
  import opened Wrappers
  import opened Numerics
  import Constants

  /** The special functions the program takes from SciPy: `radial(n, l, r)` is the closed form
      for R_{n,l}(r), `harmonic(l, m, θ, φ)` is Y_l^m(θ, φ). */
  datatype SpecialFunctions = SpecialFunctions(
    radial: (int, int, real) -> real,
    harmonic: (int, int, real, real) -> Complex)

  /** The `ValueError`s raised by the guards, one per message. */
  datatype WaveError =
    | PrincipalBelowOne
    | AngularOutOfRange(l: int, n: int)
    | AngularNegative
    | MagneticOutOfRange(m: int, l: int)

  /** The radius substituted for an exact zero before the radial formula is evaluated. */
  const ZERO_RADIUS_SUBSTITUTE: real := 0.0000000001

  /** `np.where(r == 0, 1e-10, r)`. */
  function RemapRadius(r: real): (r': real)
    ensures r >= 0.0 ==> r' > 0.0
    ensures r != 0.0 ==> r' == r
    ensures r == 0.0 ==> r' == ZERO_RADIUS_SUBSTITUTE
  {
    if r == 0.0 then ZERO_RADIUS_SUBSTITUTE else r
  }

  /** `radial_wave_function`: the guards on n and l, then R at the remapped radius. */
  function RadialWaveFunction(sf: SpecialFunctions, r: real, n: int, l: int): (res: Result<real, WaveError>)
    ensures res.Ok? <==> 1 <= n && 0 <= l < n
    ensures n < 1 ==> res == Err(PrincipalBelowOne)
    ensures 1 <= n && (l < 0 || l >= n) ==> res == Err(AngularOutOfRange(l, n))
    ensures res.Ok? ==> res.value == sf.radial(n, l, RemapRadius(r))
  {
    if n < 1 then Err(PrincipalBelowOne)
    else if l < 0 || l >= n then Err(AngularOutOfRange(l, n))
    else Ok(sf.radial(n, l, RemapRadius(r)))
  }

  /** The guards run before any evaluation: the error raised depends only on n and l. */
  lemma RadialErrorIndependentOfEvaluation(sf1: SpecialFunctions, sf2: SpecialFunctions,
                                           r1: real, r2: real, n: int, l: int)
    requires RadialWaveFunction(sf1, r1, n, l).Err?
    ensures RadialWaveFunction(sf2, r2, n, l) == RadialWaveFunction(sf1, r1, n, l)
  {
  }

  /** `spherical_harmonic`: the guards on l and m, then Y. */
  function SphericalHarmonic(sf: SpecialFunctions, theta: real, phi: real, l: int, m: int)
    : (res: Result<Complex, WaveError>)
    ensures res.Ok? <==> 0 <= l && -l <= m <= l
    ensures l < 0 ==> res == Err(AngularNegative)
    ensures 0 <= l && !(-l <= m <= l) ==> res == Err(MagneticOutOfRange(m, l))
    ensures res.Ok? ==> res.value == sf.harmonic(l, m, theta, phi)
  {
    if l < 0 then Err(AngularNegative)
    else if Abs(m as real) > l as real then Err(MagneticOutOfRange(m, l))
    else Ok(sf.harmonic(l, m, theta, phi))
  }

  /** The angular guard does not look at n: Y accepts an l that R rejects for the same n. */
  lemma HarmonicDoesNotCheckPrincipal(sf: SpecialFunctions, r: real, theta: real, phi: real,
                                      n: int, l: int, m: int)
    requires 1 <= n <= l && -l <= m <= l
    ensures SphericalHarmonic(sf, theta, phi, l, m).Ok?
    ensures RadialWaveFunction(sf, r, n, l) == Err(AngularOutOfRange(l, n))
  {
  }

  /** `hydrogen_wave_function`: R first, then Y, then their product. */
  function HydrogenWaveFunction(sf: SpecialFunctions, r: real, theta: real, phi: real,
                                n: int, l: int, m: int): (res: Result<Complex, WaveError>)
    ensures res.Ok? <==> Constants.ValidateQuantumNumberBounds(n, l, m)
    ensures RadialWaveFunction(sf, r, n, l).Err? ==> res == Err(RadialWaveFunction(sf, r, n, l).error)
    ensures RadialWaveFunction(sf, r, n, l).Ok? && SphericalHarmonic(sf, theta, phi, l, m).Err? ==>
      res == Err(SphericalHarmonic(sf, theta, phi, l, m).error)
  {
    var radial := RadialWaveFunction(sf, r, n, l);
    if radial.Err? then Err(radial.error)
    else
      var angular := SphericalHarmonic(sf, theta, phi, l, m);
      if angular.Err? then Err(angular.error)
      else Ok(Scale(radial.value, angular.value))
  }

  /** `probability_density`: |ψ|², never negative. */
  function ProbabilityDensity(sf: SpecialFunctions, r: real, theta: real, phi: real,
                              n: int, l: int, m: int): (res: Result<real, WaveError>)
    ensures res.Ok? <==> Constants.ValidateQuantumNumberBounds(n, l, m)
    ensures res.Ok? ==> res.value >= 0.0
  {
    var psi := HydrogenWaveFunction(sf, r, theta, phi, n, l, m);
    if psi.Err? then Err(psi.error) else Ok(NormSq(psi.value))
  }

  /** `angular_probability_density`: |Y|², never negative. */
  function AngularProbabilityDensity(sf: SpecialFunctions, theta: real, phi: real, l: int, m: int)
    : (res: Result<real, WaveError>)
    ensures res.Ok? <==> 0 <= l && -l <= m <= l
    ensures res.Ok? ==> res.value >= 0.0
  {
    var y := SphericalHarmonic(sf, theta, phi, l, m);
    if y.Err? then Err(y.error) else Ok(NormSq(y.value))
  }

  /** |ψ|² factorises as |R|²·|Y|². */
  lemma ProbabilityDensityFactorises(sf: SpecialFunctions, r: real, theta: real, phi: real,
                                     n: int, l: int, m: int)
    requires Constants.ValidateQuantumNumberBounds(n, l, m)
    ensures ProbabilityDensity(sf, r, theta, phi, n, l, m).value
      == Times(Sq(RadialWaveFunction(sf, r, n, l).value),
               AngularProbabilityDensity(sf, theta, phi, l, m).value)
  {
    NormSqScale(RadialWaveFunction(sf, r, n, l).value, SphericalHarmonic(sf, theta, phi, l, m).value);
  }

  /** `radial_probability_density`: r²·|R|², with the ORIGINAL radius in the r² factor. */
  function RadialProbabilityDensity(sf: SpecialFunctions, r: real, n: int, l: int)
    : (res: Result<real, WaveError>)
    ensures res.Ok? <==> 1 <= n && 0 <= l < n
    ensures res.Ok? ==> res.value >= 0.0
    ensures res.Ok? && r == 0.0 ==> res.value == 0.0
  {
    var radial := RadialWaveFunction(sf, r, n, l);
    if radial.Err? then Err(radial.error)
    else
      SquaresProductNonNegative(r, radial.value);
      Ok(Times(Sq(r), Sq(radial.value)))
  }

  lemma SquaresProductNonNegative(x: real, y: real)
    ensures Times(Sq(x), Sq(y)) >= 0.0
    ensures x == 0.0 ==> Times(Sq(x), Sq(y)) == 0.0
  {
    if x != 0.0 && y != 0.0 {
      TimesPositive(Sq(x), Sq(y));
    } else if x == 0.0 {
      TimesZero(Sq(x), Sq(y));
    } else {
      assert Times(Sq(x), Sq(y)) == Times(Sq(y), Sq(x));
      TimesZero(Sq(y), Sq(x));
    }
  }

  /** `expectation_value_r`: (a₀/2)·(3n² − l(l+1)) with a₀ = 1. */
  function ExpectationValueR(n: int, l: int): (r: real)
    ensures 1 <= n && 0 <= l < n ==> (n * n) as real + n as real / 2.0 <= r <= 1.5 * (n * n) as real
  {
    assert 1 <= n && 0 <= l < n ==> 0 <= l * (l + 1) <= (n - 1) * n by {
      if 1 <= n && 0 <= l < n {
        ProductMonotone(0, l, l + 1);
        ProductMonotone(l, n - 1, l + 1);
        ProductMonotone(l + 1, n, n - 1);
        assert (n - 1) * (l + 1) == (l + 1) * (n - 1);
      }
    }
    Times(1.0 / 2.0, (3 * (n * n) - l * (l + 1)) as real)
  }

  /** ⟨r⟩ is strictly positive for every valid (n, l). */
  lemma ExpectationValueRPositive(n: int, l: int)
    requires 1 <= n && 0 <= l < n
    ensures ExpectationValueR(n, l) > 0.0
  {
    assert l * (l + 1) <= (n - 1) * n by {
      ProductMonotone(l, n - 1, l + 1);
      ProductMonotone(l + 1, n, n - 1);
      assert (n - 1) * (l + 1) == (l + 1) * (n - 1);
    }
    assert 3 * (n * n) - (n - 1) * n == 2 * (n * n) + n;
    assert n * n >= 1 by {
      ProductMonotone(1, n, n);
    }
    TimesPositive(1.0 / 2.0, (3 * (n * n) - l * (l + 1)) as real);
  }

  lemma ProductMonotone(a: int, b: int, k: int)
    requires 0 <= a <= b && k >= 0
    ensures a * k <= b * k
  {
    assert b * k - a * k == (b - a) * k;
  }

  lemma ExpectationValueRGround()
    ensures ExpectationValueR(1, 0) == 1.5
  {
  }

  /** The radii `most_probable_radius` samples: 1000 points evenly spaced on [0, 5n²]. */
  function RadialGrid(n: int): (grid: seq<real>)
    ensures |grid| == 1000
    ensures grid[0] == 0.0 && grid[999] == (5 * (n * n)) as real
    ensures forall i :: 0 <= i < 999 ==> grid[i + 1] - grid[i] == (5 * (n * n)) as real / 999.0
  {
    Linspace(0.0, (5 * (n * n)) as real, 1000)
  }

  /** r²·|R|² at each sample of the grid. */
  function RadialSamples(sf: SpecialFunctions, n: int, l: int): (p: seq<real>)
    requires 1 <= n && 0 <= l < n
    ensures |p| == 1000
    ensures forall i :: 0 <= i < 1000 ==> p[i] == RadialProbabilityDensity(sf, RadialGrid(n)[i], n, l).value
  {
    var grid := RadialGrid(n);
    seq(1000, i requires 0 <= i < 1000 => RadialProbabilityDensity(sf, grid[i], n, l).value)
  }

  /** `most_probable_radius`: the first sampled radius at which r²·|R|² is largest. */
  function MostProbableRadius(sf: SpecialFunctions, n: int, l: int): (res: Result<real, WaveError>)
    ensures res.Ok? <==> 1 <= n && 0 <= l < n
    ensures res.Err? ==> res == Err(RadialWaveFunction(sf, 0.0, n, l).error)
    ensures res.Ok? ==> 0.0 <= res.value <= (5 * (n * n)) as real
    ensures res.Ok? ==>
      exists k :: 0 <= k < 1000 && res.value == RadialGrid(n)[k]
        && (forall j :: 0 <= j < 1000 ==> RadialSamples(sf, n, l)[j] <= RadialSamples(sf, n, l)[k])
        && (forall j :: 0 <= j < k ==> RadialSamples(sf, n, l)[j] < RadialSamples(sf, n, l)[k])
  {
    if !(1 <= n && 0 <= l < n) then Err(RadialWaveFunction(sf, 0.0, n, l).error)
    else
      var k := ArgMax(RadialSamples(sf, n, l));
      assert 0 <= n * n by {
        ProductMonotone(0, n, n);
      }
      assert RadialGrid(n)[k] == LinspacePoint(0.0, (5 * (n * n)) as real, 1000, k);
      Ok(RadialGrid(n)[k])
  }
}
