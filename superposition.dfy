/**
 * Superpositions Σ cᵢψᵢ of hydrogen states: coefficient normalisation, the superposed wave
 * function and its interference term over a list of sample points, energy expectation and
 * spread, purity and the dominant component. The magnitude |c|² is taken as re² + im², and
 * ψ comes from the wave-function model with its special functions left abstract.
 */
module Superposition {
  import opened Wrappers
  import opened Numerics
  import Constants
  import Schrodinger
  import Orbitals

  /** A quantum-number triple (n, l, m). */
  type State = (int, int, int)

  /** One spherical sample (r, θ, φ) of the coordinate grids. */
  datatype Point = Point(r: real, theta: real, phi: real)

  /** The `ValueError`s and arithmetic failures of this module. */
  datatype SuperpositionError =
    | LengthMismatch
    | InvalidState(cause: Orbitals.OrbitalError)
    | ZeroCoefficients
    | ZeroDivision
    | IndexOutOfRange

  /** `validate_quantum_numbers(n, l, m)` on a state. */
  function ValidateState(s: State): Result<bool, Orbitals.OrbitalError> {
    Orbitals.ValidateQuantumNumbers(Orbitals.PyInt(s.0), Orbitals.PyInt(s.1), Orbitals.PyInt(s.2))
  }

  predicate ValidState(s: State) {
    Constants.ValidateQuantumNumberBounds(s.0, s.1, s.2)
  }

  lemma ValidateStateAgrees(s: State)
    ensures ValidateState(s).Ok? <==> ValidState(s)
  {
  }

  /** |cᵢ|² for every coefficient. */
  function Weights(c: seq<Complex>): (w: seq<real>)
    ensures |w| == |c|
    ensures forall i :: 0 <= i < |c| ==> w[i] == NormSq(c[i]) && w[i] >= 0.0
  {
    seq(|c|, i requires 0 <= i < |c| => NormSq(c[i]))
  }

  /** Σ|cᵢ|² is never negative, and positive exactly when some coefficient is non-zero. */
  lemma TotalWeightPositiveIff(c: seq<Complex>)
    ensures Sum(Weights(c)) >= 0.0
    ensures Sum(Weights(c)) > 0.0 <==> exists i :: 0 <= i < |c| && c[i] != Zero
  {
    SumNonNegative(Weights(c));
    if Sum(Weights(c)) == 0.0 {
      ZeroTotalMeansZeroCoefficients(c);
    } else if !exists i :: 0 <= i < |c| && c[i] != Zero {
      AllZeroWeights(c);
    }
  }

  lemma ZeroTotalMeansZeroCoefficients(c: seq<Complex>)
    requires Sum(Weights(c)) == 0.0
    ensures forall i :: 0 <= i < |c| ==> c[i] == Zero
  {
    SumZeroMeansAllZero(Weights(c));
  }

  lemma AllZeroWeights(c: seq<Complex>)
    requires forall i :: 0 <= i < |c| ==> c[i] == Zero
    ensures Sum(Weights(c)) == 0.0
  {
    assert Weights(c) == seq(|c|, i => 0.0);
    SumZeroes(|c|);
  }

  lemma {:induction false} SumZeroes(k: nat)
    ensures Sum(seq(k, i => 0.0)) == 0.0
  {
    if k > 0 {
      assert seq(k, i => 0.0)[..k - 1] == seq(k - 1, i => 0.0);
      SumZeroes(k - 1);
    }
  }

  /** A coefficient divided by a real norm. */
  function DivideBy(a: Complex, d: real): (r: Complex)
    requires d != 0.0
    ensures NormSq(r) == NormSq(a) / Sq(d)
  {
    SqOfQuotient(a.re, d);
    SqOfQuotient(a.im, d);
    Complex(a.re / d, a.im / d)
  }

  /** `normalize_superposition`: every coefficient divided by sqrt(Σ|cⱼ|²); all-zero input
      (including no coefficients at all) is refused. */
  function Normalize(c: seq<Complex>, sqrt: real -> real): (r: Result<seq<Complex>, SuperpositionError>)
    requires IsSqrt(sqrt)
    ensures r.Ok? <==> exists i :: 0 <= i < |c| && c[i] != Zero
    ensures r.Err? ==> r.error == ZeroCoefficients
    ensures r.Ok? ==> |r.value| == |c| && Sum(Weights(c)) > 0.0
    ensures r.Ok? ==> forall i :: 0 <= i < |c| ==> NormSq(r.value[i]) == NormSq(c[i]) / Sum(Weights(c))
  {
    var total := Sum(Weights(c));
    TotalWeightPositiveIff(c);
    var norm := sqrt(total);
    SqrtZeroIff(sqrt, total);
    if norm == 0.0 then Err(ZeroCoefficients)
    else
      DivideByRoot(c, norm, total);
      Ok(DivideAllBy(c, norm))
  }

  lemma DivideByRoot(c: seq<Complex>, d: real, t: real)
    requires d != 0.0 && Sq(d) == t
    ensures forall i :: 0 <= i < |c| ==> NormSq(DivideAllBy(c, d)[i]) == NormSq(c[i]) / t
  {
  }

  /** `coefficients / norm`, elementwise. */
  function DivideAllBy(c: seq<Complex>, d: real): (r: seq<Complex>)
    requires d != 0.0
    ensures |r| == |c| && forall i :: 0 <= i < |c| ==> NormSq(r[i]) == NormSq(c[i]) / Sq(d)
    ensures d == 1.0 ==> r == c
  {
    seq(|c|, i requires 0 <= i < |c| => DivideBy(c[i], d))
  }

  /** After normalising, the weights are |cᵢ|²/Σ|cⱼ|² and sum to 1. */
  lemma NormalizedWeights(c: seq<Complex>, sqrt: real -> real)
    requires IsSqrt(sqrt) && Normalize(c, sqrt).Ok?
    ensures Weights(Normalize(c, sqrt).value) == DivideAll(Weights(c), Sum(Weights(c)))
    ensures Sum(Weights(Normalize(c, sqrt).value)) == 1.0
  {
    var total := Sum(Weights(c));
    var v := Normalize(c, sqrt).value;
    assert total > 0.0;
    var w, d := Weights(v), DivideAll(Weights(c), total);
    assert |w| == |d|;
    forall i | 0 <= i < |w| ensures w[i] == d[i] {
      assert w[i] == NormSq(v[i]) == NormSq(c[i]) / total;
    }
    assert w == d;
    SumDivideAll(Weights(c), total);
    DivideBySelf(total);
  }

  /** Normalising twice is the same as normalising once. */
  lemma NormalizeIdempotent(c: seq<Complex>, sqrt: real -> real)
    requires IsSqrt(sqrt) && Normalize(c, sqrt).Ok?
    ensures Normalize(Normalize(c, sqrt).value, sqrt) == Normalize(c, sqrt)
  {
    var c' := Normalize(c, sqrt).value;
    NormalizedWeights(c, sqrt);
    SqrtOfOne(sqrt);
    TotalWeightPositiveIff(c');
    assert Normalize(c', sqrt).value == c';
  }

  /** Every normalised weight lies in [0, 1]. */
  lemma NormalizedWeightsBounded(c: seq<Complex>, sqrt: real -> real)
    requires IsSqrt(sqrt) && Normalize(c, sqrt).Ok?
    ensures forall i :: 0 <= i < |c| ==> 0.0 <= Weights(Normalize(c, sqrt).value)[i] <= 1.0
  {
    NormalizedWeights(c, sqrt);
    var p := Weights(Normalize(c, sqrt).value);
    forall i | 0 <= i < |c| ensures p[i] <= 1.0 {
      TermAtMostSum(p, i);
    }
  }

  /** A weight is zero exactly when its coefficient is. */
  lemma WeightZeroIff(c: seq<Complex>)
    ensures forall i :: 0 <= i < |c| ==> (Weights(c)[i] == 0.0 <==> c[i] == Zero)
  {
  }

  /** Normalising keeps the support: a normalised weight is zero exactly when its
      coefficient is. */
  lemma NormalizedSupport(c: seq<Complex>, sqrt: real -> real)
    requires IsSqrt(sqrt) && Normalize(c, sqrt).Ok?
    ensures forall i :: 0 <= i < |c| ==> (Weights(Normalize(c, sqrt).value)[i] == 0.0 <==> c[i] == Zero)
  {
    NormalizedWeights(c, sqrt);
    DivideAllZeroes(Weights(c), Sum(Weights(c)));
    WeightZeroIff(c);
  }

  /** pᵢ² for every weight. */
  function Squares(p: seq<real>): (q: seq<real>)
    ensures |q| == |p| && forall i :: 0 <= i < |p| ==> q[i] == Sq(p[i])
  {
    seq(|p|, i requires 0 <= i < |p| => Sq(p[i]))
  }

  /** A coefficient's normalised weight is zero exactly when the coefficient is. */
  lemma NormalizedWeightAt(c: seq<Complex>, sqrt: real -> real, i: nat)
    requires IsSqrt(sqrt) && Normalize(c, sqrt).Ok? && i < |c|
    ensures c[i] == Zero ==> Weights(Normalize(c, sqrt).value)[i] == 0.0
    ensures c[i] != Zero ==> Weights(Normalize(c, sqrt).value)[i] > 0.0
  {
    var v := Normalize(c, sqrt).value;
    var x, total := NormSq(c[i]), Sum(Weights(c));
    assert Weights(v)[i] == x / total;
    QuotientSign(x, total);
  }

  /** `calculate_purity`: Σ pᵢ² over the normalised weights, in (0, 1]. */
  function CalculatePurity(c: seq<Complex>, sqrt: real -> real): (r: Result<real, SuperpositionError>)
    requires IsSqrt(sqrt)
    ensures r.Ok? <==> Normalize(c, sqrt).Ok?
    ensures r.Err? ==> r.error == ZeroCoefficients
    ensures r.Ok? ==> 0.0 < r.value <= 1.0
  {
    var normalized := Normalize(c, sqrt);
    if normalized.Err? then Err(normalized.error)
    else
      var p := Weights(normalized.value);
      PurityOfNormalized(c, sqrt);
      Ok(Sum(Squares(p)))
  }

  lemma PurityOfNormalized(c: seq<Complex>, sqrt: real -> real)
    requires IsSqrt(sqrt) && Normalize(c, sqrt).Ok?
    ensures 0.0 < Sum(Squares(Weights(Normalize(c, sqrt).value))) <= 1.0
  {
    var p := Weights(Normalize(c, sqrt).value);
    NormalizedWeights(c, sqrt);
    NormalizedWeightsBounded(c, sqrt);
    var i :| 0 <= i < |c| && c[i] != Zero;
    NormalizedWeightAt(c, sqrt, i);
    assert p[i] > 0.0;
    PurityBounds(p);
  }

  /** For weights in [0, 1] summing to 1, Σ pᵢ² lies in (0, 1]. */
  lemma PurityBounds(p: seq<real>)
    requires forall i :: 0 <= i < |p| ==> 0.0 <= p[i] <= 1.0
    requires Sum(p) == 1.0
    requires exists i :: 0 <= i < |p| && p[i] > 0.0
    ensures 0.0 < Sum(Squares(p)) <= 1.0
  {
    var q := Squares(p);
    forall i | 0 <= i < |p| ensures q[i] <= p[i] {
      SquareAtMostSelf(p[i]);
    }
    SumMonotone(q, p);
    var i :| 0 <= i < |p| && p[i] > 0.0;
    TermAtMostSum(q, i);
  }

  lemma SquareAtMostSelf(x: real)
    requires 0.0 <= x <= 1.0
    ensures Sq(x) <= x
    ensures 0.0 < x < 1.0 ==> Sq(x) < x
  {
    TimesMonotone(x, x, 1.0);
    if 0.0 < x < 1.0 {
      TimesStrictMonotone(x, x, 1.0);
    }
  }

  /** A state with a single non-zero coefficient is pure. */
  lemma PuritySingleComponent(c: seq<Complex>, sqrt: real -> real, k: nat)
    requires IsSqrt(sqrt) && k < |c| && c[k] != Zero
    requires forall i :: 0 <= i < |c| && i != k ==> c[i] == Zero
    ensures CalculatePurity(c, sqrt) == Ok(1.0)
  {
    NormalizedWeights(c, sqrt);
    var p := Weights(Normalize(c, sqrt).value);
    forall i | 0 <= i < |p| && i != k ensures p[i] == 0.0 {
      NormalizedWeightAt(c, sqrt, i);
    }
    SingleWeightPurity(p, k);
  }

  lemma SingleWeightPurity(p: seq<real>, k: nat)
    requires k < |p| && forall i :: 0 <= i < |p| && i != k ==> p[i] == 0.0
    requires Sum(p) == 1.0
    ensures Sum(Squares(p)) == 1.0
  {
    SumOfOneNonZero(p, k);
    var q := Squares(p);
    assert q[k] == Sq(1.0) == 1.0;
    SumOfOneNonZero(q, k);
  }

  /** A sum whose only non-zero term is at index k equals that term. */
  lemma {:induction false} SumOfOneNonZero(s: seq<real>, k: nat)
    requires k < |s| && forall i :: 0 <= i < |s| && i != k ==> s[i] == 0.0
    ensures Sum(s) == s[k]
    decreases |s|
  {
    var n := |s| - 1;
    if k == n {
      assert forall i :: 0 <= i < n ==> s[..n][i] <= 0.0;
      SumMonotone(s[..n], seq(n, i => 0.0));
      SumNonNegative(s[..n]);
      SumZeroes(n);
    } else {
      SumOfOneNonZero(s[..n], k);
    }
  }

  /** Two or more non-zero coefficients make the state mixed: purity below 1. */
  lemma PurityMixed(c: seq<Complex>, sqrt: real -> real, i: nat, j: nat)
    requires IsSqrt(sqrt) && i < |c| && j < |c| && i != j
    requires c[i] != Zero && c[j] != Zero
    ensures CalculatePurity(c, sqrt).Ok? && CalculatePurity(c, sqrt).value < 1.0
  {
    NormalizedWeights(c, sqrt);
    NormalizedWeightsBounded(c, sqrt);
    NormalizedWeightAt(c, sqrt, i);
    NormalizedWeightAt(c, sqrt, j);
    StrictlyMixedWeights(Weights(Normalize(c, sqrt).value), i, j);
  }

  /** Two positive weights summing with the rest to 1 make Σ pᵢ² < 1. */
  lemma StrictlyMixedWeights(p: seq<real>, i: nat, j: nat)
    requires forall k :: 0 <= k < |p| ==> 0.0 <= p[k] <= 1.0
    requires Sum(p) == 1.0
    requires i < |p| && j < |p| && i != j && p[i] > 0.0 && p[j] > 0.0
    ensures Sum(Squares(p)) < 1.0
  {
    TwoTermsAtMostSum(p, i, j);
    var q := Squares(p);
    forall k | 0 <= k < |p| ensures q[k] <= p[k] {
      SquareAtMostSelf(p[k]);
    }
    SquareAtMostSelf(p[i]);
    SumStrictlyMonotone(q, p, i);
  }

  /** `get_dominant_state`: the state at the first index of largest weight, with that weight. */
  function GetDominantState(states: seq<State>, c: seq<Complex>, sqrt: real -> real)
    : (r: Result<(State, real), SuperpositionError>)
    requires IsSqrt(sqrt)
    ensures Normalize(c, sqrt).Err? ==> r == Err(ZeroCoefficients)
    ensures r.Ok? ==>
      var p := Weights(Normalize(c, sqrt).value);
      exists k :: 0 <= k < |p| && k < |states| && r.value == (states[k], p[k])
        && (forall j :: 0 <= j < |p| ==> p[j] <= p[k])
        && (forall j :: 0 <= j < k ==> p[j] < p[k])
    ensures Normalize(c, sqrt).Ok? && r.Err? ==> r.error == IndexOutOfRange && |states| < |c|
    ensures Normalize(c, sqrt).Ok? ==> (r.Ok? <==> ArgMax(Weights(Normalize(c, sqrt).value)) < |states|)
  {
    var normalized := Normalize(c, sqrt);
    if normalized.Err? then Err(normalized.error)
    else
      var p := Weights(normalized.value);
      var k := ArgMax(p);
      if k >= |states| then Err(IndexOutOfRange) else Ok((states[k], p[k]))
  }

  /** ψ(n, l, m) at one sample, for a state that passes validation. */
  function Psi(sf: Schrodinger.SpecialFunctions, s: State, pt: Point): Complex
    requires ValidState(s)
  {
    Schrodinger.HydrogenWaveFunction(sf, pt.r, pt.theta, pt.phi, s.0, s.1, s.2).value
  }

  /** Σ_{j<k} cⱼψⱼ at one sample. */
  function Superposed(sf: Schrodinger.SpecialFunctions, states: seq<State>, c: seq<Complex>, pt: Point, k: nat)
    : Complex
    requires k <= |states| && k <= |c| && forall j :: 0 <= j < k ==> ValidState(states[j])
  {
    if k == 0 then Zero
    else Add(Superposed(sf, states, c, pt, k - 1), Mul(c[k - 1], Psi(sf, states[k - 1], pt)))
  }

  /** Σ_{j<k} |cⱼ|²·|ψⱼ|² at one sample: the density with no interference. */
  function ClassicalSum(sf: Schrodinger.SpecialFunctions, states: seq<State>, c: seq<Complex>, pt: Point, k: nat)
    : (r: real)
    requires k <= |states| && k <= |c| && forall j :: 0 <= j < k ==> ValidState(states[j])
    ensures r >= 0.0
  {
    if k == 0 then 0.0
    else
      var term := Times(NormSq(c[k - 1]), NormSq(Psi(sf, states[k - 1], pt)));
      TimesNonNegative(NormSq(c[k - 1]), NormSq(Psi(sf, states[k - 1], pt)));
      ClassicalSum(sf, states, c, pt, k - 1) + term
  }

  /** With a single state there is nothing to interfere: |cψ|² = |c|²·|ψ|². */
  lemma SingleStateHasNoInterference(sf: Schrodinger.SpecialFunctions, s: State, c: Complex, pt: Point)
    requires ValidState(s)
    ensures NormSq(Superposed(sf, [s], [c], pt, 1)) == ClassicalSum(sf, [s], [c], pt, 1)
  {
    var psi := Psi(sf, s, pt);
    assert Superposed(sf, [s], [c], pt, 1) == Mul(c, psi);
    NormSqMul(c, psi);
  }

  /** `create_superposition` over a list of sample points: the length check, then for each
      state in order its validation and the accumulation `psi += c * ψ`. */
  method CreateSuperposition(sf: Schrodinger.SpecialFunctions, states: seq<State>, coefficients: seq<Complex>,
                             points: seq<Point>)
    returns (res: Result<seq<Complex>, SuperpositionError>)
    ensures |states| != |coefficients| ==> res == Err(LengthMismatch)
    ensures res.Ok? <==> |states| == |coefficients| && forall j :: 0 <= j < |states| ==> ValidState(states[j])
    ensures res.Err? && |states| == |coefficients| ==>
      exists i :: 0 <= i < |states| && !ValidState(states[i])
        && (forall j :: 0 <= j < i ==> ValidState(states[j]))
        && res.error == InvalidState(ValidateState(states[i]).error)
    ensures res.Ok? ==> |res.value| == |points|
    ensures res.Ok? ==>
      forall k :: 0 <= k < |points| ==> res.value[k] == Superposed(sf, states, coefficients, points[k], |states|)
  {
    if |states| != |coefficients| {
      return Err(LengthMismatch);
    }
    var psi := seq(|points|, k => Zero);
    var i := 0;
    while i < |states|
      invariant 0 <= i <= |states|
      invariant forall j :: 0 <= j < i ==> ValidState(states[j])
      invariant |psi| == |points|
      invariant forall k :: 0 <= k < |points| ==> psi[k] == Superposed(sf, states, coefficients, points[k], i)
    {
      var valid := ValidateState(states[i]);
      if valid.Err? {
        return Err(InvalidState(valid.error));
      }
      var s, c := states[i], coefficients[i];
      psi := seq(|points|, k requires 0 <= k < |points| => Add(psi[k], Mul(c, Psi(sf, s, points[k]))));
      i := i + 1;
    }
    return Ok(psi);
  }

  /** |xᵢ| for every term. */
  function AbsAll(s: seq<real>): (r: seq<real>)
    ensures |r| == |s| && forall i :: 0 <= i < |s| ==> r[i] == Abs(s[i]) && r[i] >= 0.0
  {
    seq(|s|, i requires 0 <= i < |s| => Abs(s[i]))
  }

  /** The four results of `calculate_interference`, sample by sample. */
  datatype Interference = Interference(
    superpositionProb: seq<real>,
    classicalSum: seq<real>,
    interference: seq<real>,
    fraction: real)

  /** `calculate_interference`: normalise, superpose, accumulate the classical sum state by
      state, subtract, and report Σ|interference| / Σ|ψ|² (0 when the total is 0). */
  method CalculateInterference(sf: Schrodinger.SpecialFunctions, states: seq<State>, coefficients: seq<Complex>,
                               points: seq<Point>, sqrt: real -> real)
    returns (res: Result<Interference, SuperpositionError>)
    requires IsSqrt(sqrt)
    ensures Normalize(coefficients, sqrt).Err? ==> res == Err(ZeroCoefficients)
    ensures Normalize(coefficients, sqrt).Ok? && |states| != |coefficients| ==> res == Err(LengthMismatch)
    ensures res.Ok? <==> Normalize(coefficients, sqrt).Ok? && |states| == |coefficients|
                         && forall j :: 0 <= j < |states| ==> ValidState(states[j])
    ensures res.Ok? ==> |res.value.superpositionProb| == |points| && |res.value.classicalSum| == |points|
                        && |res.value.interference| == |points|
    ensures res.Ok? ==> forall k :: 0 <= k < |points| ==>
      res.value.superpositionProb[k]
        == NormSq(Superposed(sf, states, Normalize(coefficients, sqrt).value, points[k], |states|))
    ensures res.Ok? ==> forall k :: 0 <= k < |points| ==>
      res.value.classicalSum[k] == ClassicalSum(sf, states, Normalize(coefficients, sqrt).value, points[k], |states|)
      && res.value.classicalSum[k] >= 0.0
    ensures res.Ok? ==> forall k :: 0 <= k < |points| ==>
      res.value.interference[k] == res.value.superpositionProb[k] - res.value.classicalSum[k]
    ensures res.Ok? ==> res.value.fraction >= 0.0
    ensures res.Ok? && Sum(res.value.superpositionProb) == 0.0 ==> res.value.fraction == 0.0
    ensures res.Ok? && Sum(res.value.superpositionProb) > 0.0 ==>
      res.value.fraction == Sum(AbsAll(res.value.interference)) / Sum(res.value.superpositionProb)
  {
    var normalized := Normalize(coefficients, sqrt);
    if normalized.Err? {
      return Err(normalized.error);
    }
    var c := normalized.value;
    var psi := CreateSuperposition(sf, states, c, points);
    if psi.Err? {
      return Err(psi.error);
    }
    var prob := seq(|points|, k requires 0 <= k < |points| => NormSq(psi.value[k]));
    var classical := AccumulateClassicalSum(sf, states, c, points);
    var interference := seq(|points|, k requires 0 <= k < |points| => prob[k] - classical[k]);
    SumNonNegative(prob);
    return Ok(Interference(prob, classical, interference, InterferenceFraction(prob, interference)));
  }

  /** The `classical_sum += |c|²·|ψ|²` loop of `calculate_interference`. */
  method AccumulateClassicalSum(sf: Schrodinger.SpecialFunctions, states: seq<State>, c: seq<Complex>,
                                points: seq<Point>)
    returns (classical: seq<real>)
    requires |states| <= |c| && forall j :: 0 <= j < |states| ==> ValidState(states[j])
    ensures |classical| == |points|
    ensures forall k :: 0 <= k < |points| ==> classical[k] == ClassicalSum(sf, states, c, points[k], |states|)
  {
    classical := seq(|points|, k => 0.0);
    var i := 0;
    while i < |states|
      invariant 0 <= i <= |states|
      invariant |classical| == |points|
      invariant forall k :: 0 <= k < |points| ==> classical[k] == ClassicalSum(sf, states, c, points[k], i)
    {
      var s, w := states[i], NormSq(c[i]);
      classical := seq(|points|, k requires 0 <= k < |points| =>
                         classical[k] + Times(w, NormSq(Psi(sf, s, points[k]))));
      i := i + 1;
    }
  }

  /** `interference_fraction`: Σ|interference| / Σ prob when the total is positive, else 0. */
  function InterferenceFraction(prob: seq<real>, interference: seq<real>): (f: real)
    requires Sum(prob) >= 0.0
    ensures f >= 0.0
    ensures Sum(prob) == 0.0 ==> f == 0.0
    ensures Sum(prob) > 0.0 ==> f == Sum(AbsAll(interference)) / Sum(prob)
  {
    var total := Sum(prob);
    if total > 0.0 then
      SumNonNegative(AbsAll(interference));
      QuotientSign(Sum(AbsAll(interference)), total);
      Sum(AbsAll(interference)) / total
    else 0.0
  }

  /** Σ_{j<k} wⱼ·E(nⱼ), the level energies weighted. */
  function WeightedEnergy(states: seq<State>, w: seq<real>, k: nat): real
    requires k <= |states| && k <= |w| && forall j :: 0 <= j < k ==> states[j].0 != 0
  {
    if k == 0 then 0.0
    else WeightedEnergy(states, w, k - 1) + Times(w[k - 1], Constants.LevelEnergy(states[k - 1].0))
  }

  /** Σ_{j<k} wⱼ·E(nⱼ)². */
  function WeightedSquaredEnergy(states: seq<State>, w: seq<real>, k: nat): real
    requires k <= |states| && k <= |w| && forall j :: 0 <= j < k ==> states[j].0 != 0
  {
    if k == 0 then 0.0
    else WeightedSquaredEnergy(states, w, k - 1) + Times(w[k - 1], Sq(Constants.LevelEnergy(states[k - 1].0)))
  }

  /** How many (state, coefficient) pairs `zip` yields. */
  function Zipped(states: seq<State>, coefficients: seq<Complex>): (k: nat)
    ensures k <= |states| && k <= |coefficients|
    ensures k == |states| || k == |coefficients|
  {
    if |states| < |coefficients| then |states| else |coefficients|
  }

  predicate HasGroundlessState(states: seq<State>, k: nat)
    requires k <= |states|
  {
    exists j :: 0 <= j < k && states[j].0 == 0
  }

  /** What `calculate_expectation_energy` returns: Σ pᵢ·E(nᵢ) over the zipped pairs, after
      normalising; n = 0 divides by zero. */
  function ExpectationEnergy(states: seq<State>, coefficients: seq<Complex>, sqrt: real -> real)
    : (r: Result<real, SuperpositionError>)
    requires IsSqrt(sqrt)
    ensures Normalize(coefficients, sqrt).Err? ==> r == Err(ZeroCoefficients)
    ensures Normalize(coefficients, sqrt).Ok? ==>
      (r.Err? <==> HasGroundlessState(states, Zipped(states, coefficients)))
    ensures Normalize(coefficients, sqrt).Ok? && r.Err? ==> r.error == ZeroDivision
  {
    var normalized := Normalize(coefficients, sqrt);
    var k := Zipped(states, coefficients);
    if normalized.Err? then Err(normalized.error)
    else if HasGroundlessState(states, k) then Err(ZeroDivision)
    else Ok(WeightedEnergy(states, Weights(normalized.value), k))
  }

  /** `calculate_expectation_energy`: normalise, then accumulate over the zipped pairs. */
  method CalculateExpectationEnergy(states: seq<State>, coefficients: seq<Complex>, sqrt: real -> real)
    returns (res: Result<real, SuperpositionError>)
    requires IsSqrt(sqrt)
    ensures res == ExpectationEnergy(states, coefficients, sqrt)
  {
    var normalized := Normalize(coefficients, sqrt);
    if normalized.Err? {
      return Err(normalized.error);
    }
    res := AccumulateEnergy(states, normalized.value, Zipped(states, coefficients));
  }

  /** The accumulation loop of `calculate_expectation_energy`: `expectation += prob * E`,
      stopping with `ZeroDivisionError` at the first n = 0. */
  method AccumulateEnergy(states: seq<State>, c: seq<Complex>, k: nat)
    returns (res: Result<real, SuperpositionError>)
    requires k <= |states| && k <= |c|
    ensures res.Err? <==> HasGroundlessState(states, k)
    ensures res.Err? ==> res.error == ZeroDivision
    ensures res.Ok? ==> res.value == WeightedEnergy(states, Weights(c), k)
  {
    var w := Weights(c);
    var expectation := 0.0;
    var i := 0;
    while i < k
      invariant 0 <= i <= k
      invariant forall j :: 0 <= j < i ==> states[j].0 != 0
      invariant expectation == WeightedEnergy(states, w, i)
    {
      var (n, _, _) := states[i];
      if n == 0 {
        return Err(ZeroDivision);
      }
      var prob := NormSq(c[i]);
      assert prob == w[i];
      expectation := expectation + Times(prob, Constants.LevelEnergy(n));
      i := i + 1;
    }
    return Ok(expectation);
  }

  /** Between the weights' total times the lowest and the highest energy. */
  lemma {:induction false} WeightedEnergyBetween(states: seq<State>, w: seq<real>, k: nat, lo: real, hi: real)
    requires k <= |states| && k <= |w| && forall j :: 0 <= j < k ==> states[j].0 != 0
    requires forall j :: 0 <= j < k ==> w[j] >= 0.0
    requires forall j :: 0 <= j < k ==> lo <= Constants.LevelEnergy(states[j].0) <= hi
    ensures Times(Sum(w[..k]), lo) <= WeightedEnergy(states, w, k) <= Times(Sum(w[..k]), hi)
  {
    if k == 0 {
      TimesZero(0.0, lo);
      TimesZero(0.0, hi);
    } else {
      WeightedEnergyBetween(states, w, k - 1, lo, hi);
      assert w[..k][..k - 1] == w[..k - 1];
      var e := Constants.LevelEnergy(states[k - 1].0);
      TimesMonotone(w[k - 1], lo, e);
      TimesMonotone(w[k - 1], e, hi);
      TimesDistributes(Sum(w[..k - 1]), w[k - 1], lo);
      TimesDistributes(Sum(w[..k - 1]), w[k - 1], hi);
    }
  }

  /** With every state listed (no `zip` truncation), ⟨E⟩ lies between any bounds on the
      listed level energies. */
  lemma ExpectationEnergyBounds(states: seq<State>, coefficients: seq<Complex>, sqrt: real -> real,
                                lo: real, hi: real)
    requires IsSqrt(sqrt) && |states| >= |coefficients|
    requires ExpectationEnergy(states, coefficients, sqrt).Ok?
    requires forall j :: 0 <= j < |coefficients| ==>
      states[j].0 != 0 && lo <= Constants.LevelEnergy(states[j].0) <= hi
    ensures lo <= ExpectationEnergy(states, coefficients, sqrt).value <= hi
  {
    var w := Weights(Normalize(coefficients, sqrt).value);
    var k := |coefficients|;
    NormalizedWeights(coefficients, sqrt);
    SumWhole(w);
    WeightedEnergyBetween(states, w, k, lo, hi);
    TimesOne(lo);
    TimesOne(hi);
  }

  /** Why the bound needs every coefficient to have its state: `zip` drops the second
      coefficient of a one-state list, but normalisation still counts it, so one 1s state with
      two equal coefficients gets ⟨E⟩ = E(1)/2, above E(1), the only listed level. */
  lemma TruncatedZipLeavesBounds(a: Complex, sqrt: real -> real)
    requires IsSqrt(sqrt) && a != Zero
    ensures var e := ExpectationEnergy([(1, 0, 0)], [a, a], sqrt);
      e == Ok(Constants.LevelEnergy(1) / 2.0) && e.value > Constants.LevelEnergy(1)
  {
    var states: seq<State> := [(1, 0, 0)];
    EqualWeights(a, sqrt);
    Constants.GroundAndFirstExcited();
    assert Zipped(states, [a, a]) == 1;
    assert !HasGroundlessState(states, 1);
    assert WeightedEnergy(states, [0.5, 0.5], 1) == Times(0.5, -Constants.RYDBERG_ENERGY);
  }

  /** Two equal non-zero coefficients normalise to weights ½ and ½. */
  lemma EqualWeights(a: Complex, sqrt: real -> real)
    requires IsSqrt(sqrt) && a != Zero
    ensures Normalize([a, a], sqrt).Ok?
    ensures Weights(Normalize([a, a], sqrt).value) == [0.5, 0.5]
  {
    var c := [a, a];
    assert c[0] != Zero;
    WeightsOfPair(a);
    SumOfPair(NormSq(a), NormSq(a));
    HalvesOfPair(NormSq(a));
    NormalizedWeights(c, sqrt);
  }

  lemma WeightsOfPair(a: Complex)
    ensures Weights([a, a]) == [NormSq(a), NormSq(a)]
  {
  }

  /** An equal mix of a 1s and a 2s state has ⟨E⟩ = −5R/8, strictly between E(1) and E(2). */
  lemma EqualMixExpectation(a: Complex, sqrt: real -> real)
    requires IsSqrt(sqrt) && a != Zero
    ensures var e := ExpectationEnergy([(1, 0, 0), (2, 0, 0)], [a, a], sqrt);
      e == Ok(-5.0 * Constants.RYDBERG_ENERGY / 8.0)
      && Constants.LevelEnergy(1) < e.value < Constants.LevelEnergy(2)
  {
    var states: seq<State> := [(1, 0, 0), (2, 0, 0)];
    EqualWeights(a, sqrt);
    Constants.GroundAndFirstExcited();
    assert !HasGroundlessState(states, 2);
    assert WeightedEnergy(states, [0.5, 0.5], 2)
        == Times(0.5, -Constants.RYDBERG_ENERGY) + Times(0.5, -Constants.RYDBERG_ENERGY / 4.0);
  }

  /** What `calculate_uncertainty_energy` returns: sqrt(max(0, ⟨E²⟩ − ⟨E⟩²)). */
  function EnergyUncertainty(states: seq<State>, coefficients: seq<Complex>, sqrt: real -> real)
    : (r: Result<real, SuperpositionError>)
    requires IsSqrt(sqrt)
    ensures Normalize(coefficients, sqrt).Err? ==> r == Err(ZeroCoefficients)
    ensures Normalize(coefficients, sqrt).Ok? ==>
      (r.Err? <==> HasGroundlessState(states, Zipped(states, coefficients)))
    ensures Normalize(coefficients, sqrt).Ok? && r.Err? ==> r.error == ZeroDivision
    ensures r.Ok? ==> r.value >= 0.0
  {
    var normalized := Normalize(coefficients, sqrt);
    var k := Zipped(states, coefficients);
    if normalized.Err? then Err(normalized.error)
    else if HasGroundlessState(states, k) then Err(ZeroDivision)
    else
      var w := Weights(normalized.value);
      var variance := WeightedSquaredEnergy(states, w, k) - Sq(WeightedEnergy(states, w, k));
      SqrtZeroIff(sqrt, ClampNonNegative(variance));
      Ok(sqrt(ClampNonNegative(variance)))
  }

  /** `calculate_uncertainty_energy`: normalise, accumulate ⟨E⟩ and ⟨E²⟩, then take the root
      of the clamped variance. */
  method CalculateUncertaintyEnergy(states: seq<State>, coefficients: seq<Complex>, sqrt: real -> real)
    returns (res: Result<real, SuperpositionError>)
    requires IsSqrt(sqrt)
    ensures res == EnergyUncertainty(states, coefficients, sqrt)
  {
    var normalized := Normalize(coefficients, sqrt);
    if normalized.Err? {
      return Err(normalized.error);
    }
    var moments := AccumulateMoments(states, normalized.value, Zipped(states, coefficients));
    if moments.Err? {
      return Err(moments.error);
    }
    var (mean, meanSquare) := moments.value;
    var variance := meanSquare - Sq(mean);
    return Ok(sqrt(ClampNonNegative(variance)));
  }

  /** The loop of `calculate_uncertainty_energy`: `E_avg += prob * E` and
      `E2_avg += prob * E**2` together, stopping at the first n = 0. */
  method AccumulateMoments(states: seq<State>, c: seq<Complex>, k: nat)
    returns (res: Result<(real, real), SuperpositionError>)
    requires k <= |states| && k <= |c|
    ensures res.Err? <==> HasGroundlessState(states, k)
    ensures res.Err? ==> res.error == ZeroDivision
    ensures res.Ok? ==> res.value.0 == WeightedEnergy(states, Weights(c), k)
    ensures res.Ok? ==> res.value.1 == WeightedSquaredEnergy(states, Weights(c), k)
  {
    var w := Weights(c);
    var mean, meanSquare := 0.0, 0.0;
    var i := 0;
    while i < k
      invariant 0 <= i <= k
      invariant forall j :: 0 <= j < i ==> states[j].0 != 0
      invariant mean == WeightedEnergy(states, w, i)
      invariant meanSquare == WeightedSquaredEnergy(states, w, i)
    {
      var (n, _, _) := states[i];
      if n == 0 {
        return Err(ZeroDivision);
      }
      var e, prob := Constants.LevelEnergy(n), NormSq(c[i]);
      assert prob == w[i];
      mean := mean + Times(prob, e);
      meanSquare := meanSquare + Times(prob, Sq(e));
      i := i + 1;
    }
    return Ok((mean, meanSquare));
  }

  /** When every weighted state shares the level E, the moments are (Σw)·E and (Σw)·E². */
  lemma {:induction false} MomentsOfOneLevel(states: seq<State>, w: seq<real>, k: nat, n: int)
    requires n != 0 && k <= |states| && k <= |w| && forall j :: 0 <= j < k ==> states[j].0 != 0
    requires forall j :: 0 <= j < k ==> w[j] == 0.0 || states[j].0 == n
    ensures WeightedEnergy(states, w, k) == Times(Sum(w[..k]), Constants.LevelEnergy(n))
    ensures WeightedSquaredEnergy(states, w, k) == Times(Sum(w[..k]), Sq(Constants.LevelEnergy(n)))
  {
    var e := Constants.LevelEnergy(n);
    if k == 0 {
      TimesZero(0.0, e);
      TimesZero(0.0, Sq(e));
    } else {
      MomentsOfOneLevel(states, w, k - 1, n);
      assert w[..k][..k - 1] == w[..k - 1];
      var ek := Constants.LevelEnergy(states[k - 1].0);
      if w[k - 1] == 0.0 {
        TimesZero(w[k - 1], ek);
        TimesZero(w[k - 1], Sq(ek));
      }
      TimesDistributes(Sum(w[..k - 1]), w[k - 1], e);
      TimesDistributes(Sum(w[..k - 1]), w[k - 1], Sq(e));
    }
  }

  /** Weights summing to 1 that sit only on states of level n give ⟨E⟩ = E(n) and ⟨E²⟩ = E(n)². */
  lemma OneLevelMoments(states: seq<State>, w: seq<real>, n: int)
    requires n != 0 && |states| >= |w| && Sum(w) == 1.0
    requires forall j :: 0 <= j < |w| ==> states[j].0 != 0
    requires forall j :: 0 <= j < |w| && w[j] != 0.0 ==> states[j].0 == n
    ensures WeightedEnergy(states, w, |w|) == Constants.LevelEnergy(n)
    ensures WeightedSquaredEnergy(states, w, |w|) == Sq(Constants.LevelEnergy(n))
  {
    MomentsOfOneLevel(states, w, |w|, n);
    SumWhole(w);
    TimesOne(Constants.LevelEnergy(n));
    TimesOne(Sq(Constants.LevelEnergy(n)));
  }

  /** A superposition whose weighted states all share one n has no energy spread. */
  lemma UncertaintyZeroForOneLevel(states: seq<State>, coefficients: seq<Complex>, sqrt: real -> real, n: int)
    requires IsSqrt(sqrt) && |states| >= |coefficients| && n != 0
    requires exists j :: 0 <= j < |coefficients| && coefficients[j] != Zero
    requires forall j :: 0 <= j < |coefficients| ==> states[j].0 != 0
    requires forall j :: 0 <= j < |coefficients| && coefficients[j] != Zero ==> states[j].0 == n
    ensures EnergyUncertainty(states, coefficients, sqrt) == Ok(0.0)
  {
    var w := Weights(Normalize(coefficients, sqrt).value);
    NormalizedSupport(coefficients, sqrt);
    NormalizedWeights(coefficients, sqrt);
    OneLevelMoments(states, w, n);
    assert !HasGroundlessState(states, Zipped(states, coefficients));
    SqrtZeroIff(sqrt, 0.0);
  }
}
