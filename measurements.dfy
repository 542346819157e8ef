/**
 * The measurement tools over an orbital grid: probing ψ at one point, integrating the density
 * over a box, and the position/momentum uncertainty report. The grid is given as a flat
 * sequence of samples; the transcendental functions are parameters.
 */
module Measurements {
  import opened Wrappers
  import opened Numerics
  import Constants
  import Schrodinger

  /** One grid sample: Cartesian coordinates, radius and density |ψ|². */
  datatype Sample = Sample(x: real, y: real, z: real, r: real, prob: real)

  /** The part of the grid dictionary the tools read: the samples, flattened; the first-step
      spacings of the mesh along x, y and z (`X[1,0,0] - X[0,0,0]` and so on); and (n, l, m). */
  datatype GridData = GridData(samples: seq<Sample>, dx: real, dy: real, dz: real,
                               quantumNumbers: (int, int, int))

  /** `np.arccos` and `np.arctan2`. */
  datatype Trig = Trig(arccos: real -> real, arctan2: (real, real) -> real)

  /** The smallest radius the probe uses. */
  const MIN_RADIUS: real := 0.0000000001

  /** `max(np.sqrt(x**2 + y**2 + z**2), 1e-10)`. */
  function ProbeRadius(sqrt: real -> real, x: real, y: real, z: real): (r: real)
    requires IsSqrt(sqrt)
    ensures r >= MIN_RADIUS
    ensures r > MIN_RADIUS ==> Sq(r) == Sq(x) + Sq(y) + Sq(z)
    ensures Sq(x) + Sq(y) + Sq(z) == 0.0 ==> r == MIN_RADIUS
  {
    var d := Sq(x) + Sq(y) + Sq(z);
    SqrtZeroIff(sqrt, d);
    var root := sqrt(d);
    if root >= MIN_RADIUS then root else MIN_RADIUS
  }

  /** The record `measure_probability_at_point` returns. */
  datatype Measurement = Measurement(
    coordinates: (real, real, real),
    spherical: (real, real, real),
    waveFunction: Complex,
    psiMagnitude: real,
    probabilityDensity: real,
    quantumNumbers: (int, int, int))

  /** `measure_probability_at_point`: ψ and |ψ|² at (x, y, z) for the grid's quantum numbers;
      the wave function's guards raise for invalid numbers. */
  function MeasureProbabilityAtPoint(grid: GridData, sf: Schrodinger.SpecialFunctions, trig: Trig,
                                     sqrt: real -> real, x: real, y: real, z: real)
    : (res: Result<Measurement, Schrodinger.WaveError>)
    requires IsSqrt(sqrt)
    ensures var (n, l, m) := grid.quantumNumbers;
      res.Ok? <==> Constants.ValidateQuantumNumberBounds(n, l, m)
    ensures var (n, l, m) := grid.quantumNumbers;
      var r := ProbeRadius(sqrt, x, y, z);
      var psi := Schrodinger.HydrogenWaveFunction(sf, r, trig.arccos(z / r), trig.arctan2(y, x), n, l, m);
      && (res.Ok? ==> res.value.spherical == (r, trig.arccos(z / r), trig.arctan2(y, x))
                      && res.value.waveFunction == psi.value)
      && (res.Err? ==> res.error == psi.error)
    ensures res.Ok? ==> res.value.coordinates == (x, y, z)
    ensures res.Ok? ==> res.value.quantumNumbers == grid.quantumNumbers
    ensures res.Ok? ==> res.value.spherical.0 >= MIN_RADIUS
    ensures res.Ok? ==> res.value.probabilityDensity == NormSq(res.value.waveFunction)
    ensures res.Ok? ==>
      res.value.psiMagnitude >= 0.0 && Sq(res.value.psiMagnitude) == res.value.probabilityDensity
  {
    var (n, l, m) := grid.quantumNumbers;
    var r := ProbeRadius(sqrt, x, y, z);
    var theta := trig.arccos(z / r);
    var phi := trig.arctan2(y, x);
    var psi := Schrodinger.HydrogenWaveFunction(sf, r, theta, phi, n, l, m);
    var prob := Schrodinger.ProbabilityDensity(sf, r, theta, phi, n, l, m);
    if psi.Err? then Err(psi.error)
    else
      SqrtZeroIff(sqrt, NormSq(psi.value));
      Ok(Measurement((x, y, z), (r, theta, phi), psi.value, sqrt(NormSq(psi.value)), prob.value, (n, l, m)))
  }

  /** The region mask: every coordinate in its closed [min, max] range. */
  predicate InBox(s: Sample, xr: (real, real), yr: (real, real), zr: (real, real)) {
    xr.0 <= s.x <= xr.1 && yr.0 <= s.y <= yr.1 && zr.0 <= s.z <= zr.1
  }

  /** The positions the mask selects, in grid order: strictly increasing, and holding exactly
      the in-box positions. */
  function MaskIndices(samples: seq<Sample>, xr: (real, real), yr: (real, real), zr: (real, real))
    : (idx: seq<nat>)
    ensures forall i :: 0 <= i < |idx| ==> idx[i] < |samples|
    ensures forall i, k :: 0 <= i < k < |idx| ==> idx[i] < idx[k]
    ensures forall j :: 0 <= j < |samples| ==> (j in idx <==> InBox(samples[j], xr, yr, zr))
    decreases |samples|
  {
    if samples == [] then []
    else
      var k := |samples| - 1;
      var init := samples[..k];
      assert forall j :: 0 <= j < k ==> init[j] == samples[j];
      var idx := MaskIndices(init, xr, yr, zr);
      if InBox(samples[k], xr, yr, zr) then idx + [k] else idx
  }

  /** `prob[mask]`: the densities of the selected samples, in grid order, one per selected
      position. */
  function Selected(samples: seq<Sample>, xr: (real, real), yr: (real, real), zr: (real, real))
    : (p: seq<real>)
    ensures |p| == |MaskIndices(samples, xr, yr, zr)|
    ensures forall i :: 0 <= i < |p| ==> p[i] == samples[MaskIndices(samples, xr, yr, zr)[i]].prob
    decreases |samples|
  {
    if samples == [] then []
    else
      var k := |samples| - 1;
      var init := samples[..k];
      var p := Selected(init, xr, yr, zr);
      assert forall j :: 0 <= j < k ==> init[j] == samples[j];
      if InBox(samples[k], xr, yr, zr) then p + [samples[k].prob] else p
  }

  /** The `i`-th selected density is the density of the in-box sample at `MaskIndices[i]`. */
  lemma SelectedFromBox(samples: seq<Sample>, xr: (real, real), yr: (real, real), zr: (real, real), i: nat)
    requires i < |Selected(samples, xr, yr, zr)|
    ensures var j := MaskIndices(samples, xr, yr, zr)[i];
      j < |samples| && InBox(samples[j], xr, yr, zr) && samples[j].prob == Selected(samples, xr, yr, zr)[i]
  {
    var idx := MaskIndices(samples, xr, yr, zr);
    assert idx[i] in idx;
  }

  /** An in-box sample's density is selected, at the position of its index in `MaskIndices`. */
  lemma BoxInSelected(samples: seq<Sample>, xr: (real, real), yr: (real, real), zr: (real, real), j: nat)
    requires j < |samples| && InBox(samples[j], xr, yr, zr)
    ensures samples[j].prob in Selected(samples, xr, yr, zr)
  {
    var idx := MaskIndices(samples, xr, yr, zr);
    assert j in idx;
    var i :| 0 <= i < |idx| && idx[i] == j;
    assert Selected(samples, xr, yr, zr)[i] == samples[j].prob;
  }

  /** The indices the mask selects. */
  function BoxIndices(samples: seq<Sample>, xr: (real, real), yr: (real, real), zr: (real, real))
    : set<nat>
  {
    set j: nat | j < |samples| && InBox(samples[j], xr, yr, zr)
  }

  /** `np.sum(mask)`: the selection holds one density per selected sample. */
  lemma {:induction false} SelectionCount(samples: seq<Sample>, xr: (real, real), yr: (real, real),
                                          zr: (real, real))
    ensures |Selected(samples, xr, yr, zr)| == |BoxIndices(samples, xr, yr, zr)|
    decreases |samples|
  {
    if samples != [] {
      var k := |samples| - 1;
      SelectionCount(samples[..k], xr, yr, zr);
      BoxIndicesStep(samples, xr, yr, zr);
    }
  }

  lemma BoxIndicesStep(samples: seq<Sample>, xr: (real, real), yr: (real, real), zr: (real, real))
    requires samples != []
    ensures var k := |samples| - 1;
      var before := BoxIndices(samples[..k], xr, yr, zr);
      k !in before &&
      BoxIndices(samples, xr, yr, zr)
        == if InBox(samples[k], xr, yr, zr) then before + {k} else before
  {
    var k := |samples| - 1;
    var init := samples[..k];
    assert forall j :: 0 <= j < k ==> init[j] == samples[j];
  }

  /** `abs(dx * dy * dz)`. */
  function VolumeElement(grid: GridData): (v: real)
    ensures v >= 0.0
    ensures v == 0.0 <==> grid.dx == 0.0 || grid.dy == 0.0 || grid.dz == 0.0
  {
    ProductZeroIff(grid.dx, grid.dy);
    ProductZeroIff(Times(grid.dx, grid.dy), grid.dz);
    Abs(Times(Times(grid.dx, grid.dy), grid.dz))
  }

  lemma ProductZeroIff(x: real, y: real)
    ensures Times(x, y) == 0.0 <==> x == 0.0 || y == 0.0
  {
    if x != 0.0 && y != 0.0 {
      if x > 0.0 && y > 0.0 {
        TimesPositive(x, y);
      } else if x < 0.0 && y < 0.0 {
        TimesPositive(-x, -y);
        TimesNegate(x, y);
      } else if x < 0.0 {
        TimesPositive(-x, y);
        assert Times(-x, y) == -Times(x, y);
      } else {
        TimesPositive(x, -y);
        assert Times(x, -y) == -Times(x, y);
      }
    }
  }

  /** The record `calculate_region_probability` returns. */
  datatype RegionReport = RegionReport(
    totalProbability: real,
    regionVolume: real,
    numPoints: nat,
    averageDensity: real,
    maxDensity: real,
    xRange: (real, real),
    yRange: (real, real),
    zRange: (real, real))

  /** `np.mean` of a non-empty selection. */
  function Mean(p: seq<real>): (r: real)
    requires p != []
    ensures r <= Max(p)
  {
    SumAtMostCountTimesBound(p, Max(p));
    QuotientAtMost(Sum(p), |p| as real, Max(p));
    Sum(p) / (|p| as real)
  }

  lemma QuotientAtMost(x: real, k: real, m: real)
    requires k > 0.0 && x <= Times(k, m)
    ensures x / k <= m
  {
  }

  /** The largest selected density bounds every in-box density and is one of them. */
  lemma SelectionMaximum(samples: seq<Sample>, xr: (real, real), yr: (real, real), zr: (real, real))
    requires Selected(samples, xr, yr, zr) != []
    ensures forall j :: 0 <= j < |samples| && InBox(samples[j], xr, yr, zr) ==>
      samples[j].prob <= Max(Selected(samples, xr, yr, zr))
    ensures exists j :: 0 <= j < |samples| && InBox(samples[j], xr, yr, zr) &&
                        samples[j].prob == Max(Selected(samples, xr, yr, zr))
  {
    var p := Selected(samples, xr, yr, zr);
    forall j | 0 <= j < |samples| && InBox(samples[j], xr, yr, zr)
      ensures samples[j].prob <= Max(p)
    {
      BoxInSelected(samples, xr, yr, zr, j);
    }
    var i :| 0 <= i < |p| && p[i] == Max(p);
    SelectedFromBox(samples, xr, yr, zr, i);
    var j := MaskIndices(samples, xr, yr, zr)[i];
    assert j < |samples| && InBox(samples[j], xr, yr, zr) && samples[j].prob == Max(p);
  }

  /** `calculate_region_probability`. */
  function CalculateRegionProbability(grid: GridData, xr: (real, real), yr: (real, real),
                                      zr: (real, real)): (res: RegionReport)
    ensures res.numPoints == |BoxIndices(grid.samples, xr, yr, zr)|
    ensures res.regionVolume == Times(res.numPoints as real, VolumeElement(grid))
    ensures res.totalProbability
      == Times(Sum(Selected(grid.samples, xr, yr, zr)), VolumeElement(grid))
    ensures res.numPoints == 0 ==> res.averageDensity == 0.0 && res.maxDensity == 0.0
    ensures res.numPoints > 0 ==>
      res.averageDensity == Sum(Selected(grid.samples, xr, yr, zr)) / (res.numPoints as real)
    ensures res.numPoints > 0 ==>
      (forall j :: 0 <= j < |grid.samples| && InBox(grid.samples[j], xr, yr, zr) ==>
         grid.samples[j].prob <= res.maxDensity)
      && (exists j :: 0 <= j < |grid.samples| && InBox(grid.samples[j], xr, yr, zr)
            && grid.samples[j].prob == res.maxDensity)
      && res.averageDensity <= res.maxDensity
    ensures res.xRange == xr && res.yRange == yr && res.zRange == zr
  {
    var p := Selected(grid.samples, xr, yr, zr);
    var volume := VolumeElement(grid);
    SelectionCount(grid.samples, xr, yr, zr);
    assert |p| > 0 ==>
      (forall j :: 0 <= j < |grid.samples| && InBox(grid.samples[j], xr, yr, zr) ==>
         grid.samples[j].prob <= Max(p))
      && (exists j :: 0 <= j < |grid.samples| && InBox(grid.samples[j], xr, yr, zr)
            && grid.samples[j].prob == Max(p)) by {
      if |p| > 0 {
        SelectionMaximum(grid.samples, xr, yr, zr);
      }
    }
    RegionReport(
      Times(Sum(p), volume),
      Times(|p| as real, volume),
      |p|,
      if |p| > 0 then Mean(p) else 0.0,
      if |p| > 0 then Max(p) else 0.0,
      xr, yr, zr)
  }

  /** With non-negative densities, the integrated probability and the volume are non-negative. */
  lemma RegionProbabilityNonNegative(grid: GridData, xr: (real, real), yr: (real, real),
                                     zr: (real, real))
    requires forall j :: 0 <= j < |grid.samples| ==> grid.samples[j].prob >= 0.0
    ensures CalculateRegionProbability(grid, xr, yr, zr).totalProbability >= 0.0
    ensures CalculateRegionProbability(grid, xr, yr, zr).regionVolume >= 0.0
  {
    var p := Selected(grid.samples, xr, yr, zr);
    forall i | 0 <= i < |p|
      ensures p[i] >= 0.0
    {
      SelectedFromBox(grid.samples, xr, yr, zr, i);
    }
    SumNonNegative(p);
    TimesNonNegative(Sum(p), VolumeElement(grid));
    TimesNonNegative(|p| as real, VolumeElement(grid));
  }

  /** A box that holds every sample selects the whole grid. */
  lemma WholeGridRegion(samples: seq<Sample>, xr: (real, real), yr: (real, real), zr: (real, real))
    requires forall j :: 0 <= j < |samples| ==> InBox(samples[j], xr, yr, zr)
    ensures Selected(samples, xr, yr, zr) == Densities(samples)
  {
    WholeMask(samples, xr, yr, zr);
    var p, d := Selected(samples, xr, yr, zr), Densities(samples);
    assert forall i :: 0 <= i < |p| ==> p[i] == d[i];
  }

  /** When every sample is in the box, the mask selects every position in order. */
  lemma {:induction false} WholeMask(samples: seq<Sample>, xr: (real, real), yr: (real, real), zr: (real, real))
    requires forall j :: 0 <= j < |samples| ==> InBox(samples[j], xr, yr, zr)
    ensures |MaskIndices(samples, xr, yr, zr)| == |samples|
    ensures forall i :: 0 <= i < |samples| ==> MaskIndices(samples, xr, yr, zr)[i] == i
    decreases |samples|
  {
    if samples != [] {
      var k := |samples| - 1;
      var init := samples[..k];
      assert forall j :: 0 <= j < k ==> init[j] == samples[j];
      WholeMask(init, xr, yr, zr);
      assert MaskIndices(samples, xr, yr, zr) == MaskIndices(init, xr, yr, zr) + [k];
    }
  }

  /** An extended real, for `float('inf')` and the NaN that `0 * inf` gives. */
  datatype ExtReal = Finite(value: real) | PosInf | NaN

  /** The coordinate an uncertainty is taken along. */
  datatype Axis = X | Y | Z | R

  function Coordinate(s: Sample, a: Axis): real {
    match a
    case X => s.x
    case Y => s.y
    case Z => s.z
    case R => s.r
  }

  /** `prob / total_prob if total_prob > 0 else prob`. */
  function NormalizedDensities(p: seq<real>, total: real): (w: seq<real>)
    ensures |w| == |p|
    ensures total <= 0.0 ==> w == p
    ensures total > 0.0 ==> forall i :: 0 <= i < |p| ==> w[i] == p[i] / total
  {
    if total > 0.0 then DivideAll(p, total) else p
  }

  function Densities(samples: seq<Sample>): (p: seq<real>)
    ensures |p| == |samples| && forall i :: 0 <= i < |samples| ==> p[i] == samples[i].prob
  {
    seq(|samples|, i requires 0 <= i < |samples| => samples[i].prob)
  }

  /** `np.sum(C * w) * volume_element`: the weighted mean of a coordinate. */
  function FirstMoment(samples: seq<Sample>, w: seq<real>, a: Axis, volume: real): real
    requires |w| == |samples|
  {
    Times(Sum(seq(|samples|, i requires 0 <= i < |samples| => Times(Coordinate(samples[i], a), w[i]))),
          volume)
  }

  /** `np.sum(C**2 * w) * volume_element`: the weighted mean of a squared coordinate. */
  function SecondMoment(samples: seq<Sample>, w: seq<real>, a: Axis, volume: real): real
    requires |w| == |samples|
  {
    Times(Sum(seq(|samples|, i requires 0 <= i < |samples| => Times(Sq(Coordinate(samples[i], a)), w[i]))),
          volume)
  }

  /** `np.sqrt(max(0, second - first**2))`: never negative, zero exactly when the clamped
      variance is. */
  function Spread(sqrt: real -> real, first: real, second: real): (d: real)
    requires IsSqrt(sqrt)
    ensures d >= 0.0
    ensures d == 0.0 <==> second <= Sq(first)
    ensures Sq(d) == ClampNonNegative(second - Sq(first))
  {
    SqrtZeroIff(sqrt, ClampNonNegative(second - Sq(first)));
    sqrt(ClampNonNegative(second - Sq(first)))
  }

  /** `HBAR / delta if delta > 0 else float('inf')`. */
  function MomentumSpread(delta: real): (p: ExtReal)
    ensures delta > 0.0 ==> p == Finite(Constants.HBAR / delta) && p.value > 0.0
    ensures delta <= 0.0 ==> p == PosInf
  {
    if delta > 0.0 then Finite(Constants.HBAR / delta) else PosInf
  }

  /** `delta * delta_p / HBAR` with Python's float rules for an infinite factor. */
  function HeisenbergProduct(delta: real, dp: ExtReal): ExtReal
    requires delta >= 0.0
  {
    match dp
    case Finite(v) => Finite(Times(delta, v) / Constants.HBAR)
    case PosInf => if delta > 0.0 then PosInf else NaN
    case NaN => NaN
  }

  /** With Δp = ħ/Δx the product ΔxΔp/ħ is exactly 1, above the reported minimum ½; at Δx = 0 it
      is 0·∞, which is NaN. */
  lemma HeisenbergProductOfSpread(delta: real)
    requires delta >= 0.0
    ensures delta > 0.0 ==> HeisenbergProduct(delta, MomentumSpread(delta)) == Finite(1.0)
    ensures delta == 0.0 ==> HeisenbergProduct(delta, MomentumSpread(delta)) == NaN
  {
    if delta > 0.0 {
      assert Times(delta, Constants.HBAR / delta) == Constants.HBAR;
    }
  }

  /** The minimum the report lists next to the products: ħ/2 in units of ħ. */
  const HEISENBERG_MINIMUM: real := 0.5

  /** The record `uncertainty_calculator` returns. */
  datatype UncertaintyReport = UncertaintyReport(
    deltaX: real, deltaY: real, deltaZ: real, deltaR: real,
    deltaPx: ExtReal, deltaPy: ExtReal, deltaPz: ExtReal,
    heisenbergX: ExtReal, heisenbergY: ExtReal, heisenbergZ: ExtReal, minimum: real,
    xAvg: real, yAvg: real, zAvg: real, rAvg: real)

  /** The weights the calculator integrates against: the densities, divided by their integral
      when that is positive. */
  function GridWeights(grid: GridData): (w: seq<real>)
    ensures |w| == |grid.samples|
  {
    var p := Densities(grid.samples);
    NormalizedDensities(p, Times(Sum(p), VolumeElement(grid)))
  }

  /** When the density integrates to a positive total, the normalised weights integrate to 1. */
  lemma GridWeightsIntegrateToOne(grid: GridData)
    requires Times(Sum(Densities(grid.samples)), VolumeElement(grid)) > 0.0
    ensures Times(Sum(GridWeights(grid)), VolumeElement(grid)) == 1.0
  {
    var p := Densities(grid.samples);
    var v := VolumeElement(grid);
    var total := Times(Sum(p), v);
    SumDivideAll(p, total);
    RatioOfProduct(Sum(p), v);
  }

  lemma RatioOfProduct(s: real, v: real)
    requires Times(s, v) != 0.0
    ensures Times(s / Times(s, v), v) == 1.0
  {
    assert s != 0.0 && v != 0.0;
    assert s / (s * v) == 1.0 / v;
    assert (1.0 / v) * v == 1.0;
  }

  /** `uncertainty_calculator`. */
  function UncertaintyCalculator(grid: GridData, sqrt: real -> real): (res: UncertaintyReport)
    requires IsSqrt(sqrt)
    ensures var w, v := GridWeights(grid), VolumeElement(grid);
      && res.xAvg == FirstMoment(grid.samples, w, X, v)
      && res.yAvg == FirstMoment(grid.samples, w, Y, v)
      && res.zAvg == FirstMoment(grid.samples, w, Z, v)
      && res.deltaX == Spread(sqrt, res.xAvg, SecondMoment(grid.samples, w, X, v))
      && res.deltaY == Spread(sqrt, res.yAvg, SecondMoment(grid.samples, w, Y, v))
      && res.deltaZ == Spread(sqrt, res.zAvg, SecondMoment(grid.samples, w, Z, v))
      && res.deltaR == Spread(sqrt, res.rAvg, SecondMoment(grid.samples, w, R, v))
    ensures res.deltaPx == MomentumSpread(res.deltaX) && res.deltaPy == MomentumSpread(res.deltaY)
      && res.deltaPz == MomentumSpread(res.deltaZ)
    ensures res.heisenbergX == HeisenbergProduct(res.deltaX, res.deltaPx)
      && res.heisenbergY == HeisenbergProduct(res.deltaY, res.deltaPy)
      && res.heisenbergZ == HeisenbergProduct(res.deltaZ, res.deltaPz)
    ensures res.deltaX >= 0.0 && res.deltaY >= 0.0 && res.deltaZ >= 0.0 && res.deltaR >= 0.0
    ensures res.deltaX > 0.0 ==> res.heisenbergX == Finite(1.0)
    ensures res.deltaY > 0.0 ==> res.heisenbergY == Finite(1.0)
    ensures res.deltaZ > 0.0 ==> res.heisenbergZ == Finite(1.0)
    ensures res.deltaX == 0.0 ==> res.deltaPx == PosInf && res.heisenbergX == NaN
    ensures res.deltaY == 0.0 ==> res.deltaPy == PosInf && res.heisenbergY == NaN
    ensures res.deltaZ == 0.0 ==> res.deltaPz == PosInf && res.heisenbergZ == NaN
    ensures res.minimum == HEISENBERG_MINIMUM
    ensures res.rAvg == Schrodinger.ExpectationValueR(grid.quantumNumbers.0, grid.quantumNumbers.1)
  {
    var (n, l, _) := grid.quantumNumbers;
    var volume := VolumeElement(grid);
    var w := GridWeights(grid);
    var xAvg, yAvg, zAvg := FirstMoment(grid.samples, w, X, volume), FirstMoment(grid.samples, w, Y, volume),
                            FirstMoment(grid.samples, w, Z, volume);
    var deltaX := Spread(sqrt, xAvg, SecondMoment(grid.samples, w, X, volume));
    var deltaY := Spread(sqrt, yAvg, SecondMoment(grid.samples, w, Y, volume));
    var deltaZ := Spread(sqrt, zAvg, SecondMoment(grid.samples, w, Z, volume));
    var rAvg := Schrodinger.ExpectationValueR(n, l);
    var deltaR := Spread(sqrt, rAvg, SecondMoment(grid.samples, w, R, volume));
    var px, py, pz := MomentumSpread(deltaX), MomentumSpread(deltaY), MomentumSpread(deltaZ);
    HeisenbergProductOfSpread(deltaX);
    HeisenbergProductOfSpread(deltaY);
    HeisenbergProductOfSpread(deltaZ);
    UncertaintyReport(deltaX, deltaY, deltaZ, deltaR, px, py, pz,
                      HeisenbergProduct(deltaX, px), HeisenbergProduct(deltaY, py), HeisenbergProduct(deltaZ, pz),
                      HEISENBERG_MINIMUM, xAvg, yAvg, zAvg, rAvg)
  }
}
