# Quantum Orbital Visualizer — the exact layer, in Dafny

This project models the discrete, exactly-specifiable part of the Quantum Orbital Visualizer,
a Python application that draws hydrogen orbitals. The floating-point physics (SciPy's
Laguerre polynomials and spherical harmonics, square roots, trigonometry) stays abstract. What
is modelled and proved is the logic around it:

- **Quantum numbers and naming** (`constants.dfy`, `orbitals.dfy`, `schrodinger.dfy`):
  - the raising and the boolean validators of (n, l, m);
  - spectroscopic names such as `2p_z` and `3d_x²-y²`, proved injective on valid triples;
  - the level energy −R/n² and energy differences;
  - the atomic/SI unit conversions and their round trips;
  - the guards and the zero-radius remap of the wave-function evaluator;
  - the closed form ⟨r⟩ = (3n² − l(l+1))/2;
  - the sampled most probable radius;
  - the metadata of the grid and cross-section builders.
- **Superposition algebra** (`superposition.dfy`):
  - normalisation stated on squared magnitudes;
  - purity, the dominant state and the expectation energy and its spread;
  - the loops that build ψ and the interference bookkeeping over abstract ψ samples.
- **Grid measurements** (`measurements.dfy`):
  - the point probe with its radius clamp;
  - box-region selection, counting, sums, maximum and mean;
  - the clamped position spreads and the Δp = ħ/Δx heuristic with its Heisenberg products.
- **Games** (`games.dfy`):
  - the achievement tracker, a class whose unlock method updates the table in place;
  - answer validation;
  - the probability-threshold challenge;
  - the orbital-matching quiz, with randomness as an input stream of draws.
- **Themes** (`themes.dfy`):
  - the theme registry, a class with a default fallback and in-place custom themes;
  - colour-scale stops;
  - hex parsing and `rgba(...)` text, the contrast colour, and colour interpolation back to hex.
- **ASCII border** (`vectrex.dfy`): `create_ascii_border` with Python's `str.center` rule.

Supporting modules:

- `wrappers.dfy`: Option and Result.
- `numerics.dfy`:
  - products through `Times` and squares through `Sq`;
  - complex numbers as pairs of reals;
  - `np.sum`, `np.max`, `np.argmax` (first maximal index) and `np.linspace`;
  - `int()` truncation;
  - the one law assumed of a square root, `IsSqrt`.
- `strings.dfy`: Python's `str()` of an integer, with an injectivity proof used for names and
  answer strings.

Numbers are Dafny `real`: exact rational arithmetic. Library calls (sqrt, arccos, arctan2,
R and Y) are function-valued parameters. The only facts assumed about them are stated as
preconditions (`IsSqrt`).

### Notes on the code

- **Point probe radius.** The point probe and the grid generator treat small radii
  differently:
  - The grid generator replaces only an exact zero radius by 1e-10
    (`quantum_engine/orbitals.py:236`).
  - The point probe clamps with `max(r, 1e-10)` (`interactive/measurements.py:40`), so a
    radius in (0, 1e-10) is also raised.
  - `Measurements.ProbeRadius` models the clamp.
- **Interpolation truncation.** Each interpolated channel is `int(c1 + (c2 − c1)·ratio)`
  (`visualizations/themes.py:419-421`). This truncates the sum, not the increment.
  `Themes.Blend` follows it.

## Model

| member | source | states |
|---|---|---|
| Constants.AtomicUnit | quantum_engine/constants.py:100-104 | each of the three conversion factors is positive |
| Constants.AtomicUnitsToSI | quantum_engine/constants.py:100-109 | Ok exactly for 'length', 'energy', 'time', then value times Bohr radius, Hartree energy or atomic time unit; any other tag is the Unknown-quantity error |
| Constants.SIToAtomicUnits | quantum_engine/constants.py:128-137 | accepts exactly the same three tags and raises for any other |
| Constants.AtomicToSIRoundTrip | quantum_engine/constants.py:100-137 | atomic→SI→atomic returns the value for every valid tag; an unknown tag fails in both directions |
| Constants.SIToAtomicRoundTrip | quantum_engine/constants.py:100-137 | SI→atomic→SI returns the value for every valid tag |
| Constants.EnergyEvToHartree | quantum_engine/constants.py:140-142 | the result times HARTREE_TO_EV is the input, so it is the division by HARTREE_TO_EV; the sign is kept |
| Constants.EnergyHartreeToEv | quantum_engine/constants.py:145-147 | the result divided by HARTREE_TO_EV is the input, so it is the multiplication by HARTREE_TO_EV; the sign is kept |
| Constants.EnergyRoundTrip | quantum_engine/constants.py:140-147 | eV→Hartree→eV and Hartree→eV→Hartree are identities |
| Constants.ValidateQuantumNumberBounds | quantum_engine/constants.py:182-188 | true iff n ≥ 1, 0 ≤ l < n and \|m\| ≤ l; total, never an error |
| Constants.LevelEnergy | quantum_engine/constants.py:205 | −R/n² is negative for every n ≠ 0 |
| Constants.EnergyLevelEv | quantum_engine/constants.py:191-205 | division by zero exactly at n = 0; otherwise the negative level energy |
| Constants.GroundAndFirstExcited | quantum_engine/constants.py:205 | E(1) = −R and E(2) = −R/4 |
| Constants.LevelEnergyIncreasing | quantum_engine/constants.py:205 | 1 ≤ a < b implies E(a) < E(b) |
| Constants.OrbitalAngularMomentum | quantum_engine/constants.py:208-222 | ħ√(l(l+1)) is non-negative, and zero exactly when l(l+1) = 0 (l = 0 among valid l) |
| Schrodinger.RemapRadius | quantum_engine/schrodinger.py:48 | zero becomes 1e-10, every other radius passes unchanged, so a non-negative radius becomes positive |
| Schrodinger.RadialWaveFunction | quantum_engine/schrodinger.py:39-48 | raises "n must be >= 1" for n < 1, then the l-range error for l ∉ [0, n), before evaluating; otherwise R at the remapped radius |
| Schrodinger.RadialErrorIndependentOfEvaluation | quantum_engine/schrodinger.py:39-42 | the guard's error depends only on (n, l), not on r or on the special function |
| Schrodinger.SphericalHarmonic | quantum_engine/schrodinger.py:99-105 | raises for l < 0, then for \|m\| > l; otherwise Y(l, m, θ, φ) |
| Schrodinger.HarmonicDoesNotCheckPrincipal | quantum_engine/schrodinger.py:99-102 | Y accepts l ≥ n that R rejects |
| Schrodinger.HydrogenWaveFunction | quantum_engine/schrodinger.py:136-143 | Ok iff the bounds hold; R's error first, then Y's |
| Schrodinger.ProbabilityDensity | quantum_engine/schrodinger.py:170-171 | Ok iff the bounds hold, and \|ψ\|² ≥ 0 |
| Schrodinger.ProbabilityDensityFactorises | quantum_engine/schrodinger.py:170-171 | \|R·Y\|² equals R² times \|Y\|² |
| Schrodinger.RadialProbabilityDensity | quantum_engine/schrodinger.py:195-196 | r²·\|R\|² is defined iff (n, l) is valid, is non-negative, and is zero at r = 0 |
| Schrodinger.AngularProbabilityDensity | quantum_engine/schrodinger.py:219-220 | \|Y\|² is defined iff l ≥ 0 and \|m\| ≤ l, and is non-negative |
| Schrodinger.ExpectationValueR | quantum_engine/schrodinger.py:242-243 | ⟨r⟩ = (3n² − l(l+1))/2 with a₀ = 1 lies between n² + n/2 (at l = n − 1) and 1.5n² (at l = 0) for every valid (n, l) |
| Schrodinger.ExpectationValueRPositive | quantum_engine/schrodinger.py:242-243 | (3n² − l(l+1))/2 > 0 for every valid (n, l) |
| Schrodinger.ExpectationValueRGround | quantum_engine/schrodinger.py:242-243 | ⟨r⟩ for (1, 0) is 1.5 |
| Schrodinger.RadialGrid | quantum_engine/schrodinger.py:266 | 1000 radii evenly spaced from 0 to 5n², consecutive radii 5n²/999 apart |
| Schrodinger.MostProbableRadius | quantum_engine/schrodinger.py:265-273 | for valid (n, l) a sampled radius in [0, 5n²] whose density is maximal and strictly above all earlier samples (first argmax); R's guard error otherwise |
| Orbitals.ValidateQuantumNumbers | quantum_engine/orbitals.py:102-117 | Ok(true) iff all three are ints (bool included) within the bounds; errors in the source's order: type, n < 1, l < 0, l ≥ n, \|m\| > l |
| Orbitals.ValidatorsAgree | quantum_engine/orbitals.py:105-117 | on integers it accepts exactly what the boolean bounds check accepts |
| Orbitals.ValidationExamples | quantum_engine/orbitals.py:102-117 | (1,0,0), (2,1,0), (3,2,−1) accepted; (0,0,0), (2,2,0), (2,1,2) rejected with their errors; a float rejected, bools accepted |
| Orbitals.OrbitalName | quantum_engine/orbitals.py:63-76 | the name starts with str(n) |
| Orbitals.OrbitalNameExamples | quantum_engine/orbitals.py:63-76 | 1s, 2p_z, 2p_x, 2p_y, and the "_5" fallback for an m outside the p table |
| Orbitals.OrbitalNameExamplesD | quantum_engine/orbitals.py:63-76 | 3d_z², 3d_x²-y², 3d_xy, and 4f with no subscript for m = 0 |
| Orbitals.OrbitalNameHighL | quantum_engine/orbitals.py:63-76 | l > 6 with m ≠ 0 is str(n) + "l=<l>" + "_m=<m>" |
| Orbitals.MagneticSuffixInjective | quantum_engine/orbitals.py:66-74 | for a fixed l, distinct valid m give distinct subscripts |
| Orbitals.NameTailInjective | quantum_engine/orbitals.py:24-76 | letter plus subscript determines (l, m) on valid pairs |
| Orbitals.OrbitalNameInjective | quantum_engine/orbitals.py:45-76 | distinct valid triples get distinct names |
| Orbitals.CalculateOrbitalEnergy | quantum_engine/orbitals.py:136 | the same −R/n² as the constants module, with its n = 0 error |
| Orbitals.CalculateEnergyDifference | quantum_engine/orbitals.py:155-157 | defined iff n1, n2 ≠ 0, and then equal to E(n2) − E(n1); otherwise a ZeroDivision error |
| Orbitals.EnergyDifferencePositive | quantum_engine/orbitals.py:155-157 | positive when 1 ≤ n1 < n2 |
| Orbitals.EnergyDifferenceAntisymmetric | quantum_engine/orbitals.py:155-157 | ΔE(n1, n2) = −ΔE(n2, n1), and zero for equal levels |
| Orbitals.CoordinateAxis | quantum_engine/orbitals.py:228-230 | linspace(−extent, extent, G) has G points from −extent to extent, all within them, consecutive points 2·extent/(G−1) apart; a negative count is an error |
| Orbitals.GenerateOrbitalGrid | quantum_engine/orbitals.py:218-263 | validation first (its error propagated); the record carries (n, l, m), E(n), the orbital name and the linspace axis |
| Orbitals.OrbitalGridDefaults | quantum_engine/orbitals.py:220-224 | with no size or extent given, the axis has the configured 100 points from −30 to 30 |
| Orbitals.MeshColumns | quantum_engine/orbitals.py:297-305 | each row of the in-plane mesh is the axis |
| Orbitals.MeshRows | quantum_engine/orbitals.py:297-305 | row i of the other mesh is constant, the i-th axis value |
| Orbitals.Zeros | quantum_engine/orbitals.py:297-305 | the out-of-plane array is all zeros |
| Orbitals.GenerateCrossSection | quantum_engine/orbitals.py:287-325 | quantum numbers checked before the plane; only 'xy', 'xz', 'yz' accepted; the two in-plane arrays are meshgrid(axis, axis) of the linspace axis (the first with every row the axis, the second with row i constant at axis[i]); the out-of-plane coordinate is all zeros; plane and (n, l, m) echoed |
| Superposition.ValidateStateAgrees | quantum_engine/superposition.py:45 | a state passes validation iff its numbers are within the bounds |
| Superposition.Weights | quantum_engine/superposition.py:269 | \|c_i\|², one per coefficient, non-negative |
| Superposition.TotalWeightPositiveIff | quantum_engine/superposition.py:67-70 | Σ\|c_i\|² ≥ 0, and > 0 iff some coefficient is nonzero |
| Superposition.Normalize | quantum_engine/superposition.py:66-72 | the zero-coefficients error iff all are zero; otherwise \|r_i\|² = \|c_i\|²/Σ\|c_j\|² |
| Superposition.NormalizedWeights | quantum_engine/superposition.py:66-72 | the normalised probabilities are the weights divided by their total, and sum to 1 |
| Superposition.NormalizeIdempotent | quantum_engine/superposition.py:66-72 | normalising a normalised vector returns it unchanged |
| Superposition.NormalizedWeightsBounded | quantum_engine/superposition.py:66-72 | every normalised probability is in [0, 1] |
| Superposition.NormalizedSupport | quantum_engine/superposition.py:66-72 | a normalised probability is zero iff its coefficient is |
| Superposition.CalculatePurity | quantum_engine/superposition.py:368-371 | Σp_i² is in (0, 1]; the zero-coefficients error exactly when normalisation fails |
| Superposition.PuritySingleComponent | quantum_engine/superposition.py:368-371 | one nonzero coefficient gives purity exactly 1 |
| Superposition.PurityMixed | quantum_engine/superposition.py:368-371 | two nonzero coefficients give purity < 1 |
| Superposition.GetDominantState | quantum_engine/superposition.py:266-274 | the state at the first index of maximal p_i, with p_i ≥ every p_j; an index error exactly when the first maximal index is past the end of states |
| Superposition.ClassicalSum | quantum_engine/superposition.py:108-111 | Σ\|c_i\|²\|ψ_i\|² is non-negative |
| Superposition.SingleStateHasNoInterference | quantum_engine/superposition.py:104-114 | with one state, \|ψ\|² equals the classical sum |
| Superposition.CreateSuperposition | quantum_engine/superposition.py:37-49 | length mismatch raises first; then the first invalid state's error; otherwise Σc_iψ_i at every sample |
| Superposition.CalculateInterference | quantum_engine/superposition.py:101-126 | normalisation error, then length error; pointwise superposition probability, classical sum ≥ 0 and interference = their difference; fraction 0 when the total is 0, else Σ\|interference\|/total ≥ 0 |
| Superposition.AccumulateClassicalSum | quantum_engine/superposition.py:108-111 | the loop's array equals the classical sum at every sample |
| Superposition.InterferenceFraction | quantum_engine/superposition.py:117-119 | 0 when the total probability is 0, otherwise Σ\|I\|/total, never negative |
| Superposition.Zipped | quantum_engine/superposition.py:202 | zip stops at the shorter of states and coefficients |
| Superposition.ExpectationEnergy | quantum_engine/superposition.py:198-206 | normalisation error first; a division-by-zero error iff a zipped state has n = 0 |
| Superposition.CalculateExpectationEnergy | quantum_engine/superposition.py:198-206 | the loop returns exactly ExpectationEnergy |
| Superposition.AccumulateEnergy | quantum_engine/superposition.py:201-204 | the loop's sum is Σp_i·E(n_i) over the zipped prefix, or the n = 0 error |
| Superposition.ExpectationEnergyBounds | quantum_engine/superposition.py:198-206 | when there are at least as many states as coefficients, ⟨E⟩ lies between any lower and upper bounds of the listed level energies |
| Superposition.TruncatedZipLeavesBounds | quantum_engine/superposition.py:202 | with fewer states than coefficients the bound fails: one 1s state with two equal coefficients gives ⟨E⟩ = E(1)/2 > E(1), because zip drops a coefficient that normalisation counted |
| Superposition.EqualWeights | quantum_engine/superposition.py:66-72 | two equal nonzero coefficients normalise to probabilities [0.5, 0.5] |
| Superposition.EqualMixExpectation | quantum_engine/superposition.py:198-206 | an equal 1s/2s mix has ⟨E⟩ = −5R/8, strictly between E(1) and E(2) |
| Superposition.EnergyUncertainty | quantum_engine/superposition.py:230-246 | same errors as ⟨E⟩; the value √max(0, ⟨E²⟩−⟨E⟩²) is non-negative |
| Superposition.CalculateUncertaintyEnergy | quantum_engine/superposition.py:230-246 | the loop returns exactly EnergyUncertainty |
| Superposition.AccumulateMoments | quantum_engine/superposition.py:233-240 | the loop's two sums are Σp_iE_i and Σp_iE_i², or the n = 0 error |
| Superposition.OneLevelMoments | quantum_engine/superposition.py:233-243 | when all weight sits on one level, ⟨E⟩ = E(n) and ⟨E²⟩ = E(n)² |
| Superposition.UncertaintyZeroForOneLevel | quantum_engine/superposition.py:233-246 | ΔE = 0 when every nonzero coefficient belongs to states with the same n |
| Measurements.ProbeRadius | interactive/measurements.py:39-40 | the radius is at least 1e-10; above it, its square is x² + y² + z²; the origin gives 1e-10 |
| Measurements.MeasureProbabilityAtPoint | interactive/measurements.py:39-61 | Ok iff the grid's numbers are valid; (r, θ, φ) = (probe radius, arccos(z/r), arctan2(y, x)); ψ is the wave function there, and an error is the wave function's error; coordinates and quantum numbers echoed; radius ≥ 1e-10; density = \|ψ\|² and magnitude² = density |
| Measurements.MaskIndices | interactive/measurements.py:87-91 | the mask's positions: strictly increasing, and containing j exactly when sample j is in the box |
| Measurements.Selected | interactive/measurements.py:100 | prob[mask]: one density per mask position, in grid order, each the density of the sample at that position |
| Measurements.SelectedFromBox | interactive/measurements.py:100 | each selected density is the density of an in-box sample |
| Measurements.BoxInSelected | interactive/measurements.py:100 | each in-box sample's density is selected |
| Measurements.SelectionMaximum | interactive/measurements.py:108 | the largest selected density bounds every in-box density and is one of them |
| Measurements.SelectionCount | interactive/measurements.py:100-106 | the number of selected densities is the number of in-box samples |
| Measurements.VolumeElement | interactive/measurements.py:94-97 | \|dx·dy·dz\| ≥ 0, zero iff a spacing is zero |
| Measurements.Mean | interactive/measurements.py:107 | the mean of a non-empty selection is at most its maximum |
| Measurements.CalculateRegionProbability | interactive/measurements.py:87-112 | num_points is the box count; volume = count × element; total = Σ selected × element; empty ⇒ mean and max are 0; otherwise the mean is Σ selected / count, the max bounds and is one of the selected densities, and mean ≤ max; ranges echoed |
| Measurements.RegionProbabilityNonNegative | interactive/measurements.py:101-105 | total probability and region volume are non-negative for non-negative densities |
| Measurements.WholeGridRegion | interactive/measurements.py:87-100 | a box containing every sample selects every density, in order |
| Measurements.WholeMask | interactive/measurements.py:87-91 | when every sample is in the box, the mask selects every position, in order |
| Measurements.NormalizedDensities | interactive/measurements.py:149-150 | densities divided by the total when it is positive, unchanged otherwise |
| Measurements.Densities | interactive/measurements.py:141 | the density of each sample, in order |
| Measurements.Spread | interactive/measurements.py:153-155 | √max(0, ⟨a²⟩−⟨a⟩²) is ≥ 0, zero iff ⟨a²⟩ ≤ ⟨a⟩², and its square is the clamped variance |
| Measurements.MomentumSpread | interactive/measurements.py:173-175 | exactly ħ/Δ, which is positive, when Δ > 0; +inf otherwise |
| Measurements.HeisenbergProductOfSpread | interactive/measurements.py:173-180 | the product Δ·Δp/ħ is exactly 1 when Δ > 0 and NaN (0·inf) when Δ = 0 |
| Measurements.GridWeightsIntegrateToOne | interactive/measurements.py:147-150 | with a positive total, the normalised weights times the volume element sum to 1 |
| Measurements.UncertaintyCalculator | interactive/measurements.py:134-206 | ⟨x⟩, ⟨y⟩, ⟨z⟩ are the first moments of the normalised grid density; Δx, Δy, Δz are the clamped roots of ⟨c²⟩ − ⟨c⟩² and Δr uses the closed-form ⟨r⟩; each Δp is MomentumSpread of its Δ and each product is Δ·Δp/ħ; Δx, Δy, Δz, Δr ≥ 0; each product is 1 when its spread is positive, and Δp = +inf with a NaN product when it is zero; minimum 0.5; ⟨r⟩ is the closed form |
| Games.MapOf | interactive/games.py:209-286 | every listed key is in the table, and every entry comes from the list |
| Games.InitialAllLocked | interactive/games.py:209-288 | a new tracker has every achievement locked, every counter at 0, and a counter exactly where there is a threshold |
| Games.Advance | interactive/games.py:312-332 | unlocked ⇒ unchanged and False; the optional increment adds exactly 1 to a present counter; True iff this call unlocks: no threshold, or progress ≥ threshold; name, description, icon and threshold kept |
| Games.Apply | interactive/games.py:309-332 | an unknown key changes nothing and returns False; only the named entry changes, as Advance says |
| Games.UnlockAtMostOnce | interactive/games.py:315-332 | over any sequence of calls a key returns True at most once, and never once already unlocked |
| Games.AchievementTracker.constructor | interactive/games.py:200-288 | the tracker starts as the initial table |
| Games.AchievementTracker.CheckAchievementUnlock | interactive/games.py:291-332 | the table is updated in place and the flag returned exactly as Apply describes |
| Games.TupleStringInjective | interactive/games.py:70-81 | str((n, l, m)) determines the triple |
| Games.RangesFor | interactive/games.py:35-42 | the difficulty's ranges, 'medium' for an unknown name |
| Games.RandInt | interactive/games.py:45-54 | a draw lands in [lo, hi] |
| Games.DrawTriple | interactive/games.py:45-47 | a drawn target has n in range, 0 ≤ l ≤ min(n−1, l_max), \|m\| ≤ l |
| Games.Shuffle | interactive/games.py:65 | the shuffle is a permutation of the options |
| Games.PermutationKeepsDistinct | interactive/games.py:64-65 | shuffling distinct options keeps them distinct |
| Games.WrongOptionsFrom | interactive/games.py:50-58 | the loop's outcome from a given draw position: never moves backwards; None only when fewer than three draws remain |
| Games.DrawWrongOptions | interactive/games.py:50-58 | the loop ends exactly as WrongOptionsFrom says; it keeps three in-range options, distinct from each other and from the target, and gives None only when fewer than three draws remain |
| Games.OptionsDisplay | interactive/games.py:67-73 | one button per option: its name label and str(option) |
| Games.ShuffledOptions | interactive/games.py:63-65 | the four shuffled options are distinct, in range and include the target |
| Games.OrbitalMatchingGame | interactive/games.py:18-83 | None exactly when the draws run out (for the target, the wrong options or the shuffle); otherwise difficulty echoed; target in range; correct answer str(target); target name; four distinct in-range options including the target |
| Games.ThresholdFor | interactive/games.py:105-112 | the difficulty's threshold, 0.005 for an unknown name, in (0, 1] |
| Games.CountAtLeast | interactive/games.py:118-120 | counts densities ≥ target; zero iff all are below it |
| Games.ProbabilityChallenge | interactive/games.py:104-131 | error iff the grid is empty (np.max); max is attained and bounds all; target = threshold × max; percent = threshold × 100; count of densities ≥ target, at least 1 when max ≥ 0 |
| Games.ValidateChallengeAnswer | interactive/games.py:518-548 | matching: correct iff str(answer) equals the answer, 10 or 0 points; probability: correct iff measured (default 0) ≥ target, 15 or 0 points, a text answer raises; other types: incorrect, 0 points |
| Games.PickedOptionCorrectIff | interactive/games.py:518-519 | picking an option of a generated quiz is correct iff it is the target |
| Themes.StopRatios | visualizations/themes.py:153-154 | the first ratio is 0, the last is 1, all are in [0, 1] and strictly increase |
| Themes.StopColor | visualizations/themes.py:156-161 | primary below 0.25, secondary in [0.25, 0.75), accent from 0.75 |
| Themes.GetThemeDescription | visualizations/themes.py:239-247 | a shipped theme's description, 'Custom theme' otherwise |
| Themes.DescriptionsCoverShippedThemes | visualizations/themes.py:239-245 | the described themes are exactly the configured ones, none described as custom |
| Themes.ThemeRegistry.constructor | config.py:50-88 | the registry starts as the configured table, which holds the default theme |
| Themes.ThemeRegistry.GetThemeColors | visualizations/themes.py:26-29 | the named theme, or the default theme for an unknown name; a value, so the caller cannot change the registry through it |
| Themes.ThemeRegistry.CreateCustomTheme | visualizations/themes.py:118-129 | stores the five colours under the name, overwriting, other entries unchanged; the name then looks up to them |
| Themes.ThemeRegistry.GetColorscale | visualizations/themes.py:148-165 | exactly num_colors stops (none for num_colors ≤ 0), stop i at ratio i/(n−1) (0 for n = 1) in its band's colour |
| Themes.ThemeRegistry.GetGradientColor | visualizations/themes.py:211-218 | primary below 0.33, secondary below 0.67, accent otherwise |
| Themes.StripHashes | visualizations/themes.py:185 | lstrip('#') removes exactly the leading '#' characters |
| Themes.ParseChannel | visualizations/themes.py:188-190 | int(t, 16) succeeds iff the slice is non-empty hex, with a value in [0, 255] |
| Themes.HexToRgba | visualizations/themes.py:185-192 | Ok iff the colour parses; then "rgba(r, g, b, alpha)" with decimal channels |
| Themes.ParseAfterHash | visualizations/themes.py:185 | a leading '#' does not change the parse |
| Themes.HexToRgbaRed | visualizations/themes.py:185-192 | '#FF0000' with 0.5 gives 'rgba(255, 0, 0, 0.5)' |
| Themes.HexToRgbaGreen | visualizations/themes.py:185-192 | '#00FF00' with 1.0 gives 'rgba(0, 255, 0, 1.0)' |
| Themes.Luminance | visualizations/themes.py:273 | the weighted luminance of byte channels is in [0, 1] |
| Themes.GetContrastColor | visualizations/themes.py:264-276 | '#FFFFFF' iff luminance < 0.5, '#000000' iff ≥ 0.5; an error iff the colour does not parse |
| Themes.ContrastMonotone | visualizations/themes.py:273-276 | a darker background than one that takes white text also takes white text |
| Themes.DeepSpaceContrast | visualizations/themes.py:264-276 | the deep-space background takes white text |
| Themes.QuantumLabContrast | visualizations/themes.py:264-276 | the quantum-lab background takes black text |
| Themes.FormatByte | visualizations/themes.py:424 | a byte formats as two lower-case hex digits that parse back to it |
| Themes.FormatColorRoundTrip | visualizations/themes.py:424 | a byte colour prints as '#' and six lower-case digits and parses back to itself |
| Themes.BlendBetween | visualizations/themes.py:419-421 | for a ratio in [0, 1] a channel stays between its endpoints; ratio 0 and 1 give the endpoints |
| Themes.InterpolateColors | visualizations/themes.py:410-424 | Ok iff both colours parse; then the formatted blend of their channels |
| Themes.BlendColorBetween | visualizations/themes.py:419-421 | channel by channel, the blend is between the colours and equals them at 0 and 1 |
| Themes.InterpolationBetween | visualizations/themes.py:410-424 | for a ratio in [0, 1]: '#' + six lower-case digits; channels between the inputs'; ratio 0 reads back as color1, 1 as color2 |
| Vectrex.Center | visualizations/vectrex.py:528 | str.center: unchanged when the width ≤ length; otherwise exactly width long, spaces on either side of the intact text, sides differing by at most one |
| Vectrex.Bar | visualizations/vectrex.py:526-527 | corner, (width−2) '═', corner: length max(width, 2) |
| Vectrex.TextLine | visualizations/vectrex.py:528 | the middle line is max(width, len(text)+4) long |
| Vectrex.TextLineLayout | visualizations/vectrex.py:528 | the middle line is "║ ", spaces, the whole text, spaces, " ║" |
| Vectrex.CreateAsciiBorder | visualizations/vectrex.py:526-530 | three lines and two newlines; when the text fits, 3·width + 2 characters: the top bar, a newline at width, the framed middle line with the whole text at its centring offset, a newline at 2·width + 1, the bottom bar |
| Vectrex.BoxLines | visualizations/vectrex.py:530 | three width-long lines joined by newlines sit at offsets 0, width + 1 and 2·width + 2 |
| Vectrex.BorderIsRectangular | visualizations/vectrex.py:526-528 | when the text fits, all three lines are exactly width long |
| Vectrex.LongTextOverflows | visualizations/vectrex.py:528 | a text too long for the box is not cut: the middle line is "║ " + text + " ║" |
| Vectrex.CenterExample | visualizations/vectrex.py:528 | a 5-character caption in 36 columns gets 15 spaces left and 16 right |
| Numerics.Max | interactive/measurements.py:108 | np.max bounds every element and is one of them |
| Numerics.ArgMax | quantum_engine/superposition.py:272 | np.argmax is the first index of a maximal element |
| Numerics.Linspace | quantum_engine/schrodinger.py:266 | np.linspace: num points, the first is start, the last is stop, all between them, consecutive points (stop − start)/(num − 1) apart, increasing when start < stop |
| Numerics.LinspaceStep | quantum_engine/schrodinger.py:266 | consecutive samples differ by exactly one step |
| Numerics.Trunc | visualizations/themes.py:419-421 | int() truncates toward zero |
| Numerics.ClampNonNegative | quantum_engine/superposition.py:244 | max(0, v) is non-negative, at least v, and is v or 0 |
| Strings.IntToString | quantum_engine/orbitals.py:76 | str(i): a minus sign exactly for negatives, then digits |
| Strings.IntToStringInjective | quantum_engine/orbitals.py:76 | distinct integers print differently |
| Strings.Repeat | visualizations/vectrex.py:526 | c * k has max(k, 0) copies of c |

## Left out

- SciPy special functions and integration (`sph_harm`, `genlaguerre`, `factorial`, `simps`,
  `verify_normalization`):
  - these are foreign numeric calls;
  - R and Y are function parameters;
  - ψ is R·Y.
- sqrt, arccos, arctan2 and exp are abstract function parameters:
  - the only law assumed of sqrt is that it returns the non-negative root;
  - `time_evolution`, `decompose_superposition` and `generate_random_superposition` are not
    modelled (complex exponentials, overlaps and randomness).
- IEEE floating point:
  - all arithmetic is exact over `real`;
  - normalisation summing to 1, the Heisenberg product being 1 and the round trips hold
    exactly here, and only approximately in the program.
- The Bohr/Ångström conversions: their two literals are reciprocal only approximately, so
  there is no exact round trip to state.
- Meshgrid construction of G³ arrays:
  - a grid is a flat sequence of sample records;
  - the mesh spacings dx, dy, dz are fields of the grid value rather than differences of
    array entries.
- Orbitals.GenerateOrbitalGrid: carries only the metadata and the axis, not the ψ and density
  arrays, which are abstract evaluations of the same functions.
- Orbitals.GenerateCrossSection: carries the plane's coordinate arrays and the metadata, not the
  `prob_density` array it evaluates on them (`quantum_engine/orbitals.py:309-316`).
- Measurements.VolumeElement: the spacings come from `X[1,0,0]`, `Y[0,1,0]` and `Z[0,0,1]`,
  which raise an IndexError on a grid with fewer than two points along an axis. Here the
  spacings are fields of the grid value, so that error is not modelled.
- Constants.AtomicUnitsToSI: the default `quantity='length'` is not modelled; the tag is
  always passed.
- Constants.SIToAtomicUnits: the default `quantity='length'` is not modelled; the tag is
  always passed.
- Orbitals.GenerateCrossSection: the default `plane='xy'` is not modelled; the plane is always
  passed.
- Other defaults, which callers always pass in the model: `difficulty='medium'` in
  `orbital_matching_game` and `probability_challenge`, `increment=False` in
  `check_achievement_unlock`, `theme_name='deep_space'` and `num_colors=10` in
  `get_colorscale`, `alpha=1.0` in `hex_to_rgba`, and `width=40` in `create_ascii_border`.
- Randomness:
  - `random.randint` and `random.shuffle` consume an input sequence of draws;
  - randint's distribution is not modelled, only its range.
- Games.OrbitalMatchingGame: returns None when the supplied draws run out, where the program
  would keep drawing.
- The float formatting of values:
  - `alpha` in `hex_to_rgba` is passed in already formatted;
  - the feedback and challenge texts carry their numbers as values instead of `.4e` text.
- Themes.ParseChannel: models `int(t, 16)` for ASCII hex digits only. Signs, surrounding
  whitespace and non-ASCII decimal digits, which Python also accepts, are reported as errors.
- Games.ValidateChallengeAnswer:
  - the `str()` of a dictionary answer is an input of the model rather than computed;
  - a dictionary answer's probability is a real.
- Games.AchievementTracker.CheckAchievementUnlock: the tracker keeps the invariant that a
  threshold comes with a counter, which every entry the program creates satisfies. A
  hand-built entry with a threshold and no counter, which would raise a KeyError, is not
  modelled.
- Themes.ThemeRegistry: the program's registry is a module-level dictionary shared by every
  caller. Here it is one object.
- Theme application to figures, glow effects, CSS variables and previews: these are figure and
  style construction, with nothing to verify.
- `speed_run_challenge`, `generate_challenge` and the UI builders of the game and measurement
  modules: these are layout construction.
- The rest of the ASCII art module: only `create_ascii_border` is modelled.
- `calculate_photon_wavelength`, `calculate_grid_statistics` and `get_isosurface_value`: these
  are numeric summaries outside the modelled layer.
