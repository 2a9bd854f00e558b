# NPK stress evaluator of the PCSE crop model, in Dafny

This project models the nutrient-stress evaluator `NPK_Stress.__call__` of
PCSE (the Python Crop Simulation Environment). Once per time step the crop
model asks it for three numbers:

- **NNI**, the nitrogen nutrition index;
- **NPKI**, the combined N/P/K nutrition index, the minimum of the nitrogen,
  phosphorus and potassium indices (the most limiting nutrient governs);
- **NPKREF**, the assimilation reduction factor derived from NPKI.

The inputs are the development stage (DVS), the dry masses of living leaves
and stems (WLV, WST), the N, P and K masses accumulated in leaves and stems
(ANLV, ANST, APLV, APST, AKLV, AKST) and the crop coefficients.

Files:

- `numeric.dfy` (module `Numeric`): Python's `max`/`min`, the clamp that
  `limit(vmin, vmax, v)` is taken to be, and small ordered-field facts used by
  the proofs.
- `npk_stress.dfy` (module `NpkStress`): the coefficient record
  `Parameters`, the state snapshot `CropState`, the result `StressFactors`,
  and the evaluation as pure functions over `real`: maximum leaf and stem
  concentrations, optimal/actual/residual whole-plant concentrations, the
  single-nutrient index, the reduction factor and `Evaluate`.
- `npk_stress_properties.dfy` (module `NpkStressProperties`): lemmas about the
  evaluation (zero-biomass defaults, weighted averages, a mass-based reference
  definition of each index, monotonicity, the shape of the reduction curve,
  coefficients that are never read, a worked example).

The stem maximum for phosphorus is computed exactly as in the source: the
leaf maximum times `PMAXRT_FR` (the root ratio), while nitrogen and potassium
use `NMAXST_FR` and `KMAXST_FR`. `MaxStemConc` carries a comment on this, and
`PStemOptimumUsesRootRatio`, `PRootRatioIsRead` and `UnreadRatios` state its consequences. The
source's own comments on lines 54-55 describe `PMAXST_FR` as the root ratio
and `PMAXRT_FR` as the stem ratio, so which name is meant stays ambiguous.

The reduction factor `1 - NLUE_NPK * (1.0001 - NPKI)^2` is not monotone in
NPKI. With `NLUE_NPK >= 0` it does not fall as NPKI rises to 1.0001, and it
does not rise beyond that point. The indices have no upper cap, so a crop
holding more than its optimal nutrient amount is penalised
(`ReductionFactorMonotoneBelowOffset`, `ReductionFactorPenalisesSurplus`).

The evaluation is a function, so two evaluations of the same coefficients
and state give the same result by construction.

## Model

| member | source | states |
|---|---|---|
| `Numeric.Max` | pcse/crop/nutrients/npk_stress.py:148 | `max(0.001, x)`: the result is at least both arguments and is one of them |
| `Numeric.Min3` | pcse/crop/nutrients/npk_stress.py:162 | `min(NNI, PNI, KNI)`: the result is at most each index and equal to one of them |
| `Numeric.Clamp` | pcse/crop/nutrients/npk_stress.py:165 | `limit(lo, hi, v)`: the result lies in `[lo, hi]`, is `v` inside the interval, `lo` below it and `hi` above it |
| `NpkStress.MaxLeafConc` | pcse/crop/nutrients/npk_stress.py:96-98 | contract-free definition: the N, P or K leaf maximum is that nutrient's table read at DVS |
| `NpkStress.MaxStemConc` | pcse/crop/nutrients/npk_stress.py:101-103 | contract-free definition: N and K use the stem ratio; P multiplies the leaf maximum by `PMAXRT_FR`; consequences in `PStemOptimumUsesRootRatio`, `PRootRatioIsRead` and `UnreadRatios` |
| `NpkStress.TotalBiomass` | pcse/crop/nutrients/npk_stress.py:106 | contract-free definition: TBGMR = WLV + WST |
| `NpkStress.OptimalLeafAmount` | pcse/crop/nutrients/npk_stress.py:109-115 | contract-free definition: critical fraction times leaf maximum times WLV |
| `NpkStress.OptimalStemAmount` | pcse/crop/nutrients/npk_stress.py:110-116 | contract-free definition: critical fraction times stem maximum times WST |
| `NpkStress.ResidualAmount` | pcse/crop/nutrients/npk_stress.py:140-142 | contract-free definition: the numerator WLV times leaf residual fraction plus WST times stem residual fraction |
| `NpkStress.PerMass` | pcse/crop/nutrients/npk_stress.py:119-144 | the guarded division: with positive total biomass the concentration times the biomass gives back the amount; otherwise the concentration is 0 |
| `NpkStress.OptimalConc` | pcse/crop/nutrients/npk_stress.py:106-124 | with positive biomass, the optimal concentration held by the whole biomass equals the optimal leaf amount plus the optimal stem amount; otherwise it is 0 |
| `NpkStress.ActualConc` | pcse/crop/nutrients/npk_stress.py:129-134 | with positive biomass, the actual concentration held by the whole biomass equals the leaf plus stem nutrient mass; otherwise it is 0 |
| `NpkStress.ResidualConc` | pcse/crop/nutrients/npk_stress.py:139-144 | with positive biomass, the residual concentration held by the whole biomass equals leaf mass times leaf residual fraction plus stem mass times stem residual fraction; otherwise it is 0 |
| `NpkStress.NutritionIndex` | pcse/crop/nutrients/npk_stress.py:147-160 | the index is at least 0.001; exactly 0.001 when optimal minus residual is not positive or when the actual surplus over residual is at most 0.001 of the range; otherwise the index times the range equals the actual surplus over residual |
| `NpkStress.Index` | pcse/crop/nutrients/npk_stress.py:147-160 | every single-nutrient index (NNI, PNI, KNI) is at least 0.001 |
| `NpkStress.ReductionFactor` | pcse/crop/nutrients/npk_stress.py:165 | NPKREF lies in `[0, 1]`; it is 1 exactly when the penalty `NLUE_NPK * (1.0001 - NPKI)^2` is not positive, 0 exactly when the penalty is at least 1, and `1 - penalty` in between |
| `NpkStress.Evaluate` | pcse/crop/nutrients/npk_stress.py:78-167 | NNI is the nitrogen index; NPKI is at most each of the three indices and equal to one of them; NNI and NPKI are at least 0.001; NPKREF lies in `[0, 1]` and is the reduction factor of NPKI |
| `NpkStressProperties.ZeroBiomassDefaults` | pcse/crop/nutrients/npk_stress.py:118-160 | with no positive total biomass the optimal, actual and residual concentrations are 0 and the index is exactly 0.001 |
| `NpkStressProperties.ZeroBiomassStress` | pcse/crop/nutrients/npk_stress.py:119-167 | with no positive total biomass NNI = NPKI = 0.001 and NPKREF is the clamp of `1 - NLUE_NPK * (1.0001 - 0.001)^2` |
| `NpkStressProperties.ResidualIsWeightedAverage` | pcse/crop/nutrients/npk_stress.py:139-142 | with non-negative masses and positive total, the residual concentration lies between the leaf and stem residual fractions |
| `NpkStressProperties.OptimalIsWeightedAverage` | pcse/crop/nutrients/npk_stress.py:109-122 | with non-negative masses and positive total, the optimal concentration lies between the optimal leaf and optimal stem concentrations |
| `NpkStressProperties.IndexIsMassRatio` | pcse/crop/nutrients/npk_stress.py:119-160 | on every input the index equals a reference definition on masses, in which the biomass divides out: `max(0.001, (amount - residual amount) / (optimal amount - residual amount))` when biomass and that denominator are positive, else 0.001 |
| `NpkStressProperties.IndexScaleFree` | pcse/crop/nutrients/npk_stress.py:147-160 | the index of three concentrations equals the same ratio taken on the amounts they hold in a positive biomass |
| `NpkStressProperties.NutritionIndexMonotone` | pcse/crop/nutrients/npk_stress.py:147-160 | a larger actual concentration never gives a smaller index |
| `NpkStressProperties.NutritionIndexAtOptimum` | pcse/crop/nutrients/npk_stress.py:147-148 | an actual concentration equal to the optimum gives index 1 when the range is positive |
| `NpkStressProperties.ActualConcMonotone` | pcse/crop/nutrients/npk_stress.py:129-132 | with the same total biomass, more leaf and stem nutrient mass never lowers the actual concentration |
| `NpkStressProperties.OptimumAndResidualIgnoreAmounts` | pcse/crop/nutrients/npk_stress.py:109-144 | the optimal and residual concentrations depend only on stage and dry masses, not on the accumulated nutrient masses |
| `NpkStressProperties.IndexMonotone` | pcse/crop/nutrients/npk_stress.py:129-160 | at fixed stage and dry masses, raising a nutrient's leaf or stem mass never lowers that nutrient's index |
| `NpkStressProperties.CombinedIndexMonotone` | pcse/crop/nutrients/npk_stress.py:162 | at fixed stage and dry masses, raising all six nutrient masses never lowers NPKI |
| `NpkStressProperties.IndexAtOptimumIsOne` | pcse/crop/nutrients/npk_stress.py:119-160 | a plant holding exactly its optimal nutrient amount, above the residual amount, has index exactly 1 |
| `NpkStressProperties.ReductionFactorMonotoneBelowOffset` | pcse/crop/nutrients/npk_stress.py:165 | with `NLUE_NPK >= 0`, for NPKI up to 1.0001 a larger NPKI never gives a smaller NPKREF |
| `NpkStressProperties.ReductionFactorPenalisesSurplus` | pcse/crop/nutrients/npk_stress.py:165 | with `NLUE_NPK >= 0`, for NPKI from 1.0001 up a larger NPKI never gives a larger NPKREF |
| `NpkStressProperties.IndexIgnoresUnreadRatios` | pcse/crop/nutrients/npk_stress.py:101-103 | no single-nutrient index changes when `PMAXST_FR`, `NMAXRT_FR` or `KMAXRT_FR` changes |
| `NpkStressProperties.UnreadRatios` | pcse/crop/nutrients/npk_stress.py:101-167 | the whole evaluation is independent of `PMAXST_FR`, `NMAXRT_FR` and `KMAXRT_FR` |
| `NpkStressProperties.PStemOptimumUsesRootRatio` | pcse/crop/nutrients/npk_stress.py:102 | an illustration of line 102: for an all-stem crop the optimal P concentration is `PCRIT_FR * PMAXRT_FR * PMAXLV`: the P stem maximum comes from the root ratio |
| `NpkStressProperties.PRootRatioIsRead` | pcse/crop/nutrients/npk_stress.py:102 | with positive biomass, non-zero stem mass and non-zero `PCRIT_FR * PMAXLV`, two different values of `PMAXRT_FR` give two different optimal P concentrations: the root ratio is read |
| `NpkStressProperties.NitrogenExample` | pcse/crop/nutrients/npk_stress.py:96-148 | WLV 3000, WST 2000, ANLV 90, ANST 40, NMAXLV 0.04, NMAXST_FR 0.5, NCRIT_FR 0.8, residuals 0.02/0.015 give optimal 0.0256, actual 0.026, residual 0.018 and NNI = 20/19 |

## Left out

- The kiosk lookups of lines 82-93: the published state is the `CropState` argument. A missing variable, which the kiosk reports as an error, cannot arise.
- `initialize` (lines 67-75) and the `ParamTemplate`/traitlets machinery with its `-99` "unset" defaults (lines 45-64): the coefficients are the `Parameters` argument and are taken as given. Rejecting an unset coefficient happens at setup time and is not modelled.
- The interpolation tables `NMAXLV_TB`, `PMAXLV_TB` and `KMAXLV_TB`: the `AfgenTrait` interpolation is not part of this model. Each table is a field of type `real -> real`, an arbitrary function of DVS. Flat extrapolation at the table ends is therefore not modelled.
- `pcse.util.limit` is not part of this model. `Numeric.Clamp` assumes it returns `vmin` below the interval, `vmax` above it and the value itself in between. It also assumes the utility rejects `vmin > vmax`, hence the precondition `lo <= hi`. The only call site passes 0 and 1.
- IEEE floating-point rounding: all arithmetic is over exact reals. Results therefore hold for the ideal formulas, not bit for bit. In particular, reordered products such as `NCRIT_FR * NMAXLV * WLV` against `WLV * (NCRIT_FR * NMAXLV)` are equal here.
- The `day` argument of `__call__` is never read, and is not modelled.
