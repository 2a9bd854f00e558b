/** Nutrient stress of a crop: the nitrogen nutrition index (NNI), the combined
    N/P/K index (NPKI) and the assimilation reduction factor (NPKREF) that the
    growth engine applies once per time step.

    All quantities are reals. Leaf and stem dry masses and accumulated
    nutrient masses are in kg per hectare; concentrations are kg of nutrient
    per kg of dry matter. */
module NpkStress {
  import opened Numeric

  /** Lower bound of every single-nutrient index. */
  const IndexFloor: real := 0.001

  /** Offset of the reduction curve `1 - NLUE_NPK * (1.0001 - NPKI)^2`. */
  const CurveOffset: real := 1.0001

  datatype Nutrient = N | P | K

  /** The crop coefficients. The three maximum-leaf-concentration tables are
      interpolation tables over the development stage; their interpolation is
      not part of this model, so each is an arbitrary function of DVS.
      The `*MaxRtFr` root ratios and `pMaxStFr` are carried because the crop
      data supplies them, but see `MaxStemConc` for which of them is read. */
  datatype Parameters = Parameters(
    nMaxLvTb: real -> real,
    pMaxLvTb: real -> real,
    kMaxLvTb: real -> real,
    nCritFr: real,
    pCritFr: real,
    kCritFr: real,
    nMaxRtFr: real,
    nMaxStFr: real,
    pMaxStFr: real,
    pMaxRtFr: real,
    kMaxRtFr: real,
    kMaxStFr: real,
    nResidLv: real,
    nResidSt: real,
    pResidLv: real,
    pResidSt: real,
    kResidLv: real,
    kResidSt: real,
    nlueNpk: real)

  /** The published crop state read at each call: development stage, living
      leaf and stem dry mass, and the N, P and K masses held in leaves and
      stems. */
  datatype CropState = CropState(
    dvs: real,
    wlv: real,
    wst: real,
    anlv: real,
    anst: real,
    aplv: real,
    apst: real,
    aklv: real,
    akst: real)

  /** What one evaluation returns. */
  datatype StressFactors = StressFactors(nni: real, npki: real, npkref: real)

  /** Per-nutrient view of the coefficients and of the state. */

  function MaxLeafConc(p: Parameters, s: CropState, nut: Nutrient): real
  {
    match nut
    case N => p.nMaxLvTb(s.dvs)
    case P => p.pMaxLvTb(s.dvs)
    case K => p.kMaxLvTb(s.dvs)
  }

  /** Maximum stem concentration as a ratio of the leaf maximum. For N and K
      the stem ratio is used. For P the evaluator multiplies by the ROOT ratio
      `pMaxRtFr`, not by `pMaxStFr`: this is the arithmetic of the crop model
      as written and is kept on purpose. (The coefficient comments attached to
      the two P ratios are themselves swapped, "roots" on the stem one and
      "stems" on the root one, so which name is meant is ambiguous.) */
  function MaxStemConc(p: Parameters, s: CropState, nut: Nutrient): real
  {
    match nut
    case N => p.nMaxStFr * MaxLeafConc(p, s, N)
    case P => p.pMaxRtFr * MaxLeafConc(p, s, P)
    case K => p.kMaxStFr * MaxLeafConc(p, s, K)
  }

  function CritFr(p: Parameters, nut: Nutrient): real
  {
    match nut
    case N => p.nCritFr
    case P => p.pCritFr
    case K => p.kCritFr
  }

  function ResidLeafFr(p: Parameters, nut: Nutrient): real
  {
    match nut
    case N => p.nResidLv
    case P => p.pResidLv
    case K => p.kResidLv
  }

  function ResidStemFr(p: Parameters, nut: Nutrient): real
  {
    match nut
    case N => p.nResidSt
    case P => p.pResidSt
    case K => p.kResidSt
  }

  function LeafAmount(s: CropState, nut: Nutrient): real
  {
    match nut
    case N => s.anlv
    case P => s.aplv
    case K => s.aklv
  }

  function StemAmount(s: CropState, nut: Nutrient): real
  {
    match nut
    case N => s.anst
    case P => s.apst
    case K => s.akst
  }

  /** Total living vegetative above-ground dry mass. */
  function TotalBiomass(s: CropState): real
  {
    s.wlv + s.wst
  }

  /** Concentration of `amount` in `biomass`, guarded against division by
      zero: with no positive biomass the concentration is 0. */
  function PerMass(amount: real, biomass: real): (c: real)
    ensures biomass > 0.0 ==> c * biomass == amount
    ensures biomass <= 0.0 ==> c == 0.0
  {
    if biomass > 0.0 then amount / biomass else 0.0
  }

  /** Optimal nutrient amounts in leaves and stems: the critical fraction of the
      maximum concentration, times the organ's dry mass. */
  function OptimalLeafAmount(p: Parameters, s: CropState, nut: Nutrient): real
  {
    CritFr(p, nut) * MaxLeafConc(p, s, nut) * s.wlv
  }

  function OptimalStemAmount(p: Parameters, s: CropState, nut: Nutrient): real
  {
    CritFr(p, nut) * MaxStemConc(p, s, nut) * s.wst
  }

  /** Residual (structural, not remobilisable) amount in leaves plus stems. */
  function ResidualAmount(p: Parameters, s: CropState, nut: Nutrient): real
  {
    s.wlv * ResidLeafFr(p, nut) + s.wst * ResidStemFr(p, nut)
  }

  /** Whole-plant optimal, actual and residual concentrations. */

  function OptimalConc(p: Parameters, s: CropState, nut: Nutrient): (c: real)
    ensures TotalBiomass(s) > 0.0 ==>
      c * TotalBiomass(s) == OptimalLeafAmount(p, s, nut) + OptimalStemAmount(p, s, nut)
    ensures TotalBiomass(s) <= 0.0 ==> c == 0.0
  {
    PerMass(OptimalLeafAmount(p, s, nut) + OptimalStemAmount(p, s, nut), TotalBiomass(s))
  }

  function ActualConc(s: CropState, nut: Nutrient): (c: real)
    ensures TotalBiomass(s) > 0.0 ==>
      c * TotalBiomass(s) == LeafAmount(s, nut) + StemAmount(s, nut)
    ensures TotalBiomass(s) <= 0.0 ==> c == 0.0
  {
    PerMass(LeafAmount(s, nut) + StemAmount(s, nut), TotalBiomass(s))
  }

  function ResidualConc(p: Parameters, s: CropState, nut: Nutrient): (c: real)
    ensures TotalBiomass(s) > 0.0 ==> c * TotalBiomass(s) == ResidualAmount(p, s, nut)
    ensures TotalBiomass(s) <= 0.0 ==> c == 0.0
  {
    PerMass(ResidualAmount(p, s, nut), TotalBiomass(s))
  }

  /** The nutrition index of one nutrient: the position of the actual
      concentration on the exploitable range from residual to optimal, never
      below `IndexFloor`. An empty or inverted range means maximal stress. */
  function NutritionIndex(optimal: real, actual: real, residual: real): (r: real)
    ensures r >= IndexFloor
    ensures optimal - residual <= 0.0 ==> r == IndexFloor
    ensures optimal - residual > 0.0 ==> r * (optimal - residual) >= actual - residual
    ensures optimal - residual > 0.0 && actual - residual > IndexFloor * (optimal - residual) ==>
      r * (optimal - residual) == actual - residual
    ensures optimal - residual > 0.0 && actual - residual <= IndexFloor * (optimal - residual) ==>
      r == IndexFloor
  {
    if optimal - residual > 0.0 then
      var range := optimal - residual;
      var q := (actual - residual) / range;
      assert q * range == actual - residual;
      assert (q - IndexFloor) * range == (actual - residual) - IndexFloor * range;
      Max(IndexFloor, q)
    else
      IndexFloor
  }

  /** NNI, PNI or KNI for the given state. */
  function Index(p: Parameters, s: CropState, nut: Nutrient): (r: real)
    ensures r >= IndexFloor
  {
    NutritionIndex(OptimalConc(p, s, nut), ActualConc(s, nut), ResidualConc(p, s, nut))
  }

  /** The assimilation reduction factor: the curve
      `1 - nlue * (1.0001 - npki)^2`, clamped to `[0, 1]`. */
  function ReductionFactor(nlue: real, npki: real): (r: real)
    ensures 0.0 <= r <= 1.0
    ensures r == 1.0 <==> nlue * (CurveOffset - npki) * (CurveOffset - npki) <= 0.0
    ensures r == 0.0 <==> nlue * (CurveOffset - npki) * (CurveOffset - npki) >= 1.0
    ensures 0.0 < r < 1.0 ==> r + nlue * (CurveOffset - npki) * (CurveOffset - npki) == 1.0
  {
    Clamp(0.0, 1.0, 1.0 - nlue * ((CurveOffset - npki) * (CurveOffset - npki)))
  }

  /** One evaluation of the stress evaluator. NPKI is the index of the most
      limiting nutrient (law of the minimum). */
  function Evaluate(p: Parameters, s: CropState): (r: StressFactors)
    ensures r.nni == Index(p, s, N)
    ensures r.npki <= Index(p, s, N) && r.npki <= Index(p, s, P) && r.npki <= Index(p, s, K)
    ensures r.npki == Index(p, s, N) || r.npki == Index(p, s, P) || r.npki == Index(p, s, K)
    ensures r.nni >= IndexFloor && r.npki >= IndexFloor
    ensures 0.0 <= r.npkref <= 1.0
    ensures r.npkref == ReductionFactor(p.nlueNpk, r.npki)
  {
    var nni := Index(p, s, N);
    var pni := Index(p, s, P);
    var kni := Index(p, s, K);
    var npki := Min3(nni, pni, kni);
    StressFactors(nni, npki, ReductionFactor(p.nlueNpk, npki))
  }
}
