/** Properties of the nutrient stress evaluator: the index floor, the
    zero-biomass defaults, the residual and optimal concentrations as mass
    weighted averages, the mass-ratio reading of each index, monotonicity in
    the accumulated nutrient masses, the shape of the reduction curve and the
    coefficients the evaluation never reads. */
module NpkStressProperties {
  import opened Numeric
  import opened NpkStress

  /** With no positive biomass every concentration is 0 and every index sits
      at the floor. */
  lemma ZeroBiomassDefaults(p: Parameters, s: CropState, nut: Nutrient)
    requires TotalBiomass(s) <= 0.0
    ensures OptimalConc(p, s, nut) == 0.0
    ensures ActualConc(s, nut) == 0.0
    ensures ResidualConc(p, s, nut) == 0.0
    ensures Index(p, s, nut) == IndexFloor
  {
  }

  /** With no positive biomass the evaluation is fully determined by the
      sensitivity coefficient. */
  lemma ZeroBiomassStress(p: Parameters, s: CropState)
    requires TotalBiomass(s) <= 0.0
    ensures Evaluate(p, s).nni == IndexFloor
    ensures Evaluate(p, s).npki == IndexFloor
    ensures Evaluate(p, s).npkref
         == Clamp(0.0, 1.0, 1.0 - p.nlueNpk * ((1.0001 - 0.001) * (1.0001 - 0.001)))
  {
    ZeroBiomassDefaults(p, s, N);
    ZeroBiomassDefaults(p, s, P);
    ZeroBiomassDefaults(p, s, K);
  }

  /** A mass-weighted average of two values lies between them: `c` is the
      concentration of `a` per unit of mass `wl` plus `b` per unit of `ws`. */
  lemma WeightedAverageBounds(wl: real, ws: real, a: real, b: real, c: real)
    requires wl >= 0.0 && ws >= 0.0 && wl + ws > 0.0
    requires c * (wl + ws) == wl * a + ws * b
    ensures Min(a, b) <= c <= Max(a, b)
  {
    var lo, hi := Min(a, b), Max(a, b);
    assert (c - lo) * (wl + ws) == wl * (a - lo) + ws * (b - lo);
    MulNonneg(wl, a - lo);
    MulNonneg(ws, b - lo);
    SignOfScaled(c - lo, wl + ws);
    assert (hi - c) * (wl + ws) == wl * (hi - a) + ws * (hi - b);
    MulNonneg(wl, hi - a);
    MulNonneg(ws, hi - b);
    SignOfScaled(hi - c, wl + ws);
  }

  /** The residual whole-plant concentration is the leaf and stem residual
      fractions averaged by dry mass. */
  lemma ResidualIsWeightedAverage(p: Parameters, s: CropState, nut: Nutrient)
    requires s.wlv >= 0.0 && s.wst >= 0.0 && TotalBiomass(s) > 0.0
    ensures Min(ResidLeafFr(p, nut), ResidStemFr(p, nut)) <= ResidualConc(p, s, nut)
    ensures ResidualConc(p, s, nut) <= Max(ResidLeafFr(p, nut), ResidStemFr(p, nut))
  {
    var a, b := ResidLeafFr(p, nut), ResidStemFr(p, nut);
    var c := ResidualConc(p, s, nut);
    assert c * (s.wlv + s.wst) == s.wlv * a + s.wst * b by {
      assert c * TotalBiomass(s) == ResidualAmount(p, s, nut);
    }
    WeightedAverageBounds(s.wlv, s.wst, a, b, c);
  }

  /** Likewise the optimal whole-plant concentration lies between the optimal
      leaf and optimal stem concentrations. */
  lemma OptimalIsWeightedAverage(p: Parameters, s: CropState, nut: Nutrient)
    requires s.wlv >= 0.0 && s.wst >= 0.0 && TotalBiomass(s) > 0.0
    ensures Min(CritFr(p, nut) * MaxLeafConc(p, s, nut), CritFr(p, nut) * MaxStemConc(p, s, nut))
         <= OptimalConc(p, s, nut)
    ensures OptimalConc(p, s, nut)
         <= Max(CritFr(p, nut) * MaxLeafConc(p, s, nut), CritFr(p, nut) * MaxStemConc(p, s, nut))
  {
    var a := CritFr(p, nut) * MaxLeafConc(p, s, nut);
    var b := CritFr(p, nut) * MaxStemConc(p, s, nut);
    var c := OptimalConc(p, s, nut);
    assert c * (s.wlv + s.wst) == s.wlv * a + s.wst * b by {
      assert c * TotalBiomass(s) == OptimalLeafAmount(p, s, nut) + OptimalStemAmount(p, s, nut);
      assert OptimalLeafAmount(p, s, nut) == s.wlv * a;
      assert OptimalStemAmount(p, s, nut) == s.wst * b;
    }
    WeightedAverageBounds(s.wlv, s.wst, a, b, c);
  }

  /** Reference definition of an index on nutrient MASSES: the biomass
      divides out of the ratio, so the index is the surplus of the nutrient
      mass over the residual mass, as a share of the surplus the optimum
      would hold. */
  function MassRatioIndex(p: Parameters, s: CropState, nut: Nutrient): real
  {
    var optimal := OptimalLeafAmount(p, s, nut) + OptimalStemAmount(p, s, nut);
    var actual := LeafAmount(s, nut) + StemAmount(s, nut);
    var residual := ResidualAmount(p, s, nut);
    if TotalBiomass(s) > 0.0 && optimal - residual > 0.0 then
      Max(IndexFloor, (actual - residual) / (optimal - residual))
    else
      IndexFloor
  }

  /** The concentration-based index agrees with the mass-based one on every
      input. */
  lemma IndexIsMassRatio(p: Parameters, s: CropState, nut: Nutrient)
    ensures Index(p, s, nut) == MassRatioIndex(p, s, nut)
  {
    var tb := TotalBiomass(s);
    if tb > 0.0 {
      IndexScaleFree(OptimalConc(p, s, nut), ActualConc(s, nut), ResidualConc(p, s, nut), tb,
                     OptimalLeafAmount(p, s, nut) + OptimalStemAmount(p, s, nut),
                     LeafAmount(s, nut) + StemAmount(s, nut),
                     ResidualAmount(p, s, nut));
    }
  }

  /** The index of concentrations equals the same ratio taken on the
      amounts those concentrations hold in a positive biomass. */
  lemma IndexScaleFree(opt: real, act: real, res: real, tb: real,
                       optA: real, actA: real, resA: real)
    requires tb > 0.0
    requires opt * tb == optA && act * tb == actA && res * tb == resA
    ensures NutritionIndex(opt, act, res)
         == if optA - resA > 0.0 then Max(IndexFloor, (actA - resA) / (optA - resA)) else IndexFloor
  {
    assert (opt - res) * tb == optA - resA;
    assert (act - res) * tb == actA - resA;
    SignOfScaled(opt - res, tb);
    if opt - res > 0.0 {
      QuotientScales(act - res, opt - res, tb);
      assert (actA - resA) / (optA - resA) == (act - res) / (opt - res);
    }
  }

  /** A larger actual concentration never yields a smaller index. */
  lemma NutritionIndexMonotone(opt: real, act: real, act': real, res: real)
    requires act <= act'
    ensures NutritionIndex(opt, act, res) <= NutritionIndex(opt, act', res)
  {
    if opt - res > 0.0 {
      QuotientMonotone(act - res, act' - res, opt - res);
    }
  }

  /** More nutrient mass in the same biomass is a higher (or equal) actual
      concentration. */
  lemma ActualConcMonotone(s: CropState, s': CropState, nut: Nutrient)
    requires TotalBiomass(s') == TotalBiomass(s)
    requires LeafAmount(s, nut) <= LeafAmount(s', nut)
    requires StemAmount(s, nut) <= StemAmount(s', nut)
    ensures ActualConc(s, nut) <= ActualConc(s', nut)
  {
    if TotalBiomass(s) > 0.0 {
      QuotientMonotone(LeafAmount(s, nut) + StemAmount(s, nut),
                       LeafAmount(s', nut) + StemAmount(s', nut), TotalBiomass(s));
    }
  }

  /** The optimal and residual concentrations depend on the state only
      through the development stage and the dry masses. */
  lemma OptimumAndResidualIgnoreAmounts(p: Parameters, s: CropState, s': CropState, nut: Nutrient)
    requires s'.dvs == s.dvs && s'.wlv == s.wlv && s'.wst == s.wst
    ensures OptimalConc(p, s', nut) == OptimalConc(p, s, nut)
    ensures ResidualConc(p, s', nut) == ResidualConc(p, s, nut)
  {
    assert MaxLeafConc(p, s', nut) == MaxLeafConc(p, s, nut);
    assert MaxStemConc(p, s', nut) == MaxStemConc(p, s, nut);
    assert OptimalLeafAmount(p, s', nut) == OptimalLeafAmount(p, s, nut);
    assert OptimalStemAmount(p, s', nut) == OptimalStemAmount(p, s, nut);
    assert ResidualAmount(p, s', nut) == ResidualAmount(p, s, nut);
    assert TotalBiomass(s') == TotalBiomass(s);
  }

  /** Holding stage and dry masses fixed, more of a nutrient in leaves or
      stems never lowers that nutrient's index. */
  lemma IndexMonotone(p: Parameters, s: CropState, s': CropState, nut: Nutrient)
    requires s'.dvs == s.dvs && s'.wlv == s.wlv && s'.wst == s.wst
    requires LeafAmount(s, nut) <= LeafAmount(s', nut)
    requires StemAmount(s, nut) <= StemAmount(s', nut)
    ensures Index(p, s, nut) <= Index(p, s', nut)
  {
    OptimumAndResidualIgnoreAmounts(p, s, s', nut);
    ActualConcMonotone(s, s', nut);
    NutritionIndexMonotone(OptimalConc(p, s, nut), ActualConc(s, nut), ActualConc(s', nut),
                           ResidualConc(p, s, nut));
  }

  /** Raising every nutrient mass never lowers the combined index. */
  lemma CombinedIndexMonotone(p: Parameters, s: CropState, s': CropState)
    requires s'.dvs == s.dvs && s'.wlv == s.wlv && s'.wst == s.wst
    requires s.anlv <= s'.anlv && s.anst <= s'.anst
    requires s.aplv <= s'.aplv && s.apst <= s'.apst
    requires s.aklv <= s'.aklv && s.akst <= s'.akst
    ensures Evaluate(p, s).npki <= Evaluate(p, s').npki
  {
    IndexMonotone(p, s, s', N);
    IndexMonotone(p, s, s', P);
    IndexMonotone(p, s, s', K);
  }

  /** When the plant holds exactly its optimal nutrient amount and that
      optimum exceeds the residual, the index is exactly 1. */
  lemma IndexAtOptimumIsOne(p: Parameters, s: CropState, nut: Nutrient)
    requires TotalBiomass(s) > 0.0
    requires OptimalLeafAmount(p, s, nut) + OptimalStemAmount(p, s, nut) > ResidualAmount(p, s, nut)
    requires LeafAmount(s, nut) + StemAmount(s, nut)
          == OptimalLeafAmount(p, s, nut) + OptimalStemAmount(p, s, nut)
    ensures Index(p, s, nut) == 1.0
  {
    var tb := TotalBiomass(s);
    var opt, act, res := OptimalConc(p, s, nut), ActualConc(s, nut), ResidualConc(p, s, nut);
    assert act * tb == LeafAmount(s, nut) + StemAmount(s, nut);
    assert opt * tb == OptimalLeafAmount(p, s, nut) + OptimalStemAmount(p, s, nut);
    CancelFactor(act, opt, tb);
    assert (opt - res) * tb
        == OptimalLeafAmount(p, s, nut) + OptimalStemAmount(p, s, nut) - ResidualAmount(p, s, nut);
    SignOfScaled(opt - res, tb);
    NutritionIndexAtOptimum(opt, res);
  }

  /** An actual concentration equal to a positive-range optimum gives
      index 1. */
  lemma NutritionIndexAtOptimum(opt: real, res: real)
    requires opt - res > 0.0
    ensures NutritionIndex(opt, opt, res) == 1.0
  {
    assert (opt - res) / (opt - res) == 1.0;
  }

  /** Below the curve offset a higher combined index means less reduction
      (a larger factor), provided the sensitivity is not negative. */
  lemma ReductionFactorMonotoneBelowOffset(nlue: real, x: real, y: real)
    requires nlue >= 0.0
    requires x <= y <= CurveOffset
    ensures ReductionFactor(nlue, x) <= ReductionFactor(nlue, y)
  {
    var dx, dy := CurveOffset - x, CurveOffset - y;
    SquareMonotone(dy, dx);
    MulMonotone(dy * dy, dx * dx, nlue);
    ClampMonotone(0.0, 1.0, 1.0 - nlue * (dx * dx), 1.0 - nlue * (dy * dy));
  }

  /** Above the offset the curve turns down: an index beyond optimal
      nutrition is penalised as written, so more surplus never raises the
      factor. */
  lemma ReductionFactorPenalisesSurplus(nlue: real, x: real, y: real)
    requires nlue >= 0.0
    requires CurveOffset <= x <= y
    ensures ReductionFactor(nlue, y) <= ReductionFactor(nlue, x)
  {
    var dx, dy := x - CurveOffset, y - CurveOffset;
    SquareMonotone(dx, dy);
    assert (CurveOffset - x) * (CurveOffset - x) == dx * dx;
    assert (CurveOffset - y) * (CurveOffset - y) == dy * dy;
    MulMonotone(dx * dx, dy * dy, nlue);
    ClampMonotone(0.0, 1.0, 1.0 - nlue * (dy * dy), 1.0 - nlue * (dx * dx));
  }

  /** No single-nutrient index reads the P stem ratio nor the N and K root
      ratios. */
  lemma IndexIgnoresUnreadRatios(p: Parameters, s: CropState, nut: Nutrient,
                                 pMaxSt: real, nMaxRt: real, kMaxRt: real)
    ensures Index(p.(pMaxStFr := pMaxSt, nMaxRtFr := nMaxRt, kMaxRtFr := kMaxRt), s, nut)
         == Index(p, s, nut)
  {
    var p' := p.(pMaxStFr := pMaxSt, nMaxRtFr := nMaxRt, kMaxRtFr := kMaxRt);
    assert CritFr(p', nut) == CritFr(p, nut);
    assert MaxLeafConc(p', s, nut) == MaxLeafConc(p, s, nut);
    assert MaxStemConc(p', s, nut) == MaxStemConc(p, s, nut);
    assert OptimalLeafAmount(p', s, nut) == OptimalLeafAmount(p, s, nut);
    assert OptimalStemAmount(p', s, nut) == OptimalStemAmount(p, s, nut);
    assert ResidualAmount(p', s, nut) == ResidualAmount(p, s, nut);
    assert OptimalConc(p', s, nut) == OptimalConc(p, s, nut);
    assert ResidualConc(p', s, nut) == ResidualConc(p, s, nut);
  }

  /** The evaluation never reads the P stem ratio nor the N and K root
      ratios. */
  lemma UnreadRatios(p: Parameters, s: CropState, pMaxSt: real, nMaxRt: real, kMaxRt: real)
    ensures Evaluate(p.(pMaxStFr := pMaxSt, nMaxRtFr := nMaxRt, kMaxRtFr := kMaxRt), s)
         == Evaluate(p, s)
  {
    IndexIgnoresUnreadRatios(p, s, N, pMaxSt, nMaxRt, kMaxRt);
    IndexIgnoresUnreadRatios(p, s, P, pMaxSt, nMaxRt, kMaxRt);
    IndexIgnoresUnreadRatios(p, s, K, pMaxSt, nMaxRt, kMaxRt);
  }

  /** An illustration of the P stem maximum: for a crop whose biomass is all stem, the optimal P concentration is the
      critical fraction of the root ratio times the leaf maximum: the P stem
      maximum is derived from `pMaxRtFr`. */
  lemma PStemOptimumUsesRootRatio(p: Parameters, s: CropState)
    requires s.wlv == 0.0 && s.wst > 0.0
    ensures OptimalConc(p, s, P) == p.pCritFr * p.pMaxRtFr * p.pMaxLvTb(s.dvs)
  {
    assert OptimalStemAmount(p, s, P) == (p.pCritFr * p.pMaxRtFr * p.pMaxLvTb(s.dvs)) * s.wst;
  }

  /** The P root ratio is read: on any crop with stem mass and a non-zero
      critical P concentration in leaves, changing `pMaxRtFr` changes the
      optimal P concentration. */
  lemma PRootRatioIsRead(p: Parameters, s: CropState, a: real, b: real)
    requires TotalBiomass(s) > 0.0 && s.wst != 0.0
    requires p.pCritFr * p.pMaxLvTb(s.dvs) != 0.0
    requires a != b
    ensures OptimalConc(p.(pMaxRtFr := a), s, P) != OptimalConc(p.(pMaxRtFr := b), s, P)
  {
    var pa, pb := p.(pMaxRtFr := a), p.(pMaxRtFr := b);
    var tb := TotalBiomass(s);
    var ca, cb := OptimalConc(pa, s, P), OptimalConc(pb, s, P);
    var k := p.pCritFr * p.pMaxLvTb(s.dvs);
    assert OptimalLeafAmount(pa, s, P) == OptimalLeafAmount(pb, s, P);
    assert OptimalStemAmount(pa, s, P) == k * a * s.wst;
    assert OptimalStemAmount(pb, s, P) == k * b * s.wst;
    assert (ca - cb) * tb == k * (a - b) * s.wst;
    MulNonzero(k, a - b);
    MulNonzero(k * (a - b), s.wst);
    MulNonzero(ca - cb, tb);
  }

  /** A worked nitrogen case: leaves 3000 and stems 2000 kg/ha holding 90 and
      40 kg N/ha, leaf maximum 0.04 at the current stage, stem ratio 0.5,
      critical fraction 0.8, residual fractions 0.02 and 0.015. The optimal,
      actual and residual concentrations are 0.0256, 0.026 and 0.018, so
      NNI = 0.008 / 0.0076 = 20/19. */
  lemma NitrogenExample(p: Parameters, s: CropState)
    requires s.dvs == 1.0 && s.wlv == 3000.0 && s.wst == 2000.0
    requires s.anlv == 90.0 && s.anst == 40.0
    requires p.nMaxLvTb(1.0) == 0.04 && p.nMaxStFr == 0.5 && p.nCritFr == 0.8
    requires p.nResidLv == 0.02 && p.nResidSt == 0.015
    ensures OptimalConc(p, s, N) == 0.0256
    ensures ActualConc(s, N) == 0.026
    ensures ResidualConc(p, s, N) == 0.018
    ensures Evaluate(p, s).nni == 20.0 / 19.0
  {
    assert MaxStemConc(p, s, N) == 0.02;
    assert OptimalLeafAmount(p, s, N) == 96.0;
    assert OptimalStemAmount(p, s, N) == 32.0;
    assert ResidualAmount(p, s, N) == 90.0;
  }
}
