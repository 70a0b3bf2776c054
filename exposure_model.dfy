/**
 * The exposure-missingness model: R_A depends on A itself. The parameters are
 * (alpha0, gamma): expit(alpha0) is p(R_A = 1 | A = 0) and gamma is the odds ratio of
 * being observed between A = 0 and A = 1. The shadow variable W1 supplies two
 * instruments, W1 and W1^2, so that the system is square: two residuals for two
 * unknowns.
 */
module ExposureModel {
  import opened Wrappers
  import opened OddsRatio
  import opened ShadowMoment
  import DataGenerator

  /** The unknowns of the exposure model, in the order the source's parameter list holds them. */
  datatype ExposureParams = ExposureParams(alpha0: real, gamma: real)

  /** p(R_A = 1 | A = a) under the odds-ratio parametrisation. */
  function ExposurePropensity(expit: real -> real, theta: ExposureParams, a: int): Option<real>
  {
    Propensity(expit(theta.alpha0), theta.gamma, a)
  }

  /**
   * `rootsPrediction_A`: the fitted probability of observing A, row by row. At the
   * reference level A = 0 it is the baseline expit(alpha0); with a positive odds ratio
   * every row's prediction is a probability strictly inside (0, 1), sentinel rows included.
   */
  function RootsPredictionA(expit: real -> real, roots: ExposureParams, a: seq<int>): (preds: seq<Option<real>>)
    ensures |preds| == |a|
    ensures forall i :: 0 <= i < |a| && a[i] == 0 ==> preds[i] == Some(expit(roots.alpha0))
    ensures IsProbabilityValued(expit) && roots.gamma > 0.0 ==>
      forall i :: 0 <= i < |a| ==> preds[i].Some? && 0.0 < preds[i].value < 1.0
  {
    seq(|a|, i requires 0 <= i < |a| => ExposurePropensity(expit, roots, a[i]))
  }

  /** gamma is the odds ratio of observing A between A = 0 and A = 1. */
  lemma ExposureOddsRatio(expit: real -> real, theta: ExposureParams)
    requires IsProbabilityValued(expit) && theta.gamma > 0.0
    ensures ExposurePropensity(expit, theta, 1).Some? && ExposurePropensity(expit, theta, 1).value < 1.0
    ensures Odds(ExposurePropensity(expit, theta, 0).value) == theta.gamma * Odds(ExposurePropensity(expit, theta, 1).value)
  {
    OddsRatioBetweenLevels(expit(theta.alpha0), theta.gamma);
  }

  /** The column `W1 ** 2`. */
  function Squares(xs: seq<real>): (sq: seq<real>)
    ensures |sq| == |xs|
  {
    seq(|xs|, i requires 0 <= i < |xs| => xs[i] * xs[i])
  }

  /** The two instrument columns W1 and W1^2. */
  function ExposureInstruments(w1: seq<real>): (hs: seq<seq<real>>)
    ensures |hs| == 2 && Columns(hs, |w1|)
  {
    [w1, Squares(w1)]
  }

  /**
   * `shadowIpwFunctional_A`: the two residuals, for the instruments W1 and W1^2, of
   * the shadow-IPW moment with propensity pRA_1 evaluated at each row's (possibly
   * sentinel) A. A residual has a finite value exactly when the sample is non-empty
   * and every row's fitted propensity is usable.
   */
  function ShadowIpwA(expit: real -> real, theta: ExposureParams, w1: seq<real>, rA: seq<int>, a: seq<int>): (r: seq<Option<real>>)
    requires |w1| == |rA| == |a|
    ensures |r| == 2
    ensures forall k :: 0 <= k < 2 ==> (r[k].Some? <==> |a| > 0 && AllUsable(RootsPredictionA(expit, theta, a)))
  {
    var pRA1 := RootsPredictionA(expit, theta, a);
    Residuals(ExposureInstruments(w1), rA, pRA1)
  }

  /**
   * Residual k is the moment of instrument k under exactly the propensities
   * `rootsPrediction_A` returns: an inverse-probability-weighted balance of that
   * instrument over the observed rows against its total over all rows, per row.
   */
  lemma ExposureResidualsAreIpwBalance(expit: real -> real, theta: ExposureParams, w1: seq<real>, rA: seq<int>, a: seq<int>)
    requires |w1| == |rA| == |a| && |a| > 0 && Indicators(rA)
    requires AllUsable(RootsPredictionA(expit, theta, a))
    ensures var preds := RootsPredictionA(expit, theta, a);
      var hs := ExposureInstruments(w1);
      var r := ShadowIpwA(expit, theta, w1, rA, a);
      forall k :: 0 <= k < 2 ==> r[k] == Some(Imbalance(hs[k], rA, preds))
  {
    ResidualsAreIpwBalance(ExposureInstruments(w1), rA, RootsPredictionA(expit, theta, a));
  }

  /**
   * A root of the exposure system (both residuals zero) is a parameter value whose
   * fitted propensities reweight the observed rows to reproduce the sample totals of
   * W1 and of W1^2.
   */
  lemma ExposureRootBalances(expit: real -> real, theta: ExposureParams, w1: seq<real>, rA: seq<int>, a: seq<int>)
    requires |w1| == |rA| == |a| && Indicators(rA)
    requires ShadowIpwA(expit, theta, w1, rA, a) == [Some(0.0), Some(0.0)]
    ensures Balanced(ExposureInstruments(w1), rA, RootsPredictionA(expit, theta, a))
  {
    var r := ShadowIpwA(expit, theta, w1, rA, a);
    assert r[0].Some?;
    ResidualsVanishIff(ExposureInstruments(w1), rA, RootsPredictionA(expit, theta, a));
  }

  /**
   * The value stored in A on a row with R_A = 0 cannot change the residuals: two A
   * columns that agree on the observed rows give the same residuals, when expit is a
   * probability and gamma is positive.
   */
  lemma ExposureResidualsIgnoreUnobserved(expit: real -> real, theta: ExposureParams, w1: seq<real>, rA: seq<int>, a: seq<int>, a': seq<int>)
    requires |w1| == |rA| == |a| == |a'|
    requires IsProbabilityValued(expit) && theta.gamma > 0.0
    requires forall i :: 0 <= i < |rA| && rA[i] != 0 ==> a[i] == a'[i]
    ensures ShadowIpwA(expit, theta, w1, rA, a) == ShadowIpwA(expit, theta, w1, rA, a')
  {
    var p := RootsPredictionA(expit, theta, a);
    var q := RootsPredictionA(expit, theta, a');
    var hs := ExposureInstruments(w1);
    forall k | 0 <= k < 2 ensures Moment(hs[k], rA, p) == Moment(hs[k], rA, q) {
      MomentIgnoresMaskedPropensities(hs[k], rA, p, q);
    }
  }

  /**
   * The estimator run on the partially observed data gives the residuals it would give
   * on the fully observed data: the sentinel -1 is harmless.
   */
  lemma MaskingPreservesExposureResiduals(expit: real -> real, theta: ExposureParams, full: DataGenerator.Dataset)
    requires full.WellFormed() && IsProbabilityValued(expit) && theta.gamma > 0.0
    ensures ShadowIpwA(expit, theta, full.w1, full.rA, DataGenerator.Masked(full.a, full.rA))
         == ShadowIpwA(expit, theta, full.w1, full.rA, full.a)
  {
    ExposureResidualsIgnoreUnobserved(expit, theta, full.w1, full.rA, DataGenerator.Masked(full.a, full.rA), full.a);
  }
}
