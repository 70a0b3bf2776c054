/**
 * The outcome-missingness model: R_Y depends on Y itself and on the covariate W2. The
 * parameters are (alpha0, alpha1, gamma0, gamma1): expit(alpha0 + alpha1 * W2) is
 * p(R_Y = 1 | Y = 0, W2) and gamma0 + gamma1 * W2 is the odds ratio of being observed
 * between Y = 0 and Y = 1 at that W2. Four instruments built from the shadow W1 and
 * the covariate W2 make the system square.
 */
module OutcomeModel {
  import opened Wrappers
  import opened OddsRatio
  import opened ShadowMoment
  import DataGenerator

  /** The unknowns of the outcome model, in the order the source's parameter list holds them. */
  datatype OutcomeParams = OutcomeParams(alpha0: real, alpha1: real, gamma0: real, gamma1: real)

  /** The odds-ratio term `gamma0 + gamma1 * W2` of one row. */
  function OddsTerm(theta: OutcomeParams, w2: real): real
  {
    theta.gamma0 + theta.gamma1 * w2
  }

  /** The odds-ratio term is positive on every row. */
  predicate PositiveOdds(theta: OutcomeParams, w2: seq<real>)
  {
    forall i :: 0 <= i < |w2| ==> OddsTerm(theta, w2[i]) > 0.0
  }

  /** The baseline p(R_Y = 1 | Y = 0, W2 = w2) = expit(alpha0 + alpha1 * w2). */
  function OutcomeBaseline(expit: real -> real, theta: OutcomeParams, w2: real): real
  {
    expit(theta.alpha0 + theta.alpha1 * w2)
  }

  /** p(R_Y = 1 | Y = y, W2 = w2) under the odds-ratio parametrisation. */
  function OutcomePropensity(expit: real -> real, theta: OutcomeParams, w2: real, y: int): Option<real>
  {
    Propensity(OutcomeBaseline(expit, theta, w2), OddsTerm(theta, w2), y)
  }

  /**
   * `rootsPrediction_Y`: the fitted probability of observing Y, row by row. At the
   * reference level Y = 0 it is the baseline expit(alpha0 + alpha1 * W2); with a
   * positive odds-ratio term on every row each prediction is strictly inside (0, 1).
   */
  function RootsPredictionY(expit: real -> real, roots: OutcomeParams, w2: seq<real>, y: seq<int>): (preds: seq<Option<real>>)
    requires |w2| == |y|
    ensures |preds| == |y|
    ensures forall i :: 0 <= i < |y| && y[i] == 0 ==> preds[i] == Some(OutcomeBaseline(expit, roots, w2[i]))
    ensures IsProbabilityValued(expit) && PositiveOdds(roots, w2) ==>
      forall i :: 0 <= i < |y| ==> preds[i].Some? && 0.0 < preds[i].value < 1.0
  {
    seq(|y|, i requires 0 <= i < |y| => OutcomePropensity(expit, roots, w2[i], y[i]))
  }

  /** At every W2, gamma0 + gamma1 * W2 is the odds ratio of observing Y between Y = 0 and Y = 1. */
  lemma OutcomeOddsRatio(expit: real -> real, theta: OutcomeParams, w2: real)
    requires IsProbabilityValued(expit) && OddsTerm(theta, w2) > 0.0
    ensures OutcomePropensity(expit, theta, w2, 1).Some? && OutcomePropensity(expit, theta, w2, 1).value < 1.0
    ensures Odds(OutcomePropensity(expit, theta, w2, 0).value)
         == OddsTerm(theta, w2) * Odds(OutcomePropensity(expit, theta, w2, 1).value)
  {
    OddsRatioBetweenLevels(OutcomeBaseline(expit, theta, w2), OddsTerm(theta, w2));
  }

  /** The four instrument columns W1*W2, W1*W2 + 1, W1*W2^2 and W1*W2^2 + 1. */
  function Instruments(w1: seq<real>, w2: seq<real>): (hs: seq<seq<real>>)
    requires |w1| == |w2|
    ensures |hs| == 4 && Columns(hs, |w1|)
  {
    var n := |w1|;
    [seq(n, i requires 0 <= i < n => w1[i] * w2[i]),
     seq(n, i requires 0 <= i < n => w1[i] * w2[i] + 1.0),
     seq(n, i requires 0 <= i < n => w1[i] * (w2[i] * w2[i])),
     seq(n, i requires 0 <= i < n => w1[i] * (w2[i] * w2[i]) + 1.0)]
  }

  /**
   * `shadowIpwFunctional_Y`: the four residuals, one per instrument, of the shadow-IPW
   * moment with propensity pRY_1 evaluated at each row's (possibly sentinel) Y and W2.
   * A residual has a finite value exactly when the sample is non-empty and every row's
   * fitted propensity is usable.
   */
  function ShadowIpwY(expit: real -> real, theta: OutcomeParams, w1: seq<real>, w2: seq<real>, rY: seq<int>, y: seq<int>): (r: seq<Option<real>>)
    requires |w1| == |w2| == |rY| == |y|
    ensures |r| == 4
    ensures forall k :: 0 <= k < 4 ==> (r[k].Some? <==> |y| > 0 && AllUsable(RootsPredictionY(expit, theta, w2, y)))
  {
    var pRY1 := RootsPredictionY(expit, theta, w2, y);
    Residuals(Instruments(w1, w2), rY, pRY1)
  }

  /**
   * Residual k is the moment of instrument k under exactly the propensities
   * `rootsPrediction_Y` returns: an inverse-probability-weighted balance of that
   * instrument over the observed rows against its total over all rows, per row.
   */
  lemma OutcomeResidualsAreIpwBalance(expit: real -> real, theta: OutcomeParams, w1: seq<real>, w2: seq<real>, rY: seq<int>, y: seq<int>)
    requires |w1| == |w2| == |rY| == |y| && |y| > 0 && Indicators(rY)
    requires AllUsable(RootsPredictionY(expit, theta, w2, y))
    ensures var preds := RootsPredictionY(expit, theta, w2, y);
      var hs := Instruments(w1, w2);
      var r := ShadowIpwY(expit, theta, w1, w2, rY, y);
      forall k :: 0 <= k < 4 ==> r[k] == Some(Imbalance(hs[k], rY, preds))
  {
    ResidualsAreIpwBalance(Instruments(w1, w2), rY, RootsPredictionY(expit, theta, w2, y));
  }

  /**
   * A root of the outcome system (all four residuals zero) reweights the observed rows
   * so that every instrument's total over all rows is reproduced.
   */
  lemma OutcomeRootBalances(expit: real -> real, theta: OutcomeParams, w1: seq<real>, w2: seq<real>, rY: seq<int>, y: seq<int>)
    requires |w1| == |w2| == |rY| == |y| && Indicators(rY)
    requires ShadowIpwY(expit, theta, w1, w2, rY, y) == [Some(0.0), Some(0.0), Some(0.0), Some(0.0)]
    ensures Balanced(Instruments(w1, w2), rY, RootsPredictionY(expit, theta, w2, y))
  {
    var r := ShadowIpwY(expit, theta, w1, w2, rY, y);
    assert r[0].Some?;
    ResidualsVanishIff(Instruments(w1, w2), rY, RootsPredictionY(expit, theta, w2, y));
  }

  /**
   * The value stored in Y on a row with R_Y = 0 cannot change the residuals, when expit
   * is a probability and the odds-ratio term is positive on every row.
   */
  lemma OutcomeResidualsIgnoreUnobserved(expit: real -> real, theta: OutcomeParams, w1: seq<real>, w2: seq<real>, rY: seq<int>, y: seq<int>, y': seq<int>)
    requires |w1| == |w2| == |rY| == |y| == |y'|
    requires IsProbabilityValued(expit) && PositiveOdds(theta, w2)
    requires forall i :: 0 <= i < |rY| && rY[i] != 0 ==> y[i] == y'[i]
    ensures ShadowIpwY(expit, theta, w1, w2, rY, y) == ShadowIpwY(expit, theta, w1, w2, rY, y')
  {
    var p := RootsPredictionY(expit, theta, w2, y);
    var q := RootsPredictionY(expit, theta, w2, y');
    var hs := Instruments(w1, w2);
    forall k | 0 <= k < 4 ensures Moment(hs[k], rY, p) == Moment(hs[k], rY, q) {
      MomentIgnoresMaskedPropensities(hs[k], rY, p, q);
    }
  }

  /** On the partially observed data the outcome residuals are those of the fully observed data. */
  lemma MaskingPreservesOutcomeResiduals(expit: real -> real, theta: OutcomeParams, full: DataGenerator.Dataset)
    requires full.WellFormed() && IsProbabilityValued(expit) && PositiveOdds(theta, full.w2)
    ensures ShadowIpwY(expit, theta, full.w1, full.w2, full.rY, DataGenerator.Masked(full.y, full.rY))
         == ShadowIpwY(expit, theta, full.w1, full.w2, full.rY, full.y)
  {
    OutcomeResidualsIgnoreUnobserved(expit, theta, full.w1, full.w2, full.rY, DataGenerator.Masked(full.y, full.rY), full.y);
  }
}
