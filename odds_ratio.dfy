/**
 * The odds-ratio parametrisation of the probability of being observed.
 *
 * A baseline probability `b` is the probability of R = 1 at the reference level 0 of
 * the self-censored variable. At level `a` the probability is
 *     b / (b + odds^a * (1 - b)),
 * so that `odds` is the odds ratio between consecutive levels. The baseline is
 * `expit(...)` in the source; it is a parameter here, and the only thing assumed of
 * expit is that it maps every real into the open interval (0, 1).
 */
module OddsRatio {
  import opened Wrappers

  /** What is assumed of `scipy.special.expit`: every value is a probability strictly inside (0, 1). */
  ghost predicate IsProbabilityValued(expit: real -> real)
  {
    forall x :: 0.0 < expit(x) < 1.0
  }

  /** `t ** n` for a natural exponent, by repeated multiplication. */
  function Pow(t: real, n: nat): (r: real)
    ensures t > 0.0 ==> r > 0.0
    ensures t != 0.0 ==> r != 0.0
  {
    if n == 0 then 1.0 else t * Pow(t, n - 1)
  }

  /**
   * `odds ** level`: a float raised to an integer code, as numpy evaluates it. A
   * negative power of zero has no finite value (numpy gives inf), hence None.
   */
  function OddsPower(odds: real, level: int): (r: Option<real>)
    ensures r.Some? <==> level >= 0 || odds != 0.0
    ensures level == 0 ==> r == Some(1.0)
    ensures level == 1 ==> r == Some(odds)
    ensures level == -1 && odds != 0.0 ==> r == Some(1.0 / odds)
    ensures odds > 0.0 ==> r.Some? && r.value > 0.0
  {
    if level >= 0 then
      assert Pow(odds, 1) == odds * Pow(odds, 0);
      Some(Pow(odds, level))
    else if odds == 0.0 then None
    else
      assert Pow(odds, 1) == odds * Pow(odds, 0);
      Some(1.0 / Pow(odds, -level))
  }

  /**
   * The quotient `b / (b + t * (1 - b))` for a baseline `b` and a power `t` of the odds;
   * None when the denominator vanishes.
   */
  function Quotient(baseline: real, t: real): (q: Option<real>)
    ensures t == 1.0 ==> q == Some(baseline)
    ensures 0.0 < baseline < 1.0 && t > 0.0 ==> q.Some? && 0.0 < q.value < 1.0
  {
    var denominator := baseline + t * (1.0 - baseline);
    if denominator == 0.0 then None
    else
      QuotientFacts(baseline, t);
      Some(baseline / denominator)
  }

  /** Helper for Quotient: the value at power 1, and the range for a positive power. */
  lemma QuotientFacts(baseline: real, t: real)
    requires baseline + t * (1.0 - baseline) != 0.0
    ensures t == 1.0 ==> baseline / (baseline + t * (1.0 - baseline)) == baseline
    ensures 0.0 < baseline < 1.0 && t > 0.0 ==> 0.0 < baseline / (baseline + t * (1.0 - baseline)) < 1.0
  {
    var d := baseline + t * (1.0 - baseline);
    if t == 1.0 {
      assert d == 1.0;
    }
    if 0.0 < baseline < 1.0 && t > 0.0 {
      assert t * (1.0 - baseline) > 0.0;
      assert 0.0 < baseline < d;
      assert (baseline / d) * d == baseline;
    }
  }

  /**
   * Probability of being observed at `level`, given the baseline probability at level 0:
   * `b / (b + odds**level * (1 - b))`. None when the power or the quotient has no
   * finite value.
   */
  function Propensity(baseline: real, odds: real, level: int): (p: Option<real>)
    ensures level == 0 ==> p == Some(baseline)
    ensures 0.0 < baseline < 1.0 && odds > 0.0 ==> p.Some? && 0.0 < p.value < 1.0
  {
    match OddsPower(odds, level)
    case None => None
    case Some(t) => Quotient(baseline, t)
  }

  /** The odds `p / (1 - p)` of a probability other than 1. */
  function Odds(p: real): real
    requires p != 1.0
  {
    p / (1.0 - p)
  }

  /**
   * What the parametrisation means: at every level, the baseline odds equal
   * `odds**level` times the odds of the propensity at that level.
   */
  lemma OddsRatioMeaning(baseline: real, odds: real, level: int)
    requires 0.0 < baseline < 1.0 && odds > 0.0
    ensures OddsPower(odds, level).Some? && Propensity(baseline, odds, level).Some?
    ensures Propensity(baseline, odds, level).value < 1.0
    ensures Odds(baseline) == OddsPower(odds, level).value * Odds(Propensity(baseline, odds, level).value)
  {
    var t := OddsPower(odds, level).value;
    assert Propensity(baseline, odds, level) == Quotient(baseline, t);
    QuotientOdds(baseline, t);
  }

  /** Helper for OddsRatioMeaning: `b / (1 - b) == t * (p / (1 - p))` for `p = b / (b + t * (1 - b))`. */
  lemma QuotientOdds(baseline: real, t: real)
    requires 0.0 < baseline < 1.0 && t > 0.0
    ensures var p := baseline / (baseline + t * (1.0 - baseline));
      p < 1.0 && baseline / (1.0 - baseline) == t * (p / (1.0 - p))
  {
    var q := 1.0 - baseline;
    var d := baseline + t * (1.0 - baseline);
    assert t * q == t * (1.0 - baseline);
    assert t * q > 0.0 && d > 0.0;
    QuotientFacts(baseline, t);
    var p := baseline / (baseline + t * (1.0 - baseline));
    assert 0.0 < p < 1.0;
    assert p * d == baseline;
    assert (1.0 - p) * d == t * q;
    var o := p / (1.0 - p);
    assert o * (1.0 - p) == p;
    assert (t * o) * q == baseline by {
      assert o * ((1.0 - p) * d) == p * d;
    }
    assert t * o == baseline / q;
  }

  /** `odds` is the odds ratio of being observed between level 0 and level 1. */
  lemma OddsRatioBetweenLevels(baseline: real, odds: real)
    requires 0.0 < baseline < 1.0 && odds > 0.0
    ensures Propensity(baseline, odds, 1).Some? && Propensity(baseline, odds, 1).value < 1.0
    ensures Odds(Propensity(baseline, odds, 0).value) == odds * Odds(Propensity(baseline, odds, 1).value)
  {
    OddsRatioMeaning(baseline, odds, 1);
  }
}
