/**
 * The shadow-IPW moment shared by both estimating-equation systems. For an
 * instrument column h (a function of the fully observed shadow variables), an
 * indicator column R and a column of propensities p, each row contributes
 *     h * R / p - h
 * and the moment is the average of the contributions over all rows. A row whose
 * propensity has no finite value, or is zero, has no finite contribution (numpy
 * gives nan or inf), and then neither has the moment.
 */
module ShadowMoment {
  import opened Wrappers
  import opened Averages

  /** A propensity the moment can divide by. */
  predicate Usable(p: Option<real>)
  {
    p.Some? && p.value != 0.0
  }

  /** Every row of a propensity column is usable. */
  predicate AllUsable(ps: seq<Option<real>>)
  {
    forall i :: 0 <= i < |ps| ==> Usable(ps[i])
  }

  /** Every entry of a missingness-indicator column is 0 or 1. */
  predicate Indicators(rs: seq<int>)
  {
    forall i :: 0 <= i < |rs| ==> rs[i] == 0 || rs[i] == 1
  }

  /**
   * One row's contribution `h * R / p - h`. A masked row (R = 0) contributes
   * exactly -h, whatever its propensity, as long as that propensity is usable.
   */
  function Contribution(h: real, r: int, p: Option<real>): (c: Option<real>)
    ensures c.Some? <==> Usable(p)
    ensures c.Some? && r == 0 ==> c.value == -h
  {
    match p
    case None => None
    case Some(q) => if q == 0.0 then None else Some(h * (r as real) / q - h)
  }

  /** The column of contributions; it is defined exactly when every row's propensity is usable. */
  function Contributions(hs: seq<real>, rs: seq<int>, ps: seq<Option<real>>): (cs: Option<seq<real>>)
    requires |hs| == |rs| == |ps|
    ensures cs.Some? <==> AllUsable(ps)
    ensures cs.Some? ==> |cs.value| == |hs|
    ensures cs.Some? ==> forall i :: 0 <= i < |hs| ==> Contribution(hs[i], rs[i], ps[i]) == Some(cs.value[i])
  {
    if |hs| == 0 then Some([])
    else
      var head := Contribution(hs[0], rs[0], ps[0]);
      var tail := Contributions(hs[1..], rs[1..], ps[1..]);
      assert AllUsable(ps) <==> Usable(ps[0]) && AllUsable(ps[1..]) by {
        assert forall i :: 1 <= i < |ps| ==> ps[1..][i - 1] == ps[i];
      }
      if head.Some? && tail.Some? then Some([head.value] + tail.value) else None
  }

  /** The moment: the average of the contributions (`np.average(h * R / p - h)`). */
  function Moment(hs: seq<real>, rs: seq<int>, ps: seq<Option<real>>): (m: Option<real>)
    requires |hs| == |rs| == |ps|
    ensures m.Some? <==> |hs| > 0 && AllUsable(ps)
  {
    match Contributions(hs, rs, ps)
    case None => None
    case Some(cs) => Average(cs)
  }

  /** The instrument columns all have one entry per row. */
  predicate Columns(hs: seq<seq<real>>, n: nat)
  {
    forall k :: 0 <= k < |hs| ==> |hs[k]| == n
  }

  /**
   * A residual vector: one moment per instrument column, all under the same indicators
   * and propensities. Each residual is defined exactly when the sample is non-empty and
   * every propensity is usable.
   */
  function Residuals(hs: seq<seq<real>>, rs: seq<int>, ps: seq<Option<real>>): (r: seq<Option<real>>)
    requires Columns(hs, |rs|) && |rs| == |ps|
    ensures |r| == |hs|
    ensures forall k :: 0 <= k < |hs| ==> (r[k].Some? <==> |rs| > 0 && AllUsable(ps))
  {
    seq(|hs|, k requires 0 <= k < |hs| => Moment(hs[k], rs, ps))
  }

  /**
   * The inverse-probability-weighted total of the instrument over the observed rows:
   * the sum of h / p over the rows with R = 1.
   */
  function ObservedIpwTotal(hs: seq<real>, rs: seq<int>, ps: seq<Option<real>>): real
    requires |hs| == |rs| == |ps| && AllUsable(ps)
  {
    if |hs| == 0 then 0.0
    else (if rs[0] == 1 then hs[0] / ps[0].value else 0.0) + ObservedIpwTotal(hs[1..], rs[1..], ps[1..])
  }

  /**
   * The per-row imbalance of an instrument: its weighted observed total minus its
   * total over all rows, divided by the number of rows.
   */
  function Imbalance(hs: seq<real>, rs: seq<int>, ps: seq<Option<real>>): real
    requires |hs| == |rs| == |ps| && |hs| > 0 && AllUsable(ps)
  {
    (ObservedIpwTotal(hs, rs, ps) - Sum(hs)) / (|hs| as real)
  }

  /**
   * With 0/1 indicators the contributions add up to the weighted total over the
   * observed rows minus the plain total over all rows.
   */
  lemma {:induction false} ContributionsSum(hs: seq<real>, rs: seq<int>, ps: seq<Option<real>>)
    requires |hs| == |rs| == |ps| && Indicators(rs) && AllUsable(ps)
    ensures Contributions(hs, rs, ps).Some?
    ensures Sum(Contributions(hs, rs, ps).value) == ObservedIpwTotal(hs, rs, ps) - Sum(hs)
  {
    if |hs| > 0 {
      assert Indicators(rs[1..]) && AllUsable(ps[1..]) by {
        assert forall i :: 1 <= i < |hs| ==> rs[1..][i - 1] == rs[i] && ps[1..][i - 1] == ps[i];
      }
      ContributionsSum(hs[1..], rs[1..], ps[1..]);
      var cs := Contributions(hs, rs, ps).value;
      var rest := Contributions(hs[1..], rs[1..], ps[1..]).value;
      assert cs[1..] == rest;
      RowContribution(hs[0], rs[0], ps[0]);
    }
  }

  /** Helper for ContributionsSum: the contribution of a row with a 0/1 indicator. */
  lemma RowContribution(h: real, r: int, p: Option<real>)
    requires (r == 0 || r == 1) && Usable(p)
    ensures Contribution(h, r, p) == Some((if r == 1 then h / p.value else 0.0) - h)
  {
  }

  /** With every row masked the weighted observed total is zero. */
  lemma {:induction false} ObservedIpwTotalAllMasked(hs: seq<real>, rs: seq<int>, ps: seq<Option<real>>)
    requires |hs| == |rs| == |ps| && AllUsable(ps)
    requires forall i :: 0 <= i < |rs| ==> rs[i] == 0
    ensures ObservedIpwTotal(hs, rs, ps) == 0.0
  {
    if |hs| > 0 {
      assert AllUsable(ps[1..]) by {
        assert forall i :: 1 <= i < |ps| ==> ps[1..][i - 1] == ps[i];
      }
      ObservedIpwTotalAllMasked(hs[1..], rs[1..], ps[1..]);
    }
  }

  /**
   * What the moment measures: on a non-empty sample with 0/1 indicators and usable
   * propensities it is (weighted observed total - total) / n.
   */
  lemma MomentIsIpwBalance(hs: seq<real>, rs: seq<int>, ps: seq<Option<real>>)
    requires |hs| == |rs| == |ps| && |hs| > 0 && Indicators(rs) && AllUsable(ps)
    ensures Moment(hs, rs, ps) == Some(Imbalance(hs, rs, ps))
  {
    ContributionsSum(hs, rs, ps);
  }

  /**
   * Nothing requires an observed row: with every row masked the moment is minus the
   * instrument's mean, whatever the (usable) propensities are.
   */
  lemma MomentAllMasked(hs: seq<real>, rs: seq<int>, ps: seq<Option<real>>)
    requires |hs| == |rs| == |ps| && |hs| > 0 && AllUsable(ps)
    requires forall i :: 0 <= i < |rs| ==> rs[i] == 0
    ensures Moment(hs, rs, ps).Some? && Moment(hs, rs, ps).value == -(Sum(hs) / (|hs| as real))
  {
    assert Indicators(rs);
    MomentIsIpwBalance(hs, rs, ps);
    ImbalanceAllMasked(hs, rs, ps);
  }

  /** Helper for MomentAllMasked: with every row masked the imbalance is minus the mean. */
  lemma ImbalanceAllMasked(hs: seq<real>, rs: seq<int>, ps: seq<Option<real>>)
    requires |hs| == |rs| == |ps| && |hs| > 0 && AllUsable(ps)
    requires forall i :: 0 <= i < |rs| ==> rs[i] == 0
    ensures Imbalance(hs, rs, ps) == -(Sum(hs) / (|hs| as real))
  {
    ObservedIpwTotalAllMasked(hs, rs, ps);
    NegatedQuotient(Sum(hs), |hs| as real);
  }

  /** Helper for ImbalanceAllMasked: `(0 - s) / n == -(s / n)`. */
  lemma NegatedQuotient(s: real, n: real)
    requires n > 0.0
    ensures (0.0 - s) / n == -(s / n)
  {
    assert (s / n) * n == s;
    assert (-(s / n)) * n == 0.0 - s;
  }

  /**
   * The moment vanishes exactly when inverse-probability weighting the observed rows
   * reproduces the instrument's total over all rows.
   */
  lemma MomentVanishesIff(hs: seq<real>, rs: seq<int>, ps: seq<Option<real>>)
    requires |hs| == |rs| == |ps| && |hs| > 0 && Indicators(rs) && AllUsable(ps)
    ensures Moment(hs, rs, ps) == Some(0.0) <==> ObservedIpwTotal(hs, rs, ps) == Sum(hs)
  {
    ContributionsSum(hs, rs, ps);
    AverageZeroIff(Contributions(hs, rs, ps).value);
  }

  /**
   * The propensity of a masked row never matters: two propensity columns that agree
   * on every row with R != 0, and are usable everywhere, give the same moment.
   */
  lemma MomentIgnoresMaskedPropensities(hs: seq<real>, rs: seq<int>, ps: seq<Option<real>>, qs: seq<Option<real>>)
    requires |hs| == |rs| == |ps| == |qs|
    requires AllUsable(ps) && AllUsable(qs)
    requires forall i :: 0 <= i < |rs| && rs[i] != 0 ==> ps[i] == qs[i]
    ensures Moment(hs, rs, ps) == Moment(hs, rs, qs)
  {
    var cp := Contributions(hs, rs, ps).value;
    var cq := Contributions(hs, rs, qs).value;
    assert forall i :: 0 <= i < |hs| ==> cp[i] == cq[i] by {
      forall i | 0 <= i < |hs| ensures cp[i] == cq[i] {
        assert Contribution(hs[i], rs[i], ps[i]) == Some(cp[i]);
        assert Contribution(hs[i], rs[i], qs[i]) == Some(cq[i]);
      }
    }
    assert cp == cq;
  }

  /** Every instrument is balanced: its weighted observed total equals its total over all rows. */
  predicate Balanced(hs: seq<seq<real>>, rs: seq<int>, ps: seq<Option<real>>)
    requires Columns(hs, |rs|) && |rs| == |ps|
  {
    AllUsable(ps) && forall k :: 0 <= k < |hs| ==> ObservedIpwTotal(hs[k], rs, ps) == Sum(hs[k])
  }

  /** Every residual measures the weighted-observed-total versus total balance of its instrument. */
  lemma ResidualsAreIpwBalance(hs: seq<seq<real>>, rs: seq<int>, ps: seq<Option<real>>)
    requires Columns(hs, |rs|) && |rs| == |ps| && |rs| > 0 && Indicators(rs) && AllUsable(ps)
    ensures forall k :: 0 <= k < |hs| ==>
      Residuals(hs, rs, ps)[k] == Some(Imbalance(hs[k], rs, ps))
  {
    forall k | 0 <= k < |hs|
      ensures Residuals(hs, rs, ps)[k] == Some(Imbalance(hs[k], rs, ps))
    {
      MomentIsIpwBalance(hs[k], rs, ps);
    }
  }

  /** A residual vector is all zeros exactly when every instrument is balanced. */
  lemma ResidualsVanishIff(hs: seq<seq<real>>, rs: seq<int>, ps: seq<Option<real>>)
    requires Columns(hs, |rs|) && |rs| == |ps| && |rs| > 0 && Indicators(rs) && AllUsable(ps)
    ensures (forall k :: 0 <= k < |hs| ==> Residuals(hs, rs, ps)[k] == Some(0.0)) <==> Balanced(hs, rs, ps)
  {
    forall k | 0 <= k < |hs|
      ensures Residuals(hs, rs, ps)[k] == Some(0.0) <==> ObservedIpwTotal(hs[k], rs, ps) == Sum(hs[k])
    {
      MomentVanishesIff(hs[k], rs, ps);
    }
  }
}
