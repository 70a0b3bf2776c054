/**
 * Column reductions. `np.average` without weights is the sum of a column divided by
 * its length; over exact reals the order of summation does not matter.
 */
module Averages {
  import opened Wrappers

  /** Sum of a column, first element first. */
  function Sum(xs: seq<real>): real
  {
    if |xs| == 0 then 0.0 else xs[0] + Sum(xs[1..])
  }

  /**
   * `np.average(xs)`: the arithmetic mean. An empty column has no mean (numpy
   * answers nan), so the result is None exactly then.
   */
  function Average(xs: seq<real>): (m: Option<real>)
    ensures m.Some? <==> |xs| > 0
    ensures m.Some? ==> m.value * (|xs| as real) == Sum(xs)
  {
    if |xs| == 0 then None else Some(Sum(xs) / (|xs| as real))
  }

  /** The mean of a non-empty column vanishes exactly when its sum does. */
  lemma AverageZeroIff(xs: seq<real>)
    requires |xs| > 0
    ensures Average(xs) == Some(0.0) <==> Sum(xs) == 0.0
  {
    var n := |xs| as real;
    var m := Sum(xs) / n;
    assert m * n == Sum(xs);
    if m != 0.0 {
      assert m > 0.0 ==> m * n > 0.0;
      assert m < 0.0 ==> m * n < 0.0;
    }
  }
}
