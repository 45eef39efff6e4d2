// The one-pass variance of var_of_trial_sharpes
// (src/edge/research/registry.py:411-429) against the two-pass sample variance.
module Welford {
  import opened Common

  function Total(xs: seq<real>): real {
    if xs == [] then 0.0 else Total(xs[..|xs| - 1]) + xs[|xs| - 1]
  }

  function Mean(xs: seq<real>): real {
    if xs == [] then 0.0 else Total(xs) / (|xs| as real)
  }

  function Square(x: real): real {
    x * x
  }

  /** Sum of squared deviations from c. */
  function Deviation(xs: seq<real>, c: real): real {
    if xs == [] then 0.0 else Deviation(xs[..|xs| - 1], c) + Square(xs[|xs| - 1] - c)
  }

  /** Two passes: the mean first, then the squared deviations from it, over n - 1. */
  function SampleVariance(xs: seq<real>): real {
    if |xs| < 2 then 0.0 else Deviation(xs, Mean(xs)) / ((|xs| - 1) as real)
  }

  /** The numeric values, in order; the others are skipped. */
  function Numeric(xs: seq<Option<real>>): seq<real> {
    if xs == [] then []
    else
      var rest := Numeric(xs[..|xs| - 1]);
      match xs[|xs| - 1]
      case None => rest
      case Some(x) => rest + [x]
  }

  lemma OneShift(x: real, m: real, c: real)
    ensures Square(x - c) == Square(x - m) + 2.0 * Times(m - c, x - m) + Square(m - c)
  {
    var a, b := x - m, m - c;
    assert x - c == a + b;
    assert (a + b) * (a + b) == a * a + 2.0 * (b * a) + b * b;
  }

  lemma TimesOne(b: real)
    ensures Times(1.0, b) == b
  {
  }

  /** How far the total is from n times m. */
  function Excess(xs: seq<real>, m: real): real {
    Total(xs) - Times(|xs| as real, m)
  }

  lemma ExcessStep(xs: seq<real>, m: real)
    requires xs != []
    ensures Excess(xs, m) == Excess(xs[..|xs| - 1], m) + (xs[|xs| - 1] - m)
  {
    hide Times;
    TimesAdds(m, (|xs| - 1) as real, 1.0);
    TimesOne(m);
    assert (|xs| as real) == ((|xs| - 1) as real) + 1.0;
  }

  /** Deviations from c in terms of deviations from m. */
  lemma {:induction false} DeviationShift(xs: seq<real>, m: real, c: real)
    ensures Deviation(xs, c) ==
            Deviation(xs, m) + 2.0 * Times(m - c, Excess(xs, m)) + Times(|xs| as real, Square(m - c))
  {
    if xs == [] {
      assert Excess(xs, m) == 0.0;
    } else {
      hide Square, Times, Excess;
      var n := |xs| - 1;
      DeviationShift(xs[..n], m, c);
      OneShift(xs[n], m, c);
      ExcessStep(xs, m);
      TimesAdds(m - c, Excess(xs[..n], m), xs[n] - m);
      TimesAdds(Square(m - c), n as real, 1.0);
      TimesOne(Square(m - c));
      assert (|xs| as real) == (n as real) + 1.0;
    }
  }

  lemma MeanTimes(xs: seq<real>)
    ensures Excess(xs, Mean(xs)) == 0.0
  {
  }

  lemma MeanUnique(xs: seq<real>, m: real)
    requires xs != [] && Excess(xs, m) == 0.0
    ensures Mean(xs) == m
  {
  }

  /** e is the step of the mean, d the distance of the new value. */
  lemma StepAlgebra(d: real, e: real, n: real)
    requires Times(n + 1.0, e) == d
    ensures Times(n, Square(-e)) + Square(d - e) == Times(d, d - e)
  {
    assert (n + 1.0) * e * e == d * e;
    assert (n + 1.0) * e * e == n * (e * e) + e * e;
    assert (d - e) * (d - e) == d * d - 2.0 * (d * e) + e * e;
    assert d * (d - e) == d * d - d * e;
  }

  function Share(d: real, n: nat): real
    requires n >= 1
  {
    d / (n as real)
  }

  /** The mean after one more value, the n-th. */
  function NextMean(mean: real, x: real, n: nat): real
    requires n >= 1
  {
    mean + Share(x - mean, n)
  }

  lemma ShareTimes(d: real, n: nat)
    ensures Times((n as real) + 1.0, Share(d, n + 1)) == d
  {
  }

  /** One turn of the streaming loop. */
  lemma WelfordStep(xs: seq<real>, x: real, mean: real)
    requires mean == NextMean(Mean(xs), x, |xs| + 1)
    ensures mean == Mean(xs + [x])
    ensures Deviation(xs, Mean(xs)) + Times(x - Mean(xs), x - mean) == Deviation(xs + [x], mean)
  {
    hide Times, Square, Excess, Mean, Share, Deviation, Total;
    var e := Share(x - Mean(xs), |xs| + 1);
    ShareTimes(x - Mean(xs), |xs|);
    NewMean(xs, x, e);
    NewDeviation(xs, x, e, mean);
  }

  lemma NewDeviation(xs: seq<real>, x: real, e: real, mean: real)
    requires Times((|xs| as real) + 1.0, e) == x - Mean(xs)
    requires mean == Mean(xs) + e
    ensures Deviation(xs, Mean(xs)) + Times(x - Mean(xs), x - mean) == Deviation(xs + [x], mean)
  {
    hide Times, Square, Excess, Mean;
    var m := Mean(xs);
    assert (xs + [x])[..|xs|] == xs;
    MeanTimes(xs);
    DeviationShift(xs, m, mean);
    TimesZero(m - mean);
    StepAlgebra(x - m, e, |xs| as real);
    assert m - mean == -e && x - mean == x - m - e;
  }

  lemma TimesZero(b: real)
    ensures Times(b, 0.0) == 0.0
  {
  }

  lemma NewMean(xs: seq<real>, x: real, e: real)
    requires Times((|xs| as real) + 1.0, e) == x - Mean(xs)
    ensures Mean(xs + [x]) == Mean(xs) + e
  {
    hide Times, Mean, Excess;
    var all, m := xs + [x], Mean(xs);
    assert all[..|xs|] == xs;
    MeanTimes(xs);
    ExcessStep(all, m);
    ExcessMoves(all, m, e);
    assert (|all| as real) == (|xs| as real) + 1.0;
    MeanUnique(all, m + e);
  }

  lemma ExcessMoves(xs: seq<real>, m: real, e: real)
    ensures Excess(xs, m + e) == Excess(xs, m) - Times(|xs| as real, e)
  {
    TimesAdds(|xs| as real, m, e);
    hide Times;
  }

  lemma EmptyStart()
    ensures Mean([]) == 0.0 && Deviation([], 0.0) == 0.0
  {
  }

  /** The streaming loop over a prefix: count, mean and squared deviations. */
  method Variance(values: seq<Option<real>>) returns (v: real)
    ensures v == SampleVariance(Numeric(values)) && v >= 0.0
  {
    VarianceNonNegative(Numeric(values));
    hide Mean, Times, Deviation, Share;
    EmptyStart();
    var n, mean, m2 := 0, 0.0, 0.0;
    for i := 0 to |values|
      invariant n == |Numeric(values[..i])|
      invariant mean == Mean(Numeric(values[..i]))
      invariant m2 == Deviation(Numeric(values[..i]), mean)
    {
      assert values[..i + 1][..i] == values[..i];
      if values[i].Some? {
        var x := values[i].value;
        WelfordStep(Numeric(values[..i]), x, NextMean(mean, x, n + 1));
        n := n + 1;
        var delta := x - mean;
        mean := mean + Share(delta, n);
        m2 := m2 + Times(delta, x - mean);
      }
    }
    assert values[..|values|] == values;
    v := if n > 1 then m2 / ((n - 1) as real) else 0.0;
  }

  /** A variance is never negative. */
  lemma VarianceNonNegative(xs: seq<real>)
    ensures SampleVariance(xs) >= 0.0
  {
    DeviationNonNegative(xs, Mean(xs));
  }

  lemma SquareNonNegative(x: real)
    ensures Square(x) >= 0.0
  {
    if x >= 0.0 {
      ProductNonNegative(x, x);
    } else {
      ProductNonNegative(-x, -x);
      assert x * x == (-x) * (-x);
    }
  }

  lemma {:induction false} DeviationNonNegative(xs: seq<real>, c: real)
    ensures Deviation(xs, c) >= 0.0
  {
    if xs != [] {
      DeviationNonNegative(xs[..|xs| - 1], c);
      SquareNonNegative(xs[|xs| - 1] - c);
    }
  }
}
