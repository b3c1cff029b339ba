/** The rolling mean and variance of LocalAnalyzer (include/ids_level0.hpp:16-32, 100-118). */
module LocalStats {
  import opened WeightedStats

  const FEATURES := 6

  type Features = s: seq<real> | |s| == FEATURES witness [0.0, 0.0, 0.0, 0.0, 0.0, 0.0]

  function Min(a: nat, b: nat): nat {
    if a < b then a else b
  }

  /** The weight of the newest value when it is number n of its history: the buffer holds the
      value itself already and never more than `window` events. */
  function Gain(window: nat, n: nat): (a: real)
    ensures 0.0 <= a <= 1.0
  {
    Reciprocal(Min(n, window) + 1)
  }

  /** Mean and variance after a whole history, by the exponential update. */
  function Stats(window: nat, xs: seq<real>): (real, real)
    decreases |xs|
  {
    if xs == [] then (0.0, 0.0)
    else
      var (m, v) := Stats(window, xs[..|xs| - 1]);
      var a, x := Gain(window, |xs|), xs[|xs| - 1];
      (MeanStep(a, m, x), VarianceStep(a, m, v, x))
  }

  /** The weights of the history: uniform while the window fills, then fading. */
  function Weights(window: nat, xs: seq<real>): seq<Point>
    decreases |xs|
  {
    if |xs| <= window then Uniform(xs)
    else Scaled(Weights(window, xs[..|xs| - 1]), 1.0 - Reciprocal(window + 1)) + [Point(Reciprocal(window + 1), xs[|xs| - 1])]
  }

  /** During the first `window` values the statistics are exactly the mean and the population
      variance of 0 and the values seen; after that every step is the exponential update of
      gain 1/(window+1). */
  lemma {:induction false} StatsDescribeHistory(window: nat, xs: seq<real>)
    ensures Describes(Weights(window, xs), Stats(window, xs).0, Stats(window, xs).1)
    ensures |xs| <= window ==> Weights(window, xs) == Uniform(xs)
    ensures |xs| > window ==>
              var (m, v) := Stats(window, xs[..|xs| - 1]); var (a, x) := (Reciprocal(window + 1), xs[|xs| - 1]);
              Stats(window, xs) == (MeanStep(a, m, x), VarianceStep(a, m, v, x))
    decreases |xs|
  {
    hide Describes, Uniform, Scaled, Reciprocal, MeanStep, VarianceStep;
    if xs == [] {
      StartDescribes();
      if window == 0 {
        assert Weights(window, xs) == Uniform([]);
      }
    } else {
      var xs', x := xs[..|xs| - 1], xs[|xs| - 1];
      StatsDescribeHistory(window, xs');
      var (m, v) := Stats(window, xs');
      MixDescribes(Weights(window, xs'), m, v, Gain(window, |xs|), x);
      UniformGrows(xs', x);
      assert xs' + [x] == xs;
    }
  }

  lemma VarianceIsNonneg(window: nat, xs: seq<real>)
    ensures Stats(window, xs).1 >= 0.0
  {
    hide Stats, Weights, Spread;
    StatsDescribeHistory(window, xs);
    SpreadNonneg(Weights(window, xs), Stats(window, xs).0);
  }

  /** The two assignments of the loop in scoreAnomaly, for a divisor n. */
  function MeanUpdate(m: real, delta: real, n: nat): real
    requires n >= 1
  {
    m + delta / n as real
  }

  function VarianceUpdate(v: real, delta: real, delta2: real, n: nat): real
    requires n >= 1
  {
    v + (delta * delta2 - v) / n as real
  }

  /** They compute the exponential update. */
  lemma UpdateIsMix(n: nat, m: real, v: real, x: real)
    requires n >= 1
    ensures var m' := MeanUpdate(m, x - m, n);
      && m' == MeanStep(Reciprocal(n), m, x)
      && VarianceUpdate(v, x - m, x - m', n) == VarianceStep(Reciprocal(n), m, v, x)
  {
    hide *;
    var a := Reciprocal(n);
    MeanUpdateForm(m, x - m, n);
    MeanForm(a, m, x);
    VarianceUpdateForm(v, x - m, x - MeanStep(a, m, x), n);
    VarianceForm(a, m, v, x);
  }

  lemma MeanUpdateForm(m: real, d: real, n: nat)
    requires n >= 1
    ensures MeanUpdate(m, d, n) == m + Times(Reciprocal(n), d)
  {}

  lemma VarianceUpdateForm(v: real, d: real, e: real, n: nat)
    requires n >= 1
    ensures VarianceUpdate(v, d, e, n) == v + Times(Reciprocal(n), Times(d, e) - v)
  {
    hide Times, Reciprocal;
    DivideIsTimes(Times(d, e) - v, n);
    assert VarianceUpdate(v, d, e, n) == v + (Times(d, e) - v) / n as real by { Product(d, e); }
  }

  lemma Product(d: real, e: real)
    ensures Times(d, e) == d * e
  {}

  lemma MeanForm(a: real, m: real, x: real)
    ensures m + Times(a, x - m) == MeanStep(a, m, x)
  {}

  lemma DivideIsTimes(x: real, n: nat)
    requires n >= 1
    ensures x / n as real == Times(Reciprocal(n), x)
  {}

  lemma VarianceForm(a: real, m: real, v: real, x: real)
    ensures v + Times(a, Times(x - m, x - MeanStep(a, m, x)) - v) == VarianceStep(a, m, v, x)
  {
    var d := x - m;
    assert x - MeanStep(a, m, x) == d - a * d;
    VarianceAlgebra(a, d, v);
  }

  lemma VarianceAlgebra(a: real, d: real, v: real)
    ensures v + Times(a, Times(d, d - a * d) - v) == (1.0 - a) * (v + a * d * d)
  {
    var s := d * d;
    assert d * (d - a * d) == s - a * s;
    assert a * ((s - a * s) - v) == a * s - a * (a * s) - a * v;
    assert a * d * d == a * s;
    assert (1.0 - a) * (v + a * s) == v + a * s - a * v - a * (a * s);
  }

  function Column(history: seq<Features>, i: nat): (r: seq<real>)
    requires i < FEATURES
    ensures |r| == |history|
  {
    seq(|history|, k requires 0 <= k < |history| => history[k][i])
  }

  lemma ColumnSnoc(history: seq<Features>, f: Features, i: nat)
    requires i < FEATURES
    ensures var c := Column(history + [f], i); c == Column(history, i) + [f[i]] && c[..|c| - 1] == Column(history, i)
  {}

  class LocalAnalyzer {
    const window: nat
    var buffer: seq<Features>
    const rollingMean: array<real>
    const rollingVar: array<real>
    ghost var history: seq<Features>

    ghost predicate Valid()
      reads this, rollingMean, rollingVar
    {
      && rollingMean != rollingVar
      && rollingMean.Length == FEATURES && rollingVar.Length == FEATURES
      && |buffer| == Min(|history|, window)
      && buffer == history[|history| - |buffer|..]
      && forall i :: 0 <= i < FEATURES ==> (rollingMean[i], rollingVar[i]) == Stats(window, Column(history, i))
    }

    constructor (window: nat)
      ensures Valid() && this.window == window && history == [] && fresh(rollingMean) && fresh(rollingVar)
    {
      this.window := window;
      buffer := [];
      history := [];
      rollingMean := new real[FEATURES](i => 0.0);
      rollingVar := new real[FEATURES](i => 0.0);
    }

    /** One event: the statistics of every feature then cover the history with it. */
    method Process(feat: Features)
      requires Valid()
      modifies this, rollingMean, rollingVar
      ensures Valid() && history == old(history) + [feat]
    {
      buffer := buffer + [feat];
      if |buffer| > window {
        buffer := buffer[1..];
      }
      ghost var before := history;
      history := history + [feat];
      UpdateStats(rollingMean, rollingVar, feat, window, |buffer|, before);
    }

    method Reset()
      requires Valid()
      modifies this, rollingMean, rollingVar
      ensures Valid() && history == []
    {
      buffer := [];
      history := [];
      Clear(rollingMean);
      Clear(rollingVar);
    }
  }

  method Clear(a: array<real>)
    modifies a
    ensures forall i :: 0 <= i < a.Length ==> a[i] == 0.0
  {
    for i := 0 to a.Length
      invariant forall j :: 0 <= j < i ==> a[j] == 0.0
    {
      a[i] := 0.0;
    }
  }

  /** The loop over the features in scoreAnomaly; n is the size of the buffer. */
  method UpdateStats(mean: array<real>, variance: array<real>, feat: Features, window: nat, n: nat,
      ghost history: seq<Features>)
    requires mean != variance && mean.Length == FEATURES && variance.Length == FEATURES
    requires n == Min(|history| + 1, window)
    requires forall i :: 0 <= i < FEATURES ==> (mean[i], variance[i]) == Stats(window, Column(history, i))
    modifies mean, variance
    ensures forall i :: 0 <= i < FEATURES ==> (mean[i], variance[i]) == Stats(window, Column(history + [feat], i))
  {
    hide Stats, Column, MeanStep, VarianceStep, Reciprocal, MeanUpdate, VarianceUpdate;
    for i := 0 to FEATURES
      invariant forall j :: 0 <= j < i ==> (mean[j], variance[j]) == Stats(window, Column(history + [feat], j))
      invariant forall j :: i <= j < FEATURES ==> (mean[j], variance[j]) == Stats(window, Column(history, j))
    {
      UpdateIsMix(n + 1, mean[i], variance[i], feat[i]);
      StatsSnoc(window, history, feat, i);
      var delta := feat[i] - mean[i];
      mean[i] := MeanUpdate(mean[i], delta, n + 1);
      var delta2 := feat[i] - mean[i];
      variance[i] := VarianceUpdate(variance[i], delta, delta2, n + 1);
    }
  }

  lemma StatsSnoc(window: nat, history: seq<Features>, f: Features, i: nat)
    requires i < FEATURES
    ensures var (m, v) := Stats(window, Column(history, i)); var a := Reciprocal(Min(|history| + 1, window) + 1);
      Stats(window, Column(history + [f], i)) == (MeanStep(a, m, f[i]), VarianceStep(a, m, v, f[i]))
  {
    hide Column, MeanStep, VarianceStep, Reciprocal;
    ColumnSnoc(history, f, i);
  }
}
