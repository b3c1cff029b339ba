/** Weighted means and variances, and the online update that maintains them: the common
    mathematics of include/ids_level0.hpp:100-118 and include/ids_adaptive.hpp:44-63. Floats
    are modelled as reals. */
module WeightedStats {

  /** Products stay opaque in the inductions; small lemmas say what the algebra needs. */
  function Times(a: real, b: real): real {
    a * b
  }

  function Square(x: real): (r: real)
    ensures r >= 0.0
  {
    x * x
  }

  /** A value with the weight it has in an average. */
  datatype Point = Point(w: real, x: real)

  function Scale(p: Point, f: real): Point {
    Point(Times(f, p.w), p.x)
  }

  function Total(ps: seq<Point>): real
    decreases |ps|
  {
    if ps == [] then 0.0 else Total(ps[..|ps| - 1]) + ps[|ps| - 1].w
  }

  function Mean(ps: seq<Point>): real
    decreases |ps|
  {
    if ps == [] then 0.0 else Mean(ps[..|ps| - 1]) + Times(ps[|ps| - 1].w, ps[|ps| - 1].x)
  }

  /** The weighted sum of squared distances to c. */
  function Spread(ps: seq<Point>, c: real): real
    decreases |ps|
  {
    if ps == [] then 0.0
    else Spread(ps[..|ps| - 1], c) + Times(ps[|ps| - 1].w, Square(ps[|ps| - 1].x - c))
  }

  function Scaled(ps: seq<Point>, f: real): (r: seq<Point>)
    ensures |r| == |ps| && forall k :: 0 <= k < |ps| ==> r[k] == Scale(ps[k], f)
  {
    seq(|ps|, k requires 0 <= k < |ps| => Scale(ps[k], f))
  }

  ghost predicate NonnegWeights(ps: seq<Point>) {
    forall k :: 0 <= k < |ps| ==> ps[k].w >= 0.0
  }

  /** The points are a distribution with this mean and this variance. */
  ghost predicate Describes(ps: seq<Point>, mean: real, variance: real) {
    NonnegWeights(ps) && Total(ps) == 1.0 && Mean(ps) == mean && Spread(ps, mean) == variance
  }

  // ---- The update ----

  function MeanStep(a: real, mean: real, x: real): real {
    mean + a * (x - mean)
  }

  function VarianceStep(a: real, mean: real, variance: real, x: real): real {
    (1.0 - a) * (variance + a * (x - mean) * (x - mean))
  }

  // ---- Algebra ----

  lemma Distribute(f: real, a: real, b: real)
    ensures Times(f, a + b) == Times(f, a) + Times(f, b)
  {}

  lemma Associate(f: real, a: real, b: real)
    ensures Times(Times(f, a), b) == Times(f, Times(a, b))
  {}

  lemma Nonneg(a: real, b: real)
    requires a >= 0.0 && b >= 0.0
    ensures Times(a, b) >= 0.0
  {}

  lemma Zero(f: real)
    ensures Times(f, 0.0) == 0.0
  {}

  /** w(x-c)^2 in terms of w(x-d)^2, wx and w. */
  lemma OneShift(w: real, x: real, c: real, d: real)
    ensures Times(w, Square(x - c))
         == Times(w, Square(x - d)) + Times(2.0 * (d - c), Times(w, x)) - Times(Times(2.0 * (d - c), d), w) + Times(Square(d - c), w)
  {
    var e := d - c;
    SquareSum(x - d, e);
    assert x - c == (x - d) + e;
    assert w * (Square(x - d) + 2.0 * e * (x - d) + Square(e)) == w * Square(x - d) + w * (2.0 * e * (x - d)) + w * Square(e);
    Rearrange(w, x, d, e);
  }

  lemma SquareSum(a: real, b: real)
    ensures Square(a + b) == Square(a) + 2.0 * b * a + Square(b)
  {}

  lemma Rearrange(w: real, x: real, d: real, e: real)
    ensures w * (2.0 * e * (x - d)) == Times(2.0 * e, Times(w, x)) - Times(Times(2.0 * e, d), w)
  {
    var g := 2.0 * e;
    assert w * (g * (x - d)) == w * (g * x) - w * (g * d);
    assert w * (g * x) == g * (w * x);
  }

  lemma MixArithmetic(mean: real, variance: real, a: real, x: real, spread: real)
    requires spread == variance + Square(mean - MeanStep(a, mean, x))
    ensures Times(1.0 - a, mean) + Times(a, x) == MeanStep(a, mean, x)
    ensures Times(1.0 - a, spread) + Times(a, Square(x - MeanStep(a, mean, x))) == VarianceStep(a, mean, variance, x)
  {
    var d := x - mean;
    assert mean - MeanStep(a, mean, x) == -(a * d);
    assert x - MeanStep(a, mean, x) == (1.0 - a) * d;
    SquareNegated(a * d);
    MixSquares(a, d);
    assert (1.0 - a) * spread == (1.0 - a) * variance + (1.0 - a) * Square(a * d);
    assert VarianceStep(a, mean, variance, x) == (1.0 - a) * variance + (1.0 - a) * (a * d * d);
  }

  lemma SquareNegated(x: real)
    ensures Square(-x) == Square(x)
  {}

  lemma MixSquares(a: real, d: real)
    ensures (1.0 - a) * Square(a * d) + a * Square((1.0 - a) * d) == (1.0 - a) * (a * d * d)
  {
    SquareProduct(a, d);
    SquareProduct(1.0 - a, d);
    MixFactor(a, d * d);
    assert a * d * d == a * (d * d);
  }

  lemma SquareProduct(a: real, d: real)
    ensures Square(a * d) == (a * a) * (d * d)
  {}

  lemma MixFactor(a: real, s: real)
    ensures (1.0 - a) * ((a * a) * s) + a * (((1.0 - a) * (1.0 - a)) * s) == (1.0 - a) * (a * s)
  {
    var q := (1.0 - a) * a;
    assert (1.0 - a) * ((a * a) * s) == (q * a) * s;
    assert a * (((1.0 - a) * (1.0 - a)) * s) == (q * (1.0 - a)) * s;
    assert (1.0 - a) * (a * s) == q * s;
    assert q * a + q * (1.0 - a) == q;
  }

  // ---- Sums ----

  lemma ScaledPrefix(ps: seq<Point>, f: real)
    requires ps != []
    ensures Scaled(ps, f)[..|ps| - 1] == Scaled(ps[..|ps| - 1], f)
  {
    hide Scale;
  }

  lemma {:induction false} ScaledSums(ps: seq<Point>, f: real, c: real)
    ensures Total(Scaled(ps, f)) == Times(f, Total(ps))
    ensures Mean(Scaled(ps, f)) == Times(f, Mean(ps))
    ensures Spread(Scaled(ps, f), c) == Times(f, Spread(ps, c))
    decreases |ps|
  {
    hide Times, Square, Scaled;
    if ps == [] {
      Zero(f);
    } else {
      var ps', p := ps[..|ps| - 1], ps[|ps| - 1];
      ScaledSums(ps', f, c);
      ScaledPrefix(ps, f);
      Distribute(f, Total(ps'), p.w);
      Distribute(f, Mean(ps'), Times(p.w, p.x));
      Distribute(f, Spread(ps', c), Times(p.w, Square(p.x - c)));
      Associate(f, p.w, p.x);
      Associate(f, p.w, Square(p.x - c));
    }
  }

  /** Moving the centre of a spread. */
  lemma {:induction false} SpreadShift(ps: seq<Point>, c: real, d: real)
    ensures Spread(ps, c)
         == Spread(ps, d) + Times(2.0 * (d - c), Mean(ps)) - Times(Times(2.0 * (d - c), d), Total(ps)) + Times(Square(d - c), Total(ps))
    decreases |ps|
  {
    hide Times, Square;
    var g, h := Times(2.0 * (d - c), d), Square(d - c);
    if ps == [] {
      Zero(2.0 * (d - c));
      Zero(g);
      Zero(h);
    } else {
      var ps', p := ps[..|ps| - 1], ps[|ps| - 1];
      SpreadShift(ps', c, d);
      OneShift(p.w, p.x, c, d);
      Distribute(2.0 * (d - c), Mean(ps'), Times(p.w, p.x));
      Distribute(g, Total(ps'), p.w);
      Distribute(h, Total(ps'), p.w);
    }
  }

  /** Around its mean a distribution's spread is smallest, by the square of the distance. */
  lemma SpreadAroundMean(ps: seq<Point>, mean: real, variance: real, c: real)
    requires Describes(ps, mean, variance)
    ensures Spread(ps, c) == variance + Square(mean - c)
  {
    hide Spread, Mean, Total, Square;
    SpreadShift(ps, c, mean);
  }

  lemma SnocSums(ps: seq<Point>, p: Point, c: real)
    ensures Total(ps + [p]) == Total(ps) + p.w
    ensures Mean(ps + [p]) == Mean(ps) + Times(p.w, p.x)
    ensures Spread(ps + [p], c) == Spread(ps, c) + Times(p.w, Square(p.x - c))
  {
    hide Times, Square;
    assert (ps + [p])[..|ps|] == ps;
  }

  lemma ScaledNonneg(ps: seq<Point>, f: real, p: Point)
    requires NonnegWeights(ps) && f >= 0.0 && p.w >= 0.0
    ensures NonnegWeights(Scaled(ps, f) + [p])
  {
    hide Times, Scaled;
    var qs := Scaled(ps, f) + [p];
    forall k | 0 <= k < |qs| ensures qs[k].w >= 0.0 {
      if k < |ps| {
        Nonneg(f, ps[k].w);
      }
    }
  }

  /** One update keeps describing a distribution: all weights shrink by 1 - a and the new
      value enters with weight a. */
  lemma MixDescribes(ps: seq<Point>, mean: real, variance: real, a: real, x: real)
    requires Describes(ps, mean, variance) && 0.0 <= a <= 1.0
    ensures Describes(Scaled(ps, 1.0 - a) + [Point(a, x)], MeanStep(a, mean, x), VarianceStep(a, mean, variance, x))
  {
    hide Times, Square, Scaled, Total, Mean, Spread, MeanStep, VarianceStep, NonnegWeights;
    var mean' := MeanStep(a, mean, x);
    ScaledNonneg(ps, 1.0 - a, Point(a, x));
    ScaledSums(ps, 1.0 - a, mean');
    SnocSums(Scaled(ps, 1.0 - a), Point(a, x), mean');
    SpreadAroundMean(ps, mean, variance, mean');
    MixArithmetic(mean, variance, a, x, Spread(ps, mean'));
    Unit(1.0 - a);
  }

  lemma Unit(f: real)
    ensures Times(f, 1.0) == f
  {}

  lemma {:induction false} SpreadNonneg(ps: seq<Point>, c: real)
    requires NonnegWeights(ps)
    ensures Spread(ps, c) >= 0.0
    decreases |ps|
  {
    hide Times, Square;
    if ps != [] {
      SpreadNonneg(ps[..|ps| - 1], c);
      Nonneg(ps[|ps| - 1].w, Square(ps[|ps| - 1].x - c));
    }
  }

  // ---- Two families of weights ----

  function Reciprocal(n: nat): (r: real)
    requires n >= 1
    ensures 0.0 <= r <= 1.0
  {
    1.0 / n as real
  }

  /** 0 and the history, all equally likely. */
  function Uniform(xs: seq<real>): (ps: seq<Point>)
    ensures |ps| == |xs| + 1
    ensures ps[0] == Point(Reciprocal(|xs| + 1), 0.0)
    ensures forall k :: 0 <= k < |xs| ==> ps[k + 1] == Point(Reciprocal(|xs| + 1), xs[k])
  {
    [Point(Reciprocal(|xs| + 1), 0.0)]
    + seq(|xs|, k requires 0 <= k < |xs| => Point(Reciprocal(|xs| + 1), xs[k]))
  }

  lemma ReciprocalStep(n: nat)
    requires n >= 1
    ensures Times(1.0 - Reciprocal(n + 1), Reciprocal(n)) == Reciprocal(n + 1)
  {
    var r := n as real;
    assert (n + 1) as real == r + 1.0;
    assert 1.0 - 1.0 / (r + 1.0) == r / (r + 1.0);
    assert (r / (r + 1.0)) * (1.0 / r) == 1.0 / (r + 1.0);
  }

  lemma UniformGrows(xs: seq<real>, x: real)
    ensures var a := Reciprocal(|xs| + 2);
      Scaled(Uniform(xs), 1.0 - a) + [Point(a, x)] == Uniform(xs + [x])
  {
    hide Times, Reciprocal, Uniform, Scaled;
    var a := Reciprocal(|xs| + 2);
    var ps, qs := Scaled(Uniform(xs), 1.0 - a) + [Point(a, x)], Uniform(xs + [x]);
    ReciprocalStep(|xs| + 1);
    forall k | 0 <= k < |qs| ensures ps[k] == qs[k] {
      if 0 < k <= |xs| {
        assert Uniform(xs)[(k - 1) + 1] == Point(Reciprocal(|xs| + 1), xs[k - 1]);
        assert qs[(k - 1) + 1] == Point(a, (xs + [x])[k - 1]);
      } else if k > 0 {
        assert qs[(k - 1) + 1] == Point(a, (xs + [x])[k - 1]);
      }
    }
  }

  lemma StartDescribes()
    ensures Describes([Point(1.0, 0.0)], 0.0, 0.0)
    ensures Uniform([]) == [Point(1.0, 0.0)]
    ensures forall a :: Exponential(a, []) == [Point(1.0, 0.0)]
  {
    var ps := [Point(1.0, 0.0)];
    assert ps[..0] == [];
    forall a ensures Exponential(a, []) == ps {
      assert Power(1.0 - a, 0) == 1.0;
    }
  }

  function Power(b: real, n: nat): real {
    if n == 0 then 1.0 else Times(b, Power(b, n - 1))
  }

  /** Exponential weights: value k of n still has a(1-a)^(n-1-k), and the initial 0 (1-a)^n. */
  function Exponential(a: real, xs: seq<real>): (ps: seq<Point>)
    ensures |ps| == |xs| + 1
    ensures ps[0] == Point(Power(1.0 - a, |xs|), 0.0)
    ensures forall k :: 0 <= k < |xs| ==> ps[k + 1] == Point(Times(a, Power(1.0 - a, |xs| - 1 - k)), xs[k])
  {
    [Point(Power(1.0 - a, |xs|), 0.0)]
    + seq(|xs|, k requires 0 <= k < |xs| => Point(Times(a, Power(1.0 - a, |xs| - 1 - k)), xs[k]))
  }

  lemma Commute(a: real, b: real, c: real)
    ensures Times(a, Times(b, c)) == Times(b, Times(a, c))
  {}

  lemma ExponentialGrows(a: real, xs: seq<real>, x: real)
    ensures Scaled(Exponential(a, xs), 1.0 - a) + [Point(a, x)] == Exponential(a, xs + [x])
  {
    hide Times, Exponential, Scaled;
    var ps, qs := Scaled(Exponential(a, xs), 1.0 - a) + [Point(a, x)], Exponential(a, xs + [x]);
    forall k | 0 <= k < |qs| ensures ps[k] == qs[k] {
      if 0 < k <= |xs| {
        var n := |xs| - 1 - (k - 1);
        assert Exponential(a, xs)[(k - 1) + 1] == Point(Times(a, Power(1.0 - a, n)), xs[k - 1]);
        assert qs[(k - 1) + 1] == Point(Times(a, Power(1.0 - a, n + 1)), (xs + [x])[k - 1]);
        Commute(a, 1.0 - a, Power(1.0 - a, n));
      } else if k > 0 {
        assert qs[(k - 1) + 1] == Point(Times(a, Power(1.0 - a, 0)), (xs + [x])[k - 1]);
        Unit(a);
      }
    }
  }
}
