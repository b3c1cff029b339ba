/** The state-space model of include/ids_ssm.hpp:11-97, over reals. exp, log1p and the test
    for a finite float are parameters; norms are compared by their squares. */
module Ssm {
  import opened WeightedStats

  datatype Option<T> = None | Some(value: T)

  /** The projections, by row and column. */
  datatype Params = Params(
    aLog: nat -> real, bProj: (nat, nat) -> real, cProj: (nat, nat) -> real, dSkip: nat -> real,
    deltaProj: (nat, nat) -> real)

  datatype Math = Math(exp: real -> real, log1p: real -> real, finite: real -> bool)

  // ---- Vectors ----

  function Row(m: (nat, nat) -> real, i: nat): nat -> real {
    (j: nat) => m(i, j)
  }

  function Dot(f: nat -> real, v: seq<real>): real
    decreases |v|
  {
    if v == [] then 0.0 else Dot(f, v[..|v| - 1]) + Times(f(|v| - 1), v[|v| - 1])
  }

  function SumSq(v: seq<real>): (r: real)
    ensures r >= 0.0
    decreases |v|
  {
    if v == [] then 0.0 else SumSq(v[..|v| - 1]) + Square(v[|v| - 1])
  }

  /** sqrt(sq) > bound. */
  predicate NormExceeds(sq: real, bound: real) {
    bound < 0.0 || sq > Square(bound)
  }

  function Clamp(x: real, lo: real, hi: real): real {
    if x < lo then lo else if hi < x then hi else x
  }

  function Clamped(v: seq<real>, limit: real): (r: seq<real>)
    ensures |r| == |v|
  {
    seq(|v|, i requires 0 <= i < |v| => Clamp(v[i], -limit, limit))
  }

  function Zeros(n: nat): (r: seq<real>)
    ensures |r| == n && forall i :: 0 <= i < n ==> r[i] == 0.0
  {
    seq(n, i => 0.0)
  }

  // ---- One step ----

  function Softplus(m: Math, d: real): real {
    if d > 20.0 then d else m.log1p(m.exp(d))
  }

  function Delta(m: Math, p: Params, x: seq<real>, i: nat): real {
    Softplus(m, Dot(Row(p.deltaProj, i), x))
  }

  /** The discretized A of one channel. */
  function Decay(m: Math, p: Params, delta: real, i: nat): real {
    m.exp(Times(-delta, m.exp(p.aLog(i))))
  }

  function NextAt(m: Math, p: Params, h: real, x: seq<real>, i: nat): real {
    var d := Delta(m, p, x, i);
    Times(Decay(m, p, d, i), h) + Times(d, Dot(Row(p.bProj, i), x))
  }

  function Next(m: Math, p: Params, h: seq<real>, x: seq<real>): (r: seq<real>)
    ensures |r| == |h| && forall i :: 0 <= i < |h| ==> r[i] == NextAt(m, p, h[i], x, i)
  {
    seq(|h|, i requires 0 <= i < |h| => NextAt(m, p, h[i], x, i))
  }

  function OutputAt(p: Params, h: seq<real>, x: seq<real>, i: nat): real {
    Dot(Row(p.cProj, i), h) + if i < |x| then Times(p.dSkip(i), x[i]) else 0.0
  }

  function Output(p: Params, h: seq<real>, x: seq<real>, n: nat): (r: seq<real>)
    ensures |r| == n && forall i :: 0 <= i < n ==> r[i] == OutputAt(p, h, x, i)
  {
    seq(n, i requires 0 <= i < n => OutputAt(p, h, x, i))
  }

  ghost predicate AllFinite(m: Math, v: seq<real>) {
    forall i :: 0 <= i < |v| ==> m.finite(v[i])
  }

  /** The state after a step, or None where the code clears the state and throws. */
  ghost function Stepped(m: Math, p: Params, h: seq<real>, x: seq<real>, maxEnergy: real,
      clampLimit: real): Option<seq<real>> {
    var h' := Next(m, p, h, x);
    if !AllFinite(m, h') then None
    else if !NormExceeds(SumSq(h'), maxEnergy) then Some(h')
    else if NormExceeds(SumSq(Clamped(h', clampLimit)), 2.0 * maxEnergy) then None
    else Some(Clamped(h', clampLimit))
  }

  class SSM {
    const math: Math
    const params: Params
    const outDim: nat
    const stateDim: nat
    var state: seq<real>

    constructor (math: Math, params: Params, stateDim: nat, outDim: nat)
      ensures this.math == math && this.params == params && this.outDim == outDim && this.stateDim == stateDim
      ensures state == Zeros(stateDim)
    {
      this.math, this.params, this.stateDim, this.outDim := math, params, stateDim, outDim;
      state := Zeros(stateDim);
    }

    method Reset()
      modifies this
      ensures state == Zeros(stateDim)
    {
      state := Zeros(stateDim);
    }

    method Energy() returns (sq: real)
      ensures sq == SumSq(state)
    {
      sq := 0.0;
      for i := 0 to |state|
        invariant sq == SumSq(state[..i])
      {
        assert state[..i + 1][..i] == state[..i];
        sq := sq + Square(state[i]);
      }
      assert state[..|state|] == state;
    }

    method Step(x: seq<real>, maxEnergy: real, clampLimit: real) returns (y: Option<seq<real>>)
      requires |state| == stateDim && clampLimit >= 0.0
      modifies this
      ensures |state| == stateDim
      ensures match Stepped(math, params, old(state), x, maxEnergy, clampLimit)
        case None => y == None && state == Zeros(stateDim)
        case Some(h) => state == h && y == Some(Output(params, h, x, outDim))
    {
      hide NextAt, OutputAt, Next, Output, SumSq, Square, Clamp;
      state := Advance(math, params, state, x);
      var finite := IsFinite(math, state);
      if !finite {
        state := Zeros(stateDim);
        return None;
      }
      var e := Energy();
      if NormExceeds(e, maxEnergy) {
        state := ClampAll(state, clampLimit);
        e := Energy();
        if NormExceeds(e, maxEnergy * 2.0) {
          state := Zeros(stateDim);
          return None;
        }
      }
      var out := Project(params, state, x, outDim);
      y := Some(out);
    }
  }

  method DotProduct(f: nat -> real, v: seq<real>) returns (d: real)
    ensures d == Dot(f, v)
  {
    hide Times;
    d := 0.0;
    for j := 0 to |v|
      invariant d == Dot(f, v[..j])
    {
      assert v[..j + 1][..j] == v[..j];
      d := d + Times(f(j), v[j]);
    }
    assert v[..|v|] == v;
  }

  /** Discretization and recurrence. */
  method Advance(m: Math, p: Params, h: seq<real>, x: seq<real>) returns (r: seq<real>)
    ensures r == Next(m, p, h, x)
  {
    hide Dot, Row, Times, Decay;
    var delta, bx: seq<real>, aBar: seq<real> := [], [], [];
    for i := 0 to |h|
      invariant |delta| == i && forall k :: 0 <= k < i ==> delta[k] == Delta(m, p, x, k)
    {
      var d := DotProduct(Row(p.deltaProj, i), x);
      delta := delta + [if d > 20.0 then d else m.log1p(m.exp(d))];
    }
    for i := 0 to |h|
      invariant |aBar| == i && forall k :: 0 <= k < i ==> aBar[k] == Decay(m, p, delta[k], k)
    {
      aBar := aBar + [Decay(m, p, delta[i], i)];
    }
    for i := 0 to |h|
      invariant |bx| == i && forall k :: 0 <= k < i ==> bx[k] == Dot(Row(p.bProj, k), x)
    {
      var b := DotProduct(Row(p.bProj, i), x);
      bx := bx + [b];
    }
    r := h;
    for i := 0 to |h|
      invariant |r| == |h|
      invariant forall k :: 0 <= k < i ==> r[k] == NextAt(m, p, h[k], x, k)
      invariant forall k :: i <= k < |h| ==> r[k] == h[k]
    {
      r := r[i := Times(aBar[i], r[i]) + Times(delta[i], bx[i])];
    }
  }

  method IsFinite(m: Math, v: seq<real>) returns (ok: bool)
    ensures ok <==> AllFinite(m, v)
  {
    for i := 0 to |v|
      invariant forall k :: 0 <= k < i ==> m.finite(v[k])
    {
      if !m.finite(v[i]) {
        return false;
      }
    }
    return true;
  }

  method ClampAll(v: seq<real>, limit: real) returns (r: seq<real>)
    ensures r == Clamped(v, limit)
  {
    r := v;
    for i := 0 to |v|
      invariant |r| == |v|
      invariant forall k :: 0 <= k < i ==> r[k] == Clamp(v[k], -limit, limit)
      invariant forall k :: i <= k < |v| ==> r[k] == v[k]
    {
      r := r[i := Clamp(r[i], -limit, limit)];
    }
  }

  method Project(p: Params, h: seq<real>, x: seq<real>, n: nat) returns (y: seq<real>)
    ensures y == Output(p, h, x, n)
  {
    hide Dot, Row, Times;
    y := [];
    for i := 0 to n
      invariant |y| == i && forall k :: 0 <= k < i ==> y[k] == OutputAt(p, h, x, k)
    {
      var d := DotProduct(Row(p.cProj, i), h);
      if i < |x| {
        d := d + Times(p.dSkip(i), x[i]);
      }
      y := y + [d];
    }
  }

  // ---- Energy bounds ----

  lemma ClampSquare(x: real, c: real)
    requires c >= 0.0
    ensures Square(Clamp(x, -c, c)) <= Square(c)
  {
    var y := Clamp(x, -c, c);
    assert (c - y) * (c + y) >= 0.0;
  }

  lemma {:induction false} ClampedSum(v: seq<real>, c: real)
    requires c >= 0.0
    ensures SumSq(Clamped(v, c)) <= Times(|v| as real, Square(c))
    decreases |v|
  {
    hide Square, Clamp;
    var n := |v|;
    if n == 0 {
      CountTimes(0, Square(c));
    } else {
      ClampedSum(v[..n - 1], c);
      assert Clamped(v, c)[..n - 1] == Clamped(v[..n - 1], c);
      ClampSquare(v[n - 1], c);
      CountTimes(n - 1, Square(c));
    }
  }

  lemma CountTimes(n: nat, s: real)
    ensures Times(0.0, s) == 0.0 && Times((n + 1) as real, s) == Times(n as real, s) + s
  {}

  lemma ZeroSum(n: nat)
    ensures SumSq(Zeros(n)) == 0.0
  {
    if n > 0 {
      ZeroSum(n - 1);
      assert Zeros(n)[..n - 1] == Zeros(n - 1);
    }
  }

  /** The squared energy that a step never exceeds. */
  function EnergyBound(dim: nat, maxEnergy: real, clampLimit: real): real {
    if Times(dim as real, Square(clampLimit)) <= Square(maxEnergy) then Square(maxEnergy) else Square(2.0 * maxEnergy)
  }

  /** After any step that does not throw the norm is at most twice max_energy; when the clamp
      alone keeps a whole vector within max_energy, it is at most max_energy and the only
      reason to throw is a number that is not finite. */
  lemma StepIsBounded(m: Math, p: Params, h: seq<real>, x: seq<real>, maxEnergy: real, clampLimit: real)
    requires clampLimit >= 0.0
    ensures var r := Stepped(m, p, h, x, maxEnergy, clampLimit);
      && (r.Some? ==> maxEnergy >= 0.0 && |r.value| == |h|
                      && SumSq(r.value) <= EnergyBound(|h|, maxEnergy, clampLimit) <= Square(2.0 * maxEnergy))
      && (maxEnergy >= 0.0 && Times(|h| as real, Square(clampLimit)) <= Square(maxEnergy) ==>
            (r.None? <==> !AllFinite(m, Next(m, p, h, x))))
  {
    hide Times, SumSq, Clamp, AllFinite, NextAt;
    ClampedSum(Next(m, p, h, x), clampLimit);
    DoubleSquare(maxEnergy);
  }

  lemma DoubleSquare(x: real)
    ensures Square(x) <= Square(2.0 * x) == 4.0 * Square(x)
  {}

  // ---- Convexity ----

  function Mixed(a: real, b: seq<real>, s: seq<real>): (r: seq<real>)
    requires |b| == |s|
    ensures |r| == |b| && forall i :: 0 <= i < |b| ==> r[i] == MeanStep(a, b[i], s[i])
  {
    seq(|b|, i requires 0 <= i < |b| => MeanStep(a, b[i], s[i]))
  }

  function Difference(s: seq<real>, b: seq<real>): (r: seq<real>)
    requires |b| == |s|
    ensures |r| == |b| && forall i :: 0 <= i < |b| ==> r[i] == s[i] - b[i]
  {
    seq(|b|, i requires 0 <= i < |b| => s[i] - b[i])
  }

  lemma MixSquare(a: real, b: real, s: real)
    requires 0.0 <= a <= 1.0
    ensures Square(MeanStep(a, b, s)) <= Times(1.0 - a, Square(b)) + Times(a, Square(s))
  {
    hide Times, Square;
    var d := s - b;
    MixGap(a, Square(b), Times(b, d), Square(d));
    SquareOfMix(a, b, d);
    SquareOfMix(1.0, b, d);
    MeanStepForm(a, b, s);
    OneTimes(Times(b, d));
    OneTimes(Square(d));
    OneTimes(d);
  }

  lemma OneTimes(x: real)
    ensures Times(1.0, x) == x
  {}

  lemma MeanStepForm(a: real, b: real, s: real)
    ensures MeanStep(a, b, s) == b + Times(a, s - b)
  {}

  lemma SquareOfMix(a: real, b: real, d: real)
    ensures Square(b + Times(a, d)) == Square(b) + 2.0 * Times(a, Times(b, d)) + Times(a, Times(a, Square(d)))
  {
    assert b * (a * d) == a * (b * d);
    assert (a * d) * (a * d) == a * (a * (d * d));
  }

  /** What an average loses against the average of the squares. */
  lemma MixGap(a: real, u: real, w: real, q: real)
    requires 0.0 <= a <= 1.0 && q >= 0.0
    ensures u + 2.0 * Times(a, w) + Times(a, Times(a, q)) <= Times(1.0 - a, u) + Times(a, u + 2.0 * w + q)
  {
    assert Times(1.0 - a, u) == u - a * u;
    assert Times(a, u + 2.0 * w + q) == a * u + 2.0 * (a * w) + a * q;
    Nonneg(a, q);
    Nonneg(1.0 - a, a * q);
    assert (1.0 - a) * (a * q) == a * q - a * (a * q);
  }

  lemma {:induction false} MixedSum(a: real, b: seq<real>, s: seq<real>)
    requires |b| == |s| && 0.0 <= a <= 1.0
    ensures SumSq(Mixed(a, b, s)) <= Times(1.0 - a, SumSq(b)) + Times(a, SumSq(s))
    decreases |b|
  {
    hide Times, Square, MeanStep;
    if b == [] {
      Zero(1.0 - a);
      Zero(a);
    } else {
      var n := |b| - 1;
      MixedSum(a, b[..n], s[..n]);
      assert Mixed(a, b, s)[..n] == Mixed(a, b[..n], s[..n]);
      MixSquare(a, b[n], s[n]);
      Distribute(1.0 - a, SumSq(b[..n]), Square(b[n]));
      Distribute(a, SumSq(s[..n]), Square(s[n]));
    }
  }

  lemma DifferenceSquare(s: real, b: real)
    ensures Square(s - b) <= 2.0 * Square(s) + 2.0 * Square(b)
  {
    assert Square(s - b) + Square(s + b) == 2.0 * Square(s) + 2.0 * Square(b);
  }

  lemma {:induction false} DifferenceSum(s: seq<real>, b: seq<real>)
    requires |b| == |s|
    ensures SumSq(Difference(s, b)) <= 2.0 * SumSq(s) + 2.0 * SumSq(b)
    decreases |b|
  {
    hide Square;
    if b != [] {
      var n := |b| - 1;
      DifferenceSum(s[..n], b[..n]);
      assert Difference(s, b)[..n] == Difference(s[..n], b[..n]);
      DifferenceSquare(s[n], b[n]);
    }
  }

  /** An average of two vectors inside a ball is inside the ball. */
  lemma MixStaysInside(a: real, b: seq<real>, s: seq<real>, bound: real)
    requires |b| == |s| && 0.0 <= a <= 1.0 && SumSq(b) <= bound && SumSq(s) <= bound
    ensures SumSq(Mixed(a, b, s)) <= bound
  {
    hide SumSq, Mixed;
    MixedSum(a, b, s);
    WeightedBound(a, SumSq(b), SumSq(s), bound);
  }

  lemma WeightedBound(a: real, x: real, y: real, bound: real)
    requires 0.0 <= a <= 1.0 && x <= bound && y <= bound
    ensures Times(1.0 - a, x) + Times(a, y) <= bound
  {
    assert (1.0 - a) * (bound - x) >= 0.0 && a * (bound - y) >= 0.0;
  }
}
