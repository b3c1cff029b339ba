/** Runs of the state-space model: what the state is of all inputs so far, when a step is refused,
    and what the clamp and the skip connection do. */
module SsmRuns {
  import opened WeightedStats
  import opened Ssm

  // ---- Single steps ----

  /** A step throws exactly on a number that is not finite or on a state that clamping does not
      bring within twice the limit; it clamps exactly a state beyond the limit. */
  lemma StepOutcome(m: Math, p: Params, h: seq<real>, x: seq<real>, maxEnergy: real, clampLimit: real)
    requires maxEnergy >= 0.0 && clampLimit >= 0.0
    ensures var h', r := Next(m, p, h, x), Stepped(m, p, h, x, maxEnergy, clampLimit);
      var beyond := SumSq(h') > maxEnergy * maxEnergy;
      && (r.None? <==> !AllFinite(m, h') || (beyond && SumSq(Clamped(h', clampLimit)) > 4.0 * (maxEnergy * maxEnergy)))
      && (r.Some? && !beyond ==> r.value == h')
      && (r.Some? && beyond ==> r.value == Clamped(h', clampLimit))
  {
    hide SumSq, Next, Clamped, AllFinite;
    DoubleSquare(maxEnergy);
  }

  /** Clamping moves every entry to the nearest one within the limits. */
  lemma ClampIsNearest(v: seq<real>, limit: real, i: nat, y: real)
    requires limit >= 0.0 && i < |v| && -limit <= y <= limit
    ensures -limit <= Clamped(v, limit)[i] <= limit
    ensures Distance(v[i], Clamped(v, limit)[i]) <= Distance(v[i], y)
  {}

  function Distance(x: real, y: real): real {
    if x < y then y - x else x - y
  }

  /** The output is the projected state and, up to the length of the input, the scaled input. */
  lemma OutputIs(p: Params, h: seq<real>, x: seq<real>, n: nat, i: nat)
    requires i < n
    ensures i < |x| ==> Output(p, h, x, n)[i] == Dot(Row(p.cProj, i), h) + Times(p.dSkip(i), x[i])
    ensures i >= |x| ==> Output(p, h, x, n)[i] == Dot(Row(p.cProj, i), h)
  {
    hide Dot, Times;
  }

  /** A projection is linear, with the entries of its row as coefficients. */
  lemma {:induction false} DotIsLinear(f: nat -> real, v: seq<real>, i: nat, d: real)
    requires i < |v|
    ensures Dot(f, v[i := v[i] + d]) == Dot(f, v) + Times(f(i), d)
    ensures Dot(f, Zeros(|v|)) == 0.0
    decreases |v|
  {
    hide Times;
    var n := |v| - 1;
    var w := v[i := v[i] + d];
    Distribute(f(i), v[i], d);
    ZeroDot(f, |v|);
    if i == n {
      assert w[..n] == v[..n];
    } else {
      assert w[..n] == v[..n][i := v[i] + d];
      DotIsLinear(f, v[..n], i, d);
    }
  }

  /** The coefficient of input entry j in row i of a projection is the entry at (i, j). */
  lemma ProjectionEntry(m: (nat, nat) -> real, i: nat, v: seq<real>, j: nat, d: real)
    requires j < |v|
    ensures Dot(Row(m, i), v[j := v[j] + d]) == Dot(Row(m, i), v) + m(i, j) * d
  {
    DotIsLinear(Row(m, i), v, j, d);
  }

  /** The energy is made of the square of every entry. */
  lemma {:induction false} EnergyOfEntry(v: seq<real>, i: nat, x: real)
    requires i < |v|
    ensures SumSq(v[i := x]) == SumSq(v) - v[i] * v[i] + x * x
    decreases |v|
  {
    var n := |v| - 1;
    var w := v[i := x];
    if i == n {
      assert w[..n] == v[..n];
    } else {
      assert w[..n] == v[..n][i := x];
      EnergyOfEntry(v[..n], i, x);
    }
  }

  lemma {:induction false} ZeroDot(f: nat -> real, n: nat)
    ensures Dot(f, Zeros(n)) == 0.0
    decreases n
  {
    if n > 0 {
      assert Zeros(n)[..n - 1] == Zeros(n - 1);
      ZeroDot(f, n - 1);
    }
  }

  // ---- The state as a sum over the inputs ----

  /** How long input k lasts, in the time of channel i: softplus of the projected input. */
  function Duration(m: Math, p: Params, x: seq<real>, i: nat): real {
    var d := Dot(Row(p.deltaProj, i), x);
    if d > 20.0 then d else m.log1p(m.exp(d))
  }

  /** The time of channel i that passes during the inputs. */
  function Elapsed(m: Math, p: Params, xs: seq<seq<real>>, i: nat): real
    decreases |xs|
  {
    if xs == [] then 0.0 else Elapsed(m, p, xs[..|xs| - 1], i) + Duration(m, p, xs[|xs| - 1], i)
  }

  /** What is left after time t of one unit in channel i. */
  function Fade(m: Math, p: Params, t: real, i: nat): real {
    m.exp(Times(-t, m.exp(p.aLog(i))))
  }

  /** What input k adds to channel i when it comes. */
  function Impulse(m: Math, p: Params, x: seq<real>, i: nat): real {
    Times(Duration(m, p, x, i), Dot(Row(p.bProj, i), x))
  }

  /** Every impulse of the first n inputs, faded for as long as the inputs after it last. */
  function Faded(m: Math, p: Params, xs: seq<seq<real>>, n: nat, i: nat): real
    requires n <= |xs|
    decreases n
  {
    if n == 0 then 0.0
    else Faded(m, p, xs, n - 1, i)
         + Times(Fade(m, p, Elapsed(m, p, xs, i) - Elapsed(m, p, xs[..n], i), i), Impulse(m, p, xs[n - 1], i))
  }

  /** The states without clamping. */
  function Free(m: Math, p: Params, h: seq<real>, xs: seq<seq<real>>): (r: seq<real>)
    ensures |r| == |h|
    decreases |xs|
  {
    if xs == [] then h else Next(m, p, Free(m, p, h, xs[..|xs| - 1]), xs[|xs| - 1])
  }

  ghost predicate IsExp(e: real -> real) {
    e(0.0) == 1.0 && forall a, b :: Times(e(a), e(b)) == e(a + b)
  }

  lemma FadesAddUp(m: Math, p: Params, s: real, t: real, i: nat)
    requires IsExp(m.exp)
    ensures Times(Fade(m, p, s, i), Fade(m, p, t, i)) == Fade(m, p, s + t, i)
    ensures Fade(m, p, 0.0, i) == 1.0
  {
    var a := m.exp(p.aLog(i));
    TimesNegated(s, t, a);
    assert Times(m.exp(Times(-s, a)), m.exp(Times(-t, a))) == m.exp(Times(-s, a) + Times(-t, a));
  }

  lemma TimesNegated(s: real, t: real, a: real)
    ensures Times(-s, a) + Times(-t, a) == Times(-(s + t), a) && Times(-0.0, a) == 0.0
  {}

  /** One input more fades all that was there by its duration. */
  lemma {:induction false} FadedOnce(m: Math, p: Params, xs: seq<seq<real>>, x: seq<real>, n: nat, i: nat)
    requires IsExp(m.exp) && n <= |xs|
    ensures Faded(m, p, xs + [x], n, i) == Times(Fade(m, p, Duration(m, p, x, i), i), Faded(m, p, xs, n, i))
    decreases n
  {
    hide Times, Fade, Impulse, Duration, IsExp;
    var d := Duration(m, p, x, i);
    var f := Fade(m, p, d, i);
    if n == 0 {
      Zero(f);
    } else {
      FadedOnce(m, p, xs, x, n - 1, i);
      assert (xs + [x])[..n] == xs[..n] && (xs + [x])[..|xs|] == xs && (xs + [x])[n - 1] == xs[n - 1];
      var t := Elapsed(m, p, xs, i) - Elapsed(m, p, xs[..n], i);
      FadesAddUp(m, p, d, t, i);
      Associate(f, Fade(m, p, t, i), Impulse(m, p, xs[n - 1], i));
      Distribute(f, Faded(m, p, xs, n - 1, i), Times(Fade(m, p, t, i), Impulse(m, p, xs[n - 1], i)));
      assert Elapsed(m, p, xs + [x], i) == Elapsed(m, p, xs, i) + d;
      assert d + t == Elapsed(m, p, xs + [x], i) - Elapsed(m, p, (xs + [x])[..n], i);
    }
  }

  /** As long as nothing is clamped, the state is the initial one faded over the whole time plus
      every input's impulse faded since it came: a convolution with an exponential. */
  lemma {:induction false} StateIsConvolution(m: Math, p: Params, h: seq<real>, xs: seq<seq<real>>, i: nat)
    requires IsExp(m.exp) && i < |h|
    ensures Free(m, p, h, xs)[i] == Times(Fade(m, p, Elapsed(m, p, xs, i), i), h[i]) + Faded(m, p, xs, |xs|, i)
    decreases |xs|
  {
    hide Times, Fade, Impulse, Duration, IsExp, NextAt;
    if xs == [] {
      FadesAddUp(m, p, 0.0, 0.0, i);
      OneTimes(h[i]);
    } else {
      var n := |xs| - 1;
      var front, x := xs[..n], xs[n];
      var d := Duration(m, p, x, i);
      assert front + [x] == xs && xs[..|xs|] == xs;
      StateIsConvolution(m, p, h, front, i);
      FadedOnce(m, p, front, x, n, i);
      FadesAddUp(m, p, d, Elapsed(m, p, front, i), i);
      FadesAddUp(m, p, 0.0, 0.0, i);
      OneTimes(Impulse(m, p, x, i));
      var f := Fade(m, p, d, i);
      Associate(f, Fade(m, p, Elapsed(m, p, front, i), i), h[i]);
      Distribute(f, Times(Fade(m, p, Elapsed(m, p, front, i), i), h[i]), Faded(m, p, front, n, i));
      NextForm(m, p, Free(m, p, h, front)[i], x, i);
    }
  }

  lemma NextForm(m: Math, p: Params, h: real, x: seq<real>, i: nat)
    ensures NextAt(m, p, h, x, i) == Times(Fade(m, p, Duration(m, p, x, i), i), h) + Impulse(m, p, x, i)
  {
    hide Times, Dot;
  }

  /** Steps in a row, and none clamped or refused. */
  ghost predicate Calm(m: Math, p: Params, h: seq<real>, xs: seq<seq<real>>, maxEnergy: real)
    decreases |xs|
  {
    xs == [] || (Calm(m, p, h, xs[..|xs| - 1], maxEnergy) && AllFinite(m, Free(m, p, h, xs))
                 && SumSq(Free(m, p, h, xs)) <= maxEnergy * maxEnergy)
  }

  ghost function After(m: Math, p: Params, h: seq<real>, xs: seq<seq<real>>, maxEnergy: real, clampLimit: real): Option<seq<real>>
    decreases |xs|
  {
    if xs == [] then Some(h)
    else
      match After(m, p, h, xs[..|xs| - 1], maxEnergy, clampLimit)
      case None => None
      case Some(g) => Stepped(m, p, g, xs[|xs| - 1], maxEnergy, clampLimit)
  }

  /** The model's own steps, as long as the energy stays within the limit, are that convolution. */
  lemma {:induction false} CalmRunIsConvolution(m: Math, p: Params, h: seq<real>, xs: seq<seq<real>>, maxEnergy: real,
      clampLimit: real, i: nat)
    requires IsExp(m.exp) && i < |h| && maxEnergy >= 0.0 && clampLimit >= 0.0 && Calm(m, p, h, xs, maxEnergy)
    ensures After(m, p, h, xs, maxEnergy, clampLimit) == Some(Free(m, p, h, xs))
    ensures Free(m, p, h, xs)[i] == Times(Fade(m, p, Elapsed(m, p, xs, i), i), h[i]) + Faded(m, p, xs, |xs|, i)
    decreases |xs|
  {
    hide SumSq, Next, AllFinite, Stepped, IsExp, Fade, Times, Faded;
    StateIsConvolution(m, p, h, xs, i);
    if xs != [] {
      CalmRunIsConvolution(m, p, h, xs[..|xs| - 1], maxEnergy, clampLimit, i);
      StepOutcome(m, p, Free(m, p, h, xs[..|xs| - 1]), xs[|xs| - 1], maxEnergy, clampLimit);
    }
  }
}
