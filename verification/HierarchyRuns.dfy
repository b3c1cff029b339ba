/** What a run of the hierarchy is: which layer steps on what input in which call, and what the
    baseline, the drift and the anomaly history are of the calls so far. */
module HierarchyRuns {
  import opened WeightedStats
  import opened Ssm
  import opened Hierarchy

  ghost predicate CallsOk(calls: seq<Call>) {
    forall k :: 0 <= k < |calls| ==> |calls[k].seg.vector| == STATE_DIM
  }

  /** sqrt(driftSq) compared with a limit, either way. */
  predicate DriftAbove(driftSq: real, limit: real) {
    limit < 0.0 || driftSq > limit * limit
  }

  predicate DriftBelow(driftSq: real, limit: real) {
    limit > 0.0 && driftSq < limit * limit
  }

  /** Call n makes layer l take a step: it is forced, or the layer's turn has come or a signal is
      strong enough, and no rule against noise applies. The signals are those before the call. */
  ghost predicate Steps(c: Config, calls: seq<Call>, n: nat, l: nat)
    requires ConfigOk(c) && CallsOk(calls) && n < |calls| && l < LEVELS
  {
    var g, call := Replay(c, calls[..n]).global, calls[n];
    if l == 0 then
      && (call.force || c.promoteOnFlush || call.seg.trend > c.promoteThreshold)
      && (call.force || call.seg.trend >= c.skipThreshold || call.count >= c.minSegments)
    else if l == 1 then
      && (call.force || (n + 1) % c.ticks[1] == 0 || g.history > c.midAnomaly || DriftAbove(g.driftSq, c.midDrift))
      && (call.force || g.history >= c.skipThreshold || !DriftBelow(g.driftSq, c.skipDrift))
    else if l == 2 then
      && (call.force || (n + 1) % c.ticks[2] == 0 || g.history > c.globalHist || DriftAbove(g.driftSq, c.globalDrift))
      && (call.force || g.history >= c.globalHist || !DriftBelow(g.driftSq, c.globalDrift))
    else call.force || (n + 1) % c.ticks[3] == 0 || DriftAbove(g.driftSq, c.globalDrift * 1.5)
  }

  /** What it steps on: the segment, or the level above as this call leaves it. */
  ghost function InputOf(c: Config, calls: seq<Call>, n: nat, l: nat): seq<real>
    requires ConfigOk(c) && CallsOk(calls) && n < |calls| && l < LEVELS
  {
    if l == 0 then calls[n].seg.vector[..DIM] else Replay(c, calls[..n + 1]).global.levels[l - 1][..DIM]
  }

  /** A layer that steps takes on the new state and publishes its output; one whose step throws
      is cleared; one that does not step stays as it is. */
  ghost predicate Stepped1(c: Config, h: Hier, h': Hier, l: nat, steps: bool, input: seq<real>)
    requires ConfigOk(c) && WellFormed(h) && WellFormed(h') && l < LEVELS
  {
    var r := Stepped(c.math, c.params[l], h.states[l], input, c.maxEnergy, c.clampLimit);
    if !steps then h'.states[l] == h.states[l] && h'.global.levels[l] == h.global.levels[l]
    else if r.None? then h'.states[l] == Zeros(DIM) && h'.global.levels[l] == Zeros(STATE_DIM)
    else
      && h'.states[l] == r.value
      && h'.global.levels[l][..DIM] == Output(c.params[l], r.value, input, DIM)
      && h'.global.levels[l][DIM..] == Zeros(STATE_DIM - DIM)
  }

  lemma PromoteSteps(c: Config, h: Hier, l: nat, input: seq<real>)
    requires ConfigOk(c) && WellFormed(h) && l < LEVELS
    ensures var h' := Promote(c, h, l, input);
      && Stepped1(c, h, h', l, true, input)
      && forall k :: 0 <= k < LEVELS && k != l ==> h'.states[k] == h.states[k] && h'.global.levels[k] == h.global.levels[k]
  {
    hide Stepped, Output;
    SteppedLength(c.math, c.params[l], h.states[l], input, c.maxEnergy, c.clampLimit);
  }

  lemma ReplayStep(c: Config, calls: seq<Call>, n: nat)
    requires ConfigOk(c) && CallsOk(calls) && n < |calls|
    ensures Replay(c, calls[..n + 1]) == Updated(c, Replay(c, calls[..n]), calls[n].seg, calls[n].count, calls[n].force)
  {
    hide Updated;
    assert calls[..n + 1][..n] == calls[..n];
  }

  lemma NoCalls(c: Config, calls: seq<Call>)
    requires ConfigOk(c)
    ensures Replay(c, calls[..0]) == InitHier() && InitHier().tick == 0
  {}

  lemma {:induction false} TicksCount(c: Config, calls: seq<Call>, n: nat)
    requires ConfigOk(c) && CallsOk(calls) && n <= |calls|
    ensures Replay(c, calls[..n]).tick == n
    decreases n
  {
    hide Replay, InitHier, WellFormed, Updated;
    if n == 0 {
      NoCalls(c, calls);
    } else {
      var m := n - 1;
      TicksCount(c, calls, m);
      ReplayStep(c, calls, m);
      UpdatedTicks(c, Replay(c, calls[..m]), calls[m]);
    }
  }

  lemma UpdatedTicks(c: Config, h: Hier, call: Call)
    requires ConfigOk(c) && WellFormed(h) && |call.seg.vector| == STATE_DIM
    ensures Updated(c, h, call.seg, call.count, call.force).tick == h.tick + 1
  {
    hide WantsL2s, WantsL2m, WantsL2l, WantsGlobal, BaselineStep, SumSq, Promote;
  }

  /** One of the four promotions of a call. */
  ghost function Maybe(c: Config, h: Hier, l: nat, steps: bool, input: seq<real>): (r: Hier)
    requires ConfigOk(c) && WellFormed(h) && l < LEVELS
    ensures WellFormed(r)
  {
    if steps then Promote(c, h, l, input) else h
  }

  lemma MaybeSteps(c: Config, h: Hier, l: nat, steps: bool, input: seq<real>)
    requires ConfigOk(c) && WellFormed(h) && l < LEVELS
    ensures var h' := Maybe(c, h, l, steps, input);
      && Stepped1(c, h, h', l, steps, input)
      && forall k :: 0 <= k < LEVELS && k != l ==> h'.states[k] == h.states[k] && h'.global.levels[k] == h.global.levels[k]
  {
    hide Promote, Stepped1;
    if steps {
      PromoteSteps(c, h, l, input);
    } else {
      NoStep(c, h, l, input);
    }
  }

  lemma NoStep(c: Config, h: Hier, l: nat, input: seq<real>)
    requires ConfigOk(c) && WellFormed(h) && l < LEVELS
    ensures Stepped1(c, h, h, l, false, input)
  {}

  /** A layer's step is seen in any two states that agree with those around it on the layer. */
  lemma StepSeen(c: Config, h: Hier, h': Hier, g: Hier, g': Hier, l: nat, steps: bool, input: seq<real>)
    requires ConfigOk(c) && WellFormed(h) && WellFormed(h') && WellFormed(g) && WellFormed(g') && l < LEVELS
    requires Stepped1(c, h, h', l, steps, input)
    requires g.states[l] == h.states[l] && g.global.levels[l] == h.global.levels[l]
    requires g'.states[l] == h'.states[l] && g'.global.levels[l] == h'.global.levels[l]
    ensures Stepped1(c, g, g', l, steps, input)
  {
    hide Stepped, Output;
  }

  /** What one call does to its four layers. */
  lemma UpdateSteps(c: Config, h: Hier, call: Call)
    requires ConfigOk(c) && WellFormed(h) && |call.seg.vector| == STATE_DIM
    ensures var h' := Updated(c, h, call.seg, call.count, call.force);
      var g, t := h.global, h.tick + 1;
      && Stepped1(c, h, h', 0, WantsL2s(c, call.seg, call.count, call.force), call.seg.vector[..DIM])
      && Stepped1(c, h, h', 1, WantsL2m(c, g.history, g.driftSq, t, call.force), h'.global.levels[0][..DIM])
      && Stepped1(c, h, h', 2, WantsL2l(c, g.history, g.driftSq, t, call.force), h'.global.levels[1][..DIM])
      && Stepped1(c, h, h', 3, WantsGlobal(c, g.driftSq, t, call.force), h'.global.levels[2][..DIM])
  {
    hide WantsL2s, WantsL2m, WantsL2l, WantsGlobal, BaselineStep, SumSq, Promote, Stepped1, Maybe;
    var g, t := h.global, h.tick + 1;
    var w0, w1 := WantsL2s(c, call.seg, call.count, call.force), WantsL2m(c, g.history, g.driftSq, t, call.force);
    var w2, w3 := WantsL2l(c, g.history, g.driftSq, t, call.force), WantsGlobal(c, g.driftSq, t, call.force);
    var h0 := h.(tick := t);
    var h1 := Maybe(c, h0, 0, w0, call.seg.vector[..DIM]);
    var h2 := Maybe(c, h1, 1, w1, h1.global.levels[0][..DIM]);
    var h3 := Maybe(c, h2, 2, w2, h2.global.levels[1][..DIM]);
    var h4 := Maybe(c, h3, 3, w3, h3.global.levels[2][..DIM]);
    var h' := Updated(c, h, call.seg, call.count, call.force);
    UpdatedIs(c, h, call, h4);
    MaybeSteps(c, h0, 0, w0, call.seg.vector[..DIM]);
    MaybeSteps(c, h1, 1, w1, h1.global.levels[0][..DIM]);
    MaybeSteps(c, h2, 2, w2, h2.global.levels[1][..DIM]);
    MaybeSteps(c, h3, 3, w3, h3.global.levels[2][..DIM]);
    StepSeen(c, h0, h1, h, h', 0, w0, call.seg.vector[..DIM]);
    StepSeen(c, h1, h2, h, h', 1, w1, h1.global.levels[0][..DIM]);
    StepSeen(c, h2, h3, h, h', 2, w2, h2.global.levels[1][..DIM]);
    StepSeen(c, h3, h4, h, h', 3, w3, h3.global.levels[2][..DIM]);
  }

  lemma UpdatedIs(c: Config, h: Hier, call: Call, h4: Hier)
    requires ConfigOk(c) && WellFormed(h) && |call.seg.vector| == STATE_DIM && WellFormed(h4)
    requires var g, t := h.global, h.tick + 1;
      var h1 := Maybe(c, h.(tick := t), 0, WantsL2s(c, call.seg, call.count, call.force), call.seg.vector[..DIM]);
      var h2 := Maybe(c, h1, 1, WantsL2m(c, g.history, g.driftSq, t, call.force), h1.global.levels[0][..DIM]);
      var h3 := Maybe(c, h2, 2, WantsL2l(c, g.history, g.driftSq, t, call.force), h2.global.levels[1][..DIM]);
      h4 == Maybe(c, h3, 3, WantsGlobal(c, g.driftSq, t, call.force), h3.global.levels[2][..DIM])
    ensures var h' := Updated(c, h, call.seg, call.count, call.force);
      h' == Settle(h4, call.seg.trend) && h'.states == h4.states && h'.global.levels == h4.global.levels
  {
    hide WantsL2s, WantsL2m, WantsL2l, WantsGlobal, BaselineStep, SumSq, Promote;
  }

  /** In every call of every run each layer steps exactly when it is its turn, on the level above
      as this very call leaves it, and otherwise keeps its state and what it published. */
  lemma LayersStepInTurn(c: Config, calls: seq<Call>, n: nat, l: nat)
    requires ConfigOk(c) && CallsOk(calls) && n < |calls| && l < LEVELS
    ensures Stepped1(c, Replay(c, calls[..n]), Replay(c, calls[..n + 1]), l, Steps(c, calls, n, l), InputOf(c, calls, n, l))
  {
    hide Replay, Updated, Stepped1, WellFormed;
    ReplayStep(c, calls, n);
    TicksCount(c, calls, n);
    UpdateSteps(c, Replay(c, calls[..n]), calls[n]);
  }

  /** With the default parameters every channel is on its own: it is driven by its own entry of
      the input alone, with time step softplus(x/2) and a tenth of the input. */
  lemma DefaultChannels(m: Math, h: real, x: seq<real>, i: nat)
    requires i < |x|
    ensures var t := Softplus(m, 0.5 * x[i]);
      NextAt(m, DefaultParams(), h, x, i) == Times(m.exp(Times(-t, m.exp(-0.5))), h) + Times(t, 0.1 * x[i])
  {
    hide Dot;
    ScaledDot(0.5, i, x);
    ScaledDot(0.1, i, x);
    RowsAgree(i, x);
    var p, t := DefaultParams(), Softplus(m, 0.5 * x[i]);
    assert Delta(m, p, x, i) == t;
    assert p.aLog(i) == -0.5;
    assert Decay(m, p, t, i) == m.exp(Times(-t, m.exp(-0.5)));
    assert Dot(Row(p.bProj, i), x) == 0.1 * x[i];
  }

  /** The projection by a multiple of the identity. */
  function Multiple(f: real, i: nat): nat -> real {
    (j: nat) => Times(f, Identity(i, j))
  }

  lemma {:induction false} ScaledDot(f: real, i: nat, v: seq<real>)
    ensures Dot(Multiple(f, i), v) == if i < |v| then f * v[i] else 0.0
    decreases |v|
  {
    if v != [] {
      ScaledDot(f, i, v[..|v| - 1]);
    }
  }

  lemma {:induction false} SameDot(f: nat -> real, g: nat -> real, v: seq<real>)
    requires forall j :: f(j) == g(j)
    ensures Dot(f, v) == Dot(g, v)
    decreases |v|
  {
    if v != [] {
      SameDot(f, g, v[..|v| - 1]);
    }
  }

  lemma RowsAgree(i: nat, v: seq<real>)
    ensures Dot(Row(DefaultParams().deltaProj, i), v) == Dot(Multiple(0.5, i), v)
    ensures Dot(Row(DefaultParams().bProj, i), v) == Dot(Multiple(0.1, i), v)
  {
    hide Dot;
    SameDot(Row(DefaultParams().deltaProj, i), Multiple(0.5, i), v);
    SameDot(Row(DefaultParams().bProj, i), Multiple(0.1, i), v);
  }

  // ---- The signals ----

  function Trends(calls: seq<Call>): (r: seq<real>)
    ensures |r| == |calls|
  {
    seq(|calls|, k requires 0 <= k < |calls| => calls[k].seg.trend)
  }

  /** Entry i of the deepest level after each call. */
  ghost function Deepest(c: Config, calls: seq<Call>, i: nat): seq<real>
    requires ConfigOk(c) && CallsOk(calls) && i < DIM
    decreases |calls|
  {
    if calls == [] then []
    else Deepest(c, calls[..|calls| - 1], i) + [Replay(c, calls).global.levels[LEVELS - 1][i]]
  }

  /** What a call makes of the signals, from the deepest level it leaves. */
  lemma UpdateSettles(c: Config, h: Hier, call: Call)
    requires ConfigOk(c) && WellFormed(h) && |call.seg.vector| == STATE_DIM
    ensures var h' := Updated(c, h, call.seg, call.count, call.force);
      && h'.global.history == MeanStep(0.05, h.global.history, call.seg.trend)
      && (forall i :: 0 <= i < DIM ==>
            h'.global.baseline[i] == MeanStep(0.01, h.global.baseline[i], h'.global.levels[LEVELS - 1][i]))
      && h'.global.driftSq == SumSq(Difference(h'.global.levels[LEVELS - 1][..DIM], h'.global.baseline[..DIM]))
  {
    hide WantsL2s, WantsL2m, WantsL2l, WantsGlobal, SumSq, Promote, MeanStep;
  }

  lemma LastCall(c: Config, calls: seq<Call>)
    requires ConfigOk(c) && CallsOk(calls) && calls != []
    ensures var n := |calls| - 1;
      Replay(c, calls) == Updated(c, Replay(c, calls[..n]), calls[n].seg, calls[n].count, calls[n].force)
  {
    hide Updated;
  }

  /** The anomaly history is the exponentially weighted mean of the trends of all segments. */
  lemma {:induction false} HistoryIsTrendMean(c: Config, calls: seq<Call>)
    requires ConfigOk(c) && CallsOk(calls)
    ensures var ps, m := Exponential(0.05, Trends(calls)), Replay(c, calls).global.history; Describes(ps, m, Spread(ps, m))
    decreases |calls|
  {
    hide Exponential, Scaled, MeanStep, Updated, Total, Mean, Spread, NonnegWeights, Replay, WellFormed;
    if calls == [] {
      assert calls[..0] == calls && Trends(calls) == [];
      NoCalls(c, calls);
      StartDescribes();
    } else {
      var n := |calls| - 1;
      HistoryIsTrendMean(c, calls[..n]);
      LastCall(c, calls);
      var h := Replay(c, calls[..n]);
      UpdateSettles(c, h, calls[n]);
      var ps := Exponential(0.05, Trends(calls[..n]));
      MixDescribes(ps, h.global.history, Spread(ps, h.global.history), 0.05, calls[n].seg.trend);
      ExponentialGrows(0.05, Trends(calls[..n]), calls[n].seg.trend);
      assert Trends(calls) == Trends(calls[..n]) + [calls[n].seg.trend];
    }
  }

  /** The baseline is, entry by entry, the exponentially weighted mean of the deepest level over
      all calls. */
  lemma {:induction false} BaselineIsLevelMean(c: Config, calls: seq<Call>, i: nat)
    requires ConfigOk(c) && CallsOk(calls) && i < DIM
    ensures var ps, m := Exponential(0.01, Deepest(c, calls, i)), Replay(c, calls).global.baseline[i];
      Describes(ps, m, Spread(ps, m))
    decreases |calls|
  {
    hide Exponential, Scaled, MeanStep, Updated, Total, Mean, Spread, NonnegWeights, Replay;
    if calls == [] {
      assert calls[..0] == calls;
      NoCalls(c, calls);
      StartDescribes();
    } else {
      var n := |calls| - 1;
      BaselineIsLevelMean(c, calls[..n], i);
      LastCall(c, calls);
      var h := Replay(c, calls[..n]);
      UpdateSettles(c, h, calls[n]);
      var ps, x := Exponential(0.01, Deepest(c, calls[..n], i)), Replay(c, calls).global.levels[LEVELS - 1][i];
      MixDescribes(ps, h.global.baseline[i], Spread(ps, h.global.baseline[i]), 0.01, x);
      ExponentialGrows(0.01, Deepest(c, calls[..n], i), x);
    }
  }

  /** The drift is the distance between the deepest level and its mean. */
  lemma DriftIsDistance(c: Config, calls: seq<Call>)
    requires ConfigOk(c) && CallsOk(calls)
    ensures var g := Replay(c, calls).global;
      g.driftSq == SumSq(Difference(g.levels[LEVELS - 1][..DIM], g.baseline[..DIM]))
  {
    hide Updated, SumSq;
    if calls == [] {
      assert Difference(Zeros(STATE_DIM)[..DIM], Zeros(STATE_DIM)[..DIM]) == Zeros(DIM);
      ZeroSum(DIM);
    } else {
      LastCall(c, calls);
      UpdateSettles(c, Replay(c, calls[..|calls| - 1]), calls[|calls| - 1]);
    }
  }
}
