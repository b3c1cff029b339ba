/** HierarchicalSSM::update of include/ids_ssm.hpp:102-274 with the default layer parameters
    of makeHSSM (include/ids.hpp:1107-1124). */
module Hierarchy {
  import opened WeightedStats
  import opened Ssm

  const DIM := 32
  const STATE_DIM := 128
  const LEVELS := 4

  datatype Config = Config(
    math: Math, params: seq<Params>, ticks: seq<nat>, maxEnergy: real, clampLimit: real,
    promoteOnFlush: bool, promoteThreshold: real, midAnomaly: real, midDrift: real,
    globalDrift: real, globalHist: real, skipThreshold: real, skipDrift: real, minSegments: nat)

  ghost predicate ConfigOk(c: Config) {
    && |c.params| == |c.ticks| == LEVELS && c.clampLimit >= 0.0
    && forall l :: 0 <= l < LEVELS ==> c.ticks[l] > 0
  }

  function Identity(i: nat, j: nat): real {
    if i == j then 1.0 else 0.0
  }

  function DefaultParams(): Params {
    Params((i: nat) => -0.5, (i: nat, j: nat) => Times(0.1, Identity(i, j)), (i: nat, j: nat) => Identity(i, j),
           (i: nat) => 0.0, (i: nat, j: nat) => Times(0.5, Identity(i, j)))
  }

  /** The layers of makeHSSM; every other setting is free. */
  ghost predicate DefaultLayers(c: Config) {
    |c.params| == LEVELS && forall l :: 0 <= l < LEVELS ==> c.params[l] == DefaultParams()
  }

  /** drift_score is kept by its square. */
  datatype Global = Global(levels: seq<seq<real>>, baseline: seq<real>, history: real, driftSq: real)

  /** The layers' states, the published state and the tick. */
  datatype Hier = Hier(states: seq<seq<real>>, global: Global, tick: nat)

  datatype Segment = Segment(vector: seq<real>, trend: real)

  /** sqrt(sq) < bound. */
  predicate NormBelow(sq: real, bound: real) {
    bound > 0.0 && sq < Square(bound)
  }

  function Padded(v: seq<real>): (r: seq<real>)
    requires |v| == DIM
    ensures |r| == STATE_DIM && r[..DIM] == v && r[DIM..] == Zeros(STATE_DIM - DIM)
  {
    v + Zeros(STATE_DIM - DIM)
  }

  ghost predicate WellFormed(h: Hier) {
    && |h.states| == |h.global.levels| == LEVELS
    && (forall l :: 0 <= l < LEVELS ==> |h.states[l]| == DIM && |h.global.levels[l]| == STATE_DIM)
    && |h.global.baseline| == STATE_DIM
  }

  function ZeroLevels(): (r: seq<seq<real>>)
    ensures |r| == LEVELS && forall l :: 0 <= l < LEVELS ==> r[l] == Zeros(STATE_DIM)
  {
    seq(LEVELS, l => Zeros(STATE_DIM))
  }

  function InitHier(): Hier {
    Hier(seq(LEVELS, l => Zeros(DIM)), Global(ZeroLevels(), Zeros(STATE_DIM), 0.0, 0.0), 0)
  }

  // ---- Promotion ----

  /** Layer l takes one step; when the step throws, the layer and its level are cleared. */
  ghost function Promote(c: Config, h: Hier, l: nat, input: seq<real>): (r: Hier)
    requires ConfigOk(c) && WellFormed(h) && l < LEVELS
    ensures WellFormed(r) && r.tick == h.tick && r.global.baseline == h.global.baseline
    ensures r.global.history == h.global.history && r.global.driftSq == h.global.driftSq
  {
    match Stepped(c.math, c.params[l], h.states[l], input, c.maxEnergy, c.clampLimit)
    case None => h.(states := h.states[l := Zeros(DIM)], global := h.global.(levels := h.global.levels[l := Zeros(STATE_DIM)]))
    case Some(s) =>
      SteppedLength(c.math, c.params[l], h.states[l], input, c.maxEnergy, c.clampLimit);
      h.(states := h.states[l := s],
         global := h.global.(levels := h.global.levels[l := Padded(Output(c.params[l], s, input, DIM))]))
  }

  lemma SteppedLength(m: Math, p: Params, h: seq<real>, x: seq<real>, maxEnergy: real, clampLimit: real)
    ensures var r := Stepped(m, p, h, x, maxEnergy, clampLimit); r.Some? ==> |r.value| == |h|
  {}

  predicate WantsL2s(c: Config, seg: Segment, count: nat, force: bool) {
    && (force || c.promoteOnFlush || seg.trend > c.promoteThreshold)
    && !(!force && seg.trend < c.skipThreshold && count < c.minSegments)
  }

  predicate WantsL2m(c: Config, history: real, driftSq: real, tick: nat, force: bool)
    requires |c.ticks| == LEVELS && c.ticks[1] > 0
  {
    && (force || tick % c.ticks[1] == 0 || history > c.midAnomaly || NormExceeds(driftSq, c.midDrift))
    && !(!force && history < c.skipThreshold && NormBelow(driftSq, c.skipDrift))
  }

  predicate WantsL2l(c: Config, history: real, driftSq: real, tick: nat, force: bool)
    requires |c.ticks| == LEVELS && c.ticks[2] > 0
  {
    && (force || tick % c.ticks[2] == 0 || NormExceeds(driftSq, c.globalDrift) || history > c.globalHist)
    && !(!force && history < c.globalHist && NormBelow(driftSq, c.globalDrift))
  }

  predicate WantsGlobal(c: Config, driftSq: real, tick: nat, force: bool)
    requires |c.ticks| == LEVELS && c.ticks[3] > 0
  {
    force || tick % c.ticks[3] == 0 || NormExceeds(driftSq, c.globalDrift * 1.5)
  }

  /** The baseline's dimension k follows this dimension of the deepest level. */
  function Source(k: nat): nat {
    if k < DIM then k else k - DIM
  }

  function BaselineStep(baseline: seq<real>, deepest: seq<real>): (r: seq<real>)
    requires |baseline| == |deepest| == STATE_DIM
    ensures |r| == STATE_DIM && forall k :: 0 <= k < STATE_DIM ==> r[k] == MeanStep(0.01, baseline[k], deepest[Source(k)])
  {
    seq(STATE_DIM, k requires 0 <= k < STATE_DIM => MeanStep(0.01, baseline[k], deepest[Source(k)]))
  }

  function Settle(h: Hier, trend: real): Hier
    requires |h.global.levels| == LEVELS && |h.global.levels[LEVELS - 1]| == |h.global.baseline| == STATE_DIM
  {
    var g := h.global;
    var baseline := BaselineStep(g.baseline, g.levels[LEVELS - 1]);
    h.(global := Global(g.levels, baseline, MeanStep(0.05, g.history, trend),
                        SumSq(Difference(g.levels[LEVELS - 1][..DIM], baseline[..DIM]))))
  }

  ghost function Updated(c: Config, h: Hier, seg: Segment, count: nat, force: bool): (r: Hier)
    requires ConfigOk(c) && WellFormed(h) && |seg.vector| == STATE_DIM
    ensures WellFormed(r)
  {
    var g, tick := h.global, h.tick + 1;
    var h0 := h.(tick := tick);
    var h1 := if WantsL2s(c, seg, count, force) then Promote(c, h0, 0, seg.vector[..DIM]) else h0;
    var h2 := if WantsL2m(c, g.history, g.driftSq, tick, force) then Promote(c, h1, 1, h1.global.levels[0][..DIM]) else h1;
    var h3 := if WantsL2l(c, g.history, g.driftSq, tick, force) then Promote(c, h2, 2, h2.global.levels[1][..DIM]) else h2;
    var h4 := if WantsGlobal(c, g.driftSq, tick, force) then Promote(c, h3, 3, h3.global.levels[2][..DIM]) else h3;
    Settle(h4, seg.trend)
  }

  // ---- The class ----

  class HierarchicalSSM {
    const cfg: Config
    const layers: seq<SSM>
    var global: Global
    var tick: nat

    ghost predicate Valid()
      reads this, layers
    {
      && ConfigOk(cfg)
      && |layers| == LEVELS
      && (forall i, j :: 0 <= i < j < LEVELS ==> layers[i] != layers[j])
      && (forall l :: 0 <= l < LEVELS ==>
            && layers[l].math == cfg.math && layers[l].params == cfg.params[l]
            && layers[l].stateDim == layers[l].outDim == DIM)
      && WellFormed(View())
    }

    ghost function View(): Hier
      reads this, layers
    {
      Hier(seq(|layers|, l reads this, layers requires 0 <= l < |layers| => layers[l].state), global, tick)
    }

    constructor (cfg: Config)
      requires ConfigOk(cfg)
      ensures Valid() && View() == InitHier() && this.cfg == cfg
      ensures forall l :: 0 <= l < |layers| ==> fresh(layers[l])
    {
      var l0 := new SSM(cfg.math, cfg.params[0], DIM, DIM);
      var l1 := new SSM(cfg.math, cfg.params[1], DIM, DIM);
      var l2 := new SSM(cfg.math, cfg.params[2], DIM, DIM);
      var l3 := new SSM(cfg.math, cfg.params[3], DIM, DIM);
      this.cfg := cfg;
      layers := [l0, l1, l2, l3];
      global := InitHier().global;
      tick := 0;
      new;
      assert View().states == InitHier().states;
    }

    /** One try block of update: the step of layer l and its catch. */
    method PromoteLayer(l: nat, input: seq<real>)
      requires Valid() && l < LEVELS
      modifies this`global, layers[l]
      ensures Valid() && View() == Promote(cfg, old(View()), l, input)
    {
      hide Stepped, Output, Padded;
      ghost var before := View();
      assert before.states[l] == layers[l].state;
      SteppedLength(cfg.math, cfg.params[l], layers[l].state, input, cfg.maxEnergy, cfg.clampLimit);
      var out := layers[l].Step(input, cfg.maxEnergy, cfg.clampLimit);
      match out {
        case Some(y) => global := global.(levels := global.levels[l := Padded(y)]);
        case None =>
          layers[l].Reset();
          global := global.(levels := global.levels[l := Zeros(STATE_DIM)]);
      }
      assert View().states == before.states[l := layers[l].state];
    }

    method Update(seg: Segment, count: nat, force: bool)
      requires Valid() && |seg.vector| == STATE_DIM
      modifies this, layers
      ensures Valid() && View() == Updated(cfg, old(View()), seg, count, force)
    {
      hide Promote, WantsL2s, WantsL2m, WantsL2l, WantsGlobal, Settle, WellFormed, Valid, View;
      Parts();
      Tick();
      Parts();
      if WantsL2s(cfg, seg, count, force) {
        PromoteLayer(0, seg.vector[..DIM]);
        Parts();
      }
      if WantsL2m(cfg, global.history, global.driftSq, tick, force) {
        PromoteLayer(1, global.levels[0][..DIM]);
        Parts();
      }
      if WantsL2l(cfg, global.history, global.driftSq, tick, force) {
        PromoteLayer(2, global.levels[1][..DIM]);
        Parts();
      }
      if WantsGlobal(cfg, global.driftSq, tick, force) {
        PromoteLayer(3, global.levels[2][..DIM]);
        Parts();
      }
      SettleBaseline(seg.trend);
    }

    /** What Update reads of the fields. */
    lemma Parts()
      requires Valid()
      ensures ConfigOk(cfg) && |layers| == LEVELS && WellFormed(View())
      ensures View().global == global && View().tick == tick
      ensures |global.levels| == LEVELS && forall l :: 0 <= l < LEVELS ==> |global.levels[l]| == STATE_DIM
    {}

    method Tick()
      requires Valid()
      modifies this`tick
      ensures Valid() && View() == old(View()).(tick := old(tick) + 1)
    {
      ghost var before := View();
      tick := tick + 1;
      assert View().states == before.states;
    }

    /** The loops at the end of update. */
    method SettleBaseline(trend: real)
      requires Valid()
      modifies this`global
      ensures Valid() && View() == Settle(old(View()), trend)
    {
      hide MeanStep;
      ghost var before := View();
      var deepest := global.levels[LEVELS - 1];
      var baseline := TrackBaseline(global.baseline, deepest);
      var drift := DriftSq(deepest, baseline);
      global := Global(global.levels, baseline, MeanStep(0.05, global.history, trend), drift);
      assert View().states == before.states;
    }
  }

  method TrackBaseline(baseline: seq<real>, deepest: seq<real>) returns (r: seq<real>)
    requires |baseline| == |deepest| == STATE_DIM
    ensures r == BaselineStep(baseline, deepest)
  {
    hide MeanStep;
    r := baseline;
    for k := 0 to STATE_DIM
      invariant |r| == STATE_DIM
      invariant forall j :: 0 <= j < k ==> r[j] == MeanStep(0.01, baseline[j], deepest[Source(j)])
      invariant forall j :: k <= j < STATE_DIM ==> r[j] == baseline[j]
    {
      r := r[k := MeanStep(0.01, r[k], deepest[Source(k)])];
    }
  }

  method DriftSq(deepest: seq<real>, baseline: seq<real>) returns (sq: real)
    requires |baseline| == |deepest| == STATE_DIM
    ensures sq == SumSq(Difference(deepest[..DIM], baseline[..DIM]))
  {
    hide Square;
    ghost var diff := Difference(deepest[..DIM], baseline[..DIM]);
    sq := 0.0;
    for k := 0 to DIM
      invariant sq == SumSq(diff[..k])
    {
      assert diff[..k + 1][..k] == diff[..k];
      sq := sq + Square(deepest[k] - baseline[k]);
    }
    assert diff[..DIM] == diff;
  }

  // ---- Bounds over every run ----

  lemma {:induction false} IdentityDot(i: nat, v: seq<real>)
    ensures Dot(Row(DefaultParams().cProj, i), v) == if i < |v| then v[i] else 0.0
    decreases |v|
  {
    if v != [] {
      IdentityDot(i, v[..|v| - 1]);
    }
  }

  /** Under the default layers a layer's output is its state. */
  lemma DefaultOutput(s: seq<real>, x: seq<real>)
    ensures Output(DefaultParams(), s, x, |s|) == s
  {
    hide Dot;
    forall i | 0 <= i < |s| ensures OutputAt(DefaultParams(), s, x, i) == s[i] {
      IdentityDot(i, s);
    }
  }

  function Bound(c: Config): real {
    EnergyBound(DIM, c.maxEnergy, c.clampLimit)
  }

  ghost predicate Bounded(c: Config, h: Hier) {
    && WellFormed(h)
    && (forall l :: 0 <= l < LEVELS ==>
          SumSq(h.states[l]) <= Bound(c) && SumSq(h.global.levels[l][..DIM]) <= Bound(c))
    && SumSq(h.global.baseline[..DIM]) <= Bound(c)
    && h.global.driftSq <= 4.0 * Bound(c)
    && 0.0 <= h.global.history <= 1.0
  }

  lemma BoundNonneg(c: Config)
    ensures Bound(c) >= 0.0
  {}

  lemma InitBounded(c: Config)
    ensures Bounded(c, InitHier())
  {
    hide SumSq;
    ZeroSum(DIM);
    BoundNonneg(c);
    assert Zeros(STATE_DIM)[..DIM] == Zeros(DIM);
  }

  lemma PromoteBounded(c: Config, h: Hier, l: nat, input: seq<real>)
    requires ConfigOk(c) && DefaultLayers(c) && Bounded(c, h) && l < LEVELS
    ensures Bounded(c, Promote(c, h, l, input))
  {
    hide SumSq, Stepped, Padded, Output, EnergyBound;
    ZeroSum(DIM);
    BoundNonneg(c);
    assert Zeros(STATE_DIM)[..DIM] == Zeros(DIM);
    StepIsBounded(c.math, c.params[l], h.states[l], input, c.maxEnergy, c.clampLimit);
    match Stepped(c.math, c.params[l], h.states[l], input, c.maxEnergy, c.clampLimit)
    case None =>
    case Some(s) => DefaultOutput(s, input);
  }

  lemma SettleBounded(c: Config, h: Hier, trend: real)
    requires Bounded(c, h) && 0.0 <= trend <= 1.0
    ensures Bounded(c, Settle(h, trend))
  {
    hide SumSq, Bound, MeanStep;
    var deepest, baseline := h.global.levels[LEVELS - 1][..DIM], h.global.baseline[..DIM];
    var baseline' := BaselineStep(h.global.baseline, h.global.levels[LEVELS - 1]);
    assert baseline'[..DIM] == Mixed(0.01, baseline, deepest);
    MixStaysInside(0.01, baseline, deepest, Bound(c));
    DifferenceSum(deepest, baseline'[..DIM]);
    HistoryStays(h.global.history, trend);
  }

  lemma HistoryStays(history: real, trend: real)
    requires 0.0 <= history <= 1.0 && 0.0 <= trend <= 1.0
    ensures 0.0 <= MeanStep(0.05, history, trend) <= 1.0
  {}

  lemma UpdateBounded(c: Config, h: Hier, seg: Segment, count: nat, force: bool)
    requires ConfigOk(c) && DefaultLayers(c) && Bounded(c, h) && |seg.vector| == STATE_DIM && 0.0 <= seg.trend <= 1.0
    ensures Bounded(c, Updated(c, h, seg, count, force))
  {
    hide Promote, SumSq, Bound, Settle, WantsL2s, WantsL2m, WantsL2l, WantsGlobal, DefaultLayers;
    var g, tick := h.global, h.tick + 1;
    var h0 := h.(tick := tick);
    PromoteBounded(c, h0, 0, seg.vector[..DIM]);
    var h1 := if WantsL2s(c, seg, count, force) then Promote(c, h0, 0, seg.vector[..DIM]) else h0;
    PromoteBounded(c, h1, 1, h1.global.levels[0][..DIM]);
    var h2 := if WantsL2m(c, g.history, g.driftSq, tick, force) then Promote(c, h1, 1, h1.global.levels[0][..DIM]) else h1;
    PromoteBounded(c, h2, 2, h2.global.levels[1][..DIM]);
    var h3 := if WantsL2l(c, g.history, g.driftSq, tick, force) then Promote(c, h2, 2, h2.global.levels[1][..DIM]) else h2;
    PromoteBounded(c, h3, 3, h3.global.levels[2][..DIM]);
    var h4 := if WantsGlobal(c, g.driftSq, tick, force) then Promote(c, h3, 3, h3.global.levels[2][..DIM]) else h3;
    SettleBounded(c, h4, seg.trend);
  }

  /** One call of update. */
  datatype Call = Call(seg: Segment, count: nat, force: bool)

  ghost function Replay(c: Config, calls: seq<Call>): (h: Hier)
    requires ConfigOk(c) && forall k :: 0 <= k < |calls| ==> |calls[k].seg.vector| == STATE_DIM
    ensures WellFormed(h)
    decreases |calls|
  {
    if calls == [] then InitHier()
    else
      var last := calls[|calls| - 1];
      Updated(c, Replay(c, calls[..|calls| - 1]), last.seg, last.count, last.force)
  }

  // ---- The 128 entries of which 32 are in use ----

  /** Levels are zero beyond their 32 entries; the baseline repeats them once and is zero after. */
  ghost predicate Shaped(h: Hier) {
    && WellFormed(h)
    && (forall l :: 0 <= l < LEVELS ==> h.global.levels[l][DIM..] == Zeros(STATE_DIM - DIM))
    && h.global.baseline[DIM..2 * DIM] == h.global.baseline[..DIM]
    && h.global.baseline[2 * DIM..] == Zeros(STATE_DIM - 2 * DIM)
  }

  lemma PromoteShaped(c: Config, h: Hier, l: nat, input: seq<real>)
    requires ConfigOk(c) && Shaped(h) && l < LEVELS
    ensures Shaped(Promote(c, h, l, input))
  {
    hide Stepped, Padded, Output;
    SteppedLength(c.math, c.params[l], h.states[l], input, c.maxEnergy, c.clampLimit);
    assert Zeros(STATE_DIM)[DIM..] == Zeros(STATE_DIM - DIM);
  }

  lemma SettleShaped(h: Hier, trend: real)
    requires Shaped(h)
    ensures Shaped(Settle(h, trend))
  {
    hide SumSq, MeanStep;
    var deepest, baseline := h.global.levels[LEVELS - 1], h.global.baseline;
    var b := BaselineStep(baseline, deepest);
    forall k | 0 <= k < DIM ensures b[DIM + k] == b[k] {
      assert baseline[DIM..2 * DIM][k] == baseline[..DIM][k];
      assert Source(DIM + k) == k;
    }
    assert b[DIM..2 * DIM] == b[..DIM];
    forall k | 2 * DIM <= k < STATE_DIM ensures b[k] == 0.0 {
      assert baseline[2 * DIM..][k - 2 * DIM] == 0.0;
      assert deepest[DIM..][Source(k) - DIM] == 0.0;
      ZeroMeanStep();
    }
    assert b[2 * DIM..] == Zeros(STATE_DIM - 2 * DIM);
  }

  lemma ZeroMeanStep()
    ensures MeanStep(0.01, 0.0, 0.0) == 0.0
  {}

  lemma UpdateShaped(c: Config, h: Hier, seg: Segment, count: nat, force: bool)
    requires ConfigOk(c) && Shaped(h) && |seg.vector| == STATE_DIM
    ensures Shaped(Updated(c, h, seg, count, force))
  {
    hide Promote, SumSq, Settle, WantsL2s, WantsL2m, WantsL2l, WantsGlobal;
    var g, tick := h.global, h.tick + 1;
    var h0 := h.(tick := tick);
    PromoteShaped(c, h0, 0, seg.vector[..DIM]);
    var h1 := if WantsL2s(c, seg, count, force) then Promote(c, h0, 0, seg.vector[..DIM]) else h0;
    PromoteShaped(c, h1, 1, h1.global.levels[0][..DIM]);
    var h2 := if WantsL2m(c, g.history, g.driftSq, tick, force) then Promote(c, h1, 1, h1.global.levels[0][..DIM]) else h1;
    PromoteShaped(c, h2, 2, h2.global.levels[1][..DIM]);
    var h3 := if WantsL2l(c, g.history, g.driftSq, tick, force) then Promote(c, h2, 2, h2.global.levels[1][..DIM]) else h2;
    PromoteShaped(c, h3, 3, h3.global.levels[2][..DIM]);
    var h4 := if WantsGlobal(c, g.driftSq, tick, force) then Promote(c, h3, 3, h3.global.levels[2][..DIM]) else h3;
    SettleShaped(h4, seg.trend);
  }

  lemma InitShaped()
    ensures Shaped(InitHier())
  {}

  lemma {:induction false} RunsAreShaped(c: Config, calls: seq<Call>)
    requires ConfigOk(c)
    requires forall k :: 0 <= k < |calls| ==> |calls[k].seg.vector| == STATE_DIM
    ensures Shaped(Replay(c, calls))
    decreases |calls|
  {
    hide Shaped, Updated, InitHier;
    if calls == [] {
      InitShaped();
    } else {
      var calls', last := calls[..|calls| - 1], calls[|calls| - 1];
      RunsAreShaped(c, calls');
      UpdateShaped(c, Replay(c, calls'), last.seg, last.count, last.force);
    }
  }

  lemma {:induction false} SumSqConcat(a: seq<real>, b: seq<real>)
    ensures SumSq(a + b) == SumSq(a) + SumSq(b)
    decreases |b|
  {
    hide Square;
    if b == [] {
      assert a + b == a;
    } else {
      assert (a + b)[..|a + b| - 1] == a + b[..|b| - 1];
      SumSqConcat(a, b[..|b| - 1]);
    }
  }

  /** The whole arrays: a level is as long as its 32 entries, the baseline twice as long, squared. */
  lemma WholeArrays(h: Hier)
    requires Shaped(h)
    ensures forall l :: 0 <= l < LEVELS ==> SumSq(h.global.levels[l]) == SumSq(h.global.levels[l][..DIM])
    ensures SumSq(h.global.baseline) == 2.0 * SumSq(h.global.baseline[..DIM])
  {
    hide SumSq;
    forall l | 0 <= l < LEVELS ensures SumSq(h.global.levels[l]) == SumSq(h.global.levels[l][..DIM]) {
      var v := h.global.levels[l];
      assert v == v[..DIM] + v[DIM..];
      SumSqConcat(v[..DIM], v[DIM..]);
      ZeroSum(STATE_DIM - DIM);
    }
    var b := h.global.baseline;
    assert b == (b[..DIM] + b[DIM..2 * DIM]) + b[2 * DIM..];
    SumSqConcat(b[..DIM] + b[DIM..2 * DIM], b[2 * DIM..]);
    SumSqConcat(b[..DIM], b[DIM..2 * DIM]);
    ZeroSum(STATE_DIM - 2 * DIM);
  }

  /** Over every run on segments with trends in [0,1], with the default layers and any other
      settings: no layer and no level leaves the ball of radius max_energy (twice that when the
      clamp is looser), nor does the part of the baseline that the drift is measured against;
      the whole baseline, which holds that part twice, has at most twice the squared norm; the
      drift stays within the diameter, and the anomaly history stays in [0,1]. */
  lemma RunsAreBounded(c: Config, calls: seq<Call>)
    requires ConfigOk(c) && DefaultLayers(c)
    requires forall k :: 0 <= k < |calls| ==> |calls[k].seg.vector| == STATE_DIM && 0.0 <= calls[k].seg.trend <= 1.0
    ensures var h := Replay(c, calls);
      && Bounded(c, h) && Shaped(h)
      && (forall l :: 0 <= l < LEVELS ==> SumSq(h.global.levels[l]) <= Bound(c))
      && SumSq(h.global.baseline) <= 2.0 * Bound(c)
  {
    hide Replay, SumSq, DefaultLayers, Bound, Shaped;
    RunsKeepBounds(c, calls);
    RunsAreShaped(c, calls);
    WholeArrays(Replay(c, calls));
  }

  lemma {:induction false} RunsKeepBounds(c: Config, calls: seq<Call>)
    requires ConfigOk(c) && DefaultLayers(c)
    requires forall k :: 0 <= k < |calls| ==> |calls[k].seg.vector| == STATE_DIM && 0.0 <= calls[k].seg.trend <= 1.0
    ensures Bounded(c, Replay(c, calls))
    decreases |calls|
  {
    hide Bounded, Updated, InitHier, WellFormed, DefaultLayers;
    if calls == [] {
      InitBounded(c);
    } else {
      var calls', last := calls[..|calls| - 1], calls[|calls| - 1];
      RunsKeepBounds(c, calls');
      UpdateBounded(c, Replay(c, calls'), last.seg, last.count, last.force);
    }
  }

  /** With the default energy limits, 100 and 10, the drift score never exceeds 200. */
  lemma DefaultDriftBound(c: Config, calls: seq<Call>)
    requires ConfigOk(c) && DefaultLayers(c) && c.maxEnergy == 100.0 && c.clampLimit == 10.0
    requires forall k :: 0 <= k < |calls| ==> |calls[k].seg.vector| == STATE_DIM && 0.0 <= calls[k].seg.trend <= 1.0
    ensures !NormExceeds(Replay(c, calls).global.driftSq, 2.0 * c.maxEnergy)
  {
    hide Replay, SumSq, DefaultLayers;
    RunsKeepBounds(c, calls);
    assert Bound(c) == 10000.0;
  }
}
