/** The adaptive baselines of include/ids_adaptive.hpp: one exponentially weighted mean and
    variance per embedding dimension and scope, frozen while an event looks anomalous. */
module Adaptive {
  import opened WeightedStats

  const EMBEDDING_DIM := 64
  const FREEZE_THRESHOLD := 0.70

  function Zeros(): (r: seq<real>)
    ensures |r| == EMBEDDING_DIM && forall i :: 0 <= i < |r| ==> r[i] == 0.0
  {
    seq(EMBEDDING_DIM, i => 0.0)
  }

  type Vec = s: seq<real> | |s| == EMBEDDING_DIM witness Zeros()

  datatype Option<T> = None | Some(value: T)

  datatype Baseline = Baseline(
    mean: Vec, variance: Vec, anomaly: real, rate: real, entropy: real, drift: real, frozen: bool)

  function Fresh(): Baseline {
    Baseline(Zeros(), Zeros(), 0.0, 0.0, 0.0, 0.0, false)
  }

  /** What one event contributes: L0's score, entropy and embedding, L1's rate, L2's drift. */
  datatype Observation = Observation(score: real, entropy: real, embedding: Vec, rate: real, drift: real)

  // ---- One baseline ----

  /** Dimension 0 of the variance is updated twice: with the score first. */
  function VarianceBefore(b: Baseline, o: Observation, a: real, i: nat): real
    requires i < EMBEDDING_DIM
  {
    if i == 0 then VarianceStep(a, b.anomaly, b.variance[0], o.score) else b.variance[i]
  }

  function Updated(b: Baseline, o: Observation, a: real): (r: Baseline)
    ensures b.frozen ==> r == b
    ensures !b.frozen ==> forall i :: 0 <= i < EMBEDDING_DIM ==>
              && r.mean[i] == MeanStep(a, b.mean[i], o.embedding[i])
              && r.variance[i] == VarianceStep(a, b.mean[i], VarianceBefore(b, o, a, i), o.embedding[i])
  {
    if b.frozen then b
    else Baseline(
      seq(EMBEDDING_DIM, i requires 0 <= i < EMBEDDING_DIM => MeanStep(a, b.mean[i], o.embedding[i])),
      seq(EMBEDDING_DIM, i requires 0 <= i < EMBEDDING_DIM =>
        VarianceStep(a, b.mean[i], VarianceBefore(b, o, a, i), o.embedding[i])),
      MeanStep(a, b.anomaly, o.score), MeanStep(a, b.rate, o.rate),
      MeanStep(a, b.entropy, o.entropy), MeanStep(a, b.drift, o.drift), false)
  }

  /** update_baseline, with its loop over the dimensions. */
  method UpdateBaseline(b: Baseline, o: Observation, a: real) returns (r: Baseline)
    ensures r == Updated(b, o, a)
  {
    hide MeanStep, VarianceStep, Updated;
    if b.frozen {
      return b;
    }
    var mean: seq<real>, variance: seq<real> := b.mean, b.variance;
    variance := variance[0 := VarianceStep(a, b.anomaly, variance[0], o.score)];
    for i := 0 to EMBEDDING_DIM
      invariant |mean| == |variance| == EMBEDDING_DIM
      invariant forall j :: 0 <= j < i ==>
        && mean[j] == MeanStep(a, b.mean[j], o.embedding[j])
        && variance[j] == VarianceStep(a, b.mean[j], VarianceBefore(b, o, a, j), o.embedding[j])
      invariant forall j :: i <= j < EMBEDDING_DIM ==> mean[j] == b.mean[j] && variance[j] == VarianceBefore(b, o, a, j)
    {
      variance := variance[i := VarianceStep(a, mean[i], variance[i], o.embedding[i])];
      mean := mean[i := MeanStep(a, mean[i], o.embedding[i])];
    }
    r := Baseline(mean, variance, MeanStep(a, b.anomaly, o.score), MeanStep(a, b.rate, o.rate),
                  MeanStep(a, b.entropy, o.entropy), MeanStep(a, b.drift, o.drift), false);
    BaselineForm(b, o, a, r);
  }

  lemma BaselineForm(b: Baseline, o: Observation, a: real, r: Baseline)
    requires !b.frozen && !r.frozen
    requires forall j :: 0 <= j < EMBEDDING_DIM ==>
               && r.mean[j] == MeanStep(a, b.mean[j], o.embedding[j])
               && r.variance[j] == VarianceStep(a, b.mean[j], VarianceBefore(b, o, a, j), o.embedding[j])
    requires r.anomaly == MeanStep(a, b.anomaly, o.score) && r.rate == MeanStep(a, b.rate, o.rate)
    requires r.entropy == MeanStep(a, b.entropy, o.entropy) && r.drift == MeanStep(a, b.drift, o.drift)
    ensures r == Updated(b, o, a)
  {
    hide MeanStep, VarianceStep, VarianceBefore;
    var u := Updated(b, o, a);
    assert r.mean == u.mean && r.variance == u.variance;
  }

  /** maybe_freeze and update_baseline together: an anomalous event freezes the baseline and
      leaves it alone. */
  function Observed(b: Baseline, o: Observation, gate: real, a: real): Baseline {
    Updated(b.(frozen := gate >= FREEZE_THRESHOLD), o, a)
  }

  // ---- A baseline is the statistics of what it was shown ----

  /** An observation with the score that decides whether it is taken in. */
  datatype Seen = Seen(o: Observation, gate: real)

  function Track(a: real, seen: seq<Seen>): Baseline
    decreases |seen|
  {
    if seen == [] then Fresh()
    else Observed(Track(a, seen[..|seen| - 1]), seen[|seen| - 1].o, seen[|seen| - 1].gate, a)
  }

  /** One number of every observation that was not anomalous. */
  function Kept(seen: seq<Seen>, f: Observation -> real): seq<real>
    decreases |seen|
  {
    if seen == [] then []
    else if seen[|seen| - 1].gate >= FREEZE_THRESHOLD then Kept(seen[..|seen| - 1], f)
    else Kept(seen[..|seen| - 1], f) + [f(seen[|seen| - 1].o)]
  }

  function Dimension(i: nat): Observation -> real
    requires i < EMBEDDING_DIM
  {
    (o: Observation) => o.embedding[i]
  }

  function Score(): Observation -> real {
    (o: Observation) => o.score
  }

  /** For every dimension but the first, mean and variance are exactly those of the whole
      history of non-anomalous embeddings under exponential weights. */
  lemma {:induction false} BaselineIsItsHistory(a: real, seen: seq<Seen>, i: nat)
    requires 0.0 <= a <= 1.0 && 1 <= i < EMBEDDING_DIM
    ensures Describes(Exponential(a, Kept(seen, Dimension(i))), Track(a, seen).mean[i], Track(a, seen).variance[i])
    decreases |seen|
  {
    hide Describes, Exponential, Scaled, MeanStep, VarianceStep, Updated;
    if seen == [] {
      StartDescribes();
    } else {
      var seen', last := seen[..|seen| - 1], seen[|seen| - 1];
      BaselineIsItsHistory(a, seen', i);
      var b := Track(a, seen');
      ObservedOne(b, last.o, last.gate, a, i);
      if last.gate < FREEZE_THRESHOLD {
        MixDescribes(Exponential(a, Kept(seen', Dimension(i))), b.mean[i], b.variance[i], a, last.o.embedding[i]);
        ExponentialGrows(a, Kept(seen', Dimension(i)), last.o.embedding[i]);
      }
    }
  }

  lemma ObservedOne(b: Baseline, o: Observation, gate: real, a: real, i: nat)
    requires i < EMBEDDING_DIM
    ensures var r := Observed(b, o, gate, a);
      if gate >= FREEZE_THRESHOLD then r.mean == b.mean && r.variance == b.variance && r.anomaly == b.anomaly
      else
        && r.mean[i] == MeanStep(a, b.mean[i], o.embedding[i])
        && r.variance[i] == VarianceStep(a, b.mean[i], VarianceBefore(b, o, a, i), o.embedding[i])
        && r.anomaly == MeanStep(a, b.anomaly, o.score)
  {
    hide MeanStep, VarianceStep;
  }

  /** The mean is so for dimension 0 too. */
  lemma {:induction false} MeanIsItsHistory(a: real, seen: seq<Seen>, i: nat)
    requires 0.0 <= a <= 1.0 && i < EMBEDDING_DIM
    ensures var ps := Exponential(a, Kept(seen, Dimension(i))); var m := Track(a, seen).mean[i];
      Describes(ps, m, Spread(ps, m))
    decreases |seen|
  {
    hide Exponential, Scaled, MeanStep, VarianceStep, Updated, Total, Mean, Spread, NonnegWeights;
    if seen == [] {
      StartDescribes();
    } else {
      var seen', last := seen[..|seen| - 1], seen[|seen| - 1];
      MeanIsItsHistory(a, seen', i);
      var b := Track(a, seen');
      ObservedOne(b, last.o, last.gate, a, i);
      if last.gate < FREEZE_THRESHOLD {
        var ps, x := Exponential(a, Kept(seen', Dimension(i))), last.o.embedding[i];
        MixDescribes(ps, b.mean[i], Spread(ps, b.mean[i]), a, x);
        ExponentialGrows(a, Kept(seen', Dimension(i)), x);
      }
    }
  }

  /** The running score average is the exponentially weighted mean of the scores taken in. */
  lemma {:induction false} ScoreMeanIsItsHistory(a: real, seen: seq<Seen>)
    requires 0.0 <= a <= 1.0
    ensures var (ps, m) := (Exponential(a, Kept(seen, Score())), Track(a, seen).anomaly); Describes(ps, m, Spread(ps, m))
    decreases |seen|
  {
    hide Exponential, Scaled, MeanStep, VarianceStep, Updated, Total, Mean, Spread, NonnegWeights;
    if seen == [] {
      StartDescribes();
    } else {
      var seen', last := seen[..|seen| - 1], seen[|seen| - 1];
      ScoreMeanIsItsHistory(a, seen');
      var b := Track(a, seen');
      ObservedOne(b, last.o, last.gate, a, 0);
      if last.gate < FREEZE_THRESHOLD {
        var ps := Exponential(a, Kept(seen', Score()));
        MixDescribes(ps, b.anomaly, Spread(ps, b.anomaly), a, last.o.score);
        ExponentialGrows(a, Kept(seen', Score()), last.o.score);
      }
    }
  }

  /** No variance is ever negative, dimension 0 with its double update included. */
  lemma {:induction false} VariancesAreNonneg(a: real, seen: seq<Seen>, i: nat)
    requires 0.0 <= a <= 1.0 && i < EMBEDDING_DIM
    ensures Track(a, seen).variance[i] >= 0.0
    decreases |seen|
  {
    hide VarianceStep, MeanStep, Updated;
    if seen != [] {
      var seen', last := seen[..|seen| - 1], seen[|seen| - 1];
      VariancesAreNonneg(a, seen', i);
      var b := Track(a, seen');
      ObservedOne(b, last.o, last.gate, a, i);
      VarianceStepNonneg(a, b.anomaly, b.variance[i], last.o.score);
      VarianceStepNonneg(a, b.mean[i], VarianceBefore(b, last.o, a, i), last.o.embedding[i]);
    }
  }

  lemma VarianceStepNonneg(a: real, mean: real, v: real, x: real)
    requires 0.0 <= a <= 1.0
    ensures v >= 0.0 ==> VarianceStep(a, mean, v, x) >= 0.0
  {
    var s := Square(x - mean);
    assert a * (x - mean) * (x - mean) == a * s;
    if v >= 0.0 {
      assert a * s >= 0.0;
      assert (1.0 - a) * (v + a * s) >= 0.0;
    }
  }

  // ---- The layer's four scopes ----

  datatype Event = Event(source: string, user: Option<string>, destination: string)

  datatype Store = Store(
    global: Baseline, ip: map<string, Baseline>, user: map<string, Baseline>, host: map<string, Baseline>,
    freezes: nat, updates: nat, resets: nat)

  function EmptyStore(): Store {
    Store(Fresh(), map[], map[], map[], 0, 0, 0)
  }

  const GLOBAL_ALPHA := 0.001
  const IP_ALPHA := 0.05
  const USER_ALPHA := 0.02
  const HOST_ALPHA := 0.005

  function Get(m: map<string, Baseline>, key: string): Baseline {
    if key in m then m[key] else Fresh()
  }

  function Froze(b: Baseline, gate: real): nat {
    if gate >= FREEZE_THRESHOLD && !b.frozen then 1 else 0
  }

  predicate HasUser(ev: Event) {
    ev.user.Some? && ev.user.value != ""
  }

  function Observe(s: Store, ev: Event, o: Observation, score: real, history: real): Store {
    Store(
      Observed(s.global, o, history, GLOBAL_ALPHA),
      s.ip[ev.source := Observed(Get(s.ip, ev.source), o, score, IP_ALPHA)],
      if HasUser(ev) then s.user[ev.user.value := Observed(Get(s.user, ev.user.value), o, score, USER_ALPHA)] else s.user,
      if ev.destination != "" then s.host[ev.destination := Observed(Get(s.host, ev.destination), o, score, HOST_ALPHA)] else s.host,
      s.freezes + Froze(s.global, history) + Froze(Get(s.ip, ev.source), score)
        + (if HasUser(ev) then Froze(Get(s.user, ev.user.value), score) else 0)
        + (if ev.destination != "" then Froze(Get(s.host, ev.destination), score) else 0),
      s.updates + 1, s.resets)
  }

  // ---- Adapted thresholds ----

  function Clamp(x: real, lo: real, hi: real): real {
    if x < lo then lo else if hi < x then hi else x
  }

  datatype Thresholds = Thresholds(ignore: real, log: real, alert: real, block: real)

  /** AdaptiveThresholdConfig and the two of AdaptationLimits that thresholds use. */
  datatype Limits = Limits(
    kAlert: real, kBlock: real, minAlert: real, maxAlert: real, thresholdMin: real, thresholdMax: real)

  const DEFAULT_LIMITS := Limits(3.0, 5.0, 0.30, 0.90, 0.10, 0.95)

  /** The computation from the two sums that enter it: mean + k_alert * std and k_block * std. */
  function ThresholdsAt(l: Limits, level: real, margin: real): Thresholds {
    var alert := Clamp(level, l.minAlert, l.maxAlert);
    var block := Clamp(alert + margin, alert + 0.05, l.thresholdMax);
    var log := Clamp(alert * 0.6, l.thresholdMin, alert - 0.05);
    var ignore := Clamp(log * 0.5, l.thresholdMin, log - 0.05);
    Thresholds(ignore, log, alert, block)
  }

  /** adapted_thresholds; `std` is the square root of the mean variance. */
  function AdaptedThresholds(l: Limits, mean: real, std: real): Thresholds {
    ThresholdsAt(l, mean + Times(l.kAlert, std), Times(l.kBlock, std))
  }

  /** No clamp is called with its bounds the wrong way round, which std::clamp leaves undefined. */
  predicate ClampsAreDefined(l: Limits, t: Thresholds) {
    && l.minAlert <= l.maxAlert && t.alert + 0.05 <= l.thresholdMax
    && l.thresholdMin <= t.alert - 0.05 && l.thresholdMin <= t.log - 0.05
  }

  predicate LimitsOk(l: Limits) {
    && l.minAlert <= l.maxAlert && l.maxAlert + 0.05 <= l.thresholdMax
    && l.thresholdMin + 0.10 <= l.minAlert && l.thresholdMin + 0.05 <= l.minAlert * 0.6
  }

  /** The limits under which this holds for every baseline, exactly; the default ones do. */
  lemma ClampsAreDefinedExactly(l: Limits, std: real)
    ensures (forall mean :: ClampsAreDefined(l, AdaptedThresholds(l, mean, std))) <==> LimitsOk(l)
    ensures LimitsOk(DEFAULT_LIMITS)
  {
    hide ThresholdsAt, ClampsAreDefined, Times;
    var rise := Times(l.kAlert, std);
    if LimitsOk(l) {
      forall mean ensures ClampsAreDefined(l, AdaptedThresholds(l, mean, std)) {
        ThresholdsAreOrdered(l, mean, std);
      }
    } else {
      ExtremesFail(l, Times(l.kBlock, std));
      assert AdaptedThresholds(l, l.minAlert - rise, std) == ThresholdsAt(l, l.minAlert, Times(l.kBlock, std));
      assert AdaptedThresholds(l, l.maxAlert - rise, std) == ThresholdsAt(l, l.maxAlert, Times(l.kBlock, std));
    }
  }

  /** A baseline at one end of the alert range or at the other shows the fault. */
  lemma ExtremesFail(l: Limits, margin: real)
    requires !LimitsOk(l)
    ensures !ClampsAreDefined(l, ThresholdsAt(l, l.minAlert, margin)) || !ClampsAreDefined(l, ThresholdsAt(l, l.maxAlert, margin))
  {}

  /** Under such limits the four thresholds come out in order and apart, whatever the baseline. */
  lemma ThresholdsAreOrdered(l: Limits, mean: real, std: real)
    requires LimitsOk(l)
    ensures var t := AdaptedThresholds(l, mean, std);
      && l.thresholdMin <= t.ignore <= t.log - 0.05 && t.log <= t.alert - 0.05
      && t.alert + 0.05 <= t.block <= l.thresholdMax && l.minAlert <= t.alert <= l.maxAlert
      && ClampsAreDefined(l, t)
  {
    hide Times, ThresholdsAt;
    OrderedAt(l, mean + Times(l.kAlert, std), Times(l.kBlock, std));
  }

  lemma OrderedAt(l: Limits, level: real, margin: real)
    requires LimitsOk(l)
    ensures var t := ThresholdsAt(l, level, margin);
      && l.thresholdMin <= t.ignore <= t.log - 0.05 && t.log <= t.alert - 0.05
      && t.alert + 0.05 <= t.block <= l.thresholdMax && l.minAlert <= t.alert <= l.maxAlert
      && ClampsAreDefined(l, t)
  {}

  // ---- Counting changes ----

  const CHANGE := 0.005

  function Distance(x: real, y: real): real {
    if x < y then y - x else x - y
  }

  function Gate(mean: real): real {
    Clamp(0.35 + 0.5 * mean, 0.20, 0.80)
  }

  function SumVariance(v: seq<real>): real
    decreases |v|
  {
    if v == [] then 0.0 else SumVariance(v[..|v| - 1]) + v[|v| - 1]
  }

  /** sqrt of the mean variance, with sqrt a parameter. */
  function Deviation(b: Baseline, sqrt: real -> real): real {
    var mean := SumVariance(b.variance) / EMBEDDING_DIM as real;
    sqrt(if mean < 0.000001 then 0.000001 else mean)
  }

  lemma DeviationIs(b: Baseline, sqrt: real -> real)
    ensures var mean := SumVariance(b.variance) / EMBEDDING_DIM as real;
      Deviation(b, sqrt) == sqrt(if mean < 0.000001 then 0.000001 else mean)
  {}

  method MeanVariance(b: Baseline) returns (mean: real)
    ensures mean == SumVariance(b.variance) / EMBEDDING_DIM as real
  {
    var acc := 0.0;
    for i := 0 to EMBEDDING_DIM
      invariant acc == SumVariance(b.variance[..i])
    {
      assert b.variance[..i + 1][..i] == b.variance[..i];
      acc := acc + b.variance[i];
    }
    assert b.variance[..EMBEDDING_DIM] == b.variance;
    mean := acc / EMBEDDING_DIM as real;
  }

  /** A remembered value and how often it was replaced. */
  datatype Mark = Mark(value: real, changes: nat)

  function Moved(m: Mark, now: real): (r: Mark)
    ensures Distance(now, r.value) <= CHANGE
    ensures r.changes == m.changes + (if r.value == m.value then 0 else 1)
  {
    if Distance(now, m.value) > CHANGE then Mark(now, m.changes + 1) else m
  }

  class AdaptiveLayer {
    const limits: Limits
    const sqrt: real -> real
    var store: Store
    /** The alert threshold and the gate last noted, with the number of notable changes. */
    var alertMark: Mark
    var gateMark: Mark

    constructor (limits: Limits, sqrt: real -> real)
      ensures store == EmptyStore() && this.limits == limits && this.sqrt == sqrt
      ensures alertMark == gateMark == Mark(0.0, 0)
    {
      this.limits, this.sqrt := limits, sqrt;
      store, alertMark, gateMark := EmptyStore(), Mark(0.0, 0), Mark(0.0, 0);
    }

    /** The baselines of all scopes take one event; the noted threshold and gate then are within
        0.005 of the current ones, and a change is counted exactly when they had to move. */
    method Update(ev: Event, o: Observation, score: real, history: real)
      modifies this
      ensures store == Observe(old(store), ev, o, score, history)
      ensures alertMark == Moved(old(alertMark), AdaptedThresholds(limits, store.global.anomaly, Deviation(store.global, sqrt)).alert)
      ensures gateMark == Moved(old(gateMark), Gate(store.global.anomaly))
    {
      hide Updated, Deviation, AdaptedThresholds, Observed, Froze, Observe;
      UpdateScopes(ev, o, score, history);
      var mean := MeanVariance(store.global);
      var t := AdaptedThresholds(limits, store.global.anomaly, sqrt(if mean < 0.000001 then 0.000001 else mean));
      DeviationIs(store.global, sqrt);
      if Distance(t.alert, alertMark.value) > CHANGE {
        alertMark := Mark(t.alert, alertMark.changes + 1);
      }
      var gate := Gate(store.global.anomaly);
      if Distance(gate, gateMark.value) > CHANGE {
        gateMark := Mark(gate, gateMark.changes + 1);
      }
    }

    method UpdateScopes(ev: Event, o: Observation, score: real, history: real)
      modifies this`store
      ensures store == Observe(old(store), ev, o, score, history)
    {
      hide Updated;
      var wasFrozen := store.global.frozen;
      var b := UpdateBaseline(store.global.(frozen := history >= FREEZE_THRESHOLD), o, GLOBAL_ALPHA);
      FrozenStays(store.global, o, history, GLOBAL_ALPHA);
      store := store.(global := b, freezes := store.freezes + (if b.frozen && !wasFrozen then 1 else 0));

      var froze;
      b, froze := ObserveOne(Get(store.ip, ev.source), o, score, IP_ALPHA);
      store := store.(ip := store.ip[ev.source := b], freezes := store.freezes + froze);
      if ev.user.Some? && ev.user.value != "" {
        b, froze := ObserveOne(Get(store.user, ev.user.value), o, score, USER_ALPHA);
        store := store.(user := store.user[ev.user.value := b], freezes := store.freezes + froze);
      }
      if ev.destination != "" {
        b, froze := ObserveOne(Get(store.host, ev.destination), o, score, HOST_ALPHA);
        store := store.(host := store.host[ev.destination := b], freezes := store.freezes + froze);
      }
      store := store.(updates := store.updates + 1);
    }

    method ObserveOne(b: Baseline, o: Observation, score: real, a: real) returns (r: Baseline, froze: nat)
      ensures r == Observed(b, o, score, a) && froze == Froze(b, score)
    {
      hide Updated;
      var gated := b.(frozen := score >= FREEZE_THRESHOLD);
      froze := if gated.frozen && !b.frozen then 1 else 0;
      r := UpdateBaseline(gated, o, a);
    }

    method Reset(ip: string)
      modifies this`store
      ensures store == old(store).(ip := old(store).ip - {ip}, resets := old(store).resets + 1)
    {
      store := store.(ip := store.ip - {ip}, resets := store.resets + 1);
    }
  }

  lemma FrozenStays(b: Baseline, o: Observation, gate: real, a: real)
    ensures Observed(b, o, gate, a).frozen <==> gate >= FREEZE_THRESHOLD
  {
    hide MeanStep, VarianceStep;
  }

  // ---- Runs of the layer ----

  datatype Call = Update(ev: Event, o: Observation, score: real, history: real) | Reset(ip: string)

  function Replay(calls: seq<Call>): Store
    decreases |calls|
  {
    if calls == [] then EmptyStore()
    else
      var s := Replay(calls[..|calls| - 1]);
      match calls[|calls| - 1]
      case Update(ev, o, score, history) => Observe(s, ev, o, score, history)
      case Reset(ip) => s.(ip := s.ip - {ip}, resets := s.resets + 1)
  }

  /** What the baseline of one source address was shown since it was last reset. */
  function SeenByIp(calls: seq<Call>, ip: string): seq<Seen>
    decreases |calls|
  {
    if calls == [] then []
    else
      var before := SeenByIp(calls[..|calls| - 1], ip);
      match calls[|calls| - 1]
      case Update(ev, o, score, _) => if ev.source == ip then before + [Seen(o, score)] else before
      case Reset(ip') => if ip' == ip then [] else before
  }

  function SeenByUser(calls: seq<Call>, user: string): seq<Seen>
    decreases |calls|
  {
    if calls == [] then []
    else
      var before := SeenByUser(calls[..|calls| - 1], user);
      match calls[|calls| - 1]
      case Update(ev, o, score, _) => if HasUser(ev) && ev.user.value == user then before + [Seen(o, score)] else before
      case Reset(_) => before
  }

  function SeenByHost(calls: seq<Call>, host: string): seq<Seen>
    decreases |calls|
  {
    if calls == [] then []
    else
      var before := SeenByHost(calls[..|calls| - 1], host);
      match calls[|calls| - 1]
      case Update(ev, o, score, _) => if host != "" && ev.destination == host then before + [Seen(o, score)] else before
      case Reset(_) => before
  }

  /** The global baseline is gated by L2's anomaly history instead of the event's score. */
  function SeenGlobally(calls: seq<Call>): seq<Seen>
    decreases |calls|
  {
    if calls == [] then []
    else
      var before := SeenGlobally(calls[..|calls| - 1]);
      match calls[|calls| - 1]
      case Update(ev, o, _, history) => before + [Seen(o, history)]
      case Reset(_) => before
  }

  lemma TrackSnoc(a: real, seen: seq<Seen>, x: Seen)
    ensures Track(a, seen + [x]) == Observed(Track(a, seen), x.o, x.gate, a)
  {
    hide Observed;
    assert (seen + [x])[..|seen|] == seen;
  }

  /** One event changes only its own address, user and host. */
  lemma ObserveScopes(s: Store, ev: Event, o: Observation, score: real, history: real, key: string)
    ensures var s' := Observe(s, ev, o, score, history);
      && Get(s'.ip, key) == (if ev.source == key then Observed(Get(s.ip, key), o, score, IP_ALPHA) else Get(s.ip, key))
      && Get(s'.user, key) ==
           (if HasUser(ev) && ev.user.value == key then Observed(Get(s.user, key), o, score, USER_ALPHA) else Get(s.user, key))
      && Get(s'.host, key) ==
           (if key != "" && ev.destination == key then Observed(Get(s.host, key), o, score, HOST_ALPHA) else Get(s.host, key))
      && s'.global == Observed(s.global, o, history, GLOBAL_ALPHA)
  {
    hide Observed, Froze, Fresh;
  }

  /** The scopes adapt independently: over every run of the layer each address's, user's and
      host's baseline is the one built from its own events alone. */
  lemma {:induction false} ScopesAreIndependent(calls: seq<Call>, key: string)
    ensures Get(Replay(calls).ip, key) == Track(IP_ALPHA, SeenByIp(calls, key))
    ensures Get(Replay(calls).user, key) == Track(USER_ALPHA, SeenByUser(calls, key))
    ensures Get(Replay(calls).host, key) == Track(HOST_ALPHA, SeenByHost(calls, key))
    ensures Replay(calls).global == Track(GLOBAL_ALPHA, SeenGlobally(calls))
    decreases |calls|
  {
    hide Observed, Observe, Fresh, Get, HasUser;
    if calls != [] {
      var calls' := calls[..|calls| - 1];
      ScopesAreIndependent(calls', key);
      match calls[|calls| - 1]
      case Update(ev, o, score, history) =>
        ObserveScopes(Replay(calls'), ev, o, score, history, key);
        TrackSnoc(IP_ALPHA, SeenByIp(calls', key), Seen(o, score));
        TrackSnoc(USER_ALPHA, SeenByUser(calls', key), Seen(o, score));
        TrackSnoc(HOST_ALPHA, SeenByHost(calls', key), Seen(o, score));
        TrackSnoc(GLOBAL_ALPHA, SeenGlobally(calls'), Seen(o, history));
      case Reset(ip) => ResetScope(Replay(calls').ip, ip, key);
    } else {
      NothingSeen(key);
    }
  }

  lemma ResetScope(m: map<string, Baseline>, ip: string, key: string)
    ensures Get(m - {ip}, key) == if key == ip then Fresh() else Get(m, key)
  {
    hide Fresh;
  }

  lemma NothingSeen(key: string)
    ensures Get(map[], key) == Fresh()
  {}

  /** So an address's baseline is the exponentially weighted mean and variance of exactly the
      non-anomalous embeddings it sent since its last reset. */
  lemma IpBaselineIsItsHistory(calls: seq<Call>, ip: string, i: nat)
    requires 1 <= i < EMBEDDING_DIM
    ensures var b := Get(Replay(calls).ip, ip);
      && Describes(Exponential(IP_ALPHA, Kept(SeenByIp(calls, ip), Dimension(i))), b.mean[i], b.variance[i])
      && b.variance[i] >= 0.0
  {
    hide Replay, Track, Describes, Exponential, Kept, SeenByIp;
    ScopesAreIndependent(calls, ip);
    BaselineIsItsHistory(IP_ALPHA, SeenByIp(calls, ip), i);
    VariancesAreNonneg(IP_ALPHA, SeenByIp(calls, ip), i);
  }
}
