/** More of what the adaptive layer computes: every running average is its history's, and the
    thresholds follow the baseline where no limit binds. */
module AdaptiveLaws {
  import opened WeightedStats
  import opened Adaptive

  // ---- All running averages ----

  /** The four numbers that are averaged beside the embedding. */
  datatype Signal = ScoreOf | RateOf | EntropyOf | DriftOf

  function Observable(s: Signal): Observation -> real {
    match s
    case ScoreOf => (o: Observation) => o.score
    case RateOf => (o: Observation) => o.rate
    case EntropyOf => (o: Observation) => o.entropy
    case DriftOf => (o: Observation) => o.drift
  }

  function Average(s: Signal): Baseline -> real {
    match s
    case ScoreOf => (b: Baseline) => b.anomaly
    case RateOf => (b: Baseline) => b.rate
    case EntropyOf => (b: Baseline) => b.entropy
    case DriftOf => (b: Baseline) => b.drift
  }

  lemma SignalStep(b: Baseline, x: Seen, a: real, s: Signal)
    ensures var r := Observed(b, x.o, x.gate, a);
      Average(s)(r) == if x.gate >= 0.70 then Average(s)(b) else MeanStep(a, Average(s)(b), Observable(s)(x.o))
  {
    hide MeanStep, VarianceStep;
  }

  lemma KeptSnoc(seen: seq<Seen>, f: Observation -> real)
    requires seen != []
    ensures var x := seen[|seen| - 1];
      Kept(seen, f) == Kept(seen[..|seen| - 1], f) + if x.gate >= 0.70 then [] else [f(x.o)]
  {}

  /** Score, rate, entropy and drift: each average is the exponentially weighted mean of what the
      events scoring below 0.70 contributed. */
  lemma {:induction false} AveragesAreHistories(a: real, seen: seq<Seen>, s: Signal)
    requires 0.0 <= a <= 1.0
    ensures var ps, m := Exponential(a, Kept(seen, Observable(s))), Average(s)(Track(a, seen)); Describes(ps, m, Spread(ps, m))
    decreases |seen|
  {
    hide Exponential, Scaled, MeanStep, Observed, Total, Mean, Spread, NonnegWeights, Kept, Observable, Average;
    if seen == [] {
      NothingKept(s);
      StartDescribes();
    } else {
      var n := |seen| - 1;
      var b, x := Track(a, seen[..n]), seen[n];
      AveragesAreHistories(a, seen[..n], s);
      SignalStep(b, x, a, s);
      KeptSnoc(seen, Observable(s));
      var xs := Kept(seen[..n], Observable(s));
      if x.gate < 0.70 {
        var ps := Exponential(a, xs);
        MixDescribes(ps, Average(s)(b), Spread(ps, Average(s)(b)), a, Observable(s)(x.o));
        ExponentialGrows(a, xs, Observable(s)(x.o));
      } else {
        assert xs + [] == xs;
      }
    }
  }

  lemma NothingKept(s: Signal)
    ensures Kept([], Observable(s)) == [] && Average(s)(Fresh()) == 0.0
  {}

  /** Dimension 0 of the variance takes two updates per kept event, so its past fades twice as
      fast: first the score enters it, around the mean score, then the embedding's entry. */
  lemma DimensionZero(a: real, seen: seq<Seen>, x: Seen)
    ensures var b, r := Track(a, seen), Track(a, seen + [x]);
      r.variance[0] ==
        if x.gate >= 0.70 then b.variance[0]
        else VarianceStep(a, b.mean[0], VarianceStep(a, b.anomaly, b.variance[0], x.o.score), x.o.embedding[0])
  {
    hide VarianceStep, MeanStep;
    TrackSnoc(a, seen, x);
    ObservedOne(Track(a, seen), x.o, x.gate, a, 0);
  }

  /** Written out, two updates weigh the past by (1-a)^2 and the two new squares by (1-a)^2 a and (1-a) a. */
  lemma TwoSteps(a: real, v: real, m: real, n: real, s: real, x: real)
    ensures VarianceStep(a, m, VarianceStep(a, n, v, s), x)
         == (1.0 - a) * (1.0 - a) * v + (1.0 - a) * (1.0 - a) * a * (s - n) * (s - n) + (1.0 - a) * a * (x - m) * (x - m)
  {}

  /** The rates of adaptation of the four scopes, over every run of the layer. */
  lemma ScopeRates(calls: seq<Call>, key: string)
    ensures Get(Replay(calls).ip, key) == Track(0.05, SeenByIp(calls, key))
    ensures Get(Replay(calls).user, key) == Track(0.02, SeenByUser(calls, key))
    ensures Get(Replay(calls).host, key) == Track(0.005, SeenByHost(calls, key))
    ensures Replay(calls).global == Track(0.001, SeenGlobally(calls))
  {
    hide Replay, Track, SeenByIp, SeenByUser, SeenByHost, SeenGlobally, Get;
    ScopesAreIndependent(calls, key);
  }

  // ---- Counters ----

  function Updates(calls: seq<Call>): nat
    decreases |calls|
  {
    if calls == [] then 0 else Updates(calls[..|calls| - 1]) + if calls[|calls| - 1].Update? then 1 else 0
  }

  /** Every call is counted, as an update or as a reset. */
  lemma {:induction false} CallsAreCounted(calls: seq<Call>)
    ensures Replay(calls).updates == Updates(calls) && Replay(calls).updates + Replay(calls).resets == |calls|
    decreases |calls|
  {
    hide Observed, Fresh;
    if calls != [] {
      CallsAreCounted(calls[..|calls| - 1]);
    }
  }

  /** How many of a scope's baselines went from live to frozen. */
  function Turned(before: Baseline, after: Baseline): nat {
    if after.frozen && !before.frozen then 1 else 0
  }

  /** An event scoring at least 0.70 freezes the baselines of its address, user and host, a bad
      enough history the global one; lower ones thaw them; and every baseline that went from live
      to frozen is counted once. */
  lemma FreezesAreCounted(s: Store, ev: Event, o: Observation, score: real, history: real)
    ensures var s' := Observe(s, ev, o, score, history);
      && (s'.global.frozen <==> history >= 0.70)
      && (Get(s'.ip, ev.source).frozen <==> score >= 0.70)
      && (ev.user.Some? && ev.user.value != "" ==> (Get(s'.user, ev.user.value).frozen <==> score >= 0.70))
      && (ev.destination != "" ==> (Get(s'.host, ev.destination).frozen <==> score >= 0.70))
      && s'.freezes == s.freezes + Turned(s.global, s'.global) + Turned(Get(s.ip, ev.source), Get(s'.ip, ev.source))
           + (if ev.user.Some? then Turned(Get(s.user, ev.user.value), Get(s'.user, ev.user.value)) else 0)
           + Turned(Get(s.host, ev.destination), Get(s'.host, ev.destination))
  {
    hide Updated;
    FrozenStays(s.global, o, history, GLOBAL_ALPHA);
    FrozenStays(Get(s.ip, ev.source), o, score, IP_ALPHA);
    if ev.user.Some? {
      FrozenStays(Get(s.user, ev.user.value), o, score, USER_ALPHA);
    }
    FrozenStays(Get(s.host, ev.destination), o, score, HOST_ALPHA);
  }

  /** An event without a user, or with an empty one, leaves all users' baselines alone, and one
      without a destination all hosts'. A new layer has counted nothing. */
  lemma UnnamedScopesStay(s: Store, ev: Event, o: Observation, score: real, history: real)
    ensures var s' := Observe(s, ev, o, score, history);
      && (ev.user.None? || ev.user.value == "" ==> s'.user == s.user)
      && (ev.destination == "" ==> s'.host == s.host)
      && (forall key :: key in s'.user && key !in s.user ==> ev.user == Some(key) && key != "")
    ensures Replay([]).freezes == Replay([]).updates == Replay([]).resets == 0
  {
    hide Observed, Froze;
  }

  // ---- Thresholds ----

  /** Where no limit binds, the alert threshold lies k_alert deviations above the mean score, the
      block threshold k_block deviations above that, and the other two are fixed parts of it. */
  lemma UnclampedThresholds(l: Limits, mean: real, std: real)
    requires var alert := mean + l.kAlert * std;
      && l.minAlert <= alert <= l.maxAlert
      && 0.05 <= l.kBlock * std && alert + l.kBlock * std <= l.thresholdMax
      && l.thresholdMin <= 0.6 * alert <= alert - 0.05
      && l.thresholdMin <= 0.3 * alert <= 0.6 * alert - 0.05
    ensures var t, alert := AdaptedThresholds(l, mean, std), mean + l.kAlert * std;
      t.alert == alert && t.block == alert + l.kBlock * std && t.log == 0.6 * alert && t.ignore == 0.3 * alert
  {}

  /** Entries enter the sum of a variance one by one, each as it is. */
  lemma {:induction false} VarianceAdds(v: seq<real>, i: nat, d: real)
    requires i < |v|
    ensures SumVariance(v[i := v[i] + d]) == SumVariance(v) + d
    decreases |v|
  {
    var n := |v| - 1;
    var w := v[i := v[i] + d];
    if i == n {
      assert w[..n] == v[..n];
    } else {
      assert w[..n] == v[..n][i := v[i] + d];
      VarianceAdds(v[..n], i, d);
    }
  }

  /** The deviation is the root of the mean variance: of v, if the 64 entries add up to 64 v, but
      of 0.000001 at least. */
  lemma DeviationIsRoot(b: Baseline, sqrt: real -> real, v: real)
    requires SumVariance(b.variance) == 64.0 * v
    ensures Deviation(b, sqrt) == sqrt(if v < 0.000001 then 0.000001 else v)
  {}

  lemma {:induction false} NoVariance(n: nat)
    ensures SumVariance(seq(n, i => 0.0)) == 0.0
    decreases n
  {
    if n > 0 {
      var v := seq(n, i => 0.0);
      assert v[..n - 1] == seq(n - 1, i => 0.0);
      NoVariance(n - 1);
    }
  }

  /** The default limits at work: a quiet baseline is held up by them, a busier one is not. */
  lemma DefaultThresholds()
    ensures AdaptedThresholds(DEFAULT_LIMITS, 0.0, 0.0) == Thresholds(0.10, 0.18, 0.30, 0.35)
    ensures AdaptedThresholds(DEFAULT_LIMITS, 0.2, 0.05) == Thresholds(0.105, 0.21, 0.35, 0.60)
    ensures AdaptedThresholds(DEFAULT_LIMITS, 1.0, 0.05) == Thresholds(0.27, 0.54, 0.90, 0.95)
  {}

  /** A higher mean score lowers no threshold. */
  lemma ThresholdsRise(l: Limits, mean: real, higher: real, std: real)
    requires LimitsOk(l) && mean <= higher
    ensures var t, u := AdaptedThresholds(l, mean, std), AdaptedThresholds(l, higher, std);
      t.ignore <= u.ignore && t.log <= u.log && t.alert <= u.alert && t.block <= u.block
  {
    hide Times, ThresholdsAt;
    LevelRaises(l, mean + Times(l.kAlert, std), higher + Times(l.kAlert, std), Times(l.kBlock, std));
  }

  lemma LevelRaises(l: Limits, level: real, higher: real, margin: real)
    requires LimitsOk(l) && level <= higher
    ensures var t, u := ThresholdsAt(l, level, margin), ThresholdsAt(l, higher, margin);
      t.ignore <= u.ignore && t.log <= u.log && t.alert <= u.alert && t.block <= u.block
  {}

  /** The gate rises by half the mean score from 0.35 on, within [0.20, 0.80]. */
  lemma GateFollows(mean: real)
    ensures 0.20 <= Gate(mean) <= 0.80
    ensures -0.30 <= mean <= 0.90 ==> Gate(mean) == 0.35 + 0.5 * mean
    ensures mean < -0.30 ==> Gate(mean) == 0.20
    ensures mean > 0.90 ==> Gate(mean) == 0.80
  {}

  /** A value noted is within 0.005 of the current one, is replaced only if it was not, and then
      by the current one. */
  lemma MarksFollow(m: Mark, now: real)
    ensures var r := Moved(m, now);
      && -0.005 <= now - r.value <= 0.005
      && (-0.005 <= now - m.value <= 0.005 ==> r == m)
      && (!(-0.005 <= now - m.value <= 0.005) ==> r == Mark(now, m.changes + 1))
  {}
}
