/** ModelHolder of include/ids_model.hpp and ConfigHolder of include/ids.hpp: a current
    version, a short history in front-first order, and rollback. */
module Holders {
  import opened Crc32
  import opened ModelCodec

  const MAX_HISTORY := 3

  // ---- Models: rollback rotates ----

  /** The element at place n - 1 comes to the front; the ones before it move back by one. */
  function Rotate<T>(s: seq<T>, n: nat): (r: seq<T>)
    requires 1 <= n <= |s|
    ensures |r| == |s|
  {
    [s[n - 1]] + s[..n - 1] + s[n..]
  }

  function RotateTimes<T>(s: seq<T>, n: nat, times: nat): (r: seq<T>)
    requires 1 <= n <= |s|
    ensures |r| == |s|
    decreases times
  {
    if times == 0 then s else Rotate(RotateTimes(s, n, times - 1), n)
  }

  /** The first n elements turned so that the one at place t comes first. */
  function Turned<T>(s: seq<T>, n: nat, t: nat): (r: seq<T>)
    requires t <= n <= |s|
    ensures |r| == |s|
  {
    s[t..n] + s[..t] + s[n..]
  }

  lemma {:induction false} RotateTimesShape<T>(s: seq<T>, n: nat, times: nat)
    requires 1 <= n <= |s| && times <= n
    ensures RotateTimes(s, n, times) == Turned(s, n, n - times)
    decreases times
  {
    hide Turned, Rotate;
    if times == 0 {
      NotTurned(s, n);
    } else {
      RotateTimesShape(s, n, times - 1);
      RotateOnce(s, n, n - times);
    }
  }

  lemma NotTurned<T>(s: seq<T>, n: nat)
    requires n <= |s|
    ensures Turned(s, n, n) == s && Turned(s, n, 0) == s
  {}

  /** One more rotation turns by one more place. */
  lemma RotateOnce<T>(s: seq<T>, n: nat, t: nat)
    requires t < n <= |s|
    ensures Rotate(Turned(s, n, t + 1), n) == Turned(s, n, t)
  {
    var front, back := s[t + 1..n], s[n..];
    assert s[..t + 1] == s[..t] + [s[t]];
    assert Turned(s, n, t + 1) == front + s[..t] + [s[t]] + back;
    PieceBefore(front + s[..t], s[t], back);
    assert s[t..n] == [s[t]] + front;
    assert [s[t]] + (front + s[..t]) + back == [s[t]] + front + s[..t] + back;
  }

  lemma PieceBefore<T>(a: seq<T>, x: T, b: seq<T>)
    ensures Rotate(a + [x] + b, |a| + 1) == [x] + a + b
  {
    assert (a + [x] + b)[..|a|] == a && (a + [x] + b)[|a| + 1..] == b;
  }

  /** Which version goes where. */
  lemma RotateBrings<T>(s: seq<T>, n: nat, k: nat)
    requires 1 <= n <= |s| && k < |s|
    ensures Rotate(s, n)[0] == s[n - 1]
    ensures k < n - 1 ==> Rotate(s, n)[k + 1] == s[k]
    ensures k >= n ==> Rotate(s, n)[k] == s[k]
  {}

  /** Rolling back by k steps k + 1 times in a row changes nothing. */
  lemma RollbackCycles<T>(s: seq<T>, k: nat)
    requires 1 <= k < |s|
    ensures RotateTimes(s, k + 1, k + 1) == s
  {
    hide RotateTimes, Turned;
    RotateTimesShape(s, k + 1, k + 1);
    NotTurned(s, k + 1);
  }

  /** Rollback loses no version and duplicates none. */
  lemma RotateKeepsVersions<T>(s: seq<T>, n: nat)
    requires 1 <= n <= |s|
    ensures multiset(Rotate(s, n)) == multiset(s)
  {
    assert s == s[..n - 1] + [s[n - 1]] + s[n..];
  }

  class ModelHolder {
    var staged: Option<ModelParams>
    var active: Option<ModelParams>
    var history: seq<ModelParams>

    /** The active version followed by the ones it can be rolled back to. */
    function Versions(): seq<ModelParams>
      reads this
    {
      (if active.Some? then [active.value] else []) + history
    }

    ghost predicate Inv()
      reads this
    {
      && |history| <= MAX_HISTORY
      && (history != [] ==> active.Some?)
      && (staged.Some? ==> Valid(staged.value))
      && (forall i :: 0 <= i < |Versions()| ==> Valid(Versions()[i]))
    }

    constructor ()
      ensures Inv() && staged == None && Versions() == []
    {
      staged, active, history := None, None, [];
    }

    method StageFile(f: Bytes) returns (ok: bool)
      requires Inv()
      modifies `staged
      ensures Inv()
      ensures ok == Stage(f).Some?
      ensures staged == if ok then Stage(f) else old(staged)
    {
      hide LoadModel, Valid;
      var m := LoadModelFile(f);
      if m.None? {
        return false;
      }
      ok := StageModel(m.value);
    }

    method StageModel(m: ModelParams) returns (ok: bool)
      requires Inv()
      modifies `staged
      ensures Inv()
      ensures ok == Valid(m)
      ensures staged == if ok then Some(m) else old(staged)
    {
      hide Valid;
      ok := ValidateModel(m);
      if ok {
        staged := Some(m);
      }
      assert Versions() == old(Versions());
    }

    /** The swap happens before the callback runs, so a callback that throws makes the call
        return false with the new model already active. */
    method ApplyModel(callbackThrows: bool) returns (ok: bool)
      requires Inv()
      modifies this
      ensures Inv()
      ensures ok == (old(staged).Some? && !callbackThrows)
      ensures old(staged).None? ==> Versions() == old(Versions()) && staged == None
      ensures old(staged).Some? ==>
        staged == None && active == old(staged) && history == FirstThree(old(Versions()))
    {
      hide Valid;
      if staged.None? {
        return false;
      }
      if active.Some? {
        history := [active.value] + history;
      }
      if |history| > MAX_HISTORY {
        history := history[..|history| - 1];
      }
      active := staged;
      staged := None;
      assert forall i :: 1 <= i < |Versions()| ==> Versions()[i] == old(Versions())[i - 1];
      return !callbackThrows;
    }

    method RollbackModel(stepsBack: nat, callbackThrows: bool) returns (ok: bool)
      requires Inv()
      modifies this
      ensures Inv() && staged == old(staged)
      ensures var inRange := 1 <= stepsBack <= |old(history)|;
        && ok == (inRange && !callbackThrows)
        && (inRange ==> active == Some(old(history)[stepsBack - 1]))
        && (inRange ==> 1 <= stepsBack + 1 <= |old(Versions())|)
        && Versions() == if inRange then Rotate(old(Versions()), stepsBack + 1) else old(Versions())
    {
      hide Valid;
      if stepsBack == 0 || stepsBack > |history| {
        return false;
      }
      history := [active.value] + history;
      active := Some(history[stepsBack]);
      history := history[..stepsBack] + history[stepsBack + 1..];
      ghost var was := old(Versions());
      assert Versions() == [was[stepsBack]] + was[..stepsBack] + was[stepsBack + 1..];
      RotateKeepsVersions(was, stepsBack + 1);
      forall i | 0 <= i < |Versions()|
        ensures Valid(Versions()[i])
      {
        assert Versions()[i] in multiset(was);
      }
      return !callbackThrows;
    }
  }

  function Newest<T>(s: seq<T>, n: nat): seq<T> {
    if |s| <= n then s else s[..n]
  }

  function FirstThree<T>(s: seq<T>): seq<T> {
    if |s| <= 3 then s else s[..3]
  }

  // ---- Configurations ----

  /** A float as validate_config sees it: comparisons with NaN are false. */
  datatype Float = Num(v: real) | PosInf | NegInf | NaN

  predicate IsFinite(x: Float) {
    x.Num?
  }

  predicate AtLeast(x: Float, y: Float) {
    match (x, y)
    case (NaN, _) => false
    case (_, NaN) => false
    case (PosInf, _) => true
    case (_, NegInf) => true
    case (Num(a), Num(b)) => a >= b
    case (_, _) => false
  }

  predicate Less(x: Float, y: Float) {
    !x.NaN? && !y.NaN? && !AtLeast(x, y)
  }

  const ZERO := Num(0.0)
  const ONE := Num(1.0)

  /** The fields validate_config looks at; `rest` stands for all the others. */
  datatype Config = Config(
    ignore: Float, log: Float, alert: Float, block: Float,
    decayL1: Float, wLocal: Float, wSegment: Float, gate: Float, rest: nat)

  predicate ValidConfig(c: Config) {
    && !AtLeast(c.ignore, c.log) && !AtLeast(c.log, c.alert) && !AtLeast(c.alert, c.block)
    && IsFinite(c.decayL1) && !AtLeast(ZERO, c.decayL1) && !AtLeast(c.decayL1, ONE)
    && IsFinite(c.wLocal) && !Less(c.wLocal, ZERO)
    && IsFinite(c.wSegment) && !Less(c.wSegment, ZERO)
    && IsFinite(c.gate) && !Less(c.gate, ZERO) && !Less(ONE, c.gate)
  }

  /** The thresholds of a valid configuration increase strictly exactly when none is NaN:
      the check is written with >=, which NaN slips through. */
  lemma ValidThresholdsIncrease(c: Config)
    requires ValidConfig(c)
    ensures Less(c.ignore, c.log) && Less(c.log, c.alert) && Less(c.alert, c.block)
       <==> !c.ignore.NaN? && !c.log.NaN? && !c.alert.NaN? && !c.block.NaN?
  {}

  /** NaN does slip through: any accepted configuration stays accepted with its alert threshold
      set to NaN, and the usual one is such a configuration. */
  lemma NaNSlipsThrough(c: Config)
    ensures ValidConfig(c) ==> ValidConfig(c.(alert := NaN))
    ensures ValidConfig(Config(Num(0.20), Num(0.40), NaN, Num(0.85), Num(0.95), Num(0.5), Num(0.3), Num(0.35), 0))
  {}

  /** For numbers, exactly these configurations are accepted. */
  lemma AcceptedExactly(a: real, b: real, c: real, d: real, decay: real, local: real, segment: real, gate: real, rest: nat)
    ensures ValidConfig(Config(Num(a), Num(b), Num(c), Num(d), Num(decay), Num(local), Num(segment), Num(gate), rest))
       <==> a < b < c < d && 0.0 < decay < 1.0 && local >= 0.0 && segment >= 0.0 && 0.0 <= gate <= 1.0
  {}

  /** The last four must be numbers; of the thresholds, those that are none must be in order too. */
  lemma OthersAreNumbers(c: Config)
    requires ValidConfig(c)
    ensures c.decayL1.Num? && c.wLocal.Num? && c.wSegment.Num? && c.gate.Num?
    ensures !(c.ignore.PosInf? && !c.log.NaN?) && !(c.log.NegInf? && !c.ignore.NaN?)
    ensures !(c.alert.PosInf? && !c.block.NaN?) && !(c.block.NegInf? && !c.alert.NaN?)
  {}

  datatype ConfigState = ConfigState(current: Config, history: seq<Config>)

  function PushBounded(c: Config, history: seq<Config>): seq<Config> {
    Newest([c] + history, MAX_HISTORY)
  }

  function Rollback(s: ConfigState, steps: nat): ConfigState
    requires 1 <= steps <= |s.history|
  {
    ConfigState(s.history[steps - 1], PushBounded(s.current, s.history))
  }

  /** Whatever the depth of a rollback, rolling back one step more undoes it. */
  lemma RollbackUndone(s: ConfigState, steps: nat)
    requires 1 <= steps <= |s.history|
    ensures |Rollback(s, steps).history| >= 1
    ensures Rollback(Rollback(s, steps), 1).current == s.current
  {
    assert ([s.current] + s.history)[0] == s.current;
  }

  class ConfigHolder {
    var cfg: Option<Config>
    var history: seq<Config>

    ghost predicate Inv()
      reads this
    {
      && |history| <= MAX_HISTORY
      && (history != [] ==> cfg.Some?)
      && (cfg.Some? ==> ValidConfig(cfg.value))
      && (forall i :: 0 <= i < |history| ==> ValidConfig(history[i]))
    }

    constructor ()
      ensures Inv() && cfg == None && history == []
    {
      cfg, history := None, [];
    }

    method Update(newCfg: Option<Config>) returns (ok: bool)
      requires Inv()
      modifies this
      ensures Inv()
      ensures ok == (newCfg.Some? && ValidConfig(newCfg.value))
      ensures ok ==> cfg == newCfg
                     && history == if old(cfg).Some? then FirstThree([old(cfg).value] + old(history)) else old(history)
      ensures !ok ==> cfg == old(cfg) && history == old(history)
    {
      hide ValidConfig;
      if newCfg.None? {
        return false;
      }
      if !ValidConfig(newCfg.value) {
        return false;
      }
      if cfg.Some? {
        history := [cfg.value] + history;
        if |history| > MAX_HISTORY {
          history := history[..|history| - 1];
        }
      }
      cfg := newCfg;
      return true;
    }

    method RollbackBy(stepsBack: nat) returns (ok: bool)
      requires Inv()
      modifies this
      ensures Inv()
      ensures ok == (1 <= stepsBack <= |old(history)|)
      ensures ok ==> old(cfg).Some? && cfg == Some(old(history)[stepsBack - 1])
                     && history == FirstThree([old(cfg).value] + old(history))
      ensures ok ==> var r := Rollback(ConfigState(old(cfg).value, old(history)), stepsBack);
                     cfg == Some(r.current) && history == r.history
      ensures !ok ==> cfg == old(cfg) && history == old(history)
    {
      hide ValidConfig;
      if stepsBack == 0 || stepsBack > |history| {
        return false;
      }
      var target := history[stepsBack - 1];
      history := [cfg.value] + history;
      if |history| > MAX_HISTORY {
        history := history[..|history| - 1];
      }
      cfg := Some(target);
      return true;
    }
  }
}
