/** The decision engine of include/ids_decision.hpp: overrides, hysteresis, cooldown and the
    repeat tracker, over runs with one nondecreasing clock reading per call. */
module Decisions {

  datatype Option<T> = None | Some(value: T)

  datatype Decision = Ignore | Log | Alert | Block | Escalate

  const COUNTER_RANGE := 0x1_0000_0000

  datatype Config = Config(
    allowList: seq<string>, blockList: seq<string>, minConfidence: real,
    repeatN: nat, repeatWindow: real, escalateHist: real, escalateDrift: real,
    holdTime: real, hysteresis: real,
    blockCooldown: real, alertCooldown: real, allowStronger: bool,
    learning: bool)                 // learning mode on, and blocking disabled by it

  /** One call of execute. `throws` says that a callback would throw if one is called. */
  datatype Call = Call(
    source: string, decision: Decision, confidence: real, falsePositive: bool,
    history: real, drift: real, blockThreshold: real, now: real, throws: bool)

  datatype Tracker = Tracker(count: map<string, nat>, first: map<string, real>, last: map<string, real>)

  datatype State = State(tracker: Tracker, lastDecision: map<string, Decision>, lastTime: map<string, real>)

  /** What a call does: nothing at all, a completed dispatch, or a dispatch whose callback
      threw, which is reported by a fallback log. */
  datatype Output = Nothing | Dispatched(d: Decision) | Faulted(d: Decision)

  const EMPTY := State(Tracker(map[], map[], map[]), map[], map[])

  // ---- Specification ----

  predicate MatchAt(s: string, pattern: string, i: nat) {
    i + |pattern| <= |s| && s[i..i + |pattern|] == pattern
  }

  /** std::string::find finds the pattern. */
  predicate Contains(s: string, pattern: string) {
    exists i: nat :: i <= |s| && MatchAt(s, pattern, i)
  }

  predicate Listed(list: seq<string>, source: string) {
    exists k :: 0 <= k < |list| && Contains(source, list[k])
  }

  predicate ShouldEscalate(c: Config, t: Tracker, source: string, now: real) {
    && source in t.count && t.count[source] >= c.repeatN
    && source in t.first && now - t.first[source] <= c.repeatWindow
  }

  /** The state-driven reasons to escalate, without the repeat tracker. */
  predicate DriftEscalates(c: Config, call: Call) {
    || call.drift >= c.escalateDrift
    || (call.history >= c.escalateHist && call.history >= c.escalateHist * 0.9 && call.drift >= c.escalateDrift * 0.5)
  }

  function Overridden(c: Config, t: Tracker, call: Call): Decision {
    if Listed(c.allowList, call.source) then Ignore
    else if Listed(c.blockList, call.source) then Block
    else if (call.decision == Ignore || call.decision == Log) then call.decision
    else if DriftEscalates(c, call) || ShouldEscalate(c, t, call.source, call.now) then Escalate
    else call.decision
  }

  function Held(c: Config, s: State, call: Call, d: Decision): Decision {
    if call.source in s.lastDecision && call.source in s.lastTime
       && call.now - s.lastTime[call.source] < c.holdTime
       && s.lastDecision[call.source] == Block && call.confidence >= call.blockThreshold - c.hysteresis
    then Block
    else d
  }

  predicate CooledDown(c: Config, s: State, source: string, d: Decision, now: real) {
    source in s.lastTime ==>
      var age := now - s.lastTime[source];
      var ld := if source in s.lastDecision then s.lastDecision[source] else Ignore;
      && (ld == Block && age < c.blockCooldown ==> c.allowStronger && d == Escalate)
      && (ld == Alert && age < c.alertCooldown ==> c.allowStronger && (d == Block || d == Escalate))
  }

  /** The decision after overrides and hysteresis. */
  function Wanted(c: Config, s: State, call: Call): Decision {
    Held(c, s, call, Overridden(c, s.tracker, call))
  }

  function Result(c: Config, s: State, call: Call): Output {
    if call.falsePositive || call.confidence < c.minConfidence then Nothing
    else if !CooledDown(c, s, call.source, Wanted(c, s, call), call.now) then Nothing
    else
      var w := Wanted(c, s, call);
      var d := if c.learning && (w == Block || w == Escalate) then Alert else w;
      if call.throws && d != Ignore then Faulted(d) else Dispatched(d)
  }

  function RecordedIn(t: Tracker, source: string, now: real): Tracker {
    Tracker(t.count[source := ((if source in t.count then t.count[source] else 0) + 1) % COUNTER_RANGE],
            if source in t.first then t.first else t.first[source := now],
            t.last[source := now])
  }

  function Stale(t: Tracker, window: real, now: real): set<string> {
    set src | src in t.last && now - t.last[src] > window
  }

  function Expired(t: Tracker, window: real, now: real): Tracker {
    Tracker(t.count - Stale(t, window, now), t.first - Stale(t, window, now), t.last - Stale(t, window, now))
  }

  function Next(c: Config, s: State, call: Call): State {
    var out := Result(c, s, call);
    if out.Nothing? then s
    else
      var s' := s.(tracker := Expired(RecordedIn(s.tracker, call.source, call.now), c.repeatWindow, call.now));
      if out.Faulted? then s'
      else s'.(lastDecision := s.lastDecision[call.source := out.d], lastTime := s.lastTime[call.source := call.now])
  }

  // ---- The engine ----

  method Find(s: string, pattern: string) returns (found: bool)
    ensures found <==> Contains(s, pattern)
  {
    for i := 0 to |s| + 1
      invariant forall k: nat :: k < i ==> !MatchAt(s, pattern, k)
    {
      if MatchAt(s, pattern, i) {
        return true;
      }
    }
    return false;
  }

  method FindInList(list: seq<string>, source: string) returns (found: bool)
    ensures found <==> Listed(list, source)
  {
    hide Contains;
    for k := 0 to |list|
      invariant forall j :: 0 <= j < k ==> !Contains(source, list[j])
    {
      found := Find(source, list[k]);
      if found {
        return;
      }
    }
    return false;
  }

  class DecisionEngine {
    const c: Config
    var tracker: Tracker
    var lastDecision: map<string, Decision>
    var lastTime: map<string, real>

    ghost function View(): State
      reads this
    {
      State(tracker, lastDecision, lastTime)
    }

    constructor (c: Config)
      ensures this.c == c && View() == EMPTY
    {
      this.c := c;
      tracker := Tracker(map[], map[], map[]);
      lastDecision := map[];
      lastTime := map[];
    }

    method Record(source: string, now: real)
      modifies this`tracker
      ensures tracker == RecordedIn(old(tracker), source, now)
    {
      var n := if source in tracker.count then tracker.count[source] else 0;
      tracker := tracker.(count := tracker.count[source := (n + 1) % COUNTER_RANGE]);
      if source !in tracker.first {
        tracker := tracker.(first := tracker.first[source := now]);
      }
      tracker := tracker.(last := tracker.last[source := now]);
    }

    method Expire(window: real, now: real)
      modifies this`tracker
      ensures tracker == Expired(old(tracker), window, now)
    {
      var toRemove := StaleSources(tracker, window, now);
      tracker := Tracker(tracker.count - toRemove, tracker.first - toRemove, tracker.last - toRemove);
    }

    method ApplyOverrides(call: Call) returns (d: Decision)
      ensures d == Overridden(c, tracker, call)
    {
      hide Listed, ShouldEscalate;
      var found := FindInList(c.allowList, call.source);
      if found {
        return Ignore;
      }
      found := FindInList(c.blockList, call.source);
      if found {
        return Block;
      }
      d := call.decision;
      if d != Ignore && d != Log {
        if call.history >= c.escalateHist && call.history >= c.escalateHist * 0.9 {
          if ShouldEscalate(c, tracker, call.source, call.now) || call.drift >= c.escalateDrift * 0.5 {
            d := Escalate;
          }
        }
        if call.drift >= c.escalateDrift {
          d := Escalate;
        }
        if ShouldEscalate(c, tracker, call.source, call.now) {
          d := Escalate;
        }
      }
    }

    method ApplyHysteresis(call: Call, d: Decision) returns (r: Decision)
      ensures r == Held(c, View(), call, d)
    {
      if call.source !in lastDecision || call.source !in lastTime {
        return d;
      }
      var age := call.now - lastTime[call.source];
      if age < c.holdTime {
        if lastDecision[call.source] == Block && call.confidence >= call.blockThreshold - c.hysteresis {
          return Block;
        }
      }
      return d;
    }

    method AllowByCooldown(source: string, d: Decision, now: real) returns (ok: bool)
      ensures ok <==> CooledDown(c, View(), source, d, now)
    {
      if source !in lastTime {
        return true;
      }
      var age := now - lastTime[source];
      var ld := if source in lastDecision then lastDecision[source] else Ignore;
      if ld == Block && age < c.blockCooldown {
        if !c.allowStronger || d != Escalate {
          return false;
        }
      }
      if ld == Alert && age < c.alertCooldown {
        if !c.allowStronger || (d != Block && d != Escalate) {
          return false;
        }
      }
      return true;
    }

    method Execute(call: Call) returns (out: Output)
      modifies this
      ensures out == Result(c, old(View()), call) && View() == Next(c, old(View()), call)
    {
      hide Overridden, Held, CooledDown, RecordedIn, Expired;
      if call.falsePositive || call.confidence < c.minConfidence {
        return Nothing;
      }
      var d := ApplyOverrides(call);
      d := ApplyHysteresis(call, d);
      var ok := AllowByCooldown(call.source, d, call.now);
      if !ok {
        return Nothing;
      }
      if c.learning {
        if d == Block || d == Escalate {
          d := Alert;
        }
      }
      Record(call.source, call.now);
      Expire(c.repeatWindow, call.now);
      if call.throws && d != Ignore {
        return Faulted(d);
      }
      lastDecision := lastDecision[call.source := d];
      lastTime := lastTime[call.source := call.now];
      return Dispatched(d);
    }
  }

  /** The first loop of expire. */
  method StaleSources(t: Tracker, window: real, now: real) returns (stale: set<string>)
    ensures stale == Stale(t, window, now)
  {
    stale := {};
    var todo := t.last.Keys;
    while todo != {}
      invariant todo <= t.last.Keys
      invariant forall src :: src in stale <==> src in t.last && src !in todo && now - t.last[src] > window
      decreases |todo|
    {
      var src :| src in todo;
      if now - t.last[src] > window {
        stale := stale + {src};
      }
      todo := todo - {src};
    }
  }

  // ---- Runs ----

  ghost predicate Nondecreasing(calls: seq<Call>) {
    forall i, k :: 0 <= i < k < |calls| ==> calls[i].now <= calls[k].now
  }

  function StateAfter(c: Config, calls: seq<Call>): State
    decreases |calls|
  {
    if calls == [] then EMPTY else Next(c, StateAfter(c, calls[..|calls| - 1]), calls[|calls| - 1])
  }

  /** What call k of a run did. */
  function OutputOf(c: Config, calls: seq<Call>, k: nat): Output
    requires k < |calls|
  {
    Result(c, StateAfter(c, calls[..k]), calls[k])
  }

  /** Call k dispatched a decision for this source. */
  ghost predicate DispatchedFor(c: Config, calls: seq<Call>, k: nat, source: string)
    requires k < |calls|
  {
    calls[k].source == source && OutputOf(c, calls, k).Dispatched?
  }

  /** j is the last call before k that dispatched for this source. */
  ghost predicate IsLastDispatch(c: Config, calls: seq<Call>, j: nat, k: nat, source: string)
    requires k <= |calls|
  {
    && j < k && DispatchedFor(c, calls, j, source)
    && forall i: nat :: j < i < k ==> !DispatchedFor(c, calls, i, source)
  }

  /** After k calls the two maps know this source exactly if it was dispatched, and then hold
      its last dispatch. */
  ghost predicate Remembers(c: Config, calls: seq<Call>, k: nat, source: string)
    requires k <= |calls|
  {
    var s := StateAfter(c, calls[..k]);
    && (source in s.lastTime <==> source in s.lastDecision)
    && (source in s.lastTime <==> exists j: nat :: j < k && DispatchedFor(c, calls, j, source))
    && forall j: nat :: IsLastDispatch(c, calls, j, k, source) ==>
         && source in s.lastTime && s.lastTime[source] == calls[j].now
         && s.lastDecision[source] == OutputOf(c, calls, j).d
  }

  /** The two maps of the engine hold exactly the last dispatch of every source. */
  lemma {:induction false} LastIsRemembered(c: Config, calls: seq<Call>, k: nat, source: string)
    requires k <= |calls|
    ensures Remembers(c, calls, k, source)
    decreases k
  {
    if k > 0 {
      hide *;
      LastIsRemembered(c, calls, k - 1, source);
      RememberedStep(c, calls, k, source);
    } else {
      NothingRemembered(c, calls, source);
    }
  }

  lemma NothingRemembered(c: Config, calls: seq<Call>, source: string)
    ensures Remembers(c, calls, 0, source)
  {}

  lemma RememberedStep(c: Config, calls: seq<Call>, k: nat, source: string)
    requires 0 < k <= |calls| && Remembers(c, calls, k - 1, source)
    ensures Remembers(c, calls, k, source)
  {
    hide Result, Next, OutputOf, Remembers;
    StateStep(c, calls, k);
    if DispatchedFor(c, calls, k - 1, source) {
      DispatchIsRemembered(c, calls, k, source);
    } else {
      MemoryStays(c, calls, k, source);
    }
  }

  lemma StateStep(c: Config, calls: seq<Call>, k: nat)
    requires 0 < k <= |calls|
    ensures StateAfter(c, calls[..k]) == Next(c, StateAfter(c, calls[..k - 1]), calls[k - 1])
  {
    hide Next;
    assert calls[..k][..k - 1] == calls[..k - 1];
  }

  lemma DispatchIsRemembered(c: Config, calls: seq<Call>, k: nat, source: string)
    requires 0 < k <= |calls| && DispatchedFor(c, calls, k - 1, source)
    requires StateAfter(c, calls[..k]) == Next(c, StateAfter(c, calls[..k - 1]), calls[k - 1])
    ensures Remembers(c, calls, k, source)
  {
    hide Result, Next, OutputOf, StateAfter;
    OutputIsResult(c, calls, k - 1);
    NextMaps(c, StateAfter(c, calls[..k - 1]), calls[k - 1], source);
    forall j: nat | IsLastDispatch(c, calls, j, k, source) ensures j == k - 1 {}
  }

  lemma MemoryStays(c: Config, calls: seq<Call>, k: nat, source: string)
    requires 0 < k <= |calls| && !DispatchedFor(c, calls, k - 1, source) && Remembers(c, calls, k - 1, source)
    requires StateAfter(c, calls[..k]) == Next(c, StateAfter(c, calls[..k - 1]), calls[k - 1])
    ensures Remembers(c, calls, k, source)
  {
    hide Result, Next, OutputOf, StateAfter;
    OutputIsResult(c, calls, k - 1);
    NextMaps(c, StateAfter(c, calls[..k - 1]), calls[k - 1], source);
    forall j: nat | IsLastDispatch(c, calls, j, k, source) ensures IsLastDispatch(c, calls, j, k - 1, source) {}
  }

  lemma OutputIsResult(c: Config, calls: seq<Call>, k: nat)
    requires k < |calls|
    ensures OutputOf(c, calls, k) == Result(c, StateAfter(c, calls[..k]), calls[k])
  {}

  /** A completed dispatch is remembered for its source; nothing else changes the two maps. */
  lemma NextMaps(c: Config, s: State, call: Call, source: string)
    ensures var (s', out) := (Next(c, s, call), Result(c, s, call));
      if call.source == source && out.Dispatched? then
        source in s'.lastTime && source in s'.lastDecision && s'.lastTime[source] == call.now && s'.lastDecision[source] == out.d
      else
        && (source in s'.lastTime <==> source in s.lastTime) && (source in s'.lastDecision <==> source in s.lastDecision)
        && (source in s.lastTime ==> s'.lastTime[source] == s.lastTime[source])
        && (source in s.lastDecision ==> s'.lastDecision[source] == s.lastDecision[source])
  {
    hide Result, RecordedIn, Expired;
  }

  /** An allow-listed source is never logged, alerted, blocked or escalated, and no callback
      can fail for it. */
  lemma {:induction false} AllowListedIsLeftAlone(c: Config, calls: seq<Call>, k: nat)
    requires k < |calls| && Listed(c.allowList, calls[k].source)
    ensures OutputOf(c, calls, k) == Nothing || OutputOf(c, calls, k) == Dispatched(Ignore)
    decreases k
  {
    hide Listed, CooledDown, StateAfter;
    var s := StateAfter(c, calls[..k]);
    LastIsRemembered(c, calls, k, calls[k].source);
    if calls[k].source in s.lastTime {
      var j := FindLast(c, calls, k, calls[k].source);
      AllowListedIsLeftAlone(c, calls, j);
    }
  }

  lemma {:induction false} FindLast(c: Config, calls: seq<Call>, k: nat, source: string) returns (j: nat)
    requires k <= |calls| && exists i: nat :: i < k && DispatchedFor(c, calls, i, source)
    ensures IsLastDispatch(c, calls, j, k, source)
    decreases k
  {
    hide OutputOf;
    if DispatchedFor(c, calls, k - 1, source) {
      j := k - 1;
    } else {
      j := FindLast(c, calls, k - 1, source);
    }
  }

  /** With learning mode off, a block-listed source that is not allow-listed is only ever
      dispatched Block. */
  lemma BlockListedIsOnlyBlocked(c: Config, calls: seq<Call>, k: nat)
    requires k < |calls| && !c.learning
    requires Listed(c.blockList, calls[k].source) && !Listed(c.allowList, calls[k].source)
    ensures OutputOf(c, calls, k) in {Nothing, Dispatched(Block), Faulted(Block)}
  {
    hide Listed, CooledDown, StateAfter;
  }

  /** ... and its dispatches are at least block_cooldown_s apart. */
  lemma BlocksAreSpaced(c: Config, calls: seq<Call>, i: nat, k: nat)
    requires i < k < |calls| && Nondecreasing(calls) && !c.learning && calls[i].source == calls[k].source
    requires Listed(c.blockList, calls[k].source) && !Listed(c.allowList, calls[k].source)
    requires OutputOf(c, calls, i).Dispatched? && OutputOf(c, calls, k).Dispatched?
    ensures calls[k].now - calls[i].now >= c.blockCooldown
  {
    hide Listed, StateAfter, OutputOf;
    var source := calls[k].source;
    assert DispatchedFor(c, calls, i, source);
    var j := FindLast(c, calls, k, source);
    BlockListedIsOnlyBlocked(c, calls, j);
    BlockListedIsOnlyBlocked(c, calls, k);
    LastIsRemembered(c, calls, k, source);
    DispatchHasCooled(c, calls, k);
    assert i <= j;
  }

  /** What the guards of execute say about a dispatch. */
  lemma DispatchHasCooled(c: Config, calls: seq<Call>, k: nat)
    requires k < |calls| && OutputOf(c, calls, k).Dispatched?
    ensures var s := StateAfter(c, calls[..k]); var w := Wanted(c, s, calls[k]);
      && CooledDown(c, s, calls[k].source, w, calls[k].now)
      && OutputOf(c, calls, k).d == if c.learning && (w == Block || w == Escalate) then Alert else w
  {
    hide CooledDown, Wanted, StateAfter;
  }

  /** While the last dispatch of a source is a Block younger than both the hold time and the
      block cooldown, the only dispatch that can follow it is an Escalate, with stronger
      decisions allowed, scoring below the block threshold less the hysteresis. */
  lemma OnlyWeakEscalateFollowsBlock(c: Config, calls: seq<Call>, j: nat, k: nat)
    requires k < |calls| && IsLastDispatch(c, calls, j, k, calls[k].source)
    requires OutputOf(c, calls, j) == Dispatched(Block) && OutputOf(c, calls, k).Dispatched?
    requires calls[k].now - calls[j].now < c.holdTime && calls[k].now - calls[j].now < c.blockCooldown
    ensures OutputOf(c, calls, k) == Dispatched(Escalate) && c.allowStronger
    ensures calls[k].confidence < calls[k].blockThreshold - c.hysteresis
  {
    hide Overridden, StateAfter, OutputOf;
    LastIsRemembered(c, calls, k, calls[k].source);
    DispatchHasCooled(c, calls, k);
    LearningNeverBlocks(c, calls, j);
  }

  lemma LearningNeverBlocks(c: Config, calls: seq<Call>, j: nat)
    requires j < |calls| && OutputOf(c, calls, j) == Dispatched(Block)
    ensures !c.learning
  {
    hide Wanted, CooledDown, StateAfter;
  }

  // ---- Repeat escalation ----

  /** How many of the first k calls were recorded for this source at time t or later. */
  function CountSince(c: Config, calls: seq<Call>, k: nat, source: string, t: real): nat
    requires k <= |calls|
    decreases k
  {
    if k == 0 then 0
    else CountSince(c, calls, k - 1, source, t)
         + if calls[k - 1].source == source && calls[k - 1].now >= t && !OutputOf(c, calls, k - 1).Nothing? then 1 else 0
  }

  lemma {:induction false} CountIsMonotone(c: Config, calls: seq<Call>, k: nat, source: string, t: real, u: real)
    requires k <= |calls| && t <= u
    ensures CountSince(c, calls, k, source, u) <= CountSince(c, calls, k, source, t)
    decreases k
  {
    hide OutputOf;
    if k > 0 {
      CountIsMonotone(c, calls, k - 1, source, t, u);
    }
  }

  /** The tracker never counts more than was recorded since the first alert it remembers. */
  lemma {:induction false} TrackerUndercounts(c: Config, calls: seq<Call>, k: nat, source: string)
    requires k <= |calls| && Nondecreasing(calls)
    ensures var t := StateAfter(c, calls[..k]).tracker;
      && (source in t.count <==> source in t.first) && (source in t.count <==> source in t.last)
      && (source in t.count ==>
            && t.count[source] <= CountSince(c, calls, k, source, t.first[source])
            && exists i :: 0 <= i < k && t.first[source] == calls[i].now)
    decreases k
  {
    hide Result;
    if k > 0 {
      TrackerUndercounts(c, calls, k - 1, source);
      assert calls[..k][..k - 1] == calls[..k - 1];
      OutputIsResult(c, calls, k - 1);
      TrackerStep(c, StateAfter(c, calls[..k - 1]).tracker, calls[k - 1], source);
    }
  }

  lemma TrackerStep(c: Config, t: Tracker, call: Call, source: string)
    requires (source in t.count <==> source in t.first) && (source in t.count <==> source in t.last)
    ensures var t' := Expired(RecordedIn(t, call.source, call.now), c.repeatWindow, call.now);
      && (source in t'.count <==> source in t'.first) && (source in t'.count <==> source in t'.last)
      && (source in t'.count ==>
            if source != call.source then source in t.count && t'.count[source] == t.count[source] && t'.first[source] == t.first[source]
            else if source in t.count then t'.count[source] <= t.count[source] + 1 && t'.first[source] == t.first[source]
            else t'.count[source] <= 1 && t'.first[source] == call.now)
  {}

  /** If a dispatch escalates for no other reason than repetition, then at least
      repeat_escalate_n decisions were recorded for the source in the last repeat_window_s. */
  lemma RepeatEscalationIsEarned(c: Config, calls: seq<Call>, k: nat)
    requires k < |calls| && Nondecreasing(calls) && OutputOf(c, calls, k) == Dispatched(Escalate)
    requires calls[k].decision != Escalate && !DriftEscalates(c, calls[k])
    ensures CountSince(c, calls, k, calls[k].source, calls[k].now - c.repeatWindow) >= c.repeatN
  {
    hide Listed, CooledDown, DriftEscalates, StateAfter;
    var t := StateAfter(c, calls[..k]).tracker;
    assert ShouldEscalate(c, t, calls[k].source, calls[k].now);
    TrackerUndercounts(c, calls, k, calls[k].source);
    CountIsMonotone(c, calls, k, calls[k].source, calls[k].now - c.repeatWindow, t.first[calls[k].source]);
  }
}
