/** The decision engine from the outside: what every call of a run does, from the calls before
    it alone. */
module Dispatches {
  import opened Decisions

  // ---- The repeat tracker, from the history ----

  /** Call i was recorded for this source. */
  ghost predicate RecordedFor(c: Config, calls: seq<Call>, i: nat, source: string)
    requires i < |calls|
  {
    calls[i].source == source && !OutputOf(c, calls, i).Nothing?
  }

  /** l is the last recorded call of this source among the first k. */
  ghost predicate LastRecorded(c: Config, calls: seq<Call>, l: nat, k: nat, source: string)
    requires k <= |calls|
  {
    l < k && RecordedFor(c, calls, l, source) && forall i: nat :: l < i < k ==> !RecordedFor(c, calls, i, source)
  }

  /** When call m comes, of whatever source, the last recorded call l of this one is too old. */
  ghost predicate TooOld(c: Config, calls: seq<Call>, l: nat, m: nat, source: string)
    requires m < |calls|
  {
    LastRecorded(c, calls, l, m + 1, source) && calls[m].now - calls[l].now > c.repeatWindow
  }

  /** Call m is recorded and makes the tracker forget this source. */
  ghost predicate Forgets(c: Config, calls: seq<Call>, m: nat, source: string)
    requires m < |calls|
  {
    !OutputOf(c, calls, m).Nothing? && exists l: nat :: TooOld(c, calls, l, m, source)
  }

  /** Call i began the streak of this source that lasts after k calls: it was recorded, nothing
      has forgotten the source since, and everything recorded for it earlier was forgotten. */
  ghost predicate Begins(c: Config, calls: seq<Call>, i: nat, k: nat, source: string)
    requires k <= |calls|
  {
    && i < k && RecordedFor(c, calls, i, source)
    && (forall m: nat :: i <= m < k ==> !Forgets(c, calls, m, source))
    && (forall j: nat :: j < i && RecordedFor(c, calls, j, source) ==>
          exists m: nat :: j <= m < i && Forgets(c, calls, m, source))
  }

  /** How many of calls i to k-1 were recorded for this source. */
  function CountFrom(c: Config, calls: seq<Call>, i: nat, k: nat, source: string): nat
    requires k <= |calls|
    decreases k
  {
    if k <= i then 0
    else CountFrom(c, calls, i, k - 1, source)
         + if calls[k - 1].source == source && !OutputOf(c, calls, k - 1).Nothing? then 1 else 0
  }

  ghost predicate HasStreak(c: Config, calls: seq<Call>, k: nat, source: string)
    requires k <= |calls|
  {
    exists i: nat :: Begins(c, calls, i, k, source)
  }

  /** What the tracker knows of a source after k calls. */
  ghost predicate Tracks(c: Config, calls: seq<Call>, k: nat, source: string)
    requires k <= |calls|
  {
    var t := StateAfter(c, calls[..k]).tracker;
    && (source in t.count <==> HasStreak(c, calls, k, source))
    && (source in t.first <==> HasStreak(c, calls, k, source))
    && (source in t.last <==> HasStreak(c, calls, k, source))
    && (forall i: nat :: i < k && Begins(c, calls, i, k, source) && source in t.count && source in t.first ==>
          && t.first[source] == calls[i].now
          && t.count[source] == CountFrom(c, calls, i, k, source) % COUNTER_RANGE)
    && (source in t.last ==> exists l: nat :: l < k && LastRecorded(c, calls, l, k, source) && t.last[source] == calls[l].now)
  }

  /** What one call makes of what the tracker knows of a source. */
  ghost predicate Moves(c: Config, t: Tracker, t': Tracker, now: real, own: bool, source: string) {
    var known := own || source in t.last;
    var last := if own || source !in t.last then now else t.last[source];
    var forgotten := known && now - last > c.repeatWindow;
    && (source in t'.last <==> known && !forgotten)
    && (source in t'.count <==> (own || source in t.count) && !forgotten)
    && (source in t'.first <==> (own || source in t.first) && !forgotten)
    && (source in t'.last ==> t'.last[source] == last)
    && (source in t'.count && own ==>
          t'.count[source] == ((if source in t.count then t.count[source] else 0) + 1) % COUNTER_RANGE)
    && (source in t'.count && !own ==> t'.count[source] == t.count[source])
    && (source in t'.first ==> t'.first[source] == if source in t.first then t.first[source] else now)
  }

  lemma TrackerMoves(c: Config, calls: seq<Call>, k: nat, source: string)
    requires k < |calls|
    ensures var t, t' := StateAfter(c, calls[..k]).tracker, StateAfter(c, calls[..k + 1]).tracker;
      if OutputOf(c, calls, k).Nothing? then t' == t
      else (source in t.count <==> source in t.last) && (source in t.first <==> source in t.last) ==>
        Moves(c, t, t', calls[k].now, RecordedFor(c, calls, k, source), source)
  {
    hide Result, Moves;
    StateStep(c, calls, k + 1);
    OutputIsResult(c, calls, k);
    RecordMoves(c, StateAfter(c, calls[..k]).tracker, calls[k].source, calls[k].now, source);
  }

  lemma RecordMoves(c: Config, t: Tracker, recorded: string, now: real, source: string)
    ensures (source in t.count <==> source in t.last) && (source in t.first <==> source in t.last) ==>
              Moves(c, t, Expired(RecordedIn(t, recorded, now), c.repeatWindow, now), now, recorded == source, source)
  {}

  lemma NothingTracked(c: Config, calls: seq<Call>, source: string)
    ensures Tracks(c, calls, 0, source)
  {}

  /** A recorded call that nothing forgot belongs to a streak. */
  lemma {:induction false} StreakExists(c: Config, calls: seq<Call>, j: nat, k: nat, source: string)
    requires k <= |calls| && j < k && RecordedFor(c, calls, j, source)
    requires forall m: nat :: j <= m < k ==> !Forgets(c, calls, m, source)
    ensures HasStreak(c, calls, k, source)
    decreases j
  {
    hide RecordedFor, Forgets;
    if h: nat :| h < j && RecordedFor(c, calls, h, source) && forall m: nat :: h <= m < j ==> !Forgets(c, calls, m, source) {
      StreakExists(c, calls, h, k, source);
    } else {
      assert Begins(c, calls, j, k, source);
    }
  }

  /** One call more: a streak that began before it lasts unless the call ends it. */
  lemma StreakLasts(c: Config, calls: seq<Call>, i: nat, k: nat, n: nat, source: string)
    requires n == k + 1 <= |calls| && i < k
    ensures Begins(c, calls, i, n, source) <==> Begins(c, calls, i, k, source) && !Forgets(c, calls, k, source)
  {
    hide RecordedFor, Forgets;
  }

  /** And it begins one if it is recorded where there was none. */
  lemma StreakBegins(c: Config, calls: seq<Call>, k: nat, n: nat, source: string)
    requires n == k + 1 <= |calls|
    ensures Begins(c, calls, k, n, source)
       <==> RecordedFor(c, calls, k, source) && !Forgets(c, calls, k, source) && !HasStreak(c, calls, k, source)
  {
    hide RecordedFor, Forgets;
    if RecordedFor(c, calls, k, source) && !Forgets(c, calls, k, source) && !HasStreak(c, calls, k, source) {
      forall j: nat | j < k && RecordedFor(c, calls, j, source)
        ensures exists m: nat :: j <= m < k && Forgets(c, calls, m, source)
      {
        if forall m: nat :: j <= m < k ==> !Forgets(c, calls, m, source) {
          StreakExists(c, calls, j, k, source);
        }
      }
      assert Begins(c, calls, k, n, source);
    }
  }

  lemma StreakMoves(c: Config, calls: seq<Call>, k: nat, n: nat, source: string)
    requires n == k + 1 <= |calls|
    ensures HasStreak(c, calls, n, source)
       <==> !Forgets(c, calls, k, source) && (RecordedFor(c, calls, k, source) || HasStreak(c, calls, k, source))
  {
    hide RecordedFor, Forgets, Begins;
    StreakBegins(c, calls, k, n, source);
    if i: nat :| Begins(c, calls, i, k, source) {
      BeganBefore(c, calls, i, k, source);
      StreakLasts(c, calls, i, k, n, source);
    }
    if i: nat :| Begins(c, calls, i, n, source) {
      BeganBefore(c, calls, i, n, source);
      if i < k {
        StreakLasts(c, calls, i, k, n, source);
      }
    }
  }

  lemma BeganBefore(c: Config, calls: seq<Call>, i: nat, k: nat, source: string)
    requires k <= |calls| && Begins(c, calls, i, k, source)
    ensures i < k
  {}

  /** The last recorded call of a source, one call later. */
  lemma LastMoves(c: Config, calls: seq<Call>, l: nat, k: nat, n: nat, source: string)
    requires n == k + 1 <= |calls|
    ensures RecordedFor(c, calls, k, source) ==> (LastRecorded(c, calls, l, n, source) <==> l == k)
    ensures !RecordedFor(c, calls, k, source) ==> (LastRecorded(c, calls, l, n, source) <==> LastRecorded(c, calls, l, k, source))
  {
    hide RecordedFor;
  }

  lemma LastIsBefore(c: Config, calls: seq<Call>, l: nat, k: nat, source: string)
    requires k <= |calls| && LastRecorded(c, calls, l, k, source)
    ensures l < k
  {}

  lemma LastIsUnique(c: Config, calls: seq<Call>, l: nat, h: nat, k: nat, source: string)
    requires k <= |calls| && LastRecorded(c, calls, l, k, source) && LastRecorded(c, calls, h, k, source)
    ensures l == h
  {
    hide RecordedFor;
  }

  lemma CountMoves(c: Config, calls: seq<Call>, i: nat, k: nat, n: nat, source: string)
    requires n == k + 1 <= |calls| && i <= k
    ensures CountFrom(c, calls, i, n, source)
         == CountFrom(c, calls, i, k, source) + if RecordedFor(c, calls, k, source) then 1 else 0
    ensures CountFrom(c, calls, k, k, source) == 0
  {
    hide OutputOf;
  }

  /** A call ends the streak exactly if it finds the source's last record too old. */
  lemma ForgetsWhenOld(c: Config, calls: seq<Call>, l: nat, k: nat, source: string)
    requires k < |calls| && l <= k && LastRecorded(c, calls, l, k + 1, source)
    ensures Forgets(c, calls, k, source) <==> !OutputOf(c, calls, k).Nothing? && calls[k].now - calls[l].now > c.repeatWindow
  {
    hide LastRecorded, OutputOf;
    LastIsBefore(c, calls, l, k + 1, source);
    assert TooOld(c, calls, l, k, source) <==> calls[k].now - calls[l].now > c.repeatWindow;
    if h: nat :| TooOld(c, calls, h, k, source) {
      LastIsUnique(c, calls, l, h, k + 1, source);
    }
  }

  lemma UntrackedStep(c: Config, calls: seq<Call>, k: nat, n: nat, source: string)
    requires n == k + 1 <= |calls| && Tracks(c, calls, k, source) && OutputOf(c, calls, k).Nothing?
    ensures Tracks(c, calls, n, source)
  {
    hide StateAfter, OutputOf, Begins, CountFrom, LastRecorded, HasStreak;
    TrackerMoves(c, calls, k, source);
    StreakMoves(c, calls, k, n, source);
    NotRecorded(c, calls, k, source);
    assert StateAfter(c, calls[..n]).tracker == StateAfter(c, calls[..k]).tracker;
    forall i: nat | i < n && Begins(c, calls, i, n, source)
      ensures i < k && Begins(c, calls, i, k, source) && CountFrom(c, calls, i, n, source) == CountFrom(c, calls, i, k, source)
    {
      StreakBegins(c, calls, k, n, source);
      if i < k {
        StreakLasts(c, calls, i, k, n, source);
      }
      CountMoves(c, calls, i, k, n, source);
    }
    if source in StateAfter(c, calls[..k]).tracker.last {
      var l: nat :| l < k && LastRecorded(c, calls, l, k, source) && StateAfter(c, calls[..k]).tracker.last[source] == calls[l].now;
      LastMoves(c, calls, l, k, n, source);
      assert LastRecorded(c, calls, l, n, source);
    }
  }

  lemma NotRecorded(c: Config, calls: seq<Call>, k: nat, source: string)
    requires k < |calls| && OutputOf(c, calls, k).Nothing?
    ensures !RecordedFor(c, calls, k, source) && !Forgets(c, calls, k, source)
  {
    hide OutputOf;
  }

  lemma TrackedStep(c: Config, calls: seq<Call>, k: nat, n: nat, source: string)
    requires n == k + 1 <= |calls| && Tracks(c, calls, k, source) && !OutputOf(c, calls, k).Nothing?
    ensures Tracks(c, calls, n, source)
  {
    hide StateAfter, OutputOf, Begins, CountFrom, LastRecorded, HasStreak, RecordedFor, Forgets;
    var t, t' := StateAfter(c, calls[..k]).tracker, StateAfter(c, calls[..n]).tracker;
    var own := RecordedFor(c, calls, k, source);
    TrackerMoves(c, calls, k, source);
    StreakMoves(c, calls, k, n, source);
    StreakBegins(c, calls, k, n, source);
    if own || source in t.last {
      var l: nat := k;
      if !own {
        l :| l < k && LastRecorded(c, calls, l, k, source) && t.last[source] == calls[l].now;
      }
      LastMoves(c, calls, l, k, n, source);
      ForgetsWhenOld(c, calls, l, k, source);
    }
    forall i: nat | i < n && Begins(c, calls, i, n, source) && source in t'.count && source in t'.first
      ensures t'.first[source] == calls[i].now
      ensures t'.count[source] == CountFrom(c, calls, i, n, source) % COUNTER_RANGE
    {
      CountMoves(c, calls, i, k, n, source);
      if i < k {
        StreakLasts(c, calls, i, k, n, source);
        WasStreak(c, calls, i, k, source);
        NextCount(t.count[source], CountFrom(c, calls, i, k, source));
      }
    }
  }

  lemma WasStreak(c: Config, calls: seq<Call>, i: nat, k: nat, source: string)
    requires k <= |calls| && Begins(c, calls, i, k, source)
    ensures HasStreak(c, calls, k, source)
  {
    hide Begins;
  }

  lemma NextCount(n: nat, m: nat)
    requires n == m % COUNTER_RANGE
    ensures (n + 1) % COUNTER_RANGE == (m + 1) % COUNTER_RANGE
  {}

  /** After any run, the tracker knows a source exactly if a streak of it lasts, and then holds
      when the streak began and how many calls it has recorded, modulo 2^32. */
  lemma {:induction false} TrackerIsItsHistory(c: Config, calls: seq<Call>, k: nat, source: string)
    requires k <= |calls|
    ensures Tracks(c, calls, k, source)
    decreases k
  {
    hide *;
    if k == 0 {
      NothingTracked(c, calls, source);
    } else {
      TrackerIsItsHistory(c, calls, k - 1, source);
      if OutputOf(c, calls, k - 1).Nothing? {
        UntrackedStep(c, calls, k - 1, k, source);
      } else {
        TrackedStep(c, calls, k - 1, k, source);
      }
    }
  }

  // ---- The lists ----

  /** A source is listed if some entry of the list occurs in it, in the middle or at an end. */
  lemma ListedMeansContained(list: seq<string>, source: string)
    ensures Listed(list, source) <==> exists k, a, b :: 0 <= k < |list| && source == a + list[k] + b
  {
    hide Contains;
    if Listed(list, source) {
      var k :| 0 <= k < |list| && Contains(source, list[k]);
      var a, b := Split(source, list[k]);
    }
    if k, a, b :| 0 <= k < |list| && source == a + list[k] + b {
      Found(a, list[k], b);
    }
  }

  lemma Split(s: string, pattern: string) returns (a: string, b: string)
    requires Contains(s, pattern)
    ensures s == a + pattern + b
  {
    var i: nat :| i <= |s| && MatchAt(s, pattern, i);
    a, b := s[..i], s[i + |pattern|..];
    assert s == s[..i] + s[i..i + |pattern|] + s[i + |pattern|..];
  }

  lemma Found(a: string, pattern: string, b: string)
    ensures Contains(a + pattern + b, pattern)
  {
    assert (a + pattern + b)[|a|..|a| + |pattern|] == pattern;
    assert MatchAt(a + pattern + b, pattern, |a|);
  }

  // ---- Reasons to escalate ----

  /** The source repeats itself: within the window since its streak began, enough calls were
      recorded for it. */
  ghost predicate Repeats(c: Config, calls: seq<Call>, k: nat)
    requires k < |calls|
  {
    exists i: nat :: i < k && Begins(c, calls, i, k, calls[k].source)
                     && CountFrom(c, calls, i, k, calls[k].source) % COUNTER_RANGE >= c.repeatN
                     && calls[k].now - calls[i].now <= c.repeatWindow
  }

  lemma BeginsOnce(c: Config, calls: seq<Call>, i: nat, h: nat, k: nat, source: string)
    requires k <= |calls| && Begins(c, calls, i, k, source) && Begins(c, calls, h, k, source)
    ensures i == h
  {
    hide RecordedFor, Forgets;
  }

  lemma RepeatsIsTracked(c: Config, calls: seq<Call>, k: nat)
    requires k < |calls|
    ensures ShouldEscalate(c, StateAfter(c, calls[..k]).tracker, calls[k].source, calls[k].now) <==> Repeats(c, calls, k)
  {
    hide StateAfter, Begins, CountFrom, LastRecorded;
    var t, source := StateAfter(c, calls[..k]).tracker, calls[k].source;
    TrackerIsItsHistory(c, calls, k, source);
    if i: nat :| Begins(c, calls, i, k, source) {
      BeganBefore(c, calls, i, k, source);
      WasStreak(c, calls, i, k, source);
      forall h: nat | Begins(c, calls, h, k, source) ensures h == i {
        BeginsOnce(c, calls, i, h, k, source);
      }
    }
  }

  /** A source that goes on without a pause for longer than the window is not escalated for
      repetition, however often it was recorded within the last window. */
  lemma LongStreakIsNotRepetition(c: Config, calls: seq<Call>, i: nat, k: nat)
    requires k < |calls| && i < k && Begins(c, calls, i, k, calls[k].source)
    requires calls[k].now - calls[i].now > c.repeatWindow
    ensures !Repeats(c, calls, k)
  {
    hide Begins, CountFrom;
    if h: nat :| h < k && Begins(c, calls, h, k, calls[k].source) && calls[k].now - calls[h].now <= c.repeatWindow {
      BeginsOnce(c, calls, i, h, k, calls[k].source);
    }
  }

  /** Drift alone, or a bad history with half the drift or with repetition, or repetition alone. */
  ghost predicate HasReason(c: Config, calls: seq<Call>, k: nat)
    requires k < |calls|
  {
    var call := calls[k];
    || call.drift >= c.escalateDrift
    || (call.history >= c.escalateHist && call.history >= c.escalateHist * 0.9 && call.drift >= c.escalateDrift * 0.5)
    || Repeats(c, calls, k)
  }

  /** d is what call k asks for, its source's last dispatch aside. */
  ghost predicate Asks(c: Config, calls: seq<Call>, k: nat, d: Decision)
    requires k < |calls|
  {
    var call := calls[k];
    var allowed, blocked := Listed(c.allowList, call.source), Listed(c.blockList, call.source);
    var open := call.decision in {Alert, Block, Escalate};
    && (allowed ==> d == Ignore)
    && (!allowed && blocked ==> d == Block)
    && (!allowed && !blocked && !open ==> d == call.decision)
    && (!allowed && !blocked && open && HasReason(c, calls, k) ==> d == Escalate)
    && (!allowed && !blocked && open && !HasReason(c, calls, k) ==> d == call.decision)
  }

  lemma OverriddenIsAsked(c: Config, calls: seq<Call>, k: nat)
    requires k < |calls|
    ensures Asks(c, calls, k, Overridden(c, StateAfter(c, calls[..k]).tracker, calls[k]))
  {
    hide StateAfter, Listed, ShouldEscalate, Repeats;
    RepeatsIsTracked(c, calls, k);
  }

  // ---- What every call does ----

  predicate Passes(c: Config, call: Call) {
    !call.falsePositive && call.confidence >= c.minConfidence
  }

  /** out is the dispatch of d, or of an alert where learning mode forbids d. */
  predicate Sends(c: Config, call: Call, d: Decision, out: Output) {
    var sent := if c.learning && (d == Block || d == Escalate) then Alert else d;
    out == if call.throws && sent != Ignore then Faulted(sent) else Dispatched(sent)
  }

  /** Without an earlier dispatch for its source a call that passes the guards is dispatched as
      what it asks for. */
  lemma FirstIsDispatched(c: Config, calls: seq<Call>, k: nat, d: Decision)
    requires k < |calls| && Asks(c, calls, k, d)
    requires forall j: nat :: !IsLastDispatch(c, calls, j, k, calls[k].source)
    ensures if Passes(c, calls[k]) then Sends(c, calls[k], d, OutputOf(c, calls, k)) else OutputOf(c, calls, k).Nothing?
  {
    hide StateAfter, Overridden, DispatchedFor, Asks, IsLastDispatch;
    OverriddenIsAsked(c, calls, k);
    AskedOnce(c, calls, k, d, Overridden(c, StateAfter(c, calls[..k]).tracker, calls[k]));
    NeverDispatched(c, calls, k, calls[k].source);
  }

  lemma AskedOnce(c: Config, calls: seq<Call>, k: nat, d: Decision, e: Decision)
    requires k < |calls| && Asks(c, calls, k, d) && Asks(c, calls, k, e)
    ensures d == e
  {
    hide HasReason, Listed;
  }

  lemma NeverDispatched(c: Config, calls: seq<Call>, k: nat, source: string)
    requires k <= |calls| && forall j: nat :: !IsLastDispatch(c, calls, j, k, source)
    ensures var s := StateAfter(c, calls[..k]); source !in s.lastTime && source !in s.lastDecision
  {
    hide StateAfter, DispatchedFor, IsLastDispatch;
    LastIsRemembered(c, calls, k, source);
    if i: nat :| i < k && DispatchedFor(c, calls, i, source) {
      var j := FindLast(c, calls, k, source);
    }
  }

  lemma WasDispatched(c: Config, calls: seq<Call>, j: nat, k: nat, source: string)
    requires k <= |calls| && IsLastDispatch(c, calls, j, k, source)
    ensures j < |calls| && OutputOf(c, calls, j).Dispatched?
    ensures var s := StateAfter(c, calls[..k]);
      && source in s.lastTime && source in s.lastDecision
      && s.lastTime[source] == calls[j].now && s.lastDecision[source] == OutputOf(c, calls, j).d
  {
    hide StateAfter, OutputOf;
    LastIsRemembered(c, calls, k, source);
  }

  /** After a Block: a high score within the hold time asks for Block again, whatever else it
      asks for; within the block cooldown nothing but a permitted Escalate gets through. */
  lemma AfterBlock(c: Config, calls: seq<Call>, j: nat, k: nat, d: Decision)
    requires k < |calls| && Asks(c, calls, k, d)
    requires IsLastDispatch(c, calls, j, k, calls[k].source) && OutputOf(c, calls, j) == Dispatched(Block)
    ensures var call, age := calls[k], calls[k].now - calls[j].now;
      var want := if age < c.holdTime && call.confidence >= call.blockThreshold - c.hysteresis then Block else d;
      if !Passes(c, call) || (age < c.blockCooldown && !(c.allowStronger && want == Escalate)) then OutputOf(c, calls, k).Nothing?
      else Sends(c, call, want, OutputOf(c, calls, k))
  {
    hide StateAfter, Overridden, Asks, IsLastDispatch;
    OverriddenIsAsked(c, calls, k);
    AskedOnce(c, calls, k, d, Overridden(c, StateAfter(c, calls[..k]).tracker, calls[k]));
    WasDispatched(c, calls, j, k, calls[k].source);
    OutputIsResult(c, calls, k);
  }

  /** After an Alert: within the alert cooldown only a permitted Block or Escalate gets through. */
  lemma AfterAlert(c: Config, calls: seq<Call>, j: nat, k: nat, d: Decision)
    requires k < |calls| && Asks(c, calls, k, d)
    requires IsLastDispatch(c, calls, j, k, calls[k].source) && OutputOf(c, calls, j) == Dispatched(Alert)
    ensures var call, age := calls[k], calls[k].now - calls[j].now;
      if !Passes(c, call) || (age < c.alertCooldown && !(c.allowStronger && d in {Block, Escalate})) then OutputOf(c, calls, k).Nothing?
      else Sends(c, call, d, OutputOf(c, calls, k))
  {
    hide StateAfter, Overridden, Asks, IsLastDispatch;
    OverriddenIsAsked(c, calls, k);
    AskedOnce(c, calls, k, d, Overridden(c, StateAfter(c, calls[..k]).tracker, calls[k]));
    WasDispatched(c, calls, j, k, calls[k].source);
    OutputIsResult(c, calls, k);
  }

  /** After anything else every call that passes the guards is dispatched as what it asks for. */
  lemma AfterOther(c: Config, calls: seq<Call>, j: nat, k: nat, d: Decision)
    requires k < |calls| && Asks(c, calls, k, d) && IsLastDispatch(c, calls, j, k, calls[k].source)
    requires OutputOf(c, calls, j) != Dispatched(Block) && OutputOf(c, calls, j) != Dispatched(Alert)
    ensures if Passes(c, calls[k]) then Sends(c, calls[k], d, OutputOf(c, calls, k)) else OutputOf(c, calls, k).Nothing?
  {
    hide StateAfter, Overridden, Asks, IsLastDispatch;
    OverriddenIsAsked(c, calls, k);
    AskedOnce(c, calls, k, d, Overridden(c, StateAfter(c, calls[..k]).tracker, calls[k]));
    WasDispatched(c, calls, j, k, calls[k].source);
    OutputIsResult(c, calls, k);
  }

  // ---- In plain terms ----

  /** Nothing was dispatched for the source of call k within the hold time or a cooldown. */
  ghost predicate Rested(c: Config, calls: seq<Call>, k: nat)
    requires k < |calls|
  {
    forall j: nat :: IsLastDispatch(c, calls, j, k, calls[k].source) && j < k ==>
      var age := calls[k].now - calls[j].now;
      age >= c.holdTime && age >= c.blockCooldown && age >= c.alertCooldown
  }

  lemma RestedIsDispatched(c: Config, calls: seq<Call>, k: nat, d: Decision)
    requires k < |calls| && Asks(c, calls, k, d) && Passes(c, calls[k]) && Rested(c, calls, k)
    ensures Sends(c, calls[k], d, OutputOf(c, calls, k))
  {
    hide OutputOf, Asks, IsLastDispatch, Sends;
    if j: nat :| IsLastDispatch(c, calls, j, k, calls[k].source) {
      WasDispatched(c, calls, j, k, calls[k].source);
      LastIsEarlier(c, calls, j, k, calls[k].source);
      if OutputOf(c, calls, j) == Dispatched(Block) {
        AfterBlock(c, calls, j, k, d);
      } else if OutputOf(c, calls, j) == Dispatched(Alert) {
        AfterAlert(c, calls, j, k, d);
      } else {
        AfterOther(c, calls, j, k, d);
      }
    } else {
      FirstIsDispatched(c, calls, k, d);
    }
  }

  lemma LastIsEarlier(c: Config, calls: seq<Call>, j: nat, k: nat, source: string)
    requires k <= |calls| && IsLastDispatch(c, calls, j, k, source)
    ensures j < k
  {}

  /** An ordinary call is dispatched as decided: its source is on neither list and rested, neither
      drift nor history speak for escalation, and fewer than repeat_escalate_n calls of the
      source were recorded within the window. */
  lemma OrdinaryIsDispatched(c: Config, calls: seq<Call>, k: nat)
    requires k < |calls| && Nondecreasing(calls) && Rested(c, calls, k)
    requires !calls[k].falsePositive && calls[k].confidence >= c.minConfidence
    requires !Listed(c.allowList, calls[k].source) && !Listed(c.blockList, calls[k].source)
    requires calls[k].drift < c.escalateDrift && (calls[k].history < c.escalateHist || calls[k].drift < c.escalateDrift * 0.5)
    requires CountSince(c, calls, k, calls[k].source, calls[k].now - c.repeatWindow) < c.repeatN
    ensures var call := calls[k];
      var sent := if c.learning && call.decision in {Block, Escalate} then Alert else call.decision;
      OutputOf(c, calls, k) == if call.throws && sent != Ignore then Faulted(sent) else Dispatched(sent)
  {
    hide OutputOf, Listed, Rested, CountSince, StateAfter;
    if Repeats(c, calls, k) {
      RepeatsIsTracked(c, calls, k);
      TrackerUndercounts(c, calls, k, calls[k].source);
      CountIsMonotone(c, calls, k, calls[k].source, calls[k].now - c.repeatWindow,
                      StateAfter(c, calls[..k]).tracker.first[calls[k].source]);
    }
    hide Repeats;
    RestedIsDispatched(c, calls, k, calls[k].decision);
  }

  /** An alert or a block under such circumstances is escalated if the drift is high. */
  lemma DriftIsEscalated(c: Config, calls: seq<Call>, k: nat)
    requires k < |calls| && Rested(c, calls, k) && calls[k].decision in {Alert, Block, Escalate}
    requires !calls[k].falsePositive && calls[k].confidence >= c.minConfidence
    requires !Listed(c.allowList, calls[k].source) && !Listed(c.blockList, calls[k].source)
    requires calls[k].drift >= c.escalateDrift
    ensures var sent := if c.learning then Alert else Escalate;
      OutputOf(c, calls, k) == if calls[k].throws then Faulted(sent) else Dispatched(sent)
  {
    hide OutputOf, Listed, Rested, Repeats;
    RestedIsDispatched(c, calls, k, Escalate);
  }
}
