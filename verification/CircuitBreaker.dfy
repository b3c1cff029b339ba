/** CircuitBreaker of backend/app/circuit_breaker.py for calls made one after another: its four
    fields say of the history exactly what the specification below says. */
module CircuitBreaker {

  /** What happened, oldest first. A failure carries the time at which it was noticed. */
  datatype Entry = Passed | Failed(at: real) | Refused | Reset

  datatype Config = Config(failureThreshold: int, recoveryTimeout: real, halfOpenMax: int)

  /** A threshold of zero or less acts like one. */
  function AtLeastOne(n: int): (r: nat)
    ensures r >= 1
  {
    if n < 1 then 1 else n
  }

  // ---- The history ----

  /** Failures since the last success or reset; refusals do not count. */
  function TrailingFailures(log: seq<Entry>): nat
    decreases |log|
  {
    if log == [] then 0
    else
      match log[|log| - 1]
      case Failed(_) => TrailingFailures(log[..|log| - 1]) + 1
      case Refused => TrailingFailures(log[..|log| - 1])
      case _ => 0
  }

  /** Successes since the last failure or reset. */
  function TrailingPasses(log: seq<Entry>): nat
    decreases |log|
  {
    if log == [] then 0
    else
      match log[|log| - 1]
      case Passed => TrailingPasses(log[..|log| - 1]) + 1
      case Refused => TrailingPasses(log[..|log| - 1])
      case _ => 0
  }

  function LastFailure(log: seq<Entry>): real
    decreases |log|
  {
    if log == [] then 0.0
    else if log[|log| - 1].Failed? then log[|log| - 1].at
    else LastFailure(log[..|log| - 1])
  }

  /** The breaker has tripped and not closed since. */
  predicate Tripped(c: Config, log: seq<Entry>)
    decreases |log|
  {
    log != [] &&
    var before := log[..|log| - 1];
    match log[|log| - 1]
    case Failed(_) => Tripped(c, before) || TrailingFailures(log) >= AtLeastOne(c.failureThreshold)
    case Passed => Tripped(c, before) && TrailingPasses(log) < AtLeastOne(c.halfOpenMax)
    case Refused => Tripped(c, before)
    case Reset => false
  }

  /** Whether a call at this time is turned away. */
  predicate Refuses(c: Config, log: seq<Entry>, now: real) {
    Tripped(c, log) && TrailingPasses(log) == 0 && now - LastFailure(log) < c.recoveryTimeout
  }

  lemma Snoc(c: Config, log: seq<Entry>, e: Entry)
    ensures (log + [e])[..|log|] == log && (log + [e])[|log|] == e
  {}

  // ---- The breaker ----

  datatype CircuitState = CLOSED | OPEN | HALF_OPEN

  class CircuitBreaker {
    const c: Config
    var state: CircuitState
    var failureCount: int
    var lastFailureTime: real
    var halfOpenAttempts: int
    ghost var log: seq<Entry>

    ghost predicate Valid()
      reads this
    {
      && (state == CLOSED <==> !Tripped(c, log))
      && (state == CLOSED ==> failureCount == TrailingFailures(log) && failureCount < AtLeastOne(c.failureThreshold))
      && (state != CLOSED ==> failureCount >= AtLeastOne(c.failureThreshold) && lastFailureTime == LastFailure(log))
      && (state == OPEN ==> TrailingPasses(log) == 0)
      && (state == HALF_OPEN ==> halfOpenAttempts == TrailingPasses(log) && 0 < halfOpenAttempts < AtLeastOne(c.halfOpenMax))
    }

    constructor (c: Config)
      ensures Valid() && this.c == c && log == []
    {
      this.c := c;
      state, failureCount, lastFailureTime, halfOpenAttempts, log := CLOSED, 0, 0.0, 0, [];
    }

    /** A call is refused exactly if the history says so; otherwise the function runs, and its
        success or failure is what the history gains. */
    method Call(now: real, succeeds: bool, failedAt: real) returns (r: Entry)
      requires Valid()
      modifies this
      ensures Valid() && log == old(log) + [r]
      ensures r == if Refuses(c, old(log), now) then Refused else if succeeds then Passed else Failed(failedAt)
    {
      if state == OPEN {
        if now - lastFailureTime >= c.recoveryTimeout {
          state := HALF_OPEN;
          halfOpenAttempts := 0;
        } else {
          Snoc(c, log, Refused);
          log := log + [Refused];
          return Refused;
        }
      }
      if succeeds {
        OnSuccess();
        r := Passed;
      } else {
        OnFailure(failedAt);
        r := Failed(failedAt);
      }
    }

    /** Between the transition to HALF_OPEN and the end of the test call. */
    ghost predicate Running()
      reads this
    {
      && (state == CLOSED <==> !Tripped(c, log)) && state != OPEN
      && (state == CLOSED ==> failureCount == TrailingFailures(log) && failureCount < AtLeastOne(c.failureThreshold))
      && (state == HALF_OPEN ==>
            && failureCount >= AtLeastOne(c.failureThreshold)
            && lastFailureTime == LastFailure(log)
            && halfOpenAttempts == TrailingPasses(log) && 0 <= halfOpenAttempts < AtLeastOne(c.halfOpenMax))
    }

    method OnSuccess()
      requires Running()
      modifies this
      ensures Valid() && log == old(log) + [Passed]
    {
      Snoc(c, log, Passed);
      if state == HALF_OPEN {
        halfOpenAttempts := halfOpenAttempts + 1;
        if halfOpenAttempts >= c.halfOpenMax {
          state := CLOSED;
          failureCount := 0;
        }
      } else {
        failureCount := 0;
      }
      log := log + [Passed];
    }

    method OnFailure(now: real)
      requires Running()
      modifies this
      ensures Valid() && log == old(log) + [Failed(now)]
      ensures old(state) == HALF_OPEN ==> state == OPEN
    {
      Snoc(c, log, Failed(now));
      failureCount := failureCount + 1;
      lastFailureTime := now;
      if failureCount >= c.failureThreshold {
        state := OPEN;
      }
      log := log + [Failed(now)];
    }

    method Clear()
      requires Valid()
      modifies this
      ensures Valid() && state == CLOSED && log == old(log) + [Reset]
    {
      Snoc(c, log, Reset);
      state, failureCount, halfOpenAttempts := CLOSED, 0, 0;
      log := log + [Reset];
    }
  }

  // ---- What the specification implies ----

  ghost predicate NoResetSince(log: seq<Entry>, k: nat) {
    forall i :: k <= i < |log| ==> log[i] != Reset
  }

  function CountPassed(log: seq<Entry>): nat
    decreases |log|
  {
    if log == [] then 0 else CountPassed(log[..|log| - 1]) + if log[|log| - 1] == Passed then 1 else 0
  }

  /** The trailing successes are consecutive: some end of the history holds exactly them and
      refusals. */
  lemma {:induction false} PassesAreConsecutive(log: seq<Entry>) returns (i: nat)
    ensures i <= |log| && (forall k :: i <= k < |log| ==> log[k] == Passed || log[k] == Refused)
    ensures CountPassed(log[i..]) == TrailingPasses(log)
    decreases |log|
  {
    i := |log|;
    if log != [] && (log[|log| - 1] == Passed || log[|log| - 1] == Refused) {
      var n := |log| - 1;
      i := PassesAreConsecutive(log[..n]);
      assert log[i..][..n - i] == log[..n][i..];
    }
  }

  /** A tripped breaker that is closed later, without a reset, has closed on half_open_max
      consecutive successes. */
  lemma {:induction false} ClosingNeedsSuccesses(c: Config, log: seq<Entry>, k: nat) returns (j: nat, i: nat)
    requires k <= |log| && Tripped(c, log[..k]) && !Tripped(c, log) && NoResetSince(log, k)
    ensures k < j <= |log| && i <= j && !Tripped(c, log[..j])
    ensures forall n :: i <= n < j ==> log[n] == Passed || log[n] == Refused
    ensures CountPassed(log[i..j]) >= AtLeastOne(c.halfOpenMax)
    decreases |log|
  {
    var n := |log| - 1;
    assert log[..|log|] == log;
    if !Tripped(c, log[..n]) {
      assert log[..n][..k] == log[..k];
      j, i := ClosingNeedsSuccesses(c, log[..n], k);
      assert log[..n][..j] == log[..j] && log[..n][i..j] == log[i..j];
    } else {
      j := |log|;
      i := PassesAreConsecutive(log);
      assert log[i..j] == log[i..];
    }
  }

  /** One failure while tripped reopens: until recovery_timeout_s has passed since then, every
      call is refused. */
  lemma FailureReopens(c: Config, log: seq<Entry>, at: real, now: real)
    requires Tripped(c, log)
    ensures Refuses(c, log + [Failed(at)], now) <==> now - at < c.recoveryTimeout
  {
    Snoc(c, log, Failed(at));
  }

  /** It takes failure_threshold failures in a row, since the last success or reset, to trip; one,
      if the threshold is less. */
  lemma TrippingNeedsFailures(c: Config, log: seq<Entry>, e: Entry)
    requires !Tripped(c, log)
    ensures Tripped(c, log + [e]) <==> e.Failed? && (TrailingFailures(log) + 1 >= c.failureThreshold || c.failureThreshold <= 1)
  {
    Snoc(c, log, e);
  }

  /** A success while tripped closes exactly if it is half_open_max in a row, or one if that is
      less; a refused call changes nothing, and a reset closes. */
  lemma OneStepFromTripped(c: Config, log: seq<Entry>)
    requires Tripped(c, log)
    ensures Tripped(c, log + [Passed]) <==> TrailingPasses(log) + 1 < c.halfOpenMax
    ensures Tripped(c, log + [Refused]) && !Tripped(c, log + [Reset])
    ensures forall at :: Tripped(c, log + [Failed(at)])
  {
    Snoc(c, log, Passed);
    Snoc(c, log, Refused);
    Snoc(c, log, Reset);
    forall at ensures Tripped(c, log + [Failed(at)]) {
      Snoc(c, log, Failed(at));
    }
  }

  function CountFailed(log: seq<Entry>): nat
    decreases |log|
  {
    if log == [] then 0 else CountFailed(log[..|log| - 1]) + if log[|log| - 1].Failed? then 1 else 0
  }

  /** The trailing failures are those since the last success or reset. */
  lemma {:induction false} FailuresSince(log: seq<Entry>) returns (i: nat)
    ensures i <= |log| && (forall k :: i <= k < |log| ==> log[k].Failed? || log[k] == Refused)
    ensures i > 0 ==> log[i - 1] == Passed || log[i - 1] == Reset
    ensures TrailingFailures(log) == CountFailed(log[i..])
    decreases |log|
  {
    i := |log|;
    if log != [] && (log[|log| - 1].Failed? || log[|log| - 1] == Refused) {
      var n := |log| - 1;
      i := FailuresSince(log[..n]);
      assert log[i..][..n - i] == log[..n][i..];
    }
  }

  /** And the trailing successes are those since the last failure or reset. */
  lemma {:induction false} PassesSince(log: seq<Entry>) returns (i: nat)
    ensures i <= |log| && (forall k :: i <= k < |log| ==> log[k] == Passed || log[k] == Refused)
    ensures i > 0 ==> log[i - 1].Failed? || log[i - 1] == Reset
    ensures TrailingPasses(log) == CountPassed(log[i..])
    decreases |log|
  {
    i := |log|;
    if log != [] && (log[|log| - 1] == Passed || log[|log| - 1] == Refused) {
      var n := |log| - 1;
      i := PassesSince(log[..n]);
      assert log[i..][..n - i] == log[..n][i..];
    }
  }

  /** The remembered time is that of the last failure. */
  lemma {:induction false} LastFailureIs(log: seq<Entry>, i: nat)
    requires i < |log| && log[i].Failed? && forall k :: i < k < |log| ==> !log[k].Failed?
    ensures LastFailure(log) == log[i].at
    decreases |log|
  {
    if i < |log| - 1 {
      LastFailureIs(log[..|log| - 1], i);
    }
  }

  /** A tripped breaker lets test calls through once the timeout has passed, and goes on letting
      them through while they succeed; a closed one refuses nothing. */
  lemma TestCallsPass(c: Config, log: seq<Entry>, now: real, later: real)
    ensures !Tripped(c, log) ==> !Refuses(c, log, now)
    ensures Tripped(c, log) && now - LastFailure(log) >= c.recoveryTimeout ==> !Refuses(c, log, now)
    ensures !Refuses(c, log, now) ==> !Refuses(c, log + [Passed], later)
  {
    Snoc(c, log, Passed);
  }
}
