/** RateLimiter of backend/app/ratelimit.py: a sliding window over the accepted attempts of
    each key. */
module RateLimit {
  import opened SlidingWindow
  import opened Subsequences

  function Within(now: real, window: real): real -> bool {
    (t: real) => now - t < window
  }

  /** Whether an attempt is accepted, judged by all attempts accepted since the last clear. */
  predicate Allowed(accepted: seq<real>, now: real, maxAttempts: nat, window: real) {
    |Filter(Within(now, window), accepted)| < maxAttempts
  }

  /** The places of the attempts still in the window. */
  function Recent(accepted: seq<real>, now: real, window: real): set<nat> {
    set i: nat | i < |accepted| && now - accepted[i] < window
  }

  lemma {:induction false} FilterCounts(accepted: seq<real>, now: real, window: real)
    ensures |Filter(Within(now, window), accepted)| == |Recent(accepted, now, window)|
    decreases |accepted|
  {
    if accepted != [] {
      var n := |accepted| - 1;
      FilterCounts(accepted[..n], now, window);
      assert Recent(accepted, now, window) == Recent(accepted[..n], now, window) + if now - accepted[n] < window then {n} else {};
    }
  }

  /** An attempt is accepted exactly if fewer than max_attempts of those accepted are younger than
      the window; one exactly as old as the window no longer counts. */
  lemma AllowedExactly(accepted: seq<real>, now: real, maxAttempts: nat, window: real)
    ensures Allowed(accepted, now, maxAttempts, window) <==> |Recent(accepted, now, window)| < maxAttempts
  {
    hide Filter, Recent;
    FilterCounts(accepted, now, window);
  }

  /** From now on the stored list answers every question as the whole history would. */
  ghost predicate SameView(stored: seq<real>, accepted: seq<real>, last: real, window: real) {
    forall now: real :: now >= last ==> Filter(Within(now, window), stored) == Filter(Within(now, window), accepted)
  }

  /** maxAttempts + 1 acceptances never fit in less than the window. */
  ghost predicate Spaced(accepted: seq<real>, maxAttempts: nat, window: real) {
    forall i: nat :: i + maxAttempts < |accepted| ==> accepted[i + maxAttempts] - accepted[i] >= window
  }

  ghost predicate UpTo(accepted: seq<real>, last: real) {
    Sorted(accepted) && forall i :: 0 <= i < |accepted| ==> accepted[i] <= last
  }

  ghost predicate KeyInv(stored: seq<real>, accepted: seq<real>, last: real, maxAttempts: nat, window: real) {
    SameView(stored, accepted, last, window) && Spaced(accepted, maxAttempts, window) && UpTo(accepted, last)
  }

  lemma {:induction false} FilterAtLeast(p: real -> bool, s: seq<real>, g: nat)
    requires g <= |s| && forall i :: g <= i < |s| ==> p(s[i])
    ensures |Filter(p, s)| >= |s| - g
    decreases |s|
  {
    if |s| > g {
      FilterAtLeast(p, s[..|s| - 1], g);
    }
  }

  /** Forgetting what has left the window changes nothing from now on. */
  lemma ForgetKeepsView(stored: seq<real>, accepted: seq<real>, last: real, now: real, window: real)
    requires SameView(stored, accepted, last, window) && now >= last
    ensures SameView(Filter(Within(now, window), stored), accepted, now, window)
    ensures Filter(Within(now, window), stored) == Filter(Within(now, window), accepted)
  {
    hide Filter;
    forall later: real | later >= now
      ensures Filter(Within(later, window), Filter(Within(now, window), stored)) == Filter(Within(later, window), accepted)
    {
      FilterTwice(Within(later, window), Within(now, window), stored);
    }
  }

  lemma AppendKeepsView(stored: seq<real>, accepted: seq<real>, now: real, window: real)
    requires SameView(stored, accepted, now, window)
    ensures SameView(stored + [now], accepted + [now], now, window)
  {
    hide Filter;
    forall later: real | later >= now
      ensures Filter(Within(later, window), stored + [now]) == Filter(Within(later, window), accepted + [now])
    {
      FilterSnoc(Within(later, window), stored, now);
      FilterSnoc(Within(later, window), accepted, now);
    }
  }

  lemma AcceptKeepsSpacing(accepted: seq<real>, now: real, maxAttempts: nat, window: real)
    requires Spaced(accepted, maxAttempts, window) && UpTo(accepted, now)
    requires Allowed(accepted, now, maxAttempts, window)
    ensures Spaced(accepted + [now], maxAttempts, window)
  {
    hide Filter;
    var g := |accepted| - maxAttempts;
    if g >= 0 && now - accepted[g] < window {
      FilterAtLeast(Within(now, window), accepted, g);
    }
  }

  /** No half-open window of length window_s ever holds more than max_attempts acceptances. */
  lemma NeverMoreThanMax(accepted: seq<real>, maxAttempts: nat, window: real, from: real)
    requires Spaced(accepted, maxAttempts, window) && Sorted(accepted)
    ensures CountIn(accepted, from, from + window) <= maxAttempts
  {
    var i := WindowIsRun(accepted, from, from + window);
    assert i + maxAttempts < |accepted| ==> accepted[i + maxAttempts] - accepted[i] >= window;
  }

  function Get(m: map<string, seq<real>>, key: string): seq<real> {
    if key in m then m[key] else []
  }

  class RateLimiter {
    const maxAttempts: nat
    const window: real
    var attempts: map<string, seq<real>>
    /** All attempts accepted since the key was last cleared, and the last clock reading. */
    ghost var accepted: map<string, seq<real>>
    ghost var last: real

    ghost predicate Valid()
      reads this
    {
      forall key :: KeyInv(Get(attempts, key), Get(accepted, key), last, maxAttempts, window)
    }

    constructor (maxAttempts: nat, window: real)
      ensures Valid() && this.maxAttempts == maxAttempts && this.window == window && accepted == map[]
    {
      this.maxAttempts, this.window := maxAttempts, window;
      attempts, accepted, last := map[], map[], 0.0;
    }

    /** An attempt is accepted exactly if the whole history allows it, and only an accepted one
        is recorded. */
    method Check(key: string, now: real) returns (ok: bool)
      requires Valid() && now >= last
      modifies this
      ensures Valid() && last == now
      ensures ok <==> Allowed(Get(old(accepted), key), now, maxAttempts, window)
      ensures accepted == if ok then old(accepted)[key := Get(old(accepted), key) + [now]] else old(accepted)
    {
      hide SameView, Spaced, Filter;
      ghost var old' := Get(attempts, key);
      Later(now);
      var kept := KeepRecent(Get(attempts, key), now, window);
      ForgetKeepsView(old', Get(accepted, key), last, now, window);
      attempts := attempts[key := kept];
      last := now;
      if |attempts[key]| >= maxAttempts {
        return false;
      }
      AppendKeepsView(kept, Get(accepted, key), now, window);
      AcceptKeepsSpacing(Get(accepted, key), now, maxAttempts, window);
      attempts := attempts[key := attempts[key] + [now]];
      accepted := accepted[key := Get(accepted, key) + [now]];
      forall k ensures KeyInv(Get(attempts, k), Get(accepted, k), last, maxAttempts, window) {
        if k != key {
          assert KeyInv(Get(old(attempts), k), Get(old(accepted), k), last, maxAttempts, window);
        }
      }
      return true;
    }

    /** The invariant of every key survives the passing of time. */
    lemma Later(now: real)
      requires Valid() && now >= last
      ensures forall key :: KeyInv(Get(attempts, key), Get(accepted, key), now, maxAttempts, window)
    {
      hide Filter, Spaced;
      forall key ensures KeyInv(Get(attempts, key), Get(accepted, key), now, maxAttempts, window) {
        assert KeyInv(Get(attempts, key), Get(accepted, key), last, maxAttempts, window);
      }
    }

    /** At any moment, no half-open window holds more than max_attempts of a key's acceptances. */
    lemma WindowsAreBounded(key: string, from: real)
      requires Valid()
      ensures CountIn(Get(accepted, key), from, from + window) <= maxAttempts
    {
      assert KeyInv(Get(attempts, key), Get(accepted, key), last, maxAttempts, window);
      NeverMoreThanMax(Get(accepted, key), maxAttempts, window, from);
    }

    method Clear(key: string)
      requires Valid()
      modifies this
      ensures Valid() && accepted == old(accepted) - {key} && last == old(last)
    {
      attempts := attempts - {key};
      accepted := accepted - {key};
      forall k ensures KeyInv(Get(attempts, k), Get(accepted, k), last, maxAttempts, window) {
        assert KeyInv(Get(old(attempts), k), Get(old(accepted), k), last, maxAttempts, window);
      }
    }
  }

  method KeepRecent(attempts: seq<real>, now: real, window: real) returns (kept: seq<real>)
    ensures kept == Filter(Within(now, window), attempts)
  {
    hide Filter;
    kept := [];
    FilterEmpty(Within(now, window));
    for i := 0 to |attempts|
      invariant kept == Filter(Within(now, window), attempts[..i])
    {
      FilterSnoc(Within(now, window), attempts[..i], attempts[i]);
      assert attempts[..i + 1] == attempts[..i] + [attempts[i]];
      if now - attempts[i] < window {
        kept := kept + [attempts[i]];
      }
    }
    assert attempts[..|attempts|] == attempts;
  }

  lemma FilterEmpty(p: real -> bool)
    ensures Filter(p, []) == []
  {}
}
