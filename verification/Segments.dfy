/** SegmentSSM's accumulation and flush (include/ids_level1.hpp:23-56, 93-108): what a flush
    reports is a summary of the samples since the previous one. */
module Segments {

  const EVENT_TYPES := 8
  const UNKNOWN_TYPE := 7

  datatype Option<T> = None | Some(value: T)

  /** One event as L1 sees it, with the output of the SSM step for it. */
  datatype Sample = Sample(score: real, rate: real, kind: nat, time: real, sessionEnd: bool, output: seq<real>)

  datatype FlushRules = FlushRules(flushN: nat, flushT: real, flushAnomaly: real, onSessionEnd: bool, onTypeChange: bool)

  datatype SegmentState = SegmentState(vector: seq<real>, trend: real, rateMean: real, errorFreq: real, dominant: nat)

  datatype Outcome = Threw | Quiet | Flushed(segment: SegmentState)

  // ---- Summaries of a sequence of samples ----

  function Sum(samples: seq<Sample>, f: Sample -> real): real
    decreases |samples|
  {
    if samples == [] then 0.0 else Sum(samples[..|samples| - 1], f) + f(samples[|samples| - 1])
  }

  function Count(samples: seq<Sample>, p: Sample -> bool): (n: nat)
    ensures n <= |samples|
    decreases |samples|
  {
    if samples == [] then 0 else Count(samples[..|samples| - 1], p) + if p(samples[|samples| - 1]) then 1 else 0
  }

  function Score(): Sample -> real { (x: Sample) => x.score }

  function Rate(): Sample -> real { (x: Sample) => x.rate }

  function IsError(): Sample -> bool { (x: Sample) => x.score > 0.5 }

  function OfKind(kind: nat): Sample -> bool { (x: Sample) => x.kind == kind }

  /** The kind with most samples, the smallest of them on a tie. */
  ghost predicate IsDominant(samples: seq<Sample>, dom: nat) {
    && dom < EVENT_TYPES
    && (forall k :: 0 <= k < EVENT_TYPES ==> Count(samples, OfKind(k)) <= Count(samples, OfKind(dom)))
    && (forall k :: 0 <= k < dom ==> Count(samples, OfKind(k)) < Count(samples, OfKind(dom)))
  }

  lemma {:induction false} SumOfScores(samples: seq<Sample>)
    requires forall k :: 0 <= k < |samples| ==> 0.0 <= samples[k].score <= 1.0
    ensures 0.0 <= Sum(samples, Score()) <= |samples| as real
    decreases |samples|
  {
    if samples != [] {
      SumOfScores(samples[..|samples| - 1]);
    }
  }

  // ---- When to flush ----

  /** The five conditions, on the samples since the last flush, the last one being new. */
  predicate Flushes(rules: FlushRules, samples: seq<Sample>, lastFlush: Option<real>, lastKind: nat)
    requires samples != []
  {
    var ev := samples[|samples| - 1];
    || |samples| >= rules.flushN
    || Sum(samples, Score()) / |samples| as real > rules.flushAnomaly
    || (lastFlush.Some? && ev.time - lastFlush.value >= rules.flushT)
    || (rules.onSessionEnd && ev.sessionEnd)
    || (rules.onTypeChange && lastKind != UNKNOWN_TYPE && ev.kind != lastKind)
  }

  ghost predicate Summarizes(s: SegmentState, samples: seq<Sample>)
    requires samples != []
  {
    var n := |samples| as real;
    && s.vector == samples[|samples| - 1].output
    && s.trend == Sum(samples, Score()) / n
    && s.rateMean == Sum(samples, Rate()) / n
    && s.errorFreq == Count(samples, IsError()) as real / n
    && IsDominant(samples, s.dominant)
  }

  class SegmentSSM {
    const rules: FlushRules
    var count: nat
    var scoreAcc: real
    var rateAcc: real
    var errorCount: nat
    var typeFreq: seq<nat>
    var lastFlush: Option<real>
    var lastKind: nat
    var segmentCount: nat
    ghost var pending: seq<Sample>

    /** The accumulators summarize the samples since the last flush. */
    ghost predicate Valid()
      reads this
    {
      && count == |pending|
      && scoreAcc == Sum(pending, Score())
      && rateAcc == Sum(pending, Rate())
      && errorCount == Count(pending, IsError())
      && |typeFreq| == EVENT_TYPES
      && forall k :: 0 <= k < EVENT_TYPES ==> typeFreq[k] == Count(pending, OfKind(k))
    }

    constructor (rules: FlushRules)
      ensures Valid() && pending == [] && this.rules == rules && lastFlush == None && lastKind == UNKNOWN_TYPE && segmentCount == 0
    {
      this.rules := rules;
      count, scoreAcc, rateAcc, errorCount := 0, 0.0, 0.0, 0;
      typeFreq := [0, 0, 0, 0, 0, 0, 0, 0];
      lastFlush, lastKind, segmentCount, pending := None, UNKNOWN_TYPE, 0, [];
    }

    /** A step that throws passes through and leaves the accumulators alone. Otherwise the event
        is taken in, and a flush happens exactly under the five conditions. */
    method Update(ev: Sample, stepThrows: bool) returns (out: Outcome)
      requires Valid() && ev.kind < EVENT_TYPES
      modifies this
      ensures Valid() && (out == Threw <==> stepThrows)
      ensures out == Threw ==> pending == old(pending) && lastFlush == old(lastFlush) && lastKind == old(lastKind)
                               && segmentCount == old(segmentCount)
      ensures out != Threw ==> lastKind == ev.kind
                               && (out.Flushed? <==> Flushes(rules, old(pending) + [ev], old(lastFlush), old(lastKind)))
      ensures out.Flushed? ==> Summarizes(out.segment, old(pending) + [ev]) && pending == [] && lastFlush == Some(ev.time)
                               && segmentCount == old(segmentCount) + 1
      ensures out == Quiet ==> pending == old(pending) + [ev] && segmentCount == old(segmentCount)
                               && lastFlush == (if old(lastFlush).Some? then old(lastFlush) else Some(ev.time))
    {
      hide IsDominant, Sum, Count;
      if stepThrows {
        return Threw;
      }
      Accumulate(ev);
      var byCount := count >= rules.flushN;
      var byAnomaly := count > 0 && scoreAcc / count as real > rules.flushAnomaly;
      var byTime := false;
      if lastFlush.Some? {
        byTime := ev.time - lastFlush.value >= rules.flushT;
      } else {
        lastFlush := Some(ev.time);
      }
      var bySessionEnd := rules.onSessionEnd && ev.sessionEnd;
      var byTypeChange := rules.onTypeChange && lastKind != UNKNOWN_TYPE && ev.kind != lastKind;
      lastKind := ev.kind;
      if byCount || byAnomaly || byTime || bySessionEnd || byTypeChange {
        var s := Flush(ev.output, ev.time);
        out := Flushed(s);
      } else {
        out := Quiet;
      }
    }

    method Accumulate(ev: Sample)
      requires Valid() && ev.kind < EVENT_TYPES
      modifies this
      ensures Valid() && pending == old(pending) + [ev]
      ensures lastFlush == old(lastFlush) && lastKind == old(lastKind) && segmentCount == old(segmentCount)
    {
      assert (pending + [ev])[..|pending|] == pending;
      count := count + 1;
      scoreAcc := scoreAcc + ev.score;
      rateAcc := rateAcc + ev.rate;
      typeFreq := typeFreq[ev.kind := typeFreq[ev.kind] + 1];
      if ev.score > 0.5 {
        errorCount := errorCount + 1;
      }
      pending := pending + [ev];
    }

    method Flush(output: seq<real>, now: real) returns (s: SegmentState)
      requires Valid() && pending != [] && output == pending[|pending| - 1].output
      modifies this
      ensures Valid() && pending == [] && Summarizes(s, old(pending)) && lastFlush == Some(now)
      ensures lastKind == old(lastKind) && segmentCount == old(segmentCount) + 1
    {
      var n := (if count > 1 then count else 1) as real;
      var dom := Dominant(typeFreq);
      s := SegmentState(output, scoreAcc / n, rateAcc / n, errorCount as real / n, dom);
      count, scoreAcc, rateAcc, errorCount := 0, 0.0, 0.0, 0;
      typeFreq := [0, 0, 0, 0, 0, 0, 0, 0];
      lastFlush, segmentCount, pending := Some(now), segmentCount + 1, [];
    }
  }

  method Dominant(freq: seq<nat>) returns (dom: nat)
    requires |freq| == EVENT_TYPES
    ensures dom < EVENT_TYPES && (forall k :: 0 <= k < EVENT_TYPES ==> freq[k] <= freq[dom])
    ensures forall k :: 0 <= k < dom ==> freq[k] < freq[dom]
  {
    var mx := 0;
    dom := 0;
    for i := 0 to EVENT_TYPES
      invariant (mx == 0 && dom == 0) || (dom < i && mx == freq[dom])
      invariant forall k :: 0 <= k < i ==> freq[k] <= mx
      invariant forall k :: 0 <= k < dom ==> freq[k] < freq[dom]
    {
      if freq[i] > mx {
        mx := freq[i];
        dom := i;
      }
    }
  }

  /** Scores in [0,1] give segments whose trend and error frequency are in [0,1], and an error
      frequency of at most twice the trend. */
  lemma TrendInUnitRange(s: SegmentState, samples: seq<Sample>)
    requires samples != [] && Summarizes(s, samples)
    requires forall k :: 0 <= k < |samples| ==> 0.0 <= samples[k].score <= 1.0
    ensures 0.0 <= s.trend <= 1.0 && 0.0 <= s.errorFreq <= 1.0 && s.errorFreq <= 2.0 * s.trend
  {
    hide IsDominant;
    SumOfScores(samples);
    ErrorsWeigh(samples);
    var n := |samples| as real;
    Quotient(Sum(samples, Score()), n);
    Quotient(Count(samples, IsError()) as real, n);
    QuotientOrder(Count(samples, IsError()) as real, Sum(samples, Score()), n);
  }

  lemma {:induction false} ErrorsWeigh(samples: seq<Sample>)
    requires forall k :: 0 <= k < |samples| ==> 0.0 <= samples[k].score <= 1.0
    ensures Count(samples, IsError()) as real <= 2.0 * Sum(samples, Score())
    decreases |samples|
  {
    if samples != [] {
      ErrorsWeigh(samples[..|samples| - 1]);
    }
  }

  lemma Quotient(x: real, n: real)
    requires 0.0 <= x <= n && n > 0.0
    ensures 0.0 <= x / n <= 1.0
  {}

  lemma QuotientOrder(x: real, y: real, n: real)
    requires x <= 2.0 * y && n > 0.0
    ensures x / n <= 2.0 * (y / n)
  {
    assert x / n - 2.0 * (y / n) == (x - 2.0 * y) / n;
  }
}
