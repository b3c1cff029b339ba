/** Runs of segment accumulation: the samples are cut into segments, each at the first sample
    that meets one of the five conditions. */
module SegmentRuns {
  import opened Segments

  // ---- Counts and sums ----

  /** The places of the samples with a property. */
  function Places(samples: seq<Sample>, p: Sample -> bool): set<nat> {
    set i: nat | i < |samples| && p(samples[i])
  }

  lemma {:induction false} CountsPlaces(samples: seq<Sample>, p: Sample -> bool)
    ensures Count(samples, p) == |Places(samples, p)|
    decreases |samples|
  {
    if samples != [] {
      var n := |samples| - 1;
      CountsPlaces(samples[..n], p);
      assert Places(samples, p) == Places(samples[..n], p) + if p(samples[n]) then {n} else {};
    }
  }

  /** A sum over two runs of samples, and over one. */
  lemma {:induction false} SumsAdd(a: seq<Sample>, b: seq<Sample>, f: Sample -> real)
    ensures Sum(a + b, f) == Sum(a, f) + Sum(b, f)
    ensures |b| == 1 ==> Sum(b, f) == f(b[0])
    decreases |b|
  {
    if b == [] {
      assert a + b == a;
    } else {
      assert (a + b)[..|a + b| - 1] == a + b[..|b| - 1];
      SumsAdd(a, b[..|b| - 1], f);
    }
  }

  // ---- Runs ----

  /** The segments so far, the samples since, and the two things remembered. */
  datatype Cuts = Cuts(segments: seq<seq<Sample>>, pending: seq<Sample>, lastFlush: Option<real>, lastKind: nat)

  /** What Update does with the samples of a run, one after the other. */
  function After(rules: FlushRules, samples: seq<Sample>): Cuts
    decreases |samples|
  {
    if samples == [] then Cuts([], [], None, UNKNOWN_TYPE)
    else
      var c, ev := After(rules, samples[..|samples| - 1]), samples[|samples| - 1];
      var all := c.pending + [ev];
      if Flushes(rules, all, c.lastFlush, c.lastKind) then Cuts(c.segments + [all], [], Some(ev.time), ev.kind)
      else Cuts(c.segments, all, if c.lastFlush.Some? then c.lastFlush else Some(ev.time), ev.kind)
  }

  /** The class's Update takes one such step. */
  lemma UpdateIsStep(rules: FlushRules, samples: seq<Sample>, ev: Sample)
    ensures var c, c' := After(rules, samples), After(rules, samples + [ev]);
      && (Flushes(rules, c.pending + [ev], c.lastFlush, c.lastKind) <==> |c'.segments| > |c.segments|)
      && c'.lastKind == ev.kind
      && (|c'.segments| > |c.segments| ==> c'.segments == c.segments + [c.pending + [ev]] && c'.pending == [] && c'.lastFlush == Some(ev.time))
      && |c.segments| <= |c'.segments|
      && (|c'.segments| == |c.segments| ==>
            && c'.segments == c.segments && c'.pending == c.pending + [ev]
            && c'.lastFlush == (if c.lastFlush.Some? then c.lastFlush else Some(ev.time)))
  {
    hide Flushes;
    assert (samples + [ev])[..|samples|] == samples;
  }

  function Flatten(segments: seq<seq<Sample>>): seq<Sample>
    decreases |segments|
  {
    if segments == [] then [] else Flatten(segments[..|segments| - 1]) + segments[|segments| - 1]
  }

  /** When the last segment ended, or the first sample came. */
  function LastCut(c: Cuts, samples: seq<Sample>): Option<real>
    requires c.segments != [] ==> c.segments[|c.segments| - 1] != []
  {
    if c.segments != [] then
      var s := c.segments[|c.segments| - 1];
      Some(s[|s| - 1].time)
    else if samples != [] then Some(samples[0].time)
    else None
  }

  function Most(rules: FlushRules): nat {
    if rules.flushN == 0 then 1 else rules.flushN
  }

  ghost predicate Partition(rules: FlushRules, c: Cuts, samples: seq<Sample>) {
    && Flatten(c.segments) + c.pending == samples
    && (forall k :: 0 <= k < |c.segments| ==> 1 <= |c.segments[k]| <= Most(rules))
    && |c.pending| < Most(rules)
    && c.lastFlush == LastCut(c, samples)
    && c.lastKind == (if samples == [] then 7 else samples[|samples| - 1].kind)
  }

  lemma FullIsFlushed(rules: FlushRules, all: seq<Sample>, lastFlush: Option<real>, lastKind: nat)
    requires all != [] && |all| >= Most(rules)
    ensures Flushes(rules, all, lastFlush, lastKind)
  {
    hide Sum;
  }

  lemma CutKeeps(rules: FlushRules, c: Cuts, c': Cuts, samples: seq<Sample>, ev: Sample)
    requires Partition(rules, c, samples)
    requires c' == Cuts(c.segments + [c.pending + [ev]], [], Some(ev.time), ev.kind)
    ensures Partition(rules, c', samples + [ev])
  {
    var all := c.pending + [ev];
    assert c'.segments[..|c.segments|] == c.segments;
    assert Flatten(c'.segments) == Flatten(c.segments) + all;
    assert Flatten(c.segments) + all == samples + [ev];
    assert all[|all| - 1] == ev;
  }

  lemma WaitKeeps(rules: FlushRules, c: Cuts, c': Cuts, samples: seq<Sample>, ev: Sample)
    requires Partition(rules, c, samples) && |c.pending| + 1 < Most(rules)
    requires c' == Cuts(c.segments, c.pending + [ev], if c.lastFlush.Some? then c.lastFlush else Some(ev.time), ev.kind)
    ensures Partition(rules, c', samples + [ev])
  {
    assert Flatten(c.segments) + (c.pending + [ev]) == samples + [ev];
    assert samples != [] ==> (samples + [ev])[0] == samples[0];
  }

  /** No sample is lost or counted twice: the segments and the pending samples together are the
      run, no segment is empty, and none has more than flush_n samples (or one, if that is 0).
      The remembered time is that of the last cut, or of the first sample; the remembered type
      that of the last sample. */
  lemma {:induction false} SegmentsPartition(rules: FlushRules, samples: seq<Sample>)
    ensures Partition(rules, After(rules, samples), samples)
    decreases |samples|
  {
    hide Sum, Partition, Flushes;
    if samples == [] {
      NothingCut(rules);
    } else {
      var before, ev := samples[..|samples| - 1], samples[|samples| - 1];
      SegmentsPartition(rules, before);
      assert before + [ev] == samples;
      var c, c' := After(rules, before), After(rules, samples);
      if Flushes(rules, c.pending + [ev], c.lastFlush, c.lastKind) {
        CutKeeps(rules, c, c', before, ev);
      } else {
        if |c.pending| + 1 >= Most(rules) {
          FullIsFlushed(rules, c.pending + [ev], c.lastFlush, c.lastKind);
        }
        WaitKeeps(rules, c, c', before, ev);
      }
    }
  }

  lemma NothingCut(rules: FlushRules)
    ensures Partition(rules, After(rules, []), [])
  {}

  /** A sample ends a segment exactly if it fills it up, raises its mean score above the limit,
      comes flush_t or more after the last cut, ends the session, or is of another type than the
      sample before it, as far as the rules ask for these. */
  lemma CutsExactly(rules: FlushRules, samples: seq<Sample>, ev: Sample)
    ensures var c, c' := After(rules, samples), After(rules, samples + [ev]);
      var n := |c.pending| + 1;
      && (c.segments != [] ==> c.segments[|c.segments| - 1] != [])
      && var cut := LastCut(c, samples);
      (|c'.segments| > |c.segments| <==>
        || n >= rules.flushN
        || (Sum(c.pending, Score()) + ev.score) / n as real > rules.flushAnomaly
        || (cut.Some? && ev.time - cut.value >= rules.flushT)
        || (rules.onSessionEnd && ev.sessionEnd)
        || (rules.onTypeChange && samples != [] && samples[|samples| - 1].kind != 7 && samples[|samples| - 1].kind != ev.kind))
  {
    hide Sum, After, LastCut;
    SegmentsPartition(rules, samples);
    UpdateIsStep(rules, samples, ev);
    var c := After(rules, samples);
    SumsAdd(c.pending, [ev], Score());
    assert (c.pending + [ev])[|c.pending|] == ev;
  }
}
