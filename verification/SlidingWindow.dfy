/** Counting in a nondecreasing sequence of times. */
module SlidingWindow {

  ghost predicate Sorted(h: seq<real>) {
    forall i, k :: 0 <= i < k < |h| ==> h[i] <= h[k]
  }

  /** How many times lie in [lo, hi). */
  function CountIn(h: seq<real>, lo: real, hi: real): (n: nat)
    ensures n <= |h|
    decreases |h|
  {
    if h == [] then 0
    else CountIn(h[..|h| - 1], lo, hi) + if lo <= h[|h| - 1] < hi then 1 else 0
  }

  /** How many times are `lo` or later. */
  function CountSince(h: seq<real>, lo: real): (n: nat)
    ensures n <= |h|
    decreases |h|
  {
    if h == [] then 0
    else CountSince(h[..|h| - 1], lo) + if h[|h| - 1] >= lo then 1 else 0
  }

  /** In a sorted history the late times are a suffix. */
  lemma {:induction false} SuffixCount(h: seq<real>, lo: real, g: nat)
    requires g <= |h|
    requires forall i :: 0 <= i < g ==> h[i] < lo
    requires forall i :: g <= i < |h| ==> h[i] >= lo
    ensures CountSince(h, lo) == |h| - g
    decreases |h|
  {
    if h != [] {
      SuffixCount(h[..|h| - 1], lo, if g < |h| then g else |h| - 1);
    }
  }

  /** If all times from g on are late, at least those count. */
  lemma {:induction false} SuffixAtLeast(h: seq<real>, lo: real, g: nat)
    requires g <= |h| && forall i :: g <= i < |h| ==> h[i] >= lo
    ensures CountSince(h, lo) >= |h| - g
    decreases |h|
  {
    if |h| > g {
      SuffixAtLeast(h[..|h| - 1], lo, g);
    }
  }

  /** Dropping n times from the front loses at most those that are late. */
  lemma {:induction false} DropFront(h: seq<real>, lo: real, g: nat)
    requires g <= |h|
    ensures CountSince(h[g..], lo) <= CountSince(h, lo)
    ensures (forall i :: 0 <= i < g ==> h[i] < lo) ==> CountSince(h[g..], lo) == CountSince(h, lo)
    decreases |h|
  {
    if |h| > g {
      DropFront(h[..|h| - 1], lo, g);
      assert h[g..][..|h| - g - 1] == h[..|h| - 1][g..];
    } else {
      assert h[g..] == [];
      if forall i :: 0 <= i < g ==> h[i] < lo {
        SuffixCount(h, lo, g);
      }
    }
  }

  /** In a sorted sequence the times of a window are consecutive. */
  lemma {:induction false} WindowIsRun(h: seq<real>, lo: real, hi: real) returns (i: nat)
    requires Sorted(h)
    ensures i + CountIn(h, lo, hi) <= |h|
    ensures forall k :: i <= k < i + CountIn(h, lo, hi) ==> lo <= h[k] < hi
    ensures CountIn(h, lo, hi) > 0 && i + CountIn(h, lo, hi) < |h| ==> h[i + CountIn(h, lo, hi)] >= hi
    decreases |h|
  {
    i := 0;
    if h != [] {
      var h' := h[..|h| - 1];
      i := WindowIsRun(h', lo, hi);
      if CountIn(h', lo, hi) == 0 && lo <= h[|h| - 1] < hi {
        i := |h| - 1;
      }
    }
  }
}
