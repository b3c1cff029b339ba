/** Subsequences and filters of histories, built from the right as histories grow. */
module Subsequences {

  /** a can be obtained from b by deleting elements. */
  ghost predicate Subseq<T(!new)>(a: seq<T>, b: seq<T>)
    decreases |b|
  {
    || a == []
    || (b != [] && Subseq(a, b[..|b| - 1]))
    || (b != [] && a[|a| - 1] == b[|b| - 1] && Subseq(a[..|a| - 1], b[..|b| - 1]))
  }

  lemma SubseqEmpty<T(!new)>(b: seq<T>)
    ensures Subseq([], b)
  {}

  lemma SubseqSkip<T(!new)>(a: seq<T>, b: seq<T>, x: T)
    requires Subseq(a, b)
    ensures Subseq(a, b + [x])
  {
    assert (b + [x])[..|b|] == b;
  }

  lemma SubseqTake<T(!new)>(a: seq<T>, b: seq<T>, x: T)
    requires Subseq(a, b)
    ensures Subseq(a + [x], b + [x])
  {
    assert (a + [x])[..|a|] == a && (b + [x])[..|b|] == b;
  }

  lemma {:induction false} SubseqOfPrefix<T(!new)>(a: seq<T>, b: seq<T>, c: seq<T>)
    requires Subseq(a, b)
    ensures Subseq(a, b + c)
    decreases |c|
  {
    if c == [] {
      assert b + c == b;
    } else {
      SubseqOfPrefix(a, b, c[..|c| - 1]);
      SubseqSkip(a, b + c[..|c| - 1], c[|c| - 1]);
      assert b + c == b + c[..|c| - 1] + [c[|c| - 1]];
    }
  }

  lemma {:induction false} SubseqDropLast<T(!new)>(a: seq<T>, b: seq<T>)
    requires a != [] && Subseq(a, b)
    ensures Subseq(a[..|a| - 1], b)
    decreases |b|
  {
    if Subseq(a, b[..|b| - 1]) {
      SubseqDropLast(a, b[..|b| - 1]);
    }
    if Subseq(a[..|a| - 1], b[..|b| - 1]) {
      SubseqSkip(a[..|a| - 1], b[..|b| - 1], b[|b| - 1]);
      assert b == b[..|b| - 1] + [b[|b| - 1]];
    }
  }

  function Filter<T>(p: T -> bool, s: seq<T>): seq<T>
    decreases |s|
  {
    if s == [] then []
    else Filter(p, s[..|s| - 1]) + (if p(s[|s| - 1]) then [s[|s| - 1]] else [])
  }

  lemma FilterSnoc<T>(p: T -> bool, s: seq<T>, x: T)
    ensures Filter(p, s + [x]) == Filter(p, s) + (if p(x) then [x] else [])
  {
    assert (s + [x])[..|s|] == s;
  }

  lemma {:induction false} FilterSubseq<T(!new)>(p: T -> bool, a: seq<T>, b: seq<T>)
    requires Subseq(a, b)
    ensures Subseq(Filter(p, a), Filter(p, b))
    decreases |b|
  {
    if a != [] {
      var b', y := b[..|b| - 1], b[|b| - 1];
      if Subseq(a, b') {
        FilterSubseq(p, a, b');
        SubseqSkip(Filter(p, a), Filter(p, b'), y);
      } else {
        var a' := a[..|a| - 1];
        FilterSubseq(p, a', b');
        SubseqTake(Filter(p, a'), Filter(p, b'), y);
        if !p(y) {
          assert Filter(p, a) == Filter(p, a') && Filter(p, b) == Filter(p, b');
        }
      }
      if !p(y) {
        assert Filter(p, b) == Filter(p, b');
      }
    }
  }

  lemma {:induction false} SubseqShorter<T(!new)>(a: seq<T>, b: seq<T>)
    requires Subseq(a, b)
    ensures |a| <= |b|
    decreases |b|
  {
    if a != [] {
      if Subseq(a, b[..|b| - 1]) {
        SubseqShorter(a, b[..|b| - 1]);
      } else {
        SubseqShorter(a[..|a| - 1], b[..|b| - 1]);
      }
    }
  }

  /** A subsequence that drops nothing is the whole sequence. */
  lemma {:induction false} SubseqFull<T(!new)>(a: seq<T>, b: seq<T>)
    requires Subseq(a, b) && |a| == |b|
    ensures a == b
    decreases |b|
  {
    if a != [] {
      if Subseq(a, b[..|b| - 1]) {
        SubseqShorter(a, b[..|b| - 1]);
      } else {
        SubseqFull(a[..|a| - 1], b[..|b| - 1]);
        assert a == a[..|a| - 1] + [a[|a| - 1]] && b == b[..|b| - 1] + [b[|b| - 1]];
      }
    }
  }

  lemma {:induction false} SubseqElement<T(!new)>(a: seq<T>, b: seq<T>, x: T)
    requires Subseq(a, b) && x in a
    ensures x in b
    decreases |b|
  {
    var b' := b[..|b| - 1];
    if Subseq(a, b') {
      SubseqElement(a, b', x);
    } else if x != a[|a| - 1] {
      assert a == a[..|a| - 1] + [a[|a| - 1]];
      SubseqElement(a[..|a| - 1], b', x);
    }
  }

  lemma {:induction false} FilterElement<T(!new)>(p: T -> bool, s: seq<T>, x: T)
    ensures x in Filter(p, s) <==> x in s && p(x)
    decreases |s|
  {
    if s != [] {
      FilterElement(p, s[..|s| - 1], x);
      assert s == s[..|s| - 1] + [s[|s| - 1]];
    }
  }

  lemma {:induction false} FilterIsSubseq<T(!new)>(p: T -> bool, s: seq<T>)
    ensures Subseq(Filter(p, s), s)
    decreases |s|
  {
    if s != [] {
      var s', x := s[..|s| - 1], s[|s| - 1];
      FilterIsSubseq(p, s');
      assert s == s' + [x];
      if p(x) {
        SubseqTake(Filter(p, s'), s', x);
      } else {
        SubseqSkip(Filter(p, s'), s', x);
        assert Filter(p, s) == Filter(p, s');
      }
    }
  }

  lemma {:induction false} FilterConcat<T>(p: T -> bool, a: seq<T>, b: seq<T>)
    ensures Filter(p, a + b) == Filter(p, a) + Filter(p, b)
    decreases |b|
  {
    if b == [] {
      assert a + b == a;
    } else {
      assert (a + b)[..|a + b| - 1] == a + b[..|b| - 1];
      FilterConcat(p, a, b[..|b| - 1]);
    }
  }

  /** Filtering by q first changes nothing for the elements that satisfy both, and leaves
      nothing to p when the two exclude each other. */
  lemma {:induction false} FilterTwice<T>(p: T -> bool, q: T -> bool, s: seq<T>)
    ensures (forall k :: 0 <= k < |s| && p(s[k]) ==> q(s[k])) ==> Filter(p, Filter(q, s)) == Filter(p, s)
    ensures (forall k :: 0 <= k < |s| && p(s[k]) ==> !q(s[k])) ==> Filter(p, Filter(q, s)) == []
    decreases |s|
  {
    if s != [] {
      var s', x := s[..|s| - 1], s[|s| - 1];
      FilterTwice(p, q, s');
      if q(x) {
        FilterSnoc(p, Filter(q, s'), x);
      } else {
        assert Filter(q, s) == Filter(q, s');
      }
    }
  }
}
