/** Left folds: the shape of both checksum loops, CRC-32 over the state file and FNV-1a
    over the model parameters. */
module Folds {

  function Fold<A, B>(f: (A, B) -> A, a: A, bs: seq<B>): A
    decreases |bs|
  {
    if bs == [] then a else Fold(f, f(a, bs[0]), bs[1..])
  }

  lemma {:induction false} FoldConcat<A, B>(f: (A, B) -> A, a: A, s: seq<B>, t: seq<B>)
    ensures Fold(f, a, s + t) == Fold(f, Fold(f, a, s), t)
    decreases |s|
  {
    if s == [] {
      assert s + t == t;
    } else {
      assert (s + t)[1..] == s[1..] + t;
      FoldConcat(f, f(a, s[0]), s[1..], t);
    }
  }

  lemma FoldSnoc<A, B>(f: (A, B) -> A, a: A, s: seq<B>, b: B)
    ensures Fold(f, a, s + [b]) == f(Fold(f, a, s), b)
  {
    FoldConcat(f, a, s, [b]);
    assert Fold(f, Fold(f, a, s), [b]) == f(Fold(f, a, s), b);
  }

  /** Distinct accumulators stay distinct under the same element. */
  ghost predicate KeepsStates<A(!new), B(!new)>(f: (A, B) -> A) {
    forall a, a', b :: f(a, b) == f(a', b) ==> a == a'
  }

  /** Distinct elements lead one accumulator to distinct accumulators. */
  ghost predicate KeepsElements<A(!new), B(!new)>(f: (A, B) -> A) {
    forall a, b, b' :: f(a, b) == f(a, b') ==> b == b'
  }

  lemma {:induction false} FoldKeepsStates<A(!new), B(!new)>(f: (A, B) -> A, a: A, a': A, bs: seq<B>)
    requires KeepsStates(f)
    requires Fold(f, a, bs) == Fold(f, a', bs)
    ensures a == a'
    decreases |bs|
  {
    if bs != [] {
      FoldKeepsStates(f, f(a, bs[0]), f(a', bs[0]), bs[1..]);
    }
  }

  /** One changed element always changes the result. */
  lemma OneChangeShows<A(!new), B(!new)>(f: (A, B) -> A, a: A, s: seq<B>, x: B, y: B, t: seq<B>)
    requires KeepsStates(f) && KeepsElements(f)
    requires Fold(f, a, s + [x] + t) == Fold(f, a, s + [y] + t)
    ensures x == y
  {
    FoldConcat(f, a, s + [x], t);
    FoldConcat(f, a, s + [y], t);
    FoldKeepsStates(f, Fold(f, a, s + [x]), Fold(f, a, s + [y]), t);
    FoldSnoc(f, a, s, x);
    FoldSnoc(f, a, s, y);
  }

  function FlatMap<A, B>(h: A -> seq<B>, s: seq<A>): seq<B>
    decreases |s|
  {
    if s == [] then [] else h(s[0]) + FlatMap(h, s[1..])
  }

  /** If one step of f is a fold of g, a fold of f is a fold of g over the pieces. */
  lemma {:induction false} FoldRefines<A(!new), B(!new), C(!new)>(
    f: (A, B) -> A, g: (A, C) -> A, h: B -> seq<C>, a: A, s: seq<B>)
    requires forall x, b :: f(x, b) == Fold(g, x, h(b))
    ensures Fold(f, a, s) == Fold(g, a, FlatMap(h, s))
    decreases |s|
  {
    if s != [] {
      FoldConcat(g, a, h(s[0]), FlatMap(h, s[1..]));
      FoldRefines(f, g, h, f(a, s[0]), s[1..]);
    }
  }

  // ---- Repeated application ----

  function Iterate<A>(f: A -> A, n: nat, a: A): A
    decreases n
  {
    if n == 0 then a else Iterate(f, n - 1, f(a))
  }

  /** n readings of `bit`, moving on with `next` after each. */
  function Unfold<A, B>(bit: A -> B, next: A -> A, n: nat, a: A): seq<B>
    decreases n
  {
    if n == 0 then [] else [bit(a)] + Unfold(bit, next, n - 1, next(a))
  }

  lemma {:induction false} IterateAdd<A>(f: A -> A, m: nat, n: nat, a: A)
    ensures Iterate(f, m + n, a) == Iterate(f, n, Iterate(f, m, a))
    decreases m
  {
    if m > 0 {
      IterateAdd(f, m - 1, n, f(a));
    }
  }

  lemma {:induction false} IterateInjective<A(!new)>(f: A -> A, n: nat, a: A, a': A)
    requires forall x, y :: f(x) == f(y) ==> x == y
    requires Iterate(f, n, a) == Iterate(f, n, a')
    ensures a == a'
    decreases n
  {
    if n > 0 {
      IterateInjective(f, n - 1, f(a), f(a'));
    }
  }

  lemma {:induction false} IterateHomomorphic<A(!new)>(f: A -> A, op: (A, A) -> A, n: nat, a: A, a': A)
    requires forall x, y :: f(op(x, y)) == op(f(x), f(y))
    ensures Iterate(f, n, op(a, a')) == op(Iterate(f, n, a), Iterate(f, n, a'))
    decreases n
  {
    if n > 0 {
      IterateHomomorphic(f, op, n - 1, f(a), f(a'));
    }
  }

  /** Steps that consume one reading of w each are a fold over those readings. */
  lemma {:induction false} IterateAbsorbs<A(!new), B>(
    f: A -> A, g: (A, B) -> A, op: (A, A) -> A, bit: A -> B, next: A -> A, n: nat, a: A, w: A)
    requires forall x, y :: f(op(x, y)) == op(g(x, bit(y)), next(y))
    ensures Iterate(f, n, op(a, w)) == op(Fold(g, a, Unfold(bit, next, n, w)), Iterate(next, n, w))
    decreases n
  {
    if n > 0 {
      assert Unfold(bit, next, n, w)[1..] == Unfold(bit, next, n - 1, next(w));
      IterateAbsorbs(f, g, op, bit, next, n - 1, g(a, bit(w)), next(w));
    }
  }

  lemma IterateFour<A>(f: A -> A, n: nat, a: A)
    ensures Iterate(f, n + 4, a) == Iterate(f, n, f(f(f(f(a)))))
  {
    assert Iterate(f, n + 4, a) == Iterate(f, n + 2, f(f(a)));
    assert Iterate(f, n + 2, f(f(a))) == Iterate(f, n, f(f(f(f(a)))));
  }

  lemma IterateEight<A>(f: A -> A, a: A)
    ensures Iterate(f, 8, a) == f(f(f(f(f(f(f(f(a))))))))
  {
    IterateFour(f, 4, a);
    IterateFour(f, 0, f(f(f(f(a)))));
  }
}
