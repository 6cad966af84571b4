/** Repeating a step, and folding a step over a list. */
module Folds {
  function Iterate<S>(step: S -> S, n: nat, start: S): S
    decreases n, start
  {
    if n == 0 then start else step(Iterate(step, n - 1, start))
  }

  function Fold<S, X>(step: (S, X) -> S, start: S, list: seq<X>): S {
    if list == [] then start
    else step(Fold(step, start, list[..|list| - 1]), list[|list| - 1])
  }

  ghost predicate Distributes<S(!new)>(step: S -> S, op: (S, S) -> S) {
    forall x, y :: step(op(x, y)) == op(step(x), step(y))
  }

  ghost predicate TestsApart<S(!new)>(test: S -> bool, op: (S, S) -> S) {
    forall x, y :: test(op(x, y)) == (test(x) != test(y))
  }

  ghost predicate Injective<S(!new), T(!new)>(step: S -> T) {
    forall x, y :: step(x) == step(y) ==> x == y
  }

  ghost predicate InjectiveInState<S(!new), X(!new)>(step: (S, X) -> S) {
    forall s, t, x :: step(s, x) == step(t, x) ==> s == t
  }

  lemma {:induction false} IterateShift<S>(step: S -> S, n: nat, start: S)
    ensures Iterate(step, n + 1, start) == Iterate(step, n, step(start))
  {
    if n > 0 {
      IterateShift(step, n - 1, start);
    }
  }

  lemma {:induction false} IterateIsInjective<S(!new)>(step: S -> S, n: nat, a: S, b: S)
    requires Injective(step)
    requires Iterate(step, n, a) == Iterate(step, n, b)
    ensures a == b
  {
    if n > 0 {
      IterateIsInjective(step, n - 1, a, b);
    }
  }

  lemma {:induction false} IterateDistributes<S(!new)>(step: S -> S, op: (S, S) -> S, n: nat, a: S, b: S)
    requires Distributes(step, op)
    ensures Iterate(step, n, op(a, b)) == op(Iterate(step, n, a), Iterate(step, n, b))
  {
    if n > 0 {
      IterateDistributes(step, op, n - 1, a, b);
    }
  }

  lemma FoldSnoc<S, X>(step: (S, X) -> S, start: S, list: seq<X>, last: X)
    ensures Fold(step, start, list + [last]) == step(Fold(step, start, list), last)
  {
    assert (list + [last])[..|list|] == list;
  }

  lemma {:induction false} FoldAppend<S, X>(step: (S, X) -> S, start: S, a: seq<X>, b: seq<X>)
    ensures Fold(step, start, a + b) == Fold(step, Fold(step, start, a), b)
    decreases |b|
  {
    if b == [] {
      assert a + b == a;
    } else {
      assert (a + b)[..|a + b| - 1] == a + b[..|b| - 1];
      FoldAppend(step, start, a, b[..|b| - 1]);
    }
  }

  lemma {:induction false} FoldIsInjective<S(!new), X(!new)>(step: (S, X) -> S, a: S, b: S, list: seq<X>)
    requires InjectiveInState(step)
    requires Fold(step, a, list) == Fold(step, b, list)
    ensures a == b
  {
    if list != [] {
      FoldIsInjective(step, a, b, list[..|list| - 1]);
    }
  }

  /** Whether an odd number of the first `n` states along the way pass the test. */
  predicate OddAlong<S>(step: S -> S, test: S -> bool, n: nat, start: S)
    decreases n, start
  {
    n > 0 && OddAlong(step, test, n - 1, step(start)) != test(start)
  }

  lemma {:induction false} OddAlongDistributes<S(!new)>(
      step: S -> S, test: S -> bool, op: (S, S) -> S, n: nat, a: S, b: S)
    requires Distributes(step, op) && TestsApart(test, op)
    ensures OddAlong(step, test, n, op(a, b)) == (OddAlong(step, test, n, a) != OddAlong(step, test, n, b))
  {
    if n > 0 {
      OddAlongDistributes(step, test, op, n - 1, step(a), step(b));
    }
  }

  lemma {:induction false} OddAlongLast<S>(step: S -> S, test: S -> bool, n: nat, start: S)
    ensures OddAlong(step, test, n + 1, start) == (OddAlong(step, test, n, start) != test(Iterate(step, n, start)))
  {
    if n > 0 {
      OddAlongLast(step, test, n - 1, step(start));
      IterateShift(step, n - 1, start);
    }
  }

  /** None of the next `n` states is `target`. */
  predicate Avoids<S(==)>(step: S -> S, target: S, n: nat, start: S)
    decreases n, start
  {
    n == 0 || (step(start) != target && Avoids(step, target, n - 1, step(start)))
  }

  lemma {:induction false} AvoidsAll<S>(step: S -> S, target: S, n: nat, start: S, k: nat)
    requires Avoids(step, target, n, start) && 1 <= k <= n
    ensures Iterate(step, k, start) != target
  {
    if k > 1 {
      AvoidsAll(step, target, n - 1, step(start), k - 1);
    }
    IterateShift(step, k - 1, start);
  }
}
