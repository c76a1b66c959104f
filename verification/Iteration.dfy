/** Repeating a step, and folding a round over a sequence. */
module Iteration {

  ghost predicate Injective<A(!new), B>(f: A -> B) {
    forall a, b :: f(a) == f(b) ==> a == b
  }

  function Fold<S, A>(round: (S, A) -> S, h: S, s: seq<A>): S
    decreases |s|
  {
    if s == [] then h else Fold(round, round(h, s[0]), s[1..])
  }

  function Iterate<S>(step: S -> S, s: S, n: nat): S {
    if n == 0 then s else step(Iterate(step, s, n - 1))
  }

  /** A round that can be undone, and that tells inputs apart from any one accumulator. */
  ghost predicate Lossless<S(!new), A(!new)>(round: (S, A) -> S) {
    && (forall h, k, a :: round(h, a) == round(k, a) ==> h == k)
    && (forall h, a, b :: round(h, a) == round(h, b) ==> a == b)
  }

  /** Two accumulators never merge under a lossless round. */
  lemma {:induction false} FoldNeverMerges<S(!new), A(!new)>(round: (S, A) -> S, h: S, k: S, s: seq<A>)
    requires Lossless(round)
    ensures Fold(round, h, s) == Fold(round, k, s) <==> h == k
    decreases |s|
  {
    if s != [] {
      FoldNeverMerges(round, round(h, s[0]), round(k, s[0]), s[1..]);
    }
  }

  /** Two inputs of one length that differ in exactly one place never collide. */
  lemma {:induction false} FoldOneApart<S(!new), A(!new)>(round: (S, A) -> S, h: S, s: seq<A>, i: nat, u: A)
    requires Lossless(round) && i < |s| && s[i] != u
    ensures Fold(round, h, s) != Fold(round, h, s[i := u])
    decreases |s|
  {
    if i == 0 {
      assert s[i := u][1..] == s[1..];
      FoldNeverMerges(round, round(h, s[0]), round(h, u), s[1..]);
    } else {
      assert s[i := u][1..] == s[1..][i - 1 := u];
      FoldOneApart(round, round(h, s[0]), s[1..], i - 1, u);
    }
  }

  /** Under an injective step two runs stay apart. */
  lemma {:induction false} IterateStaysApart<S(!new)>(step: S -> S, s: S, t: S, n: nat)
    requires Injective(step)
    ensures Iterate(step, s, n) == Iterate(step, t, n) <==> s == t
  {
    if n > 0 {
      IterateStaysApart(step, s, t, n - 1);
    }
  }

  /** A run that has reached a fixed point stays there. */
  lemma {:induction false} IterateSettles<S>(step: S -> S, s: S, n: nat, m: nat)
    requires n <= m && step(Iterate(step, s, n)) == Iterate(step, s, n)
    ensures Iterate(step, s, m) == Iterate(step, s, n)
    decreases m
  {
    if n < m {
      IterateSettles(step, s, n, m - 1);
    }
  }

  /** A quantity no step lowers is not lowered by any number of steps. */
  lemma {:induction false} IterateGrows<S(!new)>(step: S -> S, size: S -> int, s: S, n: nat, m: nat)
    requires n <= m && forall t :: size(t) <= size(step(t))
    ensures size(Iterate(step, s, n)) <= size(Iterate(step, s, m))
    decreases m
  {
    if n < m {
      IterateGrows(step, size, s, n, m - 1);
    }
  }
}
