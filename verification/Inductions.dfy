/** Induction over a stretch of numbers, for properties passed as functions. */
module Inductions {

  /** What holds first and is carried by every step holds at the end. */
  lemma {:induction false} UpFrom(p: nat -> bool, k: nat, n: nat)
    requires k <= n && p(k) && forall i: nat :: k <= i < n && p(i) ==> p(i + 1)
    ensures p(n)
    decreases n
  {
    if k < n {
      UpFrom(p, k, n - 1);
      assert p(n - 1 + 1);
    }
  }

  predicate Carries<T>(p: T -> bool, states: seq<T>, i: nat)
    requires i + 1 < |states|
  {
    p(states[i]) ==> p(states[i + 1])
  }

  /** The same along a sequence of states. */
  lemma {:induction false} Always<T>(p: T -> bool, states: seq<T>, n: nat)
    requires n < |states| && p(states[0])
    requires forall i :: 0 <= i < |states| - 1 ==> Carries(p, states, i)
    ensures p(states[n])
  {
    if n > 0 {
      Always(p, states, n - 1);
      assert Carries(p, states, n - 1);
    }
  }

  /** What holds first, and goes from each point to the next exactly under a condition. */
  lemma {:induction false} Throughout(p: nat -> bool, q: nat -> bool, n: nat)
    requires p(0) && forall k: nat :: k < n && p(k) ==> (p(k + 1) <==> q(k))
    ensures (forall k :: 0 <= k <= n ==> p(k)) <==> (forall k :: 0 <= k < n ==> q(k))
  {
    if n > 0 {
      Throughout(p, q, n - 1);
      if forall k :: 0 <= k <= n - 1 ==> p(k) {
        assert p(n - 1) && (p(n - 1 + 1) <==> q(n - 1));
      }
    }
  }

  /** What holds of nothing, and is kept by one element more, holds of every sequence. */
  lemma {:induction false} FromPrefixes<T(!new)>(p: seq<T> -> bool, s: seq<T>)
    requires p([]) && forall a, x :: p(a) ==> p(a + [x])
    ensures p(s)
  {
    if s != [] {
      var n := |s| - 1;
      FromPrefixes(p, s[..n]);
      assert s == s[..n] + [s[n]];
    }
  }
}
