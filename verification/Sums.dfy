/** Finite integer sums over an index range, and the few laws about them that the ledger proofs use. */
module Sums {

  function SumTo(n: nat, f: nat -> int): int {
    if n == 0 then 0 else SumTo(n - 1, f) + f(n - 1)
  }

  /** The part of a sum whose index carries the given key. */
  function Bucket(key: nat -> nat, w: nat -> int, k: nat): nat -> int {
    (i: nat) => if key(i) == k then w(i) else 0
  }

  lemma {:induction false} SumSame(n: nat, f: nat -> int, g: nat -> int)
    requires forall i: nat :: i < n ==> f(i) == g(i)
    ensures SumTo(n, f) == SumTo(n, g)
  {
    if n > 0 {
      SumSame(n - 1, f, g);
    }
  }

  lemma {:induction false} SumZero(n: nat, f: nat -> int)
    requires forall i: nat :: i < n ==> f(i) == 0
    ensures SumTo(n, f) == 0
  {
    if n > 0 {
      SumZero(n - 1, f);
    }
  }

  lemma {:induction false} SumNonNegative(n: nat, f: nat -> int)
    requires forall i: nat :: i < n ==> f(i) >= 0
    ensures SumTo(n, f) >= 0
  {
    if n > 0 {
      SumNonNegative(n - 1, f);
    }
  }

  lemma {:induction false} SumAtMost(n: nat, f: nat -> int, g: nat -> int)
    requires forall i: nat :: i < n ==> f(i) <= g(i)
    ensures SumTo(n, f) <= SumTo(n, g)
  {
    if n > 0 {
      SumAtMost(n - 1, f, g);
    }
  }

  lemma {:induction false} SumPlus(n: nat, f: nat -> int, g: nat -> int, h: nat -> int)
    requires forall i: nat :: i < n ==> h(i) == f(i) + g(i)
    ensures SumTo(n, h) == SumTo(n, f) + SumTo(n, g)
  {
    if n > 0 {
      SumPlus(n - 1, f, g, h);
    }
  }

  /** Indices past the first n that add nothing can be left out. */
  lemma {:induction false} SumPadded(n: nat, m: nat, f: nat -> int, g: nat -> int)
    requires n <= m
    requires forall i: nat :: i < n ==> f(i) == g(i)
    requires forall i: nat :: n <= i < m ==> g(i) == 0
    ensures SumTo(n, f) == SumTo(m, g)
  {
    if n == m {
      SumSame(n, f, g);
    } else {
      SumPadded(n, m - 1, f, g);
    }
  }

  /** Indices past the first n that add nothing negative can only raise the sum. */
  lemma {:induction false} SumGrows(n: nat, m: nat, f: nat -> int, g: nat -> int)
    requires n <= m
    requires forall i: nat :: i < n ==> f(i) == g(i)
    requires forall i: nat :: n <= i < m ==> g(i) >= 0
    ensures SumTo(n, f) <= SumTo(m, g)
    ensures forall i: nat :: n <= i < m ==> SumTo(n, f) + g(i) <= SumTo(m, g)
  {
    if n == m {
      SumSame(n, f, g);
    } else {
      SumGrows(n, m - 1, f, g);
    }
  }

  /** Changing one term changes the sum by the same amount. */
  lemma {:induction false} SumMoved(n: nat, f: nat -> int, g: nat -> int, at: nat, delta: int)
    requires at < n && g(at) == f(at) + delta
    requires forall i: nat :: i < n && i != at ==> g(i) == f(i)
    ensures SumTo(n, g) == SumTo(n, f) + delta
  {
    if at == n - 1 {
      SumSame(n - 1, g, f);
    } else {
      SumMoved(n - 1, f, g, at, delta);
    }
  }

  lemma {:induction false} TermAtMostSum(n: nat, f: nat -> int, at: nat)
    requires at < n
    requires forall i: nat :: i < n ==> f(i) >= 0
    ensures f(at) <= SumTo(n, f)
  {
    if at == n - 1 {
      SumNonNegative(n - 1, f);
    } else {
      TermAtMostSum(n - 1, f, at);
    }
  }

  /** Pigeonhole: equal sums of pointwise ordered terms are equal term by term. */
  lemma {:induction false} SumTight(n: nat, f: nat -> int, g: nat -> int)
    requires forall i: nat :: i < n ==> f(i) <= g(i)
    requires SumTo(n, f) >= SumTo(n, g)
    ensures forall i: nat :: i < n ==> f(i) == g(i)
  {
    if n > 0 {
      SumAtMost(n - 1, f, g);
      SumTight(n - 1, f, g);
    }
  }

  /** Grouping: summing the sum of each bucket counts every term once. */
  lemma {:induction false} SumByKey(n: nat, m: nat, key: nat -> nat, w: nat -> int, b: nat -> int)
    requires forall i: nat :: i < m && w(i) != 0 ==> key(i) < n
    requires forall k: nat :: k < n ==> b(k) == SumTo(m, Bucket(key, w, k))
    ensures SumTo(n, b) == SumTo(m, w)
  {
    if m == 0 {
      SumZero(n, b);
    } else {
      var rest := (k: nat) => SumTo(m - 1, Bucket(key, w, k));
      SumByKey(n, m - 1, key, w, rest);
      if key(m - 1) < n {
        SumMoved(n, rest, b, key(m - 1), w(m - 1));
      } else {
        SumSame(n, rest, b);
      }
    }
  }

  /** Re-indexing along a partial injection never raises a sum of non-negative terms. */
  lemma {:induction false} SumInjected(n: nat, m: nat, f: nat -> int, key: nat -> nat, w: nat -> int)
    requires forall t: nat :: t < m ==> w(t) >= 0
    requires forall r: nat :: r < n ==> f(r) == 0 || (key(r) < m && f(r) <= w(key(r)))
    requires forall r: nat, q: nat :: r < q < n && f(r) != 0 && f(q) != 0 ==> key(r) != key(q)
    ensures SumTo(n, f) <= SumTo(m, w)
  {
    if n == 0 {
      SumNonNegative(m, w);
    } else if f(n - 1) == 0 {
      SumInjected(n - 1, m, f, key, w);
    } else {
      var used := key(n - 1);
      var less := (t: nat) => if t == used then 0 else w(t);
      SumInjected(n - 1, m, f, key, less);
      SumMoved(m, less, w, used, w(used));
    }
  }
}
