/** Sums of a per-row weight over the rows of a table whose keys are the
    autoincrement ids 0, 1, ..., n-1.  The ledger invariants of the store
    (lifetime earnings, reserved payout amounts) are stated with these. */
module Sums {

  /** The weight of row `k`, or 0 when there is no row `k`. */
  function At<T>(m: map<nat, T>, w: T -> int, k: nat): int {
    if k in m then w(m[k]) else 0
  }

  /** The total weight of the rows with ids below `n`. */
  function SumTo<T>(m: map<nat, T>, w: T -> int, n: nat): (total: int) {
    if n == 0 then 0 else SumTo(m, w, n - 1) + At(m, w, n - 1)
  }

  /** Two tables that weigh the same row by row below `n` have the same sum. */
  lemma {:induction false} SumToAgree<T>(m1: map<nat, T>, m2: map<nat, T>, w: T -> int, n: nat)
    requires forall k: nat :: k < n ==> At(m1, w, k) == At(m2, w, k)
    ensures SumTo(m1, w, n) == SumTo(m2, w, n)
  {
    if n > 0 {
      SumToAgree(m1, m2, w, n - 1);
    }
  }

  /** Replacing one row below `n` changes the sum by the change of that row's weight. */
  lemma {:induction false} SumToUpdate<T>(m: map<nat, T>, w: T -> int, n: nat, k: nat, v: T)
    requires k < n
    ensures SumTo(m[k := v], w, n) == SumTo(m, w, n) - At(m, w, k) + w(v)
  {
    if k < n - 1 {
      SumToUpdate(m, w, n - 1, k, v);
    } else {
      SumToAgree(m[k := v], m, w, n - 1);
    }
  }

  /** Inserting a row at the next free id `n` adds exactly its weight. */
  lemma SumToInsert<T>(m: map<nat, T>, w: T -> int, n: nat, v: T)
    requires forall k :: k in m ==> k < n
    ensures SumTo(m[n := v], w, n + 1) == SumTo(m, w, n) + w(v)
  {
    SumToAgree(m[n := v], m, w, n);
  }

  /** Weights that are never negative below `n` have a non-negative sum. */
  lemma {:induction false} SumToNonNegative<T>(m: map<nat, T>, w: T -> int, n: nat)
    requires forall k: nat :: k < n ==> At(m, w, k) >= 0
    ensures SumTo(m, w, n) >= 0
  {
    if n > 0 {
      SumToNonNegative(m, w, n - 1);
    }
  }

  /** A weight that is `c` times another sums to `c` times the other's sum. */
  lemma {:induction false} SumToScale<T>(m: map<nat, T>, w: T -> int, v: T -> int, c: int, n: nat)
    requires forall x: T :: w(x) == c * v(x)
    ensures SumTo(m, w, n) == c * SumTo(m, v, n)
  {
    if n > 0 {
      SumToScale(m, w, v, c, n - 1);
      assert At(m, w, n - 1) == c * At(m, v, n - 1);
      assert c * (SumTo(m, v, n - 1) + At(m, v, n - 1)) == c * SumTo(m, v, n - 1) + c * At(m, v, n - 1);
    }
  }
}
