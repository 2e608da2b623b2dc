/** Sums over the identifiers drawn so far. */
module Totals {
  function Total(w: nat -> nat, n: nat): nat {
    if n == 0 then 0 else Total(w, n - 1) + w(n - 1)
  }

  lemma {:induction false} TotalMonotone(w: nat -> nat, v: nat -> nat, n: nat)
    requires forall i :: 0 <= i < n ==> w(i) <= v(i)
    ensures Total(w, n) <= Total(v, n)
  {
    if n > 0 { TotalMonotone(w, v, n - 1); }
  }

  lemma TotalSame(w: nat -> nat, v: nat -> nat, n: nat)
    requires forall i :: 0 <= i < n ==> w(i) == v(i)
    ensures Total(w, n) == Total(v, n)
  {
    TotalMonotone(w, v, n);
    TotalMonotone(v, w, n);
  }

  lemma {:induction false} TotalConstant(w: nat -> nat, n: nat, c: nat)
    requires forall i :: 0 <= i < n ==> w(i) == c
    ensures Total(w, n) == n * c
  {
    if n > 0 { TotalConstant(w, n - 1, c); }
  }

  /** Changing one summand changes the sum by as much. */
  lemma {:induction false} TotalChange(w: nat -> nat, v: nat -> nat, n: nat, k: nat)
    requires k < n && forall i :: 0 <= i < n && i != k ==> w(i) == v(i)
    ensures Total(w, n) + v(k) == Total(v, n) + w(k)
    decreases n
  {
    if k == n - 1 { TotalSame(w, v, n - 1); } else { TotalChange(w, v, n - 1, k); }
  }

  lemma Distribute(factor: nat, a: nat, b: nat)
    ensures factor * (a + b) == factor * a + factor * b
  {
  }

  lemma {:induction false} TotalBound(w: nat -> nat, v: nat -> nat, n: nat, factor: nat)
    requires forall i :: 0 <= i < n ==> w(i) <= factor * v(i)
    ensures Total(w, n) <= factor * Total(v, n)
  {
    if n > 0 {
      TotalBound(w, v, n - 1, factor);
      Distribute(factor, Total(v, n - 1), v(n - 1));
    }
  }

  lemma {:induction false} TotalAtLeast(w: nat -> nat, n: nat, k: nat)
    requires k < n
    ensures w(k) <= Total(w, n)
    decreases n
  {
    if k < n - 1 { TotalAtLeast(w, n - 1, k); }
  }
}
