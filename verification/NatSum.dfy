/** Finite sums of natural numbers. */
module NatSum {
  function Total(f: int -> nat, n: nat): nat {
    if n == 0 then 0 else Total(f, n - 1) + f(n - 1)
  }

  lemma {:induction false} TotalCong(f: int -> nat, g: int -> nat, n: nat)
    requires forall i :: 0 <= i < n ==> f(i) == g(i)
    ensures Total(f, n) == Total(g, n)
  {
    if n > 0 { TotalCong(f, g, n - 1); }
  }

  lemma {:induction false} TotalAdd(f: int -> nat, g: int -> nat, h: int -> nat, n: nat)
    requires forall i :: 0 <= i < n ==> h(i) == f(i) + g(i)
    ensures Total(h, n) == Total(f, n) + Total(g, n)
  {
    if n > 0 { TotalAdd(f, g, h, n - 1); }
  }

  lemma {:induction false} TotalZero(f: int -> nat, n: nat)
    ensures Total(f, n) == 0 <==> forall i :: 0 <= i < n ==> f(i) == 0
  {
    if n > 0 { TotalZero(f, n - 1); }
  }

  /** rows(i) totals f(i, .) and columns(j) totals f(., j). */
  lemma {:induction false} TotalSwap(f: (int, int) -> nat, rows: int -> nat, columns: int -> nat, m: nat, n: nat)
    requires forall i :: rows(i) == Total(j => f(i, j), n)
    requires forall j :: columns(j) == Total(i => f(i, j), m)
    ensures Total(rows, m) == Total(columns, n)
  {
    if m == 0 {
      TotalZero(columns, n);
    } else {
      var before := j => Total(i => f(i, j), m - 1);
      TotalSwap(f, rows, before, m - 1, n);
      var last := j => f(m - 1, j);
      forall j ensures columns(j) == before(j) + last(j) {
        TotalCong(i => f(i, j), i => f(i, j), m - 1);
      }
      TotalAdd(before, last, columns, n);
      TotalCong(j => f(m - 1, j), last, n);
    }
  }

  lemma {:induction false} TotalSplit(f: int -> nat, g: int -> nat, m: nat, n: nat)
    requires forall j :: g(j) == f(m + j)
    ensures Total(f, m + n) == Total(f, m) + Total(g, n)
  {
    if n > 0 { TotalSplit(f, g, m, n - 1); }
  }

  /** Summing row after row. */
  lemma {:induction false} TotalRows(f: int -> nat, rows: int -> nat, m: nat, n: nat, size: nat)
    requires size == m * n && forall i :: 0 <= i ==> rows(i) == Total(j => f(i * n + j), n)
    ensures Total(rows, m) == Total(f, size)
  {
    if m > 0 {
      var before := (m - 1) * n;
      assert size == before + n;
      TotalRows(f, rows, m - 1, n, before);
      var last := j => f(before + j);
      TotalSplit(f, last, before, n);
      TotalCong(j => f((m - 1) * n + j), last, n);
    } else {
      assert size == 0;
    }
  }
}
