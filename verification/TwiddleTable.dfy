/** kernel/twiddle.c: tables of roots, as their readers index them. */
module TwiddleTable {
  import opened Complex

  /** Row ir of a table holds the entries of columns 1, ..., m - 1. */
  function TableIndex(m: int, ir: int, im: int): int {
    im + (m - 1) * ir - 1
  }

  ghost predicate Entry(W: seq<C>, g: (int, int) -> C, m: int, ir: int, im: int) {
    0 <= TableIndex(m, ir, im) < |W| && W[TableIndex(m, ir, im)] == g(ir, im)
  }

  ghost predicate IsTable(W: seq<C>, g: (int, int) -> C, r: int, m: int) {
    forall ir, im :: 0 <= ir < r && 1 <= im < m ==> Entry(W, g, m, ir, im)
  }

  /** A table of reals as its readers see it. */
  ghost function Pairs(s: seq<real>): seq<C> {
    seq(|s| / 2, k requires 0 <= k < |s| / 2 => C(s[2 * k], s[2 * k + 1]))
  }

  function PairIn(W: array<real>, k: int): (c: C)
    requires 0 <= k < |Pairs(W[..])|
    reads W
    ensures c == Pairs(W[..])[k]
  {
    C(W[2 * k], W[2 * k + 1])
  }

  /** The entries of the program TW_FULL, with r and m exchanged. */
  function FullTwiddle(e: int -> C): (int, int) -> C {
    (j, i) => e(j * i)
  }

  /** The entries of the program TW_HALF with offset 1, indices reduced modulo n. */
  function HalfTwiddle(e: int -> C, n: int): (int, int) -> C
    requires 0 < n
  {
    (j, i) => e((i * (j + 1)) % n)
  }
}
