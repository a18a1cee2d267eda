/** kernel/twiddle.c, compute, and its readers: the programs TW_FULL and TW_HALF lay out exactly the tables that the
    transforms index. */
module TwiddleLayout {
  import opened ModArith
  import opened Complex
  import opened TwiddleProgram
  import opened TwiddleTable

  /** Instructions for every row, with offset v. */
  function OneInstr(op: Op, v: nat): seq<Instr> {
    [Instr(op, v, 0), Instr(NEXT, 1, 0)]
  }

  lemma OneRow(e: int -> C, n: int, r: nat, op: Op, v: nat, j: nat)
    requires 1 <= n
    ensures Row(e, n, r, OneInstr(op, v), j, 1) == Written(e, n, r, Instr(op, v, 0), j)
  {
    hide Written;
    var p := OneInstr(op, v);
    assert Row(e, n, r, p, j, 1) == Row(e, n, r, p, j, 0) + Written(e, n, r, p[0], j);
    assert [] + Written(e, n, r, p[0], j) == Written(e, n, r, p[0], j);
  }

  /** Row after row of width w pairs. */
  lemma {:induction false} PairInRows(e: int -> C, n: int, r: nat, op: Op, v: nat, rows: nat, j: nat, k: int, c: C, w: nat)
    requires 1 <= n && j < rows && 0 <= k < w && PairAt(Written(e, n, r, Instr(op, v, 0), j), k, c)
    requires forall i: nat :: |Written(e, n, r, Instr(op, v, 0), i)| == 2 * w
    ensures |Rows(e, n, r, OneInstr(op, v), rows)| == 2 * (w * rows)
    ensures PairAt(Rows(e, n, r, OneInstr(op, v), rows), w * j + k, c)
    decreases rows
  {
    hide Written, Row;
    var p := OneInstr(op, v);
    RowsWidth(e, n, r, op, v, rows, w);
    OneRow(e, n, r, op, v, rows - 1);
    assert (rows - 1) * 1 == rows - 1;
    var before := Rows(e, n, r, p, rows - 1);
    assert Rows(e, n, r, p, rows) == before + Written(e, n, r, Instr(op, v, 0), rows - 1);
    RowsWidth(e, n, r, op, v, rows - 1, w);
    if j < rows - 1 {
      PairInRows(e, n, r, op, v, rows - 1, j, k, c, w);
    } else {
      Shifted(before, Written(e, n, r, Instr(op, v, 0), j), w * j, k, c);
    }
  }

  lemma Shifted(s: seq<real>, t: seq<real>, base: int, k: int, c: C)
    requires |s| == 2 * base && PairAt(t, k, c) && 0 <= k
    ensures PairAt(s + t, base + k, c)
  {}

  lemma {:induction false} RowsWidth(e: int -> C, n: int, r: nat, op: Op, v: nat, rows: nat, w: nat)
    requires 1 <= n && forall i: nat :: |Written(e, n, r, Instr(op, v, 0), i)| == 2 * w
    ensures |Rows(e, n, r, OneInstr(op, v), rows)| == 2 * (w * rows)
  {
    hide Written, Row;
    if rows == 0 {
      assert w * 0 == 0;
    } else {
      RowsWidth(e, n, r, op, v, rows - 1, w);
      OneRow(e, n, r, op, v, rows - 1);
      assert (rows - 1) * 1 == rows - 1;
      assert w * (rows - 1) + w == w * rows;
    }
  }

  /** A table generated for radix r by TW_FULL holds, at the pair that bytwiddle reads, the root it wants. */
  lemma FullLayout(e: int -> C, n: int, r: nat, rows: nat, j: nat, i: nat)
    requires 1 <= n && j < rows && 1 <= i < r
    ensures PairAt(Rows(e, n, r, OneInstr(FULL, 0), rows), TableIndex(r, j, i), FullTwiddle(e)(j, i))
  {
    FullRowPair(e, j + 0, r, i);
    forall k: nat ensures |Written(e, n, r, Instr(FULL, 0, 0), k)| == 2 * (r - 1) {}
    PairInRows(e, n, r, FULL, 0, rows, j, i - 1, e(j * i), r - 1);
  }

  /** A table generated for odd n = 2 h + 1 by TW_HALF with offset 1 holds, at the pair that cdot reads, the root of
      the reduced index. */
  lemma HalfLayout(e: int -> C, n: int, h: nat, rows: nat, j: nat, i: nat)
    requires n == 2 * h + 1 && j < rows && 1 <= i <= h
    ensures PairAt(Rows(e, n, n, OneInstr(HALF, 1), rows), TableIndex(h + 1, j, i), HalfTwiddle(e, n)(j, i))
  {
    assert (n + 1) / 2 == h + 1;
    HalfRowPair(e, n, j + 1, h + 1, i);
    forall k: nat ensures |Written(e, n, n, Instr(HALF, 1, 0), k)| == 2 * h {}
    PairInRows(e, n, n, HALF, 1, rows, j, i - 1, e((i * (j + 1)) % n), h);
  }

  // ---- What the table cache hands out ----

  lemma PairThere(s: seq<real>, t: seq<real>, g: (int, int) -> C, m: int, j: int, i: int)
    requires s <= t && PairAt(s, TableIndex(m, j, i), g(j, i))
    ensures Entry(Pairs(t), g, m, j, i)
  {}

  /** A table that begins with the rows of TW_FULL is one that the decimation steps may read. */
  lemma ServedFull(e: int -> C, n: int, r: nat, rows: nat, t: seq<real>)
    requires 1 <= n && Rows(e, n, r, OneInstr(FULL, 0), rows) <= t
    ensures IsTable(Pairs(t), FullTwiddle(e), rows, r)
  {
    hide Rows, TableIndex, Pairs, Entry;
    forall j, i | 0 <= j < rows && 1 <= i < r ensures Entry(Pairs(t), FullTwiddle(e), r, j, i) {
      FullLayout(e, n, r, rows, j, i);
      PairThere(Rows(e, n, r, OneInstr(FULL, 0), rows), t, FullTwiddle(e), r, j, i);
    }
  }

  /** A table that begins with the rows of TW_HALF is one that the generic algorithm may read. */
  lemma ServedHalf(e: int -> C, n: int, h: nat, t: seq<real>)
    requires n == 2 * h + 1 && Rows(e, n, n, OneInstr(HALF, 1), h) <= t
    ensures IsTable(Pairs(t), HalfTwiddle(e, n), h, h + 1)
  {
    hide Rows, TableIndex, Pairs, Entry;
    var m := h + 1;
    forall j, i | 0 <= j < h && 1 <= i < m ensures Entry(Pairs(t), HalfTwiddle(e, n), m, j, i) {
      HalfLayout(e, n, h, h, j, i);
      PairThere(Rows(e, n, n, OneInstr(HALF, 1), h), t, HalfTwiddle(e, n), m, j, i);
    }
  }
}
