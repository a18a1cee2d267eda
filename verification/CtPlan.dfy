/** dft/ct.c and dft/dftw-generic.c: the strides chosen by mkplan, the twiddle table, bytwiddle,
    and the two orders of applying the child plans. */
module CtPlan {
  import opened ModArith
  import opened Complex
  import opened Fourier
  import opened Grid
  import opened CooleyTukeyTheory
  import opened TwiddleTable

  // ---- The twiddle problem ----

  /** dft/dftw-generic.c: r rows at distance rs, columns mb, ..., me - 1 of m at distance ms, v copies at distance vs. */
  datatype Dftw = Dftw(r: int, rs: int, m: int, mb: int, me: int, ms: int, v: int, vs: int) {
    ghost predicate Valid() {
      1 <= r && 1 <= m && 0 <= mb <= me <= m && 0 <= v
    }
  }

  /** Column mb + k of row a in copy b, as bytwiddle computes it. */
  function Cells(p: Dftw, base: int): Addr {
    (k, a, b) => base + p.vs * b + p.ms * (p.mb + k) + p.rs * a
  }

  /** Element a of column k in copy b, as the child plan is told. */
  function Columns(p: Dftw, base: int): Addr {
    (a, k, b) => (base + p.ms * p.mb) + a * p.rs + k * p.ms + b * p.vs
  }

  lemma ColumnsAreCells(p: Dftw, base: int)
    ensures forall k, a, b :: Cells(p, base)(k, a, b) == Columns(p, base)(a, k, b)
  {
    forall k, a, b ensures Cells(p, base)(k, a, b) == Columns(p, base)(a, k, b) {
      assert p.ms * (p.mb + k) == p.ms * p.mb + k * p.ms;
    }
  }

  /** What bytwiddle leaves in a cell. */
  ghost function TwiddledCell(s: seq<C>, A: Addr, e: int -> C, mb: int, k: int, a: int, b: int): C {
    Mul(Row(s, A, a, b)(k), e(-((mb + k) * a)))
  }

  lemma FirstsAreOne(s: seq<C>, A: Addr, e: int -> C, n: int, mb: int, k: int, a: int, b: int)
    requires IsRoot(e, n) && (a == 0 || mb + k == 0) && 0 <= A(k, a, b) < |s|
    ensures TwiddledCell(s, A, e, mb, k, a, b) == s[A(k, a, b)]
  {
    hide Mul;
    RootZero(e, n);
    assert (mb + k) * a == 0;
    MulUnits(s[A(k, a, b)]);
  }

  lemma TableFactor(W: seq<C>, e: int -> C, n: int, r: int, m: int, ir: int, im: int)
    requires IsRoot(e, n) && IsTable(W, FullTwiddle(e), r, m) && 1 <= ir < r && 1 <= im < m
    ensures 0 <= TableIndex(m, ir, im) < |W| && Conj(W[TableIndex(m, ir, im)]) == e(-(im * ir))
  {
    assert Entry(W, FullTwiddle(e), m, ir, im);
    RootConj(e, n, ir * im);
    assert ir * im == im * ir;
  }

  method ByTwiddle(p: Dftw, W: array<real>, rio: array<C>, base: int, ghost e: int -> C, ghost n: int)
    requires p.Valid() && IsRoot(e, n) && IsTable(Pairs(W[..]), FullTwiddle(e), p.r, p.m)
    requires Grid.Fits(rio.Length, Cells(p, base), p.me - p.mb, p.r, p.v) && Grid.Apart(Cells(p, base), p.me - p.mb, p.r, p.v)
    modifies rio
    ensures Written(old(rio[..]), rio[..], Cells(p, base), p.me - p.mb, p.r, p.v,
                    (k, a, b) => TwiddledCell(old(rio[..]), Cells(p, base), e, p.mb, k, a, b))
  {
    hide Mul, Cells, PartWritten, TwiddledCell;
    ghost var before, c, A := rio[..], p.me - p.mb, Cells(p, base);
    ghost var F := (k, a, b) => TwiddledCell(before, A, e, p.mb, k, a, b);
    GridStart(before, A, c, p.r, p.v, F);
    for iv := 0 to p.v
      invariant unchanged(W) && |rio[..]| == |before| && PartWritten(before, rio[..], A, c, p.r, p.v, F, 0, 0, iv)
    {
      forall k | In(c, p.r, p.v, k, 0, iv) ensures F(k, 0, iv) == before[A(k, 0, iv)] {
        FirstsAreOne(before, A, e, n, p.mb, k, 0, iv);
      }
      SkipRow(before, rio[..], A, c, p.r, p.v, F, 0, 0, iv);
      for ir := 1 to p.r
        invariant unchanged(W) && |rio[..]| == |before| && PartWritten(before, rio[..], A, c, p.r, p.v, F, 0, ir, iv)
      {
        TwiddleRow(p, W, rio, base, ir, iv, e, n, before, F, Pairs(W[..]));
        NextRow(before, rio[..], A, c, p.r, p.v, F, ir, iv);
      }
      NextPlane(before, rio[..], A, c, p.r, p.v, F, iv);
    }
    GridEnd(before, rio[..], A, c, p.r, p.v, F, (k, a, b) => TwiddledCell(before, Cells(p, base), e, p.mb, k, a, b));
  }

  /** The innermost loop of bytwiddle. */
  method TwiddleRow(p: Dftw, W: array<real>, rio: array<C>, base: int, ir: int, iv: int,
                    ghost e: int -> C, ghost n: int, ghost before: seq<C>, ghost F: (int, int, int) -> C, ghost table: seq<C>)
    requires p.Valid() && IsRoot(e, n) && table == Pairs(W[..]) && IsTable(table, FullTwiddle(e), p.r, p.m) && 1 <= ir < p.r && 0 <= iv < p.v
    requires |before| == rio.Length
    requires Grid.Fits(rio.Length, Cells(p, base), p.me - p.mb, p.r, p.v) && Grid.Apart(Cells(p, base), p.me - p.mb, p.r, p.v)
    requires forall k, a, b :: F(k, a, b) == TwiddledCell(before, Cells(p, base), e, p.mb, k, a, b)
    requires PartWritten(before, rio[..], Cells(p, base), p.me - p.mb, p.r, p.v, F, 0, ir, iv)
    modifies rio
    ensures PartWritten(before, rio[..], Cells(p, base), p.me - p.mb, p.r, p.v, F, p.me - p.mb, ir, iv)
  {
    hide Mul, TableIndex, Cells, PartWritten, IsTable, TwiddledCell, Grid.Fits, Grid.Apart;
    ghost var c := p.me - p.mb;
    var A := Cells(p, base);
    var im := p.mb;
    if im == 0 {
      im := 1;  // the factors of column 0 are all 1
      if 0 < p.me {
        FirstsAreOne(before, A, e, n, p.mb, 0, ir, iv) by { CellFits(p, base, rio.Length, 0, ir, iv); }
        CellFits(p, base, rio.Length, 0, ir, iv);
        SkipOne(before, rio[..], A, c, p.r, p.v, F, 0, ir, iv);
      }
    }
    while im < p.me
      invariant p.mb <= im && 1 <= im && (im <= p.me || p.me == 0) && Pairs(W[..]) == table
      invariant PartWritten(before, rio[..], A, c, p.r, p.v, F, if im <= p.me then im - p.mb else 0, ir, iv)
    {
      TwiddleStep(p, table, before, rio[..], base, ir, iv, im, e, n, F);
      var q := A(im - p.mb, ir, iv);
      var w := PairIn(W, TableIndex(p.m, ir, im));
      rio[q] := Mul(rio[q], Conj(w));
      im := im + 1;
    }
  }

  lemma CellFits(p: Dftw, base: int, len: int, k: int, a: int, b: int)
    requires Grid.Fits(len, Cells(p, base), p.me - p.mb, p.r, p.v) && In(p.me - p.mb, p.r, p.v, k, a, b)
    ensures 0 <= Cells(p, base)(k, a, b) < len
  {}

  /** Multiplying one cell by its table entry extends the finished part by that cell. */
  lemma TwiddleStep(p: Dftw, W: seq<C>, before: seq<C>, after: seq<C>, base: int, ir: int, iv: int, im: int,
                    e: int -> C, n: int, F: (int, int, int) -> C)
    requires p.Valid() && IsRoot(e, n) && IsTable(W, FullTwiddle(e), p.r, p.m) && 1 <= ir < p.r && 0 <= iv < p.v
    requires Grid.Fits(|before|, Cells(p, base), p.me - p.mb, p.r, p.v) && Grid.Apart(Cells(p, base), p.me - p.mb, p.r, p.v)
    requires forall k, a, b :: F(k, a, b) == TwiddledCell(before, Cells(p, base), e, p.mb, k, a, b)
    requires p.mb <= im < p.me && 1 <= im
    requires PartWritten(before, after, Cells(p, base), p.me - p.mb, p.r, p.v, F, im - p.mb, ir, iv)
    ensures 0 <= TableIndex(p.m, ir, im) < |W|
    ensures var q := Cells(p, base)(im - p.mb, ir, iv);
      0 <= q < |after| &&
      PartWritten(before, after[q := Mul(after[q], Conj(W[TableIndex(p.m, ir, im)]))],
                  Cells(p, base), p.me - p.mb, p.r, p.v, F, im - p.mb + 1, ir, iv)
  {
    hide Mul, TableIndex, Cells;
    var k, c, A := im - p.mb, p.me - p.mb, Cells(p, base);
    assert In(c, p.r, p.v, k, ir, iv);
    assert Placed(after, A, k, ir, iv, before[A(k, ir, iv)]);
    TableFactor(W, e, n, p.r, p.m, ir, im);
    WriteOne(before, after, A, c, p.r, p.v, F, k, ir, iv, Mul(after[A(k, ir, iv)], Conj(W[TableIndex(p.m, ir, im)])));
  }

  // ---- The twiddle problem as a whole ----

  /** Decimation in time: twiddle, then transform each column in place. */
  method DftwDit(p: Dftw, W: array<real>, rio: array<C>, base: int, e: int -> C, ghost n: int)
    requires p.Valid() && IsRoot(e, n) && IsTable(Pairs(W[..]), FullTwiddle(e), p.r, p.m)
    requires Grid.Fits(rio.Length, Cells(p, base), p.me - p.mb, p.r, p.v) && Grid.Apart(Cells(p, base), p.me - p.mb, p.r, p.v)
    modifies rio
    ensures Written(old(rio[..]), rio[..], Columns(p, base), p.r, p.me - p.mb, p.v,
                    (l, k, b) => DitColumn(old(rio[..]), p, base, e, l, k, b))
  {
    hide Mul, Cells, Columns, TwiddledCell, IsTable;
    ghost var before := rio[..];
    TransposeGrid(p, base, rio.Length);
    ByTwiddle(p, W, rio, base, e, n);
    ghost var middle := rio[..];
    SolveDfts(p.r, p.me - p.mb, p.v, EveryRoot(e, p.m), rio, Columns(p, base), rio, Columns(p, base));
    DitComposed(before, middle, rio[..], p, base, e);
  }

  /** Output l of the transform of twiddled column mb + k. */
  ghost function DitColumn(s: seq<C>, p: Dftw, base: int, e: int -> C, l: int, k: int, b: int): C
    requires 0 <= p.r
  {
    Dft(i => TwiddledCell(s, Cells(p, base), e, p.mb, k, i, b), EveryRoot(e, p.m), p.r, l)
  }

  lemma TransposeGrid(p: Dftw, base: int, len: int)
    requires Grid.Fits(len, Cells(p, base), p.me - p.mb, p.r, p.v) && Grid.Apart(Cells(p, base), p.me - p.mb, p.r, p.v)
    ensures Grid.Fits(len, Columns(p, base), p.r, p.me - p.mb, p.v) && Grid.Apart(Columns(p, base), p.r, p.me - p.mb, p.v)
    ensures SamePlaces(Cells(p, base), p.me - p.mb, p.r, p.v, Columns(p, base), p.r, p.me - p.mb, p.v)
  {
    ColumnsAreCells(p, base);
    var A, B, c := Cells(p, base), Columns(p, base), p.me - p.mb;
    forall a, k, b, a', k', b' | In(p.r, c, p.v, a, k, b) && In(p.r, c, p.v, a', k', b') && B(a, k, b) == B(a', k', b')
      ensures a == a' && k == k' && b == b'
    {
      assert A(k, a, b) == A(k', a', b') && In(c, p.r, p.v, k, a, b) && In(c, p.r, p.v, k', a', b');
    }
    forall a, k, b | In(p.r, c, p.v, a, k, b) ensures 0 <= B(a, k, b) < len {
      assert A(k, a, b) == B(a, k, b) && In(c, p.r, p.v, k, a, b);
    }
    TransposedTouches(A, B, c, p.r, p.v);
  }

  lemma DitComposed(before: seq<C>, middle: seq<C>, after: seq<C>, p: Dftw, base: int, e: int -> C)
    requires p.Valid() && Grid.Fits(|before|, Cells(p, base), p.me - p.mb, p.r, p.v) && Grid.Apart(Cells(p, base), p.me - p.mb, p.r, p.v)
    requires Written(before, middle, Cells(p, base), p.me - p.mb, p.r, p.v,
                     (k, a, b) => TwiddledCell(before, Cells(p, base), e, p.mb, k, a, b))
    requires Written(middle, after, Columns(p, base), p.r, p.me - p.mb, p.v,
                     (l, k, b) => Dft(Row(middle, Columns(p, base), k, b), EveryRoot(e, p.m), p.r, l))
    ensures Written(before, after, Columns(p, base), p.r, p.me - p.mb, p.v,
                    (l, k, b) => DitColumn(before, p, base, e, l, k, b))
  {
    hide Mul, Cells, Columns, TwiddledCell, SameElsewhere, EveryRoot, Dft;
    var A, B, c := Cells(p, base), Columns(p, base), p.me - p.mb;
    TransposeGrid(p, base, |before|);
    ColumnsAreCells(p, base);
    SameThrough(before, middle, after, A, c, p.r, p.v, B, p.r, c, p.v);
    forall l, k, b | In(p.r, c, p.v, l, k, b)
      ensures Placed(after, B, l, k, b, DitColumn(before, p, base, e, l, k, b))
    {
      forall i | 0 <= i < p.r ensures Row(middle, B, k, b)(i) == TwiddledCell(before, A, e, p.mb, k, i, b) {
        assert In(c, p.r, p.v, k, i, b) && A(k, i, b) == B(i, k, b);
        assert Placed(middle, A, k, i, b, TwiddledCell(before, A, e, p.mb, k, i, b));
      }
      DftCong(Row(middle, B, k, b), i => TwiddledCell(before, A, e, p.mb, k, i, b), EveryRoot(e, p.m), p.r, l);
      assert Placed(after, B, l, k, b, Dft(Row(middle, B, k, b), EveryRoot(e, p.m), p.r, l));
    }
  }

  /** Decimation in frequency: transform each column in place, then twiddle. */
  method DftwDif(p: Dftw, W: array<real>, rio: array<C>, base: int, e: int -> C, ghost n: int)
    requires p.Valid() && IsRoot(e, n) && IsTable(Pairs(W[..]), FullTwiddle(e), p.r, p.m)
    requires Grid.Fits(rio.Length, Cells(p, base), p.me - p.mb, p.r, p.v) && Grid.Apart(Cells(p, base), p.me - p.mb, p.r, p.v)
    modifies rio
    ensures Written(old(rio[..]), rio[..], Cells(p, base), p.me - p.mb, p.r, p.v,
                    (k, l, b) => DifCell(old(rio[..]), p, base, e, k, l, b))
  {
    hide Mul, Cells, Columns, TwiddledCell;
    ghost var before, table := rio[..], Pairs(W[..]);
    TransposeGrid(p, base, rio.Length);
    SolveDfts(p.r, p.me - p.mb, p.v, EveryRoot(e, p.m), rio, Columns(p, base), rio, Columns(p, base));
    ghost var middle := rio[..];
    assert Pairs(W[..]) == table;
    ByTwiddle(p, W, rio, base, e, n);
    DifComposed(before, middle, rio[..], p, base, e);
  }

  /** Output l of the transform of column mb + k, twiddled. */
  ghost function DifCell(s: seq<C>, p: Dftw, base: int, e: int -> C, k: int, l: int, b: int): C
    requires 0 <= p.r
  {
    Mul(Dft(Row(s, Columns(p, base), k, b), EveryRoot(e, p.m), p.r, l), e(-((p.mb + k) * l)))
  }

  lemma DifComposed(before: seq<C>, middle: seq<C>, after: seq<C>, p: Dftw, base: int, e: int -> C)
    requires p.Valid() && Grid.Fits(|before|, Cells(p, base), p.me - p.mb, p.r, p.v) && Grid.Apart(Cells(p, base), p.me - p.mb, p.r, p.v)
    requires Written(before, middle, Columns(p, base), p.r, p.me - p.mb, p.v,
                     (l, k, b) => Dft(Row(before, Columns(p, base), k, b), EveryRoot(e, p.m), p.r, l))
    requires Written(middle, after, Cells(p, base), p.me - p.mb, p.r, p.v,
                     (k, a, b) => TwiddledCell(middle, Cells(p, base), e, p.mb, k, a, b))
    ensures Written(before, after, Cells(p, base), p.me - p.mb, p.r, p.v,
                    (k, l, b) => DifCell(before, p, base, e, k, l, b))
  {
    hide Mul, Cells, Columns, TwiddledCell, DifCell, Row, SameElsewhere, Placed, EveryRoot, Dft;
    var A, B, c := Cells(p, base), Columns(p, base), p.me - p.mb;
    TransposeGrid(p, base, |before|);
    ColumnsAreCells(p, base);
    SameThrough(before, middle, after, B, p.r, c, p.v, A, c, p.r, p.v);
    forall k, l, b | In(c, p.r, p.v, k, l, b)
      ensures Placed(after, A, k, l, b, DifCell(before, p, base, e, k, l, b))
    {
      assert In(p.r, c, p.v, l, k, b) && A(k, l, b) == B(l, k, b);
      DifCellPlaced(before, middle, after, p, base, e, k, l, b);
    }
  }

  lemma DifCellPlaced(before: seq<C>, middle: seq<C>, after: seq<C>, p: Dftw, base: int, e: int -> C, k: int, l: int, b: int)
    requires 0 <= p.r && Cells(p, base)(k, l, b) == Columns(p, base)(l, k, b)
    requires Placed(middle, Columns(p, base), l, k, b, Dft(Row(before, Columns(p, base), k, b), EveryRoot(e, p.m), p.r, l))
    requires Placed(after, Cells(p, base), k, l, b, TwiddledCell(middle, Cells(p, base), e, p.mb, k, l, b))
    ensures Placed(after, Cells(p, base), k, l, b, DifCell(before, p, base, e, k, l, b))
  {
    hide Mul, Cells, Columns;
  }

  // ---- The whole problem and its children ----

  /** A vector of v transforms of size n = r * m. */
  datatype Problem = Problem(n: int, r: int, m: int, ist: int, ost: int, v: int, ivs: int, ovs: int) {
    ghost predicate Valid() {
      1 < r && 1 <= m && n == r * m && 0 <= v
    }
  }

  /** A child problem: transforms of size n with two vector dimensions. */
  datatype Child = Child(n: int, ist: int, ost: int, u: int, ius: int, ous: int, v: int, ivs: int, ovs: int)

  function Inputs(c: Child, base: int): Addr {
    (k, a, b) => base + k * c.ist + a * c.ius + b * c.ivs
  }

  function Outputs(c: Child, base: int): Addr {
    (k, a, b) => base + k * c.ost + a * c.ous + b * c.ovs
  }

  function Whole(p: Problem): Child {
    Child(p.n, p.ist, p.ost, 1, 0, 0, p.v, p.ivs, p.ovs)
  }

  /** mkplan, case DECDIT. */
  function DitTwiddle(p: Problem): Dftw {
    Dftw(p.r, p.m * p.ost, p.m, 0, p.m, p.ost, p.v, p.ovs)
  }

  function DitChild(p: Problem): Child {
    Child(p.m, p.r * p.ist, p.ost, p.r, p.ist, p.m * p.ost, p.v, p.ivs, p.ovs)
  }

  /** mkplan, case DECDIF. */
  function DifTwiddle(p: Problem): Dftw {
    Dftw(p.r, p.m * p.ist, p.m, 0, p.m, p.ist, p.v, p.ivs)
  }

  function DifChild(p: Problem): Child {
    Child(p.m, p.ist, p.r * p.ost, p.r, p.m * p.ist, p.ost, p.v, p.ivs, p.ovs)
  }

  lemma DitStrides(p: Problem, i0: int, o0: int, j: int, i: int, k: int, l: int, b: int)
    ensures Inputs(DitChild(p), i0)(j, i, b) == Inputs(Whole(p), i0)(p.r * j + i, 0, b)
    ensures Outputs(DitChild(p), o0)(k, i, b) == Outputs(Whole(p), o0)(p.m * i + k, 0, b)
    ensures Cells(DitTwiddle(p), o0)(k, i, b) == Outputs(Whole(p), o0)(p.m * i + k, 0, b)
    ensures Columns(DitTwiddle(p), o0)(l, k, b) == Outputs(Whole(p), o0)(p.m * l + k, 0, b)
  {
    MulDistributes(p.r, j, i, p.ist);
    MulDistributes(p.m, i, k, p.ost);
    MulDistributes(p.m, l, k, p.ost);
    ColumnsAreCells(DitTwiddle(p), o0);
    assert Cells(DitTwiddle(p), o0)(k, i, b) == o0 + p.ovs * b + p.ost * k + (p.m * p.ost) * i;
    assert Cells(DitTwiddle(p), o0)(k, l, b) == o0 + p.ovs * b + p.ost * k + (p.m * p.ost) * l;
  }

  lemma DifStrides(p: Problem, i0: int, o0: int, k: int, i: int, l: int, q: int, b: int)
    ensures Columns(DifTwiddle(p), i0)(i, k, b) == Inputs(Whole(p), i0)(p.m * i + k, 0, b)
    ensures Cells(DifTwiddle(p), i0)(k, i, b) == Inputs(Whole(p), i0)(p.m * i + k, 0, b)
    ensures Inputs(DifChild(p), i0)(k, l, b) == Cells(DifTwiddle(p), i0)(k, l, b)
    ensures Outputs(DifChild(p), o0)(q, l, b) == Outputs(Whole(p), o0)(p.r * q + l, 0, b)
  {
    MulDistributes(p.m, i, k, p.ist);
    MulDistributes(p.r, q, l, p.ost);
    ColumnsAreCells(DifTwiddle(p), i0);
    assert Cells(DifTwiddle(p), i0)(k, i, b) == i0 + p.ivs * b + p.ist * k + (p.m * p.ist) * i;
    assert Cells(DifTwiddle(p), i0)(k, l, b) == i0 + p.ivs * b + p.ist * k + (p.m * p.ist) * l;
  }

  lemma MulDistributes(a: int, x: int, y: int, s: int)
    ensures (a * x + y) * s == x * (a * s) + y * s && (a * s) * x == x * (a * s)
  {
    assert (a * x) * s == x * (a * s);
  }

  // ---- Correctness of the two orders ----

  /** The strides of mkplan address the children's data inside the whole problem's data. */
  lemma DitFits(p: Problem, o0: int, len: int)
    requires p.Valid() && Grid.Fits(len, Outputs(Whole(p), o0), p.n, 1, p.v) && Grid.Apart(Outputs(Whole(p), o0), p.n, 1, p.v)
    ensures Grid.Fits(len, Outputs(DitChild(p), o0), p.m, p.r, p.v) && Grid.Apart(Outputs(DitChild(p), o0), p.m, p.r, p.v)
    ensures Grid.Fits(len, Cells(DitTwiddle(p), o0), p.m, p.r, p.v) && Grid.Apart(Cells(DitTwiddle(p), o0), p.m, p.r, p.v)
    ensures SamePlaces(Outputs(DitChild(p), o0), p.m, p.r, p.v, Outputs(Whole(p), o0), p.n, 1, p.v)
    ensures SamePlaces(Columns(DitTwiddle(p), o0), p.r, p.m, p.v, Outputs(Whole(p), o0), p.n, 1, p.v)
  {
    hide Outputs, Cells, Columns;
    var P := Outputs(Whole(p), o0);
    forall k, l, b
      ensures Outputs(DitChild(p), o0)(k, l, b) == P(p.m * l + k, 0, b)
      ensures Cells(DitTwiddle(p), o0)(k, l, b) == P(p.m * l + k, 0, b)
      ensures Columns(DitTwiddle(p), o0)(l, k, b) == P(p.m * l + k, 0, b)
    {
      DitStrides(p, 0, o0, 0, l, k, l, b);
    }
    FoldedTransposed(P, Outputs(DitChild(p), o0), len, p.n, p.r, p.m, p.v);
    FoldedTransposed(P, Cells(DitTwiddle(p), o0), len, p.n, p.r, p.m, p.v);
    FoldedGrid(P, Columns(DitTwiddle(p), o0), len, p.n, p.r, p.m, p.v);
  }

  lemma DitInputs(p: Problem, i0: int, len: int)
    requires p.Valid() && Grid.Fits(len, Inputs(Whole(p), i0), p.n, 1, p.v)
    ensures Grid.Fits(len, Inputs(DitChild(p), i0), p.m, p.r, p.v)
  {
    hide Inputs;
    forall j, i, b | In(p.m, p.r, p.v, j, i, b) ensures 0 <= Inputs(DitChild(p), i0)(j, i, b) < len {
      DitStrides(p, i0, 0, j, i, 0, 0, b);
      FoldIndex(p.m, p.r, j, i);
      assert p.m * p.r == p.n;
      assert In(p.n, 1, p.v, p.r * j + i, 0, b);
    }
  }

  /** The b-th input vector of the problem. */
  ghost function Vector(s: seq<C>, p: Problem, i0: int, b: int): int -> C {
    Row(s, Inputs(Whole(p), i0), 0, b)
  }

  /** The specification of the whole plan. */
  ghost function Transformed(s: seq<C>, p: Problem, i0: int, e: int -> C, q: int, b: int): C
    requires 0 <= p.n
  {
    Dft(Vector(s, p, i0, b), e, p.n, q)
  }

  /** The child's input row i is every r-th element of the whole input. */
  lemma DitRow(s: seq<C>, p: Problem, i0: int, e: int -> C, k: int, i: int, b: int)
    requires p.Valid() && 0 <= i < p.r && 0 <= b < p.v
    ensures Dft(Row(s, Inputs(DitChild(p), i0), i, b), EveryRoot(e, p.r), p.m, k)
         == Inner(Vector(s, p, i0, b), e, p.r, p.m, i, k)
  {
    hide Mul, Inputs;
    forall j | 0 <= j < p.m
      ensures Row(s, Inputs(DitChild(p), i0), i, b)(j) == Every(Vector(s, p, i0, b), p.r, i)(j)
    {
      DitStrides(p, i0, 0, j, i, 0, 0, b);
    }
    DftCong(Row(s, Inputs(DitChild(p), i0), i, b), Every(Vector(s, p, i0, b), p.r, i), EveryRoot(e, p.r), p.m, k);
  }

  /** After the child, each cell holds an inner transform; after twiddling, a twiddled one. */
  lemma DitCellValue(s: seq<C>, middle: seq<C>, p: Problem, i0: int, o0: int, e: int -> C, k: int, i: int, b: int)
    requires p.Valid() && In(p.m, p.r, p.v, k, i, b)
    requires Placed(middle, Outputs(DitChild(p), o0), k, i, b,
                    Dft(Row(s, Inputs(DitChild(p), i0), i, b), EveryRoot(e, p.r), p.m, k))
    ensures TwiddledCell(middle, Cells(DitTwiddle(p), o0), e, 0, k, i, b)
         == Twiddled(Vector(s, p, i0, b), e, p.r, p.m, i, k)
  {
    hide Mul, Inputs, Outputs, Cells, DitChild, DitTwiddle, Whole, Vector, Inner;
    DitRow(s, p, i0, e, k, i, b);
    DitStrides(p, i0, o0, 0, i, k, 0, b);
    assert -((0 + k) * i) == -(k * i);
  }

  lemma DitColumnValue(s: seq<C>, middle: seq<C>, p: Problem, i0: int, o0: int, e: int -> C, l: int, k: int, b: int)
    requires p.Valid() && IsRoot(e, p.n) && In(p.r, p.m, p.v, l, k, b)
    requires forall i :: In(p.m, p.r, p.v, k, i, b) ==>
      TwiddledCell(middle, Cells(DitTwiddle(p), o0), e, 0, k, i, b) == Twiddled(Vector(s, p, i0, b), e, p.r, p.m, i, k)
    ensures DitColumn(middle, DitTwiddle(p), o0, e, l, k, b) == Transformed(s, p, i0, e, p.m * l + k, b)
  {
    hide Mul, Inputs, Outputs, Cells, Twiddled, TwiddledCell, EveryRoot, Vector, Dft, IsRoot;
    var x := Vector(s, p, i0, b);
    var f := i => TwiddledCell(middle, Cells(DitTwiddle(p), o0), e, 0, k, i, b);
    var g := i => Twiddled(x, e, p.r, p.m, i, k);
    forall i | 0 <= i < p.r ensures f(i) == g(i) {
      assert In(p.m, p.r, p.v, k, i, b);
    }
    DftCong(f, g, EveryRoot(e, p.m), p.r, l);
    TwoStep(x, e, p.r, p.m, p.n, k, l);
    DftCong(f, i => TwiddledCell(middle, Cells(DitTwiddle(p), o0), e, DitTwiddle(p).mb, k, i, b), EveryRoot(e, p.m), p.r, l);
    DftCong(g, i => Twiddled(x, e, p.r, p.m, i, k), EveryRoot(e, p.m), p.r, l);
  }

  /** dft/ct.c, apply_dit. */
  method ApplyDit(p: Problem, W: array<real>, e: int -> C, input: array<C>, i0: int, output: array<C>, o0: int)
    requires p.Valid() && IsRoot(e, p.n) && IsTable(Pairs(W[..]), FullTwiddle(e), p.r, p.m)
    requires Grid.Fits(input.Length, Inputs(Whole(p), i0), p.n, 1, p.v)
    requires Grid.Fits(output.Length, Outputs(Whole(p), o0), p.n, 1, p.v) && Grid.Apart(Outputs(Whole(p), o0), p.n, 1, p.v)
    modifies output
    ensures Written(old(output[..]), output[..], Outputs(Whole(p), o0), p.n, 1, p.v,
                    (q, a, b) => Transformed(old(input[..]), p, i0, e, q, b))
  {
    hide Mul, Inputs, Outputs, Cells, Columns, IsTable, Grid.Fits, Grid.Apart, Written;
    ghost var before, s := output[..], input[..];
    DitFits(p, o0, output.Length);
    DitInputs(p, i0, input.Length);
    ghost var table := Pairs(W[..]);
    SolveDfts(p.m, p.r, p.v, EveryRoot(e, p.r), input, Inputs(DitChild(p), i0), output, Outputs(DitChild(p), o0));
    assert Pairs(W[..]) == table;
    ghost var middle := output[..];
    DftwDit(DitTwiddle(p), W, output, o0, e, p.n);
    DitAssembled(s, before, middle, output[..], p, i0, o0, e);
  }

  lemma DitAssembled(s: seq<C>, before: seq<C>, middle: seq<C>, after: seq<C>, p: Problem, i0: int, o0: int, e: int -> C)
    requires p.Valid() && IsRoot(e, p.n)
    requires Grid.Fits(|before|, Outputs(Whole(p), o0), p.n, 1, p.v) && Grid.Apart(Outputs(Whole(p), o0), p.n, 1, p.v)
    requires Written(before, middle, Outputs(DitChild(p), o0), p.m, p.r, p.v,
                     (k, i, b) => Dft(Row(s, Inputs(DitChild(p), i0), i, b), EveryRoot(e, p.r), p.m, k))
    requires Written(middle, after, Columns(DitTwiddle(p), o0), p.r, p.m, p.v,
                     (l, k, b) => DitColumn(middle, DitTwiddle(p), o0, e, l, k, b))
    ensures Written(before, after, Outputs(Whole(p), o0), p.n, 1, p.v, (q, a, b) => Transformed(s, p, i0, e, q, b))
  {
    hide Mul, Inputs, Outputs, Cells, Columns, Dft, Row, EveryRoot, Transformed, DitColumn, SameElsewhere, Twiddled, TwiddledCell;
    var P := Outputs(Whole(p), o0);
    DitFits(p, o0, |before|);
    SameThrough(before, middle, middle, Outputs(DitChild(p), o0), p.m, p.r, p.v, P, p.n, 1, p.v) by {
      SameRefl(middle, P, p.n, 1, p.v);
    }
    SameThrough(before, middle, after, P, p.n, 1, p.v, Columns(DitTwiddle(p), o0), p.r, p.m, p.v);
    forall q, a, b | In(p.n, 1, p.v, q, a, b) ensures Placed(after, P, q, a, b, Transformed(s, p, i0, e, q, b)) {
      UnfoldIndex(p.r, p.m, q);
      var l, k := q / p.m, q % p.m;
      assert In(p.r, p.m, p.v, l, k, b);
      forall i | In(p.m, p.r, p.v, k, i, b)
        ensures TwiddledCell(middle, Cells(DitTwiddle(p), o0), e, 0, k, i, b) == Twiddled(Vector(s, p, i0, b), e, p.r, p.m, i, k)
      {
        DitCellValue(s, middle, p, i0, o0, e, k, i, b);
      }
      DitColumnValue(s, middle, p, i0, o0, e, l, k, b);
      DitStrides(p, i0, o0, 0, 0, k, l, b);
      assert Placed(after, Columns(DitTwiddle(p), o0), l, k, b, DitColumn(middle, DitTwiddle(p), o0, e, l, k, b));
    }
  }

  // ---- Decimation in frequency ----

  lemma DifFits(p: Problem, i0: int, len: int)
    requires p.Valid() && Grid.Fits(len, Inputs(Whole(p), i0), p.n, 1, p.v) && Grid.Apart(Inputs(Whole(p), i0), p.n, 1, p.v)
    ensures Grid.Fits(len, Cells(DifTwiddle(p), i0), p.m, p.r, p.v) && Grid.Apart(Cells(DifTwiddle(p), i0), p.m, p.r, p.v)
    ensures SamePlaces(Cells(DifTwiddle(p), i0), p.m, p.r, p.v, Inputs(Whole(p), i0), p.n, 1, p.v)
    ensures Grid.Fits(len, Inputs(DifChild(p), i0), p.m, p.r, p.v)
  {
    hide Inputs, Cells, Columns;
    var P := Inputs(Whole(p), i0);
    forall k, l, b
      ensures Cells(DifTwiddle(p), i0)(k, l, b) == P(p.m * l + k, 0, b)
      ensures Inputs(DifChild(p), i0)(k, l, b) == P(p.m * l + k, 0, b)
    {
      DifStrides(p, i0, 0, k, l, l, 0, b);
    }
    FoldedTransposed(P, Cells(DifTwiddle(p), i0), len, p.n, p.r, p.m, p.v);
    FoldedTransposed(P, Inputs(DifChild(p), i0), len, p.n, p.r, p.m, p.v);
  }

  lemma DifOutputs(p: Problem, o0: int, len: int)
    requires p.Valid() && Grid.Fits(len, Outputs(Whole(p), o0), p.n, 1, p.v) && Grid.Apart(Outputs(Whole(p), o0), p.n, 1, p.v)
    ensures Grid.Fits(len, Outputs(DifChild(p), o0), p.m, p.r, p.v) && Grid.Apart(Outputs(DifChild(p), o0), p.m, p.r, p.v)
    ensures SamePlaces(Outputs(DifChild(p), o0), p.m, p.r, p.v, Outputs(Whole(p), o0), p.n, 1, p.v)
  {
    hide Outputs;
    var P := Outputs(Whole(p), o0);
    forall q, l, b ensures Outputs(DifChild(p), o0)(q, l, b) == P(p.r * q + l, 0, b) {
      DifStrides(p, 0, o0, 0, 0, l, q, b);
    }
    assert p.m * p.r == p.n;
    FoldedGrid(P, Outputs(DifChild(p), o0), len, p.n, p.m, p.r, p.v);
  }

  /** Column k of the whole input is every m-th element of it. */
  lemma DifColumn(s: seq<C>, p: Problem, i0: int, e: int -> C, k: int, l: int, b: int)
    requires p.Valid()
    ensures Dft(Row(s, Columns(DifTwiddle(p), i0), k, b), EveryRoot(e, p.m), p.r, l)
         == Inner(Vector(s, p, i0, b), e, p.m, p.r, k, l)
  {
    hide Mul, Inputs, Columns, EveryRoot;
    var f, g := Row(s, Columns(DifTwiddle(p), i0), k, b), Every(Vector(s, p, i0, b), p.m, k);
    forall i | 0 <= i < p.r ensures f(i) == g(i) {
      DifStrides(p, i0, 0, k, i, l, 0, b);
    }
    DftCong(f, g, EveryRoot(e, p.m), p.r, l);
  }

  lemma DifCellValue(s: seq<C>, p: Problem, i0: int, e: int -> C, k: int, l: int, b: int)
    requires p.Valid()
    ensures DifCell(s, DifTwiddle(p), i0, e, k, l, b) == Twiddled(Vector(s, p, i0, b), e, p.m, p.r, k, l)
  {
    hide Mul, Dft, Inner, Row, Vector, EveryRoot, Columns;
    DifColumn(s, p, i0, e, k, l, b);
    assert (0 + k) * l == l * k;
  }

  lemma DifOuter(x: int -> C, p: Problem, e: int -> C, f: int -> C, q: int, l: int)
    requires p.Valid() && IsRoot(e, p.n)
    requires forall k :: 0 <= k < p.m ==> f(k) == Twiddled(x, e, p.m, p.r, k, l)
    ensures Dft(f, EveryRoot(e, p.r), p.m, q) == Dft(x, e, p.n, p.r * q + l)
  {
    hide Mul, Twiddled, EveryRoot;
    DftCong(f, k => Twiddled(x, e, p.m, p.r, k, l), EveryRoot(e, p.r), p.m, q);
    assert p.n == p.m * p.r;
    TwoStep(x, e, p.m, p.r, p.n, l, q);
  }

  /** The child transforms the twiddled columns into the outputs of the whole problem. */
  lemma DifRowValue(s: seq<C>, middle: seq<C>, p: Problem, i0: int, e: int -> C, q: int, l: int, b: int)
    requires p.Valid() && IsRoot(e, p.n) && In(p.m, p.r, p.v, q, l, b)
    requires forall k :: In(p.m, p.r, p.v, k, l, b) ==>
      Placed(middle, Cells(DifTwiddle(p), i0), k, l, b, Twiddled(Vector(s, p, i0, b), e, p.m, p.r, k, l))
    ensures Dft(Row(middle, Inputs(DifChild(p), i0), l, b), EveryRoot(e, p.r), p.m, q)
         == Transformed(s, p, i0, e, p.r * q + l, b)
  {
    hide Mul, Inputs, Cells, Twiddled, EveryRoot, Vector, Dft;
    var x := Vector(s, p, i0, b);
    var f := Row(middle, Inputs(DifChild(p), i0), l, b);
    forall k | 0 <= k < p.m ensures f(k) == Twiddled(x, e, p.m, p.r, k, l) {
      assert In(p.m, p.r, p.v, k, l, b);
      DifStrides(p, i0, 0, k, 0, l, 0, b);
    }
    DifOuter(x, p, e, f, q, l);
  }

  /** Only outputs have changed, or, in place, only inputs and outputs. */
  ghost predicate SameOutside(before: seq<C>, after: seq<C>, p: Problem, i0: int, o0: int, inPlace: bool) {
    && |after| == |before|
    && forall t :: 0 <= t < |before| ==>
         Touches(Outputs(Whole(p), o0), p.n, 1, p.v, t) ||
         (inPlace && Touches(Inputs(Whole(p), i0), p.n, 1, p.v, t)) ||
         after[t] == before[t]
  }

  /** dft/ct.c, apply_dif.  The input is destroyed. */
  method ApplyDif(p: Problem, W: array<real>, e: int -> C, input: array<C>, i0: int, output: array<C>, o0: int)
    requires p.Valid() && IsRoot(e, p.n) && IsTable(Pairs(W[..]), FullTwiddle(e), p.r, p.m)
    requires Grid.Fits(input.Length, Inputs(Whole(p), i0), p.n, 1, p.v) && Grid.Apart(Inputs(Whole(p), i0), p.n, 1, p.v)
    requires Grid.Fits(output.Length, Outputs(Whole(p), o0), p.n, 1, p.v) && Grid.Apart(Outputs(Whole(p), o0), p.n, 1, p.v)
    modifies input, output
    ensures forall q, b :: In(p.n, 1, p.v, q, 0, b) ==>
      Placed(output[..], Outputs(Whole(p), o0), q, 0, b, Transformed(old(input[..]), p, i0, e, q, b))
    ensures SameOutside(old(output[..]), output[..], p, i0, o0, input == output)
    ensures input != output ==> SameElsewhere(old(input[..]), input[..], Inputs(Whole(p), i0), p.n, 1, p.v)
  {
    hide Mul, Inputs, Outputs, Cells, Columns, IsTable, Grid.Fits, Grid.Apart, Written, SameElsewhere;
    ghost var s, t := input[..], output[..];
    DifFits(p, i0, input.Length);
    DifOutputs(p, o0, output.Length);
    DftwDif(DifTwiddle(p), W, input, i0, e, p.n);
    ghost var middle, before := input[..], output[..];
    SolveDfts(p.m, p.r, p.v, EveryRoot(e, p.r), input, Inputs(DifChild(p), i0), output, Outputs(DifChild(p), o0));
    DifAssembled(s, middle, before, output[..], p, i0, o0, e);
    DifElsewhere(s, middle, before, output[..], t, p, i0, o0, e, input == output);
    if input != output {
      assert input[..] == middle;
    }
  }

  lemma DifAssembled(s: seq<C>, middle: seq<C>, before: seq<C>, after: seq<C>, p: Problem, i0: int, o0: int, e: int -> C)
    requires p.Valid() && IsRoot(e, p.n)
    requires Written(s, middle, Cells(DifTwiddle(p), i0), p.m, p.r, p.v,
                     (k, l, b) => DifCell(s, DifTwiddle(p), i0, e, k, l, b))
    requires Written(before, after, Outputs(DifChild(p), o0), p.m, p.r, p.v,
                     (q, l, b) => Dft(Row(middle, Inputs(DifChild(p), i0), l, b), EveryRoot(e, p.r), p.m, q))
    ensures forall q, b :: In(p.n, 1, p.v, q, 0, b) ==>
      Placed(after, Outputs(Whole(p), o0), q, 0, b, Transformed(s, p, i0, e, q, b))
  {
    hide Mul, Inputs, Outputs, Cells, Columns, Dft, Row, EveryRoot, Transformed, DifCell, SameElsewhere, Twiddled, Placed;
    forall q, b | In(p.n, 1, p.v, q, 0, b)
      ensures Placed(after, Outputs(Whole(p), o0), q, 0, b, Transformed(s, p, i0, e, q, b))
    {
      assert p.n == p.m * p.r;
      UnfoldIndex(p.m, p.r, q);
      var t, l := q / p.r, q % p.r;
      assert In(p.m, p.r, p.v, t, l, b);
      forall k | In(p.m, p.r, p.v, k, l, b)
        ensures Placed(middle, Cells(DifTwiddle(p), i0), k, l, b, Twiddled(Vector(s, p, i0, b), e, p.m, p.r, k, l))
      {
        DifCellValue(s, p, i0, e, k, l, b);
        assert Placed(middle, Cells(DifTwiddle(p), i0), k, l, b, DifCell(s, DifTwiddle(p), i0, e, k, l, b));
      }
      DifRowValue(s, middle, p, i0, e, t, l, b);
      DifStrides(p, i0, o0, 0, 0, l, t, b);
      var c := Transformed(s, p, i0, e, q, b);
      assert Placed(after, Outputs(DifChild(p), o0), t, l, b, c);
      MovePlaced(after, Outputs(DifChild(p), o0), t, l, b, Outputs(Whole(p), o0), q, 0, b, c);
    }
  }

  lemma MovePlaced(s: seq<C>, A: Addr, k: int, a: int, b: int, B: Addr, k': int, a': int, b': int, c: C)
    requires Placed(s, A, k, a, b, c) && A(k, a, b) == B(k', a', b')
    ensures Placed(s, B, k', a', b', c)
  {}

  lemma DifElsewhere(s: seq<C>, middle: seq<C>, before: seq<C>, after: seq<C>, t: seq<C>, p: Problem, i0: int, o0: int,
                     e: int -> C, same: bool)
    requires p.Valid() && IsRoot(e, p.n) && (if same then before == middle && t == s else before == t)
    requires Grid.Fits(|s|, Inputs(Whole(p), i0), p.n, 1, p.v) && Grid.Apart(Inputs(Whole(p), i0), p.n, 1, p.v)
    requires Grid.Fits(|before|, Outputs(Whole(p), o0), p.n, 1, p.v) && Grid.Apart(Outputs(Whole(p), o0), p.n, 1, p.v)
    requires Written(s, middle, Cells(DifTwiddle(p), i0), p.m, p.r, p.v,
                     (k, l, b) => DifCell(s, DifTwiddle(p), i0, e, k, l, b))
    requires Written(before, after, Outputs(DifChild(p), o0), p.m, p.r, p.v,
                     (q, l, b) => Dft(Row(middle, Inputs(DifChild(p), i0), l, b), EveryRoot(e, p.r), p.m, q))
    ensures SameElsewhere(s, middle, Inputs(Whole(p), i0), p.n, 1, p.v)
    ensures SameOutside(t, after, p, i0, o0, same)
  {
    hide Mul, Inputs, Outputs, Cells, Columns, Dft, Row, EveryRoot, DifCell, Placed, Touches, Grid.Fits, Grid.Apart;
    DifFits(p, i0, |s|);
    DifOutputs(p, o0, |before|);
  }
}
