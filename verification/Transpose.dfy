/** kernel/transpose.c: in-place square transposition, plain, tiled and buffered, of n x n blocks of vl reals. */
module Transpose {
  import opened Blocks
  import opened Copy2d
  import opened Tiling
  import Primes

  /** The n^2 blocks lie in the array and do not meet. */
  ghost predicate Square(g: Grid, len: int) {
    g.n0 == g.n1 && Sound(g, len)
  }

  type Pairs = iset<(int, int)>

  predicate Hits(S: Pairs, i: int, j: int) {
    (i, j) in S || (j, i) in S
  }

  /** The blocks of the pairs in S have been exchanged with their mirror images, and nothing else has changed. */
  ghost predicate Swapped(s: seq<real>, t: seq<real>, g: Grid, S: Pairs) {
    && |t| == |s|
    && (forall i, j, v :: InGrid(g, i, j, v) ==> CellSwapped(s, t, g, S, i, j, v))
    && forall q :: 0 <= q < |s| && !Touches(g, q) ==> t[q] == s[q]
  }

  ghost predicate CellSwapped(s: seq<real>, t: seq<real>, g: Grid, S: Pairs, i: int, j: int, v: int) {
    var c, d := Cell(g, i, j, v), Cell(g, j, i, v);
    0 <= c < |s| && 0 <= d < |s| && c < |t| && t[c] == if Hits(S, i, j) then s[d] else s[c]
  }

  /** No block is exchanged twice. */
  ghost predicate Separate(S: Pairs, T: Pairs) {
    forall i, j :: Hits(S, i, j) ==> !Hits(T, i, j)
  }

  /** Exchanging S and then T. */
  lemma SwapBoth(s: seq<real>, t: seq<real>, u: seq<real>, g: Grid, S: Pairs, T: Pairs)
    requires g.n0 == g.n1 && Swapped(s, t, g, S) && Swapped(t, u, g, T) && Separate(S, T)
    ensures Swapped(s, u, g, S + T)
  {
    hide Cell, Touches;
    forall i, j, v | InGrid(g, i, j, v) ensures CellSwapped(s, u, g, S + T, i, j, v) {
      assert InGrid(g, j, i, v);
      assert CellSwapped(s, t, g, S, i, j, v) && CellSwapped(s, t, g, S, j, i, v) && CellSwapped(t, u, g, T, i, j, v);
      assert Hits(S + T, i, j) <==> Hits(S, i, j) || Hits(T, i, j);
    }
  }

  lemma SwapNone(s: seq<real>, g: Grid)
    requires Fits(g, |s|) && g.n0 == g.n1
    ensures Swapped(s, s, g, iset{})
  {
    hide Cell;
    forall i, j, v | InGrid(g, i, j, v) ensures CellSwapped(s, s, g, iset{}, i, j, v) {
      assert InGrid(g, j, i, v);
    }
  }

  // ---- One pair of blocks ----

  lemma SwapOne(s: seq<real>, t: seq<real>, g: Grid, v: nat, i: int, j: int)
    requires Square(g, |s|) && 0 <= i < g.n0 && 0 <= j < g.n0 && i != j && v < g.vl
    requires Swapped(s, t, g.(vl := v), iset{(i, j)})
    ensures 0 <= Cell(g, i, j, v) < |s| && 0 <= Cell(g, j, i, v) < |s|
    ensures var c, d := Cell(g, i, j, v), Cell(g, j, i, v);
            Swapped(s, t[c := t[d]][d := t[c]], g.(vl := v + 1), iset{(i, j)})
  {
    assert InGrid(g, i, j, v) && InGrid(g, j, i, v);
    var c, d := Cell(g, i, j, v), Cell(g, j, i, v);
    var h, h' := g.(vl := v), g.(vl := v + 1);
    var u := t[c := t[d]][d := t[c]];
    SameCells(g, v);
    hide Cell, Touches;
    forall k, l, w | InGrid(h', k, l, w) ensures CellSwapped(s, u, h', iset{(i, j)}, k, l, w) {
      assert InGrid(g, k, l, w) && InGrid(g, l, k, w);
      if w < v { assert CellSwapped(s, t, h, iset{(i, j)}, k, l, w); }
    }
    forall q | 0 <= q < |s| && !Touches(h', q) ensures u[q] == s[q] {
      assert InGrid(h', i, j, v) && InGrid(h', j, i, v);
    }
  }

  /** Shorter blocks lie at the same places. */
  lemma SameCells(g: Grid, v: nat)
    ensures forall i, j, w :: Cell(g.(vl := v), i, j, w) == Cell(g, i, j, w) == Cell(g.(vl := v + 1), i, j, w)
  {}

  /** Exchange block (i1, i0) with block (i0, i1). */
  method SwapBlocks(I: array<real>, g: Grid, i0: int, i1: int)
    requires Square(g, I.Length) && 0 <= i0 < g.n0 && 0 <= i1 < g.n0 && i0 != i1
    modifies I
    ensures Swapped(old(I[..]), I[..], g, iset{(i0, i1)})
  {
    hide Cell, Swapped, Apart, Fits;
    ghost var s := I[..];
    NoCells(s, g, iset{(i0, i1)});
    var v := 0;
    while v < g.vl
      invariant 0 <= v <= g.vl && Swapped(s, I[..], g.(vl := v), iset{(i0, i1)})
    {
      SwapOne(s, I[..], g, v, i0, i1);
      var c, d := Cell(g, i0, i1, v), Cell(g, i1, i0, v);
      var x, y := I[d], I[c];
      I[c] := x;
      I[d] := y;
      v := v + 1;
    }
    assert g.(vl := v) == g;
  }

  lemma NoCells(s: seq<real>, g: Grid, S: Pairs)
    ensures Swapped(s, s, g.(vl := 0), S)
  {}

  // ---- Regions ----

  /** The pairs of a tile. */
  ghost function Rect(t: Tile): Pairs {
    iset p: (int, int) | Inside(t, p.0, p.1)
  }

  /** The rows of a tile before i1, and row i1 before i0. */
  ghost function Rows(t: Tile, i0: int, i1: int): Pairs {
    iset p: (int, int) | Inside(t, p.0, p.1) && (p.1 < i1 || (p.1 == i1 && p.0 < i0))
  }

  /** The pairs above the diagonal whose smaller index is below m. */
  ghost function Wedge(m: int, n: int): Pairs {
    iset p: (int, int) | 0 <= p.0 < m && p.0 < p.1 < n
  }

  ghost function Triangle(n: int): Pairs {
    Wedge(n, n)
  }

  ghost function Lower(i0: int, i1: int): Pairs {
    iset p: (int, int) | 0 <= p.0 < p.1 && (p.1 < i1 || (p.1 == i1 && p.0 < i0))
  }

  /** The diagonal is not crossed: x < y in every pair. */
  predicate OffDiagonal(t: Tile) {
    t.n0u <= t.n1l
  }

  lemma RowsStep(t: Tile, i0: int, i1: int)
    requires Inside(t, i0, i1) && OffDiagonal(t)
    ensures Rows(t, i0 + 1, i1) == Rows(t, i0, i1) + iset{(i0, i1)} && Separate(Rows(t, i0, i1), iset{(i0, i1)})
  {}

  lemma RowsEnds(t: Tile, i1: int)
    ensures Rows(t, t.n0l, t.n1l) == iset{} && Rows(t, t.n0u, i1) == Rows(t, t.n0l, i1 + 1)
    ensures Rows(t, t.n0l, t.n1u) == Rect(t)
  {}

  lemma LowerStep(i0: int, i1: int)
    requires 0 <= i0 < i1
    ensures Lower(i0 + 1, i1) == Lower(i0, i1) + iset{(i0, i1)} && Separate(Lower(i0, i1), iset{(i0, i1)})
  {}

  lemma LowerEnds(i1: int, n: int)
    ensures Lower(0, 1) == iset{} && Lower(i1, i1) == Lower(0, i1 + 1)
    ensures Lower(0, n) == Triangle(n)
  {}

  // ---- The simple form ----

  /** transpose: the double loop exchanges every block below the diagonal with its mirror image. */
  method Simple(I: array<real>, g: Grid)
    requires Square(g, I.Length)
    modifies I
    ensures Swapped(old(I[..]), I[..], g, Triangle(g.n0))
  {
    hide Swapped, Apart, Fits, Lower, Triangle, Separate;
    ghost var s := I[..];
    SwapNone(s, g);
    LowerEnds(1, g.n0);
    var i1 := 1;
    while i1 < g.n0
      invariant 1 <= i1 && Swapped(s, I[..], g, Lower(0, i1))
      invariant i1 <= g.n0 || i1 == 1
    {
      var i0 := 0;
      while i0 < i1
        invariant 0 <= i0 <= i1 && Swapped(s, I[..], g, Lower(i0, i1))
      {
        ghost var t := I[..];
        SwapBlocks(I, g, i0, i1);
        LowerStep(i0, i1);
        SwapBoth(s, t, I[..], g, Lower(i0, i1), iset{(i0, i1)});
        i0 := i0 + 1;
      }
      LowerEnds(i1, g.n0);
      i1 := i1 + 1;
    }
    LowerSmall(i1, g.n0);
  }

  lemma LowerSmall(i1: int, n: int)
    requires i1 == n || (i1 == 1 && n <= 1)
    ensures Lower(0, i1) == Triangle(n)
  {}

  // ---- Tiles ----

  /** dotile */
  method DoTile(I: array<real>, g: Grid, t: Tile)
    requires Square(g, I.Length) && Proper(t) && OffDiagonal(t) && t.n1u <= g.n0
    modifies I
    ensures Swapped(old(I[..]), I[..], g, Rect(t))
  {
    hide Swapped, Apart, Fits, Rows, Rect, Separate;
    ghost var s := I[..];
    SwapNone(s, g);
    RowsEnds(t, 0);
    var i1 := t.n1l;
    while i1 < t.n1u
      invariant t.n1l <= i1 <= t.n1u && Swapped(s, I[..], g, Rows(t, t.n0l, i1))
    {
      var i0 := t.n0l;
      while i0 < t.n0u
        invariant t.n0l <= i0 <= t.n0u && Swapped(s, I[..], g, Rows(t, i0, i1))
      {
        ghost var u := I[..];
        SwapBlocks(I, g, i0, i1);
        RowsStep(t, i0, i1);
        SwapBoth(s, u, I[..], g, Rows(t, i0, i1), iset{(i0, i1)});
        i0 := i0 + 1;
      }
      RowsEnds(t, i1);
      i1 := i1 + 1;
    }
  }

  // ---- Buffered tiles ----

  /** dotile_buf: the tile and its mirror image go out to two buffers and come back exchanged. */
  method DoTileBuf(I: array<real>, g: Grid, t: Tile, buf0: array<real>, buf1: array<real>)
    requires Square(g, I.Length) && Proper(t) && OffDiagonal(t) && t.n1u <= g.n0
    requires I != buf0 && I != buf1 && buf0 != buf1 && buf0.Length == buf1.Length
    requires (t.n1u - t.n1l) * (t.n0u - t.n0l) * g.vl <= buf0.Length
    modifies I, buf0, buf1
    ensures Swapped(old(I[..]), I[..], g, Rect(t))
  {
    FlipSound(g, I.Length);
    PieceSound(g, t, I.Length);
    PieceSound(Flip(g), t, I.Length);
    var here, there := Piece(g, t), Piece(Flip(g), t);
    var packed := Packed(t.n0u - t.n0l, t.n1u - t.n1l, g.vl);
    PackedSound(packed.n0, packed.n1, packed.vl, buf0.Length);
    hide Cell, Copied, Swapped, Rect, Apart, Fits;
    ghost var s, e0, e1 := I[..], buf0[..], buf1[..];
    CopyInput(I, buf0, here, packed);
    CopyInput(I, buf1, there, packed);
    CopyOutput(buf1, I, packed, here);
    ghost var u := I[..];
    CopyOutput(buf0, I, packed, there);
    CopyThrough(s, e1, buf1[..], s, u, there, packed, here);
    CopyThrough(s, e0, buf0[..], u, I[..], here, packed, there);
    CopiesSwap(s, u, I[..], g, t);
  }

  /** Copying the mirror image here, and then what was here to the mirror image, exchanges the two. */
  lemma CopiesSwap(s: seq<real>, u: seq<real>, w: seq<real>, g: Grid, t: Tile)
    requires Square(g, |s|) && Proper(t) && OffDiagonal(t) && t.n1u <= g.n0
    requires Copied(s, s, u, Piece(Flip(g), t), Piece(g, t)) && Copied(s, u, w, Piece(g, t), Piece(Flip(g), t))
    ensures Swapped(s, w, g, Rect(t))
  {
    FlipCells(g);
    PieceCells(g, t);
    PieceCells(Flip(g), t);
    hide Cell, Piece, Flip, Fits, Apart, CellCopied;
    forall i, j, v | InGrid(g, i, j, v) ensures CellSwapped(s, w, g, Rect(t), i, j, v) {
      InBounds(g, |s|, i, j, v);
      assert InGrid(g, j, i, v);
      InBounds(g, |s|, j, i, v);
      if Inside(t, i, j) {
        assert CellCopied(s, u, Piece(Flip(g), t), Piece(g, t), i - t.n0l, j - t.n1l, v);
        NotInMirror(g, t, |s|, i, j, v);
        CopiedValue(s, u, Piece(Flip(g), t), Piece(g, t), i - t.n0l, j - t.n1l, v);
      } else if Inside(t, j, i) {
        assert CellCopied(s, w, Piece(g, t), Piece(Flip(g), t), j - t.n0l, i - t.n1l, v);
        CopiedValue(s, w, Piece(g, t), Piece(Flip(g), t), j - t.n0l, i - t.n1l, v);
      } else {
        NotInTile(g, t, |s|, i, j, v);
        NotInMirror(g, t, |s|, i, j, v);
      }
    }
    forall q | 0 <= q < |s| && !Touches(g, q) ensures w[q] == s[q] {
      PieceTouches(g, t, q);
    }
  }

  lemma InBounds(g: Grid, len: int, i: int, j: int, v: int)
    requires Fits(g, len) && InGrid(g, i, j, v)
    ensures 0 <= Cell(g, i, j, v) < len
  {}

  lemma CopiedValue(I: seq<real>, O: seq<real>, src: Grid, dst: Grid, i: int, j: int, v: int)
    requires CellCopied(I, O, src, dst, i, j, v)
    ensures 0 <= Cell(src, i, j, v) < |I| && 0 <= Cell(dst, i, j, v) < |O| && O[Cell(dst, i, j, v)] == I[Cell(src, i, j, v)]
  {}

  lemma NotInTile(g: Grid, t: Tile, len: int, i: int, j: int, v: int)
    requires Square(g, len) && TileOf(t, g) && InGrid(g, i, j, v) && !Inside(t, i, j)
    ensures !Touches(Piece(g, t), Cell(g, i, j, v))
  {
    PieceCells(g, t);
    hide Cell, Piece;
  }

  lemma NotInMirror(g: Grid, t: Tile, len: int, i: int, j: int, v: int)
    requires Square(g, len) && TileOf(t, g) && InGrid(g, i, j, v) && !Inside(t, j, i)
    ensures !Touches(Piece(Flip(g), t), Cell(g, i, j, v))
  {
    FlipCells(g);
    PieceCells(Flip(g), t);
    hide Cell, Piece, Flip;
  }

  lemma PieceTouches(g: Grid, t: Tile, q: int)
    requires g.n0 == g.n1 && TileOf(t, g) && !Touches(g, q)
    ensures !Touches(Piece(g, t), q) && !Touches(Piece(Flip(g), t), q)
  {
    FlipCells(g);
    PieceCells(g, t);
    PieceCells(Flip(g), t);
    hide Cell, Piece, Flip;
  }

  // ---- The recursive forms ----

  /** The pairs in the tiles before k. */
  ghost function Done(tiles: seq<Tile>, k: nat): Pairs
    requires k <= |tiles|
  {
    iset p: (int, int) | exists m :: 0 <= m < k && Inside(tiles[m], p.0, p.1)
  }

  /** The rectangle of the pairs with one index below m and the other not. */
  function Corner(m: int, n: int): Tile {
    Tile(0, m, m, n)
  }

  lemma DoneStep(tiles: seq<Tile>, k: nat, whole: Tile)
    requires Partition(tiles, whole) && OffDiagonal(whole) && k < |tiles|
    ensures OffDiagonal(tiles[k])
    ensures Done(tiles, k + 1) == Done(tiles, k) + Rect(tiles[k]) && Separate(Done(tiles, k), Rect(tiles[k]))
  {
    forall i, j ensures Hits(Done(tiles, k), i, j) ==> !Hits(Rect(tiles[k]), i, j) {
      forall m | 0 <= m < k ensures !Overlap(tiles[m], tiles[k]) {}
      forall m | 0 <= m < k
        ensures !(Inside(tiles[m], i, j) && Inside(tiles[k], i, j)) && !(Inside(tiles[m], j, i) && Inside(tiles[k], j, i))
      {
        assert !Overlap(tiles[m], tiles[k]);
      }
    }
  }

  lemma DoneAll(tiles: seq<Tile>, whole: Tile)
    requires Partition(tiles, whole)
    ensures Done(tiles, 0) == iset{} && Done(tiles, |tiles|) == Rect(whole)
  {
    forall p: (int, int) ensures p in Done(tiles, |tiles|) <==> p in Rect(whole) {
      var c := Covered(tiles, p.0, p.1);
    }
  }

  /** tile2d over the corner, exchanging each tile with its mirror image. */
  method SwapCorner(I: array<real>, g: Grid, m: int, size: int, buffered: bool, buf0: array<real>, buf1: array<real>)
    requires Square(g, I.Length) && 0 <= m <= g.n0 && 0 < size
    requires I != buf0 && I != buf1 && buf0 != buf1 && buf0.Length == buf1.Length == BUFSIZE
    requires buffered ==> 0 < g.vl && size * size * g.vl * SIZEOF_R <= CACHESIZE / 2
    modifies I, buf0, buf1
    ensures Swapped(old(I[..]), I[..], g, Rect(Corner(m, g.n0)))
  {
    ghost var s, whole := I[..], Corner(m, g.n0);
    var tiles := Tile2d(0, m, m, g.n0, size);
    TilesPartition(whole, size);
    SwapNone(s, g);
    DoneAll(tiles, whole);
    hide Swapped, Apart, Fits, Rect, Partition, Done, Tiles, Separate;
    for k := 0 to |tiles|
      invariant Swapped(s, I[..], g, Done(tiles, k))
    {
      ghost var t := I[..];
      DoneStep(tiles, k, whole);
      TileInCorner(tiles, whole, k);
      if buffered {
        TileRoom(tiles[k], size, g.vl);
        DoTileBuf(I, g, tiles[k], buf0, buf1);
      } else {
        DoTile(I, g, tiles[k]);
      }
      SwapBoth(s, t, I[..], g, Done(tiles, k), Rect(tiles[k]));
    }
  }

  lemma TileInCorner(tiles: seq<Tile>, whole: Tile, k: nat)
    requires Partition(tiles, whole) && k < |tiles|
    ensures tiles[k].n1u <= whole.n1u
  {}

  /** h is the square of the last n rows and columns of g, from m on. */
  ghost predicate SubSquare(h: Grid, g: Grid, m: int, n: int) {
    && 0 <= m && m + n <= g.n0 && h.n0 == h.n1 == n && h.vl == g.vl
    && forall i, j, v :: Cell(h, i, j, v) == Cell(g, m + i, m + j, v)
  }

  ghost function Shift(S: Pairs, m: int): Pairs {
    iset p: (int, int) | (p.0 - m, p.1 - m) in S
  }

  ghost predicate InSquare(S: Pairs, n: int) {
    forall p :: p in S ==> 0 <= p.0 < n && 0 <= p.1 < n
  }

  /** Exchanging blocks of a sub-square is exchanging blocks of the whole. */
  lemma SubSwap(s: seq<real>, t: seq<real>, h: Grid, g: Grid, m: int, n: int, S: Pairs)
    requires Square(g, |s|) && SubSquare(h, g, m, n) && InSquare(S, n) && Swapped(s, t, h, S)
    ensures Swapped(s, t, g, Shift(S, m))
  {
    hide Cell;
    forall i, j, v | InGrid(g, i, j, v) ensures CellSwapped(s, t, g, Shift(S, m), i, j, v) {
      InBounds(g, |s|, i, j, v);
      assert InGrid(g, j, i, v);
      InBounds(g, |s|, j, i, v);
      if InGrid(h, i - m, j - m, v) {
        assert CellSwapped(s, t, h, S, i - m, j - m, v);
        SubCell(h, g, m, n, i, j, v);
        SubCell(h, g, m, n, j, i, v);
        assert Hits(Shift(S, m), i, j) <==> Hits(S, i - m, j - m);
      } else {
        OutsideSub(h, g, m, n, |s|, i, j, v);
        assert !Hits(Shift(S, m), i, j) by { assert (i - m, j - m) !in S && (j - m, i - m) !in S; }
      }
    }
    forall q | 0 <= q < |s| && !Touches(g, q) ensures t[q] == s[q] {
      forall i, j, v | InGrid(h, i, j, v) ensures Cell(h, i, j, v) != q {
        assert InGrid(g, m + i, m + j, v);
      }
    }
  }

  lemma SubCell(h: Grid, g: Grid, m: int, n: int, i: int, j: int, v: int)
    requires SubSquare(h, g, m, n)
    ensures Cell(h, i - m, j - m, v) == Cell(g, i, j, v)
  {
    hide Cell;
    assert Cell(h, i - m, j - m, v) == Cell(g, m + (i - m), m + (j - m), v);
  }

  lemma OutsideSub(h: Grid, g: Grid, m: int, n: int, len: int, i: int, j: int, v: int)
    requires Square(g, len) && SubSquare(h, g, m, n) && InGrid(g, i, j, v) && !InGrid(h, i - m, j - m, v)
    ensures !Touches(h, Cell(g, i, j, v))
  {
    hide Cell;
    forall k, l, w | InGrid(h, k, l, w) ensures Cell(h, k, l, w) != Cell(g, i, j, v) {
      assert InGrid(g, m + k, m + l, w);
    }
  }

  lemma SubSound(h: Grid, g: Grid, m: int, n: int, len: int)
    requires Square(g, len) && SubSquare(h, g, m, n)
    ensures Square(h, len)
  {
    hide Cell;
    forall i, j, v | InGrid(h, i, j, v) ensures 0 <= Cell(h, i, j, v) < len { assert InGrid(g, m + i, m + j, v); }
    forall i, j, v, k, l, w | InGrid(h, i, j, v) && InGrid(h, k, l, w) && Cell(h, i, j, v) == Cell(h, k, l, w)
      ensures i == k && j == l && v == w
    {
      assert InGrid(g, m + i, m + j, v) && InGrid(g, m + k, m + l, w);
    }
  }

  lemma SubSquareNext(h: Grid, g: Grid, m: int, n: int, k: int)
    requires SubSquare(h, g, m, n) && 0 <= k <= n
    ensures SubSquare(Part(h, 0, 0, k, k), g, m, k)
    ensures SubSquare(Part(h, k, k, n - k, n - k), g, m + k, n - k)
  {
    var a, b := Part(h, 0, 0, k, k), Part(h, k, k, n - k, n - k);
    forall i, j, v ensures Cell(a, i, j, v) == Cell(g, m + i, m + j, v) {
      PartCell(h, 0, 0, k, k, i, j, v);
      assert Cell(h, i, j, v) == Cell(g, m + i, m + j, v);
    }
    var mk := m + k;
    forall i, j, v ensures Cell(b, i, j, v) == Cell(g, mk + i, mk + j, v) {
      PartCell(h, k, k, n - k, n - k, i, j, v);
      assert Cell(h, k + i, k + j, v) == Cell(g, m + (k + i), m + (k + j), v);
    }
    hide Cell;
  }

  /** What one round of the recursion adds. */
  lemma WedgeStep(m: int, n: int, k: int)
    requires 0 <= m && 0 <= k <= n
    ensures InSquare(Rect(Corner(k, n)), n) && InSquare(Triangle(k), k)
    ensures Separate(Shift(Rect(Corner(k, n)), m), Shift(Triangle(k), m))
  {}

  lemma WedgeEnds(m: int, n: int)
    requires n - 1 <= m <= n
    ensures Wedge(0, n) == iset{} && Wedge(m, n) == Triangle(n)
  {}

  /** The corner of a sub-square, in the indices of the whole. */
  method CornerStep(I: array<real>, h: Grid, ghost g: Grid, ghost m: int, n: int, k: int, size: int, buffered: bool,
                    buf0: array<real>, buf1: array<real>)
    requires Square(g, I.Length) && SubSquare(h, g, m, n) && 0 <= k <= n && 0 < size
    requires I != buf0 && I != buf1 && buf0 != buf1 && buf0.Length == buf1.Length == BUFSIZE
    requires buffered ==> 0 < g.vl && size * size * g.vl * SIZEOF_R <= CACHESIZE / 2
    modifies I, buf0, buf1
    ensures Swapped(old(I[..]), I[..], g, Shift(Rect(Corner(k, n)), m))
  {
    hide Swapped, Apart, Fits, Rect, Shift, Cell, Separate, Wedge, Triangle;
    SubSound(h, g, m, n, I.Length);
    WedgeStep(m, n, k);
    ghost var t := I[..];
    SwapCorner(I, h, k, size, buffered, buf0, buf1);
    SubSwap(t, I[..], h, g, m, n, Rect(Corner(k, n)));
  }

  /** The recursive call: the leading part of a sub-square, in the indices of the whole. */
  method TriangleStep(I: array<real>, h: Grid, ghost g: Grid, ghost m: int, n: int, k: int, size: int, buffered: bool,
                      buf0: array<real>, buf1: array<real>)
    requires Square(g, I.Length) && SubSquare(h, g, m, n) && 0 <= m && 0 <= k < n && 0 < size
    requires I != buf0 && I != buf1 && buf0 != buf1 && buf0.Length == buf1.Length == BUFSIZE
    requires buffered ==> 0 < g.vl && size * size * g.vl * SIZEOF_R <= CACHESIZE / 2
    modifies I, buf0, buf1
    ensures Swapped(old(I[..]), I[..], g, Shift(Triangle(k), m))
    decreases k, 1
  {
    hide Swapped, Apart, Fits, Rect, Shift, Cell, Separate, Wedge, Triangle;
    SubSquareNext(h, g, m, n, k);
    SubSound(Part(h, 0, 0, k, k), g, m, k, I.Length);
    WedgeStep(m, n, k);
    ghost var u := I[..];
    TransposeRec(I, Part(h, 0, 0, k, k), size, buffered, buf0, buf1);
    SubSwap(u, I[..], Part(h, 0, 0, k, k), g, m, k, Triangle(k));
  }

  /** What one round of the recursion exchanges. */
  ghost function Band(m: int, n: int, k: int): Pairs {
    Shift(Rect(Corner(k, n)), m) + Shift(Triangle(k), m)
  }

  lemma BandStep(m: int, n: int, k: int)
    requires 0 <= m && 0 <= k <= n
    ensures Separate(Wedge(m, m + n), Band(m, n, k)) && Wedge(m, m + n) + Band(m, n, k) == Wedge(m + k, m + n)
  {
    var W, B := Wedge(m, m + n), Band(m, n, k);
    forall p: (int, int) ensures p in B <==> m <= p.0 < m + k && p.0 < p.1 < m + n { BandIs(m, n, k, p); }
    assert W + B == Wedge(m + k, m + n);
  }

  lemma BandIs(m: int, n: int, k: int, p: (int, int))
    requires 0 <= m && 0 <= k <= n
    ensures p in Band(m, n, k) <==> m <= p.0 < m + k && p.0 < p.1 < m + n
  {
    assert p in Shift(Rect(Corner(k, n)), m) <==> m <= p.0 < m + k && m + k <= p.1 < m + n;
    assert p in Shift(Triangle(k), m) <==> m <= p.0 < m + k && p.0 < p.1 < m + k;
  }

  /** One turn of transpose_rec before its tail call. */
  method Round(I: array<real>, h: Grid, ghost g: Grid, ghost m: int, n: int, k: int, size: int, buffered: bool,
               buf0: array<real>, buf1: array<real>)
    requires Square(g, I.Length) && SubSquare(h, g, m, n) && 0 <= m && 0 <= k < n && 0 < size
    requires I != buf0 && I != buf1 && buf0 != buf1 && buf0.Length == buf1.Length == BUFSIZE
    requires buffered ==> 0 < g.vl && size * size * g.vl * SIZEOF_R <= CACHESIZE / 2
    modifies I, buf0, buf1
    ensures Swapped(old(I[..]), I[..], g, Band(m, n, k))
    decreases k, 2
  {
    hide Swapped, Apart, Fits, Rect, Shift, Cell, Separate, Wedge, Triangle, SubSquare;
    WedgeStep(m, n, k);
    ghost var s := I[..];
    CornerStep(I, h, g, m, n, k, size, buffered, buf0, buf1);
    ghost var t := I[..];
    TriangleStep(I, h, g, m, n, k, size, buffered, buf0, buf1);
    SwapBoth(s, t, I[..], g, Shift(Rect(Corner(k, n)), m), Shift(Triangle(k), m));
  }

  /** transpose_rec */
  method TransposeRec(I: array<real>, g: Grid, size: int, buffered: bool, buf0: array<real>, buf1: array<real>)
    requires Square(g, I.Length) && 0 <= g.n0 && (g.n0 <= 1 || 0 < size)
    requires I != buf0 && I != buf1 && buf0 != buf1 && buf0.Length == buf1.Length == BUFSIZE
    requires buffered ==> 0 < g.vl && size * size * g.vl * SIZEOF_R <= CACHESIZE / 2
    modifies I, buf0, buf1
    ensures Swapped(old(I[..]), I[..], g, Triangle(g.n0))
    decreases g.n0, 0
  {
    ghost var s := I[..];
    SwapNone(s, g);
    WedgeEnds(g.n0, g.n0);
    var h, n := g, g.n0;
    ghost var m := 0;
    assert SubSquare(h, g, 0, n);
    hide Swapped, Apart, Fits, Separate, Wedge, Triangle, Cell, Part, Band, SubSquare;
    while n > 1
      invariant 0 <= n <= g.n0 && 0 <= m && m + n == g.n0 && (m > 0 ==> n >= 1) && SubSquare(h, g, m, n)
      invariant Swapped(s, I[..], g, Wedge(m, g.n0))
    {
      var k := n / 2;
      SubSquareNext(h, g, m, n, k);
      BandStep(m, n, k);
      ghost var t := I[..];
      Round(I, h, g, m, n, k, size, buffered, buf0, buf1);
      SwapBoth(s, t, I[..], g, Wedge(m, g.n0), Band(m, n, k));
      h, n, m := Part(h, k, k, n - k, n - k), n - k, m + k;
    }
    WedgeEnds(m, g.n0);
  }

  /** transpose_tiled and transpose_tiledbuf leave what the double loop leaves. */
  method Tiled(I: array<real>, g: Grid, buffered: bool)
    requires Square(g, I.Length) && 0 <= g.n0 && 0 < g.vl && (g.n0 <= 1 || g.vl <= 512)
    modifies I
    ensures Swapped(old(I[..]), I[..], g, Triangle(g.n0))
  {
    var size := ComputeTileSize(g.vl, 2);
    TileFitsBuffer(g.vl, size);
    var buf0 := new real[BUFSIZE];
    var buf1 := new real[BUFSIZE];
    TransposeRec(I, g, size, buffered, buf0, buf1);
  }

  /** Having exchanged every pair above the diagonal is being the transpose, and there is only one. */
  lemma TransposeIsExact(s: seq<real>, t: seq<real>, g: Grid)
    requires Square(g, |s|) && Swapped(s, t, g, Triangle(g.n0))
    ensures forall i, j, v :: InGrid(g, i, j, v) ==>
              0 <= Cell(g, i, j, v) < |t| && 0 <= Cell(g, j, i, v) < |s| && t[Cell(g, i, j, v)] == s[Cell(g, j, i, v)]
    ensures forall u :: Swapped(s, u, g, Triangle(g.n0)) ==> u == t
  {
    hide Cell;
    forall i, j, v | InGrid(g, i, j, v)
      ensures 0 <= Cell(g, i, j, v) < |t| && 0 <= Cell(g, j, i, v) < |s| && t[Cell(g, i, j, v)] == s[Cell(g, j, i, v)]
    {
      assert CellSwapped(s, t, g, Triangle(g.n0), i, j, v);
    }
    forall u | Swapped(s, u, g, Triangle(g.n0)) ensures u == t {
      forall q | 0 <= q < |s| ensures u[q] == t[q] {
        if Touches(g, q) {
          var i, j, v :| InGrid(g, i, j, v) && Cell(g, i, j, v) == q;
          assert CellSwapped(s, t, g, Triangle(g.n0), i, j, v) && CellSwapped(s, u, g, Triangle(g.n0), i, j, v);
        }
      }
    }
  }
}
