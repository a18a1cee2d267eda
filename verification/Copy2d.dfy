/** kernel/cpy2d.c: two-dimensional copies, in either loop order, tiled, and tiled through a buffer. */
module Copy2d {
  import ModArith
  import Primes
  import opened Blocks
  import opened Tiling

  ghost predicate SameShape(src: Grid, dst: Grid) {
    src.n0 == dst.n0 && src.n1 == dst.n1 && src.vl == dst.vl
  }

  ghost predicate CellCopied(I: seq<real>, O: seq<real>, src: Grid, dst: Grid, i: int, j: int, v: int) {
    var c, d := Cell(src, i, j, v), Cell(dst, i, j, v);
    0 <= c < |I| && 0 <= d < |O| && O[d] == I[c]
  }

  /** after is before with every block of dst replaced by the block of src in I. */
  ghost predicate Copied(I: seq<real>, before: seq<real>, after: seq<real>, src: Grid, dst: Grid) {
    && |after| == |before|
    && (forall i, j, v :: InGrid(dst, i, j, v) ==> CellCopied(I, after, src, dst, i, j, v))
    && forall q :: 0 <= q < |before| && !Touches(dst, q) ==> after[q] == before[q]
  }

  /** Cells copied so far by a double loop that has finished the columns before j and row i of column j. */
  ghost predicate Partly(I: seq<real>, before: seq<real>, after: seq<real>, src: Grid, dst: Grid, i: int, j: int) {
    && |after| == |before|
    && (forall k, l, v :: InGrid(dst, k, l, v) && (l < j || (l == j && k < i)) ==> CellCopied(I, after, src, dst, k, l, v))
    && forall q :: 0 <= q < |before| && !Touches(dst, q) ==> after[q] == before[q]
  }

  method CopyBlock(I: array<real>, O: array<real>, src: Grid, dst: Grid, i: int, j: int)
    requires I != O && SameShape(src, dst) && Fits(src, I.Length) && Sound(dst, O.Length)
    requires 0 <= i < dst.n0 && 0 <= j < dst.n1
    modifies O
    ensures forall v :: 0 <= v < dst.vl ==> CellCopied(I[..], O[..], src, dst, i, j, v)
    ensures forall q :: 0 <= q < O.Length && (forall v :: 0 <= v < dst.vl ==> Cell(dst, i, j, v) != q) ==> O[q] == old(O[q])
  {
    hide Cell;
    var v := 0;
    while v < dst.vl
      invariant 0 <= v
      invariant forall w :: 0 <= w < v && w < dst.vl ==> CellCopied(I[..], O[..], src, dst, i, j, w)
      invariant forall q :: 0 <= q < O.Length && (forall w :: 0 <= w < dst.vl ==> Cell(dst, i, j, w) != q)
                            ==> O[q] == old(O[q])
    {
      assert InGrid(src, i, j, v) && InGrid(dst, i, j, v);
      ghost var before := O[..];
      O[Cell(dst, i, j, v)] := I[Cell(src, i, j, v)];
      forall w | 0 <= w < v ensures CellCopied(I[..], O[..], src, dst, i, j, w) {
        assert InGrid(dst, i, j, w) && CellCopied(I[..], before, src, dst, i, j, w);
      }
      v := v + 1;
    }
  }

  /** cpy2d: the inner loop runs over the first index. */
  method Copy(I: array<real>, O: array<real>, src: Grid, dst: Grid)
    requires I != O && SameShape(src, dst) && Fits(src, I.Length) && Sound(dst, O.Length)
    modifies O
    ensures Copied(I[..], old(O[..]), O[..], src, dst)
  {
    hide Cell, Sound;
    ghost var s := O[..];
    var j := 0;
    while j < dst.n1
      invariant 0 <= j && Partly(I[..], s, O[..], src, dst, 0, j)
    {
      var i := 0;
      while i < dst.n0
        invariant 0 <= i && Partly(I[..], s, O[..], src, dst, i, j)
      {
        ghost var t := O[..];
        CopyBlock(I, O, src, dst, i, j);
        PartlyStep(I[..], s, t, O[..], src, dst, i, j);
        i := i + 1;
      }
      j := j + 1;
    }
  }

  lemma PartlyStep(I: seq<real>, s: seq<real>, t: seq<real>, u: seq<real>, src: Grid, dst: Grid, i: int, j: int)
    requires Sound(dst, |s|) && 0 <= i < dst.n0 && 0 <= j < dst.n1 && Partly(I, s, t, src, dst, i, j) && |u| == |t|
    requires forall v :: 0 <= v < dst.vl ==> CellCopied(I, u, src, dst, i, j, v)
    requires forall q :: 0 <= q < |t| && (forall v :: 0 <= v < dst.vl ==> Cell(dst, i, j, v) != q) ==> u[q] == t[q]
    ensures Partly(I, s, u, src, dst, i + 1, j)
  {
    hide Cell;
    forall k, l, v | InGrid(dst, k, l, v) && (l < j || (l == j && k < i + 1))
      ensures CellCopied(I, u, src, dst, k, l, v)
    {
      if l != j || k != i {
        assert CellCopied(I, t, src, dst, k, l, v);
        forall w | 0 <= w < dst.vl ensures Cell(dst, i, j, w) != Cell(dst, k, l, v) {
          assert InGrid(dst, i, j, w);
        }
      }
    }
    forall q | 0 <= q < |s| && !Touches(dst, q) ensures u[q] == s[q] {
      forall v | 0 <= v < dst.vl ensures Cell(dst, i, j, v) != q {
        assert InGrid(dst, i, j, v);
      }
    }
  }

  function Abs(x: int): int {
    if x < 0 then -x else x
  }

  lemma FlipSound(g: Grid, len: int)
    ensures Fits(g, len) ==> Fits(Flip(g), len)
    ensures Sound(g, len) ==> Sound(Flip(g), len)
  {
    FlipCells(g);
    hide Cell, Flip;
    if Fits(g, len) {
      forall i, j, v | InGrid(Flip(g), i, j, v) ensures 0 <= Cell(Flip(g), i, j, v) < len { assert InGrid(g, j, i, v); }
    }
    if Sound(g, len) {
      forall i, j, v, k, l, w
        | InGrid(Flip(g), i, j, v) && InGrid(Flip(g), k, l, w) && Cell(Flip(g), i, j, v) == Cell(Flip(g), k, l, w)
        ensures i == k && j == l && v == w
      {
        assert InGrid(g, j, i, v) && InGrid(g, l, k, w);
      }
    }
  }

  lemma FlipCopied(I: seq<real>, s: seq<real>, t: seq<real>, src: Grid, dst: Grid)
    requires Copied(I, s, t, Flip(src), Flip(dst))
    ensures Copied(I, s, t, src, dst)
  {
    FlipCells(src);
    FlipCells(dst);
    hide Cell;
    forall i, j, v | InGrid(dst, i, j, v) ensures CellCopied(I, t, src, dst, i, j, v) {
      assert InGrid(Flip(dst), j, i, v) && CellCopied(I, t, Flip(src), Flip(dst), j, i, v);
    }
    forall q | 0 <= q < |s| && !Touches(dst, q) ensures t[q] == s[q] {
      forall i, j, v | InGrid(Flip(dst), i, j, v) ensures Cell(Flip(dst), i, j, v) != q {
        assert InGrid(dst, j, i, v);
      }
    }
  }

  method CopyEither(I: array<real>, O: array<real>, src: Grid, dst: Grid, straight: bool)
    requires I != O && SameShape(src, dst) && Fits(src, I.Length) && Sound(dst, O.Length)
    modifies O
    ensures Copied(I[..], old(O[..]), O[..], src, dst)
  {
    if straight {
      Copy(I, O, src, dst);
    } else {
      FlipSound(src, I.Length);
      FlipSound(dst, O.Length);
      Copy(I, O, Flip(src), Flip(dst));
      FlipCopied(I[..], old(O[..]), O[..], src, dst);
    }
  }

  /** cpy2d_ci: the loop order is chosen to read contiguously; the result does not depend on it. */
  method CopyInput(I: array<real>, O: array<real>, src: Grid, dst: Grid)
    requires I != O && SameShape(src, dst) && Fits(src, I.Length) && Sound(dst, O.Length)
    modifies O
    ensures Copied(I[..], old(O[..]), O[..], src, dst)
  {
    CopyEither(I, O, src, dst, Abs(src.s0) < Abs(src.s1));
  }

  /** cpy2d_co: the same, to write contiguously. */
  method CopyOutput(I: array<real>, O: array<real>, src: Grid, dst: Grid)
    requires I != O && SameShape(src, dst) && Fits(src, I.Length) && Sound(dst, O.Length)
    modifies O
    ensures Copied(I[..], old(O[..]), O[..], src, dst)
  {
    CopyEither(I, O, src, dst, Abs(dst.s0) < Abs(dst.s1));
  }

  // ---- Tiled copies ----

  /** dotile, and dotile_buf by way of a buffer with room for one tile. */
  method DoTile(I: array<real>, O: array<real>, src: Grid, dst: Grid, t: Tile)
    requires I != O && SameShape(src, dst) && Fits(src, I.Length) && Sound(dst, O.Length) && TileOf(t, dst)
    modifies O
    ensures Copied(I[..], old(O[..]), O[..], Piece(src, t), Piece(dst, t))
  {
    PieceFits(src, t, I.Length);
    PieceSound(dst, t, O.Length);
    Copy(I, O, Piece(src, t), Piece(dst, t));
  }

  method DoTileBuf(I: array<real>, O: array<real>, src: Grid, dst: Grid, t: Tile, buf: array<real>)
    requires I != O && buf != I && buf != O && SameShape(src, dst)
    requires Fits(src, I.Length) && Sound(dst, O.Length) && TileOf(t, dst)
    requires (t.n1u - t.n1l) * (t.n0u - t.n0l) * dst.vl <= buf.Length
    modifies O, buf
    ensures Copied(I[..], old(O[..]), O[..], Piece(src, t), Piece(dst, t))
  {
    PieceFits(src, t, I.Length);
    PieceSound(dst, t, O.Length);
    var packed := Packed(t.n0u - t.n0l, t.n1u - t.n1l, dst.vl);
    PackedSound(packed.n0, packed.n1, packed.vl, buf.Length);
    hide Cell, Copied, Sound, Fits;
    ghost var empty := buf[..];
    CopyInput(I, buf, Piece(src, t), packed);
    CopyOutput(buf, O, packed, Piece(dst, t));
    CopyThrough(I[..], empty, buf[..], old(O[..]), O[..], Piece(src, t), packed, Piece(dst, t));
  }

  lemma CopyThrough(I: seq<real>, e: seq<real>, b: seq<real>, s: seq<real>, t: seq<real>, src: Grid, mid: Grid, dst: Grid)
    requires SameShape(src, mid) && SameShape(mid, dst) && Copied(I, e, b, src, mid) && Copied(b, s, t, mid, dst)
    ensures Copied(I, s, t, src, dst)
  {
    hide Cell;
    forall i, j, v | InGrid(dst, i, j, v) ensures CellCopied(I, t, src, dst, i, j, v) {
      assert InGrid(mid, i, j, v) && CellCopied(I, b, src, mid, i, j, v) && CellCopied(b, t, mid, dst, i, j, v);
    }
  }

  /** The tiles before k have been copied, and nothing outside the destination has changed. */
  ghost predicate TilesCopied(I: seq<real>, s: seq<real>, t: seq<real>, src: Grid, dst: Grid, tiles: seq<Tile>, k: nat) {
    && |t| == |s| && k <= |tiles|
    && (forall m, i, j, v :: 0 <= m < k && Inside(tiles[m], i, j) && InGrid(dst, i, j, v) ==>
          CellCopied(I, t, src, dst, i, j, v))
    && forall q :: 0 <= q < |s| && !Touches(dst, q) ==> t[q] == s[q]
  }

  lemma OneMoreTile(I: seq<real>, s: seq<real>, t: seq<real>, u: seq<real>, src: Grid, dst: Grid, tiles: seq<Tile>, k: nat)
    requires TilesCopied(I, s, t, src, dst, tiles, k) && k < |tiles| && TileOf(tiles[k], dst) && SameShape(src, dst)
    requires Sound(dst, |s|) && Copied(I, t, u, Piece(src, tiles[k]), Piece(dst, tiles[k]))
    ensures TilesCopied(I, s, u, src, dst, tiles, k + 1)
  {
    var tile := tiles[k];
    var p := Piece(dst, tile);
    PieceCells(src, tile);
    PieceCells(dst, tile);
    hide Cell, Piece;
    forall m, i, j, v | 0 <= m < k + 1 && Inside(tiles[m], i, j) && InGrid(dst, i, j, v)
      ensures CellCopied(I, u, src, dst, i, j, v)
    {
      if Inside(tile, i, j) {
        assert InGrid(src, i, j, v);
        assert CellCopied(I, u, Piece(src, tile), p, i - tile.n0l, j - tile.n1l, v);
      } else {
        assert CellCopied(I, t, src, dst, i, j, v);
        assert !Touches(p, Cell(dst, i, j, v));
      }
    }
  }

  lemma AllTiles(I: seq<real>, s: seq<real>, t: seq<real>, src: Grid, dst: Grid, tiles: seq<Tile>)
    requires Partition(tiles, Tile(0, dst.n0, 0, dst.n1)) && TilesCopied(I, s, t, src, dst, tiles, |tiles|)
    ensures Copied(I, s, t, src, dst)
  {
    hide Cell, CellCopied;
    forall i, j, v | InGrid(dst, i, j, v) ensures CellCopied(I, t, src, dst, i, j, v) {
      assert Inside(Tile(0, dst.n0, 0, dst.n1), i, j);
      var m :| 0 <= m < |tiles| && Inside(tiles[m], i, j);
    }
  }

  /** The tiled copy, with or without the buffer, copies what the double loop copies. */
  method CopyTiled(I: array<real>, O: array<real>, src: Grid, dst: Grid, buffered: bool)
    requires I != O && SameShape(src, dst) && Fits(src, I.Length) && Sound(dst, O.Length)
    requires 0 <= dst.n0 && 0 <= dst.n1 && 0 < dst.vl <= 512
    modifies O
    ensures Copied(I[..], old(O[..]), O[..], src, dst)
  {
    hide Cell, Copied, Sound, Fits, Partition, Primes.FloorSqrt, CacheShare, Tiles;
    var size := ComputeTileSize(dst.vl, 2);
    TileFitsBuffer(dst.vl, size);
    var buf := new real[BUFSIZE];
    var tiles := Tile2d(0, dst.n0, 0, dst.n1, size);
    TilesPartition(Tile(0, dst.n0, 0, dst.n1), size);
    CopyTiles(I, O, src, dst, buffered, tiles, size, buf);
  }

  const BUFSIZE := CACHESIZE / (2 * SIZEOF_R)

  /** The callback, tile after tile. */
  method CopyTiles(I: array<real>, O: array<real>, src: Grid, dst: Grid, buffered: bool, tiles: seq<Tile>, size: int,
                   buf: array<real>)
    requires I != O && SameShape(src, dst) && Fits(src, I.Length) && Sound(dst, O.Length) && 0 < dst.vl
    requires Partition(tiles, Tile(0, dst.n0, 0, dst.n1)) && forall k :: 0 <= k < |tiles| ==> Small(tiles[k], size)
    requires buf != I && buf != O && buf.Length == BUFSIZE && size * size * dst.vl * SIZEOF_R <= CACHESIZE / 2
    modifies O, buf
    ensures Copied(I[..], old(O[..]), O[..], src, dst)
  {
    hide Cell, Copied, Sound, Fits, Partition, TilesCopied, Piece, TileOf;
    ghost var s := O[..];
    NoTiles(I[..], s, src, dst, tiles);
    for k := 0 to |tiles|
      invariant TilesCopied(I[..], s, O[..], src, dst, tiles, k)
    {
      ghost var t := O[..];
      TileInside(tiles, dst, k);
      if buffered {
        TileRoom(tiles[k], size, dst.vl);
        DoTileBuf(I, O, src, dst, tiles[k], buf);
      } else {
        DoTile(I, O, src, dst, tiles[k]);
      }
      OneMoreTile(I[..], s, t, O[..], src, dst, tiles, k);
    }
    AllTiles(I[..], s, O[..], src, dst, tiles);
  }

  lemma NoTiles(I: seq<real>, s: seq<real>, src: Grid, dst: Grid, tiles: seq<Tile>)
    ensures TilesCopied(I, s, s, src, dst, tiles, 0)
  {}

  lemma TileInside(tiles: seq<Tile>, g: Grid, k: nat)
    requires Partition(tiles, Tile(0, g.n0, 0, g.n1)) && k < |tiles| && Proper(tiles[k])
    ensures TileOf(tiles[k], g)
  {}

  /** A tile fits the buffer. */
  lemma TileRoom(t: Tile, size: int, vl: int)
    requires Small(t, size) && 0 < vl && size * size * vl * SIZEOF_R <= CACHESIZE / 2
    ensures (t.n1u - t.n1l) * (t.n0u - t.n0l) * vl <= BUFSIZE
  {
    var a, b := t.n1u - t.n1l, t.n0u - t.n0l;
    ModArith.TimesMonotone(a, size, b);
    ModArith.TimesMonotone(b, size, size);
    ModArith.TimesMonotone(a * b, size * size, vl);
  }
}
