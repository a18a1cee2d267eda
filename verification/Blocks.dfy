/** Two-dimensional grids of blocks of reals, addressed in an array by two strides. */
module Blocks {
  import opened ModArith
  import opened Tiling

  /** Block (i, j) starts at at + i s0 + j s1 and holds vl reals; 0 <= i < n0 and 0 <= j < n1. */
  datatype Grid = Grid(at: int, s0: int, s1: int, n0: int, n1: int, vl: nat)

  function Cell(g: Grid, i: int, j: int, v: int): int {
    g.at + i * g.s0 + j * g.s1 + v
  }

  predicate InGrid(g: Grid, i: int, j: int, v: int) {
    0 <= i < g.n0 && 0 <= j < g.n1 && 0 <= v < g.vl
  }

  ghost predicate Fits(g: Grid, len: int) {
    forall i, j, v :: InGrid(g, i, j, v) ==> 0 <= Cell(g, i, j, v) < len
  }

  ghost predicate Apart(g: Grid) {
    forall i, j, v, k, l, w :: InGrid(g, i, j, v) && InGrid(g, k, l, w) && Cell(g, i, j, v) == Cell(g, k, l, w)
                               ==> i == k && j == l && v == w
  }

  /** The blocks lie in the array and do not meet. */
  ghost predicate Sound(g: Grid, len: int) {
    Fits(g, len) && Apart(g)
  }

  ghost predicate Touches(g: Grid, q: int) {
    exists i, j, v :: InGrid(g, i, j, v) && Cell(g, i, j, v) == q
  }

  /** The same blocks with the two indices exchanged. */
  function Flip(g: Grid): Grid {
    Grid(g.at, g.s1, g.s0, g.n1, g.n0, g.vl)
  }

  lemma FlipCells(g: Grid)
    ensures forall i, j, v :: Cell(Flip(g), i, j, v) == Cell(g, j, i, v)
    ensures forall i, j, v :: InGrid(Flip(g), i, j, v) <==> InGrid(g, j, i, v)
  {}

  /** The part of a grid from block (i, j) on, n0 by n1. */
  function Part(g: Grid, i: int, j: int, n0: int, n1: int): Grid {
    Grid(g.at + i * g.s0 + j * g.s1, g.s0, g.s1, n0, n1, g.vl)
  }

  lemma PartCell(g: Grid, i: int, j: int, n0: int, n1: int, k: int, l: int, v: int)
    ensures Cell(Part(g, i, j, n0, n1), k, l, v) == Cell(g, i + k, j + l, v)
  {
    assert (i + k) * g.s0 == i * g.s0 + k * g.s0;
    assert (j + l) * g.s1 == j * g.s1 + l * g.s1;
  }

  lemma PartCells(g: Grid, i: int, j: int, n0: int, n1: int)
    requires 0 <= i && 0 <= j && i + n0 <= g.n0 && j + n1 <= g.n1
    ensures forall k, l, v :: Cell(Part(g, i, j, n0, n1), k, l, v) == Cell(g, i + k, j + l, v)
    ensures forall k, l, v :: InGrid(Part(g, i, j, n0, n1), k, l, v) ==> InGrid(g, i + k, j + l, v)
  {
    hide Cell;
    forall k, l, v ensures Cell(Part(g, i, j, n0, n1), k, l, v) == Cell(g, i + k, j + l, v) {
      PartCell(g, i, j, n0, n1, k, l, v);
    }
  }

  lemma PartSound(g: Grid, i: int, j: int, n0: int, n1: int, len: int)
    requires Sound(g, len) && 0 <= i && 0 <= j && i + n0 <= g.n0 && j + n1 <= g.n1
    ensures Sound(Part(g, i, j, n0, n1), len)
  {
    PartCells(g, i, j, n0, n1);
    hide Cell, Part;
    var p := Part(g, i, j, n0, n1);
    forall k, l, v, k', l', v' | InGrid(p, k, l, v) && InGrid(p, k', l', v') && Cell(p, k, l, v) == Cell(p, k', l', v')
      ensures k == k' && l == l' && v == v'
    {
      assert InGrid(g, i + k, j + l, v) && InGrid(g, i + k', j + l', v');
    }
  }

  /** The part of a grid that a tile covers. */
  function Piece(g: Grid, t: Tile): Grid {
    Part(g, t.n0l, t.n1l, t.n0u - t.n0l, t.n1u - t.n1l)
  }

  predicate TileOf(t: Tile, g: Grid) {
    Proper(t) && t.n0u <= g.n0 && t.n1u <= g.n1
  }

  lemma PieceSound(g: Grid, t: Tile, len: int)
    requires Sound(g, len) && TileOf(t, g)
    ensures Sound(Piece(g, t), len)
  {
    PartSound(g, t.n0l, t.n1l, t.n0u - t.n0l, t.n1u - t.n1l, len);
  }

  lemma PieceFits(g: Grid, t: Tile, len: int)
    requires Fits(g, len) && TileOf(t, g)
    ensures Fits(Piece(g, t), len)
  {
    PieceCells(g, t);
    hide Cell, Piece;
    forall i, j, v | InGrid(Piece(g, t), i, j, v) ensures 0 <= Cell(Piece(g, t), i, j, v) < len {
      assert InGrid(g, t.n0l + i, t.n1l + j, v);
    }
  }

  /** The cells of a piece, in the indices of the whole. */
  lemma PieceCells(g: Grid, t: Tile)
    requires TileOf(t, g)
    ensures forall i, j, v :: InGrid(g, i, j, v) && Inside(t, i, j) ==>
              InGrid(Piece(g, t), i - t.n0l, j - t.n1l, v) && Cell(Piece(g, t), i - t.n0l, j - t.n1l, v) == Cell(g, i, j, v)
    ensures forall i, j, v :: InGrid(Piece(g, t), i, j, v) ==>
              InGrid(g, t.n0l + i, t.n1l + j, v) && Inside(t, t.n0l + i, t.n1l + j)
              && Cell(Piece(g, t), i, j, v) == Cell(g, t.n0l + i, t.n1l + j, v)
  {
    PartCells(g, t.n0l, t.n1l, t.n0u - t.n0l, t.n1u - t.n1l);
    hide Cell;
  }

  /** Blocks packed one after the other, row after row, with no gaps. */
  function Packed(n0: int, n1: int, vl: nat): Grid {
    Grid(0, vl, vl * n0, n0, n1, vl)
  }

  lemma PackedRow(n0: int, vl: int, i: int, j: int, v: int)
    ensures 0 + i * vl + j * (vl * n0) + v == (j * n0 + i) * vl + v
  {
    assert j * (vl * n0) == (j * n0) * vl;
  }

  /** Digit v of a number with leading part row. */
  lemma Digit(row: int, count: int, vl: int, v: int)
    requires 0 <= row < count && 0 <= v < vl
    ensures 0 <= row * vl + v < count * vl && (row * vl + v) / vl == row && (row * vl + v) % vl == v
  {
    DivModUnique(row * vl + v, row, v, vl);
    TimesMonotone(row + 1, count, vl);
    TimesMonotone(0, row, vl);
  }

  lemma PackedCell(n0: int, n1: int, vl: nat, i: int, j: int, v: int)
    requires InGrid(Packed(n0, n1, vl), i, j, v)
    ensures var c := Cell(Packed(n0, n1, vl), i, j, v);
            0 <= c < n1 * n0 * vl && c % vl == v && (c / vl) % n0 == i && (c / vl) / n0 == j
  {
    PackedRow(n0, vl, i, j, v);
    Digit(j, n1, n0, i);
    Digit(j * n0 + i, n1 * n0, vl, v);
  }

  lemma PackedSound(n0: int, n1: int, vl: nat, len: int)
    requires n1 * n0 * vl <= len
    ensures Sound(Packed(n0, n1, vl), len)
  {
    hide Cell, Packed;
    var p := Packed(n0, n1, vl);
    forall i, j, v | InGrid(p, i, j, v)
      ensures 0 <= Cell(p, i, j, v) < len
    {
      PackedCell(n0, n1, vl, i, j, v);
    }
    forall i, j, v, k, l, w | InGrid(p, i, j, v) && InGrid(p, k, l, w) && Cell(p, i, j, v) == Cell(p, k, l, w)
      ensures i == k && j == l && v == w
    {
      PackedCell(n0, n1, vl, i, j, v);
      PackedCell(n0, n1, vl, k, l, w);
    }
  }
}
