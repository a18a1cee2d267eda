/** kernel/tile2d.c: cutting a rectangle into tiles of bounded side. */
module Tiling {
  import ModArith
  import Primes

  /** n0l <= x < n0u and n1l <= y < n1u */
  datatype Tile = Tile(n0l: int, n0u: int, n1l: int, n1u: int)

  predicate Inside(t: Tile, x: int, y: int) {
    t.n0l <= x < t.n0u && t.n1l <= y < t.n1u
  }

  predicate Proper(t: Tile) {
    0 <= t.n0l <= t.n0u && 0 <= t.n1l <= t.n1u
  }

  predicate Small(t: Tile, size: int) {
    Proper(t) && t.n0u - t.n0l <= size && t.n1u - t.n1l <= size
  }

  ghost predicate Overlap(s: Tile, t: Tile) {
    exists x, y :: Inside(s, x, y) && Inside(t, x, y)
  }

  ghost predicate Covered(tiles: seq<Tile>, x: int, y: int) {
    exists k :: 0 <= k < |tiles| && Inside(tiles[k], x, y)
  }

  /** Every point of the rectangle is in exactly one tile, and the tiles stay inside it. */
  ghost predicate Partition(tiles: seq<Tile>, whole: Tile) {
    && (forall x, y :: Inside(whole, x, y) <==> Covered(tiles, x, y))
    && (forall j, k :: 0 <= j < k < |tiles| ==> !Overlap(tiles[j], tiles[k]))
    && (forall k :: 0 <= k < |tiles| ==> Within(tiles[k], whole))
  }

  predicate Within(t: Tile, whole: Tile) {
    whole.n0l <= t.n0l && t.n0u <= whole.n0u && whole.n1l <= t.n1l && t.n1u <= whole.n1u
  }

  /** whole is cut in two along one side. */
  ghost predicate Cut(whole: Tile, a: Tile, b: Tile) {
    && (forall x, y :: Inside(whole, x, y) <==> Inside(a, x, y) || Inside(b, x, y))
    && !Overlap(a, b) && Within(a, whole) && Within(b, whole)
  }

  lemma PartitionJoin(s: seq<Tile>, t: seq<Tile>, a: Tile, b: Tile, whole: Tile)
    requires Partition(s, a) && Partition(t, b) && Cut(whole, a, b)
    ensures Partition(s + t, whole)
  {
    var u := s + t;
    forall x, y ensures Inside(whole, x, y) <==> Covered(u, x, y) {
      if Covered(s, x, y) {
        var k :| 0 <= k < |s| && Inside(s[k], x, y);
        assert Inside(u[k], x, y);
      }
      if Covered(t, x, y) {
        var k :| 0 <= k < |t| && Inside(t[k], x, y);
        assert Inside(u[|s| + k], x, y);
      }
      if Covered(u, x, y) {
        var k :| 0 <= k < |u| && Inside(u[k], x, y);
        if k >= |s| { assert Inside(t[k - |s|], x, y); }
      }
    }
    forall j, k | 0 <= j < k < |u| ensures !Overlap(u[j], u[k]) {
      if j < |s| <= k {
        PartsApart(s[j], t[k - |s|], a, b);
      }
    }
  }

  lemma PartsApart(s: Tile, t: Tile, a: Tile, b: Tile)
    requires Within(s, a) && Within(t, b) && !Overlap(a, b)
    ensures !Overlap(s, t)
  {
    forall x, y ensures !(Inside(s, x, y) && Inside(t, x, y)) {
      var p, q := Inside(a, x, y), Inside(b, x, y);
    }
  }

  /** The halves of a proper rectangle along its longer side, when that side exceeds size. */
  function Halves(t: Tile, size: int): (Tile, Tile) {
    if t.n0u - t.n0l >= t.n1u - t.n1l && t.n0u - t.n0l > size then
      var m := (t.n0u + t.n0l) / 2; (t.(n0u := m), t.(n0l := m))
    else
      var m := (t.n1u + t.n1l) / 2; (t.(n1u := m), t.(n1l := m))
  }

  function Extent(t: Tile): int {
    t.n0u - t.n0l + (t.n1u - t.n1l)
  }

  lemma HalvesShrink(t: Tile, size: int)
    requires Proper(t) && size > 0 && !Small(t, size)
    ensures var (a, b) := Halves(t, size);
            Proper(a) && Proper(b) && Cut(t, a, b) && 0 <= Extent(a) < Extent(t) && 0 <= Extent(b) < Extent(t)
  {}

  /** The tiles in the order they are visited. */
  ghost function Tiles(t: Tile, size: int): seq<Tile>
    requires Proper(t) && size > 0
    decreases Extent(t)
  {
    if Small(t, size) then
      [t]
    else
      var (a, b) := Halves(t, size);
      HalvesShrink(t, size);
      Tiles(a, size) + Tiles(b, size)
  }

  /** The tiles partition the rectangle, and none has a side longer than size. */
  lemma {:induction false} TilesPartition(t: Tile, size: int)
    requires Proper(t) && size > 0
    ensures Partition(Tiles(t, size), t)
    ensures forall k :: 0 <= k < |Tiles(t, size)| ==> Small(Tiles(t, size)[k], size)
    decreases Extent(t)
  {
    if Small(t, size) {
      assert Tiles(t, size) == [t];
      forall x, y ensures Inside(t, x, y) <==> Covered([t], x, y) {
        if Inside(t, x, y) { assert Inside([t][0], x, y); }
      }
    } else {
      var (a, b) := Halves(t, size);
      HalvesShrink(t, size);
      TilesPartition(a, size);
      TilesPartition(b, size);
      PartitionJoin(Tiles(a, size), Tiles(b, size), a, b, t);
    }
  }

  /** tile2d, with the tiles handed to the callback collected in order. */
  method Tile2d(l0: int, u0: int, l1: int, u1: int, size: int) returns (tiles: seq<Tile>)
    requires Proper(Tile(l0, u0, l1, u1)) && size > 0
    ensures tiles == Tiles(Tile(l0, u0, l1, u1), size)
    decreases u0 - l0 + (u1 - l1)
  {
    hide Tiles, Cut;
    var t := Tile(l0, u0, l1, u1);
    tiles := [];
    while true
      invariant Proper(t) && 0 <= Extent(t) <= Extent(Tile(l0, u0, l1, u1))
      invariant tiles + Tiles(t, size) == Tiles(Tile(l0, u0, l1, u1), size)
      decreases Extent(t)
    {
      var d0, d1 := t.n0u - t.n0l, t.n1u - t.n1l;
      HalvesNext(t, size, tiles);
      if d0 >= d1 && d0 > size {
        var m := (t.n0u + t.n0l) / 2;
        var left := Tile2d(t.n0l, m, t.n1l, t.n1u, size);
        tiles := tiles + left;
        t := t.(n0l := m);
      } else if d1 > size {
        var m := (t.n1u + t.n1l) / 2;
        var left := Tile2d(t.n0l, t.n0u, t.n1l, m, size);
        tiles := tiles + left;
        t := t.(n1l := m);
      } else {
        tiles := tiles + [t];
        break;
      }
    }
  }

  lemma HalvesNext(t: Tile, size: int, before: seq<Tile>)
    requires Proper(t) && size > 0
    ensures Small(t, size) ==> before + Tiles(t, size) == before + [t]
    ensures !Small(t, size) ==>
      var (a, b) := Halves(t, size);
      Proper(a) && Proper(b) && 0 <= Extent(a) < Extent(t) && 0 <= Extent(b) < Extent(t)
      && before + Tiles(t, size) == (before + Tiles(a, size)) + Tiles(b, size)
  {
    if !Small(t, size) { HalvesShrink(t, size); }
  }

  // ---- The tile side ----

  const CACHESIZE := 8192
  const SIZEOF_R := 8

  /** compute_tilesz */
  method ComputeTileSize(vl: int, tilesInCache: int) returns (size: int)
    requires 0 < vl && 0 < tilesInCache
    ensures Primes.FloorSqrt(size, CacheShare(vl, tilesInCache))
  {
    ghost var most;
    size, most := Primes.ISqrt(CacheShare(vl, tilesInCache));
  }

  /** How many vectors of length vl each of the tiles may hold. */
  function CacheShare(vl: int, tilesInCache: int): (r: int)
    requires 0 < vl && 0 < tilesInCache
    ensures 0 <= r
  {
    ModArith.MulGe(vl, SIZEOF_R);
    ModArith.MulGe(tilesInCache, SIZEOF_R * vl);
    CACHESIZE / (SIZEOF_R * vl * tilesInCache)
  }

  lemma DivBound(a: int, b: int, q: int)
    requires 0 < b && q == a / b
    ensures q * b <= a < q * b + b
  {
    assert a == q * b + a % b;
  }

  /** Two tiles fit in the cache, so one fits the buffer of half that size; a side is positive exactly
      when vectors are no longer than 512, and tiling only ends for those. */
  lemma TileFitsBuffer(vl: int, size: int)
    requires 0 < vl && Primes.FloorSqrt(size, CacheShare(vl, 2))
    ensures size * size * vl * SIZEOF_R <= CACHESIZE / 2
    ensures size > 0 <==> vl <= 512
  {
    var d, q := SIZEOF_R * vl * 2, CacheShare(vl, 2);
    DivBound(CACHESIZE, d, q);
    assert d == 16 * vl;
    ModArith.TimesMonotone(size * size, q, d);
    assert size * size * d == size * size * vl * 16;
    if vl <= 512 {
      if q == 0 { assert false; }
      if size == 0 { assert false; }
    } else if size > 0 {
      ModArith.TimesMonotone(1, q, d);
      assert false;
    }
  }
}
