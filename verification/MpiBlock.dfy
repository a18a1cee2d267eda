/** mpi/block.c and mpi/api.c: dividing an array among processes in blocks, as an exact tiling. */
module MpiBlock {
  import opened ModArith
  import opened NatSum
  import Primes
  import opened PrimeTheory

  /** n items in blocks of b, for one of the two kinds of distribution. */
  datatype Dim = Dim(n: nat, b: nat)

  ghost predicate Proper(d: seq<Dim>) {
    forall k :: 0 <= k < |d| ==> 1 <= d[k].n && 1 <= d[k].b
  }

  // ---- One dimension ----

  function NumBlocks(n: int, b: int): int
    requires 1 <= b
  {
    (n + b - 1) / b
  }

  function DefaultBlock(n: int, pes: int): int
    requires 1 <= pes
  {
    (n + pes - 1) / pes
  }

  function Block(n: int, b: int, w: int): int {
    var d := n - w * b;
    if d <= 0 then 0 else if d > b then b else d
  }

  lemma CeilBounds(n: int, b: int)
    requires 1 <= b && 1 <= n
    ensures var q := (n + b - 1) / b; 1 <= q && (q - 1) * b < n <= q * b
  {
    var q := (n + b - 1) / b;
    assert n + b - 1 == q * b + (n + b - 1) % b;
    if q <= 0 { TimesMonotone(q, 0, b); }
    assert (q - 1) * b == q * b - b;
  }

  /** k blocks of b hold n items exactly when there are enough of them. */
  lemma Holds(n: int, b: int, k: int)
    requires 1 <= b && 1 <= n && 0 <= k
    ensures n <= k * b <==> NumBlocks(n, b) <= k
  {
    var q := NumBlocks(n, b);
    CeilBounds(n, b);
    if q <= k { TimesMonotone(q, k, b); } else { TimesMonotone(k, q - 1, b); }
  }

  /** The default block is the least that needs no more than pes processes. */
  lemma DefaultBlockIsLeast(n: int, pes: int, b: int)
    requires 1 <= n && 1 <= pes && 1 <= b
    ensures NumBlocks(n, b) <= pes <==> DefaultBlock(n, pes) <= b
  {
    Holds(n, b, pes);
    Holds(n, pes, b);
    assert pes * b == b * pes;
  }

  lemma DefaultBlockFits(n: int, pes: int)
    requires 1 <= n && 1 <= pes
    ensures 1 <= DefaultBlock(n, pes) && 1 <= NumBlocks(n, DefaultBlock(n, pes)) <= pes
  {
    CeilBounds(n, pes);
    DefaultBlockIsLeast(n, pes, DefaultBlock(n, pes));
    CeilBounds(n, DefaultBlock(n, pes));
  }

  /** The first k blocks together. */
  lemma {:induction false} BlocksBefore(n: nat, b: nat, f: int -> nat, k: nat)
    requires 1 <= b && forall w :: 0 <= w ==> f(w) == Block(n, b, w)
    ensures Total(f, k) == if k * b <= n then k * b else n
  {
    if k > 0 {
      BlocksBefore(n, b, f, k - 1);
      assert k * b == (k - 1) * b + b;
    }
  }

  /** The blocks of one dimension make up the dimension. */
  lemma BlocksMakeUp(n: nat, b: nat, f: int -> nat)
    requires 1 <= n && 1 <= b && forall w :: 0 <= w ==> f(w) == Block(n, b, w)
    ensures Total(f, NumBlocks(n, b)) == n
  {
    CeilBounds(n, b);
    BlocksBefore(n, b, f, NumBlocks(n, b));
  }

  lemma QuotientOf(g: int, b: int)
    requires 1 <= b && 0 <= g
    ensures 0 <= g / b && (g / b) * b <= g < (g / b) * b + b
  {
    assert g == (g / b) * b + g % b;
    if g / b < 0 { TimesMonotone(g / b, -1, b); }
  }

  /** Multiples of b that enclose g are those of its quotient. */
  lemma OneInterval(q: int, w: int, b: int, g: int)
    requires 1 <= b && q * b <= g < q * b + b
    ensures w * b <= g < w * b + b <==> w == q
  {
    if w < q {
      TimesMonotone(w + 1, q, b);
      assert (w + 1) * b == w * b + b;
    } else if w > q {
      TimesMonotone(q + 1, w, b);
      assert (q + 1) * b == q * b + b;
    }
  }

  /** Item g lies in exactly one block, number g / b. */
  lemma BlockOfItem(n: int, b: int, g: int, w: int)
    requires 1 <= b && 0 <= g < n && 0 <= w
    ensures w * b <= g < w * b + Block(n, b, w) <==> w == g / b
    ensures 0 <= g / b < NumBlocks(n, b)
  {
    var q := g / b;
    QuotientOf(g, b);
    OneInterval(q, w, b, g);
    Holds(n, b, q);
  }

  // ---- All dimensions: block coordinates are digits in a mixed radix ----

  function Count(d: Dim): int
    requires 1 <= d.b
  {
    NumBlocks(d.n, d.b)
  }

  function Last(d: seq<Dim>): Dim
    requires d != []
  {
    d[|d| - 1]
  }

  function Front(d: seq<Dim>): seq<Dim>
    requires d != []
  {
    d[..|d| - 1]
  }

  function TotalBlocks(d: seq<Dim>): nat
    requires Proper(d)
  {
    if d == [] then 1
    else
      CeilBounds(Last(d).n, Last(d).b);
      TimesPositive(TotalBlocks(Front(d)), Count(Last(d)));
      TotalBlocks(Front(d)) * Count(Last(d))
  }

  lemma TimesPositive(a: int, b: int)
    requires 0 <= a && 0 <= b
    ensures 0 <= a * b && (1 <= a && 1 <= b ==> 1 <= a * b)
  {
    TimesMonotone(0, a, b);
    if 1 <= a { TimesMonotone(1, a, b); }
  }

  lemma {:induction false} TotalPositive(d: seq<Dim>)
    requires Proper(d)
    ensures TotalBlocks(d) >= 1
  {
    if d != [] {
      TotalPositive(Front(d));
      CeilBounds(Last(d).n, Last(d).b);
      TimesPositive(TotalBlocks(Front(d)), Count(Last(d)));
    }
  }

  ghost predicate ValidCoords(d: seq<Dim>, c: seq<int>)
    requires Proper(d)
  {
    |c| == |d| && forall k :: 0 <= k < |d| ==> 0 <= c[k] < Count(d[k])
  }

  /** The coordinates of block pe. */
  function Coords(d: seq<Dim>, pe: nat): (c: seq<int>)
    requires Proper(d)
    ensures |c| == |d|
  {
    if d == [] then []
    else
      CeilBounds(Last(d).n, Last(d).b);
      DivNat(pe, Count(Last(d)));
      Coords(Front(d), pe / Count(Last(d))) + [pe % Count(Last(d))]
  }

  lemma DivNat(a: int, b: int)
    requires 0 <= a && 1 <= b
    ensures 0 <= a / b && 0 <= a % b < b && a == (a / b) * b + a % b
  {}

  /** The number of the block with these coordinates. */
  function Rank(d: seq<Dim>, c: seq<int>): int
    requires Proper(d) && |c| == |d|
  {
    if d == [] then 0 else
      Rank(Front(d), c[..|d| - 1]) * Count(Last(d)) + c[|d| - 1]
  }

  /** Every process that is not idle has its own block, and every block has its process. */
  lemma {:induction false} CoordsThenRank(d: seq<Dim>, pe: nat)
    requires Proper(d) && pe < TotalBlocks(d)
    ensures ValidCoords(d, Coords(d, pe)) && Rank(d, Coords(d, pe)) == pe
  {
    if d != [] {
      var nb := Count(Last(d));
      CeilBounds(Last(d).n, Last(d).b);
      DivNat(pe, nb);
      QuotientBelow(pe, nb, TotalBlocks(Front(d)));
      CoordsThenRank(Front(d), pe / nb);
      var c := Coords(d, pe);
      assert c[..|d| - 1] == Coords(Front(d), pe / nb);
      forall k | 0 <= k < |d| ensures 0 <= c[k] < Count(d[k]) {
        if k < |d| - 1 { assert Front(d)[k] == d[k]; }
      }
    }
  }

  lemma QuotientBelow(a: int, b: int, t: int)
    requires 0 <= a < t * b && 1 <= b && 0 <= t
    ensures a / b < t
  {
    DivNat(a, b);
    if a / b >= t { TimesMonotone(t, a / b, b); }
  }

  lemma RankDigit(r: int, t: int, nb: int, x: int)
    requires 0 <= r < t && 0 <= x < nb
    ensures 0 <= r * nb + x < t * nb && (r * nb + x) / nb == r && (r * nb + x) % nb == x
  {
    DivModUnique(r * nb + x, r, x, nb);
    TimesMonotone(r + 1, t, nb);
    TimesPositive(r, nb);
    assert (r + 1) * nb == r * nb + nb;
  }

  lemma FrontCoords(d: seq<Dim>, c: seq<int>)
    requires Proper(d) && ValidCoords(d, c) && d != []
    ensures ValidCoords(Front(d), c[..|d| - 1]) && 0 <= c[|d| - 1] < Count(Last(d))
  {
    forall k | 0 <= k < |d| - 1 ensures 0 <= c[..|d| - 1][k] < Count(Front(d)[k]) { assert Front(d)[k] == d[k]; }
  }

  lemma {:induction false} RankThenCoords(d: seq<Dim>, c: seq<int>)
    requires Proper(d) && ValidCoords(d, c)
    ensures 0 <= Rank(d, c) < TotalBlocks(d) && Coords(d, Rank(d, c)) == c
    decreases |d|
  {
    hide NumBlocks;
    if d != [] {
      var e, x := c[..|d| - 1], c[|d| - 1];
      FrontCoords(d, c);
      RankThenCoords(Front(d), e);
      RankDigit(Rank(Front(d), e), TotalBlocks(Front(d)), Count(Last(d)), x);
      assert c == e + [x];
    }
  }

  // ---- The boxes ----

  /** Item g, given by its index in every dimension, lies in the box of the block with these coordinates. */
  ghost predicate InBox(d: seq<Dim>, c: seq<int>, g: seq<int>)
    requires |c| == |d| == |g|
  {
    forall k :: 0 <= k < |d| ==> InInterval(d[k], c[k], g[k])
  }

  ghost predicate InInterval(d: Dim, w: int, x: int) {
    w * d.b <= x < w * d.b + Block(d.n, d.b, w)
  }

  ghost predicate IsItem(d: seq<Dim>, g: seq<int>) {
    |g| == |d| && forall k :: 0 <= k < |d| ==> 0 <= g[k] < d[k].n
  }

  function HomeCoords(d: seq<Dim>, g: seq<int>): seq<int>
    requires Proper(d) && |g| == |d|
  {
    seq(|d|, k requires 0 <= k < |d| => g[k] / d[k].b)
  }

  /** Every item lies in the box of exactly one process that is not idle. */
  lemma TilesExactly(d: seq<Dim>, g: seq<int>) returns (home: nat)
    requires Proper(d) && IsItem(d, g)
    ensures home < TotalBlocks(d)
    ensures forall pe: nat | pe < TotalBlocks(d) :: InBox(d, Coords(d, pe), g) <==> pe == home
  {
    var c := HomeCoords(d, g);
    forall k | 0 <= k < |d| ensures 0 <= c[k] < Count(d[k]) { BlockOfItem(d[k].n, d[k].b, g[k], 0); }
    RankThenCoords(d, c);
    home := Rank(d, c);
    forall pe: nat | pe < TotalBlocks(d) ensures InBox(d, Coords(d, pe), g) <==> pe == home {
      CoordsThenRank(d, pe);
      HomeIsUnique(d, Coords(d, pe), g);
    }
  }

  lemma HomeIsUnique(d: seq<Dim>, e: seq<int>, g: seq<int>)
    requires Proper(d) && IsItem(d, g) && ValidCoords(d, e)
    ensures InBox(d, e, g) <==> e == HomeCoords(d, g)
  {
    hide Block, NumBlocks;
    forall k | 0 <= k < |d| ensures InInterval(d[k], e[k], g[k]) <==> e[k] == g[k] / d[k].b {
      BlockOfItem(d[k].n, d[k].b, g[k], e[k]);
    }
    if InBox(d, e, g) {
      assert forall k :: 0 <= k < |d| ==> e[k] == HomeCoords(d, g)[k];
    }
  }

  // ---- Sizes ----

  function BoxSize(d: seq<Dim>, c: seq<int>): int
    requires |c| == |d|
  {
    if d == [] then 1 else BoxSize(Front(d), c[..|d| - 1]) * Block(Last(d).n, Last(d).b, c[|d| - 1])
  }

  function Volume(d: seq<Dim>): int {
    if d == [] then 1 else Volume(Front(d)) * Last(d).n
  }

  lemma {:induction false} BoxSizeNat(d: seq<Dim>, c: seq<int>)
    requires Proper(d) && |c| == |d|
    ensures BoxSize(d, c) >= 0
    decreases |d|
  {
    if d != [] {
      BoxSizeNat(Front(d), c[..|d| - 1]);
      TimesPositive(BoxSize(Front(d), c[..|d| - 1]), Block(Last(d).n, Last(d).b, c[|d| - 1]));
    }
  }

  /** The items held by process pe, for pe that is not idle. */
  ghost function Held(d: seq<Dim>, pe: int): nat
    requires Proper(d)
  {
    if pe < 0 then 0 else BoxSizeNat(d, Coords(d, pe)); BoxSize(d, Coords(d, pe))
  }

  lemma {:induction false} TotalScaled(f: int -> nat, g: int -> nat, c: nat, n: nat)
    requires forall i :: 0 <= i < n ==> g(i) == c * f(i)
    ensures Total(g, n) == c * Total(f, n)
  {
    if n > 0 {
      TotalScaled(f, g, c, n - 1);
      assert c * (Total(f, n - 1) + f(n - 1)) == c * Total(f, n - 1) + c * f(n - 1);
    }
  }

  /** Together the processes hold every item. */
  lemma {:induction false} HeldMakeUp(d: seq<Dim>)
    requires Proper(d)
    ensures Total(pe => Held(d, pe), TotalBlocks(d)) == Volume(d)
  {
    hide NumBlocks, Block;
    if d == [] {
      var f := pe => Held(d, pe);
      assert Total(f, 1) == Total(f, 0) + f(0);
    } else {
      HeldMakeUp(Front(d));
      HeldLast(d);
    }
  }

  ghost function LastBlock(d: seq<Dim>, w: int): nat
    requires d != []
  {
    var x := Block(Last(d).n, Last(d).b, w);
    if x < 0 then 0 else x
  }

  lemma HeldSplit(d: seq<Dim>, i: nat, j: nat)
    requires Proper(d) && d != [] && j < Count(Last(d))
    ensures 0 <= i * Count(Last(d)) && Held(d, i * Count(Last(d)) + j) == Held(Front(d), i) * LastBlock(d, j)
  {
    hide NumBlocks;
    var nb := Count(Last(d));
    CeilBounds(Last(d).n, Last(d).b);
    TimesPositive(i, nb);
    DivModUnique(i * nb + j, i, j, nb);
    var c := Coords(d, i * nb + j);
    assert c == Coords(Front(d), i) + [j];
    assert c[..|d| - 1] == Coords(Front(d), i);
  }

  lemma HeldRow(d: seq<Dim>, f: int -> nat, h: nat, g: int -> nat, row: int -> nat, i: nat, nb: nat, base: int)
    requires Proper(d) && d != [] && (forall pe :: f(pe) == Held(d, pe)) && h == Held(Front(d), i)
    requires (forall w :: g(w) == LastBlock(d, w)) && (forall j :: row(j) == f(base + j))
    requires nb == Count(Last(d)) && base == i * nb
    ensures Total(row, nb) == Last(d).n * h
  {
    hide NumBlocks, Held, LastBlock;
    LastMakesUp(d, g);
    forall j | 0 <= j < nb ensures row(j) == h * g(j) {
      HeldSplit(d, i, j);
      assert f(base + j) == Held(d, i * Count(Last(d)) + j);
    }
    TotalScaled(g, row, h, nb);
    assert h * Last(d).n == Last(d).n * h;
  }

  lemma HeldLast(d: seq<Dim>)
    requires Proper(d) && d != [] && Total(pe => Held(Front(d), pe), TotalBlocks(Front(d))) == Volume(Front(d))
    ensures Total(pe => Held(d, pe), TotalBlocks(d)) == Volume(d)
  {
    var f, h, g := pe => Held(d, pe), pe => Held(Front(d), pe), w => LastBlock(d, w);
    TotalCong(pe => Held(Front(d), pe), h, TotalBlocks(Front(d)));
    TotalCong(pe => Held(d, pe), f, TotalBlocks(d));
    HeldRows(d, f, h, g);
  }

  lemma HeldRows(d: seq<Dim>, f: int -> nat, h: int -> nat, g: int -> nat)
    requires Proper(d) && d != [] && (forall pe :: f(pe) == Held(d, pe)) && (forall pe :: h(pe) == Held(Front(d), pe))
    requires (forall w :: g(w) == LastBlock(d, w)) && Total(h, TotalBlocks(Front(d))) == Volume(Front(d))
    ensures Total(f, TotalBlocks(d)) == Volume(d)
  {
    hide Held, LastBlock;
    CeilBounds(Last(d).n, Last(d).b);
    var nb: nat, m := Count(Last(d)), TotalBlocks(Front(d));
    SumOfRows(d, f, h, g, nb, m);
    assert Volume(d) == Volume(Front(d)) * Last(d).n;
    assert Last(d).n * Volume(Front(d)) == Volume(Front(d)) * Last(d).n;
  }

  lemma SumOfRows(d: seq<Dim>, f: int -> nat, h: int -> nat, g: int -> nat, nb: nat, m: nat)
    requires Proper(d) && d != [] && (forall pe :: f(pe) == Held(d, pe)) && (forall pe :: h(pe) == Held(Front(d), pe))
    requires (forall w :: g(w) == LastBlock(d, w)) && nb == Count(Last(d))
    ensures Total(f, m * nb) == Last(d).n * Total(h, m)
  {
    hide *;
    var rows := RowTotals(f, nb);
    TotalRows(f, rows, m, nb, m * nb);
    forall i | 0 <= i < m ensures rows(i) == Last(d).n * h(i) {
      RowIs(d, f, h(i), g, rows, i, nb);
    }
    TotalScaled(h, rows, Last(d).n, m);
  }

  lemma RowIs(d: seq<Dim>, f: int -> nat, h: nat, g: int -> nat, rows: int -> nat, i: nat, nb: nat)
    requires Proper(d) && d != [] && (forall pe :: f(pe) == Held(d, pe)) && h == Held(Front(d), i)
    requires (forall w :: g(w) == LastBlock(d, w)) && nb == Count(Last(d))
    requires rows(i) == Total(j => f(i * nb + j), nb)
    ensures rows(i) == Last(d).n * h
  {
    hide Held, LastBlock, Count, Total;
    var base := i * nb;
    var row := j => f(base + j);
    HeldRow(d, f, h, g, row, i, nb, base);
    TotalCong(j => f(i * nb + j), row, nb);
  }

  lemma RowTotals(f: int -> nat, nb: nat) returns (rows: int -> nat)
    ensures forall i :: rows(i) == Total(j => f(i * nb + j), nb)
  {
    rows := i => Total(j => f(i * nb + j), nb);
  }

  lemma LastMakesUp(d: seq<Dim>, g: int -> nat)
    requires Proper(d) && d != [] && forall w :: g(w) == LastBlock(d, w)
    ensures Total(g, Count(Last(d))) == Last(d).n
  {
    forall w | 0 <= w ensures g(w) == Block(Last(d).n, Last(d).b, w) {}
    BlocksMakeUp(Last(d).n, Last(d).b, g);
  }

  // ---- The methods ----

  lemma TotalNext(d: seq<Dim>, i: nat)
    requires Proper(d) && i < |d|
    ensures Proper(d[..i]) && Proper(d[..i + 1]) && 1 <= Count(d[i])
    ensures TotalBlocks(d[..i + 1]) == TotalBlocks(d[..i]) * Count(d[i])
  {
    var e := d[..i + 1];
    forall k | 0 <= k < i ensures 1 <= d[..i][k].n && 1 <= d[..i][k].b { assert d[..i][k] == d[k]; }
    forall k | 0 <= k < |e| ensures 1 <= e[k].n && 1 <= e[k].b { assert e[k] == d[k]; }
    CeilBounds(d[i].n, d[i].b);
    assert Front(d[..i + 1]) == d[..i] && Last(d[..i + 1]) == d[i];
  }

  /** num_blocks_total */
  method NumBlocksTotal(d: seq<Dim>) returns (total: nat)
    requires Proper(d)
    ensures total == TotalBlocks(d)
  {
    total := 1;
    assert d[..0] == [];
    for i := 0 to |d|
      invariant Proper(d[..i]) && total == TotalBlocks(d[..i])
    {
      TotalNext(d, i);
      TimesPositive(total, Count(d[i]));
      total := total * NumBlocks(d[i].n, d[i].b);
    }
    assert d[..|d|] == d;
  }

  /** block_coords: the digits from the last to the first. */
  method BlockCoords(d: seq<Dim>, pe: nat) returns (coords: array<int>)
    requires Proper(d)
    ensures fresh(coords) && coords[..] == Coords(d, pe)
  {
    coords := new int[|d|];
    var i, w := |d|, pe;
    assert d[..|d|] == d;
    while i > 0
      invariant 0 <= i <= |d| && 0 <= w && Proper(d[..i])
      invariant Coords(d, pe) == Coords(d[..i], w) + coords[i..]
    {
      i := i - 1;
      TotalNext(d, i);
      var nb := NumBlocks(d[i].n, d[i].b);
      DivNat(w, nb);
      ghost var after := coords[i + 1..];
      assert Front(d[..i + 1]) == d[..i] && Last(d[..i + 1]) == d[i];
      coords[i] := w % nb;
      w := w / nb;
      assert coords[i..] == [coords[i]] + after;
    }
  }

  lemma BoxNext(d: seq<Dim>, c: seq<int>, i: nat)
    requires i < |d| == |c|
    ensures BoxSize(d[..i + 1], c[..i + 1]) == BoxSize(d[..i], c[..i]) * Block(d[i].n, d[i].b, c[i])
  {
    assert Front(d[..i + 1]) == d[..i] && Last(d[..i + 1]) == d[i] && c[..i + 1][..i] == c[..i];
  }

  /** total_block: what the process holds, nothing if it is idle. */
  method TotalBlock(d: seq<Dim>, pe: nat) returns (size: int)
    requires Proper(d)
    ensures size == if pe < TotalBlocks(d) then Held(d, pe) else 0
  {
    hide Block, NumBlocks;
    var total := NumBlocksTotal(d);
    if pe >= total {
      return 0;
    }
    var coords := BlockCoords(d, pe);
    ghost var c := coords[..];
    size := 1;
    assert d[..0] == [] && c[..0] == [];
    for i := 0 to |d|
      invariant coords[..] == c && size == BoxSize(d[..i], c[..i])
    {
      BoxNext(d, c, i);
      size := size * Block(d[i].n, d[i].b, coords[i]);
    }
    assert d[..|d|] == d && c[..|d|] == c;
  }

  /** local_size: the box of the process, given by its start and extent in every dimension. */
  method LocalSize(pe: nat, d: seq<Dim>) returns (localN: array<int>, localStart: array<int>)
    requires Proper(d)
    ensures localN.Length == localStart.Length == |d|
    ensures pe >= TotalBlocks(d) ==> forall k :: 0 <= k < |d| ==> localN[k] == 0 && localStart[k] == 0
    ensures pe < TotalBlocks(d) ==> forall g: seq<int> :: |g| == |d| ==>
              ((forall k :: 0 <= k < |d| ==> localStart[k] <= g[k] < localStart[k] + localN[k]) <==> InBox(d, Coords(d, pe), g))
  {
    var total := NumBlocksTotal(d);
    localN := new int[|d|](_ => 0);
    if pe >= total {
      localStart := new int[|d|](_ => 0);
      return;
    }
    localStart := BlockCoords(d, pe);
    ghost var c := localStart[..];
    for i := 0 to |d|
      invariant fresh(localN) && fresh(localStart) && localN != localStart && |c| == |d| == localN.Length == localStart.Length
      invariant forall k :: i <= k < |d| ==> localStart[k] == c[k]
      invariant forall k :: 0 <= k < i ==> localStart[k] == c[k] * d[k].b && localN[k] == Block(d[k].n, d[k].b, c[k])
    {
      localN[i] := Block(d[i].n, d[i].b, localStart[i]);
      localStart[i] := localStart[i] * d[i].b;
    }
    hide Block;
    forall g: seq<int> | |g| == |d|
      ensures (forall k :: 0 <= k < |d| ==> localStart[k] <= g[k] < localStart[k] + localN[k]) <==> InBox(d, Coords(d, pe), g)
    {
      assert forall k :: 0 <= k < |d| ==> (InInterval(d[k], c[k], g[k]) <==> localStart[k] <= g[k] < localStart[k] + localN[k]);
    }
  }

  // ---- Default block sizes ----

  /** A dimension as the user gives it: block 0 means that the choice is left to the library. */
  datatype Wish = Wish(n: nat, block: nat)

  /** Real-data transforms distribute n / 2 + 1 items in the last dimension. */
  function Used(w: seq<Wish>, rdft2: bool, k: nat): nat
    requires k < |w|
  {
    if rdft2 && k == |w| - 1 then w[k].n / 2 + 1 else w[k].n
  }

  /** What is not fixed is not divided to begin with. */
  function Given(w: seq<Wish>, rdft2: bool): seq<Dim> {
    seq(|w|, k requires 0 <= k < |w| =>
      Dim(Used(w, rdft2, k), if w[k].block != 0 then w[k].block else Used(w, rdft2, k)))
  }

  /** Dimension k, if it is not fixed, has the default block for the processes left over by the blocks fixed and the
      dimensions before it; when none is left over it is not divided. */
  ghost predicate Greedy(w: seq<Wish>, nPes: nat, rdft2: bool, d: seq<Dim>, k: nat) {
    k < |w| == |d| && (w[k].block == 0 ==>
      var e := d[..k] + Given(w, rdft2)[k..];
      && Proper(e) && TotalBlocks(e) > 0
      && d[k].b == if nPes / TotalBlocks(e) > 1 then DefaultBlock(d[k].n, nPes / TotalBlocks(e)) else d[k].n)
  }

  lemma WholeIsOneBlock(n: int, b: int)
    requires 1 <= n <= b
    ensures NumBlocks(n, b) == 1
  {
    CeilBounds(n, b);
    Holds(n, b, 1);
  }

  lemma SwapLast(a: int, b: int, c: int)
    ensures (a * c) * b == (a * b) * c
  {}

  lemma TotalLast(d: seq<Dim>)
    requires Proper(d) && d != []
    ensures Proper(Front(d)) && TotalBlocks(d) == TotalBlocks(Front(d)) * Count(Last(d))
  {}

  lemma {:induction false} SetBlock(d: seq<Dim>, i: nat, x: Dim)
    requires Proper(d) && i < |d| && Count(d[i]) == 1 && 1 <= x.n && 1 <= x.b
    ensures Proper(d[i := x]) && TotalBlocks(d[i := x]) == TotalBlocks(d) * Count(x)
    decreases |d|
  {
    hide Count, TotalBlocks;
    var e, m := d[i := x], |d| - 1;
    assert Proper(e);
    TotalLast(d);
    TotalLast(e);
    if i == m {
      assert Front(e) == Front(d);
    } else {
      assert Front(e) == Front(d)[i := x] && Last(e) == Last(d);
      SetBlock(Front(d), i, x);
      SwapLast(TotalBlocks(Front(d)), Count(Last(d)), Count(x));
    }
  }

  lemma {:induction false} Shrunk(d: seq<Dim>, e: seq<Dim>)
    requires Proper(d) && Proper(e) && |d| == |e| && forall k :: 0 <= k < |d| ==> Count(e[k]) <= Count(d[k])
    ensures TotalBlocks(e) <= TotalBlocks(d)
    decreases |d|
  {
    if d != [] {
      Shrunk(Front(d), Front(e));
      CeilBounds(Last(d).n, Last(d).b);
      CeilBounds(Last(e).n, Last(e).b);
      TimesMonotone(TotalBlocks(Front(e)), TotalBlocks(Front(d)), Count(Last(e)));
      TimesMonotone(Count(Last(e)), Count(Last(d)), TotalBlocks(Front(d)));
    }
  }

  /** The loop of default_sz: divide the dimensions that are not fixed, first to last, while processes remain. */
  method ChooseBlocks(w: seq<Wish>, nPes: nat, rdft2: bool) returns (d: seq<Dim>)
    requires (forall k :: 0 <= k < |w| ==> 1 <= w[k].n) && 1 <= nPes
    ensures |d| == |w| && Proper(d) && Proper(Given(w, rdft2))
    ensures TotalBlocks(d) <= nPes || d == Given(w, rdft2)
    ensures forall k :: 0 <= k < |w| ==> d[k].n == Used(w, rdft2, k)
    ensures forall k :: 0 <= k < |w| && w[k].block != 0 ==> d[k].b == w[k].block
    ensures forall k: nat :: k < |w| ==> Greedy(w, nPes, rdft2, d, k)
  {
    hide NumBlocks, TotalBlocks, DefaultBlock, Greedy;
    d := Given(w, rdft2);
    TotalPositive(d);
    var nb := NumBlocksTotal(d);
    DivNat(nPes, nb);
    var np := nPes / nb;
    var i := 0;
    while i < |w| && np > 1
      invariant 0 <= i <= |w| == |d| && Proper(d) && nb == TotalBlocks(d) >= 1 && np == nPes / nb
      invariant nb <= nPes || d == Given(w, rdft2)
      invariant forall k :: 0 <= k < |w| ==> d[k].n == Used(w, rdft2, k)
      invariant forall k :: 0 <= k < |w| && (w[k].block != 0 || k >= i) ==> d[k] == Given(w, rdft2)[k]
      invariant forall k: nat :: k < i ==> Greedy(w, nPes, rdft2, d, k)
    {
      ghost var before := d;
      if w[i].block == 0 {
        DefaultBlockFits(d[i].n, np);
        var x := Dim(d[i].n, DefaultBlock(d[i].n, np));
        WholeIsOneBlock(d[i].n, d[i].b);
        SetBlock(d, i, x);
        RoomLeft(nPes, nb, np, Count(x));
        d := d[i := x];
        nb := nb * NumBlocks(x.n, x.b);
        DivNat(nPes, nb);
        np := nPes / nb;
      }
      GreedyNext(w, nPes, rdft2, before, d, i);
      i := i + 1;
    }
    forall k: nat | i <= k < |w| ensures Greedy(w, nPes, rdft2, d, k) {
      GreedyRest(w, nPes, rdft2, d, k);
    }
  }

  /** The choice for one dimension does not disturb the choices before it. */
  lemma {:induction false} GreedyNext(w: seq<Wish>, nPes: nat, rdft2: bool, d: seq<Dim>, e: seq<Dim>, i: nat)
    requires i < |w| == |d| && Proper(d) && TotalBlocks(d) > 0
    requires forall k :: i <= k < |w| ==> d[k] == Given(w, rdft2)[k]
    requires forall k: nat :: k < i ==> Greedy(w, nPes, rdft2, d, k)
    requires if w[i].block != 0 then e == d
             else nPes / TotalBlocks(d) > 1 && e == d[i := Dim(d[i].n, DefaultBlock(d[i].n, nPes / TotalBlocks(d)))]
    ensures forall k: nat :: k <= i ==> Greedy(w, nPes, rdft2, e, k)
  {
    forall k: nat | k <= i ensures Greedy(w, nPes, rdft2, e, k) {
      assert e[..k] == d[..k];
      if k < i { assert Greedy(w, nPes, rdft2, d, k); } else { assert d[..i] + Given(w, rdft2)[i..] == d; }
    }
  }

  /** When no process is left over, the remaining dimensions stay whole. */
  lemma {:induction false} GreedyRest(w: seq<Wish>, nPes: nat, rdft2: bool, d: seq<Dim>, k: nat)
    requires k < |w| == |d| && Proper(d) && TotalBlocks(d) > 0 && nPes / TotalBlocks(d) <= 1
    requires forall j :: k <= j < |w| ==> d[j] == Given(w, rdft2)[j]
    ensures Greedy(w, nPes, rdft2, d, k)
  {
    assert d[..k] + Given(w, rdft2)[k..] == d;
  }

  function Canonical(n: int, b: int): int
    requires 1 <= b
  {
    if NumBlocks(n, b) == 1 then n else b
  }

  /** dtensor_canonical: a dimension in one block gets a block of its full size. */
  method CanonicalBlocks(d0: seq<Dim>) returns (d: seq<Dim>)
    requires Proper(d0)
    ensures |d| == |d0| && Proper(d)
    ensures forall k :: 0 <= k < |d0| ==> d[k] == Dim(d0[k].n, Canonical(d0[k].n, d0[k].b))
  {
    hide NumBlocks;
    d := d0;
    for j := 0 to |d0|
      invariant |d| == |d0| && Proper(d)
      invariant forall k :: j <= k < |d0| ==> d[k] == d0[k]
      invariant forall k :: 0 <= k < j ==> d[k] == Dim(d0[k].n, Canonical(d0[k].n, d0[k].b))
    {
      if NumBlocks(d[j].n, d[j].b) == 1 {
        d := d[j := Dim(d[j].n, d[j].n)];
      }
    }
  }

  lemma AtLeastOne(n: int, b: int)
    requires 1 <= n && 1 <= b
    ensures 1 <= NumBlocks(n, b)
  {
    CeilBounds(n, b);
  }

  /** The dimensions as they are distributed: n / 2 + 1 items in the last one of a real-data transform. */
  function Distributed(d: seq<Dim>, rdft2: bool): seq<Dim> {
    if rdft2 && d != [] then Front(d) + [Dim(Last(d).n / 2 + 1, Last(d).b)] else d
  }

  /** What default_sz makes of the wishes: blocks chosen for the items distributed, then, with the sizes restored, in
      canonical form; a single dimension of prime size is not divided. */
  ghost predicate Sized(w: seq<Wish>, nPes: nat, rdft2: bool, chosen: seq<Dim>, d: seq<Dim>) {
    && |chosen| == |d| == |w| && Proper(chosen) && Proper(Given(w, rdft2))
    && (TotalBlocks(chosen) <= nPes || chosen == Given(w, rdft2))
    && (forall k: nat :: k < |w| ==> Greedy(w, nPes, rdft2, chosen, k))
    && (forall k :: 0 <= k < |w| ==> chosen[k].n == Used(w, rdft2, k) && (w[k].block != 0 ==> chosen[k].b == w[k].block))
    && (forall k :: 0 <= k < |w| ==>
          d[k] == Dim(w[k].n, if |w| == 1 && IsPrime(w[0].n) then w[0].n else Canonical(w[k].n, chosen[k].b)))
  }

  /** default_sz, for one kind of distribution: whenever the blocks fixed by the user do not need more than nPes
      processes, neither do the blocks chosen, counted over the items that are distributed. */
  method DefaultSizes(w: seq<Wish>, nPes: nat, rdft2: bool) returns (d: seq<Dim>, ghost chosen: seq<Dim>)
    requires (forall k :: 0 <= k < |w| ==> 1 <= w[k].n) && 1 <= nPes
    ensures Sized(w, nPes, rdft2, chosen, d) && Proper(Distributed(d, rdft2))
    ensures TotalBlocks(Given(w, rdft2)) <= nPes ==> TotalBlocks(Distributed(d, rdft2)) <= nPes
    ensures TotalBlocks(Given(w, rdft2)) > nPes ==>
              TotalBlocks(Distributed(d, rdft2)) <= TotalBlocks(Given(w, rdft2))
  {
    hide NumBlocks, Greedy, TotalBlocks, DefaultBlock, IsPrime, Canonical;
    d := ChooseBlocks(w, nPes, rdft2);
    chosen := d;
    if rdft2 && |w| > 0 {
      d := d[|w| - 1 := Dim(w[|w| - 1].n, d[|w| - 1].b)];
    }
    if |w| == 1 {
      var prime, _ := Primes.TestPrimality(w[0].n);
      if prime {
        CanonicalWhole(w[0].n);
        d := [Dim(w[0].n, w[0].n)];
      }
    }
    d := CanonicalBlocks(d);
    StillWithin(w, nPes, rdft2, chosen, d);
  }

  lemma CanonicalWhole(n: int)
    requires 1 <= n
    ensures Canonical(n, n) == n
  {}

  /** Restoring the sizes and canonical form do not add blocks of items that are distributed. */
  lemma {:induction false} StillWithin(w: seq<Wish>, nPes: nat, rdft2: bool, chosen: seq<Dim>, d: seq<Dim>)
    requires Sized(w, nPes, rdft2, chosen, d) && forall k :: 0 <= k < |w| ==> 1 <= w[k].n
    ensures Proper(d) && Proper(Distributed(d, rdft2)) && TotalBlocks(Distributed(d, rdft2)) <= TotalBlocks(chosen)
  {
    hide NumBlocks, Greedy, TotalBlocks, DefaultBlock;
    var e := Distributed(d, rdft2);
    assert Proper(e) && |e| == |w| && forall k :: 0 <= k < |w| ==> e[k] == Dim(chosen[k].n, d[k].b);
    forall k | 0 <= k < |w| ensures Count(e[k]) <= Count(chosen[k]) {
      AtLeastOne(chosen[k].n, chosen[k].b);
      CanonicalCount(w[k].n, chosen[k].n, chosen[k].b);
      if |w| == 1 && IsPrime(w[0].n) { WholeIsOneBlock(chosen[0].n, w[0].n); }
    }
    Shrunk(chosen, e);
  }

  /** Giving a dimension of one block a block of its size does not change how many blocks any part of it has. */
  lemma CanonicalCount(n: int, m: int, b: int)
    requires 1 <= m <= n && 1 <= b
    ensures NumBlocks(m, Canonical(n, b)) == NumBlocks(m, b)
  {
    if NumBlocks(n, b) == 1 {
      CeilBounds(n, b);
      WholeIsOneBlock(m, n);
      WholeIsOneBlock(m, b);
    }
  }

  /** The block chosen for n / 2 + 1 items and np processes does for all n items exactly when choosing for n
      items would not have given a larger one. */
  lemma HalvedBlockFits(n: int, np: int)
    requires 1 <= n && 1 <= np
    ensures NumBlocks(n, DefaultBlock(n / 2 + 1, np)) <= np <==> DefaultBlock(n, np) <= DefaultBlock(n / 2 + 1, np)
  {
    DefaultBlockFits(n / 2 + 1, np);
    DefaultBlockIsLeast(n, np, DefaultBlock(n / 2 + 1, np));
  }

  lemma RoomFor(nPes: int, T: int, q: int)
    requires 0 < T && 0 <= nPes
    ensures T * q <= nPes <==> q <= nPes / T
  {
    assert nPes == T * (nPes / T) + nPes % T;
    if q <= nPes / T { TimesMonotone(q, nPes / T, T); } else { TimesMonotone(nPes / T + 1, q, T); }
  }

  lemma {:induction false} SameCounts(d: seq<Dim>, e: seq<Dim>)
    requires Proper(d) && Proper(e) && |d| == |e| && forall k :: 0 <= k < |d| ==> Count(e[k]) == Count(d[k])
    ensures TotalBlocks(e) == TotalBlocks(d)
  {
    Shrunk(d, e);
    Shrunk(e, d);
  }

  /** What the choice for the last dimension starts from. */
  lemma {:induction false} LeftForLast(w: seq<Wish>, nPes: nat, chosen: seq<Dim>)
    requires |w| == |chosen| >= 1 && w[|w| - 1].block == 0 && Proper(chosen) && Proper(Given(w, true))
    requires Greedy(w, nPes, true, chosen, |w| - 1) && TotalBlocks(chosen) <= nPes
    requires chosen[|w| - 1].n == w[|w| - 1].n / 2 + 1
    ensures var T := TotalBlocks(Front(chosen));
            0 < T && 1 <= nPes / T && chosen[|w| - 1].b == DefaultBlock(w[|w| - 1].n / 2 + 1, nPes / T)
  {
    hide NumBlocks;
    var T, m := TotalBlocks(Front(chosen)), w[|w| - 1].n / 2 + 1;
    TotalPositive(Front(chosen));
    TotalLast(chosen);
    AtLeastOne(Last(chosen).n, Last(chosen).b);
    TimesMonotone(1, Count(Last(chosen)), T);
    RoomFor(nPes, T, 1);
    var e := chosen[..|w| - 1] + Given(w, true)[|w| - 1..];
    assert Front(e) == Front(chosen) && Last(e) == Dim(m, m);
    TotalLast(e);
    WholeIsOneBlock(m, m);
  }

  /** In a real-data transform of two or more dimensions, with the last one left to the library, the sizes returned
      count no more blocks than processes exactly when the last dimension passes that test for the processes left to it. */
  lemma {:induction false} RestoredCount(w: seq<Wish>, nPes: nat, chosen: seq<Dim>, d: seq<Dim>)
    requires |w| >= 2 && (forall k :: 0 <= k < |w| ==> 1 <= w[k].n) && w[|w| - 1].block == 0 && Proper(d)
    requires Sized(w, nPes, true, chosen, d) && TotalBlocks(Given(w, true)) <= nPes
    ensures TotalBlocks(Front(chosen)) > 0 && nPes / TotalBlocks(Front(chosen)) >= 1
    ensures var left, n := nPes / TotalBlocks(Front(chosen)), w[|w| - 1].n;
            TotalBlocks(d) <= nPes <==> DefaultBlock(n, left) <= DefaultBlock(n / 2 + 1, left)
  {
    var n, T := w[|w| - 1].n, TotalBlocks(Front(chosen));
    TotalPositive(Front(chosen));
    LeftForLast(w, nPes, chosen);
    hide NumBlocks, DefaultBlock, TotalBlocks, Greedy;
    var left, b := nPes / T, chosen[|w| - 1].b;
    HalvedBlockFits(n, left);
    RoomFor(nPes, T, NumBlocks(n, b));
    RestoredTotal(w, nPes, chosen, d);
  }

  lemma {:induction false} RestoredTotal(w: seq<Wish>, nPes: nat, chosen: seq<Dim>, d: seq<Dim>)
    requires |w| >= 2 && (forall k :: 0 <= k < |w| ==> 1 <= w[k].n) && Proper(d) && Sized(w, nPes, true, chosen, d)
    ensures TotalBlocks(d) == TotalBlocks(Front(chosen)) * NumBlocks(w[|w| - 1].n, chosen[|w| - 1].b)
  {
    hide NumBlocks, DefaultBlock, TotalBlocks, Greedy;
    forall k | 0 <= k < |w| ensures NumBlocks(w[k].n, d[k].b) == NumBlocks(w[k].n, chosen[k].b) {
      CanonicalCount(w[k].n, w[k].n, chosen[k].b);
    }
    TotalLast(d);
    SameCounts(Front(chosen), Front(d));
  }

  /** The test can fail: 4 by 8 items on two processes are divided in the first dimension; the block of 5 meant for
      the 5 items distributed in the last one makes two blocks of its 8, and four blocks in all. */
  lemma {:induction false} RestoredExceeds(chosen: seq<Dim>, d: seq<Dim>)
    requires Sized([Wish(4, 0), Wish(8, 0)], 2, true, chosen, d)
    ensures d == [Dim(4, 2), Dim(8, 5)] && TotalBlocks(Distributed(d, true)) == 2 && TotalBlocks(d) == 4
  {
    var w := [Wish(4, 0), Wish(8, 0)];
    var g := Given(w, true);
    assert g == [Dim(4, 4), Dim(5, 5)];
    TwoDims(4, 4, 5, 5);
    assert chosen[..0] + g[0..] == g;
    assert Greedy(w, 2, true, chosen, 0);
    assert chosen[0] == Dim(4, 2);
    TwoDims(4, 2, 5, 5);
    assert chosen[..1] + g[1..] == [Dim(4, 2), Dim(5, 5)];
    assert Greedy(w, 2, true, chosen, 1);
    assert d == [Dim(4, 2), Dim(8, 5)];
    assert Distributed(d, true) == [Dim(4, 2), Dim(5, 5)];
    TwoDims(4, 2, 8, 5);
  }

  lemma {:induction false} TwoDims(n: nat, b: nat, m: nat, c: nat)
    requires 1 <= n && 1 <= b && 1 <= m && 1 <= c
    ensures TotalBlocks([Dim(n, b), Dim(m, c)]) == NumBlocks(n, b) * NumBlocks(m, c)
  {
    var d := [Dim(n, b), Dim(m, c)];
    hide NumBlocks;
    assert Front(d) == [Dim(n, b)] && Front(Front(d)) == [];
    TotalLast(d);
    TotalLast(Front(d));
  }

  lemma RoomLeft(nPes: int, nb: int, np: int, q: int)
    requires 1 <= nb && np == nPes / nb && 1 <= q <= np
    ensures 1 <= nb * q <= nPes
  {
    assert nPes == np * nb + nPes % nb;
    TimesMonotone(q, np, nb);
    TimesMonotone(1, q, nb);
  }
}
