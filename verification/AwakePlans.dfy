/** dft/dftw-generic.c and dft/generic.c: plans take their tables from the cache on waking, and give them back. */
module AwakePlans {
  import opened ModArith
  import opened Complex
  import opened Fourier
  import Grid
  import Strided
  import opened TwiddleTable
  import TwiddleProgram
  import opened TwiddleLayout
  import opened TwiddleCache
  import opened CtPlan
  import Generic

  /** twiddle_awake with a sleeping plan. */
  method GiveBack(cache: Cache, t: Twid)
    requires cache.Valid() && t in cache.holders
    modifies cache, cache.Repr
    ensures cache.Valid() && cache.Repr == old(cache.Repr) && cache.holders == old(cache.holders) - multiset{t}
  {
    InCache(cache, t);
    hide Cache.Valid;
    cache.Sleep(t);
  }

  lemma InCache(cache: Cache, t: Twid)
    requires cache.Valid() && t in cache.holders
    ensures t in cache.Repr && cache.lists in cache.Repr
  {
    hide Shelved, Cache.Filled;
    assert cache.Kept(t);
  }

  // ---- Composite sizes ----

  ghost predicate DitDone(s: seq<C>, before: seq<C>, after: seq<C>, p: CtPlan.Problem, i0: int, o0: int, e: int -> C)
    requires p.Valid()
  {
    Grid.Written(before, after, Outputs(Whole(p), o0), p.n, 1, p.v, (q, a, b) => Transformed(s, p, i0, e, q, b))
  }

  /** mktwiddle and apply_dit: the table is taken from the cache on waking, and given back. */
  method SolveDit(p: CtPlan.Problem, cache: Cache, wake: TwiddleProgram.Wakefulness, input: array<C>, i0: int,
                  output: array<C>, o0: int)
    requires p.Valid() && cache.Valid() && IsRoot(cache.trig(wake, p.n), p.n) && input !in cache.Repr
      && output !in cache.Repr
    requires Grid.Fits(input.Length, Inputs(Whole(p), i0), p.n, 1, p.v)
    requires Grid.Fits(output.Length, Outputs(Whole(p), o0), p.n, 1, p.v) && Grid.Apart(Outputs(Whole(p), o0), p.n,
      1, p.v)
    modifies output, cache, cache.Repr
    ensures cache.Valid() && cache.holders == old(cache.holders)
    ensures DitDone(old(input[..]), old(output[..]), output[..], p, i0, o0, cache.trig(wake, p.n))
  {
    hide Mul, Inputs, Outputs, Grid.Fits, Grid.Apart, Grid.Written, IsRoot, IsTable, Pairs, Transformed, Cache.Valid;
    var t := WakeTable(p, cache, wake);
    ApplyDit(p, t.W, cache.trig(wake, p.n), input, i0, output, o0);
    GiveBack(cache, t);
  }

  ghost predicate DifDone(s: seq<C>, before: seq<C>, after: seq<C>, p: CtPlan.Problem, i0: int, o0: int, e: int -> C,
    inPlace: bool)
    requires p.Valid()
  {
    && (forall q, b :: Grid.In(p.n, 1, p.v, q, 0, b) ==> Grid.Placed(after, Outputs(Whole(p), o0), q, 0, b,
      Transformed(s, p, i0, e, q, b)))
    && SameOutside(before, after, p, i0, o0, inPlace)
  }

  /** mktwiddle and apply_dif. */
  method SolveDif(p: CtPlan.Problem, cache: Cache, wake: TwiddleProgram.Wakefulness, input: array<C>, i0: int,
                  output: array<C>, o0: int)
    requires p.Valid() && cache.Valid() && IsRoot(cache.trig(wake, p.n), p.n) && input !in cache.Repr
      && output !in cache.Repr
    requires Grid.Fits(input.Length, Inputs(Whole(p), i0), p.n, 1, p.v) && Grid.Apart(Inputs(Whole(p), i0), p.n, 1, p.v)
    requires Grid.Fits(output.Length, Outputs(Whole(p), o0), p.n, 1, p.v) && Grid.Apart(Outputs(Whole(p), o0), p.n,
      1, p.v)
    modifies input, output, cache, cache.Repr
    ensures cache.Valid() && cache.holders == old(cache.holders)
    ensures DifDone(old(input[..]), old(output[..]), output[..], p, i0, o0, cache.trig(wake, p.n), input == output)
  {
    hide Mul, Inputs, Outputs, Grid.Fits, Grid.Apart, Grid.Placed, Grid.In, IsRoot, IsTable, Pairs, Transformed,
         SameOutside,
         Cache.Valid;
    var t := WakeTable(p, cache, wake);
    ApplyDif(p, t.W, cache.trig(wake, p.n), input, i0, output, o0);
    GiveBack(cache, t);
  }

  method WakeTable(p: CtPlan.Problem, cache: Cache, wake: TwiddleProgram.Wakefulness) returns (t: Twid)
    requires p.Valid() && cache.Valid()
    modifies cache, cache.Repr
    ensures cache.Valid() && fresh(cache.Repr - old(cache.Repr)) && cache.holders == old(cache.holders) + multiset{t}
    ensures IsTable(Pairs(t.W[..]), FullTwiddle(cache.trig(wake, p.n)), p.r, p.m)
  {
    hide Cache.Valid, IsTable, Pairs, TwiddleProgram.Rows;
    PositiveSize(p);
    t := cache.Wake(wake, OneInstr(TwiddleProgram.FULL, 0), p.n, p.m, p.r);
    ServedFull(cache.trig(wake, p.n), p.n, p.m, p.r, t.W[..]);
  }

  lemma PositiveSize(p: CtPlan.Problem)
    requires p.Valid()
    ensures 1 <= p.n
  {
    TimesMonotone(1, p.r, p.m);
  }

  // ---- Odd sizes ----

  /** awake takes from the cache the half table, row k of which cdot reads for output k. */
  method SolveGeneric(n: nat, h: nat, cache: Cache, wake: TwiddleProgram.Wakefulness, input: array<C>, i0: int,
    ist: int,
               output: array<C>, o0: int, ost: int)
    requires n == 2 * h + 1 && cache.Valid() && IsRoot(cache.trig(wake, n), n) && input !in cache.Repr
      && output !in cache.Repr
    requires Strided.Fits(input.Length, i0, ist, n) && Strided.Fits(output.Length, o0, ost, n) && Strided.Apart(o0,
      ost, n)
    modifies output, cache, cache.Repr
    ensures cache.Valid() && cache.holders == old(cache.holders)
    ensures Strided.Written(old(output[..]), output[..], o0, ost, n, k => Dft(Strided.View(old(input[..]), i0, ist),
      cache.trig(wake, n), n, k))
  {
    hide Dft, Strided.View, Strided.Written, Strided.Fits, Strided.Apart, IsRoot, IsTable, Pairs,
         TwiddleProgram.Rows, Cache.Valid;
    var t := cache.Wake(wake, OneInstr(TwiddleProgram.HALF, 1), n, n, h);
    ghost var e := cache.trig(wake, n);
    ServedHalf(e, n, h, t.W[..]);
    Generic.Apply(n, h, t.W, input, i0, ist, output, o0, ost, e);
    GiveBack(cache, t);
  }
}
