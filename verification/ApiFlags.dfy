/** api/mapflags.c: from the flags of the interface to the least and the greatest impatience of the planner. */
module ApiFlags {
  import opened Subsumption

  type Api = bv32

  const FFTW_MEASURE: Api := 0
  const FFTW_DESTROY_INPUT: Api := 0x1
  const FFTW_CONSERVE_MEMORY: Api := 0x4
  const FFTW_EXHAUSTIVE: Api := 0x8
  const FFTW_PRESERVE_INPUT: Api := 0x10
  const FFTW_PATIENT: Api := 0x20
  const FFTW_ESTIMATE: Api := 0x40
  const FFTW_ESTIMATE_PATIENT: Api := 0x80
  const FFTW_BELIEVE_PCOST: Api := 0x100
  const FFTW_NO_DFT_R2HC: Api := 0x200
  const FFTW_NO_NONTHREADED: Api := 0x400
  const FFTW_NO_BUFFERING: Api := 0x800
  const FFTW_NO_INDIRECT_OP: Api := 0x1000
  const FFTW_ALLOW_LARGE_GENERIC: Api := 0x2000
  const FFTW_NO_RANK_SPLITS: Api := 0x4000
  const FFTW_NO_VRANK_SPLITS: Api := 0x8000
  const FFTW_NO_VRECURSE: Api := 0x10000
  const FFTW_NO_SIMD: Api := 0x20000
  const FFTW_NO_SLOW: Api := 0x40000
  const FFTW_NO_FIXED_RADIX_LARGE_N: Api := 0x80000
  const FFTW_ALLOW_PRUNING: Api := 0x100000
  const FFTW_WISDOM_ONLY: Api := 0x200000

  // ---- Flag operations ----

  /** A flag if xm is 0, a mask if it is x: as a predicate, some bit of x is set, or some is not; as an operation, set
      the bits of x, or clear them. */
  datatype FlagMask = FlagMask(x: Api, xm: Api)

  datatype FlagOp = FlagOp(flag: FlagMask, op: FlagMask)

  function Yes(x: Api): FlagMask { FlagMask(x, 0) }
  function No(x: Api): FlagMask { FlagMask(x, x) }
  function Eqv(a: Api, b: Api): seq<FlagOp> { [FlagOp(Yes(a), Yes(b)), FlagOp(No(a), No(b))] }
  function Neqv(a: Api, b: Api): seq<FlagOp> { [FlagOp(Yes(a), No(b)), FlagOp(No(a), Yes(b))] }

  /** One equivalence after another. */
  function Eqvs(pairs: seq<(Api, Api)>): seq<FlagOp> {
    if pairs == [] then [] else Eqvs(pairs[..|pairs| - 1]) + Eqv(pairs[|pairs| - 1].0, pairs[|pairs| - 1].1)
  }

  predicate Differ(a: Api, b: Api) {
    a ^ b != 0
  }

  predicate Holds(f: Api, m: FlagMask) {
    Differ(f & m.x, m.xm)
  }

  function Apply(f: Api, m: FlagMask): Api {
    (f | m.x) ^ m.xm
  }

  /** Consistency rules and combinations. */
  function SelfFlagMap(): seq<FlagOp> {
    [ FlagOp(Yes(FFTW_PRESERVE_INPUT), No(FFTW_DESTROY_INPUT)),
      FlagOp(No(FFTW_DESTROY_INPUT), Yes(FFTW_PRESERVE_INPUT)),
      FlagOp(Yes(FFTW_EXHAUSTIVE), Yes(FFTW_PATIENT)),
      FlagOp(Yes(FFTW_ESTIMATE), No(FFTW_PATIENT)),
      FlagOp(Yes(FFTW_ESTIMATE), Yes(FFTW_ESTIMATE_PATIENT | FFTW_NO_INDIRECT_OP | FFTW_ALLOW_PRUNING)),
      FlagOp(No(FFTW_EXHAUSTIVE), Yes(FFTW_NO_SLOW)),
      FlagOp(No(FFTW_PATIENT),
             Yes(FFTW_NO_VRECURSE | FFTW_NO_RANK_SPLITS | FFTW_NO_VRANK_SPLITS | FFTW_NO_NONTHREADED | FFTW_NO_DFT_R2HC
                 | FFTW_NO_FIXED_RADIX_LARGE_N | FFTW_BELIEVE_PCOST)) ]
  }

  /** To the least impatience: equivalences, and then that large generic transforms are forbidden unless they are allowed. */
  function LPairs(): seq<(Api, Api)> {
    [(FFTW_PRESERVE_INPUT, 0x1000), (FFTW_NO_SIMD, 0x2000), (FFTW_CONSERVE_MEMORY, 0x4000), (FFTW_NO_BUFFERING, 0x400)]
  }

  function LFlagMap(): seq<FlagOp> {
    Eqvs(LPairs()) + Neqv(FFTW_ALLOW_LARGE_GENERIC, 0x40)
  }

  /** To the greatest: what depends on exhaustive planning, and then equivalences. */
  function UPairs(): seq<(Api, Api)> {
    [(FFTW_ESTIMATE_PATIENT, 0x2), (FFTW_ALLOW_PRUNING, 0x20000), (FFTW_BELIEVE_PCOST, 0x1), (FFTW_NO_DFT_R2HC, 0x4),
     (FFTW_NO_NONTHREADED, 0x200), (FFTW_NO_INDIRECT_OP, 0x20), (FFTW_NO_RANK_SPLITS, 0x80), (FFTW_NO_VRANK_SPLITS, 0x100),
     (FFTW_NO_VRECURSE, 0x10), (FFTW_NO_SLOW, 0x8), (FFTW_NO_FIXED_RADIX_LARGE_N, 0x800)]
  }

  function UFlagMap(): seq<FlagOp> {
    [FlagOp(Yes(FFTW_EXHAUSTIVE), No(0xFFFFFFFF)), FlagOp(No(FFTW_EXHAUSTIVE), Yes(0x10000))] + Eqvs(UPairs())
  }

  /** map_flags, from one word to another. */
  function Mapped(i: Api, o: Api, map_: seq<FlagOp>): Api {
    if map_ == [] then o
    else
      var n := |map_| - 1;
      var r := Mapped(i, o, map_[..n]);
      if Holds(i, map_[n].flag) then Apply(r, map_[n].op) else r
  }

  /** map_flags, from a word to itself. */
  function SelfMapped(f: Api, map_: seq<FlagOp>): Api {
    if map_ == [] then f
    else
      var n := |map_| - 1;
      var r := SelfMapped(f, map_[..n]);
      if Holds(r, map_[n].flag) then Apply(r, map_[n].op) else r
  }

  method MapFlags(iflags: Api, oflags: Api, map_: seq<FlagOp>) returns (o: Api)
    ensures o == Mapped(iflags, oflags, map_)
  {
    hide Holds, Apply;
    o := oflags;
    for k := 0 to |map_|
      invariant o == Mapped(iflags, oflags, map_[..k])
    {
      assert map_[..k + 1][..k] == map_[..k];
      if Holds(iflags, map_[k].flag) {
        o := Apply(o, map_[k].op);
      }
    }
    assert map_[..|map_|] == map_;
  }

  method MapSelf(flags: Api, map_: seq<FlagOp>) returns (f: Api)
    ensures f == SelfMapped(flags, map_)
  {
    hide Holds, Apply;
    f := flags;
    for k := 0 to |map_|
      invariant f == SelfMapped(flags, map_[..k])
    {
      assert map_[..k + 1][..k] == map_[..k];
      if Holds(f, map_[k].flag) {
        f := Apply(f, map_[k].op);
      }
    }
    assert map_[..|map_|] == map_;
  }

  function LeastOf(flags: Api): Api {
    Mapped(SelfMapped(flags, SelfFlagMap()), 0, LFlagMap())
  }

  function GreatestOf(flags: Api): Api {
    Mapped(SelfMapped(flags, SelfFlagMap()), 0, UFlagMap())
  }

  // ---- The conversion loses no bits ----

  /** The bits beyond the fields, and NO_DHT_R2HC: no flag of the interface sets them. */
  const HIGH: Api := 0xFFF08000

  /** An operation that sets no high bit. */
  predicate Low(op: FlagOp) {
    (op.op.xm == 0 && op.op.x & HIGH == 0) || op.op.xm == op.op.x
  }

  lemma ApplyLow(f: Api, x: Api, y: Api)
    requires f & HIGH == 0 && ((y == 0 && x & HIGH == 0) || y == x)
    ensures ((f | x) ^ y) & HIGH == 0
  {}

  lemma XorNothing(f: Api)
    ensures f ^ 0 == f
  {}

  lemma {:induction false} MappedLow(i: Api, map_: seq<FlagOp>)
    requires forall k :: 0 <= k < |map_| ==> Low(map_[k])
    ensures Mapped(i, 0, map_) & HIGH == 0
  {
    hide Holds, Apply, Low;
    if map_ != [] {
      var n := |map_| - 1;
      MappedLow(i, map_[..n]);
      OpLow(Mapped(i, 0, map_[..n]), map_[n]);
    }
  }

  lemma OpLow(f: Api, op: FlagOp)
    requires f & HIGH == 0 && Low(op)
    ensures Apply(f, op.op) & HIGH == 0
  {
    ApplyLow(f, op.op.x, op.op.xm);
  }

  lemma {:induction false} EqvsLow(pairs: seq<(Api, Api)>)
    requires forall j :: 0 <= j < |pairs| ==> pairs[j].1 & HIGH == 0
    ensures forall k :: 0 <= k < |Eqvs(pairs)| ==> Low(Eqvs(pairs)[k])
  {
    hide Low;
    if pairs != [] {
      EqvsLow(pairs[..|pairs| - 1]);
      EqvLow(pairs[|pairs| - 1].0, pairs[|pairs| - 1].1);
    }
  }

  lemma EqvLow(a: Api, b: Api)
    requires b & HIGH == 0
    ensures forall k :: 0 <= k < 2 ==> Low(Eqv(a, b)[k]) && Low(Neqv(a, b)[k])
  {}

  lemma PairsLow()
    ensures forall j :: 0 <= j < |LPairs()| ==> LPairs()[j].1 & HIGH == 0
    ensures forall j :: 0 <= j < |UPairs()| ==> UPairs()[j].1 & HIGH == 0
    ensures Low(FlagOp(Yes(FFTW_EXHAUSTIVE), No(0xFFFFFFFF))) && Low(FlagOp(No(FFTW_EXHAUSTIVE), Yes(0x10000)))
    ensures (0x40 as Api) & HIGH == 0
  {}

  lemma MapsLow()
    ensures forall k :: 0 <= k < |LFlagMap()| ==> Low(LFlagMap()[k])
    ensures forall k :: 0 <= k < |UFlagMap()| ==> Low(UFlagMap()[k])
  {
    hide Low, Eqvs, LPairs, UPairs, Eqv, Neqv;
    PairsLow();
    EqvsLow(LPairs());
    EqvsLow(UPairs());
    EqvLow(FFTW_ALLOW_LARGE_GENERIC, 0x40);
    assert |Neqv(FFTW_ALLOW_LARGE_GENERIC, 0x40)| == 2 by { TwoOps(FFTW_ALLOW_LARGE_GENERIC, 0x40); }
  }

  lemma TwoOps(a: Api, b: Api)
    ensures |Neqv(a, b)| == |Eqv(a, b)| == 2
  {}

  lemma LowFits(x: Api)
    requires x & HIGH == 0
    ensures x < 0x100000
  {}

  /** A field of 20 bits. */
  function Narrow(x: Api): Mask
    requires x & HIGH == 0
  {
    LowFits(x);
    x as Mask
  }

  function Wide(m: Mask): Api {
    m as Api
  }

  lemma NarrowWide(x: Api)
    requires x & HIGH == 0
    ensures Wide(Narrow(x)) == x
  {
    LowFits(x);
  }

  lemma NarrowClear(x: Api)
    requires x & HIGH == 0
    ensures Narrow(x) & 0x8000 == 0
  {
    LowFits(x);
  }

  lemma NarrowWithin(x: Api, y: Api)
    requires x & HIGH == 0 && y & HIGH == 0 && x & y == x
    ensures Leq(Narrow(x), Narrow(y))
  {
    LowFits(x);
    LowFits(y);
  }

  function Both(u: Api, l: Api): Api { u | l }

  lemma OrContains(u: Api, l: Api)
    ensures l & Both(u, l) == l
  {}

  lemma OrLow(u: Api, l: Api)
    requires u & HIGH == 0 && l & HIGH == 0
    ensures Both(u, l) & HIGH == 0
  {}

  lemma BothLow(flags: Api)
    ensures LeastOf(flags) & HIGH == 0 && GreatestOf(flags) & HIGH == 0
  {
    hide LFlagMap, UFlagMap, Mapped, SelfMapped, Low;
    MapsLow();
    MappedLow(SelfMapped(flags, SelfFlagMap()), LFlagMap());
    MappedLow(SelfMapped(flags, SelfFlagMap()), UFlagMap());
  }

  /** The flags of the planner: u is made to contain l. */
  function PlannerFlags(flags: Api, t: nat): Flags {
    hide LeastOf, GreatestOf, Narrow, Both;
    BothLow(flags);
    OrLow(GreatestOf(flags), LeastOf(flags));
    Flags(Narrow(LeastOf(flags)), Narrow(Both(GreatestOf(flags), LeastOf(flags))), t)
  }

  /** No bits are lost, and l is within u. */
  lemma PlannerFlagsAre(flags: Api, t: nat)
    ensures var f := PlannerFlags(flags, t);
            Wide(f.l) == LeastOf(flags) && Wide(f.u) == Both(GreatestOf(flags), LeastOf(flags)) && Asked(f)
  {
    hide LeastOf, GreatestOf, Leq, Narrow, Both, Wide;
    BothLow(flags);
    var u, l := GreatestOf(flags), LeastOf(flags);
    OrLow(u, l);
    OrContains(u, l);
    NarrowWide(l);
    NarrowWide(Both(u, l));
    NarrowWithin(l, Both(u, l));
  }

  /** NO_DHT_R2HC is in neither. */
  lemma PlannerFlagsClear(flags: Api, t: nat)
    ensures PlannerFlags(flags, t).l & 0x8000 == 0 && PlannerFlags(flags, t).u & 0x8000 == 0
  {
    hide LeastOf, GreatestOf, Narrow, Both;
    BothLow(flags);
    var u, l := GreatestOf(flags), LeastOf(flags);
    OrLow(u, l);
    NarrowClear(l);
    NarrowClear(Both(u, l));
  }

  // ---- Patience does not matter to l ----

  const CARE: Api := FFTW_DESTROY_INPUT | FFTW_PRESERVE_INPUT | FFTW_NO_SIMD | FFTW_CONSERVE_MEMORY | FFTW_NO_BUFFERING
                     | FFTW_ALLOW_LARGE_GENERIC

  /** What the operation tests is in CARE, or what it changes is not. */
  predicate Apart(op: FlagOp) {
    && (op.op.xm == 0 || op.op.xm == op.op.x) && (op.flag.xm == 0 || op.flag.xm == op.flag.x)
    && (op.flag.x & !CARE == 0 || op.op.x & CARE == 0)
  }

  lemma HoldsAlike(f: Api, g: Api, x: Api)
    requires f & CARE == g & CARE && x & !CARE == 0
    ensures f & x == g & x
  {}

  lemma ApplyAlike(f: Api, g: Api, x: Api)
    requires f & CARE == g & CARE
    ensures (f | x) & CARE == (g | x) & CARE && ((f | x) ^ x) & CARE == ((g | x) ^ x) & CARE
    ensures x & CARE == 0 ==> (f | x) & CARE == f & CARE && ((f | x) ^ x) & CARE == f & CARE
  {}

  lemma StepAlike(f: Api, g: Api, op: FlagOp)
    requires f & CARE == g & CARE && Apart(op)
    ensures var f' := if Holds(f, op.flag) then Apply(f, op.op) else f;
            var g' := if Holds(g, op.flag) then Apply(g, op.op) else g;
            f' & CARE == g' & CARE
  {
    hide Holds, Apply;
    if op.flag.x & !CARE == 0 {
      TestAlike(f, g, op.flag);
      ChangeAlike(f, g, op.op);
    } else {
      NoChange(f, op.op);
      NoChange(g, op.op);
    }
  }

  lemma TestAlike(f: Api, g: Api, m: FlagMask)
    requires f & CARE == g & CARE && m.x & !CARE == 0
    ensures Holds(f, m) == Holds(g, m)
  {
    hide Differ;
    HoldsAlike(f, g, m.x);
  }

  lemma ChangeAlike(f: Api, g: Api, m: FlagMask)
    requires f & CARE == g & CARE && (m.xm == 0 || m.xm == m.x)
    ensures Apply(f, m) & CARE == Apply(g, m) & CARE
  {
    ApplyAlike(f, g, m.x);
    XorNothing(f | m.x);
    XorNothing(g | m.x);
  }

  lemma NoChange(f: Api, m: FlagMask)
    requires m.x & CARE == 0 && (m.xm == 0 || m.xm == m.x)
    ensures Apply(f, m) & CARE == f & CARE
  {
    ApplyAlike(f, f, m.x);
    XorNothing(f | m.x);
  }

  lemma {:induction false} SelfAlike(f: Api, g: Api, map_: seq<FlagOp>)
    requires f & CARE == g & CARE && forall k :: 0 <= k < |map_| ==> Apart(map_[k])
    ensures SelfMapped(f, map_) & CARE == SelfMapped(g, map_) & CARE
  {
    hide Holds, Apply, Apart;
    if map_ != [] {
      var n := |map_| - 1;
      SelfAlike(f, g, map_[..n]);
      StepAlike(SelfMapped(f, map_[..n]), SelfMapped(g, map_[..n]), map_[n]);
    }
  }

  lemma {:induction false} MappedAlike(f: Api, g: Api, o: Api, map_: seq<FlagOp>)
    requires f & CARE == g & CARE && forall k :: 0 <= k < |map_| ==> TestsCare(map_[k])
    ensures Mapped(f, o, map_) == Mapped(g, o, map_)
  {
    hide Apply, Holds;
    if map_ != [] {
      var n := |map_| - 1;
      MappedAlike(f, g, o, map_[..n]);
      TestAlike(f, g, map_[n].flag);
    }
  }

  lemma SelfMapApart()
    ensures forall k :: 0 <= k < |SelfFlagMap()| ==> Apart(SelfFlagMap()[k])
  {}

  /** The operation tests nothing but what is in CARE. */
  predicate TestsCare(op: FlagOp) {
    op.flag.x & !CARE == 0
  }

  lemma {:induction false} EqvsTest(pairs: seq<(Api, Api)>)
    requires forall j :: 0 <= j < |pairs| ==> pairs[j].0 & !CARE == 0
    ensures forall k :: 0 <= k < |Eqvs(pairs)| ==> TestsCare(Eqvs(pairs)[k])
  {
    hide TestsCare;
    if pairs != [] {
      EqvsTest(pairs[..|pairs| - 1]);
      EqvTests(pairs[|pairs| - 1].0, pairs[|pairs| - 1].1);
    }
  }

  lemma EqvTests(a: Api, b: Api)
    requires a & !CARE == 0
    ensures forall k :: 0 <= k < 2 ==> TestsCare(Eqv(a, b)[k]) && TestsCare(Neqv(a, b)[k])
  {}

  lemma LPairsTest()
    ensures forall j :: 0 <= j < |LPairs()| ==> LPairs()[j].0 & !CARE == 0
    ensures FFTW_ALLOW_LARGE_GENERIC & !CARE == 0
  {}

  lemma LMapTests()
    ensures forall k :: 0 <= k < |LFlagMap()| ==> TestsCare(LFlagMap()[k])
  {
    hide TestsCare, Eqvs, LPairs, Eqv, Neqv;
    LPairsTest();
    EqvsTest(LPairs());
    EqvTests(FFTW_ALLOW_LARGE_GENERIC, 0x40);
    TwoOps(FFTW_ALLOW_LARGE_GENERIC, 0x40);
  }

  lemma LeastAlike(f: Api, g: Api)
    requires f & CARE == g & CARE
    ensures LeastOf(f) == LeastOf(g)
  {
    hide SelfFlagMap, LFlagMap, Apart, TestsCare;
    SelfMapApart();
    LMapTests();
    SelfAlike(f, g, SelfFlagMap());
    MappedAlike(SelfMapped(f, SelfFlagMap()), SelfMapped(g, SelfFlagMap()), 0, LFlagMap());
  }

  const PATIENCE: Api := FFTW_ESTIMATE | FFTW_MEASURE | FFTW_PATIENT | FFTW_EXHAUSTIVE

  /** force_estimator */
  function ForceEstimator(flags: Api): Api {
    (flags & !(FFTW_MEASURE | FFTW_PATIENT | FFTW_EXHAUSTIVE)) | FFTW_ESTIMATE
  }

  /** How patiently to plan makes no difference to the least impatience. */
  lemma PatienceKeepsLeast(flags: Api, x: Api)
    requires x & !PATIENCE == 0
    ensures LeastOf((flags & !PATIENCE) | x) == LeastOf(flags) && LeastOf(ForceEstimator(flags)) == LeastOf(flags)
  {
    hide LeastOf;
    PatienceBits(flags, x);
    LeastAlike((flags & !PATIENCE) | x, flags);
    LeastAlike(ForceEstimator(flags), flags);
  }

  lemma PatienceBits(flags: Api, x: Api)
    requires x & !PATIENCE == 0
    ensures ((flags & !PATIENCE) | x) & CARE == flags & CARE && ForceEstimator(flags) & CARE == flags & CARE
  {}
}
