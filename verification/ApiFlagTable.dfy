/** api/mapflags.c: what each flag of the interface does to the least and the greatest impatience of the planner. */
module ApiFlagTable {
  import opened Subsumption
  import opened ApiFlags

  // ---- Operations in bits ----

  lemma HoldsYes(f: Api, a: Api)
    ensures Holds(f, Yes(a)) <==> On(f, a)
  {
    hide Differ;
    DifferIs(f & a);
  }

  lemma DifferIs(x: Api)
    ensures Differ(x, 0) <==> x != 0
  {}

  /** For a single flag. */
  predicate OneBit(a: Api) {
    a == 0x1 || a == 0x4 || a == 0x8 || a == 0x10 || a == 0x20 || a == 0x40 || a == 0x80 || a == 0x100 || a == 0x200 || a == 0x400
    || a == 0x800 || a == 0x1000 || a == 0x2000 || a == 0x4000 || a == 0x8000 || a == 0x10000 || a == 0x20000 || a == 0x40000
    || a == 0x80000 || a == 0x100000
  }

  lemma HoldsNo(f: Api, a: Api)
    requires OneBit(a)
    ensures Holds(f, No(a)) <==> !On(f, a)
  {
    hide Holds, Differ, On, OneBit;
    HoldsIs(f, a);
    OnlyTwo(f, a);
  }

  lemma HoldsIs(f: Api, a: Api)
    ensures Holds(f, No(a)) <==> Differ(f & a, a)
  {
    hide Differ;
  }

  lemma OnlyTwo(f: Api, a: Api)
    requires OneBit(a)
    ensures Differ(f & a, a) <==> !On(f, a)
  {}

  lemma ApplyYes(f: Api, x: Api)
    ensures Apply(f, Yes(x)) == f | x
  {}

  lemma ApplyNo(f: Api, x: Api)
    ensures Apply(f, No(x)) == f & !x
  {}

  // ---- Consistency rules ----

  function Cleared(f: Api, x: Api): Api { f & !x }
  function Joined(f: Api, x: Api): Api { f | x }
  predicate On(f: Api, a: Api) { f & a != 0 }

  function Rule1(f: Api): Api { if On(f, 0x10) then Cleared(f, 0x1) else f }
  function Rule2(f: Api): Api { if !On(f, 0x1) then Joined(f, 0x10) else f }
  function Rule3(f: Api): Api { if On(f, 0x8) then Joined(f, 0x20) else f }
  function Rule4(f: Api): Api { if On(f, 0x40) then Cleared(f, 0x20) else f }
  function Rule5(f: Api): Api { if On(f, 0x40) then Joined(f, 0x101080) else f }
  function Rule6(f: Api): Api { if !On(f, 0x8) then Joined(f, 0x40000) else f }
  function Rule7(f: Api): Api { if !On(f, 0x20) then Joined(f, 0x9C700) else f }

  /** One more entry. */
  lemma SelfNext(f: Api, map_: seq<FlagOp>, k: nat, g: Api, h: Api)
    requires k < |map_| && SelfMapped(f, map_[..k]) == g && Does(g, map_[k], h)
    ensures SelfMapped(f, map_[..k + 1]) == h
  {
    hide Holds, Apply;
    assert map_[..k + 1][..k] == map_[..k];
  }

  lemma SelfIsRules(f: Api)
    ensures SelfMapped(f, SelfFlagMap()) == Rule7(Rule6(Rule5(Rule4(Rule3(Rule2(Rule1(f)))))))
  {
    hide SelfMapped, SelfFlagMap, Does, Rule1, Rule2, Rule3, Rule4, Rule5, Rule6, Rule7;
    var m := SelfFlagMap();
    var f1 := Rule1(f);
    var f2 := Rule2(f1);
    var f3 := Rule3(f2);
    var f4 := Rule4(f3);
    var f5 := Rule5(f4);
    var f6 := Rule6(f5);
    RulesAre(f);
    RulesAre(f1);
    RulesAre(f2);
    RulesAre(f3);
    RulesAre(f4);
    RulesAre(f5);
    RulesAre(f6);
    assert m[..0] == [] && m[..7] == m;
    NothingMapped(f);
    SelfNext(f, m, 0, f, f1);
    SelfNext(f, m, 1, f1, f2);
    SelfNext(f, m, 2, f2, f3);
    SelfNext(f, m, 3, f3, f4);
    SelfNext(f, m, 4, f4, f5);
    SelfNext(f, m, 5, f5, f6);
    SelfNext(f, m, 6, f6, Rule7(f6));
  }

  lemma NothingMapped(f: Api)
    ensures SelfMapped(f, []) == f && Mapped(f, 0, []) == 0
  {}

  predicate Does(f: Api, op: FlagOp, g: Api) {
    g == if Holds(f, op.flag) then Apply(f, op.op) else f
  }

  lemma RulesAre(f: Api)
    ensures var m := SelfFlagMap();
            && |m| == 7 && Does(f, m[0], Rule1(f)) && Does(f, m[1], Rule2(f)) && Does(f, m[2], Rule3(f)) && Does(f, m[3], Rule4(f))
            && Does(f, m[4], Rule5(f)) && Does(f, m[5], Rule6(f)) && Does(f, m[6], Rule7(f))
  {
    hide Holds, Apply, OneBit, On, Cleared, Joined;
    MapEntries();
    YesNo(f, 0x10, 0x1);
    NoYes(f, 0x1, 0x10);
    YesYes(f, 0x8, 0x20);
    YesNo(f, 0x40, 0x20);
    YesYes(f, 0x40, 0x101080);
    NoYes(f, 0x8, 0x40000);
    NoYes(f, 0x20, 0x9C700);
  }

  lemma MapEntries()
    ensures SelfFlagMap() == [FlagOp(Yes(0x10), No(0x1)), FlagOp(No(0x1), Yes(0x10)), FlagOp(Yes(0x8), Yes(0x20)),
                              FlagOp(Yes(0x40), No(0x20)), FlagOp(Yes(0x40), Yes(0x101080)), FlagOp(No(0x8), Yes(0x40000)),
                              FlagOp(No(0x20), Yes(0x9C700))]
    ensures OneBit(0x1) && OneBit(0x8) && OneBit(0x20)
  {}

  lemma YesNo(f: Api, a: Api, x: Api)
    ensures Does(f, FlagOp(Yes(a), No(x)), if On(f, a) then Cleared(f, x) else f)
  {
    HoldsYes(f, a);
    ApplyNo(f, x);
  }

  lemma YesYes(f: Api, a: Api, x: Api)
    ensures Does(f, FlagOp(Yes(a), Yes(x)), if On(f, a) then Joined(f, x) else f)
  {
    HoldsYes(f, a);
    ApplyYes(f, x);
  }

  lemma NoYes(f: Api, a: Api, x: Api)
    requires OneBit(a)
    ensures Does(f, FlagOp(No(a), Yes(x)), if !On(f, a) then Joined(f, x) else f)
  {
    HoldsNo(f, a);
    ApplyYes(f, x);
  }

  // ---- What the rules do to one flag ----

  /** The flag a is none of x. */
  predicate Misses(x: Api, a: Api) { x & a == 0 }

  /** The flag a is one of x. */
  predicate Hits(x: Api, a: Api) { x & a == a && a != 0 }

  function And(f: Api, a: Api): Api { f & a }
  function Or(f: Api, a: Api): Api { f | a }

  lemma OnIs(f: Api, a: Api)
    ensures On(f, a) <==> And(f, a) != 0
  {}

  lemma JoinedAt(f: Api, x: Api, a: Api)
    ensures And(Joined(f, x), a) == Or(And(f, a), And(x, a))
  {}

  lemma ClearedAt(f: Api, x: Api, a: Api)
    ensures And(Cleared(f, x), a) == And(f, Cleared(a, x))
  {}

  lemma OrNone(x: Api)
    ensures Or(x, 0) == x
  {}

  lemma NotHit(x: Api, a: Api)
    requires Misses(x, a)
    ensures And(x, a) == 0 && Cleared(a, x) == a
  {}

  lemma WhollyHit(f: Api, x: Api, a: Api)
    requires Hits(x, a)
    ensures And(x, a) == a && Cleared(a, x) == 0 && And(f, 0) == 0 && a != 0
  {}

  lemma OrAll(x: Api, a: Api)
    requires a != 0
    ensures Or(x, a) != 0
  {}

  lemma JoinedMisses(f: Api, x: Api, a: Api)
    requires Misses(x, a)
    ensures On(Joined(f, x), a) <==> On(f, a)
  {
    hide Misses, On, Joined, Cleared, And, Or;
    OnIs(Joined(f, x), a);
    OnIs(f, a);
    JoinedAt(f, x, a);
    NotHit(x, a);
    OrNone(And(f, a));
  }

  lemma JoinedHits(f: Api, x: Api, a: Api)
    requires Hits(x, a)
    ensures On(Joined(f, x), a)
  {
    hide Hits, On, Joined, Cleared, And, Or;
    OnIs(Joined(f, x), a);
    JoinedAt(f, x, a);
    WhollyHit(f, x, a);
    OrAll(And(f, a), a);
  }

  lemma ClearedMisses(f: Api, x: Api, a: Api)
    requires Misses(x, a)
    ensures On(Cleared(f, x), a) <==> On(f, a)
  {
    hide Misses, On, Joined, Cleared, And, Or;
    OnIs(Cleared(f, x), a);
    OnIs(f, a);
    ClearedAt(f, x, a);
    NotHit(x, a);
  }

  lemma ClearedHits(f: Api, x: Api, a: Api)
    requires Hits(x, a)
    ensures !On(Cleared(f, x), a)
  {
    hide Hits, On, Joined, Cleared, And, Or;
    OnIs(Cleared(f, x), a);
    ClearedAt(f, x, a);
    WhollyHit(f, x, a);
  }

  function Ruled(f: Api): Api {
    Rule7(Rule6(Rule5(Rule4(Rule3(Rule2(Rule1(f)))))))
  }

  /** The first four rules change these flags only. */
  lemma FourMiss(f: Api, a: Api)
    requires Misses(0x1, a) && Misses(0x10, a) && Misses(0x20, a)
    ensures On(Rule4(Rule3(Rule2(Rule1(f)))), a) <==> On(f, a)
  {
    hide On, Joined, Cleared, Misses;
    ClearedMisses(f, 0x1, a);
    JoinedMisses(Rule1(f), 0x10, a);
    JoinedMisses(Rule2(Rule1(f)), 0x20, a);
    ClearedMisses(Rule3(Rule2(Rule1(f))), 0x20, a);
  }

  lemma FiveMisses(f: Api, a: Api)
    requires Misses(0x101080, a)
    ensures On(Rule5(f), a) <==> On(f, a)
  {
    hide On, Joined, Misses;
    JoinedMisses(f, 0x101080, a);
  }

  lemma SixMisses(f: Api, a: Api)
    requires Misses(0x40000, a)
    ensures On(Rule6(f), a) <==> On(f, a)
  {
    hide On, Joined, Misses;
    JoinedMisses(f, 0x40000, a);
  }

  lemma SevenMisses(f: Api, a: Api)
    requires Misses(0x9C700, a)
    ensures On(Rule7(f), a) <==> On(f, a)
  {
    hide On, Joined, Misses;
    JoinedMisses(f, 0x9C700, a);
  }

  lemma FlagsApart()
    ensures Misses(0x1, 0x40) && Misses(0x10, 0x40) && Misses(0x20, 0x40)
    ensures Misses(0x1, 0x8) && Misses(0x10, 0x8) && Misses(0x20, 0x8) && Misses(0x101080, 0x8)
    ensures Misses(0x101080, 0x20) && Misses(0x40000, 0x20)
  {}

  /** A flag that no rule changes. */
  lemma RuledSame(f: Api, a: Api)
    requires Misses(0x1, a) && Misses(0x10, a) && Misses(0x20, a) && Misses(0x101080, a) && Misses(0x40000, a)
    requires Misses(0x9C700, a)
    ensures On(Ruled(f), a) <==> On(f, a)
  {
    hide On, Misses, Rule1, Rule2, Rule3, Rule4, Rule5, Rule6, Rule7;
    var g := Rule4(Rule3(Rule2(Rule1(f))));
    FourMiss(f, a);
    FiveMisses(g, a);
    SixMisses(Rule5(g), a);
    SevenMisses(Rule6(Rule5(g)), a);
  }

  /** A flag that the estimator implies. */
  lemma RuledEstimate(f: Api, a: Api)
    requires Misses(0x1, a) && Misses(0x10, a) && Misses(0x20, a) && Hits(0x101080, a) && Misses(0x40000, a)
    requires Misses(0x9C700, a)
    ensures On(Ruled(f), a) <==> On(f, a) || On(f, 0x40)
  {
    hide On, Misses, Hits, Joined, Rule1, Rule2, Rule3, Rule4, Rule6, Rule7;
    var g := Rule4(Rule3(Rule2(Rule1(f))));
    FlagsApart();
    FourMiss(f, a);
    FourMiss(f, 0x40);
    JoinedHits(g, 0x101080, a);
    SixMisses(Rule5(g), a);
    SevenMisses(Rule6(Rule5(g)), a);
  }

  /** NO_SLOW, which every planner but the exhaustive has. */
  lemma RuledSlow(f: Api, a: Api)
    requires Misses(0x1, a) && Misses(0x10, a) && Misses(0x20, a) && Misses(0x101080, a) && Hits(0x40000, a)
    requires Misses(0x9C700, a)
    ensures On(Ruled(f), a) <==> On(f, a) || !On(f, 0x8)
  {
    hide On, Misses, Hits, Joined, Rule1, Rule2, Rule3, Rule4, Rule5, Rule7;
    var g := Rule4(Rule3(Rule2(Rule1(f))));
    FlagsApart();
    FourMiss(f, a);
    FourMiss(f, 0x8);
    FiveMisses(g, a);
    FiveMisses(g, 0x8);
    JoinedHits(Rule5(g), 0x40000, a);
    SevenMisses(Rule6(Rule5(g)), a);
  }

  /** Whether to plan patiently: asked for, or for more, and not to estimate. */
  predicate Patient(f: Api) {
    (On(f, 0x20) || On(f, 0x8)) && !On(f, 0x40)
  }

  lemma PatientRule(f: Api)
    ensures On(Rule6(Rule5(Rule4(Rule3(Rule2(Rule1(f)))))), 0x20) <==> Patient(f)
  {
    hide On, Misses, Hits, Joined, Cleared, Rule5, Rule6;
    var f1 := Rule1(f);
    var f2 := Rule2(f1);
    var f3 := Rule3(f2);
    var f4 := Rule4(f3);
    FlagsApart();
    TwoApart();
    ClearedMisses(f, 0x1, 0x20);
    ClearedMisses(f, 0x1, 0x8);
    ClearedMisses(f, 0x1, 0x40);
    JoinedMisses(f1, 0x10, 0x20);
    JoinedMisses(f1, 0x10, 0x8);
    JoinedMisses(f1, 0x10, 0x40);
    JoinedHits(f2, 0x20, 0x20);
    JoinedMisses(f2, 0x20, 0x40);
    ClearedHits(f3, 0x20, 0x20);
    FiveMisses(f4, 0x20);
    SixMisses(Rule5(f4), 0x20);
  }

  lemma TwoApart()
    ensures Misses(0x1, 0x20) && Misses(0x10, 0x20) && Hits(0x20, 0x20)
  {}

  /** A flag that impatient planners have. */
  lemma RuledPatient(f: Api, a: Api)
    requires Misses(0x1, a) && Misses(0x10, a) && Misses(0x20, a) && Misses(0x101080, a) && Misses(0x40000, a)
    requires Hits(0x9C700, a)
    ensures On(Ruled(f), a) <==> On(f, a) || !Patient(f)
  {
    hide On, Misses, Hits, Joined, Patient, Rule1, Rule2, Rule3, Rule4, Rule5, Rule6;
    var g := Rule4(Rule3(Rule2(Rule1(f))));
    PatientRule(f);
    FourMiss(f, a);
    FiveMisses(g, a);
    SixMisses(Rule5(g), a);
    JoinedHits(Rule6(Rule5(g)), 0x9C700, a);
  }

  /** Input is preserved when that is asked for, or when destroying it is not. */
  lemma RuledPreserve(f: Api)
    ensures On(Ruled(f), 0x10) <==> On(f, 0x10) || !On(f, 0x1)
  {
    hide On, Misses, Hits, Joined, Cleared, Rule5, Rule6, Rule7;
    var f1 := Rule1(f);
    var f2 := Rule2(f1);
    var f3 := Rule3(f2);
    var f4 := Rule4(f3);
    PreserveApart();
    ClearedMisses(f, 0x1, 0x10);
    ClearedHits(f, 0x1, 0x1);
    JoinedHits(f1, 0x10, 0x10);
    JoinedMisses(f2, 0x20, 0x10);
    ClearedMisses(f3, 0x20, 0x10);
    FiveMisses(f4, 0x10);
    SixMisses(Rule5(f4), 0x10);
    SevenMisses(Rule6(Rule5(f4)), 0x10);
  }

  lemma PreserveApart()
    ensures Misses(0x1, 0x10) && Hits(0x1, 0x1) && Hits(0x10, 0x10) && Misses(0x20, 0x10) && Misses(0x101080, 0x10)
    ensures Misses(0x40000, 0x10) && Misses(0x9C700, 0x10)
  {}

  // ---- Equivalences ----

  lemma {:induction false} MappedThen(i: Api, o: Api, a: seq<FlagOp>, b: seq<FlagOp>)
    ensures Mapped(i, o, a + b) == Mapped(i, Mapped(i, o, a), b)
    decreases |b|
  {
    hide Holds, Apply;
    if b == [] {
      assert a + b == a;
    } else {
      var n := |b| - 1;
      assert (a + b)[..|a + b| - 1] == a + b[..n];
      MappedThen(i, o, a, b[..n]);
    }
  }

  lemma MappedTwo(i: Api, o: Api, x: FlagOp, y: FlagOp)
    ensures var r := if Holds(i, x.flag) then Apply(o, x.op) else o;
            Mapped(i, o, [x, y]) == if Holds(i, y.flag) then Apply(r, y.op) else r
  {
    hide Holds, Apply;
    assert [x, y][..1] == [x];
    assert [x][..0] == [];
    assert Mapped(i, o, [x]) == if Holds(i, x.flag) then Apply(o, x.op) else o;
  }

  function Put(o: Api, b: Api, on: bool): Api {
    if on then Joined(o, b) else Cleared(o, b)
  }

  lemma MappedEqv(i: Api, o: Api, a: Api, b: Api)
    requires OneBit(a)
    ensures Mapped(i, o, Eqv(a, b)) == Put(o, b, On(i, a)) && Mapped(i, o, Neqv(a, b)) == Put(o, b, !On(i, a))
  {
    hide Mapped, Holds, Apply, OneBit, On, Joined, Cleared;
    HoldsYes(i, a);
    HoldsNo(i, a);
    Applied(o, b);
    MappedTwo(i, o, FlagOp(Yes(a), Yes(b)), FlagOp(No(a), No(b)));
    MappedTwo(i, o, FlagOp(Yes(a), No(b)), FlagOp(No(a), Yes(b)));
  }

  lemma Applied(o: Api, b: Api)
    ensures Apply(o, Yes(b)) == Joined(o, b) && Apply(o, No(b)) == Cleared(o, b)
  {
    hide Apply;
    ApplyYes(o, b);
    ApplyNo(o, b);
  }

  lemma PutMisses(o: Api, b: Api, on: bool, c: Api)
    requires Misses(b, c)
    ensures On(Put(o, b, on), c) <==> On(o, c)
  {
    hide On, Misses, Joined, Cleared;
    JoinedMisses(o, b, c);
    ClearedMisses(o, b, c);
  }

  lemma PutHits(o: Api, b: Api, on: bool)
    requires Hits(b, b)
    ensures On(Put(o, b, on), b) <==> on
  {
    hide On, Hits, Joined, Cleared;
    JoinedHits(o, b, b);
    ClearedHits(o, b, b);
  }

  ghost predicate Flags1(pairs: seq<(Api, Api)>) {
    forall j :: 0 <= j < |pairs| ==> OneBit(pairs[j].0)
  }

  /** A flag that no equivalence sets. */
  lemma {:induction false} EqvsMiss(i: Api, o: Api, pairs: seq<(Api, Api)>, c: Api)
    requires Flags1(pairs) && forall j :: 0 <= j < |pairs| ==> Misses(pairs[j].1, c)
    ensures On(Mapped(i, o, Eqvs(pairs)), c) <==> On(o, c)
  {
    hide On, Misses, OneBit, Put, Eqv, Mapped;
    if pairs == [] {
      NothingTo(i, o);
    } else {
      var n := |pairs| - 1;
      var (a, b) := pairs[n];
      EqvsMiss(i, o, pairs[..n], c);
      MappedThen(i, o, Eqvs(pairs[..n]), Eqv(a, b));
      MappedEqv(i, Mapped(i, o, Eqvs(pairs[..n])), a, b);
      PutMisses(Mapped(i, o, Eqvs(pairs[..n])), b, On(i, a), c);
    }
  }

  lemma NothingTo(i: Api, o: Api)
    ensures Mapped(i, o, []) == o
  {}

  /** A flag that equivalence k sets, and no later one. */
  lemma {:induction false} EqvsHit(i: Api, o: Api, pairs: seq<(Api, Api)>, k: nat)
    requires k < |pairs| && Flags1(pairs) && Hits(pairs[k].1, pairs[k].1)
    requires forall j :: k < j < |pairs| ==> Misses(pairs[j].1, pairs[k].1)
    ensures On(Mapped(i, o, Eqvs(pairs)), pairs[k].1) <==> On(i, pairs[k].0)
  {
    hide On, Misses, Hits, OneBit, Put, Eqv, Mapped;
    var n := |pairs| - 1;
    var (a, b) := pairs[n];
    MappedThen(i, o, Eqvs(pairs[..n]), Eqv(a, b));
    MappedEqv(i, Mapped(i, o, Eqvs(pairs[..n])), a, b);
    if k == n {
      PutHits(Mapped(i, o, Eqvs(pairs[..n])), b, On(i, a));
    } else {
      EqvsHit(i, o, pairs[..n], k);
      PutMisses(Mapped(i, o, Eqvs(pairs[..n])), b, On(i, a), pairs[k].1);
    }
  }

  ghost predicate Clean(pairs: seq<(Api, Api)>, k: nat)
    requires k < |pairs|
  {
    Hits(pairs[k].1, pairs[k].1) && forall j :: k < j < |pairs| ==> Misses(pairs[j].1, pairs[k].1)
  }

  lemma PairsClean()
    ensures Flags1(LPairs()) && Flags1(UPairs())
    ensures forall k :: 0 <= k < 4 ==> Clean(LPairs(), k) && Misses(0x40, LPairs()[k].1) && Misses(LPairs()[k].1, 0x40)
    ensures forall k :: 0 <= k < 11 ==> Misses(UPairs()[k].1, 0x10000)
  {}

  lemma UPairsClean(k: nat)
    requires k < 11
    ensures Clean(UPairs(), k)
  {}

  // ---- The table ----

  lemma LeastIs(f: Api)
    ensures LeastOf(f) == Mapped(Ruled(f), Mapped(Ruled(f), 0, Eqvs(LPairs())), Neqv(0x2000, 0x40))
    ensures GreatestOf(f) == Mapped(Ruled(f), FromExhaustive(f), Eqvs(UPairs()))
  {
    hide Mapped, SelfMapped, Eqvs, LPairs, UPairs, SelfFlagMap, Ruled, Holds, Apply;
    SelfIsRules(f);
    RuledIs(f);
    MappedThen(Ruled(f), 0, Eqvs(LPairs()), Neqv(0x2000, 0x40));
    MappedThen(Ruled(f), 0, [FlagOp(Yes(0x8), No(0xFFFFFFFF)), FlagOp(No(0x8), Yes(0x10000))], Eqvs(UPairs()));
  }

  lemma RuledIs(f: Api)
    ensures Ruled(f) == Rule7(Rule6(Rule5(Rule4(Rule3(Rule2(Rule1(f)))))))
  {}

  /** What exhaustive planning makes of no flags. */
  function FromExhaustive(f: Api): Api {
    Mapped(Ruled(f), 0, [FlagOp(Yes(0x8), No(0xFFFFFFFF)), FlagOp(No(0x8), Yes(0x10000))])
  }

  lemma FromExhaustiveIs(f: Api)
    ensures FromExhaustive(f) == if On(Ruled(f), 0x8) then 0 else 0x10000
  {
    hide Mapped, Holds, Apply, On, OneBit, Ruled;
    assert OneBit(0x8) by { MapEntries(); }
    var i := Ruled(f);
    HoldsYes(i, 0x8);
    HoldsNo(i, 0x8);
    MappedTwo(i, 0, FlagOp(Yes(0x8), No(0xFFFFFFFF)), FlagOp(No(0x8), Yes(0x10000)));
    NothingCleared();
  }

  lemma NothingCleared()
    ensures Apply(0, No(0xFFFFFFFF)) == 0 && Apply(0, Yes(0x10000)) == 0x10000
  {}

  lemma SameBits()
    ensures Misses(0x1, 0x4) && Misses(0x10, 0x4) && Misses(0x20, 0x4) && Misses(0x101080, 0x4)
    ensures Misses(0x40000, 0x4) && Misses(0x9C700, 0x4)
    ensures Misses(0x1, 0x8) && Misses(0x10, 0x8) && Misses(0x20, 0x8) && Misses(0x101080, 0x8)
    ensures Misses(0x40000, 0x8) && Misses(0x9C700, 0x8)
    ensures Misses(0x1, 0x800) && Misses(0x10, 0x800) && Misses(0x20, 0x800) && Misses(0x101080, 0x800)
    ensures Misses(0x40000, 0x800) && Misses(0x9C700, 0x800)
    ensures Misses(0x1, 0x2000) && Misses(0x10, 0x2000) && Misses(0x20, 0x2000) && Misses(0x101080, 0x2000)
    ensures Misses(0x40000, 0x2000) && Misses(0x9C700, 0x2000)
    ensures Misses(0x1, 0x20000) && Misses(0x10, 0x20000) && Misses(0x20, 0x20000) && Misses(0x101080, 0x20000)
    ensures Misses(0x40000, 0x20000) && Misses(0x9C700, 0x20000)
  {}

  /** Which flags the rules leave, in the flags given. */
  lemma RulesTable(f: Api)
    ensures On(Ruled(f), 0x10) <==> On(f, 0x10) || !On(f, 0x1)
    ensures On(Ruled(f), 0x4) <==> On(f, 0x4)
    ensures On(Ruled(f), 0x8) <==> On(f, 0x8)
    ensures On(Ruled(f), 0x800) <==> On(f, 0x800)
    ensures On(Ruled(f), 0x2000) <==> On(f, 0x2000)
    ensures On(Ruled(f), 0x20000) <==> On(f, 0x20000)
    ensures On(Ruled(f), 0x80) <==> On(f, 0x80) || On(f, 0x40)
    ensures On(Ruled(f), 0x1000) <==> On(f, 0x1000) || On(f, 0x40)
    ensures On(Ruled(f), 0x100000) <==> On(f, 0x100000) || On(f, 0x40)
    ensures On(Ruled(f), 0x40000) <==> On(f, 0x40000) || !On(f, 0x8)
    ensures On(Ruled(f), 0x100) <==> On(f, 0x100) || !Patient(f)
    ensures On(Ruled(f), 0x200) <==> On(f, 0x200) || !Patient(f)
    ensures On(Ruled(f), 0x400) <==> On(f, 0x400) || !Patient(f)
    ensures On(Ruled(f), 0x4000) <==> On(f, 0x4000) || !Patient(f)
    ensures On(Ruled(f), 0x8000) <==> On(f, 0x8000) || !Patient(f)
    ensures On(Ruled(f), 0x10000) <==> On(f, 0x10000) || !Patient(f)
    ensures On(Ruled(f), 0x80000) <==> On(f, 0x80000) || !Patient(f)
  {
    hide On, Misses, Hits, Ruled, Patient;
    RuledPreserve(f);
    SameBits();
    RuledSame(f, 0x4);
    RuledSame(f, 0x8);
    RuledSame(f, 0x800);
    RuledSame(f, 0x2000);
    RuledSame(f, 0x20000);
    EstimateBits();
    RuledEstimate(f, 0x80);
    RuledEstimate(f, 0x1000);
    RuledEstimate(f, 0x100000);
    SlowBits();
    RuledSlow(f, 0x40000);
    PatientBits();
    RuledPatient(f, 0x100);
    RuledPatient(f, 0x200);
    RuledPatient(f, 0x400);
    RuledPatient(f, 0x4000);
    RuledPatient(f, 0x8000);
    RuledPatient(f, 0x10000);
    RuledPatient(f, 0x80000);
  }

  lemma EstimateBits()
    ensures Misses(0x1, 0x80) && Misses(0x10, 0x80) && Misses(0x20, 0x80) && Hits(0x101080, 0x80)
    ensures Misses(0x40000, 0x80) && Misses(0x9C700, 0x80)
    ensures Misses(0x1, 0x1000) && Misses(0x10, 0x1000) && Misses(0x20, 0x1000) && Hits(0x101080, 0x1000)
    ensures Misses(0x40000, 0x1000) && Misses(0x9C700, 0x1000)
    ensures Misses(0x1, 0x100000) && Misses(0x10, 0x100000) && Misses(0x20, 0x100000) && Hits(0x101080, 0x100000)
    ensures Misses(0x40000, 0x100000) && Misses(0x9C700, 0x100000)
  {}

  lemma SlowBits()
    ensures Misses(0x1, 0x40000) && Misses(0x10, 0x40000) && Misses(0x20, 0x40000) && Misses(0x101080, 0x40000)
    ensures Hits(0x40000, 0x40000) && Misses(0x9C700, 0x40000)
  {}

  lemma PatientBits()
    ensures Misses(0x1, 0x100) && Misses(0x10, 0x100) && Misses(0x20, 0x100) && Misses(0x101080, 0x100)
    ensures Misses(0x40000, 0x100) && Hits(0x9C700, 0x100)
    ensures Misses(0x1, 0x200) && Misses(0x10, 0x200) && Misses(0x20, 0x200) && Misses(0x101080, 0x200)
    ensures Misses(0x40000, 0x200) && Hits(0x9C700, 0x200)
    ensures Misses(0x1, 0x400) && Misses(0x10, 0x400) && Misses(0x20, 0x400) && Misses(0x101080, 0x400)
    ensures Misses(0x40000, 0x400) && Hits(0x9C700, 0x400)
    ensures Misses(0x1, 0x4000) && Misses(0x10, 0x4000) && Misses(0x20, 0x4000) && Misses(0x101080, 0x4000)
    ensures Misses(0x40000, 0x4000) && Hits(0x9C700, 0x4000)
    ensures Misses(0x1, 0x8000) && Misses(0x10, 0x8000) && Misses(0x20, 0x8000) && Misses(0x101080, 0x8000)
    ensures Misses(0x40000, 0x8000) && Hits(0x9C700, 0x8000)
    ensures Misses(0x1, 0x10000) && Misses(0x10, 0x10000) && Misses(0x20, 0x10000) && Misses(0x101080, 0x10000)
    ensures Misses(0x40000, 0x10000) && Hits(0x9C700, 0x10000)
    ensures Misses(0x1, 0x80000) && Misses(0x10, 0x80000) && Misses(0x20, 0x80000) && Misses(0x101080, 0x80000)
    ensures Misses(0x40000, 0x80000) && Hits(0x9C700, 0x80000)
  {}

  /** The least impatience. */
  lemma LeastTable(f: Api)
    ensures On(LeastOf(f), 0x1000) <==> On(f, 0x10) || !On(f, 0x1)
    ensures On(LeastOf(f), 0x2000) <==> On(f, 0x20000)
    ensures On(LeastOf(f), 0x4000) <==> On(f, 0x4)
    ensures On(LeastOf(f), 0x400) <==> On(f, 0x800)
    ensures On(LeastOf(f), 0x40) <==> !On(f, 0x2000)
    ensures !On(LeastOf(f), !0x7440)
  {
    hide On, Misses, Hits, OneBit, Mapped, Eqvs, LeastOf, Ruled, Patient, Put;
    var i, o := Ruled(f), Mapped(Ruled(f), 0, Eqvs(LPairs()));
    LeastIs(f);
    RulesTable(f);
    PairsClean();
    MapEntries();
    LeastBits();
    assert MappedEqvIs(i, o) by { MappedEqv(i, o, 0x2000, 0x40); }
    PutHits(o, 0x40, !On(i, 0x2000));
    EqvsHit(i, 0, LPairs(), 0);
    PutMisses(o, 0x40, !On(i, 0x2000), 0x1000);
    EqvsHit(i, 0, LPairs(), 1);
    PutMisses(o, 0x40, !On(i, 0x2000), 0x2000);
    EqvsHit(i, 0, LPairs(), 2);
    PutMisses(o, 0x40, !On(i, 0x2000), 0x4000);
    EqvsHit(i, 0, LPairs(), 3);
    PutMisses(o, 0x40, !On(i, 0x2000), 0x400);
    EqvsMiss(i, 0, LPairs(), !0x7440);
    PutMisses(o, 0x40, !On(i, 0x2000), !0x7440);
  }

  ghost predicate MappedEqvIs(i: Api, o: Api) {
    Mapped(i, o, Neqv(0x2000, 0x40)) == Put(o, 0x40, !On(i, 0x2000))
  }

  lemma LeastBits()
    ensures OneBit(0x2000) && Hits(0x40, 0x40) && Misses(0x40, !0x7440) && !On(0, !0x7440)
    ensures forall j :: 0 <= j < 4 ==> Misses(LPairs()[j].1, !0x7440)
  {}

  /** The greatest impatience. */
  lemma GreatestTable(f: Api)
    ensures On(GreatestOf(f), 0x10000) <==> !On(f, 0x8)
    ensures On(GreatestOf(f), 0x2) <==> On(f, 0x80) || On(f, 0x40)
    ensures On(GreatestOf(f), 0x20000) <==> On(f, 0x100000) || On(f, 0x40)
    ensures On(GreatestOf(f), 0x1) <==> On(f, 0x100) || !Patient(f)
    ensures On(GreatestOf(f), 0x4) <==> On(f, 0x200) || !Patient(f)
    ensures On(GreatestOf(f), 0x200) <==> On(f, 0x400) || !Patient(f)
    ensures On(GreatestOf(f), 0x20) <==> On(f, 0x1000) || On(f, 0x40)
    ensures On(GreatestOf(f), 0x80) <==> On(f, 0x4000) || !Patient(f)
    ensures On(GreatestOf(f), 0x100) <==> On(f, 0x8000) || !Patient(f)
    ensures On(GreatestOf(f), 0x10) <==> On(f, 0x10000) || !Patient(f)
    ensures On(GreatestOf(f), 0x8) <==> On(f, 0x40000) || !On(f, 0x8)
    ensures On(GreatestOf(f), 0x800) <==> On(f, 0x80000) || !Patient(f)
    ensures !On(GreatestOf(f), !0x30BBF)
  {
    hide On, GreatestOf, Patient;
    GreatestOthers(f);
    GreatestFirst(f);
    GreatestLast(f);
  }

  lemma GreatestFirst(f: Api)
    ensures On(GreatestOf(f), 0x2) <==> On(f, 0x80) || On(f, 0x40)
    ensures On(GreatestOf(f), 0x20000) <==> On(f, 0x100000) || On(f, 0x40)
    ensures On(GreatestOf(f), 0x1) <==> On(f, 0x100) || !Patient(f)
    ensures On(GreatestOf(f), 0x4) <==> On(f, 0x200) || !Patient(f)
    ensures On(GreatestOf(f), 0x200) <==> On(f, 0x400) || !Patient(f)
    ensures On(GreatestOf(f), 0x20) <==> On(f, 0x1000) || On(f, 0x40)
  {
    hide On, Misses, Hits, OneBit, Mapped, Eqvs, GreatestOf, Ruled, Patient, FromExhaustive;
    var i, o := Ruled(f), FromExhaustive(f);
    LeastIs(f);
    RulesTable(f);
    PairsClean();
    UPairsClean(0);
    EqvsHit(i, o, UPairs(), 0);
    UPairsClean(1);
    EqvsHit(i, o, UPairs(), 1);
    UPairsClean(2);
    EqvsHit(i, o, UPairs(), 2);
    UPairsClean(3);
    EqvsHit(i, o, UPairs(), 3);
    UPairsClean(4);
    EqvsHit(i, o, UPairs(), 4);
    UPairsClean(5);
    EqvsHit(i, o, UPairs(), 5);
  }

  lemma GreatestLast(f: Api)
    ensures On(GreatestOf(f), 0x80) <==> On(f, 0x4000) || !Patient(f)
    ensures On(GreatestOf(f), 0x100) <==> On(f, 0x8000) || !Patient(f)
    ensures On(GreatestOf(f), 0x10) <==> On(f, 0x10000) || !Patient(f)
    ensures On(GreatestOf(f), 0x8) <==> On(f, 0x40000) || !On(f, 0x8)
    ensures On(GreatestOf(f), 0x800) <==> On(f, 0x80000) || !Patient(f)
  {
    hide On, Misses, Hits, OneBit, Mapped, Eqvs, GreatestOf, Ruled, Patient, FromExhaustive;
    var i, o := Ruled(f), FromExhaustive(f);
    LeastIs(f);
    RulesTable(f);
    PairsClean();
    UPairsClean(6);
    EqvsHit(i, o, UPairs(), 6);
    UPairsClean(7);
    EqvsHit(i, o, UPairs(), 7);
    UPairsClean(8);
    EqvsHit(i, o, UPairs(), 8);
    UPairsClean(9);
    EqvsHit(i, o, UPairs(), 9);
    UPairsClean(10);
    EqvsHit(i, o, UPairs(), 10);
  }

  lemma GreatestOthers(f: Api)
    ensures On(GreatestOf(f), 0x10000) <==> !On(f, 0x8)
    ensures !On(GreatestOf(f), !0x30BBF)
  {
    hide On, Misses, Hits, OneBit, Mapped, Eqvs, GreatestOf, Ruled, Patient, FromExhaustive;
    var i, o := Ruled(f), FromExhaustive(f);
    LeastIs(f);
    RulesTable(f);
    PairsClean();
    FromExhaustiveIs(f);
    GreatestBits();
    EqvsMiss(i, o, UPairs(), 0x10000);
    EqvsMiss(i, o, UPairs(), !0x30BBF);
  }

  lemma GreatestBits()
    ensures On(0x10000, 0x10000) && !On(0, 0x10000) && !On(0x10000, !0x30BBF) && !On(0, !0x30BBF)
    ensures forall j :: 0 <= j < 11 ==> Misses(UPairs()[j].1, !0x30BBF)
  {}

  // ---- A flag that does not matter ----

  const ONLY: Api := 0x200000

  lemma JoinedTwice(f: Api, x: Api)
    ensures Joined(Joined(f, ONLY), x) == Joined(Joined(f, x), ONLY)
  {}

  lemma ClearedJoined(f: Api, x: Api)
    requires Misses(x, ONLY)
    ensures Cleared(Joined(f, ONLY), x) == Joined(Cleared(f, x), ONLY)
  {}

  lemma OnlyMisses()
    ensures Misses(ONLY, 0x10) && Misses(ONLY, 0x1) && Misses(ONLY, 0x8) && Misses(ONLY, 0x40) && Misses(ONLY, 0x20)
    ensures Misses(0x1, ONLY) && Misses(0x20, ONLY)
    ensures forall j :: 0 <= j < 4 ==> Misses(ONLY, LPairs()[j].0)
    ensures forall j :: 0 <= j < 11 ==> Misses(ONLY, UPairs()[j].0)
    ensures Misses(ONLY, 0x2000)
  {}

  /** The flag FFTW_WISDOM_ONLY passes every rule by. */
  lemma RulesPass(f: Api)
    ensures Rule1(Joined(f, ONLY)) == Joined(Rule1(f), ONLY) && Rule2(Joined(f, ONLY)) == Joined(Rule2(f), ONLY)
    ensures Rule3(Joined(f, ONLY)) == Joined(Rule3(f), ONLY) && Rule4(Joined(f, ONLY)) == Joined(Rule4(f), ONLY)
    ensures Rule5(Joined(f, ONLY)) == Joined(Rule5(f), ONLY) && Rule6(Joined(f, ONLY)) == Joined(Rule6(f), ONLY)
    ensures Rule7(Joined(f, ONLY)) == Joined(Rule7(f), ONLY)
  {
    hide On, Joined, Cleared, Misses;
    OnlyMisses();
    JoinedMisses(f, ONLY, 0x10);
    JoinedMisses(f, ONLY, 0x1);
    JoinedMisses(f, ONLY, 0x8);
    JoinedMisses(f, ONLY, 0x40);
    JoinedMisses(f, ONLY, 0x20);
    ClearedJoined(f, 0x1);
    ClearedJoined(f, 0x20);
    JoinedTwice(f, 0x10);
    JoinedTwice(f, 0x20);
    JoinedTwice(f, 0x101080);
    JoinedTwice(f, 0x40000);
    JoinedTwice(f, 0x9C700);
  }

  lemma RuledPasses(f: Api)
    ensures Ruled(Joined(f, ONLY)) == Joined(Ruled(f), ONLY)
  {
    hide Joined, Rule1, Rule2, Rule3, Rule4, Rule5, Rule6, Rule7;
    var f1 := Rule1(f);
    var f2 := Rule2(f1);
    var f3 := Rule3(f2);
    var f4 := Rule4(f3);
    var f5 := Rule5(f4);
    RulesPass(f);
    RulesPass(f1);
    RulesPass(f2);
    RulesPass(f3);
    RulesPass(f4);
    RulesPass(f5);
    RulesPass(Rule6(f5));
  }

  lemma {:induction false} EqvsPass(i: Api, o: Api, pairs: seq<(Api, Api)>)
    requires Flags1(pairs) && forall j :: 0 <= j < |pairs| ==> Misses(ONLY, pairs[j].0)
    ensures Mapped(Joined(i, ONLY), o, Eqvs(pairs)) == Mapped(i, o, Eqvs(pairs))
  {
    hide On, Misses, OneBit, Put, Eqv, Mapped, Joined;
    if pairs == [] {
      NothingTo(i, o);
      NothingTo(Joined(i, ONLY), o);
    } else {
      var n := |pairs| - 1;
      var (a, b) := pairs[n];
      EqvsPass(i, o, pairs[..n]);
      MappedThen(i, o, Eqvs(pairs[..n]), Eqv(a, b));
      MappedThen(Joined(i, ONLY), o, Eqvs(pairs[..n]), Eqv(a, b));
      MappedEqv(i, Mapped(i, o, Eqvs(pairs[..n])), a, b);
      MappedEqv(Joined(i, ONLY), Mapped(i, o, Eqvs(pairs[..n])), a, b);
      JoinedMisses(i, ONLY, a);
    }
  }

  /** FFTW_WISDOM_ONLY makes no difference to the impatiences. */
  lemma OnlyPasses(f: Api)
    ensures LeastOf(f | ONLY) == LeastOf(f) && GreatestOf(f | ONLY) == GreatestOf(f)
  {
    hide On, Misses, OneBit, Put, Mapped, Joined, Ruled, LeastOf, GreatestOf, FromExhaustive, Eqvs;
    JoinedIs(f);
    var g, i := Joined(f, ONLY), Ruled(f);
    OnlyMisses();
    PairsClean();
    RuledPasses(f);
    LeastIs(f);
    LeastIs(g);
    EqvsPass(i, 0, LPairs());
    LeastBits();
    var o := Mapped(i, 0, Eqvs(LPairs()));
    assert MappedEqvIs(i, o) by { MappedEqv(i, o, 0x2000, 0x40); }
    assert MappedEqvIs(Joined(i, ONLY), o) by { MappedEqv(Joined(i, ONLY), o, 0x2000, 0x40); }
    JoinedMisses(i, ONLY, 0x2000);
    FromExhaustiveIs(f);
    FromExhaustiveIs(g);
    JoinedMisses(i, ONLY, 0x8);
    EqvsPass(i, FromExhaustive(f), UPairs());
  }

  lemma JoinedIs(f: Api)
    ensures Joined(f, ONLY) == f | ONLY
  {}
}
