/** rdft/rdft-dht.c and rdft/dht-r2hc.c: two solvers each of which asks for the problem of the other. What ends their
    recursion is a flag, and all that is proved of planners holds of theirs. */
module DhtExamples {
  import opened Subsumption
  import opened HashTable
  import opened Options
  import opened Registry
  import opened SearchTrace
  import opened PlannerRules
  import opened PlannerRuns
  import opened PlannerTheory
  import opened PlannerTruth
  import opened PlannerEnds
  import opened PlannerTidy
  import opened PlannerHistory
  import opened PlannerBacked
  import opened PlannerLife
  import opened PlannerExamples
  import opened ApiFlags
  import opened ApiPlan
  import opened Wisdom

  /** A real transform and the Hartley transform of the same data. */
  const REAL := Problem(0, 0)
  const HARTLEY := Problem(0, 1)

  const DIRECT := 0
  const BY_HARTLEY := 1
  const BY_REAL := 2
  const PAIR := [Desc(0, "direct", 0, -1), Desc(0, "rdft_dht", 0, 0), Desc(0, "dht_r2hc", 0, 1)]

  predicate Fast(x: Mask) {
    !Has(x, NO_SLOW)
  }

  /** The Hartley transform may be done by the real one. */
  predicate MayTurn(x: Mask) {
    Fast(x) && !Has(x, NO_DHT_R2HC)
  }

  /** One solver does the real transform; one does it by the Hartley transform; and one does the Hartley transform by the
      real one, for which it forbids itself. */
  function PairAct(s: nat, p: Problem, l: Mask, n: nat, answers: seq<Option<Plan>>): Action {
    if s == DIRECT then Return(if p == REAL then FOUND else None)
    else if s == BY_HARTLEY && p == REAL && Fast(l) then
      if answers == [] then Ask(HARTLEY, n, 0, 0, 0) else Return(answers[0])
    else if s == BY_REAL && p == HARTLEY && MayTurn(l) then
      if answers == [] then Ask(REAL, n, NO_DHT_R2HC, 0, 0) else Return(answers[0])
    else Return(None)
  }

  function Pair(): World {
    World((s: nat, p, f: Flags, n: nat, answers) => PairAct(s, p, f.l, n, answers),
          (p: Problem, n: nat) => Sig(p.kind, p.id, n, 0))
  }

  /** The real transform can always be done, the Hartley transform unless one of two flags is set. */
  function PairFacts(): Facts {
    Facts((sig: Sig, x) => sig.s0 == 0 && (sig.s1 == 0 || (sig.s1 == 1 && MayTurn(x))),
          (s, sig: Sig, x) => sig.s0 == 0 && if s == DIRECT then sig.s1 == 0
                                             else if s == BY_HARTLEY then sig.s1 == 0 && MayTurn(x)
                                             else s == BY_REAL && sig.s1 == 1 && MayTurn(x))
  }

  function PairRank(id: nat, x: Mask): nat {
    (if Has(x, NO_DHT_R2HC) then 0 else 2) + if id == 0 then 1 else 0
  }

  function PairLevels(): Levels {
    Levels(NO_DHT_R2HC, (p: Problem, x) => PairRank(p.id, x), (sig: Sig, x) => PairRank(sig.s1, x))
  }

  // ---- Bits ----

  lemma SameHas(x: Mask, y: Mask)
    requires SameBits(x, y, NO_DHT_R2HC)
    ensures Has(x, NO_DHT_R2HC) == Has(y, NO_DHT_R2HC)
  {}

  lemma LeqHas(x: Mask, y: Mask)
    requires Leq(x, y)
    ensures Has(x, NO_DHT_R2HC) ==> Has(y, NO_DHT_R2HC)
    ensures Has(x, NO_SLOW) ==> Has(y, NO_SLOW)
  {}

  lemma MayTurnFalls(x: Mask, y: Mask)
    requires Leq(x, y) && MayTurn(y)
    ensures MayTurn(x)
  {
    hide Has, Leq;
    LeqHas(x, y);
  }

  /** What the two questions do to l. */
  lemma PairBits(f: Flags)
    ensures Changed(f, 0, 0, 0) == f
    ensures var g := Changed(f, NO_DHT_R2HC, 0, 0); Has(g.l, NO_DHT_R2HC) && (Fast(g.l) <==> Fast(f.l))
    ensures SetsAlike(NO_DHT_R2HC, 0, 0) && SetsAlike(NO_DHT_R2HC, NO_DHT_R2HC, 0)
  {}

  // ---- Problems alone do not grow simpler ----

  /** Whatever the rank of problems, some question does not lower it. */
  lemma NoRankOfProblems(rank: Problem -> nat)
    ensures exists s, p, f, n, answers :: Asked(f) && !Simpler(Pair().act(s, p, f, n, answers), p, rank)
  {
    var f := Flags(0, 0, 0);
    NoFlags();
    var w := Pair();
    var a, b := w.act(BY_HARTLEY, REAL, f, 1, []), w.act(BY_REAL, HARTLEY, f, 1, []);
    assert a == Ask(HARTLEY, 1, 0, 0, 0) && b == Ask(REAL, 1, NO_DHT_R2HC, 0, 0);
    assert !Simpler(a, REAL, rank) || !Simpler(b, HARTLEY, rank);
  }

  ghost predicate Simpler(a: Action, p: Problem, rank: Problem -> nat) {
    a.Ask? ==> rank(a.sub) < rank(p)
  }

  lemma NoFlags()
    ensures Asked(Flags(0, 0, 0)) && MayTurn(0) && Fast(0)
  {}

  // ---- Questions do ----

  lemma RankFalls(id: nat, x: Mask, y: Mask)
    requires Leq(x, y)
    ensures PairRank(id, y) <= PairRank(id, x)
  {
    hide Has, Leq;
    LeqHas(x, y);
  }

  lemma PairAsks(s: nat, p: Problem, f: Flags, n: nat, answers: seq<Option<Plan>>)
    ensures var a := Pair().act(s, p, f, n, answers);
            a.Ask? ==> (answers == [] && a.threads == n && SetsAlike(NO_DHT_R2HC, a.lSet, a.uSet)
                        && PairRank(a.sub.id, Changed(f, a.lSet, a.uSet, a.uReset).l) < PairRank(p.id, f.l))
  {
    hide Has, Changed, SetsAlike;
    PairBits(f);
  }

  lemma PairIsFounded()
    ensures Founded(Pair(), PairLevels().rank, 1)
  {
    hide Leq, PairRank, Changed;
    forall p: Problem, x, y | Leq(x, y) ensures PairRank(p.id, y) <= PairRank(p.id, x) { RankFalls(p.id, x, y); }
    forall s, p, f, n, answers | Asked(f)
      ensures Lowers(Pair().act(s, p, f, n, answers), f, PairLevels().rank, PairRank(p.id, f.l), |answers| < 1)
    {
      PairAsks(s, p, f, n, answers);
    }
  }

  lemma PairHasLevels()
    ensures LevelsOf(Pair(), PairLevels())
  {
    hide Leq, SameBits, Has, Changed, SetsAlike;
    var w, v := Pair(), PairLevels();
    forall sig: Sig, x, y | SameBits(x, y, v.hard) ensures v.depth(sig, x) == v.depth(sig, y) { SameHas(x, y); }
    forall sig: Sig, x, y | Leq(x, y) ensures v.depth(sig, y) <= v.depth(sig, x) { RankFalls(sig.s1, x, y); }
    forall s, p, f, n, answers ensures Steps(w.act(s, p, f, n, answers), f, v, v.rank(p, f.l)) {
      PairAsks(s, p, f, n, answers);
    }
  }

  // ---- Facts ----

  lemma PairHasFacts()
    ensures FactsOf(Pair(), PAIR, PairFacts())
  {
    hide Leq, Has;
    var w, t := Pair(), PairFacts();
    forall sig, x, y | Leq(x, y) && t.can(sig, y) ensures t.can(sig, x) {
      if MayTurn(y) { MayTurnFalls(x, y); }
    }
    forall p, n, x ensures t.can(w.hash(p, n), x) <==> AnyDoes(t, PAIR, p, w.hash(p, n), x) {
      if t.can(w.hash(p, n), x) { assert Suits(PAIR, p, if p.id == 0 then DIRECT else BY_REAL); }
    }
    forall s, p, f, n | Suits(PAIR, p, s) ensures Truthful(w, t, p, f, n, s) {
      forall answers, pln | Informed(w, t, p, f, n, s, answers) && Ends(w, p, f, n, s, answers, pln)
        ensures pln.Some? <==> t.does(s, w.hash(p, n), f.l)
      {
        PairEnds(s, p, f, n, answers, pln);
      }
    }
  }

  /** A solver asks at most once, and is told what the facts say. */
  lemma PairAnswered(s: nat, p: Problem, f: Flags, n: nat, answers: seq<Option<Plan>>)
    requires Spoken(Pair(), p, f, n, s, answers).Some?
    ensures |answers| <= 1
    ensures answers != [] ==> Spoken(Pair(), p, f, n, s, []) == Some(n) && Pair().act(s, p, f, n, []).Ask?
    ensures answers != [] && Informed(Pair(), PairFacts(), p, f, n, s, answers) ==>
              (answers[0].Some? <==> p == HARTLEY || MayTurn(f.l))
  {
    hide Has, Changed;
    PairBits(f);
    if answers != [] {
      var before := answers[..|answers| - 1];
      assert before == [];
    }
  }

  lemma PairEnds(s: nat, p: Problem, f: Flags, n: nat, answers: seq<Option<Plan>>, pln: Option<Plan>)
    requires Informed(Pair(), PairFacts(), p, f, n, s, answers) && Ends(Pair(), p, f, n, s, answers, pln) && s <= BY_REAL
    ensures pln.Some? <==> (p == REAL && (s == DIRECT || (s == BY_HARTLEY && MayTurn(f.l))))
                           || (p == HARTLEY && s == BY_REAL && MayTurn(f.l))
  {
    hide Has, Changed, Informed;
    PairAnswered(s, p, f, n, answers);
  }

  lemma PairIsSettled()
    ensures Settled(Pair()) && Strict(Pair(), PairFacts())
  {
    hide Has, Changed;
    var w, t := Pair(), PairFacts();
    forall s, p, f, n ensures NeedsAll(w, t, p, f, n, s) {
      forall answers, pln | Informed(w, t, p, f, n, s, answers) && Ends(w, p, f, n, s, answers, pln)
        && pln.Some? ensures AllPlans(answers) {
        PairAnswered(s, p, f, n, answers);
      }
    }
  }

  // ---- Programs ----

  /** Whatever a program does with these solvers through the interface, it ends; what is saved then is what is read back;
      and the next plan can be made exactly if the flags do not hinder it. */
  lemma PairLives(uses: seq<Use>, fuel: nat, p: Problem, flags: Api, timed: bool, tl: nat)
    requires fuel >= 5
    requires forall i :: 0 <= i < |uses| ==> TrueImport(PairFacts(), uses[i]) && PlainImport(PairLevels(), uses[i])
    requires !HasFlag(flags, FFTW_WISDOM_ONLY)
    ensures var st := AfterUses(Pair(), PAIR, uses, fuel);
            && st.Some? && Learned({}, {}, LiveEntries(st.value.saved)) == Contents(st.value.saved)
            && var m := ApiPlanned(Pair(), PAIR, p, st.value, flags, timed, tl, fuel);
               m.Some? && (m.value.Made? <==> p == REAL || (p == HARTLEY && Fast(PlannerFlags(flags, tl).l)))
  {
    hide FactsOf, Settled, Founded, LevelsOf, Good, Tidy, Orderly, ApiPlanned, AfterUses, PlannerFlags, AnyDoes,
         PairRank, Learned,
         LiveEntries, Contents, Agree, Asked, HasFlag, NeverSet, TrueImport, PlainImport, Endable;
    var w, t, v := Pair(), PairFacts(), PairLevels();
    PairHasFacts();
    PairIsFounded();
    PairHasLevels();
    PairIsSettled();
    DhtFlagNeverSet();
    forall i | 0 <= i < |uses| ensures Endable(w, uses[i], fuel, v.rank, 1) { PairUse(uses[i], fuel); }
    UsesEnd(w, PAIR, uses, fuel, v.rank, 1);
    UsesAreRight(w, PAIR, t, uses, fuel);
    UsesTransfer(w, PAIR, t, v, uses, fuel);
    var st, x := AfterUses(w, PAIR, uses, fuel).value, PlannerFlags(flags, tl).l;
    PairEnough(p, x, fuel);
    ApiPlannedEnds(w, PAIR, p, st, flags, timed, tl, fuel, v.rank, 1);
    assert FoundIfFeasible(w, PAIR, t, p, st, flags, timed, tl, fuel);
    CanIsAnyDoes(w, PAIR, t, p, st.nthr, x);
    PairCan(p, st.nthr, flags, tl);
  }

  lemma PairEnough(p: Problem, x: Mask, fuel: nat)
    requires fuel >= 5
    ensures Enough(Pair(), PairLevels().rank, 1, p, x, fuel)
  {
    hide Founded;
    PairIsFounded();
  }

  lemma PairUse(v: Use, fuel: nat)
    requires fuel >= 5 && TrueImport(PairFacts(), v)
    ensures Endable(Pair(), v, fuel, PairLevels().rank, 1)
  {
    hide Enough, PlannerFlags, Founded;
    if v.MakePlan? { PairEnough(v.p, PlannerFlags(v.flags, v.tl).l, fuel); }
    if v.Import? { forall e | e in v.lines ensures Asked(e.answer.flags) { assert IsTrue(PairFacts(), e); } }
  }

  lemma PairCan(p: Problem, n: nat, flags: Api, tl: nat)
    ensures var x := PlannerFlags(flags, tl).l;
            PairFacts().can(Pair().hash(p, n), x) <==> p == REAL || (p == HARTLEY && Fast(x))
  {
    hide PlannerFlags;
    PlannerFlagsClear(flags, tl);
    ClearHas(PlannerFlags(flags, tl).l);
    assert MayTurn(PlannerFlags(flags, tl).l) == Fast(PlannerFlags(flags, tl).l);
  }

  lemma ClearHas(x: Mask)
    requires x & 0x8000 == 0
    ensures !Has(x, NO_DHT_R2HC)
  {}

  // ---- A flag that is in u and not in l ----

  /** The solver does its problem by the same problem, for which it sets the flag of the Hartley transforms, in l; once
      that is set it returns, unless a second flag hinders it. */
  const HINDER: Mask := 4
  const MOST: Mask := 0x8004

  function SelfAct(l: Mask, p: Problem, n: nat, answers: seq<Option<Plan>>): Action {
    if Has(l, NO_DHT_R2HC) then Return(if Has(l, HINDER) then None else FOUND)
    else if answers == [] then Ask(p, n, NO_DHT_R2HC, 0, 0)
    else Return(answers[0])
  }

  function Selfish(): World {
    World((s: nat, p, f: Flags, n: nat, answers) => SelfAct(f.l, p, n, answers),
          (p: Problem, n: nat) => Sig(p.kind, 0, 0, 0))
  }

  function SelfLevels(): Levels {
    Levels(NO_DHT_R2HC, (p: Problem, x) => PairRank(0, x), (sig: Sig, x) => PairRank(0, x))
  }

  predicate Unhindered(x: Mask) {
    !Has(x, HINDER)
  }

  lemma HinderFalls(x: Mask, y: Mask)
    requires Leq(x, y) && Unhindered(y)
    ensures Unhindered(x)
  {}

  lemma SelfBits(f: Flags)
    ensures var g := Changed(f, NO_DHT_R2HC, 0, 0); Has(g.l, NO_DHT_R2HC) && (Unhindered(g.l) <==> Unhindered(f.l))
  {}

  lemma SelfishHasFacts()
    ensures FactsOf(Selfish(), SOLVERS, PickyFacts(Unhindered)) && LevelsOf(Selfish(), SelfLevels())
  {
    hide Leq, Has, SameBits, Changed, SetsAlike, PairRank;
    var w, t, v := Selfish(), PickyFacts(Unhindered), SelfLevels();
    forall sig, x, y | Leq(x, y) && t.can(sig, y) ensures t.can(sig, x) { HinderFalls(x, y); }
    forall p, n, x ensures t.can(w.hash(p, n), x) <==> AnyDoes(t, SOLVERS, p, w.hash(p, n), x) {
      assert t.can(w.hash(p, n), x) ==> Suits(SOLVERS, p, 0) && t.does(0, w.hash(p, n), x);
    }
    forall s, p, f, n | Suits(SOLVERS, p, s) ensures Truthful(w, t, p, f, n, s) {
      forall answers, pln | Informed(w, t, p, f, n, s, answers) && Ends(w, p, f, n, s, answers, pln)
        ensures pln.Some? <==> t.does(s, w.hash(p, n), f.l)
      {
        SelfEnds(s, p, f, n, answers, pln);
      }
    }
    forall x, y | SameBits(x, y, v.hard) ensures PairRank(0, x) == PairRank(0, y) { RankSame(x, y); }
    forall x, y | Leq(x, y) ensures PairRank(0, y) <= PairRank(0, x) { RankFalls(0, x, y); }
    forall s, p, f, n, answers ensures Steps(w.act(s, p, f, n, answers), f, v, v.rank(p, f.l)) {
      SelfAsks(f);
    }
  }

  lemma RankSame(x: Mask, y: Mask)
    requires SameBits(x, y, NO_DHT_R2HC)
    ensures PairRank(0, x) == PairRank(0, y)
  {
    hide Has, SameBits;
    SameHas(x, y);
  }

  lemma SelfAsks(f: Flags)
    ensures SetsAlike(NO_DHT_R2HC, NO_DHT_R2HC, 0)
    ensures !Has(f.l, NO_DHT_R2HC) ==> PairRank(0, Changed(f, NO_DHT_R2HC, 0, 0).l) < PairRank(0, f.l)
  {
    hide Has, Changed, SetsAlike;
    PairBits(f);
  }

  lemma SelfEnds(s: nat, p: Problem, f: Flags, n: nat, answers: seq<Option<Plan>>, pln: Option<Plan>)
    requires Informed(Selfish(), PickyFacts(Unhindered), p, f, n, s, answers) && Ends(Selfish(), p, f, n, s, answers, pln)
    requires p.kind == 0
    ensures pln.Some? <==> Unhindered(f.l)
  {
    hide Has, Changed;
    SelfBits(f);
    if answers != [] {
      var before := answers[..|answers| - 1];
      assert before == [];
    }
  }

  lemma OneTry(w: World, l: Mask, a: State, b: State, pln: Option<Plan>, fuel: nat)
    requires pln == None || pln == FOUND
    requires RunSolver(w, SOLVERS, JOB, 0, a, Flags(l, a.flags.u, a.flags.timelimit), fuel) == Some(Outcome(pln, b))
    ensures RunTries(w, SOLVERS, JOB, l, [0], None, 0, a, fuel) == Some(Finding(pln, 0, l, b))
  {
    hide RunSolver;
  }

  /** A search that fails at u and finds at l. */
  lemma TwoRounds(w: World, st: State, l: Mask, u: Mask, b: State, fuel: nat)
    requires TwoLevels(l, u) && l != u && fuel > 0 && st.wisdom == Normal && st.flags == Flags(l, u, 0)
    requires TableOk(st.saved) && TableOk(st.unsaved) && w.hash(JOB, st.nthr) == KEY && b.wisdom == Normal
    requires !Answerable(Contents(st.saved), KEY, st.flags) && !Answerable(Contents(st.unsaved), KEY, st.flags)
    requires var begun := st.(searches := st.searches + 1);
             && RunSolver(w, SOLVERS, JOB, 0, begun, Flags(u, u, 0), fuel) == Some(Outcome(None, begun))
             && RunSolver(w, SOLVERS, JOB, 0, begun, Flags(l, u, 0), fuel) == Some(Outcome(FOUND, b))
    ensures RunMk(w, SOLVERS, JOB, st, fuel) == Some(Outcome(FOUND, Noted(b, KEY, Flags(l, u, 0), Solver(0))))
  {
    hide TableOk, Contents, Answerable, Noted, RunSolver, WholeSchedule, RunTries;
    RecallIs(st.saved, st.unsaved, KEY, st.flags);
    OneSolver();
    var begun := st.(searches := st.searches + 1);
    OneTry(w, u, begun, begun, None, fuel);
    OneTry(w, l, begun, b, FOUND, fuel);
    assert WholeSchedule(l, u)[1..] == [l];
    assert RunLevels(w, SOLVERS, JOB, WholeSchedule(l, u), begun, fuel) == Some(Finding(FOUND, 0, l, b));
  }

  lemma MostBits()
    ensures Has(MOST, NO_DHT_R2HC) && Has(MOST, HINDER) && !Has(0, NO_DHT_R2HC) && Has(NO_DHT_R2HC, NO_DHT_R2HC)
    ensures !Has(NO_DHT_R2HC, HINDER) && !Has(MOST, ESTIMATE)
    ensures Leq(0, MOST) && Leq(0, NO_DHT_R2HC) && Leq(NO_DHT_R2HC, MOST)
    ensures Leq(MOST, MOST) && Changed(Flags(0, MOST, 0), NO_DHT_R2HC, 0, 0) == Flags(NO_DHT_R2HC, MOST, 0)
    ensures !Leq(NO_DHT_R2HC, 0) && !SameBits(0, MOST, NO_DHT_R2HC)
  {}

  lemma MostSchedules()
    ensures TwoLevels(0, MOST) && TwoLevels(NO_DHT_R2HC, MOST)
  {
    MostRelaxes();
    TwoLevelsIf(0, MOST);
    TwoLevelsIf(NO_DHT_R2HC, MOST);
  }

  lemma MostRelaxes()
    ensures RelaxesAtOnce(0, MOST) && RelaxesAtOnce(NO_DHT_R2HC, MOST)
  {}

  lemma SelfReturns(a: State, l: Mask, u: Mask, fuel: nat)
    requires fuel > 0 && Has(l, NO_DHT_R2HC)
    ensures RunSolver(Selfish(), SOLVERS, JOB, 0, a, Flags(l, u, 0), fuel) ==
              Some(Outcome(if Has(l, HINDER) then None else FOUND, a))
  {
    hide Has;
    assert Selfish().act(0, JOB, Flags(l, u, 0), a.nthr, []) == Return(if Has(l, HINDER) then None else FOUND);
  }

  /** The question that the solver asks is searched, and its answer recorded. */
  lemma SelfAsked(a: State, fuel: nat, S: set<Entry>, U: set<Entry>)
    requires fuel >= 2 && Tables(a, S, U) && a.wisdom == Normal && a.bless
    requires !Answerable(S, KEY, Flags(NO_DHT_R2HC, MOST, 0)) && !Answerable(U, KEY, Flags(NO_DHT_R2HC, MOST, 0))
    ensures var r := RunSolver(Selfish(), SOLVERS, JOB, 0, a, Flags(0, MOST, 0), fuel);
            && r.Some? && r.value.pln == FOUND && r.value.st.wisdom == Normal && r.value.st.bless
            && Tables(r.value.st, Updated(S, Item(NO_DHT_R2HC, MOST, Solver(0))), U)
  {
    hide TableOk, Contents, Answerable, Has, Leq, Changed, Noted, RunMk, TwoLevels, Updated;
    MostBits();
    MostSchedules();
    var w, c := Selfish(), a.(flags := Flags(0, MOST, 0));
    var q := c.(flags := Flags(NO_DHT_R2HC, MOST, 0));
    var begun := q.(searches := q.searches + 1);
    SelfReturns(begun, MOST, MOST, fuel - 1);
    SelfReturns(begun, NO_DHT_R2HC, MOST, fuel - 1);
    TwoRounds(w, q, NO_DHT_R2HC, MOST, begun, fuel - 1);
    var e := Item(NO_DHT_R2HC, MOST, Solver(0));
    NotedTables(begun, e, S, U);
    var b := Noted(begun, KEY, e.answer.flags, Solver(0));
    NotedKeeps(begun, KEY, e.answer.flags, Solver(0));
    assert b.flags == begun.flags && b.nthr == begun.nthr && b.bless && b.wisdom == Normal;
    assert w.act(0, JOB, c.flags, c.nthr, []) == Ask(JOB, c.nthr, NO_DHT_R2HC, 0, 0);
    assert c.(nthr := c.nthr) == c;
    assert RunMkF(w, SOLVERS, JOB, c, NO_DHT_R2HC, 0, 0, fuel - 1) == Some(Outcome(FOUND, b.(flags := c.flags)));
    assert [] + [FOUND] == [FOUND];
    var back := b.(flags := c.flags);
    assert w.act(0, JOB, back.flags, back.nthr, [FOUND]) == Return(FOUND);
    assert Dialogue(w, SOLVERS, JOB, 0, back, [FOUND], fuel - 1, fuel) == Some(Outcome(FOUND, back));
    assert Dialogue(w, SOLVERS, JOB, 0, c, [], fuel, fuel) == Some(Outcome(FOUND, back));
  }

  /** A call that has such a flag in u alone: what is recorded on the way answers the question being searched, and stays
      beside the answer to it. */
  lemma DisagreeingBreaks(fuel: nat)
    requires fuel >= 2
    ensures var a, b := Item(0, MOST, Solver(0)), Item(NO_DHT_R2HC, MOST, Solver(0));
            var st := After(Selfish(), SOLVERS, [Query(0, MOST, true)], fuel);
            && FactsOf(Selfish(), SOLVERS, PickyFacts(Unhindered)) && LevelsOf(Selfish(), SelfLevels())
            && !Plain(NO_DHT_R2HC, Query(0, MOST, true)) && st.Some? && Contents(st.value.saved) == {a, b}
            && !Antichain({a, b}) && Learned({}, {}, LiveEntries(st.value.saved)) != Contents(st.value.saved)
  {
    hide FactsOf, LevelsOf, TableOk, Contents, Has, Leq, Changed, Noted, RunMk, TwoLevels, Grown, RunSolver, Tables,
         LiveEntries,
         Learned;
    SelfishHasFacts();
    MostBits();
    MostSchedules();
    var w, a, b := Selfish(), Item(0, MOST, Solver(0)), Item(NO_DHT_R2HC, MOST, Solver(0));
    var q := Newborn().(flags := Flags(0, MOST, 0), nthr := 1, bless := true, wisdom := Normal);
    var begun := q.(searches := q.searches + 1);
    NewTables();
    TablesStill(Newborn(), begun, {}, {});
    TablesStill(Newborn(), q, {}, {});
    SelfReturns(begun, MOST, MOST, fuel);
    SelfAsked(begun, fuel, {}, {});
    var c := RunSolver(w, SOLVERS, JOB, 0, begun, Flags(0, MOST, 0), fuel).value.st;
    TablesAre(q, {}, {});
    TwoRounds(w, q, 0, MOST, c, fuel);
    assert Updated({}, b) == {b};
    NotedTables(c, a, {b}, {});
    assert Updated({b}, a) == {a, b};
    var st := Noted(c, KEY, a.answer.flags, Solver(0));
    assert After(w, SOLVERS, [], fuel) == Some(Newborn());
    AfterNext(w, SOLVERS, [], Query(0, MOST, true), fuel);
    assert [] + [Query(0, MOST, true)] == [Query(0, MOST, true)];
    assert After(w, SOLVERS, [Query(0, MOST, true)], fuel) == Some(st);
    TablesAre(st, {a, b}, {});
    assert a in {a, b} && b in {a, b} && Displaced(a, b);
    LearnedExactly(st.saved);
  }

  lemma TablesStill(a: State, b: State, S: set<Entry>, U: set<Entry>)
    requires Tables(a, S, U) && b.saved == a.saved && b.unsaved == a.unsaved
    ensures Tables(b, S, U)
  {}

  lemma TablesAre(st: State, S: set<Entry>, U: set<Entry>)
    requires Tables(st, S, U)
    ensures TableOk(st.saved) && TableOk(st.unsaved) && Contents(st.saved) == S && Contents(st.unsaved) == U
  {}
}
