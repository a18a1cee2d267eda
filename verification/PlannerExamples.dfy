/** kernel/planner.c: short lives of a planner in which an insertion meets what the planner asserts it never meets. There
    is one solver, and it is applicable to its problem just at the impatiences given. */
module PlannerExamples {
  import opened Subsumption
  import opened HashTable
  import opened Options
  import opened Registry
  import opened SearchTrace
  import opened PlannerRules
  import opened PlannerRuns
  import opened PlannerTheory
  import opened PlannerTruth
  import opened PlannerHistory
  import opened Wisdom

  const KEY := Sig(0, 0, 0, 0)
  const JOB := Problem(0, 0)
  const SOLVERS := [Desc(0, "solver", 0, -1)]
  const FOUND := Some(Plan(0, 1.0, false))

  function PlanAt(can: Mask -> bool, l: Mask): Option<Plan> {
    if can(l) then FOUND else None
  }

  function Picky(can: Mask -> bool): World {
    World((s, p, f: Flags, n, answers) => Return(PlanAt(can, f.l)), (p: Problem, n) => Sig(p.kind, 0, 0, 0))
  }

  function PickyFacts(can: Mask -> bool): Facts {
    Facts((sig: Sig, x) => sig.s0 == 0 && can(x), (s, sig: Sig, x) => s == 0 && sig.s0 == 0 && can(x))
  }

  /** If less impatience never hinders the solver, these are its facts. */
  lemma PickyHasFacts(can: Mask -> bool)
    requires forall x, y :: Leq(x, y) && can(y) ==> can(x)
    ensures FactsOf(Picky(can), SOLVERS, PickyFacts(can))
  {
    hide Leq;
    var w, t := Picky(can), PickyFacts(can);
    forall p, n, x ensures t.can(w.hash(p, n), x) <==> AnyDoes(t, SOLVERS, p, w.hash(p, n), x) {
      assert t.can(w.hash(p, n), x) ==> Suits(SOLVERS, p, 0) && t.does(0, w.hash(p, n), x);
    }
    forall s, p, f, n | Suits(SOLVERS, p, s) ensures Truthful(w, t, p, f, n, s) {
      forall answers, pln | Ends(w, p, f, n, s, answers, pln) ensures pln.Some? <==> t.does(s, w.hash(p, n), f.l) {}
    }
  }

  function Item(l: Mask, u: Mask, v: Verdict): Entry {
    Entry(KEY, Answer(Flags(l, u, 0), v))
  }

  function Query(l: Mask, u: Mask, bless: bool): Event {
    Mk(JOB, Flags(l, u, 0), 1, bless, Normal)
  }

  // ---- One query ----

  lemma PickyTry(can: Mask -> bool, l: Mask, st: State, fuel: nat)
    requires fuel > 0
    ensures RunTries(Picky(can), SOLVERS, JOB, l, [0], None, 0, st, fuel) == Some(Finding(PlanAt(can, l), 0, l, st))
  {
    var f := Flags(l, st.flags.u, st.flags.timelimit);
    assert RunSolver(Picky(can), SOLVERS, JOB, 0, st, f, fuel) == Some(Outcome(PlanAt(can, l), st)) by {
      assert Picky(can).act(0, JOB, f.(timelimit := 0), st.nthr, []) == Return(PlanAt(can, l));
    }
  }

  lemma OneSolver()
    ensures OfKind(SOLVERS, JOB.kind, |SOLVERS|) == [0]
  {
    assert OfKind(SOLVERS, 0, 0) == [];
  }

  /** The schedule is u and then, if that is another, l. */
  ghost predicate TwoLevels(l: Mask, u: Mask) {
    WholeSchedule(l, u) == if l == u then [u] else [u, l]
  }

  lemma PickyLevels(can: Mask -> bool, l: Mask, u: Mask, st: State, fuel: nat)
    requires TwoLevels(l, u) && fuel > 0
    ensures var x := if can(u) then u else l;
            RunLevels(Picky(can), SOLVERS, JOB, WholeSchedule(l, u), st, fuel) == Some(Finding(PlanAt(can, x), 0, x, st))
  {
    hide RunTries;
    OneSolver();
    PickyTry(can, u, st, fuel);
    PickyTry(can, l, st, fuel);
    if l != u { assert WholeSchedule(l, u)[1..] == [l]; }
  }

  /** A query that is not answered from the tables adds what the search found. */
  lemma PickyMiss(can: Mask -> bool, st: State, l: Mask, u: Mask, fuel: nat)
    requires TwoLevels(l, u) && fuel > 0 && st.wisdom == Normal && st.flags == Flags(l, u, 0) && TableOk(st.saved)
    requires TableOk(st.unsaved)
    requires !Answerable(Contents(st.saved), KEY, st.flags) && !Answerable(Contents(st.unsaved), KEY, st.flags)
    ensures var x := if can(u) then u else l;
            RunMk(Picky(can), SOLVERS, JOB, st, fuel) ==
              Some(Outcome(PlanAt(can, x), Noted(st.(searches := st.searches + 1), KEY, Flags(x, u, 0), if can(x) then Solver(0) else Infeasible)))
  {
    hide TableOk, Contents, Answerable, Noted, RunLevels, TwoLevels, WholeSchedule;
    RecallIs(st.saved, st.unsaved, KEY, st.flags);
    PickyLevels(can, l, u, st.(searches := st.searches + 1), fuel);
  }

  /** A query that the saved table answers with a solver that still applies records that answer again. */
  lemma PickyHit(can: Mask -> bool, st: State, e: Entry, fuel: nat)
    requires fuel > 0 && st.wisdom == Normal && st.flags.timelimit == 0 && TableOk(st.saved) && TableOk(st.unsaved)
    requires Contents(st.saved) == {e} && Answers(e, KEY, st.flags) && e.answer.verdict == Solver(0)
    requires can(e.answer.flags.l)
    ensures RunMk(Picky(can), SOLVERS, JOB, st, fuel) == Some(Outcome(FOUND, Noted(st, KEY, e.answer.flags, Solver(0))))
  {
    hide TableOk, Answers, Noted, Contents;
    assert e in Contents(st.saved);
    assert Answerable(Contents(st.saved), KEY, st.flags);
    RecallIs(st.saved, st.unsaved, KEY, st.flags);
    var only, f := st.(wisdom := Only), e.answer.flags;
    assert RunSolver(Picky(can), SOLVERS, JOB, 0, only, f, fuel) == Some(Outcome(FOUND, only)) by {
      assert Picky(can).act(0, JOB, f.(timelimit := 0), st.nthr, []) == Return(FOUND);
    }
  }

  ghost predicate Tables(st: State, S: set<Entry>, U: set<Entry>) {
    TableOk(st.saved) && TableOk(st.unsaved) && Contents(st.saved) == S && Contents(st.unsaved) == U
  }

  lemma NewTables()
    ensures Tables(Newborn(), {}, {})
  {
    hide Grown;
    BlankGood(PickyFacts(_ => true));
  }

  lemma NotedTables(st: State, e: Entry, S: set<Entry>, U: set<Entry>)
    requires Tables(st, S, U) && st.wisdom == Normal
    ensures Tables(Noted(st, e.sig, e.answer.flags, e.answer.verdict),
                   if st.bless then Updated(S, e) else S, if st.bless then U else Updated(U, e))
  {
    hide TableOk, Contents, Inserted;
    InsertedIs(st.saved, e);
    InsertedIs(st.unsaved, e);
  }

  lemma QueryMisses(can: Mask -> bool, st: State, l: Mask, u: Mask, bless: bool, fuel: nat, S: set<Entry>, U: set<Entry>)
    requires Tables(st, S, U) && TwoLevels(l, u) && fuel > 0
    requires !Answerable(S, KEY, Flags(l, u, 0)) && !Answerable(U, KEY, Flags(l, u, 0))
    ensures var x := if can(u) then u else l;
            var e := Item(x, u, if can(x) then Solver(0) else Infeasible);
            var b := Next(Picky(can), SOLVERS, st, Query(l, u, bless), fuel);
            b.Some? && Tables(b.value, if bless then Updated(S, e) else S, if bless then U else Updated(U, e))
  {
    hide TableOk, Contents, Answerable, Noted, RunMk, TwoLevels, Updated;
    var a := st.(flags := Flags(l, u, 0), nthr := 1, bless := bless, wisdom := Normal);
    PickyMiss(can, a, l, u, fuel);
    var x := if can(u) then u else l;
    NotedTables(a.(searches := a.searches + 1), Item(x, u, if can(x) then Solver(0) else Infeasible), S, U);
  }

  lemma QueryHits(can: Mask -> bool, st: State, l: Mask, u: Mask, bless: bool, fuel: nat, e: Entry, U: set<Entry>)
    requires Tables(st, {e}, U) && fuel > 0
    requires Answers(e, KEY, Flags(l, u, 0)) && e.answer.verdict == Solver(0) && can(e.answer.flags.l)
    ensures var b := Next(Picky(can), SOLVERS, st, Query(l, u, bless), fuel);
            b.Some? && Tables(b.value, if bless then Updated({e}, e) else {e}, if bless then U else Updated(U, e))
  {
    hide TableOk, Contents, Subsumes, Noted, RunMk, Updated;
    var a := st.(flags := Flags(l, u, 0), nthr := 1, bless := bless, wisdom := Normal);
    PickyHit(can, a, e, fuel);
    NotedTables(a, e, {e}, U);
  }

  lemma AfterNext(w: World, d: seq<Desc>, events: seq<Event>, v: Event, fuel: nat)
    requires After(w, d, events, fuel).Some?
    ensures After(w, d, events + [v], fuel) == Next(w, d, After(w, d, events, fuel).value, v, fuel)
  {
    hide Next;
    assert (events + [v])[..|events|] == events;
  }

  // ---- Wisdom recalled from the saved table and recorded in the other ----

  predicate NotUgly(x: Mask) {
    !Has(x, NO_UGLY)
  }

  lemma NotUglyHasFacts()
    ensures FactsOf(Picky(NotUgly), SOLVERS, PickyFacts(NotUgly))
  {
    forall x, y | Leq(x, y) && NotUgly(y) ensures NotUgly(x) {
      FlagStays(x, y, NO_UGLY);
    }
    PickyHasFacts(NotUgly);
  }

  lemma FlagStays(x: Mask, y: Mask, flag: Mask)
    requires x & y == x && y & flag == 0
    ensures x & flag == 0
  {}

  /** A plan is made and saved, a more patient one is made and not saved, and the first is asked for again without saving:
      no wisdom is odd, and yet of the solutions not saved one now subsumes the other. */
  lemma ReinsertionBreaks(fuel: nat)
    requires fuel > 0
    ensures var a, b := Item(0, 0, Solver(0)), Item(0, NO_UGLY, Solver(0));
            var st := After(Picky(NotUgly), SOLVERS, [Query(0, NO_UGLY, true), Query(0, 0, false), Query(0, NO_UGLY, false)], fuel);
            && st.Some? && Contents(st.value.saved) == {b} && Contents(st.value.unsaved) == {a, b}
            && !Admissible({a}, b) && !Antichain({a, b}) && FactsOf(Picky(NotUgly), SOLVERS, PickyFacts(NotUgly))
  {
    hide FactsOf, TwoLevels, Next, Contents, TableOk, Grown;
    var w, v1, v2, v3 := Picky(NotUgly), Query(0, NO_UGLY, true), Query(0, 0, false), Query(0, NO_UGLY, false);
    var a, b := Item(0, 0, Solver(0)), Item(0, NO_UGLY, Solver(0));
    NotUglyHasFacts();
    Schedules();
    UglyBits();
    assert After(w, SOLVERS, [], fuel) == Some(Newborn());
    NewTables();
    QueryMisses(NotUgly, Newborn(), 0, NO_UGLY, true, fuel, {}, {});
    AfterNext(w, SOLVERS, [], v1, fuel);
    assert [] + [v1] == [v1];
    var s1 := After(w, SOLVERS, [v1], fuel).value;
    assert Updated({}, b) == {b};
    QueryMisses(NotUgly, s1, 0, 0, false, fuel, {b}, {});
    AfterNext(w, SOLVERS, [v1], v2, fuel);
    assert [v1] + [v2] == [v1, v2];
    var s2 := After(w, SOLVERS, [v1, v2], fuel).value;
    assert Updated({}, a) == {a};
    QueryHits(NotUgly, s2, 0, NO_UGLY, false, fuel, b, {a});
    AfterNext(w, SOLVERS, [v1, v2], v3, fuel);
    assert [v1, v2] + [v3] == [v1, v2, v3];
    assert Updated({a}, b) == {a, b};
    assert a in {a, b} && b in {a, b} && Displaced(b, a) && !Displaced(a, b);
  }

  // ---- A solver that only much impatience makes applicable ----

  predicate OnlyAtThree(x: Mask) {
    x == 3
  }

  lemma OddBits()
    ensures !Leq(1, 0) && !Leq(3, 1) && Leq(1, 3) && Leq(3, 7) && Leq(3, 3) && Leq(1, 1) && Leq(0, 3)
  {}

  /** The first query fails, the second succeeds. */
  lemma FailThenFind(u: Mask, fuel: nat)
    requires fuel > 0 && (u == 1 || u == 7)
    ensures var w, a, b := Picky(OnlyAtThree), Item(1, u, Infeasible), Item(3, 3, Solver(0));
            var s1, s2 := After(w, SOLVERS, [Query(1, u, true)], fuel), After(w, SOLVERS, [Query(1, u, true), Query(0, 3, true)], fuel);
            s1.Some? && Tables(s1.value, {a}, {}) && s2.Some? && Tables(s2.value, Updated({a}, b), {})
  {
    hide TwoLevels, Next, Contents, TableOk, Grown;
    var w, v1, v2 := Picky(OnlyAtThree), Query(1, u, true), Query(0, 3, true);
    var a, b := Item(1, u, Infeasible), Item(3, 3, Solver(0));
    Schedules();
    OddBits();
    assert After(w, SOLVERS, [], fuel) == Some(Newborn());
    NewTables();
    QueryMisses(OnlyAtThree, Newborn(), 1, u, true, fuel, {}, {});
    AfterNext(w, SOLVERS, [], v1, fuel);
    assert [] + [v1] == [v1];
    var s1 := After(w, SOLVERS, [v1], fuel).value;
    assert Updated({}, a) == {a};
    QueryMisses(OnlyAtThree, s1, 0, 3, true, fuel, {a}, {});
    AfterNext(w, SOLVERS, [v1], v2, fuel);
    assert [v1] + [v2] == [v1, v2];
  }

  /** What was searched for and not found at one impatience stays beside what is then found at more, which it subsumes;
      and what was saved is not what is read back. */
  lemma OddSolverBreaks(fuel: nat)
    requires fuel > 0
    ensures var a, b := Item(1, 1, Infeasible), Item(3, 3, Solver(0));
            var st := After(Picky(OnlyAtThree), SOLVERS, [Query(1, 1, true), Query(0, 3, true)], fuel);
            && st.Some? && Contents(st.value.saved) == {a, b} && !Admissible({a}, b) && !Antichain({a, b})
            && Learned({}, {}, LiveEntries(st.value.saved)) != Contents(st.value.saved)
  {
    FailThenFind(1, fuel);
    hide After, Hashed, LiveCount, Learned, LiveEntries, Contents;
    var a, b := Item(1, 1, Infeasible), Item(3, 3, Solver(0));
    OddBits();
    assert Updated({a}, b) == {a, b};
    assert a in {a, b} && b in {a, b} && Displaced(b, a) && !Displaced(a, b);
    LearnedExactly(After(Picky(OnlyAtThree), SOLVERS, [Query(1, 1, true), Query(0, 3, true)], fuel).value.saved);
  }

  /** What is then found may instead replace the record of infeasibility, and with it the answer to a question. */
  lemma OddSolverLoses(fuel: nat)
    requires fuel > 0
    ensures var events := [Query(1, 7, true), Query(0, 3, true)];
            var s1, s2 := After(Picky(OnlyAtThree), SOLVERS, events[..1], fuel), After(Picky(OnlyAtThree), SOLVERS, events, fuel);
            && s1.Some? && Contents(s1.value.saved) == {Item(1, 7, Infeasible)}
            && s2.Some? && Contents(s2.value.saved) == {Item(3, 3, Solver(0))}
            && Knows(s1.value, KEY, Flags(1, 1, 0)) && !Knows(s2.value, KEY, Flags(1, 1, 0))
  {
    FailThenFind(7, fuel);
    hide After, TableOk, Contents;
    var events := [Query(1, 7, true), Query(0, 3, true)];
    assert events[..1] == [Query(1, 7, true)];
    var a, b := Item(1, 7, Infeasible), Item(3, 3, Solver(0));
    OddBits();
    assert Updated({a}, b) == {b};
    assert a in {a} && Answers(a, KEY, Flags(1, 1, 0)) && !Answers(b, KEY, Flags(1, 1, 0));
  }

  // ---- A solver that asks ----

  /** Solver 0 does problem 0 unless slow solvers are forbidden; solver 1 does every other problem by the one before it,
      for which it allows slow solvers. */
  function AskingAct(s: nat, p: Problem, l: Mask, n: nat, answers: seq<Option<Plan>>): Action {
    if s == 0 then Return(if p.id == 0 && !Has(l, NO_SLOW) then FOUND else None)
    else if p.id == 0 then Return(None)
    else if answers == [] then Ask(Problem(p.kind, p.id - 1), n, 0, 0, NO_SLOW)
    else Return(answers[0])
  }

  function Asking(): World {
    World((s: nat, p, f: Flags, n: nat, answers) => AskingAct(s, p, f.l, n, answers), (p: Problem, n: nat) => Sig(p.kind, p.id, n, 0))
  }

  function AskingFacts(): Facts {
    Facts((sig: Sig, x) => sig.s0 == 0 && (sig.s1 > 0 || !Has(x, NO_SLOW)),
          (s, sig: Sig, x) => sig.s0 == 0 && if s == 0 then sig.s1 == 0 && !Has(x, NO_SLOW) else sig.s1 > 0)
  }

  const ASKERS := [Desc(0, "direct", 0, -1), Desc(0, "split", 0, 0)]

  /** Worlds with nested plans have facts too. */
  lemma AskingHasFacts()
    ensures FactsOf(Asking(), ASKERS, AskingFacts())
  {
    hide Leq, Has;
    var w, t := Asking(), AskingFacts();
    forall sig, x, y | Leq(x, y) && t.can(sig, y) ensures t.can(sig, x) {
      if !Has(y, NO_SLOW) { NeedsNot(x, y, NO_SLOW); }
    }
    forall p, n, x ensures t.can(w.hash(p, n), x) <==> AnyDoes(t, ASKERS, p, w.hash(p, n), x) {
      if t.can(w.hash(p, n), x) {
        assert Suits(ASKERS, p, if p.id == 0 then 0 else 1);
      }
    }
    forall s, p, f, n | Suits(ASKERS, p, s) ensures Truthful(w, t, p, f, n, s) {
      forall answers, pln | Informed(w, t, p, f, n, s, answers) && Ends(w, p, f, n, s, answers, pln)
        ensures pln.Some? <==> t.does(s, w.hash(p, n), f.l)
      {
        if s == 1 && p.id > 0 { AskedOnce(p, f, n, answers); }
      }
    }
  }

  lemma NeedsNot(x: Mask, y: Mask, flag: Mask)
    requires Leq(x, y) && !Has(y, flag)
    ensures !Has(x, flag)
  {
    FlagStays(x, y, flag);
  }

  /** The splitting solver returns when its one question is answered, and the answer is a plan. */
  lemma AskedOnce(p: Problem, f: Flags, n: nat, answers: seq<Option<Plan>>)
    requires p.kind == 0 && p.id > 0 && Informed(Asking(), AskingFacts(), p, f, n, 1, answers)
    requires Spoken(Asking(), p, f, n, 1, answers).Some?
    requires Asking().act(1, p, f, Spoken(Asking(), p, f, n, 1, answers).value, answers).Return?
    ensures answers != [] && answers[0].Some?
  {
    var before := answers[..|answers| - 1];
    ResetFlag(f, NO_SLOW);
    assert before == [];
  }

  lemma ResetFlag(f: Flags, flag: Mask)
    ensures !Has(Changed(f, 0, 0, flag).l, flag)
  {}

  lemma UglyBits()
    ensures !NotUgly(NO_UGLY) && NotUgly(0) && !Leq(NO_UGLY, 0) && Leq(0, NO_UGLY) && Leq(0, 0) && Leq(NO_UGLY, NO_UGLY)
  {}

  lemma Schedules()
    ensures TwoLevels(0, NO_UGLY) && TwoLevels(0, 0) && TwoLevels(1, 1) && TwoLevels(0, 3) && TwoLevels(1, 7)
  {
    NothingToRelax();
    TwoLevelsIf(0, NO_UGLY);
    TwoLevelsIf(0, 0);
    TwoLevelsIf(1, 1);
    TwoLevelsIf(0, 3);
    TwoLevelsIf(1, 7);
  }

  /** No flag in the relaxation table but perhaps the last, and then the last leads to l. */
  ghost predicate RelaxesAtOnce(l: Mask, u: Mask) {
    (forall k :: 0 <= k < 4 ==> Relaxed(l, u, RelaxTable()[k]) == u) && (Relaxed(l, u, NO_UGLY) == u || Relaxed(l, u, NO_UGLY) == l)
  }

  lemma NothingToRelax()
    ensures RelaxesAtOnce(0, NO_UGLY) && RelaxesAtOnce(0, 0) && RelaxesAtOnce(1, 1) && RelaxesAtOnce(0, 3) && RelaxesAtOnce(1, 7)
  {}

  lemma {:induction false} UpToFour(l: Mask, u: Mask, i: nat)
    requires RelaxesAtOnce(l, u) && i <= 4
    ensures Level(l, u, i) == u && Schedule(l, u, i) == if i == 0 then [] else [u]
  {
    hide Relaxed;
    if i > 0 { UpToFour(l, u, i - 1); }
  }

  lemma TwoLevelsIf(l: Mask, u: Mask)
    requires RelaxesAtOnce(l, u)
    ensures TwoLevels(l, u)
  {
    hide Relaxed, Level, Schedule;
    UpToFour(l, u, 4);
    StepOf(l, u, 4);
  }
}
