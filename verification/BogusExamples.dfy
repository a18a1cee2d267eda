/** kernel/planner.c: short lives of a planner after which true wisdom is bogus, because something needed to plan again
    what is stored is not stored. */
module BogusExamples {
  import opened Subsumption
  import opened HashTable
  import opened Options
  import opened Registry
  import opened SearchTrace
  import opened PlannerRules
  import opened PlannerRuns
  import opened PlannerTheory
  import opened PlannerTruth
  import opened PlannerEnds
  import opened PlannerBacked
  import opened PlannerFirm
  import opened PlannerRecall
  import opened PlannerHistory
  import opened PlannerLife
  import opened PlannerExamples
  import opened Wisdom

  const CHILD := Problem(0, 0)
  const PARENT := Problem(0, 1)
  const PLAIN := Flags(0, 0, 0)

  function Call(p: Problem, bless: bool): Event {
    Mk(p, PLAIN, 1, bless, Normal)
  }

  function SigOf(p: Problem): Sig {
    Sig(p.kind, p.id, 1, 0)
  }

  function Known(p: Problem, v: Verdict): Entry {
    Entry(SigOf(p), Answer(PLAIN, v))
  }

  /** The next call for the parent makes the wisdom bogus and has no plan. */
  ghost predicate ParentIsBogus(w: World, d: seq<Desc>, st: State, fuel: nat) {
    var r := RunMk(w, d, PARENT, st.(flags := PLAIN, nthr := 1, bless := false, wisdom := Normal), fuel);
    r.Some? && r.value.pln.None? && r.value.st.wisdom == Bogus
  }

  /** A plan whose first question nothing answers is not backed. */
  lemma NotBacked(w: World, d: seq<Desc>, t: Facts, p: Problem, n: nat, e: Entry, K: set<Entry>)
    requires e.answer.verdict.Solver? && e.sig == w.hash(p, n)
    requires var a := w.act(e.answer.verdict.index, p, e.answer.flags, n, []);
             a.Ask? && !Answerable(K, w.hash(a.sub, a.threads), Changed(e.answer.flags, a.lSet, a.uSet, a.uReset))
    ensures !EntryBacked(w, d, t, e, K)
  {
    hide Answerable, Changed;
    var f, s := e.answer.flags, e.answer.verdict.index;
    NothingSaid(w, t, p, f, n, s, K);
    assert !NextKnown(w, p, f, n, s, [], K);
    assert !Ready(w, d, t, p, f, n, s, K);
  }

  /** Where the saved table holds the parent's plan alone and the child's answer is nowhere. */
  lemma ParentAlone(w: World, d: seq<Desc>, t: Facts, st: State, s: nat, fuel: nat)
    requires FactsOf(w, d, t) && Settled(w) && Good(t, st.saved, st.unsaved)
    requires forall p, n :: w.hash(p, n) == Sig(p.kind, p.id, n, 0)
    requires Tables(st, {Known(PARENT, Solver(s))}, {})
    requires var a := w.act(s, PARENT, PLAIN, 1, []);
             a.Ask? && a.sub == CHILD && a.threads == 1 && Changed(PLAIN, a.lSet, a.uSet, a.uReset) == PLAIN
    requires RunMk(w, d, PARENT, st.(flags := PLAIN, nthr := 1, bless := false, wisdom := Normal), fuel).Some?
    ensures ParentIsBogus(w, d, st, fuel)
  {
    hide FactsOf, Settled, Contents, RunMk, EntryBacked, Recall, Good, TableOk, Changed;
    var a, e := st.(flags := PLAIN, nthr := 1, bless := false, wisdom := Normal), Known(PARENT, Solver(s));
    assert w.hash(PARENT, 1) == SigOf(PARENT) && w.hash(CHILD, 1) == SigOf(CHILD);
    PlainBits();
    CanonicalAlready(PLAIN);
    RecallIs(a.saved, a.unsaved, SigOf(PARENT), PLAIN);
    assert e in {e} && Answers(e, SigOf(PARENT), PLAIN);
    assert Store(Together, a) == {e};
    NotBacked(w, d, t, PARENT, 1, e, Store(Together, a));
    UnbackedIsBogus(w, d, t, PARENT, e, a, fuel);
  }

  lemma ThenBogus(w: World, d: seq<Desc>, t: Facts, events: seq<Event>, s: nat, fuel: nat,
                  rank: (Problem, Mask) -> nat)
    requires FactsOf(w, d, t) && Settled(w) && Founded(w, rank, 1) && rank(PARENT, 0) + 1 < fuel
    requires forall p, n :: w.hash(p, n) == Sig(p.kind, p.id, n, 0)
    requires forall i :: 0 <= i < |events| ==> Proper(t, events[i])
    requires After(w, d, events, fuel).Some? && Tables(After(w, d, events, fuel).value, {Known(PARENT, Solver(s))}, {})
    requires var a := w.act(s, PARENT, PLAIN, 1, []);
             a.Ask? && a.sub == CHILD && a.threads == 1 && Changed(PLAIN, a.lSet, a.uSet, a.uReset) == PLAIN
    ensures ParentIsBogus(w, d, After(w, d, events, fuel).value, fuel)
  {
    hide FactsOf, Settled, Founded, Good, Contents, TableOk, RunMk, Changed;
    EveryHistoryIsGood(w, d, t, events, fuel);
    var st := After(w, d, events, fuel).value;
    GoodIsOrderly(t, st);
    PlainBits();
    var a := st.(flags := PLAIN, nthr := 1, bless := false, wisdom := Normal);
    OrderlyStill(st, a);
    EnoughFuel(w, d, PARENT, a, fuel, rank, 1);
    ParentAlone(w, d, t, st, s, fuel);
  }

  lemma PlainBits()
    ensures Leq(0, 0) && forall f :: f == PLAIN ==>
        Asked(f) && Changed(f, 0, 0, 0) == f && Changed(f, 0, 0, NO_SLOW) == f
  {}

  // ---- A line of wisdom without the lines it is made of ----

  lemma AskingIsSettled()
    ensures Settled(Asking()) && Strict(Asking(), AskingFacts()) && Founded(Asking(), (p: Problem, x) => p.id, 1)
  {
    hide Leq, Has, Changed;
    var w, t := Asking(), AskingFacts();
    forall s, p, f, n ensures NeedsAll(w, t, p, f, n, s) {
      forall answers, pln | Informed(w, t, p, f, n, s, answers) && Ends(w, p, f, n, s, answers, pln)
        && pln.Some? ensures AllPlans(answers) {
        AsksOnce(p, f, n, s, answers);
      }
    }
  }

  lemma AsksOnce(p: Problem, f: Flags, n: nat, s: nat, answers: seq<Option<Plan>>)
    requires Spoken(Asking(), p, f, n, s, answers).Some?
    ensures |answers| <= 1 && (answers != [] ==> s != 0 && p.id > 0)
  {
    hide Has, Changed;
    if answers != [] {
      var before := answers[..|answers| - 1];
      assert before == [];
    }
  }

  /** One true line is read; the plan it names is made of a plan that is not stored. */
  lemma LoneLineIsBogus(fuel: nat)
    requires fuel >= 3
    ensures var w, d, t, e := Asking(), ASKERS, AskingFacts(), Known(PARENT, Solver(1));
            var st := After(w, d, [Read([e])], fuel);
            && FactsOf(w, d, t) && Settled(w) && Strict(w, t) && Proper(t, Read([e]))
            && st.Some? && ParentIsBogus(w, d, st.value, fuel) && AnyDoes(t, d, PARENT, w.hash(PARENT, 1), 0)
  {
    hide RunMk, TaughtAll, FactsOf, Settled, Strict, EntryBacked, Firm, AllTrue, Founded, Good, Contents, TableOk,
         Grown;
    var w, d, t, e := Asking(), ASKERS, AskingFacts(), Known(PARENT, Solver(1));
    AskingHasFacts();
    AskingIsSettled();
    PlainBits();
    NewTables();
    BlankFirm(w, d, t, Newborn());
    FirmGood(w, d, t, Together, Newborn());
    assert IsTrue(t, e);
    OneLine(t, Newborn(), e);
    FactsEasier(w, d, t);
    TaughtGood(t, Newborn(), [e]);
    assert After(w, d, [], fuel) == Some(Newborn());
    AfterNext(w, d, [], Read([e]), fuel);
    assert [] + [Read([e])] == [Read([e])];
    assert Store(Together, Newborn()) == {};
    NotBacked(w, d, t, PARENT, 1, e, {});
    ReadThenAsk(w, d, t, Newborn(), e, PARENT, false, fuel, 1, (p: Problem, x) => p.id, 1);
    var a := TaughtAll(Newborn(), [e]).(flags := PLAIN, nthr := 1, bless := false, wisdom := Normal);
    GoodIsOrderly(t, TaughtAll(Newborn(), [e]));
    OrderlyStill(TaughtAll(Newborn(), [e]), a);
    EnoughFuel(w, d, PARENT, a, fuel, (p: Problem, x) => p.id, 1);
    KeepsMk(w, d, PARENT, a, fuel);
    assert Suits(d, PARENT, 1) && t.does(1, w.hash(PARENT, 1), 0);
  }

  // ---- A plan made of what cannot be planned ----

  /** Solver 0 cannot do problem 0, and does every other problem after asking for problem 0, whatever the answer. */
  function CarelessAct(p: Problem, n: nat, answers: seq<Option<Plan>>): Action {
    if p.id == 0 then Return(None)
    else if answers == [] then Ask(Problem(p.kind, 0), n, 0, 0, 0)
    else Return(FOUND)
  }

  function Careless(): World {
    World((s, p, f, n: nat, answers) => CarelessAct(p, n, answers), (p: Problem, n: nat) => Sig(p.kind, p.id, n, 0))
  }

  function CarelessFacts(): Facts {
    Facts((sig: Sig, x) => sig.s0 == 0 && sig.s1 > 0, (s, sig: Sig, x) => sig.s0 == 0 && sig.s1 > 0)
  }

  lemma CarelessHasFacts()
    ensures FactsOf(Careless(), SOLVERS, CarelessFacts())
  {
    hide Leq, Changed;
    var w, t := Careless(), CarelessFacts();
    forall p, n, x ensures t.can(w.hash(p, n), x) <==> AnyDoes(t, SOLVERS, p, w.hash(p, n), x) {
      assert t.can(w.hash(p, n), x) ==> Suits(SOLVERS, p, 0) && t.does(0, w.hash(p, n), x);
    }
    forall s, p, f, n | Suits(SOLVERS, p, s) ensures Truthful(w, t, p, f, n, s) {
      forall answers, pln | Ends(w, p, f, n, s, answers, pln) ensures pln.Some? <==> t.does(s, w.hash(p, n), f.l) {
        hide Spoken;
        CarelessReturns(p, f, n, s, answers, pln);
      }
    }
  }

  lemma CarelessReturns(p: Problem, f: Flags, n: nat, s: nat, answers: seq<Option<Plan>>, pln: Option<Plan>)
    requires Ends(Careless(), p, f, n, s, answers, pln)
    ensures pln.Some? <==> p.id > 0
  {
    hide Spoken;
  }

  lemma CarelessIsSettled()
    ensures Settled(Careless()) && Founded(Careless(), (p: Problem, x) => if p.id == 0 then 0 else 1, 1)
  {}

  /** It makes a plan although its question was answered by none. */
  lemma CarelessIsNotStrict()
    ensures !Strict(Careless(), CarelessFacts())
  {
    hide Changed;
    var w, t, one := Careless(), CarelessFacts(), [None];
    assert one[..0] == [];
    assert Informed(w, t, PARENT, PLAIN, 1, 0, one) && Ends(w, PARENT, PLAIN, 1, 0, one, FOUND);
    assert !AllPlans(one) by { assert one[0].None?; }
    assert !NeedsAll(w, t, PARENT, PLAIN, 1, 0);
  }

  /** A search with one solver at one impatience. */
  lemma OneTry(w: World, p: Problem, st: State, pln: Option<Plan>, b: State, fuel: nat)
    requires p.kind == 0 && st.flags == PLAIN && RunSolver(w, SOLVERS, p, 0, st, PLAIN, fuel) == Some(Outcome(pln, b))
    ensures RunLevels(w, SOLVERS, p, WholeSchedule(0, 0), st, fuel) == Some(Finding(pln, 0, 0, b))
  {
    hide RunSolver, WholeSchedule;
    OneSolver();
    Schedules();
    assert WholeSchedule(0, 0) == [0];
    assert [0][1..] == [] && OfKind(SOLVERS, p.kind, |SOLVERS|) == [0];
    assert RunTries(w, SOLVERS, p, 0, [0], None, 0, st, fuel) == Some(Finding(pln, 0, 0, b));
  }

  lemma ChildSearched(st: State, fuel: nat)
    requires fuel > 0 && st.flags == PLAIN && st.nthr == 1 && st.wisdom == Normal && TableOk(st.saved)
      && TableOk(st.unsaved)
    requires !Knows(st, SigOf(CHILD), PLAIN)
    ensures RunMk(Careless(), SOLVERS, CHILD, st, fuel) ==
              Some(Outcome(None, Noted(st.(searches := st.searches + 1), SigOf(CHILD), PLAIN, Infeasible)))
  {
    hide TableOk, Contents, Answerable, Noted, RunLevels, WholeSchedule;
    PlainBits();
    CanonicalAlready(PLAIN);
    RecallIs(st.saved, st.unsaved, SigOf(CHILD), PLAIN);
    var begun := st.(searches := st.searches + 1);
    assert RunSolver(Careless(), SOLVERS, CHILD, 0, begun, PLAIN, fuel) == Some(Outcome(None, begun));
    OneTry(Careless(), CHILD, begun, None, begun, fuel);
  }

  /** What the parent's solver makes of an answer to the child's question. */
  lemma ParentAsks(st: State, r: Option<Plan>, b: State, fuel: nat)
    requires fuel > 1 && RunMk(Careless(), SOLVERS, CHILD, st.(flags := PLAIN, nthr := 1),
      fuel - 1) == Some(Outcome(r, b))
    requires st.nthr == 1
    ensures RunSolver(Careless(), SOLVERS, PARENT, 0, st, PLAIN, fuel) == Some(Outcome(FOUND, b.(flags := st.flags,
      nthr := 1)))
  {
    hide RunMk, Changed;
    PlainBits();
    var w, begun := Careless(), st.(flags := PLAIN);
    DialogueNext(w, SOLVERS, PARENT, 0, begun, [], fuel, fuel);
    var c := b.(flags := PLAIN);
    assert RunMkF(w, SOLVERS, CHILD, begun.(nthr := 1), 0, 0, 0, fuel - 1) == Some(Outcome(r, c));
    DialogueNext(w, SOLVERS, PARENT, 0, c, [r], fuel - 1, fuel);
    assert [] + [r] == [r];
  }

  lemma ParentSearched(st: State, fuel: nat)
    requires fuel > 1 && st.flags == PLAIN && st.nthr == 1 && st.wisdom == Normal && TableOk(st.saved)
      && TableOk(st.unsaved)
    requires !Knows(st, SigOf(CHILD), PLAIN) && !Knows(st, SigOf(PARENT), PLAIN)
    ensures var b := Noted(st.(searches := st.searches + 2), SigOf(CHILD), PLAIN, Infeasible);
            RunMk(Careless(), SOLVERS, PARENT, st, fuel) == Some(Outcome(FOUND, Noted(b, SigOf(PARENT), PLAIN,
              Solver(0))))
  {
    hide TableOk, Contents, Answerable, Inserted, RunLevels, RunSolver, WholeSchedule;
    PlainBits();
    CanonicalAlready(PLAIN);
    RecallIs(st.saved, st.unsaved, SigOf(PARENT), PLAIN);
    var begun := st.(searches := st.searches + 1);
    var b := Noted(st.(searches := st.searches + 2), SigOf(CHILD), PLAIN, Infeasible);
    ChildSearched(begun, fuel - 1);
    ParentAsks(begun, None, b, fuel);
    OneTry(Careless(), PARENT, begun, FOUND, b, fuel);
  }

  lemma ParentRecalled(st: State, fuel: nat)
    requires fuel > 1 && st.flags == PLAIN && st.nthr == 1 && st.wisdom == Normal
    requires Tables(st, {}, {Known(CHILD, Infeasible), Known(PARENT, Solver(0))})
    ensures RunMk(Careless(), SOLVERS, PARENT, st, fuel) == Some(Outcome(FOUND, Noted(st, SigOf(PARENT), PLAIN,
      Solver(0))))
  {
    hide TableOk, Contents, Noted, RunLevels, RunSolver, WholeSchedule;
    PlainBits();
    CanonicalAlready(PLAIN);
    var only, U := st.(wisdom := Only), {Known(CHILD, Infeasible), Known(PARENT, Solver(0))};
    RecallIs(st.saved, st.unsaved, SigOf(PARENT), PLAIN);
    RecallIs(st.saved, st.unsaved, SigOf(CHILD), PLAIN);
    assert Known(CHILD, Infeasible) in U && Known(PARENT, Solver(0)) in U;
    assert Answers(Known(CHILD, Infeasible), SigOf(CHILD), PLAIN) && Answers(Known(PARENT, Solver(0)), SigOf(PARENT),
      PLAIN);
    assert RunMk(Careless(), SOLVERS, CHILD, only, fuel - 1) == Some(Outcome(None, only));
    ParentAsks(only, None, only, fuel);
  }

  /** The steps of mkapiplan: plan, plan again to be saved, forget what is not saved. The plan saved was made knowing that
      the child cannot be planned, and that is forgotten. */
  lemma CarelessIsBogus(fuel: nat)
    requires fuel >= 3
    ensures var w, d, t := Careless(), SOLVERS, CarelessFacts();
            var st := After(w, d, [Call(PARENT, false), Call(PARENT, true), ForgetAccursed], fuel);
            && FactsOf(w, d, t) && Settled(w) && !Strict(w, t)
            && st.Some? && ParentIsBogus(w, d, st.value, fuel) && AnyDoes(t, d, PARENT, w.hash(PARENT, 1), 0)
  {
    hide RunMk, FactsOf, Settled, Strict, Founded, Good, Contents, TableOk, Grown, Noted;
    var w, d, t, v1, v2 := Careless(), SOLVERS, CarelessFacts(), Call(PARENT, false), Call(PARENT, true);
    var C, P := Known(CHILD, Infeasible), Known(PARENT, Solver(0));
    CarelessHasFacts();
    CarelessIsSettled();
    CarelessIsNotStrict();
    PlainBits();
    NewTables();
    assert After(w, d, [], fuel) == Some(Newborn());
    var a1 := Newborn().(flags := PLAIN, nthr := 1, bless := false, wisdom := Normal);
    ParentSearched(a1, fuel);
    NotedTables(a1.(searches := 2), C, {}, {});
    NotedKeeps(a1.(searches := 2), SigOf(CHILD), PLAIN, Infeasible);
    NotedTables(Noted(a1.(searches := 2), SigOf(CHILD), PLAIN, Infeasible), P, {}, {C});
    assert Updated({}, C) == {C} && Updated({C}, P) == {C, P};
    AfterNext(w, d, [], v1, fuel);
    assert [] + [v1] == [v1];
    var a2 := After(w, d, [v1], fuel).value.(flags := PLAIN, nthr := 1, bless := true, wisdom := Normal);
    ParentRecalled(a2, fuel);
    NotedTables(a2, P, {}, {C, P});
    assert Updated({}, P) == {P};
    AfterNext(w, d, [v1], v2, fuel);
    assert [v1] + [v2] == [v1, v2];
    AfterNext(w, d, [v1, v2], ForgetAccursed, fuel);
    assert [v1, v2] + [ForgetAccursed] == [v1, v2, ForgetAccursed];
    ThenBogus(w, d, t, [v1, v2, ForgetAccursed], 0, fuel, (p: Problem, x) => if p.id == 0 then 0 else 1);
    assert Suits(d, PARENT, 0) && t.does(0, w.hash(PARENT, 1), 0);
  }

  // ---- A whole export read beside what is not saved ----

  lemma DirectTried(st: State, fuel: nat)
    requires fuel > 0 && st.flags == PLAIN && st.nthr == 1
    ensures RunSolver(Asking(), ASKERS, CHILD, 1, st, PLAIN, fuel) == Some(Outcome(None, st))
    ensures RunSolver(Asking(), ASKERS, CHILD, 0, st, PLAIN, fuel) == Some(Outcome(FOUND, st))
  {
    SlowAllowed();
  }

  lemma SlowAllowed()
    ensures !Has(0, NO_SLOW)
  {}

  lemma ChildFound(st: State, fuel: nat)
    requires fuel > 0 && st.flags == PLAIN && st.nthr == 1 && st.wisdom == Normal && TableOk(st.saved)
      && TableOk(st.unsaved)
    requires !Knows(st, SigOf(CHILD), PLAIN)
    ensures RunMk(Asking(), ASKERS, CHILD, st, fuel) ==
              Some(Outcome(FOUND, Noted(st.(searches := st.searches + 1), SigOf(CHILD), PLAIN, Solver(0))))
  {
    hide TableOk, Contents, Answerable, Noted, RunSolver, WholeSchedule;
    PlainBits();
    CanonicalAlready(PLAIN);
    RecallIs(st.saved, st.unsaved, SigOf(CHILD), PLAIN);
    var begun := st.(searches := st.searches + 1);
    Schedules();
    assert WholeSchedule(0, 0) == [0];
    assert OfKind(ASKERS, 0, 0) == [] && OfKind(ASKERS, 0, 1) == [0] && OfKind(ASKERS, 0, 2) == [1, 0];
    DirectTried(begun, fuel);
    assert RunTries(Asking(), ASKERS, CHILD, 0, [0], None, 0, begun, fuel) == Some(Finding(FOUND, 0, 0, begun));
    assert [1, 0][1..] == [0] && [0][1..] == [];
    assert OfKind(ASKERS, CHILD.kind, |ASKERS|) == [1, 0];
    assert RunTries(Asking(), ASKERS, CHILD, 0, [1, 0], None, 0, begun, fuel) == Some(Finding(FOUND, 0, 0, begun));
    assert RunLevels(Asking(), ASKERS, CHILD, [0], begun, fuel) == Some(Finding(FOUND, 0, 0, begun));
  }

  /** The lines of a parent and its child are backed by each other. */
  lemma FamilyIsBacked()
    ensures Remembering(Asking(), ASKERS, AskingFacts(), Read([Known(CHILD, Solver(0)), Known(PARENT, Solver(1))]))
  {
    hide Leq, Has, Changed, Subsumes;
    PlainBits();
    SlowAllowed();
    var w, d, t, C, P := Asking(), ASKERS, AskingFacts(), Known(CHILD, Solver(0)), Known(PARENT, Solver(1));
    var K := Lines([C, P]);
    assert C in K && K == {C, P};
    SubsumesItself(C.answer);
    assert Answers(C, SigOf(CHILD), PLAIN);
    assert EntryBacked(w, d, t, C, K) by {
      forall p, n | w.hash(p, n) == C.sig ensures Ready(w, d, t, p, PLAIN, n, 0, K) {}
    }
    assert EntryBacked(w, d, t, P, K) by {
      forall p, n | w.hash(p, n) == P.sig ensures Ready(w, d, t, p, PLAIN, n, 1, K) {
        forall answers | Informed(w, t, p, PLAIN, n, 1, answers) ensures NextKnown(w, p, PLAIN, n, 1, answers, K) {
          if Spoken(w, p, PLAIN, n, 1, answers).Some? { AsksOnce(p, PLAIN, n, 1, answers); }
        }
      }
    }
  }

  /** Even with strict solvers: the line of the child is taken for known because of the unsaved table, which is then
      forgotten. */
  lemma ReadBesideUnsaved(fuel: nat)
    requires fuel >= 3
    ensures var w, d, t, read := Asking(), ASKERS, AskingFacts(), Read([Known(CHILD, Solver(0)), Known(PARENT,
      Solver(1))]);
            var st := After(w, d, [Call(CHILD, false), read, ForgetAccursed], fuel);
            && FactsOf(w, d, t) && Settled(w) && Strict(w, t) && Remembering(w, d, t, read)
            && st.Some? && ParentIsBogus(w, d, st.value, fuel) && AnyDoes(t, d, PARENT, w.hash(PARENT, 1), 0)
  {
    hide RunMk, FactsOf, Settled, Strict, Founded, Good, Contents, TableOk, Grown, Noted, TaughtAll, AllTrue, Backed;
    var w, d, t, C, P := Asking(), ASKERS, AskingFacts(), Known(CHILD, Solver(0)), Known(PARENT, Solver(1));
    var v1, v2 := Call(CHILD, false), Read([C, P]);
    AskingHasFacts();
    AskingIsSettled();
    FamilyIsBacked();
    PlainBits();
    NewTables();
    assert After(w, d, [], fuel) == Some(Newborn());
    var a1 := Newborn().(flags := PLAIN, nthr := 1, bless := false, wisdom := Normal);
    ChildFound(a1, fuel);
    NotedTables(a1.(searches := 1), C, {}, {});
    assert Updated({}, C) == {C};
    AfterNext(w, d, [], v1, fuel);
    assert [] + [v1] == [v1];
    var st := After(w, d, [v1], fuel).value;
    TaughtAllIs(st, [C, P]);
    LearnedBeside(C, P);
    AfterNext(w, d, [v1], v2, fuel);
    assert [v1] + [v2] == [v1, v2];
    AfterNext(w, d, [v1, v2], ForgetAccursed, fuel);
    assert [v1, v2] + [ForgetAccursed] == [v1, v2, ForgetAccursed];
    ThenBogus(w, d, t, [v1, v2, ForgetAccursed], 1, fuel, (p: Problem, x) => p.id);
    assert Suits(d, PARENT, 1) && t.does(1, w.hash(PARENT, 1), 0);
  }

  lemma LearnedBeside(C: Entry, P: Entry)
    requires C.sig != P.sig
    ensures Learned({}, {C}, [C, P]) == {P}
  {
    hide Subsumes;
    SubsumesItself(C.answer);
    assert [C, P] == ([] + [C]) + [P];
    LearnedNothing({}, {C});
    LearnedNext({}, {C}, [], C);
    LearnedNext({}, {C}, [] + [C], P);
    assert C in {C} && Answers(C, C.sig, C.answer.flags);
    assert Updated({}, P) == {P};
  }
}
