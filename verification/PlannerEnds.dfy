/** kernel/planner.c: when a run ends. Problems alone need not grow simpler with every question: some solvers end their
    recursion by forbidding one another, with a flag that their question sets. */
module PlannerEnds {
  import opened Subsumption
  import opened HashTable
  import opened Options
  import opened Registry
  import opened SearchTrace
  import opened PlannerRules
  import opened PlannerRuns
  import opened PlannerTheory

  /** A rank of questions, by problem and least impatience, that more impatience never raises and that every question
      lowers; and no solver asks more than bound questions. */
  ghost predicate Founded(w: World, rank: (Problem, Mask) -> nat, bound: nat) {
    && (forall p, x, y :: Leq(x, y) ==> rank(p, y) <= rank(p, x))
    && (forall s, p, f, n, answers :: Asked(f) ==>
          Lowers(w.act(s, p, f, n, answers), f, rank, rank(p, f.l), |answers| < bound))
  }

  ghost predicate Lowers(a: Action, f: Flags, rank: (Problem, Mask) -> nat, r: nat, more: bool) {
    a.Ask? ==> more && rank(a.sub, Changed(f, a.lSet, a.uSet, a.uReset).l) < r
  }

  /** Both tables are tables, and the flags of what they store are in order. */
  ghost predicate Orderly(st: State) {
    && TableOk(st.saved) && TableOk(st.unsaved)
    && (forall e :: e in Contents(st.saved) ==> Asked(e.answer.flags))
    && (forall e :: e in Contents(st.unsaved) ==> Asked(e.answer.flags))
  }

  lemma OrderlyStill(a: State, b: State)
    requires Orderly(a) && b.saved == a.saved && b.unsaved == a.unsaved
    ensures Orderly(b)
  {
    hide TableOk, Contents;
  }

  lemma NotedOrderly(st: State, sig: Sig, f: Flags, v: Verdict)
    requires Orderly(st) && Asked(f)
    ensures Orderly(Noted(st, sig, f, v))
  {
    hide TableOk, Contents, Inserted, Displaced, Asked;
    var e := Entry(sig, Answer(f, v));
    if st.wisdom == Normal || st.wisdom == Only {
      InsertedIs(if st.bless then st.saved else st.unsaved, e);
    }
  }

  /** Enough fuel for questions of this rank. */
  ghost predicate Enough(w: World, rank: (Problem, Mask) -> nat, bound: nat, p: Problem, x: Mask, fuel: nat) {
    Founded(w, rank, bound) && rank(p, x) + bound < fuel
  }

  lemma EnoughAbove(w: World, rank: (Problem, Mask) -> nat, bound: nat, p: Problem, x: Mask, y: Mask, fuel: nat)
    requires Enough(w, rank, bound, p, x, fuel) && Leq(x, y)
    ensures Enough(w, rank, bound, p, y, fuel)
  {
    hide Lowers, Leq, Asked;
  }

  lemma EnoughBelow(w: World, rank: (Problem, Mask) -> nat, bound: nat, s: nat, p: Problem, f: Flags, n: nat,
                    answers: seq<Option<Plan>>, fuel: nat)
    requires Enough(w, rank, bound, p, f.l, fuel) && Asked(f) && w.act(s, p, f, n, answers).Ask?
    ensures var a := w.act(s, p, f, n, answers);
            |answers| < bound && Enough(w, rank, bound, a.sub, Changed(f, a.lSet, a.uSet, a.uReset).l, fuel - 1)
  {
    hide Leq, Asked, Changed;
    var a := w.act(s, p, f, n, answers);
    assert Lowers(a, f, rank, rank(p, f.l), |answers| < bound);
  }

  /** A run with enough fuel has an outcome, in which the tables are in order again. */
  lemma {:induction false} EnoughFuel(w: World, d: seq<Desc>, p: Problem, st: State, fuel: nat,
                                      rank: (Problem, Mask) -> nat, bound: nat)
    requires Enough(w, rank, bound, p, st.flags.l, fuel) && Asked(st.flags) && Orderly(st)
    ensures var r := RunMk(w, d, p, st, fuel); r.Some? && Orderly(r.value.st)
    decreases fuel, 4, 0
  {
    hide Recall, Noted, RunReuse, RunSearch, Orderly, Enough, Contents, TableOk, Answerable, Subsumes, Has, Leq;
    assert fuel > 0 by { EnoughIsSome(w, rank, bound, p, st.flags.l, fuel); }
    var c := st.(flags := Canonicalized(st.flags));
    var sig := w.hash(p, c.nthr);
    OrderlyStill(st, c);
    OrderlyStill(c, c.(wisdom := Bogus));
    OrderlyTables(c);
    RecallIs(c.saved, c.unsaved, sig, c.flags);
    var sol := if c.wisdom == IgnoreAll then None else LookedUp(c, sig);
    if c.wisdom == Bogus {
    } else if sol.Some? && sol.value.answer.verdict.Solver? {
      OrderlyEntry(c, sol.value);
      SolverAbove(sol.value.answer, c.flags);
      EnoughAbove(w, rank, bound, p, c.flags.l, sol.value.answer.flags.l, fuel);
      EnoughForReuse(w, d, p, sig, sol.value.answer, c, fuel, rank, bound);
    } else if (sol.Some? && c.wisdom != IgnoreInfeasible) || c.wisdom == Only {
    } else {
      EnoughForSearch(w, d, p, sig, c, fuel, rank, bound);
    }
  }

  lemma EnoughIsSome(w: World, rank: (Problem, Mask) -> nat, bound: nat, p: Problem, x: Mask, fuel: nat)
    requires Enough(w, rank, bound, p, x, fuel)
    ensures bound < fuel
  {}

  lemma OrderlyTables(st: State)
    requires Orderly(st)
    ensures TableOk(st.saved) && TableOk(st.unsaved)
  {}

  lemma OrderlyEntry(st: State, e: Entry)
    requires Orderly(st) && (e in Contents(st.saved) || e in Contents(st.unsaved))
    ensures Asked(e.answer.flags)
  {}

  /** A plan that answers a question was made at no less impatience than it asks for. */
  lemma SolverAbove(a: Answer, q: Flags)
    requires Subsumes(a, q) && a.verdict.Solver?
    ensures Leq(q.l, a.flags.l)
  {}

  lemma {:induction false} EnoughForReuse(w: World, d: seq<Desc>, p: Problem, sig: Sig, sol: Answer, st: State, fuel: nat,
                                          rank: (Problem, Mask) -> nat, bound: nat)
    requires sol.verdict.Solver? && Asked(sol.flags) && Orderly(st) && Enough(w, rank, bound, p, sol.flags.l, fuel)
    ensures var r := RunReuse(w, d, p, sig, sol, st, fuel); r.Some? && Orderly(r.value.st)
    decreases fuel, 3, 0
  {
    hide Noted, RunSolver, Orderly, Enough, Asked;
    var s, only := sol.verdict.index, st.(wisdom := Only);
    OrderlyStill(st, st.(wisdom := Bogus));
    OrderlyStill(st, only);
    EnoughForSolver(w, d, p, s, only, sol.flags, fuel, rank, bound);
    var b := RunSolver(w, d, p, s, only, sol.flags, fuel).value.st;
    OrderlyStill(b, b.(wisdom := Bogus));
    OrderlyStill(b, b.(wisdom := st.wisdom));
    NotedOrderly(b.(wisdom := st.wisdom), sig, sol.flags, sol.verdict);
  }

  lemma {:induction false} EnoughForSearch(w: World, d: seq<Desc>, p: Problem, sig: Sig, st: State, fuel: nat,
                                           rank: (Problem, Mask) -> nat, bound: nat)
    requires Asked(st.flags) && Orderly(st) && Enough(w, rank, bound, p, st.flags.l, fuel)
    ensures var r := RunSearch(w, d, p, sig, st, fuel); r.Some? && Orderly(r.value.st)
    decreases fuel, 3, 0
  {
    hide Noted, RunLevels, Orderly, Enough, WholeSchedule, Leq, Descends, Onward;
    var begun, whole := st.(searches := st.searches + 1), WholeSchedule(st.flags.l, st.flags.u);
    OrderlyStill(st, begun);
    WholeDescends(st.flags.l, st.flags.u);
    AllWithin(whole, st.flags.l, st.flags.u);
    forall x | x in whole ensures Enough(w, rank, bound, p, x, fuel) { EnoughAbove(w, rank, bound, p, st.flags.l, x, fuel); }
    EnoughForLevels(w, d, p, whole, begun, fuel, rank, bound);
    KeepsLevels(w, d, p, whole, begun, fuel);
    var b := RunLevels(w, d, p, whole, begun, fuel).value;
    NotedOrderly(b.st, sig, Flags(b.at, st.flags.u, 0), if b.pln.Some? then Solver(b.slv) else Infeasible);
  }

  lemma AllWithin(s: seq<Mask>, l: Mask, u: Mask)
    requires Descends(s, l, u)
    ensures forall x :: x in s ==> Leq(l, x) && Leq(x, u)
  {}

  lemma {:induction false} EnoughForLevels(w: World, d: seq<Desc>, p: Problem, levels: seq<Mask>, st: State, fuel: nat,
                                           rank: (Problem, Mask) -> nat, bound: nat)
    requires Orderly(st) && forall x :: x in levels ==> Leq(x, st.flags.u) && Enough(w, rank, bound, p, x, fuel)
    ensures var r := RunLevels(w, d, p, levels, st, fuel); r.Some? && Orderly(r.value.st)
    decreases fuel, 2, |levels|
  {
    hide RunTries, Orderly, Enough, Leq, Onward;
    if levels != [] {
      var order := OfKind(d, p.kind, |d|);
      assert levels[0] in levels;
      EnoughForTries(w, d, p, levels[0], order, None, 0, st, fuel, rank, bound);
      KeepsTries(w, d, p, levels[0], order, None, 0, st, fuel);
      var r := RunTries(w, d, p, levels[0], order, None, 0, st, fuel).value;
      KeptFlags(st, r.st);
      EnoughForLevels(w, d, p, levels[1..], r.st, fuel, rank, bound);
    }
  }

  lemma KeptFlags(a: State, b: State)
    requires Onward(a, b)
    ensures b.flags == a.flags
  {}

  lemma {:induction false} EnoughForTries(w: World, d: seq<Desc>, p: Problem, l: Mask, rest: seq<nat>, best: Option<Plan>,
                                          slv: nat, st: State, fuel: nat, rank: (Problem, Mask) -> nat, bound: nat)
    requires Orderly(st) && Leq(l, st.flags.u) && Enough(w, rank, bound, p, l, fuel)
    ensures var r := RunTries(w, d, p, l, rest, best, slv, st, fuel); r.Some? && Orderly(r.value.st)
    decreases fuel, 1, |rest|
  {
    hide RunSolver, Orderly, Enough, Leq, Onward;
    if rest != [] {
      var f := Flags(l, st.flags.u, st.flags.timelimit);
      EnoughForSolver(w, d, p, rest[0], st, f, fuel, rank, bound);
      KeepsSolver(w, d, p, rest[0], st, f, fuel);
      var r := RunSolver(w, d, p, rest[0], st, f, fuel).value;
      KeptFlags(st, r.st);
      EnoughForTries(w, d, p, l, rest[1..], if Better(r.pln, best) then r.pln else best,
                     if Better(r.pln, best) then rest[0] else slv, r.st, fuel, rank, bound);
    }
  }

  lemma {:induction false} EnoughForSolver(w: World, d: seq<Desc>, p: Problem, s: nat, st: State, nflags: Flags,
                                           fuel: nat,
                                           rank: (Problem, Mask) -> nat, bound: nat)
    requires Orderly(st) && Asked(nflags) && Enough(w, rank, bound, p, nflags.l, fuel)
    ensures var r := RunSolver(w, d, p, s, st, nflags, fuel); r.Some? && Orderly(r.value.st)
    decreases fuel, 0, fuel + 1
  {
    hide Dialogue, Orderly, Enough, Leq;
    var begun := st.(flags := nflags.(timelimit := 0));
    OrderlyStill(st, begun);
    EnoughIsSome(w, rank, bound, p, nflags.l, fuel);
    EnoughForDialogue(w, d, p, s, begun, [], fuel, fuel, rank, bound);
    var r := Dialogue(w, d, p, s, begun, [], fuel, fuel).value;
    OrderlyStill(r.st, r.st.(flags := st.flags, nthr := st.nthr));
  }

  lemma {:induction false} EnoughForDialogue(w: World, d: seq<Desc>, p: Problem, s: nat, st: State,
                                             answers: seq<Option<Plan>>,
                                             steps: nat, fuel: nat, rank: (Problem, Mask) -> nat, bound: nat)
    requires Orderly(st) && Asked(st.flags) && Enough(w, rank, bound, p, st.flags.l, fuel)
    requires steps + |answers| > bound && steps > 0
    ensures var r := Dialogue(w, d, p, s, st, answers, steps, fuel); r.Some? && Orderly(r.value.st)
    decreases fuel, 0, steps
  {
    hide RunMk, Orderly, Enough, Leq, Onward;
    EnoughIsSome(w, rank, bound, p, st.flags.l, fuel);
    match w.act(s, p, st.flags, st.nthr, answers)
    case Return(_) =>
    case Ask(sub, threads, lSet, uSet, uReset) =>
      EnoughBelow(w, rank, bound, s, p, st.flags, st.nthr, answers, fuel);
      var asked := st.(nthr := threads).(flags := Changed(st.flags, lSet, uSet, uReset));
      ChangedAsked(st.flags, lSet, uSet, uReset);
      OrderlyStill(st, asked);
      EnoughFuel(w, d, sub, asked, fuel - 1, rank, bound);
      var r := RunMkF(w, d, sub, st.(nthr := threads), lSet, uSet, uReset, fuel - 1).value;
      OrderlyStill(RunMk(w, d, sub, asked, fuel - 1).value.st, r.st);
      EnoughForDialogue(w, d, p, s, r.st, answers + [r.pln], steps - 1, fuel, rank, bound);
  }
}
