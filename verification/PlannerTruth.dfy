/** kernel/planner.c: where being less impatient never makes a question infeasible, every answer a planner has stored
    is true, and no answer is ever lost. */
module PlannerTruth {
  import opened Subsumption
  import opened HashTable
  import opened Options
  import opened Registry
  import opened SearchTrace
  import opened PlannerRules
  import opened PlannerRuns
  import opened PlannerTheory

  /** For a signature and a least impatience: is there a plan, and does the solver find one? */
  datatype Facts = Facts(can: (Sig, Mask) -> bool, does: (nat, Sig, Mask) -> bool)

  ghost predicate Suits(d: seq<Desc>, p: Problem, s: nat) {
    s < |d| && d[s].kind == p.kind
  }

  ghost predicate AnyDoes(t: Facts, d: seq<Desc>, p: Problem, sig: Sig, x: Mask) {
    exists s :: Suits(d, p, s) && t.does(s, sig, x)
  }

  /** Each question the solver has asked so far was answered as the facts say. */
  ghost predicate Informed(w: World, t: Facts, p: Problem, f: Flags, threads: nat, s: nat, answers: seq<Option<Plan>>) {
    answers == [] ||
      var before := answers[..|answers| - 1];
      var now := Spoken(w, p, f, threads, s, before);
      Informed(w, t, p, f, threads, s, before) && now.Some? && ToldSo(w, t, f, w.act(s, p, f, now.value, before),
        answers[|answers| - 1])
  }

  ghost predicate ToldSo(w: World, t: Facts, f: Flags, a: Action, r: Option<Plan>) {
    a.Ask? && (r.Some? <==> t.can(w.hash(a.sub, a.threads), Changed(f, a.lSet, a.uSet, a.uReset).l))
  }

  /** Told the facts, the solver returns a plan exactly when the facts say it does. */
  ghost predicate Truthful(w: World, t: Facts, p: Problem, f: Flags, threads: nat, s: nat) {
    forall answers, pln :: Informed(w, t, p, f, threads, s, answers) && Ends(w, p, f, threads, s, answers, pln) ==>
      (pln.Some? <==> t.does(s, w.hash(p, threads), f.l))
  }

  /** A feasible question stays feasible at less impatience. */
  ghost predicate Easier(t: Facts) {
    forall sig, x, y :: Leq(x, y) && t.can(sig, y) ==> t.can(sig, x)
  }

  /** The facts are those of the solvers d. */
  ghost predicate FactsOf(w: World, d: seq<Desc>, t: Facts) {
    && Easier(t)
    && (forall p, n, x :: t.can(w.hash(p, n), x) <==> AnyDoes(t, d, p, w.hash(p, n), x))
    && (forall s, p, f, n :: Suits(d, p, s) && Asked(f) && f.timelimit == 0 ==> Truthful(w, t, p, f, n, s))
  }

  // ---- True tables ----

  ghost predicate IsTrue(t: Facts, e: Entry) {
    WellFormed(e) && e.answer.flags.timelimit == 0 && (e.answer.verdict.Solver? <==> t.can(e.sig, e.answer.flags.l))
  }

  ghost predicate AllTrue(t: Facts, S: set<Entry>) {
    forall e :: e in S ==> IsTrue(t, e)
  }

  /** No answer is lost. */
  ghost predicate Remembers(S: set<Entry>, T: set<Entry>) {
    forall sig, q :: Asked(q) && Answerable(S, sig, q) ==> Answerable(T, sig, q)
  }

  /** True answers cannot displace one another unless they agree on feasibility. */
  lemma DisplacedAgree(t: Facts, x: Entry, e: Entry)
    requires Easier(t) && IsTrue(t, x) && IsTrue(t, e) && Displaced(x, e)
    ensures x.answer.verdict.Solver? == e.answer.verdict.Solver?
  {
    hide Leq;
  }

  lemma InsertedMoves(t: Facts, S: set<Entry>, e: Entry)
    requires Easier(t) && AllTrue(t, S) && IsTrue(t, e)
    ensures AllTrue(t, Updated(S, e)) && Remembers(S, Updated(S, e))
  {
    hide Displaced, IsTrue, Easier;
    forall x | x in S && Displaced(x, e) ensures Harmless(x, e) { DisplacedAgree(t, x, e); }
    TrueWellFormed(t, S, e);
    forall sig, q | Asked(q) && Answerable(S, sig, q) ensures Answerable(Updated(S, e), sig, q) {
      UpdateKeepsAnswers(S, e, sig, q);
    }
  }

  lemma TrueWellFormed(t: Facts, S: set<Entry>, e: Entry)
    requires AllTrue(t, S) && IsTrue(t, e)
    ensures WellFormed(e) && forall x :: x in S ==> WellFormed(x)
  {
    hide WellFormed;
  }

  /** A true answer to a question that nothing true answers may be inserted. */
  lemma AdmissibleAfterMiss(t: Facts, S: set<Entry>, e: Entry, q: Flags)
    requires Easier(t) && AllTrue(t, S) && IsTrue(t, e) && Subsumes(e.answer, q) && !Answerable(S, e.sig, q)
    ensures Admissible(S, e)
  {
    hide Subsumes, IsTrue, Easier;
    if !Admissible(S, e) {
      var x :| x in S && Displaced(e, x) && !Displaced(x, e);
      DisplacedAgree(t, e, x);
      SubsumesTransitive(x.answer, e.answer, q);
      assert false;
    }
  }

  // ---- True states ----

  /** Both tables are tables of true answers. */
  ghost predicate Good(t: Facts, saved: seq<Slot>, unsaved: seq<Slot>) {
    TableOk(saved) && TableOk(unsaved) && AllTrue(t, Contents(saved)) && AllTrue(t, Contents(unsaved))
  }

  /** A step between good states that loses no answer. */
  ghost predicate Moved(t: Facts, a: State, b: State) {
    && Good(t, a.saved, a.unsaved) && Good(t, b.saved, b.unsaved)
    && Remembers(Contents(a.saved), Contents(b.saved)) && Remembers(Contents(a.unsaved), Contents(b.unsaved))
  }

  lemma MovedOn(t: Facts, a: State, b: State, c: State)
    requires Moved(t, a, b) && Moved(t, b, c)
    ensures Moved(t, a, c)
  {
    hide Good, Answerable, Contents, Asked;
  }

  lemma MovedStill(t: Facts, a: State, b: State)
    requires Good(t, a.saved, a.unsaved) && b.saved == a.saved && b.unsaved == a.unsaved
    ensures Moved(t, a, b)
  {
    hide Good, Contents, Answerable;
  }

  lemma RemembersItself(S: set<Entry>)
    ensures Remembers(S, S)
  {}

  lemma NotedMoves(t: Facts, st: State, sig: Sig, f: Flags, verdict: Verdict)
    requires Easier(t) && Good(t, st.saved, st.unsaved) && IsTrue(t, Entry(sig, Answer(f, verdict)))
    ensures Moved(t, st, Noted(st, sig, f, verdict))
  {
    hide TableOk, Contents, Inserted, Easier, IsTrue, AllTrue, Remembers, Updated;
    var e := Entry(sig, Answer(f, verdict));
    MovedStill(t, st, st);
    if st.wisdom == Normal || st.wisdom == Only {
      InsertedIs(if st.bless then st.saved else st.unsaved, e);
      InsertedMoves(t, Contents(if st.bless then st.saved else st.unsaved), e);
    }
  }

  // ---- Every run ----

  /** Unless the wisdom was bogus, there is a plan exactly when the facts say so. */
  ghost predicate Right(t: Facts, sig: Sig, l: Mask, pln: Option<Plan>, b: State) {
    b.wisdom != Bogus ==> (pln.Some? <==> t.can(sig, l))
  }

  /** Every run of mkplan is right, and keeps the tables good. */
  lemma {:induction false} RunsRight(w: World, d: seq<Desc>, t: Facts, p: Problem, st: State, fuel: nat)
    requires FactsOf(w, d, t) && Asked(st.flags) && Good(t, st.saved, st.unsaved) && RunMk(w, d, p, st, fuel).Some?
    ensures var o := RunMk(w, d, p, st, fuel).value;
            Moved(t, st, o.st) && Right(t, w.hash(p, st.nthr), st.flags.l, o.pln, o.st)
    decreases fuel, 4, 0
  {
    hide Recall, Noted, RunReuse, RunSearch, Moved, TableOk, Contents, AllTrue, Answerable, Subsumes,
         IsTrue, FactsOf, Leq,
         Answers, Has;
    var c := st.(flags := Canonicalized(st.flags));
    var sig := w.hash(p, c.nthr);
    var o := RunMk(w, d, p, st, fuel).value;
    MovedStill(t, st, c);
    MovedStill(t, c, c);
    MovedStill(t, c, c.(wisdom := Bogus));
    RecallIs(c.saved, c.unsaved, sig, c.flags);
    var sol := if c.wisdom == IgnoreAll then None else LookedUp(c, sig);
    if sol.Some? {
      RecalledTrue(w, d, t, p, c, sol.value);
    }
    if c.wisdom == Bogus {
    } else if sol.Some? && sol.value.answer.verdict.Solver? {
      ReuseRight(w, d, t, p, sol.value, c, fuel);
    } else if (sol.Some? && c.wisdom != IgnoreInfeasible) || c.wisdom == Only {
    } else {
      SearchRight(w, d, t, p, c, fuel);
    }
    MovedOn(t, st, c, o.st);
  }

  /** A recalled answer is true, and true of the question. */
  lemma RecalledTrue(w: World, d: seq<Desc>, t: Facts, p: Problem, st: State, e: Entry)
    requires FactsOf(w, d, t) && Good(t, st.saved, st.unsaved) && Answers(e, w.hash(p, st.nthr), st.flags)
    requires e in Contents(st.saved) || e in Contents(st.unsaved)
    ensures IsTrue(t, e) && e.sig == w.hash(p, st.nthr) && Subsumes(e.answer, st.flags) && Answers(e, e.sig, st.flags)
    ensures e.answer.verdict.Solver? <==> t.can(e.sig, st.flags.l)
  {
    hide Leq, Contents, TableOk, Truthful, AnyDoes;
  }

  lemma {:induction false} ReuseRight(w: World, d: seq<Desc>, t: Facts, p: Problem, e: Entry, st: State, fuel: nat)
    requires FactsOf(w, d, t) && Good(t, st.saved, st.unsaved)
    requires e.answer.verdict.Solver? && IsTrue(t, e) && e.sig == w.hash(p, st.nthr) && Subsumes(e.answer,
      st.flags) && t.can(e.sig, st.flags.l)
    requires st.wisdom != Bogus && st.wisdom != IgnoreAll && RunReuse(w, d, p, e.sig, e.answer, st, fuel).Some?
    ensures var o := RunReuse(w, d, p, e.sig, e.answer, st, fuel).value;
            Moved(t, st, o.st) && Right(t, e.sig, st.flags.l, o.pln, o.st)
    decreases fuel, 3, 0
  {
    hide Noted, RunSolver, Moved, Contents, Answerable, Subsumes, IsTrue, Onward, FactsOf;
    var s := e.answer.verdict.index;
    MovedStill(t, st, st.(wisdom := Bogus));
    KeepsReuse(w, d, p, e.sig, e.answer, st, fuel);
    if s < |d| && d[s].kind == p.kind {
      var only := st.(wisdom := Only);
      MovedStill(t, st, only);
      TrueAsked(t, e);
      SolverRight(w, d, t, p, s, only, e.answer.flags, fuel);
      var b := RunSolver(w, d, p, s, only, e.answer.flags, fuel).value.st;
      MovedOn(t, st, only, b);
      var back := b.(wisdom := st.wisdom);
      GoodAfter(t, st, b);
      MovedStill(t, b, back);
      GoodAfter(t, b, back);
      FactsEasier(w, d, t);
      NotedMoves(t, back, e.sig, e.answer.flags, e.answer.verdict);
      var noted := Noted(back, e.sig, e.answer.flags, e.answer.verdict);
      MovedOn(t, b, back, noted);
      MovedOn(t, st, b, noted);
      GoodAfter(t, st, b);
      MovedStill(t, b, b.(wisdom := Bogus));
      MovedOn(t, st, b, b.(wisdom := Bogus));
    }
  }

  lemma GoodAfter(t: Facts, a: State, b: State)
    requires Moved(t, a, b)
    ensures Good(t, b.saved, b.unsaved)
  {}

  lemma FactsEasier(w: World, d: seq<Desc>, t: Facts)
    requires FactsOf(w, d, t)
    ensures Easier(t)
  {
    hide Easier;
  }

  lemma TrueAsked(t: Facts, e: Entry)
    requires IsTrue(t, e)
    ensures Asked(e.answer.flags) && e.answer.flags.timelimit == 0
  {}

  lemma {:induction false} SearchRight(w: World, d: seq<Desc>, t: Facts, p: Problem, st: State, fuel: nat)
    requires FactsOf(w, d, t) && Asked(st.flags) && Good(t, st.saved, st.unsaved)
    requires st.wisdom != Bogus && st.wisdom != Only && RunSearch(w, d, p, w.hash(p, st.nthr), st, fuel).Some?
    ensures var o := RunSearch(w, d, p, w.hash(p, st.nthr), st, fuel).value;
            Moved(t, st, o.st) && Right(t, w.hash(p, st.nthr), st.flags.l, o.pln, o.st)
    decreases fuel, 3, 0
  {
    hide Noted, RunLevels, Moved, Contents, Answerable, Subsumes, Onward, FactsOf, WholeSchedule, Leq, Descends;
    var sig := w.hash(p, st.nthr);
    var begun, whole := st.(searches := st.searches + 1), WholeSchedule(st.flags.l, st.flags.u);
    MovedStill(t, st, begun);
    WholeDescends(st.flags.l, st.flags.u);
    WholeInside(whole, st.flags.l, st.flags.u);
    KeepsLevels(w, d, p, whole, begun, fuel);
    LevelsRight(w, d, t, p, whole, begun, fuel);
    var b := RunLevels(w, d, p, whole, begun, fuel).value;
    KeptIs(begun, b.st);
    MovedOn(t, st, begun, b.st);
    if b.st.wisdom != Bogus {
      SearchNoted(w, d, t, sig, st, b);
      EasierAt(w, d, t, sig, st.flags.l, b.at);
    }
  }

  lemma WholeInside(s: seq<Mask>, l: Mask, u: Mask)
    requires Descends(s, l, u)
    ensures forall i :: 0 <= i < |s| ==> Leq(l, s[i]) && Leq(s[i], u)
  {}

  lemma KeptIs(a: State, b: State)
    requires Kept(a, b)
    ensures b.flags == a.flags && b.nthr == a.nthr && b.bless == a.bless && (b.wisdom == a.wisdom || b.wisdom == Bogus)
  {}

  lemma EasierAt(w: World, d: seq<Desc>, t: Facts, sig: Sig, x: Mask, y: Mask)
    requires FactsOf(w, d, t) && Leq(x, y)
    ensures t.can(sig, y) ==> t.can(sig, x)
  {
    hide Leq, Truthful, AnyDoes;
  }

  lemma SearchNoted(w: World, d: seq<Desc>, t: Facts, sig: Sig, st: State, b: Finding)
    requires FactsOf(w, d, t) && Moved(t, st, b.st) && Leq(b.at, st.flags.u) && (b.pln.Some? <==> t.can(sig, b.at))
    ensures var verdict := if b.pln.Some? then Solver(b.slv) else Infeasible;
            Moved(t, st, Noted(b.st, sig, Flags(b.at, st.flags.u, 0), verdict))
  {
    hide Noted, Contents, TableOk, AllTrue, Remembers, Leq, Truthful, AnyDoes;
    var f, verdict := Flags(b.at, st.flags.u, 0), if b.pln.Some? then Solver(b.slv) else Infeasible;
    assert IsTrue(t, Entry(sig, Answer(f, verdict)));
    NotedMoves(t, b.st, sig, f, verdict);
    MovedOn(t, st, b.st, Noted(b.st, sig, f, verdict));
  }

  lemma {:induction false} LevelsRight(w: World, d: seq<Desc>, t: Facts, p: Problem, levels: seq<Mask>, st: State,
    fuel: nat)
    requires FactsOf(w, d, t) && Good(t, st.saved, st.unsaved) && levels != []
    requires forall i :: 0 <= i < |levels| ==> Leq(levels[i], st.flags.u)
    requires RunLevels(w, d, p, levels, st, fuel).Some?
    ensures var r := RunLevels(w, d, p, levels, st, fuel).value;
            Moved(t, st, r.st) && Right(t, w.hash(p, st.nthr), r.at, r.pln, r.st)
    decreases fuel, 2, |levels|
  {
    hide RunTries, Moved, Good, FactsOf, Onward, Leq;
    var order := OfKind(d, p.kind, |d|);
    AnyOfKind(w, d, t, p, st.nthr, levels[0]);
    TriesRight(w, d, t, p, levels[0], order, None, 0, st, fuel);
    KeepsTries(w, d, p, levels[0], order, None, 0, st, fuel);
    var r := RunTries(w, d, p, levels[0], order, None, 0, st, fuel).value;
    KeptIs(st, r.st);
    GoodAfter(t, st, r.st);
    if r.pln.None? && |levels| > 1 {
      LevelsRight(w, d, t, p, levels[1..], r.st, fuel);
      KeepsLevels(w, d, p, levels[1..], r.st, fuel);
      MovedOn(t, st, r.st, RunLevels(w, d, p, levels[1..], r.st, fuel).value.st);
    }
  }

  lemma AnyOfKind(w: World, d: seq<Desc>, t: Facts, p: Problem, threads: nat, x: Mask)
    requires FactsOf(w, d, t)
    ensures var sig, order := w.hash(p, threads), OfKind(d, p.kind, |d|);
            t.can(sig, x) <==> OneDoes(t, order, sig, x)
    ensures forall s :: s in OfKind(d, p.kind, |d|) ==> Suits(d, p, s)
  {
    hide Leq, Truthful, OfKind;
    OfKindIsExact(d, p.kind, |d|);
    var sig, order := w.hash(p, threads), OfKind(d, p.kind, |d|);
    if AnyDoes(t, d, p, sig, x) {
      var s :| Suits(d, p, s) && t.does(s, sig, x);
      assert s in order;
    }
  }

  ghost predicate OneDoes(t: Facts, order: seq<nat>, sig: Sig, x: Mask) {
    exists s :: s in order && t.does(s, sig, x)
  }

  lemma {:induction false} TriesRight(w: World, d: seq<Desc>, t: Facts, p: Problem, l: Mask, rest: seq<nat>,
    best: Option<Plan>,
                                      slv: nat, st: State, fuel: nat)
    requires FactsOf(w, d, t) && Good(t, st.saved, st.unsaved) && Leq(l, st.flags.u)
    requires forall s :: s in rest ==> Suits(d, p, s)
    requires RunTries(w, d, p, l, rest, best, slv, st, fuel).Some?
    ensures var r := RunTries(w, d, p, l, rest, best, slv, st, fuel).value;
            && Moved(t, st, r.st)
            && (r.st.wisdom != Bogus ==> (r.pln.Some? <==> best.Some? || OneDoes(t, rest, w.hash(p, st.nthr), l)))
    decreases fuel, 1, |rest|
  {
    hide RunSolver, Moved, Good, FactsOf, Onward, Leq, Suits, Has;
    if rest == [] {
      MovedStill(t, st, st);
    } else {
      var f := Flags(l, st.flags.u, st.flags.timelimit);
      assert rest[0] in rest;
      SolverRight(w, d, t, p, rest[0], st, f, fuel);
      KeepsSolver(w, d, p, rest[0], st, f, fuel);
      var r := RunSolver(w, d, p, rest[0], st, f, fuel).value;
      KeptIs(st, r.st);
      GoodAfter(t, st, r.st);
      OneDoesNext(t, rest, w.hash(p, st.nthr), l);
      if !(LetsPrune(r.pln) && Has(st.flags.u, ALLOW_PRUNING)) {
        var b, s := if Better(r.pln, best) then r.pln else best, if Better(r.pln, best) then rest[0] else slv;
        TriesRight(w, d, t, p, l, rest[1..], b, s, r.st, fuel);
        KeepsTries(w, d, p, l, rest[1..], b, s, r.st, fuel);
        var e := RunTries(w, d, p, l, rest[1..], b, s, r.st, fuel).value.st;
        KeptIs(r.st, e);
        MovedOn(t, st, r.st, e);
      }
    }
  }

  lemma OneDoesNext(t: Facts, rest: seq<nat>, sig: Sig, x: Mask)
    requires rest != []
    ensures OneDoes(t, rest, sig, x) <==> t.does(rest[0], sig, x) || OneDoes(t, rest[1..], sig, x)
  {
    assert rest == [rest[0]] + rest[1..];
  }

  lemma {:induction false} SolverRight(w: World, d: seq<Desc>, t: Facts, p: Problem, s: nat, st: State,
    nflags: Flags, fuel: nat)
    requires FactsOf(w, d, t) && Good(t, st.saved, st.unsaved) && Suits(d, p, s) && Asked(nflags)
    requires RunSolver(w, d, p, s, st, nflags, fuel).Some?
    ensures var r := RunSolver(w, d, p, s, st, nflags, fuel).value;
            && Moved(t, st, r.st)
            && (r.st.wisdom != Bogus ==> (r.pln.Some? <==> t.does(s, w.hash(p, st.nthr), nflags.l)))
    decreases fuel, 0, fuel + 1
  {
    hide Dialogue, Moved, Good, FactsOf, Leq, Suits;
    var begun := st.(flags := nflags.(timelimit := 0));
    MovedStill(t, st, begun);
    DialogueRight(w, d, t, p, s, begun, st.nthr, [], fuel, fuel);
    var r := Dialogue(w, d, p, s, begun, [], fuel, fuel).value;
    GoodAfter(t, begun, r.st);
    var back := r.st.(flags := st.flags, nthr := st.nthr);
    MovedStill(t, r.st, back);
    MovedOn(t, st, begun, r.st);
    MovedOn(t, st, r.st, back);
  }

  lemma {:induction false} DialogueRight(w: World, d: seq<Desc>, t: Facts, p: Problem, s: nat, st: State, threads: nat,
                                         answers: seq<Option<Plan>>, steps: nat, fuel: nat)
    requires FactsOf(w, d, t) && Good(t, st.saved, st.unsaved) && Suits(d, p, s) && Asked(st.flags)
      && st.flags.timelimit == 0
    requires Spoken(w, p, st.flags, threads, s, answers) == Some(st.nthr)
    requires st.wisdom != Bogus ==> Informed(w, t, p, st.flags, threads, s, answers)
    requires Dialogue(w, d, p, s, st, answers, steps, fuel).Some?
    ensures var r := Dialogue(w, d, p, s, st, answers, steps, fuel).value;
            && Moved(t, st, r.st)
            && (r.st.wisdom != Bogus ==> (r.pln.Some? <==> t.does(s, w.hash(p, threads), st.flags.l)))
    decreases fuel, 0, steps
  {
    hide RunMk, Moved, Good, FactsOf, Leq, Suits, Spoken, Informed, Onward;
    match w.act(s, p, st.flags, st.nthr, answers)
    case Return(pln) =>
      MovedStill(t, st, st);
      EndsRight(w, d, t, p, st.flags, threads, s, answers, pln, st);
    case Ask(sub, n, lSet, uSet, uReset) =>
      var asked := st.(nthr := n).(flags := Changed(st.flags, lSet, uSet, uReset));
      ChangedAsked(st.flags, lSet, uSet, uReset);
      MovedStill(t, st, asked);
      RunsRight(w, d, t, sub, asked, fuel - 1);
      var o := RunMk(w, d, sub, asked, fuel - 1).value;
      var r := RunMkF(w, d, sub, st.(nthr := n), lSet, uSet, uReset, fuel - 1).value;
      GoodAfter(t, asked, o.st);
      MovedStill(t, o.st, r.st);
      MovedOn(t, st, asked, o.st);
      MovedOn(t, st, o.st, r.st);
      KeepsMkF(w, d, sub, st, n, lSet, uSet, uReset, fuel - 1);
      OnwardIs(st, r.st);
      OneMoreSaid(w, p, st.flags, threads, s, answers, st.nthr, r.pln);
      if r.st.wisdom != Bogus {
        OneMoreInformed(w, t, p, st.flags, threads, s, answers, st.nthr, r.pln);
      }
      DialogueRight(w, d, t, p, s, r.st, threads, answers + [r.pln], steps - 1, fuel);
      MovedOn(t, st, r.st, Dialogue(w, d, p, s, r.st, answers + [r.pln], steps - 1, fuel).value.st);
  }

  lemma OnwardIs(a: State, b: State)
    requires Onward(a, b)
    ensures b.flags == a.flags && (b.wisdom == a.wisdom || b.wisdom == Bogus)
  {}

  lemma EndsRight(w: World, d: seq<Desc>, t: Facts, p: Problem, f: Flags, threads: nat, s: nat,
    answers: seq<Option<Plan>>,
                  pln: Option<Plan>, st: State)
    requires FactsOf(w, d, t) && Suits(d, p, s) && Asked(f) && f.timelimit == 0
    requires Spoken(w, p, f, threads, s, answers) == Some(st.nthr) && w.act(s, p, f, st.nthr, answers) == Return(pln)
    requires st.wisdom != Bogus ==> Informed(w, t, p, f, threads, s, answers)
    ensures st.wisdom != Bogus ==> (pln.Some? <==> t.does(s, w.hash(p, threads), f.l))
  {
    hide Informed, Spoken, AnyDoes, Easier, Leq;
    assert Ends(w, p, f, threads, s, answers, pln);
    assert Truthful(w, t, p, f, threads, s);
  }

  lemma OneMoreInformed(w: World, t: Facts, p: Problem, f: Flags, threads: nat, s: nat, answers: seq<Option<Plan>>,
    now: nat,
                        r: Option<Plan>)
    requires Informed(w, t, p, f, threads, s, answers) && Spoken(w, p, f, threads, s, answers) == Some(now)
    requires ToldSo(w, t, f, w.act(s, p, f, now, answers), r)
    ensures Informed(w, t, p, f, threads, s, answers + [r])
  {
    hide Spoken, ToldSo;
    assert (answers + [r])[..|answers|] == answers;
  }
}
