/** kernel/planner.c: runs of the planner keep what is stored backed, and where all of it is, no wisdom is bogus. */
module PlannerFirm {
  import opened Subsumption
  import opened HashTable
  import opened Options
  import opened Registry
  import opened SearchTrace
  import opened PlannerRules
  import opened PlannerRuns
  import opened PlannerTheory
  import opened PlannerTruth
  import opened PlannerBacked

  /** What is to be backed by itself: both tables together; or the saved table alone, because solvers are strict, or
      because it covers what the other one knows to be infeasible. */
  datatype Scope = Together | Strictly | Covering

  ghost function Store(m: Scope, st: State): set<Entry> {
    if m == Together then Contents(st.saved) + Contents(st.unsaved) else Contents(st.saved)
  }

  /** Each record of infeasibility in U is one that S answers too. */
  ghost predicate KnowsInfeasible(S: set<Entry>, U: set<Entry>) {
    forall e :: e in U && e.answer.verdict.Infeasible? ==> Answerable(S, e.sig, e.answer.flags)
  }

  ghost predicate Laws(w: World, d: seq<Desc>, t: Facts, m: Scope) {
    FactsOf(w, d, t) && Settled(w) && (m == Strictly ==> Strict(w, t))
  }

  ghost predicate Firm(w: World, d: seq<Desc>, t: Facts, m: Scope, st: State) {
    && Good(t, st.saved, st.unsaved) && Backed(w, d, t, Store(m, st), Store(m, st))
    && (m != Together ==> st.bless)
    && (m == Covering ==> KnowsInfeasible(Contents(st.saved), Contents(st.unsaved)))
  }

  lemma FirmStill(w: World, d: seq<Desc>, t: Facts, m: Scope, a: State, b: State)
    requires Firm(w, d, t, m, a) && b.saved == a.saved && b.unsaved == a.unsaved && b.bless == a.bless
    ensures Firm(w, d, t, m, b)
  {
    hide Good, Backed, Contents, KnowsInfeasible;
  }

  lemma FirmGood(w: World, d: seq<Desc>, t: Facts, m: Scope, st: State)
    requires Firm(w, d, t, m, st)
    ensures Good(t, st.saved, st.unsaved)
  {}

  lemma LawsFacts(w: World, d: seq<Desc>, t: Facts, m: Scope)
    requires Laws(w, d, t, m)
    ensures FactsOf(w, d, t) && Settled(w) && Easier(t)
  {}

  lemma StoreGrows(t: Facts, m: Scope, a: State, b: State)
    requires Moved(t, a, b)
    ensures Remembers(Store(m, a), Store(m, b))
  {
    hide Good, Contents, AllTrue, Asked;
    BothRemember(Contents(a.saved), Contents(a.unsaved), Contents(b.saved), Contents(b.unsaved));
  }

  lemma BothRemember(S: set<Entry>, U: set<Entry>, S': set<Entry>, U': set<Entry>)
    requires Remembers(S, S') && Remembers(U, U')
    ensures Remembers(S + U, S' + U')
  {
    hide Subsumes, Asked;
    forall sig, q | Asked(q) && Answerable(S + U, sig, q) ensures Answerable(S' + U', sig, q) {
      var x :| x in S + U && Answers(x, sig, q);
      assert Answerable(S, sig, q) || Answerable(U, sig, q);
      assert Answerable(S', sig, q) || Answerable(U', sig, q);
      var y :| (y in S' || y in U') && Answers(y, sig, q);
      assert y in S' + U';
    }
  }

  // ---- Recording ----

  /** A record of infeasibility, or a plan made of what is stored, may be recorded. */
  lemma NotedFirm(w: World, d: seq<Desc>, t: Facts, m: Scope, st: State, sig: Sig, f: Flags, v: Verdict)
    requires Laws(w, d, t, m) && Firm(w, d, t, m, st) && IsTrue(t, Entry(sig, Answer(f, v)))
    requires Good(t, Noted(st, sig, f, v).saved, Noted(st, sig, f, v).unsaved)
    requires st.wisdom == Normal || st.wisdom == Only ==> EntryBacked(w, d, t, Entry(sig, Answer(f, v)), Store(m, st))
    ensures Firm(w, d, t, m, Noted(st, sig, f, v))
  {
    hide Noted, TableOk, Contents, Antichain, EntryBacked, FactsOf, Settled, Strict, Easier, Remembers,
         KnowsInfeasible, IsTrue, AllTrue, Displaced;
    LawsFacts(w, d, t, m);
    var b, e := Noted(st, sig, f, v), Entry(sig, Answer(f, v));
    if st.wisdom != Normal && st.wisdom != Only {
      NotedNothing(st, sig, f, v);
    } else {
      NotedContents(st, sig, f, v);
      var S, U := Contents(st.saved), Contents(st.unsaved);
      var T := if st.bless then Updated(S, e) else S;
      var V := if st.bless then U else Updated(U, e);
      InsertedMoves(t, S, e);
      InsertedMoves(t, U, e);
      assert Remembers(S, S) && Remembers(U, U) by { RemembersItself(S); RemembersItself(U); }
      BothRemember(S, U, T, V);
      StoreTrue(t, m, st);
      EntryGrows(w, d, t, e, Store(m, st), Store(m, b));
      BackedGrows(w, d, t, Store(m, st), Store(m, st), Store(m, b), Store(m, b));
      if m == Covering { CoversOn(t, S, U, T); }
    }
  }

  lemma NotedNothing(st: State, sig: Sig, f: Flags, v: Verdict)
    requires st.wisdom != Normal && st.wisdom != Only
    ensures Noted(st, sig, f, v) == st
  {}

  lemma NotedContents(st: State, sig: Sig, f: Flags, v: Verdict)
    requires TableOk(st.saved) && TableOk(st.unsaved) && (st.wisdom == Normal || st.wisdom == Only)
    ensures var b, e := Noted(st, sig, f, v), Entry(sig, Answer(f, v));
            && b.bless == st.bless && b.wisdom == st.wisdom
            && Contents(b.saved) == (if st.bless then Updated(Contents(st.saved), e) else Contents(st.saved))
            && Contents(b.unsaved) == (if st.bless then Contents(st.unsaved) else Updated(Contents(st.unsaved), e))
  {
    hide TableOk, Contents, Inserted, Updated;
    InsertedIs(if st.bless then st.saved else st.unsaved, Entry(sig, Answer(f, v)));
  }

  lemma StoreTrue(t: Facts, m: Scope, st: State)
    requires Good(t, st.saved, st.unsaved)
    ensures AllTrue(t, Store(m, st))
  {
    hide TableOk, Contents, Antichain, IsTrue;
  }

  lemma EntryGrows(w: World, d: seq<Desc>, t: Facts, e: Entry, K: set<Entry>, L: set<Entry>)
    requires EntryBacked(w, d, t, e, K) && IsTrue(t, e) && Remembers(K, L)
    ensures EntryBacked(w, d, t, e, L)
  {
    hide Remembers, EntryBacked, IsTrue;
    BackedGrows(w, d, t, {e}, K, {e}, L);
  }

  lemma CoversOn(t: Facts, S: set<Entry>, U: set<Entry>, T: set<Entry>)
    requires KnowsInfeasible(S, U) && Remembers(S, T) && AllTrue(t, U)
    ensures KnowsInfeasible(T, U)
  {
    hide Answerable, Asked;
    forall e | e in U && e.answer.verdict.Infeasible? ensures Answerable(T, e.sig, e.answer.flags) {
      assert IsTrue(t, e);
    }
  }

  // ---- Every run ----

  /** A question of a run that is answered, and whose answer a solver may need to be told again, is answered from then on. */
  lemma AnswerKept(w: World, d: seq<Desc>, t: Facts, m: Scope, p: Problem, st: State, fuel: nat)
    requires Laws(w, d, t, m) && Asked(st.flags) && Firm(w, d, t, m, st) && RunMk(w, d, p, st, fuel).Some?
    ensures var o := RunMk(w, d, p, st, fuel).value;
            (o.st.wisdom == Normal || o.st.wisdom == Only) && (m == Strictly ==> o.pln.Some?) ==>
              Answerable(Store(m, o.st), w.hash(p, st.nthr), Canonicalized(st.flags))
  {
    hide RunMk, TableOk, Contents, Antichain, AllTrue, Backed, FactsOf, Settled, Strict, Explains, Recorded, Onward,
         KnowsInfeasible, Answerable, Planned;
    var how := MkPlanned(w, d, p, st, fuel);
    RunsRight(w, d, t, p, st, fuel);
    var o := RunMk(w, d, p, st, fuel).value;
    var f, sig := Canonicalized(st.flags), w.hash(p, st.nthr);
    if (o.st.wisdom == Normal || o.st.wisdom == Only) && (m == Strictly ==> o.pln.Some?) {
      LawsFacts(w, d, t, m);
      PlannedKeeps(w, d, t, m, p, st, o.st, o.pln, how);
    }
  }

  lemma PlannedKeeps(w: World, d: seq<Desc>, t: Facts, m: Scope, p: Problem, a: State, b: State, pln: Option<Plan>,
    how: How)
    requires Planned(w, d, p, a, b, pln, how) && Asked(a.flags) && Easier(t) && Good(t, a.saved, a.unsaved)
    requires Moved(t, a, b) && (m != Together ==> a.bless) && (m == Covering ==>
      KnowsInfeasible(Contents(a.saved), Contents(a.unsaved)))
    requires (b.wisdom == Normal || b.wisdom == Only) && (m == Strictly ==> pln.Some?)
    ensures Answerable(Store(m, b), w.hash(p, a.nthr), Canonicalized(a.flags))
  {
    hide TableOk, Contents, Antichain, AllTrue, Explains, Recorded, KnowsInfeasible, Answerable, Easier, Has, Leq;
    var f, sig := Canonicalized(a.flags), w.hash(p, a.nthr);
    if m == Together {
      KnowsTogether(b, sig, f);
    } else {
      RecordedAnswers(w, d, how, p, f, a.nthr, pln, b);
      if how.Recalled? && how.entry.answer.verdict.Infeasible? {
        RecalledEntry(w, d, how, p, f, a.nthr, pln);
        CoveredRecall(t, Contents(a.saved), Contents(a.unsaved), how.entry, f);
      }
    }
  }

  lemma KnowsTogether(st: State, sig: Sig, q: Flags)
    ensures Knows(st, sig, q) <==> Answerable(Store(Together, st), sig, q)
  {
    hide Contents, Subsumes;
    var S, U := Contents(st.saved), Contents(st.unsaved);
    if Answerable(S + U, sig, q) {
      var x :| x in S + U && Answers(x, sig, q);
    }
    if Knows(st, sig, q) {
      var x :| (x in S || x in U) && Answers(x, sig, q);
      assert x in S + U;
    }
  }

  lemma RecalledEntry(w: World, d: seq<Desc>, how: How, p: Problem, f: Flags, n: nat, pln: Option<Plan>)
    requires Explains(w, d, how, p, f, n, pln) && how.Recalled?
    ensures Answers(how.entry, w.hash(p, n), f) && (how.entry.answer.verdict.Infeasible? ==> pln.None?)
  {}

  /** What is recorded while blessing answers the question from the saved table. */
  lemma RecordedAnswers(w: World, d: seq<Desc>, how: How, p: Problem, f: Flags, n: nat, pln: Option<Plan>, b: State)
    requires Explains(w, d, how, p, f, n, pln) && Recorded(how, b, w.hash(p, n), f, pln) && !how.Refused? && b.bless
    ensures Answerable(Contents(b.saved), w.hash(p, n), f) || (how.Recalled? && how.entry.answer.verdict.Infeasible?)
  {
    hide Contents, Subsumes, Leq, Returned, WholeSchedule, Levels, RoundReturned, RoundRun, Failed, OfKind;
    var sig := w.hash(p, n);
    match how
    case Refused =>
    case Recalled(e) =>
      if e.answer.verdict.Solver? {
        assert Answers(Entry(sig, Answer(e.answer.flags, e.answer.verdict)), sig, f);
      }
    case Fresh(rounds, slv) =>
      var v := if pln.Some? then Solver(slv) else Infeasible;
      var at := rounds[|rounds| - 1].l;
      FoundAnswers(at, f, v);
      assert Answers(Entry(sig, Answer(Flags(at, f.u, 0), v)), sig, f);
  }

  lemma CoveredRecall(t: Facts, S: set<Entry>, U: set<Entry>, e: Entry, f: Flags)
    requires Easier(t) && AllTrue(t, S) && AllTrue(t, U) && KnowsInfeasible(S, U) && Answers(e, e.sig, f)
      && e.answer.verdict.Infeasible?
    requires e in S || e in U
    ensures Answerable(S, e.sig, f)
  {
    hide Easier, IsTrue, Subsumes;
    if e !in S {
      var x :| x in S && Answers(x, e.sig, e.answer.flags);
      DisplacedAgree(t, e, x);
      SubsumesTransitive(x.answer, e.answer, f);
      assert Answers(x, e.sig, f);
    }
  }

  ghost predicate Records(st: State) {
    st.wisdom == Normal || st.wisdom == Only
  }

  /** Where everything stored is backed the wisdom state comes back. */
  ghost predicate Steady(m: Scope, a: State, b: State) {
    m == Together ==> b.wisdom == a.wisdom
  }

  /** Every run keeps the store firm; and where that is all that is stored, the wisdom is bogus only if it was before, or
      if only wisdom was allowed and there was none. */
  lemma {:induction false} RunsFirm(w: World, d: seq<Desc>, t: Facts, m: Scope, p: Problem, st: State, fuel: nat)
    requires Laws(w, d, t, m) && Asked(st.flags) && Firm(w, d, t, m, st) && RunMk(w, d, p, st, fuel).Some?
    ensures var b := RunMk(w, d, p, st, fuel).value.st;
            && Firm(w, d, t, m, b)
            && (st.wisdom != Only || Knows(st, w.hash(p, st.nthr), Canonicalized(st.flags)) ==> Steady(m, st, b))
    decreases fuel, 4, 0
  {
    hide Recall, Noted, RunReuse, RunSearch, TableOk, Contents, Answerable, Answers, Subsumes, IsTrue, Laws, Firm,
         Leq, Has;
    LawsFacts(w, d, t, m);
    FirmGood(w, d, t, m, st);
    GoodTables(t, st.saved, st.unsaved);
    var c := st.(flags := Canonicalized(st.flags));
    var sig := w.hash(p, c.nthr);
    FirmStill(w, d, t, m, st, c);
    FirmStill(w, d, t, m, st, c.(wisdom := Bogus));
    RecallIs(c.saved, c.unsaved, sig, c.flags);
    var sol := if c.wisdom == IgnoreAll then None else LookedUp(c, sig);
    if sol.Some? {
      RecalledTrue(w, d, t, p, c, sol.value);
    }
    if c.wisdom == Bogus {
    } else if sol.Some? && sol.value.answer.verdict.Solver? {
      ReuseFirm(w, d, t, m, p, sol.value, c, fuel);
    } else if (sol.Some? && c.wisdom != IgnoreInfeasible) || c.wisdom == Only {
    } else {
      SearchFirm(w, d, t, m, p, c, fuel);
    }
  }

  lemma GoodTables(t: Facts, saved: seq<Slot>, unsaved: seq<Slot>)
    requires Good(t, saved, unsaved)
    ensures TableOk(saved) && TableOk(unsaved)
  {}

  lemma {:induction false} ReuseFirm(w: World, d: seq<Desc>, t: Facts, m: Scope, p: Problem, e: Entry, st: State,
    fuel: nat)
    requires Laws(w, d, t, m) && Firm(w, d, t, m, st)
    requires e.answer.verdict.Solver? && IsTrue(t, e) && e.sig == w.hash(p, st.nthr) && Subsumes(e.answer,
      st.flags) && t.can(e.sig, st.flags.l)
    requires e in Contents(st.saved) || e in Contents(st.unsaved)
    requires st.wisdom != Bogus && st.wisdom != IgnoreAll && RunReuse(w, d, p, e.sig, e.answer, st, fuel).Some?
    ensures var b := RunReuse(w, d, p, e.sig, e.answer, st, fuel).value.st; Firm(w, d, t, m, b) && Steady(m, st, b)
    decreases fuel, 3, 0
  {
    hide Noted, RunSolver, Contents, Answerable, Subsumes, IsTrue, Onward, FactsOf, Settled, Laws, Firm, QuestionsKnown;
    LawsFacts(w, d, t, m);
    FirmGood(w, d, t, m, st);
    var s, f, only := e.answer.verdict.index, e.answer.flags, st.(wisdom := Only);
    FirmStill(w, d, t, m, st, only);
    FirmStill(w, d, t, m, st, st.(wisdom := Bogus));
    TrueAsked(t, e);
    ReuseRight(w, d, t, p, e, st, fuel);
    GoodAfter(t, st, RunReuse(w, d, p, e.sig, e.answer, st, fuel).value.st);
    if m == Together { StoredReady(w, d, t, p, only, e); }
    if Suits(d, p, s) {
      SolverFirm(w, d, t, m, p, s, only, f, fuel);
      SolverRight(w, d, t, p, s, only, f, fuel);
      KeepsSolver(w, d, p, s, only, f, fuel);
      var r := RunSolver(w, d, p, s, only, f, fuel).value;
      KeptIs(only, r.st);
      FirmStill(w, d, t, m, r.st, r.st.(wisdom := Bogus));
      if r.st.wisdom == Only && r.pln.Some? {
        var back := r.st.(wisdom := st.wisdom);
        FirmStill(w, d, t, m, r.st, back);
        ReadyIsBacked(w, d, t, p, f, st.nthr, s, Store(m, back));
        NotedFirm(w, d, t, m, back, e.sig, f, e.answer.verdict);
        NotedKeeps(back, e.sig, f, e.answer.verdict);
      }
    }
  }

  /** A stored plan is made of what is stored. */
  lemma StoredReady(w: World, d: seq<Desc>, t: Facts, p: Problem, st: State, e: Entry)
    requires Firm(w, d, t, Together, st) && e.answer.verdict.Solver? && e.sig == w.hash(p, st.nthr)
    requires e in Contents(st.saved) || e in Contents(st.unsaved)
    ensures Ready(w, d, t, p, e.answer.flags, st.nthr, e.answer.verdict.index, Store(Together, st))
  {
    hide Contents, Good, Ready;
    assert e in Store(Together, st);
    assert EntryBacked(w, d, t, e, Store(Together, st));
  }

  lemma {:induction false} SearchFirm(w: World, d: seq<Desc>, t: Facts, m: Scope, p: Problem, st: State, fuel: nat)
    requires Laws(w, d, t, m) && Asked(st.flags) && Firm(w, d, t, m, st)
    requires st.wisdom != Bogus && st.wisdom != Only && RunSearch(w, d, p, w.hash(p, st.nthr), st, fuel).Some?
    ensures var b := RunSearch(w, d, p, w.hash(p, st.nthr), st, fuel).value.st; Firm(w, d, t, m, b) && Steady(m, st, b)
    decreases fuel, 3, 0
  {
    hide Noted, RunLevels, Contents, Answerable, Onward, FactsOf, Settled, WholeSchedule, Leq, Descends, Laws, Firm,
         Ready, IsTrue, Good;
    LawsFacts(w, d, t, m);
    FirmGood(w, d, t, m, st);
    var sig := w.hash(p, st.nthr);
    var begun, whole := st.(searches := st.searches + 1), WholeSchedule(st.flags.l, st.flags.u);
    FirmStill(w, d, t, m, st, begun);
    WholeDescends(st.flags.l, st.flags.u);
    WholeInside(whole, st.flags.l, st.flags.u);
    KeepsLevels(w, d, p, whole, begun, fuel);
    SearchRight(w, d, t, p, st, fuel);
    GoodAfter(t, st, RunSearch(w, d, p, sig, st, fuel).value.st);
    LevelsRight(w, d, t, p, whole, begun, fuel);
    LevelsFirm(w, d, t, m, p, whole, begun, fuel);
    var b := RunLevels(w, d, p, whole, begun, fuel).value;
    KeptIs(begun, b.st);
    if b.st.wisdom != Bogus {
      FoundFirm(w, d, t, m, p, st, b);
    }
  }

  lemma FoundFirm(w: World, d: seq<Desc>, t: Facts, m: Scope, p: Problem, st: State, b: Finding)
    requires Laws(w, d, t, m) && Firm(w, d, t, m, b.st) && Leq(b.at, st.flags.u)
    requires b.pln.Some? <==> t.can(w.hash(p, st.nthr), b.at)
    requires b.pln.Some? && Records(b.st) ==> Ready(w, d, t, p, Flags(b.at, st.flags.u, 0), st.nthr, b.slv, Store(m, b.st))
    requires var o := Noted(b.st, w.hash(p, st.nthr), Flags(b.at, st.flags.u, 0), if b.pln.Some? then Solver(b.slv) else Infeasible);
             Good(t, o.saved, o.unsaved)
    ensures var o := Noted(b.st, w.hash(p, st.nthr), Flags(b.at, st.flags.u, 0), if b.pln.Some? then Solver(b.slv) else Infeasible);
            Firm(w, d, t, m, o) && o.wisdom == b.st.wisdom
  {
    hide Noted, FactsOf, Settled, Leq, Laws, Firm, Ready, IsTrue, Good;
    LawsFacts(w, d, t, m);
    var sig, v, f := w.hash(p, st.nthr), if b.pln.Some? then Solver(b.slv) else Infeasible, Flags(b.at, st.flags.u, 0);
    FoundTrue(t, sig, b.at, st.flags.u, v);
    if v.Solver? && Records(b.st) {
      ReadyIsBacked(w, d, t, p, f, st.nthr, b.slv, Store(m, b.st));
    }
    NotedFirm(w, d, t, m, b.st, sig, f, v);
    NotedKeeps(b.st, sig, f, v);
  }

  lemma FoundTrue(t: Facts, sig: Sig, x: Mask, u: Mask, v: Verdict)
    requires Leq(x, u) && (v.Solver? <==> t.can(sig, x))
    ensures IsTrue(t, Entry(sig, Answer(Flags(x, u, 0), v)))
  {}

  lemma {:induction false} LevelsFirm(w: World, d: seq<Desc>, t: Facts, m: Scope, p: Problem, levels: seq<Mask>,
    st: State, fuel: nat)
    requires Laws(w, d, t, m) && Firm(w, d, t, m, st) && levels != [] && st.wisdom != Only
    requires forall i :: 0 <= i < |levels| ==> Leq(levels[i], st.flags.u)
    requires RunLevels(w, d, p, levels, st, fuel).Some?
    ensures var r := RunLevels(w, d, p, levels, st, fuel).value;
            && Firm(w, d, t, m, r.st) && Steady(m, st, r.st)
            && (r.pln.Some? && Records(r.st) ==> Ready(w, d, t, p, Flags(r.at, st.flags.u, 0), st.nthr, r.slv,
              Store(m, r.st)))
    decreases fuel, 2, |levels|
  {
    hide RunTries, FactsOf, Settled, Onward, Leq, Laws, Firm, Ready;
    LawsFacts(w, d, t, m);
    var order := OfKind(d, p.kind, |d|);
    AnyOfKind(w, d, t, p, st.nthr, levels[0]);
    TriesFirm(w, d, t, m, p, levels[0], order, None, 0, st, fuel);
    KeepsTries(w, d, p, levels[0], order, None, 0, st, fuel);
    var r := RunTries(w, d, p, levels[0], order, None, 0, st, fuel).value;
    KeptIs(st, r.st);
    if r.pln.None? && |levels| > 1 {
      LevelsFirm(w, d, t, m, p, levels[1..], r.st, fuel);
    }
  }

  lemma {:induction false} TriesFirm(w: World, d: seq<Desc>, t: Facts, m: Scope, p: Problem, l: Mask, rest: seq<nat>,
    best: Option<Plan>,
                                     slv: nat, st: State, fuel: nat)
    requires Laws(w, d, t, m) && Firm(w, d, t, m, st) && Leq(l, st.flags.u) && st.wisdom != Only
    requires forall s :: s in rest ==> Suits(d, p, s)
    requires best.Some? && Records(st) ==> Ready(w, d, t, p, Flags(l, st.flags.u, 0), st.nthr, slv, Store(m, st))
    requires RunTries(w, d, p, l, rest, best, slv, st, fuel).Some?
    ensures var r := RunTries(w, d, p, l, rest, best, slv, st, fuel).value;
            && Firm(w, d, t, m, r.st) && Steady(m, st, r.st)
            && (r.pln.Some? && Records(r.st) ==> Ready(w, d, t, p, Flags(l, st.flags.u, 0), st.nthr, r.slv, Store(m,
              r.st)))
    decreases fuel, 1, |rest|
  {
    hide RunSolver, FactsOf, Settled, Onward, Leq, Laws, Firm, Suits, Has, Ready, Store;
    if rest != [] {
      LawsFacts(w, d, t, m);
      var f := Flags(l, st.flags.u, st.flags.timelimit);
      assert rest[0] in rest;
      SolverFirm(w, d, t, m, p, rest[0], st, f, fuel);
      KeepsSolver(w, d, p, rest[0], st, f, fuel);
      var r := RunSolver(w, d, p, rest[0], st, f, fuel).value;
      KeptIs(st, r.st);
      TryReady(w, d, t, m, p, l, best, slv, st, rest[0], fuel);
      if !(LetsPrune(r.pln) && Has(st.flags.u, ALLOW_PRUNING)) {
        var b, s := if Better(r.pln, best) then r.pln else best, if Better(r.pln, best) then rest[0] else slv;
        TriesFirm(w, d, t, m, p, l, rest[1..], b, s, r.st, fuel);
      }
    }
  }

  /** The best solver so far is still ready, or the one just tried is. */
  lemma TryReady(w: World, d: seq<Desc>, t: Facts, m: Scope, p: Problem, l: Mask, best: Option<Plan>, slv: nat,
    st: State, s: nat, fuel: nat)
    requires Laws(w, d, t, m) && Firm(w, d, t, m, st) && Leq(l, st.flags.u) && st.wisdom != Only && Suits(d, p, s)
    requires best.Some? && Records(st) ==> Ready(w, d, t, p, Flags(l, st.flags.u, 0), st.nthr, slv, Store(m, st))
    requires RunSolver(w, d, p, s, st, Flags(l, st.flags.u, st.flags.timelimit), fuel).Some?
    requires var r := RunSolver(w, d, p, s, st, Flags(l, st.flags.u, st.flags.timelimit), fuel).value;
             r.pln.Some? && Records(r.st) ==> QuestionsKnown(w, t, p, Flags(l, st.flags.u, 0), st.nthr, s, Store(m,
               r.st))
    ensures var r := RunSolver(w, d, p, s, st, Flags(l, st.flags.u, st.flags.timelimit), fuel).value;
            && (Better(r.pln, best) && Records(r.st) ==> Ready(w, d, t, p, Flags(l, st.flags.u, 0), st.nthr, s,
              Store(m, r.st)))
            && (best.Some? && Records(r.st) ==> Ready(w, d, t, p, Flags(l, st.flags.u, 0), st.nthr, slv, Store(m,
              r.st)))
  {
    hide RunSolver, FactsOf, Settled, Onward, Leq, Laws, Firm, Suits, QuestionsKnown, Store, Moved;
    LawsFacts(w, d, t, m);
    FirmGood(w, d, t, m, st);
    var f := Flags(l, st.flags.u, st.flags.timelimit);
    SolverRight(w, d, t, p, s, st, f, fuel);
    KeepsSolver(w, d, p, s, st, f, fuel);
    var r := RunSolver(w, d, p, s, st, f, fuel).value;
    KeptIs(st, r.st);
    StoreGrows(t, m, st, r.st);
    if best.Some? && Records(r.st) {
      ReadyGrows(w, d, t, p, Flags(l, st.flags.u, 0), st.nthr, slv, Store(m, st), Store(m, r.st));
    }
  }

  lemma {:induction false} SolverFirm(w: World, d: seq<Desc>, t: Facts, m: Scope, p: Problem, s: nat, st: State,
    nflags: Flags, fuel: nat)
    requires Laws(w, d, t, m) && Firm(w, d, t, m, st) && Suits(d, p, s) && Asked(nflags)
    requires m == Together && st.wisdom == Only ==> QuestionsKnown(w, t, p, nflags.(timelimit := 0), st.nthr, s,
      Store(m, st))
    requires RunSolver(w, d, p, s, st, nflags, fuel).Some?
    ensures var r := RunSolver(w, d, p, s, st, nflags, fuel).value;
            && Firm(w, d, t, m, r.st) && Steady(m, st, r.st)
            && (r.pln.Some? && Records(r.st) ==> QuestionsKnown(w, t, p, nflags.(timelimit := 0), st.nthr, s,
              Store(m, r.st)))
    decreases fuel, 0, fuel + 1
  {
    hide Dialogue, FactsOf, Settled, Leq, Suits, Laws, Firm, QuestionsKnown, Contents;
    var begun := st.(flags := nflags.(timelimit := 0));
    FirmStill(w, d, t, m, st, begun);
    DialogueFirm(w, d, t, m, p, s, begun, st.nthr, [], fuel, fuel);
    var r := Dialogue(w, d, p, s, begun, [], fuel, fuel).value;
    FirmStill(w, d, t, m, r.st, r.st.(flags := st.flags, nthr := st.nthr));
  }

  lemma {:induction false} DialogueFirm(w: World, d: seq<Desc>, t: Facts, m: Scope, p: Problem, s: nat, st: State,
    threads: nat,
                                        answers: seq<Option<Plan>>, steps: nat, fuel: nat)
    requires Laws(w, d, t, m) && Firm(w, d, t, m, st) && Suits(d, p, s) && Asked(st.flags) && st.flags.timelimit == 0
    requires Spoken(w, p, st.flags, threads, s, answers) == Some(st.nthr)
    requires st.wisdom != Bogus ==> Informed(w, t, p, st.flags, threads, s, answers)
    requires m == Together && st.wisdom == Only ==> QuestionsKnown(w, t, p, st.flags, threads, s, Store(m, st))
    requires Records(st) ==> Noticed(w, p, st.flags, threads, s, answers, Store(m, st), m != Strictly)
    requires Dialogue(w, d, p, s, st, answers, steps, fuel).Some?
    ensures var r := Dialogue(w, d, p, s, st, answers, steps, fuel).value;
            && Firm(w, d, t, m, r.st) && Steady(m, st, r.st)
            && (r.pln.Some? && Records(r.st) ==> QuestionsKnown(w, t, p, st.flags, threads, s, Store(m, r.st)))
    decreases fuel, 0, steps
  {
    hide RunMk, FactsOf, Settled, Leq, Suits, Spoken, Informed, Onward, Laws, Firm, QuestionsKnown, Noticed, Store;
    match w.act(s, p, st.flags, st.nthr, answers)
    case Return(pln) =>
      if pln.Some? && Records(st) { ReturnKnown(w, d, t, m, p, st.flags, threads, s, answers, pln, st.nthr, Store(m,
        st)); }
    case Ask(sub, n, lSet, uSet, uReset) =>
      var r := RunMkF(w, d, sub, st.(nthr := n), lSet, uSet, uReset, fuel - 1).value;
      KeepsMkF(w, d, sub, st, n, lSet, uSet, uReset, fuel - 1);
      OnwardIs(st, r.st);
      OneMoreSaid(w, p, st.flags, threads, s, answers, st.nthr, r.pln);
      var asked := st.(nthr := n).(flags := Changed(st.flags, lSet, uSet, uReset));
      ChangedAsked(st.flags, lSet, uSet, uReset);
      FirmStill(w, d, t, m, st, asked);
      if m == Together && st.wisdom == Only { NextIsKnown(w, t, p, s, st, threads, answers); }
      RunsFirm(w, d, t, m, sub, asked, fuel - 1);
      FirmStill(w, d, t, m, RunMk(w, d, sub, asked, fuel - 1).value.st, r.st);
      OneMoreNoticed(w, d, t, m, p, s, st, threads, answers, fuel);
      DialogueFirm(w, d, t, m, p, s, r.st, threads, answers + [r.pln], steps - 1, fuel);
  }

  lemma ReturnKnown(w: World, d: seq<Desc>, t: Facts, m: Scope, p: Problem, f: Flags, n: nat, s: nat,
    answers: seq<Option<Plan>>,
                    pln: Option<Plan>, now: nat, K: set<Entry>)
    requires Laws(w, d, t, m) && Informed(w, t, p, f, n, s, answers) && Noticed(w, p, f, n, s, answers, K,
      m != Strictly)
    requires Spoken(w, p, f, n, s, answers) == Some(now) && w.act(s, p, f, now, answers) == Return(pln) && pln.Some?
    ensures QuestionsKnown(w, t, p, f, n, s, K)
  {
    hide FactsOf, Settled, Informed, Noticed, Spoken, QuestionsKnown;
    assert Ends(w, p, f, n, s, answers, pln);
    if m == Strictly { assert NeedsAll(w, t, p, f, n, s); }
    EndedKnown(w, t, p, f, n, s, answers, pln, K, m != Strictly);
  }

  lemma NextIsKnown(w: World, t: Facts, p: Problem, s: nat, st: State, threads: nat, answers: seq<Option<Plan>>)
    requires Informed(w, t, p, st.flags, threads, s, answers) && QuestionsKnown(w, t, p, st.flags, threads, s,
      Store(Together, st))
    requires Spoken(w, p, st.flags, threads, s, answers) == Some(st.nthr) && w.act(s, p, st.flags, st.nthr,
      answers).Ask?
    requires st.flags.timelimit == 0
    ensures var a := w.act(s, p, st.flags, st.nthr, answers);
            var f := Changed(st.flags, a.lSet, a.uSet, a.uReset);
            Knows(st, w.hash(a.sub, a.threads), f) && Canonicalized(f) == f
  {
    hide Spoken, Informed, Store, Knows, Without, Has;
    assert NextKnown(w, p, st.flags, threads, s, answers, Store(Together, st));
    var a := w.act(s, p, st.flags, st.nthr, answers);
    KnowsTogether(st, w.hash(a.sub, a.threads), Changed(st.flags, a.lSet, a.uSet, a.uReset));
  }

  /** What the dialogue knows after one more question. */
  lemma OneMoreNoticed(w: World, d: seq<Desc>, t: Facts, m: Scope, p: Problem, s: nat, st: State, threads: nat,
    answers: seq<Option<Plan>>, fuel: nat)
    requires Laws(w, d, t, m) && Firm(w, d, t, m, st) && Asked(st.flags) && st.flags.timelimit == 0 && fuel > 0
    requires Spoken(w, p, st.flags, threads, s, answers) == Some(st.nthr) && w.act(s, p, st.flags, st.nthr,
      answers).Ask?
    requires st.wisdom != Bogus ==> Informed(w, t, p, st.flags, threads, s, answers)
    requires m == Together && st.wisdom == Only ==> QuestionsKnown(w, t, p, st.flags, threads, s, Store(m, st))
    requires Records(st) ==> Noticed(w, p, st.flags, threads, s, answers, Store(m, st), m != Strictly)
    requires var a := w.act(s, p, st.flags, st.nthr, answers);
             RunMkF(w, d, a.sub, st.(nthr := a.threads), a.lSet, a.uSet, a.uReset, fuel - 1).Some?
    ensures var a := w.act(s, p, st.flags, st.nthr, answers);
            var r := RunMkF(w, d, a.sub, st.(nthr := a.threads), a.lSet, a.uSet, a.uReset, fuel - 1).value;
            && (r.st.wisdom != Bogus ==> Informed(w, t, p, st.flags, threads, s, answers + [r.pln]))
            && (m == Together && r.st.wisdom == Only ==> QuestionsKnown(w, t, p, st.flags, threads, s, Store(m, r.st)))
            && (Records(r.st) ==> Noticed(w, p, st.flags, threads, s, answers + [r.pln], Store(m, r.st), m != Strictly))
  {
    hide RunMk, FactsOf, Settled, Leq, Spoken, Informed, Onward, Laws, Firm, QuestionsKnown, Noticed, Store, Good, Remembers;
    LawsFacts(w, d, t, m);
    FirmGood(w, d, t, m, st);
    var a := w.act(s, p, st.flags, st.nthr, answers);
    var asked := st.(nthr := a.threads).(flags := Changed(st.flags, a.lSet, a.uSet, a.uReset));
    var r := RunMkF(w, d, a.sub, st.(nthr := a.threads), a.lSet, a.uSet, a.uReset, fuel - 1).value;
    var o := RunMk(w, d, a.sub, asked, fuel - 1).value;
    ChangedAsked(st.flags, a.lSet, a.uSet, a.uReset);
    FirmStill(w, d, t, m, st, asked);
    RunsRight(w, d, t, a.sub, asked, fuel - 1);
    KeepsMkF(w, d, a.sub, st, a.threads, a.lSet, a.uSet, a.uReset, fuel - 1);
    OnwardIs(st, r.st);
    StoreGrows(t, m, asked, o.st);
    SameStore(m, st, asked);
    SameStore(m, o.st, r.st);
    if m == Together && r.st.wisdom == Only {
      KnownGrows(w, t, p, st.flags, threads, s, Store(m, st), Store(m, r.st));
    }
    if r.st.wisdom != Bogus {
      OneMoreInformed(w, t, p, st.flags, threads, s, answers, st.nthr, r.pln);
    }
    if Records(r.st) {
      AnswerKept(w, d, t, m, a.sub, asked, fuel - 1);
      CanonicalAlready(Changed(st.flags, a.lSet, a.uSet, a.uReset));
      NoticedGrows(w, p, st.flags, threads, s, answers, Store(m, st), Store(m, r.st), m != Strictly);
      NoticedNext(w, p, st.flags, threads, s, answers, st.nthr, r.pln, Store(m, r.st), m != Strictly);
    }
  }

  lemma CanonicalAlready(f: Flags)
    requires f.timelimit == 0
    ensures Canonicalized(f) == f
  {}

  lemma SameStore(m: Scope, a: State, b: State)
    requires a.saved == b.saved && a.unsaved == b.unsaved
    ensures Store(m, a) == Store(m, b)
  {}

  lemma NoticedNext(w: World, p: Problem, f: Flags, n: nat, s: nat, answers: seq<Option<Plan>>, now: nat,
    r: Option<Plan>,
                    K: set<Entry>, all: bool)
    requires Noticed(w, p, f, n, s, answers, K, all) && Spoken(w, p, f, n, s, answers) == Some(now)
    requires all || r.Some? ==> MoveKnown(w, f, w.act(s, p, f, now, answers), K)
    ensures Noticed(w, p, f, n, s, answers + [r], K, all)
  {
    hide Spoken, MoveKnown;
    assert (answers + [r])[..|answers|] == answers;
  }
}
