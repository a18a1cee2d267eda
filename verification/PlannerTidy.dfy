/** kernel/planner.c: in what is to be saved no solution answers another's question. While a question is being searched, no
    answer to it is recorded: the flags by which solvers forbid one another are the same in l and in u of every question,
    so that an answer recorded on the way, to a question with one such flag more, does not answer it. */
module PlannerTidy {
  import opened Subsumption
  import opened HashTable
  import opened Options
  import opened Registry
  import opened SearchTrace
  import opened PlannerRules
  import opened PlannerRuns
  import opened PlannerTheory
  import opened PlannerTruth

  /** The flags that end recursions, a rank of questions that depends on the problem and on these flags only, and the same
      rank read from signatures. */
  datatype Levels = Levels(hard: Mask, rank: (Problem, Mask) -> nat, depth: (Sig, Mask) -> nat)

  predicate SameBits(x: Mask, y: Mask, hard: Mask) {
    x & hard == y & hard
  }

  /** l and u have the same hard flags. */
  ghost predicate Agree(hard: Mask, f: Flags) {
    SameBits(f.l, f.u, hard)
  }

  ghost predicate AllAgree(hard: Mask, S: set<Entry>) {
    forall e :: e in S ==> Agree(hard, e.answer.flags)
  }

  /** What u sets of the hard flags, l sets too. */
  predicate SetsAlike(hard: Mask, lSet: Mask, uSet: Mask) {
    uSet & hard & !lSet == 0
  }

  /** A question sets hard flags in l and u alike, and lowers the rank. */
  ghost predicate Steps(a: Action, f: Flags, v: Levels, r: nat) {
    a.Ask? ==> SetsAlike(v.hard, a.lSet, a.uSet) && v.rank(a.sub, Changed(f, a.lSet, a.uSet, a.uReset).l) < r
  }

  ghost predicate LevelsOf(w: World, v: Levels) {
    && (forall p, n, x :: v.depth(w.hash(p, n), x) == v.rank(p, x))
    && (forall sig, x, y :: SameBits(x, y, v.hard) ==> v.depth(sig, x) == v.depth(sig, y))
    && (forall sig, x, y :: Leq(x, y) ==> v.depth(sig, y) <= v.depth(sig, x))
    && (forall s, p, f, n, answers :: Asked(f) && Agree(v.hard, f) ==>
          Steps(w.act(s, p, f, n, answers), f, v, v.rank(p, f.l)))
  }

  /** Where problems alone grow simpler, no flag is hard. */
  lemma SimplerProblems(w: World, rank: Problem -> nat, depth: Sig -> nat)
    requires forall p, n :: depth(w.hash(p, n)) == rank(p)
    requires forall s, p, f, n, answers :: var a := w.act(s, p, f, n, answers); Asked(f) && a.Ask? ==> rank(a.sub) < rank(p)
    ensures LevelsOf(w, Levels(0, (p, x) => rank(p), (sig, x) => depth(sig)))
  {
    hide Asked, SetsAlike, Changed, SameBits, Leq;
    var v := Levels(0, (p, x) => rank(p), (sig, x) => depth(sig));
    forall s, p, f, n, answers | Asked(f) ensures Steps(w.act(s, p, f, n, answers), f, v, v.rank(p, f.l)) {
      var a := w.act(s, p, f, n, answers);
      if a.Ask? { NoneSet(a.lSet, a.uSet); }
    }
  }

  lemma NoneSet(lSet: Mask, uSet: Mask)
    ensures SetsAlike(0, lSet, uSet)
  {}

  ghost function Depth(v: Levels, e: Entry): nat {
    v.depth(e.sig, e.answer.flags.l)
  }

  // ---- Bits ----

  lemma ChangedBits(l: Mask, u: Mask, lSet: Mask, uSet: Mask, uReset: Mask, hard: Mask)
    requires l & hard == u & hard && uSet & hard & !lSet == 0
    ensures ((l & !uReset) | lSet) & hard == ((u & !uReset) | uSet | lSet) & hard
  {}

  lemma ChangedAgree(hard: Mask, f: Flags, lSet: Mask, uSet: Mask, uReset: Mask)
    requires Agree(hard, f) && SetsAlike(hard, lSet, uSet)
    ensures Agree(hard, Changed(f, lSet, uSet, uReset))
  {
    ChangedBits(f.l, f.u, lSet, uSet, uReset, hard);
  }

  lemma BetweenBits(l: Mask, x: Mask, u: Mask, hard: Mask)
    requires Leq(l, x) && Leq(x, u) && SameBits(l, u, hard)
    ensures SameBits(x, l, hard) && SameBits(x, u, hard)
  {}

  /** What lies between l and u has their hard flags. */
  lemma BetweenAgree(hard: Mask, f: Flags, x: Mask)
    requires Agree(hard, f) && Leq(f.l, x) && Leq(x, f.u)
    ensures SameBits(x, f.l, hard) && Agree(hard, Flags(x, f.u, 0)) && Agree(hard, Flags(x, f.u, f.timelimit))
  {
    hide SameBits, Leq;
    BetweenBits(f.l, x, f.u, hard);
  }

  lemma InsideBits(l: Mask, u: Mask, x: Mask, y: Mask, hard: Mask)
    requires Leq(u, y) && Leq(x, l) && SameBits(l, u, hard) && SameBits(x, y, hard)
    ensures SameBits(l, x, hard)
  {}

  /** A plan that answers a question has its hard flags. */
  lemma AnswerAgrees(hard: Mask, a: Answer, q: Flags)
    requires Subsumes(a, q) && a.verdict.Solver? && Agree(hard, a.flags) && Agree(hard, q)
    ensures SameBits(a.flags.l, q.l, hard)
  {
    hide SameBits, Leq;
    InsideBits(a.flags.l, a.flags.u, q.l, q.u, hard);
  }

  /** What answers a question is at least as deep as the question, and a plan just as deep. */
  lemma AnswerDepth(w: World, v: Levels, e: Entry, q: Flags)
    requires LevelsOf(w, v) && Subsumes(e.answer, q) && Agree(v.hard, e.answer.flags) && Agree(v.hard, q)
    ensures Depth(v, e) >= v.depth(e.sig, q.l) && (e.answer.verdict.Solver? ==> Depth(v, e) == v.depth(e.sig, q.l))
  {
    hide Agree, Steps;
    if e.answer.verdict.Solver? {
      hide Subsumes;
      AnswerAgrees(v.hard, e.answer, q);
    }
  }

  // ---- Tables ----

  /** Nothing of depth r or more changes. */
  ghost predicate Same(v: Levels, r: nat, S: set<Entry>, T: set<Entry>) {
    forall e :: Depth(v, e) >= r ==> (e in S <==> e in T)
  }

  lemma SameOn(v: Levels, r: nat, S: set<Entry>, T: set<Entry>, R: set<Entry>)
    requires Same(v, r, S, T) && Same(v, r, T, R)
    ensures Same(v, r, S, R)
  {
    hide Depth;
  }

  lemma SameStill(v: Levels, r: nat, S: set<Entry>)
    ensures Same(v, r, S, S)
  {}

  lemma SameWider(v: Levels, r: nat, k: nat, S: set<Entry>, T: set<Entry>)
    requires Same(v, r, S, T) && r <= k
    ensures Same(v, k, S, T)
  {
    hide Depth;
  }

  /** A question of depth r that nothing answered is still not answered. */
  lemma MissStays(w: World, v: Levels, r: nat, S: set<Entry>, T: set<Entry>, sig: Sig, q: Flags)
    requires LevelsOf(w, v) && Same(v, r, S, T) && v.depth(sig, q.l) >= r && AllAgree(v.hard, T) && Agree(v.hard, q)
    requires !Answerable(S, sig, q)
    ensures !Answerable(T, sig, q)
  {
    hide LevelsOf, Answerable, Agree, Same, AllAgree;
    if Answerable(T, sig, q) { HitWasThere(w, v, r, S, T, sig, q); }
  }

  lemma HitWasThere(w: World, v: Levels, r: nat, S: set<Entry>, T: set<Entry>, sig: Sig, q: Flags)
    requires LevelsOf(w, v) && Same(v, r, S, T) && v.depth(sig, q.l) >= r && AllAgree(v.hard, T) && Agree(v.hard, q)
    requires Answerable(T, sig, q)
    ensures Answerable(S, sig, q)
  {
    hide LevelsOf, Subsumes, Agree;
    var x :| x in T && Answers(x, sig, q);
    AnswerDepth(w, v, x, q);
    assert x in S;
  }

  /** An insertion touches nothing deeper than the entry. */
  lemma InsertedSame(w: World, t: Facts, v: Levels, S: set<Entry>, e: Entry)
    requires LevelsOf(w, v) && Easier(t) && AllTrue(t, S) && IsTrue(t, e) && AllAgree(v.hard, S)
    requires Agree(v.hard, e.answer.flags)
    ensures Same(v, Depth(v, e) + 1, S, Updated(S, e)) && AllAgree(v.hard, Updated(S, e))
  {
    hide LevelsOf, Agree, IsTrue, Easier, Subsumes;
    forall x | Depth(v, x) >= Depth(v, e) + 1 ensures x in S <==> x in Updated(S, e) {
      if x in S && Displaced(x, e) {
        DisplacedNotDeeper(w, t, v, x, e);
      }
    }
  }

  lemma DisplacedNotDeeper(w: World, t: Facts, v: Levels, x: Entry, e: Entry)
    requires LevelsOf(w, v) && Easier(t) && IsTrue(t, x) && IsTrue(t, e) && Displaced(x, e)
    requires Agree(v.hard, x.answer.flags) && Agree(v.hard, e.answer.flags)
    ensures Depth(v, x) <= Depth(v, e)
  {
    hide LevelsOf, Agree, IsTrue, Easier, Subsumes;
    AnswerDepth(w, v, e, x.answer.flags);
  }

  // ---- States ----

  ghost predicate Tidy(v: Levels, st: State) {
    AllAgree(v.hard, Contents(st.saved)) && AllAgree(v.hard, Contents(st.unsaved)) && Antichain(Contents(st.saved))
  }

  /** From a tidy state to a tidy one, touching nothing of depth r or more that is saved. */
  ghost predicate Stirred(v: Levels, r: nat, a: State, b: State) {
    Tidy(v, a) && Tidy(v, b) && Same(v, r, Contents(a.saved), Contents(b.saved))
  }

  lemma StirredOn(v: Levels, r: nat, a: State, b: State, c: State)
    requires Stirred(v, r, a, b) && Stirred(v, r, b, c)
    ensures Stirred(v, r, a, c)
  {
    hide Tidy, Same, Contents;
    SameOn(v, r, Contents(a.saved), Contents(b.saved), Contents(c.saved));
  }

  lemma StirredStill(v: Levels, r: nat, a: State, b: State)
    requires Tidy(v, a) && b.saved == a.saved && b.unsaved == a.unsaved
    ensures Stirred(v, r, a, b)
  {
    hide AllAgree, Antichain, Contents, Same;
    SameStill(v, r, Contents(a.saved));
  }

  lemma StirredWider(v: Levels, r: nat, k: nat, a: State, b: State)
    requires Stirred(v, r, a, b) && r <= k
    ensures Stirred(v, k, a, b)
  {
    hide Tidy, Same, Contents;
    SameWider(v, r, k, Contents(a.saved), Contents(b.saved));
  }

  lemma StirredTidy(v: Levels, r: nat, a: State, b: State)
    requires Stirred(v, r, a, b)
    ensures Tidy(v, b)
  {}

  /** Recording an entry that may be inserted. */
  lemma NotedTidy(w: World, t: Facts, v: Levels, st: State, sig: Sig, f: Flags, verdict: Verdict)
    requires LevelsOf(w, v) && Easier(t) && Good(t, st.saved, st.unsaved) && Tidy(v, st)
    requires IsTrue(t, Entry(sig, Answer(f, verdict))) && Agree(v.hard, f)
    requires st.bless && (st.wisdom == Normal || st.wisdom == Only) ==>
               Admissible(Contents(st.saved), Entry(sig, Answer(f, verdict)))
    ensures Stirred(v, v.depth(sig, f.l) + 1, st, Noted(st, sig, f, verdict))
  {
    hide LevelsOf, Easier, TableOk, Contents, Antichain, Admissible, Inserted, IsTrue, AllTrue, AllAgree, Agree, Same,
         Updated;
    var e := Entry(sig, Answer(f, verdict));
    StirredStill(v, Depth(v, e) + 1, st, st);
    if st.wisdom == Normal || st.wisdom == Only {
      InsertedIs(if st.bless then st.saved else st.unsaved, e);
      InsertedSame(w, t, v, Contents(if st.bless then st.saved else st.unsaved), e);
      if st.bless { UpdateKeepsAntichain(Contents(st.saved), e); }
    }
  }

  // ---- Every run ----

  ghost predicate Ordered(w: World, d: seq<Desc>, t: Facts, v: Levels) {
    FactsOf(w, d, t) && LevelsOf(w, v)
  }

  ghost predicate Neat(t: Facts, v: Levels, st: State) {
    Good(t, st.saved, st.unsaved) && Tidy(v, st)
  }

  ghost predicate Fit(v: Levels, f: Flags) {
    Asked(f) && Agree(v.hard, f)
  }

  lemma NeatStill(t: Facts, v: Levels, a: State, b: State)
    requires Neat(t, v, a) && b.saved == a.saved && b.unsaved == a.unsaved
    ensures Neat(t, v, b)
  {
    hide Good, AllAgree, Antichain, Contents;
  }

  lemma NeatIs(t: Facts, v: Levels, st: State)
    requires Neat(t, v, st)
    ensures Good(t, st.saved, st.unsaved) && Tidy(v, st) && TableOk(st.saved) && TableOk(st.unsaved)
  {}

  lemma NeatAfter(t: Facts, v: Levels, r: nat, a: State, b: State)
    requires Moved(t, a, b) && Stirred(v, r, a, b)
    ensures Neat(t, v, b)
  {}

  /** Every run keeps the saved table an antichain, and touches nothing deeper than its question. */
  lemma {:induction false} RunsTidy(w: World, d: seq<Desc>, t: Facts, v: Levels, p: Problem, st: State, fuel: nat)
    requires Ordered(w, d, t, v) && Fit(v, st.flags) && Neat(t, v, st) && RunMk(w, d, p, st, fuel).Some?
    ensures Stirred(v, v.rank(p, st.flags.l) + 1, st, RunMk(w, d, p, st, fuel).value.st)
    decreases fuel, 4, 0
  {
    hide Recall, Noted, RunReuse, RunSearch, TableOk, Contents, Answerable, Subsumes, IsTrue, Ordered, Neat, Tidy, Good,
         Stirred,
         Agree, Leq, Answers, Has;
    NeatIs(t, v, st);
    FitCanonical(v, st.flags);
    var c := st.(flags := Canonicalized(st.flags));
    var sig, r := w.hash(p, c.nthr), v.rank(p, st.flags.l) + 1;
    NeatStill(t, v, st, c);
    StirredStill(v, r, st, c);
    StirredStill(v, r, st, c.(wisdom := Bogus));
    RecallIs(c.saved, c.unsaved, sig, c.flags);
    var sol := if c.wisdom == IgnoreAll then None else LookedUp(c, sig);
    if sol.Some? {
      OrderedFacts(w, d, t, v);
      RecalledTrue(w, d, t, p, c, sol.value);
    }
    if c.wisdom == Bogus {
    } else if sol.Some? && sol.value.answer.verdict.Solver? {
      ReuseTidy(w, d, t, v, p, sol.value, c, fuel);
      StirredOn(v, r, st, c, RunReuse(w, d, p, sig, sol.value.answer, c, fuel).value.st);
    } else if (sol.Some? && c.wisdom != IgnoreInfeasible) || c.wisdom == Only {
    } else {
      SearchTidy(w, d, t, v, p, c, fuel);
      StirredOn(v, r, st, c, RunSearch(w, d, p, sig, c, fuel).value.st);
    }
  }

  lemma FitCanonical(v: Levels, f: Flags)
    requires Fit(v, f)
    ensures Fit(v, Canonicalized(f))
  {
    hide Leq, Has;
  }

  lemma OrderedFacts(w: World, d: seq<Desc>, t: Facts, v: Levels)
    requires Ordered(w, d, t, v)
    ensures FactsOf(w, d, t) && LevelsOf(w, v) && Easier(t)
  {}

  lemma {:induction false} ReuseTidy(w: World, d: seq<Desc>, t: Facts, v: Levels, p: Problem, e: Entry, st: State,
                                     fuel: nat)
    requires Ordered(w, d, t, v) && Fit(v, st.flags) && Neat(t, v, st)
    requires e.answer.verdict.Solver? && IsTrue(t, e) && e.sig == w.hash(p, st.nthr) && Subsumes(e.answer, st.flags)
    requires e in Contents(st.saved) || (e in Contents(st.unsaved) && !Answerable(Contents(st.saved), e.sig, st.flags))
    requires st.wisdom != Bogus && st.wisdom != IgnoreAll && RunReuse(w, d, p, e.sig, e.answer, st, fuel).Some?
    ensures Stirred(v, v.rank(p, st.flags.l) + 1, st, RunReuse(w, d, p, e.sig, e.answer, st, fuel).value.st)
    decreases fuel, 3, 0
  {
    hide Noted, RunSolver, Contents, Answerable, Subsumes, IsTrue, Onward, FactsOf, LevelsOf, Ordered, Neat, Tidy, Good,
         Stirred,
         Moved, Agree, Leq, Asked;
    OrderedFacts(w, d, t, v);
    NeatIs(t, v, st);
    var s, r, only := e.answer.verdict.index, v.rank(p, st.flags.l), st.(wisdom := Only);
    StirredStill(v, r + 1, st, st.(wisdom := Bogus));
    StirredStill(v, r, st, only);
    NeatStill(t, v, st, only);
    TrueAsked(t, e);
    EntryFits(w, v, p, e, st);
    if s < |d| && d[s].kind == p.kind {
      assert Suits(d, p, s);
      SolverTidy(w, d, t, v, p, s, only, e.answer.flags, fuel);
      SolverRight(w, d, t, p, s, only, e.answer.flags, fuel);
      var b := RunSolver(w, d, p, s, only, e.answer.flags, fuel).value.st;
      StirredOn(v, r, st, only, b);
      NeatAfter(t, v, r, only, b);
      StirredWider(v, r, r + 1, st, b);
      StirredTidy(v, r, st, b);
      StirredStill(v, r + 1, b, b.(wisdom := Bogus));
      StirredOn(v, r + 1, st, b, b.(wisdom := Bogus));
      ReuseRecords(w, d, t, v, p, e, st, b, b.(wisdom := st.wisdom));
    }
  }

  /** A recalled plan has the flags that count, and is as deep as the question. */
  lemma EntryFits(w: World, v: Levels, p: Problem, e: Entry, st: State)
    requires LevelsOf(w, v) && Tidy(v, st) && (e in Contents(st.saved) || e in Contents(st.unsaved))
    requires Agree(v.hard, st.flags)
    requires e.answer.verdict.Solver? && e.sig == w.hash(p, st.nthr) && Subsumes(e.answer, st.flags)
    ensures Agree(v.hard, e.answer.flags) && v.rank(p, e.answer.flags.l) == v.rank(p, st.flags.l)
  {
    hide Contents, Subsumes, Agree, Steps, Antichain;
    AnswerDepth(w, v, e, st.flags);
  }

  lemma ReuseRecords(w: World, d: seq<Desc>, t: Facts, v: Levels, p: Problem, e: Entry, st: State, b: State, back: State)
    requires Ordered(w, d, t, v) && Agree(v.hard, st.flags) && Agree(v.hard, e.answer.flags)
    requires IsTrue(t, e) && e.sig == w.hash(p, st.nthr) && Subsumes(e.answer, st.flags)
    requires v.rank(p, e.answer.flags.l) == v.rank(p, st.flags.l)
    requires e in Contents(st.saved) || !Answerable(Contents(st.saved), e.sig, st.flags)
    requires Stirred(v, v.rank(p, st.flags.l), st, b) && Neat(t, v, b) && back.saved == b.saved
    requires back.unsaved == b.unsaved
    ensures Stirred(v, v.rank(p, st.flags.l) + 1, st, Noted(back, e.sig, e.answer.flags, e.answer.verdict))
  {
    hide Noted, Contents, Answerable, Subsumes, IsTrue, TableOk, AllTrue, Admissible, Agree, FactsOf, Steps, Antichain;
    OrderedFacts(w, d, t, v);
    var r := v.rank(p, st.flags.l);
    assert v.depth(e.sig, st.flags.l) == r && Depth(v, e) == r;
    hide LevelsOf;
    NeatStill(t, v, b, back);
    StirredStill(v, r, b, back);
    StirredOn(v, r, st, b, back);
    StirredWider(v, r, r + 1, st, back);
    if e in Contents(st.saved) {
      StillThere(v, r, e, Contents(st.saved), Contents(back.saved));
      AdmissibleAgain(Contents(back.saved), e);
    } else {
      MissStays(w, v, r, Contents(st.saved), Contents(back.saved), e.sig, st.flags);
      AdmissibleAfterMiss(t, Contents(back.saved), e, st.flags);
    }
    NotedTidy(w, t, v, back, e.sig, e.answer.flags, e.answer.verdict);
    StirredOn(v, r + 1, st, back, Noted(back, e.sig, e.answer.flags, e.answer.verdict));
  }

  lemma StillThere(v: Levels, r: nat, e: Entry, S: set<Entry>, T: set<Entry>)
    requires Same(v, r, S, T) && e in S && Depth(v, e) >= r
    ensures e in T
  {}

  lemma AdmissibleAgain(S: set<Entry>, e: Entry)
    requires Antichain(S) && e in S
    ensures Admissible(S, e)
  {
    hide Subsumes;
  }

  lemma {:induction false} SearchTidy(w: World, d: seq<Desc>, t: Facts, v: Levels, p: Problem, st: State, fuel: nat)
    requires Ordered(w, d, t, v) && Fit(v, st.flags) && Neat(t, v, st)
    requires st.wisdom == Normal ==> !Answerable(Contents(st.saved), w.hash(p, st.nthr), st.flags)
    requires st.wisdom != Bogus && st.wisdom != Only && RunSearch(w, d, p, w.hash(p, st.nthr), st, fuel).Some?
    ensures Stirred(v, v.rank(p, st.flags.l) + 1, st, RunSearch(w, d, p, w.hash(p, st.nthr), st, fuel).value.st)
    decreases fuel, 3, 0
  {
    hide Noted, RunLevels, Contents, Answerable, Onward, FactsOf, LevelsOf, WholeSchedule, Leq, Descends, Ordered, Neat,
         Tidy,
         Good, Stirred, Moved, Agree;
    OrderedFacts(w, d, t, v);
    NeatIs(t, v, st);
    var sig, r := w.hash(p, st.nthr), v.rank(p, st.flags.l);
    var begun, whole := st.(searches := st.searches + 1), WholeSchedule(st.flags.l, st.flags.u);
    NeatStill(t, v, st, begun);
    StirredStill(v, r, st, begun);
    WholeDescends(st.flags.l, st.flags.u);
    WholeInside(whole, st.flags.l, st.flags.u);
    KeepsLevels(w, d, p, whole, begun, fuel);
    LevelsTidy(w, d, t, v, p, whole, begun, fuel);
    LevelsRight(w, d, t, p, whole, begun, fuel);
    var b := RunLevels(w, d, p, whole, begun, fuel).value;
    KeptIs(begun, b.st);
    StirredOn(v, r, st, begun, b.st);
    StirredWider(v, r, r + 1, st, b.st);
    NeatAfter(t, v, r, begun, b.st);
    if b.st.wisdom != Bogus {
      SearchRecords(w, d, t, v, p, st, b);
    }
  }

  lemma SearchRecords(w: World, d: seq<Desc>, t: Facts, v: Levels, p: Problem, st: State, b: Finding)
    requires Ordered(w, d, t, v) && Fit(v, st.flags) && Stirred(v, v.rank(p, st.flags.l), st, b.st) && Neat(t, v, b.st)
    requires st.wisdom == Normal ==> !Answerable(Contents(st.saved), w.hash(p, st.nthr), st.flags)
    requires b.st.wisdom == st.wisdom && st.wisdom != Only
    requires Leq(st.flags.l, b.at) && Leq(b.at, st.flags.u) && (b.pln.None? ==> b.at == st.flags.l)
    requires b.pln.Some? <==> t.can(w.hash(p, st.nthr), b.at)
    ensures var verdict := if b.pln.Some? then Solver(b.slv) else Infeasible;
            Stirred(v, v.rank(p, st.flags.l) + 1, st, Noted(b.st, w.hash(p, st.nthr), Flags(b.at, st.flags.u, 0), verdict))
  {
    hide Noted, Contents, Answerable, Subsumes, TableOk, AllTrue, Admissible, Agree, FactsOf, Steps, Antichain, Leq;
    OrderedFacts(w, d, t, v);
    var sig, r, f := w.hash(p, st.nthr), v.rank(p, st.flags.l), Flags(b.at, st.flags.u, 0);
    var verdict := if b.pln.Some? then Solver(b.slv) else Infeasible;
    var e := Entry(sig, Answer(f, verdict));
    BetweenAgree(v.hard, st.flags, b.at);
    assert v.depth(sig, b.at) == v.depth(sig, st.flags.l) == r;
    hide LevelsOf;
    StirredWider(v, r, r + 1, st, b.st);
    assert IsTrue(t, e);
    if st.wisdom == Normal {
      FoundAnswers(b.at, st.flags, verdict);
      MissStays(w, v, r, Contents(st.saved), Contents(b.st.saved), sig, st.flags);
      AdmissibleAfterMiss(t, Contents(b.st.saved), e, st.flags);
    }
    NotedTidy(w, t, v, b.st, sig, f, verdict);
    StirredOn(v, r + 1, st, b.st, Noted(b.st, sig, f, verdict));
  }

  lemma {:induction false} LevelsTidy(w: World, d: seq<Desc>, t: Facts, v: Levels, p: Problem, levels: seq<Mask>,
                                      st: State,
                                      fuel: nat)
    requires Ordered(w, d, t, v) && Fit(v, st.flags) && Neat(t, v, st)
    requires forall i :: 0 <= i < |levels| ==> Leq(st.flags.l, levels[i]) && Leq(levels[i], st.flags.u)
    requires RunLevels(w, d, p, levels, st, fuel).Some?
    ensures Stirred(v, v.rank(p, st.flags.l), st, RunLevels(w, d, p, levels, st, fuel).value.st)
    decreases fuel, 2, |levels|
  {
    hide RunTries, FactsOf, LevelsOf, Onward, Leq, Ordered, Neat, Tidy, Good, Stirred, Moved, Fit;
    OrderedFacts(w, d, t, v);
    NeatIs(t, v, st);
    var r := v.rank(p, st.flags.l);
    if levels == [] {
      StirredStill(v, r, st, st);
    } else {
      var order := OfKind(d, p.kind, |d|);
      AnyOfKind(w, d, t, p, st.nthr, levels[0]);
      TriesTidy(w, d, t, v, p, levels[0], order, None, 0, st, fuel);
      TriesRight(w, d, t, p, levels[0], order, None, 0, st, fuel);
      KeepsTries(w, d, p, levels[0], order, None, 0, st, fuel);
      var b := RunTries(w, d, p, levels[0], order, None, 0, st, fuel).value;
      KeptIs(st, b.st);
      NeatAfter(t, v, r, st, b.st);
      if b.pln.None? && |levels| > 1 {
        LevelsTidy(w, d, t, v, p, levels[1..], b.st, fuel);
        StirredOn(v, r, st, b.st, RunLevels(w, d, p, levels[1..], b.st, fuel).value.st);
      }
    }
  }

  lemma {:induction false} TriesTidy(w: World, d: seq<Desc>, t: Facts, v: Levels, p: Problem, x: Mask, rest: seq<nat>,
                                     best: Option<Plan>, slv: nat, st: State, fuel: nat)
    requires Ordered(w, d, t, v) && Fit(v, st.flags) && Neat(t, v, st) && Leq(st.flags.l, x) && Leq(x, st.flags.u)
    requires forall s :: s in rest ==> Suits(d, p, s)
    requires RunTries(w, d, p, x, rest, best, slv, st, fuel).Some?
    ensures Stirred(v, v.rank(p, st.flags.l), st, RunTries(w, d, p, x, rest, best, slv, st, fuel).value.st)
    decreases fuel, 1, |rest|
  {
    hide RunSolver, FactsOf, LevelsOf, Onward, Leq, Ordered, Neat, Tidy, Good, Stirred, Moved, Suits, Has, Agree;
    OrderedFacts(w, d, t, v);
    NeatIs(t, v, st);
    var r := v.rank(p, st.flags.l);
    if rest == [] {
      StirredStill(v, r, st, st);
    } else {
      var f := Flags(x, st.flags.u, st.flags.timelimit);
      assert rest[0] in rest;
      LevelFits(w, v, p, st, x);
      SolverTidy(w, d, t, v, p, rest[0], st, f, fuel);
      SolverRight(w, d, t, p, rest[0], st, f, fuel);
      KeepsSolver(w, d, p, rest[0], st, f, fuel);
      var b := RunSolver(w, d, p, rest[0], st, f, fuel).value;
      KeptIs(st, b.st);
      NeatAfter(t, v, r, st, b.st);
      if !(LetsPrune(b.pln) && Has(st.flags.u, ALLOW_PRUNING)) {
        var c, s := if Better(b.pln, best) then b.pln else best, if Better(b.pln, best) then rest[0] else slv;
        TriesTidy(w, d, t, v, p, x, rest[1..], c, s, b.st, fuel);
        StirredOn(v, r, st, b.st, RunTries(w, d, p, x, rest[1..], c, s, b.st, fuel).value.st);
      }
    }
  }

  /** An impatience of the schedule is as deep as the question. */
  lemma LevelFits(w: World, v: Levels, p: Problem, st: State, x: Mask)
    requires LevelsOf(w, v) && Fit(v, st.flags) && Leq(st.flags.l, x) && Leq(x, st.flags.u)
    ensures Fit(v, Flags(x, st.flags.u, st.flags.timelimit)) && v.rank(p, x) == v.rank(p, st.flags.l)
  {
    hide Leq, Steps, SameBits;
    BetweenAgree(v.hard, st.flags, x);
    var sig := w.hash(p, 0);
    assert v.depth(sig, x) == v.depth(sig, st.flags.l);
  }

  lemma {:induction false} SolverTidy(w: World, d: seq<Desc>, t: Facts, v: Levels, p: Problem, s: nat, st: State,
                                      nflags: Flags,
                                      fuel: nat)
    requires Ordered(w, d, t, v) && Neat(t, v, st) && Suits(d, p, s) && Fit(v, nflags)
    requires RunSolver(w, d, p, s, st, nflags, fuel).Some?
    ensures Stirred(v, v.rank(p, nflags.l), st, RunSolver(w, d, p, s, st, nflags, fuel).value.st)
    decreases fuel, 0, fuel + 1
  {
    hide Dialogue, FactsOf, LevelsOf, Leq, Suits, Ordered, Neat, Tidy, Good, Stirred, Moved;
    OrderedFacts(w, d, t, v);
    NeatIs(t, v, st);
    var begun, r := st.(flags := nflags.(timelimit := 0)), v.rank(p, nflags.l);
    NeatStill(t, v, st, begun);
    StirredStill(v, r, st, begun);
    DialogueTidy(w, d, t, v, p, s, begun, [], fuel, fuel);
    var b := Dialogue(w, d, p, s, begun, [], fuel, fuel).value.st;
    var back := b.(flags := st.flags, nthr := st.nthr);
    StirredOn(v, r, st, begun, b);
    StirredTidy(v, r, begun, b);
    StirredStill(v, r, b, back);
    StirredOn(v, r, st, b, back);
  }

  lemma {:induction false} DialogueTidy(w: World, d: seq<Desc>, t: Facts, v: Levels, p: Problem, s: nat, st: State,
                                        answers: seq<Option<Plan>>, steps: nat, fuel: nat)
    requires Ordered(w, d, t, v) && Neat(t, v, st) && Fit(v, st.flags)
    requires Dialogue(w, d, p, s, st, answers, steps, fuel).Some?
    ensures Stirred(v, v.rank(p, st.flags.l), st, Dialogue(w, d, p, s, st, answers, steps, fuel).value.st)
    decreases fuel, 0, steps
  {
    hide RunMk, FactsOf, LevelsOf, Leq, Ordered, Neat, Tidy, Good, Stirred, Moved, Onward, Fit;
    OrderedFacts(w, d, t, v);
    NeatIs(t, v, st);
    var r := v.rank(p, st.flags.l);
    match w.act(s, p, st.flags, st.nthr, answers)
    case Return(_) => StirredStill(v, r, st, st);
    case Ask(sub, n, lSet, uSet, uReset) =>
      var asked := st.(nthr := n).(flags := Changed(st.flags, lSet, uSet, uReset));
      AskFits(w, v, p, s, st, answers);
      NeatStill(t, v, st, asked);
      RunsTidy(w, d, t, v, sub, asked, fuel - 1);
      FitAsked(v, asked.flags);
      NeatIs(t, v, asked);
      RunsRight(w, d, t, sub, asked, fuel - 1);
      var o := RunMk(w, d, sub, asked, fuel - 1).value.st;
      var b := RunMkF(w, d, sub, st.(nthr := n), lSet, uSet, uReset, fuel - 1).value;
      var k := v.rank(sub, asked.flags.l) + 1;
      NeatAfter(t, v, k, asked, o);
      NeatStill(t, v, o, b.st);
      StirredWider(v, k, r, asked, o);
      NeatIs(t, v, o);
      StirredStill(v, r, st, asked);
      StirredStill(v, r, o, b.st);
      StirredOn(v, r, st, asked, o);
      StirredOn(v, r, st, o, b.st);
      KeepsMkF(w, d, sub, st, n, lSet, uSet, uReset, fuel - 1);
      OnwardIs(st, b.st);
      DialogueTidy(w, d, t, v, p, s, b.st, answers + [b.pln], steps - 1, fuel);
      StirredOn(v, r, st, b.st, Dialogue(w, d, p, s, b.st, answers + [b.pln], steps - 1, fuel).value.st);
  }

  lemma FitAsked(v: Levels, f: Flags)
    requires Fit(v, f)
    ensures Asked(f)
  {}

  lemma AskFits(w: World, v: Levels, p: Problem, s: nat, st: State, answers: seq<Option<Plan>>)
    requires LevelsOf(w, v) && Fit(v, st.flags) && w.act(s, p, st.flags, st.nthr, answers).Ask?
    ensures var a := w.act(s, p, st.flags, st.nthr, answers);
            var f := Changed(st.flags, a.lSet, a.uSet, a.uReset);
            Fit(v, f) && v.rank(a.sub, f.l) < v.rank(p, st.flags.l)
  {
    hide Agree, Asked, Changed;
    var a := w.act(s, p, st.flags, st.nthr, answers);
    assert Steps(a, st.flags, v, v.rank(p, st.flags.l));
    ChangedAsked(st.flags, a.lSet, a.uSet, a.uReset);
    ChangedAgree(v.hard, st.flags, a.lSet, a.uSet, a.uReset);
  }
}
