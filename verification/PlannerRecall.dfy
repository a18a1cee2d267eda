/** kernel/planner.c: a plan recalled successfully was backed. Planning from wisdom alone stores nothing but what is stored
    already, so whatever it could not have answered at its end it could not have answered at its beginning. */
module PlannerRecall {
  import opened Subsumption
  import opened HashTable
  import opened Options
  import opened Registry
  import opened SearchTrace
  import opened PlannerRules
  import opened PlannerRuns
  import opened PlannerTheory
  import opened PlannerTruth
  import opened PlannerBacked
  import opened PlannerFirm

  lemma NotedWithin(st: State, sig: Sig, f: Flags, v: Verdict, K: set<Entry>)
    requires TableOk(st.saved) && TableOk(st.unsaved) && Store(Together, st) <= K && Entry(sig, Answer(f, v)) in K
    ensures Store(Together, Noted(st, sig, f, v)) <= K
  {
    hide TableOk, Contents, Noted, Displaced;
    if st.wisdom == Normal || st.wisdom == Only {
      NotedContents(st, sig, f, v);
    } else {
      NotedNothing(st, sig, f, v);
    }
  }

  /** Planning from wisdom alone keeps within what is stored. */
  lemma {:induction false} OnlyWithin(w: World, d: seq<Desc>, p: Problem, st: State, fuel: nat, K: set<Entry>)
    requires TableOk(st.saved) && TableOk(st.unsaved) && Store(Together, st) <= K
    requires (st.wisdom == Only || st.wisdom == Bogus) && RunMk(w, d, p, st, fuel).Some?
    ensures var b := RunMk(w, d, p, st, fuel).value.st;
            Store(Together, b) <= K && (b.wisdom != Bogus ==> Knows(st, w.hash(p, st.nthr), Canonicalized(st.flags)))
    decreases fuel, 4, 0
  {
    hide Recall, RunReuse, TableOk, Contents, Answers, Subsumes, Has;
    var c := st.(flags := Canonicalized(st.flags));
    var sig := w.hash(p, c.nthr);
    RecallIs(c.saved, c.unsaved, sig, c.flags);
    var sol := LookedUp(c, sig);
    if c.wisdom == Only && sol.Some? && sol.value.answer.verdict.Solver? {
      AnswersSig(sol.value, sig, c.flags);
      ReuseWithin(w, d, p, sol.value, c, fuel, K);
    }
  }

  lemma {:induction false} ReuseWithin(w: World, d: seq<Desc>, p: Problem, e: Entry, st: State, fuel: nat,
    K: set<Entry>)
    requires TableOk(st.saved) && TableOk(st.unsaved) && Store(Together, st) <= K && e in K && e.answer.verdict.Solver?
    requires st.wisdom == Only && RunReuse(w, d, p, e.sig, e.answer, st, fuel).Some?
    ensures Store(Together, RunReuse(w, d, p, e.sig, e.answer, st, fuel).value.st) <= K
    decreases fuel, 3, 0
  {
    hide RunSolver, TableOk, Noted, Store;
    var s, only := e.answer.verdict.index, st.(wisdom := Only);
    SameStore(Together, st, st.(wisdom := Bogus));
    SameStore(Together, st, only);
    if Suits(d, p, s) {
      KeepsSolver(w, d, p, s, only, e.answer.flags, fuel);
      SolverWithin(w, d, p, s, only, e.answer.flags, fuel, K);
      var b := RunSolver(w, d, p, s, only, e.answer.flags, fuel).value.st;
      SameStore(Together, b, b.(wisdom := Bogus));
      SameStore(Together, b, b.(wisdom := st.wisdom));
      NotedWithin(b.(wisdom := st.wisdom), e.sig, e.answer.flags, e.answer.verdict, K);
    }
  }

  lemma {:induction false} SolverWithin(w: World, d: seq<Desc>, p: Problem, s: nat, st: State, nflags: Flags,
    fuel: nat, K: set<Entry>)
    requires TableOk(st.saved) && TableOk(st.unsaved) && Store(Together, st) <= K
    requires (st.wisdom == Only || st.wisdom == Bogus) && RunSolver(w, d, p, s, st, nflags, fuel).Some?
    ensures Store(Together, RunSolver(w, d, p, s, st, nflags, fuel).value.st) <= K
    decreases fuel, 0, fuel + 1
  {
    hide Dialogue, TableOk, Store;
    var begun := st.(flags := nflags.(timelimit := 0));
    SameStore(Together, st, begun);
    DialogueWithin(w, d, p, s, begun, [], fuel, fuel, K);
    var r := Dialogue(w, d, p, s, begun, [], fuel, fuel).value;
    SameStore(Together, r.st, r.st.(flags := st.flags, nthr := st.nthr));
  }

  lemma {:induction false} DialogueWithin(w: World, d: seq<Desc>, p: Problem, s: nat, st: State,
    answers: seq<Option<Plan>>,
                                          steps: nat, fuel: nat, K: set<Entry>)
    requires TableOk(st.saved) && TableOk(st.unsaved) && Store(Together, st) <= K
    requires (st.wisdom == Only || st.wisdom == Bogus) && Dialogue(w, d, p, s, st, answers, steps, fuel).Some?
    ensures Store(Together, Dialogue(w, d, p, s, st, answers, steps, fuel).value.st) <= K
    decreases fuel, 0, steps
  {
    hide RunMk, TableOk, Store, Knows;
    match w.act(s, p, st.flags, st.nthr, answers)
    case Return(_) =>
    case Ask(sub, n, lSet, uSet, uReset) =>
      var asked := st.(nthr := n).(flags := Changed(st.flags, lSet, uSet, uReset));
      SameStore(Together, st, asked);
      OnlyWithin(w, d, sub, asked, fuel - 1, K);
      KeepsMkF(w, d, sub, st, n, lSet, uSet, uReset, fuel - 1);
      var r := RunMkF(w, d, sub, st.(nthr := n), lSet, uSet, uReset, fuel - 1).value;
      SameStore(Together, RunMk(w, d, sub, asked, fuel - 1).value.st, r.st);
      DialogueWithin(w, d, p, s, r.st, answers + [r.pln], steps - 1, fuel, K);
  }

  /** A dialogue from wisdom alone that did not make it bogus, with every question answered by what was stored. */
  lemma {:induction false} DialogueAnswered(w: World, d: seq<Desc>, t: Facts, p: Problem, s: nat, st: State,
    threads: nat,
                                            answers: seq<Option<Plan>>, steps: nat, fuel: nat, K: set<Entry>)
      returns (all: seq<Option<Plan>>)
    requires FactsOf(w, d, t) && Good(t, st.saved, st.unsaved) && Asked(st.flags) && st.flags.timelimit == 0
    requires Store(Together, st) <= K && st.wisdom == Only && Spoken(w, p, st.flags, threads, s,
      answers) == Some(st.nthr)
    requires Informed(w, t, p, st.flags, threads, s, answers) && Noticed(w, p, st.flags, threads, s, answers, K, true)
    requires Dialogue(w, d, p, s, st, answers, steps, fuel).Some? && Dialogue(w, d, p, s, st, answers, steps,
      fuel).value.st.wisdom != Bogus
    ensures Informed(w, t, p, st.flags, threads, s, all) && Noticed(w, p, st.flags, threads, s, all, K, true)
    ensures Ends(w, p, st.flags, threads, s, all, Dialogue(w, d, p, s, st, answers, steps, fuel).value.pln)
    decreases steps
  {
    hide RunMk, FactsOf, Spoken, Informed, Noticed, Onward, Store, Moved;
    match w.act(s, p, st.flags, st.nthr, answers)
    case Return(_) => all := answers;
    case Ask(sub, n, lSet, uSet, uReset) =>
      var r := OneAnswered(w, d, t, p, s, st, threads, answers, steps, fuel, K);
      all := DialogueAnswered(w, d, t, p, s, r.st, threads, answers + [r.pln], steps - 1, fuel, K);
  }

  lemma OneAnswered(w: World, d: seq<Desc>, t: Facts, p: Problem, s: nat, st: State, threads: nat,
    answers: seq<Option<Plan>>,
                    steps: nat, fuel: nat, K: set<Entry>) returns (r: PlannerRuns.Outcome)
    requires FactsOf(w, d, t) && Good(t, st.saved, st.unsaved) && Asked(st.flags) && st.flags.timelimit == 0
      && steps > 0 && fuel > 0
    requires Store(Together, st) <= K && st.wisdom == Only && Spoken(w, p, st.flags, threads, s,
      answers) == Some(st.nthr)
    requires Informed(w, t, p, st.flags, threads, s, answers) && Noticed(w, p, st.flags, threads, s, answers, K, true)
    requires w.act(s, p, st.flags, st.nthr, answers).Ask? && Dialogue(w, d, p, s, st, answers, steps, fuel).Some?
    requires Dialogue(w, d, p, s, st, answers, steps, fuel).value.st.wisdom != Bogus
    ensures Dialogue(w, d, p, s, st, answers, steps, fuel) == Dialogue(w, d, p, s, r.st, answers + [r.pln],
      steps - 1, fuel)
    ensures r.st.flags == st.flags && r.st.wisdom == Only && Store(Together, r.st) <= K && Good(t, r.st.saved,
      r.st.unsaved)
    ensures Spoken(w, p, st.flags, threads, s, answers + [r.pln]) == Some(r.st.nthr)
    ensures Informed(w, t, p, st.flags, threads, s, answers + [r.pln]) && Noticed(w, p, st.flags, threads, s,
      answers + [r.pln], K, true)
  {
    hide RunMk, FactsOf, Spoken, Informed, Noticed, TableOk, Contents, AllTrue, Antichain, Answerable, Has, Without;
    var a := w.act(s, p, st.flags, st.nthr, answers);
    var f := Changed(st.flags, a.lSet, a.uSet, a.uReset);
    var asked := st.(nthr := a.threads).(flags := f);
    r := RunMkF(w, d, a.sub, st.(nthr := a.threads), a.lSet, a.uSet, a.uReset, fuel - 1).value;
    ChangedAsked(st.flags, a.lSet, a.uSet, a.uReset);
    CanonicalAlready(f);
    GoodTables(t, st.saved, st.unsaved);
    KeepsMkF(w, d, a.sub, st, a.threads, a.lSet, a.uSet, a.uReset, fuel - 1);
    KeepsDialogue(w, d, p, s, r.st, answers + [r.pln], steps - 1, fuel);
    OnlyWithin(w, d, a.sub, asked, fuel - 1, K);
    RunsRight(w, d, t, a.sub, asked, fuel - 1);
    OneMoreSaid(w, p, st.flags, threads, s, answers, st.nthr, r.pln);
    OneMoreInformed(w, t, p, st.flags, threads, s, answers, st.nthr, r.pln);
    KnowsTogether(st, w.hash(a.sub, a.threads), f);
    AnswerableWithin(Store(Together, st), K, w.hash(a.sub, a.threads), f);
    NoticedNext(w, p, st.flags, threads, s, answers, st.nthr, r.pln, K, true);
  }

  lemma AnswerableWithin(S: set<Entry>, K: set<Entry>, sig: Sig, q: Flags)
    requires S <= K && Answerable(S, sig, q)
    ensures Answerable(K, sig, q)
  {
    hide Subsumes;
    var x :| x in S && Answers(x, sig, q);
    assert x in K;
  }

  /** A call that recalls a plan and does not make the wisdom bogus had that plan backed. */
  lemma RecalledIsBacked(w: World, d: seq<Desc>, t: Facts, p: Problem, e: Entry, st: State, fuel: nat)
    requires FactsOf(w, d, t) && Settled(w) && Good(t, st.saved, st.unsaved) && IsTrue(t, e)
    requires e.answer.verdict.Solver? && e.sig == w.hash(p, st.nthr) && st.wisdom != Bogus && st.wisdom != IgnoreAll
    requires RunReuse(w, d, p, e.sig, e.answer, st, fuel).Some? && RunReuse(w, d, p, e.sig, e.answer, st,
      fuel).value.st.wisdom != Bogus
    ensures EntryBacked(w, d, t, e, Store(Together, st))
  {
    hide FactsOf, Settled, Noted, Dialogue, Good, IsTrue, Ready, Store, Informed, Noticed, Spoken;
    var s, f, only := e.answer.verdict.index, e.answer.flags, st.(wisdom := Only);
    TrueAsked(t, e);
    var r := RunSolver(w, d, p, s, only, f, fuel).value;
    KeepsReuse(w, d, p, e.sig, e.answer, st, fuel);
    SolverRight(w, d, t, p, s, only, f, fuel);
    var K, begun := Store(Together, st), only.(flags := f);
    SameStore(Together, st, begun);
    NothingSaid(w, t, p, f, st.nthr, s, K);
    var all := DialogueAnswered(w, d, t, p, s, begun, st.nthr, [], fuel, fuel, K);
    EndedKnown(w, t, p, f, st.nthr, s, all, r.pln, K, true);
    assert Ready(w, d, t, p, f, st.nthr, s, K) by { ReadyIs(w, d, t, p, f, st.nthr, s, K); }
    ReadyIsBacked(w, d, t, p, f, st.nthr, s, K);
  }

  lemma NothingSaid(w: World, t: Facts, p: Problem, f: Flags, n: nat, s: nat, K: set<Entry>)
    ensures Informed(w, t, p, f, n, s, []) && Noticed(w, p, f, n, s, [], K, true) && Spoken(w, p, f, n, s,
      []) == Some(n)
  {}

  lemma ReadyIs(w: World, d: seq<Desc>, t: Facts, p: Problem, f: Flags, n: nat, s: nat, K: set<Entry>)
    requires Suits(d, p, s) && t.does(s, w.hash(p, n), f.l) && QuestionsKnown(w, t, p, f, n, s, K)
    ensures Ready(w, d, t, p, f, n, s, K)
  {}

  /** So a call that recalls a plan that is not backed makes the wisdom bogus, and has no plan. */
  lemma UnbackedIsBogus(w: World, d: seq<Desc>, t: Facts, p: Problem, e: Entry, st: State, fuel: nat)
    requires FactsOf(w, d, t) && Settled(w) && Good(t, st.saved, st.unsaved) && st.wisdom != Bogus
      && st.wisdom != IgnoreAll
    requires LookedUp(st.(flags := Canonicalized(st.flags)), w.hash(p, st.nthr)) == Some(e) && e.answer.verdict.Solver?
    requires !EntryBacked(w, d, t, e, Store(Together, st)) && RunMk(w, d, p, st, fuel).Some?
    ensures var o := RunMk(w, d, p, st, fuel).value; o.st.wisdom == Bogus && o.pln.None?
  {
    hide FactsOf, Settled, TableOk, AllTrue, Antichain, Contents, Recall, RunReuse, EntryBacked, Answerable, Answers,
         IsTrue, Has;
    var c := st.(flags := Canonicalized(st.flags));
    RecallIs(c.saved, c.unsaved, w.hash(p, c.nthr), c.flags);
    RecalledTrue(w, d, t, p, c, e);
    SameStore(Together, st, c);
    KeepsReuse(w, d, p, e.sig, e.answer, c, fuel);
    if RunReuse(w, d, p, e.sig, e.answer, c, fuel).value.st.wisdom != Bogus {
      RecalledIsBacked(w, d, t, p, e, c, fuel);
    }
  }
}
