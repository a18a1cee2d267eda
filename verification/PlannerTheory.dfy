/** kernel/planner.c: how the outcome of a run of the planner came about. */
module PlannerTheory {
  import opened Subsumption
  import opened HashTable
  import opened Options
  import opened Registry
  import opened SearchTrace
  import opened PlannerRules
  import opened PlannerRuns

  // ---- What a solver returned ----

  /** The thread count after the solver has asked and been answered so often, if it does ask that often. */
  ghost function Spoken(w: World, p: Problem, f: Flags, threads: nat, s: nat, answers: seq<Option<Plan>>): Option<nat> {
    if answers == [] then Some(threads)
    else
      var before := answers[..|answers| - 1];
      var now := Spoken(w, p, f, threads, s, before);
      if now.None? then None
      else match w.act(s, p, f, now.value, before)
        case Ask(_, t, _, _, _) => Some(t)
        case Return(_) => None
  }

  /** Having been answered so, the solver returns the plan. */
  ghost predicate Ends(w: World, p: Problem, f: Flags, threads: nat, s: nat, answers: seq<Option<Plan>>,
    pln: Option<Plan>) {
    var now := Spoken(w, p, f, threads, s, answers);
    now.Some? && w.act(s, p, f, now.value, answers) == Return(pln)
  }

  /** The solver was run on the problem with just these flags, no time limit and these threads. */
  ghost predicate Returned(w: World, p: Problem, f: Flags, threads: nat, s: nat, pln: Option<Plan>) {
    exists answers :: Ends(w, p, f.(timelimit := 0), threads, s, answers, pln)
  }

  /** A solver that returns at once has nothing more to say. */
  lemma {:induction false} SilentAfterReturn(w: World, p: Problem, f: Flags, threads: nat, s: nat,
    answers: seq<Option<Plan>>)
    requires w.act(s, p, f, threads, []).Return? && answers != []
    ensures Spoken(w, p, f, threads, s, answers).None?
  {
    var before := answers[..|answers| - 1];
    if before != [] { SilentAfterReturn(w, p, f, threads, s, before); }
  }

  lemma ReturnedAtOnce(w: World, p: Problem, f: Flags, threads: nat, s: nat, pln: Option<Plan>)
    requires w.act(s, p, f.(timelimit := 0), threads, []).Return? && Returned(w, p, f, threads, s, pln)
    ensures pln == w.act(s, p, f.(timelimit := 0), threads, []).plan
  {
    var answers :| Ends(w, p, f.(timelimit := 0), threads, s, answers, pln);
    if answers != [] { SilentAfterReturn(w, p, f.(timelimit := 0), threads, s, answers); }
  }

  lemma OneMoreSaid(w: World, p: Problem, f: Flags, threads: nat, s: nat, answers: seq<Option<Plan>>, now: nat,
    r: Option<Plan>)
    requires Spoken(w, p, f, threads, s, answers) == Some(now) && w.act(s, p, f, now, answers).Ask?
    ensures Spoken(w, p, f, threads, s, answers + [r]) == Some(w.act(s, p, f, now, answers).threads)
  {
    assert (answers + [r])[..|answers|] == answers;
  }

  /** The outcome of a dialogue is what the solver returns at its end. */
  lemma {:induction false} DialogueEnds(w: World, d: seq<Desc>, p: Problem, s: nat, st: State, threads: nat,
                                        answers: seq<Option<Plan>>, steps: nat,
                                          fuel: nat) returns (all: seq<Option<Plan>>)
    requires Dialogue(w, d, p, s, st, answers, steps, fuel).Some?
    requires Spoken(w, p, st.flags, threads, s, answers) == Some(st.nthr)
    ensures Ends(w, p, st.flags, threads, s, all, Dialogue(w, d, p, s, st, answers, steps, fuel).value.pln)
    decreases steps
  {
    hide RunMkF, Spoken;
    match w.act(s, p, st.flags, st.nthr, answers)
    case Return(_) => all := answers;
    case Ask(sub, t, lSet, uSet, uReset) =>
      var r := RunMkF(w, d, sub, st.(nthr := t), lSet, uSet, uReset, fuel - 1).value;
      KeepsMkF(w, d, sub, st, t, lSet, uSet, uReset, fuel - 1);
      OneMoreSaid(w, p, st.flags, threads, s, answers, st.nthr, r.pln);
      all := DialogueEnds(w, d, p, s, r.st, threads, answers + [r.pln], steps - 1, fuel);
  }

  lemma SolverReturned(w: World, d: seq<Desc>, p: Problem, s: nat, st: State, nflags: Flags, fuel: nat)
    requires RunSolver(w, d, p, s, st, nflags, fuel).Some?
    ensures Returned(w, p, nflags, st.nthr, s, RunSolver(w, d, p, s, st, nflags, fuel).value.pln)
  {
    hide Dialogue;
    var all := DialogueEnds(w, d, p, s, st.(flags := nflags.(timelimit := 0)), st.nthr, [], fuel, fuel);
  }

  // ---- What a search tried ----

  ghost predicate RoundReturned(w: World, p: Problem, u: Mask, threads: nat, r: Round) {
    forall i :: 0 <= i < |r.tries| ==> Returned(w, p, Flags(r.l, u, 0), threads, r.tries[i].solver, r.tries[i].result)
  }

  /** The rest of a search at one impatience, after the solvers in r0. */
  lemma {:induction false} TriesRound(w: World, d: seq<Desc>, p: Problem, l: Mask, order: seq<nat>,
    best: Option<Plan>, slv: nat,
                                      st: State, fuel: nat, r0: Round) returns (r: Round)
    requires r0.l == l && InOrder(r0.tries, order) && Chosen(r0.tries, best, slv) && RoundReturned(w, p, st.flags.u,
      st.nthr, r0)
    requires Has(st.flags.u, ALLOW_PRUNING) ==> NonePrunes(r0.tries, |r0.tries|)
    requires RunTries(w, d, p, l, order[|r0.tries|..], best, slv, st, fuel).Some?
    ensures var f := RunTries(w, d, p, l, order[|r0.tries|..], best, slv, st, fuel).value;
            r.l == l && RoundRun(r, order, Has(st.flags.u, ALLOW_PRUNING), f.pln, f.slv)
    ensures RoundReturned(w, p, st.flags.u, st.nthr, r)
    decreases |order| - |r0.tries|
  {
    hide RunSolver, Chosen, Returned, Has, NonePrunes, LetsPrune;
    var rest := order[|r0.tries|..];
    if rest == [] {
      r := r0;
      AllTried(r0.tries, order, Has(st.flags.u, ALLOW_PRUNING));
    } else {
      var f := Flags(l, st.flags.u, st.flags.timelimit);
      var out := RunSolver(w, d, p, rest[0], st, f, fuel).value;
      SolverReturned(w, d, p, rest[0], st, f, fuel);
      LimitDropped(w, p, f, st.nthr, rest[0], out.pln);
      KeepsSolver(w, d, p, rest[0], st, f, fuel);
      var t := Try(rest[0], out.pln);
      var r1 := Round(l, r0.tries + [t]);
      ChosenNext(r0.tries, best, slv, t);
      InOrderNext(r0.tries, t, order);
      StopsNext(r0.tries, t, order, Has(st.flags.u, ALLOW_PRUNING));
      if LetsPrune(out.pln) && Has(st.flags.u, ALLOW_PRUNING) {
        r := r1;
      } else {
        assert rest[1..] == order[|r1.tries|..];
        r := TriesRound(w, d, p, l, order, if Better(out.pln, best) then out.pln else best,
                        if Better(out.pln, best) then rest[0] else slv, out.st, fuel, r1);
      }
    }
  }

  /** Solvers run without a time limit. */
  lemma LimitDropped(w: World, p: Problem, f: Flags, threads: nat, s: nat, pln: Option<Plan>)
    requires Returned(w, p, f, threads, s, pln)
    ensures Returned(w, p, f.(timelimit := 0), threads, s, pln)
  {}

  /** The rounds are those of a finished search for the problem, with this outcome. */
  ghost predicate Sought(w: World, d: seq<Desc>, p: Problem, f: Flags, threads: nat, rounds: seq<Round>, slv: nat,
    pln: Option<Plan>) {
    && Searched(rounds, OfKind(d, p.kind, |d|), f.l, f.u, Has(f.u, ALLOW_PRUNING), pln, slv)
    && Levels(rounds) <= WholeSchedule(f.l, f.u)
    && (pln.None? ==> Levels(rounds) == WholeSchedule(f.l, f.u))
    && forall j :: 0 <= j < |rounds| ==> RoundReturned(w, p, f.u, threads, rounds[j])
  }

  /** The first k impatiences of the schedule were tried in vain. */
  ghost predicate InVain(w: World, d: seq<Desc>, p: Problem, f: Flags, threads: nat, rounds: seq<Round>, slv: nat,
    k: nat) {
    && |rounds| == k <= |WholeSchedule(f.l, f.u)| && Levels(rounds) == WholeSchedule(f.l, f.u)[..k]
    && (rounds != [] ==> Tried(rounds, OfKind(d, p.kind, |d|), f.l, f.u, Has(f.u, ALLOW_PRUNING), None, slv)
                         && rounds[k - 1].l == WholeSchedule(f.l, f.u)[k - 1])
    && forall j :: 0 <= j < |rounds| ==> RoundReturned(w, p, f.u, threads, rounds[j])
  }

  lemma {:induction false} LevelsSought(w: World, d: seq<Desc>, p: Problem, k: nat, st: State, fuel: nat,
    rounds0: seq<Round>, slv0: nat)
      returns (rounds: seq<Round>)
    requires Leq(st.flags.l, st.flags.u) && InVain(w, d, p, st.flags, st.nthr, rounds0, slv0, k)
    requires k < |WholeSchedule(st.flags.l, st.flags.u)|
    requires RunLevels(w, d, p, WholeSchedule(st.flags.l, st.flags.u)[k..], st, fuel).Some?
    ensures var r := RunLevels(w, d, p, WholeSchedule(st.flags.l, st.flags.u)[k..], st, fuel).value;
            rounds != [] && rounds[|rounds| - 1].l == r.at && Sought(w, d, p, st.flags, st.nthr, rounds, r.slv, r.pln)
    decreases |WholeSchedule(st.flags.l, st.flags.u)| - k
  {
    hide RunTries, RunLevels, Leq, WholeSchedule, Levels, RoundReturned, Tried, RoundRun, Has;
    var f, whole, order := st.flags, WholeSchedule(st.flags.l, st.flags.u), OfKind(d, p.kind, |d|);
    LevelNext(w, d, p, whole, k, st, fuel);
    WholeDescends(f.l, f.u);
    var r := RunTries(w, d, p, whole[k], order, None, 0, st, fuel).value;
    KeepsTries(w, d, p, whole[k], order, None, 0, st, fuel);
    var round := FreshRound(w, d, p, whole[k], order, st, fuel);
    var next := rounds0 + [round];
    LevelsNext(rounds0, round);
    assert whole[..k] + [whole[k]] == whole[..k + 1];
    if rounds0 == [] {
      assert next == [round];
      FirstRound(round, order, f.l, f.u, Has(f.u, ALLOW_PRUNING), r.pln, r.slv);
    } else {
      NextRound(rounds0, round, order, f.l, f.u, Has(f.u, ALLOW_PRUNING), slv0, r.pln, r.slv);
    }
    if r.pln.Some? || k + 1 == |whole| {
      rounds := next;
    } else {
      rounds := LevelsSought(w, d, p, k + 1, r.st, fuel, next, r.slv);
    }
  }

  lemma FreshRound(w: World, d: seq<Desc>, p: Problem, l: Mask, order: seq<nat>, st: State,
    fuel: nat) returns (r: Round)
    requires RunTries(w, d, p, l, order, None, 0, st, fuel).Some?
    ensures var f := RunTries(w, d, p, l, order, None, 0, st, fuel).value;
            r.l == l && RoundRun(r, order, Has(st.flags.u, ALLOW_PRUNING), f.pln, f.slv) && f.at == l
    ensures RoundReturned(w, p, st.flags.u, st.nthr, r)
  {
    hide RunTries;
    NothingTried(order);
    assert NonePrunes([], 0);
    assert order[0..] == order;
    KeepsTries(w, d, p, l, order, None, 0, st, fuel);
    r := TriesRound(w, d, p, l, order, None, 0, st, fuel, Round(l, []));
  }

  /** Where a round stops, and with which plan: the solvers of the kind are tried in order; the round ends before the list
      does exactly if u has the flag 0x20000 and a plan lets the search prune, and then at the first such plan; the plan
      chosen is the cheapest, and the earliest of those, up to there. */
  lemma RoundStops(w: World, d: seq<Desc>, p: Problem, l: Mask, st: State, fuel: nat) returns (tries: seq<Try>)
    requires RunTries(w, d, p, l, OfKind(d, p.kind, |d|), None, 0, st, fuel).Some?
    ensures var order, allowed := OfKind(d, p.kind, |d|), st.flags.u & 0x20000 != 0;
            && |tries| <= |order|
            && (forall i :: 0 <= i < |tries| ==> tries[i].solver == order[i])
            && (forall i :: 0 <= i < |tries| ==> Returned(w, p, Flags(l, st.flags.u, 0), st.nthr, order[i], tries[i].result))
            && (|tries| < |order| <==>
                allowed && exists i ::
                  0 <= i < |tries| && i + 1 < |order| && tries[i].result.Some? && tries[i].result.value.prune)
            && (allowed ==> forall i :: 0 <= i < |tries| - 1 && tries[i].result.Some? ==> !tries[i].result.value.prune)
    ensures var f := RunTries(w, d, p, l, OfKind(d, p.kind, |d|), None, 0, st, fuel).value;
            && f.at == l
            && (f.pln.None? <==> forall i :: 0 <= i < |tries| ==> tries[i].result.None?)
            && (f.pln.Some? ==> exists j ::
                 0 <= j < |tries| && tries[j] == Try(f.slv, f.pln)
                 && (forall i :: 0 <= i < j && tries[i].result.Some? ==> tries[i].result.value.cost > f.pln.value.cost)
                 && (forall i :: j < i < |tries| && tries[i].result.Some? ==> tries[i].result.value.cost >= f.pln.value.cost))
  {
    hide RunTries, Returned;
    var order := OfKind(d, p.kind, |d|);
    var r := FreshRound(w, d, p, l, order, st, fuel);
    tries := r.tries;
    PruningBit(st.flags.u);
    assert Stops(tries, order, Has(st.flags.u, ALLOW_PRUNING));
  }

  lemma PruningBit(u: Mask)
    ensures Has(u, ALLOW_PRUNING) <==> u & 0x20000 != 0
  {}

  /** The impatiences of a search, in bits: u first; then what is left of it without the flag 0x10, then without 0x800 too,
      then without 0x8, then without 0x10000, but always with what l demands; then l. They shrink, none is left out before
      the last, the search gives up only at l, and before l no other flag is dropped. */
  lemma SoughtInOrder(w: World, d: seq<Desc>, p: Problem, f: Flags, threads: nat, rounds: seq<Round>, slv: nat, pln: Option<Plan>)
    requires Asked(f) && Sought(w, d, p, f, threads, rounds, slv, pln)
    ensures rounds != [] && rounds[0].l == f.u && (pln.None? ==> rounds[|rounds| - 1].l == f.l)
    ensures forall i :: 0 < i < |rounds| ==> Leq(rounds[i].l, rounds[i - 1].l) && rounds[i].l != rounds[i - 1].l
    ensures forall i :: 0 <= i < |rounds| && rounds[i].l != f.l ==>
              OneLevel(f.l, f.u, rounds[i].l) && InTurn(f.l, f.u, rounds[i].l)
    ensures forall x :: OneLevel(f.l, f.u, x) && Leq(rounds[|rounds| - 1].l, x) ==>
              exists i :: 0 <= i < |rounds| && rounds[i].l == x
  {
    hide WholeSchedule, Levels, RoundReturned, RoundRun, Failed, Has, OneLevel, InTurn, Leq;
    var whole, n := WholeSchedule(f.l, f.u), |rounds|;
    WholeDescends(f.l, f.u);
    LevelsAt(rounds, 0);
    forall i | 0 <= i < n
      ensures rounds[i].l == whole[i]
      ensures rounds[i].l != f.l ==> OneLevel(f.l, f.u, rounds[i].l) && InTurn(f.l, f.u, rounds[i].l)
    {
      LevelsAt(rounds, i);
      WholeBits(f.l, f.u, whole[i]);
      if rounds[i].l != f.l { OneByOne(f.l, f.u, rounds[i].l); }
    }
    forall x | OneLevel(f.l, f.u, x) && Leq(rounds[n - 1].l, x) ensures exists i :: 0 <= i < n && rounds[i].l == x {
      WholeBits(f.l, f.u, x);
      NoneSkipped(whole, f.l, f.u, n, x);
      var i :| 0 <= i < n && whole[..n][i] == x;
      assert rounds[i].l == x;
    }
  }

  // ---- How an outcome came about ----

  /** The wisdom turned out bogus, a stored answer was used, or a search was made. */
  datatype How = Refused | Recalled(entry: Entry) | Fresh(rounds: seq<Round>, slv: nat)

  ghost predicate Knows(st: State, sig: Sig, q: Flags) {
    Answerable(Contents(st.saved), sig, q) || Answerable(Contents(st.unsaved), sig, q)
  }

  /** A stored plan answers the question. */
  ghost predicate KnowsPlan(st: State, sig: Sig, q: Flags) {
    exists e :: (e in Contents(st.saved) || e in Contents(st.unsaved)) && Answers(e, sig, q) && e.answer.verdict.Solver?
  }

  ghost predicate Remembered(st: State, sig: Sig, f: Flags, verdict: Verdict) {
    Entry(sig, Answer(f, verdict)) in Contents(if st.bless then st.saved else st.unsaved)
  }

  /** The outcome is what its explanation says. */
  ghost predicate Explains(w: World, d: seq<Desc>, how: How, p: Problem, f: Flags, threads: nat, pln: Option<Plan>) {
    match how
    case Refused => pln.None?
    case Fresh(rounds, slv) => Sought(w, d, p, f, threads, rounds, slv, pln)
    case Recalled(e) =>
      && Answers(e, w.hash(p, threads), f)
      && if e.answer.verdict.Solver? then
           && pln.Some? && Returned(w, p, e.answer.flags, threads, e.answer.verdict.index, pln)
           && e.answer.verdict.index < |d| && d[e.answer.verdict.index].kind == p.kind
         else
           pln.None?
  }

  /** The outcome is in the table the planner records in: a plan used again, a plan found, or that there is none. */
  ghost predicate Recorded(how: How, st: State, sig: Sig, f: Flags, pln: Option<Plan>) {
    match how
    case Refused => true
    case Recalled(e) => e.answer.verdict.Solver? ==> Remembered(st, sig, e.answer.flags, e.answer.verdict)
    case Fresh(rounds, slv) =>
      rounds != [] &&
      Remembered(st, sig, Flags(rounds[|rounds| - 1].l, f.u, 0), if pln.Some? then Solver(slv) else Infeasible)
  }

  /** A call of mkplan from state a that ended in state b with this plan. */
  ghost predicate Planned(w: World, d: seq<Desc>, p: Problem, a: State, b: State, pln: Option<Plan>, how: How) {
    var f, sig := Canonicalized(a.flags), w.hash(p, a.nthr);
    // the fields and the protocol of the wisdom states
    && Kept(a.(flags := f), b) && (b.wisdom == Bogus ==> pln.None?)
    // the outcome is explained, and recorded in the states that record
    && Explains(w, d, how, p, f, a.nthr, pln) && (how.Refused? <==> b.wisdom == Bogus)
    && (how.Recalled? ==> how.entry in Contents(if Answerable(Contents(a.saved), sig, f) then a.saved else a.unsaved))
    && (b.wisdom == Normal || b.wisdom == Only ==> Recorded(how, b, sig, f, pln) && Knows(b, sig, f))
    // a question answered before is not searched again, and one not answered is
    && (a.wisdom == Normal && Knows(a, sig, f) ==> b.searches == a.searches)
    && ((a.wisdom == Normal || a.wisdom == IgnoreInfeasible) && !Knows(a, sig, f) ==> a.searches < b.searches)
    && (a.wisdom == IgnoreAll ==> a.searches < b.searches && !how.Recalled?)
    // a record of infeasibility is no answer in the state that ignores it
    && (a.wisdom == IgnoreInfeasible ==>
          && (how.Recalled? ==> how.entry.answer.verdict.Solver?)
          && (!KnowsPlan(a, sig, f) ==> a.searches < b.searches && !how.Recalled?))
    && (a.wisdom == Only && !Knows(a, sig, f) ==> b.wisdom == Bogus)
  }

  lemma RecallIs(saved: seq<Slot>, unsaved: seq<Slot>, sig: Sig, q: Flags)
    requires TableOk(saved) && TableOk(unsaved)
    ensures var r := Recall(saved, unsaved, sig, q);
            && (r.None? <==> !Answerable(Contents(saved), sig, q) && !Answerable(Contents(unsaved), sig, q))
            && (r.Some? ==> Answers(r.value, sig, q) && r.value in Contents(if Answerable(Contents(saved), sig,
              q) then saved else unsaved))
  {
    hide Scan, Contents, Answerable, Answers;
    ScanIsBest(saved, sig, q);
    ScanIsBest(unsaved, sig, q);
  }

  lemma NotedIs(st: State, sig: Sig, f: Flags, verdict: Verdict)
    requires TableOk(st.saved) && TableOk(st.unsaved) && (st.wisdom == Normal || st.wisdom == Only)
    ensures Remembered(Noted(st, sig, f, verdict), sig, f, verdict)
  {
    hide TableOk, Inserted, Contents;
    var e := Entry(sig, Answer(f, verdict));
    InsertedIs(if st.bless then st.saved else st.unsaved, e);
    assert e in Updated(Contents(if st.bless then st.saved else st.unsaved), e);
  }

  /** What is remembered is known. */
  lemma RememberedIsKnown(st: State, sig: Sig, f: Flags, verdict: Verdict, q: Flags)
    requires Remembered(st, sig, f, verdict) && Subsumes(Answer(f, verdict), q)
    ensures Knows(st, sig, q)
  {
    hide Contents, Subsumes;
    var e := Entry(sig, Answer(f, verdict));
    assert Answers(e, sig, q);
  }

  lemma ReuseExplained(w: World, d: seq<Desc>, p: Problem, sig: Sig, e: Entry, st: State, fuel: nat) returns (how: How)
    requires e.answer.verdict.Solver? && Answers(e, sig, st.flags) && sig == w.hash(p, st.nthr)
    requires st.wisdom != Bogus && st.wisdom != IgnoreAll && TableOk(st.saved) && TableOk(st.unsaved)
    requires RunReuse(w, d, p, sig, e.answer, st, fuel).Some?
    ensures var o := RunReuse(w, d, p, sig, e.answer, st, fuel).value;
            && Explains(w, d, how, p, st.flags, st.nthr, o.pln) && (how.Refused? <==> o.st.wisdom == Bogus)
            && (how.Recalled? ==> how.entry == e) && !how.Fresh?
            && (o.st.wisdom == Normal || o.st.wisdom == Only ==>
                Recorded(how, o.st, sig, st.flags, o.pln) && Knows(o.st, sig, st.flags))
  {
    hide Noted, RunSolver, TableOk, Remembered, Knows, Returned, Subsumes;
    KeepsReuse(w, d, p, sig, e.answer, st, fuel);
    var o := RunReuse(w, d, p, sig, e.answer, st, fuel).value;
    how := if o.st.wisdom == Bogus then Refused else Recalled(e);
    var s := e.answer.verdict.index;
    if s < |d| && d[s].kind == p.kind && o.st.wisdom != Bogus {
      var only := st.(wisdom := Only);
      SolverReturned(w, d, p, s, only, e.answer.flags, fuel);
      KeepsSolver(w, d, p, s, only, e.answer.flags, fuel);
      var r := RunSolver(w, d, p, s, only, e.answer.flags, fuel).value;
      if st.wisdom == Normal || st.wisdom == Only {
        NotedIs(r.st.(wisdom := st.wisdom), sig, e.answer.flags, e.answer.verdict);
        RememberedIsKnown(o.st, sig, e.answer.flags, e.answer.verdict, st.flags);
      }
    }
  }

  lemma SearchExplained(w: World, d: seq<Desc>, p: Problem, sig: Sig, st: State, fuel: nat) returns (how: How)
    requires Asked(st.flags) && sig == w.hash(p, st.nthr)
    requires st.wisdom != Bogus && st.wisdom != Only && TableOk(st.saved) && TableOk(st.unsaved)
    requires RunSearch(w, d, p, sig, st, fuel).Some?
    ensures var o := RunSearch(w, d, p, sig, st, fuel).value;
            && Explains(w, d, how, p, st.flags, st.nthr, o.pln) && (how.Refused? <==> o.st.wisdom == Bogus)
              && !how.Recalled?
            && (o.st.wisdom == Normal || o.st.wisdom == Only ==>
                Recorded(how, o.st, sig, st.flags, o.pln) && Knows(o.st, sig, st.flags))
  {
    hide Noted, RunLevels, TableOk, Remembered, Knows, Sought, Subsumes, WholeSchedule, Levels;
    var whole := WholeSchedule(st.flags.l, st.flags.u);
    var rounds := SearchSought(w, d, p, st.(searches := st.searches + 1), fuel);
    var r := RunLevels(w, d, p, whole, st.(searches := st.searches + 1), fuel).value;
    how := if r.st.wisdom == Bogus then Refused else Fresh(rounds, r.slv);
    NotedKeeps(r.st, sig, Flags(r.at, st.flags.u, 0), if r.pln.Some? then Solver(r.slv) else Infeasible);
    if r.st.wisdom == Normal || r.st.wisdom == Only {
      SearchKnown(r, sig, st.flags);
    }
  }

  lemma SearchSought(w: World, d: seq<Desc>, p: Problem, st: State, fuel: nat) returns (rounds: seq<Round>)
    requires Asked(st.flags) && RunLevels(w, d, p, WholeSchedule(st.flags.l, st.flags.u), st, fuel).Some?
    ensures var r := RunLevels(w, d, p, WholeSchedule(st.flags.l, st.flags.u), st, fuel).value;
            && rounds != [] && rounds[|rounds| - 1].l == r.at && Sought(w, d, p, st.flags, st.nthr, rounds, r.slv,
              r.pln)
            && Kept(st, r.st) && Leq(st.flags.l, r.at) && Leq(r.at, st.flags.u) && (r.pln.None? ==> r.at == st.flags.l)
  {
    hide RunLevels, Sought, WholeSchedule, Levels, Onward;
    var whole := WholeSchedule(st.flags.l, st.flags.u);
    WholeDescends(st.flags.l, st.flags.u);
    KeepsLevels(w, d, p, whole, st, fuel);
    NoLevels(0, 0);
    LevelZero(0, 0);
    assert whole[0..] == whole && whole[..0] == [];
    rounds := LevelsSought(w, d, p, 0, st, fuel, [], 0);
  }

  lemma SearchKnown(r: Finding, sig: Sig, f: Flags)
    requires TableOk(r.st.saved) && TableOk(r.st.unsaved) && (r.st.wisdom == Normal || r.st.wisdom == Only)
    requires Leq(f.l, r.at) && Leq(r.at, f.u) && (r.pln.None? ==> r.at == f.l)
    ensures var verdict := if r.pln.Some? then Solver(r.slv) else Infeasible;
            var st := Noted(r.st, sig, Flags(r.at, f.u, 0), verdict);
            Remembered(st, sig, Flags(r.at, f.u, 0), verdict) && Knows(st, sig, f)
  {
    hide Noted, TableOk, Remembered, Knows, Subsumes;
    var verdict := if r.pln.Some? then Solver(r.slv) else Infeasible;
    NotedIs(r.st, sig, Flags(r.at, f.u, 0), verdict);
    FoundAnswers(r.at, f, verdict);
    RememberedIsKnown(Noted(r.st, sig, Flags(r.at, f.u, 0), verdict), sig, Flags(r.at, f.u, 0), verdict, f);
  }

  /** What a search records answers the question asked. */
  lemma FoundAnswers(at: Mask, q: Flags, verdict: Verdict)
    requires Leq(q.l, at) && Leq(at, q.u) && (verdict.Infeasible? ==> at == q.l)
    ensures Subsumes(Answer(Flags(at, q.u, 0), verdict), q)
  {
    LeqOrder(q.u, q.u, q.u);
    LeqOrder(at, at, at);
  }

  /** Every call of mkplan that ends is as planned. */
  lemma MkPlanned(w: World, d: seq<Desc>, p: Problem, st: State, fuel: nat) returns (how: How)
    requires Asked(st.flags) && TableOk(st.saved) && TableOk(st.unsaved) && RunMk(w, d, p, st, fuel).Some?
    ensures var o := RunMk(w, d, p, st, fuel).value; Planned(w, d, p, st, o.st, o.pln, how)
  {
    hide Recall, TableOk, RunReuse, RunSearch, Explains, Recorded, Answerable, Contents, Answers;
    var c := st.(flags := Canonicalized(st.flags));
    var sig := w.hash(p, c.nthr);
    KeepsMk(w, d, p, st, fuel);
    RecallIs(c.saved, c.unsaved, sig, c.flags);
    var sol := if c.wisdom == IgnoreAll then None else LookedUp(c, sig);
    if c.wisdom == Bogus {
      how := Refused;
      NothingExplained(w, d, p, c);
    } else if sol.Some? && sol.value.answer.verdict.Solver? {
      assert Answers(sol.value, sig, c.flags) && sol.value.sig == sig by { AnswersSig(sol.value, sig, c.flags); }
      assert KnowsPlan(c, sig, c.flags);
      KeepsReuse(w, d, p, sig, sol.value.answer, c, fuel);
      how := ReuseExplained(w, d, p, sig, sol.value, c, fuel);
    } else if sol.Some? && c.wisdom != IgnoreInfeasible {
      how := Recalled(sol.value);
      RecalledInfeasible(w, d, p, c, sol.value);
    } else if c.wisdom == Only {
      how := Refused;
      NothingExplained(w, d, p, c);
    } else {
      KeepsSearch(w, d, p, sig, c, fuel);
      how := SearchExplained(w, d, p, sig, c, fuel);
    }
  }

  lemma AnswersSig(e: Entry, sig: Sig, q: Flags)
    requires Answers(e, sig, q)
    ensures e.sig == sig
  {}

  lemma NothingExplained(w: World, d: seq<Desc>, p: Problem, st: State)
    ensures Explains(w, d, Refused, p, st.flags, st.nthr, None)
  {}

  lemma RecalledInfeasible(w: World, d: seq<Desc>, p: Problem, st: State, e: Entry)
    requires Answers(e, w.hash(p, st.nthr), st.flags) && e.answer.verdict.Infeasible?
    ensures Explains(w, d, Recalled(e), p, st.flags, st.nthr, None) && Recorded(Recalled(e), st, w.hash(p, st.nthr),
      st.flags, None)
  {}

  /** A planner that ignores records of infeasibility searches unless a stored plan answers the question; and whatever is
      recorded as infeasible, without a search there is a plan or the wisdom is bogus. */
  lemma IgnoringSearches(w: World, d: seq<Desc>, p: Problem, st: State, fuel: nat)
    requires Asked(st.flags) && TableOk(st.saved) && TableOk(st.unsaved) && RunMk(w, d, p, st, fuel).Some?
    requires st.wisdom == IgnoreInfeasible
    ensures var o := RunMk(w, d, p, st, fuel).value;
            && (!KnowsPlan(st, w.hash(p, st.nthr), Canonicalized(st.flags)) ==> st.searches < o.st.searches)
            && (o.st.searches == st.searches ==> o.pln.Some? || o.st.wisdom == Bogus)
  {
    hide TableOk, RunReuse, RunSearch, KnowsPlan, Recall;
    var how := MkPlanned(w, d, p, st, fuel);
    var c := st.(flags := Canonicalized(st.flags));
    var sig := w.hash(p, c.nthr);
    var sol := LookedUp(c, sig);
    if sol.Some? && sol.value.answer.verdict.Solver? {
      KeepsReuse(w, d, p, sig, sol.value.answer, c, fuel);
    } else {
      KeepsSearch(w, d, p, sig, c, fuel);
    }
  }

  // ---- Leaf searches ----

  /** The solver returns at once, with a plan exactly when it applies. */
  ghost predicate Applies(w: World, p: Problem, u: Mask, threads: nat, s: nat, x: Mask, can: bool) {
    var a := w.act(s, p, Flags(x, u, 0), threads, []);
    a.Return? && (a.plan.Some? <==> can)
  }

  /** Where the solvers ask nothing of the planner, and being less impatient never leaves none of them applicable, a
      search for flags l to u finds a plan exactly when some solver of the kind applies at l. */
  lemma {:induction false} LeafSearchIsComplete(w: World, d: seq<Desc>, p: Problem, f: Flags, threads: nat,
    rounds: seq<Round>, slv: nat,
                             pln: Option<Plan>, can: (nat, Mask) -> bool)
    requires Sought(w, d, p, f, threads, rounds, slv, pln)
    requires Antitone(can, OfKind(d, p.kind, |d|)) && forall s, x :: Applies(w, p, f.u, threads, s, x, can(s, x))
    ensures pln.None? <==> forall s :: s in OfKind(d, p.kind, |d|) ==> !can(s, f.l)
  {
    hide Searched, Antitone, Leq;
    forall j | 0 <= j < |rounds| ensures Faithful(rounds[j], can) {
      var r := rounds[j];
      assert RoundReturned(w, p, f.u, threads, r);
      forall i | 0 <= i < |r.tries| ensures r.tries[i].result.Some? <==> can(r.tries[i].solver, r.l) {
        assert Applies(w, p, f.u, threads, r.tries[i].solver, r.l, can(r.tries[i].solver, r.l));
        ReturnedAtOnce(w, p, Flags(r.l, f.u, 0), threads, r.tries[i].solver, r.tries[i].result);
      }
    }
    SearchIsComplete(rounds, OfKind(d, p.kind, |d|), f.l, f.u, Has(f.u, ALLOW_PRUNING), pln, slv, can);
  }
}
