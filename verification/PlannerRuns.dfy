/** kernel/planner.c: what a run of the planner does, as a function of its state and of the solvers. A run that
    exhausts its fuel has no outcome; more fuel never changes an outcome. */
module PlannerRuns {
  import opened Subsumption
  import opened HashTable
  import opened Options
  import opened Registry
  import opened SearchTrace
  import opened PlannerRules

  /** The planner between two steps: its fields, how many searches it has started, and the slots of its two tables. */
  datatype State = State(flags: Flags, nthr: nat, bless: bool, wisdom: WisdomState, searches: nat,
                         saved: seq<Slot>, unsaved: seq<Slot>)

  datatype Outcome = Outcome(pln: Option<Plan>, st: State)

  /** What a search found, and at which impatience. */
  datatype Finding = Finding(pln: Option<Plan>, slv: nat, at: Mask, st: State)

  /** hlookup: the saved table first. */
  ghost function Recall(saved: seq<Slot>, unsaved: seq<Slot>, sig: Sig, q: Flags): Option<Entry> {
    var r := Scan(saved, sig, q);
    if r.Some? then r else Scan(unsaved, sig, q)
  }

  ghost function LookedUp(st: State, sig: Sig): Option<Entry> {
    Recall(st.saved, st.unsaved, sig, st.flags)
  }

  /** hinsert, in the states that record. */
  ghost function Noted(st: State, sig: Sig, f: Flags, verdict: Verdict): State {
    var e := Entry(sig, Answer(f, verdict));
    if st.wisdom != Normal && st.wisdom != Only then st
    else if st.bless then st.(saved := Inserted(st.saved, e))
    else st.(unsaved := Inserted(st.unsaved, e))
  }

  /** mkplan */
  ghost function RunMk(w: World, d: seq<Desc>, p: Problem, st0: State, fuel: nat): Option<Outcome>
    decreases fuel, 4, 0
  {
    if fuel == 0 then None
    else
      var st := st0.(flags := Canonicalized(st0.flags));
      var sig := w.hash(p, st.nthr);
      var sol := if st.wisdom == IgnoreAll then None else LookedUp(st, sig);
      if st.wisdom == Bogus then Some(Outcome(None, st))
      else if sol.Some? && sol.value.answer.verdict.Solver? then RunReuse(w, d, p, sig, sol.value.answer, st, fuel)
      else if sol.Some? && st.wisdom != IgnoreInfeasible then Some(Outcome(None, st))
      else if st.wisdom == Only then Some(Outcome(None, st.(wisdom := Bogus)))
      else RunSearch(w, d, p, sig, st, fuel)
  }

  /** mkplan_f_d */
  ghost function RunMkF(w: World, d: seq<Desc>, p: Problem, st: State, lSet: Mask, uSet: Mask, uReset: Mask, fuel: nat)
    : Option<Outcome>
    decreases fuel, 5, 0
  {
    var r := RunMk(w, d, p, st.(flags := Changed(st.flags, lSet, uSet, uReset)), fuel);
    if r.None? then None else Some(r.value.(st := r.value.st.(flags := st.flags)))
  }

  /** From acceptable wisdom. */
  ghost function RunReuse(w: World, d: seq<Desc>, p: Problem, sig: Sig, sol: Answer, st: State,
    fuel: nat): Option<Outcome>
    requires sol.verdict.Solver?
    decreases fuel, 3, 0
  {
    var s := sol.verdict.index;
    if s >= |d| || d[s].kind != p.kind then Some(Outcome(None, st.(wisdom := Bogus)))
    else
      var r := RunSolver(w, d, p, s, st.(wisdom := Only), sol.flags, fuel);
      if r.None? then None
      else if r.value.st.wisdom == Bogus || r.value.pln.None? then Some(Outcome(None, r.value.st.(wisdom := Bogus)))
      else Some(Outcome(r.value.pln, Noted(r.value.st.(wisdom := st.wisdom), sig, sol.flags, sol.verdict)))
  }

  /** By searching. */
  ghost function RunSearch(w: World, d: seq<Desc>, p: Problem, sig: Sig, st: State, fuel: nat): Option<Outcome>
    decreases fuel, 3, 0
  {
    var r := RunLevels(w, d, p, WholeSchedule(st.flags.l, st.flags.u), st.(searches := st.searches + 1), fuel);
    if r.None? then None
    else if r.value.st.wisdom == Bogus then Some(Outcome(None, r.value.st))
    else
      var verdict := if r.value.pln.Some? then Solver(r.value.slv) else Infeasible;
      Some(Outcome(r.value.pln, Noted(r.value.st, sig, Flags(r.value.at, st.flags.u, 0), verdict)))
  }

  /** Search at one impatience after another, until a plan is found. */
  ghost function RunLevels(w: World, d: seq<Desc>, p: Problem, levels: seq<Mask>, st: State, fuel: nat): Option<Finding>
    decreases fuel, 2, |levels|
  {
    if levels == [] then Some(Finding(None, 0, st.flags.l, st))
    else
      var r := RunTries(w, d, p, levels[0], OfKind(d, p.kind, |d|), None, 0, st, fuel);
      if r.None? || r.value.pln.Some? || |levels| == 1 then r
      else RunLevels(w, d, p, levels[1..], r.value.st, fuel)
  }

  /** Try the solvers that remain, keeping the cheapest plan. */
  ghost function RunTries(w: World, d: seq<Desc>, p: Problem, l: Mask, rest: seq<nat>, best: Option<Plan>, slv: nat,
                          st: State, fuel: nat): Option<Finding>
    decreases fuel, 1, |rest|
  {
    if rest == [] then Some(Finding(best, slv, l, st))
    else
      var r := RunSolver(w, d, p, rest[0], st, Flags(l, st.flags.u, st.flags.timelimit), fuel);
      if r.None? then None
      else
        var b, s := if Better(r.value.pln, best) then r.value.pln else best, if Better(r.value.pln,
          best) then rest[0] else slv;
        if LetsPrune(r.value.pln) && Has(st.flags.u, ALLOW_PRUNING) then Some(Finding(b, s, l, r.value.st))
        else RunTries(w, d, p, l, rest[1..], b, s, r.value.st, fuel)
  }

  /** invoke_solver */
  ghost function RunSolver(w: World, d: seq<Desc>, p: Problem, s: nat, st: State, nflags: Flags,
    fuel: nat): Option<Outcome>
    decreases fuel, 0, fuel + 1
  {
    var r := Dialogue(w, d, p, s, st.(flags := nflags.(timelimit := 0)), [], fuel, fuel);
    if r.None? then None else Some(r.value.(st := r.value.st.(flags := st.flags, nthr := st.nthr)))
  }

  /** A solver asks and is answered until it returns. */
  ghost function Dialogue(w: World, d: seq<Desc>, p: Problem, s: nat, st: State, answers: seq<Option<Plan>>,
    steps: nat, fuel: nat)
    : Option<Outcome>
    decreases fuel, 0, steps
  {
    if steps == 0 || fuel == 0 then None
    else match w.act(s, p, st.flags, st.nthr, answers)
      case Return(r) => Some(Outcome(r, st))
      case Ask(sub, threads, lSet, uSet, uReset) =>
        var r := RunMkF(w, d, sub, st.(nthr := threads), lSet, uSet, uReset, fuel - 1);
        if r.None? then None
        else Dialogue(w, d, p, s, r.value.st, answers + [r.value.pln], steps - 1, fuel)
  }

  /** One impatience of a list, and then the others. */
  lemma LevelNext(w: World, d: seq<Desc>, p: Problem, levels: seq<Mask>, k: nat, st: State, fuel: nat)
    requires k < |levels|
    ensures var r, all := RunTries(w, d, p, levels[k], OfKind(d, p.kind, |d|), None, 0, st, fuel),
                          RunLevels(w, d, p, levels[k..], st, fuel);
            all == if r.None? || r.value.pln.Some? || k + 1 == |levels| then r
                   else RunLevels(w, d, p, levels[k + 1..], r.value.st, fuel)
  {
    hide RunTries;
    assert levels[k..][1..] == levels[k + 1..];
  }

  /** One solver of a list, and then the others. */
  lemma TriesNext(w: World, d: seq<Desc>, p: Problem, l: Mask, order: seq<nat>, k: nat, best: Option<Plan>, slv: nat,
                  st: State, fuel: nat)
    requires k < |order|
    ensures var r, all := RunSolver(w, d, p, order[k], st, Flags(l, st.flags.u, st.flags.timelimit), fuel),
                          RunTries(w, d, p, l, order[k..], best, slv, st, fuel);
            if r.None? then all.None?
            else
              var b, s := if Better(r.value.pln, best) then r.value.pln else best,
                          if Better(r.value.pln, best) then order[k] else slv;
              all == if LetsPrune(r.value.pln) && Has(st.flags.u, ALLOW_PRUNING) then Some(Finding(b, s, l, r.value.st))
                     else RunTries(w, d, p, l, order[k + 1..], b, s, r.value.st, fuel)
  {
    hide RunSolver;
    assert order[k..][1..] == order[k + 1..];
  }

  lemma TriesEnd(w: World, d: seq<Desc>, p: Problem, l: Mask, order: seq<nat>, best: Option<Plan>, slv: nat,
    st: State, fuel: nat)
    ensures RunTries(w, d, p, l, order[|order|..], best, slv, st, fuel) == Some(Finding(best, slv, l, st))
  {}

  /** One turn of a dialogue. */
  lemma DialogueNext(w: World, d: seq<Desc>, p: Problem, s: nat, st: State, answers: seq<Option<Plan>>, steps: nat,
    fuel: nat)
    requires 0 < steps && 0 < fuel
    ensures var a, all := w.act(s, p, st.flags, st.nthr, answers), Dialogue(w, d, p, s, st, answers, steps, fuel);
            match a
            case Return(r) => all == Some(Outcome(r, st))
            case Ask(sub, threads, lSet, uSet, uReset) =>
              var r := RunMkF(w, d, sub, st.(nthr := threads), lSet, uSet, uReset, fuel - 1);
              all == if r.None? then None else Dialogue(w, d, p, s, r.value.st, answers + [r.value.pln], steps - 1,
                fuel)
  {
    hide RunMkF;
  }

  lemma OutOfSteps(w: World, d: seq<Desc>, p: Problem, s: nat, st: State, answers: seq<Option<Plan>>, fuel: nat)
    ensures Dialogue(w, d, p, s, st, answers, 0, fuel) == None
  {}

  // ---- What every step keeps ----

  /** The exit wisdom state is the entry state or bogus, which is never left; the states only and bogus never search,
      bogus and ignore-all never record; only the table chosen by the blessing changes, and it stays a table. */
  ghost predicate Onward(a: State, b: State) {
    && b.flags == a.flags && b.bless == a.bless && (b.wisdom == a.wisdom || b.wisdom == Bogus)
    && b.searches >= a.searches && (a.wisdom == Only || a.wisdom == Bogus ==> b.searches == a.searches)
    && (a.wisdom == Bogus || a.wisdom == IgnoreAll || !a.bless ==> b.saved == a.saved)
    && (a.wisdom == Bogus || a.wisdom == IgnoreAll || a.bless ==> b.unsaved == a.unsaved)
    && (TableOk(a.saved) ==> TableOk(b.saved)) && (TableOk(a.unsaved) ==> TableOk(b.unsaved))
  }

  /** And the thread count comes back. */
  ghost predicate Kept(a: State, b: State) {
    Onward(a, b) && b.nthr == a.nthr
  }

  lemma OnwardOn(a: State, b: State, c: State)
    requires Onward(a, b) && Onward(b, c)
    ensures Onward(a, c)
  {
    hide TableOk;
  }

  lemma NotedKeeps(st: State, sig: Sig, f: Flags, verdict: Verdict)
    ensures var n := Noted(st, sig, f, verdict); Kept(st, n) && n.wisdom == st.wisdom && n.searches == st.searches
  {
    hide TableOk, Inserted;
    if TableOk(st.saved) { InsertedIs(st.saved, Entry(sig, Answer(f, verdict))); }
    if TableOk(st.unsaved) { InsertedIs(st.unsaved, Entry(sig, Answer(f, verdict))); }
  }

  lemma {:induction false} KeepsMk(w: World, d: seq<Desc>, p: Problem, st: State, fuel: nat)
    requires RunMk(w, d, p, st, fuel).Some?
    ensures var o := RunMk(w, d, p, st, fuel).value;
            Kept(st.(flags := Canonicalized(st.flags)), o.st) && (o.st.wisdom == Bogus ==> o.pln.None?)
    decreases fuel, 4, 0
  {
    hide LookedUp, Noted, TableOk, RunReuse, RunSearch;
    var c := st.(flags := Canonicalized(st.flags));
    var sig := w.hash(p, c.nthr);
    var sol := if c.wisdom == IgnoreAll then None else LookedUp(c, sig);
    if c.wisdom == Bogus {
    } else if sol.Some? && sol.value.answer.verdict.Solver? {
      KeepsReuse(w, d, p, sig, sol.value.answer, c, fuel);
    } else if (sol.Some? && c.wisdom != IgnoreInfeasible) || c.wisdom == Only {
    } else {
      KeepsSearch(w, d, p, sig, c, fuel);
    }
  }

  /** For a planner whose u has the flag 0x2, the estimator's, a time limit makes no difference, and is dropped; for any other
      it is kept. */
  lemma EstimatorsHaveNoLimit(w: World, d: seq<Desc>, p: Problem, st: State, fuel: nat)
    ensures st.flags.u & 0x2 != 0 ==> RunMk(w, d, p, st, fuel) == RunMk(w, d, p, st.(flags := st.flags.(timelimit := 0)), fuel)
    ensures var r := RunMk(w, d, p, st, fuel);
            r.Some? ==> r.value.st.flags == if st.flags.u & 0x2 != 0 then st.flags.(timelimit := 0) else st.flags
  {
    if RunMk(w, d, p, st, fuel).Some? { KeepsMk(w, d, p, st, fuel); }
  }

  /** From acceptable wisdom nothing is searched, and unless the wisdom was bogus there is a plan. */
  lemma {:induction false} KeepsReuse(w: World, d: seq<Desc>, p: Problem, sig: Sig, sol: Answer, st: State, fuel: nat)
    requires sol.verdict.Solver? && RunReuse(w, d, p, sig, sol, st, fuel).Some? && st.wisdom != Bogus
      && st.wisdom != IgnoreAll
    ensures var o := RunReuse(w, d, p, sig, sol, st, fuel).value;
            Kept(st, o.st) && o.st.searches == st.searches && (o.st.wisdom == Bogus <==> o.pln.None?)
    decreases fuel, 3, 0
  {
    hide Noted, RunSolver, TableOk;
    var s := sol.verdict.index;
    if s < |d| && d[s].kind == p.kind {
      KeepsSolver(w, d, p, s, st.(wisdom := Only), sol.flags, fuel);
      var r := RunSolver(w, d, p, s, st.(wisdom := Only), sol.flags, fuel).value;
      NotedKeeps(r.st.(wisdom := st.wisdom), sig, sol.flags, sol.verdict);
    }
  }

  lemma {:induction false} KeepsSearch(w: World, d: seq<Desc>, p: Problem, sig: Sig, st: State, fuel: nat)
    requires RunSearch(w, d, p, sig, st, fuel).Some? && st.wisdom != Bogus && st.wisdom != Only
    ensures var o := RunSearch(w, d, p, sig, st, fuel).value;
            Kept(st, o.st) && st.searches < o.st.searches && (o.st.wisdom == Bogus ==> o.pln.None?)
    decreases fuel, 3, 0
  {
    hide Noted, RunLevels, TableOk, WholeSchedule;
    var begun := st.(searches := st.searches + 1);
    var whole := WholeSchedule(st.flags.l, st.flags.u);
    KeepsLevels(w, d, p, whole, begun, fuel);
    var r := RunLevels(w, d, p, whole, begun, fuel).value;
    NotedKeeps(r.st, sig, Flags(r.at, st.flags.u, 0), if r.pln.Some? then Solver(r.slv) else Infeasible);
  }

  lemma {:induction false} KeepsLevels(w: World, d: seq<Desc>, p: Problem, levels: seq<Mask>, st: State, fuel: nat)
    requires RunLevels(w, d, p, levels, st, fuel).Some?
    ensures var r := RunLevels(w, d, p, levels, st, fuel).value; Kept(st, r.st)
    ensures var r := RunLevels(w, d, p, levels, st, fuel).value;
            (levels != [] ==> r.at in levels && (r.pln.None? ==> r.at == levels[|levels| - 1])) && (r.pln.Some? ==>
              r.slv < |d| && d[r.slv].kind == p.kind)
    decreases fuel, 2, |levels|
  {
    hide RunTries, Onward;
    if levels == [] {
      OnwardStill(st);
    } else {
      var order := OfKind(d, p.kind, |d|);
      KeepsTries(w, d, p, levels[0], order, None, 0, st, fuel);
      var r := RunTries(w, d, p, levels[0], order, None, 0, st, fuel).value;
      if r.pln.Some? {
        OfKindIsExact(d, p.kind, |d|);
      } else if |levels| > 1 {
        KeepsLevels(w, d, p, levels[1..], r.st, fuel);
        OnwardOn(st, r.st, RunLevels(w, d, p, levels[1..], r.st, fuel).value.st);
      }
    }
  }

  lemma OnwardStill(a: State)
    ensures Onward(a, a)
  {
    hide TableOk;
  }

  lemma {:induction false} KeepsTries(w: World, d: seq<Desc>, p: Problem, l: Mask, rest: seq<nat>,
    best: Option<Plan>, slv: nat,
                                      st: State, fuel: nat)
    requires RunTries(w, d, p, l, rest, best, slv, st, fuel).Some?
    ensures var r := RunTries(w, d, p, l, rest, best, slv, st, fuel).value;
            Kept(st, r.st) && r.at == l && (r.pln.Some? ==> r.slv in rest || (best.Some? && r.slv == slv))
    decreases fuel, 1, |rest|
  {
    hide RunSolver, Onward;
    if rest == [] {
      OnwardStill(st);
    } else {
      var f := Flags(l, st.flags.u, st.flags.timelimit);
      KeepsSolver(w, d, p, rest[0], st, f, fuel);
      var r := RunSolver(w, d, p, rest[0], st, f, fuel).value;
      if !(LetsPrune(r.pln) && Has(st.flags.u, ALLOW_PRUNING)) {
        var b, s := if Better(r.pln, best) then r.pln else best, if Better(r.pln, best) then rest[0] else slv;
        KeepsTries(w, d, p, l, rest[1..], b, s, r.st, fuel);
        OnwardOn(st, r.st, RunTries(w, d, p, l, rest[1..], b, s, r.st, fuel).value.st);
      }
    }
  }

  lemma {:induction false} KeepsSolver(w: World, d: seq<Desc>, p: Problem, s: nat, st: State, nflags: Flags, fuel: nat)
    requires RunSolver(w, d, p, s, st, nflags, fuel).Some?
    ensures Kept(st, RunSolver(w, d, p, s, st, nflags, fuel).value.st)
    decreases fuel, 0, fuel + 1
  {
    hide Dialogue, TableOk;
    KeepsDialogue(w, d, p, s, st.(flags := nflags.(timelimit := 0)), [], fuel, fuel);
  }

  lemma {:induction false} KeepsDialogue(w: World, d: seq<Desc>, p: Problem, s: nat, st: State,
    answers: seq<Option<Plan>>,
                                         steps: nat, fuel: nat)
    requires Dialogue(w, d, p, s, st, answers, steps, fuel).Some?
    ensures Onward(st, Dialogue(w, d, p, s, st, answers, steps, fuel).value.st)
    decreases fuel, 0, steps
  {
    hide RunMkF, Onward;
    match w.act(s, p, st.flags, st.nthr, answers)
    case Return(_) => OnwardStill(st);
    case Ask(sub, threads, lSet, uSet, uReset) =>
      KeepsMkF(w, d, sub, st, threads, lSet, uSet, uReset, fuel - 1);
      var r := RunMkF(w, d, sub, st.(nthr := threads), lSet, uSet, uReset, fuel - 1).value;
      KeepsDialogue(w, d, p, s, r.st, answers + [r.pln], steps - 1, fuel);
      OnwardOn(st, r.st, Dialogue(w, d, p, s, r.st, answers + [r.pln], steps - 1, fuel).value.st);
  }

  lemma {:induction false} KeepsMkF(w: World, d: seq<Desc>, p: Problem, st: State, threads: nat, lSet: Mask, uSet: Mask,
                                    uReset: Mask, fuel: nat)
    requires RunMkF(w, d, p, st.(nthr := threads), lSet, uSet, uReset, fuel).Some?
    ensures var o := RunMkF(w, d, p, st.(nthr := threads), lSet, uSet, uReset, fuel).value;
            Onward(st, o.st) && o.st.nthr == threads && (o.st.wisdom == Bogus ==> o.pln.None?)
    decreases fuel, 5, 0
  {
    hide RunMk, TableOk, Canonicalized, Changed;
    KeepsMk(w, d, p, st.(nthr := threads).(flags := Changed(st.flags, lSet, uSet, uReset)), fuel);
  }

  // ---- Without wisdom ----

  /** A planner that ignores all wisdom never takes it for bogus, whatever its solvers do. */
  lemma {:induction false} NoWisdomMk(w: World, d: seq<Desc>, p: Problem, st: State, fuel: nat)
    requires st.wisdom == IgnoreAll && RunMk(w, d, p, st, fuel).Some?
    ensures RunMk(w, d, p, st, fuel).value.st.wisdom == IgnoreAll
    decreases fuel, 4, 0
  {
    hide Noted, RunLevels, WholeSchedule, LookedUp;
    var c := st.(flags := Canonicalized(st.flags));
    var begun, whole := c.(searches := c.searches + 1), WholeSchedule(c.flags.l, c.flags.u);
    NoWisdomLevels(w, d, p, whole, begun, fuel);
    var r := RunLevels(w, d, p, whole, begun, fuel).value;
    NotedKeeps(r.st, w.hash(p, c.nthr), Flags(r.at, c.flags.u, 0), if r.pln.Some? then Solver(r.slv) else Infeasible);
  }

  lemma {:induction false} NoWisdomLevels(w: World, d: seq<Desc>, p: Problem, levels: seq<Mask>, st: State, fuel: nat)
    requires st.wisdom == IgnoreAll && RunLevels(w, d, p, levels, st, fuel).Some?
    ensures RunLevels(w, d, p, levels, st, fuel).value.st.wisdom == IgnoreAll
    decreases fuel, 2, |levels|
  {
    hide RunTries;
    if levels != [] {
      var order := OfKind(d, p.kind, |d|);
      NoWisdomTries(w, d, p, levels[0], order, None, 0, st, fuel);
      var r := RunTries(w, d, p, levels[0], order, None, 0, st, fuel).value;
      if r.pln.None? && |levels| > 1 { NoWisdomLevels(w, d, p, levels[1..], r.st, fuel); }
    }
  }

  lemma {:induction false} NoWisdomTries(w: World, d: seq<Desc>, p: Problem, l: Mask, rest: seq<nat>, best: Option<Plan>,
                                         slv: nat, st: State, fuel: nat)
    requires st.wisdom == IgnoreAll && RunTries(w, d, p, l, rest, best, slv, st, fuel).Some?
    ensures RunTries(w, d, p, l, rest, best, slv, st, fuel).value.st.wisdom == IgnoreAll
    decreases fuel, 1, |rest|
  {
    hide Dialogue;
    if rest != [] {
      var f := Flags(l, st.flags.u, st.flags.timelimit);
      NoWisdomDialogue(w, d, p, rest[0], st.(flags := f.(timelimit := 0)), [], fuel, fuel);
      var r := RunSolver(w, d, p, rest[0], st, f, fuel).value;
      if !(LetsPrune(r.pln) && Has(st.flags.u, ALLOW_PRUNING)) {
        NoWisdomTries(w, d, p, l, rest[1..], if Better(r.pln, best) then r.pln else best,
                      if Better(r.pln, best) then rest[0] else slv, r.st, fuel);
      }
    }
  }

  lemma {:induction false} NoWisdomDialogue(w: World, d: seq<Desc>, p: Problem, s: nat, st: State, answers: seq<Option<Plan>>,
                                            steps: nat, fuel: nat)
    requires st.wisdom == IgnoreAll && Dialogue(w, d, p, s, st, answers, steps, fuel).Some?
    ensures Dialogue(w, d, p, s, st, answers, steps, fuel).value.st.wisdom == IgnoreAll
    decreases fuel, 0, steps
  {
    hide RunMk, Changed;
    match w.act(s, p, st.flags, st.nthr, answers)
    case Return(_) =>
    case Ask(sub, threads, lSet, uSet, uReset) =>
      NoWisdomMk(w, d, sub, st.(nthr := threads).(flags := Changed(st.flags, lSet, uSet, uReset)), fuel - 1);
      var r := RunMkF(w, d, sub, st.(nthr := threads), lSet, uSet, uReset, fuel - 1).value;
      NoWisdomDialogue(w, d, p, s, r.st, answers + [r.pln], steps - 1, fuel);
  }

  // ---- More fuel ----

  /** A run with an outcome has the same outcome with more fuel. */
  lemma {:induction false} MoreFuel(w: World, d: seq<Desc>, p: Problem, st: State, fuel: nat, more: nat)
    requires RunMk(w, d, p, st, fuel).Some? && fuel <= more
    ensures RunMk(w, d, p, st, more) == RunMk(w, d, p, st, fuel)
    decreases fuel, 4, 0
  {
    hide LookedUp, Noted;
    var c := st.(flags := Canonicalized(st.flags));
    var sig := w.hash(p, c.nthr);
    var sol := if c.wisdom == IgnoreAll then None else LookedUp(c, sig);
    if c.wisdom == Bogus {
    } else if sol.Some? && sol.value.answer.verdict.Solver? {
      MoreReuse(w, d, p, sig, sol.value.answer, c, fuel, more);
    } else if (sol.Some? && c.wisdom != IgnoreInfeasible) || c.wisdom == Only {
    } else {
      MoreSearch(w, d, p, sig, c, fuel, more);
    }
  }

  lemma {:induction false} MoreReuse(w: World, d: seq<Desc>, p: Problem, sig: Sig, sol: Answer, st: State, fuel: nat,
    more: nat)
    requires sol.verdict.Solver? && RunReuse(w, d, p, sig, sol, st, fuel).Some? && fuel <= more
    ensures RunReuse(w, d, p, sig, sol, st, more) == RunReuse(w, d, p, sig, sol, st, fuel)
    decreases fuel, 3, 0
  {
    hide Noted, RunSolver;
    var s := sol.verdict.index;
    if s < |d| && d[s].kind == p.kind {
      MoreSolver(w, d, p, s, st.(wisdom := Only), sol.flags, fuel, more);
    }
  }

  lemma {:induction false} MoreSearch(w: World, d: seq<Desc>, p: Problem, sig: Sig, st: State, fuel: nat, more: nat)
    requires RunSearch(w, d, p, sig, st, fuel).Some? && fuel <= more
    ensures RunSearch(w, d, p, sig, st, more) == RunSearch(w, d, p, sig, st, fuel)
    decreases fuel, 3, 0
  {
    hide Noted, RunLevels;
    MoreLevels(w, d, p, WholeSchedule(st.flags.l, st.flags.u), st.(searches := st.searches + 1), fuel, more);
  }

  lemma {:induction false} MoreLevels(w: World, d: seq<Desc>, p: Problem, levels: seq<Mask>, st: State, fuel: nat,
    more: nat)
    requires RunLevels(w, d, p, levels, st, fuel).Some? && fuel <= more
    ensures RunLevels(w, d, p, levels, st, more) == RunLevels(w, d, p, levels, st, fuel)
    decreases fuel, 2, |levels|
  {
    hide RunTries;
    if levels != [] {
      MoreTries(w, d, p, levels[0], OfKind(d, p.kind, |d|), None, 0, st, fuel, more);
      var r := RunTries(w, d, p, levels[0], OfKind(d, p.kind, |d|), None, 0, st, fuel);
      if r.value.pln.None? && |levels| > 1 {
        MoreLevels(w, d, p, levels[1..], r.value.st, fuel, more);
      }
    }
  }

  lemma {:induction false} MoreTries(w: World, d: seq<Desc>, p: Problem, l: Mask, rest: seq<nat>, best: Option<Plan>,
    slv: nat,
                                     st: State, fuel: nat, more: nat)
    requires RunTries(w, d, p, l, rest, best, slv, st, fuel).Some? && fuel <= more
    ensures RunTries(w, d, p, l, rest, best, slv, st, more) == RunTries(w, d, p, l, rest, best, slv, st, fuel)
    decreases fuel, 1, |rest|
  {
    hide RunSolver;
    if rest != [] {
      var f := Flags(l, st.flags.u, st.flags.timelimit);
      MoreSolver(w, d, p, rest[0], st, f, fuel, more);
      var r := RunSolver(w, d, p, rest[0], st, f, fuel).value;
      if !(LetsPrune(r.pln) && Has(st.flags.u, ALLOW_PRUNING)) {
        MoreTries(w, d, p, l, rest[1..], if Better(r.pln, best) then r.pln else best,
                  if Better(r.pln, best) then rest[0] else slv, r.st, fuel, more);
      }
    }
  }

  lemma {:induction false} MoreSolver(w: World, d: seq<Desc>, p: Problem, s: nat, st: State, nflags: Flags,
    fuel: nat, more: nat)
    requires RunSolver(w, d, p, s, st, nflags, fuel).Some? && fuel <= more
    ensures RunSolver(w, d, p, s, st, nflags, more) == RunSolver(w, d, p, s, st, nflags, fuel)
    decreases fuel, 0, fuel + 1
  {
    hide Dialogue;
    MoreDialogue(w, d, p, s, st.(flags := nflags.(timelimit := 0)), [], fuel, fuel, more, more);
  }

  lemma {:induction false} MoreDialogue(w: World, d: seq<Desc>, p: Problem, s: nat, st: State,
    answers: seq<Option<Plan>>,
                                        steps: nat, fuel: nat, steps': nat, more: nat)
    requires Dialogue(w, d, p, s, st, answers, steps, fuel).Some? && steps <= steps' && fuel <= more
    ensures Dialogue(w, d, p, s, st, answers, steps', more) == Dialogue(w, d, p, s, st, answers, steps, fuel)
    decreases fuel, 0, steps
  {
    hide RunMk;
    match w.act(s, p, st.flags, st.nthr, answers)
    case Return(_) =>
    case Ask(sub, threads, lSet, uSet, uReset) =>
      MoreFuel(w, d, sub, st.(nthr := threads).(flags := Changed(st.flags, lSet, uSet, uReset)), fuel - 1, more - 1);
      var r := RunMkF(w, d, sub, st.(nthr := threads), lSet, uSet, uReset, fuel - 1).value;
      MoreDialogue(w, d, p, s, r.st, answers + [r.pln], steps - 1, fuel, steps' - 1, more);
  }
}
