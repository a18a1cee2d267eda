/** api/apiplan.c with solvers that ask nothing of the planner: whatever is stored, true or false, the interface finds a plan
    exactly if some solver applies. */
module ApiLeaf {
  import opened Subsumption
  import opened HashTable
  import opened Options
  import opened Registry
  import opened SearchTrace
  import opened PlannerRules
  import opened PlannerRuns
  import opened PlannerTheory
  import opened PlannerTruth
  import opened PlannerHistory
  import opened ApiFlags
  import opened ApiPlan

  /** Each solver returns at once, with a plan exactly where it applies. */
  ghost predicate Leaves(w: World, p: Problem, n: nat, can: (nat, Mask) -> bool) {
    forall s, f :: AtOnce(w.act(s, p, f, n, []), can(s, f.l))
  }

  ghost predicate AtOnce(a: Action, can: bool) {
    a.Return? && (a.plan.Some? <==> can)
  }

  /** Some solver of the kind applies. */
  ghost predicate Any(d: seq<Desc>, p: Problem, can: (nat, Mask) -> bool, x: Mask) {
    exists s: nat :: s < |d| && d[s].kind == p.kind && can(s, x)
  }

  ghost predicate Setting(w: World, d: seq<Desc>, p: Problem, n: nat, can: (nat, Mask) -> bool) {
    Leaves(w, p, n, can) && forall x, y :: Leq(x, y) && Any(d, p, can, y) ==> Any(d, p, can, x)
  }

  lemma AnyIsSome(d: seq<Desc>, p: Problem, can: (nat, Mask) -> bool, x: Mask)
    ensures Any(d, p, can, x) <==> SomeCan(can, OfKind(d, p.kind, |d|), x)
  {
    OfKindIsExact(d, p.kind, |d|);
  }

  // ---- A call of the planner ----

  lemma LeafSolver(w: World, d: seq<Desc>, p: Problem, n: nat, can: (nat, Mask) -> bool, s: nat, st: State, f: Flags,
                   fuel: nat)
    requires Leaves(w, p, n, can) && fuel > 0 && st.nthr == n
    ensures var r := RunSolver(w, d, p, s, st, f, fuel); r.Some? && r.value.st == st && (r.value.pln.Some? <==> can(s, f.l))
  {
    assert AtOnce(w.act(s, p, f.(timelimit := 0), n, []), can(s, f.l));
  }

  lemma {:induction false} LeafTries(w: World, d: seq<Desc>, p: Problem, n: nat, can: (nat, Mask) -> bool, l: Mask,
                                     rest: seq<nat>, best: Option<Plan>, slv: nat, st: State, fuel: nat)
    requires Leaves(w, p, n, can) && fuel > 0 && st.nthr == n
    ensures var r := RunTries(w, d, p, l, rest, best, slv, st, fuel); r.Some? && r.value.st == st
    decreases |rest|
  {
    hide RunSolver, Leaves;
    if rest != [] {
      var f := Flags(l, st.flags.u, st.flags.timelimit);
      LeafSolver(w, d, p, n, can, rest[0], st, f, fuel);
      var r := RunSolver(w, d, p, rest[0], st, f, fuel).value.pln;
      LeafTries(w, d, p, n, can, l, rest[1..], if Better(r, best) then r else best, if Better(r, best) then rest[0] else slv,
                st, fuel);
    }
  }

  lemma {:induction false} LeafLevels(w: World, d: seq<Desc>, p: Problem, n: nat, can: (nat, Mask) -> bool,
                                      levels: seq<Mask>,
                                      st: State, fuel: nat)
    requires Leaves(w, p, n, can) && fuel > 0 && st.nthr == n
    ensures var r := RunLevels(w, d, p, levels, st, fuel); r.Some? && r.value.st == st
    decreases |levels|
  {
    hide RunTries, Leaves;
    if levels != [] {
      LeafTries(w, d, p, n, can, levels[0], OfKind(d, p.kind, |d|), None, 0, st, fuel);
      LeafLevels(w, d, p, n, can, levels[1..], st, fuel);
    }
  }

  lemma LeafSearch(w: World, d: seq<Desc>, p: Problem, n: nat, can: (nat, Mask) -> bool, st: State, fuel: nat)
    requires Leaves(w, p, n, can) && fuel > 0 && st.nthr == n && st.wisdom != Bogus
    ensures var r := RunSearch(w, d, p, w.hash(p, n), st, fuel); r.Some? && r.value.st.wisdom == st.wisdom
  {
    hide RunLevels, Leaves, Noted, WholeSchedule;
    var begun := st.(searches := st.searches + 1);
    LeafLevels(w, d, p, n, can, WholeSchedule(st.flags.l, st.flags.u), begun, fuel);
    var r := RunLevels(w, d, p, WholeSchedule(st.flags.l, st.flags.u), begun, fuel).value;
    NotedKeeps(r.st, w.hash(p, n), Flags(r.at, st.flags.u, 0), if r.pln.Some? then Solver(r.slv) else Infeasible);
  }

  ghost predicate Fit(st: State) {
    TableOk(st.saved) && TableOk(st.unsaved)
  }

  /** Every call ends; a plan is always there for a reason; and a call that searches, or that is not bogus and ignores records
      of infeasibility, finds one if there is one. */
  lemma LeafRun(w: World, d: seq<Desc>, p: Problem, n: nat, can: (nat, Mask) -> bool, st: State, fuel: nat)
    requires Setting(w, d, p, n, can) && fuel > 0 && st.nthr == n && Fit(st) && Asked(st.flags)
    ensures var r := RunMk(w, d, p, st, fuel);
            && r.Some? && Fit(r.value.st) && r.value.st.nthr == n
            && (r.value.st.wisdom == st.wisdom || r.value.st.wisdom == Bogus)
            && (r.value.pln.Some? ==> r.value.st.wisdom != Bogus && Any(d, p, can, st.flags.l))
            && (st.wisdom == IgnoreInfeasible && r.value.st.wisdom != Bogus ==>
                  (r.value.pln.Some? <==> Any(d, p, can, st.flags.l)))
            && (st.wisdom == Normal && !Knows(st, w.hash(p, n), Canonicalized(st.flags)) ==>
                  r.value.st.wisdom == Normal && (r.value.pln.Some? <==> Any(d, p, can, st.flags.l)))
  {
    hide RunReuse, RunSearch, Leaves, TableOk, Contents, Answerable, Subsumes, Leq, Any, Returned, Sought, Recorded,
         Recall, Has;
    var c := st.(flags := Canonicalized(st.flags));
    LeafMkEnds(w, d, p, n, can, st, fuel);
    KeepsMk(w, d, p, st, fuel);
    RecallIs(c.saved, c.unsaved, w.hash(p, n), c.flags);
    var o := RunMk(w, d, p, st, fuel).value;
    var how := MkPlanned(w, d, p, st, fuel);
    if st.wisdom == Normal && !Knows(st, w.hash(p, n), c.flags) {
      LeafSearch(w, d, p, n, can, c, fuel);
      assert o.st.wisdom == Normal;
    }
    match how
    case Refused =>
    case Recalled(e) =>
      RecalledKnown(c, e, w.hash(p, n));
      if e.answer.verdict.Solver? { LeafRecalled(w, d, p, n, can, e, c.flags, o.pln); }
    case Fresh(rounds, slv) => LeafSought(w, d, p, n, can, c.flags, rounds, slv, o.pln);
  }

  lemma RecalledKnown(st: State, e: Entry, sig: Sig)
    ensures (e in Contents(st.saved) || e in Contents(st.unsaved)) && Answers(e, sig, st.flags) ==> Knows(st, sig, st.flags)
  {
    hide Contents, Subsumes;
  }

  lemma LeafMkEnds(w: World, d: seq<Desc>, p: Problem, n: nat, can: (nat, Mask) -> bool, st: State, fuel: nat)
    requires Leaves(w, p, n, can) && fuel > 0 && st.nthr == n
    ensures RunMk(w, d, p, st, fuel).Some?
  {
    hide RunSearch, RunSolver, Leaves, Recall, Noted;
    var c := st.(flags := Canonicalized(st.flags));
    var sol := LookedUp(c, w.hash(p, n));
    if c.wisdom != Bogus {
      LeafSearch(w, d, p, n, can, c, fuel);
    }
    if sol.Some? && sol.value.answer.verdict.Solver? {
      LeafSolver(w, d, p, n, can, sol.value.answer.verdict.index, c.(wisdom := Only), sol.value.answer.flags, fuel);
    }
  }

  lemma LeafRecalled(w: World, d: seq<Desc>, p: Problem, n: nat, can: (nat, Mask) -> bool, e: Entry, f: Flags,
                     pln: Option<Plan>)
    requires Setting(w, d, p, n, can) && Explains(w, d, Recalled(e), p, f, n, pln) && e.answer.verdict.Solver?
    ensures Any(d, p, can, f.l)
  {
    hide Leq, Returned;
    var s, g := e.answer.verdict.index, e.answer.flags;
    assert AtOnce(w.act(s, p, g.(timelimit := 0), n, []), can(s, g.l));
    ReturnedAtOnce(w, p, g, n, s, pln);
    assert Any(d, p, can, g.l);
  }

  lemma LeafSought(w: World, d: seq<Desc>, p: Problem, n: nat, can: (nat, Mask) -> bool, f: Flags, rounds: seq<Round>,
                   slv: nat,
                   pln: Option<Plan>)
    requires Setting(w, d, p, n, can) && Sought(w, d, p, f, n, rounds, slv, pln)
    ensures pln.Some? <==> Any(d, p, can, f.l)
  {
    hide Leq, Sought, SomeCan;
    var order := OfKind(d, p.kind, |d|);
    forall x, y | Leq(x, y) && SomeCan(can, order, y) ensures SomeCan(can, order, x) {
      AnyIsSome(d, p, can, x);
      AnyIsSome(d, p, can, y);
    }
    forall s, x ensures Applies(w, p, f.u, n, s, x, can(s, x)) {
      assert AtOnce(w.act(s, p, Flags(x, f.u, 0), n, []), can(s, x));
    }
    LeafSearchIsComplete(w, d, p, f, n, rounds, slv, pln, can);
    AnyIsSome(d, p, can, f.l);
    assert SomeCan(can, order, f.l) <==> exists s :: s in order && can(s, f.l) by { SomeIs(can, order, f.l); }
  }

  lemma SomeIs(can: (nat, Mask) -> bool, order: seq<nat>, x: Mask)
    ensures SomeCan(can, order, x) <==> exists s :: s in order && can(s, x)
  {}

  // ---- The interface ----

  lemma LeafPlan0(w: World, d: seq<Desc>, p: Problem, n: nat, can: (nat, Mask) -> bool, st: State, flags: Api, tl: nat,
                  bless: bool, wisdom: WisdomState, fuel: nat)
    requires Setting(w, d, p, n, can) && fuel > 0 && st.nthr == n && Fit(st)
    ensures var r, l := Plan0(w, d, p, st, flags, tl, bless, wisdom, fuel), PlannerFlags(flags, tl).l;
            && r.Some? && Fit(r.value.st) && r.value.st.nthr == n
            && (r.value.st.wisdom == wisdom || r.value.st.wisdom == Bogus)
            && (r.value.pln.Some? ==> r.value.st.wisdom != Bogus && Any(d, p, can, l))
            && (wisdom == IgnoreInfeasible && r.value.st.wisdom != Bogus ==> (r.value.pln.Some? <==> Any(d, p, can, l)))
            && (wisdom == Normal && st.saved == st.unsaved == Grown([]) ==>
                  r.value.st.wisdom == Normal && (r.value.pln.Some? <==> Any(d, p, can, l)))
  {
    hide Setting, RunMk, PlannerFlags, Any, TableOk, Grown, Contents, Leq, Canonicalized;
    PlannerFlagsAre(flags, tl);
    var a := st.(flags := PlannerFlags(flags, tl), bless := bless, wisdom := wisdom);
    LeafRun(w, d, p, n, can, a, fuel);
    if st.saved == st.unsaved == Grown([]) {
      BlankGood(Facts((sig, x) => false, (s, sig, x) => false));
      assert !Knows(a, w.hash(p, n), Canonicalized(a.flags));
    }
  }

  lemma BlankedFit(st: State)
    ensures Fit(Blanked(st)) && Blanked(st).nthr == st.nthr
  {
    hide TableOk, Grown, Contents;
    BlankGood(Facts((sig, x) => false, (s, sig, x) => false));
  }

  /** Whatever is stored, mkplan ends with a plan exactly if some solver of the kind applies at the least impatience of the
      flags, and its wisdom is not bogus then. */
  lemma LeafApiMk(w: World, d: seq<Desc>, p: Problem, n: nat, can: (nat, Mask) -> bool, st: State, flags: Api, tl: nat,
                  bless: bool, fuel: nat)
    requires Setting(w, d, p, n, can) && fuel > 0 && st.nthr == n && Fit(st)
    ensures var r := ApiMk(w, d, p, st, flags, tl, bless, fuel);
            && r.Some? && Fit(r.value.st) && r.value.st.nthr == n && r.value.st.wisdom != Bogus
            && (r.value.pln.Some? <==> Any(d, p, can, PlannerFlags(flags, tl).l))
  {
    hide Setting, Plan0, PlannerFlags, ForceEstimator, Any, Fit;
    SameLeast(flags, tl);
    LeafPlan0(w, d, p, n, can, st, flags, tl, bless, Normal, fuel);
    var r := Plan0(w, d, p, st, flags, tl, bless, Normal, fuel).value;
    LeafPlan0(w, d, p, n, can, r.st, ForceEstimator(flags), tl, bless, IgnoreInfeasible, fuel);
    var b := PlanTwice(w, d, p, st, flags, tl, bless, fuel).value.st;
    BlankedFit(b);
    LeafPlan0(w, d, p, n, can, Blanked(b), flags, tl, bless, Normal, fuel);
  }

  lemma {:induction false} LeafPatiently(w: World, d: seq<Desc>, p: Problem, n: nat, can: (nat, Mask) -> bool,
                                         g: Progress,
                                         flags: Api, tl: nat, pat: nat, fuel: nat)
    requires Setting(w, d, p, n, can) && fuel > 0 && g.st.nthr == n && Fit(g.st)
    requires g.pln.Some? ==> Any(d, p, can, PlannerFlags(flags, tl).l) && PlannerFlags(g.used, tl).l == PlannerFlags(flags, tl).l
    ensures var r, l := Patiently(w, d, p, g, flags, tl, pat, fuel), PlannerFlags(flags, tl).l;
            && r.Some? && Fit(r.value.st) && r.value.st.nthr == n
            && (r.value.pln.Some? ==> Any(d, p, can, l) && PlannerFlags(r.value.used, tl).l == l)
            && (pat <= PatMax(flags) && Any(d, p, can, l) ==> r.value.pln.Some?)
            && (g.pln.Some? ==> r.value.pln.Some?)
    decreases 4 - pat
  {
    hide Setting, ApiMk, PlannerFlags, WithPat, PatMax, Any, Fit;
    if pat <= PatMax(flags) {
      SameLeast(flags, tl);
      LeafApiMk(w, d, p, n, can, g.st, WithPat(flags, pat), tl, false, fuel);
      var r := ApiMk(w, d, p, g.st, WithPat(flags, pat), tl, false, fuel).value;
      if r.pln.Some? {
        LeafPatiently(w, d, p, n, can, Progress(r.pln, WithPat(flags, pat), r.st), flags, tl, pat + 1, fuel);
      }
    }
  }

  /** So mkapiplan, whatever is stored, makes a plan exactly if some solver applies, and the plan made again from wisdom is
      there. */
  lemma LeafApiPlanned(w: World, d: seq<Desc>, p: Problem, n: nat, can: (nat, Mask) -> bool, st: State, flags: Api,
                       timed: bool,
                       tl: nat, fuel: nat)
    requires Setting(w, d, p, n, can) && fuel > 0 && st.nthr == n && Fit(st)
    ensures var m, can' := ApiPlanned(w, d, p, st, flags, timed, tl, fuel), Any(d, p, can, PlannerFlags(flags, tl).l);
            && m.Some? && (m.value.Made? ==> can' && m.value.plan.Some?)
            && (flags & 0x200000 == 0 && can' ==> m.value.Made?)
  {
    hide Setting, ApiMk, Plan0, Patiently, PlannerFlags, WithPat, PatMax, Any, Fit, Grown;
    LeafPlan0(w, d, p, n, can, st, flags, tl, false, Only, fuel);
    LeafPatiently(w, d, p, n, can, Progress(None, 0, st), flags, tl, if timed then 0 else PatMax(flags), fuel);
    var g := FirstPlan(w, d, p, st, flags, timed, tl, fuel).value;
    LeafApiMk(w, d, p, n, can, g.st, g.used, tl, true, fuel);
  }
}
