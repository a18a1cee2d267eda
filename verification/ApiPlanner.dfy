/** api/apiplan.c and api/mapflags.c: the routines of the interface that drive the planner object. */
module ApiPlanner {
  import opened Subsumption
  import opened HashTable
  import opened Options
  import opened PlannerRules
  import opened PlannerRuns
  import opened PlannerTheory
  import opened PlannerEnds
  import opened PlannerTruth
  import opened Registry
  import opened SearchTrace
  import opened Planning
  import opened ApiFlags
  import opened ApiPlan

  /** mapflags */
  method SetFlags(plnr: Planner, flags: Api, t: nat)
    modifies plnr`flags
    ensures plnr.flags == PlannerFlags(flags, t)
  {
    hide Mapped, SelfMapped, LFlagMap, UFlagMap, Narrow;
    var f := MapSelf(flags, SelfFlagMap());
    var l := MapFlags(f, 0, LFlagMap());
    var u := MapFlags(f, 0, UFlagMap());
    BothLow(flags);
    OrLow(u, l);
    plnr.flags := Flags(Narrow(l), Narrow(Both(u, l)), t);
  }

  lemma SolversApart(plnr: Planner)
    requires plnr.Valid()
    ensures plnr.solvers !in plnr.memo.Repr
  {
    hide Memo.Valid, Solvers.Valid, AllStorable;
  }

  /** mkplan0 */
  method MkPlan0(plnr: Planner, p: Problem, flags: Api, t: nat, bless: bool, wisdom: WisdomState, fuel: nat)
    returns (done: bool, pln: Option<Plan>)
    requires plnr.Valid()
    modifies plnr, plnr.memo, plnr.memo.Repr
    ensures plnr.Valid() && fresh(plnr.memo.Repr - old(plnr.memo.Repr)) && plnr.solvers.descs == old(plnr.solvers.descs)
    ensures plnr.Ran(Plan0(plnr.world, plnr.solvers.descs, p, old(plnr.St()), flags, t, bless, wisdom, fuel), done, pln)
  {
    hide Memo.Valid, Solvers.Valid, AllStorable, PlannerFlags, RunMk, Planned, Leq, Founded;
    PlannerFlagsAre(flags, t);
    SetFlags(plnr, flags, t);
    plnr.bless, plnr.wisdom := bless, wisdom;
    ghost var how;
    done, pln, how := plnr.MkPlan(p, fuel);
  }

  /** mkplan, as long as the wisdom is not to blame. */
  method MkPlanTwice(plnr: Planner, p: Problem, flags: Api, t: nat, bless: bool, fuel: nat) returns (done: bool,
    pln: Option<Plan>)
    requires plnr.Valid()
    modifies plnr, plnr.memo, plnr.memo.Repr
    ensures plnr.Valid() && fresh(plnr.memo.Repr - old(plnr.memo.Repr)) && plnr.solvers.descs == old(plnr.solvers.descs)
    ensures plnr.Ran(PlanTwice(plnr.world, plnr.solvers.descs, p, old(plnr.St()), flags, t, bless, fuel), done, pln)
  {
    hide Planner.Valid, Plan0, ForceEstimator;
    done, pln := MkPlan0(plnr, p, flags, t, bless, Normal, fuel);
    if done && plnr.wisdom == Normal && pln.None? {
      done, pln := MkPlan0(plnr, p, ForceEstimator(flags), t, bless, IgnoreInfeasible, fuel);
    }
  }

  /** Forget all wisdom and plan again. */
  method PlanAfresh(plnr: Planner, p: Problem, flags: Api, t: nat, bless: bool, wisdom: WisdomState, fuel: nat)
    returns (done: bool, pln: Option<Plan>)
    requires plnr.Valid()
    modifies plnr, plnr.memo, plnr.memo.Repr
    ensures plnr.Valid() && fresh(plnr.memo.Repr - old(plnr.memo.Repr)) && plnr.solvers.descs == old(plnr.solvers.descs)
    ensures plnr.Ran(Plan0(plnr.world, plnr.solvers.descs, p, Blanked(old(plnr.St())), flags, t, bless, wisdom,
      fuel), done, pln)
  {
    hide Planner.Valid, Plan0, Grown;
    SolversApart(plnr);
    plnr.Forget(true);
    done, pln := MkPlan0(plnr, p, flags, t, bless, wisdom, fuel);
  }

  /** mkplan */
  method MkPlan(plnr: Planner, p: Problem, flags: Api, t: nat, bless: bool, fuel: nat) returns (done: bool,
    pln: Option<Plan>)
    requires plnr.Valid()
    modifies plnr, plnr.memo, plnr.memo.Repr
    ensures plnr.Valid() && fresh(plnr.memo.Repr - old(plnr.memo.Repr)) && plnr.solvers.descs == old(plnr.solvers.descs)
    ensures plnr.Ran(ApiMk(plnr.world, plnr.solvers.descs, p, old(plnr.St()), flags, t, bless, fuel), done, pln)
  {
    hide Planner.Valid, Plan0, ForceEstimator, Blanked, PlanTwice;
    done, pln := MkPlanTwice(plnr, p, flags, t, bless, fuel);
    if done && plnr.wisdom == Bogus {
      done, pln := PlanAfresh(plnr, p, flags, t, bless, Normal, fuel);
      if done && plnr.wisdom == Bogus {
        done, pln := PlanAfresh(plnr, p, ForceEstimator(flags), t, bless, IgnoreAll, fuel);
      }
    }
  }

  /** The loop of mkapiplan. */
  method PlanPatiently(plnr: Planner, p: Problem, flags: Api, timed: bool, t: nat, fuel: nat)
    returns (done: bool, pln: Option<Plan>, used: Api)
    requires plnr.Valid()
    modifies plnr, plnr.memo, plnr.memo.Repr
    ensures plnr.Valid() && fresh(plnr.memo.Repr - old(plnr.memo.Repr)) && plnr.solvers.descs == old(plnr.solvers.descs)
    ensures var r := Patiently(plnr.world, plnr.solvers.descs, p, Progress(None, 0, old(plnr.St())), flags, t,
                               if timed then 0 else PatMax(flags), fuel);
            (done <==> r.Some?) && (done ==> r == Some(Progress(pln, used, plnr.St())))
  {
    hide Planner.Valid, ApiMk, WithPat, PatMax;
    ghost var w, d, st := plnr.world, plnr.solvers.descs, plnr.St();
    var patMax := PatMax(flags);
    var pat := if timed then 0 else patMax;
    ghost var pat0 := pat;
    done, pln, used := true, None, 0;
    while pat <= patMax
      invariant plnr.Valid() && fresh(plnr.memo.Repr - old(plnr.memo.Repr)) && done && pat <= 4
      invariant plnr.world == w && plnr.solvers.descs == d
      invariant Patiently(w, d, p, Progress(None, 0, st), flags, t, pat0, fuel)
             == Patiently(w, d, p, Progress(pln, used, plnr.St()), flags, t, pat, fuel)
      decreases 4 - pat
    {
      var pln1;
      var flags1 := WithPat(flags, pat);
      done, pln1 := MkPlan(plnr, p, flags1, t, false, fuel);
      if !done || pln1.None? {
        return;
      }
      pln, used := pln1, flags1;
      pat := pat + 1;
    }
  }

  /** mkapiplan: the plan, and whether one was found at all; if so the plan is there. */
  method MkApiPlan(plnr: Planner, p: Problem, flags: Api, timed: bool, t: nat, fuel: nat)
    returns (done: bool, first: Option<Plan>, pln: Option<Plan>)
    requires plnr.Valid()
    modifies plnr, plnr.memo, plnr.memo.Repr
    ensures plnr.Valid() && fresh(plnr.memo.Repr - old(plnr.memo.Repr)) && plnr.solvers.descs == old(plnr.solvers.descs)
    ensures var r := ApiPlanned(plnr.world, plnr.solvers.descs, p, old(plnr.St()), flags, timed, t, fuel);
            && (done <==> r.Some?)
            && (done ==> r == Some(if first.None? then Nothing(plnr.St()) else Made(first.value, pln, plnr.St())))
  {
    hide Planner.Valid, ApiMk, Patiently, Plan0, Grown, HasFlag, PatMax;
    var used := flags;
    pln := None;
    if HasFlag(flags, FFTW_WISDOM_ONLY) {
      done, first := MkPlan0(plnr, p, flags, t, false, Only, fuel);
    } else {
      done, first, used := PlanPatiently(plnr, p, flags, timed, t, fuel);
    }
    if done && first.Some? {
      done, pln := MkPlan(plnr, p, used, t, true, fuel);
    }
    SolversApart(plnr);
    plnr.Forget(false);
  }
}
