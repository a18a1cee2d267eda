/** api/apiplan.c: planning as the interface does it. A planner whose wisdom turned out bogus forgets everything and plans
    again; a plan is then planned once more so that it is saved, and what is not saved is forgotten. */
module ApiPlan {
  import opened Subsumption
  import opened HashTable
  import opened Options
  import opened Registry
  import opened PlannerRules
  import opened PlannerRuns
  import opened PlannerTheory
  import opened PlannerTruth
  import opened PlannerEnds
  import opened PlannerTidy
  import opened PlannerBacked
  import opened PlannerFirm
  import opened PlannerHistory
  import opened PlannerLife
  import opened SearchTrace
  import opened ApiFlags
  import opened Wisdom

  // ---- What the calls do ----

  /** mkplan0 */
  ghost function Plan0(w: World, d: seq<Desc>, p: Problem, st: State, flags: Api, t: nat, bless: bool,
    wisdom: WisdomState, fuel: nat)
    : Option<Outcome>
  {
    RunMk(w, d, p, st.(flags := PlannerFlags(flags, t), bless := bless, wisdom := wisdom), fuel)
  }

  ghost function Blanked(st: State): State {
    st.(saved := Grown([]), unsaved := Grown([]))
  }

  /** The first attempt of mkplan, and the second if there is no plan and the wisdom is not to blame. */
  ghost function PlanTwice(w: World, d: seq<Desc>, p: Problem, st: State, flags: Api, t: nat, bless: bool,
    fuel: nat): Option<Outcome> {
    var r := Plan0(w, d, p, st, flags, t, bless, Normal, fuel);
    if r.Some? && r.value.st.wisdom == Normal && r.value.pln.None? then
      Plan0(w, d, p, r.value.st, ForceEstimator(flags), t, bless, IgnoreInfeasible, fuel)
    else r
  }

  /** mkplan */
  ghost function ApiMk(w: World, d: seq<Desc>, p: Problem, st: State, flags: Api, t: nat, bless: bool,
    fuel: nat): Option<Outcome> {
    var r := PlanTwice(w, d, p, st, flags, t, bless, fuel);
    if r.None? || r.value.st.wisdom != Bogus then r
    else
      var again := Plan0(w, d, p, Blanked(r.value.st), flags, t, bless, Normal, fuel);
      if again.None? || again.value.st.wisdom != Bogus then again
      else Plan0(w, d, p, Blanked(again.value.st), ForceEstimator(flags), t, bless, IgnoreAll, fuel)
  }

  function Pats(): seq<Api> {
    [FFTW_ESTIMATE, FFTW_MEASURE, FFTW_PATIENT, FFTW_EXHAUSTIVE]
  }

  predicate HasFlag(flags: Api, x: Api) {
    flags & x != 0
  }

  function PatMax(flags: Api): (k: nat)
    ensures k < 4
  {
    if HasFlag(flags, FFTW_ESTIMATE) then 0
    else if HasFlag(flags, FFTW_EXHAUSTIVE) then 3
    else if HasFlag(flags, FFTW_PATIENT) then 2
    else 1
  }

  function WithPat(flags: Api, k: nat): Api
    requires k < 4
  {
    (flags & !PATIENCE) | Pats()[k]
  }

  /** The plan so far, and the flags it was planned with. */
  datatype Progress = Progress(pln: Option<Plan>, used: Api, st: State)

  /** The loop over increasing patience. */
  ghost function Patiently(w: World, d: seq<Desc>, p: Problem, g: Progress, flags: Api, t: nat, pat: nat,
    fuel: nat): Option<Progress>
    decreases 4 - pat
  {
    if pat > PatMax(flags) then Some(g)
    else
      var r := ApiMk(w, d, p, g.st, WithPat(flags, pat), t, false, fuel);
      if r.None? then None
      else if r.value.pln.None? then Some(g.(st := r.value.st))
      else Patiently(w, d, p, Progress(r.value.pln, WithPat(flags, pat), r.value.st), flags, t, pat + 1, fuel)
  }

  /** mkapiplan, up to the first plan. */
  ghost function FirstPlan(w: World, d: seq<Desc>, p: Problem, st: State, flags: Api, timed: bool, t: nat,
    fuel: nat): Option<Progress> {
    if HasFlag(flags, FFTW_WISDOM_ONLY) then
      var r := Plan0(w, d, p, st, flags, t, false, Only, fuel);
      if r.None? then None else Some(Progress(r.value.pln, flags, r.value.st))
    else
      Patiently(w, d, p, Progress(None, 0, st), flags, t, if timed then 0 else PatMax(flags), fuel)
  }

  /** What mkapiplan makes: nothing, or a plan, planned first and then planned again. */
  datatype Made = Nothing(st: State) | Made(first: Plan, plan: Option<Plan>, st: State)

  /** mkapiplan */
  ghost function ApiPlanned(w: World, d: seq<Desc>, p: Problem, st: State, flags: Api, timed: bool, t: nat,
    fuel: nat): Option<Made> {
    var g := FirstPlan(w, d, p, st, flags, timed, t, fuel);
    if g.None? then None
    else if g.value.pln.None? then Some(Nothing(g.value.st.(unsaved := Grown([]))))
    else
      var r := ApiMk(w, d, p, g.value.st, g.value.used, t, true, fuel);
      if r.None? then None else Some(Made(g.value.pln.value, r.value.pln, r.value.st.(unsaved := Grown([]))))
  }

  // ---- A planner whose answers are true ----

  lemma BlankedFirm(w: World, d: seq<Desc>, t: Facts, st: State, b: State)
    requires b.saved == Grown([]) && b.unsaved == Grown([])
    ensures Firm(w, d, t, Together, b) && Good(t, b.saved, b.unsaved)
  {
    hide Grown, Good;
    BlankFirm(w, d, t, b);
    FirmGood(w, d, t, Together, b);
  }

  /** One attempt: the answers stay true, and unless the wisdom is bogus there is a plan exactly if the question is
      feasible. */
  lemma Plan0Right(w: World, d: seq<Desc>, t: Facts, p: Problem, st: State, flags: Api, tl: nat, bless: bool,
    wisdom: WisdomState, fuel: nat)
    requires FactsOf(w, d, t) && Good(t, st.saved, st.unsaved) && Plan0(w, d, p, st, flags, tl, bless, wisdom,
      fuel).Some?
    ensures var o := Plan0(w, d, p, st, flags, tl, bless, wisdom, fuel).value;
            && Good(t, o.st.saved, o.st.unsaved) && o.st.nthr == st.nthr
              && (o.st.wisdom == wisdom || o.st.wisdom == Bogus)
            && Remembers(Contents(st.saved), Contents(o.st.saved))
            && (o.st.wisdom == Bogus ==> o.pln.None?)
            && (o.st.wisdom != Bogus ==> (o.pln.Some? <==> t.can(w.hash(p, st.nthr), PlannerFlags(flags, tl).l)))
  {
    hide FactsOf, RunMk, PlannerFlags, TableOk, Contents, AllTrue, Remembers, Leq;
    PlannerFlagsAre(flags, tl);
    var a := st.(flags := PlannerFlags(flags, tl), bless := bless, wisdom := wisdom);
    RunsRight(w, d, t, p, a, fuel);
    KeepsMk(w, d, p, a, fuel);
  }

  /** And where what is stored is backed, it never is. */
  lemma Plan0Firm(w: World, d: seq<Desc>, t: Facts, p: Problem, st: State, flags: Api, tl: nat, bless: bool,
    wisdom: WisdomState, fuel: nat)
    requires FactsOf(w, d, t) && Settled(w) && Firm(w, d, t, Together, st) && Plan0(w, d, p, st, flags, tl, bless,
      wisdom, fuel).Some?
    ensures var o := Plan0(w, d, p, st, flags, tl, bless, wisdom, fuel).value;
            Firm(w, d, t, Together, o.st) && (wisdom != Only ==> o.st.wisdom == wisdom)
  {
    hide FactsOf, Settled, RunMk, PlannerFlags, Firm, Leq;
    PlannerFlagsAre(flags, tl);
    var a := st.(flags := PlannerFlags(flags, tl), bless := bless, wisdom := wisdom);
    SameFirm(w, d, t, st, a);
    assert Laws(w, d, t, Together);
    RunsFirm(w, d, t, Together, p, a, fuel);
  }

  /** The flags of every attempt have the same l. */
  lemma SameLeast(flags: Api, tl: nat)
    ensures PlannerFlags(ForceEstimator(flags), tl).l == PlannerFlags(flags, tl).l
    ensures forall k :: 0 <= k < 4 ==> PlannerFlags(WithPat(flags, k), tl).l == PlannerFlags(flags, tl).l
  {
    hide PlannerFlags, LeastOf, ForceEstimator, WithPat;
    PatsArePatience();
    PatienceKeepsLeast(flags, 0);
    SameL(ForceEstimator(flags), flags, tl);
    forall k | 0 <= k < 4 ensures PlannerFlags(WithPat(flags, k), tl).l == PlannerFlags(flags, tl).l {
      PatienceKeepsLeast(flags, Pats()[k]);
      WithPatIs(flags, k);
      SameL(WithPat(flags, k), flags, tl);
    }
  }

  lemma PatsArePatience()
    ensures forall k :: 0 <= k < 4 ==> Pats()[k] & !PATIENCE == 0
    ensures (0 as Api) & !PATIENCE == 0
  {}

  lemma WithPatIs(flags: Api, k: nat)
    requires k < 4
    ensures WithPat(flags, k) == (flags & !PATIENCE) | Pats()[k]
  {}

  lemma SameL(f: Api, g: Api, tl: nat)
    requires LeastOf(f) == LeastOf(g)
    ensures PlannerFlags(f, tl).l == PlannerFlags(g, tl).l
  {
    hide LeastOf, GreatestOf, Narrow, Both;
  }

  /** Whatever true answers are stored, mkplan finds a plan exactly if the question is feasible, its wisdom ends
      acceptable, and having forgotten everything once is enough: the last attempt is never made. */
  lemma ApiMkRight(w: World, d: seq<Desc>, t: Facts, p: Problem, st: State, flags: Api, tl: nat, bless: bool, fuel: nat)
    requires FactsOf(w, d, t) && Settled(w) && Good(t, st.saved, st.unsaved) && ApiMk(w, d, p, st, flags, tl, bless,
      fuel).Some?
    ensures var o := ApiMk(w, d, p, st, flags, tl, bless, fuel).value;
            && Good(t, o.st.saved, o.st.unsaved) && o.st.nthr == st.nthr && o.st.wisdom != Bogus
            && (o.pln.Some? <==> t.can(w.hash(p, st.nthr), PlannerFlags(flags, tl).l))
    ensures var r := PlanTwice(w, d, p, st, flags, tl, bless, fuel);
            var again := Plan0(w, d, p, Blanked(r.value.st), flags, tl, bless, Normal, fuel);
            r.Some? && (r.value.st.wisdom == Bogus && again.Some? ==> again.value.st.wisdom == Normal)
  {
    hide FactsOf, Settled, Good, Plan0, PlannerFlags, ForceEstimator, Firm, Grown, Contents, Remembers;
    SameLeast(flags, tl);
    Plan0Right(w, d, t, p, st, flags, tl, bless, Normal, fuel);
    var r := Plan0(w, d, p, st, flags, tl, bless, Normal, fuel).value;
    if r.st.wisdom == Normal && r.pln.None? {
      Plan0Right(w, d, t, p, r.st, ForceEstimator(flags), tl, bless, IgnoreInfeasible, fuel);
    }
    var b := PlanTwice(w, d, p, st, flags, tl, bless, fuel).value.st;
    if b.wisdom == Bogus {
      BlankedFirm(w, d, t, b, Blanked(b));
      if Plan0(w, d, p, Blanked(b), flags, tl, bless, Normal, fuel).Some? {
        Plan0Firm(w, d, t, p, Blanked(b), flags, tl, bless, Normal, fuel);
        Plan0Right(w, d, t, p, Blanked(b), flags, tl, bless, Normal, fuel);
      }
    }
  }

  /** Where what is stored is backed, nothing is forgotten. */
  lemma ApiMkFirm(w: World, d: seq<Desc>, t: Facts, p: Problem, st: State, flags: Api, tl: nat, bless: bool, fuel: nat)
    requires FactsOf(w, d, t) && Settled(w) && Firm(w, d, t, Together, st) && ApiMk(w, d, p, st, flags, tl, bless,
      fuel).Some?
    ensures var o := ApiMk(w, d, p, st, flags, tl, bless, fuel).value;
            && ApiMk(w, d, p, st, flags, tl, bless, fuel) == PlanTwice(w, d, p, st, flags, tl, bless, fuel)
            && Firm(w, d, t, Together, o.st) && Remembers(Contents(st.saved), Contents(o.st.saved))
            && (Strict(w, t) && SavedBacked(w, d, t, st) ==> SavedBacked(w, d, t, o.st))
  {
    hide FactsOf, Settled, Good, Plan0, PlannerFlags, ForceEstimator, Firm, Contents, Remembers, Strict, SavedBacked;
    Plan0Steady(w, d, t, p, st, flags, tl, bless, Normal, fuel);
    var r := Plan0(w, d, p, st, flags, tl, bless, Normal, fuel).value;
    if r.st.wisdom == Normal && r.pln.None? {
      Plan0Steady(w, d, t, p, r.st, ForceEstimator(flags), tl, bless, IgnoreInfeasible, fuel);
      var o := Plan0(w, d, p, r.st, ForceEstimator(flags), tl, bless, IgnoreInfeasible, fuel).value;
      RemembersOn(Contents(st.saved), Contents(r.st.saved), Contents(o.st.saved));
    }
  }

  lemma Plan0Steady(w: World, d: seq<Desc>, t: Facts, p: Problem, st: State, flags: Api, tl: nat, bless: bool,
    wisdom: WisdomState, fuel: nat)
    requires FactsOf(w, d, t) && Settled(w) && Firm(w, d, t, Together, st) && Plan0(w, d, p, st, flags, tl, bless,
      wisdom, fuel).Some?
    ensures var o := Plan0(w, d, p, st, flags, tl, bless, wisdom, fuel).value;
            && Firm(w, d, t, Together, o.st) && (wisdom != Only ==> o.st.wisdom == wisdom)
            && Remembers(Contents(st.saved), Contents(o.st.saved))
            && (Strict(w, t) && SavedBacked(w, d, t, st) ==> SavedBacked(w, d, t, o.st))
  {
    hide FactsOf, Settled, RunMk, PlannerFlags, Firm, Leq, Strict, Backed, Contents, Remembers, Good;
    FirmGood(w, d, t, Together, st);
    Plan0Firm(w, d, t, p, st, flags, tl, bless, wisdom, fuel);
    Plan0Right(w, d, t, p, st, flags, tl, bless, wisdom, fuel);
    if Strict(w, t) && SavedBacked(w, d, t, st) {
      PlannerFlagsAre(flags, tl);
      MkSaved(w, d, t, st, Mk(p, PlannerFlags(flags, tl), st.nthr, bless, wisdom), fuel);
    }
  }

  // ---- When it ends ----

  lemma Plan0Ends(w: World, d: seq<Desc>, p: Problem, st: State, flags: Api, tl: nat, bless: bool, wisdom: WisdomState,
                  fuel: nat, rank: (Problem, Mask) -> nat, bound: nat)
    requires Enough(w, rank, bound, p, PlannerFlags(flags, tl).l, fuel) && Orderly(st)
    ensures var r := Plan0(w, d, p, st, flags, tl, bless, wisdom, fuel); r.Some? && Orderly(r.value.st)
  {
    hide Enough, Orderly, RunMk, PlannerFlags, Leq;
    PlannerFlagsAre(flags, tl);
    var a := st.(flags := PlannerFlags(flags, tl), bless := bless, wisdom := wisdom);
    OrderlyStill(st, a);
    EnoughFuel(w, d, p, a, fuel, rank, bound);
  }

  lemma BlankedOrderly(st: State)
    ensures Orderly(Blanked(st))
  {
    hide TableOk, Grown, Contents;
    BlankGood(Facts((sig, x) => false, (s, sig, x) => false));
  }

  lemma ApiMkEnds(w: World, d: seq<Desc>, p: Problem, st: State, flags: Api, tl: nat, bless: bool, fuel: nat,
                  rank: (Problem, Mask) -> nat, bound: nat)
    requires Enough(w, rank, bound, p, PlannerFlags(flags, tl).l, fuel) && Orderly(st)
    ensures var r := ApiMk(w, d, p, st, flags, tl, bless, fuel); r.Some? && Orderly(r.value.st)
  {
    hide Enough, Orderly, Plan0, PlannerFlags, ForceEstimator, Blanked;
    SameLeast(flags, tl);
    Plan0Ends(w, d, p, st, flags, tl, bless, Normal, fuel, rank, bound);
    var r := Plan0(w, d, p, st, flags, tl, bless, Normal, fuel).value;
    Plan0Ends(w, d, p, r.st, ForceEstimator(flags), tl, bless, IgnoreInfeasible, fuel, rank, bound);
    var b := PlanTwice(w, d, p, st, flags, tl, bless, fuel).value.st;
    BlankedOrderly(b);
    Plan0Ends(w, d, p, Blanked(b), flags, tl, bless, Normal, fuel, rank, bound);
    var c := Plan0(w, d, p, Blanked(b), flags, tl, bless, Normal, fuel).value.st;
    BlankedOrderly(c);
    Plan0Ends(w, d, p, Blanked(c), ForceEstimator(flags), tl, bless, IgnoreAll, fuel, rank, bound);
  }

  lemma {:induction false} PatientlyEnds(w: World, d: seq<Desc>, p: Problem, g: Progress, flags: Api, tl: nat, pat: nat,
                                         fuel: nat,
                                         rank: (Problem, Mask) -> nat, bound: nat)
    requires Enough(w, rank, bound, p, PlannerFlags(flags, tl).l, fuel) && Orderly(g.st)
    requires g.pln.Some? ==> PlannerFlags(g.used, tl).l == PlannerFlags(flags, tl).l
    ensures var r := Patiently(w, d, p, g, flags, tl, pat, fuel);
            && r.Some? && Orderly(r.value.st)
            && (r.value.pln.Some? ==> PlannerFlags(r.value.used, tl).l == PlannerFlags(flags, tl).l)
    decreases 4 - pat
  {
    hide Enough, Orderly, ApiMk, PlannerFlags, WithPat, PatMax;
    if pat <= PatMax(flags) {
      SameLeast(flags, tl);
      ApiMkEnds(w, d, p, g.st, WithPat(flags, pat), tl, false, fuel, rank, bound);
      var r := ApiMk(w, d, p, g.st, WithPat(flags, pat), tl, false, fuel).value;
      if r.pln.Some? {
        PatientlyEnds(w, d, p, Progress(r.pln, WithPat(flags, pat), r.st), flags, tl, pat + 1, fuel, rank, bound);
      }
    }
  }

  /** With enough fuel mkapiplan has an outcome, whatever is stored. */
  lemma ApiPlannedEnds(w: World, d: seq<Desc>, p: Problem, st: State, flags: Api, timed: bool, tl: nat, fuel: nat,
                       rank: (Problem, Mask) -> nat, bound: nat)
    requires Enough(w, rank, bound, p, PlannerFlags(flags, tl).l, fuel) && Orderly(st)
    ensures var m := ApiPlanned(w, d, p, st, flags, timed, tl, fuel); m.Some? && Orderly(m.value.st)
  {
    hide Enough, Orderly, ApiMk, Patiently, Plan0, PlannerFlags, HasFlag, PatMax, Grown;
    if HasFlag(flags, FFTW_WISDOM_ONLY) {
      Plan0Ends(w, d, p, st, flags, tl, false, Only, fuel, rank, bound);
    } else {
      PatientlyEnds(w, d, p, Progress(None, 0, st), flags, tl, if timed then 0 else PatMax(flags), fuel, rank, bound);
    }
    var g := FirstPlan(w, d, p, st, flags, timed, tl, fuel).value;
    UnsavedGone(g.st);
    if g.pln.Some? {
      ApiMkEnds(w, d, p, g.st, g.used, tl, true, fuel, rank, bound);
      UnsavedGone(ApiMk(w, d, p, g.st, g.used, tl, true, fuel).value.st);
    }
  }

  lemma UnsavedGone(st: State)
    requires Orderly(st)
    ensures Orderly(st.(unsaved := Grown([])))
  {
    hide TableOk, Grown, Contents;
    BlankGood(Facts((sig, x) => false, (s, sig, x) => false));
  }

  // ---- mkapiplan ----

  lemma {:induction false} PatientlyRight(w: World, d: seq<Desc>, t: Facts, p: Problem, g: Progress, flags: Api,
    tl: nat, pat: nat, fuel: nat)
    requires FactsOf(w, d, t) && Settled(w) && Good(t, g.st.saved, g.st.unsaved)
    requires g.pln.Some? ==> PlannerFlags(g.used, tl).l == PlannerFlags(flags, tl).l && t.can(w.hash(p, g.st.nthr),
      PlannerFlags(flags, tl).l)
    requires Patiently(w, d, p, g, flags, tl, pat, fuel).Some?
    ensures var r := Patiently(w, d, p, g, flags, tl, pat, fuel).value;
            && Good(t, r.st.saved, r.st.unsaved) && r.st.nthr == g.st.nthr
            && (r.pln.Some? ==> PlannerFlags(r.used, tl).l == PlannerFlags(flags, tl).l)
            && (r.pln.Some? <==> g.pln.Some? || (pat <= PatMax(flags) && t.can(w.hash(p, g.st.nthr),
              PlannerFlags(flags, tl).l)))
    decreases 4 - pat
  {
    hide FactsOf, Settled, Good, ApiMk, PlannerFlags, WithPat, PatMax;
    if pat <= PatMax(flags) {
      SameLeast(flags, tl);
      ApiMkRight(w, d, t, p, g.st, WithPat(flags, pat), tl, false, fuel);
      var r := ApiMk(w, d, p, g.st, WithPat(flags, pat), tl, false, fuel).value;
      if r.pln.Some? {
        PatientlyRight(w, d, t, p, Progress(r.pln, WithPat(flags, pat), r.st), flags, tl, pat + 1, fuel);
      }
    }
  }

  /** Whatever true answers are stored, mkapiplan makes a plan exactly if the problem is feasible at the least impatience
      of the flags, or, from wisdom only, only if it is; and the plan it makes again is there. */
  lemma ApiPlannedRight(w: World, d: seq<Desc>, t: Facts, p: Problem, st: State, flags: Api, timed: bool, tl: nat,
    fuel: nat)
    requires FactsOf(w, d, t) && Settled(w) && Good(t, st.saved, st.unsaved) && ApiPlanned(w, d, p, st, flags, timed,
      tl, fuel).Some?
    ensures var m, can := ApiPlanned(w, d, p, st, flags, timed, tl, fuel).value, t.can(w.hash(p, st.nthr),
      PlannerFlags(flags, tl).l);
            && Good(t, m.st.saved, m.st.unsaved) && m.st.nthr == st.nthr && m.st.unsaved == Grown([])
            && (m.Made? ==> can && m.plan.Some?)
            && (!HasFlag(flags, FFTW_WISDOM_ONLY) && can ==> m.Made?)
  {
    hide FactsOf, Settled, Good, ApiMk, PlannerFlags, Patiently, Plan0, Grown, HasFlag, PatMax, Contents, Remembers;
    FirstRight(w, d, t, p, st, flags, timed, tl, fuel);
    var g := FirstPlan(w, d, p, st, flags, timed, tl, fuel).value;
    BlankUnsaved(t, g.st.saved, g.st.unsaved);
    if g.pln.Some? {
      ApiMkRight(w, d, t, p, g.st, g.used, tl, true, fuel);
      var r := ApiMk(w, d, p, g.st, g.used, tl, true, fuel).value;
      BlankUnsaved(t, r.st.saved, r.st.unsaved);
    }
  }

  lemma FirstRight(w: World, d: seq<Desc>, t: Facts, p: Problem, st: State, flags: Api, timed: bool, tl: nat, fuel: nat)
    requires FactsOf(w, d, t) && Settled(w) && Good(t, st.saved, st.unsaved) && FirstPlan(w, d, p, st, flags, timed,
      tl, fuel).Some?
    ensures var g, can := FirstPlan(w, d, p, st, flags, timed, tl, fuel).value, t.can(w.hash(p, st.nthr),
      PlannerFlags(flags, tl).l);
            && Good(t, g.st.saved, g.st.unsaved) && g.st.nthr == st.nthr
            && (g.pln.Some? ==> can && PlannerFlags(g.used, tl).l == PlannerFlags(flags, tl).l)
            && (!HasFlag(flags, FFTW_WISDOM_ONLY) && can ==> g.pln.Some?)
  {
    hide FactsOf, Settled, Good, ApiMk, PlannerFlags, Patiently, Plan0, HasFlag, PatMax, Contents, Remembers;
    if HasFlag(flags, FFTW_WISDOM_ONLY) {
      Plan0Right(w, d, t, p, st, flags, tl, false, Only, fuel);
    } else {
      PatientlyRight(w, d, t, p, Progress(None, 0, st), flags, tl, if timed then 0 else PatMax(flags), fuel);
    }
  }

  /** Everything stored is backed, and the saved table by itself too. */
  ghost predicate Sturdy(w: World, d: seq<Desc>, t: Facts, st: State) {
    Firm(w, d, t, Together, st) && SavedBacked(w, d, t, st)
  }

  lemma {:induction false} PatientlyKeeps(w: World, d: seq<Desc>, t: Facts, p: Problem, g: Progress, flags: Api,
    tl: nat, pat: nat, fuel: nat)
    requires FactsOf(w, d, t) && Settled(w) && Strict(w, t) && Sturdy(w, d, t, g.st) && Patiently(w, d, p, g, flags,
      tl, pat, fuel).Some?
    ensures var r := Patiently(w, d, p, g, flags, tl, pat, fuel).value;
            Sturdy(w, d, t, r.st) && Remembers(Contents(g.st.saved), Contents(r.st.saved))
    decreases 4 - pat
  {
    hide FactsOf, Settled, Strict, Firm, SavedBacked, ApiMk, PlanTwice, WithPat, PatMax, Contents, Remembers;
    RemembersItself(Contents(g.st.saved));
    if pat <= PatMax(flags) {
      ApiMkFirm(w, d, t, p, g.st, WithPat(flags, pat), tl, false, fuel);
      var r := ApiMk(w, d, p, g.st, WithPat(flags, pat), tl, false, fuel).value;
      if r.pln.Some? {
        var h := Progress(r.pln, WithPat(flags, pat), r.st);
        PatientlyKeeps(w, d, t, p, h, flags, tl, pat + 1, fuel);
        RemembersOn(Contents(g.st.saved), Contents(r.st.saved), Contents(Patiently(w, d, p, h, flags, tl, pat + 1,
          fuel).value.st.saved));
      }
    }
  }

  /** With strict solvers, and what is saved backed by itself, mkapiplan forgets nothing that is saved. */
  lemma ApiPlannedKeeps(w: World, d: seq<Desc>, t: Facts, p: Problem, st: State, flags: Api, timed: bool, tl: nat,
    fuel: nat)
    requires FactsOf(w, d, t) && Settled(w) && Strict(w, t) && Sturdy(w, d, t, st) && ApiPlanned(w, d, p, st, flags,
      timed, tl, fuel).Some?
    ensures var m := ApiPlanned(w, d, p, st, flags, timed, tl, fuel).value;
            Sturdy(w, d, t, m.st) && Remembers(Contents(st.saved), Contents(m.st.saved))
  {
    hide FactsOf, Settled, Strict, Firm, SavedBacked, ApiMk, PlanTwice, Plan0, Patiently, Contents, Remembers, Grown,
         HasFlag, PatMax;
    if HasFlag(flags, FFTW_WISDOM_ONLY) {
      Plan0Steady(w, d, t, p, st, flags, tl, false, Only, fuel);
    } else {
      PatientlyKeeps(w, d, t, p, Progress(None, 0, st), flags, tl, if timed then 0 else PatMax(flags), fuel);
    }
    var g := FirstPlan(w, d, p, st, flags, timed, tl, fuel).value;
    if g.pln.None? {
      SavedOnly(w, d, t, g.st);
    } else {
      ApiMkFirm(w, d, t, p, g.st, g.used, tl, true, fuel);
      var r := ApiMk(w, d, p, g.st, g.used, tl, true, fuel).value;
      RemembersOn(Contents(st.saved), Contents(g.st.saved), Contents(r.st.saved));
      SavedOnly(w, d, t, r.st);
    }
  }

  lemma SavedOnly(w: World, d: seq<Desc>, t: Facts, st: State)
    requires Sturdy(w, d, t, st)
    ensures Sturdy(w, d, t, st.(unsaved := Grown([])))
  {
    hide Firm, Backed, Contents, Grown;
    FirmGood(w, d, t, Together, st);
    SavedIsFirm(w, d, t, st);
  }

  // ---- The life of a program ----

  /** Plan a problem, import the lines of a text, set the number of threads, forget everything. */
  datatype Use = MakePlan(p: Problem, flags: Api, timed: bool,
    tl: nat) | Import(lines: seq<Entry>) | Threads(n: nat) | Cleanup

  ghost function Used(w: World, d: seq<Desc>, st: State, v: Use, fuel: nat): Option<State> {
    match v
    case MakePlan(p, flags, timed, tl) =>
      var m := ApiPlanned(w, d, p, st, flags, timed, tl, fuel);
      if m.None? then None else Some(m.value.st)
    case Import(lines) => Some(TaughtAll(st, lines))
    case Threads(n) => Some(st.(nthr := n))
    case Cleanup => Some(Blanked(st))
  }

  ghost function AfterUses(w: World, d: seq<Desc>, uses: seq<Use>, fuel: nat): Option<State> {
    if uses == [] then Some(Newborn())
    else
      var st := AfterUses(w, d, uses[..|uses| - 1], fuel);
      if st.None? then None else Used(w, d, st.value, uses[|uses| - 1], fuel)
  }

  ghost predicate TrueImport(t: Facts, v: Use) {
    v.Import? ==> AllTrue(t, Lines(v.lines))
  }

  /** Through the interface whether there is a plan never depends on the past. */
  lemma {:induction false} UsesAreRight(w: World, d: seq<Desc>, t: Facts, uses: seq<Use>, fuel: nat)
    requires FactsOf(w, d, t) && Settled(w) && (forall i :: 0 <= i < |uses| ==> TrueImport(t, uses[i]))
      && AfterUses(w, d, uses, fuel).Some?
    ensures var st := AfterUses(w, d, uses, fuel).value;
            && Good(t, st.saved, st.unsaved) && st.unsaved == Grown([])
            && forall p, flags, timed, tl :: FoundIfFeasible(w, d, t, p, st, flags, timed, tl, fuel)
  {
    hide FactsOf, Settled, Good, ApiPlanned, TaughtAll, Grown, AllTrue, FoundIfFeasible;
    if uses == [] {
      BlankGood(t);
    } else {
      var n := |uses| - 1;
      UsesAreRight(w, d, t, uses[..n], fuel);
      var st := AfterUses(w, d, uses[..n], fuel).value;
      assert TrueImport(t, uses[n]);
      match uses[n]
      case MakePlan(p, flags, timed, tl) => ApiPlannedRight(w, d, t, p, st, flags, timed, tl, fuel);
      case Import(lines) =>
        FactsEasier(w, d, t);
        TaughtGood(t, st, lines);
        GoodTables(t, st.saved, st.unsaved);
        TaughtAllIs(st, lines);
      case Threads(_) =>
      case Cleanup => BlankGood(t);
    }
    var st := AfterUses(w, d, uses, fuel).value;
    forall p, flags, timed, tl ensures FoundIfFeasible(w, d, t, p, st, flags, timed, tl, fuel) {
      FeasibleFound(w, d, t, p, st, flags, timed, tl, fuel);
    }
  }

  /** mkapiplan, if it ends, makes a plan exactly if some solver can, or from wisdom only, only if some solver can. */
  ghost predicate FoundIfFeasible(w: World, d: seq<Desc>, t: Facts, p: Problem, st: State, flags: Api, timed: bool,
    tl: nat, fuel: nat) {
    var m, can := ApiPlanned(w, d, p, st, flags, timed, tl, fuel), AnyDoes(t, d, p, w.hash(p, st.nthr),
      PlannerFlags(flags, tl).l);
    m.Some? ==>
      && (m.value.Made? ==> can && m.value.plan.Some?)
      && (!HasFlag(flags, FFTW_WISDOM_ONLY) && can ==> m.value.Made?)
  }

  lemma FeasibleFound(w: World, d: seq<Desc>, t: Facts, p: Problem, st: State, flags: Api, timed: bool, tl: nat,
    fuel: nat)
    requires FactsOf(w, d, t) && Settled(w) && Good(t, st.saved, st.unsaved)
    ensures FoundIfFeasible(w, d, t, p, st, flags, timed, tl, fuel)
  {
    hide FactsOf, Settled, Good, ApiPlanned, PlannerFlags, HasFlag;
    if ApiPlanned(w, d, p, st, flags, timed, tl, fuel).Some? {
      ApiPlannedRight(w, d, t, p, st, flags, timed, tl, fuel);
      CanIsAnyDoes(w, d, t, p, st.nthr, PlannerFlags(flags, tl).l);
    }
  }

  ghost predicate WholeImport(w: World, d: seq<Desc>, t: Facts, v: Use) {
    v.Import? ==> AllTrue(t, Lines(v.lines)) && Backed(w, d, t, Lines(v.lines), Lines(v.lines))
  }

  /** With strict solvers, and whole exports imported, nothing saved is ever forgotten but on demand. */
  lemma {:induction false} UsesKeep(w: World, d: seq<Desc>, t: Facts, uses: seq<Use>, fuel: nat)
    requires FactsOf(w, d, t) && Settled(w) && Strict(w, t) && forall i :: 0 <= i < |uses| ==> WholeImport(w, d, t,
      uses[i])
    requires AfterUses(w, d, uses, fuel).Some?
    ensures var st := AfterUses(w, d, uses, fuel).value; Sturdy(w, d, t, st) && st.unsaved == Grown([])
    ensures uses != [] && !uses[|uses| - 1].Cleanup? ==>
              Remembers(Contents(AfterUses(w, d, uses[..|uses| - 1], fuel).value.saved), Contents(AfterUses(w, d,
                uses, fuel).value.saved))
  {
    hide FactsOf, Settled, Strict, Sturdy, ApiPlanned, TaughtAll, Grown, AllTrue, Backed, Contents, Remembers;
    if uses == [] {
      BlankSturdy(w, d, t, Newborn());
    } else {
      var n := |uses| - 1;
      UsesKeep(w, d, t, uses[..n], fuel);
      var st := AfterUses(w, d, uses[..n], fuel).value;
      assert WholeImport(w, d, t, uses[n]);
      match uses[n]
      case MakePlan(p, flags, timed, tl) =>
        ApiPlannedKeeps(w, d, t, p, st, flags, timed, tl, fuel);
        UnsavedForgotten(w, d, p, st, flags, timed, tl, fuel);
      case Import(lines) => ImportKeeps(w, d, t, st, lines);
      case Threads(k) =>
        SameSturdy(w, d, t, st, st.(nthr := k));
        RemembersItself(Contents(st.saved));
      case Cleanup => BlankSturdy(w, d, t, Blanked(st));
    }
  }

  lemma UnsavedForgotten(w: World, d: seq<Desc>, p: Problem, st: State, flags: Api, timed: bool, tl: nat, fuel: nat)
    requires ApiPlanned(w, d, p, st, flags, timed, tl, fuel).Some?
    ensures ApiPlanned(w, d, p, st, flags, timed, tl, fuel).value.st.unsaved == Grown([])
  {
    hide FirstPlan, ApiMk, Grown;
  }

  lemma BlankSturdy(w: World, d: seq<Desc>, t: Facts, st: State)
    requires st.saved == Grown([]) && st.unsaved == Grown([])
    ensures Sturdy(w, d, t, st)
  {
    hide Grown, Firm, SavedBacked;
    BlankFirm(w, d, t, st);
  }

  lemma SameSturdy(w: World, d: seq<Desc>, t: Facts, a: State, b: State)
    requires Sturdy(w, d, t, a) && b.saved == a.saved && b.unsaved == a.unsaved
    ensures Sturdy(w, d, t, b)
  {
    hide Firm, Backed, Contents;
    SameFirm(w, d, t, a, b);
  }

  lemma ImportKeeps(w: World, d: seq<Desc>, t: Facts, st: State, lines: seq<Entry>)
    requires FactsOf(w, d, t) && Sturdy(w, d, t, st) && st.unsaved == Grown([])
    requires AllTrue(t, Lines(lines)) && Backed(w, d, t, Lines(lines), Lines(lines))
    ensures var b := TaughtAll(st, lines);
            Sturdy(w, d, t, b) && b.unsaved == Grown([]) && Remembers(Contents(st.saved), Contents(b.saved))
  {
    hide FactsOf, Firm, Backed, TaughtAll, Grown, AllTrue, Contents, Remembers, Learned, Good, Answerable, TableOk,
         LineKnown;
    FactsEasier(w, d, t);
    FirmGood(w, d, t, Together, st);
    GoodTables(t, st.saved, st.unsaved);
    TaughtAllIs(st, lines);
    GoodTrue(t, st.saved, st.unsaved);
    LearnedMoves(t, Contents(st.saved), Contents(st.unsaved), lines);
    SelfBacked(w, d, t, Lines(lines), Store(Together, st));
    SelfBacked(w, d, t, Lines(lines), Contents(st.saved));
    ReadFirm(w, d, t, st, lines);
    BlankGood(t);
    NothingUnsaved(Contents(st.saved), lines);
    ReadSaved(w, d, t, st, lines);
  }

  lemma GoodTrue(t: Facts, saved: seq<Slot>, unsaved: seq<Slot>)
    requires Good(t, saved, unsaved)
    ensures AllTrue(t, Contents(saved))
  {}

  lemma NothingUnsaved(S: set<Entry>, lines: seq<Entry>)
    ensures NotOnlyUnsaved(S, {}, lines)
  {}

  // ---- The interface always ends ----

  /** Enough fuel to plan, and lines whose flags are in order. */
  ghost predicate Endable(w: World, v: Use, fuel: nat, rank: (Problem, Mask) -> nat, bound: nat) {
    match v
    case MakePlan(p, flags, _, tl) => Enough(w, rank, bound, p, PlannerFlags(flags, tl).l, fuel)
    case Import(lines) => forall e :: e in lines ==> Asked(e.answer.flags)
    case _ => true
  }

  /** Every life of a program with enough fuel has an outcome. */
  lemma {:induction false} UsesEnd(w: World, d: seq<Desc>, uses: seq<Use>, fuel: nat, rank: (Problem, Mask) -> nat,
                                   bound: nat)
    requires forall i :: 0 <= i < |uses| ==> Endable(w, uses[i], fuel, rank, bound)
    ensures var st := AfterUses(w, d, uses, fuel); st.Some? && Orderly(st.value)
  {
    hide Enough, Orderly, ApiPlanned, TaughtAll, Grown, PlannerFlags;
    if uses == [] {
      BlankedOrderly(Newborn());
    } else {
      var n := |uses| - 1;
      UsesEnd(w, d, uses[..n], fuel, rank, bound);
      var st := AfterUses(w, d, uses[..n], fuel).value;
      assert Endable(w, uses[n], fuel, rank, bound);
      match uses[n]
      case MakePlan(p, flags, timed, tl) => ApiPlannedEnds(w, d, p, st, flags, timed, tl, fuel, rank, bound);
      case Import(lines) => TaughtOrderly(st, lines);
      case Threads(k) => OrderlyStill(st, st.(nthr := k));
      case Cleanup => BlankedOrderly(st);
    }
  }

  lemma {:induction false} TaughtOrderly(st: State, lines: seq<Entry>)
    requires Orderly(st) && forall e :: e in lines ==> Asked(e.answer.flags)
    ensures Orderly(TaughtAll(st, lines))
  {
    hide TableOk, Contents, Inserted, Recall, Displaced, Asked;
    if lines != [] {
      var n := |lines| - 1;
      TaughtOrderly(st, lines[..n]);
      InsertedIs(TaughtAll(st, lines[..n]).saved, lines[n]);
    }
  }

  // ---- What the interface saves ----

  /** The interface gives l and u the same of these flags. */
  ghost predicate NeverSet(hard: Mask) {
    forall flags, tl :: Agree(hard, PlannerFlags(flags, tl))
  }

  /** The flag by which the solvers between Hartley transforms and real ones forbid one another is such: the interface sets it
      in neither. */
  lemma DhtFlagNeverSet()
    ensures NeverSet(NO_DHT_R2HC)
  {
    forall flags, tl ensures Agree(NO_DHT_R2HC, PlannerFlags(flags, tl)) {
      PlannerFlagsClear(flags, tl);
      ClearAgrees(PlannerFlags(flags, tl));
    }
  }

  lemma ClearAgrees(f: Flags)
    requires f.l & 0x8000 == 0 && f.u & 0x8000 == 0
    ensures Agree(NO_DHT_R2HC, f)
  {}

  ghost predicate Trim(t: Facts, v: Levels, st: State) {
    Good(t, st.saved, st.unsaved) && Tidy(v, st)
  }

  lemma Plan0Tidy(w: World, d: seq<Desc>, t: Facts, v: Levels, p: Problem, st: State, flags: Api, tl: nat, bless: bool,
                  wisdom: WisdomState, fuel: nat)
    requires FactsOf(w, d, t) && LevelsOf(w, v) && NeverSet(v.hard) && Trim(t, v, st)
    requires Plan0(w, d, p, st, flags, tl, bless, wisdom, fuel).Some?
    ensures Trim(t, v, Plan0(w, d, p, st, flags, tl, bless, wisdom, fuel).value.st)
  {
    hide FactsOf, LevelsOf, RunMk, PlannerFlags, Good, Tidy, Agree, Leq, Contents, Remembers;
    PlannerFlagsAre(flags, tl);
    var a := st.(flags := PlannerFlags(flags, tl), bless := bless, wisdom := wisdom);
    SameTidy(v, st, a);
    MkTidy(w, d, t, v, p, a, fuel);
    Plan0Right(w, d, t, p, st, flags, tl, bless, wisdom, fuel);
  }

  lemma BlankedTrim(t: Facts, v: Levels, st: State)
    ensures Trim(t, v, Blanked(st))
  {
    hide Good, Tidy, Grown;
    BlankGood(t);
    BlankTidy(v, Blanked(st));
  }

  lemma UnsavedTrim(t: Facts, v: Levels, st: State)
    requires Trim(t, v, st)
    ensures Trim(t, v, st.(unsaved := Grown([])))
  {
    hide Good, Tidy, Grown;
    BlankUnsaved(t, st.saved, st.unsaved);
    BlankUnsavedTidy(v, st);
  }

  lemma ApiMkTidy(w: World, d: seq<Desc>, t: Facts, v: Levels, p: Problem, st: State, flags: Api, tl: nat, bless: bool,
                  fuel: nat)
    requires FactsOf(w, d, t) && LevelsOf(w, v) && NeverSet(v.hard) && Trim(t, v, st)
    requires ApiMk(w, d, p, st, flags, tl, bless, fuel).Some?
    ensures Trim(t, v, ApiMk(w, d, p, st, flags, tl, bless, fuel).value.st)
  {
    hide FactsOf, LevelsOf, NeverSet, Trim, Plan0, ForceEstimator, Blanked;
    Plan0Tidy(w, d, t, v, p, st, flags, tl, bless, Normal, fuel);
    var r := Plan0(w, d, p, st, flags, tl, bless, Normal, fuel).value;
    if r.st.wisdom == Normal && r.pln.None? {
      Plan0Tidy(w, d, t, v, p, r.st, ForceEstimator(flags), tl, bless, IgnoreInfeasible, fuel);
    }
    var b := PlanTwice(w, d, p, st, flags, tl, bless, fuel).value.st;
    if b.wisdom == Bogus {
      BlankedTrim(t, v, b);
      Plan0Tidy(w, d, t, v, p, Blanked(b), flags, tl, bless, Normal, fuel);
      var c := Plan0(w, d, p, Blanked(b), flags, tl, bless, Normal, fuel).value.st;
      if c.wisdom == Bogus {
        BlankedTrim(t, v, c);
        Plan0Tidy(w, d, t, v, p, Blanked(c), ForceEstimator(flags), tl, bless, IgnoreAll, fuel);
      }
    }
  }

  lemma {:induction false} PatientlyTidy(w: World, d: seq<Desc>, t: Facts, v: Levels, p: Problem, g: Progress,
                                         flags: Api, tl: nat,
                                         pat: nat, fuel: nat)
    requires FactsOf(w, d, t) && LevelsOf(w, v) && NeverSet(v.hard) && Trim(t, v, g.st)
    requires Patiently(w, d, p, g, flags, tl, pat, fuel).Some?
    ensures Trim(t, v, Patiently(w, d, p, g, flags, tl, pat, fuel).value.st)
    decreases 4 - pat
  {
    hide FactsOf, LevelsOf, NeverSet, Trim, ApiMk, WithPat, PatMax;
    if pat <= PatMax(flags) {
      ApiMkTidy(w, d, t, v, p, g.st, WithPat(flags, pat), tl, false, fuel);
      var r := ApiMk(w, d, p, g.st, WithPat(flags, pat), tl, false, fuel).value;
      if r.pln.Some? {
        PatientlyTidy(w, d, t, v, p, Progress(r.pln, WithPat(flags, pat), r.st), flags, tl, pat + 1, fuel);
      }
    }
  }

  /** mkapiplan keeps the saved table an antichain. */
  lemma ApiPlannedTidy(w: World, d: seq<Desc>, t: Facts, v: Levels, p: Problem, st: State, flags: Api, timed: bool,
                       tl: nat, fuel: nat)
    requires FactsOf(w, d, t) && LevelsOf(w, v) && NeverSet(v.hard) && Trim(t, v, st)
    requires ApiPlanned(w, d, p, st, flags, timed, tl, fuel).Some?
    ensures Trim(t, v, ApiPlanned(w, d, p, st, flags, timed, tl, fuel).value.st)
  {
    hide FactsOf, LevelsOf, NeverSet, Trim, ApiMk, Plan0, Patiently, HasFlag, PatMax, Grown;
    if HasFlag(flags, FFTW_WISDOM_ONLY) {
      Plan0Tidy(w, d, t, v, p, st, flags, tl, false, Only, fuel);
    } else {
      PatientlyTidy(w, d, t, v, p, Progress(None, 0, st), flags, tl, if timed then 0 else PatMax(flags), fuel);
    }
    var g := FirstPlan(w, d, p, st, flags, timed, tl, fuel).value;
    UnsavedTrim(t, v, g.st);
    if g.pln.Some? {
      ApiMkTidy(w, d, t, v, p, g.st, g.used, tl, true, fuel);
      UnsavedTrim(t, v, ApiMk(w, d, p, g.st, g.used, tl, true, fuel).value.st);
    }
  }

  ghost predicate PlainImport(v: Levels, u: Use) {
    u.Import? ==> AllAgree(v.hard, Lines(u.lines))
  }

  /** So over every life of a program what is saved is what is read back. */
  lemma {:induction false} UsesTransfer(w: World, d: seq<Desc>, t: Facts, v: Levels, uses: seq<Use>, fuel: nat)
    requires FactsOf(w, d, t) && LevelsOf(w, v) && NeverSet(v.hard) && AfterUses(w, d, uses, fuel).Some?
    requires forall i :: 0 <= i < |uses| ==> TrueImport(t, uses[i]) && PlainImport(v, uses[i])
    ensures var st := AfterUses(w, d, uses, fuel).value;
            Trim(t, v, st) && Learned({}, {}, LiveEntries(st.saved)) == Contents(st.saved)
  {
    hide FactsOf, LevelsOf, NeverSet, Good, Tidy, ApiPlanned, TaughtAll, Grown, AllTrue, AllAgree, Learned, LiveEntries,
         Contents;
    if uses == [] {
      BlankedTrim(t, v, Newborn());
    } else {
      var n := |uses| - 1;
      UsesTransfer(w, d, t, v, uses[..n], fuel);
      var st := AfterUses(w, d, uses[..n], fuel).value;
      assert TrueImport(t, uses[n]) && PlainImport(v, uses[n]);
      match uses[n]
      case MakePlan(p, flags, timed, tl) => ApiPlannedTidy(w, d, t, v, p, st, flags, timed, tl, fuel);
      case Import(lines) =>
        FactsEasier(w, d, t);
        TaughtGood(t, st, lines);
        TaughtTidy(t, v, st, lines);
      case Threads(k) => SameTidy(v, st, st.(nthr := k));
      case Cleanup => BlankedTrim(t, v, st);
    }
    TidyTransfers(t, v, AfterUses(w, d, uses, fuel).value);
  }
}
