/** api/apiplan.c: which calls of the planner the interface makes, with which flags. */
module ApiCalls {
  import opened Subsumption
  import opened HashTable
  import opened Options
  import opened Registry
  import opened SearchTrace
  import opened PlannerRules
  import opened PlannerRuns
  import opened ApiFlags
  import opened ApiPlan

  // ---- The attempts of mkplan ----

  /** The attempts, one after another: as asked for; if that finds nothing, with the estimator and without records of
      infeasibility; if wisdom is bogus, everything forgotten, as asked for; if it is bogus again, everything forgotten, with
      the estimator and without wisdom. Whatever the solvers do, the last is never bogus, and nor is the whole. */
  lemma MkAttempts(w: World, d: seq<Desc>, p: Problem, st: State, flags: Api, t: nat, bless: bool, fuel: nat)
    requires ApiMk(w, d, p, st, flags, t, bless, fuel).Some?
    ensures var o := ApiMk(w, d, p, st, flags, t, bless, fuel).value;
            var asked, easy := PlannerFlags(flags, t), PlannerFlags((flags & !0x28) | 0x40, t);
            var r1 := RunMk(w, d, p, st.(flags := asked, bless := bless, wisdom := Normal), fuel);
            && r1.Some?
            && var retry := r1.value.pln.None? && r1.value.st.wisdom == Normal;
               var r2 := RunMk(w, d, p, r1.value.st.(flags := easy, bless := bless, wisdom := IgnoreInfeasible), fuel);
            && (retry ==> r2.Some?)
            && var o2 := if retry then r2.value else r1.value;
            && (o2.st.wisdom != Bogus ==> o == o2)
            && (o2.st.wisdom == Bogus ==>
                  var r3 := RunMk(w, d, p, o2.st.(saved := Grown([]), unsaved := Grown([]), flags := asked, bless := bless,
                                                  wisdom := Normal), fuel);
                  && r3.Some?
                  && (r3.value.st.wisdom != Bogus ==> o == r3.value)
                  && (r3.value.st.wisdom == Bogus ==>
                        Some(o) == RunMk(w, d, p, r3.value.st.(saved := Grown([]), unsaved := Grown([]), flags := easy,
                                                               bless := bless, wisdom := IgnoreAll), fuel)
                        && o.st.saved == o.st.unsaved == Grown([]) && o.st.wisdom == IgnoreAll))
            && o.st.wisdom != Bogus
  {
    hide RunMk, PlannerFlags, Grown;
    EstimatorForced(flags);
    var a := st.(flags := PlannerFlags(flags, t), bless := bless, wisdom := Normal);
    var b := PlanTwice(w, d, p, st, flags, t, bless, fuel).value.st;
    if b.wisdom == Bogus {
      var c := Plan0(w, d, p, Blanked(b), flags, t, bless, Normal, fuel).value.st;
      if c.wisdom == Bogus {
        var e := Blanked(c).(flags := PlannerFlags(ForceEstimator(flags), t), bless := bless, wisdom := IgnoreAll);
        NoWisdomMk(w, d, p, e, fuel);
        KeepsMk(w, d, p, e, fuel);
      }
    }
  }

  lemma EstimatorForced(flags: Api)
    ensures ForceEstimator(flags) == (flags & !0x28) | 0x40
  {}

  // ---- The patience of mkapiplan ----

  /** The flags of FFTW_ESTIMATE, FFTW_MEASURE, FFTW_PATIENT and FFTW_EXHAUSTIVE. */
  function PatBits(k: nat): Api {
    if k == 0 then 0x40 else if k == 1 then 0 else if k == 2 then 0x20 else 0x8
  }

  /** The flags with exactly this patience. */
  function PatientFlags(flags: Api, k: nat): Api {
    (flags & !0x68) | PatBits(k)
  }

  lemma SamePatience()
    ensures PATIENCE == 0x68
  {}

  lemma SameWord(flags: Api, x: Api, y: Api, a: Api, b: Api)
    requires x == y && a == b
    ensures (flags & !x) | a == (flags & !y) | b
  {}

  lemma WithPatWord(flags: Api, k: nat)
    requires k < 4
    ensures WithPat(flags, k) == PatientFlags(flags, k)
  {
    hide WithPat, PatientFlags, PatBits;
    SamePatience();
    WithPatIs(flags, k);
    PatsBits(k);
    SameWord(flags, PATIENCE, 0x68, Pats()[k], PatBits(k));
    PatientFlagsIs(flags, k);
  }

  lemma PatsBits(k: nat)
    requires k < 4
    ensures Pats()[k] == PatBits(k)
  {}

  lemma PatientFlagsIs(flags: Api, k: nat)
    ensures PatientFlags(flags, k) == (flags & !0x68) | PatBits(k)
  {}

  /** The greatest patience asked for, but the estimator takes precedence. */
  ghost predicate Most(flags: Api, k: nat) {
    && (k == 0 <==> flags & 0x40 != 0)
    && (k == 3 <==> flags & 0x40 == 0 && flags & 0x8 != 0)
    && (k == 2 <==> flags & 0x40 == 0 && flags & 0x8 == 0 && flags & 0x20 != 0)
    && (k == 1 <==> flags & 0x40 == 0 && flags & 0x8 == 0 && flags & 0x20 == 0)
  }

  lemma PatMaxIs(flags: Api)
    ensures Most(flags, PatMax(flags))
  {}

  /** A first plan is planned again, to be saved, and then what is not saved is forgotten; without one nothing is. */
  ghost predicate Concluded(w: World, d: seq<Desc>, p: Problem, first: Option<Plan>, st: State, used: Api, t: nat, fuel: nat, m: Made) {
    if first.None? then m == Nothing(st.(unsaved := Grown([])))
    else
      var again := ApiMk(w, d, p, st, used, t, true, fuel);
      again.Some? && m == Made(first.value, again.value.pln, again.value.st.(unsaved := Grown([])))
  }

  /** Without a time limit the first plan is that of one call, with the greatest patience asked for and no other; and what is
      saved is planned with the same flags. */
  lemma UntimedPlan(w: World, d: seq<Desc>, p: Problem, st: State, flags: Api, t: nat, fuel: nat) returns (k: nat)
    requires !HasFlag(flags, FFTW_WISDOM_ONLY) && ApiPlanned(w, d, p, st, flags, false, t, fuel).Some?
    ensures var m := ApiPlanned(w, d, p, st, flags, false, t, fuel).value;
            var r := ApiMk(w, d, p, st, PatientFlags(flags, k), t, false, fuel);
            && Most(flags, k) && r.Some?
            && Concluded(w, d, p, r.value.pln, r.value.st, PatientFlags(flags, k), t, fuel, m)
  {
    hide ApiMk, Grown, WithPat, PatMax, HasFlag, PatientFlags, Most;
    k := PatMax(flags);
    PatMaxIs(flags);
    WithPatWord(flags, k);
    OnceOnly(w, d, p, st, flags, t, fuel);
  }

  /** The loop starts with the greatest patience and ends there. */
  lemma OnceOnly(w: World, d: seq<Desc>, p: Problem, st: State, flags: Api, t: nat, fuel: nat)
    requires Patiently(w, d, p, Progress(None, 0, st), flags, t, PatMax(flags), fuel).Some?
    ensures var g := Patiently(w, d, p, Progress(None, 0, st), flags, t, PatMax(flags), fuel).value;
            var r := ApiMk(w, d, p, st, WithPat(flags, PatMax(flags)), t, false, fuel);
            && r.Some? && g.pln == r.value.pln && g.st == r.value.st && (g.pln.Some? ==> g.used == WithPat(flags, PatMax(flags)))
  {
    hide ApiMk, WithPat, PatMax;
    var r := ApiMk(w, d, p, st, WithPat(flags, PatMax(flags)), t, false, fuel).value;
    var g := Progress(r.pln, WithPat(flags, PatMax(flags)), r.st);
    assert Patiently(w, d, p, g, flags, t, PatMax(flags) + 1, fuel) == Some(g);
  }

  /** Call i of a timed sequence of calls, with patience i. */
  ghost predicate CallAt(w: World, d: seq<Desc>, p: Problem, st: State, flags: Api, t: nat, fuel: nat, calls: seq<Outcome>, i: nat)
    requires i < |calls|
  {
    ApiMk(w, d, p, if i == 0 then st else calls[i - 1].st, PatientFlags(flags, i), t, false, fuel) == Some(calls[i])
  }

  /** The calls from the first patience on, as far as they give plans. */
  ghost predicate Calls(w: World, d: seq<Desc>, p: Problem, st: State, flags: Api, t: nat, fuel: nat, most: nat, calls: seq<Outcome>) {
    && |calls| <= most + 1 <= 4
    && (forall i: nat :: i < |calls| ==> CallAt(w, d, p, st, flags, t, fuel, calls, i))
    && (forall i :: 0 <= i < |calls| - 1 ==> calls[i].pln.Some?)
  }

  lemma {:induction false} PatientCalls(w: World, d: seq<Desc>, p: Problem, st: State, g: Progress, flags: Api, t: nat,
                                        fuel: nat,
                                        before: seq<Outcome>) returns (calls: seq<Outcome>)
    requires Calls(w, d, p, st, flags, t, fuel, PatMax(flags), before)
    requires forall i :: 0 <= i < |before| ==> before[i].pln.Some?
    requires g == if before == [] then Progress(None, 0, st)
                  else Progress(before[|before| - 1].pln, PatientFlags(flags, |before| - 1), before[|before| - 1].st)
    requires Patiently(w, d, p, g, flags, t, |before|, fuel).Some?
    ensures Calls(w, d, p, st, flags, t, fuel, PatMax(flags), calls) && calls != []
    ensures LastOf(calls, flags, PatMax(flags), Patiently(w, d, p, g, flags, t, |before|, fuel).value)
    decreases 4 - |before|
  {
    hide ApiMk, WithPat, PatMax, PatientFlags;
    var pat := |before|;
    if pat > PatMax(flags) {
      calls := before;
    } else {
      WithPatWord(flags, pat);
      var r := ApiMk(w, d, p, g.st, WithPat(flags, pat), t, false, fuel).value;
      calls := before + [r];
      forall i: nat | i < |calls| ensures CallAt(w, d, p, st, flags, t, fuel, calls, i) {
        if i < pat { assert CallAt(w, d, p, st, flags, t, fuel, before, i); }
      }
      if r.pln.Some? {
        calls := PatientCalls(w, d, p, st, Progress(r.pln, WithPat(flags, pat), r.st), flags, t, fuel, calls);
      }
    }
  }

  /** The plan of the last call that gave one, with its flags, and the state after the last call. */
  ghost predicate LastOf(calls: seq<Outcome>, flags: Api, most: nat, g: Progress) {
    && 0 < |calls| <= 4
    && g.st == calls[|calls| - 1].st
    && if calls[|calls| - 1].pln.Some? then
         |calls| == most + 1 && g.pln == calls[|calls| - 1].pln && g.used == PatientFlags(flags, |calls| - 1)
       else if |calls| == 1 then g.pln.None?
       else g.pln == calls[|calls| - 2].pln && g.used == PatientFlags(flags, |calls| - 2)
  }

  /** With a time limit mkapiplan calls mkplan with increasing patience, from the estimator to the greatest patience asked for,
      as long as that gives plans; the first plan is that of the last call that gave one, and what is saved is planned with
      its flags. */
  lemma TimedPlan(w: World, d: seq<Desc>, p: Problem, st: State, flags: Api, t: nat, fuel: nat)
    returns (most: nat, calls: seq<Outcome>)
    requires !HasFlag(flags, FFTW_WISDOM_ONLY) && ApiPlanned(w, d, p, st, flags, true, t, fuel).Some?
    ensures var m, n := ApiPlanned(w, d, p, st, flags, true, t, fuel).value, |calls|;
            && Most(flags, most) && n > 0 && Calls(w, d, p, st, flags, t, fuel, most, calls)
            && (n < most + 1 ==> calls[n - 1].pln.None?)
            && var k := if n == 1 || calls[n - 1].pln.Some? then n - 1 else n - 2;
               Concluded(w, d, p, calls[k].pln, calls[n - 1].st, PatientFlags(flags, k), t, fuel, m)
  {
    hide ApiMk, Grown, PatMax, HasFlag, PatientFlags, CallAt, Patiently, Most;
    most := PatMax(flags);
    PatMaxIs(flags);
    calls := PatientCalls(w, d, p, st, Progress(None, 0, st), flags, t, fuel, []);
  }

  /** From wisdom only, one call of the planner is made, with the flags as they are, and then the same is done. */
  lemma FromWisdomOnly(w: World, d: seq<Desc>, p: Problem, st: State, flags: Api, timed: bool, t: nat, fuel: nat)
    requires flags & 0x200000 != 0 && ApiPlanned(w, d, p, st, flags, timed, t, fuel).Some?
    ensures var m := ApiPlanned(w, d, p, st, flags, timed, t, fuel).value;
            var r := RunMk(w, d, p, st.(flags := PlannerFlags(flags, t), bless := false, wisdom := Only), fuel);
            r.Some? && Concluded(w, d, p, r.value.pln, r.value.st, flags, t, fuel, m)
  {
    hide ApiMk, Grown, RunMk, PlannerFlags;
    assert HasFlag(flags, FFTW_WISDOM_ONLY);
  }
}
