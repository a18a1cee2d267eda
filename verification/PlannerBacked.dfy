/** kernel/planner.c: stored plans and what they are made of. A plan is recalled by running its solver again, with the
    flags stored, where every question must be answered from what is stored; a question that is not makes the wisdom
    bogus. A table is backed when that cannot happen. */
module PlannerBacked {
  import opened Subsumption
  import opened HashTable
  import opened Options
  import opened Registry
  import opened SearchTrace
  import opened PlannerRules
  import opened PlannerRuns
  import opened PlannerTheory
  import opened PlannerTruth

  // ---- Solvers ----

  ghost predicate SamePattern(a: seq<Option<Plan>>, b: seq<Option<Plan>>) {
    |a| == |b| && forall i :: 0 <= i < |a| ==> (a[i].Some? <==> b[i].Some?)
  }

  ghost predicate SameMove(a: Action, b: Action) {
    a.Ask? || b.Ask? ==> a == b
  }

  /** Signatures tell problems and thread counts apart, and what a solver asks depends on which answers were plans, but
      not on the plans. */
  ghost predicate Settled(w: World) {
    && (forall p, n, q, m :: w.hash(p, n) == w.hash(q, m) ==> p == q && n == m)
    && (forall s, p, f, n, a, b :: SamePattern(a, b) ==> SameMove(w.act(s, p, f, n, a), w.act(s, p, f, n, b)))
  }

  ghost function RankOf(w: World, rank: (Problem, Mask) -> nat, sig: Sig, x: Mask): nat {
    if exists p, n :: w.hash(p, n) == sig then
      var p, n :| w.hash(p, n) == sig;
      rank(p, x)
    else 0
  }

  /** Then every rank of questions can be read from their signatures. */
  lemma RanksFromSignatures(w: World, rank: (Problem, Mask) -> nat, p: Problem, n: nat, x: Mask)
    requires Settled(w)
    ensures RankOf(w, rank, w.hash(p, n), x) == rank(p, x)
  {
    hide SamePattern, SameMove;
  }

  ghost predicate AllPlans(answers: seq<Option<Plan>>) {
    forall i :: 0 <= i < |answers| ==> answers[i].Some?
  }

  ghost predicate NeedsAll(w: World, t: Facts, p: Problem, f: Flags, n: nat, s: nat) {
    forall answers, pln :: Informed(w, t, p, f, n, s, answers) && Ends(w, p, f, n, s, answers, pln) && pln.Some? ==>
      AllPlans(answers)
  }

  /** A solver returns a plan only if every answer was one. */
  ghost predicate Strict(w: World, t: Facts) {
    forall s, p, f, n :: NeedsAll(w, t, p, f, n, s)
  }

  // ---- Backed answers ----

  /** Having been answered so, the solver returns, or asks what K answers. */
  ghost predicate NextKnown(w: World, p: Problem, f: Flags, n: nat, s: nat, answers: seq<Option<Plan>>, K: set<Entry>) {
    var now := Spoken(w, p, f, n, s, answers);
    now.Some? ==> MoveKnown(w, f, w.act(s, p, f, now.value, answers), K)
  }

  ghost predicate MoveKnown(w: World, f: Flags, a: Action, K: set<Entry>) {
    a.Ask? ==> Answerable(K, w.hash(a.sub, a.threads), Changed(f, a.lSet, a.uSet, a.uReset))
  }

  /** Told the facts, the solver only asks what K answers. */
  ghost predicate QuestionsKnown(w: World, t: Facts, p: Problem, f: Flags, n: nat, s: nat, K: set<Entry>) {
    forall answers :: Informed(w, t, p, f, n, s, answers) ==> NextKnown(w, p, f, n, s, answers, K)
  }

  /** The solver makes a plan of what K answers. */
  ghost predicate Ready(w: World, d: seq<Desc>, t: Facts, p: Problem, f: Flags, n: nat, s: nat, K: set<Entry>) {
    Suits(d, p, s) && t.does(s, w.hash(p, n), f.l) && QuestionsKnown(w, t, p, f, n, s, K)
  }

  ghost predicate EntryBacked(w: World, d: seq<Desc>, t: Facts, e: Entry, K: set<Entry>) {
    e.answer.verdict.Solver? ==>
      forall p, n :: w.hash(p, n) == e.sig ==> Ready(w, d, t, p, e.answer.flags, n, e.answer.verdict.index, K)
  }

  ghost predicate Backed(w: World, d: seq<Desc>, t: Facts, S: set<Entry>, K: set<Entry>) {
    forall e :: e in S ==> EntryBacked(w, d, t, e, K)
  }

  lemma ReadyGrows(w: World, d: seq<Desc>, t: Facts, p: Problem, f: Flags, n: nat, s: nat, K: set<Entry>, L: set<Entry>)
    requires Ready(w, d, t, p, f, n, s, K) && Remembers(K, L) && Asked(f)
    ensures Ready(w, d, t, p, f, n, s, L)
  {
    KnownGrows(w, t, p, f, n, s, K, L);
  }

  lemma KnownGrows(w: World, t: Facts, p: Problem, f: Flags, n: nat, s: nat, K: set<Entry>, L: set<Entry>)
    requires QuestionsKnown(w, t, p, f, n, s, K) && Remembers(K, L) && Asked(f)
    ensures QuestionsKnown(w, t, p, f, n, s, L)
  {
    hide Informed, NextKnown, Remembers;
    forall answers | Informed(w, t, p, f, n, s, answers) ensures NextKnown(w, p, f, n, s, answers, L) {
      NextGrows(w, p, f, n, s, answers, K, L);
    }
  }

  lemma NextGrows(w: World, p: Problem, f: Flags, n: nat, s: nat, answers: seq<Option<Plan>>, K: set<Entry>,
    L: set<Entry>)
    requires NextKnown(w, p, f, n, s, answers, K) && Remembers(K, L) && Asked(f)
    ensures NextKnown(w, p, f, n, s, answers, L)
  {
    hide Spoken, Answerable, Asked, Changed;
    var now := Spoken(w, p, f, n, s, answers);
    if now.Some? {
      var a := w.act(s, p, f, now.value, answers);
      if a.Ask? { ChangedAsked(f, a.lSet, a.uSet, a.uReset); }
    }
  }

  lemma BackedGrows(w: World, d: seq<Desc>, t: Facts, S: set<Entry>, K: set<Entry>, T: set<Entry>, L: set<Entry>)
    requires Backed(w, d, t, S, K) && AllTrue(t, S) && Remembers(K, L)
    requires forall e :: e in T ==> e in S || EntryBacked(w, d, t, e, L)
    ensures Backed(w, d, t, T, L)
  {
    hide Ready, Remembers, IsTrue;
    forall e | e in T ensures EntryBacked(w, d, t, e, L) {
      if e in S && e.answer.verdict.Solver? {
        TrueAsked(t, e);
        forall p, n | w.hash(p, n) == e.sig ensures Ready(w, d, t, p, e.answer.flags, n, e.answer.verdict.index, L) {
          ReadyGrows(w, d, t, p, e.answer.flags, n, e.answer.verdict.index, K, L);
        }
      }
    }
  }

  lemma ReadyIsBacked(w: World, d: seq<Desc>, t: Facts, p: Problem, f: Flags, n: nat, s: nat, K: set<Entry>)
    requires Settled(w) && Ready(w, d, t, p, f, n, s, K)
    ensures EntryBacked(w, d, t, Entry(w.hash(p, n), Answer(f, Solver(s))), K)
  {
    hide Ready, SameMove;
  }

  // ---- One dialogue stands for all ----

  /** The questions asked so far, or at least those answered by plans, are answered by K. */
  ghost predicate Noticed(w: World, p: Problem, f: Flags, n: nat, s: nat, answers: seq<Option<Plan>>, K: set<Entry>,
    all: bool) {
    answers == [] ||
      var before := answers[..|answers| - 1];
      Noticed(w, p, f, n, s, before, K, all) && (all || answers[|answers| - 1].Some? ==> NextKnown(w, p, f, n, s,
        before, K))
  }

  lemma {:induction false} NoticedGrows(w: World, p: Problem, f: Flags, n: nat, s: nat, answers: seq<Option<Plan>>,
    K: set<Entry>,
                                        L: set<Entry>, all: bool)
    requires Noticed(w, p, f, n, s, answers, K, all) && Remembers(K, L) && Asked(f)
    ensures Noticed(w, p, f, n, s, answers, L, all)
  {
    hide Remembers, NextKnown;
    if answers != [] {
      var before := answers[..|answers| - 1];
      NoticedGrows(w, p, f, n, s, before, K, L, all);
      if all || answers[|answers| - 1].Some? { NextGrows(w, p, f, n, s, before, K, L); }
    }
  }

  lemma {:induction false} NoticedAt(w: World, p: Problem, f: Flags, n: nat, s: nat, answers: seq<Option<Plan>>,
    K: set<Entry>,
                                     all: bool, k: nat)
    requires Noticed(w, p, f, n, s, answers, K, all) && k < |answers| && (all || AllPlans(answers))
    ensures NextKnown(w, p, f, n, s, answers[..k], K)
  {
    hide NextKnown;
    var before := answers[..|answers| - 1];
    if k < |before| {
      assert before[..k] == answers[..k];
      NoticedAt(w, p, f, n, s, before, K, all, k);
    }
  }

  /** Every question on the way was asked, and answered as the facts say. */
  lemma {:induction false} InformedAt(w: World, t: Facts, p: Problem, f: Flags, n: nat, s: nat,
    answers: seq<Option<Plan>>, k: nat)
    requires Informed(w, t, p, f, n, s, answers) && k < |answers|
    ensures Informed(w, t, p, f, n, s, answers[..k]) && Spoken(w, p, f, n, s, answers[..k]).Some?
    ensures ToldSo(w, t, f, w.act(s, p, f, Spoken(w, p, f, n, s, answers[..k]).value, answers[..k]), answers[k])
  {
    hide Spoken, ToldSo;
    var before := answers[..|answers| - 1];
    if k < |before| {
      assert before[..k] == answers[..k];
      InformedAt(w, t, p, f, n, s, before, k);
    } else {
      assert before == answers[..k];
    }
  }

  /** Told the facts, a solver is told them in one way only, but for the plans. */
  lemma {:induction false} InformedAlike(w: World, t: Facts, p: Problem, f: Flags, n: nat, s: nat, a: seq<Option<Plan>>,
                                         b: seq<Option<Plan>>)
    requires Settled(w) && Informed(w, t, p, f, n, s, a) && Informed(w, t, p, f, n, s, b) && |a| == |b|
    ensures SamePattern(a, b) && Spoken(w, p, f, n, s, a) == Spoken(w, p, f, n, s, b)
  {
    if a != [] {
      var a0, b0 := a[..|a| - 1], b[..|b| - 1];
      InformedAlike(w, t, p, f, n, s, a0, b0);
      var now := Spoken(w, p, f, n, s, a0).value;
      assert SameMove(w.act(s, p, f, now, a0), w.act(s, p, f, now, b0));
      hide Settled, Changed;
      forall i | 0 <= i < |a| ensures a[i].Some? <==> b[i].Some? {
        if i < |a0| { assert a[i] == a0[i] && b[i] == b0[i]; }
      }
    }
  }

  /** When one dialogue has ended, its questions are all there are. */
  lemma EndedKnown(w: World, t: Facts, p: Problem, f: Flags, n: nat, s: nat, answers: seq<Option<Plan>>,
    pln: Option<Plan>,
                   K: set<Entry>, all: bool)
    requires Settled(w) && Informed(w, t, p, f, n, s, answers) && Ends(w, p, f, n, s, answers, pln)
    requires Noticed(w, p, f, n, s, answers, K, all) && (all || AllPlans(answers))
    ensures QuestionsKnown(w, t, p, f, n, s, K)
  {
    hide Spoken, Informed, Noticed, Answerable;
    forall b | Informed(w, t, p, f, n, s, b) ensures NextKnown(w, p, f, n, s, b, K) {
      NoLonger(w, t, p, f, n, s, answers, pln, b);
      if |b| < |answers| {
        InformedAt(w, t, p, f, n, s, answers, |b|);
        NoticedAt(w, p, f, n, s, answers, K, all, |b|);
        NextAlike(w, t, p, f, n, s, answers[..|b|], b, K);
      } else {
        NextAlike(w, t, p, f, n, s, answers, b, K);
      }
    }
  }

  lemma NextAlike(w: World, t: Facts, p: Problem, f: Flags, n: nat, s: nat, a: seq<Option<Plan>>,
    b: seq<Option<Plan>>, K: set<Entry>)
    requires Settled(w) && Informed(w, t, p, f, n, s, a) && Informed(w, t, p, f, n, s, b) && |a| == |b|
    requires NextKnown(w, p, f, n, s, a, K)
    ensures NextKnown(w, p, f, n, s, b, K)
  {
    hide Spoken, Informed, Answerable;
    InformedAlike(w, t, p, f, n, s, a, b);
    var now := Spoken(w, p, f, n, s, a);
    if now.Some? {
      assert SameMove(w.act(s, p, f, now.value, a), w.act(s, p, f, now.value, b));
    }
  }

  lemma NoLonger(w: World, t: Facts, p: Problem, f: Flags, n: nat, s: nat, answers: seq<Option<Plan>>,
    pln: Option<Plan>,
                 b: seq<Option<Plan>>)
    requires Settled(w) && Informed(w, t, p, f, n, s, answers) && Ends(w, p, f, n, s, answers, pln) && Informed(w, t,
      p, f, n, s, b)
    ensures |b| <= |answers|
  {
    hide Spoken, Informed;
    var k := |answers|;
    if |b| > k {
      InformedAt(w, t, p, f, n, s, b, k);
      EndsAlike(w, t, p, f, n, s, answers, b[..k], pln);
    }
  }

  lemma EndsAlike(w: World, t: Facts, p: Problem, f: Flags, n: nat, s: nat, a: seq<Option<Plan>>, b: seq<Option<Plan>>,
                  pln: Option<Plan>)
    requires Settled(w) && Informed(w, t, p, f, n, s, a) && Informed(w, t, p, f, n, s, b) && |a| == |b| && Ends(w, p,
      f, n, s, a, pln)
    ensures var now := Spoken(w, p, f, n, s, b); now.Some? && !w.act(s, p, f, now.value, b).Ask?
  {
    hide Spoken, Informed;
    InformedAlike(w, t, p, f, n, s, a, b);
    var now := Spoken(w, p, f, n, s, a).value;
    assert SameMove(w.act(s, p, f, now, a), w.act(s, p, f, now, b));
  }
}
