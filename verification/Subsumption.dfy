/** kernel/planner.c: the interval of impatience flags a solution answers for, and subsumption. */
module Subsumption {
  /** A set of impatience flags, in the 20 bits the planner stores. */
  type Mask = bv20

  const NO_FLAGS: Mask := 0
  const ALL_FLAGS: Mask := 0xFFFFF

  /** x is no more impatient than y: every flag of x is in y. */
  predicate Leq(x: Mask, y: Mask) {
    x & y == x
  }

  lemma LeqOrder(x: Mask, y: Mask, z: Mask)
    ensures Leq(x, x) && Leq(NO_FLAGS, x) && Leq(x, ALL_FLAGS)
    ensures Leq(x, y) && Leq(y, x) ==> x == y
    ensures Leq(x, y) && Leq(y, z) ==> Leq(x, z)
  {
    AndUnits(x);
    AndSwap(x, y);
    if x & y == x && y & z == y {
      AndAssoc(x, y, z);
    }
  }

  lemma AndUnits(x: Mask)
    ensures x & x == x && NO_FLAGS & x == NO_FLAGS && x & ALL_FLAGS == x
  {}

  lemma AndSwap(x: Mask, y: Mask)
    ensures x & y == y & x
  {}

  lemma AndAssoc(x: Mask, y: Mask, z: Mask)
    ensures (x & y) & z == x & (y & z)
  {}

  /** The flags of a query or a solution: the least and the greatest impatience, and the time limit in force. */
  datatype Flags = Flags(l: Mask, u: Mask, timelimit: nat)

  /** The solver of a solution, or the record that no solver is applicable. */
  datatype Verdict = Solver(index: nat) | Infeasible

  /** What one lookup key maps to. */
  datatype Answer = Answer(flags: Flags, verdict: Verdict)

  /** a answers every question asked with the flags b. */
  predicate Subsumes(a: Answer, b: Flags) {
    if a.verdict.Solver? then
      Leq(a.flags.u, b.u) && Leq(b.l, a.flags.l)
    else
      Leq(a.flags.l, b.l) && a.flags.timelimit <= b.timelimit
  }

  /** What can be done at some impatience can be done at less. */
  ghost predicate Downward(can: Mask -> bool) {
    forall x, y :: Leq(x, y) && can(y) ==> can(x)
  }

  /** The answer is true. */
  ghost predicate TrueOf(can: Mask -> bool, a: Answer) {
    can(a.flags.l) <==> a.verdict.Solver?
  }

  /** Wherever the answer is true, the question has that answer. */
  ghost predicate Settles(a: Answer, q: Flags) {
    forall can: Mask -> bool :: Downward(can) && TrueOf(can, a) ==> (can(q.l) <==> a.verdict.Solver?)
  }

  /** Subsumption is the widest sound use of an answer: one that is true anywhere where less impatience does not hinder
      answers a question exactly if it settles it wherever it is true, and a plan was not made more impatiently than the
      question allows, and a failure not under a stricter time limit. */
  lemma SubsumesWidest(a: Answer, q: Flags)
    ensures Subsumes(a, q) <==>
            && Settles(a, q)
            && (a.verdict.Solver? ==> a.flags.u & !q.u == 0)
            && (a.verdict.Infeasible? ==> a.flags.timelimit <= q.timelimit)
  {
    hide Leq;
    NoOther(a.flags.u, q.u);
    if Settles(a, q) {
      SettlesUp(a, q);
    }
  }

  lemma NoOther(x: Mask, y: Mask)
    ensures Leq(x, y) <==> x & !y == 0
  {}

  lemma SettlesUp(a: Answer, q: Flags)
    requires Settles(a, q)
    ensures if a.verdict.Solver? then Leq(q.l, a.flags.l) else Leq(a.flags.l, q.l)
  {
    hide Leq;
    var x := a.flags.l;
    LeqOrder(x, x, x);
    var can := if a.verdict.Solver? then (y: Mask) => Leq(y, x) else (y: Mask) => !Leq(x, y);
    forall y, z | Leq(y, z) && can(z) ensures can(y) {
      LeqOrder(y, z, x);
      LeqOrder(x, y, z);
    }
    assert Downward(can) && TrueOf(can, a);
  }

  /** A solution with a solver never records a time limit. */
  ghost predicate Canonical(a: Answer) {
    a.verdict.Solver? ==> a.flags.timelimit == 0
  }

  /** The planner only asks with flags l <= u. */
  ghost predicate Asked(q: Flags) {
    Leq(q.l, q.u)
  }

  lemma SubsumesItself(a: Answer)
    ensures Subsumes(a, a.flags)
  {
    LeqOrder(a.flags.l, a.flags.l, a.flags.l);
    LeqOrder(a.flags.u, a.flags.u, a.flags.u);
  }

  /** Among answers of the same feasibility, subsumption is transitive. */
  lemma SubsumesTransitive(a: Answer, b: Answer, q: Flags)
    requires Subsumes(a, b.flags) && Subsumes(b, q) && a.verdict.Solver? == b.verdict.Solver?
    ensures Subsumes(a, q)
  {
    hide Leq;
    LeqOrder(a.flags.u, b.flags.u, q.u);
    LeqOrder(q.l, b.flags.l, a.flags.l);
    LeqOrder(a.flags.l, b.flags.l, q.l);
  }

  /** Every question b answers, a answers. */
  ghost predicate Covers(a: Answer, b: Answer) {
    forall q :: Asked(q) && Subsumes(b, q) ==> Subsumes(a, q)
  }

  /** Replacing b by an answer that subsumes it is harmless exactly when the two agree on feasibility,
      or the feasible answer takes over a record of infeasibility at full impatience,
      or the infeasible one takes over at no impatience at all. */
  lemma ReplacementIsHarmless(a: Answer, b: Answer)
    requires Subsumes(a, b.flags) && Canonical(a) && Canonical(b) && Asked(a.flags) && Asked(b.flags)
    ensures Covers(a, b) <==>
            || a.verdict.Solver? == b.verdict.Solver?
            || (a.verdict.Solver? && b.flags.l == ALL_FLAGS)
            || (a.verdict.Infeasible? && a.flags.l == NO_FLAGS)
  {
    hide Leq, Subsumes;
    if a.verdict.Solver? == b.verdict.Solver? {
      forall q | Asked(q) && Subsumes(b, q) ensures Subsumes(a, q) { SubsumesTransitive(a, b, q); }
    } else if a.verdict.Solver? {
      FeasibleOverInfeasible(a, b);
    } else {
      InfeasibleOverFeasible(a, b);
    }
  }

  lemma FeasibleOverInfeasible(a: Answer, b: Answer)
    requires Subsumes(a, b.flags) && a.verdict.Solver? && b.verdict.Infeasible? && Asked(a.flags) && Asked(b.flags)
    ensures Covers(a, b) <==> b.flags.l == ALL_FLAGS
  {
    hide Leq;
    var l, u := b.flags.l, a.flags.u;
    LeqOrder(l, l, l);
    if Covers(a, b) {
      var q := Flags(l, l, b.flags.timelimit);
      assert Subsumes(b, q);
      assert Leq(u, l);
      var t := Flags(ALL_FLAGS, ALL_FLAGS, b.flags.timelimit);
      LeqOrder(l, ALL_FLAGS, l);
      LeqOrder(ALL_FLAGS, ALL_FLAGS, l);
      assert Subsumes(b, t) && Asked(t);
      assert Leq(ALL_FLAGS, a.flags.l);
      LeqOrder(ALL_FLAGS, a.flags.l, u);
      LeqOrder(ALL_FLAGS, u, l);
      LeqOrder(l, ALL_FLAGS, l);
    }
    if l == ALL_FLAGS {
      forall q | Asked(q) && Subsumes(b, q) ensures Subsumes(a, q) {
        LeqOrder(q.l, ALL_FLAGS, q.l);
        LeqOrder(a.flags.l, ALL_FLAGS, a.flags.l);
        LeqOrder(q.u, ALL_FLAGS, q.u);
        LeqOrder(ALL_FLAGS, q.l, q.u);
        LeqOrder(u, ALL_FLAGS, q.u);
      }
    }
  }

  lemma InfeasibleOverFeasible(a: Answer, b: Answer)
    requires Subsumes(a, b.flags) && a.verdict.Infeasible? && b.verdict.Solver? && Canonical(b)
    requires Asked(a.flags) && Asked(b.flags)
    ensures Covers(a, b) <==> a.flags.l == NO_FLAGS
  {
    hide Leq;
    LeqOrder(b.flags.u, b.flags.u, b.flags.u);
    if Covers(a, b) {
      var q := Flags(NO_FLAGS, b.flags.u, 0);
      LeqOrder(b.flags.u, b.flags.u, b.flags.u);
      LeqOrder(b.flags.l, b.flags.l, b.flags.l);
      assert Asked(q) && Subsumes(b, q);
      assert Leq(a.flags.l, NO_FLAGS);
      LeqOrder(a.flags.l, NO_FLAGS, a.flags.l);
    }
    if a.flags.l == NO_FLAGS {
      forall q | Asked(q) && Subsumes(b, q) ensures Subsumes(a, q) {
        LeqOrder(q.l, NO_FLAGS, q.l);
      }
    }
  }

  /** Among an answer found and one stored, the precondition of an insertion fails. */
  ghost predicate Clashes(stored: Answer, found: Answer) {
    Subsumes(stored, found.flags) && !Subsumes(found, stored.flags)
  }

  /** A search for flags (l, u), which nothing stored answered, finds a solution at some impatience x in between: it
      clashes with an answer stored exactly when that says that x is infeasible, was not asked at l, and reaches less
      far up than the search. That there is no solution never clashes. */
  lemma InsertAfterMiss(stored: Answer, l: Mask, x: Mask, u: Mask, t: nat, found: Answer)
    requires Leq(l, x) && Leq(x, u) && found.flags == Flags(x, u, 0) && (found.verdict.Infeasible? ==> x == l)
    requires !Subsumes(stored, Flags(l, u, t))
    ensures Clashes(stored, found) <==>
            && found.verdict.Solver? && stored.verdict.Infeasible? && stored.flags.timelimit == 0
            && Leq(stored.flags.l, x) && !Leq(stored.flags.l, l) && !Leq(u, stored.flags.u)
  {
    hide Leq;
    LeqOrder(l, x, stored.flags.l);
  }

  /** A plan recalled for the flags q and recorded once more clashes with another plan stored exactly when its own flags
      lie around those of the other; which then answers q as well. */
  lemma InsertAfterRecall(stored: Answer, recalled: Answer, q: Flags)
    requires stored.verdict.Solver? && recalled.verdict.Solver? && Subsumes(recalled, q)
    ensures Clashes(stored, recalled) <==>
            && Leq(recalled.flags.l, stored.flags.l) && Leq(stored.flags.u, recalled.flags.u)
            && (stored.flags.l != recalled.flags.l || stored.flags.u != recalled.flags.u)
    ensures Clashes(stored, recalled) ==> Subsumes(stored, q)
  {
    hide Leq;
    var a, b := stored.flags, recalled.flags;
    LeqOrder(a.l, b.l, a.l);
    LeqOrder(a.u, b.u, a.u);
    LeqOrder(a.u, b.u, q.u);
    LeqOrder(q.l, b.l, a.l);
  }
}
