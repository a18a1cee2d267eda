/** What a planner search has tried, and what its outcome then means. */
module SearchTrace {
  import opened Subsumption
  import opened HashTable
  import opened Options

  /** A plan as the search sees it: what it costs, and whether its solver allows pruning. */
  datatype Plan = Plan(id: nat, cost: real, prune: bool)

  /** One solver invocation. */
  datatype Try = Try(solver: nat, result: Option<Plan>)

  /** One call of search0 at impatience l. */
  datatype Round = Round(l: Mask, tries: seq<Try>)

  /** The solvers are invoked in list order. */
  ghost predicate InOrder(tries: seq<Try>, order: seq<nat>) {
    |tries| <= |order| && forall i :: 0 <= i < |tries| ==> tries[i].solver == order[i]
  }

  ghost predicate AllFail(tries: seq<Try>) {
    forall i :: 0 <= i < |tries| ==> tries[i].result.None?
  }

  /** Try j is the cheapest that succeeded, and the earliest of those. */
  ghost predicate CheapestAt(tries: seq<Try>, j: int) {
    && 0 <= j < |tries| && tries[j].result.Some?
    && (forall i :: 0 <= i < j && tries[i].result.Some? ==> tries[i].result.value.cost > tries[j].result.value.cost)
    && (forall i :: j < i < |tries| && tries[i].result.Some? ==> tries[i].result.value.cost >= tries[j].result.value.cost)
  }

  /** The outcome of one round. */
  ghost predicate Chosen(tries: seq<Try>, best: Option<Plan>, solver: nat) {
    && (best.None? ==> AllFail(tries))
    && (best.Some? ==> exists j :: CheapestAt(tries, j) && tries[j] == Try(solver, best))
  }

  lemma NothingTried(order: seq<nat>)
    ensures Chosen([], None, 0) && InOrder([], order)
  {}

  lemma InOrderNext(tries: seq<Try>, t: Try, order: seq<nat>)
    requires InOrder(tries, order) && |tries| < |order| && order[|tries|] == t.solver
    ensures InOrder(tries + [t], order)
  {}

  /** pln replaces best only when it is strictly cheaper. */
  predicate Better(pln: Option<Plan>, best: Option<Plan>) {
    pln.Some? && (best.None? || pln.value.cost < best.value.cost)
  }

  lemma ChosenNext(tries: seq<Try>, best: Option<Plan>, solver: nat, t: Try)
    requires Chosen(tries, best, solver)
    ensures Better(t.result, best) ==> Chosen(tries + [t], t.result, t.solver)
    ensures !Better(t.result, best) ==> Chosen(tries + [t], best, solver)
  {
    var n, next := |tries|, tries + [t];
    if best.Some? {
      var j :| CheapestAt(tries, j) && tries[j] == Try(solver, best);
      assert CheapestAt(next, if Better(t.result, best) then n else j);
    } else if t.result.Some? {
      assert CheapestAt(next, n);
    }
  }

  predicate LetsPrune(r: Option<Plan>) {
    r.Some? && r.value.prune
  }

  /** None of the first k tries gave a plan whose solver lets the search prune. */
  ghost predicate NonePrunes(tries: seq<Try>, k: int) {
    forall i :: 0 <= i < k && i < |tries| && tries[i].result.Some? ==> !tries[i].result.value.prune
  }

  /** Where pruning is allowed, a round stops at the first plan whose solver lets it prune, and nowhere else. */
  ghost predicate Stops(tries: seq<Try>, order: seq<nat>, pruning: bool) {
    && (pruning ==> NonePrunes(tries, |tries| - 1))
    && (|tries| < |order| ==> pruning && tries != [] && !NonePrunes(tries, |tries|))
  }

  ghost predicate RoundRun(r: Round, order: seq<nat>, pruning: bool, best: Option<Plan>, solver: nat) {
    InOrder(r.tries, order) && Chosen(r.tries, best, solver) && Stops(r.tries, order, pruning)
  }

  lemma AllTried(tries: seq<Try>, order: seq<nat>, pruning: bool)
    requires |tries| == |order| && (pruning ==> NonePrunes(tries, |tries|))
    ensures Stops(tries, order, pruning)
  {}

  /** One more try, after tries that did not end the round. */
  lemma StopsNext(tries: seq<Try>, t: Try, order: seq<nat>, pruning: bool)
    requires pruning ==> NonePrunes(tries, |tries|)
    ensures LetsPrune(t.result) && pruning ==> Stops(tries + [t], order, pruning)
    ensures !(LetsPrune(t.result) && pruning) && pruning ==> NonePrunes(tries + [t], |tries| + 1)
  {
    assert (tries + [t])[|tries|] == t;
  }

  /** Impatience only ever shrinks, within [l, u]. */
  ghost predicate Relaxing(rounds: seq<Round>, l: Mask, u: Mask) {
    && (forall i :: 0 <= i < |rounds| ==> Leq(l, rounds[i].l) && Leq(rounds[i].l, u))
    && (forall i :: 0 < i < |rounds| ==> Leq(rounds[i].l, rounds[i - 1].l) && rounds[i].l != rounds[i - 1].l)
    && (rounds != [] ==> rounds[0].l == u)
  }

  ghost predicate Failed(r: Round, order: seq<nat>) {
    InOrder(r.tries, order) && |r.tries| == |order| && AllFail(r.tries)
  }

  /** Everything before the last round failed; the last one gave the outcome. */
  ghost predicate Tried(rounds: seq<Round>, order: seq<nat>, l: Mask, u: Mask, pruning: bool,
                        best: Option<Plan>, solver: nat) {
    && rounds != [] && Relaxing(rounds, l, u)
    && (forall i :: 0 <= i < |rounds| - 1 ==> Failed(rounds[i], order))
    && RoundRun(rounds[|rounds| - 1], order, pruning, best, solver)
  }

  /** A finished search: failure is final only at l. */
  ghost predicate Searched(rounds: seq<Round>, order: seq<nat>, l: Mask, u: Mask, pruning: bool,
                           best: Option<Plan>, solver: nat) {
    && Tried(rounds, order, l, u, pruning, best, solver)
    && (best.None? ==> rounds[|rounds| - 1].l == l)
  }

  lemma FirstRound(r: Round, order: seq<nat>, l: Mask, u: Mask, pruning: bool, best: Option<Plan>, solver: nat)
    requires Leq(l, u) && r.l == u && RoundRun(r, order, pruning, best, solver)
    ensures Tried([r], order, l, u, pruning, best, solver)
  {
    LeqOrder(u, u, u);
  }

  lemma NextRound(rounds: seq<Round>, r: Round, order: seq<nat>, l: Mask, u: Mask, pruning: bool, solver: nat,
                  best': Option<Plan>, solver': nat)
    requires Tried(rounds, order, l, u, pruning, None, solver) && RoundRun(r, order, pruning, best', solver')
    requires Leq(l, r.l) && Leq(r.l, rounds[|rounds| - 1].l) && r.l != rounds[|rounds| - 1].l
    ensures Tried(rounds + [r], order, l, u, pruning, best', solver')
  {
    hide Leq;
    var n := |rounds| - 1;
    LeqOrder(r.l, rounds[n].l, u);
    assert Failed(rounds[n], order);
  }

  /** can(s, x) tells whether solver s is applicable at impatience x. */
  ghost predicate SomeCan(can: (nat, Mask) -> bool, order: seq<nat>, x: Mask) {
    exists s :: s in order && can(s, x)
  }

  /** Less impatience may hinder one solver, but not all of them. */
  ghost predicate Antitone(can: (nat, Mask) -> bool, order: seq<nat>) {
    forall x, y :: Leq(x, y) && SomeCan(can, order, y) ==> SomeCan(can, order, x)
  }

  ghost predicate Faithful(r: Round, can: (nat, Mask) -> bool) {
    forall i :: 0 <= i < |r.tries| ==> (r.tries[i].result.Some? <==> can(r.tries[i].solver, r.l))
  }

  /** A search fails exactly when no solver of the kind is applicable at the least impatience allowed. */
  lemma SearchIsComplete(rounds: seq<Round>, order: seq<nat>, l: Mask, u: Mask, pruning: bool,
                         best: Option<Plan>, solver: nat, can: (nat, Mask) -> bool)
    requires Searched(rounds, order, l, u, pruning, best, solver)
    requires Antitone(can, order) && forall i :: 0 <= i < |rounds| ==> Faithful(rounds[i], can)
    ensures best.None? <==> forall s :: s in order ==> !can(s, l)
  {
    hide Leq;
    var last := rounds[|rounds| - 1];
    assert Faithful(last, can);
    if best.None? {
      forall s | s in order ensures !can(s, l) {
        var i :| 0 <= i < |order| && order[i] == s;
        assert last.tries[i].solver == s;
      }
    } else {
      var j :| CheapestAt(last.tries, j) && last.tries[j] == Try(solver, best);
      assert can(last.tries[j].solver, last.l);
      assert order[j] == solver && solver in order;
      assert SomeCan(can, order, last.l);
      assert SomeCan(can, order, l);
    }
  }

  /** A plan returned is the cheapest, earliest in list order, at the first impatience where any solver applies:
      every solver had failed at every greater impatience tried, the first of which was u. */
  lemma SearchIsPatient(rounds: seq<Round>, order: seq<nat>, l: Mask, u: Mask,
                        best: Option<Plan>, solver: nat, can: (nat, Mask) -> bool)
    requires Searched(rounds, order, l, u, false, best, solver) && best.Some?
    requires forall i :: 0 <= i < |rounds| ==> Faithful(rounds[i], can)
    ensures var last := rounds[|rounds| - 1];
            && (exists j :: CheapestAt(last.tries, j) && order[j] == solver && last.tries[j].result == best)
            && |last.tries| == |order|
            && forall i, s :: 0 <= i < |rounds| - 1 && s in order ==> !can(s, rounds[i].l)
    ensures (exists s :: s in order && can(s, u)) ==> |rounds| == 1
  {
    hide Leq;
    var last := rounds[|rounds| - 1];
    var j :| CheapestAt(last.tries, j) && last.tries[j] == Try(solver, best);
    assert order[j] == solver;
    forall i, s | 0 <= i < |rounds| - 1 && s in order ensures !can(s, rounds[i].l) {
      assert Faithful(rounds[i], can) && Failed(rounds[i], order);
      var k :| 0 <= k < |order| && order[k] == s;
      assert rounds[i].tries[k].solver == s;
    }
  }
}
