/** kernel/planner.c: the solver descriptors and the linked list that threads those of one problem kind. */
module Registry {
  datatype Desc = Desc(kind: nat, name: string, id: int, next: int)

  const PROBLEM_LAST := 8
  const MAXNAM := 64

  /** Links only lead to earlier descriptors. */
  ghost predicate Linked(d: seq<Desc>) {
    forall i :: 0 <= i < |d| ==> -1 <= d[i].next < i
  }

  /** The descriptors met by following the links from i. */
  ghost function Chain(d: seq<Desc>, i: int): seq<nat>
    requires Linked(d) && i < |d|
    decreases if i < 0 then 0 else i + 1
  {
    if i < 0 then [] else [i] + Chain(d, d[i].next)
  }

  /** The descriptors of one kind among the first n, latest first. */
  ghost function OfKind(d: seq<Desc>, kind: nat, n: nat): seq<nat>
    requires n <= |d|
  {
    if n == 0 then [] else (if d[n - 1].kind == kind then [n - 1] else []) + OfKind(d, kind, n - 1)
  }

  /** Every descriptor of the kind is listed, no other is, and none twice. */
  lemma {:induction false} OfKindIsExact(d: seq<Desc>, kind: nat, n: nat)
    requires n <= |d|
    ensures forall j :: j in OfKind(d, kind, n) <==> 0 <= j < n && d[j].kind == kind
    ensures forall a, b :: 0 <= a < b < |OfKind(d, kind, n)| ==> OfKind(d, kind, n)[a] > OfKind(d, kind, n)[b]
  {
    if n > 0 {
      OfKindIsExact(d, kind, n - 1);
      var t := OfKind(d, kind, n - 1);
      forall b | 0 <= b < |t| ensures t[b] < n - 1 {
        assert t[b] in t;
      }
    }
  }

  lemma ChainStep(d: seq<Desc>, i: int, before: seq<nat>)
    requires Linked(d) && 0 <= i < |d|
    ensures before + Chain(d, i) == (before + [i]) + Chain(d, d[i].next)
  {}

  /** The walk has reached position n of the listing. */
  ghost predicate ReachedBy(d: seq<Desc>, i: int, order: seq<nat>, n: nat) {
    Linked(d) && i < |d| && n <= |order| && order == order[..n] + Chain(d, i)
  }

  lemma WalkOn(d: seq<Desc>, i: int, order: seq<nat>, n: nat)
    requires ReachedBy(d, i, order, n) && 0 <= i
    ensures n < |order| && order[n] == i && ReachedBy(d, d[i].next, order, n + 1)
  {
    assert Chain(d, i) == order[n..];
    assert order[..n + 1] == order[..n] + [i];
  }

  lemma WalkStarts(d: seq<Desc>, i: int, order: seq<nat>)
    requires Linked(d) && i < |d| && Chain(d, i) == order
    ensures ReachedBy(d, i, order, 0)
  {
    assert order[..0] + order == order;
  }

  lemma KindAt(d: seq<Desc>, kind: nat, n: nat)
    requires n < |OfKind(d, kind, |d|)|
    ensures var i := OfKind(d, kind, |d|)[n]; i < |d| && d[i].kind == kind
  {
    OfKindIsExact(d, kind, |d|);
    assert OfKind(d, kind, |d|)[n] in OfKind(d, kind, |d|);
  }

  lemma WalkDone(d: seq<Desc>, i: int, order: seq<nat>, n: nat)
    requires ReachedBy(d, i, order, n) && i < 0
    ensures n == |order|
  {}

  lemma ChainEmpty(d: seq<Desc>, i: int, before: seq<nat>)
    requires Linked(d) && i < |d| && i < 0
    ensures before + Chain(d, i) == before
  {}

  lemma {:induction false} ChainExtends(d: seq<Desc>, x: Desc, i: int)
    requires Linked(d) && Linked(d + [x]) && i < |d|
    ensures Chain(d + [x], i) == Chain(d, i)
    decreases if i < 0 then 0 else i + 1
  {
    if i >= 0 { ChainExtends(d, x, d[i].next); }
  }

  lemma {:induction false} OfKindExtends(d: seq<Desc>, x: Desc, kind: nat, n: nat)
    requires n <= |d|
    ensures OfKind(d + [x], kind, n) == OfKind(d, kind, n)
  {
    if n > 0 { OfKindExtends(d, x, kind, n - 1); }
  }

  /** No two descriptors share a registrar's name and number. */
  ghost predicate UniqueNames(d: seq<Desc>) {
    forall i, j :: 0 <= i < j < |d| ==> d[i].name != d[j].name || d[i].id != d[j].id
  }

  /** The first descriptor from i on with this name and number, or -1. */
  function IndexOf(d: seq<Desc>, name: string, id: int, i: nat): (r: int)
    ensures -1 <= r < |d|
    decreases |d| - i
  {
    if i >= |d| then -1
    else if d[i].name == name && d[i].id == id then i
    else IndexOf(d, name, id, i + 1)
  }

  /** With unique names, looking a descriptor up by its name and number finds it. */
  lemma {:induction false} IndexBack(d: seq<Desc>, k: nat, i: nat)
    requires UniqueNames(d) && i <= k < |d|
    ensures IndexOf(d, d[k].name, d[k].id, i) == k
    decreases k - i
  {
    if i < k { IndexBack(d, k, i + 1); }
  }

  class Solvers {
    var descs: seq<Desc>
    var heads: array<int>
    var regName: string
    var regId: int

    ghost predicate Valid()
      reads this, heads
    {
      && heads.Length == PROBLEM_LAST && Linked(descs)
      && forall k :: 0 <= k < PROBLEM_LAST ==>
           -1 <= heads[k] < |descs| && Chain(descs, heads[k]) == OfKind(descs, k, |descs|)
    }

    constructor ()
      ensures Valid() && fresh(heads) && descs == []
    {
      heads := new int[PROBLEM_LAST](_ => -1);
      descs, regName, regId := [], "", 0;
    }

    /** register_solver: the list of its kind now starts with the new solver; the other lists stay. */
    method Register(kind: nat)
      requires Valid() && kind < PROBLEM_LAST && |regName| < MAXNAM
      modifies this`descs, this`regId, heads
      ensures Valid() && regId == old(regId) + 1 && heads == old(heads)
      ensures descs == old(descs) + [Desc(kind, regName, old(regId), old(heads[kind]))]
    {
      ghost var before := descs;
      var x := Desc(kind, regName, regId, heads[kind]);
      regId := regId + 1;
      heads[kind] := |descs|;
      descs := descs + [x];
      assert Linked(descs);
      forall k | 0 <= k < PROBLEM_LAST
        ensures -1 <= heads[k] < |descs| && Chain(descs, heads[k]) == OfKind(descs, k, |descs|)
      {
        ChainExtends(before, x, old(heads[k]));
        OfKindExtends(before, x, k, |before|);
        assert OfKind(descs, k, |descs|)
            == (if kind == k then [|before| as nat] else []) + OfKind(descs, k, |before|);
      }
    }

    /** slookup */
    method Find(name: string, id: int) returns (i: int)
      ensures i == IndexOf(descs, name, id, 0)
    {
      for j := 0 to |descs|
        invariant IndexOf(descs, name, id, 0) == IndexOf(descs, name, id, j)
      {
        if descs[j].id == id && descs[j].name == name {
          return j;
        }
      }
      return -1;
    }

    lemma HeadsReach(kind: nat)
      requires Valid() && kind < PROBLEM_LAST
      ensures heads.Length == PROBLEM_LAST && Linked(descs) && -1 <= heads[kind] < |descs|
      ensures ReachedBy(descs, heads[kind], OfKind(descs, kind, |descs|), 0)
    {
      WalkStarts(descs, heads[kind], OfKind(descs, kind, |descs|));
    }

    /** FORALL_SOLVERS_OF_KIND, collecting the order of the visits. */
    method Visit(kind: nat) returns (order: seq<nat>)
      requires Valid() && kind < PROBLEM_LAST
      ensures order == OfKind(descs, kind, |descs|)
    {
      hide OfKind, Chain;
      order := [];
      var cnt := heads[kind];
      assert order + Chain(descs, cnt) == Chain(descs, cnt);
      while cnt >= 0
        invariant -1 <= cnt < |descs| && order + Chain(descs, cnt) == OfKind(descs, kind, |descs|)
        decreases cnt
      {
        ChainStep(descs, cnt, order);
        order := order + [cnt];
        cnt := descs[cnt].next;
      }
      ChainEmpty(descs, cnt, order);
    }
  }
}
