/** The canonical collection of LR(0) item sets, built by a worklist. */
module LrAutomaton {
  import opened Grammars
  import opened LrItems

  /** C[to] is what C[from] becomes on x. */
  ghost predicate Edge(g: Grammar, C: seq<ItemSet>, from: nat, x: Symbol, to: nat)
  {
    from < |C| && to < |C| && C[to] != [] && C[to] == Goto(g, C[from], x)
  }

  ghost predicate Entered(g: Grammar, C: seq<ItemSet>, i: nat)
  {
    exists j: nat, x :: j < i && Edge(g, C, j, x, i)
  }

  /** Distinct sets of items, each but the first a goto of an earlier one. */
  ghost predicate Collected(g: Grammar, C: seq<ItemSet>)
  {
    && C != [] && C[0] == Closure(g, [Item(0, 0)])
    && Distinct(C)
    && (forall i :: 0 <= i < |C| ==> C[i] != [] && StateOk(g, C[i]))
    && (forall i: nat :: 1 <= i < |C| ==> Entered(g, C, i))
  }

  /** Every goto of C[i] that is not empty is in C. */
  ghost predicate Expanded(g: Grammar, C: seq<ItemSet>, i: nat)
    requires i < |C|
  {
    forall x :: Goto(g, C[i], x) != [] ==> Goto(g, C[i], x) in C
  }

  ghost predicate AutomatonOk(g: Grammar, C: seq<ItemSet>)
  {
    Collected(g, C) && forall i :: 0 <= i < |C| ==> Expanded(g, C, i)
  }

  // ---------- There are finitely many states ----------

  ghost function AllItems(g: Grammar): set<Item>
  {
    set p: nat, d: nat | p < |g.prods| && d <= |g.prods[p].rhs| :: Item(p, d)
  }

  ghost function Seqs<T(!new)>(S: set<T>, n: nat): set<seq<T>>
  {
    if n == 0 then {[]}
    else {[]} + set x, s | x in S && s in Seqs(S, n - 1) :: [x] + s
  }

  lemma {:induction false} InSeqs<T(!new)>(S: set<T>, n: nat, s: seq<T>)
    requires |s| <= n && forall x :: x in s ==> x in S
    ensures s in Seqs(S, n)
  {
    if s != [] {
      InSeqs(S, n - 1, s[1..]);
      assert s == [s[0]] + s[1..];
    }
  }

  /** A sequence without repetition over S is no longer than S is large. */
  lemma {:induction false} DistinctFits<T(!new)>(S: set<T>, s: seq<T>)
    requires Distinct(s) && forall x :: x in s ==> x in S
    ensures |s| <= |S|
  {
    if s != [] {
      assert forall k :: 1 <= k < |s| ==> s[0] != s[k];
      assert s[0] !in s[1..];
      DistinctFits(S - {s[0]}, s[1..]);
    }
  }

  ghost function Universe(g: Grammar): set<ItemSet> { Seqs(AllItems(g), |AllItems(g)|) }

  lemma StateInUniverse(g: Grammar, I: ItemSet)
    requires StateOk(g, I)
    ensures I in Universe(g)
  {
    DistinctFits(AllItems(g), I);
    InSeqs(AllItems(g), |AllItems(g)|, I);
  }

  lemma CollectionFits(g: Grammar, C: seq<ItemSet>)
    requires Collected(g, C)
    ensures |C| <= |Universe(g)|
  {
    forall I | I in C
      ensures I in Universe(g)
    {
      StateInUniverse(g, I);
    }
    DistinctFits(Universe(g), C);
  }

  // ---------- The worklist ----------

  /** All symbols on the right sides of the productions of I's items. */
  method UsedSymbols(g: Grammar, I: ItemSet) returns (asyms: seq<Symbol>)
    requires AllValid(g, I)
    ensures forall x, it :: it in I && x in g.prods[it.prod].rhs ==> x in asyms
  {
    asyms := [];
    for i := 0 to |I|
      invariant forall x, k :: 0 <= k < i && I[k].prod < |g.prods| && x in g.prods[I[k].prod].rhs ==> x in asyms
    {
      assert I[i] in I;
      var rhs := g.prods[I[i].prod].rhs;
      for j := 0 to |rhs|
        invariant forall x, k :: 0 <= k < i && I[k].prod < |g.prods| && x in g.prods[I[k].prod].rhs ==> x in asyms
        invariant forall x :: x in rhs[..j] ==> x in asyms
      {
        assert rhs[..j + 1] == rhs[..j] + [rhs[j]];
        if rhs[j] !in asyms {
          asyms := asyms + [rhs[j]];
        }
      }
      assert rhs[..|rhs|] == rhs;
    }
  }

  lemma StartState(g: Grammar)
    requires g.Wf()
    ensures Collected(g, [Closure(g, [Item(0, 0)])])
  {
    ClosureOk(g, [Item(0, 0)]);
    ClosureLeast(g, [Item(0, 0)]);
  }

  lemma AppendState(g: Grammar, C: seq<ItemSet>, j: nat, x: Symbol)
    requires Collected(g, C) && j < |C| && Goto(g, C[j], x) != [] && Goto(g, C[j], x) !in C
    ensures Collected(g, C + [Goto(g, C[j], x)])
  {
    hide Edge, Entered, Closure, Goto, StateOk, Distinct;
    var C' := C + [Goto(g, C[j], x)];
    GotoOk(g, C[j], x);
    DistinctSnoc(C, Goto(g, C[j], x));
    NewEntered(g, C, j, x);
    forall i: nat | 1 <= i < |C'|
      ensures Entered(g, C', i)
    {
      if i < |C| {
        EnteredStays(g, C, C', i);
      }
    }
  }

  lemma DistinctSnoc<T>(s: seq<T>, x: T)
    requires Distinct(s) && x !in s
    ensures Distinct(s + [x])
  {
  }

  lemma NewEntered(g: Grammar, C: seq<ItemSet>, j: nat, x: Symbol)
    requires j < |C| && Goto(g, C[j], x) != []
    ensures Entered(g, C + [Goto(g, C[j], x)], |C|)
  {
    hide Goto;
    assert Edge(g, C + [Goto(g, C[j], x)], j, x, |C|);
  }

  lemma EnteredStays(g: Grammar, C: seq<ItemSet>, C': seq<ItemSet>, i: nat)
    requires C <= C' && i < |C| && Entered(g, C, i)
    ensures Entered(g, C', i)
  {
    hide Goto;
    var j: nat, x :| j < i && Edge(g, C, j, x, i);
    assert Edge(g, C', j, x, i);
  }

  lemma UnusedSymbol(g: Grammar, I: ItemSet, asyms: seq<Symbol>, x: Symbol)
    requires AllValid(g, I) && forall y, it :: it in I && y in g.prods[it.prod].rhs ==> y in asyms
    requires x !in asyms
    ensures Goto(g, I, x) == []
  {
    GotoItems(g, I, x);
  }

  /** The collection C grows while each of its members is expanded over its symbols. */
  method Lr0Items(g: Grammar) returns (C: seq<ItemSet>)
    requires g.Wf()
    ensures AutomatonOk(g, C)
  {
    hide Closure, Goto, Collected;
    var start := Lr0Closure(g, [Item(0, 0)]);
    C := [start];
    StartState(g);
    var i := 0;
    while i < |C|
      invariant Collected(g, C) && i <= |C|
      invariant forall k :: 0 <= k < i ==> Expanded(g, C, k)
      decreases |Universe(g)| - |C|, |C| - i
    {
      var I := C[i];
      ghost var C0, n := C, i;
      i := i + 1;
      CollectedOk(g, C, n);
      var asyms := UsedSymbols(g, I);
      for k := 0 to |asyms|
        invariant Collected(g, C) && C0 <= C && i == n + 1 && C[n] == I
        invariant forall x :: x in asyms[..k] && Goto(g, I, x) != [] ==> Goto(g, I, x) in C
      {
        var x := asyms[k];
        assert asyms[..k + 1] == asyms[..k] + [x];
        var gs := Lr0Goto(g, I, x);
        if gs != [] && gs !in C {
          AppendState(g, C, n, x);
          C := C + [gs];
        }
      }
      forall x | Goto(g, I, x) != []
        ensures Goto(g, I, x) in C
      {
        if x !in asyms {
          UnusedSymbol(g, I, asyms, x);
        }
      }
      ExpandedStay(g, C0, C, n);
      CollectionFits(g, C);
    }
  }

  lemma ExpandedStay(g: Grammar, C0: seq<ItemSet>, C: seq<ItemSet>, n: nat)
    requires C0 <= C && n <= |C0| && forall k :: 0 <= k < n ==> Expanded(g, C0, k)
    ensures forall k :: 0 <= k < n ==> Expanded(g, C, k)
  {
    hide Goto;
    forall k | 0 <= k < n
      ensures Expanded(g, C, k)
    {
      assert Expanded(g, C0, k) && C0[k] == C[k];
      assert forall I :: I in C0 ==> I in C;
    }
  }

  lemma CollectedOk(g: Grammar, C: seq<ItemSet>, i: nat)
    requires Collected(g, C) && i < |C|
    ensures AllValid(g, C[i])
  {
  }

  // ---------- What the automaton guarantees ----------

  lemma GotoNoStart(g: Grammar, I: ItemSet, x: Symbol)
    ensures Item(0, 0) !in Goto(g, I, x)
  {
    GotoItems(g, I, x);
  }

  lemma FirstHasStart(g: Grammar, C: seq<ItemSet>)
    requires Collected(g, C)
    ensures Item(0, 0) in C[0] && forall it :: it in C[0] ==> it.dot == 0
  {
    ClosureLeast(g, [Item(0, 0)]);
    assert C[0][0] == Item(0, 0);
    StartItems(g, C[0]);
  }

  /** No transition leads into state 0. */
  lemma NothingEntersStart(g: Grammar, C: seq<ItemSet>, j: nat, x: Symbol)
    requires Collected(g, C)
    ensures !Edge(g, C, j, x, 0)
  {
    hide Collected, Closure, Goto;
    FirstHasStart(g, C);
    if Edge(g, C, j, x, 0) {
      GotoNoStart(g, C[j], x);
    }
  }

  /** Only state 0 holds the start item. */
  lemma StartOnlyFirst(g: Grammar, C: seq<ItemSet>, i: nat)
    requires Collected(g, C) && i < |C|
    ensures Item(0, 0) in C[i] <==> i == 0
  {
    hide Closure, Goto, StateOk, Distinct;
    FirstHasStart(g, C);
    if i > 0 {
      assert Entered(g, C, i);
      var j: nat, x :| j < i && Edge(g, C, j, x, i);
      GotoNoStart(g, C[j], x);
    }
  }

  lemma StartItems(g: Grammar, I: ItemSet)
    requires I == Closure(g, [Item(0, 0)])
    ensures forall it :: it in I ==> it.dot == 0
  {
    CloseFromLeast(g, [Item(0, 0)], 0, {}, iset it: Item | it.dot == 0);
  }

  /** Along an edge on x, an item with the dot past 0 steps back over x into the source state. */
  lemma StepBack(g: Grammar, C: seq<ItemSet>, from: nat, x: Symbol, to: nat, it: Item)
    requires Edge(g, C, from, x, to) && it in C[to] && it.dot > 0
    ensures Item(it.prod, it.dot - 1) in C[from] && Expects(g, Item(it.prod, it.dot - 1), x)
  {
    GotoItems(g, C[from], x);
  }

  /** A state that holds a start of a production of n, other than the start rule, has a transition on n. */
  lemma HasTransition(g: Grammar, C: seq<ItemSet>, i: nat, p: nat)
    requires AutomatonOk(g, C) && i < |C| && Item(p, 0) in C[i] && p >= 1
    ensures p < |g.prods| && Goto(g, C[i], g.prods[p].name) != [] && Goto(g, C[i], g.prods[p].name) in C
  {
    hide Closure, Goto, StateOk;
    assert exists j :: j in C[i] && p in After(g, j) by {
      if i == 0 {
        StartAsked(g, C[0], p);
      } else {
        assert Entered(g, C, i);
        var j: nat, x :| j < i && Edge(g, C, j, x, i);
        GotoItems(g, C[j], x);
      }
    }
    var j :| j in C[i] && p in After(g, j);
    assert Expects(g, j, g.prods[p].name);
    GotoItems(g, C[i], g.prods[p].name);
    assert Expanded(g, C, i);
  }

  lemma StartAsked(g: Grammar, I: ItemSet, p: nat)
    requires I == Closure(g, [Item(0, 0)]) && Item(p, 0) in I && p >= 1
    ensures exists j :: j in I && p in After(g, j)
  {
    CloseFromJustified(g, [Item(0, 0)], 0, {}, 1);
    ClosureLeast(g, [Item(0, 0)]);
    var k :| 0 <= k < |I| && I[k] == Item(p, 0);
    assert I[0] == Item(0, 0);
  }
}
