/**
 The LALR lookaheads: the reads and includes relations of the nonterminal transitions, the read and follow sets that
 the digraph closure gives them, and the lists attached to the items.
 */
module LrLookaheads {
  import opened Common
  import opened Graphs
  import Digraph
  import Fixpoints
  import opened Grammars
  import opened LrItems
  import opened LrAutomaton
  import opened LrTable
  import opened LrEngine
  import opened LrComplete

  /** A state and a nonterminal over which it has a transition. */
  type Trans = (nat, Symbol)

  // ---------- Transitions ----------

  ghost predicate IsTrans(g: Grammar, C: seq<ItemSet>, t: Trans)
  {
    t.0 < |C| && t.1 in g.nonterminals && Wanted(g, C[t.0], t.1)
  }

  /** Some item of I expects x. */
  ghost predicate Wanted(g: Grammar, I: ItemSet, x: Symbol) { exists it :: it in I && Expects(g, it, x) }

  /** The symbol behind the dot. */
  function NextOf(g: Grammar, it: Item): Option<Symbol>
  {
    if ValidItem(g, it) && !Complete(g, it) then Some(g.prods[it.prod].rhs[it.dot]) else None
  }

  lemma WantedMore(g: Grammar, I: ItemSet, k: nat)
    requires k < |I|
    ensures forall x :: Wanted(g, I[..k + 1], x) <==> Wanted(g, I[..k], x) || NextOf(g, I[k]) == Some(x)
  {
    assert I[..k + 1] == I[..k] + [I[k]];
    forall x | NextOf(g, I[k]) == Some(x)
      ensures Wanted(g, I[..k + 1], x)
    {
      assert I[k] in I[..k + 1] && Expects(g, I[k], x);
    }
    forall x | Wanted(g, I[..k], x)
      ensures Wanted(g, I[..k + 1], x)
    {
      var it :| it in I[..k] && Expects(g, it, x);
      assert it in I[..k + 1];
    }
  }

  lemma NothingWanted(g: Grammar)
    ensures forall x :: !Wanted(g, [], x)
  {
  }

  method FindNonterminalTransitions(g: Grammar, C: seq<ItemSet>) returns (trans: seq<Trans>)
    ensures Distinct(trans) && forall t :: t in trans <==> IsTrans(g, C, t)
  {
    hide Wanted, Expects, NextOf;
    trans := [];
    for st := 0 to |C|
      invariant Distinct(trans) && forall t :: t in trans <==> t.0 < st && IsTrans(g, C, t)
    {
      var I := C[st];
      NothingWanted(g);
      assert I[..0] == [];
      for k := 0 to |I|
        invariant Distinct(trans)
        invariant forall t :: t in trans <==>
                    (t.0 < st && IsTrans(g, C, t)) || (t.0 == st && t.1 in g.nonterminals && Wanted(g, I[..k], t.1))
      {
        WantedMore(g, I, k);
        var x := NextOf(g, I[k]);
        if x.Some? && x.value in g.nonterminals && (st, x.value) !in trans {
          trans := trans + [(st, x.value)];
        }
      }
      assert I[..|I|] == I;
    }
  }

  // ---------- What is read directly ----------

  /** The terminals that the items of I expect, each once. */
  function Terms(g: Grammar, I: ItemSet): (ts: seq<Symbol>)
    ensures forall a :: a in ts <==> a in g.terminals && Wanted(g, I, a)
  {
    if I == [] then []
    else
      var n := |I| - 1;
      WantedMore(g, I, n);
      assert I[..n + 1] == I;
      AddTerm(g, Terms(g, I[..n]), I[n])
  }

  function AddTerm(g: Grammar, terms: seq<Symbol>, it: Item): seq<Symbol>
  {
    var x := NextOf(g, it);
    if x.Some? && x.value in g.terminals && x.value !in terms then terms + [x.value] else terms
  }

  /** DR(p, A). */
  function Direct(g: Grammar, C: seq<ItemSet>, t: Trans): seq<Symbol>
  {
    if t.0 >= |C| then []
    else Terms(g, Goto(g, C[t.0], t.1)) + if t.0 == 0 && t.1 == Goal(g) then [END] else []
  }

  method DrRelation(g: Grammar, C: seq<ItemSet>, t: Trans) returns (terms: seq<Symbol>)
    requires t.0 < |C| && |g.prods| > 0 && |g.prods[0].rhs| > 0
    ensures terms == Direct(g, C, t)
  {
    hide Goto, Wanted, NextOf;
    terms := [];
    var gs := Lr0Goto(g, C[t.0], t.1);
    for k := 0 to |gs|
      invariant terms == Terms(g, gs[..k])
    {
      assert gs[..k + 1][..k] == gs[..k];
      var x := NextOf(g, gs[k]);
      if x.Some? && x.value in g.terminals {
        if x.value !in terms {
          terms := terms + [x.value];
        }
      }
    }
    assert gs[..|gs|] == gs;
    if t.0 == 0 && t.1 == g.prods[0].rhs[0] {
      terms := terms + [END];
    }
  }

  // ---------- The reads relation ----------

  /** The state that st goes to over x; a transition always has one. */
  function Target(g: Grammar, C: seq<ItemSet>, st: nat, x: Symbol): (to: nat)
    requires st < |C|
    ensures to < |C|
  {
    var j := IndexOf(C, Goto(g, C[st], x));
    if j >= 0 then j else 0
  }

  /** The transitions over nullable nonterminals that the items of I begin in state j. */
  function EmptySteps(g: Grammar, I: ItemSet, j: nat, nullable: set<Symbol>): (ts: seq<Trans>)
    ensures forall u: Trans :: u in ts <==> u.0 == j && u.1 in nullable && Wanted(g, I, u.1)
  {
    if I == [] then []
    else
      var n := |I| - 1;
      WantedMore(g, I, n);
      assert I[..n + 1] == I;
      var x := NextOf(g, I[n]);
      EmptySteps(g, I[..n], j, nullable) + if x.Some? && x.value in nullable then [(j, x.value)] else []
  }

  /** (p, A) reads (r, B). */
  function Reads(g: Grammar, C: seq<ItemSet>, nullable: set<Symbol>, t: Trans): seq<Trans>
  {
    if t.0 >= |C| then [] else EmptySteps(g, Goto(g, C[t.0], t.1), Target(g, C, t.0, t.1), nullable)
  }

  method ReadsRelation(g: Grammar, C: seq<ItemSet>, nullable: set<Symbol>, t: Trans) returns (rel: seq<Trans>)
    requires t.0 < |C|
    ensures rel == Reads(g, C, nullable, t)
  {
    hide Goto, Wanted, NextOf;
    rel := [];
    var gs := Lr0Goto(g, C[t.0], t.1);
    var j := Target(g, C, t.0, t.1);
    for k := 0 to |gs|
      invariant rel == EmptySteps(g, gs[..k], j, nullable)
    {
      assert gs[..k + 1][..k] == gs[..k];
      var x := NextOf(g, gs[k]);
      if x.Some? && x.value in nullable {
        rel := rel + [(j, x.value)];
      }
    }
    assert gs[..|gs|] == gs;
  }

  // ---------- Lookback and includes ----------

  /** Where w leads from st. */
  function Ends(g: Grammar, C: seq<ItemSet>, st: nat, w: seq<Symbol>): (to: nat)
    requires st < |C|
    ensures to < |C|
  {
    if w == [] then st else Target(g, C, Ends(g, C, st, w[..|w| - 1]), w[|w| - 1])
  }

  /** The right side with the dot written into it. */
  function Dotted(g: Grammar, it: Item): seq<Symbol>
    requires ValidItem(g, it)
  {
    var rhs := g.prods[it.prod].rhs;
    rhs[..it.dot] + ["."] + rhs[it.dot..]
  }

  /** r has the name and the length of it, and what stands before its dot stands in it one place later. */
  ghost predicate Matches(g: Grammar, it: Item, r: Item)
    requires ValidItem(g, it) && ValidItem(g, r)
  {
    && g.prods[r.prod].name == g.prods[it.prod].name
    && |g.prods[r.prod].rhs| == |g.prods[it.prod].rhs|
    && forall i :: 0 <= i < r.dot ==> Dotted(g, r)[i] == Dotted(g, it)[i + 1]
  }

  ghost predicate LookbackBy(g: Grammar, C: seq<ItemSet>, t: Trans, it: Item, st: nat, r: Item)
    requires t.0 < |C|
  {
    && ValidItem(g, it) && ValidItem(g, r) && g.prods[it.prod].name == t.1
    && st == Ends(g, C, t.0, g.prods[it.prod].rhs[it.dot..]) && r in C[st] && Matches(g, it, r)
  }

  /** Item r of state st looks back at t: an item for t's nonterminal in t's state, followed to its end, leads to st. */
  ghost predicate Lookback(g: Grammar, C: seq<ItemSet>, t: Trans, st: nat, r: Item)
  {
    t.0 < |C| && exists it :: it in C[t.0] && LookbackBy(g, C, t, it, st, r)
  }

  ghost predicate IncludesAt(g: Grammar, C: seq<ItemSet>, nullable: set<Symbol>, t: Trans, u: Trans, it: Item, k: nat)
    requires u.0 < |C|
  {
    && ValidItem(g, it) && g.prods[it.prod].name == u.1 && it.dot <= k < |g.prods[it.prod].rhs|
    && t == (Ends(g, C, u.0, g.prods[it.prod].rhs[it.dot..k]), g.prods[it.prod].rhs[k])
    && Vanishes(g, nullable, g.prods[it.prod].rhs[k + 1..])
  }

  ghost predicate IncludesBy(g: Grammar, C: seq<ItemSet>, nullable: set<Symbol>, t: Trans, u: Trans, it: Item)
    requires u.0 < |C|
  {
    exists k :: IncludesAt(g, C, nullable, t, u, it, k)
  }

  /** t includes u: following an item for u's nonterminal from u's state passes t, and what is behind t can vanish. */
  ghost predicate Includes(g: Grammar, C: seq<ItemSet>, nullable: set<Symbol>, t: Trans, u: Trans)
  {
    IsTrans(g, C, t) && u.0 < |C| && exists it :: it in C[u.0] && IncludesBy(g, C, nullable, t, u, it)
  }

  predicate Vanishes(g: Grammar, nullable: set<Symbol>, w: seq<Symbol>)
  {
    forall i :: 0 <= i < |w| ==> w[i] !in g.terminals && w[i] in nullable
  }

  /** Is the rest of the right side from position li on nullable? */
  method RestVanishes(g: Grammar, nullable: set<Symbol>, rhs: seq<Symbol>, start: nat) returns (empty: bool)
    requires start <= |rhs|
    ensures empty == Vanishes(g, nullable, rhs[start..])
  {
    var li := start;
    while li < |rhs|
      invariant start <= li <= |rhs| && forall i :: start <= i < li ==> rhs[i] !in g.terminals && rhs[i] in nullable
    {
      if rhs[li] in g.terminals {
        assert rhs[start..][li - start] in g.terminals;
        return false;
      }
      if rhs[li] !in nullable {
        assert rhs[start..][li - start] !in nullable;
        return false;
      }
      li := li + 1;
    }
    empty := true;
  }

  /** The includes noted when item it has been followed up to position k. */
  ghost predicate Noted(g: Grammar, C: seq<ItemSet>, nullable: set<Symbol>, u: Trans, it: Item, k: nat, t: Trans)
    requires u.0 < |C|
  {
    exists i :: it.dot <= i < k && IncludesAt(g, C, nullable, t, u, it, i)
  }

  lemma NotedMore(g: Grammar, C: seq<ItemSet>, nullable: set<Symbol>, u: Trans, it: Item, k: nat)
    requires u.0 < |C| && ValidItem(g, it) && g.prods[it.prod].name == u.1 && it.dot <= k < |g.prods[it.prod].rhs|
    ensures var rhs := g.prods[it.prod].rhs;
            forall t :: Noted(g, C, nullable, u, it, k + 1, t) <==>
              || Noted(g, C, nullable, u, it, k, t)
              || (t == (Ends(g, C, u.0, rhs[it.dot..k]), rhs[k]) && Vanishes(g, nullable, rhs[k + 1..]))
  {
    hide Ends, Vanishes;
    var rhs := g.prods[it.prod].rhs;
    forall t | IncludesAt(g, C, nullable, t, u, it, k)
      ensures Noted(g, C, nullable, u, it, k + 1, t)
    {
    }
    var t := (Ends(g, C, u.0, rhs[it.dot..k]), rhs[k]);
    assert Vanishes(g, nullable, rhs[k + 1..]) ==> IncludesAt(g, C, nullable, t, u, it, k);
  }

  lemma NotedAll(g: Grammar, C: seq<ItemSet>, nullable: set<Symbol>, u: Trans, it: Item)
    requires u.0 < |C| && ValidItem(g, it)
    ensures forall t :: !Noted(g, C, nullable, u, it, it.dot, t)
    ensures forall t :: Noted(g, C, nullable, u, it, |g.prods[it.prod].rhs|, t) <==> IncludesBy(g, C, nullable, t, u, it)
  {
    hide Ends, Vanishes;
  }

  lemma EndsMore(g: Grammar, C: seq<ItemSet>, st: nat, rhs: seq<Symbol>, d: nat, k: nat)
    requires st < |C| && d <= k < |rhs|
    ensures Ends(g, C, st, rhs[d..k + 1]) == Target(g, C, Ends(g, C, st, rhs[d..k]), rhs[k])
  {
    hide Target;
    var w := rhs[d..k + 1];
    assert w[..|w| - 1] == rhs[d..k] && w[|w| - 1] == rhs[k];
  }

  /** The production of an item is followed from state st to its end; the transitions passed whose rest can vanish are noted. */
  method FollowItem(g: Grammar, C: seq<ItemSet>, trans: seq<Trans>, nullable: set<Symbol>, st: nat, it: Item)
    returns (includes: seq<Trans>, j: nat)
    requires st < |C| && ValidItem(g, it)
    ensures j < |C| && j == Ends(g, C, st, g.prods[it.prod].rhs[it.dot..])
    ensures forall t :: t in includes <==> t in trans && IncludesBy(g, C, nullable, t, (st, g.prods[it.prod].name), it)
  {
    hide Target, Vanishes, Ends, Noted, IncludesBy;
    var rhs := g.prods[it.prod].rhs;
    ghost var u := (st, g.prods[it.prod].name);
    NotedAll(g, C, nullable, u, it);
    EndsHere(g, C, st);
    assert rhs[it.dot..it.dot] == [];
    assert rhs[it.dot..|rhs|] == rhs[it.dot..];
    includes, j := [], st;
    for k := it.dot to |rhs|
      invariant j < |C| && j == Ends(g, C, st, rhs[it.dot..k])
      invariant forall t :: t in includes <==> t in trans && Noted(g, C, nullable, u, it, k, t)
    {
      NotedMore(g, C, nullable, u, it, k);
      EndsMore(g, C, st, rhs, it.dot, k);
      if (j, rhs[k]) in trans {
        var empty := RestVanishes(g, nullable, rhs, k + 1);
        if empty {
          includes := includes + [(j, rhs[k])];
        }
      }
      j := Target(g, C, j, rhs[k]);
    }
  }

  lemma EndsHere(g: Grammar, C: seq<ItemSet>, st: nat)
    requires st < |C|
    ensures Ends(g, C, st, []) == st
  {
  }

  /** The items of state j that match it. */
  method FindProduction(g: Grammar, C: seq<ItemSet>, j: nat, it: Item) returns (lookb: seq<(nat, Item)>)
    requires j < |C| && AllValid(g, C[j]) && ValidItem(g, it)
    ensures forall e :: e in lookb <==> e.0 == j && e.1 in C[j] && ValidItem(g, e.1) && Matches(g, it, e.1)
  {
    hide Matches;
    lookb := [];
    for n := 0 to |C[j]|
      invariant forall e :: e in lookb <==> e.0 == j && e.1 in C[j][..n] && ValidItem(g, e.1) && Matches(g, it, e.1)
    {
      var r := C[j][n];
      assert r in C[j];
      assert C[j][..n + 1] == C[j][..n] + [r];
      var same := Compare(g, it, r);
      if same {
        lookb := lookb + [(j, r)];
      }
    }
    assert C[j][..|C[j]|] == C[j];
  }

  method Compare(g: Grammar, it: Item, r: Item) returns (same: bool)
    requires ValidItem(g, it) && ValidItem(g, r)
    ensures same == Matches(g, it, r)
  {
    if g.prods[r.prod].name != g.prods[it.prod].name {
      return false;
    }
    if |g.prods[r.prod].rhs| != |g.prods[it.prod].rhs| {
      return false;
    }
    var i := 0;
    while i < r.dot
      invariant i <= r.dot && forall k :: 0 <= k < i ==> Dotted(g, r)[k] == Dotted(g, it)[k + 1]
    {
      if Dotted(g, r)[i] != Dotted(g, it)[i + 1] {
        return false;
      }
      i := i + 1;
    }
    same := true;
  }

  ghost predicate StatesValid(g: Grammar, C: seq<ItemSet>) { forall i :: 0 <= i < |C| ==> AllValid(g, C[i]) }

  /** The items of t's state that are for t's nonterminal are followed, one after the other. */
  method OfTransition(g: Grammar, C: seq<ItemSet>, trans: seq<Trans>, nullable: set<Symbol>, t: Trans)
    returns (lookb: seq<(nat, Item)>, includes: seq<Trans>)
    requires t.0 < |C| && StatesValid(g, C)
    ensures forall e :: e in lookb <==> Lookback(g, C, t, e.0, e.1)
    ensures forall x :: x in includes <==> x in trans && IncludesFrom(g, C, nullable, x, t, C[t.0])
  {
    hide Matches, IncludesBy, Ends;
    lookb, includes := [], [];
    var I := C[t.0];
    for n := 0 to |I|
      invariant forall e :: e in lookb <==> LookbackFrom(g, C, t, e.0, e.1, I[..n])
      invariant forall x :: x in includes <==> x in trans && IncludesFrom(g, C, nullable, x, t, I[..n])
    {
      var it := I[n];
      assert it in I && ValidItem(g, it);
      FromMore(g, C, nullable, t, I, n);
      if g.prods[it.prod].name == t.1 {
        var incs, j := FollowItem(g, C, trans, nullable, t.0, it);
        var found := FindProduction(g, C, j, it);
        lookb, includes := lookb + found, includes + incs;
      } else {
        OnlyNamed(g, C, nullable, t, it);
      }
    }
    assert I[..|I|] == I;
  }

  lemma OnlyNamed(g: Grammar, C: seq<ItemSet>, nullable: set<Symbol>, t: Trans, it: Item)
    requires t.0 < |C| && ValidItem(g, it) && g.prods[it.prod].name != t.1
    ensures forall x :: !IncludesBy(g, C, nullable, x, t, it)
  {
  }

  ghost predicate LookbackFrom(g: Grammar, C: seq<ItemSet>, t: Trans, st: nat, r: Item, I: ItemSet)
    requires t.0 < |C|
  {
    exists it :: it in I && LookbackBy(g, C, t, it, st, r)
  }

  ghost predicate IncludesFrom(g: Grammar, C: seq<ItemSet>, nullable: set<Symbol>, x: Trans, t: Trans, I: ItemSet)
    requires t.0 < |C|
  {
    exists it :: it in I && IncludesBy(g, C, nullable, x, t, it)
  }

  lemma FromMore(g: Grammar, C: seq<ItemSet>, nullable: set<Symbol>, t: Trans, I: ItemSet, n: nat)
    requires t.0 < |C| && n < |I|
    ensures forall st, r :: LookbackFrom(g, C, t, st, r, I[..n + 1]) <==>
              LookbackFrom(g, C, t, st, r, I[..n]) || LookbackBy(g, C, t, I[n], st, r)
    ensures forall x :: IncludesFrom(g, C, nullable, x, t, I[..n + 1]) <==>
              IncludesFrom(g, C, nullable, x, t, I[..n]) || IncludesBy(g, C, nullable, x, t, I[n])
  {
    hide LookbackBy, IncludesBy;
    assert I[..n + 1] == I[..n] + [I[n]];
    assert forall it :: it in I[..n + 1] <==> it in I[..n] || it == I[n];
  }

  /** v is in the list of x. */
  predicate Listed<K(==), V(==)>(m: map<K, seq<V>>, x: K, v: V) { x in m && v in m[x] }

  /** Each of xs gets v appended to its list. */
  method NoteIncludes(included0: map<Trans, seq<Trans>>, xs: seq<Trans>, v: Trans) returns (included: map<Trans, seq<Trans>>)
    ensures forall x, w :: Listed(included, x, w) <==> Listed(included0, x, w) || (x in xs && w == v)
  {
    included := included0;
    for n := 0 to |xs|
      invariant forall x, w :: Listed(included, x, w) <==> Listed(included0, x, w) || (x in xs[..n] && w == v)
    {
      assert xs[..n + 1] == xs[..n] + [xs[n]];
      if xs[n] !in included {
        included := included[xs[n] := []];
      }
      included := included[xs[n] := included[xs[n]] + [v]];
    }
    assert xs[..|xs|] == xs;
  }

  method ComputeLookbackIncludes(g: Grammar, C: seq<ItemSet>, trans: seq<Trans>, nullable: set<Symbol>)
    returns (lookd: map<Trans, seq<(nat, Item)>>, included: map<Trans, seq<Trans>>)
    requires StatesValid(g, C) && forall t :: t in trans <==> IsTrans(g, C, t)
    ensures forall t :: t in lookd <==> IsTrans(g, C, t)
    ensures forall t, e :: Listed(lookd, t, e) <==> IsTrans(g, C, t) && Lookback(g, C, t, e.0, e.1)
    ensures forall x, u :: Listed(included, x, u) <==> IsTrans(g, C, u) && Includes(g, C, nullable, x, u)
  {
    hide Lookback, Includes, Wanted;
    lookd, included := map[], map[];
    for n := 0 to |trans|
      invariant forall t :: t in lookd <==> t in trans[..n]
      invariant forall t, e :: Listed(lookd, t, e) <==> t in trans[..n] && Lookback(g, C, t, e.0, e.1)
      invariant forall x, u :: Listed(included, x, u) <==> u in trans[..n] && Includes(g, C, nullable, x, u)
    {
      var t := trans[n];
      assert t in trans;
      assert trans[..n + 1] == trans[..n] + [t];
      var lookb, includes := OfTransition(g, C, trans, nullable, t);
      forall x ensures x in includes <==> Includes(g, C, nullable, x, t) {
        IncludesIs(g, C, nullable, x, t);
      }
      included := NoteIncludes(included, includes, t);
      lookd := lookd[t := lookb];
    }
    assert trans[..|trans|] == trans;
  }

  lemma IncludesIs(g: Grammar, C: seq<ItemSet>, nullable: set<Symbol>, x: Trans, t: Trans)
    requires t.0 < |C|
    ensures Includes(g, C, nullable, x, t) <==> IsTrans(g, C, x) && IncludesFrom(g, C, nullable, x, t, C[t.0])
  {
    hide IncludesBy, IsTrans;
  }

  // ---------- Read sets and follow sets ----------

  /** The nonterminals that derive the empty string. */
  ghost function Nullable(g: Grammar): set<Symbol> { set n | n in g.nonterminals && g.Derives([n], []) }

  function ReadsOf(g: Grammar, C: seq<ItemSet>, nullable: set<Symbol>): Trans -> seq<Trans> { t => Reads(g, C, nullable, t) }

  function DirectOf(g: Grammar, C: seq<ItemSet>): Trans -> seq<Symbol> { t => Direct(g, C, t) }

  /** Read(p, A): what is read directly after some steps of the reads relation. */
  ghost predicate InRead(g: Grammar, C: seq<ItemSet>, nullable: set<Symbol>, t: Trans, a: Symbol)
  {
    Digraph.InSolution(ReadsOf(g, C, nullable), DirectOf(g, C), t, a)
  }

  ghost predicate IncludesPath(g: Grammar, C: seq<ItemSet>, nullable: set<Symbol>, p: seq<Trans>)
  {
    p != [] && forall i :: 0 < i < |p| ==> IsTrans(g, C, p[i]) && Includes(g, C, nullable, p[i - 1], p[i])
  }

  /** Follow(p, A): what is in the read set at the end of some steps of the includes relation. */
  ghost predicate InFollow(g: Grammar, C: seq<ItemSet>, nullable: set<Symbol>, t: Trans, a: Symbol)
  {
    exists p :: IncludesPath(g, C, nullable, p) && p[0] == t && InRead(g, C, nullable, p[|p| - 1], a)
  }

  /** A transition leads into the state that its target is. */
  lemma TargetIs(g: Grammar, C: seq<ItemSet>, st: nat, x: Symbol)
    requires AutomatonOk(g, C) && st < |C| && Wanted(g, C[st], x)
    ensures Edge(g, C, st, x, Target(g, C, st, x))
  {
    hide Goto, AutomatonOk, Expects, IndexOf;
    var q :| q in C[st] && Expects(g, q, x);
    HasGoto(g, C[st], q, x);
    var to := GotoIndex(g, C, st, x);
  }

  /** What a transition reads is a transition. */
  lemma ReadsTrans(g: Grammar, C: seq<ItemSet>, nullable: set<Symbol>, t: Trans, u: Trans)
    requires AutomatonOk(g, C) && IsTrans(g, C, t) && u in Reads(g, C, nullable, t)
    requires forall n :: n in nullable ==> n in g.nonterminals
    ensures IsTrans(g, C, u)
  {
    hide Goto, AutomatonOk, Wanted, Target;
    TargetIs(g, C, t.0, t.1);
  }

  method ComputeReadSets(g: Grammar, C: seq<ItemSet>, trans: seq<Trans>, nullable: set<Symbol>)
    returns (F: map<Trans, seq<Symbol>>)
    requires AutomatonOk(g, C) && (forall t :: t in trans <==> IsTrans(g, C, t)) && |set t | t in trans| <= Digraph.MAXINT
    requires forall n :: n in nullable ==> n in g.nonterminals
    ensures forall t :: t in F <==> IsTrans(g, C, t)
    ensures forall t :: IsTrans(g, C, t) ==> forall a :: a in F[t] <==> InRead(g, C, nullable, t, a)
  {
    hide AutomatonOk, IsTrans, Reads, Direct, Digraph.InSolution;
    forall t, u | t in trans && u in ReadsOf(g, C, nullable)(t)
      ensures u in trans
    {
      ReadsTrans(g, C, nullable, t, u);
    }
    F := Digraph.Digraph(trans, ReadsOf(g, C, nullable), DirectOf(g, C));
    forall t | IsTrans(g, C, t)
      ensures forall a :: a in F[t] <==> InRead(g, C, nullable, t, a)
    {
      assert t in trans && Digraph.Exact(ReadsOf(g, C, nullable), DirectOf(g, C), t, F[t]);
    }
  }

  /** The list of a key, or none. */
  function Lookup<K(!new), V>(m: map<K, seq<V>>): K -> seq<V> { k => if k in m then m[k] else [] }

  method ComputeFollowSets(g: Grammar, C: seq<ItemSet>, trans: seq<Trans>, ghost nullable: set<Symbol>,
                           readsets: map<Trans, seq<Symbol>>, included: map<Trans, seq<Trans>>)
    returns (F: map<Trans, seq<Symbol>>)
    requires (forall t :: t in trans <==> IsTrans(g, C, t)) && |set t | t in trans| <= Digraph.MAXINT
    requires forall t :: t in readsets <==> IsTrans(g, C, t)
    requires forall t :: IsTrans(g, C, t) ==> forall a :: a in readsets[t] <==> InRead(g, C, nullable, t, a)
    requires forall t, u :: Listed(included, t, u) <==> IsTrans(g, C, u) && Includes(g, C, nullable, t, u)
    ensures forall t :: t in F <==> IsTrans(g, C, t)
    ensures forall t :: IsTrans(g, C, t) ==> forall a :: a in F[t] <==> InFollow(g, C, nullable, t, a)
  {
    hide IsTrans, InRead, Includes, InFollow, Digraph.InSolution;
    assert forall t, u :: u in Lookup(included)(t) <==> Listed(included, t, u);
    F := Digraph.Digraph(trans, Lookup(included), Lookup(readsets));
    forall t, a | IsTrans(g, C, t)
      ensures a in F[t] <==> InFollow(g, C, nullable, t, a)
    {
      assert t in trans && Digraph.Exact(Lookup(included), Lookup(readsets), t, F[t]);
      FollowIs(g, C, nullable, readsets, included, t, a);
    }
  }

  /** The closure over the included lists is the closure over the includes relation. */
  lemma FollowIs(g: Grammar, C: seq<ItemSet>, nullable: set<Symbol>, readsets: map<Trans, seq<Symbol>>,
                 included: map<Trans, seq<Trans>>, t: Trans, a: Symbol)
    requires IsTrans(g, C, t) && forall t :: t in readsets <==> IsTrans(g, C, t)
    requires forall t :: IsTrans(g, C, t) ==> forall a :: a in readsets[t] <==> InRead(g, C, nullable, t, a)
    requires forall t, u :: Listed(included, t, u) <==> IsTrans(g, C, u) && Includes(g, C, nullable, t, u)
    ensures Digraph.InSolution(Lookup(included), Lookup(readsets), t, a) <==> InFollow(g, C, nullable, t, a)
  {
    hide IsTrans, InRead, Includes;
    var R, FP := Lookup(included), Lookup(readsets);
    if Digraph.InSolution(R, FP, t, a) {
      var y :| Reach(R, t, y) && a in FP(y);
      var p :| Connects(R, p, t, y);
      PathsAgree(g, C, nullable, included, p);
      InsideTrans(g, C, nullable, p);
    }
    if InFollow(g, C, nullable, t, a) {
      var p :| IncludesPath(g, C, nullable, p) && p[0] == t && InRead(g, C, nullable, p[|p| - 1], a);
      PathsAgree(g, C, nullable, included, p);
      InsideTrans(g, C, nullable, p);
      assert Connects(R, p, t, p[|p| - 1]) && a in FP(p[|p| - 1]);
    }
  }

  lemma PathsAgree(g: Grammar, C: seq<ItemSet>, nullable: set<Symbol>, included: map<Trans, seq<Trans>>, p: seq<Trans>)
    requires forall t, u :: Listed(included, t, u) <==> IsTrans(g, C, u) && Includes(g, C, nullable, t, u)
    ensures Walk(Lookup(included), p) <==> IncludesPath(g, C, nullable, p)
  {
    hide IsTrans, Includes;
    if Walk(Lookup(included), p) {
      forall i | 0 < i < |p|
        ensures IsTrans(g, C, p[i]) && Includes(g, C, nullable, p[i - 1], p[i])
      {
        assert p[(i - 1) + 1] in Lookup(included)(p[i - 1]);
        assert Listed(included, p[i - 1], p[i]);
      }
    }
    if IncludesPath(g, C, nullable, p) {
      forall i | 0 <= i < |p| - 1
        ensures p[i + 1] in Lookup(included)(p[i])
      {
        assert Includes(g, C, nullable, p[(i + 1) - 1], p[i + 1]);
        assert Listed(included, p[i], p[i + 1]);
      }
    }
  }

  lemma InsideTrans(g: Grammar, C: seq<ItemSet>, nullable: set<Symbol>, p: seq<Trans>)
    requires IncludesPath(g, C, nullable, p) && IsTrans(g, C, p[0])
    ensures IsTrans(g, C, p[|p| - 1])
  {
  }

  // ---------- The lookaheads ----------

  type Lookaheads = map<(Item, nat), seq<Symbol>>

  /** A key without a list gets an empty one. */
  method EnsureKey(la0: Lookaheads, key: (Item, nat)) returns (la: Lookaheads)
    ensures la.Keys == la0.Keys + {key}
    ensures forall k, a :: Listed(la, k, a) <==> Listed(la0, k, a)
  {
    la := la0;
    if key !in la {
      la := la[key := []];
    }
  }

  method AppendSymbol(la0: Lookaheads, key: (Item, nat), a: Symbol) returns (la: Lookaheads)
    requires key in la0
    ensures la.Keys == la0.Keys
    ensures forall k, b :: Listed(la, k, b) <==> Listed(la0, k, b) || (k == key && b == a)
  {
    la := la0;
    if a !in la[key] {
      la := la[key := la[key] + [a]];
    }
  }

  /** Each symbol of f that is not in the list of key yet is appended to it. */
  method AppendSymbols(la0: Lookaheads, key: (Item, nat), f: seq<Symbol>) returns (la: Lookaheads)
    ensures la.Keys == la0.Keys + {key}
    ensures forall k, a :: Listed(la, k, a) <==> Listed(la0, k, a) || (k == key && a in f)
  {
    hide Listed;
    la := EnsureKey(la0, key);
    for n := 0 to |f|
      invariant la.Keys == la0.Keys + {key}
      invariant forall k, a :: Listed(la, k, a) <==> Listed(la0, k, a) || (k == key && a in f[..n])
    {
      assert f[..n + 1] == f[..n] + [f[n]];
      assert forall a :: a in f[..n + 1] <==> a in f[..n] || a == f[n];
      la := AppendSymbol(la, key, f[n]);
    }
    assert f[..|f|] == f;
  }

  /** Item it of state st looks back at one of the first n transitions. */
  ghost predicate LooksBack(lookd: map<Trans, seq<(nat, Item)>>, trans: seq<Trans>, k: (Item, nat))
  {
    exists t :: t in trans && Listed(lookd, t, (k.1, k.0))
  }

  /** And a is in the follow set of such a transition. */
  ghost predicate LooksAhead(lookd: map<Trans, seq<(nat, Item)>>, follow: map<Trans, seq<Symbol>>, trans: seq<Trans>,
                             k: (Item, nat), a: Symbol)
  {
    exists t :: t in trans && Listed(lookd, t, (k.1, k.0)) && Listed(follow, t, a)
  }

  method AddLookaheads(trans: seq<Trans>, lookd: map<Trans, seq<(nat, Item)>>, follow: map<Trans, seq<Symbol>>)
    returns (la: Lookaheads)
    requires forall t :: t in trans <==> t in lookd
    ensures forall k :: k in la <==> LooksBack(lookd, trans, k)
    ensures forall k, a :: Listed(la, k, a) <==> LooksAhead(lookd, follow, trans, k, a)
  {
    hide LooksBack, LooksAhead;
    la := map[];
    NoneYet(lookd, follow);
    assert trans[..0] == [];
    for n := 0 to |trans|
      invariant forall k :: k in la <==> LooksBack(lookd, trans[..n], k)
      invariant forall k, a :: Listed(la, k, a) <==> LooksAhead(lookd, follow, trans[..n], k, a)
    {
      var t := trans[n];
      assert t in trans;
      OneTransition(lookd, follow, trans, n);
      ghost var la0 := la;
      var lb, f := lookd[t], Lookup(follow)(t);
      for i := 0 to |lb|
        invariant forall k :: k in la <==> k in la0 || (k.1, k.0) in lb[..i]
        invariant forall k, a :: Listed(la, k, a) <==> Listed(la0, k, a) || ((k.1, k.0) in lb[..i] && a in f)
      {
        assert lb[..i + 1] == lb[..i] + [lb[i]];
        la := AppendSymbols(la, (lb[i].1, lb[i].0), f);
      }
      assert lb[..|lb|] == lb;
    }
    assert trans[..|trans|] == trans;
  }

  lemma NoneYet(lookd: map<Trans, seq<(nat, Item)>>, follow: map<Trans, seq<Symbol>>)
    ensures forall k :: !LooksBack(lookd, [], k)
    ensures forall k, a :: !LooksAhead(lookd, follow, [], k, a)
  {
  }

  lemma OneTransition(lookd: map<Trans, seq<(nat, Item)>>, follow: map<Trans, seq<Symbol>>, trans: seq<Trans>, n: nat)
    requires n < |trans|
    ensures forall k :: LooksBack(lookd, trans[..n + 1], k) <==>
              LooksBack(lookd, trans[..n], k) || Listed(lookd, trans[n], (k.1, k.0))
    ensures forall k, a :: LooksAhead(lookd, follow, trans[..n + 1], k, a) <==>
              LooksAhead(lookd, follow, trans[..n], k, a) || (Listed(lookd, trans[n], (k.1, k.0)) && Listed(follow, trans[n], a))
  {
    hide Listed;
    assert trans[..n + 1] == trans[..n] + [trans[n]];
    assert forall t :: t in trans[..n + 1] <==> t in trans[..n] || t == trans[n];
  }

  /** The item of the state has an entry: it looks back at a transition. */
  ghost predicate HasEntry(g: Grammar, C: seq<ItemSet>, k: (Item, nat))
  {
    exists t :: IsTrans(g, C, t) && Lookback(g, C, t, k.1, k.0)
  }

  /** And a is one of its lookaheads: it follows such a transition. */
  ghost predicate IsLookahead(g: Grammar, C: seq<ItemSet>, k: (Item, nat), a: Symbol)
  {
    exists t :: IsTrans(g, C, t) && Lookback(g, C, t, k.1, k.0) && InFollow(g, C, Nullable(g), t, a)
  }

  ghost function Transitions(g: Grammar, C: seq<ItemSet>): set<Trans>
  {
    set st: nat, x | st < |C| && x in g.nonterminals && IsTrans(g, C, (st, x)) :: (st, x)
  }

  lemma TransitionsAre(g: Grammar, C: seq<ItemSet>)
    ensures forall t :: t in Transitions(g, C) <==> IsTrans(g, C, t)
  {
    hide Wanted;
    forall t | IsTrans(g, C, t)
      ensures t in Transitions(g, C)
    {
      assert t == (t.0, t.1);
    }
  }

  /** The depths that the closure counts stay below the mark of a finished node. */
  ghost predicate Few(g: Grammar, C: seq<ItemSet>) { |Transitions(g, C)| <= Digraph.MAXINT }

  lemma AllStatesValid(g: Grammar, C: seq<ItemSet>)
    requires AutomatonOk(g, C)
    ensures StatesValid(g, C)
  {
  }

  lemma NullableIs(g: Grammar, nullable: set<Symbol>)
    requires g.Wf() && forall n :: n in nullable <==> g.Derives([n], [])
    ensures nullable == Nullable(g) && forall n :: n in nullable ==> n in g.nonterminals
  {
    forall n | g.Derives([n], [])
      ensures n in g.nonterminals
    {
      var k: nat :| g.DerivesIn([n], [], k);
      assert k > 0;
      var c :| g.Step([n], c) && g.DerivesIn(c, [], k - 1);
    }
  }

  /** The lookaheads of all items, exactly. */
  method AddLalrLookaheads(g: Grammar, C: seq<ItemSet>) returns (la: Lookaheads)
    requires g.Wf() && AutomatonOk(g, C) && Few(g, C)
    ensures forall k :: k in la <==> HasEntry(g, C, k)
    ensures forall k, a :: Listed(la, k, a) <==> IsLookahead(g, C, k, a)
  {
    hide AutomatonOk, IsTrans, Lookback, InFollow, InRead, Includes, LooksBack, LooksAhead, Grammar.Derives;
    AllStatesValid(g, C);
    var nullable := Fixpoints.ComputeNullableNonterminals(g);
    NullableIs(g, nullable);
    var trans := FindNonterminalTransitions(g, C);
    TransitionsAre(g, C);
    assert (set t | t in trans) == Transitions(g, C);
    var readsets := ComputeReadSets(g, C, trans, nullable);
    var lookd, included := ComputeLookbackIncludes(g, C, trans, nullable);
    var follow := ComputeFollowSets(g, C, trans, nullable, readsets, included);
    la := AddLookaheads(trans, lookd, follow);
    forall k
      ensures LooksBack(lookd, trans, k) <==> HasEntry(g, C, k)
      ensures forall a :: LooksAhead(lookd, follow, trans, k, a) <==> IsLookahead(g, C, k, a)
    {
      LooksAre(g, C, trans, lookd, follow, k);
    }
  }

  lemma LooksAre(g: Grammar, C: seq<ItemSet>, trans: seq<Trans>, lookd: map<Trans, seq<(nat, Item)>>,
                 follow: map<Trans, seq<Symbol>>, k: (Item, nat))
    requires forall t :: t in trans <==> IsTrans(g, C, t)
    requires forall t :: Listed(lookd, t, (k.1, k.0)) <==> IsTrans(g, C, t) && Lookback(g, C, t, k.1, k.0)
    requires forall t :: t in follow <==> IsTrans(g, C, t)
    requires forall t :: IsTrans(g, C, t) ==> forall a :: a in follow[t] <==> InFollow(g, C, Nullable(g), t, a)
    ensures LooksBack(lookd, trans, k) <==> HasEntry(g, C, k)
    ensures forall a :: LooksAhead(lookd, follow, trans, k, a) <==> IsLookahead(g, C, k, a)
  {
    hide IsTrans, Lookback, InFollow, Nullable;
  }

  // ---------- The lookaheads suffice ----------

  lemma EdgeTarget(g: Grammar, C: seq<ItemSet>, st: nat, x: Symbol, to: nat)
    requires AutomatonOk(g, C) && Edge(g, C, st, x, to)
    ensures Target(g, C, st, x) == to
  {
    hide Goto, Expanded, StateOk, Entered;
  }

  lemma SpelledLength(g: Grammar, C: seq<ItemSet>, states: seq<nat>, w: seq<Symbol>)
    requires Spelled(g, C, states, w)
    ensures |states| == |w| + 1
  {
  }

  /** Following w along a path ends where the path does. */
  lemma {:induction false} SpelledEnds(g: Grammar, C: seq<ItemSet>, states: seq<nat>, u: seq<Symbol>, w: seq<Symbol>)
    requires AutomatonOk(g, C) && Spelled(g, C, states, u + w) && states[|u|] < |C|
    ensures Ends(g, C, states[|u|], w) == states[|u| + |w|]
  {
    hide AutomatonOk, Edge, Target;
    if w != [] {
      var n := |w| - 1;
      Shorter(g, C, states, u, w, n);
      SpelledEnds(g, C, states[..|u| + n + 1], u, w[..n]);
      assert (u + w)[|u| + n] == w[n];
      EdgeTarget(g, C, states[|u| + n], w[n], states[|u| + n + 1]);
    }
  }

  /** The first part of a path. */
  lemma Shorter(g: Grammar, C: seq<ItemSet>, states: seq<nat>, u: seq<Symbol>, w: seq<Symbol>, n: nat)
    requires Spelled(g, C, states, u + w) && n <= |w|
    ensures Spelled(g, C, states[..|u| + n + 1], u + w[..n])
  {
    hide Edge;
    forall k | 0 <= k < |u| + n
      ensures Edge(g, C, states[k], (u + w[..n])[k], states[k + 1])
    {
      assert (u + w[..n])[k] == (u + w)[k];
    }
  }

  /** Along a path, the dot of an item moves over what is spelled. */
  lemma {:induction false} ItemAlong(g: Grammar, C: seq<ItemSet>, states: seq<nat>, u: seq<Symbol>, p: nat, k: nat)
    requires p < |g.prods| && k <= |g.prods[p].rhs| && Spelled(g, C, states, u + g.prods[p].rhs[..k])
    requires states[|u|] < |C| && Item(p, 0) in C[states[|u|]]
    ensures states[|u| + k] < |C| && Item(p, k) in C[states[|u| + k]]
  {
    hide Edge;
    if k > 0 {
      var rhs := g.prods[p].rhs;
      assert rhs[..k][..k - 1] == rhs[..k - 1] && (u + rhs[..k])[|u| + k - 1] == rhs[k - 1];
      Shorter(g, C, states, u, rhs[..k], k - 1);
      ItemAlong(g, C, states[..|u| + k], u, p, k - 1);
      EdgeInside(g, C, states[|u| + k - 1], rhs[k - 1], states[|u| + k]);
      Moves(g, C, states[|u| + k - 1], Item(p, k - 1), rhs[k - 1], states[|u| + k]);
    }
  }

  lemma NonEmptyYields(ts: seq<Tree>)
    requires Yields(ts) != []
    ensures ts != []
  {
  }

  lemma LeafYield(tok: Token)
    ensures Yield(Leaf(tok)) == [tok]
  {
  }

  /** The first tree is for the symbol that the item expects, and the others for the rest. */
  lemma FirstSymbol(g: Grammar, p: nat, k: nat, ts: seq<Tree>)
    requires p < |g.prods| && k <= |g.prods[p].rhs| && ts != [] && Symbols(g, ts) == g.prods[p].rhs[k..]
    ensures k < |g.prods[p].rhs| && g.prods[p].rhs[k] == SymbolOf(g, ts[0]) && Expects(g, Item(p, k), SymbolOf(g, ts[0]))
    ensures Symbols(g, ts[1..]) == g.prods[p].rhs[k + 1..]
  {
    assert Symbols(g, ts)[0] == SymbolOf(g, ts[0]);
    assert Symbols(g, ts)[1..] == Symbols(g, ts[1..]);
  }

  /** A terminal that an item behind the transition expects is read directly. */
  lemma ReadsDirectly(g: Grammar, C: seq<ItemSet>, t: Trans, to: nat, it: Item, a: Symbol)
    requires t.0 < |C| && Edge(g, C, t.0, t.1, to) && it in C[to] && Expects(g, it, a) && a in g.terminals
    ensures InRead(g, C, Nullable(g), t, a)
  {
    hide Goto, Expects, Nullable;
    assert Wanted(g, Goto(g, C[t.0], t.1), a);
    ReachSelf(ReadsOf(g, C, Nullable(g)), t);
    assert a in DirectOf(g, C)(t);
  }

  /** A nonterminal that an item behind the transition expects, and that derives nothing, is a transition read from it. */
  lemma ReadsOver(g: Grammar, C: seq<ItemSet>, t: Trans, to: nat, it: Item, tree: Tree) returns (u: Trans)
    requires g.Wf() && AutomatonOk(g, C) && IsTrans(g, C, t) && Edge(g, C, t.0, t.1, to)
    requires it in C[to] && Expects(g, it, SymbolOf(g, tree)) && ValidTree(g, tree) && Yield(tree) == []
    ensures u == (to, SymbolOf(g, tree)) && IsTrans(g, C, u) && u in Reads(g, C, Nullable(g), t)
  {
    hide AutomatonOk, Edge, Goto, Expects, Target, Yield, Wanted, ValidTree, Grammar.Derives;
    var x := SymbolOf(g, tree);
    TreeDerives(g, tree);
    EmptyTree(g, tree);
    EdgeTarget(g, C, t.0, t.1, to);
    EdgeInside(g, C, t.0, t.1, to);
    EdgeGoto(g, C, t.0, t.1, to);
    WantedBy(g, C[to], it, x);
    u := (to, x);
  }

  lemma WantedBy(g: Grammar, I: ItemSet, it: Item, x: Symbol)
    requires it in I && Expects(g, it, x)
    ensures Wanted(g, I, x)
  {
  }

  lemma EdgeGoto(g: Grammar, C: seq<ItemSet>, from: nat, x: Symbol, to: nat)
    requires Edge(g, C, from, x, to)
    ensures from < |C| && to < |C| && C[to] == Goto(g, C[from], x)
  {
    hide Goto;
  }

  lemma EmptyTree(g: Grammar, tree: Tree)
    requires g.Wf() && ValidTree(g, tree) && Yield(tree) == []
    ensures SymbolOf(g, tree) in g.nonterminals && Kinds(Yield(tree)) == []
  {
  }

  lemma ReadMore(g: Grammar, C: seq<ItemSet>, t: Trans, u: Trans, a: Symbol)
    requires u in Reads(g, C, Nullable(g), t) && InRead(g, C, Nullable(g), u, a)
    ensures InRead(g, C, Nullable(g), t, a)
  {
    hide Reads, Direct, Nullable, Digraph.InSolution;
    var R := ReadsOf(g, C, Nullable(g));
    assert u in R(t);
    ReachEdge(R, t, u);
    Digraph.SolutionFollowsReach(R, DirectOf(g, C), t, u);
  }

  /** What the trees of the rest of an item's right side begin with is read behind the transition into the item's state. */
  lemma {:induction false} ReadsFirst(g: Grammar, C: seq<ItemSet>, t: Trans, to: nat, p: nat, k: nat, ts: seq<Tree>)
    requires g.Wf() && AutomatonOk(g, C) && IsTrans(g, C, t) && Edge(g, C, t.0, t.1, to)
    requires p < |g.prods| && k <= |g.prods[p].rhs| && Item(p, k) in C[to] && Symbols(g, ts) == g.prods[p].rhs[k..]
    requires (forall i :: 0 <= i < |ts| ==> ValidTree(g, ts[i])) && Yields(ts) != [] && Yields(ts)[0].kind in g.terminals
    ensures InRead(g, C, Nullable(g), t, Yields(ts)[0].kind)
    decreases ts
  {
    hide AutomatonOk, Edge, InRead, Nullable, IsTrans, Grammar.Wf, Yield, Yields, Expects, ValidTree, Symbols;
    NonEmptyYields(ts);
    EdgeInside(g, C, t.0, t.1, to);
    YieldsFirst(ts);
    var a, x := Yields(ts)[0].kind, SymbolOf(g, ts[0]);
    FirstSymbol(g, p, k, ts);
    if Yield(ts[0]) == [] {
      var u := ReadsOver(g, C, t, to, Item(p, k), ts[0]);
      var to1 := Transition(g, C, to, Item(p, k));
      ReadsFirst(g, C, u, to1, p, k + 1, ts[1..]);
      ReadMore(g, C, t, u, a);
    } else {
      match ts[0]
      case Leaf(tok) =>
        LeafYield(tok);
        ReadsDirectly(g, C, t, to, Item(p, k), a);
      case Node(q, us) =>
        NodeYield(q, us);
        NodeMeans(g, q, us);
        Asked(g, C, to, Item(p, k), q);
        assert g.prods[q].rhs[0..] == g.prods[q].rhs;
        ReadsFirst(g, C, t, to, q, 0, us);
    }
  }

  /** A transition's state holds the productions of its nonterminal. */
  lemma Begins(g: Grammar, C: seq<ItemSet>, t: Trans, p: nat)
    requires AutomatonOk(g, C) && IsTrans(g, C, t) && 1 <= p < |g.prods| && g.prods[p].name == t.1
    ensures Item(p, 0) in C[t.0]
  {
    hide AutomatonOk;
    var q :| q in C[t.0] && Expects(g, q, t.1);
    Asked(g, C, t.0, q, p);
  }

  lemma ReadFollows(g: Grammar, C: seq<ItemSet>, t: Trans, a: Symbol)
    requires InRead(g, C, Nullable(g), t, a)
    ensures InFollow(g, C, Nullable(g), t, a)
  {
    hide InRead, IsTrans, Includes, Nullable;
    assert IncludesPath(g, C, Nullable(g), [t]);
  }

  lemma IncludesMore(g: Grammar, C: seq<ItemSet>, t: Trans, u: Trans, a: Symbol)
    requires Includes(g, C, Nullable(g), t, u) && IsTrans(g, C, u) && InFollow(g, C, Nullable(g), u, a)
    ensures InFollow(g, C, Nullable(g), t, a)
  {
    hide InRead, IsTrans, Includes, Nullable;
    var p :| IncludesPath(g, C, Nullable(g), p) && p[0] == u && InRead(g, C, Nullable(g), p[|p| - 1], a);
    assert IncludesPath(g, C, Nullable(g), [t] + p);
  }

  /** Where the symbols behind the dot derive nothing, the transition over the one at the dot includes the outer one. */
  lemma Passes(g: Grammar, C: seq<ItemSet>, u: seq<Symbol>, f: Frame, states: seq<nat>)
    requires g.Wf() && AutomatonOk(g, C) && FrameOk(g, f) && f.after == []
    requires Spelled(g, C, states, u + g.prods[f.prod].rhs[..f.dot])
    requires states[|u|] < |C| && Item(f.prod, 0) in C[states[|u|]]
    requires IsTrans(g, C, (states[|u| + f.dot], SymbolAt(g, f)))
    ensures Includes(g, C, Nullable(g), (states[|u| + f.dot], SymbolAt(g, f)), (states[|u|], g.prods[f.prod].name))
  {
    hide AutomatonOk, Edge, IsTrans, Spelled, Grammar.Derives, Ends, Nullable;
    var rhs := g.prods[f.prod].rhs;
    SpelledLength(g, C, states, u + rhs[..f.dot]);
    SpelledEnds(g, C, states, u, rhs[..f.dot]);
    AllVanish(g, rhs[f.dot + 1..]);
    assert rhs[0..f.dot] == rhs[..f.dot];
    var it := Item(f.prod, 0);
    var t, o := (states[|u| + f.dot], SymbolAt(g, f)), (states[|u|], g.prods[f.prod].name);
    assert IncludesAt(g, C, Nullable(g), t, o, it, f.dot);
    assert IncludesBy(g, C, Nullable(g), t, o, it);
  }

  /** A form that derives nothing consists of nullable nonterminals. */
  lemma AllVanish(g: Grammar, w: seq<Symbol>)
    requires g.Wf() && g.Derives(w, []) && forall x :: x in w ==> x in g.terminals || x in g.nonterminals
    ensures Vanishes(g, Nullable(g), w)
  {
    hide Grammar.Derives, ValidTree, Yield;
    assert Kinds([]) == [];
    var ts := FormForest(g, w, []);
    SymbolsLength(g, ts);
    forall i | 0 <= i < |w|
      ensures w[i] !in g.terminals && w[i] in Nullable(g)
    {
      assert Symbols(g, ts)[i] == SymbolOf(g, ts[i]);
      YieldsNothing(ts, i);
      TreeDerives(g, ts[i]);
      EmptyTree(g, ts[i]);
    }
  }

  lemma FormForest(g: Grammar, a: seq<Symbol>, w: seq<Token>) returns (ts: seq<Tree>)
    requires g.Derives(a, Kinds(w))
    ensures Forest(g, ts, a, w)
  {
    var n: nat :| g.DerivesIn(a, Kinds(w), n);
    ts := DerivationForest(g, a, w, n);
  }

  lemma {:induction false} YieldsNothing(ts: seq<Tree>, i: nat)
    requires Yields(ts) == [] && i < |ts|
    ensures Yield(ts[i]) == []
  {
    hide Yield, Yields;
    YieldsFirst(ts);
    if i > 0 {
      YieldsNothing(ts[1..], i - 1);
    }
  }

  /** Tokens of given kinds. */
  function Tokens(w: seq<Symbol>): (ts: seq<Token>)
    ensures Kinds(ts) == w
  {
    seq(|w|, i requires 0 <= i < |w| => Token(w[i], ""))
  }

  /** Trees for the symbols behind the dot. */
  lemma AfterForest(g: Grammar, f: Frame) returns (ts: seq<Tree>)
    requires FrameOk(g, f) && f.after != []
    ensures Symbols(g, ts) == g.prods[f.prod].rhs[f.dot + 1..] && forall i :: 0 <= i < |ts| ==> ValidTree(g, ts[i])
    ensures Yields(ts) != [] && Yields(ts)[0].kind == f.after[0] && f.after[0] in g.terminals
  {
    hide Grammar.Derives, ValidTree, Yields, Symbols;
    ts := FormForest(g, g.prods[f.prod].rhs[f.dot + 1..], Tokens(f.after));
    assert Kinds(Yields(ts))[0] == f.after[0];
  }

  /** What the symbols behind the dot begin with is read. */
  lemma ReadsBehind(g: Grammar, C: seq<ItemSet>, t: Trans, f: Frame)
    requires g.Wf() && AutomatonOk(g, C) && FrameOk(g, f) && f.after != []
    requires IsTrans(g, C, t) && t.1 == SymbolAt(g, f) && Item(f.prod, f.dot) in C[t.0]
    ensures InRead(g, C, Nullable(g), t, f.after[0])
  {
    hide AutomatonOk, Edge, InRead, Grammar.Derives, ValidTree, Yield, Yields, Wanted, Nullable, Symbols, Expects;
    var to := Transition(g, C, t.0, Item(f.prod, f.dot));
    EdgeInside(g, C, t.0, t.1, to);
    var ts := AfterForest(g, f);
    ReadsFirst(g, C, t, to, f.prod, f.dot + 1, ts);
  }

  /** Behind a context, what can follow the hole is in the follow set of the transition over it. */
  lemma {:induction false} FollowsInContext(g: Grammar, C: seq<ItemSet>, fs: seq<Frame>, states: seq<nat>)
    requires g.Wf() && AutomatonOk(g, C) && ContextOk(g, fs) && Hole(g, fs) in g.nonterminals
    requires Spelled(g, C, states, LeftOf(g, fs))
    ensures var t := (states[|LeftOf(g, fs)|], Hole(g, fs));
            IsTrans(g, C, t) && InFollow(g, C, Nullable(g), t, FirstOr(RightOf(fs)))
  {
    hide AutomatonOk, IsTrans, InFollow, Spelled, Grammar.Wf, FrameOk, FrontOf, SymbolAt;
    if fs == [] {
      StartFollows(g, C, states);
    } else {
      var n := |fs| - 1;
      var u, f := LeftOf(g, fs[..n]), fs[n];
      FrameIs(g, f);
      assert LeftOf(g, fs) == u + g.prods[f.prod].rhs[..f.dot];
      assert u + g.prods[f.prod].rhs[..f.dot][..0] == u;
      SpelledLength(g, C, states, LeftOf(g, fs));
      Shorter(g, C, states, u, g.prods[f.prod].rhs[..f.dot], 0);
      FollowsInContext(g, C, fs[..n], states[..|u| + 1]);
      FollowsFrame(g, C, u, f, states, RightOf(fs[..n]));
    }
  }

  lemma FrameIs(g: Grammar, f: Frame)
    requires g.Wf() && FrameOk(g, f)
    ensures 1 <= f.prod < |g.prods| && f.dot < |g.prods[f.prod].rhs| && g.prods[f.prod].name in g.nonterminals
    ensures SymbolAt(g, f) == g.prods[f.prod].rhs[f.dot] && FrontOf(g, f) == g.prods[f.prod].rhs[..f.dot]
  {
  }

  lemma StartFollows(g: Grammar, C: seq<ItemSet>, states: seq<nat>)
    requires g.Wf() && AutomatonOk(g, C) && Spelled(g, C, states, [])
    ensures states == [0] && IsTrans(g, C, (0, Goal(g))) && InFollow(g, C, Nullable(g), (0, Goal(g)), END)
  {
    hide Edge, Goto, Closure, Reads, Terms, Expanded, StateOk, Nullable;
    FirstHasStart(g, C);
    WantedBy(g, C[0], Item(0, 0), Goal(g));
    var t := (0, Goal(g));
    ReachSelf(ReadsOf(g, C, Nullable(g)), t);
    assert END in DirectOf(g, C)(t);
    assert IncludesPath(g, C, Nullable(g), [t]) && InRead(g, C, Nullable(g), t, END);
  }

  /** One frame further down. */
  lemma FollowsFrame(g: Grammar, C: seq<ItemSet>, u: seq<Symbol>, f: Frame, states: seq<nat>, w: seq<Symbol>)
    requires g.Wf() && AutomatonOk(g, C) && FrameOk(g, f) && SymbolAt(g, f) in g.nonterminals
    requires Spelled(g, C, states, u + g.prods[f.prod].rhs[..f.dot])
    requires var t := (states[|u|], g.prods[f.prod].name); IsTrans(g, C, t) && InFollow(g, C, Nullable(g), t, FirstOr(w))
    ensures var t := (states[|u| + f.dot], SymbolAt(g, f));
            IsTrans(g, C, t) && InFollow(g, C, Nullable(g), t, FirstOr(f.after + w))
  {
    hide AutomatonOk, Edge, InFollow, Spelled, Grammar.Derives, Includes, Wanted;
    var rhs := g.prods[f.prod].rhs;
    SpelledLength(g, C, states, u + rhs[..f.dot]);
    var outer, t := (states[|u|], g.prods[f.prod].name), (states[|u| + f.dot], rhs[f.dot]);
    Begins(g, C, outer, f.prod);
    ItemAlong(g, C, states, u, f.prod, f.dot);
    WantedBy(g, C[t.0], Item(f.prod, f.dot), t.1);
    if f.after == [] {
      Passes(g, C, u, f, states);
      IncludesMore(g, C, t, outer, FirstOr(w));
      assert [] + w == w;
    } else {
      ReadsBehind(g, C, t, f);
      assert (f.after + w)[0] == f.after[0];
      ReadFollows(g, C, t, f.after[0]);
    }
  }

  lemma StartLooksAtEnd(g: Grammar, C: seq<ItemSet>, from: nat, p: nat, st: nat)
    requires from < |C| && p < |g.prods| && Item(p, 0) in C[from] && Ends(g, C, from, g.prods[p].rhs) == st
    requires Item(p, |g.prods[p].rhs|) in C[st]
    ensures Lookback(g, C, (from, g.prods[p].name), st, Item(p, |g.prods[p].rhs|))
  {
    hide Ends;
    var t, it, r := (from, g.prods[p].name), Item(p, 0), Item(p, |g.prods[p].rhs|);
    assert g.prods[p].rhs[0..] == g.prods[p].rhs;
    assert Matches(g, it, r);
    assert LookbackBy(g, C, t, it, st, r);
  }

  /** The complete item at the end of a path looks back at the transition where its right side begins. */
  lemma LooksBackFrom(g: Grammar, C: seq<ItemSet>, states: seq<nat>, before: seq<Symbol>, p: nat)
    requires AutomatonOk(g, C) && 1 <= p < |g.prods| && Spelled(g, C, states, before + g.prods[p].rhs)
    requires states[|states| - 1] < |C| && Item(p, |g.prods[p].rhs|) in C[states[|states| - 1]]
    requires IsTrans(g, C, (states[|before|], g.prods[p].name))
    ensures Lookback(g, C, (states[|before|], g.prods[p].name), states[|states| - 1], Item(p, |g.prods[p].rhs|))
  {
    hide AutomatonOk, Spelled, Ends, Wanted, Lookback;
    SpelledLength(g, C, states, before + g.prods[p].rhs);
    Begins(g, C, (states[|before|], g.prods[p].name), p);
    SpelledEnds(g, C, states, before, g.prods[p].rhs);
    StartLooksAtEnd(g, C, states[|before|], p, states[|states| - 1]);
  }

  lemma CoversAt(g: Grammar, C: seq<ItemSet>, states: seq<nat>, before: seq<Symbol>, p: nat, a: Symbol)
    requires g.Wf() && AutomatonOk(g, C) && 1 <= p < |g.prods| && CanFollow(g, before, p, a)
    requires Spelled(g, C, states, before + g.prods[p].rhs) && states[|states| - 1] < |C|
    requires Item(p, |g.prods[p].rhs|) in C[states[|states| - 1]]
    ensures IsLookahead(g, C, (Item(p, |g.prods[p].rhs|), states[|states| - 1]), a)
  {
    hide AutomatonOk, InFollow, IsTrans, ContextOk, LeftOf, RightOf, Hole, Spelled, Lookback;
    var fs :| ContextOk(g, fs) && LeftOf(g, fs) == before && Hole(g, fs) == g.prods[p].name && a == FirstOr(RightOf(fs));
    var rhs := g.prods[p].rhs;
    assert before + rhs[..0] == before && before + rhs[..|rhs|] == before + rhs;
    SpelledLength(g, C, states, before + rhs);
    Shorter(g, C, states, before, rhs, 0);
    FollowsInContext(g, C, fs, states[..|before| + 1]);
    LooksBackFrom(g, C, states, before, p);
  }

  /** Every token that can follow is among the lookaheads of the item, and the lookaheads are there. */
  lemma LookaheadsSuffice(g: Grammar, C: seq<ItemSet>, pr: Params)
    requires g.Wf() && AutomatonOk(g, C)
    requires forall k, a :: IsLookahead(g, C, k, a) ==> Listed(pr.lookaheads, k, a)
    ensures LookaheadsCover(g, C, pr)
  {
    hide AutomatonOk, IsLookahead, Edge, CanFollow;
    forall states, before, p, a |
      && 1 <= p < |g.prods| && CanFollow(g, before, p, a) && Spelled(g, C, states, before + g.prods[p].rhs)
      && states[|states| - 1] < |C| && Item(p, |g.prods[p].rhs|) in C[states[|states| - 1]]
      ensures Listed(pr.lookaheads, (Item(p, |g.prods[p].rhs|), states[|states| - 1]), a)
    {
      CoversAt(g, C, states, before, p, a);
    }
  }

  // ---------- No lookahead list is missing ----------

  /** An item with its dot at k came from the same production's start, over the symbols before the dot. */
  lemma {:induction false} CameFrom(g: Grammar, C: seq<ItemSet>, st: nat, p: nat, k: nat) returns (from: nat)
    requires g.Wf() && AutomatonOk(g, C) && st < |C| && p < |g.prods| && k <= |g.prods[p].rhs| && Item(p, k) in C[st]
    ensures from < |C| && Item(p, 0) in C[from] && Ends(g, C, from, g.prods[p].rhs[..k]) == st
    decreases k
  {
    hide Goto, Closure, Expanded, StateOk, Target;
    var rhs := g.prods[p].rhs;
    if k == 0 {
      from := st;
    } else {
      FirstHasStart(g, C);
      assert Entered(g, C, st);
      var j: nat, x :| j < st && Edge(g, C, j, x, st);
      StepBack(g, C, j, x, st, Item(p, k));
      from := CameFrom(g, C, j, p, k - 1);
      EdgeTarget(g, C, j, x, st);
      assert rhs[..k][..k - 1] == rhs[..k - 1];
    }
  }

  lemma StartHasTrans(g: Grammar, C: seq<ItemSet>, from: nat, p: nat)
    requires g.Wf() && AutomatonOk(g, C) && from < |C| && 1 <= p < |g.prods| && Item(p, 0) in C[from]
    ensures IsTrans(g, C, (from, g.prods[p].name))
  {
    hide AutomatonOk, Goto, Expects;
    HasTransition(g, C, from, p);
    GotoItems(g, C[from], g.prods[p].name);
  }

  /** Every complete item of a state has an entry, so that looking it up never fails. */
  lemma CompleteHasEntry(g: Grammar, C: seq<ItemSet>, st: nat, p: nat)
    requires g.Wf() && AutomatonOk(g, C) && st < |C| && 1 <= p < |g.prods| && Item(p, |g.prods[p].rhs|) in C[st]
    ensures HasEntry(g, C, (Item(p, |g.prods[p].rhs|), st))
  {
    hide AutomatonOk, Ends, Lookback, IsTrans;
    var rhs := g.prods[p].rhs;
    var from := CameFrom(g, C, st, p, |rhs|);
    assert rhs[..|rhs|] == rhs;
    StartHasTrans(g, C, from, p);
    StartLooksAtEnd(g, C, from, p, st);
  }

  // ---------- The whole construction ----------

  /** The lookaheads of the items are what the construction computes. */
  ghost predicate LalrLookaheads(g: Grammar, C: seq<ItemSet>, la: Lookaheads)
  {
    (forall k :: k in la <==> HasEntry(g, C, k)) && forall k, a :: Listed(la, k, a) <==> IsLookahead(g, C, k, a)
  }

  /** The completed start item and a reduction on the end mark in one state. */
  ghost predicate AcceptClash(g: Grammar, C: seq<ItemSet>, st: nat, it: Item)
    requires st < |C|
  {
    Item(0, 1) in C[st] && it in C[st] && IsReduce(g, it) && IsLookahead(g, C, (it, st), END)
  }

  ghost predicate Fits(g: Grammar) { forall C :: AutomatonOk(g, C) ==> Few(g, C) }

  /** lr_parse_table: the item sets, their lookaheads, and the tables; the only error is a reduction on $end at the accept. */
  method LrParseTable(g: Grammar, precedence: map<Symbol, Prec>) returns (ok: bool, t: Tables, pr: Params)
    requires g.Wf() && Fits(g)
    ensures pr.precedence == precedence && AutomatonOk(g, t.C) && LalrLookaheads(g, t.C, pr.lookaheads)
    ensures LookaheadsCover(g, t.C, pr)
    ensures ok ==> TablesOk(g, t) && RowsFolded(g, pr, t)
    ensures !ok ==> exists st, it :: 0 <= st < |t.C| && AcceptClash(g, t.C, st, it)
  {
    hide AutomatonOk, TablesOk, RowsFolded, HasEntry, IsLookahead, StateFails, LookaheadsCover, AcceptClash, Few;
    var C := Lr0Items(g);
    var la := AddLalrLookaheads(g, C);
    pr := Params(precedence, la);
    LookaheadsSuffice(g, C, pr);
    ok, t := BuildTables(g, C, pr);
    if !ok {
      ghost var st :| 0 <= st < |C| && StateFails(g, C, pr, st);
      ghost var it := FailsAtAccept(g, C, pr, st);
    }
  }

  /** With these lookaheads the construction of a state fails only there. */
  lemma FailsAtAccept(g: Grammar, C: seq<ItemSet>, pr: Params, st: nat) returns (it: Item)
    requires g.Wf() && AutomatonOk(g, C) && LalrLookaheads(g, C, pr.lookaheads) && st < |C| && StateFails(g, C, pr, st)
    ensures AcceptClash(g, C, st, it)
  {
    hide AutomatonOk, HasEntry, IsLookahead, Fold;
    EntriesThere(g, C, pr, st);
    var a :| Fold(g, pr, a, StateCands(g, C, pr, st, a)) == None;
    var cs := StateCands(g, C, pr, st, a);
    CandsAre(g, C, pr, st, a);
    FailsOnlyAtAccept(g, C, pr, st, a, cs);
    var c :| c in cs && c.Reduce?;
    it := c.it;
    ReduceListed(g, C, pr, st, C[st], a, c);
    assert Listed(pr.lookaheads, (it, st), END);
  }

  lemma EntriesThere(g: Grammar, C: seq<ItemSet>, pr: Params, st: nat)
    requires g.Wf() && AutomatonOk(g, C) && LalrLookaheads(g, C, pr.lookaheads) && st < |C|
    ensures forall it :: it in C[st] && IsReduce(g, it) ==> (it, st) in pr.lookaheads
  {
    hide AutomatonOk, HasEntry, IsLookahead;
    forall it | it in C[st] && IsReduce(g, it)
      ensures (it, st) in pr.lookaheads
    {
      CompleteHasEntry(g, C, st, it.prod);
    }
  }

  lemma CandsAre(g: Grammar, C: seq<ItemSet>, pr: Params, st: nat, a: Symbol)
    requires g.Wf() && AutomatonOk(g, C) && st < |C|
    ensures forall c :: c in StateCands(g, C, pr, st, a) ==> CandOk(g, C, st, a, c)
  {
    hide Collected, Expanded, Cands, CandOk;
    CandsOk(g, C, pr, st, C[st], a);
  }

  /** A reduction is a candidate only for its lookaheads. */
  lemma {:induction false} ReduceListed(g: Grammar, C: seq<ItemSet>, pr: Params, st: nat, I: ItemSet, a: Symbol, c: Candidate)
    requires st < |C| && c in Cands(g, C, pr, st, I, a) && c.Reduce?
    ensures c.it in I && IsReduce(g, c.it) && Listed(pr.lookaheads, (c.it, st), a)
  {
    hide Goto, IndexOf;
    var n := |I| - 1;
    if c in Cands(g, C, pr, st, I[..n], a) {
      ReduceListed(g, C, pr, st, I[..n], a, c);
    } else {
      if (I[n], st) in pr.lookaheads {
        ReduceCandsAre(I[n], pr.lookaheads[(I[n], st)], a);
      }
    }
  }
}
