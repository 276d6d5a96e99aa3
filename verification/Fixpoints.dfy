/** The change-until-stable loops over a grammar, each exact with respect to derivations. */
module Fixpoints {
  import opened Common
  import opened Grammars

  // ---------- Nonterminals that derive a string over a base alphabet ----------

  ghost predicate Over(w: seq<Symbol>, base: set<Symbol>) { forall s :: s in w ==> s in base }

  /** s derives some string all of whose symbols are in base. */
  ghost predicate Productive(g: Grammar, base: set<Symbol>, s: Symbol)
  {
    exists w :: Over(w, base) && g.Derives([s], w)
  }

  ghost predicate ProductiveForm(g: Grammar, base: set<Symbol>, a: seq<Symbol>)
  {
    exists w :: Over(w, base) && g.Derives(a, w)
  }

  lemma {:induction false} ProductiveParts(g: Grammar, base: set<Symbol>, a: seq<Symbol>)
    requires forall s :: s in a ==> Productive(g, base, s)
    ensures ProductiveForm(g, base, a)
  {
    hide Grammar.Derives;
    if a == [] {
      g.DerivesSelf(a);
      assert Over([], base);
    } else {
      ProductiveParts(g, base, a[1..]);
      assert Productive(g, base, a[0]);
      var v :| Over(v, base) && g.Derives([a[0]], v);
      var w :| Over(w, base) && g.Derives(a[1..], w);
      g.DerivesConcat([a[0]], v, a[1..], w);
      assert [a[0]] + a[1..] == a;
      assert Over(v + w, base);
    }
  }

  lemma ProductiveRule(g: Grammar, base: set<Symbol>, p: nat)
    requires 1 <= p < |g.prods| && forall s :: s in g.prods[p].rhs ==> Productive(g, base, s)
    ensures Productive(g, base, g.prods[p].name)
  {
    ProductiveParts(g, base, g.prods[p].rhs);
    var w :| Over(w, base) && g.Derives(g.prods[p].rhs, w);
    g.DerivesRule(p);
    g.DerivesTrans([g.prods[p].name], g.prods[p].rhs, w);
  }

  /** No production has all of its right side marked and its name unmarked. */
  ghost predicate Stable(g: Grammar, marked: set<Symbol>)
  {
    forall p :: 1 <= p < |g.prods| && Over(g.prods[p].rhs, marked) ==> g.prods[p].name in marked
  }

  lemma {:induction false} StableBack(g: Grammar, marked: set<Symbol>, a: seq<Symbol>, b: seq<Symbol>, n: nat)
    requires Stable(g, marked) && g.DerivesIn(a, b, n) && Over(b, marked)
    ensures Over(a, marked)
    decreases n
  {
    if n > 0 {
      var c :| g.Step(a, c) && g.DerivesIn(c, b, n - 1);
      StableBack(g, marked, c, b, n - 1);
      var i: nat, p: nat :| g.CanRewrite(a, i, p) && c == g.Rewrite(a, i, p);
      StableStep(g, marked, a, i, p);
    }
  }

  lemma StableStep(g: Grammar, marked: set<Symbol>, a: seq<Symbol>, i: nat, p: nat)
    requires Stable(g, marked) && g.CanRewrite(a, i, p) && Over(g.Rewrite(a, i, p), marked)
    ensures Over(a, marked)
  {
    var c := g.Rewrite(a, i, p);
    forall x | x in g.prods[p].rhs
      ensures x in marked
    {
      var l :| 0 <= l < |g.prods[p].rhs| && g.prods[p].rhs[l] == x;
      assert c[i + l] == x;
    }
    forall s | s in a
      ensures s in marked
    {
      var k :| 0 <= k < |a| && a[k] == s;
      if k < i {
        assert c[k] == s;
      } else if k > i {
        assert c[k - 1 + |g.prods[p].rhs|] == s;
      }
    }
  }

  /** A stable marking that holds the base holds everything productive. */
  lemma StableComplete(g: Grammar, base: set<Symbol>, marked: set<Symbol>, s: Symbol)
    requires Stable(g, marked) && base <= marked && Productive(g, base, s)
    ensures s in marked
  {
    var w :| Over(w, base) && g.Derives([s], w);
    var n: nat :| g.DerivesIn([s], w, n);
    StableBack(g, marked, [s], w, n);
    assert s in [s];
  }

  lemma NothingOverNothing(w: seq<Symbol>)
    requires w != []
    ensures !Over(w, {})
  {
    assert w[0] in w;
  }

  /** The nonterminals that derive the empty string. */
  method ComputeNullableNonterminals(g: Grammar) returns (nullable: set<Symbol>)
    requires g.Wf()
    ensures forall n :: n in nullable <==> g.Derives([n], [])
  {
    nullable := {};
    var numNullable := 0;
    ghost var names := set n | n in g.nonterminals;
    while true
      invariant nullable <= names && numNullable == |nullable|
      invariant forall n :: n in nullable ==> Productive(g, {}, n)
      decreases |names| - |nullable|
    {
      ghost var before := nullable;
      for p := 1 to |g.prods|
        invariant before <= nullable <= names
        invariant forall n :: n in nullable ==> Productive(g, {}, n)
        invariant forall q :: 1 <= q < p && Over(g.prods[q].rhs, before) ==> g.prods[q].name in nullable
      {
        var i := 0;
        while i < |g.prods[p].rhs| && g.prods[p].rhs[i] in nullable
          invariant i <= |g.prods[p].rhs| && Over(g.prods[p].rhs[..i], nullable)
        {
          i := i + 1;
        }
        if i == |g.prods[p].rhs| {
          assert g.prods[p].rhs[..i] == g.prods[p].rhs;
          ProductiveRule(g, {}, p);
          nullable := nullable + {g.prods[p].name};
        } else {
          assert g.prods[p].rhs[i] in g.prods[p].rhs;
        }
      }
      MarksGrow(before, nullable, names);
      if |nullable| == numNullable {
        break;
      }
      numNullable := |nullable|;
    }
    forall n | g.Derives([n], [])
      ensures n in nullable
    {
      assert Over([], {});
      StableComplete(g, {}, nullable, n);
    }
    forall n | n in nullable
      ensures g.Derives([n], [])
    {
      var w :| Over(w, {}) && g.Derives([n], w);
      if w != [] {
        NothingOverNothing(w);
      }
    }
  }

  // ---------- Nonterminals that derive no terminal string ----------

  function TerminalSet(g: Grammar): set<Symbol> { (set t | t in g.terminals) + {END} }

  function Marked(t: map<Symbol, bool>): set<Symbol> { set s | s in t && t[s] }

  /** p terminates when every symbol on its right side does. */
  method Terminates(rhs: seq<Symbol>, terminates: map<Symbol, bool>) returns (all: bool)
    requires forall s :: s in rhs ==> s in terminates
    ensures all <==> Over(rhs, Marked(terminates))
  {
    for i := 0 to |rhs|
      invariant Over(rhs[..i], Marked(terminates))
    {
      if !terminates[rhs[i]] {
        assert rhs[i] in rhs;
        return false;
      }
    }
    assert rhs[..|rhs|] == rhs;
    return true;
  }

  /** Has n a production all of whose symbols terminate? */
  method SomeTerminates(g: Grammar, n: Symbol, terminates: map<Symbol, bool>) returns (found: bool)
    requires g.Wf() && forall s :: s in g.terminals || s in g.nonterminals ==> s in terminates
    ensures found <==> exists p: nat :: g.IsProd(p, n) && Over(g.prods[p].rhs, Marked(terminates))
  {
    var pl := g.Prodnames(n);
    for i := 0 to |pl|
      invariant forall k :: 0 <= k < i ==> !Over(g.prods[pl[k]].rhs, Marked(terminates))
    {
      assert pl[i] in pl;
      found := Terminates(g.prods[pl[i]].rhs, terminates);
      if found {
        return;
      }
    }
    return false;
  }

  /** Every symbol has a mark; the terminals are marked and all marked symbols are productive. */
  ghost predicate MarksOk(g: Grammar, terminates: map<Symbol, bool>)
  {
    && (forall s :: s in terminates <==> s in g.terminals || s in g.nonterminals || s == END)
    && TerminalSet(g) <= Marked(terminates)
    && forall s :: s in Marked(terminates) ==> Productive(g, TerminalSet(g), s)
  }

  /** One pass over the nonterminals; without a change the marking is stable. */
  method Propagate(g: Grammar, t: map<Symbol, bool>) returns (terminates: map<Symbol, bool>, someChange: bool)
    requires g.Wf() && MarksOk(g, t)
    ensures MarksOk(g, terminates) && Marked(t) <= Marked(terminates)
    ensures if someChange then Marked(t) != Marked(terminates) else Stable(g, Marked(terminates))
  {
    hide MarksOk, Marked;
    terminates, someChange := t, false;
    MarksCover(g, t);
    for i := 0 to |g.nonterminals|
      invariant MarksOk(g, terminates) && Marked(t) <= Marked(terminates)
      invariant forall s :: s in g.terminals || s in g.nonterminals ==> s in terminates
      invariant forall n :: n in g.nonterminals ==> (terminates[n] <==> n in Marked(terminates))
      invariant someChange <==> Marked(t) != Marked(terminates)
      invariant forall k, p: nat :: 0 <= k < i && g.IsProd(p, g.nonterminals[k]) && Over(g.prods[p].rhs, Marked(t)) ==>
                  g.nonterminals[k] in Marked(terminates)
    {
      var n := g.nonterminals[i];
      var found := SomeTerminates(g, n, terminates);
      if found {
        ghost var p: nat :| g.IsProd(p, n) && Over(g.prods[p].rhs, Marked(terminates));
        if !terminates[n] {
          MarkOne(g, terminates, n, p);
          terminates := terminates[n := true];
          someChange := true;
        }
      }
    }
    if !someChange {
      assert forall p: nat :: 1 <= p < |g.prods| ==> g.prods[p].name in g.nonterminals;
    }
  }

  lemma MarksCover(g: Grammar, t: map<Symbol, bool>)
    requires MarksOk(g, t)
    ensures forall s :: s in g.terminals || s in g.nonterminals ==> s in t && (t[s] <==> s in Marked(t))
  {
  }

  lemma MarkOne(g: Grammar, t: map<Symbol, bool>, n: Symbol, p: nat)
    requires g.Wf() && MarksOk(g, t) && n in g.nonterminals && g.IsProd(p, n) && Over(g.prods[p].rhs, Marked(t)) && n in t
    ensures MarksOk(g, t[n := true]) && Marked(t[n := true]) == Marked(t) + {n}
  {
    ProductiveRule(g, TerminalSet(g), p);
  }

  /** The marks are exactly the symbols that derive a terminal string. */
  method TerminatingMarks(g: Grammar) returns (terminates: map<Symbol, bool>)
    requires g.Wf()
    ensures forall s :: s in g.nonterminals ==> s in terminates && (terminates[s] <==> Productive(g, TerminalSet(g), s))
  {
    hide Marked, MarksOk, Productive, Stable;
    terminates := (map t | t in g.terminals :: true) + map[END := true] + (map n | n in g.nonterminals :: false);
    StartMarks(g, terminates);
    var someChange := true;
    while someChange
      invariant MarksOk(g, terminates)
      invariant !someChange ==> Stable(g, Marked(terminates))
      decreases |AllSymbols(g)| - |Marked(terminates)|, someChange
    {
      ghost var before := terminates;
      terminates, someChange := Propagate(g, terminates);
      MarksInside(g, terminates);
      MarksGrow(Marked(before), Marked(terminates), AllSymbols(g));
    }
    MarksExact(g, terminates);
  }

  function AllSymbols(g: Grammar): set<Symbol> { TerminalSet(g) + set n | n in g.nonterminals }

  lemma MarksInside(g: Grammar, terminates: map<Symbol, bool>)
    requires MarksOk(g, terminates)
    ensures Marked(terminates) <= AllSymbols(g)
  {
  }

  lemma MarksExact(g: Grammar, terminates: map<Symbol, bool>)
    requires MarksOk(g, terminates) && Stable(g, Marked(terminates))
    ensures forall s :: s in g.nonterminals ==> s in terminates && (terminates[s] <==> Productive(g, TerminalSet(g), s))
  {
    forall s | s in g.nonterminals
      ensures s in terminates && (terminates[s] <==> Productive(g, TerminalSet(g), s))
    {
      assert terminates[s] <==> s in Marked(terminates);
      if Productive(g, TerminalSet(g), s) {
        StableComplete(g, TerminalSet(g), Marked(terminates), s);
      }
    }
  }

  lemma StartMarks(g: Grammar, terminates: map<Symbol, bool>)
    requires g.Wf()
    requires terminates == (map t | t in g.terminals :: true) + map[END := true] + (map n | n in g.nonterminals :: false)
    ensures MarksOk(g, terminates)
  {
    assert Marked(terminates) == TerminalSet(g);
    forall s | s in TerminalSet(g)
      ensures Productive(g, TerminalSet(g), s)
    {
      g.DerivesSelf([s]);
      assert Over([s], TerminalSet(g));
    }
  }

  lemma MarksGrow<T>(before: set<T>, after: set<T>, all: set<T>)
    requires before <= after <= all
    ensures |before| <= |after| <= |all| && (before != after ==> |before| < |after|)
  {
    SubsetSize(before, after);
    SubsetSize(after, all);
    if |before| == |after| {
      SubsetSize(before, after);
    }
  }

  /** The defined nonterminals from which no string of terminals can be derived. */
  method InfiniteCycles(g: Grammar) returns (infinite: seq<Symbol>)
    requires g.Wf()
    ensures forall s :: s in infinite <==>
                s in g.nonterminals && g.Prodnames(s) != [] && !Productive(g, TerminalSet(g), s)
  {
    var terminates := TerminatingMarks(g);
    infinite := [];
    for i := 0 to |g.nonterminals|
      invariant forall s :: s in infinite <==>
                  s in g.nonterminals[..i] && g.Prodnames(s) != [] && !Productive(g, TerminalSet(g), s)
    {
      var s := g.nonterminals[i];
      if !terminates[s] && g.Prodnames(s) != [] {
        infinite := infinite + [s];
      }
    }
  }

  // ---------- FIRST sets ----------

  type FirstMap = map<Symbol, seq<Symbol>>

  /** f is in the FIRST set of the form beta, read off the sets of its symbols. */
  ghost predicate InFirst(F: FirstMap, beta: seq<Symbol>, f: Symbol)
  {
    if beta == [] then f == EMPTY
    else beta[0] in F && ((f != EMPTY && f in F[beta[0]]) || (EMPTY in F[beta[0]] && InFirst(F, beta[1..], f)))
  }

  lemma {:induction false} InFirstConcat(F: FirstMap, a: seq<Symbol>, b: seq<Symbol>, f: Symbol)
    ensures InFirst(F, a + b, f) <==>
              (f != EMPTY && InFirst(F, a, f)) || (InFirst(F, a, EMPTY) && InFirst(F, b, f))
  {
    if a == [] {
      assert a + b == b;
    } else {
      assert (a + b)[1..] == a[1..] + b;
      InFirstConcat(F, a[1..], b, f);
    }
  }

  /** The FIRST list of a form (the generator's _first). */
  method FirstOf(F: FirstMap, beta: seq<Symbol>) returns (result: seq<Symbol>)
    requires forall x :: x in beta ==> x in F
    ensures forall f :: f in result <==> InFirst(F, beta, f)
    ensures forall i, j :: 0 <= i < j < |result| ==> result[i] != result[j]
  {
    result := [];
    for i := 0 to |beta|
      invariant EMPTY !in result && forall i, j :: 0 <= i < j < |result| ==> result[i] != result[j]
      invariant forall f :: InFirst(F, beta, f) <==> f in result || InFirst(F, beta[i..], f)
    {
      var x := beta[i];
      ghost var before := result;
      var xProducesEmpty := false;
      assert beta[i..][1..] == beta[i + 1..];
      for k := 0 to |F[x]|
        invariant xProducesEmpty <==> EMPTY in F[x][..k]
        invariant forall i, j :: 0 <= i < j < |result| ==> result[i] != result[j]
        invariant forall f :: f in result <==> f in before || (f != EMPTY && f in F[x][..k])
      {
        var f := F[x][k];
        if f == EMPTY {
          xProducesEmpty := true;
        } else if f !in result {
          result := result + [f];
        }
      }
      assert F[x][..|F[x]|] == F[x];
      if !xProducesEmpty {
        return;
      }
    }
    result := result + [EMPTY];
  }

  /** a derives a form that starts with f; for the empty mark, a derives the empty string. */
  ghost predicate Starts(g: Grammar, a: seq<Symbol>, f: Symbol)
  {
    if f == EMPTY then g.Derives(a, []) else exists w :: g.Derives(a, [f] + w)
  }

  /** f may stand in the list of the nonterminal n. */
  ghost predicate EntryOk(g: Grammar, n: Symbol, f: Symbol) { Starts(g, [n], f) && (f == EMPTY || f in g.terminals) }

  ghost predicate FirstSound(g: Grammar, F: FirstMap)
  {
    && (forall s :: s in F <==> s in g.terminals || s in g.nonterminals || s == END)
    && (forall t :: t in g.terminals || t == END ==> F[t] == [t])
    && (forall n, f :: n in g.nonterminals && f in F[n] ==> EntryOk(g, n, f))
  }

  lemma SoundSymbol(g: Grammar, F: FirstMap, x: Symbol, f: Symbol)
    requires g.Wf() && FirstSound(g, F) && x in F && f in F[x] && (x in g.terminals || x in g.nonterminals)
    ensures Starts(g, [x], f) && (f == EMPTY || f in g.terminals)
  {
    if x in g.terminals {
      assert F[x] == [x];
      g.DerivesSelf([x]);
      assert [x] == [f] + [];
    }
  }

  /** A symbol read off sound sets for a form starts something that the form derives. */
  lemma {:induction false} SoundForm(g: Grammar, F: FirstMap, beta: seq<Symbol>, f: Symbol)
    requires g.Wf() && FirstSound(g, F) && InFirst(F, beta, f)
    requires forall s :: s in beta ==> s in g.terminals || s in g.nonterminals
    ensures Starts(g, beta, f) && (f == EMPTY || f in g.terminals)
  {
    hide Grammar.Derives, FirstSound;
    if beta == [] {
      g.DerivesSelf([]);
    } else {
      var x, rest := beta[0], beta[1..];
      assert [x] + rest == beta && x in beta;
      g.DerivesSelf([x]);
      if f != EMPTY && f in F[x] {
        SoundSymbol(g, F, x, f);
        var w :| g.Derives([x], [f] + w);
        g.DerivesSelf(rest);
        g.DerivesConcat([x], [f] + w, rest, rest);
        assert [f] + w + rest == [f] + (w + rest);
      } else {
        SoundForm(g, F, rest, f);
        SoundSymbol(g, F, x, EMPTY);
        if f == EMPTY {
          g.DerivesConcat([x], [], rest, []);
          var none: seq<Symbol> := [];
          assert none + none == none;
        } else {
          var w :| g.Derives(rest, [f] + w);
          g.DerivesConcat([x], [], rest, [f] + w);
          assert [] + ([f] + w) == [f] + w;
        }
      }
    }
  }

  /** Whatever FIRST of the right side of p has, FIRST of its left side has. */
  ghost predicate RuleStable(g: Grammar, F: FirstMap, p: nat)
    requires p < |g.prods|
  {
    forall f :: InFirst(F, g.prods[p].rhs, f) ==> g.prods[p].name in F && f in F[g.prods[p].name]
  }

  ghost predicate FirstStable(g: Grammar, F: FirstMap)
  {
    forall p: nat :: 1 <= p < |g.prods| ==> RuleStable(g, F, p)
  }

  /** Under stable sets nothing new can appear at the front of a form by rewriting it. */
  lemma {:induction false} StableFront(g: Grammar, F: FirstMap, a: seq<Symbol>, b: seq<Symbol>, n: nat, f: Symbol)
    requires FirstStable(g, F) && g.DerivesIn(a, b, n) && InFirst(F, b, f)
    ensures InFirst(F, a, f)
    decreases n
  {
    if n > 0 {
      var c :| g.Step(a, c) && g.DerivesIn(c, b, n - 1);
      StableFront(g, F, c, b, n - 1, f);
      var i: nat, p: nat :| g.CanRewrite(a, i, p) && c == g.Rewrite(a, i, p);
      StableFrontStep(g, F, a, i, p, f);
    }
  }

  lemma StableFrontStep(g: Grammar, F: FirstMap, a: seq<Symbol>, i: nat, p: nat, f: Symbol)
    requires FirstStable(g, F) && g.CanRewrite(a, i, p) && InFirst(F, g.Rewrite(a, i, p), f)
    ensures InFirst(F, a, f)
  {
    var u, x, r, v := a[..i], [a[i]], g.prods[p].rhs, a[i + 1..];
    assert a == u + x + v;
    InFirstConcat(F, u + r, v, f);
    InFirstConcat(F, u, r, f);
    InFirstConcat(F, u, r, EMPTY);
    InFirstConcat(F, u + x, v, f);
    InFirstConcat(F, u, x, f);
    InFirstConcat(F, u, x, EMPTY);
    assert x[1..] == [];
    assert RuleStable(g, F, p);
  }

  ghost predicate FirstExact(g: Grammar, F: FirstMap)
  {
    forall n :: n in g.nonterminals ==>
      && n in F
      && (forall t :: t in g.terminals ==> (t in F[n] <==> exists w :: g.Derives([n], [t] + w)))
      && (EMPTY in F[n] <==> g.Derives([n], []))
      && (forall f :: f in F[n] ==> f == EMPTY || f in g.terminals)
  }

  lemma ExactFirst(g: Grammar, F: FirstMap)
    requires g.Wf() && FirstSound(g, F) && FirstStable(g, F)
    ensures FirstExact(g, F)
  {
    forall n, f | n in g.nonterminals && (f == EMPTY || f in g.terminals)
      ensures f in F[n] <==> Starts(g, [n], f)
    {
      if Starts(g, [n], f) {
        var b :| g.Derives([n], b) && (if f == EMPTY then b == [] else exists w :: b == [f] + w);
        var k: nat :| g.DerivesIn([n], b, k);
        StableFront(g, F, [n], b, k, f);
      }
    }
    assert forall n, t :: n in g.nonterminals && t in g.terminals ==>
        (Starts(g, [n], t) <==> exists w :: g.Derives([n], [t] + w));
  }

  /** The (nonterminal, symbol) entries of a table; there are finitely many possible ones. */
  ghost function Entries(g: Grammar, F: FirstMap): set<(Symbol, Symbol)>
  {
    set n, f | n in g.nonterminals && n in F && f in F[n] :: (n, f)
  }

  ghost function AllEntries(g: Grammar): set<(Symbol, Symbol)>
  {
    set n, f | n in g.nonterminals && f in g.terminals + [EMPTY] :: (n, f)
  }

  /** F has grown from G, and someChange tells whether it really has. */
  ghost predicate Grown(g: Grammar, G: FirstMap, F: FirstMap, someChange: bool)
  {
    && Entries(g, G) <= Entries(g, F)
    && (!someChange ==> F == G)
    && (someChange ==> Entries(g, G) != Entries(g, F))
  }

  lemma AddEntry(g: Grammar, G: FirstMap, was: FirstMap, n: Symbol, f: Symbol, changed: bool)
    requires g.Wf() && FirstSound(g, was) && Grown(g, G, was, changed)
    requires n in g.nonterminals && f !in was[n] && Starts(g, [n], f) && (f == EMPTY || f in g.terminals)
    ensures FirstSound(g, was[n := was[n] + [f]]) && Grown(g, G, was[n := was[n] + [f]], true)
  {
    hide Starts;
    var F := was[n := was[n] + [f]];
    assert n != END && n !in g.terminals && n in was;
    forall m, h | m in g.nonterminals && h in F[m]
      ensures EntryOk(g, m, h)
    {
      if m != n || h != f {
        SoundSymbol(g, was, m, h);
      }
    }
    assert (n, f) in Entries(g, F) && (n, f) !in Entries(g, was);
    assert Entries(g, was) <= Entries(g, F) by {
      forall e | e in Entries(g, was)
        ensures e in Entries(g, F)
      {
        assert e.1 in F[e.0];
      }
    }
  }

  /** Append to First[n] the new symbols of FIRST of production p. */
  method AddProduction(g: Grammar, F0: FirstMap, n: Symbol, p: nat, ghost G: FirstMap, changed: bool)
    returns (F: FirstMap, someChange: bool)
    requires g.Wf() && FirstSound(g, F0) && g.IsProd(p, n) && Grown(g, G, F0, changed)
    ensures FirstSound(g, F) && Grown(g, G, F, someChange)
    ensures changed ==> someChange
    ensures !someChange ==> RuleStable(g, F, p)
  {
    F, someChange := F0, changed;
    assert forall s :: s in g.prods[p].rhs ==> s in g.terminals || s in g.nonterminals;
    var fs := FirstOf(F, g.prods[p].rhs);
    hide Starts, InFirst;
    for i := 0 to |fs|
      invariant FirstSound(g, F) && Grown(g, G, F, someChange) && (changed ==> someChange)
      invariant !someChange ==> F == F0 && forall k :: 0 <= k < i ==> fs[k] in F[n]
    {
      var f := fs[i];
      if f !in F[n] {
        assert f in fs;
        FirstRule(g, F0, p, f);
        AddEntry(g, G, F, n, f, someChange);
        F := F[n := F[n] + [f]];
        someChange := true;
      }
    }
  }

  lemma FirstRule(g: Grammar, F: FirstMap, p: nat, f: Symbol)
    requires g.Wf() && FirstSound(g, F) && 1 <= p < |g.prods| && InFirst(F, g.prods[p].rhs, f)
    ensures Starts(g, [g.prods[p].name], f) && (f == EMPTY || f in g.terminals)
  {
    var n, rhs := g.prods[p].name, g.prods[p].rhs;
    SoundForm(g, F, rhs, f);
    g.DerivesRule(p);
    if f == EMPTY {
      g.DerivesTrans([n], rhs, []);
    } else {
      var w :| g.Derives(rhs, [f] + w);
      g.DerivesTrans([n], rhs, [f] + w);
    }
  }

  /** One pass over all productions; without a change the sets are stable. */
  method FirstPass(g: Grammar, F0: FirstMap) returns (F: FirstMap, someChange: bool)
    requires g.Wf() && FirstSound(g, F0)
    ensures FirstSound(g, F) && Grown(g, F0, F, someChange)
    ensures !someChange ==> FirstStable(g, F)
  {
    hide Starts, InFirst, FirstSound, Entries, RuleStable;
    F, someChange := F0, false;
    for i := 0 to |g.nonterminals|
      invariant FirstSound(g, F) && Grown(g, F0, F, someChange)
      invariant !someChange ==> forall k, p: nat :: 0 <= k < i && g.IsProd(p, g.nonterminals[k]) ==> RuleStable(g, F, p)
    {
      var n := g.nonterminals[i];
      var pl := g.Prodnames(n);
      for j := 0 to |pl|
        invariant FirstSound(g, F) && Grown(g, F0, F, someChange)
        invariant !someChange ==> forall k, p: nat :: 0 <= k < i && g.IsProd(p, g.nonterminals[k]) ==> RuleStable(g, F, p)
        invariant !someChange ==> forall l :: 0 <= l < j ==> pl[l] < |g.prods| && RuleStable(g, F, pl[l])
      {
        assert pl[j] in pl;
        F, someChange := AddProduction(g, F, n, pl[j], F0, someChange);
      }
    }
    assert forall p: nat :: 1 <= p < |g.prods| ==> g.IsProd(p, g.prods[p].name) && g.prods[p].name in g.nonterminals;
  }

  /** FIRST of every nonterminal, exact with respect to derivations. */
  method ComputeFirst(g: Grammar) returns (F: FirstMap)
    requires g.Wf() && forall n :: n in g.nonterminals ==> g.Prodnames(n) != []
    ensures FirstExact(g, F)
  {
    hide Starts, InFirst, FirstSound, FirstStable, FirstExact, Entries;
    F := (map t | t in g.terminals :: [t]) + map[END := [END]] + (map n | n in g.nonterminals :: []);
    StartFirst(g, F);
    var someChange := true;
    while someChange
      invariant FirstSound(g, F)
      invariant !someChange ==> FirstStable(g, F)
      decreases |AllEntries(g)| - |Entries(g, F)|, someChange
    {
      ghost var before := F;
      F, someChange := FirstPass(g, F);
      EntriesInside(g, F);
      MarksGrow(Entries(g, before), Entries(g, F), AllEntries(g));
    }
    ExactFirst(g, F);
  }

  lemma StartFirst(g: Grammar, F: FirstMap)
    requires g.Wf()
    requires F == (map t | t in g.terminals :: [t]) + map[END := [END]] + (map n | n in g.nonterminals :: [])
    ensures FirstSound(g, F)
  {
  }

  lemma EntriesInside(g: Grammar, F: FirstMap)
    requires FirstSound(g, F)
    ensures Entries(g, F) <= AllEntries(g)
  {
  }
}
