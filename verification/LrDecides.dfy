/**
 The parser decides the language: over tables without conflicts, and when every nonterminal derives some string of
 terminals, it ends on every input, and accepts exactly the sentences.
 */
module LrDecides {
  import opened Common
  import opened Fixpoints
  import opened Grammars
  import opened LrItems
  import opened LrAutomaton
  import opened LrTable
  import opened LrEngine
  import opened LrComplete
  import LrLookaheads

  /** What infinite_cycles checks: every nonterminal derives some string of terminals. */
  ghost predicate AllProductive(g: Grammar) { forall n :: n in g.nonterminals ==> Productive(g, TerminalSet(g), n) }

  // ---------- Every path has a context ----------

  /** A context whose next production is the item's, with the item's passed symbols on the path w. */
  ghost predicate HasContext(g: Grammar, it: Item, w: seq<Symbol>)
  {
    ValidItem(g, it) &&
    if it.prod == 0 then w == g.prods[0].rhs[..it.dot]
    else exists fs :: ContextFor(g, fs, it, w)
  }

  ghost predicate ContextFor(g: Grammar, fs: seq<Frame>, it: Item, w: seq<Symbol>)
    requires ValidItem(g, it)
  {
    ContextOk(g, fs) && Hole(g, fs) == g.prods[it.prod].name && LeftOf(g, fs) + g.prods[it.prod].rhs[..it.dot] == w
  }

  /** The end mark is not derived from symbols of the grammar. */
  lemma NoEnd(g: Grammar, a: seq<Symbol>, w: seq<Symbol>)
    requires g.Wf() && g.Derives(a, w) && forall x :: x in a ==> x in g.terminals || x in g.nonterminals
    ensures END !in w
  {
    var n: nat :| g.DerivesIn(a, w, n);
    NoEndIn(g, a, w, n);
  }

  lemma {:induction false} NoEndIn(g: Grammar, a: seq<Symbol>, w: seq<Symbol>, n: nat)
    requires g.Wf() && g.DerivesIn(a, w, n) && END !in a
    ensures END !in w
    decreases n
  {
    if n > 0 {
      var c :| g.Step(a, c) && g.DerivesIn(c, w, n - 1);
      StepNoEnd(g, a, c);
      NoEndIn(g, c, w, n - 1);
    }
  }

  lemma StepNoEnd(g: Grammar, a: seq<Symbol>, c: seq<Symbol>)
    requires g.Wf() && g.Step(a, c) && END !in a
    ensures END !in c
  {
    var i: nat, p: nat :| g.CanRewrite(a, i, p) && c == g.Rewrite(a, i, p);
    assert END !in a[..i] && END !in a[i + 1..];
    forall x | x in g.prods[p].rhs
      ensures x != END
    {
      assert x in g.terminals || x in g.nonterminals;
    }
  }

  /** Symbols of right sides derive terminals. */
  lemma FormProductive(g: Grammar, a: seq<Symbol>) returns (w: seq<Symbol>)
    requires g.Wf() && AllProductive(g) && forall x :: x in a ==> x in g.terminals || x in g.nonterminals
    ensures AllTerminals(g, w) && g.Derives(a, w)
  {
    hide Productive, Grammar.Derives;
    forall x | x in a
      ensures Productive(g, TerminalSet(g), x)
    {
      if x in g.terminals {
        TerminalProductive(g, x);
      }
    }
    ProductiveParts(g, TerminalSet(g), a);
    w :| Over(w, TerminalSet(g)) && g.Derives(a, w);
    NoEnd(g, a, w);
  }

  lemma TerminalProductive(g: Grammar, x: Symbol)
    requires x in g.terminals
    ensures Productive(g, TerminalSet(g), x)
  {
    g.DerivesSelf([x]);
    assert Over([x], TerminalSet(g));
  }

  /** A context down to the symbol that the item expects. */
  lemma Deeper(g: Grammar, it: Item, w: seq<Symbol>) returns (fs: seq<Frame>)
    requires g.Wf() && AllProductive(g) && HasContext(g, it, w) && !Complete(g, it)
    ensures ContextOk(g, fs) && LeftOf(g, fs) == w && Hole(g, fs) == g.prods[it.prod].rhs[it.dot]
  {
    hide AllProductive, Grammar.Derives;
    var rhs := g.prods[it.prod].rhs;
    if it.prod == 0 {
      fs := [];
    } else {
      var outer :| ContextFor(g, outer, it, w);
      var after := FormProductive(g, rhs[it.dot + 1..]);
      fs := outer + [Frame(it.prod, it.dot, after)];
      assert fs[..|outer|] == outer;
    }
  }

  /** The items with a context for w are closed. */
  lemma ContextsClosed(g: Grammar, w: seq<Symbol>)
    requires g.Wf() && AllProductive(g)
    ensures Closed(g, iset it | HasContext(g, it, w))
  {
    hide AllProductive, HasContext;
    forall it, p | HasContext(g, it, w) && p in After(g, it)
      ensures HasContext(g, Item(p, 0), w)
    {
      NewContext(g, it, w, p);
    }
  }

  lemma NewContext(g: Grammar, it: Item, w: seq<Symbol>, p: nat)
    requires g.Wf() && AllProductive(g) && HasContext(g, it, w) && p in After(g, it)
    ensures HasContext(g, Item(p, 0), w)
  {
    hide AllProductive, ContextOk, LeftOf;
    var fs := Deeper(g, it, w);
    assert LeftOf(g, fs) + g.prods[p].rhs[..0] == w;
    assert ContextFor(g, fs, Item(p, 0), w);
  }

  /** Every item of the state at the end of a path has a context for the path. */
  lemma {:induction false} ItemsHaveContexts(g: Grammar, C: seq<ItemSet>, states: seq<nat>, w: seq<Symbol>)
    requires g.Wf() && AutomatonOk(g, C) && AllProductive(g) && Spelled(g, C, states, w) && states[|w|] < |C|
    ensures forall it :: it in C[states[|w|]] ==> HasContext(g, it, w)
    decreases |w|
  {
    hide AllProductive, HasContext, Closed, Closure, Expanded, StateOk, Grammar.Wf;
    var S := iset it | HasContext(g, it, w);
    ContextsClosed(g, w);
    if w == [] {
      StartContextIs(g);
      CloseFromLeast(g, [Item(0, 0)], 0, {}, S);
      ClosureIs(g, [Item(0, 0)]);
    } else {
      var n := |w| - 1;
      var I := C[states[n]];
      assert Edge(g, C, states[n], w[n], states[n + 1]);
      ItemsHaveContexts(g, C, states[..n + 1], w[..n]);
      forall it | it in Kernel(g, I, w[n])
        ensures it in S
      {
        ContextMoves(g, Item(it.prod, it.dot - 1), w);
      }
      CloseFromLeast(g, Kernel(g, I, w[n]), 0, {}, S);
      ClosureIs(g, Kernel(g, I, w[n]));
    }
  }

  lemma ClosureIs(g: Grammar, I: ItemSet)
    ensures Closure(g, I) == CloseFrom(g, I, 0, {})
  {
  }

  lemma StartContextIs(g: Grammar)
    requires g.Wf()
    ensures HasContext(g, Item(0, 0), [])
  {
  }

  /** Moving the dot over the last symbol of the path. */
  lemma ContextMoves(g: Grammar, it: Item, w: seq<Symbol>)
    requires w != [] && HasContext(g, it, w[..|w| - 1]) && Expects(g, it, w[|w| - 1])
    ensures HasContext(g, Item(it.prod, it.dot + 1), w)
  {
    hide ContextOk, LeftOf;
    var rhs := g.prods[it.prod].rhs;
    assert rhs[..it.dot + 1] == rhs[..it.dot] + [rhs[it.dot]] && w == w[..|w| - 1] + [w[|w| - 1]];
    if it.prod != 0 {
      var fs :| ContextFor(g, fs, it, w[..|w| - 1]);
      assert ContextFor(g, fs, Item(it.prod, it.dot + 1), w);
    }
  }

  // ---------- The run that builds a stack ----------

  /** The parser has shifted and reduced what is left of the hole, and some item on top expects the hole. */
  ghost predicate Built(g: Grammar, t: Tables, defaulted: map<nat, int>, input: seq<Token>, s: State, ts: seq<Tree>,
                        x: Symbol, ahead: seq<Token>)
  {
    && Consistent(g, t, input, s) && Rounds(g, t, defaulted, input, BOTTOM, s, NodesOf(ts))
    && s.symbols == BOTTOM.symbols + ts && Ahead(input, s) == ahead && Wants(g, t, s, x)
  }

  ghost predicate Wants(g: Grammar, t: Tables, s: State, x: Symbol)
  {
    s.states != [] && Top(s.states) < |t.C| && exists q :: q in t.C[Top(s.states)] && Expects(g, q, x)
  }

  lemma BuiltNothing(g: Grammar, pr: Params, t: Tables, defaulted: map<nat, int>, input: seq<Token>, ts: seq<Tree>,
                     front: seq<Token>, rest: seq<Token>)
    requires Ready(g, pr, t, defaulted) && Symbols(g, ts) == [] && input == Yields(ts) + (front + rest)
    ensures Built(g, t, defaulted, input, BOTTOM, ts, Goal(g), front + rest)
  {
    hide TablesOk, LookaheadsCover, NoConflicts, OneReduction, DefaultsOk, RowsFolded, Consistent, Ahead, Expects;
    StartConsistent(g, t, input);
    ReadyGives(g, pr, t, defaulted);
    assert |Symbols(g, ts)| == |ts|;
    assert ts == [] && BOTTOM.symbols + ts == BOTTOM.symbols;
    NoRounds(g, t, defaulted, input, BOTTOM);
    assert [] + (front + rest) == front + rest;
  }

  /** Trees for two forms, one after the other. */
  lemma SplitTrees(g: Grammar, ts: seq<Tree>, a: seq<Symbol>, b: seq<Symbol>) returns (outer: seq<Tree>, us: seq<Tree>)
    requires Symbols(g, ts) == a + b && forall i :: 0 <= i < |ts| ==> ValidTree(g, ts[i])
    ensures ts == outer + us && Symbols(g, outer) == a && Symbols(g, us) == b
    ensures forall i :: 0 <= i < |outer| ==> ValidTree(g, outer[i])
    ensures forall i :: 0 <= i < |us| ==> ValidTree(g, us[i])
  {
    hide ValidTree, SymbolOf;
    assert |Symbols(g, ts)| == |ts|;
    outer, us := ts[..|a|], ts[|a|..];
    assert Symbols(g, outer) == (a + b)[..|a|] && Symbols(g, us) == (a + b)[|a|..];
  }

  lemma SplitTokens(w: seq<Token>, a: seq<Symbol>, b: seq<Symbol>) returns (after: seq<Token>, more: seq<Token>)
    requires Kinds(w) == a + b
    ensures w == after + more && Kinds(after) == a && Kinds(more) == b
  {
    assert |Kinds(w)| == |w|;
    after, more := w[..|a|], w[|a|..];
    assert Kinds(after) == (a + b)[..|a|] && Kinds(more) == (a + b)[|a|..];
  }

  /** The trees and the terminals of the last frame, and those of the frames above it. */
  lemma SplitFrame(g: Grammar, fs: seq<Frame>, ts: seq<Tree>, rest: seq<Token>)
    returns (outer: seq<Tree>, us: seq<Tree>, after: seq<Token>, more: seq<Token>)
    requires ContextOk(g, fs) && fs != [] && Symbols(g, ts) == LeftOf(g, fs) && Kinds(rest) == RightOf(fs)
    requires forall i :: 0 <= i < |ts| ==> ValidTree(g, ts[i])
    ensures var f, above := fs[|fs| - 1], fs[..|fs| - 1];
            && ContextOk(g, above) && FrameOk(g, f) && g.prods[f.prod].name == Hole(g, above)
            && ts == outer + us && Symbols(g, outer) == LeftOf(g, above) && Symbols(g, us) == g.prods[f.prod].rhs[..f.dot]
            && rest == after + more && Kinds(after) == f.after && Kinds(more) == RightOf(above)
    ensures forall i :: 0 <= i < |outer| ==> ValidTree(g, outer[i])
    ensures forall i :: 0 <= i < |us| ==> ValidTree(g, us[i])
  {
    hide Grammar.Derives, ValidTree, Symbols, Kinds, AllTerminals, Hole;
    var f, above := fs[|fs| - 1], fs[..|fs| - 1];
    outer, us := SplitTrees(g, ts, LeftOf(g, above), g.prods[f.prod].rhs[..f.dot]);
    after, more := SplitTokens(rest, f.after, RightOf(above));
  }

  /** What a frame's production derives, with given trees before its position and given tokens at it. */
  lemma FrameDerives(g: Grammar, f: Frame, us: seq<Tree>, front: seq<Token>, after: seq<Token>)
    requires FrameOk(g, f) && Symbols(g, us) == g.prods[f.prod].rhs[..f.dot]
    requires forall i :: 0 <= i < |us| ==> ValidTree(g, us[i])
    requires g.Derives([SymbolAt(g, f)], Kinds(front)) && Kinds(after) == f.after
    ensures g.Derives(g.prods[f.prod].rhs[f.dot..], Kinds(front + after))
    ensures g.Derives([g.prods[f.prod].name], Kinds(Yields(us) + front + after))
  {
    hide Grammar.Derives, ValidTree, Yields, Symbols, Kinds;
    var rhs := g.prods[f.prod].rhs;
    assert rhs[f.dot..] == [rhs[f.dot]] + rhs[f.dot + 1..];
    KindsConcat(front, after);
    g.DerivesConcat([rhs[f.dot]], Kinds(front), rhs[f.dot + 1..], Kinds(after));
    ProductionDerives(g, f, us, front + after);
    assert Yields(us) + front + after == Yields(us) + (front + after);
  }

  lemma ProductionDerives(g: Grammar, f: Frame, us: seq<Tree>, rest: seq<Token>)
    requires FrameOk(g, f) && Symbols(g, us) == g.prods[f.prod].rhs[..f.dot]
    requires forall i :: 0 <= i < |us| ==> ValidTree(g, us[i])
    requires g.Derives(g.prods[f.prod].rhs[f.dot..], Kinds(rest))
    ensures g.Derives([g.prods[f.prod].name], Kinds(Yields(us) + rest))
  {
    hide Grammar.Derives, ValidTree, Yields, Symbols, Kinds;
    var rhs := g.prods[f.prod].rhs;
    assert rhs == rhs[..f.dot] + rhs[f.dot..];
    TreesDerive(g, us);
    g.DerivesConcat(rhs[..f.dot], Kinds(Yields(us)), rhs[f.dot..], Kinds(rest));
    KindsConcat(Yields(us), rest);
    g.DerivesRule(f.prod);
    g.DerivesTrans([g.prods[f.prod].name], rhs, Kinds(Yields(us) + rest));
  }

  lemma {:induction false} NodesConcat(a: seq<Tree>, b: seq<Tree>)
    ensures NodesOf(a + b) == NodesOf(a) + NodesOf(b)
  {
    hide Nodes;
    if a == [] {
      assert a + b == b;
    } else {
      assert (a + b)[1..] == a[1..] + b;
      NodesConcat(a[1..], b);
    }
  }

  /** The trees of one frame, on top of those above it. */
  lemma BuildFrame(g: Grammar, pr: Params, t: Tables, defaulted: map<nat, int>, input: seq<Token>, above: seq<Frame>, f: Frame,
                   s0: State, outer: seq<Tree>, us: seq<Tree>, tail: seq<Token>, more: seq<Token>)
    returns (s: State)
    requires Ready(g, pr, t, defaulted) && InputOk(g, input) && ContextOk(g, above) && FrameOk(g, f)
    requires g.prods[f.prod].name == Hole(g, above) && Kinds(more) == RightOf(above)
    requires Symbols(g, outer) == LeftOf(g, above) && Symbols(g, us) == g.prods[f.prod].rhs[..f.dot]
    requires forall i :: 0 <= i < |us| ==> ValidTree(g, us[i])
    requires g.Derives(g.prods[f.prod].rhs[f.dot..], Kinds(tail))
    requires Built(g, t, defaulted, input, s0, outer, Hole(g, above), Yields(us) + (tail + more))
    ensures Built(g, t, defaulted, input, s, outer + us, SymbolAt(g, f), tail + more)
  {
    hide Ready, InputOk, ValidTree, Grammar.Derives, Yields, NodesOf, Symbols, Rounds, Consistent, Ahead, LeftOf, RightOf,
      Hole, ContextOk;
    var p := f.prod;
    TopInside(g, t, input, s0);
    var q :| q in t.C[Top(s0.states)] && Expects(g, q, g.prods[p].name);
    NodeItem(g, pr, t, defaulted, s0, q, p);
    OneEach(g, f, us);
    BelowBuilt(g, s0, outer);
    assert Symbols(g, outer) + g.prods[p].rhs[..0] == Symbols(g, outer);
    s := BuildList(g, pr, t, defaulted, input, s0, p, 0, us, tail, more, above);
    TopInside(g, t, input, s);
    NodesConcat(outer, us);
    RoundsJoin(g, t, defaulted, input, BOTTOM, s0, s, NodesOf(outer), NodesOf(us));
    assert Expects(g, Item(p, f.dot), SymbolAt(g, f));
  }

  lemma OneEach(g: Grammar, f: Frame, us: seq<Tree>)
    requires FrameOk(g, f) && Symbols(g, us) == g.prods[f.prod].rhs[..f.dot]
    ensures |us| == f.dot && forall i :: 0 <= i < |us| ==> SymbolOf(g, us[i]) == g.prods[f.prod].rhs[i]
  {
    hide Grammar.Derives;
    assert |Symbols(g, us)| == |us|;
    assert forall i :: 0 <= i < |us| ==> Symbols(g, us)[i] == SymbolOf(g, us[i]);
  }

  lemma BelowBuilt(g: Grammar, s: State, ts: seq<Tree>)
    requires s.symbols == BOTTOM.symbols + ts
    ensures Below(g, s) == Symbols(g, ts)
  {
    assert s.symbols[1..] == ts;
  }

  /** On an input that begins with their leaves and goes on as the context says, the parser builds the trees left of the hole. */
  lemma {:induction false} BuildBelow(g: Grammar, pr: Params, t: Tables, defaulted: map<nat, int>, input: seq<Token>,
                                      fs: seq<Frame>, ts: seq<Tree>, front: seq<Token>, rest: seq<Token>)
    returns (s: State)
    requires Ready(g, pr, t, defaulted) && InputOk(g, input) && ContextOk(g, fs)
    requires Symbols(g, ts) == LeftOf(g, fs) && forall i :: 0 <= i < |ts| ==> ValidTree(g, ts[i])
    requires input == Yields(ts) + (front + rest) && Kinds(rest) == RightOf(fs) && g.Derives([Hole(g, fs)], Kinds(front))
    ensures Built(g, t, defaulted, input, s, ts, Hole(g, fs), front + rest)
    decreases |fs|
  {
    hide Ready, InputOk, ValidTree, Grammar.Derives, Built, Yields, NodesOf, Symbols, Kinds, FrontOf, SymbolAt, RightOf,
      FrameOk;
    if fs == [] {
      BuiltNothing(g, pr, t, defaulted, input, ts, front, rest);
      s := BOTTOM;
    } else {
      var n := |fs| - 1;
      var f := fs[n];
      var outer, us, after, more := SplitFrame(g, fs, ts, rest);
      YieldsConcat(outer, us);
      assert ts == outer + us;
      assert input == Yields(outer) + ((Yields(us) + front + after) + more);
      assert (Yields(us) + front + after) + more == Yields(us) + ((front + after) + more);
      FrameDerives(g, f, us, front, after);
      var s0 := BuildBelow(g, pr, t, defaulted, input, fs[..n], outer, Yields(us) + front + after, more);
      s := BuildFrame(g, pr, t, defaulted, input, fs[..n], f, s0, outer, us, front + after, more);
      assert (front + after) + more == front + rest;
    }
  }

  // ---------- Every stack belongs to a sentence ----------

  /** On the tokens w + v, a sentence, the parser has after n rounds shifted just w. */
  ghost predicate Passes(g: Grammar, t: Tables, defaulted: map<nat, int>, w: seq<Token>, v: seq<Token>, n: nat)
  {
    && InputOk(g, w + v) && g.Derives([Goal(g)], Kinds(w + v))
    && exists s :: Consistent(g, t, w + v, s) && Rounds(g, t, defaulted, w + v, BOTTOM, s, n) && Ahead(w + v, s) == v
  }

  /** When the top of the stack is a node, what has been shifted can be completed to a sentence that passes here. */
  lemma Completed(g: Grammar, pr: Params, t: Tables, defaulted: map<nat, int>, s: State) returns (v: seq<Token>)
    requires Ready(g, pr, t, defaulted) && AllProductive(g) && Path(g, t.C, s.states, s.symbols)
    requires |s.symbols| > 1 && s.symbols[|s.symbols| - 1].Node? && InputOk(g, Yields(s.symbols[1..]))
    ensures Passes(g, t, defaulted, Yields(s.symbols[1..]), v, NodesOf(s.symbols[1..]))
  {
    hide Ready, Grammar.Derives, Yields, NodesOf, Symbols, ValidTree, AllProductive, Edge, ContextOk, LeftOf, RightOf, Hole,
      InputOk, Path, Passes;
    var ts := s.symbols[1..];
    var n := |ts| - 1;
    var below, h := ts[..n], ts[n];
    assert ts == below + [h];
    var fs := TopContext(g, pr, t, defaulted, s);
    v := LrLookaheads.Tokens(RightOf(fs));
    ContextSentence(g, fs, below, h, v);
    YieldsConcat(below, [h]);
    YieldsOne(h);
    var input := Yields(ts) + v;
    assert input == Yields(below) + (Yield(h) + v);
    MoreInput(g, Yields(ts), v);
    var s0 := BuildBelow(g, pr, t, defaulted, input, fs, below, Yield(h), v);
    var s1 := BuildTop(g, pr, t, defaulted, input, s0, fs, below, h, v);
    assert Passes(g, t, defaulted, Yields(ts), v, NodesOf(ts)) by {
      NodesConcat(below, [h]);
      NodesOne(h);
      PassesBy(g, t, defaulted, Yields(ts), v, NodesOf(ts), s1);
    }
  }

  lemma PassesBy(g: Grammar, t: Tables, defaulted: map<nat, int>, w: seq<Token>, v: seq<Token>, n: nat, s: State)
    requires InputOk(g, w + v) && g.Derives([Goal(g)], Kinds(w + v))
    requires Consistent(g, t, w + v, s) && Rounds(g, t, defaulted, w + v, BOTTOM, s, n) && Ahead(w + v, s) == v
    ensures Passes(g, t, defaulted, w, v, n)
  {
    hide InputOk, Grammar.Derives, Rounds, Ahead, Consistent;
  }

  lemma NodesOne(h: Tree)
    ensures NodesOf([h]) == Nodes(h)
  {
    assert [h][1..] == [];
  }

  lemma MoreInput(g: Grammar, w: seq<Token>, v: seq<Token>)
    requires InputOk(g, w) && AllTerminals(g, Kinds(v))
    ensures InputOk(g, w + v)
  {
    forall i | 0 <= i < |w + v|
      ensures (w + v)[i].kind in g.terminals
    {
      if i >= |w| {
        assert Kinds(v)[i - |w|] == v[i - |w|].kind;
      }
    }
  }

  /** A context for the node on top, left of which stands the rest of the stack. */
  lemma TopContext(g: Grammar, pr: Params, t: Tables, defaulted: map<nat, int>, s: State) returns (fs: seq<Frame>)
    requires Ready(g, pr, t, defaulted) && AllProductive(g) && Path(g, t.C, s.states, s.symbols) && |s.symbols| > 1
    ensures var ts := s.symbols[1..]; var n := |ts| - 1;
            && ContextOk(g, fs) && LeftOf(g, fs) == Symbols(g, ts[..n]) && Hole(g, fs) == SymbolOf(g, ts[n])
            && forall i :: 0 <= i < |ts| ==> ValidTree(g, ts[i])
  {
    hide Ready, AllProductive, ValidTree, HasContext, Expects, Spelled, Path, Symbols, ContextOk, LeftOf;
    var ts := s.symbols[1..];
    var n := |ts| - 1;
    SpelledBelow(g, t.C, s);
    ReadyGives(g, pr, t, defaulted);
    ItemsHaveContexts(g, t.C, s.states[..n + 1], Symbols(g, ts[..n]));
    var it := WantsTop(g, t.C, s);
    ExpectsIs(g, it, SymbolOf(g, ts[n]));
    fs := Deeper(g, it, Symbols(g, ts[..n]));
  }

  /** The states below the top one are spelled by the symbols below. */
  lemma SpelledBelow(g: Grammar, C: seq<ItemSet>, s: State)
    requires Path(g, C, s.states, s.symbols) && |s.symbols| > 1
    ensures var n := |s.symbols| - 2;
            && |s.states| == |s.symbols| && Spelled(g, C, s.states[..n + 1], Symbols(g, s.symbols[1..][..n]))
            && |Symbols(g, s.symbols[1..][..n])| == n && s.states[..n + 1][n] < |C|
    ensures forall i :: 0 <= i < |s.symbols| - 1 ==> ValidTree(g, s.symbols[1..][i])
  {
    hide Edge, ValidTree, SymbolOf;
    var n := |s.symbols| - 2;
    forall k | 0 <= k < n
      ensures Edge(g, C, s.states[k], Symbols(g, s.symbols[1..][..n])[k], s.states[k + 1])
    {
      assert Edge(g, C, s.states[(k + 1) - 1], SymbolOf(g, s.symbols[k + 1]), s.states[k + 1]);
    }
  }

  /** An item of the state below the top one expects the symbol on top. */
  lemma WantsTop(g: Grammar, C: seq<ItemSet>, s: State) returns (it: Item)
    requires Path(g, C, s.states, s.symbols) && |s.symbols| > 1
    ensures var n := |s.symbols| - 2;
            && |s.states| == |s.symbols| && s.states[n] < |C| && it in C[s.states[n]]
            && Expects(g, it, SymbolOf(g, s.symbols[n + 1]))
  {
    hide Goto, ValidTree, SymbolOf, Expects;
    var n := |s.symbols| - 2;
    assert Edge(g, C, s.states[(n + 1) - 1], SymbolOf(g, s.symbols[n + 1]), s.states[n + 1]);
    GotoItems(g, C[s.states[n]], SymbolOf(g, s.symbols[n + 1]));
    it :| it in C[s.states[n]] && Expects(g, it, SymbolOf(g, s.symbols[n + 1]));
  }

  lemma ExpectsIs(g: Grammar, it: Item, x: Symbol)
    requires Expects(g, it, x)
    ensures ValidItem(g, it) && !Complete(g, it) && g.prods[it.prod].rhs[it.dot] == x
  {
  }

  /** A context with trees left of the hole and at it is a sentence. */
  lemma ContextSentence(g: Grammar, fs: seq<Frame>, below: seq<Tree>, h: Tree, v: seq<Token>)
    requires ContextOk(g, fs) && LeftOf(g, fs) == Symbols(g, below) && Hole(g, fs) == SymbolOf(g, h) && Kinds(v) == RightOf(fs)
    requires (forall i :: 0 <= i < |below| ==> ValidTree(g, below[i])) && ValidTree(g, h)
    ensures g.Derives([Goal(g)], Kinds(Yields(below) + Yield(h) + v)) && g.Derives([Hole(g, fs)], Kinds(Yield(h)))
    ensures AllTerminals(g, Kinds(v))
  {
    hide Grammar.Derives, ContextOk, LeftOf, RightOf, Hole, ValidTree, Yields, Yield, Symbols;
    ContextDerives(g, fs);
    TreesDerive(g, below);
    TreeDerives(g, h);
    g.DerivesConcat(Symbols(g, below), Kinds(Yields(below)), [SymbolOf(g, h)], Kinds(Yield(h)));
    KindsConcat(Yields(below), Yield(h));
    KindsConcat(Yields(below) + Yield(h), v);
    g.DerivesSelf(Kinds(v));
    g.DerivesConcat(Symbols(g, below) + [SymbolOf(g, h)], Kinds(Yields(below) + Yield(h)), Kinds(v), Kinds(v));
    g.DerivesTrans([Goal(g)], Symbols(g, below) + [SymbolOf(g, h)] + Kinds(v), Kinds(Yields(below) + Yield(h) + v));
  }

  /** The tree at the hole, on top of those left of it. */
  lemma BuildTop(g: Grammar, pr: Params, t: Tables, defaulted: map<nat, int>, input: seq<Token>, s0: State, fs: seq<Frame>,
                 below: seq<Tree>, h: Tree, v: seq<Token>)
    returns (s: State)
    requires Ready(g, pr, t, defaulted) && InputOk(g, input) && ContextOk(g, fs) && LeftOf(g, fs) == Symbols(g, below)
    requires Hole(g, fs) == SymbolOf(g, h) && ValidTree(g, h) && Kinds(v) == RightOf(fs)
    requires Built(g, t, defaulted, input, s0, below, Hole(g, fs), Yield(h) + v)
    ensures Consistent(g, t, input, s) && Ahead(input, s) == v
    ensures Rounds(g, t, defaulted, input, BOTTOM, s, NodesOf(below) + Nodes(h))
  {
    hide Ready, InputOk, ContextOk, LeftOf, RightOf, Hole, ValidTree, Yield, Symbols, Rounds, Consistent, Ahead, Nodes;
    TopInside(g, t, input, s0);
    BelowBuilt(g, s0, below);
    var q :| q in t.C[Top(s0.states)] && Expects(g, q, SymbolOf(g, h));
    s := BuildTree(g, pr, t, defaulted, input, s0, q, h, v, fs);
    RoundsJoin(g, t, defaulted, input, BOTTOM, s0, s, NodesOf(below), Nodes(h));
  }

  // ---------- One round ----------

  /** What holds between rounds: the stacks account for the input, and the lookahead is the next token. */
  ghost predicate Holds(g: Grammar, t: Tables, input: seq<Token>, s: State)
  {
    Inv(g, t, input, s) && Consistent(g, t, input, s)
  }

  /** Tables and defaults that the parser can run with. */
  ghost predicate Usable(g: Grammar, t: Tables, defaulted: map<nat, int>, input: seq<Token>)
  {
    g.Wf() && TablesOk(g, t) && DefaultsOk(t, defaulted) && InputOk(g, input)
  }

  lemma ShiftedAndAhead(g: Grammar, t: Tables, input: seq<Token>, s: State)
    requires Holds(g, t, input, s)
    ensures |s.states| == |s.symbols| >= 1 && Yields(s.symbols[1..]) + Ahead(input, s) == input
  {
    hide Edge, ValidTree, Yields;
  }

  /** The state when the lookahead has been read. */
  lemma FetchHolds(g: Grammar, t: Tables, defaulted: map<nat, int>, input: seq<Token>, s: State)
    requires Usable(g, t, defaulted, input) && Holds(g, t, input, s)
    ensures s.states != [] && Top(s.states) < |t.C| == |t.action|
    ensures var f := Fetched(defaulted, input, s);
            && Holds(g, t, input, f) && f.states == s.states && f.symbols == s.symbols && Ahead(input, f) == Ahead(input, s)
            && (Top(s.states) !in defaulted ==> f.lookahead.Some? && f.lookahead.value.kind == FirstOr(Kinds(Ahead(input, s))))
            && (Top(s.states) !in defaulted && Ahead(input, s) != [] ==>
                  f.lookahead.value == Ahead(input, s)[0] && input[f.pos..] == Ahead(input, s)[1..])
  {
    hide Edge, ValidTree, Yields, AutomatonOk, EntrySound, GotoRowIs, Fetched, Path, Accounts, DefaultsOk;
    NoEndTokens(g, input);
    InvTop(g, t, input, s);
    FetchKeeps(g, t, defaulted, input, s);
    FetchIs(g, t, defaulted, input, s);
  }

  lemma NoEndTokens(g: Grammar, input: seq<Token>)
    requires g.Wf() && InputOk(g, input)
    ensures forall i :: 0 <= i < |input| ==> input[i].kind != END
  {
  }

  /** A round goes on by a shift of the next token or by a reduction. */
  ghost predicate Moved(g: Grammar, t: Tables, input: seq<Token>, s: State, s1: State)
  {
    && s.pos <= |input| && s1.pos <= |input| && s.symbols != [] && s1.symbols != [] && Holds(g, t, input, s1)
    && NodesOf(s1.symbols[1..]) == NodesOf(s.symbols[1..]) + 1
    && if Ahead(input, s1) == Ahead(input, s) then |s1.symbols| > 1 && s1.symbols[|s1.symbols| - 1].Node?
       else Ahead(input, s) != [] && Ahead(input, s1) == Ahead(input, s)[1..]
  }

  /** A shifted token is one of the input. */
  lemma ShiftsToken(g: Grammar, t: Tables, defaulted: map<nat, int>, input: seq<Token>, s: State, v: nat)
    requires Usable(g, t, defaulted, input) && Holds(g, t, input, s) && v > 0 && s.states != [] && Top(s.states) < |t.action|
    requires Chosen(t, defaulted, Fetched(defaulted, input, s)) == Act(v)
    ensures var f := Fetched(defaulted, input, s);
            && Top(s.states) !in defaulted && f.lookahead.Some? && Entry(t, Top(s.states), f.lookahead.value.kind) == Act(v)
            && Ahead(input, s) != [] && f.lookahead.value == Ahead(input, s)[0] && input[f.pos..] == Ahead(input, s)[1..]
  {
    hide TablesOk, Path, Accounts, Fetched, Ahead, Edge, ValidTree, Yields, Entry, Holds;
    FetchHolds(g, t, defaulted, input, s);
    var f := Fetched(defaulted, input, s);
    NotDefault(t, defaulted, f, v);
    EntryMeans(g, t, Top(s.states), f.lookahead.value.kind, v);
    assert f.lookahead.value.kind in g.terminals;
  }

  lemma ShiftMoves(g: Grammar, t: Tables, defaulted: map<nat, int>, input: seq<Token>, s: State, v: nat)
    requires Usable(g, t, defaulted, input) && Holds(g, t, input, s) && v > 0 && s.states != [] && Top(s.states) < |t.action|
    requires Chosen(t, defaulted, Fetched(defaulted, input, s)) == Act(v)
    ensures var f := Fetched(defaulted, input, s);
            f.lookahead.Some? && Moved(g, t, input, s, Shifted(f, v)) && Ahead(input, s) != []
  {
    hide TablesOk, DefaultsOk, Path, Accounts, Fetched, Edge, ValidTree, Yields, Chosen, Entry, NodesOf;
    FetchHolds(g, t, defaulted, input, s);
    ShiftsToken(g, t, defaulted, input, s, v);
    var f := Fetched(defaulted, input, s);
    ShiftKeeps(g, t, input, f, v);
    PathLengths(g, t.C, s.states, s.symbols);
    assert Shifted(f, v).symbols[1..] == s.symbols[1..] + [Leaf(f.lookahead.value)];
    NodesConcat(s.symbols[1..], [Leaf(f.lookahead.value)]);
    NodesOne(Leaf(f.lookahead.value));
  }

  lemma ReduceMoves(g: Grammar, t: Tables, defaulted: map<nat, int>, input: seq<Token>, s: State, p: nat)
    requires Usable(g, t, defaulted, input) && Holds(g, t, input, s) && p > 0 && s.states != [] && Top(s.states) < |t.action|
    requires Chosen(t, defaulted, Fetched(defaulted, input, s)) == Act(0 - p)
    ensures var f := Fetched(defaulted, input, s);
            CanReduce(g, t, f, p) && Moved(g, t, input, s, Reduced(g, t, f, p))
  {
    hide TablesOk, DefaultsOk, Path, Accounts, Fetched, Edge, ValidTree, Yields, Chosen, Entry, NodesOf;
    FetchHolds(g, t, defaulted, input, s);
    var f := Fetched(defaulted, input, s);
    var it := ReduceItem(g, t, defaulted, f, 0 - p);
    ReduceKeeps(g, t, input, f, it, p);
    PathLengths(g, t.C, s.states, s.symbols);
    NodesReduced(f.symbols, |g.prods[p].rhs|, p);
  }

  lemma NodesReduced(symbols: seq<Tree>, d: nat, p: nat)
    requires d < |symbols|
    ensures var n := |symbols| - d; NodesOf((symbols[..n] + [Node(p, symbols[n..])])[1..]) == NodesOf(symbols[1..]) + 1
  {
    var n := |symbols| - d;
    assert symbols[1..] == symbols[1..n] + symbols[n..];
    assert (symbols[..n] + [Node(p, symbols[n..])])[1..] == symbols[1..n] + [Node(p, symbols[n..])];
    NodesConcat(symbols[1..n], symbols[n..]);
    NodesConcat(symbols[1..n], [Node(p, symbols[n..])]);
    NodesOne(Node(p, symbols[n..]));
  }

  /** A round that goes on keeps what holds, adds one node, and either shifts the next token or ends in a node. */
  lemma RoundMoves(g: Grammar, t: Tables, defaulted: map<nat, int>, input: seq<Token>, s: State, s1: State)
    requires Usable(g, t, defaulted, input) && Holds(g, t, input, s) && StepIs(g, t, defaulted, input, s, s1, Running)
    ensures Moved(g, t, input, s, s1)
  {
    hide Usable, Holds, Fetched, Reduced, Shifted, CanReduce, Moved, Ahead;
    FetchHolds(g, t, defaulted, input, s);
    var f := Fetched(defaulted, input, s);
    var v := Chosen(t, defaulted, f).v;
    if v > 0 {
      ShiftMoves(g, t, defaulted, input, s, v);
    } else {
      ReduceMoves(g, t, defaulted, input, s, -v);
    }
  }

  lemma HoldsSome(g: Grammar, t: Tables, input: seq<Token>, s: State)
    requires Holds(g, t, input, s)
    ensures s.pos <= |input| && s.symbols != [] && s.states != []
  {
    hide Edge, ValidTree, Yields;
  }

  /** Every state has a next one, or an end. */
  lemma SomeStep(g: Grammar, t: Tables, defaulted: map<nat, int>, input: seq<Token>, s: State) returns (s1: State, r: Outcome)
    requires Usable(g, t, defaulted, input) && Holds(g, t, input, s)
    ensures StepIs(g, t, defaulted, input, s, s1, r)
  {
    hide Usable, Holds, Fetched, Reduced, Shifted, CanReduce, Chosen;
    FetchHolds(g, t, defaulted, input, s);
    HoldsSome(g, t, input, s);
    var f := Fetched(defaulted, input, s);
    match Chosen(t, defaulted, f)
    case NoAction => s1, r := f, SyntaxError;
    case Act(v) =>
      if v > 0 {
        ShiftMoves(g, t, defaulted, input, s, v);
        s1, r := Shifted(f, v), Running;
      } else if v < 0 {
        ReduceMoves(g, t, defaulted, input, s, -v);
        s1, r := Reduced(g, t, f, -v), Running;
      } else {
        s1, r := f, Accepted(f.symbols[|f.symbols| - 1]);
      }
  }

  /** Over a run of n rounds: n nodes more, and no more tokens ahead than before. */
  lemma {:induction false} RunMoves(g: Grammar, t: Tables, defaulted: map<nat, int>, input: seq<Token>, s: State, e: State,
                                    n: nat)
    requires Usable(g, t, defaulted, input) && Holds(g, t, input, s) && Rounds(g, t, defaulted, input, s, e, n)
    ensures Holds(g, t, input, e) && s.symbols != [] && e.symbols != []
    ensures NodesOf(e.symbols[1..]) == NodesOf(s.symbols[1..]) + n && |Ahead(input, e)| <= |Ahead(input, s)|
    decreases n
  {
    hide Usable, Holds, StepIs, NodesOf, Ahead;
    HoldsSome(g, t, input, s);
    if n > 0 {
      var s1 :| StepIs(g, t, defaulted, input, s, s1, Running) && Rounds(g, t, defaulted, input, s1, e, n - 1);
      RoundMoves(g, t, defaulted, input, s, s1);
      RunMoves(g, t, defaulted, input, s1, e, n - 1);
    }
  }

  // ---------- Inputs that agree up to the next token ----------

  /** The parser stands alike on two inputs: the same stacks, the same tokens r ahead, and then v and z. */
  ghost predicate Alike(g: Grammar, t: Tables, x: seq<Token>, s: State, v: seq<Token>, y: seq<Token>, u: State, z: seq<Token>,
                        r: seq<Token>)
  {
    && Holds(g, t, x, s) && Holds(g, t, y, u) && s.states == u.states && s.symbols == u.symbols
    && Ahead(x, s) == r + v && Ahead(y, u) == r + z
  }

  /** Then it chooses alike, if v and z begin with the same kind. */
  lemma SameChoice(g: Grammar, t: Tables, defaulted: map<nat, int>, x: seq<Token>, s: State, v: seq<Token>, y: seq<Token>,
                   u: State, z: seq<Token>, r: seq<Token>)
    requires Usable(g, t, defaulted, x) && Usable(g, t, defaulted, y) && Alike(g, t, x, s, v, y, u, z, r)
    requires FirstOr(Kinds(v)) == FirstOr(Kinds(z))
    ensures s.states != [] && Top(s.states) < |t.action|
    ensures Chosen(t, defaulted, Fetched(defaulted, x, s)) == Chosen(t, defaulted, Fetched(defaulted, y, u))
  {
    hide Usable, Holds, Fetched, Ahead;
    FetchHolds(g, t, defaulted, x, s);
    FetchHolds(g, t, defaulted, y, u);
    if r == [] {
      assert r + v == v && r + z == z;
    }
  }

  lemma ShiftedAhead(input: seq<Token>, f: State, v: nat)
    requires f.pos <= |input| && f.lookahead.Some?
    ensures Ahead(input, Shifted(f, v)) == input[f.pos..]
  {
  }

  lemma ReducedAhead(g: Grammar, t: Tables, input: seq<Token>, f: State, p: nat)
    requires f.pos <= |input| && CanReduce(g, t, f, p)
    ensures Ahead(input, Reduced(g, t, f, p)) == Ahead(input, f)
  {
  }

  /** And stays alike, unless it shifts from z. */
  lemma AlikeShift(g: Grammar, t: Tables, defaulted: map<nat, int>, x: seq<Token>, s: State, v: seq<Token>, y: seq<Token>,
                   u: State, z: seq<Token>, r: seq<Token>, k: nat)
    requires Usable(g, t, defaulted, x) && Usable(g, t, defaulted, y) && Alike(g, t, x, s, v, y, u, z, r)
    requires k > 0 && s.states != [] && Top(s.states) < |t.action|
    requires Chosen(t, defaulted, Fetched(defaulted, x, s)) == Act(k) == Chosen(t, defaulted, Fetched(defaulted, y, u))
    requires r != []
    ensures var f, h := Fetched(defaulted, x, s), Fetched(defaulted, y, u);
            && f.lookahead.Some? && h.lookahead.Some?
            && Alike(g, t, x, Shifted(f, k), v, y, Shifted(h, k), z, r[1..])
  {
    hide Usable, Holds, Fetched, Ahead, Chosen, Entry, NodesOf;
    FetchHolds(g, t, defaulted, x, s);
    FetchHolds(g, t, defaulted, y, u);
    ShiftsToken(g, t, defaulted, x, s, k);
    ShiftsToken(g, t, defaulted, y, u, k);
    ShiftMoves(g, t, defaulted, x, s, k);
    ShiftMoves(g, t, defaulted, y, u, k);
    var f, h := Fetched(defaulted, x, s), Fetched(defaulted, y, u);
    HoldsSome(g, t, x, f);
    HoldsSome(g, t, y, h);
    ShiftedAhead(x, f, k);
    ShiftedAhead(y, h, k);
    assert (r + v)[1..] == r[1..] + v && (r + z)[1..] == r[1..] + z;
  }

  lemma AlikeReduce(g: Grammar, t: Tables, defaulted: map<nat, int>, x: seq<Token>, s: State, v: seq<Token>, y: seq<Token>,
                    u: State, z: seq<Token>, r: seq<Token>, p: nat)
    requires Usable(g, t, defaulted, x) && Usable(g, t, defaulted, y) && Alike(g, t, x, s, v, y, u, z, r)
    requires p > 0 && s.states != [] && Top(s.states) < |t.action|
    requires Chosen(t, defaulted, Fetched(defaulted, x, s)) == Act(0 - p) == Chosen(t, defaulted, Fetched(defaulted, y, u))
    ensures var f, h := Fetched(defaulted, x, s), Fetched(defaulted, y, u);
            && CanReduce(g, t, f, p) && CanReduce(g, t, h, p)
            && Alike(g, t, x, Reduced(g, t, f, p), v, y, Reduced(g, t, h, p), z, r)
  {
    hide Usable, Holds, Fetched, Ahead, Chosen, NodesOf;
    FetchHolds(g, t, defaulted, x, s);
    FetchHolds(g, t, defaulted, y, u);
    ReduceMoves(g, t, defaulted, x, s, p);
    ReduceMoves(g, t, defaulted, y, u, p);
    var f, h := Fetched(defaulted, x, s), Fetched(defaulted, y, u);
    HoldsSome(g, t, x, f);
    HoldsSome(g, t, y, h);
    ReducedAhead(g, t, x, f, p);
    ReducedAhead(g, t, y, h, p);
  }

  lemma AlikeStep(g: Grammar, t: Tables, defaulted: map<nat, int>, x: seq<Token>, s: State, v: seq<Token>, y: seq<Token>,
                  u: State, z: seq<Token>, r: seq<Token>, u1: State)
    returns (s1: State, r1: seq<Token>)
    requires Usable(g, t, defaulted, x) && Usable(g, t, defaulted, y) && Alike(g, t, x, s, v, y, u, z, r)
    requires FirstOr(Kinds(v)) == FirstOr(Kinds(z)) && StepIs(g, t, defaulted, y, u, u1, Running)
    requires u1.pos <= |y| && |Ahead(y, u1)| >= |z|
    ensures StepIs(g, t, defaulted, x, s, s1, Running) && Alike(g, t, x, s1, v, y, u1, z, r1)
  {
    hide Usable, Holds, Fetched, Ahead, Shifted, Reduced, CanReduce, Chosen;
    SameChoice(g, t, defaulted, x, s, v, y, u, z, r);
    HoldsSome(g, t, x, s);
    HoldsSome(g, t, y, u);
    var f, h := Fetched(defaulted, x, s), Fetched(defaulted, y, u);
    FetchedTop(defaulted, x, s);
    FetchedTop(defaulted, y, u);
    var k := Chosen(t, defaulted, f).v;
    if k > 0 {
      StillAhead(g, t, defaulted, y, u, z, r, k);
      AlikeShift(g, t, defaulted, x, s, v, y, u, z, r, k);
      s1, r1 := Shifted(f, k), r[1..];
    } else {
      AlikeReduce(g, t, defaulted, x, s, v, y, u, z, r, -k);
      s1, r1 := Reduced(g, t, f, -k), r;
    }
  }

  /** A shift that leaves as much as z ahead is not from z. */
  lemma StillAhead(g: Grammar, t: Tables, defaulted: map<nat, int>, y: seq<Token>, u: State, z: seq<Token>, r: seq<Token>,
                   k: nat)
    requires Usable(g, t, defaulted, y) && Holds(g, t, y, u) && u.pos <= |y| && Ahead(y, u) == r + z && k > 0
    requires u.states != [] && Top(u.states) < |t.action| && Chosen(t, defaulted, Fetched(defaulted, y, u)) == Act(k)
    requires var h := Fetched(defaulted, y, u);
             h.lookahead.Some? && Shifted(h, k).pos <= |y| && |Ahead(y, Shifted(h, k))| >= |z|
    ensures r != []
  {
    hide Usable, Holds, Fetched, Ahead, Chosen, Entry;
    ShiftsToken(g, t, defaulted, y, u, k);
    FetchHolds(g, t, defaulted, y, u);
    HoldsSome(g, t, y, Fetched(defaulted, y, u));
    ShiftedAhead(y, Fetched(defaulted, y, u), k);
  }

  /** Over runs: as long as nothing is shifted from z, the run on the other input is the same. */
  lemma {:induction false} AlikeRun(g: Grammar, t: Tables, defaulted: map<nat, int>, x: seq<Token>, s: State, v: seq<Token>,
                                    y: seq<Token>, u: State, z: seq<Token>, r: seq<Token>, e: State, n: nat)
    returns (d: State, r1: seq<Token>)
    requires Usable(g, t, defaulted, x) && Usable(g, t, defaulted, y) && Alike(g, t, x, s, v, y, u, z, r)
    requires FirstOr(Kinds(v)) == FirstOr(Kinds(z)) && Rounds(g, t, defaulted, y, u, e, n)
    requires e.pos <= |y| && |Ahead(y, e)| >= |z|
    ensures Rounds(g, t, defaulted, x, s, d, n) && Alike(g, t, x, d, v, y, e, z, r1)
    decreases n
  {
    hide Usable, StepIs, Ahead, Holds;
    if n == 0 {
      d, r1 := s, r;
    } else {
      var u1 :| StepIs(g, t, defaulted, y, u, u1, Running) && Rounds(g, t, defaulted, y, u1, e, n - 1);
      RoundMoves(g, t, defaulted, y, u, u1);
      RunMoves(g, t, defaulted, y, u1, e, n - 1);
      var s1, r0 := AlikeStep(g, t, defaulted, x, s, v, y, u, z, r, u1);
      d, r1 := AlikeRun(g, t, defaulted, x, s1, v, y, u1, z, r0, e, n - 1);
    }
  }

  // ---------- The parser ends ----------

  lemma ReadyUsable(g: Grammar, pr: Params, t: Tables, defaulted: map<nat, int>, input: seq<Token>)
    requires Ready(g, pr, t, defaulted) && InputOk(g, input)
    ensures Usable(g, t, defaulted, input) && Holds(g, t, input, BOTTOM)
  {
    hide LookaheadsCover, NoConflicts, OneReduction, RowsFolded, AutomatonOk, EntrySound, GotoRowIs, Edge;
    StartInv(g, t, input, BOTTOM);
    StartConsistent(g, t, input);
  }

  /** Where a sentence passes, no other sentence with the same next kind passes after more rounds than the first one takes. */
  lemma Bounded(g: Grammar, pr: Params, t: Tables, defaulted: map<nat, int>, w: seq<Token>, v: seq<Token>, z: seq<Token>,
                k: nat, tree: Tree, n: nat)
    requires Ready(g, pr, t, defaulted) && InputOk(g, w + v) && FirstOr(Kinds(v)) == FirstOr(Kinds(z))
    requires AcceptsAfter(g, t, defaulted, w + v, k, tree) && Passes(g, t, defaulted, w, z, n)
    ensures n <= k
  {
    hide Ready, InputOk, Grammar.Derives, StepIs, Holds, Usable, Ahead, Path;
    ReadyUsable(g, pr, t, defaulted, w + v);
    ReadyUsable(g, pr, t, defaulted, w + z);
    var e :| Consistent(g, t, w + z, e) && Rounds(g, t, defaulted, w + z, BOTTOM, e, n) && Ahead(w + z, e) == z;
    RunMoves(g, t, defaulted, w + z, BOTTOM, e, n);
    HoldsSome(g, t, w + z, e);
    AlikeStart(g, t, w, v, z);
    var d, r := AlikeRun(g, t, defaulted, w + v, BOTTOM, v, w + z, BOTTOM, z, w, e, n);
    var u, u1 :| Rounds(g, t, defaulted, w + v, BOTTOM, u, k) && StepIs(g, t, defaulted, w + v, u, u1, Accepted(tree));
    if n > k {
      RoundsOnce(g, t, defaulted, w + v, BOTTOM, u, d, k, n);
      var c :| StepIs(g, t, defaulted, w + v, u, c, Running) && Rounds(g, t, defaulted, w + v, c, d, n - k - 1);
      StepOnce(g, t, defaulted, w + v, u, u1, c, Accepted(tree), Running);
    }
  }

  lemma AlikeStart(g: Grammar, t: Tables, w: seq<Token>, v: seq<Token>, z: seq<Token>)
    requires Holds(g, t, w + v, BOTTOM) && Holds(g, t, w + z, BOTTOM)
    ensures Alike(g, t, w + v, BOTTOM, v, w + z, BOTTOM, z, w)
  {
    hide Holds;
    assert (w + v)[0..] == w + v && (w + z)[0..] == w + z;
  }

  /** A sentence is accepted after some number of rounds. */
  lemma SomeRounds(g: Grammar, pr: Params, t: Tables, defaulted: map<nat, int>, input: seq<Token>) returns (k: nat, tree: Tree)
    requires Ready(g, pr, t, defaulted) && InputOk(g, input) && g.Derives([Goal(g)], Kinds(input))
    ensures AcceptsAfter(g, t, defaulted, input, k, tree)
  {
    hide Ready, InputOk, AcceptsAfter;
    tree := SentencesAccepted(g, pr, t, defaulted, input);
    TreeAccepted(g, pr, t, defaulted, tree);
    k := Nodes(tree);
  }

  /** No sentence that begins with w, and goes on with one of the kinds, passes there after more than limit rounds. */
  ghost predicate LimitedFor(g: Grammar, t: Tables, defaulted: map<nat, int>, w: seq<Token>, kinds: seq<Symbol>, limit: nat)
  {
    forall z, n: nat :: FirstOr(Kinds(z)) in kinds && Passes(g, t, defaulted, w, z, n) ==> n <= limit
  }

  ghost predicate Limited(g: Grammar, t: Tables, defaulted: map<nat, int>, w: seq<Token>, limit: nat)
  {
    forall z, n: nat :: Passes(g, t, defaulted, w, z, n) ==> n <= limit
  }

  /** The kinds that can come next are finitely many, so there is a bound for all sentences that begin with w. */
  lemma {:induction false} LimitFor(g: Grammar, pr: Params, t: Tables, defaulted: map<nat, int>, w: seq<Token>,
                                    kinds: seq<Symbol>)
    returns (limit: nat)
    requires Ready(g, pr, t, defaulted)
    ensures LimitedFor(g, t, defaulted, w, kinds, limit)
  {
    hide Ready, Passes, AcceptsAfter;
    if kinds == [] {
      limit := 0;
    } else {
      limit := LimitFor(g, pr, t, defaulted, w, kinds[1..]);
      if v: seq<Token>, m: nat :| FirstOr(Kinds(v)) == kinds[0] && Passes(g, t, defaulted, w, v, m) {
        PassesSentence(g, t, defaulted, w, v, m);
        var k, tree := SomeRounds(g, pr, t, defaulted, w + v);
        forall z, n: nat | FirstOr(Kinds(z)) == kinds[0] && Passes(g, t, defaulted, w, z, n)
          ensures n <= k
        {
          Bounded(g, pr, t, defaulted, w, v, z, k, tree, n);
        }
        limit := if limit < k then k else limit;
      }
    }
  }

  lemma PassesSentence(g: Grammar, t: Tables, defaulted: map<nat, int>, w: seq<Token>, v: seq<Token>, n: nat)
    requires Passes(g, t, defaulted, w, v, n)
    ensures InputOk(g, w + v) && g.Derives([Goal(g)], Kinds(w + v)) && (FirstOr(Kinds(v)) in g.terminals || v == [])
  {
    hide Grammar.Derives;
    if v != [] {
      assert (w + v)[|w|] == v[0];
    }
  }

  lemma Limit(g: Grammar, pr: Params, t: Tables, defaulted: map<nat, int>, w: seq<Token>) returns (limit: nat)
    requires Ready(g, pr, t, defaulted)
    ensures Limited(g, t, defaulted, w, limit)
  {
    hide Ready, Passes;
    limit := LimitFor(g, pr, t, defaulted, w, g.terminals + [END]);
    forall z, n: nat | Passes(g, t, defaulted, w, z, n)
      ensures FirstOr(Kinds(z)) in g.terminals + [END]
    {
      PassesSentence(g, t, defaulted, w, z, n);
    }
  }

  /** From each state of a run, more rounds lead to an end. */
  lemma {:induction false} EndsFrom(g: Grammar, pr: Params, t: Tables, defaulted: map<nat, int>, input: seq<Token>, s: State,
                                    n: nat, limit: nat)
    returns (m: nat, e: State, e1: State, r: Outcome)
    requires Ready(g, pr, t, defaulted) && AllProductive(g) && InputOk(g, input)
    requires Rounds(g, t, defaulted, input, BOTTOM, s, n) && Holds(g, t, input, s)
    requires s.pos <= |input| && s.symbols != [] && NodesOf(s.symbols[1..]) == n
    requires Limited(g, t, defaulted, Yields(s.symbols[1..]), limit)
    ensures Rounds(g, t, defaulted, input, BOTTOM, e, m) && StepIs(g, t, defaulted, input, e, e1, r) && r != Running
    decreases |Ahead(input, s)|, if n <= limit then limit - n + 1 else 0
  {
    hide Ready, AllProductive, InputOk, Holds, Usable, StepIs, Rounds, Passes, NodesOf, Yields, Ahead;
    ReadyUsable(g, pr, t, defaulted, input);
    var s1, q := SomeStep(g, t, defaulted, input, s);
    if q != Running {
      m, e, e1, r := n, s, s1, q;
    } else {
      RoundMoves(g, t, defaulted, input, s, s1);
      OneRound(g, t, defaulted, input, s, s1);
      RoundsJoin(g, t, defaulted, input, BOTTOM, s, s1, n, 1);
      if Ahead(input, s1) == Ahead(input, s) {
        SameShifted(g, t, input, s, s1);
        WithinLimit(g, pr, t, defaulted, input, s1, limit);
        m, e, e1, r := EndsFrom(g, pr, t, defaulted, input, s1, n + 1, limit);
      } else {
        var more := Limit(g, pr, t, defaulted, Yields(s1.symbols[1..]));
        m, e, e1, r := EndsFrom(g, pr, t, defaulted, input, s1, n + 1, more);
      }
    }
  }

  lemma SameShifted(g: Grammar, t: Tables, input: seq<Token>, s: State, s1: State)
    requires Holds(g, t, input, s) && Holds(g, t, input, s1) && s.pos <= |input| && s1.pos <= |input|
    requires Ahead(input, s) == Ahead(input, s1)
    ensures s.symbols != [] && s1.symbols != [] && Yields(s.symbols[1..]) == Yields(s1.symbols[1..])
  {
    hide Holds, Ahead, Yields;
    ShiftedAndAhead(g, t, input, s);
    ShiftedAndAhead(g, t, input, s1);
    var a, b, c := Yields(s.symbols[1..]), Yields(s1.symbols[1..]), Ahead(input, s);
    assert a == (a + c)[..|a|] && b == (b + c)[..|b|];
  }

  /** A stack with a node on top is reached within the limit. */
  lemma WithinLimit(g: Grammar, pr: Params, t: Tables, defaulted: map<nat, int>, input: seq<Token>, s: State, limit: nat)
    requires Ready(g, pr, t, defaulted) && AllProductive(g) && InputOk(g, input) && Holds(g, t, input, s)
    requires |s.symbols| > 1 && s.symbols[|s.symbols| - 1].Node?
    requires Limited(g, t, defaulted, Yields(s.symbols[1..]), limit)
    ensures NodesOf(s.symbols[1..]) <= limit
  {
    hide Ready, AllProductive, Passes, NodesOf, Yields, Accounts, Path, Ahead;
    ShiftedAndAhead(g, t, input, s);
    var w := Yields(s.symbols[1..]);
    assert InputOk(g, w) by {
      assert forall i :: 0 <= i < |w| ==> w[i] == input[i];
    }
    var v := Completed(g, pr, t, defaulted, s);
  }

  /**
   Whatever the input, the parser ends after some number of rounds. It accepts, with a tree of the whole input, if the
   start symbol derives the input, and reports a syntax error otherwise.
   */
  lemma Decides(g: Grammar, pr: Params, t: Tables, defaulted: map<nat, int>, input: seq<Token>)
    returns (n: nat, s: State, s1: State, r: Outcome)
    requires Ready(g, pr, t, defaulted) && AllProductive(g) && InputOk(g, input)
    ensures Rounds(g, t, defaulted, input, BOTTOM, s, n) && StepIs(g, t, defaulted, input, s, s1, r) && r != Running
    ensures r.Accepted? <==> g.Derives([Goal(g)], Kinds(input))
    ensures r.Accepted? ==> ValidTree(g, r.tree) && SymbolOf(g, r.tree) == Goal(g) && Yield(r.tree) == input
  {
    hide Ready, AllProductive, InputOk, Holds, Usable, StepIs, Rounds, Passes, NodesOf, Yields, Ahead, ValidTree, Yield,
      Grammar.Derives, AcceptsAfter;
    ReadyUsable(g, pr, t, defaulted, input);
    HoldsSome(g, t, input, BOTTOM);
    NoRounds(g, t, defaulted, input, BOTTOM);
    RunMoves(g, t, defaulted, input, BOTTOM, BOTTOM, 0);
    NoNodes();
    var limit := Limit(g, pr, t, defaulted, Yields(BOTTOM.symbols[1..]));
    n, s, s1, r := EndsFrom(g, pr, t, defaulted, input, BOTTOM, 0, limit);
    RunMoves(g, t, defaulted, input, BOTTOM, s, n);
    if r.Accepted? {
      AcceptedTree(g, t, defaulted, input, s, s1, r);
      TreeDerives(g, r.tree);
    }
    if g.Derives([Goal(g)], Kinds(input)) {
      var k, tree := SomeRounds(g, pr, t, defaulted, input);
      AcceptsEnds(g, t, defaulted, input, k, tree, n, s, s1, r);
    }
  }

  lemma NoNodes()
    ensures NodesOf(BOTTOM.symbols[1..]) == 0
  {
    assert BOTTOM.symbols[1..] == [];
  }

  /** An accepting step returns a tree of the input. */
  lemma AcceptedTree(g: Grammar, t: Tables, defaulted: map<nat, int>, input: seq<Token>, s: State, s1: State, r: Outcome)
    requires Usable(g, t, defaulted, input) && Holds(g, t, input, s) && StepIs(g, t, defaulted, input, s, s1, r) && r.Accepted?
    ensures ValidTree(g, r.tree) && SymbolOf(g, r.tree) == Goal(g) && Yield(r.tree) == input
  {
    hide TablesOk, DefaultsOk, Path, Accounts, Fetched, ValidTree, Yield, Ahead, Chosen, Entry;
    FetchHolds(g, t, defaulted, input, s);
    var f := Fetched(defaulted, input, s);
    NotDefault(t, defaulted, f, 0);
    AcceptMeans(g, t, input, f);
  }

  lemma AcceptsEnds(g: Grammar, t: Tables, defaulted: map<nat, int>, input: seq<Token>, k: nat, tree: Tree, n: nat, s: State,
                    s1: State, r: Outcome)
    requires AcceptsAfter(g, t, defaulted, input, k, tree)
    requires Rounds(g, t, defaulted, input, BOTTOM, s, n) && StepIs(g, t, defaulted, input, s, s1, r) && r != Running
    ensures r == Accepted(tree)
  {
    hide StepIs, Rounds;
    var u, u1 :| Rounds(g, t, defaulted, input, BOTTOM, u, k) && StepIs(g, t, defaulted, input, u, u1, Accepted(tree));
    EndsAgree(g, t, defaulted, input, n, s, s1, r, k, u, u1, Accepted(tree));
  }

  /** So does the generated parser: with the computed lookaheads, a grammar without conflicts is all that is asked. */
  lemma GeneratedDecides(g: Grammar, pr: Params, t: Tables, defaulted: map<nat, int>, input: seq<Token>)
    returns (n: nat, s: State, s1: State, r: Outcome)
    requires g.Wf() && TablesOk(g, t) && RowsFolded(g, pr, t) && LrLookaheads.LalrLookaheads(g, t.C, pr.lookaheads)
    requires DefaultsOk(t, defaulted) && forall st: nat :: st in defaulted <==> OneReduction(t, st)
    requires NoConflicts(g, t.C, pr) && AllProductive(g) && InputOk(g, input)
    ensures Rounds(g, t, defaulted, input, BOTTOM, s, n) && StepIs(g, t, defaulted, input, s, s1, r) && r != Running
    ensures r.Accepted? <==> g.Derives([Goal(g)], Kinds(input))
    ensures r.Accepted? ==> ValidTree(g, r.tree) && SymbolOf(g, r.tree) == Goal(g) && Yield(r.tree) == input
  {
    hide AutomatonOk, EntrySound, GotoRowIs, RowsFolded, OneReduction, DefaultsOk, NoConflicts, LookaheadsCover, AllProductive,
      InputOk, Rounds, StepIs, Grammar.Derives, LrLookaheads.HasEntry, LrLookaheads.IsLookahead;
    LrLookaheads.LookaheadsSuffice(g, t.C, pr);
    n, s, s1, r := Decides(g, pr, t, defaulted, input);
  }
}
