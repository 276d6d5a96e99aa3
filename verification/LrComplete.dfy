/**
 Completeness of the parser: over tables without conflicts whose lookaheads hold every token that can follow, each
 sentence is accepted, with the parse tree it has and after one round for each node of it.
 */
module LrComplete {
  import opened Common
  import opened Grammars
  import opened LrItems
  import opened LrAutomaton
  import opened LrTable
  import opened LrEngine

  // ---------- What is asked of the tables ----------

  /** No two candidates of a state for one symbol ask for different actions. */
  ghost predicate NoConflicts(g: Grammar, C: seq<ItemSet>, pr: Params)
  {
    forall st, a, c, d :: 0 <= st < |C| && c in StateCands(g, C, pr, st, a) && d in StateCands(g, C, pr, st, a) ==>
      ActionOf(c) == ActionOf(d)
  }

  /** The states are a path from state 0 spelled by w. */
  ghost predicate Spelled(g: Grammar, C: seq<ItemSet>, states: seq<nat>, w: seq<Symbol>)
  {
    && |states| == |w| + 1 && states[0] == 0
    && forall k :: 0 <= k < |w| ==> Edge(g, C, states[k], w[k], states[k + 1])
  }

  ghost predicate AllTerminals(g: Grammar, w: seq<Symbol>) { forall x :: x in w ==> x in g.terminals }

  /** The kind of the next token, or the end mark. */
  function FirstOr(w: seq<Symbol>): Symbol { if w == [] then END else w[0] }

  /** The start symbol of the user's grammar. */
  function Goal(g: Grammar): Symbol { if g.prods != [] && g.prods[0].rhs != [] then g.prods[0].rhs[0] else END }

  /** One step down a parse tree: a production, a position in its right side, and what the symbols behind that derive. */
  datatype Frame = Frame(prod: nat, dot: nat, after: seq<Symbol>)

  ghost predicate FrameOk(g: Grammar, f: Frame)
  {
    && 1 <= f.prod < |g.prods| && f.dot < |g.prods[f.prod].rhs|
    && AllTerminals(g, f.after) && g.Derives(g.prods[f.prod].rhs[f.dot + 1..], f.after)
  }

  /** A way down from the start symbol; each production is for the symbol at the position before it. */
  ghost predicate ContextOk(g: Grammar, fs: seq<Frame>)
  {
    fs == [] ||
    var n := |fs| - 1;
    ContextOk(g, fs[..n]) && FrameOk(g, fs[n]) && g.prods[fs[n].prod].name == Hole(g, fs[..n])
  }

  function SymbolAt(g: Grammar, f: Frame): Symbol
  {
    if f.prod < |g.prods| && f.dot < |g.prods[f.prod].rhs| then g.prods[f.prod].rhs[f.dot] else END
  }

  function FrontOf(g: Grammar, f: Frame): seq<Symbol>
  {
    if f.prod < |g.prods| && f.dot < |g.prods[f.prod].rhs| then g.prods[f.prod].rhs[..f.dot] else []
  }

  /** The symbol that the way ends at. */
  function Hole(g: Grammar, fs: seq<Frame>): Symbol { if fs == [] then Goal(g) else SymbolAt(g, fs[|fs| - 1]) }

  /** What stands before it, not yet rewritten. */
  function LeftOf(g: Grammar, fs: seq<Frame>): seq<Symbol>
  {
    if fs == [] then [] else LeftOf(g, fs[..|fs| - 1]) + FrontOf(g, fs[|fs| - 1])
  }

  /** The terminals behind it. */
  function RightOf(fs: seq<Frame>): seq<Symbol>
  {
    if fs == [] then [] else fs[|fs| - 1].after + RightOf(fs[..|fs| - 1])
  }

  /** The way spells a form that the start symbol derives, with everything to the right rewritten first. */
  lemma {:induction false} ContextDerives(g: Grammar, fs: seq<Frame>)
    requires ContextOk(g, fs)
    ensures g.Derives([Goal(g)], LeftOf(g, fs) + [Hole(g, fs)] + RightOf(fs)) && AllTerminals(g, RightOf(fs))
  {
    hide Grammar.Derives;
    if fs == [] {
      g.DerivesSelf([Goal(g)]);
      assert [] + [Goal(g)] + [] == [Goal(g)];
    } else {
      var n := |fs| - 1;
      ContextDerives(g, fs[..n]);
      OneFrame(g, LeftOf(g, fs[..n]), fs[n], RightOf(fs[..n]));
    }
  }

  lemma OneFrame(g: Grammar, u: seq<Symbol>, f: Frame, w: seq<Symbol>)
    requires FrameOk(g, f) && g.Derives([Goal(g)], u + [g.prods[f.prod].name] + w)
    ensures g.Derives([Goal(g)], u + FrontOf(g, f) + [SymbolAt(g, f)] + (f.after + w))
  {
    hide Grammar.Derives;
    var rhs := g.prods[f.prod].rhs;
    var v := u + rhs[..f.dot + 1];
    g.DerivesRule(f.prod);
    g.DerivesContext(u, [g.prods[f.prod].name], rhs, w);
    g.DerivesContext(v, rhs[f.dot + 1..], f.after, w);
    assert u + rhs + w == v + rhs[f.dot + 1..] + w;
    g.DerivesTrans([Goal(g)], u + [g.prods[f.prod].name] + w, u + rhs + w);
    g.DerivesTrans([Goal(g)], u + rhs + w, v + f.after + w);
    assert v + f.after + w == u + FrontOf(g, f) + [SymbolAt(g, f)] + (f.after + w);
  }

  /** The name of p stands behind before in such a form, and terminals beginning with a behind that. */
  ghost predicate CanFollow(g: Grammar, before: seq<Symbol>, p: nat, a: Symbol)
    requires p < |g.prods|
  {
    exists fs ::
      ContextOk(g, fs) && LeftOf(g, fs) == before && Hole(g, fs) == g.prods[p].name && a == FirstOr(RightOf(fs))
  }

  /** Wherever the right side of p is on the stack, its lookaheads there hold every token that can follow. */
  ghost predicate LookaheadsCover(g: Grammar, C: seq<ItemSet>, pr: Params)
  {
    forall states, before, p, a ::
      && 1 <= p < |g.prods| && CanFollow(g, before, p, a) && Spelled(g, C, states, before + g.prods[p].rhs)
      && states[|states| - 1] < |C| && Item(p, |g.prods[p].rhs|) in C[states[|states| - 1]] ==>
        var it := (Item(p, |g.prods[p].rhs|), states[|states| - 1]);
        it in pr.lookaheads && a in pr.lookaheads[it]
  }

  /** This is so in any case when each complete item has all terminals and the end mark. */
  lemma FullLookaheadsCover(g: Grammar, C: seq<ItemSet>, pr: Params)
    requires forall st, p :: 0 <= st < |C| && 1 <= p < |g.prods| && Item(p, |g.prods[p].rhs|) in C[st] ==>
               var it := (Item(p, |g.prods[p].rhs|), st);
               it in pr.lookaheads && forall a :: a in g.terminals || a == END ==> a in pr.lookaheads[it]
    ensures LookaheadsCover(g, C, pr)
  {
    hide Edge, CanFollow;
    forall before, p, a | 1 <= p < |g.prods| && CanFollow(g, before, p, a)
      ensures a in g.terminals || a == END
    {
      FollowerKind(g, before, p, a);
    }
  }

  lemma FollowerKind(g: Grammar, before: seq<Symbol>, p: nat, a: Symbol)
    requires p < |g.prods| && CanFollow(g, before, p, a)
    ensures a in g.terminals || a == END
  {
    hide ContextOk, LeftOf, RightOf;
    var fs :| ContextOk(g, fs) && LeftOf(g, fs) == before && Hole(g, fs) == g.prods[p].name && a == FirstOr(RightOf(fs));
    ContextDerives(g, fs);
  }

  /** Tables as LrParseTable and SetDefaultedStates leave them, for a grammar without conflicts. */
  ghost predicate Ready(g: Grammar, pr: Params, t: Tables, defaulted: map<nat, int>)
  {
    && g.Wf() && TablesOk(g, t) && RowsFolded(g, pr, t) && DefaultsOk(t, defaulted)
    && (forall st: nat :: st in defaulted <==> OneReduction(t, st))
    && NoConflicts(g, t.C, pr) && LookaheadsCover(g, t.C, pr)
  }

  // ---------- Entries ----------

  lemma {:induction false} CandsMember(g: Grammar, C: seq<ItemSet>, pr: Params, st: nat, I: ItemSet, it: Item, a: Symbol,
                                       c: Candidate)
    requires st < |C| && it in I && c in ItemCands(g, C, pr, st, it, a)
    ensures c in Cands(g, C, pr, st, I, a)
  {
    hide ItemCands;
    var n := |I| - 1;
    if it in I[..n] {
      CandsMember(g, C, pr, st, I[..n], it, a, c);
    } else {
      assert I[n] == it;
    }
  }

  /** Candidates that all ask for one action get it. */
  lemma {:induction false} FoldAgrees(g: Grammar, pr: Params, a: Symbol, cs: seq<Candidate>, v: int)
    requires cs != [] && forall c :: c in cs ==> ActionOf(c) == v
    requires forall c :: c in cs && c.Reduce? ==> c.it.prod >= 1
    requires forall c :: c in cs && c.Shift? ==> c.to >= 1
    ensures Fold(g, pr, a, cs).Some? && Fold(g, pr, a, cs).value.act == Act(v)
  {
    var n := |cs| - 1;
    assert cs[n] in cs;
    if n == 0 {
      assert cs[..0] == [];
    } else {
      FoldAgrees(g, pr, a, cs[..n], v);
    }
  }

  /** Without conflicts every candidate's action is the entry. */
  lemma EntryIs(g: Grammar, pr: Params, t: Tables, defaulted: map<nat, int>, st: nat, a: Symbol, c: Candidate)
    requires Ready(g, pr, t, defaulted) && st < |t.C| && c in StateCands(g, t.C, pr, st, a)
    ensures |t.action| == |t.C| && a in t.action[st] && Entry(t, st, a) == Act(ActionOf(c))
  {
    hide Fold, Cands, CandOk, LookaheadsCover, OneReduction, DefaultsOk, Resolve;
    var cs := StateCands(g, t.C, pr, st, a);
    CandsSound(g, t.C, pr, st, a);
    assert forall d :: d in cs ==> ActionOf(d) == ActionOf(c);
    FoldAgrees(g, pr, a, cs, ActionOf(c));
  }

  lemma CandsSound(g: Grammar, C: seq<ItemSet>, pr: Params, st: nat, a: Symbol)
    requires g.Wf() && AutomatonOk(g, C) && st < |C|
    ensures forall c :: c in StateCands(g, C, pr, st, a) && c.Reduce? ==> c.it.prod >= 1
    ensures forall c :: c in StateCands(g, C, pr, st, a) && c.Shift? ==> c.to >= 1
  {
    hide Cands, Collected, Expanded, Edge;
    CandsOk(g, C, pr, st, C[st], a);
    assert forall c :: c in StateCands(g, C, pr, st, a) ==> CandOk(g, C, st, a, c);
  }

  /** A state with a default has one entry. */
  lemma DefaultIs(t: Tables, defaulted: map<nat, int>, st: nat, a: Symbol)
    requires DefaultsOk(t, defaulted) && st in defaulted && OneReduction(t, st) && a in t.action[st]
    ensures Entry(t, st, a) == Act(defaulted[st]) && defaulted[st] < 0
  {
    OnlyKey(t.action[st], a);
  }

  // ---------- The tokens ahead ----------

  /** The tokens not shifted yet. */
  function Ahead(input: seq<Token>, s: State): seq<Token>
    requires s.pos <= |input|
  {
    (if s.lookahead.Some? && s.lookahead.value.kind != END then [s.lookahead.value] else []) + input[s.pos..]
  }

  ghost predicate Consistent(g: Grammar, t: Tables, input: seq<Token>, s: State)
  {
    && s.pos <= |input| && Path(g, t.C, s.states, s.symbols)
    && (s.lookahead.Some? ==> s.lookahead.value.kind in g.terminals || (s.lookahead.value.kind == END && s.pos == |input|))
  }

  lemma AheadKinds(g: Grammar, t: Tables, input: seq<Token>, s: State)
    requires Consistent(g, t, input, s) && InputOk(g, input)
    ensures forall tok :: tok in Ahead(input, s) ==> tok.kind in g.terminals
  {
    hide Edge, ValidTree;
  }

  predicate InputOk(g: Grammar, input: seq<Token>) { forall i :: 0 <= i < |input| ==> input[i].kind in g.terminals }

  /** After reading, the lookahead is the first token ahead, or the end mark. */
  lemma FetchIs(g: Grammar, t: Tables, defaulted: map<nat, int>, input: seq<Token>, s: State)
    requires g.Wf() && Consistent(g, t, input, s) && InputOk(g, input)
    ensures s.states != []
    ensures var f := Fetched(defaulted, input, s);
            && f.states == s.states && f.symbols == s.symbols && Consistent(g, t, input, f)
            && Ahead(input, f) == Ahead(input, s)
            && (Top(s.states) !in defaulted ==> f.lookahead.Some? && f.lookahead.value.kind == FirstOr(Kinds(Ahead(input, s))))
            && (Top(s.states) !in defaulted && Ahead(input, s) != [] ==>
                  f.lookahead.value == Ahead(input, s)[0] && input[f.pos..] == Ahead(input, s)[1..])
  {
    hide Edge, ValidTree;
    if s.pos < |input| {
      assert input[s.pos..] == [input[s.pos]] + input[s.pos + 1..];
    }
  }

  /** The symbols on the stack above the bottom one. */
  ghost function Below(g: Grammar, s: State): seq<Symbol>
    requires s.symbols != []
  {
    Symbols(g, s.symbols[1..])
  }

  /** The number of nodes of a tree. */
  ghost function Nodes(t: Tree): nat
    decreases t, 0
  {
    match t
    case Leaf(_) => 1
    case Node(_, ts) => NodesOf(ts) + 1
  }

  ghost function NodesOf(ts: seq<Tree>): nat
    decreases ts, 1
  {
    if ts == [] then 0 else Nodes(ts[0]) + NodesOf(ts[1..])
  }

  lemma {:induction false} YieldsFirst(ts: seq<Tree>)
    requires ts != []
    ensures Yields(ts) == Yield(ts[0]) + Yields(ts[1..])
  {
    assert ts == [ts[0]] + ts[1..];
    YieldsConcat([ts[0]], ts[1..]);
    YieldsOne(ts[0]);
  }

  // ---------- One tree ----------

  /** The state is closed, and has a transition over what one of its items expects. */
  lemma StateClosed(g: Grammar, C: seq<ItemSet>, st: nat)
    requires AutomatonOk(g, C) && st < |C|
    ensures Closed(g, iset it | it in C[st])
  {
    hide Closure, Goto, Closed, StateOk;
    if st == 0 {
      ClosureLeast(g, [Item(0, 0)]);
    } else {
      assert Entered(g, C, st);
      var j: nat, x :| j < st && Edge(g, C, j, x, st);
      GotoClosed(g, C[j], x);
    }
  }

  lemma GotoClosed(g: Grammar, I: ItemSet, x: Symbol)
    requires Goto(g, I, x) != []
    ensures Closed(g, iset it | it in Goto(g, I, x))
  {
    hide Closure, Closed;
    ClosureLeast(g, Kernel(g, I, x));
  }

  lemma Asked(g: Grammar, C: seq<ItemSet>, st: nat, q: Item, p: nat)
    requires AutomatonOk(g, C) && st < |C| && q in C[st] && 1 <= p < |g.prods| && Expects(g, q, g.prods[p].name)
    ensures Item(p, 0) in C[st]
  {
    hide AutomatonOk;
    StateClosed(g, C, st);
    assert p in After(g, q);
  }

  lemma ExpandedAt(g: Grammar, C: seq<ItemSet>, st: nat)
    requires AutomatonOk(g, C) && st < |C|
    ensures Collected(g, C) && Expanded(g, C, st)
  {
    hide Collected, Expanded;
  }

  lemma GotoIndex(g: Grammar, C: seq<ItemSet>, st: nat, x: Symbol) returns (to: nat)
    requires AutomatonOk(g, C) && st < |C| && Goto(g, C[st], x) != []
    ensures 1 <= to < |C| && Edge(g, C, st, x, to) && to == IndexOf(C, Goto(g, C[st], x))
  {
    hide Goto, AutomatonOk;
    ExpandedAt(g, C, st);
    to := IndexOf(C, Goto(g, C[st], x));
    NothingEntersStart(g, C, st, x);
  }

  /** The transition over an expected symbol. */
  lemma Transition(g: Grammar, C: seq<ItemSet>, st: nat, q: Item) returns (to: nat)
    requires AutomatonOk(g, C) && st < |C| && q in C[st] && ValidItem(g, q) && !Complete(g, q)
    ensures var x := g.prods[q.prod].rhs[q.dot];
            && 1 <= to < |C| && Edge(g, C, st, x, to) && to == IndexOf(C, Goto(g, C[st], x))
            && Item(q.prod, q.dot + 1) in C[to]
  {
    hide Goto, AutomatonOk, IndexOf;
    var x := g.prods[q.prod].rhs[q.dot];
    assert Expects(g, q, x);
    HasGoto(g, C[st], q, x);
    to := GotoIndex(g, C, st, x);
    Moves(g, C, st, q, x, to);
  }

  lemma HasGoto(g: Grammar, I: ItemSet, q: Item, x: Symbol)
    requires q in I && Expects(g, q, x)
    ensures Goto(g, I, x) != []
  {
    hide Goto;
    GotoItems(g, I, x);
  }

  /** The entry for a token that an item of the state expects is the shift, and the state has no default. */
  lemma ShiftEntry(g: Grammar, pr: Params, t: Tables, defaulted: map<nat, int>, st: nat, q: Item, a: Symbol) returns (to: nat)
    requires Ready(g, pr, t, defaulted) && st < |t.C| && q in t.C[st] && Expects(g, q, a) && a in g.terminals
    ensures |t.action| == |t.C| && Entry(t, st, a) == Act(to) && st !in defaulted
    ensures 1 <= to < |t.C| && Edge(g, t.C, st, a, to) && Item(q.prod, q.dot + 1) in t.C[to]
  {
    hide LookaheadsCover, NoConflicts, OneReduction, DefaultsOk, RowsFolded, EntrySound, GotoRowIs, Edge, Goto, Collected,
      Expanded;
    to := Transition(g, t.C, st, q);
    assert Shift(q, to) in ItemCands(g, t.C, pr, st, q, a);
    CandsMember(g, t.C, pr, st, t.C[st], q, a, Shift(q, to));
    EntryIs(g, pr, t, defaulted, st, a, Shift(q, to));
    if st in defaulted {
      DefaultIs(t, defaulted, st, a);
    }
  }

  /** Shifting the token that an item of the state on top expects. */
  lemma ShiftRound(g: Grammar, pr: Params, t: Tables, defaulted: map<nat, int>, input: seq<Token>, s: State, q: Item)
    returns (s1: State)
    requires Ready(g, pr, t, defaulted) && Consistent(g, t, input, s) && InputOk(g, input)
    requires Ahead(input, s) != [] && q in t.C[Top(s.states)] && Expects(g, q, Ahead(input, s)[0].kind)
    ensures Consistent(g, t, input, s1) && Rounds(g, t, defaulted, input, s, s1, 1)
    ensures |s1.states| == |s.states| + 1 && s1.states[..|s.states|] == s.states
    ensures s1.symbols == s.symbols + [Leaf(Ahead(input, s)[0])] && Ahead(input, s1) == Ahead(input, s)[1..]
    ensures Item(q.prod, q.dot + 1) in t.C[Top(s1.states)]
  {
    hide Edge, LookaheadsCover, NoConflicts, OneReduction, DefaultsOk, RowsFolded, TablesOk, Expects, ValidTree, Rounds, Fetched;
    var st, tok := Top(s.states), Ahead(input, s)[0];
    AheadKinds(g, t, input, s);
    assert tok in Ahead(input, s);
    var to := ShiftEntry(g, pr, t, defaulted, st, q, tok.kind);
    FetchIs(g, t, defaulted, input, s);
    var f := Fetched(defaulted, input, s);
    s1 := Shifted(f, to);
    LeafIsValid(g, tok);
    PathPush(g, t.C, s.states, s.symbols, 0, Leaf(tok), to);
    assert s.states[..|s.states| - 0] == s.states && s.symbols[..|s.symbols| - 0] == s.symbols;
    OneRound(g, t, defaulted, input, s, s1);
  }

  lemma LeafIsValid(g: Grammar, tok: Token)
    ensures ValidTree(g, Leaf(tok))
  {
  }

  // ---------- Reductions ----------

  lemma PathSpells(g: Grammar, C: seq<ItemSet>, s: State)
    requires Path(g, C, s.states, s.symbols)
    ensures Spelled(g, C, s.states, Below(g, s))
  {
    hide Edge, ValidTree;
    forall k | 0 <= k < |Below(g, s)|
      ensures Edge(g, C, s.states[k], Below(g, s)[k], s.states[k + 1])
    {
      assert Edge(g, C, s.states[(k + 1) - 1], SymbolOf(g, s.symbols[k + 1]), s.states[k + 1]);
    }
  }

  /** The entry for a token that can follow is the reduction, and so is the default if the state has one. */
  lemma ReduceEntry(g: Grammar, pr: Params, t: Tables, defaulted: map<nat, int>, states: seq<nat>, before: seq<Symbol>,
                    p: nat, a: Symbol)
    requires Ready(g, pr, t, defaulted) && 1 <= p < |g.prods| && CanFollow(g, before, p, a)
    requires Spelled(g, t.C, states, before + g.prods[p].rhs) && states != [] && states[|states| - 1] < |t.C|
    requires Item(p, |g.prods[p].rhs|) in t.C[states[|states| - 1]]
    ensures var st, v: int := states[|states| - 1], p;
            && |t.action| == |t.C| && Entry(t, st, a) == Act(-v) && (st in defaulted ==> defaulted[st] == -v)
  {
    hide NoConflicts, OneReduction, DefaultsOk, RowsFolded, TablesOk, CanFollow, Spelled;
    var st, it := states[|states| - 1], Item(p, |g.prods[p].rhs|);
    assert (it, st) in pr.lookaheads && a in pr.lookaheads[(it, st)];
    ReduceCandsAre(it, pr.lookaheads[(it, st)], a);
    assert Reduce(it) in ItemCands(g, t.C, pr, st, it, a);
    CandsMember(g, t.C, pr, st, t.C[st], it, a, Reduce(it));
    EntryIs(g, pr, t, defaulted, st, a, Reduce(it));
    if st in defaulted {
      DefaultIs(t, defaulted, st, a);
    }
  }

  /** The stacks when d symbols have been replaced by one. */
  ghost predicate Replaced(g: Grammar, t: Tables, s: State, s1: State, p: nat)
    requires p < |g.prods|
  {
    var d := |g.prods[p].rhs|;
    && d < |s.states| == |s.symbols| && |s1.states| == |s.states| - d + 1
    && s1.states[..|s.states| - d] == s.states[..|s.states| - d]
    && s1.symbols == s.symbols[..|s.symbols| - d] + [Node(p, s.symbols[|s.symbols| - d..])]
    && Edge(g, t.C, s.states[|s.states| - 1 - d], g.prods[p].name, s1.states[|s1.states| - 1])
  }

  /** Replacing a right side that is on top of the stack, when the token ahead can follow. */
  lemma ReduceRound(g: Grammar, pr: Params, t: Tables, defaulted: map<nat, int>, input: seq<Token>, s: State, p: nat,
                    before: seq<Symbol>)
    returns (s1: State)
    requires Ready(g, pr, t, defaulted) && Consistent(g, t, input, s) && InputOk(g, input) && 1 <= p < |g.prods|
    requires Item(p, |g.prods[p].rhs|) in t.C[Top(s.states)] && Below(g, s) == before + g.prods[p].rhs
    requires CanFollow(g, before, p, FirstOr(Kinds(Ahead(input, s))))
    ensures Consistent(g, t, input, s1) && Rounds(g, t, defaulted, input, s, s1, 1) && Ahead(input, s1) == Ahead(input, s)
    ensures Replaced(g, t, s, s1, p)
  {
    hide Ready, CanFollow, Edge, ValidTree, Rounds, Fetched, Chosen, InputOk, Path, Consistent, Below, Ahead;
    ReduceChosen(g, pr, t, defaulted, input, s, p, before);
    var f := Fetched(defaulted, input, s);
    s1 := Reduced(g, t, f, p);
    ReducedIs(g, t, input, f, p);
    OneRound(g, t, defaulted, input, s, s1);
  }

  /** What the parser chooses when the token ahead can follow. */
  lemma ReduceChosen(g: Grammar, pr: Params, t: Tables, defaulted: map<nat, int>, input: seq<Token>, s: State, p: nat,
                     before: seq<Symbol>)
    requires Ready(g, pr, t, defaulted) && Consistent(g, t, input, s) && InputOk(g, input) && 1 <= p < |g.prods|
    requires Item(p, |g.prods[p].rhs|) in t.C[Top(s.states)] && Below(g, s) == before + g.prods[p].rhs
    requires CanFollow(g, before, p, FirstOr(Kinds(Ahead(input, s))))
    ensures var f, v: int := Fetched(defaulted, input, s), p;
            && |s.states| == |s.symbols| >= 1 && f.states == s.states && f.symbols == s.symbols && Top(s.states) < |t.action|
            && Consistent(g, t, input, f) && Ahead(input, f) == Ahead(input, s)
            && Chosen(t, defaulted, f) == Act(-v) && Reducible(g, t, f.states, f.symbols, p)
  {
    hide LookaheadsCover, NoConflicts, OneReduction, DefaultsOk, RowsFolded, TablesOk, CanFollow, Spelled, Edge, ValidTree,
      Fetched, Entry, InputOk, Reducible;
    TopInside(g, t, input, s);
    PathSpells(g, t.C, s);
    ReduceEntry(g, pr, t, defaulted, s.states, before, p, FirstOr(Kinds(Ahead(input, s))));
    FetchIs(g, t, defaulted, input, s);
    ReduceFits(g, t, s.states, s.symbols, Item(p, |g.prods[p].rhs|), p);
  }

  lemma ReducedIs(g: Grammar, t: Tables, input: seq<Token>, f: State, p: nat)
    requires Consistent(g, t, input, f) && Reducible(g, t, f.states, f.symbols, p)
    ensures CanReduce(g, t, f, p) && Consistent(g, t, input, Reduced(g, t, f, p))
    ensures Ahead(input, Reduced(g, t, f, p)) == Ahead(input, f) && Replaced(g, t, f, Reduced(g, t, f, p), p)
  {
    hide Edge, ValidTree, Path;
    TopInside(g, t, input, f);
    var d := |g.prods[p].rhs|;
    PathPush(g, t.C, f.states, f.symbols, d, Node(p, f.symbols[|f.symbols| - d..]), Top(Reduced(g, t, f, p).states));
  }

  // ---------- Trees and lists of trees ----------

  lemma KindsConcat(a: seq<Token>, b: seq<Token>)
    ensures Kinds(a + b) == Kinds(a) + Kinds(b)
  {
  }

  lemma SymbolsConcat(g: Grammar, a: seq<Tree>, b: seq<Tree>)
    ensures Symbols(g, a + b) == Symbols(g, a) + Symbols(g, b)
  {
  }

  /** What is ahead consists of terminals, and so does any part of it. */
  lemma PartIsTerminal(g: Grammar, t: Tables, input: seq<Token>, s: State, front: seq<Token>, part: seq<Token>, rest: seq<Token>)
    requires Consistent(g, t, input, s) && InputOk(g, input) && Ahead(input, s) == front + (part + rest)
    ensures AllTerminals(g, Kinds(part))
  {
    hide Edge, ValidTree, Path;
    AheadKinds(g, t, input, s);
    forall i | 0 <= i < |part| ensures part[i] in Ahead(input, s) {
      assert (front + (part + rest))[|front| + i] == part[i];
    }
  }

  /** The parser builds the tree of the symbol that an item on top expects, when the tokens ahead begin with its leaves. */
  lemma {:induction false} BuildTree(g: Grammar, pr: Params, t: Tables, defaulted: map<nat, int>, input: seq<Token>, s: State,
                                     q: Item, tree: Tree, rest: seq<Token>, fs: seq<Frame>)
    returns (s1: State)
    requires Ready(g, pr, t, defaulted) && Consistent(g, t, input, s) && InputOk(g, input) && ValidTree(g, tree)
    requires q in t.C[Top(s.states)] && Expects(g, q, SymbolOf(g, tree)) && Ahead(input, s) == Yield(tree) + rest
    requires ContextOk(g, fs) && LeftOf(g, fs) == Below(g, s) && Hole(g, fs) == SymbolOf(g, tree) && RightOf(fs) == Kinds(rest)
    ensures Consistent(g, t, input, s1) && Rounds(g, t, defaulted, input, s, s1, Nodes(tree)) && Ahead(input, s1) == rest
    ensures |s1.states| == |s.states| + 1 && s1.states[..|s.states|] == s.states && s1.symbols == s.symbols + [tree]
    ensures Item(q.prod, q.dot + 1) in t.C[Top(s1.states)]
    decreases tree, 0
  {
    hide Ready, Rounds, Edge, Expects, InputOk;
    match tree
    case Leaf(tok) =>
      assert Ahead(input, s)[0] == tok && Ahead(input, s)[1..] == rest;
      s1 := ShiftRound(g, pr, t, defaulted, input, s, q);
    case Node(p, ts) =>
      s1 := BuildNode(g, pr, t, defaulted, input, s, q, p, ts, rest, fs);
  }

  lemma {:induction false} BuildNode(g: Grammar, pr: Params, t: Tables, defaulted: map<nat, int>, input: seq<Token>, s: State,
                                     q: Item, p: nat, ts: seq<Tree>, rest: seq<Token>, fs: seq<Frame>)
    returns (s1: State)
    requires Ready(g, pr, t, defaulted) && Consistent(g, t, input, s) && InputOk(g, input) && ValidTree(g, Node(p, ts))
    requires q in t.C[Top(s.states)] && Expects(g, q, g.prods[p].name) && Ahead(input, s) == Yields(ts) + rest
    requires ContextOk(g, fs) && LeftOf(g, fs) == Below(g, s) && Hole(g, fs) == g.prods[p].name && RightOf(fs) == Kinds(rest)
    ensures Consistent(g, t, input, s1) && Rounds(g, t, defaulted, input, s, s1, NodesOf(ts) + 1) && Ahead(input, s1) == rest
    ensures |s1.states| == |s.states| + 1 && s1.states[..|s.states|] == s.states && s1.symbols == s.symbols + [Node(p, ts)]
    ensures Item(q.prod, q.dot + 1) in t.C[Top(s1.states)]
    decreases ts, 2
  {
    hide Ready, Rounds, Edge, Expects, InputOk, ValidTree, ContextOk, LeftOf, RightOf, Hole, Path, Replaced, Below, Yields,
      Consistent, Ahead;
    TopInside(g, t, input, s);
    NodeMeans(g, p, ts);
    NodeItem(g, pr, t, defaulted, s, q, p);
    assert Below(g, s) + g.prods[p].rhs[..0] == Below(g, s);
    EmptyTail(g, p, rest);
    var s0 := BuildList(g, pr, t, defaulted, input, s, p, 0, ts, [], rest, fs);
    TopInside(g, t, input, s0);
    BelowGrows(g, s, s0, ts);
    assert CanFollow(g, Below(g, s), p, FirstOr(Kinds(rest)));
    s1 := ReduceRound(g, pr, t, defaulted, input, s0, p, Below(g, s));
    ReplacedIs(g, t, s, s0, s1, p, ts);
    Moves(g, t.C, Top(s.states), q, g.prods[p].name, Top(s1.states));
    RoundsJoin(g, t, defaulted, input, s, s0, s1, NodesOf(ts), 1);
  }

  lemma BelowGrows(g: Grammar, s: State, s1: State, ts: seq<Tree>)
    requires s.symbols != [] && s1.symbols == s.symbols + ts
    ensures Below(g, s1) == Below(g, s) + Symbols(g, ts)
  {
    assert s1.symbols[1..] == s.symbols[1..] + ts;
    SymbolsConcat(g, s.symbols[1..], ts);
  }

  lemma ReplacedIs(g: Grammar, t: Tables, s: State, s0: State, s1: State, p: nat, ts: seq<Tree>)
    requires p < |g.prods| && |ts| == |g.prods[p].rhs| && |s.states| == |s.symbols| >= 1
    requires |s0.states| == |s.states| + |ts| && s0.states[..|s.states|] == s.states && s0.symbols == s.symbols + ts
    requires Replaced(g, t, s0, s1, p)
    ensures |s1.states| == |s.states| + 1 && s1.states[..|s.states|] == s.states && s1.symbols == s.symbols + [Node(p, ts)]
    ensures Edge(g, t.C, Top(s.states), g.prods[p].name, Top(s1.states))
  {
    hide Edge;
    assert s0.states[|s.states| - 1] == s0.states[..|s.states|][|s.states| - 1];
    assert s0.symbols[..|s.symbols|] == s.symbols && s0.symbols[|s.symbols|..] == ts;
  }

  lemma NodeMeans(g: Grammar, p: nat, ts: seq<Tree>)
    requires ValidTree(g, Node(p, ts))
    ensures 1 <= p < |g.prods| && |ts| == |g.prods[p].rhs| && Symbols(g, ts) == g.prods[p].rhs
    ensures forall i :: 0 <= i < |ts| ==> SymbolOf(g, ts[i]) == g.prods[p].rhs[i] && ValidTree(g, ts[i])
  {
  }

  lemma NodeItem(g: Grammar, pr: Params, t: Tables, defaulted: map<nat, int>, s: State, q: Item, p: nat)
    requires Ready(g, pr, t, defaulted) && s.states != [] && Top(s.states) < |t.C| && q in t.C[Top(s.states)]
    requires 1 <= p < |g.prods| && Expects(g, q, g.prods[p].name)
    ensures Item(p, 0) in t.C[Top(s.states)]
  {
    hide LookaheadsCover, NoConflicts, OneReduction, DefaultsOk, RowsFolded, AutomatonOk, EntrySound, GotoRowIs;
    Asked(g, t.C, Top(s.states), q, p);
  }

  lemma Moves(g: Grammar, C: seq<ItemSet>, from: nat, q: Item, x: Symbol, to: nat)
    requires Edge(g, C, from, x, to) && q in C[from] && Expects(g, q, x)
    ensures Item(q.prod, q.dot + 1) in C[to]
  {
    hide Goto;
    GotoItems(g, C[from], x);
  }

  lemma EmptyTail(g: Grammar, p: nat, rest: seq<Token>)
    requires p < |g.prods|
    ensures g.Derives(g.prods[p].rhs[|g.prods[p].rhs|..], Kinds([])) && [] + rest == rest && AllTerminals(g, Kinds([]))
  {
    g.DerivesSelf([]);
    assert Kinds([]) == [] && g.prods[p].rhs[|g.prods[p].rhs|..] == [];
  }

  /** The same for trees of a right side from position k on, one after the other; the symbols behind them derive tail. */
  lemma {:induction false} BuildList(g: Grammar, pr: Params, t: Tables, defaulted: map<nat, int>, input: seq<Token>, s: State,
                                     p: nat, k: nat, ts: seq<Tree>, tail: seq<Token>, rest: seq<Token>, fs: seq<Frame>)
    returns (s1: State)
    requires Ready(g, pr, t, defaulted) && Consistent(g, t, input, s) && InputOk(g, input) && 1 <= p < |g.prods|
    requires k + |ts| <= |g.prods[p].rhs| && Item(p, k) in t.C[Top(s.states)] && Ahead(input, s) == Yields(ts) + (tail + rest)
    requires g.Derives(g.prods[p].rhs[k + |ts|..], Kinds(tail))
    requires forall i :: 0 <= i < |ts| ==> SymbolOf(g, ts[i]) == g.prods[p].rhs[k + i] && ValidTree(g, ts[i])
    requires ContextOk(g, fs) && Hole(g, fs) == g.prods[p].name && RightOf(fs) == Kinds(rest)
    requires Below(g, s) == LeftOf(g, fs) + g.prods[p].rhs[..k]
    ensures Consistent(g, t, input, s1) && Rounds(g, t, defaulted, input, s, s1, NodesOf(ts)) && Ahead(input, s1) == tail + rest
    ensures |s1.states| == |s.states| + |ts| && s1.states[..|s.states|] == s.states && s1.symbols == s.symbols + ts
    ensures Item(p, k + |ts|) in t.C[Top(s1.states)]
    decreases ts, 1
  {
    hide Ready, Rounds, Edge, InputOk, Yield, Yields, Nodes, Consistent, ContextOk, LeftOf, RightOf, Hole, Path, Ahead, Below,
      ValidTree, Kinds, SymbolOf;
    TopInside(g, t, input, s);
    if ts == [] {
      s1 := s;
      NoYield();
      assert [] + (tail + rest) == tail + rest && s.symbols + ts == s.symbols;
      NoRounds(g, t, defaulted, input, s);
    } else {
      var more := Yields(ts[1..]) + (tail + rest);
      YieldsFirst(ts);
      assert Yields(ts) + (tail + rest) == Yield(ts[0]) + more;
      assert more == (Yields(ts[1..]) + tail) + rest;
      PartIsTerminal(g, t, input, s, Yield(ts[0]), Yields(ts[1..]) + tail, rest);
      var deeper := FirstContext(g, fs, p, k, ts, tail, rest);
      AtDot(g, pr, t, defaulted, s, p, k);
      var s0 := BuildTree(g, pr, t, defaulted, input, s, Item(p, k), ts[0], more, deeper);
      BelowGrows(g, s, s0, [ts[0]]);
      NextBelow(g, LeftOf(g, fs), p, k, ts[0]);
      TopInside(g, t, input, s0);
      s1 := BuildList(g, pr, t, defaulted, input, s0, p, k + 1, ts[1..], tail, rest, fs);
      assert s0.symbols + ts[1..] == s.symbols + ts;
      assert s1.states[..|s.states|] == s1.states[..|s0.states|][..|s.states|];
      RoundsJoin(g, t, defaulted, input, s, s0, s1, Nodes(ts[0]), NodesOf(ts[1..]));
    }
  }

  lemma NextBelow(g: Grammar, below: seq<Symbol>, p: nat, k: nat, tree: Tree)
    requires p < |g.prods| && k < |g.prods[p].rhs| && SymbolOf(g, tree) == g.prods[p].rhs[k]
    ensures below + g.prods[p].rhs[..k] + Symbols(g, [tree]) == below + g.prods[p].rhs[..k + 1]
  {
  }

  lemma AtDot(g: Grammar, pr: Params, t: Tables, defaulted: map<nat, int>, s: State, p: nat, k: nat)
    requires Ready(g, pr, t, defaulted) && p < |g.prods| && k < |g.prods[p].rhs|
    ensures Expects(g, Item(p, k), g.prods[p].rhs[k])
  {
  }

  lemma TopInside(g: Grammar, t: Tables, input: seq<Token>, s: State)
    requires Consistent(g, t, input, s)
    ensures |s.states| == |s.symbols| >= 1 && Top(s.states) < |t.C|
  {
    hide Edge, ValidTree;
  }

  lemma NoYield()
    ensures Yields([]) == []
  {
  }

  /** The first tree of a list stands in front of what the others and the symbols behind them derive. */
  lemma FirstContext(g: Grammar, fs: seq<Frame>, p: nat, k: nat, ts: seq<Tree>, tail: seq<Token>, rest: seq<Token>)
    returns (deeper: seq<Frame>)
    requires 1 <= p < |g.prods| && ts != [] && k + |ts| <= |g.prods[p].rhs|
    requires forall i :: 0 <= i < |ts| ==> SymbolOf(g, ts[i]) == g.prods[p].rhs[k + i] && ValidTree(g, ts[i])
    requires AllTerminals(g, Kinds(Yields(ts[1..]) + tail)) && g.Derives(g.prods[p].rhs[k + |ts|..], Kinds(tail))
    requires ContextOk(g, fs) && Hole(g, fs) == g.prods[p].name && RightOf(fs) == Kinds(rest)
    ensures ContextOk(g, deeper) && LeftOf(g, deeper) == LeftOf(g, fs) + g.prods[p].rhs[..k]
    ensures Hole(g, deeper) == SymbolOf(g, ts[0]) && RightOf(deeper) == Kinds(Yields(ts[1..]) + tail + rest)
  {
    hide Grammar.Derives, ValidTree, Yields;
    var rhs, w := g.prods[p].rhs, Yields(ts[1..]) + tail;
    assert Symbols(g, ts[1..]) == rhs[k + 1..k + |ts|] && rhs[k + 1..] == rhs[k + 1..k + |ts|] + rhs[k + |ts|..];
    TreesDerive(g, ts[1..]);
    KindsConcat(Yields(ts[1..]), tail);
    g.DerivesConcat(Symbols(g, ts[1..]), Kinds(Yields(ts[1..])), rhs[k + |ts|..], Kinds(tail));
    KindsConcat(w, rest);
    deeper := fs + [Frame(p, k, Kinds(w))];
    assert deeper[..|fs|] == fs;
  }

  // ---------- Whole sentences ----------

  const BOTTOM := State([0], [Leaf(Token(END, ""))], None, 0)

  /** The parser accepts after exactly n rounds that go on. */
  ghost predicate AcceptsAfter(g: Grammar, t: Tables, defaulted: map<nat, int>, input: seq<Token>, n: nat, tree: Tree)
  {
    exists s, s1 :: Rounds(g, t, defaulted, input, BOTTOM, s, n) && StepIs(g, t, defaulted, input, s, s1, Accepted(tree))
  }

  /** Every parse tree is what the parser returns for its leaves, after one round for each node. */
  lemma TreeAccepted(g: Grammar, pr: Params, t: Tables, defaulted: map<nat, int>, tree: Tree)
    requires Ready(g, pr, t, defaulted) && ValidTree(g, tree) && SymbolOf(g, tree) == Goal(g)
    requires InputOk(g, Yield(tree))
    ensures AcceptsAfter(g, t, defaulted, Yield(tree), Nodes(tree), tree)
  {
    hide Ready, Rounds, Edge, InputOk, ValidTree, StepIs, Consistent, Ahead, Expects, Yield, Nodes, Below, Path,
      Kinds, SymbolOf, TablesOk;
    var input := Yield(tree);
    ReadyGives(g, pr, t, defaulted);
    StartConsistent(g, t, input);
    StartContext(g);
    assert Yield(tree) + [] == Yield(tree);
    var s := BuildTree(g, pr, t, defaulted, input, BOTTOM, Item(0, 0), tree, [], []);
    var s1 := AcceptRound(g, pr, t, defaulted, input, s);
  }

  lemma StartContext(g: Grammar)
    ensures ContextOk(g, []) && LeftOf(g, []) == Below(g, BOTTOM) && Hole(g, []) == Goal(g) && RightOf([]) == Kinds([])
  {
  }

  lemma ReadyGives(g: Grammar, pr: Params, t: Tables, defaulted: map<nat, int>)
    requires Ready(g, pr, t, defaulted)
    ensures g.Wf() && TablesOk(g, t) && t.C != [] && g.prods != [] && |g.prods[0].rhs| == 1
  {
  }

  lemma StartConsistent(g: Grammar, t: Tables, input: seq<Token>)
    requires g.Wf() && TablesOk(g, t)
    ensures Consistent(g, t, input, BOTTOM) && Ahead(input, BOTTOM) == input
    ensures Item(0, 0) in t.C[0] && Expects(g, Item(0, 0), Goal(g))
  {
    hide Closure, Goto, StateOk, Expanded, EntrySound, GotoRowIs;
    FirstHasStart(g, t.C);
    assert input[0..] == input;
  }

  lemma AcceptRound(g: Grammar, pr: Params, t: Tables, defaulted: map<nat, int>, input: seq<Token>, s: State)
    returns (s1: State)
    requires Ready(g, pr, t, defaulted) && Consistent(g, t, input, s) && InputOk(g, input) && Ahead(input, s) == []
    requires Item(0, 1) in t.C[Top(s.states)]
    ensures StepIs(g, t, defaulted, input, s, s1, Accepted(s.symbols[|s.symbols| - 1]))
  {
    hide Edge, InputOk, LookaheadsCover, NoConflicts, RowsFolded, OneReduction, DefaultsOk, TablesOk, ValidTree, Fetched, Path;
    TopInside(g, t, input, s);
    var st := Top(s.states);
    assert Accept(Item(0, 1)) in ItemCands(g, t.C, pr, st, Item(0, 1), END);
    CandsMember(g, t.C, pr, st, t.C[st], Item(0, 1), END, Accept(Item(0, 1)));
    EntryIs(g, pr, t, defaulted, st, END, Accept(Item(0, 1)));
    if st in defaulted {
      DefaultIs(t, defaulted, st, END);
    }
    FetchIs(g, t, defaulted, input, s);
    s1 := Fetched(defaulted, input, s);
  }

  /** The parser accepts once and for all. */
  lemma AcceptOnce(g: Grammar, t: Tables, defaulted: map<nat, int>, input: seq<Token>, m: nat, n: nat, a: Tree, b: Tree)
    requires AcceptsAfter(g, t, defaulted, input, m, a) && AcceptsAfter(g, t, defaulted, input, n, b) && m <= n
    ensures m == n && a == b
  {
    hide StepIs;
    var s, s1 :| Rounds(g, t, defaulted, input, BOTTOM, s, m) && StepIs(g, t, defaulted, input, s, s1, Accepted(a));
    var u, u1 :| Rounds(g, t, defaulted, input, BOTTOM, u, n) && StepIs(g, t, defaulted, input, u, u1, Accepted(b));
    RoundsOnce(g, t, defaulted, input, BOTTOM, s, u, m, n);
    if m < n {
      var v :| StepIs(g, t, defaulted, input, s, v, Running) && Rounds(g, t, defaulted, input, v, u, n - m - 1);
      StepOnce(g, t, defaulted, input, s, s1, v, Accepted(a), Running);
    } else {
      StepOnce(g, t, defaulted, input, s, s1, u1, Accepted(a), Accepted(b));
    }
  }

  /** A grammar whose tables have no conflicts gives each sentence one tree. */
  lemma Unambiguous(g: Grammar, pr: Params, t: Tables, defaulted: map<nat, int>, a: Tree, b: Tree)
    requires Ready(g, pr, t, defaulted) && ValidTree(g, a) && ValidTree(g, b) && Yield(a) == Yield(b)
    requires SymbolOf(g, a) == SymbolOf(g, b) == Goal(g) && InputOk(g, Yield(a))
    ensures a == b
  {
    hide Ready, ValidTree, AcceptsAfter, InputOk;
    TreeAccepted(g, pr, t, defaulted, a);
    TreeAccepted(g, pr, t, defaulted, b);
    if Nodes(a) <= Nodes(b) {
      AcceptOnce(g, t, defaulted, Yield(a), Nodes(a), Nodes(b), a, b);
    } else {
      AcceptOnce(g, t, defaulted, Yield(a), Nodes(b), Nodes(a), b, a);
    }
  }

  // ---------- From derivations to trees ----------

  ghost predicate Forest(g: Grammar, ts: seq<Tree>, a: seq<Symbol>, w: seq<Token>)
  {
    Symbols(g, ts) == a && Yields(ts) == w && forall i :: 0 <= i < |ts| ==> ValidTree(g, ts[i])
  }

  lemma {:induction false} LeafForest(g: Grammar, w: seq<Token>) returns (ts: seq<Tree>)
    ensures Forest(g, ts, Kinds(w), w)
  {
    if w == [] {
      ts := [];
    } else {
      var n := |w| - 1;
      var front := LeafForest(g, w[..n]);
      ts := front + [Leaf(w[n])];
      assert ts[..|ts| - 1] == front;
      assert Kinds(w) == Kinds(w[..n]) + [w[n].kind];
      assert w == w[..n] + [w[n]];
    }
  }

  lemma GrowSymbols(g: Grammar, left: seq<Tree>, middle: seq<Tree>, right: seq<Tree>, a: seq<Symbol>, i: nat, p: nat)
    requires g.CanRewrite(a, i, p) && |left| == i && |middle| == |g.prods[p].rhs|
    requires Symbols(g, left) + Symbols(g, middle) + Symbols(g, right) == g.Rewrite(a, i, p)
    ensures Symbols(g, left + [Node(p, middle)] + right) == a && Symbols(g, middle) == g.prods[p].rhs
  {
    var w := g.Rewrite(a, i, p);
    var d := |g.prods[p].rhs|;
    assert Symbols(g, left) == w[..i] == a[..i];
    assert Symbols(g, middle) == w[i..i + d] == g.prods[p].rhs;
    assert Symbols(g, right) == w[i + d..] == a[i + 1..];
    assert a == a[..i] + [a[i]] + a[i + 1..];
    SymbolsConcat(g, left, [Node(p, middle)]);
    SymbolsConcat(g, left + [Node(p, middle)], right);
  }

  lemma GrowYields(left: seq<Tree>, middle: seq<Tree>, right: seq<Tree>, p: nat)
    ensures Yields(left + [Node(p, middle)] + right) == Yields(left + middle + right)
  {
    hide Yield, Yields;
    YieldsConcat(left + middle, right);
    YieldsConcat(left, middle);
    YieldsConcat(left + [Node(p, middle)], right);
    YieldsConcat(left, [Node(p, middle)]);
    YieldsOne(Node(p, middle));
    NodeYield(p, middle);
  }

  /** Undoing one rewrite: the trees of a right side become one. */
  lemma GrowTree(g: Grammar, ts: seq<Tree>, a: seq<Symbol>, i: nat, p: nat, w: seq<Token>) returns (us: seq<Tree>)
    requires g.CanRewrite(a, i, p) && Forest(g, ts, g.Rewrite(a, i, p), w)
    ensures Forest(g, us, a, w)
  {
    hide Yield, Yields, Grammar.Rewrite, Symbols;
    var d := |g.prods[p].rhs|;
    SymbolsLength(g, ts);
    RewriteLength(g, a, i, p);
    var left, middle, right := ts[..i], ts[i..i + d], ts[i + d..];
    assert ts == left + middle + right;
    SymbolsConcat(g, left, middle);
    SymbolsConcat(g, left + middle, right);
    GrowSymbols(g, left, middle, right, a, i, p);
    GrowYields(left, middle, right, p);
    us := left + [Node(p, middle)] + right;
    NodeIsValid(g, p, middle);
  }

  lemma SymbolsLength(g: Grammar, ts: seq<Tree>)
    ensures |Symbols(g, ts)| == |ts|
  {
  }

  lemma RewriteLength(g: Grammar, a: seq<Symbol>, i: nat, p: nat)
    requires g.CanRewrite(a, i, p)
    ensures |g.Rewrite(a, i, p)| == |a| - 1 + |g.prods[p].rhs|
  {
  }

  lemma NodeIsValid(g: Grammar, p: nat, ts: seq<Tree>)
    requires 1 <= p < |g.prods| && Symbols(g, ts) == g.prods[p].rhs && forall i :: 0 <= i < |ts| ==> ValidTree(g, ts[i])
    ensures ValidTree(g, Node(p, ts))
  {
    assert forall i :: 0 <= i < |ts| ==> SymbolOf(g, ts[i]) == Symbols(g, ts)[i];
  }

  lemma NodeYield(p: nat, ts: seq<Tree>)
    ensures Yield(Node(p, ts)) == Yields(ts)
  {
  }

  lemma {:induction false} DerivationForest(g: Grammar, a: seq<Symbol>, w: seq<Token>, n: nat) returns (ts: seq<Tree>)
    requires g.DerivesIn(a, Kinds(w), n)
    ensures Forest(g, ts, a, w)
    decreases n
  {
    hide Forest;
    if n == 0 {
      ts := LeafForest(g, w);
    } else {
      var c :| g.Step(a, c) && g.DerivesIn(c, Kinds(w), n - 1);
      var us := DerivationForest(g, c, w, n - 1);
      var i: nat, p: nat :| g.CanRewrite(a, i, p) && c == g.Rewrite(a, i, p);
      ts := GrowTree(g, us, a, i, p, w);
    }
  }

  /** Whatever the start symbol derives has a tree, and the parser accepts it with that tree in any larger number of rounds. */
  lemma SentencesAccepted(g: Grammar, pr: Params, t: Tables, defaulted: map<nat, int>, input: seq<Token>)
    returns (tree: Tree)
    requires Ready(g, pr, t, defaulted) && InputOk(g, input) && g.Derives([Goal(g)], Kinds(input))
    ensures ValidTree(g, tree) && SymbolOf(g, tree) == Goal(g) && Yield(tree) == input
    ensures forall fuel: nat, s, r :: fuel > Nodes(tree) && Ran(g, t, defaulted, input, BOTTOM, fuel, s, r) ==>
              r == Accepted(tree)
  {
    hide Ready, InputOk, AcceptsAfter, StepIs, Rounds, ValidTree;
    var n: nat :| g.DerivesIn([Goal(g)], Kinds(input), n);
    var ts := DerivationForest(g, [Goal(g)], input, n);
    assert |ts| == |Symbols(g, ts)| == 1;
    tree := ts[0];
    assert SymbolOf(g, tree) == Symbols(g, ts)[0] && ts == [tree];
    YieldsOne(tree);
    TreeAccepted(g, pr, t, defaulted, tree);
    forall fuel: nat, s, r | fuel > Nodes(tree) && Ran(g, t, defaulted, input, BOTTOM, fuel, s, r)
      ensures r == Accepted(tree)
    {
      RanAccepts(g, t, defaulted, input, fuel, s, r, Nodes(tree), tree);
    }
  }

  lemma RanAccepts(g: Grammar, t: Tables, defaulted: map<nat, int>, input: seq<Token>, fuel: nat, s: State, r: Outcome,
                   n: nat, tree: Tree)
    requires fuel > n && Ran(g, t, defaulted, input, BOTTOM, fuel, s, r) && AcceptsAfter(g, t, defaulted, input, n, tree)
    ensures r == Accepted(tree)
  {
    hide StepIs;
    var u, u1 :| Rounds(g, t, defaulted, input, BOTTOM, u, n) && StepIs(g, t, defaulted, input, u, u1, Accepted(tree));
    if r == Running {
      RoundsOnce(g, t, defaulted, input, BOTTOM, u, s, n, fuel);
      var v :| StepIs(g, t, defaulted, input, u, v, Running) && Rounds(g, t, defaulted, input, v, s, fuel - n - 1);
      StepOnce(g, t, defaulted, input, u, u1, v, Accepted(tree), Running);
    } else {
      var k: nat, x :| k < fuel && Rounds(g, t, defaulted, input, BOTTOM, x, k) && StepIs(g, t, defaulted, input, x, s, r);
      EndsAgree(g, t, defaulted, input, k, x, s, r, n, u, u1, Accepted(tree));
    }
  }

  /** Two ends of one run are the same. */
  lemma EndsAgree(g: Grammar, t: Tables, defaulted: map<nat, int>, input: seq<Token>, k: nat, x: State, x1: State, r: Outcome,
                  n: nat, u: State, u1: State, q: Outcome)
    requires Rounds(g, t, defaulted, input, BOTTOM, x, k) && StepIs(g, t, defaulted, input, x, x1, r) && r != Running
    requires Rounds(g, t, defaulted, input, BOTTOM, u, n) && StepIs(g, t, defaulted, input, u, u1, q) && q != Running
    ensures r == q
  {
    hide StepIs;
    if k < n {
      RoundsOnce(g, t, defaulted, input, BOTTOM, x, u, k, n);
      var v :| StepIs(g, t, defaulted, input, x, v, Running) && Rounds(g, t, defaulted, input, v, u, n - k - 1);
      StepOnce(g, t, defaulted, input, x, x1, v, r, Running);
    } else if n < k {
      RoundsOnce(g, t, defaulted, input, BOTTOM, u, x, n, k);
      var v :| StepIs(g, t, defaulted, input, u, v, Running) && Rounds(g, t, defaulted, input, v, x, k - n - 1);
      StepOnce(g, t, defaulted, input, u, u1, v, q, Running);
    } else {
      RoundsOnce(g, t, defaulted, input, BOTTOM, x, u, k, n);
      StepOnce(g, t, defaulted, input, x, x1, u1, r, q);
    }
  }
}
