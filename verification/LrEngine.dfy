/** The table-driven parser: a state stack and a symbol stack that grow and shrink together. */
module LrEngine {
  import opened Grammars
  import opened LrItems
  import opened LrAutomaton
  import opened LrTable
  import opened Common

  datatype Token = Token(kind: Symbol, text: string)

  /** What a stack symbol has been built from. */
  datatype Tree = Leaf(tok: Token) | Node(prod: nat, children: seq<Tree>)

  function SymbolOf(g: Grammar, t: Tree): Symbol
  {
    match t
    case Leaf(tok) => tok.kind
    case Node(p, _) => if p < |g.prods| then g.prods[p].name else END
  }

  /** Every inner node applies a production of the grammar to its children. */
  ghost predicate ValidTree(g: Grammar, t: Tree)
  {
    match t
    case Leaf(_) => true
    case Node(p, ts) =>
      && 1 <= p < |g.prods| && |ts| == |g.prods[p].rhs|
      && forall i :: 0 <= i < |ts| ==> SymbolOf(g, ts[i]) == g.prods[p].rhs[i] && ValidTree(g, ts[i])
  }

  /** The tokens at the leaves, from left to right. */
  ghost function Yield(t: Tree): seq<Token>
    decreases t, 0
  {
    match t
    case Leaf(tok) => [tok]
    case Node(_, ts) => Yields(ts)
  }

  ghost function Yields(ts: seq<Tree>): seq<Token>
    decreases ts, 1
  {
    if ts == [] then [] else Yields(ts[..|ts| - 1]) + Yield(ts[|ts| - 1])
  }

  lemma {:induction false} YieldsConcat(a: seq<Tree>, b: seq<Tree>)
    ensures Yields(a + b) == Yields(a) + Yields(b)
  {
    if b == [] {
      assert a + b == a;
    } else {
      var n := |b| - 1;
      assert (a + b)[..|a + b| - 1] == a + b[..n];
      YieldsConcat(a, b[..n]);
    }
  }

  lemma YieldsOne(t: Tree)
    ensures Yields([t]) == Yield(t)
  {
    assert [t][..0] == [];
    assert Yields([]) == [];
  }

  function Kinds(ts: seq<Token>): seq<Symbol> { seq(|ts|, i requires 0 <= i < |ts| => ts[i].kind) }

  ghost function Symbols(g: Grammar, ts: seq<Tree>): seq<Symbol>
  {
    seq(|ts|, i requires 0 <= i < |ts| => SymbolOf(g, ts[i]))
  }

  /** A valid tree is a derivation of its leaves from its root. */
  lemma {:induction false} TreeDerives(g: Grammar, t: Tree)
    requires ValidTree(g, t)
    ensures g.Derives([SymbolOf(g, t)], Kinds(Yield(t)))
    decreases t, 0
  {
    match t
    case Leaf(tok) =>
      assert Kinds(Yield(t)) == [tok.kind];
      g.DerivesSelf([tok.kind]);
    case Node(p, ts) =>
      assert Symbols(g, ts) == g.prods[p].rhs;
      TreesDerive(g, ts);
      g.DerivesRule(p);
      g.DerivesTrans([g.prods[p].name], g.prods[p].rhs, Kinds(Yields(ts)));
  }

  lemma {:induction false} TreesDerive(g: Grammar, ts: seq<Tree>)
    requires forall i :: 0 <= i < |ts| ==> ValidTree(g, ts[i])
    ensures g.Derives(Symbols(g, ts), Kinds(Yields(ts)))
    decreases ts, 1
  {
    if ts == [] {
      g.DerivesSelf([]);
    } else {
      var n := |ts| - 1;
      TreesDerive(g, ts[..n]);
      TreeDerives(g, ts[n]);
      g.DerivesConcat(Symbols(g, ts[..n]), Kinds(Yields(ts[..n])), [SymbolOf(g, ts[n])], Kinds(Yield(ts[n])));
      assert Symbols(g, ts) == Symbols(g, ts[..n]) + [SymbolOf(g, ts[n])];
      assert Kinds(Yields(ts)) == Kinds(Yields(ts[..n])) + Kinds(Yield(ts[n]));
    }
  }

  // ---------- The stacks ----------

  /** The states are a path of the automaton from state 0, spelled by the symbols above the bottom one. */
  ghost predicate Path(g: Grammar, C: seq<ItemSet>, states: seq<nat>, symbols: seq<Tree>)
  {
    && |states| == |symbols| >= 1 && states[0] == 0
    && (forall k :: 0 <= k < |states| ==> states[k] < |C|)
    && (forall k :: 1 <= k < |states| ==> Edge(g, C, states[k - 1], SymbolOf(g, symbols[k]), states[k]))
    && (forall k :: 1 <= k < |symbols| ==> ValidTree(g, symbols[k]))
  }

  /** An item with its dot at d in the state at position i: the d symbols below spell what it has passed. */
  lemma {:induction false} PathBack(g: Grammar, C: seq<ItemSet>, states: seq<nat>, symbols: seq<Tree>, i: nat,
                                    p: nat, d: nat)
    requires Collected(g, C) && Path(g, C, states, symbols) && i < |states| && Item(p, d) in C[states[i]]
    ensures d <= i && Item(p, 0) in C[states[i - d]] && p < |g.prods| && d <= |g.prods[p].rhs|
    ensures forall k :: 0 <= k < d ==> SymbolOf(g, symbols[i - d + 1 + k]) == g.prods[p].rhs[k]
    decreases d
  {
    hide Goto, Closure, Edge, ValidTree;
    CollectedOk(g, C, states[i]);
    if d > 0 {
      if i == 0 {
        FirstHasStart(g, C);
        assert false;
      }
      StepBack(g, C, states[i - 1], SymbolOf(g, symbols[i]), states[i], Item(p, d));
      PathBack(g, C, states, symbols, i - 1, p, d - 1);
    }
  }

  /** The completed start item is only ever met with a single symbol on the stack, the start symbol. */
  lemma AcceptStack(g: Grammar, C: seq<ItemSet>, states: seq<nat>, symbols: seq<Tree>)
    requires g.Wf() && Collected(g, C) && Path(g, C, states, symbols) && Item(0, 1) in C[states[|states| - 1]]
    ensures |symbols| == 2 && SymbolOf(g, symbols[1]) == g.prods[0].rhs[0]
  {
    hide Goto, Closure, Edge, ValidTree, Collected;
    var top := |states| - 1;
    PathBack(g, C, states, symbols, top, 0, 1);
    StartOnlyFirst(g, C, states[top - 1]);
    if top > 1 {
      NothingEntersStart(g, C, states[top - 2], SymbolOf(g, symbols[top - 1]));
    }
  }

  /** After popping d symbols and pushing a node over an edge the stacks are a path again. */
  lemma PathPush(g: Grammar, C: seq<ItemSet>, states: seq<nat>, symbols: seq<Tree>, d: nat, t: Tree, to: nat)
    requires Path(g, C, states, symbols) && d < |states| && ValidTree(g, t)
    requires to < |C| && Edge(g, C, states[|states| - 1 - d], SymbolOf(g, t), to)
    ensures Path(g, C, states[..|states| - d] + [to], symbols[..|symbols| - d] + [t])
  {
    hide Edge, ValidTree;
  }

  /** The stacks and the tokens not read yet account for the whole input. */
  ghost predicate Accounts(symbols: seq<Tree>, lookahead: Option<Token>, rest: seq<Token>, input: seq<Token>)
  {
    && |symbols| >= 1
    && Yields(symbols[1..]) + (if lookahead.Some? && lookahead.value.kind != END then [lookahead.value] else []) + rest == input
    && (lookahead.Some? && lookahead.value.kind == END ==> rest == [])
  }

  lemma ReduceAccounts(symbols: seq<Tree>, d: nat, t: Tree, lookahead: Option<Token>, rest: seq<Token>, input: seq<Token>)
    requires Accounts(symbols, lookahead, rest, input) && d < |symbols|
    requires Yield(t) == Yields(symbols[|symbols| - d..])
    ensures Accounts(symbols[..|symbols| - d] + [t], lookahead, rest, input)
  {
    var n := |symbols| - d;
    var below := symbols[1..n];
    assert symbols[1..] == below + symbols[n..];
    YieldsConcat(below, symbols[n..]);
    assert (symbols[..n] + [t])[1..] == below + [t];
    assert (below + [t])[..|below + [t]| - 1] == below;
  }

  lemma ShiftAccounts(symbols: seq<Tree>, tok: Token, rest: seq<Token>, input: seq<Token>)
    requires Accounts(symbols, Some(tok), rest, input) && tok.kind != END
    ensures Accounts(symbols + [Leaf(tok)], None, rest, input)
  {
    var s := symbols[1..];
    assert (symbols + [Leaf(tok)])[1..] == s + [Leaf(tok)];
    assert (s + [Leaf(tok)])[..|s|] == s;
    assert Yields(s + [Leaf(tok)]) == Yields(s) + [tok];
  }

  /** The entry of an action row that the parser acts on, for a state and a lookahead. */
  function Entry(t: Tables, st: nat, a: Symbol): Action
    requires st < |t.action|
  {
    SlotAt(t.action[st], a).act
  }

  datatype Outcome = Accepted(tree: Tree) | SyntaxError | Running

  /** A defaulted state has a single entry, a reduction, which is taken without reading a token. */
  ghost predicate DefaultsOk(t: Tables, defaulted: map<nat, int>)
  {
    forall st :: st in defaulted ==>
      st < |t.action| && defaulted[st] < 0 && exists a :: a in t.action[st] && Entry(t, st, a) == Act(defaulted[st])
  }

  /** The state has one entry, and it is a reduction. */
  ghost predicate OneReduction(t: Tables, st: nat)
  {
    st < |t.action| && |t.action[st]| == 1 && exists a :: a in t.action[st] && Entry(t, st, a).Act? && Entry(t, st, a).v < 0
  }

  /** The state has one entry, and it is None. */
  ghost predicate OneNothing(t: Tables, st: nat)
  {
    st < |t.action| && |t.action[st]| == 1 && exists a :: a in t.action[st] && Entry(t, st, a) == NoAction
  }

  /** The states with one action only; the result None stands for the exception on comparing None with 0. */
  method SetDefaultedStates(t: Tables) returns (defaulted: Option<map<nat, int>>)
    ensures defaulted.Some? ==> DefaultsOk(t, defaulted.value)
    ensures defaulted.Some? ==> forall st: nat :: st in defaulted.value <==> OneReduction(t, st)
    ensures defaulted == None <==> exists st: nat :: OneNothing(t, st)
  {
    hide OneReduction, OneNothing, DefaultsOk, Entry;
    var d: map<nat, int> := map[];
    NoDefaults(t);
    Singles(t);
    for st := 0 to |t.action|
      invariant DefaultsOk(t, d)
      invariant forall k: nat :: k in d <==> k < st && OneReduction(t, k)
      invariant forall k: nat :: k < st ==> !OneNothing(t, k)
    {
      if |t.action[st]| == 1 {
        var a :| a in t.action[st].Keys;
        OnlyEntry(t, st, a);
        match Entry(t, st, a)
        case NoAction =>
          return None;
        case Act(v) =>
          if v < 0 {
            DefaultMore(t, d, st, a);
            d := d[st := v];
          }
      }
    }
    defaulted := Some(d);
  }

  lemma NoDefaults(t: Tables)
    ensures DefaultsOk(t, map[])
  {
  }

  lemma Singles(t: Tables)
    ensures forall st: nat :: OneReduction(t, st) || OneNothing(t, st) ==> st < |t.action| && |t.action[st]| == 1
  {
  }

  lemma OnlyEntry(t: Tables, st: nat, a: Symbol)
    requires st < |t.action| && |t.action[st]| == 1 && a in t.action[st]
    ensures OneNothing(t, st) <==> Entry(t, st, a) == NoAction
    ensures OneReduction(t, st) <==> Entry(t, st, a).Act? && Entry(t, st, a).v < 0
  {
    OnlyKey(t.action[st], a);
  }

  lemma DefaultMore(t: Tables, d: map<nat, int>, st: nat, a: Symbol)
    requires DefaultsOk(t, d) && st < |t.action| && a in t.action[st] && Entry(t, st, a).Act? && Entry(t, st, a).v < 0
    ensures DefaultsOk(t, d[st := Entry(t, st, a).v])
  {
  }

  lemma OnlyKey<K, V>(m: map<K, V>, k: K)
    requires |m| == 1 && k in m
    ensures forall x :: x in m ==> x == k
  {
    assert m.Keys == {k} + (m.Keys - {k});
    assert |m.Keys - {k}| == 0;
  }

  /** The parser's fields at one moment. */
  datatype State = State(states: seq<nat>, symbols: seq<Tree>, lookahead: Option<Token>, pos: nat)

  /** The stacks are a path of the automaton and, with the unread tokens, hold exactly the input. */
  ghost predicate Inv(g: Grammar, t: Tables, input: seq<Token>, s: State)
  {
    && s.pos <= |input|
    && Path(g, t.C, s.states, s.symbols)
    && Accounts(s.symbols, s.lookahead, input[s.pos..], input)
  }

  /** The state on top of the stack. */
  function Top(states: seq<nat>): nat
    requires states != []
  {
    states[|states| - 1]
  }

  lemma EntryMeans(g: Grammar, t: Tables, st: nat, a: Symbol, v: int)
    requires TablesOk(g, t) && st < |t.C| && Entry(t, st, a) == Act(v)
    ensures EntrySound(g, t.C, st, a, v)
  {
  }

  /** Shifting keeps the invariant. */
  lemma ShiftKeeps(g: Grammar, t: Tables, input: seq<Token>, s: State, v: nat)
    requires g.Wf() && TablesOk(g, t) && Inv(g, t, input, s) && v > 0 && s.lookahead.Some?
    requires Entry(t, Top(s.states), s.lookahead.value.kind) == Act(v)
    ensures Inv(g, t, input, Shifted(s, v))
  {
    hide TablesOk, Accounts, Goto;
    var tok := s.lookahead.value;
    EntryMeans(g, t, Top(s.states), tok.kind, v);
    PathPush(g, t.C, s.states, s.symbols, 0, Leaf(tok), v);
    ShiftAccounts(s.symbols, tok, input[s.pos..], input);
    assert s.states[..|s.states| - 0] == s.states && s.symbols[..|s.symbols| - 0] == s.symbols;
  }

  ghost predicate Reducible(g: Grammar, t: Tables, states: seq<nat>, symbols: seq<Tree>, p: nat)
  {
    && p < |g.prods| && |g.prods[p].rhs| < |states| && |g.prods[p].rhs| < |symbols|
    && var d, n := |g.prods[p].rhs|, g.prods[p].name;
       var from := states[|states| - 1 - d];
       && ValidTree(g, Node(p, symbols[|symbols| - d..]))
       && from < |t.goto| && n in t.goto[from] && t.goto[from][n] < |t.C| && Edge(g, t.C, from, n, t.goto[from][n])
  }

  /** A reduction finds its right side on the stack, and a transition on its name below it. */
  lemma ReduceFits(g: Grammar, t: Tables, states: seq<nat>, symbols: seq<Tree>, it: Item, p: nat)
    requires g.Wf() && TablesOk(g, t) && Path(g, t.C, states, symbols)
    requires p >= 1 && it in t.C[Top(states)] && IsReduce(g, it) && it.prod == p
    ensures Reducible(g, t, states, symbols, p)
  {
    hide Goto, Closure, Edge, Collected, Expanded;
    var d, top := |g.prods[p].rhs|, |states| - 1;
    assert it == Item(p, d);
    PathBack(g, t.C, states, symbols, top, p, d);
    HasTransition(g, t.C, states[top - d], p);
    assert GotoRowIs(g, t.C, states[top - d], t.goto[states[top - d]]);
    EdgeInside(g, t.C, states[top - d], g.prods[p].name, t.goto[states[top - d]][g.prods[p].name]);
  }

  lemma PathLengths(g: Grammar, C: seq<ItemSet>, states: seq<nat>, symbols: seq<Tree>)
    requires Path(g, C, states, symbols)
    ensures |states| == |symbols| >= 1 && forall k :: 0 <= k < |states| ==> states[k] < |C|
  {
  }

  lemma EdgeInside(g: Grammar, C: seq<ItemSet>, from: nat, x: Symbol, to: nat)
    requires Edge(g, C, from, x, to)
    ensures from < |C| && to < |C|
  {
  }

  /** Production p and the goto entry it needs are there. */
  predicate CanReduce(g: Grammar, t: Tables, s: State, p: nat)
  {
    && p < |g.prods| && |g.prods[p].rhs| < |s.states| && |g.prods[p].rhs| < |s.symbols|
    && s.states[|s.states| - 1 - |g.prods[p].rhs|] < |t.goto|
    && g.prods[p].name in t.goto[s.states[|s.states| - 1 - |g.prods[p].rhs|]]
  }

  /** The right side of p is replaced by a node, and the state below it decides the next one. */
  function Reduced(g: Grammar, t: Tables, s: State, p: nat): State
    requires CanReduce(g, t, s, p)
  {
    var d := |g.prods[p].rhs|;
    var to := t.goto[s.states[|s.states| - 1 - d]][g.prods[p].name];
    State(s.states[..|s.states| - d] + [to], s.symbols[..|s.symbols| - d] + [Node(p, s.symbols[|s.symbols| - d..])],
          s.lookahead, s.pos)
  }

  /** Reducing is always possible and keeps the invariant. */
  lemma ReduceKeeps(g: Grammar, t: Tables, input: seq<Token>, s: State, it: Item, p: nat)
    requires g.Wf() && TablesOk(g, t) && Inv(g, t, input, s) && p >= 1
    requires it in t.C[Top(s.states)] && IsReduce(g, it) && it.prod == p
    ensures CanReduce(g, t, s, p) && Inv(g, t, input, Reduced(g, t, s, p))
  {
    hide TablesOk, Path, Accounts, Edge, IsReduce, ValidTree, Yields;
    ReduceFits(g, t, s.states, s.symbols, it, p);
    PathLengths(g, t.C, s.states, s.symbols);
    var d, n := |g.prods[p].rhs|, g.prods[p].name;
    var node := Node(p, s.symbols[|s.symbols| - d..]);
    PathPush(g, t.C, s.states, s.symbols, d, node, t.goto[s.states[|s.states| - 1 - d]][n]);
    ReduceAccounts(s.symbols, d, node, s.lookahead, input[s.pos..], input);
  }

  /** At the accepting entry the only symbol is a tree of the start symbol with the whole input as its leaves. */
  lemma AcceptMeans(g: Grammar, t: Tables, input: seq<Token>, s: State)
    requires g.Wf() && TablesOk(g, t) && Inv(g, t, input, s) && s.lookahead.Some?
    requires Entry(t, Top(s.states), s.lookahead.value.kind) == Act(0)
    ensures var tree := s.symbols[|s.symbols| - 1];
            ValidTree(g, tree) && SymbolOf(g, tree) == g.prods[0].rhs[0] && Yield(tree) == input
  {
    hide Goto, Closure, Edge, Collected, ValidTree;
    EntryMeans(g, t, Top(s.states), s.lookahead.value.kind, 0);
    AcceptStack(g, t.C, s.states, s.symbols);
    assert s.symbols[1..] == [s.symbols[1]];
    YieldsOne(s.symbols[1]);
  }

  // ---------- The loop ----------

  /** The lookahead is read only when the state has no default and none is held already. */
  function Fetched(defaulted: map<nat, int>, input: seq<Token>, s: State): State
    requires s.states != []
  {
    if Top(s.states) in defaulted || s.lookahead.Some? then s
    else if s.pos < |input| then s.(lookahead := Some(input[s.pos]), pos := s.pos + 1)
    else s.(lookahead := Some(Token(END, "")))
  }

  /** The action taken: the default of the state, or the entry for the lookahead. */
  function Chosen(t: Tables, defaulted: map<nat, int>, s: State): Action
    requires s.states != [] && Top(s.states) < |t.action|
  {
    if Top(s.states) in defaulted then Act(defaulted[Top(s.states)])
    else if s.lookahead.Some? then Entry(t, Top(s.states), s.lookahead.value.kind)
    else NoAction
  }

  /** Reading the next token keeps the invariant. */
  lemma FetchKeeps(g: Grammar, t: Tables, defaulted: map<nat, int>, input: seq<Token>, s: State)
    requires Inv(g, t, input, s) && forall i :: 0 <= i < |input| ==> input[i].kind != END
    ensures s.states != [] && Inv(g, t, input, Fetched(defaulted, input, s))
  {
    hide Yields, Edge, ValidTree;
    if s.pos < |input| {
      assert input[s.pos..] == [input[s.pos]] + input[s.pos + 1..];
    }
  }

  /** A negative action names a complete item of the state on top. */
  lemma ReduceItem(g: Grammar, t: Tables, defaulted: map<nat, int>, s: State, v: int) returns (it: Item)
    requires TablesOk(g, t) && DefaultsOk(t, defaulted) && s.states != [] && Top(s.states) < |t.C|
    requires |t.action| == |t.C| && Chosen(t, defaulted, s) == Act(v) && v < 0
    ensures it in t.C[Top(s.states)] && IsReduce(g, it) && it.prod == -v
  {
    hide TablesOk;
    var st := Top(s.states);
    var a :| Entry(t, st, a) == Act(v);
    EntryMeans(g, t, st, a, v);
    it :| it in t.C[st] && IsReduce(g, it) && it.prod == -v;
  }

  lemma NotDefault(t: Tables, defaulted: map<nat, int>, s: State, v: int)
    requires DefaultsOk(t, defaulted) && s.states != [] && Top(s.states) < |t.action|
    requires Chosen(t, defaulted, s) == Act(v) && v >= 0
    ensures s.lookahead.Some? && Entry(t, Top(s.states), s.lookahead.value.kind) == Act(v)
  {
  }

  function Shifted(s: State, v: nat): State
    requires s.lookahead.Some?
  {
    State(s.states + [v], s.symbols + [Leaf(s.lookahead.value)], None, s.pos)
  }

  /** What one round of the loop does to the fields, and what it returns. */
  ghost predicate StepIs(g: Grammar, t: Tables, defaulted: map<nat, int>, input: seq<Token>, s0: State, s1: State,
                         r: Outcome)
  {
    s0.states != [] && s0.symbols != [] && Top(s0.states) < |t.action| &&
    var s := Fetched(defaulted, input, s0);
    match Chosen(t, defaulted, s)
    case NoAction => r == SyntaxError && s1 == s
    case Act(v) =>
      if v > 0 then r == Running && s.lookahead.Some? && s1 == Shifted(s, v)
      else if v < 0 then r == Running && CanReduce(g, t, s, -v) && s1 == Reduced(g, t, s, -v)
      else r == Accepted(s.symbols[|s.symbols| - 1]) && s1 == s
  }

  /** n rounds that go on. */
  ghost predicate Rounds(g: Grammar, t: Tables, defaulted: map<nat, int>, input: seq<Token>, s0: State, s1: State, n: nat)
    decreases n
  {
    if n == 0 then s0 == s1 else
      exists s :: StepIs(g, t, defaulted, input, s0, s, Running) && Rounds(g, t, defaulted, input, s, s1, n - 1)
  }

  lemma {:induction false} RoundsJoin(g: Grammar, t: Tables, defaulted: map<nat, int>, input: seq<Token>, s0: State,
                                      s1: State, s2: State, m: nat, n: nat)
    requires Rounds(g, t, defaulted, input, s0, s1, m) && Rounds(g, t, defaulted, input, s1, s2, n)
    ensures Rounds(g, t, defaulted, input, s0, s2, m + n)
    decreases m
  {
    hide StepIs;
    if m > 0 {
      var s :| StepIs(g, t, defaulted, input, s0, s, Running) && Rounds(g, t, defaulted, input, s, s1, m - 1);
      RoundsJoin(g, t, defaulted, input, s, s1, s2, m - 1, n);
    }
  }

  lemma OneRound(g: Grammar, t: Tables, defaulted: map<nat, int>, input: seq<Token>, s0: State, s1: State)
    requires StepIs(g, t, defaulted, input, s0, s1, Running)
    ensures Rounds(g, t, defaulted, input, s0, s1, 1)
  {
    hide StepIs;
    assert Rounds(g, t, defaulted, input, s1, s1, 0);
  }

  lemma StepOnce(g: Grammar, t: Tables, defaulted: map<nat, int>, input: seq<Token>, s0: State, s1: State, s2: State,
                 r1: Outcome, r2: Outcome)
    requires StepIs(g, t, defaulted, input, s0, s1, r1) && StepIs(g, t, defaulted, input, s0, s2, r2)
    ensures s1 == s2 && r1 == r2
  {
    hide Fetched, Chosen, Reduced, Shifted, CanReduce;
  }

  /** The state after some rounds, and whether there is one, are determined. */
  lemma {:induction false} RoundsOnce(g: Grammar, t: Tables, defaulted: map<nat, int>, input: seq<Token>, s0: State,
                                      s1: State, s2: State, m: nat, n: nat)
    requires Rounds(g, t, defaulted, input, s0, s1, m) && Rounds(g, t, defaulted, input, s0, s2, n) && m <= n
    ensures Rounds(g, t, defaulted, input, s1, s2, n - m)
    decreases m
  {
    hide StepIs;
    if m > 0 {
      var u :| StepIs(g, t, defaulted, input, s0, u, Running) && Rounds(g, t, defaulted, input, u, s1, m - 1);
      var v :| StepIs(g, t, defaulted, input, s0, v, Running) && Rounds(g, t, defaulted, input, v, s2, n - 1);
      StepOnce(g, t, defaulted, input, s0, u, v, Running, Running);
      RoundsOnce(g, t, defaulted, input, u, s1, s2, m - 1, n - 1);
    }
  }

  lemma NoRounds(g: Grammar, t: Tables, defaulted: map<nat, int>, input: seq<Token>, s: State)
    ensures Rounds(g, t, defaulted, input, s, s, 0)
  {
  }

  /** At most fuel rounds: all of them went on, or the last of fewer ended with r. */
  ghost predicate Ran(g: Grammar, t: Tables, defaulted: map<nat, int>, input: seq<Token>, s0: State, fuel: nat, s1: State,
                      r: Outcome)
  {
    if r == Running then Rounds(g, t, defaulted, input, s0, s1, fuel)
    else exists k: nat, s :: k < fuel && Rounds(g, t, defaulted, input, s0, s, k) && StepIs(g, t, defaulted, input, s, s1, r)
  }

  lemma FetchedTop(defaulted: map<nat, int>, input: seq<Token>, s: State)
    requires s.states != []
    ensures Fetched(defaulted, input, s).states == s.states && Fetched(defaulted, input, s).symbols == s.symbols
    ensures Top(s.states) !in defaulted ==> Fetched(defaulted, input, s).lookahead.Some?
  {
  }

  lemma RanMore(g: Grammar, t: Tables, defaulted: map<nat, int>, input: seq<Token>, s0: State, n: nat, fuel: nat, s1: State,
                r: Outcome)
    requires Ran(g, t, defaulted, input, s0, n, s1, r) && n <= fuel && (r == Running ==> n == fuel)
    ensures Ran(g, t, defaulted, input, s0, fuel, s1, r)
  {
    hide StepIs, Rounds;
  }

  class Parser {
    const g: Grammar
    const t: Tables
    const defaulted: map<nat, int>
    const input: seq<Token>
    var statestack: seq<nat>
    var symstack: seq<Tree>
    var lookahead: Option<Token>
    var pos: nat

    ghost function S(): State
      reads this
    {
      State(statestack, symstack, lookahead, pos)
    }

    ghost predicate Valid()
      reads this
    {
      && g.Wf() && TablesOk(g, t) && DefaultsOk(t, defaulted)
      && (forall i :: 0 <= i < |input| ==> input[i].kind != END)
      && Inv(g, t, input, S())
    }

    constructor (g: Grammar, t: Tables, defaulted: map<nat, int>, input: seq<Token>)
      requires g.Wf() && TablesOk(g, t) && DefaultsOk(t, defaulted)
      requires forall i :: 0 <= i < |input| ==> input[i].kind != END
      ensures Valid() && this.g == g && this.t == t && this.defaulted == defaulted && this.input == input
      ensures S() == State([0], [Leaf(Token(END, ""))], None, 0)
    {
      hide TablesOk, DefaultsOk, Edge;
      this.g, this.t, this.defaulted, this.input := g, t, defaulted, input;
      statestack, symstack, lookahead, pos := [0], [Leaf(Token(END, ""))], None, 0;
      new;
      StartInv(g, t, input, S());
    }

    /** Read the next token unless the state has a default or a token is held. */
    method Fetch()
      requires statestack != []
      modifies this`lookahead, this`pos
      ensures S() == Fetched(defaulted, input, old(S()))
    {
      if statestack[|statestack| - 1] !in defaulted && lookahead == None {
        if pos < |input| {
          lookahead, pos := Some(input[pos]), pos + 1;
        } else {
          lookahead := Some(Token(END, ""));
        }
      }
    }

    method Shift(v: nat)
      requires lookahead.Some?
      modifies this`statestack, this`symstack, this`lookahead
      ensures S() == Shifted(old(S()), v)
    {
      statestack := statestack + [v];
      symstack := symstack + [Leaf(lookahead.value)];
      lookahead := None;
    }

    /** Replace the right side of p by its left side. */
    method Reduce(p: nat)
      requires CanReduce(g, t, S(), p)
      modifies this`statestack, this`symstack
      ensures S() == Reduced(g, t, old(S()), p)
    {
      var plen := |g.prods[p].rhs|;
      var targ := symstack[|symstack| - plen..];
      symstack := symstack[..|symstack| - plen] + [Node(p, targ)];
      statestack := statestack[..|statestack| - plen];
      statestack := statestack + [t.goto[statestack[|statestack| - 1]][g.prods[p].name]];
    }

    /** One round of the loop. */
    method Step() returns (r: Outcome)
      requires Valid()
      modifies this
      ensures Valid()
      ensures StepIs(g, t, defaulted, input, old(S()), S(), r)
      ensures r.Accepted? ==> ValidTree(g, r.tree) && SymbolOf(g, r.tree) == g.prods[0].rhs[0] && Yield(r.tree) == input
    {
      hide TablesOk, DefaultsOk, Inv, IsReduce, ValidTree, Yields, Yield, CanReduce, Reduced, Fetched;
      ghost var s0 := S();
      FetchKeeps(g, t, defaulted, input, s0);
      InvTop(g, t, input, s0);
      var state := statestack[|statestack| - 1];
      Fetch();
      ghost var s := S();
      FetchedTop(defaulted, input, s0);
      InvTop(g, t, input, s);
      var action := if state in defaulted then Act(defaulted[state]) else SlotAt(t.action[state], lookahead.value.kind).act;
      match action
      case NoAction =>
        r := SyntaxError;
      case Act(v) =>
        if v > 0 {
          NotDefault(t, defaulted, s, v);
          ShiftKeeps(g, t, input, s, v);
          Shift(v);
          r := Running;
        } else if v < 0 {
          ghost var it := ReduceItem(g, t, defaulted, s, v);
          ReduceKeeps(g, t, input, s, it, -v);
          Reduce(-v);
          r := Running;
        } else {
          NotDefault(t, defaulted, s, v);
          AcceptMeans(g, t, input, s);
          r := Accepted(symstack[|symstack| - 1]);
        }
    }

    /** At most fuel rounds; an accepted input has a parse tree, so the start symbol derives it. */
    method Parse(fuel: nat) returns (r: Outcome)
      requires Valid()
      modifies this
      ensures Valid()
      ensures r.Accepted? ==> ValidTree(g, r.tree) && SymbolOf(g, r.tree) == g.prods[0].rhs[0] && Yield(r.tree) == input
      ensures r.Accepted? ==> g.Derives([g.prods[0].rhs[0]], Kinds(input))
      ensures Ran(g, t, defaulted, input, old(S()), fuel, S(), r)
    {
      hide TablesOk, DefaultsOk, Inv, ValidTree, Yields, Yield, StepIs, Rounds;
      r := Running;
      var n := fuel;
      NoRounds(g, t, defaulted, input, S());
      while n > 0 && r == Running
        invariant Valid() && 0 <= n <= fuel
        invariant Ran(g, t, defaulted, input, old(S()), fuel - n, S(), r)
        invariant r.Accepted? ==> ValidTree(g, r.tree) && SymbolOf(g, r.tree) == g.prods[0].rhs[0] && Yield(r.tree) == input
      {
        ghost var s := S();
        r := Step();
        if r == Running {
          OneRound(g, t, defaulted, input, s, S());
          RoundsJoin(g, t, defaulted, input, old(S()), s, S(), fuel - n, 1);
        }
        n := n - 1;
      }
      RanMore(g, t, defaulted, input, old(S()), fuel - n, fuel, S(), r);
      if r.Accepted? {
        TreeDerives(g, r.tree);
      }
    }
  }

  lemma InvTop(g: Grammar, t: Tables, input: seq<Token>, s: State)
    requires TablesOk(g, t) && Inv(g, t, input, s)
    ensures |s.states| == |s.symbols| >= 1 && Top(s.states) < |t.C| && |t.action| == |t.C|
  {
  }

  lemma StartInv(g: Grammar, t: Tables, input: seq<Token>, s: State)
    requires TablesOk(g, t) && s == State([0], [Leaf(Token(END, ""))], None, 0)
    ensures Inv(g, t, input, s)
  {
    assert s.symbols[1..] == [];
    assert Yields([]) == [];
  }
}
