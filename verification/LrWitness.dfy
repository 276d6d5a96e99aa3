/** Two small grammars whose automata reach the failing cases of a nonassociative tie. */
module LrWitness {
  import opened Common
  import opened Grammars
  import opened LrItems
  import opened LrAutomaton
  import opened LrTable
  import opened LrEngine

  // ---------- Computing closures ----------

  /** From item i on no item asks for a new production. */
  lemma {:induction false} NothingMore(g: Grammar, J: ItemSet, i: nat, added: set<nat>)
    requires i <= |J| && added <= Range(|g.prods|)
    requires forall k, p :: i <= k < |J| && p in After(g, J[k]) ==> p in added
    ensures CloseFrom(g, J, i, added) == J
    decreases |J| - i
  {
    hide After, SetOf;
    if i < |J| {
      CloseStep(g, J, i, added);
      NoneNew(g, J[i], added);
      NothingMore(g, J, i + 1, added);
    }
  }

  lemma NoneNew(g: Grammar, it: Item, added: set<nat>)
    requires forall p :: p in After(g, it) ==> p in added
    ensures NewItems(After(g, it), added) == []
  {
  }

  /** Every item adds what it asks for; when nothing new is left to ask for, this is the closure. */
  lemma CloseOnce(g: Grammar, J: ItemSet, i: nat, added: set<nat>, ps: seq<nat>)
    requires i < |J| && added <= Range(|g.prods|) && After(g, J[i]) == ps
    ensures SetOf(ps) + added <= Range(|g.prods|)
    ensures CloseFrom(g, J, i, added) == CloseFrom(g, J + NewItems(ps, added), i + 1, added + SetOf(ps))
  {
    hide NewItems, CloseFrom;
    CloseStep(g, J, i, added);
  }

  /** A set in which nothing asks for a production is closed. */
  lemma FlatClosure(g: Grammar, I: ItemSet)
    requires forall k :: 0 <= k < |I| ==> After(g, I[k]) == []
    ensures Closure(g, I) == I
  {
    hide After, CloseFrom;
    NothingMore(g, I, 0, {});
  }

  lemma NewOne(p: nat, added: set<nat>)
    requires p !in added
    ensures NewItems([p], added) == [Item(p, 0)]
  {
    assert [p][1..] == [];
  }

  lemma NewTwo(p: nat, q: nat, added: set<nat>)
    requires p != q && p !in added && q !in added
    ensures NewItems([p, q], added) == [Item(p, 0), Item(q, 0)]
  {
    assert [p, q][1..] == [q] && [q][1..] == [];
  }

  lemma NewThree(p: nat, q: nat, r: nat)
    requires p != q && p != r && q != r
    ensures NewItems([p, q, r], {}) == [Item(p, 0), Item(q, 0), Item(r, 0)]
  {
    assert [p, q, r][1..] == [q, r];
    NewTwo(q, r, {} + {p});
  }

  // Moving the dot over lists of items.

  function Moved(g: Grammar, it: Item, x: Symbol): ItemSet { if Expects(g, it, x) then [Item(it.prod, it.dot + 1)] else [] }

  lemma KernelCons(g: Grammar, it: Item, I: ItemSet, x: Symbol)
    ensures Kernel(g, [it] + I, x) == Moved(g, it, x) + Kernel(g, I, x)
  {
    assert ([it] + I)[1..] == I;
  }

  lemma KernelOfTwo(g: Grammar, a: Item, b: Item, x: Symbol)
    ensures Kernel(g, [a, b], x) == Moved(g, a, x) + Moved(g, b, x)
  {
    hide Moved;
    assert [a, b] == [a] + [b] && [b] == [b] + [];
    KernelCons(g, a, [b], x);
    KernelCons(g, b, [], x);
    assert Kernel(g, [], x) == [];
  }

  lemma KernelOfThree(g: Grammar, a: Item, b: Item, c: Item, x: Symbol)
    ensures Kernel(g, [a, b, c], x) == Moved(g, a, x) + Moved(g, b, x) + Moved(g, c, x)
  {
    hide Kernel, Moved;
    assert [a, b, c] == [a] + [b, c];
    KernelCons(g, a, [b, c], x);
    KernelOfTwo(g, b, c, x);
  }

  lemma KernelOfFour(g: Grammar, a: Item, b: Item, c: Item, d: Item, x: Symbol)
    ensures Kernel(g, [a, b, c, d], x) == Moved(g, a, x) + Moved(g, b, x) + Moved(g, c, x) + Moved(g, d, x)
  {
    hide Kernel, Moved;
    assert [a, b, c, d] == [a] + [b, c, d];
    KernelCons(g, a, [b, c, d], x);
    KernelOfThree(g, b, c, d, x);
  }

  lemma KernelOfFive(g: Grammar, a: Item, b: Item, c: Item, d: Item, e: Item, x: Symbol)
    ensures Kernel(g, [a, b, c, d, e], x) ==
              Moved(g, a, x) + Moved(g, b, x) + Moved(g, c, x) + Moved(g, d, x) + Moved(g, e, x)
  {
    hide Kernel, Moved;
    assert [a, b, c, d, e] == [a] + [b, c, d, e];
    KernelCons(g, a, [b, c, d, e], x);
    KernelOfFour(g, b, c, d, e, x);
  }

  lemma GotoIs(g: Grammar, I: ItemSet, x: Symbol, k: ItemSet, J: ItemSet)
    requires Kernel(g, I, x) == k != [] && Closure(g, k) == J
    ensures Goto(g, I, x) == J
  {
  }

  function ProdIf(g: Grammar, p: nat, x: Symbol): seq<nat> { if g.IsProd(p, x) then [p] else [] }

  lemma ProdsStep(g: Grammar, x: Symbol, k: nat)
    requires k < |g.prods|
    ensures g.ProdsBelow(x, k + 1) == g.ProdsBelow(x, k) + ProdIf(g, k, x)
  {
  }

  lemma ProdsOfFour(g: Grammar, x: Symbol)
    requires |g.prods| == 4
    ensures g.Prodnames(x) == ProdIf(g, 0, x) + ProdIf(g, 1, x) + ProdIf(g, 2, x) + ProdIf(g, 3, x)
  {
    hide ProdIf;
    assert g.ProdsBelow(x, 0) == [];
    ProdsStep(g, x, 0);
    ProdsStep(g, x, 1);
    ProdsStep(g, x, 2);
    ProdsStep(g, x, 3);
  }

  // Candidates of lists of items.

  lemma CandsOfTwo(g: Grammar, C: seq<ItemSet>, pr: Params, st: nat, a: Symbol, i: Item, j: Item)
    requires st < |C|
    ensures Cands(g, C, pr, st, [i, j], a) == ItemCands(g, C, pr, st, i, a) + ItemCands(g, C, pr, st, j, a)
  {
    hide ItemCands;
    assert [i, j][..1] == [i] && [i][..0] == [];
    assert Cands(g, C, pr, st, [], a) == [];
  }

  lemma CandsOfFour(g: Grammar, C: seq<ItemSet>, pr: Params, st: nat, a: Symbol, i: Item, j: Item, k: Item, l: Item)
    requires st < |C|
    ensures Cands(g, C, pr, st, [i, j, k, l], a) ==
              ItemCands(g, C, pr, st, i, a) + ItemCands(g, C, pr, st, j, a) +
              ItemCands(g, C, pr, st, k, a) + ItemCands(g, C, pr, st, l, a)
  {
    hide ItemCands;
    CandsOfTwo(g, C, pr, st, a, i, j);
    assert [i, j, k, l][..3] == [i, j, k] && [i, j, k][..2] == [i, j];
  }

  lemma StateIndex(C: seq<ItemSet>, I: ItemSet) returns (i: nat)
    requires I in C
    ensures i < |C| && C[i] == I
  {
    i :| 0 <= i < |C| && C[i] == I;
  }

  /** A goto of a state is a state when it is not empty. */
  lemma GotoIsState(g: Grammar, C: seq<ItemSet>, I: ItemSet, x: Symbol)
    requires AutomatonOk(g, C) && I in C && Goto(g, I, x) != []
    ensures Goto(g, I, x) in C
  {
    hide Goto, Collected;
    var i := StateIndex(C, I);
    assert Expanded(g, C, i);
  }

  lemma FoldedAt(g: Grammar, pr: Params, t: Tables, st: nat, a: Symbol)
    requires RowsFolded(g, pr, t) && st < |t.C|
    ensures |t.action| == |t.C| && Fold(g, pr, a, StateCands(g, t.C, pr, st, a)) == Some(SlotAt(t.action[st], a))
    ensures a in t.action[st] <==> StateCands(g, t.C, pr, st, a) != []
  {
    hide Fold, StateCands;
  }

  // ---------- A tie that is lost ----------

  /** E: E '<' E | E '<' E '!' | n, with '<' nonassociative. */
  function Tie(): Grammar
  {
    Grammar([Production(START, ["E"], Prec(Right, 0), 0),
             Production("E", ["E", "<", "E"], Prec(Nonassoc, 1), 1),
             Production("E", ["E", "<", "E", "!"], Prec(Right, 0), 2),
             Production("E", ["n"], Prec(Right, 0), 3)],
            ["<", "!", "n"], ["E"])
  }

  const TIE_FIRST := [Item(0, 0), Item(1, 0), Item(2, 0), Item(3, 0)]
  const TIE_E := [Item(0, 1), Item(1, 1), Item(2, 1)]
  const TIE_LESS := [Item(1, 2), Item(2, 2), Item(1, 0), Item(2, 0), Item(3, 0)]
  const TIE_STATE := [Item(1, 3), Item(2, 3), Item(1, 1), Item(2, 1)]

  lemma TieWf()
    ensures Tie().Wf() && |Tie().prods| == 4
  {
  }

  /** What stands behind the dot. */
  function TieNext(it: Item): Option<Symbol>
  {
    var sum := it.prod == 1 || it.prod == 2;
    if (it.prod == 0 && it.dot == 0) || (sum && (it.dot == 0 || it.dot == 2)) then Some("E")
    else if sum && it.dot == 1 then Some("<")
    else if it.prod == 2 && it.dot == 3 then Some("!")
    else if it.prod == 3 && it.dot == 0 then Some("n")
    else None
  }

  lemma TieMoved(it: Item, x: Symbol)
    ensures Expects(Tie(), it, x) <==> TieNext(it) == Some(x)
    ensures Moved(Tie(), it, x) == if TieNext(it) == Some(x) then [Item(it.prod, it.dot + 1)] else []
  {
  }

  lemma TieNames(p: nat, x: Symbol)
    ensures |Tie().prods| == 4 && (Tie().IsProd(p, x) <==> x == "E" && 1 <= p < 4)
  {
  }

  lemma TieProds(x: Symbol)
    ensures Tie().Prodnames(x) == if x == "E" then [1, 2, 3] else []
  {
    hide Tie, Grammar.IsProd, Grammar.ProdsBelow;
    TieNames(0, x);
    TieNames(1, x);
    TieNames(2, x);
    TieNames(3, x);
    ProdsOfFour(Tie(), x);
  }

  lemma TieAfter(it: Item)
    ensures After(Tie(), it) == if TieNext(it) == Some("E") then [1, 2, 3] else []
  {
    hide Tie, Grammar.Prodnames;
    TieValid(it);
    if TieNext(it).Some? {
      TieProds(TieNext(it).value);
    }
  }

  lemma TieValid(it: Item)
    ensures var g := Tie();
            TieNext(it) == if ValidItem(g, it) && !Complete(g, it) then Some(g.prods[it.prod].rhs[it.dot]) else None
  {
  }

  /** A set whose first item expects E gains the three productions of E. */
  lemma TieClosure(I: ItemSet)
    requires I != [] && TieNext(I[0]) == Some("E")
    ensures Closure(Tie(), I) == I + [Item(1, 0), Item(2, 0), Item(3, 0)]
  {
    hide Tie, CloseFrom, After, NewItems;
    TieWf();
    TieAfter(I[0]);
    CloseOnce(Tie(), I, 0, {}, [1, 2, 3]);
    NewThree(1, 2, 3);
    var J := I + [Item(1, 0), Item(2, 0), Item(3, 0)];
    forall k, p | 1 <= k < |J| && p in After(Tie(), J[k])
      ensures p in {} + SetOf([1, 2, 3])
    {
      TieAfter(J[k]);
    }
    NothingMore(Tie(), J, 1, {} + SetOf([1, 2, 3]));
  }

  /** A set in which nothing is expected to be E is closed. */
  lemma TieFlat(I: ItemSet)
    requires forall k :: 0 <= k < |I| ==> TieNext(I[k]) != Some("E")
    ensures Closure(Tie(), I) == I
  {
    hide Tie, Closure, After;
    forall k | 0 <= k < |I|
      ensures After(Tie(), I[k]) == []
    {
      TieAfter(I[k]);
    }
    FlatClosure(Tie(), I);
  }

  lemma TieKernelFirst()
    ensures Kernel(Tie(), TIE_FIRST, "E") == TIE_E
  {
    hide Tie, Kernel, Moved;
    KernelOfFour(Tie(), Item(0, 0), Item(1, 0), Item(2, 0), Item(3, 0), "E");
    TieMoved(Item(0, 0), "E");
    TieMoved(Item(1, 0), "E");
    TieMoved(Item(2, 0), "E");
    TieMoved(Item(3, 0), "E");
  }

  lemma TieKernelE()
    ensures Kernel(Tie(), TIE_E, "<") == [Item(1, 2), Item(2, 2)]
  {
    hide Tie, Kernel, Moved;
    KernelOfThree(Tie(), Item(0, 1), Item(1, 1), Item(2, 1), "<");
    TieMoved(Item(0, 1), "<");
    TieMoved(Item(1, 1), "<");
    TieMoved(Item(2, 1), "<");
  }

  lemma TieKernelSum()
    ensures Kernel(Tie(), TIE_STATE, "<") == [Item(1, 2), Item(2, 2)]
  {
    hide Tie, Kernel, Moved;
    KernelOfFour(Tie(), Item(1, 3), Item(2, 3), Item(1, 1), Item(2, 1), "<");
    TieMoved(Item(1, 3), "<");
    TieMoved(Item(2, 3), "<");
    TieMoved(Item(1, 1), "<");
    TieMoved(Item(2, 1), "<");
  }

  lemma TieKernelLess()
    ensures Kernel(Tie(), TIE_LESS, "E") == TIE_STATE
  {
    hide Tie, Kernel, Moved;
    KernelOfFive(Tie(), Item(1, 2), Item(2, 2), Item(1, 0), Item(2, 0), Item(3, 0), "E");
    TieMoved(Item(1, 2), "E");
    TieMoved(Item(2, 2), "E");
    TieMoved(Item(1, 0), "E");
    TieMoved(Item(2, 0), "E");
    TieMoved(Item(3, 0), "E");
  }

  lemma TieStart()
    ensures Closure(Tie(), [Item(0, 0)]) == TIE_FIRST && Goto(Tie(), TIE_FIRST, "E") == TIE_E
  {
    hide Tie, Closure, Kernel, Goto;
    TieClosure([Item(0, 0)]);
    TieKernelFirst();
    TieFlat(TIE_E);
    GotoIs(Tie(), TIE_FIRST, "E", TIE_E, TIE_E);
  }

  lemma TieLess()
    ensures Goto(Tie(), TIE_E, "<") == TIE_LESS && Goto(Tie(), TIE_STATE, "<") == TIE_LESS
  {
    hide Tie, Closure, Kernel, Goto;
    TieKernelE();
    TieKernelSum();
    TieClosure([Item(1, 2), Item(2, 2)]);
    GotoIs(Tie(), TIE_E, "<", [Item(1, 2), Item(2, 2)], TIE_LESS);
    GotoIs(Tie(), TIE_STATE, "<", [Item(1, 2), Item(2, 2)], TIE_LESS);
  }

  lemma TieSum()
    ensures Goto(Tie(), TIE_LESS, "E") == TIE_STATE
  {
    hide Tie, Closure, Kernel, Goto;
    TieKernelLess();
    TieFlat(TIE_STATE);
    GotoIs(Tie(), TIE_LESS, "E", TIE_STATE, TIE_STATE);
  }

  lemma TieReached(C: seq<ItemSet>)
    requires AutomatonOk(Tie(), C)
    ensures TIE_STATE in C && TIE_LESS in C
  {
    hide Tie, Goto, Closure, Expanded;
    TieStart();
    TieLess();
    TieSum();
    assert C[0] in C;
    GotoIsState(Tie(), C, TIE_FIRST, "E");
    GotoIsState(Tie(), C, TIE_E, "<");
    GotoIsState(Tie(), C, TIE_LESS, "E");
  }

  /** '<' ties with the first production, which may be reduced before it. */
  ghost predicate TieParams(pr: Params, st: nat)
  {
    && pr.TokenPrec("<") == Prec(Nonassoc, 1) && (Item(1, 3), st) in pr.lookaheads
    && ReduceCands(Item(1, 3), pr.lookaheads[(Item(1, 3), st)], "<") == [Reduce(Item(1, 3))]
  }

  /**
   The state behind E '<' E has one reduction and two shifts on '<', in this order. The tie should make a < b < c an
   error; the entry is the shift.
   */
  lemma TieIsLost(pr: Params, t: Tables) returns (st: nat, to: nat)
    requires AutomatonOk(Tie(), t.C) && RowsFolded(Tie(), pr, t)
    requires forall st: nat :: st < |t.C| && t.C[st] == TIE_STATE ==> TieParams(pr, st)
    ensures st < |t.C| && t.C[st] == TIE_STATE && Edge(Tie(), t.C, st, "<", to)
    ensures StateCands(Tie(), t.C, pr, st, "<") == [Reduce(Item(1, 3)), Shift(Item(1, 1), to), Shift(Item(2, 1), to)]
    ensures NonassocTie(pr.TokenPrec("<"), RulePrec(Tie(), 1)) && SlotAt(t.action[st], "<").act == Act(to)
  {
    hide Tie, Goto, Fold, StateCands, RulePrec, RowsFolded, AutomatonOk;
    TieReached(t.C);
    st := StateIndex(t.C, TIE_STATE);
    to := TieTarget(t.C, st);
    TieCands(pr, t.C, st, to);
    TieRule();
    var a, b := Shift(Item(1, 1), to), Shift(Item(2, 1), to);
    assert [] + [Reduce(Item(1, 3))] + [a, b] == [Reduce(Item(1, 3)), a, b];
    ShiftReduce(Tie(), pr, "<", [], Item(1, 3), [a, b], to);
    FoldedAt(Tie(), pr, t, st, "<");
  }

  lemma TieRule()
    ensures RulePrec(Tie(), 1) == Prec(Nonassoc, 1)
  {
  }

  lemma TieTarget(C: seq<ItemSet>, st: nat) returns (to: nat)
    requires AutomatonOk(Tie(), C) && st < |C| && C[st] == TIE_STATE
    ensures to >= 1 && Edge(Tie(), C, st, "<", to) && to == IndexOf(C, Goto(Tie(), C[st], "<"))
  {
    hide Tie, Goto, Closure, Collected, Expanded;
    TieReached(C);
    TieLess();
    to := IndexOf(C, TIE_LESS);
    NothingEntersStart(Tie(), C, st, "<");
  }

  lemma TieCands(pr: Params, C: seq<ItemSet>, st: nat, to: nat)
    requires st < |C| && C[st] == TIE_STATE && TieParams(pr, st) && to == IndexOf(C, Goto(Tie(), C[st], "<"))
    ensures StateCands(Tie(), C, pr, st, "<") == [Reduce(Item(1, 3)), Shift(Item(1, 1), to), Shift(Item(2, 1), to)]
  {
    hide Tie, Goto, Cands, ItemCands;
    CandsOfFour(Tie(), C, pr, st, "<", Item(1, 3), Item(2, 3), Item(1, 1), Item(2, 1));
    TieReduces(pr, C, st);
    TieShifts(pr, C, st, to);
  }

  lemma TieReduces(pr: Params, C: seq<ItemSet>, st: nat)
    requires st < |C| && TieParams(pr, st)
    ensures ItemCands(Tie(), C, pr, st, Item(1, 3), "<") == [Reduce(Item(1, 3))]
    ensures ItemCands(Tie(), C, pr, st, Item(2, 3), "<") == []
  {
    hide Goto, ReduceCands, IndexOf;
  }

  lemma TieShifts(pr: Params, C: seq<ItemSet>, st: nat, to: nat)
    requires st < |C| && to == IndexOf(C, Goto(Tie(), C[st], "<"))
    ensures ItemCands(Tie(), C, pr, st, Item(1, 1), "<") == [Shift(Item(1, 1), to)]
    ensures ItemCands(Tie(), C, pr, st, Item(2, 1), "<") == [Shift(Item(2, 1), to)]
  {
    hide Goto, ReduceCands, IndexOf;
  }

  // ---------- A state with None alone ----------

  /** S: A '<' | 'a' '<', A: 'a', with '<' and 'a' nonassociative on one level. */
  function Lone(): Grammar
  {
    Grammar([Production(START, ["S"], Prec(Right, 0), 0),
             Production("S", ["A", "<"], Prec(Nonassoc, 1), 1),
             Production("S", ["a", "<"], Prec(Nonassoc, 1), 2),
             Production("A", ["a"], Prec(Nonassoc, 1), 3)],
            ["<", "a"], ["S", "A"])
  }

  const LONE_FIRST := [Item(0, 0), Item(1, 0), Item(2, 0), Item(3, 0)]
  const LONE_STATE := [Item(2, 1), Item(3, 1)]

  lemma LoneWf()
    ensures Lone().Wf() && |Lone().prods| == 4
  {
  }

  function LoneNext(it: Item): Option<Symbol>
  {
    if it.prod == 0 && it.dot == 0 then Some("S")
    else if it.prod == 1 && it.dot == 0 then Some("A")
    else if (it.prod == 2 || it.prod == 3) && it.dot == 0 then Some("a")
    else if (it.prod == 1 || it.prod == 2) && it.dot == 1 then Some("<")
    else None
  }

  lemma LoneMoved(it: Item, x: Symbol)
    ensures Expects(Lone(), it, x) <==> LoneNext(it) == Some(x)
    ensures Moved(Lone(), it, x) == if LoneNext(it) == Some(x) then [Item(it.prod, it.dot + 1)] else []
  {
  }

  lemma LoneNames(p: nat, x: Symbol)
    ensures |Lone().prods| == 4 && (Lone().IsProd(p, x) <==> (x == "S" && 1 <= p < 3) || (x == "A" && p == 3))
  {
  }

  lemma LoneProds(x: Symbol)
    ensures Lone().Prodnames(x) == if x == "S" then [1, 2] else if x == "A" then [3] else []
  {
    hide Lone, Grammar.IsProd, Grammar.ProdsBelow;
    LoneNames(0, x);
    LoneNames(1, x);
    LoneNames(2, x);
    LoneNames(3, x);
    ProdsOfFour(Lone(), x);
  }

  lemma LoneValid(it: Item)
    ensures var g := Lone();
            LoneNext(it) == if ValidItem(g, it) && !Complete(g, it) then Some(g.prods[it.prod].rhs[it.dot]) else None
  {
  }

  lemma LoneAfter(it: Item)
    ensures After(Lone(), it) == if LoneNext(it) == Some("S") then [1, 2] else if LoneNext(it) == Some("A") then [3] else []
  {
    hide Lone, Grammar.Prodnames;
    LoneValid(it);
    if LoneNext(it).Some? {
      LoneProds(LoneNext(it).value);
    }
  }

  lemma LoneFirst()
    ensures Closure(Lone(), [Item(0, 0)]) == LONE_FIRST
  {
    hide Lone, CloseFrom, NewItems, After;
    LoneWf();
    LoneAfter(Item(0, 0));
    LoneAfter(Item(1, 0));
    CloseOnce(Lone(), [Item(0, 0)], 0, {}, [1, 2]);
    NewTwo(1, 2, {});
    var J, added := [Item(0, 0), Item(1, 0), Item(2, 0)], {} + SetOf([1, 2]);
    assert [Item(0, 0)] + [Item(1, 0), Item(2, 0)] == J;
    CloseOnce(Lone(), J, 1, added, [3]);
    NewOne(3, added);
    assert J + [Item(3, 0)] == LONE_FIRST;
    LoneLast(added + SetOf([3]));
  }

  lemma LoneLast(added: set<nat>)
    requires added <= Range(|Lone().prods|)
    ensures CloseFrom(Lone(), LONE_FIRST, 2, added) == LONE_FIRST
  {
    hide Lone, CloseFrom, After;
    LoneAfter(LONE_FIRST[2]);
    LoneAfter(LONE_FIRST[3]);
    NothingMore(Lone(), LONE_FIRST, 2, added);
  }

  lemma LoneFlat(I: ItemSet)
    requires forall k :: 0 <= k < |I| ==> LoneNext(I[k]) in {None, Some("a"), Some("<")}
    ensures Closure(Lone(), I) == I
  {
    hide Lone, Closure, After;
    forall k | 0 <= k < |I|
      ensures After(Lone(), I[k]) == []
    {
      LoneAfter(I[k]);
    }
    FlatClosure(Lone(), I);
  }

  lemma LoneKernelFirst()
    ensures Kernel(Lone(), LONE_FIRST, "a") == LONE_STATE
  {
    hide Lone, Kernel, Moved;
    KernelOfFour(Lone(), Item(0, 0), Item(1, 0), Item(2, 0), Item(3, 0), "a");
    LoneMoved(Item(0, 0), "a");
    LoneMoved(Item(1, 0), "a");
    LoneMoved(Item(2, 0), "a");
    LoneMoved(Item(3, 0), "a");
    LastTwo(Item(2, 1), Item(3, 1));
  }

  lemma LastTwo<T>(x: T, y: T)
    ensures [] + [] + [x] + [y] == [x, y]
  {
  }

  lemma LoneKernelState()
    ensures Kernel(Lone(), LONE_STATE, "<") == [Item(2, 2)]
  {
    hide Lone, Kernel, Moved;
    KernelOfTwo(Lone(), Item(2, 1), Item(3, 1), "<");
    LoneMoved(Item(2, 1), "<");
    LoneMoved(Item(3, 1), "<");
  }

  lemma LoneGotos()
    ensures Goto(Lone(), LONE_FIRST, "a") == LONE_STATE && Goto(Lone(), LONE_STATE, "<") == [Item(2, 2)]
  {
    hide Lone, Closure, Kernel, Goto;
    LoneKernelFirst();
    LoneKernelState();
    LoneFlat(LONE_STATE);
    LoneFlat([Item(2, 2)]);
    GotoIs(Lone(), LONE_FIRST, "a", LONE_STATE, LONE_STATE);
    GotoIs(Lone(), LONE_STATE, "<", [Item(2, 2)], [Item(2, 2)]);
  }

  /** '<' ties with the third production, which is reduced before '<' and nowhere else. */
  ghost predicate LoneParams(pr: Params, st: nat)
  {
    && pr.TokenPrec("<") == Prec(Nonassoc, 1)
    && (Item(3, 1), st) in pr.lookaheads && pr.lookaheads[(Item(3, 1), st)] == ["<"]
  }

  lemma LoneTarget(C: seq<ItemSet>, st: nat) returns (to: nat)
    requires AutomatonOk(Lone(), C) && st < |C| && C[st] == LONE_STATE
    ensures to >= 1 && to == IndexOf(C, Goto(Lone(), C[st], "<"))
  {
    hide Lone, Goto, Closure, Collected, Expanded;
    LoneGotos();
    GotoIsState(Lone(), C, LONE_STATE, "<");
    to := IndexOf(C, [Item(2, 2)]);
    assert Edge(Lone(), C, st, "<", to);
    NothingEntersStart(Lone(), C, st, "<");
  }

  lemma LoneCands(pr: Params, C: seq<ItemSet>, st: nat, a: Symbol, to: nat)
    requires st < |C| && C[st] == LONE_STATE && LoneParams(pr, st)
    requires to == IndexOf(C, Goto(Lone(), C[st], "<"))
    ensures StateCands(Lone(), C, pr, st, a) == if a == "<" then [Shift(Item(2, 1), to), Reduce(Item(3, 1))] else []
  {
    hide Lone, Goto, Cands, ItemCands;
    CandsOfTwo(Lone(), C, pr, st, a, Item(2, 1), Item(3, 1));
    LoneItems(pr, C, st, a, to);
  }

  lemma LoneItems(pr: Params, C: seq<ItemSet>, st: nat, a: Symbol, to: nat)
    requires st < |C| && LoneParams(pr, st) && to == IndexOf(C, Goto(Lone(), C[st], "<"))
    ensures ItemCands(Lone(), C, pr, st, Item(2, 1), a) == if a == "<" then [Shift(Item(2, 1), to)] else []
    ensures ItemCands(Lone(), C, pr, st, Item(3, 1), a) == if a == "<" then [Reduce(Item(3, 1))] else []
  {
    hide Goto, IndexOf;
    assert ["<"][..0] == [];
    assert ReduceCands(Item(3, 1), [], a) == [];
  }

  lemma LoneRule()
    ensures RulePrec(Lone(), 3) == Prec(Nonassoc, 1)
  {
  }

  /** The state behind 'a' has None as its only entry, and looking for the defaulted states raises. */
  lemma NoneAlone(pr: Params, t: Tables) returns (st: nat)
    requires AutomatonOk(Lone(), t.C) && RowsFolded(Lone(), pr, t)
    requires forall st: nat :: st < |t.C| && t.C[st] == LONE_STATE ==> LoneParams(pr, st)
    ensures st < |t.C| && t.C[st] == LONE_STATE && t.action[st].Keys == {"<"} && OneNothing(t, st)
  {
    hide Lone, Goto, Closure, Expanded, StateCands, Fold, RulePrec, RowsFolded;
    LoneFirst();
    LoneGotos();
    assert t.C[0] in t.C;
    GotoIsState(Lone(), t.C, LONE_FIRST, "a");
    st := StateIndex(t.C, LONE_STATE);
    var to := LoneTarget(t.C, st);
    FoldedAt(Lone(), pr, t, st, "<");
    forall a
      ensures a in t.action[st] <==> a == "<"
    {
      FoldedAt(Lone(), pr, t, st, a);
      LoneCands(pr, t.C, st, a, to);
    }
    assert t.action[st].Keys == {"<"};
    LoneCands(pr, t.C, st, "<", to);
    LoneRule();
    var shift := Shift(Item(2, 1), to);
    assert [shift] + [Reduce(Item(3, 1))] + [] == [shift, Reduce(Item(3, 1))];
    ShiftReduce(Lone(), pr, "<", [shift], Item(3, 1), [], to);
    assert Entry(t, st, "<") == NoAction;
  }
}
