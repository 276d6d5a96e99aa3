/** Construction of the action and goto tables, with conflict resolution. */
module LrTable {
  import opened Common
  import opened Grammars
  import opened LrItems
  import opened LrAutomaton

  /** A table entry: absent or None, or a number as the parser reads it. */
  datatype Action = NoAction | Act(v: int)

  /** st_action and st_actionp at one symbol: the entry, and the item that last set it. */
  datatype Slot = Slot(act: Action, setter: Item)

  const EMPTY_SLOT := Slot(NoAction, Item(0, 0))

  /** What one item of a state asks of one lookahead symbol. */
  datatype Candidate = Accept(it: Item) | Reduce(it: Item) | Shift(it: Item, to: nat)

  /** The inputs of the construction besides the grammar: token precedences and lookahead lists. */
  datatype Params = Params(precedence: map<Symbol, Prec>, lookaheads: map<(Item, nat), seq<Symbol>>)
  {
    function TokenPrec(a: Symbol): Prec { if a in precedence then precedence[a] else Prec(Right, 0) }
  }

  predicate ReduceWins(s: Prec, r: Prec) { s.level < r.level || (s.level == r.level && r.assoc == Left) }

  predicate ShiftWins(s: Prec, r: Prec) { s.level > r.level || (s.level == r.level && r.assoc == Right) }

  predicate NonassocTie(s: Prec, r: Prec) { s.level == r.level && r.assoc == Nonassoc }

  /** One candidate arriving at a slot; None when the generator raises an error. */
  function Resolve(g: Grammar, pr: Params, a: Symbol, slot: Slot, c: Candidate): Option<Slot>
  {
    match c
    case Accept(it) => Some(Slot(Act(0), it))
    case Reduce(it) =>
      var n: int := it.prod;
      var mine := Slot(Act(-n), it);
      (match slot.act
       case NoAction => Some(mine)
       case Act(r) =>
         if r > 0 then
           var s, q := pr.TokenPrec(a), RulePrec(g, it.prod);
           if ReduceWins(s, q) then Some(mine)
           else if NonassocTie(s, q) then Some(slot.(act := NoAction))
           else Some(slot)
         else if r < 0 then
           if LineOf(g, -r) > LineOf(g, it.prod) then Some(mine) else Some(slot)
         else None)
    case Shift(it, to) =>
      var mine := Slot(Act(to), it);
      (match slot.act
       case NoAction => Some(mine)
       case Act(r) =>
         if r > 0 then
           if r != to then None else Some(slot)
         else if r < 0 then
           var s, q := pr.TokenPrec(a), RulePrec(g, slot.setter.prod);
           if ShiftWins(s, q) then Some(mine)
           else if NonassocTie(s, q) then Some(slot.(act := NoAction))
           else Some(slot)
         else None)
  }

  function RulePrec(g: Grammar, p: nat): Prec { if p < |g.prods| then g.prods[p].prec else Prec(Right, 0) }

  function LineOf(g: Grammar, p: int): int { if 0 <= p < |g.prods| then g.prods[p].line else 0 }

  /** The candidates arrive in order at an empty slot. */
  function Fold(g: Grammar, pr: Params, a: Symbol, cs: seq<Candidate>): Option<Slot>
  {
    if cs == [] then Some(EMPTY_SLOT)
    else match Fold(g, pr, a, cs[..|cs| - 1])
      case None => None
      case Some(slot) => Resolve(g, pr, a, slot, cs[|cs| - 1])
  }

  /** Position of a state in the collection, or -1. */
  function IndexOf(C: seq<ItemSet>, I: ItemSet): (j: int)
    ensures -1 <= j < |C|
    ensures j >= 0 ==> C[j] == I
    ensures j == -1 ==> I !in C
  {
    if C == [] then -1
    else if C[|C| - 1] == I then |C| - 1
    else IndexOf(C[..|C| - 1], I)
  }

  predicate IsAccept(g: Grammar, it: Item) { ValidItem(g, it) && Complete(g, it) && g.prods[it.prod].name == START }

  predicate IsReduce(g: Grammar, it: Item) { ValidItem(g, it) && Complete(g, it) && g.prods[it.prod].name != START }

  /** A reduce candidate for every occurrence of a in the item's lookahead list. */
  function ReduceCands(it: Item, laheads: seq<Symbol>, a: Symbol): seq<Candidate>
  {
    if laheads == [] then []
    else ReduceCands(it, laheads[..|laheads| - 1], a) + if laheads[|laheads| - 1] == a then [Reduce(it)] else []
  }

  /** What one item contributes to the symbol a in state st. */
  function ItemCands(g: Grammar, C: seq<ItemSet>, pr: Params, st: nat, it: Item, a: Symbol): seq<Candidate>
    requires st < |C|
  {
    if IsAccept(g, it) then (if a == END then [Accept(it)] else [])
    else if IsReduce(g, it) then (if (it, st) in pr.lookaheads then ReduceCands(it, pr.lookaheads[(it, st)], a) else [])
    else if Expects(g, it, a) && a in g.terminals && IndexOf(C, Goto(g, C[st], a)) >= 0 then
      [Shift(it, IndexOf(C, Goto(g, C[st], a)))]
    else []
  }

  /** All candidates for a, in the order of the items. */
  function Cands(g: Grammar, C: seq<ItemSet>, pr: Params, st: nat, I: ItemSet, a: Symbol): seq<Candidate>
    requires st < |C|
  {
    if I == [] then []
    else Cands(g, C, pr, st, I[..|I| - 1], a) + ItemCands(g, C, pr, st, I[|I| - 1], a)
  }

  type ActionRow = map<Symbol, Slot>

  function SlotAt(row: ActionRow, a: Symbol): Slot { if a in row then row[a] else EMPTY_SLOT }

  /** Every slot of the row is the fold of its candidates, and the row has the symbols with candidates. */
  ghost predicate RowIs(g: Grammar, pr: Params, row: ActionRow, cands: Symbol -> seq<Candidate>)
  {
    forall a :: Fold(g, pr, a, cands(a)) == Some(SlotAt(row, a)) && (a in row <==> cands(a) != [])
  }

  lemma FoldSnoc(g: Grammar, pr: Params, a: Symbol, cs: seq<Candidate>, c: Candidate)
    ensures Fold(g, pr, a, cs + [c]) == match Fold(g, pr, a, cs)
                                          case None => None
                                          case Some(slot) => Resolve(g, pr, a, slot, c)
  {
    assert (cs + [c])[..|cs + [c]| - 1] == cs;
  }

  /** An error is final. */
  lemma {:induction false} FoldFails(g: Grammar, pr: Params, a: Symbol, cs: seq<Candidate>, more: seq<Candidate>)
    requires Fold(g, pr, a, cs) == None
    ensures Fold(g, pr, a, cs + more) == None
  {
    if more == [] {
      assert cs + more == cs;
    } else {
      var n := |more| - 1;
      FoldFails(g, pr, a, cs, more[..n]);
      assert cs + more == (cs + more[..n]) + [more[n]];
      FoldSnoc(g, pr, a, cs + more[..n], more[n]);
    }
  }

  lemma FailsLater(g: Grammar, pr: Params, a: Symbol, part: seq<Candidate>, all: seq<Candidate>)
    requires Fold(g, pr, a, part) == None && part <= all
    ensures Fold(g, pr, a, all) == None
  {
    FoldFails(g, pr, a, part, all[|part|..]);
    assert part + all[|part|..] == all;
  }

  lemma RowSame(g: Grammar, pr: Params, row: ActionRow, c: Symbol -> seq<Candidate>, d: Symbol -> seq<Candidate>)
    requires RowIs(g, pr, row, c) && forall a :: c(a) == d(a)
    ensures RowIs(g, pr, row, d)
  {
    hide Fold;
  }

  /** Put one candidate for a into the row. */
  method Enter(g: Grammar, pr: Params, row0: ActionRow, a: Symbol, c: Candidate, ghost before: Symbol -> seq<Candidate>,
               ghost after: Symbol -> seq<Candidate>)
    returns (ok: bool, row: ActionRow)
    requires RowIs(g, pr, row0, before)
    requires forall b :: after(b) == before(b) + if b == a then [c] else []
    ensures ok ==> RowIs(g, pr, row, after)
    ensures !ok ==> Fold(g, pr, a, after(a)) == None
  {
    FoldSnoc(g, pr, a, before(a), c);
    match Resolve(g, pr, a, SlotAt(row0, a), c)
    case None =>
      ok, row := false, row0;
    case Some(slot) =>
      ok, row := true, row0[a := slot];
      forall b
        ensures Fold(g, pr, b, after(b)) == Some(SlotAt(row, b)) && (b in row <==> after(b) != [])
      {
        assert b != a ==> after(b) == before(b);
      }
  }

  /** A complete item asks to reduce on each of its lookaheads. */
  method EnterReduces(g: Grammar, pr: Params, row0: ActionRow, it: Item, laheads: seq<Symbol>,
                      ghost before: Symbol -> seq<Candidate>)
    returns (ok: bool, row: ActionRow)
    requires RowIs(g, pr, row0, before)
    ensures ok ==> RowIs(g, pr, row, a => before(a) + ReduceCands(it, laheads, a))
    ensures !ok ==> exists a :: Fold(g, pr, a, before(a) + ReduceCands(it, laheads, a)) == None
  {
    hide Fold, Resolve, RowIs;
    ok, row := true, row0;
    ghost var sofar := (n: nat) => (a: Symbol) => before(a) + ReduceCands(it, laheads[..Clip(n, |laheads|)], a);
    RowSame(g, pr, row, before, sofar(0));
    for k := 0 to |laheads|
      invariant ok && RowIs(g, pr, row, sofar(k))
    {
      var a := laheads[k];
      ReduceCandsSnoc(it, laheads, k, before, sofar(k), sofar(k + 1));
      ok, row := Enter(g, pr, row, a, Reduce(it), sofar(k), sofar(k + 1));
      if !ok {
        ReduceCandsPrefix(it, laheads, k + 1, a);
        FailsLater(g, pr, a, sofar(k + 1)(a), before(a) + ReduceCands(it, laheads, a));
        return;
      }
    }
    assert laheads[..|laheads|] == laheads;
    RowSame(g, pr, row, sofar(|laheads|), a => before(a) + ReduceCands(it, laheads, a));
  }

  function Clip(n: nat, max: nat): nat { if n < max then n else max }

  lemma ReduceCandsSnoc(it: Item, laheads: seq<Symbol>, k: nat, before: Symbol -> seq<Candidate>,
                        was: Symbol -> seq<Candidate>, now: Symbol -> seq<Candidate>)
    requires k < |laheads|
    requires forall a :: was(a) == before(a) + ReduceCands(it, laheads[..k], a)
    requires forall a :: now(a) == before(a) + ReduceCands(it, laheads[..k + 1], a)
    ensures forall b :: now(b) == was(b) + if b == laheads[k] then [Reduce(it)] else []
  {
    assert laheads[..k + 1][..k] == laheads[..k];
  }

  lemma {:induction false} ReduceCandsPrefix(it: Item, laheads: seq<Symbol>, k: nat, a: Symbol)
    requires k <= |laheads|
    ensures ReduceCands(it, laheads[..k], a) <= ReduceCands(it, laheads, a)
  {
    if k < |laheads| {
      ReduceCandsPrefix(it, laheads[..|laheads| - 1], k, a);
      assert laheads[..|laheads| - 1][..k] == laheads[..k];
    } else {
      assert laheads[..k] == laheads;
    }
  }

  /** One item of state st: the accepting entry, its reductions, or its shift. */
  method EnterItem(g: Grammar, C: seq<ItemSet>, pr: Params, st: nat, row0: ActionRow, it: Item,
                   ghost before: Symbol -> seq<Candidate>)
    returns (ok: bool, row: ActionRow)
    requires st < |C| && ValidItem(g, it) && RowIs(g, pr, row0, before)
    ensures ok ==> RowIs(g, pr, row, a => before(a) + ItemCands(g, C, pr, st, it, a))
    ensures ok && IsReduce(g, it) ==> (it, st) in pr.lookaheads
    ensures !ok ==> (IsReduce(g, it) && (it, st) !in pr.lookaheads) ||
                    exists a :: Fold(g, pr, a, before(a) + ItemCands(g, C, pr, st, it, a)) == None
  {
    hide Fold, Resolve, Goto;
    ghost var after := a => before(a) + ItemCands(g, C, pr, st, it, a);
    if it.dot == |g.prods[it.prod].rhs| {
      if g.prods[it.prod].name == START {
        ok, row := Enter(g, pr, row0, END, Accept(it), before, after);
        return;
      }
      if (it, st) !in pr.lookaheads {
        return false, row0;
      }
      ok, row := EnterReduces(g, pr, row0, it, pr.lookaheads[(it, st)], before);
      assert forall a :: ItemCands(g, C, pr, st, it, a) == ReduceCands(it, pr.lookaheads[(it, st)], a);
      return;
    }
    var a := g.prods[it.prod].rhs[it.dot];
    if a in g.terminals {
      var gs := Lr0Goto(g, C[st], a);
      var j := IndexOf(C, gs);
      if j >= 0 {
        ok, row := Enter(g, pr, row0, a, Shift(it, j), before, after);
        return;
      }
    }
    ok, row := true, row0;
    assert forall b :: ItemCands(g, C, pr, st, it, b) == [] && before(b) + [] == before(b);
  }

  /** The candidates of state st for a. */
  function StateCands(g: Grammar, C: seq<ItemSet>, pr: Params, st: nat, a: Symbol): seq<Candidate>
    requires st < |C|
  {
    Cands(g, C, pr, st, C[st], a)
  }

  /** The construction of this state raises an error. */
  ghost predicate StateFails(g: Grammar, C: seq<ItemSet>, pr: Params, st: nat)
    requires st < |C|
  {
    || (exists it :: it in C[st] && IsReduce(g, it) && (it, st) !in pr.lookaheads)
    || (exists a :: Fold(g, pr, a, StateCands(g, C, pr, st, a)) == None)
  }

  ghost predicate RowFolded(g: Grammar, pr: Params, C: seq<ItemSet>, st: nat, row: ActionRow)
    requires st < |C|
  {
    RowIs(g, pr, row, a => StateCands(g, C, pr, st, a))
  }

  lemma {:induction false} CandsPrefix(g: Grammar, C: seq<ItemSet>, pr: Params, st: nat, I: ItemSet, k: nat, a: Symbol)
    requires st < |C| && k <= |I|
    ensures Cands(g, C, pr, st, I[..k], a) <= Cands(g, C, pr, st, I, a)
  {
    hide ItemCands;
    if k < |I| {
      CandsPrefix(g, C, pr, st, I[..|I| - 1], k, a);
      assert I[..|I| - 1][..k] == I[..k];
    } else {
      assert I[..k] == I;
    }
  }

  /** The action row of one state. */
  method BuildActions(g: Grammar, C: seq<ItemSet>, pr: Params, st: nat) returns (ok: bool, row: ActionRow)
    requires st < |C| && AllValid(g, C[st])
    ensures ok ==> RowFolded(g, pr, C, st, row)
    ensures !ok <==> StateFails(g, C, pr, st)
  {
    hide Fold, Resolve, RowIs, ItemCands;
    var I := C[st];
    ok, row := true, map[];
    ghost var sofar := (n: nat) => (a: Symbol) => Cands(g, C, pr, st, I[..Clip(n, |I|)], a);
    EmptyRow(g, pr, sofar(0));
    for k := 0 to |I|
      invariant ok && RowIs(g, pr, row, sofar(k))
      invariant forall i :: 0 <= i < k && IsReduce(g, I[i]) ==> (I[i], st) in pr.lookaheads
    {
      assert I[k] in I;
      ok, row := EnterItem(g, C, pr, st, row, I[k], sofar(k));
      assert I[..k + 1][..k] == I[..k];
      if ok {
        RowSame(g, pr, row, a => sofar(k)(a) + ItemCands(g, C, pr, st, I[k], a), sofar(k + 1));
      } else {
        if !(IsReduce(g, I[k]) && (I[k], st) !in pr.lookaheads) {
          ghost var a :| Fold(g, pr, a, sofar(k)(a) + ItemCands(g, C, pr, st, I[k], a)) == None;
          CandsPrefix(g, C, pr, st, I, k + 1, a);
          FailsLater(g, pr, a, sofar(k + 1)(a), StateCands(g, C, pr, st, a));
        }
        return;
      }
    }
    assert I[..|I|] == I;
    RowSame(g, pr, row, sofar(|I|), a => StateCands(g, C, pr, st, a));
    RowSucceeds(g, C, pr, st, row);
  }

  lemma EmptyRow(g: Grammar, pr: Params, c: Symbol -> seq<Candidate>)
    requires forall a :: c(a) == []
    ensures RowIs(g, pr, map[], c)
  {
  }

  lemma RowSucceeds(g: Grammar, C: seq<ItemSet>, pr: Params, st: nat, row: ActionRow)
    requires st < |C| && RowIs(g, pr, row, a => StateCands(g, C, pr, st, a))
    requires forall i :: 0 <= i < |C[st]| && IsReduce(g, C[st][i]) ==> (C[st][i], st) in pr.lookaheads
    ensures !StateFails(g, C, pr, st)
  {
    hide Fold;
    var c := b => StateCands(g, C, pr, st, b);
    forall a
      ensures Fold(g, pr, a, StateCands(g, C, pr, st, a)) != None
    {
      assert Fold(g, pr, a, c(a)) == Some(SlotAt(row, a));
    }
  }

  // ---------- What the rows mean ----------

  function ActionOf(c: Candidate): int
  {
    match c
    case Accept(_) => 0
    case Reduce(it) => var n: int := it.prod; -n
    case Shift(_, to) => to
  }

  /** An entry number v for symbol a in state st means what the parser takes it to mean. */
  ghost predicate EntrySound(g: Grammar, C: seq<ItemSet>, st: nat, a: Symbol, v: int)
    requires st < |C|
  {
    if v > 0 then a in g.terminals && Edge(g, C, st, a, v)
    else if v < 0 then exists it :: it in C[st] && IsReduce(g, it) && it.prod == -v
    else a == END && Item(0, 1) in C[st]
  }

  /** A candidate that a state can really produce. */
  ghost predicate CandOk(g: Grammar, C: seq<ItemSet>, st: nat, a: Symbol, c: Candidate)
    requires st < |C|
  {
    match c
    case Accept(it) => a == END && it == Item(0, 1) && it in C[st]
    case Reduce(it) => it in C[st] && IsReduce(g, it) && it.prod >= 1
    case Shift(it, to) => to >= 1 && a in g.terminals && Edge(g, C, st, a, to) && to == IndexOf(C, Goto(g, C[st], a))
  }

  lemma {:induction false} ReduceCandsAre(it: Item, laheads: seq<Symbol>, a: Symbol)
    ensures forall c :: c in ReduceCands(it, laheads, a) <==> c == Reduce(it) && a in laheads
  {
    if laheads != [] {
      var n := |laheads| - 1;
      ReduceCandsAre(it, laheads[..n], a);
      assert laheads == laheads[..n] + [laheads[n]];
    }
  }

  lemma ItemCandsOk(g: Grammar, C: seq<ItemSet>, pr: Params, st: nat, it: Item, a: Symbol)
    requires g.Wf() && Collected(g, C) && st < |C| && it in C[st]
    ensures forall c :: c in ItemCands(g, C, pr, st, it, a) ==> CandOk(g, C, st, a, c)
  {
    hide Goto, Closure, Collected;
    if IsReduce(g, it) && (it, st) in pr.lookaheads {
      ReduceCandsAre(it, pr.lookaheads[(it, st)], a);
    } else if !IsAccept(g, it) && !IsReduce(g, it) && Expects(g, it, a) {
      var j := IndexOf(C, Goto(g, C[st], a));
      if j >= 0 {
        GotoItems(g, C[st], a);
        assert Edge(g, C, st, a, j);
        if j == 0 {
          NothingEntersStart(g, C, st, a);
        }
      }
    }
  }

  lemma {:induction false} CandsOk(g: Grammar, C: seq<ItemSet>, pr: Params, st: nat, I: ItemSet, a: Symbol)
    requires g.Wf() && Collected(g, C) && st < |C| && forall it :: it in I ==> it in C[st]
    ensures forall c :: c in Cands(g, C, pr, st, I, a) ==> CandOk(g, C, st, a, c)
  {
    hide ItemCands, Collected, CandOk;
    if I != [] {
      var n := |I| - 1;
      CandsOk(g, C, pr, st, I[..n], a);
      ItemCandsOk(g, C, pr, st, I[n], a);
    }
  }

  /** The entry is one of the candidates; a negative one was set by the item it reduces. */
  lemma {:induction false} FoldChooses(g: Grammar, pr: Params, a: Symbol, cs: seq<Candidate>)
    requires forall c :: c in cs && c.Reduce? ==> c.it.prod >= 1
    requires forall c :: c in cs && c.Shift? ==> c.to >= 1
    ensures match Fold(g, pr, a, cs)
            case None => true
            case Some(slot) =>
              && (slot.act != NoAction ==> exists c :: c in cs && slot.act == Act(ActionOf(c)))
              && (slot.act.Act? && slot.act.v < 0 ==> Reduce(slot.setter) in cs && slot.setter.prod == -slot.act.v)
  {
    if cs != [] {
      var n := |cs| - 1;
      var d := cs[n];
      assert cs == cs[..n] + [d] && d in cs;
      FoldChooses(g, pr, a, cs[..n]);
    }
  }

  /** Every entry of a finished row is sound, whatever the conflicts decided. */
  lemma RowSound(g: Grammar, C: seq<ItemSet>, pr: Params, st: nat, row: ActionRow, a: Symbol)
    requires g.Wf() && Collected(g, C) && st < |C|
    requires Fold(g, pr, a, StateCands(g, C, pr, st, a)) == Some(SlotAt(row, a))
    ensures SlotAt(row, a).act.Act? ==> EntrySound(g, C, st, a, SlotAt(row, a).act.v)
  {
    var cs := StateCands(g, C, pr, st, a);
    CandsOk(g, C, pr, st, C[st], a);
    assert forall c :: c in cs ==> CandOk(g, C, st, a, c);
    FoldChooses(g, pr, a, cs);
  }

  lemma ResolveFails(g: Grammar, pr: Params, a: Symbol, slot: Slot, c: Candidate)
    requires Resolve(g, pr, a, slot, c) == None && (c.Shift? ==> c.to >= 1)
    ensures slot.act.Act? && ((c.Reduce? && slot.act.v == 0) || (c.Shift? && slot.act.v >= 0 && slot.act.v != c.to))
  {
  }

  /** Two entries that meet in an error are the accepting one and a reduction on the end mark. */
  lemma ClashAtAccept(g: Grammar, C: seq<ItemSet>, st: nat, a: Symbol, c: Candidate, d: Candidate)
    requires g.Wf() && st < |C| && CandOk(g, C, st, a, c) && CandOk(g, C, st, a, d)
    requires (d.Reduce? && ActionOf(c) == 0) || (d.Shift? && ActionOf(c) >= 0 && ActionOf(c) != d.to)
    ensures a == END && Item(0, 1) in C[st] && d.Reduce?
  {
    hide Edge, Goto, IndexOf;
    assert c.Accept? || c.Shift?;
  }

  /** The only error left, lookaheads given, is a reduction on the end mark meeting the accepting entry. */
  lemma {:induction false} FailsOnlyAtAccept(g: Grammar, C: seq<ItemSet>, pr: Params, st: nat, a: Symbol, cs: seq<Candidate>)
    requires g.Wf() && st < |C| && forall c :: c in cs ==> CandOk(g, C, st, a, c)
    requires Fold(g, pr, a, cs) == None
    ensures a == END && Item(0, 1) in C[st] && exists c :: c in cs && c.Reduce?
  {
    hide Edge, Goto, IndexOf, Resolve;
    var n := |cs| - 1;
    var d := cs[n];
    assert cs == cs[..n] + [d] && d in cs;
    assert forall c :: c in cs[..n] ==> c in cs;
    if Fold(g, pr, a, cs[..n]) == None {
      FailsOnlyAtAccept(g, C, pr, st, a, cs[..n]);
    } else {
      assert forall c :: c in cs[..n] ==> CandOk(g, C, st, a, c);
      FoldChooses(g, pr, a, cs[..n]);
      var slot := Fold(g, pr, a, cs[..n]).value;
      ResolveFails(g, pr, a, slot, d);
      var c :| c in cs[..n] && slot.act == Act(ActionOf(c));
      ClashAtAccept(g, C, st, a, c, d);
    }
  }

  // ---------- Reductions against each other ----------

  ghost predicate AllReduce(cs: seq<Candidate>) { forall c :: c in cs ==> c.Reduce? && c.it.prod >= 1 }

  /** The candidate at position i has the smallest line, and no earlier one has the same. */
  ghost predicate FirstOfLeastLine(g: Grammar, cs: seq<Candidate>, i: nat)
  {
    && i < |cs|
    && (forall j :: 0 <= j < i ==> LineOf(g, cs[i].it.prod) < LineOf(g, cs[j].it.prod))
    && (forall j :: i < j < |cs| ==> LineOf(g, cs[i].it.prod) <= LineOf(g, cs[j].it.prod))
  }

  /** Among reductions alone the one whose production stands first in the grammar file wins, the earliest among equals. */
  lemma {:induction false} ReduceReduce(g: Grammar, pr: Params, a: Symbol, cs: seq<Candidate>) returns (i: nat)
    requires AllReduce(cs) && cs != []
    ensures FirstOfLeastLine(g, cs, i)
    ensures Fold(g, pr, a, cs) == Some(Slot(Act(ActionOf(cs[i])), cs[i].it))
  {
    hide LineOf;
    var n := |cs| - 1;
    assert cs[n] in cs;
    if n == 0 {
      i := 0;
      assert cs[..0] == [];
    } else {
      i := ReduceReduce(g, pr, a, cs[..n]);
      if LineOf(g, cs[i].it.prod) > LineOf(g, cs[n].it.prod) {
        assert forall j :: 0 <= j < n ==> LineOf(g, cs[i].it.prod) <= LineOf(g, cs[..n][j].it.prod);
        i := n;
      }
    }
  }

  // ---------- One reduction against shifts ----------

  ghost predicate AllShift(cs: seq<Candidate>, to: nat) { forall c :: c in cs ==> c.Shift? && c.to == to }

  /** Shifts to the same state after a slot that already shifts there, or after an empty one. */
  lemma {:induction false} FoldShifts(g: Grammar, pr: Params, a: Symbol, pre: seq<Candidate>, m: seq<Candidate>, to: nat)
    requires to >= 1 && AllShift(m, to) && m != []
    requires Fold(g, pr, a, pre).Some? && Fold(g, pr, a, pre).value.act in {NoAction, Act(to)}
    ensures Fold(g, pr, a, pre + m).Some? && Fold(g, pr, a, pre + m).value.act == Act(to)
  {
    var n := |m| - 1;
    assert pre + m == (pre + m[..n]) + [m[n]] && m[n] in m;
    FoldSnoc(g, pr, a, pre + m[..n], m[n]);
    if n == 0 {
      assert pre + m[..n] == pre;
    } else {
      FoldShifts(g, pr, a, pre, m[..n], to);
    }
  }

  /** Shifts after a reduction that keeps winning leave it in place. */
  lemma {:induction false} FoldKeepsReduce(g: Grammar, pr: Params, a: Symbol, pre: seq<Candidate>, n: seq<Candidate>,
                                           it: Item, to: nat)
    requires it.prod >= 1 && to >= 1 && AllShift(n, to) && ReduceWins(pr.TokenPrec(a), RulePrec(g, it.prod))
    requires Fold(g, pr, a, pre) == Some(Slot(Act(ActionOf(Reduce(it))), it))
    ensures Fold(g, pr, a, pre + n) == Fold(g, pr, a, pre)
  {
    if n == [] {
      assert pre + n == pre;
    } else {
      var k := |n| - 1;
      assert pre + n == (pre + n[..k]) + [n[k]] && n[k] in n;
      FoldKeepsReduce(g, pr, a, pre, n[..k], it, to);
      FoldSnoc(g, pr, a, pre + n[..k], n[k]);
    }
  }

  /**
   One complete item against the shifts m before it and n after it in the state. Precedence decides the
   same way from either side. A nonassociative tie clears the entry, but a later shift sees an empty
   entry and fills it again: the tie stays an error exactly when no shift comes after the clearing.
   */
  lemma ShiftReduce(g: Grammar, pr: Params, a: Symbol, m: seq<Candidate>, it: Item, n: seq<Candidate>, to: nat)
    requires it.prod >= 1 && to >= 1 && AllShift(m, to) && AllShift(n, to) && m + n != []
    ensures var s, q := pr.TokenPrec(a), RulePrec(g, it.prod);
            var f := Fold(g, pr, a, m + [Reduce(it)] + n);
            && f.Some?
            && (ReduceWins(s, q) ==> f.value.act == Act(ActionOf(Reduce(it))))
            && (ShiftWins(s, q) ==> f.value.act == Act(to))
            && (NonassocTie(s, q) ==>
                  f.value.act == if n == [] || (m == [] && |n| == 1) then NoAction else Act(to))
            && (ReduceWins(s, q) || ShiftWins(s, q) || NonassocTie(s, q))
  {
    hide Fold, Resolve, AllShift;
    var mr := m + [Reduce(it)];
    assert mr + [] == mr;
    FoldBefore(g, pr, a, m, to);
    FoldSnoc(g, pr, a, m, Reduce(it));
    ReduceMeets(g, pr, a, Fold(g, pr, a, m).value, it);
    if ReduceWins(pr.TokenPrec(a), RulePrec(g, it.prod)) {
      FoldKeepsReduce(g, pr, a, mr, n, it, to);
    } else if m != [] {
      if n != [] {
        FoldShifts(g, pr, a, mr, n, to);
      }
    } else {
      FirstShift(g, pr, a, mr, n, it, to);
    }
  }

  /** A reduction that comes first, and does not win, against the shifts after it. */
  lemma FirstShift(g: Grammar, pr: Params, a: Symbol, mr: seq<Candidate>, n: seq<Candidate>, it: Item, to: nat)
    requires it.prod >= 1 && to >= 1 && AllShift(n, to) && n != []
    requires Fold(g, pr, a, mr) == Some(Slot(Act(ActionOf(Reduce(it))), it))
    requires !ReduceWins(pr.TokenPrec(a), RulePrec(g, it.prod))
    ensures Fold(g, pr, a, mr + n).Some?
    ensures Fold(g, pr, a, mr + n).value.act ==
              if NonassocTie(pr.TokenPrec(a), RulePrec(g, it.prod)) && |n| == 1 then NoAction else Act(to)
  {
    hide Fold;
    var n1, n2 := n[..1], n[1..];
    assert mr + n == (mr + n1) + n2 && n1 == [n[0]] && n[0] in n && (mr + n1) + [] == mr + n1;
    FoldSnoc(g, pr, a, mr, n[0]);
    if n2 != [] {
      FoldShifts(g, pr, a, mr + n1, n2, to);
    }
  }

  /** A reduction meeting an empty slot or a shift. */
  lemma ReduceMeets(g: Grammar, pr: Params, a: Symbol, slot: Slot, it: Item)
    requires it.prod >= 1
    ensures var s, q := pr.TokenPrec(a), RulePrec(g, it.prod);
            var mine := Slot(Act(ActionOf(Reduce(it))), it);
            && (slot.act == NoAction ==> Resolve(g, pr, a, slot, Reduce(it)) == Some(mine))
            && (slot.act.Act? && slot.act.v > 0 ==>
                  Resolve(g, pr, a, slot, Reduce(it)) ==
                  Some(if ReduceWins(s, q) then mine else if NonassocTie(s, q) then slot.(act := NoAction) else slot))
  {
  }

  lemma FoldBefore(g: Grammar, pr: Params, a: Symbol, m: seq<Candidate>, to: nat)
    requires to >= 1 && AllShift(m, to)
    ensures Fold(g, pr, a, m).Some? && Fold(g, pr, a, m).value.act == if m == [] then NoAction else Act(to)
  {
    if m != [] {
      assert [] + m == m;
      FoldShifts(g, pr, a, [], m, to);
    }
  }

  // ---------- The goto rows and the whole table ----------

  type GotoRow = map<Symbol, nat>

  ghost predicate GotoRowIs(g: Grammar, C: seq<ItemSet>, st: nat, row: GotoRow)
    requires st < |C|
  {
    forall n :: if n in g.nonterminals && Goto(g, C[st], n) != [] then n in row && Edge(g, C, st, n, row[n]) else n !in row
  }

  method BuildGotos(g: Grammar, C: seq<ItemSet>, st: nat) returns (row: GotoRow)
    requires st < |C| && AutomatonOk(g, C)
    ensures GotoRowIs(g, C, st, row)
  {
    hide Goto, Collected;
    CollectedOk(g, C, st);
    assert Expanded(g, C, st);
    row := map[];
    var usyms := UsedSymbols(g, C[st]);
    for k := 0 to |usyms|
      invariant forall n :: n in row ==> n in g.nonterminals && Goto(g, C[st], n) != [] && Edge(g, C, st, n, row[n])
      invariant forall n :: n in usyms[..k] && n in g.nonterminals && Goto(g, C[st], n) != [] ==> n in row
    {
      var n := usyms[k];
      assert usyms[..k + 1] == usyms[..k] + [n];
      if n in g.nonterminals {
        var gs := Lr0Goto(g, C[st], n);
        var j := IndexOf(C, gs);
        if j >= 0 {
          NoEmptyState(g, C, j);
          row := row[n := j];
        }
      }
    }
    forall n | n in g.nonterminals && Goto(g, C[st], n) != []
      ensures n in row
    {
      if n !in usyms {
        UnusedSymbol(g, C[st], usyms, n);
      }
    }
  }

  lemma NoEmptyState(g: Grammar, C: seq<ItemSet>, j: nat)
    requires Collected(g, C) && j < |C|
    ensures C[j] != []
  {
  }

  datatype Tables = Tables(C: seq<ItemSet>, action: seq<ActionRow>, goto: seq<GotoRow>)

  /** The tables of the whole grammar: every entry sound, every goto row complete. */
  ghost predicate TablesOk(g: Grammar, t: Tables)
  {
    && AutomatonOk(g, t.C) && |t.action| == |t.C| && |t.goto| == |t.C|
    && (forall st, a :: 0 <= st < |t.C| && SlotAt(t.action[st], a).act.Act? ==>
          EntrySound(g, t.C, st, a, SlotAt(t.action[st], a).act.v))
    && (forall st :: 0 <= st < |t.C| ==> GotoRowIs(g, t.C, st, t.goto[st]))
  }

  /** Every row is the fold of its candidates. */
  ghost predicate RowsFolded(g: Grammar, pr: Params, t: Tables)
  {
    |t.action| == |t.C| &&
    forall st, a :: 0 <= st < |t.C| ==>
      && Fold(g, pr, a, StateCands(g, t.C, pr, st, a)) == Some(SlotAt(t.action[st], a))
      && (a in t.action[st] <==> StateCands(g, t.C, pr, st, a) != [])
  }

  lemma TablesFromRows(g: Grammar, pr: Params, t: Tables)
    requires g.Wf() && AutomatonOk(g, t.C) && |t.action| == |t.goto| == |t.C|
    requires forall k :: 0 <= k < |t.C| ==> RowFolded(g, pr, t.C, k, t.action[k])
    requires forall k :: 0 <= k < |t.C| ==> GotoRowIs(g, t.C, k, t.goto[k])
    ensures TablesOk(g, t) && RowsFolded(g, pr, t)
  {
    hide Fold, Goto, Collected, Expanded, EntrySound, GotoRowIs, StateCands;
    forall st, a | 0 <= st < |t.C|
      ensures Fold(g, pr, a, StateCands(g, t.C, pr, st, a)) == Some(SlotAt(t.action[st], a))
      ensures a in t.action[st] <==> StateCands(g, t.C, pr, st, a) != []
      ensures SlotAt(t.action[st], a).act.Act? ==> EntrySound(g, t.C, st, a, SlotAt(t.action[st], a).act.v)
    {
      assert RowFolded(g, pr, t.C, st, t.action[st]);
      RowAt(g, pr, t.action[st], b => StateCands(g, t.C, pr, st, b), a);
      RowSound(g, t.C, pr, st, t.action[st], a);
    }
  }

  /** The action and goto tables of all states, or an error. */
  method BuildTables(g: Grammar, C: seq<ItemSet>, pr: Params) returns (ok: bool, t: Tables)
    requires g.Wf() && AutomatonOk(g, C)
    ensures t.C == C && (ok ==> TablesOk(g, t) && RowsFolded(g, pr, t))
    ensures !ok <==> exists st :: 0 <= st < |C| && StateFails(g, C, pr, st)
  {
    hide Closure, Goto, AutomatonOk, AllValid, RowFolded, GotoRowIs, StateFails, TablesOk, RowsFolded;
    var action: seq<ActionRow>, goto: seq<GotoRow> := [], [];
    for st := 0 to |C|
      invariant |action| == |goto| == st
      invariant forall k :: 0 <= k < st ==> RowFolded(g, pr, C, k, action[k]) && !StateFails(g, C, pr, k)
      invariant forall k :: 0 <= k < st ==> GotoRowIs(g, C, k, goto[k])
    {
      StateValid(g, C, st);
      var row;
      ok, row := BuildActions(g, C, pr, st);
      if !ok {
        return false, Tables(C, action, goto);
      }
      var gotos := BuildGotos(g, C, st);
      action, goto := action + [row], goto + [gotos];
    }
    ok, t := true, Tables(C, action, goto);
    TablesFromRows(g, pr, t);
  }

  lemma StateValid(g: Grammar, C: seq<ItemSet>, st: nat)
    requires AutomatonOk(g, C) && st < |C|
    ensures AllValid(g, C[st])
  {
  }

  lemma RowAt(g: Grammar, pr: Params, row: ActionRow, c: Symbol -> seq<Candidate>, a: Symbol)
    requires RowIs(g, pr, row, c)
    ensures Fold(g, pr, a, c(a)) == Some(SlotAt(row, a)) && (a in row <==> c(a) != [])
  {
  }
}
