/** LR(0) items, closure, goto and the canonical collection of item sets. */
module LrItems {
  import opened Common
  import opened Grammars

  /** Production prod with the dot before position dot of its right side. */
  datatype Item = Item(prod: nat, dot: nat)

  type ItemSet = seq<Item>

  predicate ValidItem(g: Grammar, it: Item) { it.prod < |g.prods| && it.dot <= |g.prods[it.prod].rhs| }

  predicate Complete(g: Grammar, it: Item)
    requires ValidItem(g, it)
  {
    it.dot == |g.prods[it.prod].rhs|
  }

  /** x is the symbol right after the dot. */
  predicate Expects(g: Grammar, it: Item, x: Symbol)
  {
    ValidItem(g, it) && !Complete(g, it) && g.prods[it.prod].rhs[it.dot] == x
  }

  /** lr_after: the productions of the symbol after the dot. */
  function After(g: Grammar, it: Item): (ps: seq<nat>)
    ensures forall p: nat :: p in ps <==>
              ValidItem(g, it) && !Complete(g, it) && g.IsProd(p, g.prods[it.prod].rhs[it.dot])
  {
    if ValidItem(g, it) && !Complete(g, it) then g.Prodnames(g.prods[it.prod].rhs[it.dot]) else []
  }

  ghost predicate AllValid(g: Grammar, I: ItemSet) { forall it :: it in I ==> ValidItem(g, it) }

  ghost predicate Distinct<T>(s: seq<T>) { forall i, j :: 0 <= i < j < |s| ==> s[i] != s[j] }

  // ---------- Closure ----------

  /** The items B -> .G for the productions of ps that are not in added yet. */
  function NewItems(ps: seq<nat>, added: set<nat>): (r: seq<Item>)
    ensures forall it :: it in r ==> it.dot == 0 && it.prod in ps && it.prod !in added
    ensures forall p: nat :: p in ps && p !in added ==> Item(p, 0) in r
    ensures r == [] <==> forall p :: p in ps ==> p in added
  {
    if ps == [] then []
    else if ps[0] in added then NewItems(ps[1..], added)
    else [Item(ps[0], 0)] + NewItems(ps[1..], added + {ps[0]})
  }

  function SetOf(ps: seq<nat>): set<nat> { set p | p in ps }

  /** The numbers below n. */
  function Range(n: nat): (r: set<nat>)
    ensures forall p: nat :: p in r <==> p < n
  {
    if n == 0 then {} else Range(n - 1) + {n - 1}
  }

  /** Handle J[i..]: each item appends the productions of its next symbol that were not appended before. */
  function CloseFrom(g: Grammar, J: ItemSet, i: nat, added: set<nat>): ItemSet
    requires i <= |J| && added <= Range(|g.prods|)
    decreases |Range(|g.prods|) - added|, |J| - i
  {
    if i == |J| then J
    else
      var missing := NewItems(After(g, J[i]), added);
      Shrinks(g, J[i], added);
      if missing == [] then CloseFrom(g, J, i + 1, added)
      else CloseFrom(g, J + missing, i + 1, added + SetOf(After(g, J[i])))
  }

  lemma Shrinks(g: Grammar, it: Item, added: set<nat>)
    requires added <= Range(|g.prods|)
    ensures var n, more := NewItems(After(g, it), added), added + SetOf(After(g, it));
            && more <= Range(|g.prods|)
            && (n != [] ==> |Range(|g.prods|) - more| < |Range(|g.prods|) - added|)
            && (n == [] ==> more == added)
  {
    var n, more := NewItems(After(g, it), added), added + SetOf(After(g, it));
    if n != [] {
      assert n[0] in n && n[0].prod in more && n[0].prod !in added;
      SubsetSize(Range(|g.prods|) - more, Range(|g.prods|) - added);
    }
  }

  function Closure(g: Grammar, I: ItemSet): ItemSet { CloseFrom(g, I, 0, {}) }

  /** S holds B -> .G for every symbol B that one of its items expects. */
  ghost predicate Closed(g: Grammar, S: iset<Item>)
  {
    forall it, p :: it in S && p in After(g, it) ==> Item(p, 0) in S
  }

  /** The items of J before i are done: the productions they ask for are in added, and added is in J. */
  ghost predicate DoneBelow(g: Grammar, J: ItemSet, i: nat, added: set<nat>)
  {
    && i <= |J| && added <= Range(|g.prods|)
    && (forall k, p :: 0 <= k < i && p in After(g, J[k]) ==> p in added)
    && (forall p :: p in added ==> Item(p, 0) in J)
  }

  /** The productions that items up to i ask for are in the larger set. */
  lemma AskedStep(g: Grammar, J: ItemSet, i: nat, added: set<nat>)
    requires DoneBelow(g, J, i, added) && i < |J|
    ensures var n := NewItems(After(g, J[i]), added);
            forall k, p :: 0 <= k < i + 1 && p in After(g, (J + n)[k]) ==> p in added + SetOf(After(g, J[i]))
  {
    hide NewItems, After;
    var n := NewItems(After(g, J[i]), added);
    assert forall k :: 0 <= k < i + 1 ==> (J + n)[k] == J[k];
  }

  /** The productions of the larger set have their items. */
  lemma AddedStep(g: Grammar, J: ItemSet, i: nat, added: set<nat>)
    requires DoneBelow(g, J, i, added) && i < |J|
    ensures var n := NewItems(After(g, J[i]), added);
            forall p :: p in added + SetOf(After(g, J[i])) ==> Item(p, 0) in J + n
  {
    hide After;
    var ps := After(g, J[i]);
    var n := NewItems(ps, added);
    forall p | p in added + SetOf(ps)
      ensures Item(p, 0) in J + n
    {
      if p in added {
        assert Item(p, 0) in J;
      } else {
        assert Item(p, 0) in n;
      }
    }
  }

  /** Handling item i appends what it asks for. */
  lemma DoneStep(g: Grammar, J: ItemSet, i: nat, added: set<nat>)
    requires DoneBelow(g, J, i, added) && i < |J|
    ensures var n := NewItems(After(g, J[i]), added); DoneBelow(g, J + n, i + 1, added + SetOf(After(g, J[i])))
  {
    hide NewItems, After, SetOf;
    Shrinks(g, J[i], added);
    AskedStep(g, J, i, added);
    AddedStep(g, J, i, added);
  }

  lemma CloseStep(g: Grammar, J: ItemSet, i: nat, added: set<nat>)
    requires i < |J| && added <= Range(|g.prods|)
    ensures var n := NewItems(After(g, J[i]), added);
            && added + SetOf(After(g, J[i])) <= Range(|g.prods|)
            && CloseFrom(g, J, i, added) == CloseFrom(g, J + n, i + 1, added + SetOf(After(g, J[i])))
            && |Range(|g.prods|) - (added + SetOf(After(g, J[i])))| <= |Range(|g.prods|) - added|
            && (n != [] ==> |Range(|g.prods|) - (added + SetOf(After(g, J[i])))| < |Range(|g.prods|) - added|)
            && (n == [] ==> J + n == J && added + SetOf(After(g, J[i])) == added)
  {
    var n := NewItems(After(g, J[i]), added);
    Shrinks(g, J[i], added);
    if n == [] {
      assert J + n == J && added + SetOf(After(g, J[i])) == added;
    }
  }

  lemma DoneAll(g: Grammar, J: ItemSet, added: set<nat>)
    requires DoneBelow(g, J, |J|, added)
    ensures CloseFrom(g, J, |J|, added) == J && Closed(g, iset it | it in J)
  {
  }

  lemma {:induction false} CloseFromClosed(g: Grammar, J: ItemSet, i: nat, added: set<nat>)
    requires DoneBelow(g, J, i, added)
    ensures i <= |J| && added <= Range(|g.prods|) && J <= CloseFrom(g, J, i, added)
    ensures Closed(g, iset it | it in CloseFrom(g, J, i, added))
    decreases |Range(|g.prods|) - added|, |J| - i
  {
    hide NewItems, After, CloseFrom, Closed, SetOf;
    if i < |J| {
      var n := NewItems(After(g, J[i]), added);
      CloseStep(g, J, i, added);
      DoneStep(g, J, i, added);
      CloseFromClosed(g, J + n, i + 1, added + SetOf(After(g, J[i])));
    } else {
      DoneAll(g, J, added);
    }
  }

  lemma {:induction false} CloseFromLeast(g: Grammar, J: ItemSet, i: nat, added: set<nat>, S: iset<Item>)
    requires i <= |J| && added <= Range(|g.prods|)
    requires Closed(g, S) && forall it :: it in J ==> it in S
    ensures forall it :: it in CloseFrom(g, J, i, added) ==> it in S
    decreases |Range(|g.prods|) - added|, |J| - i
  {
    if i < |J| {
      var n := NewItems(After(g, J[i]), added);
      Shrinks(g, J[i], added);
      if n == [] {
        CloseFromLeast(g, J, i + 1, added, S);
      } else {
        forall it | it in n
          ensures it in S
        {
          assert it == Item(it.prod, 0) && J[i] in S;
        }
        CloseFromLeast(g, J + n, i + 1, added + SetOf(After(g, J[i])), S);
      }
    }
  }

  /** The closure of I is the smallest closed set that holds I, and starts with I itself. */
  lemma ClosureLeast(g: Grammar, I: ItemSet)
    ensures I <= Closure(g, I) && Closed(g, iset it | it in Closure(g, I))
    ensures forall S :: Closed(g, S) && (forall it :: it in I ==> it in S) ==> forall it :: it in Closure(g, I) ==> it in S
  {
    CloseFromClosed(g, I, 0, {});
    forall S | Closed(g, S) && (forall it :: it in I ==> it in S)
      ensures forall it :: it in Closure(g, I) ==> it in S
    {
      CloseFromLeast(g, I, 0, {}, S);
    }
  }

  /** Every item past the first n starts a production that some item of J asks for. */
  ghost predicate Justified(g: Grammar, J: ItemSet, n: nat)
  {
    forall k :: n <= k < |J| ==> J[k].dot == 0 && exists it :: it in J && J[k].prod in After(g, it)
  }

  lemma {:induction false} CloseFromJustified(g: Grammar, J: ItemSet, i: nat, added: set<nat>, n: nat)
    requires i <= |J| && added <= Range(|g.prods|) && Justified(g, J, n)
    ensures Justified(g, CloseFrom(g, J, i, added), n)
    decreases |Range(|g.prods|) - added|, |J| - i
  {
    if i < |J| {
      hide NewItems, After, Justified;
      var f := NewItems(After(g, J[i]), added);
      Shrinks(g, J[i], added);
      if f == [] {
        CloseFromJustified(g, J, i + 1, added, n);
      } else {
        JustifiedMore(g, J, i, added, n);
        CloseFromJustified(g, J + f, i + 1, added + SetOf(After(g, J[i])), n);
      }
    }
  }

  /** What item i asks for is justified. */
  lemma JustifiedMore(g: Grammar, J: ItemSet, i: nat, added: set<nat>, n: nat)
    requires i < |J| && Justified(g, J, n)
    ensures Justified(g, J + NewItems(After(g, J[i]), added), n)
  {
    hide NewItems, After;
    var f := NewItems(After(g, J[i]), added);
    var J' := J + f;
    assert J'[i] == J[i] && J'[i] in J';
    forall k | n <= k < |J'|
      ensures J'[k].dot == 0 && exists it :: it in J' && J'[k].prod in After(g, it)
    {
      if k < |J| {
        var it :| it in J && J[k].prod in After(g, it);
        assert it in J';
      } else {
        assert J'[k] in f;
      }
    }
  }

  lemma {:induction false} NewItemsDistinct(ps: seq<nat>, added: set<nat>)
    ensures Distinct(NewItems(ps, added))
  {
    if ps != [] {
      NewItemsDistinct(ps[1..], added);
      NewItemsDistinct(ps[1..], added + {ps[0]});
    }
  }

  lemma DistinctMore(g: Grammar, J: ItemSet, ps: seq<nat>, added: set<nat>)
    requires Distinct(J) && forall p :: p in ps ==> p >= 1
    requires forall it :: it in J && it.dot == 0 && it.prod >= 1 ==> it.prod in added
    ensures Distinct(J + NewItems(ps, added))
    ensures forall it :: it in J + NewItems(ps, added) && it.dot == 0 && it.prod >= 1 ==> it.prod in added + SetOf(ps)
  {
    var n := NewItems(ps, added);
    NewItemsDistinct(ps, added);
    forall a, b | 0 <= a < b < |J + n|
      ensures (J + n)[a] != (J + n)[b]
    {
      if a < |J| <= b {
        assert J[a] in J && n[b - |J|] in n;
      }
    }
  }

  lemma {:induction false} CloseFromDistinct(g: Grammar, J: ItemSet, i: nat, added: set<nat>)
    requires i <= |J| && added <= Range(|g.prods|) && Distinct(J)
    requires forall it :: it in J && it.dot == 0 && it.prod >= 1 ==> it.prod in added
    ensures Distinct(CloseFrom(g, J, i, added))
    decreases |Range(|g.prods|) - added|, |J| - i
  {
    hide NewItems, Distinct;
    if i < |J| {
      var n := NewItems(After(g, J[i]), added);
      Shrinks(g, J[i], added);
      if n == [] {
        CloseFromDistinct(g, J, i + 1, added);
      } else {
        DistinctMore(g, J, After(g, J[i]), added);
        CloseFromDistinct(g, J + n, i + 1, added + SetOf(After(g, J[i])));
      }
    }
  }

  /** Append the productions of ps that were not appended before. */
  method AppendNew(ps: seq<nat>, J0: ItemSet, added0: set<nat>) returns (J: ItemSet, added: set<nat>, didadd: bool)
    ensures J == J0 + NewItems(ps, added0) && added == added0 + SetOf(ps)
    ensures didadd <==> NewItems(ps, added0) != []
  {
    hide NewItems;
    J, added, didadd := J0, added0, false;
    for k := 0 to |ps|
      invariant added == added0 + SetOf(ps[..k])
      invariant J + NewItems(ps[k..], added) == J0 + NewItems(ps, added0)
      invariant didadd <==> |J| > |J0|
      invariant |J| >= |J0|
    {
      NewItemsStep(ps, k, added, J);
      assert ps[..k + 1] == ps[..k] + [ps[k]];
      if ps[k] !in added {
        J := J + [Item(ps[k], 0)];
        added := added + {ps[k]};
        didadd := true;
      }
    }
    NewItemsEnd(ps[|ps|..], added);
    assert ps[..|ps|] == ps;
  }

  lemma NewItemsEnd(ps: seq<nat>, added: set<nat>)
    requires ps == []
    ensures NewItems(ps, added) == []
  {
  }

  lemma NewItemsStep(ps: seq<nat>, k: nat, added: set<nat>, out: ItemSet)
    requires k < |ps|
    ensures out + NewItems(ps[k..], added) ==
              if ps[k] in added then out + NewItems(ps[k + 1..], added)
              else out + [Item(ps[k], 0)] + NewItems(ps[k + 1..], added + {ps[k]})
  {
    assert ps[k..][1..] == ps[k + 1..];
    assert out + ([Item(ps[k], 0)] + NewItems(ps[k + 1..], added + {ps[k]})) ==
           out + [Item(ps[k], 0)] + NewItems(ps[k + 1..], added + {ps[k]});
  }

  lemma NothingNew(g: Grammar, J: ItemSet, i: nat, added: set<nat>)
    requires DoneBelow(g, J, |J|, added) && i < |J|
    ensures NewItems(After(g, J[i]), added) == []
  {
  }

  lemma NothingDone(g: Grammar, J: ItemSet)
    ensures DoneBelow(g, J, 0, {})
  {
  }

  /** The generator's loops compute the closure; their second pass adds nothing. */
  method Lr0Closure(g: Grammar, I: ItemSet) returns (J: ItemSet)
    ensures J == Closure(g, I)
  {
    J := I;
    var added: set<nat> := {};
    var didadd := true;
    ghost var first := true;
    NothingDone(g, J);
    hide CloseFrom, DoneBelow, NewItems, After, SetOf;
    while didadd
      invariant added <= Range(|g.prods|)
      invariant first ==> didadd && J == I && added == {} && DoneBelow(g, J, 0, added)
      invariant !first ==> J == Closure(g, I) && DoneBelow(g, J, |J|, added)
      decreases first, didadd
    {
      didadd := false;
      var i := 0;
      while i < |J|
        invariant i <= |J| && added <= Range(|g.prods|)
        invariant first ==> DoneBelow(g, J, i, added) && CloseFrom(g, J, i, added) == Closure(g, I)
        invariant !first ==> J == Closure(g, I) && DoneBelow(g, J, |J|, added) && !didadd
        decreases |Range(|g.prods|) - added|, |J| - i
      {
        CloseStep(g, J, i, added);
        if first {
          DoneStep(g, J, i, added);
        } else {
          NothingNew(g, J, i, added);
        }
        var more;
        J, added, more := AppendNew(After(g, J[i]), J, added);
        didadd := didadd || more;
        i := i + 1;
      }
      if first {
        DoneAll(g, J, added);
      }
      first := false;
    }
  }

  // ---------- Goto ----------

  /** The items of I that expect x, with the dot moved past it, in order. */
  function Kernel(g: Grammar, I: ItemSet, x: Symbol): (k: ItemSet)
    ensures forall it :: it in k <==> it.dot > 0 && Item(it.prod, it.dot - 1) in I && Expects(g, Item(it.prod, it.dot - 1), x)
  {
    if I == [] then []
    else (if Expects(g, I[0], x) then [Item(I[0].prod, I[0].dot + 1)] else []) + Kernel(g, I[1..], x)
  }

  function Goto(g: Grammar, I: ItemSet, x: Symbol): ItemSet
  {
    var k := Kernel(g, I, x);
    if k == [] then [] else Closure(g, k)
  }

  lemma {:induction false} KernelSnoc(g: Grammar, I: ItemSet, it: Item, x: Symbol)
    ensures Kernel(g, I + [it], x) == Kernel(g, I, x) + if Expects(g, it, x) then [Item(it.prod, it.dot + 1)] else []
  {
    if I == [] {
      assert I + [it] == [it] && [it][1..] == [];
    } else {
      assert (I + [it])[1..] == I[1..] + [it];
      KernelSnoc(g, I[1..], it, x);
    }
  }

  method Lr0Goto(g: Grammar, I: ItemSet, x: Symbol) returns (gs: ItemSet)
    ensures gs == Goto(g, I, x)
  {
    gs := [];
    for i := 0 to |I|
      invariant gs == Kernel(g, I[..i], x)
    {
      KernelSnoc(g, I[..i], I[i], x);
      assert I[..i + 1] == I[..i] + [I[i]];
      if Expects(g, I[i], x) {
        gs := gs + [Item(I[i].prod, I[i].dot + 1)];
      }
    }
    assert I[..|I|] == I;
    if gs != [] {
      gs := Lr0Closure(g, gs);
    }
  }

  /** A closure begins with the given items, and the others start productions that some item of it asks for. */
  lemma ClosureItems(g: Grammar, k: ItemSet)
    requires k != []
    ensures Closure(g, k) != [] && Closure(g, k)[0] == k[0] && forall it :: it in k ==> it in Closure(g, k)
    ensures forall it :: it in Closure(g, k) ==>
              it in k || (it.dot == 0 && exists j :: j in Closure(g, k) && it.prod in After(g, j))
  {
    hide After, CloseFrom;
    var J := Closure(g, k);
    ClosureLeast(g, k);
    CloseFromJustified(g, k, 0, {}, |k|);
    forall it | it in J
      ensures it in k || (it.dot == 0 && exists j :: j in J && it.prod in After(g, j))
    {
      var i :| 0 <= i < |J| && J[i] == it;
      if i < |k| {
        assert k[i] == it;
      }
    }
    forall it | it in k
      ensures it in J
    {
      var i :| 0 <= i < |k| && k[i] == it;
      assert J[i] == it;
    }
  }

  /** Each item of a goto set is a moved item, or starts a production another item of the set asks for. */
  lemma GotoItems(g: Grammar, I: ItemSet, x: Symbol)
    ensures forall it :: it in Goto(g, I, x) && it.dot > 0 ==>
              Item(it.prod, it.dot - 1) in I && Expects(g, Item(it.prod, it.dot - 1), x)
    ensures forall it :: it in Goto(g, I, x) && it.dot == 0 ==>
              exists j :: j in Goto(g, I, x) && it.prod in After(g, j)
    ensures Goto(g, I, x) != [] ==> Goto(g, I, x)[0].dot > 0
    ensures forall it :: it in I && Expects(g, it, x) ==> Item(it.prod, it.dot + 1) in Goto(g, I, x)
    ensures Goto(g, I, x) != [] <==> exists it :: it in I && Expects(g, it, x)
  {
    hide After, Closure, Expects;
    var k, J := Kernel(g, I, x), Goto(g, I, x);
    if k != [] {
      ClosureItems(g, k);
      assert k[0] in k;
      assert Item(k[0].prod, k[0].dot - 1) in I;
    }
    forall it | it in I && Expects(g, it, x)
      ensures Item(it.prod, it.dot + 1) in J
    {
      assert Item(it.prod, it.dot + 1) in k;
    }
  }

  lemma {:induction false} KernelDistinct(g: Grammar, I: ItemSet, x: Symbol)
    requires Distinct(I)
    ensures Distinct(Kernel(g, I, x))
  {
    if I != [] {
      KernelDistinct(g, I[1..], x);
      assert forall k :: 1 <= k < |I| ==> I[0] != I[k];
      assert I[0] !in I[1..];
    }
  }

  /** Items come from the grammar, without repetition. */
  ghost predicate StateOk(g: Grammar, I: ItemSet) { Distinct(I) && AllValid(g, I) }

  lemma ClosureOk(g: Grammar, k: ItemSet)
    requires StateOk(g, k)
    requires forall it :: it in k && it.dot == 0 ==> it.prod == 0
    ensures StateOk(g, Closure(g, k))
  {
    CloseFromDistinct(g, k, 0, {});
    ClosureValid(g, k);
  }

  lemma ClosureValid(g: Grammar, k: ItemSet)
    requires AllValid(g, k)
    ensures AllValid(g, Closure(g, k))
  {
    var S := iset it | ValidItem(g, it);
    assert Closed(g, S);
    CloseFromLeast(g, k, 0, {}, S);
  }

  lemma GotoOk(g: Grammar, I: ItemSet, x: Symbol)
    requires StateOk(g, I)
    ensures StateOk(g, Goto(g, I, x))
  {
    var k := Kernel(g, I, x);
    KernelDistinct(g, I, x);
    if k != [] {
      ClosureOk(g, k);
    }
  }
}
