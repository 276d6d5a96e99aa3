/** Context-free grammars as the table generator holds them, and derivations in them. */
module Grammars {

  type Symbol = string

  const EMPTY: Symbol := "<empty>"
  const END: Symbol := "$end"
  const START: Symbol := "S'"

  datatype Assoc = Left | Right | Nonassoc

  datatype Prec = Prec(assoc: Assoc, level: int)

  datatype Production = Production(name: Symbol, rhs: seq<Symbol>, prec: Prec, line: int)

  /** Production 0 is the augmented start rule; terminals and nonterminals are dictionary keys in order. */
  datatype Grammar = Grammar(prods: seq<Production>, terminals: seq<Symbol>, nonterminals: seq<Symbol>)
  {
    ghost predicate Wf()
    {
      && |prods| >= 1 && prods[0].name == START
      && |prods[0].rhs| == 1 && prods[0].rhs[0] in nonterminals
      && (forall p :: 1 <= p < |prods| ==> prods[p].name in nonterminals)
      && (forall p, s :: 0 <= p < |prods| && s in prods[p].rhs ==> s in terminals || s in nonterminals)
      && (forall s :: s in terminals ==> s !in nonterminals)
      && (forall s :: s in terminals || s in nonterminals ==> s != EMPTY && s != END && s != START)
    }

    /** p is a production of nonterminal n (production 0 is not among Prodnames). */
    predicate IsProd(p: nat, n: Symbol) { 1 <= p < |prods| && prods[p].name == n }

    /** Prodnames[n]: the productions of n, in order. */
    function Prodnames(n: Symbol): (ps: seq<nat>)
      ensures forall p: nat :: p in ps <==> IsProd(p, n)
      ensures forall i, j :: 0 <= i < j < |ps| ==> ps[i] < ps[j]
    {
      ProdsBelow(n, |prods|)
    }

    function ProdsBelow(n: Symbol, k: nat): (ps: seq<nat>)
      requires k <= |prods|
      ensures forall p: nat :: p in ps <==> p < k && IsProd(p, n)
      ensures forall i :: 0 <= i < |ps| ==> ps[i] < k
      ensures forall i, j :: 0 <= i < j < |ps| ==> ps[i] < ps[j]
    {
      if k == 0 then []
      else if IsProd(k - 1, n) then ProdsBelow(n, k - 1) + [k - 1]
      else ProdsBelow(n, k - 1)
    }

    /** Rewriting the symbol at position i of a by production p. */
    predicate CanRewrite(a: seq<Symbol>, i: nat, p: nat) { i < |a| && IsProd(p, a[i]) }

    function Rewrite(a: seq<Symbol>, i: nat, p: nat): seq<Symbol>
      requires CanRewrite(a, i, p)
    {
      a[..i] + prods[p].rhs + a[i + 1..]
    }

    ghost predicate Step(a: seq<Symbol>, b: seq<Symbol>)
    {
      exists i: nat, p: nat :: CanRewrite(a, i, p) && b == Rewrite(a, i, p)
    }

    /** b is derived from a in exactly n rewrites. */
    ghost predicate DerivesIn(a: seq<Symbol>, b: seq<Symbol>, n: nat)
      decreases n
    {
      if n == 0 then a == b else exists c :: Step(a, c) && DerivesIn(c, b, n - 1)
    }

    ghost predicate Derives(a: seq<Symbol>, b: seq<Symbol>)
    {
      exists n: nat :: DerivesIn(a, b, n)
    }

    lemma DerivesSelf(a: seq<Symbol>)
      ensures Derives(a, a)
    {
      assert DerivesIn(a, a, 0);
    }

    lemma DerivesRule(p: nat)
      requires 1 <= p < |prods|
      ensures Derives([prods[p].name], prods[p].rhs)
    {
      var a, b := [prods[p].name], prods[p].rhs;
      assert CanRewrite(a, 0, p) && Rewrite(a, 0, p) == b;
      assert Step(a, b) && DerivesIn(b, b, 0);
      assert DerivesIn(a, b, 1);
    }

    lemma {:induction false} DerivesInTrans(a: seq<Symbol>, b: seq<Symbol>, c: seq<Symbol>, m: nat, n: nat)
      requires DerivesIn(a, b, m) && DerivesIn(b, c, n)
      ensures DerivesIn(a, c, m + n)
      decreases m
    {
      if m > 0 {
        var d :| Step(a, d) && DerivesIn(d, b, m - 1);
        DerivesInTrans(d, b, c, m - 1, n);
      }
    }

    lemma DerivesTrans(a: seq<Symbol>, b: seq<Symbol>, c: seq<Symbol>)
      requires Derives(a, b) && Derives(b, c)
      ensures Derives(a, c)
    {
      var m: nat :| DerivesIn(a, b, m);
      var n: nat :| DerivesIn(b, c, n);
      DerivesInTrans(a, b, c, m, n);
    }

    lemma StepContext(u: seq<Symbol>, a: seq<Symbol>, b: seq<Symbol>, v: seq<Symbol>)
      requires Step(a, b)
      ensures Step(u + a + v, u + b + v)
    {
      var i: nat, p: nat :| CanRewrite(a, i, p) && b == Rewrite(a, i, p);
      var a' := u + a + v;
      assert a'[|u| + i] == a[i] && a'[..|u| + i] == u + a[..i] && a'[|u| + i + 1..] == a[i + 1..] + v;
      assert CanRewrite(a', |u| + i, p) && u + b + v == Rewrite(a', |u| + i, p);
    }

    lemma {:induction false} DerivesInContext(u: seq<Symbol>, a: seq<Symbol>, b: seq<Symbol>, v: seq<Symbol>, n: nat)
      requires DerivesIn(a, b, n)
      ensures DerivesIn(u + a + v, u + b + v, n)
      decreases n
    {
      if n > 0 {
        var c :| Step(a, c) && DerivesIn(c, b, n - 1);
        DerivesInContext(u, c, b, v, n - 1);
        StepContext(u, a, c, v);
      }
    }

    /** A derivation can take place anywhere inside a longer form. */
    lemma DerivesContext(u: seq<Symbol>, a: seq<Symbol>, b: seq<Symbol>, v: seq<Symbol>)
      requires Derives(a, b)
      ensures Derives(u + a + v, u + b + v)
    {
      var n: nat :| DerivesIn(a, b, n);
      DerivesInContext(u, a, b, v, n);
    }

    lemma DerivesConcat(a: seq<Symbol>, b: seq<Symbol>, c: seq<Symbol>, d: seq<Symbol>)
      requires Derives(a, b) && Derives(c, d)
      ensures Derives(a + c, b + d)
    {
      DerivesContext([], a, b, c);
      DerivesContext(b, c, d, []);
      assert [] + a + c == a + c && [] + b + c == b + c && b + c + [] == b + c && b + d + [] == b + d;
      DerivesTrans(a + c, b + c, b + d);
    }
  }
}
