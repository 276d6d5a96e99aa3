/** The identity graph: two searches in it, its construction, and the closure of the derivation relation. */
module Identity {
  import opened Common
  import opened Graphs

  datatype Id = Id(mod: string, name: string)

  /** The base statements of an identity; None is a base that was not found. */
  type Bases = Id -> seq<Option<Id>>

  function Known(bs: seq<Option<Id>>): (r: seq<Id>)
    ensures forall y :: y in r <==> Some(y) in bs
  {
    if bs == [] then [] else (if bs[0].Some? then [bs[0].value] else []) + Known(bs[1..])
  }

  /** The base graph. */
  function Graph(bases: Bases): Id -> seq<Id> { x => Known(bases(x)) }

  /** all is closed under bases. */
  ghost predicate Closed(bases: Bases, all: set<Id>) { forall x, y :: x in all && Some(y) in bases(x) ==> y in all }

  // ---------- Is one identity derived from another? ----------

  class VisitedList {
    var nodes: seq<Id>

    constructor ()
      ensures nodes == []
    {
      nodes := [];
    }
  }

  /** Nodes visited since then have been searched: none is b, and their bases have been visited. */
  ghost predicate Searched(bases: Bases, before: seq<Id>, after: seq<Id>, b: Id)
  {
    forall x :: x in after && x !in before ==> x != b && forall y :: Some(y) in bases(x) ==> y in after
  }

  /**
   The search with the shared visited list; None where the source fails on a base that was not found.
   Whenever it says no, what it has newly visited is closed under bases, with a, and free of b.
   */
  method IsDerivedFromOrSelf(bases: Bases, a: Id, b: Id, visited: VisitedList, ghost all: set<Id>) returns (r: Option<bool>)
    requires Closed(bases, all) && a in all && forall x :: x in visited.nodes ==> x in all
    modifies visited
    ensures old(visited.nodes) <= visited.nodes && forall x :: x in visited.nodes ==> x in all
    ensures r.Some? && r.value ==> Reach(Graph(bases), a, b)
    ensures r.Some? && !r.value ==> a != b && Searched(bases, old(visited.nodes), visited.nodes, b)
    ensures r.Some? && !r.value ==> forall y :: Some(y) in bases(a) ==> y in visited.nodes
    ensures r.None? ==> exists x :: Reach(Graph(bases), a, x) && None in bases(x)
    decreases all - set x | x in visited.nodes
  {
    if a == b {
      ReachSelf(Graph(bases), a);
      return Some(true);
    }
    var bs := bases(a);
    ghost var start := visited.nodes;
    for i := 0 to |bs|
      invariant start <= visited.nodes && forall x :: x in visited.nodes ==> x in all
      invariant Searched(bases, start, visited.nodes, b)
      invariant forall y :: Some(y) in bs[..i] ==> y in visited.nodes
    {
      assert bs[..i + 1] == bs[..i] + [bs[i]];
      if bs[i].None? {
        ReachSelf(Graph(bases), a);
        assert bs[i] in bs;
        return None;
      }
      var val := bs[i].value;
      assert Some(val) in bs;
      if val !in visited.nodes {
        ghost var before := visited.nodes;
        visited.nodes := visited.nodes + [val];
        ghost var middle := visited.nodes;
        VisitShrinks(all, before, val);
        r := IsDerivedFromOrSelf(bases, val, b, visited, all);
        ReachEdge(Graph(bases), a, val);
        PrefixMembers(middle, visited.nodes);
        if r.Some? && r.value {
          ReachTrans(Graph(bases), a, val, b);
          return;
        }
        if r.None? {
          ghost var x :| Reach(Graph(bases), val, x) && None in bases(x);
          ReachTrans(Graph(bases), a, val, x);
          return;
        }
        SearchedMore(bases, start, before, val, middle, visited.nodes, b);
      }
    }
    assert bs[..|bs|] == bs;
    r := Some(false);
  }

  lemma PrefixMembers(s: seq<Id>, t: seq<Id>)
    requires s <= t
    ensures forall x :: x in s ==> x in t
  {
    assert forall i :: 0 <= i < |s| ==> s[i] == t[i];
  }

  lemma VisitShrinks(all: set<Id>, nodes: seq<Id>, val: Id)
    requires val in all && val !in nodes
    ensures all - (set x | x in nodes + [val]) < all - set x | x in nodes
  {
    assert val in all - set x | x in nodes;
    assert val !in all - set x | x in nodes + [val];
  }

  lemma SearchedMore(bases: Bases, start: seq<Id>, before: seq<Id>, val: Id, middle: seq<Id>, after: seq<Id>, b: Id)
    requires start <= before && middle == before + [val] && middle <= after && val != b
    requires Searched(bases, start, before, b) && Searched(bases, middle, after, b)
    requires forall y :: Some(y) in bases(val) ==> y in after
    ensures Searched(bases, start, after, b)
  {
    forall x | x in after && x !in start
      ensures x != b && forall y :: Some(y) in bases(x) ==> y in after
    {
      if x in before {
        forall y | Some(y) in bases(x)
          ensures y in after
        {
          assert y in before;
          assert y in middle;
        }
      } else if x != val {
        assert x !in middle;
      }
    }
  }

  /** An identity is derived from another one iff its bases lead there. */
  method IsDerivedFrom(bases: Bases, a: Id, b: Id, ghost all: set<Id>) returns (r: Option<bool>)
    requires Closed(bases, all) && a in all
    ensures r.Some? ==> r.value == (a != b && Reach(Graph(bases), a, b))
    ensures r.None? ==> exists x :: Reach(Graph(bases), a, x) && None in bases(x)
  {
    if a == b {
      return Some(false);
    }
    var visited := new VisitedList();
    r := IsDerivedFromOrSelf(bases, a, b, visited, all);
    if r.Some? && !r.value {
      NotReached(bases, a, b, visited.nodes);
    }
  }

  lemma NotReached(bases: Bases, a: Id, b: Id, nodes: seq<Id>)
    requires Searched(bases, [], nodes, b) && a != b && forall y :: Some(y) in bases(a) ==> y in nodes
    ensures !Reach(Graph(bases), a, b)
  {
    var S := iset x | x in nodes || x == a;
    forall z, w | z in S && w in Graph(bases)(z)
      ensures w in S
    {
      assert Some(w) in bases(z);
    }
    ClosedReach(Graph(bases), S, a);
  }

  // ---------- Circular definitions ----------

  datatype Mark = InProgress | Validated

  /** A closed walk of at least one step through x. */
  ghost predicate OnCycle(R: Id -> seq<Id>, x: Id)
  {
    exists y :: y in R(x) && Reach(R, y, x)
  }

  /** order lists identities that were validated since then, each one after its bases. */
  ghost predicate Finished(R: Id -> seq<Id>, done: set<Id>, order: seq<Id>)
  {
    forall i, y :: 0 <= i < |order| && y in R(order[i]) ==> y in done || y in order[..i]
  }

  class Checker {
    const R: Id -> seq<Id>
    ghost const all: set<Id>
    ghost const done: set<Id>
    ghost const roots: set<Id>
    var marks: map<Id, Mark>
    var errors: seq<Id>
    ghost var order: seq<Id>

    constructor (graph: Id -> seq<Id>, validated: set<Id>, ghost every: set<Id>, ghost starts: set<Id>)
      requires validated <= every && (forall x, y :: x in every && y in graph(x) ==> y in every)
      requires forall x, y :: x in validated && y in graph(x) ==> y in validated
      ensures Valid([]) && R == graph && all == every && done == validated && roots == starts
      ensures marks == (map x | x in validated :: Validated) && errors == [] && order == []
    {
      R, all, done, roots := graph, every, validated, starts;
      marks := map x | x in validated :: Validated;
      errors, order := [], [];
    }

    predicate Black(x: Id)
      reads this`marks
    {
      x in marks && marks[x] == Validated
    }

    predicate Gray(x: Id)
      reads this`marks
    {
      x in marks && marks[x] == InProgress
    }

    /** A cycle that the run has to report: reachable from a start, and not among the identities validated before. */
    ghost predicate Circular()
    {
      exists s, x :: s in roots && Reach(R, s, x) && x !in done && OnCycle(R, x)
    }

    /** The identities in progress are a path of bases; without an error so far, the others are finished. */
    ghost predicate Valid(stack: seq<Id>)
      reads this
    {
      && (forall x, y :: x in all && y in R(x) ==> y in all)
      && (forall x, y :: x in done && y in R(x) ==> y in done)
      && marks.Keys <= all
      && (forall x :: Gray(x) <==> x in stack)
      && (stack != [] ==> Walk(R, stack) && stack[0] in roots)
      && (forall x :: x in done ==> Black(x))
      && (errors != [] ==> Circular())
      && (errors == [] ==> Finished(R, done, order) && forall x :: Black(x) <==> x in done || x in order)
    }

    /** An identity in progress is reported, a validated one is left alone; another one is validated with all its bases. */
    method VTypeIdentity(x: Id, ghost stack: seq<Id>)
      requires Valid(stack) && x in all
      requires if stack == [] then x in roots else x in R(stack[|stack| - 1])
      modifies this
      ensures Valid(stack) && old(errors) <= errors && old(marks.Keys) <= marks.Keys
      ensures old(Gray(x)) ==> errors == old(errors) + [x] && marks == old(marks)
      ensures old(Black(x)) ==> errors == old(errors) && marks == old(marks)
      ensures !old(Gray(x)) ==> Black(x)
      ensures forall y :: old(Black(y)) ==> Black(y)
      ensures errors == [] ==> Black(x)
      decreases all - marks.Keys
    {
      hide Valid, Circular;
      ValidGives(stack);
      if x in marks {
        if marks[x] == Validated {
          return;
        }
        Report(x, stack);
        return;
      }
      Enter(x, stack);
      ghost var path := stack + [x];
      var bs := R(x);
      for i := 0 to |bs|
        invariant Valid(path) && old(errors) <= errors && old(marks.Keys) + {x} <= marks.Keys
        invariant forall y :: old(Black(y)) ==> Black(y)
        invariant errors == [] ==> forall k :: 0 <= k < i ==> Black(bs[k])
      {
        VTypeIdentity(bs[i], path);
      }
      Leave(x, stack);
    }

    method Report(x: Id, ghost stack: seq<Id>)
      requires Valid(stack) && Gray(x)
      requires if stack == [] then x in roots else x in R(stack[|stack| - 1])
      modifies this`errors
      ensures Valid(stack) && errors == old(errors) + [x]
    {
      CycleOnStack(x, stack);
      errors := errors + [x];
    }

    lemma ValidGives(stack: seq<Id>)
      requires Valid(stack)
      ensures marks.Keys <= all && forall x, y :: x in all && y in R(x) ==> y in all
    {
    }

    method Enter(x: Id, ghost stack: seq<Id>)
      requires Valid(stack) && x in all && x !in marks
      requires if stack == [] then x in roots else x in R(stack[|stack| - 1])
      modifies this`marks
      ensures Valid(stack + [x]) && x !in stack && marks == old(marks)[x := InProgress]
    {
      assert x !in stack;
      marks := marks[x := InProgress];
      assert forall y :: y in stack + [x] <==> y in stack || y == x;
    }

    method Leave(x: Id, ghost stack: seq<Id>)
      requires Valid(stack + [x]) && x !in stack && (errors == [] ==> forall k :: 0 <= k < |R(x)| ==> Black(R(x)[k]))
      modifies this`marks, this`order
      ensures Valid(stack) && marks == old(marks)[x := Validated]
    {
      hide Finished, Circular, Reach, Connects;
      assert forall y :: y in stack + [x] <==> y in stack || y == x;
      assert x in stack + [x] && Gray(x);
      assert (stack + [x])[..|stack|] == stack;
      if errors == [] {
        FinishedOneMore(x);
      }
      marks := marks[x := Validated];
      order := order + [x];
    }

    lemma FinishedOneMore(x: Id)
      requires Finished(R, done, order) && forall y :: y in R(x) ==> y in done || y in order
      ensures Finished(R, done, order + [x])
    {
      var more := order + [x];
      forall i, y | 0 <= i < |more| && y in R(more[i])
        ensures y in done || y in more[..i]
      {
        assert more[..i] == order[..i];
        assert i < |order| ==> more[i] == order[i];
        assert order[..|order|] == order;
      }
    }

    /** Meeting an identity in progress closes a cycle. */
    lemma CycleOnStack(x: Id, stack: seq<Id>)
      requires Valid(stack) && Gray(x) && stack != [] && x in R(stack[|stack| - 1])
      ensures Circular()
    {
      var i :| 0 <= i < |stack| && stack[i] == x;
      assert Connects(R, stack[..i + 1], stack[0], x);
      var last := stack[|stack| - 1];
      ReachEdge(R, last, x);
      if i + 1 < |stack| {
        assert Connects(R, stack[i + 1..], stack[i + 1], last);
        ReachTrans(R, stack[i + 1], last, x);
        assert stack[i + 1] in R(x) && Reach(R, stack[i + 1], x);
      } else {
        ReachSelf(R, x);
        assert x in R(x) && Reach(R, x, x);
      }
      assert stack[0] in roots && Reach(R, stack[0], x) && x !in done && OnCycle(R, x);
    }

    lemma {:induction false} FirstPlace(x: Id, s: seq<Id>) returns (i: nat)
      requires x in s
      ensures i < |s| && s[i] == x && x !in s[..i]
    {
      if s[0] == x {
        i := 0;
      } else {
        var j := FirstPlace(x, s[1..]);
        i := j + 1;
        assert s[..i] == [s[0]] + s[1..][..j];
      }
    }

    /** Identities that were finished one after the other have no cycle. */
    lemma FinishedIsAcyclic()
      requires Valid([]) && errors == [] && forall s :: s in roots ==> Black(s)
      ensures !Circular()
    {
      if Circular() {
        var s, x :| s in roots && Reach(R, s, x) && x !in done && OnCycle(R, x);
        var S := iset z | z in done || z in order;
        assert forall z, w :: z in S && w in R(z) ==> w in S by {
          forall z, w | z in S && w in R(z)
            ensures w in S
          {
            if z !in done {
              var k :| 0 <= k < |order| && order[k] == z;
              assert w in done || w in order[..k];
            }
          }
        }
        ClosedReach(R, S, s);
        var i := FirstPlace(x, order);
        var T := iset z | z in done || z in order[..i];
        assert forall z, w :: z in T && w in R(z) ==> w in T by {
          forall z, w | z in T && w in R(z)
            ensures w in T
          {
            if z !in done {
              var k :| 0 <= k < i && order[k] == z;
              assert w in done || w in order[..k];
              assert order[..k] <= order[..i];
            }
          }
        }
        var y :| y in R(x) && Reach(R, y, x);
        assert y in done || y in order[..i];
        ClosedReach(R, T, y);
      }
    }

    /** All identities of a module, in any order: an error is reported iff there is a cycle to report. */
    method ValidateAll(ids: seq<Id>)
      requires Valid([]) && errors == [] && order == [] && roots <= all && forall x :: x in ids <==> x in roots
      modifies this
      ensures errors != [] <==> Circular()
    {
      hide Circular;
      for i := 0 to |ids|
        invariant Valid([])
        invariant errors == [] ==> forall k :: 0 <= k < i ==> Black(ids[k])
      {
        assert ids[i] in ids;
        VTypeIdentity(ids[i], []);
      }
      if errors == [] {
        FinishedIsAcyclic();
      }
    }
  }

  // ---------- Building the graph ----------

  function At(m: map<Id, seq<Id>>, x: Id): seq<Id> { if x in m then m[x] else [] }

  /** How often y stands at x. */
  function Count(m: map<Id, seq<Id>>, x: Id, y: Id): nat { multiset(At(m, x))[y] }

  lemma CountAppend(m: map<Id, seq<Id>>, k: Id, v: Id, x: Id, y: Id)
    ensures Count(m[k := At(m, k) + [v]], x, y) == Count(m, x, y) + if x == k && y == v then 1 else 0
  {
  }

  /** Bases rank below what is derived from them, so that there is no cycle. */
  ghost predicate Ranked(R: Id -> seq<Id>, rank: Id -> nat) { forall x, y :: y in R(x) ==> rank(y) < rank(x) }

  class Builder {
    const R: Id -> seq<Id>
    var identities: set<Id>
    var base: map<Id, seq<Id>>
    var derived: map<Id, seq<Id>>

    constructor (graph: Id -> seq<Id>)
      ensures R == graph && identities == {} && base == map[] && derived == map[]
    {
      R, identities, base, derived := graph, {}, map[], map[];
    }

    /** base and derived are mutually inverse: y stands among the bases of x as often as x among the derived of y. */
    ghost predicate Inverse()
      reads this`base, this`derived
    {
      forall x, y :: Count(base, x, y) == Count(derived, y, x)
    }

    /** Registered identities have all their bases, which are registered too. */
    ghost predicate Complete()
      reads this`identities, this`base
    {
      forall x :: x in identities ==> At(base, x) == R(x) && forall y :: y in R(x) ==> y in identities
    }

    /** The links between an identity and one of its bases, in both directions. */
    method Link(child: Id, b: Id)
      requires Inverse() && Complete() && child !in identities
      modifies this`base, this`derived
      ensures Inverse() && Complete() && At(base, child) == old(At(base, child)) + [b]
      ensures forall x :: x != child ==> At(base, x) == old(At(base, x))
    {
      hide Count;
      ghost var oldBase, oldDerived := base, derived;
      base := base[child := At(base, child) + [b]];
      derived := derived[b := At(derived, b) + [child]];
      forall x, y
        ensures Count(base, x, y) == Count(derived, y, x)
      {
        assert Count(oldBase, x, y) == Count(oldDerived, y, x);
        CountAppend(oldBase, child, b, x, y);
        CountAppend(oldDerived, b, child, y, x);
      }
    }

    /** One base statement of x: its identity is made, and linked. */
    method AddBase(x: Id, b: Id, ghost rank: Id -> nat)
      requires Inverse() && Complete() && Ranked(R, rank) && x !in identities && rank(b) < rank(x)
      requires forall y :: y !in identities && rank(y) <= rank(b) ==> At(base, y) == []
      modifies this
      ensures Inverse() && Complete() && b in identities && old(identities) <= identities && x !in identities
      ensures At(base, x) == old(At(base, x)) + [b]
      ensures forall y :: y != x && (y !in identities || rank(y) >= rank(x)) ==>
                At(base, y) == old(At(base, y)) && (y in identities ==> y in old(identities))
      decreases rank(x), 0
    {
      hide Inverse, Complete, At, Ranked;
      InterpretIdentity(b, rank);
      Link(x, b);
    }

    /** An identity is made once, after its bases. */
    method InterpretIdentity(x: Id, ghost rank: Id -> nat)
      requires Inverse() && Complete() && Ranked(R, rank)
      requires forall y :: y !in identities && rank(y) <= rank(x) ==> At(base, y) == []
      modifies this
      ensures Inverse() && Complete() && x in identities && old(identities) <= identities
      ensures forall y :: y !in identities || rank(y) > rank(x) ==>
                At(base, y) == old(At(base, y)) && (y in identities ==> y in old(identities))
      decreases rank(x), 1
    {
      hide Inverse, Complete, At;
      if x in identities {
        return;
      }
      var bs := R(x);
      for i := 0 to |bs|
        invariant Inverse() && Complete() && old(identities) <= identities && x !in identities
        invariant At(base, x) == bs[..i]
        invariant forall k :: 0 <= k < i ==> bs[k] in identities
        invariant forall y :: y != x && (y !in identities || rank(y) >= rank(x)) ==>
                    At(base, y) == old(At(base, y)) && (y in identities ==> y in old(identities))
      {
        assert bs[..i + 1] == bs[..i] + [bs[i]];
        AddBase(x, bs[i], rank);
      }
      assert bs[..|bs|] == bs;
      Register(x);
    }

    method Register(x: Id)
      requires Complete() && At(base, x) == R(x) && forall k :: 0 <= k < |R(x)| ==> R(x)[k] in identities
      modifies this`identities
      ensures Complete() && identities == old(identities) + {x}
    {
      hide At;
      identities := identities + {x};
    }

    /** All identities of all modules, in any order. */
    method InterpretAll(ids: seq<Id>, ghost rank: Id -> nat)
      requires identities == {} && base == map[] && derived == map[] && Ranked(R, rank)
      modifies this
      ensures Inverse() && Complete() && (forall x :: x in ids ==> x in identities)
      ensures Built(R, identities, base, derived)
    {
      hide Ranked;
      for i := 0 to |ids|
        invariant Inverse() && Complete() && forall k :: 0 <= k < i ==> ids[k] in identities
        invariant forall x :: x !in identities ==> At(base, x) == []
      {
        InterpretIdentity(ids[i], rank);
      }
    }
  }

  // ---------- The closure of the derivation relation ----------

  /** Everything registered is derived from below its rank. */
  ghost predicate Built(R: Id -> seq<Id>, K: set<Id>, base: map<Id, seq<Id>>, derived: map<Id, seq<Id>>)
  {
    && (forall x, y :: Count(base, x, y) == Count(derived, y, x))
    && (forall x :: At(base, x) == if x in K then R(x) else [])
    && (forall x, y :: x in K && y in R(x) ==> y in K)
  }

  lemma DerivedIs(R: Id -> seq<Id>, K: set<Id>, base: map<Id, seq<Id>>, derived: map<Id, seq<Id>>, x: Id, y: Id)
    requires Built(R, K, base, derived)
    ensures x in At(derived, y) <==> x in K && y in R(x)
  {
    assert Count(base, x, y) == Count(derived, y, x);
    CountIsMembership(base, x, y);
    CountIsMembership(derived, y, x);
  }

  lemma CountIsMembership(m: map<Id, seq<Id>>, x: Id, y: Id)
    ensures Count(m, x, y) > 0 <==> y in At(m, x)
  {
  }

  ghost predicate Climbs(derived: map<Id, seq<Id>>, rank: Id -> nat, bound: nat)
  {
    forall x, y :: x in At(derived, y) ==> rank(y) < rank(x) <= bound
  }

  /** derived_from: the derived identities, and what is derived from each of them. */
  ghost function DerivedFrom(derived: map<Id, seq<Id>>, rank: Id -> nat, bound: nat, y: Id): seq<Id>
    requires Climbs(derived, rank, bound)
    decreases bound - rank(y), 1, 0
  {
    At(derived, y) + FlatMap(derived, rank, bound, y, At(derived, y))
  }

  ghost function FlatMap(derived: map<Id, seq<Id>>, rank: Id -> nat, bound: nat, y: Id, xs: seq<Id>): seq<Id>
    requires Climbs(derived, rank, bound) && forall x :: x in xs ==> rank(y) < rank(x) <= bound
    decreases bound - rank(y), 0, |xs|
  {
    if xs == [] then [] else
      assert xs[0] in xs;
      DerivedFrom(derived, rank, bound, xs[0]) + FlatMap(derived, rank, bound, y, xs[1..])
  }

  lemma {:induction false} FlatMapIs(derived: map<Id, seq<Id>>, rank: Id -> nat, bound: nat, y: Id, xs: seq<Id>, x: Id)
    requires Climbs(derived, rank, bound) && forall x :: x in xs ==> rank(y) < rank(x) <= bound
    ensures x in FlatMap(derived, rank, bound, y, xs) <==> exists d :: d in xs && x in DerivedFrom(derived, rank, bound, d)
    decreases |xs|
  {
    hide DerivedFrom, Climbs;
    if xs != [] {
      assert xs[0] in xs;
      FlatMapIs(derived, rank, bound, y, xs[1..], x);
      assert forall d :: d in xs <==> d == xs[0] || d in xs[1..];
    }
  }

  lemma RankFalls(R: Id -> seq<Id>, rank: Id -> nat, x: Id, y: Id)
    requires Ranked(R, rank) && Reach(R, x, y)
    ensures rank(y) <= rank(x)
  {
    var p :| Connects(R, p, x, y);
    WalkFalls(R, rank, p);
  }

  lemma {:induction false} WalkFalls(R: Id -> seq<Id>, rank: Id -> nat, p: seq<Id>)
    requires Ranked(R, rank) && Walk(R, p)
    ensures rank(p[|p| - 1]) <= rank(p[0])
  {
    if |p| > 1 {
      WalkFalls(R, rank, p[1..]);
    }
  }

  lemma LastStep(R: Id -> seq<Id>, x: Id, y: Id) returns (d: Id)
    requires Reach(R, x, y) && x != y
    ensures Reach(R, x, d) && y in R(d)
  {
    var p :| Connects(R, p, x, y);
    d := p[|p| - 2];
    assert Connects(R, p[..|p| - 1], x, d);
  }

  /** On a graph without cycles derived_from lists exactly the other identities whose bases lead there. */
  lemma {:induction false} DerivedFromIsClosure(R: Id -> seq<Id>, K: set<Id>, base: map<Id, seq<Id>>,
                                                derived: map<Id, seq<Id>>,
                                                rank: Id -> nat, bound: nat, x: Id, y: Id)
    requires Built(R, K, base, derived) && Ranked(R, rank) && Climbs(derived, rank, bound)
    ensures x in DerivedFrom(derived, rank, bound, y) <==> x in K && x != y && Reach(R, x, y)
    decreases bound - rank(y)
  {
    hide Built, Climbs, Ranked, Reach, FlatMap;
    var ds := At(derived, y);
    ClimbsAt(derived, rank, bound, y);
    FlatMapIs(derived, rank, bound, y, ds, x);
    forall d | d in ds
      ensures x in DerivedFrom(derived, rank, bound, d) <==> x in K && x != d && Reach(R, x, d)
      ensures d in K && y in R(d) && Reach(R, x, d) ==> Reach(R, x, y) && x != y
    {
      DerivedIs(R, K, base, derived, d, y);
      DerivedFromIsClosure(R, K, base, derived, rank, bound, x, d);
      ReachEdge(R, d, y);
      if Reach(R, x, d) {
        ReachTrans(R, x, d, y);
        RankFalls(R, rank, x, d);
      }
    }
    if x in ds {
      DerivedIs(R, K, base, derived, x, y);
      ReachSelf(R, x);
    }
    if x in K && x != y && Reach(R, x, y) {
      var d := LastStep(R, x, y);
      InK(R, K, base, derived, x, d);
      DerivedIs(R, K, base, derived, d, y);
    }
    forall d | d in ds
      ensures d in K && y in R(d)
    {
      DerivedIs(R, K, base, derived, d, y);
    }
  }

  lemma BuiltIsClosed(bases: Bases, K: set<Id>, base: map<Id, seq<Id>>, derived: map<Id, seq<Id>>)
    requires Built(Graph(bases), K, base, derived)
    ensures Closed(bases, K)
  {
  }

  /** What was built over ranked bases climbs in rank, so that the recursion of derived_from ends. */
  lemma BuiltClimbs(R: Id -> seq<Id>, K: set<Id>, base: map<Id, seq<Id>>, derived: map<Id, seq<Id>>, rank: Id -> nat,
                    bound: nat)
    requires Built(R, K, base, derived) && Ranked(R, rank) && forall x :: x in K ==> rank(x) <= bound
    ensures Climbs(derived, rank, bound)
  {
    hide Built;
    forall x, y | x in At(derived, y)
      ensures rank(y) < rank(x) <= bound
    {
      DerivedIs(R, K, base, derived, x, y);
    }
  }

  lemma ClimbsAt(derived: map<Id, seq<Id>>, rank: Id -> nat, bound: nat, y: Id)
    requires Climbs(derived, rank, bound)
    ensures forall x :: x in At(derived, y) ==> rank(y) < rank(x) <= bound
  {
  }

  lemma InK(R: Id -> seq<Id>, K: set<Id>, base: map<Id, seq<Id>>, derived: map<Id, seq<Id>>, x: Id, y: Id)
    requires Built(R, K, base, derived) && x in K && Reach(R, x, y)
    ensures y in K
  {
    ClosedReach(R, (iset z | z in K), x);
  }

  lemma BiggestRank(K: set<Id>, rank: Id -> nat) returns (bound: nat)
    ensures forall x :: x in K ==> rank(x) <= bound
  {
    if K == {} {
      bound := 0;
    } else {
      var x :| x in K;
      var rest := BiggestRank(K - {x}, rank);
      bound := if rest < rank(x) then rank(x) else rest;
      assert forall y :: y in K ==> y == x || y in K - {x};
    }
  }

  /**
   The two programs agree: over bases without a cycle, once all identities are interpreted, is_derived_from answers
   whether derived_from of what was built lists the identity.
   */
  method Agreement(h: Builder, bases: Bases, ids: seq<Id>, a: Id, b: Id, ghost rank: Id -> nat)
    returns (r: Option<bool>, ghost bound: nat)
    requires h.R == Graph(bases) && h.identities == {} && h.base == map[] && h.derived == map[]
    requires Ranked(Graph(bases), rank) && a in ids
    modifies h
    ensures Built(Graph(bases), h.identities, h.base, h.derived) && Climbs(h.derived, rank, bound)
    ensures r.Some? ==> (r.value <==> a in DerivedFrom(h.derived, rank, bound, b))
    ensures r.None? ==> exists x :: Reach(Graph(bases), a, x) && None in bases(x)
  {
    hide Ranked, Climbs, Reach, DerivedFrom, Built;
    h.InterpretAll(ids, rank);
    bound := BiggestRank(h.identities, rank);
    BuiltClimbs(Graph(bases), h.identities, h.base, h.derived, rank, bound);
    BuiltIsClosed(bases, h.identities, h.base, h.derived);
    r := IsDerivedFrom(bases, a, b, h.identities);
    DerivedFromIsClosure(Graph(bases), h.identities, h.base, h.derived, rank, bound, a, b);
  }
}
