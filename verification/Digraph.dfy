/**
 The set-valued closure F(x) = F'(x) + union of F(y) over x R y, computed in one
 depth-first pass: a strongly connected component is popped off the stack when its
 root finishes and its members then share the root's set.
 */
module Digraph {
  import opened Common
  import opened Graphs

  /** The depth recorded for a node whose component is finished (sys.maxsize). */
  const MAXINT: int := 0x7FFF_FFFF_FFFF_FFFF

  /** a belongs to the smallest solution at x. */
  ghost predicate InSolution<Node(!new), A(!new)>(R: Node -> seq<Node>, FP: Node -> seq<A>, x: Node, a: A)
  {
    exists y :: Reach(R, x, y) && a in FP(y)
  }

  ghost predicate Sound<Node(!new), A(!new)>(R: Node -> seq<Node>, FP: Node -> seq<A>, x: Node, f: seq<A>)
  {
    forall a :: a in f ==> InSolution(R, FP, x, a)
  }

  ghost predicate Exact<Node(!new), A(!new)>(R: Node -> seq<Node>, FP: Node -> seq<A>, x: Node, f: seq<A>)
  {
    forall a :: a in f <==> InSolution(R, FP, x, a)
  }

  ghost predicate Subset<A(!new)>(f: seq<A>, g: seq<A>) { forall a :: a in f ==> a in g }

  lemma SolutionFollowsReach<Node(!new), A(!new)>(R: Node -> seq<Node>, FP: Node -> seq<A>, x: Node, y: Node)
    requires Reach(R, x, y)
    ensures forall a :: InSolution(R, FP, y, a) ==> InSolution(R, FP, x, a)
  {
    forall a | InSolution(R, FP, y, a)
      ensures InSolution(R, FP, x, a)
    {
      var z :| Reach(R, y, z) && a in FP(z);
      ReachTrans(R, x, y, z);
    }
  }

  /** The three dictionaries and the stack of one run, with its parameters. */
  datatype State<!Node(!new), !A(!new)> = State(N: map<Node, int>, stack: seq<Node>, F: map<Node, seq<A>>)
  {
    ghost predicate Visited(x: Node) { x in N && N[x] != 0 }

    ghost function Unvisited(): set<Node> { set x | x in N && N[x] == 0 }

    ghost predicate Done(x: Node) { Visited(x) && x !in stack }

    /** The stack holds distinct nodes, each with a depth no deeper than its position. */
    ghost predicate Shape(X: set<Node>, R: Node -> seq<Node>)
    {
      && (forall x, y :: x in X && y in R(x) ==> y in X)
      && N.Keys == X
      && (forall x :: x in F <==> Visited(x))
      && (forall i, j :: 0 <= i < j < |stack| ==> stack[i] != stack[j])
      && (forall i :: 0 <= i < |stack| ==> stack[i] in X && 1 <= N[stack[i]] <= i + 1)
      && (forall x :: Done(x) ==> N[x] == MAXINT)
      && (forall x, y :: Done(x) && y in R(x) ==> Done(y))
    }

    /** Sets never hold too much, start from FP on the stack, and are exact off it. */
    ghost predicate Sets(R: Node -> seq<Node>, FP: Node -> seq<A>)
    {
      && (forall x :: x in F ==> Sound(R, FP, x, F[x]))
      && (forall x :: x in F && x in stack ==> Subset(FP(x), F[x]))
      && (forall x :: x in F && Done(x) ==> Exact(R, FP, x, F[x]))
    }

    ghost predicate Lows(R: Node -> seq<Node>)
    {
      forall x :: x in stack ==> LowReached(R, x)
    }

    ghost predicate Inv(X: set<Node>, R: Node -> seq<Node>, FP: Node -> seq<A>)
    {
      Shape(X, R) && Sets(R, FP) && Lows(R)
    }

    /** x reaches a stack node at least as deep as the depth recorded for x. */
    ghost predicate LowReached(R: Node -> seq<Node>, x: Node)
    {
      x in N && exists k :: 0 <= k < N[x] && k < |stack| && Reach(R, x, stack[k])
    }

    /** An edge into w needs no more work for the stack segment from position d up. */
    ghost predicate Covered(w: Node, d: nat, low: int, f: seq<A>)
      requires d <= |stack|
    {
      || w in stack[d..]
      || (exists k :: 0 <= k < d && stack[k] == w && low <= k + 1)
      || (Done(w) && w in F && Subset(F[w], f))
    }

    /** Nothing that was on the stack or finished in this state has changed in t. */
    ghost predicate KeptBy(t: State<Node, A>)
    {
      && t.N.Keys == N.Keys
      && stack <= t.stack
      && (forall x :: Visited(x) ==> t.Visited(x) && t.N[x] == N[x] && x in F && x in t.F && t.F[x] == F[x])
      && (forall x :: Done(x) ==> t.Done(x))
      && (forall x :: x in t.stack && Visited(x) ==> x in stack)
    }
  }

  /** x, at stack position d, is being traversed and the first j of its edges are handled. */
  ghost predicate Active<Node(!new), A(!new)>(s: State<Node, A>, R: Node -> seq<Node>, x: Node, d: nat, j: nat)
  {
    && d < |s.stack| && s.stack[d] == x && x in s.F && x in s.N && j <= |R(x)|
    && 1 <= s.N[x] <= d + 1
    && (forall k :: 0 <= k < |s.stack| ==> Reach(R, s.stack[k], x))
    && (forall i :: d <= i < |s.stack| ==>
          Reach(R, x, s.stack[i]) && s.stack[i] in s.F && Subset(s.F[s.stack[i]], s.F[x]))
    && (forall i, w :: d < i < |s.stack| && w in R(s.stack[i]) ==> s.Covered(w, d, s.N[x], s.F[x]))
    && (forall k :: 0 <= k < j ==> s.Covered(R(x)[k], d, s.N[x], s.F[x]))
  }

  /** The call on x has returned with x still on the stack, in the component of a node below d. */
  ghost predicate Pending<Node(!new), A(!new)>(s: State<Node, A>, R: Node -> seq<Node>, x: Node, d: nat)
  {
    Active(s, R, x, d, |R(x)|) && s.N[x] <= d
  }

  lemma StackFits<Node(!new)>(stack: seq<Node>, X: set<Node>)
    requires forall i, j :: 0 <= i < j < |stack| ==> stack[i] != stack[j]
    requires forall i :: 0 <= i < |stack| ==> stack[i] in X
    ensures |stack| <= |X|
  {
    if stack != [] {
      var n := |stack| - 1;
      StackFits(stack[..n], X - {stack[n]});
    }
  }

  /** Pushing an unvisited node with its own depth and a fresh copy of FP(x). */
  lemma PushStep<Node(!new), A(!new)>(s: State<Node, A>, t: State<Node, A>, X: set<Node>,
                                      R: Node -> seq<Node>, FP: Node -> seq<A>, x: Node)
    requires s.Inv(X, R, FP) && x in X && !s.Visited(x)
    requires t == State(s.N[x := |s.stack| + 1], s.stack + [x], s.F[x := FP(x)])
    ensures t.Inv(X, R, FP) && s.KeptBy(t)
  {
    hide Sound, Exact, Subset, Reach;
    ReachSelf(R, x);
    assert t.stack[|s.stack|] == x;
    assert forall z :: z in t.stack <==> z in s.stack || z == x;
    assert forall z :: t.Done(z) <==> s.Done(z);
    PushShape(s, t, X, R, x);
    PushSets(s, t, R, FP, x);
    PushLows(s, t, R, x);
  }

  lemma PushShape<Node(!new), A(!new)>(s: State<Node, A>, t: State<Node, A>, X: set<Node>, R: Node -> seq<Node>, x: Node)
    requires s.Shape(X, R) && x in X && !s.Visited(x) && t.stack == s.stack + [x]
    requires t.N == s.N[x := |s.stack| + 1] && t.F.Keys == s.F.Keys + {x} && forall z :: t.Done(z) <==> s.Done(z)
    ensures t.Shape(X, R)
  {
    assert t.stack[|s.stack|] == x;
  }

  lemma PushSets<Node(!new), A(!new)>(s: State<Node, A>, t: State<Node, A>, R: Node -> seq<Node>, FP: Node -> seq<A>,
                                      x: Node)
    requires s.Sets(R, FP) && Reach(R, x, x) && t.stack == s.stack + [x] && t.F == s.F[x := FP(x)]
    requires forall z :: t.Done(z) <==> s.Done(z)
    ensures t.Sets(R, FP)
  {
    assert t.stack[|s.stack|] == x;
    assert Sound(R, FP, x, FP(x));
  }

  lemma PushActive<Node(!new), A(!new)>(s: State<Node, A>, t: State<Node, A>, R: Node -> seq<Node>, x: Node)
    requires forall z :: z in s.stack ==> Reach(R, z, x)
    requires t.stack == s.stack + [x] && x in t.N && t.N[x] == |s.stack| + 1 && x in t.F
    ensures Active(t, R, x, |s.stack|, 0)
  {
    ReachSelf(R, x);
    assert t.stack[|s.stack|] == x;
    assert forall k :: 0 <= k < |s.stack| ==> t.stack[k] == s.stack[k] && s.stack[k] in s.stack;
  }

  lemma PushLows<Node(!new), A(!new)>(s: State<Node, A>, t: State<Node, A>, R: Node -> seq<Node>, x: Node)
    requires s.Lows(R) && x !in s.stack && Reach(R, x, x)
    requires t.stack == s.stack + [x] && t.N == s.N[x := |s.stack| + 1]
    ensures t.Lows(R)
  {
    assert t.stack[|s.stack|] == x;
    forall z | z in s.stack
      ensures t.LowReached(R, z)
    {
      assert s.LowReached(R, z);
      var k :| 0 <= k < s.N[z] && k < |s.stack| && Reach(R, z, s.stack[k]);
      assert t.stack[k] == s.stack[k];
    }
  }

  lemma CoveredStays<Node(!new), A(!new)>(s: State<Node, A>, t: State<Node, A>, w: Node, d: nat, low: int, low': int,
                                          f: seq<A>, f': seq<A>)
    requires d <= |s.stack| && s.stack <= t.stack && s.Covered(w, d, low, f)
    requires low' <= low && Subset(f, f')
    requires s.Done(w) ==> t.Done(w) && w in s.F && w in t.F && t.F[w] == s.F[w]
    ensures t.Covered(w, d, low', f')
  {
    assert t.stack[..|s.stack|] == s.stack;
    if w in s.stack[d..] {
      var i :| d <= i < |s.stack| && s.stack[i] == w;
      assert t.stack[d..][i - d] == w;
    } else if k :| 0 <= k < d && s.stack[k] == w && low <= k + 1 {
      assert t.stack[k] == w;
    }
  }

  function Min(a: int, b: int): int { if b < a then b else a }

  /** The merge of edge x -> y, after y has been visited, keeps the global invariant. */
  lemma MergeInv<Node(!new), A(!new)>(s: State<Node, A>, t: State<Node, A>, X: set<Node>,
                                      R: Node -> seq<Node>, FP: Node -> seq<A>, x: Node, y: Node)
    requires s.Inv(X, R, FP) && x in s.stack && y in R(x) && s.Visited(y) && |s.stack| <= MAXINT
    requires Merges(s, t, x, y)
    ensures t.Inv(X, R, FP)
  {
    hide Sound, Exact, Subset, Reach;
    ReachEdge(R, x, y);
    assert y in s.stack || s.Done(y);
    assert 1 <= s.N[y];
    assert forall z :: t.Done(z) <==> s.Done(z);
    MergeShape(s, t, X, R, x, y);
    MergeSets(s, t, R, FP, x, y);
    MergeLows(s, t, R, x, y);
  }

  lemma MergeShape<Node(!new), A(!new)>(s: State<Node, A>, t: State<Node, A>, X: set<Node>, R: Node -> seq<Node>,
                                        x: Node, y: Node)
    requires s.Shape(X, R) && x in s.stack && s.Visited(y) && |s.stack| <= MAXINT && Merges(s, t, x, y)
    requires 1 <= s.N[y] && forall z :: t.Done(z) <==> s.Done(z)
    ensures t.Shape(X, R)
  {
  }

  lemma MergeSets<Node(!new), A(!new)>(s: State<Node, A>, t: State<Node, A>, R: Node -> seq<Node>,
                                       FP: Node -> seq<A>, x: Node, y: Node)
    requires s.Sets(R, FP) && x in s.stack && y in R(x) && Merges(s, t, x, y) && Reach(R, x, y)
    requires forall z :: t.Done(z) <==> s.Done(z)
    ensures t.Sets(R, FP)
  {
    var f := t.F[x];
    SolutionFollowsReach(R, FP, x, y);
    assert Sound(R, FP, x, f);
  }

  lemma MergeLows<Node(!new), A(!new)>(s: State<Node, A>, t: State<Node, A>, R: Node -> seq<Node>, x: Node, y: Node)
    requires s.Lows(R) && x in s.stack && Reach(R, x, y) && y in s.N
    requires y in s.stack || s.N[y] >= s.N[x]
    requires t.stack == s.stack && t.N == s.N[x := Min(s.N[x], s.N[y])]
    ensures t.Lows(R)
  {
    forall z | z in t.stack
      ensures t.LowReached(R, z)
    {
      assert s.LowReached(R, z);
      if z == x && s.N[y] < s.N[x] {
        assert s.LowReached(R, y);
        var k :| 0 <= k < s.N[y] && k < |s.stack| && Reach(R, y, s.stack[k]);
        ReachTrans(R, x, y, s.stack[k]);
      } else {
        var k :| 0 <= k < s.N[z] && k < |s.stack| && Reach(R, z, s.stack[k]);
      }
    }
  }

  /** After the call on y returned with y pending, x reaches all of y's segment and back. */
  lemma ChildReach<Node(!new), A(!new)>(s: State<Node, A>, c: State<Node, A>, R: Node -> seq<Node>,
                                        x: Node, y: Node, d: nat, j: nat)
    requires Active(s, R, x, d, j) && y in R(x) && s.stack <= c.stack
    requires Pending(c, R, y, |s.stack|) && c.LowReached(R, y)
    ensures forall k :: 0 <= k < |c.stack| ==> Reach(R, c.stack[k], x)
    ensures forall i :: |s.stack| <= i < |c.stack| ==> Reach(R, x, c.stack[i])
  {
    ReachEdge(R, x, y);
    var k :| 0 <= k < c.N[y] && k < |c.stack| && Reach(R, y, c.stack[k]);
    assert c.stack[k] == s.stack[k];
    ReachTrans(R, y, s.stack[k], x);
    forall i | 0 <= i < |c.stack|
      ensures Reach(R, c.stack[i], x)
    {
      ReachTrans(R, c.stack[i], y, x);
    }
    forall i | |s.stack| <= i < |c.stack|
      ensures Reach(R, x, c.stack[i])
    {
      ReachTrans(R, x, y, c.stack[i]);
    }
  }

  /** What the merge of edge j does to the state the visit of its target left behind. */
  ghost predicate Merges<Node(!new), A(!new)>(c: State<Node, A>, t: State<Node, A>, x: Node, y: Node)
  {
    && x in c.N && y in c.N && x in c.F && y in c.F
    && t.stack == c.stack && t.N == c.N[x := Min(c.N[x], c.N[y])]
    && t.F.Keys == c.F.Keys
    && (forall z :: z in t.F && z != x ==> t.F[z] == c.F[z])
    && (forall a :: a in t.F[x] <==> a in c.F[x] || a in c.F[y])
  }

  /** The edges covered before the visit stay covered after the merge. */
  lemma OldEdgesCovered<Node(!new), A(!new)>(s: State<Node, A>, c: State<Node, A>, t: State<Node, A>,
                                             R: Node -> seq<Node>, x: Node, d: nat, j: nat, y: Node)
    requires Active(s, R, x, d, j) && s.Visited(x) && s.KeptBy(c) && Merges(c, t, x, y)
    ensures forall i, w :: d < i < |s.stack| && w in R(s.stack[i]) ==> t.Covered(w, d, t.N[x], t.F[x])
    ensures forall k :: 0 <= k < j ==> t.Covered(R(x)[k], d, t.N[x], t.F[x])
  {
    forall w | s.Covered(w, d, s.N[x], s.F[x])
      ensures t.Covered(w, d, t.N[x], t.F[x])
    {
      assert w != x || w in s.stack;
      CoveredStays(s, t, w, d, s.N[x], t.N[x], s.F[x], t.F[x]);
    }
  }

  /** The edges out of the segment the visit of y pushed, and the edge to y itself. */
  lemma NewEdgesCovered<Node(!new), A(!new)>(s: State<Node, A>, c: State<Node, A>, t: State<Node, A>,
                                             R: Node -> seq<Node>, x: Node, d: nat, y: Node)
    requires d < |s.stack| && s.stack[d] == x && s.stack <= c.stack
    requires c.Visited(y) && Merges(c, t, x, y)
    requires forall i :: 0 <= i < |c.stack| ==> c.stack[i] in c.N && c.N[c.stack[i]] <= i + 1
    requires c.stack == s.stack || Pending(c, R, y, |s.stack|)
    ensures t.Covered(y, d, t.N[x], t.F[x])
    ensures forall i, w :: |s.stack| <= i < |c.stack| && w in R(c.stack[i]) ==> t.Covered(w, d, t.N[x], t.F[x])
  {
    assert forall k :: d <= k < |c.stack| ==> c.stack[d..][k - d] == c.stack[k];
    if y in c.stack {
      var k :| 0 <= k < |c.stack| && c.stack[k] == y;
      assert c.N[y] <= k + 1;
    } else {
      assert t.Done(y);
    }
    forall i, w | |s.stack| <= i < |c.stack| && w in R(c.stack[i])
      ensures t.Covered(w, d, t.N[x], t.F[x])
    {
      var e := |s.stack|;
      if i == e {
        var k :| 0 <= k < |R(y)| && R(y)[k] == w;
      }
      assert c.Covered(w, e, c.N[y], c.F[y]);
      if w in c.stack[e..] {
        var k :| e <= k < |c.stack| && c.stack[k] == w;
        assert c.stack[d..][k - d] == w;
      } else if k :| 0 <= k < e && c.stack[k] == w && c.N[y] <= k + 1 {
        assert k < d || c.stack[d..][k - d] == w;
      } else {
        assert t.Done(w);
        assert w != x by { assert c.stack[d] == x; }
      }
    }
  }

  /** After the merge x's set holds the sets of its whole segment. */
  lemma MergeSubsets<Node(!new), A(!new)>(s: State<Node, A>, c: State<Node, A>, t: State<Node, A>,
                                          R: Node -> seq<Node>, x: Node, y: Node, d: nat, j: nat)
    requires Active(s, R, x, d, j) && s.Visited(x) && s.KeptBy(c) && Merges(c, t, x, y)
    requires forall i :: d <= i < |s.stack| ==> s.Visited(s.stack[i])
    requires c.stack == s.stack || Pending(c, R, y, |s.stack|)
    ensures forall i :: d <= i < |t.stack| ==> t.stack[i] in t.F && Subset(t.F[t.stack[i]], t.F[x])
  {
    forall i | d <= i < |t.stack|
      ensures t.stack[i] in t.F && Subset(t.F[t.stack[i]], t.F[x])
    {
      if i < |s.stack| {
        assert t.stack[i] == s.stack[i];
        assert Subset(s.F[s.stack[i]], s.F[x]);
      } else {
        assert Subset(c.F[c.stack[i]], c.F[y]);
      }
    }
  }

  lemma MergeReaches<Node(!new), A(!new)>(s: State<Node, A>, c: State<Node, A>,
                                          R: Node -> seq<Node>, x: Node, y: Node, d: nat, j: nat)
    requires Active(s, R, x, d, j) && y in R(x) && s.stack <= c.stack && c.Lows(R)
    requires c.stack == s.stack || Pending(c, R, y, |s.stack|)
    ensures forall k :: 0 <= k < |c.stack| ==> Reach(R, c.stack[k], x)
    ensures forall i :: d <= i < |c.stack| ==> Reach(R, x, c.stack[i])
  {
    if c.stack != s.stack {
      assert c.stack[|s.stack|] == y;
      ChildReach(s, c, R, x, y, d, j);
    }
    assert forall i :: 0 <= i < |s.stack| ==> c.stack[i] == s.stack[i];
  }

  /** One more edge of x is handled: the state after the merge is active again. */
  lemma MergeActive<Node(!new), A(!new)>(s: State<Node, A>, c: State<Node, A>, t: State<Node, A>, X: set<Node>,
                                         R: Node -> seq<Node>, FP: Node -> seq<A>, x: Node, d: nat, j: nat)
    requires Active(s, R, x, d, j) && s.KeptBy(c) && s.Inv(X, R, FP) && c.Inv(X, R, FP)
    requires |c.stack| <= MAXINT
    requires j < |R(x)| && c.Visited(R(x)[j]) && Merges(c, t, x, R(x)[j])
    requires c.stack == s.stack || Pending(c, R, R(x)[j], |s.stack|)
    ensures Active(t, R, x, d, j + 1)
  {
    var y := R(x)[j];
    MergeReaches(s, c, R, x, y, d, j);
    OldEdgesCovered(s, c, t, R, x, d, j, y);
    NewEdgesCovered(s, c, t, R, x, d, y);
    MergeSubsets(s, c, t, R, x, y, d, j);
    assert y in c.stack || c.Done(y);
    assert t.stack[d] == s.stack[d];
    assert 1 <= t.N[x] <= d + 1;
    forall i, w | d < i < |t.stack| && w in R(t.stack[i])
      ensures t.Covered(w, d, t.N[x], t.F[x])
    {
      if i < |s.stack| {
        assert t.stack[i] == s.stack[i];
      }
    }
  }

  /** A root that lowered nothing has collected all that it reaches. */
  lemma RootCollects<Node(!new), A(!new)>(s: State<Node, A>, X: set<Node>, R: Node -> seq<Node>,
                                          FP: Node -> seq<A>, x: Node, d: nat)
    requires s.Shape(X, R) && s.Sets(R, FP) && Active(s, R, x, d, |R(x)|) && s.N[x] == d + 1
    ensures forall y, a :: Reach(R, x, y) && a in FP(y) ==> a in s.F[x]
  {
    var C := iset z | z in s.stack[d..] || (s.Done(z) && Subset(s.F[z], s.F[x]));
    forall z, w | z in C && w in R(z)
      ensures w in C
    {
      if z in s.stack[d..] {
        var i :| d <= i < |s.stack| && s.stack[i] == z;
        if i == d {
          var k :| 0 <= k < |R(x)| && R(x)[k] == w;
        }
        assert s.Covered(w, d, d + 1, s.F[x]);
      } else {
        ReachEdge(R, z, w);
        SolutionFollowsReach(R, FP, z, w);
      }
    }
    assert s.stack[d..][0] == x;
    ClosedReach(R, C, x);
    forall y, a | Reach(R, x, y) && a in FP(y)
      ensures a in s.F[x]
    {
      if y in s.stack[d..] {
        var i :| d <= i < |s.stack| && s.stack[i] == y;
        assert Subset(s.F[s.stack[i]], s.F[x]);
        assert y in s.stack;
      } else {
        ReachSelf(R, y);
        assert InSolution(R, FP, y, a);
      }
    }
  }

  /** The root's set is the exact solution of every member of its component. */
  lemma RootExact<Node(!new), A(!new)>(s: State<Node, A>, X: set<Node>, R: Node -> seq<Node>,
                                       FP: Node -> seq<A>, x: Node, d: nat)
    requires s.Shape(X, R) && s.Sets(R, FP) && Active(s, R, x, d, |R(x)|) && s.N[x] == d + 1
    ensures forall z :: z in s.stack[d..] ==> Exact(R, FP, z, s.F[x])
  {
    RootCollects(s, X, R, FP, x, d);
    forall z | z in s.stack[d..]
      ensures Exact(R, FP, z, s.F[x])
    {
      var i :| d <= i < |s.stack| && s.stack[i] == z;
      SolutionFollowsReach(R, FP, x, z);
      SolutionFollowsReach(R, FP, z, x);
    }
  }

  /** The segment seg is popped: finished, and sharing the set f. */
  function Raise<Node(!new)>(N: map<Node, int>, seg: seq<Node>): map<Node, int>
  {
    map z | z in N :: if z in seg then MAXINT else N[z]
  }

  function Share<Node(!new), A(!new)>(F: map<Node, seq<A>>, seg: seq<Node>, f: seq<A>): map<Node, seq<A>>
  {
    map z | z in F :: if z in seg then f else F[z]
  }

  ghost predicate Popped<Node(!new), A(!new)>(s: State<Node, A>, t: State<Node, A>, x: Node, d: nat)
  {
    && d < |s.stack| && s.stack[d] == x && x in s.F
    && t.stack == s.stack[..d] && t.N == Raise(s.N, s.stack[d..]) && t.F == Share(s.F, s.stack[d..], s.F[x])
  }

  lemma PopDone<Node(!new), A(!new)>(s: State<Node, A>, t: State<Node, A>, X: set<Node>, R: Node -> seq<Node>,
                                     x: Node, d: nat)
    requires s.Shape(X, R) && Popped(s, t, x, d)
    ensures forall z :: z in t.stack <==> z in s.stack && z !in s.stack[d..]
    ensures forall z :: t.Done(z) <==> s.Done(z) || z in s.stack[d..]
    ensures t.Done(x) && s.stack == t.stack + s.stack[d..]
  {
    assert s.stack[d..][0] == x;
    assert s.stack == t.stack + s.stack[d..];
  }

  lemma PopShape<Node(!new), A(!new)>(s: State<Node, A>, t: State<Node, A>, X: set<Node>, R: Node -> seq<Node>,
                                      x: Node, d: nat)
    requires s.Shape(X, R) && Active(s, R, x, d, |R(x)|) && s.N[x] == d + 1 && Popped(s, t, x, d)
    ensures t.Shape(X, R)
  {
    hide Active, Reach, Popped;
    PopClosed(s, t, X, R, x, d);
    PopMaps(s, t, X, R, x, d);
    PopStack(s, t, X, R, x, d);
  }

  lemma PopStack<Node(!new), A(!new)>(s: State<Node, A>, t: State<Node, A>, X: set<Node>, R: Node -> seq<Node>, x: Node, d: nat)
    requires s.Shape(X, R) && Popped(s, t, x, d)
    ensures forall i, j :: 0 <= i < j < |t.stack| ==> t.stack[i] != t.stack[j]
    ensures forall i :: 0 <= i < |t.stack| ==> t.stack[i] in X && t.stack[i] in t.N && 1 <= t.N[t.stack[i]] <= i + 1
  {
    PopDone(s, t, X, R, x, d);
    assert forall i :: 0 <= i < |t.stack| ==> t.stack[i] == s.stack[i] && t.stack[i] in t.stack;
  }

  lemma PopMaps<Node(!new), A(!new)>(s: State<Node, A>, t: State<Node, A>, X: set<Node>, R: Node -> seq<Node>,
                                     x: Node, d: nat)
    requires s.Shape(X, R) && Popped(s, t, x, d)
    ensures t.N.Keys == X && (forall z :: z in t.F <==> t.Visited(z)) && (forall z :: t.Done(z) ==> t.N[z] == MAXINT)
  {
    PopDone(s, t, X, R, x, d);
  }

  /** The popped nodes have only finished successors. */
  lemma PopClosed<Node(!new), A(!new)>(s: State<Node, A>, t: State<Node, A>, X: set<Node>, R: Node -> seq<Node>,
                                       x: Node, d: nat)
    requires s.Shape(X, R) && Active(s, R, x, d, |R(x)|) && s.N[x] == d + 1 && Popped(s, t, x, d)
    ensures forall z, w :: t.Done(z) && w in R(z) ==> t.Done(w)
  {
    PopDone(s, t, X, R, x, d);
    forall z, w | t.Done(z) && w in R(z)
      ensures t.Done(w)
    {
      if z in s.stack[d..] {
        var i :| d <= i < |s.stack| && s.stack[i] == z;
        if i == d {
          var k :| 0 <= k < |R(x)| && R(x)[k] == w;
        }
        assert s.Covered(w, d, d + 1, s.F[x]);
      }
    }
  }

  lemma PopSets<Node(!new), A(!new)>(s: State<Node, A>, t: State<Node, A>, X: set<Node>, R: Node -> seq<Node>,
                                     FP: Node -> seq<A>, x: Node, d: nat)
    requires s.Shape(X, R) && s.Sets(R, FP) && Active(s, R, x, d, |R(x)|) && s.N[x] == d + 1 && Popped(s, t, x, d)
    ensures t.Sets(R, FP)
  {
    PopDone(s, t, X, R, x, d);
    RootExact(s, X, R, FP, x, d);
    forall z | z in t.F
      ensures Sound(R, FP, z, t.F[z])
    {
      if z in s.stack[d..] {
        assert Exact(R, FP, z, s.F[x]);
      }
    }
  }

  lemma PopLows<Node(!new), A(!new)>(s: State<Node, A>, t: State<Node, A>, X: set<Node>, R: Node -> seq<Node>,
                                     x: Node, d: nat)
    requires s.Shape(X, R) && s.Lows(R) && Popped(s, t, x, d)
    ensures t.Lows(R)
  {
    PopDone(s, t, X, R, x, d);
    forall z | z in t.stack
      ensures t.LowReached(R, z)
    {
      var i :| 0 <= i < d && t.stack[i] == z;
      assert s.stack[i] == z;
      assert s.LowReached(R, z);
      var k :| 0 <= k < s.N[z] && k < |s.stack| && Reach(R, z, s.stack[k]);
      assert t.stack[k] == s.stack[k];
    }
  }

  /** Popping the whole component of a root keeps the invariant and leaves its members finished. */
  lemma PopInv<Node(!new), A(!new)>(s0: State<Node, A>, s: State<Node, A>, t: State<Node, A>, X: set<Node>,
                                    R: Node -> seq<Node>, FP: Node -> seq<A>, x: Node)
    requires s.Inv(X, R, FP) && Active(s, R, x, |s0.stack|, |R(x)|) && s.N[x] == |s0.stack| + 1
    requires s0.KeptBy(s) && !s0.Visited(x) && Popped(s, t, x, |s0.stack|)
    requires forall z :: z in s0.stack ==> s0.Visited(z)
    ensures t.Inv(X, R, FP)
    ensures s0.KeptBy(t) && t.Done(x) && t.stack == s0.stack
  {
    var d := |s0.stack|;
    PopDone(s, t, X, R, x, d);
    PopShape(s, t, X, R, x, d);
    PopSets(s, t, X, R, FP, x, d);
    PopLows(s, t, X, R, x, d);
    forall z | s0.Visited(z)
      ensures z !in s.stack[d..]
    {
      if !s0.Done(z) {
        var k :| 0 <= k < d && s0.stack[k] == z;
        assert s.stack[k] == z;
      }
    }
  }

  lemma KeptTrans<Node(!new), A(!new)>(s: State<Node, A>, c: State<Node, A>, t: State<Node, A>)
    requires s.KeptBy(c) && c.KeptBy(t)
    ensures s.KeptBy(t)
  {
  }

  lemma KeptMerge<Node(!new), A(!new)>(s: State<Node, A>, c: State<Node, A>, t: State<Node, A>, x: Node, y: Node)
    requires s.KeptBy(c) && Merges(c, t, x, y) && !s.Visited(x) && x in c.stack && c.N[x] >= 1 && c.N[y] >= 1
    ensures s.KeptBy(t)
  {
  }

  /** What the loop over the edges needs to know about an active node. */
  lemma ActiveFacts<Node(!new), A(!new)>(s: State<Node, A>, R: Node -> seq<Node>, x: Node, d: nat, j: nat)
    requires Active(s, R, x, d, j)
    ensures d < |s.stack| && s.stack[d] == x && x in s.stack && x in s.F && x in s.N && 1 <= s.N[x] <= d + 1
    ensures s.Visited(x)
    ensures j == |R(x)| && s.N[x] != d + 1 ==> Pending(s, R, x, d)
    ensures forall y, z :: y in R(x) && z in s.stack ==> Reach(R, z, y)
  {
    forall y, z | y in R(x) && z in s.stack
      ensures Reach(R, z, y)
    {
      var k :| 0 <= k < |s.stack| && s.stack[k] == z;
      ReachEdge(R, x, y);
      ReachTrans(R, z, x, y);
    }
  }

  lemma InvFacts<Node(!new), A(!new)>(s: State<Node, A>, X: set<Node>, R: Node -> seq<Node>, FP: Node -> seq<A>)
    requires s.Inv(X, R, FP) && |X| <= MAXINT
    ensures s.N.Keys == X && |s.stack| <= MAXINT
    ensures forall z :: z in s.stack ==> z in s.N && s.Visited(z)
    ensures forall i, j :: 0 <= i < j < |s.stack| ==> s.stack[i] != s.stack[j]
    ensures forall x, y :: x in X && y in R(x) ==> y in X
    ensures forall z :: z in s.F <==> s.Visited(z)
    ensures forall z :: z in X ==> s.N[z] >= 0
  {
    StackFits(s.stack, X);
    assert forall z :: s.Visited(z) ==> z in s.stack || s.Done(z);
  }

  class Run<Node(!new, ==), A(!new, ==)> {
    const R: Node -> seq<Node>
    const FP: Node -> seq<A>
    var N: map<Node, int>
    var stack: seq<Node>
    var F: map<Node, seq<A>>

    ghost function S(): State<Node, A>
      reads this
    {
      State(N, stack, F)
    }

    constructor (R: Node -> seq<Node>, FP: Node -> seq<A>)
      ensures this.R == R && this.FP == FP && N == map[] && stack == [] && F == map[]
    {
      this.R, this.FP := R, FP;
      N, stack, F := map[], [], map[];
    }

    /** No node has been visited. */
    method Unmark(X: seq<Node>)
      requires N == map[]
      modifies this`N
      ensures N == map x | x in X :: 0
    {
      for i := 0 to |X|
        invariant N == map x | x in X[..i] :: 0
      {
        N := N[X[i] := 0];
      }
      assert X[..|X|] == X;
    }

    /** Append to F[x] what F[y] has and F[x] lacks. */
    method UnionInto(x: Node, y: Node)
      requires x in F
      modifies this`F
      ensures F.Keys == old(F.Keys)
      ensures forall z :: z in F && z != x ==> F[z] == old(F)[z]
      ensures forall a :: a in F[x] <==> a in old(F)[x] || (y in old(F) && a in old(F)[y])
    {
      var ys := if y in F then F[y] else [];
      for i := 0 to |ys|
        invariant F.Keys == old(F.Keys)
        invariant forall z :: z in F && z != x ==> F[z] == old(F)[z]
        invariant forall a :: a in F[x] <==> a in old(F)[x] || a in ys[..i]
      {
        assert ys[..i + 1] == ys[..i] + [ys[i]];
        if ys[i] !in F[x] {
          F := F[x := F[x] + [ys[i]]];
        }
      }
      assert ys[..|ys|] == ys;
    }

    /** Visit x: afterwards x is finished, or waits on the stack for the root of its component. */
    method Traverse(x: Node, ghost X: set<Node>)
      requires S().Inv(X, R, FP) && x in X && N[x] == 0 && |X| <= MAXINT
      requires forall z :: z in stack ==> Reach(R, z, x)
      modifies this`N, this`stack, this`F
      ensures S().Inv(X, R, FP)
      ensures old(S()).KeptBy(S()) && S().Visited(x)
      ensures stack == old(stack) || Pending(S(), R, x, |old(stack)|)
      decreases |S().Unvisited()|, 1, 0
    {
      hide Active, Pending, State.Inv, State.KeptBy, State.Unvisited;
      ghost var s0 := S();
      InvFacts(s0, X, R, FP);
      stack := stack + [x];
      var d := |stack|;
      N := N[x := d];
      F := F[x := FP(x)];
      PushStep(s0, S(), X, R, FP, x);
      PushActive(s0, S(), R, x);
      FewerLeft(s0, S(), x);
      var rel := R(x);
      for j := 0 to |rel|
        invariant S().Inv(X, R, FP) && s0.KeptBy(S())
        invariant Active(S(), R, x, d - 1, j)
        invariant |S().Unvisited()| < |s0.Unvisited()|
      {
        FollowEdge(x, rel[j], X, s0, j);
      }
      ActiveFacts(S(), R, x, d - 1, |rel|);
      if N[x] == d {
        ghost var s := S();
        InvFacts(s, X, R, FP);
        PopComponent(x, d - 1);
        PopInv(s0, s, S(), X, R, FP, x);
      }
    }

    /** One round of the loop over R(x): visit y if need be, then merge its depth and set into x's. */
    method FollowEdge(x: Node, y: Node, ghost X: set<Node>, ghost s0: State<Node, A>, ghost j: nat)
      requires S().Inv(X, R, FP) && Active(S(), R, x, |s0.stack|, j) && |X| <= MAXINT
      requires j < |R(x)| && R(x)[j] == y && s0.KeptBy(S()) && !s0.Visited(x)
      modifies this`N, this`stack, this`F
      ensures S().Inv(X, R, FP) && s0.KeptBy(S())
      ensures Active(S(), R, x, |s0.stack|, j + 1)
      ensures |S().Unvisited()| <= |old(S()).Unvisited()|
      decreases |S().Unvisited()|, 2, 0
    {
      hide Active, Pending, State.Inv, State.KeptBy, State.Unvisited;
      ghost var s := S();
      InvFacts(s, X, R, FP);
      ActiveFacts(s, R, x, |s0.stack|, j);
      KeptSelf(s);
      if N[y] == 0 {
        Traverse(y, X);
      }
      ghost var c := S();
      InvFacts(c, X, R, FP);
      KeptTrans(s0, s, c);
      KeptFacts(s, c);
      N := N[x := Min(N[x], N[y])];
      UnionInto(x, y);
      assert Merges(c, S(), x, y);
      MergeInv(c, S(), X, R, FP, x, y);
      MergeActive(s, c, S(), X, R, FP, x, |s0.stack|, j);
      KeptMerge(s0, c, S(), x, y);
      NoMoreLeft(s, c, S(), x, y);
    }

    /** The root x of a component takes its members off the stack, down to itself. */
    method PopComponent(x: Node, ghost d: nat)
      requires d < |stack| && stack[d] == x
      requires forall i, j :: 0 <= i < j < |stack| ==> stack[i] != stack[j]
      requires forall z :: z in stack ==> z in N && z in F
      modifies this`N, this`stack, this`F
      ensures stack == old(stack)[..d]
      ensures N == Raise(old(N), old(stack)[d..]) && F == Share(old(F), old(stack)[d..], old(F)[x])
    {
      hide Raise, Share;
      ghost var s := S();
      PopNone(s, x);
      var element := PopTop(x, s, |stack|);
      while element != x
        invariant d <= |stack| < |s.stack| && stack == s.stack[..|stack|] && element == s.stack[|stack|]
        invariant N == Raise(s.N, s.stack[|stack|..]) && F == Share(s.F, s.stack[|stack|..], s.F[x])
        decreases |stack|
      {
        element := PopTop(x, s, |stack|);
      }
    }

    /** Finish the top of the stack with x's set, and pop it. */
    method PopTop(x: Node, ghost s: State<Node, A>, ghost k: nat) returns (element: Node)
      requires 0 < k <= |s.stack| && stack == s.stack[..k] && x in s.F && s.stack[k - 1] in s.N && s.stack[k - 1] in s.F
      requires N == Raise(s.N, s.stack[k..]) && F == Share(s.F, s.stack[k..], s.F[x])
      modifies this`N, this`stack, this`F
      ensures stack == s.stack[..k - 1] && element == s.stack[k - 1]
      ensures N == Raise(s.N, s.stack[k - 1..]) && F == Share(s.F, s.stack[k - 1..], s.F[x])
    {
      assert s.stack[k - 1..] == [s.stack[k - 1]] + s.stack[k..];
      element := stack[|stack| - 1];
      N := N[element := MAXINT];
      F := F[element := F[x]];
      stack := stack[..|stack| - 1];
    }
  }

  lemma PopNone<Node(!new), A(!new)>(s: State<Node, A>, x: Node)
    requires x in s.F
    ensures s.stack[..|s.stack|] == s.stack
    ensures Raise(s.N, s.stack[|s.stack|..]) == s.N && Share(s.F, s.stack[|s.stack|..], s.F[x]) == s.F
  {
  }

  /** One set for every node of X: the union of FP over all that the node reaches. */
  method Digraph<Node(!new, ==), A(!new, ==)>(X: seq<Node>, R: Node -> seq<Node>, FP: Node -> seq<A>)
    returns (F: map<Node, seq<A>>)
    requires forall x, y :: x in X && y in R(x) ==> y in X
    requires |set x | x in X| <= MAXINT
    ensures F.Keys == set x | x in X
    ensures forall x :: x in X ==> Exact(R, FP, x, F[x])
  {
    hide State.Inv, State.KeptBy, Exact;
    ghost var nodes := set x | x in X;
    var run := new Run(R, FP);
    run.Unmark(X);
    StartInv(run.S(), nodes, R, FP);
    for i := 0 to |X|
      invariant run.R == R && run.FP == FP && run.stack == [] && fresh(run)
      invariant run.S().Inv(nodes, R, FP)
      invariant forall k :: 0 <= k < i ==> run.S().Visited(X[k])
    {
      InvFacts(run.S(), nodes, R, FP);
      ghost var s := run.S();
      if run.N[X[i]] == 0 {
        run.Traverse(X[i], nodes);
        KeptFacts(s, run.S());
      }
    }
    F := run.F;
    FinalSets(run.S(), nodes, R, FP);
  }

  lemma StartInv<Node(!new), A(!new)>(s: State<Node, A>, X: set<Node>, R: Node -> seq<Node>, FP: Node -> seq<A>)
    requires forall x, y :: x in X && y in R(x) ==> y in X
    requires s.N.Keys == X && s.stack == [] && s.F == map[] && forall x :: x in X ==> s.N[x] == 0
    ensures s.Inv(X, R, FP)
  {
  }

  lemma FinalSets<Node(!new), A(!new)>(s: State<Node, A>, X: set<Node>, R: Node -> seq<Node>, FP: Node -> seq<A>)
    requires s.Inv(X, R, FP) && s.stack == [] && forall x :: x in X ==> s.Visited(x)
    ensures s.F.Keys == X && forall x :: x in X ==> Exact(R, FP, x, s.F[x])
  {
    forall x | x in X
      ensures Exact(R, FP, x, s.F[x])
    {
      assert s.Done(x);
    }
  }

  /** F solves F(x) = F'(x) + union of F(y) over x R y. */
  ghost predicate Solves<Node(!new), A(!new)>(R: Node -> seq<Node>, FP: Node -> seq<A>, G: (Node, A) -> bool)
  {
    forall x, a :: G(x, a) <==> a in FP(x) || exists y :: y in R(x) && G(y, a)
  }

  /** What Digraph returns is the smallest solution of the equation it is written for. */
  lemma SmallestSolution<Node(!new), A(!new)>(R: Node -> seq<Node>, FP: Node -> seq<A>, G: (Node, A) -> bool)
    ensures forall x, a :: InSolution(R, FP, x, a) <==>
                a in FP(x) || exists y :: y in R(x) && InSolution(R, FP, y, a)
    ensures Solves(R, FP, G) ==> forall x, a :: InSolution(R, FP, x, a) ==> G(x, a)
  {
    forall x, a
      ensures InSolution(R, FP, x, a) <==> a in FP(x) || exists y :: y in R(x) && InSolution(R, FP, y, a)
    {
      ReachSelf(R, x);
      forall y | y in R(x) && InSolution(R, FP, y, a)
        ensures InSolution(R, FP, x, a)
      {
        ReachEdge(R, x, y);
        SolutionFollowsReach(R, FP, x, y);
      }
      if InSolution(R, FP, x, a) && a !in FP(x) {
        var z :| Reach(R, x, z) && a in FP(z);
        var p :| Connects(R, p, x, z);
        assert |p| > 1;
        assert Connects(R, p[1..], p[1], z);
        assert p[1] in R(p[0]);
      }
    }
    if Solves(R, FP, G) {
      forall x, a | InSolution(R, FP, x, a)
        ensures G(x, a)
      {
        var z :| Reach(R, x, z) && a in FP(z);
        if !G(x, a) {
          var C := iset w | !G(w, a);
          ClosedReach(R, C, x);
        }
      }
    }
  }

  lemma KeptSelf<Node(!new), A(!new)>(s: State<Node, A>)
    requires forall z :: z in s.F <==> s.Visited(z)
    ensures s.KeptBy(s)
  {
  }

  lemma KeptFacts<Node(!new), A(!new)>(s: State<Node, A>, c: State<Node, A>)
    requires s.KeptBy(c)
    ensures s.stack <= c.stack && forall z :: z in s.stack ==> z in c.stack
    ensures forall z :: s.Visited(z) ==> c.Visited(z) && c.N[z] == s.N[z]
  {
    forall z | z in s.stack
      ensures z in c.stack
    {
      var k :| 0 <= k < |s.stack| && s.stack[k] == z;
      assert c.stack[k] == z;
    }
  }

  lemma FewerLeft<Node(!new), A(!new)>(s: State<Node, A>, t: State<Node, A>, x: Node)
    requires x in s.N && s.N[x] == 0 && t.N == s.N[x := |s.stack| + 1]
    ensures |t.Unvisited()| < |s.Unvisited()|
  {
    assert t.Unvisited() == s.Unvisited() - {x};
  }

  lemma NoMoreLeft<Node(!new), A(!new)>(s: State<Node, A>, c: State<Node, A>, t: State<Node, A>, x: Node, y: Node)
    requires s.KeptBy(c) && Merges(c, t, x, y) && c.N[x] >= 1 && c.N[y] >= 1
    ensures |t.Unvisited()| <= |s.Unvisited()|
  {
    assert c.N[x] != 0 && t.N[x] != 0;
    assert t.Unvisited() <= s.Unvisited();
    SubsetSize(t.Unvisited(), s.Unvisited());
  }
}
