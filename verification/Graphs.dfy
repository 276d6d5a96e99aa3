/** Walks and reachability in a graph given by a successor list for every node. */
module Graphs {

  /** p is a walk: every node of p but the last has the next one among its successors. */
  ghost predicate Walk<T(!new)>(R: T -> seq<T>, p: seq<T>)
  {
    p != [] && forall i :: 0 <= i < |p| - 1 ==> p[i + 1] in R(p[i])
  }

  ghost predicate Connects<T(!new)>(R: T -> seq<T>, p: seq<T>, x: T, y: T)
  {
    Walk(R, p) && p[0] == x && p[|p| - 1] == y
  }

  /** y can be reached from x in zero or more steps. */
  ghost predicate Reach<T(!new)>(R: T -> seq<T>, x: T, y: T)
  {
    exists p :: Connects(R, p, x, y)
  }

  lemma ReachSelf<T(!new)>(R: T -> seq<T>, x: T)
    ensures Reach(R, x, x)
  {
    assert Connects(R, [x], x, x);
  }

  lemma ReachTrans<T(!new)>(R: T -> seq<T>, x: T, y: T, z: T)
    requires Reach(R, x, y) && Reach(R, y, z)
    ensures Reach(R, x, z)
  {
    var p :| Connects(R, p, x, y);
    var q :| Connects(R, q, y, z);
    assert Connects(R, p + q[1..], x, z);
  }

  lemma ReachEdge<T(!new)>(R: T -> seq<T>, x: T, y: T)
    requires y in R(x)
    ensures Reach(R, x, y)
  {
    assert Connects(R, [x, y], x, y);
  }

  /** A set of nodes closed under successors holds everything reachable from its members. */
  lemma {:induction false} ClosedContains<T(!new)>(R: T -> seq<T>, S: iset<T>, p: seq<T>)
    requires forall z, w :: z in S && w in R(z) ==> w in S
    requires Walk(R, p) && p[0] in S
    ensures p[|p| - 1] in S
  {
    if |p| > 1 {
      ClosedContains(R, S, p[1..]);
    }
  }

  lemma ClosedReach<T(!new)>(R: T -> seq<T>, S: iset<T>, x: T)
    requires forall z, w :: z in S && w in R(z) ==> w in S
    requires x in S
    ensures forall y :: Reach(R, x, y) ==> y in S
  {
    forall y | Reach(R, x, y)
      ensures y in S
    {
      var p :| Connects(R, p, x, y);
      ClosedContains(R, S, p);
    }
  }
}
