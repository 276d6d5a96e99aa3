/** Bringing the key leaves of a list into the order of its key statement, in place. */
module KeyOrder {
  import opened Common

  /** A child statement: the argument by which it is found, and the rest of it. */
  datatype Child<T> = Child(arg: string, body: T)

  /** The first child with argument k. */
  function Index<T>(s: seq<Child<T>>, k: string): (r: Option<nat>)
    ensures r.Some? ==> r.value < |s| && s[r.value].arg == k && forall i :: 0 <= i < r.value ==> s[i].arg != k
    ensures r.None? ==> forall i :: 0 <= i < |s| ==> s[i].arg != k
  {
    if s == [] then None
    else if s[0].arg == k then Some(0)
    else var r := Index(s[1..], k);
         if r.None? then None else Some(r.value + 1)
  }

  predicate Present<T>(s: seq<Child<T>>, k: string) { exists i :: 0 <= i < |s| && s[i].arg == k }

  predicate Distinct(keys: seq<string>) { forall a, b :: 0 <= a < b < |keys| ==> keys[a] != keys[b] }

  /** No two children answer to the same key. */
  predicate Unique<T>(s: seq<Child<T>>, keys: seq<string>)
  {
    forall i, j :: 0 <= i < j < |s| && s[i].arg in keys ==> s[i].arg != s[j].arg
  }

  predicate InKeyOrder<T>(s: seq<Child<T>>, keys: seq<string>)
  {
    forall a, b, i, j :: 0 <= a < b < |keys| && 0 <= i < |s| && 0 <= j < |s| ==>
      s[i].arg == keys[a] && s[j].arg == keys[b] ==> i < j
  }

  /** The children without a key name have stayed where they were. */
  ghost predicate OthersStay<T>(s: seq<Child<T>>, t: seq<Child<T>>, keys: seq<string>)
  {
    |s| == |t| && forall i :: 0 <= i < |s| ==> (s[i].arg in keys <==> t[i].arg in keys) && (s[i].arg !in keys ==> s[i] == t[i])
  }

  // ---------- The positions of the keys ----------

  /** p[a] is where key number a is found, and nowhere else. */
  predicate At<T>(s: seq<Child<T>>, k: string, n: int)
  {
    0 <= n < |s| && s[n].arg == k && forall i :: 0 <= i < |s| && s[i].arg == k ==> i == n
  }

  predicate Positions<T>(s: seq<Child<T>>, keys: seq<string>, p: seq<int>)
  {
    |p| == |keys| && forall a :: 0 <= a < |p| ==> At(s, keys[a], p[a])
  }

  function PositionsOf<T>(s: seq<Child<T>>, keys: seq<string>): (p: seq<int>)
  {
    seq(|keys|, a requires 0 <= a < |keys| => if Index(s, keys[a]).Some? then Index(s, keys[a]).value else -1)
  }

  lemma PositionsAre<T>(s: seq<Child<T>>, keys: seq<string>)
    requires Unique(s, keys) && forall k :: k in keys ==> Present(s, k)
    ensures Positions(s, keys, PositionsOf(s, keys))
  {
    var p := PositionsOf(s, keys);
    forall a | 0 <= a < |p|
      ensures At(s, keys[a], p[a])
    {
      assert keys[a] in keys && Present(s, keys[a]);
    }
  }

  function Swapped<T>(s: seq<T>, i: int, j: int): (r: seq<T>)
    requires 0 <= i < |s| && 0 <= j < |s|
    ensures |r| == |s| && r[i] == s[j] && r[j] == s[i] && forall k :: 0 <= k < |s| && k != i && k != j ==> r[k] == s[k]
  {
    s[i := s[j]][j := s[i]]
  }

  lemma SwapPositions<T>(s: seq<Child<T>>, keys: seq<string>, p: seq<int>, a: nat, b: nat)
    requires Distinct(keys) && Positions(s, keys, p) && a < |p| && b < |p|
    ensures Positions(Swapped(s, p[a], p[b]), keys, Swapped(p, a, b))
  {
    var t, q := Swapped(s, p[a], p[b]), Swapped(p, a, b);
    assert At(s, keys[a], p[a]) && At(s, keys[b], p[b]);
    forall c | 0 <= c < |q|
      ensures At(t, keys[c], q[c])
    {
      assert At(s, keys[c], p[c]);
      assert c != a ==> keys[c] != keys[a];
      assert c != b ==> keys[c] != keys[b];
    }
  }

  predicate Sorted(p: seq<int>, n: nat)
    requires n <= |p|
  {
    forall c, d :: 0 <= c < d < n ==> p[c] <= p[d]
  }

  predicate Largest(p: seq<int>, a: int)
    requires 0 <= a < |p|
  {
    forall c :: 0 <= c < |p| ==> p[c] <= p[a]
  }

  /** What the exchange sort knows in round a before step b: the first a positions are in order, the
      largest one is the last of them until it has moved to a, and none before b exceeds the one at a. */
  predicate Round(p: seq<int>, a: nat, b: nat)
  {
    && a < |p| && b <= |p| && Sorted(p, a)
    && (forall c :: 0 <= c < b ==> p[c] <= p[a])
    && (0 < a && b < a ==> Largest(p, a - 1))
    && (0 < a <= b ==> Largest(p, a))
  }

  lemma RoundStep(p: seq<int>, a: nat, b: nat)
    requires Round(p, a, b) && b < |p|
    ensures Round(if p[a] < p[b] then Swapped(p, a, b) else p, a, b + 1)
  {
  }

  lemma RoundEnd(p: seq<int>, a: nat)
    requires Round(p, a, |p|)
    ensures Sorted(p, a + 1) && Largest(p, a) && (a + 1 < |p| ==> Round(p, a + 1, 0))
  {
  }

  lemma SortedIsOrder<T>(s: seq<Child<T>>, keys: seq<string>, p: seq<int>)
    requires Distinct(keys) && Positions(s, keys, p) && Sorted(p, |p|)
    ensures InKeyOrder(s, keys)
  {
    forall a, b, i, j | 0 <= a < b < |keys| && 0 <= i < |s| && 0 <= j < |s| && s[i].arg == keys[a] && s[j].arg == keys[b]
      ensures i < j
    {
      assert At(s, keys[a], p[a]) && At(s, keys[b], p[b]);
    }
  }

  lemma SwapStays<T>(s: seq<Child<T>>, t: seq<Child<T>>, keys: seq<string>, i: nat, j: nat)
    requires OthersStay(s, t, keys) && i < |t| && j < |t| && t[i].arg in keys && t[j].arg in keys
    ensures OthersStay(s, Swapped(t, i, j), keys) && multiset(Swapped(t, i, j)) == multiset(t)
  {
  }

  lemma PresenceStays<T>(s: seq<Child<T>>, t: seq<Child<T>>, k: string)
    requires multiset(s) == multiset(t)
    ensures Present(s, k) <==> Present(t, k)
  {
    forall i | 0 <= i < |s|
      ensures s[i] in t
    {
      assert s[i] in multiset(s);
    }
    forall i | 0 <= i < |t|
      ensures t[i] in s
    {
      assert t[i] in multiset(t);
    }
  }

  /** What is known of p in round a before step b, when the keys and the children are as they should be. */
  ghost predicate Going<T>(good: bool, s: seq<Child<T>>, keys: seq<string>, p: seq<int>, a: nat, b: nat)
  {
    good ==> Distinct(keys) && Positions(s, keys, p) && Round(p, a, b)
  }

  lemma NextStep<T>(good: bool, s: seq<Child<T>>, keys: seq<string>, p: seq<int>, a: nat, b: nat) returns (q: seq<int>)
    requires Going(good, s, keys, p, a, b) && a < |keys| && b < |keys|
    requires Index(s, keys[a]).Some? && Index(s, keys[b]).Some?
    ensures var i, j := Index(s, keys[a]).value, Index(s, keys[b]).value;
            Going(good, if i < j then Swapped(s, i, j) else s, keys, q, a, b + 1)
  {
    hide Positions, Round, Distinct;
    q := p;
    if good {
      PositionsLength(s, keys, p);
      Found(s, keys, p, a);
      Found(s, keys, p, b);
      RoundStep(p, a, b);
      SwapPositions(s, keys, p, a, b);
      q := if p[a] < p[b] then Swapped(p, a, b) else p;
    }
  }

  /** The loop's body: exchange two keys that stand in the wrong order. */
  method Exchange<T>(substms: array<Child<T>>, keys: seq<string>, a: nat, b: nat, ghost s0: seq<Child<T>>) returns (ok: bool)
    requires a < |keys| && b < |keys| && Kept(s0, substms[..], keys)
    modifies substms
    ensures Kept(s0, substms[..], keys)
    ensures ok <==> Present(s0, keys[a]) && Present(s0, keys[b])
    ensures ok ==> var s := old(substms[..]);
                   var i, j := Index(s, keys[a]), Index(s, keys[b]);
                   i.Some? && j.Some? && substms[..] == if i.value < j.value then Swapped(s, i.value, j.value) else s
  {
    hide OthersStay, Present;
    ghost var s := substms[..];
    var i, j := Index(substms[..], keys[a]), Index(substms[..], keys[b]);
    PresenceStays(s0, s, keys[a]);
    PresenceStays(s0, s, keys[b]);
    IndexIsPresence(s, keys[a]);
    IndexIsPresence(s, keys[b]);
    if i == None || j == None {
      return false;
    }
    if i.value < j.value {
      SwapStays(s0, s, keys, i.value, j.value);
      substms[i.value], substms[j.value] := substms[j.value], substms[i.value];
      assert substms[..] == Swapped(s, i.value, j.value);
    }
    ok := true;
  }

  lemma IndexIsPresence<T>(s: seq<Child<T>>, k: string)
    ensures Index(s, k).Some? <==> Present(s, k)
  {
  }

  /**
   The double loop of interpret_stm. It fails (the source raises) iff some key has no child; otherwise,
   if the keys are distinct and each has one child, the key children end up in key order.
   */
  method OrderKeys<T>(substms: array<Child<T>>, keys: seq<string>) returns (ok: bool)
    modifies substms
    ensures ok <==> forall k :: k in keys ==> Present(old(substms[..]), k)
    ensures multiset(substms[..]) == multiset(old(substms[..])) && OthersStay(old(substms[..]), substms[..], keys)
    ensures ok && Distinct(keys) && Unique(old(substms[..]), keys) ==> InKeyOrder(substms[..], keys)
  {
    hide Positions, Round, Sorted, Largest, InKeyOrder, OthersStay, Unique, Distinct, Present, Index, Swapped, Kept, Going;
    ghost var s0 := substms[..];
    ghost var good := Distinct(keys) && Unique(s0, keys) && forall k :: k in keys ==> Present(s0, k);
    ghost var p := PositionsOf(s0, keys);
    StaysReflexive(s0, keys);
    if good {
      PositionsAre(s0, keys);
      PositionsLength(s0, keys, p);
      RoundStart(p);
    }
    GoingStarts(good, s0, keys, p, 0);
    for a := 0 to |keys|
      invariant Kept(s0, substms[..], keys)
      invariant a > 0 ==> forall k :: k in keys ==> Present(s0, k)
      invariant good ==> |p| == |keys| && Positions(substms[..], keys, p) && Sorted(p, a)
      invariant a < |keys| ==> Going(good, substms[..], keys, p, a, 0)
    {
      for b := 0 to |keys|
        invariant Kept(s0, substms[..], keys)
        invariant forall c :: 0 <= c < b ==> Present(s0, keys[c])
        invariant Going(good, substms[..], keys, p, a, b)
      {
        ghost var s := substms[..];
        var found := Exchange(substms, keys, a, b, s0);
        if !found {
          assert keys[a] in keys && keys[b] in keys;
          KeptMeans(s0, substms[..], keys);
          return false;
        }
        p := NextStep(good, s, keys, p, a, b);
      }
      GoingEnds(good, substms[..], keys, p, a);
      GoingStarts(good, substms[..], keys, p, a + 1);
    }
    KeptMeans(s0, substms[..], keys);
    ok := true;
    if good {
      SortedIsOrder(substms[..], keys, p);
    }
  }

  lemma PositionsLength<T>(s: seq<Child<T>>, keys: seq<string>, p: seq<int>)
    requires Positions(s, keys, p)
    ensures |p| == |keys|
  {
  }

  ghost predicate Kept<T>(s: seq<Child<T>>, t: seq<Child<T>>, keys: seq<string>)
  {
    multiset(s) == multiset(t) && OthersStay(s, t, keys)
  }

  lemma StaysReflexive<T>(s: seq<Child<T>>, keys: seq<string>)
    ensures Kept(s, s, keys)
  {
  }

  lemma KeptMeans<T>(s: seq<Child<T>>, t: seq<Child<T>>, keys: seq<string>)
    requires Kept(s, t, keys)
    ensures multiset(s) == multiset(t) && OthersStay(s, t, keys)
  {
  }

  lemma GoingStarts<T>(good: bool, s: seq<Child<T>>, keys: seq<string>, p: seq<int>, a: nat)
    requires a <= |keys| && (good ==> |p| == |keys| && Distinct(keys) && Positions(s, keys, p))
    requires good && a < |p| ==> Round(p, a, 0)
    ensures a < |keys| ==> Going(good, s, keys, p, a, 0)
  {
    hide Positions, Round, Sorted, Distinct;
  }

  lemma GoingEnds<T>(good: bool, s: seq<Child<T>>, keys: seq<string>, p: seq<int>, a: nat)
    requires a < |keys| && Going(good, s, keys, p, a, |keys|)
    ensures good ==> |p| == |keys| && Distinct(keys) && Positions(s, keys, p) && Sorted(p, a + 1)
    ensures good && a + 1 < |p| ==> Round(p, a + 1, 0)
  {
    hide Positions, Round, Sorted, Distinct;
    if good {
      PositionsLength(s, keys, p);
      RoundEnd(p, a);
    }
  }

  lemma RoundStart(p: seq<int>)
    ensures Sorted(p, 0) && (|p| > 0 ==> Round(p, 0, 0))
  {
  }

  lemma Found<T>(s: seq<Child<T>>, keys: seq<string>, p: seq<int>, a: nat)
    requires Positions(s, keys, p) && a < |p|
    ensures Index(s, keys[a]) == Some(p[a]) && |p| == |keys|
  {
    assert At(s, keys[a], p[a]);
  }
}
