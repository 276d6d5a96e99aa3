/** Instance identifiers: text to SID and key values, and back to text. */
module Iid {
  import opened Common
  import opened IidText
  import opened YangTree
  import KeyOrder

  /** The SIDs of the schema, and the leaf codec on key values; None means that the source raises. */
  datatype Codec = Codec(sids: map<nat, Option<int>>, enc: (nat, string) -> Option<Cbor>, dec: (nat, Cbor) -> string)

  /** An identifier in CBOR: a SID, or a SID followed by key values. */
  datatype CborIid = Plain(sid: Option<int>) | Keyed(sid: Option<int>, keys: seq<Cbor>)

  predicate Falsy(x: Cbor) { x == CNull || x == CBool(false) }

  function Names(node: Node): seq<string> { if node.keys.Some? then node.keys.value else [] }

  // ---------- Finding a node by its SID ----------

  /** The nodes below node that lead to the first one with that SID, in the order of the search. */
  function Locate(sids: map<nat, Option<int>>, node: Node, sid: int): Option<seq<Node>>
    decreases node, 1, 0
  {
    if SidOf(sids, node) == Some(sid) then Some([]) else LocateFrom(sids, node, sid, 0)
  }

  function LocateFrom(sids: map<nat, Option<int>>, node: Node, sid: int, i: nat): Option<seq<Node>>
    requires i <= |node.kids|
    decreases node, 0, |node.kids| - i
  {
    if i == |node.kids| then None else
      var p := Locate(sids, node.kids[i], sid);
      if p.Some? then Some([node.kids[i]] + p.value) else LocateFrom(sids, node, sid, i + 1)
  }

  predicate IsPath(root: Node, p: seq<Node>)
  {
    p == [] || (p[0] in root.kids && IsPath(p[0], p[1..]))
  }

  function End(root: Node, p: seq<Node>): Node { if p == [] then root else p[|p| - 1] }

  /** The list that the search pushes nodes on and pops them off. */
  class PathList {
    var nodes: seq<Node>

    constructor ()
      ensures nodes == []
    {
      nodes := [];
    }
  }

  /** On success the list has grown by exactly the root path of the node; otherwise it is as before. */
  method FindNodeFromSid(sids: map<nat, Option<int>>, node: Node, sid: int, path: PathList) returns (found: Option<Node>)
    modifies path
    ensures var p := Locate(sids, node, sid);
            if p.None? then found == None && path.nodes == old(path.nodes)
            else found == Some(End(node, p.value)) && path.nodes == old(path.nodes) + p.value
    decreases node
  {
    if SidOf(sids, node) == Some(sid) {
      return Some(node);
    }
    for i := 0 to |node.kids|
      invariant path.nodes == old(path.nodes)
      invariant Locate(sids, node, sid) == LocateFrom(sids, node, sid, i)
    {
      var n := node.kids[i];
      path.nodes := path.nodes + [n];
      found := FindNodeFromSid(sids, n, sid, path);
      if found.Some? {
        return;
      }
      path.nodes := path.nodes[..|path.nodes| - 1];
    }
    found := None;
  }

  lemma {:induction false} LocateIsPath(sids: map<nat, Option<int>>, node: Node, sid: int)
    ensures var p := Locate(sids, node, sid); p.Some? ==> IsPath(node, p.value) && SidOf(sids, End(node, p.value)) == Some(sid)
    decreases node, 1, 0
  {
    if SidOf(sids, node) != Some(sid) {
      LocateFromIsPath(sids, node, sid, 0);
    }
  }

  lemma {:induction false} LocateFromIsPath(sids: map<nat, Option<int>>, node: Node, sid: int, i: nat)
    requires i <= |node.kids|
    ensures var p := LocateFrom(sids, node, sid, i);
            p.Some? ==> IsPath(node, p.value) && SidOf(sids, End(node, p.value)) == Some(sid)
    decreases node, 0, |node.kids| - i
  {
    if i < |node.kids| {
      LocateIsPath(sids, node.kids[i], sid);
      LocateFromIsPath(sids, node, sid, i + 1);
    }
  }

  lemma {:induction false} LocateFinds(sids: map<nat, Option<int>>, node: Node, sid: int, p: seq<Node>)
    requires IsPath(node, p) && SidOf(sids, End(node, p)) == Some(sid)
    ensures Locate(sids, node, sid).Some?
    decreases |p|
  {
    if p != [] && SidOf(sids, node) != Some(sid) {
      LocateFinds(sids, p[0], sid, p[1..]);
      var j :| 0 <= j < |node.kids| && node.kids[j] == p[0];
      LocateFromFinds(sids, node, sid, 0, j);
    }
  }

  lemma {:induction false} LocateFromFinds(sids: map<nat, Option<int>>, node: Node, sid: int, i: nat, j: nat)
    requires i <= j < |node.kids| && Locate(sids, node.kids[j], sid).Some?
    ensures LocateFrom(sids, node, sid, i).Some?
    decreases j - i
  {
    if i < j {
      LocateFromFinds(sids, node, sid, i + 1, j);
    }
  }

  predicate SameSid(sids: map<nat, Option<int>>, a: Node, b: Node) { SidOf(sids, a).Some? && SidOf(sids, a) == SidOf(sids, b) }

  /** No SID is used twice in the schema. */
  ghost predicate DistinctSids(sids: map<nat, Option<int>>, root: Node)
  {
    forall p, q ::
      IsPath(root, p) && IsPath(root, q) && SameSid(sids, End(root, p), End(root, q)) ==> p == q
  }

  /** The search finds the root path, and only it. */
  lemma LocateIsExact(sids: map<nat, Option<int>>, root: Node, sid: int, p: seq<Node>)
    requires DistinctSids(sids, root)
    ensures Locate(sids, root, sid) == Some(p) <==> IsPath(root, p) && SidOf(sids, End(root, p)) == Some(sid)
  {
    LocateIsPath(sids, root, sid);
    if IsPath(root, p) && SidOf(sids, End(root, p)) == Some(sid) {
      LocateFinds(sids, root, sid, p);
    }
  }

  // ---------- Text to CBOR ----------

  function ValueOf(keys: seq<(string, string)>, name: string): Option<string>
  {
    if keys == [] then None else if keys[0].0 == name then Some(keys[0].1) else ValueOf(keys[1..], name)
  }

  /** Types and values of the given keys, in the order of the key statement. */
  function Given(node: Node, names: seq<string>, keys: seq<(string, string)>): Option<seq<(nat, string)>>
  {
    if names == [] then Some([]) else
      var rest := Given(node, names[1..], keys);
      if ValueOf(keys, names[0]).None? then rest
      else if ByArg(node.kids, names[0]).None? || rest.None? then None
      else Some([(ByArg(node.kids, names[0]).value.ty, ValueOf(keys, names[0]).value)] + rest.value)
  }

  predicate KeysFit(node: Node, keys: seq<(string, string)>)
  {
    DistinctKeys(keys) && forall i :: 0 <= i < |keys| ==> keys[i].0 in Names(node)
  }

  /** One element: the child it names, and the keys it gives. */
  function Enter(s: Node, part: string): Option<(Node, seq<(nat, string)>)>
  {
    var e := ElementSplit(part);
    if e.None? || e.value.0.None? then None else
      var child := ByArg(s.kids, e.value.0.value);
      if child.None? || !KeysFit(child.value, e.value.1) then None else
        var given := Given(child.value, Names(child.value), e.value.1);
        if given.None? then None else Some((child.value, given.value))
  }

  function Resolve(s: Node, parts: seq<string>): Option<(Node, seq<(nat, string)>)>
    decreases |parts|
  {
    if parts == [] then Some((s, [])) else
      var step := Enter(s, parts[0]);
      if step.None? then None else
        var rest := Resolve(step.value.0, parts[1..]);
        if rest.None? then None else Some((rest.value.0, step.value.1 + rest.value.1))
  }

  function EncodeKeys(c: Codec, keys: seq<(nat, string)>): Option<seq<Cbor>>
  {
    if keys == [] then Some([]) else
      var first, rest := c.enc(keys[0].0, keys[0].1), EncodeKeys(c, keys[1..]);
      if first.None? || rest.None? then None else Some([first.value] + rest.value)
  }

  function ToCbor(c: Codec, schema: Node, iid: string): Option<CborIid>
  {
    var r := Resolve(schema, Split(iid));
    if r.None? then None else
      var keys := EncodeKeys(c, r.value.1);
      if keys.None? then None
      else if keys.value == [] then Some(Plain(SidOf(c.sids, r.value.0)))
      else Some(Keyed(SidOf(c.sids, r.value.0), keys.value))
  }

  function After(keys: seq<(nat, string)>, r: Option<(Node, seq<(nat, string)>)>): Option<(Node, seq<(nat, string)>)>
  {
    if r.None? then None else Some((r.value.0, keys + r.value.1))
  }

  lemma AfterStep(a: seq<(nat, string)>, b: seq<(nat, string)>, r: Option<(Node, seq<(nat, string)>)>)
    ensures After(a + b, r) == After(a, After(b, r)) && After([], r) == r
  {
    if r.Some? {
      assert (a + b) + r.value.1 == a + (b + r.value.1) && [] + r.value.1 == r.value.1;
    }
  }

  /** The walk down the schema, element by element. */
  method JsonValidateIid(schema: Node, iid: string) returns (r: Option<(Node, seq<(nat, string)>)>)
    ensures r == Resolve(schema, Split(iid))
  {
    hide Enter;
    var s, allKeys: seq<(nat, string)> := schema, [];
    var parts := SplitOutsideBrackets(iid);
    assert parts[0..] == parts;
    AfterStep([], [], Resolve(schema, parts));
    for i := 0 to |parts|
      invariant Resolve(schema, parts) == After(allKeys, Resolve(s, parts[i..]))
    {
      assert parts[i..][1..] == parts[i + 1..];
      var step := Enter(s, parts[i]);
      if step.None? {
        return None;
      }
      AfterStep(allKeys, step.value.1, Resolve(step.value.0, parts[i + 1..]));
      s := step.value.0;
      allKeys := allKeys + step.value.1;
    }
    assert allKeys + [] == allKeys;
    r := Some((s, allKeys));
  }

  method Iid2Cbor(c: Codec, schema: Node, iid: string) returns (r: Option<CborIid>)
    ensures r == ToCbor(c, schema, iid)
  {
    var found := JsonValidateIid(schema, iid);
    if found.None? {
      return None;
    }
    var keys := EncodeKeys(c, found.value.1);
    if keys.None? {
      return None;
    }
    var sid := SidOf(c.sids, found.value.0);
    r := Some(if keys.value == [] then Plain(sid) else Keyed(sid, keys.value));
  }

  // ---------- CBOR to text ----------

  /** The keys printed for a list's children, and the key values left over. */
  function LevelText(c: Codec, names: seq<string>, kids: seq<Node>, keys: seq<Cbor>): (string, seq<Cbor>)
  {
    if kids == [] then ("", keys)
    else if kids[0].arg !in names || keys == [] then LevelText(c, names, kids[1..], keys)
    else
      var (t, rest) := LevelText(c, names, kids[1..], keys[1..]);
      ((if Falsy(keys[0]) then "" else KeyText((kids[0].arg, c.dec(kids[0].ty, keys[0])))) + t, rest)
  }

  function NodeText(c: Codec, node: Node, keys: seq<Cbor>): (string, seq<Cbor>)
  {
    if node.kw.ListKw? then
      var (t, rest) := LevelText(c, Names(node), node.kids, keys);
      ("/" + node.arg + t, rest)
    else ("/" + node.arg, keys)
  }

  function PathText(c: Codec, path: seq<Node>, keys: seq<Cbor>): string
  {
    if path == [] then "" else NodeText(c, path[0], keys).0 + PathText(c, path[1..], NodeText(c, path[0], keys).1)
  }

  function FromCbor(c: Codec, schema: Node, value: CborIid): Option<string>
  {
    if value.sid.None? then None else
      var p := Locate(c.sids, schema, value.sid.value);
      Some(PathText(c, if p.Some? then p.value else [], if value.Keyed? then value.keys else []))
  }

  method Iid2Json(c: Codec, schema: Node, value: CborIid) returns (r: Option<string>)
    ensures r == FromCbor(c, schema, value)
  {
    hide LevelText, KeyText;
    if value.sid.None? {
      return None;
    }
    var keys := if value.Keyed? then value.keys else [];
    var list := new PathList();
    var _ := FindNodeFromSid(c.sids, schema, value.sid.value, list);
    var path := list.nodes;
    assert forall p: seq<Node> :: [] + p == p;
    var text := PrintPath(c, path, keys);
    r := Some(text);
  }

  method PrintPath(c: Codec, path: seq<Node>, given: seq<Cbor>) returns (text: string)
    ensures text == PathText(c, path, given)
  {
    hide LevelText, KeyText;
    var keys := given;
    text := "";
    assert path[0..] == path;
    for i := 0 to |path|
      invariant PathText(c, path, given) == text + PathText(c, path[i..], keys)
    {
      assert path[i..][1..] == path[i + 1..];
      var node := path[i];
      ghost var before, part := text, NodeText(c, node, keys);
      text := text + "/" + node.arg;
      if node.kw.ListKw? {
        var t;
        t, keys := PrintKeys(c, node, keys);
        text := text + t;
      }
      assert text == before + part.0 && keys == part.1;
      TextAssoc(before, part.0, PathText(c, path[i + 1..], keys));
    }
    assert text + "" == text;
  }

  lemma TextAssoc(a: string, b: string, c: string)
    ensures a + (b + c) == (a + b) + c
  {
  }

  /** The loop over a list's children: a key value is taken for each key, and printed unless it is falsy. */
  method PrintKeys(c: Codec, node: Node, given: seq<Cbor>) returns (text: string, keys: seq<Cbor>)
    ensures (text, keys) == LevelText(c, Names(node), node.kids, given)
  {
    hide KeyText;
    text, keys := "", given;
    assert node.kids[0..] == node.kids;
    for i := 0 to |node.kids|
      invariant LevelText(c, Names(node), node.kids, given).0 == text + LevelText(c, Names(node), node.kids[i..], keys).0
      invariant LevelText(c, Names(node), node.kids, given).1 == LevelText(c, Names(node), node.kids[i..], keys).1
    {
      assert node.kids[i..][1..] == node.kids[i + 1..];
      var s := node.kids[i];
      if s.arg in Names(node) && keys != [] {
        var key := keys[0];
        keys := keys[1..];
        ghost var t := if Falsy(key) then "" else KeyText((s.arg, c.dec(s.ty, key)));
        TextAssoc(text, t, LevelText(c, Names(node), node.kids[i + 1..], keys).0);
        if !Falsy(key) {
          text := text + KeyText((s.arg, c.dec(s.ty, key)));
        }
      }
    }
    assert text + "" == text;
  }

  // ---------- Round trip ----------

  function Children(kids: seq<Node>): (r: seq<KeyOrder.Child<Node>>)
    ensures |r| == |kids|
  {
    seq(|kids|, i requires 0 <= i < |kids| => KeyOrder.Child(kids[i].arg, kids[i]))
  }

  /** What interpret_stm leaves behind: the key leaves are there, once each, in the order of the key statement. */
  ghost predicate KeysInOrder(node: Node)
  {
    var ch := Children(node.kids);
    && KeyOrder.Distinct(Names(node)) && KeyOrder.Unique(ch, Names(node)) && KeyOrder.InKeyOrder(ch, Names(node))
    && forall k :: k in Names(node) ==> KeyOrder.Present(ch, k)
  }

  /** The children that are keys, in their order. */
  function KeyLeaves(names: seq<string>, kids: seq<Node>): seq<Node>
  {
    if kids == [] then [] else (if kids[0].arg in names then [kids[0]] else []) + KeyLeaves(names, kids[1..])
  }

  function Args(nodes: seq<Node>): (r: seq<string>)
    ensures |r| == |nodes|
  {
    seq(|nodes|, i requires 0 <= i < |nodes| => nodes[i].arg)
  }

  /** Key number t stands at p[t], inside the list, and nowhere else. */
  lemma KeyPlaces(names: seq<string>, kids: seq<Node>, p: seq<int>)
    requires KeyOrder.Positions(Children(kids), names, p)
    ensures |p| == |names|
    ensures forall t :: 0 <= t < |names| ==> 0 <= p[t] < |kids| && kids[p[t]].arg == names[t]
    ensures forall t, j :: 0 <= t < |names| && 0 <= j < |kids| && kids[j].arg == names[t] ==> p[t] == j
  {
    var ch := Children(kids);
    assert forall t :: 0 <= t < |names| ==> KeyOrder.At(ch, names[t], p[t]);
    assert forall j :: 0 <= j < |kids| ==> ch[j].arg == kids[j].arg;
  }

  /** From child j on, the keys still to come are names[m..]. */
  lemma {:induction false} LeavesFrom(names: seq<string>, kids: seq<Node>, p: seq<int>, j: nat, m: nat)
    requires KeyOrder.Positions(Children(kids), names, p) && KeyOrder.InKeyOrder(Children(kids), names) && |p| == |names|
    requires j <= |kids| && m <= |names|
    requires (forall t :: 0 <= t < m ==> p[t] < j) && (forall t :: m <= t < |names| ==> p[t] >= j)
    ensures Args(KeyLeaves(names, kids[j..])) == names[m..]
    decreases |kids| - j
  {
    hide KeyOrder.InKeyOrder, KeyOrder.Positions, Args, Children;
    KeyPlaces(names, kids, p);
    NoArgs();
    assert m < |names| ==> p[m] < |kids|;
    if j < |kids| {
      assert kids[j..][0] == kids[j] && kids[j..][1..] == kids[j + 1..];
      if kids[j].arg in names {
        NextKey(names, kids, p, j, m);
        LeavesFrom(names, kids, p, j + 1, m + 1);
        assert names[m..] == [names[m]] + names[m + 1..];
        ArgsCons(kids[j], KeyLeaves(names, kids[j + 1..]));
      } else {
        assert forall t :: 0 <= t < |names| ==> p[t] != j;
        LeavesFrom(names, kids, p, j + 1, m);
        assert [] + KeyLeaves(names, kids[j + 1..]) == KeyLeaves(names, kids[j + 1..]);
      }
    }
  }

  lemma NoArgs()
    ensures Args([]) == []
  {
  }

  lemma ArgsCons(node: Node, rest: seq<Node>)
    ensures Args([node] + rest) == [node.arg] + Args(rest)
  {
  }

  /** The first key not before j is the next one in the statement. */
  lemma NextKey(names: seq<string>, kids: seq<Node>, p: seq<int>, j: nat, m: nat)
    requires KeyOrder.Positions(Children(kids), names, p) && KeyOrder.InKeyOrder(Children(kids), names) && |p| == |names|
    requires j < |kids| && m <= |names| && kids[j].arg in names
    requires (forall t :: 0 <= t < m ==> p[t] < j) && (forall t :: m <= t < |names| ==> p[t] >= j)
    ensures m < |names| && names[m] == kids[j].arg && p[m] == j && forall u :: m < u < |names| ==> p[u] > j
  {
    hide KeyOrder.Positions;
    KeyPlaces(names, kids, p);
    var ch := Children(kids);
    var t :| 0 <= t < |names| && names[t] == kids[j].arg;
    assert p[t] == j;
    forall a, b | 0 <= a < b < |names|
      ensures p[a] < p[b]
    {
      assert ch[p[a]].arg == names[a] && ch[p[b]].arg == names[b];
    }
    assert m <= t;
    assert p[m] <= p[t];
    assert t == m;
  }

  /** The key leaves are the key statement's names, each the child of that name. */
  lemma LeavesAre(node: Node)
    requires KeysInOrder(node)
    ensures LeavesOf(node, Names(node), KeyLeaves(Names(node), node.kids))
  {
    hide KeyOrder.InKeyOrder, KeyOrder.Unique, KeyOrder.Present, KeyOrder.Distinct, KeyLeaves, ByArg;
    var names, ch := Names(node), Children(node.kids);
    var leaves := KeyLeaves(names, node.kids);
    var p := KeyOrder.PositionsOf(ch, names);
    KeyOrder.PositionsAre(ch, names);
    PositionsBounds(ch, names, p);
    LeavesFrom(names, node.kids, p, 0, 0);
    assert node.kids[0..] == node.kids && names[0..] == names;
    forall i | 0 <= i < |names|
      ensures ByArg(node.kids, names[i]) == Some(leaves[i]) && leaves[i].arg == names[i]
    {
      assert Args(leaves)[i] == names[i];
      LeafIsChild(names, node.kids, i);
      OnlyChild(node, leaves[i]);
    }
  }

  lemma PositionsBounds(ch: seq<KeyOrder.Child<Node>>, names: seq<string>, p: seq<int>)
    requires KeyOrder.Positions(ch, names, p)
    ensures |p| == |names| && forall t :: 0 <= t < |names| ==> p[t] >= 0
  {
    assert forall t :: 0 <= t < |p| ==> KeyOrder.At(ch, names[t], p[t]);
  }

  lemma {:induction false} LeafIsChild(names: seq<string>, kids: seq<Node>, i: nat)
    requires i < |KeyLeaves(names, kids)|
    ensures KeyLeaves(names, kids)[i] in kids && KeyLeaves(names, kids)[i].arg in names
  {
    if kids[0].arg !in names {
      LeafIsChild(names, kids[1..], i);
    } else if i > 0 {
      LeafIsChild(names, kids[1..], i - 1);
    }
  }

  /** A key child is found by its name. */
  lemma OnlyChild(node: Node, kid: Node)
    requires KeyOrder.Unique(Children(node.kids), Names(node)) && kid in node.kids && kid.arg in Names(node)
    ensures ByArg(node.kids, kid.arg) == Some(kid)
  {
    var j :| 0 <= j < |node.kids| && node.kids[j] == kid;
    var ch := Children(node.kids);
    forall i | 0 <= i < j
      ensures node.kids[i].arg != kid.arg
    {
      assert ch[i].arg == node.kids[i].arg && ch[j].arg == kid.arg;
    }
    ByArgFirst(node.kids, kid.arg, j);
  }

  lemma {:induction false} ByArgFirst(kids: seq<Node>, arg: string, j: nat)
    requires j < |kids| && kids[j].arg == arg && forall i :: 0 <= i < j ==> kids[i].arg != arg
    ensures ByArg(kids, arg) == Some(kids[j])
  {
    if j > 0 {
      ByArgFirst(kids[1..], arg, j - 1);
    }
  }

  // Keys of one element.

  function Leaves(node: Node): seq<Node> { KeyLeaves(Names(node), node.kids) }

  predicate LeavesOf(node: Node, names: seq<string>, leaves: seq<Node>)
  {
    && |leaves| == |names|
    && forall i :: 0 <= i < |names| ==> ByArg(node.kids, names[i]) == Some(leaves[i]) && leaves[i].arg == names[i]
  }

  /** A node with keys is a list whose key leaves are in the order of the key statement. */
  ghost predicate Regular(node: Node) { Names(node) != [] ==> node.kw.ListKw? && KeysInOrder(node) }

  lemma RegularLeaves(node: Node)
    requires Regular(node)
    ensures LeavesOf(node, Names(node), Leaves(node)) && KeyOrder.Distinct(Names(node)) && Args(Leaves(node)) == Names(node)
  {
    hide KeyLeaves, ByArg;
    if Names(node) == [] {
      NoLeaves(node.kids);
    } else {
      LeavesAre(node);
    }
  }

  lemma {:induction false} NoLeaves(kids: seq<Node>)
    ensures KeyLeaves([], kids) == []
  {
    if kids != [] {
      NoLeaves(kids[1..]);
    }
  }

  /** The keys in the order of the key statement. */
  function Ordered(names: seq<string>, keys: seq<(string, string)>): seq<(string, string)>
  {
    if names == [] then [] else
      (if ValueOf(keys, names[0]).Some? then [(names[0], ValueOf(keys, names[0]).value)] else []) + Ordered(names[1..], keys)
  }

  function InSchemaOrder(path: seq<Node>, es: seq<Elem>): (r: seq<Elem>)
    requires |path| == |es|
    ensures |r| == |es|
  {
    if es == [] then [] else [Elem(es[0].name, Ordered(Names(path[0]), es[0].keys))] + InSchemaOrder(path[1..], es[1..])
  }

  /** What a key leaf's given value is encoded as. */
  function Encoded(c: Codec, leaf: Node, keys: seq<(string, string)>): Option<Cbor>
  {
    var v := ValueOf(keys, leaf.arg);
    if v.None? then None else c.enc(leaf.ty, v.value)
  }

  /** A key value, if given, survives the codec. */
  predicate KeyOk(c: Codec, leaf: Node, keys: seq<(string, string)>)
  {
    var v, x := ValueOf(keys, leaf.arg), Encoded(c, leaf, keys);
    v.Some? ==> x.Some? && c.dec(leaf.ty, x.value) == v.value
  }

  predicate KeysOk(c: Codec, leaves: seq<Node>, keys: seq<(string, string)>)
  {
    forall i :: 0 <= i < |leaves| ==> KeyOk(c, leaves[i], keys)
  }

  lemma KeysOkTail(c: Codec, leaves: seq<Node>, keys: seq<(string, string)>)
    requires KeysOk(c, leaves, keys) && leaves != []
    ensures KeyOk(c, leaves[0], keys) && KeysOk(c, leaves[1..], keys)
  {
    assert forall i :: 0 <= i < |leaves| - 1 ==> leaves[1..][i] == leaves[i + 1];
  }

  /** A given key whose value is encoded as null or false. */
  predicate Hidden(c: Codec, leaf: Node, keys: seq<(string, string)>)
  {
    var x := Encoded(c, leaf, keys);
    x.Some? && Falsy(x.value)
  }

  /** The values sent for the keys of one element. */
  function Sent(c: Codec, leaves: seq<Node>, keys: seq<(string, string)>): seq<Cbor>
  {
    if leaves == [] then [] else
      var x := Encoded(c, leaves[0], keys);
      (if x.None? then [] else [x.value]) + Sent(c, leaves[1..], keys)
  }

  /** The given keys that get printed. */
  function Shown(c: Codec, leaves: seq<Node>, keys: seq<(string, string)>): seq<(string, string)>
  {
    if leaves == [] then [] else
      var v := ValueOf(keys, leaves[0].arg);
      (if v.None? || Hidden(c, leaves[0], keys) then [] else [(leaves[0].arg, v.value)]) + Shown(c, leaves[1..], keys)
  }

  function Display(c: Codec, path: seq<Node>, es: seq<Elem>): seq<Elem>
    requires |path| == |es|
  {
    if es == [] then [] else [Elem(es[0].name, Shown(c, Leaves(path[0]), es[0].keys))] + Display(c, path[1..], es[1..])
  }

  /** The keys that printing makes of the values in front of it. */
  function Took(c: Codec, leaves: seq<Node>, vals: seq<Cbor>): (r: seq<(string, string)>)
    ensures |r| <= |leaves| && |r| <= |vals|
  {
    if leaves == [] || vals == [] then [] else
      (if Falsy(vals[0]) then [] else [(leaves[0].arg, c.dec(leaves[0].ty, vals[0]))]) + Took(c, leaves[1..], vals[1..])
  }

  /** The values that are left for the next elements. */
  function Over(leaves: seq<Node>, vals: seq<Cbor>): seq<Cbor> { if |leaves| <= |vals| then vals[|leaves|..] else [] }

  predicate AllGiven(leaves: seq<Node>, keys: seq<(string, string)>)
  {
    forall i :: 0 <= i < |leaves| ==> ValueOf(keys, leaves[i].arg).Some?
  }

  predicate NoneGiven(leaves: seq<Node>, keys: seq<(string, string)>)
  {
    forall i :: 0 <= i < |leaves| ==> ValueOf(keys, leaves[i].arg).None?
  }

  /** The given keys come first. */
  predicate FirstGiven(leaves: seq<Node>, keys: seq<(string, string)>)
  {
    NoneGiven(leaves, keys) || (leaves != [] && ValueOf(keys, leaves[0].arg).Some? && FirstGiven(leaves[1..], keys))
  }

  lemma GivenTail(leaves: seq<Node>, keys: seq<(string, string)>)
    requires leaves != []
    ensures AllGiven(leaves, keys) <==> ValueOf(keys, leaves[0].arg).Some? && AllGiven(leaves[1..], keys)
    ensures NoneGiven(leaves, keys) <==> ValueOf(keys, leaves[0].arg).None? && NoneGiven(leaves[1..], keys)
  {
    assert forall i :: 1 <= i < |leaves| ==> leaves[i] == leaves[1..][i - 1];
  }

  lemma {:induction false} GivenEncodes(c: Codec, node: Node, names: seq<string>, leaves: seq<Node>,
                                        keys: seq<(string, string)>)
    requires LeavesOf(node, names, leaves) && KeysOk(c, leaves, keys)
    ensures var g := Given(node, names, keys); g.Some? && EncodeKeys(c, g.value) == Some(Sent(c, leaves, keys))
    decreases |names|
  {
    hide KeysOk, ByArg;
    if names != [] {
      KeysOkTail(c, leaves, keys);
      GivenEncodes(c, node, names[1..], leaves[1..], keys);
      var rest := Given(node, names[1..], keys).value;
      var v := ValueOf(keys, names[0]);
      if v.Some? {
        assert ([(leaves[0].ty, v.value)] + rest)[1..] == rest;
      } else {
        assert [] + Sent(c, leaves[1..], keys) == Sent(c, leaves[1..], keys);
      }
    }
  }

  /** The loop over a list's children prints what its key leaves take. */
  lemma {:induction false} LevelPrints(c: Codec, names: seq<string>, kids: seq<Node>, vals: seq<Cbor>)
    ensures LevelText(c, names, kids, vals) ==
              (KeysText(Took(c, KeyLeaves(names, kids), vals)), Over(KeyLeaves(names, kids), vals))
  {
    hide KeyText;
    var leaves := KeyLeaves(names, kids);
    if kids == [] {
    } else if kids[0].arg !in names {
      assert leaves == KeyLeaves(names, kids[1..]);
      LevelPrints(c, names, kids[1..], vals);
    } else if vals == [] {
      LevelPrints(c, names, kids[1..], vals);
    } else {
      assert leaves[0] == kids[0] && leaves[1..] == KeyLeaves(names, kids[1..]);
      LevelPrints(c, names, kids[1..], vals[1..]);
      var t := Took(c, leaves[1..], vals[1..]);
      if !Falsy(vals[0]) {
        KeysTextCons((kids[0].arg, c.dec(kids[0].ty, vals[0])), t);
      } else {
        assert [] + t == t;
        assert "" + KeysText(t) == KeysText(t);
      }
    }
  }

  lemma KeysTextCons(k: (string, string), rest: seq<(string, string)>)
    ensures KeysText([k] + rest) == KeyText(k) + KeysText(rest)
  {
    assert ([k] + rest)[1..] == rest;
  }

  lemma {:induction false} EncodeConcat(c: Codec, a: seq<(nat, string)>, b: seq<(nat, string)>)
    requires EncodeKeys(c, a).Some? && EncodeKeys(c, b).Some?
    ensures EncodeKeys(c, a + b) == Some(EncodeKeys(c, a).value + EncodeKeys(c, b).value)
  {
    if a == [] {
      assert a + b == b;
      assert [] + EncodeKeys(c, b).value == EncodeKeys(c, b).value;
    } else {
      assert (a + b)[1..] == a[1..] + b && (a + b)[0] == a[0];
      EncodeConcat(c, a[1..], b);
      var x, xs, ys := c.enc(a[0].0, a[0].1).value, EncodeKeys(c, a[1..]).value, EncodeKeys(c, b).value;
      assert [x] + (xs + ys) == ([x] + xs) + ys;
    }
  }

  // The whole identifier.

  /** path is where the names of es lead from s. */
  predicate Follows(s: Node, path: seq<Node>, es: seq<Elem>)
    decreases |es|
  {
    && |path| == |es|
    && (es == [] || (ByArg(s.kids, es[0].name) == Some(path[0]) && Follows(path[0], path[1..], es[1..])))
  }

  predicate Bare(es: seq<Elem>) { forall i :: 0 <= i < |es| ==> es[i].keys == [] }

  /** An element over a regular node: keys of that node, each once, with values that survive the codec. */
  ghost predicate ElementOk(c: Codec, node: Node, e: Elem)
  {
    && Clean(e) && Regular(node) && KeysFit(node, e.keys) && KeysOk(c, Leaves(node), e.keys)
    && forall i :: 0 <= i < |Names(node)| ==> Names(node)[i] != "" && Free(Names(node)[i], "[]=\n")
  }

  ghost predicate ElementsOk(c: Codec, path: seq<Node>, es: seq<Elem>)
    requires |path| == |es|
  {
    forall i :: 0 <= i < |es| ==> ElementOk(c, path[i], es[i])
  }

  lemma ElementsTail(c: Codec, path: seq<Node>, es: seq<Elem>)
    requires |path| == |es| && es != [] && ElementsOk(c, path, es)
    ensures ElementOk(c, path[0], es[0]) && ElementsOk(c, path[1..], es[1..])
  {
    hide ElementOk;
    assert forall i :: 0 <= i < |es| - 1 ==> path[1..][i] == path[i + 1] && es[1..][i] == es[i + 1];
  }

  /** The values sent for all elements. */
  function SentAll(c: Codec, path: seq<Node>, es: seq<Elem>): seq<Cbor>
    requires |path| == |es|
  {
    if es == [] then [] else Sent(c, Leaves(path[0]), es[0].keys) + SentAll(c, path[1..], es[1..])
  }

  /** What is printed from a path and some key values. */
  function Read(c: Codec, path: seq<Node>, vals: seq<Cbor>): (r: seq<Elem>)
    ensures |r| == |path|
  {
    if path == [] then [] else
      [Elem(path[0].arg, Took(c, Leaves(path[0]), vals))] + Read(c, path[1..], Over(Leaves(path[0]), vals))
  }

  lemma NodePrints(c: Codec, node: Node, vals: seq<Cbor>)
    requires Regular(node)
    ensures NodeText(c, node, vals) == ("/" + ElemText(Elem(node.arg, Took(c, Leaves(node), vals))), Over(Leaves(node), vals))
  {
    hide KeysInOrder, KeysText, LevelText, Took;
    LevelPrints(c, Names(node), node.kids, vals);
    if node.kw.ListKw? {
      var t := KeysText(Took(c, Leaves(node), vals));
      assert "/" + node.arg + t == "/" + (node.arg + t);
    } else {
      NoLeaves(node.kids);
      NoKeysText(c, vals);
      assert node.arg + "" == node.arg;
    }
  }

  lemma NoKeysText(c: Codec, vals: seq<Cbor>)
    ensures KeysText(Took(c, [], vals)) == "" && Over([], vals) == vals
  {
  }

  lemma {:induction false} PathPrints(c: Codec, path: seq<Node>, vals: seq<Cbor>)
    requires forall i :: 0 <= i < |path| ==> Regular(path[i])
    ensures PathText(c, path, vals) == Print(Read(c, path, vals))
    decreases |path|
  {
    hide Regular, NodeText, ElemText, Took, Over, Leaves;
    if path != [] {
      var rest := Over(Leaves(path[0]), vals);
      NodePrints(c, path[0], vals);
      assert forall i :: 0 <= i < |path| - 1 ==> path[1..][i] == path[i + 1];
      PathPrints(c, path[1..], rest);
      assert Read(c, path, vals)[1..] == Read(c, path[1..], rest);
    }
  }

  predicate AllNamed(es: seq<Elem>) { forall i :: 0 <= i < |es| ==> KeyNames(es[i].keys) }

  lemma TextsTail(es: seq<Elem>)
    requires es != []
    ensures Texts(es)[0] == ElemText(es[0]) && Texts(es)[1..] == Texts(es[1..])
  {
  }

  lemma NamedTail(es: seq<Elem>)
    requires es != []
    ensures AllNamed(es) <==> KeyNames(es[0].keys) && AllNamed(es[1..])
  {
    hide KeyNames;
    assert forall i :: 1 <= i < |es| ==> es[i] == es[1..][i - 1];
  }

  lemma EnterPrinted(c: Codec, s: Node, node: Node, e: Elem)
    requires ElementOk(c, node, e) && ByArg(s.kids, e.name) == Some(node) && KeyNames(e.keys)
    ensures var g := Given(node, Names(node), e.keys);
            && g.Some? && EncodeKeys(c, g.value) == Some(Sent(c, Leaves(node), e.keys))
            && Enter(s, ElemText(e)) == Some((node, g.value))
  {
    hide Clean, ElementSplit, KeysOk, Regular, Leaves;
    ElementSplitPrinted(e);
    RegularLeaves(node);
    GivenEncodes(c, node, Names(node), Leaves(node), e.keys);
  }

  /** With names that the key pattern matches, the identifier becomes the SID at its end and the values of its keys. */
  lemma {:induction false} ElementsResolve(c: Codec, s: Node, path: seq<Node>, es: seq<Elem>)
    requires Follows(s, path, es) && ElementsOk(c, path, es) && AllNamed(es)
    ensures var r := Resolve(s, Texts(es));
            r.Some? && r.value.0 == End(s, path) && EncodeKeys(c, r.value.1) == Some(SentAll(c, path, es))
    decreases |es|
  {
    hide ElementOk, ElemText, Enter, Given, Sent, Leaves;
    if es != [] {
      var node, e := path[0], es[0];
      TextsTail(es);
      NamedTail(es);
      ElementsTail(c, path, es);
      ElementsResolve(c, node, path[1..], es[1..]);
      assert path[1..] != [] ==> path[|path| - 1] == path[1..][|path| - 2];
      EnterPrinted(c, s, node, e);
      EncodeConcat(c, Given(node, Names(node), e.keys).value, Resolve(node, Texts(es[1..])).value.1);
    }
  }

  // Names that the key pattern does not match.

  function NameSet(keys: seq<(string, string)>): set<string> { set i | 0 <= i < |keys| :: keys[i].0 }

  lemma {:induction false} NameCount(keys: seq<(string, string)>)
    requires DistinctKeys(keys)
    ensures |NameSet(keys)| == |keys|
  {
    if keys == [] {
    } else {
      var n := |keys| - 1;
      NameCount(keys[..n]);
      assert NameSet(keys) == NameSet(keys[..n]) + {keys[n].0};
      assert keys[n].0 !in NameSet(keys[..n]);
    }
  }

  lemma {:induction false} ValueIsNamed(keys: seq<(string, string)>, name: string)
    ensures ValueOf(keys, name).Some? <==> name in NameSet(keys)
  {
    if keys == [] {
    } else {
      ValueIsNamed(keys[1..], name);
      assert NameSet(keys) == {keys[0].0} + NameSet(keys[1..]) by {
        assert forall i :: 1 <= i < |keys| ==> keys[i] == keys[1..][i - 1];
      }
    }
  }

  lemma SubsetOfSameSize<T>(a: set<T>, b: set<T>)
    requires a <= b && |a| == |b|
    ensures a == b
  {
    assert |b - a| == 0;
  }

  /** As many keys as a complete element has, all of the node, are its keys. */
  lemma SameNames(node: Node, keys: seq<(string, string)>, read: seq<(string, string)>)
    requires KeysFit(node, keys) && KeysFit(node, read) && |read| == |keys|
    requires forall i :: 0 <= i < |Names(node)| ==> ValueOf(keys, Names(node)[i]).Some?
    ensures NameSet(read) == NameSet(keys)
  {
    NameCount(keys);
    NameCount(read);
    forall n | n in NameSet(read)
      ensures n in NameSet(keys)
    {
      var i :| 0 <= i < |Names(node)| && Names(node)[i] == n;
      ValueIsNamed(keys, n);
    }
    SubsetOfSameSize(NameSet(read), NameSet(keys));
  }

  lemma NamesInSet(keys: seq<(string, string)>)
    ensures KeyNames(keys) <==> forall n :: n in NameSet(keys) ==> KeyName(n)
  {
    hide KeyName;
    assert forall i :: 0 <= i < |keys| ==> keys[i].0 in NameSet(keys);
  }

  /** A complete element with a name that the pattern does not match makes the walk raise. */
  lemma EnterRaises(c: Codec, s: Node, node: Node, e: Elem)
    requires ElementOk(c, node, e) && ByArg(s.kids, e.name) == Some(node) && !KeyNames(e.keys)
    requires AllGiven(Leaves(node), e.keys)
    ensures Enter(s, ElemText(e)) == None
  {
    hide Clean, ElementSplit, KeysOk, Regular, Leaves, KeyName;
    ElementSplitPrinted(e);
    RegularLeaves(node);
    var r := ElementSplit(ElemText(e));
    if r.Some? && KeysFit(node, r.value.1) {
      forall i | 0 <= i < |Names(node)|
        ensures ValueOf(e.keys, Names(node)[i]).Some?
      {
        assert Leaves(node)[i].arg == Names(node)[i];
      }
      NamesInSet(e.keys);
      NamesInSet(r.value.1);
      SameNames(node, e.keys, r.value.1);
    }
  }

  /** Up to some element every key is given, and from there on none. */
  predicate Whole(path: seq<Node>, es: seq<Elem>)
    requires |path| == |es|
    decreases |es|
  {
    Bare(es) || (AllGiven(Leaves(path[0]), es[0].keys) && Whole(path[1..], es[1..]))
  }

  lemma {:induction false} ElementsRaise(c: Codec, s: Node, path: seq<Node>, es: seq<Elem>)
    requires Follows(s, path, es) && ElementsOk(c, path, es) && Whole(path, es) && !AllNamed(es)
    ensures Resolve(s, Texts(es)) == None
    decreases |es|
  {
    hide ElementOk, ElemText, Enter, Given, Leaves, KeyNames, AllGiven;
    var node, e := path[0], es[0];
    if Bare(es) {
      BareIsNamed(es);
    }
    TextsTail(es);
    NamedTail(es);
    ElementsTail(c, path, es);
    if KeyNames(e.keys) {
      ElementsRaise(c, node, path[1..], es[1..]);
      EnterPrinted(c, s, node, e);
    } else {
      EnterRaises(c, s, node, e);
    }
  }

  lemma BareIsNamed(es: seq<Elem>)
    requires Bare(es)
    ensures AllNamed(es)
  {
  }

  // Given keys that come first.

  /** Along the path the given keys come first: complete elements, a beginning of one element's keys, and no more. */
  predicate Prefix(path: seq<Node>, es: seq<Elem>)
    requires |path| == |es|
    decreases |es|
  {
    || es == []
    || (AllGiven(Leaves(path[0]), es[0].keys) && Prefix(path[1..], es[1..]))
    || (FirstGiven(Leaves(path[0]), es[0].keys) && Bare(es[1..]))
  }

  lemma {:induction false} NoneSent(c: Codec, leaves: seq<Node>, keys: seq<(string, string)>)
    requires NoneGiven(leaves, keys)
    ensures Sent(c, leaves, keys) == [] && Shown(c, leaves, keys) == []
  {
    if leaves != [] {
      GivenTail(leaves, keys);
      NoneSent(c, leaves[1..], keys);
    }
  }

  lemma {:induction false} TookSent(c: Codec, leaves: seq<Node>, keys: seq<(string, string)>, rest: seq<Cbor>)
    requires KeysOk(c, leaves, keys) && (AllGiven(leaves, keys) || (FirstGiven(leaves, keys) && rest == []))
    ensures Took(c, leaves, Sent(c, leaves, keys) + rest) == Shown(c, leaves, keys)
    ensures Over(leaves, Sent(c, leaves, keys) + rest) == rest
  {
    hide KeysOk, AllGiven, NoneGiven;
    if leaves == [] {
      assert [] + rest == rest;
    } else {
      GivenTail(leaves, keys);
      if ValueOf(keys, leaves[0].arg).None? {
        NoneSent(c, leaves, keys);
        assert [] + rest == [];
      } else {
        KeysOkTail(c, leaves, keys);
        TookSent(c, leaves[1..], keys, rest);
        var x, more := Encoded(c, leaves[0], keys).value, Sent(c, leaves[1..], keys) + rest;
        assert Sent(c, leaves, keys) + rest == [x] + more;
        assert ([x] + more)[1..] == more;
        assert |leaves| <= |[x] + more| ==> ([x] + more)[|leaves|..] == more[|leaves| - 1..];
      }
    }
  }

  lemma NothingGiven(leaves: seq<Node>)
    ensures NoneGiven(leaves, [])
  {
  }

  lemma {:induction false} BareIsSilent(c: Codec, path: seq<Node>, es: seq<Elem>)
    requires |path| == |es| && Bare(es)
    ensures SentAll(c, path, es) == []
    decreases |es|
  {
    hide Leaves, NoneGiven;
    if es != [] {
      NothingGiven(Leaves(path[0]));
      NoneSent(c, Leaves(path[0]), []);
      BareIsSilent(c, path[1..], es[1..]);
    }
  }

  /** When the given keys come first, exactly those that are neither null nor false are printed, each with its value. */
  lemma {:induction false} ReadDisplay(c: Codec, s: Node, path: seq<Node>, es: seq<Elem>)
    requires Follows(s, path, es) && ElementsOk(c, path, es) && Prefix(path, es)
    ensures Read(c, path, SentAll(c, path, es)) == Display(c, path, es)
    decreases |es|
  {
    hide Leaves, AllGiven, FirstGiven, KeysOk, Regular, Clean, Took, Over, Sent, Shown, ByArg;
    if es != [] {
      ElementsTail(c, path, es);
      ByArgFinds(s.kids, es[0].name);
      var leaves, rest := Leaves(path[0]), SentAll(c, path[1..], es[1..]);
      if Bare(es[1..]) {
        BareIsSilent(c, path[1..], es[1..]);
        BareIsPrefix(path[1..], es[1..]);
      }
      TookSent(c, leaves, es[0].keys, rest);
      ReadDisplay(c, path[0], path[1..], es[1..]);
    }
  }

  lemma {:induction false} BareIsPrefix(path: seq<Node>, es: seq<Elem>)
    requires |path| == |es| && Bare(es)
    ensures Prefix(path, es)
  {
    hide Leaves, NoneGiven;
    if es != [] {
      NothingGiven(Leaves(path[0]));
    }
  }

  lemma {:induction false} WholeIsPrefix(path: seq<Node>, es: seq<Elem>)
    requires |path| == |es| && Whole(path, es)
    ensures Prefix(path, es)
    decreases |es|
  {
    hide Leaves, AllGiven;
    if Bare(es) {
      BareIsPrefix(path, es);
    } else {
      WholeIsPrefix(path[1..], es[1..]);
    }
  }

  // Counting keys.

  predicate NoFalsy(vals: seq<Cbor>) { forall i :: 0 <= i < |vals| ==> !Falsy(vals[i]) }

  function KeyCount(es: seq<Elem>): nat { if es == [] then 0 else |es[0].keys| + KeyCount(es[1..]) }

  lemma {:induction false} TookCount(c: Codec, leaves: seq<Node>, vals: seq<Cbor>)
    ensures |Took(c, leaves, vals)| + |Over(leaves, vals)| <= |vals|
    ensures |Took(c, leaves, vals)| + |Over(leaves, vals)| == |vals| && NoFalsy(Over(leaves, vals)) ==> NoFalsy(vals)
  {
    if leaves != [] && vals != [] {
      TookCount(c, leaves[1..], vals[1..]);
      assert Over(leaves, vals) == Over(leaves[1..], vals[1..]);
      assert forall i :: 1 <= i < |vals| ==> vals[i] == vals[1..][i - 1];
    }
  }

  /** No more keys are printed than values were sent, and as many only if none is null or false. */
  lemma {:induction false} ReadCount(c: Codec, path: seq<Node>, vals: seq<Cbor>)
    ensures KeyCount(Read(c, path, vals)) <= |vals|
    ensures KeyCount(Read(c, path, vals)) == |vals| ==> NoFalsy(vals)
    decreases |path|
  {
    hide Leaves, Took, Over;
    if path != [] {
      var leaves := Leaves(path[0]);
      TookCount(c, leaves, vals);
      ReadCount(c, path[1..], Over(leaves, vals));
      assert Read(c, path, vals)[1..] == Read(c, path[1..], Over(leaves, vals));
    }
  }

  lemma {:induction false} OrderedCount(c: Codec, leaves: seq<Node>, keys: seq<(string, string)>)
    requires KeysOk(c, leaves, keys)
    ensures |Ordered(Args(leaves), keys)| == |Sent(c, leaves, keys)|
    ensures Shown(c, leaves, keys) == Ordered(Args(leaves), keys) <==> NoneHidden(c, leaves, keys)
    ensures |Shown(c, leaves, keys)| <= |Ordered(Args(leaves), keys)|
  {
    hide KeysOk;
    if leaves != [] {
      KeysOkTail(c, leaves, keys);
      OrderedCount(c, leaves[1..], keys);
      assert Args(leaves)[1..] == Args(leaves[1..]) && Args(leaves)[0] == leaves[0].arg;
      var a, b, xs := Shown(c, leaves[1..], keys), Ordered(Args(leaves[1..]), keys), Sent(c, leaves[1..], keys);
      var x := Encoded(c, leaves[0], keys);
      assert NoneHidden(c, leaves, keys) <==> !Hidden(c, leaves[0], keys) && NoneHidden(c, leaves[1..], keys) by {
        assert forall i :: 1 <= i < |leaves| ==> leaves[i] == leaves[1..][i - 1];
      }
      if x.Some? {
        var k := (leaves[0].arg, ValueOf(keys, leaves[0].arg).value);
        assert ([k] + a == [k] + b) <==> a == b by {
          assert ([k] + a)[1..] == a && ([k] + b)[1..] == b;
        }
      } else {
        assert [] + a == a && [] + b == b && [] + xs == xs;
      }
    }
  }

  predicate NoneHidden(c: Codec, leaves: seq<Node>, keys: seq<(string, string)>)
  {
    forall i :: 0 <= i < |leaves| ==> !Hidden(c, leaves[i], keys)
  }

  /** No given key is encoded as null or false. */
  predicate AllShown(c: Codec, path: seq<Node>, es: seq<Elem>)
    requires |path| == |es|
  {
    forall i :: 0 <= i < |es| ==> NoneHidden(c, Leaves(path[i]), es[i].keys)
  }

  lemma ShownTail(c: Codec, path: seq<Node>, es: seq<Elem>)
    requires |path| == |es| && es != []
    ensures AllShown(c, path, es) <==> NoneHidden(c, Leaves(path[0]), es[0].keys) && AllShown(c, path[1..], es[1..])
  {
    hide Leaves, NoneHidden;
    assert forall i :: 1 <= i < |es| ==> path[i] == path[1..][i - 1] && es[i] == es[1..][i - 1];
  }

  lemma NoFalsyConcat(a: seq<Cbor>, b: seq<Cbor>)
    ensures NoFalsy(a + b) <==> NoFalsy(a) && NoFalsy(b)
  {
    assert forall i :: 0 <= i < |a| ==> (a + b)[i] == a[i];
    assert forall i :: 0 <= i < |b| ==> (a + b)[|a| + i] == b[i];
  }

  lemma {:induction false} ShownIsNoFalsy(c: Codec, path: seq<Node>, es: seq<Elem>)
    requires |path| == |es|
    ensures AllShown(c, path, es) <==> NoFalsy(SentAll(c, path, es))
    decreases |es|
  {
    hide Sent, Leaves, NoFalsy, NoneHidden, AllShown;
    if es == [] {
      assert AllShown(c, path, es) && NoFalsy([]) by {
        NothingHidden(c, path, es);
      }
    } else {
      NoFalsyConcat(Sent(c, Leaves(path[0]), es[0].keys), SentAll(c, path[1..], es[1..]));
      ShownIsNoFalsy(c, path[1..], es[1..]);
      ShownTail(c, path, es);
      HiddenIsFalsy(c, Leaves(path[0]), es[0].keys);
    }
  }

  lemma NothingHidden(c: Codec, path: seq<Node>, es: seq<Elem>)
    requires path == [] && es == []
    ensures AllShown(c, path, es) && NoFalsy([])
  {
  }

  lemma {:induction false} HiddenIsFalsy(c: Codec, leaves: seq<Node>, keys: seq<(string, string)>)
    ensures NoneHidden(c, leaves, keys) <==> NoFalsy(Sent(c, leaves, keys))
  {
    if leaves != [] {
      HiddenIsFalsy(c, leaves[1..], keys);
      assert NoneHidden(c, leaves, keys) <==> !Hidden(c, leaves[0], keys) && NoneHidden(c, leaves[1..], keys) by {
        assert forall i :: 1 <= i < |leaves| ==> leaves[i] == leaves[1..][i - 1];
      }
      var x, xs := Encoded(c, leaves[0], keys), Sent(c, leaves[1..], keys);
      NoFalsyConcat(if x.None? then [] else [x.value], xs);
      assert x.Some? ==> (NoFalsy([x.value]) <==> !Falsy([x.value][0]));
    }
  }

  /** Everything is printed iff nothing was hidden. */
  lemma {:induction false} DisplayIs(c: Codec, path: seq<Node>, es: seq<Elem>)
    requires |path| == |es| && ElementsOk(c, path, es)
    ensures Display(c, path, es) == InSchemaOrder(path, es) <==> AllShown(c, path, es)
    ensures KeyCount(InSchemaOrder(path, es)) == |SentAll(c, path, es)|
    decreases |es|
  {
    hide Sent, Shown, Ordered, Leaves, KeysOk, Regular, Clean, NoneHidden;
    if es != [] {
      ElementsTail(c, path, es);
      DisplayIs(c, path[1..], es[1..]);
      RegularLeaves(path[0]);
      OrderedCount(c, Leaves(path[0]), es[0].keys);
      ShownTail(c, path, es);
      var a, b := Display(c, path[1..], es[1..]), InSchemaOrder(path[1..], es[1..]);
      assert InSchemaOrder(path, es)[0] == Elem(es[0].name, Ordered(Names(path[0]), es[0].keys));
      assert Display(c, path, es)[0] == Elem(es[0].name, Shown(c, Leaves(path[0]), es[0].keys));
      assert Display(c, path, es)[1..] == a && InSchemaOrder(path, es)[1..] == b;
    }
  }

  /** The keys printed of the values sent are those given in order: then the given ones come first. */
  lemma {:induction false} TookOrdered(c: Codec, leaves: seq<Node>, keys: seq<(string, string)>, vals: seq<Cbor>)
    requires Took(c, leaves, vals) == Ordered(Args(leaves), keys) && NoFalsy(vals) && KeyOrder.Distinct(Args(leaves))
    ensures FirstGiven(leaves, keys)
  {
    if leaves == [] {
    } else {
      GivenTail(leaves, keys);
      var args := Args(leaves);
      assert args[0] == leaves[0].arg && args[1..] == Args(leaves[1..]);
      if ValueOf(keys, args[0]).None? {
        assert Ordered(args, keys) == Ordered(args[1..], keys);
        NotFirst(args[1..], keys, args[0]);
        OrderedNone(leaves[1..], keys);
      } else {
        assert vals != [];
        assert Took(c, leaves, vals)[1..] == Took(c, leaves[1..], vals[1..]);
        assert Ordered(args, keys)[1..] == Ordered(args[1..], keys);
        TookOrdered(c, leaves[1..], keys, vals[1..]);
      }
    }
  }

  lemma {:induction false} NotFirst(names: seq<string>, keys: seq<(string, string)>, name: string)
    requires forall i :: 0 <= i < |names| ==> names[i] != name
    ensures Ordered(names, keys) == [] || Ordered(names, keys)[0].0 != name
  {
    hide ValueOf;
    if names == [] {
    } else if ValueOf(keys, names[0]).Some? {
      assert Ordered(names, keys)[0].0 == names[0];
    } else {
      NotFirst(names[1..], keys, name);
      assert Ordered(names, keys) == Ordered(names[1..], keys);
    }
  }

  lemma {:induction false} OrderedNone(leaves: seq<Node>, keys: seq<(string, string)>)
    requires Ordered(Args(leaves), keys) == []
    ensures NoneGiven(leaves, keys)
  {
    if leaves != [] {
      assert Args(leaves)[0] == leaves[0].arg && Args(leaves)[1..] == Args(leaves[1..]);
      OrderedNone(leaves[1..], keys);
      GivenTail(leaves, keys);
    }
  }

  lemma {:induction false} TookAll(c: Codec, leaves: seq<Node>, vals: seq<Cbor>)
    requires NoFalsy(vals)
    ensures |Took(c, leaves, vals)| == if |leaves| <= |vals| then |leaves| else |vals|
  {
    if leaves != [] && vals != [] {
      assert forall i :: 1 <= i < |vals| ==> vals[i] == vals[1..][i - 1];
      TookAll(c, leaves[1..], vals[1..]);
    }
  }

  lemma {:induction false} SentBound(c: Codec, leaves: seq<Node>, keys: seq<(string, string)>)
    ensures |Sent(c, leaves, keys)| <= |leaves|
    ensures |Sent(c, leaves, keys)| == |leaves| ==> AllGiven(leaves, keys)
  {
    if leaves != [] {
      SentBound(c, leaves[1..], keys);
      GivenTail(leaves, keys);
    }
  }

  /** Who sends nothing was given nothing. */
  lemma {:induction false} SilentIsBare(c: Codec, path: seq<Node>, es: seq<Elem>)
    requires |path| == |es| && ElementsOk(c, path, es) && SentAll(c, path, es) == []
    ensures Bare(es)
    decreases |es|
  {
    hide Leaves, KeysOk, Regular, Clean, Sent;
    if es != [] {
      ElementsTail(c, path, es);
      SilentIsBare(c, path[1..], es[1..]);
      SilentElement(c, path[0], es[0]);
      assert forall i :: 1 <= i < |es| ==> es[i] == es[1..][i - 1];
    }
  }

  lemma SilentElement(c: Codec, node: Node, e: Elem)
    requires ElementOk(c, node, e) && Sent(c, Leaves(node), e.keys) == []
    ensures e.keys == []
  {
    hide KeysOk, Regular, Leaves, Clean;
    RegularLeaves(node);
    var leaves := Leaves(node);
    if e.keys != [] {
      var j :| 0 <= j < |Names(node)| && Names(node)[j] == e.keys[0].0;
      assert leaves[j].arg == e.keys[0].0;
      KeyIsSent(c, leaves, e.keys, j);
    }
  }

  lemma {:induction false} KeyIsSent(c: Codec, leaves: seq<Node>, keys: seq<(string, string)>, j: nat)
    requires KeysOk(c, leaves, keys) && j < |leaves| && ValueOf(keys, leaves[j].arg).Some?
    ensures Sent(c, leaves, keys) != []
  {
    KeysOkTail(c, leaves, keys);
    if j > 0 {
      KeyIsSent(c, leaves[1..], keys, j - 1);
    }
  }

  /** If what was printed is what was given, with nothing hidden, then the given keys come first. */
  lemma {:induction false} ReadPrefix(c: Codec, path: seq<Node>, es: seq<Elem>)
    requires |path| == |es| && ElementsOk(c, path, es) && NoFalsy(SentAll(c, path, es))
    requires Read(c, path, SentAll(c, path, es)) == InSchemaOrder(path, es)
    ensures Prefix(path, es)
    decreases |es|
  {
    hide Leaves, KeysOk, Regular, Clean, Sent, Took, Ordered, AllGiven, FirstGiven;
    if es != [] {
      ElementsTail(c, path, es);
      var leaves, keys, vals := Leaves(path[0]), es[0].keys, SentAll(c, path, es);
      var own, rest := Sent(c, leaves, keys), SentAll(c, path[1..], es[1..]);
      RegularLeaves(path[0]);
      assert Read(c, path, vals)[0] == InSchemaOrder(path, es)[0];
      assert Read(c, path, vals)[1..] == InSchemaOrder(path, es)[1..];
      OrderedCount(c, leaves, keys);
      TookAll(c, leaves, vals);
      SentBound(c, leaves, keys);
      NoFalsyConcat(own, rest);
      if |own| == |leaves| {
        assert Over(leaves, vals) == rest;
        ReadPrefix(c, path[1..], es[1..]);
      } else {
        assert rest == [];
        SilentIsBare(c, path[1..], es[1..]);
        TookOrdered(c, leaves, keys, vals);
      }
    }
  }

  /** What is printed is what was given iff the given keys come first and none was hidden. */
  lemma ReadIff(c: Codec, s: Node, path: seq<Node>, es: seq<Elem>)
    requires Follows(s, path, es) && ElementsOk(c, path, es)
    ensures Read(c, path, SentAll(c, path, es)) == InSchemaOrder(path, es) <==> Prefix(path, es) && AllShown(c, path, es)
  {
    hide ElementsOk, Read, InSchemaOrder, SentAll, Prefix, AllShown, Follows, Display, NoFalsy;
    FollowsLength(s, path, es);
    DisplayIs(c, path, es);
    ShownIsNoFalsy(c, path, es);
    if Prefix(path, es) {
      ReadDisplay(c, s, path, es);
    }
    if Read(c, path, SentAll(c, path, es)) == InSchemaOrder(path, es) {
      ReadCount(c, path, SentAll(c, path, es));
      ReadPrefix(c, path, es);
    }
  }

  lemma FollowsLength(s: Node, path: seq<Node>, es: seq<Elem>)
    requires Follows(s, path, es)
    ensures |path| == |es|
  {
  }

  // There and back.

  /** Whatever key a value is printed for, its text has no bracket and no newline. */
  ghost predicate Legible(c: Codec, vals: seq<Cbor>)
  {
    forall ty, i :: 0 <= i < |vals| ==> Free(c.dec(ty, vals[i]), "[]\n")
  }

  lemma {:induction false} TookIsClean(c: Codec, leaves: seq<Node>, vals: seq<Cbor>)
    requires Legible(c, vals) && forall i :: 0 <= i < |leaves| ==> leaves[i].arg != "" && Free(leaves[i].arg, "[]=\n")
    ensures forall i :: 0 <= i < |Took(c, leaves, vals)| ==> CleanKey(Took(c, leaves, vals)[i])
  {
    hide Free;
    if leaves != [] && vals != [] {
      assert forall i :: 0 <= i < |vals| - 1 ==> vals[1..][i] == vals[i + 1];
      assert Legible(c, vals[1..]);
      TookIsClean(c, leaves[1..], vals[1..]);
      assert Free(c.dec(leaves[0].ty, vals[0]), "[]\n");
    }
  }

  lemma {:induction false} ReadIsClean(c: Codec, s: Node, path: seq<Node>, es: seq<Elem>, vals: seq<Cbor>)
    requires Follows(s, path, es) && ElementsOk(c, path, es) && Legible(c, vals)
    ensures forall i :: 0 <= i < |path| ==> Clean(Read(c, path, vals)[i])
    decreases |es|
  {
    hide Leaves, KeysOk, Regular, Took, Free, CleanKey;
    if es != [] {
      var leaves := Leaves(path[0]);
      var rest := Over(leaves, vals);
      ElementsTail(c, path, es);
      RegularLeaves(path[0]);
      assert forall i :: 0 <= i < |leaves| ==> leaves[i].arg == Names(path[0])[i];
      TookIsClean(c, leaves, vals);
      ByArgFinds(s.kids, es[0].name);
      assert Legible(c, rest) by {
        assert forall i :: 0 <= i < |rest| ==> rest[i] == vals[|leaves| + i];
      }
      ReadIsClean(c, path[0], path[1..], es[1..], rest);
      var r := Read(c, path, vals);
      assert r[1..] == Read(c, path[1..], rest);
      assert forall i :: 1 <= i < |path| ==> r[i] == r[1..][i - 1];
    }
  }

  lemma {:induction false} OrderIsClean(names: seq<string>, keys: seq<(string, string)>)
    requires forall i :: 0 <= i < |keys| ==> CleanKey(keys[i])
    ensures forall i :: 0 <= i < |Ordered(names, keys)| ==> CleanKey(Ordered(names, keys)[i])
  {
    hide CleanKey;
    if names != [] {
      OrderIsClean(names[1..], keys);
      ValueIsKey(keys, names[0]);
    }
  }

  lemma {:induction false} ValueIsKey(keys: seq<(string, string)>, name: string)
    ensures ValueOf(keys, name).Some? ==> (name, ValueOf(keys, name).value) in keys
  {
    if keys != [] {
      ValueIsKey(keys[1..], name);
    }
  }

  lemma {:induction false} SchemaOrderIsClean(path: seq<Node>, es: seq<Elem>)
    requires |path| == |es| && forall i :: 0 <= i < |es| ==> Clean(es[i])
    ensures forall i :: 0 <= i < |es| ==> Clean(InSchemaOrder(path, es)[i])
    decreases |es|
  {
    hide Ordered, CleanKey, Free;
    if es != [] {
      OrderIsClean(Names(path[0]), es[0].keys);
      SchemaOrderIsClean(path[1..], es[1..]);
      var r := InSchemaOrder(path, es);
      assert forall i :: 1 <= i < |es| ==> r[i] == InSchemaOrder(path[1..], es[1..])[i - 1];
    }
  }

  lemma {:induction false} FollowsIsPath(s: Node, path: seq<Node>, es: seq<Elem>)
    requires Follows(s, path, es)
    ensures IsPath(s, path)
    decreases |es|
  {
    if es != [] {
      ByArgFinds(s.kids, es[0].name);
      FollowsIsPath(path[0], path[1..], es[1..]);
    }
  }

  lemma ElementsAreClean(c: Codec, path: seq<Node>, es: seq<Elem>)
    requires |path| == |es| && ElementsOk(c, path, es)
    ensures forall i :: 0 <= i < |es| ==> Clean(es[i]) && Regular(path[i])
  {
    hide Clean, Regular, KeysFit, KeysOk;
  }

  /** The text that comes back: the path with its first keys, as many as values were sent. */
  lemma ThereAndBack(c: Codec, schema: Node, path: seq<Node>, es: seq<Elem>)
    requires Follows(schema, path, es) && ElementsOk(c, path, es) && AllNamed(es)
    requires DistinctSids(c.sids, schema) && SidOf(c.sids, End(schema, path)).Some?
    ensures var x := ToCbor(c, schema, Print(es));
            x.Some? && FromCbor(c, schema, x.value) == Some(Print(Read(c, path, SentAll(c, path, es))))
  {
    hide ElementsOk, Split, Print, PathText, Resolve, DistinctSids, Follows, EncodeKeys, Clean, Regular, AllNamed, SentAll, Read;
    FollowsLength(schema, path, es);
    ElementsAreClean(c, path, es);
    SplitPrinted(es);
    ElementsResolve(c, schema, path, es);
    PathPrints(c, path, SentAll(c, path, es));
    FollowsIsPath(schema, path, es);
    LocateIsExact(c.sids, schema, SidOf(c.sids, End(schema, path)).value, path);
  }

  /** Text to CBOR and back, when the given keys come first: the same path, with the keys that are neither null nor false. */
  lemma RoundTripShows(c: Codec, schema: Node, path: seq<Node>, es: seq<Elem>)
    requires Follows(schema, path, es) && ElementsOk(c, path, es) && AllNamed(es) && Prefix(path, es)
    requires DistinctSids(c.sids, schema) && SidOf(c.sids, End(schema, path)).Some?
    ensures var x := ToCbor(c, schema, Print(es));
            x.Some? && FromCbor(c, schema, x.value) == Some(Print(Display(c, path, es)))
  {
    hide ElementsOk, Print, DistinctSids, Follows, AllNamed, SentAll, Read, Prefix, Display, ToCbor, FromCbor;
    ThereAndBack(c, schema, path, es);
    ReadDisplay(c, schema, path, es);
  }

  /**
   Text to CBOR and back is the same path with its keys in schema order iff the key pattern matches all names of given
   keys, the given keys come first along the path, and none is encoded as null or false. A name that the pattern does
   not match makes the encoder raise, when each element has all its keys or the rest of the path has none.
   */
  lemma RoundTrip(c: Codec, schema: Node, path: seq<Node>, es: seq<Elem>)
    requires Follows(schema, path, es) && ElementsOk(c, path, es) && Legible(c, SentAll(c, path, es))
    requires AllNamed(es) || Whole(path, es)
    requires DistinctSids(c.sids, schema) && SidOf(c.sids, End(schema, path)).Some?
    ensures var x := ToCbor(c, schema, Print(es));
            && (x.Some? <==> AllNamed(es))
            && (x.Some? && FromCbor(c, schema, x.value) == Some(Print(InSchemaOrder(path, es))) <==>
                  AllNamed(es) && Prefix(path, es) && AllShown(c, path, es))
  {
    hide ElementsOk, Print, DistinctSids, Follows, AllNamed, SentAll, Read, Prefix, FromCbor, AllShown, Split, Resolve,
      InSchemaOrder, Legible, Whole, Clean, Regular;
    FollowsLength(schema, path, es);
    ElementsAreClean(c, path, es);
    if AllNamed(es) {
      ThereAndBack(c, schema, path, es);
      var r := Read(c, path, SentAll(c, path, es));
      ReadIsClean(c, schema, path, es, SentAll(c, path, es));
      SchemaOrderIsClean(path, es);
      ReadIff(c, schema, path, es);
      if Print(r) == Print(InSchemaOrder(path, es)) {
        PrintInjective(r, InSchemaOrder(path, es));
      }
    } else {
      SplitPrinted(es);
      ElementsRaise(c, schema, path, es);
    }
  }
}
