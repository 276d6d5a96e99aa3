/**
 JSON trees as CBOR trees keyed by SID deltas, and back. The schema's SIDs live in a table that the
 codec changes while it works inside an rpc or an action.
 */
module YangTree {
  import opened Common

  datatype Json =
    JNull | JBool(b: bool) | JNum(n: int) | JStr(s: string) | JArr(items: seq<Json>) | JObj(members: seq<(string, Json)>)

  datatype Key = Sid(n: int) | OtherKey(s: string)

  datatype Cbor =
    CNull | CBool(b: bool) | CScalar(tag: int, n: int, s: string) | CArr(items: seq<Cbor>) | CMap(entries: seq<(Key, Cbor)>)

  datatype Kw = Module | Container | Input | Output | ListKw | Leaf | LeafList | Anydata | Rpc | Action | OtherKw(name: string)

  function KwName(k: Kw): string
  {
    match k
    case Module => "module"
    case Container => "container"
    case Input => "input"
    case Output => "output"
    case ListKw => "list"
    case Leaf => "leaf"
    case LeafList => "leaf-list"
    case Anydata => "anydata"
    case Rpc => "rpc"
    case Action => "action"
    case OtherKw(n) => n
  }

  /** A schema node; its SID is in a table, under its id. */
  datatype Node = Node(id: nat, kw: Kw, arg: string, ty: nat, keys: Option<seq<string>>, kids: seq<Node>)

  /** What a run depends on. None from the leaf codec, as everywhere here, means that the source raises. */
  datatype Env = Env(declared: map<nat, Option<int>>, loose: bool, lenient: bool, ds: Node,
                     encLeaf: (nat, Json, bool) -> Option<Cbor>, decLeaf: (nat, Cbor, bool) -> Option<Json>)

  const FACTORY := "board:factory_default_config"

  predicate HashLike(k: Kw) { k.Module? || k.Container? || k.Input? || k.Output? }

  predicate Call(k: Kw) { k.Rpc? || k.Action? }

  function SidOf(sids: map<nat, Option<int>>, n: Node): Option<int> { if n.id in sids then sids[n.id] else None }

  function ByArg(kids: seq<Node>, arg: string): Option<Node>
  {
    if kids == [] then None else if kids[0].arg == arg then Some(kids[0]) else ByArg(kids[1..], arg)
  }

  function BySid(sids: map<nat, Option<int>>, kids: seq<Node>, sid: int): Option<Node>
  {
    if kids == [] then None else if SidOf(sids, kids[0]) == Some(sid) then Some(kids[0]) else BySid(sids, kids[1..], sid)
  }

  function ByKw(kids: seq<Node>, name: string): Option<Node>
  {
    if kids == [] then None else if KwName(kids[0].kw) == name then Some(kids[0]) else ByKw(kids[1..], name)
  }

  /** Assignment into an ordered hash. */
  function Put<K(==), V>(s: seq<(K, V)>, k: K, v: V): seq<(K, V)>
  {
    if s == [] then [(k, v)] else if s[0].0 == k then [(k, v)] + s[1..] else [s[0]] + Put(s[1..], k, v)
  }

  // ---------- JSON to CBOR ----------

  /** base is the SID of the node at hand: its own, or its rpc's. */
  function Enc(e: Env, base: Option<int>, node: Node, json: Json): Option<Cbor>
    decreases json, if node.kw.Anydata? then 4 else 3, 0
  {
    var b := if node.kw.Module? then Some(0) else base;
    if HashLike(node.kw) then
      if json.JObj? then var es := EncHash(e, b, node, json, |json.members|); if es.None? then None else Some(CMap(es.value))
      else if e.lenient then Some(CMap([])) else None
    else if node.kw.ListKw? then
      if json.JArr? then var xs := EncArray(e, b, node, json, |json.items|); if xs.None? then None else Some(CArr(xs.value))
      else if e.loose && json.JObj? then
        var es := EncHash(e, b, node, json, |json.members|); if es.None? then None else Some(CMap(es.value))
      else if e.lenient then Some(CArr([])) else None
    else if node.kw.Leaf? then e.encLeaf(node.ty, json, e.lenient)
    else if node.kw.LeafList? then
      if json.JArr? then var xs := EncLeaves(e, node, json.items); if xs.None? then None else Some(CArr(xs.value))
      else None
    else if node.kw.Anydata? then
      if node.arg != FACTORY then Some(CNull)
      else if e.ds.kw.Module? then Enc(e, Some(0), e.ds, json) else None
    else if Call(node.kw) then
      if node.kids == [] || json == JNull || json == JBool(false) then Some(CNull)
      else if !json.JObj? then None
      else if json.members == [] then Some(CNull)
      else
        var kid := ByKw(node.kids, json.members[0].0);
        var body := json.members[0].1;
        if kid.Some? && body.JObj? && body.members != [] then Enc(e, b, kid.value, body) else Some(CNull)
    else None
  }

  /** The first n members; a member without a child or a SID is skipped, or raises. */
  function EncHash(e: Env, b: Option<int>, node: Node, json: Json, n: nat): Option<seq<(Key, Cbor)>>
    requires json.JObj? && n <= |json.members|
    decreases json, 1, n
  {
    if n == 0 then Some([]) else
      var front := EncHash(e, b, node, json, n - 1);
      var child := ByArg(node.kids, json.members[n - 1].0);
      if front.None? then None
      else if child.None? || SidOf(e.declared, child.value).None? then if e.lenient then front else None
      else if b.None? then None
      else
        var x := Enc(e, SidOf(e.declared, child.value), child.value, json.members[n - 1].1);
        if x.None? then None else Some(Put(front.value, Sid(SidOf(e.declared, child.value).value - b.value), x.value))
  }

  function EncArray(e: Env, b: Option<int>, node: Node, json: Json, n: nat): Option<seq<Cbor>>
    requires json.JArr? && n <= |json.items|
    decreases json, 2, n
  {
    if n == 0 then Some([]) else
      var front := EncArray(e, b, node, json, n - 1);
      var entry := json.items[n - 1];
      if front.None? || !entry.JObj? then None
      else
        var es := EncHash(e, b, node, entry, |entry.members|);
        if es.None? then None else Some(front.value + [CMap(es.value)])
  }

  function EncLeaves(e: Env, node: Node, items: seq<Json>): Option<seq<Cbor>>
  {
    if items == [] then Some([]) else
      var n := |items| - 1;
      var front, x := EncLeaves(e, node, items[..n]), e.encLeaf(node.ty, items[n], e.lenient);
      if front.None? || x.None? then None else Some(front.value + [x.value])
  }

  // ---------- CBOR to JSON ----------

  function Dec(e: Env, base: Option<int>, node: Node, cbor: Cbor): Option<Json>
    decreases cbor, if node.kw.Anydata? || Call(node.kw) then 4 else 3, 0
  {
    var b := if node.kw.Module? then Some(0) else base;
    if HashLike(node.kw) then
      if cbor.CMap? then var ms := DecHash(e, b, node, cbor, |cbor.entries|); if ms.None? then None else Some(JObj(ms.value))
      else if e.lenient then Some(JObj([])) else None
    else if node.kw.ListKw? then
      if cbor.CArr? then var xs := DecArray(e, b, node, cbor, |cbor.items|); if xs.None? then None else Some(JArr(xs.value))
      else if e.loose && cbor.CMap? then
        var ms := DecHash(e, b, node, cbor, |cbor.entries|); if ms.None? then None else Some(JObj(ms.value))
      else if e.lenient then Some(JArr([])) else None
    else if node.kw.Leaf? then e.decLeaf(node.ty, cbor, e.lenient)
    else if node.kw.LeafList? then
      if cbor.CArr? then var xs := DecLeaves(e, node, cbor.items); if xs.None? then None else Some(JArr(xs.value))
      else None
    else if node.kw.Anydata? then
      if node.arg != FACTORY then Some(JNull)
      else if e.ds.kw.Module? then Dec(e, Some(0), e.ds, cbor) else None
    else if Call(node.kw) then
      if cbor == CNull then Some(JNull)
      else if !cbor.CMap? then None
      else if cbor.entries == [] then Some(JObj([]))
      else if !cbor.entries[0].0.Sid? || b.None? then None
      else
        var parent := Parent(e.declared, node.kids, cbor.entries[0].0.n + b.value);
        if parent.None? || !HashLike(parent.value.kw) then None else
          var x := Dec(e, b, parent.value, cbor);
          if x.None? then None else Some(JObj([(KwName(parent.value.kw), x.value)]))
    else None
  }

  /** The input or output with a child of that SID; None if there is none, or another keyword comes first. */
  function Parent(sids: map<nat, Option<int>>, kids: seq<Node>, sid: int): (r: Option<Node>)
    ensures r.Some? ==> r.value in kids && (r.value.kw.Input? || r.value.kw.Output?)
  {
    if kids == [] || !(kids[0].kw.Input? || kids[0].kw.Output?) then None
    else if BySid(sids, kids[0].kids, sid).Some? then Some(kids[0])
    else Parent(sids, kids[1..], sid)
  }

  function DecHash(e: Env, b: Option<int>, node: Node, cbor: Cbor, n: nat): Option<seq<(string, Json)>>
    requires cbor.CMap? && n <= |cbor.entries|
    decreases cbor, 1, n
  {
    if n == 0 then Some([]) else
      var front := DecHash(e, b, node, cbor, n - 1);
      var key := cbor.entries[n - 1].0;
      if front.None? then None
      else if !key.Sid? then if e.lenient then front else None
      else if b.None? then None
      else
        var child := BySid(e.declared, node.kids, key.n + b.value);
        if child.None? then if e.lenient then front else None
        else
          var x := Dec(e, SidOf(e.declared, child.value), child.value, cbor.entries[n - 1].1);
          if x.None? then None else Some(Put(front.value, child.value.arg, x.value))
  }

  function DecArray(e: Env, b: Option<int>, node: Node, cbor: Cbor, n: nat): Option<seq<Json>>
    requires cbor.CArr? && n <= |cbor.items|
    decreases cbor, 2, n
  {
    if n == 0 then Some([]) else
      var front := DecArray(e, b, node, cbor, n - 1);
      var entry := cbor.items[n - 1];
      if front.None? || !entry.CMap? then None
      else
        var ms := DecHash(e, b, node, entry, |entry.entries|);
        if ms.None? then None else Some(front.value + [JObj(ms.value)])
  }

  function DecLeaves(e: Env, node: Node, items: seq<Cbor>): Option<seq<Json>>
  {
    if items == [] then Some([]) else
      var n := |items| - 1;
      var front, x := DecLeaves(e, node, items[..n]), e.decLeaf(node.ty, items[n], e.lenient);
      if front.None? || x.None? then None else Some(front.value + [x.value])
  }

  // ---------- Schema-valid data ----------

  /** Siblings differ in name and in SID. */
  predicate Apart(sids: map<nat, Option<int>>, kids: seq<Node>)
  {
    forall i, j :: 0 <= i < j < |kids| ==>
      kids[i].arg != kids[j].arg && (SidOf(sids, kids[i]) != SidOf(sids, kids[j]) || SidOf(sids, kids[i]).None?)
  }

  predicate DistinctKeys<K(==), V>(s: seq<(K, V)>) { forall i, j :: 0 <= i < j < |s| ==> s[i].0 != s[j].0 }

  /** A leaf value that the codec takes there and back. */
  predicate LeafOk(e: Env, ty: nat, v: Json)
  {
    var x := e.encLeaf(ty, v, e.lenient);
    x.Some? && e.decLeaf(ty, x.value, e.lenient) == Some(v)
  }

  /** An object whose members are valid under the children of node. */
  predicate ValidMembers(e: Env, node: Node, json: Json)
    requires json.JObj?
    decreases json, 0
  {
    && Apart(e.declared, node.kids) && DistinctKeys(json.members)
    && forall i :: 0 <= i < |json.members| ==>
        var child := ByArg(node.kids, json.members[i].0);
        child.Some? && SidOf(e.declared, child.value).Some? && Valid(e, child.value, json.members[i].1)
  }

  predicate Valid(e: Env, node: Node, json: Json)
    decreases json, if node.kw.Anydata? then 2 else 1
  {
    if HashLike(node.kw) then json.JObj? && ValidMembers(e, node, json)
    else if node.kw.ListKw? then
      || (json.JArr? && forall i :: 0 <= i < |json.items| ==> json.items[i].JObj? && ValidMembers(e, node, json.items[i]))
      || (e.loose && json.JObj? && ValidMembers(e, node, json))
    else if node.kw.Leaf? then LeafOk(e, node.ty, json)
    else if node.kw.LeafList? then json.JArr? && forall i :: 0 <= i < |json.items| ==> LeafOk(e, node.ty, json.items[i])
    else if node.kw.Anydata? then node.arg == FACTORY && e.ds.kw.Module? && Valid(e, e.ds, json)
    else if Call(node.kw) then
      && json.JObj? && |json.members| == 1 && InOut(e.declared, node.kids)
      && var kid, body := ByKw(node.kids, json.members[0].0), json.members[0].1;
         kid.Some? && body.JObj? && body.members != [] && Valid(e, kid.value, body)
    else false
  }

  /** Inputs and outputs only, each keyword once, and no SID under two of them. */
  predicate InOut(sids: map<nat, Option<int>>, kids: seq<Node>)
  {
    && (forall i :: 0 <= i < |kids| ==> kids[i].kw.Input? || kids[i].kw.Output?)
    && (forall i, j :: 0 <= i < j < |kids| ==> kids[i].kw != kids[j].kw && NoCommonSid(sids, kids[i].kids, kids[j].kids))
  }

  predicate NoCommonSid(sids: map<nat, Option<int>>, a: seq<Node>, b: seq<Node>)
  {
    forall i, j :: 0 <= i < |a| && 0 <= j < |b| ==> SidOf(sids, a[i]) != SidOf(sids, b[j]) || SidOf(sids, a[i]).None?
  }

  // ---------- Round trip ----------

  lemma {:induction false} PutNew<K, V>(s: seq<(K, V)>, k: K, v: V)
    requires forall i :: 0 <= i < |s| ==> s[i].0 != k
    ensures Put(s, k, v) == s + [(k, v)]
  {
    if s != [] {
      PutNew(s[1..], k, v);
    }
  }

  lemma {:induction false} ByArgFinds(kids: seq<Node>, arg: string)
    ensures var r := ByArg(kids, arg); r.Some? ==> r.value in kids && r.value.arg == arg
  {
    if kids != [] && kids[0].arg != arg {
      ByArgFinds(kids[1..], arg);
    }
  }

  /** With distinct SIDs the child that has a SID is the child found by it. */
  lemma {:induction false} BySidFinds(sids: map<nat, Option<int>>, kids: seq<Node>, child: Node)
    requires Apart(sids, kids) && child in kids && SidOf(sids, child).Some?
    ensures BySid(sids, kids, SidOf(sids, child).value) == Some(child)
  {
    if SidOf(sids, kids[0]) == SidOf(sids, child) {
      var i :| 0 <= i < |kids| && kids[i] == child;
    } else {
      BySidFinds(sids, kids[1..], child);
    }
  }

  function ChildOf(node: Node, json: Json, i: nat): Node
    requires json.JObj? && i < |json.members| && ByArg(node.kids, json.members[i].0).Some?
  {
    ByArg(node.kids, json.members[i].0).value
  }

  /** The entry that member i becomes. */
  ghost predicate EntryOf(e: Env, b: int, node: Node, json: Json, i: nat, entry: (Key, Cbor))
    requires json.JObj? && i < |json.members|
  {
    var child := ByArg(node.kids, json.members[i].0);
    && child.Some? && SidOf(e.declared, child.value).Some?
    && entry.0 == Sid(SidOf(e.declared, child.value).value - b)
    && Enc(e, SidOf(e.declared, child.value), child.value, json.members[i].1) == Some(entry.1)
    && Dec(e, SidOf(e.declared, child.value), child.value, entry.1) == Some(json.members[i].1)
  }

  /** Every member survives on its own. */
  ghost predicate MembersTrip(e: Env, node: Node, json: Json)
    requires json.JObj?
  {
    forall i :: 0 <= i < |json.members| ==> MemberTrips(e, node, json, i)
  }

  ghost predicate MemberTrips(e: Env, node: Node, json: Json, i: nat)
    requires json.JObj? && i < |json.members|
  {
    var child := ByArg(node.kids, json.members[i].0);
    && child.Some? && SidOf(e.declared, child.value).Some?
    && Trips(e, SidOf(e.declared, child.value), child.value, json.members[i].1)
  }

  ghost predicate Trips(e: Env, base: Option<int>, node: Node, json: Json)
  {
    var x := Enc(e, base, node, json);
    x.Some? && Dec(e, base, node, x.value) == Some(json)
  }

  /** Two members lead to two SIDs. */
  lemma MembersApart(e: Env, node: Node, json: Json, i: nat, j: nat)
    requires json.JObj? && i < j < |json.members| && DistinctKeys(json.members) && Apart(e.declared, node.kids)
    requires MemberTrips(e, node, json, i) && MemberTrips(e, node, json, j)
    ensures SidOf(e.declared, ChildOf(node, json, i)) != SidOf(e.declared, ChildOf(node, json, j))
  {
    hide Enc, Dec, Apart;
    var c, d := ChildOf(node, json, i), ChildOf(node, json, j);
    ByArgFinds(node.kids, json.members[i].0);
    ByArgFinds(node.kids, json.members[j].0);
    BySidFinds(e.declared, node.kids, c);
    BySidFinds(e.declared, node.kids, d);
  }

  lemma {:induction false} EncHashIs(e: Env, b: int, node: Node, json: Json, n: nat)
    requires json.JObj? && n <= |json.members| && DistinctKeys(json.members) && Apart(e.declared, node.kids)
    requires MembersTrip(e, node, json)
    ensures var es := EncHash(e, Some(b), node, json, n);
            es.Some? && |es.value| == n && forall i :: 0 <= i < n ==> EntryOf(e, b, node, json, i, es.value[i])
  {
    hide Enc, Dec, Apart, DistinctKeys, ByArg, SidOf;
    if n > 0 {
      EncHashIs(e, b, node, json, n - 1);
      var front := EncHash(e, Some(b), node, json, n - 1).value;
      assert MemberTrips(e, node, json, n - 1);
      var child := ChildOf(node, json, n - 1);
      var key := Sid(SidOf(e.declared, child).value - b);
      forall i | 0 <= i < n - 1
        ensures front[i].0 != key
      {
        assert MemberTrips(e, node, json, i) && EntryOf(e, b, node, json, i, front[i]);
        MembersApart(e, node, json, i, n - 1);
      }
      PutNew(front, key, Enc(e, SidOf(e.declared, child), child, json.members[n - 1].1).value);
    }
  }

  lemma {:induction false} DecHashIs(e: Env, b: int, node: Node, json: Json, cbor: Cbor, n: nat)
    requires json.JObj? && cbor.CMap? && |cbor.entries| == |json.members| && n <= |json.members|
    requires DistinctKeys(json.members) && Apart(e.declared, node.kids)
    requires forall i :: 0 <= i < |json.members| ==> EntryOf(e, b, node, json, i, cbor.entries[i])
    ensures DecHash(e, Some(b), node, cbor, n) == Some(json.members[..n])
  {
    hide Enc, Dec, Apart, EntryOf, BySid, ByArg;
    if n > 0 {
      DecHashIs(e, b, node, json, cbor, n - 1);
      assert EntryOf(e, b, node, json, n - 1, cbor.entries[n - 1]);
      EntryBack(e, b, node, json, n - 1, cbor.entries[n - 1]);
      var m := json.members[n - 1];
      PutNew(json.members[..n - 1], m.0, m.1);
      assert json.members[..n] == json.members[..n - 1] + [m];
    }
  }

  lemma EntryBack(e: Env, b: int, node: Node, json: Json, i: nat, entry: (Key, Cbor))
    requires json.JObj? && i < |json.members| && EntryOf(e, b, node, json, i, entry) && Apart(e.declared, node.kids)
    ensures entry.0.Sid?
    ensures var child := BySid(e.declared, node.kids, entry.0.n + b);
            && child.Some? && child.value.arg == json.members[i].0
            && Dec(e, SidOf(e.declared, child.value), child.value, entry.1) == Some(json.members[i].1)
  {
    hide Enc, Dec, Apart, ByArg;
    ByArgFinds(node.kids, json.members[i].0);
    BySidFinds(e.declared, node.kids, ChildOf(node, json, i));
  }

  lemma HashTrips(e: Env, b: int, node: Node, json: Json)
    requires json.JObj? && DistinctKeys(json.members) && Apart(e.declared, node.kids) && MembersTrip(e, node, json)
    ensures var es := EncHash(e, Some(b), node, json, |json.members|);
            && es.Some? && |es.value| == |json.members|
            && DecHash(e, Some(b), node, CMap(es.value), |es.value|) == Some(json.members)
  {
    hide EncHash, DecHash, DistinctKeys, Apart, MembersTrip, EntryOf;
    EncHashIs(e, b, node, json, |json.members|);
    var es := EncHash(e, Some(b), node, json, |json.members|).value;
    DecHashIs(e, b, node, json, CMap(es), |es|);
    assert json.members[..|json.members|] == json.members;
  }

  /** One entry of a list survives. */
  ghost predicate RowTrips(e: Env, b: int, node: Node, row: Json)
  {
    && row.JObj?
    && var es := EncHash(e, Some(b), node, row, |row.members|);
       es.Some? && |es.value| == |row.members| && DecHash(e, Some(b), node, CMap(es.value), |es.value|) == Some(row.members)
  }

  ghost predicate RowBecomes(e: Env, b: int, node: Node, row: Json, x: Cbor)
  {
    row.JObj? && x.CMap? && EncHash(e, Some(b), node, row, |row.members|) == Some(x.entries)
  }

  lemma {:induction false} RowsTrip(e: Env, b: int, node: Node, json: Json, n: nat)
    requires json.JArr? && n <= |json.items| && forall i :: 0 <= i < |json.items| ==> RowTrips(e, b, node, json.items[i])
    ensures var xs := EncArray(e, Some(b), node, json, n);
            xs.Some? && |xs.value| == n &&
            forall i :: 0 <= i < n ==> RowBecomes(e, b, node, json.items[i], xs.value[i])
  {
    hide EncHash, DecHash;
    if n > 0 {
      RowsTrip(e, b, node, json, n - 1);
      assert RowTrips(e, b, node, json.items[n - 1]);
    }
  }

  lemma {:induction false} RowsBack(e: Env, b: int, node: Node, json: Json, cbor: Cbor, n: nat)
    requires json.JArr? && cbor.CArr? && |cbor.items| == |json.items| && n <= |json.items|
    requires forall i :: 0 <= i < |json.items| ==> RowTrips(e, b, node, json.items[i])
    requires forall i :: 0 <= i < |json.items| ==> RowBecomes(e, b, node, json.items[i], cbor.items[i])
    ensures DecArray(e, Some(b), node, cbor, n) == Some(json.items[..n])
  {
    hide EncHash, DecHash;
    if n > 0 {
      RowsBack(e, b, node, json, cbor, n - 1);
      var row, x := json.items[n - 1], cbor.items[n - 1];
      assert RowTrips(e, b, node, row) && RowBecomes(e, b, node, row, x);
      assert x == CMap(x.entries) && row == JObj(row.members);
      assert json.items[..n] == json.items[..n - 1] + [row];
    }
  }

  lemma {:induction false} LeavesTrip(e: Env, node: Node, items: seq<Json>)
    requires forall i :: 0 <= i < |items| ==> LeafOk(e, node.ty, items[i])
    ensures var xs := EncLeaves(e, node, items); xs.Some? && |xs.value| == |items| && DecLeaves(e, node, xs.value) == Some(items)
  {
    if items != [] {
      var n := |items| - 1;
      LeavesTrip(e, node, items[..n]);
      assert LeafOk(e, node.ty, items[n]);
      var front := EncLeaves(e, node, items[..n]).value;
      var x := e.encLeaf(node.ty, items[n], e.lenient).value;
      assert (front + [x])[..n] == front;
      assert items == items[..n] + [items[n]];
    }
  }

  lemma {:induction false} ByKwFinds(kids: seq<Node>, name: string)
    ensures var r := ByKw(kids, name); r.Some? ==> r.value in kids && KwName(r.value.kw) == name
  {
    if kids != [] && KwName(kids[0].kw) != name {
      ByKwFinds(kids[1..], name);
    }
  }

  lemma {:induction false} BySidIsChild(sids: map<nat, Option<int>>, kids: seq<Node>, sid: int)
    ensures var r := BySid(sids, kids, sid); r.Some? ==> r.value in kids && SidOf(sids, r.value) == Some(sid)
  {
    if kids != [] && SidOf(sids, kids[0]) != Some(sid) {
      BySidIsChild(sids, kids[1..], sid);
    }
  }

  /** The input or output that has the SID is found, since no other one has it. */
  lemma {:induction false} ParentIs(sids: map<nat, Option<int>>, kids: seq<Node>, kid: Node, child: Node)
    requires InOut(sids, kids) && kid in kids && child in kid.kids && Apart(sids, kid.kids) && SidOf(sids, child).Some?
    ensures Parent(sids, kids, SidOf(sids, child).value) == Some(kid)
  {
    hide Apart;
    var sid := SidOf(sids, child).value;
    BySidFinds(sids, kid.kids, child);
    if kids[0] != kid {
      if BySid(sids, kids[0].kids, sid).Some? {
        BySidIsChild(sids, kids[0].kids, sid);
      }
      ParentIs(sids, kids[1..], kid, child);
    }
  }

  lemma MembersSurvive(e: Env, node: Node, json: Json)
    requires json.JObj? && ValidMembers(e, node, json)
    ensures MembersTrip(e, node, json)
    decreases json, 0
  {
    hide Enc, Dec, Apart, DistinctKeys;
    forall i | 0 <= i < |json.members|
      ensures MemberTrips(e, node, json, i)
    {
      var child := ByArg(node.kids, json.members[i].0).value;
      RoundTrip(e, SidOf(e.declared, child), child, json.members[i].1);
    }
  }

  lemma RowSurvives(e: Env, b: int, node: Node, json: Json)
    requires json.JObj? && ValidMembers(e, node, json)
    ensures RowTrips(e, b, node, json)
    decreases json, 1
  {
    hide EncHash, DecHash;
    MembersSurvive(e, node, json);
    HashTrips(e, b, node, json);
  }

  /** Inside an rpc or an action, with the child's SIDs relative to the rpc's. */
  lemma CallSurvives(e: Env, b: int, node: Node, json: Json)
    requires Call(node.kw) && Valid(e, node, json)
    ensures Trips(e, Some(b), node, json)
    decreases json, 1
  {
    hide EncHash, DecHash, Apart, ValidMembers, InOut, Parent;
    var name, body := json.members[0].0, json.members[0].1;
    ByKwFinds(node.kids, name);
    var kid := ByKw(node.kids, name).value;
    InOutKind(e.declared, node.kids, kid);
    RowSurvives(e, b, kid, body);
    var es := EncHash(e, Some(b), kid, body, |body.members|).value;
    assert Enc(e, Some(b), kid, body) == Some(CMap(es));
    assert Dec(e, Some(b), kid, CMap(es)) == Some(body);
    assert Enc(e, Some(b), node, json) == Some(CMap(es));
    FirstEntry(e, b, kid, body);
    var child := ChildOf(kid, body, 0);
    ParentIs(e.declared, node.kids, kid, child);
    assert json == JObj([(name, body)]);
  }

  lemma InOutKind(sids: map<nat, Option<int>>, kids: seq<Node>, kid: Node)
    requires InOut(sids, kids) && kid in kids
    ensures kid.kw.Input? || kid.kw.Output?
  {
  }

  /** The first entry of an object carries the SID of the first member's child. */
  lemma FirstEntry(e: Env, b: int, node: Node, json: Json)
    requires json.JObj? && json.members != [] && ValidMembers(e, node, json)
    ensures var es, child := EncHash(e, Some(b), node, json, |json.members|), ByArg(node.kids, json.members[0].0);
            && child.Some? && child.value in node.kids && SidOf(e.declared, child.value).Some? && Apart(e.declared, node.kids)
            && es.Some? && es.value != [] && es.value[0].0 == Sid(SidOf(e.declared, child.value).value - b)
    decreases json, 1
  {
    hide EncHash, Enc, Dec, Apart;
    MembersSurvive(e, node, json);
    EncHashIs(e, b, node, json, |json.members|);
    ByArgFinds(node.kids, json.members[0].0);
    assert EntryOf(e, b, node, json, 0, EncHash(e, Some(b), node, json, |json.members|).value[0]);
  }

  /** Valid data is the same after encoding and decoding. */
  lemma {:induction false} RoundTrip(e: Env, base: Option<int>, node: Node, json: Json)
    requires Valid(e, node, json) && base.Some?
    ensures Trips(e, base, node, json)
    decreases json, if node.kw.Anydata? then 3 else 2
  {
    hide EncHash, DecHash, EncArray, DecArray, EncLeaves, DecLeaves, ValidMembers, InOut;
    var b := if node.kw.Module? then 0 else base.value;
    if json.JObj? && (HashLike(node.kw) || node.kw.ListKw?) {
      RowSurvives(e, b, node, json);
    } else if node.kw.ListKw? {
      ListSurvives(e, b, node, json);
    } else if node.kw.LeafList? {
      LeavesTrip(e, node, json.items);
    } else if node.kw.Anydata? {
      RoundTrip(e, Some(0), e.ds, json);
    } else if Call(node.kw) {
      CallSurvives(e, b, node, json);
    }
  }

  lemma ListSurvives(e: Env, b: int, node: Node, json: Json)
    requires node.kw.ListKw? && json.JArr?
    requires forall i :: 0 <= i < |json.items| ==> json.items[i].JObj? && ValidMembers(e, node, json.items[i])
    ensures var xs := EncArray(e, Some(b), node, json, |json.items|);
            xs.Some? && DecArray(e, Some(b), node, CArr(xs.value), |xs.value|) == Some(json.items)
    decreases json, 1
  {
    hide EncHash, DecHash, EncArray, DecArray, ValidMembers;
    forall i | 0 <= i < |json.items|
      ensures RowTrips(e, b, node, json.items[i])
    {
      RowSurvives(e, b, node, json.items[i]);
    }
    RowsTrip(e, b, node, json, |json.items|);
    var xs := EncArray(e, Some(b), node, json, |json.items|).value;
    RowsBack(e, b, node, json, CArr(xs), |xs|);
    assert json.items[..|json.items|] == json.items;
  }

  // ---------- What is skipped, and what raises ----------

  /** The member has a child with a SID. */
  predicate Known(e: Env, node: Node, name: string)
  {
    var child := ByArg(node.kids, name);
    child.Some? && SidOf(e.declared, child.value).Some?
  }

  ghost predicate MemberEncodes(e: Env, b: Option<int>, node: Node, member: (string, Json))
  {
    if Known(e, node, member.0) then
      var child := ByArg(node.kids, member.0).value;
      b.Some? && Enc(e, SidOf(e.declared, child), child, member.1).Some?
    else e.lenient
  }

  /** Encoding raises unless each member encodes, or is unknown and may be skipped. */
  lemma {:induction false} EncHashIff(e: Env, b: Option<int>, node: Node, json: Json, n: nat)
    requires json.JObj? && n <= |json.members|
    ensures EncHash(e, b, node, json, n).Some? <==> forall i :: 0 <= i < n ==> MemberEncodes(e, b, node, json.members[i])
  {
    hide Enc;
    if n > 0 {
      EncHashIff(e, b, node, json, n - 1);
    }
  }

  function KnownMembers(e: Env, node: Node, members: seq<(string, Json)>): seq<(string, Json)>
  {
    if members == [] then [] else
      var n := |members| - 1;
      KnownMembers(e, node, members[..n]) + if Known(e, node, members[n].0) then [members[n]] else []
  }

  /** Skipped members leave no trace: the encoding is that of the known ones. */
  lemma {:induction false} EncSkips(e: Env, b: Option<int>, node: Node, json: Json, n: nat)
    requires e.lenient && json.JObj? && n <= |json.members|
    ensures var known := KnownMembers(e, node, json.members[..n]);
            EncHash(e, b, node, json, n) == EncHash(e, b, node, JObj(known), |known|)
  {
    hide Enc;
    if n > 0 {
      EncSkips(e, b, node, json, n - 1);
      assert json.members[..n][..n - 1] == json.members[..n - 1];
      var front, known := KnownMembers(e, node, json.members[..n - 1]), KnownMembers(e, node, json.members[..n]);
      if Known(e, node, json.members[n - 1].0) {
        assert known == front + [json.members[n - 1]];
        EncFront(e, b, node, front, json.members[n - 1], |front|);
        assert JObj(known).members[|front|] == json.members[n - 1] && |known| - 1 == |front|;
      } else {
        assert known == front;
      }
    }
  }

  lemma {:induction false} EncFront(e: Env, b: Option<int>, node: Node, front: seq<(string, Json)>, last: (string, Json), n: nat)
    requires n <= |front|
    ensures EncHash(e, b, node, JObj(front + [last]), n) == EncHash(e, b, node, JObj(front), n)
  {
    hide Enc;
    if n > 0 {
      EncFront(e, b, node, front, last, n - 1);
    }
  }

  predicate KnownKey(e: Env, b: int, node: Node, key: Key) { key.Sid? && BySid(e.declared, node.kids, key.n + b).Some? }

  ghost predicate EntryDecodes(e: Env, b: int, node: Node, entry: (Key, Cbor))
  {
    if KnownKey(e, b, node, entry.0) then
      var child := BySid(e.declared, node.kids, entry.0.n + b).value;
      Dec(e, SidOf(e.declared, child), child, entry.1).Some?
    else e.lenient
  }

  /** Decoding raises unless each entry decodes, or its key is unknown and may be skipped. */
  lemma {:induction false} DecHashIff(e: Env, b: int, node: Node, cbor: Cbor, n: nat)
    requires cbor.CMap? && n <= |cbor.entries|
    ensures DecHash(e, Some(b), node, cbor, n).Some? <==> forall i :: 0 <= i < n ==> EntryDecodes(e, b, node, cbor.entries[i])
  {
    hide Dec;
    if n > 0 {
      DecHashIff(e, b, node, cbor, n - 1);
    }
  }

  function KnownEntries(e: Env, b: int, node: Node, entries: seq<(Key, Cbor)>): seq<(Key, Cbor)>
  {
    if entries == [] then [] else
      var n := |entries| - 1;
      KnownEntries(e, b, node, entries[..n]) + if KnownKey(e, b, node, entries[n].0) then [entries[n]] else []
  }

  lemma {:induction false} DecSkips(e: Env, b: int, node: Node, cbor: Cbor, n: nat)
    requires e.lenient && cbor.CMap? && n <= |cbor.entries|
    ensures var known := KnownEntries(e, b, node, cbor.entries[..n]);
            DecHash(e, Some(b), node, cbor, n) == DecHash(e, Some(b), node, CMap(known), |known|)
  {
    hide Dec;
    if n > 0 {
      DecSkips(e, b, node, cbor, n - 1);
      assert cbor.entries[..n][..n - 1] == cbor.entries[..n - 1];
      var front, known := KnownEntries(e, b, node, cbor.entries[..n - 1]), KnownEntries(e, b, node, cbor.entries[..n]);
      if KnownKey(e, b, node, cbor.entries[n - 1].0) {
        assert known == front + [cbor.entries[n - 1]];
        DecFront(e, b, node, front, cbor.entries[n - 1], |front|);
        assert CMap(known).entries[|front|] == cbor.entries[n - 1] && |known| - 1 == |front|;
      } else {
        assert known == front;
      }
    }
  }

  lemma {:induction false} DecFront(e: Env, b: int, node: Node, front: seq<(Key, Cbor)>, last: (Key, Cbor), n: nat)
    requires n <= |front|
    ensures DecHash(e, Some(b), node, CMap(front + [last]), n) == DecHash(e, Some(b), node, CMap(front), n)
  {
    hide Dec;
    if n > 0 {
      DecFront(e, b, node, front, last, n - 1);
    }
  }

  /** A call without parameters is null on the wire and stays null: the empty object does not come back. */
  lemma EmptyCallIsNull(e: Env, base: Option<int>, node: Node, name: string)
    requires Call(node.kw)
    ensures Enc(e, base, node, JObj([(name, JObj([]))])) == Some(CNull) && Enc(e, base, node, JNull) == Some(CNull)
    ensures Dec(e, base, node, CNull) == Some(JNull) && Dec(e, base, node, CMap([])) == Some(JObj([]))
  {
  }

  // ---------- What goes on the wire ----------

  /** Entry by entry, the declared SID of the member's child less b, and what the value is below that SID. */
  ghost predicate WireMap(e: Env, b: int, node: Node, json: Json, entries: seq<(Key, Cbor)>)
    requires json.JObj?
    decreases json, 0
  {
    && |entries| == |json.members|
    && forall i :: 0 <= i < |json.members| ==>
        var child := ByArg(node.kids, json.members[i].0);
        && child.Some? && SidOf(e.declared, child.value).Some?
        && entries[i].0 == Sid(SidOf(e.declared, child.value).value - b)
        && Wire(e, SidOf(e.declared, child.value).value, child.value, json.members[i].1, entries[i].1)
  }

  /**
   The encoding of valid data: keys are the distances of SIDs, below a module from 0, below a container or in a list
   entry from its own SID, and below an input or output from the SID of the rpc or action.
   */
  ghost predicate Wire(e: Env, b: int, node: Node, json: Json, cbor: Cbor)
    decreases json, if node.kw.Anydata? then 2 else 1
  {
    if node.kw.Module? then json.JObj? && cbor.CMap? && WireMap(e, 0, node, json, cbor.entries)
    else if HashLike(node.kw) then json.JObj? && cbor.CMap? && WireMap(e, b, node, json, cbor.entries)
    else if node.kw.ListKw? then
      || (json.JObj? && cbor.CMap? && WireMap(e, b, node, json, cbor.entries))
      || (json.JArr? && cbor.CArr? && |cbor.items| == |json.items| &&
          forall i :: 0 <= i < |json.items| ==>
            json.items[i].JObj? && cbor.items[i].CMap? && WireMap(e, b, node, json.items[i], cbor.items[i].entries))
    else if node.kw.Leaf? then e.encLeaf(node.ty, json, e.lenient) == Some(cbor)
    else if node.kw.LeafList? then
      && json.JArr? && cbor.CArr? && |cbor.items| == |json.items|
      && forall i :: 0 <= i < |json.items| ==> e.encLeaf(node.ty, json.items[i], e.lenient) == Some(cbor.items[i])
    else if node.kw.Anydata? then e.ds.kw.Module? && Wire(e, 0, e.ds, json, cbor)
    else
      && json.JObj? && |json.members| == 1
      && var kid, body := ByKw(node.kids, json.members[0].0), json.members[0].1;
         kid.Some? && body.JObj? && cbor.CMap? && WireMap(e, b, kid.value, body, cbor.entries)
  }

  lemma MembersOnWire(e: Env, b: int, node: Node, json: Json)
    requires json.JObj? && ValidMembers(e, node, json)
    ensures var es := EncHash(e, Some(b), node, json, |json.members|); es.Some? && WireMap(e, b, node, json, es.value)
    decreases json, 0
  {
    hide EncHash, Enc, Dec, Apart, DistinctKeys, Wire;
    MembersSurvive(e, node, json);
    EncHashIs(e, b, node, json, |json.members|);
    var es := EncHash(e, Some(b), node, json, |json.members|).value;
    forall i | 0 <= i < |json.members|
      ensures var child := ByArg(node.kids, json.members[i].0);
              Wire(e, SidOf(e.declared, child.value).value, child.value, json.members[i].1, es[i].1)
    {
      assert EntryOf(e, b, node, json, i, es[i]);
      var child := ByArg(node.kids, json.members[i].0).value;
      Encodes(e, SidOf(e.declared, child).value, child, json.members[i].1);
    }
  }

  lemma RowsOnWire(e: Env, b: int, node: Node, json: Json)
    requires node.kw.ListKw? && json.JArr?
    requires forall i :: 0 <= i < |json.items| ==> json.items[i].JObj? && ValidMembers(e, node, json.items[i])
    ensures var xs := EncArray(e, Some(b), node, json, |json.items|); xs.Some? && Wire(e, b, node, json, CArr(xs.value))
    decreases json, 0
  {
    hide EncHash, DecHash, EncArray, ValidMembers, WireMap;
    forall i | 0 <= i < |json.items|
      ensures RowTrips(e, b, node, json.items[i])
    {
      RowSurvives(e, b, node, json.items[i]);
    }
    RowsTrip(e, b, node, json, |json.items|);
    var xs := EncArray(e, Some(b), node, json, |json.items|).value;
    forall i | 0 <= i < |json.items|
      ensures xs[i].CMap? && WireMap(e, b, node, json.items[i], xs[i].entries)
    {
      assert RowBecomes(e, b, node, json.items[i], xs[i]);
      MembersOnWire(e, b, node, json.items[i]);
    }
  }

  lemma {:induction false} LeavesOnWire(e: Env, node: Node, items: seq<Json>)
    requires forall i :: 0 <= i < |items| ==> LeafOk(e, node.ty, items[i])
    ensures var xs := EncLeaves(e, node, items);
            xs.Some? && |xs.value| == |items| &&
            forall i :: 0 <= i < |items| ==> e.encLeaf(node.ty, items[i], e.lenient) == Some(xs.value[i])
  {
    if items != [] {
      LeavesOnWire(e, node, items[..|items| - 1]);
      assert LeafOk(e, node.ty, items[|items| - 1]);
    }
  }

  /** Valid data is encoded so, at every level. */
  lemma {:induction false} Encodes(e: Env, b: int, node: Node, json: Json)
    requires Valid(e, node, json)
    ensures var x := Enc(e, Some(b), node, json); x.Some? && Wire(e, b, node, json, x.value)
    decreases json, if node.kw.Anydata? then 3 else 2
  {
    hide EncHash, EncArray, EncLeaves, ValidMembers, WireMap, InOut;
    var own := if node.kw.Module? then 0 else b;
    if json.JObj? && (HashLike(node.kw) || node.kw.ListKw?) {
      MembersOnWire(e, own, node, json);
    } else if node.kw.ListKw? {
      RowsOnWire(e, b, node, json);
    } else if node.kw.LeafList? {
      LeavesOnWire(e, node, json.items);
    } else if node.kw.Anydata? {
      Encodes(e, 0, e.ds, json);
    } else if Call(node.kw) {
      CallOnWire(e, b, node, json);
    }
  }

  lemma CallOnWire(e: Env, b: int, node: Node, json: Json)
    requires Call(node.kw) && Valid(e, node, json)
    ensures var x := Enc(e, Some(b), node, json); x.Some? && Wire(e, b, node, json, x.value)
    decreases json, 1
  {
    hide EncHash, ValidMembers, WireMap, InOut;
    var body := json.members[0].1;
    ByKwFinds(node.kids, json.members[0].0);
    var kid := ByKw(node.kids, json.members[0].0).value;
    InOutKind(e.declared, node.kids, kid);
    MembersOnWire(e, b, kid, body);
  }

  /** Below an rpc or an action: one entry for each member, keyed from the SID of the rpc. */
  lemma CallKeys(e: Env, b: int, node: Node, json: Json)
    requires Call(node.kw) && Valid(e, node, json)
    ensures var x, kid, body := Enc(e, Some(b), node, json), ByKw(node.kids, json.members[0].0), json.members[0].1;
            && x.Some? && x.value.CMap? && kid.Some? && body.JObj? && |x.value.entries| == |body.members|
            && forall i :: 0 <= i < |body.members| ==>
                var child := ByArg(kid.value.kids, body.members[i].0);
                && child.Some? && SidOf(e.declared, child.value).Some?
                && x.value.entries[i].0 == Sid(SidOf(e.declared, child.value).value - b)
  {
    hide Enc, Valid;
    Encodes(e, b, node, json);
    CallIs(e, node, json);
  }

  lemma CallIs(e: Env, node: Node, json: Json)
    requires Call(node.kw) && Valid(e, node, json)
    ensures json.JObj? && |json.members| == 1
  {
  }
}
