/** The tree codec as the source runs it: over schema nodes whose SIDs it replaces and puts back. */
module YangCodec {
  import opened Common
  import opened YangTree

  function Look(sids: map<nat, Option<int>>, id: nat): Option<int> { if id in sids then sids[id] else None }

  /**
   Ids in fixed keep their declared SID; those of modules are in mods. The children of an rpc or an
   action are in neither: their SID is replaced while the codec works below them.
   */
  predicate Tree(fixed: set<nat>, mods: set<nat>, node: Node)
  {
    && (node.kw.Module? <==> node.id in mods)
    && forall i :: 0 <= i < |node.kids| ==>
         && (if Call(node.kw) then node.kids[i].id !in fixed && !node.kids[i].kw.Module?
             else node.kids[i].id in fixed && !node.kids[i].kw.Module?)
         && Tree(fixed, mods, node.kids[i])
  }

  ghost predicate Agree(fixed: set<nat>, sids: map<nat, Option<int>>, declared: map<nat, Option<int>>)
  {
    forall id :: id in fixed ==> Look(sids, id) == Look(declared, id)
  }

  /** Every SID is as it was, but a module's may have become 0. */
  ghost predicate Restored(mods: set<nat>, before: map<nat, Option<int>>, after: map<nat, Option<int>>)
  {
    forall id :: Look(after, id) == Look(before, id) || (id in mods && Look(after, id) == Some(0))
  }

  lemma RestoredTrans(mods: set<nat>, a: map<nat, Option<int>>, b: map<nat, Option<int>>, c: map<nat, Option<int>>)
    requires Restored(mods, a, b) && Restored(mods, b, c)
    ensures Restored(mods, a, c)
  {
  }

  lemma KidInTree(fixed: set<nat>, mods: set<nat>, node: Node, kid: Node)
    requires Tree(fixed, mods, node) && kid in node.kids
    ensures Tree(fixed, mods, kid) && !kid.kw.Module? && (if Call(node.kw) then kid.id !in fixed else kid.id in fixed)
  {
  }

  lemma {:induction false} SameBySid(fixed: set<nat>, s: map<nat, Option<int>>, t: map<nat, Option<int>>,
                                     kids: seq<Node>, sid: int)
    requires Agree(fixed, s, t) && forall i :: 0 <= i < |kids| ==> kids[i].id in fixed
    ensures BySid(s, kids, sid) == BySid(t, kids, sid)
  {
    if kids != [] {
      assert kids[0].id in fixed;
      SameBySid(fixed, s, t, kids[1..], sid);
    }
  }

  lemma {:induction false} SameParent(fixed: set<nat>, mods: set<nat>, s: map<nat, Option<int>>,
                                      t: map<nat, Option<int>>, kids: seq<Node>, sid: int)
    requires Agree(fixed, s, t) && forall i :: 0 <= i < |kids| ==> Tree(fixed, mods, kids[i])
    ensures Parent(s, kids, sid) == Parent(t, kids, sid)
  {
    if kids != [] && (kids[0].kw.Input? || kids[0].kw.Output?) {
      assert Tree(fixed, mods, kids[0]);
      SameBySid(fixed, s, t, kids[0].kids, sid);
      SameParent(fixed, mods, s, t, kids[1..], sid);
    }
  }

  // A failure in front is a failure of the whole.
  lemma {:induction false} EncHashStops(e: Env, b: Option<int>, node: Node, json: Json, i: nat)
    requires json.JObj? && i <= |json.members| && EncHash(e, b, node, json, i) == None
    ensures EncHash(e, b, node, json, |json.members|) == None
    decreases |json.members| - i
  {
    hide Enc;
    if i < |json.members| {
      EncHashStops(e, b, node, json, i + 1);
    }
  }

  lemma {:induction false} EncArrayStops(e: Env, b: Option<int>, node: Node, json: Json, i: nat)
    requires json.JArr? && i <= |json.items| && EncArray(e, b, node, json, i) == None
    ensures EncArray(e, b, node, json, |json.items|) == None
    decreases |json.items| - i
  {
    hide EncHash;
    if i < |json.items| {
      EncArrayStops(e, b, node, json, i + 1);
    }
  }

  lemma {:induction false} DecHashStops(e: Env, b: Option<int>, node: Node, cbor: Cbor, i: nat)
    requires cbor.CMap? && i <= |cbor.entries| && DecHash(e, b, node, cbor, i) == None
    ensures DecHash(e, b, node, cbor, |cbor.entries|) == None
    decreases |cbor.entries| - i
  {
    hide Dec;
    if i < |cbor.entries| {
      DecHashStops(e, b, node, cbor, i + 1);
    }
  }

  lemma {:induction false} DecArrayStops(e: Env, b: Option<int>, node: Node, cbor: Cbor, i: nat)
    requires cbor.CArr? && i <= |cbor.items| && DecArray(e, b, node, cbor, i) == None
    ensures DecArray(e, b, node, cbor, |cbor.items|) == None
    decreases |cbor.items| - i
  {
    hide DecHash;
    if i < |cbor.items| {
      DecArrayStops(e, b, node, cbor, i + 1);
    }
  }

  /** The SID of a found child is the declared one. */
  lemma ChildSid(fixed: set<nat>, mods: set<nat>, sids: map<nat, Option<int>>, declared: map<nat, Option<int>>,
                 node: Node, kid: Node)
    requires Agree(fixed, sids, declared) && Tree(fixed, mods, node) && kid in node.kids && !Call(node.kw)
    ensures Look(sids, kid.id) == SidOf(declared, kid) && Tree(fixed, mods, kid)
  {
    KidInTree(fixed, mods, node, kid);
  }

  lemma NodeKept(mods: set<nat>, fixed: set<nat>, before: map<nat, Option<int>>, after: map<nat, Option<int>>, node: Node)
    requires Restored(mods, before, after) && Tree(fixed, mods, node)
    requires node.kw.Module? ==> Look(before, node.id) == Some(0)
    ensures Look(after, node.id) == Look(before, node.id)
  {
  }

  lemma Zeroed(fixed: set<nat>, mods: set<nat>, sids: map<nat, Option<int>>, declared: map<nat, Option<int>>, id: nat)
    requires fixed !! mods && id in mods && Agree(fixed, sids, declared)
    ensures Agree(fixed, sids[id := Some(0)], declared) && Restored(mods, sids, sids[id := Some(0)])
  {
  }

  lemma Replaced(fixed: set<nat>, sids: map<nat, Option<int>>, declared: map<nat, Option<int>>, id: nat, sid: Option<int>)
    requires id !in fixed && Agree(fixed, sids, declared)
    ensures Agree(fixed, sids[id := sid], declared)
  {
  }

  /** Replace, work, put back: nothing has changed. */
  lemma PutBack(mods: set<nat>, before: map<nat, Option<int>>, id: nat, sid: Option<int>, after: map<nat, Option<int>>)
    requires Restored(mods, before[id := sid], after)
    ensures Restored(mods, before, after[id := Look(before, id)])
  {
    forall k
      ensures var back := after[id := Look(before, id)];
              Look(back, k) == Look(before, k) || (k in mods && Look(back, k) == Some(0))
    {
      assert Look(after, k) == Look(before[id := sid], k) || (k in mods && Look(after, k) == Some(0));
    }
  }

  lemma {:induction false} ByKwSkips(kids: seq<Node>, name: string, k: nat)
    requires k < |kids| && KwName(kids[k].kw) == name && forall i :: 0 <= i < k ==> KwName(kids[i].kw) != name
    ensures ByKw(kids, name) == Some(kids[k])
  {
    if k > 0 {
      ByKwSkips(kids[1..], name, k - 1);
    }
  }

  lemma {:induction false} ByKwMisses(kids: seq<Node>, name: string)
    requires forall i :: 0 <= i < |kids| ==> KwName(kids[i].kw) != name
    ensures ByKw(kids, name) == None
  {
    if kids != [] {
      ByKwMisses(kids[1..], name);
    }
  }

  class Codec {
    const e: Env
    ghost const fixed: set<nat>
    ghost const mods: set<nat>
    var sids: map<nat, Option<int>>

    constructor (env: Env, ghost fixedIds: set<nat>, ghost modIds: set<nat>)
      requires fixedIds !! modIds && Tree(fixedIds, modIds, env.ds)
      ensures e == env && fixed == fixedIds && mods == modIds && sids == env.declared && Valid()
    {
      e, fixed, mods, sids := env, fixedIds, modIds, env.declared;
    }

    ghost predicate Valid()
      reads this
    {
      Agree(fixed, sids, e.declared) && fixed !! mods && Tree(fixed, mods, e.ds)
    }

    method Json2CborHash(node: Node, json: Json) returns (r: Option<seq<(Key, Cbor)>>)
      requires Valid() && Tree(fixed, mods, node) && !Call(node.kw) && json.JObj?
      requires node.kw.Module? ==> Look(sids, node.id) == Some(0)
      modifies this`sids
      ensures Valid() && r == EncHash(e, Look(old(sids), node.id), node, json, |json.members|)
      ensures r.Some? ==> Restored(mods, old(sids), sids)
      decreases json, 1, 0
    {
      hide Enc, Agree, Tree, Restored, Look;
      ghost var b := Look(sids, node.id);
      var result := [];
      Unchanged(mods, sids);
      for i := 0 to |json.members|
        invariant Valid() && Restored(mods, old(sids), sids) && Look(sids, node.id) == b
        invariant EncHash(e, b, node, json, i) == Some(result)
      {
        var (key, value) := json.members[i];
        ghost var before := sids;
        var child := ByArg(node.kids, key);
        if child.None? {
          if !e.lenient {
            EncHashStops(e, b, node, json, i + 1);
            return None;
          }
          continue;
        }
        ByArgFinds(node.kids, key);
        ChildSid(fixed, mods, sids, e.declared, node, child.value);
        var sid := Look(sids, child.value.id);
        if sid.None? {
          if !e.lenient {
            EncHashStops(e, b, node, json, i + 1);
            return None;
          }
          continue;
        }
        var own := Look(sids, node.id);
        if own.None? {
          EncHashStops(e, b, node, json, i + 1);
          return None;
        }
        var x := Json2Cbor(child.value, value);
        if x.None? {
          EncHashStops(e, b, node, json, i + 1);
          return None;
        }
        result := Put(result, Sid(sid.value - own.value), x.value);
        NodeKept(mods, fixed, before, sids, node);
        RestoredTrans(mods, old(sids), before, sids);
      }
      r := Some(result);
    }

    method Json2CborArray(node: Node, json: Json) returns (r: Option<seq<Cbor>>)
      requires Valid() && Tree(fixed, mods, node) && node.kw.ListKw? && json.JArr?
      modifies this`sids
      ensures Valid() && r == EncArray(e, Look(old(sids), node.id), node, json, |json.items|)
      ensures r.Some? ==> Restored(mods, old(sids), sids)
      decreases json, 2, 0
    {
      hide EncHash, Agree, Tree, Restored, Look;
      ghost var b := Look(sids, node.id);
      var result := [];
      Unchanged(mods, sids);
      for i := 0 to |json.items|
        invariant Valid() && Restored(mods, old(sids), sids) && Look(sids, node.id) == b
        invariant EncArray(e, b, node, json, i) == Some(result)
      {
        var entry := json.items[i];
        ghost var before := sids;
        if !entry.JObj? {
          EncArrayStops(e, b, node, json, i + 1);
          return None;
        }
        var es := Json2CborHash(node, entry);
        if es.None? {
          EncArrayStops(e, b, node, json, i + 1);
          return None;
        }
        result := result + [CMap(es.value)];
        NodeKept(mods, fixed, before, sids, node);
        RestoredTrans(mods, old(sids), before, sids);
      }
      r := Some(result);
    }

    /** Encode below node; after a normal return every replaced SID is back. */
    method Json2Cbor(node: Node, json: Json) returns (r: Option<Cbor>)
      requires Valid() && Tree(fixed, mods, node)
      modifies this`sids
      ensures Valid() && r == Enc(e, Look(old(sids), node.id), node, json)
      ensures r.Some? ==> Restored(mods, old(sids), sids)
      decreases json, if node.kw.Anydata? then 4 else 3, 0
    {
      hide EncHash, EncArray, EncLeaves, ByKw, Agree, Tree, Restored, Look;
      Unchanged(mods, sids);
      if node.kw.Module? {
        ModuleId(fixed, mods, node);
        Zeroed(fixed, mods, sids, e.declared, node.id);
        sids := sids[node.id := Some(0)];
        LookPut(old(sids), node.id, Some(0));
      }
      label Start:
      match node.kw {
        case Module | Container | Input | Output =>
          if json.JObj? {
            var es := Json2CborHash(node, json);
            if es.None? {
              return None;
            }
            RestoredTrans(mods, old(sids), old@Start(sids), sids);
            return Some(CMap(es.value));
          }
          r := if e.lenient then Some(CMap([])) else None;
        case ListKw =>
          if json.JArr? {
            var xs := Json2CborArray(node, json);
            r := if xs.None? then None else Some(CArr(xs.value));
          } else if e.loose && json.JObj? {
            var es := Json2CborHash(node, json);
            r := if es.None? then None else Some(CMap(es.value));
          } else {
            r := if e.lenient then Some(CArr([])) else None;
          }
        case Leaf =>
          r := e.encLeaf(node.ty, json, e.lenient);
        case LeafList =>
          if !json.JArr? {
            return None;
          }
          var xs := EncLeaves(e, node, json.items);
          r := if xs.None? then None else Some(CArr(xs.value));
        case Anydata =>
          if node.arg != FACTORY {
            return Some(CNull);
          }
          if !e.ds.kw.Module? {
            return None;
          }
          r := Json2Cbor(e.ds, json);
          EncModule(e, Look(old(sids), e.ds.id), Some(0), e.ds, json);
        case Rpc | Action =>
          r := Json2CborCall(node, json);
        case OtherKw(_) =>
          r := None;
      }
    }

    /** The branch for an rpc or an action: the child named by the first key works under the rpc's SID. */
    method Json2CborCall(node: Node, json: Json) returns (r: Option<Cbor>)
      requires Valid() && Tree(fixed, mods, node) && Call(node.kw)
      modifies this`sids
      ensures Valid() && r == Enc(e, Look(old(sids), node.id), node, json)
      ensures r.Some? ==> Restored(mods, old(sids), sids)
      decreases json, 2, 0
    {
      hide EncHash, EncArray, EncLeaves, ByKw, Agree, Tree, Restored, Look;
      Unchanged(mods, sids);
      for k := 0 to |node.kids|
        invariant sids == old(sids)
        invariant k > 0 ==> json == JNull || json == JBool(false) || json.JObj?
        invariant k > 0 && json.JObj? && json.members != [] ==>
                    (forall i :: 0 <= i < k ==> KwName(node.kids[i].kw) != json.members[0].0)
                    || !json.members[0].1.JObj? || json.members[0].1.members == []
      {
        var child := node.kids[k];
        if json != JNull && json != JBool(false) {
          if !json.JObj? {
            return None;
          }
          if json.members != [] && KwName(child.kw) == json.members[0].0 {
            var body := json.members[0].1;
            if body.JObj? && body.members != [] {
              ByKwSkips(node.kids, json.members[0].0, k);
              KidInTree(fixed, mods, node, child);
              var saved := Look(sids, child.id);
              var own := Look(sids, node.id);
              Replaced(fixed, sids, e.declared, child.id, own);
              sids := sids[child.id := own];
              LookPut(old(sids), child.id, own);
              label Inside:
              r := Json2Cbor(child, body);
              if r.Some? {
                PutBack(mods, old(sids), child.id, own, sids);
                Replaced(fixed, sids, e.declared, child.id, saved);
                sids := sids[child.id := saved];
              }
              return;
            }
          }
        }
      }
      if json.JObj? && json.members != [] {
        if forall i :: 0 <= i < |node.kids| ==> KwName(node.kids[i].kw) != json.members[0].0 {
          ByKwMisses(node.kids, json.members[0].0);
        }
      }
      r := Some(CNull);
    }

    method Cbor2JsonHash(node: Node, cbor: Cbor) returns (r: Option<seq<(string, Json)>>)
      requires Valid() && Tree(fixed, mods, node) && !Call(node.kw) && cbor.CMap?
      requires node.kw.Module? ==> Look(sids, node.id) == Some(0)
      modifies this`sids
      ensures Valid() && r == DecHash(e, Look(old(sids), node.id), node, cbor, |cbor.entries|)
      ensures r.Some? ==> Restored(mods, old(sids), sids)
      decreases cbor, 1, 0
    {
      hide Dec, Agree, Tree, Restored, Look;
      ghost var b := Look(sids, node.id);
      var result := [];
      Unchanged(mods, sids);
      for i := 0 to |cbor.entries|
        invariant Valid() && Restored(mods, old(sids), sids) && Look(sids, node.id) == b
        invariant DecHash(e, b, node, cbor, i) == Some(result)
      {
        var (sid, value) := cbor.entries[i];
        ghost var before := sids;
        if !sid.Sid? {
          if !e.lenient {
            DecHashStops(e, b, node, cbor, i + 1);
            return None;
          }
          continue;
        }
        var own := Look(sids, node.id);
        if own.None? {
          DecHashStops(e, b, node, cbor, i + 1);
          return None;
        }
        KidsFixed(fixed, mods, node);
        SameBySid(fixed, sids, e.declared, node.kids, sid.n + own.value);
        var child := BySid(sids, node.kids, sid.n + own.value);
        if child.None? {
          if !e.lenient {
            DecHashStops(e, b, node, cbor, i + 1);
            return None;
          }
          continue;
        }
        BySidIsChild(sids, node.kids, sid.n + own.value);
        ChildSid(fixed, mods, sids, e.declared, node, child.value);
        var x := Cbor2Json(child.value, value);
        if x.None? {
          DecHashStops(e, b, node, cbor, i + 1);
          return None;
        }
        result := Put(result, child.value.arg, x.value);
        NodeKept(mods, fixed, before, sids, node);
        RestoredTrans(mods, old(sids), before, sids);
      }
      r := Some(result);
    }

    method Cbor2JsonArray(node: Node, cbor: Cbor) returns (r: Option<seq<Json>>)
      requires Valid() && Tree(fixed, mods, node) && node.kw.ListKw? && cbor.CArr?
      modifies this`sids
      ensures Valid() && r == DecArray(e, Look(old(sids), node.id), node, cbor, |cbor.items|)
      ensures r.Some? ==> Restored(mods, old(sids), sids)
      decreases cbor, 2, 0
    {
      hide DecHash, Agree, Tree, Restored, Look;
      ghost var b := Look(sids, node.id);
      var result := [];
      Unchanged(mods, sids);
      for i := 0 to |cbor.items|
        invariant Valid() && Restored(mods, old(sids), sids) && Look(sids, node.id) == b
        invariant DecArray(e, b, node, cbor, i) == Some(result)
      {
        var entry := cbor.items[i];
        ghost var before := sids;
        if !entry.CMap? {
          DecArrayStops(e, b, node, cbor, i + 1);
          return None;
        }
        var ms := Cbor2JsonHash(node, entry);
        if ms.None? {
          DecArrayStops(e, b, node, cbor, i + 1);
          return None;
        }
        result := result + [JObj(ms.value)];
        NodeKept(mods, fixed, before, sids, node);
        RestoredTrans(mods, old(sids), before, sids);
      }
      r := Some(result);
    }

    /** Decode below node; after a normal return every replaced SID is back. */
    method Cbor2Json(node: Node, cbor: Cbor) returns (r: Option<Json>)
      requires Valid() && Tree(fixed, mods, node)
      modifies this`sids
      ensures Valid() && r == Dec(e, Look(old(sids), node.id), node, cbor)
      ensures r.Some? ==> Restored(mods, old(sids), sids)
      decreases cbor, if node.kw.Anydata? || Call(node.kw) then 4 else 3, 1
    {
      hide DecHash, DecArray, DecLeaves, Parent, Agree, Tree, Restored, Look;
      Unchanged(mods, sids);
      if node.kw.Module? {
        ModuleId(fixed, mods, node);
        Zeroed(fixed, mods, sids, e.declared, node.id);
        sids := sids[node.id := Some(0)];
        LookPut(old(sids), node.id, Some(0));
      }
      label Start:
      match node.kw {
        case Module | Container | Input | Output =>
          if cbor.CMap? {
            var ms := Cbor2JsonHash(node, cbor);
            if ms.None? {
              return None;
            }
            RestoredTrans(mods, old(sids), old@Start(sids), sids);
            return Some(JObj(ms.value));
          }
          r := if e.lenient then Some(JObj([])) else None;
        case ListKw =>
          if cbor.CArr? {
            var xs := Cbor2JsonArray(node, cbor);
            r := if xs.None? then None else Some(JArr(xs.value));
          } else if e.loose && cbor.CMap? {
            var ms := Cbor2JsonHash(node, cbor);
            r := if ms.None? then None else Some(JObj(ms.value));
          } else {
            r := if e.lenient then Some(JArr([])) else None;
          }
        case Leaf =>
          r := e.decLeaf(node.ty, cbor, e.lenient);
        case LeafList =>
          if !cbor.CArr? {
            return None;
          }
          var xs := DecLeaves(e, node, cbor.items);
          r := if xs.None? then None else Some(JArr(xs.value));
        case Anydata =>
          if node.arg != FACTORY {
            return Some(JNull);
          }
          if !e.ds.kw.Module? {
            return None;
          }
          r := Cbor2Json(e.ds, cbor);
          DecModule(e, Look(old(sids), e.ds.id), Some(0), e.ds, cbor);
        case Rpc | Action =>
          r := Cbor2JsonCall(node, cbor);
        case OtherKw(_) =>
          r := None;
      }
    }

    /** The branch for an rpc or an action: the first SID tells the input from the output. */
    method Cbor2JsonCall(node: Node, cbor: Cbor) returns (r: Option<Json>)
      requires Valid() && Tree(fixed, mods, node) && Call(node.kw)
      modifies this`sids
      ensures Valid() && r == Dec(e, Look(old(sids), node.id), node, cbor)
      ensures r.Some? ==> Restored(mods, old(sids), sids)
      decreases cbor, 4, 0
    {
      hide DecHash, DecArray, DecLeaves, Agree, Tree, Restored, Look;
      Unchanged(mods, sids);
      if cbor == CNull {
        return Some(JNull);
      }
      if !cbor.CMap? {
        return None;
      }
      if cbor.entries == [] {
        return Some(JObj([]));
      }
      var own := Look(sids, node.id);
      if !cbor.entries[0].0.Sid? || own.None? {
        return None;
      }
      var absolute := cbor.entries[0].0.n + own.value;
      KidTrees(fixed, mods, node);
      SameParent(fixed, mods, sids, e.declared, node.kids, absolute);
      var parent: Option<Node> := None;
      for k := 0 to |node.kids|
        invariant parent.None? && Parent(sids, node.kids, absolute) == Parent(sids, node.kids[k..], absolute)
      {
        assert node.kids[k..][1..] == node.kids[k + 1..];
        var child := node.kids[k];
        if !(child.kw.Input? || child.kw.Output?) {
          return None;
        }
        if BySid(sids, child.kids, absolute).Some? {
          parent := Some(child);
          break;
        }
      }
      if parent.None? {
        return None;
      }
      KidInTree(fixed, mods, node, parent.value);
      var saved := Look(sids, parent.value.id);
      Replaced(fixed, sids, e.declared, parent.value.id, own);
      sids := sids[parent.value.id := own];
      LookPut(old(sids), parent.value.id, own);
      var x := Cbor2Json(parent.value, cbor);
      if x.None? {
        return None;
      }
      PutBack(mods, old(sids), parent.value.id, own, sids);
      Replaced(fixed, sids, e.declared, parent.value.id, saved);
      sids := sids[parent.value.id := saved];
      r := Some(JObj([(KwName(parent.value.kw), x.value)]));
    }
  }

  lemma KidsFixed(fixed: set<nat>, mods: set<nat>, node: Node)
    requires Tree(fixed, mods, node) && !Call(node.kw)
    ensures forall i :: 0 <= i < |node.kids| ==> node.kids[i].id in fixed
  {
  }

  lemma KidTrees(fixed: set<nat>, mods: set<nat>, node: Node)
    requires Tree(fixed, mods, node)
    ensures forall i :: 0 <= i < |node.kids| ==> Tree(fixed, mods, node.kids[i])
  {
  }

  lemma DecModule(e: Env, a: Option<int>, b: Option<int>, node: Node, cbor: Cbor)
    requires node.kw.Module?
    ensures Dec(e, a, node, cbor) == Dec(e, b, node, cbor)
  {
  }

  lemma Unchanged(mods: set<nat>, sids: map<nat, Option<int>>)
    ensures Restored(mods, sids, sids)
  {
  }

  lemma ModuleId(fixed: set<nat>, mods: set<nat>, node: Node)
    requires Tree(fixed, mods, node)
    ensures node.kw.Module? <==> node.id in mods
  {
  }

  lemma LookPut(sids: map<nat, Option<int>>, id: nat, sid: Option<int>)
    ensures Look(sids[id := sid], id) == sid
  {
  }

  /** Under a module the caller's SID does not matter. */
  lemma EncModule(e: Env, a: Option<int>, b: Option<int>, node: Node, json: Json)
    requires node.kw.Module?
    ensures Enc(e, a, node, json) == Enc(e, b, node, json)
  {
  }
}
