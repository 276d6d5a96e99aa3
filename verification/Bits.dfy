/** The bits type as CBOR: byte strings for the bits, integers for the runs of zero bytes between them. */
module Bits {
  import opened Common

  datatype Item = Gap(n: int) | Run(bytes: seq<bv8>)

  /** A lone item stands without its list. */
  datatype Value = Lone(item: Item) | List(items: seq<Item>)

  function Wrap(items: seq<Item>): Value { if |items| == 1 then Lone(items[0]) else List(items) }

  function Items(v: Value): seq<Item> { if v.Lone? then [v.item] else v.items }

  // ---------- Bits and bytes ----------

  /** 1 << k. */
  function Mask(k: nat): bv8
  {
    if k == 0 then 1 else if k == 1 then 2 else if k == 2 then 4 else if k == 3 then 8
    else if k == 4 then 16 else if k == 5 then 32 else if k == 6 then 64 else 128
  }

  predicate Has(b: bv8, k: nat) { b & Mask(k) != 0 }

  function With(b: bv8, k: nat): bv8 { b | Mask(k) }

  /** Bit k counts from the least significant one. */
  lemma HasMeans(b: bv8, k: nat)
    requires k < 8
    ensures Has(b, k) <==> (b >> k) & 1 == 1
    ensures Mask(k) == 1 << k
  {
    if k == 0 {
    } else if k == 1 {
    } else if k == 2 {
    } else if k == 3 {
    } else if k == 4 {
    } else if k == 5 {
    } else if k == 6 {
    } else {
      assert k == 7;
    }
  }

  lemma SetBit(b: bv8, k: nat, i: nat)
    requires k < 8 && i < 8
    ensures Has(With(b, k), i) <==> i == k || Has(b, i)
  {
  }

  lemma OneBit(k: nat, i: nat)
    requires k < 8 && i < 8
    ensures Has(Mask(k), i) <==> i == k
  {
  }

  lemma NoBit(k: nat)
    ensures !Has(0, k)
  {
  }

  lemma BytesAgree(a: bv8, b: bv8)
    requires forall k :: 0 <= k < 8 ==> (Has(a, k) <==> Has(b, k))
    ensures a == b
  {
    assert Has(a, 0) <==> Has(b, 0);
    assert Has(a, 1) <==> Has(b, 1);
    assert Has(a, 2) <==> Has(b, 2);
    assert Has(a, 3) <==> Has(b, 3);
    assert Has(a, 4) <==> Has(b, 4);
    assert Has(a, 5) <==> Has(b, 5);
    assert Has(a, 6) <==> Has(b, 6);
    assert Has(a, 7) <==> Has(b, 7);
  }

  // ---------- Meaning ----------

  function Zeros(n: nat): (r: seq<bv8>)
    ensures |r| == n && forall i :: 0 <= i < n ==> r[i] == 0
  {
    seq(n, _ => 0)
  }

  predicate NoNegative(items: seq<Item>) { forall i :: 0 <= i < |items| ==> items[i].Gap? ==> items[i].n >= 0 }

  function BytesOf(x: Item): seq<bv8>
    requires x.Gap? ==> x.n >= 0
  {
    match x
    case Gap(n) => Zeros(n)
    case Run(b) => b
  }

  /** The byte string that the items stand for. */
  function Flat(items: seq<Item>): seq<bv8>
    requires NoNegative(items)
  {
    if items == [] then [] else Flat(items[..|items| - 1]) + BytesOf(items[|items| - 1])
  }

  /** Bit p of a byte string. */
  predicate BitAt(e: seq<bv8>, p: nat) { p / 8 < |e| && Has(e[p / 8], p % 8) }

  predicate Holds(v: Value, p: nat)
    requires NoNegative(Items(v))
  {
    BitAt(Flat(Items(v)), p)
  }

  predicate NonZero(e: seq<bv8>) { forall i :: 0 <= i < |e| ==> e[i] != 0 }

  /** No zero byte in a byte string, no empty item, and two neighbours are never of the same kind; the last is a byte string. */
  predicate CanonicalItems(items: seq<Item>)
  {
    && (forall i :: 0 <= i < |items| ==>
          match items[i]
          case Gap(n) => n >= 1
          case Run(b) => b != [] && NonZero(b))
    && (forall i :: 0 <= i < |items| - 1 ==> items[i].Gap? != items[i + 1].Gap?)
    && (items != [] ==> items[|items| - 1].Run?)
  }

  predicate Canonical(v: Value) { CanonicalItems(Items(v)) && v == Wrap(Items(v)) }

  predicate Ascending(s: seq<nat>) { forall i, j :: 0 <= i < j < |s| ==> s[i] < s[j] }

  // ---------- Sorting ----------

  predicate Sorted(s: seq<nat>) { forall i, j :: 0 <= i < j < |s| ==> s[i] <= s[j] }

  function Insert(s: seq<nat>, x: nat): (r: seq<nat>)
    ensures forall p :: p in r <==> p in s || p == x
    ensures Sorted(s) ==> Sorted(r)
  {
    if s == [] || x <= s[0] then [x] + s else
      var rest := Insert(s[1..], x);
      assert forall i :: 0 <= i < |rest| ==> rest[i] in rest;
      assert Sorted(s) ==> forall p :: p in rest ==> s[0] <= p;
      [s[0]] + rest
  }

  function Sort(s: seq<nat>): (r: seq<nat>)
    ensures Sorted(r) && forall p :: p in r <==> p in s
  {
    if s == [] then [] else Insert(Sort(s[1..]), s[0])
  }

  // ---------- Encoding ----------

  /** What has been written: bytes since the last gap, after the finished items. */
  ghost predicate Written(encoding: seq<Item>, bytes: seq<bv8>, offset: nat, stop: nat, done: seq<nat>)
  {
    && NonZero(bytes)
    && (bytes != [] ==> CanonicalItems(encoding + [Run(bytes)]) && offset + 8 == stop)
    && (bytes == [] ==> encoding == [] && done == [] && offset == stop == 0)
    && NoNegative(encoding)
    && stop == 8 * |Flat(encoding) + bytes|
    && forall p: nat :: BitAt(Flat(encoding) + bytes, p) <==> p in done
  }

  lemma FlatSnoc(items: seq<Item>, x: Item)
    requires NoNegative(items) && (x.Gap? ==> x.n >= 0)
    ensures NoNegative(items + [x]) && Flat(items + [x]) == Flat(items) + BytesOf(x)
  {
    assert (items + [x])[..|items|] == items;
  }

  lemma AppendedByte(e: seq<bv8>, b: bv8, p: nat)
    ensures BitAt(e + [b], p) <==> BitAt(e, p) || (8 * |e| <= p < 8 * |e| + 8 && Has(b, p - 8 * |e|))
  {
    if p / 8 == |e| {
      assert p % 8 == p - 8 * |e|;
    }
  }

  lemma AppendedZeros(e: seq<bv8>, n: nat, p: nat)
    ensures BitAt(e + Zeros(n), p) <==> BitAt(e, p)
  {
    if |e| <= p / 8 < |e| + n {
      assert (e + Zeros(n))[p / 8] == 0;
      NoBit(p % 8);
    }
  }

  lemma MaskNonZero(b: bv8, k: nat)
    requires k < 8
    ensures With(b, k) != 0 && Mask(k) != 0
  {
  }

  lemma ReplaceRun(items: seq<Item>, b: seq<bv8>, c: seq<bv8>)
    requires CanonicalItems(items + [Run(b)]) && c != [] && NonZero(c)
    ensures CanonicalItems(items + [Run(c)])
  {
    assert items + [Run(c)] == (items + [Run(b)])[|items| := Run(c)];
  }

  lemma SetInLastByte(encoding: seq<Item>, bytes: seq<bv8>, offset: nat, stop: nat, done: seq<nat>, pos: nat)
    requires Written(encoding, bytes, offset, stop, done) && offset <= pos < stop
    ensures bytes != []
    ensures var n := |bytes| - 1; Written(encoding, bytes[n := With(bytes[n], pos - offset)], offset, stop, done + [pos])
  {
    hide Mask, With, Has, BitAt, Flat, CanonicalItems;
    var n := |bytes| - 1;
    var k := pos - offset;
    var b, c := bytes[n], With(bytes[n], k);
    var e := Flat(encoding) + bytes[..n];
    assert bytes == bytes[..n] + [b] && bytes[n := c] == bytes[..n] + [c];
    assert Flat(encoding) + bytes == e + [b] && Flat(encoding) + bytes[n := c] == e + [c];
    MaskNonZero(b, k);
    ReplaceRun(encoding, bytes, bytes[n := c]);
    forall p: nat
      ensures BitAt(e + [c], p) <==> p in done + [pos]
    {
      AppendedByte(e, b, p);
      AppendedByte(e, c, p);
      assert BitAt(e + [b], p) <==> p in done;
      if 8 * |e| <= p < 8 * |e| + 8 {
        SetBit(b, k, p - 8 * |e|);
      }
    }
  }

  lemma AppendByte(encoding: seq<Item>, bytes: seq<bv8>, offset: nat, stop: nat, done: seq<nat>, pos: nat)
    requires Written(encoding, bytes, offset, stop, done) && stop <= pos < stop + 8
    ensures Written(encoding, bytes + [Mask(pos - stop)], stop, stop + 8, done + [pos])
  {
    hide Mask, Has, BitAt;
    var b := Mask(pos - stop);
    var e := Flat(encoding) + bytes;
    assert Flat(encoding) + (bytes + [b]) == e + [b];
    MaskNonZero(0, pos - stop);
    if bytes != [] {
      ReplaceRun(encoding, bytes, bytes + [b]);
    }
    forall p: nat
      ensures BitAt(e + [b], p) <==> p in done + [pos]
    {
      AppendedByte(e, b, p);
      assert BitAt(e, p) <==> p in done;
      if 8 * |e| <= p < 8 * |e| + 8 {
        OneBit(pos - stop, p - 8 * |e|);
      }
    }
  }

  lemma GapCanonical(encoding: seq<Item>, bytes: seq<bv8>, delta: nat, b: bv8)
    requires NonZero(bytes) && b != 0 && delta > 0
    requires if bytes == [] then encoding == [] else CanonicalItems(encoding + [Run(bytes)])
    ensures CanonicalItems((if bytes != [] then encoding + [Run(bytes)] else encoding) + [Gap(delta)] + [Run([b])])
  {
    var items := if bytes != [] then encoding + [Run(bytes)] else encoding;
    var all := items + [Gap(delta)] + [Run([b])];
    assert forall i :: 0 <= i < |items| ==> all[i] == items[i];
  }

  lemma AppendGap(encoding: seq<Item>, bytes: seq<bv8>, offset: nat, stop: nat, done: seq<nat>, pos: nat)
    requires Written(encoding, bytes, offset, stop, done) && stop <= pos && (pos - stop) / 8 > 0
    ensures var delta := (pos - stop) / 8;
            Written((if bytes != [] then encoding + [Run(bytes)] else encoding) + [Gap(delta)], [Mask(pos - (stop + delta * 8))],
                    stop + delta * 8, stop + delta * 8 + 8, done + [pos])
  {
    hide Mask, Has, BitAt, CanonicalItems, Flat, NoNegative;
    var delta := (pos - stop) / 8;
    var k := pos - (stop + delta * 8);
    var items := if bytes != [] then encoding + [Run(bytes)] else encoding;
    var e := Flat(encoding) + bytes;
    if bytes != [] {
      FlatSnoc(encoding, Run(bytes));
    }
    assert Flat(items) == e;
    FlatSnoc(items, Gap(delta));
    MaskNonZero(0, k);
    GapCanonical(encoding, bytes, delta, Mask(k));
    var f := e + Zeros(delta);
    forall p: nat
      ensures BitAt(f + [Mask(k)], p) <==> p in done + [pos]
    {
      AppendedByte(f, Mask(k), p);
      AppendedZeros(e, delta, p);
      assert BitAt(e, p) <==> p in done;
      if 8 * |f| <= p < 8 * |f| + 8 {
        OneBit(k, p - 8 * |f|);
      }
    }
  }

  lemma Start()
    ensures Written([], [], 0, 0, [])
  {
  }

  lemma SortedAt(s: seq<nat>, i: nat)
    requires Sorted(s) && i < |s|
    ensures i > 0 ==> s[i - 1] <= s[i]
  {
  }

  lemma Finish(encoding: seq<Item>, bytes: seq<bv8>, offset: nat, stop: nat, done: seq<nat>)
    requires Written(encoding, bytes, offset, stop, done)
    ensures var v := Wrap(if bytes != [] then encoding + [Run(bytes)] else encoding);
            Canonical(v) && NoNegative(Items(v)) && forall p: nat :: Holds(v, p) <==> p in done
  {
    if bytes != [] {
      FlatSnoc(encoding, Run(bytes));
    } else {
      assert Flat(encoding) == Flat(encoding) + bytes;
    }
  }

  method Encode(positions: seq<nat>) returns (v: Value)
    ensures Canonical(v) && NoNegative(Items(v))
    ensures forall p: nat :: Holds(v, p) <==> p in positions
  {
    hide Written, Canonical, Holds, Items, Flat, NoNegative, Mask, With, Sorted;
    var encoding: seq<Item>, bytes: seq<bv8>, offset: nat, stop: nat := [], [], 0, 0;
    var sorted := Sort(positions);
    Start();
    for i := 0 to |sorted|
      invariant Written(encoding, bytes, offset, stop, sorted[..i])
      invariant offset <= if i == 0 then 0 else sorted[i - 1]
    {
      var pos := sorted[i];
      SortedAt(sorted, i);
      assert sorted[..i + 1] == sorted[..i] + [pos];
      if pos < stop {
        SetInLastByte(encoding, bytes, offset, stop, sorted[..i], pos);
        bytes := bytes[|bytes| - 1 := With(bytes[|bytes| - 1], pos - offset)];
      } else {
        var delta := (pos - stop) / 8;
        if delta == 0 {
          AppendByte(encoding, bytes, offset, stop, sorted[..i], pos);
          offset := stop;
          bytes := bytes + [Mask(pos - offset)];
          stop := stop + 8;
        } else {
          AppendGap(encoding, bytes, offset, stop, sorted[..i], pos);
          if bytes != [] {
            encoding := encoding + [Run(bytes)];
          }
          encoding := encoding + [Gap(delta)];
          offset := stop + delta * 8;
          bytes := [Mask(pos - offset)];
          stop := offset + 8;
        }
      }
    }
    assert sorted[..|sorted|] == sorted;
    Finish(encoding, bytes, offset, stop, sorted);
    if bytes != [] {
      encoding := encoding + [Run(bytes)];
    }
    v := Wrap(encoding);
  }

  // ---------- Decoding ----------

  predicate AscendingInts(s: seq<int>) { forall i, j :: 0 <= i < j < |s| ==> s[i] < s[j] }

  /** The positions of a byte's bits follow the ones found so far. */
  method AddByte(positions: seq<int>, offset: int, b: bv8) returns (r: seq<int>)
    ensures forall p: int :: p in r <==> p in positions || (offset <= p < offset + 8 && Has(b, p - offset))
    ensures AscendingInts(positions) && (forall p :: p in positions ==> p < offset) ==> AscendingInts(r)
  {
    hide Has;
    r := positions;
    for i := 0 to 8
      invariant forall p: int :: p in r <==> p in positions || (offset <= p < offset + i && Has(b, p - offset))
      invariant AscendingInts(positions) && (forall p :: p in positions ==> p < offset) ==> AscendingInts(r)
    {
      assert forall j :: 0 <= j < |r| ==> r[j] in r;
      if Has(b, i) {
        r := r + [offset + i];
      }
    }
  }

  /** The positions listed are the bits of e, in order. */
  ghost predicate Listed(positions: seq<int>, e: seq<bv8>)
  {
    AscendingInts(positions) && forall p: int :: p in positions <==> 0 <= p && BitAt(e, p)
  }

  lemma ListByte(before: seq<int>, after: seq<int>, e: seq<bv8>, b: bv8)
    requires Listed(before, e) && (AscendingInts(before) && (forall p :: p in before ==> p < 8 * |e|) ==> AscendingInts(after))
    requires forall p: int :: p in after <==> p in before || (8 * |e| <= p < 8 * |e| + 8 && Has(b, p - 8 * |e|))
    ensures Listed(after, e + [b])
  {
    hide Has;
    forall p: int | 0 <= p
      ensures BitAt(e + [b], p) <==> p in after
      ensures BitAt(e, p) ==> p < 8 * |e|
    {
      AppendedByte(e, b, p);
    }
  }

  lemma ListZeros(positions: seq<int>, e: seq<bv8>, n: nat)
    requires Listed(positions, e)
    ensures Listed(positions, e + Zeros(n))
  {
    hide Has, BitAt;
    forall p: int | 0 <= p
      ensures BitAt(e + Zeros(n), p) <==> BitAt(e, p)
    {
      AppendedZeros(e, n, p);
    }
  }

  /** None where the source raises: a number without a list. */
  method Decode(v: Value) returns (r: Option<seq<int>>)
    ensures r.None? <==> v.Lone? && v.item.Gap?
    ensures r.Some? && NoNegative(Items(v)) ==> AscendingInts(r.value) && forall p: int :: p in r.value <==> 0 <= p && Holds(v, p)
  {
    hide Has, BitAt, Flat, AscendingInts, Listed, Zeros;
    if v.Lone? && v.item.Gap? {
      return None;
    }
    var items := Items(v);
    ghost var good := NoNegative(items);
    var offset, positions := 0, [];
    ListNothing();
    for i := 0 to |items|
      invariant good ==> NoNegative(items[..i]) && offset == 8 * |Flat(items[..i])| && Listed(positions, Flat(items[..i]))
    {
      assert items[..i + 1] == items[..i] + [items[i]];
      ghost var e := if good then Flat(items[..i]) else [];
      if good {
        FlatSnoc(items[..i], items[i]);
      }
      if items[i].Gap? {
        if good {
          ListZeros(positions, e, items[i].n);
          ZerosLength(items[i].n);
        }
        offset := offset + 8 * items[i].n;
      } else {
        var bytes := items[i].bytes;
        assert e + bytes[..0] == e;
        for j := 0 to |bytes|
          invariant good ==> offset == 8 * |e + bytes[..j]| && Listed(positions, e + bytes[..j])
        {
          assert e + bytes[..j + 1] == (e + bytes[..j]) + [bytes[j]];
          ghost var before := positions;
          positions := AddByte(positions, offset, bytes[j]);
          if good {
            ListByte(before, positions, e + bytes[..j], bytes[j]);
          }
          offset := offset + 8;
        }
        assert bytes[..|bytes|] == bytes;
      }
    }
    assert items[..|items|] == items;
    r := Some(positions);
    if good {
      ListedIs(positions, v);
    }
  }

  lemma ZerosLength(n: nat)
    ensures |Zeros(n)| == n
  {
  }

  lemma ListNothing()
    ensures Flat([]) == [] && Listed([], [])
  {
  }

  lemma ListedIs(positions: seq<int>, v: Value)
    requires NoNegative(Items(v)) && Listed(positions, Flat(Items(v)))
    ensures AscendingInts(positions) && forall p: int :: p in positions <==> 0 <= p && Holds(v, p)
  {
  }

  /** Decoding what was encoded lists the given positions, each once and in order. */
  method RoundTrip(positions: seq<nat>) returns (r: Option<seq<int>>)
    ensures r.Some? && AscendingInts(r.value) && forall p: int :: p in r.value <==> p in positions
  {
    hide Holds, Flat;
    var v := Encode(positions);
    CanonicalIsNoGap(v);
    r := Decode(v);
    forall p: int
      ensures p in r.value <==> p in positions
    {
      if p >= 0 {
        assert Holds(v, p) <==> p in positions;
      }
    }
  }

  lemma CanonicalIsNoGap(v: Value)
    requires Canonical(v)
    ensures !(v.Lone? && v.item.Gap?)
  {
  }

  lemma LastIsApart(s: seq<int>, p: int)
    requires AscendingInts(s) && s != []
    ensures p in s[..|s| - 1] <==> p in s && p != s[|s| - 1]
  {
    assert s == s[..|s| - 1] + [s[|s| - 1]];
  }

  lemma {:induction false} AscendingIsUnique(s: seq<int>, t: seq<int>)
    requires AscendingInts(s) && AscendingInts(t) && forall p :: p in s <==> p in t
    ensures s == t
  {
    assert t == [] || t[0] in t;
    if s != [] {
      var m, n := |s| - 1, |t| - 1;
      assert s[m] in s && s[m] in t;
      assert t[n] in t && t[n] in s;
      assert s[m] == t[n];
      forall p
        ensures p in s[..m] <==> p in t[..n]
      {
        LastIsApart(s, p);
        LastIsApart(t, p);
      }
      AscendingIsUnique(s[..m], t[..n]);
      assert s == s[..m] + [s[m]] && t == t[..n] + [t[n]];
    }
  }

  // ---------- One encoding for each set ----------

  /** Items are not empty and neighbours differ in kind. */
  predicate Alternating(items: seq<Item>)
  {
    && (forall i :: 0 <= i < |items| ==>
          match items[i]
          case Gap(n) => n >= 1
          case Run(b) => b != [] && NonZero(b))
    && (forall i :: 0 <= i < |items| - 1 ==> items[i].Gap? != items[i + 1].Gap?)
  }

  lemma LastByte(items: seq<Item>)
    requires Alternating(items) && items != []
    ensures NoNegative(items) && Flat(items) != []
    ensures Flat(items)[|Flat(items)| - 1] == 0 <==> items[|items| - 1].Gap?
  {
  }

  /** The bytes of the last item are the longest stretch of its kind at the end. */
  lemma LastItem(items: seq<Item>, k: nat)
    requires Alternating(items) && items != [] && k < |Flat(items)|
    ensures var x, e := items[|items| - 1], Flat(items);
            var n := |BytesOf(x)|;
            && n <= |e| && (k < n ==> (e[|e| - 1 - k] == 0 <==> x.Gap?))
            && (k == n ==> (e[|e| - 1 - k] == 0 <==> x.Run?))
  {
    var front := items[..|items| - 1];
    var n := |BytesOf(items[|items| - 1])|;
    assert Flat(items) == Flat(front) + BytesOf(items[|items| - 1]);
    if k == n {
      LastByte(front);
    }
  }

  lemma {:induction false} FlatIsInjective(a: seq<Item>, b: seq<Item>)
    requires Alternating(a) && Alternating(b) && NoNegative(a) && NoNegative(b) && Flat(a) == Flat(b)
    ensures a == b
  {
    hide Flat, Alternating, BytesOf;
    if a == [] || b == [] {
      ListNothing();
      if a != [] {
        LastByte(a);
      }
      if b != [] {
        LastByte(b);
      }
    } else {
      SameLast(a, b);
      LastFits(a);
      LastFits(b);
      AlternatingFront(a);
      AlternatingFront(b);
      SameItem(a[|a| - 1], b[|b| - 1]);
      FlatIsInjective(a[..|a| - 1], b[..|b| - 1]);
    }
  }

  lemma LastFits(items: seq<Item>)
    requires NoNegative(items) && items != []
    ensures var n, e := |BytesOf(items[|items| - 1])|, Flat(items);
            n <= |e| && e[|e| - n..] == BytesOf(items[|items| - 1]) && e[..|e| - n] == Flat(items[..|items| - 1])
  {
  }

  lemma AlternatingFront(items: seq<Item>)
    requires Alternating(items) && NoNegative(items) && items != []
    ensures Alternating(items[..|items| - 1]) && NoNegative(items[..|items| - 1])
    ensures items == items[..|items| - 1] + [items[|items| - 1]]
  {
  }

  lemma SameItem(x: Item, y: Item)
    requires x.Gap? == y.Gap? && (x.Gap? ==> x.n >= 0 && y.n >= 0) && BytesOf(x) == BytesOf(y)
    ensures x == y
  {
    if x.Gap? {
      assert |BytesOf(x)| == x.n && |BytesOf(y)| == y.n;
    }
  }

  lemma SameLast(a: seq<Item>, b: seq<Item>)
    requires Alternating(a) && Alternating(b) && a != [] && b != [] && NoNegative(a) && NoNegative(b) && Flat(a) == Flat(b)
    ensures var x, y := a[|a| - 1], b[|b| - 1];
            x.Gap? == y.Gap? && |BytesOf(x)| == |BytesOf(y)|
  {
    hide Flat, Zeros, Has;
    var x, y := a[|a| - 1], b[|b| - 1];
    var m, n := |BytesOf(x)|, |BytesOf(y)|;
    LastByte(a);
    LastByte(b);
    LastFits(a);
    LastFits(b);
    if m < n {
      LastItem(b, m);
      LastItem(a, m);
    }
    if n < m {
      LastItem(a, n);
      LastItem(b, n);
    }
  }

  lemma BytesHaveBits(b: bv8)
    requires b != 0
    ensures exists k :: 0 <= k < 8 && Has(b, k)
  {
    if forall k :: 0 <= k < 8 ==> !Has(b, k) {
      forall k | 0 <= k < 8
        ensures Has(b, k) <==> Has(0, k)
      {
        NoBit(k);
      }
      BytesAgree(b, 0);
    }
  }

  ghost predicate SameBits(e: seq<bv8>, f: seq<bv8>) { forall p: nat :: BitAt(e, p) <==> BitAt(f, p) }

  lemma NotLonger(e: seq<bv8>, f: seq<bv8>)
    requires SameBits(e, f) && (e != [] ==> e[|e| - 1] != 0)
    ensures |e| <= |f|
  {
    if e != [] {
      hide Has;
      BytesHaveBits(e[|e| - 1]);
      var k :| 0 <= k < 8 && Has(e[|e| - 1], k);
      var p := 8 * (|e| - 1) + k;
      assert p / 8 == |e| - 1 && p % 8 == k;
      assert BitAt(e, p);
    }
  }

  lemma SameBytes(e: seq<bv8>, f: seq<bv8>)
    requires SameBits(e, f) && |e| == |f|
    ensures e == f
  {
    hide Has;
    forall i | 0 <= i < |e|
      ensures e[i] == f[i]
    {
      forall k | 0 <= k < 8
        ensures Has(e[i], k) <==> Has(f[i], k)
      {
        var p := 8 * i + k;
        assert p / 8 == i && p % 8 == k;
        assert BitAt(e, p) <==> BitAt(f, p);
      }
      BytesAgree(e[i], f[i]);
    }
  }

  lemma CanonicalEnd(v: Value)
    requires Canonical(v)
    ensures NoNegative(Items(v)) && Alternating(Items(v))
    ensures Flat(Items(v)) != [] ==> Flat(Items(v))[|Flat(Items(v))| - 1] != 0
  {
    if Items(v) != [] {
      LastByte(Items(v));
    }
  }

  /** Canonical encodings are equal exactly when their sets are: no set has two. */
  lemma EncodingIsUnique(v: Value, w: Value)
    requires Canonical(v) && Canonical(w)
    ensures NoNegative(Items(v)) && NoNegative(Items(w))
    ensures v == w <==> forall p: nat :: Holds(v, p) <==> Holds(w, p)
  {
    hide Canonical, Alternating, Flat, Holds, Items;
    CanonicalEnd(v);
    CanonicalEnd(w);
    if forall p: nat :: Holds(v, p) <==> Holds(w, p) {
      SameFlat(v, w);
      FlatIsInjective(Items(v), Items(w));
      WrapIsCanonical(v);
      WrapIsCanonical(w);
    }
  }

  lemma WrapIsCanonical(v: Value)
    requires Canonical(v)
    ensures v == Wrap(Items(v))
  {
  }

  lemma SameFlat(v: Value, w: Value)
    requires Canonical(v) && Canonical(w) && NoNegative(Items(v)) && NoNegative(Items(w))
    requires forall p: nat :: Holds(v, p) <==> Holds(w, p)
    ensures Flat(Items(v)) == Flat(Items(w))
  {
    hide Flat, Has, Canonical;
    CanonicalEnd(v);
    CanonicalEnd(w);
    var e, f := Flat(Items(v)), Flat(Items(w));
    forall p: nat
      ensures BitAt(e, p) <==> BitAt(f, p)
    {
      assert Holds(v, p) <==> Holds(w, p);
    }
    NotLonger(e, f);
    NotLonger(f, e);
    SameBytes(e, f);
  }

  lemma SampleItems()
    ensures var v := List([Run([0x06]), Gap(2), Run([0x01])]);
            Canonical(v) && NoNegative(Items(v)) && Flat(Items(v)) == [0x06, 0, 0, 0x01]
  {
    hide Has, Flat;
    var a, b, z: Item := Run([0x06]), Run([0x01]), Gap(2);
    SampleFlat(a, z, b);
    assert Zeros(2) == [0, 0];
    assert BytesOf(a) + BytesOf(z) + BytesOf(b) == [0x06, 0, 0, 0x01];
  }

  lemma SampleFlat(x: Item, y: Item, z: Item)
    requires (x.Gap? ==> x.n >= 0) && (y.Gap? ==> y.n >= 0) && (z.Gap? ==> z.n >= 0)
    ensures NoNegative([x, y, z])
    ensures Flat([x, y, z]) == BytesOf(x) + BytesOf(y) + BytesOf(z)
  {
    hide Flat, BytesOf;
    assert [x, y, z][0] == x && [x, y, z][1] == y && [x, y, z][2] == z;
    FlatSnoc([], x);
    FlatSnoc([x], y);
    FlatSnoc([x, y], z);
    assert [] + [x] == [x] && [x] + [y] == [x, y] && [x, y] + [z] == [x, y, z];
    ListNothing();
  }

  /** Bits 1, 2 and 24: the byte 06, a gap of two bytes, the byte 01. */
  lemma SampleBits(v: Value)
    requires Canonical(v) && NoNegative(Items(v)) && forall p: nat :: Holds(v, p) <==> p in [1, 2, 24]
    ensures v == List([Run([0x06]), Gap(2), Run([0x01])])
  {
    hide Canonical, Flat, Items, NoNegative, Mask, Has;
    SampleItems();
    var w := List([Run([0x06]), Gap(2), Run([0x01])]);
    forall p: nat
      ensures BitAt([0x06, 0, 0, 0x01], p) <==> p in [1, 2, 24]
    {
      SampleBit(p);
    }
    assert forall p: nat :: Holds(w, p) <==> Holds(v, p);
    EncodingIsUnique(v, w);
  }

  lemma SampleBit(p: nat)
    ensures BitAt([0x06, 0, 0, 0x01], p) <==> p in [1, 2, 24]
  {
    var k := p % 8;
    if p / 8 == 0 || p / 8 == 3 {
      SixAndOne(k);
      assert p == 8 * (p / 8) + k;
    } else if p / 8 < 4 {
      NoBit(k);
    }
  }

  lemma SixAndOne(k: nat)
    requires k < 8
    ensures Has(0x06, k) <==> k == 1 || k == 2
    ensures Has(0x01, k) <==> k == 0
  {
  }
}
