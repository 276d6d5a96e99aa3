/** The CoAP message codec: header, options in ascending order, payload. */
module CoapFrame {
  import opened Common

  type bits2 = n: int | 0 <= n < 4
  type bits3 = n: int | 0 <= n < 8
  type bits5 = n: int | 0 <= n < 32
  type bits16 = n: int | 0 <= n < 65536

  const URI_PATH := 11
  const CONTENT_FORMAT := 12
  const URI_QUERY := 15
  const ACCEPT := 17
  const BLOCK2 := 23
  const BLOCK1 := 27

  const MARKER: byte := 255

  datatype Block = Block(num: nat, more: int, size: int)

  /** What options carry. A block is present when its three parts are. */
  datatype Fields = Fields(paths: seq<Bytes>, contentType: Option<nat>, keys: seq<Bytes>, accept: Option<nat>,
                           block2: Option<Block>, block1: Option<Block>)

  const NO_FIELDS := Fields([], None, [], None, None, None)

  datatype Message = Message(kind: bits2, codeClass: bits3, codeDetail: bits5, msgid: bits16, token: Option<Bytes>,
                             fields: Fields, payload: Option<Bytes>)

  // ---------- Numbers ----------

  function Be2(v: nat): (r: Bytes)
    requires v < 65536
    ensures |r| == 2
  {
    [v / 256, v % 256]
  }

  function Be4(v: nat): (r: Bytes)
    requires v < 0x1_0000_0000
    ensures |r| == 4
  {
    Be2(v / 65536) + Be2(v % 65536)
  }

  /** None where pack raises; between 2^32 and 2^64 it drops the high bits. */
  function UintEnc(v: nat): Option<Bytes>
  {
    if v == 0 then Some([])
    else if v < 256 then Some([v])
    else if v < 65536 then Some(Be2(v))
    else if v < 16777216 then Some(Be4(v)[1..])
    else if v < 0x1_0000_0000_0000_0000 then Some(Be4(v % 0x1_0000_0000))
    else None
  }

  function Value(d: Bytes): nat
  {
    if d == [] then 0 else Value(d[..|d| - 1]) * 256 + d[|d| - 1]
  }

  function UintDec(d: Bytes): Option<nat> { if |d| > 4 then None else Some(Value(d)) }

  /** The size exponent of a block. */
  function Exponent(size: int): Option<nat>
  {
    if size == 16 then Some(0) else if size == 32 then Some(1) else if size == 64 then Some(2) else if size == 128 then Some(3)
    else if size == 256 then Some(4) else if size == 512 then Some(5) else if size == 1024 then Some(6) else None
  }

  function SizeOf(szx: nat): int
    requires szx < 8
  {
    if szx == 0 then 16 else if szx == 1 then 32 else if szx == 2 then 64 else if szx == 3 then 128
    else if szx == 4 then 256 else if szx == 5 then 512 else if szx == 6 then 1024 else 2048
  }

  function BlockEnc(b: Block): Option<Bytes>
  {
    var szx := Exponent(b.size);
    if szx.None? then None else UintEnc(szx.value + (if b.more != 0 then 8 else 0) + b.num * 16)
  }

  function BlockDec(d: Bytes): Option<Block>
  {
    var v := UintDec(d);
    if v.None? then None else Some(Block(v.value / 16, v.value / 8 % 2, SizeOf(v.value % 8)))
  }

  // ---------- Printing ----------

  datatype Opt = Opt(number: nat, value: Bytes)

  /** A delta or a length: its nibble and its extension bytes; None where the source raises. */
  function Nibble(v: nat): (r: Option<(nat, Bytes)>)
    ensures r.Some? ==> r.value.0 < 15
  {
    if v < 13 then Some((v, []))
    else if v <= 268 then Some((13, [v - 13]))
    else if v < 65536 then Some((14, Be2(v - 269)))
    else None
  }

  function OptEnc(delta: nat, value: Bytes): Option<Bytes>
  {
    var d, l := Nibble(delta), Nibble(|value|);
    if d.None? || l.None? then None else Some([d.value.0 * 16 + l.value.0] + d.value.1 + l.value.1 + value)
  }

  /** None also where an option number would fall behind the last one. */
  function OptsEnc(last: nat, opts: seq<Opt>): Option<Bytes>
    decreases |opts|
  {
    if opts == [] then Some([])
    else if opts[0].number < last then None
    else
      var first, rest := OptEnc(opts[0].number - last, opts[0].value), OptsEnc(opts[0].number, opts[1..]);
      if first.None? || rest.None? then None else Some(first.value + rest.value)
  }

  /** One option for each segment that is not empty. */
  function Segments(number: nat, segs: seq<Bytes>): seq<Opt>
  {
    if segs == [] then [] else (if segs[0] == [] then [] else [Opt(number, segs[0])]) + Segments(number, segs[1..])
  }

  function One(number: nat, value: Option<Bytes>): seq<Opt> { if value.None? then [] else [Opt(number, value.value)] }

  function UintOpt(v: Option<nat>): Option<Bytes> { if v.None? then None else UintEnc(v.value) }

  function BlockOpt(b: Option<Block>): Option<Bytes> { if b.None? then None else BlockEnc(b.value) }

  /** No number and no block makes the source raise. */
  predicate Encodable(f: Fields)
  {
    && (f.contentType.Some? ==> UintOpt(f.contentType).Some?) && (f.accept.Some? ==> UintOpt(f.accept).Some?)
    && (f.block2.Some? ==> BlockOpt(f.block2).Some?) && (f.block1.Some? ==> BlockOpt(f.block1).Some?)
  }

  function OptsFromAccept(f: Fields): seq<Opt>
  {
    One(ACCEPT, UintOpt(f.accept)) + (One(BLOCK2, BlockOpt(f.block2)) + One(BLOCK1, BlockOpt(f.block1)))
  }

  function OptsFromFormat(f: Fields): seq<Opt>
  {
    One(CONTENT_FORMAT, UintOpt(f.contentType)) + (Segments(URI_QUERY, f.keys) + OptsFromAccept(f))
  }

  function Opts(f: Fields): seq<Opt>
  {
    Segments(URI_PATH, f.paths) + OptsFromFormat(f)
  }

  function Tail(payload: Option<Bytes>): Bytes
  {
    if payload.Some? && payload.value != [] then [MARKER] + payload.value else []
  }

  /** The fixed four bytes. The token's length is written; its bytes are not. */
  function HeaderEnc(m: Message): Option<Bytes>
  {
    var tkl := if m.token.Some? then |m.token.value| else 0;
    if tkl > 15 then None
    else Some([64 + m.kind * 16 + tkl, m.codeClass * 32 + m.codeDetail] + Be2(m.msgid))
  }

  function Enc(m: Message): Option<Bytes>
  {
    var h, o := HeaderEnc(m), OptsEnc(0, Opts(m.fields));
    if h.None? || !Encodable(m.fields) || o.None? then None else Some(h.value + o.value + Tail(m.payload))
  }

  // ---------- Parsing ----------

  datatype Taken = Bad | Raised | Good(n: nat, rest: Bytes)

  /** The value of a nibble. With 14 the source adds a number to a list, and raises. */
  function Extend(nibble: nat, data: Bytes): (r: Taken)
    ensures r.Good? ==> |r.rest| <= |data|
  {
    if nibble == 13 then if |data| < 1 then Bad else Good(data[0] as int + 13, data[1..])
    else if nibble == 14 then if |data| < 2 then Bad else Raised
    else if nibble == 15 then Bad
    else Good(nibble, data)
  }

  datatype Step = BadOpt | RaisedOpt | Read(delta: nat, value: Bytes, rest: Bytes)

  function TakeOpt(data: Bytes): (r: Step)
    requires data != []
    ensures r.Read? ==> |r.rest| < |data|
  {
    var d := Extend(data[0] / 16, data[1..]);
    if d.Bad? then BadOpt else if d.Raised? then RaisedOpt else
      var l := Extend(data[0] % 16, d.rest);
      if l.Bad? then BadOpt else if l.Raised? then RaisedOpt
      else if |l.rest| < l.n then BadOpt
      else Read(d.n, l.rest[..l.n], l.rest[l.n..])
  }

  /** None where a number has more than four bytes and the source raises. */
  function Apply(f: Fields, number: nat, value: Bytes): Option<Fields>
  {
    if number == URI_PATH then Some(f.(paths := f.paths + [value]))
    else if number == URI_QUERY then Some(f.(keys := f.keys + [value]))
    else if number == CONTENT_FORMAT then
      var v := UintDec(value);
      if v.None? then None else Some(f.(contentType := v))
    else if number == ACCEPT then
      var v := UintDec(value);
      if v.None? then None else Some(f.(accept := v))
    else if number == BLOCK1 then
      var b := BlockDec(value);
      if b.None? then None else Some(f.(block1 := b))
    else if number == BLOCK2 then
      var b := BlockDec(value);
      if b.None? then None else Some(f.(block2 := b))
    else Some(f)
  }

  datatype Outcome<T> = Parsed(value: T) | ParseError | Raises

  function OptsDec(data: Bytes, number: nat, f: Fields): Outcome<(Fields, Option<Bytes>)>
    decreases |data|
  {
    if data == [] then Parsed((f, None))
    else if data[0] == MARKER then Parsed((f, Some(data[1..])))
    else
      var o := TakeOpt(data);
      if o.BadOpt? then ParseError else if o.RaisedOpt? then Raises else
        var g := Apply(f, number + o.delta, o.value);
        if g.None? then Raises else OptsDec(o.rest, number + o.delta, g.value)
  }

  function Dec(data: Bytes): Outcome<Message>
    requires |data| >= 4
  {
    var tkl := data[0] % 16;
    var body := data[4..];
    if data[0] / 64 != 1 || |body| < tkl then ParseError else
      var r := OptsDec(body[tkl..], 0, NO_FIELDS);
      if r.ParseError? then ParseError else if r.Raises? then Raises
      else Parsed(Message(data[0] / 16 % 4, data[1] / 32, data[1] % 32, data[2] as int * 256 + data[3],
                          if tkl > 0 then Some(body[..tkl]) else None, r.value.0, r.value.1))
  }

  // ---------- Printing in steps ----------

  function Prepend(h: Bytes, r: Option<Bytes>): Option<Bytes> { if r.None? then None else Some(h + r.value) }

  lemma NextOpt(h: Bytes, last: nat, o: Opt, rest: seq<Opt>)
    ensures Prepend(h, OptsEnc(last, [o] + rest)) ==
              if o.number < last || OptEnc(o.number - last, o.value).None? then None
              else Prepend(h + OptEnc(o.number - last, o.value).value, OptsEnc(o.number, rest))
  {
    hide OptEnc;
    assert ([o] + rest)[1..] == rest;
    if o.number >= last && OptEnc(o.number - last, o.value).Some? && OptsEnc(o.number, rest).Some? {
      var first, more := OptEnc(o.number - last, o.value).value, OptsEnc(o.number, rest).value;
      assert h + (first + more) == (h + first) + more;
    }
  }

  lemma PrependNothing(r: Option<Bytes>)
    ensures Prepend([], r) == r
  {
    if r.Some? {
      assert [] + r.value == r.value;
    }
  }

  lemma NoOpts(last: nat, h: Bytes)
    ensures Prepend(h, OptsEnc(last, [])) == Some(h)
  {
    assert h + [] == h;
  }

  /** What an attribute that may be missing adds; the rest of the options does not matter. */
  method AddOne(h: Bytes, last: nat, number: nat, value: Option<Bytes>, ghost rest: seq<Opt>)
    returns (ok: bool, h2: Bytes, last2: nat)
    ensures Prepend(h, OptsEnc(last, One(number, value) + rest)) == if ok then Prepend(h2, OptsEnc(last2, rest)) else None
  {
    hide OptEnc, OptsEnc;
    ok, h2, last2 := true, h, last;
    if value.None? {
      assert [] + rest == rest;
      return;
    }
    NextOpt(h, last, Opt(number, value.value), rest);
    if number < last {
      return false, h, last;
    }
    var o := OptEnc(number - last, value.value);
    if o.None? {
      return false, h, last;
    }
    h2, last2 := h + o.value, number;
  }

  method AddSegments(h: Bytes, last: nat, number: nat, segs: seq<Bytes>, ghost rest: seq<Opt>)
    returns (ok: bool, h2: Bytes, last2: nat)
    ensures Prepend(h, OptsEnc(last, Segments(number, segs) + rest)) == if ok then Prepend(h2, OptsEnc(last2, rest)) else None
  {
    hide OptsEnc;
    ok, h2, last2 := true, h, last;
    assert segs[0..] == segs;
    for i := 0 to |segs|
      invariant Prepend(h, OptsEnc(last, Segments(number, segs) + rest)) ==
                Prepend(h2, OptsEnc(last2, Segments(number, segs[i..]) + rest))
    {
      assert segs[i..][1..] == segs[i + 1..];
      ghost var more := Segments(number, segs[i + 1..]) + rest;
      if segs[i] != [] {
        assert One(number, Some(segs[i])) == [Opt(number, segs[i])];
        assert Segments(number, segs[i..]) + rest == One(number, Some(segs[i])) + more;
        ok, h2, last2 := AddOne(h2, last2, number, Some(segs[i]), more);
        if !ok {
          return;
        }
      } else {
        assert Segments(number, segs[i..]) + rest == more;
      }
    }
    assert Segments(number, []) + rest == rest;
  }

  // ---------- The object ----------

  class Coap {
    var kind: bits2
    var codeClass: bits3
    var codeDetail: bits5
    var msgid: bits16
    var token: Option<Bytes>
    var paths: seq<Bytes>
    var contentType: Option<nat>
    var keys: seq<Bytes>
    var accept: Option<nat>
    var block2: Option<Block>
    var block1: Option<Block>
    var payload: Option<Bytes>
    var parseError: bool

    function View(): Message
      reads this
    {
      Message(kind, codeClass, codeDetail, msgid, token, Fields(paths, contentType, keys, accept, block2, block1), payload)
    }

    constructor ()
      ensures !parseError && View() == Message(0, 0, 0, 0, None, NO_FIELDS, None)
    {
      kind, codeClass, codeDetail, msgid, token, payload := 0, 0, 0, 0, None, None;
      paths, contentType, keys, accept, block2, block1 := [], None, [], None, None, None;
      parseError := false;
    }

    /** The parsing constructor's work; false where it raises. */
    method Parse(bytes: Bytes) returns (ok: bool)
      requires |bytes| >= 4 && !parseError && View() == Message(0, 0, 0, 0, None, NO_FIELDS, None)
      modifies this
      ensures match Dec(bytes)
              case Parsed(m) => ok && !parseError && View() == m
              case ParseError => ok && parseError
              case Raises => !ok
    {
      hide TakeOpt, Apply;
      ok := true;
      if bytes[0] / 64 != 1 {
        parseError := true;
        return;
      }
      kind, codeClass, codeDetail := bytes[0] / 16 % 4, bytes[1] / 32, bytes[1] % 32;
      msgid := bytes[2] as int * 256 + bytes[3];
      var data := bytes[4..];
      var tkl := bytes[0] % 16;
      if tkl > 0 {
        if |data| < tkl {
          parseError := true;
          return;
        }
        token := Some(data[..tkl]);
        data := data[tkl..];
      }
      ghost var body, m := data, View();
      var number: nat := 0;
      while data != [] && data[0] != MARKER
        invariant !parseError && View() == m.(fields := View().fields)
        invariant OptsDec(body, 0, NO_FIELDS) == OptsDec(data, number, View().fields)
        decreases |data|
      {
        var o := TakeOpt(data);
        if o.BadOpt? {
          parseError := true;
          return;
        }
        if o.RaisedOpt? {
          return false;
        }
        number := number + o.delta;
        ok := Store(number, o.value);
        if !ok {
          return;
        }
        data := o.rest;
      }
      if data == [] {
        return;
      }
      payload := Some(data[1..]);
    }

    /** Printing: what each attribute adds, in the order of the option numbers. */
    method Print() returns (r: Option<Bytes>)
      ensures r == Enc(View())
    {
      hide OptsEnc, Segments, HeaderEnc, UintEnc, BlockEnc, UintOpt, BlockOpt;
      ghost var f := View().fields;
      ghost var t1 := One(BLOCK1, BlockOpt(f.block1));
      ghost var t2 := One(BLOCK2, BlockOpt(f.block2)) + t1;
      ghost var t3 := OptsFromAccept(f);
      ghost var t4 := Segments(URI_QUERY, f.keys) + t3;
      ghost var t5 := OptsFromFormat(f);
      var header := HeaderEnc(View());
      if header.None? {
        return None;
      }
      if !Encodable(Fields(paths, contentType, keys, accept, block2, block1)) {
        return None;
      }
      var ok, last, h := true, 0, [];
      PrependNothing(OptsEnc(0, Opts(f)));
      ok, h, last := AddSegments(h, last, URI_PATH, paths, t5);
      if !ok {
        return None;
      }
      ok, h, last := AddOne(h, last, CONTENT_FORMAT, UintOpt(contentType), t4);
      if !ok {
        return None;
      }
      ok, h, last := AddSegments(h, last, URI_QUERY, keys, t3);
      if !ok {
        return None;
      }
      ok, h, last := AddOne(h, last, ACCEPT, UintOpt(accept), t2);
      if !ok {
        return None;
      }
      ok, h, last := AddOne(h, last, BLOCK2, BlockOpt(block2), t1);
      if !ok {
        return None;
      }
      assert t1 + [] == t1;
      ok, h, last := AddOne(h, last, BLOCK1, BlockOpt(block1), []);
      if !ok {
        return None;
      }
      NoOpts(last, h);
      assert OptsEnc(0, Opts(f)) == Some(h);
      ghost var o := h;
      if payload.Some? && payload.value != [] {
        h := h + [MARKER] + payload.value;
      }
      assert h == o + Tail(payload);
      assert header.value + (o + Tail(payload)) == header.value + o + Tail(payload);
      r := Some(header.value + h);
    }

    /** The case split over the option number. */
    method Store(number: nat, value: Bytes) returns (ok: bool)
      modifies this
      ensures parseError == old(parseError)
      ensures var g := Apply(old(View()).fields, number, value);
              ok == g.Some? && (ok ==> View() == old(View()).(fields := g.value))
    {
      ok := true;
      match number {
        case 11 => paths := paths + [value];
        case 12 =>
          var v := UintDec(value);
          if v.None? {
            return false;
          }
          contentType := v;
        case 15 => keys := keys + [value];
        case 17 =>
          var v := UintDec(value);
          if v.None? {
            return false;
          }
          accept := v;
        case 27 =>
          var b := BlockDec(value);
          if b.None? {
            return false;
          }
          block1 := b;
        case 23 =>
          var b := BlockDec(value);
          if b.None? {
            return false;
          }
          block2 := b;
        case _ =>
      }
    }
  }

  // ---------- Round trip ----------

  lemma {:induction false} ValueAppend(d: Bytes, b: byte)
    ensures Value(d + [b]) == Value(d) * 256 + b
  {
    assert (d + [b])[..|d|] == d;
  }

  lemma ValueOfFour(a: byte, b: byte, c: byte, d: byte)
    ensures Value([a]) == a && Value([a, b]) == a * 256 + b
    ensures Value([a, b, c]) == (a * 256 + b) * 256 + c
    ensures Value([a, b, c, d]) == ((a * 256 + b) * 256 + c) * 256 + d
  {
    hide Value;
    NoValue();
    assert [a] == [] + [a] && [a, b] == [a] + [b] && [a, b, c] == [a, b] + [c] && [a, b, c, d] == [a, b, c] + [d];
    ValueAppend([], a);
    ValueAppend([a], b);
    ValueAppend([a, b], c);
    ValueAppend([a, b, c], d);
  }

  /** Numbers below 2^32 come back, and take at most four bytes. */
  lemma UintTrips(v: nat)
    requires v < 0x1_0000_0000
    ensures UintEnc(v).Some? && |UintEnc(v).value| <= 4 && UintDec(UintEnc(v).value) == Some(v)
  {
    hide Value;
    var b := [v / 16777216, v / 65536 % 256, v % 65536 / 256, v % 256];
    if v == 0 {
      NoValue();
    } else if v < 256 {
      ValueOfFour(v, 0, 0, 0);
    } else if v < 65536 {
      ValueOfFour(v / 256, v % 256, 0, 0);
    } else {
      BytesOf(v);
      ValueOfFour(b[0], b[1], b[2], b[3]);
      ValueOfFour(b[1], b[2], b[3], 0);
    }
  }

  lemma NoValue()
    ensures Value([]) == 0
  {
  }

  lemma BytesOf(v: nat)
    requires 65536 <= v < 0x1_0000_0000
    ensures v / 16777216 < 256
    ensures Be4(v) == [v / 16777216, v / 65536 % 256, v % 65536 / 256, v % 256]
    ensures (((v / 16777216) * 256 + v / 65536 % 256) * 256 + v % 65536 / 256) * 256 + v % 256 == v
    ensures v < 16777216 ==> v / 16777216 == 0
  {
    DivTwice(v);
    ModTwice(v);
  }

  lemma DivTwice(v: nat)
    ensures v / 65536 / 256 == v / 16777216
  {
  }

  lemma ModTwice(v: nat)
    ensures v % 65536 % 256 == v % 256
  {
  }

  predicate GoodBlock(b: Block) { b.num < 0x1000_0000 && (b.more == 0 || b.more == 1) && Exponent(b.size).Some? }

  lemma BlockTrips(b: Block)
    requires GoodBlock(b)
    ensures BlockEnc(b).Some? && |BlockEnc(b).value| <= 4 && BlockDec(BlockEnc(b).value) == Some(b)
  {
    hide UintEnc, UintDec, SizeOf, Exponent;
    SizeTrips(b.size);
    var szx := Exponent(b.size).value;
    BlockParts(szx, b.more, b.num);
    UintTrips(szx + (if b.more != 0 then 8 else 0) + b.num * 16);
  }

  lemma SizeTrips(size: int)
    requires Exponent(size).Some?
    ensures Exponent(size).value < 7 && SizeOf(Exponent(size).value) == size
  {
  }

  lemma BlockParts(szx: nat, more: int, num: nat)
    requires szx < 8 && (more == 0 || more == 1)
    ensures var v := szx + (if more != 0 then 8 else 0) + num * 16; v % 8 == szx && v / 8 % 2 == more && v / 16 == num
  {
  }

  /** A nibble up to 268 is read back; a larger one makes the parser raise. */
  lemma NibbleTrips(v: nat, rest: Bytes)
    requires v < 65536
    ensures Nibble(v).Some? && Extend(Nibble(v).value.0, Nibble(v).value.1 + rest) == if v <= 268 then Good(v, rest) else Raised
  {
    var (n, ext) := Nibble(v).value;
    if 13 <= v <= 268 {
      assert (ext + rest)[1..] == rest;
    } else if v < 13 {
      assert ext + rest == rest;
    }
  }

  /** One printed option in front of more data. */
  lemma OptTrips(delta: nat, value: Bytes, rest: Bytes)
    requires delta <= 268 && |value| < 65536
    ensures var o := OptEnc(delta, value);
            && o.Some? && o.value != [] && o.value[0] != MARKER
            && TakeOpt(o.value + rest) == if |value| <= 268 then Read(delta, value, rest) else RaisedOpt
  {
    hide Nibble, Extend;
    NibbleIsSmall(delta);
    NibbleIsSmall(|value|);
    NibbleTrips(delta, Nibble(|value|).value.1 + value + rest);
    NibbleTrips(|value|, value + rest);
    var (d, dx) := Nibble(delta).value;
    var (l, lx) := Nibble(|value|).value;
    var data := OptEnc(delta, value).value + rest;
    assert data[1..] == dx + (lx + value + rest);
    assert lx + value + rest == lx + (value + rest);
    assert data[0] == d * 16 + l;
    assert data[0] / 16 == d && data[0] % 16 == l;
    assert (value + rest)[..|value|] == value && (value + rest)[|value|..] == rest;
  }

  lemma NibbleIsSmall(v: nat)
    requires v < 65536
    ensures Nibble(v).Some? && Nibble(v).value.0 < 15
  {
  }

  predicate Ascending(last: nat, opts: seq<Opt>)
    decreases |opts|
  {
    opts == [] || (last <= opts[0].number <= 268 && |opts[0].value| < 65536 && Ascending(opts[0].number, opts[1..]))
  }

  predicate Short(opts: seq<Opt>) { forall i :: 0 <= i < |opts| ==> |opts[i].value| <= 268 }

  /** The fields after the options, one after the other. */
  function Applied(f: Fields, opts: seq<Opt>): Option<Fields>
    decreases |opts|
  {
    if opts == [] then Some(f) else
      var g := Apply(f, opts[0].number, opts[0].value);
      if g.None? then None else Applied(g.value, opts[1..])
  }

  function TailOutcome(f: Fields, payload: Option<Bytes>): Outcome<(Fields, Option<Bytes>)>
  {
    Parsed((f, if payload.Some? && payload.value != [] then payload else None))
  }

  /** Parsing printed options applies them, up to the first one that is too long. */
  lemma {:induction false} OptsTrip(last: nat, opts: seq<Opt>, payload: Option<Bytes>, f: Fields)
    requires Ascending(last, opts) && Applied(f, opts).Some?
    ensures var o := OptsEnc(last, opts);
            o.Some? && OptsDec(o.value + Tail(payload), last, f) ==
                         if Short(opts) then TailOutcome(Applied(f, opts).value, payload) else Raises
    decreases |opts|
  {
    hide OptEnc, TakeOpt, Apply;
    if opts == [] {
      assert [] + Tail(payload) == Tail(payload);
      if Tail(payload) != [] {
        assert Tail(payload)[1..] == payload.value;
      }
    } else {
      var o, delta := opts[0], opts[0].number - last;
      var g := Apply(f, o.number, o.value).value;
      OptsTrip(o.number, opts[1..], payload, g);
      var rest := OptsEnc(o.number, opts[1..]).value;
      OptTrips(delta, o.value, rest + Tail(payload));
      var first := OptEnc(delta, o.value).value;
      assert (first + rest) + Tail(payload) == first + (rest + Tail(payload));
      assert Short(opts) <==> |o.value| <= 268 && Short(opts[1..]) by {
        assert forall i :: 1 <= i < |opts| ==> opts[i] == opts[1..][i - 1];
      }
    }
  }

  // ---------- The options of a message ----------

  predicate GoodNumber(v: Option<nat>) { v.Some? ==> v.value < 0x1_0000_0000 }

  predicate SegmentsBelow(segs: seq<Bytes>, n: nat) { forall i :: 0 <= i < |segs| ==> |segs[i]| < n }

  /** Uints of four bytes, block numbers of 28 bits, sizes from 16 to 1024, segments below 64 kB. */
  predicate GoodFields(f: Fields)
  {
    && GoodNumber(f.contentType) && GoodNumber(f.accept) && (f.block1.Some? ==> GoodBlock(f.block1.value))
    && (f.block2.Some? ==> GoodBlock(f.block2.value)) && SegmentsBelow(f.paths, 65536) && SegmentsBelow(f.keys, 65536)
  }

  function NonEmpty(segs: seq<Bytes>): seq<Bytes>
  {
    if segs == [] then [] else (if segs[0] == [] then [] else [segs[0]]) + NonEmpty(segs[1..])
  }

  /** What a parser can see of the fields: empty segments are not sent. */
  function Seen(f: Fields): Fields { f.(paths := NonEmpty(f.paths), keys := NonEmpty(f.keys)) }

  lemma {:induction false} AppliedConcat(f: Fields, a: seq<Opt>, b: seq<Opt>)
    ensures Applied(f, a + b) == if Applied(f, a).None? then None else Applied(Applied(f, a).value, b)
    decreases |a|
  {
    hide Apply;
    if a == [] {
      assert a + b == b;
    } else {
      assert (a + b)[1..] == a[1..] + b;
      var g := Apply(f, a[0].number, a[0].value);
      if g.Some? {
        AppliedConcat(g.value, a[1..], b);
      }
    }
  }

  lemma {:induction false} ApplyPaths(f: Fields, segs: seq<Bytes>)
    ensures Applied(f, Segments(URI_PATH, segs)) == Some(f.(paths := f.paths + NonEmpty(segs)))
    decreases |segs|
  {
    hide Applied, Segments, NonEmpty;
    SegmentsStep(URI_PATH, segs);
    if segs == [] {
      ApplyNothing(f);
      assert f.paths + [] == f.paths;
    } else if segs[0] == [] {
      ApplyPaths(f, segs[1..]);
    } else {
      var g := f.(paths := f.paths + [segs[0]]);
      ApplyPaths(g, segs[1..]);
      ApplyFirst(f, Opt(URI_PATH, segs[0]), Segments(URI_PATH, segs[1..]));
      assert f.paths + [segs[0]] + NonEmpty(segs[1..]) == f.paths + ([segs[0]] + NonEmpty(segs[1..]));
    }
  }

  lemma SegmentsStep(number: nat, segs: seq<Bytes>)
    ensures segs == [] ==> Segments(number, segs) == [] && NonEmpty(segs) == []
    ensures segs != [] && segs[0] == [] ==>
              Segments(number, segs) == Segments(number, segs[1..]) && NonEmpty(segs) == NonEmpty(segs[1..])
    ensures segs != [] && segs[0] != [] ==>
              && Segments(number, segs) == [Opt(number, segs[0])] + Segments(number, segs[1..])
              && NonEmpty(segs) == [segs[0]] + NonEmpty(segs[1..])
  {
  }

  lemma ApplyNothing(f: Fields)
    ensures Applied(f, []) == Some(f)
  {
  }

  lemma ApplyFirst(f: Fields, o: Opt, rest: seq<Opt>)
    requires Apply(f, o.number, o.value).Some?
    ensures Applied(f, [o] + rest) == Applied(Apply(f, o.number, o.value).value, rest)
  {
    hide Apply;
    assert ([o] + rest)[1..] == rest;
  }

  lemma {:induction false} ApplyKeys(f: Fields, segs: seq<Bytes>)
    ensures Applied(f, Segments(URI_QUERY, segs)) == Some(f.(keys := f.keys + NonEmpty(segs)))
    decreases |segs|
  {
    hide Applied, Segments, NonEmpty;
    SegmentsStep(URI_QUERY, segs);
    if segs == [] {
      ApplyNothing(f);
      assert f.keys + [] == f.keys;
    } else if segs[0] == [] {
      ApplyKeys(f, segs[1..]);
    } else {
      var g := f.(keys := f.keys + [segs[0]]);
      ApplyKeys(g, segs[1..]);
      ApplyFirst(f, Opt(URI_QUERY, segs[0]), Segments(URI_QUERY, segs[1..]));
      assert f.keys + [segs[0]] + NonEmpty(segs[1..]) == f.keys + ([segs[0]] + NonEmpty(segs[1..]));
    }
  }

  predicate AllNumber(opts: seq<Opt>, n: nat)
  {
    forall i :: 0 <= i < |opts| ==> opts[i].number == n && |opts[i].value| < 65536
  }

  lemma {:induction false} AscendingConcat(last: nat, a: seq<Opt>, n: nat, b: seq<Opt>)
    requires last <= n <= 268 && AllNumber(a, n) && Ascending(n, b)
    ensures Ascending(last, a + b)
    decreases |a|
  {
    if a == [] {
      assert a + b == b;
    } else {
      assert (a + b)[1..] == a[1..] + b && (a + b)[0] == a[0];
      AscendingConcat(n, a[1..], n, b);
    }
  }

  lemma {:induction false} SegmentsAre(number: nat, segs: seq<Bytes>)
    requires SegmentsBelow(segs, 65536)
    ensures AllNumber(Segments(number, segs), number)
    ensures Short(Segments(number, segs)) <==> SegmentsBelow(segs, 269)
  {
    if segs != [] {
      SegmentsAre(number, segs[1..]);
      assert SegmentsBelow(segs, 269) <==> |segs[0]| < 269 && SegmentsBelow(segs[1..], 269) by {
        assert forall i :: 1 <= i < |segs| ==> segs[i] == segs[1..][i - 1];
      }
      var more := Segments(number, segs[1..]);
      if segs[0] != [] {
        var first := [Opt(number, segs[0])];
        ShortConcat(first, more);
        assert Short(first) <==> |first[0].value| < 269;
      } else {
        assert [] + more == more;
      }
    }
  }

  lemma ShortConcat(a: seq<Opt>, b: seq<Opt>)
    ensures Short(a + b) <==> Short(a) && Short(b)
  {
    assert forall i :: 0 <= i < |a| ==> (a + b)[i] == a[i];
    assert forall i :: 0 <= i < |b| ==> (a + b)[|a| + i] == b[i];
  }

  lemma OneIs(number: nat, value: Option<Bytes>)
    requires value.Some? ==> |value.value| <= 4
    ensures AllNumber(One(number, value), number) && Short(One(number, value))
  {
  }

  lemma NumberIs(v: Option<nat>)
    requires GoodNumber(v)
    ensures v.Some? ==> UintOpt(v).Some? && |UintOpt(v).value| <= 4 && UintDec(UintOpt(v).value) == v
    ensures v.None? ==> UintOpt(v).None?
  {
    hide UintEnc, UintDec;
    if v.Some? {
      UintTrips(v.value);
    }
  }

  lemma BlockIs(b: Option<Block>)
    requires b.Some? ==> GoodBlock(b.value)
    ensures b.Some? ==> BlockOpt(b).Some? && |BlockOpt(b).value| <= 4 && BlockDec(BlockOpt(b).value) == b
    ensures b.None? ==> BlockOpt(b).None?
  {
    hide BlockEnc, BlockDec;
    if b.Some? {
      BlockTrips(b.value);
    }
  }

  lemma AcceptAscends(f: Fields)
    requires GoodFields(f)
    ensures Ascending(URI_QUERY, OptsFromAccept(f)) && Short(OptsFromAccept(f))
  {
    hide Ascending, AllNumber, Short, UintOpt, BlockOpt, GoodNumber, GoodBlock, One, SegmentsBelow;
    NumberIs(f.accept);
    BlockIs(f.block1);
    BlockIs(f.block2);
    var o4, o5, o6 := One(ACCEPT, UintOpt(f.accept)), One(BLOCK2, BlockOpt(f.block2)), One(BLOCK1, BlockOpt(f.block1));
    OneIs(ACCEPT, UintOpt(f.accept));
    OneIs(BLOCK2, BlockOpt(f.block2));
    OneIs(BLOCK1, BlockOpt(f.block1));
    NoneAscend(BLOCK1);
    assert o6 + [] == o6;
    AscendingConcat(BLOCK2, o6, BLOCK1, []);
    AscendingConcat(ACCEPT, o5, BLOCK2, o6);
    AscendingConcat(URI_QUERY, o4, ACCEPT, o5 + o6);
    ShortConcat(o5, o6);
    ShortConcat(o4, o5 + o6);
  }

  /** Option numbers never decrease, so that every delta has a nibble form. */
  lemma OptsAscend(f: Fields)
    requires GoodFields(f)
    ensures Ascending(0, Opts(f)) && Encodable(f)
    ensures Short(Opts(f)) <==> SegmentsBelow(f.paths, 269) && SegmentsBelow(f.keys, 269)
  {
    hide Ascending, AllNumber, Short, UintOpt, BlockOpt, GoodNumber, GoodBlock, Segments, One, SegmentsBelow, OptsFromAccept;
    AcceptAscends(f);
    NumberIs(f.contentType);
    NumberIs(f.accept);
    BlockIs(f.block1);
    BlockIs(f.block2);
    var o1, o2, o3 := Segments(URI_PATH, f.paths), One(CONTENT_FORMAT, UintOpt(f.contentType)), Segments(URI_QUERY, f.keys);
    SegmentsAre(URI_PATH, f.paths);
    SegmentsAre(URI_QUERY, f.keys);
    OneIs(CONTENT_FORMAT, UintOpt(f.contentType));
    var rest := OptsFromAccept(f);
    AscendingConcat(CONTENT_FORMAT, o3, URI_QUERY, rest);
    AscendingConcat(URI_PATH, o2, CONTENT_FORMAT, o3 + rest);
    AscendingConcat(0, o1, URI_PATH, o2 + (o3 + rest));
    ShortConcat(o3, rest);
    ShortConcat(o2, o3 + rest);
    ShortConcat(o1, o2 + (o3 + rest));
  }

  lemma NoneAscend(last: nat)
    ensures Ascending(last, [])
  {
  }

  lemma ApplyOne(f: Fields, number: nat, value: Option<Bytes>, g: Fields)
    requires if value.Some? then Apply(f, number, value.value) == Some(g) else f == g
    ensures Applied(f, One(number, value)) == Some(g)
  {
    hide Apply;
    if value.Some? {
      assert [Opt(number, value.value)][1..] == [];
    }
  }

  /** Applying a message's options to nothing gives its fields. */
  lemma OptsApply(f: Fields)
    requires GoodFields(f)
    ensures Applied(NO_FIELDS, Opts(f)) == Some(Seen(f))
  {
    hide Applied, UintOpt, BlockOpt, GoodNumber, GoodBlock, Segments, One, UintDec, BlockDec, NonEmpty;
    NumberIs(f.contentType);
    NumberIs(f.accept);
    BlockIs(f.block1);
    BlockIs(f.block2);
    var o1, o2 := Segments(URI_PATH, f.paths), One(CONTENT_FORMAT, UintOpt(f.contentType));
    var o3, o4 := Segments(URI_QUERY, f.keys), One(ACCEPT, UintOpt(f.accept));
    var o5, o6 := One(BLOCK2, BlockOpt(f.block2)), One(BLOCK1, BlockOpt(f.block1));
    var f1 := NO_FIELDS.(paths := NonEmpty(f.paths));
    var f2 := f1.(contentType := f.contentType);
    var f3 := f2.(keys := NonEmpty(f.keys));
    var f4 := f3.(accept := f.accept);
    var f5 := f4.(block2 := f.block2);
    var f6 := f5.(block1 := f.block1);
    assert [] + NonEmpty(f.paths) == NonEmpty(f.paths) && [] + NonEmpty(f.keys) == NonEmpty(f.keys);
    ApplyPaths(NO_FIELDS, f.paths);
    ApplyOne(f1, CONTENT_FORMAT, UintOpt(f.contentType), f2);
    ApplyKeys(f2, f.keys);
    ApplyOne(f3, ACCEPT, UintOpt(f.accept), f4);
    ApplyOne(f4, BLOCK2, BlockOpt(f.block2), f5);
    ApplyOne(f5, BLOCK1, BlockOpt(f.block1), f6);
    AppliedConcat(f4, o5, o6);
    AppliedConcat(f3, o4, o5 + o6);
    AppliedConcat(f2, o3, OptsFromAccept(f));
    AppliedConcat(f1, o2, o3 + OptsFromAccept(f));
    AppliedConcat(NO_FIELDS, o1, OptsFromFormat(f));
    assert f6 == Seen(f);
  }

  /** What a parser can see of a message. */
  function Normal(m: Message): Message
  {
    m.(fields := Seen(m.fields), payload := if m.payload.Some? && m.payload.value != [] then m.payload else None)
  }

  lemma HeaderTrips(m: Message, rest: Bytes)
    requires m.token.Some? ==> |m.token.value| <= 15
    ensures var h := HeaderEnc(m);
            && h.Some? && |h.value| == 4
            && var d := h.value + rest;
               && d[0] / 64 == 1 && d[0] / 16 % 4 == m.kind && d[0] % 16 == (if m.token.Some? then |m.token.value| else 0)
               && d[1] / 32 == m.codeClass && d[1] % 32 == m.codeDetail && d[2] as int * 256 + d[3] == m.msgid && d[4..] == rest
  {
  }

  /** Without a token, parsing what was printed gives back every field exactly when no segment exceeds 268 bytes. */
  lemma RoundTrip(m: Message)
    requires m.token.None? && GoodFields(m.fields)
    ensures var x := Enc(m);
            && x.Some? && |x.value| >= 4
            && (Dec(x.value) == Parsed(Normal(m)) <==> SegmentsBelow(m.fields.paths, 269) && SegmentsBelow(m.fields.keys, 269))
            && (Dec(x.value) == Raises <==> !(SegmentsBelow(m.fields.paths, 269) && SegmentsBelow(m.fields.keys, 269)))
  {
    hide HeaderEnc, OptsEnc, OptsDec, Opts, Applied, Seen, GoodFields, Encodable, Ascending, Short, SegmentsBelow, Tail;
    OptsAscend(m.fields);
    OptsApply(m.fields);
    OptsTrip(0, Opts(m.fields), m.payload, NO_FIELDS);
    var o := OptsEnc(0, Opts(m.fields)).value + Tail(m.payload);
    HeaderTrips(m, o);
    var h := HeaderEnc(m).value;
    assert h + OptsEnc(0, Opts(m.fields)).value + Tail(m.payload) == h + o;
    assert o[0..] == o;
  }

  // ---------- What parses is what was printed ----------

  /** Options that some bytes can be read as: ascending from last, steps and values of at most 268. */
  predicate Readable(last: nat, opts: seq<Opt>)
    decreases |opts|
  {
    opts == [] ||
    (last <= opts[0].number <= last + 268 && |opts[0].value| <= 268 && Readable(opts[0].number, opts[1..]))
  }

  lemma ExtendIsNibble(nibble: nat, data: Bytes)
    requires nibble < 16 && Extend(nibble, data).Good?
    ensures var t := Extend(nibble, data);
            t.n <= 268 && Nibble(t.n).Some? && Nibble(t.n).value.0 == nibble && data == Nibble(t.n).value.1 + t.rest
  {
    if nibble == 13 {
      assert data == [data[0]] + data[1..];
    } else {
      assert data == [] + data;
    }
  }

  /** An option has one form: what is read is what printing its delta and value gives. */
  lemma ReadIsPrinted(data: Bytes)
    requires data != [] && TakeOpt(data).Read?
    ensures var o := TakeOpt(data);
            && o.delta <= 268 && |o.value| <= 268 && OptEnc(o.delta, o.value).Some?
            && data == OptEnc(o.delta, o.value).value + o.rest
  {
    hide Extend, Nibble;
    var d := Extend(data[0] / 16, data[1..]);
    ExtendIsNibble(data[0] / 16, data[1..]);
    var l := Extend(data[0] % 16, d.rest);
    ExtendIsNibble(data[0] % 16, d.rest);
    assert l.rest == l.rest[..l.n] + l.rest[l.n..];
    var (dn, dx) := Nibble(d.n).value;
    var (ln, lx) := Nibble(l.n).value;
    assert data == [data[0]] + data[1..];
    assert [data[0]] + (dx + (lx + (l.rest[..l.n] + l.rest[l.n..]))) ==
           ([data[0]] + dx + lx + l.rest[..l.n]) + l.rest[l.n..];
  }

  /** The bytes behind the options. */
  function Behind(payload: Option<Bytes>): Bytes { if payload.Some? then [MARKER] + payload.value else [] }

  /** Bytes that parse are the printed form of the options read from them. */
  lemma {:induction false} ParsedIsPrinted(data: Bytes, number: nat, f: Fields) returns (q: seq<Opt>)
    requires OptsDec(data, number, f).Parsed?
    ensures Readable(number, q) && OptsEnc(number, q).Some?
    ensures var (g, payload) := OptsDec(data, number, f).value;
            Applied(f, q) == Some(g) && data == OptsEnc(number, q).value + Behind(payload)
    decreases |data|
  {
    hide TakeOpt, OptEnc, Apply;
    if data == [] {
      q := [];
    } else if data[0] == MARKER {
      q := [];
      assert data == [] + ([MARKER] + data[1..]);
    } else {
      var o := TakeOpt(data);
      ReadIsPrinted(data);
      var rest := ParsedIsPrinted(o.rest, number + o.delta, Apply(f, number + o.delta, o.value).value);
      q := [Opt(number + o.delta, o.value)] + rest;
      assert q[1..] == rest;
      var payload := OptsDec(data, number, f).value.1;
      assert OptEnc(o.delta, o.value).value + (OptsEnc(number + o.delta, rest).value + Behind(payload)) ==
             OptsEnc(number, q).value + Behind(payload);
    }
  }

  // ---------- No options are printed shorter ----------

  /** The values of the options with number n. */
  function ValuesOf(opts: seq<Opt>, n: nat): seq<Bytes>
    decreases |opts|
  {
    if opts == [] then [] else (if opts[0].number == n then [opts[0].value] else []) + ValuesOf(opts[1..], n)
  }

  lemma ValuesFirst(q: seq<Opt>, n: nat)
    requires q != []
    ensures ValuesOf(q, n) == if q[0].number == n then [q[0].value] + ValuesOf(q[1..], n) else ValuesOf(q[1..], n)
  {
  }

  /** Leaving out some of vs and shortening others gives values as long as ws. */
  predicate Within(vs: seq<Bytes>, ws: seq<Bytes>)
    decreases |vs|
  {
    ws == [] || (vs != [] && (Within(vs[1..], ws) || (|ws[0]| <= |vs[0]| && Within(vs[1..], ws[1..]))))
  }

  lemma {:induction false} WithinSelf(vs: seq<Bytes>)
    ensures Within(vs, vs)
    decreases |vs|
  {
    if vs != [] {
      WithinSelf(vs[1..]);
    }
  }

  lemma {:induction false} WithinLast(vs: seq<Bytes>, w: Bytes)
    requires vs != [] && |w| <= |vs[|vs| - 1]|
    ensures Within(vs, [w])
    decreases |vs|
  {
    if |vs| == 1 {
      assert [w][1..] == [];
    } else {
      WithinLast(vs[1..], w);
    }
  }

  lemma {:induction false} NoneBelow(last: nat, q: seq<Opt>, n: nat)
    requires Readable(last, q) && n < last
    ensures ValuesOf(q, n) == []
    decreases |q|
  {
    if q != [] {
      NoneBelow(q[0].number, q[1..], n);
    }
  }

  lemma {:induction false} NoneBefore(last: nat, r: seq<Opt>, n: nat)
    requires Ascending(last, r) && n < last
    ensures ValuesOf(r, n) == []
    decreases |r|
  {
    if r != [] {
      NoneBefore(r[0].number, r[1..], n);
    }
  }

  /** One byte is enough to start further back. */
  lemma Jump(last: nat, n: nat, r: seq<Opt>)
    requires last <= n && Ascending(n, r) && OptsEnc(n, r).Some?
    ensures Ascending(last, r) && OptsEnc(last, r).Some? && |OptsEnc(last, r).value| <= |OptsEnc(n, r).value| + 1
  {
  }

  lemma OptIsShorter(delta: nat, v: Bytes, w: Bytes)
    requires delta <= 268 && |w| <= |v| <= 268
    ensures OptEnc(delta, w).Some? && OptEnc(delta, v).Some? && 1 <= |OptEnc(delta, w).value| <= |OptEnc(delta, v).value|
  {
  }

  /** Number by number, q holds the values of r. */
  ghost predicate Holds(q: seq<Opt>, r: seq<Opt>) { forall n: nat :: Within(ValuesOf(q, n), ValuesOf(r, n)) }

  /** The first values belong together. */
  lemma HoldsRest(q: seq<Opt>, r: seq<Opt>)
    requires Holds(q, r) && q != [] && r != [] && q[0].number == r[0].number
    requires Within(ValuesOf(q[1..], q[0].number), ValuesOf(r[1..], q[0].number))
    ensures Holds(q[1..], r[1..])
  {
    hide ValuesOf, Within;
    forall n: nat
      ensures Within(ValuesOf(q[1..], n), ValuesOf(r[1..], n))
    {
      assert Within(ValuesOf(q, n), ValuesOf(r, n));
      ValuesFirst(q, n);
      ValuesFirst(r, n);
    }
  }

  /** The first value of q is left out. */
  lemma HoldsSkip(q: seq<Opt>, r: seq<Opt>)
    requires Holds(q, r) && q != [] && Within(ValuesOf(q[1..], q[0].number), ValuesOf(r, q[0].number))
    ensures Holds(q[1..], r)
  {
    hide ValuesOf, Within;
    forall n: nat
      ensures Within(ValuesOf(q[1..], n), ValuesOf(r, n))
    {
      assert Within(ValuesOf(q, n), ValuesOf(r, n));
      ValuesFirst(q, n);
    }
  }

  /** The first of r is not before the first of q, and with the same number it is left out or belongs to it. */
  lemma HoldsFirst(last: nat, q: seq<Opt>, r: seq<Opt>)
    requires Readable(last, q) && Ascending(last, r) && Holds(q, r) && r != []
    ensures q != [] && q[0].number <= r[0].number
    ensures Within(ValuesOf(q[1..], q[0].number), ValuesOf(r, q[0].number)) ||
            (q[0].number == r[0].number && |r[0].value| <= |q[0].value| &&
             Within(ValuesOf(q[1..], q[0].number), ValuesOf(r[1..], q[0].number)))
  {
    var k := r[0].number;
    assert Within(ValuesOf(q, k), ValuesOf(r, k));
    assert q != [];
    var n := q[0].number;
    if k < n {
      NoneBelow(n, q[1..], k);
    } else {
      assert Within(ValuesOf(q, n), ValuesOf(r, n));
      if n < k {
        NoneBefore(k, r, n);
      }
    }
  }

  /** Options whose values q holds, number by number, and maybe more, are not longer than q. */
  lemma {:induction false} Shortest(last: nat, q: seq<Opt>, r: seq<Opt>)
    requires Readable(last, q) && Ascending(last, r) && OptsEnc(last, q).Some? && Holds(q, r)
    ensures OptsEnc(last, r).Some? && |OptsEnc(last, r).value| <= |OptsEnc(last, q).value|
    decreases |q|
  {
    hide OptEnc, ValuesOf, Within, Holds;
    if r != [] {
      HoldsFirst(last, q, r);
      var n := q[0].number;
      OptIsShorter(n - last, q[0].value, q[0].value);
      if Within(ValuesOf(q[1..], n), ValuesOf(r, n)) {
        HoldsSkip(q, r);
        Shortest(n, q[1..], r);
        Jump(last, n, r);
      } else {
        HoldsRest(q, r);
        Shortest(n, q[1..], r[1..]);
        OptIsShorter(n - last, q[0].value, r[0].value);
      }
    }
  }

  function LastNumber(vs: seq<Bytes>, v: Option<nat>): Option<nat> { if vs == [] then v else UintDec(vs[|vs| - 1]) }

  function LastBlock(vs: seq<Bytes>, b: Option<Block>): Option<Block> { if vs == [] then b else BlockDec(vs[|vs| - 1]) }

  /** Fields after some options: all segments in order, and the last of each number or block. */
  function After(f: Fields, q: seq<Opt>): Fields
  {
    Fields(f.paths + ValuesOf(q, 11), LastNumber(ValuesOf(q, 12), f.contentType), f.keys + ValuesOf(q, 15),
           LastNumber(ValuesOf(q, 17), f.accept), LastBlock(ValuesOf(q, 23), f.block2), LastBlock(ValuesOf(q, 27), f.block1))
  }

  lemma LastFirst(v: Bytes, vs: seq<Bytes>, x: Option<nat>, b: Option<Block>)
    ensures LastNumber([v] + vs, x) == LastNumber(vs, UintDec(v)) && LastBlock([v] + vs, b) == LastBlock(vs, BlockDec(v))
  {
  }

  lemma AfterFirst(f: Fields, q: seq<Opt>)
    requires q != [] && Apply(f, q[0].number, q[0].value).Some?
    ensures After(Apply(f, q[0].number, q[0].value).value, q[1..]) == After(f, q)
  {
    hide ValuesOf, LastNumber, LastBlock, UintDec, BlockDec;
    var n, v := q[0].number, q[0].value;
    ValuesFirst(q, URI_PATH);
    ValuesFirst(q, CONTENT_FORMAT);
    ValuesFirst(q, URI_QUERY);
    ValuesFirst(q, ACCEPT);
    ValuesFirst(q, BLOCK2);
    ValuesFirst(q, BLOCK1);
    LastFirst(v, ValuesOf(q[1..], n), if n == CONTENT_FORMAT then f.contentType else f.accept,
              if n == BLOCK2 then f.block2 else f.block1);
    assert (f.paths + [v]) + ValuesOf(q[1..], n) == f.paths + ([v] + ValuesOf(q[1..], n));
    assert (f.keys + [v]) + ValuesOf(q[1..], n) == f.keys + ([v] + ValuesOf(q[1..], n));
  }

  lemma {:induction false} AppliedIs(f: Fields, q: seq<Opt>)
    requires Applied(f, q).Some?
    ensures Applied(f, q).value == After(f, q)
    decreases |q|
  {
    if q == [] {
      assert f.paths + [] == f.paths && f.keys + [] == f.keys;
    } else {
      hide Apply, After;
      AppliedIs(Apply(f, q[0].number, q[0].value).value, q[1..]);
      AfterFirst(f, q);
    }
  }

  /** What is read from a message's options: each attribute is read from the values under its own number. */
  lemma ReadFields(data: Bytes) returns (q: seq<Opt>)
    requires OptsDec(data, 0, NO_FIELDS).Parsed?
    ensures var (f, payload) := OptsDec(data, 0, NO_FIELDS).value;
            && OptsEnc(0, q).Some? && data == OptsEnc(0, q).value + Behind(payload)
            && f.paths == ValuesOf(q, 11) && f.keys == ValuesOf(q, 15)
            && f.contentType == LastNumber(ValuesOf(q, 12), None) && f.accept == LastNumber(ValuesOf(q, 17), None)
            && f.block2 == LastBlock(ValuesOf(q, 23), None) && f.block1 == LastBlock(ValuesOf(q, 27), None)
  {
    hide OptsDec, OptsEnc, Applied, ValuesOf, LastNumber, LastBlock, Readable;
    q := ParsedIsPrinted(data, 0, NO_FIELDS);
    AppliedIs(NO_FIELDS, q);
    assert [] + ValuesOf(q, 11) == ValuesOf(q, 11) && [] + ValuesOf(q, 15) == ValuesOf(q, 15);
  }

  lemma {:induction false} ValueBound(d: Bytes)
    requires |d| <= 3
    ensures Value(d) < (if |d| == 0 then 1 else if |d| == 1 then 256 else if |d| == 2 then 65536 else 16777216)
  {
    if d != [] {
      ValueBound(d[..|d| - 1]);
    }
  }

  lemma {:induction false} ValueFits(d: Bytes)
    requires |d| <= 4
    ensures Value(d) < 0x1_0000_0000
  {
    if |d| == 4 {
      ValueBound(d[..3]);
    } else {
      ValueBound(d);
    }
  }

  /** A number is printed in the fewest bytes that hold it. */
  lemma UintIsShortest(d: Bytes)
    requires UintDec(d).Some?
    ensures UintEnc(UintDec(d).value).Some? && |UintEnc(UintDec(d).value).value| <= |d|
  {
    hide Value;
    ValueFits(d);
    UintTrips(Value(d));
    if |d| <= 3 {
      ValueBound(d);
    }
  }

  lemma BlockIsShortest(d: Bytes)
    requires BlockDec(d).Some? && GoodBlock(BlockDec(d).value)
    ensures BlockEnc(BlockDec(d).value).Some? && |BlockEnc(BlockDec(d).value).value| <= |d|
  {
    hide UintEnc, UintDec;
    UintIsShortest(d);
    var v := UintDec(d).value;
    assert v == v / 16 * 16 + v / 8 % 2 * 8 + v % 8;
  }

  lemma {:induction false} ValuesConcat(a: seq<Opt>, b: seq<Opt>, n: nat)
    ensures ValuesOf(a + b, n) == ValuesOf(a, n) + ValuesOf(b, n)
    decreases |a|
  {
    if a == [] {
      assert a + b == b;
    } else {
      assert (a + b)[1..] == a[1..] + b;
      ValuesConcat(a[1..], b, n);
      assert forall x: seq<Bytes> :: x + (ValuesOf(a[1..], n) + ValuesOf(b, n)) == (x + ValuesOf(a[1..], n)) + ValuesOf(b, n);
    }
  }

  lemma {:induction false} SegmentValues(number: nat, segs: seq<Bytes>, n: nat)
    ensures ValuesOf(Segments(number, segs), n) == if n == number then NonEmpty(segs) else []
    decreases |segs|
  {
    if segs != [] {
      SegmentValues(number, segs[1..], n);
      if segs[0] != [] {
        assert Segments(number, segs)[1..] == Segments(number, segs[1..]);
      } else {
        assert Segments(number, segs) == Segments(number, segs[1..]);
      }
    }
  }

  lemma OneValue(number: nat, value: Option<Bytes>, n: nat)
    ensures ValuesOf(One(number, value), n) == if n == number && value.Some? then [value.value] else []
  {
    if value.Some? {
      assert [Opt(number, value.value)][1..] == [];
    }
  }

  function ValueIf(c: bool, value: Option<Bytes>): seq<Bytes> { if c && value.Some? then [value.value] else [] }

  /** The values that are printed for each number. */
  function Printed(f: Fields, n: nat): seq<Bytes>
  {
    if n == 11 then NonEmpty(f.paths)
    else if n == 12 then ValueIf(true, UintOpt(f.contentType))
    else if n == 15 then NonEmpty(f.keys)
    else if n == 17 then ValueIf(true, UintOpt(f.accept))
    else if n == 23 then ValueIf(true, BlockOpt(f.block2))
    else if n == 27 then ValueIf(true, BlockOpt(f.block1))
    else []
  }

  /** Each attribute goes out under its own option number, and nothing under any other. */
  lemma PrintedValues(f: Fields, n: nat)
    ensures ValuesOf(Opts(f), n) == Printed(f, n)
  {
    hide ValuesOf, Segments, One, NonEmpty, UintOpt, BlockOpt;
    var o1, o2 := Segments(URI_PATH, f.paths), One(CONTENT_FORMAT, UintOpt(f.contentType));
    var o3, o4 := Segments(URI_QUERY, f.keys), One(ACCEPT, UintOpt(f.accept));
    var o5, o6 := One(BLOCK2, BlockOpt(f.block2)), One(BLOCK1, BlockOpt(f.block1));
    SegmentValues(URI_PATH, f.paths, n);
    OneValue(CONTENT_FORMAT, UintOpt(f.contentType), n);
    SegmentValues(URI_QUERY, f.keys, n);
    OneValue(ACCEPT, UintOpt(f.accept), n);
    OneValue(BLOCK2, BlockOpt(f.block2), n);
    OneValue(BLOCK1, BlockOpt(f.block1), n);
    ValuesConcat(o5, o6, n);
    ValuesConcat(o4, o5 + o6, n);
    ValuesConcat(o3, OptsFromAccept(f), n);
    ValuesConcat(o2, o3 + OptsFromAccept(f), n);
    ValuesConcat(o1, OptsFromFormat(f), n);
  }

  lemma NumberWithin(vs: seq<Bytes>, v: Option<nat>)
    requires LastNumber(vs, None) == v
    ensures Within(vs, ValueIf(true, UintOpt(v)))
  {
    hide UintEnc, UintDec;
    if v.Some? {
      var d := vs[|vs| - 1];
      UintIsShortest(d);
      WithinLast(vs, UintEnc(v.value).value);
    }
  }

  lemma BlockWithin(vs: seq<Bytes>, b: Option<Block>)
    requires LastBlock(vs, None) == b && (b.Some? ==> GoodBlock(b.value))
    ensures Within(vs, ValueIf(true, BlockOpt(b)))
  {
    hide BlockEnc, BlockDec, GoodBlock;
    if b.Some? {
      var d := vs[|vs| - 1];
      BlockIsShortest(d);
      WithinLast(vs, BlockEnc(b.value).value);
    }
  }

  lemma PrintedWithin(f: Fields, q: seq<Opt>, n: nat)
    requires GoodFields(f) && Applied(NO_FIELDS, q) == Some(Seen(f))
    ensures Within(ValuesOf(q, n), Printed(f, n))
  {
    hide Applied, Within, ValuesOf, NonEmpty, UintOpt, BlockOpt, GoodBlock, LastNumber, LastBlock;
    AppliedIs(NO_FIELDS, q);
    var vs := ValuesOf(q, n);
    WithinSelf(vs);
    assert [] + vs == vs;
    WithinNone(vs);
    if n == CONTENT_FORMAT {
      NumberWithin(vs, f.contentType);
    } else if n == ACCEPT {
      NumberWithin(vs, f.accept);
    } else if n == BLOCK2 {
      BlockWithin(vs, f.block2);
    } else if n == BLOCK1 {
      BlockWithin(vs, f.block1);
    }
  }

  lemma WithinNone(vs: seq<Bytes>)
    ensures Within(vs, [])
  {
  }

  /** The printed form of options and payload is the shortest text that parses to them. */
  lemma PrintedIsShortest(f: Fields, payload: Option<Bytes>, data: Bytes)
    requires GoodFields(f) && OptsDec(data, 0, NO_FIELDS) == TailOutcome(Seen(f), payload)
    ensures OptsEnc(0, Opts(f)).Some? && |OptsEnc(0, Opts(f)).value| + |Tail(payload)| <= |data|
  {
    hide OptsDec, OptsEnc, Opts, Readable, Ascending, Applied, Short, Within, ValuesOf, Printed, GoodFields;
    var q := ParsedIsPrinted(data, 0, NO_FIELDS);
    OptsAscend(f);
    forall n: nat ensures Within(ValuesOf(q, n), ValuesOf(Opts(f), n)) {
      PrintedValues(f, n);
      PrintedWithin(f, q, n);
    }
    Shortest(0, q, Opts(f));
  }

  /** With a token, the parser takes the first bytes of the options for it: they are cut off, or too few. */
  lemma TokenEatsOptions(m: Message)
    requires m.token.Some? && 0 < |m.token.value| <= 15 && GoodFields(m.fields)
    ensures var x, n := Enc(m), |m.token.value|;
            && x.Some? && |x.value| >= 4 && Enc(m.(token := None)).Some? && x.value[1..] == Enc(m.(token := None)).value[1..]
            && (|x.value| < 4 + n ==> Dec(x.value) == ParseError)
            && (var r := Dec(x.value);
                r.Parsed? ==> (&& r.value.token == Some(x.value[4..4 + n])
                               && OptsDec(x.value[4 + n..], 0, NO_FIELDS) == Parsed((r.value.fields, r.value.payload))))
  {
    hide OptsEnc, OptsDec, Opts, Applied, GoodFields, Encodable, Ascending, Short, SegmentsBelow, Tail;
    OptsAscend(m.fields);
    OptsApply(m.fields);
    OptsTrip(0, Opts(m.fields), m.payload, NO_FIELDS);
    var o := OptsEnc(0, Opts(m.fields)).value + Tail(m.payload);
    var x := Enc(m).value;
    HeaderTrips(m, o);
    assert x == HeaderEnc(m).value + o;
    var n := |m.token.value|;
    assert n <= |o| ==> x[4..][..n] == x[4..4 + n] && x[4..][n..] == x[4 + n..];
  }

  /** Options that follow a token that was not written come back shorter than they were printed, so never whole. */
  lemma TokenLosesOptions(m: Message)
    requires m.token.Some? && 0 < |m.token.value| <= 15 && GoodFields(m.fields)
    ensures Enc(m).Some? && |Enc(m).value| >= 4 && Dec(Enc(m).value) != Parsed(Normal(m))
  {
    hide HeaderEnc, OptsEnc, OptsDec, Opts, Seen, GoodFields, Encodable, Tail, Dec;
    TokenEatsOptions(m);
    HeaderTrips(m, []);
    var x, n := Enc(m).value, |m.token.value|;
    if Dec(x) == Parsed(Normal(m)) {
      PrintedIsShortest(m.fields, m.payload, x[4 + n..]);
    }
  }

  /** The parser has no empty token. */
  lemma NoEmptyToken(m: Message)
    requires m.token == Some([]) && GoodFields(m.fields)
    ensures Enc(m).Some? && |Enc(m).value| >= 4 && Dec(Enc(m).value) != Parsed(Normal(m))
  {
    hide OptsEnc, OptsDec, Opts, GoodFields, Encodable, Ascending, Short, Applied, Tail, Seen;
    OptsAscend(m.fields);
    OptsApply(m.fields);
    OptsTrip(0, Opts(m.fields), m.payload, NO_FIELDS);
  }

  /** A message comes back with every field iff it has no token and no segment exceeds 268 bytes. */
  lemma RoundTripIff(m: Message)
    requires GoodFields(m.fields) && (m.token.Some? ==> |m.token.value| <= 15)
    ensures var x := Enc(m);
            && x.Some? && |x.value| >= 4
            && (Dec(x.value) == Parsed(Normal(m)) <==>
                  m.token.None? && SegmentsBelow(m.fields.paths, 269) && SegmentsBelow(m.fields.keys, 269))
  {
    hide Enc, Dec, Normal, GoodFields, SegmentsBelow;
    if m.token.None? {
      RoundTrip(m);
    } else if m.token.value == [] {
      NoEmptyToken(m);
    } else {
      TokenLosesOptions(m);
    }
  }

  // ---------- Layout ----------

  /** The fixed four bytes: version 1, type and token length; class and detail of the code; the message ID. */
  lemma HeaderIs(m: Message)
    requires m.token.Some? ==> |m.token.value| <= 15
    ensures var h, n := HeaderEnc(m), if m.token.Some? then |m.token.value| else 0;
            && h.Some? && |h.value| == 4
            && h.value[0] / 64 == 1 && h.value[0] / 16 % 4 == m.kind && h.value[0] % 16 == n
            && h.value[1] / 32 == m.codeClass && h.value[1] % 32 == m.codeDetail
            && h.value[2] as int * 256 + h.value[3] == m.msgid
  {
  }

  /** What a four-bit field and its extension bytes mean. */
  predicate Spells(nibble: nat, ext: Bytes, v: nat)
  {
    if nibble < 13 then ext == [] && v == nibble
    else if nibble == 13 then |ext| == 1 && v == ext[0] as nat + 13
    else nibble == 14 && |ext| == 2 && v == ext[0] as nat * 256 + ext[1] + 269
  }

  /** An option is a byte with two four-bit fields, the extension of each, and the value. */
  lemma OptIs(delta: nat, value: Bytes) returns (d: Bytes, l: Bytes)
    requires delta < 65536 && |value| < 65536
    ensures var o := OptEnc(delta, value);
            && o.Some? && o.value != [] && o.value == [o.value[0]] + d + l + value
            && Spells(o.value[0] / 16, d, delta) && Spells(o.value[0] % 16, l, |value|)
  {
    d, l := Nibble(delta).value.1, Nibble(|value|).value.1;
    NibbleSpells(delta);
    NibbleSpells(|value|);
  }

  lemma NibbleSpells(v: nat)
    requires v < 65536
    ensures Nibble(v).Some? && Spells(Nibble(v).value.0, Nibble(v).value.1, v)
  {
  }

  /** A number is its bytes, the heaviest first and without leading zeros. */
  lemma UintIs(v: nat)
    requires v < 0x1_0000_0000
    ensures var d := UintEnc(v);
            && d.Some? && |d.value| <= 4 && (d.value != [] ==> d.value[0] != 0)
            && (|d.value| == 0 ==> v == 0) && (|d.value| == 1 ==> d.value[0] as nat == v)
            && (|d.value| == 2 ==> d.value[0] as nat * 256 + d.value[1] == v)
            && (|d.value| == 3 ==> (d.value[0] as nat * 256 + d.value[1]) * 256 + d.value[2] == v)
            && (|d.value| == 4 ==> ((d.value[0] as nat * 256 + d.value[1]) * 256 + d.value[2]) * 256 + d.value[3] == v)
  {
    hide Be4;
    if 65536 <= v {
      BytesOf(v);
      var d := Be4(v);
      assert |d| == 4 && d[1..] == [d[1], d[2], d[3]] && v % 0x1_0000_0000 == v;
    } else {
      assert v / 256 * 256 + v % 256 == v;
    }
  }

  /** A block is the number num * 16 + more * 8 + e, where the size is 2 to the power e + 4. */
  lemma BlockLayout(b: Block) returns (e: nat)
    requires GoodBlock(b)
    ensures e < 7 && b.size == [16, 32, 64, 128, 256, 512, 1024][e]
    ensures BlockEnc(b) == UintEnc(b.num * 16 + b.more * 8 + e)
  {
    hide UintEnc;
    e := Exponent(b.size).value;
  }

  /** And it is read so: the parts of the number are those of the block. */
  lemma BlockRead(d: Bytes) returns (e: nat)
    requires BlockDec(d).Some?
    ensures var b := BlockDec(d).value;
            && e < 8 && b.size == [16, 32, 64, 128, 256, 512, 1024, 2048][e] && (b.more == 0 || b.more == 1)
            && UintDec(d) == Some(b.num * 16 + b.more * 8 + e)
  {
    hide UintDec;
    e := UintDec(d).value % 8;
    Parts(UintDec(d).value);
    SizeIs(e);
    hide SizeOf;
  }

  lemma Parts(v: nat)
    ensures v == v / 16 * 16 + v / 8 % 2 * 8 + v % 8
  {
    assert v == v / 8 * 8 + v % 8 && v / 8 == v / 8 / 2 * 2 + v / 8 % 2 && v / 8 / 2 == v / 16;
  }

  lemma SizeIs(e: nat)
    requires e < 8
    ensures SizeOf(e) == [16, 32, 64, 128, 256, 512, 1024, 2048][e]
  {
  }

  /** A message is its header, its options, and behind 0xFF its payload, if there is any. */
  lemma MessageIs(m: Message)
    requires Enc(m).Some?
    ensures HeaderEnc(m).Some? && OptsEnc(0, Opts(m.fields)).Some?
    ensures Enc(m).value == HeaderEnc(m).value + OptsEnc(0, Opts(m.fields)).value +
              (if m.payload.Some? && m.payload.value != [] then [0xFF] + m.payload.value else [])
  {
    hide HeaderEnc, OptsEnc, Opts, Encodable;
  }

  /** The request for c?d=a: the options 11 and 15. */
  lemma SampleOptions()
    ensures OptsEnc(0, Opts(Fields([[0x63]], None, [[0x64, 0x3D, 0x61]], None, None, None))) ==
              Some([0xB1, 0x63, 0x43, 0x64, 0x3D, 0x61])
  {
    var path: Bytes, query: Bytes := [0x63], [0x64, 0x3D, 0x61];
    OneSegment(11, path);
    OneSegment(15, query);
    var f := Fields([path], None, [query], None, None, None);
    assert Opts(f) == [Opt(11, path), Opt(15, query)];
    assert 0xB1 == 11 * 16 + 1 && 0x43 == 4 * 16 + 3;
    ShortOption(11, path);
    ShortOption(4, query);
    assert [0xB1] + path == [0xB1, 0x63] && [0x43] + query == [0x43, 0x64, 0x3D, 0x61];
    TwoOptions(Opt(11, path), Opt(15, query));
    assert ([0xB1] + path) + ([0x43] + query) == [0xB1, 0x63, 0x43, 0x64, 0x3D, 0x61];
  }

  lemma OneSegment(number: nat, seg: Bytes)
    requires seg != []
    ensures Segments(number, [seg]) == [Opt(number, seg)]
  {
    var segs := [seg];
    assert segs[1..] == [];
  }

  lemma ShortOption(delta: nat, value: Bytes)
    requires delta < 13 && |value| < 13
    ensures OptEnc(delta, value) == Some([delta * 16 + |value|] + value)
  {
    assert [delta * 16 + |value|] + [] + [] + value == [delta * 16 + |value|] + value;
  }

  lemma TwoOptions(a: Opt, b: Opt)
    requires a.number <= b.number && OptEnc(a.number, a.value).Some? && OptEnc(b.number - a.number, b.value).Some?
    ensures OptsEnc(0, [a, b]) == Some(OptEnc(a.number, a.value).value + OptEnc(b.number - a.number, b.value).value)
  {
    hide OptEnc;
    var q := [a, b];
    assert q[1..] == [b] && q[1..][1..] == [];
    assert OptEnc(b.number - a.number, b.value).value + [] == OptEnc(b.number - a.number, b.value).value;
    assert OptsEnc(b.number, []) == Some([]);
    assert OptsEnc(a.number, [b]) == OptEnc(b.number - a.number, b.value);
  }
}
