/** The MUP1 link layer: the frame encoder and the byte-at-a-time receiver. */
module Mup1 {
  import opened Common
  import Base128
  import Crc32

  const SOF: byte := 0x3E
  const EOF: byte := 0x3C
  const ESC: byte := 0x5C
  const ESC_00: byte := 0x30
  const ESC_FF: byte := 0x46

  const MAX_TX := 300
  const MAX_RX := 1024

  datatype Mode = Internet | Crc

  datatype Frame = Frame(kind: byte, data: Bytes)

  // ---------- Checksums ----------

  /** The sum of the big-endian 16-bit words; a last odd byte is dropped. */
  function WordSum(d: Bytes): nat
  {
    if |d| < 2 then 0 else d[0] * 256 + d[1] + WordSum(d[2..])
  }

  function Carry(sum: nat): nat { sum / 0x1_0000 + sum % 0x1_0000 }

  /** The complement of the sum after two carries, cut to 16 bits. */
  function InternetValue(d: Bytes): (r: nat)
    ensures r < 0x1_0000
  {
    (-1 - Carry(Carry(WordSum(d)))) % 0x1_0000
  }

  function Hex(digit: nat): byte
    requires digit < 16
  {
    if digit < 10 then 0x30 + digit else 0x57 + digit
  }

  /** Four lower-case hexadecimal digits. */
  function HexDigits(v: nat): (r: Bytes)
    requires v < 0x1_0000
    ensures |r| == 4
  {
    [Hex(v / 4096), Hex(v / 256 % 16), Hex(v / 16 % 16), Hex(v % 16)]
  }

  function Bit(b: byte, k: nat, mask: bv8): bv8
    requires k > 0
  {
    if b / k % 2 == 1 then mask else 0
  }

  /** A byte as the machine holds it. */
  function Octet(b: byte): bv8
  {
    Bit(b, 1, 1) | Bit(b, 2, 2) | Bit(b, 4, 4) | Bit(b, 8, 8)
    | Bit(b, 16, 16) | Bit(b, 32, 32) | Bit(b, 64, 64) | Bit(b, 128, 128)
  }

  function Bits(d: Bytes): (r: seq<bv8>)
    ensures |r| == |d| && forall i :: 0 <= i < |d| ==> r[i] == Octet(d[i])
  {
    seq(|d|, i requires 0 <= i < |d| => Octet(d[i]))
  }

  function Width(m: Mode): nat { if m == Crc then 5 else 4 }

  function Word(x: bv32): (n: nat)
    ensures n < 0x1_0000_0000
  {
    x as nat
  }

  /** The check bytes of an unescaped frame. */
  function Check(m: Mode, raw: Bytes): (r: Bytes)
    ensures |r| == Width(m)
  {
    if m == Crc then Base128.Digits(Word(Crc32.Crc(Bits(raw)))) else HexDigits(InternetValue(raw))
  }

  lemma {:induction false} WordSumBound(d: Bytes)
    ensures WordSum(d) <= |d| / 2 * 0xFFFF
  {
    if |d| >= 2 {
      WordSumBound(d[2..]);
    }
  }

  /** A receiver that adds the checksum to the words gets all ones: zero in one's complement. */
  lemma InternetSumIsZero(d: Bytes)
    requires |d| <= 0x2_0000
    ensures Carry(Carry(WordSum(d))) < 0x1_0000
    ensures (WordSum(d) + InternetValue(d)) % 0xFFFF == 0
  {
    hide WordSum, Carry;
    WordSumBound(d);
    var s := WordSum(d);
    CarryKeepsMod(s);
    CarryKeepsMod(Carry(s));
    ModDifference(s, Carry(Carry(s)));
  }

  lemma CarryKeepsMod(s: nat)
    ensures Carry(s) % 0xFFFF == s % 0xFFFF
    ensures s < 0x1_0000_0000 ==> Carry(s) < 0x1_FFFF
    ensures s < 0x1_FFFF ==> Carry(s) < 0x1_0000
  {
    assert s == Carry(s) + s / 0x1_0000 * 0xFFFF;
  }

  lemma ModDifference(s: nat, t: nat)
    requires s % 0xFFFF == t % 0xFFFF
    ensures (s + 0xFFFF - t) % 0xFFFF == 0
  {
    assert s + 0xFFFF - t == (s / 0xFFFF - t / 0xFFFF + 1) * 0xFFFF;
  }

  // ---------- What the check bytes spell ----------

  /** The value of a lower-case hexadecimal digit, or -1. */
  function Digit(b: byte): int { if 0x30 <= b <= 0x39 then b - 0x30 else if 0x61 <= b <= 0x66 then b - 0x57 else -1 }

  /** The four bytes are digits that spell the value, the heaviest first. */
  lemma HexSpells(v: nat)
    requires v < 0x1_0000
    ensures var r := HexDigits(v);
            && (forall k :: 0 <= k < 4 ==> 0 <= Digit(r[k]) < 16)
            && ((Digit(r[0]) * 16 + Digit(r[1])) * 16 + Digit(r[2])) * 16 + Digit(r[3]) == v
  {
    hide Hex, Digit;
    HexIs(v / 4096);
    HexIs(v / 256 % 16);
    HexIs(v / 16 % 16);
    HexIs(v % 16);
    Horner(v);
  }

  lemma Horner(v: nat)
    ensures ((v / 4096 * 16 + v / 256 % 16) * 16 + v / 16 % 16) * 16 + v % 16 == v
  {
    DivTwice(v);
    Sixteens(v);
    Sixteens(v / 16);
    Sixteens(v / 256);
  }

  lemma DivTwice(v: nat)
    ensures v / 16 / 16 == v / 256 && v / 256 / 16 == v / 4096
  {
  }

  lemma Sixteens(v: nat)
    ensures v / 16 * 16 + v % 16 == v
  {
  }

  lemma HexIs(d: nat)
    requires d < 16
    ensures Digit(Hex(d)) == d
  {
  }

  /** The machine's byte has the same value. */
  lemma OctetIs(b: byte)
    ensures Octet(b) as nat == b
  {
    hide Octet;
    BitSum(b);
    OctetSum(b);
  }

  function BitOf(b: byte, k: nat): nat
    requires k > 0
  {
    b / k % 2
  }

  /** The disjoint masks of the bits add up. */
  lemma OctetSum(b: byte)
    ensures Octet(b) as nat == BitOf(b, 1) + 2 * BitOf(b, 2) + 4 * BitOf(b, 4) + 8 * BitOf(b, 8) + 16 * BitOf(b, 16)
                               + 32 * BitOf(b, 32) + 64 * BitOf(b, 64) + 128 * BitOf(b, 128)
  {
    hide Bit, BitOf, Octet;
    BitIs(b, 1, 1);
    BitIs(b, 2, 2);
    BitIs(b, 4, 4);
    BitIs(b, 8, 8);
    BitIs(b, 16, 16);
    BitIs(b, 32, 32);
    BitIs(b, 64, 64);
    BitIs(b, 128, 128);
    OctetAdds(b);
  }

  lemma OctetAdds(b: byte)
    ensures Octet(b) as nat == Bit(b, 1, 1) as nat + Bit(b, 2, 2) as nat + Bit(b, 4, 4) as nat + Bit(b, 8, 8) as nat
                               + Bit(b, 16, 16) as nat + Bit(b, 32, 32) as nat + Bit(b, 64, 64) as nat + Bit(b, 128, 128) as nat
  {
    hide Bit;
    BitCase(b, 1, 1);
    BitCase(b, 2, 2);
    BitCase(b, 4, 4);
    BitCase(b, 8, 8);
    BitCase(b, 16, 16);
    BitCase(b, 32, 32);
    BitCase(b, 64, 64);
    BitCase(b, 128, 128);
    MasksAdd(Bit(b, 1, 1), Bit(b, 2, 2), Bit(b, 4, 4), Bit(b, 8, 8), Bit(b, 16, 16), Bit(b, 32, 32), Bit(b, 64, 64),
             Bit(b, 128, 128));
  }

  lemma BitCase(b: byte, k: nat, mask: bv8)
    requires k > 0
    ensures Bit(b, k, mask) == mask || Bit(b, k, mask) == 0
  {
  }

  lemma BitIs(b: byte, k: nat, mask: bv8)
    requires k > 0 && mask as nat == k
    ensures Bit(b, k, mask) as nat == k * BitOf(b, k) && (Bit(b, k, mask) == mask || Bit(b, k, mask) == 0)
  {
    if BitOf(b, k) == 1 {
      assert k * BitOf(b, k) == k;
    } else {
      assert k * BitOf(b, k) == 0;
    }
  }

  lemma MasksAdd(a: bv8, b: bv8, c: bv8, d: bv8, e: bv8, f: bv8, g: bv8, h: bv8)
    requires (a == 1 || a == 0) && (b == 2 || b == 0) && (c == 4 || c == 0) && (d == 8 || d == 0)
    requires (e == 16 || e == 0) && (f == 32 || f == 0) && (g == 64 || g == 0) && (h == 128 || h == 0)
    ensures (a | b | c | d | e | f | g | h) as nat ==
              a as nat + b as nat + c as nat + d as nat + e as nat + f as nat + g as nat + h as nat
  {
    var low, high := a | b | c | d, e | f | g | h;
    LowAdds(a, b, c, d);
    HighAdds(e, f, g, h);
    assert a | b | c | d | e | f | g | h == low | high;
    HalvesAdd(low, high);
  }

  lemma LowAdds(a: bv8, b: bv8, c: bv8, d: bv8)
    requires (a == 1 || a == 0) && (b == 2 || b == 0) && (c == 4 || c == 0) && (d == 8 || d == 0)
    ensures a | b | c | d < 16 && (a | b | c | d) as nat == a as nat + b as nat + c as nat + d as nat
  {
  }

  lemma HighAdds(e: bv8, f: bv8, g: bv8, h: bv8)
    requires (e == 16 || e == 0) && (f == 32 || f == 0) && (g == 64 || g == 0) && (h == 128 || h == 0)
    ensures (e | f | g | h) & 15 == 0 && (e | f | g | h) as nat == e as nat + f as nat + g as nat + h as nat
  {
  }

  lemma HalvesAdd(low: bv8, high: bv8)
    requires low < 16 && high & 15 == 0
    ensures (low | high) as nat == low as nat + high as nat
  {
  }

  /** In CRC mode the check bytes spell the CRC of the frame's bytes. */
  lemma CrcSpells(raw: Bytes)
    ensures (forall i :: 0 <= i < |raw| ==> Bits(raw)[i] as nat == raw[i])
    ensures Base128.ValueOf(Check(Crc, raw)) == Some(Word(Crc32.Crc(Bits(raw))))
  {
    hide Base128.Digits, Base128.ValueOf, Crc32.Crc, Word, Octet;
    forall i | 0 <= i < |raw|
      ensures Bits(raw)[i] as nat == raw[i]
    {
      OctetIs(raw[i]);
    }
    Base128.ReadPrinted(Word(Crc32.Crc(Bits(raw))));
  }

  // ---------- The encoder ----------

  predicate Special(b: byte) { b == SOF || b == EOF || b == ESC || b == 0 || b == 0xFF }

  function EscapeByte(b: byte): Bytes
  {
    if !Special(b) then [b] else if b == 0 then [ESC, ESC_00] else if b == 0xFF then [ESC, ESC_FF] else [ESC, b]
  }

  function Escape(d: Bytes): Bytes
  {
    if d == [] then [] else Escape(d[..|d| - 1]) + EscapeByte(d[|d| - 1])
  }

  /** One end byte; two where the internet checksum needs an even number of bytes. */
  function Ends(m: Mode, size: nat): Bytes { if m == Internet && size % 2 == 0 then [EOF, EOF] else [EOF] }

  function Raw(m: Mode, f: Frame): Bytes { [SOF, f.kind] + f.data + Ends(m, |f.data|) }

  /** The frame as it goes out, without its check bytes. */
  function Body(m: Mode, f: Frame): Bytes { [SOF, f.kind] + Escape(f.data) + Ends(m, |f.data|) }

  function Encode(m: Mode, f: Frame): Bytes { Body(m, f) + Check(m, Raw(m, f)) }

  /** No byte of an internet-mode frame is left out of its checksum. */
  lemma RawIsEven(f: Frame)
    ensures |Raw(Internet, f)| % 2 == 0
  {
  }

  /** What the five control bytes become on the line. */
  lemma EscapeIs(b: byte)
    ensures EscapeByte(b) ==
              if b == 0x00 then [0x5C, 0x30] else if b == 0xFF then [0x5C, 0x46]
              else if b == 0x3E || b == 0x3C || b == 0x5C then [0x5C, b] else [b]
  {
  }

  /**
   A frame is '>', its type, the escaped data, one '<', and in internet mode a second one where the data has an even
   number of bytes; the check bytes are those of the same frame without escapes.
   */
  lemma FrameIs(m: Mode, f: Frame)
    ensures var ends := if m == Internet && |f.data| % 2 == 0 then [0x3C, 0x3C] else [0x3C];
            Encode(m, f) == [0x3E, f.kind] + Escape(f.data) + ends + Check(m, [0x3E, f.kind] + f.data + ends)
  {
    hide Escape, Check;
  }

  lemma PingSum()
    ensures InternetValue([0x3E, 0x50, 0x3C, 0x3C]) == 0x8573
  {
    var raw := [0x3E, 0x50, 0x3C, 0x3C];
    assert raw[2..] == [0x3C, 0x3C] && raw[2..][2..] == [];
    assert WordSum(raw[2..]) == 0x3C3C;
  }

  lemma PingDigits()
    ensures HexDigits(0x8573) == [0x38, 0x35, 0x37, 0x33]
  {
  }

  /** The empty ping frame in internet mode: ">P<<8573". */
  lemma PingFrame()
    ensures Encode(Internet, Frame(0x50, [])) == [0x3E, 0x50, 0x3C, 0x3C, 0x38, 0x35, 0x37, 0x33]
  {
    hide Encode, Escape, HexDigits, InternetValue;
    var raw := [0x3E, 0x50, 0x3C, 0x3C];
    FrameIs(Internet, Frame(0x50, []));
    assert [0x3E, 0x50] + [] + [0x3C, 0x3C] == raw;
    EscapeNone();
    PingSum();
    PingDigits();
  }

  method EscapeAll(data: Bytes) returns (escaped: Bytes)
    ensures escaped == Escape(data)
  {
    escaped := [];
    for i := 0 to |data|
      invariant escaped == Escape(data[..i])
    {
      assert data[..i + 1][..i] == data[..i];
      var b := data[i];
      if b == SOF || b == EOF || b == ESC || b == 0 || b == 0xFF {
        escaped := escaped + [ESC];
      }
      if b == 0 {
        b := ESC_00;
      }
      if b == 0xFF {
        b := ESC_FF;
      }
      escaped := escaped + [b];
    }
    assert data[..|data|] == data;
  }

  /** The transmit path; None where the source raises because of the size. */
  method Tx(m: Mode, kind: byte, data: Bytes) returns (r: Option<Bytes>)
    ensures r == if |data| > 300 then None else Some(Encode(m, Frame(kind, data)))
  {
    hide Check, Escape;
    if |data| > MAX_TX {
      return None;
    }
    var raw := [SOF, kind] + data + [EOF];
    if m != Crc && |data| % 2 == 0 {
      raw := raw + [EOF];
    }
    assert raw == Raw(m, Frame(kind, data));
    var check := ChecksumOf(m, raw);
    var frame := [SOF] + [kind];
    var escaped := EscapeAll(data);
    frame := frame + escaped + [EOF];
    if m != Crc && |data| % 2 == 0 {
      frame := frame + [EOF];
    }
    assert frame == Body(m, Frame(kind, data));
    r := Some(frame + check);
  }

  method ChecksumOf(m: Mode, raw: Bytes) returns (r: Bytes)
    ensures r == Check(m, raw)
  {
    if m == Crc {
      var crc := Crc32.Crc32Calc(Bits(raw));
      r := Base128.ToBase128(Word(crc));
    } else {
      r := HexDigits(InternetValue(raw));
    }
  }

  // ---------- The receiver ----------

  datatype Phase = Init | Sof | Data | Esc | Eof2 | Chk0

  /** The receiver's fields; all but the phase are set when a frame opens. */
  datatype Rx = Rx(phase: Phase, kind: byte, data: Bytes, dataChk: Bytes, chk: Bytes, expected: nat)

  const IDLE := Rx(Init, 0, [], [], [], 0)

  const OPENED := Rx(Sof, 0, [], [SOF], [], 0)

  function AtEof(m: Mode, r: Rx): Rx
  {
    var q := r.(dataChk := r.dataChk + r.data + [EOF], expected := Width(m));
    if m == Crc || |r.data| % 2 != 0 then q.(phase := Chk0) else q.(phase := Eof2, dataChk := q.dataChk + [EOF])
  }

  /** What one received byte does to the fields. */
  function Next(m: Mode, r: Rx, c: byte): Rx
  {
    match r.phase
    case Init => if c == SOF then OPENED.(expected := r.expected) else r
    case Sof => r.(kind := c, phase := Data, dataChk := r.dataChk + [c])
    case Data =>
      if |r.data| > MAX_RX then r.(phase := Init)
      else if c == ESC then r.(phase := Esc)
      else if c == EOF then AtEof(m, r)
      else if c == SOF then OPENED.(expected := r.expected)
      else if c == 0 || c == 0xFF then r.(phase := Init)
      else r.(data := r.data + [c])
    case Esc =>
      if c == SOF || c == ESC || c == EOF then r.(phase := Data, data := r.data + [c])
      else if c == ESC_00 then r.(phase := Data, data := r.data + [0])
      else if c == ESC_FF then r.(phase := Data, data := r.data + [0xFF])
      else r.(phase := Init)
    case Eof2 => if c == EOF then r.(phase := Chk0) else r.(phase := Init)
    case Chk0 => r.(chk := r.chk + [c], phase := if |r.chk| + 1 < r.expected then Chk0 else Init)
  }

  /** The frame that one received byte completes, if any. */
  function Out(m: Mode, r: Rx, c: byte): seq<Frame>
  {
    if r.phase == Chk0 && |r.chk| + 1 == r.expected && r.chk + [c] == Check(m, r.dataChk) then [Frame(r.kind, r.data)] else []
  }

  function Run(m: Mode, r: Rx, s: Bytes): Rx
  {
    if s == [] then r else Next(m, Run(m, r, s[..|s| - 1]), s[|s| - 1])
  }

  /** The frames delivered while s is received. */
  function Delivered(m: Mode, r: Rx, s: Bytes): seq<Frame>
  {
    if s == [] then [] else Delivered(m, r, s[..|s| - 1]) + Out(m, Run(m, r, s[..|s| - 1]), s[|s| - 1])
  }

  class Receiver {
    const mode: Mode
    var state: Phase
    var kind: byte
    var data: Bytes
    var dataChk: Bytes
    var chk: Bytes
    var expected: nat
    var frames: seq<Frame>

    ghost function View(): Rx
      reads this
    {
      Rx(state, kind, data, dataChk, chk, expected)
    }

    constructor (m: Mode)
      ensures mode == m && View() == IDLE && frames == []
    {
      mode := m;
      state, kind, data, dataChk, chk, expected := Init, 0, [], [], [], 0;
      frames := [];
    }

    method Open()
      modifies this
      ensures View() == OPENED.(expected := old(expected)) && frames == old(frames)
    {
      state := Sof;
      data := [];
      dataChk := [SOF];
      chk := [];
      kind := 0;
    }

    /** The state machine, one byte at a time. */
    method RxSm(c: byte)
      modifies this
      ensures View() == Next(mode, old(View()), c)
      ensures frames == old(frames) + Out(mode, old(View()), c)
    {
      hide Check;
      match state {
        case Init =>
          if c == SOF {
            Open();
          }
        case Sof =>
          kind := c;
          state := Data;
          dataChk := dataChk + [c];
        case Data =>
          if |data| > MAX_RX {
            state := Init;
          } else if c == ESC {
            state := Esc;
          } else if c == EOF {
            dataChk := dataChk + data;
            dataChk := dataChk + [EOF];
            expected := if mode == Crc then 5 else 4;
            if mode == Crc {
              state := Chk0;
            } else if |data| % 2 != 0 {
              state := Chk0;
            } else {
              state := Eof2;
              dataChk := dataChk + [EOF];
            }
          } else if c == SOF {
            Open();
          } else if c == 0 || c == 0xFF {
            state := Init;
          } else {
            data := data + [c];
          }
        case Esc =>
          state := Data;
          if c == SOF || c == ESC || c == EOF {
            data := data + [c];
          } else if c == ESC_00 {
            data := data + [0];
          } else if c == ESC_FF {
            data := data + [0xFF];
          } else {
            state := Init;
          }
        case Eof2 =>
          state := if c == EOF then Chk0 else Init;
        case Chk0 =>
          chk := chk + [c];
          state := if |chk| < expected then Chk0 else Init;
          if |chk| == expected {
            var wanted := ChecksumOf(mode, dataChk);
            if wanted == chk {
              frames := frames + [Frame(kind, data)];
            }
          }
      }
    }

    /** A received chunk, byte by byte. */
    method Receive(s: Bytes)
      modifies this
      ensures View() == Run(mode, old(View()), s)
      ensures frames == old(frames) + Delivered(mode, old(View()), s)
    {
      hide Next, Out;
      for i := 0 to |s|
        invariant View() == Run(mode, old(View()), s[..i])
        invariant frames == old(frames) + Delivered(mode, old(View()), s[..i])
      {
        assert s[..i + 1][..i] == s[..i];
        RxSm(s[i]);
      }
      assert s[..|s|] == s;
    }
  }

  // ---------- Runs ----------

  lemma {:induction false} RunConcat(m: Mode, r: Rx, a: Bytes, b: Bytes)
    ensures Run(m, r, a + b) == Run(m, Run(m, r, a), b)
    ensures Delivered(m, r, a + b) == Delivered(m, r, a) + Delivered(m, Run(m, r, a), b)
  {
    hide Next, Out;
    if b == [] {
      assert a + b == a;
    } else {
      assert (a + b)[..|a + b| - 1] == a + b[..|b| - 1];
      RunConcat(m, r, a, b[..|b| - 1]);
    }
  }

  lemma RunOne(m: Mode, r: Rx, c: byte)
    ensures Run(m, r, [c]) == Next(m, r, c) && Delivered(m, r, [c]) == Out(m, r, c)
  {
    hide Next, Out;
    assert [c][..0] == [];
  }

  function Flat(chunks: seq<Bytes>): Bytes
  {
    if chunks == [] then [] else chunks[0] + Flat(chunks[1..])
  }

  function RunChunks(m: Mode, r: Rx, chunks: seq<Bytes>): (Rx, seq<Frame>)
    decreases chunks
  {
    if chunks == [] then (r, []) else
      var (q, fs) := RunChunks(m, Run(m, r, chunks[0]), chunks[1..]);
      (q, Delivered(m, r, chunks[0]) + fs)
  }

  /** How a byte stream is cut into chunks makes no difference. */
  lemma {:induction false} ChunksDoNotMatter(m: Mode, r: Rx, chunks: seq<Bytes>)
    ensures RunChunks(m, r, chunks) == (Run(m, r, Flat(chunks)), Delivered(m, r, Flat(chunks)))
    decreases chunks
  {
    hide Next, Out;
    if chunks != [] {
      RunConcat(m, r, chunks[0], Flat(chunks[1..]));
      ChunksDoNotMatter(m, Run(m, r, chunks[0]), chunks[1..]);
    }
  }

  // ---------- What a transmitted frame does to the receiver ----------

  /** Phases in which a start byte opens a frame. */
  predicate Ready(r: Rx) { r.phase == Init || (r.phase == Data && |r.data| <= MAX_RX) }

  /** In the data phase, with d read so far. */
  predicate Reading(r: Rx, f: Frame)
  {
    r.phase == Data && r.kind == f.kind && r.data == f.data && r.dataChk == [SOF, f.kind] && r.chk == []
  }

  lemma ReadByte(m: Mode, r: Rx, f: Frame, b: byte)
    requires Reading(r, f) && |f.data| <= MAX_RX
    ensures Reading(Run(m, r, EscapeByte(b)), Frame(f.kind, f.data + [b]))
    ensures Delivered(m, r, EscapeByte(b)) == []
  {
    hide Run, Delivered;
    var e := EscapeByte(b);
    RunOne(m, r, e[0]);
    if Special(b) {
      assert e == [ESC] + [e[1]];
      RunConcat(m, r, [ESC], [e[1]]);
      RunOne(m, Next(m, r, ESC), e[1]);
    } else {
      assert e == [e[0]];
    }
  }

  lemma {:induction false} ReadData(m: Mode, r: Rx, f: Frame)
    requires Ready(r) && |f.data| <= MAX_RX + 1
    ensures var s := [SOF, f.kind] + Escape(f.data); Reading(Run(m, r, s), f) && Delivered(m, r, s) == []
    decreases |f.data|
  {
    hide Run, Delivered, EscapeByte;
    if f.data == [] {
      var q := Next(m, r, SOF);
      RunOne(m, r, SOF);
      RunOne(m, q, f.kind);
      RunConcat(m, r, [SOF], [f.kind]);
      assert [SOF, f.kind] + Escape(f.data) == [SOF] + [f.kind];
    } else {
      var n := |f.data| - 1;
      var b := f.data[n];
      var g := Frame(f.kind, f.data[..n]);
      var s := [SOF, f.kind] + Escape(g.data);
      ReadData(m, r, g);
      ReadByte(m, Run(m, r, s), g, b);
      RunConcat(m, r, s, EscapeByte(b));
      assert [SOF, f.kind] + Escape(f.data) == s + EscapeByte(b);
      assert g.data + [b] == f.data;
    }
  }

  /** The check bytes are being read. */
  predicate Checking(m: Mode, r: Rx, f: Frame, chk: Bytes)
  {
    && r.phase == Chk0 && r.kind == f.kind && r.data == f.data && r.dataChk == Raw(m, f)
    && r.chk == chk && r.expected == Width(m) && |chk| < Width(m)
  }

  lemma ReadEnds(m: Mode, r: Rx, f: Frame)
    requires Reading(r, f) && |f.data| <= MAX_RX
    ensures Checking(m, Run(m, r, Ends(m, |f.data|)), f, []) && Delivered(m, r, Ends(m, |f.data|)) == []
  {
    hide Check;
    RunOne(m, r, EOF);
    if Ends(m, |f.data|) == [EOF, EOF] {
      RunOne(m, Next(m, r, EOF), EOF);
      RunConcat(m, r, [EOF], [EOF]);
      assert [EOF, EOF] == [EOF] + [EOF];
    }
  }

  lemma RunLast(m: Mode, r: Rx, s: Bytes)
    requires s != []
    ensures var q, c := Run(m, r, s[..|s| - 1]), s[|s| - 1];
            Run(m, r, s) == Next(m, q, c) && Delivered(m, r, s) == Delivered(m, r, s[..|s| - 1]) + Out(m, q, c)
  {
  }

  lemma {:induction false} ReadCheck(m: Mode, r: Rx, f: Frame, chk: Bytes)
    requires Checking(m, r, f, []) && |chk| < Width(m)
    ensures Checking(m, Run(m, r, chk), f, chk) && Delivered(m, r, chk) == []
  {
    hide Check, Raw, Checking, Run, Delivered;
    if chk == [] {
      RunNothing(m, r);
    } else {
      var front := chk[..|chk| - 1];
      ReadCheck(m, r, f, front);
      RunLast(m, r, chk);
      ReadCheckByte(m, Run(m, r, front), f, front, chk[|chk| - 1]);
      assert front + [chk[|chk| - 1]] == chk;
    }
  }

  lemma ReadCheckByte(m: Mode, r: Rx, f: Frame, chk: Bytes, c: byte)
    requires Checking(m, r, f, chk) && |chk| + 1 < Width(m)
    ensures Checking(m, Next(m, r, c), f, chk + [c]) && Out(m, r, c) == []
  {
    hide Check, Raw;
  }

  /** A frame with any check bytes at all: it is delivered exactly when they are the right ones. */
  lemma FrameWithCheck(m: Mode, r: Rx, f: Frame, chk: Bytes)
    requires Ready(r) && |f.data| <= MAX_RX && |chk| == Width(m)
    ensures Run(m, r, Body(m, f) + chk).phase == Init
    ensures Delivered(m, r, Body(m, f) + chk) == if chk == Check(m, Raw(m, f)) then [f] else []
  {
    hide Check, Raw, Run, Delivered, Escape;
    var s, e := [SOF, f.kind] + Escape(f.data), Ends(m, |f.data|);
    var front, last := chk[..|chk| - 1], chk[|chk| - 1];
    var r1 := Run(m, r, s);
    var r2 := Run(m, r1, e);
    var r3 := Run(m, r2, front);
    ReadData(m, r, f);
    ReadEnds(m, r1, f);
    ReadCheck(m, r2, f, front);
    RunOne(m, r3, last);
    assert chk == front + [last];
    RunConcat(m, r2, front, [last]);
    RunConcat(m, r, s, e);
    RunConcat(m, r, s + e, chk);
  }

  /** What is transmitted is received: once, unchanged, and the receiver is idle again. */
  lemma TransmittedIsDelivered(m: Mode, r: Rx, f: Frame)
    requires Ready(r) && |f.data| <= 1024
    ensures Run(m, r, Encode(m, f)).phase == Init && Delivered(m, r, Encode(m, f)) == [f]
  {
    hide Check, Run, Delivered;
    FrameWithCheck(m, r, f, Check(m, Raw(m, f)));
  }

  // ---------- What a delivery says about the bytes received ----------

  /** The bytes since the start byte that last opened a frame. */
  function Since(m: Mode, s: Bytes): Bytes
  {
    if s == [] then [] else
      var c, front := s[|s| - 1], s[..|s| - 1];
      if c == SOF && Ready(Run(m, IDLE, front)) then [SOF] else Since(m, front) + [c]
  }

  /** The receiver's fields say what was read since the frame opened. */
  predicate History(m: Mode, r: Rx, h: Bytes)
  {
    var f := Frame(r.kind, r.data);
    var text := [SOF, r.kind] + Escape(r.data);
    match r.phase
    case Init => true
    case Sof => h == [SOF] && r == OPENED.(expected := r.expected)
    case Data => h == text && Reading(r, f)
    case Esc => h == text + [ESC] && Reading(r.(phase := Data), f) && |r.data| <= MAX_RX
    case Eof2 =>
      h == text + [EOF] && m == Internet && |r.data| % 2 == 0 && Checking(m, r.(phase := Chk0), f, []) && |r.data| <= MAX_RX
    case Chk0 => h == Body(m, f) + r.chk && Checking(m, r, f, r.chk) && |r.data| <= MAX_RX
  }

  lemma EscapeSnoc(d: Bytes, b: byte)
    ensures Escape(d + [b]) == Escape(d) + EscapeByte(b)
  {
    assert (d + [b])[..|d|] == d;
  }

  lemma HistoryStep(m: Mode, r: Rx, h: Bytes, c: byte)
    requires History(m, r, h)
    ensures History(m, Next(m, r, c), if c == SOF && Ready(r) then [SOF] else h + [c])
  {
    hide History, Next;
    match r.phase
    case Init => HistoryOpens(m, r, h, c);
    case Sof => HistoryOpens(m, r, h, c);
    case Data => HistoryData(m, r, h, c);
    case Esc => HistoryEsc(m, r, h, c);
    case Eof2 => HistoryEnds(m, r, h, c);
    case Chk0 => HistoryEnds(m, r, h, c);
  }

  lemma HistoryOpens(m: Mode, r: Rx, h: Bytes, c: byte)
    requires History(m, r, h) && (r.phase.Init? || r.phase.Sof?)
    ensures History(m, Next(m, r, c), if c == SOF && Ready(r) then [SOF] else h + [c])
  {
    EscapeNone();
    hide Check, Escape;
  }

  lemma HistoryData(m: Mode, r: Rx, h: Bytes, c: byte)
    requires History(m, r, h) && r.phase.Data?
    ensures History(m, Next(m, r, c), if c == SOF && Ready(r) then [SOF] else h + [c])
  {
    hide Check, Escape;
    EscapeSnoc(r.data, c);
  }

  lemma HistoryEsc(m: Mode, r: Rx, h: Bytes, c: byte)
    requires History(m, r, h) && r.phase.Esc?
    ensures History(m, Next(m, r, c), if c == SOF && Ready(r) then [SOF] else h + [c])
  {
    hide Check, Escape;
    var q := Next(m, r, c);
    if q.phase.Data? {
      EscapeSnoc(r.data, q.data[|r.data|]);
    }
  }

  lemma HistoryEnds(m: Mode, r: Rx, h: Bytes, c: byte)
    requires History(m, r, h) && (r.phase.Eof2? || r.phase.Chk0?)
    ensures History(m, Next(m, r, c), if c == SOF && Ready(r) then [SOF] else h + [c])
  {
    hide Check, Escape;
  }

  lemma EscapeNone()
    ensures Escape([]) == []
  {
  }

  lemma HistoryStarts(m: Mode)
    ensures History(m, IDLE, [])
  {
  }

  lemma {:induction false} HistoryHolds(m: Mode, s: Bytes)
    ensures History(m, Run(m, IDLE, s), Since(m, s))
  {
    hide Next, History;
    if s == [] {
      HistoryStarts(m);
    } else {
      var front := s[..|s| - 1];
      HistoryHolds(m, front);
      HistoryStep(m, Run(m, IDLE, front), Since(m, front), s[|s| - 1]);
    }
  }

  lemma {:induction false} SinceIsSuffix(m: Mode, s: Bytes)
    ensures |Since(m, s)| <= |s| && s[|s| - |Since(m, s)|..] == Since(m, s)
  {
    hide Ready, Run;
    if s == [] {
    } else {
      var front, n := s[..|s| - 1], |s| - 1;
      SinceIsSuffix(m, front);
      assert s == front + [s[n]];
      assert (front + [s[n]])[|s| - |Since(m, front)| - 1..] == front[|front| - |Since(m, front)|..] + [s[n]];
    }
  }

  /** Every frame delivered is, to the byte, what its encoding puts on the line since the last opening SOF. */
  lemma DeliveredWasEncoded(m: Mode, s: Bytes, c: byte, f: Frame)
    requires Out(m, Run(m, IDLE, s), c) == [f]
    ensures Since(m, s + [c]) == Encode(m, f) && |f.data| <= 1024
    ensures |Encode(m, f)| <= |s| + 1 && (s + [c])[|s| + 1 - |Encode(m, f)|..] == Encode(m, f)
  {
    hide History, Since, Run, Out, Encode;
    var r := Run(m, IDLE, s);
    HistoryHolds(m, s);
    OutMeans(m, r, Since(m, s), c, f);
    SinceSnoc(m, s, c);
    SinceIsSuffix(m, s + [c]);
  }

  /** What is delivered with a byte is encoded by the history and that byte. */
  lemma OutMeans(m: Mode, r: Rx, h: Bytes, c: byte, f: Frame)
    requires History(m, r, h) && Out(m, r, c) == [f]
    ensures !Ready(r) && h + [c] == Encode(m, f) && |f.data| <= MAX_RX
  {
    hide Check, Raw, Escape;
    assert (Body(m, f) + r.chk) + [c] == Body(m, f) + (r.chk + [c]);
  }

  lemma SinceSnoc(m: Mode, s: Bytes, c: byte)
    requires !Ready(Run(m, IDLE, s))
    ensures Since(m, s + [c]) == Since(m, s) + [c]
  {
    hide Run, Ready;
    assert (s + [c])[..|s|] == s;
  }

  // ---------- Streams ----------

  datatype Piece = Noise(bytes: Bytes) | Sent(frame: Frame)

  predicate Fits(p: Piece)
  {
    match p
    case Noise(b) => SOF !in b
    case Sent(f) => |f.data| <= MAX_RX
  }

  function Line(m: Mode, ps: seq<Piece>): Bytes
  {
    if ps == [] then [] else (if ps[0].Noise? then ps[0].bytes else Encode(m, ps[0].frame)) + Line(m, ps[1..])
  }

  function Frames(ps: seq<Piece>): seq<Frame>
  {
    if ps == [] then [] else (if ps[0].Noise? then [] else [ps[0].frame]) + Frames(ps[1..])
  }

  lemma {:induction false} NoiseIsIgnored(m: Mode, r: Rx, b: Bytes)
    requires r.phase == Init && SOF !in b
    ensures Run(m, r, b) == r && Delivered(m, r, b) == []
  {
    hide Check;
    if b != [] {
      assert b[|b| - 1] in b;
      NoiseIsIgnored(m, r, b[..|b| - 1]);
    }
  }

  /** Of frames and noise between them, exactly the frames are delivered, in order. */
  lemma {:induction false} StreamIsDelivered(m: Mode, r: Rx, ps: seq<Piece>)
    requires r.phase == Init && forall p :: p in ps ==> Fits(p)
    ensures Run(m, r, Line(m, ps)).phase == Init && Delivered(m, r, Line(m, ps)) == Frames(ps)
    decreases |ps|
  {
    hide Encode, Run, Delivered, Next, Out;
    if ps == [] {
      RunNothing(m, r);
    } else {
      assert Fits(ps[0]);
      var first := if ps[0].Noise? then ps[0].bytes else Encode(m, ps[0].frame);
      if ps[0].Noise? {
        NoiseIsIgnored(m, r, first);
      } else {
        TransmittedIsDelivered(m, r, ps[0].frame);
      }
      StreamIsDelivered(m, Run(m, r, first), ps[1..]);
      RunConcat(m, r, first, Line(m, ps[1..]));
    }
  }

  lemma RunNothing(m: Mode, r: Rx)
    ensures Run(m, r, []) == r && Delivered(m, r, []) == []
  {
  }

  // ---------- Corrupted frames ----------

  lemma BitsConcat(a: Bytes, b: Bytes)
    ensures Bits(a + b) == Bits(a) + Bits(b)
  {
  }

  lemma BitSum(a: byte)
    ensures a == a % 2 + 2 * (a / 2 % 2) + 4 * (a / 4 % 2) + 8 * (a / 8 % 2) + 16 * (a / 16 % 2) + 32 * (a / 32 % 2)
               + 64 * (a / 64 % 2) + 128 * (a / 128 % 2)
  {
    Halves(a);
    Halve(a);
    Halve(a / 2);
    Halve(a / 4);
    Halve(a / 8);
    Halve(a / 16);
    Halve(a / 32);
    Halve(a / 64);
    Halve(a / 128);
  }

  lemma Halve(a: nat)
    ensures a == 2 * (a / 2) + a % 2
  {
  }

  lemma Halves(a: byte)
    ensures a / 2 / 2 == a / 4 && a / 4 / 2 == a / 8 && a / 8 / 2 == a / 16 && a / 16 / 2 == a / 32
    ensures a / 32 / 2 == a / 64 && a / 64 / 2 == a / 128 && a / 128 / 2 == 0
  {
  }

  lemma OctetInjective(a: byte, b: byte)
    requires Octet(a) == Octet(b)
    ensures a == b
  {
    hide Octet;
    OctetIs(a);
    OctetIs(b);
  }

  lemma BitsInjective(a: Bytes, b: Bytes)
    requires Bits(a) == Bits(b)
    ensures a == b
  {
    forall i | 0 <= i < |a|
      ensures a[i] == b[i]
    {
      assert Bits(a)[i] == Bits(b)[i];
      OctetInjective(a[i], b[i]);
    }
  }

  lemma WordInjective(x: bv32, y: bv32)
    requires Word(x) == Word(y)
    ensures x == y
  {
    assert (x as nat) as bv32 == x;
  }

  lemma DigitsOfWord(v: nat, w: nat)
    requires v < 0x1_0000_0000 && w < 0x1_0000_0000 && Base128.Digits(v) == Base128.Digits(w)
    ensures v == w
  {
    hide Base128.Digits, Base128.ValueOf;
    Base128.ReadPrinted(v);
    Base128.ReadPrinted(w);
  }

  lemma CheckInjective(a: Bytes, b: Bytes)
    requires Check(Crc, a) == Check(Crc, b)
    ensures Crc32.Crc(Bits(a)) == Crc32.Crc(Bits(b))
  {
    hide Crc32.Crc, Bits, Base128.Digits, Word;
    var x, y := Crc32.Crc(Bits(a)), Crc32.Crc(Bits(b));
    DigitsOfWord(Word(x), Word(y));
    WordInjective(x, y);
  }

  lemma ChecksDiffer(front: Bytes, u: Bytes, v: Bytes, back: Bytes)
    requires |u| == |v| <= 4 && u != v
    ensures Check(Crc, front + u + back) != Check(Crc, front + v + back)
  {
    hide Check, Bits, Crc32.Crc;
    BitsConcat(front, u);
    BitsConcat(front, v);
    BitsConcat(front + u, back);
    BitsConcat(front + v, back);
    if Bits(u) == Bits(v) {
      BitsInjective(u, v);
    }
    Crc32.BurstDetected(Bits(front), Bits(u), Bits(v), Bits(back));
    if Check(Crc, front + u + back) == Check(Crc, front + v + back) {
      CheckInjective(front + u + back, front + v + back);
    }
  }

  /** In CRC mode a frame whose payload was changed within four adjacent bytes is not delivered. */
  lemma BurstIsRejected(r: Rx, kind: byte, before: Bytes, u: Bytes, v: Bytes, after: Bytes)
    requires Ready(r) && |before| + |u| + |after| <= MAX_RX && |u| == |v| <= 4 && u != v
    ensures var sent, seen := Frame(kind, before + u + after), Frame(kind, before + v + after);
            Delivered(Crc, r, Body(Crc, seen) + Check(Crc, Raw(Crc, sent))) == []
  {
    hide Run, Delivered, Ready, Body, Check;
    var sent, seen := Frame(kind, before + u + after), Frame(kind, before + v + after);
    var front, back := [SOF, kind] + before, after + [EOF];
    assert Raw(Crc, sent) == front + u + back && Raw(Crc, seen) == front + v + back;
    ChecksDiffer(front, u, v, back);
    FrameWithCheck(Crc, r, seen, Check(Crc, Raw(Crc, sent)));
  }
}
