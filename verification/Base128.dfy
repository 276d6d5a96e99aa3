/** Five base-128 digits in an alphabet that keeps clear of the link layer's control bytes. */
module Base128 {
  import opened Common

  // BASE128_ENCODE, in four parts.
  const ENCODE0: Bytes := [
    0x2F, 0x30, 0x31, 0x32, 0x33, 0x34, 0x35, 0x36,
    0x37, 0x38, 0x39, 0x3F, 0x40, 0x41, 0x42, 0x43,
    0x44, 0x45, 0x46, 0x47, 0x48, 0x49, 0x4A, 0x4B,
    0x4C, 0x4D, 0x4E, 0x4F, 0x50, 0x51, 0x52, 0x53
  ]

  const ENCODE1: Bytes := [
    0x54, 0x55, 0x56, 0x57, 0x58, 0x59, 0x5A, 0x61,
    0x62, 0x63, 0x64, 0x65, 0x66, 0x67, 0x68, 0x69,
    0x6A, 0x6B, 0x6C, 0x6D, 0x6E, 0x6F, 0x70, 0x71,
    0x72, 0x73, 0x74, 0x75, 0x76, 0x77, 0x78, 0x79
  ]

  const ENCODE2: Bytes := [
    0x7A, 0xBF, 0xC0, 0xC1, 0xC2, 0xC3, 0xC4, 0xC5,
    0xC6, 0xC7, 0xC8, 0xC9, 0xCA, 0xCB, 0xCC, 0xCD,
    0xCE, 0xCF, 0xD0, 0xD1, 0xD2, 0xD3, 0xD4, 0xD5,
    0xD6, 0xD7, 0xD8, 0xD9, 0xDA, 0xDB, 0xDC, 0xDD
  ]

  const ENCODE3: Bytes := [
    0xDE, 0xDF, 0xE0, 0xE1, 0xE2, 0xE3, 0xE4, 0xE5,
    0xE6, 0xE7, 0xE8, 0xE9, 0xEA, 0xEB, 0xEC, 0xED,
    0xEE, 0xEF, 0xF0, 0xF1, 0xF2, 0xF3, 0xF4, 0xF5,
    0xF6, 0xF7, 0xF8, 0xF9, 0xFA, 0xFB, 0xFC, 0xFD
  ]

  /** BASE128_ENCODE[i]. */
  function Encode(i: nat): byte
    requires i < 128
  {
    if i < 32 then ENCODE0[i] else if i < 64 then ENCODE1[i - 32] else if i < 96 then ENCODE2[i - 64] else ENCODE3[i - 96]
  }

  /** The alphabet is four runs of consecutive bytes. */
  lemma EncodeIs(i: nat)
    requires i < 128
    ensures Encode(i) == if i < 11 then 0x2F + i else if i < 39 then 0x34 + i else if i < 65 then 0x3A + i else 0x7E + i
  {
    hide ENCODE0, ENCODE1, ENCODE2, ENCODE3;
    if i < 32 {
      PartZero(i);
    } else if i < 64 {
      PartOne(i - 32);
    } else if i < 96 {
      PartTwo(i - 64);
    } else {
      PartThree(i - 96);
    }
  }

  lemma PartZero(i: nat)
    requires i < 32
    ensures ENCODE0[i] == if i < 11 then 0x2F + i else 0x34 + i
  {
  }

  lemma PartOne(i: nat)
    requires i < 32
    ensures ENCODE1[i] == if i < 7 then 0x54 + i else 0x5A + i
  {
  }

  lemma PartTwo(i: nat)
    requires i < 32
    ensures ENCODE2[i] == if i < 1 then 0x7A else 0xBE + i
  {
  }

  lemma PartThree(i: nat)
    requires i < 32
    ensures ENCODE3[i] == 0xDE + i
  {
  }

  lemma EncodeInjective(i: nat, j: nat)
    requires i < 128 && j < 128 && Encode(i) == Encode(j)
    ensures i == j
  {
    hide Encode;
    EncodeIs(i);
    EncodeIs(j);
  }

  /** No digit is SOF, EOF, ESC, 0x00 or 0xFF. */
  lemma DigitsAreSafe(value: nat, k: nat)
    requires k < 5
    ensures Digits(value)[k] !in {0x3E, 0x3C, 0x5C, 0x00, 0xFF}
  {
    hide Encode;
    EncodeIs(DigitAt(value, k));
  }

  /** BASE128_DECODE from the first n digits: each digit's byte leads to its index, the last one winning. */
  function ToHash(n: nat): map<byte, nat>
    requires n <= 128
  {
    if n == 0 then map[] else ToHash(n - 1)[Encode(n - 1) := n - 1]
  }

  function Decode(): map<byte, nat> { ToHash(128) }

  lemma {:induction false} ToHashIs(n: nat)
    requires n <= 128
    ensures forall i :: 0 <= i < n ==> Encode(i) in ToHash(n) && ToHash(n)[Encode(i)] == i
    ensures forall b :: b in ToHash(n) ==> ToHash(n)[b] < n && Encode(ToHash(n)[b]) == b
  {
    hide Encode;
    if n > 0 {
      ToHashIs(n - 1);
      forall i | 0 <= i < n - 1
        ensures Encode(i) != Encode(n - 1)
      {
        if Encode(i) == Encode(n - 1) {
          EncodeInjective(i, n - 1);
        }
      }
    }
  }

  // ---------- Printing ----------

  /** 128 to the power 4 - k, the weight of digit k. */
  function Weight(k: nat): (w: nat)
    requires k <= 4
    ensures w > 0
    decreases 4 - k
  {
    if k == 4 then 1 else 128 * Weight(k + 1)
  }

  function DigitAt(value: nat, k: nat): (d: nat)
    requires k < 5
    ensures d < 128
  {
    (value / Weight(k)) % 128
  }

  /** The five digits, the heaviest first. */
  function Digits(value: nat): (r: Bytes)
    ensures |r| == 5
  {
    seq(5, k requires 0 <= k < 5 => Encode(DigitAt(value, k)))
  }

  method ToBase128(value: nat) returns (digits: Bytes)
    ensures digits == Digits(value)
  {
    hide Encode;
    digits := [];
    for i := 0 to 5
      invariant |digits| == i
      invariant forall k :: 0 <= k < i ==> digits[k] == Encode(DigitAt(value, k))
    {
      var digit := (value / Weight(i)) % 128;
      digits := digits + [Encode(digit)];
    }
  }

  // ---------- Reading ----------

  /** The number that the first n digits spell. */
  function Horner(s: Bytes, n: nat): nat
    requires n <= |s| && forall b :: b in s ==> b in Decode()
  {
    if n == 0 then 0 else Horner(s, n - 1) * 128 + Decode()[s[n - 1]]
  }

  function ValueOf(s: Bytes): Option<nat>
  {
    if |s| != 5 || exists b :: b in s && b !in Decode() then None else Some(Horner(s, 5))
  }

  /** The loop's value has seven free low bits, so that its bitwise or is a sum. */
  method FromBase128(encoded: Bytes) returns (r: Option<nat>)
    ensures r == ValueOf(encoded)
  {
    hide ToHash;
    if |encoded| != 5 {
      return None;
    }
    var value := 0;
    for i := 0 to 5
      invariant forall k :: 0 <= k < i ==> encoded[k] in Decode()
      invariant forall b :: b in encoded[..i] ==> b in Decode()
      invariant value == Horner(encoded[..i], i) * if i < 5 then 128 else 1
    {
      if encoded[i] !in Decode() {
        assert encoded[i] in encoded;
        return None;
      }
      assert encoded[..i + 1][..i] == encoded[..i];
      HornerPrefix(encoded[..i + 1], i, i);
      value := value + Decode()[encoded[i]];
      if i < 4 {
        value := value * 128;
      }
    }
    assert encoded[..5] == encoded;
    r := Some(value);
  }

  lemma {:induction false} HornerPrefix(s: Bytes, m: nat, n: nat)
    requires n <= m <= |s| && forall b :: b in s ==> b in Decode()
    ensures Horner(s[..m], n) == Horner(s, n)
  {
    hide Decode;
    if n > 0 {
      HornerPrefix(s, m, n - 1);
    }
  }

  // ---------- Round trips ----------

  const LIMIT := 0x8_0000_0000

  /** Digit by digit, from the lightest. */
  lemma Nested(v: nat)
    ensures DigitAt(v, 4) == v % 128
    ensures DigitAt(v, 3) == v / 128 % 128
    ensures DigitAt(v, 2) == v / 128 / 128 % 128
    ensures DigitAt(v, 1) == v / 128 / 128 / 128 % 128
    ensures DigitAt(v, 0) == v / 128 / 128 / 128 / 128 % 128
  {
    assert Weight(4) == 1 && Weight(3) == 128 && Weight(2) == 16384 && Weight(1) == 2097152 && Weight(0) == 268435456;
  }

  /** The heaviest seven bits come first. */
  lemma DigitsAre(v: nat)
    ensures Digits(v) == [Encode(v / 268435456 % 128), Encode(v / 2097152 % 128), Encode(v / 16384 % 128),
                          Encode(v / 128 % 128), Encode(v % 128)]
  {
    hide Encode;
    assert Weight(4) == 1 && Weight(3) == 128 && Weight(2) == 16384 && Weight(1) == 2097152 && Weight(0) == 268435456;
  }

  lemma FiveDigits(v: nat)
    ensures (((DigitAt(v, 0) * 128 + DigitAt(v, 1)) * 128 + DigitAt(v, 2)) * 128 + DigitAt(v, 3)) * 128 + DigitAt(v, 4)
            == v % LIMIT
  {
    hide DigitAt;
    Nested(v);
    var v1 := v / 128;
    var v2 := v1 / 128;
    var v3 := v2 / 128;
    var v4 := v3 / 128;
    ModLimit(v, v1, v2, v3, v4, v4 / 128);
  }

  lemma ModLimit(v: nat, v1: nat, v2: nat, v3: nat, v4: nat, v5: nat)
    requires v1 == v / 128 && v2 == v1 / 128 && v3 == v2 / 128 && v4 == v3 / 128 && v5 == v4 / 128
    ensures (((v4 % 128 * 128 + v3 % 128) * 128 + v2 % 128) * 128 + v1 % 128) * 128 + v % 128 == v % LIMIT
  {
    SplitDigit(v);
    SplitDigit(v1);
    SplitDigit(v2);
    SplitDigit(v3);
    SplitDigit(v4);
    var h := (((v4 % 128 * 128 + v3 % 128) * 128 + v2 % 128) * 128 + v1 % 128) * 128 + v % 128;
    JoinDigits(v, v1, v2, v3, v4, v5, v % 128, v1 % 128, v2 % 128, v3 % 128, v4 % 128);
    Remainder(v, v5, h);
  }

  lemma SplitDigit(v: nat)
    ensures v == v / 128 * 128 + v % 128 && 0 <= v % 128 < 128
  {
  }

  lemma JoinDigits(v: int, v1: int, v2: int, v3: int, v4: int, v5: int, d0: int, d1: int, d2: int, d3: int, d4: int)
    requires v == v1 * 128 + d0 && v1 == v2 * 128 + d1 && v2 == v3 * 128 + d2 && v3 == v4 * 128 + d3 && v4 == v5 * 128 + d4
    requires 0 <= d0 < 128 && 0 <= d1 < 128 && 0 <= d2 < 128 && 0 <= d3 < 128 && 0 <= d4 < 128
    ensures var h := (((d4 * 128 + d3) * 128 + d2) * 128 + d1) * 128 + d0; v == v5 * LIMIT + h && 0 <= h < LIMIT
  {
  }

  lemma Remainder(v: int, q: int, h: int)
    requires v == q * LIMIT + h && 0 <= h < LIMIT
    ensures v % LIMIT == h
  {
  }

  lemma HornerDigits(v: nat, n: nat)
    requires n <= 5
    ensures forall b :: b in Digits(v) ==> b in Decode()
    ensures n > 0 ==> Horner(Digits(v), n) == Horner(Digits(v), n - 1) * 128 + DigitAt(v, n - 1)
  {
    hide ToHash, Encode, DigitAt;
    ToHashIs(128);
  }

  /** Reading printed digits gives the number back, as far as 35 bits go. */
  lemma ReadPrinted(v: nat)
    ensures ValueOf(Digits(v)) == Some(v % LIMIT)
  {
    hide ToHash, Encode, DigitAt, Decode, Digits;
    HornerDigits(v, 0);
    HornerDigits(v, 1);
    HornerDigits(v, 2);
    HornerDigits(v, 3);
    HornerDigits(v, 4);
    HornerDigits(v, 5);
    FiveDigits(v);
  }

  /** from_base128 inverts to_base128 exactly below 2^35. */
  lemma RoundTrip(v: nat)
    ensures ValueOf(Digits(v)) == Some(v) <==> v < LIMIT
  {
    hide ValueOf, Digits;
    ReadPrinted(v);
  }

  /** Whatever text can be read is the text that its value prints. */
  lemma PrintRead(s: Bytes)
    requires ValueOf(s).Some?
    ensures ValueOf(s).value < LIMIT && Digits(ValueOf(s).value) == s
  {
    hide ToHash, Encode, Digits, Decode;
    var v := ValueOf(s).value;
    var h1, h2, h3, h4 := Horner(s, 1), Horner(s, 2), Horner(s, 3), Horner(s, 4);
    HornerLast(s, 0);
    HornerLast(s, 1);
    HornerLast(s, 2);
    HornerLast(s, 3);
    HornerLast(s, 4);
    DigitsAreRead(v, s, h1, h2, h3, h4);
  }

  lemma HornerLast(s: Bytes, n: nat)
    requires n < |s| && forall b :: b in s ==> b in Decode()
    ensures s[n] in Decode() && Decode()[s[n]] < 128 && Encode(Decode()[s[n]]) == s[n]
    ensures Horner(s, n + 1) / 128 == Horner(s, n) && Horner(s, n + 1) % 128 == Decode()[s[n]]
  {
    hide ToHash, Encode;
    ToHashIs(128);
  }

  lemma DigitsAreRead(v: nat, s: Bytes, h1: nat, h2: nat, h3: nat, h4: nat)
    requires |s| == 5 && v / 128 == h4 && h4 / 128 == h3 && h3 / 128 == h2 && h2 / 128 == h1 && h1 < 128
    requires Encode(v % 128) == s[4] && Encode(h4 % 128) == s[3] && Encode(h3 % 128) == s[2]
    requires Encode(h2 % 128) == s[1] && Encode(h1 % 128) == s[0]
    ensures v < LIMIT && Digits(v) == s
  {
    hide Encode, DigitAt;
    Nested(v);
    assert Digits(v) == s;
  }
}
