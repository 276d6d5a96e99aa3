/** The table-driven CRC-32 and the bit-at-a-time definition it stands for. */
module Crc32 {

  /** The 32-bit register. */
  datatype Reg = Reg(v: bv32)

  // Each machine operation has a name of its own, so that proofs can hide it.
  function XorBits(a: bv32, b: bv32): bv32 { a ^ b }

  function HalfBits(c: bv32): bv32 { c >> 1 }

  function Shr8Bits(c: bv32): bv32 { c >> 8 }

  function HighBits(c: bv32): bv32 { c & 0xFFFFFF00 }

  function LowBits(c: bv32): bv8 { (c & 0xFF) as bv8 }

  function ByteBits(b: bv8): bv32 { b as bv32 }

  predicate Odd(c: bv32) { c & 1 == 1 }

  const POLY: bv32 := 0xEDB88320

  /** One bit of the reflected division by POLY. */
  function StepBits(c: bv32): bv32 { if Odd(c) then XorBits(HalfBits(c), POLY) else HalfBits(c) }

  function Xor(a: Reg, b: Reg): Reg { Reg(XorBits(a.v, b.v)) }

  function Shr8(a: Reg): Reg { Reg(Shr8Bits(a.v)) }

  /** The low byte of the register, and a byte in the low end of a register. */
  function Low(a: Reg): bv8 { LowBits(a.v) }

  function Byte(b: bv8): Reg { Reg(ByteBits(b)) }

  const ONES := Reg(0xFFFFFFFF)

  function Step(c: Reg): Reg { Reg(StepBits(c.v)) }

  function Step2(c: Reg): Reg { Step(Step(c)) }

  function Step4(c: Reg): Reg { Step2(Step2(c)) }

  function Step8(c: Reg): Reg { Step4(Step4(c)) }

  /** Entries 0 to 15 of CRC32_TABLE. */
  function Row0(j: bv8): bv32
  {
    if j < 8 then
      if j < 4 then
        if j < 2 then (if j == 0 then 0x00000000 else 0x77073096) else (if j == 2 then 0xEE0E612C else 0x990951BA)
      else
        if j < 6 then (if j == 4 then 0x076DC419 else 0x706AF48F) else (if j == 6 then 0xE963A535 else 0x9E6495A3)
    else
      if j < 12 then
        if j < 10 then (if j == 8 then 0x0EDB8832 else 0x79DCB8A4) else (if j == 10 then 0xE0D5E91E else 0x97D2D988)
      else
        if j < 14 then (if j == 12 then 0x09B64C2B else 0x7EB17CBD) else (if j == 14 then 0xE7B82D07 else 0x90BF1D91)
  }

  /** Entries 16 to 31 of CRC32_TABLE. */
  function Row1(j: bv8): bv32
  {
    if j < 8 then
      if j < 4 then
        if j < 2 then (if j == 0 then 0x1DB71064 else 0x6AB020F2) else (if j == 2 then 0xF3B97148 else 0x84BE41DE)
      else
        if j < 6 then (if j == 4 then 0x1ADAD47D else 0x6DDDE4EB) else (if j == 6 then 0xF4D4B551 else 0x83D385C7)
    else
      if j < 12 then
        if j < 10 then (if j == 8 then 0x136C9856 else 0x646BA8C0) else (if j == 10 then 0xFD62F97A else 0x8A65C9EC)
      else
        if j < 14 then (if j == 12 then 0x14015C4F else 0x63066CD9) else (if j == 14 then 0xFA0F3D63 else 0x8D080DF5)
  }

  /** Entries 32 to 47 of CRC32_TABLE. */
  function Row2(j: bv8): bv32
  {
    if j < 8 then
      if j < 4 then
        if j < 2 then (if j == 0 then 0x3B6E20C8 else 0x4C69105E) else (if j == 2 then 0xD56041E4 else 0xA2677172)
      else
        if j < 6 then (if j == 4 then 0x3C03E4D1 else 0x4B04D447) else (if j == 6 then 0xD20D85FD else 0xA50AB56B)
    else
      if j < 12 then
        if j < 10 then (if j == 8 then 0x35B5A8FA else 0x42B2986C) else (if j == 10 then 0xDBBBC9D6 else 0xACBCF940)
      else
        if j < 14 then (if j == 12 then 0x32D86CE3 else 0x45DF5C75) else (if j == 14 then 0xDCD60DCF else 0xABD13D59)
  }

  /** Entries 48 to 63 of CRC32_TABLE. */
  function Row3(j: bv8): bv32
  {
    if j < 8 then
      if j < 4 then
        if j < 2 then (if j == 0 then 0x26D930AC else 0x51DE003A) else (if j == 2 then 0xC8D75180 else 0xBFD06116)
      else
        if j < 6 then (if j == 4 then 0x21B4F4B5 else 0x56B3C423) else (if j == 6 then 0xCFBA9599 else 0xB8BDA50F)
    else
      if j < 12 then
        if j < 10 then (if j == 8 then 0x2802B89E else 0x5F058808) else (if j == 10 then 0xC60CD9B2 else 0xB10BE924)
      else
        if j < 14 then (if j == 12 then 0x2F6F7C87 else 0x58684C11) else (if j == 14 then 0xC1611DAB else 0xB6662D3D)
  }

  /** Entries 64 to 79 of CRC32_TABLE. */
  function Row4(j: bv8): bv32
  {
    if j < 8 then
      if j < 4 then
        if j < 2 then (if j == 0 then 0x76DC4190 else 0x01DB7106) else (if j == 2 then 0x98D220BC else 0xEFD5102A)
      else
        if j < 6 then (if j == 4 then 0x71B18589 else 0x06B6B51F) else (if j == 6 then 0x9FBFE4A5 else 0xE8B8D433)
    else
      if j < 12 then
        if j < 10 then (if j == 8 then 0x7807C9A2 else 0x0F00F934) else (if j == 10 then 0x9609A88E else 0xE10E9818)
      else
        if j < 14 then (if j == 12 then 0x7F6A0DBB else 0x086D3D2D) else (if j == 14 then 0x91646C97 else 0xE6635C01)
  }

  /** Entries 80 to 95 of CRC32_TABLE. */
  function Row5(j: bv8): bv32
  {
    if j < 8 then
      if j < 4 then
        if j < 2 then (if j == 0 then 0x6B6B51F4 else 0x1C6C6162) else (if j == 2 then 0x856530D8 else 0xF262004E)
      else
        if j < 6 then (if j == 4 then 0x6C0695ED else 0x1B01A57B) else (if j == 6 then 0x8208F4C1 else 0xF50FC457)
    else
      if j < 12 then
        if j < 10 then (if j == 8 then 0x65B0D9C6 else 0x12B7E950) else (if j == 10 then 0x8BBEB8EA else 0xFCB9887C)
      else
        if j < 14 then (if j == 12 then 0x62DD1DDF else 0x15DA2D49) else (if j == 14 then 0x8CD37CF3 else 0xFBD44C65)
  }

  /** Entries 96 to 111 of CRC32_TABLE. */
  function Row6(j: bv8): bv32
  {
    if j < 8 then
      if j < 4 then
        if j < 2 then (if j == 0 then 0x4DB26158 else 0x3AB551CE) else (if j == 2 then 0xA3BC0074 else 0xD4BB30E2)
      else
        if j < 6 then (if j == 4 then 0x4ADFA541 else 0x3DD895D7) else (if j == 6 then 0xA4D1C46D else 0xD3D6F4FB)
    else
      if j < 12 then
        if j < 10 then (if j == 8 then 0x4369E96A else 0x346ED9FC) else (if j == 10 then 0xAD678846 else 0xDA60B8D0)
      else
        if j < 14 then (if j == 12 then 0x44042D73 else 0x33031DE5) else (if j == 14 then 0xAA0A4C5F else 0xDD0D7CC9)
  }

  /** Entries 112 to 127 of CRC32_TABLE. */
  function Row7(j: bv8): bv32
  {
    if j < 8 then
      if j < 4 then
        if j < 2 then (if j == 0 then 0x5005713C else 0x270241AA) else (if j == 2 then 0xBE0B1010 else 0xC90C2086)
      else
        if j < 6 then (if j == 4 then 0x5768B525 else 0x206F85B3) else (if j == 6 then 0xB966D409 else 0xCE61E49F)
    else
      if j < 12 then
        if j < 10 then (if j == 8 then 0x5EDEF90E else 0x29D9C998) else (if j == 10 then 0xB0D09822 else 0xC7D7A8B4)
      else
        if j < 14 then (if j == 12 then 0x59B33D17 else 0x2EB40D81) else (if j == 14 then 0xB7BD5C3B else 0xC0BA6CAD)
  }

  /** Entries 128 to 143 of CRC32_TABLE. */
  function Row8(j: bv8): bv32
  {
    if j < 8 then
      if j < 4 then
        if j < 2 then (if j == 0 then 0xEDB88320 else 0x9ABFB3B6) else (if j == 2 then 0x03B6E20C else 0x74B1D29A)
      else
        if j < 6 then (if j == 4 then 0xEAD54739 else 0x9DD277AF) else (if j == 6 then 0x04DB2615 else 0x73DC1683)
    else
      if j < 12 then
        if j < 10 then (if j == 8 then 0xE3630B12 else 0x94643B84) else (if j == 10 then 0x0D6D6A3E else 0x7A6A5AA8)
      else
        if j < 14 then (if j == 12 then 0xE40ECF0B else 0x9309FF9D) else (if j == 14 then 0x0A00AE27 else 0x7D079EB1)
  }

  /** Entries 144 to 159 of CRC32_TABLE. */
  function Row9(j: bv8): bv32
  {
    if j < 8 then
      if j < 4 then
        if j < 2 then (if j == 0 then 0xF00F9344 else 0x8708A3D2) else (if j == 2 then 0x1E01F268 else 0x6906C2FE)
      else
        if j < 6 then (if j == 4 then 0xF762575D else 0x806567CB) else (if j == 6 then 0x196C3671 else 0x6E6B06E7)
    else
      if j < 12 then
        if j < 10 then (if j == 8 then 0xFED41B76 else 0x89D32BE0) else (if j == 10 then 0x10DA7A5A else 0x67DD4ACC)
      else
        if j < 14 then (if j == 12 then 0xF9B9DF6F else 0x8EBEEFF9) else (if j == 14 then 0x17B7BE43 else 0x60B08ED5)
  }

  /** Entries 160 to 175 of CRC32_TABLE. */
  function Row10(j: bv8): bv32
  {
    if j < 8 then
      if j < 4 then
        if j < 2 then (if j == 0 then 0xD6D6A3E8 else 0xA1D1937E) else (if j == 2 then 0x38D8C2C4 else 0x4FDFF252)
      else
        if j < 6 then (if j == 4 then 0xD1BB67F1 else 0xA6BC5767) else (if j == 6 then 0x3FB506DD else 0x48B2364B)
    else
      if j < 12 then
        if j < 10 then (if j == 8 then 0xD80D2BDA else 0xAF0A1B4C) else (if j == 10 then 0x36034AF6 else 0x41047A60)
      else
        if j < 14 then (if j == 12 then 0xDF60EFC3 else 0xA867DF55) else (if j == 14 then 0x316E8EEF else 0x4669BE79)
  }

  /** Entries 176 to 191 of CRC32_TABLE. */
  function Row11(j: bv8): bv32
  {
    if j < 8 then
      if j < 4 then
        if j < 2 then (if j == 0 then 0xCB61B38C else 0xBC66831A) else (if j == 2 then 0x256FD2A0 else 0x5268E236)
      else
        if j < 6 then (if j == 4 then 0xCC0C7795 else 0xBB0B4703) else (if j == 6 then 0x220216B9 else 0x5505262F)
    else
      if j < 12 then
        if j < 10 then (if j == 8 then 0xC5BA3BBE else 0xB2BD0B28) else (if j == 10 then 0x2BB45A92 else 0x5CB36A04)
      else
        if j < 14 then (if j == 12 then 0xC2D7FFA7 else 0xB5D0CF31) else (if j == 14 then 0x2CD99E8B else 0x5BDEAE1D)
  }

  /** Entries 192 to 207 of CRC32_TABLE. */
  function Row12(j: bv8): bv32
  {
    if j < 8 then
      if j < 4 then
        if j < 2 then (if j == 0 then 0x9B64C2B0 else 0xEC63F226) else (if j == 2 then 0x756AA39C else 0x026D930A)
      else
        if j < 6 then (if j == 4 then 0x9C0906A9 else 0xEB0E363F) else (if j == 6 then 0x72076785 else 0x05005713)
    else
      if j < 12 then
        if j < 10 then (if j == 8 then 0x95BF4A82 else 0xE2B87A14) else (if j == 10 then 0x7BB12BAE else 0x0CB61B38)
      else
        if j < 14 then (if j == 12 then 0x92D28E9B else 0xE5D5BE0D) else (if j == 14 then 0x7CDCEFB7 else 0x0BDBDF21)
  }

  /** Entries 208 to 223 of CRC32_TABLE. */
  function Row13(j: bv8): bv32
  {
    if j < 8 then
      if j < 4 then
        if j < 2 then (if j == 0 then 0x86D3D2D4 else 0xF1D4E242) else (if j == 2 then 0x68DDB3F8 else 0x1FDA836E)
      else
        if j < 6 then (if j == 4 then 0x81BE16CD else 0xF6B9265B) else (if j == 6 then 0x6FB077E1 else 0x18B74777)
    else
      if j < 12 then
        if j < 10 then (if j == 8 then 0x88085AE6 else 0xFF0F6A70) else (if j == 10 then 0x66063BCA else 0x11010B5C)
      else
        if j < 14 then (if j == 12 then 0x8F659EFF else 0xF862AE69) else (if j == 14 then 0x616BFFD3 else 0x166CCF45)
  }

  /** Entries 224 to 239 of CRC32_TABLE. */
  function Row14(j: bv8): bv32
  {
    if j < 8 then
      if j < 4 then
        if j < 2 then (if j == 0 then 0xA00AE278 else 0xD70DD2EE) else (if j == 2 then 0x4E048354 else 0x3903B3C2)
      else
        if j < 6 then (if j == 4 then 0xA7672661 else 0xD06016F7) else (if j == 6 then 0x4969474D else 0x3E6E77DB)
    else
      if j < 12 then
        if j < 10 then (if j == 8 then 0xAED16A4A else 0xD9D65ADC) else (if j == 10 then 0x40DF0B66 else 0x37D83BF0)
      else
        if j < 14 then (if j == 12 then 0xA9BCAE53 else 0xDEBB9EC5) else (if j == 14 then 0x47B2CF7F else 0x30B5FFE9)
  }

  /** Entries 240 to 255 of CRC32_TABLE. */
  function Row15(j: bv8): bv32
  {
    if j < 8 then
      if j < 4 then
        if j < 2 then (if j == 0 then 0xBDBDF21C else 0xCABAC28A) else (if j == 2 then 0x53B39330 else 0x24B4A3A6)
      else
        if j < 6 then (if j == 4 then 0xBAD03605 else 0xCDD70693) else (if j == 6 then 0x54DE5729 else 0x23D967BF)
    else
      if j < 12 then
        if j < 10 then (if j == 8 then 0xB3667A2E else 0xC4614AB8) else (if j == 10 then 0x5D681B02 else 0x2A6F2B94)
      else
        if j < 14 then (if j == 12 then 0xB40BBE37 else 0xC30C8EA1) else (if j == 14 then 0x5A05DF1B else 0x2D02EF8D)
  }

  /** CRC32_TABLE[i]. */
  function Table(i: bv8): bv32
  {
    var j, h := i & 15, i >> 4;
    if h < 8 then
      if h < 4 then
        if h < 2 then (if h < 1 then Row0(j) else Row1(j)) else (if h < 3 then Row2(j) else Row3(j))
      else
        if h < 6 then (if h < 5 then Row4(j) else Row5(j)) else (if h < 7 then Row6(j) else Row7(j))
    else
      if h < 12 then
        if h < 10 then (if h < 9 then Row8(j) else Row9(j)) else (if h < 11 then Row10(j) else Row11(j))
      else
        if h < 14 then (if h < 13 then Row12(j) else Row13(j)) else (if h < 15 then Row14(j) else Row15(j))
  }

  lemma Row0Is(j: bv8)
    requires j < 16
    ensures Reg(Row0(j)) == Step8(Byte(j))
  {
  }

  lemma Row1Is(j: bv8)
    requires j < 16
    ensures Reg(Row1(j)) == Step8(Byte(16 + j))
  {
  }

  lemma Row2Is(j: bv8)
    requires j < 16
    ensures Reg(Row2(j)) == Step8(Byte(32 + j))
  {
  }

  lemma Row3Is(j: bv8)
    requires j < 16
    ensures Reg(Row3(j)) == Step8(Byte(48 + j))
  {
  }

  lemma Row4Is(j: bv8)
    requires j < 16
    ensures Reg(Row4(j)) == Step8(Byte(64 + j))
  {
  }

  lemma Row5Is(j: bv8)
    requires j < 16
    ensures Reg(Row5(j)) == Step8(Byte(80 + j))
  {
  }

  lemma Row6Is(j: bv8)
    requires j < 16
    ensures Reg(Row6(j)) == Step8(Byte(96 + j))
  {
  }

  lemma Row7Is(j: bv8)
    requires j < 16
    ensures Reg(Row7(j)) == Step8(Byte(112 + j))
  {
  }

  lemma Row8Is(j: bv8)
    requires j < 16
    ensures Reg(Row8(j)) == Step8(Byte(128 + j))
  {
  }

  lemma Row9Is(j: bv8)
    requires j < 16
    ensures Reg(Row9(j)) == Step8(Byte(144 + j))
  {
  }

  lemma Row10Is(j: bv8)
    requires j < 16
    ensures Reg(Row10(j)) == Step8(Byte(160 + j))
  {
  }

  lemma Row11Is(j: bv8)
    requires j < 16
    ensures Reg(Row11(j)) == Step8(Byte(176 + j))
  {
  }

  lemma Row12Is(j: bv8)
    requires j < 16
    ensures Reg(Row12(j)) == Step8(Byte(192 + j))
  {
  }

  lemma Row13Is(j: bv8)
    requires j < 16
    ensures Reg(Row13(j)) == Step8(Byte(208 + j))
  {
  }

  lemma Row14Is(j: bv8)
    requires j < 16
    ensures Reg(Row14(j)) == Step8(Byte(224 + j))
  {
  }

  lemma Row15Is(j: bv8)
    requires j < 16
    ensures Reg(Row15(j)) == Step8(Byte(240 + j))
  {
  }

  lemma HighAndLow(i: bv8)
    ensures i >> 4 < 16 && i & 15 < 16 && i == 16 * (i >> 4) + (i & 15)
  {
  }

  /** Every entry of the table is eight bit steps of its index. */
  lemma TableIs(i: bv8)
    ensures Reg(Table(i)) == Step8(Byte(i))
  {
    hide Row0, Row1, Row2, Row3, Row4, Row5, Row6, Row7, Row8, Row9, Row10, Row11, Row12, Row13, Row14, Row15, Step8, Byte;
    var j, h := i & 15, i >> 4;
    HighAndLow(i);
    if h == 0 {
      Row0Is(j);
    } else if h == 1 {
      Row1Is(j);
    } else if h == 2 {
      Row2Is(j);
    } else if h == 3 {
      Row3Is(j);
    } else if h == 4 {
      Row4Is(j);
    } else if h == 5 {
      Row5Is(j);
    } else if h == 6 {
      Row6Is(j);
    } else if h == 7 {
      Row7Is(j);
    } else if h == 8 {
      Row8Is(j);
    } else if h == 9 {
      Row9Is(j);
    } else if h == 10 {
      Row10Is(j);
    } else if h == 11 {
      Row11Is(j);
    } else if h == 12 {
      Row12Is(j);
    } else if h == 13 {
      Row13Is(j);
    } else if h == 14 {
      Row14Is(j);
    } else {
      Row15Is(j);
    }
  }

  // ---------- Algebra of the register ----------

  lemma AssocBits(a: bv32, b: bv32, c: bv32)
    ensures XorBits(XorBits(a, b), c) == XorBits(a, XorBits(b, c))
  {
  }

  lemma CommBits(a: bv32, b: bv32)
    ensures XorBits(a, b) == XorBits(b, a)
  {
  }

  lemma UndoBits(a: bv32, b: bv32)
    ensures XorBits(XorBits(a, b), b) == a
  {
  }

  lemma CancelBits(a: bv32, b: bv32, c: bv32)
    ensures XorBits(XorBits(a, c), XorBits(b, c)) == XorBits(a, b)
  {
    hide XorBits;
    AssocBits(a, c, XorBits(b, c));
    CommBits(c, XorBits(b, c));
    UndoBits(b, c);
  }

  lemma OddXor(a: bv32, b: bv32)
    ensures Odd(XorBits(a, b)) <==> Odd(a) != Odd(b)
  {
  }

  lemma HalfXor(a: bv32, b: bv32)
    ensures HalfBits(XorBits(a, b)) == XorBits(HalfBits(a), HalfBits(b))
  {
  }

  lemma LinearBits(a: bv32, b: bv32)
    ensures StepBits(XorBits(a, b)) == XorBits(StepBits(a), StepBits(b))
  {
    hide XorBits, HalfBits, Odd, POLY;
    var x, y := HalfBits(a), HalfBits(b);
    OddXor(a, b);
    HalfXor(a, b);
    CancelBits(x, y, POLY);
    AssocBits(x, y, POLY);
    AssocBits(x, POLY, y);
    CommBits(POLY, y);
  }

  lemma InjectiveBits(a: bv32, b: bv32)
    requires StepBits(a) == StepBits(b)
    ensures a == b
  {
  }

  lemma XorAssoc(a: Reg, b: Reg, c: Reg)
    ensures Xor(Xor(a, b), c) == Xor(a, Xor(b, c))
  {
    hide XorBits;
    AssocBits(a.v, b.v, c.v);
  }

  lemma XorComm(a: Reg, b: Reg)
    ensures Xor(a, b) == Xor(b, a)
  {
    hide XorBits;
    CommBits(a.v, b.v);
  }

  lemma XorCancel(a: Reg, b: Reg, c: Reg)
    requires Xor(a, c) == Xor(b, c)
    ensures a == b
  {
    hide XorBits;
    UndoBits(a.v, c.v);
    UndoBits(b.v, c.v);
  }

  lemma StepLinear(a: Reg, b: Reg)
    ensures Step(Xor(a, b)) == Xor(Step(a), Step(b))
  {
    hide XorBits, StepBits;
    LinearBits(a.v, b.v);
  }

  lemma Step8Linear(a: Reg, b: Reg)
    ensures Step8(Xor(a, b)) == Xor(Step8(a), Step8(b))
  {
    hide Step, Xor;
    var a1, b1 := Step(a), Step(b);
    var a2, b2 := Step(a1), Step(b1);
    var a3, b3 := Step(a2), Step(b2);
    var a4, b4 := Step(a3), Step(b3);
    var a5, b5 := Step(a4), Step(b4);
    var a6, b6 := Step(a5), Step(b5);
    var a7, b7 := Step(a6), Step(b6);
    StepLinear(a, b);
    StepLinear(a1, b1);
    StepLinear(a2, b2);
    StepLinear(a3, b3);
    StepLinear(a4, b4);
    StepLinear(a5, b5);
    StepLinear(a6, b6);
    StepLinear(a7, b7);
  }

  lemma StepInjective(a: Reg, b: Reg)
    requires Step(a) == Step(b)
    ensures a == b
  {
    hide StepBits;
    InjectiveBits(a.v, b.v);
  }

  lemma Step8Injective(a: Reg, b: Reg)
    requires Step8(a) == Step8(b)
    ensures a == b
  {
    hide Step;
    StepInjective(Step(Step2(Step4(a))), Step(Step2(Step4(b))));
    StepInjective(Step2(Step4(a)), Step2(Step4(b)));
    StepInjective(Step(Step4(a)), Step(Step4(b)));
    StepInjective(Step4(a), Step4(b));
    StepInjective(Step(Step2(a)), Step(Step2(b)));
    StepInjective(Step2(a), Step2(b));
    StepInjective(Step(a), Step(b));
    StepInjective(a, b);
  }

  function Shr1(c: Reg): Reg { Reg(HalfBits(c.v)) }

  /** The lowest n bits are clear. */
  predicate Clear(c: Reg, n: nat)
  {
    match n
    case 1 => c.v & 1 == 0
    case 2 => c.v & 3 == 0
    case 3 => c.v & 7 == 0
    case 4 => c.v & 15 == 0
    case 5 => c.v & 31 == 0
    case 6 => c.v & 63 == 0
    case 7 => c.v & 127 == 0
    case 8 => c.v & 255 == 0
    case _ => true
  }

  lemma StepClear(c: Reg, n: nat)
    requires 1 <= n <= 8 && Clear(c, n)
    ensures Step(c) == Shr1(c) && Clear(Shr1(c), n - 1)
  {
  }

  lemma ShiftEight(c: Reg)
    ensures Shr1(Shr1(Shr1(Shr1(Shr1(Shr1(Shr1(Shr1(c)))))))) == Shr8(c)
    ensures Low(c) == 0 <==> Clear(c, 8)
  {
  }

  /** Bits above the low byte only move down in eight steps. */
  lemma Step8High(c: Reg)
    requires Low(c) == 0
    ensures Step8(c) == Shr8(c)
  {
    hide Step, Clear, Shr1, Shr8, Low;
    var c1 := Shr1(c);
    var c2 := Shr1(c1);
    var c3 := Shr1(c2);
    var c4 := Shr1(c3);
    var c5 := Shr1(c4);
    var c6 := Shr1(c5);
    var c7 := Shr1(c6);
    ShiftEight(c);
    StepClear(c, 8);
    StepClear(c1, 7);
    StepClear(c2, 6);
    StepClear(c3, 5);
    StepClear(c4, 4);
    StepClear(c5, 3);
    StepClear(c6, 2);
    StepClear(c7, 1);
  }

  /** The register without its low byte. */
  function High(c: Reg): Reg { Reg(HighBits(c.v)) }

  lemma JoinBits(c: bv32)
    ensures XorBits(HighBits(c), ByteBits(LowBits(c))) == c
  {
  }

  lemma HighHasNoLow(c: bv32)
    ensures LowBits(HighBits(c)) == 0
  {
  }

  lemma HighShifts(c: bv32)
    ensures Shr8Bits(HighBits(c)) == Shr8Bits(c)
  {
  }

  lemma SplitLow(c: Reg)
    ensures Xor(High(c), Byte(Low(c))) == c && Low(High(c)) == 0 && Shr8(High(c)) == Shr8(c)
  {
    hide XorBits, HighBits, LowBits, ByteBits, Shr8Bits;
    JoinBits(c.v);
    HighHasNoLow(c.v);
    HighShifts(c.v);
  }

  /** Eight steps act on the low byte and shift the rest down. */
  lemma Step8Splits(c: Reg)
    ensures Step8(c) == Xor(Shr8(c), Step8(Byte(Low(c))))
  {
    hide Step8, High, Low, Byte, Xor, Shr8;
    SplitLow(c);
    Step8High(High(c));
    Step8Linear(High(c), Byte(Low(c)));
  }

  // ---------- The register over a message ----------

  /** The definition: xor the byte into the register, then eight bit steps. */
  function BitByte(crc: Reg, b: bv8): Reg { Step8(Xor(crc, Byte(b))) }

  function BitFeed(crc: Reg, data: seq<bv8>): Reg
  {
    if data == [] then crc else BitByte(BitFeed(crc, data[..|data| - 1]), data[|data| - 1])
  }

  function Crc(data: seq<bv8>): bv32 { Xor(BitFeed(ONES, data), ONES).v }

  lemma Fed1()
    ensures BitByte(Reg(0xFFFFFFFF), 0x31) == Reg(0x7C231048)
  {
  }

  lemma Fed2()
    ensures BitByte(Reg(0x7C231048), 0x32) == Reg(0xB0ACBB32)
  {
  }

  lemma Fed3()
    ensures BitByte(Reg(0xB0ACBB32), 0x33) == Reg(0x77B79C2D)
  {
  }

  lemma Fed4()
    ensures BitByte(Reg(0x77B79C2D), 0x34) == Reg(0x641C1F5C)
  {
  }

  lemma Fed5()
    ensures BitByte(Reg(0x641C1F5C), 0x35) == Reg(0x340AC5E3)
  {
  }

  lemma Fed6()
    ensures BitByte(Reg(0x340AC5E3), 0x36) == Reg(0xF68D2C9E)
  {
  }

  lemma Fed7()
    ensures BitByte(Reg(0xF68D2C9E), 0x37) == Reg(0xAFFC9660)
  {
  }

  lemma Fed8()
    ensures BitByte(Reg(0xAFFC9660), 0x38) == Reg(0x651F2550)
  {
  }

  lemma Fed9()
    ensures BitByte(Reg(0x651F2550), 0x39) == Reg(0x340BC6D9)
  {
  }

  lemma FeedNext(data: seq<bv8>, k: nat, b: bv8, c: Reg, d: Reg)
    requires k < |data| && data[k] == b && BitFeed(ONES, data[..k]) == c && BitByte(c, b) == d
    ensures BitFeed(ONES, data[..k + 1]) == d
  {
    hide BitByte;
    assert data[..k + 1][..k] == data[..k];
  }

  /** The digits 1 to 9 in ASCII have the check value of this CRC. */
  lemma CheckValue()
    ensures Crc([0x31, 0x32, 0x33, 0x34, 0x35, 0x36, 0x37, 0x38, 0x39]) == 0xCBF43926
  {
    hide BitByte, BitFeed;
    var text: seq<bv8> := [0x31, 0x32, 0x33, 0x34, 0x35, 0x36, 0x37, 0x38, 0x39];
    NothingFed();
    assert text[..0] == [];
    Fed1();
    FeedNext(text, 0, 0x31, Reg(0xFFFFFFFF), Reg(0x7C231048));
    Fed2();
    FeedNext(text, 1, 0x32, Reg(0x7C231048), Reg(0xB0ACBB32));
    Fed3();
    FeedNext(text, 2, 0x33, Reg(0xB0ACBB32), Reg(0x77B79C2D));
    Fed4();
    FeedNext(text, 3, 0x34, Reg(0x77B79C2D), Reg(0x641C1F5C));
    Fed5();
    FeedNext(text, 4, 0x35, Reg(0x641C1F5C), Reg(0x340AC5E3));
    Fed6();
    FeedNext(text, 5, 0x36, Reg(0x340AC5E3), Reg(0xF68D2C9E));
    Fed7();
    FeedNext(text, 6, 0x37, Reg(0xF68D2C9E), Reg(0xAFFC9660));
    Fed8();
    FeedNext(text, 7, 0x38, Reg(0xAFFC9660), Reg(0x651F2550));
    Fed9();
    FeedNext(text, 8, 0x39, Reg(0x651F2550), Reg(0x340BC6D9));
    assert text[..9] == text;
    assert XorBits(0x340BC6D9, 0xFFFFFFFF) == 0xCBF43926;
  }

  lemma NothingFed()
    ensures BitFeed(ONES, []) == Reg(0xFFFFFFFF)
  {
  }

  lemma ByteShiftBits(crc: bv32, b: bv8)
    ensures Shr8Bits(XorBits(crc, ByteBits(b))) == Shr8Bits(crc)
  {
  }

  lemma ByteShift(crc: Reg, b: bv8)
    ensures Shr8(Xor(crc, Byte(b))) == Shr8(crc)
  {
    hide XorBits, ByteBits, Shr8Bits;
    ByteShiftBits(crc.v, b);
  }

  /** A byte through the table is a byte through the definition. */
  lemma TableByte(crc: Reg, b: bv8)
    ensures Xor(Shr8(crc), Reg(Table(Low(Xor(crc, Byte(b)))))) == BitByte(crc, b)
  {
    hide Table, Step8, Low, Byte, Xor, Shr8;
    TableIs(Low(Xor(crc, Byte(b))));
    Step8Splits(Xor(crc, Byte(b)));
    ByteShift(crc, b);
  }

  /** The loop over the table computes the definition. */
  method Crc32Calc(data: seq<bv8>) returns (r: bv32)
    ensures r == Crc(data)
  {
    hide Table, BitByte, Low, Byte, Xor, Shr8;
    var crc := ONES;
    for i := 0 to |data|
      invariant crc == BitFeed(ONES, data[..i])
    {
      assert data[..i + 1][..i] == data[..i];
      TableByte(crc, data[i]);
      var index := Low(Xor(crc, Byte(data[i])));
      crc := Xor(Shr8(crc), Reg(Table(index)));
    }
    assert data[..|data|] == data;
    r := Xor(crc, ONES).v;
  }

  // ---------- What the checksum tells apart ----------

  /** The same bytes never bring two different registers together. */
  lemma {:induction false} FeedInjective(a: Reg, b: Reg, data: seq<bv8>)
    requires BitFeed(a, data) == BitFeed(b, data)
    ensures a == b
  {
    hide Step8, Xor, Byte;
    if data != [] {
      var n := |data| - 1;
      var x, y, c := BitFeed(a, data[..n]), BitFeed(b, data[..n]), Byte(data[n]);
      Step8Injective(Xor(x, c), Xor(y, c));
      XorCancel(x, y, c);
      FeedInjective(a, b, data[..n]);
    }
  }

  lemma {:induction false} FeedConcat(crc: Reg, a: seq<bv8>, b: seq<bv8>)
    ensures BitFeed(crc, a + b) == BitFeed(BitFeed(crc, a), b)
  {
    hide BitByte;
    if b == [] {
      assert a + b == a;
    } else {
      var n := |b| - 1;
      assert (a + b)[..|a + b| - 1] == a + b[..n];
      FeedConcat(crc, a, b[..n]);
    }
  }

  /** Four bytes, the first one lowest. */
  function Pack(a: bv8, b: bv8, c: bv8, d: bv8): Reg
  {
    Reg((a as bv32) | ((b as bv32) << 8) | ((c as bv32) << 16) | ((d as bv32) << 24))
  }

  lemma PackParts(a: bv8, b: bv8, c: bv8, d: bv8)
    ensures Pack(a, b, c, d) == Xor(Byte(a), Pack(0, b, c, d))
    ensures Low(Pack(0, b, c, d)) == 0 && Shr8(Pack(0, b, c, d)) == Pack(b, c, d, 0)
  {
  }

  /** One byte of a packed word: the rest moves down. */
  lemma FeedOne(crc: Reg, a: bv8, b: bv8, c: bv8, d: bv8)
    ensures Step8(Xor(crc, Pack(a, b, c, d))) == Xor(BitByte(crc, a), Pack(b, c, d, 0))
  {
    hide Step8, Pack, Xor, Byte, Low, Shr8;
    var rest := Pack(0, b, c, d);
    PackParts(a, b, c, d);
    XorAssoc(crc, Byte(a), rest);
    Step8High(rest);
    Step8Linear(Xor(crc, Byte(a)), rest);
  }

  lemma PackZero(c: Reg)
    ensures Xor(c, Pack(0, 0, 0, 0)) == c
  {
  }

  function Step32(c: Reg): Reg { Step8(Step8(Step8(Step8(c)))) }

  /** Feeding four bytes is packing them into the register and stepping 32 times. */
  lemma FeedFour(crc: Reg, a: bv8, b: bv8, c: bv8, d: bv8)
    ensures BitByte(BitByte(BitByte(BitByte(crc, a), b), c), d) == Step32(Xor(crc, Pack(a, b, c, d)))
  {
    hide Step8, Pack, BitByte, Xor;
    var r1 := BitByte(crc, a);
    var r2 := BitByte(r1, b);
    var r3 := BitByte(r2, c);
    FeedOne(crc, a, b, c, d);
    FeedOne(r1, b, c, d, 0);
    FeedOne(r2, c, d, 0, 0);
    FeedOne(r3, d, 0, 0, 0);
    PackZero(BitByte(r3, d));
  }

  lemma PackInjective(a: bv8, b: bv8, c: bv8, d: bv8, e: bv8, f: bv8, g: bv8, h: bv8)
    requires Pack(a, b, c, d) == Pack(e, f, g, h)
    ensures a == e && b == f && c == g && d == h
  {
  }

  lemma FourBytes(crc: Reg, u: seq<bv8>)
    requires |u| == 4
    ensures BitFeed(crc, u) == BitByte(BitByte(BitByte(BitByte(crc, u[0]), u[1]), u[2]), u[3])
  {
    hide BitByte;
    assert u[..3][..2] == u[..2] && u[..2][..1] == u[..1] && u[..1][..0] == [];
    assert BitFeed(crc, u[..1]) == BitByte(crc, u[0]);
    assert BitFeed(crc, u[..2]) == BitByte(BitFeed(crc, u[..1]), u[1]);
    assert BitFeed(crc, u[..3]) == BitByte(BitFeed(crc, u[..2]), u[2]);
  }

  lemma FeedsApart(crc: Reg, u: seq<bv8>, v: seq<bv8>)
    requires |u| == |v| == 4 && BitFeed(crc, u) == BitFeed(crc, v)
    ensures u == v
  {
    hide Step8, Pack, BitByte, BitFeed, Xor;
    FourBytes(crc, u);
    FourBytes(crc, v);
    FeedFour(crc, u[0], u[1], u[2], u[3]);
    FeedFour(crc, v[0], v[1], v[2], v[3]);
    var p, q := Pack(u[0], u[1], u[2], u[3]), Pack(v[0], v[1], v[2], v[3]);
    var x, y := Xor(crc, p), Xor(crc, q);
    Step8Injective(Step8(Step8(Step8(x))), Step8(Step8(Step8(y))));
    Step8Injective(Step8(Step8(x)), Step8(Step8(y)));
    Step8Injective(Step8(x), Step8(y));
    Step8Injective(x, y);
    XorComm(crc, p);
    XorComm(crc, q);
    XorCancel(p, q, crc);
    PackInjective(u[0], u[1], u[2], u[3], v[0], v[1], v[2], v[3]);
  }

  lemma FeedsApartShort(crc: Reg, u: seq<bv8>, v: seq<bv8>)
    requires |u| == |v| <= 4 && BitFeed(crc, u) == BitFeed(crc, v)
    ensures u == v
  {
    hide BitFeed;
    var pad := seq(4 - |u|, _ => 0 as bv8);
    FeedConcat(crc, u, pad);
    FeedConcat(crc, v, pad);
    FeedsApart(crc, u + pad, v + pad);
    assert u == (u + pad)[..|u|] == (v + pad)[..|u|] == v;
  }

  /** Two different messages that agree outside four adjacent bytes have different checksums. */
  lemma BurstDetected(before: seq<bv8>, u: seq<bv8>, v: seq<bv8>, after: seq<bv8>)
    requires |u| == |v| <= 4 && u != v
    ensures Crc(before + u + after) != Crc(before + v + after)
  {
    hide BitFeed, Xor;
    var s := BitFeed(ONES, before);
    FeedConcat(ONES, before, u);
    FeedConcat(ONES, before, v);
    FeedConcat(ONES, before + u, after);
    FeedConcat(ONES, before + v, after);
    var x, y := BitFeed(BitFeed(s, u), after), BitFeed(BitFeed(s, v), after);
    if Crc(before + u + after) == Crc(before + v + after) {
      assert Xor(x, ONES) == Xor(y, ONES);
      XorCancel(x, y, ONES);
      FeedInjective(BitFeed(s, u), BitFeed(s, v), after);
      FeedsApartShort(s, u, v);
    }
  }
}
