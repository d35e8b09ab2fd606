/** The table-driven CRC-32 of the firmware tool, and the polynomial division that it stands for. */
module Crc32 {
  import opened CrcTable

  type Byte = bv8

  const CRC_INIT: bv32 := 0xFFFFFFFF
  const XOR_OUT: bv32 := 0xFFFFFFFF

  /** The generator polynomial, highest power first, as IEEE 802.3 section 3.2.9 gives it. */
  const POLY: bv32 := 0x04C11DB7

  /** The same polynomial with its bits reversed. */
  const POLY_REV: bv32 := 0xEDB88320

  // ----- bit-vector operations by name: proofs hide them and reason with the lemmas below

  function Xor(a: bv32, b: bv32): bv32 {
    a ^ b
  }

  function Half(a: bv32): bv32 {
    a >> 1
  }

  function Double(a: bv32): bv32 {
    a << 1
  }

  predicate Odd(a: bv32) {
    a & 1 == 1
  }

  predicate High(a: bv32) {
    a & 0x80000000 != 0
  }

  function LowByte(a: bv32): bv32 {
    a & 0xFF
  }

  function Drop8(a: bv32): bv32 {
    a >> 8
  }

  function Bit(b: bool): bv32 {
    if b then 1 else 0
  }

  function Wide(b: Byte): bv32 {
    b as bv32
  }

  // ----- the reflected register, one bit and one byte at a time

  /** One step of the reflected shift register. */
  function Shift(c: bv32): bv32 {
    if Odd(c) then Xor(Half(c), POLY_REV) else Half(c)
  }

  function Shift8(c: bv32): bv32 {
    Shift(Shift(Shift(Shift(Shift(Shift(Shift(Shift(c))))))))
  }

  /** Feeds one message bit. */
  function Serial(c: bv32, b: bool): bv32 {
    Shift(Xor(c, Bit(b)))
  }

  function SerialRun(c: bv32, bits: seq<bool>): bv32
    decreases |bits|
  {
    if bits == [] then c else SerialRun(Serial(c, bits[0]), bits[1..])
  }

  /** The bits of a byte, least significant first. */
  function ByteBits(b: Byte): (bits: seq<bool>)
    ensures |bits| == 8
  {
    [b & 1 != 0, b & 2 != 0, b & 4 != 0, b & 8 != 0, b & 16 != 0, b & 32 != 0, b & 64 != 0, b & 128 != 0]
  }

  function Bits(data: seq<Byte>): seq<bool> {
    if data == [] then [] else ByteBits(data[0]) + Bits(data[1..])
  }

  // ----- the reference: long division by the generator polynomial, highest power first

  /** One step of the division: the message bit meets the highest coefficient of the remainder. */
  function Divide(r: bv32, b: bool): bv32 {
    if High(r) != b then Xor(Double(r), POLY) else Double(r)
  }

  function Remainder(r: bv32, bits: seq<bool>): bv32
    decreases |bits|
  {
    if bits == [] then r else Remainder(Divide(r, bits[0]), bits[1..])
  }

  /** The 32 bits of a word in reverse order. */
  function Reflect(c: bv32): bv32 {
    var c1 := ((c >> 1) & 0x55555555) | ((c & 0x55555555) << 1);
    var c2 := ((c1 >> 2) & 0x33333333) | ((c1 & 0x33333333) << 2);
    var c3 := ((c2 >> 4) & 0x0F0F0F0F) | ((c2 & 0x0F0F0F0F) << 4);
    var c4 := ((c3 >> 8) & 0x00FF00FF) | ((c3 & 0x00FF00FF) << 8);
    (c4 >> 16) | (c4 << 16)
  }

  /** The CRC-32 of a byte string, by its definition. */
  function Crc(data: seq<Byte>): bv32 {
    Xor(Reflect(Remainder(CRC_INIT, Bits(data))), XOR_OUT)
  }

  // ----- the table

  function Entry(i: bv32): bv32
    requires i < 256
  {
    assert i >> 4 < 16 && i & 15 < 16;
    TABLE_ROWS[(i >> 4) as int][(i & 15) as int]
  }

  lemma LowByteSmall(x: bv32)
    ensures LowByte(x) < 256
  {}

  /** One step of the table-driven computation. */
  function TableStep(c: bv32, b: Byte): bv32 {
    LowByteSmall(Xor(c, Wide(b)));
    Xor(Entry(LowByte(Xor(c, Wide(b)))), Drop8(c))
  }

  function TableRun(c: bv32, data: seq<Byte>): bv32
    decreases |data|
  {
    if data == [] then c else TableRun(TableStep(c, data[0]), data[1..])
  }

  lemma Row0(i: bv32)
    requires i >> 4 == 0x0
    ensures i & 15 < 16 && ROW_0[(i & 15) as int] == Shift8(i)
  {}

  lemma Row1(i: bv32)
    requires i >> 4 == 0x1
    ensures i & 15 < 16 && ROW_1[(i & 15) as int] == Shift8(i)
  {}

  lemma Row2(i: bv32)
    requires i >> 4 == 0x2
    ensures i & 15 < 16 && ROW_2[(i & 15) as int] == Shift8(i)
  {}

  lemma Row3(i: bv32)
    requires i >> 4 == 0x3
    ensures i & 15 < 16 && ROW_3[(i & 15) as int] == Shift8(i)
  {}

  lemma Row4(i: bv32)
    requires i >> 4 == 0x4
    ensures i & 15 < 16 && ROW_4[(i & 15) as int] == Shift8(i)
  {}

  lemma Row5(i: bv32)
    requires i >> 4 == 0x5
    ensures i & 15 < 16 && ROW_5[(i & 15) as int] == Shift8(i)
  {}

  lemma Row6(i: bv32)
    requires i >> 4 == 0x6
    ensures i & 15 < 16 && ROW_6[(i & 15) as int] == Shift8(i)
  {}

  lemma Row7(i: bv32)
    requires i >> 4 == 0x7
    ensures i & 15 < 16 && ROW_7[(i & 15) as int] == Shift8(i)
  {}

  lemma Row8(i: bv32)
    requires i >> 4 == 0x8
    ensures i & 15 < 16 && ROW_8[(i & 15) as int] == Shift8(i)
  {}

  lemma Row9(i: bv32)
    requires i >> 4 == 0x9
    ensures i & 15 < 16 && ROW_9[(i & 15) as int] == Shift8(i)
  {}

  lemma RowA(i: bv32)
    requires i >> 4 == 0xA
    ensures i & 15 < 16 && ROW_A[(i & 15) as int] == Shift8(i)
  {}

  lemma RowB(i: bv32)
    requires i >> 4 == 0xB
    ensures i & 15 < 16 && ROW_B[(i & 15) as int] == Shift8(i)
  {}

  lemma RowC(i: bv32)
    requires i >> 4 == 0xC
    ensures i & 15 < 16 && ROW_C[(i & 15) as int] == Shift8(i)
  {}

  lemma RowD(i: bv32)
    requires i >> 4 == 0xD
    ensures i & 15 < 16 && ROW_D[(i & 15) as int] == Shift8(i)
  {}

  lemma RowE(i: bv32)
    requires i >> 4 == 0xE
    ensures i & 15 < 16 && ROW_E[(i & 15) as int] == Shift8(i)
  {}

  lemma RowF(i: bv32)
    requires i >> 4 == 0xF
    ensures i & 15 < 16 && ROW_F[(i & 15) as int] == Shift8(i)
  {}

  /** Every table entry is eight register steps of its index. */
  lemma EntryIsShift8(i: bv32)
    requires i < 256
    ensures Entry(i) == Shift8(i)
  {
    hide Shift8;
    var r := i >> 4;
    if r == 0 { Row0(i); } else if r == 1 { Row1(i); } else if r == 2 { Row2(i); } else if r == 3 { Row3(i); }
    else if r == 4 { Row4(i); } else if r == 5 { Row5(i); } else if r == 6 { Row6(i); } else if r == 7 { Row7(i); }
    else if r == 8 { Row8(i); } else if r == 9 { Row9(i); } else if r == 10 { RowA(i); } else if r == 11 { RowB(i); }
    else if r == 12 { RowC(i); } else if r == 13 { RowD(i); } else if r == 14 { RowE(i); } else { RowF(i); }
  }

  // ----- bit-vector facts

  lemma XorFacts(x: bv32, y: bv32)
    ensures Half(Xor(x, y)) == Xor(Half(x), Half(y))
    ensures Odd(Xor(x, y)) <==> Odd(x) != Odd(y)
    ensures Xor(x, 0) == x
    ensures Xor(Xor(x, y), y) == x
    ensures Xor(x, y) == Xor(y, x)
  {}

  lemma XorAssociative(x: bv32, y: bv32, z: bv32)
    ensures Xor(Xor(x, y), z) == Xor(x, Xor(y, z))
  {}

  /** Bits above the lowest pass through a step unchanged. */
  lemma ShiftXor(x: bv32, y: bv32)
    requires !Odd(y)
    ensures Shift(Xor(x, y)) == Xor(Shift(x), Half(y))
  {
    hide Xor;
    hide Half;
    hide Odd;
    XorFacts(x, y);
    XorFacts(Half(y), POLY_REV);
    XorAssociative(Half(x), Half(y), POLY_REV);
    XorAssociative(Half(x), POLY_REV, Half(y));
  }

  lemma LowBitsClear(y: bv32)
    requires y & 0xFF == 0
    ensures !Odd(y) && !Odd(Half(y)) && !Odd(Half(Half(y))) && !Odd(Half(Half(Half(y))))
    ensures !Odd(Half(Half(Half(Half(y))))) && !Odd(Half(Half(Half(Half(Half(y))))))
    ensures !Odd(Half(Half(Half(Half(Half(Half(y)))))))
    ensures !Odd(Half(Half(Half(Half(Half(Half(Half(y))))))))
    ensures Half(Half(Half(Half(Half(Half(Half(Half(y)))))))) == y >> 8
  {}

  lemma Shift8Xor(x: bv32, y: bv32)
    requires y & 0xFF == 0
    ensures Shift8(Xor(x, y)) == Xor(Shift8(x), y >> 8)
  {
    LowBitsClear(y);
    hide Shift;
    hide Xor;
    hide Half;
    hide Odd;
    ShiftXor(x, y);
    var x1, y1 := Shift(x), Half(y);
    ShiftXor(x1, y1);
    var x2, y2 := Shift(x1), Half(y1);
    ShiftXor(x2, y2);
    var x3, y3 := Shift(x2), Half(y2);
    ShiftXor(x3, y3);
    var x4, y4 := Shift(x3), Half(y3);
    ShiftXor(x4, y4);
    var x5, y5 := Shift(x4), Half(y4);
    ShiftXor(x5, y5);
    var x6, y6 := Shift(x5), Half(y5);
    ShiftXor(x6, y6);
    var x7, y7 := Shift(x6), Half(y6);
    ShiftXor(x7, y7);
  }

  lemma Shift8XorBytes(x: bv32, y: bv32)
    requires LowByte(y) == 0
    ensures Shift8(Xor(x, y)) == Xor(Shift8(x), Drop8(y))
  {
    hide Shift8;
    hide Xor;
    Shift8Xor(x, y);
  }

  // ----- the table computes the bit-serial register

  function HighBytes(a: bv32): bv32 {
    a & 0xFFFFFF00
  }

  lemma SplitWord(x: bv32)
    ensures x == Xor(LowByte(x), HighBytes(x))
    ensures LowByte(HighBytes(x)) == 0 && Drop8(HighBytes(x)) == Drop8(x)
  {}

  lemma DropWide(c: bv32, b: Byte)
    ensures Drop8(Xor(c, Wide(b))) == Drop8(c)
  {}

  lemma TableStepIsShift8(c: bv32, b: Byte)
    ensures TableStep(c, b) == Shift8(Xor(c, Wide(b)))
  {
    hide Xor;
    hide Wide;
    hide Shift8;
    hide Entry;
    hide LowByte;
    hide Drop8;
    hide HighBytes;
    var x := Xor(c, Wide(b));
    SplitWord(x);
    DropWide(c, b);
    LowByteSmall(x);
    EntryIsShift8(LowByte(x));
    Shift8XorBytes(LowByte(x), HighBytes(x));
  }

  /** Feeding one bit of a word at a time is feeding the whole word at once. */
  lemma SerialStep(c: bv32, w: bv32)
    ensures Shift(Xor(c, w)) == Xor(Serial(c, Odd(w)), Half(w))
  {
    WithoutLowBit(w);
    var high := w & 0xFFFFFFFE;
    hide Xor;
    hide Half;
    hide Odd;
    hide Bit;
    hide Shift;
    XorAssociative(c, Bit(Odd(w)), high);
    ShiftXor(Xor(c, Bit(Odd(w))), high);
  }

  lemma WithoutLowBit(w: bv32)
    ensures w == Xor(Bit(Odd(w)), w & 0xFFFFFFFE) && !Odd(w & 0xFFFFFFFE) && Half(w & 0xFFFFFFFE) == Half(w)
  {}

  lemma ByteBitsAreOdd(b: Byte)
    ensures var w := Wide(b);
      && ByteBits(b) == [Odd(w), Odd(Half(w)), Odd(Half(Half(w))), Odd(Half(Half(Half(w)))),
                         Odd(Half(Half(Half(Half(w))))), Odd(Half(Half(Half(Half(Half(w)))))),
                         Odd(Half(Half(Half(Half(Half(Half(w))))))), Odd(Half(Half(Half(Half(Half(Half(Half(w))))))))]
      && Half(Half(Half(Half(Half(Half(Half(Half(w)))))))) == 0
  {}

  lemma SerialRunConcat(c: bv32, s: seq<bool>, t: seq<bool>)
    ensures SerialRun(c, s + t) == SerialRun(SerialRun(c, s), t)
    decreases |s|
  {
    if s == [] {
      assert s + t == t;
    } else {
      assert (s + t)[1..] == s[1..] + t;
      SerialRunConcat(Serial(c, s[0]), s[1..], t);
    }
  }

  lemma SerialRunFrom(c: bv32, b: seq<bool>, k: nat)
    requires k < |b|
    ensures SerialRun(c, b[k..]) == SerialRun(Serial(c, b[k]), b[k + 1..])
  {
    assert b[k..][1..] == b[k + 1..];
  }

  lemma SerialRunNothing(c: bv32)
    ensures SerialRun(c, []) == c
  {}

  lemma SerialRunEight(c: bv32, b: seq<bool>)
    requires |b| == 8
    ensures SerialRun(c, b)
         == Serial(Serial(Serial(Serial(Serial(Serial(Serial(Serial(c, b[0]), b[1]), b[2]), b[3]), b[4]), b[5]), b[6]), b[7])
  {
    hide Serial;
    hide SerialRun;
    var c1 := Serial(c, b[0]);
    var c2 := Serial(c1, b[1]);
    var c3 := Serial(c2, b[2]);
    var c4 := Serial(c3, b[3]);
    var c5 := Serial(c4, b[4]);
    var c6 := Serial(c5, b[5]);
    var c7 := Serial(c6, b[6]);
    assert b[0..] == b && b[8..] == [];
    SerialRunFrom(c, b, 0);
    SerialRunFrom(c1, b, 1);
    SerialRunFrom(c2, b, 2);
    SerialRunFrom(c3, b, 3);
    SerialRunFrom(c4, b, 4);
    SerialRunFrom(c5, b, 5);
    SerialRunFrom(c6, b, 6);
    SerialRunFrom(c7, b, 7);
    SerialRunNothing(Serial(c7, b[7]));
  }

  lemma Shift8IsSerial(c: bv32, w0: bv32)
    requires Half(Half(Half(Half(Half(Half(Half(Half(w0)))))))) == 0
    ensures Shift8(Xor(c, w0))
         == Serial(Serial(Serial(Serial(Serial(Serial(Serial(Serial(c, Odd(w0)), Odd(Half(w0))), Odd(Half(Half(w0)))),
              Odd(Half(Half(Half(w0))))), Odd(Half(Half(Half(Half(w0)))))), Odd(Half(Half(Half(Half(Half(w0))))))),
              Odd(Half(Half(Half(Half(Half(Half(w0)))))))), Odd(Half(Half(Half(Half(Half(Half(Half(w0)))))))))
  {
    hide Xor;
    hide Half;
    hide Odd;
    hide Serial;
    hide Shift;
    var c1, w1 := Serial(c, Odd(w0)), Half(w0);
    var c2, w2 := Serial(c1, Odd(w1)), Half(w1);
    var c3, w3 := Serial(c2, Odd(w2)), Half(w2);
    var c4, w4 := Serial(c3, Odd(w3)), Half(w3);
    var c5, w5 := Serial(c4, Odd(w4)), Half(w4);
    var c6, w6 := Serial(c5, Odd(w5)), Half(w5);
    var c7, w7 := Serial(c6, Odd(w6)), Half(w6);
    SerialStep(c, w0);
    SerialStep(c1, w1);
    SerialStep(c2, w2);
    SerialStep(c3, w3);
    SerialStep(c4, w4);
    SerialStep(c5, w5);
    SerialStep(c6, w6);
    SerialStep(c7, w7);
    XorFacts(Serial(c7, Odd(w7)), 0);
  }

  /** One table step is the eight serial steps of the byte's bits. */
  lemma SerialByte(c: bv32, b: Byte)
    ensures SerialRun(c, ByteBits(b)) == TableStep(c, b)
  {
    hide Xor;
    hide Half;
    hide Odd;
    hide Serial;
    hide Shift8;
    hide Wide;
    hide TableStep;
    hide SerialRun;
    ByteBitsAreOdd(b);
    SerialRunEight(c, ByteBits(b));
    hide ByteBits;
    TableStepIsShift8(c, b);
    Shift8IsSerial(c, Wide(b));
  }

  /** Over whole byte strings the table-driven register is the bit-serial one. */
  lemma {:induction false} TableRunIsSerial(c: bv32, data: seq<Byte>)
    ensures TableRun(c, data) == SerialRun(c, Bits(data))
    decreases |data|
  {
    hide TableStep;
    hide ByteBits;
    if data != [] {
      SerialByte(c, data[0]);
      SerialRunConcat(c, ByteBits(data[0]), Bits(data[1..]));
      TableRunIsSerial(TableStep(c, data[0]), data[1..]);
    }
  }

  // ----- the reflected register is the division register read backwards

  lemma ReflectXor(c: bv32, d: bv32)
    ensures Reflect(Xor(c, d)) == Xor(Reflect(c), Reflect(d))
  {}

  lemma ReflectFacts(c: bv32)
    ensures Reflect(Half(c)) == Double(Reflect(c))
    ensures High(Reflect(c)) <==> Odd(c)
    ensures Reflect(Reflect(c)) == c
  {}

  lemma ReflectConstants()
    ensures Reflect(POLY_REV) == POLY && Reflect(CRC_INIT) == CRC_INIT
    ensures Reflect(Bit(true)) == 0x80000000 && Reflect(Bit(false)) == 0
  {}

  lemma DoubleDropsHigh(r: bv32)
    ensures Double(Xor(r, 0x80000000)) == Double(r)
  {}

  lemma HighFlips(r: bv32)
    ensures High(Xor(r, 0x80000000)) <==> !High(r)
  {}

  lemma SerialIsDivide(c: bv32, b: bool)
    ensures Reflect(Serial(c, b)) == Divide(Reflect(c), b)
  {
    ReflectConstants();
    hide Reflect;
    hide Xor;
    hide Half;
    hide Double;
    hide Odd;
    hide High;
    hide Bit;
    var x := Xor(c, Bit(b));
    ReflectXor(c, Bit(b));
    DoubleDropsHigh(Reflect(c));
    HighFlips(Reflect(c));
    XorFacts(Reflect(c), 0);
    ReflectFacts(c);
    ReflectFacts(x);
    ReflectXor(Half(x), POLY_REV);
  }

  lemma {:induction false} SerialRunIsRemainder(c: bv32, bits: seq<bool>)
    ensures Reflect(SerialRun(c, bits)) == Remainder(Reflect(c), bits)
    decreases |bits|
  {
    hide Reflect;
    hide Serial;
    hide Divide;
    if bits != [] {
      SerialIsDivide(c, bits[0]);
      SerialRunIsRemainder(Serial(c, bits[0]), bits[1..]);
    }
  }

  /** The table-driven computation is the CRC-32 of the byte string, for every byte string. */
  lemma TableIsCrc(data: seq<Byte>)
    ensures Xor(TableRun(CRC_INIT, data), XOR_OUT) == Crc(data)
  {
    TableRunIsSerial(CRC_INIT, data);
    SerialRunIsRemainder(CRC_INIT, Bits(data));
    ReflectConstants();
    ReflectFacts(SerialRun(CRC_INIT, Bits(data)));
    hide Reflect;
    hide Xor;
    hide SerialRun;
    hide TableRun;
    hide Remainder;
  }

  // ----- the register loses nothing

  function Unshift(c: bv32): bv32 {
    if High(c) then Xor(Double(Xor(c, POLY_REV)), 1) else Double(c)
  }

  lemma DoubleEven(c: bv32)
    requires !High(c)
    ensures Half(Double(c)) == c && !Odd(Double(c))
  {}

  lemma DoubleOdd(c: bv32)
    requires !High(c)
    ensures Half(Xor(Double(c), 1)) == c && Odd(Xor(Double(c), 1))
  {}

  lemma PolyHigh(c: bv32)
    ensures High(Xor(c, POLY_REV)) <==> !High(c)
  {}

  lemma DoubleHalf(c: bv32)
    ensures Double(Half(c)) == if Odd(c) then Xor(c, 1) else c
  {}

  lemma HalfNotHigh(c: bv32)
    ensures !High(Half(c))
  {}

  /** Each step of the register is a bijection. */
  lemma ShiftBijective(c: bv32)
    ensures Unshift(Shift(c)) == c
    ensures Shift(Unshift(c)) == c
  {
    hide Xor;
    hide Half;
    hide Odd;
    hide High;
    hide Double;
    HalfNotHigh(c);
    DoubleHalf(c);
    PolyHigh(Half(c));
    XorFacts(Half(c), POLY_REV);
    XorFacts(c, 1);
    PolyHigh(c);
    XorFacts(c, POLY_REV);
    if High(c) {
      DoubleOdd(Xor(c, POLY_REV));
    } else {
      DoubleEven(c);
    }
  }

  function Unshift8(c: bv32): bv32 {
    Unshift(Unshift(Unshift(Unshift(Unshift(Unshift(Unshift(Unshift(c))))))))
  }

  /** For a fixed byte, a table step is a bijection on the register; this is its inverse. */
  function TableUnstep(c: bv32, b: Byte): bv32 {
    Xor(Unshift8(c), Wide(b))
  }

  lemma Shift8Bijective(c: bv32)
    ensures Unshift8(Shift8(c)) == c
    ensures Shift8(Unshift8(c)) == c
  {
    hide Shift;
    hide Unshift;
    var s1 := Shift(c);
    var s2 := Shift(s1);
    var s3 := Shift(s2);
    var s4 := Shift(s3);
    var s5 := Shift(s4);
    var s6 := Shift(s5);
    var s7 := Shift(s6);
    ShiftBijective(c);
    ShiftBijective(s1);
    ShiftBijective(s2);
    ShiftBijective(s3);
    ShiftBijective(s4);
    ShiftBijective(s5);
    ShiftBijective(s6);
    ShiftBijective(s7);
    var u1 := Unshift(c);
    var u2 := Unshift(u1);
    var u3 := Unshift(u2);
    var u4 := Unshift(u3);
    var u5 := Unshift(u4);
    var u6 := Unshift(u5);
    var u7 := Unshift(u6);
    ShiftBijective(u1);
    ShiftBijective(u2);
    ShiftBijective(u3);
    ShiftBijective(u4);
    ShiftBijective(u5);
    ShiftBijective(u6);
    ShiftBijective(u7);
  }

  lemma TableStepBijective(c: bv32, b: Byte)
    ensures TableUnstep(TableStep(c, b), b) == c
    ensures TableStep(TableUnstep(c, b), b) == c
  {
    hide Xor;
    hide Wide;
    hide Shift8;
    hide Unshift8;
    hide TableStep;
    TableStepIsShift8(c, b);
    TableStepIsShift8(TableUnstep(c, b), b);
    Shift8Bijective(Xor(c, Wide(b)));
    Shift8Bijective(c);
    XorFacts(c, Wide(b));
    XorFacts(Unshift8(c), Wide(b));
  }

  // ----- bursts of up to 32 bits

  function Shifts(c: bv32, k: nat): bv32
    decreases k
  {
    if k == 0 then c else Shifts(Shift(c), k - 1)
  }

  /** The word whose lowest bits are `bits`, first bit lowest. */
  function Word(bits: seq<bool>): bv32 {
    if bits == [] then 0 else Xor(Bit(bits[0]), Double(Word(bits[1..])))
  }

  lemma {:induction false} ShiftsInjective(c: bv32, d: bv32, k: nat)
    requires Shifts(c, k) == Shifts(d, k)
    ensures c == d
    decreases k
  {
    hide Shift;
    hide Unshift;
    if k > 0 {
      ShiftsInjective(Shift(c), Shift(d), k - 1);
      ShiftBijective(c);
      ShiftBijective(d);
    }
  }

  /** All bits from position `k` on. */
  function Above(k: nat): bv32 {
    if k == 0 then 0xFFFFFFFF else Double(Above(k - 1))
  }

  predicate Disjoint(w: bv32, m: bv32) {
    w & m == 0
  }

  predicate Within(m: bv32, n: bv32) {
    m & n == m
  }

  lemma DisjointDouble(w: bv32, m: bv32, b: bool)
    requires Disjoint(w, m)
    ensures Disjoint(Xor(Bit(b), Double(w)), Double(m))
  {}

  lemma WithinDouble(m: bv32, n: bv32)
    requires Within(m, n)
    ensures Within(Double(m), Double(n))
  {}

  lemma WithinTransitive(m: bv32, n: bv32, k: bv32)
    requires Within(m, n) && Within(n, k)
    ensures Within(m, k)
  {}

  lemma WithinReflexive(m: bv32)
    ensures Within(m, m) && Within(m, 0xFFFFFFFF)
  {}

  lemma {:induction false} WordFits(bits: seq<bool>)
    ensures Disjoint(Word(bits), Above(|bits|))
  {
    if bits == [] {
      assert Disjoint(0, Above(0));
    } else {
      WordFits(bits[1..]);
      hide Disjoint;
      hide Double;
      hide Xor;
      hide Bit;
      DisjointDouble(Word(bits[1..]), Above(|bits| - 1), bits[0]);
    }
  }

  lemma {:induction false} AboveShrinks(k: nat)
    ensures Within(Above(k + 1), Above(k))
  {
    hide Within;
    hide Double;
    if k == 0 {
      WithinReflexive(Above(1));
    } else {
      AboveShrinks(k - 1);
      WithinDouble(Above(k), Above(k - 1));
    }
  }

  lemma {:induction false} AboveDecreases(k: nat, n: nat)
    requires k <= n
    ensures Within(Above(n), Above(k))
    decreases n - k
  {
    hide Within;
    hide Above;
    if k == n {
      WithinReflexive(Above(n));
    } else {
      AboveDecreases(k + 1, n);
      AboveShrinks(k);
      WithinTransitive(Above(n), Above(k + 1), Above(k));
    }
  }

  lemma AboveTop()
    ensures Above(31) == 0x80000000
  {
    assert Above(1) == 0xFFFFFFFE && Above(2) == 0xFFFFFFFC && Above(3) == 0xFFFFFFF8 && Above(4) == 0xFFFFFFF0;
    assert Above(5) == 0xFFFFFFE0 && Above(6) == 0xFFFFFFC0 && Above(7) == 0xFFFFFF80 && Above(8) == 0xFFFFFF00;
    assert Above(9) == 0xFFFFFE00 && Above(10) == 0xFFFFFC00 && Above(11) == 0xFFFFF800 && Above(12) == 0xFFFFF000;
    assert Above(13) == 0xFFFFE000 && Above(14) == 0xFFFFC000 && Above(15) == 0xFFFF8000 && Above(16) == 0xFFFF0000;
    assert Above(17) == 0xFFFE0000 && Above(18) == 0xFFFC0000 && Above(19) == 0xFFF80000 && Above(20) == 0xFFF00000;
    assert Above(21) == 0xFFE00000 && Above(22) == 0xFFC00000 && Above(23) == 0xFF800000 && Above(24) == 0xFF000000;
    assert Above(25) == 0xFE000000 && Above(26) == 0xFC000000 && Above(27) == 0xF8000000 && Above(28) == 0xF0000000;
    assert Above(29) == 0xE0000000 && Above(30) == 0xC0000000;
  }

  lemma DisjointTop(w: bv32, m: bv32)
    requires Disjoint(w, m) && Within(0x80000000, m)
    ensures !High(w)
  {}

  lemma ShortWordNotHigh(bits: seq<bool>)
    requires |bits| <= 31
    ensures !High(Word(bits))
  {
    WordFits(bits);
    AboveDecreases(|bits|, 31);
    AboveTop();
    hide Within;
    hide Disjoint;
    hide High;
    DisjointTop(Word(bits), Above(|bits|));
  }

  lemma OddBit(b: bool, w: bv32)
    requires !High(w)
    ensures Odd(Xor(Bit(b), Double(w))) <==> b
    ensures Half(Xor(Bit(b), Double(w))) == w
  {}

  lemma {:induction false} WordInjective(s: seq<bool>, t: seq<bool>)
    requires |s| == |t| <= 32 && Word(s) == Word(t)
    ensures s == t
  {
    if s != [] {
      ShortWordNotHigh(s[1..]);
      ShortWordNotHigh(t[1..]);
      hide Xor;
      hide Double;
      hide Bit;
      hide High;
      hide Odd;
      hide Half;
      OddBit(s[0], Word(s[1..]));
      OddBit(t[0], Word(t[1..]));
      WordInjective(s[1..], t[1..]);
      assert s == [s[0]] + s[1..] && t == [t[0]] + t[1..];
    }
  }

  /** Up to 32 bits can be fed at once, as a word. */
  lemma {:induction false} SerialRunWord(c: bv32, bits: seq<bool>)
    requires |bits| <= 32
    ensures SerialRun(c, bits) == Shifts(Xor(c, Word(bits)), |bits|)
    decreases |bits|
  {
    hide Xor;
    hide Shift;
    hide Bit;
    hide Double;
    hide High;
    if bits == [] {
      XorFacts(c, 0);
    } else {
      var w := Word(bits[1..]);
      ShortWordNotHigh(bits[1..]);
      SerialRunWord(Serial(c, bits[0]), bits[1..]);
      DoubleEven(w);
      ShiftXor(Xor(c, Bit(bits[0])), Double(w));
      XorAssociative(c, Bit(bits[0]), Double(w));
    }
  }

  lemma SameSuffix(c: bv32, d: bv32, bits: seq<bool>)
    requires SerialRun(c, bits) == SerialRun(d, bits)
    ensures c == d
    decreases |bits|
  {
    hide Shift;
    hide Xor;
    if bits != [] {
      SameSuffix(Serial(c, bits[0]), Serial(d, bits[0]), bits[1..]);
      ShiftBijective(Xor(c, Bit(bits[0])));
      ShiftBijective(Xor(d, Bit(bits[0])));
      XorFacts(c, Bit(bits[0]));
      XorFacts(d, Bit(bits[0]));
    }
  }

  /** Two bit strings that differ only in a burst of at most 32 bits leave different registers. */
  lemma BurstDetected(c: bv32, p: seq<bool>, u: seq<bool>, v: seq<bool>, s: seq<bool>)
    requires |u| == |v| <= 32 && u != v
    ensures SerialRun(c, p + u + s) != SerialRun(c, p + v + s)
  {
    hide Xor;
    SerialRunConcat(c, p + u, s);
    SerialRunConcat(c, p + v, s);
    SerialRunConcat(c, p, u);
    SerialRunConcat(c, p, v);
    var r := SerialRun(c, p);
    if SerialRun(c, p + u + s) == SerialRun(c, p + v + s) {
      SameSuffix(SerialRun(r, u), SerialRun(r, v), s);
      SerialRunWord(r, u);
      SerialRunWord(r, v);
      ShiftsInjective(Xor(r, Word(u)), Xor(r, Word(v)), |u|);
      XorFacts(Word(u), r);
      XorFacts(Word(v), r);
      WordInjective(u, v);
    }
  }

  lemma BitsConcat(s: seq<Byte>, t: seq<Byte>)
    ensures Bits(s + t) == Bits(s) + Bits(t)
  {
    if s == [] {
      assert s + t == t;
    } else {
      assert (s + t)[1..] == s[1..] + t;
      BitsConcat(s[1..], t);
    }
  }

  lemma ByteBitsInjective(b: Byte, d: Byte)
    requires ByteBits(b) == ByteBits(d)
    ensures b == d
  {
    assert forall k :: 0 <= k < 8 ==> ByteBits(b)[k] == ByteBits(d)[k];
  }

  lemma {:induction false} BitsInjective(s: seq<Byte>, t: seq<Byte>)
    requires |s| == |t| && Bits(s) == Bits(t)
    ensures s == t
  {
    hide ByteBits;
    if s != [] {
      assert ByteBits(s[0]) == Bits(s)[..8] == Bits(t)[..8] == ByteBits(t[0]);
      assert Bits(s[1..]) == Bits(s)[8..] == Bits(t)[8..] == Bits(t[1..]);
      ByteBitsInjective(s[0], t[0]);
      BitsInjective(s[1..], t[1..]);
      assert s == [s[0]] + s[1..] && t == [t[0]] + t[1..];
    }
  }

  lemma {:induction false} BitsLength(s: seq<Byte>)
    ensures |Bits(s)| == 8 * |s|
  {
    if s != [] {
      BitsLength(s[1..]);
    }
  }

  /** Two images of equal length that differ only inside one window of four bytes never share a CRC. */
  lemma WindowDetected(a: seq<Byte>, b: seq<Byte>, i: nat)
    requires |a| == |b| && a != b && i <= |a|
    requires forall j :: 0 <= j < |a| && (j < i || i + 4 <= j) ==> a[j] == b[j]
    ensures Crc(a) != Crc(b)
  {
    var n := if i + 4 <= |a| then i + 4 else |a|;
    var p, u, v, s := a[..i], a[i..n], b[i..n], a[n..];
    assert a == p + u + s && b == p + v + s;
    BitsConcat(p + u, s);
    BitsConcat(p, u);
    BitsConcat(p + v, s);
    BitsConcat(p, v);
    BitsLength(u);
    BitsLength(v);
    if Bits(u) == Bits(v) { BitsInjective(u, v); }
    BurstDetected(CRC_INIT, Bits(p), Bits(u), Bits(v), Bits(s));
    CrcDeterminesRegister(a);
    CrcDeterminesRegister(b);
  }

  lemma CrcDeterminesRegister(data: seq<Byte>)
    ensures Xor(Crc(data), XOR_OUT) == SerialRun(CRC_INIT, Bits(data))
  {
    TableIsCrc(data);
    TableRunIsSerial(CRC_INIT, data);
    hide Crc;
    XorFacts(TableRun(CRC_INIT, data), XOR_OUT);
  }

  // ----- the check value

  /** One byte step evaluated on numbers, bit by bit. */
  lemma StepIs(c: bv32, b: Byte, d: bv32)
    requires Shift8(Xor(c, Wide(b))) == d
    ensures TableStep(c, b) == d
  {
    hide Shift8;
    TableStepIsShift8(c, b);
  }

  lemma CheckStep1()
    ensures TableStep(0xFFFFFFFF, 0x31) == 0x7C231048
  {
    StepIs(0xFFFFFFFF, 0x31, 0x7C231048);
  }

  lemma CheckStep2()
    ensures TableStep(0x7C231048, 0x32) == 0xB0ACBB32
  {
    StepIs(0x7C231048, 0x32, 0xB0ACBB32);
  }

  lemma CheckStep3()
    ensures TableStep(0xB0ACBB32, 0x33) == 0x77B79C2D
  {
    StepIs(0xB0ACBB32, 0x33, 0x77B79C2D);
  }

  lemma CheckStep4()
    ensures TableStep(0x77B79C2D, 0x34) == 0x641C1F5C
  {
    StepIs(0x77B79C2D, 0x34, 0x641C1F5C);
  }

  lemma CheckStep5()
    ensures TableStep(0x641C1F5C, 0x35) == 0x340AC5E3
  {
    StepIs(0x641C1F5C, 0x35, 0x340AC5E3);
  }

  lemma CheckStep6()
    ensures TableStep(0x340AC5E3, 0x36) == 0xF68D2C9E
  {
    StepIs(0x340AC5E3, 0x36, 0xF68D2C9E);
  }

  lemma CheckStep7()
    ensures TableStep(0xF68D2C9E, 0x37) == 0xAFFC9660
  {
    StepIs(0xF68D2C9E, 0x37, 0xAFFC9660);
  }

  lemma CheckStep8()
    ensures TableStep(0xAFFC9660, 0x38) == 0x651F2550
  {
    StepIs(0xAFFC9660, 0x38, 0x651F2550);
  }

  lemma CheckStep9()
    ensures TableStep(0x651F2550, 0x39) == 0x340BC6D9
  {
    StepIs(0x651F2550, 0x39, 0x340BC6D9);
  }

  const DIGITS: seq<Byte> := [0x31, 0x32, 0x33, 0x34, 0x35, 0x36, 0x37, 0x38, 0x39]

  /** The published check value: the CRC of the nine digits "123456789"; and that of nothing is 0. */
  lemma CheckValue()
    ensures Crc(DIGITS) == 0xCBF43926
    ensures Crc([]) == 0
  {
    TableIsCrc(DIGITS);
    TableIsCrc([]);
    DigitsRun();
    assert Xor(0x340BC6D9, 0xFFFFFFFF) == 0xCBF43926;
    assert Xor(CRC_INIT, XOR_OUT) == 0;
    hide Crc;
    hide Xor;
  }

  lemma DigitsRun()
    ensures TableRun(0xFFFFFFFF, DIGITS) == 0x340BC6D9
  {
    CheckStep1();
    CheckStep2();
    CheckStep3();
    CheckStep4();
    CheckStep5();
    CheckStep6();
    CheckStep7();
    CheckStep8();
    CheckStep9();
    hide TableStep;
    assert DIGITS[0..][0] == 0x31 && DIGITS[0..][1..] == DIGITS[1..];
    assert DIGITS[1..][0] == 0x32 && DIGITS[1..][1..] == DIGITS[2..];
    assert DIGITS[2..][0] == 0x33 && DIGITS[2..][1..] == DIGITS[3..];
    assert DIGITS[3..][0] == 0x34 && DIGITS[3..][1..] == DIGITS[4..];
    assert DIGITS[4..][0] == 0x35 && DIGITS[4..][1..] == DIGITS[5..];
    assert DIGITS[5..][0] == 0x36 && DIGITS[5..][1..] == DIGITS[6..];
    assert DIGITS[6..][0] == 0x37 && DIGITS[6..][1..] == DIGITS[7..];
    assert DIGITS[7..][0] == 0x38 && DIGITS[7..][1..] == DIGITS[8..];
    assert DIGITS[8..][0] == 0x39 && DIGITS[8..][1..] == DIGITS[9..];
    assert DIGITS[0..] == DIGITS && DIGITS[9..] == [];
    assert TableRun(0x651F2550, DIGITS[8..]) == 0x340BC6D9;
    assert TableRun(0xAFFC9660, DIGITS[7..]) == 0x340BC6D9;
    assert TableRun(0xF68D2C9E, DIGITS[6..]) == 0x340BC6D9;
    assert TableRun(0x340AC5E3, DIGITS[5..]) == 0x340BC6D9;
    assert TableRun(0x641C1F5C, DIGITS[4..]) == 0x340BC6D9;
    assert TableRun(0x77B79C2D, DIGITS[3..]) == 0x340BC6D9;
    assert TableRun(0xB0ACBB32, DIGITS[2..]) == 0x340BC6D9;
    assert TableRun(0x7C231048, DIGITS[1..]) == 0x340BC6D9;
    assert TableRun(0xFFFFFFFF, DIGITS[0..]) == 0x340BC6D9;
  }
}
