/** The IEEE CRC-32 (frame check sequence of section 3.2.9 of IEEE 802.3), in
    the reflected form that crc32.ChecksumIEEE computes. */
module Crc32 {
  import opened Words

  const POLYNOMIAL: bv32 := 0xEDB8_8320
  const ONES: bv32 := 0xFFFF_FFFF

  type Word = w: int | 0 <= w < 0x1_0000_0000

  /** Shift out the low bit, adding the polynomial if it is one. */
  function Shift(x: bv32): (y: bv32)
  {
    if x & 1 == 1 then (x >> 1) ^ POLYNOMIAL else x >> 1
  }

  function ShiftBits(x: bv32, k: nat): (y: bv32)
    decreases k
  {
    if k == 0 then x else ShiftBits(Shift(x), k - 1)
  }

  function Feed(register: bv32, b: Byte): (r: bv32)
  {
    ShiftBits(register ^ (b as bv32), 8)
  }

  function Update(register: bv32, data: seq<Byte>): (r: bv32)
    decreases |data|
  {
    if data == [] then register else Update(Feed(register, data[0]), data[1..])
  }

  function Checksum(data: seq<Byte>): (c: Word)
  {
    (Update(ONES, data) ^ ONES) as int
  }

  lemma ShiftByte(x: bv32)
    ensures ShiftBits(x, 8) == Shift(Shift(Shift(Shift(Shift(Shift(Shift(Shift(x))))))))
  {
    hide Shift;
    var y := Shift(Shift(Shift(Shift(x))));
    assert ShiftBits(x, 8) == ShiftBits(Shift(Shift(x)), 6) == ShiftBits(y, 4);
    assert ShiftBits(y, 4) == ShiftBits(Shift(Shift(y)), 2) == ShiftBits(Shift(Shift(Shift(Shift(y)))), 0);
  }

  lemma Feed1()
    ensures Feed(0xFFFF_FFFF, 0x31) == 0x7C23_1048
  {
    hide ShiftBits;
    ShiftByte(0xFFFF_FFFF ^ 0x31);
  }

  lemma Feed2()
    ensures Feed(0x7C23_1048, 0x32) == 0xB0AC_BB32
  {
    hide ShiftBits;
    ShiftByte(0x7C23_1048 ^ 0x32);
  }

  lemma Feed3()
    ensures Feed(0xB0AC_BB32, 0x33) == 0x77B7_9C2D
  {
    hide ShiftBits;
    ShiftByte(0xB0AC_BB32 ^ 0x33);
  }

  lemma Feed4()
    ensures Feed(0x77B7_9C2D, 0x34) == 0x641C_1F5C
  {
    hide ShiftBits;
    ShiftByte(0x77B7_9C2D ^ 0x34);
  }

  lemma Feed5()
    ensures Feed(0x641C_1F5C, 0x35) == 0x340A_C5E3
  {
    hide ShiftBits;
    ShiftByte(0x641C_1F5C ^ 0x35);
  }

  lemma Feed6()
    ensures Feed(0x340A_C5E3, 0x36) == 0xF68D_2C9E
  {
    hide ShiftBits;
    ShiftByte(0x340A_C5E3 ^ 0x36);
  }

  lemma Feed7()
    ensures Feed(0xF68D_2C9E, 0x37) == 0xAFFC_9660
  {
    hide ShiftBits;
    ShiftByte(0xF68D_2C9E ^ 0x37);
  }

  lemma Feed8()
    ensures Feed(0xAFFC_9660, 0x38) == 0x651F_2550
  {
    hide ShiftBits;
    ShiftByte(0xAFFC_9660 ^ 0x38);
  }

  lemma Feed9()
    ensures Feed(0x651F_2550, 0x39) == 0x340B_C6D9
  {
    hide ShiftBits;
    ShiftByte(0x651F_2550 ^ 0x39);
  }

  lemma UpdateStep(register: bv32, b: Byte, rest: seq<Byte>)
    ensures Update(register, [b] + rest) == Update(Feed(register, b), rest)
  {
    hide Feed;
    assert ([b] + rest)[1..] == rest;
  }

  /** The check value of the standard: the checksum of the nine digits 1 to 9. */
  lemma CheckValue()
    ensures Checksum([0x31, 0x32, 0x33, 0x34, 0x35, 0x36, 0x37, 0x38, 0x39]) == 0xCBF4_3926
  {
    hide Feed, Update;
    Feed1();
    Feed2();
    Feed3();
    Feed4();
    Feed5();
    Feed6();
    Feed7();
    Feed8();
    Feed9();
    UpdateStep(0xFFFF_FFFF, 0x31, [0x32, 0x33, 0x34, 0x35, 0x36, 0x37, 0x38, 0x39]);
    UpdateStep(0x7C23_1048, 0x32, [0x33, 0x34, 0x35, 0x36, 0x37, 0x38, 0x39]);
    UpdateStep(0xB0AC_BB32, 0x33, [0x34, 0x35, 0x36, 0x37, 0x38, 0x39]);
    UpdateStep(0x77B7_9C2D, 0x34, [0x35, 0x36, 0x37, 0x38, 0x39]);
    UpdateStep(0x641C_1F5C, 0x35, [0x36, 0x37, 0x38, 0x39]);
    UpdateStep(0x340A_C5E3, 0x36, [0x37, 0x38, 0x39]);
    UpdateStep(0xF68D_2C9E, 0x37, [0x38, 0x39]);
    UpdateStep(0xAFFC_9660, 0x38, [0x39]);
    UpdateStep(0x651F_2550, 0x39, []);
    assert [0x31] + [0x32, 0x33, 0x34, 0x35, 0x36, 0x37, 0x38, 0x39] ==
           [0x31, 0x32, 0x33, 0x34, 0x35, 0x36, 0x37, 0x38, 0x39];
    assert [0x32] + [0x33, 0x34, 0x35, 0x36, 0x37, 0x38, 0x39] == [0x32, 0x33, 0x34, 0x35, 0x36, 0x37, 0x38, 0x39];
    assert [0x33] + [0x34, 0x35, 0x36, 0x37, 0x38, 0x39] == [0x33, 0x34, 0x35, 0x36, 0x37, 0x38, 0x39];
    assert [0x34] + [0x35, 0x36, 0x37, 0x38, 0x39] == [0x34, 0x35, 0x36, 0x37, 0x38, 0x39];
    assert [0x35] + [0x36, 0x37, 0x38, 0x39] == [0x35, 0x36, 0x37, 0x38, 0x39];
    assert [0x36] + [0x37, 0x38, 0x39] == [0x36, 0x37, 0x38, 0x39];
    assert [0x37] + [0x38, 0x39] == [0x37, 0x38, 0x39];
    assert [0x38] + [0x39] == [0x38, 0x39];
    assert [0x39] + [] == [0x39];
    assert Update(0x340B_C6D9, []) == 0x340B_C6D9 by { UpdateNothing(0x340B_C6D9); }
  }

  lemma UpdateNothing(register: bv32)
    ensures Update(register, []) == register
  {
  }
}
