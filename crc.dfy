/** CRC-16/MODBUS, the error check of the MODBUS over Serial Line Specification
    V1.02 (section 2.5.1.2 checks it, section 6.2.2 generates it): a
    table-driven fold over the bytes of a frame, starting from 0xFFFF. The
    16-bit result travels low byte first; the `Frame` module does that. */
module Crc {

  /** The lookup table, as sixteen rows of sixteen entries: the source's 256
      entries in its order, entry `i` standing in row `i / 16` at column
      `i % 16`. Entry `i` is the reflected CRC of the byte `i` under the
      polynomial 0xA001 (`TableIsReflectedA001` proves it). */
  const CRC_TABLE: seq<seq<bv16>> := [
    [0x0000, 0xC0C1, 0xC181, 0x0140, 0xC301, 0x03C0, 0x0280, 0xC241,
     0xC601, 0x06C0, 0x0780, 0xC741, 0x0500, 0xC5C1, 0xC481, 0x0440],
    [0xCC01, 0x0CC0, 0x0D80, 0xCD41, 0x0F00, 0xCFC1, 0xCE81, 0x0E40,
     0x0A00, 0xCAC1, 0xCB81, 0x0B40, 0xC901, 0x09C0, 0x0880, 0xC841],
    [0xD801, 0x18C0, 0x1980, 0xD941, 0x1B00, 0xDBC1, 0xDA81, 0x1A40,
     0x1E00, 0xDEC1, 0xDF81, 0x1F40, 0xDD01, 0x1DC0, 0x1C80, 0xDC41],
    [0x1400, 0xD4C1, 0xD581, 0x1540, 0xD701, 0x17C0, 0x1680, 0xD641,
     0xD201, 0x12C0, 0x1380, 0xD341, 0x1100, 0xD1C1, 0xD081, 0x1040],
    [0xF001, 0x30C0, 0x3180, 0xF141, 0x3300, 0xF3C1, 0xF281, 0x3240,
     0x3600, 0xF6C1, 0xF781, 0x3740, 0xF501, 0x35C0, 0x3480, 0xF441],
    [0x3C00, 0xFCC1, 0xFD81, 0x3D40, 0xFF01, 0x3FC0, 0x3E80, 0xFE41,
     0xFA01, 0x3AC0, 0x3B80, 0xFB41, 0x3900, 0xF9C1, 0xF881, 0x3840],
    [0x2800, 0xE8C1, 0xE981, 0x2940, 0xEB01, 0x2BC0, 0x2A80, 0xEA41,
     0xEE01, 0x2EC0, 0x2F80, 0xEF41, 0x2D00, 0xEDC1, 0xEC81, 0x2C40],
    [0xE401, 0x24C0, 0x2580, 0xE541, 0x2700, 0xE7C1, 0xE681, 0x2640,
     0x2200, 0xE2C1, 0xE381, 0x2340, 0xE101, 0x21C0, 0x2080, 0xE041],
    [0xA001, 0x60C0, 0x6180, 0xA141, 0x6300, 0xA3C1, 0xA281, 0x6240,
     0x6600, 0xA6C1, 0xA781, 0x6740, 0xA501, 0x65C0, 0x6480, 0xA441],
    [0x6C00, 0xACC1, 0xAD81, 0x6D40, 0xAF01, 0x6FC0, 0x6E80, 0xAE41,
     0xAA01, 0x6AC0, 0x6B80, 0xAB41, 0x6900, 0xA9C1, 0xA881, 0x6840],
    [0x7800, 0xB8C1, 0xB981, 0x7940, 0xBB01, 0x7BC0, 0x7A80, 0xBA41,
     0xBE01, 0x7EC0, 0x7F80, 0xBF41, 0x7D00, 0xBDC1, 0xBC81, 0x7C40],
    [0xB401, 0x74C0, 0x7580, 0xB541, 0x7700, 0xB7C1, 0xB681, 0x7640,
     0x7200, 0xB2C1, 0xB381, 0x7340, 0xB101, 0x71C0, 0x7080, 0xB041],
    [0x5000, 0x90C1, 0x9181, 0x5140, 0x9301, 0x53C0, 0x5280, 0x9241,
     0x9601, 0x56C0, 0x5780, 0x9741, 0x5500, 0x95C1, 0x9481, 0x5440],
    [0x9C01, 0x5CC0, 0x5D80, 0x9D41, 0x5F00, 0x9FC1, 0x9E81, 0x5E40,
     0x5A00, 0x9AC1, 0x9B81, 0x5B40, 0x9901, 0x59C0, 0x5880, 0x9841],
    [0x8801, 0x48C0, 0x4980, 0x8941, 0x4B00, 0x8BC1, 0x8A81, 0x4A40,
     0x4E00, 0x8EC1, 0x8F81, 0x4F40, 0x8D01, 0x4DC0, 0x4C80, 0x8C41],
    [0x4400, 0x84C1, 0x8581, 0x4540, 0x8701, 0x47C0, 0x4680, 0x8641,
     0x8201, 0x42C0, 0x4380, 0x8341, 0x4100, 0x81C1, 0x8081, 0x4040]
  ]

  /** The table entry at index `i`. */
  function TableAt(i: bv16): bv16
    requires i < 256
  {
    CRC_TABLE[(i >> 4) as int][(i & 0xF) as int]
  }

  /** The value the accumulator starts from. */
  const CRC_INIT: bv16 := 0xFFFF

  /** One byte of the table-driven algorithm: the byte, combined with the low
      byte of the accumulator, picks a table entry, which is folded into the
      accumulator shifted down by eight bits. It agrees with one byte of the
      bitwise algorithm, for every accumulator and byte. */
  function CrcStep(crc: bv16, b: bv8): (r: bv16)
    ensures r == BitwiseStep(crc, b)
  {
    TableIsReflectedA001();
    assert (b as bv16) ^ (crc & 0xFF) == (crc ^ b as bv16) & 0xFF;
    assert (crc ^ b as bv16) >> 8 == crc >> 8;
    Shift8Split(crc ^ b as bv16);
    var index := (b as bv16) ^ (crc & 0xFF);
    (crc >> 8) ^ TableAt(index)
  }

  /** The accumulator after folding the bytes of `s` into `crc`, first byte
      first: from any accumulator, the bitwise fold over the same bytes. */
  function CrcFrom(crc: bv16, s: seq<bv8>): (r: bv16)
    ensures r == BitwiseCrcFrom(crc, s)
    decreases |s|
  {
    if s == [] then crc else CrcFrom(CrcStep(crc, s[0]), s[1..])
  }

  /** The CRC of a byte sequence: CRC-16/MODBUS, the bitwise CRC from 0xFFFF.
      A 16-bit value by its type; 0xFFFF for no bytes. */
  function Crc16(s: seq<bv8>): (r: bv16)
    ensures r == BitwiseCrc16(s)
    ensures s == [] ==> r == 0xFFFF
  {
    CrcFrom(CRC_INIT, s)
  }

  /** The source's loop: one accumulator, reassigned once per byte. */
  method CalCrc(data: seq<bv8>) returns (crc: bv16)
    ensures crc == Crc16(data)
  {
    crc := CRC_INIT;
    for i := 0 to |data|
      invariant CrcFrom(crc, data[i..]) == Crc16(data)
    {
      crc := CrcStep(crc, data[i]);
    }
  }

  /** Folding a concatenation folds the first part, then the second. */
  lemma {:induction false} CrcFromConcat(crc: bv16, s: seq<bv8>, t: seq<bv8>)
    ensures CrcFrom(crc, s + t) == CrcFrom(CrcFrom(crc, s), t)
    decreases |s|
  {
    if s == [] {
      assert s + t == t;
    } else {
      assert (s + t)[1..] == s[1..] + t;
      CrcFromConcat(CrcStep(crc, s[0]), s[1..], t);
    }
  }

  /** Appending a byte applies one table step to the CRC of what came before. */
  lemma CrcAppend(s: seq<bv8>, b: bv8)
    ensures Crc16(s + [b]) == CrcStep(Crc16(s), b)
  {
    CrcFromConcat(CRC_INIT, s, [b]);
  }

  lemma CrcFromCons(crc: bv16, b: bv8, rest: seq<bv8>)
    ensures CrcFrom(crc, [b] + rest) == CrcFrom(CrcStep(crc, b), rest)
  {
    assert ([b] + rest)[1..] == rest;
  }

  // ----- The bitwise algorithm of section 6.2.2 of the MODBUS over Serial
  // ----- Line Specification V1.02, as an independent reference -----

  /** One shift: shift right by one bit and, when the bit shifted out was 1,
      exclusive-or the polynomial 0xA001 in (`0 - (crc & 1)` is all ones
      exactly when that bit is 1). */
  function Shift(crc: bv16): bv16
  {
    (crc >> 1) ^ (0xA001 & (0 - (crc & 1)))
  }

  /** Eight shifts, one byte's worth. */
  function Shift8(crc: bv16): bv16
  {
    Shift(Shift(Shift(Shift(Shift(Shift(Shift(Shift(crc))))))))
  }

  /** One byte of the bitwise algorithm: exclusive-or the byte into the low
      byte of the accumulator, then shift eight times. */
  function BitwiseStep(crc: bv16, b: bv8): bv16
  {
    Shift8(crc ^ b as bv16)
  }

  /** The bitwise accumulator after folding the bytes of `s` into `crc`. */
  function BitwiseCrcFrom(crc: bv16, s: seq<bv8>): bv16
    decreases |s|
  {
    if s == [] then crc else BitwiseCrcFrom(BitwiseStep(crc, s[0]), s[1..])
  }

  /** The CRC computed bit by bit, with no table. */
  function BitwiseCrc16(s: seq<bv8>): bv16
  {
    BitwiseCrcFrom(CRC_INIT, s)
  }

  /** What a table built from the polynomial holds at index `i` (below 256). */
  function TableEntry(i: bv16): bv16
  {
    Shift8(i)
  }

  lemma TableRow0()
    ensures forall i: bv16 :: 0 <= i < 16 ==> TableAt(i) == TableEntry(i)
  {
    assert TableAt(0x00) == TableEntry(0x00);
    assert TableAt(0x01) == TableEntry(0x01);
    assert TableAt(0x02) == TableEntry(0x02);
    assert TableAt(0x03) == TableEntry(0x03);
    assert TableAt(0x04) == TableEntry(0x04);
    assert TableAt(0x05) == TableEntry(0x05);
    assert TableAt(0x06) == TableEntry(0x06);
    assert TableAt(0x07) == TableEntry(0x07);
    assert TableAt(0x08) == TableEntry(0x08);
    assert TableAt(0x09) == TableEntry(0x09);
    assert TableAt(0x0A) == TableEntry(0x0A);
    assert TableAt(0x0B) == TableEntry(0x0B);
    assert TableAt(0x0C) == TableEntry(0x0C);
    assert TableAt(0x0D) == TableEntry(0x0D);
    assert TableAt(0x0E) == TableEntry(0x0E);
    assert TableAt(0x0F) == TableEntry(0x0F);
  }

  lemma TableRow1()
    ensures forall i: bv16 :: 16 <= i < 32 ==> TableAt(i) == TableEntry(i)
  {
    assert TableAt(0x10) == TableEntry(0x10);
    assert TableAt(0x11) == TableEntry(0x11);
    assert TableAt(0x12) == TableEntry(0x12);
    assert TableAt(0x13) == TableEntry(0x13);
    assert TableAt(0x14) == TableEntry(0x14);
    assert TableAt(0x15) == TableEntry(0x15);
    assert TableAt(0x16) == TableEntry(0x16);
    assert TableAt(0x17) == TableEntry(0x17);
    assert TableAt(0x18) == TableEntry(0x18);
    assert TableAt(0x19) == TableEntry(0x19);
    assert TableAt(0x1A) == TableEntry(0x1A);
    assert TableAt(0x1B) == TableEntry(0x1B);
    assert TableAt(0x1C) == TableEntry(0x1C);
    assert TableAt(0x1D) == TableEntry(0x1D);
    assert TableAt(0x1E) == TableEntry(0x1E);
    assert TableAt(0x1F) == TableEntry(0x1F);
  }

  lemma TableRow2()
    ensures forall i: bv16 :: 32 <= i < 48 ==> TableAt(i) == TableEntry(i)
  {
    assert TableAt(0x20) == TableEntry(0x20);
    assert TableAt(0x21) == TableEntry(0x21);
    assert TableAt(0x22) == TableEntry(0x22);
    assert TableAt(0x23) == TableEntry(0x23);
    assert TableAt(0x24) == TableEntry(0x24);
    assert TableAt(0x25) == TableEntry(0x25);
    assert TableAt(0x26) == TableEntry(0x26);
    assert TableAt(0x27) == TableEntry(0x27);
    assert TableAt(0x28) == TableEntry(0x28);
    assert TableAt(0x29) == TableEntry(0x29);
    assert TableAt(0x2A) == TableEntry(0x2A);
    assert TableAt(0x2B) == TableEntry(0x2B);
    assert TableAt(0x2C) == TableEntry(0x2C);
    assert TableAt(0x2D) == TableEntry(0x2D);
    assert TableAt(0x2E) == TableEntry(0x2E);
    assert TableAt(0x2F) == TableEntry(0x2F);
  }

  lemma TableRow3()
    ensures forall i: bv16 :: 48 <= i < 64 ==> TableAt(i) == TableEntry(i)
  {
    assert TableAt(0x30) == TableEntry(0x30);
    assert TableAt(0x31) == TableEntry(0x31);
    assert TableAt(0x32) == TableEntry(0x32);
    assert TableAt(0x33) == TableEntry(0x33);
    assert TableAt(0x34) == TableEntry(0x34);
    assert TableAt(0x35) == TableEntry(0x35);
    assert TableAt(0x36) == TableEntry(0x36);
    assert TableAt(0x37) == TableEntry(0x37);
    assert TableAt(0x38) == TableEntry(0x38);
    assert TableAt(0x39) == TableEntry(0x39);
    assert TableAt(0x3A) == TableEntry(0x3A);
    assert TableAt(0x3B) == TableEntry(0x3B);
    assert TableAt(0x3C) == TableEntry(0x3C);
    assert TableAt(0x3D) == TableEntry(0x3D);
    assert TableAt(0x3E) == TableEntry(0x3E);
    assert TableAt(0x3F) == TableEntry(0x3F);
  }

  lemma TableRow4()
    ensures forall i: bv16 :: 64 <= i < 80 ==> TableAt(i) == TableEntry(i)
  {
    assert TableAt(0x40) == TableEntry(0x40);
    assert TableAt(0x41) == TableEntry(0x41);
    assert TableAt(0x42) == TableEntry(0x42);
    assert TableAt(0x43) == TableEntry(0x43);
    assert TableAt(0x44) == TableEntry(0x44);
    assert TableAt(0x45) == TableEntry(0x45);
    assert TableAt(0x46) == TableEntry(0x46);
    assert TableAt(0x47) == TableEntry(0x47);
    assert TableAt(0x48) == TableEntry(0x48);
    assert TableAt(0x49) == TableEntry(0x49);
    assert TableAt(0x4A) == TableEntry(0x4A);
    assert TableAt(0x4B) == TableEntry(0x4B);
    assert TableAt(0x4C) == TableEntry(0x4C);
    assert TableAt(0x4D) == TableEntry(0x4D);
    assert TableAt(0x4E) == TableEntry(0x4E);
    assert TableAt(0x4F) == TableEntry(0x4F);
  }

  lemma TableRow5()
    ensures forall i: bv16 :: 80 <= i < 96 ==> TableAt(i) == TableEntry(i)
  {
    assert TableAt(0x50) == TableEntry(0x50);
    assert TableAt(0x51) == TableEntry(0x51);
    assert TableAt(0x52) == TableEntry(0x52);
    assert TableAt(0x53) == TableEntry(0x53);
    assert TableAt(0x54) == TableEntry(0x54);
    assert TableAt(0x55) == TableEntry(0x55);
    assert TableAt(0x56) == TableEntry(0x56);
    assert TableAt(0x57) == TableEntry(0x57);
    assert TableAt(0x58) == TableEntry(0x58);
    assert TableAt(0x59) == TableEntry(0x59);
    assert TableAt(0x5A) == TableEntry(0x5A);
    assert TableAt(0x5B) == TableEntry(0x5B);
    assert TableAt(0x5C) == TableEntry(0x5C);
    assert TableAt(0x5D) == TableEntry(0x5D);
    assert TableAt(0x5E) == TableEntry(0x5E);
    assert TableAt(0x5F) == TableEntry(0x5F);
  }

  lemma TableRow6()
    ensures forall i: bv16 :: 96 <= i < 112 ==> TableAt(i) == TableEntry(i)
  {
    assert TableAt(0x60) == TableEntry(0x60);
    assert TableAt(0x61) == TableEntry(0x61);
    assert TableAt(0x62) == TableEntry(0x62);
    assert TableAt(0x63) == TableEntry(0x63);
    assert TableAt(0x64) == TableEntry(0x64);
    assert TableAt(0x65) == TableEntry(0x65);
    assert TableAt(0x66) == TableEntry(0x66);
    assert TableAt(0x67) == TableEntry(0x67);
    assert TableAt(0x68) == TableEntry(0x68);
    assert TableAt(0x69) == TableEntry(0x69);
    assert TableAt(0x6A) == TableEntry(0x6A);
    assert TableAt(0x6B) == TableEntry(0x6B);
    assert TableAt(0x6C) == TableEntry(0x6C);
    assert TableAt(0x6D) == TableEntry(0x6D);
    assert TableAt(0x6E) == TableEntry(0x6E);
    assert TableAt(0x6F) == TableEntry(0x6F);
  }

  lemma TableRow7()
    ensures forall i: bv16 :: 112 <= i < 128 ==> TableAt(i) == TableEntry(i)
  {
    assert TableAt(0x70) == TableEntry(0x70);
    assert TableAt(0x71) == TableEntry(0x71);
    assert TableAt(0x72) == TableEntry(0x72);
    assert TableAt(0x73) == TableEntry(0x73);
    assert TableAt(0x74) == TableEntry(0x74);
    assert TableAt(0x75) == TableEntry(0x75);
    assert TableAt(0x76) == TableEntry(0x76);
    assert TableAt(0x77) == TableEntry(0x77);
    assert TableAt(0x78) == TableEntry(0x78);
    assert TableAt(0x79) == TableEntry(0x79);
    assert TableAt(0x7A) == TableEntry(0x7A);
    assert TableAt(0x7B) == TableEntry(0x7B);
    assert TableAt(0x7C) == TableEntry(0x7C);
    assert TableAt(0x7D) == TableEntry(0x7D);
    assert TableAt(0x7E) == TableEntry(0x7E);
    assert TableAt(0x7F) == TableEntry(0x7F);
  }

  lemma TableRow8()
    ensures forall i: bv16 :: 128 <= i < 144 ==> TableAt(i) == TableEntry(i)
  {
    assert TableAt(0x80) == TableEntry(0x80);
    assert TableAt(0x81) == TableEntry(0x81);
    assert TableAt(0x82) == TableEntry(0x82);
    assert TableAt(0x83) == TableEntry(0x83);
    assert TableAt(0x84) == TableEntry(0x84);
    assert TableAt(0x85) == TableEntry(0x85);
    assert TableAt(0x86) == TableEntry(0x86);
    assert TableAt(0x87) == TableEntry(0x87);
    assert TableAt(0x88) == TableEntry(0x88);
    assert TableAt(0x89) == TableEntry(0x89);
    assert TableAt(0x8A) == TableEntry(0x8A);
    assert TableAt(0x8B) == TableEntry(0x8B);
    assert TableAt(0x8C) == TableEntry(0x8C);
    assert TableAt(0x8D) == TableEntry(0x8D);
    assert TableAt(0x8E) == TableEntry(0x8E);
    assert TableAt(0x8F) == TableEntry(0x8F);
  }

  lemma TableRow9()
    ensures forall i: bv16 :: 144 <= i < 160 ==> TableAt(i) == TableEntry(i)
  {
    assert TableAt(0x90) == TableEntry(0x90);
    assert TableAt(0x91) == TableEntry(0x91);
    assert TableAt(0x92) == TableEntry(0x92);
    assert TableAt(0x93) == TableEntry(0x93);
    assert TableAt(0x94) == TableEntry(0x94);
    assert TableAt(0x95) == TableEntry(0x95);
    assert TableAt(0x96) == TableEntry(0x96);
    assert TableAt(0x97) == TableEntry(0x97);
    assert TableAt(0x98) == TableEntry(0x98);
    assert TableAt(0x99) == TableEntry(0x99);
    assert TableAt(0x9A) == TableEntry(0x9A);
    assert TableAt(0x9B) == TableEntry(0x9B);
    assert TableAt(0x9C) == TableEntry(0x9C);
    assert TableAt(0x9D) == TableEntry(0x9D);
    assert TableAt(0x9E) == TableEntry(0x9E);
    assert TableAt(0x9F) == TableEntry(0x9F);
  }

  lemma TableRowA()
    ensures forall i: bv16 :: 160 <= i < 176 ==> TableAt(i) == TableEntry(i)
  {
    assert TableAt(0xA0) == TableEntry(0xA0);
    assert TableAt(0xA1) == TableEntry(0xA1);
    assert TableAt(0xA2) == TableEntry(0xA2);
    assert TableAt(0xA3) == TableEntry(0xA3);
    assert TableAt(0xA4) == TableEntry(0xA4);
    assert TableAt(0xA5) == TableEntry(0xA5);
    assert TableAt(0xA6) == TableEntry(0xA6);
    assert TableAt(0xA7) == TableEntry(0xA7);
    assert TableAt(0xA8) == TableEntry(0xA8);
    assert TableAt(0xA9) == TableEntry(0xA9);
    assert TableAt(0xAA) == TableEntry(0xAA);
    assert TableAt(0xAB) == TableEntry(0xAB);
    assert TableAt(0xAC) == TableEntry(0xAC);
    assert TableAt(0xAD) == TableEntry(0xAD);
    assert TableAt(0xAE) == TableEntry(0xAE);
    assert TableAt(0xAF) == TableEntry(0xAF);
  }

  lemma TableRowB()
    ensures forall i: bv16 :: 176 <= i < 192 ==> TableAt(i) == TableEntry(i)
  {
    assert TableAt(0xB0) == TableEntry(0xB0);
    assert TableAt(0xB1) == TableEntry(0xB1);
    assert TableAt(0xB2) == TableEntry(0xB2);
    assert TableAt(0xB3) == TableEntry(0xB3);
    assert TableAt(0xB4) == TableEntry(0xB4);
    assert TableAt(0xB5) == TableEntry(0xB5);
    assert TableAt(0xB6) == TableEntry(0xB6);
    assert TableAt(0xB7) == TableEntry(0xB7);
    assert TableAt(0xB8) == TableEntry(0xB8);
    assert TableAt(0xB9) == TableEntry(0xB9);
    assert TableAt(0xBA) == TableEntry(0xBA);
    assert TableAt(0xBB) == TableEntry(0xBB);
    assert TableAt(0xBC) == TableEntry(0xBC);
    assert TableAt(0xBD) == TableEntry(0xBD);
    assert TableAt(0xBE) == TableEntry(0xBE);
    assert TableAt(0xBF) == TableEntry(0xBF);
  }

  lemma TableRowC()
    ensures forall i: bv16 :: 192 <= i < 208 ==> TableAt(i) == TableEntry(i)
  {
    assert TableAt(0xC0) == TableEntry(0xC0);
    assert TableAt(0xC1) == TableEntry(0xC1);
    assert TableAt(0xC2) == TableEntry(0xC2);
    assert TableAt(0xC3) == TableEntry(0xC3);
    assert TableAt(0xC4) == TableEntry(0xC4);
    assert TableAt(0xC5) == TableEntry(0xC5);
    assert TableAt(0xC6) == TableEntry(0xC6);
    assert TableAt(0xC7) == TableEntry(0xC7);
    assert TableAt(0xC8) == TableEntry(0xC8);
    assert TableAt(0xC9) == TableEntry(0xC9);
    assert TableAt(0xCA) == TableEntry(0xCA);
    assert TableAt(0xCB) == TableEntry(0xCB);
    assert TableAt(0xCC) == TableEntry(0xCC);
    assert TableAt(0xCD) == TableEntry(0xCD);
    assert TableAt(0xCE) == TableEntry(0xCE);
    assert TableAt(0xCF) == TableEntry(0xCF);
  }

  lemma TableRowD()
    ensures forall i: bv16 :: 208 <= i < 224 ==> TableAt(i) == TableEntry(i)
  {
    assert TableAt(0xD0) == TableEntry(0xD0);
    assert TableAt(0xD1) == TableEntry(0xD1);
    assert TableAt(0xD2) == TableEntry(0xD2);
    assert TableAt(0xD3) == TableEntry(0xD3);
    assert TableAt(0xD4) == TableEntry(0xD4);
    assert TableAt(0xD5) == TableEntry(0xD5);
    assert TableAt(0xD6) == TableEntry(0xD6);
    assert TableAt(0xD7) == TableEntry(0xD7);
    assert TableAt(0xD8) == TableEntry(0xD8);
    assert TableAt(0xD9) == TableEntry(0xD9);
    assert TableAt(0xDA) == TableEntry(0xDA);
    assert TableAt(0xDB) == TableEntry(0xDB);
    assert TableAt(0xDC) == TableEntry(0xDC);
    assert TableAt(0xDD) == TableEntry(0xDD);
    assert TableAt(0xDE) == TableEntry(0xDE);
    assert TableAt(0xDF) == TableEntry(0xDF);
  }

  lemma TableRowE()
    ensures forall i: bv16 :: 224 <= i < 240 ==> TableAt(i) == TableEntry(i)
  {
    assert TableAt(0xE0) == TableEntry(0xE0);
    assert TableAt(0xE1) == TableEntry(0xE1);
    assert TableAt(0xE2) == TableEntry(0xE2);
    assert TableAt(0xE3) == TableEntry(0xE3);
    assert TableAt(0xE4) == TableEntry(0xE4);
    assert TableAt(0xE5) == TableEntry(0xE5);
    assert TableAt(0xE6) == TableEntry(0xE6);
    assert TableAt(0xE7) == TableEntry(0xE7);
    assert TableAt(0xE8) == TableEntry(0xE8);
    assert TableAt(0xE9) == TableEntry(0xE9);
    assert TableAt(0xEA) == TableEntry(0xEA);
    assert TableAt(0xEB) == TableEntry(0xEB);
    assert TableAt(0xEC) == TableEntry(0xEC);
    assert TableAt(0xED) == TableEntry(0xED);
    assert TableAt(0xEE) == TableEntry(0xEE);
    assert TableAt(0xEF) == TableEntry(0xEF);
  }

  lemma TableRowF()
    ensures forall i: bv16 :: 240 <= i < 256 ==> TableAt(i) == TableEntry(i)
  {
    assert TableAt(0xF0) == TableEntry(0xF0);
    assert TableAt(0xF1) == TableEntry(0xF1);
    assert TableAt(0xF2) == TableEntry(0xF2);
    assert TableAt(0xF3) == TableEntry(0xF3);
    assert TableAt(0xF4) == TableEntry(0xF4);
    assert TableAt(0xF5) == TableEntry(0xF5);
    assert TableAt(0xF6) == TableEntry(0xF6);
    assert TableAt(0xF7) == TableEntry(0xF7);
    assert TableAt(0xF8) == TableEntry(0xF8);
    assert TableAt(0xF9) == TableEntry(0xF9);
    assert TableAt(0xFA) == TableEntry(0xFA);
    assert TableAt(0xFB) == TableEntry(0xFB);
    assert TableAt(0xFC) == TableEntry(0xFC);
    assert TableAt(0xFD) == TableEntry(0xFD);
    assert TableAt(0xFE) == TableEntry(0xFE);
    assert TableAt(0xFF) == TableEntry(0xFF);
  }

  /** The literal table is the one generated from the polynomial 0xA001. */
  lemma TableIsReflectedA001()
    ensures forall i: bv16 :: i < 256 ==> TableAt(i) == TableEntry(i)
  {
    TableRow0();
    TableRow1();
    TableRow2();
    TableRow3();
    TableRow4();
    TableRow5();
    TableRow6();
    TableRow7();
    TableRow8();
    TableRow9();
    TableRowA();
    TableRowB();
    TableRowC();
    TableRowD();
    TableRowE();
    TableRowF();
  }

  /** Eight shifts act on the high byte by moving it down and on the low
      byte through the table: the identity that makes a table possible. */
  lemma Shift8Split(x: bv16)
    ensures Shift8(x) == (x >> 8) ^ Shift8(x & 0xFF)
  {
  }

  // ----- Known values -----

  /** The table steps for the first three bytes of `FE 05 00 00 FF 00`. */
  lemma WriteDoStepsHead()
    ensures CrcStep(0xFFFF, 0xFE) == 0xC03E
    ensures CrcStep(0xC03E, 0x05) == 0xD381
    ensures CrcStep(0xD381, 0x00) == 0x6013
  {
  }

  /** The table steps for the last three bytes of `FE 05 00 00 FF 00`. */
  lemma WriteDoStepsTail()
    ensures CrcStep(0x6013, 0x00) == 0xCD21
    ensures CrcStep(0xCD21, 0xFF) == 0x584D
    ensures CrcStep(0x584D, 0x00) == 0x3598
  {
  }

  /** The request `FE 05 00 00 FF 00` (switch on coil 0 of slave 254) has
   *  CRC 0x3598, sent as `98 35`. */
  lemma CrcWriteDoVector()
    ensures Crc16([0xFE, 0x05, 0x00, 0x00, 0xFF, 0x00]) == 0x3598
  {
    WriteDoStepsHead();
    WriteDoStepsTail();
    CrcFromCons(0xFFFF, 0xFE, [0x05, 0x00, 0x00, 0xFF, 0x00]);
    CrcFromCons(0xC03E, 0x05, [0x00, 0x00, 0xFF, 0x00]);
    CrcFromCons(0xD381, 0x00, [0x00, 0xFF, 0x00]);
    CrcFromCons(0x6013, 0x00, [0xFF, 0x00]);
    CrcFromCons(0xCD21, 0xFF, [0x00]);
    CrcFromCons(0x584D, 0x00, []);
  }

  /** The table steps for the bytes of `FE 01 01 0F`. */
  lemma ReadCoilsSteps()
    ensures CrcStep(0xFFFF, 0xFE) == 0xC03E
    ensures CrcStep(0xC03E, 0x01) == 0x1080
    ensures CrcStep(0x1080, 0x01) == 0x60D0
    ensures CrcStep(0x60D0, 0x0F) == 0x9821
  {
  }

  /** The read-coils response `FE 01 01 0F` (one byte of coil states, 0x0F) has CRC 0x9821, sent as `21 98`. */
  lemma CrcReadCoilsResponseVector()
    ensures Crc16([0xFE, 0x01, 0x01, 0x0F]) == 0x9821
  {
    ReadCoilsSteps();
    CrcFromCons(0xFFFF, 0xFE, [0x01, 0x01, 0x0F]);
    CrcFromCons(0xC03E, 0x01, [0x01, 0x0F]);
    CrcFromCons(0x1080, 0x01, [0x0F]);
    CrcFromCons(0x60D0, 0x0F, []);
  }
}
