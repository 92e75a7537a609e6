/** The message checksum: CRC-16 with the reflected polynomial 0x8005. */
module Crc {

  type Byte = bv8

  // ----- the specification: one bit at a time -----

  /** A shift to the right, with the polynomial added if a bit falls out. */
  function BitStep(poly: bv16, c: bv16): bv16 {
    if Odd(c) then Xor(poly, Half(c)) else Half(c)
  }

  predicate Odd(w: bv16) {
    w & 1 != 0
  }

  function Half(w: bv16): bv16 {
    w >> 1
  }

  function Xor(a: bv16, b: bv16): bv16 {
    a ^ b
  }

  const POLYNOMIAL: bv16 := 0x8005
  const REFLECTED: bv16 := 0xA001

  function Steps(poly: bv16, c: bv16, n: nat): bv16
    decreases n
  {
    if n == 0 then c else Steps(poly, BitStep(poly, c), n - 1)
  }

  /** MODBUS over Serial Line V1.02, section 6.2.2: each byte is added to the low half
      of the register and shifted out in eight steps. */
  function BitSerial(c: bv16, data: seq<Byte>): bv16
    decreases |data|
  {
    if data == [] then c else BitSerial(ByteStep(c, data[0]), data[1..])
  }

  function ByteStep(c: bv16, b: Byte): bv16 {
    Steps(REFLECTED, Xor(c, b as bv16), 8)
  }

  // ----- the fast form -----

  /** MbTable, by rows of sixteen. */
  function MbTable(n: bv16): bv16 {
    if n < 0x10 then MbRow0(n & 0xF)
    else if n < 0x20 then MbRow1(n & 0xF)
    else if n < 0x30 then MbRow2(n & 0xF)
    else if n < 0x40 then MbRow3(n & 0xF)
    else if n < 0x50 then MbRow4(n & 0xF)
    else if n < 0x60 then MbRow5(n & 0xF)
    else if n < 0x70 then MbRow6(n & 0xF)
    else if n < 0x80 then MbRow7(n & 0xF)
    else if n < 0x90 then MbRow8(n & 0xF)
    else if n < 0xa0 then MbRow9(n & 0xF)
    else if n < 0xb0 then MbRow10(n & 0xF)
    else if n < 0xc0 then MbRow11(n & 0xF)
    else if n < 0xd0 then MbRow12(n & 0xF)
    else if n < 0xe0 then MbRow13(n & 0xF)
    else if n < 0xf0 then MbRow14(n & 0xF)
    else MbRow15(n & 0xF)
  }

  function MbRow0(k: bv16): bv16 {
    if k == 0 then 0x0000 else if k == 1 then 0xC0C1 else if k == 2 then 0xC181 else if k == 3 then 0x0140
    else if k == 4 then 0xC301 else if k == 5 then 0x03C0 else if k == 6 then 0x0280 else if k == 7 then 0xC241
    else if k == 8 then 0xC601 else if k == 9 then 0x06C0 else if k == 10 then 0x0780 else if k == 11 then 0xC741
    else if k == 12 then 0x0500 else if k == 13 then 0xC5C1 else if k == 14 then 0xC481 else 0x0440
  }

  function MbRow1(k: bv16): bv16 {
    if k == 0 then 0xCC01 else if k == 1 then 0x0CC0 else if k == 2 then 0x0D80 else if k == 3 then 0xCD41
    else if k == 4 then 0x0F00 else if k == 5 then 0xCFC1 else if k == 6 then 0xCE81 else if k == 7 then 0x0E40
    else if k == 8 then 0x0A00 else if k == 9 then 0xCAC1 else if k == 10 then 0xCB81 else if k == 11 then 0x0B40
    else if k == 12 then 0xC901 else if k == 13 then 0x09C0 else if k == 14 then 0x0880 else 0xC841
  }

  function MbRow2(k: bv16): bv16 {
    if k == 0 then 0xD801 else if k == 1 then 0x18C0 else if k == 2 then 0x1980 else if k == 3 then 0xD941
    else if k == 4 then 0x1B00 else if k == 5 then 0xDBC1 else if k == 6 then 0xDA81 else if k == 7 then 0x1A40
    else if k == 8 then 0x1E00 else if k == 9 then 0xDEC1 else if k == 10 then 0xDF81 else if k == 11 then 0x1F40
    else if k == 12 then 0xDD01 else if k == 13 then 0x1DC0 else if k == 14 then 0x1C80 else 0xDC41
  }

  function MbRow3(k: bv16): bv16 {
    if k == 0 then 0x1400 else if k == 1 then 0xD4C1 else if k == 2 then 0xD581 else if k == 3 then 0x1540
    else if k == 4 then 0xD701 else if k == 5 then 0x17C0 else if k == 6 then 0x1680 else if k == 7 then 0xD641
    else if k == 8 then 0xD201 else if k == 9 then 0x12C0 else if k == 10 then 0x1380 else if k == 11 then 0xD341
    else if k == 12 then 0x1100 else if k == 13 then 0xD1C1 else if k == 14 then 0xD081 else 0x1040
  }

  function MbRow4(k: bv16): bv16 {
    if k == 0 then 0xF001 else if k == 1 then 0x30C0 else if k == 2 then 0x3180 else if k == 3 then 0xF141
    else if k == 4 then 0x3300 else if k == 5 then 0xF3C1 else if k == 6 then 0xF281 else if k == 7 then 0x3240
    else if k == 8 then 0x3600 else if k == 9 then 0xF6C1 else if k == 10 then 0xF781 else if k == 11 then 0x3740
    else if k == 12 then 0xF501 else if k == 13 then 0x35C0 else if k == 14 then 0x3480 else 0xF441
  }

  function MbRow5(k: bv16): bv16 {
    if k == 0 then 0x3C00 else if k == 1 then 0xFCC1 else if k == 2 then 0xFD81 else if k == 3 then 0x3D40
    else if k == 4 then 0xFF01 else if k == 5 then 0x3FC0 else if k == 6 then 0x3E80 else if k == 7 then 0xFE41
    else if k == 8 then 0xFA01 else if k == 9 then 0x3AC0 else if k == 10 then 0x3B80 else if k == 11 then 0xFB41
    else if k == 12 then 0x3900 else if k == 13 then 0xF9C1 else if k == 14 then 0xF881 else 0x3840
  }

  function MbRow6(k: bv16): bv16 {
    if k == 0 then 0x2800 else if k == 1 then 0xE8C1 else if k == 2 then 0xE981 else if k == 3 then 0x2940
    else if k == 4 then 0xEB01 else if k == 5 then 0x2BC0 else if k == 6 then 0x2A80 else if k == 7 then 0xEA41
    else if k == 8 then 0xEE01 else if k == 9 then 0x2EC0 else if k == 10 then 0x2F80 else if k == 11 then 0xEF41
    else if k == 12 then 0x2D00 else if k == 13 then 0xEDC1 else if k == 14 then 0xEC81 else 0x2C40
  }

  function MbRow7(k: bv16): bv16 {
    if k == 0 then 0xE401 else if k == 1 then 0x24C0 else if k == 2 then 0x2580 else if k == 3 then 0xE541
    else if k == 4 then 0x2700 else if k == 5 then 0xE7C1 else if k == 6 then 0xE681 else if k == 7 then 0x2640
    else if k == 8 then 0x2200 else if k == 9 then 0xE2C1 else if k == 10 then 0xE381 else if k == 11 then 0x2340
    else if k == 12 then 0xE101 else if k == 13 then 0x21C0 else if k == 14 then 0x2080 else 0xE041
  }

  function MbRow8(k: bv16): bv16 {
    if k == 0 then 0xA001 else if k == 1 then 0x60C0 else if k == 2 then 0x6180 else if k == 3 then 0xA141
    else if k == 4 then 0x6300 else if k == 5 then 0xA3C1 else if k == 6 then 0xA281 else if k == 7 then 0x6240
    else if k == 8 then 0x6600 else if k == 9 then 0xA6C1 else if k == 10 then 0xA781 else if k == 11 then 0x6740
    else if k == 12 then 0xA501 else if k == 13 then 0x65C0 else if k == 14 then 0x6480 else 0xA441
  }

  function MbRow9(k: bv16): bv16 {
    if k == 0 then 0x6C00 else if k == 1 then 0xACC1 else if k == 2 then 0xAD81 else if k == 3 then 0x6D40
    else if k == 4 then 0xAF01 else if k == 5 then 0x6FC0 else if k == 6 then 0x6E80 else if k == 7 then 0xAE41
    else if k == 8 then 0xAA01 else if k == 9 then 0x6AC0 else if k == 10 then 0x6B80 else if k == 11 then 0xAB41
    else if k == 12 then 0x6900 else if k == 13 then 0xA9C1 else if k == 14 then 0xA881 else 0x6840
  }

  function MbRow10(k: bv16): bv16 {
    if k == 0 then 0x7800 else if k == 1 then 0xB8C1 else if k == 2 then 0xB981 else if k == 3 then 0x7940
    else if k == 4 then 0xBB01 else if k == 5 then 0x7BC0 else if k == 6 then 0x7A80 else if k == 7 then 0xBA41
    else if k == 8 then 0xBE01 else if k == 9 then 0x7EC0 else if k == 10 then 0x7F80 else if k == 11 then 0xBF41
    else if k == 12 then 0x7D00 else if k == 13 then 0xBDC1 else if k == 14 then 0xBC81 else 0x7C40
  }

  function MbRow11(k: bv16): bv16 {
    if k == 0 then 0xB401 else if k == 1 then 0x74C0 else if k == 2 then 0x7580 else if k == 3 then 0xB541
    else if k == 4 then 0x7700 else if k == 5 then 0xB7C1 else if k == 6 then 0xB681 else if k == 7 then 0x7640
    else if k == 8 then 0x7200 else if k == 9 then 0xB2C1 else if k == 10 then 0xB381 else if k == 11 then 0x7340
    else if k == 12 then 0xB101 else if k == 13 then 0x71C0 else if k == 14 then 0x7080 else 0xB041
  }

  function MbRow12(k: bv16): bv16 {
    if k == 0 then 0x5000 else if k == 1 then 0x90C1 else if k == 2 then 0x9181 else if k == 3 then 0x5140
    else if k == 4 then 0x9301 else if k == 5 then 0x53C0 else if k == 6 then 0x5280 else if k == 7 then 0x9241
    else if k == 8 then 0x9601 else if k == 9 then 0x56C0 else if k == 10 then 0x5780 else if k == 11 then 0x9741
    else if k == 12 then 0x5500 else if k == 13 then 0x95C1 else if k == 14 then 0x9481 else 0x5440
  }

  function MbRow13(k: bv16): bv16 {
    if k == 0 then 0x9C01 else if k == 1 then 0x5CC0 else if k == 2 then 0x5D80 else if k == 3 then 0x9D41
    else if k == 4 then 0x5F00 else if k == 5 then 0x9FC1 else if k == 6 then 0x9E81 else if k == 7 then 0x5E40
    else if k == 8 then 0x5A00 else if k == 9 then 0x9AC1 else if k == 10 then 0x9B81 else if k == 11 then 0x5B40
    else if k == 12 then 0x9901 else if k == 13 then 0x59C0 else if k == 14 then 0x5880 else 0x9841
  }

  function MbRow14(k: bv16): bv16 {
    if k == 0 then 0x8801 else if k == 1 then 0x48C0 else if k == 2 then 0x4980 else if k == 3 then 0x8941
    else if k == 4 then 0x4B00 else if k == 5 then 0x8BC1 else if k == 6 then 0x8A81 else if k == 7 then 0x4A40
    else if k == 8 then 0x4E00 else if k == 9 then 0x8EC1 else if k == 10 then 0x8F81 else if k == 11 then 0x4F40
    else if k == 12 then 0x8D01 else if k == 13 then 0x4DC0 else if k == 14 then 0x4C80 else 0x8C41
  }

  function MbRow15(k: bv16): bv16 {
    if k == 0 then 0x4400 else if k == 1 then 0x84C1 else if k == 2 then 0x8581 else if k == 3 then 0x4540
    else if k == 4 then 0x8701 else if k == 5 then 0x47C0 else if k == 6 then 0x4680 else if k == 7 then 0x8641
    else if k == 8 then 0x8201 else if k == 9 then 0x42C0 else if k == 10 then 0x4380 else if k == 11 then 0x8341
    else if k == 12 then 0x4100 else if k == 13 then 0x81C1 else if k == 14 then 0x8081 else 0x4040
  }

  /** Eight bit steps, written out. */
  function Eight(poly: bv16, c: bv16): bv16 {
    Two(poly, Two(poly, Two(poly, Two(poly, c))))
  }

  function Two(poly: bv16, c: bv16): bv16 {
    BitStep(poly, BitStep(poly, c))
  }

  lemma EightSteps(poly: bv16, c: bv16)
    ensures Steps(poly, c, 8) == Eight(poly, c)
  {
    hide BitStep;
    assert Steps(poly, c, 8) == Steps(poly, Two(poly, c), 6);
    assert Steps(poly, Two(poly, c), 6) == Steps(poly, Two(poly, Two(poly, c)), 4);
    var c4 := Two(poly, Two(poly, c));
    assert Steps(poly, c4, 4) == Steps(poly, Two(poly, c4), 2);
    assert Steps(poly, Two(poly, c4), 2) == Two(poly, Two(poly, c4));
  }

  lemma Row0(k: bv16)
    requires k < 16
    ensures MbRow0(k) == Eight(REFLECTED, 0x00 + k)
  {
  }

  lemma Row1(k: bv16)
    requires k < 16
    ensures MbRow1(k) == Eight(REFLECTED, 0x10 + k)
  {
  }

  lemma Row2(k: bv16)
    requires k < 16
    ensures MbRow2(k) == Eight(REFLECTED, 0x20 + k)
  {
  }

  lemma Row3(k: bv16)
    requires k < 16
    ensures MbRow3(k) == Eight(REFLECTED, 0x30 + k)
  {
  }

  lemma Row4(k: bv16)
    requires k < 16
    ensures MbRow4(k) == Eight(REFLECTED, 0x40 + k)
  {
  }

  lemma Row5(k: bv16)
    requires k < 16
    ensures MbRow5(k) == Eight(REFLECTED, 0x50 + k)
  {
  }

  lemma Row6(k: bv16)
    requires k < 16
    ensures MbRow6(k) == Eight(REFLECTED, 0x60 + k)
  {
  }

  lemma Row7(k: bv16)
    requires k < 16
    ensures MbRow7(k) == Eight(REFLECTED, 0x70 + k)
  {
  }

  lemma Row8(k: bv16)
    requires k < 16
    ensures MbRow8(k) == Eight(REFLECTED, 0x80 + k)
  {
  }

  lemma Row9(k: bv16)
    requires k < 16
    ensures MbRow9(k) == Eight(REFLECTED, 0x90 + k)
  {
  }

  lemma Row10(k: bv16)
    requires k < 16
    ensures MbRow10(k) == Eight(REFLECTED, 0xA0 + k)
  {
  }

  lemma Row11(k: bv16)
    requires k < 16
    ensures MbRow11(k) == Eight(REFLECTED, 0xB0 + k)
  {
  }

  lemma Row12(k: bv16)
    requires k < 16
    ensures MbRow12(k) == Eight(REFLECTED, 0xC0 + k)
  {
  }

  lemma Row13(k: bv16)
    requires k < 16
    ensures MbRow13(k) == Eight(REFLECTED, 0xD0 + k)
  {
  }

  lemma Row14(k: bv16)
    requires k < 16
    ensures MbRow14(k) == Eight(REFLECTED, 0xE0 + k)
  {
  }

  lemma Row15(k: bv16)
    requires k < 16
    ensures MbRow15(k) == Eight(REFLECTED, 0xF0 + k)
  {
  }

  /** Every entry of the table is the register after eight steps from its index. */
  lemma TableIsBitSerial(n: bv16)
    requires n < 0x100
    ensures MbTable(n) == Steps(REFLECTED, n, 8)
  {
    hide Eight, Steps;
    hide MbRow0, MbRow1, MbRow2, MbRow3, MbRow4, MbRow5, MbRow6, MbRow7;
    hide MbRow8, MbRow9, MbRow10, MbRow11, MbRow12, MbRow13, MbRow14, MbRow15;
    EightSteps(REFLECTED, n);
    var k := n & 0xF;
    if n < 0x10 { Row0(k); }
    else if n < 0x20 { Row1(k); }
    else if n < 0x30 { Row2(k); }
    else if n < 0x40 { Row3(k); }
    else if n < 0x50 { Row4(k); }
    else if n < 0x60 { Row5(k); }
    else if n < 0x70 { Row6(k); }
    else if n < 0x80 { Row7(k); }
    else if n < 0x90 { Row8(k); }
    else if n < 0xA0 { Row9(k); }
    else if n < 0xB0 { Row10(k); }
    else if n < 0xC0 { Row11(k); }
    else if n < 0xD0 { Row12(k); }
    else if n < 0xE0 { Row13(k); }
    else if n < 0xF0 { Row14(k); }
    else { Row15(k); }
  }

  /** The step is linear over exclusive or. */
  lemma Linear(x: bv16, y: bv16)
    ensures BitStep(REFLECTED, Xor(x, y)) == Xor(BitStep(REFLECTED, x), BitStep(REFLECTED, y))
  {
    hide Xor, Half, Odd;
    HalfXor(x, y);
    OddXor(x, y);
    XorLaws(REFLECTED, Half(x), Half(y));
  }

  lemma HalfXor(x: bv16, y: bv16)
    ensures Half(Xor(x, y)) == Xor(Half(x), Half(y))
  {
  }

  lemma OddXor(x: bv16, y: bv16)
    ensures Odd(Xor(x, y)) == (Odd(x) != Odd(y))
  {
  }

  lemma XorLaws(p: bv16, x: bv16, y: bv16)
    ensures Xor(p, Xor(x, y)) == Xor(Xor(p, x), y)
    ensures Xor(p, Xor(x, y)) == Xor(x, Xor(p, y))
    ensures Xor(Xor(p, x), Xor(p, y)) == Xor(x, y)
  {
    XorAssociates(p, x, y);
    XorAssociates(x, p, y);
    XorSwap(p, x);
    XorCancels(p, x, y);
    hide Xor;
  }

  lemma XorAssociates(p: bv16, x: bv16, y: bv16)
    ensures Xor(p, Xor(x, y)) == Xor(Xor(p, x), y)
  {
  }

  lemma XorSwap(x: bv16, y: bv16)
    ensures Xor(x, y) == Xor(y, x)
  {
  }

  lemma XorCancels(p: bv16, x: bv16, y: bv16)
    ensures Xor(Xor(p, x), Xor(p, y)) == Xor(x, y)
  {
    assert (p ^ x) ^ (p ^ y) == x ^ y;
  }

  lemma TwoLinear(x: bv16, y: bv16)
    ensures Two(REFLECTED, Xor(x, y)) == Xor(Two(REFLECTED, x), Two(REFLECTED, y))
  {
    hide BitStep, Xor;
    Linear(x, y);
    Linear(BitStep(REFLECTED, x), BitStep(REFLECTED, y));
  }

  lemma EightLinear(x: bv16, y: bv16)
    ensures Eight(REFLECTED, Xor(x, y)) == Xor(Eight(REFLECTED, x), Eight(REFLECTED, y))
  {
    hide Two, Xor;
    TwoLinear(x, y);
    var x1, y1 := Two(REFLECTED, x), Two(REFLECTED, y);
    TwoLinear(x1, y1);
    var x2, y2 := Two(REFLECTED, x1), Two(REFLECTED, y1);
    TwoLinear(x2, y2);
    TwoLinear(Two(REFLECTED, x2), Two(REFLECTED, y2));
  }

  function High(w: bv16): bv16 {
    w >> 8
  }

  function LowHalf(w: bv16): bv16 {
    w & 0xFF
  }

  lemma HighHalf(c: bv16)
    ensures Eight(REFLECTED, c & 0xFF00) == High(c)
  {
  }

  /** Eight steps move the high half down and depend on the low half through the table. */
  lemma EightSplit(c: bv16)
    ensures Eight(REFLECTED, c) == Xor(High(c), Eight(REFLECTED, LowHalf(c)))
  {
    hide Eight;
    HighHalf(c);
    EightLinear(c & 0xFF00, LowHalf(c));
    Halves(c);
    hide High, LowHalf, Xor;
  }

  lemma Halves(c: bv16)
    ensures Xor(c & 0xFF00, LowHalf(c)) == c
  {
  }

  lemma LowByte(c: bv16, b: Byte)
    ensures High(Xor(c, b as bv16)) == High(c) && LowHalf(Xor(c, b as bv16)) < 0x100
  {
  }

  lemma FastByte(c: bv16, b: Byte)
    ensures ByteStep(c, b) == Xor(High(c), MbTable(LowHalf(Xor(c, b as bv16))))
  {
    hide MbTable, Steps, Eight, High, LowHalf, Xor;
    var x := Xor(c, b as bv16);
    LowByte(c, b);
    EightSteps(REFLECTED, x);
    EightSteps(REFLECTED, LowHalf(x));
    EightSplit(x);
    TableIsBitSerial(LowHalf(x));
  }

  /** One round of CRC::CheckSum. */
  method Absorb(byte: Byte, crc16: bv16) returns (r: bv16)
    ensures r == ByteStep(crc16, byte)
  {
    hide MbTable, ByteStep;
    FastByte(crc16, byte);
    var n := ((byte as bv16) ^ crc16) & 0xFF;
    assert n == LowHalf(Xor(crc16, byte as bv16));
    r := crc16 >> 8;
    r := r ^ MbTable(n);
  }

  /** CRC::CheckSum of the len bytes from a place in a buffer on. */
  method CheckSum(data: array<Byte>, start: nat, crc16: bv16, len: nat) returns (r: bv16)
    requires start + len <= data.Length
    ensures r == BitSerial(crc16, data[start..start + len])
  {
    hide ByteStep;
    r := crc16;
    for i := 0 to len
      invariant BitSerial(crc16, data[start..start + i]) == r
    {
      Append(crc16, data[start..start + i], [data[start + i]]);
      assert data[start..start + i + 1] == data[start..start + i] + [data[start + i]];
      r := Absorb(data[start + i], r);
    }
  }

  /** The checksum of a concatenation continues the checksum of the first part. */
  lemma {:induction false} Append(c: bv16, a: seq<Byte>, b: seq<Byte>)
    ensures BitSerial(c, a + b) == BitSerial(BitSerial(c, a), b)
    decreases |a|
  {
    hide ByteStep;
    if a == [] {
      assert a + b == b;
    } else {
      assert (a + b)[1..] == a[1..] + b;
      Append(ByteStep(c, a[0]), a[1..], b);
    }
  }

  // ----- the polynomial and the table filled by InitTable -----

  predicate Bit(w: bv16, k: bv16)
    requires k < 16
  {
    (w >> k) & 1 != 0
  }

  /** The bits of value from 17 - i up are those of word turned round; the rest are clear. */
  ghost predicate Turned(word: bv16, value: bv16, i: bv16)
    requires 1 <= i <= 17
  {
    forall k: bv16 | k < 16 :: Bit(value, k) == (k >= 17 - i && Bit(word, 15 - k))
  }

  /** CRC::Reverse turns the word round, bit by bit. */
  method Reverse(word: bv16) returns (value: bv16)
    ensures forall k: bv16 | k < 16 :: Bit(value, k) == Bit(word, 15 - k)
  {
    hide Bit, Turned, Rest;
    var data := word;
    value := 0;
    var i: bv16 := 1;
    NothingTurned(word);
    while i < 17
      invariant 1 <= i <= 17
      invariant data == Rest(word, i)
      invariant Turned(word, value, i)
      decreases 17 - i
    {
      ReverseStep(word, value, i);
      if data & 1 != 0 { value := value | (1 << (16 - i)); }
      data := data >> 1;
      i := i + 1;
    }
    AllTurned(word, value);
  }

  /** What is left of the word before round i. */
  function Rest(word: bv16, i: bv16): bv16
    requires 1 <= i <= 17
  {
    word >> (i - 1)
  }

  function OneAt(j: bv16): bv16
    requires j < 16
  {
    1 << j
  }

  function Placed(word: bv16, value: bv16, i: bv16): bv16
    requires 1 <= i < 17
  {
    if Rest(word, i) & 1 != 0 then value | OneAt(16 - i) else value
  }

  lemma NothingTurned(word: bv16)
    ensures Turned(word, 0, 1) && Rest(word, 1) == word
  {
    forall k: bv16 | k < 16
      ensures !Bit(0, k)
    {
    }
    hide Bit;
  }

  lemma AllTurned(word: bv16, value: bv16)
    requires Turned(word, value, 17)
    ensures forall k: bv16 | k < 16 :: Bit(value, k) == Bit(word, 15 - k)
  {
    hide Bit;
  }

  lemma ReverseStep(word: bv16, value: bv16, i: bv16)
    requires 1 <= i < 17 && Turned(word, value, i)
    ensures Turned(word, Placed(word, value, i), i + 1)
    ensures Rest(word, i) >> 1 == Rest(word, i + 1)
  {
    RestStep(word, i);
    forall k: bv16 | k < 16
      ensures Bit(Placed(word, value, i), k) == (k >= 17 - (i + 1) && Bit(word, 15 - k))
    {
      hide Bit, Placed, Rest;
      assert Bit(value, k) == (k >= 17 - i && Bit(word, 15 - k));
      ReverseBit(word, value, i, k);
    }
    hide Bit, Placed, Rest;
  }

  lemma RestStep(word: bv16, i: bv16)
    requires 1 <= i < 17
    ensures Rest(word, i) >> 1 == Rest(word, i + 1)
  {
  }

  lemma ReverseBit(word: bv16, value: bv16, i: bv16, k: bv16)
    requires 1 <= i < 17 && k < 16
    requires Bit(value, k) == (k >= 17 - i && Bit(word, 15 - k))
    ensures Bit(Placed(word, value, i), k) == (k >= 17 - (i + 1) && Bit(word, 15 - k))
  {
    hide Bit, Rest, OneAt;
    LowestOfRest(word, i);
    OrBit(value, OneAt(16 - i), k);
    OneBit(16 - i, k);
    if k == 16 - i {
      assert 15 - k == i - 1;
    }
  }

  lemma LowestOfRest(word: bv16, i: bv16)
    requires 1 <= i < 17
    ensures (Rest(word, i) & 1 != 0) == Bit(word, i - 1)
  {
  }

  lemma OrBit(v: bv16, w: bv16, k: bv16)
    requires k < 16
    ensures Bit(v | w, k) == (Bit(v, k) || Bit(w, k))
  {
  }

  lemma OneBit(j: bv16, k: bv16)
    requires j < 16 && k < 16
    ensures Bit(OneAt(j), k) == (j == k)
  {
  }

  lemma SixteenBits(a: bv16, b: bv16)
    requires Bit(a, 0) == Bit(b, 0) && Bit(a, 1) == Bit(b, 1) && Bit(a, 2) == Bit(b, 2) && Bit(a, 3) == Bit(b, 3)
    requires Bit(a, 4) == Bit(b, 4) && Bit(a, 5) == Bit(b, 5) && Bit(a, 6) == Bit(b, 6) && Bit(a, 7) == Bit(b, 7)
    requires Bit(a, 8) == Bit(b, 8) && Bit(a, 9) == Bit(b, 9) && Bit(a, 10) == Bit(b, 10) && Bit(a, 11) == Bit(b, 11)
    requires Bit(a, 12) == Bit(b, 12) && Bit(a, 13) == Bit(b, 13) && Bit(a, 14) == Bit(b, 14)
             && Bit(a, 15) == Bit(b, 15)
    ensures a == b
  {
  }

  lemma MirrorOfPolynomial(k: bv16)
    requires k < 16
    ensures Bit(POLYNOMIAL, 15 - k) == Bit(REFLECTED, k)
  {
  }

  lemma ReflectedPolynomial(r: bv16)
    requires forall k: bv16 | k < 16 :: Bit(r, k) == Bit(POLYNOMIAL, 15 - k)
    ensures r == REFLECTED
  {
    hide Bit;
    forall k: bv16 | k < 16
      ensures Bit(r, k) == Bit(REFLECTED, k)
    {
      MirrorOfPolynomial(k);
    }
    SixteenBits(r, REFLECTED);
  }

  method TableEntry(reversePoly: bv16, i: bv16) returns (crc: bv16)
    ensures crc == Steps(reversePoly, i, 8)
  {
    crc := i;
    for j := 0 to 8
      invariant Steps(reversePoly, crc, 8 - j) == Steps(reversePoly, i, 8)
    {
      assert Steps(reversePoly, crc, 8 - j) == Steps(reversePoly, BitStep(reversePoly, crc), 8 - (j + 1));
      hide Steps;
      if crc & 1 != 0 {
        crc := reversePoly ^ (crc >> 1);
      } else {
        crc := crc >> 1;
      }
    }
  }

  /** CRC::InitTable: with the polynomial of the checksum it fills in MbTable. */
  method InitTable(polynomial: bv16, table: array<bv16>)
    requires table.Length == 256
    modifies table
    ensures polynomial == POLYNOMIAL ==> forall i | 0 <= i < 256 :: table[i] == MbTable(i as bv16)
  {
    hide MbTable, Steps, Bit;
    var reversePoly := Reverse(polynomial);
    if polynomial == POLYNOMIAL { ReflectedPolynomial(reversePoly); }
    for i := 0 to 256
      invariant forall k | 0 <= k < i :: table[k] == Steps(reversePoly, k as bv16, 8)
    {
      var crc := TableEntry(reversePoly, i as bv16);
      table[i] := crc;
    }
    if polynomial == POLYNOMIAL {
      forall i | 0 <= i < 256
        ensures table[i] == MbTable(i as bv16)
      {
        SmallWord(i);
        TableIsBitSerial(i as bv16);
      }
    }
  }

  lemma SmallWord(i: nat)
    requires i < 256
    ensures (i as bv16) < 0x100
  {
  }

  // ----- what the checksum detects -----

  /** The low n bits of a word in the order in which they enter the register. */
  function WordBits(w: bv16, n: nat): (bits: seq<bool>)
    ensures |bits| == n
    decreases n
  {
    if n == 0 then [] else [Odd(w)] + WordBits(Half(w), n - 1)
  }

  function BitsOf(b: Byte): seq<bool> {
    WordBits(b as bv16, 8)
  }

  function Stream(data: seq<Byte>): seq<bool> {
    if data == [] then [] else BitsOf(data[0]) + Stream(data[1..])
  }

  function Low(b: bool): bv16 {
    if b then 1 else 0
  }

  function Enter(c: bv16, b: bool): bv16 {
    BitStep(REFLECTED, Xor(c, Low(b)))
  }

  function Feed(c: bv16, bits: seq<bool>): bv16
    decreases |bits|
  {
    if bits == [] then c else Feed(Enter(c, bits[0]), bits[1..])
  }

  lemma {:induction false} FeedAppend(c: bv16, a: seq<bool>, b: seq<bool>)
    ensures Feed(c, a + b) == Feed(Feed(c, a), b)
    decreases |a|
  {
    hide Enter;
    if a == [] {
      assert a + b == b;
    } else {
      assert (a + b)[1..] == a[1..] + b;
      FeedAppend(Enter(c, a[0]), a[1..], b);
    }
  }

  lemma FeedLast(c: bv16, u: seq<bool>)
    requires u != []
    ensures Feed(c, u) == Enter(Feed(c, u[..|u| - 1]), u[|u| - 1])
  {
    hide Enter;
    var n := |u| - 1;
    assert u == u[..n] + [u[n]];
    FeedAppend(c, u[..n], [u[n]]);
  }

  /** The low k bits. */
  function Mask(k: nat): bv16 {
    if k == 0 then 0 else if k == 1 then 0x0001 else if k == 2 then 0x0003 else if k == 3 then 0x0007
    else if k == 4 then 0x000F else if k == 5 then 0x001F else if k == 6 then 0x003F else if k == 7 then 0x007F
    else if k == 8 then 0x00FF else if k == 9 then 0x01FF else if k == 10 then 0x03FF else if k == 11 then 0x07FF
    else if k == 12 then 0x0FFF else if k == 13 then 0x1FFF else if k == 14 then 0x3FFF else if k == 15 then 0x7FFF
    else 0xFFFF
  }

  /** A mask with one more bit. */
  function Wider(m: bv16): bv16 {
    (m << 1) | 1
  }

  lemma MaskStep(k: nat)
    requires k < 16
    ensures Mask(k) < 0x8000 && Mask(k + 1) == Wider(Mask(k))
  {
  }

  /** The two words differ only under the mask. */
  predicate Near(x: bv16, y: bv16, m: bv16) {
    Fits(Xor(x, y), m)
  }

  predicate Fits(w: bv16, m: bv16) {
    w & !m == 0
  }

  /** One bit back: registers that are near after a step were near before it. */
  lemma EnterBack(x: bv16, y: bv16, a: bool, b: bool, k: nat)
    requires k < 16 && Near(Enter(x, a), Enter(y, b), Mask(k))
    ensures Near(x, y, Mask(k + 1)) && (x == y ==> a == b)
  {
    MaskStep(k);
    hide Mask, Near, Enter, Wider;
    EnterBackMask(x, y, a, b, Mask(k));
  }

  lemma EnterBackMask(x: bv16, y: bv16, a: bool, b: bool, m: bv16)
    requires m < 0x8000 && Near(Enter(x, a), Enter(y, b), m)
    ensures Near(x, y, Wider(m)) && (x == y ==> a == b)
  {
    hide BitStep, Xor, Fits, Wider, Low;
    var xa, yb := Xor(x, Low(a)), Xor(y, Low(b));
    Linear(xa, yb);
    StepBack(Xor(xa, yb), m);
    if a == b {
      XorLaws(Low(a), x, y);
      XorSwap(x, Low(a));
      XorSwap(y, Low(a));
      FitsWider(Xor(x, y), m);
    } else {
      MixedBits(x, y, a, b, m);
    }
  }

  /** The polynomial's top bit gives away a bit that fell out. */
  lemma StepBack(z: bv16, m: bv16)
    requires m < 0x8000 && Fits(BitStep(REFLECTED, z), m)
    ensures Fits(z, m << 1)
  {
  }

  lemma FitsWider(z: bv16, m: bv16)
    requires Fits(z, m << 1)
    ensures Fits(z, Wider(m))
  {
  }

  lemma MixedBits(x: bv16, y: bv16, a: bool, b: bool, m: bv16)
    requires a != b && Fits(Xor(Xor(x, Low(a)), Xor(y, Low(b))), m << 1)
    ensures Fits(Xor(x, y), Wider(m)) && x != y
  {
  }

  /** Two runs of n bits from one register that end within 16 - n low bits of each other
      are the same run. */
  lemma {:induction false} RunsDiffer(c: bv16, u: seq<bool>, v: seq<bool>, k: nat)
    requires |u| == |v| && |u| + k <= 16
    requires Near(Feed(c, u), Feed(c, v), Mask(k))
    ensures u == v
  {
    hide Near, Enter, Mask;
    if u != [] {
      var n := |u| - 1;
      FeedLast(c, u);
      FeedLast(c, v);
      EnterBack(Feed(c, u[..n]), Feed(c, v[..n]), u[n], v[n], k);
      RunsDiffer(c, u[..n], v[..n], k + 1);
      assert u == u[..n] + [u[n]] && v == v[..n] + [v[n]];
    }
  }

  lemma EnterInjective(x: bv16, y: bv16, b: bool)
    requires Enter(x, b) == Enter(y, b)
    ensures x == y
  {
  }

  lemma {:induction false} FeedInjective(x: bv16, y: bv16, bits: seq<bool>)
    requires Feed(x, bits) == Feed(y, bits)
    ensures x == y
    decreases |bits|
  {
    hide Enter;
    if bits != [] {
      FeedInjective(Enter(x, bits[0]), Enter(y, bits[0]), bits[1..]);
      EnterInjective(x, y, bits[0]);
    }
  }

  /** The register is fed one bit after another. */
  lemma {:induction false} BitSerialIsFeed(c: bv16, data: seq<Byte>)
    ensures BitSerial(c, data) == Feed(c, Stream(data))
    decreases |data|
  {
    hide ByteStep, Enter, BitsOf;
    if data != [] {
      BitSerialIsFeed(ByteStep(c, data[0]), data[1..]);
      ByteIsFeed(c, data[0]);
      FeedAppend(c, BitsOf(data[0]), Stream(data[1..]));
    }
  }

  lemma ByteIsFeed(c: bv16, b: Byte)
    ensures ByteStep(c, b) == Feed(c, BitsOf(b))
  {
    hide Steps, Feed, WordBits;
    ByteFits(b);
    WordIsFeed(c, b as bv16, 8);
  }

  lemma ByteFits(b: Byte)
    ensures Fits(b as bv16, Mask(8))
  {
  }

  /** Adding a word at once and shifting is feeding its bits one by one. */
  lemma {:induction false} WordIsFeed(c: bv16, w: bv16, n: nat)
    requires n <= 16 && Fits(w, Mask(n))
    ensures Steps(REFLECTED, Xor(c, w), n) == Feed(c, WordBits(w, n))
    decreases n
  {
    if n > 0 {
      hide Mask, Enter, BitStep, Fits, Xor, Odd, Half;
      Peel(c, w);
      MaskDown(w, n);
      var bits := WordBits(w, n);
      assert bits[0] == Odd(w) && bits[1..] == WordBits(Half(w), n - 1);
      WordIsFeed(Enter(c, bits[0]), Half(w), n - 1);
    }
  }

  lemma MaskDown(w: bv16, n: nat)
    requires 0 < n <= 16 && Fits(w, Mask(n))
    ensures Fits(Half(w), Mask(n - 1))
  {
    MaskStep(n - 1);
    hide Mask;
    HalfFits(w, Mask(n - 1));
  }

  lemma HalfFits(w: bv16, m: bv16)
    requires m < 0x8000 && Fits(w, Wider(m))
    ensures Fits(Half(w), m)
  {
  }

  lemma Even(w: bv16)
    ensures w == Xor(Low(Odd(w)), w & 0xFFFE) && BitStep(REFLECTED, w & 0xFFFE) == Half(w)
  {
  }

  lemma Peel(c: bv16, w: bv16)
    ensures BitStep(REFLECTED, Xor(c, w)) == Xor(Enter(c, Odd(w)), Half(w))
  {
    hide BitStep, Xor, Low, Half, Odd;
    Even(w);
    XorLaws(c, Low(Odd(w)), w & 0xFFFE);
    Linear(Xor(c, Low(Odd(w))), w & 0xFFFE);
  }

  /** Messages that differ in one burst of up to sixteen bits, wherever it lies, have
      different checksums. */
  lemma BurstIsDetected(c: bv16, x: seq<Byte>, y: seq<Byte>, p: seq<bool>, u: seq<bool>, v: seq<bool>, s: seq<bool>)
    requires Stream(x) == p + u + s && Stream(y) == p + v + s
    requires |u| == |v| <= 16 && u != v
    ensures BitSerial(c, x) != BitSerial(c, y)
  {
    hide Feed, BitSerial, Stream;
    BitSerialIsFeed(c, x);
    BitSerialIsFeed(c, y);
    FeedAppend(c, p + u, s);
    FeedAppend(c, p + v, s);
    FeedAppend(c, p, u);
    FeedAppend(c, p, v);
    if BitSerial(c, x) == BitSerial(c, y) {
      FeedInjective(Feed(c, p + u), Feed(c, p + v), s);
      RunsDiffer(Feed(c, p), u, v, 0);
    }
  }

  lemma {:induction false} StreamAppend(a: seq<Byte>, b: seq<Byte>)
    ensures Stream(a + b) == Stream(a) + Stream(b)
  {
    hide BitsOf;
    if a == [] {
      assert a + b == b;
    } else {
      assert (a + b)[1..] == a[1..] + b;
      StreamAppend(a[1..], b);
    }
  }

  lemma {:induction false} BitsDiffer(a: bv16, b: bv16, n: nat)
    requires n <= 16 && Fits(a, Mask(n)) && Fits(b, Mask(n)) && WordBits(a, n) == WordBits(b, n)
    ensures a == b
    decreases n
  {
    if n > 0 {
      hide Mask, Odd, Half, Fits;
      MaskDown(a, n);
      MaskDown(b, n);
      assert WordBits(a, n)[1..] == WordBits(Half(a), n - 1) && WordBits(b, n)[1..] == WordBits(Half(b), n - 1);
      assert WordBits(a, n)[0] == Odd(a) && WordBits(b, n)[0] == Odd(b);
      BitsDiffer(Half(a), Half(b), n - 1);
      OddHalf(a, b);
    }
  }

  lemma OddHalf(a: bv16, b: bv16)
    requires Odd(a) == Odd(b) && Half(a) == Half(b)
    ensures a == b
  {
  }

  lemma ByteBitsDiffer(a: Byte, b: Byte)
    requires BitsOf(a) == BitsOf(b)
    ensures a == b
  {
    hide WordBits;
    ByteFits(a);
    ByteFits(b);
    BitsDiffer(a as bv16, b as bv16, 8);
  }

  /** In particular, bodies of one length that differ within two consecutive bytes. */
  lemma TwoBytesAreDetected(c: bv16, p: seq<Byte>, a0: Byte, a1: Byte, b0: Byte, b1: Byte, s: seq<Byte>)
    requires a0 != b0 || a1 != b1
    ensures BitSerial(c, p + [a0, a1] + s) != BitSerial(c, p + [b0, b1] + s)
  {
    hide Stream, WordBits, BitSerial;
    var u, v := BitsOf(a0) + BitsOf(a1), BitsOf(b0) + BitsOf(b1);
    PairStream(p, a0, a1, s);
    PairStream(p, b0, b1, s);
    assert u[..8] == BitsOf(a0) && v[..8] == BitsOf(b0) && u[8..] == BitsOf(a1) && v[8..] == BitsOf(b1);
    if a0 != b0 {
      if BitsOf(a0) == BitsOf(b0) { ByteBitsDiffer(a0, b0); }
    } else {
      if BitsOf(a1) == BitsOf(b1) { ByteBitsDiffer(a1, b1); }
    }
    BurstIsDetected(c, p + [a0, a1] + s, p + [b0, b1] + s, Stream(p), u, v, Stream(s));
  }

  lemma PairStream(p: seq<Byte>, a0: Byte, a1: Byte, s: seq<Byte>)
    ensures Stream(p + [a0, a1] + s) == Stream(p) + (BitsOf(a0) + BitsOf(a1)) + Stream(s)
  {
    hide BitsOf;
    StreamAppend(p + [a0, a1], s);
    StreamAppend(p, [a0, a1]);
    assert [a0, a1][1..] == [a1] && [a1][1..] == [];
    assert Stream([a0, a1]) == BitsOf(a0) + BitsOf(a1) by {
      assert Stream([a1]) == BitsOf(a1) + [] == BitsOf(a1);
    }
  }
}
