/** 64-bit words as rows of flags. */
module BitWords {

  type Word = bv64
  type Index = bv6

  const ALL: Word := 0xFFFF_FFFF_FFFF_FFFF

  predicate Bit(w: Word, k: Index)
  {
    (w >> k) & 1 != 0
  }

  lemma OrBit(v: Word, w: Word, k: Index)
    ensures Bit(v | w, k) == (Bit(v, k) || Bit(w, k))
  {
  }

  lemma AndBit(v: Word, w: Word, k: Index)
    ensures Bit(v & w, k) == (Bit(v, k) && Bit(w, k))
  {
  }

  lemma AndNotBit(v: Word, w: Word, k: Index)
    ensures Bit(v & !w, k) == (Bit(v, k) && !Bit(w, k))
  {
  }

  lemma NotBit(w: Word, k: Index)
    ensures Bit(!w, k) == !Bit(w, k)
  {
  }

  lemma OneBit(j: Index, k: Index)
    ensures Bit(1 << j, k) == (j == k)
  {
  }

  lemma FromBit(s: Index, k: Index)
    ensures Bit(ALL << s, k) == (k >= s)
  {
  }

  lemma BelowIsNotFrom(s: Index)
    ensures (1 << s) - 1 == !(ALL << s)
  {
  }

  lemma AllBits(k: Index)
    ensures Bit(ALL, k) && !Bit(0, k)
  {
  }

  lemma ShiftBit(w: Word, k: Index)
    requires k < 56
    ensures Bit(w >> 8, k) == Bit(w, k + 8)
  {
  }

  lemma ShiftTop(w: Word, k: Index)
    requires 56 <= k
    ensures !Bit(w >> 8, k)
  {
  }

  lemma Byte0(w: Word)
    ensures w & 0x0000_0000_0000_00FF != 0 <==>
              Bit(w, 0) || Bit(w, 1) || Bit(w, 2) || Bit(w, 3) || Bit(w, 4) || Bit(w, 5) || Bit(w, 6) || Bit(w, 7)
  {
  }

  lemma Byte1(w: Word)
    ensures w & 0x0000_0000_0000_FF00 != 0 <==>
              Bit(w, 8) || Bit(w, 9) || Bit(w, 10) || Bit(w, 11) || Bit(w, 12) || Bit(w, 13) || Bit(w, 14) || Bit(w, 15)
  {
  }

  lemma Byte2(w: Word)
    ensures w & 0x0000_0000_00FF_0000 != 0 <==>
              Bit(w, 16) || Bit(w, 17) || Bit(w, 18) || Bit(w, 19) || Bit(w, 20) ||
              Bit(w, 21) || Bit(w, 22) || Bit(w, 23)
  {
  }

  lemma Byte3(w: Word)
    ensures w & 0x0000_0000_FF00_0000 != 0 <==>
              Bit(w, 24) || Bit(w, 25) || Bit(w, 26) || Bit(w, 27) || Bit(w, 28) ||
              Bit(w, 29) || Bit(w, 30) || Bit(w, 31)
  {
  }

  lemma Byte4(w: Word)
    ensures w & 0x0000_00FF_0000_0000 != 0 <==>
              Bit(w, 32) || Bit(w, 33) || Bit(w, 34) || Bit(w, 35) || Bit(w, 36) ||
              Bit(w, 37) || Bit(w, 38) || Bit(w, 39)
  {
  }

  lemma Byte5(w: Word)
    ensures w & 0x0000_FF00_0000_0000 != 0 <==>
              Bit(w, 40) || Bit(w, 41) || Bit(w, 42) || Bit(w, 43) || Bit(w, 44) ||
              Bit(w, 45) || Bit(w, 46) || Bit(w, 47)
  {
  }

  lemma Byte6(w: Word)
    ensures w & 0x00FF_0000_0000_0000 != 0 <==>
              Bit(w, 48) || Bit(w, 49) || Bit(w, 50) || Bit(w, 51) || Bit(w, 52) ||
              Bit(w, 53) || Bit(w, 54) || Bit(w, 55)
  {
  }

  lemma Byte7(w: Word)
    ensures w & 0xFF00_0000_0000_0000 != 0 <==>
              Bit(w, 56) || Bit(w, 57) || Bit(w, 58) || Bit(w, 59) || Bit(w, 60) ||
              Bit(w, 61) || Bit(w, 62) || Bit(w, 63)
  {
  }

  // ----- places as integers -----

  function Low(k: nat): Index {
    if k == 0 then 0 else if k == 1 then 1 else if k == 2 then 2 else if k == 3 then 3
    else if k == 4 then 4 else if k == 5 then 5 else if k == 6 then 6 else 7
  }

  function High(k: nat): Index {
    if k == 0 then 0 else if k == 1 then 8 else if k == 2 then 16 else if k == 3 then 24
    else if k == 4 then 32 else if k == 5 then 40 else if k == 6 then 48 else 56
  }

  /** The number k as an index, for k < 64. */
  function Place(k: nat): Index {
    High(k / 8) + Low(k % 8)
  }

  lemma PlaceStep(k: nat)
    requires k < 63
    ensures Place(k) < 63 && Place(k + 1) == Place(k) + 1
  {
    var q, r := k / 8, k % 8;
    assert k == 8 * q + r;
    HighBound(q);
    if r < 7 {
      assert (k + 1) / 8 == q && (k + 1) % 8 == r + 1;
      LowStep(r);
      hide High, Low;
    } else {
      assert (k + 1) / 8 == q + 1 && (k + 1) % 8 == 0;
      HighStep(q);
      hide High;
    }
  }

  lemma LowStep(r: nat)
    requires r < 7
    ensures Low(r + 1) == Low(r) + 1 && Low(r) < 7
  {
  }

  lemma HighStep(q: nat)
    requires q < 7
    ensures High(q + 1) == High(q) + 8 && High(q) <= 48
  {
  }

  lemma HighBound(q: nat)
    ensures High(q) <= 56
  {
  }

  lemma PlaceEight(k: nat)
    requires k < 56
    ensures Place(k) < 56 && Place(k + 8) == Place(k) + 8
  {
    var q, r := k / 8, k % 8;
    assert k == 8 * q + r;
    assert (k + 8) / 8 == q + 1 && (k + 8) % 8 == r;
    HighStep(q);
    EightSum(High(q), Low(r));
    hide High, Low;
  }

  lemma EightSum(h: Index, l: Index)
    requires h <= 48 && l < 8
    ensures h + l < 56 && (h + 8) + l == (h + l) + 8
  {
  }

  lemma {:induction false} PlaceOrder(j: nat, k: nat)
    requires j < k < 64
    ensures Place(j) < Place(k)
    decreases k
  {
    hide Place;
    PlaceStep(k - 1);
    if j < k - 1 {
      PlaceOrder(j, k - 1);
    }
  }

  lemma PlaceCompare(j: nat, k: nat)
    requires j < 64 && k < 64
    ensures Place(j) <= Place(k) <==> j <= k
    ensures Place(j) == Place(k) <==> j == k
  {
    hide Place;
    if j < k { PlaceOrder(j, k); } else if k < j { PlaceOrder(k, j); }
  }

  /** The k-th flag of a word. */
  predicate Flag(w: Word, k: nat) {
    Bit(w, Place(k))
  }

  /** uint64_t(1) << k */
  function One(k: nat): Word {
    1 << Place(k)
  }

  lemma OneFlag(j: nat, k: nat)
    requires j < 64 && k < 64
    ensures Flag(One(j), k) == (j == k)
  {
    hide Place, Bit;
    PlaceCompare(j, k);
    OneBit(Place(j), Place(k));
  }

  function SetFlag(w: Word, k: nat): Word {
    w | One(k)
  }

  function ClearFlag(w: Word, k: nat): Word {
    w & !One(k)
  }

  lemma FlagSet(w: Word, j: nat, k: nat)
    requires j < 64 && k < 64
    ensures Flag(SetFlag(w, j), k) == (Flag(w, k) || j == k)
  {
    hide Place, Bit, One;
    OrBit(w, One(j), Place(k));
    OneFlag(j, k);
  }

  lemma FlagCleared(w: Word, j: nat, k: nat)
    requires j < 64 && k < 64
    ensures Flag(ClearFlag(w, j), k) == (Flag(w, k) && j != k)
  {
    hide Place, Bit, One;
    AndNotBit(w, One(j), Place(k));
    OneFlag(j, k);
  }

  /** Flags from the s-th on: the source shifts the top bit down arithmetically. */
  function FromMask(s: nat): Word {
    ALL << Place(s)
  }

  function KeepFrom(w: Word, s: nat): Word {
    w & FromMask(s)
  }

  lemma KeepFromBit(w: Word, s: nat, k: Index)
    ensures Bit(KeepFrom(w, s), k) == (Bit(w, k) && Bit(FromMask(s), k))
  {
    hide FromMask, Bit;
    AndBit(w, FromMask(s), k);
  }

  lemma FlagFrom(w: Word, s: nat, k: nat)
    requires s < 64 && k < 64
    ensures Flag(KeepFrom(w, s), k) == (Flag(w, k) && s <= k)
  {
    hide Place, Bit, FromMask, KeepFrom;
    PlaceCompare(s, k);
    KeepFromBit(w, s, Place(k));
    FromMaskBit(s, Place(k));
  }

  lemma FromMaskBit(s: nat, k: Index)
    ensures Bit(FromMask(s), k) == (Place(s) <= k)
  {
    hide Place, Bit;
    FromBit(Place(s), k);
  }

  /** Flags up to the s-th. For s == 63 the source shifts by the width of the word, which
      C++ leaves open: the mask comes out full or empty. */
  function UpToMask(s: nat, full: bool): Word {
    if s == 63 then (if full then ALL else 0) else One(s + 1) - 1
  }

  lemma UpToMaskBit(s: nat, full: bool, k: Index)
    requires s < 64
    ensures Bit(UpToMask(s, full), k) == (if s == 63 then full else k < Place(s + 1))
  {
    hide Place, Bit;
    if s == 63 {
      AllBits(k);
    } else {
      BelowIsNotFrom(Place(s + 1));
      NotBit(ALL << Place(s + 1), k);
      FromBit(Place(s + 1), k);
    }
  }

  function KeepUpTo(w: Word, s: nat, full: bool): Word {
    w & UpToMask(s, full)
  }

  lemma KeepUpToBit(w: Word, s: nat, full: bool, k: Index)
    ensures Bit(KeepUpTo(w, s, full), k) == (Bit(w, k) && Bit(UpToMask(s, full), k))
  {
    hide UpToMask, Bit;
    AndBit(w, UpToMask(s, full), k);
  }

  lemma FlagUpTo(w: Word, s: nat, full: bool, k: nat)
    requires s < 64 && k < 64
    ensures Flag(KeepUpTo(w, s, full), k) == (Flag(w, k) && k <= s && (s == 63 ==> full))
  {
    hide Place, Bit, UpToMask, KeepUpTo;
    KeepUpToBit(w, s, full, Place(k));
    UpToMaskBit(s, full, Place(k));
    if s < 63 { PlaceCompare(s + 1, k); }
  }

  /** w >> 8 * bytes */
  function ShiftDown(w: Word, bytes: nat): Word
    decreases bytes
  {
    if bytes == 0 then w else ShiftDown(w >> 8, bytes - 1)
  }

  lemma FlagShiftedOnce(w: Word, k: nat)
    requires k < 64
    ensures Flag(w >> 8, k) == (k < 56 && Flag(w, k + 8))
  {
    hide Bit, Place;
    if k < 56 {
      PlaceEight(k);
      ShiftBit(w, Place(k));
    } else {
      assert Place(56) == 56 by { PlaceOf56(); }
      PlaceCompare(56, k);
      ShiftTop(w, Place(k));
    }
  }

  lemma PlaceOf56()
    ensures Place(56) == 56
  {
  }

  lemma {:induction false} FlagShifted(w: Word, bytes: nat, k: nat)
    requires k < 64 && bytes < 8
    ensures Flag(ShiftDown(w, bytes), k) == (k + 8 * bytes < 64 && Flag(w, k + 8 * bytes))
    decreases bytes
  {
    hide Flag;
    if bytes > 0 {
      FlagShifted(w >> 8, bytes - 1, k);
      var k1 := k + 8 * (bytes - 1);
      if k1 < 64 { FlagShiftedOnce(w, k1); }
    }
  }

  lemma ByteFlags0(w: Word)
    ensures w & 0x0000_0000_0000_00FF != 0 <==> exists k :: 0 <= k < 8 && Flag(w, k)
  {
    hide Bit;
    Byte0(w);
    assert Flag(w, 0) == Bit(w, 0) && Flag(w, 1) == Bit(w, 1) && Flag(w, 2) == Bit(w, 2) && Flag(w, 3) == Bit(w, 3);
    assert Flag(w, 4) == Bit(w, 4) && Flag(w, 5) == Bit(w, 5) && Flag(w, 6) == Bit(w, 6) && Flag(w, 7) == Bit(w, 7);
  }

  lemma ByteFlags1(w: Word)
    ensures w & 0x0000_0000_0000_FF00 != 0 <==> exists k :: 8 <= k < 16 && Flag(w, k)
  {
    hide Bit;
    Byte1(w);
    assert Flag(w, 8) == Bit(w, 8) && Flag(w, 9) == Bit(w, 9) && Flag(w, 10) == Bit(w, 10) && Flag(w, 11) == Bit(w, 11);
    assert Flag(w, 12) == Bit(w, 12) && Flag(w, 13) == Bit(w, 13) && Flag(w, 14) == Bit(w, 14)
           && Flag(w, 15) == Bit(w, 15);
  }

  lemma ByteFlags2(w: Word)
    ensures w & 0x0000_0000_00FF_0000 != 0 <==> exists k :: 16 <= k < 24 && Flag(w, k)
  {
    hide Bit;
    Byte2(w);
    assert Flag(w, 16) == Bit(w, 16) && Flag(w, 17) == Bit(w, 17) && Flag(w, 18) == Bit(w, 18)
           && Flag(w, 19) == Bit(w, 19);
    assert Flag(w, 20) == Bit(w, 20) && Flag(w, 21) == Bit(w, 21) && Flag(w, 22) == Bit(w, 22)
           && Flag(w, 23) == Bit(w, 23);
  }

  lemma ByteFlags3(w: Word)
    ensures w & 0x0000_0000_FF00_0000 != 0 <==> exists k :: 24 <= k < 32 && Flag(w, k)
  {
    hide Bit;
    Byte3(w);
    assert Flag(w, 24) == Bit(w, 24) && Flag(w, 25) == Bit(w, 25) && Flag(w, 26) == Bit(w, 26)
           && Flag(w, 27) == Bit(w, 27);
    assert Flag(w, 28) == Bit(w, 28) && Flag(w, 29) == Bit(w, 29) && Flag(w, 30) == Bit(w, 30)
           && Flag(w, 31) == Bit(w, 31);
  }

  lemma ByteFlags4(w: Word)
    ensures w & 0x0000_00FF_0000_0000 != 0 <==> exists k :: 32 <= k < 40 && Flag(w, k)
  {
    hide Bit;
    Byte4(w);
    assert Flag(w, 32) == Bit(w, 32) && Flag(w, 33) == Bit(w, 33) && Flag(w, 34) == Bit(w, 34)
           && Flag(w, 35) == Bit(w, 35);
    assert Flag(w, 36) == Bit(w, 36) && Flag(w, 37) == Bit(w, 37) && Flag(w, 38) == Bit(w, 38)
           && Flag(w, 39) == Bit(w, 39);
  }

  lemma ByteFlags5(w: Word)
    ensures w & 0x0000_FF00_0000_0000 != 0 <==> exists k :: 40 <= k < 48 && Flag(w, k)
  {
    hide Bit;
    Byte5(w);
    assert Flag(w, 40) == Bit(w, 40) && Flag(w, 41) == Bit(w, 41) && Flag(w, 42) == Bit(w, 42)
           && Flag(w, 43) == Bit(w, 43);
    assert Flag(w, 44) == Bit(w, 44) && Flag(w, 45) == Bit(w, 45) && Flag(w, 46) == Bit(w, 46)
           && Flag(w, 47) == Bit(w, 47);
  }

  lemma ByteFlags6(w: Word)
    ensures w & 0x00FF_0000_0000_0000 != 0 <==> exists k :: 48 <= k < 56 && Flag(w, k)
  {
    hide Bit;
    Byte6(w);
    assert Flag(w, 48) == Bit(w, 48) && Flag(w, 49) == Bit(w, 49) && Flag(w, 50) == Bit(w, 50)
           && Flag(w, 51) == Bit(w, 51);
    assert Flag(w, 52) == Bit(w, 52) && Flag(w, 53) == Bit(w, 53) && Flag(w, 54) == Bit(w, 54)
           && Flag(w, 55) == Bit(w, 55);
  }

  lemma ByteFlags7(w: Word)
    ensures w & 0xFF00_0000_0000_0000 != 0 <==> exists k :: 56 <= k < 64 && Flag(w, k)
  {
    hide Bit;
    Byte7(w);
    assert Flag(w, 56) == Bit(w, 56) && Flag(w, 57) == Bit(w, 57) && Flag(w, 58) == Bit(w, 58)
           && Flag(w, 59) == Bit(w, 59);
    assert Flag(w, 60) == Bit(w, 60) && Flag(w, 61) == Bit(w, 61) && Flag(w, 62) == Bit(w, 62)
           && Flag(w, 63) == Bit(w, 63);
  }

  /** Eight times the number of bytes up to the first that is not zero. */
  function FirstByte(w: Word): nat {
    if w & 0x0000_0000_0000_00FF != 0 then 8
    else if w & 0x0000_0000_0000_FF00 != 0 then 16
    else if w & 0x0000_0000_00FF_0000 != 0 then 24
    else if w & 0x0000_0000_FF00_0000 != 0 then 32
    else if w & 0x0000_00FF_0000_0000 != 0 then 40
    else if w & 0x0000_FF00_0000_0000 != 0 then 48
    else if w & 0x00FF_0000_0000_0000 != 0 then 56
    else 64
  }

  /** No flag before that byte, and one in it. */
  lemma FirstByteFinds(w: Word)
    requires w != 0
    ensures var r := FirstByte(w);
            && 8 <= r <= 64 && r % 8 == 0 && (forall k | 0 <= k < r - 8 :: !Flag(w, k))
            && (exists k :: r - 8 <= k < r && Flag(w, k))
  {
    hide Flag;
    ByteFlags0(w);
    ByteFlags1(w);
    ByteFlags2(w);
    ByteFlags3(w);
    ByteFlags4(w);
    ByteFlags5(w);
    ByteFlags6(w);
    ByteFlags7(w);
    SomeByte(w);
  }

  lemma SomeByte(w: Word)
    requires w != 0
    ensures || w & 0x0000_0000_0000_00FF != 0
            || w & 0x0000_0000_0000_FF00 != 0
            || w & 0x0000_0000_00FF_0000 != 0
            || w & 0x0000_0000_FF00_0000 != 0
            || w & 0x0000_00FF_0000_0000 != 0
            || w & 0x0000_FF00_0000_0000 != 0
            || w & 0x00FF_0000_0000_0000 != 0
            || w & 0xFF00_0000_0000_0000 != 0
  {
  }

  lemma NoFlag(k: nat)
    requires k < 64
    ensures !Flag(0, k)
  {
    AllBits(Place(k));
    hide Place, Bit;
  }
}
