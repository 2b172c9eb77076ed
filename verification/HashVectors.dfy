/** Values of the hash, as literals: they fix the initial value, the order of the bytes and every rotation. */
module HashVectors {
  import opened Lookup3

  /** The hash of the empty key, for every seed. */
  lemma {:induction false} EmptyKey(h: Word, little: bool)
    ensures Hash(h, [], little) == 0xdeadbeef + h
  {
  }

  /** The value for a null key, for every seed and size. */
  lemma {:induction false} NullKey(h: Word, size: nat)
    ensures InitWord(h, size) == 0xdeadbeef + ToWord(size) + h
  {
  }

  /** Sizes count modulo 2^32. */
  lemma {:induction false} SizesWrap()
    ensures ToWord(0x1_0000_0005) == 5
  {
  }

  // "Four score and seven years ago", in blocks of twelve bytes.
  const FIRST: seq<Byte> := [0x46, 0x6f, 0x75, 0x72, 0x20, 0x73, 0x63, 0x6f, 0x72, 0x65, 0x20, 0x61]
  const SECOND: seq<Byte> := [0x6e, 0x64, 0x20, 0x73, 0x65, 0x76, 0x65, 0x6e, 0x20, 0x79, 0x65, 0x61]
  const THIRD: seq<Byte> := [0x72, 0x73, 0x20, 0x61, 0x67, 0x6f]
  const FOUR_SCORE := FIRST + SECOND + THIRD

  lemma {:induction false} Blocks()
    ensures |FOUR_SCORE| == 30 && FOUR_SCORE[..12] == FIRST && FOUR_SCORE[12..][..12] == SECOND
    ensures FOUR_SCORE[12..][12..] == FOUR_SCORE[24..] == THIRD
  {
  }

  lemma {:induction false} Size1()
    ensures ToWord(1) == 1
  {
  }

  lemma {:induction false} Size5()
    ensures ToWord(5) == 5
  {
  }

  lemma {:induction false} Size12()
    ensures ToWord(12) == 12
  {
  }

  lemma {:induction false} Size30()
    ensures ToWord(30) == 30
  {
  }

  lemma {:induction false} NextBlock(r: Regs, key: seq<Byte>, little: bool)
    requires |key| > 12
    ensures HashFrom(r, key, little) == HashFrom(Mix(Absorb(r, key[..12], little)), key[12..], little)
  {
  }

  lemma {:induction false} LastBlock(r: Regs, key: seq<Byte>, little: bool)
    requires 0 < |key| <= 12
    ensures HashFrom(r, key, little) == Final(Absorb(r, key, little))
  {
  }

  // ---------------------------------------------------------------------------------------------
  // Keys of one byte, of a full block, and of several blocks
  // ---------------------------------------------------------------------------------------------

  lemma {:induction false} Last1()
    ensures Final(Absorb(Regs(0xdeadbef0, 0xdeadbef0, 0xdeadbef0), [0x46], true))
         == Regs(0xb916da1c, 0xdc2c981b, 0x276a0407)
  {
    var key: seq<Byte> := [0x46];
    assert WordAt(key, 0, true) == 0x46;
    assert WordAt(key, 4, true) == 0x0;
    assert WordAt(key, 8, true) == 0x0;
    assert Absorb(Regs(0xdeadbef0, 0xdeadbef0, 0xdeadbef0), key, true) == Regs(0xdeadbf36, 0xdeadbef0, 0xdeadbef0);
    assert FinalC(Regs(0xdeadbf36, 0xdeadbef0, 0xdeadbef0), 14) == Regs(0xdeadbf36, 0xdeadbef0, 0x9043c855);
    assert FinalA(Regs(0xdeadbf36, 0xdeadbef0, 0x9043c855), 11) == Regs(0x30abcae1, 0xdeadbef0, 0x9043c855);
    assert FinalB(Regs(0x30abcae1, 0xdeadbef0, 0x9043c855), 25) == Regs(0x30abcae1, 0x2ba51c7c, 0x9043c855);
    assert FinalC(Regs(0x30abcae1, 0x2ba51c7c, 0x9043c855), 16) == Regs(0x30abcae1, 0x2ba51c7c, 0x9f6aa884);
    assert FinalA(Regs(0x30abcae1, 0x2ba51c7c, 0x9f6aa884), 4) == Regs(0xb916da1c, 0x2ba51c7c, 0x9f6aa884);
    assert FinalB(Regs(0xb916da1c, 0x2ba51c7c, 0x9f6aa884), 14) == Regs(0xb916da1c, 0xdc2c981b, 0x9f6aa884);
    assert FinalC(Regs(0xb916da1c, 0xdc2c981b, 0x9f6aa884), 24) == Regs(0xb916da1c, 0xdc2c981b, 0x276a0407);
  }

  /** One byte. */
  lemma {:induction false} OneByteLittle()
    ensures Hash(0, [0x46], true) == 0x276a0407
  {
    hide Final, Absorb, ToWord;
    Size1();
    Last1();
    LastBlock(Regs(0xdeadbef0, 0xdeadbef0, 0xdeadbef0), [0x46], true);
  }

  lemma {:induction false} Last2()
    ensures Final(Absorb(Regs(0xdeadbef0, 0xdeadbef0, 0xdeadbef0), [0x46], false))
         == Regs(0xb032d59b, 0xfb84dc98, 0xefe3832d)
  {
    var key: seq<Byte> := [0x46];
    assert WordAt(key, 0, false) == 0x46000000;
    assert WordAt(key, 4, false) == 0x0;
    assert WordAt(key, 8, false) == 0x0;
    assert Absorb(Regs(0xdeadbef0, 0xdeadbef0, 0xdeadbef0), key, false) == Regs(0x24adbef0, 0xdeadbef0, 0xdeadbef0);
    assert FinalC(Regs(0x24adbef0, 0xdeadbef0, 0xdeadbef0), 14) == Regs(0x24adbef0, 0xdeadbef0, 0x9043c855);
    assert FinalA(Regs(0x24adbef0, 0xdeadbef0, 0x9043c855), 11) == Regs(0x96abca23, 0xdeadbef0, 0x9043c855);
    assert FinalB(Regs(0x96abca23, 0xdeadbef0, 0x9043c855), 25) == Regs(0x96abca23, 0xd91d3f, 0x9043c855);
    assert FinalC(Regs(0x96abca23, 0xd91d3f, 0x9043c855), 16) == Regs(0x96abca23, 0xd91d3f, 0x735bd491);
    assert FinalA(Regs(0x96abca23, 0xd91d3f, 0x735bd491), 4) == Regs(0xb032d59b, 0xd91d3f, 0x735bd491);
    assert FinalB(Regs(0xb032d59b, 0xd91d3f, 0x735bd491), 14) == Regs(0xb032d59b, 0xfb84dc98, 0x735bd491);
    assert FinalC(Regs(0xb032d59b, 0xfb84dc98, 0x735bd491), 24) == Regs(0xb032d59b, 0xfb84dc98, 0xefe3832d);
  }

  /** The same, by the big-endian hash. */
  lemma {:induction false} OneByteBig()
    ensures Hash(0, [0x46], false) == 0xefe3832d
  {
    hide Final, Absorb, ToWord;
    Size1();
    Last2();
    LastBlock(Regs(0xdeadbef0, 0xdeadbef0, 0xdeadbef0), [0x46], false);
  }

  lemma {:induction false} Last3()
    ensures Final(Absorb(Regs(0xdeadbef4, 0xdeadbef4, 0xdeadbef4), [0x46, 0x6f, 0x75, 0x72, 0x20], true))
         == Regs(0x7ba07309, 0x506d2c3a, 0xa496ca89)
  {
    var key: seq<Byte> := [0x46, 0x6f, 0x75, 0x72, 0x20];
    assert WordAt(key, 0, true) == 0x72756f46;
    assert WordAt(key, 4, true) == 0x20;
    assert WordAt(key, 8, true) == 0x0;
    assert Absorb(Regs(0xdeadbef4, 0xdeadbef4, 0xdeadbef4), key, true) == Regs(0x51232e3a, 0xdeadbf14, 0xdeadbef4);
    assert FinalC(Regs(0x51232e3a, 0xdeadbf14, 0xdeadbef4), 14) == Regs(0x51232e3a, 0xdeadbf14, 0x903aca35);
    assert FinalA(Regs(0x51232e3a, 0xdeadbf14, 0x903aca35), 11) == Regs(0xeac8378e, 0xdeadbf14, 0x903aca35);
    assert FinalB(Regs(0xeac8378e, 0xdeadbf14, 0x903aca35), 25) == Regs(0xeac8378e, 0x168ff82b, 0x903aca35);
    assert FinalC(Regs(0xeac8378e, 0x168ff82b, 0x903aca35), 16) == Regs(0xeac8378e, 0x168ff82b, 0x8e8a1b8f);
    assert FinalA(Regs(0xeac8378e, 0x168ff82b, 0x8e8a1b8f), 4) == Regs(0x7ba07309, 0x168ff82b, 0x8e8a1b8f);
    assert FinalB(Regs(0x7ba07309, 0x168ff82b, 0x8e8a1b8f), 14) == Regs(0x7ba07309, 0x506d2c3a, 0x8e8a1b8f);
    assert FinalC(Regs(0x7ba07309, 0x506d2c3a, 0x8e8a1b8f), 24) == Regs(0x7ba07309, 0x506d2c3a, 0xa496ca89);
  }

  /** Five bytes, which leave the second word partial. */
  lemma {:induction false} FiveBytesLittle()
    ensures Hash(0, [0x46, 0x6f, 0x75, 0x72, 0x20], true) == 0xa496ca89
  {
    hide Final, Absorb, ToWord;
    Size5();
    Last3();
    LastBlock(Regs(0xdeadbef4, 0xdeadbef4, 0xdeadbef4), [0x46, 0x6f, 0x75, 0x72, 0x20], true);
  }

  lemma {:induction false} Last4()
    ensures Final(Absorb(Regs(0xdeadbefc, 0xdeadbefc, 0xdeadbefc), FIRST, true))
         == Regs(0xd7adb442, 0xb593c07a, 0x410477fa)
  {
    var key: seq<Byte> := FIRST;
    assert WordAt(key, 0, true) == 0x72756f46;
    assert WordAt(key, 4, true) == 0x6f637320;
    assert WordAt(key, 8, true) == 0x61206572;
    assert Absorb(Regs(0xdeadbefc, 0xdeadbefc, 0xdeadbefc), key, true) == Regs(0x51232e42, 0x4e11321c, 0x3fce246e);
    assert FinalC(Regs(0x51232e42, 0x4e11321c, 0x3fce246e), 14) == Regs(0x51232e42, 0x4e11321c, 0x255802ee);
    assert FinalA(Regs(0x51232e42, 0x4e11321c, 0x255802ee), 11) == Regs(0xb463bb82, 0x4e11321c, 0x255802ee);
    assert FinalB(Regs(0xb463bb82, 0x4e11321c, 0x255802ee), 25) == Regs(0xb463bb82, 0xf509c227, 0x255802ee);
    assert FinalC(Regs(0xb463bb82, 0xf509c227, 0x255802ee), 16) == Regs(0xb463bb82, 0xf509c227, 0xe29cbc0);
    assert FinalA(Regs(0xb463bb82, 0xf509c227, 0xe29cbc0), 4) == Regs(0xd7adb442, 0xf509c227, 0xe29cbc0);
    assert FinalB(Regs(0xd7adb442, 0xf509c227, 0xe29cbc0), 14) == Regs(0xd7adb442, 0xb593c07a, 0xe29cbc0);
    assert FinalC(Regs(0xd7adb442, 0xb593c07a, 0xe29cbc0), 24) == Regs(0xd7adb442, 0xb593c07a, 0x410477fa);
  }

  /** Twelve bytes. */
  lemma {:induction false} OneBlockLittle()
    ensures Hash(1, FIRST, true) == 0x410477fa
  {
    hide Final, Absorb, ToWord;
    Size12();
    Last4();
    LastBlock(Regs(0xdeadbefc, 0xdeadbefc, 0xdeadbefc), FIRST, true);
  }

  lemma {:induction false} Last5()
    ensures Final(Absorb(Regs(0xdeadbefc, 0xdeadbefc, 0xdeadbefc), FIRST, false))
         == Regs(0x7cc98f5d, 0x3e2c6d17, 0x2ed3863a)
  {
    var key: seq<Byte> := FIRST;
    assert WordAt(key, 0, false) == 0x466f7572;
    assert WordAt(key, 4, false) == 0x2073636f;
    assert WordAt(key, 8, false) == 0x72652061;
    assert Absorb(Regs(0xdeadbefc, 0xdeadbefc, 0xdeadbefc), key, false) == Regs(0x251d346e, 0xff21226b, 0x5112df5d);
    assert FinalC(Regs(0x251d346e, 0xff21226b, 0x5112df5d), 14) == Regs(0x251d346e, 0xff21226b, 0x6598fd6e);
    assert FinalA(Regs(0x251d346e, 0xff21226b, 0x6598fd6e), 11) == Regs(0x789a55d4, 0xff21226b, 0x6598fd6e);
    assert FinalB(Regs(0x789a55d4, 0xff21226b, 0x6598fd6e), 25) == Regs(0x789a55d4, 0xdeca4314, 0x6598fd6e);
    assert FinalC(Regs(0x789a55d4, 0xdeca4314, 0x6598fd6e), 16) == Regs(0x789a55d4, 0xdeca4314, 0x783ddfb0);
    assert FinalA(Regs(0x789a55d4, 0xdeca4314, 0x783ddfb0), 4) == Regs(0x7cc98f5d, 0xdeca4314, 0x783ddfb0);
    assert FinalB(Regs(0x7cc98f5d, 0xdeca4314, 0x783ddfb0), 14) == Regs(0x7cc98f5d, 0x3e2c6d17, 0x783ddfb0);
    assert FinalC(Regs(0x7cc98f5d, 0x3e2c6d17, 0x783ddfb0), 24) == Regs(0x7cc98f5d, 0x3e2c6d17, 0x2ed3863a);
  }

  /** The same, by the big-endian hash. */
  lemma {:induction false} OneBlockBig()
    ensures Hash(1, FIRST, false) == 0x2ed3863a
  {
    hide Final, Absorb, ToWord;
    Size12();
    Last5();
    LastBlock(Regs(0xdeadbefc, 0xdeadbefc, 0xdeadbefc), FIRST, false);
  }

  lemma {:induction false} Block6()
    ensures Mix(Absorb(Regs(0xdeadbf0d, 0xdeadbf0d, 0xdeadbf0d), FIRST, true))
         == Regs(0xf859ad7a, 0x4bc57ae, 0x40dddd7e)
  {
    var key: seq<Byte> := FIRST;
    assert WordAt(key, 0, true) == 0x72756f46;
    assert WordAt(key, 4, true) == 0x6f637320;
    assert WordAt(key, 8, true) == 0x61206572;
    assert Absorb(Regs(0xdeadbf0d, 0xdeadbf0d, 0xdeadbf0d), key, true) == Regs(0x51232e53, 0x4e11322d, 0x3fce247f);
    assert MixA(Regs(0x51232e53, 0x4e11322d, 0x3fce247f), 4) == Regs(0xedb74e27, 0x4e11322d, 0x8ddf56ac);
    assert MixB(Regs(0xedb74e27, 0x4e11322d, 0x8ddf56ac), 6) == Regs(0x7b96a4d3, 0xd8a6dfd, 0x8ddf56ac);
    assert MixC(Regs(0x7b96a4d3, 0xd8a6dfd, 0x8ddf56ac), 8) == Regs(0x7b96a4d3, 0x892112d0, 0xa3915a2);
    assert MixA(Regs(0x7b96a4d3, 0x892112d0, 0xa3915a2), 16) == Regs(0x64ff8508, 0x892112d0, 0x935a2872);
    assert MixB(Regs(0x64ff8508, 0x892112d0, 0x935a2872), 19) == Regs(0xf859ad7a, 0xc62aa34, 0x935a2872);
    assert MixC(Regs(0xf859ad7a, 0xc62aa34, 0x935a2872), 4) == Regs(0xf859ad7a, 0x4bc57ae, 0x40dddd7e);
  }

  lemma {:induction false} Block7()
    ensures Mix(Absorb(Regs(0xf859ad7a, 0x4bc57ae, 0x40dddd7e), SECOND, true))
         == Regs(0x336aded2, 0x59f2642, 0xbd02ebd5)
  {
    var key: seq<Byte> := SECOND;
    assert WordAt(key, 0, true) == 0x7320646e;
    assert WordAt(key, 4, true) == 0x6e657665;
    assert WordAt(key, 8, true) == 0x61657920;
    assert Absorb(Regs(0xf859ad7a, 0x4bc57ae, 0x40dddd7e), key, true) == Regs(0x6b7a11e8, 0x7321ce13, 0xa243569e);
    assert MixA(Regs(0x6b7a11e8, 0x7321ce13, 0xa243569e), 4) == Regs(0xed03d2a0, 0x7321ce13, 0x156524b1);
    assert MixB(Regs(0xed03d2a0, 0x7321ce13, 0x156524b1), 6) == Regs(0x268f751, 0xc6e95348, 0x156524b1);
    assert MixC(Regs(0x268f751, 0xc6e95348, 0x156524b1), 8) == Regs(0x268f751, 0xc9524a99, 0xa72899af);
    assert MixA(Regs(0x268f751, 0xc9524a99, 0xa72899af), 16) == Regs(0xc2effa8a, 0xc9524a99, 0x707ae448);
    assert MixB(Regs(0xc2effa8a, 0xc9524a99, 0x707ae448), 19) == Regs(0x336aded2, 0xd2344770, 0x707ae448);
    assert MixC(Regs(0x336aded2, 0xd2344770, 0x707ae448), 4) == Regs(0x336aded2, 0x59f2642, 0xbd02ebd5);
  }

  lemma {:induction false} Last8()
    ensures Final(Absorb(Regs(0x336aded2, 0x59f2642, 0xbd02ebd5), THIRD, true))
         == Regs(0x9a837816, 0xce7226e6, 0x17770551)
  {
    var key: seq<Byte> := THIRD;
    assert WordAt(key, 0, true) == 0x61207372;
    assert WordAt(key, 4, true) == 0x6f67;
    assert WordAt(key, 8, true) == 0x0;
    assert Absorb(Regs(0x336aded2, 0x59f2642, 0xbd02ebd5), key, true) == Regs(0x948b5244, 0x59f95a9, 0xbd02ebd5);
    assert FinalC(Regs(0x948b5244, 0x59f95a9, 0xbd02ebd5), 14) == Regs(0x948b5244, 0x59f95a9, 0xd3333d15);
    assert FinalA(Regs(0x948b5244, 0x59f95a9, 0xd3333d15), 11) == Regs(0xadcfc0b8, 0x59f95a9, 0xd3333d15);
    assert FinalB(Regs(0xadcfc0b8, 0x59f95a9, 0xd3333d15), 25) == Regs(0xadcfc0b8, 0x36f4b590, 0xd3333d15);
    assert FinalC(Regs(0xadcfc0b8, 0x36f4b590, 0xd3333d15), 16) == Regs(0xadcfc0b8, 0x36f4b590, 0x30375191);
    assert FinalA(Regs(0xadcfc0b8, 0x36f4b590, 0x30375191), 4) == Regs(0x9a837816, 0x36f4b590, 0x30375191);
    assert FinalB(Regs(0x9a837816, 0x36f4b590, 0x30375191), 14) == Regs(0x9a837816, 0xce7226e6, 0x30375191);
    assert FinalC(Regs(0x9a837816, 0xce7226e6, 0x30375191), 24) == Regs(0x9a837816, 0xce7226e6, 0x17770551);
  }

  /** Thirty bytes: Four score and seven years ago. */
  lemma {:induction false} ThreeBlocksLittle()
    ensures Hash(0, FOUR_SCORE, true) == 0x17770551
  {
    hide Mix, Final, Absorb, HashFrom, ToWord;
    Size30();
    Blocks();
    Block6();
    NextBlock(Regs(0xdeadbf0d, 0xdeadbf0d, 0xdeadbf0d), FOUR_SCORE, true);
    Block7();
    NextBlock(Regs(0xf859ad7a, 0x4bc57ae, 0x40dddd7e), FOUR_SCORE[12..], true);
    Last8();
    LastBlock(Regs(0x336aded2, 0x59f2642, 0xbd02ebd5), FOUR_SCORE[24..], true);
  }

  lemma {:induction false} Block9()
    ensures Mix(Absorb(Regs(0xdeadbf0e, 0xdeadbf0e, 0xdeadbf0e), FIRST, true))
         == Regs(0x9fb9ade6, 0x89211ba9, 0x3ffff143)
  {
    var key: seq<Byte> := FIRST;
    assert WordAt(key, 0, true) == 0x72756f46;
    assert WordAt(key, 4, true) == 0x6f637320;
    assert WordAt(key, 8, true) == 0x61206572;
    assert Absorb(Regs(0xdeadbf0e, 0xdeadbf0e, 0xdeadbf0e), key, true) == Regs(0x51232e54, 0x4e11322e, 0x3fce2480);
    assert MixA(Regs(0x51232e54, 0x4e11322e, 0x3fce2480), 4) == Regs(0xedb741d7, 0x4e11322e, 0x8ddf56ae);
    assert MixB(Regs(0xedb741d7, 0x4e11322e, 0x8ddf56ae), 6) == Regs(0x7b969885, 0xd8985ac, 0x8ddf56ae);
    assert MixC(Regs(0x7b969885, 0xd8985ac, 0x8ddf56ae), 8) == Regs(0x7b969885, 0x89201e31, 0x9d07d0f);
    assert MixA(Regs(0x7b969885, 0x89201e31, 0x9d07d0f), 16) == Regs(0xcc912a6, 0x89201e31, 0x92f09b40);
    assert MixB(Regs(0xcc912a6, 0x89201e31, 0x92f09b40), 19) == Regs(0x9fb9ade6, 0xe9676dc3, 0x92f09b40);
    assert MixC(Regs(0x9fb9ade6, 0xe9676dc3, 0x92f09b40), 4) == Regs(0x9fb9ade6, 0x89211ba9, 0x3ffff143);
  }

  lemma {:induction false} Block10()
    ensures Mix(Absorb(Regs(0x9fb9ade6, 0x89211ba9, 0x3ffff143), SECOND, true))
         == Regs(0xd68042ad, 0x488e0a5d, 0xab16e7b2)
  {
    var key: seq<Byte> := SECOND;
    assert WordAt(key, 0, true) == 0x7320646e;
    assert WordAt(key, 4, true) == 0x6e657665;
    assert WordAt(key, 8, true) == 0x61657920;
    assert Absorb(Regs(0x9fb9ade6, 0x89211ba9, 0x3ffff143), key, true) == Regs(0x12da1254, 0xf786920e, 0xa1656a63);
    assert MixA(Regs(0x12da1254, 0xf786920e, 0xa1656a63), 4) == Regs(0x672201cb, 0xf786920e, 0x98ebfc71);
    assert MixB(Regs(0x672201cb, 0xf786920e, 0x98ebfc71), 6) == Regs(0xdfe3c, 0x58e4e29a, 0x98ebfc71);
    assert MixC(Regs(0xdfe3c, 0x58e4e29a, 0x98ebfc71), 8) == Regs(0xdfe3c, 0x58f2e0d6, 0xa4e5838f);
    assert MixA(Regs(0xdfe3c, 0x58f2e0d6, 0xa4e5838f), 16) == Regs(0xd8a7de48, 0x58f2e0d6, 0xfdd86465);
    assert MixB(Regs(0xd8a7de48, 0x58f2e0d6, 0xfdd86465), 19) == Regs(0xd68042ad, 0x720dc7b0, 0xfdd86465);
    assert MixC(Regs(0xd68042ad, 0x720dc7b0, 0xfdd86465), 4) == Regs(0xd68042ad, 0x488e0a5d, 0xab16e7b2);
  }

  lemma {:induction false} Last11()
    ensures Final(Absorb(Regs(0xd68042ad, 0x488e0a5d, 0xab16e7b2), THIRD, true))
         == Regs(0x1336f927, 0x6cbea4b3, 0xcd628161)
  {
    var key: seq<Byte> := THIRD;
    assert WordAt(key, 0, true) == 0x61207372;
    assert WordAt(key, 4, true) == 0x6f67;
    assert WordAt(key, 8, true) == 0x0;
    assert Absorb(Regs(0xd68042ad, 0x488e0a5d, 0xab16e7b2), key, true) == Regs(0x37a0b61f, 0x488e79c4, 0xab16e7b2);
    assert FinalC(Regs(0x37a0b61f, 0x488e79c4, 0xab16e7b2), 14) == Regs(0x37a0b61f, 0x488e79c4, 0x45278c53);
    assert FinalA(Regs(0x37a0b61f, 0x488e79c4, 0x45278c53), 11) == Regs(0x3624a023, 0x488e79c4, 0x45278c53);
    assert FinalB(Regs(0x3624a023, 0x488e79c4, 0x45278c53), 25) == Regs(0x3624a023, 0x383e90a7, 0x45278c53);
    assert FinalC(Regs(0x3624a023, 0x383e90a7, 0x45278c53), 16) == Regs(0x3624a023, 0x383e90a7, 0xec71e4b6);
    assert FinalA(Regs(0x3624a023, 0x383e90a7, 0xec71e4b6), 4) == Regs(0x1336f927, 0x383e90a7, 0xec71e4b6);
    assert FinalB(Regs(0x1336f927, 0x383e90a7, 0xec71e4b6), 14) == Regs(0x1336f927, 0x6cbea4b3, 0xec71e4b6);
    assert FinalC(Regs(0x1336f927, 0x6cbea4b3, 0xec71e4b6), 24) == Regs(0x1336f927, 0x6cbea4b3, 0xcd628161);
  }

  /** The same with seed 1. */
  lemma {:induction false} ThreeBlocksSeeded()
    ensures Hash(1, FOUR_SCORE, true) == 0xcd628161
  {
    hide Mix, Final, Absorb, HashFrom, ToWord;
    Size30();
    Blocks();
    Block9();
    NextBlock(Regs(0xdeadbf0e, 0xdeadbf0e, 0xdeadbf0e), FOUR_SCORE, true);
    Block10();
    NextBlock(Regs(0x9fb9ade6, 0x89211ba9, 0x3ffff143), FOUR_SCORE[12..], true);
    Last11();
    LastBlock(Regs(0xd68042ad, 0x488e0a5d, 0xab16e7b2), FOUR_SCORE[24..], true);
  }

  lemma {:induction false} Block12()
    ensures Mix(Absorb(Regs(0xdeadbf0d, 0xdeadbf0d, 0xdeadbf0d), FIRST, false))
         == Regs(0x5c072014, 0x359afdae, 0x446ca93)
  {
    var key: seq<Byte> := FIRST;
    assert WordAt(key, 0, false) == 0x466f7572;
    assert WordAt(key, 4, false) == 0x2073636f;
    assert WordAt(key, 8, false) == 0x72652061;
    assert Absorb(Regs(0xdeadbf0d, 0xdeadbf0d, 0xdeadbf0d), key, false) == Regs(0x251d347f, 0xff21227c, 0x5112df6e);
    assert MixA(Regs(0x251d347f, 0xff21227c, 0x5112df6e), 4) == Regs(0xc527a3f4, 0xff21227c, 0x503401ea);
    assert MixB(Regs(0xc527a3f4, 0xff21227c, 0x503401ea), 6) == Regs(0x155ba5de, 0x701183b9, 0x503401ea);
    assert MixC(Regs(0x155ba5de, 0x701183b9, 0x503401ea), 8) == Regs(0x155ba5de, 0x856d2997, 0xf1a1c741);
    assert MixA(Regs(0x155ba5de, 0x856d2997, 0xf1a1c741), 16) == Regs(0xe4f82f3c, 0x856d2997, 0x770ef0d8);
    assert MixB(Regs(0xe4f82f3c, 0x856d2997, 0x770ef0d8), 19) == Regs(0x5c072014, 0xd993dd9a, 0x770ef0d8);
    assert MixC(Regs(0x5c072014, 0xd993dd9a, 0x770ef0d8), 4) == Regs(0x5c072014, 0x359afdae, 0x446ca93);
  }

  lemma {:induction false} Block13()
    ensures Mix(Absorb(Regs(0x5c072014, 0x359afdae, 0x446ca93), SECOND, false))
         == Regs(0x817f505, 0x864df853, 0x1df4742f)
  {
    var key: seq<Byte> := SECOND;
    assert WordAt(key, 0, false) == 0x6e642073;
    assert WordAt(key, 4, false) == 0x6576656e;
    assert WordAt(key, 8, false) == 0x20796561;
    assert Absorb(Regs(0x5c072014, 0x359afdae, 0x446ca93), key, false) == Regs(0xca6b4087, 0x9b11631c, 0x24c02ff4);
    assert MixA(Regs(0xca6b4087, 0x9b11631c, 0x24c02ff4), 4) == Regs(0xe9a9efd1, 0x9b11631c, 0xbfd19310);
    assert MixB(Regs(0xe9a9efd1, 0x9b11631c, 0xbfd19310), 6) == Regs(0xa97b82e1, 0xdb1c8731, 0xbfd19310);
    assert MixC(Regs(0xa97b82e1, 0xdb1c8731, 0xbfd19310), 8) == Regs(0xa97b82e1, 0x84980a12, 0xf8323a04);
    assert MixA(Regs(0xa97b82e1, 0x84980a12, 0xf8323a04), 16) == Regs(0x8b4db0ef, 0x84980a12, 0x7cca4416);
    assert MixB(Regs(0x8b4db0ef, 0x84980a12, 0x7cca4416), 19) == Regs(0x817f505, 0x7e36034e, 0x7cca4416);
    assert MixC(Regs(0x817f505, 0x7e36034e, 0x7cca4416), 4) == Regs(0x817f505, 0x864df853, 0x1df4742f);
  }

  lemma {:induction false} Last14()
    ensures Final(Absorb(Regs(0x817f505, 0x864df853, 0x1df4742f), THIRD, false))
         == Regs(0x11e9e2f4, 0xa420682e, 0x65e759cb)
  {
    var key: seq<Byte> := THIRD;
    assert WordAt(key, 0, false) == 0x72732061;
    assert WordAt(key, 4, false) == 0x676f0000;
    assert WordAt(key, 8, false) == 0x0;
    assert Absorb(Regs(0x817f505, 0x864df853, 0x1df4742f), key, false) == Regs(0x7a8b1566, 0xedbcf853, 0x1df4742f);
    assert FinalC(Regs(0x7a8b1566, 0xedbcf853, 0x1df4742f), 14) == Regs(0x7a8b1566, 0xedbcf853, 0xb233910d);
    assert FinalA(Regs(0x7a8b1566, 0xedbcf853, 0xb233910d), 11) == Regs(0x2c3016da, 0xedbcf853, 0xb233910d);
    assert FinalB(Regs(0x2c3016da, 0xedbcf853, 0xb233910d), 25) == Regs(0x2c3016da, 0xd348e5c, 0xb233910d);
    assert FinalC(Regs(0x2c3016da, 0xd348e5c, 0xb233910d), 16) == Regs(0x2c3016da, 0xd348e5c, 0x30ab121d);
    assert FinalA(Regs(0x2c3016da, 0xd348e5c, 0x30ab121d), 4) == Regs(0x11e9e2f4, 0xd348e5c, 0x30ab121d);
    assert FinalB(Regs(0x11e9e2f4, 0xd348e5c, 0x30ab121d), 14) == Regs(0x11e9e2f4, 0xa420682e, 0x30ab121d);
    assert FinalC(Regs(0x11e9e2f4, 0xa420682e, 0x30ab121d), 24) == Regs(0x11e9e2f4, 0xa420682e, 0x65e759cb);
  }

  /** The same by the big-endian hash. */
  lemma {:induction false} ThreeBlocksBig()
    ensures Hash(0, FOUR_SCORE, false) == 0x65e759cb
  {
    hide Mix, Final, Absorb, HashFrom, ToWord;
    Size30();
    Blocks();
    Block12();
    NextBlock(Regs(0xdeadbf0d, 0xdeadbf0d, 0xdeadbf0d), FOUR_SCORE, false);
    Block13();
    NextBlock(Regs(0x5c072014, 0x359afdae, 0x446ca93), FOUR_SCORE[12..], false);
    Last14();
    LastBlock(Regs(0x817f505, 0x864df853, 0x1df4742f), FOUR_SCORE[24..], false);
  }

  lemma {:induction false} Block15()
    ensures Mix(Absorb(Regs(0xdeadbf0d, 0xdeadbf0d, 0xdeadbf0e), FIRST, true))
         == Regs(0x5880bf0f, 0x507c285, 0x2e1afadd)
  {
    var key: seq<Byte> := FIRST;
    assert WordAt(key, 0, true) == 0x72756f46;
    assert WordAt(key, 4, true) == 0x6f637320;
    assert WordAt(key, 8, true) == 0x61206572;
    assert Absorb(Regs(0xdeadbf0d, 0xdeadbf0d, 0xdeadbf0e), key, true) == Regs(0x51232e53, 0x4e11322d, 0x3fce2480);
    assert MixA(Regs(0x51232e53, 0x4e11322d, 0x3fce2480), 4) == Regs(0xedb741d0, 0x4e11322d, 0x8ddf56ad);
    assert MixB(Regs(0xedb741d0, 0x4e11322d, 0x8ddf56ad), 6) == Regs(0x7b96987d, 0xd898466, 0x8ddf56ad);
    assert MixC(Regs(0x7b96987d, 0xd898466, 0x8ddf56ad), 8) == Regs(0x7b96987d, 0x89201ce3, 0x9d1b44a);
    assert MixA(Regs(0x7b96987d, 0x89201ce3, 0x9d1b44a), 16) == Regs(0xc58eede2, 0x89201ce3, 0x92f1d12d);
    assert MixB(Regs(0xc58eede2, 0x89201ce3, 0x92f1d12d), 19) == Regs(0x5880bf0f, 0xac870376, 0x92f1d12d);
    assert MixC(Regs(0x5880bf0f, 0xac870376, 0x92f1d12d), 4) == Regs(0x5880bf0f, 0x507c285, 0x2e1afadd);
  }

  lemma {:induction false} Block16()
    ensures Mix(Absorb(Regs(0x5880bf0f, 0x507c285, 0x2e1afadd), SECOND, true))
         == Regs(0xf0a95c6c, 0x6ea72b3e, 0x327297d5)
  {
    var key: seq<Byte> := SECOND;
    assert WordAt(key, 0, true) == 0x7320646e;
    assert WordAt(key, 4, true) == 0x6e657665;
    assert WordAt(key, 8, true) == 0x61657920;
    assert Absorb(Regs(0x5880bf0f, 0x507c285, 0x2e1afadd), key, true) == Regs(0xcba1237d, 0x736d38ea, 0x8f8073fd);
    assert MixA(Regs(0xcba1237d, 0x736d38ea, 0x8f8073fd), 4) == Regs(0xc4279058, 0x736d38ea, 0x2edace7);
    assert MixB(Regs(0xc4279058, 0x736d38ea, 0x2edace7), 6) == Regs(0xc7153d3f, 0xa6a1bea3, 0x2edace7);
    assert MixC(Regs(0xc7153d3f, 0xa6a1bea3, 0x2edace7), 8) == Regs(0xc7153d3f, 0x6db6fbe2, 0xfdf54de2);
    assert MixA(Regs(0xc7153d3f, 0x6db6fbe2, 0xfdf54de2), 16) == Regs(0x84fd12a8, 0x6db6fbe2, 0x6bac49c4);
    assert MixB(Regs(0x84fd12a8, 0x6db6fbe2, 0x6bac49c4), 19) == Regs(0xf0a95c6c, 0x7dfdced2, 0x6bac49c4);
    assert MixC(Regs(0xf0a95c6c, 0x7dfdced2, 0x6bac49c4), 4) == Regs(0xf0a95c6c, 0x6ea72b3e, 0x327297d5);
  }

  lemma {:induction false} Last17()
    ensures Final(Absorb(Regs(0xf0a95c6c, 0x6ea72b3e, 0x327297d5), THIRD, true))
         == Regs(0x6cd40950, 0xbd371de4, 0xe3607cae)
  {
    var key: seq<Byte> := THIRD;
    assert WordAt(key, 0, true) == 0x61207372;
    assert WordAt(key, 4, true) == 0x6f67;
    assert WordAt(key, 8, true) == 0x0;
    assert Absorb(Regs(0xf0a95c6c, 0x6ea72b3e, 0x327297d5), key, true) == Regs(0x51c9cfde, 0x6ea79aa5, 0x327297d5);
    assert FinalC(Regs(0x51c9cfde, 0x6ea79aa5, 0x327297d5), 14) == Regs(0x51c9cfde, 0x6ea79aa5, 0x762bb1c7);
    assert FinalA(Regs(0x51c9cfde, 0x6ea79aa5, 0x762bb1c7), 11) == Regs(0xca544268, 0x6ea79aa5, 0x762bb1c7);
    assert FinalB(Regs(0xca544268, 0x6ea79aa5, 0x762bb1c7), 25) == Regs(0xca544268, 0xd35f3049, 0x762bb1c7);
    assert FinalC(Regs(0xca544268, 0xd35f3049, 0x762bb1c7), 16) == Regs(0xca544268, 0xd35f3049, 0x752aae2f);
    assert FinalA(Regs(0xca544268, 0xd35f3049, 0x752aae2f), 4) == Regs(0x6cd40950, 0xd35f3049, 0x752aae2f);
    assert FinalB(Regs(0x6cd40950, 0xd35f3049, 0x752aae2f), 14) == Regs(0x6cd40950, 0xbd371de4, 0x752aae2f);
    assert FinalC(Regs(0x6cd40950, 0xbd371de4, 0x752aae2f), 24) == Regs(0x6cd40950, 0xbd371de4, 0xe3607cae);
  }

  /** And with a secondary seed of 1. */
  lemma {:induction false} ThreeBlocksPair()
    ensures HashFrom(Regs(0xdeadbf0d, 0xdeadbf0d, 0xdeadbf0e), FOUR_SCORE, true)
         == Regs(0x6cd40950, 0xbd371de4, 0xe3607cae)
  {
    hide Mix, Final, Absorb, HashFrom, ToWord;
    Size30();
    Blocks();
    Block15();
    NextBlock(Regs(0xdeadbf0d, 0xdeadbf0d, 0xdeadbf0e), FOUR_SCORE, true);
    Block16();
    NextBlock(Regs(0x5880bf0f, 0x507c285, 0x2e1afadd), FOUR_SCORE[12..], true);
    Last17();
    LastBlock(Regs(0xf0a95c6c, 0x6ea72b3e, 0x327297d5), FOUR_SCORE[24..], true);
  }
}
