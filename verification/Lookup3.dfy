/** The lookup3 hash: one recursive function of the key's bytes, proved equal to every code path that reads the key
    by words, half-words or bytes; and the reversibility of its mixing steps. */
module Lookup3 {

  type Byte = bv8
  type Word = bv32

  // ---------------------------------------------------------------------------------------------
  // Words and mixing
  // ---------------------------------------------------------------------------------------------

  /** The three registers a, b, c of the hash. */
  datatype Regs = Regs(a: Word, b: Word, c: Word)

  function Rotl(x: Word, k: nat): Word
    requires 0 < k < 32
  {
    (x << k) | (x >> (32 - k))
  }

  // Arithmetic on 32 bits, wrapping around.
  function Plus(x: Word, y: Word): Word {
    x + y
  }

  function Minus(x: Word, y: Word): Word {
    x - y
  }

  function Xor(x: Word, y: Word): Word {
    x ^ y
  }

  lemma {:induction false} SumMinus(x: Word, y: Word, s: Word)
    requires s == x + y
    ensures Minus(s, y) == x
  {
  }

  lemma {:induction false} DifferencePlus(x: Word, y: Word, d: Word)
    requires d == x - y
    ensures Plus(d, y) == x
  {
  }

  lemma {:induction false} PlusIs(x: Word, y: Word)
    ensures Plus(x, y) == x + y
  {
  }

  lemma {:induction false} MinusIs(x: Word, y: Word)
    ensures Minus(x, y) == x - y
  {
  }

  lemma {:induction false} XorXor(x: Word, y: Word)
    ensures Xor(Xor(x, y), y) == x
  {
  }

  lemma {:induction false} Cancels(x: Word, y: Word)
    ensures Minus(Plus(x, y), y) == x && Plus(Minus(x, y), y) == x && Xor(Xor(x, y), y) == x
  {
    hide Plus, Minus, Xor;
    PlusIs(x, y);
    SumMinus(x, y, Plus(x, y));
    MinusIs(x, y);
    DifferencePlus(x, y, Minus(x, y));
    XorXor(x, y);
  }

  // One line of _JLU3_MIX each, named after the register that is mixed.
  function MixA(r: Regs, k: nat): Regs
    requires 0 < k < 32
  {
    Regs(Xor(Minus(r.a, r.c), Rotl(r.c, k)), r.b, Plus(r.c, r.b))
  }

  function MixB(r: Regs, k: nat): Regs
    requires 0 < k < 32
  {
    Regs(Plus(r.a, r.c), Xor(Minus(r.b, r.a), Rotl(r.a, k)), r.c)
  }

  function MixC(r: Regs, k: nat): Regs
    requires 0 < k < 32
  {
    Regs(r.a, Plus(r.b, r.a), Xor(Minus(r.c, r.b), Rotl(r.b, k)))
  }

  function Mix(r: Regs): Regs {
    MixC(MixB(MixA(MixC(MixB(MixA(r, 4), 6), 8), 16), 19), 4)
  }

  // One step of _JLU3_FINAL each.
  function FinalC(r: Regs, k: nat): Regs
    requires 0 < k < 32
  {
    r.(c := Minus(Xor(r.c, r.b), Rotl(r.b, k)))
  }

  function FinalA(r: Regs, k: nat): Regs
    requires 0 < k < 32
  {
    r.(a := Minus(Xor(r.a, r.c), Rotl(r.c, k)))
  }

  function FinalB(r: Regs, k: nat): Regs
    requires 0 < k < 32
  {
    r.(b := Minus(Xor(r.b, r.a), Rotl(r.a, k)))
  }

  function Final(r: Regs): Regs {
    FinalC(FinalB(FinalA(FinalC(FinalB(FinalA(FinalC(r, 14), 11), 25), 16), 4), 14), 24)
  }

  // The steps run backwards.
  function UnmixA(r: Regs, k: nat): Regs
    requires 0 < k < 32
  {
    var c := Minus(r.c, r.b);
    Regs(Plus(Xor(r.a, Rotl(c, k)), c), r.b, c)
  }

  function UnmixB(r: Regs, k: nat): Regs
    requires 0 < k < 32
  {
    var a := Minus(r.a, r.c);
    Regs(a, Plus(Xor(r.b, Rotl(a, k)), a), r.c)
  }

  function UnmixC(r: Regs, k: nat): Regs
    requires 0 < k < 32
  {
    var b := Minus(r.b, r.a);
    Regs(r.a, b, Plus(Xor(r.c, Rotl(b, k)), b))
  }

  function Unmix(r: Regs): Regs {
    UnmixA(UnmixB(UnmixC(UnmixA(UnmixB(UnmixC(r, 4), 19), 16), 8), 6), 4)
  }

  function UnfinalC(r: Regs, k: nat): Regs
    requires 0 < k < 32
  {
    r.(c := Xor(Plus(r.c, Rotl(r.b, k)), r.b))
  }

  function UnfinalA(r: Regs, k: nat): Regs
    requires 0 < k < 32
  {
    r.(a := Xor(Plus(r.a, Rotl(r.c, k)), r.c))
  }

  function UnfinalB(r: Regs, k: nat): Regs
    requires 0 < k < 32
  {
    r.(b := Xor(Plus(r.b, Rotl(r.a, k)), r.a))
  }

  function Unfinal(r: Regs): Regs {
    UnfinalC(UnfinalA(UnfinalB(UnfinalC(UnfinalA(UnfinalB(UnfinalC(r, 24), 14), 4), 16), 25), 11), 14)
  }

  lemma {:induction false} MixAReverses(r: Regs, k: nat)
    requires 0 < k < 32
    ensures UnmixA(MixA(r, k), k) == r && MixA(UnmixA(r, k), k) == r
  {
    hide Rotl, Plus, Minus, Xor;
    var c := Minus(r.c, r.b);
    Cancels(r.c, r.b);
    Cancels(r.a, r.c);
    Cancels(Minus(r.a, r.c), Rotl(r.c, k));
    Cancels(r.a, Rotl(c, k));
    Cancels(Xor(r.a, Rotl(c, k)), c);
  }

  lemma {:induction false} MixBReverses(r: Regs, k: nat)
    requires 0 < k < 32
    ensures UnmixB(MixB(r, k), k) == r && MixB(UnmixB(r, k), k) == r
  {
    hide Rotl, Plus, Minus, Xor;
    var a := Minus(r.a, r.c);
    Cancels(r.a, r.c);
    Cancels(r.b, r.a);
    Cancels(Minus(r.b, r.a), Rotl(r.a, k));
    Cancels(r.b, Rotl(a, k));
    Cancels(Xor(r.b, Rotl(a, k)), a);
  }

  lemma {:induction false} MixCReverses(r: Regs, k: nat)
    requires 0 < k < 32
    ensures UnmixC(MixC(r, k), k) == r && MixC(UnmixC(r, k), k) == r
  {
    hide Rotl, Plus, Minus, Xor;
    var b := Minus(r.b, r.a);
    Cancels(r.b, r.a);
    Cancels(r.c, r.b);
    Cancels(Minus(r.c, r.b), Rotl(r.b, k));
    Cancels(r.c, Rotl(b, k));
    Cancels(Xor(r.c, Rotl(b, k)), b);
  }

  lemma {:induction false} FinalCReverses(r: Regs, k: nat)
    requires 0 < k < 32
    ensures UnfinalC(FinalC(r, k), k) == r && FinalC(UnfinalC(r, k), k) == r
  {
    hide Rotl, Plus, Minus, Xor;
    Cancels(r.c, r.b);
    Cancels(Xor(r.c, r.b), Rotl(r.b, k));
    Cancels(r.c, Rotl(r.b, k));
    Cancels(Plus(r.c, Rotl(r.b, k)), r.b);
  }

  lemma {:induction false} FinalAReverses(r: Regs, k: nat)
    requires 0 < k < 32
    ensures UnfinalA(FinalA(r, k), k) == r && FinalA(UnfinalA(r, k), k) == r
  {
    hide Rotl, Plus, Minus, Xor;
    Cancels(r.a, r.c);
    Cancels(Xor(r.a, r.c), Rotl(r.c, k));
    Cancels(r.a, Rotl(r.c, k));
    Cancels(Plus(r.a, Rotl(r.c, k)), r.c);
  }

  lemma {:induction false} FinalBReverses(r: Regs, k: nat)
    requires 0 < k < 32
    ensures UnfinalB(FinalB(r, k), k) == r && FinalB(UnfinalB(r, k), k) == r
  {
    hide Rotl, Plus, Minus, Xor;
    Cancels(r.b, r.a);
    Cancels(Xor(r.b, r.a), Rotl(r.a, k));
    Cancels(r.b, Rotl(r.a, k));
    Cancels(Plus(r.b, Rotl(r.a, k)), r.a);
  }

  /** _JLU3_MIX loses nothing: it is a bijection on triples of words. */
  lemma {:induction false} MixIsReversible(r: Regs)
    ensures Unmix(Mix(r)) == r && Mix(Unmix(r)) == r
  {
    hide MixA, MixB, MixC, UnmixA, UnmixB, UnmixC;
    var r1 := MixA(r, 4);
    var r2 := MixB(r1, 6);
    var r3 := MixC(r2, 8);
    var r4 := MixA(r3, 16);
    var r5 := MixB(r4, 19);
    MixAReverses(r, 4);
    MixBReverses(r1, 6);
    MixCReverses(r2, 8);
    MixAReverses(r3, 16);
    MixBReverses(r4, 19);
    MixCReverses(r5, 4);
    var u1 := UnmixC(r, 4);
    var u2 := UnmixB(u1, 19);
    var u3 := UnmixA(u2, 16);
    var u4 := UnmixC(u3, 8);
    var u5 := UnmixB(u4, 6);
    MixCReverses(r, 4);
    MixBReverses(u1, 19);
    MixAReverses(u2, 16);
    MixCReverses(u3, 8);
    MixBReverses(u4, 6);
    MixAReverses(u5, 4);
  }

  lemma {:induction false} FinalIsReversible(r: Regs)
    ensures Unfinal(Final(r)) == r && Final(Unfinal(r)) == r
  {
    hide FinalA, FinalB, FinalC, UnfinalA, UnfinalB, UnfinalC;
    var r1 := FinalC(r, 14);
    var r2 := FinalA(r1, 11);
    var r3 := FinalB(r2, 25);
    var r4 := FinalC(r3, 16);
    var r5 := FinalA(r4, 4);
    var r6 := FinalB(r5, 14);
    FinalCReverses(r, 14);
    FinalAReverses(r1, 11);
    FinalBReverses(r2, 25);
    FinalCReverses(r3, 16);
    FinalAReverses(r4, 4);
    FinalBReverses(r5, 14);
    FinalCReverses(r6, 24);
    var u1 := UnfinalC(r, 24);
    var u2 := UnfinalB(u1, 14);
    var u3 := UnfinalA(u2, 4);
    var u4 := UnfinalC(u3, 16);
    var u5 := UnfinalB(u4, 25);
    var u6 := UnfinalA(u5, 11);
    FinalCReverses(r, 24);
    FinalBReverses(u1, 14);
    FinalAReverses(u2, 4);
    FinalCReverses(u3, 16);
    FinalBReverses(u4, 25);
    FinalAReverses(u5, 11);
    FinalCReverses(u6, 14);
  }

  // ---------------------------------------------------------------------------------------------
  // The hash as a function of the key's bytes
  // ---------------------------------------------------------------------------------------------

  /** Four bytes as a word, least significant first or last. */
  function Pack(b0: Byte, b1: Byte, b2: Byte, b3: Byte, little: bool): Word {
    if little then (b0 as Word) | ((b1 as Word) << 8) | ((b2 as Word) << 16) | ((b3 as Word) << 24)
    else ((b0 as Word) << 24) | ((b1 as Word) << 16) | ((b2 as Word) << 8) | (b3 as Word)
  }

  /** A byte of the key, or 0 beyond its end. */
  function At(key: seq<Byte>, i: nat): Byte {
    if i < |key| then key[i] else 0
  }

  function WordAt(key: seq<Byte>, i: nat, little: bool): Word {
    Pack(At(key, i), At(key, i + 1), At(key, i + 2), At(key, i + 3), little)
  }

  /** Add the first twelve bytes, padded with zeros, to the registers. */
  function Absorb(r: Regs, key: seq<Byte>, little: bool): Regs {
    Regs(Plus(r.a, WordAt(key, 0, little)), Plus(r.b, WordAt(key, 4, little)), Plus(r.c, WordAt(key, 8, little)))
  }

  /** The registers after hashing the rest `key` of the key. */
  function HashFrom(r: Regs, key: seq<Byte>, little: bool): Regs
    decreases |key|
  {
    if |key| > 12 then HashFrom(Mix(Absorb(r, key[..12], little)), key[12..], little)
    else if key == [] then r
    else Final(Absorb(r, key, little))
  }

  /** The conversion of a size to 32 bits. */
  function ToWord(n: nat): Word {
    (n % 0x1_0000_0000) as Word
  }

  function InitWord(h: Word, size: nat): Word {
    0xdeadbeef + ToWord(size) + h
  }

  function InitRegs(h: Word, size: nat): Regs {
    var i := InitWord(h, size);
    Regs(i, i, i)
  }

  function Hash(h: Word, key: seq<Byte>, little: bool): Word {
    HashFrom(InitRegs(h, |key|), key, little).c
  }

  // ---------------------------------------------------------------------------------------------
  // Keys that differ in one block
  // ---------------------------------------------------------------------------------------------

  lemma {:induction false} PackIsInjective(a0: Byte, a1: Byte, a2: Byte, a3: Byte,
                                           b0: Byte, b1: Byte, b2: Byte, b3: Byte, little: bool)
    ensures Pack(a0, a1, a2, a3, little) == Pack(b0, b1, b2, b3, little) ==>
              a0 == b0 && a1 == b1 && a2 == b2 && a3 == b3
  {
  }

  lemma {:induction false} PlusIsInjective(x: Word, y: Word, z: Word)
    ensures Plus(x, y) == Plus(x, z) ==> y == z
    ensures Plus(y, x) == Plus(z, x) ==> y == z
  {
    hide Plus, Minus, Xor;
    Cancels(y, x);
    Cancels(z, x);
    PlusCommutes(x, y);
    PlusCommutes(x, z);
  }

  lemma {:induction false} PlusCommutes(x: Word, y: Word)
    ensures Plus(x, y) == Plus(y, x)
  {
  }

  lemma {:induction false} SameWordSameBytes(k: seq<Byte>, l: seq<Byte>, i: nat, little: bool)
    requires |k| == |l| >= i + 4
    ensures WordAt(k, i, little) == WordAt(l, i, little) ==> k[i..i + 4] == l[i..i + 4]
  {
    hide Pack;
    PackIsInjective(At(k, i), At(k, i + 1), At(k, i + 2), At(k, i + 3),
                    At(l, i), At(l, i + 1), At(l, i + 2), At(l, i + 3), little);
  }

  /** Absorbing different full blocks into the same registers leaves different registers. */
  lemma {:induction false} BlocksAreKeptApart(r: Regs, k: seq<Byte>, l: seq<Byte>, little: bool)
    requires |k| == |l| == 12 && k != l
    ensures Absorb(r, k, little) != Absorb(r, l, little)
  {
    hide WordAt, Plus;
    PlusIsInjective(r.a, WordAt(k, 0, little), WordAt(l, 0, little));
    PlusIsInjective(r.b, WordAt(k, 4, little), WordAt(l, 4, little));
    PlusIsInjective(r.c, WordAt(k, 8, little), WordAt(l, 8, little));
    assert k == k[0..4] + k[4..8] + k[8..12] && l == l[0..4] + l[4..8] + l[8..12];
    if k[0..4] != l[0..4] {
      SameWordSameBytes(k, l, 0, little);
    } else if k[4..8] != l[4..8] {
      SameWordSameBytes(k, l, 4, little);
    } else {
      SameWordSameBytes(k, l, 8, little);
    }
  }

  /** Absorbing the same block into different registers leaves different registers. */
  lemma {:induction false} RegistersAreKeptApart(r: Regs, q: Regs, k: seq<Byte>, little: bool)
    requires r != q
    ensures Absorb(r, k, little) != Absorb(q, k, little)
  {
    hide WordAt, Plus;
    PlusIsInjective(WordAt(k, 0, little), r.a, q.a);
    PlusIsInjective(WordAt(k, 4, little), r.b, q.b);
    PlusIsInjective(WordAt(k, 8, little), r.c, q.c);
  }

  /** Once apart, the registers never merge again, to the end of the hash. */
  lemma {:induction false} NeverMergeAgain(r: Regs, q: Regs, key: seq<Byte>, little: bool)
    requires r != q
    ensures HashFrom(r, key, little) != HashFrom(q, key, little)
    decreases |key|
  {
    hide Mix, Unmix, Final, Unfinal, Absorb;
    if |key| > 12 {
      var r', q' := Absorb(r, key[..12], little), Absorb(q, key[..12], little);
      RegistersAreKeptApart(r, q, key[..12], little);
      MixIsReversible(r');
      MixIsReversible(q');
      NeverMergeAgain(Mix(r'), Mix(q'), key[12..], little);
    } else if key != [] {
      RegistersAreKeptApart(r, q, key, little);
      FinalIsReversible(Absorb(r, key, little));
      FinalIsReversible(Absorb(q, key, little));
    }
  }

  /** The main result: two keys `prefix + block + suffix` that differ in one full block, at a multiple of twelve
      bytes, leave different registers at the end. */
  lemma {:induction false} OneBlockMatters(r: Regs, prefix: seq<Byte>, k: seq<Byte>, l: seq<Byte>,
                                           suffix: seq<Byte>, little: bool)
    requires |prefix| % 12 == 0 && |k| == |l| == 12 && k != l
    ensures HashFrom(r, prefix + k + suffix, little) != HashFrom(r, prefix + l + suffix, little)
    decreases |prefix|
  {
    hide Mix, Unmix, Final, Unfinal, Absorb;
    var x, y := prefix + k + suffix, prefix + l + suffix;
    if prefix == [] {
      assert x[..12] == k && y[..12] == l && x[12..] == suffix && y[12..] == suffix;
      BlocksAreKeptApart(r, k, l, little);
      var r', q' := Absorb(r, k, little), Absorb(r, l, little);
      if suffix == [] {
        assert x == k && y == l;
        FinalIsReversible(r');
        FinalIsReversible(q');
      } else {
        MixIsReversible(r');
        MixIsReversible(q');
        NeverMergeAgain(Mix(r'), Mix(q'), suffix, little);
      }
    } else {
      var rest := prefix[12..];
      assert x[..12] == prefix[..12] && y[..12] == prefix[..12];
      assert x[12..] == rest + k + suffix && y[12..] == rest + l + suffix;
      OneBlockMatters(Mix(Absorb(r, prefix[..12], little)), rest, k, l, suffix, little);
    }
  }
}
