/** The code paths of lookup3: reading the key by 32-bit words, by 16-bit half-words or by bytes, in place in memory.
    Each is proved to compute the one function `Lookup3.HashFrom` of the key's bytes. */
module HashPaths {
  import opened Lookup3

  /** A key in memory, or a null pointer. */
  datatype Pointer = Null | To(address: nat)

  // ---------------------------------------------------------------------------------------------
  // Loads, masks and sums
  // ---------------------------------------------------------------------------------------------

  /** A 32-bit load, in the byte order of the machine. */
  function Load32(mem: seq<Byte>, p: nat, little: bool): Word
    requires p + 4 <= |mem|
  {
    Pack(mem[p], mem[p + 1], mem[p + 2], mem[p + 3], little)
  }

  /** A 16-bit load on a little-endian machine, widened. */
  function Load16(mem: seq<Byte>, p: nat): Word
    requires p + 2 <= |mem|
  {
    (mem[p] as Word) | ((mem[p + 1] as Word) << 8)
  }

  /** The part of a loaded word that holds the first `n` bytes. */
  function Mask(n: nat, little: bool): Word
    requires 1 <= n <= 3
  {
    if n == 3 then if little then 0xffffff else 0xffffff00
    else if n == 2 then if little then 0xffff else 0xffff0000
    else if little then 0xff else 0xff000000
  }

  function And(x: Word, y: Word): Word {
    x & y
  }

  /** Load a word and keep its first `n` bytes. */
  function LoadPart(mem: seq<Byte>, p: nat, n: nat, little: bool): Word
    requires p + 4 <= |mem| && 1 <= n <= 4
  {
    if n == 4 then Load32(mem, p, little) else And(Load32(mem, p, little), Mask(n, little))
  }

  function High(x: Word): Word {
    x << 16
  }

  /** Byte `i` of a word, moved to its place. */
  function Placed(b: Byte, i: nat, little: bool): Word
    requires i < 4
  {
    var k := if little then i else 3 - i;
    if k == 0 then b as Word else if k == 1 then (b as Word) << 8 else if k == 2 then (b as Word) << 16 else (b as Word) << 24
  }

  lemma {:induction false} Mask3Packs(b0: Byte, b1: Byte, b2: Byte, b3: Byte, little: bool)
    ensures And(Pack(b0, b1, b2, b3, little), Mask(3, little)) == Pack(b0, b1, b2, 0, little)
  {
  }

  lemma {:induction false} Mask2Packs(b0: Byte, b1: Byte, b2: Byte, b3: Byte, little: bool)
    ensures And(Pack(b0, b1, b2, b3, little), Mask(2, little)) == Pack(b0, b1, 0, 0, little)
  {
  }

  lemma {:induction false} Mask1Packs(b0: Byte, b1: Byte, b2: Byte, b3: Byte, little: bool)
    ensures And(Pack(b0, b1, b2, b3, little), Mask(1, little)) == Pack(b0, 0, 0, 0, little)
  {
  }

  /** The masked over-read: whatever lies behind the key in its last word, the masked word is the key's own. */
  lemma {:induction false} MaskedLoad(mem: seq<Byte>, k: nat, size: nat, i: nat, n: nat, little: bool)
    requires k + size <= |mem| && k + i + 4 <= |mem| && 1 <= n <= 4 && size == i + n
    ensures LoadPart(mem, k + i, n, little) == WordAt(mem[k..k + size], i, little)
  {
    hide Pack, And, Mask;
    var key := mem[k..k + size];
    assert forall j :: i <= j < size ==> key[j] == mem[k + j];
    var b0, b1, b2, b3 := mem[k + i], mem[k + i + 1], mem[k + i + 2], mem[k + i + 3];
    Mask3Packs(b0, b1, b2, b3, little);
    Mask2Packs(b0, b1, b2, b3, little);
    Mask1Packs(b0, b1, b2, b3, little);
  }

  lemma {:induction false} WholeLoad(mem: seq<Byte>, k: nat, size: nat, i: nat, little: bool)
    requires k + size <= |mem| && i + 4 <= size
    ensures Load32(mem, k + i, little) == WordAt(mem[k..k + size], i, little)
  {
  }

  // Each fact about sums of placed bytes is a lemma of its own, one byte order at a time; the regrouping then needs
  // no bits.

  lemma {:induction false} SumsRegroup(x: Word, y: Word, z: Word, xy: Word, yz: Word)
    requires xy == x + y && yz == y + z
    ensures Plus(xy, z) == Plus(x, yz)
  {
  }

  lemma {:induction false} Regroup(x: Word, y: Word, z: Word)
    ensures Plus(Plus(x, y), z) == Plus(x, Plus(y, z))
  {
    hide Plus;
    PlusIs(x, y);
    PlusIs(y, z);
    SumsRegroup(x, y, z, Plus(x, y), Plus(y, z));
  }

  lemma {:induction false} SumUp(b0: Byte, b1: Byte, b2: Byte, b3: Byte, little: bool)
    ensures Plus(Plus(Plus(Placed(b0, 0, little), Placed(b1, 1, little)), Placed(b2, 2, little)), Placed(b3, 3, little))
            == Pack(b0, b1, b2, b3, little)
  {
    if little {
    } else {
    }
  }

  lemma {:induction false} SumDown(b0: Byte, b1: Byte, b2: Byte, b3: Byte, little: bool)
    ensures Plus(Plus(Plus(Placed(b3, 3, little), Placed(b2, 2, little)), Placed(b1, 1, little)), Placed(b0, 0, little))
            == Pack(b0, b1, b2, b3, little)
  {
    if little {
    } else {
    }
  }

  lemma {:induction false} SumDown3(b0: Byte, b1: Byte, b2: Byte, little: bool)
    ensures Plus(Plus(Placed(b2, 2, little), Placed(b1, 1, little)), Placed(b0, 0, little)) == Pack(b0, b1, b2, 0, little)
  {
    if little {
    } else {
    }
  }

  lemma {:induction false} SumDown2(b0: Byte, b1: Byte, little: bool)
    ensures Plus(Placed(b1, 1, little), Placed(b0, 0, little)) == Pack(b0, b1, 0, 0, little)
  {
    if little {
    } else {
    }
  }

  lemma {:induction false} PlacedAlone(b0: Byte, little: bool)
    ensures Placed(b0, 0, little) == Pack(b0, 0, 0, 0, little)
  {
  }

  lemma {:induction false} PackNothing(x: Word, little: bool)
    ensures Plus(x, Pack(0, 0, 0, 0, little)) == x
  {
  }

  /** The four additions of the byte loop. */
  function AddUp(x: Word, b0: Byte, b1: Byte, b2: Byte, b3: Byte, little: bool): Word {
    Plus(Plus(Plus(Plus(x, Placed(b0, 0, little)), Placed(b1, 1, little)), Placed(b2, 2, little)), Placed(b3, 3, little))
  }

  lemma {:induction false} AddUpPacks(x: Word, b0: Byte, b1: Byte, b2: Byte, b3: Byte, little: bool)
    ensures AddUp(x, b0, b1, b2, b3, little) == Plus(x, Pack(b0, b1, b2, b3, little))
  {
    hide Plus, Pack, Placed;
    var w0, w1, w2, w3 := Placed(b0, 0, little), Placed(b1, 1, little), Placed(b2, 2, little), Placed(b3, 3, little);
    Regroup(x, w0, w1);
    Regroup(x, Plus(w0, w1), w2);
    Regroup(x, Plus(Plus(w0, w1), w2), w3);
    SumUp(b0, b1, b2, b3, little);
  }

  /** The additions of the last bytes of a word, from the highest index down, as the switch falls through. */
  function AddDown(x: Word, key: seq<Byte>, i: nat, little: bool): Word {
    var x3 := if i + 3 < |key| then Plus(x, Placed(key[i + 3], 3, little)) else x;
    var x2 := if i + 2 < |key| then Plus(x3, Placed(key[i + 2], 2, little)) else x3;
    var x1 := if i + 1 < |key| then Plus(x2, Placed(key[i + 1], 1, little)) else x2;
    if i < |key| then Plus(x1, Placed(key[i], 0, little)) else x1
  }

  lemma {:induction false} AddDownPacks(x: Word, key: seq<Byte>, i: nat, little: bool)
    ensures AddDown(x, key, i, little) == Plus(x, WordAt(key, i, little))
  {
    hide Plus, Pack, Placed;
    var b0, b1, b2, b3 := At(key, i), At(key, i + 1), At(key, i + 2), At(key, i + 3);
    var w0, w1, w2, w3 := Placed(b0, 0, little), Placed(b1, 1, little), Placed(b2, 2, little), Placed(b3, 3, little);
    if i + 3 < |key| {
      Regroup(x, w3, w2);
      Regroup(x, Plus(w3, w2), w1);
      Regroup(x, Plus(Plus(w3, w2), w1), w0);
      SumDown(b0, b1, b2, b3, little);
    } else if i + 2 < |key| {
      Regroup(x, w2, w1);
      Regroup(x, Plus(w2, w1), w0);
      SumDown3(b0, b1, b2, little);
    } else if i + 1 < |key| {
      Regroup(x, w1, w0);
      SumDown2(b0, b1, little);
    } else if i < |key| {
      PlacedAlone(b0, little);
    } else {
      PackNothing(x, little);
    }
  }

  /** Two half-words make a word. */
  lemma {:induction false} HalvesPack(b0: Byte, b1: Byte, b2: Byte, b3: Byte)
    ensures Plus((b0 as Word) | ((b1 as Word) << 8), High((b2 as Word) | ((b3 as Word) << 8))) == Pack(b0, b1, b2, b3, true)
  {
  }

  lemma {:induction false} HalfAndBytePack(b0: Byte, b1: Byte, b2: Byte)
    ensures Plus(High(b2 as Word), (b0 as Word) | ((b1 as Word) << 8)) == Pack(b0, b1, b2, 0, true)
  {
  }

  lemma {:induction false} HalfPacks(b0: Byte, b1: Byte)
    ensures (b0 as Word) | ((b1 as Word) << 8) == Pack(b0, b1, 0, 0, true)
  {
  }

  lemma {:induction false} BytePacks(b0: Byte)
    ensures b0 as Word == Pack(b0, 0, 0, 0, true)
  {
  }

  // ---------------------------------------------------------------------------------------------
  // The mixing macros
  // ---------------------------------------------------------------------------------------------

  method MixInPlace(a0: Word, b0: Word, c0: Word) returns (a: Word, b: Word, c: Word)
    ensures Regs(a, b, c) == Mix(Regs(a0, b0, c0))
  {
    hide Rotl, Plus, Minus, Xor;
    a, b, c := a0, b0, c0;
    a := Minus(a, c);  a := Xor(a, Rotl(c, 4));   c := Plus(c, b);
    b := Minus(b, a);  b := Xor(b, Rotl(a, 6));   a := Plus(a, c);
    c := Minus(c, b);  c := Xor(c, Rotl(b, 8));   b := Plus(b, a);
    a := Minus(a, c);  a := Xor(a, Rotl(c, 16));  c := Plus(c, b);
    b := Minus(b, a);  b := Xor(b, Rotl(a, 19));  a := Plus(a, c);
    c := Minus(c, b);  c := Xor(c, Rotl(b, 4));   b := Plus(b, a);
  }

  method FinalInPlace(a0: Word, b0: Word, c0: Word) returns (a: Word, b: Word, c: Word)
    ensures Regs(a, b, c) == Final(Regs(a0, b0, c0))
  {
    hide Rotl, Plus, Minus, Xor;
    a, b, c := a0, b0, c0;
    c := Xor(c, b);  c := Minus(c, Rotl(b, 14));
    a := Xor(a, c);  a := Minus(a, Rotl(c, 11));
    b := Xor(b, a);  b := Minus(b, Rotl(a, 25));
    c := Xor(c, b);  c := Minus(c, Rotl(b, 16));
    a := Xor(a, c);  a := Minus(a, Rotl(c, 4));
    b := Xor(b, a);  b := Minus(b, Rotl(a, 14));
    c := Xor(c, b);  c := Minus(c, Rotl(b, 24));
  }

  // ---------------------------------------------------------------------------------------------
  // The code paths
  // ---------------------------------------------------------------------------------------------

  /** One turn of a loop: the hash of the rest of the key after its first block. */
  lemma {:induction false} NextBlock(r: Regs, mem: seq<Byte>, k: nat, size: nat, little: bool)
    requires 12 < size && k + size <= |mem|
    ensures HashFrom(r, mem[k..k + size], little)
            == HashFrom(Mix(Absorb(r, mem[k..k + 12], little)), mem[k + 12..k + size], little)
  {
    hide Mix, Absorb;
    var key := mem[k..k + size];
    assert key[..12] == mem[k..k + 12] && key[12..] == mem[k + 12..k + size];
  }

  /** The last block, when the registers have absorbed it. */
  lemma {:induction false} LastBlock(r: Regs, key: seq<Byte>, little: bool)
    requires |key| <= 12
    ensures HashFrom(r, key, little) == if key == [] then r else Final(Absorb(r, key, little))
  {
    hide Final, Absorb;
  }

  /** The path for keys on a 4-byte boundary: 32-bit loads; the last load may reach behind the key, within its word. */
  method HashWords(a0: Word, b0: Word, c0: Word, mem: seq<Byte>, key: nat, n: nat, little: bool)
    returns (a: Word, b: Word, c: Word)
    requires key % 4 == 0 && |mem| % 4 == 0 && key + n <= |mem|
    ensures Regs(a, b, c) == HashFrom(Regs(a0, b0, c0), mem[key..key + n], little)
  {
    hide HashFrom, Mix, Final, Plus, Load32, WordAt;
    a, b, c := a0, b0, c0;
    var k, size := key, n;
    while size > 12
      invariant k % 4 == 0 && k + size == key + n
      invariant HashFrom(Regs(a, b, c), mem[k..k + size], little) == HashFrom(Regs(a0, b0, c0), mem[key..key + n], little)
    {
      NextBlock(Regs(a, b, c), mem, k, size, little);
      WholeLoad(mem, k, 12, 0, little);
      WholeLoad(mem, k, 12, 4, little);
      WholeLoad(mem, k, 12, 8, little);
      a := Plus(a, Load32(mem, k, little));
      b := Plus(b, Load32(mem, k + 4, little));
      c := Plus(c, Load32(mem, k + 8, little));
      a, b, c := MixInPlace(a, b, c);
      size := size - 12;
      k := k + 12;
    }
    ghost var r, rest := Regs(a, b, c), mem[k..k + size];
    LastBlock(r, rest, little);
    if size == 0 {
      return;
    }
    a, b, c := LastWords(a, b, c, mem, k, size, little);
    a, b, c := FinalInPlace(a, b, c);
  }

  /** The switch over the last block of the word path. */
  method LastWords(a0: Word, b0: Word, c0: Word, mem: seq<Byte>, k: nat, size: nat, little: bool)
    returns (a: Word, b: Word, c: Word)
    requires k % 4 == 0 && |mem| % 4 == 0 && 0 < size <= 12 && k + size <= |mem|
    ensures Regs(a, b, c) == Absorb(Regs(a0, b0, c0), mem[k..k + size], little)
  {
    hide Plus, LoadPart, Load32, WordAt;
    a, b, c := a0, b0, c0;
    if size > 8 {
      MaskedLoad(mem, k, size, 8, size - 8, little);
      WholeLoad(mem, k, size, 4, little);
      WholeLoad(mem, k, size, 0, little);
      c := Plus(c, LoadPart(mem, k + 8, size - 8, little));
      b := Plus(b, Load32(mem, k + 4, little));
      a := Plus(a, Load32(mem, k, little));
    } else if size > 4 {
      MaskedLoad(mem, k, size, 4, size - 4, little);
      WholeLoad(mem, k, size, 0, little);
      NothingThere(c, mem[k..k + size], 8, little);
      b := Plus(b, LoadPart(mem, k + 4, size - 4, little));
      a := Plus(a, Load32(mem, k, little));
    } else {
      MaskedLoad(mem, k, size, 0, size, little);
      NothingThere(c, mem[k..k + size], 8, little);
      NothingThere(b, mem[k..k + size], 4, little);
      a := Plus(a, LoadPart(mem, k, size, little));
    }
  }

  lemma {:induction false} NothingThere(x: Word, key: seq<Byte>, i: nat, little: bool)
    requires i >= |key|
    ensures Plus(x, WordAt(key, i, little)) == x
  {
    hide Plus, Pack;
    PackNothing(x, little);
  }

  // The half-word path, little-endian only.

  function FullHalves(mem: seq<Byte>, p: nat): Word
    requires p + 4 <= |mem|
  {
    Plus(Load16(mem, p), High(Load16(mem, p + 2)))
  }

  lemma {:induction false} FullHalvesLoad(mem: seq<Byte>, k: nat, size: nat, i: nat)
    requires k + size <= |mem| && i + 4 <= size
    ensures FullHalves(mem, k + i) == WordAt(mem[k..k + size], i, true)
  {
    hide Plus, High, Pack;
    HalvesPack(mem[k + i], mem[k + i + 1], mem[k + i + 2], mem[k + i + 3]);
  }

  /** What the half-word switch adds for a last word of one, two or three bytes. */
  lemma {:induction false} PartHalvesLoad(x: Word, mem: seq<Byte>, k: nat, size: nat, i: nat)
    requires k + size <= |mem| && i < size < i + 4
    ensures size == i + 3 ==>
              Plus(Plus(x, High(mem[k + i + 2] as Word)), Load16(mem, k + i)) == Plus(x, WordAt(mem[k..k + size], i, true))
    ensures size == i + 2 ==> Load16(mem, k + i) == WordAt(mem[k..k + size], i, true)
    ensures size == i + 1 ==> mem[k + i] as Word == WordAt(mem[k..k + size], i, true)
  {
    hide Plus, High, Pack;
    BytePacks(mem[k + i]);
    if size >= i + 2 {
      HalfPacks(mem[k + i], mem[k + i + 1]);
    }
    if size == i + 3 {
      HalfAndBytePack(mem[k + i], mem[k + i + 1], mem[k + i + 2]);
      Regroup(x, High(mem[k + i + 2] as Word), Load16(mem, k + i));
    }
  }

  method HashHalves(a0: Word, b0: Word, c0: Word, mem: seq<Byte>, key: nat, n: nat) returns (a: Word, b: Word, c: Word)
    requires key + n <= |mem|
    ensures Regs(a, b, c) == HashFrom(Regs(a0, b0, c0), mem[key..key + n], true)
  {
    hide HashFrom, Mix, Final, Plus, FullHalves, WordAt;
    a, b, c := a0, b0, c0;
    var k, size := key, n;
    while size > 12
      invariant k + size == key + n
      invariant HashFrom(Regs(a, b, c), mem[k..k + size], true) == HashFrom(Regs(a0, b0, c0), mem[key..key + n], true)
    {
      NextBlock(Regs(a, b, c), mem, k, size, true);
      FullHalvesLoad(mem, k, 12, 0);
      FullHalvesLoad(mem, k, 12, 4);
      FullHalvesLoad(mem, k, 12, 8);
      a := Plus(a, FullHalves(mem, k));
      b := Plus(b, FullHalves(mem, k + 4));
      c := Plus(c, FullHalves(mem, k + 8));
      a, b, c := MixInPlace(a, b, c);
      size := size - 12;
      k := k + 12;
    }
    LastBlock(Regs(a, b, c), mem[k..k + size], true);
    if size == 0 {
      return;
    }
    a, b, c := LastHalves(a, b, c, mem, k, size);
    a, b, c := FinalInPlace(a, b, c);
  }

  /** The switch over the last block of the half-word path. */
  method LastHalves(a0: Word, b0: Word, c0: Word, mem: seq<Byte>, k: nat, size: nat) returns (a: Word, b: Word, c: Word)
    requires 0 < size <= 12 && k + size <= |mem|
    ensures Regs(a, b, c) == Absorb(Regs(a0, b0, c0), mem[k..k + size], true)
  {
    hide Plus, FullHalves, WordAt, High, Load16;
    a, b, c := a0, b0, c0;
    if size >= 4 {
      FullHalvesLoad(mem, k, size, 0);
    } else {
      PartHalvesLoad(a, mem, k, size, 0);
      NothingThere(b, mem[k..k + size], 4, true);
    }
    if size >= 8 {
      FullHalvesLoad(mem, k, size, 4);
    } else if size > 4 {
      PartHalvesLoad(b, mem, k, size, 4);
    } else if size == 4 {
      NothingThere(b, mem[k..k + size], 4, true);
    }
    if size <= 8 {
      NothingThere(c, mem[k..k + size], 8, true);
    } else if size < 12 {
      PartHalvesLoad(c, mem, k, size, 8);
    } else {
      FullHalvesLoad(mem, k, size, 8);
    }
    if size == 12 {
      c := Plus(c, FullHalves(mem, k + 8));
      b := Plus(b, FullHalves(mem, k + 4));
      a := Plus(a, FullHalves(mem, k));
    } else if size >= 10 {
      if size == 11 {
        c := Plus(c, High(mem[k + 10] as Word));
      }
      c := Plus(c, Load16(mem, k + 8));
      b := Plus(b, FullHalves(mem, k + 4));
      a := Plus(a, FullHalves(mem, k));
    } else if size >= 8 {
      if size == 9 {
        c := Plus(c, mem[k + 8] as Word);
      }
      b := Plus(b, FullHalves(mem, k + 4));
      a := Plus(a, FullHalves(mem, k));
    } else if size >= 6 {
      if size == 7 {
        b := Plus(b, High(mem[k + 6] as Word));
      }
      b := Plus(b, Load16(mem, k + 4));
      a := Plus(a, FullHalves(mem, k));
    } else if size >= 4 {
      if size == 5 {
        b := Plus(b, mem[k + 4] as Word);
      }
      a := Plus(a, FullHalves(mem, k));
    } else if size >= 2 {
      if size == 3 {
        a := Plus(a, High(mem[k + 2] as Word));
      }
      a := Plus(a, Load16(mem, k));
    } else {
      a := Plus(a, mem[k] as Word);
    }
  }

  // The byte path, for either order of the bytes in a word.

  lemma {:induction false} BytesLoad(x: Word, mem: seq<Byte>, k: nat, size: nat, i: nat, little: bool)
    requires k + size <= |mem| && i + 4 <= size
    ensures AddUp(x, mem[k + i], mem[k + i + 1], mem[k + i + 2], mem[k + i + 3], little)
            == Plus(x, WordAt(mem[k..k + size], i, little))
  {
    hide Plus, AddUp, Pack;
    AddUpPacks(x, mem[k + i], mem[k + i + 1], mem[k + i + 2], mem[k + i + 3], little);
  }

  method AddBytes(x: Word, mem: seq<Byte>, p: nat, little: bool) returns (y: Word)
    requires p + 4 <= |mem|
    ensures y == AddUp(x, mem[p], mem[p + 1], mem[p + 2], mem[p + 3], little)
  {
    hide Plus, Placed;
    y := Plus(x, Placed(mem[p], 0, little));
    y := Plus(y, Placed(mem[p + 1], 1, little));
    y := Plus(y, Placed(mem[p + 2], 2, little));
    y := Plus(y, Placed(mem[p + 3], 3, little));
  }

  method HashBytes(a0: Word, b0: Word, c0: Word, mem: seq<Byte>, key: nat, n: nat, little: bool)
    returns (a: Word, b: Word, c: Word)
    requires key + n <= |mem|
    ensures Regs(a, b, c) == HashFrom(Regs(a0, b0, c0), mem[key..key + n], little)
  {
    hide HashFrom, Mix, Final, Plus, AddUp, WordAt;
    a, b, c := a0, b0, c0;
    var k, size := key, n;
    while size > 12
      invariant k + size == key + n
      invariant HashFrom(Regs(a, b, c), mem[k..k + size], little) == HashFrom(Regs(a0, b0, c0), mem[key..key + n], little)
    {
      NextBlock(Regs(a, b, c), mem, k, size, little);
      BytesLoad(a, mem, k, 12, 0, little);
      BytesLoad(b, mem, k, 12, 4, little);
      BytesLoad(c, mem, k, 12, 8, little);
      a := AddBytes(a, mem, k, little);
      b := AddBytes(b, mem, k + 4, little);
      c := AddBytes(c, mem, k + 8, little);
      a, b, c := MixInPlace(a, b, c);
      size := size - 12;
      k := k + 12;
    }
    LastBlock(Regs(a, b, c), mem[k..k + size], little);
    if size == 0 {
      return;
    }
    a, b, c := LastBytes(a, b, c, mem, k, size, little);
    a, b, c := FinalInPlace(a, b, c);
  }

  /** The switch over the last block of the byte path, every case falling through to the next. */
  method LastBytes(a0: Word, b0: Word, c0: Word, mem: seq<Byte>, k: nat, size: nat, little: bool)
    returns (a: Word, b: Word, c: Word)
    requires 0 < size <= 12 && k + size <= |mem|
    ensures Regs(a, b, c) == Absorb(Regs(a0, b0, c0), mem[k..k + size], little)
  {
    hide Plus, Placed, WordAt;
    a, b, c := a0, b0, c0;
    ghost var key := mem[k..k + size];
    AddDownPacks(a, key, 0, little);
    AddDownPacks(b, key, 4, little);
    AddDownPacks(c, key, 8, little);
    if size >= 12 { c := Plus(c, Placed(mem[k + 11], 3, little)); }
    if size >= 11 { c := Plus(c, Placed(mem[k + 10], 2, little)); }
    if size >= 10 { c := Plus(c, Placed(mem[k + 9], 1, little)); }
    if size >= 9 { c := Plus(c, Placed(mem[k + 8], 0, little)); }
    assert c == AddDown(c0, key, 8, little);
    if size >= 8 { b := Plus(b, Placed(mem[k + 7], 3, little)); }
    if size >= 7 { b := Plus(b, Placed(mem[k + 6], 2, little)); }
    if size >= 6 { b := Plus(b, Placed(mem[k + 5], 1, little)); }
    if size >= 5 { b := Plus(b, Placed(mem[k + 4], 0, little)); }
    assert b == AddDown(b0, key, 4, little);
    if size >= 4 { a := Plus(a, Placed(mem[k + 3], 3, little)); }
    if size >= 3 { a := Plus(a, Placed(mem[k + 2], 2, little)); }
    if size >= 2 { a := Plus(a, Placed(mem[k + 1], 1, little)); }
    a := Plus(a, Placed(mem[k], 0, little));
    assert a == AddDown(a0, key, 0, little);
  }

  // ---------------------------------------------------------------------------------------------
  // The hash functions
  // ---------------------------------------------------------------------------------------------

  /** The memory is made of whole words, and the key lies inside it. */
  ghost predicate InMemory(mem: seq<Byte>, key: Pointer, size: nat) {
    |mem| % 4 == 0 && (key.To? ==> key.address + size <= |mem|)
  }

  /** The bytes of the key. */
  function KeyBytes(mem: seq<Byte>, key: Pointer, size: nat): seq<Byte>
    requires InMemory(mem, key, size) && key.To?
  {
    mem[key.address..key.address + size]
  }

  /** jlu32l, on a machine of either byte order and for any alignment of the key. */
  method Jlu32l(h: Word, mem: seq<Byte>, key: Pointer, size: nat, littleEndian: bool) returns (hash: Word)
    requires InMemory(mem, key, size)
    ensures key.Null? ==> hash == 0xdeadbeef + ToWord(size) + h
    ensures key.To? ==> hash == Hash(h, KeyBytes(mem, key, size), true)
  {
    hide ToWord, HashFrom;
    var a := InitWord(h, size);
    var b, c := a, a;
    if key.Null? {
      return c;
    }
    if littleEndian && key.address % 4 == 0 {
      a, b, c := HashWords(a, b, c, mem, key.address, size, true);
    } else if littleEndian && key.address % 2 == 0 {
      a, b, c := HashHalves(a, b, c, mem, key.address, size);
    } else {
      a, b, c := HashBytes(a, b, c, mem, key.address, size, true);
    }
    return c;
  }

  /** jlu32lpair: `pc` and `pb` are the primary and secondary initial values, then the primary and secondary hash. */
  method Jlu32lPair(mem: seq<Byte>, key: Pointer, size: nat, littleEndian: bool, pc0: Word, pb0: Word)
    returns (pc: Word, pb: Word)
    requires InMemory(mem, key, size)
    ensures key.Null? ==> pc == pb == 0xdeadbeef + ToWord(size) + pc0
    ensures key.To? ==> var i := InitWord(pc0, size);
              Regs(0, pb, pc) == HashFrom(Regs(i, i, Plus(i, pb0)), KeyBytes(mem, key, size), true).(a := 0)
    ensures key.To? && pb0 == 0 ==> pc == Hash(pc0, KeyBytes(mem, key, size), true)
  {
    hide ToWord, HashFrom, Plus;
    var a := InitWord(pc0, size);
    var b, c := a, a;
    if key.Null? {
      return c, b;
    }
    PlusZero(c);
    c := Plus(c, pb0);
    if littleEndian && key.address % 4 == 0 {
      a, b, c := HashWords(a, b, c, mem, key.address, size, true);
    } else if littleEndian && key.address % 2 == 0 {
      a, b, c := HashHalves(a, b, c, mem, key.address, size);
    } else {
      a, b, c := HashBytes(a, b, c, mem, key.address, size, true);
    }
    return c, b;
  }

  lemma {:induction false} PlusZero(x: Word)
    ensures Plus(x, 0) == x
  {
  }

  /** jlu32b: a null key gives back `h` itself, unlike in jlu32l. */
  method Jlu32b(h: Word, mem: seq<Byte>, key: Pointer, size: nat, littleEndian: bool) returns (hash: Word)
    requires InMemory(mem, key, size)
    ensures key.Null? ==> hash == h
    ensures key.To? ==> hash == Hash(h, KeyBytes(mem, key, size), false)
  {
    hide ToWord, HashFrom;
    var a := InitWord(h, size);
    var b, c := a, a;
    if key.Null? {
      return h;
    }
    if !littleEndian && key.address % 4 == 0 {
      a, b, c := HashWords(a, b, c, mem, key.address, size, false);
    } else {
      a, b, c := HashBytes(a, b, c, mem, key.address, size, false);
    }
    return c;
  }

  /** jlu32w: a key of `size` words is hashed like its bytes, in the byte order of the machine; that is, like jlu32l
      on a little-endian machine and like jlu32b on a big-endian one. */
  method Jlu32w(h: Word, mem: seq<Byte>, key: Pointer, size: nat, littleEndian: bool) returns (hash: Word)
    requires InMemory(mem, key, 4 * size)
    ensures key.Null? ==> hash == InitWord(h, 4 * size)
    ensures key.To? ==> hash == Hash(h, KeyBytes(mem, key, 4 * size), littleEndian)
  {
    hide HashFrom;
    var a := InitWord(h, 4 * size);
    var b, c := a, a;
    if key.Null? {
      return c;
    }
    a, b, c := HashWholeWords(a, b, c, mem, key.address, size, littleEndian);
    return c;
  }

  /** The loop and the switch of jlu32w. */
  method HashWholeWords(a0: Word, b0: Word, c0: Word, mem: seq<Byte>, key: nat, n: nat, little: bool)
    returns (a: Word, b: Word, c: Word)
    requires key + 4 * n <= |mem|
    ensures Regs(a, b, c) == HashFrom(Regs(a0, b0, c0), mem[key..key + 4 * n], little)
  {
    hide HashFrom, Mix, Final, Plus, Load32, WordAt;
    a, b, c := a0, b0, c0;
    var k, size := key, n;
    while size > 3
      invariant k + 4 * size == key + 4 * n
      invariant HashFrom(Regs(a, b, c), mem[k..k + 4 * size], little)
                == HashFrom(Regs(a0, b0, c0), mem[key..key + 4 * n], little)
    {
      NextBlock(Regs(a, b, c), mem, k, 4 * size, little);
      WholeLoad(mem, k, 12, 0, little);
      WholeLoad(mem, k, 12, 4, little);
      WholeLoad(mem, k, 12, 8, little);
      a := Plus(a, Load32(mem, k, little));
      b := Plus(b, Load32(mem, k + 4, little));
      c := Plus(c, Load32(mem, k + 8, little));
      a, b, c := MixInPlace(a, b, c);
      size := size - 3;
      k := k + 12;
    }
    LastBlock(Regs(a, b, c), mem[k..k + 4 * size], little);
    if size == 0 {
      return;
    }
    a, b, c := LastWholeWords(a, b, c, mem, k, size, little);
    a, b, c := FinalInPlace(a, b, c);
  }

  method LastWholeWords(a0: Word, b0: Word, c0: Word, mem: seq<Byte>, k: nat, size: nat, little: bool)
    returns (a: Word, b: Word, c: Word)
    requires 0 < size <= 3 && k + 4 * size <= |mem|
    ensures Regs(a, b, c) == Absorb(Regs(a0, b0, c0), mem[k..k + 4 * size], little)
  {
    hide Plus, Load32, WordAt;
    a, b, c := a0, b0, c0;
    ghost var rest := mem[k..k + 4 * size];
    if size == 3 {
      WholeLoad(mem, k, 12, 8, little);
      c := Plus(c, Load32(mem, k + 8, little));
    } else {
      NothingThere(c, rest, 8, little);
    }
    if size >= 2 {
      WholeLoad(mem, k, 4 * size, 4, little);
      b := Plus(b, Load32(mem, k + 4, little));
    } else {
      NothingThere(b, rest, 4, little);
    }
    WholeLoad(mem, k, 4 * size, 0, little);
    a := Plus(a, Load32(mem, k, little));
  }
}
