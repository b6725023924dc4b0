module Crc32 {
  import opened Lfsr

  const POLY: bv32 := 0xEDB88320
  const ONES: bv32 := 0xFFFF_FFFF

  function BitStep(c: bv32): bv32 {
    if c & 1 == 1 then (c >> 1) ^ POLY else c >> 1
  }

  /** The V.42 register. */
  const V42: Machine<bv32> := Machine(Xor, 0, BitStep, Embed)

  function Xor(a: bv32, b: bv32): bv32 { a ^ b }

  function Embed(b: byte): bv32 { b as bv32 }

  /** The bit-serial CRC-32 of a message. */
  ghost function Crc(s: seq<byte>): bv32 {
    Register(V42, ONES, s) ^ ONES
  }

  // ---------- the V.42 register meets the assumptions ----------

  lemma StepLinearOddOdd(a: bv32, b: bv32)
    requires a & 1 == 1 && b & 1 == 1
    ensures BitStep(a ^ b) == BitStep(a) ^ BitStep(b)
  {
    assert (a ^ b) >> 1 == ((a >> 1) ^ POLY) ^ ((b >> 1) ^ POLY);
  }

  lemma StepLinearOddEven(a: bv32, b: bv32)
    requires a & 1 == 1 && b & 1 == 0
    ensures BitStep(a ^ b) == BitStep(a) ^ BitStep(b)
    ensures BitStep(b ^ a) == BitStep(b) ^ BitStep(a)
  {
    assert ((a ^ b) >> 1) ^ POLY == ((a >> 1) ^ POLY) ^ (b >> 1);
  }

  lemma StepLinearEvenEven(a: bv32, b: bv32)
    requires a & 1 == 0 && b & 1 == 0
    ensures BitStep(a ^ b) == BitStep(a) ^ BitStep(b)
  {
    assert (a ^ b) >> 1 == (a >> 1) ^ (b >> 1);
  }

  /** XOR-linearity of one bit step. */
  lemma StepLinear(a: bv32, b: bv32)
    ensures BitStep(a ^ b) == BitStep(a) ^ BitStep(b)
  {
    if a & 1 == 1 && b & 1 == 1 {
      StepLinearOddOdd(a, b);
    } else if a & 1 == 1 {
      StepLinearOddEven(a, b);
    } else if b & 1 == 1 {
      StepLinearOddEven(b, a);
    } else {
      StepLinearEvenEven(a, b);
    }
  }

  lemma XorCancels(a: bv32, b: bv32)
    ensures a ^ b == 0 <==> a == b
    ensures a ^ 0 == a
  {
  }

  lemma XorAbelian(a: bv32, b: bv32, c: bv32)
    ensures a ^ b == b ^ a && (a ^ b) ^ c == a ^ (b ^ c)
  {
  }

  lemma StepKernel(a: bv32)
    ensures BitStep(a) == 0 ==> a == 0
  {
  }

  lemma StepOfByte(b: byte)
    ensures BitStep((b as bv32) ^ ((b & 1) as bv32)) == (b >> 1) as bv32
  {
  }

  lemma V42Unfolds(a: bv32, b: bv32)
    ensures V42.xor(a, b) == a ^ b
    ensures V42.step(a) == BitStep(a)
  {
  }

  lemma V42StepLinear(a: bv32, b: bv32)
    ensures V42.step(V42.xor(a, b)) == V42.xor(V42.step(a), V42.step(b))
  {
    StepLinear(a, b);
    V42Unfolds(a, b);
    V42Unfolds(BitStep(a), BitStep(b));
  }

  lemma V42IsLinear()
    ensures Linear(V42)
  {
    forall a, b
      ensures V42.step(V42.xor(a, b)) == V42.xor(V42.step(a), V42.step(b))
    {
      V42StepLinear(a, b);
    }
  }

  lemma V42IsFaithful()
    ensures Faithful(V42)
  {
    forall a | V42.step(a) == V42.zero
      ensures a == V42.zero
    {
      StepKernel(a);
    }
  }

  lemma V42Cancels()
    ensures Cancels(V42)
  {
    forall a, b
      ensures V42.xor(a, b) == V42.zero <==> a == b
    {
      XorCancels(a, b);
    }
    forall a
      ensures V42.xor(a, V42.zero) == a
    {
      XorCancels(a, a);
    }
  }

  lemma V42Groups(a: bv32, b: bv32, c: bv32)
    ensures Groups(V42, a, b, c)
  {
    XorAbelian(a, b, c);
    V42Unfolds(a, b);
    V42Unfolds(b, a);
    V42Unfolds(b, c);
    V42Unfolds(a ^ b, c);
    V42Unfolds(a, b ^ c);
  }

  lemma V42IsAbelian()
    ensures Abelian(V42)
  {
    hide Xor;
    forall a, b, c
      ensures Groups(V42, a, b, c)
    {
      V42Groups(a, b, c);
    }
  }

  lemma V42EmbedsBits()
    ensures EmbedsBits(V42)
  {
    forall b: byte
      ensures V42.step(V42.xor(V42.embed(b), V42.embed(b & 1))) == V42.embed(b >> 1)
    {
      StepOfByte(b);
    }
  }

  lemma V42IsSound()
    ensures Sound(V42)
  {
    V42IsLinear();
    V42IsFaithful();
    V42Cancels();
    V42IsAbelian();
    V42EmbedsBits();
  }

  // ---------- the table form ----------

  lemma EightStepsOfHighBytes(c: bv32)
    ensures BitStep(BitStep(BitStep(BitStep(BitStep(BitStep(BitStep(BitStep(c & 0xFFFF_FF00)))))))) == c >> 8
  {
  }

  /** Eight steps of a register whose low byte is clear only shift it. */
  lemma EightShift(c: bv32)
    ensures Steps(V42, 8, c & 0xFFFF_FF00) == c >> 8
  {
    StepsEight(V42, c & 0xFFFF_FF00);
    EightStepsOfHighBytes(c);
  }

  lemma SplitBits(r: bv32, w: bv32)
    ensures r ^ w == (r & 0xFFFF_FF00) ^ ((r & 0xFF) ^ w)
  {
  }

  lemma SplitRegister(r: bv32, w: bv32)
    ensures V42.xor(r, w) == V42.xor(r & 0xFFFF_FF00, V42.xor(r & 0xFF, w))
  {
    SplitBits(r, w);
    V42Unfolds(r, w);
    V42Unfolds(r & 0xFF, w);
    V42Unfolds(r & 0xFFFF_FF00, (r & 0xFF) ^ w);
  }

  lemma ShiftInSplit(r: bv32, b: byte)
    ensures ShiftIn(V42, 8, r, b)
         == V42.xor(Steps(V42, 8, r & 0xFFFF_FF00), Steps(V42, 8, V42.xor(r & 0xFF, V42.embed(b))))
  {
    V42IsSound();
    ShiftInByte(V42, r, b);
    SplitRegister(r, V42.embed(b));
    StepsLinear(V42, 8, r & 0xFFFF_FF00, V42.xor(r & 0xFF, V42.embed(b)));
  }

  lemma V42Index(r: bv32, b: byte)
    ensures V42.xor(r & 0xFF, V42.embed(b)) == (r & 0xFF) ^ (b as bv32)
  {
  }

  /** The table identity: shifting a byte in is a shift and one table look-up. */
  lemma TableStep(r: bv32, b: byte)
    ensures ShiftIn(V42, 8, r, b) == (r >> 8) ^ Steps(V42, 8, (r & 0xFF) ^ (b as bv32))
  {
    ShiftInSplit(r, b);
    EightShift(r);
    V42Index(r, b);
    V42Unfolds(r >> 8, Steps(V42, 8, (r & 0xFF) ^ (b as bv32)));
  }

  /** A look-up index fits a byte. */
  lemma IndexFits(r: bv32, b: byte)
    ensures (((r & 0xFF) ^ (b as bv32)) as byte) as bv32 == (r & 0xFF) ^ (b as bv32)
  {
  }

  ghost predicate IsTable(t: seq<bv32>) {
    |t| == 256 && forall i :: 0 <= i < 256 ==> t[i] == Steps(V42, 8, Embed(i as byte))
  }

  lemma ByteAsIndex(x: byte)
    ensures 0 <= x as int < 256 && (x as int) as byte == x
  {
  }

  lemma LookUp(t: seq<bv32>, i: byte)
    requires IsTable(t)
    ensures 0 <= i as int < 256 && t[i as int] == Steps(V42, 8, Embed(i))
  {
    ByteAsIndex(i);
  }

  lemma IntAsByte(i: int)
    requires 0 <= i < 256
    ensures i as bv32 == Embed(i as byte)
  {
  }

  lemma ZeroEntry()
    ensures Steps(V42, 8, 0) == 0
  {
    StepsEight(V42, 0);
  }

  class Crc32Engine {
    const table: array<bv32>

    ghost predicate Valid()
      reads this, table
    {
      table.Length == 256 && table[0] == 0
    }

    constructor ()
      ensures Valid() && fresh(table)
    {
      table := new bv32[256](_ => 0);
    }

    method Compute(i: int) returns (crc: bv32)
      requires 0 <= i < 256
      ensures crc == Steps(V42, 8, Embed(i as byte))
    {
      crc := i as bv32;
      IntAsByte(i);
      var j := 0;
      while j < 8
        invariant 0 <= j <= 8
        invariant Steps(V42, 8 - j, crc) == Steps(V42, 8, Embed(i as byte))
      {
        ghost var before := crc;
        if crc & 1 == 1 {
          crc := (crc >> 1) ^ POLY;
        } else {
          crc := crc >> 1;
        }
        assert crc == V42.step(before);
        j := j + 1;
      }
    }

    method FillTable()
      requires table.Length == 256
      modifies table
      ensures Valid() && IsTable(table[..])
    {
      var i := 0;
      while i < 256
        invariant 0 <= i <= 256
        invariant forall k :: 0 <= k < i ==> table[k] == Steps(V42, 8, Embed(k as byte))
      {
        var crc := Compute(i);
        table[i] := crc;
        i := i + 1;
      }
      ZeroEntry();
    }

    method Entry(index: bv32, ghost r: bv32, ghost b: byte) returns (entry: bv32)
      requires IsTable(table[..]) && index == (r & 0xFF) ^ (b as bv32)
      ensures entry == Steps(V42, 8, (r & 0xFF) ^ (b as bv32))
    {
      IndexFits(r, b);
      LookUp(table[..], index as byte);
      entry := table[(index as byte) as int];
    }

    /** The body of the loop over the data. */
    method Update(r: bv32, b: byte) returns (next: bv32)
      requires IsTable(table[..])
      ensures next == ShiftIn(V42, 8, r, b)
    {
      var entry := Entry((r & 0xFF) ^ (b as bv32), r, b);
      TableStep(r, b);
      next := (r >> 8) ^ entry;
    }

    method GetCrc32(data: seq<byte>) returns (crc: bv32)
      requires Valid()
      modifies table
      ensures Valid() && IsTable(table[..])
      ensures crc == Crc(data)
    {
      if table[0] == 0 {
        FillTable();
      }
      crc := ONES;
      var i := 0;
      while i < |data|
        invariant 0 <= i <= |data|
        invariant crc == Register(V42, ONES, data[..i])
        invariant Valid() && IsTable(table[..])
      {
        assert data[..i + 1][..i] == data[..i];
        crc := Update(crc, data[i]);
        i := i + 1;
      }
      assert data[..i] == data;
      crc := crc ^ ONES;
    }
  }

  // ---------- error detection ----------

  /** Whole-byte shifts towards the high end, as a second machine over the same XOR. */
  const UP: Machine<bv32> := Machine(Xor, 0, ByteUp, Embed)

  function ByteUp(c: bv32): bv32 { c << 8 }

  /** Byte b in byte position k of the register. */
  ghost function Place(k: nat, b: byte): bv32 {
    Steps(UP, k, Embed(b))
  }

  lemma UpSteps(w: bv32)
    ensures Steps(UP, 0, w) == w && Steps(UP, 1, w) == ByteUp(w)
    ensures Steps(UP, 2, w) == ByteUp(ByteUp(w)) && Steps(UP, 3, w) == ByteUp(ByteUp(ByteUp(w)))
  {
    hide ByteUp, Xor, Embed;
    var w1 := ByteUp(w);
    var w2 := ByteUp(w1);
    assert Steps(UP, 1, w) == Steps(UP, 0, w1);
    assert Steps(UP, 2, w) == Steps(UP, 1, w1) == Steps(UP, 0, w2);
    assert Steps(UP, 3, w) == Steps(UP, 2, w1) == Steps(UP, 1, w2) == Steps(UP, 0, ByteUp(w2));
  }

  lemma BytesUp(w: bv32)
    ensures ByteUp(ByteUp(w)) == w << 16 && ByteUp(ByteUp(ByteUp(w))) == w << 24
  {
  }

  lemma PlaceUnfolds(b: byte)
    ensures Place(0, b) == b as bv32 && Place(1, b) == (b as bv32) << 8
    ensures Place(2, b) == (b as bv32) << 16 && Place(3, b) == (b as bv32) << 24
  {
    hide Xor;
    UpSteps(Embed(b));
    BytesUp(Embed(b));
  }

  lemma ShiftDown(b: byte)
    ensures Steps(V42, 8, (b as bv32) << 8) == b as bv32
    ensures Steps(V42, 8, (b as bv32) << 16) == (b as bv32) << 8
    ensures Steps(V42, 8, (b as bv32) << 24) == (b as bv32) << 16
  {
    var w := b as bv32;
    EightShift(w << 8);
    assert (w << 8) & 0xFFFF_FF00 == w << 8 && (w << 8) >> 8 == w;
    EightShift(w << 16);
    assert (w << 16) & 0xFFFF_FF00 == w << 16 && (w << 16) >> 8 == w << 8;
    EightShift(w << 24);
    assert (w << 24) & 0xFFFF_FF00 == w << 24 && (w << 24) >> 8 == w << 16;
  }

  lemma V42Places()
    ensures Places(V42, Place)
  {
    forall k: nat, b: byte | k < 4
      ensures Steps(V42, 8 * k, Place(k, b)) == V42.embed(b)
    {
      ShiftDown(b);
      PlaceUnfolds(b);
      if k == 2 {
        StepsAdd(V42, 8, 8, (b as bv32) << 16);
      } else if k == 3 {
        StepsAdd(V42, 8, 16, (b as bv32) << 24);
        StepsAdd(V42, 8, 8, (b as bv32) << 16);
      }
    }
  }

  lemma ByteUpXor(x: bv32, y: bv32)
    ensures (x ^ y) << 8 == (x << 8) ^ (y << 8)
  {
  }

  lemma UpStepLinear(a: bv32, b: bv32)
    ensures UP.step(UP.xor(a, b)) == UP.xor(UP.step(a), UP.step(b))
  {
    ByteUpXor(a, b);
  }

  lemma UpIsLinear()
    ensures Linear(UP)
  {
    forall a, b
      ensures UP.step(UP.xor(a, b)) == UP.xor(UP.step(a), UP.step(b))
    {
      UpStepLinear(a, b);
    }
  }

  lemma EmbedXor(a: byte, b: byte)
    ensures Xor(Embed(a), Embed(b)) == Embed(XorBytes(a, b))
  {
  }

  lemma V42PlaceLinear(k: nat, a: byte, b: byte)
    ensures V42.xor(Place(k, a), Place(k, b)) == Place(k, XorBytes(a, b))
  {
    UpIsLinear();
    StepsLinear(UP, k, Embed(a), Embed(b));
    EmbedXor(a, b);
  }

  lemma V42PlacesLinear()
    ensures PlacesLinear(V42, Place)
  {
    forall k: nat, a: byte, b: byte
      ensures V42.xor(Place(k, a), Place(k, b)) == Place(k, XorBytes(a, b))
    {
      V42PlaceLinear(k, a, b);
    }
  }

  lemma BytesApart(a: byte, b: byte, c: byte, d: byte)
    requires (((a as bv32) ^ ((b as bv32) << 8)) ^ ((c as bv32) << 16)) ^ ((d as bv32) << 24) == 0
    ensures a == 0 && b == 0 && c == 0 && d == 0
  {
  }

  lemma V42BytesApart(a: byte, b: byte, c: byte, d: byte)
    requires V42.xor(V42.xor(V42.xor(V42.xor(V42.zero, Place(0, a)), Place(1, b)), Place(2, c)), Place(3, d))
             == V42.zero
    ensures a == 0 && b == 0 && c == 0 && d == 0
  {
    PlaceUnfolds(a);
    PlaceUnfolds(b);
    PlaceUnfolds(c);
    PlaceUnfolds(d);
    var x := V42.xor(V42.zero, Place(0, a));
    V42Unfolds(V42.zero, Place(0, a));
    assert x == a as bv32;
    var y := V42.xor(x, Place(1, b));
    V42Unfolds(x, Place(1, b));
    var z := V42.xor(y, Place(2, c));
    V42Unfolds(y, Place(2, c));
    V42Unfolds(z, Place(3, d));
    BytesApart(a, b, c, d);
  }

  lemma V42PlacesApart()
    ensures PlacesApart(V42, Place)
  {
    forall a: byte, b: byte, c: byte, d: byte
      | V42.xor(V42.xor(V42.xor(V42.xor(V42.zero, Place(0, a)), Place(1, b)), Place(2, c)), Place(3, d)) == V42.zero
      ensures a == 0 && b == 0 && c == 0 && d == 0
    {
      V42BytesApart(a, b, c, d);
    }
  }

  lemma V42WordSound()
    ensures WordSound(V42, Place)
  {
    V42Places();
    V42PlacesLinear();
    V42PlacesApart();
  }

  lemma ComplementInjective(a: bv32, b: bv32)
    ensures a ^ ONES == b ^ ONES <==> a == b
  {
  }

  /** Error detection: within one window of four bytes, equal CRCs mean equal messages. */
  lemma CrcDetectsBursts(s: seq<byte>, t: seq<byte>, k: nat)
    requires DifferInWindow(s, t, k)
    ensures Crc(s) == Crc(t) <==> s == t
  {
    V42IsSound();
    V42WordSound();
    BurstDetection(V42, Place, ONES, s, t, k);
    ComplementInjective(Register(V42, ONES, s), Register(V42, ONES, t));
  }
}
