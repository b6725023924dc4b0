/**
 The CRC by its definition (section 8.1.1.6.2 of ITU-T V.42): the remainder of a division of binary
 polynomials.  The register of Crc32 computes it, for every message.
 */
module CrcDivision {
  import opened Lfsr
  import opened Crc32

  // ---------- the definition ----------

  /** The powers of x in the generator. */
  const EXPONENTS: set<int> := {32, 26, 23, 22, 16, 12, 11, 10, 8, 7, 5, 4, 2, 1, 0}

  /** Polynomials as their coefficients, the highest power first.  One step of long division takes the
      first coefficient away, with the generator times it if it is 1. */
  function Reduced(d: seq<bool>): (r: seq<bool>)
    requires |d| > 32
    ensures |r| == |d| - 1
  {
    seq(|d| - 1, i requires 0 <= i < |d| - 1 => d[i + 1] != (d[0] && i < 32 && 31 - i in EXPONENTS))
  }

  /** The remainder modulo the generator. */
  function Remainder(d: seq<bool>): (r: seq<bool>)
    requires |d| >= 32
    ensures |r| == 32
    decreases |d|
  {
    if |d| == 32 then d else Remainder(Reduced(d))
  }

  /** The bits of a byte as they go over the line: the low one first. */
  function ByteBits(n: nat, b: byte): (s: seq<bool>)
    ensures |s| == n
  {
    if n == 0 then [] else [b & 1 == 1] + ByteBits(n - 1, b >> 1)
  }

  function Bits(s: seq<byte>): seq<bool> {
    if s == [] then [] else Bits(s[..|s| - 1]) + ByteBits(8, s[|s| - 1])
  }

  /** The message times x^32, its first 32 coefficients complemented. */
  function Dividend(m: seq<bool>): (d: seq<bool>)
    ensures |d| == |m| + 32
  {
    seq(|m| + 32, i requires 0 <= i < |m| + 32 => (i < |m| && m[i]) != (i < 32))
  }

  predicate Odd(r: bv32) { r & 1 == 1 }

  function Half(r: bv32): bv32 { r >> 1 }

  /** Bit i of a word. */
  predicate Bit(r: bv32, i: nat) {
    if i == 0 then Odd(r) else Bit(Half(r), i - 1)
  }

  function WordBits(r: bv32): (s: seq<bool>)
    ensures |s| == 32
  {
    seq(32, i requires 0 <= i < 32 => Bit(r, i))
  }

  function Complement(s: seq<bool>): seq<bool> {
    seq(|s|, i requires 0 <= i < |s| => !s[i])
  }

  // ---------- bits of words ----------

  lemma XorHalves(x: bv32, y: bv32)
    ensures Odd(Xor(x, y)) == (Odd(x) != Odd(y)) && Half(Xor(x, y)) == Xor(Half(x), Half(y))
  {
  }

  lemma {:induction false} BitXor(x: bv32, y: bv32, i: nat)
    ensures Bit(Xor(x, y), i) == (Bit(x, i) != Bit(y, i))
    decreases i
  {
    hide Odd, Half, Xor;
    XorHalves(x, y);
    if i > 0 {
      BitXor(Half(x), Half(y), i - 1);
    }
  }

  lemma SmallHalves()
    ensures Half(0) == 0 && !Odd(0) && Half(1) == 0 && Odd(1)
  {
  }

  lemma {:induction false} BitZero(i: nat)
    ensures !Bit(0, i)
  {
    hide Odd, Half;
    SmallHalves();
    if i > 0 {
      BitZero(i - 1);
    }
  }

  lemma BitOne(i: nat)
    ensures Bit(1, i) == (i == 0)
  {
    hide Odd, Half;
    SmallHalves();
    if i > 0 {
      BitZero(i - 1);
    }
  }

  lemma FirstBit(r: bv32)
    ensures Odd(r) == (r & 1 == 1)
  {
  }

  lemma SecondBit(r: bv32)
    ensures Odd(Half(r)) == (r & 2 == 2)
  {
  }

  lemma ThirdBit(r: bv32)
    ensures Odd(Half(Half(r))) == (r & 4 == 4)
  {
  }

  lemma FourthBit(r: bv32)
    ensures Odd(Half(Half(Half(r)))) == (r & 8 == 8)
  {
  }

  lemma FourHalves(r: bv32)
    ensures Half(Half(Half(Half(r)))) == r >> 4
  {
  }

  lemma NibbleBits(r: bv32, i: nat)
    ensures Bit(r, 0) == (r & 1 == 1) && Bit(r, 1) == (r & 2 == 2)
    ensures Bit(r, 2) == (r & 4 == 4) && Bit(r, 3) == (r & 8 == 8)
    ensures Bit(r, i + 4) == Bit(r >> 4, i)
  {
    hide Odd, Half;
    FirstBit(r);
    SecondBit(r);
    ThirdBit(r);
    FourthBit(r);
    FourHalves(r);
    var r1 := Half(r);
    var r2 := Half(r1);
    var r3 := Half(r2);
    assert Bit(r, 1) == Bit(r1, 0);
    assert Bit(r, 2) == Bit(r1, 1) == Bit(r2, 0);
    assert Bit(r, 3) == Bit(r1, 2) == Bit(r2, 1) == Bit(r3, 0);
    assert Bit(r, i + 4) == Bit(r1, i + 3) == Bit(r2, i + 2) == Bit(r3, i + 1) == Bit(Half(r3), i);
  }

  lemma AllShifted(r: bv32)
    ensures (((((((r >> 4) >> 4) >> 4) >> 4) >> 4) >> 4) >> 4) >> 4 == 0
  {
  }

  /** A word has 32 bits. */
  lemma NoMoreBits(r: bv32)
    ensures !Bit(r, 32)
  {
    hide Odd, Half, Bit;
    var r1 := r >> 4;
    var r2 := r1 >> 4;
    var r3 := r2 >> 4;
    var r4 := r3 >> 4;
    var r5 := r4 >> 4;
    var r6 := r5 >> 4;
    var r7 := r6 >> 4;
    NibbleBits(r, 28);
    NibbleBits(r1, 24);
    NibbleBits(r2, 20);
    NibbleBits(r3, 16);
    NibbleBits(r4, 12);
    NibbleBits(r5, 8);
    NibbleBits(r6, 4);
    NibbleBits(r7, 0);
    AllShifted(r);
    BitZero(0);
  }

  // ---------- the generator ----------

  /** The reflected polynomial without its first 4k bits. */
  function PolyTail(k: nat): bv32 {
    if k == 0 then 0xEDB88320
    else if k == 1 then 0xEDB8832
    else if k == 2 then 0xEDB883
    else if k == 3 then 0xEDB88
    else if k == 4 then 0xEDB8
    else if k == 5 then 0xEDB
    else if k == 6 then 0xED
    else if k == 7 then 0xE
    else 0
  }

  lemma PolyTable(k: nat)
    requires k < 8
    ensures PolyTail(k) >> 4 == PolyTail(k + 1)
    ensures (PolyTail(k) & 1 == 1) == (31 - 4 * k in EXPONENTS)
    ensures (PolyTail(k) & 2 == 2) == (30 - 4 * k in EXPONENTS)
    ensures (PolyTail(k) & 4 == 4) == (29 - 4 * k in EXPONENTS)
    ensures (PolyTail(k) & 8 == 8) == (28 - 4 * k in EXPONENTS)
  {
    if k == 0 {
    } else if k == 1 {
    } else if k == 2 {
    } else if k == 3 {
    } else if k == 4 {
    } else if k == 5 {
    } else if k == 6 {
    } else {
    }
  }

  lemma {:induction false} TailBits(k: nat, i: nat)
    requires k < 8 && i < 32 - 4 * k
    ensures Bit(PolyTail(k), i) == (31 - 4 * k - i in EXPONENTS)
    decreases i
  {
    hide Odd, Half, Bit, PolyTail;
    PolyTable(k);
    if i < 4 {
      NibbleBits(PolyTail(k), 0);
    } else {
      NibbleBits(PolyTail(k), i - 4);
      TailBits(k + 1, i - 4);
    }
  }

  /** The polynomial of the code is the generator without its highest power, reflected. */
  lemma PolyBits(i: nat)
    requires i < 32
    ensures Bit(POLY, i) == (31 - i in EXPONENTS)
  {
    TailBits(0, i);
  }

  // ---------- one bit of the message ----------

  function BitWord(b: bool): bv32 { if b then 1 else 0 }

  /** One step of the register, with message bit b. */
  function Feed(r: bv32, b: bool): bv32 {
    BitStep(Xor(r, BitWord(b)))
  }

  lemma StepByParts(c: bv32)
    ensures BitStep(c) == if Odd(c) then Xor(Half(c), POLY) else Half(c)
  {
  }

  lemma BitWordBits(b: bool, i: nat)
    ensures Bit(BitWord(b), i) == (b && i == 0)
  {
    hide Odd, Half, Bit;
    BitOne(i);
    BitZero(i);
  }

  lemma FeedBits(r: bv32, b: bool, i: nat)
    requires i < 32
    ensures Bit(Feed(r, b), i)
         == ((i < 31 && Bit(r, i + 1)) != ((Bit(r, 0) != b) && 31 - i in EXPONENTS))
  {
    hide Odd, Half, Xor, BitStep, BitWord;
    var c := Xor(r, BitWord(b));
    StepByParts(c);
    BitXor(Half(c), POLY, i);
    PolyBits(i);
    BitXor(r, BitWord(b), 0);
    BitXor(r, BitWord(b), i + 1);
    BitWordBits(b, 0);
    BitWordBits(b, i + 1);
    NoMoreBits(r);
    assert Bit(Half(c), i) == Bit(c, i + 1);
  }

  // ---------- the whole message ----------

  function FeedAll(r: bv32, m: seq<bool>): bv32
    decreases |m|
  {
    if m == [] then r else FeedAll(Feed(r, m[0]), m[1..])
  }

  lemma {:induction false} FeedAllConcat(r: bv32, m: seq<bool>, n: seq<bool>)
    ensures FeedAll(r, m + n) == FeedAll(FeedAll(r, m), n)
    decreases |m|
  {
    hide Feed;
    if m == [] {
      assert m + n == n;
    } else {
      assert (m + n)[1..] == m[1..] + n;
      FeedAllConcat(Feed(r, m[0]), m[1..], n);
    }
  }

  /** The polynomial that is left when the register holds r and the bits m are still to come. */
  function Left(r: bv32, m: seq<bool>): (d: seq<bool>)
    ensures |d| == |m| + 32
  {
    seq(|m| + 32, i requires 0 <= i < |m| + 32 => (i < |m| && m[i]) != (i < 32 && Bit(r, i)))
  }

  lemma LeftStep(r: bv32, m: seq<bool>)
    requires m != []
    ensures Reduced(Left(r, m)) == Left(Feed(r, m[0]), m[1..])
  {
    hide Bit, Feed;
    var d, e := Reduced(Left(r, m)), Left(Feed(r, m[0]), m[1..]);
    forall i | 0 <= i < |d| ensures d[i] == e[i] {
      if i < 32 {
        FeedBits(r, m[0], i);
      }
    }
  }

  /** Long division and the register go hand in hand. */
  lemma {:induction false} RegisterDivides(r: bv32, m: seq<bool>)
    ensures Remainder(Left(r, m)) == WordBits(FeedAll(r, m))
    decreases |m|
  {
    hide Bit, Feed, Reduced;
    if m == [] {
      assert Left(r, m) == WordBits(r);
    } else {
      LeftStep(r, m);
      RegisterDivides(Feed(r, m[0]), m[1..]);
    }
  }

  // ---------- bytes ----------

  lemma LowBit(b: byte)
    ensures Embed(b & 1) == BitWord(b & 1 == 1)
  {
  }

  lemma {:induction false} ShiftInFeeds(n: nat, r: bv32, b: byte)
    ensures ShiftIn(V42, n, r, b) == FeedAll(r, ByteBits(n, b))
  {
    hide BitStep, Xor, BitWord;
    if n > 0 {
      LowBit(b);
      var m := ByteBits(n, b);
      assert m[0] == (b & 1 == 1) && m[1..] == ByteBits(n - 1, b >> 1);
      assert V42.step(V42.xor(r, V42.embed(b & 1))) == Feed(r, m[0]);
      ShiftInFeeds(n - 1, Feed(r, m[0]), b >> 1);
    }
  }

  lemma {:induction false} RegisterFeeds(r: bv32, s: seq<byte>)
    ensures Register(V42, r, s) == FeedAll(r, Bits(s))
  {
    hide ByteBits;
    if s != [] {
      var front, b := s[..|s| - 1], s[|s| - 1];
      RegisterFeeds(r, front);
      ShiftInFeeds(8, FeedAll(r, Bits(front)), b);
      FeedAllConcat(r, Bits(front), ByteBits(8, b));
    }
  }

  function OnesTail(k: nat): bv32 {
    if k == 0 then 0xFFFFFFFF
    else if k == 1 then 0xFFFFFFF
    else if k == 2 then 0xFFFFFF
    else if k == 3 then 0xFFFFF
    else if k == 4 then 0xFFFF
    else if k == 5 then 0xFFF
    else if k == 6 then 0xFF
    else if k == 7 then 0xF
    else 0
  }

  lemma OnesTable(k: nat)
    requires k < 8
    ensures OnesTail(k) >> 4 == OnesTail(k + 1)
    ensures OnesTail(k) & 1 == 1 && OnesTail(k) & 2 == 2 && OnesTail(k) & 4 == 4 && OnesTail(k) & 8 == 8
  {
  }

  lemma {:induction false} OnesBits(k: nat, i: nat)
    requires k < 8 && i < 32 - 4 * k
    ensures Bit(OnesTail(k), i)
    decreases i
  {
    hide Odd, Half, Bit, OnesTail;
    OnesTable(k);
    if i < 4 {
      NibbleBits(OnesTail(k), 0);
    } else {
      NibbleBits(OnesTail(k), i - 4);
      OnesBits(k + 1, i - 4);
    }
  }

  // ---------- the theorem ----------

  lemma DividendIsLeft(m: seq<bool>)
    ensures Dividend(m) == Left(ONES, m)
  {
    hide Bit;
    forall i | 0 <= i < 32 ensures Bit(ONES, i) {
      OnesBits(0, i);
    }
  }

  lemma FlippedBits(r: bv32)
    ensures Complement(WordBits(r)) == WordBits(Xor(r, ONES))
  {
    hide Bit, Xor;
    forall i | 0 <= i < 32 ensures Bit(Xor(r, ONES), i) == !Bit(r, i) {
      BitXor(r, ONES, i);
      OnesBits(0, i);
    }
  }

  /** For every message, the CRC of the code, sent low bit first, is the complement of the remainder of
      the message times x^32, its first 32 coefficients complemented, modulo the generator. */
  lemma CrcIsRemainder(s: seq<byte>)
    ensures WordBits(Crc(s)) == Complement(Remainder(Dividend(Bits(s))))
  {
    hide Bit, Remainder, Feed, ByteBits;
    DividendIsLeft(Bits(s));
    RegisterDivides(ONES, Bits(s));
    RegisterFeeds(ONES, s);
    FlippedBits(Register(V42, ONES, s));
  }

  // ---------- the check value ----------

  function Eight(c: bv32): bv32 {
    BitStep(BitStep(BitStep(BitStep(BitStep(BitStep(BitStep(BitStep(c))))))))
  }

  lemma ByteIn(r: bv32, b: byte, before: seq<byte>, s: seq<byte>)
    requires s == before + [b] && Register(V42, ONES, before) == r
    ensures Register(V42, ONES, s) == Eight(Xor(r, Embed(b)))
  {
    hide BitStep, Xor, Embed;
    V42IsSound();
    ShiftInByte(V42, r, b);
    StepsEight(V42, Xor(r, Embed(b)));
    assert s[..|s| - 1] == before;
  }

  lemma DigitSteps()
    ensures Eight(Xor(0xFFFFFFFF, Embed(0x31))) == 0x7C231048
    ensures Eight(Xor(0x7C231048, Embed(0x32))) == 0xB0ACBB32
    ensures Eight(Xor(0xB0ACBB32, Embed(0x33))) == 0x77B79C2D
    ensures Eight(Xor(0x77B79C2D, Embed(0x34))) == 0x641C1F5C
    ensures Eight(Xor(0x641C1F5C, Embed(0x35))) == 0x340AC5E3
    ensures Eight(Xor(0x340AC5E3, Embed(0x36))) == 0xF68D2C9E
    ensures Eight(Xor(0xF68D2C9E, Embed(0x37))) == 0xAFFC9660
    ensures Eight(Xor(0xAFFC9660, Embed(0x38))) == 0x651F2550
    ensures Eight(Xor(0x651F2550, Embed(0x39))) == 0x340BC6D9
  {
  }

  lemma NothingIn()
    ensures Register(V42, ONES, []) == 0xFFFF_FFFF
  {
  }

  lemma ThreeDigits()
    ensures Register(V42, ONES, [0x31, 0x32, 0x33]) == 0x77B79C2D
  {
    hide Register, Eight, Xor, Embed;
    DigitSteps();
    NothingIn();
    ByteIn(0xFFFFFFFF, 0x31, [], [0x31]);
    ByteIn(0x7C231048, 0x32, [0x31], [0x31, 0x32]);
    ByteIn(0xB0ACBB32, 0x33, [0x31, 0x32], [0x31, 0x32, 0x33]);
  }

  lemma SixDigits()
    ensures Register(V42, ONES, [0x31, 0x32, 0x33, 0x34, 0x35, 0x36]) == 0xF68D2C9E
  {
    hide Register, Eight, Xor, Embed;
    DigitSteps();
    ThreeDigits();
    ByteIn(0x77B79C2D, 0x34, [0x31, 0x32, 0x33], [0x31, 0x32, 0x33, 0x34]);
    ByteIn(0x641C1F5C, 0x35, [0x31, 0x32, 0x33, 0x34], [0x31, 0x32, 0x33, 0x34, 0x35]);
    ByteIn(0x340AC5E3, 0x36, [0x31, 0x32, 0x33, 0x34, 0x35], [0x31, 0x32, 0x33, 0x34, 0x35, 0x36]);
  }

  lemma NineDigits()
    ensures Register(V42, ONES, [0x31, 0x32, 0x33, 0x34, 0x35, 0x36, 0x37, 0x38, 0x39]) == 0x340BC6D9
  {
    hide Register, Eight, Xor, Embed;
    DigitSteps();
    SixDigits();
    ByteIn(0xF68D2C9E, 0x37, [0x31, 0x32, 0x33, 0x34, 0x35, 0x36], [0x31, 0x32, 0x33, 0x34, 0x35, 0x36, 0x37]);
    ByteIn(0xAFFC9660, 0x38, [0x31, 0x32, 0x33, 0x34, 0x35, 0x36, 0x37],
           [0x31, 0x32, 0x33, 0x34, 0x35, 0x36, 0x37, 0x38]);
    ByteIn(0x651F2550, 0x39, [0x31, 0x32, 0x33, 0x34, 0x35, 0x36, 0x37, 0x38],
           [0x31, 0x32, 0x33, 0x34, 0x35, 0x36, 0x37, 0x38, 0x39]);
  }

  /** The CRC of the nine digits. */
  lemma CheckValue()
    ensures Crc([0x31, 0x32, 0x33, 0x34, 0x35, 0x36, 0x37, 0x38, 0x39]) == 0xCBF4_3926
  {
    hide Register;
    NineDigits();
    assert (0x340BC6D9 as bv32) ^ 0xFFFF_FFFF == 0xCBF4_3926;
  }
}
