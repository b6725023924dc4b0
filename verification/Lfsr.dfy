/**
 The algebra of a byte-fed shift register, over an arbitrary carrier.  Nothing here
 knows the width or the polynomial: the register is only assumed to be an XOR space
 with an XOR-linear step that sends nothing but zero to zero.
 */
module Lfsr {
  type byte = bv8

  /** embed places a byte in the bits the register shifts out first. */
  datatype Machine<!T> = Machine(xor: (T, T) -> T, zero: T, step: T -> T, embed: byte -> T)

  ghost function Steps<T>(m: Machine<T>, n: nat, c: T): T {
    if n == 0 then c else Steps(m, n - 1, m.step(c))
  }

  /** Shift the low n bits of b in, one at a time, least significant bit first. */
  ghost function ShiftIn<T>(m: Machine<T>, n: nat, r: T, b: byte): T {
    if n == 0 then r else ShiftIn(m, n - 1, m.step(m.xor(r, m.embed(b & 1))), b >> 1)
  }

  /** The register after every bit of s has been shifted in. */
  ghost function Register<T>(m: Machine<T>, r: T, s: seq<byte>): T {
    if s == [] then r else ShiftIn(m, 8, Register(m, r, s[..|s| - 1]), s[|s| - 1])
  }

  // ---------- the assumptions ----------

  ghost predicate Linear<T(!new)>(m: Machine<T>) {
    forall a, b {:trigger m.step(m.xor(a, b))} :: m.step(m.xor(a, b)) == m.xor(m.step(a), m.step(b))
  }

  ghost predicate Faithful<T(!new)>(m: Machine<T>) {
    forall a {:trigger m.step(a)} :: m.step(a) == m.zero ==> a == m.zero
  }

  ghost predicate Cancels<T(!new)>(m: Machine<T>) {
    && (forall a, b {:trigger m.xor(a, b)} :: m.xor(a, b) == m.zero <==> a == b)
    && (forall a {:trigger m.xor(a, m.zero)} :: m.xor(a, m.zero) == a)
  }

  /** Commutativity and associativity, instantiated only where a proof names them. */
  ghost predicate Abelian<T(!new)>(m: Machine<T>) {
    forall a, b, c :: Groups(m, a, b, c)
  }

  ghost predicate Groups<T>(m: Machine<T>, a: T, b: T, c: T) {
    m.xor(a, b) == m.xor(b, a) && m.xor(m.xor(a, b), c) == m.xor(a, m.xor(b, c))
  }

  /** Stepping a byte without its low bit only shifts it. */
  ghost predicate EmbedsBits<T>(m: Machine<T>) {
    && m.embed(0) == m.zero
    && forall b: byte {:trigger m.step(m.xor(m.embed(b), m.embed(b & 1)))} ::
         m.step(m.xor(m.embed(b), m.embed(b & 1))) == m.embed(b >> 1)
  }

  ghost predicate Sound<T(!new)>(m: Machine<T>) {
    Linear(m) && Faithful(m) && Cancels(m) && Abelian(m) && EmbedsBits(m)
  }

  lemma Regroup<T(!new)>(m: Machine<T>, a: T, b: T, c: T)
    requires Cancels(m) && Abelian(m)
    ensures m.xor(a, b) == m.xor(m.xor(a, c), m.xor(b, c))
  {
    assert Groups(m, a, c, m.xor(b, c)) && Groups(m, b, c, c) && Groups(m, c, b, c) && Groups(m, m.xor(b, c), c, c);
    assert m.xor(c, m.xor(b, c)) == m.xor(m.xor(b, c), c) == m.xor(b, m.xor(c, c)) == b;
  }

  lemma Interchange<T(!new)>(m: Machine<T>, a: T, b: T, c: T, d: T)
    requires Abelian(m)
    ensures m.xor(m.xor(a, b), m.xor(c, d)) == m.xor(m.xor(a, c), m.xor(b, d))
  {
    assert Groups(m, a, b, m.xor(c, d)) && Groups(m, b, c, d) && Groups(m, c, b, d) && Groups(m, a, c, m.xor(b, d));
    assert m.xor(b, m.xor(c, d)) == m.xor(m.xor(b, c), d) == m.xor(m.xor(c, b), d) == m.xor(c, m.xor(b, d));
  }

  // ---------- iterated steps ----------

  lemma {:induction false} StepsLinear<T(!new)>(m: Machine<T>, n: nat, a: T, b: T)
    requires Linear(m)
    ensures Steps(m, n, m.xor(a, b)) == m.xor(Steps(m, n, a), Steps(m, n, b))
  {
    if n > 0 {
      StepsLinear(m, n - 1, m.step(a), m.step(b));
    }
  }

  lemma {:induction false} StepsFaithful<T(!new)>(m: Machine<T>, n: nat, c: T)
    requires Faithful(m) && Steps(m, n, c) == m.zero
    ensures c == m.zero
  {
    if n > 0 {
      StepsFaithful(m, n - 1, m.step(c));
    }
  }

  lemma StepsInjective<T(!new)>(m: Machine<T>, n: nat, a: T, b: T)
    requires Linear(m) && Faithful(m) && Cancels(m)
    ensures Steps(m, n, a) == Steps(m, n, b) <==> a == b
  {
    StepsLinear(m, n, a, b);
    if Steps(m, n, a) == Steps(m, n, b) {
      assert m.xor(Steps(m, n, a), Steps(m, n, b)) == m.zero;
      StepsFaithful(m, n, m.xor(a, b));
    }
  }

  lemma {:induction false} StepsAdd<T>(m: Machine<T>, i: nat, n: nat, c: T)
    ensures Steps(m, i + n, c) == Steps(m, n, Steps(m, i, c))
  {
    if i > 0 {
      StepsAdd(m, i - 1, n, m.step(c));
    }
  }

  lemma StepsEight<T>(m: Machine<T>, c: T)
    ensures Steps(m, 8, c) == m.step(m.step(m.step(m.step(m.step(m.step(m.step(m.step(c))))))))
  {
    var c1 := m.step(c);
    var c2 := m.step(c1);
    var c3 := m.step(c2);
    var c4 := m.step(c3);
    var c5 := m.step(c4);
    var c6 := m.step(c5);
    var c7 := m.step(c6);
    assert Steps(m, 8, c) == Steps(m, 7, c1) == Steps(m, 6, c2) == Steps(m, 5, c3) == Steps(m, 4, c4);
    assert Steps(m, 4, c4) == Steps(m, 3, c5) == Steps(m, 2, c6) == Steps(m, 1, c7) == Steps(m, 0, m.step(c7));
  }

  // ---------- a byte at a time ----------

  function Shifted(n: nat, b: byte): byte {
    if n == 0 then b else Shifted(n - 1, b >> 1)
  }

  lemma ShiftedOut(b: byte)
    ensures Shifted(8, b) == 0
  {
    var b1 := b >> 1;
    var b2 := b1 >> 1;
    var b3 := b2 >> 1;
    var b4 := b3 >> 1;
    var b5 := b4 >> 1;
    var b6 := b5 >> 1;
    var b7 := b6 >> 1;
    assert Shifted(8, b) == Shifted(7, b1) == Shifted(6, b2) == Shifted(5, b3) == Shifted(4, b4);
    assert Shifted(4, b4) == Shifted(3, b5) == Shifted(2, b6) == Shifted(1, b7) == b7 >> 1;
  }

  lemma {:induction false} ShiftInSteps<T(!new)>(m: Machine<T>, n: nat, r: T, b: byte)
    requires Sound(m)
    ensures Steps(m, n, m.xor(r, m.embed(b))) == m.xor(ShiftIn(m, n, r, b), m.embed(Shifted(n, b)))
  {
    if n > 0 {
      var low := m.embed(b & 1);
      Regroup(m, r, m.embed(b), low);
      assert m.xor(r, m.embed(b)) == m.xor(m.xor(r, low), m.xor(m.embed(b), low));
      assert m.step(m.xor(r, m.embed(b))) == m.xor(m.step(m.xor(r, low)), m.embed(b >> 1));
      ShiftInSteps(m, n - 1, m.step(m.xor(r, low)), b >> 1);
    }
  }

  /** Shifting a byte in bit by bit is XORing it into the register and stepping eight times. */
  lemma ShiftInByte<T(!new)>(m: Machine<T>, r: T, b: byte)
    requires Sound(m)
    ensures ShiftIn(m, 8, r, b) == Steps(m, 8, m.xor(r, m.embed(b)))
  {
    ShiftInSteps(m, 8, r, b);
    ShiftedOut(b);
  }

  lemma {:induction false} RegisterConcat<T>(m: Machine<T>, r: T, s: seq<byte>, t: seq<byte>)
    ensures Register(m, r, s + t) == Register(m, Register(m, r, s), t)
  {
    if t == [] {
      assert s + t == s;
    } else {
      assert (s + t)[..|s + t| - 1] == s + t[..|t| - 1];
      RegisterConcat(m, r, s, t[..|t| - 1]);
    }
  }

  lemma XorInjective<T(!new)>(m: Machine<T>, q: T, r: T, c: T)
    requires Cancels(m) && Abelian(m)
    ensures m.xor(q, c) == m.xor(r, c) <==> q == r
  {
    Regroup(m, q, r, c);
    assert m.xor(q, r) == m.xor(m.xor(q, c), m.xor(r, c));
  }

  /** The same bytes keep two registers apart. */
  lemma {:induction false} RegisterInjective<T(!new)>(m: Machine<T>, q: T, r: T, s: seq<byte>)
    requires Sound(m)
    ensures Register(m, q, s) == Register(m, r, s) <==> q == r
  {
    if s != [] {
      var p, b := s[..|s| - 1], s[|s| - 1];
      RegisterInjective(m, q, r, p);
      ShiftInByte(m, Register(m, q, p), b);
      ShiftInByte(m, Register(m, r, p), b);
      StepsInjective(m, 8, m.xor(Register(m, q, p), m.embed(b)), m.xor(Register(m, r, p), m.embed(b)));
      XorInjective(m, Register(m, q, p), Register(m, r, p), m.embed(b));
    }
  }

  // ---------- four bytes at a time ----------

  /** place(k, b) holds byte b in the k-th byte position: 8k steps bring it to the front. */
  ghost predicate Places<T(!new)>(m: Machine<T>, place: (nat, byte) -> T) {
    forall k: nat, b: byte {:trigger place(k, b)} :: k < 4 ==> Steps(m, 8 * k, place(k, b)) == m.embed(b)
  }

  ghost function Word<T>(m: Machine<T>, place: (nat, byte) -> T, r: T, s: seq<byte>): T
  {
    if s == [] then r else m.xor(Word(m, place, r, s[..|s| - 1]), place(|s| - 1, s[|s| - 1]))
  }

  /** A later byte may be XORed into the register ahead of time, at its own position. */
  lemma Absorb<T(!new)>(m: Machine<T>, w: T, p: T, n: nat, b: byte)
    requires Sound(m) && Steps(m, n, p) == m.embed(b)
    ensures ShiftIn(m, 8, Steps(m, n, w), b) == Steps(m, n + 8, m.xor(w, p))
  {
    ShiftInByte(m, Steps(m, n, w), b);
    StepsLinear(m, n, w, p);
    StepsAdd(m, n, 8, m.xor(w, p));
  }

  /** Up to four bytes act on the register as one word. */
  lemma {:induction false} RegisterOfWord<T(!new)>(m: Machine<T>, place: (nat, byte) -> T, r: T, s: seq<byte>)
    requires Sound(m) && Places(m, place) && |s| <= 4
    ensures Register(m, r, s) == Steps(m, 8 * |s|, Word(m, place, r, s))
  {
    if s != [] {
      var k := |s| - 1;
      RegisterOfWord(m, place, r, s[..k]);
      Absorb(m, Word(m, place, r, s[..k]), place(k, s[k]), 8 * k, s[k]);
    }
  }

  ghost predicate PlacesLinear<T>(m: Machine<T>, place: (nat, byte) -> T) {
    forall k: nat, a: byte, b: byte {:trigger m.xor(place(k, a), place(k, b))} ::
      m.xor(place(k, a), place(k, b)) == place(k, XorBytes(a, b))
  }

  /** Only four zero bytes make a zero word: the byte positions do not overlap. */
  ghost predicate PlacesApart<T>(m: Machine<T>, place: (nat, byte) -> T) {
    forall a: byte, b: byte, c: byte, d: byte
      {:trigger m.xor(m.xor(m.xor(m.xor(m.zero, place(0, a)), place(1, b)), place(2, c)), place(3, d))} ::
      m.xor(m.xor(m.xor(m.xor(m.zero, place(0, a)), place(1, b)), place(2, c)), place(3, d)) == m.zero ==>
      a == 0 && b == 0 && c == 0 && d == 0
  }

  lemma WordOfFour<T>(m: Machine<T>, place: (nat, byte) -> T, r: T, s: seq<byte>)
    requires |s| == 4
    ensures Word(m, place, r, s)
         == m.xor(m.xor(m.xor(m.xor(r, place(0, s[0])), place(1, s[1])), place(2, s[2])), place(3, s[3]))
  {
    assert s[..3][..2] == s[..2] && s[..2][..1] == s[..1] && s[..1][..0] == [];
    assert Word(m, place, r, s[..1]) == m.xor(r, place(0, s[0]));
    assert Word(m, place, r, s[..2]) == m.xor(Word(m, place, r, s[..1]), place(1, s[1]));
    assert Word(m, place, r, s[..3]) == m.xor(Word(m, place, r, s[..2]), place(2, s[2]));
  }

  ghost predicate WordSound<T(!new)>(m: Machine<T>, place: (nat, byte) -> T) {
    Places(m, place) && PlacesLinear(m, place) && PlacesApart(m, place)
  }

  function Delta(s: seq<byte>, t: seq<byte>): (d: seq<byte>)
    requires |s| == |t|
  {
    seq(|s|, i requires 0 <= i < |s| => XorBytes(s[i], t[i]))
  }

  function XorBytes(a: byte, b: byte): byte { a ^ b }

  /** Words are XOR-linear in their bytes. */
  lemma {:induction false} WordLinear<T(!new)>(m: Machine<T>, place: (nat, byte) -> T, r: T, s: seq<byte>, t: seq<byte>)
    requires Cancels(m) && Abelian(m) && PlacesLinear(m, place) && |s| == |t|
    ensures m.xor(Word(m, place, r, s), Word(m, place, r, t)) == Word(m, place, m.zero, Delta(s, t))
  {
    if s == [] {
      assert m.xor(r, r) == m.zero;
    } else {
      var k := |s| - 1;
      WordLinear(m, place, r, s[..k], t[..k]);
      assert Delta(s, t)[..k] == Delta(s[..k], t[..k]);
      Interchange(m, Word(m, place, r, s[..k]), place(k, s[k]), Word(m, place, r, t[..k]), place(k, t[k]));
      assert m.xor(place(k, s[k]), place(k, t[k])) == place(k, Delta(s, t)[k]);
    }
  }

  lemma XorBytesZero(a: byte, b: byte)
    ensures XorBytes(a, b) == 0 <==> a == b
  {
  }

  lemma WordInjective<T(!new)>(m: Machine<T>, place: (nat, byte) -> T, r: T, s: seq<byte>, t: seq<byte>)
    requires Cancels(m) && Abelian(m) && PlacesLinear(m, place) && PlacesApart(m, place)
    requires |s| == |t| == 4 && Word(m, place, r, s) == Word(m, place, r, t)
    ensures s == t
  {
    var d := Delta(s, t);
    WordLinear(m, place, r, s, t);
    WordOfFour(m, place, m.zero, d);
    XorBytesZero(s[0], t[0]);
    XorBytesZero(s[1], t[1]);
    XorBytesZero(s[2], t[2]);
    XorBytesZero(s[3], t[3]);
  }

  lemma FourBytesInjective<T(!new)>(m: Machine<T>, place: (nat, byte) -> T, r: T, s: seq<byte>, t: seq<byte>)
    requires Sound(m) && WordSound(m, place)
    requires |s| == |t| == 4 && Register(m, r, s) == Register(m, r, t)
    ensures s == t
  {
    RegisterOfWord(m, place, r, s);
    RegisterOfWord(m, place, r, t);
    StepsInjective(m, 32, Word(m, place, r, s), Word(m, place, r, t));
    WordInjective(m, place, r, s, t);
  }

  /** Fewer than four bytes: the same padding on both sides makes them four. */
  lemma FewBytesInjective<T(!new)>(m: Machine<T>, place: (nat, byte) -> T, r: T, s: seq<byte>, t: seq<byte>)
    requires Sound(m) && WordSound(m, place)
    requires |s| == |t| <= 4
    ensures Register(m, r, s) == Register(m, r, t) <==> s == t
  {
    if Register(m, r, s) == Register(m, r, t) {
      var pad: seq<byte> := seq(4 - |s|, _ => 0);
      RegisterConcat(m, r, s, pad);
      RegisterConcat(m, r, t, pad);
      FourBytesInjective(m, place, r, s + pad, t + pad);
      assert s == (s + pad)[..|s|] && t == (t + pad)[..|t|];
    }
  }

  /** s and t have equal length and agree outside bytes k .. k+3. */
  ghost predicate DifferInWindow(s: seq<byte>, t: seq<byte>, k: nat) {
    |s| == |t| && forall i :: 0 <= i < |s| && (i < k || k + 4 <= i) ==> s[i] == t[i]
  }

  lemma BurstDetection<T(!new)>(m: Machine<T>, place: (nat, byte) -> T, r0: T, s: seq<byte>, t: seq<byte>, k: nat)
    requires Sound(m) && WordSound(m, place)
    requires DifferInWindow(s, t, k)
    ensures Register(m, r0, s) == Register(m, r0, t) <==> s == t
  {
    var lo := if k < |s| then k else |s|;
    var hi := if k + 4 < |s| then k + 4 else |s|;
    var head, tail := s[..lo], s[hi..];
    assert t[..lo] == head && t[hi..] == tail;
    assert s == head + (s[lo..hi] + tail) && t == head + (t[lo..hi] + tail);
    var r := Register(m, r0, head);
    RegisterConcat(m, r0, head, s[lo..hi] + tail);
    RegisterConcat(m, r0, head, t[lo..hi] + tail);
    RegisterConcat(m, r, s[lo..hi], tail);
    RegisterConcat(m, r, t[lo..hi], tail);
    RegisterInjective(m, Register(m, r, s[lo..hi]), Register(m, r, t[lo..hi]), tail);
    FewBytesInjective(m, place, r, s[lo..hi], t[lo..hi]);
  }
}
