/** 32-bit words seen as bit strings: the few facts about exclusive or and shifts that the
    checksum proofs use. Proofs over words hide the operators and reason with these laws. */
module Words {

  type Word = bv32

  function Xor(x: Word, y: Word): Word { x ^ y }

  function Half(x: Word): Word { x >> 1 }

  predicate Odd(x: Word) { x & 1 == 1 }

  predicate Top(x: Word) { x & 0x80000000 != 0 }

  /** Shift left and put a bit in the freed place. */
  function Push(x: Word, bit: bool): Word { (x << 1) | (if bit then 1 else 0) }

  /** Every bit of x is a bit of m. */
  predicate Within(x: Word, m: Word) { x & m == x }

  function LowByte(x: Word): Word { x & 0xff }

  function HighBytes(x: Word): Word { x & 0xffffff00 }

  function Shift8(x: Word): Word { x >> 8 }

  lemma XorAssoc(x: Word, y: Word, z: Word)
    ensures Xor(x, Xor(y, z)) == Xor(Xor(x, y), z)
  {}

  lemma XorComm(x: Word, y: Word)
    ensures Xor(x, y) == Xor(y, x)
  {}

  lemma XorZero(x: Word)
    ensures Xor(x, 0) == x
  {}

  lemma XorCancel(x: Word, y: Word)
    ensures Xor(Xor(x, y), y) == x
  {}

  lemma XorMiddle(p: Word, x: Word, y: Word)
    ensures Xor(Xor(p, x), y) == Xor(p, Xor(x, y)) == Xor(x, Xor(p, y))
    ensures Xor(Xor(p, x), Xor(p, y)) == Xor(x, y)
  {
    hide Xor;
    XorAssoc(p, x, y);
    XorAssoc(x, p, y);
    XorComm(p, x);
    XorAssoc(Xor(p, x), p, y);
    XorComm(p, x);
    XorCancel(x, p);
  }

  lemma HalfXor(x: Word, y: Word)
    ensures Half(Xor(x, y)) == Xor(Half(x), Half(y))
  {}

  lemma OddXor(x: Word, y: Word)
    ensures Odd(Xor(x, y)) <==> Odd(x) != Odd(y)
  {
    var a, b := x & 1, y & 1;
    assert a == 0 || a == 1;
    assert b == 0 || b == 1;
    assert (x ^ y) & 1 == a ^ b;
  }

  lemma TopXor(x: Word, y: Word)
    ensures Top(Xor(x, y)) <==> Top(x) != Top(y)
  {
    var a, b := x & 0x80000000, y & 0x80000000;
    assert a == 0 || a == 0x80000000;
    assert b == 0 || b == 0x80000000;
    assert (x ^ y) & 0x80000000 == a ^ b;
  }

  lemma TopHalf(x: Word)
    ensures !Top(Half(x))
  {}

  lemma HalfOddDetermine(x: Word, y: Word)
    requires Half(x) == Half(y) && Odd(x) == Odd(y)
    ensures x == y
  {
    HalvesRejoin(x, y);
    var a, b := x & 1, y & 1;
    assert (a == 0 || a == 1) && (b == 0 || b == 1);
  }

  lemma HalvesRejoin(x: Word, y: Word)
    ensures x >> 1 == y >> 1 && x & 1 == y & 1 ==> x == y
  {}

  lemma PushOdd(x: Word, bit: bool)
    ensures Odd(Push(x, bit)) == bit
  {}

  lemma PushHalf(x: Word, bit: bool)
    requires !Top(x)
    ensures Half(Push(x, bit)) == x
  {}

  lemma PushZeroWithin(x: Word, m: Word)
    requires Within(x, m)
    ensures Within(Push(x, false), Push(m, true))
  {}

  lemma PushOneWithin(x: Word, m: Word)
    requires Within(x, m)
    ensures Within(Push(x, true), Push(m, true))
  {}

  lemma PushWithin(x: Word, m: Word, bit: bool)
    requires Within(x, m)
    ensures Within(Push(x, bit), Push(m, true))
  {
    PushZeroWithin(x, m);
    PushOneWithin(x, m);
    hide Within, Push;
  }

  lemma WithinTop(x: Word, m: Word)
    requires Within(x, m) && !Top(m)
    ensures !Top(x)
  {}

  lemma SplitBytes(x: Word)
    ensures x == Xor(LowByte(x), HighBytes(x))
    ensures LowByte(x) < 0x100
  {}

  lemma Shift8Xor(x: Word, b: Word)
    requires b < 0x100
    ensures Shift8(Xor(x, b)) == Shift8(x)
  {}

  /** Halving a word whose low byte is zero drops eight zero bits. */
  lemma HighBytesHalved(x: Word)
    ensures ((((((((x & 0xffffff00) >> 1) >> 1) >> 1) >> 1) >> 1) >> 1) >> 1) >> 1 == x >> 8
    ensures (x & 0xffffff00) & 1 == 0 && ((x & 0xffffff00) >> 1) & 1 == 0
    ensures (((x & 0xffffff00) >> 1) >> 1) & 1 == 0 && ((((x & 0xffffff00) >> 1) >> 1) >> 1) & 1 == 0
    ensures (((((x & 0xffffff00) >> 1) >> 1) >> 1) >> 1) & 1 == 0
    ensures ((((((x & 0xffffff00) >> 1) >> 1) >> 1) >> 1) >> 1) & 1 == 0
    ensures (((((((x & 0xffffff00) >> 1) >> 1) >> 1) >> 1) >> 1) >> 1) & 1 == 0
    ensures ((((((((x & 0xffffff00) >> 1) >> 1) >> 1) >> 1) >> 1) >> 1) >> 1) & 1 == 0
  {}

  lemma PushHalfOdd(x: Word)
    ensures Push(Half(x), Odd(x)) == x
  {
    hide Push, Half, Odd, Top;
    TopHalf(x);
    PushHalf(Half(x), Odd(x));
    PushOdd(Half(x), Odd(x));
    HalfOddDetermine(Push(Half(x), Odd(x)), x);
  }

  /** x and y agree on the bits of m. */
  predicate Agree(x: Word, y: Word, m: Word) { x & m == y & m }

  lemma AgreePeel(x: Word, y: Word, m: Word)
    requires Agree(x, y, Push(m, true)) && !Top(m)
    ensures Odd(x) == Odd(y) && Agree(Half(x), Half(y), m)
  {
    AgreedBits(x, y, m);
  }

  lemma AgreedBits(x: Word, y: Word, m: Word)
    ensures x & ((m << 1) | 1) == y & ((m << 1) | 1) && m & 0x80000000 == 0
            ==> x & 1 == y & 1 && (x >> 1) & m == (y >> 1) & m
  {}

  lemma LowByteAgrees(x: Word)
    ensures Agree(x, LowByte(x), 0xff)
  {}

  lemma EightHalves(x: Word)
    ensures Half(Half(Half(Half(Half(Half(Half(Half(x)))))))) == Shift8(x)
  {}
}
