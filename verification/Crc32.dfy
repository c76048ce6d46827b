/** The CRC-32 of the release packager: a table-driven loop, refined against the
    bit-serial shift register of RFC 1952 section 8 (reflected, polynomial 0xedb88320). */
module Crc32 {
  import opened Words

  type Byte = bv8

  const POLYNOMIAL: Word := 0xedb88320
  const ALL_ONES: Word := 0xffffffff
  /** The register left by any message followed by its own checksum (APPNOTE section 4.4.7). */
  const RESIDUE: Word := 0xdebb20e3

  // ---------- Reference definition: one message bit at a time ----------

  /** One clock of the shift register: the feedback is the register's low bit against the message bit. */
  function Clock(register: Word, bit: bool): Word {
    if Odd(register) != bit then Xor(Half(register), POLYNOMIAL) else Half(register)
  }

  function Serial(register: Word, bits: seq<bool>): Word
    decreases bits
  {
    if bits == [] then register else Serial(Clock(register, bits[0]), bits[1..])
  }

  /** Each byte is sent least significant bit first. */
  function ByteWord(b: Byte): Word { b as bv32 }

  function LowBits(w: Word, n: nat): (bits: seq<bool>)
    ensures |bits| == n
    decreases n
  {
    if n == 0 then [] else [Odd(w)] + LowBits(Half(w), n - 1)
  }

  function ByteBits(b: Byte): (bits: seq<bool>)
    ensures |bits| == 8
  {
    LowBits(ByteWord(b), 8)
  }

  function Bits(message: seq<Byte>): seq<bool> {
    if message == [] then [] else ByteBits(message[0]) + Bits(message[1..])
  }

  /** The register after a message, and the checksum, by the reference definition. */
  function SerialRegister(message: seq<Byte>): Word {
    Serial(ALL_ONES, Bits(message))
  }

  function SerialChecksum(message: seq<Byte>): Word {
    Xor(SerialRegister(message), ALL_ONES)
  }

  // ---------- The packager's own arithmetic ----------

  /** The body of the table's inner loop. */
  function Step(value: Word): Word {
    if Odd(value) then Xor(POLYNOMIAL, Half(value)) else Half(value)
  }

  function Steps(value: Word, n: nat): Word
    decreases n
  {
    if n == 0 then value else Steps(Step(value), n - 1)
  }

  ghost predicate IsTable(table: seq<Word>) {
    |table| == 256 && forall v: Word :: v as int < 256 ==> table[v as int] == Steps(v, 8)
  }

  // ---------- Algebra of the step ----------

  lemma StepXor(x: Word, y: Word)
    ensures Step(Xor(x, y)) == Xor(Step(x), Step(y))
  {
    hide Xor, Half, Odd;
    HalfXor(x, y);
    OddXor(x, y);
    XorMiddle(POLYNOMIAL, Half(x), Half(y));
  }

  /** Any number of steps is linear over exclusive or. */
  lemma {:induction false} StepsXor(x: Word, y: Word, n: nat)
    ensures Steps(Xor(x, y), n) == Xor(Steps(x, n), Steps(y, n))
    decreases n
  {
    hide Xor, Half, Odd, Step;
    if n > 0 {
      StepXor(x, y);
      StepsXor(Step(x), Step(y), n - 1);
    }
  }

  /** The polynomial's top bit is set, so a step never merges two registers. */
  lemma StepInjective(x: Word, y: Word)
    requires Step(x) == Step(y)
    ensures x == y
  {
    hide Xor, Half, Odd;
    var p, q := Half(x), Half(y);
    TopHalf(x);
    TopHalf(y);
    TopXor(POLYNOMIAL, p);
    TopXor(POLYNOMIAL, q);
    XorComm(POLYNOMIAL, p);
    XorComm(POLYNOMIAL, q);
    XorCancel(p, POLYNOMIAL);
    XorCancel(q, POLYNOMIAL);
    if Odd(x) == Odd(y) {
      HalfOddDetermine(x, y);
    }
  }

  lemma {:induction false} StepsInjective(x: Word, y: Word, n: nat)
    requires Steps(x, n) == Steps(y, n)
    ensures x == y
    decreases n
  {
    hide Xor, Half, Odd, Step;
    if n > 0 {
      StepsInjective(Step(x), Step(y), n - 1);
      StepInjective(x, y);
    }
  }

  lemma {:induction false} StepsShift(x: Word, n: nat)
    requires n > 0 && !Odd(x)
    ensures Steps(x, n) == Steps(Half(x), n - 1)
  {}

  /** Eight steps on a register with a zero low byte only shift it. */
  lemma StepsOfHighBytes(x: Word)
    ensures Steps(HighBytes(x), 8) == Shift8(x)
  {
    hide Steps, Step;
    HighBytesHalved(x);
    var h0 := HighBytes(x);
    var h1 := Half(h0); var h2 := Half(h1); var h3 := Half(h2); var h4 := Half(h3);
    var h5 := Half(h4); var h6 := Half(h5); var h7 := Half(h6);
    StepsShift(h0, 8);
    StepsShift(h1, 7);
    StepsShift(h2, 6);
    StepsShift(h3, 5);
    StepsShift(h4, 4);
    StepsShift(h5, 3);
    StepsShift(h6, 2);
    StepsShift(h7, 1);
    StepsNone(Half(h7));
  }

  lemma StepsNone(x: Word)
    ensures Steps(x, 0) == x
  {}

  /** The identity behind the table: eight steps are one lookup and one shift. */
  lemma StepsByLookup(x: Word)
    ensures Steps(x, 8) == Xor(Steps(LowByte(x), 8), Shift8(x))
  {
    hide *;
    SplitBytes(x);
    StepsXor(LowByte(x), HighBytes(x), 8);
    StepsOfHighBytes(x);
  }

  // ---------- Short bit strings as words ----------

  function WordOf(bits: seq<bool>): Word {
    if bits == [] then 0 else Push(WordOf(bits[1..]), bits[0])
  }

  /** The low n bits set. */
  function Mask(n: nat): Word {
    if n == 0 then 0 else Push(Mask(n - 1), true)
  }

  lemma {:induction false} MaskBelow31(n: nat)
    requires n <= 31
    ensures Within(Mask(n), 0x7fffffff)
    decreases 31 - n
  {
    hide Within, Push;
    if n == 31 {
      MaskAt31();
    } else {
      MaskBelow31(n + 1);
      MaskGrows(n);
      WithinTrans(Mask(n), Mask(n + 1), 0x7fffffff);
    }
  }

  lemma {:induction false} MaskGrows(n: nat)
    ensures Within(Mask(n), Mask(n + 1))
  {
    if n == 0 {
      assert Mask(0) == 0;
    } else {
      hide Within, Push;
      MaskGrows(n - 1);
      PushWithin(Mask(n - 1), Mask(n), true);
    }
  }

  lemma WithinTrans(x: Word, y: Word, z: Word)
    requires Within(x, y) && Within(y, z)
    ensures Within(x, z)
  {}

  lemma MaskAt31()
    ensures Within(Mask(31), 0x7fffffff)
  {
    assert Mask(8) == 0xff by { assert Mask(4) == 0xf; }
    assert Mask(16) == 0xffff by { assert Mask(12) == 0xfff; }
    assert Mask(24) == 0xffffff by { assert Mask(20) == 0xfffff; }
    assert Mask(31) == 0x7fffffff by { assert Mask(28) == 0xfffffff; }
  }

  lemma {:induction false} WordOfFits(bits: seq<bool>)
    ensures Within(WordOf(bits), Mask(|bits|))
  {
    if bits == [] {
      assert Mask(0) == 0;
    } else {
      hide Within, Push;
      WordOfFits(bits[1..]);
      PushWithin(WordOf(bits[1..]), Mask(|bits| - 1), bits[0]);
    }
  }

  /** Up to 32 bits, the first bit and the rest can be read back from the word. */
  lemma WordOfPeel(bits: seq<bool>)
    requires 0 < |bits| <= 32
    ensures Half(WordOf(bits)) == WordOf(bits[1..])
    ensures Odd(WordOf(bits)) == bits[0]
  {
    hide Within, Push, Half, Odd, Mask;
    var w := WordOf(bits[1..]);
    WordOfFits(bits[1..]);
    MaskBelow31(|bits| - 1);
    WithinTrans(w, Mask(|bits| - 1), 0x7fffffff);
    WithinTop(w, 0x7fffffff);
    PushHalf(w, bits[0]);
    PushOdd(w, bits[0]);
  }

  lemma {:induction false} WordOfInjective(u: seq<bool>, v: seq<bool>)
    requires |u| == |v| <= 32 && WordOf(u) == WordOf(v)
    ensures u == v
    decreases u
  {
    if u != [] {
      hide WordOf, Half, Odd;
      WordOfPeel(u);
      WordOfPeel(v);
      WordOfInjective(u[1..], v[1..]);
      assert u == [u[0]] + u[1..] && v == [v[0]] + v[1..];
    }
  }

  lemma ClockIsStep(register: Word, bit: bool, w: Word)
    requires Odd(w) == bit
    ensures Clock(register, bit) == Xor(Step(Xor(register, w)), Half(w))
  {
    hide Xor, Half, Odd;
    HalfXor(register, w);
    OddXor(register, w);
    XorCancel(Half(register), Half(w));
    XorMiddle(POLYNOMIAL, Xor(Half(register), Half(w)), Half(w));
    XorComm(POLYNOMIAL, Half(register));
  }

  /** Clocking in up to 32 bits is xoring them in as a word and stepping that often. */
  lemma {:induction false} SerialIsSteps(register: Word, bits: seq<bool>)
    requires |bits| <= 32
    ensures Serial(register, bits) == Steps(Xor(register, WordOf(bits)), |bits|)
    decreases bits
  {
    if bits == [] {
      XorZero(register);
    } else {
      hide Xor, Half, Odd, WordOf, Clock, Step;
      var w := WordOf(bits);
      WordOfPeel(bits);
      ClockIsStep(register, bits[0], w);
      SerialIsSteps(Clock(register, bits[0]), bits[1..]);
      XorCancel(Step(Xor(register, w)), Half(w));
    }
  }

  lemma {:induction false} SerialConcat(register: Word, u: seq<bool>, v: seq<bool>)
    ensures Serial(register, u + v) == Serial(Serial(register, u), v)
    decreases u
  {
    hide Clock;
    if u == [] {
      assert u + v == v;
    } else {
      SerialConcat(Clock(register, u[0]), u[1..], v);
      assert (u + v)[1..] == u[1..] + v;
    }
  }

  lemma ClockInjective(r: Word, s: Word, bit: bool)
    requires Clock(r, bit) == Clock(s, bit)
    ensures r == s
  {
    hide Xor, Half, Odd, Step, Clock;
    var w: Word := if bit then 1 else 0;
    assert Odd(w) == bit by { OddOfBit(bit); }
    ClockIsStep(r, bit, w);
    ClockIsStep(s, bit, w);
    XorCancel(Step(Xor(r, w)), Half(w));
    XorCancel(Step(Xor(s, w)), Half(w));
    StepInjective(Xor(r, w), Xor(s, w));
    XorCancel(r, w);
    XorCancel(s, w);
  }

  lemma OddOfBit(bit: bool)
    ensures Odd(if bit then 1 else 0) == bit
  {}

  lemma {:induction false} SerialInjective(r: Word, s: Word, bits: seq<bool>)
    requires Serial(r, bits) == Serial(s, bits)
    ensures r == s
    decreases bits
  {
    hide Clock;
    if bits != [] {
      SerialInjective(Clock(r, bits[0]), Clock(s, bits[0]), bits[1..]);
      ClockInjective(r, s, bits[0]);
    }
  }

  // ---------- Error detection ----------

  /** Two bit strings that differ only inside a window of at most 32 bits leave different
      registers: every burst of up to 32 bits is detected. */
  lemma BurstDetected(register: Word, before: seq<bool>, u: seq<bool>, v: seq<bool>, after: seq<bool>)
    requires |u| == |v| <= 32
    ensures Serial(register, before + u + after) == Serial(register, before + v + after) <==> u == v
  {
    hide *;
    var r := Serial(register, before);
    SerialConcat(register, before + u, after);
    SerialConcat(register, before + v, after);
    SerialConcat(register, before, u);
    SerialConcat(register, before, v);
    SerialIsSteps(r, u);
    SerialIsSteps(r, v);
    if Serial(register, before + u + after) == Serial(register, before + v + after) {
      SerialInjective(Serial(r, u), Serial(r, v), after);
      StepsInjective(Xor(r, WordOf(u)), Xor(r, WordOf(v)), |u|);
      XorComm(r, WordOf(u));
      XorComm(r, WordOf(v));
      XorCancel(WordOf(u), r);
      XorCancel(WordOf(v), r);
      WordOfInjective(u, v);
    }
  }

  lemma {:induction false} BitsConcat(m: seq<Byte>, n: seq<Byte>)
    ensures Bits(m + n) == Bits(m) + Bits(n)
  {
    hide ByteBits;
    if m == [] {
      assert m + n == n;
    } else {
      BitsConcat(m[1..], n);
      assert (m + n)[1..] == m[1..] + n;
      assert ByteBits(m[0]) + (Bits(m[1..]) + Bits(n)) == ByteBits(m[0]) + Bits(m[1..]) + Bits(n);
    }
  }

  lemma {:induction false} BitsLength(m: seq<Byte>)
    ensures |Bits(m)| == 8 * |m|
  {
    if m != [] {
      BitsLength(m[1..]);
    }
  }

  lemma {:induction false} BitsInjective(m: seq<Byte>, n: seq<Byte>)
    requires |m| == |n| && Bits(m) == Bits(n)
    ensures m == n
    decreases m
  {
    hide ByteBits;
    if m != [] {
      assert Bits(m)[..8] == ByteBits(m[0]) && Bits(m)[8..] == Bits(m[1..]);
      assert Bits(n)[..8] == ByteBits(n[0]) && Bits(n)[8..] == Bits(n[1..]);
      ByteBitsInjective(m[0], n[0]);
      BitsInjective(m[1..], n[1..]);
      assert m == [m[0]] + m[1..] && n == [n[0]] + n[1..];
    }
  }

  /** Damage confined to four consecutive bytes always changes the checksum. */
  lemma WindowDetected(before: seq<Byte>, u: seq<Byte>, v: seq<Byte>, after: seq<Byte>)
    requires |u| == |v| <= 4
    ensures SerialChecksum(before + u + after) == SerialChecksum(before + v + after) <==> u == v
  {
    hide Xor, Serial, Bits;
    BitsConcat(before + u, after);
    BitsConcat(before, u);
    BitsConcat(before + v, after);
    BitsConcat(before, v);
    BitsLength(u);
    BitsLength(v);
    BurstDetected(ALL_ONES, Bits(before), Bits(u), Bits(v), Bits(after));
    XorCancel(SerialRegister(before + u + after), ALL_ONES);
    XorCancel(SerialRegister(before + v + after), ALL_ONES);
    if Bits(u) == Bits(v) {
      BitsInjective(u, v);
    }
  }

  // ---------- The table-driven form ----------

  function Halves(w: Word, n: nat): Word
    decreases n
  {
    if n == 0 then w else Halves(Half(w), n - 1)
  }

  lemma {:induction false} WordOfLowBits(w: Word, n: nat, rest: seq<bool>)
    requires WordOf(rest) == Halves(w, n)
    ensures WordOf(LowBits(w, n) + rest) == w
    decreases n
  {
    hide Push, Half, Odd;
    if n == 0 {
      assert LowBits(w, n) + rest == rest;
    } else {
      WordOfLowBits(Half(w), n - 1, rest);
      var s := LowBits(w, n) + rest;
      assert s[1..] == LowBits(Half(w), n - 1) + rest;
      PushHalfOdd(w);
    }
  }

  lemma HalvesEight(w: Word)
    ensures Halves(w, 8) == Half(Half(Half(Half(Half(Half(Half(Half(w))))))))
  {
    hide Half;
    assert Halves(w, 8) == Halves(Half(Half(w)), 6) == Halves(Half(Half(Half(Half(w)))), 4);
    assert Halves(Half(Half(Half(Half(w)))), 4) == Halves(Half(Half(Half(Half(Half(Half(w)))))), 2);
  }

  lemma {:induction false} LowBitsAgree(x: Word, y: Word, n: nat)
    requires n <= 32 && Agree(x, y, Mask(n))
    ensures LowBits(x, n) == LowBits(y, n)
    decreases n
  {
    if n > 0 {
      hide Half, Odd, Agree, Push, Top, Within;
      MaskBelow31(n - 1);
      WithinTop(Mask(n - 1), 0x7fffffff);
      AgreePeel(x, y, Mask(n - 1));
      LowBitsAgree(Half(x), Half(y), n - 1);
    }
  }

  /** A byte in front of more bits is the low byte of their word. */
  lemma WordOfByte(b: Byte, rest: seq<bool>, w: Word)
    requires LowByte(w) == ByteWord(b) && WordOf(rest) == Shift8(w)
    ensures WordOf(ByteBits(b) + rest) == w
  {
    hide WordOf, Half, LowBits;
    HalvesEight(w);
    EightHalves(w);
    LowByteAgrees(w);
    assert Mask(8) == 0xff by { assert Mask(4) == 0xf; }
    LowBitsAgree(w, ByteWord(b), 8);
    WordOfLowBits(w, 8, rest);
  }

  lemma ByteAlone(b: Byte)
    ensures WordOf(ByteBits(b)) == ByteWord(b) && ByteWord(b) < 0x100
  {
    assert ByteBits(b) + [] == ByteBits(b);
    ByteWordIsLow(b);
    hide ByteBits;
    WordOfByte(b, [], ByteWord(b));
  }

  lemma ByteWordIsLow(b: Byte)
    ensures LowByte(ByteWord(b)) == ByteWord(b) && Shift8(ByteWord(b)) == 0 && ByteWord(b) < 0x100
  {}

  lemma ByteBitsInjective(a: Byte, b: Byte)
    requires ByteBits(a) == ByteBits(b)
    ensures a == b
  {
    hide ByteBits, WordOf;
    ByteAlone(a);
    ByteAlone(b);
  }

  /** Feeding one byte to the shift register is one table lookup. */
  lemma SerialByLookup(register: Word, b: Byte)
    ensures Serial(register, ByteBits(b))
         == Xor(Steps(LowByte(Xor(register, ByteWord(b))), 8), Shift8(register))
  {
    hide Xor, LowByte, Shift8, Serial, Steps, ByteBits, ByteWord;
    ByteAlone(b);
    SerialIsSteps(register, ByteBits(b));
    StepsByLookup(Xor(register, ByteWord(b)));
    Shift8Xor(register, ByteWord(b));
  }

  lemma SerialAppend(message: seq<Byte>, b: Byte)
    ensures SerialRegister(message + [b]) == Serial(SerialRegister(message), ByteBits(b))
  {
    hide ByteBits, Serial;
    BitsConcat(message, [b]);
    assert Bits([b]) == ByteBits(b);
    SerialConcat(ALL_ONES, Bits(message), ByteBits(b));
  }

  lemma LowByteIndex(x: Word)
    ensures LowByte(x) as int < 256
  {
    SplitBytes(x);
  }

  lemma WordOfIndex(v: Word, n: int)
    requires 0 <= n < 256 && v as int == n
    ensures v == n as bv32
  {}

  lemma OneStep(value: Word, n: nat)
    ensures Steps(value, n) == if n == 0 then value else Steps(Step(value), n - 1)
  {}

  /** The first n slots hold their words. */
  ghost predicate IsTableUpto(table: seq<Word>, n: nat) {
    |table| == 256 && n <= 256 && forall v: Word :: v as int < n ==> table[v as int] == Steps(v, 8)
  }

  lemma OneSlotMore(table: seq<Word>, n: nat, value: Word)
    requires IsTableUpto(table, n) && n < 256 && value == Steps(n as bv32, 8)
    ensures IsTableUpto(table[n := value], n + 1)
  {
    hide Steps;
    forall v: Word | v as int < n + 1 ensures table[n := value][v as int] == Steps(v, 8) {
      if v as int == n {
        WordOfIndex(v, n);
      }
    }
  }

  method BuildTable() returns (table: array<Word>)
    ensures fresh(table) && IsTable(table[..])
  {
    hide Xor, Half, Odd, Steps;
    table := new Word[256](_ => 0);
    var index := 0;
    while index < table.Length
      invariant 0 <= index <= 256
      invariant IsTableUpto(table[..], index)
    {
      var value: Word := index as bv32;
      var bit := 0;
      while bit < 8
        invariant 0 <= bit <= 8 && IsTableUpto(table[..], index)
        invariant Steps(value, 8 - bit) == Steps(index as bv32, 8)
      {
        OneStep(value, 8 - bit);
        value := if Odd(value) then Xor(POLYNOMIAL, Half(value)) else Half(value);
        bit := bit + 1;
      }
      OneStep(value, 0);
      OneSlotMore(table[..], index, value);
      ghost var before := table[..];
      table[index] := value;
      assert table[..] == before[index := value];
      index := index + 1;
    }
  }

  /** The packager's checksum loop computes the reference checksum. */
  method Checksum(table: array<Word>, buffer: seq<Byte>) returns (checksum: Word)
    requires IsTable(table[..])
    ensures checksum == SerialChecksum(buffer)
  {
    hide Xor, LowByte, Shift8, Serial, Steps, ByteBits, ByteWord, SerialRegister;
    assert SerialRegister([]) == ALL_ONES by { RegisterOfNothing(); }
    var crc := ALL_ONES;
    for i := 0 to |buffer|
      invariant crc == SerialRegister(buffer[..i])
    {
      var slot := LowByte(Xor(crc, ByteWord(buffer[i])));
      LowByteIndex(Xor(crc, ByteWord(buffer[i])));
      SerialByLookup(crc, buffer[i]);
      SerialAppend(buffer[..i], buffer[i]);
      assert buffer[..i] + [buffer[i]] == buffer[..i + 1];
      assert table[..][slot as int] == Steps(slot, 8);
      crc := Xor(table[slot as int], Shift8(crc));
    }
    assert buffer[..|buffer|] == buffer;
    checksum := Xor(crc, ALL_ONES);
  }

  lemma RegisterOfNothing()
    ensures SerialRegister([]) == ALL_ONES
  {}

  // ---------- A message followed by its own checksum ----------

  function LittleEndian(w: Word): seq<Byte> {
    [(w & 0xff) as bv8, ((w >> 8) & 0xff) as bv8, ((w >> 16) & 0xff) as bv8, ((w >> 24) & 0xff) as bv8]
  }

  lemma LittleEndianBytes(w: Word)
    ensures var s := LittleEndian(w);
            && LowByte(w) == ByteWord(s[0]) && LowByte(w >> 8) == ByteWord(s[1])
            && LowByte(w >> 16) == ByteWord(s[2]) && LowByte(w >> 24) == ByteWord(s[3])
    ensures Shift8(w) == w >> 8 && Shift8(w >> 8) == w >> 16 && Shift8(w >> 16) == w >> 24 && Shift8(w >> 24) == 0
  {}

  lemma WordOfLittleEndian(w: Word)
    ensures |Bits(LittleEndian(w))| == 32 && WordOf(Bits(LittleEndian(w))) == w
  {
    hide ByteBits, WordOf, LowByte, Shift8, ByteWord;
    var s := LittleEndian(w);
    LittleEndianBytes(w);
    BitsLength(s);
    assert s[1..][1..] == s[2..] && s[2..][1..] == s[3..] && s[3..][1..] == s[4..] && s[4..] == [];
    WordOfNothing();
    assert Bits(s[4..]) == [];
    WordOfByte(s[3], Bits(s[4..]), w >> 24);
    WordOfByte(s[2], Bits(s[3..]), w >> 16);
    WordOfByte(s[1], Bits(s[2..]), w >> 8);
    WordOfByte(s[0], Bits(s[1..]), w);
  }

  lemma WordOfNothing()
    ensures WordOf([]) == 0
  {}

  lemma StepsSplit(x: Word, n: nat)
    requires n >= 4
    ensures Steps(x, n) == Steps(Step(Step(Step(Step(x)))), n - 4)
  {
    hide Step;
    assert Steps(Step(Step(x)), n - 2) == Steps(Step(Step(Step(Step(x)))), n - 4);
  }

  lemma StepsResidue()
    ensures Steps(ALL_ONES, 32) == RESIDUE
  {
    var a := Step(Step(Step(Step(ALL_ONES))));
    StepsSplit(ALL_ONES, 32);
    var b := Step(Step(Step(Step(a))));
    StepsSplit(a, 28);
    var c := Step(Step(Step(Step(b))));
    StepsSplit(b, 24);
    var d := Step(Step(Step(Step(c))));
    StepsSplit(c, 20);
    var e := Step(Step(Step(Step(d))));
    StepsSplit(d, 16);
    var f := Step(Step(Step(Step(e))));
    StepsSplit(e, 12);
    var g := Step(Step(Step(Step(f))));
    StepsSplit(f, 8);
    StepsSplit(g, 4);
    StepsNone(Step(Step(Step(Step(g)))));
  }

  /** The checksums of the empty message and of the letter a. */
  lemma KnownChecksums()
    ensures SerialChecksum([]) == 0 && SerialChecksum([0x61]) == 0xe8b7be43
  {
    hide ByteBits, Serial;
    RegisterOfNothing();
    assert [] + [0x61 as Byte] == [0x61];
    SerialAppend([], 0x61);
    SerialByLookup(ALL_ONES, 0x61);
    var low := LowByte(Xor(ALL_ONES, ByteWord(0x61)));
    var half := Step(Step(Step(Step(low))));
    StepsSplit(low, 8);
    StepsSplit(half, 4);
    StepsNone(Step(Step(Step(Step(half)))));
  }

  /** Appending a word in little-endian order leaves the fixed residue exactly when the
      word is the message's checksum. */
  lemma ResidueIffChecksum(message: seq<Byte>, w: Word)
    ensures SerialRegister(message + LittleEndian(w)) == RESIDUE <==> w == SerialChecksum(message)
  {
    hide Xor, Serial, Bits, LittleEndian, Steps, WordOf;
    var r := SerialRegister(message);
    var tail := Bits(LittleEndian(w));
    BitsConcat(message, LittleEndian(w));
    SerialConcat(ALL_ONES, Bits(message), tail);
    WordOfLittleEndian(w);
    SerialIsSteps(r, tail);
    StepsResidue();
    if Steps(Xor(r, w), 32) == RESIDUE {
      StepsInjective(Xor(r, w), ALL_ONES, 32);
      XorComm(r, w);
      XorCancel(w, r);
      XorComm(r, ALL_ONES);
    } else {
      XorComm(r, ALL_ONES);
      XorCancel(ALL_ONES, r);
      XorComm(r, w);
    }
  }
}
