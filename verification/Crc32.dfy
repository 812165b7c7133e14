/** The table-driven CRC-32 of the icon generator, against the bit-serial shift register of
    section 5.5 of the PNG specification. */
module Crc32 {
  type Bytes = seq<bv8>

  /** A 32-bit word; signed and unsigned results of the script differ in sign, not in bits.
      Wrapped, so that inductions over steps see only words. */
  datatype Word = Word(bits: bv32)

  const POLYNOMIAL := Word(0xedb88320)
  const ONES := Word(0xffffffff)

  function Xor(x: Word, y: Word): Word {
    Word(x.bits ^ y.bits)
  }

  function Half(x: Word): Word {
    Word(x.bits >> 1)
  }

  predicate Odd(x: Word) {
    x.bits & 1 == 1
  }

  function FromByte(b: bv8): Word {
    Word(b as bv32)
  }

  /** One step of the register with no input: the inner step of the table construction. */
  function Shift(c: Word): Word {
    if Odd(c) then Xor(POLYNOMIAL, Half(c)) else Half(c)
  }

  function ShiftN(c: Word, n: nat): Word
    decreases n
  {
    if n == 0 then c else ShiftN(Shift(c), n - 1)
  }

  /** One step of the register fed with one message bit. */
  function BitStep(c: Word, bit: bool): Word {
    if Odd(c) != bit then Xor(Half(c), POLYNOMIAL) else Half(c)
  }

  /** Feeds the low n bits of b, least significant first. */
  function Feed(c: Word, b: Word, n: nat): Word
    decreases n
  {
    if n == 0 then c else Feed(BitStep(c, Odd(b)), Half(b), n - 1)
  }

  /** The register after a whole message, bit by bit. */
  function Register(buf: Bytes): Word {
    if buf == [] then ONES else Feed(Register(buf[..|buf| - 1]), FromByte(buf[|buf| - 1]), 8)
  }

  /** The CRC by definition: the complement of the register. */
  function Crc(buf: Bytes): bv32 {
    Xor(Register(buf), ONES).bits
  }

  // ---------- words ----------

  lemma OddXor(x: Word, y: Word)
    ensures Odd(Xor(x, y)) == (Odd(x) != Odd(y))
  {
  }

  lemma HalfXor(x: Word, y: Word)
    ensures Half(Xor(x, y)) == Xor(Half(x), Half(y))
  {
  }

  lemma XorAssoc(x: Word, y: Word, z: Word)
    ensures Xor(x, Xor(y, z)) == Xor(Xor(x, y), z)
  {
  }

  lemma XorSwap(x: Word, y: Word, z: Word)
    ensures Xor(x, Xor(y, z)) == Xor(Xor(y, x), z)
  {
  }

  lemma XorZero(x: Word)
    ensures Xor(x, Word(0)) == x
  {
  }

  lemma XorCancels(x: Word, y: Word, z: Word)
    requires Xor(x, z) == Xor(y, z) || Xor(z, x) == Xor(z, y)
    ensures x == y
  {
  }

  // ---------- what a step does ----------

  lemma ShiftInjective(x: Word, y: Word)
    requires Shift(x) == Shift(y)
    ensures x == y
  {
  }

  lemma {:induction false} ShiftNInjective(x: Word, y: Word, n: nat)
    requires ShiftN(x, n) == ShiftN(y, n)
    ensures x == y
    decreases n
  {
    if n > 0 {
      ShiftNInjective(Shift(x), Shift(y), n - 1);
      ShiftInjective(x, y);
    }
  }

  /** The plain right shift the register performs while its low bits are zero. */
  function Drop(c: Word, n: nat): Word
    decreases n
  {
    if n == 0 then c else Drop(Half(c), n - 1)
  }

  predicate LowZero(c: Word, n: nat)
    decreases n
  {
    n == 0 || (!Odd(c) && LowZero(Half(c), n - 1))
  }

  lemma ShiftSplits(low: Word, high: Word)
    requires !Odd(high)
    ensures Shift(Xor(low, high)) == Xor(Shift(low), Half(high))
  {
    OddXor(low, high);
    HalfXor(low, high);
    XorAssoc(POLYNOMIAL, Half(low), Half(high));
  }

  /** A part with zero low bits only moves right meanwhile. */
  lemma {:induction false} ShiftNSplits(low: Word, high: Word, n: nat)
    requires LowZero(high, n)
    ensures ShiftN(Xor(low, high), n) == Xor(ShiftN(low, n), Drop(high, n))
    decreases n
  {
    if n > 0 {
      ShiftSplits(low, high);
      ShiftNSplits(Shift(low), Half(high), n - 1);
    }
  }

  function LowByte(c: Word): bv8 {
    (c.bits & 0xff) as bv8
  }

  function LowPart(c: Word): Word {
    Word(c.bits & 0xff)
  }

  function HighPart(c: Word): Word {
    Word(c.bits & 0xffffff00)
  }

  /** The arithmetic shift by a whole byte. */
  function ByteShift(c: Word): Word {
    Word(c.bits >> 8)
  }

  function EightHalves(c: Word): Word {
    Half(Half(Half(Half(Half(Half(Half(Half(c))))))))
  }

  lemma EightHalvesShift(c: Word)
    ensures EightHalves(c) == ByteShift(c)
  {
  }

  lemma DropEight(c: Word)
    ensures Drop(c, 8) == ByteShift(c)
  {
    EightHalvesShift(c);
    assert Drop(Half(Half(Half(Half(c)))), 4) == EightHalves(c);
  }

  lemma EvenHalves(c: Word)
    requires c.bits & 0xff == 0
    ensures !Odd(c) && Half(c).bits & 0x7f == 0
    ensures !Odd(Half(c)) && Half(Half(c)).bits & 0x3f == 0
    ensures !Odd(Half(Half(c))) && Half(Half(Half(c))).bits & 0x1f == 0
    ensures !Odd(Half(Half(Half(c)))) && Half(Half(Half(Half(c)))).bits & 0xf == 0
  {
  }

  lemma FourLowZero(c: Word)
    requires c.bits & 0xf == 0
    ensures LowZero(c, 4)
  {
    assert !Odd(c) && !Odd(Half(c)) && !Odd(Half(Half(c))) && !Odd(Half(Half(Half(c))));
  }

  lemma EightLowZero(c: Word)
    requires c.bits & 0xff == 0
    ensures LowZero(c, 8)
  {
    EvenHalves(c);
    FourLowZero(Half(Half(Half(Half(c)))));
  }

  lemma LowByteBits(c: Word)
    ensures FromByte(LowByte(c)) == LowPart(c)
  {
  }

  lemma Parts(c: Word)
    ensures c == Xor(LowPart(c), HighPart(c))
  {
  }

  lemma HighPartIsHigh(c: Word)
    ensures HighPart(c).bits & 0xff == 0
  {
  }

  lemma HighPartShifts(c: Word)
    ensures ByteShift(HighPart(c)) == ByteShift(c)
  {
  }

  lemma PartsShift(low: Word, high: Word)
    requires high.bits & 0xff == 0
    ensures ShiftN(Xor(low, high), 8) == Xor(ShiftN(low, 8), ByteShift(high))
  {
    EightLowZero(high);
    ShiftNSplits(low, high, 8);
    DropEight(high);
  }

  /** Eight steps depend on the low byte through a table and on the rest by a shift. */
  lemma LowByteDecides(c: Word)
    ensures ShiftN(c, 8) == Xor(ShiftN(FromByte(LowByte(c)), 8), ByteShift(c))
  {
    LowByteBits(c);
    Parts(c);
    HighPartIsHigh(c);
    HighPartShifts(c);
    PartsShift(LowPart(c), HighPart(c));
  }

  // ---------- feeding a byte is xor and eight steps ----------

  lemma FeedOneBit(c: Word, b: Word)
    ensures Shift(Xor(c, b)) == Xor(BitStep(c, Odd(b)), Half(b))
  {
    OddXor(c, b);
    HalfXor(c, b);
    XorSwap(POLYNOMIAL, Half(c), Half(b));
  }

  lemma {:induction false} FeedIsShift(c: Word, b: Word, n: nat)
    requires Drop(b, n) == Word(0)
    ensures Feed(c, b, n) == ShiftN(Xor(c, b), n)
    decreases n
  {
    if n == 0 {
      XorZero(c);
    } else {
      FeedOneBit(c, b);
      FeedIsShift(BitStep(c, Odd(b)), Half(b), n - 1);
    }
  }

  lemma ByteFits(b: bv8)
    ensures ByteShift(FromByte(b)) == Word(0)
  {
  }

  lemma FeedByte(c: Word, b: bv8)
    ensures Feed(c, FromByte(b), 8) == ShiftN(Xor(c, FromByte(b)), 8)
  {
    ByteFits(b);
    DropEight(FromByte(b));
    FeedIsShift(c, FromByte(b), 8);
  }

  // ---------- the table and the loop ----------

  predicate Entry(table: seq<Word>, b: bv8)
    requires |table| == 256
  {
    table[b as int] == ShiftN(FromByte(b), 8)
  }

  ghost predicate IsTable(table: seq<Word>) {
    |table| == 256 && forall b: bv8 :: Entry(table, b)
  }

  /** The table holds, for every byte, eight register steps from it. */
  method BuildTable() returns (table: array<Word>)
    ensures IsTable(table[..])
  {
    table := new Word[256];
    var n := 0;
    while n < 256
      invariant 0 <= n <= 256
      invariant forall i :: 0 <= i < n ==> table[i] == ShiftN(FromByte(i as bv8), 8)
    {
      var c := FromByte(n as bv8);
      var k := 0;
      while k < 8
        invariant 0 <= k <= 8
        invariant ShiftN(c, 8 - k) == ShiftN(FromByte(n as bv8), 8)
      {
        c := Shift(c);
        k := k + 1;
      }
      table[n] := c;
      n := n + 1;
    }
    forall b: bv8 ensures Entry(table[..], b) {
      assert (b as int) as bv8 == b;
    }
  }

  lemma ShiftedPast(c: Word, b: bv8)
    ensures ByteShift(Xor(c, FromByte(b))) == ByteShift(c)
  {
  }

  lemma TableStep(table: seq<Word>, c: Word, b: bv8)
    requires IsTable(table)
    ensures Xor(table[LowByte(Xor(c, FromByte(b))) as int], ByteShift(c)) == Feed(c, FromByte(b), 8)
  {
    var x := Xor(c, FromByte(b));
    assert Entry(table, LowByte(x));
    LowByteDecides(x);
    FeedByte(c, b);
    ShiftedPast(c, b);
  }

  /** The table-driven loop computes the CRC by definition. */
  method ComputeCrc(table: array<Word>, buf: Bytes) returns (crc: bv32)
    requires IsTable(table[..])
    ensures crc == Crc(buf)
  {
    var c := ONES;
    var i := 0;
    while i < |buf|
      invariant 0 <= i <= |buf|
      invariant c == Register(buf[..i])
    {
      TableStep(table[..], c, buf[i]);
      assert buf[..i + 1][..i] == buf[..i];
      c := Xor(table[LowByte(Xor(c, FromByte(buf[i]))) as int], ByteShift(c));
      i := i + 1;
    }
    assert buf[..i] == buf;
    crc := Xor(c, ONES).bits;
  }

  // ---------- what the CRC detects ----------

  lemma FromByteInjective(b: bv8, e: bv8)
    requires FromByte(b) == FromByte(e)
    ensures b == e
  {
  }

  /** Neither the register nor the byte is lost by feeding it. */
  lemma FeedInjective(c: Word, d: Word, b: bv8, e: bv8)
    requires c == d || b == e
    requires Feed(c, FromByte(b), 8) == Feed(d, FromByte(e), 8)
    ensures c == d && b == e
  {
    FeedByte(c, b);
    FeedByte(d, e);
    ShiftNInjective(Xor(c, FromByte(b)), Xor(d, FromByte(e)), 8);
    if c == d {
      XorCancels(FromByte(b), FromByte(e), c);
      FromByteInjective(b, e);
    } else {
      XorCancels(c, d, FromByte(b));
    }
  }

  lemma RegisterPush(buf: Bytes, b: bv8)
    ensures Register(buf + [b]) == Feed(Register(buf), FromByte(b), 8)
  {
    assert (buf + [b])[..|buf|] == buf;
  }

  lemma PushKeepsDifference(a: Bytes, b: Bytes, x: bv8)
    requires Register(a) != Register(b)
    ensures Register(a + [x]) != Register(b + [x])
  {
    RegisterPush(a, x);
    RegisterPush(b, x);
    if Register(a + [x]) == Register(b + [x]) {
      FeedInjective(Register(a), Register(b), x, x);
    }
  }

  lemma MoveOne<T>(a: seq<T>, tail: seq<T>)
    requires tail != []
    ensures a + tail == (a + [tail[0]]) + tail[1..]
  {
  }

  lemma {:induction false} DifferenceSurvives(a: Bytes, b: Bytes, tail: Bytes)
    requires Register(a) != Register(b)
    ensures Register(a + tail) != Register(b + tail)
    decreases |tail|
  {
    if tail == [] {
      assert a + tail == a && b + tail == b;
    } else {
      PushKeepsDifference(a, b, tail[0]);
      DifferenceSurvives(a + [tail[0]], b + [tail[0]], tail[1..]);
      MoveOne(a, tail);
      MoveOne(b, tail);
    }
  }

  lemma LastByteMatters(head: Bytes, x: bv8, y: bv8)
    requires x != y
    ensures Register(head + [x]) != Register(head + [y])
  {
    RegisterPush(head, x);
    RegisterPush(head, y);
    if Register(head + [x]) == Register(head + [y]) {
      FeedInjective(Register(head), Register(head), x, y);
    }
  }

  lemma UpdateSplits<T>(s: seq<T>, i: nat, x: T)
    requires i < |s|
    ensures s == s[..i] + [s[i]] + s[i + 1..]
    ensures s[i := x] == s[..i] + [x] + s[i + 1..]
  {
  }

  /** Changing any single byte of a message changes its CRC. */
  lemma SingleByteChangeDetected(buf: Bytes, i: nat, x: bv8)
    requires i < |buf| && x != buf[i]
    ensures Crc(buf[i := x]) != Crc(buf)
  {
    LastByteMatters(buf[..i], buf[i], x);
    DifferenceSurvives(buf[..i] + [buf[i]], buf[..i] + [x], buf[i + 1..]);
    UpdateSplits(buf, i, x);
    if Crc(buf) == Crc(buf[i := x]) {
      XorCancels(Register(buf), Register(buf[i := x]), ONES);
    }
  }

  // ---------- a check value ----------

  lemma FeedI()
    ensures Feed(Word(0xffffffff), FromByte(0x49), 8) == Word(0x22fde946)
  {
    assert Feed(Word(0xffffffff), Word(0x49), 8) == Feed(Word(0x7fffffff), Word(0x24), 7);
    assert Feed(Word(0x7fffffff), Word(0x24), 7) == Feed(Word(0xd2477cdf), Word(0x12), 6);
    assert Feed(Word(0xd2477cdf), Word(0x12), 6) == Feed(Word(0x849b3d4f), Word(0x9), 5);
    assert Feed(Word(0x849b3d4f), Word(0x9), 5) == Feed(Word(0x424d9ea7), Word(0x4), 4);
    assert Feed(Word(0x424d9ea7), Word(0x4), 4) == Feed(Word(0xcc9e4c73), Word(0x2), 3);
    assert Feed(Word(0xcc9e4c73), Word(0x2), 3) == Feed(Word(0x8bf7a519), Word(0x1), 2);
    assert Feed(Word(0x8bf7a519), Word(0x1), 2) == Feed(Word(0x45fbd28c), Word(0x0), 1);
    assert Feed(Word(0x45fbd28c), Word(0x0), 1) == Feed(Word(0x22fde946), Word(0x0), 0);
  }

  lemma FeedE()
    ensures Feed(Word(0x22fde946), FromByte(0x45), 8) == Word(0x992bac53)
  {
    assert Feed(Word(0x22fde946), Word(0x45), 8) == Feed(Word(0xfcc67783), Word(0x22), 7);
    assert Feed(Word(0xfcc67783), Word(0x22), 7) == Feed(Word(0x93dbb8e1), Word(0x11), 6);
    assert Feed(Word(0x93dbb8e1), Word(0x11), 6) == Feed(Word(0x49eddc70), Word(0x8), 5);
    assert Feed(Word(0x49eddc70), Word(0x8), 5) == Feed(Word(0x24f6ee38), Word(0x4), 4);
    assert Feed(Word(0x24f6ee38), Word(0x4), 4) == Feed(Word(0x127b771c), Word(0x2), 3);
    assert Feed(Word(0x127b771c), Word(0x2), 3) == Feed(Word(0x93dbb8e), Word(0x1), 2);
    assert Feed(Word(0x93dbb8e), Word(0x1), 2) == Feed(Word(0xe9265ee7), Word(0x0), 1);
    assert Feed(Word(0xe9265ee7), Word(0x0), 1) == Feed(Word(0x992bac53), Word(0x0), 0);
  }

  lemma FeedN()
    ensures Feed(Word(0x992bac53), FromByte(0x4e), 8) == Word(0x639f4775)
  {
    assert Feed(Word(0x992bac53), Word(0x4e), 8) == Feed(Word(0xa12d5509), Word(0x27), 7);
    assert Feed(Word(0xa12d5509), Word(0x27), 7) == Feed(Word(0x5096aa84), Word(0x13), 6);
    assert Feed(Word(0x5096aa84), Word(0x13), 6) == Feed(Word(0xc5f3d662), Word(0x9), 5);
    assert Feed(Word(0xc5f3d662), Word(0x9), 5) == Feed(Word(0x8f416811), Word(0x4), 4);
    assert Feed(Word(0x8f416811), Word(0x4), 4) == Feed(Word(0xaa183728), Word(0x2), 3);
    assert Feed(Word(0xaa183728), Word(0x2), 3) == Feed(Word(0x550c1b94), Word(0x1), 2);
    assert Feed(Word(0x550c1b94), Word(0x1), 2) == Feed(Word(0xc73e8eea), Word(0x0), 1);
    assert Feed(Word(0xc73e8eea), Word(0x0), 1) == Feed(Word(0x639f4775), Word(0x0), 0);
  }

  lemma FeedD()
    ensures Feed(Word(0x639f4775), FromByte(0x44), 8) == Word(0x51bd9f7d)
  {
    assert Feed(Word(0x639f4775), Word(0x44), 8) == Feed(Word(0xdc77209a), Word(0x22), 7);
    assert Feed(Word(0xdc77209a), Word(0x22), 7) == Feed(Word(0x6e3b904d), Word(0x11), 6);
    assert Feed(Word(0x6e3b904d), Word(0x11), 6) == Feed(Word(0x371dc826), Word(0x8), 5);
    assert Feed(Word(0x371dc826), Word(0x8), 5) == Feed(Word(0x1b8ee413), Word(0x4), 4);
    assert Feed(Word(0x1b8ee413), Word(0x4), 4) == Feed(Word(0xe07ff129), Word(0x2), 3);
    assert Feed(Word(0xe07ff129), Word(0x2), 3) == Feed(Word(0x9d877bb4), Word(0x1), 2);
    assert Feed(Word(0x9d877bb4), Word(0x1), 2) == Feed(Word(0xa37b3efa), Word(0x0), 1);
    assert Feed(Word(0xa37b3efa), Word(0x0), 1) == Feed(Word(0x51bd9f7d), Word(0x0), 0);
  }

  /** The CRC of the four letters IEND, as every PNG file ends with it. */
  lemma CrcOfEnd()
    ensures Crc([0x49, 0x45, 0x4e, 0x44]) == 0xae426082
  {
    var i: Bytes, ie: Bytes, ien: Bytes := [0x49], [0x49, 0x45], [0x49, 0x45, 0x4e];
    FeedI();
    RegisterPush([], 0x49);
    assert [] + [0x49] == i;
    FeedE();
    RegisterPush(i, 0x45);
    assert i + [0x45] == ie;
    FeedN();
    RegisterPush(ie, 0x4e);
    assert ie + [0x4e] == ien;
    FeedD();
    RegisterPush(ien, 0x44);
    assert ien + [0x44] == [0x49, 0x45, 0x4e, 0x44];
  }
}
