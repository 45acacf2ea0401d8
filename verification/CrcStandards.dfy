/** The three configurations as their standards write them, and one-byte check values. */
module CrcStandards {
  import opened Base
  import opened Gf2
  import opened Words
  import opened Crc

  type Hex = d: nat | d < 16

  /** The four bits of a hexadecimal digit, lowest first. */
  function Nibble(d: Hex): (b: Bits)
    ensures |b| == 4
  {
    [d % 2 == 1, d / 2 % 2 == 1, d / 4 % 2 == 1, d / 8 == 1]
  }

  lemma LowPair(n: nat, d: nat, k: nat)
    requires d < 4
    ensures Low(4 * n + d, k + 2) == [d % 2 == 1, d / 2 == 1] + Low(n, k)
  {
    LowHalf(4 * n + d, k + 1);
    LowHalf(2 * n + d / 2, k);
    hide Low;
    assert [d % 2 == 1] + ([d / 2 == 1] + Low(n, k)) == [d % 2 == 1, d / 2 == 1] + Low(n, k);
  }

  lemma LowDigit(n: nat, d: Hex, k: nat)
    ensures Low(16 * n + d, k + 4) == Nibble(d) + Low(n, k)
  {
    hide Low;
    LowPair(4 * n + d / 4, d % 4, k + 2);
    LowPair(n, d / 4, k);
    var low, high := [d % 4 % 2 == 1, d % 4 / 2 == 1], [d / 4 % 2 == 1, d / 4 / 2 == 1];
    assert Nibble(d) == low + high;
    assert low + (high + Low(n, k)) == low + high + Low(n, k);
  }

  lemma LowHalf(n: nat, k: nat)
    ensures Low(n, k + 1) == [n % 2 == 1] + Low(n / 2, k)
  {
  }

  /** The bits of a word of eight digits. */
  lemma EightDigits(a: Hex, b: Hex, c: Hex, d: Hex, e: Hex, f: Hex, g: Hex, h: Hex)
    ensures Lit(((((((a * 16 + b) * 16 + c) * 16 + d) * 16 + e) * 16 + f) * 16 + g) * 16 + h)
         == Nibble(h) + Nibble(g) + Nibble(f) + Nibble(e) + Nibble(d) + Nibble(c) + Nibble(b) + Nibble(a)
  {
    hide Nibble, Low;
    LowDigit(0, a, 0);
    var n1 := a;
    LowDigit(n1, b, 4);
    var n2 := n1 * 16 + b;
    LowDigit(n2, c, 8);
    var n3 := n2 * 16 + c;
    LowDigit(n3, d, 12);
    var n4 := n3 * 16 + d;
    LowDigit(n4, e, 16);
    var n5 := n4 * 16 + e;
    LowDigit(n5, f, 20);
    var n6 := n5 * 16 + f;
    LowDigit(n6, g, 24);
    var n7 := n6 * 16 + g;
    LowDigit(n7, h, 28);
    LowOfNone();
  }

  lemma LowOfNone()
    ensures Low(0, 0) == []
  {
  }

  // ---------------------------------------------------------------------
  // The generators

  /** The coefficients below the leading one, by their powers. */
  predicate HasPowers(g: Bits, powers: set<nat>) {
    forall i :: 0 <= i < |g| ==> (g[|g| - 1 - i] <==> i in powers)
  }

  lemma PowerAt(g: Bits, powers: set<nat>, i: nat)
    requires HasPowers(g, powers) && i < |g|
    ensures g[i] <==> |g| - 1 - i in powers
  {
    var j := |g| - 1 - i;
    assert g[|g| - 1 - j] <==> j in powers;
  }

  lemma Mirrored(kind: CrcType, powers: set<nat>)
    requires forall i :: 0 <= i < Order(kind) ==> (Poly(kind)[i] <==> i in powers)
    ensures HasPowers(Generator(kind), powers)
  {
    hide Poly;
  }

  /** The polynomial of section 3.2.9 of IEEE 802.3. */
  lemma Crc32Generator()
    ensures Order(Crc32) == 32
    ensures HasPowers(Generator(Crc32), {0, 1, 2, 4, 5, 7, 8, 10, 11, 12, 16, 22, 23, 26})
  {
    hide Lit;
    EightDigits(0, 4, 12, 1, 1, 13, 11, 7);
    Mirrored(Crc32, {0, 1, 2, 4, 5, 7, 8, 10, 11, 12, 16, 22, 23, 26});
  }

  /** x^16 + x^15 + x^2 + 1. */
  lemma Crc16Generator()
    ensures Order(Crc16) == 16 && HasPowers(Generator(Crc16), {0, 2, 15})
  {
    hide Lit;
    EightDigits(0, 0, 0, 0, 8, 0, 0, 5);
    Mirrored(Crc16, {0, 2, 15});
  }

  /** The polynomial of section 6.5 of UDF 1.50. */
  lemma CcittGenerator()
    ensures Order(Ccitt) == 16 && HasPowers(Generator(Ccitt), {0, 5, 12})
  {
    hide Lit;
    EightDigits(0, 0, 0, 0, 1, 0, 2, 1);
    Mirrored(Ccitt, {0, 5, 12});
  }

  /** Exactly the low bits of the word are set. */
  predicate OnesBelow(w: Word, n: nat) {
    forall i :: 0 <= i < WIDTH ==> (w[i] <==> i < n)
  }

  lemma Ones16()
    ensures OnesBelow(Lit(0xffff), 16)
  {
    hide Lit;
    EightDigits(0, 0, 0, 0, 15, 15, 15, 15);
  }

  lemma Ones32()
    ensures OnesBelow(Lit(0xffffffff), 32)
  {
    hide Lit;
    EightDigits(15, 15, 15, 15, 15, 15, 15, 15);
  }

  /** What the register starts with and what is added at the end: all ones, or nothing for CCITT. */
  lemma InitialAndFinal()
    ensures OnesBelow(Initial(Crc16), 16) && OnesBelow(Final(Crc16), 16)
    ensures OnesBelow(Initial(Crc32), 32) && OnesBelow(Final(Crc32), 32)
    ensures OnesBelow(Initial(Ccitt), 0) && OnesBelow(Final(Ccitt), 0)
  {
    hide Lit, OnesBelow;
    Ones16();
    Ones32();
    Ones0();
  }

  lemma Ones0()
    ensures OnesBelow(Lit(0x0000), 0)
  {
    hide Lit;
    LitZero();
  }

  // ---------------------------------------------------------------------
  // Check values

  /** A single bit that is shifted out last leaves the generator. */
  lemma LastBitLeavesGenerator(g: Bits)
    requires |g| >= 8
    ensures Feed(Zero(7) + [true] + Zero(|g| - 8), Zero(8), g) == g
  {
    hide Feed;
    var s := [true] + Zero(|g| - 8);
    assert Zero(7) + [true] + Zero(|g| - 8) == Zero(7) + s && Zero(8) == Zero(7) + [false];
    ZerosShiftOut(7, s, g);
    FeedConcat(Zero(7) + s, Zero(7), [false], g);
    OneStep(s + Zero(7), g);
  }

  lemma OneStep(r: Bits, g: Bits)
    requires |r| == |g| > 0 && r[0] && forall i :: 0 < i < |r| ==> !r[i]
    ensures Feed(r, [false], g) == g
  {
    assert [false][1..] == [];
    assert Feed(Step(r, false, g), [], g) == Step(r, false, g);
  }

  lemma SentSingle(kind: CrcType, o: Octet)
    ensures Sent(kind, [o]) == SentOctet(kind, o)
  {
    assert [o][1..] == [];
  }

  /** The register after a byte that leaves only its last bit of the initial value. */
  lemma OneByte(kind: CrcType, o: Octet)
    requires Xor(Start(kind)[..8], SentOctet(kind, o)) == Zero(7) + [true]
    ensures Register(kind, [o]) == Xor(Start(kind)[8..] + Zero(8), Generator(kind))
  {
    hide Feed, Sent, SentOctet, Xor, Start, Generator, Zero;
    var s, x := Start(kind), Zero(7) + [true];
    SentSingle(kind, o);
    FeedBlock(s[..8], s[8..], SentOctet(kind, o), Generator(kind), x);
    LastBitLeavesGenerator(Generator(kind));
    assert s == s[..8] + s[8..] && |x| == 8;
  }

  lemma SevenBits()
    ensures Low(0x7f, 8) == [true, true, true, true, true, true, true, false]
  {
    hide Low;
    LowDigit(0, 7, 0);
    LowDigit(7, 15, 4);
    LowOfNone();
  }

  lemma StartOnes(kind: CrcType)
    requires !kind.Ccitt?
    ensures forall i :: 0 <= i < Order(kind) ==> Start(kind)[i]
  {
    hide Lit;
    InitialAndFinal();
  }

  /** The checksum of the byte 0x7f: the generator, with its last eight coefficients inverted. */
  lemma ReflectedCheck(kind: CrcType)
    requires !kind.Ccitt?
    ensures var n := Order(kind);
            forall i :: 0 <= i < WIDTH ==>
              (Checksum(kind, [Low(0x7f, 8)])[i] <==> i < n && (Generator(kind)[i] <==> i < n - 8))
  {
    hide Lit, Low, Feed, Generator, Start, Sent;
    var o: Octet := Low(0x7f, 8);
    SevenBits();
    StartOnes(kind);
    assert Xor(Start(kind)[..8], SentOctet(kind, o)) == Zero(7) + [true];
    OneByte(kind, o);
    hide Register;
    InitialAndFinal();
    var n := Order(kind);
    forall i | n <= i < WIDTH
      ensures !Packed(kind, Register(kind, [o]))[i]
    {
    }
  }

  lemma Check32Bits()
    ensures forall i :: 0 <= i < WIDTH ==> (Lit(0x12b88320)[i] <==> i in {5, 8, 9, 15, 19, 20, 21, 23, 25, 28})
  {
    hide Lit;
    EightDigits(1, 2, 11, 8, 8, 3, 2, 0);
  }

  /** CRC-32 of the byte 0x7f. */
  lemma Crc32Check()
    ensures Checksum(Crc32, [Low(0x7f, 8)]) == Lit(0x12b88320)
  {
    hide Lit, Low, Generator, Checksum, HasPowers;
    ReflectedCheck(Crc32);
    Crc32Generator();
    Check32Bits();
    forall i | 0 <= i < WIDTH
      ensures Checksum(Crc32, [Low(0x7f, 8)])[i] == Lit(0x12b88320)[i]
    {
      PowerAt(Generator(Crc32), {0, 1, 2, 4, 5, 7, 8, 10, 11, 12, 16, 22, 23, 26}, i);
    }
  }

  /** The 16-bit reflected checksum of the byte 0x7f. */
  lemma Crc16Check()
    ensures Checksum(Crc16, [Low(0x7f, 8)]) == Lit(0x5f01)
  {
    hide Lit, Low, Generator, Checksum;
    ReflectedCheck(Crc16);
    Crc16Generator();
    EightDigits(0, 0, 0, 0, 5, 15, 0, 1);
    forall i | 0 <= i < WIDTH
      ensures Checksum(Crc16, [Low(0x7f, 8)])[i] == Lit(0x5f01)[i]
    {
      if i < 16 {
        PowerAt(Generator(Crc16), {0, 2, 15}, i);
      }
    }
  }

  lemma FirstBit()
    ensures Low(0x01, 8) == [true, false, false, false, false, false, false, false]
  {
    hide Low;
    LowDigit(0, 0, 0);
    LowDigit(0, 1, 4);
    LowOfNone();
  }

  /** The CCITT checksum of the byte 1 is its polynomial. */
  lemma CcittCheck()
    ensures Checksum(Ccitt, [Low(0x01, 8)]) == Lit(0x1021)
  {
    hide Lit, Low, Feed, Sent;
    var o: Octet := Low(0x01, 8);
    FirstBit();
    InitialAndFinal();
    assert Start(Ccitt) == Zero(16);
    assert Xor(Start(Ccitt)[..8], SentOctet(Ccitt, o)) == Zero(7) + [true];
    OneByte(Ccitt, o);
    assert Start(Ccitt)[8..] + Zero(8) == Zero(16);
    XorCancels(Generator(Ccitt), Generator(Ccitt));
    hide Register;
    assert Register(Ccitt, [o]) == Generator(Ccitt);
    PackedPoly();
  }

  lemma PackedPoly()
    ensures Packed(Ccitt, Generator(Ccitt)) == Lit(0x1021)
  {
    hide Lit;
    EightDigits(0, 0, 0, 0, 1, 0, 2, 1);
  }
}
