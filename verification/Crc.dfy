/**
 The checksum as a function of the message: which polynomial divides, in which
 order the bits arrive, and what that implies for checksums.
 */
module Crc {
  import opened Base
  import opened Gf2
  import opened Words

  datatype CrcType = Crc16 | Crc32 | Ccitt

  function Reflected(kind: CrcType): bool {
    !kind.Ccitt?
  }

  function Order(kind: CrcType): (n: nat)
    ensures n % 8 == 0 && 8 <= n <= WIDTH
  {
    if kind.Crc32? then 32 else 16
  }

  function Poly(kind: CrcType): Word {
    match kind
    case Crc16 => Lit(0x8005)
    case Crc32 => Lit(0x04c11db7)
    case Ccitt => Lit(0x1021)
  }

  function Initial(kind: CrcType): Word {
    match kind
    case Crc16 => Lit(0xffff)
    case Crc32 => Lit(0xffffffff)
    case Ccitt => Lit(0x0000)
  }

  function Final(kind: CrcType): Word {
    Initial(kind)
  }

  /** The coefficients that a word stands for, highest power first. */
  function Coefficients(kind: CrcType, w: Word): (r: Bits)
    ensures |r| == Order(kind)
  {
    if Reflected(kind) then w[..Order(kind)] else Reversed(w[..Order(kind)])
  }

  /** The word that holds the given coefficients. */
  function Packed(kind: CrcType, r: Bits): (w: Word)
    requires |r| == Order(kind)
    ensures Coefficients(kind, w) == r && Narrow(kind, w)
  {
    var w := (if Reflected(kind) then r else Reversed(r)) + Zero(WIDTH - |r|);
    assert w[..|r|] == if Reflected(kind) then r else Reversed(r);
    w
  }

  /** No bit of the word is set beyond the order of the checksum. */
  predicate Narrow(kind: CrcType, w: Word) {
    forall i :: Order(kind) <= i < WIDTH ==> !w[i]
  }

  lemma PackedUnique(kind: CrcType, w: Word, v: Word)
    requires Narrow(kind, w) && Narrow(kind, v)
    requires Coefficients(kind, w) == Coefficients(kind, v)
    ensures w == v
  {
    var n := Order(kind);
    forall i | 0 <= i < WIDTH
      ensures w[i] == v[i]
    {
      if i < n {
        if Reflected(kind) {
          assert w[i] == Coefficients(kind, w)[i] && v[i] == Coefficients(kind, v)[i];
        } else {
          assert w[i] == Coefficients(kind, w)[n - 1 - i] && v[i] == Coefficients(kind, v)[n - 1 - i];
        }
      }
    }
  }

  /** The generator without its leading coefficient: the polynomial is written MSB first. */
  function Generator(kind: CrcType): (g: Bits)
    ensures |g| == Order(kind)
  {
    Reversed(Poly(kind)[..Order(kind)])
  }

  lemma LowestBit(n: nat)
    ensures Lit(n)[0] <==> n % 2 == 1
  {
  }

  /** All three generators have a constant term. */
  lemma ConstantTerm(kind: CrcType)
    ensures Generator(kind)[Order(kind) - 1]
  {
    hide Lit, Low;
    match kind
    case Crc16 => LowestBit(0x8005);
    case Crc32 => LowestBit(0x04c11db7);
    case Ccitt => LowestBit(0x1021);
  }

  /** The bits of a byte in the order in which they are sent. */
  function SentOctet(kind: CrcType, o: Octet): (b: Octet) {
    if Reflected(kind) then o else Reversed(o)
  }

  function Sent(kind: CrcType, data: seq<Octet>): (b: Bits)
    ensures |b| == 8 * |data|
  {
    if data == [] then [] else SentOctet(kind, data[0]) + Sent(kind, data[1..])
  }

  function Start(kind: CrcType): (r: Bits)
    ensures |r| == Order(kind)
  {
    Coefficients(kind, Initial(kind))
  }

  /** The register after a message. */
  function Register(kind: CrcType, data: seq<Octet>): (r: Bits)
    ensures |r| == Order(kind)
  {
    Feed(Start(kind), Sent(kind, data), Generator(kind))
  }

  function Checksum(kind: CrcType, data: seq<Octet>): Word {
    Xor(Packed(kind, Register(kind, data)), Final(kind))
  }

  // ---------------------------------------------------------------------
  // Properties

  lemma {:induction false} SentConcat(kind: CrcType, a: seq<Octet>, b: seq<Octet>)
    ensures Sent(kind, a + b) == Sent(kind, a) + Sent(kind, b)
    decreases a
  {
    if a == [] {
      assert a + b == b;
    } else {
      assert (a + b)[1..] == a[1..] + b;
      SentConcat(kind, a[1..], b);
    }
  }

  /** The checksum is the remainder of a division of polynomials, and no other remainder is. */
  lemma ChecksumIsRemainder(kind: CrcType, data: seq<Octet>, r: Bits)
    ensures IsRemainder(Dividend(Start(kind), Sent(kind, data)), Generator(kind), r)
       <==> |r| == Order(kind) && Xor(Packed(kind, r), Final(kind)) == Checksum(kind, data)
  {
    RegisterIsRemainder(Start(kind), Sent(kind, data), Generator(kind), r);
    if |r| == Order(kind) {
      XorCancels(Packed(kind, r), Final(kind));
      XorCancels(Packed(kind, Register(kind, data)), Final(kind));
    }
  }

  /** A message may be written in any number of pieces. */
  lemma RegisterContinues(kind: CrcType, a: seq<Octet>, b: seq<Octet>)
    ensures Register(kind, a + b) == Feed(Register(kind, a), Sent(kind, b), Generator(kind))
  {
    SentConcat(kind, a, b);
    FeedConcat(Start(kind), Sent(kind, a), Sent(kind, b), Generator(kind));
  }

  /** The sum over GF(2) of three messages of one length. */
  function Sum3(a: seq<Octet>, b: seq<Octet>, c: seq<Octet>): (d: seq<Octet>)
    requires |a| == |b| == |c|
    ensures |d| == |a|
  {
    seq(|a|, i requires 0 <= i < |a| => Xor(Xor(a[i], b[i]), c[i]))
  }

  lemma {:induction false} SentSum(kind: CrcType, a: seq<Octet>, b: seq<Octet>, c: seq<Octet>)
    requires |a| == |b| == |c|
    ensures Sent(kind, Sum3(a, b, c)) == Xor(Xor(Sent(kind, a), Sent(kind, b)), Sent(kind, c))
    decreases |a|
  {
    if a == [] {
    } else {
      var x, y, z := SentOctet(kind, a[0]), SentOctet(kind, b[0]), SentOctet(kind, c[0]);
      var d := Sum3(a, b, c);
      assert d[1..] == Sum3(a[1..], b[1..], c[1..]);
      assert SentOctet(kind, d[0]) == Xor(Xor(x, y), z);
      SentSum(kind, a[1..], b[1..], c[1..]);
      hide Sent, SentOctet, Sum3, Xor;
      XorConcat(x, Sent(kind, a[1..]), y, Sent(kind, b[1..]));
      XorConcat(Xor(x, y), Xor(Sent(kind, a[1..]), Sent(kind, b[1..])), z, Sent(kind, c[1..]));
    }
  }

  lemma PackedSum(kind: CrcType, r: Bits, s: Bits, t: Bits)
    requires |r| == |s| == |t| == Order(kind)
    ensures Packed(kind, Xor(Xor(r, s), t)) == Xor(Xor(Packed(kind, r), Packed(kind, s)), Packed(kind, t))
  {
  }

  /** The checksum of a sum of three messages is the sum of their checksums. */
  lemma ChecksumsAreAffine(kind: CrcType, a: seq<Octet>, b: seq<Octet>, c: seq<Octet>)
    requires |a| == |b| == |c|
    ensures Checksum(kind, Sum3(a, b, c)) == Xor(Xor(Checksum(kind, a), Checksum(kind, b)), Checksum(kind, c))
  {
    RegistersAreAffine(kind, a, b, c);
    PackedSum(kind, Register(kind, a), Register(kind, b), Register(kind, c));
    FinalCancels(Packed(kind, Register(kind, a)), Packed(kind, Register(kind, b)), Packed(kind, Register(kind, c)),
                 Final(kind));
  }

  lemma FinalCancels(u: Word, v: Word, w: Word, f: Word)
    ensures Xor(Xor(Xor(u, f), Xor(v, f)), Xor(w, f)) == Xor(Xor(Xor(u, v), w), f)
  {
  }

  lemma RegistersAreAffine(kind: CrcType, a: seq<Octet>, b: seq<Octet>, c: seq<Octet>)
    requires |a| == |b| == |c|
    ensures Register(kind, Sum3(a, b, c)) == Xor(Xor(Register(kind, a), Register(kind, b)), Register(kind, c))
  {
    hide Feed, Sent, Sum3, Xor, Start, Generator;
    var i, g := Start(kind), Generator(kind);
    var x, y, z := Sent(kind, a), Sent(kind, b), Sent(kind, c);
    SentSum(kind, a, b, c);
    FeedLinear(i, i, x, y, g);
    FeedLinear(Xor(i, i), i, Xor(x, y), z, g);
    XorCancels(i, i);
  }

  lemma {:induction false} SentInjective(kind: CrcType, a: seq<Octet>, b: seq<Octet>)
    requires |a| == |b| && Sent(kind, a) == Sent(kind, b)
    ensures a == b
    decreases |a|
  {
    if a != [] {
      assert SentOctet(kind, a[0]) == Sent(kind, a)[..8] && SentOctet(kind, b[0]) == Sent(kind, b)[..8];
      assert Sent(kind, a[1..]) == Sent(kind, a)[8..] && Sent(kind, b[1..]) == Sent(kind, b)[8..];
      OctetRecovered(kind, a[0], b[0]);
      SentInjective(kind, a[1..], b[1..]);
      assert a == [a[0]] + a[1..] && b == [b[0]] + b[1..];
    }
  }

  lemma OctetRecovered(kind: CrcType, o: Octet, p: Octet)
    requires SentOctet(kind, o) == SentOctet(kind, p)
    ensures o == p
  {
    forall i | 0 <= i < 8
      ensures o[i] == p[i]
    {
      assert Reversed(o)[7 - i] == o[i] && Reversed(p)[7 - i] == p[i];
    }
  }

  /**
   Two messages of one length that differ, but only within as many consecutive
   bits (in the order they are sent) as the checksum has, have different checksums.
   */
  lemma BurstsAreDetected(kind: CrcType, a: seq<Octet>, b: seq<Octet>, start: nat)
    requires |a| == |b| && a != b
    requires DifferInWindow(Sent(kind, a), Sent(kind, b), start, Order(kind))
    ensures Checksum(kind, a) != Checksum(kind, b)
  {
    if Sent(kind, a) == Sent(kind, b) {
      SentInjective(kind, a, b);
    }
    ConstantTerm(kind);
    BurstShows(Start(kind), Sent(kind, a), Sent(kind, b), start, Order(kind), Generator(kind));
    hide Feed, Sent, Xor, Packed, Coefficients;
    var r, s := Register(kind, a), Register(kind, b);
    XorCancels(Packed(kind, r), Final(kind));
    XorCancels(Packed(kind, s), Final(kind));
  }

  /** The bytes of a checksum as they are appended: low byte first when reflected, else high byte first. */
  function Appended(kind: CrcType, w: Word): seq<Octet> {
    match kind
    case Crc16 => [w[0..8], w[8..16]]
    case Crc32 => [w[0..8], w[8..16], w[16..24], w[24..32]]
    case Ccitt => [w[8..16], w[0..8]]
  }

  lemma SentTwo(kind: CrcType, a: Octet, b: Octet)
    ensures Sent(kind, [a, b]) == SentOctet(kind, a) + SentOctet(kind, b)
  {
    assert [a, b][1..] == [b] && [b][1..] == [];
    assert Sent(kind, []) == [];
    assert Sent(kind, [b]) == SentOctet(kind, b);
  }

  lemma AppendedIsSent(kind: CrcType, w: Word)
    ensures Sent(kind, Appended(kind, w)) == Coefficients(kind, w)
  {
    match kind
    case Crc16 =>
      SentTwo(kind, w[0..8], w[8..16]);
    case Crc32 =>
      SentTwo(kind, w[0..8], w[8..16]);
      SentTwo(kind, w[16..24], w[24..32]);
      SentConcat(kind, [w[0..8], w[8..16]], [w[16..24], w[24..32]]);
      assert [w[0..8], w[8..16]] + [w[16..24], w[24..32]] == Appended(kind, w);
      assert w[0..8] + w[8..16] + (w[16..24] + w[24..32]) == w[..32];
    case Ccitt =>
      SentTwo(kind, w[8..16], w[0..8]);
      assert Reversed(w[8..16]) + Reversed(w[0..8]) == Reversed(w[..16]);
  }

  /** The checksum of every message with its checksum appended. */
  function Residue(kind: CrcType): Word {
    Xor(Packed(kind, Feed(Coefficients(kind, Final(kind)), Zero(Order(kind)), Generator(kind))), Final(kind))
  }

  lemma ChecksumCoefficients(kind: CrcType, data: seq<Octet>)
    ensures Coefficients(kind, Checksum(kind, data)) == Xor(Register(kind, data), Coefficients(kind, Final(kind)))
  {
    CoefficientsSum(kind, Packed(kind, Register(kind, data)), Final(kind));
  }

  lemma CoefficientsSum(kind: CrcType, p: Word, f: Word)
    ensures Coefficients(kind, Xor(p, f)) == Xor(Coefficients(kind, p), Coefficients(kind, f))
  {
  }

  /** Appending the checksum leaves a residue that does not depend on the message. */
  lemma AppendedChecksumLeavesResidue(kind: CrcType, data: seq<Octet>)
    ensures Checksum(kind, data + Appended(kind, Checksum(kind, data))) == Residue(kind)
  {
    var c, g := Checksum(kind, data), Generator(kind);
    RegisterContinues(kind, data, Appended(kind, c));
    AppendedIsSent(kind, c);
    ChecksumCoefficients(kind, data);
    FeedItself(Register(kind, data), Coefficients(kind, Final(kind)), g);
  }

  lemma LitZero()
    ensures Lit(0) == NOTHING
  {
    LowOfZero(WIDTH);
  }

  /** The CCITT variant leaves nothing at all. */
  lemma CcittResidueIsZero()
    ensures Residue(Ccitt) == NOTHING
  {
    hide Feed, Lit, Low;
    LitZero();
    var f := Coefficients(Ccitt, Final(Ccitt));
    assert f == Zero(16);
    FeedZeros(16, Generator(Ccitt));
    assert Packed(Ccitt, Zero(16)) == NOTHING;
    XorCancels(NOTHING, NOTHING);
  }
}
