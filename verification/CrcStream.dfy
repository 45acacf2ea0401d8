/**
 The table-driven checksum, as the stream class computes it, and why one table
 look-up per byte is the division of `Crc`.
 */
module CrcStreams {
  import opened Base
  import opened Gf2
  import opened Words
  import opened Crc

  /** The low `n` bits in the opposite order. */
  function Mirror(w: Word, n: nat): Word
    requires n <= WIDTH
  {
    seq(WIDTH, i requires 0 <= i < WIDTH => i < n && w[n - 1 - i])
  }

  /** A byte promoted to a word. */
  function Promoted(o: Octet): Word {
    o + Zero(24)
  }

  /** What the low bits of a word being built stand for, MSB first. */
  function MsbFirst(w: Word, n: nat): (r: Bits)
    requires n <= WIDTH
    ensures |r| == n
  {
    Reversed(w[..n])
  }

  /** The table entry for a byte: that byte divided on its own. */
  function Entry(kind: CrcType, o: Octet): Word {
    Packed(kind, Feed(SentOctet(kind, o) + Zero(Order(kind) - 8), Zero(8), Generator(kind)))
  }

  // ---------------------------------------------------------------------
  // reflect

  /** Mirroring twice gives back the low bits. */
  lemma MirrorIsInvolution(w: Word, n: nat)
    requires n <= WIDTH
    ensures Mirror(Mirror(w, n), n)[..n] == w[..n]
    ensures Mirror(w, n)[..n] == MsbFirst(w, n)
  {
  }

  /** Mirroring carries a step of the MSB-first register to a step of the right-shifting one. */
  lemma MirrorCarriesStep(w: Word, poly: Word, n: nat)
    requires 1 <= n <= WIDTH
    ensures Mirror(if w[n - 1] then Xor(Shl(w, 1), poly) else Shl(w, 1), n)
         == if Mirror(w, n)[0] then Xor(Shr(Mirror(w, n), 1), Mirror(poly, n)) else Shr(Mirror(w, n), 1)
  {
  }

  /** The loop of `reflect`. */
  method Reflect(crc: Word, length: nat) returns (result: Word)
    requires 1 <= length <= WIDTH
    ensures result == Mirror(crc, length)
  {
    result := NOTHING;
    var i, j := Shl(OneAt(0), length - 1), OneAt(0);
    ghost var t := 0;
    assert i == OneAt(length - 1);
    while i != NOTHING
      invariant 0 <= t <= length
      invariant i == OneAt(length - 1 - t) && j == OneAt(t)
      invariant forall x :: 0 <= x < WIDTH ==> (result[x] <==> x < t && crc[length - 1 - x])
      decreases length - t
    {
      OneShifts(length - 1 - t);
      OneShifts(t);
      BitTest(crc, length - 1 - t);
      if And(crc, i) != NOTHING {
        result := Or(result, j);
      }
      j := Shl(j, 1);
      i := Shr(i, 1);
      t := t + 1;
    }
    OneShifts(length - 1 - t);
  }

  predicate IsMask(mask: Word, n: nat) {
    forall i :: 0 <= i < WIDTH ==> (mask[i] <==> i < n)
  }

  /** `((high - 1) << 1) | 1` covers the bits of the checksum. */
  lemma MaskCovers(n: nat)
    requires 1 <= n <= WIDTH
    ensures IsMask(Or(Shl(Minus1(OneAt(n - 1)), 1), OneAt(0)), n)
  {
    Minus1OfOne(OneAt(n - 1), n - 1);
  }

  // ---------------------------------------------------------------------
  // The table

  /** One round of the inner loop: the bits above the order never matter. */
  lemma TableRound(kind: CrcType, crc: Word)
    ensures var n := Order(kind);
            var shifted := if crc[n - 1] then Xor(Shl(crc, 1), Poly(kind)) else Shl(crc, 1);
            MsbFirst(shifted, n) == Step(MsbFirst(crc, n), false, Generator(kind))
  {
    hide Poly;
    var n := Order(kind);
    var p: Word := Poly(kind);
    var shifted := if crc[n - 1] then Xor(Shl(crc, 1), p) else Shl(crc, 1);
    var r := MsbFirst(crc, n);
    assert r[0] == crc[n - 1];
    forall i | 0 <= i < n
      ensures MsbFirst(shifted, n)[i] == Step(r, false, Generator(kind))[i]
    {
      assert Generator(kind)[i] == p[n - 1 - i];
      assert MsbFirst(shifted, n)[i] == shifted[n - 1 - i];
      if i < n - 1 {
        assert r[1..][i] == crc[n - 2 - i];
      }
    }
  }

  /** Eight bits shifted to the top of a register of `n`. */
  lemma ShiftedUp(low: Word, n: nat)
    requires 8 <= n <= WIDTH
    ensures MsbFirst(Shl(low, n - 8), n) == MsbFirst(low, 8) + Zero(n - 8)
  {
    var m := MsbFirst(Shl(low, n - 8), n);
    forall i | 0 <= i < n
      ensures m[i] == (MsbFirst(low, 8) + Zero(n - 8))[i]
    {
      assert m[i] == Shl(low, n - 8)[n - 1 - i];
    }
  }

  /** Where the inner loop starts. */
  lemma TableStart(kind: CrcType, i: nat, low: Word)
    requires low == if Reflected(kind) then Mirror(Lit(i), 8) else Lit(i)
    ensures MsbFirst(Shl(low, Order(kind) - 8), Order(kind))
         == SentOctet(kind, Low(i, 8)) + Zero(Order(kind) - 8)
  {
    ShiftedUp(low, Order(kind));
    LowExtends(i, 8, WIDTH);
    var w, o: Octet := Lit(i), Low(i, 8);
    hide Low, Shl;
    assert w[..8] == o;
    if Reflected(kind) {
      MirrorIsInvolution(w, 8);
      assert MsbFirst(low, 8) == o;
    }
  }

  /** What the outer loop stores. */
  lemma TableStore(kind: CrcType, crc: Word, mask: Word)
    requires IsMask(mask, Order(kind))
    ensures var w := And(if Reflected(kind) then Mirror(crc, Order(kind)) else crc, mask);
            Narrow(kind, w) && Coefficients(kind, w) == MsbFirst(crc, Order(kind))
  {
  }

  lemma FeedOneMore(r: Bits, k: nat, g: Bits)
    requires |r| == |g| > 0
    ensures Feed(r, Zero(k + 1), g) == Step(Feed(r, Zero(k), g), false, g)
  {
    assert Zero(k + 1) == Zero(k) + [false];
    FeedConcat(r, Zero(k), [false], g);
    assert [false][1..] == [];
  }

  // ---------------------------------------------------------------------
  // One byte of the message

  lemma LowByteMask()
    ensures forall i :: 0 <= i < WIDTH ==> (Lit(0xff)[i] <==> i < 8)
  {
    assert Pow2(8) == 256;
    LowVanishes(0xff, 8, WIDTH);
    LowOnes(8);
  }

  lemma {:induction false} LowOnes(k: nat)
    ensures Pow2(k) > 0 && Low(Pow2(k) - 1, k) == seq(k, _ => true)
  {
    if k > 0 {
      LowOnes(k - 1);
      assert (Pow2(k) - 1) / 2 == Pow2(k - 1) - 1;
      assert (Pow2(k) - 1) % 2 == 1;
    }
  }

  lemma {:induction false} LeadingZeros(o: Bits, k: nat)
    ensures ToNat(o + Zero(k)) == ToNat(o)
    decreases |o|, k
  {
    if o != [] {
      assert (o + Zero(k))[1..] == o[1..] + Zero(k);
      LeadingZeros(o[1..], k);
    } else if k > 0 {
      assert ([] + Zero(k))[1..] == [] + Zero(k - 1);
      LeadingZeros([], k - 1);
    }
  }

  /** The table index: the byte that leaves the register plus the byte that arrives. */
  lemma IndexBits(v: Word, o: Octet)
    ensures var index := Xor(And(v, Lit(0xff)), Promoted(o));
            ToNat(index) < 256 && Low(ToNat(index), 8) == Xor(v[..8], o)
  {
    LowByteMask();
    hide Lit;
    var index := Xor(And(v, Lit(0xff)), Promoted(o));
    var x: Octet := Xor(v[..8], o);
    assert index == x + Zero(24);
    LeadingZeros(x, 24);
    OctetIndex(x);
  }

  lemma ShiftedOut(kind: CrcType, w: Word)
    requires Narrow(kind, w)
    ensures var v := if Reflected(kind) then Shr(w, 8) else Shl(w, 8);
            Coefficients(kind, v) == Coefficients(kind, w)[8..] + Zero(8)
    ensures Reflected(kind) ==> Narrow(kind, Shr(w, 8))
  {
  }

  /** The byte that leaves the register. */
  lemma LeavingByte(kind: CrcType, w: Word, o: Octet)
    ensures var v := if Reflected(kind) then w else Shr(w, Order(kind) - 8);
            SentOctet(kind, Xor(v[..8], o)) == Xor(Coefficients(kind, w)[..8], SentOctet(kind, o))
  {
  }

  /** One table look-up does what eight single bits would do. */
  lemma ByteAtATime(kind: CrcType, w: Word, o: Octet, x: Octet)
    requires Narrow(kind, w)
    requires var v := if Reflected(kind) then w else Shr(w, Order(kind) - 8); x == Xor(v[..8], o)
    ensures var v := if Reflected(kind) then Shr(w, 8) else Shl(w, 8);
            Coefficients(kind, Xor(v, Entry(kind, x))) == Feed(Coefficients(kind, w), SentOctet(kind, o), Generator(kind))
    ensures Reflected(kind) ==> Narrow(kind, Xor(Shr(w, 8), Entry(kind, x)))
  {
    hide Feed, Coefficients, SentOctet, Packed, Generator;
    var n, r, g := Order(kind), Coefficients(kind, w), Generator(kind);
    var s := SentOctet(kind, o);
    var v := if Reflected(kind) then Shr(w, 8) else Shl(w, 8);
    ShiftedOut(kind, w);
    LeavingByte(kind, w, o);
    assert r == r[..8] + r[8..];
    FeedBlock(r[..8], r[8..], s, g, SentOctet(kind, x));
    CoefficientsSum(kind, v, Entry(kind, x));
  }

  // ---------------------------------------------------------------------
  // The right-shifting register, bit by bit

  /** A step of the register that shifts to the right, with the reflected polynomial. */
  function RightStep(kind: CrcType, w: Word): Word {
    if w[0] then Xor(Shr(w, 1), Mirror(Poly(kind), Order(kind))) else Shr(w, 1)
  }

  function RightSteps(kind: CrcType, w: Word, k: nat): Word {
    if k == 0 then w else RightStep(kind, RightSteps(kind, w, k - 1))
  }

  lemma MirrorOfMirror(w: Word, n: nat)
    requires n <= WIDTH && forall i :: n <= i < WIDTH ==> !w[i]
    ensures Mirror(Mirror(w, n), n) == w
  {
  }

  lemma RightStepNarrow(kind: CrcType, w: Word)
    requires Narrow(kind, w)
    ensures Narrow(kind, RightStep(kind, w))
  {
    hide Poly;
  }

  /** It is the step of the register, seen in the mirror. */
  lemma RightStepIsStep(kind: CrcType, w: Word)
    requires Reflected(kind) && Narrow(kind, w)
    ensures Coefficients(kind, RightStep(kind, w)) == Step(Coefficients(kind, w), false, Generator(kind))
  {
    var n := Order(kind);
    var v := Mirror(w, n);
    MirrorOfMirror(w, n);
    MirrorCarriesStep(v, Poly(kind), n);
    TableRound(kind, v);
    var shifted := if v[n - 1] then Xor(Shl(v, 1), Poly(kind)) else Shl(v, 1);
    hide Mirror, Poly, Step, Generator, Xor, Shl, Shr, MsbFirst;
    MirrorIsInvolution(shifted, n);
    MirrorIsInvolution(v, n);
  }

  lemma {:induction false} RightStepsFeed(kind: CrcType, w: Word, k: nat)
    requires Reflected(kind) && Narrow(kind, w)
    ensures Narrow(kind, RightSteps(kind, w, k))
    ensures Coefficients(kind, RightSteps(kind, w, k)) == Feed(Coefficients(kind, w), Zero(k), Generator(kind))
  {
    hide Narrow, Coefficients, Feed, RightStep, Generator;
    if k == 0 {
      FeedNothing(Coefficients(kind, w), Generator(kind));
    } else {
      RightStepsFeed(kind, w, k - 1);
      RightStepNarrow(kind, RightSteps(kind, w, k - 1));
      RightStepIsStep(kind, RightSteps(kind, w, k - 1));
      FeedOneMore(Coefficients(kind, w), k - 1, Generator(kind));
    }
  }

  lemma ByteAdded(kind: CrcType, w: Word, o: Octet)
    requires Reflected(kind) && Narrow(kind, w)
    ensures Narrow(kind, Xor(w, Promoted(o)))
    ensures Coefficients(kind, Xor(w, Promoted(o))) == Xor(Coefficients(kind, w), o + Zero(Order(kind) - 8))
  {
  }

  /**
   The reflected variants look up in one table access what eight steps of the
   right-shifting register do to the byte added to its low end.
   */
  lemma LookUpIsEightSteps(kind: CrcType, w: Word, o: Octet)
    requires Reflected(kind) && Narrow(kind, w)
    ensures Xor(Shr(w, 8), Entry(kind, Xor(w[..8], o))) == RightSteps(kind, Xor(w, Promoted(o)), 8)
  {
    hide Narrow, Coefficients, Feed, RightSteps, Generator, Entry, Xor, Shr;
    ByteAdded(kind, w, o);
    RightStepsFeed(kind, Xor(w, Promoted(o)), 8);
    FeedInjects(Coefficients(kind, w), o, Generator(kind));
    ByteAtATime(kind, w, o, Xor(w[..8], o));
    PackedUnique(kind, Xor(Shr(w, 8), Entry(kind, Xor(w[..8], o))), RightSteps(kind, Xor(w, Promoted(o)), 8));
  }

  lemma MaskedSame(kind: CrcType, w: Word, mask: Word)
    requires IsMask(mask, Order(kind))
    ensures Narrow(kind, And(w, mask)) && Coefficients(kind, And(w, mask)) == Coefficients(kind, w)
  {
  }

  // ---------------------------------------------------------------------

  class CrcStream {
    const kind: CrcType
    var reflect: bool
    var order: nat
    var mask: Word
    var initial: Word
    var final: Word
    var checksum: Word
    const table: array<Word>
    ghost var written: seq<Octet>

    ghost predicate Valid()
      reads this, table
    {
      && reflect == Reflected(kind) && order == Order(kind)
      && IsMask(mask, order) && initial == Initial(kind) && final == Final(kind)
      && table.Length == 256
      && (forall i :: 0 <= i < 256 ==> table[i] == Entry(kind, Low(i, 8)))
      && Narrow(kind, checksum) && Coefficients(kind, checksum) == Register(kind, written)
    }

    constructor (kind: CrcType)
      ensures Valid() && written == [] && this.kind == kind && fresh(table)
    {
      hide Low, Lit, Xor, And, Shl, Minus1, Feed, Coefficients, Narrow, IsMask, Register, Sent, Entry;
      var refl, ord, init := true, 32, Lit(0xffffffff);
      var poly := Lit(0x04c11db7);
      match kind {
        case Crc16 => poly, ord, init := Lit(0x8005), 16, Lit(0xffff);
        case Crc32 =>
        case Ccitt => poly, refl, ord, init := Lit(0x1021), false, 16, Lit(0x0000);
      }
      var high, m := HighAndMask(ord);
      var entries := new Word[256];
      FillTable(kind, refl, ord, high, poly, m, entries);
      this.kind, reflect, order, mask, initial, final, checksum := kind, refl, ord, m, init, init, init;
      table := entries;
      written := [];
      InitialNarrow(kind);
    }

    static method HighAndMask(order: nat) returns (high: Word, mask: Word)
      requires 1 <= order <= WIDTH
      ensures high == OneAt(order - 1) && IsMask(mask, order)
    {
      hide IsMask;
      MaskCovers(order);
      high := Shl(OneAt(0), order - 1);
      assert high == OneAt(order - 1);
      mask := Or(Shl(Minus1(high), 1), OneAt(0));
    }

    /** The loops of the constructor. */
    static method FillTable(kind: CrcType, refl: bool, ord: nat, high: Word, poly: Word, m: Word, entries: array<Word>)
      requires refl == Reflected(kind) && ord == Order(kind) && high == OneAt(ord - 1) && poly == Poly(kind)
      requires IsMask(m, ord) && entries.Length == 256
      modifies entries
      ensures forall i :: 0 <= i < 256 ==> entries[i] == Entry(kind, Low(i, 8))
    {
      hide Feed, Low, Poly, Entry, Packed, Coefficients, Mirror, Narrow, MsbFirst, IsMask;
      for i := 0 to 256
        invariant forall k :: 0 <= k < i ==> entries[k] == Entry(kind, Low(k, 8))
      {
        var e := OneEntry(kind, refl, ord, high, poly, m, i);
        entries[i] := e;
      }
    }

    /** The inner loop of the constructor. */
    static method OneEntry(kind: CrcType, refl: bool, ord: nat, high: Word, poly: Word, m: Word, i: nat)
      returns (e: Word)
      requires refl == Reflected(kind) && ord == Order(kind) && high == OneAt(ord - 1) && poly == Poly(kind)
      requires IsMask(m, ord)
      ensures e == Entry(kind, Low(i, 8))
    {
      hide Feed, Low, Poly, Packed, Coefficients, Mirror, Narrow, MsbFirst, IsMask, Shl, Xor, And;
      var low := Lit(i);
      if refl {
        low := Reflect(low, 8);
      }
      TableStart(kind, i, low);
      var crc: Word := Shl(low, ord - 8);
      ghost var start := SentOctet(kind, Low(i, 8)) + Zero(ord - 8);
      assert Feed(start, Zero(0), Generator(kind)) == start by {
        FeedNothing(start, Generator(kind));
      }
      for j := 0 to 8
        invariant MsbFirst(crc, ord) == Feed(start, Zero(j), Generator(kind))
      {
        TableRound(kind, crc);
        FeedOneMore(start, j, Generator(kind));
        BitTest(crc, ord - 1);
        if And(crc, high) != NOTHING {
          crc := Xor(Shl(crc, 1), poly);
        } else {
          crc := Shl(crc, 1);
        }
      }
      TableStore(kind, crc, m);
      var turned := crc;
      if refl {
        turned := Reflect(crc, ord);
      }
      e := And(turned, m);
      PackedUnique(kind, e, Entry(kind, Low(i, 8)));
    }

    /** `write`: the register moves on by the bytes written. */
    method Write(data: seq<Octet>) returns (count: nat)
      requires Valid()
      modifies this`checksum, this`written
      ensures Valid() && count == |data|
      ensures written == old(written) + data
    {
      hide Low, Coefficients, Narrow, IsMask, Register, Entry, Initial;
      ghost var before := written;
      var i := 0;
      assert data[..0] == [];
      assert before + [] == before;
      while i < |data|
        invariant 0 <= i <= |data|
        invariant Valid() && written == before + data[..i]
      {
        WriteByte(data[i]);
        assert data[..i + 1] == data[..i] + [data[i]];
        i := i + 1;
      }
      assert data[..i] == data;
      return |data|;
    }

    /** The body of the loop of `write`. */
    method WriteByte(o: Octet)
      requires Valid()
      modifies this`checksum, this`written
      ensures Valid() && written == old(written) + [o]
    {
      hide Feed, Sent, Coefficients, Narrow, Entry, Low, Xor, And, Shl, Shr, Lit, Generator, IsMask, Register;
      RegisterContinues(kind, written, [o]);
      SentOne(kind, o);
      if reflect {
        IndexBits(checksum, o);
        var index := ToNat(Xor(And(checksum, Lit(0xff)), Promoted(o)));
        ByteAtATime(kind, checksum, o, Low(index, 8));
        checksum := Xor(Shr(checksum, 8), table[index]);
      } else {
        IndexBits(Shr(checksum, order - 8), o);
        var index := ToNat(Xor(And(Shr(checksum, order - 8), Lit(0xff)), Promoted(o)));
        ByteAtATime(kind, checksum, o, Low(index, 8));
        MaskedSame(kind, Xor(Shl(checksum, 8), table[index]), mask);
        checksum := And(Xor(Shl(checksum, 8), table[index]), mask);
      }
      written := written + [o];
    }

    /** Resetting forgets what was written. */
    method Reset()
      requires Valid()
      modifies this`checksum, this`written
      ensures Valid() && written == []
    {
      hide Low, Lit, Feed, Sent, Coefficients, Narrow, IsMask, Register, Entry, Initial;
      checksum := initial;
      written := [];
      InitialNarrow(kind);
    }

    method GetChecksum() returns (c: Word)
      requires Valid()
      ensures c == Checksum(kind, written)
    {
      c := Xor(checksum, final);
      PackedUnique(kind, checksum, Packed(kind, Register(kind, written)));
    }
  }

  lemma FeedNothing(r: Bits, g: Bits)
    requires |r| == |g| > 0
    ensures Feed(r, Zero(0), g) == r
  {
  }

  lemma SentOne(kind: CrcType, o: Octet)
    ensures Sent(kind, [o]) == SentOctet(kind, o)
  {
    assert [o][1..] == [];
  }

  lemma InitialNarrow(kind: CrcType)
    ensures Narrow(kind, Initial(kind)) && Coefficients(kind, Initial(kind)) == Register(kind, [])
  {
    hide Low;
    match kind
    case Crc16 =>
      assert Pow2(8) == 256;
      assert Pow2(12) == 4096;
      assert Pow2(16) == 65536;
      LowVanishes(0xffff, 16, WIDTH);
    case Crc32 =>
    case Ccitt => LowOfZero(WIDTH);
  }
}
