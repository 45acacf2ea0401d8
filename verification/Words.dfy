/**
 Machine words by their bits, bit 0 first: a `tuint32` is a list of 32 bits and
 an `unsigned char` a list of 8.
 */
module Words {
  import opened Base
  import opened Gf2

  const WIDTH: nat := 32

  type Word = w: Bits | |w| == WIDTH witness Zero(WIDTH)
  type Octet = o: Bits | |o| == 8 witness Zero(8)

  /** The low `k` bits of a number. */
  function Low(n: nat, k: nat): (b: Bits)
    ensures |b| == k
    decreases k
  {
    if k == 0 then [] else [n % 2 == 1] + Low(n / 2, k - 1)
  }

  function Lit(n: nat): Word {
    Low(n, WIDTH)
  }

  function ToNat(b: Bits): nat {
    if b == [] then 0 else (if b[0] then 1 else 0) + 2 * ToNat(b[1..])
  }

  lemma {:induction false} LowOfNat(b: Bits)
    ensures Low(ToNat(b), |b|) == b && ToNat(b) < Pow2(|b|)
  {
    if b != [] {
      LowOfNat(b[1..]);
      assert b == [b[0]] + b[1..];
    }
  }

  lemma OctetIndex(o: Octet)
    ensures ToNat(o) < 256 && Low(ToNat(o), 8) == o
  {
    LowOfNat(o);
    assert Pow2(8) == 256;
  }

  lemma {:induction false} LowExtends(n: nat, k: nat, m: nat)
    requires k <= m
    ensures Low(n, m)[..k] == Low(n, k)
    decreases k
  {
    if k > 0 {
      LowExtends(n / 2, k - 1, m - 1);
      assert Low(n, m)[..k] == [n % 2 == 1] + Low(n / 2, m - 1)[..k - 1];
    }
  }

  lemma {:induction false} LowVanishes(n: nat, k: nat, m: nat)
    requires n < Pow2(k) && k <= m
    ensures Low(n, m) == Low(n, k) + Zero(m - k)
    decreases m
  {
    if k == 0 {
      LowOfZero(m);
    } else {
      LowVanishes(n / 2, k - 1, m - 1);
    }
  }

  lemma {:induction false} LowOfZero(m: nat)
    ensures Low(0, m) == Zero(m)
  {
    if m > 0 {
      LowOfZero(m - 1);
    }
  }

  // The operators of the language

  function And(a: Word, b: Word): Word {
    seq(WIDTH, i requires 0 <= i < WIDTH => a[i] && b[i])
  }

  function Or(a: Word, b: Word): Word {
    seq(WIDTH, i requires 0 <= i < WIDTH => a[i] || b[i])
  }

  function Shl(a: Word, k: nat): Word {
    seq(WIDTH, i requires 0 <= i < WIDTH => i >= k && a[i - k])
  }

  function Shr(a: Word, k: nat): Word {
    seq(WIDTH, i requires 0 <= i < WIDTH => i + k < WIDTH && a[i + k])
  }

  /** `w - 1`, borrowing from bit to bit. */
  function Minus1(w: Bits): (r: Bits)
    ensures |r| == |w|
  {
    if w == [] then [] else if w[0] then [false] + w[1..] else [true] + Minus1(w[1..])
  }

  const NOTHING: Word := Zero(WIDTH)

  /** The word with one bit set, or none if there is no such bit. */
  function OneAt(k: int): Word {
    seq(WIDTH, i requires 0 <= i < WIDTH => i == k)
  }

  lemma {:induction false} Minus1OfOne(w: Bits, k: nat)
    requires k < |w| && forall i :: 0 <= i < |w| ==> (w[i] <==> i == k)
    ensures forall i :: 0 <= i < |w| ==> (Minus1(w)[i] <==> i < k)
    decreases k
  {
    if k > 0 {
      Minus1OfOne(w[1..], k - 1);
      forall i | 0 <= i < |w|
        ensures Minus1(w)[i] <==> i < k
      {
        if i > 0 {
          assert Minus1(w)[i] == Minus1(w[1..])[i - 1];
        }
      }
    }
  }

  lemma OneShifts(k: int)
    requires -1 <= k <= WIDTH
    ensures k >= 0 ==> Shl(OneAt(k), 1) == OneAt(k + 1)
    ensures k < WIDTH ==> Shr(OneAt(k), 1) == OneAt(k - 1)
    ensures OneAt(k) == NOTHING <==> k == -1 || k == WIDTH
  {
    if 0 <= k < WIDTH {
      assert OneAt(k)[k] && !NOTHING[k];
    }
  }

  lemma BitTest(w: Word, k: nat)
    requires k < WIDTH
    ensures And(w, OneAt(k)) != NOTHING <==> w[k]
  {
    assert And(w, OneAt(k))[k] == w[k];
    if !w[k] {
      assert And(w, OneAt(k)) == NOTHING;
    }
  }
}
