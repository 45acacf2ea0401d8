/**
 Polynomials over GF(2) as lists of coefficients, highest power first, and the
 shift register that divides by one.  A generator of degree n is given by its n
 lower coefficients; its leading one is understood.
 */
module Gf2 {

  type Bits = seq<bool>

  function Zero(n: nat): (r: Bits)
    ensures |r| == n
  {
    seq(n, _ => false)
  }

  function Xor(a: Bits, b: Bits): (r: Bits)
    requires |a| == |b|
    ensures |r| == |a|
  {
    seq(|a|, i requires 0 <= i < |a| => a[i] != b[i])
  }

  lemma XorCancels(a: Bits, b: Bits)
    requires |a| == |b|
    ensures Xor(Xor(a, b), b) == a && Xor(a, a) == Zero(|a|) && Xor(a, Zero(|a|)) == a && Xor(Zero(|a|), a) == a
  {
  }

  lemma XorConcat(a: Bits, b: Bits, c: Bits, d: Bits)
    requires |a| == |c| && |b| == |d|
    ensures Xor(a + b, c + d) == Xor(a, c) + Xor(b, d)
  {
  }

  // ---------------------------------------------------------------------
  // Division with remainder

  /** The product of `q` and the generator. */
  function Mul(q: Bits, g: Bits): (p: Bits)
    ensures |p| == |q| + |g|
    decreases q
  {
    if q == [] then Zero(|g|) else Xor(Term(q[0], g, |q| - 1), [false] + Mul(q[1..], g))
  }

  /** Some quotient leaves this remainder, which has a smaller degree than the generator. */
  ghost predicate IsRemainder(d: Bits, g: Bits, r: Bits) {
    && |r| == |g| <= |d|
    && exists q: Bits :: |q| == |d| - |g| && Xor(Mul(q, g), Zero(|q|) + r) == d
  }

  /** One round of long division: cancel the highest power of the dividend. */
  function Cancel(d: Bits, g: Bits): (r: Bits)
    requires |g| < |d|
    ensures |r| == |d| - 1
  {
    if d[0] then Xor(d[1..], g + Zero(|d| - 1 - |g|)) else d[1..]
  }

  function LongDivision(d: Bits, g: Bits): (r: Bits)
    requires |g| <= |d|
    ensures |r| == |g|
    decreases |d|
  {
    if |d| == |g| then d else LongDivision(Cancel(d, g), g)
  }

  function Quotient(d: Bits, g: Bits): (q: Bits)
    requires |g| <= |d|
    ensures |q| == |d| - |g|
    decreases |d|
  {
    if |d| == |g| then [] else [d[0]] + Quotient(Cancel(d, g), g)
  }

  /** The multiple of the generator that one quotient bit stands for, `k` places up. */
  function Term(bit: bool, g: Bits, k: nat): (r: Bits)
    ensures |r| == 1 + |g| + k
  {
    if bit then [true] + g + Zero(k) else Zero(1 + |g| + k)
  }

  lemma CancelUndone(d: Bits, g: Bits)
    requires |g| < |d|
    ensures Xor(Term(d[0], g, |d| - 1 - |g|), [false] + Cancel(d, g)) == d
  {
  }

  lemma Lift(t: Bits, a: Bits, b: Bits)
    requires |t| == |a| + 1 == |b| + 1
    ensures Xor(Xor(t, [false] + a), [false] + b) == Xor(t, [false] + Xor(a, b))
  {
  }

  lemma MulCons(bit: bool, q: Bits, g: Bits)
    ensures Mul([bit] + q, g) == Xor(Term(bit, g, |q|), [false] + Mul(q, g))
  {
    assert ([bit] + q)[1..] == q;
  }

  lemma ZeroCons(k: nat, r: Bits)
    ensures Zero(k + 1) + r == [false] + (Zero(k) + r)
  {
  }

  lemma MulPlus(bit: bool, q: Bits, g: Bits, r: Bits)
    requires |r| == |g|
    ensures Xor(Mul([bit] + q, g), Zero(|q| + 1) + r)
         == Xor(Term(bit, g, |q|), [false] + Xor(Mul(q, g), Zero(|q|) + r))
  {
    hide Mul, Term, Xor, Zero;
    MulCons(bit, q, g);
    ZeroCons(|q|, r);
    Lift(Term(bit, g, |q|), Mul(q, g), Zero(|q|) + r);
  }

  lemma {:induction false} DivisionWorks(d: Bits, g: Bits)
    requires |g| <= |d|
    ensures var q := Quotient(d, g); Xor(Mul(q, g), Zero(|q|) + LongDivision(d, g)) == d
    decreases |d|
  {
    if |d| == |g| {
      assert Zero(0) + d == d;
    } else {
      DivisionWorks(Cancel(d, g), g);
      MulPlus(d[0], Quotient(Cancel(d, g), g), g, LongDivision(d, g));
      CancelUndone(d, g);
    }
  }

  lemma CancelTerm(bit: bool, g: Bits, rest: Bits)
    requires |g| <= |rest|
    ensures Cancel(Xor(Term(bit, g, |rest| - |g|), [false] + rest), g) == rest
  {
  }

  lemma {:induction false} QuotientUnique(d: Bits, g: Bits, q: Bits, r: Bits)
    requires |r| == |g| && |q| + |g| == |d|
    requires Xor(Mul(q, g), Zero(|q|) + r) == d
    ensures r == LongDivision(d, g)
    decreases q
  {
    hide Cancel, Xor, Term;
    if q == [] {
      XorCancels(r, r);
      assert Zero(0) + r == r;
    } else {
      var rest := Xor(Mul(q[1..], g), Zero(|q| - 1) + r);
      assert q == [q[0]] + q[1..];
      MulPlus(q[0], q[1..], g, r);
      CancelTerm(q[0], g, rest);
      QuotientUnique(rest, g, q[1..], r);
    }
  }

  /** Long division finds the remainder, and there is only one. */
  lemma RemainderIsUnique(d: Bits, g: Bits, r: Bits)
    requires |g| <= |d|
    ensures IsRemainder(d, g, r) <==> r == LongDivision(d, g)
  {
    DivisionWorks(d, g);
    if IsRemainder(d, g, r) {
      var q: Bits :| |q| == |d| - |g| && Xor(Mul(q, g), Zero(|q|) + r) == d;
      QuotientUnique(d, g, q, r);
    }
  }

  // ---------------------------------------------------------------------
  // The shift register

  /** Shift one message bit into the register. */
  function Step(r: Bits, b: bool, g: Bits): (s: Bits)
    requires |r| == |g| > 0
    ensures |s| == |g|
  {
    Xor(r[1..] + [false], if r[0] != b then g else Zero(|g|))
  }

  function Feed(r: Bits, m: Bits, g: Bits): (s: Bits)
    requires |r| == |g| > 0
    ensures |s| == |g|
    decreases m
  {
    if m == [] then r else Feed(Step(r, m[0], g), m[1..], g)
  }

  /** initial * x^k + message * x^n, for a message of k bits. */
  function Dividend(initial: Bits, m: Bits): Bits {
    Xor(initial + Zero(|m|), m + Zero(|initial|))
  }

  lemma CancelIsStep(r: Bits, m: Bits, g: Bits)
    requires |r| == |g| > 0 && m != []
    ensures Cancel(Dividend(r, m), g) == Dividend(Step(r, m[0], g), m[1..])
  {
    var d, e := Dividend(r, m), Dividend(Step(r, m[0], g), m[1..]);
    assert d[0] == (r[0] != m[0]);
    forall i | 0 <= i < |e|
      ensures Cancel(d, g)[i] == e[i]
    {
      assert d[i + 1] == ((r + Zero(|m|))[i + 1] != (m + Zero(|r|))[i + 1]);
      assert (m + Zero(|r|))[i + 1] == (m[1..] + Zero(|r|))[i];
    }
  }

  lemma {:induction false} FeedDivides(r: Bits, m: Bits, g: Bits)
    requires |r| == |g| > 0
    ensures LongDivision(Dividend(r, m), g) == Feed(r, m, g)
    decreases m
  {
    if m == [] {
      assert r + Zero(0) == r && m + Zero(|r|) == Zero(|r|);
      XorCancels(r, r);
    } else {
      CancelIsStep(r, m, g);
      FeedDivides(Step(r, m[0], g), m[1..], g);
    }
  }

  /** The register holds the remainder of the initial value and the message so far. */
  lemma RegisterIsRemainder(initial: Bits, m: Bits, g: Bits, r: Bits)
    requires |initial| == |g| > 0
    ensures IsRemainder(Dividend(initial, m), g, r) <==> r == Feed(initial, m, g)
  {
    RemainderIsUnique(Dividend(initial, m), g, r);
    FeedDivides(initial, m, g);
  }

  lemma {:induction false} FeedConcat(r: Bits, a: Bits, b: Bits, g: Bits)
    requires |r| == |g| > 0
    ensures Feed(r, a + b, g) == Feed(Feed(r, a, g), b, g)
    decreases a
  {
    if a == [] {
      assert a + b == b;
    } else {
      assert (a + b)[1..] == a[1..] + b;
      FeedConcat(Step(r, a[0], g), a[1..], b, g);
    }
  }

  lemma StepLinear(r: Bits, s: Bits, x: bool, y: bool, g: Bits)
    requires |r| == |s| == |g| > 0
    ensures Step(Xor(r, s), x != y, g) == Xor(Step(r, x, g), Step(s, y, g))
  {
  }

  lemma {:induction false} FeedLinear(r: Bits, s: Bits, a: Bits, b: Bits, g: Bits)
    requires |r| == |s| == |g| > 0 && |a| == |b|
    ensures Feed(Xor(r, s), Xor(a, b), g) == Xor(Feed(r, a, g), Feed(s, b, g))
    decreases a
  {
    if a != [] {
      StepLinear(r, s, a[0], b[0], g);
      assert Xor(a, b)[1..] == Xor(a[1..], b[1..]);
      FeedLinear(Step(r, a[0], g), Step(s, b[0], g), a[1..], b[1..], g);
    }
  }

  /** Message bits may as well be added to the register before it is shifted. */
  lemma {:induction false} FeedInjects(r: Bits, m: Bits, g: Bits)
    requires |r| == |g| > 0 && |m| <= |g|
    ensures Feed(r, m, g) == Feed(Xor(r, m + Zero(|g| - |m|)), Zero(|m|), g)
    decreases m
  {
    var n, k := |g|, |m|;
    var x := Xor(r, m + Zero(n - k));
    if m == [] {
      assert m + Zero(n) == Zero(n);
      XorCancels(r, r);
    } else {
      var r1 := Step(r, m[0], g);
      FeedInjects(r1, m[1..], g);
      assert x[0] == (r[0] != m[0]);
      assert Step(x, false, g) == Xor(r1, m[1..] + Zero(n - k + 1));
      assert Zero(k)[1..] == Zero(k - 1);
    }
  }

  /** Leading zeros are shifted out without touching the rest. */
  lemma {:induction false} ZerosShiftOut(k: nat, s: Bits, g: Bits)
    requires k + |s| == |g| > 0
    ensures Feed(Zero(k) + s, Zero(k), g) == s + Zero(k)
    decreases k
  {
    if k == 0 {
      assert Zero(0) + s == s && s + Zero(0) == s;
    } else {
      var r := Zero(k) + s;
      assert Step(r, false, g) == Zero(k - 1) + (s + [false]);
      assert Zero(k)[1..] == Zero(k - 1);
      ZerosShiftOut(k - 1, s + [false], g);
      assert s + [false] + Zero(k - 1) == s + Zero(k);
    }
  }

  lemma HeadTakesMessage(head: Bits, tail: Bits, o: Bits, g: Bits)
    requires |head| == |o| && |head| + |tail| == |g| > 0
    ensures Feed(head + tail, o, g) == Feed(Xor(head, o) + tail, Zero(|o|), g)
  {
    FeedInjects(head + tail, o, g);
    XorConcat(head, tail, o, Zero(|tail|));
    XorCancels(tail, tail);
  }

  lemma SumOfParts(x: Bits, tail: Bits)
    ensures Xor(Zero(|x|) + tail, x + Zero(|tail|)) == x + tail
  {
  }

  lemma HeadAndTailApart(x: Bits, tail: Bits, g: Bits)
    requires |x| + |tail| == |g| > 0
    ensures Feed(x + tail, Zero(|x|), g)
         == Xor(Feed(Zero(|x|) + tail, Zero(|x|), g), Feed(x + Zero(|tail|), Zero(|x|), g))
  {
    SumOfParts(x, tail);
    XorCancels(Zero(|x|), Zero(|x|));
    FeedLinear(Zero(|x|) + tail, x + Zero(|tail|), Zero(|x|), Zero(|x|), g);
  }

  /**
   A whole block of bits at once: only the part of the register that leaves it
   needs to be divided, and that depends on as many bits as the block has.
   */
  lemma FeedBlock(head: Bits, tail: Bits, o: Bits, g: Bits, x: Bits)
    requires |head| == |o| && |head| + |tail| == |g| > 0 && x == Xor(head, o)
    ensures Feed(head + tail, o, g) == Xor(tail + Zero(|x|), Feed(x + Zero(|tail|), Zero(|x|), g))
  {
    hide Feed, Xor, Zero;
    HeadTakesMessage(head, tail, o, g);
    HeadAndTailApart(x, tail, g);
    ZerosShiftOut(|x|, tail, g);
  }

  /** Zeros keep an empty register empty. */
  lemma {:induction false} FeedZeros(k: nat, g: Bits)
    requires |g| > 0
    ensures Feed(Zero(|g|), Zero(k), g) == Zero(|g|)
    decreases k
  {
    if k > 0 {
      assert Step(Zero(|g|), false, g) == Zero(|g|);
      assert Zero(k)[1..] == Zero(k - 1);
      FeedZeros(k - 1, g);
    }
  }

  lemma SomeOne(r: Bits) returns (j: nat)
    requires r != Zero(|r|)
    ensures j < |r| && r[j]
  {
    j :| 0 <= j < |r| && r[j] != Zero(|r|)[j];
  }

  /** With a constant term in the generator, a register that is not empty never empties by itself. */
  lemma {:induction false} NeverEmpties(r: Bits, k: nat, g: Bits)
    requires |r| == |g| > 0 && g[|g| - 1] && r != Zero(|g|)
    ensures Feed(r, Zero(k), g) != Zero(|g|)
    decreases k
  {
    if k > 0 {
      var s := Step(r, false, g);
      var j := SomeOne(r);
      assert s[|g| - 1] == r[0];
      assert !r[0] ==> s[j - 1];
      assert Zero(k)[1..] == Zero(k - 1);
      NeverEmpties(s, k - 1, g);
    }
  }

  /** The two messages agree except in `width` consecutive bits. */
  predicate DifferInWindow(a: Bits, b: Bits, start: nat, width: nat) {
    |a| == |b| && forall i :: 0 <= i < |a| && !(start <= i < start + width) ==> a[i] == b[i]
  }

  lemma WindowSplits(d: Bits, start: nat, width: nat)
    requires d != Zero(|d|)
    requires forall i :: 0 <= i < |d| && !(start <= i < start + width) ==> !d[i]
    ensures start < |d|
    ensures var stop := if start + width < |d| then start + width else |d|;
            && d == Zero(start) + d[start..stop] + Zero(|d| - stop)
            && d[start..stop] != Zero(stop - start)
  {
    var j := SomeOne(d);
    var stop := if start + width < |d| then start + width else |d|;
    assert d[start..stop][j - start];
    assert !Zero(stop - start)[j - start];
  }

  lemma XorZero(a: Bits, b: Bits)
    requires |a| == |b| && a != b
    ensures Xor(a, b) != Zero(|a|)
  {
    var j :| 0 <= j < |a| && a[j] != b[j];
    assert Xor(a, b)[j];
  }

  /** A difference no longer than the register always shows in the register. */
  lemma BurstShows(initial: Bits, a: Bits, b: Bits, start: nat, width: nat, g: Bits)
    requires |initial| == |g| > 0 && g[|g| - 1]
    requires DifferInWindow(a, b, start, width) && width <= |g| && a != b
    ensures Feed(initial, a, g) != Feed(initial, b, g)
  {
    var n, d := |g|, Xor(a, b);
    XorZero(a, b);
    WindowSplits(d, start, width);
    var stop := if start + width < |d| then start + width else |d|;
    FeedBurst(start, d[start..stop], |d| - stop, g);
    FeedLinear(initial, initial, a, b, g);
    XorCancels(initial, initial);
    XorCancels(Feed(initial, a, g), Feed(initial, a, g));
  }

  /** An empty register fed with zeros, a burst, and zeros again. */
  lemma FeedBurst(lead: nat, w: Bits, trail: nat, g: Bits)
    requires |w| <= |g| && |g| > 0 && g[|g| - 1] && w != Zero(|w|)
    ensures Feed(Zero(|g|), Zero(lead) + w + Zero(trail), g) != Zero(|g|)
  {
    hide Feed;
    var n := |g|;
    FeedConcat(Zero(n), Zero(lead) + w, Zero(trail), g);
    FeedConcat(Zero(n), Zero(lead), w, g);
    FeedZeros(lead, g);
    FeedInjects(Zero(n), w, g);
    var x := w + Zero(n - |w|);
    XorCancels(x, x);
    var j := SomeOne(w);
    assert x[j];
    NeverEmpties(x, |w|, g);
    NeverEmpties(Feed(x, Zero(|w|), g), trail, g);
  }

  /** Feeding the register to itself, masked by `f`, leaves what does not depend on it. */
  lemma FeedItself(r: Bits, f: Bits, g: Bits)
    requires |r| == |f| == |g| > 0
    ensures Feed(r, Xor(r, f), g) == Feed(f, Zero(|g|), g)
  {
    hide Feed;
    var m := Xor(r, f);
    FeedInjects(r, m, g);
    assert m + Zero(0) == m;
    assert Xor(r, m) == f;
  }
}
