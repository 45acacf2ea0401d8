/** Decimal numbers as text. */
module Convert {
  import opened Base

  const TWO63: int := 0x8000_0000_0000_0000

  predicate IsDigit(c: char) {
    '0' <= c <= '9'
  }

  function DigitChar(d: nat): (c: char)
    requires d < 10
    ensures IsDigit(c)
  {
    '0' + d as char
  }

  function DigitValue(c: char): (d: nat)
    requires IsDigit(c)
    ensures d < 10
  {
    (c - '0') as nat
  }

  predicate AllDigits(s: string) {
    forall i :: 0 <= i < |s| ==> IsDigit(s[i])
  }

  /** A number as people write it: no zero in front unless it is the only digit. */
  predicate Numeral(s: string) {
    s != "" && AllDigits(s) && (|s| > 1 ==> s[0] != '0')
  }

  /** What a text of digits is worth. */
  function Value(s: string): nat
    requires AllDigits(s)
  {
    if s == "" then 0 else 10 * Value(s[..|s| - 1]) + DigitValue(s[|s| - 1])
  }

  function Digits(v: nat): string {
    (if v < 10 then "" else Digits(v / 10)) + [DigitChar(v % 10)]
  }

  /** The digits as the loop finds them, lowest first. */
  function LowFirst(v: nat): string {
    [DigitChar(v % 10)] + if v < 10 then "" else LowFirst(v / 10)
  }

  lemma {:induction false} ReversedLowFirst(v: nat)
    ensures Reversed(LowFirst(v)) == Digits(v)
  {
    if v >= 10 {
      ReversedLowFirst(v / 10);
      var rest, last := LowFirst(v / 10), [DigitChar(v % 10)];
      assert Reversed(last + rest) == Reversed(rest) + last;
    }
  }

  lemma DigitRoundTrip(d: nat, c: char)
    ensures d < 10 ==> DigitValue(DigitChar(d)) == d && (DigitChar(d) == '0' <==> d == 0)
    ensures IsDigit(c) ==> DigitChar(DigitValue(c)) == c
  {
  }

  /** The characters are the ten digits in their order. */
  lemma TenDigits(d: nat)
    requires d < 10
    ensures DigitChar(d) == "0123456789"[d] && DigitValue("0123456789"[d]) == d
  {
    DigitRoundTrip(d, '0');
    assert "0123456789"[d] == '0' + d as char;
  }

  function Pow10(k: nat): (p: nat)
    ensures p > 0
  {
    if k == 0 then 1 else 10 * Pow10(k - 1)
  }

  lemma {:induction false} ValueBelow(s: string)
    requires AllDigits(s)
    ensures Value(s) < Pow10(|s|)
  {
    if s != "" {
      ValueBelow(s[..|s| - 1]);
    }
  }

  lemma LastDigit(t: string)
    requires AllDigits(t) && t != ""
    ensures AllDigits(t[..|t| - 1]) && IsDigit(t[|t| - 1]) && t == t[..|t| - 1] + [t[|t| - 1]]
  {
  }

  lemma Regroup(s: string, u: string, c: char)
    ensures s + (u + [c]) == (s + u) + [c]
  {
  }

  lemma {:induction false} ValueConcat(s: string, t: string)
    requires AllDigits(s) && AllDigits(t)
    ensures AllDigits(s + t) && Value(s + t) == Value(s) * Pow10(|t|) + Value(t)
    decreases |t|
  {
    hide AllDigits, Value, IsDigit, DigitValue;
    if t == "" {
      assert s + t == s;
      ValueOfNothing();
    } else {
      LastDigit(t);
      var u, last := t[..|t| - 1], t[|t| - 1];
      ValueConcat(s, u);
      ValueAppend(u, last);
      ValueAppend(s + u, last);
      Regroup(s, u, last);
      TenTimes(Value(s), Pow10(|u|));
    }
  }

  lemma TenTimes(v: nat, p: nat)
    ensures v * (10 * p) == 10 * (v * p)
  {
  }

  /** Texts of one length are ordered as their values: the first different digit decides. */
  lemma NumeralsAreOrdered(common: string, c: char, d: char, s: string, t: string)
    requires AllDigits(common) && AllDigits(s) && AllDigits(t) && |s| == |t|
    requires IsDigit(c) && IsDigit(d) && c < d
    ensures AllDigits(common + [c] + s) && AllDigits(common + [d] + t)
    ensures Value(common + [c] + s) < Value(common + [d] + t)
  {
    ValueAppend(common, c);
    ValueAppend(common, d);
    ValueConcat(common + [c], s);
    ValueConcat(common + [d], t);
    ValueBelow(s);
    var a, b, p := Value(common + [c]), Value(common + [d]), Pow10(|s|);
    OneStepUp(a, b, p);
  }

  lemma OneStepUp(a: nat, b: nat, p: nat)
    requires a < b
    ensures a * p + p <= b * p
  {
    assert b * p == (a + 1) * p + (b - a - 1) * p;
  }

  lemma ValueAppend(s: string, c: char)
    requires AllDigits(s) && IsDigit(c)
    ensures AllDigits(s + [c]) && Value(s + [c]) == 10 * Value(s) + DigitValue(c)
  {
    assert (s + [c])[..|s|] == s;
  }

  /** The text of a number parses back to it and has no superfluous zero in front. */
  lemma {:induction false} DigitsParseBack(v: nat)
    ensures Numeral(Digits(v)) && Value(Digits(v)) == v
    ensures v > 0 ==> Digits(v)[0] != '0'
  {
    hide Value, IsDigit, DigitChar, DigitValue;
    DigitRoundTrip(v % 10, '0');
    if v >= 10 {
      DigitsParseBack(v / 10);
      ValueAppend(Digits(v / 10), DigitChar(v % 10));
    } else {
      ValueOfNothing();
      ValueAppend("", DigitChar(v % 10));
      assert "" + [DigitChar(v % 10)] == [DigitChar(v % 10)];
    }
  }

  lemma ValueOfNothing()
    ensures AllDigits("") && Value("") == 0
  {
  }

  /** Every such text is the text of its value. */
  lemma {:induction false} NumeralsAreDigits(s: string)
    requires Numeral(s)
    ensures Digits(Value(s)) == s
    ensures s != "0" ==> Value(s) > 0
    decreases |s|
  {
    var last := s[|s| - 1];
    assert s == s[..|s| - 1] + [last];
    assert DigitChar(DigitValue(last)) == last;
    if |s| > 1 {
      NumeralsAreDigits(s[..|s| - 1]);
      assert Value(s) / 10 == Value(s[..|s| - 1]) && Value(s) % 10 == DigitValue(last);
    } else {
      assert s[..0] == "";
    }
  }

  lemma {:induction false} LowFirstLength(v: nat, k: nat)
    requires v < Pow10(k) && k > 0
    ensures 1 <= |LowFirst(v)| <= k
  {
    if v >= 10 {
      LowFirstLength(v / 10, k - 1);
    }
  }

  lemma TwentyDigits(v: nat)
    requires v < TWO64
    ensures 1 <= |LowFirst(v)| <= 20
  {
    assert Pow10(6) == 1000000;
    assert Pow10(12) == 1000000000000;
    assert Pow10(18) == 1000000000000000000;
    assert Pow10(20) == 100000000000000000000;
    LowFirstLength(v, 20);
  }

  /** `std::reverse` on a part of a buffer. */
  method ReverseRange(buffer: array<char>, first: nat, last: nat)
    requires first <= last <= buffer.Length
    modifies buffer
    ensures buffer[first..last] == Reversed(old(buffer[first..last]))
    ensures forall k :: 0 <= k < buffer.Length && !(first <= k < last) ==> buffer[k] == old(buffer[k])
  {
    var a, b := first, last;
    while b - a > 1
      invariant first <= a && b <= last && a - first == last - b && a <= b + 1
      invariant forall k :: first <= k < a || b <= k < last ==> buffer[k] == old(buffer[first + last - 1 - k])
      invariant forall k :: a <= k < b ==> buffer[k] == old(buffer[k])
      invariant forall k :: 0 <= k < buffer.Length && !(first <= k < last) ==> buffer[k] == old(buffer[k])
    {
      b := b - 1;
      buffer[a], buffer[b] := buffer[b], buffer[a];
      a := a + 1;
    }
    ghost var was := old(buffer[first..last]);
    forall i | 0 <= i < last - first
      ensures buffer[first..last][i] == Reversed(was)[i]
    {
      assert was[last - first - 1 - i] == old(buffer[last - 1 - i]);
    }
  }

  /** The buffer holds this text, and a NUL after it. */
  predicate Holds(buffer: array<char>, at: nat, text: string)
    reads buffer
  {
    at + |text| < buffer.Length && buffer[at..at + |text|] == text && buffer[at + |text|] == '\0'
  }

  /** The digit loop of `ui64_to_str2`. */
  method EmitDigits(value: nat, buffer: array<char>, at: nat) returns (p: nat)
    requires at + |LowFirst(value)| <= buffer.Length
    modifies buffer
    ensures p == at + |LowFirst(value)| && buffer[at..p] == LowFirst(value)
    ensures forall k :: 0 <= k < at ==> buffer[k] == old(buffer[k])
  {
    hide DigitChar;
    p := at;
    var v := value;
    while p == at || v != 0
      invariant v >= 0 && at <= p <= at + |LowFirst(value)|
      invariant p == at ==> v == value
      invariant LowFirst(value) == buffer[at..p] + if v == 0 && p > at then "" else LowFirst(v)
      invariant forall k :: 0 <= k < at ==> buffer[k] == old(buffer[k])
      decreases p == at, v
    {
      Emitted(buffer[at..p], v);
      ghost var so := buffer[at..p];
      buffer[p] := DigitChar(v % 10);
      p := p + 1;
      assert buffer[at..p] == so + [DigitChar(v % 10)];
      v := v / 10;
    }
    assert buffer[at..p] + "" == buffer[at..p];
  }

  lemma Emitted(so: string, v: nat)
    ensures so + LowFirst(v) == so + [DigitChar(v % 10)] + (if v / 10 == 0 then "" else LowFirst(v / 10))
    ensures |LowFirst(v)| >= 1
  {
    hide DigitChar;
    var rest := if v / 10 == 0 then "" else LowFirst(v / 10);
    assert LowFirst(v) == [DigitChar(v % 10)] + rest by {
      assert v < 10 <==> v / 10 == 0;
    }
    hide LowFirst;
    assert so + ([DigitChar(v % 10)] + rest) == so + [DigitChar(v % 10)] + rest;
  }

  /** `ui64_to_str2` with `buffer + at` for its buffer. */
  method Ui64ToStr(value: nat, buffer: array<char>, at: nat)
    requires value < TWO64 && at + 21 <= buffer.Length
    modifies buffer
    ensures Holds(buffer, at, Digits(value)) && |Digits(value)| <= 20
    ensures forall k :: 0 <= k < at ==> buffer[k] == old(buffer[k])
  {
    hide LowFirst;
    TwentyDigits(value);
    ReversedLowFirst(value);
    if value == 0 {
      buffer[at] := '0';
      buffer[at + 1] := '\0';
      assert Digits(0) == "0";
      return;
    }
    var p := EmitDigits(value, buffer, at);
    ReverseRange(buffer, at, p);
    buffer[p] := '\0';
    assert buffer[at..p] == Digits(value);
  }

  function Printed(value: int): string {
    if value >= 0 then Digits(value) else "-" + Digits(-value)
  }

  /** `i64_to_str2`. */
  method I64ToStr(value: int, buffer: array<char>)
    requires -TWO63 < value < TWO63 && 22 <= buffer.Length
    modifies buffer
    ensures Holds(buffer, 0, Printed(value)) && |Printed(value)| <= 21
  {
    if value >= 0 {
      Ui64ToStr(value, buffer, 0);
    } else {
      buffer[0] := '-';
      Ui64ToStr(-value, buffer, 1);
      var n := 1 + |Digits(-value)|;
      assert buffer[0..n] == [buffer[0]] + buffer[1..n];
    }
  }

  function Parsed(s: string): int
    requires Numeral(s) || (s != "" && s[0] == '-' && Numeral(s[1..]))
  {
    if s[0] == '-' then 0 - Value(s[1..]) else Value(s)
  }

  /** Signed numbers print to texts that parse back, and to different texts. */
  lemma PrintedParsesBack(value: int)
    ensures var s := Printed(value);
            && (Numeral(s) || (s != "" && s[0] == '-' && Numeral(s[1..])))
            && Parsed(s) == value
  {
    if value >= 0 {
      DigitsParseBack(value);
    } else {
      DigitsParseBack(-value);
      assert Printed(value)[1..] == Digits(-value);
    }
  }
}
