/** Decimal text of integers, as strconv.FormatInt writes it and strconv.ParseInt reads it. */
module Decimal {

  const DIGITS := "0123456789"

  predicate IsDigit(c: char) {
    '0' <= c <= '9'
  }

  predicate AllDigits(s: string) {
    forall i :: 0 <= i < |s| ==> IsDigit(s[i])
  }

  function DigitValue(c: char): nat
    requires IsDigit(c)
  {
    c as int - '0' as int
  }

  function DigitChar(d: nat): (c: char)
    requires d < 10
    ensures IsDigit(c) && DigitValue(c) == d
  {
    DIGITS[d]
  }

  /** No sign, no leading zero except for zero itself. */
  function OfNat(n: nat): string {
    if n < 10 then [DigitChar(n)] else OfNat(n / 10) + [DigitChar(n % 10)]
  }

  function OfInt(i: int): string {
    if i < 0 then "-" + OfNat(-i) else OfNat(i)
  }

  function Value(s: string): nat
    requires AllDigits(s)
  {
    if s == "" then 0 else Value(s[..|s| - 1]) * 10 + DigitValue(s[|s| - 1])
  }

  /** The value of an optional minus sign followed by digits. */
  function SignedValue(s: string): int
    requires s != "" && (AllDigits(s) || (s[0] == '-' && AllDigits(s[1..])))
  {
    if s[0] == '-' then 0 - Value(s[1..]) else Value(s)
  }

  function PowerOfTen(k: nat): nat {
    if k == 0 then 1 else 10 * PowerOfTen(k - 1)
  }

  lemma ShiftedDigit(d: nat, power: nat)
    ensures d * (10 * power) == 10 * (d * power)
  {
  }

  /** The first digit counts as often as the power of ten of what follows it. */
  lemma {:induction false} ValueIsPositional(c: char, s: string)
    requires IsDigit(c) && AllDigits(s)
    ensures AllDigits([c] + s) && Value([c] + s) == DigitValue(c) * PowerOfTen(|s|) + Value(s)
    decreases |s|
  {
    var t := [c] + s;
    if s == "" {
      assert t[..0] == "";
    } else {
      var front, last := s[..|s| - 1], s[|s| - 1];
      assert t[..|t| - 1] == [c] + front && t[|t| - 1] == last;
      ValueIsPositional(c, front);
      ShiftedDigit(DigitValue(c), PowerOfTen(|front|));
    }
  }

  lemma {:induction false} OfNatShape(n: nat)
    ensures OfNat(n) != "" && AllDigits(OfNat(n))
    ensures Value(OfNat(n)) == n
    ensures OfNat(n)[0] == '0' ==> n == 0 && OfNat(n) == "0"
  {
    if n < 10 {
      var s := OfNat(n);
      assert s[..|s| - 1] == "";
    } else {
      OfNatShape(n / 10);
      var s := OfNat(n);
      assert s[..|s| - 1] == OfNat(n / 10);
      assert s[0] == OfNat(n / 10)[0];
    }
  }

  lemma OfNatInjective(m: nat, n: nat)
    requires OfNat(m) == OfNat(n)
    ensures m == n
  {
    OfNatShape(m);
    OfNatShape(n);
  }

  lemma OfIntRoundTrip(i: int)
    ensures OfInt(i) != "" && (AllDigits(OfInt(i)) || (OfInt(i)[0] == '-' && AllDigits(OfInt(i)[1..])))
    ensures SignedValue(OfInt(i)) == i
  {
    if i < 0 {
      OfNatShape(-i);
      assert OfInt(i)[1..] == OfNat(-i);
    } else {
      OfNatShape(i);
    }
  }

  lemma {:induction false} ValueOfZeroes(s: string)
    requires AllDigits(s) && s != "" && s[0] != '0'
    ensures Value(s) >= 1
  {
    if |s| > 1 {
      ValueOfZeroes(s[..|s| - 1]);
    } else {
      assert s[..0] == "";
    }
  }

  /** Digits without a superfluous leading zero are the text of their value. */
  lemma {:induction false} TextOfValue(s: string)
    requires AllDigits(s) && s != "" && (|s| == 1 || s[0] != '0')
    ensures OfNat(Value(s)) == s
  {
    var front := s[..|s| - 1];
    assert s == front + [s[|s| - 1]];
    if |s| == 1 {
      assert front == "";
    } else {
      TextOfValue(front);
      ValueOfZeroes(front);
      assert Value(s) / 10 == Value(front) && Value(s) % 10 == DigitValue(s[|s| - 1]);
    }
  }
}
