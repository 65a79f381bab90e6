/** The words of JSON as sections 2, 6 and 7 of RFC 8259 define them, against the reader's tests. */
module JsonLexis {
  import opened JsonText
  import opened JsonRoundTrip
  import Decimal

  /** The parts of a number: `-` or nothing, an integer without superfluous zeros, a fraction and an
      exponent. */
  datatype Parts = Parts(minus: string, whole: string, fraction: string, exponent: string)

  predicate Digits(s: string) {
    s != "" && Decimal.AllDigits(s)
  }

  predicate IsParts(p: Parts) {
    && (p.minus == "" || p.minus == "-")
    && Digits(p.whole) && (p.whole == "0" || p.whole[0] != '0')
    && (p.fraction == "" || (p.fraction[0] == '.' && Digits(p.fraction[1..])))
    && (p.exponent == "" || (p.exponent[0] in {'e', 'E'} && |p.exponent| > 1
          && (Digits(p.exponent[1..]) || (p.exponent[1] in {'+', '-'} && Digits(p.exponent[2..])))))
  }

  function TextOf(p: Parts): string {
    p.minus + (p.whole + (p.fraction + p.exponent))
  }

  predicate NoDigitFirst(s: string) {
    s == "" || !('0' <= s[0] <= '9')
  }

  lemma {:induction false} RunOfDigits(s: string, rest: string)
    requires Decimal.AllDigits(s) && NoDigitFirst(rest)
    ensures DigitRun(s + rest) == |s|
  {
    if s == "" {
      assert s + rest == rest;
    } else {
      assert (s + rest)[1..] == s[1..] + rest;
      RunOfDigits(s[1..], rest);
    }
  }

  lemma AllRun(s: string)
    requires DigitRun(s) == |s|
    ensures Decimal.AllDigits(s)
  {
    DigitRunDigits(s);
  }

  lemma RunOfAll(s: string)
    requires Decimal.AllDigits(s)
    ensures DigitRun(s) == |s|
  {
    RunOfDigits(s, "");
    assert s + "" == s;
  }

  lemma RunPrefix(s: string)
    ensures Decimal.AllDigits(s[..DigitRun(s)]) && NoDigitFirst(s[DigitRun(s)..])
  {
    DigitRunDigits(s);
    RunEnds(s);
  }

  lemma {:induction false} RunEnds(s: string)
    ensures DigitRun(s) < |s| ==> !('0' <= s[DigitRun(s)] <= '9')
  {
    if s != "" && '0' <= s[0] <= '9' {
      RunEnds(s[1..]);
    }
  }

  predicate ExponentParts(e: string) {
    e == "" || (e[0] in {'e', 'E'} && |e| > 1 && (Digits(e[1..]) || (e[1] in {'+', '-'} && Digits(e[2..]))))
  }

  lemma ExponentExact(e: string)
    ensures IsExponent(e) <==> ExponentParts(e)
  {
    if e != "" && |e| > 1 {
      var t := if e[1] == '+' || e[1] == '-' then e[2..] else e[1..];
      if DigitRun(t) == |t| {
        AllRun(t);
      }
      if Decimal.AllDigits(t) {
        RunOfAll(t);
      }
      if e[1] == '+' || e[1] == '-' {
        assert e[1..][0] == e[1];
      }
    }
  }

  predicate FractionParts(s: string, fraction: string, exponent: string) {
    && s == fraction + exponent && ExponentParts(exponent)
    && (fraction == "" || (fraction[0] == '.' && Digits(fraction[1..])))
  }

  lemma FractionSplit(s: string) returns (fraction: string, exponent: string)
    requires IsFraction(s)
    ensures FractionParts(s, fraction, exponent)
  {
    if s != "" && s[0] == '.' {
      var n := DigitRun(s[1..]);
      fraction, exponent := s[..1 + n], s[1 + n..];
      RunPrefix(s[1..]);
      assert fraction[1..] == s[1..][..n];
    } else {
      fraction, exponent := "", s;
      assert s == "" + s;
    }
    ExponentExact(exponent);
  }

  lemma FractionJoined(s: string, fraction: string, exponent: string)
    requires FractionParts(s, fraction, exponent)
    ensures IsFraction(s) && NoDigitFirst(s)
  {
    ExponentExact(exponent);
    if fraction == "" {
      assert s == exponent;
    } else {
      var digits := fraction[1..];
      assert s[1..] == digits + exponent;
      RunOfDigits(digits, exponent);
      assert s[1 + |digits|..] == exponent;
    }
  }

  /** The reader's test for a number is the grammar. */
  lemma NumberGrammar(s: string)
    ensures IsNumber(s) <==> exists p :: IsParts(p) && s == TextOf(p)
  {
    if IsNumber(s) {
      var p := NumberSplit(s);
    }
    if p :| IsParts(p) && s == TextOf(p) {
      NumberJoined(s, p);
    }
  }

  lemma NumberSplit(s: string) returns (p: Parts)
    requires IsNumber(s)
    ensures IsParts(p) && s == TextOf(p)
  {
    var minus := if s[0] == '-' then "-" else "";
    var t := s[|minus|..];
    assert s == minus + t;
    var whole, fraction, exponent := UnsignedSplit(t);
    p := Parts(minus, whole, fraction, exponent);
  }

  lemma UnsignedSplit(t: string) returns (whole: string, fraction: string, exponent: string)
    requires DigitRun(t) > 0 && (DigitRun(t) > 1 ==> t[0] != '0') && IsFraction(t[DigitRun(t)..])
    ensures t == whole + (fraction + exponent) && IsParts(Parts("", whole, fraction, exponent))
  {
    var n := DigitRun(t);
    RunPrefix(t);
    whole := t[..n];
    fraction, exponent := FractionSplit(t[n..]);
    assert t == t[..n] + t[n..];
  }

  lemma NumberJoined(s: string, p: Parts)
    requires IsParts(p) && s == TextOf(p)
    ensures IsNumber(s)
  {
    var rest := p.fraction + p.exponent;
    var t := p.whole + rest;
    assert s == p.minus + t;
    assert t[0] == p.whole[0];
    assert (if s != "" && s[0] == '-' then s[1..] else s) == t;
    FractionJoined(rest, p.fraction, p.exponent);
    RunOfDigits(p.whole, rest);
    assert t[|p.whole|..] == rest;
  }

  /** The two halves of a supplementary character in UTF-16 combine to it. */
  lemma SurrogatesCombine(c: char)
    requires c as int >= 0x10000
    ensures
      var n := c as int - 0x10000;
      var high, low := 0xD800 + n / 0x400, 0xDC00 + n % 0x400;
      IsHighSurrogate(high) && IsLowSurrogate(low) && Combined(high, low) == c
  {
  }

  /** Hexadecimal digits count in either case. */
  lemma HexDigitsExact(c: char)
    ensures IsHex(c) <==> c in "0123456789abcdef" || c in "0123456789ABCDEF"
    ensures forall d: nat :: d < 16 && (c == "0123456789abcdef"[d] || c == "0123456789ABCDEF"[d]) ==> HexDigit(c) == d
  {
    if 'a' <= c <= 'f' {
      assert "0123456789abcdef"[c as int - 'a' as int + 10] == c;
    } else if 'A' <= c <= 'F' {
      assert "0123456789ABCDEF"[c as int - 'A' as int + 10] == c;
    } else if '0' <= c <= '9' {
      assert "0123456789abcdef"[c as int - '0' as int] == c;
    }
  }

  /** The escapes of one letter. */
  lemma ShortEscapesExact(c: char)
    ensures IsShortEscape(c) <==> c in {'"', '\\', '/', 'b', 'f', 'n', 'r', 't'}
    ensures IsShortEscape(c) ==>
              || (c in {'"', '\\', '/'} && ShortValue(c) == c)
              || (c == 'b' && ShortValue(c) == '\U{08}') || (c == 'f' && ShortValue(c) == '\U{0C}')
              || (c == 'n' && ShortValue(c) == '\U{0A}') || (c == 'r' && ShortValue(c) == '\U{0D}') || (c == 't' && ShortValue(c) == '\U{09}')
  {
  }
}
